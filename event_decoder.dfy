/**
 * The event decoder: `decode` reads the `detail-type` entry of the raw object, selects a
 * record type by exact string equality, and lets mapstructure (`decodeMap`) fill that
 * record from the whole object. A `detail-type` it does not list ends the process.
 */
module EventDecoder {
  import opened Wrappers
  import opened JsonValues
  import opened Coercion
  import opened AwsEvents
  import KeyMatch
  import Rfc3339

  /** The `detail-type` strings decode recognises, in the order of its switch. */
  const DetailTypes: seq<string> := [
    "AWS API Call via CloudTrail",
    "EC2 Instance Terminate Unsuccessful",
    "EC2 Instance Launch Successful",
    "EC2 Instance State-change Notification",
    "AWS Service Event via CloudTrail",
    "EC2 Instance-launch Lifecycle Action",
    "EC2 Instance Terminate Successful",
    "EBS Volume Notification",
    "EC2 Spot Instance Request Fulfillment",
    "EC2 Spot Instance Interruption Warning",
    "EC2 Instance Rebalance Recommendation"
  ]

  /** The record type of each case of the switch, position by position with DetailTypes. */
  const CaseShapes: seq<Shape> := [
    CloudTrailAPICall,
    EC2InstanceLaunchUnsuccessful,
    EC2InstanceLaunchSuccessful,
    EC2InstanceStateChangeNotification,
    CloudTrailServiceEvent,
    EC2InstanceLaunchLifecycleAction,
    EC2InstanceTerminateSuccessful,
    EBSVolumeEventNotification,
    EC2SpotInstanceRequestFulfillment,
    EC2SpotInstanceInterruptionWarning,
    EC2InstanceRebalanceRecommendation
  ]

  /** The switch of decode: the record type a `detail-type` string selects, if any. */
  function ShapeFor(detailType: string): (s: Option<Shape>)
    ensures s.Some? <==> detailType in DetailTypes
  {
    match detailType
    case "AWS API Call via CloudTrail" => Some(CloudTrailAPICall)
    case "EC2 Instance Terminate Unsuccessful" => Some(EC2InstanceLaunchUnsuccessful)
    case "EC2 Instance Launch Successful" => Some(EC2InstanceLaunchSuccessful)
    case "EC2 Instance State-change Notification" => Some(EC2InstanceStateChangeNotification)
    case "AWS Service Event via CloudTrail" => Some(CloudTrailServiceEvent)
    case "EC2 Instance-launch Lifecycle Action" => Some(EC2InstanceLaunchLifecycleAction)
    case "EC2 Instance Terminate Successful" => Some(EC2InstanceTerminateSuccessful)
    case "EBS Volume Notification" => Some(EBSVolumeEventNotification)
    case "EC2 Spot Instance Request Fulfillment" => Some(EC2SpotInstanceRequestFulfillment)
    case "EC2 Spot Instance Interruption Warning" => Some(EC2SpotInstanceInterruptionWarning)
    case "EC2 Instance Rebalance Recommendation" => Some(EC2InstanceRebalanceRecommendation)
    case _ => None
  }

  /** What decode hands back. */
  datatype Decoding =
    | Decoded(event: Event, errors: set<FieldError>)  // the record, with mapstructure's error (nil when empty)
    | Halt(dumped: Object)                             // the default branch: spew.Dump(raw), then os.Exit(1)

  /** raw["detail-type"] when it holds a string: a plain Go map index, no case folding. */
  function Discriminator(raw: Object): (d: Option<string>)
    ensures d.Some? ==> "detail-type" in raw && raw["detail-type"] == JString(d.value)
    ensures d.None? ==> "detail-type" !in raw || !raw["detail-type"].JString?
  {
    if "detail-type" in raw && raw["detail-type"].JString? then Some(raw["detail-type"].str) else None
  }

  /** The raw object names one of the record types decode knows. */
  predicate Recognised(raw: Object)
  {
    Discriminator(raw).Some? && Discriminator(raw).value in DetailTypes
  }

  /**
   * The Detail struct, from what the key matching "Detail" found: left at its zero value
   * when there is nothing or null there, decoded field by field from an object, and an
   * error otherwise.
   */
  function DetailFrom(shape: Shape, found: Option<Json>): (r: (Record, set<FieldError>))
    ensures Conforms(r.0, DetailSchema(shape))
    ensures found.None? || found == Some(JNull) ==> r.1 == {}
    ensures found.Some? && !found.value.JNull? && !found.value.JObject? ==> r.1 == {ExpectedObject([Key(DetailKey)])}
  {
    var schema := DetailSchema(shape);
    var path := [Key(DetailKey)];
    var zero := CoerceFields(schema, map[], path).0;
    match found
    case None => (zero, {})
    case Some(j) =>
      if j.JObject? then CoerceFields(schema, j.members, path)
      else if j.JNull? then (zero, {})
      else (zero, {ExpectedObject(path)})
  }

  /** The Detail struct of the record decoded from `raw`. */
  function DecodeDetail(shape: Shape, raw: Object): (r: (Record, set<FieldError>))
    ensures Conforms(r.0, DetailSchema(shape))
  {
    DetailFrom(shape, KeyMatch.Lookup(raw, DetailKey))
  }

  /** decodeMap: mapstructure fills the record; the squashed envelope comes from the top level. */
  function DecodeMap(shape: Shape, raw: Object): (d: Decoding)
    ensures d.Decoded? && d.event.shape == shape && WellFormed(d.event)
  {
    var envelope := CoerceFields(EnvelopeSchema, raw, []);
    var detail := DecodeDetail(shape, raw);
    Decoded(Event(shape, EnvelopeOf(envelope.0), detail.0), envelope.1 + detail.1)
  }

  /** decode: dispatch on `detail-type`, then decodeMap; the default branch halts. */
  function Decode(raw: Object): (d: Decoding)
    ensures d.Halt? <==> !Recognised(raw)
    ensures d.Halt? ==> d.dumped == raw
    ensures d.Decoded? ==> WellFormed(d.event)
  {
    ShapeForRecognises();
    match Discriminator(raw)
    case None => Halt(raw)
    case Some(detailType) =>
      match ShapeFor(detailType)
      case None => Halt(raw)
      case Some(shape) => DecodeMap(shape, raw)
  }

  // ----- The dispatch table -----

  /** Exactly the eleven listed strings select a record type, each the one listed beside it. */
  lemma ShapeForRecognises()
    ensures forall detailType :: ShapeFor(detailType).Some? <==> detailType in DetailTypes
    ensures forall i :: 0 <= i < |DetailTypes| ==> ShapeFor(DetailTypes[i]) == Some(CaseShapes[i])
  {
  }

  /** The one `detail-type` string that selects each record type. */
  function DetailTypeOf(shape: Shape): (dt: string)
    ensures ShapeFor(dt) == Some(shape)
  {
    match shape
    case CloudTrailAPICall => DetailTypes[0]
    case EC2InstanceLaunchUnsuccessful => DetailTypes[1]
    case EC2InstanceLaunchSuccessful => DetailTypes[2]
    case EC2InstanceStateChangeNotification => DetailTypes[3]
    case CloudTrailServiceEvent => DetailTypes[4]
    case EC2InstanceLaunchLifecycleAction => DetailTypes[5]
    case EC2InstanceTerminateSuccessful => DetailTypes[6]
    case EBSVolumeEventNotification => DetailTypes[7]
    case EC2SpotInstanceRequestFulfillment => DetailTypes[8]
    case EC2SpotInstanceInterruptionWarning => DetailTypes[9]
    case EC2InstanceRebalanceRecommendation => DetailTypes[10]
  }

  /** Each record type is selected by exactly one string, so the selection is one-to-one. */
  lemma ShapeForInverse(detailType: string)
    requires ShapeFor(detailType).Some?
    ensures detailType == DetailTypeOf(ShapeFor(detailType).value)
  {
    var i :| 0 <= i < |DetailTypes| && DetailTypes[i] == detailType;
    ShapeForRecognises();
    CaseDetailType(i);
  }

  /** The string listed at a position of the switch is the one its record type answers. */
  lemma CaseDetailType(i: nat)
    requires i < |DetailTypes|
    ensures DetailTypeOf(CaseShapes[i]) == DetailTypes[i]
  {
  }

  /** Different strings select different record types. */
  lemma ShapeForInjective(a: string, b: string)
    requires ShapeFor(a).Some? && ShapeFor(a) == ShapeFor(b)
    ensures a == b
  {
    ShapeForInverse(a);
    ShapeForInverse(b);
  }

  /**
   * "EC2 Instance Terminate Unsuccessful" selects the EC2InstanceLaunchUnsuccessful record,
   * and "EC2 Instance Launch Unsuccessful" is not listed at all: such an event halts.
   */
  lemma UnsuccessfulCases(raw: Object)
    requires "detail-type" in raw && raw["detail-type"] == JString("EC2 Instance Launch Unsuccessful")
    ensures ShapeFor("EC2 Instance Terminate Unsuccessful") == Some(EC2InstanceLaunchUnsuccessful)
    ensures Decode(raw) == Halt(raw)
  {
    assert ShapeFor("EC2 Instance Launch Unsuccessful") == None;
    ShapeForRecognises();
    assert Discriminator(raw) == Some("EC2 Instance Launch Unsuccessful");
    assert !Recognised(raw);
  }

  // ----- What decode returns -----

  /** A recognised object is decoded by decodeMap into the record type its string selects. */
  lemma DecodeRecognised(raw: Object)
    requires Recognised(raw)
    ensures ShapeFor(raw["detail-type"].str).Some?
    ensures Decode(raw) == DecodeMap(ShapeFor(raw["detail-type"].str).value, raw)
  {
    ShapeForRecognises();
  }

  /**
   * For a listed `detail-type` decode always returns the record of the listed type, whose
   * envelope carries that `detail-type`, whether or not mapstructure also reported errors;
   * for anything else it halts. It never returns the "cannot decode" error.
   */
  lemma DecodeOutcome(raw: Object)
    ensures Recognised(raw) ==>
              var dt := raw["detail-type"].str;
              && Decode(raw).Decoded?
              && Decode(raw).event.shape == ShapeFor(dt).value
              && Decode(raw).event.GenericAWSEventInfo().detailType == dt
    ensures !Recognised(raw) ==> Decode(raw) == Halt(raw)
  {
    if Recognised(raw) {
      var dt := raw["detail-type"].str;
      assert EnvelopeSchema[2] == Field("DetailType", "detail-type", StringKind);
      assert FieldValue(raw, EnvelopeSchema[2], []).value == Str(dt);
    }
  }

  /**
   * The envelope does not depend on any entry whose key matches none of the envelope's keys
   * (such as the detail payload): the record's GenericAWSEventInfo is unchanged.
   */
  lemma EnvelopeIgnoresOtherKeys(raw: Object, k: string, v: Json)
    requires Recognised(raw)
    requires forall f :: f in EnvelopeSchema ==> !KeyMatch.EqualFold(k, f.key)
    ensures Recognised(raw[k := v])
    ensures Decode(raw[k := v]).event.GenericAWSEventInfo() == Decode(raw).event.GenericAWSEventInfo()
  {
    NotDiscriminatorKey(k);
    DiscriminatorUpdateOther(raw, k, v);
    DecodedEnvelope(raw);
    DecodedEnvelope(raw[k := v]);
    UnknownKeyIgnored(EnvelopeSchema, raw, [], k, v);
  }

  /** A key that matches no envelope key up to case is not "detail-type". */
  lemma NotDiscriminatorKey(k: string)
    requires forall f :: f in EnvelopeSchema ==> !KeyMatch.EqualFold(k, f.key)
    ensures k != "detail-type"
  {
    assert EnvelopeSchema[2] in EnvelopeSchema;
    assert KeyMatch.EqualFold("detail-type", "detail-type");
  }

  /** Writing any key but "detail-type" leaves the discriminator, and so recognition, as it was. */
  lemma DiscriminatorUpdateOther(raw: Object, k: string, v: Json)
    requires k != "detail-type"
    ensures Discriminator(raw[k := v]) == Discriminator(raw)
    ensures Recognised(raw[k := v]) == Recognised(raw)
  {
  }

  /** The envelope of a decoded record is the envelope struct decoded from the top level. */
  lemma DecodedEnvelope(raw: Object)
    requires Recognised(raw)
    ensures Decode(raw).Decoded?
    ensures Decode(raw).event.envelope == EnvelopeOf(CoerceFields(EnvelopeSchema, raw, []).0)
  {
    DecodeRecognised(raw);
  }

  /** The "detail" entry is not one of the envelope's keys, even up to case. */
  lemma DetailKeyOutsideEnvelope()
    ensures forall f :: f in EnvelopeSchema ==> !KeyMatch.EqualFold("detail", f.key)
  {
    forall f | f in EnvelopeSchema
      ensures !KeyMatch.EqualFold("detail", f.key)
    {
      if |f.key| == 6 {
        assert f.key == "Source" || f.key == "region";
        assert KeyMatch.FoldChar(f.key[0]) != 'd';
      }
    }
  }

  /** Replacing the detail payload leaves the envelope of the decoded record as it was. */
  lemma EnvelopeIndependentOfDetail(raw: Object, detail: Json)
    requires Recognised(raw)
    ensures Recognised(raw["detail" := detail])
    ensures Decode(raw["detail" := detail]).event.GenericAWSEventInfo() == Decode(raw).event.GenericAWSEventInfo()
  {
    DetailKeyOutsideEnvelope();
    EnvelopeIgnoresOtherKeys(raw, "detail", detail);
  }

  /** A top-level key that matches no field of the record, even up to case, is ignored. */
  lemma DecodeIgnoresUnknownKey(raw: Object, k: string, v: Json)
    requires Recognised(raw)
    requires forall f :: f in EnvelopeSchema ==> !KeyMatch.EqualFold(k, f.key)
    requires !KeyMatch.EqualFold(k, DetailKey)
    ensures Decode(raw[k := v]) == Decode(raw)
  {
    EnvelopeIgnoresOtherKeys(raw, k, v);
    DecodeRecognised(raw);
    DecodeRecognised(raw[k := v]);
    var shape := ShapeFor(raw["detail-type"].str).value;
    UnknownKeyIgnored(EnvelopeSchema, raw, [], k, v);
    KeyMatch.LookupUpdateOther(raw, DetailKey, k, v);
    assert DecodeDetail(shape, raw[k := v]) == DecodeDetail(shape, raw);
  }

  // ----- The time hook -----

  /**
   * The string-to-time hook: the RFC 3339 text of a valid timestamp decodes to exactly that
   * timestamp, and a string that is not RFC 3339 leaves the zero time and reports the string.
   */
  lemma TimeHook(t: Rfc3339.DateTime, s: string, path: seq<Step>)
    requires Rfc3339.Valid(t)
    ensures Coerce(TimeKind, JString(Rfc3339.Format(t)), path) == Coerced(Time(t), {})
    ensures Rfc3339.Parse(s).None? ==>
              Coerce(TimeKind, JString(s), path) == Coerced(Time(Rfc3339.ZeroTime), {BadTimestamp(path, s)})
  {
    Rfc3339.ParseFormat(t);
  }

  // ----- The envelope as AWS sends it -----

  /** The top level of an EventBridge message carrying `env`, under AWS's lower-case keys. */
  function EnvelopeWire(env: Envelope): Object
    requires Rfc3339.Valid(env.eventTimestamp)
  {
    map[
      "version" := JString(env.version),
      "id" := JString(env.id),
      "detail-type" := JString(env.detailType),
      "source" := JString(env.source),
      "account" := JString(env.awsAccountId),
      "time" := JString(Rfc3339.Format(env.eventTimestamp)),
      "region" := JString(env.awsRegion),
      "resources" := ResourcesWire(env.resources)
    ]
  }

  /** The resource list as AWS sends it: a JSON array of strings. */
  function ResourcesWire(resources: seq<string>): (j: Json)
    ensures j.JArray? && |j.items| == |resources|
    ensures forall i :: 0 <= i < |resources| ==> j.items[i] == JString(resources[i])
  {
    JArray(seq(|resources|, i requires 0 <= i < |resources| => JString(resources[i])))
  }

  /** The keys of an EventBridge message carrying a detail payload. */
  const WireKeys: set<string> :=
    {"version", "id", "detail-type", "source", "account", "time", "region", "resources", "detail"}

  lemma WireKeysOf(env: Envelope, detail: Json)
    requires Rfc3339.Valid(env.eventTimestamp)
    ensures EnvelopeWire(env)["detail" := detail].Keys == WireKeys
  {
  }

  /** When `key` is not a wire key and `k` is its only wire-key match up to case, `key` reads `k`'s entry. */
  lemma FoldUnique(raw: Object, key: string, k: string)
    requires raw.Keys == WireKeys && key !in WireKeys && k in WireKeys && KeyMatch.EqualFold(k, key)
    requires forall x :: x in WireKeys && KeyMatch.EqualFold(x, key) ==> x == k
    ensures KeyMatch.Lookup(raw, key) == Some(raw[k])
  {
    KeyMatch.LookupByFold(raw, key, k);
  }

  /** "Version" is not a wire key, and "version" is the only one equal to it up to case. */
  lemma VersionFolds()
    ensures "Version" !in WireKeys && "version" in WireKeys && KeyMatch.EqualFold("version", "Version")
    ensures forall x :: x in WireKeys && KeyMatch.EqualFold(x, "Version") ==> x == "version"
  {
  }

  /** "ID" is not a wire key, and "id" is the only one equal to it up to case. */
  lemma IdFolds()
    ensures "ID" !in WireKeys && "id" in WireKeys && KeyMatch.EqualFold("id", "ID")
    ensures forall x :: x in WireKeys && KeyMatch.EqualFold(x, "ID") ==> x == "id"
  {
  }

  /** "Source" is not a wire key, and "source" is the only one equal to it up to case. */
  lemma SourceFolds()
    ensures "Source" !in WireKeys && "source" in WireKeys && KeyMatch.EqualFold("source", "Source")
    ensures forall x :: x in WireKeys && KeyMatch.EqualFold(x, "Source") ==> x == "source"
  {
  }

  /** "Resources" is not a wire key, and "resources" is the only one equal to it up to case. */
  lemma ResourcesFolds()
    ensures "Resources" !in WireKeys && "resources" in WireKeys && KeyMatch.EqualFold("resources", "Resources")
    ensures forall x :: x in WireKeys && KeyMatch.EqualFold(x, "Resources") ==> x == "resources"
  {
  }

  /** The Go names of the four untagged envelope fields find AWS's lower-case keys. */
  lemma UntaggedEnvelopeKeys(raw: Object)
    requires raw.Keys == WireKeys
    ensures KeyMatch.Lookup(raw, "Version") == Some(raw["version"])
    ensures KeyMatch.Lookup(raw, "ID") == Some(raw["id"])
    ensures KeyMatch.Lookup(raw, "Source") == Some(raw["source"])
    ensures KeyMatch.Lookup(raw, "Resources") == Some(raw["resources"])
  {
    VersionFolds();
    FoldUnique(raw, "Version", "version");
    IdFolds();
    FoldUnique(raw, "ID", "id");
    SourceFolds();
    FoldUnique(raw, "Source", "source");
    ResourcesFolds();
    FoldUnique(raw, "Resources", "resources");
  }

  /** A string field whose key finds a JSON string takes that string. */
  lemma StringFieldFound(obj: Object, f: Field, prefix: seq<Step>, s: string)
    requires f.kind == StringKind && KeyMatch.Lookup(obj, f.key) == Some(JString(s))
    ensures FieldValue(obj, f, prefix) == Coerced(Str(s), {})
  {
  }

  /** The entries of an EventBridge message carrying `env`; "detail" may hold anything. */
  predicate CarriesEnvelope(raw: Object, env: Envelope)
    requires Rfc3339.Valid(env.eventTimestamp)
  {
    && raw.Keys == WireKeys
    && raw["version"] == JString(env.version)
    && raw["id"] == JString(env.id)
    && raw["detail-type"] == JString(env.detailType)
    && raw["source"] == JString(env.source)
    && raw["account"] == JString(env.awsAccountId)
    && raw["time"] == JString(Rfc3339.Format(env.eventTimestamp))
    && raw["region"] == JString(env.awsRegion)
    && raw["resources"] == ResourcesWire(env.resources)
  }

  lemma WireCarriesEnvelope(env: Envelope, detail: Json)
    requires Rfc3339.Valid(env.eventTimestamp)
    ensures CarriesEnvelope(EnvelopeWire(env)["detail" := detail], env)
  {
  }

  /** What the key of each envelope field finds in `raw`, the way mapstructure looks keys up. */
  predicate FindsEnvelope(raw: Object, env: Envelope)
    requires Rfc3339.Valid(env.eventTimestamp)
  {
    && KeyMatch.Lookup(raw, EnvelopeSchema[0].key) == Some(JString(env.version))
    && KeyMatch.Lookup(raw, EnvelopeSchema[1].key) == Some(JString(env.id))
    && KeyMatch.Lookup(raw, EnvelopeSchema[2].key) == Some(JString(env.detailType))
    && KeyMatch.Lookup(raw, EnvelopeSchema[3].key) == Some(JString(env.source))
    && KeyMatch.Lookup(raw, EnvelopeSchema[4].key) == Some(JString(env.awsAccountId))
    && KeyMatch.Lookup(raw, EnvelopeSchema[5].key) == Some(JString(Rfc3339.Format(env.eventTimestamp)))
    && KeyMatch.Lookup(raw, EnvelopeSchema[6].key) == Some(JString(env.awsRegion))
    && KeyMatch.Lookup(raw, EnvelopeSchema[7].key) == Some(ResourcesWire(env.resources))
  }

  /** The keys the envelope fields look up: the Go name when untagged, the tag otherwise. */
  lemma EnvelopeKeys()
    ensures EnvelopeSchema[0].key == "Version" && EnvelopeSchema[1].key == "ID"
    ensures EnvelopeSchema[2].key == "detail-type" && EnvelopeSchema[3].key == "Source"
    ensures EnvelopeSchema[4].key == "account" && EnvelopeSchema[5].key == "time"
    ensures EnvelopeSchema[6].key == "region" && EnvelopeSchema[7].key == "Resources"
  {
  }

  /** The untagged envelope fields find AWS's lower-case entries up to case. */
  lemma UntaggedFieldsFound(raw: Object, env: Envelope)
    requires Rfc3339.Valid(env.eventTimestamp) && CarriesEnvelope(raw, env)
    ensures KeyMatch.Lookup(raw, EnvelopeSchema[0].key) == Some(JString(env.version))
    ensures KeyMatch.Lookup(raw, EnvelopeSchema[1].key) == Some(JString(env.id))
    ensures KeyMatch.Lookup(raw, EnvelopeSchema[3].key) == Some(JString(env.source))
    ensures KeyMatch.Lookup(raw, EnvelopeSchema[7].key) == Some(ResourcesWire(env.resources))
  {
    EnvelopeKeys();
    UntaggedEnvelopeKeys(raw);
  }

  /** The tagged envelope fields find their entries by exact key. */
  lemma TaggedFieldsFound(raw: Object, env: Envelope)
    requires Rfc3339.Valid(env.eventTimestamp) && CarriesEnvelope(raw, env)
    ensures KeyMatch.Lookup(raw, EnvelopeSchema[2].key) == Some(JString(env.detailType))
    ensures KeyMatch.Lookup(raw, EnvelopeSchema[4].key) == Some(JString(env.awsAccountId))
    ensures KeyMatch.Lookup(raw, EnvelopeSchema[5].key) == Some(JString(Rfc3339.Format(env.eventTimestamp)))
    ensures KeyMatch.Lookup(raw, EnvelopeSchema[6].key) == Some(JString(env.awsRegion))
  {
    EnvelopeKeys();
  }

  /** In an EventBridge message every envelope field finds its entry. */
  lemma CarriedEnvelopeFound(raw: Object, env: Envelope)
    requires Rfc3339.Valid(env.eventTimestamp) && CarriesEnvelope(raw, env)
    ensures FindsEnvelope(raw, env)
  {
    UntaggedFieldsFound(raw, env);
    TaggedFieldsFound(raw, env);
  }

  /** The three string fields Version, ID and DetailType take the strings their keys find. */
  lemma EnvelopeIdentityFound(raw: Object, env: Envelope)
    requires Rfc3339.Valid(env.eventTimestamp) && FindsEnvelope(raw, env)
    ensures FieldValue(raw, EnvelopeSchema[0], []) == Coerced(Str(env.version), {})
    ensures FieldValue(raw, EnvelopeSchema[1], []) == Coerced(Str(env.id), {})
    ensures FieldValue(raw, EnvelopeSchema[2], []) == Coerced(Str(env.detailType), {})
  {
    StringFieldFound(raw, EnvelopeSchema[0], [], env.version);
    StringFieldFound(raw, EnvelopeSchema[1], [], env.id);
    StringFieldFound(raw, EnvelopeSchema[2], [], env.detailType);
  }

  /** The three string fields Source, AWSAccountID and AWSRegion take the strings their keys find. */
  lemma EnvelopeOriginFound(raw: Object, env: Envelope)
    requires Rfc3339.Valid(env.eventTimestamp) && FindsEnvelope(raw, env)
    ensures FieldValue(raw, EnvelopeSchema[3], []) == Coerced(Str(env.source), {})
    ensures FieldValue(raw, EnvelopeSchema[4], []) == Coerced(Str(env.awsAccountId), {})
    ensures FieldValue(raw, EnvelopeSchema[6], []) == Coerced(Str(env.awsRegion), {})
  {
    StringFieldFound(raw, EnvelopeSchema[3], [], env.source);
    StringFieldFound(raw, EnvelopeSchema[4], [], env.awsAccountId);
    StringFieldFound(raw, EnvelopeSchema[6], [], env.awsRegion);
  }

  /** The timestamp is the one Rfc3339.Parse reads from its text. */
  lemma EnvelopeTimeFound(raw: Object, env: Envelope)
    requires Rfc3339.Valid(env.eventTimestamp)
    requires KeyMatch.Lookup(raw, EnvelopeSchema[5].key) == Some(JString(Rfc3339.Format(env.eventTimestamp)))
    ensures FieldValue(raw, EnvelopeSchema[5], []) == Coerced(Time(env.eventTimestamp), {})
  {
    TimeHook(env.eventTimestamp, "", [Key("time")]);
  }

  /** The resources take the strings of their array, in order. */
  lemma EnvelopeResourcesFound(raw: Object, resources: seq<string>)
    requires KeyMatch.Lookup(raw, EnvelopeSchema[7].key) == Some(ResourcesWire(resources))
    ensures FieldValue(raw, EnvelopeSchema[7], []) == Coerced(StringSeq(resources), {})
  {
    var rs := ResourcesWire(resources).items;
    assert seq(|rs|, i requires 0 <= i < |rs| => if StringLike(rs[i]) then StringOf(rs[i]) else "") == resources;
  }

  /** When every envelope field finds what `env` holds, the envelope struct is `env`, without error. */
  lemma EnvelopeFromLookups(raw: Object, env: Envelope)
    requires Rfc3339.Valid(env.eventTimestamp) && FindsEnvelope(raw, env)
    ensures EnvelopeOf(CoerceFields(EnvelopeSchema, raw, []).0) == env
    ensures CoerceFields(EnvelopeSchema, raw, []).1 == {}
  {
    EnvelopeIdentityFound(raw, env);
    EnvelopeOriginFound(raw, env);
    EnvelopeTimeFound(raw, env);
    EnvelopeResourcesFound(raw, env.resources);
    forall i | 0 <= i < |EnvelopeSchema|
      ensures FieldValue(raw, EnvelopeSchema[i], []).errors == {}
    {
      assert i == 0 || i == 1 || i == 2 || i == 3 || i == 4 || i == 5 || i == 6 || i == 7;
    }

  }

  /** The envelope struct decoded from an EventBridge message is `env`, without error. */
  lemma EnvelopeDecodedFromWire(raw: Object, env: Envelope)
    requires Rfc3339.Valid(env.eventTimestamp) && CarriesEnvelope(raw, env)
    ensures EnvelopeOf(CoerceFields(EnvelopeSchema, raw, []).0) == env
    ensures CoerceFields(EnvelopeSchema, raw, []).1 == {}
  {
    CarriedEnvelopeFound(raw, env);
    EnvelopeFromLookups(raw, env);
  }

  /**
   * Round trip of the envelope: a message AWS sends for `env`, with any detail payload, is
   * recognised, its record's GenericAWSEventInfo is `env`, and every error reported comes
   * from the detail payload.
   */
  lemma EnvelopeRoundTrip(env: Envelope, detail: Json)
    requires Rfc3339.Valid(env.eventTimestamp) && env.detailType in DetailTypes
    ensures var raw := EnvelopeWire(env)["detail" := detail];
            && Recognised(raw)
            && Decode(raw).event.GenericAWSEventInfo() == env
            && Decode(raw).errors == DecodeDetail(Decode(raw).event.shape, raw).1
  {
    var raw := EnvelopeWire(env)["detail" := detail];
    WireCarriesEnvelope(env, detail);
    assert Recognised(raw);
    DecodeRecognised(raw);
    EnvelopeDecodedFromWire(raw, env);
  }

  // ----- Detail fields -----

  /** The detail struct of `ev` is the one decoded from the "Detail" object `m`. */
  predicate DetailDecodedFrom(ev: Event, m: Object)
  {
    ev.detail == DetailFrom(ev.shape, Some(JObject(m))).0
  }

  /**
   * The record decode returns carries the detail struct decoded from the "Detail" object,
   * and every error of that decoding is part of decode's error.
   */
  lemma DecodedDetail(raw: Object, m: Object)
    requires Recognised(raw)
    requires KeyMatch.Lookup(raw, DetailKey) == Some(JObject(m))
    ensures DetailDecodedFrom(Decode(raw).event, m)
    ensures DetailFrom(Decode(raw).event.shape, Some(JObject(m))).1 <= Decode(raw).errors
  {
    DecodeRecognised(raw);
  }

  /**
   * A detail field holds what its key found in the "Detail" object, converted to the field's
   * type, and any error of that conversion is reported.
   */
  lemma DetailEntry(shape: Shape, m: Object, i: nat, j: Json)
    requires i < |DetailSchema(shape)|
    requires KeyMatch.Lookup(m, DetailSchema(shape)[i].key) == Some(j)
    ensures var f := DetailSchema(shape)[i];
            var c := Coerce(f.kind, j, [Key(DetailKey), Key(f.key)]);
            var r := DetailFrom(shape, Some(JObject(m)));
            && r.0[i] == c.value
            && c.errors <= r.1
  {
    var f := DetailSchema(shape)[i];
    var path := [Key(DetailKey)];
    assert path + [Key(f.key)] == [Key(DetailKey), Key(f.key)];
    var c := FieldValue(m, f, path);
    var r := CoerceFields(DetailSchema(shape), m, path);
    forall e | e in c.errors
      ensures e in r.1
    {
    }
  }

  /**
   * A string field takes the string its key finds verbatim; in particular the CloudTrail
   * SourceIPAddress field keeps whatever text the message carries, with no address parsing.
   */
  lemma StringFieldVerbatim(ev: Event, m: Object, i: nat, s: string)
    requires WellFormed(ev) && DetailDecodedFrom(ev, m)
    requires i < |DetailSchema(ev.shape)| && DetailSchema(ev.shape)[i].kind == StringKind
    requires KeyMatch.Lookup(m, DetailSchema(ev.shape)[i].key) == Some(JString(s))
    ensures ev.detail[i] == Str(s)
  {
    DetailEntry(ev.shape, m, i, JString(s));
  }

  /** Where the two CloudTrail records keep the caller's address. */
  function SourceAddressIndex(shape: Shape): (i: nat)
    requires shape == CloudTrailAPICall || shape == CloudTrailServiceEvent
    ensures i < |DetailSchema(shape)|
    ensures DetailSchema(shape)[i] == Field("SourceIPAddress", "sourceIPAddress", StringKind)
  {
    if shape == CloudTrailAPICall then 6 else 13
  }

  /** A time field takes the timestamp Rfc3339.Parse reads from an RFC 3339 string, without error. */
  lemma TimeFieldTakesInstant(ev: Event, m: Object, i: nat, t: Rfc3339.DateTime)
    requires WellFormed(ev) && DetailDecodedFrom(ev, m) && Rfc3339.Valid(t)
    requires i < |DetailSchema(ev.shape)| && DetailSchema(ev.shape)[i].kind == TimeKind
    requires KeyMatch.Lookup(m, DetailSchema(ev.shape)[i].key) == Some(JString(Rfc3339.Format(t)))
    ensures ev.detail[i] == Time(t)
  {
    TimeHook(t, "", []);
    DetailEntry(ev.shape, m, i, JString(Rfc3339.Format(t)));
  }

  /**
   * A time field given a string that is not RFC 3339 is left at the zero time, and the
   * string is reported.
   */
  lemma TimeFieldRejectsText(ev: Event, m: Object, i: nat, s: string)
    requires WellFormed(ev) && DetailDecodedFrom(ev, m)
    requires i < |DetailSchema(ev.shape)| && DetailSchema(ev.shape)[i].kind == TimeKind
    requires KeyMatch.Lookup(m, DetailSchema(ev.shape)[i].key) == Some(JString(s))
    requires Rfc3339.Parse(s).None?
    ensures ev.detail[i] == Time(Rfc3339.ZeroTime)
    ensures BadTimestamp([Key(DetailKey), Key(DetailSchema(ev.shape)[i].key)], s)
            in DetailFrom(ev.shape, Some(JObject(m))).1
  {
    DetailEntry(ev.shape, m, i, JString(s));
  }

  /**
   * The free-form fields (the CloudTrail caller identity, request and response, and service
   * event details) take any JSON object as it is, without error.
   */
  lemma FreeFormFieldTakesAnyObject(ev: Event, m: Object, i: nat, o: Object)
    requires WellFormed(ev) && DetailDecodedFrom(ev, m)
    requires i < |DetailSchema(ev.shape)| && DetailSchema(ev.shape)[i].kind == AnyMapKind
    requires KeyMatch.Lookup(m, DetailSchema(ev.shape)[i].key) == Some(JObject(o))
    ensures ev.detail[i] == AnyMap(o)
    ensures Coerce(AnyMapKind, JObject(o), [Key(DetailKey), Key(DetailSchema(ev.shape)[i].key)]).errors == {}
  {
    DetailEntry(ev.shape, m, i, JObject(o));
  }

  /**
   * A map-of-strings field (the auto-scaling `Details`) keeps the string entries of its
   * object, and an entry of any other JSON type is reported.
   */
  lemma StringMapKeepsStrings(ev: Event, m: Object, i: nat, o: Object)
    requires WellFormed(ev) && DetailDecodedFrom(ev, m)
    requires i < |DetailSchema(ev.shape)| && DetailSchema(ev.shape)[i].kind == StringMapKind
    requires KeyMatch.Lookup(m, DetailSchema(ev.shape)[i].key) == Some(JObject(o))
    ensures ev.detail[i].StringMap?
    ensures forall k :: k in o && o[k].JString? ==> k in ev.detail[i].strings && ev.detail[i].strings[k] == o[k].str
    ensures (exists k :: k in o && !StringLike(o[k])) ==> DetailFrom(ev.shape, Some(JObject(m))).1 != {}
  {
    DetailEntry(ev.shape, m, i, JObject(o));
  }

  /**
   * A boolean field (the service-event ReadOnly and ManagementEvent) has no weak typing: a
   * JSON value other than a boolean or null (the string "true", say) leaves false and is
   * reported.
   */
  lemma FlagsAreStrict(ev: Event, m: Object, i: nat, j: Json)
    requires WellFormed(ev) && DetailDecodedFrom(ev, m)
    requires i < |DetailSchema(ev.shape)| && DetailSchema(ev.shape)[i].kind == BoolKind
    requires KeyMatch.Lookup(m, DetailSchema(ev.shape)[i].key) == Some(j)
    ensures j.JBool? ==> ev.detail[i] == Flag(j.b)
    ensures !j.JBool? && !j.JNull? ==> ev.detail[i] == Flag(false) && DetailFrom(ev.shape, Some(JObject(m))).1 != {}
  {
    DetailEntry(ev.shape, m, i, j);
  }

  // ----- A worked example -----

  const ExampleTime := Rfc3339.DateTime(2021, 5, 4, 10, 0, 0, "", Rfc3339.Utc)

  const ExampleEnvelope :=
    Envelope("0", "evt-1", "EC2 Instance State-change Notification", "aws.ec2", "123456789012",
             ExampleTime, "us-east-1", [])

  const ExampleDetail: Object := map["InstanceID" := JString("i-0abc123"), "State" := JString("running")]

  /** An EC2 state-change message as EventBridge delivers it. */
  const StateChangeMessage: Object := map[
    "version" := JString("0"),
    "id" := JString("evt-1"),
    "detail-type" := JString("EC2 Instance State-change Notification"),
    "source" := JString("aws.ec2"),
    "account" := JString("123456789012"),
    "time" := JString("2021-05-04T10:00:00Z"),
    "region" := JString("us-east-1"),
    "resources" := JArray([]),
    "detail" := JObject(ExampleDetail)
  ]

  /** The example time is rendered as the message's "time" entry. */
  lemma ExampleTimeText()
    ensures Rfc3339.Valid(ExampleTime) && Rfc3339.Format(ExampleTime) == "2021-05-04T10:00:00Z"
  {
  }

  lemma ExampleResources()
    ensures ResourcesWire(ExampleEnvelope.resources) == JArray([])
  {
  }

  /** The state-change message is the one EventBridge sends for the example envelope. */
  lemma StateChangeEnvelope()
    ensures StateChangeMessage == EnvelopeWire(ExampleEnvelope)["detail" := JObject(ExampleDetail)]
  {
    ExampleTimeText();
    ExampleResources();
    var top := map[
      "version" := JString("0"),
      "id" := JString("evt-1"),
      "detail-type" := JString("EC2 Instance State-change Notification"),
      "source" := JString("aws.ec2"),
      "account" := JString("123456789012"),
      "time" := JString("2021-05-04T10:00:00Z"),
      "region" := JString("us-east-1"),
      "resources" := JArray([])];
    assert EnvelopeWire(ExampleEnvelope) == top;
  }

  /** The state-change detail object decodes without error to the instance and its state. */
  lemma StateChangeDetail()
    ensures DetailFrom(EC2InstanceStateChangeNotification, Some(JObject(ExampleDetail)))
            == ([Str("i-0abc123"), Str("running")], {})
  {
    var schema := EC2InstanceStateChangeNotificationDetail;
    var path := [Key(DetailKey)];
    StringFieldFound(ExampleDetail, schema[0], path, "i-0abc123");
    StringFieldFound(ExampleDetail, schema[1], path, "running");
    CoerceFieldsSucceeds(schema, ExampleDetail, path);
    assert CoerceFields(schema, ExampleDetail, path).0 == [Str("i-0abc123"), Str("running")];
  }

  /** A message selecting `shape` whose envelope and detail both decode without error. */
  lemma DecodedFromParts(raw: Object, shape: Shape, env: Envelope, detail: Record)
    requires Discriminator(raw).Some? && ShapeFor(Discriminator(raw).value) == Some(shape)
    requires EnvelopeOf(CoerceFields(EnvelopeSchema, raw, []).0) == env
    requires CoerceFields(EnvelopeSchema, raw, []).1 == {}
    requires DecodeDetail(shape, raw) == (detail, {})
    ensures Decode(raw) == Decoded(Event(shape, env, detail), {})
  {
    DecodeSelects(raw, shape);
    assert DecodeMap(shape, raw) == Decoded(Event(shape, env, detail), {});
  }

  /** An object whose `detail-type` selects `shape` is decoded by decodeMap into that record type. */
  lemma DecodeSelects(raw: Object, shape: Shape)
    requires Discriminator(raw).Some? && ShapeFor(Discriminator(raw).value) == Some(shape)
    ensures Decode(raw) == DecodeMap(shape, raw)
  {
  }

  /** Any message carrying the example envelope and detail decodes to the example record. */
  lemma StateChangeDecoded(raw: Object)
    requires CarriesEnvelope(raw, ExampleEnvelope)
    requires KeyMatch.Lookup(raw, DetailKey) == Some(JObject(ExampleDetail))
    ensures Decode(raw)
            == Decoded(Event(EC2InstanceStateChangeNotification, ExampleEnvelope, [Str("i-0abc123"), Str("running")]), {})
  {
    ExampleTimeText();
    var shape := EC2InstanceStateChangeNotification;
    assert DetailTypes[3] == "EC2 Instance State-change Notification";
    assert ShapeFor("EC2 Instance State-change Notification") == Some(shape);
    EnvelopeDecodedFromWire(raw, ExampleEnvelope);
    StateChangeDetail();
    assert Discriminator(raw) == Some("EC2 Instance State-change Notification");
    DecodedFromParts(raw, shape, ExampleEnvelope, [Str("i-0abc123"), Str("running")]);
  }

  /**
   * The message decodes, without error, to the state-change record whose detail holds the
   * instance and its state, with every envelope field taken from the top-level keys.
   */
  lemma StateChangeExample()
    ensures Decode(StateChangeMessage)
            == Decoded(Event(EC2InstanceStateChangeNotification, ExampleEnvelope, [Str("i-0abc123"), Str("running")]), {})
  {
    StateChangeEnvelope();
    WireCarriesEnvelope(ExampleEnvelope, JObject(ExampleDetail));
    KeyMatch.LookupByFold(StateChangeMessage, DetailKey, "detail");
    StateChangeDecoded(StateChangeMessage);
  }
}
