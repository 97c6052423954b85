/**
 * The coercion mapstructure performs when the event decoder hands it a JSON object and
 * the address of one of the event structs, under the decoder's configuration: the RFC 3339
 * string-to-time hook, the string-to-IP hook, and no weak typing. A struct is described by
 * a schema: one Field per Go struct field, giving the Go field name, the wire key (the
 * `mapstructure` tag, or the field name when untagged) and the field's Go type as a Kind.
 * No field of the record family has type net.IP, so the IP hook never changes a value and
 * has no counterpart here.
 */
module Coercion {
  import opened JsonValues
  import opened Wrappers
  import Rfc3339
  import KeyMatch

  /** The Go field types that occur in the record family. */
  datatype Kind =
    | StringKind     // string
    | BoolKind       // bool
    | TimeKind       // time.Time
    | StringMapKind  // map[string]string
    | AnyMapKind     // map[string]interface{}
    | StringSeqKind  // []string

  /** A decoded field value. */
  datatype Value =
    | Str(str: string)
    | Flag(flag: bool)
    | Time(time: Rfc3339.DateTime)
    | StringMap(strings: map<string, string>)
    | AnyMap(entries: map<string, Json>)
    | StringSeq(elems: seq<string>)

  function KindOf(v: Value): Kind
  {
    match v
    case Str(_) => StringKind
    case Flag(_) => BoolKind
    case Time(_) => TimeKind
    case StringMap(_) => StringMapKind
    case AnyMap(_) => AnyMapKind
    case StringSeq(_) => StringSeqKind
  }

  /** Go's zero value of each kind: what a field holds when nothing is decoded into it. */
  function ZeroOf(k: Kind): (v: Value)
    ensures KindOf(v) == k
  {
    match k
    case StringKind => Str("")
    case BoolKind => Flag(false)
    case TimeKind => Time(Rfc3339.ZeroTime)
    case StringMapKind => StringMap(map[])
    case AnyMapKind => AnyMap(map[])
    case StringSeqKind => StringSeq([])
  }

  /** One step of the path mapstructure prints in an error: a struct or map key, or a slice index. */
  datatype Step = Key(key: string) | Index(index: nat)

  /** One entry of the aggregated error mapstructure returns. */
  datatype FieldError =
    | Unconvertible(path: seq<Step>, expected: Kind)  // the JSON type does not fit the Go type
    | BadTimestamp(path: seq<Step>, text: string)     // the time hook could not parse the string
    | ExpectedObject(path: seq<Step>)                 // a nested struct was given a non-object

  datatype Coerced = Coerced(value: Value, errors: set<FieldError>)

  predicate StringLike(j: Json) { j.JNull? || j.JString? }

  function StringOf(j: Json): string
    requires StringLike(j)
  {
    if j.JString? then j.str else ""
  }

  /** The JSON values a field of kind k takes without error. */
  predicate Accepts(k: Kind, j: Json)
  {
    match k
    case StringKind => StringLike(j)
    case BoolKind => j.JNull? || j.JBool?
    case TimeKind => j.JNull? || j.JObject? || (j.JString? && Rfc3339.Parse(j.str).Some?)
    case StringMapKind =>
      j.JNull? || (j.JObject? && forall key :: key in j.members ==> StringLike(j.members[key]))
    case AnyMapKind => j.JNull? || j.JObject?
    case StringSeqKind =>
      j.JNull? || (j.JArray? && forall i :: 0 <= i < |j.items| ==> StringLike(j.items[i]))
  }

  /**
   * Decoding one JSON value into a field of kind k. A null leaves the zero value. Strings and
   * booleans must match exactly (no weak typing). A time field takes an RFC 3339 string (the
   * hook), or an object (decoded as a struct whose fields are all unexported, so nothing is
   * set). A string map keeps its string and null entries and reports each other entry; a
   * string slice keeps its length and reports each non-string element.
   */
  function Coerce(k: Kind, j: Json, path: seq<Step>): (c: Coerced)
    ensures KindOf(c.value) == k
    ensures c.errors == {} <==> Accepts(k, j)
    ensures forall e :: e in c.errors ==> path <= e.path
  {
    if j.JNull? then Coerced(ZeroOf(k), {})
    else
      match k
      case StringKind =>
        if j.JString? then Coerced(Str(j.str), {}) else Coerced(Str(""), {Unconvertible(path, StringKind)})
      case BoolKind =>
        if j.JBool? then Coerced(Flag(j.b), {}) else Coerced(Flag(false), {Unconvertible(path, BoolKind)})
      case TimeKind =>
        if j.JString? then
          match Rfc3339.Parse(j.str)
          case Some(t) => Coerced(Time(t), {})
          case None => Coerced(Time(Rfc3339.ZeroTime), {BadTimestamp(path, j.str)})
        else if j.JObject? then Coerced(Time(Rfc3339.ZeroTime), {})
        else Coerced(Time(Rfc3339.ZeroTime), {Unconvertible(path, TimeKind)})
      case StringMapKind =>
        if j.JObject? then
          var m := j.members;
          var bad := set key | key in m && !StringLike(m[key]) :: Unconvertible(path + [Key(key)], StringKind);
          assert (exists key :: key in m && !StringLike(m[key])) ==> bad != {} by {
            if key :| key in m && !StringLike(m[key]) {
              assert Unconvertible(path + [Key(key)], StringKind) in bad;
            }
          }
          Coerced(StringMap(map key | key in m && StringLike(m[key]) :: StringOf(m[key])), bad)
        else Coerced(StringMap(map[]), {Unconvertible(path, StringMapKind)})
      case AnyMapKind =>
        if j.JObject? then Coerced(AnyMap(j.members), {})
        else Coerced(AnyMap(map[]), {Unconvertible(path, AnyMapKind)})
      case StringSeqKind =>
        if j.JArray? then
          var xs := j.items;
          var bad := set i | 0 <= i < |xs| && !StringLike(xs[i]) :: Unconvertible(path + [Index(i)], StringKind);
          assert (exists i :: 0 <= i < |xs| && !StringLike(xs[i])) ==> bad != {} by {
            if i :| 0 <= i < |xs| && !StringLike(xs[i]) {
              assert Unconvertible(path + [Index(i)], StringKind) in bad;
            }
          }
          Coerced(StringSeq(seq(|xs|, i requires 0 <= i < |xs| => if StringLike(xs[i]) then StringOf(xs[i]) else "")), bad)
        else Coerced(StringSeq([]), {Unconvertible(path, StringSeqKind)})
  }

  /** One struct field: its Go name, the wire key mapstructure looks up, and its Go type. */
  datatype Field = Field(name: string, key: string, kind: Kind)

  /** A decoded struct: one value per schema field, in the order the Go struct declares them. */
  type Record = seq<Value>

  /** rec has one value per schema field, each of the declared kind. */
  predicate Conforms(rec: Record, schema: seq<Field>)
  {
    |rec| == |schema| && forall i :: 0 <= i < |rec| ==> KindOf(rec[i]) == schema[i].kind
  }

  /** What one field receives: its kind's zero value when no key matches, else the coerced entry. */
  function FieldValue(obj: Object, f: Field, prefix: seq<Step>): (c: Coerced)
    ensures KindOf(c.value) == f.kind
    ensures c.errors == {} <==> Accepted(obj, f)
  {
    match KeyMatch.Lookup(obj, f.key)
    case None => Coerced(ZeroOf(f.kind), {})
    case Some(j) => Coerce(f.kind, j, prefix + [Key(f.key)])
  }

  /**
   * mapstructure's decoding of an object into a struct: every declared field is decoded on
   * its own, keys the schema does not declare are ignored, and the errors of all fields are
   * gathered into one.
   */
  function CoerceFields(schema: seq<Field>, obj: Object, prefix: seq<Step>): (r: (Record, set<FieldError>))
    ensures Conforms(r.0, schema)
  {
    (seq(|schema|, i requires 0 <= i < |schema| => FieldValue(obj, schema[i], prefix).value),
     set i, e | 0 <= i < |schema| && e in FieldValue(obj, schema[i], prefix).errors :: e)
  }

  /** A struct decodes without error exactly when each of its fields does. */
  lemma CoerceFieldsSucceeds(schema: seq<Field>, obj: Object, prefix: seq<Step>)
    ensures CoerceFields(schema, obj, prefix).1 == {}
            <==> forall f :: f in schema ==> Accepted(obj, f)
  {
    var errs := CoerceFields(schema, obj, prefix).1;
    if f :| f in schema && !Accepted(obj, f) {
      var i :| 0 <= i < |schema| && schema[i] == f;
      var e :| e in FieldValue(obj, f, prefix).errors;
      assert e in errs;
    }
    if errs != {} {
      var e :| e in errs;
      var i :| 0 <= i < |schema| && e in FieldValue(obj, schema[i], prefix).errors;
      assert schema[i] in schema && !Accepted(obj, schema[i]);
    }
  }

  /** The field f takes the entry its key finds (if any) without error. */
  predicate Accepted(obj: Object, f: Field)
  {
    match KeyMatch.Lookup(obj, f.key)
    case None => true
    case Some(j) => Accepts(f.kind, j)
  }

  /** A key that no declared field matches, even up to case, changes nothing in the result. */
  lemma UnknownKeyIgnored(schema: seq<Field>, obj: Object, prefix: seq<Step>, k: string, v: Json)
    requires forall f :: f in schema ==> !KeyMatch.EqualFold(k, f.key)
    ensures CoerceFields(schema, obj[k := v], prefix) == CoerceFields(schema, obj, prefix)
  {
    forall i | 0 <= i < |schema|
      ensures FieldValue(obj[k := v], schema[i], prefix) == FieldValue(obj, schema[i], prefix)
    {
      assert schema[i] in schema;
      KeyMatch.LookupUpdateOther(obj, schema[i].key, k, v);
    }
    assert CoerceFields(schema, obj[k := v], prefix).0 == CoerceFields(schema, obj, prefix).0;
    assert CoerceFields(schema, obj[k := v], prefix).1 == CoerceFields(schema, obj, prefix).1;
  }
}
