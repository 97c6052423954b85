/**
 * The EC2 search resolver behind the slash command: a query that looks like an EC2 instance
 * ID is sent to every configured EC2 client as a DescribeInstances call filtered on that ID,
 * and each answer is flattened into one search result per instance: a kind, a map of
 * metadata lists (IDs, type, state, zone, public and private addresses, tags) and a map of
 * console links.
 *
 * The EC2 SDK is outside the model: a client is a function from the request it is sent to
 * the answer it gives (a tree of reservations, or an error).
 */
module Ec2Search {
  import opened Wrappers

  /** An instance ID is "i-" followed by 17 characters. */
  const ExactEc2InstanceIdLength := 19
  const InstanceIdPrefix := "i-"
  /** The kind of every result and result set this resolver produces. */
  const Ec2InstanceKind := "ec2.instance"
  /** The region both links point at, whatever region the client works in. */
  const LinkRegion := "us-east-1"
  /** The separator GetMetadata puts between the values of one key. */
  const MetadataSeparator := ", "

  // ---------------------------------------------------------------------------------------
  // Results

  /** One search result: its kind, metadata lists by key, and links by key. */
  datatype Result = Result(kind: string, metadata: map<string, seq<string>>, links: map<string, string>)
  {
    /** The values stored under key, joined by ", "; the empty string for a key not stored. */
    function GetMetadata(key: string): (s: string)
      ensures key !in metadata ==> s == ""
      ensures key in metadata ==> s == Join(metadata[key], MetadataSeparator)
      ensures key in metadata && |metadata[key]| == 0 ==> s == ""
      ensures key in metadata && |metadata[key]| == 1 ==> s == metadata[key][0]
      ensures key in metadata && |metadata[key]| > 0 ==>
                |s| == TotalLength(metadata[key]) + |MetadataSeparator| * (|metadata[key]| - 1)
    {
      if key in metadata then
        if |metadata[key]| > 0 then JoinLength(metadata[key], MetadataSeparator); Join(metadata[key], MetadataSeparator)
        else Join(metadata[key], MetadataSeparator)
      else ""
    }

    /** The URL stored under key; the empty string for a key not stored. */
    function GetLink(key: string): (url: string)
      ensures key !in links ==> url == ""
      ensures key in links ==> url == links[key]
    {
      if key in links then links[key] else ""
    }
  }

  /** The results one searcher found with one client. SearchLink is never set by this resolver. */
  datatype ResultSet = ResultSet(kind: string, searchLink: string, results: seq<Result>)

  /** Go's strings.Join. */
  function Join(elems: seq<string>, sep: string): string
    decreases |elems|
  {
    if |elems| == 0 then ""
    else if |elems| == 1 then elems[0]
    else elems[0] + sep + Join(elems[1..], sep)
  }

  /** The sum of the lengths of elems. */
  function TotalLength(elems: seq<string>): nat
    decreases |elems|
  {
    if |elems| == 0 then 0 else |elems[0]| + TotalLength(elems[1..])
  }

  /** Where elems[i] starts in the joined string. */
  function Offset(elems: seq<string>, sep: string, i: nat): nat
    requires i <= |elems|
  {
    TotalLength(elems[..i]) + i * |sep|
  }

  /** A joined string is as long as its pieces plus one separator between each two. */
  lemma {:induction false} JoinLength(elems: seq<string>, sep: string)
    requires |elems| > 0
    ensures |Join(elems, sep)| == TotalLength(elems) + |sep| * (|elems| - 1)
    decreases |elems|
  {
    if |elems| > 1 {
      JoinLength(elems[1..], sep);
    }
  }

  lemma TotalLengthTail(elems: seq<string>, i: nat)
    requires 0 < i <= |elems|
    ensures TotalLength(elems[..i]) == |elems[0]| + TotalLength(elems[1..][..i - 1])
  {
    assert elems[..i][1..] == elems[1..][..i - 1];
  }

  lemma SliceAfter(a: string, b: string, x: nat, y: nat)
    requires x <= y <= |b|
    ensures (a + b)[|a| + x..|a| + y] == b[x..y]
  {
  }

  /**
   * Each value appears in the joined string at its offset; with JoinSeparators and
   * JoinLength this determines the joined string completely.
   */
  lemma {:induction false} JoinPiece(elems: seq<string>, sep: string, i: nat)
    requires i < |elems|
    ensures Offset(elems, sep, i) + |elems[i]| <= |Join(elems, sep)|
    ensures Join(elems, sep)[Offset(elems, sep, i)..Offset(elems, sep, i) + |elems[i]|] == elems[i]
    decreases i
  {
    assert elems[..0] == [];
    if |elems| > 1 {
      var head := elems[0] + sep;
      var rest := Join(elems[1..], sep);
      assert Join(elems, sep) == head + rest;
      if i > 0 {
        JoinPiece(elems[1..], sep, i - 1);
        TotalLengthTail(elems, i);
        var o := Offset(elems[1..], sep, i - 1);
        assert Offset(elems, sep, i) == |head| + o;
        SliceAfter(head, rest, o, o + |elems[i]|);
      }
    }
  }

  /** Each value but the last is followed by the separator. */
  lemma {:induction false} JoinSeparator(elems: seq<string>, sep: string, i: nat)
    requires i + 1 < |elems|
    ensures Offset(elems, sep, i) + |elems[i]| + |sep| <= |Join(elems, sep)|
    ensures Join(elems, sep)[Offset(elems, sep, i) + |elems[i]|..Offset(elems, sep, i) + |elems[i]| + |sep|] == sep
    decreases i
  {
    assert elems[..0] == [];
    var head := elems[0] + sep;
    var rest := Join(elems[1..], sep);
    assert Join(elems, sep) == head + rest;
    if i > 0 {
      JoinSeparator(elems[1..], sep, i - 1);
      TotalLengthTail(elems, i);
      var o := Offset(elems[1..], sep, i - 1) + |elems[i]|;
      assert Offset(elems, sep, i) + |elems[i]| == |head| + o;
      SliceAfter(head, rest, o, o + |sep|);
    } else {
      assert Join(elems, sep)[|elems[0]|..|elems[0]| + |sep|] == head[|elems[0]|..];
    }
  }

  // ---------------------------------------------------------------------------------------
  // The links

  const ConsoleLinkHead := "https://console.aws.amazon.com/ec2/v2/home?region="
  const ConsoleLinkMiddle := "#Instances:search="
  const ConsoleLinkTail := ";sort=desc:launchTime"
  const TimelineLinkHead := "https://console.aws.amazon.com/config/home?region="
  const TimelineLinkMiddle := "#/timeline/AWS::EC2::Instance/"
  const TimelineLinkTail := "/configuration"

  /** The EC2 console's instance list, searched for one instance ID. */
  function ConsoleLink(region: string, search: string): (url: string)
    ensures |url| == |ConsoleLinkHead| + |region| + |ConsoleLinkMiddle| + |search| + |ConsoleLinkTail|
    ensures url[..|ConsoleLinkHead|] == ConsoleLinkHead
    ensures url[|ConsoleLinkHead|..|ConsoleLinkHead| + |region|] == region
    ensures url[|ConsoleLinkHead| + |region| + |ConsoleLinkMiddle|..|url| - |ConsoleLinkTail|] == search
  {
    var url := ConsoleLinkHead + region + ConsoleLinkMiddle + search + ConsoleLinkTail;
    assert url[..|ConsoleLinkHead|] == ConsoleLinkHead;
    assert url[|ConsoleLinkHead|..|ConsoleLinkHead| + |region|] == region;
    assert url[|ConsoleLinkHead| + |region| + |ConsoleLinkMiddle|..|url| - |ConsoleLinkTail|] == search;
    url
  }

  /** AWS Config's configuration timeline of one instance. */
  function ConfigTimelineLink(region: string, instanceId: string): (url: string)
    ensures |url| == |TimelineLinkHead| + |region| + |TimelineLinkMiddle| + |instanceId| + |TimelineLinkTail|
    ensures url[..|TimelineLinkHead|] == TimelineLinkHead
    ensures url[|TimelineLinkHead|..|TimelineLinkHead| + |region|] == region
    ensures url[|TimelineLinkHead| + |region| + |TimelineLinkMiddle|..|url| - |TimelineLinkTail|] == instanceId
  {
    var url := TimelineLinkHead + region + TimelineLinkMiddle + instanceId + TimelineLinkTail;
    assert url[..|TimelineLinkHead|] == TimelineLinkHead;
    assert url[|TimelineLinkHead|..|TimelineLinkHead| + |region|] == region;
    assert url[|TimelineLinkHead| + |region| + |TimelineLinkMiddle|..|url| - |TimelineLinkTail|] == instanceId;
    url
  }

  /** Within one region, distinct instances get distinct links of each kind. */
  lemma LinksIdentifyInstance(region: string, a: string, b: string)
    ensures ConsoleLink(region, a) == ConsoleLink(region, b) ==> a == b
    ensures ConfigTimelineLink(region, a) == ConfigTimelineLink(region, b) ==> a == b
  {
  }

  /** A console link is never a timeline link: the two paths part at the service name. */
  lemma LinksDiffer(region: string, a: string, b: string)
    ensures ConsoleLink(region, a) != ConfigTimelineLink(region, b)
  {
    assert ConsoleLink(region, a)[31] == 'e';
    assert ConfigTimelineLink(region, b)[31] == 'c';
  }

  // ---------------------------------------------------------------------------------------
  // The query

  /** Go's unicode.IsSpace: the Latin-1 spaces and the other White_Space characters. */
  predicate IsSpace(c: char)
  {
    c == '\t' || c == '\n' || c == '\U{000B}' || c == '\U{000C}' || c == '\r' || c == ' '
    || c == '\U{0085}' || c == '\U{00A0}' || c == '\U{1680}'
    || ('\U{2000}' <= c <= '\U{200A}')
    || c == '\U{2028}' || c == '\U{2029}' || c == '\U{202F}' || c == '\U{205F}' || c == '\U{3000}'
  }

  /** The number of white-space characters s starts with. */
  function LeadingSpaces(s: string): (n: nat)
    ensures n <= |s|
    ensures forall k :: 0 <= k < n ==> IsSpace(s[k])
    ensures n < |s| ==> !IsSpace(s[n])
    decreases |s|
  {
    if |s| > 0 && IsSpace(s[0]) then 1 + LeadingSpaces(s[1..]) else 0
  }

  /** The number of white-space characters s ends with. */
  function TrailingSpaces(s: string): (n: nat)
    ensures n <= |s|
    ensures forall k :: |s| - n <= k < |s| ==> IsSpace(s[k])
    ensures n < |s| ==> !IsSpace(s[|s| - n - 1])
    decreases |s|
  {
    if |s| > 0 && IsSpace(s[|s| - 1]) then 1 + TrailingSpaces(s[..|s| - 1]) else 0
  }

  /**
   * Go's strings.TrimSpace: s without its leading and trailing white space. What is left is
   * a slice of s that neither starts nor ends with white space, and everything cut off is
   * white space.
   */
  function TrimSpace(s: string): (r: string)
    ensures |r| == 0 || (!IsSpace(r[0]) && !IsSpace(r[|r| - 1]))
    ensures LeadingSpaces(s) + |r| <= |s| && r == s[LeadingSpaces(s)..LeadingSpaces(s) + |r|]
    ensures forall k :: LeadingSpaces(s) + |r| <= k < |s| ==> IsSpace(s[k])
  {
    var i := LeadingSpaces(s);
    var t := s[i..];
    var n := TrailingSpaces(t);
    var r := t[..|t| - n];
    assert s[i..i + |r|] == r;
    assert forall k :: i + |r| <= k < |s| ==> s[k] == t[k - i];
    r
  }

  /** Trimming twice trims nothing more. */
  lemma TrimSpaceIdempotent(s: string)
    ensures TrimSpace(TrimSpace(s)) == TrimSpace(s)
  {
    var r := TrimSpace(s);
    assert LeadingSpaces(r) == 0;
    assert r[0..] == r;
    assert TrailingSpaces(r) == 0;
    assert r[..|r|] == r;
  }

  /** How many bytes the UTF-8 encoding of c takes (Go's utf8.RuneLen). */
  function RuneLen(c: char): (n: nat)
    ensures 1 <= n <= 4
    ensures n == 1 <==> (c as int) < 0x80
  {
    if (c as int) < 0x80 then 1
    else if (c as int) < 0x800 then 2
    else if (c as int) < 0x1_0000 then 3
    else 4
  }

  /** Go's len of a string: the length of its UTF-8 encoding in bytes. */
  function Utf8Length(s: string): nat
    decreases |s|
  {
    if |s| == 0 then 0 else RuneLen(s[0]) + Utf8Length(s[1..])
  }

  predicate IsAscii(s: string)
  {
    forall k :: 0 <= k < |s| ==> (s[k] as int) < 0x80
  }

  /** A string takes at least one byte per character, exactly one when it is plain ASCII. */
  lemma {:induction false} Utf8LengthBounds(s: string)
    ensures |s| <= Utf8Length(s) <= 4 * |s|
    ensures Utf8Length(s) == |s| <==> IsAscii(s)
    decreases |s|
  {
    if |s| > 0 {
      Utf8LengthBounds(s[1..]);
      if IsAscii(s) {
        assert IsAscii(s[1..]) by {
          forall k | 0 <= k < |s[1..]| ensures (s[1..][k] as int) < 0x80 {
            assert s[1..][k] == s[k + 1];
          }
        }
      }
      if Utf8Length(s) == |s| {
        forall k | 0 <= k < |s| ensures (s[k] as int) < 0x80 {
          if k > 0 {
            assert s[k] == s[1..][k - 1];
          }
        }
      }
    }
  }

  /** Go's strings.HasPrefix. */
  predicate HasPrefix(s: string, prefix: string)
  {
    |prefix| <= |s| && s[..|prefix|] == prefix
  }

  /** The guard in front of the EC2 call: the "i-" prefix and exactly 19 bytes. */
  predicate IsInstanceIdQuery(search: string)
  {
    HasPrefix(search, InstanceIdPrefix) && Utf8Length(search) == ExactEc2InstanceIdLength
  }

  /**
   * For a plain ASCII query the guard is "i-" and 19 characters; any query that passes has
   * at most 19 characters, fewer when some of them take several bytes.
   */
  lemma InstanceIdQueryShape(search: string)
    ensures IsInstanceIdQuery(search) ==> |search| <= ExactEc2InstanceIdLength
    ensures IsAscii(search) ==>
              (IsInstanceIdQuery(search) <==> |search| == 19 && search[0] == 'i' && search[1] == '-')
  {
    Utf8LengthBounds(search);
    if |search| >= 2 {
      assert search[..2] == [search[0], search[1]];
    }
  }

  // ---------------------------------------------------------------------------------------
  // The DescribeInstances call

  datatype Filter = Filter(name: string, values: seq<string>)
  datatype DescribeInstancesInput = DescribeInstancesInput(filters: seq<Filter>)

  /** The request for one instance ID: a single "instance-id" filter holding the ID. */
  function InstanceIdRequest(search: string): DescribeInstancesInput
  {
    DescribeInstancesInput([Filter("instance-id", [search])])
  }

  datatype Association = Association(publicIp: string)
  datatype InstancePrivateIpAddress = InstancePrivateIpAddress(privateIpAddress: string)
  /** One network interface; an interface without a public address has no association. */
  datatype NetworkInterface = NetworkInterface(
    association: Option<Association>,
    privateIpAddresses: seq<InstancePrivateIpAddress>)
  datatype Tag = Tag(key: string, value: string)
  /**
   * One instance as DescribeInstances returns it. An entry None in networkInterfaces is a
   * nil interface entry; a stopped instance has no interfaces at all.
   */
  datatype Instance = Instance(
    instanceId: string,
    imageId: string,
    instanceType: string,
    stateName: string,
    availabilityZone: string,
    networkInterfaces: seq<Option<NetworkInterface>>,
    tags: seq<Tag>)
  datatype Reservation = Reservation(instances: seq<Instance>)

  /** What a client answers: the reservations that match, or the error of the call. */
  datatype Describe = Described(reservations: seq<Reservation>) | DescribeFailed(error: string)

  /** One configured EC2 client (one AWS account), as the answers it gives. */
  type Client = DescribeInstancesInput -> Describe

  // ---------------------------------------------------------------------------------------
  // Flattening one instance

  /** The public address of one interface, if it has an association. */
  function PublicIpOf(ni: Option<NetworkInterface>): seq<string>
  {
    if ni.Some? && ni.value.association.Some? then [ni.value.association.value.publicIp] else []
  }

  /** The private addresses of one interface, in order. */
  function PrivateIpsOf(ni: Option<NetworkInterface>): seq<string>
  {
    if ni.Some? then Addresses(ni.value.privateIpAddresses) else []
  }

  function Addresses(ps: seq<InstancePrivateIpAddress>): seq<string>
    decreases |ps|
  {
    if |ps| == 0 then [] else Addresses(ps[..|ps| - 1]) + [ps[|ps| - 1].privateIpAddress]
  }

  /** The public addresses collected over the interfaces, one per associated interface. */
  function PublicIps(nis: seq<Option<NetworkInterface>>): seq<string>
    decreases |nis|
  {
    if |nis| == 0 then [] else PublicIps(nis[..|nis| - 1]) + PublicIpOf(nis[|nis| - 1])
  }

  /** The private addresses collected over the interfaces. */
  function PrivateIps(nis: seq<Option<NetworkInterface>>): seq<string>
    decreases |nis|
  {
    if |nis| == 0 then [] else PrivateIps(nis[..|nis| - 1]) + PrivateIpsOf(nis[|nis| - 1])
  }

  /** Private addresses are listed one per entry, in order. */
  lemma {:induction false} AddressesInOrder(ps: seq<InstancePrivateIpAddress>)
    ensures |Addresses(ps)| == |ps|
    ensures forall k :: 0 <= k < |ps| ==> Addresses(ps)[k] == ps[k].privateIpAddress
    decreases |ps|
  {
    if |ps| > 0 {
      AddressesInOrder(ps[..|ps| - 1]);
    }
  }

  /** Collecting over two runs of interfaces lists the first run's public addresses, then the second's. */
  lemma {:induction false} PublicIpsAppend(a: seq<Option<NetworkInterface>>, b: seq<Option<NetworkInterface>>)
    ensures PublicIps(a + b) == PublicIps(a) + PublicIps(b)
    decreases |b|
  {
    if |b| == 0 {
      assert a + b == a;
    } else {
      var b' := b[..|b| - 1];
      assert (a + b)[..|a + b| - 1] == a + b';
      PublicIpsAppend(a, b');
      assert PublicIps(a + b) == PublicIps(a + b') + PublicIpOf(b[|b| - 1]);
    }
  }

  /** Collecting over two runs of interfaces lists the first run's private addresses, then the second's. */
  lemma {:induction false} PrivateIpsAppend(a: seq<Option<NetworkInterface>>, b: seq<Option<NetworkInterface>>)
    ensures PrivateIps(a + b) == PrivateIps(a) + PrivateIps(b)
    decreases |b|
  {
    if |b| == 0 {
      assert a + b == a;
    } else {
      var b' := b[..|b| - 1];
      assert (a + b)[..|a + b| - 1] == a + b';
      PrivateIpsAppend(a, b');
      assert PrivateIps(a + b) == PrivateIps(a + b') + PrivateIpsOf(b[|b| - 1]);
    }
  }

  /** The interface is there and has an association with public address ip. */
  predicate HasPublicIp(ni: Option<NetworkInterface>, ip: string)
  {
    ni.Some? && ni.value.association == Some(Association(ip))
  }

  /** The interface is there and lists private address ip. */
  predicate HasPrivateIp(ni: Option<NetworkInterface>, ip: string)
  {
    ni.Some? && exists k :: 0 <= k < |ni.value.privateIpAddresses| && ni.value.privateIpAddresses[k].privateIpAddress == ip
  }

  /** An address is listed as public exactly when some non-nil interface has an association with it. */
  lemma {:induction false} PublicIpsMembership(nis: seq<Option<NetworkInterface>>, ip: string)
    ensures ip in PublicIps(nis) <==> exists i :: 0 <= i < |nis| && HasPublicIp(nis[i], ip)
    decreases |nis|
  {
    if |nis| > 0 {
      var last := |nis| - 1;
      var init := nis[..last];
      PublicIpsMembership(init, ip);
      assert PublicIps(nis) == PublicIps(init) + PublicIpOf(nis[last]);
      if ip in PublicIps(nis) {
        if ip in PublicIps(init) {
          var i :| 0 <= i < |init| && HasPublicIp(init[i], ip);
          assert init[i] == nis[i];
        } else {
          assert HasPublicIp(nis[last], ip);
        }
      }
      if i :| 0 <= i < |nis| && HasPublicIp(nis[i], ip) {
        if i < last {
          assert init[i] == nis[i];
        }
      }
    }
  }

  /** The private addresses of one interface are exactly the ones it lists. */
  lemma PrivateIpsOfMembership(ni: Option<NetworkInterface>, ip: string)
    ensures ip in PrivateIpsOf(ni) <==> HasPrivateIp(ni, ip)
  {
    if ni.Some? {
      var ps := ni.value.privateIpAddresses;
      AddressesInOrder(ps);
      if ip in Addresses(ps) {
        var k :| 0 <= k < |ps| && Addresses(ps)[k] == ip;
        assert ps[k].privateIpAddress == ip;
      }
      if HasPrivateIp(ni, ip) {
        var k :| 0 <= k < |ps| && ps[k].privateIpAddress == ip;
        assert Addresses(ps)[k] == ip;
      }
    }
  }

  /** An address is listed as private exactly when some non-nil interface lists it. */
  lemma {:induction false} PrivateIpsMembership(nis: seq<Option<NetworkInterface>>, ip: string)
    ensures ip in PrivateIps(nis) <==> exists i :: 0 <= i < |nis| && HasPrivateIp(nis[i], ip)
    decreases |nis|
  {
    if |nis| > 0 {
      var last := |nis| - 1;
      var init := nis[..last];
      PrivateIpsMembership(init, ip);
      PrivateIpsOfMembership(nis[last], ip);
      assert PrivateIps(nis) == PrivateIps(init) + PrivateIpsOf(nis[last]);
      if ip in PrivateIps(init) {
        var i :| 0 <= i < |init| && HasPrivateIp(init[i], ip);
        assert init[i] == nis[i];
      }
      if i :| 0 <= i < last && HasPrivateIp(nis[i], ip) {
        assert init[i] == nis[i];
      }
    }
  }

  /**
   * The seven base metadata entries, each a one-value list except the address lists. The
   * address lists are empty (never absent) for an instance without interfaces.
   */
  function BaseMetadata(inst: Instance): map<string, seq<string>>
  {
    map[
      "instance_id" := [inst.instanceId],
      "ami_id" := [inst.imageId],
      "instance_type" := [inst.instanceType],
      "instance_state" := [inst.stateName],
      "az" := [inst.availabilityZone],
      "public_ips" := PublicIps(inst.networkInterfaces),
      "private_ips" := PrivateIps(inst.networkInterfaces)]
  }

  /** The metadata key a tag is stored under. */
  function TagKey(key: string): (k: string)
    ensures |k| >= 4 && k[..4] == "tag:" && k[4..] == key
  {
    "tag:" + key
  }

  /** Writing the tags into the metadata, in order, each over what was there. */
  function WithTags(metadata: map<string, seq<string>>, tags: seq<Tag>): map<string, seq<string>>
    decreases |tags|
  {
    if |tags| == 0 then metadata
    else WithTags(metadata, tags[..|tags| - 1])[TagKey(tags[|tags| - 1].key) := [tags[|tags| - 1].value]]
  }

  /** The links of an instance, both pointing at the "us-east-1" console. */
  function Links(instanceId: string): map<string, string>
  {
    map["ec2_console" := ConsoleLink(LinkRegion, instanceId),
        "config_timeline" := ConfigTimelineLink(LinkRegion, instanceId)]
  }

  /** The result one instance becomes. */
  function InstanceResult(inst: Instance): (r: Result)
    ensures r.kind == Ec2InstanceKind
    ensures r.links.Keys == {"ec2_console", "config_timeline"}
  {
    Result(Ec2InstanceKind, WithTags(BaseMetadata(inst), inst.tags), Links(inst.instanceId))
  }

  /** Tagging adds one "tag:" key per tag key and keeps every key already there. */
  lemma {:induction false} WithTagsKeys(metadata: map<string, seq<string>>, tags: seq<Tag>)
    ensures WithTags(metadata, tags).Keys == metadata.Keys + set i | 0 <= i < |tags| :: TagKey(tags[i].key)
    decreases |tags|
  {
    if |tags| > 0 {
      var init := tags[..|tags| - 1];
      WithTagsKeys(metadata, init);
      assert forall i :: 0 <= i < |init| ==> init[i] == tags[i];
      var added := set i | 0 <= i < |tags| :: TagKey(tags[i].key);
      var before := set i | 0 <= i < |init| :: TagKey(init[i].key);
      assert added == before + {TagKey(tags[|tags| - 1].key)} by {
        forall x | x in added ensures x in before + {TagKey(tags[|tags| - 1].key)} {
          var i :| 0 <= i < |tags| && x == TagKey(tags[i].key);
          if i < |init| {
            assert x == TagKey(init[i].key);
          }
        }
      }
    }
  }

  /** The last tag with a given key decides that key's value: the tag's value, alone. */
  lemma {:induction false} LastTagWins(metadata: map<string, seq<string>>, tags: seq<Tag>, i: nat)
    requires i < |tags|
    requires forall j :: i < j < |tags| ==> tags[j].key != tags[i].key
    ensures TagKey(tags[i].key) in WithTags(metadata, tags)
    ensures WithTags(metadata, tags)[TagKey(tags[i].key)] == [tags[i].value]
    decreases |tags|
  {
    if i < |tags| - 1 {
      var init := tags[..|tags| - 1];
      LastTagWins(metadata, init, i);
      var last := tags[|tags| - 1];
      assert last.key != tags[i].key;
      assert TagKey(last.key)[4..] != TagKey(tags[i].key)[4..];
    }
  }

  /** A key no tag writes keeps its value (or its absence). */
  lemma {:induction false} UntaggedKeyKept(metadata: map<string, seq<string>>, tags: seq<Tag>, k: string)
    requires forall j :: 0 <= j < |tags| ==> TagKey(tags[j].key) != k
    ensures k in WithTags(metadata, tags) <==> k in metadata
    ensures k in metadata ==> WithTags(metadata, tags)[k] == metadata[k]
    decreases |tags|
  {
    if |tags| > 0 {
      UntaggedKeyKept(metadata, tags[..|tags| - 1], k);
    }
  }

  /** No tag can overwrite a base entry: every tag key starts with "tag:", no base key does. */
  lemma BaseEntriesSurviveTags(inst: Instance)
    ensures forall k :: k in BaseMetadata(inst) ==>
              k in InstanceResult(inst).metadata && InstanceResult(inst).metadata[k] == BaseMetadata(inst)[k]
  {
    var base := BaseMetadata(inst);
    forall k | k in base
      ensures k in InstanceResult(inst).metadata && InstanceResult(inst).metadata[k] == base[k]
    {
      assert k == "instance_id" || k == "ami_id" || k == "instance_type" || k == "instance_state"
             || k == "az" || k == "public_ips" || k == "private_ips";
      assert k[0] != 't';
      UntaggedKeyKept(base, inst.tags, k);
    }
  }

  /**
   * What a result says about its instance, as the bot shows it: the IDs, type, state and
   * zone, the address lists, and links that lead back to the instance ID.
   */
  lemma InstanceSummary(inst: Instance)
    ensures InstanceResult(inst).kind == Ec2InstanceKind
    ensures InstanceResult(inst).GetMetadata("instance_id") == inst.instanceId
    ensures InstanceResult(inst).GetMetadata("ami_id") == inst.imageId
    ensures InstanceResult(inst).GetMetadata("instance_type") == inst.instanceType
    ensures InstanceResult(inst).GetMetadata("instance_state") == inst.stateName
    ensures InstanceResult(inst).GetMetadata("az") == inst.availabilityZone
    ensures InstanceResult(inst).GetMetadata("public_ips") == Join(PublicIps(inst.networkInterfaces), MetadataSeparator)
    ensures InstanceResult(inst).GetMetadata("private_ips") == Join(PrivateIps(inst.networkInterfaces), MetadataSeparator)
    ensures InstanceResult(inst).GetLink("ec2_console") == ConsoleLink(LinkRegion, inst.instanceId)
    ensures InstanceResult(inst).GetLink("config_timeline") == ConfigTimelineLink(LinkRegion, inst.instanceId)
  {
    BaseEntriesSurviveTags(inst);
    var base := BaseMetadata(inst);
    assert "instance_id" in base && "ami_id" in base && "instance_type" in base && "instance_state" in base;
    assert "az" in base && "public_ips" in base && "private_ips" in base;
  }

  // ---------------------------------------------------------------------------------------
  // Flattening the answer

  /** The instances of all reservations, reservation by reservation. */
  function Instances(rs: seq<Reservation>): seq<Instance>
    decreases |rs|
  {
    if |rs| == 0 then [] else Instances(rs[..|rs| - 1]) + rs[|rs| - 1].instances
  }

  /** The results of a run of instances, as the inner loop appends them. */
  function ResultsOf(instances: seq<Instance>): seq<Result>
    decreases |instances|
  {
    if |instances| == 0 then [] else ResultsOf(instances[..|instances| - 1]) + [InstanceResult(instances[|instances| - 1])]
  }

  /** The results of all reservations, as the outer loop appends them. */
  function Results(rs: seq<Reservation>): seq<Result>
    decreases |rs|
  {
    if |rs| == 0 then [] else Results(rs[..|rs| - 1]) + ResultsOf(rs[|rs| - 1].instances)
  }

  lemma {:induction false} ResultsOfInOrder(instances: seq<Instance>)
    ensures |ResultsOf(instances)| == |instances|
    ensures forall k :: 0 <= k < |instances| ==> ResultsOf(instances)[k] == InstanceResult(instances[k])
    decreases |instances|
  {
    if |instances| > 0 {
      ResultsOfInOrder(instances[..|instances| - 1]);
    }
  }

  /** One result per instance, in reservation-then-instance order. */
  lemma {:induction false} ResultsInOrder(rs: seq<Reservation>)
    ensures |Results(rs)| == |Instances(rs)|
    ensures forall k :: 0 <= k < |Instances(rs)| ==> Results(rs)[k] == InstanceResult(Instances(rs)[k])
    decreases |rs|
  {
    if |rs| > 0 {
      var init := rs[..|rs| - 1];
      var last := rs[|rs| - 1].instances;
      ResultsInOrder(init);
      ResultsOfInOrder(last);
      assert Results(rs) == Results(init) + ResultsOf(last);
      assert Instances(rs) == Instances(init) + last;
      forall k | 0 <= k < |Instances(rs)|
        ensures Results(rs)[k] == InstanceResult(Instances(rs)[k])
      {
        if k < |Instances(init)| {
          assert Results(rs)[k] == Results(init)[k];
          assert Instances(rs)[k] == Instances(init)[k];
        } else {
          var m := k - |Instances(init)|;
          assert Results(rs)[k] == ResultsOf(last)[m];
          assert Instances(rs)[k] == last[m];
        }
      }
    }
  }

  // ---------------------------------------------------------------------------------------
  // One searcher against one client

  /** What findEC2InstancesByID returns: a result set or nothing, and an error or none. */
  datatype Lookup = Lookup(resultSet: Option<ResultSet>, err: Option<string>)

  /** findEC2InstancesByID as a function of the client's answers and the query. */
  function Find(client: Client, search: string): (r: Lookup)
    ensures !(r.resultSet.Some? && r.err.Some?)
    ensures r.resultSet.Some? || r.err.Some? ==> IsInstanceIdQuery(search)
    ensures r.resultSet.Some? ==> r.resultSet.value.kind == Ec2InstanceKind && r.resultSet.value.searchLink == ""
  {
    if !IsInstanceIdQuery(search) then Lookup(None, None)
    else
      match client(InstanceIdRequest(search))
      case DescribeFailed(e) => Lookup(None, Some(e))
      case Described(rs) => Lookup(Some(ResultSet(Ec2InstanceKind, "", Results(rs))), None)
  }

  /**
   * A query that is not an instance ID finds nothing and fails with nothing, whatever the
   * client would answer: the client is not consulted.
   */
  lemma FindSkipsOtherQueries(c1: Client, c2: Client, search: string)
    requires !IsInstanceIdQuery(search)
    ensures Find(c1, search) == Find(c2, search) == Lookup(None, None)
  {
  }

  /**
   * An instance-ID query is asked with a single "instance-id" filter; a failed call yields
   * its error and no result set, an answered call one result set of kind "ec2.instance"
   * with one result per instance, in order, and no error. Never both.
   */
  lemma FindOutcome(client: Client, search: string)
    requires IsInstanceIdQuery(search)
    ensures InstanceIdRequest(search).filters == [Filter("instance-id", [search])]
    ensures !(Find(client, search).resultSet.Some? && Find(client, search).err.Some?)
    ensures client(InstanceIdRequest(search)).DescribeFailed? ==>
              Find(client, search) == Lookup(None, Some(client(InstanceIdRequest(search)).error))
    ensures client(InstanceIdRequest(search)).Described? ==>
              var rs := client(InstanceIdRequest(search)).reservations;
              var found := Find(client, search);
              found.err == None && found.resultSet.Some? &&
              found.resultSet.value.kind == Ec2InstanceKind &&
              |found.resultSet.value.results| == |Instances(rs)| &&
              forall k :: 0 <= k < |Instances(rs)| ==>
                found.resultSet.value.results[k] == InstanceResult(Instances(rs)[k])
  {
    if client(InstanceIdRequest(search)).Described? {
      ResultsInOrder(client(InstanceIdRequest(search)).reservations);
    }
  }

  /** The interface loop: collects the public and the private addresses. */
  method CollectAddresses(interfaces: seq<Option<NetworkInterface>>) returns (publicIps: seq<string>, privateIps: seq<string>)
    ensures publicIps == PublicIps(interfaces)
    ensures privateIps == PrivateIps(interfaces)
  {
    publicIps, privateIps := [], [];
    var i := 0;
    while i < |interfaces|
      invariant 0 <= i <= |interfaces|
      invariant publicIps == PublicIps(interfaces[..i])
      invariant privateIps == PrivateIps(interfaces[..i])
    {
      assert interfaces[..i + 1][..i] == interfaces[..i];
      match interfaces[i] {
        case None =>
        case Some(ni) =>
          if ni.association.Some? {
            publicIps := publicIps + [ni.association.value.publicIp];
          }
          var ps := ni.privateIpAddresses;
          var j := 0;
          while j < |ps|
            invariant 0 <= j <= |ps|
            invariant privateIps == PrivateIps(interfaces[..i]) + Addresses(ps[..j])
          {
            assert ps[..j + 1][..j] == ps[..j];
            privateIps := privateIps + [ps[j].privateIpAddress];
            j := j + 1;
          }
          assert ps[..j] == ps;
      }
      i := i + 1;
    }
    assert interfaces[..i] == interfaces;
  }

  /** Builds the result of one instance: base metadata, links, then the tags one by one. */
  method BuildResult(inst: Instance) returns (r: Result)
    ensures r == InstanceResult(inst)
  {
    var publicIps, privateIps := CollectAddresses(inst.networkInterfaces);
    var metadata := map[
      "instance_id" := [inst.instanceId],
      "ami_id" := [inst.imageId],
      "instance_type" := [inst.instanceType],
      "instance_state" := [inst.stateName],
      "az" := [inst.availabilityZone],
      "public_ips" := publicIps,
      "private_ips" := privateIps];
    var links := map[
      "ec2_console" := ConsoleLink(LinkRegion, inst.instanceId),
      "config_timeline" := ConfigTimelineLink(LinkRegion, inst.instanceId)];
    var k := 0;
    while k < |inst.tags|
      invariant 0 <= k <= |inst.tags|
      invariant metadata == WithTags(BaseMetadata(inst), inst.tags[..k])
    {
      assert inst.tags[..k + 1][..k] == inst.tags[..k];
      metadata := metadata[TagKey(inst.tags[k].key) := [inst.tags[k].value]];
      k := k + 1;
    }
    assert inst.tags[..k] == inst.tags;
    r := Result(Ec2InstanceKind, metadata, links);
  }

  /** The instance loop of one reservation: one result per instance, appended in order. */
  method FlattenInstances(instances: seq<Instance>) returns (results: seq<Result>)
    ensures results == ResultsOf(instances)
  {
    results := [];
    var j := 0;
    while j < |instances|
      invariant 0 <= j <= |instances|
      invariant results == ResultsOf(instances[..j])
    {
      assert instances[..j + 1][..j] == instances[..j];
      var result := BuildResult(instances[j]);
      assert ResultsOf(instances[..j + 1]) == ResultsOf(instances[..j]) + [result];
      results := results + [result];
      j := j + 1;
    }
    assert instances[..j] == instances;
  }

  /** The reservation loop: the results of each reservation's instances, appended in order. */
  method FlattenReservations(reservations: seq<Reservation>) returns (results: seq<Result>)
    ensures results == Results(reservations)
  {
    results := [];
    var i := 0;
    while i < |reservations|
      invariant 0 <= i <= |reservations|
      invariant results == Results(reservations[..i])
    {
      assert reservations[..i + 1][..i] == reservations[..i];
      var found := FlattenInstances(reservations[i].instances);
      results := results + found;
      i := i + 1;
    }
    assert reservations[..i] == reservations;
  }

  /**
   * findEC2InstancesByID: the ID guard, the call, and the flattening of the answer into a
   * result set.
   */
  method FindEC2InstancesByID(client: Client, search: string) returns (resultSet: Option<ResultSet>, err: Option<string>)
    ensures Lookup(resultSet, err) == Find(client, search)
  {
    if !HasPrefix(search, InstanceIdPrefix) {
      return None, None;
    }
    if Utf8Length(search) != ExactEc2InstanceIdLength {
      return None, None;
    }
    var output := client(InstanceIdRequest(search));
    if output.DescribeFailed? {
      return None, Some(output.error);
    }
    var results := FlattenReservations(output.reservations);
    return Some(ResultSet(Ec2InstanceKind, "", results)), None;
  }

  // ---------------------------------------------------------------------------------------
  // The resolver

  /** What Search returns, with the errors it logs. */
  datatype Outcome = Outcome(results: seq<ResultSet>, logged: seq<string>)

  /** The searcher tried against each client in turn: errors are logged, result sets kept. */
  function Collect(clients: seq<Client>, query: string): (o: Outcome)
    ensures |o.results| + |o.logged| <= |clients|
    ensures !IsInstanceIdQuery(query) ==> o == Outcome([], [])
    decreases |clients|
  {
    if |clients| == 0 then Outcome([], [])
    else
      var o := Collect(clients[..|clients| - 1], query);
      var found := Find(clients[|clients| - 1], query);
      Outcome(o.results + (if found.resultSet.Some? then [found.resultSet.value] else []),
              o.logged + (if found.err.Some? then [found.err.value] else []))
  }

  /** Search on a query: the trimmed query tried against every client. */
  function SearchSpec(clients: seq<Client>, query: string): (o: Outcome)
    ensures |o.results| + |o.logged| <= |clients|
    ensures !IsInstanceIdQuery(TrimSpace(query)) ==> o == Outcome([], [])
  {
    Collect(clients, TrimSpace(query))
  }

  /** Trying two runs of clients lists the first run's result sets and errors, then the second's. */
  lemma {:induction false} CollectAppend(a: seq<Client>, b: seq<Client>, query: string)
    ensures Collect(a + b, query).results == Collect(a, query).results + Collect(b, query).results
    ensures Collect(a + b, query).logged == Collect(a, query).logged + Collect(b, query).logged
    decreases |b|
  {
    if |b| == 0 {
      assert a + b == a;
    } else {
      var b' := b[..|b| - 1];
      assert (a + b)[..|a + b| - 1] == a + b';
      CollectAppend(a, b', query);
    }
  }

  /**
   * Every client yields a result set or an error when the trimmed query is an instance ID,
   * so the two lists together have one entry per client; otherwise Search returns nothing
   * and logs nothing. Every result set is of kind "ec2.instance".
   */
  lemma {:induction false} CollectCounts(clients: seq<Client>, query: string)
    ensures IsInstanceIdQuery(query) ==>
              |Collect(clients, query).results| + |Collect(clients, query).logged| == |clients|
    ensures !IsInstanceIdQuery(query) ==> Collect(clients, query) == Outcome([], [])
    ensures forall k :: 0 <= k < |Collect(clients, query).results| ==>
              Collect(clients, query).results[k].kind == Ec2InstanceKind
    decreases |clients|
  {
    if |clients| > 0 {
      CollectCounts(clients[..|clients| - 1], query);
      if IsInstanceIdQuery(query) {
        FindOutcome(clients[|clients| - 1], query);
      }
    }
  }

  /** Surrounding white space in the query makes no difference. */
  lemma SearchIgnoresSurroundingSpace(clients: seq<Client>, query: string)
    ensures SearchSpec(clients, query) == SearchSpec(clients, TrimSpace(query))
  {
    TrimSpaceIdempotent(query);
  }

  /** The resolver: one EC2 client per configured AWS account. */
  class EC2Resolver {
    const clients: seq<Client>

    constructor(clients: seq<Client>)
      ensures this.clients == clients
    {
      this.clients := clients;
    }

    /**
     * Trims the query and tries the instance-ID searcher against every client, in order,
     * keeping every result set found and logging every error.
     */
    method Search(query: string) returns (results: seq<ResultSet>, logged: seq<string>)
      ensures Outcome(results, logged) == SearchSpec(clients, query)
    {
      var q := TrimSpace(query);
      results, logged := [], [];
      var i := 0;
      while i < |clients|
        invariant 0 <= i <= |clients|
        invariant Outcome(results, logged) == Collect(clients[..i], q)
      {
        assert clients[..i + 1][..i] == clients[..i];
        var resultSet, err := FindEC2InstancesByID(clients[i], q);
        ghost var before := Outcome(results, logged);
        assert Collect(clients[..i + 1], q)
               == Outcome(before.results + (if resultSet.Some? then [resultSet.value] else []),
                          before.logged + (if err.Some? then [err.value] else []));
        if err.Some? {
          logged := logged + [err.value];
        }
        if resultSet.Some? {
          results := results + [resultSet.value];
        }
        i := i + 1;
      }
      assert clients[..i] == clients;
    }
  }
}
