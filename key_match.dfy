/**
 * How mapstructure finds the map entry for a struct field: the entry whose key is exactly
 * the field's key if there is one, otherwise an entry whose key equals it up to case.
 */
module KeyMatch {
  import opened Wrappers

  /** ASCII lower-casing of one character. */
  function FoldChar(c: char): char
  {
    if 'A' <= c <= 'Z' then (c as int + 32) as char else c
  }

  /** Equality up to ASCII case. */
  predicate EqualFold(a: string, b: string)
  {
    |a| == |b| && forall i :: 0 <= i < |a| ==> FoldChar(a[i]) == FoldChar(b[i])
  }

  /** Lexicographic order on strings, by code point. */
  predicate LexLe(a: string, b: string)
    decreases |a|
  {
    if |a| == 0 then true
    else if |b| == 0 then false
    else if a[0] != b[0] then a[0] < b[0]
    else LexLe(a[1..], b[1..])
  }

  lemma {:induction false} LexLeTotal(a: string, b: string)
    ensures LexLe(a, b) || LexLe(b, a)
    decreases |a|
  {
    if |a| > 0 && |b| > 0 && a[0] == b[0] {
      LexLeTotal(a[1..], b[1..]);
    }
  }

  lemma {:induction false} LexLeAntisymmetric(a: string, b: string)
    requires LexLe(a, b) && LexLe(b, a)
    ensures a == b
    decreases |a|
  {
    if |a| > 0 {
      LexLeAntisymmetric(a[1..], b[1..]);
      assert a == [a[0]] + a[1..];
      assert b == [b[0]] + b[1..];
    }
  }

  lemma LexLeAntisymmetricAll()
    ensures forall a, b :: LexLe(a, b) && LexLe(b, a) ==> a == b
  {
    forall a, b | LexLe(a, b) && LexLe(b, a)
      ensures a == b
    {
      LexLeAntisymmetric(a, b);
    }
  }

  lemma {:induction false} LexLeTransitive(a: string, b: string, c: string)
    requires LexLe(a, b) && LexLe(b, c)
    ensures LexLe(a, c)
    decreases |a|
  {
    if |a| > 0 && |b| > 0 && |c| > 0 && a[0] == b[0] && b[0] == c[0] {
      LexLeTransitive(a[1..], b[1..], c[1..]);
    }
  }

  predicate IsLeast(k: string, keys: set<string>)
  {
    k in keys && forall x :: x in keys ==> LexLe(k, x)
  }

  /** Every non-empty finite set of strings has a least element. */
  lemma {:induction false} LeastExists(keys: set<string>)
    requires keys != {}
    ensures exists k :: IsLeast(k, keys)
    decreases |keys|
  {
    var x :| x in keys;
    LexLeTotal(x, x);
    if keys == {x} {
      assert IsLeast(x, keys);
    } else {
      var rest := keys - {x};
      LeastExists(rest);
      var m :| IsLeast(m, rest);
      LexLeTotal(x, m);
      if LexLe(x, m) {
        forall y | y in keys
          ensures LexLe(x, y)
        {
          if y != x {
            LexLeTransitive(x, m, y);
          }
        }
        assert IsLeast(x, keys);
      } else {
        assert IsLeast(m, keys);
      }
    }
  }

  /** The least key of a non-empty set; the one deterministic pick among several fold matches. */
  function Least(keys: set<string>): (k: string)
    requires keys != {}
    ensures IsLeast(k, keys)
  {
    LeastExists(keys);
    LexLeAntisymmetricAll();
    var k :| IsLeast(k, keys);
    k
  }

  /** The keys of `obj` that equal `key` up to ASCII case. */
  function FoldMatches<V>(obj: map<string, V>, key: string): set<string>
  {
    set k | k in obj && EqualFold(k, key)
  }

  /**
   * The entry mapstructure reads for a field whose key is `key`: the exact key when present,
   * else a key that equals it up to case (the least one, when there are several).
   */
  function Lookup<V>(obj: map<string, V>, key: string): (r: Option<V>)
    ensures key in obj ==> r == Some(obj[key])
  {
    if key in obj then Some(obj[key])
    else
      var matches := FoldMatches(obj, key);
      assert forall k :: k in obj && EqualFold(k, key) ==> k in matches;
      if matches == {} then None else Some(obj[Least(matches)])
  }

  /** Something is found exactly when some key matches up to case, and what is found is that key's entry. */
  lemma LookupFinds<V>(obj: map<string, V>, key: string)
    ensures Lookup(obj, key).Some? <==> exists k :: k in obj && EqualFold(k, key)
    ensures Lookup(obj, key).Some? ==> exists k :: k in obj && EqualFold(k, key) && Lookup(obj, key).value == obj[k]
  {
    if key in obj {
      assert EqualFold(key, key);
    } else if k :| k in obj && EqualFold(k, key) {
      assert k in FoldMatches(obj, key);
    }
  }

  /** An entry whose key does not match `key` up to case plays no part in looking up `key`. */
  lemma LookupUpdateOther<V>(obj: map<string, V>, key: string, k: string, v: V)
    requires !EqualFold(k, key)
    ensures Lookup(obj[k := v], key) == Lookup(obj, key)
  {
    assert FoldMatches(obj[k := v], key) == FoldMatches(obj, key);
  }

  /** When exactly one key matches up to case and none matches exactly, that entry is read. */
  lemma LookupByFold<V>(obj: map<string, V>, key: string, k: string)
    requires key !in obj && k in obj && EqualFold(k, key)
    requires forall x :: x in obj && EqualFold(x, key) ==> x == k
    ensures Lookup(obj, key) == Some(obj[k])
  {
    assert FoldMatches(obj, key) == {k};
  }
}
