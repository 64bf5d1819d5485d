/**
 * The order in which `Object.entries` and `Object.keys` list the own keys of
 * an ordinary object: array-index keys first, in ascending numeric order,
 * then every other key in the order it was first assigned.
 */
module PropertyOrder {
  import opened Base

  /**
   * A key that names an array index: the canonical decimal numeral (no
   * leading zero unless it is "0") of a number below 2^32 - 1. Ordinary
   * objects list such keys before all others, in ascending numeric order.
   */
  predicate IsArrayIndex(k: string) {
    k != "" && AllDigits(k) && (k[0] != '0' || |k| == 1) && DigitsValue(k) < 0xFFFF_FFFF
  }

  /** The number an array-index key names. */
  function IndexValue(k: string): nat
    requires IsArrayIndex(k)
  {
    DigitsValue(k)
  }

  /** The array-index keys, in their order. */
  function IndexKeys(keys: seq<string>): (r: seq<string>)
    ensures forall i :: 0 <= i < |r| ==> IsArrayIndex(r[i])
    decreases |keys|
  {
    if keys == [] then [] else (if IsArrayIndex(keys[0]) then [keys[0]] else []) + IndexKeys(keys[1..])
  }

  /** The keys that are not array indexes, in their order. */
  function NamedKeys(keys: seq<string>): (r: seq<string>)
    ensures forall i :: 0 <= i < |r| ==> !IsArrayIndex(r[i])
    decreases |keys|
  {
    if keys == [] then [] else (if IsArrayIndex(keys[0]) then [] else [keys[0]]) + NamedKeys(keys[1..])
  }

  lemma {:induction false} PartitionKeys(keys: seq<string>)
    ensures multiset(IndexKeys(keys)) + multiset(NamedKeys(keys)) == multiset(keys)
    decreases |keys|
  {
    if keys != [] {
      PartitionKeys(keys[1..]);
      assert keys == [keys[0]] + keys[1..];
    }
  }

  lemma {:induction false} NamedKeysAppend(a: seq<string>, b: seq<string>)
    ensures NamedKeys(a + b) == NamedKeys(a) + NamedKeys(b)
    decreases |a|
  {
    if a == [] {
      assert a + b == b;
    } else {
      assert (a + b)[1..] == a[1..] + b;
      NamedKeysAppend(a[1..], b);
    }
  }

  lemma {:induction false} NamedKeysOfIndexes(s: seq<string>)
    requires forall i :: 0 <= i < |s| ==> IsArrayIndex(s[i])
    ensures NamedKeys(s) == []
    decreases |s|
  {
    if s != [] {
      NamedKeysOfIndexes(s[1..]);
    }
  }

  lemma {:induction false} NamedKeysOfNamed(s: seq<string>)
    requires forall i :: 0 <= i < |s| ==> !IsArrayIndex(s[i])
    ensures NamedKeys(s) == s
    decreases |s|
  {
    if s != [] {
      NamedKeysOfNamed(s[1..]);
    }
  }

  /** Array-index keys in non-decreasing numeric order. */
  predicate Ascending(s: seq<string>)
    requires forall i :: 0 <= i < |s| ==> IsArrayIndex(s[i])
  {
    forall i, j :: 0 <= i < j < |s| ==> IndexValue(s[i]) <= IndexValue(s[j])
  }

  /** Places the index `k` before the first index that is not smaller. */
  function InsertIndex(k: string, s: seq<string>): (r: seq<string>)
    requires IsArrayIndex(k) && forall i :: 0 <= i < |s| ==> IsArrayIndex(s[i])
    ensures multiset(r) == multiset(s) + multiset{k}
    ensures forall i :: 0 <= i < |r| ==> IsArrayIndex(r[i])
    decreases |s|
  {
    if s == [] || IndexValue(k) <= IndexValue(s[0]) then [k] + s
    else
      assert s == [s[0]] + s[1..];
      [s[0]] + InsertIndex(k, s[1..])
  }

  /** The array-index keys sorted by their numeric value. */
  function SortIndexes(s: seq<string>): (r: seq<string>)
    requires forall i :: 0 <= i < |s| ==> IsArrayIndex(s[i])
    ensures multiset(r) == multiset(s)
    ensures forall i :: 0 <= i < |r| ==> IsArrayIndex(r[i])
    decreases |s|
  {
    if s == [] then []
    else
      assert s == [s[0]] + s[1..];
      InsertIndex(s[0], SortIndexes(s[1..]))
  }

  lemma {:induction false} InsertIndexAscending(k: string, s: seq<string>)
    requires IsArrayIndex(k) && forall i :: 0 <= i < |s| ==> IsArrayIndex(s[i])
    requires Ascending(s)
    ensures Ascending(InsertIndex(k, s))
    decreases |s|
  {
    if s != [] && IndexValue(k) > IndexValue(s[0]) {
      InsertIndexAscending(k, s[1..]);
      var r := InsertIndex(k, s[1..]);
      forall j | 0 <= j < |r| ensures IndexValue(s[0]) <= IndexValue(r[j]) {
        assert r[j] in multiset(r);
        if r[j] != k {
          assert r[j] in multiset(s[1..]);
          var q :| 0 <= q < |s[1..]| && s[1..][q] == r[j];
          assert s[q + 1] == r[j];
        }
      }
    }
  }

  lemma {:induction false} SortIndexesAscending(s: seq<string>)
    requires forall i :: 0 <= i < |s| ==> IsArrayIndex(s[i])
    ensures Ascending(SortIndexes(s))
    decreases |s|
  {
    if s != [] {
      SortIndexesAscending(s[1..]);
      InsertIndexAscending(s[0], SortIndexes(s[1..]));
    }
  }

  /**
   * The order in which `Object.entries` lists an object's own keys, given the
   * order they were first assigned in: the array indexes in ascending numeric
   * order, then the other keys in assignment order.
   */
  function OwnKeys(keys: seq<string>): (r: seq<string>)
    ensures multiset(r) == multiset(keys)
    ensures |r| == |keys|
  {
    PartitionKeys(keys);
    var r := SortIndexes(IndexKeys(keys)) + NamedKeys(keys);
    assert |multiset(r)| == |multiset(keys)|;
    r
  }

  /** Sequences holding the same multiset hold the same members. */
  lemma SameMembers(r: seq<string>, s: seq<string>)
    requires multiset(r) == multiset(s)
    ensures forall k :: k in r <==> k in s
  {
    forall k ensures k in r <==> k in s {
      assert k in r <==> k in multiset(r);
      assert k in s <==> k in multiset(s);
    }
  }

  /** Ascending indexes followed by other keys: every index precedes every other key. */
  lemma IndexesFirst(a: seq<string>, b: seq<string>)
    requires forall i :: 0 <= i < |a| ==> IsArrayIndex(a[i])
    requires forall i :: 0 <= i < |b| ==> !IsArrayIndex(b[i])
    requires Ascending(a)
    ensures forall i, j :: 0 <= i < j < |a + b| && IsArrayIndex((a + b)[j]) ==>
      IsArrayIndex((a + b)[i]) && IndexValue((a + b)[i]) <= IndexValue((a + b)[j])
  {
    var r := a + b;
    forall i, j | 0 <= i < j < |r| && IsArrayIndex(r[j])
      ensures IsArrayIndex(r[i]) && IndexValue(r[i]) <= IndexValue(r[j])
    {
      assert r[i] == a[i] && r[j] == a[j];
    }
  }

  /**
   * `OwnKeys` holds the same keys; every array index comes before every other
   * key, the indexes ascend, and the other keys keep their assignment order.
   */
  lemma OwnKeysOrder(keys: seq<string>)
    ensures forall k :: k in OwnKeys(keys) <==> k in keys
    ensures forall i, j :: 0 <= i < j < |OwnKeys(keys)| && IsArrayIndex(OwnKeys(keys)[j]) ==>
      IsArrayIndex(OwnKeys(keys)[i]) && IndexValue(OwnKeys(keys)[i]) <= IndexValue(OwnKeys(keys)[j])
    ensures NamedKeys(OwnKeys(keys)) == NamedKeys(keys)
  {
    var a := SortIndexes(IndexKeys(keys));
    var b := NamedKeys(keys);
    assert OwnKeys(keys) == a + b;
    SameMembers(OwnKeys(keys), keys);
    SortIndexesAscending(IndexKeys(keys));
    IndexesFirst(a, b);
    NamedKeysAppend(a, b);
    NamedKeysOfIndexes(a);
    NamedKeysOfNamed(b);
  }

  /** No key occurs twice. */
  predicate Distinct(s: seq<string>) {
    forall i, j :: 0 <= i < j < |s| ==> s[i] != s[j]
  }

  lemma {:induction false} DistinctCounts(s: seq<string>)
    requires Distinct(s)
    ensures forall k :: multiset(s)[k] <= 1
    decreases |s|
  {
    if s != [] {
      DistinctCounts(s[1..]);
      assert s == [s[0]] + s[1..];
      assert s[0] !in s[1..];
    }
  }

  lemma CountsDistinct(s: seq<string>)
    requires forall k :: multiset(s)[k] <= 1
    ensures Distinct(s)
  {
    forall i, j | 0 <= i < j < |s| ensures s[i] != s[j] {
      var x := s[j];
      assert s == s[..j] + s[j..];
      assert x == s[j..][0] && x in multiset(s[j..]);
      assert multiset(s) == multiset(s[..j]) + multiset(s[j..]);
      assert multiset(s)[x] <= 1 && multiset(s[j..])[x] >= 1;
      assert multiset(s[..j])[x] == 0;
      assert s[i] == s[..j][i];
    }
  }

  /** Reordering keeps the keys distinct. */
  lemma OwnKeysDistinct(keys: seq<string>)
    requires Distinct(keys)
    ensures Distinct(OwnKeys(keys))
  {
    DistinctCounts(keys);
    CountsDistinct(OwnKeys(keys));
  }

  /** Two keys, the second an array index and the first not: the index is listed first. */
  lemma OwnKeysOfTwo(w: string, d: string)
    requires !IsArrayIndex(w) && IsArrayIndex(d)
    ensures OwnKeys([w, d]) == [d, w]
  {
    assert [w, d][1..] == [d] && [d][1..] == [];
    assert IndexKeys([d]) == [d] && NamedKeys([d]) == [];
    assert IndexKeys([w, d]) == [d];
    assert NamedKeys([w, d]) == [w];
    assert SortIndexes([d]) == [d];
  }

  /** Assigning "b" then "1" lists "1" first. */
  lemma IndexKeyFirst()
    ensures OwnKeys(["b", "1"]) == ["1", "b"]
  {
    assert DigitsValue("1") == 1 by { assert "1"[..0] == ""; }
    assert !IsArrayIndex("b") by { assert !IsDigit("b"[0]); }
    OwnKeysOfTwo("b", "1");
  }
}
