/**
 * The insertion-ordered `Map<String, Int>` that Kotlin's
 * `groupingBy { … }.eachCount()` builds (a `LinkedHashMap`), and the
 * collection operations the weekly report applies to it: `values.sum()`,
 * `values.maxOrNull()` and `maxByOrNull { it.value }`.
 */
module Counting {
  import opened Wrappers

  /** One `Map.Entry<String, Int>`. */
  datatype MapEntry = MapEntry(key: string, value: int)

  /** The map's entries in iteration (insertion) order. */
  type CountMap = seq<MapEntry>

  function Keys(m: CountMap): (ks: seq<string>)
    ensures |ks| == |m| && forall i :: 0 <= i < |m| ==> ks[i] == m[i].key
  {
    if |m| == 0 then [] else [m[0].key] + Keys(m[1..])
  }

  function Values(m: CountMap): (vs: seq<int>)
    ensures |vs| == |m| && forall i :: 0 <= i < |m| ==> vs[i] == m[i].value
  {
    if |m| == 0 then [] else [m[0].value] + Values(m[1..])
  }

  predicate Distinct(ks: seq<string>)
  {
    forall i, j :: 0 <= i < j < |ks| ==> ks[i] != ks[j]
  }

  /** `m[k] ?: 0`. */
  function CountOf(m: CountMap, k: string): int
  {
    if |m| == 0 then 0 else if m[0].key == k then m[0].value else CountOf(m[1..], k)
  }

  /** `sum()`. */
  function Sum(vs: seq<int>): int
  {
    if |vs| == 0 then 0 else vs[0] + Sum(vs[1..])
  }

  /** In a map with distinct keys, looking up an entry's key gives its value. */
  lemma {:induction false} CountOfAt(m: CountMap, i: nat)
    requires Distinct(Keys(m)) && i < |m|
    ensures CountOf(m, m[i].key) == m[i].value
  {
    if i > 0 {
      assert Keys(m[1..]) == Keys(m)[1..];
      CountOfAt(m[1..], i - 1);
    }
  }

  /**
   * One step of `eachCount`: `m[k] = (m[k] ?: 0) + 1`. An existing key keeps
   * its place; a new key is appended with count 1.
   */
  function Bump(m: CountMap, k: string): (r: CountMap)
    ensures Keys(r) == if k in Keys(m) then Keys(m) else Keys(m) + [k]
    ensures forall x :: CountOf(r, x) == CountOf(m, x) + (if x == k then 1 else 0)
    ensures Sum(Values(r)) == Sum(Values(m)) + 1
  {
    if |m| == 0 then [MapEntry(k, 1)]
    else if m[0].key == k then
      var r := [MapEntry(k, m[0].value + 1)] + m[1..];
      assert r[1..] == m[1..];
      assert Keys(r) == Keys(m);
      r
    else
      var rest := Bump(m[1..], k);
      var r := [m[0]] + rest;
      assert r[1..] == rest;
      assert Keys(m) == [m[0].key] + Keys(m[1..]);
      r
  }

  /**
   * `keys.groupingBy { it }.eachCount()`: a left fold of Bump over `ks`.
   * The keys are exactly the distinct elements of `ks`, and each key maps to
   * its number of occurrences.
   */
  function EachCount(ks: seq<string>): (m: CountMap)
    ensures Distinct(Keys(m))
    ensures forall x :: x in Keys(m) <==> x in ks
    ensures forall x :: CountOf(m, x) == multiset(ks)[x]
  {
    if |ks| == 0 then []
    else
      var init, k := ks[..|ks| - 1], ks[|ks| - 1];
      assert ks == init + [k];
      var m := EachCount(init);
      BumpDistinct(m, k);
      assert forall x :: x in ks <==> x in init || x == k;
      Bump(m, k)
  }

  /** Bumping a key keeps the keys distinct. */
  lemma BumpDistinct(m: CountMap, k: string)
    requires Distinct(Keys(m))
    ensures Distinct(Keys(Bump(m, k)))
    ensures forall x :: x in Keys(Bump(m, k)) <==> x in Keys(m) || x == k
  {
    if k !in Keys(m) {
      var ks := Keys(m) + [k];
      forall i, j | 0 <= i < j < |ks| ensures ks[i] != ks[j] {
        if j == |ks| - 1 {
          assert ks[i] == Keys(m)[i];
        }
      }
    }
  }

  /** Every entry of the counted map holds the number of occurrences of its key, at least 1. */
  lemma EachCountEntries(ks: seq<string>)
    ensures var m := EachCount(ks);
      forall i :: 0 <= i < |m| ==> m[i].value == multiset(ks)[m[i].key] >= 1
  {
    var m := EachCount(ks);
    forall i | 0 <= i < |m|
      ensures m[i].value == multiset(ks)[m[i].key] >= 1
    {
      CountOfAt(m, i);
      assert m[i].key in Keys(m);
    }
  }

  /** The counts add up to the number of counted elements. */
  lemma {:induction false} EachCountSum(ks: seq<string>)
    ensures Sum(Values(EachCount(ks))) == |ks|
  {
    if |ks| > 0 {
      EachCountSum(ks[..|ks| - 1]);
    }
  }

  /** Index of the first occurrence of `x` in `s`. */
  function FirstIndex(s: seq<string>, x: string): (i: nat)
    requires x in s
    ensures i < |s| && s[i] == x && x !in s[..i]
  {
    if s[0] == x then 0
    else
      var j := FirstIndex(s[1..], x);
      assert s[1..][..j] == s[1..j + 1];
      assert s[..j + 1] == [s[0]] + s[1..j + 1];
      j + 1
  }

  lemma {:induction false} FirstIndexAppend(s: seq<string>, y: string, x: string)
    requires x in s
    ensures FirstIndex(s + [y], x) == FirstIndex(s, x)
  {
    if s[0] != x {
      assert (s + [y])[1..] == s[1..] + [y];
      FirstIndexAppend(s[1..], y, x);
    }
  }

  lemma FirstIndexNew(s: seq<string>, y: string)
    requires y !in s
    ensures FirstIndex(s + [y], y) == |s|
  {
    assert (s + [y])[..|s|] == s;
  }

  /** `keys` lists the elements of `s`, each in the order of its first occurrence in `s`. */
  ghost predicate FirstSeenOrder(s: seq<string>, keys: seq<string>)
  {
    && (forall x :: x in keys <==> x in s)
    && (forall i, j :: 0 <= i < j < |keys| ==> FirstIndex(s, keys[i]) < FirstIndex(s, keys[j]))
  }

  /** Appending `k` to the scanned sequence keeps the order, and a new key goes last. */
  lemma FirstSeenOrderStep(s: seq<string>, k: string, keys: seq<string>)
    requires FirstSeenOrder(s, keys)
    ensures FirstSeenOrder(s + [k], if k in keys then keys else keys + [k])
  {
    var keys' := if k in keys then keys else keys + [k];
    forall x | x in keys
      ensures FirstIndex(s + [k], x) == FirstIndex(s, x)
    {
      FirstIndexAppend(s, k, x);
    }
    if k !in keys && k !in s {
      FirstIndexNew(s, k);
    }
    forall i, j | 0 <= i < j < |keys'|
      ensures FirstIndex(s + [k], keys'[i]) < FirstIndex(s + [k], keys'[j])
    {
      assert keys'[i] == keys[i];
      if j == |keys| {
        assert keys'[j] == k;
      }
    }
  }

  /** The keys come in first-encounter order when scanning `ks`. */
  lemma {:induction false} EachCountOrder(ks: seq<string>)
    ensures FirstSeenOrder(ks, Keys(EachCount(ks)))
  {
    if |ks| > 0 {
      var init, k := ks[..|ks| - 1], ks[|ks| - 1];
      assert ks == init + [k];
      EachCountOrder(init);
      FirstSeenOrderStep(init, k, Keys(EachCount(init)));
    }
  }

  /** `maxOrNull()`: the largest value, or null for no values. */
  function MaxOrNull(vs: seq<int>): (r: Option<int>)
    ensures r.None? <==> |vs| == 0
    ensures r.Some? ==> r.value in vs && forall v :: v in vs ==> v <= r.value
  {
    if |vs| == 0 then None
    else
      var rest := MaxOrNull(vs[1..]);
      assert vs == [vs[0]] + vs[1..];
      if rest.Some? && vs[0] < rest.value then rest else Some(vs[0])
  }

  /** Entry `b` has the largest value, and every earlier entry a strictly smaller one. */
  predicate IsFirstMax(m: CountMap, b: nat)
  {
    && b < |m|
    && (forall j :: 0 <= j < |m| ==> m[j].value <= m[b].value)
    && (forall j :: 0 <= j < b ==> m[j].value < m[b].value)
  }

  /** At most one entry is the first with the largest value. */
  lemma FirstMaxUnique(m: CountMap, a: nat, b: nat)
    requires IsFirstMax(m, a) && IsFirstMax(m, b)
    ensures a == b
  {
    assert m[a].value == m[b].value;
  }

  /**
   * The scan of `maxByOrNull`: `best` is the entry kept so far after looking
   * at the entries before `i`; a later entry replaces it only when its value
   * is strictly larger.
   */
  function FirstMaxFrom(m: CountMap, i: nat, best: nat): (b: nat)
    requires best < i <= |m|
    requires forall j :: 0 <= j < i ==> m[j].value <= m[best].value
    requires forall j :: 0 <= j < best ==> m[j].value < m[best].value
    ensures best <= b && IsFirstMax(m, b)
    decreases |m| - i
  {
    if i == |m| then best
    else if m[best].value < m[i].value then FirstMaxFrom(m, i + 1, i)
    else FirstMaxFrom(m, i + 1, best)
  }

  /** `maxByOrNull { it.value }`: the first entry with the largest value, or null for an empty map. */
  function MaxByValue(m: CountMap): (r: Option<MapEntry>)
    ensures r.None? <==> |m| == 0
    ensures r.Some? ==> exists b: nat :: IsFirstMax(m, b) && m[b] == r.value
  {
    if |m| == 0 then None
    else
      var b := FirstMaxFrom(m, 1, 0);
      assert IsFirstMax(m, b);
      Some(m[b])
  }
}
