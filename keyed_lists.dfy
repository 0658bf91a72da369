/**
 * Lists keyed by a name: the insertion-ordered map ModelBean keeps its fields
 * in (LinkedHashMap put and get), and the first-wins selection the field walk
 * applies to a class hierarchy.
 */
module KeyedLists {
  import opened Wrappers

  /** The keys of a list, in order. */
  function Keys<T>(s: seq<T>, key: T -> string): (r: seq<string>)
    ensures |r| == |s|
    ensures forall i :: 0 <= i < |s| ==> r[i] == key(s[i])
  {
    if s == [] then [] else [key(s[0])] + Keys(s[1..], key)
  }

  /** The keys of a list with one entry appended. */
  lemma KeysSnoc<T>(s: seq<T>, x: T, key: T -> string)
    ensures Keys(s + [x], key) == Keys(s, key) + [key(x)]
  {
    var r := s + [x];
    assert forall i :: 0 <= i < |s| ==> Keys(r, key)[i] == key(s[i]) == Keys(s, key)[i];
  }

  /** No key occurs twice. */
  ghost predicate DistinctKeys<T>(s: seq<T>, key: T -> string) {
    forall i, j :: 0 <= i < j < |s| ==> key(s[i]) != key(s[j])
  }

  lemma DistinctKeysTail<T>(s: seq<T>, key: T -> string)
    requires |s| > 0 && DistinctKeys(s, key)
    ensures DistinctKeys(s[1..], key)
  {
    forall i, j | 0 <= i < j < |s[1..]| ensures key(s[1..][i]) != key(s[1..][j]) {
      assert s[1..][i] == s[i + 1] && s[1..][j] == s[j + 1];
    }
  }

  /** The index of the first entry with key k, or -1. */
  function KeyIndex<T>(s: seq<T>, k: string, key: T -> string): (r: int)
    ensures -1 <= r < |s|
    ensures r == -1 <==> k !in Keys(s, key)
    ensures r >= 0 ==> key(s[r]) == k && forall j :: 0 <= j < r ==> key(s[j]) != k
  {
    if s == [] then -1
    else if key(s[0]) == k then 0
    else
      assert Keys(s, key) == [key(s[0])] + Keys(s[1..], key);
      var r := KeyIndex(s[1..], k, key);
      if r < 0 then -1 else r + 1
  }

  /** LinkedHashMap.get: the entry with key k, if any. */
  function Lookup<T>(s: seq<T>, k: string, key: T -> string): (r: Option<T>)
    ensures r.Some? ==> key(r.value) == k && exists i :: 0 <= i < |s| && s[i] == r.value
    ensures r.None? <==> k !in Keys(s, key)
  {
    var i := KeyIndex(s, k, key);
    if i < 0 then None else Some(s[i])
  }

  /** LinkedHashMap.put: an entry with x's key is replaced in place, otherwise x
      is appended. */
  function Put<T>(s: seq<T>, x: T, key: T -> string): (r: seq<T>)
    ensures key(x) in Keys(s, key) ==> |r| == |s| && Keys(r, key) == Keys(s, key)
    ensures key(x) !in Keys(s, key) ==> r == s + [x] && Keys(r, key) == Keys(s, key) + [key(x)]
    ensures forall i :: 0 <= i < |s| ==> r[i] == x || r[i] == s[i]
  {
    var i := KeyIndex(s, key(x), key);
    if i < 0 then
      assert Keys(s + [x], key) == Keys(s, key) + [key(x)];
      s + [x]
    else
      var r := s[i := x];
      assert forall j :: 0 <= j < |s| ==> Keys(r, key)[j] == Keys(s, key)[j];
      r
  }

  /** Put keeps the keys distinct. */
  lemma PutDistinct<T>(s: seq<T>, x: T, key: T -> string)
    requires DistinctKeys(s, key)
    ensures DistinctKeys(Put(s, x, key), key)
  {
    var r := Put(s, x, key);
    if key(x) in Keys(s, key) {
      assert forall i :: 0 <= i < |r| ==> key(r[i]) == Keys(r, key)[i] == Keys(s, key)[i] == key(s[i]);
    } else {
      forall i, j | 0 <= i < j < |r| ensures key(r[i]) != key(r[j]) {
        if j == |s| {
          assert Keys(s, key)[i] == key(s[i]);
        } else {
          assert r[i] == s[i] && r[j] == s[j];
        }
      }
    }
  }

  /** Put keeps every key and adds x's. */
  lemma PutKeys<T>(s: seq<T>, x: T, key: T -> string)
    ensures key(x) in Keys(Put(s, x, key), key)
    ensures forall k :: k in Keys(s, key) ==> k in Keys(Put(s, x, key), key)
  {
    if key(x) !in Keys(s, key) {
      assert Keys(Put(s, x, key), key)[|s|] == key(x);
    }
  }

  /** Put behaves as a map: x's key now maps to x, every other key keeps its entry. */
  lemma PutLookup<T>(s: seq<T>, x: T, key: T -> string, k: string)
    requires DistinctKeys(s, key)
    ensures Lookup(Put(s, x, key), key(x), key) == Some(x)
    ensures k != key(x) ==> Lookup(Put(s, x, key), k, key) == Lookup(s, k, key)
  {
    var r := Put(s, x, key);
    var i := KeyIndex(s, key(x), key);
    PutDistinct(s, x, key);
    if i < 0 {
      LookupAppendNew(s, x, key);
      if k != key(x) { LookupAppendOther(s, x, key, k); }
    } else {
      assert r[i] == x;
      UniqueKeyIndex(r, i, key);
      if k != key(x) {
        var a := KeyIndex(s, k, key);
        var b := KeyIndex(r, k, key);
        assert forall j :: 0 <= j < |s| && j != i ==> r[j] == s[j];
        if a >= 0 { UniqueKeyIndex(r, a, key); }
      }
    }
  }

  /** With distinct keys, the entry at i is the one found for its key. */
  lemma UniqueKeyIndex<T>(s: seq<T>, i: int, key: T -> string)
    requires DistinctKeys(s, key) && 0 <= i < |s|
    ensures KeyIndex(s, key(s[i]), key) == i
  {
    assert Keys(s, key)[i] == key(s[i]);
  }

  /** The entries of s that are eligible and whose key no earlier selected entry
      has, in order: with a class's fields in hierarchy order, the declaration
      nearest the class wins. */
  function SelectFirst<T>(s: seq<T>, eligible: T -> bool, key: T -> string): (r: seq<T>)
    ensures forall i :: 0 <= i < |r| ==> eligible(r[i]) && r[i] in s
    ensures DistinctKeys(r, key)
    ensures forall j :: 0 <= j < |s| && eligible(s[j]) ==> key(s[j]) in Keys(r, key)
  {
    if s == [] then []
    else
      var prev := SelectFirst(s[..|s| - 1], eligible, key);
      SelectStep(s[..|s| - 1], s[|s| - 1], prev, eligible, key);
      assert s == s[..|s| - 1] + [s[|s| - 1]];
      SelectNext(prev, s[|s| - 1], eligible, key)
  }

  /** One step of SelectFirst: x is selected when it is eligible and its key
      is not selected yet. */
  function SelectNext<T>(prev: seq<T>, x: T, eligible: T -> bool, key: T -> string): seq<T> {
    if eligible(x) && key(x) !in Keys(prev, key) then prev + [x] else prev
  }

  /** A step keeps the selection's three properties, from init to init + [x]. */
  lemma SelectStep<T>(init: seq<T>, x: T, prev: seq<T>, eligible: T -> bool, key: T -> string)
    requires forall i :: 0 <= i < |prev| ==> eligible(prev[i]) && prev[i] in init
    requires DistinctKeys(prev, key)
    requires forall j :: 0 <= j < |init| && eligible(init[j]) ==> key(init[j]) in Keys(prev, key)
    ensures var r := SelectNext(prev, x, eligible, key);
      (forall i :: 0 <= i < |r| ==> eligible(r[i]) && r[i] in init + [x])
      && DistinctKeys(r, key)
      && (forall j :: 0 <= j < |init + [x]| && eligible((init + [x])[j]) ==> key((init + [x])[j]) in Keys(r, key))
  {
    var s := init + [x];
    if eligible(x) && key(x) !in Keys(prev, key) {
      var r := prev + [x];
      assert Keys(r, key) == Keys(prev, key) + [key(x)] by {
        assert forall i :: 0 <= i < |prev| ==> Keys(r, key)[i] == key(prev[i]) == Keys(prev, key)[i];
      }
      forall i, j | 0 <= i < j < |r| ensures key(r[i]) != key(r[j]) {
        if j == |prev| { assert Keys(prev, key)[i] == key(prev[i]); }
      }
      forall j | 0 <= j < |s| && eligible(s[j]) ensures key(s[j]) in Keys(r, key) {
        if j < |init| { assert s[j] == init[j]; }
      }
    } else {
      forall j | 0 <= j < |s| && eligible(s[j]) ensures key(s[j]) in Keys(prev, key) {
        if j < |init| { assert s[j] == init[j]; }
      }
    }
  }

  /** Selecting from s + [x] is one step after selecting from s. */
  lemma SelectFirstSnoc<T>(s: seq<T>, x: T, eligible: T -> bool, key: T -> string)
    ensures SelectFirst(s + [x], eligible, key) == SelectNext(SelectFirst(s, eligible, key), x, eligible, key)
  {
    assert (s + [x])[..|s + [x]| - 1] == s;
  }

  /** The first eligible entry with a given key is the one selected for it. */
  lemma {:induction false} SelectFirstWins<T>(s: seq<T>, eligible: T -> bool, key: T -> string, k: int)
    requires 0 <= k < |s| && eligible(s[k])
    requires forall j :: 0 <= j < k ==> !(eligible(s[j]) && key(s[j]) == key(s[k]))
    ensures Lookup(SelectFirst(s, eligible, key), key(s[k]), key) == Some(s[k])
    decreases |s|
  {
    var init := s[..|s| - 1];
    var prev := SelectFirst(init, eligible, key);
    if k == |s| - 1 {
      assert key(s[k]) !in Keys(prev, key);
      LookupAppendNew(prev, s[k], key);
    } else {
      assert init[k] == s[k];
      SelectFirstWins(init, eligible, key, k);
      var x := s[|s| - 1];
      if eligible(x) && key(x) !in Keys(prev, key) {
        assert key(x) != key(s[k]) by {
          assert Lookup(prev, key(s[k]), key).Some?;
        }
        LookupAppendOther(prev, x, key, key(s[k]));
      }
    }
  }

  lemma LookupAppendNew<T>(s: seq<T>, x: T, key: T -> string)
    requires key(x) !in Keys(s, key)
    ensures Lookup(s + [x], key(x), key) == Some(x)
  {
    var r := s + [x];
    var i := KeyIndex(r, key(x), key);
    assert Keys(r, key)[|s|] == key(x);
  }

  lemma LookupAppendOther<T>(s: seq<T>, x: T, key: T -> string, k: string)
    requires k != key(x)
    ensures Lookup(s + [x], k, key) == Lookup(s, k, key)
  {
    var r := s + [x];
    var a := KeyIndex(s, k, key);
    var b := KeyIndex(r, k, key);
    assert forall j :: 0 <= j < |s| ==> r[j] == s[j];
    if a >= 0 {
      assert Keys(r, key)[a] == k;
      assert b <= a;
      assert b == a;
    }
  }
}
