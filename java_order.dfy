/**
 * The orders the generator depends on: String.compareTo, the stable
 * Collections.sort the assembler applies to methods by name, and the insertion
 * into a TreeSet<String> the requires resolver uses.
 */
module JavaOrder {

  /** `a.compareTo(b) < 0`: the first differing character decides, and a proper
      prefix comes first. */
  predicate Less(a: string, b: string)
    decreases |a|
  {
    if |a| == 0 then |b| > 0
    else |b| > 0 && (a[0] < b[0] || (a[0] == b[0] && Less(a[1..], b[1..])))
  }

  predicate LessEq(a: string, b: string) {
    a == b || Less(a, b)
  }

  lemma {:induction false} LessIrreflexive(a: string)
    ensures !Less(a, a)
    decreases |a|
  {
    if |a| > 0 { LessIrreflexive(a[1..]); }
  }

  lemma {:induction false} LessTransitive(a: string, b: string, c: string)
    requires Less(a, b) && Less(b, c)
    ensures Less(a, c)
    decreases |a|
  {
    if |a| > 0 && a[0] == b[0] && b[0] == c[0] {
      LessTransitive(a[1..], b[1..], c[1..]);
    }
  }

  /** compareTo is a total order: of two different strings one comes first. */
  lemma {:induction false} LessTotal(a: string, b: string)
    ensures a == b || Less(a, b) || Less(b, a)
    decreases |a|
  {
    if |a| > 0 && |b| > 0 && a[0] == b[0] {
      LessTotal(a[1..], b[1..]);
      if a[1..] == b[1..] {
        assert a == [a[0]] + a[1..] && b == [b[0]] + b[1..];
      }
    }
  }

  lemma {:induction false} LessAsymmetric(a: string, b: string)
    ensures !(Less(a, b) && Less(b, a))
  {
    if Less(a, b) && Less(b, a) {
      LessTransitive(a, b, a);
      LessIrreflexive(a);
    }
  }

  lemma LessEqTransitive(a: string, b: string, c: string)
    requires LessEq(a, b) && LessEq(b, c)
    ensures LessEq(a, c)
  {
    if a != b && b != c { LessTransitive(a, b, c); }
  }

  // ---------------------------------------------------------------------------
  // Collections.sort with a comparator on a string key: a stable sort
  // ---------------------------------------------------------------------------

  ghost predicate SortedBy<T>(s: seq<T>, key: T -> string) {
    forall i, j :: 0 <= i < j < |s| ==> LessEq(key(s[i]), key(s[j]))
  }

  /** Inserts x in front of the first element whose key is not smaller. */
  function InsertBy<T>(x: T, s: seq<T>, key: T -> string): seq<T> {
    if s == [] then [x]
    else if LessEq(key(x), key(s[0])) then [x] + s
    else [s[0]] + InsertBy(x, s[1..], key)
  }

  lemma SortedByTail<T>(s: seq<T>, key: T -> string)
    requires |s| > 0 && SortedBy(s, key)
    ensures SortedBy(s[1..], key)
  {
    forall i, j | 0 <= i < j < |s[1..]| ensures LessEq(key(s[1..][i]), key(s[1..][j])) {
      assert s[1..][i] == s[i + 1] && s[1..][j] == s[j + 1];
    }
  }

  /** Inserting adds x and keeps every element of s. */
  lemma {:induction false} InsertByElements<T>(x: T, s: seq<T>, key: T -> string)
    ensures multiset(InsertBy(x, s, key)) == multiset(s) + multiset{x}
    ensures forall y :: y in InsertBy(x, s, key) ==> y == x || y in s
  {
    if s != [] && !LessEq(key(x), key(s[0])) {
      InsertByElements(x, s[1..], key);
      assert s == [s[0]] + s[1..];
    }
  }

  lemma {:induction false} InsertBySorted<T>(x: T, s: seq<T>, key: T -> string)
    requires SortedBy(s, key)
    ensures SortedBy(InsertBy(x, s, key), key)
  {
    var r := InsertBy(x, s, key);
    if s == [] {
    } else if LessEq(key(x), key(s[0])) {
      assert r == [x] + s;
      forall i, j | 0 <= i < j < |r| ensures LessEq(key(r[i]), key(r[j])) {
        if i == 0 {
          if j > 1 { LessEqTransitive(key(x), key(s[0]), key(s[j - 1])); }
        } else {
          assert r[i] == s[i - 1] && r[j] == s[j - 1];
        }
      }
    } else {
      var t := InsertBy(x, s[1..], key);
      SortedByTail(s, key);
      InsertBySorted(x, s[1..], key);
      InsertByElements(x, s[1..], key);
      assert r == [s[0]] + t;
      LessTotal(key(x), key(s[0]));
      forall j | 0 < j < |r| ensures LessEq(key(s[0]), key(r[j])) {
        assert r[j] == t[j - 1];
        assert t[j - 1] in t;
        if t[j - 1] != x {
          var k :| 0 <= k < |s[1..]| && s[1..][k] == t[j - 1];
          assert s[1..][k] == s[k + 1];
        }
      }
      forall i, j | 0 <= i < j < |r| ensures LessEq(key(r[i]), key(r[j])) {
        if i > 0 { assert r[i] == t[i - 1] && r[j] == t[j - 1]; }
      }
    }
  }

  /** Collections.sort: a stable sort by key (insertion sort as the reference). */
  function SortBy<T>(s: seq<T>, key: T -> string): (r: seq<T>)
    ensures SortedBy(r, key)
    ensures multiset(r) == multiset(s)
  {
    if s == [] then []
    else
      var t := SortBy(s[1..], key);
      SortByStep(s, t, key);
      InsertBy(s[0], t, key)
  }

  /** Inserting the head of s into a sorted permutation of its tail gives a
      sorted permutation of s. */
  lemma SortByStep<T>(s: seq<T>, t: seq<T>, key: T -> string)
    requires |s| > 0 && SortedBy(t, key) && multiset(t) == multiset(s[1..])
    ensures SortedBy(InsertBy(s[0], t, key), key)
    ensures multiset(InsertBy(s[0], t, key)) == multiset(s)
  {
    InsertBySorted(s[0], t, key);
    InsertByElements(s[0], t, key);
    assert s == [s[0]] + s[1..];
  }

  /** The elements of s whose key is k, in their order in s. */
  function WithKey<T>(s: seq<T>, key: T -> string, k: string): seq<T> {
    if s == [] then []
    else if key(s[0]) == k then [s[0]] + WithKey(s[1..], key, k)
    else WithKey(s[1..], key, k)
  }

  lemma {:induction false} InsertByWithKey<T>(x: T, s: seq<T>, key: T -> string, k: string)
    requires SortedBy(s, key)
    ensures WithKey(InsertBy(x, s, key), key, k)
         == (if key(x) == k then [x] + WithKey(s, key, k) else WithKey(s, key, k))
  {
    if s == [] {
    } else if LessEq(key(x), key(s[0])) {
      assert ([x] + s)[1..] == s;
    } else {
      SortedByTail(s, key);
      InsertByWithKey(x, s[1..], key, k);
      assert ([s[0]] + InsertBy(x, s[1..], key))[1..] == InsertBy(x, s[1..], key);
      if key(x) == k {
        // s[0]'s key is smaller than x's, so s[0] is not among the elements keyed k
        assert key(s[0]) != k;
      }
    }
  }

  /** The sort is stable: elements with equal keys keep their relative order. */
  lemma {:induction false} SortByStable<T>(s: seq<T>, key: T -> string, k: string)
    ensures WithKey(SortBy(s, key), key, k) == WithKey(s, key, k)
  {
    if s != [] {
      SortByStable(s[1..], key, k);
      InsertByWithKey(s[0], SortBy(s[1..], key), key, k);
    }
  }

  // ---------------------------------------------------------------------------
  // TreeSet<String>: a strictly ascending sequence
  // ---------------------------------------------------------------------------

  ghost predicate StrictlySorted(s: seq<string>) {
    forall i, j :: 0 <= i < j < |s| ==> Less(s[i], s[j])
  }

  /** TreeSet.add: x joins the set at its place in the order, unless present. */
  function SortedInsert(s: seq<string>, x: string): (r: seq<string>)
    requires StrictlySorted(s)
    ensures StrictlySorted(r)
    ensures forall y :: y in r <==> y in s || y == x
  {
    if s == [] then [x]
    else if x == s[0] then s
    else if Less(x, s[0]) then
      var r := [x] + s;
      assert StrictlySorted(r) by {
        forall i, j | 0 <= i < j < |r| ensures Less(r[i], r[j]) {
          if i == 0 && j > 1 { LessTransitive(x, s[0], s[j - 1]); }
          if i > 0 { assert r[i] == s[i - 1] && r[j] == s[j - 1]; }
        }
      }
      r
    else
      assert StrictlySorted(s[1..]) by {
        forall i, j | 0 <= i < j < |s[1..]| ensures Less(s[1..][i], s[1..][j]) {
          assert s[1..][i] == s[i + 1] && s[1..][j] == s[j + 1];
        }
      }
      var t := SortedInsert(s[1..], x);
      var r := [s[0]] + t;
      LessTotal(x, s[0]);
      assert forall y :: y in s <==> y == s[0] || y in s[1..] by {
        assert s == [s[0]] + s[1..];
      }
      assert StrictlySorted(r) by {
        forall i, j | 0 <= i < j < |r| ensures Less(r[i], r[j]) {
          assert r[j] == t[j - 1];
          if i == 0 {
            assert t[j - 1] in t;
            if t[j - 1] != x {
              var m :| 0 <= m < |s[1..]| && s[1..][m] == t[j - 1];
              assert s[1..][m] == s[m + 1];
            }
          } else {
            assert r[i] == t[i - 1];
          }
        }
      }
      r
  }

  lemma StrictlySortedTail(s: seq<string>)
    requires |s| > 0 && StrictlySorted(s)
    ensures StrictlySorted(s[1..])
    ensures forall x :: x in s[1..] <==> x in s && x != s[0]
  {
    forall i, j | 0 <= i < j < |s[1..]| ensures Less(s[1..][i], s[1..][j]) {
      assert s[1..][i] == s[i + 1] && s[1..][j] == s[j + 1];
    }
    forall x | x in s[1..] ensures x != s[0] {
      var i :| 0 <= i < |s[1..]| && s[1..][i] == x;
      assert s[i + 1] == x;
      LessIrreflexive(x);
    }
    assert s == [s[0]] + s[1..];
  }

  /** Two strictly sorted lists with the same elements are the same list: the
      order a TreeSet is iterated in is fixed by its contents. */
  lemma {:induction false} StrictlySortedUnique(a: seq<string>, b: seq<string>)
    requires StrictlySorted(a) && StrictlySorted(b)
    requires forall x :: x in a <==> x in b
    ensures a == b
    decreases |a|
  {
    if a != [] { assert a[0] in b; }
    if b != [] { assert b[0] in a; }
    if a != [] && b != [] {
      if a[0] != b[0] {
        assert a[0] in a && b[0] in b;
        var i :| 0 <= i < |b| && b[i] == a[0];
        var j :| 0 <= j < |a| && a[j] == b[0];
        LessAsymmetric(a[0], b[0]);
      }
      StrictlySortedTail(a);
      StrictlySortedTail(b);
      StrictlySortedUnique(a[1..], b[1..]);
      assert a == [a[0]] + a[1..] && b == [b[0]] + b[1..];
    }
  }

  /** The ascending list of a set's elements: what iterating a TreeSet yields. */
  ghost function TreeSetOrder(s: set<string>): (r: seq<string>)
    ensures StrictlySorted(r)
    ensures forall x :: x in r <==> x in s
    decreases |s|
  {
    if s == {} then []
    else
      var x :| x in s;
      SortedInsert(TreeSetOrder(s - {x}), x)
  }
}
