/** Sorting a finite set under a strict total order, as Python's `sorted` does. */
module Ordering {
  ghost predicate StrictTotalOrder<T(!new)>(less: (T, T) -> bool)
  {
    && (forall x :: !less(x, x))
    && (forall x, y, z :: less(x, y) && less(y, z) ==> less(x, z))
    && (forall x, y :: x != y ==> less(x, y) || less(y, x))
  }

  predicate Ascending<T>(less: (T, T) -> bool, s: seq<T>)
  {
    forall i, j :: 0 <= i < j < |s| ==> less(s[i], s[j])
  }

  ghost predicate IsLeast<T>(less: (T, T) -> bool, s: set<T>, m: T)
  {
    m in s && forall x :: x in s && x != m ==> less(m, x)
  }

  lemma {:induction false} LeastExists<T(!new)>(less: (T, T) -> bool, s: set<T>)
    requires StrictTotalOrder(less) && s != {}
    ensures exists m :: IsLeast(less, s, m)
  {
    var a :| a in s;
    var rest := s - {a};
    if rest == {} {
      assert s == {a};
      assert IsLeast(less, s, a);
    } else {
      LeastExists(less, rest);
      var m :| IsLeast(less, rest, m);
      var best := if less(a, m) then a else m;
      forall x | x in s && x != best ensures less(best, x) {
        assert x == a || x in rest;
      }
      assert IsLeast(less, s, best);
    }
  }

  function Least<T(!new,==)>(less: (T, T) -> bool, s: set<T>): (m: T)
    requires StrictTotalOrder(less) && s != {}
    ensures IsLeast(less, s, m)
  {
    LeastExists(less, s);
    assert forall a, b :: IsLeast(less, s, a) && IsLeast(less, s, b) ==> a == b;
    assert exists m :: m in s && forall x :: x in s && x != m ==> less(m, x) by {
      var m :| IsLeast(less, s, m);
    }
    var m :| m in s && forall x :: x in s && x != m ==> less(m, x);
    m
  }

  /** The elements of `s`, each once, in ascending order. */
  function Sorted<T(!new,==)>(less: (T, T) -> bool, s: set<T>): (r: seq<T>)
    requires StrictTotalOrder(less)
    ensures Ascending(less, r)
    ensures forall x :: x in r <==> x in s
    ensures |r| == |s|
  {
    if s == {} then [] else
    var m := Least(less, s);
    var tail := Sorted(less, s - {m});
    assert forall k :: 0 <= k < |tail| ==> tail[k] in tail && tail[k] in s - {m};
    [m] + tail
  }

  lemma HasMember<T>(s: seq<T>)
    ensures s != [] <==> exists x :: x in s
  {
    if s != [] { assert s[0] in s; }
  }

  lemma {:induction false} AscendingUnique<T(!new)>(less: (T, T) -> bool, a: seq<T>, b: seq<T>)
    requires StrictTotalOrder(less)
    requires Ascending(less, a) && Ascending(less, b)
    requires forall x :: x in a <==> x in b
    ensures a == b
  {
    HasMember(a);
    HasMember(b);
    if a != [] {
      assert a[0] in b;
      assert b[0] in a;
      assert a[0] == b[0] by {
        assert forall k :: 0 < k < |a| ==> less(a[0], a[k]);
        assert forall k :: 0 < k < |b| ==> less(b[0], b[k]);
        var i :| 0 <= i < |b| && b[i] == a[0];
        var j :| 0 <= j < |a| && a[j] == b[0];
      }
      forall x ensures x in a[1..] <==> x in b[1..] {
        if x in a[1..] { TailMember(less, a, b, x); }
        if x in b[1..] { TailMember(less, b, a, x); }
      }
      AscendingUnique(less, a[1..], b[1..]);
    }
  }

  lemma TailMember<T(!new)>(less: (T, T) -> bool, a: seq<T>, b: seq<T>, x: T)
    requires StrictTotalOrder(less) && Ascending(less, a)
    requires a != [] && b != [] && a[0] == b[0] && x in a[1..]
    requires x in a ==> x in b
    ensures x in b[1..]
  {
    var i :| 0 <= i < |a[1..]| && a[1..][i] == x;
    assert a[i + 1] == x && less(a[0], x);
    var j :| 0 <= j < |b| && b[j] == x;
    assert j != 0;
    assert b[1..][j - 1] == x;
  }

  /** Lexicographic order on text by code point, as Python compares `str`. */
  predicate TextLess(a: string, b: string)
  {
    if b == [] then false
    else if a == [] then true
    else a[0] < b[0] || (a[0] == b[0] && TextLess(a[1..], b[1..]))
  }

  lemma TextLessIrreflexive(a: string)
    ensures !TextLess(a, a)
  {}

  lemma TextLessTransitive(a: string, b: string, c: string)
    requires TextLess(a, b) && TextLess(b, c)
    ensures TextLess(a, c)
  {}

  lemma {:induction false} TextLessConnected(a: string, b: string)
    requires a != b
    ensures TextLess(a, b) || TextLess(b, a)
  {
    if a != [] && b != [] && a[0] == b[0] {
      assert a == [a[0]] + a[1..] && b == [b[0]] + b[1..];
      TextLessConnected(a[1..], b[1..]);
    }
  }

  lemma TextOrder()
    ensures StrictTotalOrder(TextLess)
  {
    forall a: string ensures !TextLess(a, a) { TextLessIrreflexive(a); }
    forall a: string, b: string, c: string | TextLess(a, b) && TextLess(b, c) ensures TextLess(a, c) {
      TextLessTransitive(a, b, c);
    }
    forall a: string, b: string | a != b ensures TextLess(a, b) || TextLess(b, a) { TextLessConnected(a, b); }
  }

  /** `sorted(keys)` for a set of text keys. */
  function SortedKeys(keys: set<string>): (r: seq<string>)
    ensures Ascending(TextLess, r)
    ensures forall k :: k in r <==> k in keys
    ensures |r| == |keys|
  {
    TextOrder();
    Sorted(TextLess, keys)
  }

  // ---------- sorting a sequence ----------

  /** An order whose ties are an equivalence, as comparing by a key gives. */
  ghost predicate StrictWeakOrder<T(!new)>(less: (T, T) -> bool)
  {
    && (forall x :: !less(x, x))
    && (forall x, y, z :: less(x, y) && less(y, z) ==> less(x, z))
    && (forall x, y, z :: less(x, z) ==> less(x, y) || less(y, z))
  }

  /** `x` put after every element that is not greater. */
  function Insert<T>(less: (T, T) -> bool, s: seq<T>, x: T): (r: seq<T>)
    ensures multiset(r) == multiset(s) + multiset{x}
  {
    if s == [] then [x]
    else if less(x, s[0]) then [x] + s
    else
      assert s == [s[0]] + s[1..];
      [s[0]] + Insert(less, s[1..], x)
  }

  /** Python's `sorted`: stable, so elements that tie keep their order. */
  function SortWith<T>(less: (T, T) -> bool, s: seq<T>): (r: seq<T>)
    ensures multiset(r) == multiset(s)
  {
    if s == [] then [] else
    assert s == s[..|s| - 1] + [s[|s| - 1]];
    Insert(less, SortWith(less, s[..|s| - 1]), s[|s| - 1])
  }

  predicate InOrder<T>(less: (T, T) -> bool, s: seq<T>)
  {
    forall i, j :: 0 <= i < j < |s| ==> !less(s[j], s[i])
  }

  lemma {:induction false} InsertInOrder<T(!new)>(less: (T, T) -> bool, s: seq<T>, x: T)
    requires StrictWeakOrder(less) && InOrder(less, s)
    ensures InOrder(less, Insert(less, s, x))
  {
    if s != [] && !less(x, s[0]) {
      InsertInOrder(less, s[1..], x);
      var tail := Insert(less, s[1..], x);
      forall j | 0 <= j < |tail| ensures !less(tail[j], s[0]) {
        assert tail[j] in multiset(tail);
        assert tail[j] == x || tail[j] in s[1..];
      }
    }
  }

  lemma {:induction false} SortsInOrder<T(!new)>(less: (T, T) -> bool, s: seq<T>)
    requires StrictWeakOrder(less)
    ensures InOrder(less, SortWith(less, s))
  {
    if s != [] {
      SortsInOrder(less, s[..|s| - 1]);
      InsertInOrder(less, SortWith(less, s[..|s| - 1]), s[|s| - 1]);
    }
  }

  function ByKey<T>(key: T -> string): (T, T) -> bool
  {
    (x: T, y: T) => TextLess(key(x), key(y))
  }

  /** `sorted(s, key=key)` for text keys. */
  function SortBy<T>(key: T -> string, s: seq<T>): (r: seq<T>)
    ensures multiset(r) == multiset(s)
  {
    SortWith(ByKey(key), s)
  }

  lemma SortedByKey<T(!new)>(key: T -> string, s: seq<T>)
    ensures InOrder(ByKey(key), SortBy(key, s))
  {
    TextOrder();
    assert forall x, y: string :: x != y ==> TextLess(x, y) || TextLess(y, x);
    SortsInOrder(ByKey(key), s);
  }

  lemma SortMembers<T>(key: T -> string, s: seq<T>, x: T)
    ensures x in SortBy(key, s) <==> x in s
    ensures |SortBy(key, s)| == |s|
  {
    assert x in SortBy(key, s) <==> x in multiset(SortBy(key, s));
    assert |multiset(SortBy(key, s))| == |SortBy(key, s)|;
  }

  predicate NoRepeats<T(==)>(s: seq<T>) { forall i, j :: 0 <= i < j < |s| ==> s[i] != s[j] }

  lemma {:induction false} RepeatsByCount<T>(s: seq<T>)
    ensures NoRepeats(s) <==> forall x :: multiset(s)[x] <= 1
  {
    if s != [] {
      var n := |s| - 1;
      var init, last := s[..n], s[n];
      RepeatsByCount(init);
      assert s == init + [last];
      assert forall x :: multiset(s)[x] == multiset(init)[x] + if x == last then 1 else 0;
      assert forall i :: 0 <= i < n ==> init[i] == s[i];
      if NoRepeats(s) {
        assert last !in init;
      }
      if forall x :: multiset(s)[x] <= 1 {
        assert multiset(s)[last] <= 1;
        assert last !in init by { assert last in init ==> multiset(init)[last] >= 1; }
        forall x ensures multiset(init)[x] <= 1 { assert multiset(s)[x] <= 1; }
      }
    }
  }

  /** Whether elements repeat does not depend on their order. */
  lemma RepeatsPermuted<T>(a: seq<T>, b: seq<T>)
    requires multiset(a) == multiset(b)
    ensures NoRepeats(a) <==> NoRepeats(b)
  {
    RepeatsByCount(a);
    RepeatsByCount(b);
  }
}
