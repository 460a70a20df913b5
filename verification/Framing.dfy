/** Joining fields with a separator character, and when the fields can be told apart again. */
module Framing {

  /** `sep.join(parts)`. */
  function Join(sep: char, parts: seq<string>): string
  {
    if parts == [] then ""
    else if |parts| == 1 then parts[0]
    else parts[0] + [sep] + Join(sep, parts[1..])
  }

  predicate FreeOf(sep: char, parts: seq<string>)
  {
    forall i :: 0 <= i < |parts| ==> sep !in parts[i]
  }

  lemma HeadsAgree(sep: char, a: string, x: string, b: string, y: string)
    requires sep !in a && sep !in b
    requires a + [sep] + x == b + [sep] + y
    ensures a == b && x == y
  {
    var s := a + [sep] + x;
    assert s[|a|] == sep && s[|b|] == sep;
    assert forall k :: 0 <= k < |a| ==> s[k] == a[k];
    assert forall k :: 0 <= k < |b| ==> s[k] == b[k];
    assert a == s[..|a|] && b == s[..|b|];
    assert x == s[|a| + 1..] && y == s[|b| + 1..];
  }

  lemma {:induction false} JoinInjective(sep: char, a: seq<string>, b: seq<string>)
    requires |a| == |b| && FreeOf(sep, a) && FreeOf(sep, b)
    requires Join(sep, a) == Join(sep, b)
    ensures a == b
  {
    if |a| > 1 {
      HeadsAgree(sep, a[0], Join(sep, a[1..]), b[0], Join(sep, b[1..]));
      JoinInjective(sep, a[1..], b[1..]);
      assert a == [a[0]] + a[1..] && b == [b[0]] + b[1..];
    }
  }

  function Count(sep: char, s: string): nat
  {
    if s == "" then 0 else (if s[0] == sep then 1 else 0) + Count(sep, s[1..])
  }

  function TotalCount(sep: char, parts: seq<string>): nat
  {
    if parts == [] then 0 else Count(sep, parts[0]) + TotalCount(sep, parts[1..])
  }

  lemma {:induction false} CountAppend(sep: char, a: string, b: string)
    ensures Count(sep, a + b) == Count(sep, a) + Count(sep, b)
  {
    if a == "" {
      assert a + b == b;
    } else {
      assert (a + b)[1..] == a[1..] + b;
      CountAppend(sep, a[1..], b);
    }
  }

  lemma {:induction false} CountZero(sep: char, s: string)
    ensures Count(sep, s) == 0 <==> sep !in s
  {
    if s != "" {
      CountZero(sep, s[1..]);
      assert s == [s[0]] + s[1..];
    }
  }

  lemma {:induction false} CountJoin(sep: char, parts: seq<string>)
    requires parts != []
    ensures Count(sep, Join(sep, parts)) == |parts| - 1 + TotalCount(sep, parts)
  {
    if |parts| > 1 {
      CountJoin(sep, parts[1..]);
      CountAppend(sep, parts[0] + [sep], Join(sep, parts[1..]));
      CountAppend(sep, parts[0], [sep]);
      assert [sep][1..] == "" && Count(sep, [sep]) == 1;
    } else {
      assert parts[1..] == [];
    }
  }

  lemma {:induction false} TotalCountZero(sep: char, parts: seq<string>)
    ensures TotalCount(sep, parts) == 0 <==> FreeOf(sep, parts)
  {
    if parts != [] {
      CountZero(sep, parts[0]);
      TotalCountZero(sep, parts[1..]);
      assert parts == [parts[0]] + parts[1..];
      assert FreeOf(sep, parts) <==> sep !in parts[0] && FreeOf(sep, parts[1..]);
    }
  }

  lemma {:induction false} JoinAppend(sep: char, a: seq<string>, b: seq<string>)
    requires a != [] && b != []
    ensures Join(sep, a + b) == Join(sep, a) + [sep] + Join(sep, b)
  {
    if |a| == 1 {
      assert (a + b)[1..] == b;
    } else {
      assert (a + b)[0] == a[0] && (a + b)[1..] == a[1..] + b;
      JoinAppend(sep, a[1..], b);
    }
  }

  lemma JoinMiddle(sep: char, a: seq<string>, m: seq<string>, n: seq<string>, b: seq<string>)
    requires m != [] && n != [] && Join(sep, m) == Join(sep, n)
    ensures Join(sep, a + m + b) == Join(sep, a + n + b)
  {
    if a != [] { JoinAppend(sep, a, m); JoinAppend(sep, a, n); }
    if b != [] { JoinAppend(sep, a + m, b); JoinAppend(sep, a + n, b); }
    assert a == [] ==> a + m == m && a + n == n;
    assert b == [] ==> a + m + b == a + m && a + n + b == a + n;
  }

  ghost predicate Recoverable(sep: char, parts: seq<string>)
  {
    forall other: seq<string> :: |other| == |parts| && Join(sep, other) == Join(sep, parts) ==> other == parts
  }

  lemma JoinPair(sep: char, x: string, y: string)
    ensures Join(sep, [x, y]) == x + [sep] + y
  {
    assert [x, y][1..] == [y];
  }

  /** A separator inside the first of two neighbours can also be read as the boundary between them. */
  lemma BoundaryMoves(sep: char, a: seq<string>, x: string, y: string, z: string, b: seq<string>)
    ensures Join(sep, a + [x + [sep] + y, z] + b) == Join(sep, a + [x, y + [sep] + z] + b)
    ensures [x + [sep] + y, z] != [x, y + [sep] + z]
  {
    var m, n := [x + [sep] + y, z], [x, y + [sep] + z];
    JoinPair(sep, m[0], m[1]);
    JoinPair(sep, n[0], n[1]);
    assert x + [sep] + y + [sep] + z == x + [sep] + (y + [sep] + z);
    JoinMiddle(sep, a, m, n, b);
    assert |m[0]| != |n[0]|;
  }

  lemma AmbiguousBefore(sep: char, parts: seq<string>, i: nat)
    requires i + 1 < |parts| && sep in parts[i]
    ensures !Recoverable(sep, parts)
  {
    hide Join;
    var k :| 0 <= k < |parts[i]| && parts[i][k] == sep;
    var x, y, z := parts[i][..k], parts[i][k + 1..], parts[i + 1];
    assert parts[i] == x + [sep] + y;
    BoundaryMoves(sep, parts[..i], x, y, z, parts[i + 2..]);
    assert parts == parts[..i] + [x + [sep] + y, z] + parts[i + 2..];
    var other := parts[..i] + [x, y + [sep] + z] + parts[i + 2..];
    assert other[i] != parts[i];
  }

  lemma AmbiguousLast(sep: char, parts: seq<string>, i: nat)
    requires 0 < i == |parts| - 1 && sep in parts[i]
    ensures !Recoverable(sep, parts)
  {
    hide Join;
    var k :| 0 <= k < |parts[i]| && parts[i][k] == sep;
    var w, x, y := parts[i - 1], parts[i][..k], parts[i][k + 1..];
    assert parts[i] == x + [sep] + y;
    BoundaryMoves(sep, parts[..i - 1], w, x, y, []);
    assert parts == parts[..i - 1] + [w, x + [sep] + y] + [];
    var other := parts[..i - 1] + [w + [sep] + x, y] + [];
    assert other[i] != parts[i];
  }

  /** Fields can be recovered from the joined text exactly when none of them holds the separator. */
  lemma RecoverableIff(sep: char, parts: seq<string>)
    requires |parts| > 1
    ensures Recoverable(sep, parts) <==> FreeOf(sep, parts)
  {
    if FreeOf(sep, parts) {
      forall other: seq<string> | |other| == |parts| && Join(sep, other) == Join(sep, parts)
        ensures other == parts
      {
        CountJoin(sep, other);
        CountJoin(sep, parts);
        TotalCountZero(sep, parts);
        TotalCountZero(sep, other);
        JoinInjective(sep, other, parts);
      }
    } else {
      var i :| 0 <= i < |parts| && sep in parts[i];
      if i + 1 < |parts| { AmbiguousBefore(sep, parts, i); } else { AmbiguousLast(sep, parts, i); }
    }
  }
}
