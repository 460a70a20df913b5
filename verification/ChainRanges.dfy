/** Checking a chain range by range: how bounded verifications add up to the whole. */
module ChainRanges {
  import opened Prelude
  import opened Runtime
  import opened AuditPayload
  import opened AuditChain

  /** The documented precondition of verification: rows are ordered by sequence. */
  predicate Ordered(rows: seq<Row>)
  {
    forall i, j :: 0 <= i < j < |rows| ==> rows[i].event.sequence <= rows[j].event.sequence
  }

  predicate Increasing(rows: seq<Row>)
  {
    forall i, j :: 0 <= i < j < |rows| ==> rows[i].event.sequence < rows[j].event.sequence
  }

  /** How many leading rows have a sequence of at most `k`. */
  function Cut(rows: seq<Row>, k: int): (n: nat)
    ensures n <= |rows|
    ensures forall i :: 0 <= i < n ==> rows[i].event.sequence <= k
    ensures n < |rows| ==> rows[n].event.sequence > k
  {
    if rows == [] || rows[0].event.sequence > k then 0 else 1 + Cut(rows[1..], k)
  }

  function LowIndex(rows: seq<Row>, low: Option<int>): (n: nat)
    ensures n <= |rows|
  {
    match low case None => 0 case Some(l) => Cut(rows, l - 1)
  }

  function HighIndex(rows: seq<Row>, high: Option<int>): (n: nat)
    ensures n <= |rows|
  {
    match high case None => |rows| case Some(h) => Cut(rows, h)
  }

  lemma {:induction false} CutMonotone(rows: seq<Row>, h: int, k: int)
    requires h <= k
    ensures Cut(rows, h) <= Cut(rows, k)
  {
    if rows != [] && rows[0].event.sequence <= h { CutMonotone(rows[1..], h, k); }
  }

  function Slice(rows: seq<Row>, i: nat, j: nat): seq<Row>
    requires j <= |rows|
  {
    if i <= j then rows[i..j] else []
  }

  /** On ordered rows a range is a contiguous slice. */
  lemma {:induction false} BetweenIsSlice(rows: seq<Row>, low: Option<int>, high: Option<int>)
    requires Ordered(rows)
    ensures Between(rows, low, high) == Slice(rows, LowIndex(rows, low), HighIndex(rows, high))
  {
    if rows != [] {
      if !Fits(rows[0], None, high) {
        NoneFit(rows, low, high);
        assert HighIndex(rows, high) == 0;
      } else {
        BetweenIsSlice(rows[1..], low, high);
        SliceStep(rows, low, high);
      }
    }
  }

  lemma TailSlice(rows: seq<Row>, i: nat, j: nat)
    requires rows != [] && i <= j < |rows|
    ensures rows[i + 1..j + 1] == rows[1..][i..j]
  {
    var a, b := rows[i + 1..j + 1], rows[1..][i..j];
    forall k | 0 <= k < j - i ensures a[k] == b[k] {
      assert a[k] == rows[i + 1 + k] && b[k] == rows[1..][i + k];
    }
  }

  lemma SliceStep(rows: seq<Row>, low: Option<int>, high: Option<int>)
    requires Ordered(rows) && rows != [] && Fits(rows[0], None, high)
    ensures Slice(rows, LowIndex(rows, low), HighIndex(rows, high))
         == (if Fits(rows[0], low, high) then [rows[0]] else [])
            + Slice(rows[1..], LowIndex(rows[1..], low), HighIndex(rows[1..], high))
  {
    var tail := rows[1..];
    var i, j := LowIndex(tail, low), HighIndex(tail, high);
    IndexStep(rows, low, high);
    hide LowIndex, HighIndex;
    if Fits(rows[0], low, high) {
      assert rows[0..j + 1] == [rows[0]] + tail[0..j];
    } else if i <= j {
      TailSlice(rows, i, j);
    }
  }

  lemma IndexStep(rows: seq<Row>, low: Option<int>, high: Option<int>)
    requires Ordered(rows) && rows != [] && Fits(rows[0], None, high)
    ensures HighIndex(rows, high) == HighIndex(rows[1..], high) + 1
    ensures if Fits(rows[0], low, high) then LowIndex(rows, low) == 0 && LowIndex(rows[1..], low) == 0
            else LowIndex(rows, low) == LowIndex(rows[1..], low) + 1
  {
    if |rows| > 1 { assert rows[0].event.sequence <= rows[1].event.sequence; }
  }

  lemma {:induction false} NoneFit(rows: seq<Row>, low: Option<int>, high: Option<int>)
    requires Ordered(rows) && rows != [] && !Fits(rows[0], None, high)
    ensures Between(rows, low, high) == []
  {
    if |rows| > 1 {
      assert rows[0].event.sequence <= rows[1].event.sequence;
      NoneFit(rows[1..], low, high);
    }
  }

  lemma {:induction false} LatestIsLast(rows: seq<Row>)
    requires Increasing(rows) && rows != []
    ensures Latest(rows) == rows[|rows| - 1]
  {
    if |rows| > 1 { LatestIsLast(rows[..|rows| - 1]); }
  }

  /** A sound chain has strictly increasing sequences. */
  lemma {:induction false} SoundIncreasing(rt: Runtime, rows: seq<Row>, bounded: bool)
    requires ChainSound(rt, rows, bounded)
    ensures Increasing(rows)
  {
    hide EventHash;
    if rows != [] {
      var m := |rows| - 1;
      TailDropUndetected(rt, rows, bounded, m);
      SoundIncreasing(rt, rows[..m], bounded);
      forall i | 0 <= i < m ensures rows[i].event.sequence < rows[m].event.sequence {
        assert RowSound(rt, rows, m, bounded);
        assert rows[..m][i] == rows[i] && rows[..m][m - 1] == rows[m - 1];
      }
    }
  }

  /** Cutting rows off the end leaves a sound chain: a dropped tail is the one change a chain cannot show. */
  lemma TailDropUndetected(rt: Runtime, rows: seq<Row>, bounded: bool, n: nat)
    requires ChainSound(rt, rows, bounded) && n <= |rows|
    ensures ChainSound(rt, rows[..n], bounded)
  {
    hide EventHash;
    forall i | 0 <= i < n ensures RowSound(rt, rows[..n], i, bounded) {
      assert RowSound(rt, rows, i, bounded);
    }
  }

  lemma SliceSound(rt: Runtime, rows: seq<Row>, bounded: bool, lo: nat, hi: nat)
    requires ChainSound(rt, rows, bounded) && lo <= hi <= |rows|
    ensures ChainSound(rt, rows[lo..hi], true)
  {
    hide EventHash;
    forall i | 0 <= i < hi - lo ensures RowSound(rt, rows[lo..hi], i, true) {
      assert RowSound(rt, rows, lo + i, bounded);
      if i > 0 { assert rows[lo..hi][i - 1] == rows[lo + i - 1]; }
    }
  }

  lemma ContextIsLast(rows: seq<Row>, from: int)
    requires Increasing(rows)
    ensures var i := Cut(rows, from - 1);
            Context(rows, from) == if i > 0 then [rows[i - 1]] else []
  {
    hide Latest, Between;
    var i := Cut(rows, from - 1);
    BetweenIsSlice(rows, None, Some(from - 1));
    assert Between(rows, None, Some(from - 1)) == rows[..i];
    if i > 0 { LatestIsLast(rows[..i]); }
  }

  /** What a bounded check selects from increasing rows: one context row, then the range. */
  lemma SelectedIsSlice(rows: seq<Row>, from: Option<int>, to: Option<int>)
    requires Increasing(rows) && ValidRange(from, to)
    ensures var i, j := LowIndex(rows, from), HighIndex(rows, to);
            i <= j && Selected(rows, from, to) == rows[if i > 0 then i - 1 else 0..j]
  {
    hide Latest, Between, Context, Cut;
    var i, j := LowIndex(rows, from), HighIndex(rows, to);
    BetweenIsSlice(rows, from, to);
    if from.Some? {
      if to.Some? { CutMonotone(rows, from.value - 1, to.value); }
      ContextIsLast(rows, from.value);
      if i > 0 { assert [rows[i - 1]] + rows[i..j] == rows[i - 1..j]; }
    }
  }

  /** A chain that verifies as a whole verifies over every valid range. */
  lemma WholeImpliesRange(rt: Runtime, rows: seq<Row>, from: Option<int>, to: Option<int>)
    requires ChainSound(rt, rows, false) && ValidRange(from, to)
    ensures ChainSound(rt, Selected(rows, from, to), from.Some?)
  {
    hide RowSound, ChainSound, Selected;
    SoundIncreasing(rt, rows, false);
    SelectedIsSlice(rows, from, to);
    var i, j := LowIndex(rows, from), HighIndex(rows, to);
    if from.Some? {
      SliceSound(rt, rows, false, if i > 0 then i - 1 else 0, j);
    } else {
      TailDropUndetected(rt, rows, false, j);
    }
  }

  /**
   * Verifying up to `k` and from `k + 1` on verifies the whole chain, provided some row was in the first part
   * or the first row is a genuine first row: with nothing before the range, no check looks at its link.
   */
  lemma RangesCompose(rt: Runtime, rows: seq<Row>, k: int)
    requires Ordered(rows) && k >= 1
    ensures ChainSound(rt, rows, false)
       <==> (ChainSound(rt, Selected(rows, None, Some(k)), false)
             && ChainSound(rt, Selected(rows, Some(k + 1), None), true)
             && (rows == [] || rows[0].event.sequence <= k || rows[0].event.prevHash.None?))
  {
    hide EventHash, Selected;
    if ChainSound(rt, rows, false) {
      WholeImpliesRange(rt, rows, None, Some(k));
      WholeImpliesRange(rt, rows, Some(k + 1), None);
      if rows != [] { assert RowSound(rt, rows, 0, false); }
    } else if ChainSound(rt, Selected(rows, None, Some(k)), false) && ChainSound(rt, Selected(rows, Some(k + 1), None), true) {
      if rows == [] || rows[0].event.sequence <= k || rows[0].event.prevHash.None? {
        PartsImplyWhole(rt, rows, k);
      }
    }
  }

  /** An event that claims a predecessor; as the only row of a chain, numbered 2, it is cut off from its beginning. */
  const HEADLESS: Event :=
    Event(2, Utc(2026, 1, 1, 0, 0, 0, 0), None, None, "decision", "borrower", 0, PyDict([]), Some("0"))

  /** Verified up to 1 and from 2 on, that row passes both times, and the whole chain does not. */
  lemma HeadlessPassesInParts(rt: Runtime)
    ensures EventHash(rt, HEADLESS).Ok?
    ensures var rows := [Row(HEADLESS, EventHash(rt, HEADLESS).value)];
            Ordered(rows) && ChainSound(rt, Selected(rows, None, Some(1)), false)
            && ChainSound(rt, Selected(rows, Some(2), None), true) && !ChainSound(rt, rows, false)
  {
    hide TimestampText, TextToken, UuidText;
    assert NormalisePayload(rt, PyDict([])).Ok?;
    var row := Row(HEADLESS, EventHash(rt, HEADLESS).value);
    hide EventHash;
    assert [row][1..] == [];
    OneRowBetween(row, None, Some(1));
    OneRowBetween(row, Some(2), None);
    assert Context([row], 2) == [];
    assert Selected([row], Some(2), None) == [row];
    assert !RowSound(rt, [row], 0, false);
  }

  lemma OneRowBetween(row: Row, low: Option<int>, high: Option<int>)
    ensures Between([row], low, high) == if Fits(row, low, high) then [row] else []
  {
    assert [row][1..] == [];
  }

  lemma PartsImplyWhole(rt: Runtime, rows: seq<Row>, k: int)
    requires Ordered(rows) && k >= 1
    requires ChainSound(rt, Selected(rows, None, Some(k)), false)
    requires ChainSound(rt, Selected(rows, Some(k + 1), None), true)
    requires rows == [] || rows[0].event.sequence <= k || rows[0].event.prevHash.None?
    ensures ChainSound(rt, rows, false)
  {
    hide RowSound, ChainSound, Latest, Between;
    var n := Cut(rows, k);
    BetweenIsSlice(rows, None, Some(k));
    BetweenIsSlice(rows, Some(k + 1), None);
    assert Selected(rows, None, Some(k)) == rows[..n];
    SoundIncreasing(rt, rows[..n], false);
    if n > 0 {
      LatestIsLast(rows[..n]);
      assert Selected(rows, Some(k + 1), None) == [rows[n - 1]] + rows[n..];
    } else {
      assert Selected(rows, Some(k + 1), None) == rows;
    }
    GlueSound(rt, rows, n);
  }

  lemma GlueSound(rt: Runtime, rows: seq<Row>, n: nat)
    requires n <= |rows| && ChainSound(rt, rows[..n], false)
    requires n > 0 ==> ChainSound(rt, [rows[n - 1]] + rows[n..], true)
    requires n == 0 ==> ChainSound(rt, rows, true) && (rows == [] || rows[0].event.prevHash.None?)
    ensures ChainSound(rt, rows, false)
  {
    hide EventHash;
    forall i | 0 <= i < |rows| ensures RowSound(rt, rows, i, false) {
      if i < n {
        assert RowSound(rt, rows[..n], i, false);
      } else if n > 0 {
        assert RowSound(rt, [rows[n - 1]] + rows[n..], i - n + 1, true);
      } else {
        assert RowSound(rt, rows, i, true);
      }
    }
  }
}
