/** Which audit files of a bundle make the verifier raise an exception that it does not catch (audit/bundle.py). */
module BundleEscapes {
  import opened Prelude
  import opened Json
  import opened AuditChain
  import opened BundleChain

  // ---------- items ----------

  /** Everything that is read before the sequence is there and parses. */
  predicate ReadsUpToSequence(host: Host, f: map<string, Json>)
  {
    var actor := Lookup(f, "actor_id");
    && "subject_id" in f && host.rt.parseUuid(StrOf(host, f["subject_id"])).Some?
    && (Truthy(host, actor) ==> host.rt.parseUuid(StrOf(host, actor)).Some?)
    && "occurred_at" in f && host.parseInstant(StrOf(host, f["occurred_at"])).Some?
  }

  /** A number without an integer value: one that overflows to infinity, as 1e400. */
  predicate Boundless(host: Host, j: Json) { j.JFloat? && host.truncate(j.repr).None? }

  /** The item's sequence is boundless, and nothing read before it fails. */
  predicate SequenceOverflows(host: Host, j: Json)
  {
    j.JObject? && ReadsUpToSequence(host, j.fields) && "sequence" in j.fields && Boundless(host, j.fields["sequence"])
  }

  /** An object with everything a row needs. */
  predicate ReadsAsRow(host: Host, j: Json)
  {
    && j.JObject? && ReadsUpToSequence(host, j.fields)
    && "sequence" in j.fields && CastInt(host, j.fields["sequence"]).Integer?
    && "event_type" in j.fields && "subject_type" in j.fields && "payload" in j.fields && "hash" in j.fields
  }

  /** Anything but an object is passed on as it is. */
  predicate Accepted(host: Host, j: Json) { !j.JObject? || ReadsAsRow(host, j) }

  lemma DecodeRowCases(host: Host, j: Json)
    ensures DecodeRow(host, j).Decoded? <==> ReadsAsRow(host, j)
    ensures DecodeRow(host, j).Overflow? <==> SequenceOverflows(host, j)
    ensures DecodeRow(host, j).Foreign? <==> !j.JObject?
  {
    hide StrOf, Truthy;
  }

  /** A boundless sequence, and every item before it accepted. */
  predicate SomeSequenceOverflows(host: Host, items: seq<Json>)
  {
    exists i :: 0 <= i < |items| && SequenceOverflows(host, items[i]) && forall k :: 0 <= k < i ==> Accepted(host, items[k])
  }

  function RowOf(host: Host, j: Json): Row
    requires ReadsAsRow(host, j)
  {
    DecodeRowCases(host, j);
    DecodeRow(host, j).row
  }

  function DecodedItem(host: Host, j: Json): Option<Row>
    requires Accepted(host, j)
  {
    if j.JObject? then Some(RowOf(host, j)) else None
  }

  function DecodedItems(host: Host, items: seq<Json>): (r: seq<Option<Row>>)
    requires forall k :: 0 <= k < |items| ==> Accepted(host, items[k])
    ensures |r| == |items|
  {
    seq(|items|, i requires 0 <= i < |items| => DecodedItem(host, items[i]))
  }

  lemma {:induction false} DecodeRowsCases(host: Host, items: seq<Json>)
    ensures DecodeRows(host, items).Rows? <==> forall k :: 0 <= k < |items| ==> Accepted(host, items[k])
    ensures DecodeRows(host, items).RowsOverflow? <==> SomeSequenceOverflows(host, items)
    ensures DecodeRows(host, items).Rows? ==> DecodeRows(host, items).rows == DecodedItems(host, items)
  {
    if items != [] {
      var first, rest := items[0], items[1..];
      DecodeRowCases(host, first);
      DecodeRowsCases(host, rest);
      hide DecodeRow, ReadsAsRow, SequenceOverflows, RowOf;
      OverflowLater(host, items);
      if Accepted(host, first) && DecodeRows(host, rest).Rows? {
        forall k | 0 <= k < |items| ensures Accepted(host, items[k]) { assert k > 0 ==> items[k] == rest[k - 1]; }
        FirstDecoded(host, items);
      } else if !DecodeRows(host, rest).Rows? {
        var k :| 0 <= k < |rest| && !Accepted(host, rest[k]);
        assert items[k + 1] == rest[k];
      }
    }
  }

  lemma FirstDecoded(host: Host, items: seq<Json>)
    requires items != [] && forall k :: 0 <= k < |items| ==> Accepted(host, items[k])
    ensures DecodedItems(host, items) == [DecodedItem(host, items[0])] + DecodedItems(host, items[1..])
    ensures DecodedItem(host, items[0]) == (if DecodeRow(host, items[0]).Decoded? then Some(DecodeRow(host, items[0]).row) else None)
  {
    DecodeRowCases(host, items[0]);
    hide DecodeRow, ReadsAsRow;
  }

  lemma OverflowLater(host: Host, items: seq<Json>)
    requires items != []
    ensures SomeSequenceOverflows(host, items)
        <==> SequenceOverflows(host, items[0]) || (Accepted(host, items[0]) && SomeSequenceOverflows(host, items[1..]))
  {
    hide SequenceOverflows, Accepted;
    var rest := items[1..];
    if SomeSequenceOverflows(host, items) {
      var i :| 0 <= i < |items| && SequenceOverflows(host, items[i]) && forall k :: 0 <= k < i ==> Accepted(host, items[k]);
      if i > 0 {
        assert rest[i - 1] == items[i];
        assert forall k :: 0 <= k < i - 1 ==> rest[k] == items[k + 1];
      }
    }
    if Accepted(host, items[0]) && SomeSequenceOverflows(host, rest) {
      var i :| 0 <= i < |rest| && SequenceOverflows(host, rest[i]) && forall k :: 0 <= k < i ==> Accepted(host, rest[k]);
      assert items[i + 1] == rest[i];
      forall k | 0 <= k < i + 1 ensures Accepted(host, items[k]) { assert k > 0 ==> items[k] == rest[k - 1]; }
    }
  }

  // ---------- bounds ----------

  predicate BoundFails(host: Host, j: Json) { j.JString? && host.parseInt(j.text).None? }

  predicate BoundEscapes(host: Host, j: Json) { j.JArray? || j.JObject? || Boundless(host, j) }

  function BoundValue(host: Host, j: Json): Option<int>
  {
    var cast := CastInt(host, j);
    if cast.Integer? then Some(cast.n) else None
  }

  /** A bound that is no number: the lower one is read first, and text that does not parse is caught. */
  predicate RangeEscapes(host: Host, range: Json)
  {
    range.JObject?
    && var from, to := Lookup(range.fields, "from"), Lookup(range.fields, "to");
       BoundEscapes(host, from) || (!BoundFails(host, from) && BoundEscapes(host, to))
  }

  predicate RangeReads(host: Host, range: Json)
  {
    range.JObject? ==>
      var from, to := Lookup(range.fields, "from"), Lookup(range.fields, "to");
      !BoundEscapes(host, from) && !BoundFails(host, from) && !BoundEscapes(host, to) && !BoundFails(host, to)
  }

  function FromOf(host: Host, range: Json): Option<int>
  {
    if range.JObject? then BoundValue(host, Lookup(range.fields, "from")) else None
  }

  function ToOf(host: Host, range: Json): Option<int>
  {
    if range.JObject? then BoundValue(host, Lookup(range.fields, "to")) else None
  }

  lemma RangeCases(host: Host, range: Json)
    ensures RangeOf(host, range).BoundsEscape? <==> RangeEscapes(host, range)
    ensures RangeOf(host, range).Bounds? <==> RangeReads(host, range)
    ensures RangeReads(host, range) ==> RangeOf(host, range) == Bounds(FromOf(host, range), ToOf(host, range))
  {}

  // ---------- foreign items ----------

  /** The rows before item `i`. */
  function RowsBefore(host: Host, items: seq<Json>, i: nat): (r: seq<Row>)
    requires i <= |items| && forall k :: 0 <= k < i ==> ReadsAsRow(host, items[k])
    ensures |r| == i
  {
    seq(i, k requires 0 <= k < i => RowOf(host, items[k]))
  }

  /** An item that is no object is touched: at once under a bound, and otherwise once the rows before it have passed. */
  predicate ForeignTouched(host: Host, items: seq<Json>, bounded: bool)
  {
    exists i :: 0 <= i < |items| && !items[i].JObject?
      && (bounded || ((forall k :: 0 <= k < i ==> ReadsAsRow(host, items[k])) && ChainSound(host.rt, RowsBefore(host, items, i), false)))
  }

  lemma ScanPasses(host: Host, rows: seq<Row>)
    ensures Scan(host.rt, rows, 0, false).Verified? <==> ChainSound(host.rt, rows, false)
  {
    hide Scan, RowSound;
    ScanIsVerdict(host.rt, rows, 0, false);
  }

  /** The decoded prefix ends at the first item that is no object. */
  lemma {:induction false} PrefixEnds(rows: seq<Option<Row>>)
    ensures var n := |DecodedPrefix(rows)|;
            n <= |rows| && DecodedPrefix(rows) == rows[..n] && (n < |rows| ==> rows[n].None?)
            && forall k :: 0 <= k < n ==> rows[k].Some?
  {
    if rows != [] && rows[0].Some? { PrefixEnds(rows[1..]); }
  }

  lemma PrefixRows(host: Host, items: seq<Json>, n: nat)
    requires n <= |items| && forall k :: 0 <= k < |items| ==> Accepted(host, items[k])
    requires forall k :: 0 <= k < n ==> items[k].JObject?
    ensures AllDecoded(DecodedItems(host, items)[..n])
    ensures Values(DecodedItems(host, items)[..n]) == RowsBefore(host, items, n)
  {
    hide ReadsAsRow, RowOf;
    assert forall k :: 0 <= k < n ==> DecodedItems(host, items)[..n][k] == Some(RowOf(host, items[k]));
  }

  lemma ForeignCases(host: Host, items: seq<Json>, from: Option<int>, to: Option<int>)
    requires forall k :: 0 <= k < |items| ==> Accepted(host, items[k])
    ensures CheckRows(host, DecodedItems(host, items), from, to).Escapes?
        <==> ValidRange(from, to) && ForeignTouched(host, items, from.Some? || to.Some?)
  {
    hide ReadsAsRow, RowOf, Scan, ChainSound, ValidRange, Selected;
    var rows := DecodedItems(host, items);
    forall k | 0 <= k < |items| ensures rows[k].None? <==> !items[k].JObject? {}
    PrefixEnds(rows);
    var n := |DecodedPrefix(rows)|;
    PrefixRows(host, items, n);
    ScanPasses(host, RowsBefore(host, items, n));
    if !AllDecoded(rows) {
      var i :| 0 <= i < |rows| && rows[i].None?;
      assert !items[i].JObject?;
      assert n < |rows| && !items[n].JObject?;
      OnlyFirstForeign(host, items, n);
    }
  }

  /** Only the first item that is no object can be reached. */
  lemma OnlyFirstForeign(host: Host, items: seq<Json>, n: nat)
    requires n < |items| && !items[n].JObject?
    requires forall k :: 0 <= k < n ==> items[k].JObject? && ReadsAsRow(host, items[k])
    ensures ForeignTouched(host, items, true)
    ensures ForeignTouched(host, items, false) <==> ChainSound(host.rt, RowsBefore(host, items, n), false)
  {
    hide RowOf, ChainSound;
    if ForeignTouched(host, items, false) {
      var i :| 0 <= i < |items| && !items[i].JObject? && (forall k :: 0 <= k < i ==> ReadsAsRow(host, items[k]))
        && ChainSound(host.rt, RowsBefore(host, items, i), false);
      assert i == n;
    }
  }

  // ---------- the whole audit file ----------

  /** In terms of the audit file alone: does verifying it again raise what the verifier does not catch? */
  predicate PayloadEscapes(host: Host, payload: Json)
  {
    payload.JObject? && Lookup(payload.fields, "rows").JArray?
    && var items, range := Lookup(payload.fields, "rows").items, Lookup(payload.fields, "range");
       || SomeSequenceOverflows(host, items)
       || (&& (forall k :: 0 <= k < |items| ==> Accepted(host, items[k]))
           && (|| RangeEscapes(host, range)
               || (&& RangeReads(host, range) && ValidRange(FromOf(host, range), ToOf(host, range))
                   && ForeignTouched(host, items, FromOf(host, range).Some? || ToOf(host, range).Some?))))
  }

  /**
   * An exception escapes for exactly three kinds of audit file: a row with a boundless sequence before any unreadable
   * row; readable rows with a bound that is a list, an object or boundless; and an item that is no object, touched
   * under a bound or after a sound prefix.
   */
  lemma EscapesExactly(host: Host, payload: Json)
    ensures EmbeddedChain(host, payload).Escapes? <==> PayloadEscapes(host, payload)
  {
    hide Accepted, SomeSequenceOverflows, DecodeRows, RangeOf, RangeReads, RangeEscapes, FromOf, ToOf, ForeignTouched, CheckRows,
         DecodedItems, ValidRange;
    if payload.JObject? && Lookup(payload.fields, "rows").JArray? {
      var items, range := Lookup(payload.fields, "rows").items, Lookup(payload.fields, "range");
      DecodeRowsCases(host, items);
      RangeCases(host, range);
      if forall k :: 0 <= k < |items| ==> Accepted(host, items[k]) {
        ForeignCases(host, items, FromOf(host, range), ToOf(host, range));
        NoOverflow(host, items);
      }
    }
  }

  lemma NoOverflow(host: Host, items: seq<Json>)
    requires forall k :: 0 <= k < |items| ==> Accepted(host, items[k])
    ensures !SomeSequenceOverflows(host, items)
  {}

  /** The audit file `{"rows": [1]}`. */
  const NUMBER_ROW: Json := JObject(map["rows" := JArray([JInt(1)])])

  /** The audit file `{"rows": [], "range": {"from": []}}`. */
  const LIST_BOUND: Json := JObject(map["rows" := JArray([]), "range" := JObject(map["from" := JArray([])])])

  lemma ConcreteEscapes(host: Host)
    ensures PayloadEscapes(host, NUMBER_ROW) && PayloadEscapes(host, LIST_BOUND)
  {
    var items := [JInt(1)];
    assert Lookup(NUMBER_ROW.fields, "range") == JNull;
    assert !items[0].JObject? && RowsBefore(host, items, 0) == [];
    assert ChainSound(host.rt, RowsBefore(host, items, 0), false);
    assert ForeignTouched(host, items, false);
    var range := Lookup(LIST_BOUND.fields, "range");
    assert Lookup(range.fields, "from") == JArray([]);
  }
}
