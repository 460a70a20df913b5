/** Keyset pagination over a table that may change between requests (api/pagination.py). */
module KeysetPaging {
  import opened Prelude
  import opened Numerals
  import opened Ordering
  import opened Runtime
  import opened CursorToken

  const MAX_PAGE_SIZE := 200

  /** A primary value as its rank: integers of up to 63 digits, which take at most 64 characters. */
  const RANK_LIMIT: int := Pow10(63)

  type Rank = n: int | -RANK_LIMIT < n < RANK_LIMIT

  /** One row's sort key: the primary column (as its rank) and the id that breaks ties. */
  datatype Row = Row(primary: Rank, id: Uuid)

  type Table = set<Row>

  predicate Ascends(a: Row, b: Row)
  {
    a.primary < b.primary || (a.primary == b.primary && a.id < b.id)
  }

  predicate Descends(a: Row, b: Row)
  {
    b.primary < a.primary || (a.primary == b.primary && b.id < a.id)
  }

  /** `order_by(primary, id)` in either direction. */
  function Order(descending: bool): (Row, Row) -> bool
  {
    if descending then Descends else Ascends
  }

  lemma OrderTotal(descending: bool)
    ensures StrictTotalOrder(Order(descending))
  {}

  /** How the caller writes a primary value into a cursor and reads it back. */
  datatype Codec = Codec(serialize: Rank -> string, parse: string -> Rank)
  {
    ghost predicate Lawful()
    {
      forall v: Rank :: 1 <= |serialize(v)| <= PRIMARY_MAX_LENGTH && IsPlain(serialize(v)) && parse(serialize(v)) == v
    }
  }

  /** What one list resource is served with. */
  datatype Resource = Resource(rt: Runtime, signer: Signer, codec: Codec, digest: string, pageSize: int, descending: bool)
  {
    ghost predicate Lawful()
    {
      rt.Lawful() && signer.Lawful() && codec.Lawful() && IsDigest(digest) && 1 <= pageSize <= MAX_PAGE_SIZE
    }
  }

  ghost function RankOf(s: string): Rank
  {
    if exists v: Rank :: IntText(v) == s then
      var v: Rank :| IntText(v) == s;
      v
    else 0
  }

  lemma DecimalCodec(v: Rank)
    ensures 1 <= |IntText(v)| <= PRIMARY_MAX_LENGTH && IsPlain(IntText(v)) && RankOf(IntText(v)) == v
  {
    FewDigits(if v < 0 then -v else v, 63);
    forall w: Rank | IntText(w) == IntText(v) ensures w == v { IntTextInjective(v, w); }
  }

  /** Resources that meet the laws exist for every page size: ranks written in decimal, a constant signature. */
  lemma LawfulResource(pageSize: int, descending: bool) returns (res: Resource)
    requires 1 <= pageSize <= MAX_PAGE_SIZE
    ensures res.Lawful() && res.pageSize == pageSize && res.descending == descending
  {
    hide IntText, RANK_LIMIT, Runtime.Lawful;
    var codec := Codec((v: Rank) => IntText(v), s => RankOf(s));
    forall v: Rank
      ensures 1 <= |codec.serialize(v)| <= PRIMARY_MAX_LENGTH && IsPlain(codec.serialize(v)) && codec.parse(codec.serialize(v)) == v
    {
      DecimalCodec(v);
    }
    var signer := Signer(b => seq(32, i => 0), s => s);
    res := Resource(PlainRuntime(), signer, codec, seq(64, i => '0'), pageSize, descending);
  }

  datatype Page = Page(items: seq<Row>, next: Option<string>)

  datatype PageError = BadPageSize | BadCursor(error: CursorError) | StaleFilters | BadPrimary

  /** The rows the seek predicate keeps. */
  function After(table: Table, position: Option<Row>, descending: bool): Table
  {
    match position
    case None => table
    case Some(p) =>
      if descending
      then set r | r in table && (r.primary < p.primary || (r.primary == p.primary && r.id < p.id))
      else set r | r in table && (r.primary > p.primary || (r.primary == p.primary && r.id > p.id))
  }

  function Matching(table: Table, position: Option<Row>, descending: bool): (rows: seq<Row>)
    ensures Ascending(Order(descending), rows)
    ensures forall r :: r in rows <==> r in After(table, position, descending)
    ensures |rows| == |After(table, position, descending)|
  {
    OrderTotal(descending);
    Sorted(Order(descending), After(table, position, descending))
  }

  function Take(rows: seq<Row>, n: nat): seq<Row>
  {
    if |rows| <= n then rows else rows[..n]
  }

  /** The page after a position: fetch one row more than asked for, to learn whether another page follows. */
  function PageAt(res: Resource, table: Table, position: Option<Row>): Result<Page, PageError>
    requires res.pageSize >= 1
  {
    var fetched := Take(Matching(table, position, res.descending), res.pageSize + 1);
    var items := Take(fetched, res.pageSize);
    if |fetched| <= res.pageSize then Ok(Page(items, None)) else
    var last := items[|items| - 1];
    var cursor := Cursor(res.codec.serialize(last.primary), last.id, res.digest);
    if !cursor.Valid() then Err(BadPrimary) else Ok(Page(items, Some(Encode(res.signer, cursor))))
  }

  function Paginate(res: Resource, table: Table, cursor: Option<string>): Result<Page, PageError>
  {
    if !(1 <= res.pageSize <= MAX_PAGE_SIZE) then Err(BadPageSize) else
    match cursor
    case None => PageAt(res, table, None)
    case Some(token) =>
      match Decode(res.rt, res.signer, token)
      case Err(e) => Err(BadCursor(e))
      case Ok(position) =>
        if position.filtersDigest != res.digest then Err(StaleFilters)
        else PageAt(res, table, Some(Row(res.codec.parse(position.primary), position.id)))
  }

  /** Pages fetched by following `next`, one table state per request, until the end or until the states run out. */
  datatype Walk = Walk(pages: seq<seq<Row>>, finished: bool)
  {
    function Items(): seq<Row> { Flatten(pages) }
  }

  function Follow(res: Resource, tables: seq<Table>, cursor: Option<string>): Result<Walk, PageError>
  {
    if tables == [] then Ok(Walk([], false)) else
    match Paginate(res, tables[0], cursor)
    case Err(e) => Err(e)
    case Ok(page) =>
      if page.next.None? then Ok(Walk([page.items], true)) else
      match Follow(res, tables[1..], page.next)
      case Err(e) => Err(e)
      case Ok(rest) => Ok(Walk([page.items] + rest.pages, rest.finished))
  }

  // ---------- the same walk over positions instead of tokens ----------

  function Items(res: Resource, table: Table, position: Option<Row>): seq<Row>
    requires res.pageSize >= 1
  {
    Take(Matching(table, position, res.descending), res.pageSize)
  }

  predicate HasMore(res: Resource, table: Table, position: Option<Row>)
  {
    |After(table, position, res.descending)| > res.pageSize
  }

  function Last(rows: seq<Row>): Row
    requires rows != []
  {
    rows[|rows| - 1]
  }

  function WalkFrom(res: Resource, tables: seq<Table>, position: Option<Row>): (w: Walk)
    requires res.pageSize >= 1
    ensures |w.pages| <= |tables|
  {
    if tables == [] then Walk([], false) else
    var items := Items(res, tables[0], position);
    if !HasMore(res, tables[0], position) then Walk([items], true) else
    var rest := WalkFrom(res, tables[1..], Some(Last(items)));
    Walk([items] + rest.pages, rest.finished)
  }

  function TokenOf(res: Resource, position: Option<Row>): Option<string>
  {
    match position
    case None => None
    case Some(r) => Some(Encode(res.signer, Cursor(res.codec.serialize(r.primary), r.id, res.digest)))
  }

  /** A cursor token leads back to exactly the row it was made from. */
  lemma TokenRoundTrip(res: Resource, r: Row)
    requires res.Lawful()
    ensures var c := Cursor(res.codec.serialize(r.primary), r.id, res.digest);
            c.Valid() && Decode(res.rt, res.signer, Encode(res.signer, c)) == Ok(c)
  {
    hide Decode, Encode;
    var c := Cursor(res.codec.serialize(r.primary), r.id, res.digest);
    PlainUnescaped(c.primary);
    CursorRoundTrip(res.rt, res.signer, c);
  }

  lemma PaginateIsPageAt(res: Resource, table: Table, position: Option<Row>)
    requires res.Lawful()
    ensures HasMore(res, table, position) ==> Items(res, table, position) != []
    ensures Paginate(res, table, TokenOf(res, position))
         == Ok(Page(Items(res, table, position),
                    if HasMore(res, table, position) then TokenOf(res, Some(Last(Items(res, table, position)))) else None))
  {
    hide Decode, Encode, Matching, After;
    var items := Items(res, table, position);
    MatchingLength(table, position, res.descending);
    if position.Some? { TokenRoundTrip(res, position.value); }
    if HasMore(res, table, position) {
      TokenRoundTrip(res, Last(items));
      var rows := Matching(table, position, res.descending);
      assert Take(Take(rows, res.pageSize + 1), res.pageSize) == items;
    }
  }

  lemma MatchingLength(table: Table, position: Option<Row>, descending: bool)
    ensures |Matching(table, position, descending)| == |After(table, position, descending)|
  {}

  /** Following tokens never fails and walks the same pages as following positions. */
  lemma {:induction false} FollowIsWalk(res: Resource, tables: seq<Table>, position: Option<Row>)
    requires res.Lawful()
    ensures Follow(res, tables, TokenOf(res, position)) == Ok(WalkFrom(res, tables, position))
  {
    hide Paginate, Items, HasMore, TokenOf, Resource.Lawful;
    if tables != [] {
      PaginateIsPageAt(res, tables[0], position);
      assert res.pageSize >= 1 by { PageSizePositive(res); }
      if HasMore(res, tables[0], position) {
        var last := Some(Last(Items(res, tables[0], position)));
        assert TokenOf(res, last).Some? by { TokenPresent(res, last.value); }
        FollowIsWalk(res, tables[1..], last);
      }
    }
  }

  lemma PageSizePositive(res: Resource)
    requires res.Lawful()
    ensures res.pageSize >= 1
  {}

  lemma TokenPresent(res: Resource, r: Row)
    ensures TokenOf(res, Some(r)).Some?
  {}

  // ---------- what a walk returns ----------

  /** Is `r` strictly after the position in the page order? */
  predicate Beyond(position: Option<Row>, r: Row, descending: bool)
  {
    position.Some? ==> Order(descending)(position.value, r)
  }

  lemma AfterMeaning(table: Table, position: Option<Row>, descending: bool, r: Row)
    ensures r in After(table, position, descending) <==> r in table && Beyond(position, r, descending)
  {}

  /** A page holds rows of its table beyond the position, in order; rows it leaves out come after its last one. */
  lemma PageFacts(res: Resource, table: Table, position: Option<Row>, r: Row)
    requires res.pageSize >= 1
    ensures var items := Items(res, table, position);
            Ascending(Order(res.descending), items)
            && (r in items ==> r in table && Beyond(position, r, res.descending))
            && (r in table && Beyond(position, r, res.descending) && r !in items ==>
                  HasMore(res, table, position) && items != [] && Order(res.descending)(Last(items), r))
            && (HasMore(res, table, position) ==> |items| == res.pageSize)
            && (!HasMore(res, table, position) ==> items == Matching(table, position, res.descending))
  {
    hide After, Order;
    AfterMeaning(table, position, res.descending, r);
    var rows := Matching(table, position, res.descending);
    var items := Items(res, table, position);
    MatchingLength(table, position, res.descending);
    if r in rows && r !in items {
      var i :| 0 <= i < |rows| && rows[i] == r;
      assert i >= res.pageSize;
      assert Last(items) == rows[res.pageSize - 1];
    }
    if r in items { assert r in rows; }
  }

  /** The pages of a walk, one after another, ascend strictly: no key is ever returned twice. */
  lemma {:induction false} WalkAscends(res: Resource, tables: seq<Table>, position: Option<Row>)
    requires res.pageSize >= 1
    ensures var items := WalkFrom(res, tables, position).Items();
            Ascending(Order(res.descending), items)
            && forall r :: r in items ==> Beyond(position, r, res.descending)
  {
    hide Order, Items, HasMore;
    if tables != [] {
      var page := Items(res, tables[0], position);
      forall r ensures r in page ==> Beyond(position, r, res.descending) { PageFacts(res, tables[0], position, r); }
      PageAscends(res, tables[0], position);
      if HasMore(res, tables[0], position) {
        PageNotEmpty(res, tables[0], position);
        var rest := WalkFrom(res, tables[1..], Some(Last(page)));
        WalkAscends(res, tables[1..], Some(Last(page)));
        AppendAscends(res.descending, position, page, rest.Items());
        assert WalkFrom(res, tables, position).Items() == page + rest.Items() by { FlattenCons(page, rest.pages); }
      } else {
        FlattenOne(page);
        assert WalkFrom(res, tables, position).Items() == page;
      }
    } else {
      assert Walk([], false).Items() == [];
    }
  }

  lemma FlattenOne(page: seq<Row>)
    ensures Flatten([page]) == page
  {
    FlattenCons(page, []);
    assert [page] + [] == [page] && page + [] == page;
  }

  lemma FlattenCons(page: seq<Row>, pages: seq<seq<Row>>)
    ensures Flatten([page] + pages) == page + Flatten(pages)
  {
    assert ([page] + pages)[1..] == pages;
  }

  lemma PageAscends(res: Resource, table: Table, position: Option<Row>)
    requires res.pageSize >= 1
    ensures Ascending(Order(res.descending), Items(res, table, position))
  {
    PageFacts(res, table, position, Row(0, 0));
  }

  lemma PageNotEmpty(res: Resource, table: Table, position: Option<Row>)
    requires res.pageSize >= 1 && HasMore(res, table, position)
    ensures Items(res, table, position) != []
  {
    PageFacts(res, table, position, Row(0, 0));
  }

  lemma AppendAscends(descending: bool, position: Option<Row>, page: seq<Row>, rest: seq<Row>)
    requires page != [] && Ascending(Order(descending), page) && Ascending(Order(descending), rest)
    requires forall r :: r in page ==> Beyond(position, r, descending)
    requires forall r :: r in rest ==> Beyond(Some(Last(page)), r, descending)
    ensures Ascending(Order(descending), page + rest)
    ensures forall r :: r in page + rest ==> Beyond(position, r, descending)
  {
    OrderTotal(descending);
    hide Order;
    var less := Order(descending);
    var all := page + rest;
    forall i, j | 0 <= i < j < |all| ensures less(all[i], all[j]) {
      if i < |page| && j >= |page| {
        assert rest[j - |page|] in rest;
        assert i < |page| - 1 ==> less(page[i], Last(page));
      }
    }
    forall r | r in rest ensures Beyond(position, r, descending) {
      assert Last(page) in page;
    }
  }

  /** Once a walk has ended, it has returned every row that was in all the tables it read, beyond its start. */
  lemma {:induction false} WalkComplete(res: Resource, tables: seq<Table>, position: Option<Row>, r: Row)
    requires res.pageSize >= 1 && WalkFrom(res, tables, position).finished
    requires Beyond(position, r, res.descending)
    requires forall i :: 0 <= i < |WalkFrom(res, tables, position).pages| ==> r in tables[i]
    ensures r in WalkFrom(res, tables, position).Items()
  {
    hide Order, Items, HasMore, Beyond;
    var page := Items(res, tables[0], position);
    assert r in tables[0];
    PageFacts(res, tables[0], position, r);
    if HasMore(res, tables[0], position) {
      var rest := WalkFrom(res, tables[1..], Some(Last(page)));
      FlattenCons(page, rest.pages);
      if r !in page {
        assert Beyond(Some(Last(page)), r, res.descending) by { BeyondLast(page, r, res.descending); }
        assert forall i :: 0 <= i < |rest.pages| ==> tables[1..][i] == tables[i + 1];
        WalkComplete(res, tables[1..], Some(Last(page)), r);
      }
    } else {
      FlattenOne(page);
    }
  }

  lemma BeyondLast(page: seq<Row>, r: Row, descending: bool)
    requires page != [] && Order(descending)(Last(page), r)
    ensures Beyond(Some(Last(page)), r, descending)
  {}

  /** Only rows that were in the table at the time of their page are returned. */
  lemma {:induction false} WalkSound(res: Resource, tables: seq<Table>, position: Option<Row>, i: nat, r: Row)
    requires res.pageSize >= 1 && i < |WalkFrom(res, tables, position).pages|
    requires r in WalkFrom(res, tables, position).pages[i]
    ensures r in tables[i]
  {
    hide Order, Items, HasMore;
    var page := Items(res, tables[0], position);
    if i == 0 {
      PageFacts(res, tables[0], position, r);
    } else {
      PageNotEmpty(res, tables[0], position);
      WalkSound(res, tables[1..], Some(Last(page)), i - 1, r);
    }
  }

  function Occurrences(rows: seq<Row>, r: Row): nat
  {
    if rows == [] then 0 else (if rows[0] == r then 1 else 0) + Occurrences(rows[1..], r)
  }

  lemma {:induction false} OccursOnce(less: (Row, Row) -> bool, rows: seq<Row>, r: Row)
    requires StrictTotalOrder(less) && Ascending(less, rows)
    ensures Occurrences(rows, r) == if r in rows then 1 else 0
  {
    if rows != [] {
      assert forall k :: 0 <= k < |rows[1..]| ==> less(rows[0], rows[1..][k]);
      OccursOnce(less, rows[1..], r);
      assert rows == [rows[0]] + rows[1..];
    }
  }

  /**
   * Following `next` through any table states never fails, never returns the same row twice, and once it ends has
   * returned every row that was present throughout with an unchanged key exactly once.
   */
  lemma PagingUnderChange(res: Resource, tables: seq<Table>, r: Row)
    requires res.Lawful()
    ensures Follow(res, tables, None).Ok?
    ensures var w := Follow(res, tables, None).value;
            |w.pages| <= |tables|
            && Occurrences(w.Items(), r) <= 1
            && (w.finished && (forall i :: 0 <= i < |w.pages| ==> r in tables[i]) ==> Occurrences(w.Items(), r) == 1)
            && (forall i :: 0 <= i < |w.pages| && r in w.pages[i] ==> r in tables[i])
  {
    hide Follow, WalkFrom, Order, Paginate, Occurrences;
    FollowIsWalk(res, tables, None);
    PageSizePositive(res);
    var w := WalkFrom(res, tables, None);
    WalkAscends(res, tables, None);
    OrderTotal(res.descending);
    OccursOnce(Order(res.descending), w.Items(), r);
    if w.finished && forall i :: 0 <= i < |w.pages| ==> r in tables[i] { WalkComplete(res, tables, None, r); }
    forall i | 0 <= i < |w.pages| && r in w.pages[i] ensures r in tables[i] { WalkSound(res, tables, None, i, r); }
  }

  /** An id comes back only if its row moved forward in the page order between two requests. */
  lemma RepeatedIdHasMoved(res: Resource, tables: seq<Table>, i: nat, j: nat)
    requires res.Lawful()
    ensures Follow(res, tables, None).Ok?
    ensures var items := Follow(res, tables, None).value.Items();
            i < j < |items| && items[i].id == items[j].id ==>
              if res.descending then items[j].primary < items[i].primary else items[i].primary < items[j].primary
  {
    hide Follow, WalkFrom, Paginate;
    FollowIsWalk(res, tables, None);
    PageSizePositive(res);
    WalkAscends(res, tables, None);
  }

  /** A row whose key changes between requests can come back: the same id, first as 1 and then as 3. */
  lemma MovedRowReturnsTwice(res: Resource)
    requires res.Lawful() && res.pageSize == 1 && !res.descending
    ensures var tables := [{Row(1, 7), Row(2, 8)}, {Row(3, 7), Row(2, 8)}, {Row(3, 7), Row(2, 8)}];
            Follow(res, tables, None) == Ok(Walk([[Row(1, 7)], [Row(2, 8)], [Row(3, 7)]], true))
  {
    hide Order, Paginate, Follow, Matching, Resource.Lawful;
    var a, b, c := Row(1, 7), Row(2, 8), Row(3, 7);
    var s, t := {a, b}, {c, b};
    var tables := [s, t, t];
    FollowIsWalk(res, tables, None);
    assert After(s, None, false) == {a, b} && After(t, Some(a), false) == {b, c} && After(t, Some(b), false) == {c};
    MatchingIs(s, None, [a, b]);
    MatchingIs(t, Some(a), [b, c]);
    MatchingIs(t, Some(b), [c]);
    WalkUnfold(res, [t], Some(b), [c], Walk([], false));
    assert [[b]] + [[c]] == [[b], [c]] && [[a]] + [[b], [c]] == [[a], [b], [c]];
    assert [t, t][1..] == [t] && tables[1..] == [t, t];
    WalkUnfold(res, [t, t], Some(a), [b, c], Walk([[c]], true));
    WalkUnfold(res, tables, None, [a, b], Walk([[b], [c]], true));
  }

  lemma WalkUnfold(res: Resource, tables: seq<Table>, position: Option<Row>, rows: seq<Row>, rest: Walk)
    requires res.pageSize == 1 && tables != [] && 1 <= |rows| <= 2
    requires Matching(tables[0], position, res.descending) == rows
    requires |rows| == 2 ==> WalkFrom(res, tables[1..], Some(rows[0])) == rest
    ensures WalkFrom(res, tables, position)
         == (if |rows| == 2 then Walk([[rows[0]]] + rest.pages, rest.finished) else Walk([rows], true))
  {
    hide Matching, After;
    MatchingLength(tables[0], position, res.descending);
    assert rows[..1] == [rows[0]];
  }

  lemma MatchingIs(table: Table, position: Option<Row>, rows: seq<Row>)
    requires Ascending(Ascends, rows) && forall r :: r in rows <==> r in After(table, position, false)
    ensures Matching(table, position, false) == rows
  {
    OrderTotal(false);
    AscendingUnique(Ascends, Matching(table, position, false), rows);
  }

  // ---------- a table that does not change ----------

  function PageCount(n: nat, size: int): nat
    requires size >= 1
  {
    if n <= size then 1 else 1 + PageCount(n - size, size)
  }

  /** max(1, ceil(n / size)). */
  lemma {:induction false} PageCountIsCeiling(n: nat, size: int)
    requires size >= 1
    ensures PageCount(n, size) == Max(1, (n + size - 1) / size)
  {
    if n > size {
      PageCountIsCeiling(n - size, size);
      DivisionStep(n - 1, size);
      DivisionPositive(n - 1, size);
    } else if n > 0 {
      DivisionStep(n - 1, size);
      DivisionSmall(n - 1, size);
    } else {
      DivisionSmall(size - 1, size);
    }
  }

  lemma DivisionStep(m: nat, size: int)
    requires size >= 1
    ensures (m + size) / size == m / size + 1
  {
    var q, k := m / size, m % size;
    assert m + size == (q + 1) * size + k;
    DivisionUnique(m + size, size, q + 1, k);
  }

  lemma DivisionSmall(m: nat, size: int)
    requires m < size
    ensures m / size == 0
  {
    DivisionUnique(m, size, 0, m);
  }

  lemma DivisionPositive(m: nat, size: int)
    requires m >= size >= 1
    ensures m / size >= 1
  {
    DivisionStep(m - size, size);
  }

  /** In an ascending sequence, the rows after its n-th one are exactly its rows from index n. */
  lemma TailMembers(less: (Row, Row) -> bool, rows: seq<Row>, n: nat, r: Row)
    requires StrictTotalOrder(less) && Ascending(less, rows) && 0 < n < |rows|
    ensures r in rows[n..] <==> r in rows && less(rows[n - 1], r)
  {
    if r in rows[n..] {
      var i :| 0 <= i < |rows[n..]| && rows[n..][i] == r;
      assert rows[n + i] == r && less(rows[n - 1], rows[n + i]);
    }
    assert forall i :: 0 <= i < n - 1 ==> less(rows[i], rows[n - 1]);
    if r in rows && less(rows[n - 1], r) {
      var i :| 0 <= i < |rows| && rows[i] == r;
      assert i >= n;
      assert rows[n..][i - n] == r;
    }
  }

  lemma BeyondTwice(position: Option<Row>, last: Row, r: Row, descending: bool)
    requires Beyond(position, last, descending) && Order(descending)(last, r)
    ensures Beyond(position, r, descending)
  {}

  lemma AscendingTail(less: (Row, Row) -> bool, rows: seq<Row>, n: nat)
    requires Ascending(less, rows) && n <= |rows|
    ensures Ascending(less, rows[n..])
  {}

  /** What is beyond the last row of a full page is what the page left out. */
  lemma RestAfterPage(res: Resource, table: Table, position: Option<Row>)
    requires res.pageSize >= 1 && HasMore(res, table, position)
    ensures var rows := Matching(table, position, res.descending);
            |rows| > res.pageSize && Items(res, table, position) == rows[..res.pageSize]
            && Matching(table, Some(Last(rows[..res.pageSize])), res.descending) == rows[res.pageSize..]
  {
    OrderTotal(res.descending);
    hide Order, Matching, After, Beyond, StrictTotalOrder, Ascending;
    var less, n := Order(res.descending), res.pageSize;
    var rows := Matching(table, position, res.descending);
    MatchingLength(table, position, res.descending);
    var last := rows[n - 1];
    var tail := Matching(table, Some(last), res.descending);
    forall r ensures r in tail <==> r in rows[n..] {
      AfterMeaning(table, Some(last), res.descending, r);
      AfterMeaning(table, position, res.descending, r);
      AfterMeaning(table, position, res.descending, last);
      BeyondSome(last, r, res.descending);
      TailMembers(less, rows, n, r);
      if r in table && less(last, r) { BeyondTwice(position, last, r, res.descending); }
    }
    AscendingTail(less, rows, n);
    AscendingUnique(less, tail, rows[n..]);
  }

  lemma BeyondSome(last: Row, r: Row, descending: bool)
    ensures Beyond(Some(last), r, descending) <==> Order(descending)(last, r)
  {}

  /** On a fixed table the pages concatenate to the sorted list, in max(1, ceil(n / size)) pages. */
  lemma {:induction false} FixedTableWalk(res: Resource, table: Table, tables: seq<Table>, position: Option<Row>)
    requires res.pageSize >= 1 && forall i :: 0 <= i < |tables| ==> tables[i] == table
    requires |tables| >= PageCount(|Matching(table, position, res.descending)|, res.pageSize)
    ensures var rows, w := Matching(table, position, res.descending), WalkFrom(res, tables, position);
            w.finished && w.Items() == rows && |w.pages| == PageCount(|rows|, res.pageSize)
    decreases |tables|
  {
    hide Order, Matching, After, Items, HasMore;
    var rows := Matching(table, position, res.descending);
    MatchingLength(table, position, res.descending);
    var page := Items(res, table, position);
    assert tables[0] == table;
    PageSizes(res, table, position);
    if HasMore(res, table, position) {
      RestAfterPage(res, table, position);
      var last := Some(Last(page));
      FixedTableWalk(res, table, tables[1..], last);
      FlattenCons(page, WalkFrom(res, tables[1..], last).pages);
      assert rows == rows[..res.pageSize] + rows[res.pageSize..];
    } else {
      FlattenOne(page);
    }
  }

  lemma PageSizes(res: Resource, table: Table, position: Option<Row>)
    requires res.pageSize >= 1
    ensures var rows := Matching(table, position, res.descending);
            HasMore(res, table, position) <==> |rows| > res.pageSize
    ensures !HasMore(res, table, position) ==> Items(res, table, position) == Matching(table, position, res.descending)
    ensures HasMore(res, table, position) ==> Items(res, table, position) != []
  {
    hide Matching, After;
    MatchingLength(table, position, res.descending);
  }

  lemma FixedTablePaging(res: Resource, table: Table, tables: seq<Table>)
    requires res.Lawful() && forall i :: 0 <= i < |tables| ==> tables[i] == table
    requires |tables| >= Max(1, (|table| + res.pageSize - 1) / res.pageSize)
    ensures Follow(res, tables, None).Ok?
    ensures var w := Follow(res, tables, None).value;
            w.finished && w.Items() == Matching(table, None, res.descending)
            && |w.pages| == Max(1, (|table| + res.pageSize - 1) / res.pageSize)
  {
    hide Follow, WalkFrom, Order, Paginate;
    PageSizePositive(res);
    FollowIsWalk(res, tables, None);
    MatchingLength(table, None, res.descending);
    PageCountIsCeiling(|table|, res.pageSize);
    FixedTableWalk(res, table, tables, None);
  }
}
