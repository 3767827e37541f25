/**
 * The receipt list: filters, the four sorts, cursors, and one page. Dates and times are numbers (day
 * numbers, microseconds), ids are the numbers behind the UUIDs, which compare as the UUIDs do.
 */
module ReceiptListing {
  import opened Prelude
  import opened Keyset
  import opened OrderedRows
  import LikePattern
  import Warranty

  datatype Receipt = Receipt(
    id: nat,
    userId: nat,
    itemName: string,
    brandName: Option<string>,
    paymentLocation: Option<string>,
    memo: Option<string>,
    category: Option<nat>,
    paymentDate: int,
    expiresOn: int,
    createdAt: int)

  datatype Sort = Recent | ExpiresOn | PurchaseDate | Title

  datatype StatusFilter = All | Only(status: Warranty.Status)

  /** The limit is checked to be at least one where the query is built. */
  datatype Query = Query(userId: nat, status: StatusFilter, sort: Sort, limit: nat, category: Option<nat>,
                         q: Option<string>)

  /** The database: its collation of titles and its case folding. */
  datatype Database = Database(collate: (string, string) -> bool, fold: char -> char)

  /** A deterministic collation: a strict order in which only equal strings tie. */
  ghost predicate Deterministic(db: Database) {
    WeakOrder(db.collate) && forall a, b :: a != b ==> !Tie(db.collate, a, b)
  }

  // ---- Filters ----------------------------------------------------------------------------------------

  predicate StatusCondition(filter: StatusFilter, today: int, r: Receipt) {
    match filter
    case All => true
    case Only(Active) => r.expiresOn > today + 30
    case Only(Expiring) => today <= r.expiresOn <= today + 30
    case Only(Expired) => r.expiresOn < today
  }

  predicate Like(db: Database, pattern: string, column: Option<string>) {
    column.Some? && LikePattern.Matches(pattern, column.value, db.fold)
  }

  predicate Visible(db: Database, query: Query, today: int, r: Receipt) {
    && r.userId == query.userId
    && StatusCondition(query.status, today, r)
    && (query.category.Some? ==> r.category == query.category)
    && (query.q.Some? ==>
          var pattern := LikePattern.KeywordPattern(query.q.value);
          Like(db, pattern, Some(r.itemName)) || Like(db, pattern, r.brandName)
          || Like(db, pattern, r.paymentLocation) || Like(db, pattern, r.memo))
  }

  /** The SQL status filter and the status shown on a receipt never disagree. */
  lemma StatusFilterAgreesWithStatus(filter: StatusFilter, today: int, r: Receipt)
    ensures StatusCondition(filter, today, r) <==>
            filter.All? || Warranty.StatusOf(r.expiresOn, today) == filter.status
    ensures Warranty.StatusOf(r.expiresOn, today) ==
            if r.expiresOn < today then Warranty.Expired
            else if r.expiresOn - 30 <= today then Warranty.Expiring else Warranty.Active
  {
  }

  predicate Contains(db: Database, keyword: string, text: string) {
    exists i :: 0 <= i <= |text| && LikePattern.OccursAt(keyword, text, i, db.fold)
  }

  /** A keyword keeps exactly the receipts in which some searched text contains it literally. */
  lemma KeywordFilterIsSubstringSearch(db: Database, query: Query, today: int, r: Receipt, keyword: string)
    requires query.q == Some(keyword)
    ensures Visible(db, query, today, r) <==>
            && Visible(db, query.(q := None), today, r)
            && (|| Contains(db, keyword, r.itemName)
                || (r.brandName.Some? && Contains(db, keyword, r.brandName.value))
                || (r.paymentLocation.Some? && Contains(db, keyword, r.paymentLocation.value))
                || (r.memo.Some? && Contains(db, keyword, r.memo.value)))
  {
    LikeIsContains(db, keyword, r.itemName);
    if r.brandName.Some? { LikeIsContains(db, keyword, r.brandName.value); }
    if r.paymentLocation.Some? { LikeIsContains(db, keyword, r.paymentLocation.value); }
    if r.memo.Some? { LikeIsContains(db, keyword, r.memo.value); }
  }

  lemma LikeIsContains(db: Database, keyword: string, text: string)
    ensures Like(db, LikePattern.KeywordPattern(keyword), Some(text)) <==> Contains(db, keyword, text)
  {
    LikePattern.KeywordPatternMeansSubstring(keyword, text, db.fold);
    if i: nat :| LikePattern.OccursAt(keyword, text, i, db.fold) { assert i <= |text|; }
  }

  // ---- Sorts and cursors --------------------------------------------------------------------------------

  datatype CursorValue = Number(n: int) | Text(s: string)

  datatype Cursor = Cursor(sort: Sort, value: CursorValue, receiptId: nat)

  function CursorValueOf(sort: Sort, r: Receipt): CursorValue {
    match sort
    case Recent => Number(r.createdAt)
    case ExpiresOn => Number(r.expiresOn)
    case PurchaseDate => Number(r.paymentDate)
    case Title => Text(r.itemName)
  }

  function CursorFor(sort: Sort, r: Receipt): Cursor {
    Cursor(sort, CursorValueOf(sort, r), r.id)
  }

  /** ORDER BY: newest and latest first, expiry and title ascending, ids breaking ties the same way. */
  predicate OrderedBefore(db: Database, sort: Sort, a: Receipt, b: Receipt) {
    match sort
    case Recent => a.createdAt > b.createdAt || (a.createdAt == b.createdAt && a.id > b.id)
    case ExpiresOn => a.expiresOn < b.expiresOn || (a.expiresOn == b.expiresOn && a.id < b.id)
    case PurchaseDate => a.paymentDate > b.paymentDate || (a.paymentDate == b.paymentDate && a.id > b.id)
    case Title => db.collate(a.itemName, b.itemName) || (a.itemName == b.itemName && a.id < b.id)
  }

  /** The WHERE clause that a cursor adds. */
  predicate CursorCondition(db: Database, sort: Sort, cursor: Cursor, r: Receipt)
    requires cursor.value.Text? <==> sort.Title?
  {
    match sort
    case Recent => r.createdAt < cursor.value.n || (r.createdAt == cursor.value.n && r.id < cursor.receiptId)
    case ExpiresOn => r.expiresOn > cursor.value.n || (r.expiresOn == cursor.value.n && r.id > cursor.receiptId)
    case PurchaseDate => r.paymentDate < cursor.value.n || (r.paymentDate == cursor.value.n && r.id < cursor.receiptId)
    case Title => db.collate(cursor.value.s, r.itemName) || (r.itemName == cursor.value.s && r.id > cursor.receiptId)
  }

  function ListOrder(db: Database, sort: Sort): (Receipt, Receipt) -> bool {
    (a, b) => OrderedBefore(db, sort, a, b)
  }

  /** For each sort the cursor's WHERE clause keeps exactly the rows that ORDER BY puts after the cursor's row. */
  lemma CursorConditionMeansAfter(db: Database, sort: Sort, last: Receipt, r: Receipt)
    ensures CursorCondition(db, sort, CursorFor(sort, last), r) <==> OrderedBefore(db, sort, last, r)
  {
  }

  lemma ListOrderLaws(db: Database, sort: Sort, a: Receipt, b: Receipt, c: Receipt)
    requires Deterministic(db)
    ensures Laws(ListOrder(db, sort), a, b, c)
    ensures Tie(ListOrder(db, sort), a, b) <==> a.id == b.id && CursorValueOf(sort, a) == CursorValueOf(sort, b)
  {
    if sort.Title? {
      var t := db.collate;
      var x, y, z := a.itemName, b.itemName, c.itemName;
      assert Laws(t, x, y, z) && Laws(t, y, x, y) && Laws(t, x, z, y) && Laws(t, y, z, x) && Laws(t, z, y, x)
          && Laws(t, x, y, x);
      assert x != y ==> !Tie(t, x, y);
      assert x != z ==> !Tie(t, x, z);
      assert y != z ==> !Tie(t, y, z);
    }
  }

  /** Primary key. */
  ghost predicate UniqueIds(rows: set<Receipt>) {
    forall a, b :: a in rows && b in rows && a.id == b.id ==> a == b
  }

  lemma ListOrderIsTotal(db: Database, sort: Sort, rows: set<Receipt>)
    requires Deterministic(db) && UniqueIds(rows)
    ensures WeakOrder(ListOrder(db, sort)) && NoTies(ListOrder(db, sort), rows)
  {
    forall a, b, c ensures Laws(ListOrder(db, sort), a, b, c) { ListOrderLaws(db, sort, a, b, c); }
    forall a, b | a in rows && b in rows && a != b
      ensures !Tie(ListOrder(db, sort), a, b)
    {
      ListOrderLaws(db, sort, a, b, b);
    }
  }

  // ---- The cursor on the wire -----------------------------------------------------------------------------

  /** JSON, ISO dates, UTF-8 and base64url, as libraries provide them; `unpack` gives None where they raise. */
  datatype Wire = Wire(pack: Cursor -> string, unpack: string -> Option<Cursor>)

  function TrailingPads(s: string): nat {
    if s == "" || s[|s| - 1] != '=' then 0 else 1 + TrailingPads(s[..|s| - 1])
  }

  function StripPads(s: string): string {
    if s == "" || s[|s| - 1] != '=' then s else StripPads(s[..|s| - 1])
  }

  function Pads(n: nat): string {
    if n == 0 then "" else Pads(n - 1) + "="
  }

  function Repad(s: string): string {
    s + Pads((-|s|) % 4)
  }

  lemma {:induction false} PadsLength(n: nat)
    ensures |Pads(n)| == n
  {
    if n > 0 { PadsLength(n - 1); }
  }

  lemma {:induction false} StrippedPads(s: string)
    ensures s == StripPads(s) + Pads(TrailingPads(s))
  {
    if s != "" && s[|s| - 1] == '=' {
      StrippedPads(s[..|s| - 1]);
      assert s == s[..|s| - 1] + "=";
    }
  }

  /** Stripping and re-padding gives back exactly the texts of whole base64 quads with at most three pads. */
  lemma RepadUndoesStrip(s: string)
    ensures Repad(StripPads(s)) == s <==> |s| % 4 == 0 && TrailingPads(s) <= 3
  {
    var base, n := StripPads(s), TrailingPads(s);
    StrippedPads(s);
    PadsFillQuad(base, n, s);
  }

  lemma PadsFillQuad(base: string, n: nat, s: string)
    requires s == base + Pads(n)
    ensures Repad(base) == s <==> |s| % 4 == 0 && n <= 3
  {
    PadsCancel(base, (-|base|) % 4, n);
    QuadFiller(|base|, n);
  }

  lemma PadsCancel(base: string, m: nat, n: nat)
    ensures |base + Pads(n)| == |base| + n
    ensures base + Pads(m) == base + Pads(n) <==> m == n
  {
    PadsLength(m);
    PadsLength(n);
    if base + Pads(m) == base + Pads(n) {
      assert |base + Pads(m)| == |base + Pads(n)|;
    }
  }

  lemma QuadFiller(length: int, n: nat)
    ensures (-length) % 4 == n <==> (length + n) % 4 == 0 && n <= 3
  {
  }

  /** base64url, section 5 of RFC 4648: quads, at most two pads, and reading undoes writing. */
  ghost predicate Lawful(wire: Wire) {
    forall c :: |wire.pack(c)| % 4 == 0 && TrailingPads(wire.pack(c)) <= 2 && wire.unpack(wire.pack(c)) == Some(c)
  }

  function EncodeCursor(wire: Wire, sort: Sort, r: Receipt): string {
    StripPads(wire.pack(CursorFor(sort, r)))
  }

  /** None stands for the validation error of an unusable cursor. */
  function DecodeCursor(wire: Wire, text: string, sort: Sort): Option<Cursor> {
    var payload := wire.unpack(Repad(text));
    if payload.None? || payload.value.sort != sort || (payload.value.value.Text? != sort.Title?) then None
    else payload
  }

  /** A cursor handed out for one sort comes back unchanged, and is refused under every other sort. */
  lemma CursorRoundTrip(wire: Wire, sort: Sort, other: Sort, r: Receipt)
    requires Lawful(wire)
    ensures DecodeCursor(wire, EncodeCursor(wire, sort, r), other) ==
            if other == sort then Some(CursorFor(sort, r)) else None
  {
    var packed := wire.pack(CursorFor(sort, r));
    assert |packed| % 4 == 0 && TrailingPads(packed) <= 2;
    RepadUndoesStrip(packed);
  }

  // ---- One page, and all pages ------------------------------------------------------------------------------

  datatype ListPage = ListPage(receipts: seq<Receipt>, nextCursor: Option<string>, hasNext: bool, totalCount: nat)

  ghost function Matching(db: Database, query: Query, today: int, rows: set<Receipt>): set<Receipt> {
    set r | r in rows && Visible(db, query, today, r)
  }

  ghost function Selected(db: Database, sort: Sort, base: set<Receipt>, cursor: Option<Cursor>): set<Receipt>
    requires cursor.Some? ==> (cursor.value.value.Text? <==> sort.Title?)
  {
    set r | r in base && (cursor.None? || CursorCondition(db, sort, cursor.value, r))
  }

  function PageOf(wire: Wire, sort: Sort, page: Page<Receipt>, totalCount: nat): ListPage {
    ListPage(
      page.rows,
      if page.hasNext && page.rows != [] then Some(EncodeCursor(wire, sort, page.rows[|page.rows| - 1])) else None,
      page.hasNext,
      totalCount)
  }

  /** list_by_user; None stands for the validation error of an unusable cursor. */
  ghost function ListByUser(db: Database, wire: Wire, query: Query, today: int, rows: set<Receipt>,
                            cursor: Option<string>): Option<ListPage>
    requires Deterministic(db) && UniqueIds(rows)
  {
    var base := Matching(db, query, today, rows);
    var decoded := if cursor.None? then None else DecodeCursor(wire, cursor.value, query.sort);
    if cursor.Some? && decoded.None? then None
    else
      var selected := Selected(db, query.sort, base, decoded);
      ListOrderIsTotal(db, query.sort, selected);
      Some(PageOf(wire, query.sort, Fetch(ListOrder(db, query.sort), selected, query.limit), |base|))
  }

  /**
   * A client that follows cursors: request i is served from table i on day i, the first without a
   * cursor, each later one with the cursor of the page before. The last page has a successor if there
   * is `more`.
   */
  ghost predicate Scrolling(db: Database, wire: Wire, query: Query, days: seq<int>, tables: seq<set<Receipt>>,
                            pages: seq<ListPage>, more: bool) {
    && Deterministic(db) && Lawful(wire) && query.limit >= 1
    && |days| == |tables| == |pages| > 0
    && (forall i :: 0 <= i < |tables| ==> UniqueIds(tables[i]))
    && (forall i :: 0 <= i < |pages| ==> Served(db, wire, query, days, tables, pages, more, i))
  }

  /** Scrolled to the end. */
  ghost predicate Scroll(db: Database, wire: Wire, query: Query, days: seq<int>, tables: seq<set<Receipt>>,
                         pages: seq<ListPage>) {
    Scrolling(db, wire, query, days, tables, pages, false)
  }

  /** Request i is answered with page i. */
  ghost predicate Served(db: Database, wire: Wire, query: Query, days: seq<int>, tables: seq<set<Receipt>>,
                         pages: seq<ListPage>, more: bool, i: nat)
    requires i < |pages| == |days| == |tables| && query.limit >= 1 && Deterministic(db) && UniqueIds(tables[i])
  {
    && ListByUser(db, wire, query, days[i], tables[i], CursorSent(pages, i)) == Some(pages[i])
    && pages[i].hasNext == (more || i + 1 < |pages|)
  }

  function CursorSent(pages: seq<ListPage>, i: nat): Option<string>
    requires i <= |pages|
  {
    if i == 0 then None else pages[i - 1].nextCursor
  }

  function RowsOf(pages: seq<ListPage>): (rows: seq<seq<Receipt>>)
    ensures |rows| == |pages|
  {
    seq(|pages|, i requires 0 <= i < |pages| => pages[i].receipts)
  }

  ghost function MatchingTables(db: Database, query: Query, days: seq<int>,
                                tables: seq<set<Receipt>>): seq<set<Receipt>>
    requires |days| == |tables|
  {
    seq(|tables|, i requires 0 <= i < |tables| => Matching(db, query, days[i], tables[i]))
  }

  lemma SelectedIsAfter(db: Database, wire: Wire, sort: Sort, base: set<Receipt>, last: Receipt)
    requires Lawful(wire)
    ensures DecodeCursor(wire, EncodeCursor(wire, sort, last), sort) == Some(CursorFor(sort, last))
    ensures Selected(db, sort, base, Some(CursorFor(sort, last))) == After(ListOrder(db, sort), base, Some(last))
  {
    CursorRoundTrip(wire, sort, sort, last);
    forall r | r in base ensures CursorCondition(db, sort, CursorFor(sort, last), r) <==> ListOrder(db, sort)(last, r) {
      CursorConditionMeansAfter(db, sort, last, r);
    }
  }

  function WireCursor(wire: Wire, sort: Sort, last: Option<Receipt>): Option<string> {
    if last.None? then None else Some(EncodeCursor(wire, sort, last.value))
  }

  /** A request with the cursor of `last` is a keyset page after `last`. */
  lemma RequestIsKeysetPage(db: Database, wire: Wire, query: Query, today: int, rows: set<Receipt>,
                            last: Option<Receipt>)
    requires Deterministic(db) && Lawful(wire) && UniqueIds(rows)
    ensures WeakOrder(ListOrder(db, query.sort))
    ensures NoTies(ListOrder(db, query.sort), After(ListOrder(db, query.sort), Matching(db, query, today, rows), last))
    ensures ListByUser(db, wire, query, today, rows, WireCursor(wire, query.sort, last)) ==
            Some(PageOf(wire, query.sort,
                        Fetch(ListOrder(db, query.sort),
                              After(ListOrder(db, query.sort), Matching(db, query, today, rows), last), query.limit),
                        |Matching(db, query, today, rows)|))
  {
    var base := Matching(db, query, today, rows);
    ListOrderIsTotal(db, query.sort, base);
    if last.Some? {
      SelectedIsAfter(db, wire, query.sort, base, last.value);
    } else {
      assert Selected(db, query.sort, base, None) == base == After(ListOrder(db, query.sort), base, last);
    }
  }

  lemma ScrollIsFollowing(db: Database, wire: Wire, query: Query, days: seq<int>, tables: seq<set<Receipt>>,
                          pages: seq<ListPage>, more: bool)
    requires Scrolling(db, wire, query, days, tables, pages, more)
    ensures Following(ListOrder(db, query.sort), MatchingTables(db, query, days, tables), RowsOf(pages), query.limit,
                      more)
  {
    var before := ListOrder(db, query.sort);
    var ts, ps := MatchingTables(db, query, days, tables), RowsOf(pages);
    forall i | 0 <= i < |ts| ensures NoTies(before, ts[i]) {
      ListOrderIsTotal(db, query.sort, ts[i]);
    }
    ListOrderIsTotal(db, query.sort, {});
    forall i | 0 <= i < |ps| ensures FetchedAt(before, ts, ps, query.limit, more, i) {
      ScrollStep(db, wire, query, days, tables, pages, more, i);
    }
  }

  /** The cursor a client sends names the last row it was shown. */
  lemma {:induction false} CursorsNameLastRows(db: Database, wire: Wire, query: Query, days: seq<int>,
                                               tables: seq<set<Receipt>>, pages: seq<ListPage>, more: bool, i: nat)
    requires Scrolling(db, wire, query, days, tables, pages, more) && i <= |pages| && (i == |pages| ==> more)
    ensures CursorSent(pages, i) == WireCursor(wire, query.sort, CursorOf(RowsOf(pages), i))
  {
    if i == 0 {
      assert CursorOf(RowsOf(pages), 0) == None;
    } else {
      CursorsNameLastRows(db, wire, query, days, tables, pages, more, i - 1);
      CursorSentIsLastRow(db, wire, query, days, tables, pages, more, i - 1);
    }
  }

  lemma ScrollStep(db: Database, wire: Wire, query: Query, days: seq<int>, tables: seq<set<Receipt>>,
                   pages: seq<ListPage>, more: bool, i: nat)
    requires Scrolling(db, wire, query, days, tables, pages, more) && i < |pages|
    ensures WeakOrder(ListOrder(db, query.sort))
    ensures NoTies(ListOrder(db, query.sort),
                   After(ListOrder(db, query.sort), Matching(db, query, days[i], tables[i]),
                         CursorOf(RowsOf(pages), i)))
    ensures IsPage(Fetch(ListOrder(db, query.sort),
                         After(ListOrder(db, query.sort), Matching(db, query, days[i], tables[i]),
                               CursorOf(RowsOf(pages), i)),
                         query.limit),
                   pages[i].receipts, more || i + 1 < |pages|)
  {
    CursorsNameLastRows(db, wire, query, days, tables, pages, more, i);
    assert Served(db, wire, query, days, tables, pages, more, i);
    RequestIsKeysetPage(db, wire, query, days[i], tables[i], CursorOf(RowsOf(pages), i));
  }

  /** A page with a successor hands out the cursor of its own last row. */
  lemma CursorNamesLastRow(db: Database, wire: Wire, query: Query, today: int, rows: set<Receipt>,
                           last: Option<Receipt>, page: ListPage)
    requires Deterministic(db) && Lawful(wire) && UniqueIds(rows) && query.limit >= 1
    requires ListByUser(db, wire, query, today, rows, WireCursor(wire, query.sort, last)) == Some(page)
    requires page.hasNext
    ensures page.receipts != []
    ensures page.nextCursor == Some(EncodeCursor(wire, query.sort, page.receipts[|page.receipts| - 1]))
  {
    var before := ListOrder(db, query.sort);
    RequestIsKeysetPage(db, wire, query, today, rows, last);
    FetchedPage(before, After(before, Matching(db, query, today, rows), last), query.limit);
  }

  lemma CursorSentIsLastRow(db: Database, wire: Wire, query: Query, days: seq<int>, tables: seq<set<Receipt>>,
                            pages: seq<ListPage>, more: bool, i: nat)
    requires Scrolling(db, wire, query, days, tables, pages, more) && i < |pages| && (i + 1 < |pages| || more)
    requires CursorSent(pages, i) == WireCursor(wire, query.sort, CursorOf(RowsOf(pages), i))
    ensures CursorSent(pages, i + 1) == WireCursor(wire, query.sort, CursorOf(RowsOf(pages), i + 1))
  {
    assert Served(db, wire, query, days, tables, pages, more, i);
    CursorNamesLastRow(db, wire, query, days[i], tables[i], CursorOf(RowsOf(pages), i), pages[i]);
    assert RowsOf(pages)[i] == pages[i].receipts;
  }

  lemma ListedStaysPut(db: Database, query: Query, days: seq<int>, tables: seq<set<Receipt>>, ts: seq<set<Receipt>>,
                       r: Receipt)
    requires Deterministic(db) && |days| == |tables| && ts == MatchingTables(db, query, days, tables)
    requires forall i :: 0 <= i < |tables| ==> Listed(db, query, days[i], tables[i], r)
    ensures StaysPut(ListOrder(db, query.sort), ts, r)
  {
    forall i | 0 <= i < |ts| ensures Present(ListOrder(db, query.sort), ts[i], r) {
      assert Listed(db, query, days[i], tables[i], r);
      var x :| x in tables[i] && Visible(db, query, days[i], x) && SameKey(query.sort, x, r);
      ListOrderLaws(db, query.sort, r, x, x);
      assert x in ts[i];
    }
  }

  /**
   * Scrolling under any of the four sorts while receipts are added, removed or edited: nothing is shown
   * twice under one key, the order holds throughout, and every receipt that keeps matching with its id
   * and sort key unchanged is shown, whatever else about it is edited.
   */
  lemma ScrollMissesNothing(db: Database, wire: Wire, query: Query, days: seq<int>, tables: seq<set<Receipt>>,
                            pages: seq<ListPage>, r: Receipt)
    requires Scroll(db, wire, query, days, tables, pages)
    ensures Ascending(ListOrder(db, query.sort), Flatten(RowsOf(pages)))
    ensures (forall i :: 0 <= i < |tables| ==> Listed(db, query, days[i], tables[i], r)) ==>
              exists x :: x in Flatten(RowsOf(pages)) && SameKey(query.sort, x, r)
  {
    var before := ListOrder(db, query.sort);
    var ts, ps := MatchingTables(db, query, days, tables), RowsOf(pages);
    ScrollIsFollowing(db, wire, query, days, tables, pages, false);
    TraversalIsComplete(before, ts, ps, query.limit);
    if forall i :: 0 <= i < |tables| ==> Listed(db, query, days[i], tables[i], r) {
      ListedStaysPut(db, query, days, tables, ts, r);
      assert Shown(before, Flatten(ps), r);
      var x :| x in Flatten(ps) && Tie(before, r, x);
      ListOrderLaws(db, query.sort, r, x, x);
    }
  }

  /** Whatever changes between the pages, the receipts shown are in the order of the sort, ties by id. */
  lemma ScrollIsInOrder(db: Database, wire: Wire, query: Query, days: seq<int>, tables: seq<set<Receipt>>,
                        pages: seq<ListPage>, i: nat, j: nat)
    requires Scroll(db, wire, query, days, tables, pages) && i < j < |Flatten(RowsOf(pages))|
    ensures var a, b := Flatten(RowsOf(pages))[i], Flatten(RowsOf(pages))[j];
            match query.sort
            case Recent => a.createdAt >= b.createdAt && (a.createdAt == b.createdAt ==> a.id > b.id)
            case ExpiresOn => a.expiresOn <= b.expiresOn && (a.expiresOn == b.expiresOn ==> a.id < b.id)
            case PurchaseDate => a.paymentDate >= b.paymentDate && (a.paymentDate == b.paymentDate ==> a.id > b.id)
            case Title => if a.itemName == b.itemName then a.id < b.id else db.collate(a.itemName, b.itemName)
  {
    var shown := Flatten(RowsOf(pages));
    ScrollMissesNothing(db, wire, query, days, tables, pages, shown[i]);
    assert OrderedBefore(db, query.sort, shown[i], shown[j]);
    assert Laws(db.collate, shown[i].itemName, shown[i].itemName, shown[i].itemName);
  }

  predicate SameKey(sort: Sort, a: Receipt, b: Receipt) {
    a.id == b.id && CursorValueOf(sort, a) == CursorValueOf(sort, b)
  }

  /** The table holds a matching receipt with the id and sort key of `r`. */
  ghost predicate Listed(db: Database, query: Query, today: int, rows: set<Receipt>, r: Receipt) {
    exists x :: x in rows && Visible(db, query, today, x) && SameKey(query.sort, x, r)
  }

  /** On an unchanging table the pages, of whatever size, are the filtered list in order: none twice, none missing. */
  lemma ScrollShowsTheWholeList(db: Database, wire: Wire, query: Query, today: int, rows: set<Receipt>,
                                days: seq<int>, tables: seq<set<Receipt>>, pages: seq<ListPage>)
    requires Scroll(db, wire, query, days, tables, pages)
    requires forall i :: 0 <= i < |tables| ==> tables[i] == rows && days[i] == today
    ensures IsListing(ListOrder(db, query.sort), Matching(db, query, today, rows), Flatten(RowsOf(pages)))
  {
    ScrollIsFollowing(db, wire, query, days, tables, pages, false);
    PagesAreTheListing(ListOrder(db, query.sort), Matching(db, query, today, rows),
                       MatchingTables(db, query, days, tables), RowsOf(pages), query.limit);
  }

  /**
   * On an unchanging table every cursor handed out is answered, and the client is at the end after
   * exactly as many pages as the filtered receipts fill; an empty list is one empty page.
   */
  lemma ScrollEnds(db: Database, wire: Wire, query: Query, today: int, rows: set<Receipt>,
                   days: seq<int>, tables: seq<set<Receipt>>, pages: seq<ListPage>, more: bool)
    requires Scrolling(db, wire, query, days, tables, pages, more)
    requires forall i :: 0 <= i < |tables| ==> tables[i] == rows && days[i] == today
    ensures var count := PageCount(|Matching(db, query, today, rows)|, query.limit);
            if more then |pages| < count else |pages| == count
    ensures UniqueIds(rows)
    ensures more ==> ListByUser(db, wire, query, today, rows, CursorSent(pages, |pages|)).Some?
  {
    assert tables[0] == rows;
    ScrollIsFollowing(db, wire, query, days, tables, pages, more);
    FollowingEnds(ListOrder(db, query.sort), Matching(db, query, today, rows),
                  MatchingTables(db, query, days, tables), RowsOf(pages), query.limit, more);
    if more {
      CursorsNameLastRows(db, wire, query, days, tables, pages, more, |pages|);
      RequestIsKeysetPage(db, wire, query, today, rows, CursorOf(RowsOf(pages), |pages|));
    }
  }

  /**
   * A request is refused exactly if its cursor cannot be read, or was made for another sort or kind of
   * sort key. Cursors handed out under another sort are among the refused.
   */
  lemma RefusedExactly(db: Database, wire: Wire, query: Query, today: int, rows: set<Receipt>, cursor: Option<string>,
                       other: Sort, r: Receipt)
    requires Deterministic(db) && UniqueIds(rows)
    ensures ListByUser(db, wire, query, today, rows, cursor).None? <==>
            && cursor.Some?
            && var read := wire.unpack(Repad(cursor.value));
               read.Some? ==> read.value.sort != query.sort || (read.value.value.Text? <==> !query.sort.Title?)
    ensures Lawful(wire) && other != query.sort ==>
              ListByUser(db, wire, query, today, rows, Some(EncodeCursor(wire, other, r))).None?
  {
    if Lawful(wire) { CursorRoundTrip(wire, other, query.sort, r); }
  }

  /** A page hands out a cursor exactly if it announces another page, and announces one only if rows are left. */
  lemma CursorExactlyIfMore(db: Database, wire: Wire, query: Query, today: int, rows: set<Receipt>,
                            last: Option<Receipt>, page: ListPage)
    requires Deterministic(db) && Lawful(wire) && UniqueIds(rows) && query.limit >= 1
    requires ListByUser(db, wire, query, today, rows, WireCursor(wire, query.sort, last)) == Some(page)
    ensures page.nextCursor.Some? <==> page.hasNext
    ensures page.hasNext <==>
            |After(ListOrder(db, query.sort), Matching(db, query, today, rows), last)| > query.limit
  {
    var before := ListOrder(db, query.sort);
    RequestIsKeysetPage(db, wire, query, today, rows, last);
    var left := After(before, Matching(db, query, today, rows), last);
    FetchedPage(before, left, query.limit);
    ListingLength(before, left, Listing(before, left));
  }

  /** What the query asks for, by the columns of a receipt and the status shown on it. */
  predicate AskedFor(db: Database, query: Query, today: int, r: Receipt) {
    && r.userId == query.userId
    && (query.category.Some? ==> r.category == query.category)
    && (query.status.Only? ==> Warranty.StatusOf(r.expiresOn, today) == query.status.status)
    && (query.q.Some? ==>
          || Contains(db, query.q.value, r.itemName)
          || (r.brandName.Some? && Contains(db, query.q.value, r.brandName.value))
          || (r.paymentLocation.Some? && Contains(db, query.q.value, r.paymentLocation.value))
          || (r.memo.Some? && Contains(db, query.q.value, r.memo.value)))
  }

  lemma VisibleMeansAskedFor(db: Database, query: Query, today: int, r: Receipt)
    ensures Visible(db, query, today, r) <==> AskedFor(db, query, today, r)
  {
    StatusFilterAgreesWithStatus(query.status, today, r);
    if query.q.Some? { KeywordFilterIsSubstringSearch(db, query, today, r, query.q.value); }
  }

  /**
   * On an unchanging table a finished scroll shows exactly the receipts that the query asks for, none
   * twice, and every page states their number.
   */
  lemma ScrollShowsExactlyTheAskedFor(db: Database, wire: Wire, query: Query, today: int, rows: set<Receipt>,
                                      days: seq<int>, tables: seq<set<Receipt>>, pages: seq<ListPage>)
    requires Scroll(db, wire, query, days, tables, pages)
    requires forall i :: 0 <= i < |tables| ==> tables[i] == rows && days[i] == today
    ensures forall r :: r in Flatten(RowsOf(pages)) <==> r in rows && AskedFor(db, query, today, r)
    ensures var shown := Flatten(RowsOf(pages));
            forall i, j :: 0 <= i < j < |shown| ==> shown[i] != shown[j]
    ensures forall i :: 0 <= i < |pages| ==> pages[i].totalCount == |set r | r in rows && AskedFor(db, query, today, r)|
  {
    ScrollShowsTheWholeList(db, wire, query, today, rows, days, tables, pages);
    MatchingIsAskedFor(db, query, today, rows);
    forall i | 0 <= i < |pages|
      ensures pages[i].totalCount == |set r | r in rows && AskedFor(db, query, today, r)|
    {
      assert Served(db, wire, query, days, tables, pages, false, i);
    }
    var shown := Flatten(RowsOf(pages));
    forall i, j | 0 <= i < j < |shown| ensures shown[i] != shown[j] {
      ListOrderLaws(db, query.sort, shown[i], shown[j], shown[i]);
    }
  }

  lemma MatchingIsAskedFor(db: Database, query: Query, today: int, rows: set<Receipt>)
    ensures Matching(db, query, today, rows) == set r | r in rows && AskedFor(db, query, today, r)
  {
    forall r ensures Visible(db, query, today, r) <==> AskedFor(db, query, today, r) {
      VisibleMeansAskedFor(db, query, today, r);
    }
  }
}
