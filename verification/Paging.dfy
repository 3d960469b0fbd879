/** Pages of query results, the links between them, and walks along the links. */
module Paging {
  import opened Common
  import opened Text
  import opened Filtering
  import opened ApiIdentities

  // ----- Requests and links -----

  /** The query parameters of a request other than `limit` and `offset`, each with the values given for it. */
  type Params = map<string, seq<string>>

  datatype Request = Request(params: Params, limit: Option<nat>, offset: Option<nat>) {
    function Start(): nat {
      if offset.Some? then offset.value else 0
    }
  }

  datatype Link = ToSelf | ToCollection | Next(request: Request) | Prev(request: Request)

  /** The generic collections use one value per parameter, the mapping collections all of them. */
  datatype Style = Records | Mapping

  predicate WellFormed(params: Params) {
    forall k :: k in params ==> params[k] != []
  }

  function FirstOnly(params: Params): Params
    requires WellFormed(params)
  {
    map k | k in params :: [params[k][0]]
  }

  function LastOnly(params: Params): Params
    requires WellFormed(params)
  {
    map k | k in params :: [Last(params[k])]
  }

  /** The parameters as the query uses them. */
  function Seen(style: Style, params: Params): Params
    requires WellFormed(params)
  {
    match style
    case Records => LastOnly(params)
    case Mapping => params
  }

  /** The parameters as the link builder reads them from the URL: blank values are dropped. */
  function Parsed(params: Params): (r: Params)
    ensures WellFormed(r)
  {
    map k | k in params && NonEmpty(params[k]) != [] :: NonEmpty(params[k])
  }

  /** The parameters as a link repeats them. */
  function Repeated(style: Style, params: Params): (r: Params)
    ensures WellFormed(r)
  {
    match style
    case Records => FirstOnly(Parsed(params))
    case Mapping => Parsed(params)
  }

  function PageLink(style: Style, request: Request, offset: nat, limit: nat): Request
    requires WellFormed(request.params)
  {
    Request(Repeated(style, request.params), Some(limit), Some(offset))
  }

  function Minus(a: nat, b: nat): nat {
    if a <= b then 0 else a - b
  }

  /** The link to the next page, if this page is full. */
  function NextRequest(style: Style, request: Request, limit: Option<nat>, returned: nat): Option<Request>
    requires WellFormed(request.params)
  {
    if limit.Some? && returned == limit.value
    then Some(PageLink(style, request, request.Start() + limit.value, limit.value)) else None
  }

  /** The link to the previous page, if this is not the first. */
  function PrevRequest(style: Style, request: Request, limit: Option<nat>): Option<Request>
    requires WellFormed(request.params)
  {
    if limit.Some? && request.Start() > 0
    then Some(PageLink(style, request, Minus(request.Start(), limit.value), limit.value)) else None
  }

  function NextLinks(next: Option<Request>): seq<Link> {
    if next.Some? then [Next(next.value)] else []
  }

  function PrevLinks(prev: Option<Request>): seq<Link> {
    if prev.Some? then [Prev(prev.value)] else []
  }

  /** `create_ogc_records_response`: the links of a page of the generic collections. */
  method CreateRecordsResponse(request: Request, limit: Option<nat>, page: seq<Row>) returns (links: seq<Link>)
    requires WellFormed(request.params)
    ensures links == [ToSelf, ToCollection] + NextLinks(NextRequest(Records, request, limit, |page|))
                     + PrevLinks(PrevRequest(Records, request, limit))
    ensures forall r :: Next(r) in links <==> NextRequest(Records, request, limit, |page|) == Some(r)
    ensures forall r :: Prev(r) in links <==> PrevRequest(Records, request, limit) == Some(r)
  {
    links := [ToSelf, ToCollection];
    if limit.Some? {
      var currentOffset := if request.offset.Some? then request.offset.value else 0;
      var queryParams := request.(params := Parsed(request.params));
      if |page| == limit.value {
        queryParams := queryParams.(offset := Some(currentOffset + limit.value), limit := limit);
        links := links + [Next(queryParams.(params := FirstOnly(queryParams.params)))];
      }
      if currentOffset > 0 {
        var newOffset := if currentOffset - limit.value > 0 then currentOffset - limit.value else 0;
        queryParams := queryParams.(offset := Some(newOffset), limit := limit);
        links := links + [Prev(queryParams.(params := FirstOnly(queryParams.params)))];
      }
    }
  }

  /** `_query_records`, after the query: the links of a page of the mapping collections. */
  method QueryRecordsLinks(request: Request, limit: Option<nat>, page: seq<Row>) returns (links: seq<Link>)
    requires WellFormed(request.params)
    ensures page == [] ==> links == [ToSelf]
    ensures page != [] ==> links == [ToSelf, ToCollection] + NextLinks(NextRequest(Mapping, request, limit, |page|))
    ensures forall r :: Next(r) in links <==> page != [] && NextRequest(Mapping, request, limit, |page|) == Some(r)
  {
    links := [ToSelf];
    if page == [] {
      return;
    }
    links := links + [ToCollection];
    if limit.Some? && |page| == limit.value {
      var offset := if request.offset.Some? then request.offset.value else 0;
      links := links + [Next(Request(Parsed(request.params), limit, Some(offset + limit.value)))];
    }
  }

  // ----- Ordered queries -----

  /** `ORDER BY` the columns, ascending, NULL last. */
  predicate RowLe(columns: seq<string>, a: Row, b: Row) {
    columns == [] ||
    var u, v := Column(a, columns[0]), Column(b, columns[0]);
    if u != v then Precedes(u, v) else RowLe(columns[1..], a, b)
  }

  predicate SameKey(columns: seq<string>, a: Row, b: Row) {
    columns == [] || (Column(a, columns[0]) == Column(b, columns[0]) && SameKey(columns[1..], a, b))
  }

  ghost predicate SortedBy(columns: seq<string>, rows: seq<Row>) {
    forall i, j :: 0 <= i < j < |rows| ==> RowLe(columns, rows[i], rows[j])
  }

  /** No two different rows agree on the order columns: they are the table's uniqueness key. */
  ghost predicate IsKey(columns: seq<string>, rows: seq<Row>) {
    forall a, b :: a in rows && b in rows && SameKey(columns, a, b) ==> a == b
  }

  /** A database may answer an ordered query with any arrangement of its rows that is in order. */
  ghost predicate Arranges(columns: seq<string>, rows: multiset<Row>, arrangement: seq<Row>) {
    multiset(arrangement) == rows && SortedBy(columns, arrangement)
  }

  lemma {:induction false} RowLeBothWays(columns: seq<string>, a: Row, b: Row)
    requires RowLe(columns, a, b) && RowLe(columns, b, a)
    ensures SameKey(columns, a, b)
  {
    if columns != [] {
      var u, v := Column(a, columns[0]), Column(b, columns[0]);
      if u == v {
        RowLeBothWays(columns[1..], a, b);
      } else {
        if u.Some? && v.Some? { StrLeTotal(u.value, v.value); }
        assert false;
      }
    }
  }

  lemma {:induction false} SameKeyOrdersAlike(columns: seq<string>, a: Row, b: Row, c: Row)
    requires SameKey(columns, a, b)
    ensures RowLe(columns, a, c) <==> RowLe(columns, b, c)
    ensures RowLe(columns, c, a) <==> RowLe(columns, c, b)
  {
    if columns != [] { SameKeyOrdersAlike(columns[1..], a, b, c); }
  }

  lemma HeadsAgree(columns: seq<string>, a: seq<Row>, b: seq<Row>)
    requires a != [] && b != [] && multiset(a) == multiset(b)
    requires SortedBy(columns, a) && SortedBy(columns, b) && IsKey(columns, a)
    ensures a[0] == b[0]
  {
    assert a[0] in multiset(b) && b[0] in multiset(a);
    var i :| 0 <= i < |a| && a[i] == b[0];
    var j :| 0 <= j < |b| && b[j] == a[0];
    if i > 0 && j > 0 { RowLeBothWays(columns, a[0], b[0]); }
  }

  lemma {:induction false} ArrangementsAgree(columns: seq<string>, a: seq<Row>, b: seq<Row>)
    requires multiset(a) == multiset(b) && SortedBy(columns, a) && SortedBy(columns, b) && IsKey(columns, a)
    ensures a == b
  {
    assert |a| == |multiset(a)| == |multiset(b)| == |b|;
    if a != [] {
      HeadsAgree(columns, a, b);
      assert a == [a[0]] + a[1..] && b == [b[0]] + b[1..];
      assert multiset(a[1..]) == multiset(a) - multiset{a[0]};
      assert multiset(b[1..]) == multiset(b) - multiset{b[0]};
      assert IsKey(columns, a[1..]) by { assert forall x :: x in a[1..] ==> x in a; }
      ArrangementsAgree(columns, a[1..], b[1..]);
    }
  }

  lemma {:induction false} RowLeTotal(columns: seq<string>, a: Row, b: Row)
    ensures RowLe(columns, a, b) || RowLe(columns, b, a)
  {
    if columns != [] {
      var u, v := Column(a, columns[0]), Column(b, columns[0]);
      if u == v {
        RowLeTotal(columns[1..], a, b);
      } else if u.Some? && v.Some? {
        StrLeTotal(u.value, v.value);
      }
    }
  }

  /** Rows come in ascending order of the first column on which they differ, with NULL last. */
  lemma {:induction false} RowLeIsAscending(columns: seq<string>, a: Row, b: Row, k: nat)
    requires RowLe(columns, a, b) && k < |columns|
    requires forall i :: 0 <= i < k ==> Column(a, columns[i]) == Column(b, columns[i])
    ensures Column(a, columns[k]).None? ==> Column(b, columns[k]).None?
    ensures Column(a, columns[k]).Some? && Column(b, columns[k]).Some? ==>
              StrLe(Column(a, columns[k]).value, Column(b, columns[k]).value)
  {
    if k > 0 {
      RowLeIsAscending(columns[1..], a, b, k - 1);
    } else if Column(a, columns[0]).Some? {
      StrLeTotal(Column(a, columns[0]).value, Column(a, columns[0]).value);
    }
  }

  /** Every query sees the same page boundaries exactly when the order columns are a key of the rows. */
  lemma OrderIsTotal(columns: seq<string>, rows: seq<Row>)
    requires SortedBy(columns, rows)
    ensures (forall other :: Arranges(columns, multiset(rows), other) ==> other == rows) <==> IsKey(columns, rows)
  {
    if IsKey(columns, rows) {
      forall other | Arranges(columns, multiset(rows), other) ensures other == rows {
        ArrangementsAgree(columns, rows, other);
      }
    } else {
      var a, b :| a in rows && b in rows && SameKey(columns, a, b) && a != b;
      var i :| 0 <= i < |rows| && rows[i] == a;
      var j :| 0 <= j < |rows| && rows[j] == b;
      SwapStaysSorted(columns, rows, i, j);
      var other := rows[i := b][j := a];
      assert Arranges(columns, multiset(rows), other) && other[i] != rows[i];
    }
  }

  lemma SwapStaysSorted(columns: seq<string>, rows: seq<Row>, i: nat, j: nat)
    requires i < |rows| && j < |rows| && i != j && SortedBy(columns, rows) && SameKey(columns, rows[i], rows[j])
    ensures var other := rows[i := rows[j]][j := rows[i]];
            SortedBy(columns, other) && multiset(other) == multiset(rows)
  {
    var other := rows[i := rows[j]][j := rows[i]];
    SameKeySymmetric(columns, rows[i], rows[j]);
    forall k | 0 <= k < |rows| ensures SameKey(columns, other[k], rows[k]) {
      SameKeySymmetric(columns, rows[k], rows[k]);
    }
    forall k, m | 0 <= k < m < |rows| ensures RowLe(columns, other[k], other[m]) {
      SameKeyOrdersAlike(columns, other[k], rows[k], other[m]);
      SameKeyOrdersAlike(columns, other[m], rows[m], rows[k]);
    }
  }

  lemma {:induction false} SameKeySymmetric(columns: seq<string>, a: Row, b: Row)
    ensures SameKey(columns, a, a)
    ensures SameKey(columns, a, b) ==> SameKey(columns, b, a)
  {
    if columns != [] { SameKeySymmetric(columns[1..], a, b); }
  }

  /** The columns of `_order_by_clause`: the group-by columns without the geometry. */
  function OrderColumns(groupBy: seq<string>): seq<string> {
    if groupBy == [] then []
    else (if groupBy[0] == "geometry" then [] else [groupBy[0]]) + OrderColumns(groupBy[1..])
  }

  /** They are all group-by columns but the geometry, in their order. */
  lemma {:induction false} OrderColumnsExactly(before: seq<string>, column: string, after: seq<string>)
    ensures OrderColumns(before + [column] + after) ==
            OrderColumns(before) + (if column == "geometry" then [] else [column]) + OrderColumns(after)
  {
    if before == [] {
      assert before + [column] + after == [column] + after && ([column] + after)[1..] == after;
    } else {
      assert (before + [column] + after)[1..] == before[1..] + [column] + after;
      OrderColumnsExactly(before[1..], column, after);
    }
  }

  predicate SameGeometry(groupBy: seq<string>, a: Row, b: Row) {
    "geometry" in groupBy ==> Column(a, "geometry") == Column(b, "geometry")
  }

  lemma {:induction false} OrderColumnsAndGeometry(groupBy: seq<string>, a: Row, b: Row)
    ensures SameKey(groupBy, a, b) <==> SameKey(OrderColumns(groupBy), a, b) && SameGeometry(groupBy, a, b)
  {
    if groupBy != [] {
      OrderColumnsAndGeometry(groupBy[1..], a, b);
      assert OrderColumns(groupBy)[|OrderColumns(groupBy)| - |OrderColumns(groupBy[1..])|..] == OrderColumns(groupBy[1..]);
      assert "geometry" in groupBy <==> groupBy[0] == "geometry" || "geometry" in groupBy[1..];
    }
  }

  /**
   * For a table whose group-by columns are its key, the order of the generic collections is total exactly when
   * rows that agree on the other columns also agree on the geometry that the order leaves out.
   */
  lemma OrderColumnsAreKey(groupBy: seq<string>, rows: seq<Row>)
    requires IsKey(groupBy, rows)
    ensures IsKey(OrderColumns(groupBy), rows) <==>
            forall a, b :: a in rows && b in rows && SameKey(OrderColumns(groupBy), a, b) ==> SameGeometry(groupBy, a, b)
  {
    forall a, b | a in rows && b in rows
      ensures SameKey(groupBy, a, b) <==> SameKey(OrderColumns(groupBy), a, b) && SameGeometry(groupBy, a, b)
    {
      OrderColumnsAndGeometry(groupBy, a, b);
    }
  }

  // ----- Walks -----

  function Within(k: nat, length: nat): (m: nat)
    ensures m <= length && (k <= length ==> m == k) && (k >= length ==> m == length)
  {
    if k <= length then k else length
  }

  function PageEnd(start: nat, limit: Option<nat>, length: nat): (m: nat)
    ensures m <= length
  {
    if limit.None? then length else Within(start + limit.value, length)
  }

  /** `LIMIT` and `OFFSET` on an arrangement. */
  function Page(rows: seq<Row>, start: nat, limit: Option<nat>): seq<Row> {
    rows[Within(start, |rows|)..PageEnd(start, limit, |rows|)]
  }

  /**
   * What the database arranges for the n-th request of a walk: the rows matching its filters, in an order that
   * may differ from one request to the next wherever `ORDER BY` leaves it open.
   */
  type Database = (Params, nat) -> seq<Row>

  /** A fixed table, ordered by columns that are a key of the matching rows. */
  ghost predicate Stable(db: Database, columns: seq<string>, filters: Params) {
    && IsKey(columns, db(filters, 0))
    && forall n: nat :: Arranges(columns, multiset(db(filters, 0)), db(filters, n))
  }

  function Served(style: Style, db: Database, cap: Option<nat>, request: Request, n: nat): seq<Row>
    requires WellFormed(request.params)
  {
    Page(db(Seen(style, request.params), n), request.Start(), EffectiveLimit(cap, request.limit))
  }

  function Follow(style: Style, db: Database, cap: Option<nat>, request: Request, n: nat): Option<Request>
    requires WellFormed(request.params)
  {
    NextRequest(style, request, EffectiveLimit(cap, request.limit), |Served(style, db, cap, request, n)|)
  }

  /** The request that the n-th `next` link leads to. */
  function Nth(style: Style, db: Database, cap: Option<nat>, request: Request, n: nat): (r: Option<Request>)
    requires WellFormed(request.params)
    ensures r.Some? ==> WellFormed(r.value.params)
  {
    if n == 0 then Some(request)
    else
      var before := Nth(style, db, cap, request, n - 1);
      if before.None? then None else Follow(style, db, cap, before.value, n - 1)
  }

  function PageFor(style: Style, db: Database, cap: Option<nat>, request: Option<Request>, n: nat): seq<Row>
    requires request.Some? ==> WellFormed(request.value.params)
  {
    if request.None? then [] else Served(style, db, cap, request.value, n)
  }

  /** The rows the n-th request of the walk is served, none if there is no such request. */
  function NthPage(style: Style, db: Database, cap: Option<nat>, request: Request, n: nat): seq<Row>
    requires WellFormed(request.params)
  {
    PageFor(style, db, cap, Nth(style, db, cap, request, n), n)
  }

  function Concat(pages: seq<seq<Row>>): seq<Row> {
    if pages == [] then [] else Concat(pages[..|pages| - 1]) + Last(pages)
  }

  /** All rows served by the first n requests of the walk, in order. */
  function Visited(style: Style, db: Database, cap: Option<nat>, request: Request, n: nat): seq<Row>
    requires WellFormed(request.params)
  {
    Concat(seq(n, k requires 0 <= k < n => NthPage(style, db, cap, request, k)))
  }

  /** Every parameter's first value that is not blank is its last value, for instance because each is given once. */
  predicate GivenOnce(params: Params)
    requires WellFormed(params)
  {
    forall k :: k in params ==> NonEmpty(params[k]) != [] && NonEmpty(params[k])[0] == Last(params[k])
  }

  /** No value is blank. */
  predicate NoBlanks(params: Params) {
    forall k :: k in params ==> "" !in params[k]
  }

  /** Links keep the parameters. */
  predicate Repeatable(style: Style, params: Params)
    requires WellFormed(params)
  {
    match style
    case Records => GivenOnce(params)
    case Mapping => NoBlanks(params)
  }

  lemma {:induction false} NonEmptyIsAll(values: seq<string>)
    ensures NonEmpty(values) == values <==> "" !in values
  {
    if values != [] {
      NonEmptyIsAll(values[1..]);
      assert values == [values[0]] + values[1..];
    }
  }

  lemma ParsedIsAll(params: Params)
    requires WellFormed(params)
    ensures Parsed(params) == params <==> NoBlanks(params)
  {
    forall k | k in params ensures NonEmpty(params[k]) == params[k] <==> "" !in params[k] { NonEmptyIsAll(params[k]); }
    if Parsed(params) == params {
      forall k | k in params ensures "" !in params[k] { assert Parsed(params)[k] == params[k]; }
    }
  }

  lemma RepeatedFirst(params: Params)
    ensures forall k :: k in LastOnly(FirstOnly(Parsed(params))) <==> k in params && NonEmpty(params[k]) != []
    ensures forall k :: k in LastOnly(FirstOnly(Parsed(params))) ==>
              LastOnly(FirstOnly(Parsed(params)))[k] == [NonEmpty(params[k])[0]]
  {
  }

  lemma FirstIsLast(params: Params)
    requires WellFormed(params)
    ensures LastOnly(FirstOnly(Parsed(params))) == LastOnly(params) <==> GivenOnce(params)
  {
    var repeated, seen := LastOnly(FirstOnly(Parsed(params))), LastOnly(params);
    RepeatedFirst(params);
    if repeated == seen {
      forall k | k in params ensures NonEmpty(params[k]) != [] && NonEmpty(params[k])[0] == Last(params[k]) {
        assert k in seen && seen[k] == [Last(params[k])] && k in repeated;
      }
    }
  }

  /** A page link asks for the same rows as the request it is on, exactly when repeating the parameters is safe. */
  lemma LinkKeepsFilters(style: Style, request: Request, offset: nat, limit: nat)
    requires WellFormed(request.params)
    ensures Seen(style, PageLink(style, request, offset, limit).params) == Seen(style, request.params) <==>
            Repeatable(style, request.params)
  {
    match style
    case Records => FirstIsLast(request.params);
    case Mapping => ParsedIsAll(request.params);
  }

  /** What a link repeats, the next link repeats as well. */
  lemma RepeatedIsRepeatable(style: Style, params: Params)
    ensures Repeatable(style, Repeated(style, params)) && Repeated(style, Repeated(style, params)) == Repeated(style, params)
  {
    var r := Repeated(style, params);
    forall k | k in r ensures "" !in r[k] {
      assert r[k] == if style.Records? then [NonEmpty(params[k])[0]] else NonEmpty(params[k]);
      assert NonEmpty(params[k])[0] in NonEmpty(params[k]);
    }
    ParsedIsAll(r);
    if style.Records? {
      forall k | k in r ensures NonEmpty(r[k]) == r[k] { NonEmptyIsAll(r[k]); }
    }
  }

  /** Every request of the walk sees the same rows in the same order. */
  ghost predicate Fixed(db: Database, filters: Params, rows: seq<Row>) {
    forall n: nat :: db(filters, n) == rows
  }

  lemma StableIsFixed(db: Database, columns: seq<string>, filters: Params)
    requires Stable(db, columns, filters)
    ensures Fixed(db, filters, db(filters, 0))
  {
    forall n: nat ensures db(filters, n) == db(filters, 0) {
      assert Arranges(columns, multiset(db(filters, 0)), db(filters, 0));
      ArrangementsAgree(columns, db(filters, 0), db(filters, n));
    }
  }

  /** A request of the walk: it asks for the rows of the first one, `limit` at a time, from `start`. */
  predicate InWalk(style: Style, filters: Params, cap: Option<nat>, request: Request, limit: nat, start: nat) {
    && WellFormed(request.params) && Repeatable(style, request.params) && Seen(style, request.params) == filters
    && EffectiveLimit(cap, request.limit) == Some(limit) && request.Start() == start
  }

  /** The `next` link is there exactly when the page is full, and leads on by one page. */
  lemma NextInWalk(style: Style, db: Database, rows: seq<Row>, cap: Option<nat>, request: Request,
                   filters: Params, limit: nat, start: nat, n: nat)
    requires InWalk(style, filters, cap, request, limit, start) && limit > 0 && Fixed(db, filters, rows)
    ensures var next := Follow(style, db, cap, request, n);
            && Served(style, db, cap, request, n) == Page(rows, start, Some(limit))
            && (next.Some? <==> start + limit <= |rows|)
            && (next.Some? ==> InWalk(style, filters, cap, next.value, limit, start + limit))
  {
    LinkKeepsFilters(style, request, start + limit, limit);
    RepeatedIsRepeatable(style, request.params);
  }

  /** The number of rows on n full pages. */
  function Rows(n: nat, limit: nat): nat {
    if n == 0 then 0 else Rows(n - 1, limit) + limit
  }

  lemma {:induction false} NthInWalk(style: Style, db: Database, rows: seq<Row>, cap: Option<nat>,
                                     request: Request, filters: Params, limit: nat, start: nat, n: nat)
    requires InWalk(style, filters, cap, request, limit, start) && limit > 0 && Fixed(db, filters, rows)
    ensures var nth := Nth(style, db, cap, request, n);
            && (nth.Some? <==> n == 0 || start + Rows(n, limit) <= |rows|)
            && (nth.Some? ==> InWalk(style, filters, cap, nth.value, limit, start + Rows(n, limit)))
  {
    if n > 0 {
      NthInWalk(style, db, rows, cap, request, filters, limit, start, n - 1);
      var before := Nth(style, db, cap, request, n - 1);
      if before.Some? {
        NextInWalk(style, db, rows, cap, before.value, filters, limit, start + Rows(n - 1, limit), n - 1);
      }
    }
  }

  lemma PageForInWalk(style: Style, db: Database, rows: seq<Row>, cap: Option<nat>,
                      request: Option<Request>, filters: Params, limit: nat, start: nat, n: nat)
    requires limit > 0 && Fixed(db, filters, rows)
    requires request.None? ==> start > |rows|
    requires request.Some? ==> InWalk(style, filters, cap, request.value, limit, start)
    ensures PageFor(style, db, cap, request, n) == Page(rows, start, Some(limit))
  {
  }

  lemma NthPageInWalk(style: Style, db: Database, rows: seq<Row>, cap: Option<nat>,
                      request: Request, filters: Params, limit: nat, start: nat, n: nat)
    requires InWalk(style, filters, cap, request, limit, start) && limit > 0 && Fixed(db, filters, rows)
    ensures NthPage(style, db, cap, request, n) == Page(rows, start + Rows(n, limit), Some(limit))
  {
    var nth, from := Nth(style, db, cap, request, n), start + Rows(n, limit);
    NthInWalk(style, db, rows, cap, request, filters, limit, start, n);
    PageForInWalk(style, db, rows, cap, nth, filters, limit, from, n);
  }

  /** The pages are those of the rows, one after the other. */
  ghost predicate Consecutive(pages: seq<seq<Row>>, rows: seq<Row>, start: nat, limit: nat) {
    forall k {:trigger pages[k]} :: 0 <= k < |pages| ==> pages[k] == Page(rows, start + Rows(k, limit), Some(limit))
  }

  lemma {:induction false} ConcatPages(pages: seq<seq<Row>>, rows: seq<Row>, start: nat, limit: nat)
    requires Consecutive(pages, rows, start, limit)
    ensures Concat(pages) == Page(rows, start, Some(Rows(|pages|, limit)))
  {
    if pages != [] {
      var n := |pages| - 1;
      var before := pages[..n];
      assert Consecutive(before, rows, start, limit) by { assert forall k :: 0 <= k < n ==> before[k] == pages[k]; }
      ConcatPages(before, rows, start, limit);
      assert Concat(pages) == Concat(before) + pages[n] && Rows(|pages|, limit) == Rows(n, limit) + limit;
      PagesJoin(rows, start, Rows(n, limit), limit);
    }
  }

  lemma PagesJoin(rows: seq<Row>, start: nat, done: nat, limit: nat)
    ensures Page(rows, start, Some(done)) + Page(rows, start + done, Some(limit)) == Page(rows, start, Some(done + limit))
  {
  }

  lemma VisitedInWalk(style: Style, db: Database, rows: seq<Row>, cap: Option<nat>, request: Request,
                      filters: Params, limit: nat, start: nat, n: nat)
    requires InWalk(style, filters, cap, request, limit, start) && limit > 0 && Fixed(db, filters, rows)
    ensures Visited(style, db, cap, request, n) == Page(rows, start, Some(Rows(n, limit)))
  {
    var pages := seq(n, k requires 0 <= k < n => NthPage(style, db, cap, request, k));
    forall k {:trigger pages[k]} | 0 <= k < |pages| ensures pages[k] == Page(rows, start + Rows(k, limit), Some(limit)) {
      NthPageInWalk(style, db, rows, cap, request, filters, limit, start, k);
    }
    ConcatPages(pages, rows, start, limit);
  }

  lemma VisitedAll(style: Style, db: Database, rows: seq<Row>, cap: Option<nat>, request: Request,
                   filters: Params, limit: nat, start: nat, n: nat)
    requires InWalk(style, filters, cap, request, limit, start) && limit > 0 && Fixed(db, filters, rows)
    requires Rows(n, limit) > Minus(|rows|, start)
    ensures Visited(style, db, cap, request, n) == Page(rows, start, None)
  {
    VisitedInWalk(style, db, rows, cap, request, filters, limit, start, n);
  }

  lemma WalkLength(style: Style, db: Database, rows: seq<Row>, cap: Option<nat>, request: Request,
                   filters: Params, limit: nat, start: nat, n: nat)
    requires InWalk(style, filters, cap, request, limit, start) && limit > 0 && Fixed(db, filters, rows)
    ensures Nth(style, db, cap, request, n).Some? <==> n <= Minus(|rows|, start) / limit
  {
    NthInWalk(style, db, rows, cap, request, filters, limit, start, n);
    PageCount(Minus(|rows|, start), limit, n);
    if n > 0 { RowsGrow(n, limit); }
  }

  lemma RowsGrow(n: nat, limit: nat)
    requires n > 0
    ensures Rows(n, limit) >= limit
  {
  }

  lemma {:induction false} RowsIsProduct(n: nat, limit: nat)
    ensures Rows(n, limit) == n * limit
  {
    if n > 0 { RowsIsProduct(n - 1, limit); }
  }

  lemma ProductGrows(a: nat, b: nat, m: nat)
    requires a <= b
    ensures a * m <= b * m
  {
  }

  lemma PageCount(left: nat, limit: nat, n: nat)
    requires limit > 0
    ensures n <= left / limit <==> Rows(n, limit) <= left
  {
    var full := left / limit;
    RowsIsProduct(n, limit);
    assert left == full * limit + left % limit;
    assert (full + 1) * limit == full * limit + limit;
    if n <= full {
      ProductGrows(n, full, limit);
    } else {
      ProductGrows(full + 1, n, limit);
    }
  }

  lemma FixedWalk(style: Style, db: Database, rows: seq<Row>, cap: Option<nat>, request: Request,
                  filters: Params, limit: nat, start: nat)
    requires InWalk(style, filters, cap, request, limit, start) && limit > 0 && Fixed(db, filters, rows)
    ensures var pages := Minus(|rows|, start) / limit + 1;
            && (forall n: nat :: Nth(style, db, cap, request, n).Some? <==> n < pages)
            && Visited(style, db, cap, request, pages) == Page(rows, start, None)
  {
    var pages := Minus(|rows|, start) / limit + 1;
    forall n: nat ensures Nth(style, db, cap, request, n).Some? <==> n < pages {
      WalkLength(style, db, rows, cap, request, filters, limit, start, n);
    }
    PageCount(Minus(|rows|, start), limit, pages);
    VisitedAll(style, db, rows, cap, request, filters, limit, start, pages);
  }

  /**
   * Following `next` from a request serves every matching row from its offset on exactly once and in order,
   * and stops after floor(N/L) + 1 pages, where N counts those rows and L is the effective limit.
   */
  lemma WalkVisitsEverything(style: Style, db: Database, columns: seq<string>, cap: Option<nat>, request: Request,
                             limit: nat)
    requires WellFormed(request.params) && Repeatable(style, request.params)
    requires Stable(db, columns, Seen(style, request.params))
    requires EffectiveLimit(cap, request.limit) == Some(limit) && limit > 0
    ensures var rows := db(Seen(style, request.params), 0);
            var pages := Minus(|rows|, request.Start()) / limit + 1;
            && (forall n: nat :: Nth(style, db, cap, request, n).Some? <==> n < pages)
            && Visited(style, db, cap, request, pages) == Page(rows, request.Start(), None)
  {
    var filters := Seen(style, request.params);
    StableIsFixed(db, columns, filters);
    FixedWalk(style, db, db(filters, 0), cap, request, filters, limit, request.Start());
  }

  /** A request without an offset is served the first rows, and one with an offset the rows after that many. */
  lemma ServedFromOffset(style: Style, db: Database, cap: Option<nat>, request: Request, limit: nat, n: nat)
    requires WellFormed(request.params) && EffectiveLimit(cap, request.limit) == Some(limit)
    ensures var rows, page := db(Seen(style, request.params), n), Served(style, db, cap, request, n);
            && (request.offset.None? ==> page == rows[..if limit <= |rows| then limit else |rows|])
            && (request.offset.Some? && request.offset.value >= |rows| ==> page == [])
            && (request.offset.Some? && request.offset.value < |rows| ==>
                  var rest := rows[request.offset.value..]; page == rest[..if limit <= |rest| then limit else |rest|])
  {
  }

  /** A request without a limit, from a caller without a cap, is answered in one page without links to others. */
  lemma UnlimitedIsOnePage(style: Style, db: Database, cap: Option<nat>, request: Request)
    requires WellFormed(request.params) && EffectiveLimit(cap, request.limit).None?
    ensures Served(style, db, cap, request, 0) == Page(db(Seen(style, request.params), 0), request.Start(), None)
    ensures Follow(style, db, cap, request, 0).None?
  {
  }

  /** `prev` leads back by one page, or to the start from within the first. */
  lemma PrevLeadsBack(style: Style, request: Request, limit: nat)
    requires WellFormed(request.params) && limit > 0
    ensures var prev := PrevRequest(style, request, Some(limit));
            && (prev.Some? <==> request.Start() != 0)
            && (prev.Some? ==>
                  && prev.value.limit == Some(limit) && prev.value.Start() < request.Start()
                  && (prev.value.Start() + limit == request.Start() ||
                      (prev.value.Start() == 0 && request.Start() < limit)))
  {
  }

  /** `prev` of `next` is the same page. */
  lemma PrevOfNext(db: Database, columns: seq<string>, cap: Option<nat>, request: Request, limit: nat, n: nat, m: nat)
    requires WellFormed(request.params) && GivenOnce(request.params)
    requires Stable(db, columns, Seen(Records, request.params))
    requires EffectiveLimit(cap, request.limit) == Some(limit) && limit > 0
    requires Follow(Records, db, cap, request, n).Some?
    ensures var next := Follow(Records, db, cap, request, n).value;
            var prev := PrevRequest(Records, next, EffectiveLimit(cap, next.limit));
            && prev.Some?
            && Served(Records, db, cap, prev.value, m) == Served(Records, db, cap, request, n)
            && Follow(Records, db, cap, prev.value, m) == Some(next)
  {
    var filters, start := Seen(Records, request.params), request.Start();
    var rows := db(filters, 0);
    StableIsFixed(db, columns, filters);
    NextInWalk(Records, db, rows, cap, request, filters, limit, start, n);
    var next := Follow(Records, db, cap, request, n).value;
    RepeatedIsRepeatable(Records, request.params);
    LinkKeepsFilters(Records, next, start, limit);
    var prev := PrevRequest(Records, next, EffectiveLimit(cap, next.limit)).value;
    NextInWalk(Records, db, rows, cap, prev, filters, limit, start, m);
  }
}
