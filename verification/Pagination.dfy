/** The cursors of pagination.py: the JSON text of a key, as unpadded URL-safe base64. */
module Cursors {
  import opened Prelude
  import opened Base64Url

  /** The sort key: time in microseconds UTC, then the identifier as a number. */
  datatype Key = Key(time: int, id: nat)

  /** JSON text of a key and its reader. */
  datatype Format = Format(render: Key -> seq<Byte>, parse: seq<int> -> Option<Key>)

  function EncodeCursor(fmt: Format, k: Key): string {
    Encode(fmt.render(k))
  }

  function DecodeCursor(fmt: Format, cursor: string): Option<Key> {
    var raw := Decode(cursor);
    if raw.Some? then fmt.parse(raw.value) else None
  }

  /** A cursor is not empty, and decodes to its key if the JSON text does. */
  lemma CursorRoundTrip(fmt: Format, k: Key)
    requires fmt.render(k) != [] && fmt.parse(fmt.render(k)) == Some(k)
    ensures DecodeCursor(fmt, EncodeCursor(fmt, k)) == Some(k) && EncodeCursor(fmt, k) != ""
  {
    RoundTrip(fmt.render(k));
  }
}

/** Keyset pagination of the detections and alerts lists (anomalies_alerts.py): a page fetches one row
    more than it shows, and its cursor names the last row shown. */
module Pagination {
  import opened Prelude
  import opened Cursors

  datatype Row = Row(key: Key, session: Option<nat>, domain: string, disposition: string, severity: string)

  /** The values that the filters accept, and the cursor of a key with its reader. */
  datatype Api = Api(words: Vocabulary, encode: Key -> string, decode: string -> Option<Key>)

  datatype Vocabulary = Vocabulary(domains: set<string>, dispositions: set<string>, severities: set<string>)

  /** The database's row comparison. */
  predicate Less(a: Key, b: Key) {
    a.time < b.time || (a.time == b.time && a.id < b.id)
  }

  /** It orders all keys, by time first. */
  lemma KeysAreOrdered(a: Key, b: Key, c: Key)
    ensures a == b || Less(a, b) || Less(b, a)
    ensures !(Less(a, b) && Less(b, a)) && !Less(a, a)
    ensures Less(a, b) && Less(b, c) ==> Less(a, c)
    ensures a.time < b.time ==> Less(a, b)
    ensures a.time == b.time ==> (Less(a, b) <==> a.id < b.id)
  {
  }

  /** The cursor of this key is not empty and is read back. */
  ghost predicate ReadsBack(api: Api, k: Key) {
    api.encode(k) != "" && api.decode(api.encode(k)) == Some(k)
  }

  // --- The query ---

  datatype Clause = InSession(id: nat) | InDomain(name: string) | WithDisposition(name: string)
    | WithSeverity(name: string) | Before(key: Key)

  predicate Holds(c: Clause, r: Row) {
    match c
    case InSession(id) => r.session == Some(id)
    case InDomain(name) => r.domain == name
    case WithDisposition(name) => r.disposition == name
    case WithSeverity(name) => r.severity == name
    case Before(key) => Less(r.key, key)
  }

  predicate AllHold(clauses: seq<Clause>, r: Row) {
    forall i :: 0 <= i < |clauses| ==> Holds(clauses[i], r)
  }

  /** WHERE; the table is given in the order of ORDER BY. */
  function Where(table: seq<Row>, clauses: seq<Clause>): seq<Row> {
    if table == [] then []
    else (if AllHold(clauses, table[0]) then [table[0]] else []) + Where(table[1..], clauses)
  }

  function Select(table: seq<Row>, clauses: seq<Clause>, limit: nat): seq<Row> {
    var rows := Where(table, clauses);
    rows[..Min(limit, |rows|)]
  }

  /** Newest first; keys are unique because identifiers are. */
  ghost predicate Descending(rows: seq<Row>) {
    forall i, j :: 0 <= i < j < |rows| ==> Less(rows[j].key, rows[i].key)
  }

  // --- The request ---

  /** Optional parameters; empty strings count as absent. */
  datatype Request = Request(session: Option<nat>, domain: string, disposition: string, severity: string)

  datatype Page = Page(items: seq<Row>, hasMore: bool, next: Option<string>)

  datatype Rejection = BadDomain | BadDisposition | BadSeverity | BadCursor

  /** The alerts list has the same logic, with the status of an alert in place of the disposition. */
  const DETECTIONS := Vocabulary(
    {"spectrum", "wifi", "bluetooth", "technical"}, {"new", "known", "changed", "false_positive", "reviewed"},
    {"info", "low", "medium", "high", "critical"})
  const ALERTS := Vocabulary(
    {"technical", "rf_security", "wifi_security", "bluetooth_security"}, {"open", "acknowledged", "resolved"},
    {"info", "warning", "error", "critical"})

  function Filters(q: Request): seq<Clause> {
    (if q.session.Some? then [InSession(q.session.value)] else [])
    + (if q.domain != "" then [InDomain(q.domain)] else [])
    + (if q.disposition != "" then [WithDisposition(q.disposition)] else [])
    + (if q.severity != "" then [WithSeverity(q.severity)] else [])
  }

  predicate Acceptable(q: Request, api: Api) {
    && (q.domain != "" ==> q.domain in api.words.domains)
    && (q.disposition != "" ==> q.disposition in api.words.dispositions)
    && (q.severity != "" ==> q.severity in api.words.severities)
  }

  /** Where a page begins. */
  function Bound(api: Api, cursor: string): Result<seq<Clause>, Rejection> {
    if cursor == "" then Ok([])
    else
      var k := api.decode(cursor);
      if k.Some? then Ok([Before(k.value)]) else Err(BadCursor)
  }

  function PageOf(api: Api, fetched: seq<Row>, limit: nat): Page
    requires limit > 0
  {
    var rows := fetched[..Min(limit, |fetched|)];
    var more := |fetched| > limit;
    Page(rows, more, if more then Some(api.encode(rows[|rows| - 1].key)) else None)
  }

  function Listed(table: seq<Row>, q: Request, cursor: string, limit: nat, api: Api): Result<Page, Rejection>
    requires limit > 0
  {
    var filters, bound := Checked(q, api), Bound(api, cursor);
    if filters.Err? then Err(filters.error)
    else if bound.Err? then Err(bound.error)
    else Ok(PageOf(api, Select(table, filters.value + bound.value, limit + 1), limit))
  }

  /** The filters of a request, or why it is refused. */
  function Checked(q: Request, api: Api): Result<seq<Clause>, Rejection> {
    if q.domain != "" && q.domain !in api.words.domains then Err(BadDomain)
    else if q.disposition != "" && q.disposition !in api.words.dispositions then Err(BadDisposition)
    else if q.severity != "" && q.severity !in api.words.severities then Err(BadSeverity)
    else Ok(Filters(q))
  }

  /** list_detections; list_alerts differs in checking the status first, which only decides which of two
      errors is reported. */
  method ListDetections(table: seq<Row>, q: Request, cursor: string, limit: nat, api: Api)
    returns (r: Result<Page, Rejection>)
    requires 1 <= limit <= 500
    ensures r == Listed(table, q, cursor, limit, api)
    ensures r.Ok? ==>
              && |r.value.items| <= limit
              && (forall row :: row in r.value.items ==> MayBeShown(table, q, cursor, api, row))
              && (!r.value.hasMore ==> forall row :: MayBeShown(table, q, cursor, api, row) ==> row in r.value.items)
  {
    if Listed(table, q, cursor, limit, api).Ok? {
      PageIsWanted(table, q, cursor, limit, api);
    }
    var filters := CheckFilters(q, api);
    if filters.Err? {
      return Err(filters.error);
    }
    var clauses := filters.value;
    if cursor != "" {
      var key := api.decode(cursor);
      if key.None? {
        return Err(BadCursor);
      }
      clauses := clauses + [Before(key.value)];
    }
    assert Bound(api, cursor).Ok? && clauses == filters.value + Bound(api, cursor).value;
    var page := ShowPage(Select(table, clauses, limit + 1), limit, api);
    r := Ok(page);
  }

  method CheckFilters(q: Request, api: Api) returns (r: Result<seq<Clause>, Rejection>)
    ensures r == Checked(q, api)
  {
    var clauses := [];
    if q.session.Some? {
      clauses := [InSession(q.session.value)];
    }
    ghost var first := clauses;
    if q.domain != "" {
      if q.domain !in api.words.domains {
        return Err(BadDomain);
      }
      clauses := clauses + [InDomain(q.domain)];
    }
    ghost var second := if q.domain != "" then [InDomain(q.domain)] else [];
    assert clauses == first + second;
    if q.disposition != "" {
      if q.disposition !in api.words.dispositions {
        return Err(BadDisposition);
      }
      clauses := clauses + [WithDisposition(q.disposition)];
    }
    ghost var third := if q.disposition != "" then [WithDisposition(q.disposition)] else [];
    assert clauses == first + second + third;
    if q.severity != "" {
      if q.severity !in api.words.severities {
        return Err(BadSeverity);
      }
      clauses := clauses + [WithSeverity(q.severity)];
    }
    ghost var fourth := if q.severity != "" then [WithSeverity(q.severity)] else [];
    assert clauses == first + second + third + fourth;
    r := Ok(clauses);
  }

  method ShowPage(fetched: seq<Row>, limit: nat, api: Api) returns (page: Page)
    requires limit > 0
    ensures page == PageOf(api, fetched, limit)
  {
    var hasMore := |fetched| > limit;
    var rows := if hasMore then fetched[..limit] else fetched;
    var next := None;
    if hasMore && rows != [] {
      next := Some(api.encode(rows[|rows| - 1].key));
    }
    assert rows == fetched[..Min(limit, |fetched|)];
    page := Page(rows, hasMore, next);
  }

  // --- Pages follow each other ---

  lemma {:induction false} WhereKeepsOrder(table: seq<Row>, clauses: seq<Clause>)
    requires Descending(table)
    ensures Descending(Where(table, clauses))
    ensures forall i :: 0 <= i < |Where(table, clauses)| ==> Where(table, clauses)[i] in table
    decreases |table|
  {
    if table != [] {
      WhereKeepsOrder(table[1..], clauses);
      var rest := Where(table[1..], clauses);
      forall j | 0 <= j < |rest|
        ensures Less(rest[j].key, table[0].key)
      {
        var k :| 0 <= k < |table[1..]| && table[1..][k] == rest[j];
        assert table[k + 1] == rest[j];
      }
    }
  }

  lemma AddingAClause(clauses: seq<Clause>, c: Clause, r: Row)
    ensures AllHold(clauses + [c], r) <==> AllHold(clauses, r) && Holds(c, r)
  {
    if AllHold(clauses + [c], r) {
      assert (clauses + [c])[|clauses|] == c;
      assert forall i :: 0 <= i < |clauses| ==> (clauses + [c])[i] == clauses[i];
    }
  }

  lemma {:induction false} WhereTwice(table: seq<Row>, clauses: seq<Clause>, c: Clause)
    ensures Where(table, clauses + [c]) == Where(Where(table, clauses), [c])
    decreases |table|
  {
    if table != [] {
      WhereTwice(table[1..], clauses, c);
      AddingAClause(clauses, c, table[0]);
      var rest := Where(table[1..], clauses);
      assert AllHold([c], table[0]) <==> Holds(c, table[0]) by {
        assert [c][0] == c;
      }
      assert ([table[0]] + rest)[1..] == rest && [] + rest == rest;
    }
  }

  lemma {:induction false} WhereNone(rows: seq<Row>, c: Clause)
    requires forall i :: 0 <= i < |rows| ==> Holds(c, rows[i])
    ensures Where(rows, [c]) == rows
    decreases |rows|
  {
    if rows != [] {
      WhereNone(rows[1..], c);
    }
  }

  /** "Before the key of row p" selects the rows after row p. */
  lemma {:induction false} BeforeIsAfter(rows: seq<Row>, p: nat)
    requires Descending(rows) && p < |rows|
    ensures Where(rows, [Before(rows[p].key)]) == rows[p + 1..]
    decreases p
  {
    var c := Before(rows[p].key);
    assert [c][0] == c;
    assert !Holds(c, rows[0]) by {
      if p > 0 {
        assert Less(rows[p].key, rows[0].key);
      }
    }
    assert !AllHold([c], rows[0]);
    if p > 0 {
      BeforeIsAfter(rows[1..], p - 1);
      assert rows[1..][p - 1 + 1..] == rows[p + 1..];
    } else {
      WhereNone(rows[1..], c);
    }
  }

  /** The rows that a request asks for. */
  function Matching(table: seq<Row>, q: Request): seq<Row> {
    Where(table, Filters(q))
  }

  /** A cursor that continues at position p of the matching rows. */
  ghost predicate Continues(api: Api, rows: seq<Row>, cursor: string, p: nat) {
    p <= |rows| &&
    if p == 0 then cursor == "" else cursor != "" && api.decode(cursor) == Some(rows[p - 1].key)
  }

  lemma FetchedFrom(table: seq<Row>, q: Request, cursor: string, limit: nat, api: Api, p: nat)
    requires Descending(table) && Continues(api, Matching(table, q), cursor, p)
    ensures Bound(api, cursor).Ok?
    ensures Select(table, Filters(q) + Bound(api, cursor).value, limit + 1) ==
            Matching(table, q)[p..Min(p + limit + 1, |Matching(table, q)|)]
  {
    var rows := Matching(table, q);
    if p == 0 {
      assert Filters(q) + [] == Filters(q);
      assert rows[0..Min(p + limit + 1, |rows|)] == rows[..Min(limit + 1, |rows|)];
    } else {
      RowsAfter(table, q, p);
      var rest := rows[p..];
      assert rest[..Min(limit + 1, |rest|)] == rows[p..Min(p + limit + 1, |rows|)];
    }
  }

  lemma RowsAfter(table: seq<Row>, q: Request, p: nat)
    requires Descending(table) && 0 < p <= |Matching(table, q)|
    ensures Where(table, Filters(q) + [Before(Matching(table, q)[p - 1].key)]) == Matching(table, q)[p..]
  {
    WhereKeepsOrder(table, Filters(q));
    WhereTwice(table, Filters(q), Before(Matching(table, q)[p - 1].key));
    BeforeIsAfter(Matching(table, q), p - 1);
  }

  ghost predicate AllReadBack(api: Api, rows: seq<Row>) {
    forall i :: 0 <= i < |rows| ==> ReadsBack(api, rows[i].key)
  }

  /** What the list promises to serve: an ordered table, acceptable filters, keys whose text reads back. */
  ghost predicate Servable(table: seq<Row>, q: Request, api: Api) {
    Descending(table) && Acceptable(q, api) && AllReadBack(api, Matching(table, q))
  }

  /** The page shows rows p and on, and its cursor, if any, continues where it ends. */
  ghost predicate PageFrom(page: Page, rows: seq<Row>, p: nat, limit: nat, api: Api) {
    && p <= |rows|
    && var end := Min(p + limit, |rows|);
       && page.items == rows[p..end]
       && page.hasMore == page.next.Some? == (end < |rows|)
       && (page.next.Some? ==> Continues(api, rows, page.next.value, end))
  }

  ghost predicate Positive(limits: seq<nat>) {
    forall i :: 0 <= i < |limits| ==> limits[i] > 0
  }

  lemma PageOfRows(api: Api, rows: seq<Row>, p: nat, limit: nat)
    requires limit > 0 && p <= |rows| && AllReadBack(api, rows)
    ensures PageFrom(PageOf(api, rows[p..Min(p + limit + 1, |rows|)], limit), rows, p, limit, api)
  {
    var fetched := rows[p..Min(p + limit + 1, |rows|)];
    if p + limit < |rows| {
      assert fetched[..limit] == rows[p..p + limit];
      assert ReadsBack(api, rows[p + limit - 1].key);
    } else {
      assert fetched[..|fetched|] == rows[p..|rows|];
    }
  }

  /** A page shows the next `limit` matching rows and offers a cursor exactly if rows are left; the
      cursor continues where the page ends. */
  lemma PageContinues(table: seq<Row>, q: Request, cursor: string, limit: nat, api: Api, p: nat)
    requires Servable(table, q, api) && limit > 0 && Continues(api, Matching(table, q), cursor, p)
    ensures var r := Listed(table, q, cursor, limit, api);
            r.Ok? && PageFrom(r.value, Matching(table, q), p, limit, api)
  {
    FetchedFrom(table, q, cursor, limit, api, p);
    PageOfRows(api, Matching(table, q), p, limit);
  }

  /** The rows collected by following cursors through pages of the given sizes, and the last cursor. */
  datatype Tour = Tour(rows: seq<Row>, next: Option<string>)

  ghost function Follow(table: seq<Row>, q: Request, cursor: string, limits: seq<nat>, api: Api): Tour
    requires Positive(limits)
    decreases |limits|
  {
    if limits == [] then Tour([], Some(cursor))
    else
      var page := Listed(table, q, cursor, limits[0], api);
      if page.Err? then Tour([], None)
      else if page.value.next.None? then Joined(page.value, Tour([], None))
      else Joined(page.value, Follow(table, q, page.value.next.value, limits[1..], api))
  }

  function Sum(limits: seq<nat>): nat {
    if limits == [] then 0 else limits[0] + Sum(limits[1..])
  }

  /** What a tour from position p through pages of these sizes amounts to. */
  ghost predicate Covers(tour: Tour, rows: seq<Row>, p: nat, total: nat) {
    && p <= |rows|
    && tour.rows == rows[p..Min(p + total, |rows|)]
    && (tour.next.None? <==> p + total >= |rows|)
  }

  lemma CoversTwo(page: seq<Row>, later: Tour, rows: seq<Row>, p: nat, limit: nat, total: nat)
    requires p + limit < |rows| && page == rows[p..p + limit] && Covers(later, rows, p + limit, total)
    ensures Covers(Tour(page + later.rows, later.next), rows, p, limit + total)
  {
    Adjacent(rows, p, p + limit, Min(p + limit + total, |rows|));
  }

  lemma CoversLast(rows: seq<Row>, p: nat, limit: nat, total: nat)
    requires p <= |rows| <= p + limit
    ensures Covers(Tour(rows[p..Min(p + limit, |rows|)], None), rows, p, limit + total)
  {
  }

  lemma CoversNothing(rows: seq<Row>, p: nat, cursor: string)
    requires p < |rows|
    ensures Covers(Tour([], Some(cursor)), rows, p, 0)
  {
  }

  /** A page and the tour that continues from its cursor. */
  function Joined(page: Page, later: Tour): Tour {
    if page.next.None? then Tour(page.items, None) else Tour(page.items + later.rows, later.next)
  }

  lemma CoversJoined(page: Page, later: Tour, rows: seq<Row>, p: nat, limit: nat, total: nat, api: Api)
    requires PageFrom(page, rows, p, limit, api)
    requires page.next.Some? ==> p + limit <= |rows| && Covers(later, rows, p + limit, total)
    ensures Covers(Joined(page, later), rows, p, limit + total)
  {
    if page.next.Some? {
      CoversTwo(page.items, later, rows, p, limit, total);
    } else {
      CoversLast(rows, p, limit, total);
    }
  }

  lemma PageLeads(page: Page, rows: seq<Row>, p: nat, limit: nat, api: Api)
    requires PageFrom(page, rows, p, limit, api) && page.next.Some?
    ensures p + limit < |rows| && Continues(api, rows, page.next.value, p + limit)
  {
  }

  /** Every page that continues somewhere in these rows shows what follows. */
  ghost predicate PagesContinue(table: seq<Row>, q: Request, api: Api, rows: seq<Row>) {
    forall cursor, limit, p | limit > 0 && Continues(api, rows, cursor, p) ::
      GoodPage(Listed(table, q, cursor, limit, api), rows, p, limit, api)
  }

  ghost predicate GoodPage(r: Result<Page, Rejection>, rows: seq<Row>, p: nat, limit: nat, api: Api) {
    r.Ok? && PageFrom(r.value, rows, p, limit, api)
  }

  lemma {:induction false} FollowFrom(
    table: seq<Row>, q: Request, cursor: string, limits: seq<nat>, api: Api, rows: seq<Row>, p: nat)
    requires PagesContinue(table, q, api, rows) && Positive(limits)
    requires Continues(api, rows, cursor, p) && (p < |rows| || limits != [])
    ensures Covers(Follow(table, q, cursor, limits, api), rows, p, Sum(limits))
    decreases |limits|
  {
    if limits == [] {
      CoversNothing(rows, p, cursor);
    } else {
      var limit, rest := limits[0], limits[1..];
      assert GoodPage(Listed(table, q, cursor, limit, api), rows, p, limit, api);
      var page := Listed(table, q, cursor, limit, api).value;
      if page.next.Some? {
        PageLeads(page, rows, p, limit, api);
        FollowFrom(table, q, page.next.value, rest, api, rows, p + limit);
        CoversJoined(page, Follow(table, q, page.next.value, rest, api), rows, p, limit, Sum(rest), api);
      } else {
        CoversJoined(page, Tour([], None), rows, p, limit, Sum(rest), api);
      }
    }
  }

  lemma Adjacent(rows: seq<Row>, p: nat, end: nat, stop: nat)
    requires p <= end <= stop <= |rows|
    ensures rows[p..end] + rows[end..stop] == rows[p..stop]
  {
  }

  /** From the first page on, with pages of any sizes: the pages together show the matching rows in
      order, each once, and the cursors stop exactly when all have been shown. */
  lemma PagesShowEveryRowOnce(table: seq<Row>, q: Request, limits: seq<nat>, api: Api)
    requires Servable(table, q, api)
    requires limits != [] && Positive(limits)
    ensures var rows, tour := Matching(table, q), Follow(table, q, "", limits, api);
            && tour.rows == rows[..Min(Sum(limits), |rows|)]
            && (tour.next.None? <==> Sum(limits) >= |rows|)
            && (tour.next.None? ==> tour.rows == rows)
  {
    var rows := Matching(table, q);
    forall cursor, limit, p | limit > 0 && Continues(api, rows, cursor, p)
      ensures GoodPage(Listed(table, q, cursor, limit, api), rows, p, limit, api)
    {
      PageContinues(table, q, cursor, limit, api, p);
    }
    FollowFrom(table, q, "", limits, api, rows, 0);
  }

  /** Every parameter that is present names the row's own field. */
  predicate Wanted(q: Request, r: Row) {
    && (q.session == None || r.session == q.session)
    && (q.domain == "" || r.domain == q.domain)
    && (q.disposition == "" || r.disposition == q.disposition)
    && (q.severity == "" || r.severity == q.severity)
  }

  lemma {:induction false} FiltersSelect(q: Request, r: Row)
    ensures AllHold(Filters(q), r) <==> Wanted(q, r)
  {
    var session := if q.session.Some? then [InSession(q.session.value)] else [];
    var domain := if q.domain != "" then [InDomain(q.domain)] else [];
    var disposition := if q.disposition != "" then [WithDisposition(q.disposition)] else [];
    var severity := if q.severity != "" then [WithSeverity(q.severity)] else [];
    BothHold(session, domain, r);
    BothHold(session + domain, disposition, r);
    BothHold(session + domain + disposition, severity, r);
    if q.session.Some? {
      OneHolds(session[0], r);
    }
    if q.domain != "" {
      OneHolds(domain[0], r);
    }
    if q.disposition != "" {
      OneHolds(disposition[0], r);
    }
    if q.severity != "" {
      OneHolds(severity[0], r);
    }
  }

  lemma OneHolds(c: Clause, r: Row)
    ensures AllHold([c], r) <==> Holds(c, r)
  {
    assert [c][0] == c;
  }

  lemma BothHold(a: seq<Clause>, b: seq<Clause>, r: Row)
    ensures AllHold(a + b, r) <==> AllHold(a, r) && AllHold(b, r)
  {
    if AllHold(a + b, r) {
      assert forall i :: 0 <= i < |a| ==> (a + b)[i] == a[i];
      assert forall i :: 0 <= i < |b| ==> (a + b)[|a| + i] == b[i];
    }
  }

  /** The matching rows are those of the table that every parameter present agrees with. */
  lemma MatchingExactly(table: seq<Row>, q: Request, r: Row)
    ensures r in Matching(table, q) <==> r in table && Wanted(q, r)
  {
    WhereExactly(table, Filters(q), r);
    FiltersSelect(q, r);
  }

  /** A row that may stand on a page with this cursor. */
  ghost predicate MayBeShown(table: seq<Row>, q: Request, cursor: string, api: Api, r: Row) {
    && r in table && Wanted(q, r)
    && (cursor != "" ==>
          var k := api.decode(cursor);
          k.Some? && (r.key.time < k.value.time || (r.key.time == k.value.time && r.key.id < k.value.id)))
  }

  /** A page holds only rows that every parameter present agrees with, before the cursor's key, at most as
      many as asked for; and if it says that there are no more it holds all of them. */
  lemma PageIsWanted(table: seq<Row>, q: Request, cursor: string, limit: nat, api: Api)
    requires limit > 0 && Listed(table, q, cursor, limit, api).Ok?
    ensures var page := Listed(table, q, cursor, limit, api).value;
            && |page.items| <= limit
            && (forall r :: r in page.items ==> MayBeShown(table, q, cursor, api, r))
            && (!page.hasMore ==> forall r :: MayBeShown(table, q, cursor, api, r) ==> r in page.items)
  {
    var page := Listed(table, q, cursor, limit, api).value;
    var clauses := Filters(q) + Bound(api, cursor).value;
    var rows := Where(table, clauses);
    forall r
      ensures r in rows <==> MayBeShown(table, q, cursor, api, r)
    {
      WhereExactly(table, clauses, r);
      BothHold(Filters(q), Bound(api, cursor).value, r);
      FiltersSelect(q, r);
      if cursor != "" {
        OneHolds(Before(api.decode(cursor).value), r);
      }
    }
    assert page.items <= rows;
    if !page.hasMore {
      assert page.items == rows;
    }
  }

  /** A request is refused for its first value outside the vocabulary, then for its cursor. */
  lemma RefusedIff(table: seq<Row>, q: Request, cursor: string, limit: nat, api: Api)
    requires limit > 0
    ensures var r := Listed(table, q, cursor, limit, api);
            var domain := q.domain == "" || q.domain in api.words.domains;
            var disposition := q.disposition == "" || q.disposition in api.words.dispositions;
            var severity := q.severity == "" || q.severity in api.words.severities;
            && (r == Err(BadDomain) <==> !domain)
            && (r == Err(BadDisposition) <==> domain && !disposition)
            && (r == Err(BadSeverity) <==> domain && disposition && !severity)
            && (r == Err(BadCursor) <==>
                  domain && disposition && severity && cursor != "" && api.decode(cursor) == None)
  {
  }

  lemma {:induction false} WhereExactly(table: seq<Row>, clauses: seq<Clause>, r: Row)
    ensures r in Where(table, clauses) <==> r in table && AllHold(clauses, r)
    decreases |table|
  {
    if table != [] {
      WhereExactly(table[1..], clauses, r);
      assert r in table <==> r == table[0] || r in table[1..];
    }
  }

  /** The endpoint with the cursors of pagination.py. */
  function Endpoint(words: Vocabulary, fmt: Format): Api {
    Api(words, k => EncodeCursor(fmt, k), cursor => DecodeCursor(fmt, cursor))
  }

  ghost predicate JsonReadsBack(fmt: Format, rows: seq<Row>) {
    forall i :: 0 <= i < |rows| ==>
      fmt.render(rows[i].key) != [] && fmt.parse(fmt.render(rows[i].key)) == Some(rows[i].key)
  }

  /** Through base64 and back: the detections and alerts lists show every matching row once, in order. */
  lemma EndpointShowsEveryRowOnce(table: seq<Row>, q: Request, limits: seq<nat>, words: Vocabulary, fmt: Format)
    requires Descending(table) && Acceptable(q, Endpoint(words, fmt)) && JsonReadsBack(fmt, Matching(table, q))
    requires limits != [] && Positive(limits) && Sum(limits) >= |Matching(table, q)|
    ensures Follow(table, q, "", limits, Endpoint(words, fmt)) == Tour(Matching(table, q), None)
  {
    var rows, api := Matching(table, q), Endpoint(words, fmt);
    forall i | 0 <= i < |rows|
      ensures ReadsBack(api, rows[i].key)
    {
      CursorRoundTrip(fmt, rows[i].key);
    }
    PagesShowEveryRowOnce(table, q, limits, api);
  }

  /** The two lists with their own vocabularies. */
  function ListWords(alerts: bool): Vocabulary {
    if alerts then ALERTS else DETECTIONS
  }

  /** A detection can be new and an alert open, not the other way round. */
  lemma WordsDiffer()
    ensures var detections, alerts := ListWords(false), ListWords(true);
            && "new" in detections.dispositions && "new" !in alerts.dispositions
            && "open" in alerts.dispositions && "open" !in detections.dispositions
            && detections.domains * alerts.domains == {"technical"}
  {
    assert "new"[0] == 'n' && "open"[0] == 'o' && "acknowledged"[0] == 'a' && "resolved"[0] == 'r';
    assert "known"[0] == 'k' && "changed"[0] == 'c' && "false_positive"[0] == 'f' && "reviewed"[0] == 'r';
    assert |"spectrum"| == 8 && |"wifi"| == 4 && |"bluetooth"| == 9 && |"technical"| == 9;
    assert |"rf_security"| == 11 && |"wifi_security"| == 13 && |"bluetooth_security"| == 18;
    assert "bluetooth"[0] == 'b' && "technical"[0] == 't';
  }

  /** Either list refuses every page of a request with a filter value outside its own vocabulary; for any
      other request its pages, through base64 cursors, show every matching row once, in order. */
  lemma ListsShowEveryRowOnce(alerts: bool, table: seq<Row>, q: Request, limits: seq<nat>, fmt: Format)
    requires Descending(table) && JsonReadsBack(fmt, Matching(table, q))
    requires limits != [] && Positive(limits) && Sum(limits) >= |Matching(table, q)|
    ensures var api := Endpoint(ListWords(alerts), fmt);
            if Acceptable(q, api) then Follow(table, q, "", limits, api) == Tour(Matching(table, q), None)
            else forall cursor :: Listed(table, q, cursor, limits[0], api).Err?
  {
    var api := Endpoint(ListWords(alerts), fmt);
    if Acceptable(q, api) {
      EndpointShowsEveryRowOnce(table, q, limits, ListWords(alerts), fmt);
    }
  }
}
