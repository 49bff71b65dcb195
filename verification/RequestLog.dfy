/**
  The request log's query: the WHERE clause it builds, the scope it is narrowed to, and the
  text cursors it pages with, on top of the keyset walk.
*/
module RequestLog {
  import opened Common
  import opened Authorization
  import opened Numerals
  import opened CursorCodec
  import opened Calendar
  import opened Pagination

  datatype Outcome = Success | Warning | Error

  const CLIENT_ERROR_STATUS := 400
  const SERVER_ERROR_STATUS := 500
  const MAX_STATUS := 599

  /** The filters of a query; an empty text filter is no filter. */
  datatype Query = Query(
    user: Option<int>,
    outcome: Option<Outcome>,
    verb: Option<string>,
    path: Option<string>,
    requestId: Option<string>,
    since: Option<Time>,
    until: Option<Time>)

  datatype Condition =
    | UserIs(user: int)
    | StatusBetween(low: int, high: int)
    | VerbIs(verb: string)
    | PathStartsWith(path: string)
    | RequestIs(requestId: string)
    | NotBefore(since: Time)
    | NotAfter(until: Time)
    | BelowSpot(spot: Spot)

  predicate Holds(c: Condition, r: Row) {
    match c
    case UserIs(user) => r.user == Some(user)
    case StatusBetween(low, high) => low <= r.status <= high
    case VerbIs(verb) => r.verb == verb
    case PathStartsWith(path) => path <= r.path
    case RequestIs(requestId) => r.requestId == requestId
    case NotBefore(since) => r.at >= since
    case NotAfter(until) => r.at <= until
    case BelowSpot(spot) => Below(SpotOf(r), spot)
  }

  predicate AllHold(cs: seq<Condition>, r: Row) {
    forall c :: c in cs ==> Holds(c, r)
  }

  /** How a status reads to the caller. */
  function OutcomeFor(status: int): Outcome {
    if status >= SERVER_ERROR_STATUS then Error
    else if status >= CLIENT_ERROR_STATUS then Warning
    else Success
  }

  predicate Given(filter: Option<string>) {
    filter.Some? && filter.value != ""
  }

  /** What a query means for a row: the outcome filter is the outcome the row is shown with. */
  predicate Matches(q: Query, r: Row) {
    && (q.user.Some? ==> r.user == q.user)
    && (q.outcome.Some? ==> OutcomeFor(r.status) == q.outcome.value && 0 <= r.status <= MAX_STATUS)
    && (Given(q.verb) ==> r.verb == q.verb.value)
    && (Given(q.path) ==> q.path.value <= r.path)
    && (Given(q.requestId) ==> r.requestId == q.requestId.value)
    && (q.since.Some? ==> r.at >= q.since.value)
    && (q.until.Some? ==> r.at <= q.until.value)
  }

  function OutcomeRange(o: Outcome): Condition {
    match o
    case Success => StatusBetween(0, CLIENT_ERROR_STATUS - 1)
    case Warning => StatusBetween(CLIENT_ERROR_STATUS, SERVER_ERROR_STATUS - 1)
    case Error => StatusBetween(SERVER_ERROR_STATUS, MAX_STATUS)
  }

  lemma AllHoldAppend(cs: seq<Condition>, c: Condition)
    ensures forall r :: AllHold(cs + [c], r) <==> AllHold(cs, r) && Holds(c, r)
  {
  }

  /** The text filters, where an empty text counts as none. */
  method WhereText(q: Query) returns (cs: seq<Condition>)
    ensures forall r :: AllHold(cs, r) <==> Matches(q.(user := None, outcome := None, since := None, until := None), r)
  {
    cs := [];
    if Given(q.verb) {
      AllHoldAppend(cs, VerbIs(q.verb.value));
      cs := cs + [VerbIs(q.verb.value)];
    }
    if Given(q.path) {
      AllHoldAppend(cs, PathStartsWith(q.path.value));
      cs := cs + [PathStartsWith(q.path.value)];
    }
    if Given(q.requestId) {
      AllHoldAppend(cs, RequestIs(q.requestId.value));
      cs := cs + [RequestIs(q.requestId.value)];
    }
  }

  /** The condition list, built up in place. */
  method Where(q: Query, cursor: Option<Spot>) returns (cs: seq<Condition>)
    ensures forall r :: AllHold(cs, r) <==> Matches(q, r) && Reached(cursor, r)
  {
    cs := WhereText(q);
    if q.user.Some? {
      AllHoldAppend(cs, UserIs(q.user.value));
      cs := cs + [UserIs(q.user.value)];
    }
    if q.outcome.Some? {
      AllHoldAppend(cs, OutcomeRange(q.outcome.value));
      cs := cs + [OutcomeRange(q.outcome.value)];
    }
    if q.since.Some? {
      AllHoldAppend(cs, NotBefore(q.since.value));
      cs := cs + [NotBefore(q.since.value)];
    }
    if q.until.Some? {
      AllHoldAppend(cs, NotAfter(q.until.value));
      cs := cs + [NotAfter(q.until.value)];
    }
    if cursor.Some? {
      AllHoldAppend(cs, BelowSpot(cursor.value));
      cs := cs + [BelowSpot(cursor.value)];
    }
  }

  // ----- Scope -----

  function ScopedToOwner(q: Query, scope: Scope, owner: int): Query {
    if scope == All then q else q.(user := Some(owner))
  }

  /** Whatever user a caller with own scope asks about, the whole walk shows only the caller's rows. */
  lemma OwnScopeShowsOnlyOwnRows(tables: seq<Table>, q: Query, owner: int, limit: nat)
    requires (forall t :: t in tables ==> WellFormed(t)) && 1 <= limit
    ensures var match' := (r: Row) => Matches(ScopedToOwner(q, Own, owner), r);
      forall r :: r in Walk(tables, match', None, limit) ==> r.user == Some(owner) && Matches(q.(user := None), r)
  {
    var match' := (r: Row) => Matches(ScopedToOwner(q, Own, owner), r);
    forall r | r in Walk(tables, match', None, limit)
      ensures match'(r)
    {
      ShownRowsMatch(tables, match', None, limit, r);
    }
  }

  /** A query in plain terms: an absent or empty filter lets everything through. */
  lemma QueryMeans(q: Query, r: Row)
    ensures Matches(q, r)
       <==> && (q.user.None? || r.user == q.user)
            && (q.outcome.None? || (0 <= r.status <= 599 && q.outcome.value ==
                  if r.status < 400 then Success else if r.status < 500 then Warning else Error))
            && (q.verb.None? || q.verb.value == "" || r.verb == q.verb.value)
            && (q.path.None? || q.path.value == "" || q.path.value <= r.path)
            && (q.requestId.None? || q.requestId.value == "" || r.requestId == q.requestId.value)
            && (q.since.None? || q.since.value <= r.at) && (q.until.None? || r.at <= q.until.value)
  {
  }

  /** The wide scope leaves a query alone; the narrow one keeps its other filters and names the owner. */
  lemma ScopeDecides(q: Query, owner: int, r: Row)
    ensures Matches(ScopedToOwner(q, All, owner), r) <==> Matches(q, r)
    ensures Matches(ScopedToOwner(q, Own, owner), r) <==> Matches(q.(user := None), r) && r.user == Some(owner)
  {
  }

  // ----- Cursors as text -----

  /** A row whose cursor can be issued: a datetime holds its moment, its identifier has at most so many digits. */
  predicate Issuable(digits: nat, spot: Spot) {
    Representable(spot.at) && spot.id < Pow10(digits) && -spot.id < Pow10(digits)
  }

  ghost predicate Faithful(digits: nat, t: Table) {
    forall r :: r in t ==> Issuable(digits, SpotOf(r))
  }

  function CursorText(spot: Spot): string {
    EncodeCursor(Position(Civil(spot.at), spot.id))
  }

  /** The query's pattern first, then the decoder. */
  function ReadCursor(text: string): Option<Spot> {
    if !AcceptedByPattern(text) then None
    else
      var p := DecodeCursor(text);
      if p.None? then None else Some(Spot(Instant(p.value.moment), p.value.id))
  }

  /** A cursor this API issued is let through and reads back as the position it was issued for. */
  lemma IssuedCursorReadsBack(digits: nat, spot: Spot)
    requires 1 <= digits <= 116 && Issuable(digits, spot)
    ensures ReadCursor(CursorText(spot)) == Some(spot)
  {
    var p := Position(Civil(spot.at), spot.id);
    CivilRoundTrip(spot.at);
    CursorRoundTrip(p);
    IssuedCursorAccepted(p, digits);
  }

  /** The walk a client makes: it only ever holds the text it was given.  A text that is refused ends it. */
  ghost function TextWalk(tables: seq<Table>, match': Row -> bool, text: Option<string>, limit: nat): seq<Row>
    requires forall t :: t in tables ==> WellFormed(t)
    decreases |tables|
  {
    if tables == [] then []
    else
      var cursor := if text.None? then None else ReadCursor(text.value);
      if text.Some? && cursor.None? then []
      else
        var (page, next) := Page(Candidates(tables[0], match', cursor), limit);
        if next.None? then page
        else page + TextWalk(tables[1..], match', Some(CursorText(next.value)), limit)
  }

  function AsText(cursor: Option<Spot>): Option<string> {
    if cursor.None? then None else Some(CursorText(cursor.value))
  }

  /** A text the pattern or the decoder refuses shows nothing at all. */
  lemma ForeignTextShowsNothing(tables: seq<Table>, match': Row -> bool, text: string, limit: nat)
    requires forall t :: t in tables ==> WellFormed(t)
    requires |text| > 200 || text == "" || (exists c :: c in text && !CursorSymbol(c)) || DecodeCursor(text).None?
    ensures TextWalk(tables, match', Some(text), limit) == []
  {
  }

  lemma NextCursorIsIssuable(digits: nat, t: Table, match': Row -> bool, cursor: Option<Spot>, limit: nat)
    requires WellFormed(t) && Faithful(digits, t) && 1 <= limit
    ensures var next := Page(Candidates(t, match', cursor), limit).1;
      next.Some? ==> Issuable(digits, next.value)
  {
    PageIsNewestCandidates(Candidates(t, match', cursor), limit);
    var (page, next) := Page(Candidates(t, match', cursor), limit);
    if next.Some? {
      assert page[limit - 1] in page && page[limit - 1] in t;
    }
  }

  /** Passing cursors through their text form changes nothing: the text walk is the keyset walk. */
  lemma {:induction false} TextWalkIsTheWalk(
    digits: nat, tables: seq<Table>, match': Row -> bool, cursor: Option<Spot>, limit: nat)
    requires (forall t :: t in tables ==> WellFormed(t) && Faithful(digits, t)) && 1 <= limit
    requires 1 <= digits <= 116 && (cursor.Some? ==> Issuable(digits, cursor.value))
    ensures TextWalk(tables, match', AsText(cursor), limit) == Walk(tables, match', cursor, limit)
    decreases |tables|
  {
    if tables != [] {
      if cursor.Some? {
        IssuedCursorReadsBack(digits, cursor.value);
      }
      assert tables[0] in tables;
      NextCursorIsIssuable(digits, tables[0], match', cursor, limit);
      var next := Page(Candidates(tables[0], match', cursor), limit).1;
      if next.Some? {
        TextWalkIsTheWalk(digits, tables[1..], match', next, limit);
      }
    }
  }
}
