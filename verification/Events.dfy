/** GET /events: the newest-window-first query, against the simple unbounded one. */
module Events {
  import opened Prelude
  import opened Text
  import opened Scoping
  import opened Store
  import opened Queries
  import opened Patterns

  /** The query values of the request; an absent one is empty. */
  datatype Request = Request(limit: string, compositionId: string)

  datatype BuildError = BadCompositionId | BadNamespace

  /** What the caller may see of a table, from second `since` on (since <= 0: all of it). */
  predicate Visible(req: Request, scope: Scope, since: int, r: Row) {
    && (req.compositionId == "" || r.cid == req.compositionId)
    && Allows(scope, r.ns)
    && (since > 0 ==> r.ts >= since * NANOS)
  }

  ghost function VisibleRows(req: Request, scope: Scope, since: int, table: set<Row>): set<Row> {
    set r | r in table && Visible(req, scope, since, r)
  }

  ghost predicate ValidId(req: Request) {
    req.compositionId == "" || InPattern(req.compositionId, UUID)
  }

  ghost predicate ValidRequest(req: Request, scope: Scope) {
    ValidId(req) && (scope.Only? ==> AllInPattern(scope.namespaces, DNS_LABEL))
  }

  function WithIf(params: map<string, string>, present: bool, key: string, value: string): map<string, string> {
    if present then params[key := value] else params
  }

  function EventsParams(req: Request, scope: Scope, since: int): map<string, string> {
    var limit := map["limit" := Itoa(ParseLimit(req.limit))];
    var composition := WithIf(limit, req.compositionId != "", "composition_id", req.compositionId);
    var literal := if scope.Only? then ArrayLiteral(scope.namespaces) else "";
    var namespaces := WithIf(composition, scope.Only?, "namespaces", literal);
    WithIf(namespaces, since > 0, "since", if since > 0 then Itoa(since) else "")
  }

  function EventsQuery(req: Request, scope: Scope, since: int): Result<Query, BuildError> {
    if req.compositionId != "" && !IsUuid(req.compositionId) then Err(BadCompositionId)
    else if scope.Only? && !AllLabels(scope.namespaces) then Err(BadNamespace)
    else Ok(Query(req.compositionId != "", scope.Only?, since > 0, EventsParams(req, scope, since)))
  }

  lemma AcceptedIffValid(req: Request, scope: Scope, since: int)
    ensures EventsQuery(req, scope, since).Ok? <==> ValidRequest(req, scope)
    ensures EventsQuery(req, scope, since) == Err(BadCompositionId) <==> !ValidId(req)
  {
    UuidIsPattern(req.compositionId);
    if scope.Only? {
      LabelsArePatterns(scope.namespaces);
    }
  }

  /** buildEventsQueryWindow, filling the params one at a time. */
  method BuildEventsQueryWindow(req: Request, scope: Scope, since: int) returns (r: Result<Query, BuildError>)
    ensures r.Ok? <==> ValidRequest(req, scope)
    ensures r == Err(BadCompositionId) <==> !ValidId(req)
    ensures r == EventsQuery(req, scope, since)
  {
    AcceptedIffValid(req, scope, since);
    var params := map["limit" := Itoa(ParseLimit(req.limit))];
    var byComposition := false;
    if req.compositionId != "" {
      if !IsUuid(req.compositionId) {
        return Err(BadCompositionId);
      }
      byComposition := true;
      params := params["composition_id" := req.compositionId];
    }
    var byNamespace := false;
    if Restricted(scope) {
      var arr := ClickhouseArrayParam(scope.namespaces);
      if arr.Err? {
        return Err(BadNamespace);
      }
      byNamespace := true;
      params := params["namespaces" := arr.value];
    }
    var byWindow := false;
    if since > 0 {
      byWindow := true;
      params := params["since" := Itoa(since)];
    }
    r := Ok(Query(byComposition, byNamespace, byWindow, params));
  }

  /** The bound query selects exactly the rows the caller may see, and no more of them than asked for. */
  lemma QueryMeaning(req: Request, scope: Scope, since: int)
    requires ValidRequest(req, scope)
    ensures var q := EventsQuery(req, scope, since);
            && q.Ok?
            && QueryLimit(q.value) == ParseLimit(req.limit)
            && forall r :: Matches(q.value, r) <==> Visible(req, scope, since, r)
  {
    AcceptedIffValid(req, scope, since);
    ParseUndoesItoa(ParseLimit(req.limit));
    if since > 0 {
      ParseUndoesItoa(since);
    }
    if scope.Only? {
      ParseUndoesArrayLiteral(scope.namespaces);
    }
  }

  // ---------------------------------------------------------------------------
  // Newest window first
  // ---------------------------------------------------------------------------

  datatype QueryError = Invalid(error: BuildError) | DatabaseError | NoUnboundedWindow

  const HOUR := 3600 * NANOS

  /** eventsWindows */
  const EVENTS_WINDOWS := [HOUR, 24 * HOUR, 0]

  /** `now.Add(-w).Unix()` for a positive window, else unbounded. */
  function SinceOf(w: int, now: int): int {
    if w > 0 then (now - w) / NANOS else 0
  }

  type Outcome = Result<seq<Row>, QueryError>

  /** One query of the loop: build, ask, decode. */
  function Ask(req: Request, scope: Scope, since: int, db: Db): Outcome {
    match EventsQuery(req, scope, since)
    case Err(e) => Err(Invalid(e))
    case Ok(q) =>
      match db(q)
      case Failed => Err(DatabaseError)
      case Lines(raw) => Ok(Decoded(raw))
  }

  method AskOnce(req: Request, scope: Scope, since: int, db: Db) returns (r: Outcome)
    ensures r == Ask(req, scope, since, db)
  {
    var query := BuildEventsQueryWindow(req, scope, since);
    if query.Err? {
      return Err(Invalid(query.error));
    }
    var answer := db(query.value);
    if answer.Failed? {
      return Err(DatabaseError);
    }
    var rows := DecodeRows(answer.raw);
    return Ok(rows);
  }

  /** What each window's query gives, with the database as that query finds it. */
  function Asked(windows: seq<int>, req: Request, scope: Scope, now: int, dbs: seq<Db>): (outs: seq<Outcome>)
    requires |dbs| == |windows|
    ensures |outs| == |windows|
    ensures forall i :: 0 <= i < |outs| ==> outs[i] == Ask(req, scope, SinceOf(windows[i], now), dbs[i])
  {
    seq(|windows|, i requires 0 <= i < |windows| => Ask(req, scope, SinceOf(windows[i], now), dbs[i]))
  }

  predicate Decisive(w: int, limit: nat, out: Outcome) {
    out.Err? || w == 0 || |out.value| >= limit
  }

  /** The first outcome that fails, fills the limit or is unbounded. */
  function FirstDecisive(windows: seq<int>, limit: nat, outs: seq<Outcome>, i: nat): Outcome
    requires |outs| == |windows| && i <= |windows|
    decreases |windows| - i
  {
    if i == |windows| then Err(NoUnboundedWindow)
    else if Decisive(windows[i], limit, outs[i]) then outs[i]
    else FirstDecisive(windows, limit, outs, i + 1)
  }

  function Windowed(windows: seq<int>, req: Request, scope: Scope, now: int, dbs: seq<Db>): Outcome
    requires |dbs| == |windows|
  {
    FirstDecisive(windows, ParseLimit(req.limit), Asked(windows, req, scope, now, dbs), 0)
  }

  method QueryEventsWindowed(windows: seq<int>, req: Request, scope: Scope, now: int, dbs: seq<Db>) returns (r: Outcome)
    requires |dbs| == |windows|
    ensures r == Windowed(windows, req, scope, now, dbs)
  {
    var limit := ParseLimit(req.limit);
    ghost var outs := Asked(windows, req, scope, now, dbs);
    for i := 0 to |windows|
      invariant FirstDecisive(windows, limit, outs, 0) == FirstDecisive(windows, limit, outs, i)
    {
      var w := windows[i];
      r := AskOnce(req, scope, SinceOf(w, now), dbs[i]);
      assert r == outs[i];
      if r.Err? {
        return;
      }
      if w == 0 || |r.value| >= limit {
        return;
      }
    }
    return Err(NoUnboundedWindow);
  }

  /**
   The result is the outcome of the first window that fails, fills the limit or is unbounded; every window
   before it was bounded and came up short.
   */
  lemma {:induction false} DecisiveSource(windows: seq<int>, limit: nat, outs: seq<Outcome>, i: nat) returns (k: nat)
    requires |outs| == |windows| && i <= |windows|
    ensures i <= k <= |windows|
    ensures forall j :: i <= j < k ==> windows[j] != 0 && outs[j].Ok? && |outs[j].value| < limit
    ensures if k == |windows| then FirstDecisive(windows, limit, outs, i) == Err(NoUnboundedWindow)
            else FirstDecisive(windows, limit, outs, i) == outs[k]
    ensures k < |windows| ==> outs[k].Err? || windows[k] == 0 || |outs[k].value| >= limit
    decreases |windows| - i
  {
    if i == |windows| || Decisive(windows[i], limit, outs[i]) {
      k := i;
    } else {
      k := DecisiveSource(windows, limit, outs, i + 1);
    }
  }

  /** `raw` is a legal newest-first answer to the unbounded query on `table`. */
  ghost predicate AnswerTo(raw: seq<Row>, req: Request, scope: Scope, table: set<Row>) {
    Selection(Newest, raw, VisibleRows(req, scope, 0, table), ParseLimit(req.limit))
  }

  /** `rows` is what decoding leaves of a legal newest-first answer to the unbounded query on `table`. */
  ghost predicate TopOf(rows: seq<Row>, req: Request, scope: Scope, table: set<Row>) {
    exists raw :: rows == Decoded(raw) && AnswerTo(raw, req, scope, table)
  }

  /** A bounded query sees the rows of the unbounded one that are in its window. */
  lemma WindowOfAll(req: Request, scope: Scope, since: int, table: set<Row>)
    ensures var all := VisibleRows(req, scope, 0, table);
            VisibleRows(req, scope, since, table) == if since > 0 then Since(all, since) else all
  {
    forall r: Row
      ensures Visible(req, scope, since, r) <==> Visible(req, scope, 0, r) && (since > 0 ==> r.ts >= since * NANOS)
    {
    }
  }

  lemma AskGives(req: Request, scope: Scope, since: int, db: Db, table: set<Row>) returns (raw: seq<Row>)
    requires Honest(db, table) && Ask(req, scope, since, db).Ok?
    ensures Ask(req, scope, since, db).value == Decoded(raw)
    ensures Selection(Newest, raw, VisibleRows(req, scope, since, table), ParseLimit(req.limit))
  {
    AcceptedIffValid(req, scope, since);
    QueryMeaning(req, scope, since);
    var q := EventsQuery(req, scope, since).value;
    raw := db(q).raw;
    assert Matching(q, table) == VisibleRows(req, scope, since, table);
  }

  /** A decisive answer is an answer to the unbounded query on the table that gave it; a bounded one, in full. */
  lemma DecisiveIsTop(w: int, req: Request, scope: Scope, now: int, db: Db, table: set<Row>)
    requires Honest(db, table)
    requires var out := Ask(req, scope, SinceOf(w, now), db); out.Ok? && Decisive(w, ParseLimit(req.limit), out)
    ensures TopOf(Ask(req, scope, SinceOf(w, now), db).value, req, scope, table)
    ensures w != 0 ==> AnswerTo(Ask(req, scope, SinceOf(w, now), db).value, req, scope, table)
  {
    var since, limit := SinceOf(w, now), ParseLimit(req.limit);
    var raw := AskGives(req, scope, since, db, table);
    WindowOfAll(req, scope, since, table);
    if since > 0 {
      FullWindowIsTopN(raw, VisibleRows(req, scope, 0, table), since, limit);
    }
    if w != 0 {
      FullDecodeIsWhole(raw, limit);
    }
  }

  /**
   Whatever the windows, a successful windowed answer is a legal newest-first answer to the unbounded
   query on the table as seen by the query that returned it. From a bounded window it is that answer
   itself: nothing undecodable was dropped from it.
   */
  lemma WindowedIsTop(windows: seq<int>, req: Request, scope: Scope, now: int, dbs: seq<Db>, tables: seq<set<Row>>)
    returns (k: nat)
    requires |dbs| == |windows| && AllHonest(dbs, tables)
    requires Windowed(windows, req, scope, now, dbs).Ok?
    ensures k < |tables| && TopOf(Windowed(windows, req, scope, now, dbs).value, req, scope, tables[k])
    ensures windows[k] != 0 ==> AnswerTo(Windowed(windows, req, scope, now, dbs).value, req, scope, tables[k])
  {
    k := DecisiveSource(windows, ParseLimit(req.limit), Asked(windows, req, scope, now, dbs), 0);
    DecisiveIsTop(windows[k], req, scope, now, dbs[k], tables[k]);
  }

  predicate EndsUnbounded(windows: seq<int>) {
    windows != [] && windows[|windows| - 1] == 0
  }

  /** A list of windows that ends with the unbounded one fails only when one of its queries failed. */
  lemma FailureSource(windows: seq<int>, req: Request, scope: Scope, now: int, dbs: seq<Db>) returns (k: nat)
    requires |dbs| == |windows| && EndsUnbounded(windows)
    requires Windowed(windows, req, scope, now, dbs).Err?
    ensures k < |windows|
    ensures Windowed(windows, req, scope, now, dbs) == Ask(req, scope, SinceOf(windows[k], now), dbs[k])
    ensures ValidRequest(req, scope) ==> exists q :: dbs[k](q).Failed?
  {
    k := DecisiveSource(windows, ParseLimit(req.limit), Asked(windows, req, scope, now, dbs), 0);
    assert windows[|windows| - 1] == 0;
    if ValidRequest(req, scope) {
      AcceptedIffValid(req, scope, SinceOf(windows[k], now));
      assert dbs[k](EventsQuery(req, scope, SinceOf(windows[k], now)).value).Failed?;
    }
  }

  /**
   A window of w nanoseconds asks for all the rows of the last w, and for none more than a second older;
   a window that reaches back to the epoch, or no window, asks for everything.
   */
  lemma WindowIsRecent(req: Request, scope: Scope, w: int, now: int, r: Row)
    requires Visible(req, scope, 0, r)
    ensures w <= 0 || now - w < 1_000_000_000 ==> Visible(req, scope, SinceOf(w, now), r)
    ensures w > 0 && r.ts >= now - w ==> Visible(req, scope, SinceOf(w, now), r)
    ensures w > 0 && now - w >= 1_000_000_000 && Visible(req, scope, SinceOf(w, now), r) ==>
              r.ts > now - w - 1_000_000_000
  {
  }

  /**
   The windows in use are the last hour, the last day and everything; so the loop's last error never comes
   up.
   */
  lemma EventsWindowsSuffice(req: Request, scope: Scope, now: int, dbs: seq<Db>)
    requires |dbs| == |EVENTS_WINDOWS|
    ensures EndsUnbounded(EVENTS_WINDOWS)
    ensures seq(3, i requires 0 <= i < 3 => SinceOf(EVENTS_WINDOWS[i], now)) ==
            [now / 1_000_000_000 - 3600, now / 1_000_000_000 - 86400, 0]
    ensures Windowed(EVENTS_WINDOWS, req, scope, now, dbs) != Err(NoUnboundedWindow)
  {
    EventsWindowsAre(now);
    if Windowed(EVENTS_WINDOWS, req, scope, now, dbs).Err? {
      var k := FailureSource(EVENTS_WINDOWS, req, scope, now, dbs);
    }
  }

  lemma EventsWindowsAre(now: int)
    ensures seq(3, i requires 0 <= i < 3 => SinceOf(EVENTS_WINDOWS[i], now)) ==
            [now / 1_000_000_000 - 3600, now / 1_000_000_000 - 86400, 0]
  {
    assert (now - HOUR) / NANOS == now / 1_000_000_000 - 3600;
    assert (now - 24 * HOUR) / NANOS == now / 1_000_000_000 - 86400;
  }

  /** Under a tie-break, a decisive answer is the one answer to the unbounded query. */
  lemma DecisiveIsUnbounded(w: int, req: Request, scope: Scope, now: int, db: Db, table: set<Row>,
                            rank: Row -> int, simple: seq<Row>)
    requires RankedHonest(db, table, rank)
    requires RankedSelection(Newest, rank, simple, VisibleRows(req, scope, 0, table), ParseLimit(req.limit))
    requires var out := Ask(req, scope, SinceOf(w, now), db); out.Ok? && Decisive(w, ParseLimit(req.limit), out)
    ensures Ask(req, scope, SinceOf(w, now), db) == Ok(Decoded(simple))
  {
    var since, limit := SinceOf(w, now), ParseLimit(req.limit);
    var q := EventsQuery(req, scope, since).value;
    AcceptedIffValid(req, scope, since);
    QueryMeaning(req, scope, since);
    var raw, all := db(q).raw, VisibleRows(req, scope, 0, table);
    assert Matching(q, table) == VisibleRows(req, scope, since, table);
    WindowOfAll(req, scope, since, table);
    if since > 0 {
      FullRankedWindowIsTopN(rank, raw, all, since, limit);
    }
    RankedSelectionUnique(Newest, rank, raw, simple, all, limit);
  }

  /**
   On one table and under one tie-break, the windowed query answers row for row what the single
   unbounded query answers, whatever the windows; and when they end with the unbounded one it fails only
   as one of the queries it made did.
   */
  lemma WindowedRefinesUnbounded(windows: seq<int>, req: Request, scope: Scope, now: int, dbs: seq<Db>,
                                 table: set<Row>, rank: Row -> int, simple: seq<Row>)
    requires |dbs| == |windows|
    requires forall k :: 0 <= k < |dbs| ==> RankedHonest(dbs[k], table, rank)
    requires RankedSelection(Newest, rank, simple, VisibleRows(req, scope, 0, table), ParseLimit(req.limit))
    ensures var out := Windowed(windows, req, scope, now, dbs);
            && (out.Ok? ==> out == Ok(Decoded(simple)))
            && (out.Err? && EndsUnbounded(windows) ==>
                  exists k :: 0 <= k < |windows| && out == Ask(req, scope, SinceOf(windows[k], now), dbs[k]))
  {
    if Windowed(windows, req, scope, now, dbs).Ok? {
      var k := DecisiveSource(windows, ParseLimit(req.limit), Asked(windows, req, scope, now, dbs), 0);
      DecisiveIsUnbounded(windows[k], req, scope, now, dbs[k], table, rank, simple);
    } else if EndsUnbounded(windows) {
      var k := FailureSource(windows, req, scope, now, dbs);
    }
  }

  // ---------------------------------------------------------------------------
  // The handler
  // ---------------------------------------------------------------------------

  /** 200 with rows, 400, or 500. */
  datatype Reply = Rows(rows: seq<Row>) | BadRequest | InternalError

  function EventsReply(scope: Result<Scope, string>, req: Request, windows: seq<int>, now: int, dbs: seq<Db>): Reply
    requires |dbs| == |windows|
  {
    match scope
    case Err(_) => InternalError
    case Ok(s) =>
      if s == Only([]) then Rows([])
      else if EventsQuery(req, s, 0).Err? then BadRequest
      else
        match Windowed(windows, req, s, now, dbs)
        case Err(_) => InternalError
        case Ok(rows) => Rows(rows)
  }

  /** Rows fit for a caller of this scope: newest first, in scope and filter, and a top n of some table. */
  ghost predicate FitFor(rows: seq<Row>, req: Request, scope: Scope, tables: seq<set<Row>>) {
    && |rows| <= ParseLimit(req.limit) && Distinct(rows) && Ordered(Newest, rows)
    && (forall r :: r in rows ==> r.decodable && Visible(req, scope, 0, r))
    && (scope != Only([]) ==> exists k :: 0 <= k < |tables| && TopOf(rows, req, scope, tables[k]))
  }

  /**
   handleEvents. `tables` is what each query finds stored. A caller without an established scope gets an
   error, one with an empty scope gets nothing, and one whose request is malformed is told so; anyone else
   gets rows fit for their scope, or an error that the database caused.
   */
  method HandleEvents(scope: Result<Scope, string>, req: Request, windows: seq<int>, now: int, dbs: seq<Db>,
                      ghost tables: seq<set<Row>>)
    returns (reply: Reply)
    requires |dbs| == |windows|
    ensures scope.Err? ==> reply.InternalError?
    ensures scope == Ok(Only([])) ==> reply == Rows([])
    ensures reply.BadRequest? <==> scope.Ok? && scope.value != Only([]) && !ValidRequest(req, scope.value)
    ensures reply.InternalError? && scope.Ok? && EndsUnbounded(windows) ==>
              exists k, q :: 0 <= k < |dbs| && dbs[k](q).Failed?
    ensures reply.Rows? && AllHonest(dbs, tables) ==> scope.Ok? && FitFor(reply.rows, req, scope.value, tables)
    ensures reply == EventsReply(scope, req, windows, now, dbs)
  {
    if AllHonest(dbs, tables) {
      RepliesStayInScope(scope, req, windows, now, dbs, tables);
    }
    if scope.Err? {
      return InternalError;
    }
    var s := scope.value;
    if Restricted(s) && |s.namespaces| == 0 {
      return Rows([]);
    }
    var query := BuildEventsQueryWindow(req, s, 0);
    if query.Err? {
      return BadRequest;
    }
    var answer := QueryEventsWindowed(windows, req, s, now, dbs);
    if answer.Err? {
      if EndsUnbounded(windows) {
        ghost var k := FailureSource(windows, req, s, now, dbs);
      }
      return InternalError;
    }
    return Rows(answer.value);
  }

  /** Rows leave only under an established scope, and only rows fit for it. */
  lemma RepliesStayInScope(scope: Result<Scope, string>, req: Request, windows: seq<int>, now: int,
                           dbs: seq<Db>, tables: seq<set<Row>>)
    requires |dbs| == |windows| && AllHonest(dbs, tables)
    ensures var reply := EventsReply(scope, req, windows, now, dbs);
            reply.Rows? ==> scope.Ok? && FitFor(reply.rows, req, scope.value, tables)
  {
    var reply := EventsReply(scope, req, windows, now, dbs);
    if reply.Rows? && scope.value != Only([]) {
      var i := WindowedIsTop(windows, req, scope.value, now, dbs, tables);
      TopIsFit(reply.rows, req, scope.value, tables[i]);
    }
  }

  lemma TopIsFit(rows: seq<Row>, req: Request, scope: Scope, table: set<Row>)
    requires TopOf(rows, req, scope, table)
    ensures |rows| <= ParseLimit(req.limit) && Distinct(rows) && Ordered(Newest, rows)
    ensures forall r :: r in rows ==> r in table && r.decodable && Visible(req, scope, 0, r)
  {
    var raw :| rows == Decoded(raw) && AnswerTo(raw, req, scope, table);
    DecodedKeepsOrder(Newest, raw);
    assert forall r :: r in rows ==> r in raw && r in VisibleRows(req, scope, 0, table);
  }

  /** The same query fails, or not, in both worlds. */
  ghost predicate SameFailures(a: Db, b: Db) {
    forall q: Query :: a(q).Failed? <==> b(q).Failed?
  }

  /** Two tables that agree inside the scope give the same answer to every query built for it. */
  lemma SameAnswer(req: Request, scope: Scope, since: int, a: Db, b: Db, ta: set<Row>, tb: set<Row>, rank: Row -> int)
    requires SameFailures(a, b) && AgreeInScope(ta, tb, scope)
    requires RankedHonest(a, ta, rank) && RankedHonest(b, tb, rank)
    ensures Ask(req, scope, since, a) == Ask(req, scope, since, b)
  {
    AcceptedIffValid(req, scope, since);
    if ValidRequest(req, scope) {
      QueryMeaning(req, scope, since);
      var q := EventsQuery(req, scope, since).value;
      if a(q).Lines? {
        assert Matching(q, ta) == Matching(q, tb);
        RankedSelectionUnique(Newest, rank, a(q).raw, b(q).raw, Matching(q, ta), QueryLimit(q));
      }
    }
  }

  /**
   Non-interference: whatever another tenant's rows are, at any of the queries, the reply to a caller
   depends only on the rows inside its scope.
   */
  lemma EventsNonInterference(scope: Scope, req: Request, windows: seq<int>, now: int, a: seq<Db>, b: seq<Db>,
                              ta: seq<set<Row>>, tb: seq<set<Row>>, rank: Row -> int)
    requires |windows| == |a| == |b| == |ta| == |tb|
    requires forall k :: 0 <= k < |a| ==>
               && SameFailures(a[k], b[k]) && AgreeInScope(ta[k], tb[k], scope)
               && RankedHonest(a[k], ta[k], rank) && RankedHonest(b[k], tb[k], rank)
    ensures EventsReply(Ok(scope), req, windows, now, a) == EventsReply(Ok(scope), req, windows, now, b)
  {
    forall k | 0 <= k < |windows|
      ensures Ask(req, scope, SinceOf(windows[k], now), a[k]) == Ask(req, scope, SinceOf(windows[k], now), b[k])
    {
      SameAnswer(req, scope, SinceOf(windows[k], now), a[k], b[k], ta[k], tb[k], rank);
    }
    assert Asked(windows, req, scope, now, a) == Asked(windows, req, scope, now, b);
  }

  lemma HasMember(rows: seq<Row>)
    ensures rows == [] || exists r :: r in rows
  {
    if rows != [] {
      assert rows[0] in rows;
    }
  }

  lemma NothingToShow(rows: seq<Row>, req: Request, table: set<Row>)
    requires TopOf(rows, req, Only([]), table)
    ensures rows == []
  {
    HasMember(rows);
    TopIsFit(rows, req, Only([]), table);
  }

  /** Answering an empty scope without asking the database changes nothing the database would have said. */
  lemma EmptyScopeShortCircuit(req: Request, windows: seq<int>, now: int, dbs: seq<Db>, tables: seq<set<Row>>)
    requires |dbs| == |windows| && AllHonest(dbs, tables)
    requires Windowed(windows, req, Only([]), now, dbs).Ok?
    ensures EventsReply(Ok(Only([])), req, windows, now, dbs) == Rows(Windowed(windows, req, Only([]), now, dbs).value)
  {
    var k := WindowedIsTop(windows, req, Only([]), now, dbs, tables);
    NothingToShow(Windowed(windows, req, Only([]), now, dbs).value, req, tables[k]);
  }
}
