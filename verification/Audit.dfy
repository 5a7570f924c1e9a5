/** GET /audit: the same scoping as /events, but never without a scoper. */
module Audit {
  import opened Prelude
  import opened Text
  import opened Scoping
  import opened Store
  import opened Queries
  import opened Patterns

  function AuditParams(limit: string, scope: Scope, since: int): map<string, string> {
    var base := map["limit" := Itoa(ParseAuditLimit(limit))];
    var scoped := if scope.Only? then base["namespaces" := ArrayLiteral(scope.namespaces)] else base;
    if since > 0 then scoped["since" := Itoa(since)] else scoped
  }

  function AuditQuery(limit: string, scope: Scope, since: int): Result<Query, string> {
    if scope.Only? && !AllLabels(scope.namespaces) then Err("invalid namespace name")
    else Ok(Query(false, scope.Only?, since > 0, AuditParams(limit, scope, since)))
  }

  lemma AcceptedIffLabels(limit: string, scope: Scope, since: int)
    ensures AuditQuery(limit, scope, since).Ok? <==> (scope.Only? ==> AllInPattern(scope.namespaces, DNS_LABEL))
  {
    if scope.Only? {
      LabelsArePatterns(scope.namespaces);
    }
  }

  /** buildAuditQuery, filling the params one at a time. */
  method BuildAuditQuery(limit: string, scope: Scope, since: int) returns (r: Result<Query, string>)
    ensures r.Ok? <==> (scope.Only? ==> AllInPattern(scope.namespaces, DNS_LABEL))
    ensures r == AuditQuery(limit, scope, since)
  {
    AcceptedIffLabels(limit, scope, since);
    var params := map["limit" := Itoa(ParseAuditLimit(limit))];
    var byNamespace := false;
    if Restricted(scope) {
      var arr := ClickhouseArrayParam(scope.namespaces);
      if arr.Err? {
        return Err("invalid namespace name");
      }
      byNamespace := true;
      params := params["namespaces" := arr.value];
    }
    var byWindow := false;
    if since > 0 {
      byWindow := true;
      params := params["since" := Itoa(since)];
    }
    return Ok(Query(false, byNamespace, byWindow, params));
  }

  /** The bound audit query selects exactly the rows in scope and window, up to the limit asked for. */
  lemma AuditMeaning(limit: string, scope: Scope, since: int)
    requires scope.Only? ==> AllInPattern(scope.namespaces, DNS_LABEL)
    ensures var q := AuditQuery(limit, scope, since);
            && q.Ok?
            && QueryLimit(q.value) == ParseLimit(limit)
            && forall r :: Matches(q.value, r) <==> Allows(scope, r.ns) && (since > 0 ==> r.ts >= since * NANOS)
  {
    LimitMeaning(limit, 1);
    ParseUndoesItoa(ParseAuditLimit(limit));
    if since > 0 {
      ParseUndoesItoa(since);
    }
    if scope.Only? {
      LabelsArePatterns(scope.namespaces);
      ParseUndoesArrayLiteral(scope.namespaces);
    }
  }

  /** 200 with rows, 400, 500, or 503. */
  datatype Reply = Records(rows: seq<Row>) | BadRequest | InternalError | Unavailable

  /** No scoper at all, or what the scoper resolved for this caller. */
  datatype Scoper = NoScoper | Resolves(scope: Result<Scope, string>)

  function AuditReply(scoper: Scoper, limit: string, db: Db): Reply {
    match scoper
    case NoScoper => Unavailable
    case Resolves(Err(_)) => InternalError
    case Resolves(Ok(scope)) =>
      if scope == Only([]) then Records([])
      else
        match AuditQuery(limit, scope, 0)
        case Err(_) => BadRequest
        case Ok(q) =>
          match db(q)
          case Failed => InternalError
          case Lines(raw) => Records(Decoded(raw))
  }

  ghost function ScopedRows(scope: Scope, table: set<Row>): set<Row> {
    set r | r in table && Allows(scope, r.ns)
  }

  /** Records fit for a caller of this scope: the decodable part of a newest-first top n of its own rows. */
  ghost predicate FitFor(rows: seq<Row>, scope: Scope, limit: string, table: set<Row>) {
    && |rows| <= ParseLimit(limit) && Distinct(rows) && Ordered(Newest, rows)
    && (forall r :: r in rows ==> r in table && r.decodable && Allows(scope, r.ns))
    && exists raw :: rows == Decoded(raw) && Selection(Newest, raw, ScopedRows(scope, table), ParseLimit(limit))
  }

  ghost predicate BadScope(scope: Scope) {
    scope.Only? && scope != Only([]) && !AllInPattern(scope.namespaces, DNS_LABEL)
  }

  /**
   handleAudit. `table` is what the query finds stored. Without a scoper there is no service, without an
   established scope only an error, with an empty scope nothing; anyone else gets records fit for their
   scope, or an error that the database caused.
   */
  method HandleAudit(scoper: Scoper, limit: string, db: Db, ghost table: set<Row>) returns (reply: Reply)
    ensures reply.Unavailable? <==> scoper.NoScoper?
    ensures scoper.Resolves? && scoper.scope.Err? ==> reply.InternalError?
    ensures scoper == Resolves(Ok(Only([]))) ==> reply == Records([])
    ensures reply.BadRequest? <==> scoper.Resolves? && scoper.scope.Ok? && BadScope(scoper.scope.value)
    ensures reply.InternalError? && scoper.scope.Ok? ==> exists q :: db(q).Failed?
    ensures reply.Records? && Honest(db, table) ==>
              scoper.Resolves? && scoper.scope.Ok? && FitFor(reply.rows, scoper.scope.value, limit, table)
    ensures reply == AuditReply(scoper, limit, db)
  {
    if Honest(db, table) {
      AuditFailsClosed(scoper, limit, db, table);
    }
    if scoper.NoScoper? {
      return Unavailable;
    }
    if scoper.scope.Err? {
      return InternalError;
    }
    var scope := scoper.scope.value;
    if Restricted(scope) && |scope.namespaces| == 0 {
      return Records([]);
    }
    var query := BuildAuditQuery(limit, scope, 0);
    if query.Err? {
      return BadRequest;
    }
    var answer := db(query.value);
    if answer.Failed? {
      return InternalError;
    }
    var rows := DecodeRows(answer.raw);
    return Records(rows);
  }

  /** Audit rows leave only under a scoper's established scope, and only rows fit for it. */
  lemma AuditFailsClosed(scoper: Scoper, limit: string, db: Db, table: set<Row>)
    requires Honest(db, table)
    ensures var reply := AuditReply(scoper, limit, db);
            reply.Records? ==>
              scoper.Resolves? && scoper.scope.Ok? && FitFor(reply.rows, scoper.scope.value, limit, table)
  {
    var reply := AuditReply(scoper, limit, db);
    if reply.Records? {
      var scope := scoper.scope.value;
      if scope == Only([]) {
        SelectionIsFit([], scope, limit, table);
      } else {
        AcceptedIffLabels(limit, scope, 0);
        AuditMeaning(limit, scope, 0);
        var q := AuditQuery(limit, scope, 0).value;
        assert Matching(q, table) == ScopedRows(scope, table);
        SelectionIsFit(db(q).raw, scope, limit, table);
      }
    }
  }

  lemma SelectionIsFit(raw: seq<Row>, scope: Scope, limit: string, table: set<Row>)
    requires Selection(Newest, raw, ScopedRows(scope, table), ParseLimit(limit))
    ensures FitFor(Decoded(raw), scope, limit, table)
  {
    DecodedKeepsOrder(Newest, raw);
    assert forall r :: r in Decoded(raw) ==> r in raw && r in ScopedRows(scope, table);
  }

  /** Non-interference: the reply depends only on the rows inside the caller's scope. */
  lemma AuditNonInterference(scope: Scope, limit: string, a: Db, b: Db, ta: set<Row>, tb: set<Row>, rank: Row -> int)
    requires RankedHonest(a, ta, rank) && RankedHonest(b, tb, rank) && AgreeInScope(ta, tb, scope)
    requires forall q: Query :: a(q).Failed? <==> b(q).Failed?
    ensures AuditReply(Resolves(Ok(scope)), limit, a) == AuditReply(Resolves(Ok(scope)), limit, b)
  {
    var query := AuditQuery(limit, scope, 0);
    if query.Ok? && a(query.value).Lines? {
      var q := query.value;
      AcceptedIffLabels(limit, scope, 0);
      AuditMeaning(limit, scope, 0);
      assert Matching(q, ta) == Matching(q, tb);
      RankedSelectionUnique(Newest, rank, a(q).raw, b(q).raw, Matching(q, ta), QueryLimit(q));
    }
  }
}
