/**
 Concurrent scopeFor calls through the events scoper and the audit scoper, against RBAC that changes over
 time. Time passes, calls begin, look the cache up under the mutex, resolve review by review, store under
 the mutex. The mutex is not held while resolving, so any number of calls for the same caller overlap.

 `Basis` is history: it remembers which reviews, made when and for whom, a scope rests on. No step reads it.
 */
module ScopeRuns {
  import opened Prelude
  import opened Scoping
  import opened Sorting
  import opened ScopeCache

  type ScoperId = nat
  type CacheId = nat
  type CallId = nat

  const EVENTS: ScoperId := 0
  const AUDIT: ScoperId := 1

  /** Who may do what where, at each moment; "" stands for cluster-wide. */
  type Rbac = (int, Rule, User, string) -> bool

  datatype Scoper = Scoper(rule: Rule, ttl: int, cache: CacheId)

  datatype Review = Review(time: int, ns: string, allowed: bool)

  datatype Basis = Basis(user: User, rule: Rule, listed: seq<string>, reviews: set<Review>)

  datatype Entry = Entry(scope: Scope, expires: int, basis: Basis)

  datatype Pc =
    | AtLookup
    | AtCluster
    | AtListing
    | Reviewing(todo: seq<string>, allowed: seq<string>, failed: bool)
    | AtStore(scope: Scope)
    | Served(scope: Scope)
    | Refused

  datatype Call = Call(scoper: ScoperId, user: User, now: int, pc: Pc, basis: Basis)

  datatype State = State(
    clock: int,
    scopers: map<ScoperId, Scoper>,
    caches: map<CacheId, map<string, Entry>>,
    calls: map<CallId, Call>)

  datatype Step =
    | Pass(d: nat)
    | Begin(c: CallId, scoper: ScoperId, user: User)
    | Lookup(c: CallId)
    | ReviewCluster(c: CallId)
    | List(c: CallId, names: seq<string>)
    | ReviewOne(c: CallId, i: nat)
    | FailOne(c: CallId, i: nat)
    | FailNow(c: CallId)
    | Collect(c: CallId)
    | Store(c: CallId)

  /** loadAuditScoper: the same object shares its cache, a diverging one gets a cache of its own. */
  function AuditScoper(events: Scoper, env: AuditEnv): Scoper {
    if Unset(env) then events else Scoper(AuditRule(events.rule, env), events.ttl, events.cache + 1)
  }

  function Boot(rule: Rule, ttl: int, env: AuditEnv, clock: int): State {
    var events := Scoper(rule, ttl, 0);
    State(clock, map[EVENTS := events, AUDIT := AuditScoper(events, env)], map[0 := map[], 1 := map[]], map[])
  }

  predicate Known(s: State, c: CallId) {
    && c in s.calls
    && s.calls[c].scoper in s.scopers
    && s.scopers[s.calls[c].scoper].cache in s.caches
  }

  function ScoperOf(s: State, c: CallId): Scoper
    requires Known(s, c)
  {
    s.scopers[s.calls[c].scoper]
  }

  function CacheOf(s: State, c: CallId): map<string, Entry>
    requires Known(s, c)
  {
    s.caches[ScoperOf(s, c).cache]
  }

  predicate Enabled(s: State, step: Step) {
    match step
    case Pass(_) => true
    case Begin(c, scoper, _) => c !in s.calls && scoper in s.scopers
    case Lookup(c) => Known(s, c) && s.calls[c].pc.AtLookup?
    case ReviewCluster(c) => Known(s, c) && s.calls[c].pc.AtCluster?
    case List(c, _) => Known(s, c) && s.calls[c].pc.AtListing?
    case ReviewOne(c, i) => Known(s, c) && s.calls[c].pc.Reviewing? && i < |s.calls[c].pc.todo|
    case FailOne(c, i) => Known(s, c) && s.calls[c].pc.Reviewing? && i < |s.calls[c].pc.todo|
    case FailNow(c) => Known(s, c) && (s.calls[c].pc.AtCluster? || s.calls[c].pc.AtListing?)
    case Collect(c) => Known(s, c) && s.calls[c].pc.Reviewing? && s.calls[c].pc.todo == []
    case Store(c) => Known(s, c) && s.calls[c].pc.AtStore?
  }

  function Without(xs: seq<string>, i: nat): seq<string>
    requires i < |xs|
  {
    xs[..i] + xs[i + 1..]
  }

  /** The call after looking its key up. */
  function LookedUp(call: Call, cache: map<string, Entry>): Call {
    var key := CacheKey(call.user);
    if key in cache && call.now < cache[key].expires then
      call.(pc := Served(cache[key].scope), basis := cache[key].basis)
    else call.(pc := AtCluster)
  }

  function WithReview(basis: Basis, time: int, ns: string, allowed: bool): Basis {
    basis.(reviews := basis.reviews + {Review(time, ns, allowed)})
  }

  function ClusterReviewed(rbac: Rbac, clock: int, rule: Rule, call: Call): Call {
    var allowed := rbac(clock, rule, call.user, "");
    call.(pc := if allowed then AtStore(AllowAll) else AtListing, basis := WithReview(call.basis, clock, "", allowed))
  }

  function OneReviewed(rbac: Rbac, clock: int, rule: Rule, call: Call, i: nat): Call
    requires call.pc.Reviewing? && i < |call.pc.todo|
  {
    var ns := call.pc.todo[i];
    var allowed := rbac(clock, rule, call.user, ns);
    call.(pc := Reviewing(Without(call.pc.todo, i), if allowed then call.pc.allowed + [ns] else call.pc.allowed,
                          call.pc.failed),
          basis := WithReview(call.basis, clock, ns, allowed))
  }

  function OneFailed(call: Call, i: nat): Call
    requires call.pc.Reviewing? && i < |call.pc.todo|
  {
    call.(pc := Reviewing(Without(call.pc.todo, i), call.pc.allowed, true))
  }

  function Collected(call: Call): Call
    requires call.pc.Reviewing?
  {
    call.(pc := if call.pc.failed then Refused else AtStore(Only(SortStrings(call.pc.allowed))))
  }

  function SetCall(s: State, c: CallId, call: Call): State {
    s.(calls := s.calls[c := call])
  }

  function DoStore(s: State, c: CallId): State
    requires Known(s, c) && s.calls[c].pc.AtStore?
  {
    var call, scoper := s.calls[c], ScoperOf(s, c);
    var entry := Entry(call.pc.scope, call.now + scoper.ttl, call.basis);
    SetCall(s, c, call.(pc := Served(call.pc.scope)))
      .(caches := s.caches[scoper.cache := CacheOf(s, c)[CacheKey(call.user) := entry]])
  }

  function Apply(rbac: Rbac, s: State, step: Step): State
    requires Enabled(s, step)
  {
    match step
    case Pass(d) => s.(clock := s.clock + d)
    case Begin(c, scoper, user) =>
      SetCall(s, c, Call(scoper, user, s.clock, AtLookup, Basis(user, s.scopers[scoper].rule, [], {})))
    case Lookup(c) => SetCall(s, c, LookedUp(s.calls[c], CacheOf(s, c)))
    case ReviewCluster(c) => SetCall(s, c, ClusterReviewed(rbac, s.clock, ScoperOf(s, c).rule, s.calls[c]))
    case List(c, names) =>
      SetCall(s, c, s.calls[c].(pc := Reviewing(names, [], false), basis := s.calls[c].basis.(listed := names)))
    case ReviewOne(c, i) => SetCall(s, c, OneReviewed(rbac, s.clock, ScoperOf(s, c).rule, s.calls[c], i))
    case FailOne(c, i) => SetCall(s, c, OneFailed(s.calls[c], i))
    case FailNow(c) => SetCall(s, c, s.calls[c].(pc := Refused))
    case Collect(c) => SetCall(s, c, Collected(s.calls[c]))
    case Store(c) => DoStore(s, c)
  }

  // ---------------------------------------------------------------------------
  // What a scope rests on
  // ---------------------------------------------------------------------------

  predicate Granted(b: Basis, ns: string) {
    exists r :: r in b.reviews && r.ns == ns && r.allowed
  }

  predicate Refuted(b: Basis, ns: string) {
    exists r :: r in b.reviews && r.ns == ns && !r.allowed
  }

  /** The scope says what the reviews of its basis said. */
  predicate Supports(b: Basis, scope: Scope) {
    match scope
    case Disabled => false
    case AllowAll => Granted(b, "")
    case Only(names) =>
      && Refuted(b, "")
      && (forall ns :: ns in names ==> Granted(b, ns))
      && (forall ns :: ns in b.listed ==> ns in names || Refuted(b, ns))
  }

  /** Every review of the basis is what RBAC answered at its time, between `from` and `to`. */
  ghost predicate MadeWithin(rbac: Rbac, b: Basis, from: int, to: int) {
    forall r :: r in b.reviews ==> from <= r.time <= to && r.allowed == rbac(r.time, b.rule, b.user, r.ns)
  }

  // ---------------------------------------------------------------------------
  // The invariant
  // ---------------------------------------------------------------------------

  /** Scopers that share a cache are the same object. */
  ghost predicate ScopersRight(s: State) {
    && (forall a :: a in s.scopers ==> s.scopers[a].ttl > 0 && s.scopers[a].cache in s.caches)
    && (forall a, b :: a in s.scopers && b in s.scopers && s.scopers[a].cache == s.scopers[b].cache ==>
          s.scopers[a] == s.scopers[b])
  }

  ghost predicate EntryRight(rbac: Rbac, clock: int, scoper: Scoper, key: string, e: Entry) {
    && CacheKey(e.basis.user) == key
    && e.basis.rule == scoper.rule
    && Supports(e.basis, e.scope)
    && MadeWithin(rbac, e.basis, e.expires - scoper.ttl, clock)
  }

  ghost predicate CachesRight(rbac: Rbac, s: State) {
    forall a, key :: a in s.scopers && s.scopers[a].cache in s.caches && key in s.caches[s.scopers[a].cache] ==>
      EntryRight(rbac, s.clock, s.scopers[a], key, s.caches[s.scopers[a].cache][key])
  }

  ghost predicate CallRight(rbac: Rbac, clock: int, scoper: Scoper, call: Call) {
    var b := call.basis;
    && call.now <= clock
    && b.rule == scoper.rule
    && CacheKey(b.user) == CacheKey(call.user)
    && (!call.pc.Served? ==> b.user == call.user && MadeWithin(rbac, b, call.now, clock))
    && match call.pc
       case AtListing => Refuted(b, "")
       case Reviewing(todo, allowed, failed) =>
         && Refuted(b, "")
         && (forall ns :: ns in allowed ==> Granted(b, ns))
         && (!failed ==> forall ns :: ns in b.listed ==> ns in todo || ns in allowed || Refuted(b, ns))
       case AtStore(scope) => Supports(b, scope)
       case Served(scope) => Supports(b, scope) && MadeWithin(rbac, b, call.now - scoper.ttl + 1, clock)
       case _ => true
  }

  ghost predicate CallsRight(rbac: Rbac, s: State) {
    forall c :: c in s.calls ==>
      s.calls[c].scoper in s.scopers && CallRight(rbac, s.clock, s.scopers[s.calls[c].scoper], s.calls[c])
  }

  ghost predicate Inv(rbac: Rbac, s: State) {
    ScopersRight(s) && CachesRight(rbac, s) && CallsRight(rbac, s)
  }

  lemma BootSatisfies(rbac: Rbac, rule: Rule, ttl: int, env: AuditEnv, clock: int)
    requires ttl > 0
    ensures Inv(rbac, Boot(rule, ttl, env, clock))
  {
  }

  lemma PassKeeps(rbac: Rbac, s: State, d: nat)
    requires Inv(rbac, s)
    ensures Inv(rbac, s.(clock := s.clock + d))
  {
    var t := s.(clock := s.clock + d);
    forall c | c in t.calls
      ensures t.calls[c].scoper in t.scopers && CallRight(rbac, t.clock, t.scopers[t.calls[c].scoper], t.calls[c])
    {
      assert CallRight(rbac, s.clock, s.scopers[s.calls[c].scoper], s.calls[c]);
    }
  }

  lemma ReviewExtends(rbac: Rbac, b: Basis, from: int, clock: int, ns: string)
    requires MadeWithin(rbac, b, from, clock) && from <= clock
    ensures var next := WithReview(b, clock, ns, rbac(clock, b.rule, b.user, ns));
            && MadeWithin(rbac, next, from, clock)
            && (if rbac(clock, b.rule, b.user, ns) then Granted(next, ns) else Refuted(next, ns))
            && (forall x :: Granted(b, x) ==> Granted(next, x))
            && (forall x :: Refuted(b, x) ==> Refuted(next, x))
  {
    var next := WithReview(b, clock, ns, rbac(clock, b.rule, b.user, ns));
    assert Review(clock, ns, rbac(clock, b.rule, b.user, ns)) in next.reviews;
    assert b.reviews <= next.reviews;
  }

  lemma WithoutKeeps(xs: seq<string>, i: nat, x: string)
    requires i < |xs| && x in xs && x != xs[i]
    ensures x in Without(xs, i)
  {
    var j :| 0 <= j < |xs| && xs[j] == x;
    assert j < i ==> Without(xs, i)[j] == x;
    assert j > i ==> Without(xs, i)[j - 1] == x;
  }

  lemma LookupRight(rbac: Rbac, clock: int, scoper: Scoper, call: Call, cache: map<string, Entry>)
    requires scoper.ttl > 0 && CallRight(rbac, clock, scoper, call) && call.pc.AtLookup?
    requires CacheKey(call.user) in cache ==>
               EntryRight(rbac, clock, scoper, CacheKey(call.user), cache[CacheKey(call.user)])
    ensures CallRight(rbac, clock, scoper, LookedUp(call, cache))
  {
  }

  lemma ClusterRight(rbac: Rbac, clock: int, scoper: Scoper, call: Call)
    requires CallRight(rbac, clock, scoper, call) && call.pc.AtCluster?
    ensures CallRight(rbac, clock, scoper, ClusterReviewed(rbac, clock, scoper.rule, call))
  {
    ReviewExtends(rbac, call.basis, call.now, clock, "");
  }

  lemma OneRight(rbac: Rbac, clock: int, scoper: Scoper, call: Call, i: nat)
    requires CallRight(rbac, clock, scoper, call) && call.pc.Reviewing? && i < |call.pc.todo|
    ensures CallRight(rbac, clock, scoper, OneReviewed(rbac, clock, scoper.rule, call, i))
    ensures CallRight(rbac, clock, scoper, OneFailed(call, i))
  {
    var ns, next := call.pc.todo[i], OneReviewed(rbac, clock, scoper.rule, call, i);
    ReviewExtends(rbac, call.basis, call.now, clock, ns);
    if !call.pc.failed {
      forall x | x in next.basis.listed
        ensures x in next.pc.todo || x in next.pc.allowed || Refuted(next.basis, x)
      {
        if x in call.pc.todo && x != ns {
          WithoutKeeps(call.pc.todo, i, x);
        }
      }
    }
  }

  lemma CollectRight(rbac: Rbac, clock: int, scoper: Scoper, call: Call)
    requires CallRight(rbac, clock, scoper, call) && call.pc.Reviewing? && call.pc.todo == []
    ensures CallRight(rbac, clock, scoper, Collected(call))
  {
    var sorted := SortStrings(call.pc.allowed);
    SortStringsSorts(call.pc.allowed);
    forall x
      ensures x in sorted <==> x in call.pc.allowed
    {
      assert x in sorted <==> x in multiset(sorted);
      assert x in call.pc.allowed <==> x in multiset(call.pc.allowed);
    }
  }

  /** A step of one call that leaves the caches alone. */
  lemma CallMoves(rbac: Rbac, s: State, c: CallId, call: Call)
    requires Inv(rbac, s) && call.scoper in s.scopers
    requires CallRight(rbac, s.clock, s.scopers[call.scoper], call)
    ensures Inv(rbac, SetCall(s, c, call))
  {
  }

  lemma StoreKeeps(rbac: Rbac, s: State, c: CallId)
    requires Inv(rbac, s) && Enabled(s, Store(c))
    ensures Inv(rbac, DoStore(s, c))
  {
    var t, call, scoper := DoStore(s, c), s.calls[c], ScoperOf(s, c);
    assert CallRight(rbac, s.clock, scoper, call);
    assert CallRight(rbac, s.clock, scoper, t.calls[c]);
    forall a, key | a in t.scopers && key in t.caches[t.scopers[a].cache]
      ensures EntryRight(rbac, t.clock, t.scopers[a], key, t.caches[t.scopers[a].cache][key])
    {
      if t.scopers[a].cache == scoper.cache {
        assert t.scopers[a] == scoper;
        if key != CacheKey(call.user) {
          assert EntryRight(rbac, s.clock, s.scopers[a], key, s.caches[s.scopers[a].cache][key]);
        }
      } else {
        assert EntryRight(rbac, s.clock, s.scopers[a], key, s.caches[s.scopers[a].cache][key]);
      }
    }
  }

  lemma StepKeepsInv(rbac: Rbac, s: State, step: Step)
    requires Inv(rbac, s) && Enabled(s, step)
    ensures Inv(rbac, Apply(rbac, s, step))
  {
    if step.Pass? {
      PassKeeps(rbac, s, step.d);
    } else if step.Store? {
      StoreKeeps(rbac, s, step.c);
    } else {
      var t := Apply(rbac, s, step);
      if !step.Begin? {
        OneCallRight(rbac, s, step);
      }
      CallMoves(rbac, s, step.c, t.calls[step.c]);
    }
  }

  lemma OneCallRight(rbac: Rbac, s: State, step: Step)
    requires Inv(rbac, s) && Enabled(s, step) && !step.Pass? && !step.Begin? && !step.Store?
    ensures var call := Apply(rbac, s, step).calls[step.c];
            call.scoper == s.calls[step.c].scoper && CallRight(rbac, s.clock, ScoperOf(s, step.c), call)
  {
    var call, scoper := s.calls[step.c], ScoperOf(s, step.c);
    assert CallRight(rbac, s.clock, scoper, call);
    match step
    case Lookup(c) =>
      var cache, key := CacheOf(s, c), CacheKey(call.user);
      assert key in cache ==> EntryRight(rbac, s.clock, scoper, key, cache[key]);
      LookupRight(rbac, s.clock, scoper, call, cache);
    case ReviewCluster(_) => ClusterRight(rbac, s.clock, scoper, call);
    case ReviewOne(_, i) => OneRight(rbac, s.clock, scoper, call, i);
    case FailOne(_, i) => OneRight(rbac, s.clock, scoper, call, i);
    case Collect(_) => CollectRight(rbac, s.clock, scoper, call);
    case List(_, _) =>
    case FailNow(_) =>
  }

  // ---------------------------------------------------------------------------
  // Runs
  // ---------------------------------------------------------------------------

  datatype Run = Run(states: seq<State>, steps: seq<Step>, rule: Rule, ttl: int, env: AuditEnv, start: int) {
    /** A run of the process booted with this configuration; a non-positive ttl is refused at start-up. */
    ghost predicate Valid(rbac: Rbac) {
      && ttl > 0
      && |states| == |steps| + 1
      && states[0] == Boot(rule, ttl, env, start)
      && forall i {:trigger steps[i]} :: 0 <= i < |steps| ==>
           Enabled(states[i], steps[i]) && states[i + 1] == Apply(rbac, states[i], steps[i])
    }
  }

  lemma {:induction false} RunKeepsInv(rbac: Rbac, run: Run, i: nat)
    requires run.Valid(rbac) && i < |run.states|
    ensures Inv(rbac, run.states[i])
    ensures run.states[i].scopers == run.states[0].scopers
  {
    if i == 0 {
      BootSatisfies(rbac, run.rule, run.ttl, run.env, run.start);
    } else {
      RunKeepsInv(rbac, run, i - 1);
      StepKeepsInv(rbac, run.states[i - 1], run.steps[i - 1]);
    }
  }

  /**
   Rule separation: whatever is readable through the events scoper was resolved under the events rule, and
   through the audit scoper under the audit rule, whether they are one object or two.
   */
  lemma RuleSeparation(rbac: Rbac, run: Run, i: nat, a: ScoperId, key: string)
    requires run.Valid(rbac) && i < |run.states| && (a == EVENTS || a == AUDIT)
    ensures a in run.states[i].scopers
    ensures var scoper := run.states[i].scopers[a];
            && scoper.cache in run.states[i].caches && scoper.ttl == run.ttl
            && (if a == EVENTS then scoper.rule == run.rule else ConfiguredBy(scoper.rule, run.rule, run.env))
            && (key in run.states[i].caches[scoper.cache] ==>
                  var e := run.states[i].caches[scoper.cache][key];
                  && e.basis.rule == scoper.rule && CacheKey(e.basis.user) == key
                  && forall r :: r in e.basis.reviews ==> r.allowed == rbac(r.time, scoper.rule, e.basis.user, r.ns))
    ensures var s := run.states[i];
            forall c :: c in s.calls && s.calls[c].scoper == a && s.calls[c].pc.Served? ==>
              s.calls[c].basis.rule == s.scopers[a].rule
  {
    RunKeepsInv(rbac, run, i);
    AuditRuleIsConfigured(run.rule, run.env);
    var s := run.states[i];
    var scoper := s.scopers[a];
    assert forall c :: c in s.calls && s.calls[c].scoper == a ==> CallRight(rbac, s.clock, scoper, s.calls[c]);
    assert key in s.caches[scoper.cache] ==> EntryRight(rbac, s.clock, scoper, key, s.caches[scoper.cache][key]);
  }

  /**
   Staleness bound: a scope served at clock reading `now` rests on reviews under the serving scoper's own
   rule, for a caller with the same cache key, each made less than one ttl before `now`, each answered as
   RBAC stood when it was made; and it says what those reviews said.
   */
  lemma ServedIsFresh(rbac: Rbac, run: Run, i: nat, c: CallId)
    requires run.Valid(rbac) && i < |run.states| && c in run.states[i].calls && run.states[i].calls[c].pc.Served?
    ensures var s := run.states[i];
            var call := s.calls[c];
            && call.scoper in s.scopers
            && call.basis.rule == s.scopers[call.scoper].rule
            && CacheKey(call.basis.user) == CacheKey(call.user)
            && Supports(call.basis, call.pc.scope)
            && (forall r :: r in call.basis.reviews ==>
                  && call.now - s.scopers[call.scoper].ttl < r.time <= s.clock
                  && r.allowed == rbac(r.time, call.basis.rule, call.basis.user, r.ns))
  {
    RunKeepsInv(rbac, run, i);
    var s := run.states[i];
    assert CallRight(rbac, s.clock, s.scopers[s.calls[c].scoper], s.calls[c]);
  }

  /** Access is served only on a grant that RBAC gave, there or cluster-wide, less than one ttl before. */
  lemma GrantsAreFresh(rbac: Rbac, run: Run, i: nat, c: CallId, ns: string) returns (t: int)
    requires run.Valid(rbac) && i < |run.states| && c in run.states[i].calls && run.states[i].calls[c].pc.Served?
    requires Allows(run.states[i].calls[c].pc.scope, ns)
    ensures var s := run.states[i];
            var call := s.calls[c];
            && call.scoper in s.scopers
            && call.now - s.scopers[call.scoper].ttl < t <= s.clock
            && (rbac(t, call.basis.rule, call.basis.user, ns) || rbac(t, call.basis.rule, call.basis.user, ""))
  {
    ServedIsFresh(rbac, run, i, c);
    var b := run.states[i].calls[c].basis;
    assert Granted(b, ns) || Granted(b, "");
    var r :| r in b.reviews && (r.ns == ns || r.ns == "") && r.allowed;
    t := r.time;
  }

  /** RBAC refuses u at ns, in the namespace and cluster-wide, at every moment of (from, to]. */
  ghost predicate RefusedThroughout(rbac: Rbac, rule: Rule, u: User, ns: string, from: int, to: int) {
    forall t :: from < t <= to ==> !rbac(t, rule, u, ns) && !rbac(t, rule, u, "")
  }

  /** The same caller, as far as the cache key can tell clean identities apart. */
  predicate SameCaller(u: User, v: User) {
    u.name == v.name && (u.groups == v.groups || (NoGroup(u.groups) && NoGroup(v.groups)))
  }

  /**
   A revocation takes effect within one ttl: once RBAC has refused the caller a namespace for a whole ttl
   before the clock reading of a call, no scope served to that call admits the namespace, cached or not,
   however slow or overlapping the calls that filled the cache were.
   */
  lemma RevocationTakesEffect(rbac: Rbac, run: Run, i: nat, c: CallId, ns: string)
    requires run.Valid(rbac) && i < |run.states| && c in run.states[i].calls && run.states[i].calls[c].pc.Served?
    requires Clean(run.states[i].calls[c].user) && Clean(run.states[i].calls[c].basis.user)
    requires run.states[i].calls[c].scoper in run.states[i].scopers
    requires var s := run.states[i];
             var call := s.calls[c];
             var scoper := s.scopers[call.scoper];
             forall u :: SameCaller(u, call.user) ==>
               RefusedThroughout(rbac, scoper.rule, u, ns, call.now - scoper.ttl, s.clock)
    ensures !Allows(run.states[i].calls[c].pc.scope, ns)
  {
    ServedIsFresh(rbac, run, i, c);
    var call := run.states[i].calls[c];
    CacheKeyInjective(call.basis.user, call.user);
    assert SameCaller(call.basis.user, call.user);
    if Allows(call.pc.scope, ns) {
      var t := GrantsAreFresh(rbac, run, i, c, ns);
    }
  }

  /** A namespace that was listed and is not admitted was refused by a review of the same basis. */
  lemma ExclusionsAreReviewed(rbac: Rbac, run: Run, i: nat, c: CallId, ns: string)
    requires run.Valid(rbac) && i < |run.states| && c in run.states[i].calls && run.states[i].calls[c].pc.Served?
    requires ns in run.states[i].calls[c].basis.listed && !Allows(run.states[i].calls[c].pc.scope, ns)
    ensures var s := run.states[i];
            var call := s.calls[c];
            && call.scoper in s.scopers
            && exists t :: call.now - s.scopers[call.scoper].ttl < t <= s.clock
                           && !rbac(t, call.basis.rule, call.basis.user, ns)
  {
    ServedIsFresh(rbac, run, i, c);
    var b := run.states[i].calls[c].basis;
    assert Refuted(b, ns);
    var r :| r in b.reviews && r.ns == ns && !r.allowed;
    assert !rbac(r.time, b.rule, b.user, ns);
  }

  // ---------------------------------------------------------------------------
  // Where a call comes from, and where it goes
  // ---------------------------------------------------------------------------

  /** How far the clock has moved in the first i steps. */
  function Elapsed(steps: seq<Step>, i: nat): nat
    requires i <= |steps|
  {
    if i == 0 then 0 else Elapsed(steps, i - 1) + if steps[i - 1].Pass? then steps[i - 1].d else 0
  }

  lemma {:induction false} ClockIsElapsed(rbac: Rbac, run: Run, i: nat)
    requires run.Valid(rbac) && i < |run.states|
    ensures run.states[i].clock == run.start + Elapsed(run.steps, i)
  {
    if i > 0 {
      ClockIsElapsed(rbac, run, i - 1);
      assert run.states[i] == Apply(rbac, run.states[i - 1], run.steps[i - 1]);
    }
  }

  /** The step is one of call c's own. */
  predicate StepOf(step: Step, c: CallId) {
    !step.Pass? && step.c == c
  }

  lemma CallAfter(rbac: Rbac, s: State, step: Step, c: CallId)
    requires Enabled(s, step) && c in Apply(rbac, s, step).calls
    ensures !StepOf(step, c) ==> c in s.calls && Apply(rbac, s, step).calls[c] == s.calls[c]
    ensures StepOf(step, c) && !step.Begin? ==>
              && c in s.calls
              && var a, b := s.calls[c], Apply(rbac, s, step).calls[c];
                 && a.user == b.user && a.scoper == b.scoper && a.now == b.now
                 && (b.pc.Refused? <==> step.FailNow? || (step.Collect? && a.pc.Reviewing? && a.pc.failed))
    ensures StepOf(step, c) && step.Begin? ==>
              var b := Apply(rbac, s, step).calls[c];
              b.user == step.user && b.scoper == step.scoper && b.now == s.clock && b.pc.AtLookup?
  {
  }

  /** A call is for the caller and through the scoper it began with, and its reading is the clock's then. */
  lemma {:induction false} CallsAsBegun(rbac: Rbac, run: Run, i: nat, c: CallId) returns (k: nat)
    requires run.Valid(rbac) && i < |run.states| && c in run.states[i].calls
    ensures var call := run.states[i].calls[c];
            k < i && run.steps[k] == Begin(c, call.scoper, call.user) && call.now == run.start + Elapsed(run.steps, k)
  {
    CallAfter(rbac, run.states[i - 1], run.steps[i - 1], c);
    if StepOf(run.steps[i - 1], c) && run.steps[i - 1].Begin? {
      k := i - 1;
      ClockIsElapsed(rbac, run, k);
    } else {
      k := CallsAsBegun(rbac, run, i - 1, c);
    }
  }

  /** The namespaces a call reviews are those the listing answered. */
  lemma {:induction false} ReviewsTheListing(rbac: Rbac, run: Run, i: nat, c: CallId) returns (k: nat)
    requires run.Valid(rbac) && i < |run.states| && c in run.states[i].calls && run.states[i].calls[c].pc.Reviewing?
    ensures k < i && run.steps[k] == List(c, run.states[i].calls[c].basis.listed)
  {
    var s, step := run.states[i - 1], run.steps[i - 1];
    StillReviewing(rbac, s, step, c);
    if StepOf(step, c) && step.List? {
      k := i - 1;
    } else {
      k := ReviewsTheListing(rbac, run, i - 1, c);
    }
  }

  lemma StillReviewing(rbac: Rbac, s: State, step: Step, c: CallId)
    requires Enabled(s, step) && c in Apply(rbac, s, step).calls && Apply(rbac, s, step).calls[c].pc.Reviewing?
    ensures StepOf(step, c) && step.List? ==> Apply(rbac, s, step).calls[c].basis.listed == step.names
    ensures !(StepOf(step, c) && step.List?) ==>
              c in s.calls && s.calls[c].pc.Reviewing?
              && s.calls[c].basis.listed == Apply(rbac, s, step).calls[c].basis.listed
  {
  }

  predicate FailedBefore(run: Run, i: nat, c: CallId)
    requires i <= |run.steps|
  {
    exists k :: 0 <= k < i && StepOf(run.steps[k], c) && (run.steps[k].FailNow? || run.steps[k].FailOne?)
  }

  lemma FailureNoted(rbac: Rbac, s: State, step: Step, c: CallId)
    requires Enabled(s, step) && c in Apply(rbac, s, step).calls
    requires Apply(rbac, s, step).calls[c].pc.Reviewing? && Apply(rbac, s, step).calls[c].pc.failed
    ensures (StepOf(step, c) && step.FailOne?) || (c in s.calls && s.calls[c].pc.Reviewing? && s.calls[c].pc.failed)
  {
  }

  /** A call is refused only if a review or the listing failed for it: nobody is turned away for nothing. */
  lemma {:induction false} RefusedHasCause(rbac: Rbac, run: Run, i: nat, c: CallId)
    requires run.Valid(rbac) && i < |run.states| && c in run.states[i].calls
    ensures var pc := run.states[i].calls[c].pc;
            pc.Refused? || (pc.Reviewing? && pc.failed) ==> FailedBefore(run, i, c)
  {
    if i > 0 {
      var s, step := run.states[i - 1], run.steps[i - 1];
      var pc := run.states[i].calls[c].pc;
      CallAfter(rbac, s, step, c);
      if c in s.calls {
        RefusedHasCause(rbac, run, i - 1, c);
      }
      if pc.Reviewing? && pc.failed {
        FailureNoted(rbac, s, step, c);
      }
      assert FailedBefore(run, i, c) <==>
             FailedBefore(run, i - 1, c) || (StepOf(step, c) && (step.FailNow? || step.FailOne?));
    }
  }

  /** What a call can do next: it never waits for another. */
  ghost predicate CallMovesOn(s: State, c: CallId)
    requires c in s.calls
  {
    match s.calls[c].pc
    case AtLookup => Enabled(s, Lookup(c))
    case AtCluster => Enabled(s, ReviewCluster(c)) && Enabled(s, FailNow(c))
    case AtListing => Enabled(s, FailNow(c)) && forall names :: Enabled(s, List(c, names))
    case Reviewing(todo, _, _) =>
      if todo == [] then Enabled(s, Collect(c))
      else forall i :: 0 <= i < |todo| ==> Enabled(s, ReviewOne(c, i)) && Enabled(s, FailOne(c, i))
    case AtStore(_) => Enabled(s, Store(c))
    case _ => true
  }

  lemma CallsNeverWait(rbac: Rbac, run: Run, i: nat, c: CallId)
    requires run.Valid(rbac) && i < |run.states|
    ensures c in run.states[i].calls ==> CallMovesOn(run.states[i], c)
    ensures c !in run.states[i].calls ==>
              forall u :: Enabled(run.states[i], Begin(c, EVENTS, u)) && Enabled(run.states[i], Begin(c, AUDIT, u))
  {
    RunKeepsInv(rbac, run, i);
  }

  // ---------------------------------------------------------------------------
  // Undisturbed, a call does what the scoper object does
  // ---------------------------------------------------------------------------

  /** A cache without the history. */
  function Plain(cache: map<string, Entry>): map<string, CacheEntry> {
    map key | key in cache :: CacheEntry(cache[key].scope, cache[key].expires)
  }

  /** The call has met a cache holding `was`, and no other call has touched it since. */
  ghost predicate AloneWith(s: State, c: CallId, was: map<string, CacheEntry>)
    requires Known(s, c)
  {
    var call, held := s.calls[c], Plain(CacheOf(s, c));
    match call.pc
    case AtLookup => held == was
    case Served(scope) =>
      exists resolved ::
        Answer(was, Request(call.user, call.now, resolved)) == Ok(scope)
        && held == After(was, ScoperOf(s, c).ttl, Request(call.user, call.now, resolved))
    case _ => held == was && ScopeCache.Lookup(was, call.user, call.now).None?
  }

  lemma StepAlone(rbac: Rbac, s: State, step: Step, c: CallId, was: map<string, CacheEntry>)
    requires Known(s, c) && AloneWith(s, c, was)
    requires Enabled(s, step) && (step.Pass? || step.c == c)
    ensures Known(Apply(rbac, s, step), c) && AloneWith(Apply(rbac, s, step), c, was)
  {
    var t, call := Apply(rbac, s, step), s.calls[c];
    if step.Lookup? {
      var q := Request(call.user, call.now, Err(""));
      assert t.calls[c].pc.Served? ==> Answer(was, q) == Ok(t.calls[c].pc.scope);
    } else if step.Store? {
      var q := Request(call.user, call.now, Ok(call.pc.scope));
      assert Plain(CacheOf(t, c)) == After(was, ScoperOf(s, c).ttl, q);
      assert Answer(was, q) == Ok(call.pc.scope);
    } else if step.Pass? && call.pc.Served? {
      assert t.calls[c] == call && CacheOf(t, c) == CacheOf(s, c);
    }
  }

  /** From its lookup on, no step but the call's own and the clock's. */
  predicate Undisturbed(run: Run, i: nat, j: nat, c: CallId)
    requires j <= |run.steps|
  {
    forall k {:trigger run.steps[k]} :: i <= k < j ==> run.steps[k].Pass? || run.steps[k].c == c
  }

  /**
   A call that runs undisturbed, whatever it resolves to, answers and leaves its cache as the object's
   scopeFor does; and until it is served the cache is as it was.
   */
  lemma {:induction false} AloneIsScopeFor(rbac: Rbac, run: Run, i: nat, j: nat, c: CallId)
    requires run.Valid(rbac) && i <= j < |run.states| && Undisturbed(run, i, j, c)
    requires Known(run.states[i], c) && run.states[i].calls[c].pc.AtLookup?
    ensures Known(run.states[j], c) && AloneWith(run.states[j], c, Plain(CacheOf(run.states[i], c)))
  {
    if i < j {
      AloneIsScopeFor(rbac, run, i, j - 1, c);
      StepAlone(rbac, run.states[j - 1], run.steps[j - 1], c, Plain(CacheOf(run.states[i], c)));
    }
  }
}
