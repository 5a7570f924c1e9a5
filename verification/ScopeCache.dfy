/** The cache in front of resolve: its key, its entries, and the objects that own it. */
module ScopeCache {
  import opened Prelude
  import opened Text
  import opened Scoping

  /** The rule a scoper reviews: verb, apiGroup, resource. */
  datatype Rule = Rule(verb: string, apiGroup: string, resource: string)

  /** The verified identity of a caller. */
  datatype User = User(name: string, groups: seq<string>)

  const NUL := '\0'

  function CacheKey(u: User): string {
    u.name + [NUL] + Join(u.groups, NUL)
  }

  /** No NUL in the username or in a group name. */
  ghost predicate Clean(u: User) {
    NUL !in u.name && AllFree(u.groups, NUL)
  }

  predicate NoGroup(groups: seq<string>) {
    groups == [] || groups == [""]
  }

  /** Two callers share a cache entry exactly when they are the same, or differ only as [] and [""] do. */
  lemma CacheKeyInjective(u: User, v: User)
    requires Clean(u) && Clean(v)
    ensures CacheKey(u) == CacheKey(v) <==>
            u.name == v.name && (u.groups == v.groups || (NoGroup(u.groups) && NoGroup(v.groups)))
  {
    SplitKey(u);
    SplitKey(v);
    var a, b := Split(CacheKey(u), NUL), Split(CacheKey(v), NUL);
    assert a[0] == u.name && a[1..] == if u.groups == [] then [""] else u.groups;
    assert b[0] == v.name && b[1..] == if v.groups == [] then [""] else v.groups;
    assert NoGroup(u.groups) ==> Join(u.groups, NUL) == "";
    assert NoGroup(v.groups) ==> Join(v.groups, NUL) == "";
  }

  lemma SplitKey(u: User)
    requires Clean(u)
    ensures Split(CacheKey(u), NUL) == [u.name] + if u.groups == [] then [""] else u.groups
  {
    SplitHead(u.name, NUL, Join(u.groups, NUL));
    if u.groups != [] {
      SplitUndoesJoin(u.groups, NUL);
    }
  }

  /** A NUL in a name is enough for two different callers to share an entry. */
  lemma NulCollides()
    ensures CacheKey(User("ab", ["c"])) != CacheKey(User("a", ["b", "c"]))
    ensures CacheKey(User("a" + [NUL] + "b", ["c"])) == CacheKey(User("a", ["b", "c"]))
  {
    var u, v := User("ab", ["c"]), User("a", ["b", "c"]);
    CacheKeyInjective(u, v);
    assert Join(["b", "c"], NUL) == "b" + [NUL] + "c";
  }

  // ---------------------------------------------------------------------------
  // The scoper object
  // ---------------------------------------------------------------------------

  datatype CacheEntry = CacheEntry(scope: Scope, expires: int)

  /** The AUDIT_SCOPING_* variables; an unset one is empty. */
  datatype AuditEnv = AuditEnv(verb: string, resource: string, apiGroup: string)

  function OrElse(value: string, fallback: string): string {
    if value == "" then fallback else value
  }

  /** A partial configuration inherits what it leaves unset. */
  function AuditRule(events: Rule, env: AuditEnv): Rule {
    Rule(OrElse(env.verb, events.verb), OrElse(env.apiGroup, events.apiGroup), OrElse(env.resource, events.resource))
  }

  /** Each part of the audit rule is the configured one where there is one, and the events rule's otherwise. */
  predicate ConfiguredBy(audit: Rule, events: Rule, env: AuditEnv) {
    && (env.verb != "" ==> audit.verb == env.verb)
    && (env.verb == "" ==> audit.verb == events.verb)
    && (env.apiGroup != "" ==> audit.apiGroup == env.apiGroup)
    && (env.apiGroup == "" ==> audit.apiGroup == events.apiGroup)
    && (env.resource != "" ==> audit.resource == env.resource)
    && (env.resource == "" ==> audit.resource == events.resource)
  }

  lemma AuditRuleIsConfigured(events: Rule, env: AuditEnv)
    ensures ConfiguredBy(AuditRule(events, env), events, env)
    ensures Unset(env) ==> AuditRule(events, env) == events
  {
  }

  predicate Unset(env: AuditEnv) {
    env.verb == "" && env.resource == "" && env.apiGroup == ""
  }

  /** One call of scopeFor: who asks, the clock reading it takes, and what resolving would say. */
  datatype Request = Request(user: User, now: int, resolved: Result<Scope, string>)

  /** What the cache holds for this caller that has not expired. */
  function Lookup(cache: map<string, CacheEntry>, u: User, now: int): Option<Scope> {
    if CacheKey(u) in cache && now < cache[CacheKey(u)].expires then Some(cache[CacheKey(u)].scope) else None
  }

  function Answer(cache: map<string, CacheEntry>, q: Request): Result<Scope, string> {
    match Lookup(cache, q.user, q.now)
    case Some(scope) => Ok(scope)
    case None => q.resolved
  }

  function After(cache: map<string, CacheEntry>, ttl: int, q: Request): map<string, CacheEntry> {
    if Lookup(cache, q.user, q.now).Some? || q.resolved.Err? then cache
    else cache[CacheKey(q.user) := CacheEntry(q.resolved.value, q.now + ttl)]
  }

  class RbacScoper {
    const rule: Rule
    const ttl: int
    var cache: map<string, CacheEntry>

    constructor (rule: Rule, ttl: int)
      ensures this.rule == rule && this.ttl == ttl && cache == map[]
    {
      this.rule, this.ttl, cache := rule, ttl, map[];
    }

    /**
     scopeFor, given what resolve would return. An entry is used strictly before it expires, and then nothing
     is asked and nothing changes; otherwise the caller gets what resolving gives. A failure is not
     remembered; a fresh scope expires one ttl after the reading taken before resolving.
     */
    method ScopeFor(u: User, now: int, resolved: Result<Scope, string>) returns (r: Result<Scope, string>)
      modifies this`cache
      ensures var was, key := old(cache), CacheKey(u);
              if key in was && was[key].expires > now then r == Ok(was[key].scope) && cache == was
              else if resolved.Err? then r == resolved && cache == was
              else r == resolved && cache == was[key := CacheEntry(resolved.value, now + ttl)]
      ensures var q := Request(u, now, resolved);
              r == Answer(old(cache), q) && cache == After(old(cache), ttl, q)
    {
      var key := CacheKey(u);
      if key in cache && now < cache[key].expires {
        return Ok(cache[key].scope);
      }
      if resolved.Err? {
        return resolved;
      }
      cache := cache[key := CacheEntry(resolved.value, now + ttl)];
      return resolved;
    }
  }

  /** The cache of a new scoper after these calls, one after the other. */
  function CacheAfter(ttl: int, qs: seq<Request>): map<string, CacheEntry> {
    if qs == [] then map[] else After(CacheAfter(ttl, qs[..|qs| - 1]), ttl, qs[|qs| - 1])
  }

  /** Call j resolved this scope for this cache key, at a reading less than one ttl before `now`. */
  predicate ResolvedAt(ttl: int, qs: seq<Request>, j: nat, key: string, now: int, scope: Scope) {
    j < |qs| && CacheKey(qs[j].user) == key && qs[j].resolved == Ok(scope) && now - ttl < qs[j].now
  }

  lemma {:induction false} EntriesWereResolved(ttl: int, qs: seq<Request>, key: string) returns (j: nat)
    requires key in CacheAfter(ttl, qs)
    ensures j < |qs| && CacheKey(qs[j].user) == key
    ensures qs[j].resolved.Ok?
    ensures CacheAfter(ttl, qs)[key] == CacheEntry(qs[j].resolved.value, qs[j].now + ttl)
  {
    var front, last := qs[..|qs| - 1], qs[|qs| - 1];
    if CacheAfter(ttl, qs) != CacheAfter(ttl, front) && CacheKey(last.user) == key {
      j := |qs| - 1;
    } else {
      j := EntriesWereResolved(ttl, front, key);
    }
  }

  /**
   Over any sequence of calls, with clock readings in any order: a scope that is returned was resolved, for
   the same cache key, by this call or an earlier one, at a reading less than one ttl before this call's. A
   failure that is returned is this call's own.
   */
  lemma AnswersAreRecent(ttl: int, qs: seq<Request>, q: Request) returns (j: nat)
    requires ttl > 0
    ensures var r := Answer(CacheAfter(ttl, qs), q);
            if r.Ok? then ResolvedAt(ttl, qs + [q], j, CacheKey(q.user), q.now, r.value) else r == q.resolved
  {
    j := |qs|;
    if Lookup(CacheAfter(ttl, qs), q.user, q.now).Some? {
      j := EntriesWereResolved(ttl, qs, CacheKey(q.user));
    }
  }

  /**
   loadAuditScoper: nothing when scoping is off, the events scoper itself when nothing is configured, and
   otherwise a new scoper with an empty cache of its own.
   */
  method LoadAuditScoper(events: RbacScoper?, env: AuditEnv) returns (audit: RbacScoper?)
    ensures audit == null <==> events == null
    ensures events != null && Unset(env) ==> audit == events
    ensures events != null ==> ConfiguredBy(audit.rule, events.rule, env)
    ensures events != null && !Unset(env) ==>
              && fresh(audit)
              && audit.rule == AuditRule(events.rule, env)
              && audit.ttl == events.ttl
              && audit.cache == map[]
  {
    if events == null {
      return null;
    }
    if env.verb == "" && env.resource == "" && env.apiGroup == "" {
      return events;
    }
    var verb, resource, apiGroup := env.verb, env.resource, env.apiGroup;
    if verb == "" {
      verb := events.rule.verb;
    }
    if resource == "" {
      resource := events.rule.resource;
    }
    if apiGroup == "" {
      apiGroup := events.rule.apiGroup;
    }
    audit := new RbacScoper(Rule(verb, apiGroup, resource), events.ttl);
  }
}
