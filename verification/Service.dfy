/** A service over its two caches. */
module Service {
  // Whatever was asked before and whatever the caches have lost, every answer is the uncached one, given a token
  // the engine accepts.

  import opened Options
  import opened Decimals
  import opened Governance
  import opened Keys
  import opened Serving

  /** What the external authorizer says, when the model asks for one. */
  datatype External = Denied | Allowed(fingerprint: string)

  /** Which cache accesses succeed; the caches may be down, absent or have dropped an entry at any time. */
  datatype Luck = Luck(planGet: bool, planSet: bool, resultGet: bool, resultSet: bool)

  /** The decision a plan is made under, if the request may be planned at all. */
  function Fingerprint(m: Compiled, ext: External): Option<string> {
    if !m.external then Some("") else if ext.Denied? then None else Some(ext.fingerprint)
  }

  /** The plan for a request as it comes in, limits applied. */
  ghost predicate Plans(env: Env, limits: Limits, m: Compiled, req: Request, id: Identity, ext: External, p: Option<Plan>) {
    var applied, fingerprint := limits.Apply(req), Fingerprint(m, ext);
    if applied.None? || fingerprint.None? then p == None else IsFresh(env, m, applied.value, id, fingerprint.value, p)
  }

  /** The answer to a request with no cache in between. */
  ghost predicate Answers(env: Env, limits: Limits, m: Compiled, req: Request, id: Identity, ext: External, caller: Caller, accepted: bool, a: Answer) {
    exists p | Plans(env, limits, m, req, id, ext, p) ::
      a == if p.None? then PlanError else Ideal(limits, env, req.limit == 0, RunAs(env, caller, accepted, p.value.sql))
  }

  /** Results are cached for the service itself and for callers whose engine user is known. */
  predicate Cacheable(caller: Caller) {
    caller.Static? || caller.user != ""
  }

  /** What a cached result is served as. */
  function Report(limits: Limits, defaulted: bool, t: Table): Answer {
    if defaulted && |t.rows| > limits.WithDefaults().defaultRowLimit then Incomplete else Served(t)
  }

  /** The caller's result of a plan is in the cache, and the cache gives it. */
  ghost predicate Hits(env: Env, m: Compiled, plan: Plan, caller: Caller, luck: Luck, results: map<string, Table>) {
    Cacheable(caller) && luck.resultGet && KeyOf(env, m, plan, caller) in results
  }

  /** A result that may be stored is in the cache afterwards. */
  ghost predicate Stored(env: Env, limits: Limits, m: Compiled, plan: Plan, caller: Caller, luck: Luck, results: map<string, Table>, a: Answer) {
    Cacheable(caller) && luck.resultSet && a.Served? && env.size(a.table) <= limits.WithDefaults().maxCacheEntryBytes ==>
      KeyOf(env, m, plan, caller) in results && results[KeyOf(env, m, plan, caller)] == a.table
  }

  /** On a hit a plan's answer is what was stored, else what running it gives; either way a result that may be stored is in the cache. */
  ghost predicate Told(env: Env, limits: Limits, m: Compiled, plan: Plan, caller: Caller, accepted: bool, defaulted: bool, luck: Luck,
                       before: map<string, Table>, results: map<string, Table>, a: Answer)
  {
    && Stored(env, limits, m, plan, caller, luck, results, a)
    && if Hits(env, m, plan, caller, luck, before) then a == Report(limits, defaulted, before[KeyOf(env, m, plan, caller)])
       else a == Ideal(limits, env, defaulted, RunAs(env, caller, accepted, plan.sql))
  }

  /** The same for the plan of a request, when it has one. */
  ghost predicate ToldFor(env: Env, limits: Limits, m: Compiled, req: Request, id: Identity, ext: External, caller: Caller, accepted: bool, luck: Luck,
                          before: map<string, Table>, results: map<string, Table>, a: Answer)
  {
    forall p | Plans(env, limits, m, req, id, ext, Some(p)) ::
      Told(env, limits, m, p, caller, accepted, req.limit == 0, luck, before, results, a)
  }

  ghost predicate PlansOk(env: Env, models: Models, plans: map<string, Plan>) {
    forall key | key in plans :: PlanEntryOk(env, models, key, plans[key])
  }

  lemma PlanStored(env: Env, models: Models, plans: map<string, Plan>, m: Compiled, req: Request, id: Identity, idKey: string, fingerprint: string, p: Plan)
    requires PlansOk(env, models, plans) && Known(models, m) && HasKey(env, m, req, id, idKey, fingerprint, Some(p))
    ensures PlansOk(env, models, plans[PlanKey(env.dialect, m.name, m.version, env.requestHash(req, idKey), fingerprint) := p])
  {
  }

  lemma PlanFound(env: Env, models: Models, m: Compiled, req: Request, id: Identity, idKey: string, fingerprint: string, p: Plan)
    requires SoundHashes(env) && Known(models, m) && IdentityKeyOf(env.globs, m.governance, id, env.digest, idKey)
    requires PlanEntryOk(env, models, PlanKey(env.dialect, m.name, m.version, env.requestHash(req, idKey), fingerprint), p)
    ensures IsFresh(env, m, req, id, fingerprint, Some(p))
  {
    PlanHit(env, models, m, req, id, idKey, fingerprint, p);
  }

  lemma PlanRunnable(env: Env, limits: Limits, models: Models, m: Compiled, req: Request, id: Identity, ext: External, p: Plan) returns (idKey: string)
    requires Known(models, m) && (ext.Allowed? ==> Free('\0', ext.fingerprint)) && Plans(env, limits, m, req, id, ext, Some(p))
    ensures limits.Apply(req).Some? && Runnable(env, models, m, limits.Apply(req).value, id, idKey, p)
  {
    idKey :| HasKey(env, m, limits.Apply(req).value, id, idKey, Fingerprint(m, ext).value, Some(p));
  }

  /** A sound hit is reported as what running the plan gives with an accepted token. */
  lemma HitTold(env: Env, limits: Limits, models: Models, m: Compiled, plan: Plan, caller: Caller, accepted: bool, defaulted: bool, luck: Luck,
                results: map<string, Table>, req: Request, id: Identity, idKey: string)
    requires SoundHashes(env) && SoundUsers(env) && Runnable(env, models, m, req, id, idKey, plan)
    requires Hits(env, m, plan, caller, luck, results)
    requires ResultEntryOk(env, limits, models, KeyOf(env, m, plan, caller), results[KeyOf(env, m, plan, caller)])
    ensures var a := Report(limits, defaulted, results[KeyOf(env, m, plan, caller)]);
            Told(env, limits, m, plan, caller, accepted, defaulted, luck, results, results, a) && a == Ideal(limits, env, defaulted, env.run(caller, plan.sql))
  {
    ResultHit(env, limits, models, m, req, id, idKey, plan, caller, results[KeyOf(env, m, plan, caller)]);
  }

  lemma MissTold(env: Env, limits: Limits, m: Compiled, plan: Plan, caller: Caller, accepted: bool, defaulted: bool, luck: Luck,
                 before: map<string, Table>, results: map<string, Table>, a: Answer)
    requires !Hits(env, m, plan, caller, luck, before) && a == Ideal(limits, env, defaulted, RunAs(env, caller, accepted, plan.sql))
    requires Stored(env, limits, m, plan, caller, luck, results, a)
    ensures Told(env, limits, m, plan, caller, accepted, defaulted, luck, before, results, a)
  {
  }

  lemma OneTold(env: Env, limits: Limits, m: Compiled, req: Request, id: Identity, ext: External, p: Plan, caller: Caller, accepted: bool, luck: Luck,
                before: map<string, Table>, results: map<string, Table>, a: Answer)
    requires SoundHashes(env) && Plans(env, limits, m, req, id, ext, Some(p))
    requires Told(env, limits, m, p, caller, accepted, req.limit == 0, luck, before, results, a)
    ensures ToldFor(env, limits, m, req, id, ext, caller, accepted, luck, before, results, a)
  {
    forall q | Plans(env, limits, m, req, id, ext, Some(q)) ensures q == p {
      PlansUnique(env, limits, m, req, id, ext, Some(p), Some(q));
    }
  }

  lemma NoneTold(env: Env, limits: Limits, m: Compiled, req: Request, id: Identity, ext: External, caller: Caller, accepted: bool, luck: Luck,
                 before: map<string, Table>, results: map<string, Table>, a: Answer)
    requires SoundHashes(env) && Plans(env, limits, m, req, id, ext, None)
    ensures ToldFor(env, limits, m, req, id, ext, caller, accepted, luck, before, results, a)
  {
    forall q ensures !Plans(env, limits, m, req, id, ext, Some(q)) {
      if Plans(env, limits, m, req, id, ext, Some(q)) {
        PlansUnique(env, limits, m, req, id, ext, None, Some(q));
      }
    }
  }

  class Server {
    const env: Env
    const limits: Limits
    const models: Models
    var plans: map<string, Plan>
    var results: map<string, Table>

    constructor (env: Env, limits: Limits, models: Models)
      requires SoundHashes(env) && SoundUsers(env)
      ensures Valid() && this.env == env && this.limits == limits && this.models == models
    {
      this.env, this.limits, this.models := env, limits, models;
      plans, results := map[], map[];
    }

    ghost predicate Valid()
      reads this
    {
      && SoundHashes(env) && SoundUsers(env)
      && PlansOk(env, models, plans)
      && (forall key | key in results :: ResultEntryOk(env, limits, models, key, results[key]))
    }

    /** Entries expire or are evicted. */
    method Expire(lostPlans: set<string>, lostResults: set<string>)
      requires Valid()
      modifies this
      ensures Valid() && plans == old(plans) - lostPlans && results == old(results) - lostResults
    {
      plans, results := plans - lostPlans, results - lostResults;
    }

    /** Looks the plan up under the caller's key, and compiles it on a miss. */
    method CachedPlan(m: Compiled, req: Request, id: Identity, fingerprint: string, luck: Luck) returns (p: Option<Plan>, hit: bool)
      requires Valid() && Known(models, m)
      modifies `plans
      ensures Valid() && IsFresh(env, m, req, id, fingerprint, p)
    {
      var idKey := IdentityKey(env.globs, m.governance, id, env.digest);
      var key := PlanKey(env.dialect, m.name, m.version, env.requestHash(req, idKey), fingerprint);
      if luck.planGet && key in plans && plans[key].fingerprint == fingerprint {
        PlanFound(env, models, m, req, id, idKey, fingerprint, plans[key]);
        return Some(plans[key]), true;
      }
      hit := false;
      p := Build(env, m, req, id, idKey, fingerprint);
      if luck.planSet && p.Some? {
        PlanStored(env, models, plans, m, req, id, idKey, fingerprint, p.value);
        plans := plans[key := p.value];
      }
    }

    /** The dry run: a plan found in the cache is the one compiling would give. */
    method Plan(m: Compiled, req: Request, id: Identity, ext: External, luck: Luck) returns (p: Option<Plan>, hit: bool)
      requires Valid() && Known(models, m)
      modifies `plans
      ensures Valid() && Plans(env, limits, m, req, id, ext, p)
    {
      var applied := limits.Apply(req);
      if applied.None? || (m.external && ext.Denied?) {
        return None, false;
      }
      p, hit := CachedPlan(m, applied.value, id, if m.external then ext.fingerprint else "", luck);
    }

    /** Looks the result up under the query, the decision and the engine user, and runs the query on a miss. */
    method CachedRun(m: Compiled, plan: Plan, caller: Caller, accepted: bool, defaulted: bool, luck: Luck,
                     ghost req: Request, ghost id: Identity, ghost idKey: string)
      returns (a: Answer)
      requires Valid() && Runnable(env, models, m, req, id, idKey, plan)
      modifies `results
      ensures Valid() && Told(env, limits, m, plan, caller, accepted, defaulted, luck, old(results), results, a)
      ensures a == Ideal(limits, env, defaulted, RunAs(env, caller, accepted, plan.sql)) || a == Ideal(limits, env, defaulted, env.run(caller, plan.sql))
    {
      var l := limits.WithDefaults();
      var key := KeyOf(env, m, plan, caller);
      var cacheable := caller.Static? || caller.user != "";
      if cacheable && luck.resultGet && key in results {
        var cached := results[key];
        HitTold(env, limits, models, m, plan, caller, accepted, defaulted, luck, results, req, id, idKey);
        if defaulted && |cached.rows| > l.defaultRowLimit {
          return Incomplete;
        }
        return Served(cached);
      }
      ghost var before := results;
      a := Run(m, plan, caller, accepted, defaulted, cacheable && luck.resultSet, key, req, id, idKey);
      MissTold(env, limits, m, plan, caller, accepted, defaulted, luck, before, results, a);
    }

    /** Runs the query, and stores its result if it may be stored and is small enough. */
    method Run(ghost m: Compiled, plan: Plan, caller: Caller, accepted: bool, defaulted: bool, store: bool, key: string,
               ghost req: Request, ghost id: Identity, ghost idKey: string)
      returns (a: Answer)
      requires Valid() && Runnable(env, models, m, req, id, idKey, plan) && key == KeyOf(env, m, plan, caller)
      requires store ==> Cacheable(caller)
      modifies `results
      ensures Valid() && a == Ideal(limits, env, defaulted, RunAs(env, caller, accepted, plan.sql))
      ensures store && a.Served? && env.size(a.table) <= limits.WithDefaults().maxCacheEntryBytes ==> key in results && results[key] == a.table
    {
      var l := limits.WithDefaults();
      var result := RunAs(env, caller, accepted, plan.sql);
      if result.None? {
        return ExecError;
      }
      if defaulted && |result.value.rows| > l.defaultRowLimit {
        return Incomplete;
      }
      if env.size(result.value) > l.maxResultBytes {
        return TooLarge;
      }
      if store && env.size(result.value) <= l.maxCacheEntryBytes {
        assert CachedAs(env, limits, models, key, result.value, m, req, id, idKey, plan, caller);
        results := results[key := result.value];
      }
      return Served(result.value);
    }

    /**
     Plans and executes; both caches stay sound. Without a hit the answer is the one without caches. With one it is the
     answer the caller gets with an accepted token, whether or not the engine still accepts it.
     */
    method Query(m: Compiled, req: Request, id: Identity, ext: External, caller: Caller, accepted: bool, luck: Luck) returns (a: Answer)
      requires Valid() && Known(models, m) && (ext.Allowed? ==> Free('\0', ext.fingerprint))
      modifies this
      ensures Valid()
      ensures Answers(env, limits, m, req, id, ext, caller, accepted, a) || Answers(env, limits, m, req, id, ext, caller, true, a)
      ensures ToldFor(env, limits, m, req, id, ext, caller, accepted, luck, old(results), results, a)
    {
      var p, _ := Plan(m, req, id, ext, luck);
      ghost var before := results;
      if p.None? {
        a := PlanError;
        NoneTold(env, limits, m, req, id, ext, caller, accepted, luck, before, results, a);
        return;
      }
      ghost var applied := limits.Apply(req).value;
      ghost var idKey := PlanRunnable(env, limits, models, m, req, id, ext, p.value);
      a := CachedRun(m, p.value, caller, accepted, req.limit == 0, luck, applied, id, idKey);
      OneTold(env, limits, m, req, id, ext, p.value, caller, accepted, luck, before, results, a);
    }
  }

  lemma PlansUnique(env: Env, limits: Limits, m: Compiled, req: Request, id: Identity, ext: External, p: Option<Plan>, q: Option<Plan>)
    requires SoundHashes(env) && Plans(env, limits, m, req, id, ext, p) && Plans(env, limits, m, req, id, ext, q)
    ensures p == q
  {
    var applied, fingerprint := limits.Apply(req), Fingerprint(m, ext);
    if applied.Some? && fingerprint.Some? {
      FreshUnique(env, m, applied.value, id, fingerprint.value, p, q);
    }
  }

  /** The same question has the same answer whenever it is asked. */
  lemma AnswerUnique(env: Env, limits: Limits, m: Compiled, req: Request, id: Identity, ext: External, caller: Caller, accepted: bool,
                     a: Answer, b: Answer)
    requires SoundHashes(env) && Answers(env, limits, m, req, id, ext, caller, accepted, a) && Answers(env, limits, m, req, id, ext, caller, accepted, b)
    ensures a == b
  {
    var p :| Plans(env, limits, m, req, id, ext, p)
          && a == if p.None? then PlanError else Ideal(limits, env, req.limit == 0, RunAs(env, caller, accepted, p.value.sql));
    var q :| Plans(env, limits, m, req, id, ext, q)
          && b == if q.None? then PlanError else Ideal(limits, env, req.limit == 0, RunAs(env, caller, accepted, q.value.sql));
    PlansUnique(env, limits, m, req, id, ext, p, q);
  }

  /**
   A token that has expired: what was served and stored for it is served again, although the engine now rejects it and
   the answer without caches is an error.
   */
  method ExpiredIsServed(server: Server, m: Compiled, req: Request, id: Identity, ext: External, caller: Caller) returns (a: Answer, b: Answer)
    requires server.Valid() && Known(server.models, m) && (ext.Allowed? ==> Free('\0', ext.fingerprint))
    requires caller.Passthrough? && caller.user != ""
    modifies server
    ensures a.Served? && server.env.size(a.table) <= server.limits.WithDefaults().maxCacheEntryBytes ==>
              b == a && Answers(server.env, server.limits, m, req, id, ext, caller, false, ExecError)
  {
    var luck := Luck(true, true, true, true);
    ghost var r0 := server.results;
    a := server.Query(m, req, id, ext, caller, true, luck);
    ghost var r1 := server.results;
    b := server.Query(m, req, id, ext, caller, false, luck);
    if a.Served? && server.env.size(a.table) <= server.limits.WithDefaults().maxCacheEntryBytes {
      ServedAgain(server.env, server.limits, m, req, id, ext, caller, luck, r0, r1, server.results, a, b);
    }
  }

  lemma ServedAgain(env: Env, limits: Limits, m: Compiled, req: Request, id: Identity, ext: External, caller: Caller, luck: Luck,
                    r0: map<string, Table>, r1: map<string, Table>, r2: map<string, Table>, a: Answer, b: Answer)
    requires caller.Passthrough? && caller.user != "" && luck == Luck(true, true, true, true)
    requires Answers(env, limits, m, req, id, ext, caller, true, a) && a.Served? && env.size(a.table) <= limits.WithDefaults().maxCacheEntryBytes
    requires ToldFor(env, limits, m, req, id, ext, caller, true, luck, r0, r1, a)
    requires ToldFor(env, limits, m, req, id, ext, caller, false, luck, r1, r2, b)
    ensures b == a && Answers(env, limits, m, req, id, ext, caller, false, ExecError)
  {
    var p :| Plans(env, limits, m, req, id, ext, p)
          && a == if p.None? then PlanError else Ideal(limits, env, req.limit == 0, RunAs(env, caller, true, p.value.sql));
    HitAgain(env, limits, m, p.value, caller, req.limit == 0, luck, r0, r1, r2, a, b);
  }

  lemma HitAgain(env: Env, limits: Limits, m: Compiled, p: Plan, caller: Caller, defaulted: bool, luck: Luck,
                 r0: map<string, Table>, r1: map<string, Table>, r2: map<string, Table>, a: Answer, b: Answer)
    requires caller.Passthrough? && caller.user != "" && luck == Luck(true, true, true, true)
    requires a == Ideal(limits, env, defaulted, RunAs(env, caller, true, p.sql))
    requires a.Served? && env.size(a.table) <= limits.WithDefaults().maxCacheEntryBytes
    requires Told(env, limits, m, p, caller, true, defaulted, luck, r0, r1, a) && Told(env, limits, m, p, caller, false, defaulted, luck, r1, r2, b)
    ensures b == a && Ideal(limits, env, defaulted, RunAs(env, caller, false, p.sql)) == ExecError
  {
  }

  /** What is served is no larger than the limit in force, and nothing is planned that asks for too much or was denied. */
  lemma AnswersWithinLimits(env: Env, limits: Limits, m: Compiled, req: Request, id: Identity, ext: External, caller: Caller, accepted: bool, a: Answer)
    requires Answers(env, limits, m, req, id, ext, caller, accepted, a)
    ensures a.Served? ==> env.size(a.table) <= limits.WithDefaults().maxResultBytes
    ensures a.Served? && req.limit == 0 ==> |a.table.rows| <= limits.WithDefaults().defaultRowLimit
    ensures !limits.InBounds(req) || (m.external && ext.Denied?) ==> a == PlanError
  {
    var p :| Plans(env, limits, m, req, id, ext, p)
          && a == if p.None? then PlanError else Ideal(limits, env, req.limit == 0, RunAs(env, caller, accepted, p.value.sql));
  }

  /** The query text of a plan for a limited request is a compiled query with the limit after it. */
  lemma FreshBody(env: Env, m: Compiled, req: Request, id: Identity, fingerprint: string, p: Plan) returns (body: string)
    requires IsFresh(env, m, req, id, fingerprint, Some(p)) && req.limit > 0
    ensures p.sql == Limited(body, req.limit) && IsCompiled(env, body)
  {
    var key :| HasKey(env, m, req, id, key, fingerprint, Some(p));
    var v :| Authorizes(env.globs, m.governance, id, req.metrics, env.refs(m, req), v)
          && Some(p) == PlanFor(m, req, fingerprint, BodyFor(env, m, req, id.claims, v, key));
    body := BodyFor(env, m, req, id.claims, v, key).value.0;
  }

  lemma DefaultBody(env: Env, limits: Limits, m: Compiled, req: Request, id: Identity, ext: External, p: Plan) returns (body: string)
    requires Plans(env, limits, m, req, id, ext, Some(p)) && req.limit == 0
    ensures p.sql == Limited(body, limits.WithDefaults().defaultRowLimit + 1) && IsCompiled(env, body)
  {
    body := FreshBody(env, m, limits.Apply(req).value, id, Fingerprint(m, ext).value, p);
  }

  /** `body` is the compiled query of a request without a limit, before its LIMIT was added. */
  ghost predicate IsBody(env: Env, limits: Limits, m: Compiled, req: Request, id: Identity, ext: External, body: string) {
    exists p :: Plans(env, limits, m, req, id, ext, Some(p)) && p.sql == Limited(body, limits.WithDefaults().defaultRowLimit + 1)
  }

  /**
   The answer is all the rows of `body`, at most the default number, and incomplete just when there are more and the
   limited query comes back at all.
   */
  ghost predicate Complete(env: Env, limits: Limits, caller: Caller, accepted: bool, body: string, a: Answer) {
    var n, rows := limits.WithDefaults().defaultRowLimit, env.rows(caller, body);
    && (a.Served? ==> a.table == rows && |rows.rows| <= n)
    && (a.Incomplete? <==> RunAs(env, caller, accepted, Limited(body, n + 1)).Some? && |rows.rows| > n)
  }

  /** Asking for one row more than the default tells a complete result from a cut one. */
  lemma ProbeTells(limits: Limits, env: Env, caller: Caller, accepted: bool, body: string, a: Answer)
    requires SoundRows(env) && IsCompiled(env, body)
    requires a == Ideal(limits, env, true, RunAs(env, caller, accepted, Limited(body, limits.WithDefaults().defaultRowLimit + 1)))
    ensures Complete(env, limits, caller, accepted, body, a)
  {
    var n: nat := limits.WithDefaults().defaultRowLimit + 1;
    if env.run(caller, Limited(body, n)).Some? {
      assert env.run(caller, Limited(body, n)).value == Take(env.rows(caller, body), n);
    }
  }

  /**
   A request without a limit is answered only with the complete result, of at most the default number of rows:
   all the rows its query stands for without the LIMIT, even where the client could not hold them. It is called
   incomplete just when there are more.
   */
  lemma DefaultIsComplete(env: Env, limits: Limits, m: Compiled, req: Request, id: Identity, ext: External, caller: Caller, accepted: bool, a: Answer)
    returns (body: string)
    requires SoundRows(env) && Answers(env, limits, m, req, id, ext, caller, accepted, a) && req.limit == 0
    ensures a == PlanError || (IsBody(env, limits, m, req, id, ext, body) && Complete(env, limits, caller, accepted, body, a))
  {
    var p :| Plans(env, limits, m, req, id, ext, p)
          && a == if p.None? then PlanError else Ideal(limits, env, req.limit == 0, RunAs(env, caller, accepted, p.value.sql));
    body := "";
    if p.Some? {
      body := DefaultPlanned(env, limits, m, req, id, ext, caller, accepted, p.value, a);
    }
  }

  lemma DefaultPlanned(env: Env, limits: Limits, m: Compiled, req: Request, id: Identity, ext: External, caller: Caller, accepted: bool, p: Plan, a: Answer)
    returns (body: string)
    requires SoundRows(env) && Plans(env, limits, m, req, id, ext, Some(p)) && req.limit == 0
    requires a == Ideal(limits, env, true, RunAs(env, caller, accepted, p.sql))
    ensures IsBody(env, limits, m, req, id, ext, body) && Complete(env, limits, caller, accepted, body, a)
  {
    body := DefaultBody(env, limits, m, req, id, ext, p);
    ProbeTells(limits, env, caller, accepted, body, a);
  }

  /** A request without a limit shares its plan, and so its cached result, with one that asks for the default and one more row. */
  lemma DefaultSharesEntry(limits: Limits, req: Request)
    requires req.limit == 0 && limits.WithDefaults().defaultRowLimit < limits.WithDefaults().maxRowLimit
    ensures limits.Apply(req) == limits.Apply(req.(limit := limits.WithDefaults().defaultRowLimit + 1))
  {
  }
}
