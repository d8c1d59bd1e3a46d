/** Serving a request. */
module Serving {
  // Through the plan and result caches, under request limits.

  import opened Fields
  import opened Options
  import opened Decimals
  import opened Terms
  import opened Governance
  import opened Authorize
  import opened Keys
  import Claims
  import RowAccess

  // ------------------------------------------------------------------ limits

  /** A limit that is set stays as it is. */
  predicate Kept(before: int, after: int) {
    before > 0 ==> after == before
  }

  /** A limit that is not set takes its default. */
  predicate Unset(before: int, after: int, standard: int) {
    before <= 0 ==> after == standard
  }

  datatype Limits = Limits(
    defaultRowLimit: int, maxRowLimit: int, maxMetrics: int, maxDimensions: int, maxFilters: int,
    maxFilterValues: int, maxResultBytes: int, maxCacheEntryBytes: int, maxRequestBytes: int, maxConcurrentQueries: int)
  {
    /** Unset limits take their defaults; a cache entry may not be larger than a result. */
    function WithDefaults(): (l: Limits)
      ensures l.defaultRowLimit > 0 && l.maxRowLimit > 0 && l.maxMetrics > 0 && l.maxDimensions > 0 && l.maxFilters > 0
      ensures l.maxFilterValues > 0 && l.maxResultBytes > 0 && l.maxRequestBytes > 0 && l.maxConcurrentQueries > 0
      ensures 0 < l.maxCacheEntryBytes <= l.maxResultBytes
      ensures Kept(defaultRowLimit, l.defaultRowLimit) && Kept(maxRowLimit, l.maxRowLimit) && Kept(maxMetrics, l.maxMetrics)
      ensures Kept(maxDimensions, l.maxDimensions) && Kept(maxFilters, l.maxFilters) && Kept(maxFilterValues, l.maxFilterValues)
      ensures Kept(maxResultBytes, l.maxResultBytes) && Kept(maxRequestBytes, l.maxRequestBytes) && Kept(maxConcurrentQueries, l.maxConcurrentQueries)
      ensures Unset(defaultRowLimit, l.defaultRowLimit, 1000) && Unset(maxRowLimit, l.maxRowLimit, 10000) && Unset(maxMetrics, l.maxMetrics, 25)
      ensures Unset(maxDimensions, l.maxDimensions, 25) && Unset(maxFilters, l.maxFilters, 50) && Unset(maxFilterValues, l.maxFilterValues, 1000)
      ensures Unset(maxResultBytes, l.maxResultBytes, 32 * 1024 * 1024) && Unset(maxRequestBytes, l.maxRequestBytes, 1024 * 1024)
      ensures Unset(maxConcurrentQueries, l.maxConcurrentQueries, 4)
      ensures maxCacheEntryBytes <= 0 && 8 * 1024 * 1024 <= l.maxResultBytes ==> l.maxCacheEntryBytes == 8 * 1024 * 1024
      ensures 0 < maxCacheEntryBytes <= l.maxResultBytes ==> l.maxCacheEntryBytes == maxCacheEntryBytes
      ensures maxCacheEntryBytes > l.maxResultBytes ==> l.maxCacheEntryBytes == l.maxResultBytes
    {
      var or := (v: int, d: int) => if v <= 0 then d else v;
      var bytes := or(maxResultBytes, 33554432);
      var entry := or(maxCacheEntryBytes, 8388608);
      Limits(or(defaultRowLimit, 1000), or(maxRowLimit, 10000), or(maxMetrics, 25), or(maxDimensions, 25), or(maxFilters, 50),
             or(maxFilterValues, 1000), bytes, if entry > bytes then bytes else entry, or(maxRequestBytes, 1048576), or(maxConcurrentQueries, 4))
    }

    /** No more metrics, dimensions, filters, values of one filter or rows than allowed, and no negative number of rows. */
    predicate InBounds(req: Request) {
      var l := WithDefaults();
      && |req.metrics| <= l.maxMetrics && |req.dimensions| <= l.maxDimensions
      && |req.filters| + |req.metricFilters| <= l.maxFilters
      && (forall f | f in req.filters :: |f.values| <= l.maxFilterValues)
      && 0 <= req.limit <= l.maxRowLimit
    }

    /** The request with its effective row limit, or none if it asks for more than the limits in force. */
    function Apply(req: Request): (r: Option<Request>)
      ensures r.Some? <==> InBounds(req)
      ensures r.Some? ==> r.value == req.(limit := r.value.limit) && r.value.limit > 0
      ensures r.Some? ==> r.value.limit <= WithDefaults().maxRowLimit || r.value.limit == WithDefaults().defaultRowLimit + 1
      ensures r.Some? && req.limit > 0 ==> r.value == req
      ensures r.Some? && req.limit == 0 ==> r.value.limit == WithDefaults().defaultRowLimit + 1
    {
      var l := WithDefaults();
      if |req.metrics| > l.maxMetrics || |req.dimensions| > l.maxDimensions || |req.filters| + |req.metricFilters| > l.maxFilters then None
      else if exists f | f in req.filters :: |f.values| > l.maxFilterValues then None
      else if req.limit < 0 then None
      else if req.limit == 0 then Some(req.(limit := l.defaultRowLimit + 1))
      else if req.limit > l.maxRowLimit then None
      else Some(req)
    }
  }

  datatype Request = Request(
    model: string, metrics: seq<string>, dimensions: seq<string>, filters: seq<UserFilter>,
    metricFilters: seq<string>, timeGrain: string, orderBy: seq<string>, limit: int)

  // ------------------------------------------------------------------ the surroundings

  datatype Compiled = Compiled(name: string, version: string, governance: Option<Spec>, external: bool)

  datatype Plan = Plan(sql: string, model: string, version: string, hash: string, role: string, fingerprint: string)

  datatype Table = Table(columns: seq<string>, rows: seq<seq<string>>)

  /** Whom the engine runs a query as: the service itself, or the caller, whose engine user may be unknown. */
  datatype Caller = Static | Passthrough(user: string, token: string)

  function UserOf(c: Caller): User {
    if c.Static? then None else Some(c.user)
  }

  /**
   Everything a service is given: the compiler's text generation, the hashes, and the engine with its fixed data. What
   the engine's client returns for a query text is `run`, for a caller whose token the engine accepts; it may fail. The
   rows a compiled query stands for, before any LIMIT and whether or not the client could hold them, are `rows`.
   */
  datatype Env = Env(
    dialect: string,
    quoting: Claims.Dialect,
    globs: Globs,
    datasets: Compiled -> set<string>,
    refs: (Compiled, Request) -> seq<FieldRef>,
    text: (Compiled, Request, seq<seq<RowFilter>>) -> Option<string>,
    digest: string -> string,
    requestHash: (Request, string) -> string,
    resultHash: string -> string,
    run: (Caller, string) -> Option<Table>,
    rows: (Caller, string) -> Table,
    size: Table -> nat)

  /** LIMIT n keeps the first n rows. */
  function Limited(body: string, n: nat): string {
    body + "\nLIMIT " + Decimal(n)
  }

  function Take(t: Table, n: nat): Table {
    if |t.rows| <= n then t else t.(rows := t.rows[..n])
  }

  /** What is assumed of the surroundings: hashes do not collide, and the parts of keys hold no separator. */
  ghost predicate SoundHashes(env: Env) {
    && CollisionFree(env.digest) && Free(':', env.dialect)
    && (forall r, k :: Free(':', env.requestHash(r, k)) && Free(' ', env.requestHash(r, k)))
    && (forall r, k, r', k' :: env.requestHash(r, k) == env.requestHash(r', k') ==> r == r' && k == k')
    && (forall s, t :: env.resultHash(s) == env.resultHash(t) ==> s == t)
  }

  /** An engine user sees the same with any token that is accepted. */
  ghost predicate SoundUsers(env: Env) {
    forall u, t, t', sql :: u != "" ==> env.run(Passthrough(u, t), sql) == env.run(Passthrough(u, t'), sql)
  }

  /** What comes back for a caller whose token the engine now accepts or rejects; the service's own login is not at issue. */
  function RunAs(env: Env, caller: Caller, accepted: bool, sql: string): Option<Table> {
    if caller.Passthrough? && !accepted then None else env.run(caller, sql)
  }

  // ------------------------------------------------------------------ planning afresh

  /** Query text with its comment, request hash and role key, from the authorization decision, the claims and the identity key. */
  function BodyFor(env: Env, m: Compiled, req: Request, claims: map<string, string>, v: Verdict<Decision>, key: string): Option<(string, string, string)> {
    if v.Refused? then None
    else
      var groups := RowAccess.ExpandAll(v.value.groups, RowAccess.WithClaims(claims, env.quoting), env.datasets(m));
      if groups.None? then None
      else
        var hash := env.requestHash(req, key);
        var text := env.text(m, req, groups.value);
        if text.None? then None else Some((Comment(m.name, m.version, hash) + "\n" + text.value, hash, v.value.roleKey))
  }

  /** A query text the compiler writes, before its LIMIT. */
  ghost predicate IsCompiled(env: Env, body: string) {
    exists m, req, claims, v, key :: BodyFor(env, m, req, claims, v, key).Some? && BodyFor(env, m, req, claims, v, key).value.0 == body
  }

  /** A compiled query that runs with a LIMIT gives the first of its rows; without one, or with another, it may fail all the same. */
  ghost predicate SoundRows(env: Env) {
    forall c, body, n: nat :: IsCompiled(env, body) && env.run(c, Limited(body, n)).Some? ==>
      env.run(c, Limited(body, n)).value == Take(env.rows(c, body), n)
  }

  function PlanFor(m: Compiled, req: Request, fingerprint: string, body: Option<(string, string, string)>): Option<Plan> {
    if body.None? then None
    else
      var sql := if req.limit > 0 then Limited(body.value.0, req.limit) else body.value.0;
      Some(Plan(sql, m.name, m.version, body.value.1, body.value.2, fingerprint))
  }

  /** The plan built for the caller under a given identity key. */
  ghost predicate HasKey(env: Env, m: Compiled, req: Request, id: Identity, key: string, fingerprint: string, p: Option<Plan>) {
    && IdentityKeyOf(env.globs, m.governance, id, env.digest, key)
    && exists v | Authorizes(env.globs, m.governance, id, req.metrics, env.refs(m, req), v) ::
         p == PlanFor(m, req, fingerprint, BodyFor(env, m, req, id.claims, v, key))
  }

  /** Two callers with the same identity key get the same plan, but for the external decision recorded in it. */
  lemma SameKeySamePlan(env: Env, m: Compiled, req: Request, a: Identity, b: Identity, key: string, f: string, f': string, p: Option<Plan>, q: Option<Plan>)
    requires SoundHashes(env)
    requires HasKey(env, m, req, a, key, f, p) && HasKey(env, m, req, b, key, f', q)
    ensures p.Some? == q.Some? && (p.Some? ==> p.value.(fingerprint := f') == q.value)
    ensures f == f' ==> p == q
  {
    var v :| Authorizes(env.globs, m.governance, a, req.metrics, env.refs(m, req), v) && p == PlanFor(m, req, f, BodyFor(env, m, req, a.claims, v, key));
    var w :| Authorizes(env.globs, m.governance, b, req.metrics, env.refs(m, req), w) && q == PlanFor(m, req, f', BodyFor(env, m, req, b.claims, w, key));
    KeyCoversDecision(env.globs, m.governance, a, b, env.digest, key, req.metrics, env.refs(m, req), v, w);
  }

  /** Compiling a request for a caller. */
  method Build(env: Env, m: Compiled, req: Request, id: Identity, key: string, fingerprint: string) returns (p: Option<Plan>)
    requires IdentityKeyOf(env.globs, m.governance, id, env.digest, key)
    ensures HasKey(env, m, req, id, key, fingerprint, p)
  {
    var v := Authorize.Authorize(env.globs, m.governance, id, req.metrics, env.refs(m, req));
    assert Authorizes(env.globs, m.governance, id, req.metrics, env.refs(m, req), v);
    p := PlanFor(m, req, fingerprint, BodyFor(env, m, req, id.claims, v, key));
  }

  ghost predicate IsFresh(env: Env, m: Compiled, req: Request, id: Identity, fingerprint: string, p: Option<Plan>) {
    exists key :: HasKey(env, m, req, id, key, fingerprint, p)
  }

  /** Compiling the same request for the same caller again gives the same plan. */
  lemma FreshUnique(env: Env, m: Compiled, req: Request, id: Identity, fingerprint: string, p: Option<Plan>, q: Option<Plan>)
    requires SoundHashes(env) && IsFresh(env, m, req, id, fingerprint, p) && IsFresh(env, m, req, id, fingerprint, q)
    ensures p == q
  {
    var key :| HasKey(env, m, req, id, key, fingerprint, p);
    var key' :| HasKey(env, m, req, id, key', fingerprint, q);
    IdentityKeyUnique(env.globs, m.governance, id, env.digest, key, key');
    SameKeySamePlan(env, m, req, id, id, key, fingerprint, fingerprint, p, q);
  }

  // ------------------------------------------------------------------ the service

  datatype Answer = Served(table: Table) | PlanError | ExecError | Incomplete | TooLarge

  /** The answer without any cache. */
  function Ideal(limits: Limits, env: Env, defaulted: bool, result: Option<Table>): Answer {
    var l := limits.WithDefaults();
    if result.None? then ExecError
    else if defaulted && |result.value.rows| > l.defaultRowLimit then Incomplete
    else if env.size(result.value) > l.maxResultBytes then TooLarge
    else Served(result.value)
  }

  type Models = map<(string, string), Compiled>

  /** The model is the one published under its name and version. */
  predicate Known(models: Models, m: Compiled) {
    (m.name, m.version) in models && models[(m.name, m.version)] == m && Free(':', m.name) && Free(':', m.version)
  }

  /** A cached plan is what compiling gives for the request and caller its key stands for. */
  ghost predicate PlanEntryOk(env: Env, models: Models, key: string, p: Plan) {
    exists m, req, id, idKey, fingerprint | Known(models, m) && HasKey(env, m, req, id, idKey, fingerprint, Some(p)) ::
      key == PlanKey(env.dialect, m.name, m.version, env.requestHash(req, idKey), fingerprint)
  }

  /** A cached result is what the engine gave for some compiled query and the caller its key stands for. */
  ghost predicate ResultEntryOk(env: Env, limits: Limits, models: Models, key: string, t: Table) {
    exists m, req, id, idKey, p, caller :: CachedAs(env, limits, models, key, t, m, req, id, idKey, p, caller)
  }

  ghost predicate CachedAs(env: Env, limits: Limits, models: Models, key: string, t: Table,
                           m: Compiled, req: Request, id: Identity, idKey: string, p: Plan, caller: Caller) {
    && Runnable(env, models, m, req, id, idKey, p)
    && key == KeyOf(env, m, p, caller)
    && env.run(caller, p.sql) == Some(t) && (caller.Passthrough? ==> caller.user != "")
    && env.size(t) <= limits.WithDefaults().maxCacheEntryBytes
  }

  /** `p` was compiled for the request and the caller, under a published model and a decision whose digest holds no NUL byte. */
  ghost predicate Runnable(env: Env, models: Models, m: Compiled, req: Request, id: Identity, idKey: string, p: Plan) {
    Known(models, m) && HasKey(env, m, req, id, idKey, p.fingerprint, Some(p)) && Free('\0', p.fingerprint)
  }

  /** The key a plan's result is cached under for a caller. */
  function KeyOf(env: Env, m: Compiled, p: Plan, caller: Caller): string {
    ResultKey(m.name, m.version, env.resultHash(ResultText(p.sql, Scope(p.fingerprint, UserOf(caller)))))
  }

  /** A plan compiled for one caller is the plan of every caller with the same identity key. */
  lemma KeyTransfers(env: Env, m: Compiled, req: Request, a: Identity, b: Identity, key: string, fingerprint: string, p: Option<Plan>)
    requires SoundHashes(env)
    requires HasKey(env, m, req, a, key, fingerprint, p) && IdentityKeyOf(env.globs, m.governance, b, env.digest, key)
    ensures HasKey(env, m, req, b, key, fingerprint, p)
  {
    var refs := env.refs(m, req);
    var v :| Authorizes(env.globs, m.governance, a, req.metrics, refs, v) && p == PlanFor(m, req, fingerprint, BodyFor(env, m, req, a.claims, v, key));
    IdentityKeyTells(env.globs, m.governance, a, b, env.digest, key);
    SameRoles(a, b);
    var w := if m.governance.None? then Granted(Decision(PolicyRoleList(b), Join(PolicyRoleList(b)), [])) else v;
    assert Authorizes(env.globs, m.governance, b, req.metrics, refs, w);
    assert BodyFor(env, m, req, b.claims, w, key) == BodyFor(env, m, req, a.claims, v, key);
  }

  /** A hit in the plan cache is what compiling would give. */
  lemma PlanHit(env: Env, models: Models, m: Compiled, req: Request, id: Identity, idKey: string, fingerprint: string, p: Plan)
    requires SoundHashes(env) && Known(models, m) && IdentityKeyOf(env.globs, m.governance, id, env.digest, idKey)
    requires PlanEntryOk(env, models, PlanKey(env.dialect, m.name, m.version, env.requestHash(req, idKey), fingerprint), p)
    ensures HasKey(env, m, req, id, idKey, fingerprint, Some(p))
  {
    var m', req', id', idKey', fingerprint' :| Known(models, m') && HasKey(env, m', req', id', idKey', fingerprint', Some(p))
      && PlanKey(env.dialect, m.name, m.version, env.requestHash(req, idKey), fingerprint)
      == PlanKey(env.dialect, m'.name, m'.version, env.requestHash(req', idKey'), fingerprint');
    PlanKeyInjective(env.dialect, m.name, m.version, env.requestHash(req, idKey), fingerprint,
                     env.dialect, m'.name, m'.version, env.requestHash(req', idKey'), fingerprint');
    assert m' == m && req' == req && idKey' == idKey;
    KeyTransfers(env, m, req, id', id, idKey, fingerprint, Some(p));
  }

  lemma SameUser(env: Env, c: Caller, d: Caller, sql: string)
    requires SoundUsers(env) && UserOf(c) == UserOf(d) && (c.Passthrough? ==> c.user != "")
    ensures env.run(c, sql) == env.run(d, sql)
  {
    if c.Passthrough? {
      assert env.run(Passthrough(c.user, c.token), sql) == env.run(Passthrough(c.user, d.token), sql);
    }
  }

  /** A compiled query starts with the comment that carries the hash of its request and identity key. */
  lemma SqlStarts(env: Env, m: Compiled, req: Request, id: Identity, key: string, fingerprint: string, p: Plan) returns (rest: string)
    requires HasKey(env, m, req, id, key, fingerprint, Some(p))
    ensures p.sql == Comment(m.name, m.version, env.requestHash(req, key)) + rest
  {
    var v :| Authorizes(env.globs, m.governance, id, req.metrics, env.refs(m, req), v)
          && Some(p) == PlanFor(m, req, fingerprint, BodyFor(env, m, req, id.claims, v, key));
    rest := PlanStarts(env, m, req, id.claims, v, key, fingerprint, p);
  }

  lemma PlanStarts(env: Env, m: Compiled, req: Request, claims: map<string, string>, v: Verdict<Decision>, key: string, fingerprint: string, p: Plan)
    returns (rest: string)
    requires Some(p) == PlanFor(m, req, fingerprint, BodyFor(env, m, req, claims, v, key))
    ensures p.sql == Comment(m.name, m.version, env.requestHash(req, key)) + rest
  {
    var comment := Comment(m.name, m.version, env.requestHash(req, key));
    rest := BodyStarts(env, m, req, claims, v, key);
    if req.limit > 0 {
      Regrouped(comment, rest, "\nLIMIT " + Decimal(req.limit));
      rest := rest + ("\nLIMIT " + Decimal(req.limit));
    }
  }

  lemma Regrouped(a: string, b: string, c: string)
    ensures (a + b) + c == a + (b + c)
  {}

  lemma BodyStarts(env: Env, m: Compiled, req: Request, claims: map<string, string>, v: Verdict<Decision>, key: string) returns (rest: string)
    requires BodyFor(env, m, req, claims, v, key).Some?
    ensures BodyFor(env, m, req, claims, v, key).value.0 == Comment(m.name, m.version, env.requestHash(req, key)) + rest
  {
    rest := "\n" + env.text(m, req, RowAccess.ExpandAll(v.value.groups, RowAccess.WithClaims(claims, env.quoting), env.datasets(m)).value).value;
  }

  /**
   Two plans of one model whose result keys hash the same text are the same plan: the comment gives the hash of the
   request and the identity, these give the query, and what is left over gives the decision and the engine user.
   */
  lemma SameTextSamePlan(env: Env, models: Models, m: Compiled, req: Request, id: Identity, idKey: string, p: Plan, user: User,
                         req': Request, id': Identity, idKey': string, p': Plan, user': User)
    requires SoundHashes(env)
    requires Runnable(env, models, m, req, id, idKey, p) && Runnable(env, models, m, req', id', idKey', p')
    requires ResultText(p.sql, Scope(p.fingerprint, user)) == ResultText(p'.sql, Scope(p'.fingerprint, user'))
    ensures p == p' && user == user'
  {
    SameTextSameRequest(env, m, req, id, idKey, p, user, req', id', idKey', p', user');
    SameKeySamePlan(env, m, req, id, id', idKey, p.fingerprint, p'.fingerprint, Some(p), Some(p'));
    ResultTextScope(p.sql, p.fingerprint, user, p'.fingerprint, user');
  }

  lemma SameTextSameRequest(env: Env, m: Compiled, req: Request, id: Identity, idKey: string, p: Plan, user: User,
                            req': Request, id': Identity, idKey': string, p': Plan, user': User)
    requires SoundHashes(env)
    requires HasKey(env, m, req, id, idKey, p.fingerprint, Some(p)) && HasKey(env, m, req', id', idKey', p'.fingerprint, Some(p'))
    requires ResultText(p.sql, Scope(p.fingerprint, user)) == ResultText(p'.sql, Scope(p'.fingerprint, user'))
    ensures req == req' && idKey == idKey'
  {
    var h, h' := env.requestHash(req, idKey), env.requestHash(req', idKey');
    var rest := SqlStarts(env, m, req, id, idKey, p.fingerprint, p);
    var rest' := SqlStarts(env, m, req', id', idKey', p'.fingerprint, p');
    var more := TextStarts(p.sql, Scope(p.fingerprint, user), Comment(m.name, m.version, h), rest);
    var more' := TextStarts(p'.sql, Scope(p'.fingerprint, user'), Comment(m.name, m.version, h'), rest');
    CommentTellsHash(m.name, m.version, h, h', more, more');
  }

  lemma TextStarts(sql: string, scope: string, comment: string, rest: string) returns (more: string)
    requires sql == comment + rest
    ensures ResultText(sql, scope) == comment + more
  {
    var tail := if scope != "" then "\0" + scope else "";
    more := rest + tail;
    Regrouped(comment, rest, tail);
  }

  /** A hit in the result cache is what the engine gives this caller with an accepted token, and small enough to be served. */
  lemma ResultHit(env: Env, limits: Limits, models: Models, m: Compiled, req: Request, id: Identity, idKey: string, p: Plan, caller: Caller, t: Table)
    requires SoundHashes(env) && SoundUsers(env) && Runnable(env, models, m, req, id, idKey, p)
    requires caller.Passthrough? ==> caller.user != ""
    requires ResultEntryOk(env, limits, models, KeyOf(env, m, p, caller), t)
    ensures env.run(caller, p.sql) == Some(t) && env.size(t) <= limits.WithDefaults().maxResultBytes
  {
    var m', req', id', idKey', p', caller' :| CachedAs(env, limits, models, KeyOf(env, m, p, caller), t, m', req', id', idKey', p', caller');
    var text, text' := ResultText(p.sql, Scope(p.fingerprint, UserOf(caller))), ResultText(p'.sql, Scope(p'.fingerprint, UserOf(caller')));
    ResultKeyInjective(m.name, m.version, env.resultHash(text), m'.name, m'.version, env.resultHash(text'));
    assert m == m' && text == text';
    SameTextSamePlan(env, models, m, req, id, idKey, p, UserOf(caller), req', id', idKey', p', UserOf(caller'));
    SameUser(env, caller', caller, p.sql);
  }
}
