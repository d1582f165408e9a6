/**
 The multi-bucket limiter as values: configuration, state, and one `Reserve` call written as
 check-every-bucket-then-take.  The imperative limiter in RateLimiter.dfy, which takes first
 and rolls back, is proved equal to `Step`.
 */
module LimiterModel {
  import opened TokenBucket

  const SWEEP_EVERY := 256
  const DEFAULT_MAX_WAIT := 60.0
  const DEFAULT_IDLE_TTL := 600.0

  datatype Config = Config(
    user: Scope,
    target: Scope,
    global: Scope,
    maxWait: real,
    idleTTL: real
  )

  datatype ConfigError =
    | NegativeRate(dim: string)
    | ZeroBurst(dim: string)
    | NoScope
    | NegativeMaxWait
    | BadProxy

  datatype Verdict = Valid | Invalid(error: ConfigError)

  function CheckScope(s: Scope, dim: string): (v: Verdict)
    ensures v.Valid? <==> s.rate >= 0.0 && (s.rate > 0.0 ==> s.burst >= 1)
  {
    if s.rate < 0.0 then Invalid(NegativeRate(dim))
    else if s.Enabled() && s.burst < 1 then Invalid(ZeroBurst(dim))
    else Valid
  }

  // `proxiesParse` says whether the trusted-proxy list parses.
  function Check(enabled: bool, cfg: Config, proxiesParse: bool): (v: Verdict)
    ensures v.Valid? <==> (enabled ==>
      && CheckScope(cfg.user, "user").Valid?
      && CheckScope(cfg.target, "target").Valid?
      && CheckScope(cfg.global, "global").Valid?
      && Limits(cfg) && cfg.maxWait >= 0.0 && proxiesParse)
    ensures enabled && v.Valid? ==> Sound(Defaulted(cfg))
  {
    if !enabled then Valid
    else if CheckScope(cfg.user, "user").Invalid? then CheckScope(cfg.user, "user")
    else if CheckScope(cfg.target, "target").Invalid? then CheckScope(cfg.target, "target")
    else if CheckScope(cfg.global, "global").Invalid? then CheckScope(cfg.global, "global")
    else if !Limits(cfg) then Invalid(NoScope)
    else if cfg.maxWait < 0.0 then Invalid(NegativeMaxWait)
    else if !proxiesParse then Invalid(BadProxy)
    else Valid
  }

  predicate Limits(cfg: Config) {
    cfg.user.Enabled() || cfg.target.Enabled() || cfg.global.Enabled()
  }

  // Zero waits and horizons fall back to the built-in ones.
  function Defaulted(cfg: Config): Config {
    cfg.(maxWait := if cfg.maxWait <= 0.0 then DEFAULT_MAX_WAIT else cfg.maxWait,
         idleTTL := if cfg.idleTTL <= 0.0 then DEFAULT_IDLE_TTL else cfg.idleTTL)
  }

  // A disabled limiter builds no buckets, whatever its scopes say.
  function Off(cfg: Config): Config {
    var none := Scope(0.0, 0);
    Defaulted(cfg).(user := none, target := none, global := none)
  }

  // What a limiter that passed validation relies on.
  predicate Sound(cfg: Config) {
    && (cfg.user.Enabled() ==> cfg.user.burst >= 1)
    && (cfg.target.Enabled() ==> cfg.target.burst >= 1)
    && (cfg.global.Enabled() ==> cfg.global.burst >= 1)
    && cfg.maxWait > 0.0
    && cfg.idleTTL > 0.0
  }

  datatype Request = Request(user: string, target: string, at: real)

  datatype Answer = Admitted | Denied(retryAfter: real)

  datatype Slot = Slot(level: Level, seen: real)

  datatype State = State(
    users: map<string, Slot>,
    targets: map<string, Slot>,
    global: Level,
    calls: nat
  )

  function Initial(cfg: Config): State {
    State(map[], map[], Full(cfg.global), 0)
  }

  // The level held for a key; a key without a bucket would get a full one.
  function Held(s: Scope, m: map<string, Slot>, k: string): Level {
    if k in m then m[k].level else Full(s)
  }

  // How long one dimension makes a request wait, and whether it grants at once.
  function Wait(s: Scope, level: real, maxWait: real): real {
    if !s.Enabled() then 0.0
    else if s.burst < 1 then maxWait
    else Shortfall(s, level)
  }

  predicate Grants(s: Scope, level: real) {
    s.Enabled() ==> s.burst >= 1 && level >= 1.0
  }

  lemma WaitIffRefused(s: Scope, level: real, maxWait: real)
    requires maxWait > 0.0
    ensures Wait(s, level, maxWait) >= 0.0
    ensures Wait(s, level, maxWait) > 0.0 <==> !Grants(s, level)
  {
    if s.Live() && level < 1.0 {
      var q := (1.0 - level) / s.rate;
      assert q * s.rate == 1.0 - level;
    }
  }

  // The longest wait any dimension asks for, given the level each stands at.
  function LongestWait(cfg: Config, user: real, target: real, global: real): real {
    Max(Wait(cfg.user, user, cfg.maxWait),
        Max(Wait(cfg.target, target, cfg.maxWait), Wait(cfg.global, global, cfg.maxWait)))
  }

  // The answer, given the level each dimension stands at.
  function Judge(cfg: Config, user: real, target: real, global: real): Answer {
    if Grants(cfg.user, user) && Grants(cfg.target, target) && Grants(cfg.global, global) then Admitted
    else Denied(Min(LongestWait(cfg, user, target, global), cfg.maxWait))
  }

  // Drops the keys not seen within the horizon.
  function Sweep(m: map<string, Slot>, now: real, ttl: real): map<string, Slot> {
    map k | k in m && now - m[k].seen <= ttl :: m[k]
  }

  // The call counter goes up and every 256th call sweeps.
  function Tick(cfg: Config, st: State, now: real, evicting: bool): State {
    var calls := st.calls + 1;
    if evicting && calls % SWEEP_EVERY == 0 then
      st.(calls := calls,
          users := Sweep(st.users, now, cfg.idleTTL),
          targets := Sweep(st.targets, now, cfg.idleTTL))
    else st.(calls := calls)
  }

  function Standing(s: Scope, m: map<string, Slot>, k: string, now: real): real {
    LevelAt(s, Held(s, m, k), now)
  }

  function Settle(s: Scope, m: map<string, Slot>, k: string, now: real, take: bool): map<string, Slot> {
    if s.Enabled() then m[k := Slot(Touch(s, Held(s, m, k), now, take), now)] else m
  }

  // Decides first, then takes a token from every dimension or from none.
  function Step(cfg: Config, st0: State, r: Request, evicting: bool): (State, Answer) {
    var st := Tick(cfg, st0, r.at, evicting);
    var a := Judge(cfg,
                   Standing(cfg.user, st.users, r.user, r.at),
                   Standing(cfg.target, st.targets, r.target, r.at),
                   LevelAt(cfg.global, st.global, r.at));
    var take := a.Admitted?;
    (State(Settle(cfg.user, st.users, r.user, r.at, take),
           Settle(cfg.target, st.targets, r.target, r.at, take),
           if cfg.global.Enabled() then Touch(cfg.global, st.global, r.at, take) else st.global,
           st.calls),
     a)
  }

  // The time of the latest request.
  function Now(reqs: seq<Request>): real {
    if reqs == [] then 0.0 else reqs[|reqs| - 1].at
  }

  // Requests in order, on a clock that does not run backwards.
  predicate Chronological(reqs: seq<Request>) {
    reqs == [] ||
    (Chronological(reqs[..|reqs| - 1]) && Now(reqs[..|reqs| - 1]) <= Now(reqs))
  }

  function Run(cfg: Config, reqs: seq<Request>, evicting: bool): (r: (State, seq<Answer>))
    ensures |r.1| == |reqs|
  {
    if reqs == [] then (Initial(cfg), [])
    else
      var (st, answers) := Run(cfg, reqs[..|reqs| - 1], evicting);
      var (st', a) := Step(cfg, st, reqs[|reqs| - 1], evicting);
      (st', answers + [a])
  }
}
