/**
 A keyed scope that is at least as generous as the global one has no say: the process runs out of
 tokens first.  Such a scope may forget its idle buckets however it likes.
 */
module Dominance {
  import opened TokenBucket
  import opened LimiterModel
  import opened Ledger
  import opened LimiterRuns
  import opened HiddenRuns
  import opened Hiding
  import opened Eviction

  // Scope s never runs out before scope g.
  predicate Dominated(s: Scope, g: Scope) {
    s.Live() && g.Live() && g.burst <= s.burst && g.rate <= s.rate
  }

  // The same limiter with one keyed scope off.
  function Without(cfg: Config, f: Facet): Config {
    if f.Users? then cfg.(user := Scope(0.0, 0)) else cfg.(target := Scope(0.0, 0))
  }

  // ---------------------------------------------------------------------------------------
  // No bucket of s has spent more than the global one

  ghost predicate LevelAhead(s: Scope, l: Level, g: Scope, global: Level, now: real) {
    && l.last <= now && global.last <= now
    && LevelAt(g, global, now) - g.burst as real <= LevelAt(s, l, now) - s.burst as real
  }

  lemma LevelAheadLater(s: Scope, l: Level, g: Scope, global: Level, now: real, t: real)
    requires Dominated(s, g) && LevelAhead(s, l, g, global, now) && now <= t
    ensures LevelAhead(s, l, g, global, t)
  {
    LevelGrows(s, l, now, t);
    LevelGrows(g, global, now, t);
    FasterRefill(s, g, now, t);
    hide LevelAt, Accrued;
  }

  lemma FasterRefill(s: Scope, g: Scope, now: real, t: real)
    requires g.rate <= s.rate && now <= t
    ensures Accrued(g, t) - Accrued(g, now) <= Accrued(s, t) - Accrued(s, now)
  {
    var faster, gap := s.rate - g.rate, t - now;
    assert faster * gap >= 0.0;
    assert s.rate * gap == g.rate * gap + faster * gap;
    AccruedIsRateTimesLength(s, now, t);
    AccruedIsRateTimesLength(g, now, t);
  }

  ghost predicate Ahead(s: Scope, m: map<string, Slot>, g: Scope, global: Level, now: real) {
    forall k :: LevelAhead(s, Held(s, m, k), g, global, now)
  }

  lemma AheadLater(s: Scope, m: map<string, Slot>, g: Scope, global: Level, now: real, t: real)
    requires Dominated(s, g) && Ahead(s, m, g, global, now) && now <= t
    ensures Ahead(s, m, g, global, t)
  {
    forall k
      ensures LevelAhead(s, Held(s, m, k), g, global, t)
    {
      LevelAheadLater(s, Held(s, m, k), g, global, now, t);
    }
  }

  // A forgotten bucket comes back full, and so further ahead.
  lemma AheadAfterSweep(s: Scope, m: map<string, Slot>, g: Scope, global: Level, now: real, ttl: real)
    requires Dominated(s, g) && Ahead(s, m, g, global, now) && 0.0 <= now
    ensures Ahead(s, Sweep(m, now, ttl), g, global, now)
  {
    AccruedMonotone(s, 0.0, now);
    forall k
      ensures LevelAhead(s, Held(s, Sweep(m, now, ttl), k), g, global, now)
    {
      assert LevelAhead(s, Held(s, m, k), g, global, now);
    }
  }

  lemma AheadAfterCall(s: Scope, m: map<string, Slot>, g: Scope, global: Level, k: string, now: real, take: bool)
    requires Dominated(s, g) && Ahead(s, m, g, global, now)
    ensures Ahead(s, Settle(s, m, k, now, take), g, Touch(g, global, now, take), now)
  {
    forall j
      ensures LevelAhead(s, Held(s, Settle(s, m, k, now, take), j), g, Touch(g, global, now, take), now)
    {
      assert LevelAhead(s, Held(s, m, j), g, global, now);
    }
  }

  // ---------------------------------------------------------------------------------------
  // So it never decides

  lemma ShorterWait(s: Scope, level: real, g: Scope, global: real, maxWait: real)
    requires Dominated(s, g) && global <= level
    ensures Grants(g, global) ==> Grants(s, level)
    ensures 0.0 <= Wait(s, level, maxWait) <= Wait(g, global, maxWait)
  {
    if level < 1.0 {
      var slow, fast := (1.0 - global) / g.rate, (1.0 - level) / s.rate;
      assert slow * g.rate == 1.0 - global && fast * s.rate == 1.0 - level;
      assert fast * (s.rate - g.rate) >= 0.0;
      assert fast * s.rate == fast * g.rate + fast * (s.rate - g.rate);
    }
  }

  lemma SameVerdict(f: Facet, cfg: Config, user: real, target: real, global: real, user': real, target': real)
    requires Dominated(f.ScopeIn(cfg), cfg.global) && global <= (if f.Users? then user else target)
    requires if f.Users? then target' == target else user' == user
    ensures Judge(Without(cfg, f), user', target', global) == Judge(cfg, user, target, global)
  {
    ShorterWait(f.ScopeIn(cfg), if f.Users? then user else target, cfg.global, global, cfg.maxWait);
    hide Shortfall;
  }

  // The two limiters agree on everything but the buckets of f.
  predicate Agree(f: Facet, st: State, st': State) {
    st'.global == st.global && st'.calls == st.calls && f.Other().BucketsIn(st') == f.Other().BucketsIn(st)
  }

  ghost predicate AheadIn(f: Facet, cfg: Config, st: State, now: real) {
    Ahead(f.ScopeIn(cfg), f.BucketsIn(st), cfg.global, st.global, now)
  }

  lemma TickAhead(f: Facet, cfg: Config, st: State, now: real, t: real, evicting: bool)
    requires Dominated(f.ScopeIn(cfg), cfg.global) && AheadIn(f, cfg, st, now) && 0.0 <= now <= t
    ensures AheadIn(f, cfg, Tick(cfg, st, t, evicting), t)
  {
    AheadLater(f.ScopeIn(cfg), f.BucketsIn(st), cfg.global, st.global, now, t);
    AheadAfterSweep(f.ScopeIn(cfg), f.BucketsIn(st), cfg.global, st.global, t, cfg.idleTTL);
    hide Ahead, Sweep;
  }

  lemma TickAgrees(f: Facet, cfg: Config, st: State, st': State, t: real, evicting: bool)
    requires Agree(f, st, st')
    ensures Agree(f, Tick(cfg, st, t, evicting), Tick(Without(cfg, f), st', t, evicting))
  {
    hide Sweep;
  }

  function VerdictOn(cfg: Config, ticked: State, r: Request): Answer {
    Judge(cfg, Standing(cfg.user, ticked.users, r.user, r.at), Standing(cfg.target, ticked.targets, r.target, r.at),
          LevelAt(cfg.global, ticked.global, r.at))
  }

  lemma VerdictAgrees(f: Facet, cfg: Config, ticked: State, ticked': State, r: Request)
    requires Dominated(f.ScopeIn(cfg), cfg.global) && AheadIn(f, cfg, ticked, r.at) && Agree(f, ticked, ticked')
    ensures VerdictOn(Without(cfg, f), ticked', r) == VerdictOn(cfg, ticked, r)
  {
    hide LevelAt, Judge, Ahead, Dominated, Held;
    AheadHere(f.ScopeIn(cfg), f.BucketsIn(ticked), cfg.global, ticked.global, f.KeyOf(r), r.at);
    SameVerdict(f, cfg, Standing(cfg.user, ticked.users, r.user, r.at),
                Standing(cfg.target, ticked.targets, r.target, r.at),
                LevelAt(cfg.global, ticked.global, r.at),
                Standing(Without(cfg, f).user, ticked'.users, r.user, r.at),
                Standing(Without(cfg, f).target, ticked'.targets, r.target, r.at));
  }

  lemma StepAgrees(f: Facet, cfg: Config, st: State, st': State, r: Request, now: real, evicting: bool)
    requires Dominated(f.ScopeIn(cfg), cfg.global) && AheadIn(f, cfg, st, now) && 0.0 <= now <= r.at
    requires Agree(f, st, st')
    ensures Step(Without(cfg, f), st', r, evicting).1 == Step(cfg, st, r, evicting).1
    ensures Agree(f, Step(cfg, st, r, evicting).0, Step(Without(cfg, f), st', r, evicting).0)
    ensures AheadIn(f, cfg, Step(cfg, st, r, evicting).0, r.at)
  {
    hide LevelAt, Touch, Judge, Ahead, Dominated, Tick, Standing, Held;
    TickAhead(f, cfg, st, now, r.at, evicting);
    TickAgrees(f, cfg, st, st', r.at, evicting);
    var ticked := Tick(cfg, st, r.at, evicting);
    AheadHere(f.ScopeIn(cfg), f.BucketsIn(ticked), cfg.global, ticked.global, f.KeyOf(r), r.at);
    VerdictAgrees(f, cfg, ticked, Tick(Without(cfg, f), st', r.at, evicting), r);
    var take := VerdictOn(cfg, ticked, r).Admitted?;
    AheadAfterCall(f.ScopeIn(cfg), f.BucketsIn(ticked), cfg.global, ticked.global, f.KeyOf(r), r.at, take);
  }

  lemma AheadHere(s: Scope, m: map<string, Slot>, g: Scope, global: Level, k: string, now: real)
    requires Dominated(s, g) && Ahead(s, m, g, global, now)
    ensures LevelAt(g, global, now) <= Standing(s, m, k, now) && s.Enabled() && g.Enabled()
  {
    assert LevelAhead(s, Held(s, m, k), g, global, now);
  }

  lemma {:induction false} RunAgrees(f: Facet, cfg: Config, reqs: seq<Request>, evicting: bool)
    requires Dominated(f.ScopeIn(cfg), cfg.global) && Chronological(reqs)
    ensures Run(Without(cfg, f), reqs, evicting).1 == Run(cfg, reqs, evicting).1
    ensures Agree(f, Run(cfg, reqs, evicting).0, Run(Without(cfg, f), reqs, evicting).0)
    ensures AheadIn(f, cfg, Run(cfg, reqs, evicting).0, Now(reqs)) && 0.0 <= Now(reqs)
  {
    hide Step, Ahead;
    if reqs == [] {
      AheadAtFirst(f, cfg);
    } else {
      var init, r := reqs[..|reqs| - 1], reqs[|reqs| - 1];
      RunAgrees(f, cfg, init, evicting);
      StepAgrees(f, cfg, Run(cfg, init, evicting).0, Run(Without(cfg, f), init, evicting).0, r, Now(init), evicting);
    }
  }

  lemma AheadAtFirst(f: Facet, cfg: Config)
    ensures AheadIn(f, cfg, Initial(cfg), 0.0)
  {
  }

  /** A keyed scope at least as generous as the global one can be switched off without changing an answer in any run. */
  lemma DominatedScopeHasNoSay(f: Facet, cfg: Config, reqs: seq<Request>, evicting: bool)
    requires Dominated(f.ScopeIn(cfg), cfg.global) && Chronological(reqs)
    ensures Run(Without(cfg, f), reqs, evicting).1 == Run(cfg, reqs, evicting).1
  {
    RunAgrees(f, cfg, reqs, evicting);
  }

  /**
   With a global scope eviction is invisible also where a burst does not refill within the horizon,
   as long as the scope is at least as generous as the global one.
   */
  lemma EvictionHiddenByTheGlobalScope(cfg: Config, reqs: seq<Request>)
    requires Chronological(reqs)
    requires SafeHorizon(cfg.user, cfg.idleTTL) || Dominated(cfg.user, cfg.global)
    requires SafeHorizon(cfg.target, cfg.idleTTL) || Dominated(cfg.target, cfg.global)
    ensures Run(cfg, reqs, true).1 == Run(cfg, reqs, false).1
  {
    var cfg1 := if Dominated(cfg.user, cfg.global) then Without(cfg, Users) else cfg;
    var cfg2 := if Dominated(cfg.target, cfg.global) then Without(cfg1, Targets) else cfg1;
    forall evicting: bool
      ensures Run(cfg, reqs, evicting).1 == Run(cfg2, reqs, evicting).1
    {
      if Dominated(cfg.user, cfg.global) {
        DominatedScopeHasNoSay(Users, cfg, reqs, evicting);
      }
      if Dominated(cfg.target, cfg.global) {
        DominatedScopeHasNoSay(Targets, cfg1, reqs, evicting);
      }
    }
    EvictionIsInvisible(cfg2, reqs);
  }

  // A dominated scope is hidden, whatever the horizon.
  lemma DominatedIsHidden(s: Scope, g: Scope, ttl: real)
    requires Dominated(s, g) && 0.0 < ttl
    ensures Hidden(s, g, ttl)
  {
    assert s.rate * ttl > 0.0;
    var k, d := BeyondHorizon(s, ttl) as real, s.rate - g.rate;
    assert k * d >= 0.0;
    assert (g.burst - s.burst) as real * s.rate <= 0.0;
  }

  // Three tokens per target at one an hour, but one for the process a day, and ten minutes' horizon.
  const TIGHT_GLOBAL := Config(Scope(0.0, 0), Scope(1.0 / 3600.0, 3), Scope(1.0 / 86400.0, 1), 60.0, 600.0)

  /** So with a global scope the condition on the horizon is not necessary. */
  lemma TightGlobalHidesEviction(reqs: seq<Request>)
    requires Chronological(reqs)
    ensures Sound(TIGHT_GLOBAL) && !SafeHorizon(TIGHT_GLOBAL.target, TIGHT_GLOBAL.idleTTL)
    ensures Run(TIGHT_GLOBAL, reqs, true).1 == Run(TIGHT_GLOBAL, reqs, false).1
  {
    DominatedIsHidden(TIGHT_GLOBAL.target, TIGHT_GLOBAL.global, TIGHT_GLOBAL.idleTTL);
    HiddenEvictionIsInvisible(TIGHT_GLOBAL, reqs);
  }
}
