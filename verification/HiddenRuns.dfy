/**
 Runs of an evicting limiter each of whose keyed scopes refills within the horizon or is hidden by
 the global one: they give the answers of the ledger, although buckets may stand too full.
 */
module HiddenRuns {
  import opened TokenBucket
  import opened LimiterModel
  import opened Ledger
  import opened LimiterRuns
  import opened LimiterTheorems
  import opened Hiding

  // The bucket stands where the requests after the first `from` alone would put it, and those it
  // forgot are older than the horizon.
  ghost predicate Trails(s: Scope, l: Level, times: seq<real>, from: nat, now: real, ttl: real) {
    && from <= |times| && l.last <= now
    && LevelAt(s, l, now) == LevelAfter(s, times[from..], now)
    && forall i :: 0 <= i < from ==> times[i] + ttl < now
  }

  ghost predicate KeyTrails(s: Scope, l: Level, times: seq<real>, now: real, ttl: real) {
    exists from: nat :: Trails(s, l, times, from, now, ttl)
  }

  ghost predicate MapTrails(s: Scope, m: map<string, Slot>, dim: string -> Dim, ledger: seq<Request>,
                            now: real, ttl: real)
  {
    && (forall k :: KeyTrails(s, Held(s, m, k), Times(dim(k), ledger), now, ttl))
    && (forall k :: k in m ==> UsedBy(Times(dim(k), ledger), m[k].seen))
  }

  ghost predicate UsedBy(times: seq<real>, seen: real) {
    forall i :: 0 <= i < |times| ==> times[i] <= seen
  }

  lemma TrailsLater(s: Scope, l: Level, times: seq<real>, now: real, t: real, ttl: real)
    requires s.Enabled() && KeyTrails(s, l, times, now, ttl) && now <= t
    ensures KeyTrails(s, l, times, t, ttl)
  {
    var from: nat :| Trails(s, l, times, from, now, ttl);
    LevelGrows(s, l, now, t);
    LedgerLevelGrows(s, times[from..], now, t);
    assert Trails(s, l, times, from, t, ttl);
  }

  lemma TrailsForgotten(s: Scope, times: seq<real>, seen: real, now: real, ttl: real)
    requires s.Enabled() && UsedBy(times, seen) && seen + ttl < now && 0.0 <= now
    ensures KeyTrails(s, Full(s), times, now, ttl)
  {
    AccruedMonotone(s, 0.0, now);
    assert times[|times|..] == [];
    assert Trails(s, Full(s), times, |times|, now, ttl);
  }

  lemma TrailsTouched(s: Scope, l: Level, times: seq<real>, now: real, ttl: real, take: bool)
    requires s.Live() && KeyTrails(s, l, times, now, ttl)
    ensures KeyTrails(s, Touch(s, l, now, take), if take then times + [now] else times, now, ttl)
  {
    var from: nat :| Trails(s, l, times, from, now, ttl);
    if take {
      var kept := times[from..];
      assert (times + [now])[from..] == kept + [now];
      assert (kept + [now])[..|kept|] == kept;
      assert Trails(s, Touch(s, l, now, take), times + [now], from, now, ttl);
    } else {
      assert Trails(s, Touch(s, l, now, take), times, from, now, ttl);
    }
  }

  lemma MapTrailsLater(s: Scope, m: map<string, Slot>, dim: string -> Dim, ledger: seq<Request>,
                       now: real, t: real, ttl: real)
    requires s.Enabled() && MapTrails(s, m, dim, ledger, now, ttl) && now <= t
    ensures MapTrails(s, m, dim, ledger, t, ttl)
  {
    forall k
      ensures KeyTrails(s, Held(s, m, k), Times(dim(k), ledger), t, ttl)
    {
      TrailsLater(s, Held(s, m, k), Times(dim(k), ledger), now, t, ttl);
    }
  }

  lemma MapTrailsSwept(s: Scope, m: map<string, Slot>, dim: string -> Dim, ledger: seq<Request>, now: real, ttl: real)
    requires s.Enabled() && MapTrails(s, m, dim, ledger, now, ttl) && 0.0 <= now
    ensures MapTrails(s, Sweep(m, now, ttl), dim, ledger, now, ttl)
  {
    hide KeyTrails, UsedBy;
    var swept := Sweep(m, now, ttl);
    forall k
      ensures KeyTrails(s, Held(s, swept, k), Times(dim(k), ledger), now, ttl)
    {
      assert KeyTrails(s, Held(s, m, k), Times(dim(k), ledger), now, ttl);
      if k in m && k !in swept {
        TrailsForgotten(s, Times(dim(k), ledger), m[k].seen, now, ttl);
      }
    }
  }

  lemma MapTrailsSettled(s: Scope, m: map<string, Slot>, dim: string -> Dim, ledger: seq<Request>, r: Request,
                         k: string, take: bool, ttl: real)
    requires s.Live() && MapTrails(s, m, dim, ledger, r.at, ttl) && Keys(dim, r, k)
    requires UsedBy(Times(dim(k), ledger), r.at)
    ensures MapTrails(s, Settle(s, m, k, r.at, take), dim, if take then ledger + [r] else ledger, r.at, ttl)
  {
    hide KeyTrails;
    var m', ledger' := Settle(s, m, k, r.at, take), if take then ledger + [r] else ledger;
    forall j
      ensures KeyTrails(s, Held(s, m', j), Times(dim(j), ledger'), r.at, ttl)
      ensures j in m' ==> UsedBy(Times(dim(j), ledger'), m'[j].seen)
    {
      assert KeyTrails(s, Held(s, m, j), Times(dim(j), ledger), r.at, ttl);
      TimesEntered(dim(j), ledger, r);
      if j == k {
        TrailsTouched(s, Held(s, m, k), Times(dim(k), ledger), r.at, ttl, take);
      }
    }
  }

  // ---------------------------------------------------------------------------------------
  // One keyed scope of a limiter

  function DimsOf(f: Facet): string -> Dim {
    k => f.DimOf(k)
  }

  // Exact if the scope refills within the horizon, and otherwise too full at most.
  ghost predicate Fits(f: Facet, cfg: Config, m: map<string, Slot>, ledger: seq<Request>, now: real) {
    var s := f.ScopeIn(cfg);
    if SafeHorizon(s, cfg.idleTTL) then MapMirrors(s, m, DimsOf(f), ledger, now)
    else MapTrails(s, m, DimsOf(f), ledger, now, cfg.idleTTL)
  }

  lemma FitsTicked(f: Facet, cfg: Config, st: State, ledger: seq<Request>, now: real, t: real)
    requires Fits(f, cfg, f.BucketsIn(st), ledger, now) && 0.0 <= now <= t
    ensures Fits(f, cfg, f.BucketsIn(Tick(cfg, st, t, true)), ledger, t)
  {
    hide MapMirrors, MapTrails, Sweep;
    var s, m := f.ScopeIn(cfg), f.BucketsIn(st);
    if SafeHorizon(s, cfg.idleTTL) {
      MapMirrorsLater(s, m, DimsOf(f), ledger, now, t);
      SweepMirrors(s, m, DimsOf(f), ledger, t, cfg.idleTTL);
    } else {
      MapTrailsLater(s, m, DimsOf(f), ledger, now, t, cfg.idleTTL);
      MapTrailsSwept(s, m, DimsOf(f), ledger, t, cfg.idleTTL);
    }
  }

  lemma FitsSettled(f: Facet, cfg: Config, m: map<string, Slot>, ledger: seq<Request>, r: Request, take: bool)
    requires Sound(cfg) && Fits(f, cfg, m, ledger, r.at)
    requires Chronological(ledger) && Now(ledger) <= r.at
    requires take ==> Grants(f.ScopeIn(cfg), Standing(f.ScopeIn(cfg), m, f.KeyOf(r), r.at))
    ensures Fits(f, cfg, Settle(f.ScopeIn(cfg), m, f.KeyOf(r), r.at, take), if take then ledger + [r] else ledger, r.at)
  {
    hide MapMirrors, MapTrails, Settle, Standing;
    var s := f.ScopeIn(cfg);
    if SafeHorizon(s, cfg.idleTTL) {
      MapMirrorsSettle(s, m, DimsOf(f), ledger, r, f.KeyOf(r), take);
    } else {
      TimesUsedBy(f.DimOf(f.KeyOf(r)), ledger, r.at);
      MapTrailsSettled(s, m, DimsOf(f), ledger, r, f.KeyOf(r), take, cfg.idleTTL);
    }
  }

  lemma {:induction false} TimesUsedBy(d: Dim, ledger: seq<Request>, now: real)
    requires Chronological(ledger) && Now(ledger) <= now
    ensures UsedBy(Times(d, ledger), now)
  {
    if ledger != [] {
      TimesUsedBy(d, ledger[..|ledger| - 1], now);
    }
  }

  // Standing at `actual` instead of `level` makes no difference beside a global level of `global`.
  predicate NoMatter(cfg: Config, s: Scope, actual: real, level: real, global: real) {
    s.Enabled() ==>
      actual == level || (level <= actual && Wait(s, level, cfg.maxWait) <= Wait(cfg.global, global, cfg.maxWait))
  }

  lemma FittingLevel(f: Facet, cfg: Config, m: map<string, Slot>, ledger: seq<Request>, r: Request)
    requires Sound(cfg) && Hidden(f.ScopeIn(cfg), cfg.global, cfg.idleTTL)
    requires Fits(f, cfg, m, ledger, r.at) && Chronological(ledger) && Now(ledger) <= r.at
    ensures NoMatter(cfg, f.ScopeIn(cfg), Standing(f.ScopeIn(cfg), m, f.KeyOf(r), r.at),
                     LevelAfter(f.ScopeIn(cfg), Times(f.DimOf(f.KeyOf(r)), ledger), r.at),
                     LevelAfter(cfg.global, Times(Everyone, ledger), r.at))
  {
    hide LevelAfter, LevelAt, Wait, Hides, Chronological, Held, CountSince;
    var s, k := f.ScopeIn(cfg), f.KeyOf(r);
    var d := DimsOf(f)(k);
    var times, all := Times(d, ledger), Times(Everyone, ledger);
    if SafeHorizon(s, cfg.idleTTL) {
      assert Mirrors(s, Held(s, m, k), times, r.at);
    } else {
      assert KeyTrails(s, Held(s, m, k), times, r.at, cfg.idleTTL);
      var from: nat :| Trails(s, Held(s, m, k), times, from, r.at, cfg.idleTTL);
      TimesInOrder(d, ledger, r.at);
      TimesInOrder(Everyone, ledger, r.at);
      forall w: real
        ensures CountSince(times, w) <= CountSince(all, w)
      {
        KeyCountsLess(d, ledger, w);
      }
      HidingIsLive(cfg, s);
      ForgettingIsCovered(s, cfg.global, cfg.idleTTL, times, from, all, r.at, cfg.maxWait);
    }
  }

  lemma HidingIsLive(cfg: Config, s: Scope)
    requires Sound(cfg) && Hides(cfg.global, s, cfg.idleTTL)
    ensures cfg.global.Live()
  {
  }

  lemma TimesInOrder(d: Dim, ledger: seq<Request>, now: real)
    requires Chronological(ledger) && Now(ledger) <= now
    ensures Ascending(Times(d, ledger)) && Before(Times(d, ledger), now)
  {
    TimesAscend(d, ledger);
  }

  lemma SameJudgement(cfg: Config, user: real, target: real, global: real, user': real, target': real)
    requires Sound(cfg)
    requires NoMatter(cfg, cfg.user, user', user, global) && NoMatter(cfg, cfg.target, target', target, global)
    ensures Judge(cfg, user', target', global) == Judge(cfg, user, target, global)
  {
    WaitIffRefused(cfg.user, user, cfg.maxWait);
    WaitIffRefused(cfg.user, user', cfg.maxWait);
    WaitIffRefused(cfg.target, target, cfg.maxWait);
    WaitIffRefused(cfg.target, target', cfg.maxWait);
    WaitIffRefused(cfg.global, global, cfg.maxWait);
    HigherWaitsLess(cfg, cfg.user, user', user, global);
    HigherWaitsLess(cfg, cfg.target, target', target, global);
    hide Wait, Grants;
  }

  lemma HigherWaitsLess(cfg: Config, s: Scope, actual: real, level: real, global: real)
    requires s.Enabled() ==> s.burst >= 1
    requires NoMatter(cfg, s, actual, level, global)
    ensures actual == level || !s.Enabled() || Wait(s, actual, cfg.maxWait) <= Wait(cfg.global, global, cfg.maxWait)
    ensures !s.Enabled() ==> Wait(s, actual, cfg.maxWait) == Wait(s, level, cfg.maxWait)
  {
    if s.Enabled() && level <= actual < 1.0 {
      var a, b := (1.0 - actual) / s.rate, (1.0 - level) / s.rate;
      assert a * s.rate == 1.0 - actual && b * s.rate == 1.0 - level;
      assert (b - a) * s.rate >= 0.0;
    } else if s.Enabled() && level <= actual && level < 1.0 {
      var b := (1.0 - level) / s.rate;
      assert b * s.rate == 1.0 - level;
    }
  }

  // ---------------------------------------------------------------------------------------
  // Runs

  ghost predicate HiddenIn(cfg: Config) {
    Hidden(cfg.user, cfg.global, cfg.idleTTL) && Hidden(cfg.target, cfg.global, cfg.idleTTL)
  }

  ghost predicate FitsAll(cfg: Config, st: State, ledger: seq<Request>, now: real) {
    && Fits(Users, cfg, st.users, ledger, now)
    && Fits(Targets, cfg, st.targets, ledger, now)
    && Mirrors(cfg.global, st.global, Times(Everyone, ledger), now)
  }

  function Ruling(cfg: Config, ticked: State, r: Request): Answer {
    Judge(cfg, Standing(cfg.user, ticked.users, r.user, r.at), Standing(cfg.target, ticked.targets, r.target, r.at),
          LevelAt(cfg.global, ticked.global, r.at))
  }

  lemma AdmittedGrants(cfg: Config, ticked: State, r: Request)
    requires Ruling(cfg, ticked, r).Admitted?
    ensures Grants(cfg.user, Standing(cfg.user, ticked.users, r.user, r.at))
    ensures Grants(cfg.target, Standing(cfg.target, ticked.targets, r.target, r.at))
    ensures Grants(cfg.global, LevelAt(cfg.global, ticked.global, r.at))
  {
  }

  lemma GlobalIsExact(cfg: Config, st: State, ledger: seq<Request>, now: real)
    requires Sound(cfg) && Mirrors(cfg.global, st.global, Times(Everyone, ledger), now)
    ensures cfg.global.Enabled() ==>
              LevelAt(cfg.global, st.global, now) == LevelAfter(cfg.global, Times(Everyone, ledger), now)
  {
  }

  lemma SameRuling(cfg: Config, ticked: State, ledger: seq<Request>, r: Request)
    requires Sound(cfg) && HiddenIn(cfg) && FitsAll(cfg, ticked, ledger, r.at)
    requires Chronological(ledger) && Now(ledger) <= r.at
    ensures Ruling(cfg, ticked, r) == LedgerAnswer(cfg, ledger, r)
  {
    hide Fits, Hidden, LevelAfter, LevelAt, Chronological, NoMatter, Mirrors;
    FittingLevel(Users, cfg, ticked.users, ledger, r);
    FittingLevel(Targets, cfg, ticked.targets, ledger, r);
    GlobalIsExact(cfg, ticked, ledger, r.at);
    var user, target := LevelAfter(cfg.user, Times(ByUser(r.user), ledger), r.at),
                        LevelAfter(cfg.target, Times(ByTarget(r.target), ledger), r.at);
    var global := LevelAfter(cfg.global, Times(Everyone, ledger), r.at);
    SameJudgement(cfg, user, target, global, Standing(cfg.user, ticked.users, r.user, r.at),
                  Standing(cfg.target, ticked.targets, r.target, r.at));
    hide Standing;
  }

  lemma GlobalSettled(cfg: Config, ticked: State, ledger: seq<Request>, r: Request, take: bool)
    requires Sound(cfg) && Mirrors(cfg.global, ticked.global, Times(Everyone, ledger), r.at)
    requires take ==> Grants(cfg.global, LevelAt(cfg.global, ticked.global, r.at))
    ensures Mirrors(cfg.global,
                    if cfg.global.Enabled() then Touch(cfg.global, ticked.global, r.at, take) else ticked.global,
                    Times(Everyone, if take then ledger + [r] else ledger), r.at)
  {
    if cfg.global.Enabled() {
      MirrorsTouch(cfg.global, ticked.global, Times(Everyone, ledger), r.at, take);
      TimesEntered(Everyone, ledger, r);
    }
  }

  lemma StepFits(cfg: Config, st: State, ledger: seq<Request>, now: real, r: Request)
    requires Sound(cfg) && HiddenIn(cfg) && FitsAll(cfg, st, ledger, now) && 0.0 <= now <= r.at
    requires Chronological(ledger) && Now(ledger) <= r.at
    ensures Step(cfg, st, r, true).1 == LedgerAnswer(cfg, ledger, r)
    ensures FitsAll(cfg, Step(cfg, st, r, true).0, Enter(ledger, r, LedgerAnswer(cfg, ledger, r)), r.at)
  {
    hide Fits, HiddenIn, Sound, Touch, Chronological, Settle, Sweep, Judge, Mirrors, LedgerAnswer, LevelAt, Grants;
    FitsTicked(Users, cfg, st, ledger, now, r.at);
    FitsTicked(Targets, cfg, st, ledger, now, r.at);
    MirrorsLater(cfg.global, st.global, Times(Everyone, ledger), now, r.at);
    var ticked := Tick(cfg, st, r.at, true);
    SameRuling(cfg, ticked, ledger, r);
    var take := Ruling(cfg, ticked, r).Admitted?;
    if take {
      AdmittedGrants(cfg, ticked, r);
    }
    FitsSettled(Users, cfg, ticked.users, ledger, r, take);
    FitsSettled(Targets, cfg, ticked.targets, ledger, r, take);
    GlobalSettled(cfg, ticked, ledger, r, take);
  }

  lemma StartFits(cfg: Config)
    requires Sound(cfg)
    ensures FitsAll(cfg, Initial(cfg), [], 0.0)
  {
    forall f: Facet
      ensures Fits(f, cfg, map[], [], 0.0)
    {
      var s := f.ScopeIn(cfg);
      forall k
        ensures Trails(s, Full(s), Times(f.DimOf(k), []), 0, 0.0, cfg.idleTTL)
      {
      }
    }
  }

  /** Over every run the evicting limiter answers as the ledger does, if evictions are hidden in both keyed scopes. */
  lemma {:induction false} HiddenRunIsLedgers(cfg: Config, reqs: seq<Request>)
    requires Sound(cfg) && HiddenIn(cfg) && Chronological(reqs)
    ensures Run(cfg, reqs, true).1 == LedgerRun(cfg, reqs).1
    ensures FitsAll(cfg, Run(cfg, reqs, true).0, LedgerRun(cfg, reqs).0, Now(reqs))
  {
    hide FitsAll, HiddenIn, Sound, Step, LedgerAnswer;
    ReplayChronological(LedgerRule(cfg), reqs);
    if reqs == [] {
      StartFits(cfg);
    } else {
      var init, r := reqs[..|reqs| - 1], reqs[|reqs| - 1];
      ReplayChronological(LedgerRule(cfg), init);
      HiddenRunIsLedgers(cfg, init);
      StepFits(cfg, Run(cfg, init, true).0, LedgerRun(cfg, init).0, Now(init), r);
    }
  }
}
