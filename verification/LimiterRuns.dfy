/**
 What holds of the limiter over whole runs, each result by way of the ledger: the keyed buckets,
 their lazy creation, their eviction and the rollback of denied calls are all invisible.
 */
module LimiterRuns {
  import opened TokenBucket
  import opened LimiterModel
  import opened Ledger

  // ---------------------------------------------------------------------------------------
  // One bucket against the times it granted

  // From `now` on the bucket stands where the granted requests alone would put it.
  ghost predicate Mirrors(s: Scope, l: Level, times: seq<real>, now: real) {
    s.Live() ==>
      && l.last <= now
      && l.tokens >= 0.0
      && LevelAt(s, l, now) == LevelAfter(s, times, now)
  }

  lemma MirrorsLater(s: Scope, l: Level, times: seq<real>, now: real, t: real)
    requires Mirrors(s, l, times, now) && now <= t
    ensures Mirrors(s, l, times, t)
  {
    if s.Live() {
      LevelGrows(s, l, now, t);
      LedgerLevelGrows(s, times, now, t);
    }
  }

  lemma MirrorsTouch(s: Scope, l: Level, times: seq<real>, now: real, take: bool)
    requires Mirrors(s, l, times, now)
    requires take && s.Live() ==> LevelAt(s, l, now) >= 1.0
    ensures Mirrors(s, Touch(s, l, now, take), if take then times + [now] else times, now)
  {
    if s.Live() {
      AccruedMonotone(s, l.last, now);
      assert take ==> (times + [now])[..|times|] == times;
    }
  }

  // ---------------------------------------------------------------------------------------
  // A keyed registry against the ledger

  ghost predicate MapMirrors(s: Scope, m: map<string, Slot>, dim: string -> Dim, ledger: seq<Request>, now: real) {
    && (forall k :: Mirrors(s, Held(s, m, k), Times(dim(k), ledger), now))
    && (forall k :: k in m && s.Live() ==> m[k].level.last == m[k].seen)
  }

  // An evicted bucket would have been full again.
  ghost predicate SafeHorizon(s: Scope, ttl: real) {
    s.Enabled() ==> s.burst as real <= s.rate * ttl
  }

  lemma IdleBucketIsFull(s: Scope, l: Level, now: real, ttl: real)
    requires s.Live() && SafeHorizon(s, ttl) && l.tokens >= 0.0 && now - l.last > ttl
    ensures LevelAt(s, l, now) == s.burst as real
  {
    assert Accrued(s, l.last + ttl) == Accrued(s, l.last) + s.rate * ttl;
    AccruedMonotone(s, l.last + ttl, now);
  }

  lemma SweepMirrors(s: Scope, m: map<string, Slot>, dim: string -> Dim, ledger: seq<Request>, now: real, ttl: real)
    requires MapMirrors(s, m, dim, ledger, now) && SafeHorizon(s, ttl) && 0.0 <= now
    ensures MapMirrors(s, Sweep(m, now, ttl), dim, ledger, now)
  {
    var swept := Sweep(m, now, ttl);
    forall k
      ensures Mirrors(s, Held(s, swept, k), Times(dim(k), ledger), now)
    {
      assert Mirrors(s, Held(s, m, k), Times(dim(k), ledger), now);
      if s.Live() && k in m && k !in swept {
        IdleBucketIsFull(s, m[k].level, now, ttl);
        AccruedMonotone(s, 0.0, now);
      }
    }
  }

  lemma MapMirrorsLater(s: Scope, m: map<string, Slot>, dim: string -> Dim, ledger: seq<Request>, now: real, t: real)
    requires MapMirrors(s, m, dim, ledger, now) && now <= t
    ensures MapMirrors(s, m, dim, ledger, t)
  {
    forall k
      ensures Mirrors(s, Held(s, m, k), Times(dim(k), ledger), t)
    {
      MirrorsLater(s, Held(s, m, k), Times(dim(k), ledger), now, t);
    }
  }

  // `dim` gives every key its own dimension, and request r falls under key k only.
  ghost predicate Keys(dim: string -> Dim, r: Request, k: string) {
    forall j :: dim(j).Concerns(r) <==> j == k
  }

  lemma MapMirrorsSettle(s: Scope, m: map<string, Slot>, dim: string -> Dim, ledger: seq<Request>, r: Request,
                         k: string, take: bool)
    requires MapMirrors(s, m, dim, ledger, r.at) && Keys(dim, r, k)
    requires take && s.Live() ==> Standing(s, m, k, r.at) >= 1.0
    ensures MapMirrors(s, Settle(s, m, k, r.at, take), dim, if take then ledger + [r] else ledger, r.at)
  {
    var m' := Settle(s, m, k, r.at, take);
    var ledger' := if take then ledger + [r] else ledger;
    assert take ==> ledger'[..|ledger|] == ledger;
    forall j
      ensures Mirrors(s, Held(s, m', j), Times(dim(j), ledger'), r.at)
    {
      assert Mirrors(s, Held(s, m, j), Times(dim(j), ledger), r.at);
      if j == k {
        assert Times(dim(j), ledger') == if take then Times(dim(j), ledger) + [r.at] else Times(dim(j), ledger);
        MirrorsTouch(s, Held(s, m, k), Times(dim(k), ledger), r.at, take);
      } else {
        assert Times(dim(j), ledger') == Times(dim(j), ledger);
      }
    }
  }

  // ---------------------------------------------------------------------------------------
  // The whole limiter against the ledger

  ghost predicate Represents(cfg: Config, st: State, ledger: seq<Request>, now: real) {
    && MapMirrors(cfg.user, st.users, k => ByUser(k), ledger, now)
    && MapMirrors(cfg.target, st.targets, k => ByTarget(k), ledger, now)
    && Mirrors(cfg.global, st.global, Times(Everyone, ledger), now)
  }

  // Eviction cannot be noticed: either it is off or idle buckets have had time to refill.
  ghost predicate EvictionSafe(cfg: Config, evicting: bool) {
    evicting ==> SafeHorizon(cfg.user, cfg.idleTTL) && SafeHorizon(cfg.target, cfg.idleTTL)
  }

  lemma InitialRepresents(cfg: Config)
    ensures Represents(cfg, Initial(cfg), [], 0.0)
  {
  }

  lemma TickRepresents(cfg: Config, st: State, ledger: seq<Request>, now: real, t: real, evicting: bool)
    requires Represents(cfg, st, ledger, now) && 0.0 <= now <= t && EvictionSafe(cfg, evicting)
    ensures Represents(cfg, Tick(cfg, st, t, evicting), ledger, t)
  {
    MapMirrorsLater(cfg.user, st.users, k => ByUser(k), ledger, now, t);
    MapMirrorsLater(cfg.target, st.targets, k => ByTarget(k), ledger, now, t);
    MirrorsLater(cfg.global, st.global, Times(Everyone, ledger), now, t);
    if evicting {
      SweepMirrors(cfg.user, st.users, k => ByUser(k), ledger, t, cfg.idleTTL);
      SweepMirrors(cfg.target, st.targets, k => ByTarget(k), ledger, t, cfg.idleTTL);
    }
  }

  /** One call answers from the admitted requests alone, and a denied call leaves no trace. */
  lemma StepRefinesLedger(cfg: Config, st: State, ledger: seq<Request>, now: real, r: Request, evicting: bool)
    requires Represents(cfg, st, ledger, now) && 0.0 <= now <= r.at && EvictionSafe(cfg, evicting)
    ensures Step(cfg, st, r, evicting).1 == LedgerAnswer(cfg, ledger, r)
    ensures Represents(cfg, Step(cfg, st, r, evicting).0, Enter(ledger, r, LedgerAnswer(cfg, ledger, r)), r.at)
  {
    TickRepresents(cfg, st, ledger, now, r.at, evicting);
    var st1 := Tick(cfg, st, r.at, evicting);
    assert Mirrors(cfg.user, Held(cfg.user, st1.users, r.user), Times(ByUser(r.user), ledger), r.at);
    assert Mirrors(cfg.target, Held(cfg.target, st1.targets, r.target), Times(ByTarget(r.target), ledger), r.at);
    var a := LedgerAnswer(cfg, ledger, r);
    assert Step(cfg, st, r, evicting).1 == a;
    MapMirrorsSettle(cfg.user, st1.users, k => ByUser(k), ledger, r, r.user, a.Admitted?);
    MapMirrorsSettle(cfg.target, st1.targets, k => ByTarget(k), ledger, r, r.target, a.Admitted?);
    assert a.Admitted? ==> (ledger + [r])[..|ledger|] == ledger;
    MirrorsTouch(cfg.global, st1.global, Times(Everyone, ledger), r.at, a.Admitted?);
  }

  /** Every run of the bucket limiter gives the answers the ledger gives. */
  lemma {:induction false} RunRefinesLedger(cfg: Config, reqs: seq<Request>, evicting: bool)
    requires Chronological(reqs) && EvictionSafe(cfg, evicting)
    ensures Run(cfg, reqs, evicting).1 == LedgerRun(cfg, reqs).1
    ensures Represents(cfg, Run(cfg, reqs, evicting).0, LedgerRun(cfg, reqs).0, Now(reqs))
    ensures 0.0 <= Now(reqs)
  {
    if reqs == [] {
      InitialRepresents(cfg);
    } else {
      var init, r := reqs[..|reqs| - 1], reqs[|reqs| - 1];
      RunRefinesLedger(cfg, init, evicting);
      StepRefinesLedger(cfg, Run(cfg, init, evicting).0, LedgerRun(cfg, init).0, Now(init), r, evicting);
    }
  }
}
