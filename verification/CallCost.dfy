/**
 What one call of a limiter costs, in levels, and what two limiters in a row cost together.
 */
module CallCost {
  import opened TokenBucket
  import opened LimiterModel
  import opened Ledger
  import opened LimiterRuns
  import opened LimiterTheorems
  import opened Eviction
  import opened TargetKey

  // The levels of the buckets a request is up against; zero for a scope that is off.
  datatype Stand = Stand(user: real, target: real, global: real)

  function StandIn(cfg: Config, st: State, r: Request): Stand {
    Stand(if cfg.user.Enabled() then Standing(cfg.user, st.users, r.user, r.at) else 0.0,
          if cfg.target.Enabled() then Standing(cfg.target, st.targets, r.target, r.at) else 0.0,
          if cfg.global.Enabled() then LevelAt(cfg.global, st.global, r.at) else 0.0)
  }

  // The levels a call finds, once a sweep that is due has been done.
  function FoundBy(cfg: Config, st: State, r: Request): Stand {
    StandIn(cfg, Tick(cfg, st, r.at, true), r)
  }

  predicate GrantsAll(cfg: Config, s: Stand) {
    Grants(cfg.user, s.user) && Grants(cfg.target, s.target) && Grants(cfg.global, s.global)
  }

  /**
   A call leaves the levels as it found them exactly if one of them refuses it or no scope is on;
   otherwise every scope that is on has one token less.
   */
  lemma SpendsUnlessRefused(cfg: Config, st: State, r: Request)
    ensures var (st', a) := Step(cfg, st, r, true);
            var found, left := FoundBy(cfg, st, r), StandIn(cfg, st', r);
            && (a.Denied? <==> !GrantsAll(cfg, found))
            && (left == found <==> !GrantsAll(cfg, found) || !Limits(cfg))
            && ((left.target == found.target && left.global == found.global) <==>
                !GrantsAll(cfg, found) || (!cfg.target.Enabled() && !cfg.global.Enabled()))
            && (a.Admitted? ==>
                  left == Stand(found.user - (if cfg.user.Enabled() then 1.0 else 0.0),
                                found.target - (if cfg.target.Enabled() then 1.0 else 0.0),
                                found.global - (if cfg.global.Enabled() then 1.0 else 0.0)))
  {
  }

  /** In a state some run reaches, under a safe horizon, the levels a call finds are those before it. */
  lemma FoundIsBefore(cfg: Config, st: State, ledger: seq<Request>, now: real, r: Request)
    requires Sound(cfg) && EvictionSafe(cfg, true)
    requires Represents(cfg, st, ledger, now) && 0.0 <= now <= r.at
    ensures FoundBy(cfg, st, r) == StandIn(cfg, st, r)
  {
    TickRepresents(cfg, st, ledger, now, r.at, true);
    var ticked := Tick(cfg, st, r.at, true);
    forall d: Dim | d.ScopeIn(cfg).Live()
      ensures LevelIn(cfg, ticked, d, r.at) == LevelIn(cfg, st, d, r.at)
    {
      LevelIsTheLedgers(cfg, st, ledger, now, d, r.at);
      LevelIsTheLedgers(cfg, ticked, ledger, r.at, d, r.at);
    }
    assert cfg.user.Enabled() ==> ByUser(r.user).ScopeIn(cfg).Live();
    assert cfg.target.Enabled() ==> ByTarget(r.target).ScopeIn(cfg).Live();
    assert cfg.global.Enabled() ==> Everyone.ScopeIn(cfg).Live();
  }

  // A general limiter of one token a second per target, five at most.
  const GENERAL_LIMITS := Defaulted(Config(Scope(0.0, 0), Scope(1.0, 5), Scope(0.0, 0), 0.0, 0.0))

  /**
   The two limiters do not roll back together: the fourth postgres check of a target at one instant
   is admitted by the general limiter and refused, for five seconds, by the built-in postgres one,
   and the general limiter is left with one token instead of two.
   */
  lemma GeneralTokenIsLost(host: string, port: nat)
    ensures var r := Request("", JoinHostPort(host, port), 0.0);
            var general := Run(GENERAL_LIMITS, [r, r, r], true).0;
            var postgres := Run(POSTGRES_LIMITS, [r, r, r], true).0;
            && Step(GENERAL_LIMITS, general, r, true).1.Admitted?
            && Step(POSTGRES_LIMITS, postgres, r, true).1 == Denied(5.0)
            && StandIn(GENERAL_LIMITS, general, r).target == 2.0
            && StandIn(GENERAL_LIMITS, Step(GENERAL_LIMITS, general, r, true).0, r).target == 1.0
  {
    hide JoinHostPort, Step, Run, Tick, StandIn;
    var r := Request("", JoinHostPort(host, port), 0.0);
    FourthCall(GENERAL_LIMITS, r);
    FourthCall(POSTGRES_LIMITS, r);
  }

  // A limiter without a user scope after n admitted calls for one target, all at time zero.
  predicate AfterCalls(cfg: Config, st: State, r: Request, n: nat) {
    && Held(cfg.target, st.targets, r.target) == Level((cfg.target.burst - n) as real, 0.0)
    && (cfg.global.Enabled() ==> st.global == Level((cfg.global.burst - n) as real, 0.0))
    && st.calls == n
  }

  predicate AtStart(cfg: Config, r: Request) {
    !cfg.user.Enabled() && cfg.target.Live() && r.at == 0.0 && cfg.maxWait > 0.0
  }

  lemma NextCall(cfg: Config, st: State, r: Request, n: nat)
    requires AtStart(cfg, r) && AfterCalls(cfg, st, r, n) && n < 255
    ensures var found := StandIn(cfg, st, r);
            && found.target == (cfg.target.burst - n) as real
            && FoundBy(cfg, st, r) == found
    ensures cfg.target.burst > n && (cfg.global.Enabled() ==> cfg.global.burst > n) ==>
              Step(cfg, st, r, true).1.Admitted? && AfterCalls(cfg, Step(cfg, st, r, true).0, r, n + 1)
              && StandIn(cfg, Step(cfg, st, r, true).0, r).target == (cfg.target.burst - n) as real - 1.0
    ensures cfg.target.burst == n && (cfg.global.Enabled() ==> cfg.global.burst > n) ==>
              Step(cfg, st, r, true).1 == Denied(Min(1.0 / cfg.target.rate, cfg.maxWait))
  {
  }

  lemma ThreeCalls(cfg: Config, r: Request)
    requires AtStart(cfg, r) && cfg.target.burst >= 3 && (cfg.global.Enabled() ==> cfg.global.burst >= 3)
    ensures AfterCalls(cfg, Run(cfg, [r, r, r], true).0, r, 3)
  {
    hide Step;
    RunOfThree(cfg, r);
    var none := Initial(cfg);
    var once := Step(cfg, none, r, true).0;
    var twice := Step(cfg, once, r, true).0;
    NextCall(cfg, none, r, 0);
    NextCall(cfg, once, r, 1);
    NextCall(cfg, twice, r, 2);
  }

  lemma FourthCall(cfg: Config, r: Request)
    requires AtStart(cfg, r) && cfg.target.burst >= 3 && (cfg.global.Enabled() ==> cfg.global.burst > 3)
    ensures var st := Run(cfg, [r, r, r], true).0;
            && StandIn(cfg, st, r).target == (cfg.target.burst - 3) as real
            && (cfg.target.burst > 3 ==>
                  Step(cfg, st, r, true).1.Admitted?
                  && StandIn(cfg, Step(cfg, st, r, true).0, r).target == (cfg.target.burst - 3) as real - 1.0)
            && (cfg.target.burst == 3 ==>
                  Step(cfg, st, r, true).1 == Denied(Min(1.0 / cfg.target.rate, cfg.maxWait)))
  {
    hide Step, Run, StandIn, AfterCalls;
    ThreeCalls(cfg, r);
    NextCall(cfg, Run(cfg, [r, r, r], true).0, r, 3);
  }

  lemma RunOfThree(cfg: Config, r: Request)
    ensures var once := Step(cfg, Initial(cfg), r, true).0;
            var twice := Step(cfg, once, r, true).0;
            Run(cfg, [r, r, r], true).0 == Step(cfg, twice, r, true).0
  {
    hide Step;
    assert [r, r, r][..2] == [r, r] && [r, r][..1] == [r] && [r][..0] == [];
    assert Run(cfg, [], true).0 == Initial(cfg);
    assert Run(cfg, [r], true).0 == Step(cfg, Initial(cfg), r, true).0;
  }
}
