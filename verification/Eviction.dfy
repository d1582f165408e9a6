/**
 Idle eviction: when it can be noticed, and what it leaves in memory.
 */
module Eviction {
  import opened TokenBucket
  import opened LimiterModel
  import opened Ledger
  import opened LimiterRuns
  import opened LimiterTheorems
  import opened Hiding
  import opened HiddenRuns
  import opened UnhiddenShows

  /**
   If an idle bucket always has time to refill before it is evicted, the evicting limiter and
   one that never evicts give the same answer, Retry-After included, to every call.
   */
  lemma EvictionIsInvisible(cfg: Config, reqs: seq<Request>)
    requires Chronological(reqs)
    requires SafeHorizon(cfg.user, cfg.idleTTL) && SafeHorizon(cfg.target, cfg.idleTTL)
    ensures Run(cfg, reqs, true).1 == Run(cfg, reqs, false).1
  {
    RunRefinesLedger(cfg, reqs, true);
    RunRefinesLedger(cfg, reqs, false);
  }

  // The agent's built-in postgres limits: 12 a minute (burst 3) per target, 60 a minute (burst
  // 10) for the process, with the default horizon.
  const POSTGRES_LIMITS := Defaulted(Config(
    Scope(0.0, 0), Scope(12.0 / 60.0, 3), Scope(60.0 / 60.0, 10), 0.0, 0.0))

  // The UI's: the same with 6 a minute (burst 3) per user on top.
  const UI_POSTGRES_LIMITS := Defaulted(Config(
    Scope(6.0 / 60.0, 3), Scope(12.0 / 60.0, 3), Scope(60.0 / 60.0, 10), 0.0, 0.0))

  /** The built-in limits are valid and cannot show their evictions. */
  lemma BuiltInLimitsHideEviction(reqs: seq<Request>)
    requires Chronological(reqs)
    ensures forall cfg :: cfg in {POSTGRES_LIMITS, UI_POSTGRES_LIMITS} ==>
      Check(true, cfg, true).Valid? && Run(cfg, reqs, true).1 == Run(cfg, reqs, false).1
  {
    EvictionIsInvisible(POSTGRES_LIMITS, reqs);
    EvictionIsInvisible(UI_POSTGRES_LIMITS, reqs);
  }

  /**
   In any minute the agent's built-in limits admit at most 15 postgres checks of one target and 70 of
   the process, and a single target refills 12 tokens a minute and the process 60.
   */
  lemma BuiltInAllowance(reqs: seq<Request>, key: string, from: real)
    requires Chronological(reqs)
    ensures var admitted := AdmittedIn(reqs, Run(POSTGRES_LIMITS, reqs, true).1);
            && CountWithin(Times(ByTarget(key), admitted), from, from + 60.0) <= 15
            && CountWithin(Times(Everyone, admitted), from, from + 60.0) <= 70
    ensures POSTGRES_LIMITS.target.rate * 60.0 == 12.0 && POSTGRES_LIMITS.target.burst == 3
    ensures POSTGRES_LIMITS.global.rate * 60.0 == 60.0 && POSTGRES_LIMITS.global.burst == 10
    ensures !POSTGRES_LIMITS.user.Enabled() && POSTGRES_LIMITS.maxWait == 60.0 && POSTGRES_LIMITS.idleTTL == 600.0
  {
    hide Run, Chronological, Times, CountWithin, AdmittedIn;
    NoWindowExceedsItsAllowance(POSTGRES_LIMITS, reqs, true, ByTarget(key), from, from + 60.0);
    NoWindowExceedsItsAllowance(POSTGRES_LIMITS, reqs, true, Everyone, from, from + 60.0);
  }

  /** The same holds where the global scope hides what a scope with a short horizon forgets. */
  lemma HiddenEvictionIsInvisible(cfg: Config, reqs: seq<Request>)
    requires Sound(cfg) && HiddenIn(cfg) && Chronological(reqs)
    ensures Run(cfg, reqs, true).1 == Run(cfg, reqs, false).1
  {
    HiddenRunIsLedgers(cfg, reqs);
    RunRefinesLedger(cfg, reqs, false);
  }

  /**
   For every limiter that passed validation, eviction is invisible in every run exactly if each keyed
   scope that is on can refill its burst within the horizon or is hidden by the global one.
   */
  lemma EvictionInvisibleIff(cfg: Config)
    requires Sound(cfg)
    ensures (forall reqs :: Chronological(reqs) ==> Run(cfg, reqs, true).1 == Run(cfg, reqs, false).1)
            <==> Hidden(cfg.user, cfg.global, cfg.idleTTL) && Hidden(cfg.target, cfg.global, cfg.idleTTL)
  {
    hide Run, Hidden, Sound;
    if HiddenIn(cfg) {
      forall reqs | Chronological(reqs)
        ensures Run(cfg, reqs, true).1 == Run(cfg, reqs, false).1
      {
        HiddenEvictionIsInvisible(cfg, reqs);
      }
    } else if Hidden(cfg.user, cfg.global, cfg.idleTTL) {
      var reqs := UnhiddenEvictionShows(Targets, cfg);
    } else {
      var reqs := UnhiddenEvictionShows(Users, cfg);
    }
  }

  /** Without a global scope, that is exactly if every keyed scope refills within the horizon. */
  lemma WithoutGlobalScope(cfg: Config)
    requires Sound(cfg) && !cfg.global.Enabled()
    ensures (forall reqs :: Chronological(reqs) ==> Run(cfg, reqs, true).1 == Run(cfg, reqs, false).1)
            <==> SafeHorizon(cfg.user, cfg.idleTTL) && SafeHorizon(cfg.target, cfg.idleTTL)
  {
    hide Run;
    EvictionInvisibleIff(cfg);
  }
}
