/**
 A limiter whose maximum wait and horizon are left at zero, as the programs leave them: what its
 hints are and which keys it holds, in seconds.
 */
module Served {
  import opened TokenBucket
  import opened LimiterModel
  import opened Ledger
  import opened LimiterTheorems
  import opened Memory
  import opened RateLimiter

  // How long the i-th request of a run has to wait, without the cap, in the limiter that serves it.
  function StandingWait(cfg: Config, reqs: seq<Request>, i: nat): real
    requires i < |reqs|
  {
    var r := reqs[i];
    var st := Tick(cfg, Run(cfg, reqs[..i], true).0, r.at, true);
    LongestWait(cfg, Standing(cfg.user, st.users, r.user, r.at), Standing(cfg.target, st.targets, r.target, r.at),
                LevelAt(cfg.global, st.global, r.at))
  }

  lemma {:induction false} AnswerAt(cfg: Config, reqs: seq<Request>, i: nat)
    requires i < |reqs|
    ensures Run(cfg, reqs, true).1[i] == Step(cfg, Run(cfg, reqs[..i], true).0, reqs[i], true).1
  {
    hide Step;
    var n := |reqs| - 1;
    if i < n {
      AnswerAt(cfg, reqs[..n], i);
      assert reqs[..n][..i] == reqs[..i];
    }
  }

  /** In every run a request is denied exactly if it would have to wait, and its hint is that wait, capped. */
  lemma HintIsCappedWait(cfg: Config, reqs: seq<Request>, i: nat)
    requires cfg.maxWait > 0.0 && i < |reqs|
    ensures var a, wait := Run(cfg, reqs, true).1[i], StandingWait(cfg, reqs, i);
            && (a.Denied? <==> wait > 0.0)
            && (a.Denied? ==> a.retryAfter == Min(wait, cfg.maxWait))
  {
    AnswerAt(cfg, reqs, i);
    var r := reqs[i];
    var st := Tick(cfg, Run(cfg, reqs[..i], true).0, r.at, true);
    WaitIffRefused(cfg.user, Standing(cfg.user, st.users, r.user, r.at), cfg.maxWait);
    WaitIffRefused(cfg.target, Standing(cfg.target, st.targets, r.target, r.at), cfg.maxWait);
    WaitIffRefused(cfg.global, LevelAt(cfg.global, st.global, r.at), cfg.maxWait);
    hide Tick, Standing, LevelAt, Wait, Grants, Run;
  }

  // Used no longer than ten minutes before the latest sweep, or after it.
  ghost predicate UsedInTime(f: Facet, reqs: seq<Request>, k: string) {
    var sweep := |reqs| - |reqs| % 256;
    exists i :: 0 <= i < |reqs| && f.KeyOf(reqs[i]) == k
                && (sweep > 0 ==> reqs[i].at >= reqs[sweep - 1].at - 600.0)
  }

  lemma UsedInTimeIsRecent(f: Facet, reqs: seq<Request>, k: string)
    requires Chronological(reqs)
    ensures UsedInTime(f, reqs, k) <==> RecentlyUsed(f, reqs, 600.0, k)
  {
    LatestSweepIsLatest(|reqs|);
    forall i | 0 <= i < |reqs|
      ensures reqs[i].at >= 0.0
    {
      PrefixChronological(reqs, i);
      NowNotNegative(reqs[..i]);
    }
  }

  /**
   By default every hint is at most a minute, and a minute exactly if the wait is at least that; and a
   scope holds exactly the keys used within the ten minutes before the latest sweep, or after it.
   */
  method ServeByDefault(cfg: Config, reqs: seq<Request>) returns (l: Limiter, answers: seq<Answer>)
    requires Check(true, cfg, true).Valid? && cfg.maxWait == 0.0 && cfg.idleTTL == 0.0
    ensures l.Valid() && (l.Value(), answers) == Run(l.cfg, reqs, true)
    ensures forall i :: 0 <= i < |reqs| && answers[i].Denied? ==>
              && 0.0 < answers[i].retryAfter <= 60.0
              && (answers[i].retryAfter == 60.0 <==> StandingWait(l.cfg, reqs, i) >= 60.0)
    ensures Chronological(reqs) ==>
              && (cfg.user.Enabled() ==> forall k :: k in l.Value().users <==> UsedInTime(Users, reqs, k))
              && (cfg.target.Enabled() ==> forall k :: k in l.Value().targets <==> UsedInTime(Targets, reqs, k))
  {
    hide StandingWait, UsedInTime, RecentlyUsed, Chronological, Run, Limiter.Valid, Limiter.Value, Limiter.Footprint;
    l, answers := Serve(cfg, reqs);
    forall i | 0 <= i < |reqs| && answers[i].Denied?
      ensures 0.0 < answers[i].retryAfter <= 60.0
      ensures answers[i].retryAfter == 60.0 <==> StandingWait(l.cfg, reqs, i) >= 60.0
    {
      HintIsCappedWait(l.cfg, reqs, i);
    }
    if Chronological(reqs) {
      forall f: Facet, k: string | f.ScopeIn(l.cfg).Enabled()
        ensures k in f.BucketsIn(Run(l.cfg, reqs, true).0) <==> UsedInTime(f, reqs, k)
      {
        RegistryHoldsRecentKeys(f, l.cfg, reqs);
        UsedInTimeIsRecent(f, reqs, k);
      }
      assert l.Value().users == Users.BucketsIn(Run(l.cfg, reqs, true).0);
      assert l.Value().targets == Targets.BucketsIn(Run(l.cfg, reqs, true).0);
    }
  }
}
