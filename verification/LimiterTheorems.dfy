/**
 The limiter's promises over whole runs.  Unless a statement says otherwise, eviction is either
 off or gives every idle bucket time to refill (`EvictionSafe`).
 */
module LimiterTheorems {
  import opened TokenBucket
  import opened LimiterModel
  import opened Ledger
  import opened LimiterRuns

  // ---------------------------------------------------------------------------------------
  // Admission is exactly conformance

  // The requests of a run that were answered Admitted.
  function AdmittedIn(reqs: seq<Request>, answers: seq<Answer>): seq<Request>
    requires |reqs| == |answers|
  {
    if reqs == [] then []
    else
      var n := |reqs| - 1;
      Enter(AdmittedIn(reqs[..n], answers[..n]), reqs[n], answers[n])
  }

  lemma {:induction false} ReplayKeepsAdmitted(rule: Rule, reqs: seq<Request>)
    ensures Replay(rule, reqs).0 == AdmittedIn(reqs, Replay(rule, reqs).1)
  {
    if reqs != [] {
      var n := |reqs| - 1;
      ReplayKeepsAdmitted(rule, reqs[..n]);
      assert Replay(rule, reqs).1[..n] == Replay(rule, reqs[..n]).1;
    }
  }

  lemma {:induction false} ReplayPrefix(rule: Rule, reqs: seq<Request>, i: nat)
    requires i <= |reqs|
    ensures Replay(rule, reqs).1[..i] == Replay(rule, reqs[..i]).1
  {
    if i < |reqs| {
      ReplayPrefix(rule, reqs[..|reqs| - 1], i);
      assert reqs[..|reqs| - 1][..i] == reqs[..i];
    } else {
      assert reqs[..i] == reqs;
    }
  }

  lemma {:induction false} ReplayAt(rule: Rule, reqs: seq<Request>, i: nat)
    requires i < |reqs|
    ensures Replay(rule, reqs).1[i] == rule(Replay(rule, reqs[..i]).0, reqs[i])
  {
    var n := |reqs| - 1;
    if i < n {
      ReplayAt(rule, reqs[..n], i);
      assert reqs[..n][..i] == reqs[..i];
    }
  }

  lemma {:induction false} ReplayUnmoved(rule: Rule, reqs: seq<Request>, i: nat, j: nat)
    requires i <= j <= |reqs|
    requires forall k :: i <= k < j ==> Replay(rule, reqs).1[k].Denied?
    ensures Replay(rule, reqs[..j]).0 == Replay(rule, reqs[..i]).0
    decreases j
  {
    if i < j {
      ReplayUnmoved(rule, reqs, i, j - 1);
      ReplayAt(rule, reqs, j - 1);
      assert reqs[..j][..j - 1] == reqs[..j - 1];
    }
  }

  lemma {:induction false} LaterIsLater(reqs: seq<Request>, i: nat, j: nat)
    requires Chronological(reqs) && i <= j < |reqs|
    ensures reqs[i].at <= reqs[j].at
  {
    var n := |reqs| - 1;
    if j < n {
      LaterIsLater(reqs[..n], i, j);
    } else if i < n {
      LaterIsLater(reqs[..n], i, n - 1);
    }
  }

  lemma {:induction false} PrefixChronological(reqs: seq<Request>, i: nat)
    requires Chronological(reqs) && i <= |reqs|
    ensures Chronological(reqs[..i]) && (i < |reqs| ==> Now(reqs[..i]) <= reqs[i].at)
  {
    var n := |reqs| - 1;
    if i < n {
      PrefixChronological(reqs[..n], i);
      assert reqs[..n][..i] == reqs[..i];
    } else if i == |reqs| {
      assert reqs[..i] == reqs;
    }
  }

  lemma {:induction false} ReplayChronological(rule: Rule, reqs: seq<Request>)
    requires Chronological(reqs)
    ensures Chronological(Replay(rule, reqs).0)
    ensures 0.0 <= Now(Replay(rule, reqs).0) <= Now(reqs)
  {
    if reqs != [] {
      var init := reqs[..|reqs| - 1];
      ReplayChronological(rule, init);
      var ledger := Replay(rule, init).0;
      assert (ledger + [reqs[|reqs| - 1]])[..|ledger|] == ledger;
    }
  }

  ghost predicate DimConforms(cfg: Config, d: Dim, admitted: seq<Request>, now: real) {
    d.ScopeIn(cfg).Enabled() ==> Conforms(d.ScopeIn(cfg), Times(d, admitted), now)
  }

  ghost predicate RequestConforms(cfg: Config, admitted: seq<Request>, r: Request) {
    && DimConforms(cfg, ByUser(r.user), admitted, r.at)
    && DimConforms(cfg, ByTarget(r.target), admitted, r.at)
    && DimConforms(cfg, Everyone, admitted, r.at)
  }

  lemma GrantsIffConforms(cfg: Config, d: Dim, ledger: seq<Request>, now: real)
    requires Chronological(ledger) && Now(ledger) <= now
    ensures Grants(d.ScopeIn(cfg), LevelAfter(d.ScopeIn(cfg), Times(d, ledger), now))
            <==> DimConforms(cfg, d, ledger, now)
  {
    var s := d.ScopeIn(cfg);
    if s.Enabled() {
      TimesAscend(d, ledger);
      LevelIffConforms(s, Times(d, ledger), now);
      ConformsNeedsBurst(s, Times(d, ledger), now);
    }
  }

  lemma ConformsNeedsBurst(s: Scope, times: seq<real>, now: real)
    ensures Conforms(s, times, now) ==> s.burst >= 1
  {
    if Conforms(s, times, now) {
      assert (CountSince(times, now) + 1) as real <= s.burst as real + Accrued(s, now) - Accrued(s, now);
    }
  }

  lemma LedgerAnswerIffConforms(cfg: Config, ledger: seq<Request>, r: Request)
    requires Chronological(ledger) && Now(ledger) <= r.at
    ensures LedgerAnswer(cfg, ledger, r).Admitted? <==> RequestConforms(cfg, ledger, r)
  {
    GrantsIffConforms(cfg, ByUser(r.user), ledger, r.at);
    GrantsIffConforms(cfg, ByTarget(r.target), ledger, r.at);
    GrantsIffConforms(cfg, Everyone, ledger, r.at);
  }

  /**
   A request is admitted exactly when, for each dimension that applies to it, counting it keeps
   every window that ends now within burst plus rate times its length.
   */
  lemma AdmittedIffConforming(cfg: Config, reqs: seq<Request>, i: nat, evicting: bool)
    requires Chronological(reqs) && EvictionSafe(cfg, evicting) && i < |reqs|
    ensures var answers := Run(cfg, reqs, evicting).1;
            answers[i].Admitted? <==> RequestConforms(cfg, AdmittedIn(reqs[..i], answers[..i]), reqs[i])
  {
    var rule := LedgerRule(cfg);
    RunRefinesLedger(cfg, reqs, evicting);
    ReplayAt(rule, reqs, i);
    ReplayPrefix(rule, reqs, i);
    ReplayKeepsAdmitted(rule, reqs[..i]);
    PrefixChronological(reqs, i);
    ReplayChronological(rule, reqs[..i]);
    LedgerAnswerIffConforms(cfg, Replay(rule, reqs[..i]).0, reqs[i]);
  }

  lemma {:induction false} LedgerConforms(cfg: Config, d: Dim, reqs: seq<Request>)
    requires Chronological(reqs) && d.ScopeIn(cfg).Enabled()
    ensures AllConform(d.ScopeIn(cfg), Times(d, LedgerRun(cfg, reqs).0))
  {
    if reqs != [] {
      var init, r := reqs[..|reqs| - 1], reqs[|reqs| - 1];
      LedgerConforms(cfg, d, init);
      ReplayChronological(LedgerRule(cfg), init);
      var ledger := LedgerRun(cfg, init).0;
      LedgerAnswerIffConforms(cfg, ledger, r);
      if LedgerAnswer(cfg, ledger, r).Admitted? && d.Concerns(r) {
        assert (ledger + [r])[..|ledger|] == ledger;
        ConformingHistoryGrows(d.ScopeIn(cfg), Times(d, ledger), r.at);
      } else if LedgerAnswer(cfg, ledger, r).Admitted? {
        assert (ledger + [r])[..|ledger|] == ledger;
        assert Times(d, ledger + [r]) == Times(d, ledger);
      }
    }
  }

  lemma ConformingHistoryGrows(s: Scope, times: seq<real>, now: real)
    requires AllConform(s, times) && Conforms(s, times, now)
    ensures AllConform(s, times + [now])
  {
    var longer := times + [now];
    forall i | 0 <= i < |longer|
      ensures Conforms(s, longer[..i], longer[i])
    {
      assert longer[..i] == if i < |times| then times[..i] else times;
    }
  }

  lemma AdmittedWithinAllowance(cfg: Config, reqs: seq<Request>, evicting: bool, d: Dim, from: real, to: real)
    requires Chronological(reqs) && EvictionSafe(cfg, evicting)
    requires d.ScopeIn(cfg).Live() && from <= to
    ensures var s := d.ScopeIn(cfg);
            CountWithin(Times(d, AdmittedIn(reqs, Run(cfg, reqs, evicting).1)), from, to) as real
            <= s.burst as real + Accrued(s, to) - Accrued(s, from)
  {
    RunRefinesLedger(cfg, reqs, evicting);
    ReplayKeepsAdmitted(LedgerRule(cfg), reqs);
    ReplayChronological(LedgerRule(cfg), reqs);
    var ledger := LedgerRun(cfg, reqs).0;
    LedgerConforms(cfg, d, reqs);
    TimesAscend(d, ledger);
    WindowBound(d.ScopeIn(cfg), Times(d, ledger), from, to);
  }

  /**
   In no window of any run do the admitted requests of one user, of one target or of the whole
   process exceed burst plus rate times the length of the window.
   */
  lemma NoWindowExceedsItsAllowance(cfg: Config, reqs: seq<Request>, evicting: bool, d: Dim, from: real, to: real)
    requires Chronological(reqs) && EvictionSafe(cfg, evicting)
    requires d.ScopeIn(cfg).Live() && from <= to
    ensures CountWithin(Times(d, AdmittedIn(reqs, Run(cfg, reqs, evicting).1)), from, to) as real
            <= d.ScopeIn(cfg).burst as real + d.ScopeIn(cfg).rate * (to - from)
  {
    AdmittedWithinAllowance(cfg, reqs, evicting, d, from, to);
    AccruedIsRateTimesLength(d.ScopeIn(cfg), from, to);
  }

  // ---------------------------------------------------------------------------------------
  // Denied calls leave no trace

  function Pick<T>(xs: seq<T>, keep: seq<bool>): seq<T>
    requires |xs| == |keep|
  {
    if xs == [] then []
    else
      var n := |xs| - 1;
      var earlier := Pick(xs[..n], keep[..n]);
      if keep[n] then earlier + [xs[n]] else earlier
  }

  lemma {:induction false} PickChronological(reqs: seq<Request>, keep: seq<bool>)
    requires |reqs| == |keep| && Chronological(reqs)
    ensures Chronological(Pick(reqs, keep)) && 0.0 <= Now(Pick(reqs, keep)) <= Now(reqs)
  {
    if reqs != [] {
      var n := |reqs| - 1;
      PickChronological(reqs[..n], keep[..n]);
      var picked := Pick(reqs[..n], keep[..n]);
      assert (picked + [reqs[n]])[..|picked|] == picked;
    }
  }

  lemma {:induction false} ReplayForgetsDenied(rule: Rule, reqs: seq<Request>, keep: seq<bool>)
    requires |reqs| == |keep|
    requires forall i :: 0 <= i < |reqs| && !keep[i] ==> Replay(rule, reqs).1[i].Denied?
    ensures Replay(rule, Pick(reqs, keep)) == (Replay(rule, reqs).0, Pick(Replay(rule, reqs).1, keep))
  {
    if reqs != [] {
      var n := |reqs| - 1;
      var answers := Replay(rule, reqs).1;
      assert answers[..n] == Replay(rule, reqs[..n]).1;
      assert forall i :: 0 <= i < n ==> answers[i] == Replay(rule, reqs[..n]).1[i];
      ReplayForgetsDenied(rule, reqs[..n], keep[..n]);
      var picked := Pick(reqs[..n], keep[..n]);
      if keep[n] {
        assert (picked + [reqs[n]])[..|picked|] == picked;
      } else {
        assert answers[n].Denied?;
      }
    }
  }

  /** Deleting any denied calls from a run changes the answer of no call that remains. */
  lemma DeniedCallsLeaveNoTrace(cfg: Config, reqs: seq<Request>, keep: seq<bool>, evicting: bool)
    requires Chronological(reqs) && EvictionSafe(cfg, evicting) && |reqs| == |keep|
    requires forall i :: 0 <= i < |reqs| && !keep[i] ==> Run(cfg, reqs, evicting).1[i].Denied?
    ensures Run(cfg, Pick(reqs, keep), evicting).1 == Pick(Run(cfg, reqs, evicting).1, keep)
  {
    RunRefinesLedger(cfg, reqs, evicting);
    PickChronological(reqs, keep);
    RunRefinesLedger(cfg, Pick(reqs, keep), evicting);
    ReplayForgetsDenied(LedgerRule(cfg), reqs, keep);
  }

  // The level a dimension's bucket stands at; a key without a bucket would get a full one.
  function LevelIn(cfg: Config, st: State, d: Dim, t: real): real {
    match d
    case ByUser(k) => Standing(cfg.user, st.users, k, t)
    case ByTarget(k) => Standing(cfg.target, st.targets, k, t)
    case Everyone => LevelAt(cfg.global, st.global, t)
  }

  // Buckets that mirror the ledger stand, at any later time, where the ledger says.
  lemma LevelIsTheLedgers(cfg: Config, st: State, ledger: seq<Request>, now: real, d: Dim, t: real)
    requires Represents(cfg, st, ledger, now) && now <= t && d.ScopeIn(cfg).Live()
    ensures LevelIn(cfg, st, d, t) == LevelAfter(d.ScopeIn(cfg), Times(d, ledger), t)
  {
    match d
    case ByUser(k) => MapMirrorsLater(cfg.user, st.users, k => ByUser(k), ledger, now, t);
    case ByTarget(k) => MapMirrorsLater(cfg.target, st.targets, k => ByTarget(k), ledger, now, t);
    case Everyone => MirrorsLater(cfg.global, st.global, Times(Everyone, ledger), now, t);
  }

  /** In any state that mirrors a ledger, a denied call changes no level, then or later, of any live dimension. */
  lemma DeniedStepKeepsLevels(cfg: Config, st: State, ledger: seq<Request>, now: real, r: Request, evicting: bool,
                              d: Dim, t: real)
    requires Represents(cfg, st, ledger, now) && 0.0 <= now <= r.at <= t && EvictionSafe(cfg, evicting)
    requires Step(cfg, st, r, evicting).1.Denied? && d.ScopeIn(cfg).Live()
    ensures LevelIn(cfg, Step(cfg, st, r, evicting).0, d, t) == LevelIn(cfg, st, d, t)
  {
    StepRefinesLedger(cfg, st, ledger, now, r, evicting);
    LevelIsTheLedgers(cfg, st, ledger, now, d, t);
    LevelIsTheLedgers(cfg, Step(cfg, st, r, evicting).0, ledger, r.at, d, t);
  }

  // A dimension that is off, or can never grant, has full buckets only.
  lemma {:induction false} DeadScopeStaysFull(cfg: Config, reqs: seq<Request>, evicting: bool, d: Dim, t: real)
    requires !d.ScopeIn(cfg).Live()
    ensures var st, s := Run(cfg, reqs, evicting).0, d.ScopeIn(cfg);
            match d
            case ByUser(k) => Held(s, st.users, k) == Full(s)
            case ByTarget(k) => Held(s, st.targets, k) == Full(s)
            case Everyone => st.global == Full(s)
    ensures LevelIn(cfg, Run(cfg, reqs, evicting).0, d, t) == d.ScopeIn(cfg).burst as real
  {
    if reqs != [] {
      DeadScopeStaysFull(cfg, reqs[..|reqs| - 1], evicting, d, t);
    }
  }

  /**
   In every run, evicting or not, a denied call leaves the level of every bucket of every
   dimension, at every later time, as if it had not been made.
   */
  lemma DeniedCallKeepsLevels(cfg: Config, reqs: seq<Request>, r: Request, evicting: bool, d: Dim, t: real)
    requires Chronological(reqs + [r]) && EvictionSafe(cfg, evicting) && r.at <= t
    requires Run(cfg, reqs + [r], evicting).1[|reqs|].Denied?
    ensures LevelIn(cfg, Run(cfg, reqs + [r], evicting).0, d, t) == LevelIn(cfg, Run(cfg, reqs, evicting).0, d, t)
  {
    assert (reqs + [r])[..|reqs|] == reqs;
    if d.ScopeIn(cfg).Live() {
      RunRefinesLedger(cfg, reqs, evicting);
      var (st, ledger) := (Run(cfg, reqs, evicting).0, LedgerRun(cfg, reqs).0);
      DeniedStepKeepsLevels(cfg, st, ledger, Now(reqs), r, evicting, d, t);
    } else {
      DeadScopeStaysFull(cfg, reqs, evicting, d, t);
      DeadScopeStaysFull(cfg, reqs + [r], evicting, d, t);
    }
  }

  // ---------------------------------------------------------------------------------------
  // Retry-After

  lemma DenialHint(cfg: Config, user: real, target: real, global: real)
    requires cfg.maxWait > 0.0 && Judge(cfg, user, target, global).Denied?
    ensures 0.0 < Judge(cfg, user, target, global).retryAfter <= cfg.maxWait
  {
    WaitIffRefused(cfg.user, user, cfg.maxWait);
    WaitIffRefused(cfg.target, target, cfg.maxWait);
    WaitIffRefused(cfg.global, global, cfg.maxWait);
  }

  // A dimension that refuses now grants exactly when its wait is over.
  lemma GrantsOnceWaited(s: Scope, times: seq<real>, now: real, t: real, maxWait: real)
    requires maxWait > 0.0 && now <= t && (s.Enabled() ==> s.burst >= 1)
    ensures Grants(s, LevelAfter(s, times, t)) <==> Wait(s, LevelAfter(s, times, now), maxWait) <= t - now
  {
    if s.Enabled() {
      var level := LevelAfter(s, times, now);
      LedgerLevelGrows(s, times, now, t);
      AccruedMonotone(s, now, t);
      WaitCovers(s, 1.0 - level, now, t);
    }
  }

  /**
   On the ledger the hint is the wait, capped, and a retry for the same keys is admitted exactly
   once the uncapped wait is over.
   */
  lemma LedgerRetry(cfg: Config, ledger: seq<Request>, r: Request, retry: Request)
    requires Sound(cfg) && LedgerAnswer(cfg, ledger, r).Denied?
    requires retry.user == r.user && retry.target == r.target && r.at <= retry.at
    ensures var hint := LedgerAnswer(cfg, ledger, r).retryAfter;
            0.0 < hint == Min(LedgerWait(cfg, ledger, r), cfg.maxWait)
    ensures LedgerAnswer(cfg, ledger, retry).Admitted? <==> r.at + LedgerWait(cfg, ledger, r) <= retry.at
  {
    var users, targets := Times(ByUser(r.user), ledger), Times(ByTarget(r.target), ledger);
    var all := Times(Everyone, ledger);
    DenialHint(cfg, LevelAfter(cfg.user, users, r.at), LevelAfter(cfg.target, targets, r.at),
               LevelAfter(cfg.global, all, r.at));
    GrantsOnceWaited(cfg.user, users, r.at, retry.at, cfg.maxWait);
    GrantsOnceWaited(cfg.target, targets, r.at, retry.at, cfg.maxWait);
    GrantsOnceWaited(cfg.global, all, r.at, retry.at, cfg.maxWait);
  }

  // The wait, without the cap, behind the i-th answer of a run.
  function WaitAt(cfg: Config, reqs: seq<Request>, i: nat, evicting: bool): real
    requires i < |reqs|
  {
    LedgerWait(cfg, AdmittedIn(reqs[..i], Run(cfg, reqs, evicting).1[..i]), reqs[i])
  }

  /**
   After a denial, as long as nothing is admitted in between, a later request for the same keys is
   admitted exactly once the wait is over; the hint is that wait, capped.  So a request before the
   hint has passed is denied, and one at or after it is admitted unless the hint was capped.
   */
  lemma RetryAfterIsExact(cfg: Config, reqs: seq<Request>, i: nat, j: nat, evicting: bool)
    requires Sound(cfg) && EvictionSafe(cfg, evicting)
    requires Chronological(reqs) && i < j < |reqs|
    requires reqs[j].user == reqs[i].user && reqs[j].target == reqs[i].target
    requires forall k :: i <= k < j ==> Run(cfg, reqs, evicting).1[k].Denied?
    ensures var answers, wait := Run(cfg, reqs, evicting).1, WaitAt(cfg, reqs, i, evicting);
            var hint := answers[i].retryAfter;
            && 0.0 < hint == Min(wait, cfg.maxWait)
            && (answers[j].Admitted? <==> reqs[i].at + wait <= reqs[j].at)
            && (reqs[j].at < reqs[i].at + hint ==> answers[j].Denied?)
            && (wait <= cfg.maxWait && reqs[i].at + hint <= reqs[j].at ==> answers[j].Admitted?)
  {
    var rule := LedgerRule(cfg);
    RunRefinesLedger(cfg, reqs, evicting);
    ReplayAt(rule, reqs, i);
    ReplayAt(rule, reqs, j);
    ReplayUnmoved(rule, reqs, i, j);
    ReplayPrefix(rule, reqs, i);
    ReplayKeepsAdmitted(rule, reqs[..i]);
    LaterIsLater(reqs, i, j);
    LedgerRetry(cfg, Replay(rule, reqs[..i]).0, reqs[i], reqs[j]);
  }

  // The Retry-After header: whole seconds, rounded up, at least one.
  function RetryAfterSeconds(d: real): (secs: int)
    ensures secs >= 1 && secs as real >= d
    ensures secs == 1 || (secs - 1) as real < d
  {
    var ceiling := -((-d).Floor);
    if ceiling < 1 then 1 else ceiling
  }

  /** A client that waits for the header's whole seconds is admitted, unless the hint was capped. */
  lemma HonouredHeaderIsAdmitted(cfg: Config, reqs: seq<Request>, i: nat, j: nat, evicting: bool)
    requires Sound(cfg) && EvictionSafe(cfg, evicting)
    requires Chronological(reqs) && i < j < |reqs|
    requires reqs[j].user == reqs[i].user && reqs[j].target == reqs[i].target
    requires forall k :: i <= k < j ==> Run(cfg, reqs, evicting).1[k].Denied?
    requires WaitAt(cfg, reqs, i, evicting) <= cfg.maxWait
    requires reqs[j].at >= reqs[i].at + RetryAfterSeconds(Run(cfg, reqs, evicting).1[i].retryAfter) as real
    ensures Run(cfg, reqs, evicting).1[j].Admitted?
  {
    RetryAfterIsExact(cfg, reqs, i, j, evicting);
  }
}
