/**
 What the limiter holds in memory after any run: exactly the keys used recently enough.
 */
module Memory {
  import opened TokenBucket
  import opened LimiterModel
  import opened Ledger
  import opened LimiterTheorems

  // The number of the latest call that swept, counting from one; zero before the first.
  function LatestSweep(n: nat): (s: nat)
    ensures s <= n
  {
    if n == 0 || n % SWEEP_EVERY == 0 then n else LatestSweep(n - 1)
  }

  lemma {:induction false} LatestSweepIsLatest(n: nat)
    ensures LatestSweep(n) % SWEEP_EVERY == 0 && n - LatestSweep(n) < SWEEP_EVERY
    ensures forall i :: LatestSweep(n) < i <= n ==> i % SWEEP_EVERY != 0
    ensures LatestSweep(n) == n - n % 256
  {
    if n % SWEEP_EVERY != 0 {
      LatestSweepIsLatest(n - 1);
    }
  }

  // When the registries were last swept; the zero time before the first sweep.
  function SweptAt(reqs: seq<Request>): real {
    var s := LatestSweep(|reqs|);
    if s == 0 then 0.0 else reqs[s - 1].at
  }

  // A bucket remembers the latest use of its key.
  ghost predicate LatestUse(f: Facet, reqs: seq<Request>, k: string, seen: real) {
    && (exists i :: 0 <= i < |reqs| && f.KeyOf(reqs[i]) == k && reqs[i].at == seen)
    && (forall i :: 0 <= i < |reqs| && f.KeyOf(reqs[i]) == k ==> reqs[i].at <= seen)
  }

  ghost predicate UsedSince(f: Facet, reqs: seq<Request>, k: string, since: real) {
    exists i :: 0 <= i < |reqs| && f.KeyOf(reqs[i]) == k && reqs[i].at >= since
  }

  // Used no longer than the horizon before the latest sweep, or after it.
  ghost predicate RecentlyUsed(f: Facet, reqs: seq<Request>, ttl: real, k: string) {
    UsedSince(f, reqs, k, SweptAt(reqs) - ttl)
  }

  ghost predicate HoldsRecent(f: Facet, m: map<string, Slot>, reqs: seq<Request>, ttl: real) {
    forall k :: (k in m ==> LatestUse(f, reqs, k, m[k].seen)) && (k in m <==> RecentlyUsed(f, reqs, ttl, k))
  }

  lemma {:induction false} CallsCounted(cfg: Config, reqs: seq<Request>)
    ensures Run(cfg, reqs, true).0.calls == |reqs|
  {
    if reqs != [] {
      CallsCounted(cfg, reqs[..|reqs| - 1]);
    }
  }

  // One call on one registry: sweep if due, then refresh or create the key's bucket.
  lemma BucketsAfterCall(f: Facet, cfg: Config, st: State, r: Request)
    requires f.ScopeIn(cfg).Enabled()
    ensures var m, m' := f.BucketsIn(st), f.BucketsIn(Step(cfg, st, r, true).0);
            var kept := if (st.calls + 1) % SWEEP_EVERY == 0 then Sweep(m, r.at, cfg.idleTTL) else m;
            && m'.Keys == kept.Keys + {f.KeyOf(r)}
            && m'[f.KeyOf(r)].seen == r.at
            && (forall k :: k in kept && k != f.KeyOf(r) ==> m'[k] == kept[k])
  {
  }

  lemma LatestUseGrows(f: Facet, reqs: seq<Request>, r: Request, k: string, seen: real)
    requires LatestUse(f, reqs, k, seen) && f.KeyOf(r) != k
    ensures LatestUse(f, reqs + [r], k, seen)
  {
    var i :| 0 <= i < |reqs| && f.KeyOf(reqs[i]) == k && reqs[i].at == seen;
    assert (reqs + [r])[i] == reqs[i];
  }

  lemma NewUseIsLatest(f: Facet, reqs: seq<Request>, r: Request)
    requires Chronological(reqs + [r])
    ensures LatestUse(f, reqs + [r], f.KeyOf(r), r.at)
  {
    var all := reqs + [r];
    assert all[|reqs|] == r;
    forall i | 0 <= i < |all|
      ensures all[i].at <= r.at
    {
      LaterIsLater(all, i, |reqs|);
    }
  }

  lemma SweptAtNext(reqs: seq<Request>, r: Request)
    requires Chronological(reqs + [r])
    ensures SweptAt(reqs + [r]) == if (|reqs| + 1) % SWEEP_EVERY == 0 then r.at else SweptAt(reqs)
    ensures SweptAt(reqs) <= r.at
  {
    var all, s := reqs + [r], LatestSweep(|reqs|);
    assert all[|reqs|] == r;
    if s > 0 {
      assert all[s - 1] == reqs[s - 1];
      LaterIsLater(all, s - 1, |reqs|);
    } else {
      NowNotNegative(all);
    }
  }

  lemma {:induction false} NowNotNegative(reqs: seq<Request>)
    requires Chronological(reqs)
    ensures Now(reqs) >= 0.0
  {
    if reqs != [] {
      NowNotNegative(reqs[..|reqs| - 1]);
    }
  }

  lemma OtherCallUsesNothing(f: Facet, reqs: seq<Request>, r: Request, k: string, since: real)
    requires f.KeyOf(r) != k
    ensures UsedSince(f, reqs + [r], k, since) <==> UsedSince(f, reqs, k, since)
  {
    var all := reqs + [r];
    assert all[|reqs|] == r && forall i :: 0 <= i < |reqs| ==> all[i] == reqs[i];
  }

  // The key of another call stays, or is swept, as its uses tell.
  lemma RecentAfterCall(f: Facet, reqs: seq<Request>, r: Request, ttl: real, k: string)
    requires Chronological(reqs + [r]) && f.KeyOf(r) != k
    ensures RecentlyUsed(f, reqs + [r], ttl, k) <==>
            RecentlyUsed(f, reqs, ttl, k) &&
            ((|reqs| + 1) % SWEEP_EVERY == 0 ==> UsedSince(f, reqs, k, r.at - ttl))
  {
    SweptAtNext(reqs, r);
    OtherCallUsesNothing(f, reqs, r, k, SweptAt(reqs + [r]) - ttl);
  }

  lemma HoldsRecentStep(f: Facet, cfg: Config, st: State, reqs: seq<Request>, r: Request)
    requires f.ScopeIn(cfg).Enabled() && cfg.idleTTL > 0.0
    requires Chronological(reqs + [r]) && st.calls == |reqs|
    requires HoldsRecent(f, f.BucketsIn(st), reqs, cfg.idleTTL)
    ensures HoldsRecent(f, f.BucketsIn(Step(cfg, st, r, true).0), reqs + [r], cfg.idleTTL)
  {
    var all := reqs + [r];
    var m, m' := f.BucketsIn(st), f.BucketsIn(Step(cfg, st, r, true).0);
    BucketsAfterCall(f, cfg, st, r);
    forall k
      ensures k in m' ==> LatestUse(f, all, k, m'[k].seen)
      ensures k in m' <==> RecentlyUsed(f, all, cfg.idleTTL, k)
    {
      if k == f.KeyOf(r) {
        NewUseIsLatest(f, reqs, r);
        UsedNowIsRecent(f, reqs, r, cfg.idleTTL);
      } else {
        RecentAfterCall(f, reqs, r, cfg.idleTTL, k);
        if k in m {
          KeptIffUsed(f, reqs, k, m[k].seen, r.at, cfg.idleTTL);
          LatestUseGrows(f, reqs, r, k, m[k].seen);
        }
      }
    }
  }

  lemma UsedNowIsRecent(f: Facet, reqs: seq<Request>, r: Request, ttl: real)
    requires Chronological(reqs + [r]) && ttl > 0.0
    ensures RecentlyUsed(f, reqs + [r], ttl, f.KeyOf(r))
  {
    SweptAtNext(reqs, r);
    assert (reqs + [r])[|reqs|] == r;
  }

  lemma KeptIffUsed(f: Facet, reqs: seq<Request>, k: string, seen: real, now: real, ttl: real)
    requires LatestUse(f, reqs, k, seen)
    ensures now - seen <= ttl <==> UsedSince(f, reqs, k, now - ttl)
  {
    var i :| 0 <= i < |reqs| && f.KeyOf(reqs[i]) == k && reqs[i].at == seen;
    if now - seen <= ttl {
      assert reqs[i].at >= now - ttl;
    }
  }

  /**
   After any run a registry holds exactly the keys used within the horizon before the latest
   sweep or since it, each stamped with its latest use.
   */
  lemma {:induction false} RegistryHoldsRecentKeys(f: Facet, cfg: Config, reqs: seq<Request>)
    requires f.ScopeIn(cfg).Enabled() && cfg.idleTTL > 0.0 && Chronological(reqs)
    ensures HoldsRecent(f, f.BucketsIn(Run(cfg, reqs, true).0), reqs, cfg.idleTTL)
  {
    if reqs != [] {
      var init, r := reqs[..|reqs| - 1], reqs[|reqs| - 1];
      assert reqs == init + [r];
      RegistryHoldsRecentKeys(f, cfg, init);
      CallsCounted(cfg, init);
      HoldsRecentStep(f, cfg, Run(cfg, init, true).0, init, r);
    }
  }

  // The calls that can keep a key alive.
  ghost function RecentCalls(reqs: seq<Request>, ttl: real): set<int> {
    set i | 0 <= i < |reqs| && reqs[i].at >= SweptAt(reqs) - ttl
  }

  lemma {:induction false} ImageNotLarger(f: Facet, reqs: seq<Request>, calls: set<int>, keys: set<string>)
    requires forall k :: k in keys ==> exists i :: i in calls && 0 <= i < |reqs| && f.KeyOf(reqs[i]) == k
    ensures |keys| <= |calls|
    decreases |keys|
  {
    if keys != {} {
      var k :| k in keys;
      var i :| i in calls && 0 <= i < |reqs| && f.KeyOf(reqs[i]) == k;
      ImageNotLarger(f, reqs, calls - {i}, keys - {k});
    }
  }

  lemma {:induction false} IndexSetSize(s: set<int>, n: nat)
    requires forall i :: i in s ==> 0 <= i < n
    ensures |s| <= n
  {
    if n > 0 {
      IndexSetSize(s - {n - 1}, n - 1);
    } else {
      assert forall i :: i !in s;
    }
  }

  /**
   A registry never holds more keys than there were recent calls, and before the first sweep
   at most one per call, so at most 255.
   */
  lemma RegistryIsBounded(f: Facet, cfg: Config, reqs: seq<Request>)
    requires f.ScopeIn(cfg).Enabled() && cfg.idleTTL > 0.0 && Chronological(reqs)
    ensures |f.BucketsIn(Run(cfg, reqs, true).0)| <= |RecentCalls(reqs, cfg.idleTTL)| <= |reqs|
    ensures |reqs| < SWEEP_EVERY ==> |f.BucketsIn(Run(cfg, reqs, true).0)| <= 255
  {
    RegistryHoldsRecentKeys(f, cfg, reqs);
    var m := f.BucketsIn(Run(cfg, reqs, true).0);
    forall k | k in m.Keys
      ensures exists i :: i in RecentCalls(reqs, cfg.idleTTL) && 0 <= i < |reqs| && f.KeyOf(reqs[i]) == k
    {
      assert RecentlyUsed(f, reqs, cfg.idleTTL, k);
    }
    ImageNotLarger(f, reqs, RecentCalls(reqs, cfg.idleTTL), m.Keys);
    IndexSetSize(RecentCalls(reqs, cfg.idleTTL), |reqs|);
  }
}
