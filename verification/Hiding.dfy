/**
 When evictions stay hidden.  A bucket that is dropped while it still had tokens to win back returns
 too full.  That shows only if a request then waits for it; under the condition given here the
 global bucket, which has counted every request the dropped one forgot, makes it wait at least as long.
 */
module Hiding {
  import opened TokenBucket
  import opened LimiterModel
  import opened Ledger
  import opened LimiterRuns
  import opened LimiterTheorems

  // The least number of tokens that a bucket does not win back within the horizon.
  function BeyondHorizon(s: Scope, ttl: real): int {
    (s.rate * ttl).Floor + 1
  }

  // The global scope g is too tight, against the keyed scope s, for evictions of s to show.
  predicate Hides(g: Scope, s: Scope, ttl: real) {
    && g.Enabled() && g.rate <= s.rate
    && (g.burst - s.burst) as real * s.rate <= BeyondHorizon(s, ttl) as real * (s.rate - g.rate)
  }

  ghost predicate Hidden(s: Scope, g: Scope, ttl: real) {
    SafeHorizon(s, ttl) || Hides(g, s, ttl)
  }

  // ---------------------------------------------------------------------------------------
  // A bucket that forgot its older requests

  lemma {:induction false} SuffixIsHigher(s: Scope, times: seq<real>, from: nat, t: real)
    requires from <= |times|
    ensures LevelAfter(s, times, t) <= LevelAfter(s, times[from..], t)
  {
    if from < |times| {
      var n := |times| - 1;
      SuffixIsHigher(s, times[..n], from, times[n]);
      assert times[from..][..|times| - from - 1] == times[..n][from..];
    }
  }

  lemma {:induction false} SuffixCounts(times: seq<real>, from: nat, w: real)
    requires Ascending(times) && from <= |times| && (from > 0 ==> times[from - 1] < w)
    ensures CountSince(times, w) == CountSince(times[from..], w)
  {
    if from < |times| {
      var n := |times| - 1;
      SuffixCounts(times[..n], from, w);
      assert times[from..][..|times| - from - 1] == times[..n][from..];
    } else {
      NothingSince(times, w);
    }
  }

  lemma {:induction false} SuffixAscends(times: seq<real>, from: nat)
    requires Ascending(times) && from <= |times|
    ensures Ascending(times[from..])
  {
    if from < |times| {
      SuffixAscends(times[..|times| - 1], from);
      assert times[from..][..|times| - from - 1] == times[..|times| - 1][from..];
    }
  }

  lemma CountAppended(times: seq<real>, last: real, w: real)
    ensures CountSince(times + [last], w) == CountSince(times, w) + if last >= w then 1 else 0
  {
    assert (times + [last])[..|times|] == times;
  }

  // Every request of a key is one of the process.
  lemma {:induction false} KeyCountsLess(d: Dim, ledger: seq<Request>, w: real)
    ensures CountSince(Times(d, ledger), w) <= CountSince(Times(Everyone, ledger), w)
  {
    hide CountSince;
    if ledger != [] {
      var n := |ledger| - 1;
      KeyCountsLess(d, ledger[..n], w);
      CountAppended(Times(d, ledger[..n]), ledger[n].at, w);
      CountAppended(Times(Everyone, ledger[..n]), ledger[n].at, w);
    }
  }

  // The arithmetic of the condition: n requests in a window of length `gap`, longer than the horizon.
  lemma TightEnough(s: Scope, g: Scope, ttl: real, gap: real, n: nat, level: real, global: real)
    requires s.Enabled() && Hides(g, s, ttl) && ttl < gap
    requires level == s.burst as real + s.rate * gap - n as real && level < 1.0
    requires global <= g.burst as real + g.rate * gap - n as real
    ensures g.rate * (1.0 - level) <= s.rate * (1.0 - global)
  {
    var r, c, d := s.rate, g.rate, s.rate - g.rate;
    var k := n - s.burst + 1;
    assert r * ttl < r * gap;
    assert r * ttl < k as real;
    assert BeyondHorizon(s, ttl) <= k;
    assert BeyondHorizon(s, ttl) as real * d <= k as real * d;
    assert (g.burst - s.burst) as real * r <= k as real * d;
    var room := g.burst as real + c * gap - n as real;
    assert r * global <= r * room;
    calc {
      r * (1.0 - room) - c * (1.0 - level);
      r - r * room - c + c * level;
      { assert r * (c * gap) == c * (r * gap);
        assert r * room == r * g.burst as real + r * (c * gap) - r * n as real;
        assert c * level == c * s.burst as real + c * (r * gap) - c * n as real; }
      d - r * g.burst as real + r * n as real + c * s.burst as real - c * n as real;
      { assert r * n as real - c * n as real == d * n as real;
        assert r * g.burst as real - r * s.burst as real == (g.burst - s.burst) as real * r;
        assert r * s.burst as real - c * s.burst as real == d * s.burst as real; }
      d + d * n as real - d * s.burst as real - (g.burst - s.burst) as real * r;
      { assert k as real * d == d + d * n as real - d * s.burst as real; }
      k as real * d - (g.burst - s.burst) as real * r;
    }
  }

  lemma SmallerRatio(r: real, c: real, x: real, y: real)
    requires r > 0.0 && c > 0.0 && x > 0.0 && c * x <= r * y
    ensures y > 0.0 && x / r <= y / c
  {
    var a, b := x / r, y / c;
    assert a * r == x && b * c == y;
    var both := r * c;
    assert both > 0.0;
    assert a * both == c * x && b * both == r * y;
    assert (b - a) * both >= 0.0;
  }

  lemma SlowerWait(s: Scope, g: Scope, level: real, global: real, maxWait: real)
    requires s.Live() && g.Live() && level < 1.0
    requires g.rate * (1.0 - level) <= s.rate * (1.0 - global)
    ensures Wait(s, level, maxWait) <= Wait(g, global, maxWait)
  {
    SmallerRatio(s.rate, g.rate, 1.0 - level, 1.0 - global);
  }

  /**
   A bucket that forgot requests older than the horizon either stands where it would without
   forgetting, or the request waits at least as long for the global bucket.
   */
  lemma ForgettingIsCovered(s: Scope, g: Scope, ttl: real, times: seq<real>, from: nat, all: seq<real>,
                            now: real, maxWait: real)
    requires s.Live() && g.Live() && Hides(g, s, ttl) && maxWait > 0.0
    requires Ascending(times) && Before(times, now) && Ascending(all) && Before(all, now)
    requires forall w :: CountSince(times, w) <= CountSince(all, w)
    requires from <= |times| && forall i :: 0 <= i < from ==> times[i] + ttl < now
    ensures var level, forgetful := LevelAfter(s, times, now), LevelAfter(s, times[from..], now);
            && level <= forgetful
            && (level == forgetful || Wait(s, level, maxWait) <= Wait(g, LevelAfter(g, all, now), maxWait))
  {
    hide LevelAfter, CountSince, Ascending, Wait, Hides;
    var level, global := LevelAfter(s, times, now), LevelAfter(g, all, now);
    SuffixIsHigher(s, times, from, now);
    var w := LevelReachedByAWindow(s, times, now);
    var n := CountSince(times, w);
    LevelBelowEveryWindow(s, times, now, w);
    if from == 0 || times[from - 1] < w {
      SuffixAscends(times, from);
      SuffixCounts(times, from, w);
      LevelBelowEveryWindow(s, times[from..], now, w);
    } else if level < 1.0 {
      LevelBelowEveryWindow(g, all, now, w);
      AccruedIsRateTimesLength(s, w, now);
      AccruedIsRateTimesLength(g, w, now);
      TightEnough(s, g, ttl, now - w, n, level, global);
      SlowerWait(s, g, level, global, maxWait);
    } else {
      WaitIffRefused(s, level, maxWait);
      WaitIffRefused(g, global, maxWait);
    }
  }
}
