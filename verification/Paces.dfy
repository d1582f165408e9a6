/**
 The level of a bucket under regular calls: at equal distances, from a full bucket, or after
 earlier calls that no longer matter.
 */
module Paces {
  import opened TokenBucket
  import opened Ledger

  function Moment(start: real, gap: real, i: nat): real {
    start + i as real * gap
  }

  // n calls from time `start`, `gap` apart.
  function Pace(start: real, gap: real, n: nat): (ts: seq<real>)
    ensures |ts| == n
  {
    seq(n, i requires 0 <= i < n => Moment(start, gap, i))
  }

  lemma NextMoment(start: real, gap: real, n: nat)
    ensures Moment(start, gap, n + 1) == Moment(start, gap, n) + gap
  {
    assert (n + 1) as real * gap == n as real * gap + gap;
  }

  lemma PaceGrows(start: real, gap: real, n: nat)
    ensures Pace(start, gap, n + 1) == Pace(start, gap, n) + [Moment(start, gap, n)]
    ensures Moment(start, gap, n + 1) == Moment(start, gap, n) + gap
  {
    hide Moment;
    NextMoment(start, gap, n);
  }

  // One call, and the level a while later.
  lemma LevelAfterCall(s: Scope, ts: seq<real>, last: real, t: real)
    ensures LevelAfter(s, ts + [last], t) ==
              Min(s.burst as real, LevelAfter(s, ts, last) - 1.0 + Accrued(s, t) - Accrued(s, last))
  {
    assert (ts + [last])[..|ts|] == ts;
  }

  lemma LevelAtMostBurst(s: Scope, times: seq<real>, t: real)
    ensures LevelAfter(s, times, t) <= s.burst as real
  {
  }

  // What a call costs, after the refill until the next one.
  function Drop(s: Scope, gap: real): real {
    1.0 - s.rate * gap
  }

  // Regular calls, not so far apart that the bucket refills in between, lower the level evenly.
  lemma {:induction false} PacedLevel(s: Scope, ts: seq<real>, start: real, gap: real, n: nat)
    requires 0.0 < Drop(s, gap)
    ensures LevelAfter(s, ts + Pace(start, gap, n), Moment(start, gap, n)) ==
              LevelAfter(s, ts, start) - n as real * Drop(s, gap)
  {
    hide LevelAfter;
    if n == 0 {
      assert Pace(start, gap, 0) == [] && ts + [] == ts;
      assert Moment(start, gap, 0) == start;
    } else {
      var m, drop := n - 1, Drop(s, gap);
      var before, now := Moment(start, gap, m), Moment(start, gap, n);
      PacedLevel(s, ts, start, gap, m);
      PaceGrows(start, gap, m);
      assert ts + Pace(start, gap, n) == ts + Pace(start, gap, m) + [before];
      LevelAfterCall(s, ts + Pace(start, gap, m), before, now);
      LevelAtMostBurst(s, ts, start);
      AccruedIsRateTimesLength(s, before, now);
      assert n as real * drop == m as real * drop + drop;
      assert m as real * drop >= 0.0;
    }
  }

  // Calls far enough apart for a token each find the bucket full, if the first one does.
  lemma {:induction false} SlowLevel(s: Scope, ts: seq<real>, start: real, gap: real, n: nat)
    requires 1.0 <= s.rate * gap && LevelAfter(s, ts, start) == s.burst as real
    ensures LevelAfter(s, ts + Pace(start, gap, n), Moment(start, gap, n)) == s.burst as real
  {
    hide LevelAfter;
    if n == 0 {
      assert Pace(start, gap, 0) == [] && ts + [] == ts;
      assert Moment(start, gap, 0) == start;
    } else {
      var m := n - 1;
      var before, now := Moment(start, gap, m), Moment(start, gap, n);
      SlowLevel(s, ts, start, gap, m);
      PaceGrows(start, gap, m);
      assert ts + Pace(start, gap, n) == ts + Pace(start, gap, m) + [before];
      LevelAfterCall(s, ts + Pace(start, gap, m), before, now);
      AccruedIsRateTimesLength(s, before, now);
    }
  }

  // ---------------------------------------------------------------------------------------
  // Earlier calls that no longer matter

  lemma {:induction false} LevelNotBelow(s: Scope, times: seq<real>, t: real)
    requires s.Enabled() && Ascending(times) && Before(times, t)
    ensures s.burst as real - |times| as real <= LevelAfter(s, times, t)
  {
    if times != [] {
      var n := |times| - 1;
      LevelNotBelow(s, times[..n], times[n]);
      AccruedMonotone(s, times[n], t);
    }
  }

  // After a long enough wait the bucket is full again.
  lemma FullAgain(s: Scope, times: seq<real>, t: real)
    requires s.Enabled() && Ascending(times) && Before(times, 0.0) && 0.0 <= t && |times| as real <= Accrued(s, t)
    ensures LevelAfter(s, times, t) == s.burst as real
  {
    LevelNotBelow(s, times, 0.0);
    LedgerLevelGrows(s, times, 0.0, t);
  }

  // From a full bucket on, what came before makes no difference.
  lemma {:induction false} FreshStart(s: Scope, past: seq<real>, times: seq<real>, t: real)
    requires times != [] && LevelAfter(s, past, times[0]) == s.burst as real
    ensures LevelAfter(s, past + times, t) == LevelAfter(s, times, t)
    decreases |times|
  {
    hide LevelAfter;
    var n := |times| - 1;
    assert past + times == past + times[..n] + [times[n]];
    assert times == times[..n] + [times[n]];
    LevelAfterCall(s, past + times[..n], times[n], t);
    LevelAfterCall(s, times[..n], times[n], t);
    if n > 0 {
      FreshStart(s, past, times[..n], times[n]);
    } else {
      assert past + times[..0] == past && times[..0] == [];
      NoCallsFull(s, times[n]);
    }
  }

  lemma NoCallsFull(s: Scope, t: real)
    ensures LevelAfter(s, [], t) == s.burst as real
  {
  }
}
