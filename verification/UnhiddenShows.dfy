/**
 A plan for every limiter in which a keyed scope's evictions are not hidden.  If the global scope
 has room, a burst, a pause and a second burst will do; if it is smaller but refills faster, the
 same is done at its pace.
 */
module UnhiddenShows {
  import opened TokenBucket
  import opened LimiterModel
  import opened Ledger
  import opened LimiterRuns
  import opened Paces
  import opened Hiding
  import opened Showing
  import opened PacedRuns

  lemma Quotient(a: real, b: real)
    requires b > 0.0
    ensures a / b * b == a && b * (a / b) == a
  {
  }

  lemma LessTimes(a: real, x: real, y: real)
    requires a > 0.0 && x < y
    ensures a * x < a * y
  {
  }

  // After this long every bucket that was drained n tokens deep is full.
  lemma LongWait(s: Scope, g: Scope, n: nat) returns (t: real)
    requires s.Enabled()
    ensures 0.0 <= t && n as real <= Accrued(s, t)
    ensures g.Enabled() ==> n as real <= Accrued(g, t)
  {
    t := WaitFor(s, n);
    if g.Enabled() {
      var u := WaitFor(g, n);
      AccruedMonotone(s, t, Max(t, u));
      AccruedMonotone(g, u, Max(t, u));
      t := Max(t, u);
    }
  }

  lemma WaitFor(s: Scope, n: nat) returns (t: real)
    requires s.Enabled()
    ensures 0.0 <= t && n as real == Accrued(s, t)
  {
    t := WonAt(s, n as real);
    AccruedMonotone(s, 0.0, t);
  }

  // ---------------------------------------------------------------------------------------
  // Bursts

  // The global bucket takes the first calls, as many as the bucket does not win back within the
  // horizon, and, just before it would win them back, a whole burst.
  predicate HasRoom(g: Scope, s: Scope, ttl: real) {
    var k := BeyondHorizon(s, ttl);
    g.Enabled() ==> s.burst <= g.burst && (s.burst - g.burst + k) as real * s.rate < g.rate * k as real
  }

  lemma WonAt(s: Scope, a: real) returns (t: real)
    requires s.Enabled()
    ensures Accrued(s, t) == a
  {
    t := a / s.rate;
    Quotient(a, s.rate);
  }

  lemma WonEarlier(g: Scope, s: Scope, ttl: real) returns (won: real)
    requires s.Enabled() && g.Enabled() && HasRoom(g, s, ttl)
    ensures Accrued(g, won) == (s.burst - g.burst + BeyondHorizon(s, ttl)) as real
    ensures Accrued(s, won) < BeyondHorizon(s, ttl) as real
  {
    var k, missing := BeyondHorizon(s, ttl) as real, (s.burst - g.burst + BeyondHorizon(s, ttl)) as real;
    won := missing / g.rate;
    Quotient(missing, g.rate);
    var refilled := k / s.rate;
    Quotient(k, s.rate);
    EarlierMoment(missing, g.rate, k, s.rate);
    LessTimes(s.rate, won, refilled);
  }

  lemma Pause(g: Scope, s: Scope, ttl: real) returns (idle: real)
    requires s.Enabled() && HasRoom(g, s, ttl)
    ensures ttl < idle && Accrued(s, idle) < BeyondHorizon(s, ttl) as real
    ensures g.Enabled() ==> (s.burst - g.burst + BeyondHorizon(s, ttl)) as real < Accrued(g, idle)
  {
    hide BeyondHorizon, HasRoom, Accrued;
    NotWonYet(s, ttl);
    var refilled := WonAt(s, BeyondHorizon(s, ttl) as real);
    AccruedMonotone(s, refilled, ttl);
    var least := ttl;
    if g.Enabled() {
      var won := WonEarlier(g, s, ttl);
      AccruedMonotone(s, refilled, won);
      least := Max(ttl, won);
      idle := (least + refilled) / 2.0;
      AccruedMonotone(g, idle, won);
    } else {
      idle := (least + refilled) / 2.0;
    }
    AccruedMonotone(s, refilled, idle);
  }

  lemma NotWonYet(s: Scope, ttl: real)
    ensures Accrued(s, ttl) < BeyondHorizon(s, ttl) as real
  {
  }

  lemma EarlierMoment(a: real, b: real, c: real, d: real)
    requires b > 0.0 && d > 0.0 && a * d < b * c
    ensures a / b < c / d
  {
    var x, y := a / b, c / d;
    assert x * b == a && y * d == c;
    var both := b * d;
    assert both > 0.0 && x * both == a * d && y * both == b * c;
    assert (y - x) * both > 0.0;
  }

  lemma AccruedAdds(s: Scope, t: real, idle: real)
    ensures Accrued(s, t + idle) == Accrued(s, t) + Accrued(s, idle)
  {
  }

  // Calls at one instant.
  lemma AtOnce(start: real, i: nat)
    ensures Moment(start, 0.0, i) == start
  {
  }

  // A burst of n calls, and the level a while later.
  lemma AfterBurst(s: Scope, start: real, n: nat, idle: real)
    requires s.Enabled() && 0.0 <= idle
    ensures LevelAfter(s, Pace(start, 0.0, n), start) == (s.burst - n) as real
    ensures LevelAfter(s, Pace(start, 0.0, n), start + idle) ==
              Min(s.burst as real, (s.burst - n) as real + Accrued(s, idle))
  {
    hide LevelAfter, Pace;
    PacedLevel(s, [], start, 0.0, n);
    AtOnce(start, n);
    assert [] + Pace(start, 0.0, n) == Pace(start, 0.0, n);
    NoCallsFull(s, start);
    LedgerLevelGrows(s, Pace(start, 0.0, n), start, start + idle);
    AccruedAdds(s, start, idle);
  }

  lemma BurstBears(g: Scope, s: Scope, ttl: real, p: Plan, idle: real)
    requires g.Live() && s.Live() && HasRoom(g, s, ttl) && 0.0 <= idle
    requires 0 < BeyondHorizon(s, ttl) <= s.burst
    requires (s.burst - g.burst + BeyondHorizon(s, ttl)) as real < Accrued(g, idle)
    requires p.gap == 0.0 && p.n == BeyondHorizon(s, ttl) && p.m == s.burst - 1 && p.again == p.start + idle
    requires p.Filler() as real <= Accrued(g, p.start)
    ensures Bears(g, p)
  {
    hide LevelAfter, Pace, HasRoom;
    RoomIsLarger(g, s, ttl);
    var first, second := p.First(), p.Second();
    AfterBurst(g, p.start, p.n, idle);
    forall i | 0 <= i < p.n
      ensures 1.0 <= LevelAfter(g, first[..i], first[i])
    {
      PacePrefix(p.start, 0.0, p.n, i);
      AtOnce(p.start, i);
      AfterBurst(g, p.start, i, 0.0);
    }
    forall i | 0 <= i <= p.m
      ensures 1.0 <= LevelAfter(g, first + second[..i], second[i])
    {
      PacePrefix(p.again, 0.0, p.m + 1, i);
      PacedLevel(g, first, p.again, 0.0, i);
    }
  }

  lemma RoomIsLarger(g: Scope, s: Scope, ttl: real)
    requires g.Enabled() && HasRoom(g, s, ttl)
    ensures s.burst <= g.burst
  {
  }

  lemma BurstDrains(s: Scope, ttl: real, p: Plan, idle: real)
    requires s.Live() && 0.0 <= idle && 0 < BeyondHorizon(s, ttl) <= s.burst
    requires Accrued(s, idle) < BeyondHorizon(s, ttl) as real
    requires p.gap == 0.0 && p.n == BeyondHorizon(s, ttl) && p.m == s.burst - 1 && p.again == p.start + idle
    requires p.Filler() as real <= Accrued(s, p.start)
    ensures Drains(s, p)
  {
    hide LevelAfter, Pace;
    AfterBurst(s, p.start, p.n, idle);
    assert Drop(s, p.gap) == 1.0;
  }

  lemma WithinBurst(s: Scope, ttl: real)
    requires s.Enabled() && 0.0 < ttl && !SafeHorizon(s, ttl)
    ensures 0 < BeyondHorizon(s, ttl) <= s.burst
  {
    assert s.rate * ttl > 0.0;
  }

  lemma BurstShows(f: Facet, cfg: Config) returns (reqs: seq<Request>)
    requires KeyedBy(cfg, f) && !SafeHorizon(f.ScopeIn(cfg), cfg.idleTTL)
    requires HasRoom(cfg.global, f.ScopeIn(cfg), cfg.idleTTL)
    ensures Chronological(reqs) && Run(cfg, reqs, true).1 != Run(cfg, reqs, false).1
  {
    hide LevelAfter, Pace, Run, BeyondHorizon, HasRoom, Drains, Bears, SafeHorizon;
    var s, g := f.ScopeIn(cfg), cfg.global;
    WithinBurst(s, cfg.idleTTL);
    var n := BeyondHorizon(s, cfg.idleTTL);
    var idle := Pause(g, s, cfg.idleTTL);
    var start := LongWait(s, g, 255 * n + 255);
    var p := Plan(0.0, n, s.burst - 1, start, start + idle);
    AtOnce(start, n - 1);
    BurstDrains(s, cfg.idleTTL, p, idle);
    if g.Enabled() {
      BurstBears(g, s, cfg.idleTTL, p, idle);
    } else {
      NothingToBear(g, p);
    }
    reqs := PlanShows(f, cfg, p);
  }

  lemma NothingToBear(g: Scope, p: Plan)
    requires !g.Enabled()
    ensures Bears(g, p)
  {
  }

  // ---------------------------------------------------------------------------------------
  // At the pace of a global scope that is smaller but faster

  // How often a level can drop before it is below one.
  lemma CallsUntil(level: real, drop: real) returns (n: nat)
    requires drop > 0.0
    ensures level - n as real * drop < 1.0
    ensures n > 0 ==> 1.0 <= level - (n - 1) as real * drop
  {
    if level < 1.0 {
      n := 0;
    } else {
      var q := (level - 1.0) / drop;
      Quotient(level - 1.0, drop);
      n := q.Floor + 1;
      LessTimes(drop, q, n as real);
      if (n - 1) as real < q {
        LessTimes(drop, (n - 1) as real, q);
      }
      assert (n - 1) as real * drop <= q * drop;
    }
  }

  // A gap that is long enough for the global bucket to win back a token, and short enough for the
  // key's bucket to lose a little with each call.
  lemma SlowDrain(g: Scope, s: Scope, most: real) returns (gap: real)
    requires s.Enabled() && s.rate < g.rate && most > 0.0
    ensures 0.0 <= gap && 1.0 <= g.rate * gap && 0.0 < Drop(s, gap) <= most && Drop(s, gap) < 1.0
  {
    var ratio := s.rate / g.rate;
    Quotient(s.rate, g.rate);
    EarlierMoment(0.0, 1.0, s.rate, g.rate);
    var drop := Min(1.0 - ratio, most);
    gap := (1.0 - drop) / s.rate;
    Quotient(1.0 - drop, s.rate);
    assert ratio <= 1.0 - drop;
    assert s.rate * (g.rate * gap) == g.rate * (1.0 - drop);
    assert g.rate * (1.0 - drop) >= g.rate * ratio;
    TokenWon(s.rate, g.rate * gap);
  }

  lemma TokenWon(r: real, x: real)
    requires r > 0.0 && r <= r * x
    ensures 1.0 <= x
  {
    if x < 1.0 {
      LessTimes(r, x, 1.0);
    }
  }

  // The pause between the two series: longer than the horizon and than a gap, and short enough for
  // the key's bucket to stay short of full by more than one call costs.
  lemma ShortPause(s: Scope, ttl: real, gap: real, left: real) returns (idle: real)
    requires s.Live() && s.burst >= 2 && 0.0 < ttl && 0.0 <= gap
    requires 0.0 < Drop(s, gap) < 1.0 && 4.0 * Drop(s, gap) <= s.burst as real - s.rate * ttl
    requires left < Drop(s, gap)
    ensures ttl < idle && gap <= idle && left + Accrued(s, idle) + Drop(s, gap) <= s.burst as real
  {
    var room := s.burst as real - s.rate * ttl;
    var more := room / 4.0 / s.rate;
    Quotient(room / 4.0, s.rate);
    var longer := ttl + more;
    assert s.rate * longer == s.rate * ttl + room / 4.0;
    idle := Max(longer, gap);
  }

  // Regular calls from a full bucket, and the level a while after the last of them.
  lemma AfterPace(s: Scope, start: real, gap: real, n: nat, idle: real)
    requires s.Enabled() && n > 0 && 0.0 < Drop(s, gap)
    ensures var last := Moment(start, gap, n - 1);
            LevelAfter(s, Pace(start, gap, n), last + idle) ==
              Min(s.burst as real, s.burst as real - (n - 1) as real * Drop(s, gap) - 1.0 + Accrued(s, idle))
  {
    hide LevelAfter, Pace, Drop, Moment, Accrued;
    var last := Moment(start, gap, n - 1);
    PacedLevel(s, [], start, gap, n - 1);
    assert [] + Pace(start, gap, n - 1) == Pace(start, gap, n - 1);
    NoCallsFull(s, start);
    PaceGrows(start, gap, n - 1);
    LevelAfterCall(s, Pace(start, gap, n - 1), last, last + idle);
    AccruedAdds(s, last, idle);
  }

  lemma PaceBears(g: Scope, p: Plan, idle: real)
    requires g.Live() && p.n > 0 && 1.0 <= g.rate * p.gap && p.gap <= idle
    requires p.again == Moment(p.start, p.gap, p.n - 1) + idle && p.Filler() as real <= Accrued(g, p.start)
    ensures Bears(g, p)
  {
    hide LevelAfter, Pace, Moment;
    var first, second := p.First(), p.Second();
    NoCallsFull(g, p.start);
    forall i | 0 <= i < p.n
      ensures 1.0 <= LevelAfter(g, first[..i], first[i])
    {
      PacePrefix(p.start, p.gap, p.n, i);
      SlowLevel(g, [], p.start, p.gap, i);
      assert [] + Pace(p.start, p.gap, i) == Pace(p.start, p.gap, i);
    }
    FullAgainSecond(g, p, idle);
    forall i | 0 <= i <= p.m
      ensures 1.0 <= LevelAfter(g, first + second[..i], second[i])
    {
      PacePrefix(p.again, p.gap, p.m + 1, i);
      SlowLevel(g, first, p.again, p.gap, i);
    }
  }

  lemma FullAgainSecond(g: Scope, p: Plan, idle: real)
    requires g.Live() && p.n > 0 && 1.0 <= g.rate * p.gap && p.gap <= idle
    requires p.again == Moment(p.start, p.gap, p.n - 1) + idle
    ensures LevelAfter(g, p.First(), p.again) == g.burst as real
  {
    hide LevelAfter, Pace, Moment;
    var n := p.n - 1;
    var last := Moment(p.start, p.gap, n);
    NoCallsFull(g, p.start);
    SlowLevel(g, [], p.start, p.gap, n);
    assert [] + Pace(p.start, p.gap, n) == Pace(p.start, p.gap, n);
    PaceGrows(p.start, p.gap, n);
    LevelAfterCall(g, Pace(p.start, p.gap, n), last, p.again);
    AccruedIsRateTimesLength(g, last, p.again);
    if p.gap < idle {
      LessTimes(g.rate, p.gap, idle);
    }
  }

  // How often the bucket can be drained before and after the pause, and how long the pause is.
  lemma PaceCounts(s: Scope, ttl: real, gap: real) returns (n: nat, m: nat, idle: real)
    requires s.Live() && s.burst >= 2 && 0.0 < ttl && 0.0 <= gap
    requires 0.0 < Drop(s, gap) < 1.0 && 4.0 * Drop(s, gap) <= s.burst as real - s.rate * ttl
    ensures n > 0 && ttl < idle && gap <= idle
    ensures var drop := Drop(s, gap);
            var left := s.burst as real - (n - 1) as real * drop - 1.0;
            && 0.0 <= left && left + Accrued(s, idle) <= s.burst as real
            && left + Accrued(s, idle) - m as real * drop < 1.0 <= s.burst as real - m as real * drop
  {
    hide Drop;
    var drop := Drop(s, gap);
    n := CallsUntil(s.burst as real, drop);
    assert n > 0 by {
      assert 0 as real * drop == 0.0;
    }
    assert n as real * drop == (n - 1) as real * drop + drop;
    var left := s.burst as real - (n - 1) as real * drop - 1.0;
    idle := ShortPause(s, ttl, gap, left);
    m := CallsUntil(left + Accrued(s, idle), drop);
    if m > 0 {
      assert m as real * drop == (m - 1) as real * drop + drop;
    } else {
      assert m as real * drop == 0.0;
    }
  }

  lemma PacePlan(s: Scope, g: Scope, ttl: real, gap: real) returns (p: Plan, idle: real)
    requires s.Live() && s.burst >= 2 && 0.0 < ttl && 0.0 <= gap
    requires 0.0 < Drop(s, gap) < 1.0 && 4.0 * Drop(s, gap) <= s.burst as real - s.rate * ttl
    ensures p.gap == gap && p.n > 0 && ttl < idle && gap <= idle && 0.0 <= p.start
    ensures p.again == Moment(p.start, gap, p.n - 1) + idle
    ensures Drains(s, p) && (g.Enabled() ==> p.Filler() as real <= Accrued(g, p.start))
  {
    hide LevelAfter, Pace, Moment, Drop;
    var n, m, i := PaceCounts(s, ttl, gap);
    var start := LongWait(s, g, 255 * n + 255);
    idle, p := i, Plan(gap, n, m, start, Moment(start, gap, n - 1) + i);
    AfterPace(s, start, gap, n, idle);
  }

  lemma PaceShows(f: Facet, cfg: Config) returns (reqs: seq<Request>)
    requires KeyedBy(cfg, f) && !SafeHorizon(f.ScopeIn(cfg), cfg.idleTTL)
    requires cfg.global.Enabled() && f.ScopeIn(cfg).rate < cfg.global.rate && cfg.global.burst < f.ScopeIn(cfg).burst
    ensures Chronological(reqs) && Run(cfg, reqs, true).1 != Run(cfg, reqs, false).1
  {
    hide LevelAfter, Pace, Run, Bears, Moment, Drop, Drains;
    var s, g := f.ScopeIn(cfg), cfg.global;
    var gap := SlowDrain(g, s, (s.burst as real - s.rate * cfg.idleTTL) / 4.0);
    var p, idle := PacePlan(s, g, cfg.idleTTL, gap);
    PaceBears(g, p, idle);
    reqs := PlanShows(f, cfg, p);
  }

  // ---------------------------------------------------------------------------------------

  lemma SignOfProduct(x: real, y: real)
    requires x >= 0.0 && y >= 0.0
    ensures x * y >= 0.0
  {
  }

  lemma SignOfFactor(x: real, y: real)
    requires x * y > 0.0 && y > 0.0
    ensures x > 0.0
  {
  }

  lemma RoomUnlessHidden(g: Scope, s: Scope, ttl: real)
    requires s.Enabled() && 0.0 < ttl && !Hides(g, s, ttl) && (g.Enabled() && g.burst < s.burst ==> g.rate <= s.rate)
    ensures HasRoom(g, s, ttl)
  {
    var k := BeyondHorizon(s, ttl);
    if g.Enabled() {
      assert s.rate * ttl > 0.0;
      var kr, d := k as real, g.burst - s.burst;
      assert (s.burst - g.burst + k) as real * s.rate == kr * s.rate - d as real * s.rate;
      if g.rate <= s.rate {
        assert d as real * s.rate > kr * (s.rate - g.rate);
        assert kr * (s.rate - g.rate) == kr * s.rate - g.rate * kr;
        SignOfProduct(kr, s.rate - g.rate);
        SignOfFactor(d as real, s.rate);
      } else {
        assert d as real * s.rate >= 0.0;
        LessTimes(kr, s.rate, g.rate);
      }
    }
  }

  /** If the evictions of a keyed scope are not hidden, there is a run in which they show. */
  lemma UnhiddenEvictionShows(f: Facet, cfg: Config) returns (reqs: seq<Request>)
    requires Sound(cfg) && !Hidden(f.ScopeIn(cfg), cfg.global, cfg.idleTTL)
    ensures Chronological(reqs) && Run(cfg, reqs, true).1 != Run(cfg, reqs, false).1
  {
    var s, g := f.ScopeIn(cfg), cfg.global;
    if g.Enabled() && g.burst < s.burst && s.rate < g.rate {
      reqs := PaceShows(f, cfg);
    } else {
      RoomUnlessHidden(g, s, cfg.idleTTL);
      reqs := BurstShows(f, cfg);
    }
  }
}
