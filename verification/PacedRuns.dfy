/**
 The runs that tell an evicting limiter from one that never evicts, for every limiter in which
 evictions are not hidden: the key is drained, left idle, and drained again.
 */
module PacedRuns {
  import opened TokenBucket
  import opened LimiterModel
  import opened Ledger
  import opened LimiterRuns
  import opened Paces
  import opened Hiding
  import opened Showing

  lemma {:induction false} ClockOfPace(ts: seq<real>, start: real, gap: real, n: nat)
    requires Clock(ts) && Latest(ts) <= start && 0.0 <= gap
    ensures Clock(ts + Pace(start, gap, n)) && Latest(ts + Pace(start, gap, n)) <= Moment(start, gap, n)
    ensures n > 0 ==> Latest(ts + Pace(start, gap, n)) == Moment(start, gap, n - 1)
  {
    hide Pace;
    if n == 0 {
      assert ts + Pace(start, gap, 0) == ts;
    } else {
      ClockOfPace(ts, start, gap, n - 1);
      PaceGrows(start, gap, n - 1);
      var earlier := ts + Pace(start, gap, n - 1);
      assert ts + Pace(start, gap, n) == earlier + [Moment(start, gap, n - 1)];
      assert (earlier + [Moment(start, gap, n - 1)])[..|earlier|] == earlier;
    }
  }

  lemma PacePrefix(start: real, gap: real, n: nat, i: nat)
    requires i < n
    ensures Pace(start, gap, n)[..i] == Pace(start, gap, i) && Pace(start, gap, n)[i] == Moment(start, gap, i)
  {
  }

  // The i-th of some calls finds the same level whether or not earlier calls precede them, if the
  // first one finds the bucket full.
  lemma FreshAt(s: Scope, past: seq<real>, times: seq<real>, i: nat)
    requires i < |times| && LevelAfter(s, past, times[0]) == s.burst as real
    ensures LevelAfter(s, past + times[..i], times[i]) == LevelAfter(s, times[..i], times[i])
  {
    hide LevelAfter;
    if i == 0 {
      assert past + times[..0] == past && times[..0] == [];
      NoCallsFull(s, times[0]);
    } else {
      FreshStart(s, past, times[..i], times[i]);
    }
  }

  // ---------------------------------------------------------------------------------------
  // Draining, waiting, draining

  // n calls from `start`, and m + 1 calls from `again`.
  datatype Plan = Plan(gap: real, n: nat, m: nat, start: real, again: real) {
    function First(): seq<real> {
      Pace(start, gap, n)
    }

    function Second(): seq<real> {
      Pace(again, gap, m + 1)
    }

    // Calls at time zero, so many that the first of the later calls sweeps.
    function Filler(): nat {
      255 * n + 255
    }

    predicate Orderly(ttl: real) {
      0.0 <= gap && n > 0 && 0.0 <= start && Moment(start, gap, n - 1) + ttl < again && 0.0 < ttl
    }
  }

  // What the calls do to the key's bucket: the first calls are all granted; the second ones too,
  // from a full bucket; but without the tokens that eviction gives, the last one is not.
  ghost predicate Drains(s: Scope, p: Plan) {
    var drop := Drop(s, p.gap);
    && 0.0 < drop && p.n > 0 && p.Filler() as real <= Accrued(s, p.start)
    && 1.0 <= s.burst as real - (p.n - 1) as real * drop
    && 1.0 <= s.burst as real - p.m as real * drop
    && LevelAfter(s, p.First(), p.again) - p.m as real * drop < 1.0
  }

  // The global bucket grants all calls.
  ghost predicate Bears(g: Scope, p: Plan) {
    g.Enabled() ==>
      && p.Filler() as real <= Accrued(g, p.start)
      && (forall i :: 0 <= i < p.n ==> 1.0 <= LevelAfter(g, p.First()[..i], p.First()[i]))
      && (forall i :: 0 <= i <= p.m ==> 1.0 <= LevelAfter(g, p.First() + p.Second()[..i], p.Second()[i]))
  }

  lemma EvenDrop(drop: real, i: nat, n: nat)
    requires 0.0 <= drop && i <= n
    ensures i as real * drop <= n as real * drop
  {
    assert (n - i) as real * drop >= 0.0;
    assert n as real * drop == i as real * drop + (n - i) as real * drop;
  }

  // The level at which regular calls from a full bucket find it.
  lemma DrainedAt(s: Scope, start: real, gap: real, n: nat, i: nat)
    requires i < n && 0.0 < Drop(s, gap)
    requires 1.0 <= s.burst as real - (n - 1) as real * Drop(s, gap)
    ensures 1.0 <= LevelAfter(s, Pace(start, gap, n)[..i], Pace(start, gap, n)[i])
  {
    hide LevelAfter, Pace, Drop;
    PacePrefix(start, gap, n, i);
    PacedLevel(s, [], start, gap, i);
    assert [] + Pace(start, gap, i) == Pace(start, gap, i);
    NoCallsFull(s, start);
    EvenDrop(Drop(s, gap), i, n - 1);
  }

  lemma FirstGranted(f: Facet, cfg: Config, p: Plan, zeros: seq<real>, past: seq<real>)
    requires KeyedBy(cfg, f) && Drains(f.ScopeIn(cfg), p) && Bears(cfg.global, p)
    requires Granted(f, cfg, zeros, past)
    requires LevelAfter(f.ScopeIn(cfg), past, p.start) == f.ScopeIn(cfg).burst as real
    requires cfg.global.Enabled() ==> LevelAfter(cfg.global, past, p.start) == cfg.global.burst as real
    ensures Granted(f, cfg, zeros + p.First(), past + p.First())
  {
    hide LevelAfter, Granted, Pace, Drop;
    var first := p.First();
    FirstMoment(p.start, p.gap, p.n);
    forall i | 0 <= i < |first|
      ensures Room(f, cfg, past + first[..i], first[i])
    {
      FreshAt(f.ScopeIn(cfg), past, first, i);
      DrainedAt(f.ScopeIn(cfg), p.start, p.gap, p.n, i);
      if cfg.global.Enabled() {
        FreshAt(cfg.global, past, first, i);
      }
    }
    AllGranted(f, cfg, zeros, past, first);
  }

  lemma FirstMoment(start: real, gap: real, n: nat)
    requires n > 0
    ensures Pace(start, gap, n)[0] == start
  {
  }

  lemma SecondFindsRoom(f: Facet, cfg: Config, p: Plan, past: seq<real>)
    requires KeyedBy(cfg, f) && Drains(f.ScopeIn(cfg), p) && Bears(cfg.global, p)
    requires cfg.global.Enabled() ==> LevelAfter(cfg.global, past, p.start) == cfg.global.burst as real
    ensures forall i :: 0 <= i <= p.m ==> LateRoom(f, cfg, past + p.First(), p.Second()[..i], p.Second()[i])
  {
    hide LevelAfter, Pace, Drop;
    var first, second := p.First(), p.Second();
    FirstMoment(p.start, p.gap, p.n);
    forall i | 0 <= i <= p.m
      ensures LateRoom(f, cfg, past + first, second[..i], second[i])
    {
      DrainedAt(f.ScopeIn(cfg), p.again, p.gap, p.m + 1, i);
      if cfg.global.Enabled() {
        FreshStart(cfg.global, past, first + second[..i], second[i]);
        assert past + (first + second[..i]) == past + first + second[..i];
      }
    }
  }

  lemma LastFindsNone(s: Scope, p: Plan, past: seq<real>)
    requires Drains(s, p) && LevelAfter(s, past, p.start) == s.burst as real
    ensures LevelAfter(s, past + p.First() + p.Second()[..p.m], p.Second()[p.m]) < 1.0
  {
    hide LevelAfter, Pace, Drop;
    var first, second := p.First(), p.Second();
    FirstMoment(p.start, p.gap, p.n);
    PacePrefix(p.again, p.gap, p.m + 1, p.m);
    FreshStart(s, past, first + second[..p.m], second[p.m]);
    assert past + (first + second[..p.m]) == past + first + second[..p.m];
    PacedLevel(s, first, p.again, p.gap, p.m);
  }

  // The whole run: filler at time zero, a long wait, the first calls, a pause, the second calls.
  lemma PlanShows(f: Facet, cfg: Config, p: Plan) returns (reqs: seq<Request>)
    requires KeyedBy(cfg, f) && p.Orderly(cfg.idleTTL) && Drains(f.ScopeIn(cfg), p) && Bears(cfg.global, p)
    ensures Chronological(reqs) && Run(cfg, reqs, true).1 != Run(cfg, reqs, false).1
  {
    hide LevelAfter, Pace, Run, CallsAt, Clock, LateRoom, Granted, Drains, Bears;
    var first, second := p.First(), p.Second();
    var zeros := Pace(0.0, 0.0, p.Filler());
    var ts := zeros + first;
    PlanOrdered(p, cfg.idleTTL);
    var past := SomeGranted(f, cfg, zeros);
    FullAtStart(f.ScopeIn(cfg), cfg.global, p, past);
    FirstGranted(f, cfg, p, zeros, past);
    SecondFindsRoom(f, cfg, p, past);
    LastFindsNone(f.ScopeIn(cfg), p, past);
    FirstMoment(p.again, p.gap, p.m + 1);
    assert |ts| + 1 == 256 * (p.n + 1);
    TheyDiffer(f, cfg, ts, past + first, second);
    reqs := CallsAt(f, ts + second);
  }

  lemma PlanOrdered(p: Plan, ttl: real)
    requires p.Orderly(ttl)
    ensures var zeros := Pace(0.0, 0.0, p.Filler());
            && Clock(zeros) && Latest(zeros) <= 0.0
            && Clock(zeros + p.First() + p.Second()) && Latest(zeros + p.First()) + ttl < p.again
  {
    hide Pace, Clock, Latest;
    var zeros := Pace(0.0, 0.0, p.Filler());
    NoClock();
    ClockOfPace([], 0.0, 0.0, p.Filler());
    assert [] + zeros == zeros;
    assert Moment(0.0, 0.0, p.Filler()) == 0.0;
    ClockOfPace(zeros, p.start, p.gap, p.n);
    ClockOfPace(zeros + p.First(), p.again, p.gap, p.m + 1);
  }

  lemma NoClock()
    ensures Clock([]) && Latest([]) == 0.0
  {
  }

  lemma FullAtStart(s: Scope, g: Scope, p: Plan, past: seq<real>)
    requires s.Enabled() && Drains(s, p) && Bears(g, p) && 0.0 <= p.start
    requires |past| <= p.Filler() && Ascending(past) && Before(past, 0.0)
    ensures LevelAfter(s, past, p.start) == s.burst as real
    ensures g.Enabled() ==> LevelAfter(g, past, p.start) == g.burst as real
  {
    FullAgain(s, past, p.start);
    if g.Enabled() {
      FullAgain(g, past, p.start);
    }
  }
}
