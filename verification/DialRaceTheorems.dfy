/**
 The dial race's promises, for every interleaving: nothing leaks, nothing blocks, it ends, at
 most 16 dials are in flight, no address that the guard's hook refuses is connected to, and the
 caller gets exactly the first connection that arrived.
 */
module DialRaceTheorems {
  import opened Options
  import opened DialRace
  import opened DialRaceProofs
  import opened Sums
  import Traces

  // ---------------------------------------------------------------------------------------
  // Conservation

  /** A connection that opened is in exactly one place: with a worker, in the channel, kept, or closed. */
  lemma ConnectionInOnePlace(r: Race, s: State, c: Outcome)
    requires Inv(r, s) && c in s.connected
    ensures Sum(s.workers, Keeps(c)) + Sum(s.channel, Is(c)) + Won(s.col, c) + Sum(s.col.closed, Is(c)) == 1
  {
    ReceivedIsKeptOrClosed(s.received, c);
    SumIsZero(s.connected, Is(c));
    assert Place(s, c.host) <= 1;
    SumAtMost(s.workers, Keeps(c), On(c.host));
    SumAtMost(s.channel, Is(c), About(c.host));
    SumAtMost(s.received, Is(c), About(c.host));
  }

  // The addresses that a run hands to workers to dial, in the order in which it does.
  ghost function DialsStarted(r: Race, s: State, steps: seq<Step>): seq<nat>
    requires Runs(r, s, steps)
    decreases |steps|
  {
    if steps == [] then []
    else
      var s' := Apply(r, s, steps[0]);
      (match steps[0]
       case Feed(w) => [s'.workers[w].host]
       case _ => [])
      + DialsStarted(r, s', steps[1..])
  }

  function Numbers(lo: nat, hi: nat): (ns: seq<nat>)
    requires lo <= hi
    ensures |ns| == hi - lo
  {
    seq(hi - lo, i => lo + i)
  }

  lemma {:induction false} DialsStartedInOrder(r: Race, s: State, steps: seq<Step>)
    requires Runs(r, s, steps)
    ensures s.next <= After(r, s, steps).next
    ensures DialsStarted(r, s, steps) == Numbers(s.next, After(r, s, steps).next)
    decreases |steps|
  {
    if steps != [] {
      var s' := Apply(r, s, steps[0]);
      assert s'.next == s.next + if steps[0].Feed? then 1 else 0;
      DialsStartedInOrder(r, s', steps[1..]);
    }
  }

  function Same(h: nat): nat -> nat {
    (n: nat) => if n == h then 1 else 0
  }

  lemma {:induction false} NumberOccursOnce(lo: nat, hi: nat, h: nat)
    requires lo <= hi
    ensures Sum(Numbers(lo, hi), Same(h)) == if lo <= h < hi then 1 else 0
    decreases hi
  {
    if lo < hi {
      NumberOccursOnce(lo, hi - 1, h);
      assert Numbers(lo, hi) == Numbers(lo, hi - 1) + [hi - 1];
      SumAppended<nat>(Numbers(lo, hi - 1), hi - 1, Same(h));
    }
  }

  /**
   In every run the addresses are dialed in their order, each at most once, and once the function
   has returned, each exactly once.
   */
  lemma AddressDialedOnce(r: Race, steps: seq<Step>, h: nat)
    requires Runs(r, Start(r), steps)
    ensures var s, dials := After(r, Start(r), steps), DialsStarted(r, Start(r), steps);
            && dials == Numbers(0, s.next) && s.next <= r.Size()
            && Sum(dials, Same(h)) == (if h < s.next then 1 else 0)
            && (s.returned ==> Sum(dials, Same(h)) == if h < r.Size() then 1 else 0)
  {
    StartInv(r);
    RunInv(r, Start(r), steps);
    DialsStartedInOrder(r, Start(r), steps);
    NumberOccursOnce(0, After(r, Start(r), steps).next, h);
  }

  /** An address that was handed out is in one place: with a worker, or its outcome in the channel or received. */
  lemma AddressInOnePlace(r: Race, steps: seq<Step>, h: nat)
    requires Runs(r, Start(r), steps)
    ensures Place(After(r, Start(r), steps), h) == Sum(DialsStarted(r, Start(r), steps), Same(h))
  {
    StartInv(r);
    RunInv(r, Start(r), steps);
    AddressDialedOnce(r, steps, h);
  }

  // ---------------------------------------------------------------------------------------
  // Bounded concurrency

  /** Never more dials in flight than there are workers, hence never more than 16. */
  lemma DialsBounded(r: Race, s: State)
    requires Inv(r, s)
    ensures Sum(s.workers, InFlight()) <= |s.workers| <= MAX_CONCURRENT_DIALS
  {
    SumAtMost(s.workers, InFlight(), (w: Worker) => 1);
    SumIsLength(s.workers, (w: Worker) => 1);
  }

  lemma {:induction false} AllBusy(ws: seq<Worker>)
    requires forall w :: w in ws ==> w.Dialing? || w.Holding?
    ensures Sum(ws, Busy()) == |ws|
  {
    SumIsLength(ws, Busy());
  }

  /**
   With at most 16 distinct addresses, an address that has not been handed out always finds an
   idle worker, so none waits for another dial to finish.
   */
  lemma NoAddressWaits(r: Race, s: State) returns (w: nat)
    requires Inv(r, s) && r.Size() <= MAX_CONCURRENT_DIALS && s.next < r.Size()
    ensures Enabled(r, s, Feed(w))
  {
    w := 0;
    if forall i :: 0 <= i < |s.workers| ==> !s.workers[i].Idle? {
      AllBusy(s.workers);
      assert false;
    } else {
      w :| 0 <= w < |s.workers| && s.workers[w].Idle?;
    }
  }

  /** However many addresses there are, one that has not been handed out waits only while 16 workers are busy. */
  lemma WaitsOnlyBehindSixteen(r: Race, s: State) returns (w: nat)
    requires Inv(r, s) && s.next < r.Size()
    ensures Enabled(r, s, Feed(w)) || Sum(s.workers, Busy()) == 16
  {
    w := 0;
    if forall i :: 0 <= i < |s.workers| ==> !s.workers[i].Idle? {
      AllBusy(s.workers);
    } else {
      w :| 0 <= w < |s.workers| && s.workers[w].Idle?;
    }
  }

  // ---------------------------------------------------------------------------------------
  // Progress and termination

  /** A worker that holds an outcome can always send it: the buffer has room. */
  lemma SendNeverBlocks(r: Race, s: State, w: nat)
    requires Inv(r, s) && w < |s.workers| && s.workers[w].Holding?
    ensures Enabled(r, s, Send(w))
  {
    SumUpdated(s.workers, w, Idle, Busy());
  }

  lemma BusyCanMove(r: Race, s: State, w: nat) returns (step: Step)
    requires Inv(r, s) && w < |s.workers| && (s.workers[w].Dialing? || s.workers[w].Holding?)
    ensures Enabled(r, s, step)
  {
    if s.workers[w].Dialing? {
      step := GiveUp(w, "");
    } else {
      SendNeverBlocks(r, s, w);
      step := Send(w);
    }
  }

  lemma NobodyBusy(ws: seq<Worker>)
    requires forall w :: 0 <= w < |ws| ==> ws[w].Idle? || ws[w].Exited?
    ensures Sum(ws, Busy()) == 0
  {
    SumIsZero(ws, Busy());
  }

  /** Until everything is over, some step is enabled: the race never deadlocks. */
  lemma NeverStuck(r: Race, s: State) returns (step: Step)
    requires Inv(r, s) && !Final(r, s)
    ensures Enabled(r, s, step)
  {
    if w :| 0 <= w < |s.workers| && (s.workers[w].Dialing? || s.workers[w].Holding?) {
      step := BusyCanMove(r, s, w);
    } else if s.channel != [] {
      step := Receive;
    } else {
      NobodyBusy(s.workers);
      assert |s.received| == s.next;
      if s.next < r.Size() {
        assert !s.fed && s.workers[0].Idle?;
        step := Feed(0);
      } else if !s.fed {
        step := CloseFeed;
      } else if w :| 0 <= w < |s.workers| && s.workers[w].Idle? {
        step := Exit(w);
      } else {
        step := Return;
      }
    }
  }

  // Work left: what remains to be done for each address, worker and for the function itself.
  function UnfedWork(r: Race, next: nat): nat
    decreases r.Size() - next
  {
    if next >= r.Size() then 0 else |r.candidates[next]| + 4 + UnfedWork(r, next + 1)
  }

  function Untried(n: nat, tried: set<nat>): nat {
    if n == 0 then 0 else Untried(n - 1, tried) + (if n - 1 in tried then 0 else 1)
  }

  // A worker that has not exited still has to; one that is busy has its address to finish.
  function WorkLeft(r: Race): Worker -> nat {
    (w: Worker) =>
      match w
      case Idle => 1
      case Exited => 0
      case Dialing(h, tried) => 4 + (if h < r.Size() then Untried(|r.candidates[h]|, tried) else 0)
      case Holding(_) => 3
  }

  function Measure(r: Race, s: State): nat {
    UnfedWork(r, s.next) + Sum(s.workers, WorkLeft(r)) + |s.channel|
    + (if s.fed then 0 else 1) + (if s.returned then 0 else 1)
  }

  lemma {:induction false} UntriedAtFirst(n: nat)
    ensures Untried(n, {}) == n
  {
    if n > 0 {
      UntriedAtFirst(n - 1);
    }
  }

  lemma {:induction false} UntriedShrinks(n: nat, tried: set<nat>, c: nat)
    requires c !in tried
    ensures Untried(n, tried + {c}) == Untried(n, tried) - (if c < n then 1 else 0)
  {
    if n > 0 {
      UntriedShrinks(n - 1, tried, c);
    }
  }

  /** Every step brings the end closer. */
  lemma StepDescends(r: Race, s: State, step: Step)
    requires Inv(r, s) && Enabled(r, s, step)
    ensures Measure(r, Apply(r, s, step)) < Measure(r, s)
  {
    hide Sum, Untried, Absorb, Collected, AddressesPlaced, ConnectionsPlaced, GuardKept;
    WorkersMove(r, s, step, WorkLeft(r));
    match step
    case Feed(w) => UntriedAtFirst(|r.candidates[s.next]|);
    case Attempt(w, c, _) => UntriedShrinks(|r.candidates[s.workers[w].host]|, s.workers[w].tried, c);
    case _ =>
  }

  /**
   No run is longer than the measure of its start, and one that cannot go on has ended: the
   function has returned, the address channel is closed, and feeder and workers are gone.
   */
  lemma EveryRunEnds(r: Race, s: State, steps: seq<Step>)
    requires Inv(r, s) && Runs(r, s, steps)
    ensures |steps| + Measure(r, After(r, s, steps)) <= Measure(r, s)
    ensures (forall step :: !Enabled(r, After(r, s, steps), step)) <==> Final(r, After(r, s, steps))
  {
    InvKept(r);
    MeasureDescends(r);
    Traces.RunDescends(EnabledIn(r), ApplyIn(r), InvOf(r), MeasureOf(r), s, steps);
    RunInv(r, s, steps);
    StuckIsFinal(r, After(r, s, steps));
  }

  function MeasureOf(r: Race): State -> nat {
    (s: State) => Measure(r, s)
  }

  lemma MeasureDescends(r: Race)
    ensures Traces.Descends(EnabledIn(r), ApplyIn(r), InvOf(r), MeasureOf(r))
  {
    forall s: State, step: Step | Inv(r, s) && Enabled(r, s, step)
      ensures Measure(r, Apply(r, s, step)) < Measure(r, s)
    {
      StepDescends(r, s, step);
    }
    hide Inv, Enabled, Apply, Measure;
  }

  lemma StuckIsFinal(r: Race, s: State)
    requires Inv(r, s)
    ensures (forall step :: !Enabled(r, s, step)) <==> Final(r, s)
  {
    if !Final(r, s) {
      var step := NeverStuck(r, s);
    }
  }

  /** From every state of every run the function can still come to return. */
  lemma ReturnIsReachable(r: Race, s: State) returns (steps: seq<Step>)
    requires Inv(r, s)
    ensures Runs(r, s, steps) && After(r, s, steps).returned
  {
    var goal := (s: State) => s.returned;
    forall s: State | Inv(r, s) && !s.returned
      ensures exists step :: EnabledIn(r)(s, step)
    {
      var step := NeverStuck(r, s);
      assert EnabledIn(r)(s, step);
    }
    InvKept(r);
    MeasureDescends(r);
    assert Traces.Progresses(EnabledIn(r), InvOf(r), goal);
    steps := Traces.SomeRunReaches(EnabledIn(r), ApplyIn(r), InvOf(r), MeasureOf(r), goal, s);
  }

  // ---------------------------------------------------------------------------------------
  // What the caller gets

  /** Once the collector has every outcome no dial is left, so the guard's flag is settled. */
  lemma ReturnedIsSettled(r: Race, s: State, step: Step)
    requires Inv(r, s) && s.returned && Enabled(r, s, step)
    ensures var s' := Apply(r, s, step);
            s'.returned && s'.col == s.col && s'.hit == s.hit && s'.refused == s.refused && s'.connected == s.connected
  {
    if Actor(step).Some? {
      SumUpdated(s.workers, Actor(step).value, Idle, Busy());
    }
  }

  /**
   When the function returns: it has one outcome for each address; it reports success exactly if
   some dial opened a connection; then it hands out the one that arrived first, open, and every
   other connection ever opened is closed; otherwise it reports the last error.
   */
  lemma ReturnedResult(r: Race, s: State)
    requires Inv(r, s) && s.returned
    ensures forall h: nat :: Sum(s.received, About(h)) == if h < r.Size() then 1 else 0
    ensures s.col.ok <==> s.connected != []
    ensures s.col.ok <==> s.col.winner.Some?
    ensures s.col.ok ==> exists i :: FirstOpened(s.received, i) && s.received[i] == s.col.winner.value
    ensures forall c :: c in s.connected ==>
      (s.col.winner == Some(c) && c !in s.col.closed) || (s.col.winner != Some(c) && Sum(s.col.closed, Is(c)) == 1)
    ensures !s.col.ok && r.Size() > 0 ==> s.col.lastErr.Some?
  {
    CollectorKeepsFirst(s.received);
    assert Sum(s.workers, Busy()) == 0 && s.channel == [];
    SumIsZero(s.workers, Busy());
    forall h: nat
      ensures Sum(s.received, About(h)) == if h < r.Size() then 1 else 0
    {
      SumIsZero(s.workers, On(h));
      assert Place(s, h) == if h < s.next then 1 else 0;
    }
    forall c | c in s.connected
      ensures Won(s.col, c) + Sum(s.col.closed, Is(c)) == 1
      ensures c !in s.col.closed <==> Sum(s.col.closed, Is(c)) == 0
    {
      ConnectionInOnePlace(r, s, c);
      SumIsZero(s.workers, Keeps(c));
      SumIsZero(s.col.closed, Is(c));
    }
    if s.connected != [] {
      SettledConnectionCounts(s, s.connected[0]);
    }
    if s.col.winner.Some? {
      WinnerWasConnected(r, s);
    }
  }

  lemma SettledConnectionCounts(s: State, c: Outcome)
    requires Won(s.col, c) + Sum(s.col.closed, Is(c)) == 1 && s.col == Collected(s.received) && c.Opened?
    ensures s.col.ok
  {
    CollectorKeepsFirst(s.received);
    SumIsZero(s.col.closed, Is(c));
  }

  lemma WinnerWasConnected(r: Race, s: State)
    requires Inv(r, s) && s.col.winner.Some?
    ensures s.col.winner.value in s.connected
  {
    CollectorKeepsFirst(s.received);
    var c := s.col.winner.value;
    ReceivedIsKeptOrClosed(s.received, c);
    SumIsZero(s.connected, Is(c));
  }

  /**
   No interleaving opens a connection to a guarded address that the hook can read, and the result
   is a denial exactly if the hook refused some address and no connection opened.
   */
  lemma GuardHolds(r: Race, s: State)
    requires Inv(r, s)
    ensures forall c :: c in s.connected ==>
      c.Opened? && c.host < r.Size() && c.addr in r.candidates[c.host] && !r.Refuses(c.addr)
    ensures s.returned ==> ((s.hit && !s.col.ok) <==> (s.refused != [] && s.connected == []))
  {
    if s.returned {
      ReturnedResult(r, s);
    }
  }

  // ---------------------------------------------------------------------------------------
  // When the guard covers everything it is meant to cover

  // Hands out the first h addresses to one worker and lets each dial fail.
  function FailedSoFar(r: Race, h: nat): State {
    Start(r).(next := h, channel := seq(h, i requires 0 <= i < h => Failed(i, "")))
  }

  lemma {:induction false} FirstFail(r: Race, h: nat) returns (steps: seq<Step>)
    requires h < r.Size()
    ensures Runs(r, Start(r), steps) && After(r, Start(r), steps) == FailedSoFar(r, h)
  {
    if h == 0 {
      steps := [];
      assert FailedSoFar(r, 0) == Start(r);
    } else {
      var s := FailedSoFar(r, h - 1);
      var fed := Apply(r, s, Feed(0));
      var failed := Apply(r, fed, GiveUp(0, ""));
      var sent := Apply(r, failed, Send(0));
      assert sent == FailedSoFar(r, h);
      var before := FirstFail(r, h - 1);
      steps := AndThen(r, before, Feed(0));
      steps := AndThen(r, steps, GiveUp(0, ""));
      steps := AndThen(r, steps, Send(0));
    }
  }

  lemma AndThen(r: Race, before: seq<Step>, step: Step) returns (steps: seq<Step>)
    requires Runs(r, Start(r), before) && Enabled(r, After(r, Start(r), before), step)
    ensures Runs(r, Start(r), steps)
    ensures After(r, Start(r), steps) == Apply(r, After(r, Start(r), before), step)
  {
    steps := before + [step];
    Traces.RunAppended(EnabledIn(r), ApplyIn(r), Start(r), before, step);
  }

  // Any address that the hook does not refuse can be connected to.
  lemma LetThroughIsReachable(r: Race, h: nat, c: nat) returns (steps: seq<Step>)
    requires h < r.Size() && c < |r.candidates[h]| && !r.Refuses(r.candidates[h][c])
    ensures Runs(r, Start(r), steps)
    ensures Opened(h, r.candidates[h][c]) in After(r, Start(r), steps).connected
  {
    steps := FirstFail(r, h);
    steps := AndThen(r, steps, Feed(0));
    steps := AndThen(r, steps, Attempt(0, c, true));
  }

  ghost predicate NothingGuardedOpens(r: Race) {
    forall steps: seq<Step> :: Runs(r, Start(r), steps) ==>
      forall o :: o in After(r, Start(r), steps).connected ==> o.Opened? && !r.guarded(o.addr.ip)
  }

  // The hook can read every guarded address a dial may try.
  predicate GuardCanRead(r: Race) {
    forall h, c :: 0 <= h < r.Size() && 0 <= c < |r.candidates[h]| && r.guarded(r.candidates[h][c].ip) ==>
      Legible(r.candidates[h][c])
  }

  /**
   No interleaving opens a connection to a guarded address exactly if the hook can read every
   guarded address that a dial may try.
   */
  lemma GuardIsTightIff(r: Race)
    ensures NothingGuardedOpens(r) <==> GuardCanRead(r)
  {
    if GuardCanRead(r) {
      forall steps: seq<Step> | Runs(r, Start(r), steps)
        ensures forall o :: o in After(r, Start(r), steps).connected ==> o.Opened? && !r.guarded(o.addr.ip)
      {
        StartInv(r);
        RunInv(r, Start(r), steps);
        GuardHolds(r, After(r, Start(r), steps));
      }
    } else {
      var h, c :| 0 <= h < r.Size() && 0 <= c < |r.candidates[h]|
                  && r.guarded(r.candidates[h][c].ip) && !Legible(r.candidates[h][c]);
      var steps := LetThroughIsReachable(r, h, c);
      var o := Opened(h, r.candidates[h][c]);
      assert o in After(r, Start(r), steps).connected && r.guarded(o.addr.ip);
    }
  }

  // ---------------------------------------------------------------------------------------
  // Any address that is let through can be the one the caller gets

  // Outcomes are received in the order in which they were sent.
  lemma {:induction false} ReceivedInOrder(r: Race, s: State, steps: seq<Step>)
    requires Runs(r, s, steps)
    ensures s.received + s.channel <= After(r, s, steps).received + After(r, s, steps).channel
    decreases |steps|
  {
    if steps != [] {
      var s' := Apply(r, s, steps[0]);
      assert s.received + s.channel <= s'.received + s'.channel;
      ReceivedInOrder(r, s', steps[1..]);
    }
  }

  lemma NothingLeftToReceive(r: Race, s: State)
    requires Inv(r, s) && s.returned
    ensures s.channel == []
  {
  }

  lemma FirstOpenedIsUnique(os: seq<Outcome>, i: int, j: int)
    requires FirstOpened(os, i) && FirstOpened(os, j)
    ensures i == j
  {
  }

  // The first h addresses fail and the next one connects; then anything may happen until the return.
  lemma CanWin(r: Race, h: nat, c: nat) returns (steps: seq<Step>)
    requires h < r.Size() && c < |r.candidates[h]| && !r.Refuses(r.candidates[h][c])
    ensures Runs(r, Start(r), steps) && After(r, Start(r), steps).returned
    ensures After(r, Start(r), steps).col.winner == Some(Opened(h, r.candidates[h][c]))
  {
    steps := FirstFail(r, h);
    steps := AndThen(r, steps, Feed(0));
    steps := AndThen(r, steps, Attempt(0, c, true));
    steps := AndThen(r, steps, Send(0));
    var sent := After(r, Start(r), steps);
    var won := Opened(h, r.candidates[h][c]);
    assert sent.received == [] && sent.channel == FailedSoFar(r, h).channel + [won];
    StartInv(r);
    RunInv(r, Start(r), steps);
    var more := ReturnIsReachable(r, sent);
    Traces.RunsJoined(EnabledIn(r), ApplyIn(r), Start(r), steps, more);
    steps := steps + more;
    WinsIfSentFirst(r, sent, more, h, won);
  }

  lemma WinsIfSentFirst(r: Race, sent: State, more: seq<Step>, h: nat, won: Outcome)
    requires Inv(r, sent) && Runs(r, sent, more) && After(r, sent, more).returned
    requires sent.received == [] && h < |sent.channel| && sent.channel[h] == won && won.Opened?
    requires forall i :: 0 <= i < h ==> sent.channel[i].Failed?
    ensures After(r, sent, more).col.winner == Some(won)
  {
    var s := After(r, sent, more);
    RunInv(r, sent, more);
    ReceivedInOrder(r, sent, more);
    NothingLeftToReceive(r, s);
    assert sent.received + sent.channel == sent.channel && s.received + s.channel == s.received;
    assert forall i :: 0 <= i < |sent.channel| ==> s.received[i] == sent.channel[i];
    assert FirstOpened(s.received, h);
    CollectorKeepsFirst(s.received);
    var i :| FirstOpened(s.received, i) && s.received[i] == s.col.winner.value;
    FirstOpenedIsUnique(s.received, h, i);
  }

  // ---------------------------------------------------------------------------------------
  // Where the reported error comes from

  // The failures that the dials of a run gave up with, in order.
  ghost function GivenUp(r: Race, s: State, steps: seq<Step>): seq<Outcome>
    requires Runs(r, s, steps)
    decreases |steps|
  {
    if steps == [] then []
    else
      (match steps[0]
       case GiveUp(w, fault) => [Failed(s.workers[w].host, fault)]
       case _ => [])
      + GivenUp(r, Apply(r, s, steps[0]), steps[1..])
  }

  ghost predicate Around(s: State, o: Outcome) {
    o in s.received || o in s.channel || Holding(o) in s.workers
  }

  lemma AroundBefore(r: Race, s: State, step: Step, o: Outcome)
    requires Enabled(r, s, step) && o.Failed? && Around(Apply(r, s, step), o)
    ensures Around(s, o) || (step.GiveUp? && o == Failed(s.workers[step.w].host, step.fault))
  {
  }

  /** Every failure that reaches the collector is one that some dial of the run gave up with. */
  lemma {:induction false} FailuresWereGivenUp(r: Race, s: State, steps: seq<Step>, o: Outcome)
    requires Runs(r, s, steps) && o.Failed? && Around(After(r, s, steps), o)
    ensures Around(s, o) || o in GivenUp(r, s, steps)
    decreases |steps|
  {
    if steps != [] {
      FailuresWereGivenUp(r, Apply(r, s, steps[0]), steps[1..], o);
      if Around(Apply(r, s, steps[0]), o) {
        AroundBefore(r, s, steps[0], o);
      }
    }
  }
}
