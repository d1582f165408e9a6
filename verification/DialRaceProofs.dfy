/**
 What every reachable state of the dial race keeps, how every run ends, and what the caller gets.
 */
module DialRaceProofs {
  import opened Options
  import opened DialRace
  import opened Sums
  import Traces

  // ---------------------------------------------------------------------------------------
  // Counting where things are

  // Is this the outcome of address h; is it connection c?
  function About(h: nat): Outcome -> nat {
    (o: Outcome) => if o.host == h then 1 else 0
  }

  function Is(c: Outcome): Outcome -> nat {
    (o: Outcome) => if o == c then 1 else 0
  }

  // Does this worker have address h; does it hold connection c; is it busy; is it dialing?
  function On(h: nat): Worker -> nat {
    (w: Worker) => match w
         case Dialing(host, _) => if host == h then 1 else 0
         case Holding(o) => if o.host == h then 1 else 0
         case _ => 0
  }

  function Keeps(c: Outcome): Worker -> nat {
    (w: Worker) => if w.Holding? && w.outcome == c then 1 else 0
  }

  function Busy(): Worker -> nat {
    (w: Worker) => if w.Dialing? || w.Holding? then 1 else 0
  }

  function InFlight(): Worker -> nat {
    (w: Worker) => if w.Dialing? then 1 else 0
  }

  // ---------------------------------------------------------------------------------------
  // The collector against the outcomes it received

  function Collected(os: seq<Outcome>): Collector {
    if os == [] then NEW_COLLECTOR else Absorb(Collected(os[..|os| - 1]), os[|os| - 1])
  }

  function Won(c: Collector, o: Outcome): nat {
    if c.winner == Some(o) then 1 else 0
  }

  // Every connection received is the winner or closed, never both.
  lemma {:induction false} ReceivedIsKeptOrClosed(os: seq<Outcome>, c: Outcome)
    requires c.Opened?
    ensures Sum(os, Is(c)) == Won(Collected(os), c) + Sum(Collected(os).closed, Is(c))
  {
    if os != [] {
      var n := |os| - 1;
      ReceivedIsKeptOrClosed(os[..n], c);
      assert Sum(os, Is(c)) == Sum(os[..n], Is(c)) + Is(c)(os[n]);
      hide Sum;
      SumAppended(Collected(os[..n]).closed, os[n], Is(c));
    }
  }

  ghost predicate FirstOpened(os: seq<Outcome>, i: int) {
    0 <= i < |os| && os[i].Opened? && forall j :: 0 <= j < i ==> os[j].Failed?
  }

  // The winner is the first connection to arrive; without one, the last error is reported.
  lemma {:induction false} CollectorKeepsFirst(os: seq<Outcome>)
    ensures var c := Collected(os);
            && c.ok == c.winner.Some? == c.cancelled
            && (c.winner.Some? ==> exists i :: FirstOpened(os, i) && os[i] == c.winner.value)
            && (c.winner.None? ==> forall i :: 0 <= i < |os| ==> os[i].Failed?)
            && (c.winner.None? && os != [] ==> c.lastErr == Some(os[|os| - 1].fault))
            && (forall o :: o in c.closed ==> o in os && o.Opened?)
  {
    if os != [] {
      var n := |os| - 1;
      CollectorKeepsFirst(os[..n]);
      var before := Collected(os[..n]);
      if before.winner.Some? {
        var i :| FirstOpened(os[..n], i) && os[..n][i] == before.winner.value;
        assert FirstOpened(os, i);
      } else if os[n].Opened? {
        assert forall j :: 0 <= j < n ==> os[j] == os[..n][j];
        assert FirstOpened(os, n);
      }
    }
  }

  // ---------------------------------------------------------------------------------------
  // The invariant

  // Where each address is: waiting, with one worker, in the channel, or received.
  ghost predicate AddressesPlaced(s: State) {
    && (forall h: nat :: Place(s, h) == if h < s.next then 1 else 0)
    && Sum(s.workers, Busy()) + |s.channel| + |s.received| == s.next
  }

  // Where each connection that ever opened is: held by a worker, in the channel, or received.
  ghost predicate ConnectionsPlaced(s: State) {
    forall c: Outcome :: c.Opened? ==>
      Sum(s.connected, Is(c)) == Sum(s.workers, Keeps(c)) + Sum(s.channel, Is(c)) + Sum(s.received, Is(c))
  }

  ghost predicate GuardKept(r: Race, s: State) {
    && (s.hit <==> s.refused != [])
    && (forall a :: a in s.refused ==> r.Refuses(a))
    && (forall o :: o in s.connected ==>
          o.Opened? && o.host < r.Size() && o.addr in r.candidates[o.host] && !r.Refuses(o.addr))
  }

  ghost predicate Shape(r: Race, s: State) {
    && |s.workers| == r.Workers()
    && s.next <= r.Size()
    && (s.fed ==> s.next == r.Size())
    && (s.returned ==> |s.received| == r.Size())
    && s.col == Collected(s.received)
    && (forall w :: 0 <= w < |s.workers| ==> WorkerFits(s, s.workers[w]))
  }

  predicate WorkerFits(s: State, w: Worker) {
    (w.Exited? ==> s.fed) && (w.Dialing? ==> w.host < s.next)
  }

  ghost predicate Inv(r: Race, s: State) {
    Shape(r, s) && AddressesPlaced(s) && ConnectionsPlaced(s) && GuardKept(r, s)
  }

  lemma StartInv(r: Race)
    ensures Inv(r, Start(r))
  {
    var s := Start(r);
    forall h: nat
      ensures Sum(s.workers, On(h)) == 0
    {
      SumIsZero(s.workers, On(h));
    }
    forall c: Outcome
      ensures Sum(s.workers, Keeps(c)) == 0
    {
      SumIsZero(s.workers, Keeps(c));
    }
    SumIsZero(s.workers, Busy());
  }

  function Place(s: State, h: nat): nat {
    Sum(s.workers, On(h)) + Sum(s.channel, About(h)) + Sum(s.received, About(h))
  }

  // The worker a step concerns, if it concerns one.
  function Actor(step: Step): Option<nat> {
    match step
    case Feed(w) => Some(w)
    case Exit(w) => Some(w)
    case Attempt(w, _, _) => Some(w)
    case GiveUp(w, _) => Some(w)
    case Send(w) => Some(w)
    case _ => None
  }

  // A step that concerns a worker changes that worker only.
  lemma ActorOnly(r: Race, s: State, step: Step)
    requires Enabled(r, s, step)
    ensures var ws' := Apply(r, s, step).workers;
            match Actor(step)
            case None => ws' == s.workers
            case Some(w) => w < |s.workers| && |ws'| == |s.workers| && ws' == s.workers[w := ws'[w]]
  {
  }

  lemma WorkersMove(r: Race, s: State, step: Step, f: Worker -> nat)
    requires Enabled(r, s, step)
    ensures var ws' := Apply(r, s, step).workers;
            match Actor(step)
            case None => ws' == s.workers
            case Some(w) => w < |s.workers| && |ws'| == |s.workers|
                            && Sum(ws', f) + f(s.workers[w]) == Sum(s.workers, f) + f(ws'[w])
  {
    ActorOnly(r, s, step);
    if Actor(step).Some? {
      var w := Actor(step).value;
      SumUpdated(s.workers, w, Apply(r, s, step).workers[w], f);
    }
  }

  lemma OutcomesMove(r: Race, s: State, step: Step, f: Outcome -> nat)
    requires Enabled(r, s, step)
    ensures var s' := Apply(r, s, step);
            match step
            case Send(w) => Sum(s'.channel, f) == Sum(s.channel, f) + f(s.workers[w].outcome)
                            && s'.received == s.received
            case Receive => Sum(s'.channel, f) + f(s.channel[0]) == Sum(s.channel, f)
                            && Sum(s'.received, f) == Sum(s.received, f) + f(s.channel[0])
            case _ => s'.channel == s.channel && s'.received == s.received
  {
    match step
    case Send(w) => SumAppended(s.channel, s.workers[w].outcome, f);
    case Receive =>
      SumOfTail(s.channel, f);
      SumAppended(s.received, s.channel[0], f);
    case _ =>
  }

  lemma AddressStep(r: Race, s: State, step: Step, h: nat)
    requires Enabled(r, s, step)
    ensures Place(Apply(r, s, step), h) == Place(s, h) + if step.Feed? && h == s.next then 1 else 0
  {
    hide Sum;
    WorkersMove(r, s, step, On(h));
    OutcomesMove(r, s, step, About(h));
  }

  lemma BusyStep(r: Race, s: State, step: Step)
    requires Enabled(r, s, step)
    requires Sum(s.workers, Busy()) + |s.channel| + |s.received| == s.next
    ensures var s' := Apply(r, s, step);
            Sum(s'.workers, Busy()) + |s'.channel| + |s'.received| == s'.next
  {
    hide Sum;
    WorkersMove(r, s, step, Busy());
  }

  lemma AddressesStep(r: Race, s: State, step: Step)
    requires AddressesPlaced(s) && Enabled(r, s, step)
    ensures AddressesPlaced(Apply(r, s, step))
  {
    BusyStep(r, s, step);
    forall h: nat
      ensures Place(Apply(r, s, step), h) == if h < Apply(r, s, step).next then 1 else 0
    {
      AddressStep(r, s, step, h);
      assert Place(s, h) == if h < s.next then 1 else 0;
    }
  }

  // Only a connect attempt that succeeds opens a connection.
  lemma ConnectedMove(r: Race, s: State, step: Step, f: Outcome -> nat)
    requires Enabled(r, s, step)
    ensures var s' := Apply(r, s, step);
            if step.Attempt? && s'.workers[step.w].Holding?
            then Sum(s'.connected, f) == Sum(s.connected, f) + f(s'.workers[step.w].outcome)
            else s'.connected == s.connected
  {
    var s' := Apply(r, s, step);
    if step.Attempt? && s'.workers[step.w].Holding? {
      SumAppended(s.connected, s'.workers[step.w].outcome, f);
    }
  }

  lemma ConnectionStep(r: Race, s: State, step: Step, c: Outcome)
    requires Enabled(r, s, step) && c.Opened?
    requires Sum(s.connected, Is(c)) == Sum(s.workers, Keeps(c)) + Sum(s.channel, Is(c)) + Sum(s.received, Is(c))
    ensures var s' := Apply(r, s, step);
            Sum(s'.connected, Is(c)) == Sum(s'.workers, Keeps(c)) + Sum(s'.channel, Is(c)) + Sum(s'.received, Is(c))
  {
    hide Sum;
    WorkersMove(r, s, step, Keeps(c));
    OutcomesMove(r, s, step, Is(c));
    ConnectedMove(r, s, step, Is(c));
  }

  lemma ConnectionsStep(r: Race, s: State, step: Step)
    requires ConnectionsPlaced(s) && Enabled(r, s, step)
    ensures ConnectionsPlaced(Apply(r, s, step))
  {
    var s' := Apply(r, s, step);
    forall c: Outcome | c.Opened?
      ensures Sum(s'.connected, Is(c)) == Sum(s'.workers, Keeps(c)) + Sum(s'.channel, Is(c)) + Sum(s'.received, Is(c))
    {
      ConnectionStep(r, s, step, c);
    }
  }

  lemma GuardStep(r: Race, s: State, step: Step)
    requires GuardKept(r, s) && Enabled(r, s, step)
    ensures GuardKept(r, Apply(r, s, step))
  {
  }

  lemma ShapeStep(r: Race, s: State, step: Step)
    requires Shape(r, s) && Enabled(r, s, step)
    ensures Shape(r, Apply(r, s, step))
  {
    CollectorStep(r, s, step);
    ActorOnly(r, s, step);
    var s' := Apply(r, s, step);
    forall w | 0 <= w < |s'.workers|
      ensures WorkerFits(s', s'.workers[w])
    {
      assert WorkerFits(s, s.workers[w]);
    }
    hide Absorb, Collected, WorkerFits;
  }

  lemma CollectorStep(r: Race, s: State, step: Step)
    requires s.col == Collected(s.received) && Enabled(r, s, step)
    ensures var s' := Apply(r, s, step);
            s'.col == Collected(s'.received)
  {
    assert step.Receive? ==> (s.received + [s.channel[0]])[..|s.received|] == s.received;
  }

  /** Every step of every interleaving keeps the invariant. */
  lemma StepInv(r: Race, s: State, step: Step)
    requires Inv(r, s) && Enabled(r, s, step)
    ensures Inv(r, Apply(r, s, step))
  {
    AddressesStep(r, s, step);
    ConnectionsStep(r, s, step);
    GuardStep(r, s, step);
    ShapeStep(r, s, step);
    hide *;
  }

  ghost function InvOf(r: Race): State -> bool {
    (s: State) => Inv(r, s)
  }

  lemma InvKept(r: Race)
    ensures Traces.Kept(EnabledIn(r), ApplyIn(r), InvOf(r))
  {
    forall s: State, step: Step | Inv(r, s) && Enabled(r, s, step)
      ensures Inv(r, Apply(r, s, step))
    {
      StepInv(r, s, step);
    }
    hide Inv, Enabled, Apply;
  }

  lemma RunInv(r: Race, s: State, steps: seq<Step>)
    requires Inv(r, s) && Runs(r, s, steps)
    ensures Inv(r, After(r, s, steps))
  {
    InvKept(r);
    Traces.RunKeeps(EnabledIn(r), ApplyIn(r), InvOf(r), s, steps);
  }
}
