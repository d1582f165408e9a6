/**
 Querying every selected agent: the spawn loop under a semaphore, one goroutine and one result
 slot per agent, and the wait for all of them, as a transition system over every interleaving.
 */
module Fanout {
  import opened Options
  import opened Sums
  import Traces

  datatype Agent = Agent(addr: string)

  // One agent's answer; `tcp` is the reachability verdict if the agent gave one.
  datatype AgentResult = AgentResult(agent: string, node: string, tcp: Option<bool>, error: string)

  // The text of an error or of a status, which is never empty.
  type Message = s: string | s != "" witness "?"

  // How the exchange with an agent can go.
  datatype Reply =
    | NoReply(error: Message)                    // request or transport failure
    | Refused(error: Message)                    // a status other than 200
    | Garbled(error: Message)                    // a body that does not decode
    | Answered(node: string, tcp: Option<bool>)

  function CheckOne(a: Agent, r: Reply): AgentResult {
    match r
    case NoReply(e) => AgentResult(a.addr, "", None, e)
    case Refused(e) => AgentResult(a.addr, "", None, "agent returned status " + e)
    case Garbled(e) => AgentResult(a.addr, "", None, "decode response: " + e)
    case Answered(node, tcp) => AgentResult(a.addr, node, tcp, "")
  }

  // A goroutine writes its slot, then frees its semaphore slot, then reports done.
  datatype Phase = NotStarted | Running | Written | Released | Finished

  // The spawn loop: about to register the next agent, registered and about to take a semaphore
  // slot, or past the wait.
  datatype Main = Looping | Registered | Joined

  // `cap` of zero means no semaphore.
  datatype Fan = Fan(agents: seq<Agent>, cap: nat)

  // `writes` counts the writes to each slot.
  datatype State = State(
    next: nat,
    main: Main,
    sem: nat,
    wg: nat,
    phases: seq<Phase>,
    results: seq<Option<AgentResult>>,
    writes: seq<nat>
  )

  // Without a positive limit below the number of agents there is no semaphore.
  function FanFor(agents: seq<Agent>, maxConcurrent: int): Fan {
    Fan(agents, if 0 < maxConcurrent < |agents| then maxConcurrent else 0)
  }

  function Start(f: Fan): State {
    var n := |f.agents|;
    State(0, Looping, 0, 0, seq(n, i => NotStarted), seq(n, i => None), seq(n, i => 0))
  }

  datatype Step =
    | Register                    // wg.Add(1)
    | Spawn                       // take a semaphore slot, if there is a semaphore, and start
    | Write(i: nat, reply: Reply)
    | Release(i: nat)
    | Done(i: nat)
    | Join

  predicate Enabled(f: Fan, s: State, step: Step) {
    match step
    case Register => s.main.Looping? && s.next < |f.agents|
    case Spawn => s.main.Registered? && s.next < |s.phases| && (f.cap > 0 ==> s.sem < f.cap)
    case Write(i, _) => i < |s.phases| && i < |f.agents| && i < |s.results| && i < |s.writes| && s.phases[i].Running?
    case Release(i) => i < |s.phases| && s.phases[i].Written? && (f.cap > 0 ==> s.sem > 0)
    case Done(i) => i < |s.phases| && s.phases[i].Released? && s.wg > 0
    case Join => s.main.Looping? && s.next == |f.agents| && s.wg == 0
  }

  function Apply(f: Fan, s: State, step: Step): State
    requires Enabled(f, s, step)
  {
    match step
    case Register => s.(main := Registered, wg := s.wg + 1)
    case Spawn =>
      s.(main := Looping, next := s.next + 1, phases := s.phases[s.next := Running],
         sem := if f.cap > 0 then s.sem + 1 else s.sem)
    case Write(i, reply) =>
      s.(phases := s.phases[i := Written], results := s.results[i := Some(CheckOne(f.agents[i], reply))],
         writes := s.writes[i := s.writes[i] + 1])
    case Release(i) => s.(phases := s.phases[i := Released], sem := if f.cap > 0 then s.sem - 1 else s.sem)
    case Done(i) => s.(phases := s.phases[i := Finished], wg := s.wg - 1)
    case Join => s.(main := Joined)
  }

  function EnabledIn(f: Fan): (State, Step) -> bool {
    (s: State, step: Step) => Enabled(f, s, step)
  }

  function ApplyIn(f: Fan): (State, Step) --> State {
    (s: State, step: Step) requires Enabled(f, s, step) => Apply(f, s, step)
  }

  ghost predicate Runs(f: Fan, s: State, steps: seq<Step>) {
    Traces.Runs(EnabledIn(f), ApplyIn(f), s, steps)
  }

  ghost function After(f: Fan, s: State, steps: seq<Step>): State
    requires Runs(f, s, steps)
  {
    Traces.After(EnabledIn(f), ApplyIn(f), s, steps)
  }

  // ---------------------------------------------------------------------------------------
  // The invariant

  // Requests in flight, semaphore slots taken, goroutines not done yet.
  function InFlight(): Phase -> nat {
    (p: Phase) => if p.Running? then 1 else 0
  }

  function Slots(): Phase -> nat {
    (p: Phase) => if p.Running? || p.Written? then 1 else 0
  }

  function Unfinished(): Phase -> nat {
    (p: Phase) => if p.NotStarted? || p.Finished? then 0 else 1
  }

  // What the slot of an agent holds, given how far its goroutine is.
  predicate SlotFits(f: Fan, s: State, i: nat)
    requires i < |f.agents| == |s.phases| == |s.results| == |s.writes|
  {
    && (s.phases[i].NotStarted? <==> i >= s.next)
    && s.writes[i] == (if s.phases[i].NotStarted? || s.phases[i].Running? then 0 else 1)
    && (s.results[i].Some? <==> s.writes[i] == 1)
    && (s.results[i].Some? ==> s.results[i].value.agent == f.agents[i].addr)
  }

  ghost predicate Inv(f: Fan, s: State) {
    && |f.agents| == |s.phases| == |s.results| == |s.writes|
    && s.next <= |f.agents|
    && (s.main.Registered? ==> s.next < |f.agents|)
    && (s.main.Joined? ==> s.next == |f.agents| && s.wg == 0)
    && (forall i :: 0 <= i < |f.agents| ==> SlotFits(f, s, i))
    && (f.cap > 0 ==> s.sem == Sum(s.phases, Slots()) && s.sem <= f.cap)
    && s.wg == Sum(s.phases, Unfinished()) + (if s.main.Registered? then 1 else 0)
  }

  lemma StartInv(f: Fan)
    ensures Inv(f, Start(f))
  {
    SumIsZero(Start(f).phases, Slots());
    SumIsZero(Start(f).phases, Unfinished());
  }

  function Actor(s: State, step: Step): Option<nat> {
    match step
    case Spawn => Some(s.next)
    case Write(i, _) => Some(i)
    case Release(i) => Some(i)
    case Done(i) => Some(i)
    case _ => None
  }

  lemma PhasesMove(f: Fan, s: State, step: Step, g: Phase -> nat)
    requires Enabled(f, s, step)
    ensures var ps' := Apply(f, s, step).phases;
            match Actor(s, step)
            case None => ps' == s.phases
            case Some(i) => i < |s.phases| && |ps'| == |s.phases|
                            && Sum(ps', g) + g(s.phases[i]) == Sum(s.phases, g) + g(ps'[i])
  {
    if Actor(s, step).Some? {
      var i := Actor(s, step).value;
      SumUpdated(s.phases, i, Apply(f, s, step).phases[i], g);
    }
  }

  /** Every step of every interleaving keeps the invariant. */
  lemma StepInv(f: Fan, s: State, step: Step)
    requires Inv(f, s) && Enabled(f, s, step)
    ensures Inv(f, Apply(f, s, step))
  {
    hide Sum;
    var s' := Apply(f, s, step);
    PhasesMove(f, s, step, Slots());
    PhasesMove(f, s, step, Unfinished());
    assert step.Spawn? ==> SlotFits(f, s, s.next);
    forall i | 0 <= i < |f.agents|
      ensures SlotFits(f, s', i)
    {
      assert SlotFits(f, s, i);
    }
  }

  ghost function InvOf(f: Fan): State -> bool {
    (s: State) => Inv(f, s)
  }

  lemma InvKept(f: Fan)
    ensures Traces.Kept(EnabledIn(f), ApplyIn(f), InvOf(f))
  {
    forall s: State, step: Step | Inv(f, s) && Enabled(f, s, step)
      ensures Inv(f, Apply(f, s, step))
    {
      StepInv(f, s, step);
    }
    hide Inv, Enabled, Apply;
  }

  lemma RunInv(f: Fan, s: State, steps: seq<Step>)
    requires Inv(f, s) && Runs(f, s, steps)
    ensures Inv(f, After(f, s, steps))
  {
    InvKept(f);
    Traces.RunKeeps(EnabledIn(f), ApplyIn(f), InvOf(f), s, steps);
  }

  // ---------------------------------------------------------------------------------------
  // Bounds, progress, termination

  /** With a limit in force, never more requests in flight than the limit allows. */
  lemma InFlightBounded(agents: seq<Agent>, maxConcurrent: int, s: State)
    requires Inv(FanFor(agents, maxConcurrent), s)
    ensures 0 < maxConcurrent < |agents| ==> Sum(s.phases, InFlight()) <= s.sem <= maxConcurrent
  {
    SumAtMost(s.phases, InFlight(), Slots());
  }

  /**
   Without a positive limit below the number of agents the spawn loop never waits; with one, it waits
   exactly while as many semaphore slots as the limit are taken.
   */
  lemma SpawnWaitsOnlyAtTheLimit(agents: seq<Agent>, maxConcurrent: int, s: State)
    requires Inv(FanFor(agents, maxConcurrent), s) && s.main.Registered?
    ensures maxConcurrent <= 0 || |agents| <= maxConcurrent ==> Enabled(FanFor(agents, maxConcurrent), s, Spawn)
    ensures 0 < maxConcurrent < |agents| ==>
              (Enabled(FanFor(agents, maxConcurrent), s, Spawn) <==> Sum(s.phases, Slots()) < maxConcurrent)
  {
  }

  lemma SomeoneHas(ps: seq<Phase>, g: Phase -> nat) returns (i: nat)
    requires Sum(ps, g) > 0
    ensures i < |ps| && g(ps[i]) > 0
  {
    SumIsZero(ps, g);
    var p :| p in ps && g(p) != 0;
    i :| 0 <= i < |ps| && ps[i] == p;
  }

  // A goroutine that has started and not finished can take its next step.
  lemma CanMove(f: Fan, s: State, i: nat) returns (step: Step)
    requires Inv(f, s) && i < |s.phases| && Unfinished()(s.phases[i]) > 0
    ensures Enabled(f, s, step)
  {
    SumUpdated(s.phases, i, s.phases[i], Slots());
    SumUpdated(s.phases, i, s.phases[i], Unfinished());
    step := match s.phases[i]
            case Running => Write(i, NoReply("timeout"))
            case Written => Release(i)
            case _ => Done(i);
  }

  /** Neither the spawn loop nor the wait ever blocks for good. */
  lemma NeverStuck(f: Fan, s: State) returns (step: Step)
    requires Inv(f, s) && !s.main.Joined?
    ensures Enabled(f, s, step)
  {
    if s.main.Looping? && s.next < |f.agents| {
      step := Register;
    } else if s.main.Registered? && (f.cap > 0 ==> s.sem < f.cap) {
      step := Spawn;
    } else if s.main.Registered? {
      var i := SomeoneHas(s.phases, Slots());
      step := CanMove(f, s, i);
    } else if s.wg == 0 {
      step := Join;
    } else {
      var i := SomeoneHas(s.phases, Unfinished());
      step := CanMove(f, s, i);
    }
  }

  function WorkLeft(): Phase -> nat {
    (p: Phase) =>
      match p
      case NotStarted => 5
      case Running => 3
      case Written => 2
      case Released => 1
      case Finished => 0
  }

  function Measure(s: State): nat {
    Sum(s.phases, WorkLeft()) + match s.main case Looping => 2 case Registered => 1 case Joined => 0
  }

  lemma StepDescends(f: Fan, s: State, step: Step)
    requires Inv(f, s) && Enabled(f, s, step)
    ensures Measure(Apply(f, s, step)) < Measure(s)
  {
    hide Sum;
    PhasesMove(f, s, step, WorkLeft());
    assert step.Spawn? ==> SlotFits(f, s, s.next);
  }

  /** Every run is finite, and one that cannot go on has passed the wait. */
  lemma EveryRunEnds(f: Fan, s: State, steps: seq<Step>)
    requires Inv(f, s) && Runs(f, s, steps)
    ensures |steps| + Measure(After(f, s, steps)) <= Measure(s)
    ensures (forall step :: !Enabled(f, After(f, s, steps), step)) <==> After(f, s, steps).main.Joined?
  {
    InvKept(f);
    MeasureDescends(f);
    Traces.RunDescends(EnabledIn(f), ApplyIn(f), InvOf(f), MeasureOf(), s, steps);
    RunInv(f, s, steps);
    StuckIsJoined(f, After(f, s, steps));
  }

  function MeasureOf(): State -> nat {
    (s: State) => Measure(s)
  }

  lemma MeasureDescends(f: Fan)
    ensures Traces.Descends(EnabledIn(f), ApplyIn(f), InvOf(f), MeasureOf())
  {
    forall s: State, step: Step | Inv(f, s) && Enabled(f, s, step)
      ensures Measure(Apply(f, s, step)) < Measure(s)
    {
      StepDescends(f, s, step);
    }
    hide Inv, Enabled, Apply, Measure;
  }

  lemma StuckIsJoined(f: Fan, s: State)
    requires Inv(f, s)
    ensures (forall step :: !Enabled(f, s, step)) <==> s.main.Joined?
  {
    if s.main.Joined? {
      JoinedIsComplete(f, s);
    } else {
      var step := NeverStuck(f, s);
    }
  }

  /** From every state of every run the wait can still be passed. */
  lemma JoinIsReachable(f: Fan, s: State) returns (steps: seq<Step>)
    requires Inv(f, s)
    ensures Runs(f, s, steps) && After(f, s, steps).main.Joined?
  {
    var goal := (s: State) => s.main.Joined?;
    forall s: State | Inv(f, s) && !s.main.Joined?
      ensures exists step :: EnabledIn(f)(s, step)
    {
      var step := NeverStuck(f, s);
      assert EnabledIn(f)(s, step);
    }
    InvKept(f);
    MeasureDescends(f);
    assert Traces.Progresses(EnabledIn(f), InvOf(f), goal);
    steps := Traces.SomeRunReaches(EnabledIn(f), ApplyIn(f), InvOf(f), MeasureOf(), goal, s);
  }

  /** After the wait every slot was written exactly once and every semaphore slot is free again. */
  lemma JoinedIsComplete(f: Fan, s: State)
    requires Inv(f, s) && s.main.Joined?
    ensures forall i :: 0 <= i < |f.agents| ==>
      s.phases[i].Finished? && s.writes[i] == 1 && s.results[i].Some? && s.results[i].value.agent == f.agents[i].addr
    ensures f.cap > 0 ==> s.sem == 0
    ensures s.wg == 0
  {
    SumIsZero(s.phases, Unfinished());
    SumIsZero(s.phases, Slots());
    forall i | 0 <= i < |f.agents|
      ensures s.phases[i].Finished? && s.writes[i] == 1
      ensures s.results[i].Some? && s.results[i].value.agent == f.agents[i].addr
    {
      assert SlotFits(f, s, i);
      assert s.phases[i] in s.phases;
    }
  }
}
