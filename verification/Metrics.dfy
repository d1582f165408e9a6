/**
 Any number of check requests handled at the same time.  Every request decides its response, then,
 if it is a postgres request that passed validation, emits its audit event, then bumps the counter
 that goes with the response, then replies; the steps of different requests interleave freely.
 */
module Metrics {
  import opened AgentServer
  import opened Sums
  import Traces

  datatype Kind = Tcp | Postgres(target: string, username: string)

  // How far a request has come; the response is what the caller sees once it is replied.
  datatype Phase =
    | Running
    | Decided(response: Response)
    | Audited(response: Response)
    | Bumped(response: Response)
    | Replied(response: Response)

  datatype Call = Call(kind: Kind, phase: Phase)

  // An audit event and the request that emitted it.
  datatype Event = Event(origin: nat, audit: Audit)

  datatype State = State(calls: seq<Call>, metrics: AgentServer.Metrics, log: seq<Event>)

  const ZERO := AgentServer.Metrics(0, 0, 0, 0, 0)

  function Start(kinds: seq<Kind>): State {
    State(seq(|kinds|, i requires 0 <= i < |kinds| => Call(kinds[i], Running)), ZERO, [])
  }

  datatype Step = Decide(i: nat, response: Response) | Emit(i: nat) | Bump(i: nat) | Reply(i: nat)

  // A validated postgres request owes an audit event.
  predicate Owes(kind: Kind, r: Response) {
    kind.Postgres? && !r.BadRequest?
  }

  // The audit event of a request, as the handler writes it.
  function AuditOf(kind: Kind, r: Response): Audit
    requires Owes(kind, r)
  {
    Audit(kind.target, kind.username, VerdictFor(r))
  }

  predicate Enabled(s: State, step: Step) {
    step.i < |s.calls| &&
    var Call(kind, phase) := s.calls[step.i];
    match step
    case Decide(_, _) => phase.Running?
    case Emit(_) => phase.Decided? && Owes(kind, phase.response)
    case Bump(_) => phase.Audited? || (phase.Decided? && !Owes(kind, phase.response))
    case Reply(_) => phase.Bumped?
  }

  function Apply(s: State, step: Step): State
    requires Enabled(s, step)
  {
    var i := step.i;
    var Call(kind, phase) := s.calls[i];
    match step
    case Decide(_, r) => s.(calls := s.calls[i := Call(kind, Decided(r))])
    case Emit(_) =>
      s.(calls := s.calls[i := Call(kind, Audited(phase.response))],
         log := s.log + [Event(i, AuditOf(kind, phase.response))])
    case Bump(_) =>
      s.(calls := s.calls[i := Call(kind, Bumped(phase.response))],
         metrics := Counted(s.metrics, CounterFor(phase.response)))
    case Reply(_) => s.(calls := s.calls[i := Call(kind, Replied(phase.response))])
  }

  function EnabledStep(): (State, Step) -> bool {
    (s: State, step: Step) => Enabled(s, step)
  }

  function ApplyStep(): (State, Step) --> State {
    (s: State, step: Step) requires Enabled(s, step) => Apply(s, step)
  }

  ghost predicate Runs(s: State, steps: seq<Step>) {
    Traces.Runs(EnabledStep(), ApplyStep(), s, steps)
  }

  ghost function After(s: State, steps: seq<Step>): State
    requires Runs(s, steps)
  {
    Traces.After(EnabledStep(), ApplyStep(), s, steps)
  }

  // ---------------------------------------------------------------------------------------
  // The invariant

  predicate HasBumped(call: Call) {
    call.phase.Bumped? || call.phase.Replied?
  }

  predicate HasSpoken(call: Call) {
    call.phase.Audited? || (HasBumped(call) && Owes(call.kind, call.phase.response))
  }

  // A request that has bumped counter c; any counter; a request that has emitted its event.
  function Has(c: Counter): Call -> nat {
    (call: Call) => if HasBumped(call) && CounterFor(call.phase.response) == c then 1 else 0
  }

  function HasAny(): Call -> nat {
    (call: Call) => if HasBumped(call) then 1 else 0
  }

  function Spoke(): Call -> nat {
    (call: Call) => if HasSpoken(call) then 1 else 0
  }

  function By(i: nat): Event -> nat {
    (e: Event) => if e.origin == i then 1 else 0
  }

  // An event in the log is its request's own.
  predicate Genuine(s: State, e: Event) {
    e.origin < |s.calls| &&
    var Call(kind, phase) := s.calls[e.origin];
    && (phase.Audited? || phase.Bumped? || phase.Replied?)
    && Owes(kind, phase.response) && e.audit == AuditOf(kind, phase.response)
  }

  ghost predicate Inv(s: State) {
    && (forall c: Counter :: s.metrics.Value(c) == Sum(s.calls, Has(c)))
    && (forall i: nat :: Sum(s.log, By(i)) == if i < |s.calls| then Spoke()(s.calls[i]) else 0)
    && |s.log| == Sum(s.calls, Spoke())
    && (forall e :: e in s.log ==> Genuine(s, e))
    && (forall i :: 0 <= i < |s.calls| && s.calls[i].phase.Audited? ==>
          Owes(s.calls[i].kind, s.calls[i].phase.response))
  }

  lemma StartInv(kinds: seq<Kind>)
    ensures Inv(Start(kinds))
  {
    var calls := Start(kinds).calls;
    forall c: Counter
      ensures Sum(calls, Has(c)) == 0
    {
      SumIsZero(calls, Has(c));
    }
    SumIsZero(calls, Spoke());
  }

  lemma CountersStep(s: State, step: Step, c: Counter)
    requires Enabled(s, step) && s.metrics.Value(c) == Sum(s.calls, Has(c))
    ensures Apply(s, step).metrics.Value(c) == Sum(Apply(s, step).calls, Has(c))
  {
    hide Sum;
    SumUpdated(s.calls, step.i, Apply(s, step).calls[step.i], Has(c));
  }

  lemma LogStep(s: State, step: Step)
    requires Inv(s) && Enabled(s, step)
    ensures var s' := Apply(s, step);
            && (forall k: nat :: Sum(s'.log, By(k)) == if k < |s'.calls| then Spoke()(s'.calls[k]) else 0)
            && |s'.log| == Sum(s'.calls, Spoke())
  {
    hide Sum, Genuine, AuditOf, CounterFor, Counted;
    var s' := Apply(s, step);
    SumUpdated(s.calls, step.i, s'.calls[step.i], Spoke());
    forall k: nat
      ensures Sum(s'.log, By(k)) == if k < |s'.calls| then Spoke()(s'.calls[k]) else 0
    {
      if step.Emit? {
        SumAppended(s.log, s'.log[|s.log|], By(k));
      }
    }
  }

  lemma GenuineStep(s: State, step: Step)
    requires Enabled(s, step) && forall e :: e in s.log ==> Genuine(s, e)
    ensures forall e :: e in Apply(s, step).log ==> Genuine(Apply(s, step), e)
  {
    hide AuditOf, CounterFor, Counted;
    var s' := Apply(s, step);
    forall e | e in s'.log
      ensures Genuine(s', e)
    {
      if e in s.log {
        assert Genuine(s, e);
      }
    }
  }

  lemma StepInv(s: State, step: Step)
    requires Inv(s) && Enabled(s, step)
    ensures Inv(Apply(s, step)) && |Apply(s, step).calls| == |s.calls|
    ensures forall i :: 0 <= i < |s.calls| ==> Apply(s, step).calls[i].kind == s.calls[i].kind
  {
    hide Sum, Genuine, AuditOf, CounterFor, Counted;
    forall c: Counter
      ensures Apply(s, step).metrics.Value(c) == Sum(Apply(s, step).calls, Has(c))
    {
      CountersStep(s, step, c);
    }
    LogStep(s, step);
    GenuineStep(s, step);
  }

  // The invariant, for requests of the given kinds.
  ghost predicate InvFor(kinds: seq<Kind>, s: State) {
    Inv(s) && |s.calls| == |kinds| && forall i :: 0 <= i < |kinds| ==> s.calls[i].kind == kinds[i]
  }

  lemma InvKept(kinds: seq<Kind>)
    ensures Traces.Kept(EnabledStep(), ApplyStep(), (s: State) => InvFor(kinds, s))
  {
    forall s: State, step: Step | InvFor(kinds, s) && Enabled(s, step)
      ensures InvFor(kinds, Apply(s, step))
    {
      StepInv(s, step);
    }
    hide Inv, InvFor, Enabled, Apply;
  }

  // A state some interleaving of these requests reaches.
  ghost predicate Reachable(kinds: seq<Kind>, s: State) {
    exists steps :: Runs(Start(kinds), steps) && After(Start(kinds), steps) == s
  }

  lemma ReachableInv(kinds: seq<Kind>, s: State)
    requires Reachable(kinds, s)
    ensures InvFor(kinds, s)
  {
    var steps :| Runs(Start(kinds), steps) && After(Start(kinds), steps) == s;
    StartInv(kinds);
    InvKept(kinds);
    Traces.RunKeeps(EnabledStep(), ApplyStep(), (s: State) => InvFor(kinds, s), Start(kinds), steps);
  }

  // ---------------------------------------------------------------------------------------
  // Conservation

  function Total(m: AgentServer.Metrics): nat {
    m.ok + m.fail + m.denied + m.badReq + m.throttled
  }

  lemma {:induction false} CountersPartition(calls: seq<Call>)
    ensures Sum(calls, Has(Ok)) + Sum(calls, Has(Fail)) + Sum(calls, Has(DeniedTargets))
            + Sum(calls, Has(BadRequests)) + Sum(calls, Has(Throttled)) == Sum(calls, HasAny())
  {
    if calls != [] {
      CountersPartition(calls[..|calls| - 1]);
    }
  }

  /**
   In every interleaving, at every moment: the counters add up to the requests that have counted
   themselves, no request is in the audit log twice, and every event is one its request owes, with
   the verdict of that request's response.
   */
  lemma NothingCountsTwice(kinds: seq<Kind>, s: State)
    requires Reachable(kinds, s)
    ensures Total(s.metrics) == Sum(s.calls, HasAny()) <= |kinds|
    ensures forall i: nat :: Sum(s.log, By(i)) <= 1
    ensures forall e :: e in s.log ==> Genuine(s, e)
  {
    ReachableInv(kinds, s);
    CountersPartition(s.calls);
    var one := (c: Call) => 1;
    SumAtMost(s.calls, HasAny(), one);
    SumIsLength(s.calls, one);
    hide Sum, Genuine;
    var m := s.metrics;
    assert m.ok == m.Value(Ok) && m.fail == m.Value(Fail) && m.denied == m.Value(DeniedTargets)
        && m.badReq == m.Value(BadRequests) && m.throttled == m.Value(Throttled);
  }

  // ---------------------------------------------------------------------------------------
  // When all is done: the counters against the statuses replied

  // Every request has been replied to.
  predicate Quiet(s: State) {
    forall i :: 0 <= i < |s.calls| ==> s.calls[i].phase.Replied?
  }

  // The requests that were answered with a given status.
  function Answered(status: Response -> bool): Call -> nat {
    (call: Call) => if call.phase.Replied? && status(call.phase.response) then 1 else 0
  }

  function OwedEvent(): Call -> nat {
    (call: Call) => if call.phase.Replied? && Owes(call.kind, call.phase.response) then 1 else 0
  }

  lemma SameSum<T>(xs: seq<T>, f: T -> nat, g: T -> nat)
    requires forall x :: x in xs ==> f(x) == g(x)
    ensures Sum(xs, f) == Sum(xs, g)
  {
    SumAtMost(xs, f, g);
    SumAtMost(xs, g, f);
  }

  // A counter that goes with exactly one status holds the number of requests answered with it.
  lemma CounterIsStatus(s: State, c: Counter, status: Response -> bool)
    requires Inv(s) && Quiet(s) && forall r: Response :: CounterFor(r) == c <==> status(r)
    ensures s.metrics.Value(c) == Sum(s.calls, Answered(status))
  {
    hide Sum, CounterFor;
    SameSum(s.calls, Has(c), Answered(status));
  }

  /**
   Once every request is replied to, whatever the interleaving: the five counters add up to the
   number of requests, and each is the number of requests answered 400, 429, 403, 200 with success
   and 200 without.
   */
  lemma MetricsAreConserved(kinds: seq<Kind>, s: State)
    requires Reachable(kinds, s) && Quiet(s)
    ensures |s.calls| == |kinds| && Total(s.metrics) == |kinds|
    ensures s.metrics.badReq == Sum(s.calls, Answered((r: Response) => r.BadRequest?))
    ensures s.metrics.throttled == Sum(s.calls, Answered((r: Response) => r.TooMany?))
    ensures s.metrics.denied == Sum(s.calls, Answered((r: Response) => r.Forbidden?))
    ensures s.metrics.ok == Sum(s.calls, Answered((r: Response) => r.Served? && r.success))
    ensures s.metrics.fail == Sum(s.calls, Answered((r: Response) => r.Served? && !r.success))
  {
    ReachableInv(kinds, s);
    NothingCountsTwice(kinds, s);
    hide Sum, Inv;
    assert forall call :: call in s.calls ==> call.phase.Replied?;
    SumIsLength(s.calls, HasAny());
    CounterIsStatus(s, BadRequests, (r: Response) => r.BadRequest?);
    CounterIsStatus(s, Throttled, (r: Response) => r.TooMany?);
    CounterIsStatus(s, DeniedTargets, (r: Response) => r.Forbidden?);
    CounterIsStatus(s, Ok, (r: Response) => r.Served? && r.success);
    CounterIsStatus(s, Fail, (r: Response) => r.Served? && !r.success);
  }

  /**
   And the audit log holds exactly one event for every postgres request that was not answered 400,
   with its target, its username and the verdict of its response, and nothing else.
   */
  lemma AuditIsComplete(kinds: seq<Kind>, s: State)
    requires Reachable(kinds, s) && Quiet(s)
    ensures |s.log| == Sum(s.calls, OwedEvent())
    ensures forall i: nat :: i < |s.calls| ==>
              var Call(kind, phase) := s.calls[i];
              Sum(s.log, By(i)) == if kind.Postgres? && !phase.response.BadRequest? then 1 else 0
    ensures forall i: nat :: i < |s.calls| ==>
              var Call(kind, phase) := s.calls[i];
              kind.Postgres? && !phase.response.BadRequest? ==>
                Event(i, Audit(kind.target, kind.username, VerdictFor(phase.response))) in s.log
  {
    ReachableInv(kinds, s);
    hide Sum;
    SameSum(s.calls, Spoke(), OwedEvent());
    forall i: nat | i < |s.calls| && Owes(s.calls[i].kind, s.calls[i].phase.response)
      ensures Event(i, AuditOf(s.calls[i].kind, s.calls[i].phase.response)) in s.log
    {
      SumIsZero(s.log, By(i));
      var e :| e in s.log && e.origin == i;
      assert Genuine(s, e);
    }
  }
}
