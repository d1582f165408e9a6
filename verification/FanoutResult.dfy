/**
 The aggregated answer: which agents are queried under a cap, the sorted results, the summary, and
 why none of it depends on the schedule or on the order in which agents were discovered.
 */
module FanoutResult {
  import opened Options
  import opened Fanout
  import opened Sorting
  import opened Sums

  // ---------------------------------------------------------------------------------------
  // Selecting agents

  function ByAddr(): Agent -> string {
    (a: Agent) => a.addr
  }

  function Capped(n: nat, max: int): bool {
    0 < max < n
  }

  function Selection(agents: seq<Agent>, max: int): seq<Agent> {
    if Capped(|agents|, max) then
      SortSorts(agents, ByAddr());
      SortKeepsLength(agents);
      Sort(agents, ByAddr())[..max]
    else agents
  }

  lemma SortKeepsLength(agents: seq<Agent>)
    ensures |Sort(agents, ByAddr())| == |agents|
  {
    SortSorts(agents, ByAddr());
    assert |multiset(Sort(agents, ByAddr()))| == |multiset(agents)|;
  }

  // Copies, sorts the copy, and cuts it; the discovered slice itself is left alone.
  method SelectAgents(agents: array<Agent>, max: int) returns (selected: seq<Agent>, dropped: nat)
    ensures agents[..] == old(agents[..])
    ensures selected == Selection(agents[..], max)
    ensures |selected| + dropped == agents.Length
    ensures max <= 0 || agents.Length <= max ==> selected == agents[..]
    ensures 0 < max < agents.Length ==> |selected| == max
    ensures dropped > 0 <==> Capped(agents.Length, max)
  {
    if max <= 0 || agents.Length <= max {
      return agents[..], 0;
    }
    var sorted := new Agent[agents.Length](i requires 0 <= i < agents.Length reads agents => agents[i]);
    assert sorted[..] == agents[..];
    SortSlice(sorted, ByAddr());
    SortSorts(agents[..], ByAddr());
    SortedIsUnique(sorted[..], Sort(agents[..], ByAddr()), ByAddr());
    selected, dropped := sorted[..max], agents.Length - max;
    assert sorted[..max] == sorted[..][..max];
  }

  /** Under a cap the selection does not depend on the order of discovery. */
  lemma SelectionIgnoresOrder(a: seq<Agent>, b: seq<Agent>, max: int)
    requires multiset(a) == multiset(b) && Capped(|a|, max)
    ensures Selection(a, max) == Selection(b, max)
  {
    assert |multiset(a)| == |multiset(b)|;
    SortSorts(a, ByAddr());
    SortSorts(b, ByAddr());
    SortedIsUnique(Sort(a, ByAddr()), Sort(b, ByAddr()), ByAddr());
  }

  /** Under a cap the selection is the `max` smallest addresses, counted with multiplicity, in order. */
  lemma SelectionIsSmallest(agents: seq<Agent>, max: int)
    requires Capped(|agents|, max)
    ensures var sel := Selection(agents, max);
            && |sel| == max && SortedBy(sel, ByAddr())
            && multiset(sel) <= multiset(agents)
            && (forall x: Agent, y: Agent :: x in sel && y in multiset(agents) - multiset(sel) ==>
                  DictionaryOrder(x.addr, y.addr))
            && (forall i, j :: 0 <= i <= j < max ==> DictionaryOrder(sel[i].addr, sel[j].addr))
  {
    var sorted := Sort(agents, ByAddr());
    SortSorts(agents, ByAddr());
    SortKeepsLength(agents);
    CutSeparates(sorted, max, ByAddr());
    assert multiset(agents) == multiset(sorted[..max]) + multiset(sorted[max..]) by {
      assert sorted == sorted[..max] + sorted[max..];
    }
    assert multiset(agents) - multiset(sorted[..max]) == multiset(sorted[max..]);
    forall x: Agent, y: Agent | x in sorted[..max] && y in sorted[max..]
      ensures LexLe(x.addr, y.addr) && DictionaryOrder(x.addr, y.addr)
    {
      assert LexLe(ByAddr()(x), ByAddr()(y));
      LexIsDictionary(x.addr, y.addr);
    }
    SortedInDictionaryOrder(sorted[..max], ByAddr());
  }

  // What sorting by a key means for the keys.
  lemma SortedInDictionaryOrder<T>(xs: seq<T>, key: T -> string)
    requires SortedBy(xs, key)
    ensures forall i, j :: 0 <= i <= j < |xs| ==> DictionaryOrder(key(xs[i]), key(xs[j]))
  {
    forall i, j | 0 <= i <= j < |xs|
      ensures DictionaryOrder(key(xs[i]), key(xs[j]))
    {
      LexIsDictionary(key(xs[i]), key(xs[j]));
    }
  }

  // ---------------------------------------------------------------------------------------
  // The results, sorted

  function ByAgent(): AgentResult -> string {
    (r: AgentResult) => r.agent
  }

  // Every slot has been written.
  predicate Full(f: Fan, s: State) {
    |s.results| == |f.agents| && forall i :: 0 <= i < |f.agents| ==> s.results[i].Some?
  }

  // What the slots hold after the wait.
  function Filled(f: Fan, s: State): seq<AgentResult>
    requires Full(f, s)
  {
    seq(|f.agents|, i requires 0 <= i < |f.agents| => s.results[i].value)
  }

  ghost predicate JoinedBy(f: Fan, steps: seq<Step>, s: State) {
    Runs(f, Start(f), steps) && After(f, Start(f), steps) == s && s.main.Joined?
  }

  lemma JoinedFills(f: Fan, steps: seq<Step>, s: State)
    requires JoinedBy(f, steps, s)
    ensures Full(f, s)
    ensures forall i :: 0 <= i < |f.agents| ==> s.results[i].value.agent == f.agents[i].addr
  {
    StartInv(f);
    RunInv(f, Start(f), steps);
    JoinedIsComplete(f, s);
  }

  // What the result of an exchange with an agent says.
  predicate Tells(a: Agent, r: Reply, result: AgentResult) {
    && result.agent == a.addr
    && (result.error == "" <==> r.Answered?)
    && (r.Answered? ==> result.node == r.node && result.tcp == r.tcp)
    && (!r.Answered? ==> result.node == "" && result.tcp == None && Suffix(r.error, result.error))
    && (r.NoReply? ==> result.error == r.error)
  }

  predicate Suffix(end: string, s: string) {
    |end| <= |s| && s[|s| - |end|..] == end
  }

  // What a slot holds at the end of a run was there before or was written in it.
  lemma {:induction false} SlotWasWritten(f: Fan, s: State, steps: seq<Step>, i: nat)
    requires Runs(f, s, steps) && i < |s.results|
    ensures |After(f, s, steps).results| == |s.results|
    ensures var slot := After(f, s, steps).results[i];
            slot == s.results[i] ||
            (i < |f.agents| && exists k :: 0 <= k < |steps| && steps[k].Write? && steps[k].i == i
                                           && slot == Some(CheckOne(f.agents[i], steps[k].reply)))
    decreases |steps|
  {
    if steps != [] {
      var s' := Apply(f, s, steps[0]);
      SlotWasWritten(f, s', steps[1..], i);
      assert forall k :: 0 <= k < |steps| - 1 ==> steps[1..][k] == steps[k + 1];
      assert s'.results[i] != s.results[i] ==> steps[0].Write? && steps[0].i == i;
    }
  }

  /**
   In every run that passed the wait, an agent's slot tells what came of the exchange with that agent:
   an error exactly if it did not answer, and otherwise the node and verdict of its answer.
   */
  lemma SlotsTellReplies(f: Fan, steps: seq<Step>, s: State, i: nat) returns (k: nat)
    requires JoinedBy(f, steps, s) && i < |f.agents|
    ensures Full(f, s)
    ensures k < |steps| && steps[k].Write? && steps[k].i == i
    ensures Tells(f.agents[i], steps[k].reply, s.results[i].value)
  {
    JoinedFills(f, steps, s);
    SlotWasWritten(f, Start(f), steps, i);
    k :| 0 <= k < |steps| && steps[k].Write? && steps[k].i == i
         && s.results[i] == Some(CheckOne(f.agents[i], steps[k].reply));
  }

  // The list the caller gets: the filled slots in some order that is sorted by agent.
  ghost predicate IsResponse(f: Fan, s: State, out: seq<AgentResult>)
    requires Full(f, s)
  {
    SortedBy(out, ByAgent()) && multiset(out) == multiset(Filled(f, s))
  }

  /** The response lists the agents in dictionary order of their addresses. */
  lemma ResponseInOrder(f: Fan, s: State, out: seq<AgentResult>)
    requires Full(f, s) && IsResponse(f, s, out)
    ensures forall i, j :: 0 <= i <= j < |out| ==> DictionaryOrder(out[i].agent, out[j].agent)
  {
    SortedInDictionaryOrder(out, ByAgent());
  }

  // Every reply written in the run is what `ask` says of the agent's address.
  ghost predicate Truthful(f: Fan, ask: string -> Reply, steps: seq<Step>) {
    forall k :: 0 <= k < |steps| && steps[k].Write? && steps[k].i < |f.agents| ==>
      steps[k].reply == ask(f.agents[steps[k].i].addr)
  }

  predicate Told(f: Fan, ask: string -> Reply, s: State) {
    |s.results| == |f.agents| &&
    forall i :: 0 <= i < |f.agents| && s.results[i].Some? ==>
      s.results[i].value == CheckOne(f.agents[i], ask(f.agents[i].addr))
  }

  lemma {:induction false} TruthfulRunTells(f: Fan, ask: string -> Reply, s: State, steps: seq<Step>)
    requires Runs(f, s, steps) && Truthful(f, ask, steps) && Told(f, ask, s)
    ensures Told(f, ask, After(f, s, steps))
    decreases |steps|
  {
    if steps != [] {
      assert steps[0].Write? ==> steps[0].reply == ask(f.agents[steps[0].i].addr);
      assert forall k :: 0 <= k < |steps| - 1 ==> steps[1..][k] == steps[k + 1];
      TruthfulRunTells(f, ask, Apply(f, s, steps[0]), steps[1..]);
    }
  }

  function Answers(agents: seq<Agent>, ask: string -> Reply): seq<AgentResult> {
    seq(|agents|, i requires 0 <= i < |agents| => CheckOne(agents[i], ask(agents[i].addr)))
  }

  lemma TruthfulJoinIsAnswers(f: Fan, ask: string -> Reply, steps: seq<Step>, s: State)
    requires JoinedBy(f, steps, s) && Truthful(f, ask, steps)
    ensures Full(f, s) && Filled(f, s) == Answers(f.agents, ask)
  {
    JoinedFills(f, steps, s);
    TruthfulRunTells(f, ask, Start(f), steps);
  }

  lemma NamesItsAgent(a: Agent, r: Reply)
    ensures CheckOne(a, r).agent == a.addr
  {
  }

  lemma AnswersKeyed(agents: seq<Agent>, ask: string -> Reply)
    ensures KeyDetermines(Answers(agents, ask), ByAgent())
  {
    var rs := Answers(agents, ask);
    forall x, y | x in rs && y in rs && x.agent == y.agent
      ensures x == y
    {
      var i :| 0 <= i < |agents| && rs[i] == x;
      var j :| 0 <= j < |agents| && rs[j] == y;
      NamesItsAgent(agents[i], ask(agents[i].addr));
      NamesItsAgent(agents[j], ask(agents[j].addr));
    }
  }

  /**
   If an agent's answer depends only on its address, the response is the same for every schedule
   and for every limit on concurrency.
   */
  lemma ResponseIgnoresSchedule(f: Fan, g: Fan, ask: string -> Reply,
                                steps1: seq<Step>, s1: State, out1: seq<AgentResult>,
                                steps2: seq<Step>, s2: State, out2: seq<AgentResult>)
    requires f.agents == g.agents
    requires JoinedBy(f, steps1, s1) && Truthful(f, ask, steps1)
    requires JoinedBy(g, steps2, s2) && Truthful(g, ask, steps2)
    requires Full(f, s1) && IsResponse(f, s1, out1)
    requires Full(g, s2) && IsResponse(g, s2, out2)
    ensures out1 == out2
  {
    TruthfulJoinIsAnswers(f, ask, steps1, s1);
    TruthfulJoinIsAnswers(g, ask, steps2, s2);
    var answers := Answers(f.agents, ask);
    AnswersKeyed(f.agents, ask);
    forall x | x in out1
      ensures x in answers
    {
      assert x in multiset(answers);
    }
    SortedIsUnique(out1, out2, ByAgent());
  }

  // ---------------------------------------------------------------------------------------
  // The summary

  datatype Summary = Summary(ok: nat, total: nat)

  function Reached(): AgentResult -> nat {
    (r: AgentResult) => if r.error == "" && r.tcp == Some(true) then 1 else 0
  }

  method Summarize(results: seq<AgentResult>) returns (s: Summary)
    ensures s == Summary(Sum(results, Reached()), |results|)
  {
    s := Summary(0, |results|);
    for i := 0 to |results|
      invariant s == Summary(Sum(results[..i], Reached()), |results|)
    {
      assert results[..i + 1][..i] == results[..i];
      if results[i].error == "" && results[i].tcp == Some(true) {
        s := s.(ok := s.ok + 1);
      }
    }
    assert results[..|results|] == results;
  }

  /** A result counts exactly if the agent answered and reported an open connection. */
  lemma ReachedMeansAnsweredOpen(a: Agent, r: Reply)
    ensures Reached()(CheckOne(a, r)) == 1 <==> r.Answered? && r.tcp == Some(true)
  {
  }

  lemma {:induction false} SumRemoved<T>(xs: seq<T>, i: nat, g: T -> nat)
    requires i < |xs|
    ensures Sum(xs, g) == Sum(xs[..i] + xs[i + 1..], g) + g(xs[i])
  {
    var n := |xs| - 1;
    if i == n {
      assert xs[..i] + xs[i + 1..] == xs[..n];
    } else {
      SumRemoved(xs[..n], i, g);
      var without := xs[..i] + xs[i + 1..];
      assert without[..n - 1] == xs[..n][..i] + xs[..n][i + 1..];
    }
  }

  lemma {:induction false} SumIgnoresOrder<T>(xs: seq<T>, ys: seq<T>, g: T -> nat)
    requires multiset(xs) == multiset(ys)
    ensures Sum(xs, g) == Sum(ys, g) && |xs| == |ys|
  {
    assert |multiset(xs)| == |multiset(ys)|;
    if xs != [] {
      var n := |xs| - 1;
      var i := TakeMatch(xs, ys);
      var rest := ys[..i] + ys[i + 1..];
      SumRemoved(ys, i, g);
      SumIgnoresOrder(xs[..n], rest, g);
    }
  }

  // The results before sorting carry the selected agents' addresses, slot by slot.
  function Addresses(rs: seq<AgentResult>): seq<string> {
    seq(|rs|, i requires 0 <= i < |rs| => rs[i].agent)
  }

  lemma {:induction false} AddressesOfSameBag(xs: seq<AgentResult>, ys: seq<AgentResult>)
    requires multiset(xs) == multiset(ys)
    ensures multiset(Addresses(xs)) == multiset(Addresses(ys))
  {
    assert |multiset(xs)| == |multiset(ys)|;
    if xs != [] {
      var n := |xs| - 1;
      var i := TakeMatch(xs, ys);
      var rest := ys[..i] + ys[i + 1..];
      AddressesOfSameBag(xs[..n], rest);
      AddressRemoved(ys, i);
      assert Addresses(xs) == Addresses(xs[..n]) + [xs[n].agent];
    }
  }

  lemma AddressRemoved(ys: seq<AgentResult>, i: nat)
    requires i < |ys|
    ensures multiset(Addresses(ys)) == multiset(Addresses(ys[..i] + ys[i + 1..])) + multiset{ys[i].agent}
  {
    assert Addresses(ys) == Addresses(ys[..i]) + [ys[i].agent] + Addresses(ys[i + 1..]);
    assert Addresses(ys[..i] + ys[i + 1..]) == Addresses(ys[..i]) + Addresses(ys[i + 1..]);
  }

  // The addresses of agents, in order.
  function Addrs(agents: seq<Agent>): seq<string> {
    seq(|agents|, i requires 0 <= i < |agents| => agents[i].addr)
  }

  lemma SlotsCarryAddresses(f: Fan, steps: seq<Step>, s: State)
    requires JoinedBy(f, steps, s)
    ensures Full(f, s) && Addresses(Filled(f, s)) == Addrs(f.agents)
  {
    JoinedFills(f, steps, s);
  }

  lemma SelectionLength(agents: seq<Agent>, max: int)
    ensures |Selection(agents, max)| == if Capped(|agents|, max) then max else |agents|
  {
    SortKeepsLength(agents);
  }

  /**
   For any schedule and any answers: the response carries exactly the queried agents' addresses,
   and the summary counts every queried agent and, as successes, the slots that hold one, however
   sorting ordered them.
   */
  lemma ResponseAddsUp(f: Fan, steps: seq<Step>, s: State, out: seq<AgentResult>)
    requires JoinedBy(f, steps, s) && Full(f, s) && IsResponse(f, s, out)
    ensures multiset(Addresses(out)) == multiset(Addrs(f.agents)) && |out| == |f.agents|
    ensures Sum(out, Reached()) == Sum(Filled(f, s), Reached())
  {
    SlotsCarryAddresses(f, steps, s);
    SumIgnoresOrder(out, Filled(f, s), Reached());
    AddressesOfSameBag(out, Filled(f, s));
  }

  // An agent that answers, with the port open.
  function AnswersOpen(ask: string -> Reply): Agent -> nat {
    (a: Agent) => if ask(a.addr).Answered? && ask(a.addr).tcp == Some(true) then 1 else 0
  }

  lemma {:induction false} OpenAnswersCounted(agents: seq<Agent>, ask: string -> Reply)
    ensures Sum(Answers(agents, ask), Reached()) == Sum(agents, AnswersOpen(ask))
  {
    if agents != [] {
      var n := |agents| - 1;
      OpenAnswersCounted(agents[..n], ask);
      assert Answers(agents, ask)[..n] == Answers(agents[..n], ask);
      ReachedMeansAnsweredOpen(agents[n], ask(agents[n].addr));
    }
  }

  /** If an agent's answer depends on its address only, the summary counts the agents that answered open. */
  lemma SummaryCountsOpenAnswers(f: Fan, ask: string -> Reply, steps: seq<Step>, s: State, out: seq<AgentResult>)
    requires JoinedBy(f, steps, s) && Truthful(f, ask, steps)
    requires Full(f, s) && IsResponse(f, s, out)
    ensures Sum(out, Reached()) == Sum(f.agents, AnswersOpen(ask)) && |out| == |f.agents|
  {
    TruthfulJoinIsAnswers(f, ask, steps, s);
    OpenAnswersCounted(f.agents, ask);
    SumIgnoresOrder(out, Filled(f, s), Reached());
  }

  // What follows the wait: the filled slots are sorted in place and summarized.
  method SortAndSummarize(f: Fan, ghost s: State, results: array<AgentResult>) returns (summary: Summary)
    requires Full(f, s) && results[..] == Filled(f, s)
    modifies results
    ensures IsResponse(f, s, results[..])
    ensures summary == Summary(Sum(Filled(f, s), Reached()), |f.agents|)
  {
    SortSlice(results, ByAgent());
    summary := Summarize(results[..]);
    SumIgnoresOrder(results[..], Filled(f, s), Reached());
  }

  // The counts reported beside the results.
  datatype Counts = Counts(discovered: nat, queried: nat, dropped: nat)

  method PlanFanout(agents: array<Agent>, max: int, maxConcurrent: int) returns (f: Fan, c: Counts)
    ensures f == FanFor(Selection(agents[..], max), maxConcurrent)
    ensures c.discovered == agents.Length && c.queried == |f.agents|
    ensures c.discovered == c.queried + c.dropped
    ensures c.dropped == if Capped(agents.Length, max) then agents.Length - max else 0
  {
    var selected, dropped := SelectAgents(agents, max);
    SelectionLength(agents[..], max);
    f, c := FanFor(selected, maxConcurrent), Counts(agents.Length, |selected|, dropped);
  }
}
