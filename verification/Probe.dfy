/**
 What the probe runners make of a dial race: removing repeated addresses, the collector loop, the
 TCP result, the denial promoted from a guard hit, and when the postgres prober may run.
 */
module Probe {
  import opened Options
  import opened DialRace
  import opened DialRaceProofs
  import opened DialRaceTheorems
  import opened Sums

  // An address to dial: a literal, or a name the dialer resolves itself.
  datatype Host = Literal(ip: Ip) | Name(name: string)

  // ---------------------------------------------------------------------------------------
  // Repeated addresses

  function Distinct(hosts: seq<Host>): seq<Host> {
    if hosts == [] then []
    else
      var n := |hosts| - 1;
      var earlier := Distinct(hosts[..n]);
      if hosts[n] in hosts[..n] then earlier else earlier + [hosts[n]]
  }

  method Dedup(hosts: seq<Host>) returns (out: seq<Host>)
    ensures out == Distinct(hosts)
  {
    var seen: set<Host> := {};
    out := [];
    for i := 0 to |hosts|
      invariant forall h :: h in seen <==> h in hosts[..i]
      invariant out == Distinct(hosts[..i])
    {
      assert hosts[..i + 1][..i] == hosts[..i];
      if hosts[i] !in seen {
        seen := seen + {hosts[i]};
        out := out + [hosts[i]];
      }
    }
    assert hosts[..|hosts|] == hosts;
  }

  // Where an address first occurs.
  function FirstAt(hosts: seq<Host>, h: Host): (i: nat)
    requires h in hosts
    ensures i < |hosts| && hosts[i] == h && h !in hosts[..i]
  {
    if hosts[0] == h then 0
    else
      assert h in hosts[1..];
      var i := FirstAt(hosts[1..], h) + 1;
      assert hosts[..i] == [hosts[0]] + hosts[1..][..i - 1];
      i
  }

  lemma FirstAtUnique(hosts: seq<Host>, h: Host, i: nat)
    requires i < |hosts| && hosts[i] == h && h !in hosts[..i]
    ensures h in hosts && FirstAt(hosts, h) == i
  {
    var j := FirstAt(hosts, h);
    assert forall k :: 0 <= k < i ==> hosts[..i][k] == hosts[k];
    assert forall k :: 0 <= k < j ==> hosts[..j][k] == hosts[k];
  }

  /** Every address is kept once, in the order of first occurrence. */
  lemma {:induction false} DistinctKeepsFirsts(hosts: seq<Host>)
    ensures forall h :: h in Distinct(hosts) <==> h in hosts
    ensures var d := Distinct(hosts);
            forall i, j :: 0 <= i < j < |d| ==> FirstAt(hosts, d[i]) < FirstAt(hosts, d[j])
    ensures hosts != [] ==> Distinct(hosts) != []
  {
    if hosts != [] {
      var n := |hosts| - 1;
      var init, last := hosts[..n], hosts[n];
      DistinctKeepsFirsts(init);
      assert forall h :: h in hosts <==> h in init || h == last;
      var d := Distinct(hosts);
      forall i | 0 <= i < |d|
        ensures FirstAt(hosts, d[i]) == if d[i] in init then FirstAt(init, d[i]) else n
      {
        if d[i] in init {
          var k := FirstAt(init, d[i]);
          assert hosts[..k] == init[..k];
          FirstAtUnique(hosts, d[i], k);
        } else {
          FirstAtUnique(hosts, last, n);
        }
      }
    }
  }

  // ---------------------------------------------------------------------------------------
  // The collector loop

  // Receives one outcome per address; keeps the first open connection and closes the others.
  method Collect(outcomes: seq<Outcome>) returns (c: Collector)
    ensures c == Collected(outcomes)
    ensures c.winner.Some? <==> exists i :: 0 <= i < |outcomes| && outcomes[i].Opened?
    ensures c.winner.Some? ==> exists i :: FirstOpened(outcomes, i) && outcomes[i] == c.winner.value
  {
    c := NEW_COLLECTOR;
    for n := 0 to |outcomes|
      invariant c == Collected(outcomes[..n])
    {
      assert outcomes[..n + 1][..n] == outcomes[..n];
      match outcomes[n]
      case Failed(_, fault) =>
        c := c.(lastErr := Some(fault));
      case Opened(_, _) =>
        if c.winner == None {
          c := c.(winner := Some(outcomes[n]), ok := true, cancelled := true);
        } else {
          c := c.(closed := c.closed + [outcomes[n]]);
        }
    }
    assert outcomes[..|outcomes|] == outcomes;
    CollectorKeepsFirst(outcomes);
  }

  // ---------------------------------------------------------------------------------------
  // The runners

  // The addresses a dial of h may try.  A literal that is read as an IP has no zone.
  function Candidates(h: Host, resolve: string -> seq<Address>): seq<Address> {
    match h
    case Literal(ip) => [Address(ip, "")]
    case Name(name) => resolve(name)
  }

  // With no vetted addresses the requested host itself is dialed.
  function DialList(host: Host, vetted: seq<Host>): seq<Host> {
    Distinct(if vetted == [] then [host] else vetted)
  }

  function RaceFor(host: Host, vetted: seq<Host>, resolve: string -> seq<Address>, guarded: Ip -> bool): Race {
    var hosts := DialList(host, vetted);
    Race(seq(|hosts|, i requires 0 <= i < |hosts| => Candidates(hosts[i], resolve)), guarded)
  }

  datatype AuthResult = AuthResult(ok: bool, code: string)

  datatype Result = Result(tcpOk: bool, tcpError: Option<Fault>, denied: bool, auth: Option<AuthResult>)

  // What `connect` fills in once the race has returned.
  function Connected(s: State): Result {
    Result(s.col.ok, if s.col.ok then None else s.col.lastErr, s.hit && !s.col.ok, None)
  }

  // The postgres runner: the prober runs only over a target that was reached; `auth` is what it
  // reports if it runs.
  function PostgresResult(s: State, auth: AuthResult): Result {
    if s.col.winner.None? then Connected(s) else Connected(s).(auth := Some(auth))
  }

  // A state some interleaving reaches.
  ghost predicate Reachable(r: Race, s: State) {
    exists steps :: Runs(r, Start(r), steps) && After(r, Start(r), steps) == s
  }

  lemma ReachableInv(r: Race, s: State)
    requires Reachable(r, s)
    ensures Inv(r, s)
  {
    var steps :| Runs(r, Start(r), steps) && After(r, Start(r), steps) == s;
    StartInv(r);
    RunInv(r, Start(r), steps);
  }

  /**
   Whatever the interleaving: no connection is opened to an address the guard's hook refuses, so
   none to a guarded one if the hook can read them all; the TCP result is OK exactly if some dial
   opened; it is a denial exactly if the guard refused an address and none opened; and a failure
   carries an error.
   */
  lemma TcpResultIsRight(host: Host, vetted: seq<Host>, resolve: string -> seq<Address>, guarded: Ip -> bool, s: State)
    requires Reachable(RaceFor(host, vetted, resolve, guarded), s) && s.returned
    ensures forall c :: c in s.connected ==> c.Opened? && (guarded(c.addr.ip) ==> !Legible(c.addr))
    ensures GuardCanRead(RaceFor(host, vetted, resolve, guarded)) ==>
              forall c :: c in s.connected ==> !guarded(c.addr.ip)
    ensures Connected(s).tcpOk <==> s.connected != []
    ensures Connected(s).denied <==> s.refused != [] && s.connected == []
    ensures !Connected(s).tcpOk ==> Connected(s).tcpError.Some?
    ensures Connected(s).tcpOk ==> Connected(s).tcpError.None?
  {
    var r := RaceFor(host, vetted, resolve, guarded);
    ReachableInv(r, s);
    ReturnedResult(r, s);
    GuardHolds(r, s);
    DistinctKeepsFirsts(if vetted == [] then [host] else vetted);
  }

  /** A failure reports the error of the outcome that arrived last, which is one that a dial gave up with. */
  lemma FailureTellsItsFault(host: Host, vetted: seq<Host>, resolve: string -> seq<Address>, guarded: Ip -> bool,
                             steps: seq<Step>)
    requires var r := RaceFor(host, vetted, resolve, guarded);
             Runs(r, Start(r), steps) && After(r, Start(r), steps).returned
    ensures var r := RaceFor(host, vetted, resolve, guarded);
            var s := After(r, Start(r), steps);
            !Connected(s).tcpOk ==>
              && s.received != [] && s.received[|s.received| - 1].Failed?
              && Connected(s).tcpError == Some(s.received[|s.received| - 1].fault)
              && s.received[|s.received| - 1] in GivenUp(r, Start(r), steps)
  {
    var r := RaceFor(host, vetted, resolve, guarded);
    var s := After(r, Start(r), steps);
    StartInv(r);
    RunInv(r, Start(r), steps);
    ReturnedResult(r, s);
    CollectorKeepsFirst(s.received);
    DistinctKeepsFirsts(if vetted == [] then [host] else vetted);
    if !Connected(s).tcpOk {
      assert |s.received| == r.Size() > 0;
      FailuresWereGivenUp(r, Start(r), steps, s.received[|s.received| - 1]);
    }
  }

  /**
   What the hook cannot read it lets through: a guarded address that a dial of the host tries with
   a zone can be connected to, and the result is then OK and no denial.
   */
  lemma ZonedAddressIsLetThrough(name: string, resolve: string -> seq<Address>, guarded: Ip -> bool,
                                 ip: Ip, zone: string)
    returns (s: State)
    requires zone != "" && guarded(ip) && resolve(name) == [Address(ip, zone)]
    ensures Reachable(RaceFor(Name(name), [], resolve, guarded), s) && s.returned
    ensures s.connected == [Opened(0, Address(ip, zone))] && s.refused == []
    ensures Connected(s).tcpOk && !Connected(s).denied
  {
    var r := RaceFor(Name(name), [], resolve, guarded);
    assert DialList(Name(name), []) == [Name(name)] by {
      var host: seq<Host> := [Name(name)];
      assert host[..0] == [] && Distinct(host[..0]) == [];
      assert Distinct(host) == host;
    }
    assert r.candidates == [[Address(ip, zone)]];
    var steps := AndThen(r, [], Feed(0));
    steps := AndThen(r, steps, Attempt(0, 0, true));
    steps := AndThen(r, steps, Send(0));
    steps := AndThen(r, steps, Receive);
    steps := AndThen(r, steps, Return);
    s := After(r, Start(r), steps);
  }

  // The connections closed once a runner is done: the collector's and, by the runner, the winner.
  function ClosedByRun(s: State): seq<Outcome> {
    s.col.closed + if s.col.winner.Some? then [s.col.winner.value] else []
  }

  /** When a runner is done, every connection its race opened has been closed exactly once, and nothing else has. */
  lemma NothingStaysOpen(r: Race, s: State)
    requires Reachable(r, s) && s.returned
    ensures forall c: Outcome :: Sum(ClosedByRun(s), Is(c)) == if c in s.connected then 1 else 0
  {
    ReachableInv(r, s);
    ReturnedResult(r, s);
    CollectorKeepsFirst(s.received);
    forall c: Outcome
      ensures Sum(ClosedByRun(s), Is(c)) == if c in s.connected then 1 else 0
    {
      ClosedCount(s, c);
      SumIsZero(s.col.closed, Is(c));
      if c in s.connected {
        ConnectionInOnePlace(r, s, c);
      } else if c.Opened? {
        ReceivedIsKeptOrClosed(s.received, c);
        SumIsZero(s.connected, Is(c));
      }
    }
  }

  lemma ClosedCount(s: State, c: Outcome)
    ensures Sum(ClosedByRun(s), Is(c)) == Sum(s.col.closed, Is(c)) + Won(s.col, c)
  {
    if s.col.winner.Some? {
      SumAppended(s.col.closed, s.col.winner.value, Is(c));
    } else {
      assert ClosedByRun(s) == s.col.closed;
    }
  }

  /** The prober runs exactly if the reachability dial opened a connection; never after a denial. */
  lemma ProberRunsOnlyIfReached(r: Race, s: State, auth: AuthResult)
    requires Reachable(r, s) && s.returned
    ensures PostgresResult(s, auth).auth.Some? <==> s.connected != []
    ensures PostgresResult(s, auth).denied ==> PostgresResult(s, auth).auth.None?
    ensures PostgresResult(s, auth).(auth := None) == Connected(s)
  {
    ReachableInv(r, s);
    ReturnedResult(r, s);
  }

  /** Every race can return, so what is said of a returned state is never said of nothing. */
  lemma RaceCanReturn(r: Race) returns (s: State)
    ensures Reachable(r, s) && s.returned
  {
    StartInv(r);
    var steps := ReturnIsReachable(r, Start(r));
    s := After(r, Start(r), steps);
  }

  /** Every run of the race from the start is finite, and ends with everything gone. */
  lemma RaceEnds(r: Race, steps: seq<Step>)
    requires Runs(r, Start(r), steps)
    ensures |steps| <= Measure(r, Start(r))
    ensures (forall step :: !Enabled(r, After(r, Start(r), steps), step)) ==> Final(r, After(r, Start(r), steps))
  {
    StartInv(r);
    EveryRunEnds(r, Start(r), steps);
  }
}
