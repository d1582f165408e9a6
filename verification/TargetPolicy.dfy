/**
 The operator's connection policy: which addresses it permits, how a requested host is resolved
 and vetted under it, and what the TCP path can then dial.
 */
module TargetPolicy {
  import opened Options
  import opened DialRace
  import opened DialRaceProofs
  import opened DialRaceTheorems
  import opened Probe
  import opened Sums

  // A network is any set of addresses.
  type Network = Ip -> bool

  datatype Policy = Policy(allow: seq<Network>, deny: seq<Network>) {
    predicate Empty() {
      |allow| == 0 && |deny| == 0
    }
  }

  predicate Covered(nets: seq<Network>, ip: Ip) {
    exists i :: 0 <= i < |nets| && nets[i](ip)
  }

  // Deny wins, and an empty allow list allows everything else.
  predicate Permits(p: Policy, ip: Ip) {
    !Covered(p.deny, ip) && (|p.allow| == 0 || Covered(p.allow, ip))
  }

  method Allowed(p: Policy, ip: Ip) returns (ok: bool)
    ensures ok <==> Permits(p, ip)
    ensures (exists i :: 0 <= i < |p.deny| && p.deny[i](ip)) ==> !ok
    ensures !(exists i :: 0 <= i < |p.deny| && p.deny[i](ip)) ==>
              (ok <==> p.allow == [] || exists i :: 0 <= i < |p.allow| && p.allow[i](ip))
  {
    for i := 0 to |p.deny|
      invariant !Covered(p.deny[..i], ip)
    {
      if p.deny[i](ip) {
        return false;
      }
    }
    if |p.allow| == 0 {
      return true;
    }
    for i := 0 to |p.allow|
      invariant !Covered(p.allow[..i], ip)
    {
      if p.allow[i](ip) {
        return true;
      }
    }
    return false;
  }

  // What the resolver says about a name.  Only the IPs are vetted, reported and dialed, not the zones.
  datatype Lookup = NotFound | Found(addrs: seq<Address>)

  // `dialHosts` is empty if the requested host is to be dialed as it is; `report` is the resolved
  // list the caller is shown, if it was resolved here.
  datatype Resolution = Refused | Vetted(dialHosts: seq<Host>, report: Option<seq<Host>>)

  predicate Authorized(p: Policy, host: Host, lookup: Lookup) {
    p.Empty() ||
    match host
    case Literal(ip) => Permits(p, ip)
    case Name(_) =>
      lookup.Found? && lookup.addrs != [] && forall i :: 0 <= i < |lookup.addrs| ==> Permits(p, lookup.addrs[i].ip)
  }

  // The addresses a host stands for under a policy that is not empty.
  function Addresses(host: Host, lookup: Lookup): seq<Host> {
    match host
    case Literal(_) => [host]
    case Name(_) =>
      if lookup.NotFound? then []
      else seq(|lookup.addrs|, i requires 0 <= i < |lookup.addrs| => Literal(lookup.addrs[i].ip))
  }

  function Targets(p: Policy, host: Host, lookup: Lookup): Resolution {
    if !Authorized(p, host, lookup) then Refused
    else if p.Empty() then Vetted([], None)
    else Vetted(Addresses(host, lookup), Some(Addresses(host, lookup)))
  }

  // Resolves once, checks every address, and fails closed.
  method ResolveTarget(p: Policy, host: Host, lookup: Lookup) returns (res: Resolution)
    ensures res == Targets(p, host, lookup)
    ensures res.Vetted? <==> Authorized(p, host, lookup)
    // Without a policy the host is to be dialed as it is.
    ensures p.allow == [] && p.deny == [] ==> res == Vetted([], None)
    // Under one, a permitted literal gives itself, and a name all of its addresses, if all are permitted.
    ensures !(p.allow == [] && p.deny == []) && host.Literal? ==>
              && (res.Vetted? <==> Permits(p, host.ip))
              && (res.Vetted? ==> res.dialHosts == [host] && res.report == Some([host]))
    ensures !(p.allow == [] && p.deny == []) && host.Name? ==>
              && (res.Vetted? <==>
                    && lookup.Found? && lookup.addrs != []
                    && forall i :: 0 <= i < |lookup.addrs| ==> Permits(p, lookup.addrs[i].ip))
              && (res.Vetted? ==>
                    && |res.dialHosts| == |lookup.addrs|
                    && (forall i :: 0 <= i < |lookup.addrs| ==> res.dialHosts[i] == Literal(lookup.addrs[i].ip))
                    && res.report == Some(res.dialHosts))
  {
    if p.Empty() {
      return Vetted([], None);
    }
    match host
    case Literal(ip) =>
      var ok := Allowed(p, ip);
      if !ok {
        return Refused;
      }
      return Vetted([host], Some([host]));
    case Name(_) =>
      if lookup.NotFound? || |lookup.addrs| == 0 {
        return Refused;
      }
      var out: seq<Host> := [];
      for n := 0 to |lookup.addrs|
        invariant |out| == n
        invariant forall i :: 0 <= i < n ==> out[i] == Literal(lookup.addrs[i].ip) && Permits(p, lookup.addrs[i].ip)
      {
        var ok := Allowed(p, lookup.addrs[n].ip);
        if !ok {
          return Refused;
        }
        out := out + [Literal(lookup.addrs[n].ip)];
      }
      assert out == Addresses(host, lookup);
      return Vetted(out, Some(out));
  }

  lemma VettedArePermitted(p: Policy, host: Host, lookup: Lookup)
    requires !p.Empty() && Authorized(p, host, lookup)
    ensures Addresses(host, lookup) != []
    ensures forall h :: h in Addresses(host, lookup) ==> h.Literal? && Permits(p, h.ip)
  {
    hide Permits;
  }

  // A race over literals does not depend on the resolver.
  lemma LiteralsNeedNoResolver(host: Host, vetted: seq<Host>, guarded: Ip -> bool,
                               resolve: string -> seq<Address>, other: string -> seq<Address>)
    requires vetted != [] && forall h :: h in vetted ==> h.Literal?
    ensures RaceFor(host, vetted, resolve, guarded) == RaceFor(host, vetted, other, guarded)
  {
    DistinctKeepsFirsts(vetted);
    hide Distinct, FirstAt;
    var hosts := DialList(host, vetted);
    forall i | 0 <= i < |hosts|
      ensures Candidates(hosts[i], resolve) == Candidates(hosts[i], other)
    {
      assert hosts[i] in vetted;
    }
    assert RaceFor(host, vetted, resolve, guarded).candidates == RaceFor(host, vetted, other, guarded).candidates;
  }

  /**
   Under a policy, what is dialed is exactly what is reported, without repeats: vetted literals
   only, so that no second lookup, whatever it would answer, has a say.
   */
  lemma DialsExactlyWhatIsReported(p: Policy, host: Host, lookup: Lookup, guarded: Ip -> bool,
                                   resolve: string -> seq<Address>, other: string -> seq<Address>)
    requires !p.Empty() && Authorized(p, host, lookup)
    ensures var res := Targets(p, host, lookup);
            && res.report.Some?
            && DialList(host, res.dialHosts) == Distinct(res.report.value) != []
            && (forall h :: h in DialList(host, res.dialHosts) <==> h in res.report.value)
            && (forall h :: h in res.report.value ==> h.Literal? && Permits(p, h.ip))
            && RaceFor(host, res.dialHosts, resolve, guarded) == RaceFor(host, res.dialHosts, other, guarded)
  {
    VettedArePermitted(p, host, lookup);
    var vetted := Addresses(host, lookup);
    DistinctKeepsFirsts(vetted);
    LiteralsNeedNoResolver(host, vetted, guarded, resolve, other);
    hide Addresses, Authorized, Permits, Distinct, FirstAt, RaceFor;
  }

  // ---------------------------------------------------------------------------------------
  // What is dialed is what was asked for

  // The addresses a requested host stands for: a literal for its IP, a name without a policy for
  // whatever the dialer's resolver says, and under a policy for the IPs of the one lookup.
  predicate StandsFor(p: Policy, host: Host, lookup: Lookup, resolve: string -> seq<Address>, a: Address) {
    match host
    case Literal(ip) => a == Address(ip, "")
    case Name(name) =>
      if p.allow == [] && p.deny == [] then a in resolve(name)
      else lookup.Found? && exists i :: 0 <= i < |lookup.addrs| && a == Address(lookup.addrs[i].ip, "")
  }

  lemma OneHost(host: Host)
    ensures Distinct([host]) == [host]
  {
    var one := [host];
    assert one[..0] == [] && Distinct(one[..0]) == [];
  }

  lemma VettedAreTheCandidates(p: Policy, host: Host, lookup: Lookup, resolve: string -> seq<Address>,
                               guarded: Ip -> bool, a: Address)
    requires !p.Empty() && host.Name? && Authorized(p, host, lookup)
    ensures var r := RaceFor(host, Targets(p, host, lookup).dialHosts, resolve, guarded);
            StandsFor(p, host, lookup, resolve, a) <==> exists h :: 0 <= h < r.Size() && a in r.candidates[h]
  {
    hide Distinct, FirstAt, Permits;
    var vetted := Targets(p, host, lookup).dialHosts;
    var r := RaceFor(host, vetted, resolve, guarded);
    var hosts := DialList(host, vetted);
    DistinctKeepsFirsts(vetted);
    if i :| 0 <= i < |lookup.addrs| && a == Address(lookup.addrs[i].ip, "") {
      assert vetted[i] in hosts;
      var h :| 0 <= h < |hosts| && hosts[h] == vetted[i];
      assert a in r.candidates[h];
    }
    if h :| 0 <= h < r.Size() && a in r.candidates[h] {
      assert hosts[h] in vetted;
    }
  }

  lemma CandidatesAreTheHosts(p: Policy, host: Host, lookup: Lookup, resolve: string -> seq<Address>,
                              guarded: Ip -> bool, a: Address)
    requires Authorized(p, host, lookup)
    ensures var r := RaceFor(host, Targets(p, host, lookup).dialHosts, resolve, guarded);
            StandsFor(p, host, lookup, resolve, a) <==> exists h :: 0 <= h < r.Size() && a in r.candidates[h]
  {
    hide Distinct, FirstAt, Permits;
    OneHost(host);
    if p.Empty() || host.Literal? {
      var r := RaceFor(host, Targets(p, host, lookup).dialHosts, resolve, guarded);
      assert r.candidates == [Candidates(host, resolve)];
      assert a in Candidates(host, resolve) <==> 0 < r.Size() && a in r.candidates[0];
    } else {
      VettedAreTheCandidates(p, host, lookup, resolve, guarded, a);
    }
  }

  /**
   No interleaving connects to anything but the requested host: every connection is to an address
   it stands for, and to a guarded one only with a zone.
   */
  lemma ConnectsOnlyToTheHost(p: Policy, host: Host, lookup: Lookup, resolve: string -> seq<Address>,
                              guarded: Ip -> bool, s: State)
    requires Authorized(p, host, lookup)
    requires Reachable(RaceFor(host, Targets(p, host, lookup).dialHosts, resolve, guarded), s)
    ensures forall c :: c in s.connected ==>
      c.Opened? && StandsFor(p, host, lookup, resolve, c.addr) && (guarded(c.addr.ip) ==> c.addr.zone != "")
  {
    var r := RaceFor(host, Targets(p, host, lookup).dialHosts, resolve, guarded);
    ReachableInv(r, s);
    GuardHolds(r, s);
    hide RaceFor, Targets, Inv, StandsFor, Authorized;
    forall c | c in s.connected
      ensures c.Opened? && StandsFor(p, host, lookup, resolve, c.addr)
    {
      CandidatesAreTheHosts(p, host, lookup, resolve, guarded, c.addr);
    }
  }

  /**
   And each of these addresses can be the one that the check succeeds with: some interleaving
   returns OK with a connection to exactly that address.
   */
  lemma AnyOfItsAddressesCanWin(p: Policy, host: Host, lookup: Lookup, resolve: string -> seq<Address>,
                                guarded: Ip -> bool, a: Address)
    returns (s: State)
    requires Authorized(p, host, lookup)
    requires StandsFor(p, host, lookup, resolve, a) && (guarded(a.ip) ==> a.zone != "")
    ensures Reachable(RaceFor(host, Targets(p, host, lookup).dialHosts, resolve, guarded), s) && s.returned
    ensures Connected(s).tcpOk
    ensures s.col.winner.Some? && s.col.winner.value.Opened? && s.col.winner.value.addr == a
    ensures s.col.winner.value in s.connected
  {
    var r := RaceFor(host, Targets(p, host, lookup).dialHosts, resolve, guarded);
    CandidatesAreTheHosts(p, host, lookup, resolve, guarded, a);
    var h: nat :| h < r.Size() && a in r.candidates[h];
    var c: nat :| c < |r.candidates[h]| && r.candidates[h][c] == a;
    var steps := CanWin(r, h, c);
    s := After(r, Start(r), steps);
    ReachableInv(r, s);
    ReturnedResult(r, s);
    WinnerWasConnected(r, s);
  }

  /**
   Under a policy every vetted IP is dialed, and dialed once: in every run that returned exactly one
   dial had that IP, and nothing else, to try.
   */
  lemma EveryVettedIpIsDialed(p: Policy, name: string, lookup: Lookup, resolve: string -> seq<Address>,
                              guarded: Ip -> bool, steps: seq<Step>, i: nat)
    returns (h: nat)
    requires !(p.allow == [] && p.deny == []) && Authorized(p, Name(name), lookup) && i < |lookup.addrs|
    requires var r := RaceFor(Name(name), Targets(p, Name(name), lookup).dialHosts, resolve, guarded);
             Runs(r, Start(r), steps) && After(r, Start(r), steps).returned
    ensures var r := RaceFor(Name(name), Targets(p, Name(name), lookup).dialHosts, resolve, guarded);
            var mine := [Address(lookup.addrs[i].ip, "")];
            && (forall k :: 0 <= k < |r.candidates| ==> (r.candidates[k] == mine <==> k == h))
            && Sum(DialsStarted(r, Start(r), steps), Same(h)) == 1
  {
    var vetted := Targets(p, Name(name), lookup).dialHosts;
    var r := RaceFor(Name(name), vetted, resolve, guarded);
    var hosts := DialList(Name(name), vetted);
    DistinctKeepsFirsts(vetted);
    assert vetted[i] in hosts;
    h :| 0 <= h < |hosts| && hosts[h] == vetted[i];
    forall k | 0 <= k < |hosts|
      ensures r.candidates[k] == [Address(lookup.addrs[i].ip, "")] <==> k == h
    {
      assert hosts[k] in vetted;
    }
    AddressDialedOnce(r, steps, h);
  }

  /**
   Under a policy, no interleaving opens a connection to an address of a deny network, to one of no
   allow network if there are any, or to a guarded one.
   */
  lemma PolicyHolds(p: Policy, host: Host, lookup: Lookup, resolve: string -> seq<Address>, guarded: Ip -> bool,
                    s: State)
    requires !(p.allow == [] && p.deny == []) && Authorized(p, host, lookup)
    requires Reachable(RaceFor(host, Targets(p, host, lookup).dialHosts, resolve, guarded), s)
    ensures forall c :: c in s.connected ==>
      && c.Opened? && !guarded(c.addr.ip)
      && (forall i :: 0 <= i < |p.deny| ==> !p.deny[i](c.addr.ip))
      && (p.allow == [] || exists i :: 0 <= i < |p.allow| && p.allow[i](c.addr.ip))
  {
    ConnectsOnlyToTheHost(p, host, lookup, resolve, guarded, s);
    hide RaceFor, Targets;
    assert forall c :: c in s.connected ==> Permits(p, c.addr.ip);
  }
}
