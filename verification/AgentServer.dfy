/**
 The agent's two check handlers: decode, validate, pass the limiters, resolve under the policy,
 dial, count, and, for postgres checks, audit.  What the network does during a request is a
 parameter; the limiters and the counters are mutable state.
 */
module AgentServer {
  import opened Options
  import opened TokenBucket
  import opened LimiterModel
  import opened RateLimiter
  import opened TargetPolicy
  import opened TargetKey
  import opened Text
  import opened CallCost
  import LimiterTheorems
  import DialRace
  import Probe

  // ---------------------------------------------------------------------------------------
  // Requests and responses

  datatype Credentials = Credentials(username: string, password: string)

  datatype CheckRequest = CheckRequest(host: string, port: int)

  predicate Blank(s: string) {
    Trim(s) == ""
  }

  predicate ValidTarget(host: string, port: int) {
    !Blank(host) && 1 <= port <= 65535
  }

  /** A target is refused as malformed exactly if its host has nothing but white space or its port is out of range. */
  lemma MalformedTarget(host: string, port: int)
    ensures !ValidTarget(host, port) <==>
              (forall i :: 0 <= i < |host| ==> IsSpace(host[i])) || port < 1 || port > 65535
  {
    BlankIsOnlySpace(host);
  }

  predicate ValidCredentials(c: Credentials) {
    !Blank(c.username) && c.password != ""
  }

  /** Credentials are malformed exactly if the username has nothing but white space or there is no password. */
  lemma MalformedCredentials(c: Credentials)
    ensures !ValidCredentials(c) <==>
              (forall i :: 0 <= i < |c.username| ==> IsSpace(c.username[i])) || |c.password| == 0
  {
    BlankIsOnlySpace(c.username);
  }

  datatype Response =
    | BadRequest                       // 400
    | TooMany(retryAfter: int)         // 429, with the Retry-After header
    | Forbidden                        // 403
    | Served(success: bool, result: Probe.Result)  // 200, whether or not the target was fine

  datatype Counter = Ok | Fail | DeniedTargets | BadRequests | Throttled

  datatype Metrics = Metrics(ok: nat, fail: nat, denied: nat, badReq: nat, throttled: nat) {
    function Value(c: Counter): nat {
      match c
      case Ok => ok
      case Fail => fail
      case DeniedTargets => denied
      case BadRequests => badReq
      case Throttled => throttled
    }
  }

  // The counter that matches a response.
  function CounterFor(r: Response): Counter {
    match r
    case BadRequest => BadRequests
    case TooMany(_) => Throttled
    case Forbidden => DeniedTargets
    case Served(success, _) => if success then Ok else Fail
  }

  function Counted(m: Metrics, c: Counter): (m': Metrics)
    ensures forall d :: m'.Value(d) == m.Value(d) + if d == c then 1 else 0
  {
    match c
    case Ok => m.(ok := m.ok + 1)
    case Fail => m.(fail := m.fail + 1)
    case DeniedTargets => m.(denied := m.denied + 1)
    case BadRequests => m.(badReq := m.badReq + 1)
    case Throttled => m.(throttled := m.throttled + 1)
  }

  datatype Verdict = WasThrottled | WasDenied | Unreachable | LoggedIn | LoginFailed(code: string)

  // An audit event has no place for a password.
  datatype Audit = Audit(target: string, username: string, verdict: Verdict)

  // The audit verdict that belongs to a response to a postgres request.
  function VerdictFor(r: Response): (v: Verdict)
    requires !r.BadRequest?
    ensures v.WasThrottled? <==> r.TooMany?
    ensures v.WasDenied? <==> r.Forbidden?
    ensures v.Unreachable? <==> r.Served? && r.result.auth.None?
    ensures v.LoggedIn? <==> r.Served? && r.result.auth.Some? && r.result.auth.value.ok
    ensures v.LoginFailed? ==> v.code == r.result.auth.value.code
  {
    match r
    case TooMany(_) => WasThrottled
    case Forbidden => WasDenied
    case Served(_, result) =>
      if result.auth.None? then Unreachable
      else if result.auth.value.ok then LoggedIn
      else LoginFailed(result.auth.value.code)
  }

  // ---------------------------------------------------------------------------------------
  // What the outside world does during one request

  // `parse` reads an IP literal; `lookup` is the policy's one lookup and `resolve` any other; `race`
  // is the state in which the dial race returns; `auth` is what a prober reports if it runs;
  // `at` and `later` are the clock readings of the two limiter calls.
  datatype World = World(
    parse: string -> Option<DialRace.Ip>,
    lookup: Lookup,
    resolve: string -> seq<DialRace.Address>,
    race: DialRace.State,
    auth: Probe.AuthResult,
    at: real,
    later: real
  )

  function HostOf(w: World, host: string): Probe.Host {
    if w.parse(host).Some? then Probe.Literal(w.parse(host).value) else Probe.Name(host)
  }

  // The race ended the way some interleaving of it can end.
  ghost predicate Plausible(w: World, p: Policy, guarded: DialRace.Ip -> bool, host: string) {
    var h := HostOf(w, host);
    Authorized(p, h, w.lookup) ==>
      && Probe.Reachable(Probe.RaceFor(h, Targets(p, h, w.lookup).dialHosts, w.resolve, guarded), w.race)
      && w.race.returned
  }

  // Whatever the lookup says, some outcome of the race is plausible.
  lemma SomeWorldIsPlausible(w: World, p: Policy, guarded: DialRace.Ip -> bool, host: string)
    returns (race: DialRace.State)
    ensures Plausible(w.(race := race), p, guarded, host)
  {
    var h := HostOf(w, host);
    var vetted := if Authorized(p, h, w.lookup) then Targets(p, h, w.lookup).dialHosts else [];
    race := Probe.RaceCanReturn(Probe.RaceFor(h, vetted, w.resolve, guarded));
  }

  /**
   Without a policy, a guarded address that the host stands for with a zone can be connected to, and
   then the race has refused nothing.
   */
  lemma ZonedTargetIsConnectedTo(w: World, p: Policy, guarded: DialRace.Ip -> bool, host: string,
                                 ip: DialRace.Ip, zone: string)
    returns (race: DialRace.State)
    requires p.Empty() && w.parse(host).None? && w.resolve(host) == [DialRace.Address(ip, zone)]
    requires zone != "" && guarded(ip)
    ensures Plausible(w.(race := race), p, guarded, host)
    ensures race.connected == [DialRace.Opened(0, DialRace.Address(ip, zone))] && race.refused == []
  {
    race := Probe.ZonedAddressIsLetThrough(host, w.resolve, guarded, ip, zone);
  }

  // What a request for the host may connect to: an address that it stands for, that no deny network
  // holds, that some allow network holds if there is one, and that is unguarded or has a zone.
  predicate MayReach(w: World, p: Policy, guarded: DialRace.Ip -> bool, host: string, a: DialRace.Address) {
    && (match w.parse(host)
        case Some(ip) => a == DialRace.Address(ip, "")
        case None =>
          if p.allow == [] && p.deny == [] then a in w.resolve(host)
          else
            && w.lookup.Found?
            && exists i :: 0 <= i < |w.lookup.addrs| && a == DialRace.Address(w.lookup.addrs[i].ip, ""))
    && (forall i :: 0 <= i < |p.deny| ==> !p.deny[i](a.ip))
    && (p.allow == [] || exists i :: 0 <= i < |p.allow| && p.allow[i](a.ip))
    && (guarded(a.ip) ==> a.zone != "")
  }

  // ---------------------------------------------------------------------------------------
  // Limiters that may be absent

  ghost function LimiterRepr(l: Limiter?): set<object>
    reads if l == null then {} else {l, l.user, l.target}
  {
    if l == null then {} else l.Footprint()
  }

  ghost predicate Usable(l: Limiter?)
    reads if l == null then {} else {l, l.user, l.target}, LimiterRepr(l)
    ensures Usable(l) && l != null ==> l in LimiterRepr(l)
    ensures Usable(l) && l != null && l.user != null ==> l.user in LimiterRepr(l)
    ensures Usable(l) && l != null && l.target != null ==> l.target in LimiterRepr(l)
  {
    l != null ==> l.Valid()
  }

  ghost function LimiterValue(l: Limiter?): Option<State>
    requires Usable(l)
    reads if l == null then {} else {l, l.user, l.target}, LimiterRepr(l)
  {
    if l == null then None else Some(l.Value())
  }

  // What a limiter answers, and what it is left as: no limiter, or a disabled one, admits everything.
  ghost function Asked(l: Limiter?, key: string, now: real): (Option<State>, Answer)
    requires Usable(l)
    reads if l == null then {} else {l, l.user, l.target}, LimiterRepr(l)
  {
    if l == null then (None, Admitted)
    else if !l.enabled then (Some(l.Value()), Admitted)
    else
      var (st, a) := Step(l.cfg, l.Value(), Request("", key, now), true);
      (Some(st), a)
  }

  method AllowReservation(l: Limiter?, host: string, port: nat, now: real) returns (a: Answer)
    requires Usable(l)
    modifies LimiterRepr(l)
    ensures Usable(l) && fresh(LimiterRepr(l) - old(LimiterRepr(l)))
    ensures (LimiterValue(l), a) == old(Asked(l, JoinHostPort(host, port), now))
  {
    hide Step, Limiter.Value;
    if l == null {
      return Admitted;
    }
    a := l.Reserve("", JoinHostPort(host, port), now);
  }

  // ---------------------------------------------------------------------------------------
  // What a call costs, for a limiter that may be absent

  predicate Metered(l: Limiter?) {
    l != null && l.enabled && Limits(l.cfg)
  }

  ghost function LevelsFound(l: Limiter?, key: string, now: real): Option<Stand>
    requires Usable(l)
    reads if l == null then {} else {l, l.user, l.target}, LimiterRepr(l)
  {
    match LimiterValue(l)
    case None => None
    case Some(st) =>
      var r := Request("", key, now);
      Some(if l.enabled then FoundBy(l.cfg, st, r) else StandIn(l.cfg, st, r))
  }

  ghost function LevelsLeft(l: Limiter?, key: string, now: real): Option<Stand>
    requires Usable(l)
    reads if l == null then {} else {l, l.user, l.target}, LimiterRepr(l)
  {
    match LimiterValue(l)
    case None => None
    case Some(st) => Some(StandIn(l.cfg, st, Request("", key, now)))
  }

  // Whether a limiter refuses the request, told from the levels it finds.
  ghost predicate Refuses(l: Limiter?, key: string, now: real)
    requires Usable(l)
    reads if l == null then {} else {l, l.user, l.target}, LimiterRepr(l)
  {
    Metered(l) && LevelsFound(l, key, now).Some? && !GrantsAll(l.cfg, LevelsFound(l, key, now).value)
  }

  // What asking leaves of the levels.
  lemma AskingSpendsUnlessRefused(l: Limiter?, key: string, now: real)
    requires Usable(l)
    ensures var (left, a) := Asked(l, key, now);
            && (a.Denied? <==> Refuses(l, key, now))
            && (left.Some? <==> l != null) && (LevelsFound(l, key, now).Some? <==> l != null)
            && (l != null ==>
                  (StandIn(l.cfg, left.value, Request("", key, now)) == LevelsFound(l, key, now).value
                   <==> Refuses(l, key, now) || !Metered(l)))
  {
    hide Limiter.Value, Limiter.Valid, Limiter.Footprint;
    if l != null && l.enabled {
      SpendsUnlessRefused(l.cfg, l.Value(), Request("", key, now));
      hide Step, StandIn, FoundBy, Grants;
    }
  }

  // ---------------------------------------------------------------------------------------
  // The handlers

  class Server {
    const policy: Policy
    const guarded: DialRace.Ip -> bool
    const limiter: Limiter?
    const postgresLimiter: Limiter?
    var metrics: Metrics
    var audits: seq<Audit>

    ghost predicate Valid()
      reads this, if limiter == null then {} else {limiter, limiter.user, limiter.target}, LimiterRepr(limiter)
      reads if postgresLimiter == null then {} else {postgresLimiter, postgresLimiter.user, postgresLimiter.target}
      reads LimiterRepr(postgresLimiter)
    {
      && Usable(limiter) && Usable(postgresLimiter)
      && LimiterRepr(limiter) !! LimiterRepr(postgresLimiter)
      && this !in LimiterRepr(limiter) && this !in LimiterRepr(postgresLimiter)
    }

    constructor (policy: Policy, guarded: DialRace.Ip -> bool, limiter: Limiter?, postgresLimiter: Limiter?)
      requires Usable(limiter) && Usable(postgresLimiter)
      requires LimiterRepr(limiter) !! LimiterRepr(postgresLimiter)
      ensures Valid() && this.policy == policy && this.guarded == guarded
      ensures this.limiter == limiter && this.postgresLimiter == postgresLimiter
      ensures metrics == Metrics(0, 0, 0, 0, 0) && audits == []
    {
      this.policy, this.guarded, this.limiter, this.postgresLimiter := policy, guarded, limiter, postgresLimiter;
      metrics, audits := Metrics(0, 0, 0, 0, 0), [];
    }

    // Nothing has been asked of the two limiters since.
    twostate predicate LimitersKept()
      requires old(Valid()) && Valid()
      reads this, if limiter == null then {} else {limiter, limiter.user, limiter.target}, LimiterRepr(limiter)
      reads if postgresLimiter == null then {} else {postgresLimiter, postgresLimiter.user, postgresLimiter.target}
      reads LimiterRepr(postgresLimiter)
    {
      && LimiterRepr(limiter) == old(LimiterRepr(limiter))
      && LimiterValue(limiter) == old(LimiterValue(limiter))
      && LimiterRepr(postgresLimiter) == old(LimiterRepr(postgresLimiter))
      && LimiterValue(postgresLimiter) == old(LimiterValue(postgresLimiter))
    }

    method Count(c: Counter)
      requires Valid()
      modifies this`metrics
      ensures Valid() && LimitersKept()
      ensures metrics == Counted(old(metrics), c)
    {
      metrics := Counted(metrics, c);
    }

    method Reject() returns (r: Response)
      requires Valid()
      modifies this`metrics
      ensures Valid() && LimitersKept()
      ensures r == BadRequest && metrics == Counted(old(metrics), BadRequests)
    {
      Count(BadRequests);
      return BadRequest;
    }

    method Deny() returns (r: Response)
      requires Valid()
      modifies this`metrics
      ensures Valid() && LimitersKept()
      ensures r == Forbidden && metrics == Counted(old(metrics), DeniedTargets)
    {
      Count(DeniedTargets);
      return Forbidden;
    }

    method Throttle(retry: real) returns (r: Response)
      requires Valid()
      modifies this`metrics
      ensures Valid() && LimitersKept()
      ensures r == TooMany(LimiterTheorems.RetryAfterSeconds(retry))
      ensures metrics == Counted(old(metrics), Throttled)
    {
      Count(Throttled);
      return TooMany(LimiterTheorems.RetryAfterSeconds(retry));
    }

    method Log(host: string, port: nat, username: string, verdict: Verdict)
      requires Valid()
      modifies this`audits
      ensures Valid() && LimitersKept()
      ensures audits == old(audits) + [Audit(JoinHostPort(host, port), username, verdict)]
    {
      audits := audits + [Audit(JoinHostPort(host, port), username, verdict)];
    }

    // The general limiter's gate; the other limiter does not notice.
    method Allow(host: string, port: nat, now: real) returns (a: Answer)
      requires Valid()
      modifies LimiterRepr(limiter)
      ensures Valid() && fresh(LimiterRepr(limiter) - old(LimiterRepr(limiter)))
      ensures (LimiterValue(limiter), a) == old(Asked(limiter, JoinHostPort(host, port), now))
      ensures LimiterRepr(postgresLimiter) == old(LimiterRepr(postgresLimiter))
      ensures LimiterValue(postgresLimiter) == old(LimiterValue(postgresLimiter))
      ensures forall key: string, t: real :: old(Asked(postgresLimiter, key, t)) == Asked(postgresLimiter, key, t)
    {
      hide Asked, LimiterValue, Limiter.Value, Limiter.Valid;
      a := AllowReservation(limiter, host, port, now);
    }

    method AllowPostgres(host: string, port: nat, now: real) returns (a: Answer)
      requires Valid()
      modifies LimiterRepr(postgresLimiter)
      ensures Valid() && fresh(LimiterRepr(postgresLimiter) - old(LimiterRepr(postgresLimiter)))
      ensures (LimiterValue(postgresLimiter), a) == old(Asked(postgresLimiter, JoinHostPort(host, port), now))
      ensures LimiterRepr(limiter) == old(LimiterRepr(limiter))
      ensures LimiterValue(limiter) == old(LimiterValue(limiter))
    {
      hide Asked, LimiterValue, Limiter.Value, Limiter.Valid;
      a := AllowReservation(postgresLimiter, host, port, now);
    }

    // Resolving and vetting asks nothing of the limiters.
    method Resolve(w: World, host: string) returns (resolution: Resolution)
      requires Valid()
      ensures Valid() && LimitersKept()
      ensures resolution == Targets(policy, HostOf(w, host), w.lookup)
      ensures resolution.Vetted? <==> Authorized(policy, HostOf(w, host), w.lookup)
    {
      hide Limiter.Valid, Limiter.Value, LimiterValue, Authorized;
      resolution := ResolveTarget(policy, HostOf(w, host), w.lookup);
    }

    // A request that passed the limiters is refused if the policy does not let it be dialed, or if
    // the guard refused an address and nothing opened.
    ghost predicate Denies(w: World, host: string) {
      !Authorized(policy, HostOf(w, host), w.lookup) || (w.race.refused != [] && w.race.connected == [])
    }

    method HandleCheckTcp(body: Option<CheckRequest>, w: World) returns (r: Response)
      requires Valid()
      requires body.Some? ==> Plausible(w, policy, guarded, body.value.host)
      modifies this`metrics, LimiterRepr(limiter)
      ensures Valid() && fresh(LimiterRepr(limiter) - old(LimiterRepr(limiter)))
      // Exactly one counter moves, by one, and it is the one that matches the response.
      ensures metrics == Counted(old(metrics), CounterFor(r))
      ensures r.BadRequest? <==> body.None? || !ValidTarget(body.value.host, body.value.port)
      ensures r.BadRequest? ==> LimiterValue(limiter) == old(LimiterValue(limiter))
      ensures !r.BadRequest? ==>
                var (left, a) := old(Asked(limiter, JoinHostPort(body.value.host, body.value.port), w.at));
                && LimiterValue(limiter) == left
                && (r.TooMany? <==> a.Denied?)
                && (r.TooMany? ==> r.retryAfter == LimiterTheorems.RetryAfterSeconds(a.retryAfter))
                && (a.Admitted? ==> (r.Forbidden? <==> Denies(w, body.value.host)))
                && (r.Served? ==> (r.success <==> w.race.connected != []) && r.result == Probe.Connected(w.race))
      // What was connected to is the requested host, permitted, and unguarded unless it has a zone.
      ensures r.Served? ==> forall c :: c in w.race.connected ==>
                c.Opened? && MayReach(w, policy, guarded, body.value.host, c.addr)
    {
      hide Step, Asked, Usable, LimiterRepr, LimiterValue, Limiter.Footprint, Limiter.Valid, Limiter.Value;
      hide Authorized, MayReach, Targets, Plausible, Counted, JoinHostPort, Blank, Probe.RaceFor, Probe.Reachable;
      if body.None? {
        r := Reject();
        return;
      }
      var CheckRequest(host, port) := body.value;
      if !ValidTarget(host, port) {
        r := Reject();
        return;
      }
      var a := Allow(host, port, w.at);
      if a.Denied? {
        r := Throttle(a.retryAfter);
        return;
      }
      var resolution := Resolve(w, host);
      if resolution.Refused? {
        r := Deny();
        return;
      }
      var res := Probe.Connected(w.race);
      DialedAddresses(w, host);
      if res.denied {
        r := Deny();
        return;
      }
      Count(if res.tcpOk then Ok else Fail);
      r := Served(res.tcpOk, res);
    }

    lemma DialedAddresses(w: World, host: string)
      requires Authorized(policy, HostOf(w, host), w.lookup) && Plausible(w, policy, guarded, host)
      ensures forall c :: c in w.race.connected ==> c.Opened? && MayReach(w, policy, guarded, host, c.addr)
      ensures Probe.Connected(w.race).tcpOk <==> w.race.connected != []
      ensures Probe.Connected(w.race).denied <==> w.race.refused != [] && w.race.connected == []
      ensures Probe.PostgresResult(w.race, w.auth).denied == Probe.Connected(w.race).denied
      ensures Probe.PostgresResult(w.race, w.auth).auth ==
                if w.race.connected != [] then Some(w.auth) else None
    {
      var h := HostOf(w, host);
      var vetted := Targets(policy, h, w.lookup).dialHosts;
      Probe.TcpResultIsRight(h, vetted, w.resolve, guarded, w.race);
      Probe.ProberRunsOnlyIfReached(Probe.RaceFor(h, vetted, w.resolve, guarded), w.race, w.auth);
      ConnectsOnlyToTheHost(policy, h, w.lookup, w.resolve, guarded, w.race);
      if !(policy.allow == [] && policy.deny == []) {
        PolicyHolds(policy, h, w.lookup, w.resolve, guarded, w.race);
      }
    }

    /**
     A check that the policy lets be dialed can succeed with any address it may reach: the race can
     return with a connection to exactly that one, and then the check is not refused.
     */
    lemma AnyAddressCanAnswer(w: World, host: string, a: DialRace.Address)
      returns (race: DialRace.State)
      requires Authorized(policy, HostOf(w, host), w.lookup) && MayReach(w, policy, guarded, host, a)
      ensures Plausible(w.(race := race), policy, guarded, host) && !Denies(w.(race := race), host)
      ensures Probe.Connected(race).tcpOk
      ensures race.col.winner.Some? && race.col.winner.value.Opened? && race.col.winner.value.addr == a
      ensures race.col.winner.value in race.connected
    {
      race := AnyOfItsAddressesCanWin(policy, HostOf(w, host), w.lookup, w.resolve, guarded, a);
    }

    method HandleCheckPostgres(body: Option<(CheckRequest, Credentials)>, w: World) returns (r: Response)
      requires Valid()
      requires body.Some? ==> Plausible(w, policy, guarded, body.value.0.host)
      modifies this, LimiterRepr(limiter), LimiterRepr(postgresLimiter)
      ensures Valid()
      ensures fresh(LimiterRepr(limiter) - old(LimiterRepr(limiter)))
      ensures fresh(LimiterRepr(postgresLimiter) - old(LimiterRepr(postgresLimiter)))
      ensures metrics == Counted(old(metrics), CounterFor(r))
      ensures r.BadRequest? <==>
                body.None? || !ValidTarget(body.value.0.host, body.value.0.port) || !ValidCredentials(body.value.1)
      // Exactly one audit event for a request that passed validation, and none for one that did not.
      ensures audits == old(audits) +
                if r.BadRequest? then []
                else [Audit(JoinHostPort(body.value.0.host, body.value.0.port), body.value.1.username, VerdictFor(r))]
      // It tells a throttled request, a denied one, an unreachable target and the two ends of a login apart.
      ensures !r.BadRequest? ==>
                audits != [] &&
                var verdict := audits[|audits| - 1].verdict;
                && (r.TooMany? ==> verdict == WasThrottled)
                && (r.Forbidden? ==> verdict == WasDenied)
                && (r.Served? && w.race.connected == [] ==> verdict == Unreachable)
                && (r.Served? && w.race.connected != [] && w.auth.ok ==> verdict == LoggedIn)
                && (r.Served? && w.race.connected != [] && !w.auth.ok ==> verdict == LoginFailed(w.auth.code))
      ensures r.BadRequest? ==>
                && LimiterValue(limiter) == old(LimiterValue(limiter))
                && LimiterValue(postgresLimiter) == old(LimiterValue(postgresLimiter))
      // What the general limiter is left as does not depend on the postgres limiter's answer: a
      // token it granted stays spent.  A request it refuses does not reach the other one.
      ensures !r.BadRequest? ==>
                var key := JoinHostPort(body.value.0.host, body.value.0.port);
                var (left, a) := old(Asked(limiter, key, w.at));
                var (postgresLeft, b) := old(Asked(postgresLimiter, key, w.later));
                && LimiterValue(limiter) == left
                && LimiterValue(postgresLimiter) ==
                     (if a.Admitted? then postgresLeft else old(LimiterValue(postgresLimiter)))
                && (r.TooMany? <==> a.Denied? || b.Denied?)
                && (r.TooMany? ==>
                      r.retryAfter ==
                        LimiterTheorems.RetryAfterSeconds(if a.Denied? then a.retryAfter else b.retryAfter))
                && (a.Admitted? && b.Admitted? ==> (r.Forbidden? <==> Denies(w, body.value.0.host)))
                && (r.Served? ==>
                      && r.result == Probe.PostgresResult(w.race, w.auth)
                      && (r.success <==> w.race.connected != [] && w.auth.ok))
      // So a throttled request leaves the general limiter's levels as it found them exactly if the
      // general limiter refuses it or limits nothing.
      ensures r.TooMany? ==>
                var key := JoinHostPort(body.value.0.host, body.value.0.port);
                LevelsLeft(limiter, key, w.at) == old(LevelsFound(limiter, key, w.at))
                <==> old(Refuses(limiter, key, w.at)) || !Metered(limiter)
      // What the reachability dial connected to is the requested host, permitted, and unguarded unless it has a zone.
      ensures r.Served? ==> forall c :: c in w.race.connected ==>
                c.Opened? && MayReach(w, policy, guarded, body.value.0.host, c.addr)
    {
      hide Step, Asked, Usable, LimiterRepr, LimiterValue, Limiter.Footprint, Limiter.Valid, Limiter.Value;
      hide Authorized, MayReach, Targets, Plausible, Counted, JoinHostPort, Blank, Probe.RaceFor, Probe.Reachable;
      if body.None? {
        r := Reject();
        return;
      }
      var (CheckRequest(host, port), credentials) := body.value;
      if !ValidTarget(host, port) || !ValidCredentials(credentials) {
        r := Reject();
        return;
      }
      AskingSpendsUnlessRefused(limiter, JoinHostPort(host, port), w.at);
      var a := Allow(host, port, w.at);
      if a.Denied? {
        Log(host, port, credentials.username, WasThrottled);
        r := Throttle(a.retryAfter);
        return;
      }
      label asked:
      var b := AllowPostgres(host, port, w.later);
      assert forall o :: o in LimiterRepr(postgresLimiter) && o !in old(LimiterRepr(postgresLimiter)) ==>
        fresh@asked(o);
      if b.Denied? {
        Log(host, port, credentials.username, WasThrottled);
        r := Throttle(b.retryAfter);
        return;
      }
      var resolution := Resolve(w, host);
      if resolution.Refused? {
        Log(host, port, credentials.username, WasDenied);
        r := Deny();
        return;
      }
      var res := Probe.PostgresResult(w.race, w.auth);
      DialedAddresses(w, host);
      if res.denied {
        Log(host, port, credentials.username, WasDenied);
        r := Deny();
        return;
      }
      var verdict := Unreachable;
      if res.auth.Some? {
        verdict := if res.auth.value.ok then LoggedIn else LoginFailed(res.auth.value.code);
      }
      Log(host, port, credentials.username, verdict);
      Count(if res.auth.Some? && res.auth.value.ok then Ok else Fail);
      r := Served(res.auth.Some? && res.auth.value.ok, res);
    }
  }
}
