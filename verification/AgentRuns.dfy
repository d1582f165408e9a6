/**
 A server that handles TCP checks one after the other, with its limiter: how many checks of a target
 get past the limiter, and so how many races are started for it, in any window.
 */
module AgentRuns {
  import opened Options
  import opened LimiterModel
  import opened Ledger
  import opened LimiterRuns
  import opened LimiterTheorems
  import opened TargetKey
  import opened AgentServer
  import RateLimiter

  // A check as it comes in, and what the world does during it.
  datatype Check = Check(body: Option<CheckRequest>, world: World)

  predicate WellFormed(c: Check) {
    c.body.Some? && ValidTarget(c.body.value.host, c.body.value.port)
  }

  // The request that a well-formed check makes of the limiter.
  function AskOf(c: Check): Request
    requires WellFormed(c)
  {
    Request("", JoinHostPort(c.body.value.host, c.body.value.port), c.world.at)
  }

  function Asks(checks: seq<Check>): seq<Request> {
    if checks == [] then []
    else
      var n := |checks| - 1;
      var earlier := Asks(checks[..n]);
      if WellFormed(checks[n]) then earlier + [AskOf(checks[n])] else earlier
  }

  // The checks that were neither malformed nor throttled: those for which a race may start.
  function LetThrough(checks: seq<Check>, responses: seq<Response>): seq<Request>
    requires |checks| == |responses|
  {
    if checks == [] then []
    else
      var n := |checks| - 1;
      var earlier := LetThrough(checks[..n], responses[..n]);
      if WellFormed(checks[n]) && !responses[n].TooMany? then earlier + [AskOf(checks[n])] else earlier
  }

  // The server after some checks: its limiter is where the run of their requests ends, and exactly
  // the admitted ones were let through.
  ghost predicate Follows(cfg: Config, left: Option<State>, checks: seq<Check>, responses: seq<Response>) {
    && |checks| == |responses|
    && left == Some(Run(cfg, Asks(checks), true).0)
    && LetThrough(checks, responses) == AdmittedIn(Asks(checks), Run(cfg, Asks(checks), true).1)
  }

  lemma AsksOneMore(checks: seq<Check>, c: Check)
    ensures Asks(checks + [c]) == if WellFormed(c) then Asks(checks) + [AskOf(c)] else Asks(checks)
  {
    hide WellFormed, JoinHostPort;
    assert (checks + [c])[..|checks|] == checks;
  }

  lemma LetThroughOneMore(checks: seq<Check>, responses: seq<Response>, c: Check, r: Response)
    requires |checks| == |responses|
    ensures LetThrough(checks + [c], responses + [r]) ==
              if WellFormed(c) && !r.TooMany? then LetThrough(checks, responses) + [AskOf(c)]
              else LetThrough(checks, responses)
  {
    hide WellFormed, JoinHostPort;
    assert (checks + [c])[..|checks|] == checks && (responses + [r])[..|responses|] == responses;
  }

  lemma AdmittedOneMore(cfg: Config, reqs: seq<Request>, r: Request)
    ensures var (st, answers) := Run(cfg, reqs, true);
            var (st', a) := Step(cfg, st, r, true);
            && Run(cfg, reqs + [r], true) == (st', answers + [a])
            && AdmittedIn(reqs + [r], answers + [a]) == Enter(AdmittedIn(reqs, answers), r, a)
  {
    hide Step;
    var answers, a := Run(cfg, reqs, true).1, Step(cfg, Run(cfg, reqs, true).0, r, true).1;
    assert (reqs + [r])[..|reqs|] == reqs && (answers + [a])[..|reqs|] == answers;
  }

  lemma FollowsOneMore(cfg: Config, left: Option<State>, checks: seq<Check>, responses: seq<Response>,
                       c: Check, r: Response, left': Option<State>)
    requires Follows(cfg, left, checks, responses)
    requires r.BadRequest? <==> !WellFormed(c)
    requires r.BadRequest? ==> left' == left
    requires !r.BadRequest? ==>
               var (st, a) := Step(cfg, left.value, AskOf(c), true);
               left' == Some(st) && (r.TooMany? <==> a.Denied?)
    ensures Follows(cfg, left', checks + [c], responses + [r])
  {
    hide Step, WellFormed, AskOf, Asks, LetThrough, Run, AdmittedIn;
    AsksOneMore(checks, c);
    LetThroughOneMore(checks, responses, c, r);
    if WellFormed(c) {
      var reqs, req := Asks(checks), AskOf(c);
      var (st, answers) := Run(cfg, reqs, true);
      var (st', a) := Step(cfg, st, req, true);
      AdmittedOneMore(cfg, reqs, req);
      assert left' == Some(st') && Run(cfg, reqs + [req], true) == (st', answers + [a]);
      assert Asks(checks + [c]) == reqs + [req];
      assert LetThrough(checks + [c], responses + [r]) == Enter(LetThrough(checks, responses), req, a);
    }
  }

  method HandleChecks(server: Server, checks: seq<Check>) returns (responses: seq<Response>)
    requires server.Valid() && server.limiter != null && server.limiter.enabled
    requires LimiterValue(server.limiter) == Some(Initial(server.limiter.cfg))
    requires forall i :: 0 <= i < |checks| && checks[i].body.Some? ==>
               Plausible(checks[i].world, server.policy, server.guarded, checks[i].body.value.host)
    modifies server`metrics, LimiterRepr(server.limiter)
    ensures server.Valid()
    ensures Follows(server.limiter.cfg, LimiterValue(server.limiter), checks, responses)
  {
    hide Follows, Plausible, LimiterValue, LimiterRepr, Usable, Counted, Step, ValidTarget;
    responses := [];
    NothingFollows(server.limiter.cfg);
    for n := 0 to |checks|
      invariant server.Valid() && fresh(LimiterRepr(server.limiter) - old(LimiterRepr(server.limiter)))
      invariant Follows(server.limiter.cfg, LimiterValue(server.limiter), checks[..n], responses)
    {
      assert checks[..n + 1] == checks[..n] + [checks[n]];
      ghost var left := LimiterValue(server.limiter);
      AskedIsStep(server.limiter, checks[n]);
      label before:
      var r := server.HandleCheckTcp(checks[n].body, checks[n].world);
      assert forall o :: o in LimiterRepr(server.limiter) && o !in old@before(LimiterRepr(server.limiter)) ==>
        fresh@before(o);
      FollowsOneMore(server.limiter.cfg, left, checks[..n], responses, checks[n], r, LimiterValue(server.limiter));
      responses := responses + [r];
    }
    assert checks[..|checks|] == checks;
  }

  lemma NothingFollows(cfg: Config)
    ensures Follows(cfg, Some(Initial(cfg)), [], [])
  {
  }

  lemma AskedIsStep(l: RateLimiter.Limiter?, c: Check)
    requires l != null && l.enabled && Usable(l)
    ensures LimiterValue(l).Some?
    ensures WellFormed(c) ==>
              var r := AskOf(c);
              var (st, a) := Step(l.cfg, LimiterValue(l).value, r, true);
              Asked(l, r.target, r.at) == (Some(st), a)
  {
  }

  /**
   In any window, the checks of one target that a server lets through to the dial are at most the
   limiter's burst plus its rate times the length of the window.
   */
  lemma ChecksWithinAllowance(cfg: Config, left: Option<State>, checks: seq<Check>, responses: seq<Response>,
                              host: string, port: nat, from: real, to: real)
    requires Follows(cfg, left, checks, responses)
    requires Chronological(Asks(checks)) && EvictionSafe(cfg, true) && cfg.target.Live() && from <= to
    ensures var key := JoinHostPort(host, port);
            CountWithin(Times(ByTarget(key), LetThrough(checks, responses)), from, to) as real
            <= cfg.target.burst as real + cfg.target.rate * (to - from)
  {
    hide Asks, LetThrough, Run, AdmittedIn, Times, CountWithin, Chronological, EvictionSafe, JoinHostPort;
    NoWindowExceedsItsAllowance(cfg, Asks(checks), true, ByTarget(JoinHostPort(host, port)), from, to);
  }
}
