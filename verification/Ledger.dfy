/**
 The reference the limiter is compared with: nothing but the list of requests admitted so far.
 It has no buckets, no keys to create or evict, and no tokens to roll back; the level of a
 dimension is computed from the times of its admitted requests, and `Conforms` says the same
 thing without levels, by counting requests in windows.
 */
module Ledger {
  import opened TokenBucket
  import opened LimiterModel

  // The dimension of one user, of one target, or of the whole process.
  datatype Dim = ByUser(key: string) | ByTarget(key: string) | Everyone {
    predicate Concerns(r: Request) {
      match this
      case ByUser(k) => r.user == k
      case ByTarget(k) => r.target == k
      case Everyone => true
    }

    function ScopeIn(cfg: Config): Scope {
      match this
      case ByUser(_) => cfg.user
      case ByTarget(_) => cfg.target
      case Everyone => cfg.global
    }
  }

  // One of the two keyed scopes.
  datatype Facet = Users | Targets {
    function ScopeIn(cfg: Config): Scope {
      if Users? then cfg.user else cfg.target
    }

    function KeyOf(r: Request): string {
      if Users? then r.user else r.target
    }

    function BucketsIn(st: State): map<string, Slot> {
      if Users? then st.users else st.targets
    }

    function DimOf(k: string): Dim {
      if Users? then ByUser(k) else ByTarget(k)
    }

    function Other(): Facet {
      if Users? then Targets else Users
    }
  }

  // When the requests of one dimension came, oldest first.
  function Times(d: Dim, reqs: seq<Request>): seq<real> {
    if reqs == [] then []
    else
      var earlier, r := Times(d, reqs[..|reqs| - 1]), reqs[|reqs| - 1];
      if d.Concerns(r) then earlier + [r.at] else earlier
  }

  predicate Before(times: seq<real>, t: real) {
    times == [] || times[|times| - 1] <= t
  }

  predicate Ascending(times: seq<real>) {
    times == [] ||
    (Ascending(times[..|times| - 1]) && Before(times[..|times| - 1], times[|times| - 1]))
  }

  // The level at time t of a bucket that granted exactly the requests at `times`.
  function LevelAfter(s: Scope, times: seq<real>, t: real): real {
    if times == [] then s.burst as real
    else
      var last := times[|times| - 1];
      Min(s.burst as real, LevelAfter(s, times[..|times| - 1], last) - 1.0 + Accrued(s, t) - Accrued(s, last))
  }

  function CountSince(times: seq<real>, w: real): nat {
    if times == [] then 0
    else CountSince(times[..|times| - 1], w) + (if times[|times| - 1] >= w then 1 else 0)
  }

  function CountWithin(times: seq<real>, from: real, to: real): nat {
    if times == [] then 0
    else
      CountWithin(times[..|times| - 1], from, to)
      + (if from <= times[|times| - 1] <= to then 1 else 0)
  }

  // Counting one more request now keeps every window that ends now within the allowance.
  ghost predicate Conforms(s: Scope, times: seq<real>, now: real) {
    forall w: real :: w <= now ==>
      (CountSince(times, w) + 1) as real <= s.burst as real + Accrued(s, now) - Accrued(s, w)
  }

  // The answer as a function of the admitted requests alone.
  function LedgerAnswer(cfg: Config, ledger: seq<Request>, r: Request): Answer {
    Judge(cfg,
          LevelAfter(cfg.user, Times(ByUser(r.user), ledger), r.at),
          LevelAfter(cfg.target, Times(ByTarget(r.target), ledger), r.at),
          LevelAfter(cfg.global, Times(Everyone, ledger), r.at))
  }

  // How long a request would have to wait, without the cap.
  function LedgerWait(cfg: Config, ledger: seq<Request>, r: Request): real {
    LongestWait(cfg,
                LevelAfter(cfg.user, Times(ByUser(r.user), ledger), r.at),
                LevelAfter(cfg.target, Times(ByTarget(r.target), ledger), r.at),
                LevelAfter(cfg.global, Times(Everyone, ledger), r.at))
  }

  function Enter(ledger: seq<Request>, r: Request, a: Answer): seq<Request> {
    if a.Admitted? then ledger + [r] else ledger
  }

  type Rule = (seq<Request>, Request) -> Answer

  // A whole run of a rule that sees nothing but the requests admitted so far: those requests
  // and the answers.
  function Replay(rule: Rule, reqs: seq<Request>): (r: (seq<Request>, seq<Answer>))
    ensures |r.1| == |reqs|
  {
    if reqs == [] then ([], [])
    else
      var (ledger, answers) := Replay(rule, reqs[..|reqs| - 1]);
      var a := rule(ledger, reqs[|reqs| - 1]);
      (Enter(ledger, reqs[|reqs| - 1], a), answers + [a])
  }

  function LedgerRule(cfg: Config): Rule {
    (ledger, r) => LedgerAnswer(cfg, ledger, r)
  }

  function LedgerRun(cfg: Config, reqs: seq<Request>): (seq<Request>, seq<Answer>) {
    Replay(LedgerRule(cfg), reqs)
  }

  // ---------------------------------------------------------------------------------------
  // Levels and windows

  lemma {:induction false} LevelBelowEveryWindow(s: Scope, times: seq<real>, t: real, w: real)
    requires s.Enabled() && Ascending(times) && Before(times, t) && w <= t
    ensures LevelAfter(s, times, t) <= s.burst as real + Accrued(s, t) - Accrued(s, w) - CountSince(times, w) as real
  {
    if times == [] || times[|times| - 1] < w {
      NothingSince(times, w);
      AccruedMonotone(s, w, t);
    } else {
      var init, last := times[..|times| - 1], times[|times| - 1];
      LevelBelowEveryWindow(s, init, last, w);
      assert CountSince(times, w) as real == CountSince(init, w) as real + 1.0;
    }
  }

  lemma {:induction false} NothingSince(times: seq<real>, w: real)
    requires Ascending(times) && (times == [] || times[|times| - 1] < w)
    ensures CountSince(times, w) == 0
  {
    if times != [] {
      NothingSince(times[..|times| - 1], w);
    }
  }

  lemma {:induction false} LevelReachedByAWindow(s: Scope, times: seq<real>, t: real) returns (w: real)
    requires s.Enabled() && Ascending(times) && Before(times, t)
    ensures w <= t
    ensures LevelAfter(s, times, t) >= s.burst as real + Accrued(s, t) - Accrued(s, w) - CountSince(times, w) as real
  {
    w := t;
    if LevelAfter(s, times, t) == s.burst as real {
    } else {
      var init, last := times[..|times| - 1], times[|times| - 1];
      w := LevelReachedByAWindow(s, init, last);
      assert CountSince(times, w) == CountSince(init, w) + 1;
    }
  }

  lemma ConformsGivesLevel(s: Scope, times: seq<real>, now: real)
    requires s.Enabled() && Ascending(times) && Before(times, now)
    requires Conforms(s, times, now)
    ensures LevelAfter(s, times, now) >= 1.0
  {
    var w := LevelReachedByAWindow(s, times, now);
    assert (CountSince(times, w) + 1) as real == CountSince(times, w) as real + 1.0;
  }

  /** A whole token is there exactly when one more request keeps every window within bounds. */
  lemma LevelIffConforms(s: Scope, times: seq<real>, now: real)
    requires s.Enabled() && Ascending(times) && Before(times, now)
    ensures LevelAfter(s, times, now) >= 1.0 <==> Conforms(s, times, now)
  {
    if LevelAfter(s, times, now) >= 1.0 {
      forall w: real | w <= now
        ensures (CountSince(times, w) + 1) as real <= s.burst as real + Accrued(s, now) - Accrued(s, w)
      {
        LevelBelowEveryWindow(s, times, now, w);
      }
    } else if Conforms(s, times, now) {
      ConformsGivesLevel(s, times, now);
    }
  }

  // A sequence of times at each of which the preceding ones left room.
  ghost predicate AllConform(s: Scope, times: seq<real>) {
    forall i :: 0 <= i < |times| ==> Conforms(s, times[..i], times[i])
  }

  lemma PrefixConforms(s: Scope, times: seq<real>)
    requires AllConform(s, times) && times != []
    ensures AllConform(s, times[..|times| - 1])
    ensures Conforms(s, times[..|times| - 1], times[|times| - 1])
  {
    var init := times[..|times| - 1];
    forall i | 0 <= i < |init|
      ensures Conforms(s, init[..i], init[i])
    {
      assert init[..i] == times[..i];
    }
  }

  lemma WindowWidens(s: Scope, times: seq<real>, from: real, now: real, to: real)
    requires s.Enabled() && Conforms(s, times, now) && from <= now <= to
    ensures (CountSince(times, from) + 1) as real <= s.burst as real + Accrued(s, to) - Accrued(s, from)
  {
    AccruedMonotone(s, now, to);
  }

  lemma {:induction false} WindowBound(s: Scope, times: seq<real>, from: real, to: real)
    requires s.Live() && Ascending(times) && AllConform(s, times) && from <= to
    ensures CountWithin(times, from, to) as real <= s.burst as real + Accrued(s, to) - Accrued(s, from)
  {
    if times == [] {
      AccruedMonotone(s, from, to);
      assert CountWithin(times, from, to) as real == 0.0 && s.burst as real >= 1.0;
    } else {
      var init, last := times[..|times| - 1], times[|times| - 1];
      PrefixConforms(s, times);
      if from <= last <= to {
        CountWithinAscending(init, from, to, last);
        WindowWidens(s, init, from, last, to);
      } else {
        WindowBound(s, init, from, to);
      }
    }
  }

  lemma {:induction false} CountWithinAscending(times: seq<real>, from: real, to: real, last: real)
    requires Ascending(times) && Before(times, last) && last <= to
    ensures CountWithin(times, from, to) == CountSince(times, from)
  {
    if times != [] {
      CountWithinAscending(times[..|times| - 1], from, to, last);
    }
  }

  // ---------------------------------------------------------------------------------------
  // Times of a dimension

  lemma {:induction false} TimesAscend(d: Dim, reqs: seq<Request>)
    requires Chronological(reqs)
    ensures Ascending(Times(d, reqs)) && Before(Times(d, reqs), Now(reqs)) && 0.0 <= Now(reqs)
  {
    if reqs != [] {
      TimesAscend(d, reqs[..|reqs| - 1]);
    }
  }

  lemma TimesEntered(d: Dim, ledger: seq<Request>, r: Request)
    ensures Times(d, ledger + [r]) == if d.Concerns(r) then Times(d, ledger) + [r.at] else Times(d, ledger)
  {
    assert (ledger + [r])[..|ledger|] == ledger;
  }

  // The level depends on time only through the refill.
  lemma LedgerLevelGrows(s: Scope, times: seq<real>, now: real, t: real)
    requires s.Enabled() && now <= t
    ensures LevelAfter(s, times, t) == Min(s.burst as real, LevelAfter(s, times, now) + Accrued(s, t) - Accrued(s, now))
  {
    AccruedMonotone(s, now, t);
    if times != [] {
      var last := times[|times| - 1];
    }
  }
}
