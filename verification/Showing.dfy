/**
 When evictions show.  A run that uses one key of a keyed scope, and in the other scope a new key for
 every call, is given by the times of its calls.  If those drain the key's bucket, leave it idle for
 longer than the horizon and come back before it has refilled, the evicting limiter admits a call that
 the other one refuses.
 */
module Showing {
  import opened TokenBucket
  import opened LimiterModel
  import opened Ledger
  import opened LimiterRuns
  import opened LimiterTheorems
  import opened Paces

  // A validated limiter with the scope of f on; the others may be on as well.
  predicate KeyedBy(cfg: Config, f: Facet) {
    Sound(cfg) && f.ScopeIn(cfg).Enabled()
  }

  const KEY := "k"

  // A key for the other scope that no earlier call of a run has used.
  function Fresh(n: nat): (k: string)
    ensures |k| == n
  {
    seq(n, i => 'x')
  }

  // The n-th call of a run that always uses the same key in f.
  function Call(f: Facet, n: nat, t: real): (r: Request)
    ensures r.at == t && f.KeyOf(r) == KEY && |f.Other().KeyOf(r)| == n
  {
    if f.Users? then Request(KEY, Fresh(n), t) else Request(Fresh(n), KEY, t)
  }

  function CallsAt(f: Facet, ts: seq<real>): (reqs: seq<Request>)
    ensures |reqs| == |ts|
  {
    if ts == [] then [] else CallsAt(f, ts[..|ts| - 1]) + [Call(f, |ts| - 1, ts[|ts| - 1])]
  }

  function Latest(ts: seq<real>): real {
    if ts == [] then 0.0 else ts[|ts| - 1]
  }

  predicate Clock(ts: seq<real>) {
    ts == [] || (Clock(ts[..|ts| - 1]) && Latest(ts[..|ts| - 1]) <= ts[|ts| - 1])
  }

  lemma OneMoreCall(f: Facet, ts: seq<real>, t: real)
    ensures CallsAt(f, ts + [t]) == CallsAt(f, ts) + [Call(f, |ts|, t)]
    ensures Clock(ts + [t]) <==> Clock(ts) && Latest(ts) <= t
    ensures Latest(ts + [t]) == t
  {
    hide Call;
    assert (ts + [t])[..|ts|] == ts;
  }

  lemma {:induction false} CallsChronological(f: Facet, ts: seq<real>)
    requires Clock(ts)
    ensures Chronological(CallsAt(f, ts)) && Now(CallsAt(f, ts)) == Latest(ts) && 0.0 <= Latest(ts)
  {
    hide Call;
    if ts != [] {
      var n := |ts| - 1;
      CallsChronological(f, ts[..n]);
      var earlier := CallsAt(f, ts[..n]);
      assert CallsAt(f, ts)[..n] == earlier;
    }
  }

  // One more call, for a run of the limiter and for the ledger.

  lemma RunOfOneMore(f: Facet, cfg: Config, ts: seq<real>, t: real, evicting: bool)
    ensures var (st, answers) := Run(cfg, CallsAt(f, ts), evicting);
            var (st', a) := Step(cfg, st, Call(f, |ts|, t), evicting);
            Run(cfg, CallsAt(f, ts + [t]), evicting) == (st', answers + [a])
  {
    hide Call, CallsAt, Step;
    OneMoreCall(f, ts, t);
    var r := CallsAt(f, ts + [t]);
    assert r[..|r| - 1] == CallsAt(f, ts);
  }

  lemma LedgerOfOneMore(f: Facet, cfg: Config, ts: seq<real>, t: real)
    ensures var (ledger, answers) := LedgerRun(cfg, CallsAt(f, ts));
            var a := LedgerAnswer(cfg, ledger, Call(f, |ts|, t));
            LedgerRun(cfg, CallsAt(f, ts + [t])) == (Enter(ledger, Call(f, |ts|, t), a), answers + [a])
  {
    hide Call, CallsAt, LedgerAnswer;
    OneMoreCall(f, ts, t);
    var r := CallsAt(f, ts + [t]);
    assert r[..|r| - 1] == CallsAt(f, ts);
  }

  // ---------------------------------------------------------------------------------------
  // Which times were granted

  // Only the last n of the answers are claimed.
  ghost predicate LastAdmitted(answers: seq<Answer>, n: nat) {
    n <= |answers| && forall i :: |answers| - n <= i < |answers| ==> answers[i].Admitted?
  }

  lemma LastAdmittedBefore(answers: seq<Answer>, a: Answer, n: nat)
    ensures LastAdmitted(answers + [a], n + 1) <==> a.Admitted? && LastAdmitted(answers, n)
  {
    var longer := answers + [a];
    if LastAdmitted(longer, n + 1) {
      assert longer[|answers|] == a;
      forall i | |answers| - n <= i < |answers|
        ensures answers[i].Admitted?
      {
        assert longer[i] == answers[i];
      }
    }
  }

  // All requests of a ledger use the key, and none the longer keys of the other scope.
  ghost predicate OnlyKey(f: Facet, ledger: seq<Request>, n: nat) {
    && Times(f.DimOf(KEY), ledger) == Times(Everyone, ledger)
    && forall k: string :: |k| >= n ==> Times(f.Other().DimOf(k), ledger) == []
  }

  lemma OnlyKeyEntered(f: Facet, ledger: seq<Request>, n: nat, t: real)
    requires OnlyKey(f, ledger, n)
    ensures OnlyKey(f, ledger, n + 1) && OnlyKey(f, ledger + [Call(f, n, t)], n + 1)
    ensures Times(Everyone, ledger + [Call(f, n, t)]) == Times(Everyone, ledger) + [t]
  {
    hide Call, Times;
    var r := Call(f, n, t);
    TimesEntered(Everyone, ledger, r);
    TimesEntered(f.DimOf(KEY), ledger, r);
    forall k: string | |k| >= n + 1
      ensures Times(f.Other().DimOf(k), ledger + [r]) == []
    {
      TimesEntered(f.Other().DimOf(k), ledger, r);
    }
  }

  // The answer to one more call depends on the granted times only.
  predicate Room(f: Facet, cfg: Config, granted: seq<real>, t: real) {
    && LevelAfter(f.ScopeIn(cfg), granted, t) >= 1.0
    && (cfg.global.Enabled() ==> LevelAfter(cfg.global, granted, t) >= 1.0)
  }

  lemma LedgerAnswersByRoom(f: Facet, cfg: Config, ledger: seq<Request>, n: nat, t: real)
    requires KeyedBy(cfg, f) && OnlyKey(f, ledger, n)
    ensures LedgerAnswer(cfg, ledger, Call(f, n, t)).Admitted? <==> Room(f, cfg, Times(Everyone, ledger), t)
  {
    hide Times;
    var k := f.Other().KeyOf(Call(f, n, t));
    assert Times(f.Other().DimOf(k), ledger) == [];
  }

  // After calls at the times ts the ledger has requests at the times `granted`.
  ghost predicate Granted(f: Facet, cfg: Config, ts: seq<real>, granted: seq<real>) {
    var ledger := LedgerRun(cfg, CallsAt(f, ts)).0;
    OnlyKey(f, ledger, |ts|) && Times(Everyone, ledger) == granted
  }

  lemma NoneGranted(f: Facet, cfg: Config)
    ensures Granted(f, cfg, [], []) && CallsAt(f, []) == []
  {
  }

  lemma GrantedOneMore(f: Facet, cfg: Config, ts: seq<real>, granted: seq<real>, t: real)
    requires KeyedBy(cfg, f) && Granted(f, cfg, ts, granted)
    ensures var answers, longer := LedgerRun(cfg, CallsAt(f, ts)).1, LedgerRun(cfg, CallsAt(f, ts + [t])).1;
            && longer == answers + [longer[|ts|]]
            && (longer[|ts|].Admitted? <==> Room(f, cfg, granted, t))
    ensures Granted(f, cfg, ts + [t], if Room(f, cfg, granted, t) then granted + [t] else granted)
  {
    hide Call, CallsAt, LedgerAnswer, Times, OnlyKey, Room, Replay;
    var ledger := LedgerRun(cfg, CallsAt(f, ts)).0;
    LedgerOfOneMore(f, cfg, ts, t);
    OnlyKeyEntered(f, ledger, |ts|, t);
    LedgerAnswersByRoom(f, cfg, ledger, |ts|, t);
  }

  lemma {:induction false} SomeGranted(f: Facet, cfg: Config, ts: seq<real>) returns (granted: seq<real>)
    requires KeyedBy(cfg, f) && Clock(ts)
    ensures Granted(f, cfg, ts, granted) && |granted| <= |ts|
    ensures Ascending(granted) && Before(granted, Latest(ts))
  {
    hide Granted, CallsAt, Room;
    if ts == [] {
      granted := [];
      NoneGranted(f, cfg);
    } else {
      var n := |ts| - 1;
      assert ts == ts[..n] + [ts[n]];
      granted := SomeGranted(f, cfg, ts[..n]);
      GrantedOneMore(f, cfg, ts[..n], granted, ts[n]);
      if Room(f, cfg, granted, ts[n]) {
        assert (granted + [ts[n]])[..|granted|] == granted;
        granted := granted + [ts[n]];
      }
    }
  }

  // Later calls that each find room are all granted.
  lemma {:induction false} AllGranted(f: Facet, cfg: Config, ts: seq<real>, granted: seq<real>, late: seq<real>)
    requires KeyedBy(cfg, f) && Granted(f, cfg, ts, granted)
    requires forall i :: 0 <= i < |late| ==> Room(f, cfg, granted + late[..i], late[i])
    ensures Granted(f, cfg, ts + late, granted + late)
  {
    hide Granted, CallsAt, Room;
    if late == [] {
      assert ts + late == ts && granted + late == granted;
    } else {
      var n := |late| - 1;
      assert forall i :: 0 <= i < n ==> late[..n][..i] == late[..i];
      AllGranted(f, cfg, ts, granted, late[..n]);
      GrantedOneMore(f, cfg, ts + late[..n], granted + late[..n], late[n]);
      assert ts + late == ts + late[..n] + [late[n]] && granted + late == granted + late[..n] + [late[n]];
    }
  }

  // And if all of them are granted, the last one found room.
  lemma {:induction false} GrantedFoundRoom(f: Facet, cfg: Config, ts: seq<real>, granted: seq<real>, late: seq<real>)
    requires KeyedBy(cfg, f) && Granted(f, cfg, ts, granted)
    requires LastAdmitted(LedgerRun(cfg, CallsAt(f, ts + late)).1, |late|)
    ensures Granted(f, cfg, ts + late, granted + late)
    ensures late != [] ==> Room(f, cfg, granted + late[..|late| - 1], late[|late| - 1])
  {
    hide Granted, CallsAt, Room, LastAdmitted, LedgerRun;
    if late == [] {
      assert ts + late == ts && granted + late == granted;
    } else {
      var n := |late| - 1;
      var earlier := ts + late[..n];
      assert ts + late == earlier + [late[n]] && granted + late == granted + late[..n] + [late[n]];
      LastGranted(f, cfg, earlier, late[n], n);
      GrantedFoundRoom(f, cfg, ts, granted, late[..n]);
      GrantedOneMore(f, cfg, earlier, granted + late[..n], late[n]);
    }
  }

  lemma LastGranted(f: Facet, cfg: Config, ts: seq<real>, t: real, n: nat)
    requires LastAdmitted(LedgerRun(cfg, CallsAt(f, ts + [t])).1, n + 1)
    ensures LastAdmitted(LedgerRun(cfg, CallsAt(f, ts)).1, n)
    ensures LedgerRun(cfg, CallsAt(f, ts + [t])).1[|ts|].Admitted?
  {
    hide CallsAt, Call, LedgerAnswer, LastAdmitted, Replay;
    LedgerOfOneMore(f, cfg, ts, t);
    var answers := LedgerRun(cfg, CallsAt(f, ts)).1;
    LastAdmittedBefore(answers, LedgerRun(cfg, CallsAt(f, ts + [t])).1[|ts|], n);
  }

  // ---------------------------------------------------------------------------------------
  // The evicting limiter

  // A call as the registries and the global bucket see it.
  lemma StepParts(f: Facet, cfg: Config, st: State, r: Request)
    ensures var ticked, (st', a) := Tick(cfg, st, r.at, true), Step(cfg, st, r, true);
            var o := f.Other();
            && st'.calls == ticked.calls == st.calls + 1 && ticked.global == st.global
            && f.BucketsIn(ticked) == (if st'.calls % SWEEP_EVERY == 0 then Sweep(f.BucketsIn(st), r.at, cfg.idleTTL)
                                       else f.BucketsIn(st))
            && f.BucketsIn(st') == Settle(f.ScopeIn(cfg), f.BucketsIn(ticked), f.KeyOf(r), r.at, a.Admitted?)
            && o.BucketsIn(st').Keys <= o.BucketsIn(st).Keys + {o.KeyOf(r)}
            && (a.Admitted? <==>
                  && Grants(f.ScopeIn(cfg), Standing(f.ScopeIn(cfg), f.BucketsIn(ticked), f.KeyOf(r), r.at))
                  && Grants(o.ScopeIn(cfg), Standing(o.ScopeIn(cfg), o.BucketsIn(ticked), o.KeyOf(r), r.at))
                  && Grants(cfg.global, LevelAt(cfg.global, st.global, r.at)))
            && o.BucketsIn(ticked).Keys <= o.BucketsIn(st).Keys
  {
    hide LevelAt, Touch, Grants, Wait;
  }

  // After calls at the times ts: how many, what was used until when, and which other keys.
  ghost predicate SeenBy(f: Facet, st: State, ts: seq<real>) {
    && st.calls == |ts|
    && (forall k :: k in f.BucketsIn(st) ==>
          f.BucketsIn(st)[k].seen <= Latest(ts) && f.BucketsIn(st)[k].level.last <= Latest(ts))
    && (forall k :: k in f.Other().BucketsIn(st) ==> |k| < |ts|)
  }

  lemma {:induction false} RunIsSeen(f: Facet, cfg: Config, ts: seq<real>)
    requires KeyedBy(cfg, f) && Clock(ts)
    ensures SeenBy(f, Run(cfg, CallsAt(f, ts), true).0, ts)
  {
    hide Run, Step, CallsAt, Call, SeenBy;
    if ts == [] {
      NothingSeen(f, cfg);
    } else {
      var n := |ts| - 1;
      assert ts == ts[..n] + [ts[n]];
      RunIsSeen(f, cfg, ts[..n]);
      RunOfOneMore(f, cfg, ts[..n], ts[n], true);
      OneMoreSeen(f, cfg, Run(cfg, CallsAt(f, ts[..n]), true).0, ts[..n], ts[n]);
    }
  }

  lemma NothingSeen(f: Facet, cfg: Config)
    ensures CallsAt(f, []) == [] && SeenBy(f, Run(cfg, [], true).0, [])
  {
  }

  lemma OneMoreSeen(f: Facet, cfg: Config, st: State, ts: seq<real>, t: real)
    requires KeyedBy(cfg, f) && SeenBy(f, st, ts) && Latest(ts) <= t
    ensures SeenBy(f, Step(cfg, st, Call(f, |ts|, t), true).0, ts + [t])
  {
    hide Step, Call, Tick, LevelAt, Grants;
    StepParts(f, cfg, st, Call(f, |ts|, t));
  }

  // The global bucket is never evicted: it stands where the admitted requests put it.
  lemma {:induction false} GlobalMirrorsAdmitted(cfg: Config, reqs: seq<Request>)
    requires Chronological(reqs)
    ensures var (st, answers) := Run(cfg, reqs, true);
            Mirrors(cfg.global, st.global, Times(Everyone, AdmittedIn(reqs, answers)), Now(reqs))
  {
    if reqs != [] {
      var n := |reqs| - 1;
      var init, r := reqs[..n], reqs[n];
      GlobalMirrorsAdmitted(cfg, init);
      var (st, answers) := Run(cfg, init, true);
      var a := Step(cfg, st, r, true).1;
      assert (answers + [a])[..n] == answers;
      GlobalMirrorsOneMore(cfg, st, AdmittedIn(init, answers), Now(init), r);
      hide Step, Mirrors, Times;
    }
  }

  lemma GlobalMirrorsOneMore(cfg: Config, st: State, ledger: seq<Request>, now: real, r: Request)
    requires Mirrors(cfg.global, st.global, Times(Everyone, ledger), now) && now <= r.at
    ensures var (st', a) := Step(cfg, st, r, true);
            Mirrors(cfg.global, st'.global, Times(Everyone, Enter(ledger, r, a)), r.at)
  {
    MirrorsLater(cfg.global, st.global, Times(Everyone, ledger), now, r.at);
    var take := Step(cfg, st, r, true).1.Admitted?;
    MirrorsTouch(cfg.global, st.global, Times(Everyone, ledger), r.at, take);
    TimesEntered(Everyone, ledger, r);
  }

  // ---------------------------------------------------------------------------------------
  // Late calls, after the key was evicted

  // The key's bucket stands at least where the late calls alone would put it.
  ghost predicate AtLeast(f: Facet, cfg: Config, st: State, late: seq<real>) {
    late != [] ==>
      var s, m, last := f.ScopeIn(cfg), f.BucketsIn(st), late[|late| - 1];
      KEY in m && m[KEY].level.last == last && LevelAfter(s, late, last) <= LevelAt(s, m[KEY].level, last)
  }

  function KeyFound(f: Facet, cfg: Config, st: State, t: real): real {
    Standing(f.ScopeIn(cfg), f.BucketsIn(Tick(cfg, st, t, true)), KEY, t)
  }

  // The first late call finds the key evicted, since it sweeps after a long pause.
  lemma EvictedAtFirst(f: Facet, cfg: Config, st: State, ts: seq<real>, t: real)
    requires KeyedBy(cfg, f) && SeenBy(f, st, ts)
    requires (|ts| + 1) % SWEEP_EVERY == 0 && Latest(ts) + cfg.idleTTL < t
    ensures KeyFound(f, cfg, st, t) == f.ScopeIn(cfg).burst as real
  {
    assert f.BucketsIn(Tick(cfg, st, t, true)) == Sweep(f.BucketsIn(st), t, cfg.idleTTL);
    assert KEY !in f.BucketsIn(Tick(cfg, st, t, true));
  }

  // A later one finds at least what the late calls left, whether or not the key was evicted again.
  lemma FoundAtLeast(f: Facet, cfg: Config, st: State, late: seq<real>, t: real)
    requires KeyedBy(cfg, f) && AtLeast(f, cfg, st, late) && late != [] && late[|late| - 1] <= t
    ensures LevelAfter(f.ScopeIn(cfg), late, t) <= KeyFound(f, cfg, st, t)
  {
    var s, m, last := f.ScopeIn(cfg), f.BucketsIn(st), late[|late| - 1];
    var ticked := f.BucketsIn(Tick(cfg, st, t, true));
    assert KEY in ticked ==> ticked[KEY] == m[KEY];
    LevelGrows(s, m[KEY].level, last, t);
    LedgerLevelGrows(s, late, last, t);
  }

  lemma OneLateCall(f: Facet, cfg: Config, st: State, ts: seq<real>, late: seq<real>, t: real)
    requires KeyedBy(cfg, f) && SeenBy(f, st, ts)
    requires 1.0 <= LevelAfter(f.ScopeIn(cfg), late, t) <= KeyFound(f, cfg, st, t)
    requires cfg.global.Enabled() ==> LevelAt(cfg.global, st.global, t) >= 1.0
    ensures Step(cfg, st, Call(f, |ts|, t), true).1.Admitted?
    ensures AtLeast(f, cfg, Step(cfg, st, Call(f, |ts|, t), true).0, late + [t])
  {
    hide Step, Call, LevelAfter, Tick;
    var r := Call(f, |ts|, t);
    StepParts(f, cfg, st, r);
    assert f.Other().KeyOf(r) !in f.Other().BucketsIn(Tick(cfg, st, t, true));
    LevelAfterCall(f.ScopeIn(cfg), late, t, t);
  }

  ghost predicate LateRoom(f: Facet, cfg: Config, granted: seq<real>, late: seq<real>, t: real) {
    && LevelAfter(f.ScopeIn(cfg), late, t) >= 1.0
    && (cfg.global.Enabled() ==> LevelAfter(cfg.global, granted + late, t) >= 1.0)
  }

  // The times at which the evicting limiter has admitted calls.
  function AdmittedTimes(f: Facet, cfg: Config, ts: seq<real>): seq<real> {
    Times(Everyone, AdmittedIn(CallsAt(f, ts), Run(cfg, CallsAt(f, ts), true).1))
  }

  lemma AdmittedOneMore(f: Facet, cfg: Config, ts: seq<real>, t: real)
    requires Run(cfg, CallsAt(f, ts + [t]), true).1[|ts|].Admitted?
    ensures AdmittedTimes(f, cfg, ts + [t]) == AdmittedTimes(f, cfg, ts) + [t]
  {
    hide Step, Call, CallsAt, Times;
    OneMoreCall(f, ts, t);
    RunOfOneMore(f, cfg, ts, t, true);
    var answers, longer := Run(cfg, CallsAt(f, ts), true).1, Run(cfg, CallsAt(f, ts + [t]), true).1;
    assert longer[..|ts|] == answers && CallsAt(f, ts + [t])[..|ts|] == CallsAt(f, ts);
    TimesEntered(Everyone, AdmittedIn(CallsAt(f, ts), answers), Call(f, |ts|, t));
  }

  lemma GlobalStands(f: Facet, cfg: Config, ts: seq<real>, t: real)
    requires Sound(cfg) && cfg.global.Enabled() && Clock(ts) && Latest(ts) <= t
    ensures LevelAt(cfg.global, Run(cfg, CallsAt(f, ts), true).0.global, t) ==
              LevelAfter(cfg.global, AdmittedTimes(f, cfg, ts), t)
  {
    hide CallsAt, LevelAfter, LevelAt, Run;
    CallsChronological(f, ts);
    GlobalMirrorsAdmitted(cfg, CallsAt(f, ts));
    MirrorsLater(cfg.global, Run(cfg, CallsAt(f, ts), true).0.global, AdmittedTimes(f, cfg, ts), Latest(ts), t);
  }

  lemma {:induction false} LateCallsAdmitted(f: Facet, cfg: Config, ts: seq<real>, granted: seq<real>, late: seq<real>)
    requires KeyedBy(cfg, f) && Clock(ts + late) && (|ts| + 1) % SWEEP_EVERY == 0
    requires late != [] ==> Latest(ts) + cfg.idleTTL < late[0]
    requires AdmittedTimes(f, cfg, ts) == granted
    requires forall i :: 0 <= i < |late| ==> LateRoom(f, cfg, granted, late[..i], late[i])
    ensures var (st, answers) := Run(cfg, CallsAt(f, ts + late), true);
            LastAdmitted(answers, |late|) && AtLeast(f, cfg, st, late)
    ensures AdmittedTimes(f, cfg, ts + late) == granted + late
  {
    hide Run, CallsAt, AtLeast, LateRoom, LastAdmitted, AdmittedTimes, Sound, Clock, Latest;
    if late == [] {
      assert ts + late == ts && granted + late == granted;
      NoLateCalls(f, cfg, ts);
    } else {
      var n := |late| - 1;
      var init, t := late[..n], late[n];
      var earlier := ts + init;
      assert ts + late == earlier + [t] && granted + late == granted + init + [t] && late == init + [t];
      assert forall i :: 0 <= i < n ==> init[..i] == late[..i];
      assert n > 0 ==> init[0] == late[0];
      OneMoreCall(f, earlier, t);
      LateCallsAdmitted(f, cfg, ts, granted, init);
      LateCall(f, cfg, ts, granted, init, t);
    }
  }

  lemma NoLateCalls(f: Facet, cfg: Config, ts: seq<real>)
    ensures LastAdmitted(Run(cfg, CallsAt(f, ts), true).1, 0) && AtLeast(f, cfg, Run(cfg, CallsAt(f, ts), true).0, [])
  {
  }

  lemma LateCall(f: Facet, cfg: Config, ts: seq<real>, granted: seq<real>, init: seq<real>, t: real)
    requires KeyedBy(cfg, f) && Clock(ts + init + [t]) && (|ts| + 1) % SWEEP_EVERY == 0
    requires init == [] ==> Latest(ts) + cfg.idleTTL < t
    requires var (st, answers) := Run(cfg, CallsAt(f, ts + init), true);
             LastAdmitted(answers, |init|) && AtLeast(f, cfg, st, init)
    requires AdmittedTimes(f, cfg, ts + init) == granted + init && LateRoom(f, cfg, granted, init, t)
    ensures var (st, answers) := Run(cfg, CallsAt(f, ts + init + [t]), true);
            LastAdmitted(answers, |init| + 1) && AtLeast(f, cfg, st, init + [t])
    ensures AdmittedTimes(f, cfg, ts + init + [t]) == granted + init + [t]
  {
    hide Run, Step, CallsAt, Call, AtLeast, LastAdmitted, LevelAt, LevelAfter, AdmittedTimes, SeenBy, KeyFound;
    var earlier := ts + init;
    var (st, answers) := Run(cfg, CallsAt(f, earlier), true);
    OneMoreCall(f, earlier, t);
    RunIsSeen(f, cfg, earlier);
    if cfg.global.Enabled() {
      GlobalStands(f, cfg, earlier, t);
    }
    LateLevel(f, cfg, st, ts, init, t);
    OneLateCall(f, cfg, st, earlier, init, t);
    RunOfOneMore(f, cfg, earlier, t, true);
    LastAdmittedBefore(answers, Admitted, |init|);
    AdmittedOneMore(f, cfg, earlier, t);
  }

  lemma LateLevel(f: Facet, cfg: Config, st: State, ts: seq<real>, init: seq<real>, t: real)
    requires KeyedBy(cfg, f) && SeenBy(f, st, ts + init) && AtLeast(f, cfg, st, init)
    requires (|ts| + 1) % SWEEP_EVERY == 0 && Latest(ts + init) <= t
    requires init == [] ==> Latest(ts) + cfg.idleTTL < t
    ensures LevelAfter(f.ScopeIn(cfg), init, t) <= KeyFound(f, cfg, st, t)
  {
    hide KeyFound, SeenBy, AtLeast;
    if init == [] {
      assert ts + init == ts;
      EvictedAtFirst(f, cfg, st, ts, t);
    } else {
      FoundAtLeast(f, cfg, st, init, t);
    }
  }

  // ---------------------------------------------------------------------------------------
  // The two part company

  lemma {:induction false} RunPrefix(cfg: Config, reqs: seq<Request>, i: nat, evicting: bool)
    requires i <= |reqs|
    ensures Run(cfg, reqs, evicting).1[..i] == Run(cfg, reqs[..i], evicting).1
  {
    hide Step;
    if i < |reqs| {
      RunPrefix(cfg, reqs[..|reqs| - 1], i, evicting);
      assert reqs[..|reqs| - 1][..i] == reqs[..i];
    } else {
      assert reqs[..i] == reqs;
    }
  }

  lemma {:induction false} CallsPrefix(f: Facet, ts: seq<real>, late: seq<real>)
    ensures CallsAt(f, ts + late)[..|ts|] == CallsAt(f, ts)
  {
    hide CallsAt, Call;
    if late == [] {
      assert ts + late == ts;
      assert CallsAt(f, ts)[..|ts|] == CallsAt(f, ts);
    } else {
      var n := |late| - 1;
      assert ts + late == ts + late[..n] + [late[n]];
      OneMoreCall(f, ts + late[..n], late[n]);
      CallsPrefix(f, ts, late[..n]);
    }
  }

  lemma ClockPrefix(ts: seq<real>, late: seq<real>)
    requires Clock(ts + late)
    ensures Clock(ts)
    decreases |late|
  {
    if late == [] {
      assert ts + late == ts;
    } else {
      var n := |late| - 1;
      assert (ts + late)[..|ts| + n] == ts + late[..n];
      ClockPrefix(ts, late[..n]);
    }
  }

  /**
   Calls that find room once the key was evicted, the last of which finds none without eviction,
   tell the two limiters apart.
   */
  lemma TheyDiffer(f: Facet, cfg: Config, ts: seq<real>, granted: seq<real>, late: seq<real>)
    requires KeyedBy(cfg, f) && Clock(ts + late) && (|ts| + 1) % SWEEP_EVERY == 0
    requires late != [] && Latest(ts) + cfg.idleTTL < late[0] && Granted(f, cfg, ts, granted)
    requires forall i :: 0 <= i < |late| ==> LateRoom(f, cfg, granted, late[..i], late[i])
    requires LevelAfter(f.ScopeIn(cfg), granted + late[..|late| - 1], late[|late| - 1]) < 1.0
    ensures var reqs := CallsAt(f, ts + late);
            Chronological(reqs) && Run(cfg, reqs, true).1 != Run(cfg, reqs, false).1
  {
    hide Run, CallsAt, Call, LateRoom, LastAdmitted, LevelAfter, Granted, Clock;
    var reqs := CallsAt(f, ts + late);
    CallsChronological(f, ts + late);
    RunRefinesLedger(cfg, reqs, false);
    if Run(cfg, reqs, true).1 == Run(cfg, reqs, false).1 {
      ClockPrefix(ts, late);
      SameSoFar(f, cfg, ts, late, granted);
      LateCallsAdmitted(f, cfg, ts, granted, late);
      GrantedFoundRoom(f, cfg, ts, granted, late);
    }
  }

  lemma SameSoFar(f: Facet, cfg: Config, ts: seq<real>, late: seq<real>, granted: seq<real>)
    requires Clock(ts) && Granted(f, cfg, ts, granted)
    requires Run(cfg, CallsAt(f, ts + late), true).1 == Run(cfg, CallsAt(f, ts + late), false).1
    ensures AdmittedTimes(f, cfg, ts) == granted
  {
    hide Run, CallsAt, Call, Clock;
    var reqs, all := CallsAt(f, ts), CallsAt(f, ts + late);
    CallsPrefix(f, ts, late);
    RunPrefix(cfg, all, |ts|, true);
    RunPrefix(cfg, all, |ts|, false);
    CallsChronological(f, ts);
    RunRefinesLedger(cfg, reqs, false);
    ReplayKeepsAdmitted(LedgerRule(cfg), reqs);
  }
}
