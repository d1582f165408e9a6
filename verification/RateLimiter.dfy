/**
 The limiter as the program runs it: mutable buckets in lazily filled registries, one `Reserve`
 that takes a token from every bucket and cancels all of them if any would make it wait, and a
 sweep every 256 calls.  `Reserve` is proved to compute `LimiterModel.Step`.
 */
module RateLimiter {
  import opened TokenBucket
  import opened LimiterModel

  class Entry {
    const lim: Bucket
    var seen: real

    constructor (lim: Bucket, seen: real)
      ensures this.lim == lim && this.seen == seen
    {
      this.lim, this.seen := lim, seen;
    }
  }

  class Registry {
    const scope: Scope
    var buckets: map<string, Entry>
    ghost var Repr: set<object>

    ghost predicate Valid()
      reads this, Repr
    {
      && this in Repr
      && scope.Enabled()
      && (forall k :: k in buckets ==>
            && buckets[k] in Repr && buckets[k].lim in Repr
            && buckets[k].lim.scope == scope && buckets[k].lim.key == k)
    }

    ghost function Contents(): map<string, Slot>
      requires Valid()
      reads this, Repr
    {
      map k | k in buckets :: Slot(buckets[k].lim.Value(), buckets[k].seen)
    }

    constructor (scope: Scope)
      requires scope.Enabled()
      ensures Valid() && fresh(Repr) && this.scope == scope && Contents() == map[]
    {
      this.scope := scope;
      buckets, Repr := map[], {this};
    }

    // Finds or creates the bucket of a key and stamps it.
    method Get(key: string, now: real) returns (lim: Bucket)
      requires Valid()
      modifies this, Repr
      ensures Valid() && fresh(Repr - old(Repr)) && old(Repr) <= Repr
      ensures key in buckets && lim == buckets[key].lim
      ensures lim.Value() == Held(scope, old(Contents()), key)
      ensures Contents() == old(Contents())[key := Slot(lim.Value(), now)]
    {
      if key !in buckets {
        var full := new Bucket(scope, key);
        var b := new Entry(full, now);
        buckets := buckets[key := b];
        Repr := Repr + {b, full};
      } else {
        buckets[key].seen := now;
      }
      lim := buckets[key].lim;
    }

    // Spending or returning tokens of one bucket changes that key's slot and nothing else.
    twostate lemma OneBucketChanged(key: string)
      requires old(Valid()) && key in old(buckets)
      requires forall o: object :: o in old(Repr) && o != old(buckets[key].lim) ==> unchanged(o)
      ensures Valid() && buckets == old(buckets)
      ensures key in old(Contents()) && old(Contents())[key].level == old(buckets[key].lim.Value())
      ensures Contents() == old(Contents())[key := Slot(buckets[key].lim.Value(), old(Contents())[key].seen)]
    {
      assert unchanged(this);
      forall k | k in buckets
        ensures unchanged(buckets[k])
        ensures k != key ==> unchanged(buckets[k].lim)
      {
      }
    }

    // Deletes the entries not seen within the horizon.
    method DropIdle(now: real, ttl: real)
      modifies this`buckets
      ensures buckets == map k | k in old(buckets) && now - old(buckets)[k].seen <= ttl :: old(buckets)[k]
    {
      var rest := buckets.Keys;
      ghost var all := buckets;
      while rest != {}
        invariant rest <= all.Keys
        invariant buckets == map k | k in all && (k in rest || now - all[k].seen <= ttl) :: all[k]
        decreases |rest|
      {
        var k :| k in rest;
        if now - buckets[k].seen > ttl {
          buckets := buckets - {k};
        }
        rest := rest - {k};
      }
    }

    method EvictIdle(now: real, ttl: real)
      requires Valid()
      modifies this
      ensures Valid() && Repr == old(Repr)
      ensures Contents() == Sweep(old(Contents()), now, ttl)
    {
      DropIdle(now, ttl);
    }
  }

  // A scope that is off has no registry and no bucket.

  ghost function ReprOf(reg: Registry?): set<object>
    reads reg
  {
    if reg == null then {} else reg.Repr
  }

  ghost predicate Serves(reg: Registry?, s: Scope)
    reads reg, ReprOf(reg)
    ensures Serves(reg, s) && reg != null ==> reg in ReprOf(reg)
  {
    (reg == null && !s.Enabled()) || (reg != null && reg.Valid() && reg.scope == s)
  }

  ghost function ContentsOf(reg: Registry?, s: Scope): map<string, Slot>
    requires Serves(reg, s)
    reads reg, ReprOf(reg)
  {
    if reg == null then map[] else reg.Contents()
  }

  ghost function BucketSet(b: Bucket?): set<object> {
    if b == null then {} else {b}
  }

  ghost predicate Meters(b: Bucket?, s: Scope) {
    (b == null && !s.Enabled()) || (b != null && b.scope == s && s.Enabled())
  }

  ghost function ValueOf(b: Bucket?, s: Scope): Level
    requires Meters(b, s)
    reads b
  {
    if b == null then Full(s) else b.Value()
  }

  // Brings the bucket of a scope up to date, if the scope is on.
  function TouchIfOn(s: Scope, l: Level, now: real, take: bool): Level {
    if s.Enabled() then Touch(s, l, now, take) else l
  }

  // What the buckets considered so far say: how long to wait, and whether to refuse.
  datatype Opinion = Opinion(maxDelay: real, rejected: bool)

  function Heard(o: Opinion, s: Scope, level: real, maxWait: real): Opinion {
    Opinion(Max(o.maxDelay, Wait(s, level, maxWait)), o.rejected || !Grants(s, level))
  }

  function Decide(o: Opinion, maxWait: real): Answer {
    if o.rejected then Denied(Min(o.maxDelay, maxWait)) else Admitted
  }

  lemma OpinionsAddUp(cfg: Config, user: real, target: real, global: real)
    requires cfg.maxWait > 0.0
    ensures var o := Heard(Heard(Heard(Opinion(0.0, false), cfg.user, user, cfg.maxWait),
                                 cfg.target, target, cfg.maxWait),
                           cfg.global, global, cfg.maxWait);
            Decide(o, cfg.maxWait) == Judge(cfg, user, target, global)
  {
    WaitIffRefused(cfg.user, user, cfg.maxWait);
    WaitIffRefused(cfg.target, target, cfg.maxWait);
    WaitIffRefused(cfg.global, global, cfg.maxWait);
  }

  ghost function Lims(taken: seq<Reservation>): set<object> {
    set r | r in taken :: r.lim
  }

  // Reservations on different buckets, each possible exactly if its bucket can hold a token.
  ghost predicate Separate(taken: seq<Reservation>) {
    && (forall i :: 0 <= i < |taken| ==> taken[i].lim.scope.Enabled() && taken[i].ok == (taken[i].lim.scope.burst >= 1))
    && (forall i, j :: 0 <= i < j < |taken| ==> taken[i].lim != taken[j].lim)
  }

  // What a cancelled reservation leaves behind.
  function Undo(s: Scope, l: Level, now: real): Level {
    if s.burst >= 1 then Refund(s, l, now) else l
  }

  ghost function LimFor(reg: Registry?, key: string): set<object>
    reads reg
  {
    if reg == null || key !in reg.buckets then {} else {reg.buckets[key].lim}
  }

  // Cancelling the token taken for a key leaves its bucket up to date and otherwise untouched.
  lemma SettleUndone(s: Scope, m: map<string, Slot>, key: string, now: real)
    requires s.Enabled()
    ensures var taken := Settle(s, m, key, now, true);
            key in taken && taken[key].seen == now
            && taken[key := Slot(Undo(s, taken[key].level, now), now)] == Settle(s, m, key, now, false)
  {
    if s.burst >= 1 {
      RefundUndoesTake(s, Held(s, m, key), now);
    }
  }

  class Limiter {
    const enabled: bool
    const cfg: Config
    const user: Registry?
    const target: Registry?
    const global: Bucket?
    var calls: nat

    ghost function Footprint(): set<object>
      reads this, user, target
    {
      {this} + ReprOf(user) + ReprOf(target) + BucketSet(global)
    }

    ghost predicate Valid()
      reads this, user, target, ReprOf(user), ReprOf(target)
    {
      && cfg.maxWait > 0.0
      && Serves(user, cfg.user) && Serves(target, cfg.target) && Meters(global, cfg.global)
      && this !in ReprOf(user) && this !in ReprOf(target)
      && ReprOf(user) !! ReprOf(target)
      && BucketSet(global) !! ReprOf(user) && BucketSet(global) !! ReprOf(target)
    }

    ghost function Value(): State
      requires Valid()
      reads this, user, target, ReprOf(user), ReprOf(target), global
    {
      State(ContentsOf(user, cfg.user), ContentsOf(target, cfg.target), ValueOf(global, cfg.global), calls)
    }

    // Builds a limiter from a configuration that passed `Check`.
    constructor (enabled: bool, cfg: Config)
      requires Check(enabled, cfg, true).Valid?
      ensures Valid() && fresh(Footprint()) && this.enabled == enabled
      ensures this.cfg == if enabled then Defaulted(cfg) else Off(cfg)
      ensures this.cfg.maxWait == if cfg.maxWait > 0.0 then cfg.maxWait else 60.0
      ensures this.cfg.idleTTL == if cfg.idleTTL > 0.0 then cfg.idleTTL else 600.0
      ensures enabled ==> this.cfg.user == cfg.user && this.cfg.target == cfg.target && this.cfg.global == cfg.global
      ensures !enabled ==> !this.cfg.user.Enabled() && !this.cfg.target.Enabled() && !this.cfg.global.Enabled()
      ensures Value() == Initial(this.cfg)
    {
      var c := if enabled then Defaulted(cfg) else Off(cfg);
      this.enabled, this.cfg, calls := enabled, c, 0;
      var u: Registry?, t: Registry?, g: Bucket? := null, null, null;
      if c.user.Enabled() {
        u := new Registry(c.user);
      }
      if c.target.Enabled() {
        t := new Registry(c.target);
      }
      if c.global.Enabled() {
        g := new Bucket(c.global, "");
      }
      user, target, global := u, t, g;
    }

    // The call counter goes up, and every 256th call sweeps.
    method MaybeEvict(now: real)
      requires Valid()
      modifies this, user, target
      ensures Valid() && Footprint() == old(Footprint())
      ensures Value() == Tick(cfg, old(Value()), now, true)
    {
      calls := calls + 1;
      if calls % SWEEP_EVERY == 0 {
        EvictIdle(now);
      }
    }

    method EvictIdle(now: real)
      requires Valid()
      modifies user, target
      ensures Valid() && ReprOf(user) == old(ReprOf(user)) && ReprOf(target) == old(ReprOf(target))
      ensures ContentsOf(user, cfg.user) == Sweep(old(ContentsOf(user, cfg.user)), now, cfg.idleTTL)
      ensures ContentsOf(target, cfg.target) == Sweep(old(ContentsOf(target, cfg.target)), now, cfg.idleTTL)
    {
      if user != null {
        user.EvictIdle(now, cfg.idleTTL);
      }
      if target != null {
        target.EvictIdle(now, cfg.idleTTL);
      }
    }

    // One bucket's share of a Reserve call: take a token, and note whether that means waiting.
    method Consider(lim: Bucket?, ghost s: Scope, now: real, taken: seq<Reservation>, o: Opinion)
      returns (taken': seq<Reservation>, o': Opinion)
      requires Meters(lim, s) && cfg.maxWait > 0.0 && o.maxDelay >= 0.0
      requires Separate(taken) && BucketSet(lim) !! Lims(taken)
      modifies lim
      ensures ValueOf(lim, s) == TouchIfOn(s, old(ValueOf(lim, s)), now, true)
      ensures o' == Heard(o, s, LevelAt(s, old(ValueOf(lim, s)), now), cfg.maxWait)
      ensures Separate(taken') && Lims(taken') == Lims(taken) + BucketSet(lim)
    {
      taken', o' := taken, o;
      if lim == null {
        return;
      }
      WaitIffRefused(s, LevelAt(s, lim.Value(), now), cfg.maxWait);
      var r := lim.ReserveOne(now);
      taken' := taken + [r];
      forall i | 0 <= i < |taken|
        ensures taken[i].lim != lim
      {
        assert taken[i].lim in Lims(taken);
      }
      if !r.ok {
        o' := o'.(rejected := true);
        if cfg.maxWait > o'.maxDelay {
          o' := o'.(maxDelay := cfg.maxWait);
        }
      } else if r.delay > 0.0 {
        o' := o'.(rejected := true);
        if r.delay > o'.maxDelay {
          o' := o'.(maxDelay := r.delay);
        }
      }
    }

    // The same for the bucket of a key, found or created first.
    method ConsiderHeld(reg: Registry, key: string, now: real, taken: seq<Reservation>, o: Opinion)
      returns (taken': seq<Reservation>, o': Opinion)
      requires reg.Valid() && cfg.maxWait > 0.0 && o.maxDelay >= 0.0
      requires Separate(taken) && reg.Repr !! Lims(taken)
      modifies reg, reg.Repr
      ensures reg.Valid() && fresh(reg.Repr - old(reg.Repr)) && old(reg.Repr) <= reg.Repr
      ensures key in reg.buckets
      ensures reg.Contents() == Settle(reg.scope, old(reg.Contents()), key, now, true)
      ensures o' == Heard(o, reg.scope, Standing(reg.scope, old(reg.Contents()), key, now), cfg.maxWait)
      ensures Separate(taken') && Lims(taken') == Lims(taken) + {reg.buckets[key].lim}
    {
      hide Touch, LevelAt, Heard, Separate, Held, Registry.Contents;
      var lim := reg.Get(key, now);
      label found:
      taken', o' := Consider(lim, reg.scope, now, taken, o);
      reg.OneBucketChanged@found(key);
      assert reg.Contents() == old@found(reg.Contents())[key := Slot(lim.Value(), now)];
    }

    // A scope that is off has no say.
    method ConsiderKey(reg: Registry?, ghost s: Scope, key: string, now: real, taken: seq<Reservation>, o: Opinion)
      returns (taken': seq<Reservation>, o': Opinion)
      requires Serves(reg, s) && cfg.maxWait > 0.0 && o.maxDelay >= 0.0
      requires Separate(taken) && ReprOf(reg) !! Lims(taken)
      modifies reg, ReprOf(reg)
      ensures Serves(reg, s) && fresh(ReprOf(reg) - old(ReprOf(reg)))
      ensures ContentsOf(reg, s) == Settle(s, old(ContentsOf(reg, s)), key, now, true)
      ensures o' == Heard(o, s, Standing(s, old(ContentsOf(reg, s)), key, now), cfg.maxWait)
      ensures o'.maxDelay >= 0.0
      ensures Separate(taken') && Lims(taken') == Lims(taken) + LimFor(reg, key)
      ensures LimFor(reg, key) <= ReprOf(reg)
      ensures reg != null ==> key in reg.buckets
    {
      if reg == null {
        return taken, o;
      }
      taken', o' := ConsiderHeld(reg, key, now, taken, o);
    }

    // Cancels every reservation, whether or not its bucket granted at once.
    method Rollback(taken: seq<Reservation>, now: real)
      requires Separate(taken)
      modifies Lims(taken)
      ensures forall b: Bucket :: b in Lims(taken) ==> b.Value() == Undo(b.scope, old(b.Value()), now)
    {
      forall i | 0 <= i < |taken|
        ensures taken[i].lim in Lims(taken)
      {
        assert taken[i] in taken;
      }
      for n := 0 to |taken|
        invariant forall i :: 0 <= i < n ==>
          taken[i].lim.Value() == Undo(taken[i].lim.scope, old(taken[i].lim.Value()), now)
        invariant forall i :: n <= i < |taken| ==> taken[i].lim.Value() == old(taken[i].lim.Value())
      {
        taken[n].lim.CancelAt(taken[n], now);
      }
    }

    // Every applicable bucket brought up to date, with or without a token taken.
    ghost function Settled(st: State, r: Request, take: bool): State {
      State(Settle(cfg.user, st.users, r.user, r.at, take),
            Settle(cfg.target, st.targets, r.target, r.at, take),
            TouchIfOn(cfg.global, st.global, r.at, take),
            st.calls)
    }

    // The keyed part of a Reserve call.
    method TakeKeys(r: Request) returns (taken: seq<Reservation>, o: Opinion)
      requires Valid()
      modifies user, target, ReprOf(user), ReprOf(target)
      ensures Serves(user, cfg.user) && fresh(ReprOf(user) - old(ReprOf(user)))
      ensures Serves(target, cfg.target) && fresh(ReprOf(target) - old(ReprOf(target)))
      ensures ReprOf(user) !! ReprOf(target)
      ensures ContentsOf(user, cfg.user) == Settle(cfg.user, old(ContentsOf(user, cfg.user)), r.user, r.at, true)
      ensures ContentsOf(target, cfg.target) ==
                Settle(cfg.target, old(ContentsOf(target, cfg.target)), r.target, r.at, true)
      ensures Separate(taken) && Lims(taken) == LimFor(user, r.user) + LimFor(target, r.target)
      ensures LimFor(user, r.user) <= ReprOf(user) && LimFor(target, r.target) <= ReprOf(target)
      ensures user != null ==> r.user in user.buckets
      ensures target != null ==> r.target in target.buckets
      ensures o.maxDelay >= 0.0
      ensures o == Heard(Heard(Opinion(0.0, false),
                               cfg.user, Standing(cfg.user, old(ContentsOf(user, cfg.user)), r.user, r.at),
                               cfg.maxWait),
                         cfg.target, Standing(cfg.target, old(ContentsOf(target, cfg.target)), r.target, r.at),
                         cfg.maxWait)
    {
      hide Heard, Settle, Standing, Held, LevelAt, Touch, Serves, ContentsOf, Separate;
      hide Registry.Valid, Registry.Contents;
      taken, o := ConsiderKey(user, cfg.user, r.user, r.at, [], Opinion(0.0, false));
      assert Serves(target, cfg.target) && ContentsOf(target, cfg.target) == old(ContentsOf(target, cfg.target));
      label userDone:
      taken, o := ConsiderKey(target, cfg.target, r.target, r.at, taken, o);
      assert Serves(user, cfg.user) && ContentsOf(user, cfg.user) == old@userDone(ContentsOf(user, cfg.user));
    }

    // The whole taking half of a Reserve call.
    method TakeAll(r: Request) returns (taken: seq<Reservation>, o: Opinion)
      requires Valid()
      modifies user, target, global, ReprOf(user), ReprOf(target)
      ensures Valid() && fresh(Footprint() - old(Footprint()))
      ensures LimFor(user, r.user) + LimFor(target, r.target) + BucketSet(global) <= Footprint() - {this}
      ensures Value() == Settled(old(Value()), r, true)
      ensures o == Opinions(old(Value()), r)
      ensures Separate(taken)
      ensures Lims(taken) == LimFor(user, r.user) + LimFor(target, r.target) + BucketSet(global)
      ensures user != null ==> r.user in user.buckets
      ensures target != null ==> r.target in target.buckets
    {
      hide Heard, Settle, Standing, LevelAt, Touch, TouchIfOn, Decide, Judge, Serves, ContentsOf, Separate;
      hide Registry.Valid, Registry.Contents;
      taken, o := TakeKeys(r);
      label keysDone:
      taken, o := Consider(global, cfg.global, r.at, taken, o);
      assert ContentsOf(user, cfg.user) == old@keysDone(ContentsOf(user, cfg.user));
      assert ContentsOf(target, cfg.target) == old@keysDone(ContentsOf(target, cfg.target));
    }

    ghost function Opinions(st: State, r: Request): Opinion {
      Heard(Heard(Heard(Opinion(0.0, false), cfg.user, Standing(cfg.user, st.users, r.user, r.at), cfg.maxWait),
                  cfg.target, Standing(cfg.target, st.targets, r.target, r.at), cfg.maxWait),
            cfg.global, LevelAt(cfg.global, st.global, r.at), cfg.maxWait)
    }

    // For a scope that is off there is nothing to undo; for the global bucket, this much.
    lemma OtherScopesUndone(st: State, r: Request)
      ensures !cfg.user.Enabled() ==>
        Settle(cfg.user, st.users, r.user, r.at, true) == Settle(cfg.user, st.users, r.user, r.at, false)
      ensures !cfg.target.Enabled() ==>
        Settle(cfg.target, st.targets, r.target, r.at, true) == Settle(cfg.target, st.targets, r.target, r.at, false)
      ensures !cfg.global.Enabled() ==>
        TouchIfOn(cfg.global, st.global, r.at, true) == TouchIfOn(cfg.global, st.global, r.at, false)
      ensures cfg.global.Enabled() ==>
        Undo(cfg.global, TouchIfOn(cfg.global, st.global, r.at, true), r.at) ==
        TouchIfOn(cfg.global, st.global, r.at, false)
    {
      if cfg.global.Live() {
        RefundUndoesTake(cfg.global, st.global, r.at);
      }
    }

    // The other half: no bucket is left short by a denied request.
    method GiveBack(taken: seq<Reservation>, r: Request, ghost st: State)
      requires Valid() && Value() == Settled(st, r, true)
      requires Separate(taken)
      requires Lims(taken) == LimFor(user, r.user) + LimFor(target, r.target) + BucketSet(global)
      requires user != null ==> r.user in user.buckets
      requires target != null ==> r.target in target.buckets
      modifies LimFor(user, r.user), LimFor(target, r.target), BucketSet(global)
      ensures Footprint() == old(Footprint())
      ensures Valid() && Value() == Settled(st, r, false)
    {
      OtherScopesUndone(st, r);
      hide Settle, Held, LevelAt, Touch, TouchIfOn, Undo, Refund, Separate, Registry.Contents;
      label start:
      Rollback(taken, r.at);
      assert ValueOf(global, cfg.global) == TouchIfOn(cfg.global, st.global, r.at, false);
      if user != null {
        user.OneBucketChanged@start(r.user);
        SettleUndone(cfg.user, st.users, r.user, r.at);
      }
      assert ContentsOf(user, cfg.user) == Settle(cfg.user, st.users, r.user, r.at, false);
      if target != null {
        target.OneBucketChanged@start(r.target);
        SettleUndone(cfg.target, st.targets, r.target, r.at);
      }
    }

    // Keeps the tokens if every bucket granted at once, and none of them otherwise.
    method TakeOrGiveBack(r: Request) returns (a: Answer)
      requires Valid()
      modifies Footprint() - {this}
      ensures Valid() && fresh(Footprint() - old(Footprint()))
      ensures a == Decide(Opinions(old(Value()), r), cfg.maxWait)
      ensures Value() == Settled(old(Value()), r, a.Admitted?)
    {
      ghost var st := Value();
      hide Opinions, Settled, Separate, Serves, ContentsOf;
      var taken, o := TakeAll(r);
      if o.rejected {
        GiveBack(taken, r, st);
        var wait := o.maxDelay;
        if wait > cfg.maxWait {
          wait := cfg.maxWait;
        }
        a := Denied(wait);
      } else {
        a := Admitted;
      }
    }

    // `Step` in the terms used here.
    lemma StepIsSettled(st: State, r: Request)
      requires cfg.maxWait > 0.0
      ensures var ticked := Tick(cfg, st, r.at, true);
              var a := Decide(Opinions(ticked, r), cfg.maxWait);
              Step(cfg, st, r, true) == (Settled(ticked, r, a.Admitted?), a)
    {
      var ticked := Tick(cfg, st, r.at, true);
      OpinionsAddUp(cfg, Standing(cfg.user, ticked.users, r.user, r.at),
                    Standing(cfg.target, ticked.targets, r.target, r.at), LevelAt(cfg.global, ticked.global, r.at));
    }

    /**
     Takes one token from every bucket that applies; if any of them would make the request wait,
     gives all of them back and denies it with a bounded hint.
     */
    method Reserve(identityKey: string, targetKey: string, now: real) returns (a: Answer)
      requires Valid()
      modifies Footprint()
      ensures Valid() && fresh(Footprint() - old(Footprint()))
      ensures !enabled ==> a == Admitted && Value() == old(Value())
      ensures enabled ==> (Value(), a) == Step(cfg, old(Value()), Request(identityKey, targetKey, now), true)
    {
      if !enabled {
        return Admitted;
      }
      StepIsSettled(Value(), Request(identityKey, targetKey, now));
      hide Step, Tick, Opinions, Settled, Decide;
      MaybeEvict(now);
      a := TakeOrGiveBack(Request(identityKey, targetKey, now));
    }
  }

  /**
   A new limiter that serves requests one after the other is the run of the model, so that what is
   proved of whole runs is true of it.
   */
  method Serve(cfg: Config, reqs: seq<Request>) returns (l: Limiter, answers: seq<Answer>)
    requires Check(true, cfg, true).Valid?
    ensures l.Valid() && fresh(l.Footprint()) && l.enabled && l.cfg == Defaulted(cfg)
    ensures (l.Value(), answers) == Run(l.cfg, reqs, true)
    ensures l.cfg.maxWait == if cfg.maxWait > 0.0 then cfg.maxWait else 60.0
    ensures l.cfg.idleTTL == if cfg.idleTTL > 0.0 then cfg.idleTTL else 600.0
    ensures l.cfg.user == cfg.user && l.cfg.target == cfg.target && l.cfg.global == cfg.global
  {
    hide Step, Limiter.Valid, Limiter.Value, Limiter.Footprint;
    l := new Limiter(true, cfg);
    answers := [];
    for n := 0 to |reqs|
      invariant l.Valid() && fresh(l.Footprint()) && l.enabled && l.cfg == Defaulted(cfg)
      invariant (l.Value(), answers) == Run(Defaulted(cfg), reqs[..n], true)
    {
      label before:
      var a := l.Reserve(reqs[n].user, reqs[n].target, reqs[n].at);
      assert forall o :: o in l.Footprint() && o !in old@before(l.Footprint()) ==> fresh@before(o);
      answers := answers + [a];
      assert reqs[..n + 1][..n] == reqs[..n];
      assert Request(reqs[n].user, reqs[n].target, reqs[n].at) == reqs[n];
    }
    assert reqs[..|reqs|] == reqs;
  }
}
