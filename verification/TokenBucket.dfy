/**
 The token bucket every limit in the program rests on, by its documented contract: it starts
 full, refills continuously at `rate` tokens per second up to `burst`, a reservation takes one
 token and may drive the level below zero, and the wait is then the time the refill needs to
 bring the level back to zero.  Time is a real number of seconds since the zero time.
 */
module TokenBucket {

  // One bucket dimension.  A rate that is not positive switches the dimension off.
  datatype Scope = Scope(rate: real, burst: int) {
    predicate Enabled() {
      rate > 0.0
    }

    // A dimension that can ever grant anything.
    predicate Live() {
      Enabled() && burst >= 1
    }
  }

  // `tokens` is the level as it stood at time `last`.
  datatype Level = Level(tokens: real, last: real)

  function Min(a: real, b: real): real {
    if a <= b then a else b
  }

  function Max(a: real, b: real): real {
    if a <= b then b else a
  }

  function Full(s: Scope): Level {
    Level(s.burst as real, 0.0)
  }

  // The tokens that `rate` has produced by time t; differences of it are refills.
  function Accrued(s: Scope, t: real): real {
    s.rate * t
  }

  // The level at time t.  A clock that runs backwards adds nothing.
  function LevelAt(s: Scope, l: Level, t: real): real {
    Min(s.burst as real, l.tokens + Max(0.0, Accrued(s, t) - Accrued(s, l.last)))
  }

  // What a reservation leaves behind: the level is brought up to date and, if `take` holds,
  // one token is gone.  A bucket of capacity below one refuses and is not touched.
  function Touch(s: Scope, l: Level, now: real, take: bool): Level {
    if s.burst < 1 then l
    else Level(LevelAt(s, l, now) - (if take then 1.0 else 0.0), now)
  }

  // What giving a token back at time `now` leaves behind.
  function Refund(s: Scope, l: Level, now: real): Level {
    Level(Min(s.burst as real, LevelAt(s, l, now) + 1.0), now)
  }

  // How long the refill takes to lift this level to a whole token.
  function Shortfall(s: Scope, level: real): real
    requires s.Enabled()
  {
    if level < 1.0 then (1.0 - level) / s.rate else 0.0
  }

  lemma AccruedIsRateTimesLength(s: Scope, from: real, to: real)
    ensures Accrued(s, to) - Accrued(s, from) == s.rate * (to - from)
  {
  }

  lemma AccruedMonotone(s: Scope, a: real, b: real)
    requires s.Enabled()
    ensures a <= b <==> Accrued(s, a) <= Accrued(s, b)
  {
    var gap := b - a;
    assert Accrued(s, b) == Accrued(s, a) + s.rate * gap;
  }

  // A wait is long enough exactly when the refill during it covers what is missing.
  lemma WaitCovers(s: Scope, missing: real, now: real, t: real)
    requires s.Enabled()
    ensures missing / s.rate <= t - now <==> missing <= Accrued(s, t) - Accrued(s, now)
  {
    var q := missing / s.rate;
    assert q * s.rate == missing;
    assert Accrued(s, now + q) == Accrued(s, now) + missing;
    AccruedMonotone(s, now + q, t);
  }

  // Refilling is additive: from a moment on, the level is determined by the level then.
  lemma LevelGrows(s: Scope, l: Level, now: real, t: real)
    requires s.Enabled() && l.last <= now <= t
    ensures LevelAt(s, l, t) == Min(s.burst as real, LevelAt(s, l, now) + Accrued(s, t) - Accrued(s, now))
  {
    AccruedMonotone(s, l.last, now);
    AccruedMonotone(s, now, t);
  }

  // Bringing a bucket up to date without taking a token is invisible at every later time.
  lemma SettlingIsInvisible(s: Scope, l: Level, now: real, t: real)
    requires s.Enabled() && l.last <= now <= t
    ensures LevelAt(s, Touch(s, l, now, false), t) == LevelAt(s, l, t)
  {
    LevelGrows(s, l, now, t);
    AccruedMonotone(s, now, t);
  }

  // Taking a token and giving it back at the same instant only brings the bucket up to date.
  lemma RefundUndoesTake(s: Scope, l: Level, now: real)
    requires s.Live()
    ensures Refund(s, Touch(s, l, now, true), now) == Touch(s, l, now, false)
  {
  }

  datatype Reservation = Reservation(lim: Bucket, ok: bool, delay: real)

  class Bucket {
    const scope: Scope
    ghost const key: string  // the key it was created for, which tells buckets of a registry apart
    var tokens: real
    var last: real

    ghost function Value(): Level
      reads this
    {
      Level(tokens, last)
    }

    constructor (scope: Scope, ghost key: string)
      ensures this.scope == scope && this.key == key && Value() == Full(scope)
    {
      this.scope, this.key := scope, key;
      tokens, last := scope.burst as real, 0.0;
    }

    // The level brought up to `now`; nothing is stored.
    method Advance(now: real) returns (t: real)
      requires scope.Enabled()
      ensures t == LevelAt(scope, Value(), now)
    {
      var from := if now < last then now else last;
      t := tokens + scope.rate * (now - from);
      assert scope.rate * (now - from) == Accrued(scope, now) - Accrued(scope, from);
      AccruedMonotone(scope, last, now);
      if t > scope.burst as real {
        t := scope.burst as real;
      }
    }

    method ReserveOne(now: real) returns (r: Reservation)
      requires scope.Enabled()
      modifies this
      ensures r.lim == this && r.ok == (scope.burst >= 1)
      ensures Value() == Touch(scope, old(Value()), now, true)
      ensures r.delay == Shortfall(scope, LevelAt(scope, old(Value()), now))
    {
      var t := Advance(now);
      t := t - 1.0;
      var wait := 0.0;
      if t < 0.0 {
        wait := (0.0 - t) / scope.rate;
      }
      var ok := 1 <= scope.burst;
      if ok {
        tokens, last := t, now;
      }
      r := Reservation(this, ok, wait);
    }

    // Gives the token of a reservation back.
    method CancelAt(r: Reservation, now: real)
      requires scope.Enabled() && r.lim == this
      modifies this
      ensures Value() == if r.ok then Refund(scope, old(Value()), now) else old(Value())
    {
      if !r.ok {
        return;
      }
      var t := Advance(now);
      t := t + 1.0;
      if t > scope.burst as real {
        t := scope.burst as real;
      }
      tokens, last := t, now;
    }
  }
}
