/**
 The per-agent timeout on its way from the user to the dial: clamped under the remaining budget,
 written into the request, normalized by the agent and again by the probe.  Durations are 64-bit
 nanosecond counts whose subtraction wraps and whose division truncates toward zero.
 */
module Timeout {
  import opened Options

  const TWO_63 := 0x8000_0000_0000_0000
  const TWO_64 := 0x1_0000_0000_0000_0000

  type Duration = x: int | -TWO_63 <= x < TWO_63

  const SECOND: Duration := 1_000_000_000
  const DEFAULT_TIMEOUT: Duration := 5 * SECOND
  const MAX_TIMEOUT: Duration := 30 * SECOND
  const MIN_CLAMP_TIMEOUT: Duration := 100_000_000

  function Wrapped(x: int): Duration {
    (x + TWO_63) % TWO_64 - TWO_63
  }

  function Half(d: Duration): Duration {
    if d >= 0 then d / 2 else (d + 1) / 2
  }

  // What the user asked for, or the default if that does not parse or is not positive.
  function Wanted(user: Option<Duration>): (d: Duration)
    ensures d > 0
  {
    if user.Some? && user.value > 0 then user.value else DEFAULT_TIMEOUT
  }

  // The cap under a budget of at least two nanoseconds: one second below it, or half of it.
  function Cap(budget: Duration): (d: Duration)
    requires budget >= 2
    ensures 0 < d < budget
  {
    if budget >= 2 * SECOND then budget - SECOND else budget / 2
  }

  // Budgets within a second of the least 64-bit value: subtracting the second wraps around.
  predicate Wraps(budget: Duration) {
    budget - SECOND < -TWO_63
  }

  function Least(a: Duration, b: Duration): Duration {
    if a <= b then a else b
  }

  function Clamped(user: Option<Duration>, budget: Duration): Duration {
    if budget >= 2 then Least(Wanted(user), Cap(budget))
    else if Wraps(budget) then Least(Wanted(user), budget - SECOND + TWO_64)
    else MIN_CLAMP_TIMEOUT
  }

  method ClampTimeout(user: Option<Duration>, budget: Duration) returns (d: Duration)
    ensures d == Clamped(user, budget)
    ensures var wish := if user.Some? && user.value > 0 then user.value else 5_000_000_000;
            var cap := if budget >= 2_000_000_000 then budget - 1_000_000_000 else budget / 2;
            && (budget >= 2 && wish <= cap ==> d == wish)
            && (budget >= 2 && wish > cap ==> d == cap)
            && (-0x8000_0000_0000_0000 + 1_000_000_000 <= budget < 2 ==> d == 100_000_000)
            && (budget < -0x8000_0000_0000_0000 + 1_000_000_000 ==>
                  var wrapped := budget - 1_000_000_000 + 0x1_0000_0000_0000_0000;
                  d == if wish <= wrapped then wish else wrapped)
  {
    d := DEFAULT_TIMEOUT;
    if user.Some? && user.value > 0 {
      d := user.value;
    }
    var max := Wrapped(budget - SECOND);
    if max < SECOND {
      max := Half(budget);
    }
    if d > max {
      d := max;
    }
    if d <= 0 {
      d := MIN_CLAMP_TIMEOUT;
    }
  }

  // The agent's normalization.
  function NormalizeTimeout(d: Duration): Duration {
    if d <= 0 then DEFAULT_TIMEOUT else if d > MAX_TIMEOUT then MAX_TIMEOUT else d
  }

  // The probe's.
  method ValidateTimeout(timeout: Duration) returns (t: Duration)
    ensures t == NormalizeTimeout(timeout)
    ensures timeout <= 0 ==> t == 5_000_000_000
    ensures 0 < timeout <= 30_000_000_000 ==> t == timeout
    ensures timeout > 30_000_000_000 ==> t == 30_000_000_000
  {
    t := timeout;
    if t <= 0 {
      t := DEFAULT_TIMEOUT;
    }
    if t > MAX_TIMEOUT {
      t := MAX_TIMEOUT;
    }
  }

  /**
   The clamped timeout is positive; it is below the budget exactly if the budget is at least two
   nanoseconds; and it is never more than was asked for unless there is no budget left.
   */
  lemma ClampedIsSafe(user: Option<Duration>, budget: Duration)
    ensures Clamped(user, budget) > 0
    ensures Clamped(user, budget) < budget <==> budget >= 2
    ensures budget >= 2 ==> Clamped(user, budget) <= Wanted(user)
    ensures budget >= 2 && Wanted(user) <= Cap(budget) ==> Clamped(user, budget) == Wanted(user)
  {
    assert budget < 2 ==> Wanted(user) >= 1 && MIN_CLAMP_TIMEOUT >= 1;
  }

  // What the fan-out puts into the request: zero if the text is empty or does not parse.
  function Sent(parse: string -> Option<Duration>, text: string): Duration {
    if text != "" && parse(text).Some? then parse(text).value else 0
  }

  // Durations survive being written and read back.
  ghost predicate RoundTrips(parse: string -> Option<Duration>, show: Duration -> string) {
    forall d: Duration :: show(d) != "" && parse(show(d)) == Some(d)
  }

  /**
   The timeout that reaches the dial, through the text form, the request and both normalizations,
   is the clamped one up to thirty seconds: the default is never substituted on the way.
   */
  lemma TimeoutReachesTheDial(user: Option<Duration>, budget: Duration,
                              parse: string -> Option<Duration>, show: Duration -> string)
    requires RoundTrips(parse, show)
    ensures var clamped := Clamped(user, budget);
            NormalizeTimeout(NormalizeTimeout(Sent(parse, show(clamped)))) ==
              if clamped > 30_000_000_000 then 30_000_000_000 else clamped
  {
    ClampedIsSafe(user, budget);
    assert Sent(parse, show(Clamped(user, budget))) == Clamped(user, budget);
  }
}
