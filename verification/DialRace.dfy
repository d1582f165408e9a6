/**
 The bounded dial race as a transition system: a feeder that hands addresses over an unbuffered
 channel, at most 16 workers, a buffered outcome channel and a collector that keeps the first
 connection to open and closes every later one.  Any interleaving of the steps is a run.
 */
module DialRace {
  import opened Options
  import Traces

  const MAX_CONCURRENT_DIALS := 16

  type Ip = int
  type Fault = string

  // An address as the dialer has it: the IP and, for a zoned IPv6 address, its zone.
  datatype Address = Address(ip: Ip, zone: string)

  // Whether the connect guard's hook can read the address: the parser it uses takes no zones.
  predicate Legible(a: Address) {
    a.zone == ""
  }

  // What one DialContext call came back with, for the address at index `host`.
  datatype Outcome = Opened(host: nat, addr: Address) | Failed(host: nat, fault: Fault)

  // `tried` are the indices of the candidate addresses the dialer has finished with.
  datatype Worker =
    | Idle
    | Dialing(host: nat, tried: set<nat>)
    | Holding(outcome: Outcome)
    | Exited

  // The collector's variables: the connection kept, the last error, the OK flag of the result,
  // whether the rest of the race was cancelled, and the connections it has closed.
  datatype Collector = Collector(
    winner: Option<Outcome>,
    lastErr: Option<Fault>,
    ok: bool,
    cancelled: bool,
    closed: seq<Outcome>
  )

  const NEW_COLLECTOR := Collector(None, None, false, false, [])

  // One race: for every distinct host the finite list of addresses a dial of it may try (a literal
  // address has itself only), and the connect guard.
  datatype Race = Race(candidates: seq<seq<Address>>, guarded: Ip -> bool) {
    // The hook refuses what it can read and finds guarded; what it cannot read it lets through.
    predicate Refuses(a: Address) {
      Legible(a) && guarded(a.ip)
    }

    function Size(): nat {
      |candidates|
    }

    function Workers(): nat {
      if Size() > MAX_CONCURRENT_DIALS then MAX_CONCURRENT_DIALS else Size()
    }
  }

  // `refused`, `connected` and `received` are logs of what has happened so far.
  datatype State = State(
    next: nat,                 // the feeder's position
    fed: bool,                 // the address channel is closed
    workers: seq<Worker>,
    channel: seq<Outcome>,     // buffered outcomes, oldest first
    received: seq<Outcome>,
    col: Collector,
    hit: bool,                 // the guard's shared flag
    refused: seq<Address>,
    connected: seq<Outcome>,
    returned: bool
  )

  function Start(r: Race): State {
    State(0, false, seq(r.Workers(), i => Idle), [], [], NEW_COLLECTOR, false, [], [], false)
  }

  // One receive of the collector loop.
  function Absorb(c: Collector, o: Outcome): Collector {
    match o
    case Failed(_, fault) => c.(lastErr := Some(fault))
    case Opened(_, _) =>
      if c.winner.None? then c.(winner := Some(o), ok := true, cancelled := true)
      else c.(closed := c.closed + [o])
  }

  datatype Step =
    | Feed(w: nat)                              // hand the next address to an idle worker
    | CloseFeed
    | Exit(w: nat)                              // an idle worker finds the channel closed
    | Attempt(w: nat, c: nat, connects: bool)   // one connect attempt, through the guard's hook
    | GiveUp(w: nat, fault: Fault)              // the dial fails: refused, timed out, cancelled
    | Send(w: nat)
    | Receive
    | Return

  predicate Enabled(r: Race, s: State, step: Step) {
    match step
    case Feed(w) => w < |s.workers| && s.workers[w].Idle? && s.next < r.Size()
    case CloseFeed => s.next == r.Size() && !s.fed
    case Exit(w) => w < |s.workers| && s.workers[w].Idle? && s.fed
    case Attempt(w, c, _) =>
      && w < |s.workers| && s.workers[w].Dialing?
      && s.workers[w].host < r.Size() && c < |r.candidates[s.workers[w].host]| && c !in s.workers[w].tried
    case GiveUp(w, _) => w < |s.workers| && s.workers[w].Dialing?
    case Send(w) => w < |s.workers| && s.workers[w].Holding? && |s.channel| < r.Size()
    case Receive => |s.received| < r.Size() && s.channel != []
    case Return => |s.received| == r.Size() && !s.returned
  }

  function Apply(r: Race, s: State, step: Step): State
    requires Enabled(r, s, step)
  {
    match step
    case Feed(w) => s.(next := s.next + 1, workers := s.workers[w := Dialing(s.next, {})])
    case CloseFeed => s.(fed := true)
    case Exit(w) => s.(workers := s.workers[w := Exited])
    case Attempt(w, c, connects) =>
      var Dialing(host, tried) := s.workers[w];
      var addr := r.candidates[host][c];
      if r.Refuses(addr) then
        s.(hit := true, refused := s.refused + [addr], workers := s.workers[w := Dialing(host, tried + {c})])
      else if connects then
        s.(connected := s.connected + [Opened(host, addr)], workers := s.workers[w := Holding(Opened(host, addr))])
      else
        s.(workers := s.workers[w := Dialing(host, tried + {c})])
    case GiveUp(w, fault) => s.(workers := s.workers[w := Holding(Failed(s.workers[w].host, fault))])
    case Send(w) => s.(channel := s.channel + [s.workers[w].outcome], workers := s.workers[w := Idle])
    case Receive =>
      s.(channel := s.channel[1..], received := s.received + [s.channel[0]], col := Absorb(s.col, s.channel[0]))
    case Return => s.(returned := true)
  }

  // Runs of the race, and where they end.
  function EnabledIn(r: Race): (State, Step) -> bool {
    (s: State, step: Step) => Enabled(r, s, step)
  }

  function ApplyIn(r: Race): (State, Step) --> State {
    (s: State, step: Step) requires Enabled(r, s, step) => Apply(r, s, step)
  }

  ghost predicate Runs(r: Race, s: State, steps: seq<Step>) {
    Traces.Runs(EnabledIn(r), ApplyIn(r), s, steps)
  }

  ghost function After(r: Race, s: State, steps: seq<Step>): State
    requires Runs(r, s, steps)
  {
    Traces.After(EnabledIn(r), ApplyIn(r), s, steps)
  }

  // Everything is over: the function has returned and no goroutine is left.
  predicate Final(r: Race, s: State) {
    s.returned && s.fed && forall w :: 0 <= w < |s.workers| ==> s.workers[w].Exited?
  }
}
