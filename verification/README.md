# Portreach, modelled and proved

Portreach checks from many nodes whether a TCP port, or a PostgreSQL login, can be reached. Agents
dial targets under an operator policy and a metadata guard, rate limiters stand in front of the
handlers, and a UI asks every discovered agent and adds up the answers. This project models the
parts whose correctness depends on state, order or interleaving and proves what they promise.

`dafny verify dfyconfig.toml` checks everything.

## The models

**The rate limiter.** `TokenBucket` is the documented contract of one bucket: it starts full,
refills at `rate` up to `burst`, a reservation may drive it below zero, and cancelling at the same
instant gives the token back. Time and rates are exact real numbers. `RateLimiter` has the
program's own shape: registries that create a mutable bucket per key and delete idle ones, and a
`Reserve` that takes a token from up to three buckets, gathers the longest delay, and cancels every
token if anything had to wait. It is proved equal to `LimiterModel.Step`, which looks first and takes
afterwards. `Ledger` is an independent reference with no buckets at all, only the list of admitted
requests: `LevelAfter` computes a level from their times and `Conforms` counts them in windows.
`LimiterRuns` proves that every run of the first gives the answers of the second; `LimiterTheorems`,
`Eviction`, `Dominance` and `Memory` draw the consequences for whole runs, `Served` gives hints and
retention in seconds for a limiter left at its defaults, and `CallCost` says what one call costs. A run is a list of requests on a clock that does not go backwards.

When evictions of idle buckets can be noticed is decided for every valid limiter. `Hiding` has the
condition and the reason why a tight global scope hides what a bucket forgets, and `HiddenRuns` lifts
it to runs of the evicting limiter. `Showing` gives every run by the times of its calls and says what
must hold of them for the two limiters to part; `Paces` computes levels under regular calls, and
`PacedRuns` and `UnhiddenShows` find such times whenever the condition fails.

**The dial race.** `DialRace` is a transition system with a feeder, at most 16 workers, an unbuffered
address channel, a buffered outcome channel and a collector; a step is one feed, connect attempt,
give-up, send, receive, close, exit or return, and any interleaving is a run. A dial of a name may
try several addresses, each through the guard's hook, which refuses what it can read and finds
guarded. The only thing assumed of a dial is that it can come back.
`DialRaceProofs` has the invariant and `DialRaceTheorems` the results. `Probe` adds the loops around
the race (repeated addresses, the collector), the TCP result and the rule for the postgres prober.

**The fan-out.** `Fanout` is the spawn loop, the semaphore, one goroutine and one slot per agent and
the wait, again as a transition system. `FanoutResult` proves what the caller gets: which agents
are queried under a cap, the sorted list, and the summary. `Sorting` has the sort they use,
specified by its result only (sorted, and a permutation).

**The agent.** `TargetPolicy` models the operator policy and the one lookup it is checked against;
`AgentServer` the two check handlers over mutable counters, an audit log and two limiters;
`Metrics` any number of requests handled at once; `AgentRuns` a server that handles checks one after
the other with its limiter; `TargetKey` the bucket key of a target.

**Smaller pieces.** `ClientIp` picks the client behind trusted proxies, `Timeout` follows the
per-agent timeout from the user to the dial in wrapping 64-bit nanoseconds, `Text` has trimming and
splitting, `Sums` adds up a quantity over a sequence, and `Traces` has what the three transition
systems share: runs, what they keep, that they end, and that they can reach a goal.

## Where the code and its comments disagree

The models follow the code.

- Three comments (internal/agent/agent.go:143-145, internal/agent/ratelimit.go:52-54,
  internal/agent/checkhandlers.go:111-113) say that tripping one of the agent's limiters never
  spends tokens of the other. A request that the general limiter admits and the postgres limiter
  then refuses keeps its general token spent (internal/agent/checkhandlers.go:115-124);
  `CallCost.GeneralTokenIsLost` is such a request. `CallCost.SpendsUnlessRefused` is the exact condition:
  a call leaves the levels alone if and only if one of them refuses it or no scope is on; and
  `AgentServer.Server.HandleCheckPostgres` says so of every throttled postgres request.
- internal/probe/dial.go:111-112 speaks of ceasing to read after the first success. The collector
  reads one outcome for every address (internal/probe/dial.go:154-173), which is what makes the
  guard's flag settled and the losing connections closed when the function returns.
- `clampTimeout` promises a timeout under the budget (internal/ui/server.go:150-152). That holds
  exactly for budgets of at least two nanoseconds (`Timeout.ClampedIsSafe`).
- docs/configuration.md:120-123 guarantees that a denied IP is never connected to. The guard's hook
  decides on the address text and lets through a text that does not parse as an IP
  (internal/probe/probe.go:131-143); the parser takes no IPv6 zone. So the guarantee holds exactly for
  races in which the hook can read every guarded address that a dial may try
  (`DialRaceTheorems.GuardIsTightIff`). Without a policy a zoned address is dialed as it is
  (`Probe.ZonedAddressIsLetThrough`); under a policy only IPs without zones are dialed, and the
  guarantee is unconditional (`TargetPolicy.PolicyHolds`).
- Eviction of idle buckets can be noticed in some limiters that pass validation. With K the least
  whole number above rate times horizon of a keyed scope, it cannot be noticed in any run exactly if
  every keyed scope that is on either has burst <= rate * horizon, or there is a global scope with
  (global rate) <= rate and (global burst - burst) * rate <= K * (rate - global rate)
  (`Eviction.EvictionInvisibleIff`). The built-in postgres limits meet the first condition.

## Model

| member | source | states |
|---|---|---|
| RateLimiter.Limiter.Reserve | internal/ratelimit/ratelimit.go:193-248 | Taking a token from every bucket and rolling all of them back is the same, in answer and in every bucket's new level, as judging all buckets first and then taking from all or none; a disabled limiter admits and changes nothing |
| RateLimiter.Limiter.constructor | internal/ratelimit/ratelimit.go:149-186 | A configuration that passes validation yields a limiter with full buckets; its maximum wait is the configured one if that is positive and 60 s otherwise, its horizon the configured one if positive and 600 s otherwise, and its scopes are the configured ones if it is enabled and off if not |
| RateLimiter.Serve | internal/ratelimit/ratelimit.go:149-248 | A new limiter that serves requests one after the other gives the answers of the run and ends in its state, so what holds of runs holds of it; with the same account of its maximum wait, horizon and scopes |
| Served.HintIsCappedWait | internal/ratelimit/ratelimit.go:204-246 | In every run, whatever the horizon, a request is denied exactly if it has to wait for some bucket, and the hint is the longest wait cut off at the maximum |
| Served.ServeByDefault | internal/ratelimit/ratelimit.go:149-282 | With maximum wait and horizon left at zero, as the agent leaves them, every hint is at most 60 s and is 60 s exactly if the wait is at least that; a scope that is on holds exactly the keys used no longer than 600 s before the latest sweep, or since |
| RateLimiter.Limiter.Consider | internal/ratelimit/ratelimit.go:204-226 | One bucket loses a token even if the caller must wait for it, and the longest delay so far, capped for an impossible request, is kept |
| RateLimiter.Limiter.Rollback | internal/ratelimit/ratelimit.go:236-241 | Every bucket that was touched, and no other, gets its token back, including those that granted at once |
| RateLimiter.Limiter.TakeOrGiveBack | internal/ratelimit/ratelimit.go:200-247 | The answer is a denial exactly if some bucket made the request wait, and then no bucket has one token less |
| RateLimiter.Limiter.MaybeEvict | internal/ratelimit/ratelimit.go:263-272 | Each call is counted and each 256th sweeps both registries |
| RateLimiter.Limiter.EvictIdle | internal/ratelimit/ratelimit.go:275-282 | Both registries are swept with the limiter's horizon; the global bucket is not touched |
| RateLimiter.Registry.Get | internal/ratelimit/ratelimit.go:308-318 | A key has one bucket, full when it is first created, and its time of last use is refreshed; no other key changes |
| RateLimiter.Registry.EvictIdle | internal/ratelimit/ratelimit.go:330-338 | Exactly the keys not seen within the horizon are deleted |
| LimiterModel.CheckScope | internal/ratelimit/ratelimit.go:99-109 | A scope is accepted exactly if its rate is not negative and, if it is on, its capacity is at least one |
| LimiterModel.Check | internal/ratelimit/ratelimit.go:74-97 | A configuration is accepted exactly if it is off, or every scope is accepted, one is on, the maximum wait is not negative and the proxies parse; an accepted one is sound once defaults are filled in |
| LimiterModel.WaitIffRefused | internal/ratelimit/ratelimit.go:208-225 | A bucket asks for a positive wait exactly if it does not grant at once |
| TokenBucket.RefundUndoesTake | internal/ratelimit/ratelimit.go:236-241 | A token taken and given back at one instant leaves the bucket merely brought up to date |
| TokenBucket.SettlingIsInvisible | internal/ratelimit/ratelimit.go:236-241 | Bringing a bucket up to date cannot be noticed at any later time |
| LimiterRuns.StepRefinesLedger | internal/ratelimit/ratelimit.go:193-248 | One call on buckets that mirror the admitted requests answers as the ledger of admitted requests does and mirrors it again, evicting or not |
| LimiterRuns.RunRefinesLedger | internal/ratelimit/ratelimit.go:193-248 | Over every run the limiter with its buckets, keys, evictions and rollbacks answers every call, hints included, as a bare list of admitted requests would |
| LimiterRuns.SweepMirrors | internal/ratelimit/ratelimit.go:330-338 | Deleting buckets idle for longer than their refill time leaves every key's level as it was |
| Ledger.LevelIffConforms | internal/ratelimit/ratelimit.go:200-247 | A bucket can grant exactly if counting one more request keeps every window ending now within burst plus rate times its length |
| LimiterTheorems.AdmittedIffConforming | internal/ratelimit/ratelimit.go:193-248 | In every run a request is admitted exactly if, for its user, its target and the process, counting it keeps every window that ends now within burst plus rate times length: nothing conforming is refused |
| LimiterTheorems.NoWindowExceedsItsAllowance | internal/ratelimit/ratelimit.go:193-248 | In no window of any run do the admitted requests of a user, of a target or of the process exceed burst plus rate times length |
| LimiterTheorems.DeniedCallsLeaveNoTrace | internal/ratelimit/ratelimit.go:236-246 | Deleting any denied calls from a run changes the answer of no remaining call |
| LimiterTheorems.DeniedStepKeepsLevels | internal/ratelimit/ratelimit.go:236-246 | From any state that mirrors a ledger, evicting under a safe horizon or not, a denied call changes no level, then or later, of any live dimension |
| LimiterTheorems.DeniedCallKeepsLevels | internal/ratelimit/ratelimit.go:236-246 | After any run, without eviction or with it under a safe horizon, a denied call leaves every bucket's level in every dimension, at every later time, as if it had not been made |
| LimiterTheorems.RetryAfterIsExact | internal/ratelimit/ratelimit.go:204-246 | A hint is positive and is the wait, cut off at the maximum; with nothing admitted in between, a retry for the same keys is admitted if and only if the whole wait is over, so never before the hint and, unless the wait exceeds the maximum, always from then on |
| LimiterTheorems.RetryAfterSeconds | internal/ratelimit/ratelimit.go:254-260 | The header is the least whole number of seconds, at least one, that is not below the hint (delay-seconds, section 10.2.3 of RFC 9110) |
| LimiterTheorems.HonouredHeaderIsAdmitted | internal/ratelimit/ratelimit.go:254-260 | A client that waits for the header is admitted if the wait does not exceed the maximum and nothing was admitted meanwhile |
| Eviction.EvictionIsInvisible | internal/ratelimit/ratelimit.go:263-338 | If every keyed scope refills within the horizon, the evicting limiter answers every call, hints included, as one that never evicts |
| Eviction.BuiltInLimitsHideEviction | internal/agent/ratelimit.go:27-40 | The agent's built-in postgres limits, and the UI's, are valid and cannot show an eviction |
| Eviction.BuiltInAllowance | internal/agent/ratelimit.go:27-40 | Under the built-in postgres limits at most 15 checks of one target and 70 in all are admitted in any minute of any run |
| Hiding.ForgettingIsCovered | internal/ratelimit/ratelimit.go:330-338 | If a keyed scope is hidden, a bucket that forgot requests older than the horizon stands as it would otherwise, or the request waits at least as long for the global bucket |
| HiddenRuns.HiddenRunIsLedgers | internal/ratelimit/ratelimit.go:263-338 | If both keyed scopes refill within the horizon or are hidden, the evicting limiter answers every call of every run, hints included, as the ledger of admitted requests does |
| Showing.TheyDiffer | internal/ratelimit/ratelimit.go:263-338 | Calls that find room once the key was evicted, the last of which finds none without eviction, tell the evicting limiter from one that never evicts |
| UnhiddenShows.UnhiddenEvictionShows | internal/ratelimit/ratelimit.go:263-338 | If the evictions of a keyed scope are not hidden, whatever the other scopes, there is a run in which eviction changes an answer |
| Eviction.EvictionInvisibleIff | internal/ratelimit/ratelimit.go:263-338 | For every limiter that passed validation, eviction is invisible in all runs if and only if every keyed scope that is on refills its burst within the horizon or is hidden by the global one |
| Eviction.WithoutGlobalScope | internal/ratelimit/ratelimit.go:263-338 | Without a global scope, if and only if every keyed scope refills its burst within the horizon |
| Dominance.DominatedScopeHasNoSay | internal/ratelimit/ratelimit.go:228-234 | A keyed scope at least as large and as fast as the global one can be switched off without changing an answer in any run |
| Dominance.EvictionHiddenByTheGlobalScope | internal/ratelimit/ratelimit.go:263-338 | Eviction is invisible if every keyed scope refills within the horizon or is at least as generous as the global one |
| Dominance.TightGlobalHidesEviction | internal/ratelimit/ratelimit.go:263-338 | A limiter whose target scope does not refill within the horizon and which, for its tight global scope, shows no eviction in any run |
| Memory.LatestSweepIsLatest | internal/ratelimit/ratelimit.go:263-272 | The latest sweep is fewer than 256 calls ago |
| Memory.RegistryHoldsRecentKeys | internal/ratelimit/ratelimit.go:263-338 | After any run a registry holds exactly the keys used within the horizon before the latest sweep, or since it, each stamped with its latest use |
| Memory.RegistryIsBounded | internal/ratelimit/ratelimit.go:263-338 | A registry holds no more keys than there were such calls, and at most 255 before the first sweep |
| DialRaceProofs.StepInv | internal/probe/dial.go:103-187 | Every step of the race, whichever it is, keeps the accounts of addresses, connections, workers, guard and collector |
| DialRaceProofs.CollectorKeepsFirst | internal/probe/dial.go:152-173 | The winner is the first connection to arrive; without one the error reported is the last; only opened connections are ever closed |
| DialRaceTheorems.ConnectionInOnePlace | internal/probe/dial.go:103-187 | At every moment an opened connection is in exactly one place: with one worker, in the channel, the winner, or closed once |
| DialRaceTheorems.AddressDialedOnce | internal/probe/dial.go:120-150 | In every run the addresses are dialed in their order and none twice, and when the function has returned each was dialed exactly once |
| DialRaceTheorems.AddressInOnePlace | internal/probe/dial.go:120-173 | After every run the places of an address, with a worker or as an outcome in the channel or received, are as many as its dials |
| DialRaceTheorems.DialsBounded | internal/probe/dial.go:115-150 | Never more than 16 dials are in flight |
| DialRaceTheorems.NoAddressWaits | internal/probe/dial.go:115-130 | With at most 16 distinct addresses an address not yet handed out always has an idle worker |
| DialRaceTheorems.WaitsOnlyBehindSixteen | internal/probe/dial.go:115-130 | However many addresses there are, one not yet handed out has an idle worker unless 16 are busy |
| DialRaceTheorems.SendNeverBlocks | internal/probe/dial.go:111-113 | A worker with an outcome can always send it |
| DialRaceTheorems.NeverStuck | internal/probe/dial.go:107-173 | Every state that is not final has an enabled step |
| DialRaceTheorems.StepDescends | internal/probe/dial.go:107-173 | Every step lowers a measure |
| DialRaceTheorems.EveryRunEnds | internal/probe/dial.go:107-173 | Every run is finite, and it cannot go on exactly if the function has returned and the feeder and all workers are gone |
| DialRaceTheorems.ReturnIsReachable | internal/probe/dial.go:107-187 | From every state of every run the function can still return, so what holds on return is not said of nothing |
| DialRaceTheorems.ReturnedIsSettled | internal/probe/dial.go:49-54 | After the return nothing that still runs can change the result, the guard's flag or the set of connections |
| DialRaceTheorems.ReturnedResult | internal/probe/dial.go:152-187 | On return there is one outcome for each address; success is reported exactly if some dial opened; the winner is open and every other connection closed once; otherwise there is an error |
| DialRaceTheorems.GuardHolds | internal/probe/probe.go:116-143 | No interleaving opens a connection to a guarded address that the hook can read, and on return the flag without a success means a refusal without a connection |
| DialRaceTheorems.GuardIsTightIff | internal/probe/probe.go:131-143 | No interleaving opens a connection to any guarded address if and only if the hook can read every guarded address that a dial may try |
| DialRaceTheorems.LetThroughIsReachable | internal/probe/probe.go:131-143 | Whatever address the hook does not refuse is connected to in some run |
| DialRaceTheorems.CanWin | internal/probe/dial.go:103-187 | Whatever address the hook does not refuse is the connection that some run returns |
| DialRaceTheorems.FailuresWereGivenUp | internal/probe/dial.go:131-150 | Every failure the collector receives in a run is one that a dial of that run gave up with, for that address and with that error |
| Probe.Dedup | internal/probe/dial.go:190-201 | The loop with its set computes the list without repeats |
| Probe.DistinctKeepsFirsts | internal/probe/dial.go:190-201 | That list has the same addresses, in the order of their first occurrence |
| Probe.Collect | internal/probe/dial.go:152-173 | The receive loop keeps a connection exactly if one arrived, the first, and does what the transition system's collector does |
| Probe.TcpResultIsRight | internal/probe/dial.go:27-59 | For every interleaving no guarded address that the hook can read is connected to; the result is OK exactly if some dial opened, a denial exactly if the hook refused an address and none opened; a failure carries an error and a success none |
| Probe.FailureTellsItsFault | internal/probe/dial.go:152-187 | A failure reports the error of the outcome received last, which is one that a dial of the run gave up with |
| Probe.ZonedAddressIsLetThrough | internal/probe/probe.go:131-143 | A guarded address that a name stands for with a zone can be connected to, with an OK result and no denial |
| Probe.ProberRunsOnlyIfReached | internal/probe/postgres.go:74-96 | The prober runs exactly if the reachability dial opened, never after a denial, and changes nothing else in the result |
| Probe.NothingStaysOpen | internal/probe/probe.go:216-223 | When a runner is done every connection its race opened has been closed exactly once, the winner by the runner, and nothing else has |
| Probe.RaceEnds | internal/probe/dial.go:107-173 | From the start every run is bounded by a number fixed in advance and ends with everything gone |
| TargetPolicy.Allowed | internal/agent/agent.go:86-101 | An address that a deny network has is refused, whatever the allow list; any other is allowed exactly if some allow network has it or there is none |
| TargetPolicy.ResolveTarget | internal/agent/agent.go:417-441 | Without a policy the host is dialed as it is; under one a literal is vetted exactly if it is permitted and gives itself, and a name exactly if its lookup succeeds, is not empty and every address of it is permitted, and then gives the literals of all of them, in order, in the dial list and in the report |
| TargetPolicy.ConnectsOnlyToTheHost | internal/probe/dial.go:27-59 | No interleaving connects to anything but an address that the requested host stands for: the IP of a literal, without a policy any address the resolver gives for a name, under one an IP of the vetted lookup; and to a guarded one only with a zone |
| TargetPolicy.AnyOfItsAddressesCanWin | internal/probe/dial.go:27-59 | For every authorized target and every such address, unless it is guarded and without a zone, some interleaving returns OK with exactly that connection |
| TargetPolicy.EveryVettedIpIsDialed | internal/agent/agent.go:405-441 | Under a policy, in every run that returned, every vetted IP of a name was dialed, by exactly one dial |
| TargetPolicy.DialsExactlyWhatIsReported | internal/agent/agent.go:417-441 | Under a policy the list dialed is the list reported without repeats, permitted literals only, and no later lookup can change the race |
| TargetPolicy.PolicyHolds | internal/agent/checkhandlers.go:65-71 | Under a policy no interleaving of the reachability dial connects to an address of a deny network, to one outside every allow network if there are any, or to a guarded one, without exception |
| AgentServer.Server.HandleCheckTcp | internal/agent/checkhandlers.go:36-82 | When each status is given (400 for a bad request, which costs no token; 429 exactly on the limiter's denial, with its hint; 403 exactly on a policy refusal or a refusal of the hook without a connection; else 200), that exactly the matching counter moves by one, and that every connection was to an address the requested host stands for, in no deny network, in some allow network if there is one, and guarded only with a zone and without a policy |
| AgentServer.Server.HandleCheckPostgres | internal/agent/checkhandlers.go:98-175 | The same with two limiters in order: a request the first refuses does not reach the second; a throttled request leaves the first one's levels as it found them exactly if the first refuses it or limits nothing; success exactly if reached and logged in; one audit event per validated request, which says throttled for a 429, denied for a 403, unreachable without a connection and otherwise how the login ended, and none for a 400 |
| CallCost.SpendsUnlessRefused | internal/ratelimit/ratelimit.go:228-247 | A call leaves the levels it finds, of its user, target and process, exactly if one of them refuses it or no scope is on, and otherwise takes one token from each scope that is on; the same for target and process alone |
| CallCost.FoundIsBefore | internal/ratelimit/ratelimit.go:263-282 | Under a safe horizon the levels a call finds after a due sweep are those before it |
| CallCost.GeneralTokenIsLost | internal/agent/checkhandlers.go:115-124 | The fourth postgres check of a target at one instant is admitted by a general limiter and refused by the built-in postgres one, and the general limiter goes from two tokens to one |
| AgentServer.AskingSpendsUnlessRefused | internal/agent/ratelimit.go:65-75 | The same of a limiter that may be absent or disabled |
| AgentServer.MalformedTarget | internal/checkapi/checkapi.go:189-197 | A target is malformed exactly if its host is nothing but white space or its port is out of range |
| AgentServer.MalformedCredentials | internal/checkapi/checkapi.go:81-89 | Credentials are malformed exactly if the username is nothing but white space or there is no password |
| AgentServer.AllowReservation | internal/agent/ratelimit.go:65-75 | An absent limiter admits; a present one is asked once, with no user and the target's key |
| AgentServer.Server.Allow | internal/agent/ratelimit.go:46-48 | The general limiter is asked and the postgres one cannot tell |
| AgentServer.Server.AllowPostgres | internal/agent/ratelimit.go:55-57 | The postgres limiter is asked and the general one cannot tell |
| AgentServer.Server.Throttle | internal/agent/agent.go:387-395 | A 429 with the rounded hint and one more throttled, nothing else |
| AgentServer.Server.Deny | internal/agent/agent.go:378-381 | A 403 and one more denied, nothing else |
| AgentServer.Server.Reject | internal/agent/agent.go:460-463 | A 400 and one more bad request, nothing else |
| AgentServer.Server.DialedAddresses | internal/agent/checkhandlers.go:65-77 | What the two runners report for an authorized target, in terms of the connections the race opened and the addresses the hook refused |
| AgentServer.Server.AnyAddressCanAnswer | internal/agent/checkhandlers.go:65-81 | Whatever address a check may reach can be the one it succeeds with: some plausible race returns OK with exactly that connection, and the check is then not denied |
| AgentServer.ZonedTargetIsConnectedTo | internal/agent/checkhandlers.go:65-77 | Without a policy, a host that stands for a guarded address with a zone can be connected to, nothing having been refused |
| Metrics.StepInv | internal/agent/agent.go:103-109 | Every atomic step of any request keeps each counter equal to the requests that counted themselves there, and the audit log free of repeats and of events that are not their request's own |
| Metrics.NothingCountsTwice | internal/agent/checkhandlers.go:36-175 | At every moment of every interleaving the five counters add up to the requests that have counted themselves, no request is in the audit log twice, and every event carries the verdict of its request's response |
| Metrics.MetricsAreConserved | internal/agent/checkhandlers.go:36-175 | When all requests are answered, in whatever interleaving, the counters add up to their number and are the numbers answered 400, 429, 403, 200 with success and 200 without |
| Metrics.AuditIsComplete | internal/agent/checkhandlers.go:115-194 | Then every postgres request not answered 400 has exactly one audit event, its own target, username and the verdict of its response, and there are no others |
| AgentRuns.HandleChecks | internal/agent/checkhandlers.go:36-60 | A server that handles checks one after the other leaves its limiter where the run of their requests ends, and lets through exactly the requests that the run admits |
| AgentRuns.ChecksWithinAllowance | internal/agent/checkhandlers.go:47-53 | In any window the checks of one target that get past the limiter, and so the races started for it, are at most burst plus rate times length, if idle buckets have time to refill |
| TargetKey.KeyNamesItsTarget | internal/agent/ratelimit.go:65-75 | Different targets never share a bucket, whatever the host strings are |
| TargetKey.KeyReads | internal/agent/ratelimit.go:65-75 | A key is the host, in brackets if it has a colon in it, a colon and the port in decimal digits that read back as the port |
| Fanout.StepInv | internal/ui/aggregator.go:113-135 | Every step of the fan-out keeps the accounts of slots, semaphore and wait group |
| Fanout.InFlightBounded | internal/ui/aggregator.go:117-130 | With a positive limit below the number of agents, never more requests in flight than the limit |
| Fanout.SpawnWaitsOnlyAtTheLimit | internal/ui/aggregator.go:113-125 | Without a positive limit below the number of agents no spawn waits; with one, a spawn waits exactly while that many semaphore slots are taken |
| Fanout.NeverStuck | internal/ui/aggregator.go:122-135 | Neither the spawn loop nor the wait blocks for good |
| Fanout.EveryRunEnds | internal/ui/aggregator.go:122-135 | Every run is finite and can stop only past the wait |
| Fanout.JoinIsReachable | internal/ui/aggregator.go:122-135 | From every state of every run the wait can still be passed |
| Fanout.JoinedIsComplete | internal/ui/aggregator.go:122-135 | Past the wait every slot was written exactly once, with its agent's address, and the semaphore is free |
| FanoutResult.SelectAgents | internal/ui/aggregator.go:93-100 | The input is left as it was, and queried and dropped add up to discovered; without a positive cap below the number discovered all agents are queried as they came, and under one as many as the cap |
| FanoutResult.SelectionIgnoresOrder | internal/ui/aggregator.go:93-100 | Under a cap every order of discovery gives the same selection |
| FanoutResult.SelectionIsSmallest | internal/ui/aggregator.go:93-100 | Under a cap the selection is the smallest addresses in dictionary order, counted with multiplicity, in that order |
| FanoutResult.SlotsTellReplies | internal/ui/aggregator.go:148-207 | In every run that passed the wait each agent's slot tells what came of the exchange with that agent: no error exactly if it answered, then its node and verdict, and otherwise the error of the exchange |
| FanoutResult.ResponseInOrder | internal/ui/aggregator.go:137-138 | The response lists the agents in dictionary order of their addresses |
| FanoutResult.ResponseIgnoresSchedule | internal/ui/aggregator.go:113-139 | If an agent's answer depends on its address only, any two schedules, even under different limits on concurrency, give the same sorted list |
| FanoutResult.ResponseAddsUp | internal/ui/aggregator.go:113-139 | For any schedule and any answers, the response has exactly the queried addresses, and sorting moves no success in or out |
| FanoutResult.SummaryCountsOpenAnswers | internal/ui/aggregator.go:251-259 | If an agent's answer depends on its address only, the summary counts exactly the queried agents that answered with an open port |
| FanoutResult.SortAndSummarize | internal/ui/aggregator.go:135-138 | Sorting the filled slots in place gives the response, and the summary counts what the slots held before sorting |
| FanoutResult.Summarize | internal/ui/aggregator.go:251-259 | The total is the number of results and the successes those without an error and with an open port |
| FanoutResult.PlanFanout | internal/ui/server.go:251-260 | Discovered is queried plus dropped, and what is queried is the selection, under the configured limit |
| Sorting.SortedIsUnique | internal/ui/aggregator.go:98-99 | Where equal keys mean equal elements, anything sorted that is a permutation is the same list, so an unstable sort is deterministic here |
| Sorting.LexIsDictionary | internal/ui/aggregator.go:98-99 | Of two strings the smaller is the one that the other begins with, or the one with the smaller character where they first differ |
| ClientIp.ClientIP | internal/ratelimit/identity.go:44-72 | A peer that does not parse or that no trusted network holds is its own key; behind a trusted peer the key is the rightmost piece of the header that parses into no trusted network, and the peer if there is none |
| ClientIp.HeaderOfAStrangerIsIgnored | internal/ratelimit/identity.go:50-54 | A peer that is not a trusted proxy has one key whatever headers it sends |
| Text.SplitGivesPieces | internal/ratelimit/identity.go:59 | The pieces of a header contain no comma and, joined by commas, give it back |
| Text.PiecesAreSplit | internal/ratelimit/identity.go:59 | No other list of pieces does |
| ClientIp.KeyIsUnique | internal/ratelimit/identity.go:44-72 | That determines the key |
| ClientIp.LeftOfTheClientIsIgnored | internal/ratelimit/identity.go:59-69 | What stands to the left of the client's hop has no say |
| ClientIp.ProxiesAtTheRightAreSkipped | internal/ratelimit/identity.go:59-71 | Trusted or unreadable hops appended at the right change nothing |
| ClientIp.Trusted | internal/ratelimit/identity.go:74-81 | An address is trusted exactly if some configured network has it |
| Timeout.ClampTimeout | internal/ui/server.go:155-186 | The branches, with wrapping subtraction and truncating division, give what was wished for, or 5 s, if it fits the cap and the cap otherwise, for every budget there is; the cap is one second below a budget of two seconds or more, and half of a smaller one |
| Timeout.ClampedIsSafe | internal/ui/server.go:155-186 | The result is positive, below the budget exactly if the budget is at least 2 ns, never above what was wanted then, and what was wanted if that fits |
| Timeout.ValidateTimeout | internal/probe/probe.go:160-166 | The probe normalizes as the agent does: 5 s for what is not positive, at most 30 s |
| Timeout.TimeoutReachesTheDial | internal/ui/aggregator.go:151-156 | Through the text form, the request and both normalizations the clamped value arrives up to 30 s; the default is never substituted |

## Left out

- The internals of golang.org/x/time/rate, which is not part of this model: float64 rounding, truncation of delays to nanoseconds and the bookkeeping of later reservations inside a cancel. The bucket contract is exact and uses real numbers.
- Interleaved Reserve calls on shared buckets, and a clock that runs backwards: each call is one step, and runs are chronological. The mutexes of the registries and of the call counter are therefore not modelled.
- Request times before the zero time of the clock: a run starts at or after it.
- Sockets, DNS, HTTP, JSON, TLS, pgconn and the postgres protocol: a dial may open, be refused by the guard, or fail; a lookup is any list of addresses; a decoded body is a parameter.
- Parsing of IP addresses, CIDR lists and proxies: a network is any predicate on IPs, and parsing is any function; the only texts of a dialed address that the guard's hook cannot read are those with a zone.
- The addresses of the postgres login itself: it dials on its own and resolves the name again (internal/probe/postgres.go:92-93), under the guard but not under the operator policy. Policy results are about the reachability dial.
- Deadlines and cancellation as time: the race model lets a dial give up at any moment, which covers both.
- Latencies, source addresses, error texts and CNAMEs: errors are opaque (the text of a transport error is taken not to be empty), and an audit event has an outcome but no reason text.
- Bucket sharing between different spellings of one host: the key is the host string as it was sent.
- AgentServer.Server.HandleCheckTcp: handles one request at a time; the counters under interleaved requests are in Metrics, the limiters under interleaving are not modelled.
- AgentServer.Server.HandleCheckPostgres: the same; the prober's answer is a parameter.
- FanoutResult.ResponseIgnoresSchedule: sort.Slice is used by its contract, and discovery may report an address twice.
- ClientIp.ClientIP: only the first value of a repeated header reaches it, as in the program; stripping the port from the peer is left out.
- TargetPolicy.DialsExactlyWhatIsReported: identifies an IP with its canonical text.
- The UI's handlers, its rate-limit replies, sessions and login, the web form, discovery, configuration and flags: single-branch logic or foreign code.
