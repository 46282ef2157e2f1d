# Stygian browser: a verified model

Stygian drives a pool of Chrome instances for scraping and disguises them. This project models the
parts of it that are hardest to get right by reading, and proves what holds of them on every input,
every run and every interleaving.

**The browser pool** (`PoolModel`, `PoolRuns`, `PoolMeasure`, `PoolInvariant`, `PoolSteps`, `PoolSweep`,
`PoolTheorems`, `PoolTraces`, `PoolDrain`, `PoolMinimum`, `PoolCallers`, `PoolCalls`, `PoolContext`,
`PoolRevival`, `PoolSoloSweep`, `PoolExhaustion`, `BrowserPool`). Every activity (the warm-up, an `acquire`
call, a handle in a caller's hands, a release, a spawned shutdown) is a small program with a program
counter. One event runs one step: a block under the lock, one semaphore operation, one atomic
read-modify-write, or an answer from outside (Chrome, the proxy source, a timer). A sweep of the eviction
loop keeps the lock over many steps, two for each browser it evicts, and the counter may change between
them. The test `active < max` uses the value read at the start of the call, as the code does. Callers may
drop an `acquire` or `release` future at any of its await points. The class `BrowserPool` holds the code of
the locked blocks, the release of a context, the eviction sweep and the warm-up with their loops; each
method is proved to take exactly the steps of the state machine, so the theorems about reachable states hold
of it. They rest on one global invariant: weights over everything that holds a permit, a counter unit, an
instance or a lease. What some run can still reach is shown by driving every activity to its end, by a rank
on what it has left to do (`PoolDrain`).

**The seeded mixers** (`Bits`, `Words`, `Unicode`, `Noise`, `Orbits`, `PortLimits`, `SplitMix`, `Counting`,
`Fingerprint`). The wrapping noise mixer with its inverse, its BigInt port to JavaScript, splitmix64 in its stateful
and its indexed form, and the weighted choices made with it, counted over all 2^64 seeds. Words are
integers below 2^64, and wrap-around, xor and shifts are written out.

**The acquisition runner** (`Ladder`, `Acquisition`, `Retry`, `Truncation`). The escalation ladder,
the runner with its short-circuits and both timeouts, the rate-limit retry loop, and the UTF-8-safe
excerpt. What the network, a browser, the classifiers and the clock answer are inputs.

**Three smaller cores.** The merge of sorted name lists and the weighted element score
(`Similarity`), the canary trend detector with Python's slice rules (`Trend`), and the mouse path
generator (`Mouse`).

`dafny verify dfyconfig.toml` checks everything.

## What the proofs show about the code and its documentation

- `pool.rs` says that a browser is launched whenever `active < max_size`. An eviction forgets a
  permit for good, so for a settled pool the right test is `active + evicted < max_size`
  (`PoolTheorems.LaunchCapacity`), and for all sizes (`max_size > 0`, any `min_size`) there is a run in
  which evictions alone leave a pool with `active == 0` and nothing going on that can never hand out a
  browser again (`PoolExhaustion.EvictionsExhaustThePool`). From any reachable state some run hands out a
  browser iff evictions, abandoned calls and what a running sweep has still to evict are below `max_size`
  (`PoolRevival.ServesAgainIff`).
- A sweep is meant to leave `min_size` browsers, but trusts one reading of a counter that still contains
  browsers whose shutdown is running. The minimum survives whatever others do during the sweep iff, when it
  starts, the browsers it will leave idle, the healthy releases waiting for the lock and the units abandoned
  before add up to `min_size` (`PoolMinimum.MinimumSurvivesIff`); no run takes the counter below that sum, and
  one takes it there (`PoolMinimum.LowestAfterSweep`). For all sizes there is a run in which a sweep reckons with
  `min_size` and leaves none (`PoolExhaustion.SweepCanUndercut`).
- `BrowserPool::new` documents an error for a failed warm-up; the code has none, failures just make
  the pool start smaller (`BrowserPool.BrowserPool.WarmUp`).
- The disposal of unhealthy idle browsers and of healthy browsers released to a full pool is
  unreachable (`PoolTheorems.IdleIsHealthy`, `PoolTheorems.ReleaseAlwaysReturns`).
- The JavaScript port of the noise mixer agrees with Rust for ASCII operation names, and for WebGL
  noise exactly when `y >= 2^31`: below that JavaScript's `^` yields a negative Number (sections 9.5
  and 11.10 of ECMA-262, fifth edition). A single character outside ASCII breaks the agreement
  (`PortLimits.PortAgreesIff`), but being outside ASCII is not what breaks it in general: for every
  such character there are operations full of it on which the two sides agree for all seeds
  (`PortLimits.PortCanAgreeOutsideAscii`).
- An investigation that starts at the sticky session or at the marker blames the wrong stage for a
  timeout of the whole run when the managed session is inserted (`Ladder.TimeoutBlamesFirstStageIff`).
- The retry delay is documented as `base * 2^n`. The shift stops at 62, which shows for bases 1 to 3
  (`Retry.BackoffAsDocumentedIff`).
- Class and attribute lists are sorted by JavaScript in UTF-16 order and merged by Rust in UTF-8
  order. Over a set of names the merge counts all such lists right iff no two of the names first differ
  in a supplementary character against one from U+E000 to U+FFFF (`Similarity.JsSortedNamesMergeIff`).
- With `STYGIAN_TREND_MONOTONIC_RUNS=1`, which the configuration accepts, every run that has at least
  `min_history` runs before it fails as a monotonic regression, rising scores included
  (`Trend.OneRunAlwaysFails`). The environment table
  calls the knob the number of drops; the code needs one drop fewer (`Trend.MonotonicRuleIff`).
- The perpendicular offsets of a mouse path are perpendicular only for moves longer than one pixel
  (`Mouse.EvenProgressIff`).
- A replay-defense refusal is documented on its context as a `Setup` failure; the code reports
  `ReplayDefenseTriggered`, and the model follows the code.

## Model

| member | source | states |
|---|---|---|
| PoolTheorems.Capacity | crates/stygian-browser/src/pool.rs:222-247 | in every reachable state free permits + idle browsers + permits held by handles, launches and releases + evictions + abandoned calls = `max_size`, so usable browsers never exceed it |
| PoolTheorems.LaunchCapacity | crates/stygian-browser/src/pool.rs:488-496 | when nothing owes a permit or a decrement, permits + `active_count` + evictions = `max_size`, and a launch can go ahead iff `active + evicted < max_size` |
| PoolTheorems.ActiveNeverWraps | crates/stygian-browser/src/pool.rs:507-521 | whoever is about to decrement `active_count` finds it positive, in every interleaving |
| PoolTheorems.ReachableInv | crates/stygian-browser/src/pool.rs:106-113 | the conservation laws, queue health, queue order, context and lease laws hold in every state any interleaving reaches |
| PoolTheorems.ExecKeeps | crates/stygian-browser/src/pool.rs:428-545 | every finite interleaving of steps, sweeps, new calls and dropped futures keeps the invariant |
| PoolTheorems.NextKeeps | crates/stygian-browser/src/pool.rs:428-695 | each single step of each activity keeps the invariant |
| PoolTheorems.ExecLosesMore | crates/stygian-browser/src/pool.rs:282-325 | capacity lost to evictions and dropped futures is never regained, and an instance's origin is never rewritten |
| PoolTheorems.DeadPoolStaysDead | crates/stygian-browser/src/pool.rs:488-545 | once lost capacity equals `max_size` no later state has a permit, an idle browser or a handle |
| PoolRevival.ServesAgainIff | crates/stygian-browser/src/pool.rs:428-545 | from a reachable state some run puts a browser into a caller's hands iff evictions + abandoned calls + what a running sweep has still to evict < `max_size` |
| PoolDrain.StepDown | crates/stygian-browser/src/pool.rs:428-695 | every activity with steps left, unless it waits for the lock, has a step that brings the whole pool closer to rest and loses no capacity |
| PoolExhaustion.EvictionsExhaustThePool | crates/stygian-browser/src/pool.rs:282-325 | for every configuration with `max_size > 0`, whatever its `min_size`, there is a run that ends in such a dead pool, nothing abandoned, `active_count` 0 and no activity left |
| PoolExhaustion.Ripens | crates/stygian-browser/src/pool.rs:488-648 | callers that come in at once bring every pool to a state with no permit, `max_size` browsers idle and timed out, and `max_size` + `min_size` counted |
| PoolExhaustion.Replace | crates/stygian-browser/src/pool.rs:636-648 | with no permit left, each unhealthy release lets one waiting caller launch, and raises the counter by one at no cost in permits |
| PoolExhaustion.SweepCanUndercut | crates/stygian-browser/src/pool.rs:262-296 | for every configuration with `max_size > 0` there is a run in which a sweep finds `max_size` + `min_size` counted, evicts `max_size`, and ends with none |
| PoolMinimum.MinimumSurvivesIff | crates/stygian-browser/src/pool.rs:262-328 | in every run the counter is at `min_size` or above when the sweep is through iff at its start idle browsers less those it decides on, plus healthy releases waiting for the lock, plus abandoned units, reach `min_size` |
| PoolMinimum.LowestAfterSweep | crates/stygian-browser/src/pool.rs:262-328 | that sum is the least value the counter can have then: no run goes lower and one goes that low |
| PoolMinimum.FloorHolds | crates/stygian-browser/src/pool.rs:262-331 | as long as a sweep keeps the lock, idle browsers + releases waiting for it + abandoned units never shrink, whatever others do |
| PoolTraces.SweepLedger | crates/stygian-browser/src/pool.rs:262-328 | a sweep among any other activities evicts exactly what it decided on, and meanwhile the counter moves by that, by what others count and by what they give back |
| PoolTraces.ActiveLedger | crates/stygian-browser/src/pool.rs:496-521 | along every run the counter changes by the launches counted, less what failed launches and ended shutdowns give back and what sweeps take |
| PoolTraces.SweepsExclude | crates/stygian-browser/src/pool.rs:259-331 | in every reachable state at most one sweep runs, and one does iff the lock is held across steps |
| PoolTraces.OnlyFirstWarms | crates/stygian-browser/src/pool.rs:199-248 | in every reachable state the warm-up is the first activity or over, and no other one is a warm-up |
| PoolTraces.MarkedIffCleared | crates/stygian-browser/src/pool.rs:671-689 | over every run a lease is marked as often as a sweep or `release_context` took an entry with it out of service, and that is at most once |
| PoolTheorems.IdleIsHealthy | crates/stygian-browser/src/pool.rs:436-471 | every idle browser is cached-healthy and no call is ever about to throw one out |
| PoolTheorems.AcquireTakesHead | crates/stygian-browser/src/pool.rs:434-459 | the fast path waits while a sweep holds the lock, and else hands out exactly the head of its own queue, leaves exactly the tail and touches no other queue |
| PoolTheorems.ReleaseAlwaysReturns | crates/stygian-browser/src/pool.rs:602-630 | the release of a healthy browser waits while a sweep holds the lock, and else always appends it to the queue of its own context; the pool-full branch is never taken |
| PoolCalls.AcquireDecides | crates/stygian-browser/src/pool.rs:428-545 | a call nobody interrupts is given the head of its queue, or waits for a permit iff the counter is below `max_size`, or polls |
| PoolCalls.WaitDecides | crates/stygian-browser/src/pool.rs:488-496 | a caller that waits goes on with one permit, times out without a trace, or stays |
| PoolCalls.PollTakesHead | crates/stygian-browser/src/pool.rs:547-592 | in every reachable state a polling step waits while a sweep holds the lock, changes nothing on an empty queue, else hands out the healthy head of its own queue and leaves the rest and all other queues; a timeout leaves no trace |
| PoolCalls.ReleaseReachesPoller | crates/stygian-browser/src/pool.rs:556-630 | a browser released in a context reaches a caller polling for it at its next step, or the oldest idle one there does and the released one queues behind |
| PoolCalls.HandleDecides | crates/stygian-browser/src/pool.rs:593-602 | in use only the health flag of a browser changes; given back or dropped it goes to the queue iff healthy, and else is disposed of with its lease unhealthy |
| PoolCalls.DroppedFutures | crates/stygian-browser/src/pool.rs:488-545 | exactly where a future can be dropped: without a unit of capacity nothing is lost, with one neither permit nor counter comes back and its lease is dropped unmarked |
| PoolCalls.CallsComeIn | crates/stygian-browser/src/pool.rs:135-149 | calls start once the warm-up is over, each as an activity of its own |
| PoolCallers.Launches | crates/stygian-browser/src/pool.rs:488-536 | a waiting caller with a permit counts itself, binds a fresh lease iff the pool uses proxies, and holds a new healthy browser for its context |
| PoolCallers.LaunchFails | crates/stygian-browser/src/pool.rs:518-526 | after a failed launch counter and permit are as before and the lease is dropped unmarked |
| PoolCallers.BindingFails | crates/stygian-browser/src/pool.rs:507-511 | after a failed binding everything is as before |
| PoolCallers.Discards | crates/stygian-browser/src/pool.rs:636-648 | an unhealthy release gives back its permit at once and leaves the counter to the shutdown it spawns |
| PoolCallers.Returns | crates/stygian-browser/src/pool.rs:602-630 | a healthy release, or a dropped handle, puts the browser at the back of the queue of its context |
| PoolTheorems.SweepEvictsOldest | crates/stygian-browser/src/pool.rs:262-328 | a sweep decides on min(active - min_size, expired idle) browsers by the counter it reads, which are all that leaves the queues, takes from each queue a prefix and all of it expired, and leaves no empty scoped queue |
| PoolTheorems.Isolation | crates/stygian-browser/src/pool.rs:434-485 | a browser is queued or held only for the context it was launched for, under the lease it was launched with |
| PoolTheorems.NeverCrossesContexts | crates/stygian-browser/src/pool.rs:389-395 | two handles to the same browser, any time apart, were acquired for the same context |
| PoolTheorems.OneHolder | crates/stygian-browser/src/pool.rs:799-825 | a launched instance has exactly one holder until its process is gone and none afterwards |
| PoolTheorems.HandlesAreDistinct | crates/stygian-browser/src/pool.rs:473-485 | no two handles give access to the same browser |
| PoolTheorems.HandleIsNotIdle | crates/stygian-browser/src/pool.rs:611-619 | a browser in a caller's hands is in no idle queue |
| PoolTheorems.LeaseFate | crates/stygian-browser/src/pool.rs:595-647 | a proxy lease is dropped at most once, marked at most once, marked iff its browser left by eviction or `release_context`, and not dropped while held |
| PoolTheorems.ServingLeaseIsOpen | crates/stygian-browser/src/pool.rs:498-537 | the lease of an idle or handed-out browser is bound, unmarked and undropped |
| PoolSweep.SweepKeeps | crates/stygian-browser/src/pool.rs:259-335 | the start of a sweep, which moves the entries it decided on from the queues to itself, keeps the invariant |
| PoolSweep.SweepTakesOldest | crates/stygian-browser/src/pool.rs:280-298 | from a queue in order of age the sweep takes the oldest min(budget, expired) entries, all expired, and stops short only at an unexpired one |
| PoolSteps.HealthyPop | crates/stygian-browser/src/pool.rs:446-457 | on a healthy queue the pop loop finds the head, throws out nothing and leaves the tail |
| PoolSteps.PopSplits | crates/stygian-browser/src/pool.rs:446-457 | for arbitrary health flags: the first healthy entry is found, the unhealthy ones up to the next healthy one are thrown out, and from there on the queue stays |
| PoolModel.NextHealthyIsFirst | crates/stygian-browser/src/pool.rs:446-457 | for arbitrary health flags: the entry found is the first healthy one, all before it are unhealthy |
| PoolRuns.ExecAppend | crates/stygian-browser/src/pool.rs:428-545 | runs compose |
| BrowserPool.BrowserPool.constructor | crates/stygian-browser/src/pool.rs:135-149 | a new pool is the initial state of the machine |
| BrowserPool.BrowserPool.WarmUp | crates/stygian-browser/src/pool.rs:199-248 | the warm-up loop is a run of the machine that ends with permits + active = `max_size`, every browser idle, at most `min_size` of them, and min(`min_size`, `max_size`) when nothing fails |
| BrowserPool.BrowserPool.WarmOne | crates/stygian-browser/src/pool.rs:204-246 | one turn adds a browser iff a lease, a permit and a launch succeed, and stops the loop iff no permit is left |
| BrowserPool.BrowserPool.WarmLaunch | crates/stygian-browser/src/pool.rs:228-245 | with a permit taken, a launch queues its browser or gives counter and permit back |
| BrowserPool.BrowserPool.FastPath | crates/stygian-browser/src/pool.rs:434-459 | the locked block of `acquire_inner` takes the machine's step for any queue contents |
| BrowserPool.PopHealthy | crates/stygian-browser/src/pool.rs:446-457 | the pop-and-push-back loop on arbitrary health flags: first healthy out, unhealthy ones before the second healthy one set aside, the rest left in order |
| BrowserPool.BrowserPool.PollOnce | crates/stygian-browser/src/pool.rs:556-587 | one turn of the polling loop takes the machine's step, which is what `PoolCalls.PollTakesHead` says it is |
| BrowserPool.BrowserPool.ReturnToQueue | crates/stygian-browser/src/pool.rs:602-630 | the locked block of `release` takes the machine's step |
| BrowserPool.BrowserPool.TakeContext | crates/stygian-browser/src/pool.rs:671-677 | `release_context` takes the whole queue of its context and returns its length |
| BrowserPool.BrowserPool.ReleaseContext | crates/stygian-browser/src/pool.rs:671-697 | `release_context` with its loop is the run of the machine, and returns the number of browsers |
| PoolContext.TakesContext | crates/stygian-browser/src/pool.rs:671-677 | its locked block waits while a sweep holds the lock, else takes the whole queue of its context, leaves it empty and touches no other |
| PoolContext.ReleaseContextRuns | crates/stygian-browser/src/pool.rs:671-697 | a call nobody interrupts removes the context, gives back a permit and starts a shutdown for each of its browsers, and leaves the counter to them |
| PoolContext.ClearedLeases | crates/stygian-browser/src/pool.rs:681-685 | each lease is marked and dropped once for each entry that goes, and records why |
| BrowserPool.BrowserPool.EvictFrom | crates/stygian-browser/src/pool.rs:280-298 | the pop loop over one queue keeps and evicts what the specification says, marks and drops the leases, spawns the shutdowns and decrements the counter as often |
| BrowserPool.BrowserPool.EvictScoped | crates/stygian-browser/src/pool.rs:300-325 | the same over all scoped queues in some key order, with the budget shared |
| BrowserPool.BrowserPool.EvictionSweep | crates/stygian-browser/src/pool.rs:259-335 | one turn of the eviction loop is the machine's sweep, from its first event to its last, with nobody else's events between them |
| PoolSoloSweep.SweepRuns | crates/stygian-browser/src/pool.rs:262-331 | the events of an uninterrupted sweep lead to the state with all its evictions carried out |
| BrowserPool.CountIdle | crates/stygian-browser/src/pool.rs:604-609 | the sum of all queue lengths |
| Noise.Mix | crates/stygian-browser/src/noise.rs:123-135 | the byte loop computes the specified composition of rounds over the UTF-8 bytes of the operation |
| Noise.MixIsPermutation | crates/stygian-browser/src/noise.rs:123-135 | for a fixed operation of any length and fixed coordinates the mixer is a permutation of the 64-bit seeds, with its inverse given |
| Noise.MixSeparatesCoordinates | crates/stygian-browser/src/noise.rs:123-135 | for a fixed seed the mixer is injective in `a` and in `b` |
| Noise.LaneIs | crates/stygian-browser/src/noise.rs:139-146 | each component is the 16-bit lane of the hash mod 7, minus 3 |
| Noise.BoundedBytesAre | crates/stygian-browser/src/noise.rs:139-146 | red, green, blue and alpha are the residues of the lanes from the lowest to the highest |
| Noise.NoiseOfHash | crates/stygian-browser/src/noise.rs:205-278 | which coordinates each kind of noise hashes, and what it makes of the hash: the lanes, a sixth of them, or the upper 53 bits spread evenly over the interval |
| Noise.RoundConstants | crates/stygian-browser/src/noise.rs:120-129 | two values of a round that fix its constant and its shift |
| Noise.JsMixIsMix | crates/stygian-browser/src/noise.rs:308-319 | the masked BigInt mixer equals the wrapping mixer on the same units, any integer coordinates taken mod 2^64 |
| Noise.PortAgrees | crates/stygian-browser/src/noise.rs:303-349 | for every seed, ASCII operation and `u32` coordinates pixel, rectangle and float noise agree between JavaScript and Rust |
| Noise.PortReducesCoordinates | crates/stygian-browser/src/noise.rs:320-349 | the port reduces any integer coordinates to 32 bits |
| Noise.HighLow | crates/stygian-browser/src/noise.rs:229-237 | high * 2^21 + low rebuilds the upper 53 bits of the hash |
| Noise.FloatNoiseRange | crates/stygian-browser/src/noise.rs:229-237 | float noise lies in [-1e-5, 1e-5] |
| Noise.WebglAgreesIff | crates/stygian-browser/src/noise.rs:276-278 | the WebGL hashes of the two sides are equal iff `y >= 2^31` |
| Noise.WebglDiffersAtOrigin | crates/stygian-browser/src/noise.rs:346-348 | a concrete pixel on which the visible WebGL noise differs |
| PortLimits.PortAgreesIff | crates/stygian-browser/src/noise.rs:308-313 | for every operation with at most one character outside ASCII, of two, three or four bytes, the two sides agree for all seeds and coordinates iff there is none |
| PortLimits.FourByteState | crates/stygian-browser/src/noise.rs:308-313 | of two given states one tells a surrogate pair from the four bytes of its character |
| PortLimits.PortCanAgreeOutsideAscii | crates/stygian-browser/src/noise.rs:308-313 | for every character outside ASCII there is an operation made of it on which the two sides agree for all seeds and coordinates |
| Orbits.PermutationReturns | crates/stygian-browser/src/noise.rs:123-135 | an injective function on the 64-bit words, applied (2^64)! times, brings back every word |
| Unicode.SameEncodingIffAscii | crates/stygian-browser/src/noise.rs:310-313 | UTF-8 bytes and UTF-16 units of a string coincide iff it is ASCII |
| Unicode.Utf8Decodes | crates/stygian-browser/src/noise.rs:124-127 | the bytes of a character are its UTF-8 form: the first tells their number, and together they give back the character |
| Unicode.Utf16Decodes | crates/stygian-browser/src/noise.rs:310-313 | the code units of a character are itself or a surrogate pair that gives it back |
| Words.ShiftMixInverse | crates/stygian-browser/src/noise.rs:128-133 | `h ^ (h >> k)` is undone exactly on 64-bit words |
| Words.MulUndone | crates/stygian-browser/src/noise.rs:127-132 | wrapping multiplication by an odd constant is undone by its inverse |
| SplitMix.RngIsPermutation | crates/stygian-browser/src/fingerprint.rs:204-209 | for each step `rng` is a permutation of u64 |
| SplitMix.RngSeparatesSteps | crates/stygian-browser/src/fingerprint.rs:204-209 | for each seed `rng` is injective in the step |
| SplitMix.RngStages | crates/stygian-browser/src/fingerprint.rs:204-209 | `rng` is the three xor-shift-multiply stages with the constants of splitmix64, on integers mod 2^64 |
| SplitMix.Generator.Next | crates/stygian-browser/src/behavior.rs:32-38 | one draw advances the state by the golden constant and returns `rng(state, 1)` |
| SplitMix.DrawIsRng | crates/stygian-browser/src/behavior.rs:32-38 | the n-th draw of the stateful generator is the indexed `rng` at step n |
| SplitMix.FullPeriod | crates/stygian-browser/src/behavior.rs:32-38 | two draws are equal iff their distance is a multiple of 2^64 |
| SplitMix.NextIsRng | crates/stygian-browser/src/behavior.rs:32-38 | after n draws the next one is `rng` of the first state at step n + 1 |
| Counting.ResidueCount | crates/stygian-browser/src/fingerprint.rs:921-926 | how many numbers below n have a residue in a range |
| Fingerprint.SeedCount | crates/stygian-browser/src/fingerprint.rs:204-209 | exactly how many of the 2^64 seeds put `rng` in a range of residues |
| Fingerprint.DeviceWeights | crates/stygian-browser/src/fingerprint.rs:920-927 | of 2^64 = 100k + 16 seeds 70k + 16 give Windows, 20k macOS, 10k Linux and none a phone, and which residues give which |
| Fingerprint.DesktopWeights | crates/stygian-browser/src/fingerprint.rs:1003-1011 | the Chrome, Edge and Firefox shares on Windows and Linux, as exact seed counts |
| Fingerprint.MacWeights | crates/stygian-browser/src/fingerprint.rs:995-1002 | the shares on macOS |
| Fingerprint.PhoneWeights | crates/stygian-browser/src/fingerprint.rs:990-994 | the shares on phones |
| Fingerprint.PickIsEven | crates/stygian-browser/src/fingerprint.rs:211-214 | `pick` gives every position 2^64 / n seeds, and one more to the first 2^64 mod n |
| Ladder.Dedupe | crates/stygian-browser/src/acquisition.rs:1666-1676 | the retain loop drops every later copy and nothing else |
| Ladder.DedupedIsDistinct | crates/stygian-browser/src/acquisition.rs:1666-1676 | what is left is distinct, has the same members, and is the input if that was distinct |
| Ladder.DedupedKeepsOrder | crates/stygian-browser/src/acquisition.rs:1666-1676 | what is left stands in the order of the first occurrences |
| Ladder.MaybeInsertBrowserbase | crates/stygian-browser/src/acquisition.rs:1679-1692 | the search loop inserts where the specification says |
| Ladder.ManagedComesBeforeSticky | crates/stygian-browser/src/acquisition.rs:1679-1692 | the managed session is added once iff enabled, directly before the sticky session or else last, and all other stages stay |
| Ladder.LadderIsDistinct | crates/stygian-browser/src/acquisition.rs:559-594 | for every mode, start stage and feature set no stage is tried twice and some stage does real work |
| Ladder.LaddersAre | crates/stygian-browser/src/acquisition.rs:559-594 | the ladders of all modes and start stages, stage by stage |
| Ladder.TimeoutStrategyIs | crates/stygian-browser/src/acquisition.rs:620-623 | which stage is blamed for a timeout of the whole run, for every mode and start stage |
| Ladder.TimeoutBlamesFirstStageIff | crates/stygian-browser/src/acquisition.rs:620-623 | the stage blamed for an outer timeout is the first working stage of the run iff the managed session was not inserted ahead of it |
| Acquisition.SuccessMeetsRequest | crates/stygian-browser/src/acquisition.rs:906-935 | a stage succeeds only with the page of its answer: its address, its status, which is unblocked, the longest whole-character prefix of its HTML within the byte budget, and the value asked for; HTTP stages never for a selector or extraction |
| Acquisition.StageOutcomes | crates/stygian-browser/src/acquisition.rs:944-974 | exactly when a stage is a marker, succeeds or fails, with which of the kinds, and which five statuses mean a block |
| Acquisition.DecidesWithoutAskingIff | crates/stygian-browser/src/acquisition.rs:944-974 | the outcome of a stage does not depend on what the outside world answers iff it is the marker or a guard stops it: selector or extraction, missing TLS feature or client for HTTP, missing opt-in or credentials for the provider |
| Acquisition.RunStages | crates/stygian-browser/src/acquisition.rs:873-904 | the stage loop ends in the closed form of its stopping point |
| Acquisition.RunInner | crates/stygian-browser/src/acquisition.rs:773-904 | short-circuits in their order, reports attached up to the deciding check, sticky sessions released iff replay defense fires, otherwise the stage loop |
| Acquisition.Run | crates/stygian-browser/src/acquisition.rs:618-649 | an expired run is empty with one timeout failure in the name of the blamed stage, any other is the inner result unchanged: the last-resort failure is never added |
| Acquisition.NeverSilent | crates/stygian-browser/src/acquisition.rs:639-646 | an unsuccessful inner result always names a failure |
| Acquisition.FailuresTellTheRun | crates/stygian-browser/src/acquisition.rs:873-904 | the attempts are a prefix of the ladder, and the failures name, in order, the attempted stages other than the marker and the winner, plus the stage time ran out for |
| Acquisition.FailuresAreOutcomes | crates/stygian-browser/src/acquisition.rs:873-904 | the failures are exactly those of the stages attempted, with their kinds, and the timeout of the stage not come to |
| Acquisition.TimesOutIff | crates/stygian-browser/src/acquisition.rs:873-888 | a run times out iff the clock has used up the budget before a stage and none before that one succeeded |
| Acquisition.RejectionsInOrder | crates/stygian-browser/src/acquisition.rs:773-872 | the first rejecting check decides the run with its own kind, and only checks up to it are reported |
| Acquisition.ManagedIsOptional | crates/stygian-browser/src/acquisition.rs:864-873 | the managed session is a stage iff built in and enabled or investigated first, and no other stage depends on it |
| Acquisition.SucceedsIff | crates/stygian-browser/src/acquisition.rs:873-904 | a run succeeds iff some stage does before time runs out; the first such stage is the last attempted and the one reported |
| Acquisition.SuccessfulRunMeetsRequest | crates/stygian-browser/src/acquisition.rs:889-898 | the page of a successful run is the one its last stage was answered with, unblocked, cut to the budget, and holds what was asked for |
| Acquisition.RoutingFailuresAreShortCircuits | crates/stygian-browser/src/acquisition.rs:657-771 | the two routing failures occur iff the run was short-circuited, alone and without attempts |
| Acquisition.StopsOnce | crates/stygian-browser/src/acquisition.rs:873-904 | the stopping point of the stage loop is unique |
| Acquisition.RunIsDetermined | crates/stygian-browser/src/acquisition.rs:773-904 | the specification of a run leaves exactly one result |
| Retry.CreateWithRetry | crates/stygian-browser/src/acquisition.rs:1515-1534 | at most `max_retries` + 1 calls with a counter that fits `u8`, retries after rate limits only, the last answer returned, the pauses as hinted or backed off |
| Retry.TotalPause | crates/stygian-browser/src/acquisition.rs:1461-1468 | k unsaturated retries without hints pause base * (2^k - 1) in total |
| Retry.BackoffGrows | crates/stygian-browser/src/acquisition.rs:1461-1468 | the delay never shrinks |
| Retry.BackoffAsDocumentedIff | crates/stygian-browser/src/acquisition.rs:1459-1468 | the delay is the saturated base * 2^n iff n <= 62 or base is 0 or at least 4 |
| Truncation.TruncateHtml | crates/stygian-browser/src/acquisition.rs:1721-1734 | the character loop computes the longest prefix that fits |
| Truncation.TruncatedIsLongest | crates/stygian-browser/src/acquisition.rs:1721-1734 | the excerpt is the longest whole-character prefix within the budget in UTF-8, and the input iff that fits |
| Similarity.JaccardSets | crates/stygian-browser/src/similarity.rs:144-171 | the two-index loop computes the score from the merge count |
| Similarity.CommonIsIntersection | crates/stygian-browser/src/similarity.rs:148-165 | on sorted lists the merge counts the multiset intersection |
| Similarity.AllCommonIffEqual | crates/stygian-browser/src/similarity.rs:148-165 | the merge matches two lists from end to end iff they are equal |
| Similarity.JaccardLaws | crates/stygian-browser/src/similarity.rs:144-171 | the list score is symmetric, in [0, 1], and 1 iff the lists are equal or at least 65535 names match |
| Similarity.JaccardIsIntersectionOverUnion | crates/stygian-browser/src/similarity.rs:166-170 | for sorted lists within `u16` the score is intersection over union of multisets |
| Similarity.WeightedLaws | crates/stygian-browser/src/similarity.rs:117-140 | the weighted score is symmetric, in (0, 1], 1 iff tag, lists and depth are equal up to the clamps, and below 0.7 for another tag |
| Similarity.PartsWeigh | crates/stygian-browser/src/similarity.rs:117-140 | everything else being the same, a fitting tag adds 0.4, and classes, attribute names and depth 0.35, 0.15 and 0.1 of what their own scores differ by |
| Similarity.DepthScoreIs | crates/stygian-browser/src/similarity.rs:129-134 | the depth score is the reciprocal of one more than the distance of the depths, cut at 65535 |
| Similarity.JaccardIsClamped | crates/stygian-browser/src/similarity.rs:166-170 | with a union of 65535 or more the score is what is shared out of 65535 |
| Similarity.OrdersAgreeIff | crates/stygian-browser/src/page.rs:1989-1993 | JavaScript's sort order and Rust's comparison agree on two names unless they first differ in a supplementary character against one from U+E000 to U+FFFF |
| Similarity.JsSortedNamesMergeIff | crates/stygian-browser/src/page.rs:1989-1993 | for every set of names, all JavaScript-sorted lists over it are counted right, by the multiset intersection of the names themselves, iff no two of the names clash |
| Similarity.ClashIsMissed | crates/stygian-browser/src/similarity.rs:148-165 | for any two clashing names there are two JavaScript-sorted lists that share one of them, and the merge finds none |
| Similarity.SharedEncoded | crates/stygian-browser/src/similarity.rs:148-165 | two lists share as many names as their UTF-8 encodings |
| Similarity.JsSortedNamesCanBeMissed | crates/stygian-browser/src/similarity.rs:148-165 | an instance with U+10000 and U+FFFF |
| Trend.ConsecutiveDrops | tools/stealth-canary/trend.py:212-237 | the backward loop counts the trailing streak |
| Trend.DropsAtLeast | tools/stealth-canary/trend.py:212-237 | the streak is at least d iff the last d pairs exist and all fall strictly |
| Trend.MonotonicRuleIff | tools/stealth-canary/trend.py:305-310 | for `monotonic_runs` >= 2 the slice test holds iff history + [current] ends in at least `monotonic_runs` - 1 drops; for smaller values only the length of the history decides |
| Trend.RaisesIff | tools/stealth-canary/trend.py:200-209 | exactly when evaluation raises, and which exception |
| Trend.HardFailIsCutoff | tools/stealth-canary/trend.py:157-172 | for a fixed history, configuration and baseline a verdict is a hard failure iff the score is below one cutoff |
| Trend.RaisingNeverFails | tools/stealth-canary/trend.py:240-367 | raising the score never creates a failure or an exception |
| Trend.OneRunAlwaysFails | tools/stealth-canary/trend.py:305-310 | with `monotonic_runs` 1 every sufficiently long history fails whatever the score |
| Trend.MeanBounds | tools/stealth-canary/trend.py:200-209 | the rolling mean lies between the bounds of the scores in its window |
| Trend.MeanMoves | tools/stealth-canary/trend.py:200-209 | for every window, positive or not: raising one of its n scores by d raises the mean by d / n, and scores before it do not count |
| Trend.MeanOfEqual | tools/stealth-canary/trend.py:200-209 | equal scores are their own mean |
| Trend.VerdictReports | tools/stealth-canary/trend.py:279-367 | the exact status, in the order short history, falling streak, single drop, stable, with run count, mean, delta, streak and breach as reported |
| Mouse.BezierIsBernstein | crates/stygian-browser/src/behavior.rs:60-76 | De Casteljau evaluation equals the cubic Bernstein polynomial |
| Mouse.BezierStaysInBox | crates/stygian-browser/src/behavior.rs:60-76 | the curve hits its end points and stays in any box around its control points |
| Mouse.CurveIsLinePlusBulge | crates/stygian-browser/src/behavior.rs:216-236 | a path's curve is the straight line at constant speed plus a bulge along the normal |
| Mouse.EvenProgressIff | crates/stygian-browser/src/behavior.rs:216-236 | progress towards the target is even iff the move is longer than a pixel, the bulge is nil or the move is vertical |
| Mouse.BulgeIsBounded | crates/stygian-browser/src/behavior.rs:224-236 | the curve strays sideways at most three quarters of the larger offset, and not at all at its ends |
| Mouse.NormalLaws | crates/stygian-browser/src/behavior.rs:216-222 | the normal has length one and, beyond a pixel, points to the left of the move |
| Mouse.OffsetScaleIs | crates/stygian-browser/src/behavior.rs:224-226 | the offset scale is the smaller of 200 and 0.35 times the distance |
| Mouse.StepsFollowDistance | crates/stygian-browser/src/behavior.rs:210-213 | the number of steps is the distance over 8, rounded, within 12 and 120, with the exact limits |
| Mouse.MouseSimulator.RandNormal | crates/stygian-browser/src/behavior.rs:51-56 | a deviate uses two draws |
| Mouse.DeviatesAreDefined | crates/stygian-browser/src/behavior.rs:41-56 | the Box-Muller formula is asked only for a first number in (0, 1) and a second one in [0, 1), where it is defined |
| Mouse.UniformIs | crates/stygian-browser/src/behavior.rs:41-47 | a uniform number is the upper 53 bits of its draw over 2^53 |
| Mouse.DeviateIs | crates/stygian-browser/src/behavior.rs:51-56 | the first of the next two draws, kept away from zero, and the second, in this order |
| Mouse.AwayFromZeroIs | crates/stygian-browser/src/behavior.rs:51-56 | the larger of a number and 1e-10 |
| Mouse.MouseSimulator.ComputePath | crates/stygian-browser/src/behavior.rs:199-247 | the path has one point more than steps (13 to 121), each on the curve plus its own jitter from its own four draws, and the generator advances by four draws a point and four for the offsets |
| Mouse.PathEnds | crates/stygian-browser/src/behavior.rs:199-247 | without jitter a path starts at the start and ends at the target |
| Mouse.PathPointIs | crates/stygian-browser/src/behavior.rs:199-247 | every point is the line at its share of the way, plus a bulge between offsets of spread 0.5 and 0.4 times the scale, plus jitter of spread 0.4, each from its own draws |

## Left out

- Launching Chrome, CDP, page handling, HTTP and the Browserbase API are answers of the environment; what they do inside is not modelled.
- Instances and leases are values that move between holders, since Rust's ownership makes them unique. The `healthy` field of `browser.rs` changes only while a handle holds the instance, and `shutdown` appears as the instance being gone. Swapping the instances of two handles through `browser_mut` is excluded.
- The clock of the pool is any non-decreasing number, and every timeout may fire at any time; fairness of the semaphore and real durations are not modelled.
- A sweep takes the lock, reads clock and counter and decides in one step. The queues change in that step, since nobody else sees them before the lock is free. The mark and the spawned shutdown of one entry are one step, its subtraction from the counter another. The class runs a sweep without interruption; the interleavings are those of the state machine.
- `active_count` is unbounded upwards; `fetch_sub` wraps at zero as in the code. `pick` is modelled for a 64-bit `usize`.
- Dropping the future of `BrowserPool::new` during warm-up, or of `release_context` between two entries, is not an event.
- `BrowserPool::stats`, `context_ids` and the metrics counters read state and change nothing. `context_ids` may list contexts whose queue has run empty.
- `f32` and `f64` arithmetic is over the reals: the scores of `Similarity`, the means of `Trend`, float and rectangle noise and mouse coordinates have no rounding. The fused multiply-adds are plain, and `r / 6` in JavaScript and `r * (1 / 6)` in Rust are the same number here.
- The Box-Muller formula and `hypot` are inputs of `Mouse`: any function of two uniform numbers, and any number whose square is the squared distance.
- PortLimits.PortAgreesIff: covers operations with at most one character outside ASCII. With more of them both outcomes occur, and which one it is depends on the permutations the two encodings stand for.
- The freshness, replay-defense, interstitial and transport classifiers are inputs of the runner; failure messages, report contents and the mapping of browser errors to failure kinds are not modelled.
- A build without the `browserbase` feature has no managed strategy at all; the model keeps the constructor and just never inserts it.
- `html.len()` and the scanning loop see a string as its sequence of Unicode scalar values; byte-level storage is represented by the UTF-8 encoding functions.
- The injected scripts other than the noise functions, fingerprint templates, typing and scrolling simulation, configuration, error and metrics plumbing would only add easy members.
- The candidate scan, sorting and limit of `find_similar`, and the aggregation, history files and reports around the trend verdict.
