# Governor admission control: model and proofs

The Governor decides whether a token-serving scheduler may admit one more request without pushing running
requests below a tokens-per-second reference. It has two layers. A native controller keeps rolling 60 s and 2 s
windows of Decode tokens and sequence-seconds in rings of 121 half-second slots that are recycled lazily: one for
the aggregate, one for the current run, and one for each cell of a surface indexed by Decode concurrency and
context-pressure class. A scheduler on top keeps the reservation ledger, the exploration budget, health-check
contamination, pending batch evidence and the drain of a changed runtime identity. This project models both, and
the contract between them.

The controller appears three times. `CoreSpec` is the controller as a value over an unbounded log of samples and
exposure spans, with no rings at all. `Controller` is the controller in place: `State` and `SurfaceCell` are classes
over arrays and a map, the clock advances in a loop, evidence is summed in a loop, and every call runs on a clone.
Each of its methods is proved to give the outputs, refusals and new state of the log. `CoreRuns` then treats the
calls as steps, so that what is proved about runs over the log holds of the rings.

The scheduler likewise appears as a value (`Scheduler`, `Hooks`) and in place (`Adapter`, `Sglang`): one object, its counters,
and native requests that carry their reservation and progress, around a real controller object. `Scheduler.Next` is
one call made by anyone, in any order; a run is any sequence of them.

| file | what it holds |
|---|---|
| `Ticks`, `Ledger` | half-second ticks, the unbounded log and its window readings |
| `Ring` | 121 recycled slots that mirror the log on every readable tick |
| `CoreSpec`, `CoreRuns` | the controller over the log; its invariant over every run of calls |
| `Controller` | the controller in place, and the clone-act-publish handle |
| `Forecasts`, `Transparency`, `Horizon`, `Profile` | what decisions mean, what reads leave behind, profiles there and back |
| `Scheduler`, `Ledgers`, `Joint` | the scheduler's steps, its exact counters, agreement with the core |
| `Conservation`, `Lifecycles` | tokens and exposure over runs; capacity, probes, health checks, epochs, stalls |
| `Exposure`, `DecodeTime` | exposure that is charged, owed and dropped; the request it was spent on |
| `Provenance` | which cell, run and epoch a token is of |
| `Hooks`, `HookRuns` | the native hooks as values: the calls they make, when they succeed, what they leave; runs of them |
| `Drives`, `Trailing` | the core's calls behind the scheduler's; reads of the core seen from the scheduler |
| `Adapter`, `Sglang` | the scheduler and the native hooks in place |
| `CoreLaws`, `SchedulerLaws`, `CommitLaws`, `PolicyLaws`, `HookLaws` | what each operation amounts to in tokens, seconds, requests and fields, and the policy and identity in force after any run |
| `System`, `Witnesses` | a created system, and what holds of all its runs; concrete runs |

The modules that end in `Laws` say what each operation amounts to in tokens, seconds, requests and fields, whatever
the function that computes it looks like: a cell's bound times its seconds is its tokens, a batch is charged to the
heaviest class among those decoding, an accepted change installs what it gives. The simplest operations have such
laws there too, which the table does not list. The other modules build on these
operations over whole runs.

Where a promise holds only up to a condition, the condition is stated and, for the code's own exceptions, exact. A
read is invisible to later calls of the core unless the next call that moves the clock is a quarantine:
`Horizon.QuarantineSeesRead` says precisely when some later output can tell. Exposure reaches the surface in full but
for what health checks and contaminated commits drop: `Exposure.ExposureExactly` says how much that is, and that it is
none exactly when those calls owed nothing. `Witnesses` has a concrete run for either exception.

Epoch separation needs what the native runtime promises: results only for requests that still hold their grant or
have already ended, no progress on health checks, no release of a decoding request. That is `Lifecycles.Native`. A run
of hooks that is `HookRuns.HonestRun` is proved to be a run of such calls.

## Model

| member | source | states |
|---|---|---|
| `Ledger.WindowSplits` | rust/src/lib.rs:387-402 | Window readings of the unbounded log add up over adjacent tick ranges, tokens and sequence-seconds alike |
| `Ledger.ExposeAdds` | rust/src/lib.rs:364-385 | Charging a span adds to every window exactly the integral of the active count over the part of the span inside it |
| `Ledger.ExposeTwice` | rust/src/lib.rs:364-385 | Charging a span in two parts leaves the very same log as charging it at once |
| `Ledger.WiderWindow` | rust/src/lib.rs:387-402 | A wider window never shows less |
| `Ledger.LaterWindow` | rust/src/lib.rs:387-402 | A window reaching past the last write reads as one that ends there |
| `Ledger.NothingOutside` | rust/src/lib.rs:387-402 | No evidence lies before time zero or after the last write |
| `Ticks.WindowTicks` | rust/src/lib.rs:32-35 | A 60 s window reaches back exactly 120 ticks and a 2 s window exactly 4, so 121 slots hold every tick a window can read |
| `Ring.RingReadsLog` | rust/src/lib.rs:387-402 | Summing the slots filed inside a window reads the unbounded log exactly, although slots are recycled by tick modulo 121 |
| `Ring.SampleMirrors` | rust/src/lib.rs:344-350 | Recycling the slot of the current tick and adding to it is one more sample in the log; the ring still mirrors it |
| `Ring.AdvanceBegins` | rust/src/lib.rs:368-371 | Clamping a gap longer than the window loses nothing a later window can read |
| `Ring.AdvanceTurns` | rust/src/lib.rs:371-381 | One turn of the clock loop charges exactly the part of the gap inside the tick it starts in |
| `Ring.AdvanceEnds` | rust/src/lib.rs:371-383 | When the loop reaches the new time, the ring mirrors the log with the whole gap charged |
| `Ring.QuietAdvance` | rust/src/lib.rs:364-385 | Time that passes without charging leaves ring and log in step at the later time |
| `Ring.TurnBounds` | rust/src/lib.rs:372-376 | Each turn makes progress and stays inside one tick, so the zero-progress refusal cannot occur |
| `Ring.Slot` | rust/src/lib.rs:344-358 | Selects slot tick mod 121, clearing it exactly when it was filed under another tick |
| `Ring.Evidence` | rust/src/lib.rs:387-402 | The loop over 121 slots returns the log's token count and sequence-seconds, and refuses exactly when the count does not fit u64 |
| `Controller.ChargeGap` | rust/src/lib.rs:368-382 | The clock loop charges both rings with exactly the elapsed span, in at most 121 turns |
| `Controller.SurfaceCell.Observe` | rust/src/lib.rs:193-213 | In-place cell observation: new ring, times and qualification are those of the log with one more sample; refused exactly when that sample is |
| `Controller.SurfaceCell.IsQualified` | rust/src/lib.rs:215-221 | Recent qualification and enough exposure in the 60 s window of the log |
| `Controller.SurfaceCell.Lower` | rust/src/lib.rs:223-242 | The lower of the log's long and short rates, where they exist |
| `Controller.SurfaceCell.Admissible` | rust/src/lib.rs:252-258 | The short rate once the short window alone carries the minimum exposure, the lower bound until then |
| `Controller.State.constructor` | rust/src/lib.rs:291-313 | A fresh state shows the empty log |
| `Controller.State.Clone` | rust/src/lib.rs:1012-1014 | A clone has its own rings and cells and shows the same log |
| `Controller.State.AdvanceClock` | rust/src/lib.rs:364-385 | The lazily charged rings show the unbounded log charged up to `now`; refused exactly on a bad or backward clock |
| `Controller.State.RecordTokens` | rust/src/lib.rs:404-409 | Adds tokens to the current tick; refused exactly when the 60 s window of the log no longer fits u64 |
| `Controller.State.UpdateActiveRun` | rust/src/lib.rs:715-731 | Starts a run when Decode resumes from idle, and records tokens of a running one |
| `Controller.State.RecordActiveRunTokens` | rust/src/lib.rs:411-415 | Adds tokens of the run to the current tick; refused exactly when that tick no longer fits u64 |
| `Controller.State.Blend` | rust/src/lib.rs:668-703 | A live and a prior bound of one key give the bound of the log, reprobe included |
| `Controller.State.Entry` | rust/src/lib.rs:477-480 | Finds or creates the cell of a key, aliasing no other cell |
| `Controller.State.ObserveInPlace` | rust/src/lib.rs:417-428 | New state and refusals are those of an observation on the log |
| `Controller.State.QuarantineInPlace` | rust/src/lib.rs:430-440 | Drops the interval it closes, ends the run, sets the flag |
| `Controller.State.ObserveSurfaceInPlace` | rust/src/lib.rs:460-484 | New state and refusals are those of a surface observation on the log |
| `Controller.State.ObserveBatchInPlace` | rust/src/lib.rs:486-517 | Cell, aggregate and run are charged as on the log; refused for the same inputs |
| `Controller.State.ObserveReplacementInPlace` | rust/src/lib.rs:545-578 | As a batch or a plain observation, after which the run starts empty |
| `Controller.State.PrefillInPlace` | rust/src/lib.rs:603-612 | Records the end and wall of a Prefill; refused for a wall not positive or beyond the clock |
| `Controller.State.UpdateReferenceInPlace` | rust/src/lib.rs:614-625 | Compare-and-swap on the revision: conflict, overflow and success as on the log |
| `Controller.State.StartSurfaceEpochInPlace` | rust/src/lib.rs:627-646 | Forgets all evidence and priors, keeps policy, restarts the clock |
| `Controller.State.BoundForKey` | rust/src/lib.rs:652-704 | The bound of one key on the log: live, prior, reprobe or none |
| `Controller.State.HasQualifiedLive` | rust/src/lib.rs:706-713 | Whether any cell of the log has qualified live evidence |
| `Controller.State.AggregateLiveLowerBound` | rust/src/lib.rs:733-772 | The current run's own bound on the log |
| `Controller.State.LeastHeavierBound` | rust/src/lib.rs:861-886 | The scan over heavier keys finds what the scan over the log finds |
| `Controller.State.DecideAt` | rust/src/lib.rs:837-952 | At an advanced clock, reason, rate, evidence key and flags are those decided on the log |
| `Controller.State.Record` | rust/src/lib.rs:423-426 | Tokens recorded in aggregate and run, then the new active count, or a refusal |
| `Controller.State.ObserveCellAt` | rust/src/lib.rs:477-481 | Only the cell of this key changes, as one observation on the log |
| `Controller.State.Seed` | rust/src/lib.rs:332-341 | Installs priors and deadline in a fresh state |
| `Controller.State.AdmissionInPlace` | rust/src/lib.rs:824-953 | The decision on rings is the decision on the unbounded log, and the state moves only by the clock |
| `Controller.State.SnapshotInPlace` | rust/src/lib.rs:804-822 | The view read from the rings is the view of the log |
| `Controller.State.ExportInPlace` | rust/src/lib.rs:774-802 | The exported cells are those of the log, in key order; refused beyond capacity |
| `Controller.State.ChooseInPlace` | rust/src/lib.rs:955-989 | The preference decided on the rings is that of the log |
| `Controller.LoadPriors` | rust/src/lib.rs:332-338 | One invalid cell or repeated key refuses the whole import |
| `Controller.Governor.WithProfile` | rust/src/lib.rs:315-342 | All-or-nothing creation from a profile; the state shows the imported priors and deadline |
| `Controller.Governor.Transaction` | rust/src/lib.rs:1004-1017 | Clone, act, publish: each call is one step of the log-based controller, and a refused call leaves the very same state object |
| `CoreRuns.RunSound` | rust/src/lib.rs:360-646 | Over every run of calls: no token without exposure, the run's tokens within the aggregate's, safe windows, valid keys, times in order |
| `CoreRuns.SafeLater` | rust/src/lib.rs:404-409 | A window that fits u64 at a write fits at every later read until the next write |
| `CoreRuns.RunNeverOverflows` | rust/src/lib.rs:411-415 | The overflow check on the run ring never fires after the aggregate's check passed |
| `CoreRuns.WindowWithinCapacity` | rust/src/lib.rs:387-402 | In every run of a paced controller the 60 s window holds at most 60.5 s for each slot, and never less than the 2 s window |
| `CoreRuns.NewPaced` | rust/src/lib.rs:291-313 | A fresh controller is paced |
| `CoreRuns.NewWithProfilePaced` | rust/src/lib.rs:315-342 | So is one created with a profile |
| `Forecasts.SelectMeaning` | rust/src/lib.rs:856-886 | The chosen evidence is the exact key's bound, else the least bound over all jointly heavier keys, the first key on ties; none is chosen exactly when none exists |
| `Forecasts.SelectedUnique` | rust/src/lib.rs:861-886 | At most one key is that evidence |
| `Forecasts.AllowedExactly` | rust/src/lib.rs:888-952 | With a positive reference: allowed if and only if the selected bound and the run's own bound, where there is one, reach the reference |
| `Forecasts.PriorCapsForecast` | rust/src/lib.rs:670-703 | An active prior caps its key; it overrides a slower live rate only for one vacated slot, after a quiet short window, with a run of its own evidence |
| `Forecasts.StallBound` | rust/src/lib.rs:750-772 | The aggregate bound of a running controller is zero if and only if its last token has left the 2 s window |
| `Forecasts.StalledRunAdmitsNothing` | rust/src/lib.rs:888-910 | In every run, 2.5 s after the last run token nothing is admitted under a positive reference |
| `Forecasts.ReadingsFit` | rust/src/lib.rs:387-402 | From every reachable state no window of any ring overflows, and the export fits 4 x max cells |
| `Forecasts.ReadsNeverFail` | rust/src/lib.rs:774-989 | In every run snapshot, admission, choose and a full-capacity export are refused if and only if the clock or the argument is invalid |
| `Forecasts.PrefillEndIsLatest` | rust/src/lib.rs:603-612 | The stored Prefill end is that of the latest accepted Prefill of the epoch |
| `Forecasts.PreferenceIsBrief` | rust/src/lib.rs:955-989 | In every run Decode is preferred only strictly within 0.25 s of the latest Prefill, however often it is asked |
| `Forecasts.AgeOnlyEndsPreference` | rust/src/lib.rs:985-988 | A longer queue age never turns the answer from 0 to 1 |
| `Forecasts.SignalBetweenRates` | rust/src/lib.rs:972-978 | The signal lies between the long and the short rate |
| `Forecasts.PreferredAtPrefillEnd` | rust/src/lib.rs:964-988 | At the instant a Prefill ends Decode is preferred if and only if its rate is short of the reference and the inputs are usable |
| `Forecasts.PreferenceRepays` | rust/src/lib.rs:979-988 | Decode is preferred only until the tokens the Prefill cost it, measured at the reference rate, are made up |
| `Transparency.AdvanceTwice` | rust/src/lib.rs:360-385 | Advancing in two steps gives the very same state as advancing once |
| `Transparency.ExactTransparency` | rust/src/lib.rs:774-836 | A snapshot, forecast or export changes no later output of any later run, unless the next clock-moving call is a quarantine |
| `Transparency.ReadTransparency` | rust/src/lib.rs:774-989 | The same with choose as the read, up to the preference deadline it rewrites and snapshots show |
| `Horizon.RunAlike` | rust/src/lib.rs:360-989 | Controllers whose logs agree on every window still reachable answer every later run of calls alike |
| `Horizon.QuarantineSeesRead` | rust/src/lib.rs:430-440 | Some output of some later run tells an earlier read from none, across a quarantine, if and only if that read charged exposure (active, clean, later than the last clock) that reaches past the first tick of the 60 s window at the quarantine |
| `Profile.ExportMeaning` | rust/src/lib.rs:774-801 | The export lists exactly the keys with qualified live evidence, once each, in ascending order |
| `Profile.ExportCellValid` | rust/src/lib.rs:115-139 | Every exported cell passes validation and states exactly its derived lower rate |
| `Profile.ExportNeverAboveForecast` | rust/src/lib.rs:244-258 | The exported rate is never above the rate the same evidence admits by |
| `Profile.MissingExactly` | python/pig_governor/profile.py:180-192 | A key is missing if and only if it is on the surface and no cell dominates it |
| `Profile.CoverageCounts` | python/pig_governor/profile.py:186-192 | The count is the number of surface keys that are covered, so missing plus count is 4 x max; the missing keys come in ascending order |
| `Profile.MissingClosedUpward` | python/pig_governor/profile.py:180-192 | Whatever is missing stays missing for every heavier key |
| `Profile.UnknownExactly` | rust/src/lib.rs:938-951 | With a positive reference the decision is unknown if and only if no dominating key has a bound |
| `Profile.CoverageMatchesCore` | python/pig_governor/profile.py:180-192 | Without an active prior the core answers unknown on exactly the keys missing from its own export |
| `Profile.ValidateCells` | python/pig_governor/profile.py:238-300 | The cell loop accepts exactly the strictly ascending lists of valid cells, and returns their evidence unchanged |
| `Profile.BuildCells` | python/pig_governor/profile.py:464-492 | Building sorts the flat cells and accepts exactly when the sorted list is canonical |
| `Profile.SortedInOrder` | python/pig_governor/profile.py:481-481 | The sort keeps every cell and orders them by key |
| `Profile.ExportImports` | rust/src/lib.rs:315-342 | Every export of a reachable state is a canonical document and seeds a fresh controller with exactly those priors |
| `Profile.ExportRoundTrip` | rust/src/lib.rs:774-801 | A controller seeded with an export forecasts each exported rate exactly at its key until the deadline |
| `Profile.SeededCoverageMatches` | python/pig_governor/profile.py:180-192 | A controller seeded with an export answers unknown on exactly the missing keys of that export |
| `Ledgers.ReleaseExact` | python/pig_governor/scheduler.py:324-346 | Release succeeds exactly for an unreleased reservation and lowers the count by one; both underflow errors are unreachable |
| `Ledgers.AdmitLedger` | python/pig_governor/scheduler.py:305-322 | After any admission every counter still equals the count over unreleased reservations |
| `Ledgers.AdmitFreshCases` | python/pig_governor/scheduler.py:291-322 | An admission either changes only the core or makes one reservation on terms that held: no pause, room to wait, probe budget |
| `Ledgers.ProposeFaithful` | python/pig_governor/scheduler.py:405-448 | A proposal moves the Decode counts and token total by exactly what its new progress moves them |
| `Ledgers.ProposalShows` | python/pig_governor/scheduler.py:446-448 | Each accepted result is what its request shows afterwards; a terminal request is untouched |
| `Ledgers.CommitTally` | python/pig_governor/scheduler.py:450-456 | After a commit the active count and each class count equal those of decoding requests |
| `Joint.ObserveAccepts` | rust/src/lib.rs:417-428 | An observation is accepted if and only if the count fits, the clock does not go back and the window has room |
| `Joint.BatchAccepts` | rust/src/lib.rs:486-517 | A batch observation is accepted if and only if its charge is well formed, the count fits, the clock holds and both windows have room |
| `Joint.ReplacementAccepts` | rust/src/lib.rs:545-578 | The same for a replacement of the whole running set |
| `Joint.AdmitFreshExact` | python/pig_governor/scheduler.py:236-304 | A fresh admission fails only on the clock and then changes nothing; a health check is allowed if and only if it fits, and only then quarantines |
| `Joint.SettleAccepts` | python/pig_governor/scheduler.py:473-538 | A clean settlement is refused if and only if the clock, native capacity or a u64 does not fit |
| `Joint.CommitRefusedOnlyFor` | python/pig_governor/scheduler.py:450-548 | From every agreed state a well-formed commit is refused if and only if clock, capacity or u64 room fails: never for counts, zero exposure or a replacement mismatch |
| `Joint.NextAgreed` | python/pig_governor/scheduler.py:176-570 | Every call keeps both sides in agreement: counts, class sums, quarantine flag, clocks, exact ledgers, valid pending evidence |
| `Joint.RunAgreed` | python/pig_governor/scheduler.py:176-570 | Agreement over every run of calls in any order |
| `Joint.OpenAgreed` | python/pig_governor/scheduler.py:68-90 | A scheduler opened over a fresh core of the same native maximum agrees with it |
| `Conservation.SettleBalances` | python/pig_governor/scheduler.py:481-538 | Pending before plus the batch equals pending after, delivered and discarded |
| `Conservation.SettleCharges` | python/pig_governor/scheduler.py:473-518 | A clean commit writes one sample to the cell of the batch-start count and heaviest class, and one to the aggregate, and nothing else |
| `Conservation.StepConserved` | python/pig_governor/scheduler.py:405-548 | Every call keeps the token and exposure accounts balanced |
| `Conservation.RunConserved` | python/pig_governor/scheduler.py:405-548 | Over every run delivered + pending + discarded is the sum of output minus one over requests that ever decoded; aggregate and surface agree |
| `Conservation.CoreNeverOvercounts` | python/pig_governor/scheduler.py:481-548 | Over every run the core plus pending never exceeds the tokens actually decoded |
| `Conservation.StepGap` | python/pig_governor/scheduler.py:459-518 | A call changes the exposure the surface will never get if and only if it drops exposure that is owed: a granted health check or an accepted contaminated commit, and then by all that is owed; a rotation clears it |
| `Conservation.CleanStepGap` | python/pig_governor/scheduler.py:473-518 | Without quarantine a call leaves that exposure as it was, or clears it by a rotation |
| `Conservation.CleanRunChargesAllExposure` | python/pig_governor/scheduler.py:473-518 | In runs without quarantine the surface has been charged exactly the integral of the active count up to the last commit |
| `Provenance.SettleCell` | python/pig_governor/scheduler.py:481-538 | For every cell a clean commit balances pending, delivered, lost and what the batch produced for the running and for the next run; a run it begins inherits nothing |
| `Provenance.StepBalanced` | python/pig_governor/scheduler.py:405-548 | Every call keeps every cell's book balanced, over the epoch and over the current run |
| `Provenance.PendingStaysInRun` | python/pig_governor/scheduler.py:481-548 | In every run of calls, for every cell: its gain since Decode last began plus what is pending is at most what this run produced for that very cell, and no older token is pending |
| `Provenance.DecisionStands` | python/pig_governor/scheduler.py:186-194 | Whatever is called after a grant, asking for the request again changes nothing, and is answered by the same decision until the release and by an error after it |
| `Provenance.StepEarnsHere` | python/pig_governor/sglang.py:397-437 | Within an epoch a native call earns tokens only for requests admitted in it |
| `Provenance.EpochTokens` | python/pig_governor/sglang.py:251-283 | In every native run the tokens the core holds or awaits are at most those earned by requests admitted in the current epoch |
| `Exposure.ExposureExactly` | python/pig_governor/scheduler.py:459-518 | Over every run the aggregate holds what the surface was charged, what is owed, and exactly what health checks and contaminated commits dropped since the epoch began; the surface misses none if and only if none of those calls owed anything |
| `Exposure.UnmetExactly` | python/pig_governor/scheduler.py:459-471 | The dropped exposure is never negative, and zero if and only if nothing owed was dropped in the epoch |
| `Exposure.ReadThenQuarantineDrops` | rust/src/lib.rs:430-440 | A read while Decode runs, then an accepted contaminated commit, drops exactly the exposure the read charged |
| `Witnesses.SomeExposureIsDropped` | rust/src/lib.rs:430-440 | A concrete run from creation in which the surface never gets a charged second |
| `Witnesses.SomeReadIsSeen` | rust/src/lib.rs:430-440 | A concrete reachable core at which a quarantine tells a read from none |
| `DecodeTime.StepCharges` | rust/src/lib.rs:364-385 | A call that keeps the epoch charges each active sequence for the time by which it extends the charge, and nothing else |
| `DecodeTime.ExposureByRequest` | rust/src/lib.rs:364-385 | Over every run the aggregate's sequence-seconds are the decoding time of its requests in this epoch, request by request |
| `DecodeTime.EpochExposure` | python/pig_governor/sglang.py:251-283 | Over every native run only requests admitted in the current epoch have any of it |
| `Drives.CoreFollows` | python/pig_governor/scheduler.py:176-570 | Each call of the scheduler moves its core by exactly these calls of the core |
| `Drives.RunFollows` | python/pig_governor/scheduler.py:176-570 | In every run of the scheduler the core is where the run of its calls leaves it, so what holds of every core run holds here |
| `Drives.ReportStep` | python/pig_governor/scheduler.py:564-565 | Only an accepted Prefill report sets the Prefill end and only a rotation clears it |
| `Drives.PreferenceIsBrief` | python/pig_governor/scheduler.py:567-570 | In every run of the scheduler Decode is preferred only strictly within 0.25 s of the latest Prefill it reported in the epoch |
| `Drives.WindowWithinCapacity` | rust/src/lib.rs:387-402 | In every run of the scheduler the 60 s window holds at most 60.5 s of every native slot |
| `Trailing.StepTrails` | python/pig_governor/scheduler.py:176-570 | After a read of the core every calm call answers the same and leaves the same scheduler but for the core's clock |
| `Trailing.ReadTransparency` | python/pig_governor/scheduler.py:370-381 | A read of the core changes no later answer and no field of the scheduler in any run that does not look before it and drops no exposure until the read is overtaken |
| `Lifecycles.AdmitWithinCaps` | python/pig_governor/scheduler.py:203-220 | Only a fresh admission raises the count, within the caps in force; a health check stays within running slots |
| `Lifecycles.StepWithinCaps` | python/pig_governor/scheduler.py:291-316 | No call but an admission raises the count; above a lowered cap it can only fall |
| `Lifecycles.NeverAboveNativeLimit` | python/pig_governor/scheduler.py:348-368 | Over every run and policy change the count stays within the native maximum plus three |
| `Lifecycles.ExplorationBudget` | python/pig_governor/scheduler.py:98-124 | Any interval of length T of any run holds at most floor(T/2)+1 probe starts |
| `Lifecycles.ProbesNeverOverlap` | python/pig_governor/scheduler.py:308-344 | No two unreleased reservations are both probes |
| `Lifecycles.ProbeRestsOnEvidence` | python/pig_governor/scheduler.py:98-142 | A granted probe is the only request or rests on live evidence 1.25 times the reference one slot below; a recovery probe also needs a drained, clean, quiet scheduler |
| `Lifecycles.DirtyStep` | python/pig_governor/scheduler.py:459-471 | While contaminated no call changes a bucket but a rotation; contamination ends only so or by a commit with no health check out |
| `Lifecycles.HealthIsolation` | python/pig_governor/scheduler.py:229-322 | From the admission of a health check up to and including the first commit accepted with none outstanding, no aggregate or surface evidence changes, whatever is called, short of a rotation |
| `Lifecycles.EpochSeparation` | python/pig_governor/sglang.py:251-283 | With the native caller, in every run decoding requests and health checks are distinct outstanding ones, all of the current epoch |
| `Lifecycles.BatchOfThisEpoch` | python/pig_governor/sglang.py:397-437 | A batch adds only work of requests admitted in the current epoch |
| `Lifecycles.RotationDrained` | python/pig_governor/sglang.py:251-283 | A rotation or the end of a pause happens only with nothing outstanding or decoding, so no reservation spans it |
| `Lifecycles.StalledSystemAdmitsNothing` | python/pig_governor/scheduler.py:98-142 | In every native run of the whole system, 2.5 s after the last token of a live run under a positive reference no fresh request but a health check is admitted, probes included |
| `Adapter.SchedulerGovernor.constructor` | python/pig_governor/scheduler.py:68-90 | The object agrees with its core from the start |
| `Adapter.SchedulerGovernor.ReleaseRequest` | python/pig_governor/scheduler.py:324-346 | Request and counters change as the release step says; nothing else does |
| `Adapter.SchedulerGovernor.UpdatePolicy` | python/pig_governor/scheduler.py:348-368 | Both sides change together or not at all |
| `Adapter.SchedulerGovernor.RefreshIdentity` | python/pig_governor/sglang.py:251-283 | Pause, drain and rotation as the identity step says |
| `Adapter.SchedulerGovernor.ProgressFor` | python/pig_governor/sglang.py:382-395 | Creates progress once, from the reservation's class |
| `Adapter.SchedulerGovernor.ExplorationBlocker` | python/pig_governor/scheduler.py:98-124 | The first reason that blocks a probe, if any |
| `Adapter.SchedulerGovernor.RecoveryBlocker` | python/pig_governor/scheduler.py:126-142 | The first reason that blocks a recovery probe, if any |
| `Adapter.SchedulerGovernor.Judge` | python/pig_governor/scheduler.py:259-304 | The verdict on a forecast, then the waiting and running limits |
| `Adapter.SchedulerGovernor.AdmitRequest` | python/pig_governor/scheduler.py:176-322 | Decision, reservation, counters and core are those of the admission step |
| `Adapter.SchedulerGovernor.ProposeBatch` | python/pig_governor/scheduler.py:405-448 | The loop stages what the proposal function says, or the same refusal, touching nothing |
| `Adapter.SchedulerGovernor.PlanCharge` | python/pig_governor/scheduler.py:473-536 | The one observation a clean commit makes and what stays pending |
| `Adapter.SchedulerGovernor.CommitBatch` | python/pig_governor/scheduler.py:383-548 | Requests, counters, pending evidence and core are those of the commit step, all or nothing |
| `Adapter.SchedulerGovernor.PrefillCompleted` | python/pig_governor/scheduler.py:564-565 | Reports a Prefill as long as completion minus launch to the core; nothing of the scheduler changes |
| `Adapter.SchedulerGovernor.PreferDecode` | python/pig_governor/scheduler.py:567-570 | Answers as the core does at that time; nothing of the scheduler changes |
| `Adapter.SchedulerGovernor.AdmitFresh` | python/pig_governor/scheduler.py:196-322 | Forecast, verdict, limits and reservation of a request seen for the first time, as the step says |
| `Adapter.SchedulerGovernor.Weigh` | python/pig_governor/scheduler.py:426-448 | What one result means: entering, leaving, its token delta and the new progress, or the clock and output refusals |
| `Adapter.SchedulerGovernor.CheckUpdate` | python/pig_governor/scheduler.py:411-426 | The refusals of one update in the code's order; a terminal request is skipped |
| `Adapter.SchedulerGovernor.SettleClean` | python/pig_governor/scheduler.py:473-538 | Core and pending evidence after a clean commit are those of the settlement, or nothing changes |
| `Sglang.SglangGovernor.AdmitRequest` | python/pig_governor/sglang.py:153-161 | State and decision or error are those of refresh-then-admit |
| `Sglang.SglangGovernor.UpdatePolicy` | python/pig_governor/sglang.py:328-338 | State and result are those of refresh-then-update: a conflict while an identity drains |
| `Sglang.SglangGovernor.AfterResult` | python/pig_governor/sglang.py:397-437 | State and result are those of the hook as a value |
| `Sglang.SglangGovernor.Collect` | python/pig_governor/sglang.py:397-430 | Updates, releases, contamination, attached progress and the refusal are those of reading the batch as a value |
| `Sglang.SglangGovernor.CollectOne` | python/pig_governor/sglang.py:402-430 | The same for one result |
| `Sglang.SglangGovernor.Finish` | python/pig_governor/sglang.py:431-437 | State and result of the commit if there is anything to say, then the releases, then the Prefill report |
| `Sglang.SglangGovernor.AbortEmitted` | python/pig_governor/sglang.py:467-476 | State and result are those of the abort as a value |
| `Hooks.RefreshThenCalls` | python/pig_governor/sglang.py:153-161 | Refresh-then-admit and refresh-then-update are one call each of the scheduler's runs |
| `Hooks.AfterResultIsRun` | python/pig_governor/sglang.py:397-437 | A batch result is exactly this run of calls: refresh, an attach per governed result, at most one commit, one release per ended request, and the Prefill report |
| `Hooks.AbortIsRun` | python/pig_governor/sglang.py:467-476 | An abort is exactly at most one commit and one release |
| `Hooks.ReadExactly` | python/pig_governor/sglang.py:397-430 | A batch is read if and only if each result is readable; its updates are those of the governed results, its releases those of the ended ones, and it is contaminated if and only if the scheduler was or a health check took part |
| `Hooks.AfterResultAccepts` | python/pig_governor/sglang.py:397-437 | A batch result succeeds if and only if the refresh, every reading, the one commit and the Prefill report do: releases never fail |
| `Hooks.AfterResultDoes` | python/pig_governor/sglang.py:397-437 | On success every governed result is shown, exactly the ended requests are released, and a clean extend batch is the latest Prefill |
| `Hooks.AbortDoes` | python/pig_governor/sglang.py:467-476 | An abort succeeds if and only if its commit does, and then the request is ended at its accounted length and released |
| `Hooks.AfterResultNative` | python/pig_governor/sglang.py:397-437 | An honest batch makes only the calls that the native caller may make |
| `Hooks.AbortNative` | python/pig_governor/sglang.py:467-476 | So does the abort of an honest request |
| `Hooks.DrainingRefuses` | python/pig_governor/sglang.py:251-283 | While an identity drains policy changes conflict and no fresh request is allowed |
| `System.EveryRunAgrees` | python/pig_governor/sglang.py:118-120 | Over every run of every created system: both sides count the same active sequences, ledgers equal counts over reservations, at most native maximum plus three outstanding |
| `System.EveryRunConserves` | python/pig_governor/scheduler.py:481-548 | Over every run of every created system delivered + pending + discarded tokens equal the tokens decoded after each first one; the surface never holds more exposure than the aggregate |
| `System.EveryCleanRunCharges` | python/pig_governor/scheduler.py:473-518 | Over every run without quarantine the surface holds all exposure up to the last commit |
| `System.EveryNativeRunSeparates` | python/pig_governor/sglang.py:251-283 | Over every run under the native caller, what decodes or is checked holds its own reservation of the current epoch |
| `System.EveryRunKeepsCells` | python/pig_governor/scheduler.py:481-548 | Over every run of every created system no cell holds or awaits a token produced for another, nor awaits one of an earlier run |
| `System.EveryNativeRunOwnsItsTokens` | python/pig_governor/sglang.py:251-283 | Over every run under the native caller the core holds and awaits only tokens of requests admitted in this epoch |
| `System.Build` | python/pig_governor/sglang.py:118-120 | Controller, scheduler and adapter built in place are the created system; an invalid configuration gives the same error |
| `System.Submit` | python/pig_governor/sglang.py:153-161 | A new native request arrives and is admitted by a built system, as the steps say |
| `HookRuns.HooksAreRun` | python/pig_governor/sglang.py:129-476 | A run of hooks is exactly the run of their calls |
| `HookRuns.HonestRunIsNative` | python/pig_governor/sglang.py:129-476 | An honest run of hooks is a run by the native caller |
| `HookRuns.HonestRunSeparates` | python/pig_governor/sglang.py:251-283 | Over every honest run of hooks what decodes or is checked is distinct, held and of the current epoch, and the core holds and awaits only that epoch's tokens |
| `System.EveryRunChargesExactly` | python/pig_governor/scheduler.py:459-518 | Over every run of every created system the surface misses exactly what was dropped, and nothing if and only if nothing owed was dropped in the epoch |
| `System.EveryHonestRunSeparates` | python/pig_governor/sglang.py:251-283 | Epoch separation, of requests and of tokens, over every honest run of hooks of every created system |
| `System.EveryHonestRunOwnsItsExposure` | python/pig_governor/sglang.py:251-283 | So of exposure: all of it is decoding time of requests admitted in the current epoch |
| `System.EveryRunFitsItsWindow` | rust/src/lib.rs:387-402 | The window bound over every run of every created system |
| `System.EveryRunHoldsItsPolicy` | python/pig_governor/scheduler.py:348-368 | Over every run of every created system the policy is the configured one as the accepted changes left it, and the identity that of the latest rotation or the configured one |
| `System.CreatedSound` | python/pig_governor/sglang.py:118-120 | A core, with or without a profile, and a scheduler over it for the same native maximum satisfy every run invariant at creation |
| `CoreLaws.LowerBoundLaw` | rust/src/lib.rs:223-242 | The lower bound is the least rate of the windows that hold time, and there is one exactly when some window does |
| `CoreLaws.AdmissionBoundLaw` | rust/src/lib.rs:252-258 | The live bound of a cell times the short seconds is the short tokens once the 2 s window alone holds 0.1 s; until then it is the least of the window rates that exist |
| `CoreLaws.AggregateBoundLaw` | rust/src/lib.rs:733-772 | The run's bound exists exactly with active requests, tokens of the run and 0.1 s in its 60 s window; it is the short rate once that window is qualified, the least rate until then |
| `CoreLaws.QualifiedLaw` | rust/src/lib.rs:215-221 | A cell is qualified exactly when it was charged to a qualified window in the last 60 s and still holds 0.1 s |
| `CoreLaws.BoundLaw` | rust/src/lib.rs:652-704 | The bound of a key: the lower of live and prior, the prior again for one vacated slot of a quiet slow cell, live alone only when qualified |
| `CoreLaws.EvidenceLaw` | rust/src/lib.rs:856-886 | The evidence is the wanted key's own bound, else the least bound among keys with at least as many requests and as heavy a class, the lightest of these on ties; none exactly when there is none |
| `CoreLaws.LiveAdmissionLaw` | rust/src/lib.rs:888-952 | With live evidence, no active prior and no veto of the run a request is allowed exactly when the qualified 2 s window's tokens reach the reference over its seconds, or, before that window is qualified, those of every window that holds time do |
| `CoreLaws.DecisionLaw` | rust/src/lib.rs:837-952 | Every field of a decision, by the evidence there is and whether it reaches the reference |
| `CoreLaws.ClockLaw` | rust/src/lib.rs:360-385 | The clock advances exactly for a valid later time; then aggregate and run gain the active count over the part of the gap inside each window, outside quarantine, and nothing else changes |
| `CoreLaws.ChargeLaw` | rust/src/lib.rs:193-213 | A cell gains these tokens and seconds at this tick, and qualifies exactly when it brings time to a window with 0.1 s; refused exactly for tokens without time, negative time or a full window |
| `CoreLaws.RecordLaw` | rust/src/lib.rs:417-428 | Tokens go to the aggregate, and to the run while one is on; resuming from idle begins an empty run |
| `CoreLaws.BatchLaw` | rust/src/lib.rs:486-517 | A batch charges one cell and records its tokens; no other cell changes |
| `CoreLaws.ReplacementLaw` | rust/src/lib.rs:545-578 | A replacement is the batch, or the plain observation when no time passed, after which the run is empty |
| `CoreLaws.ProfileCellLaw` | rust/src/lib.rs:115-139 | A profile cell is valid exactly when it is on the surface, holds 0.1 s, its short window lies within the long one, and neither window makes fewer tokens than its approved rate |
| `CoreLaws.ImportLaw` | rust/src/lib.rs:332-338 | An import holds every cell under its key, or is refused exactly for an invalid cell or a repeated key |
| `CoreLaws.ExportCellLaw` | rust/src/lib.rs:774-801 | An exported cell says what its windows hold, and the least of their rates |
| `CoreLaws.SignalLaw` | rust/src/lib.rs:972-978 | The signal times one more than the short seconds is the long rate plus the short tokens; without short seconds it is the long rate |
| `CoreLaws.RequestedLaw` | rust/src/lib.rs:979-984 | The wish times the signal is the wall times the shortfall, at most a quarter second of the signal; a quarter second when nothing decodes |
| `CoreLaws.DurationLaw` | rust/src/lib.rs:985-987 | The duration is the wish, discounted by the exposure behind it and by the queue's age in quarter seconds |
| `CoreLaws.ChooseLaw` | rust/src/lib.rs:955-989 | Decode is preferred exactly while that duration since the Prefill's end lasts, given both kinds of work, a reference, an observation and exposure |
| `CoreLaws.PreferredByTokens` | rust/src/lib.rs:964-988 | At the instant a Prefill ends Decode is preferred exactly when both kinds of work wait and the windows' tokens, so weighed, are fewer than the reference asks over their seconds |
| `CoreLaws.CoveredLaw` | python/pig_governor/profile.py:180-192 | A key is covered exactly when some cell has at least as many requests and as heavy a class |
| `CoreLaws.DocumentCellLaw` | python/pig_governor/profile.py:238-300 | A document cell is valid exactly when its evidence is, its tokens fit u64, and the rate it states is the least of its window rates |
| `SchedulerLaws.PressureClassLaw` | python/pig_governor/scheduler.py:149-168 | Classes end at 4096, 16384 and 65536 tokens |
| `SchedulerLaws.StartCellLaw` | python/pig_governor/scheduler.py:391-397 | In every agreed state with active requests a batch is charged to their number and to the heaviest class among those decoding |
| `SchedulerLaws.EntryCellLaw` | python/pig_governor/scheduler.py:496-501 | After every accepted commit the cell in which a run it begins starts is that of the requests then decoding |
| `SchedulerLaws.TokensWhereDecoding` | python/pig_governor/scheduler.py:473-538 | A clean commit's tokens go to the cell of the requests decoding before it or, when they begin a run, after it; no other cell gains tokens or awaits more |
| `SchedulerLaws.WantedLaw` | python/pig_governor/scheduler.py:225-228 | A candidate is forecast one slot up, at the heaviest class among its own and those of the requests held |
| `SchedulerLaws.BlockerLaw` | python/pig_governor/scheduler.py:98-124 | A probe may start exactly when it is enabled, alone, within capacity, off cooldown, nobody waits, and it is the only request or the lighter cell has live headroom |
| `SchedulerLaws.VerdictLaw` | python/pig_governor/scheduler.py:259-304 | The decision on a forecast in full: allowed, reason, recovery, waiting |
| `SchedulerLaws.AdmissionLaw` | python/pig_governor/scheduler.py:236-322 | A fresh admission at an accepted clock: the whole decision and the whole effect |
| `SchedulerLaws.ReleaseLaw` | python/pig_governor/scheduler.py:324-346 | A release returns exactly the slot, class, check and probe of its reservation |
| `CommitLaws.ProposalLaw` | python/pig_governor/scheduler.py:405-430 | A batch is well formed exactly when each update fits its request and no request is named twice |
| `CommitLaws.NextLaw` | python/pig_governor/scheduler.py:426-448 | Each named request is afterwards as its result says, every other as it was |
| `CommitLaws.CountLaw` | python/pig_governor/scheduler.py:426-448 | The batch's counters count the requests that start and stop decoding, class by class; its entering tokens are those past the first of each that starts |
| `CommitLaws.ReplacementLaw` | python/pig_governor/scheduler.py:487-487 | A batch replaces the running set exactly when some request was decoding and none of those still is |
| `CommitLaws.PendingTimeLaw` | python/pig_governor/scheduler.py:481-538 | What stays pending carries the time of the last tokens added to it |
| `CommitLaws.CommitStateLaw` | python/pig_governor/scheduler.py:450-548 | What a commit publishes: a contaminated one drops all pending evidence and stays contaminated exactly while a health check is out |
| `HookLaws.TaintedResults` | python/pig_governor/sglang.py:397-437 | A batch that meets contamination or holds a health check changes no token or second of the evidence, leaves nothing pending and reports no Prefill |
| `HookLaws.CleanResults` | python/pig_governor/sglang.py:397-437 | Any other batch is one clean commit of the governed results, if any, and the Prefill report of an extend |
| `HookLaws.AbortLaw` | python/pig_governor/sglang.py:467-476 | An abort is a clean commit of the accounted length as the last, if there is progress, then one release; without an accepted commit nothing is released |
| `PolicyLaws.PolicyLaw` | python/pig_governor/scheduler.py:348-368 | A change is accepted exactly when it gives something, fits, and names the current epoch and revision with one left; then each field given is installed, each other kept and the revision one higher; refused, nothing changes |
| `PolicyLaws.PolicyInForce` | python/pig_governor/scheduler.py:348-368 | Over every run the caps and reference in force are those of the latest accepted change that gave them, and the revision counts the changes |
| `PolicyLaws.RefreshLaw` | python/pig_governor/sglang.py:251-283 | A refresh rotates exactly when the identity changed or drains and nothing is out; then the identity stored is the one given, nothing is paused, and all evidence is gone |
| `PolicyLaws.RefreshTwice` | python/pig_governor/sglang.py:251-283 | Asking again with the identity just adopted is answered no and changes nothing |
| `PolicyLaws.SameIdentityStays` | python/pig_governor/sglang.py:251-283 | While every refresh gives the identity in force, no run of calls rotates or pauses, and a refresh changes nothing |
| `PolicyLaws.IdentityInForce` | python/pig_governor/sglang.py:251-283 | Over every run the stored identity is the one given at the latest rotation, or the initial one |

## Left out

- Floating point: `f64` is `real`, so rounding, NaN and infinity do not occur; the finiteness checks and the `end <= start` refusal are then unreachable, and only the range checks remain.
- Integer widths: tokens and revisions are checked against 2^64 where the code checks them; counts of requests and the native maximum are unbounded beyond the 2^32 limit of `_validate_limits`.
- `exposure_seconds` of a surface cell: it is written and never read.
- Transparency.ReadTransparency: compares snapshots without the preference deadline, because a `choose` rewrites that field; `Transparency.ExactTransparency` drops the exception for every other read.
- Conservation.CleanRunChargesAllExposure: excludes runs with a quarantine, which drops exposure by design; `Exposure.ExposureExactly` covers every run.
- Trailing.ReadTransparency: excludes health checks and contaminated commits until the read is overtaken, also where these happen to owe nothing.
- Lifecycles.EpochSeparation: assumes the native caller's promises; without them a batch may report a request it was never granted.
- Map iteration: the sorted maps are scanned over the whole surface in key order, which visits the stored keys in the same order; every stored key is proved to be on the surface.
- Threads: each call under the policy lock and the controller mutex is one atomic step, so lock ordering and interleaving inside a call are not modelled.
- The C ABI: pointers, null checks, unwinding, struct layout and library loading; flags arrive as booleans, so the check that a flag is 0 or 1 has nothing to refuse.
- Type checks of Python arguments, and the errors for a request owned by another Governor: there is one owner and its arguments are typed.
- Runtime identity: an integer compared for equality, always available; canonical JSON, hashes and file handling are not part of this model. Epoch identifiers are a counter, so they are always fresh.
- Profile documents: only the cells; schema, timestamps, predictor and identity fields are not part of this model, and neither is profile loading.
- The snapshot an adapter takes after a rejected admission: it reads at the clock the forecast already reached, so it changes nothing.
- `before_prefill`: the queue age and flags it computes from native queues are parameters of `PreferDecode`.
- Names in a decision: the evidence source, the blocker's name and the limits copied beside it; `Decision` keeps the forecast, reason, recovery flag and projected waiting.
- HTTP routes, metrics, diagnostics and admission counters: they observe and change nothing modelled here.
- `entered` in progress and `epoch` in a reservation are history fields that the source does not store.
