# skillranker: a Dafny model of its stateful core

This project models the parts of skillranker that keep state, run loops or do real
arithmetic, and proves what holds of them on every input or in every run.

- **Request allowance** (`Allowance*.dfy`): the guard file and the accounting
  database, setup in three durable steps, admission with its debit and prune, and the
  machine of any number of processes that start, lock, publish, debit, stop anywhere
  and lose the accounting. `history` in that machine keeps every debit and is never
  pruned.
- **Circuit breaker** (`Breaker.dfy`, `Circuit.dfy`, `BreakerStore.dfy`,
  `CircuitReference.dfy`,
  `BreakerFleet.dfy`): the row and its transitions, every run of one circuit over all
  tickets ever issued, many handles over one lazily created store that may fail at any
  call, and the circuit each origin's shared row follows under those handles, before the
  store exists and after.
- **Authorized path walk** (`Paths.dfy`, `AuthorizedRead.dfy`, `Walk*.dfy`): the
  descriptor, name and component stacks of the walk over a filesystem that may change
  between any two system calls, and recursive pathname resolution (section 4.13 of the
  Base Definitions volume of IEEE Std 1003.1-2017) as its meaning, in both directions:
  what is returned is what resolution finds, and what resolution finds is returned or
  refused, each exactly where stated.
- **Paired-harm endpoint** (`Binomial.dfy`, `ClopperPearson.dfy`, `Cohort.dfy`,
  `Endpoint.dfy`): the binomial sum and the bisection over exact reals, the
  classification of units from run and judgment records, and the bound reported for it.
- **Smaller cores**: the JSON depth scan (`JsonDepth.dfy`), receipt-last publication
  (`ExportFrame.dfy`), the lock-file worklist (`LockProjection.dfy`) and staged
  eligibility (`Eligibility.dfy`).

Runs are sequences of actions or events applied by a total step function, so a theorem
about `Run(actions)` for all `actions` is a theorem about every interleaving and every
crash point. Objects the program updates in place are classes whose methods are proved
equal to functions of the old value; the theorems are about those functions.

`dafny verify dfyconfig.toml` checks everything.

## Where the code differs from what it says

- **Allowance, clock past the signed range.** `admit` stores the reading through
  `as i64` (src/allowance.rs:794, src/allowance.rs:800). A reading above `i64::MAX` whose
  window starts at or below it is harmful: the debit commits and prunes, but the last
  charge time wraps below zero and does not move. Later readings are harmless again,
  because their window is refused (src/allowance.rs:370-377).
  `AllowanceClock.AllowanceHoldsExactlyUnderSafeClocks` is the exact condition: for any
  set of times the clock can read, the allowance holds in every run if and only if none
  of them is harmful, or none is early enough to be pruned by a debit in the last window.
  `AllowanceClock.HarmfulReadingBreaksTheAllowance` has, for every harmful and early pair,
  runs with limit 1 that debit one window as often as one likes. The bound on any hour has
  the same exact condition; true charge times need every reading to be harmless. Totals
  and retention are proved on every clock.
- **Path walk, trailing slash or dot.** Rust's path components drop a trailing `/` and
  every `.`, so `f/` reads the regular file `f`, where pathname resolution answers
  "not a directory" (`WalkRequests.TrailingSlashIsNotSeen`). The two
  `...AnswerIsTheResolution` lemmas give the exact condition, `DemandsDirectory`.
- **Path walk, directories without a last name.** A directory reached through a final
  link to `.`, to a parent or to a root is refused as an invalid path, though resolution
  finds it (`WalkCompleteness.LinkToHereIsRefused`). `EndsAtName` in
  `WalkCompleteness.RelativeRequestDelivers` is the exact condition.
- **Paired harm, a judgment that comes too late.** docs/paired-harm-contract.md:90-91 and
  :111-112 say that a missing or late judgment leaves its unit unresolved. It does not
  where the run has another judgment in time: with the advice run judged harmful and the
  baseline judged harmful by one adjudicator and not harmful by another, the unit is
  unresolved, and clear if the second judgment is late (`Endpoint.LateDissentClears`).
  `Endpoint.AdviceLossClearsExactly` and `Endpoint.BaselineLossClearsExactly` say which
  losses can clear a pair, and `Endpoint.LossNeverLowersTheBound` that no other loss
  lowers the endpoint or its bound. Runs lost whole are never among them.
- **Eligibility, non-finite estimates.** The comment at src/eligibility.rs:239 says a
  non-finite estimate is removed. `Eligibility.InfiniteFitSurvives` is a candidate with
  an infinite fit and an ordinary rerank that stays. `Eligibility.NonFiniteSurvivesExactly`
  says for every candidate and policy when that happens, and
  `Eligibility.RemovesNonFiniteExactly` that the comment holds on all inputs only under a
  policy that lets nothing survive.

## Model

| member | source | states |
|---|---|---|
| `Allowance.Stores.ApplySetup` | src/allowance.rs:605-670 | the new guard, store and result of setup, interrupted after any step or not, are those of `Setup` on the old ones |
| `Allowance.Stores.Admit` | src/allowance.rs:703-837 | admission leaves the guard alone and its store and answer are those of `AdmitOn`: unguarded, refused with nothing written, debited, or debited and withheld |
| `Allowance.ScanReceipts` | src/allowance.rs:409-416 | the scan with a row limit yields the smaller of the matching receipts and the limit |
| `Allowance.VerifyCharged` | src/allowance.rs:391-423 | a scan of one row past the total decides exactly whether total and receipts agree |
| `Allowance.RetryCompletesTheIntent` | src/allowance.rs:484-493 | one uninterrupted retry of an intent with its own limit reaches ready at the same generation, with every charge, receipt and the last charge time unchanged |
| `Allowance.SetupIsIdempotent` | src/allowance.rs:484-488 | after a successful setup the same setup finds nothing to do and changes nothing, whatever the stores were before |
| `Allowance.SetupKeepsEveryCharge` | src/allowance.rs:639-663 | refused, interrupted anywhere or complete, setup changes no charge, receipt or last charge time |
| `Allowance.InspectionPredictsAdmission` | src/allowance.rs:520-588 | inspection reports ready with attempts remaining if and only if an admission on the same stores and clock would debit |
| `AllowanceLedger.RetainedCount` | src/allowance.rs:802-811 | pruning leaves the count of every retained window as it was and empties every older one |
| `AllowanceLedger.WriteKeepsTotals` | src/allowance.rs:776-813 | a debit with its prune keeps every window's total equal to its number of receipts |
| `AllowanceLedger.NothingPrunedIsReachable` | src/allowance.rs:755-762 | what the locked check counts is every debit ever committed for that window: no admission can land in a pruned window |
| `AllowanceLedger.WriteStaysInStep` | src/allowance.rs:776-813 | after a debit the tables are exactly the unpruned history from the new horizon on |
| `AllowanceLedger.DebitStaysWithinLimit` | src/allowance.rs:762-769 | a debit that is not refused leaves all debits ever made in its window within its guard's limit |
| `AllowanceLedger.FenceStandsExactly` | src/allowance.rs:755-811 | a debit leaves no pruned window open to a later admission if and only if its reading is harmless or the charge before it lies in a window the prune keeps |
| `AllowanceRuns.PlanAdvances` | src/allowance.rs:451-504 | a plan that changes something targets a later generation or completes the same intent; generation 1 only from nothing or the first intent |
| `AllowanceRuns.SetupStepsAreSetup` | src/allowance.rs:605-670 | one process's machine steps in a row reach the guard and store of the whole `Setup` |
| `AllowanceRuns.AdmissionStepsAreAdmission` | src/allowance.rs:703-837 | one process's machine steps in a row reach the store, history and log of the whole `AdmitOn`, with an unguarded grant logged exactly where there is no guard and one debit exactly when nothing refuses |
| `AllowanceRuns.StepStaysControlled` | src/allowance.rs:612-669 | every step, crash and loss keeps the lock discipline, the generation invariants and what the lock holder relies on |
| `AllowanceTheorems.EveryRunIsControlled` | src/allowance.rs:18-25 | in every run a ready guard's generation is the accounting's, an intent's is never behind it, no guard means no accounting, and without a loss only the first intent stands over uninitialized accounting |
| `AllowanceTheorems.InterruptedSetupResumes` | src/allowance.rs:603-670 | wherever a run leaves an intent, a retry with its limit completes it with all charges kept, or fails because accounting past generation 1 was lost |
| `AllowanceTheorems.EveryRunIsBooked` | src/allowance.rs:703-837 | in every run, on any clock, totals equal receipts, a receipt is in the table exactly until a debit more than a day later prunes it, and no debit precedes the first ready guard |
| `AllowanceTheorems.EveryRunIsLedgered` | src/allowance.rs:703-837 | in every run on harmless readings the accounting is in step with the unpruned history up to its last charge time, and each debit ranks within its limit |
| `AllowanceTheorems.AllowanceIsNeverExceeded` | src/allowance.rs:755-811 | in every run, with crashes, withheld debits, pruning and losses, the debits ever committed for an origin and window are at most a limit one of them was checked against |
| `AllowanceTheorems.ReachableTotalsMatchReceipts` | src/allowance.rs:391-423 | in every run, on any clock, every total equals its number of receipts |
| `AllowanceTheorems.ReceiptsAreKeptForADay` | src/allowance.rs:802-811 | in every run the attempts table holds exactly the receipts no later debit's window is more than 24 hours past; on harmless readings, those at most 24 hours before the window of the last charge |
| `AllowanceOrder.GenerationsOnlyAdvance` | src/allowance.rs:474-493 | of two guards published in a run the later has a larger generation, or the same generation and limit after an intent |
| `AllowanceOrder.DebitsOnlyUnderTheReadyGuard` | src/allowance.rs:628-669 | every debit was made under the guard published last before it, ready, at that generation and limit, so never between an intent and its ready guard |
| `AllowanceOrder.NoUnguardedAfterPublication` | src/allowance.rs:720-733 | no admission that starts after a publication returns unguarded, including through the unlocked first read |
| `AllowanceClock.LateRunsAreUnpruned` | src/allowance.rs:802-811 | where no reading is early enough to be pruned by the last window, the accounting is the whole history in every run, harmful readings included |
| `AllowanceClock.HarmfulReadingBreaksTheAllowance` | src/allowance.rs:797-811 | for every harmful and every early reading and every k, a run with limit 1 that reads only those debits the early window k times |
| `AllowanceClock.ReadingPastTheColumnBreaksTheAllowance` | src/allowance.rs:797-811 | one millisecond past i64::MAX is such a reading |
| `AllowanceClock.AllowanceHoldsExactlyUnderSafeClocks` | src/allowance.rs:755-811 | for every set of clock readings, the allowance holds in every run that reads only those if and only if none is harmful or none is early |
| `AllowanceClock.AnyHourHoldsTwiceTheLimit` | src/allowance.rs:190-194 | under one limit N any half-open hour holds at most 2N debits of an origin, in every run on a set of readings, if and only if none is harmful or none is early |
| `AllowanceClock.ChargeTimesAreTrueExactly` | src/allowance.rs:755-801 | charge times lie in their windows and never fall in commit order, in every run on a set of readings, if and only if none is harmful |
| `AllowanceAnswers.SetupIsDecided` | src/allowance.rs:605-670 | on every reachable state, setup succeeds exactly with a limit from 1 to 10000, accounting that is there or never was, and room for a generation; it ends ready with that limit, at the same generation unless the limit changes and else the next, with every charge kept; otherwise nothing changes |
| `AllowanceAnswers.InterruptedSetupIsDecided` | src/allowance.rs:628-669 | stopped after its first step setup has published the intent alone, after its second the accounting at its generation too |
| `AllowanceAnswers.LostAccountingStaysLost` | src/allowance.rs:464-473 | once accounting past the first intent is lost, every setup fails and every admission is refused |
| `AllowanceAnswers.PlanOnAnyStores` | src/allowance.rs:451-504 | on any guard and accounting, altered ones included, exactly when there is a plan and what it targets |
| `AllowanceAnswers.AdmissionIsDecided` | src/allowance.rs:703-837 | every admission on every reachable state has one answer: unguarded exactly without a guard, refused out of service, exhausted exactly where the hour's debits in the history have reached the limit, naming the hour's end, and else one debit whose count is the hour's debits after it |
| `AllowanceAnswers.AdmissionOnAnyStores` | src/allowance.rs:735-775 | on any stores at all, exactly what it takes not to be refused |
| `AllowanceAnswers.InspectionIsDecided` | src/allowance.rs:520-588 | on every reachable state inspection names the health of the stores, and where all is well the hour's debits in the history and what remains of the limit |
| `AllowanceAnswers.WindowsAreHours` | src/allowance.rs:190-194 | the window of a reading is the fixed hour it lies in |
| `Breaker.Row.Admit` | src/breaker.rs:106-138 | reply and new row are `AdmitReply` and `AdmitRow` of the old row |
| `Breaker.Row.OpenFor` | src/breaker.rs:140-148 | the new row is `OpenRow` of the old one |
| `Breaker.Row.Settle` | src/breaker.rs:150-200 | the new row is `SettleRow` of the old one for every ticket and outcome |
| `Breaker.TransitionsStayLoadable` | src/breaker.rs:324-331 | whatever the ticket, a transition from a well-formed row gives one the loader's range checks accept |
| `Breaker.OpenRowChangesIffProbeHeld` | src/breaker.rs:151-163 | a settlement changes an open row if and only if its ticket holds the unexpired probe token of the current generation |
| `Circuit.EveryRunIsFenced` | src/breaker.rs:106-200 | in every run rows are well formed, tickets never outrun the generation, tokens are never reused and a lease belongs to the latest token |
| `Circuit.OnlyTheLatestProbeSettles` | src/breaker.rs:156-163 | in every run a ticket changes an open circuit, Retry-After included, exactly when it carries the last issued token, current generation, before expiry |
| `Circuit.OneHolderAtATime` | src/breaker.rs:123-137 | two tickets that hold an open circuit's probe are the same issue |
| `Circuit.OutstandingTicketsMatchTheCircuit` | src/breaker.rs:16-19 | every outstanding ticket of the row's generation is a probe if and only if the circuit is open |
| `Circuit.NoPermanentLockout` | src/breaker.rs:39-43 | with past readings at most t and leases at most L, admission at t + max(one hour, L) or later is granted |
| `Circuit.RefusalsNameTheEndOfTheHold` | src/breaker.rs:56-62 | before the time a cooling-down refusal names nothing is granted, and from then on that hold is over |
| `Circuit.FailuresAreTheStreak` | src/breaker.rs:165-191 | in every run the row's counter is the number of transient failures heard in its generation since the last success heard, counted from the events |
| `Circuit.OpensAtTheThirdFailure` | src/breaker.rs:4-4 | in every run a closed circuit opens exactly at the third consecutive transient failure of its own generation |
| `Circuit.ClosesExactlyAtItsProbesSuccess` | src/breaker.rs:165-171 | in every run an open circuit closes exactly at a success of the probe issued last, in time, and then has no failures, cooldown, lease or hold, at the next generation |
| `Circuit.NeutralProbeIsReplaced` | src/breaker.rs:192-196 | a probe that proved nothing gives up its lease and nothing else, and the next admission in time is a probe |
| `Circuit.OutageCountsFailedProbes` | src/breaker.rs:183-186 | the failed probes of an outage are those whose transient outcomes the events hold |
| `Circuit.EveryOutageKeepsSchedule` | src/breaker.rs:183-186 | after k failed probes in an outage the cooldown is min(30000 * 2^k, 300000), counted from the latest failure |
| `Circuit.FailedProbesWaitTheirCooldowns` | src/breaker.rs:118-147 | under a clock that never falls the k-th failed probe settles no earlier than the opening plus the first k cooldowns |
| `CircuitReference.EveryRunStoresItsStory` | src/breaker.rs:1-23 | after every run the whole row and every admission's answer are those of the circuit as documented: working with a streak, or broken with failed probes, a cooldown of 30 seconds doubled up to five minutes, a probe, and a hold of at most an hour |
| `BreakerStore.BreakerHandle.TryShared` | src/breaker.rs:267-294 | store, reply and degradation after one attempt at the shared store are those of `Share`, for every fault |
| `BreakerStore.BreakerHandle.Admit` | src/breaker.rs:242-253 | store, handle and reply are those of `Call` |
| `BreakerStore.BreakerHandle.Settle` | src/breaker.rs:255-265 | store and handle are those of `Call` |
| `BreakerStore.CallIsDecided` | src/breaker.rs:242-294 | whatever fails, a call is answered from the shared row exactly where its transaction commits and says so, else from the handle's own, and the handle degrades exactly at a failure |
| `BreakerStore.CallStores` | src/breaker.rs:319-380 | a call leaves the new row where it commits, and every other row as it was |
| `BreakerStore.StoreRecordsOnlyFailures` | src/breaker.rs:15-17 | a store that did not exist is made only to record a transient failure, and an origin has a row only after one of its own |
| `BreakerStore.EveryRunIsSound` | src/breaker.rs:319-331 | in every run a handle that still shares has the default row of its own and every stored row passes the loader |
| `BreakerStore.DegradationIsPermanent` | src/breaker.rs:287-293 | a degraded handle stays process-local in every continuation |
| `BreakerStore.LazyStoreIsIndistinguishable` | src/breaker.rs:275-286 | any run of any handles over a store created at the first failure gives the same worlds and replies as over one that always existed |
| `BreakerFleet.EveryFleetFollowsItsCircuits` | src/breaker.rs:267-294 | in every run of every set of new handles over a store not yet created, each origin's shared row is that of the circuit run its calls make, those answered before the store exists included, and sharing handles hold only tickets that circuit issued |
| `BreakerFleet.EveryFleetKeepsProbesApart` | src/breaker.rs:126-137 | no two handles ever hold the same probe ticket |
| `BreakerFleet.OneProbeAcrossTheFleet` | src/breaker.rs:150-163 | a held ticket changes an open shared row only with the circuit's latest token, its generation and an unexpired lease, and then no other handle holds one that could |
| `Paths.ResolveAppend` | src/authorized_read.rs:532-534 | resolving a path in two parts is resolving the first and the second from there, the law behind splicing a link's target into the queue |
| `Paths.SpelledNamesAreRead` | src/authorized_read.rs:580-593 | a pathname is read as the names it spells |
| `Paths.ComponentsAgainstStandard` | src/authorized_read.rs:580-593 | reading paths and link targets by components finds whatever the standard finds, and differs only where the spelling demands a directory |
| `AuthorizedRead.Locate` | src/authorized_read.rs:274-293 | the loop finds the root of `BestRoot` and the rest of the path |
| `AuthorizedRead.BestRootIsLongest` | src/authorized_read.rs:281-290 | the root found is a longest one that covers the path, the first of those, and there is one whenever any covers it |
| `AuthorizedRead.Walk.FollowLink` | src/authorized_read.rs:541-577 | following leaves the walk and the names `Follow` says, or its error |
| `AuthorizedRead.Walk.OpenOrFollow` | src/authorized_read.rs:483-536 | one name is opened, refused or expanded as `NameStep` says |
| `AuthorizedRead.Walk.Turn` | src/authorized_read.rs:468-536 | one turn of the loop, bounds and dots included, is `WalkStep` |
| `AuthorizedRead.Walk.Resolve` | src/authorized_read.rs:466-539 | the loop answers what the recursive `WalkFrom` answers, and always ends |
| `WalkContainment.WalkIsContained` | src/authorized_read.rs:423-539 | under arbitrary changes between calls, an object returned was opened without following a link from a chain of entries, each real when opened, up from an authorized root; within 512 names, 16 links and three calls a name |
| `WalkRefinement.LinkMeansItsExpansion` | src/authorized_read.rs:531-535 | expanding a link in front of the queue means what resolving it as a pathname of its own means |
| `WalkRefinement.ReanchoringMeansThePath` | src/authorized_read.rs:564-576 | starting again at the root that covers an absolute target means resolving the target from the top |
| `WalkRefinement.WalkAgrees` | src/authorized_read.rs:466-539 | on a filesystem that stays, every object the walk returns is what recursive resolution of the same names finds; without faults every refusal is what resolution says too or one of the walk's own bounds |
| `WalkRequests.Collect` | src/authorized_read.rs:409-421 | the loop keeps the components and refuses parents and absolute paths |
| `WalkRequests.ReadRelative` | src/authorized_read.rs:205-308 | a relative request answers as `OpenRelative`: for a file, an empty path is invalid; for a directory it is the root itself |
| `WalkRequests.ReadAbsolute` | src/authorized_read.rs:313-347 | an absolute request answers as `OpenAbsolute` |
| `WalkRequests.EveryAnswerIsContained` | src/authorized_read.rs:1-8 | both kinds of request return only roots and objects contained in them, whatever happens to the filesystem |
| `WalkRequests.RelativeAnswerIsTheResolution` | src/authorized_read.rs:295-308 | the object a relative request returns is the one pathname resolution of that path names, if and only if it is a directory or the spelling does not demand one |
| `WalkRequests.AbsoluteAnswerIsTheResolution` | src/authorized_read.rs:329-347 | the same for absolute requests, resolved from the filesystem root |
| `WalkRequests.MissingMeansMissing` | src/authorized_read.rs:513-529 | without faults, a request answered as not found has a name with no entry when read by components |
| `WalkRequests.TrailingSlashIsNotSeen` | src/authorized_read.rs:409-421 | a request for `f/` returns the regular file `f`, which resolution refuses |
| `WalkRequests.ReportedPathNamesTheObject` | src/authorized_read.rs:457-464 | on a filesystem that stays, the path reported with an answer resolves to the object returned |
| `WalkCompleteness.EndsAppend` | src/authorized_read.rs:531-535 | a path in two parts ends at a name exactly when its second part does from where the first leads |
| `WalkCompleteness.WalkKeepsEnd` | src/authorized_read.rs:466-539 | without faults an object is returned, or refused for its kind, only where the expanded path ends at a name, and an emptied queue is a directory where it does not |
| `WalkCompleteness.RelativeRequestDelivers` | src/authorized_read.rs:203-216 | an acceptable object that pathname resolution finds is returned if the path is empty or its expansion ends at a name, and otherwise is a directory refused as an invalid path, unless roots, hops, steps or target length refuse it |
| `WalkCompleteness.AbsoluteRequestDelivers` | src/authorized_read.rs:329-347 | a regular file that pathname resolution of an absolute path finds is returned, or one of those bounds refuses it |
| `WalkBounds.ExpandAppend` | src/authorized_read.rs:531-535 | a path in two parts expands to the names and links of the first and of the second from where the first leads |
| `WalkBounds.WalkIsBoundedExactly` | src/authorized_read.rs:466-577 | without faults the walk is refused for one of its bounds if and only if the recursive expansion of its path counts more than 512 names or 16 links, leaves the roots, or meets a target over 4096 bytes |
| `WalkBounds.RelativeRequestIsDecided` | src/authorized_read.rs:203-308 | a relative request for an acceptable object that resolution finds has one answer: that refusal where the expansion passes a bound, else the object, or an invalid path where it ends at no name |
| `WalkBounds.AbsoluteRequestIsDecided` | src/authorized_read.rs:313-347 | an absolute request for a regular file that resolution finds returns it, except exactly where no root covers the path or its expansion passes a bound |
| `WalkBounds.PlainRequestIsAnswered` | src/authorized_read.rs:466-539 | without links, an acceptable object that resolution of at most 512 names finds is always returned |
| `WalkAnswers.AnswersAreOfTheirKind` | src/authorized_read.rs:494-511 | under any changes and faults a file request returns only what was a regular file when opened, a directory request only a directory or the root |
| `WalkAnswers.RelativeAnswerIsDecided` | src/authorized_read.rs:295-308 | without faults every relative request has one answer by resolution: the object of the wanted kind, another object's kind, not found, not a directory, an invalid path for a directory at no name, or a bound |
| `WalkAnswers.AbsoluteAnswerIsDecided` | src/authorized_read.rs:313-347 | the same of absolute requests from the filesystem root; a missing name behind a link is an invalid path where targets must exist |
| `WalkAnswers.AnsweredWithoutOpening` | src/authorized_read.rs:295-347 | parents, absolute or relative spellings out of place, empty paths, missing roots and roots themselves are answered before any call |
| `WalkAnswers.FailedOpenIsTold` | src/authorized_read.rs:513-536 | an open that fails of itself is told by its error, unless the name is confirmed a link after one of the three errors links give |
| `WalkCompleteness.LinkToHereIsRefused` | src/authorized_read.rs:538-538 | a request for a directory by a link to `.` is refused as an invalid path, though resolution finds the directory |
| `Binomial.CoefficientIsChoose` | scripts/harm_cohort.py:313-315 | the factorial quotient behind the log-gammas is Pascal's coefficient |
| `Binomial.CdfRecurrence` | scripts/harm_cohort.py:312-317 | F(e; n+1, p) = (1-p) F(e; n, p) + p F(e-1; n, p) |
| `Binomial.CdfAntitone` | scripts/harm_cohort.py:305-317 | the chance of at most e events never rises with p |
| `Binomial.CdfStrict` | scripts/harm_cohort.py:305-317 | with fewer events than units it falls strictly |
| `Binomial.EvaluateCdf` | scripts/harm_cohort.py:305-317 | the loop over the terms, with its two shortcuts, computes the distribution function on [0, 1] |
| `ClopperPearson.Bisect` | scripts/harm_cohort.py:319-326 | after any number of halvings the upper end is the first grid point at which the chance is down to alpha |
| `ClopperPearson.ClopperPearsonUpper` | scripts/harm_cohort.py:300-326 | the answer is 1 with events in every unit, and otherwise that grid point after 200 halvings |
| `ClopperPearson.BoundCoversEveryPlausibleRate` | scripts/harm_cohort.py:301-326 | every p with chance above alpha lies below the bound |
| `ClopperPearson.BoundIsTight` | scripts/harm_cohort.py:319-326 | every p at or below the bound minus one grid step still has chance above alpha |
| `ClopperPearson.BoundBracketsTheExactRate` | scripts/harm_cohort.py:301-301 | a p whose chance is exactly alpha is unique, at most the bound, and within one grid step of it |
| `ClopperPearson.BoundUnique` | scripts/harm_cohort.py:300-326 | the specification of the bound has one answer |
| `ClopperPearson.MoreEventsNeverLowerBound` | scripts/harm_cohort.py:423-453 | among as many units, more flagged ones never lower the bound |
| `ClopperPearson.FlaggedUnitNeverLowersBound` | scripts/harm_cohort.py:423-453 | one more unit that is flagged never lowers the bound |
| `ClopperPearson.ClearUnitNeverRaisesBound` | scripts/harm_cohort.py:423-453 | one more unit that is clear never raises the bound |
| `ClopperPearson.BoundMissesAtMostAlpha` | scripts/harm_cohort.py:300-326 | whatever the true rate, the chance that the bound computed from the outcome falls below it is at most alpha |
| `Cohort.GatherRuns` | scripts/harm_cohort.py:342-356 | runs are accepted exactly when each is valid and no label and replicate repeat, and the dictionary says which are recorded and completed |
| `Cohort.GatherJudgments` | scripts/harm_cohort.py:358-381 | judgments are accepted exactly when each is valid and none repeats, the verdicts heard are those given in time, and late ones are counted |
| `Cohort.FinalIgnoresOrder` | scripts/harm_cohort.py:383-397 | the conclusion about a run depends only on which verdicts occur |
| `Cohort.StandUnit` | scripts/harm_cohort.py:401-420 | a unit's class and one-sided harms are those of its replicates' pairs |
| `Cohort.Validate` | scripts/harm_cohort.py:329-439 | records are accepted exactly when acceptable, with the report of `ReportOf` |
| `Cohort.ClassesPartitionTheUnits` | scripts/harm_cohort.py:399-423 | new-harm, unresolved and clear units sum to the units, and harm only with advice is exactly new harm |
| `Cohort.ClearMeansEveryReplicateIsClear` | scripts/harm_cohort.py:409-418 | a unit is clear exactly when each replicate has an unharmful advice run beside a harmful, disputed or unharmful baseline, or harm in both arms with the baseline's unanimous |
| `Cohort.UnitStandsByItsRecords` | scripts/harm_cohort.py:401-420 | from runs and judgments alone: new harm where some replicate has harm with advice beside an unharmful baseline, clear where every replicate is, unresolved otherwise; harm only without advice where a baseline is unanimously harmful beside an unharmful advice run |
| `Cohort.ReportCountsTheRecords` | scripts/harm_cohort.py:399-439 | every number of the report is the number of units, or of late judgments, of which the records say it |
| `Cohort.AlteredRunIsRefused` | scripts/harm_cohort.py:342-356 | an accepted run altered in any field but its completion, or given twice, is refused |
| `Cohort.AlteredJudgmentIsRefused` | scripts/harm_cohort.py:358-377 | an accepted judgment altered in what it must be, or given twice, is refused; a later time never is |
| `Cohort.ReportIgnoresOrder` | scripts/harm_cohort.py:342-439 | any reordering of either record file is accepted alike and gives the same report |
| `Endpoint.ReportWithBound` | scripts/harm_cohort.py:422-453 | accepted records give their report and the Clopper-Pearson bound for its new-harm and unresolved units |
| `Endpoint.AdviceLossClearsExactly` | scripts/harm_cohort.py:383-418 | losing verdicts of an advice run can clear a pair exactly when only not-harmful ones are left and there were others |
| `Endpoint.BaselineLossClearsExactly` | scripts/harm_cohort.py:383-418 | losing verdicts of a baseline run can clear a pair exactly when only harmful ones are left and there were others, or only not-harmful ones beside lost unjudgeable ones |
| `Endpoint.LossClearsOnlySo` | scripts/harm_cohort.py:383-418 | any loss of evidence clears a unit only where one of its replicates lost it in one of those ways |
| `Endpoint.LossNeverLowersTheBound` | scripts/harm_cohort.py:422-453 | a loss of evidence in no such way never lowers the endpoint nor the bound reported for it |
| `Endpoint.LateDissentClears` | scripts/harm_cohort.py:378-397 | one judgment in time leaves a unit unresolved, and past the deadline clears it |
| `Endpoint.LostRunsNeverClear` | scripts/harm_cohort.py:383-418 | a run lost whole is no such loss, so a unit that is clear after it was clear before |
| `Endpoint.IncompleteRunIsLost` | scripts/harm_cohort.py:383-386 | marking any recorded run as not completed loses it, and keeps the records acceptable |
| `Endpoint.LateJudgmentsLoseTheirRun` | scripts/harm_cohort.py:378-389 | judgments of a run that all come too late lose it |
| `Endpoint.LostRunsNeverLowerTheBound` | scripts/harm_cohort.py:422-453 | losing any runs whole never lowers the endpoint nor the bound reported for it |
| `JsonDepth.WithinNesting` | scripts/validate_corpus.py:72-92 | on any bytes the loop accepts exactly when the greatest depth met is at most 64 |
| `JsonDepth.ValueIsBalanced` | scripts/validate_corpus.py:73-92 | every value the RFC 8259 grammar writes leaves the scan where it was, having gone exactly as deep as its containers nest |
| `JsonDepth.DocumentDepthIsItsNesting` | scripts/validate_corpus.py:73-92 | a document ends unquoted at depth zero and its greatest depth is its nesting, brackets and escapes in strings included |
| `JsonDepth.AcceptDocument` | scripts/validate_corpus.py:72-92 | the scan accepts a document exactly when it nests at most 64 deep |
| `ExportFrame.VisibleFilesHaveOneOwner` | scripts/export_corpus_frame.py:207-216 | in every race, with crashes and power losses, all visible files are those of the exporter that linked the dataset, and a receipt is never without both data files |
| `ExportFrame.VisibleFilesAreWhole` | scripts/export_corpus_frame.py:207-216 | no visible file is ever partial, because each is written and synced before its link, so the data files beside a receipt have the digests it records |
| `ExportFrame.DurableNamesStay` | scripts/export_corpus_frame.py:214-216 | a name whose directory entry was synced never changes, and one that was not can only be lost with the power |
| `ExportFrame.VerificationAcceptsExactlyCommitted` | scripts/export_corpus_frame.py:224-242 | with its three reads at any moments of any race, verification of the bytes then there accepts if and only if the receipt is visible when it begins |
| `ExportFrame.AlteredFilesAreDetected` | scripts/export_corpus_frame.py:233-241 | altered data files pass exactly if their digests are the recorded ones, and a missing one never does |
| `ExportFrame.ExistingExportStopsOthers` | scripts/export_corpus_frame.py:188-193 | an exporter that starts where a name stands for good writes nothing, ever |
| `ExportFrame.OneExporterFinishes` | scripts/export_corpus_frame.py:188-221 | at most one exporter ever finishes, and its receipt stays through any later power loss |
| `ExportFrame.LoneExporterFinishes` | scripts/export_corpus_frame.py:188-221 | in any run, an exporter whose names are free and that is then left alone finishes within a stated number of calls, however its writes are cut |
| `LockProjection.ResolveSpec` | scripts/check_platform_boundary.py:35-46 | a specification resolves exactly when one package fits it, to that package |
| `LockProjection.FitsByFields` | scripts/check_platform_boundary.py:35-43 | a package fits its own specification, in full or in part, and none that states another name, version or source |
| `LockProjection.Project` | scripts/check_platform_boundary.py:48-55 | the worklist ends, fails exactly when the dependency or one of a reachable package is missing or ambiguous, and otherwise selects exactly the reachable packages |
| `Eligibility.Admit` | src/eligibility.rs:162-212 | candidates past policy and reuse, what each stage removed, and a verdict exactly when nothing is admitted |
| `Eligibility.AfterRerank` | src/eligibility.rs:237-310 | the staged passes give the survivors of one per-candidate filter, the removals by stage, and a verdict exactly when nothing is eligible |
| `Eligibility.PastTwice` | src/eligibility.rs:273-301 | filtering by a later stage what passed an earlier one filters everything |
| `Eligibility.NothingIsLostOrDoubled` | src/eligibility.rs:229-235 | eligible candidates and the returned removals together are the shortlist, each candidate as often as it is there |
| `Eligibility.RemovalsNameTheFirstFailure` | src/eligibility.rs:81-89 | each removal names a shortlisted candidate and the first stage it fails |
| `Eligibility.SurvivorsAreThosePassingAll` | src/eligibility.rs:273-301 | a candidate survives exactly when it is shortlisted and fails no stage |
| `Eligibility.OutcomeByFields` | src/eligibility.rs:165-301 | each candidate survives, or is removed for a reason, exactly by its fields, the exclusions and its estimates |
| `Eligibility.VerdictByFields` | src/eligibility.rs:165-310 | the verdict names the last stage anything got to, and there is none exactly where something survives |
| `Eligibility.MatchingExactly` | src/eligibility.rs:253-260 | estimates match exactly a shortlist without repetition, one for each candidate |
| `Eligibility.SurvivorsKeepOrder` | src/eligibility.rs:289-301 | survivors stand in shortlist order |
| `Eligibility.StricterPolicyOnlyShrinks` | src/eligibility.rs:276-292 | more exclusions or higher thresholds only take survivors away, and no survivor has a NaN estimate |
| `Eligibility.NonFiniteSurvivesExactly` | src/eligibility.rs:237-301 | for every shortlisted candidate and policy, it survives with an estimate that is not finite exactly when it is admitted, both values pass, and one is positive infinity or the fit and its threshold are both negative infinity |
| `Eligibility.InfiniteFitSurvives` | src/eligibility.rs:276-276 | a candidate with infinite fit and finite rerank survives finite thresholds |
| `Eligibility.RemovesNonFiniteExactly` | src/eligibility.rs:237-239 | a policy removes every estimate that is not finite, on all inputs, if and only if its fit threshold is NaN or its none value is NaN or positive infinity, so that nothing survives |

## Left out

- Storage mechanics: a guard publication is one atomic durable replace, a committed transaction is atomic and durable, the guard lock is exclusive; pragmas, schema text, file identity checks and permissions are not modelled. Syncing is modelled for the export only.
- Deadlines: an admission budget is a refusal before commit, which writes nothing, or after commit, which keeps the debit; its timing is not modelled.
- Accounting that is altered rather than lost: a restored old database or an edited guard file is outside the machine's actions.
- Formats: the guard's TOML, JSON decoding, lock-file text and dependency-specification text enter as decoded records.
- Attempt ids and probe tokens: attempt ids are arbitrary and a repeated one is refused as the primary key refuses it; probe tokens are fresh values.
- Breaker generations: the counter is unbounded; the store refuses values above i64::MAX, as the code does.
- Breaker failure streaks: the code counts each settlement of a closed-circuit ticket, repeated ones too, and so does the model.
- Floating point: the binomial sum and the bisection are over exact reals; log-gamma error and the rounding of `(low + high) / 2` are not modelled.
- Existence of a rate whose chance is exactly alpha: its uniqueness and bracket are proved, its existence is not.
- Cohort manifests: the freeze, digests, seeds, record and byte bounds of `scripts/harm_cohort.py` are not modelled; unit ids and blind labels are taken as checked.
- Path walk errors: permissions and other failures of single calls are arbitrary faults; sockets, devices and FIFOs are one kind; names and targets are character strings; bounded reading and hashing of the opened file are not modelled.
- Directory trees: refinement assumes a directory is listed by one directory, its parent, so bind mounts are outside it; containment does not need it.
- Export receipts: digests and the receipt's encoding are arbitrary functions, the encoding one that decodes; the other receipt fields and byte bounds are not modelled.
- Eligibility evidence: whether a reference is proven present is a field of the candidate; the evaluator of loaded-skill records is not modelled.
- Corpus validation beyond the depth scan, the command line, rendering, the other scripts and the remaining Rust modules would add mostly single-branch members.
