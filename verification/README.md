# run-farm, verified

A Dafny model of run-farm, the orchestrator that rents GPU hosts, runs checkpointed campaigns
on them and accounts for every dollar and every result. It proves what the code's protocols keep
under crashes, interleavings and bad input, and where the code is narrower than its own prose it
proves exactly when the promise holds.

Five parts:

* **Rental, ledger, cap, reaper.** `FleetModel` is a transition system: leg threads, the offer
  pool, the provider's rent and teardown, the shared ledger and the collecting main thread, with
  the marketplace, ssh and the clock as environment. One action is one atomic effect, a sequence
  of actions is one interleaving, and a crash may follow any of them. `FleetTheorems`,
  `FleetOvershoot` and `FleetTermination` hold the results about every run, `FleetLegs` says how
  each leg ends by what it did, `FleetBilling` what its rows say and what closing a rental costs. `Ledger`, `Budget`,
  `Reap` and `Request` are the sequential code, as classes and methods with loops, tied to the
  functions those results use; `Teardown` ties the provider's destroy loop to the transitions.
  `ReapScope` says what a reap may touch, `ReapTheorems` what it repairs and when its grace period
  is enough, `ReapSpend` what it does to spend.
* **Governed campaign.** `CutFlow` and `Shipment` are the table and the shipment check;
  `CampaignModel` gives plan, gate, execute and ingest as functions on the campaign's state,
  `CampaignObject` is the object that updates it in place, and `CampaignFleet`,
  `CampaignCollision`, `CampaignRejected`, `CampaignPlan` and `CampaignHistory` hold the theorems.
* **Marker-last publication.** `Publish` turns a publish into its list of atomic steps and runs
  them on a file tree; `PublishTheorems` speaks about every prefix of that list, `FetchTheorems`
  about a publish whose copy of the remote output may be torn.
* **Resume and reattach.** `Resume` cuts an attempt after any number of durable effects;
  `Registry` has the file registry and `ObjectStore` the blob-store one with its event sink, each
  with the driver over it; `Reattach` has the two ssh loops with their shared deadline.
* **Partition and merge.** `Split` and `Merge`.

Money and time are exact reals, except that the roundings the code writes out (ledger stamps to
milliseconds, costs to four decimals, the summary to six, billed seconds to one) are modelled,
half to even. What a host, the marketplace, ssh or a crash does is unconstrained, unless a
lemma's `requires` says otherwise.

## Where the code is narrower than its prose

* A create whose response is lost is reported as "could not rent" although the instance exists;
  it never reaches the ledger (`Request.LostCreateIsInvisible`). A failed create was seen by no
  server exactly when it carries no HTTP status and its last attempt's response did not get lost
  (`Request.Create`). It is one of the two exceptions in `FleetTheorems.LiveHostsAreReapable`.
* Un-forcing a cut-flow stage removes exactly the unexplained drops only when no earlier stage
  has a recorded reason, or nothing was forced (`CutFlow.UnforcingIsExact`).
* `execute_fleet` checks `.unplanned` keys for collisions, but not `.dup` and `.conflict` rows. It
  is honest for every dispatch list exactly when no planned rid is such a row's name
  (`CampaignCollision.FleetIsHonestExactly`).
* The marker is last only for a file marker at depth one or two. `PublishTheorems.MarkerIsLastExactly`
  gives the condition for every marker; a directory marker, the default, precedes its contents.
* `_fetch` does not look at scp's exit code and publishes whatever the copy brought: a copy cut
  after the marker makes the leg look complete without its payload, here and on every relaunch
  (`FetchTheorems.TornFetchLooksComplete`). A fetch keeps the promise exactly when its copy
  stopped before the marker, or brought the whole payload and the publish order is safe
  (`FetchTheorems.FetchIsSafeExactly`).
* Killing a leaked host books rent-to-now. That equals, up to the roundings, what the budget had
  been counting exactly when the rental is open and its stamp is neither zero nor more than
  0.05 s in the future, or it is closed with nothing left to bill
  (`ReapSpend.KilledSpendMovesByRounding`, `ReapSpend.SecondsAgreeExactly`). In particular a host
  whose own teardown failed has its cost in the ledger already and is booked a second time
  (`ReapSpend.LeakIsBookedTwice`).
* The reaper's grace period covers listing lag, delay and stamp skew up to 120 s together, but not
  a rental logged between the reaper's two reads of the ledger
  (`ReapTheorems.GraceIsExact`, `ReapTheorems.RentBetweenReadsIsClosed`).
* Registration writes the config file and then the manifest line; a crash between the two leaves
  the run off the manifest for good (`Resume.ListedExactly`).
* The one-worker guard is per call: whether the next config's worker can start beside a survivor
  depends on how the first call ended. It cannot after the worker's own exit code, nor after a
  deadline found spent before an attempt (which follows a GONE); it can after any other verdict,
  with truthful probes (`Reattach.GuardIsPerCall`).
* `execute_fleet` checks an unplanned record's key against the planned legs only, so a record
  named like a leg that planning rejected takes over that leg's row and erases its planning drop
  (`CampaignRejected.RecordNamedLikeRejectedLeg`); `CampaignRejected.PlanningDropSurvivesExactly`
  says beforehand which dispatch lists do that.
* A negative backoff makes `_run_command`'s sleep raise exactly when a reattach is due after the
  first attempt (`Reattach.SleepRaisedExactly`). `_run_worker` never raises: with a backoff of zero
  or less its guard gets no time to probe, so it makes one attempt whatever `reattach_attempts`
  says, as either loop does with a backoff of run_timeout or more
  (`Reattach.ReattachIsPossibleExactly`).
* Budget and reaper read the ledger differently: any `destroyed` row closes a rental for the one,
  only a verified one for the other (`Ledger.BudgetAndReaperDisagreeOn`).

## Model

| member | source | states |
|---|---|---|
| FleetTheorems.LiveHostsAreReapable | src/run_farm/vast.py:383-475 | In every interleaving and after every step, a host that is still live is in the reaper's leaked set; the only exceptions, in both directions, are a host whose `rented` row is not yet written and one whose create call reported failure |
| FleetTheorems.LeaksAreNeverMasked | src/run_farm/fleet.py:496-588 | A leg's final result is the typed LEAK exactly when the ledger holds a host of that leg whose teardown was not confirmed, and a leg has at most one such host |
| FleetTheorems.OnlyReportedHostsStayLive | src/run_farm/fleet.py:536-588 | A leg that has moved on from a host without reporting LEAK leaves it live only if destroy claimed success and the listing failed, or its create was lost |
| FleetTheorems.TrackedIsExact | src/run_farm/fleet.py:676-682 | The tracked set is exactly the hosts of legs between track and untrack, and no host belongs to two legs |
| FleetTheorems.EndIsClean | src/run_farm/fleet.py:706-771 | However `run` ends, every leg is joined and nothing is tracked, so the closing sweep finds nothing; on a normal end each leg has its own result |
| FleetTheorems.StaysHalted | src/run_farm/fleet.py:737-751 | A halted run never goes back to collecting |
| FleetTheorems.HaltStartsNothing | src/run_farm/fleet.py:737-751 | After the cancel pass of a budget halt no queued leg ever starts |
| FleetTheorems.OffersAreConserved | src/run_farm/fleet.py:240-253 | Offers handed out followed by the queue are the concatenation of all listed batches, of which there are at most 1 + max_refills; entries into `rent`, failed and refused ones included, plus offers still in hand are exactly the offers handed out, and there are no more instances than entries |
| FleetLegs.LegEndsAsItRan | src/run_farm/fleet.py:495-588 | In every run and for every status a leg can report: it ends with that status exactly when its last act was to close a host with nothing left unconfirmed after a stay that earned it (OK: exit 0, marker arrived, artifacts intact, verdict good; and so on), or a create was refused for good; the typed LEAK exactly when one of its teardowns was left unconfirmed |
| FleetLegs.LegMovesOnExactly | src/run_farm/fleet.py:496-578 | A leg goes to the pool exactly after its start, after a create that failed for now, and after a clean teardown that followed a bad host, a failover or a failed run on a dead host |
| FleetLegs.GetTells | src/run_farm/fleet.py:247-253 | One `get` hands the leg the first queued offer, or after one refill the first listed one; it ends the leg exactly when nothing was queued and no refill was left or the listing was empty, raises exactly when a due refill fails, and refills exactly when drained with refills left |
| FleetLegs.NoOffersExactly | src/run_farm/fleet.py:496-500 | A leg has ended with NO_OFFERS exactly when it asked such a drained pool |
| FleetBilling.StepLogs | src/run_farm/vast.py:396-462 | Exactly three acts write to the ledger, one row each about the leg's own host, stamped to the millisecond; no other step of anything writes |
| FleetBilling.ClosingRowTells | src/run_farm/vast.py:429-462 | In every run a `destroyed` row is for a host logged at the rate of the offer that was handed out, says whether a destroy was confirmed and the listing answered, and costs the rate times the time from entering `rent` to the end of the stay, over 3600, within 0.00005 |
| FleetBilling.ClosingMovesSpent | src/run_farm/budget.py:67-119 | In every run, closing a rental moves the spend the cap compares by the rate times the delay before the `rented` row less the one before the `destroyed` row, within half a unit of the cost's last decimal and of the stamp |
| FleetBilling.CheckIsTheCap | src/run_farm/budget.py:125-132 | The two reads of a leg's check, undisturbed, admit it exactly when that spend is below the cap, and otherwise raise the budget halt |
| FleetInvariants.RunInv | src/run_farm/fleet.py:488-588 | One invariant over hosts, ledger rows, tracking, typed leaks, the thread pool and offers holds in every state of every run; which status a leg ends with is FleetLegs.LegEndsAsItRan |
| FleetInvariants.PoolGetConserves | src/run_farm/fleet.py:247-254 | One `get` keeps handed-out plus queued equal to everything listed and hands out exactly the offer it returns |
| FleetInvariants.StepInv | src/run_farm/fleet.py:488-588 | Every single step, by any thread or the environment, keeps that invariant |
| FleetSafety.StepWired | src/run_farm/vast.py:383-475 | Every step keeps the wiring of live hosts, ids, owners and ledger rows |
| OfferPool.Queue.Get | src/run_farm/fleet.py:247-254 | The pool object's `get` is the model's transition, and by itself: exhausted exactly when nothing was queued and no refill was left or the fresh listing was empty, failed exactly when a due refill's query raised, else the first offer of the queue or of the listing, and a refill used exactly when drained with one left |
| OfferPool.PoolGetTells | src/run_farm/fleet.py:247-253 | The same of the transition that every result about runs is stated over |
| FleetOvershoot.OvershootIsBounded | src/run_farm/budget.py:67-132 | In every interleaving of at most k legs, with rates at most d and rentals at most t seconds, booked plus in-flight spend is zero or below the cap plus k rental shares, although the check is two reads and renting is another step |
| FleetBudget.StepPriced | src/run_farm/budget.py:125-132 | Every step keeps booked dollars plus one share per occupied slot below that bound |
| FleetOvershoot.SpendWithinSlots | src/run_farm/budget.py:67-89 | In-flight burn is covered by the slots of the legs that hold the open rentals |
| FleetTermination.EveryStepDecreases | src/run_farm/fleet.py:495-578 | Every program step decreases (refills left, queue length, remaining leg and main work) lexicographically |
| FleetTermination.RunsAreBounded | src/run_farm/fleet.py:495-578 | A run has at most 15 program steps per listed offer, 4 per leg and 3 more |
| FleetTermination.NeverStuck | src/run_farm/fleet.py:706-771 | Until the run has ended some program step is enabled, unless the driver crashed |
| FleetTermination.LegCanMoveExactly | src/run_farm/fleet.py:731-736 | A leg that has not ended can make a step in every state, except a queued one while max_parallel legs are active |
| FleetRun.Run | src/run_farm/fleet.py:706-760 | Duplicate labels exactly when two labels are equal; with something to run, a failed first listing, a budget halt exactly when the raising leg was over the budget, another error exactly when it raised otherwise; without an error, one entry per input leg in input order, SKIP for complete legs and the thread's own result for the others |
| FleetRun.LabelsAreUnique | src/run_farm/fleet.py:712-715 | True exactly when no two labels are equal |
| FleetRun.Prepare | src/run_farm/fleet.py:717-725 | Complete legs are skipped and recorded, the others are pending in order |
| FleetRun.NormalEndCollectsEveryLeg | src/run_farm/fleet.py:731-760 | After a normal end each pending leg's recorded result is the one its thread ended with |
| FleetRun.AbnormalEndHasItsCause | src/run_farm/fleet.py:737-751 | In every run, one that ends in a budget halt has a leg that raised over the budget, and one that ends broken a leg that raised otherwise |
| FleetRun.RunRaisesWhatItCollected | src/run_farm/fleet.py:731-751 | In every run that ends: it raises the budget halt exactly when the main thread collected a leg that had raised over the budget, another exception exactly when it collected one that had raised otherwise, none exactly when it collected neither |
| Teardown.Provider.TearDown | src/run_farm/vast.py:429-468 | At most five destroys, stopping at the first confirmed one, then an independent listing; the exit is clean exactly when a destroy was confirmed and the listing does not show the host |
| Teardown.DestroyLoopStopsAtFirst | src/run_farm/vast.py:431-449 | Torn down exactly when one of the five tries is confirmed; none before the last one made was; the host is up exactly when no try made was effective |
| Teardown.TeardownIsTheLoop | src/run_farm/vast.py:429-468 | The fleet's transitions for one teardown, run alone, give the phase, verification and live set the provider's loop computes; what the row books is FleetBilling.ClosingRowTells |
| Ledger.RentalLedger.Record | src/run_farm/ledger.py:46-50 | Appends one row, stamped to the millisecond |
| Ledger.RentalLedger.Events | src/run_farm/ledger.py:52-56 | All rows in order, or an error when a line does not parse |
| Ledger.RowsAreTheEntries | src/run_farm/reap.py:65-112 | A lenient read keeps every row in order and passes over blank lines and those that do not parse |
| Ledger.RentalLedger.Summary | src/run_farm/ledger.py:58-84 | The rounded total of all `destroyed` costs |
| Ledger.SummaryIsExact | src/run_farm/ledger.py:58-84 | On costs of four decimals the summary's rounding loses nothing |
| Ledger.BudgetAndReaperDisagreeOn | src/run_farm/budget.py:81-82 | What the budget counts open is leaked for the reaper; the reaper's surplus is exactly the closed but unconfirmed ids and the ids seen without a `rented` row |
| Budget.IndexRentals | src/run_farm/budget.py:70-82 | The last `rented` row of each id and the set of closed ids |
| Budget.InFlightUsd | src/run_farm/budget.py:67-89 | The sum over open rentals of rate times elapsed time |
| Budget.CappedProvider.SpentUsd | src/run_farm/budget.py:116-119 | Booked plus in-flight dollars, or an error when the ledger does not parse |
| Budget.CappedProvider.Rent | src/run_farm/budget.py:125-132 | Admits exactly when that spend is below the cap |
| Reap.DestroyWithRetry | src/run_farm/reap.py:263-288 | Stops at the first conclusive answer and reports failure only when there was none or it was a refusal |
| Reap.LeakedIds | src/run_farm/reap.py:65-112 | The ids seen rented or running without a `destroyed` row verified gone, skipping lines that do not parse |
| Reap.RentRows | src/run_farm/reap.py:115-131 | Each id's last `rented` row |
| Reap.SelectTargets | src/run_farm/reap.py:327-341 | The loop selects the listed instances that pass the filters, in order; what passes is ReapScope.ReapTouchesExactly |
| Reap.DestroyTargets | src/run_farm/reap.py:343-357 | Which targets were destroyed or already gone, and which failed |
| Reap.FindVanished | src/run_farm/reap.py:363-374 | The leaked ids that are not listed, not killed and older than the grace period |
| Reap.CloseLedgerRows | src/run_farm/reap.py:134-191 | Appends one confirmed `destroyed` row for each id, at its closing cost |
| Reap.Reap | src/run_farm/reap.py:291-379 | A ledger-scoped reap reports and writes what the specification says, with other processes appending in between |
| Reap.TargetsAreSelected | src/run_farm/reap.py:327-341 | An instance is a target exactly when it is listed and passes the filters, whatever they are |
| ReapScope.ReapTouchesExactly | src/run_farm/reap.py:263-357 | Over the report of any reap: an id is killed exactly when rows saw it and none confirmed it gone, a listed instance of that id has the label asked for and a known age of at least the one asked for, and within the retries an answer says destroyed or gone before any refusal or defect; failed exactly when in scope and not so |
| ReapScope.FiltersOnlyNarrow | src/run_farm/reap.py:327-341 | Whatever a reap kills or fails on under some filters it kills or fails on under wider ones, in particular under every smaller age |
| ReapScope.VanishesExactly | src/run_farm/reap.py:363-374 | An id is closed as vanished exactly when it is leaked on the second read, not listed, not just killed, and its last `rented` row is more than 120 s old, or missing |
| ReapScope.TargetsInOrder | src/run_farm/reap.py:327-341 | Targets are picked from the listing one by one, in its order |
| ReapScope.ReapWritesExactly | src/run_farm/reap.py:134-191 | A reap appends exactly one confirmed, reconciled `destroyed` row per killed id in ascending order and then one per vanished id, stamped with its clock; a vanished id costs nothing |
| ReapTheorems.RepairIsExact | src/run_farm/reap.py:343-379 | A reap removes exactly the killed and vanished ids from the leaked set and from the open rentals, and changes no id's burn at any time |
| ReapTheorems.SecondReapTargetsFailures | src/run_farm/reap.py:343-379 | A second reap with the same clock and listing targets exactly the ids the first failed to destroy |
| ReapTheorems.SecondReapWritesNothing | src/run_farm/reap.py:343-379 | If those fail again the second reap writes nothing |
| ReapSpend.OneRowPerClosedId | src/run_farm/reap.py:134-191 | A reap writes exactly one `destroyed` row per killed or vanished id and none for any other id; a killed id is booked its closing cost, a vanished one nothing |
| ReapSpend.SpendMoves | src/run_farm/reap.py:134-191 | By the ledger's own reading, at any later time, a killed id's spend moves by its closing cost less what it was burning, a vanished id's by minus its burn, and no other id's moves |
| ReapSpend.KilledSpendMovesByRounding | src/run_farm/reap.py:165-176 | A killed id's spend moves by at most 0.05·dph/3600 + 0.00005, at every rate it may have been rented at, if and only if the seconds billed and the seconds the budget was counting differ by at most 0.05 |
| ReapSpend.SecondsAgreeExactly | src/run_farm/reap.py:165-170 | They do exactly when the rental is open with a stamp that is neither zero nor more than 0.05 s in the future (zero only with the clock at most 0.05), or already closed with a zero stamp or one within 0.05 s of now |
| ReapSpend.SpentMovesByIds | src/run_farm/budget.py:67-89 | The total the cap compares moves by exactly the sum of those moves over the killed and vanished ids |
| ReapSpend.SettledReapMovesSpentByRounding | src/run_farm/reap.py:134-191 | When every killed id is of the agreeing kind, the total drops by the vanished ids' burn and otherwise moves by at most the sum of the killed ids' rounding bounds |
| ReapSpend.LeakIsBookedTwice | src/run_farm/vast.py:450-457 | A host whose failed teardown booked $0.99 and that a reap kills at the same time is booked $1.98 |
| ReapTheorems.GraceIsExact | src/run_farm/reap.py:363-374 | For every ledger, rows appended during the reap, and clock: no live host is closed as vanished in any scene with hosts born in the past and the given listing lag, delay and stamp skew exactly when no leaked id is older than 120 s and either stamped within their sum or without a `rented` row in the first read |
| ReapTheorems.RentBetweenReadsIsClosed | src/run_farm/reap.py:363-378 | With the sum at most 120 s and the clock past 120, a live host can be closed exactly when some id was first seen between the two ledger reads, at any lag, delay and skew |
| ReapTheorems.GraceCoversTheSum | src/run_farm/reap.py:112 | With consistent reads the 120 s are enough on every ledger exactly when lag, delay and skew add up to at most 120 s |
| ReapTheorems.ReapRecoversFromCrash | src/run_farm/reap.py:291-379 | After a crash at any point of any run, a reap over a complete listing whose destroys succeed kills every live host but the two exceptions of LiveHostsAreReapable |
| Request.Req | src/run_farm/vast.py:140-180 | Retries exactly the transient faults within its tries, sleeps the schedule and reports the last attempt; which faults those are is Request.TransientIsTriedAgain |
| Request.TransientIsTriedAgain | src/run_farm/vast.py:85-124 | A temporary resolver failure is tried again for every call; a transport fault and the statuses 408, 425, 429, 500, 502, 503 and 504 for idempotent calls; nothing else |
| Request.BackoffDoubles | src/run_farm/vast.py:86-88 | Pauses start at half a second and double up to eight; five tries sleep at most 7.5 seconds |
| Request.Create | src/run_farm/vast.py:264-283 | A create reaches the server at most once for every fault sequence, exactly once when it succeeds, and not at all if and only if it reports a failure without an HTTP status and its last attempt's response was not lost |
| Request.Read | src/run_farm/vast.py:140-180 | An idempotent call makes at most max(1, tries) attempts and sleeps at most the full backoff schedule |
| Request.BackoffBound | src/run_farm/vast.py:177 | n backoffs are at most 8n seconds |
| Request.LostCreateIsInvisible | src/run_farm/vast.py:98-119 | After any number of retried name lookups, a create whose response is lost has reached the server, is not retried, and is reported as the failure that stands for "could not rent" |
| CutFlow.Table.Enter | src/run_farm/farm.py:62-65 | A (re-)entered leg starts with unknown stages and no reasons, every other row unchanged |
| CutFlow.Table.Mark | src/run_farm/farm.py:67-86 | The table after a mark is the specification's, every other row unchanged; what that does to each cell is CutFlow.MarkRowTells |
| CutFlow.MarkRowTells | src/run_farm/farm.py:67-86 | Cell by cell: a drop settles its stage and all later ones and nothing earlier; a pass settles its own, changes no passed or unknown cell besides, and takes back exactly the later drops with no reason of their own or in between |
| CutFlow.EveryDropIsExplained | src/run_farm/farm.py:62-86 | After any sequence of enters and marks, a stage with a reason is dropped and every dropped stage has a reason at itself or earlier |
| CutFlow.MarkKeepsExplained | src/run_farm/farm.py:67-86 | One mark keeps that |
| CutFlow.UnforcingIsExact | src/run_farm/farm.py:79-86 | A pass releases exactly the drops left unexplained if and only if no earlier stage has a reason or nothing was forced before the next one |
| CutFlow.UnforcingPastAnEarlierDrop | src/run_farm/farm.py:79-86 | A pass after an earlier recorded drop releases stages that drop still explains |
| Shipment.VerifyShipment | src/run_farm/farm.py:160-188 | No violations exactly for complete shipments whose products all match their sidecar hashes and whose required blobs are all attested; otherwise every bad product and slot is named, and no other |
| Shipment.DigestIsFaithful | src/run_farm/farm.py:43-48 | A digest covers every product: with an ideal hash, equal digests mean the same names with the same contents |
| CampaignObject.LaunchGate | src/run_farm/farm.py:146-157 | Empty exactly when the launched run names are the planned ones, and otherwise names the side of each difference |
| CampaignObject.FarmCampaign.Plan | src/run_farm/farm.py:230-248 | Refuses duplicate rids, with the gate already reset and nothing else changed; otherwise the configs it keeps are exactly the legs without violations, in plan order, and it returns their number |
| CampaignObject.FarmCampaign.GateLaunch | src/run_farm/farm.py:250-255 | Marks every planned leg with the gate's verdict and opens the gate exactly when there is no violation |
| CampaignObject.FarmCampaign.ExecuteLeg | src/run_farm/farm.py:257-270 | One leg through loss, skip or governance |
| CampaignObject.FarmCampaign.ExecuteFleet | src/run_farm/farm.py:272-334 | Refused without a passing gate; otherwise every record and every unreported config is dealt with as the state function says, and a dispatch that raises after some records, or yields something that is no record, leaves what those records did and reconciles nothing |
| CampaignObject.FarmCampaign.OnSkip | src/run_farm/farm.py:336-354 | A skip re-affirms an ingested leg, governs a recovered result, or is a loss |
| CampaignObject.FarmCampaign.Govern | src/run_farm/farm.py:356-375 | Shape, verification and ingest, with the stage of the first failure dropped |
| CampaignObject.FarmCampaign.Ingest | src/run_farm/farm.py:377-402 | New content is ingested once, identical content is a no-op, other content becomes a conflict row and is never written over the first |
| CampaignObject.Unused | src/run_farm/farm.py:296-302 | The reporting key of an unplanned record is neither a planned rid nor already used |
| CampaignModel.FreshKey | src/run_farm/farm.py:296-302 | Appending `.unplanned` ends with an unused key |
| CampaignFleet.FleetIsTotal | src/run_farm/farm.py:272-334 | For any dispatch list, each planned rid gets exactly one result, that of its first record or LOST, and its row stops at the stage that stands for: completed, shipped, verified or registered; strangers are rejected; successes come with an unbroken row, failures with a recorded drop; and the campaign stays ready |
| CampaignFleet.GovernTells | src/run_farm/farm.py:356-402 | Governing a leg past the gate gives the status its content and the corpus determine, a row that says the same, and touches no other leg but its conflict row |
| CampaignFleet.PlannedRecordTells | src/run_farm/farm.py:315-326 | The same for one dispatch record |
| CampaignFleet.GovernShows | src/run_farm/farm.py:356-402 | A governed leg's row is dropped at `shipped` exactly when its shipment is malformed, else at `verified` exactly when it is not verified, else at `registered` exactly when it cannot be hashed, with everything before passed; it is rejected exactly then |
| CampaignFleet.ExecuteLegTells | src/run_farm/farm.py:257-270 | One leg executed alone: lost when its runner raises, else the status a record with the same result would earn, with a row that says the same |
| CampaignCollision.FleetIsHonestExactly | src/run_farm/farm.py:308-314 | Result and row agree for every dispatch list if and only if no planned rid is another planned rid plus `.dup`, or plus `.conflict` when that leg is already ingested |
| CampaignCollision.PlanAndGateMakeReady | src/run_farm/farm.py:230-255 | Planning distinct legs and passing the gate gives the state FleetIsTotal needs, from any earlier state; the gate passes exactly when the launched names are the planned ones |
| CampaignPlan.PlanKeepsExactly | src/run_farm/farm.py:230-248 | From any state, a plan with distinct rids keeps exactly the legs without violations, each under its own rid and run name, in plan order |
| CampaignPlan.PlanRowsTell | src/run_farm/farm.py:239-246 | Afterwards a valid leg has passed planning and nothing else, a rejected one is dropped throughout with its violations as the reason |
| CampaignPlan.RefusedGateDropsEveryLeg | src/run_farm/farm.py:250-255 | When the gate refuses, every valid leg is dropped there with the gate's reason |
| CampaignPlan.EveryValidLegIsReported | src/run_farm/farm.py:230-334 | Plan, gate and dispatch, on any records: the report's keys are exactly the rids of the legs without violations and the keys of unplanned records |
| CampaignPlan.ValidLegIsTold | src/run_farm/farm.py:230-334 | With distinct run names, a passing gate and no collision, a valid leg's result is the one its first record earns, or LOST, and its row stops at the stage that stands for |
| CampaignPlan.RejectedLegIsTold | src/run_farm/farm.py:230-334 | A leg that planning rejected still shows exactly its planning row after the dispatch if and only if the dispatch list is not going to take its rid for bookkeeping |
| CampaignRejected.PlanningDropSurvivesExactly | src/run_farm/farm.py:294-314 | For every campaign and dispatch list, the row of a leg that planning rejected is untouched, and its planning drop still shown, exactly when its rid is not the key some unplanned record is going to get, the `.dup` of a planned leg with two or more records, or the `.conflict` of one whose first record brings other content than the corpus holds, all told from the arguments |
| CampaignRejected.RecordNamedLikeRejectedLeg | src/run_farm/farm.py:294-307 | One record named like the rejected leg, a name no planned leg runs under, erases the drop |
| CampaignHistory.IngestedOnceAndForAll | src/run_farm/farm.py:377-402 | Over any calls in any order the ingest callback fires exactly once per key, always with a verified shipment, and no key's content ever changes or disappears |
| CampaignHistory.EveryDropStaysExplained | src/run_farm/farm.py:230-402 | After any calls every drop in the waterfall has a recorded reason at or before it |
| Publish.FileTree.MergeDir | src/run_farm/arrival.py:347-358 | The recursive merge performs exactly the listed atomic steps, stopping at the first that fails |
| Publish.FileTree.MergeSome | src/run_farm/arrival.py:352-358 | One pass over the entries that are, or are not, held back |
| Publish.FileTree.Publish | src/run_farm/arrival.py:324-344 | So does a whole publish |
| Publish.FileTree.Fetch | src/run_farm/fleet.py:427-442 | A fetch publishes whatever its copy brought, for any exit code of the copy, and does nothing when nothing is to be fetched |
| Publish.FileTree.Complete | src/run_farm/fleet.py:343-352 | A leg is complete exactly when it has a marker and the marker is there |
| PublishTheorems.PublishCoversStaging | src/run_farm/arrival.py:324-358 | A publish does one step for every staged node and no other |
| PublishTheorems.PublishOpsShape | src/run_farm/arrival.py:347-358 | No path is written twice, and every directory is made before anything in it |
| PublishTheorems.CompletedPublishOverlays | src/run_farm/arrival.py:324-358 | A publish completes exactly when no staged path meets a node of the other kind, and then the destination is itself overlaid by everything staged, all other paths untouched |
| PublishTheorems.MarkerIsLastExactly | src/run_farm/arrival.py:324-358 | For every destination without the marker and every prefix of the steps, seeing the marker means seeing every staged file, if and only if on the way down to the marker nothing handled after it holds a file and it has none beneath |
| PublishTheorems.ShallowFileMarkerIsSafe | src/run_farm/arrival.py:328-333 | A file marker at depth one or two is safe at every prefix |
| PublishTheorems.NoMarkerNoCompletion | src/run_farm/arrival.py:324-358 | Publishing a tree without the marker never makes the marker appear, at any prefix |
| FetchTheorems.FetchIsSafeExactly | src/run_farm/fleet.py:427-442 | For every copy of the remote output, torn anywhere, every destination without the marker and every prefix: seeing the marker means having the remote's whole payload, if and only if the copy stopped before the marker, or the whole payload arrived and the publish order is safe |
| FetchTheorems.UncheckedFetchIsSafeExactly | src/run_farm/fleet.py:432-440 | For a file or directory as marker: a fetch that ignores the copy's exit code keeps that promise for every copy exactly when the remote has no marker yet, or no file besides it |
| FetchTheorems.CompleteCopyIsSafeExactly | src/run_farm/provider_exec.py:113-122 | After a complete copy it is kept exactly when the publish order is safe |
| FetchTheorems.TornFetchLooksComplete | src/run_farm/fleet.py:432-440 | A remote with a payload and a marker, and a copy that brought the marker alone: the publish leaves the marker without the payload |
| PublishTheorems.DeepMarkerOvertakesPayload | src/run_farm/arrival.py:350-353 | At depth three, with entries read in name order, the marker is unsafe beside a sibling of its directory exactly when that sibling sorts after the directory |
| PublishTheorems.DirectoryMarkerOvertakesPayload | src/run_farm/arrival.py:349 | A directory marker precedes its own contents |
| Resume.ResumeIsExact | src/run_farm/driver.py:40-56 | After any crashes, cut after any effect, one attempt left alone ends with the uninterrupted result; the events of all attempts are those of the uninterrupted run, strictly increasing, at most one missing per crash |
| Resume.CutAttemptStaysOnCourse | src/run_farm/driver.py:40-56 | Any attempt cut anywhere leaves a checkpoint and events of the uninterrupted run |
| Resume.DoneIsDone | src/run_farm/driver.py:41-42 | Once DONE, a further attempt changes no checkpoint, event or result |
| Resume.CountingResumes | src/run_farm/testing.py:40-58 | The counting run function ends with its step count and emits each count under its step, however often it was cut |
| Resume.ListedExactly | src/run_farm/config.py:96-109 | A run is on the manifest, once, exactly when the first attempt that wrote anything got past the config file |
| Registry.ExecuteConfig | src/run_farm/driver.py:40-56 | An uninterrupted attempt over the file registry performs exactly the effects of the model, returns the result or nothing when already done, and touches no other run |
| Registry.RunSteps | src/run_farm/testing.py:47-58 | The step loop performs exactly the model's save and emit effects |
| Registry.FileRunRegistry.Register | src/run_farm/config.py:96-109 | Writes config and manifest line once; no other run changes |
| Registry.FileRunRegistry.Save | src/run_farm/reference.py:69-70 | Replaces this run's checkpoint and nothing else |
| Registry.FileRunRegistry.Load | src/run_farm/reference.py:57-67 | The last checkpoint saved, or none |
| Registry.FileRunRegistry.IsComplete | src/run_farm/reference.py:54-55 | True exactly when a result was written |
| Registry.FileRunRegistry.Finish | src/run_farm/reference.py:72-73 | Records this run's result and nothing else |
| Registry.FileRunRegistry.Emit | src/run_farm/reference.py:85-87 | Appends to this run's events and nothing else |
| ObjectStore.ObjectStoreRunRegistry.Register | src/run_farm/store.py:176-185 | The same effects as the file registry's, over keys; no other run changes |
| ObjectStore.ObjectStoreRunRegistry.Save | src/run_farm/store.py:194-196 | The same effect as the file registry's save |
| ObjectStore.ObjectStoreRunRegistry.Finish | src/run_farm/store.py:198-200 | The same effect as the file registry's finish |
| ObjectStore.ObjectStoreRunRegistry.Load | src/run_farm/store.py:190-192 | The last checkpoint saved, or none |
| ObjectStore.ObjectStoreRunRegistry.IsComplete | src/run_farm/store.py:187-188 | True exactly when a result was written |
| ObjectStore.KeysTellApart | src/run_farm/store.py:173-174 | Keys of runs are equal only for the same run and part, whatever the names |
| ObjectStore.ManifestKeysTellApart | src/run_farm/store.py:176-185 | A manifest key is never a run's own key, for any names that end in a config hash |
| ObjectStore.OthersKept | src/run_farm/store.py:173-200 | A blob under one run's key changes no other run |
| ObjectStore.StoreRegisters | src/run_farm/store.py:176-185 | The two puts of a first registration are the file registry's two effects |
| ObjectStore.EventKeysTellApart | src/run_farm/store.py:229-232 | Keys of event records are equal only for the same run and file, whatever the names |
| ObjectStore.EventsAreNoRunBlobs | src/run_farm/store.py:229-232 | An event record's key is never one of a run's own keys |
| ObjectStore.EventsAreNoManifestBlobs | src/run_farm/store.py:229-232 | Nor a manifest key |
| ObjectStore.ObjectStoreEventSink.Emit | src/run_farm/store.py:229-232 | Appends to this run's records and to no other's, in a store shared with the runs |
| ObjectStore.ObjectStoreEventSink.Events | src/run_farm/store.py:245-249 | The blobs under the run's prefix, sorted by key, are its records in the order of emission, when nothing else lies under that prefix |
| ObjectStore.ExecuteInStore | src/run_farm/driver.py:40-56 | An attempt over registry and sink sharing one store leaves the run the file registry's attempt would leave, and no other run changed, so that the resume results hold over either backend |
| Reattach.RunCommand | src/run_farm/fleet.py:631-660 | The loop's verdict, clock and invocations are those of the specification, for any policy; a non-reattachable command gets one attempt |
| Reattach.RunWorker | src/run_farm/provider_exec.py:314-346 | The same for the worker loop with its guard |
| Reattach.WaitWorkerGone | src/run_farm/provider_exec.py:264-290 | The same for the probe loop |
| Reattach.DeadlineIsShared | src/run_farm/fleet.py:631-660 | For any attempts, backoff and box behaviour a call takes at most run_timeout plus one dead-check, grants never grow, re-entry follows only a 255 on a host not confirmed dead, and there are at most 1 + reattach attempts; the verdict is the worker's own code exactly when the last attempt gave one, the last-attempt failure exactly when all attempts were used on a 255, the dead host exactly when another attempt was left on one; a spent deadline is reported as 124, every other failure as 255 |
| Reattach.SleepRaisedExactly | src/run_farm/fleet.py:640-659 | A call raises exactly when it has no worker guard, a negative backoff, time and another attempt left, and its first attempt was a transport failure on a host not confirmed dead |
| Reattach.ReattachIsPossibleExactly | src/run_farm/provider_exec.py:335-345 | Some box sees a second attempt exactly when reattaching is allowed and the backoff is below run_timeout and not negative, and positive under the worker guard |
| Reattach.ProbesKeepBudget | src/run_farm/provider_exec.py:278-290 | The probe loop never outlives its budget and says gone only on a GONE it has just seen |
| Reattach.ProbesAreShort | src/run_farm/provider_exec.py:264-290 | No probe takes more than 30 seconds and no pause between two more than the backoff |
| Reattach.OneWorkerPerCall | src/run_farm/provider_exec.py:292-346 | With truthful probes, within one call a worker is started only when no earlier one is running |
| Reattach.GuardIsPerCall | src/run_farm/provider_exec.py:417-428 | For every policy with probing and every call: whatever the next config on the host does and whenever it starts, two workers never overlap on a box truthful in its probes and exit codes, if and only if the first call ended with the worker's own exit code, a deadline found spent before an attempt, or a dead host |
| Split.SplitConfigs | src/run_farm/multi.py:84-115 | Refuses no executors and senseless weights; otherwise assigns every config once, in turn without weights, and with weights in order and with the least squared error of all whole-number splits |
| Split.Apportion | src/run_farm/multi.py:105-110 | Counts are floor or ceiling of the shares, rounded up for the largest fractions with ties to earlier executors, and add up |
| Split.LargestRemainderIsOptimal | src/run_farm/multi.py:105-110 | No other whole-number split with the same total has smaller squared error |
| Split.SharesAreExact | src/run_farm/multi.py:104-106 | The exact shares add up to the number of configs, and a zero weight has a zero share |
| Split.Rank | src/run_farm/multi.py:108-109 | Every index once, by descending fraction, ties in index order |
| Split.Cut | src/run_farm/multi.py:111-114 | Consecutive buckets of the given sizes that concatenate to the list |
| Split.RoundRobin | src/run_farm/multi.py:94-97 | Config i is entry i div k of bucket i mod k, bucket sizes differ by at most one, and nothing is lost |
| Merge.RunMulti | src/run_farm/multi.py:150-174 | Each run's last record, and for every run with several records all its producers in order |
| Merge.AddRecord | src/run_farm/multi.py:169-173 | One record more keeps that |
| Merge.LastHasNoLater | src/run_farm/multi.py:169-173 | The record kept for a run is the one no later record of that run follows |
| Merge.IsolateTells | src/run_farm/multi.py:138-147 | A slice carries its executor's error and no records if it raised, otherwise its values in order, each under its run name and annotated with the executor |
| Merge.CompletionOrderIsIrrelevant | src/run_farm/multi.py:150-174 | Any two completion orders of the same slices give the same runs, flag the same runs with the same producers, and agree on every run that is not flagged |
| Merge.HarvestIsComplete | src/run_farm/multi.py:84-174 | Split distinct configs, let every executor return its bucket or fail, merge in any order: no duplicate is flagged and the harvest has exactly the runs of the executors that did not fail |

## Left out

- Threads: `_run_leg`, `_track`, `_untrack`, `_destroy_live` and the thread pool are transitions on values, because interleaving is the point; only the pool, the teardown loop and `run`'s bookkeeping are also objects and loops.
- OS signals: a signal sweep is covered as hosts that die at any time; handler chaining is not modelled.
- Ledger writes: one append is atomic and never fails; a line that does not parse is modelled for the readers only.
- Clocks: one clock for stamps, listing and timeouts; wall-clock jumps are not modelled.
- Teardown timing: the two-second sleeps between destroys are not modelled; `FleetOvershoot.OvershootIsBounded` takes the whole rental's length as its bound.
- RunPod: its rent and teardown are the same machine as Vast's, modelled once.
- Reap.Reap: only the ledger scope, for real, with closing on; dry runs, `close_ledger=False`, label-only and all-instances scopes, the refetch before them, and the report's split of cleared ids into destroyed and gone with the rate reclaimed are left out.
- Ledger.RentalLedger.Summary: only the dollar total; counts by outcome and billed minutes are left out.
- Shipment.DigestIsFaithful: sha256 is taken to be ideal, that is injective on the canonical text.
- Reap.CloseLedgerRows: the `cost_unknown` mark, the upper bounds recorded for a vanished id and the copied offer fields are left out.
- Hashing: a content hash is an ideal injective function, JSON text is abstract, and run names stand for config hashes, so legs with distinct rids are taken to have distinct run names.
- Cut-flow reasons: reasons the code builds from violations are represented by one text per kind.
- CampaignObject.FarmCampaign.ExecuteFleet: records are given as a list, an exception as the flag that ends it; a preflight or ingest callback that raises is not modelled.
- Checkpoint writes: saving a checkpoint and writing the result are atomic, which the file backend does not enforce.
- ObjectStore.ObjectStoreRunRegistry.Save: run names end in an underscore and twelve slash-free characters, as `run_name` makes them; S3 is left out.
- ObjectStore.ObjectStoreEventSink.Events: nothing is said when another run's name continues this one's with `/events/`, whose blobs the listing would take for records.
- ObjectStore.ExecuteInStore: the clock moves on between two records of one run, so that their file names sort in the order of emission; triggered captures are left out.
- Resume.ResumeIsExact: two attempts at one run at the same time are not modelled, nor are full-state trigger captures.
- Reattach.DeadlineIsShared: ssh is cut off exactly at its timeout, and code between two clock reads takes no time; probe replies are GONE or not.
- Reattach.GuardIsPerCall: a verdict of a dead host moves the executor to another host; its own second look at the status is taken to agree.
- Publication: marker paths are plain relative components, a copy is a part of one state of the remote output, and two publishes at once are not modelled.
- Split.SplitConfigs: weights and shares are exact reals, not floats.
- Merge.RunMulti: records without a run name and the printed summary are left out.
- File-format verification (zip, gzip, tar, npy, JSON): reduced to whether the artifacts are damaged.
- Not modelled, easy or foreign: `gauntlet.py`, `payload.py`, `diagnostics.py`, `status.py`, `sweep.py`, `estimate`, progress-line parsing, device probes, the CLI, Modal, S3, ssh and scp themselves.
