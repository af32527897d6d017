# Verified model of the resource broker

The system lets Kubernetes clusters trade capacity. Providers run an agent that measures what their nodes have left and
advertises it to a broker. Consumers ask the broker for CPU and memory; the broker picks a provider, locks the amount in
the provider's ClusterAdvertisement, and tells the provider's agent to hold it back. Consumers then peer with the
provider, measure latencies, and switch to better providers.

This project models the reservation ledger of the broker as a concurrent protocol over a versioned store, together with
the agent code that feeds it (collector, provider instructions), the code that drives it (ranking, latency exploration,
price caches) and the peerings that result. `dafny verify dfyconfig.toml` checks everything.

## How it is organised

| file | subject |
|---|---|
| `Quantities.dfy` | amounts, sums of amounts |
| `Ledger.dfy` | one ClusterAdvertisement: lock, release, merge; whole histories of committed updates |
| `Reservations.dfy` | one reservation: stored versions, the drives working on it, phases, drift |
| `Protocol.dfy`, `Runs.dfy` | all reservations and ledgers together; invariants over every run |
| `Overcommit.dfy` | releases of what was not locked; when a provider is never overbooked |
| `Mishaps.dfy`, `RepeatedRelease.dfy` | concrete runs in which something goes wrong: a double lock, a lost phase write, an overwritten phase, an orphaned lock, a repeated release |
| `Broker.dfy` | the reconciler and the HTTP handlers as methods that take the protocol's steps |
| `Collector.dfy`, `EndToEnd.dfy` | what the agent advertises; nodes, ledger and score connected |
| `Ranking.dfy`, `Eco.dfy` | filter, score, sort, truncate; the carbon score |
| `Latency.dfy`, `Requester.dfy`, `Convergence.dfy` | bonds and evaluation; the request that switches; where it ends |
| `Scenes.dfy` | concrete scenes of two providers in which a request does not settle |
| `Costs.dfy` | price and exchange-rate caches |
| `Peering.dfy` | reservation instructions and live peerings |
| `Provisioning.dfy` | provider instructions: creation over two paths, enforcement |

## Conventions

- A `resource.Quantity` is an exact integer in its smallest unit, `float64` is `real`. In `Collector.dfy` all quantities
  count nano-units, the finest fraction that a quantity holds; where the source rounds up to milli-units or whole units,
  so does the model.
- A store object is the sequence of all its committed values. A read returns any of them, because clients read through
  caches; an update commits only if it was computed from the newest one (the API conventions' rule for
  `resourceVersion`). `retry.DefaultRetry` gives five attempts.
- Clusters are identified by their cluster ID, which is unique. A reservation is identified by its position in creation
  order. A reservation's specification does not change, except that its target is filled in once.
  Advertisements are never deleted.
- A *drive* is one run of the reconciler for a reservation, or the HTTP handler that created it. Each of its accesses to
  the store is one event, and events of any other drives, writers and users come between any two of them. A drive may
  end after any access.
- The cache's choice of a version is an arbitrary choice; clocks, reads that fail, the decision engine, services and
  `liqoctl` are arguments.
- A condition that only the surroundings can provide is named where it is needed. A run is *slip-free* if no event
  makes the ledger and the phase part ways (`Reservations.Slippage`): no phase write is lost after a committed lock or
  release, none lands on a reservation that is already Reserved, no due release is skipped, and nothing Reserved leaves
  the store without a finalizer. It is *orderly* if, moreover, every reconciler drive starts from the newest version of an
  object that is still in the store, while no handler works on that object, and advertisements are created with nothing
  reserved.
- Reconciles of reservation instructions work on a copy of the object that may be outdated, like everything else that
  reads through a cache; `liqoctl` acts at once, whatever becomes of the update that follows.

## What was found

These are properties that the code or its documentation suggests and that some input breaks. They come with concrete
inputs that break them and with the exact conditions under which they hold; what a failure cannot do is said beside it.

- `PostReservation` creates the object before it locks. The creation wakes the reconciler, which locks too:
  `Mishaps.TwoDriversLockTwice` is a run without any failure that ends with one reservation locked twice. A phase write
  that is lost after a committed lock also makes the ledger differ from the phases (`Mishaps.LostMarkKeepsTheLock`). The
  ledger is exact at every point of a run exactly if no event of the run slips (`Runs.ExactIffSlipFree`).
- A drive that starts from an outdated copy can release a lock that has been released before, and then Reserved is
  negative (`RepeatedRelease.StaleReadReleasesTwice`). No reservation is ever released more often than locked exactly if
  every committed release finds its request counted (`Overcommit.NeverOverreleasedIffBacked`). That is so in orderly runs
  (`Overcommit.OrderlyIsBacked`), and in all runs, with several drivers, lost marks and unprotected deletions, in which
  no release starts from an outdated copy and no phase write is lost after a release (`Overcommit.RepeatFreeIsBacked`).
- Double locks, lost marks and orphaned locks never overbook a provider: after each lock of such a run everything fits
  (`Overcommit.NoOvercommit`, `EndToEnd.NodesAreNeverOverbooked`). A repeated release can make the broker grant a lock
  where nothing is left (`RepeatedRelease.RepeatedReleaseOverbooks`), but only at a provider whose own pods and
  instructions need more than it can allocate; where they fit, every lock of every run fits too.
- A handler writes the outcome of its lock without looking at the phase. `Mishaps.FailedIsRevived` is a run in which it
  marks a Failed reservation as Reserved. Phases move forward along a run exactly if no handler overwrites a phase that
  has moved on (`Runs.ForwardIffOverwriteFree`), which no orderly run does (`Runs.OrderlyPhasesMoveForward`).
- A handler locks even if it could not add the finalizer, and then the object can be deleted with its lock kept
  (`Mishaps.DeletedWhileLocked`). In orderly runs deletion is safe exactly if handlers lock only for objects that carry
  the finalizer (`Runs.DeletionIsSafe`).
- The formula `Available = Allocatable - Allocated - Reserved` that the documentation gives (README.md:67,
  resource-agent/README.md:98, resource-broker/internal/resource/availability.go:10) holds on the ledger exactly if the
  last advertisement offered everything that was not allocated (`Ledger.FormulaAgreement`); sharing and the agent's own
  held-back amount break it (`EndToEnd.SharingHalfDisagrees`). The ledger proper keeps `Available + Reserved` equal to
  what was last advertised.
- Evaluations look a bond up in the namespace `default`, whereas bonds are created in the namespace of the provider's
  advertisement (`Scenes.HiddenProviderKeepsTheRequest`). A request settles at the fastest provider exactly if all
  never-connected providers live in `default` (`Convergence.SettlesIffVisible`).
- With everything explored, a request at a fastest provider may leave it exactly if another eligible provider is as fast
  (`Convergence.LeavesIffRivalled`), and then it may switch every second reconcile: for as long as no other bond expires
  (`Convergence.TiesMaySwitchForever`, `Scenes.TwinsMaySwitchForever`), and without any end if those two are the only
  eligible ones (`Convergence.RivalsMaySwitchForever`, `Scenes.TwinsNeverSettle`).
- A peering whose `Delivered` status is not written is not torn down when its instruction is deleted, whether the update
  failed (`Peering.LostDeliveryOrphans`) or the instruction changed while `liqoctl` was at work
  (`Peering.DeletionDuringPeeringOrphans`). Live peerings stay covered exactly if every delivery is recorded
  (`Peering.CoveredIffLossFree`).
- Two reservations at one provider share a peering, and tearing one down takes it from the other
  (`Peering.SharedPeeringIsCut`). Delivered instructions keep their peering exactly if no teardown hits a provider that
  another delivered instruction stands for (`Peering.ServingIffCutFree`).
- A request whose outcome cannot be saved is booked again by its next reconcile, although the broker has granted a
  reservation (`Requester.ResourceRequest.Reconcile`).
- The priority of a request adds the same to every score, and so decides nothing, exactly unless the latency policy
  compares located clusters with scored ones that have no location (`Ranking.PriorityIgnoredIffNotMixed`).
- The two paths that create provider instructions agree on one object per reservation exactly if they are configured
  with the same namespace (`Provisioning.OnceIffOneNamespace`), which `cmd/main.go` of the agent does; otherwise the
  collector counts a reservation twice (`Provisioning.TwoNamespacesCountTwice`).
- Asking for a GPU in addition can raise a cluster's score, whatever the request (`Ranking.AskingForAGpuCanScoreHigher`).
  A larger request scores no higher on any cluster exactly if both requests ask for a GPU or neither does
  (`Ranking.LargerScoresLowerIffGpuAgrees`).

## Model

| member | source | states |
|---|---|---|
| Ledger.ClusterAdvertisement.CanReserve | resource-broker/internal/resource/calculator.go:12-29 | answers yes exactly if locking the request would leave nothing negative |
| Ledger.ClusterAdvertisement.AddReservation | resource-broker/internal/resource/calculator.go:32-53 | moves the request from available to reserved, opening the field if need be, and changes nothing else |
| Ledger.ClusterAdvertisement.RemoveReservation | resource-broker/internal/resource/calculator.go:56-73 | fails, leaving no trace, exactly if nothing was ever reserved; otherwise moves the request back |
| Ledger.ClusterAdvertisement.MergeAdvertisement | resource-broker/internal/api/handlers/advertisement.go:71-136 | takes over the incoming advertisement but keeps reserved, policy, carbon and energy price as the broker owns them, and subtracts what is reserved |
| Ledger.ClusterAdvertisement.UpdateAvailableResources | resource-broker/internal/resource/availability.go:24-60 | recomputes available from allocatable, allocated and reserved |
| Ledger.ReleaseUndoesLock | resource-broker/internal/resource/calculator.go:32-73 | releasing after locking restores the resources; the total of available and reserved never changes |
| Ledger.MergeIsIdempotent | resource-broker/internal/api/handlers/advertisement.go:64-139 | merging the same advertisement again, as reposts and retries do, changes nothing |
| Ledger.LastMergeWins | resource-broker/internal/api/handlers/advertisement.go:102-136 | of two merges only the last counts for resources |
| Ledger.MergeCommutes | resource-broker/internal/api/handlers/advertisement.go:128-136 | a merge and a lock, or a merge and a release, give the same advertisement in both orders |
| Ledger.ReservedStays | resource-broker/internal/resource/calculator.go:37-42 | the reserved field exists from the first lock on, whatever is committed later |
| Ledger.HistoryMeaning | resource-broker/internal/api/handlers/advertisement.go:102-138 | for every history of committed updates: reserved is the initial amount plus locks minus releases, and the physical totals are the last advertised ones |
| Ledger.Conservation | resource-broker/internal/api/handlers/advertisement.go:128-136 | available plus reserved is what was last advertised, exactly if the advertisement was created with nothing reserved or has been merged since |
| Ledger.LockIsCovered | resource-broker/internal/resource/calculator.go:12-29 | right after any committed lock nothing available is negative; so no more is reserved than was advertised, if the ledger started from nothing reserved or has been merged since |
| Ledger.OrderDoesNotMatter | resource-broker/internal/api/handlers/advertisement.go:102-138 | two histories with the same net locks and the same last advertisement end with the same available and reserved |
| Ledger.FormulaAgreement | resource-broker/internal/resource/availability.go:8-45 | the incremental ledger agrees with the formula after any history exactly if the last advertisement offered allocatable minus allocated |
| Ledger.GpuMeaning | resource-broker/internal/api/handlers/advertisement.go:102-138 | for every history the available GPU amount is the last advertised one less what the creating advertisement had reserved, which no lock, release or merge ever changes |
| Ledger.PolicyStays | resource-broker/internal/api/handlers/advertisement.go:76-105 | over every history the policy stays the broker's, whatever agents post |
| Ledger.CarbonIsTheLastSent | resource-broker/internal/api/handlers/advertisement.go:106-112 | the carbon values are the last ones that the broker annotated or an agent sent non-empty, with their time; an empty list never erases them |
| Ledger.CarbonIsTheFirst | resource-broker/internal/api/handlers/advertisement.go:106-112 | until then they are those of the creation |
| Ledger.PriceSurvives | resource-broker/internal/api/handlers/advertisement.go:113-127 | a positive energy price survives every update until an agent sends a non-zero price of its own, and its currency until an agent sends one |
| Ledger.RenewableIsTheAgents | resource-broker/internal/api/handlers/advertisement.go:113-127 | whether the energy is renewable is what the last agent said, and no if it sent no cost |
| Reservations.CoherentStep | resource-broker/internal/controller/reservation_controller.go:59-135 | every access of every drive, however stale its read, keeps drives, versions, targets and phases consistent with each other |
| Reservations.TargetStep | resource-broker/internal/controller/reservation_controller.go:187-194 | a drive locks and releases in the cluster that the newest version names, and a chosen target never changes |
| Reservations.PhaseNeverFallsBack | resource-broker/internal/controller/reservation_controller.go:115-134 | an access, however stale its read, moves a phase back or out of Failed or Released exactly if a handler's outcome commits on a phase that has moved on; the reconciler alone never does |
| Reservations.WhoWritesWhat | resource-broker/internal/controller/reservation_controller.go:75-99 | conditions are written by the requester's signals alone, the finalizer by adding it, the deletion mark by a deletion |
| Reservations.WhatMovesOn | resource-broker/internal/controller/reservation_controller.go:264-280 | phase, expiry and life of an object change by their own accesses alone; only a confirmation of a reservation with a duration sets the expiry |
| Reservations.WhatIsWritten | resource-broker/internal/controller/reservation_controller.go:75-99 | a deletion marks what has a finalizer and removes what has none; adding the finalizer and choosing a target do what they say if the version is current |
| Reservations.DriftStep | resource-broker/internal/controller/reservation_controller.go:264-280 | what the ledger counts departs from what the phase owes at exactly the listed events: a lock, release or phase write lost, repeated or skipped |
| Reservations.TidyStep | resource-broker/internal/controller/reservation_controller.go:391-441 | each orderly access keeps: one lock before Reserved, one release on leaving it, none elsewhere |
| Reservations.TidyMeaning | resource-broker/internal/controller/reservation_controller.go:396-399 | at most one lock and one release, a release only of what was locked, and at rest the ledger counts exactly the Reserved phase |
| Reservations.ProtectedStep | resource-broker/internal/controller/reservation_controller.go:75-99 | a counted reservation stays in the store under the finalizer, unless exactly a handler locks for an object without finalizer; what leaves the store is no longer counted |
| Protocol.CommitKeepsSerial | resource-broker/internal/api/handlers/reservation.go:172-192 | an attempt on the newest version appends one update of that value; an attempt on any older version changes nothing |
| Protocol.InvStep | resource-broker/internal/controller/reservation_controller.go:206-230 | every event of every actor keeps all ledger histories serial and their net equal to the locks and releases that committed |
| Runs.RunKeepsBooks | resource-broker/internal/api/handlers/advertisement.go:64-139 | the same over whole runs with any number of writers, stale reads, conflicts and failures |
| Runs.Accounting | resource-broker/internal/resource/calculator.go:44-50 | in every reachable state reserved is the created amount plus the committed locks minus the committed releases of all reservations: no update is lost |
| Runs.PolicyOutlivesReposts | resource-broker/internal/api/handlers/advertisement.go:76-105 | in every reachable state each advertisement has the policy it was created with |
| Runs.EventsCommitOnTheNewestValue | resource-broker/internal/controller/reservation_controller.go:229-230 | an event changes at most one ledger, by one permitted update applied to its newest value; a conflicting lock, release or merge changes none |
| Runs.ExactUnlessSlip | resource-broker/internal/controller/reservation_controller.go:264-280 | from a state without drift, the ledger stays equal to what the phases owe exactly if the event does not slip |
| Runs.DriftShows | resource-broker/internal/controller/reservation_controller.go:278-280 | one reservation that drifted makes its cluster's ledger differ from the phases |
| Runs.ExactIffSlipFree | resource-broker/internal/controller/reservation_controller.go:264-280 | over every run from a state without drift, with any number of drivers and stale reads, the ledger equals what the phases owe at every point exactly if no event slips |
| Runs.SlipFreeLedgerIsExact | resource-broker/internal/controller/reservation_controller.go:264-295 | so after every slip-free run reserved is the amount at creation plus the sum over the reservations that the phases owe |
| Runs.LedgerIsExact | resource-broker/internal/controller/reservation_controller.go:198-295 | with orderly drives in addition, reserved is the sum over Reserved reservations plus those locked and not yet marked minus those released and not yet marked; it is never negative, and a Reserved reservation can always be released |
| Runs.LockedAndReleasedOnce | resource-broker/internal/controller/reservation_controller.go:304-388 | in every orderly run each reservation locks at most once and releases at most once and only what it locked |
| Overcommit.NeverOverreleasedIffBacked | resource-broker/internal/controller/reservation_controller.go:402-441 | over every run, with any drivers, stale reads and failures, no reservation is released more often than locked, exactly if no committed release finds its request not counted |
| Overcommit.BackedIsHeld | resource-broker/internal/resource/calculator.go:56-73 | then reserved never falls below what the advertisement was created with |
| Overcommit.RepeatFreeIsBacked | resource-broker/internal/controller/reservation_controller.go:391-441 | double drives, marks lost after a lock and unprotected deletions do no harm to that: it takes a phase write lost after a release, or a release from an outdated or removed object |
| Overcommit.OrderlyIsBacked | resource-broker/internal/controller/reservation_controller.go:396-399 | and so do orderly runs |
| Overcommit.NoOvercommitAt | resource-broker/internal/resource/calculator.go:12-29 | in every consistent state, after a committed lock allocated plus held back by the agent plus reserved fits into allocatable, for each resource of which reserved was not negative before or that the provider's own use does not overbook |
| Overcommit.NoOvercommit | resource-broker/internal/api/handlers/advertisement.go:128-138 | so after every committed lock of every run that releases only what is locked, and of every run at all for a provider that is not overbooked by itself |
| RepeatedRelease.StaleReadReleasesTwice | resource-broker/internal/controller/reservation_controller.go:391-441 | a run of one driver without a lost write, in which an outdated copy makes it release one lock twice, and reserved is negative |
| RepeatedRelease.RepeatedReleaseOverbooks | resource-broker/internal/controller/reservation_controller.go:391-441 | the run goes on to a lock that is granted at a provider with nothing left |
| Runs.PhasesMoveForward | resource-broker/internal/controller/reservation_controller.go:115-134 | over every run driven by the reconciler, lost and stale accesses included, the rank of a phase never falls, and Failed and Released are final |
| Runs.ForwardIffOverwriteFree | resource-broker/internal/api/handlers/reservation.go:194-237 | over every run, handlers included, all events move phases forward exactly if no handler overwrites a phase that has moved on |
| Runs.OrderlyPhasesMoveForward | resource-broker/internal/api/handlers/reservation.go:194-237 | in every orderly run, handlers included, phases move forward |
| Runs.DeletionIsSafe | resource-broker/internal/controller/reservation_controller.go:75-99 | along every orderly run, handlers included, each reservation that the ledger counts is in the store and carries the finalizer at every point, exactly if handlers lock only for objects that carry it |
| Runs.ReconcilersGuardLocks | resource-broker/internal/controller/reservation_controller.go:93-99 | runs driven by the reconciler alone meet that condition |
| Mishaps.TwoDriversLockTwice | resource-broker/internal/api/handlers/reservation.go:158-192 | a run in which handler and reconciler lock the same reservation, so that the ledger holds its request twice |
| Mishaps.LostMarkKeepsTheLock | resource-broker/internal/controller/reservation_controller.go:264-280 | a run of one driver whose phase write conflicts: nobody works on the Pending reservation any more, yet the ledger holds its request |
| Mishaps.FailedIsRevived | resource-broker/internal/api/handlers/reservation.go:194-237 | a run without any failure in which the reconciler, finding too little left after the handler's lock, marks a reservation as Failed, and the handler marks it as Reserved afterwards |
| Mishaps.DeletedWhileLocked | resource-broker/internal/api/handlers/reservation.go:165-192 | a run in which a reservation without finalizer is deleted while the ledger holds its request |
| Broker.LockOnce | resource-broker/internal/controller/reservation_controller.go:206-230 | one try commits the request locked in the newest advertisement, which had it available, or asks for another try after a conflict, or refuses because no advertisement was found or a stored version has too little |
| Broker.LockWithRetry | resource-broker/internal/api/handlers/reservation.go:171-192 | the lock loop ends with the request locked in the newest advertisement, with such a refusal, or after five conflicts, the last of them on an outdated version |
| Broker.ReservationReconciler.ReleaseResources | resource-broker/internal/controller/reservation_controller.go:391-441 | releases exactly for the phase Reserved with a listed target; an error means a conflict or a version without reserved amount, and nothing was released |
| Broker.ReservationReconciler.ReserveInTargetCluster | resource-broker/internal/controller/reservation_controller.go:198-295 | writes Reserved with the target and the expiry time after a committed lock, Failed after a refusal that has a reason, and ends with an error only if the last access conflicted |
| Broker.ReservationReconciler.HandlePending | resource-broker/internal/controller/reservation_controller.go:138-195 | reserves in the target, or first records the cluster ranked first as the target; fails if there is none |
| Broker.ReservationReconciler.SelectTarget | resource-broker/internal/controller/reservation_controller.go:149-187 | what it takes for the target: the eligible cluster that comes first in the order of the requester's policy, none exactly if there is none or the latency policy cannot locate the requester; the version that was ranked has room for the lock |
| Broker.ReservationReconciler.HandleReservedReservation | resource-broker/internal/controller/reservation_controller.go:298-344 | an active one becomes Active, otherwise an expired one Released, unless an access fails, and the request is released once; nothing happens to any other |
| Broker.ReservationReconciler.HandleActiveReservation | resource-broker/internal/controller/reservation_controller.go:347-388 | becomes Released if the requester says so or its time is over, unless an access fails; nothing happens otherwise |
| Broker.ReservationReconciler.HandleDeletion | resource-broker/internal/controller/reservation_controller.go:75-91 | with the finalizer, a Reserved request is released once before the object goes, unless an access fails; without it nothing is done |
| Broker.ReservationReconciler.Reconcile | resource-broker/internal/controller/reservation_controller.go:59-135 | one drive from any stored version to its end, interleaved with anything: it writes what that version calls for, case by case, with a reason for Failed and the right target and expiry for Reserved, and releases a Reserved request once; or it ends with an error because its last access conflicted. In an orderly run a request that it promoted or released is no longer counted |
| Broker.SettledIsUncounted | resource-broker/internal/controller/reservation_controller.go:396-441 | after every orderly run an Active or Released reservation at rest was locked once and released once |
| Broker.Handler.PostReservation | resource-broker/internal/api/handlers/reservation.go:158-254 | creates, then adds the finalizer before anything else it does, then locks; the newest phase is Reserved with its expiry exactly after a granted lock and Failed otherwise, unless the status write was lost; a refusal has a reason |
| Broker.Handler.WriteOutcome | resource-broker/internal/api/handlers/reservation.go:194-237 | repeats the status write on conflict: success means that the newest phase is the outcome; failure that a read failed, or the object is gone, or five writes, at these places of the run, were lost |
| Broker.Handler.PostAdvertisement | resource-broker/internal/api/handlers/advertisement.go:58-182 | success means that the advertisement was created, or that the newest value is the previous one with this advertisement merged in; a creation fails only if the first read missed an object or another writer came first, a merge only if a read failed or five attempts conflicted |
| Broker.Handler.MergeOnce | resource-broker/internal/api/handlers/advertisement.go:64-139 | one try merges into the newest value, or its version was outdated and nothing changes |
| Broker.Handler.GetInstructions | resource-broker/internal/api/handlers/advertisement.go:260-297 | returns, in order, the reservations that the cached list shows as Reserved at the calling provider, however old the listed versions |
| Broker.InstructionsAreTheListed | resource-broker/internal/api/handlers/advertisement.go:260-297 | these are exactly the listed ones, each once and in the order of the list |
| Broker.InstructionsMatchTheLedger | resource-broker/internal/api/handlers/advertisement.go:187-206 | whenever nothing is in flight in an orderly run and the list is up to date, the instructions that a provider fetches add up to what the broker has reserved on it |
| Collector.OrderOfPodsDoesNotMatter | resource-agent/internal/metrics/collector.go:221-304 | the allocated totals are the same for every order of the pods |
| Collector.AddPod | resource-agent/internal/metrics/collector.go:232-303 | a counted pod contributes the larger of its containers' sum and its init containers' maximum, plus its overhead; the flag never drops a GPU contribution |
| Collector.NeedIsLeast | resource-agent/internal/metrics/collector.go:213-303 | beside its overhead a Running or Pending pod needs the least amount that covers its containers together and each init container by itself; other pods need nothing |
| Collector.OneMorePod | resource-agent/internal/metrics/collector.go:207-311 | one more pod adds exactly that to the totals, and a GPU entry if it mentions one |
| Collector.CalculateAllocatedResources | resource-agent/internal/metrics/collector.go:207-311 | the sum of these contributions over Running and Pending pods |
| Collector.CalculateReservedResources | resource-agent/internal/metrics/collector.go:314-383 | the sum over enforced, unexpired, parseable instructions |
| Collector.HeldUntilExpiry | resource-agent/internal/metrics/collector.go:327-380 | an instruction holds back what it says exactly while it is enforced and not past its expiry, and otherwise nothing |
| Collector.PercentOfCeiling | resource-agent/internal/metrics/collector.go:142-151 | a percentage below 100 of a rounded-up count is at most the rounded-down count |
| Collector.SharingNeverOverstates | resource-agent/internal/metrics/collector.go:134-195 | every sharing mode offers between nothing and the free amount, unless a fixed amount is configured negative |
| Collector.EverythingIsShared | resource-agent/internal/metrics/collector.go:100-195 | with mode all, or a percentage outside 0 to 99, exactly max(0, allocatable - allocated - held back) is offered |
| Collector.PercentageIsShared | resource-agent/internal/metrics/collector.go:142-151 | with a percentage, the offer of each resource falls short of that part of the free amount by less than one unit, and exceeds it by no more than rounding up allows |
| Collector.SharingIsMonotone | resource-agent/internal/metrics/collector.go:142-151 | a larger percentage of a larger free amount is no smaller an offer, and everything is the largest |
| Collector.FixedAmountsAreShared | resource-agent/internal/metrics/collector.go:152-190 | with fixed amounts the smaller one of the configured and the free amount is offered, nothing where none is configured, and everything free where it cannot be parsed |
| Collector.SumNodes | resource-agent/internal/metrics/collector.go:54-86 | capacity and allocatable are the sums over ready nodes, with a GPU entry if some ready node has one |
| Collector.OneMoreNode | resource-agent/internal/metrics/collector.go:54-86 | a ready node adds its capacity and allocatable amounts, any other node nothing |
| Collector.CollectClusterResources | resource-agent/internal/metrics/collector.go:30-204 | free amounts are clamped at zero and then shared; without nodes there is an error |
| Collector.CollectedIsBacked | resource-agent/internal/metrics/collector.go:100-195 | whatever the sharing mode, the offer is at most allocatable minus allocated minus held back, or zero |
| EndToEnd.NodesAreNeverOverbooked | resource-agent/internal/metrics/collector.go:100-132 | after every committed lock of a run that releases only what is locked, whoever drives and whatever is late or lost otherwise, the requests of the provider's pods, its enforced instructions and the broker's locks fit together into what its ready nodes can allocate; and of every run, if pods and instructions fit by themselves |
| EndToEnd.AvailableStaysWithinAllocatable | resource-broker/internal/api/handlers/advertisement.go:102-136 | after any run that releases only what is locked no more is available than allocatable |
| EndToEnd.GpuStaysWithinAllocatable | resource-broker/internal/api/handlers/advertisement.go:102-136 | in every reachable state the GPU is available exactly if it is allocatable, and no more of it |
| EndToEnd.SurvivorsScoreWell | resource-broker/internal/broker/decision.go:187-248 | so after any such run every cluster that survives the filter has a score, with its resource part in [0, 1), for requests with and without GPU |
| EndToEnd.SharingHalfDisagrees | resource-broker/internal/resource/availability.go:8-45 | the first advertisement of an idle provider that shares half of its resources does not satisfy the formula |
| Ranking.EligibleIffServable | resource-broker/internal/broker/decision.go:70-90 | exactly those clusters are ranked that are active, are not the requester, and would be left with nothing negative |
| Ranking.SurvivorsHaveAScore | resource-broker/internal/broker/decision.go:216-241 | for a cluster that survives the filter the score is a number exactly if it has CPU and memory to allocate; the GPU is never missing |
| Ranking.ResourcePartIsAShare | resource-broker/internal/broker/decision.go:216-249 | within allocatable amounts and for a positive request, the resource part is defined and in [0, 1) |
| Ranking.ScoreOrder | resource-broker/internal/broker/decision.go:210-267 | more available and less requested never scores lower, for requests that agree on asking for a GPU |
| Ranking.EqualWeights | resource-broker/internal/broker/decision.go:240-246 | free CPU and free memory weigh the same without a GPU; beside one, free CPU weighs as much as free GPU, and memory 34 to 33 |
| Ranking.CheaperScoresHigher | resource-broker/internal/broker/decision.go:250-262 | of two advertisements that differ in the energy price, the cheaper one scores higher, and only it |
| Ranking.RenewableIsWorthHalf | resource-broker/internal/broker/decision.go:250-262 | renewable energy scores higher exactly as long as it is dearer by less than 0.5 |
| Ranking.NoCostIsFree | resource-broker/internal/broker/decision.go:250-262 | without cost information a cluster scores as if its energy were free and not renewable |
| Ranking.ShareAgainstPrice | resource-broker/internal/broker/decision.go:262 | a full share of free resources makes up for energy that is dearer by 3.5, exactly |
| Ranking.AskingForAGpuCanScoreHigher | resource-broker/internal/broker/decision.go:230-249 | for every request, asking for a GPU on top scores higher on some cluster that can serve both |
| Ranking.LargerScoresLowerIffGpuAgrees | resource-broker/internal/broker/decision.go:210-267 | a larger request scores no higher on any cluster exactly if both requests ask for a GPU or neither does |
| Ranking.BaseScoreIsTheEmptyRequest | resource-broker/internal/broker/decision.go:283-311 | where it is not the zero default, the base score is the score of an empty request |
| Ranking.PriorityIsNeutral | resource-broker/internal/broker/decision.go:264-266 | the priority never decides between two clusters |
| Ranking.PriorityIgnoredIffNotMixed | resource-broker/internal/broker/decision.go:92-116 | no priority changes the order of two eligible clusters, whatever their readings, exactly unless the latency policy finds both a located cluster and a scored one without location |
| Ranking.PriorityNeverMatters | resource-broker/internal/broker/decision.go:210-267 | then the answers that are right for one priority are right for every other, under every policy |
| Ranking.RankStandard | resource-broker/internal/broker/decision.go:126-141 | the array becomes a descending permutation of itself and the answer is its prefix |
| Ranking.RankEco | resource-broker/internal/broker/decisionEco.go:220-252 | the array becomes an ascending permutation of itself and the answer is its prefix |
| Ranking.RankLatency | resource-broker/internal/broker/decisionLatency.go:19-58 | the array becomes a permutation with a lowest never-connected entry first if there is one, everything else ascending; the answer is its prefix of length min(max(0, maxResults), n) |
| Ranking.RankClusters | resource-broker/internal/broker/decision.go:36-121 | errors in exactly three situations; otherwise distinct eligible clusters, as many as asked for and there are, in the order of the policy, and nothing left out belongs before something returned |
| Ranking.SelectionSize | resource-broker/internal/broker/decision.go:126-141 | all eligible clusters are returned if at most so many were asked for, otherwise exactly as many, and none for a limit that is not positive |
| Ranking.HigherScoreComesFirst | resource-broker/internal/broker/decision.go:126-141 | under the default policy, whenever a cluster is returned, each one with a higher score is returned before it |
| Ranking.CheaperComesFirst | resource-broker/internal/broker/decision.go:262 | so of two clusters alike otherwise, the one with the dearer energy is never returned before or instead of the other |
| Ranking.CleanerComesFirst | resource-broker/internal/broker/decisionEco.go:220-252 | under the eco policy the same for lower carbon scores |
| Ranking.FasterComesFirst | resource-broker/internal/broker/decisionLatency.go:19-58 | under the latency policy the same for lower latencies, but for the one cluster that is promoted |
| Ranking.NewestComesFirst | resource-broker/internal/broker/decisionLatency.go:25-37 | which is a fastest never-connected one, if there is one |
| Latency.RegionMatchIsSymmetric | resource-broker/internal/broker/decisionLatency.go:209-220 | the region pair does not depend on who asks |
| Latency.EvaluationHandler.CalculateScoreLatency | resource-broker/internal/broker/decisionLatency.go:116-206 | an unexpired bond gives its actual latency, else its estimate; an expired one is reset; a missing one is created from the actual latency of a bond between the same regions if there is one, and from the estimate exactly if there is none |
| Latency.ReportLastsThirtyDays | resource-broker/internal/broker/decisionLatency.go:133-150 | a reported latency is used for exactly thirty days |
| Latency.EvaluationHandler.ScoreByLatency | resource-broker/internal/broker/decision.go:92-96 | scoring reads of each eligible located cluster what the bonds before the pass allow, never connects a cluster, touches no unexpired bond, and afterwards every such cluster has a bond that says what was read if the store accepts them |
| Latency.EvaluationHandler.SaveLatency | resource-broker/internal/api/handlers/evaluation.go:82-106 | a report changes the actual latency and time of one bond in the lookup namespace, and only if it exists there |
| Latency.EvaluationHandler.RankCandidates | resource-broker/internal/broker/decision.go:58-116 | for every policy: no candidate in exactly the situations of a refusal, otherwise the selected clusters in the order of the policy by the readings taken; under latency these are what the bonds allow, and with unexpired bonds the first is a lowest never-connected cluster, or a fastest one if there is none |
| Latency.EvaluationHandler.PostEvaluation | resource-broker/internal/api/handlers/evaluation.go:56-127 | the report is recorded before ranking by the policy of the requester's first advertisement, the answer lists the ranked clusters in that order, only a report can turn a cluster into a connected one, and under latency the first candidate leads by the updated bonds |
| Requester.ResourceRequest.Reconcile | resource-agent/internal/controller/resourcerequest_controller.go:43-223 | the whole new status for every phase, answer and fate of the two status writes: Failed is final, Reserved is left exactly for a better first candidate in a due evaluation and drops its instruction, Pending ends Reserved at the first candidate or Failed, and stays Pending though booked if the outcome is not saved; with the surroundings that Convergence speaks of it is one of its steps |
| Requester.ResourceRequest.UpdateStatus | resource-agent/internal/controller/resourcerequest_controller.go:274-298 | five tries on conflict: writes all status fields together exactly if a try is reached that neither fails to read nor conflicts; otherwise nothing changes |
| Convergence.ReportRecords | resource-broker/internal/api/handlers/evaluation.go:85-102 | a report makes its provider connected and changes no provider's latency, if the bond lies in the lookup namespace; otherwise it connects nothing |
| Convergence.FirstCandidate | resource-broker/internal/broker/decisionLatency.go:25-37 | the first candidate is never-connected as long as there is such a cluster, and the unique fastest afterwards |
| Convergence.ReEvaluationExplores | resource-agent/internal/controller/resourcerequest_controller.go:71-130 | re-evaluating a newly chosen provider leaves exactly one never-connected cluster fewer, and the request stays only when nothing is left and it is at the fastest |
| Convergence.Converges | resource-agent/internal/controller/resourcerequest_controller.go:56-133 | over every run the switches made plus those still possible never exceed the initial bound, and after finitely many reconciles the request is at the fastest provider and stays |
| Convergence.SwitchBound | resource-agent/internal/controller/resourcerequest_controller.go:105-130 | at most as many switches as never-connected clusters, plus one if the run starts at a connected provider; settled after twice that many reconciles and two more |
| Convergence.LeavesIffRivalled | resource-broker/internal/broker/decisionLatency.go:25-37 | with everything explored, a request at a least-latency provider may leave it in its next reconcile exactly if another eligible provider has the same latency |
| Convergence.TiesMaySwitchForever | resource-broker/internal/broker/decisionLatency.go:21-23 | from a tied state there is, for every even number of reconciles within the month, a run that switches every second time and ends tied again |
| Scenes.TwinsMaySwitchForever | resource-broker/internal/broker/decisionLatency.go:21-23 | two concrete providers between which a request switches that often |
| Convergence.RivalsMaySwitchForever | resource-broker/internal/broker/decisionLatency.go:21-23 | if the two are the only eligible providers and reconciles are at most ten days apart, then for every even number of reconciles, over any time, because each report refreshes the bond that the next choice needs |
| Scenes.TwinsNeverSettle | resource-broker/internal/broker/decisionLatency.go:21-23 | the two concrete providers are such rivals |
| Convergence.HiddenBondsNeverSettle | resource-broker/internal/api/handlers/evaluation.go:85-87 | if a never-connected cluster keeps its bond outside the lookup namespace, every later choice rests on a cluster that still counts as never connected |
| Scenes.HiddenProviderKeepsTheRequest | resource-broker/internal/api/handlers/evaluation.go:85-87 | two concrete providers: the request leaves the faster one for the one outside the lookup namespace and stays there for the whole run |
| Convergence.SettlesIffVisible | resource-broker/internal/api/handlers/evaluation.go:85-87 | a long run ends at the fastest provider with everything explored exactly if evaluations find the bonds of all never-connected clusters |
| Eco.ComputeEcoScore | resource-broker/internal/broker/decisionEco.go:155-180 | the weighted average of at most six hours, the penalty for an empty forecast, and whether the second hour exceeds the first |
| Eco.ScoreBetween | resource-broker/internal/broker/decisionEco.go:160-171 | that average lies between the smallest and the largest of the hours it weighs |
| Eco.EarlierHoursWeighMore | resource-broker/internal/broker/decisionEco.go:29-31 | an increase costs more the earlier the hour, and nothing after the sixth |
| Eco.NoForecastIsWorst | resource-broker/internal/broker/decisionEco.go:155-158 | a cluster without a forecast scores worse than any whose hours stay below 999 |
| Costs.ConversionKeepsThePrices | resource-broker/internal/broker/decisionCostEnergy.go:149-157 | a converted vector stands for the same prices, and converting again changes nothing |
| Costs.PricesAreDividedByTheirRate | resource-broker/internal/broker/decisionCostEnergy.go:149-157 | a converted price times the rate of its currency is the quoted price |
| Costs.RegionsIgnoreCase | resource-broker/internal/broker/decisionCostEnergy.go:45-51 | two regions share their prices exactly if they differ in case only |
| Costs.CachesLast | resource-broker/internal/broker/decisionCostEnergy.go:62-118 | cached prices are used for an hour, cached rates for a day |
| Costs.CostCache.FreshForecast | resource-broker/internal/broker/decisionCostEnergy.go:52-101 | prices are fetched exactly when missing, empty or an hour old, stored with the time and beside the carbon values, and used only if the store kept them |
| Costs.CostCache.FreshRates | resource-broker/internal/broker/decisionCostEnergy.go:107-147 | rates are fetched exactly when missing or a day old, and used only if the store kept them |
| Costs.CostCache.Normalise | resource-broker/internal/broker/decisionCostEnergy.go:103-167 | yields the vector in EUR/MWh whether or not the store keeps the converted one; without a rate the cache stays as it is |
| Costs.CostCache.RefreshCost | resource-broker/internal/broker/decisionCostEnergy.go:43-186 | a cluster gets a price exactly if prices and the rates they need are cached or fetched and kept; it is the first entry of the vector fetched last, in EUR/MWh, and cached vectors always stand for that vector |
| Costs.CostCache.UpdateCosts | resource-broker/internal/broker/decisionCostEnergy.go:40-187 | every cluster of the list is left alone or given exactly that price, and all clusters with a region are given it when the services answer; nothing else in the list changes |
| Costs.CostCache.WriteCarbon | resource-broker/internal/broker/decisionEco.go:97-122 | the carbon writer of the same cache objects stores its values and leaves the prices alone |
| Peering.Agent.ReconcileInstruction | resource-agent/internal/controller/reservationinstruction_controller.go:42-202 | finalizer, expiry, credential, peering, delivery and teardown, one stage per reconcile, from whatever copy of the object was read; an update from an outdated copy changes nothing, what liqoctl did stays done |
| Peering.Agent.CreateReservationInstruction | resource-agent/internal/controller/resourcerequest_controller.go:225-272 | creates an instruction only under a free name |
| Peering.Agent.DeleteInstruction | resource-agent/internal/controller/resourcerequest_controller.go:112-126 | an instruction with a finalizer is only marked, one without disappears |
| Peering.CoverBreaksOnlyByLoss | resource-agent/internal/controller/reservationinstruction_controller.go:168-189 | a step leaves a live peering without a delivered, protected instruction exactly if peering succeeded, recording it failed or its copy was outdated, and no other instruction vouches for the cluster |
| Peering.DeliveredLeavesAfterUnpeering | resource-agent/internal/controller/reservationinstruction_controller.go:54-75 | a delivered instruction leaves the store exactly in a teardown from an up-to-date copy whose unpeering and update succeeded, and then its peering is down; delivered and being deleted are never undone |
| Peering.ExpiryAndSwitchMark | resource-agent/internal/controller/reservationinstruction_controller.go:87-104 | an expired or switched-away delivered instruction is next torn down, not dropped, whichever copy showed it expired |
| Peering.ExpiryEndsThePeering | resource-agent/internal/controller/reservationinstruction_controller.go:87-104 | a run with current reads, for every expiry time: an instruction created with it keeps its peering up to that time, and two reconciles later nothing is left of either |
| Peering.PeeringTakesACredential | resource-agent/internal/controller/reservationinstruction_controller.go:106-180 | a peering comes up only for an instruction that is protected, neither deleted nor expired nor delivered, and has a credential, which only a configured broker provides |
| Peering.CoveredIffLossFree | resource-agent/internal/controller/reservationinstruction_controller.go:182-189 | a run keeps all live peerings covered at every point exactly if every delivery is recorded |
| Peering.NothingLeftBehind | resource-agent/internal/controller/reservationinstruction_controller.go:54-75 | once no instruction to a cluster is left, neither is its peering, if every delivery was recorded |
| Peering.LostDeliveryOrphans | resource-agent/internal/controller/reservationinstruction_controller.go:61-74 | a run that ends with a live peering and no instruction, in which every reconcile reads what is stored, liqoctl never fails and exactly one update, that of the delivery, is refused |
| Peering.DeletionDuringPeeringOrphans | resource-agent/internal/controller/reservationinstruction_controller.go:168-189 | the same without any failure of the store or of liqoctl: the instruction is deleted while the peering is being established |
| Peering.OrphansStay | resource-agent/internal/controller/reservationinstruction_controller.go:42-75 | without a new reservation at that cluster, and once no outdated copy of a delivered, deleted instruction is worked on, such a peering is never torn down |
| Peering.ServingIffCutFree | resource-agent/internal/controller/reservationinstruction_controller.go:61-74 | over every run each delivered instruction that is not being deleted has its peering at every point, exactly if no teardown unpeers a cluster that another such instruction stands for |
| Peering.SharedPeeringIsCut | resource-agent/internal/controller/reservationinstruction_controller.go:61-74 | a failure-free run, with current reads, in which deleting one of two instructions to a provider leaves the other one delivered without a peering |
| Provisioning.ProviderAgent.ProcessInstructions | resource-agent/internal/controller/instruction_poller.go:55-110 | creates absent objects for Reserved deliveries in the poller's namespace, whatever stale reads miss |
| Provisioning.ProviderAgent.ProcessProviderInstructions | resource-agent/internal/controller/advertisement_controller.go:228-286 | the same in the instruction namespace, or the advertisement's if that is empty |
| Provisioning.ProviderAgent.ReconcileInstruction | resource-agent/internal/controller/providerinstruction_controller.go:36-188 | enforces after a successful upload, ends enforcement on expiry, touches no other object |
| Provisioning.DeliveriesKeepObjects | resource-agent/internal/controller/instruction_poller.go:65-71 | deliveries never change an existing object, create only what was delivered as Reserved, and create all of it that the store accepts |
| Provisioning.DeliveriesNeverCollide | resource-agent/internal/controller/instruction_poller.go:65-95 | after any run, whatever is stored under a delivery's name belongs to that reservation, so no delivery is blocked by another's object and each has its own unless the store refuses it |
| Provisioning.ObjectsSayWhatWasDelivered | resource-agent/internal/controller/instruction_poller.go:72-105 | over every run an object carries the amounts and the expiry of a Reserved delivery of its reservation |
| Provisioning.EnforcedWasUploaded | resource-agent/internal/controller/providerinstruction_controller.go:60-150 | over every run nothing is in force without a reconcile whose upload succeeded or that had no broker to upload to |
| Provisioning.OnceIffOneNamespace | resource-agent/internal/controller/advertisement_controller.go:236-247 | over all interleavings of both paths there is at most one object per reservation, exactly if they share a namespace |
| Provisioning.EachReservationCountsOnce | resource-agent/internal/metrics/collector.go:331-368 | then the collector's total over any listing is the sum over distinct reservations, each counted once |
| Provisioning.TwoNamespacesCountTwice | resource-agent/internal/metrics/collector.go:317-320 | with two namespaces a reservation can be counted twice, because the collector lists all of them |
| Provisioning.ExpiryNeedsNoMarking | resource-agent/internal/metrics/collector.go:337-340 | an expired instruction holds nothing back whether or not it could be marked |

## Left out

- GPU on the broker's ledger: locks and releases move CPU and memory only, as in the source; a GPU reserved by a creating advertisement stays what it was (Ledger.GpuMeaning).
- Collector.PercentOfCeiling: does not model the floating-point product, because rounding of `float64` is not modelled.
- Overcommit.NoOvercommit: speaks of the snapshot in the last advertisement, because between promotion to Active and the next advertisement the ledger no longer counts the request and the snapshot does not yet.
- Broker.ReservationReconciler.HandlePending: takes what SelectTarget answers as an argument, because the list that is ranked is read apart from the versions that locks read.
- Ranking.RankClusters: reads one list with refreshed costs and takes latency and carbon readings as arguments; the order is promised when all scores are numbers, because sorting with NaN promises nothing.
- Latency.EvaluationHandler.PostEvaluation: uses one list for policy, ranking and scoring and sees its own bond update, whereas the source lists twice and may read the bond from a cache; the thirty-day expiry is modelled, but Convergence speaks of stretches without one.
- Convergence.Converges: takes the eligible clusters as fixed, although a reservation lowers the provider's availability, and every evaluation as answered and every reservation as granted; otherwise the request fails for good or is booked again, as Requester.ResourceRequest.Reconcile states.
- Bond names: requester and provider are joined with a dash; the model treats the pair as the key, so colliding names are not covered.
- Costs.CostCache.UpdateCosts: one broker process reads current cache objects; rates are fixed.
- Peering.Agent.ReconcileInstruction: a failed `liqoctl` run changes nothing, and a run and the update that follows are one step; what happens between reading and running is covered by the outdated copy.
- Eco caching: which forecast calculateScoreEco uses is not modelled beyond its effect on the price cache.
- CPU and memory prices in CostInfo: carried but never read.
- ClusterAdvertisementReconciler and the carbon write-back: one event that rewrites an advertisement without touching its resources.
- Estimated round-trip time: an arbitrary function of two locations.
- Kubeconfig generation and upload, certificates, HTTP, JSON, parsing, logging, information strings, status conditions, staleness, flags: not modelled; methods start from decoded requests.
- Legacy Kubernetes transport (resource-agent/internal/publisher): it writes the agent's availability without subtracting what is reserved, so the conservation results do not cover it.
- Manual edits of a reservation's specification and deletion of advertisements while locks are held: assumed not to happen.
