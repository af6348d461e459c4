# Certificate manager: a verified model

A Dafny 4.11 model of a Go library that obtains, renews and serves TLS certificates for a
cluster of nodes sharing one object store, keeps DANE TLSA records usable while keys are
replaced, and never pays the CA twice for what it already bought. `dafny verify dfyconfig.toml`
checks the whole project.

The protocols are state machines in which every storage or CA call is one step. A write can be
lost, land although it reports failure, or succeed. An operation can stop before any call. Other
nodes, goroutines and the clock interleave between any two calls. The main theorems quantify over
every run of these machines. Code that updates objects, buffers or maps is modelled by classes and
methods with the same loops; the methods that drive a protocol (`LeaseMethods`, `CeremonyMethods`,
`IssuerMethods`) append each call they make to a run of its machine, so what is proved of all runs
is proved of them.

| file | models |
|---|---|
| `IssuanceLease`, `IssuanceRuns`, `LeaseMethods` | the lease record with create-once, ETag take-over and release, and the decision to order under it, for any number of agents |
| `Ceremony`, `CeremonyChains`, `CeremonyCoverage`, `CeremonyGate`, `CeremonyRuns`, `CeremonyMethods` | the key-replacement ceremony of a DANE host: staging, gate, chain, marker, promotion, reconciliation, flush, refresh |
| `Retiring`, `DaneController` | the retiring markers, the desired records and the drift alarm |
| `OrderJournal`, `IssuerMethods` | ACME orders and their journal |
| `CertCache`, `HeldChains` | the certificate cache, held chains, flush and restore, the issuance decision |
| `OnDemandIndex`, `OnDemandRuns` | the on-demand certificate index and the followers' diff |
| `KeyStore`, `FilesystemRegister` | create-once keys, and conditional writes on a filesystem |
| `RetryBudget`, `TokenBucket`, `SlidingWindow`, `Names` | the failure budget, the new-order budget, and the counting both rest on |
| `EditDistance` | the typo suggestion of the operator's commands |

## Side conditions

The conditions a theorem needs of its environment are predicates on the run, named where the
code leaves the matter open.

- `IssuanceLease.TimelyRun`: a live holder finishes before its lease expires, which
  `IssuanceLease.WithinDeadlines` gives: operations keep the deadlines the code sets them.
- `Ceremony.ChainOrderly`, for what is stored: the CA's expiries do not go back; no renewal for the
  live key starts while another node holds a chain for the staged key, nor a forced one while such
  a chain is stored.
- `Ceremony.TimeOrderly`, for what is published: the marker a promotion relies on outlives the
  refresh interval that follows. `CeremonyCoverage.Prompt`: a node notices a promotion within one interval,
  which `CeremonyCoverage.Refreshed` gives; `CeremonyCoverage.SwiftRun`, a promotion
  less than an interval after its recording, gives the first. Gating and the constancy of the key hold in every run.
- `OrderJournal.Orderly`: one key per journaled name (without it, `OrderJournal.Fair`); a journal
  write reaches storage; the CA expires an order within seven days; a lookup is rejected only for
  an order that is not outstanding.
- `HeldChains.Rising`: the CA's expiries do not go back, and a rerun activation's held chain is not
  behind storage. `HeldChains.Undisturbed`, for conservation only: nothing new is held between a
  flush's snapshot and its turn.
- `OnDemandRuns.Steady`: a host's next chain does not expire before the one it replaces;
  `OnDemandRuns.Rising`, where a chain is told by its expiry: it expires later.
  `OnDemandRuns.Undisturbed`: nothing later is announced for a host between its refresh and its
  note. The refinement also asks that the published index describe storage when the pass begins.

What the machines take for granted, in their `Enabled` or `Next`: ETags, keys and order URLs are
new when they are made (`IssuanceLease`, `KeyStore`, `Ceremony`, `OrderJournal`); the modification
times of temporary files are distinct (`FilesystemRegister`); activations, renewals, flushes and
reconciliations of a domain are serialized, which the domain lock and the lease do for all of them
but the reconciliation, while keys are created and staged at any moment (`Ceremony`); the two writers of the markers are serialized, which a mutex does within one process
(`Retiring`).

## Where the code does less than its comments say

In each case the code is modelled as it is, a lemma exhibits the failing run, and the exact
condition is proved.

- A holder that outlives its lease can delete its successor's record on release
  (`LateReleaseBreaksExclusion`), and from every state with such a holder exclusion can be lost
  (`OverstayingSharesTheLease`), so the promise of `lease.go:149-151` needs timeliness.
- A promotion interrupted after the live key was written leaves the live key in the staging slot.
  Reconciliation leaves it there, and the next replacement replaces nothing
  (`LeftoverIsReached`, `LeftoverReplacesNothing`; `RecoverySettles` is the exact condition).
- Staging does not ask for a live key, and a host without one is told to publish nothing. Activated
  there, a staged key is served, cannot be promoted for want of an outgoing digest, and is not among
  the records (`KeylessHostUncovers`, `KeylessActivationUncovers`; `ServedDigestsArePublished` and
  `RecoverySettles` are exact).
- Marking is idempotent by digest, so a ceremony rolled forward late promotes against a marker
  about to expire (`LateRollForwardUncovers`; `MarkerMustOutliveTheInterval` is exact).
- A flush does not look at the key of the chain it writes (`HeldRenewalUnbinds`;
  `FlushUnbindsIff` is exact for one flush). What can come to that is an automatic renewal while
  another node holds the staged key's chain (`RenewalOverHeldUnbinds`), a forced one while it is
  stored (`ForcedRenewalUnbinds`) and an activation whose chain expires sooner than one held for the
  live key (`FallingExpiryUnbinds`); without these it cannot (`StoredChainIsBound`).
- A flush works on a snapshot taken before its lock and then drops whatever is held
  (`StaleSnapshotLosesAChain`; `StaleSnapshotIsSafeIff` is exact). Rerunning an activation writes a
  held chain over a newer stored one (`ReuseLowersTheExpiry`; `ReuseLowersIff` is exact, as
  `IssueLowersIff` is for an order).
- A client error to the order lookup, a rate limit included, counts as "no such order"
  (`RateLimitedLookupPaysTwice`; `RejectionIsTheHole` is exact). The journal has one slot per name,
  so a record "left in place for its owner" (`issuer.go:225-226`) is overwritten by the attempt
  that left it there (`SecondKeyLosesThePaidOrder`; `OtherKeyIsTheHole`, `OnlyAnotherKeyLosesIt`
  and `OtherKeyLosesIt` are exact). A journal write that fails does not stop the attempt
  (`LostRecordPaysTwice`; `LostRecordIsTheHole` is exact), and the age limit is safe exactly when the CA's is no longer
  (`AgeLimitIsSafeIff`).
- On a backend that ignores create-once, reading the key back does not make nodes converge, against
  `keystore.go:195-199` (`ReadBackDoesNotConverge`; on one that honours it, `NodesConverge`).
- The failure budget is asked before the lease is taken, so overlapping attempts exceed it
  (`FailuresAreBounded` with `BoundIsReached`).
- The follower re-reads the index after the chain, and can adopt an entry newer than its copy; it
  is then behind storage and not told (`LateNoteMisleads`; `MisledIff` is exact).
- A follower is not told of a chain whose publication was lost (`LostPublicationHides`;
  `NotOfferedIsCurrentIff` is exact, `RepublicationHeals` the repair), nor of one with the expiry
  of its predecessor (`EqualExpiriesHide`; `OfferedIffExpiryDiffers` and `MissedIff` are exact).

The suggestion distance is the optimal-string-alignment form, as its comment says, and so not a
metric (`TriangleFails`).

## Model

| member | source | states |
|---|---|---|
| `IssuanceLease.Decide` | manager.go:773-783 | an unforced order is called for exactly when storage has no chain or no key, or has a chain of that key inside the renewal window; the stored chain is kept exactly when it is that key's and fresh; an unreadable, unparseable or foreign chain is refused |
| `IssuanceLease.OneTakeOverPerRecord` | lease.go:103-115 | of all agents that read one expired record at most one take-over of it lands, in every run |
| `IssuanceLease.TakeOverReplacesExpired` | lease.go:83-98 | the ETag taken before the read makes a take-over replace expired records only |
| `IssuanceLease.LeaseExclusion` | lease.go:65-98 | in every timely run at most one agent holds the lease, and storage has its unexpired record |
| `IssuanceLease.ReleaseDeletesOwnRecord` | lease.go:150-163 | in every timely run a release deletes the record its own agent wrote |
| `IssuanceLease.NoDuplicateOrder` | manager.go:741-820 | in every timely run an unforced order goes out only with no chain stored, or with the very chain that was read under the lease, of the key that was live then and in its window, and no other agent holds the lease |
| `IssuanceLease.FreshChainIsKept` | manager.go:766-783 | in every timely run, from the moment a chain is stored until it enters its window, and unless it is removed or an older one written over it, the stored expiry does not fall and no unforced order is placed; only a forced renewal, an activation or a flush changes what is stored |
| `IssuanceLease.OneOrderPerWindow` | manager.go:741-820 | in every timely run, from an unforced order whose chain reaches storage on, no agent orders again until that chain enters its window, unless it is removed or an older one written over it, and its expiry stays stored |
| `IssuanceLease.DeadlinesExclude` | lease.go:18-22 | the lease outlives the deadlines: runs whose operations keep them are timely and have at most one holder |
| `IssuanceRuns.AttemptIssues` | manager.go:741-820 | from every state with the lease free or expired, an unforced attempt whose reads succeed orders exactly when one is due, stores the result as its writes allow and gives the lease back |
| `IssuanceRuns.ThirdWriteStores` | cert_cache.go:137-158 | two failed writes do not lose the chain, and there is no fourth attempt |
| `IssuanceRuns.RemovedIsReordered` | manager.go:773-783 | from every state an attempt can start in, a removed chain is ordered again |
| `IssuanceRuns.OlderWriteIsReordered` | manager.go:773-783 | and so is one over which a lease user wrote an older chain in its window |
| `IssuanceRuns.ForeignIsNotReordered` | manager.go:773-783 | while a chain of a key that is no longer live is not ordered over |
| `IssuanceRuns.LateReleaseBreaksExclusion` | lease.go:152-163 | a run in which a late release removes a successor's record and two agents hold unexpired leases |
| `IssuanceRuns.OverstayingSharesTheLease` | lease.go:89-98 | from every state with an overstaying holder any idle agent can come to hold the lease too, so timeliness is necessary |
| `LeaseMethods.Cluster.TryCreate` | lease.go:117-131 | success exactly when there was no record and the write reported success |
| `LeaseMethods.Cluster.TakeOverLease` | lease.go:103-115 | success exactly when the record is still the one of the ETag; what it replaced had expired |
| `LeaseMethods.Cluster.Inspect` | lease.go:83-93 | goes on only with the ETag of a record that was there and is expired when read |
| `LeaseMethods.Cluster.Acquire` | lease.go:69-98 | whatever the others do between its calls, success is holding the lease with the agent's own record stored, failure leaves it without |
| `LeaseMethods.Cluster.Release` | lease.go:152-163 | a record naming another owner is left; otherwise whatever is there is deleted last |
| `CeremonyChains.StoredChainIsBound` | scheduler.go:779-899 | at every point of every run with orderly chains, automatic renewals before the ceremony's chain included, the stored chain is the live or the staged key's, and no held chain of an older key is newer than it |
| `Ceremony.KeyIsConstantBetweenPromotions` | scheduler.go:677-730 | in every run the live key stays the same until a promotion, and every chain a renewal writes meanwhile is for it |
| `CeremonyCoverage.ServedDigestsArePublished` | dane_controller.go:89-144 | at every point of every run whose promotions are timely, overlapping rotations, falling expiries and rival renewals included, the digest a prompt node serves is among the records to publish if and only if the host has a live key |
| `CeremonyCoverage.RefreshingNodesAreCovered` | manager.go:265-275 | in every such run, while nodes refresh once per interval, every digest any of them serves is among the records to publish if and only if there is a live key or nothing is served |
| `CeremonyCoverage.MarkerMustOutliveTheInterval` | dane_controller.go:155-206 | after a promotion a lagging node stays covered for its interval if and only if the outgoing marker outlives it |
| `CeremonyCoverage.FreshMarkIsTimelyIff` | dane_controller.go:155-206 | in every run a promotion whose outgoing digest was not already retiring when recorded is timely if and only if it happens more than an interval before the end of the soak, counted from the recording |
| `CeremonyCoverage.SwiftPromotionsAreCovered` | manager.go:265-275 | so the soak is long enough: with promotions less than an interval after their recording and nodes refreshing once per interval every served digest is among the records to publish, given a live key |
| `CeremonyCoverage.CleanIsTheMethods` | dane_controller.go:256-292 | the machine's cleanup is the controller's and drops exactly the expired markers |
| `CeremonyGate.PromotionIsGated` | scheduler.go:802-899 | in every run that does not force the gate every promotion, reconciliation's included, is of a key whose digest was seen published, with its chain stored, after the outgoing digest was recorded, whose marker is listed until it expires |
| `CeremonyChains.RecoverySettles` | scheduler.go:626-673 | wherever a run with orderly chains is interrupted, a flush and a reconciliation settle the ceremony or leave it before its chain, if and only if the live key is not in the staging slot and, without a live key, there is no chain yet; reconciling again changes nothing |
| `CeremonyChains.HeldUntilStored` | scheduler.go:557-617 | in every run a node lets go of a held chain, a restart excepted, only when storage has that chain or the node serves what storage has |
| `CeremonyChains.FlushLetsGoIff` | scheduler.go:605-616 | a flush that writes lets go exactly when the write reports success |
| `CeremonyChains.HealthyFlushReleasesIff` | scheduler.go:575-600 | and one that meets no fault always, unless storage is ahead with a chain that cannot be served |
| `CeremonyRuns.HealthyReconcileIsARun` | scheduler.go:626-673 | the recovery of `RecoverySettles` is a sequence of the machine's own steps |
| `CeremonyRuns.LeftoverIsReached` | keystore.go:135-155 | a run that ends with the live key in the staging slot |
| `CeremonyRuns.LeftoverReplacesNothing` | scheduler.go:739-771 | from every such state staging is refused and a complete activation ends with the same key live |
| `CeremonyRuns.KeylessActivationUncovers` | scheduler.go:853-885 | from every state with a staged and no live key an activation can leave a node serving a digest that is not among the records to publish |
| `CeremonyRuns.KeylessHostUncovers` | scheduler.go:739-771 | a timely run with refreshed nodes that ends so |
| `CeremonyRuns.LateRollForwardUncovers` | dane_controller.go:170-190 | a run in which a prompt node serves a digest that is not among the records to publish |
| `CeremonyRuns.HeldChainUnbinds` | scheduler.go:557-617 | from every state with the staged key's chain stored and a newer chain of the live key held, reconciliation and flush leave a stored chain of neither key |
| `CeremonyRuns.ForcedRenewalUnbinds` | manager.go:971-1002 | from every state with the staged key's chain stored no automatic renewal starts, and a forced one can lead to a stored chain of neither key |
| `CeremonyRuns.RenewalOverHeldUnbinds` | scheduler.go:677-730 | from every state in which another node holds the staged key's chain, newer than what is stored, an automatic renewal can lead there too |
| `CeremonyRuns.FallingExpiryUnbinds` | scheduler.go:824-866 | and from every state in which a node holds a chain of the live key, an activation whose chain expires sooner |
| `CeremonyRuns.HeldIsUsed` | scheduler.go:834-851 | a rerun activation uses the chain its node holds and cannot order |
| `CeremonyRuns.RestartOrdersAgain` | cert_cache.go:168-173 | after a restart the same activation orders again |
| `CeremonyRuns.HeldRenewalUnbinds` | scheduler.go:557-617 | a run in which a flush leaves a stored chain of neither key |
| `CeremonyRuns.FlushUnbindsIff` | scheduler.go:557-617 | a flush unbinds the stored chain exactly when the held chain is of neither key and storage is behind it |
| `CeremonyMethods.Domain.StoreChain` | cert_cache.go:116-158 | the chain is stored if any attempt landed, served in any case, and held unless the last attempt succeeded |
| `CeremonyMethods.Domain.MarkRetiring` | dane_controller.go:155-206 | success exactly when there is a live key, the reads succeed and the digest is written or already on record; then it is on record |
| `CeremonyMethods.Domain.PromoteNextCertKey` | keystore.go:135-155 | the live key becomes the staged one when the write lands; the staged copy goes only after a reported success |
| `CeremonyMethods.Domain.MarkAndPromote` | scheduler.go:868-899 | nothing is promoted unless the outgoing digest is recorded and the node still leads |
| `CeremonyMethods.Domain.ActivateCertificateKey` | scheduler.go:779-899 | exactly when it ends in each way, refusals at entry and a missing live key included, with what is live, staged, stored, held and recorded; an order is placed exactly when the gate passes and no chain for the key is held |
| `CeremonyMethods.Domain.ReconcileCeremony` | scheduler.go:626-673 | acts exactly when the stored chain is the staged key's and the live key another, and then promotes unless the record or the write fails |
| `Retiring.RoundTrip` | dane/retiring.go:32-63 | what is written is read back if and only if every record has a digest, and exactly a single one is written as a bare object |
| `Retiring.ParseRetiring` | dane/retiring.go:32-48 | fails exactly on an unparseable document, and otherwise returns exactly the records with a digest |
| `Retiring.MarkedListsDigest` | dane_controller.go:155-206 | after marking, the digest is listed with a deadline ahead |
| `Retiring.MarkedDeadline` | dane_controller.go:192-198 | a digest that is not retiring is given the whole soak, one that is keeps its deadline |
| `Retiring.WritersAreExact` | dane_controller.go:155-292 | marking and cleaning drop exactly what has expired |
| `Retiring.UnexpiredIsNeverDropped` | dane_controller.go:146-292 | over any marks and cleanups with any writes lost, a marker stays until its deadline and the deadline never moves |
| `Retiring.RunKeepsDistinct` | dane_controller.go:155-206 | the list never names a digest twice |
| `DaneController.DesiredIsExact` | dane_controller.go:89-144 | the desired digests are, once each, exactly the live, the staged and the still retiring ones |
| `DaneController.Controller.ReadMarkers` | dane_controller.go:214-238 | a missing or unparseable object is no markers, a failed read is an error |
| `DaneController.Controller.WriteMarkers` | dane_controller.go:241-252 | storage then holds the list, unless the write is lost, and other hosts' markers are untouched |
| `DaneController.Controller.MarkRetiring` | dane_controller.go:155-206 | a failed read writes nothing; success means the outgoing digest is on record; nothing else is dropped but expired markers |
| `DaneController.Controller.StillRetiring` | dane_controller.go:178-190 | the loop keeps exactly the unexpired markers and finds the digest among them |
| `DaneController.Controller.CleanupHost` | dane_controller.go:256-292 | drops exactly the expired markers, and nothing when its read fails or its write is lost |
| `DaneController.Controller.CleanupExpired` | dane_controller.go:256-292 | the same for every MX host in one pass, and no other host |
| `DaneController.Controller.RecordsForHost` | dane_controller.go:89-144 | fails exactly when a read it needs fails; otherwise the records are the desired digests in order, for the asked host, each with the note that goes with it |
| `DaneController.Controller.VerifyPublished` | dane_controller.go:298-347 | reports on exactly the hosts it can know about, and true exactly where the published "3 1 1" set is the desired set |
| `DaneController.VerifyHost` | dane_controller.go:315-345 | the two loops decide equality of the two sets |
| `DaneController.ContainsSpkiDigest` | dane/lookup.go:46-54 | true exactly when a "3 1 1" record has the digest, in any case |
| `OrderJournal.CollectedChainIsForTheKey` | issuer.go:211-246 | in every run a chain is collected only for the key that was asked for |
| `OrderJournal.OnePaidOrderAtATime` | issuer.go:115-158 | in every orderly run an order paid for and not collected stays journaled, is the only one, and no other is placed or finalized meanwhile |
| `OrderJournal.OrderPlacedOnlyWhenNoneIsOutstanding` | issuer.go:128-139 | in every orderly run an order is placed only when none is outstanding |
| `OrderJournal.RejectionIsTheHole` | issuer.go:230-238 | for an outstanding order exactly a client error to the lookup leads to another order |
| `OrderJournal.RateLimitedLookupPaysTwice` | issuer.go:230-238 | a run with two outstanding paid orders |
| `OrderJournal.InvalidatedIsReplaced` | issuer.go:240-243 | from every state between attempts, an order the CA gives up is forgotten and another may be placed |
| `OrderJournal.SecondKeyLosesThePaidOrder` | issuer.go:224-228 | a run in which an attempt for another key makes a paid order uncollectable |
| `OrderJournal.OnlyAnotherKeyLosesIt` | issuer.go:211-228 | in every fair run a paid order that is journaled stays so, and no other is placed, until it is collected or gone or an attempt for another key begins |
| `OrderJournal.OtherKeyIsTheHole` | issuer.go:211-228 | for an outstanding journaled order, exactly an attempt for another key goes on to place one |
| `OrderJournal.OtherKeyLosesIt` | issuer.go:224-228 | from every state between attempts with an outstanding journaled order, an attempt for another key can leave it outstanding and no longer journaled |
| `OrderJournal.LostRecordPaysTwice` | issuer.go:136-140 | a run in which an order whose record was lost is paid for and not known of |
| `OrderJournal.LostRecordIsTheHole` | issuer.go:130-158 | in every run an open order that is then accepted in a lost answer is paid for and not known of if and only if its record was lost |
| `OrderJournal.AgeLimitIsSafeIff` | order_journal.go:40-43 | the age limit forgets no collectable order if and only if the CA expires it within that limit of its record |
| `IssuerMethods.OutstandingIsNamed` | issuer.go:211-246 | after every orderly run an outstanding order is what the journal names, young enough to be asked about |
| `IssuerMethods.Issuer.ResumeOrder` | issuer.go:211-246 | exactly when it fails, finds no order, or returns one; the journal is cleared only for an order that is too old or gone |
| `IssuerMethods.Issuer.Place` | issuer.go:132-141 | the order is journaled before it can be finalized, and a failed journal write does not stop the attempt |
| `IssuerMethods.Issuer.Complete` | issuer.go:161-204 | an order is brought from its status to a collected chain exactly when no call it needs fails, and the chain is for the attempt's key |
| `IssuerMethods.Issuer.Issue` | issuer.go:115-158 | exactly when it places an order and when it returns a chain; an attempt that meets no fault returns one, and none of an order past its time; after every orderly past an order paid for and not collected is collected, and no other placed |
| `CertCaches.FlushIsMonotone` | scheduler.go:557-617 | no flush lowers the stored expiry, overwrites a chain as new, or writes without having read; one that meets no fault leaves storage at least as new |
| `CertCaches.FlushSpelledOut` | scheduler.go:557-617 | what a flush leaves stored, served and held, by what it meets |
| `CertCaches.CertCache.Persist` | cert_cache.go:137-158 | storage has the chain if any attempt landed; success exactly when the last one reported it |
| `CertCaches.CertCache.Store` | cert_cache.go:116-128 | a chain is installed and no longer held only when it was stored; a chain that could not be written comes back to be held |
| `CertCaches.CertCache.Hold` | cert_cache.go:168-173 | served and remembered, storage and other names untouched |
| `CertCaches.CertCache.HeldChainFor` | cert_cache.go:195-209 | the held chain is returned exactly for its own key |
| `CertCaches.CertCache.Refresh` | cert_cache.go:277-293 | memory takes the stored chain exactly when both reads succeed and it pairs with the stored key; absence is reported exactly when a read that succeeded found nothing |
| `CertCaches.CertCache.FlushOne` | scheduler.go:557-617 | what is stored, served and held after it, against the specification the conservation theorem is about |
| `CertCaches.CertCache.RestoreOne` | scheduler.go:474-517 | only an unexpired, unheld copy of the stored key that the listing misses goes back, and only over something older |
| `CertCaches.DecisionAgrees` | manager.go:766-783 | the decision of the class model is the one the lease theorems are about |
| `CertCaches.DecisionSpelledOut` | manager.go:773-783 | an attempt goes to the CA if forced whatever storage says, and otherwise exactly over nothing or over a chain of the stored key in its window |
| `CertCaches.BillSpelledOut` | manager.go:785-820 | how an attempt ends by what it meets, and its bill: a failure is one more in the window, a named rate limit blocks, a success clears |
| `CertCaches.DueSpelledOut` | scheduler.go:677-700 | both looks of a renewal call for an order exactly when memory, if any, is in its window and storage has nothing or a chain of the stored key in its window |
| `CertCaches.PaidIsStoredOrHeld` | manager.go:804-819 | a chain that came back from the CA and builds is served, stored as its writes allow, and held unless the last succeeded; otherwise no copy changes |
| `CertCaches.Manager.OrderAndStore` | manager.go:785-820 | how an attempt ends from the CA on: its result, what is stored, served and held, and what the budget is charged |
| `CertCaches.Manager.IssueWithKey` | manager.go:741-820 | exactly when it goes to the CA, its result, what is stored, served and held, and the budget's account, in every case |
| `CertCaches.Manager.FlushHeldChains` | scheduler.go:429-450 | every name held when the pass began is flushed once and no other touched; exactly the stored ones are reported, and exactly their retry budgets are reset |
| `CertCaches.Manager.FirstLook` | scheduler.go:677-700 | exactly when a renewal is due; nothing but memory changes |
| `CertCaches.Manager.RenewIfNeeded` | scheduler.go:677-730 | exactly when it orders, and in the absence of faults exactly when what is served is in its window and storage has nothing or a chain of the stored key in its window; it never orders over an unreadable, foreign or fresh chain |
| `HeldChains.FlushIsTheStep` | scheduler.go:557-617 | the method's flush is the step of the machine the theorems below are about |
| `HeldChains.RestoreIsTheStep` | scheduler.go:474-517 | and so is its restoration |
| `HeldChains.IssueIsTheStep` | manager.go:785-820 | and what issuance leaves stored, served and held |
| `HeldChains.ReuseIsTheStep` | scheduler.go:824-866 | and what an activation that reuses the held chain leaves |
| `HeldChains.RefreshIsTheStep` | cert_cache.go:277-293 | and what a refresh that loads leaves |
| `HeldChains.PaidChainsAreKept` | scheduler.go:412-617 | at every point of every orderly run the latest chain the CA gave a node is held by it, or storage has one at least as new |
| `HeldChains.StoredExpiryNeverFalls` | scheduler.go:557-617 | in every run with rising expiries, flushes of stale snapshots included, the stored expiry never falls |
| `HeldChains.FlushesConverge` | scheduler.go:429-450 | in every orderly run, after healthy flushes in any order, whenever their passes began, storage is at least as new as it was and as every flushed node's chain, and holds one of those |
| `HeldChains.StaleSnapshotIsSafeIff` | scheduler.go:429-450 | with a stale snapshot the newer held chain survives whatever the flush meets if and only if storage already has it |
| `HeldChains.StaleSnapshotLosesAChain` | scheduler.go:429-450 | a run that ends with a paid chain neither held nor stored |
| `HeldChains.ReuseLowersIff` | scheduler.go:824-866 | a rerun activation keeps the stored expiry exactly when storage is not already ahead of the held chain |
| `HeldChains.ReuseLowersTheExpiry` | scheduler.go:824-866 | a run in which it lowers the stored expiry |
| `HeldChains.IssueLowersIff` | cert_cache.go:116-128 | an order whose write lands keeps the stored expiry exactly when storage is not already ahead of its chain |
| `HeldChains.RestartLosesAChain` | cert_cache.go:168-173 | an orderly run in which a restart before the flush loses a paid chain |
| `OnDemandIndex.Node.PublishIndex` | ondemand.go:341-361 | the whole map is published, and the copy is marked behind exactly when the write reports failure |
| `OnDemandIndex.Node.NoteIssued` | ondemand.go:315-333 | the entry is recorded whether or not its publication succeeds |
| `OnDemandIndex.Node.RepublishIfDirty` | ondemand.go:370-380 | a failed publication is repeated, and nothing else is published |
| `OnDemandIndex.Node.RecordIssued` | scheduler.go:389-410 | nothing is announced that storage lacks; where memory is what storage holds the index then describes storage |
| `OnDemandIndex.Node.Store` | ondemand.go:212-236 | entries of hosts that left the allow-set go, all others stay |
| `OnDemandIndex.Node.ChangedSince` | ondemand.go:416-445 | exactly the hosts whose published expiry differs from the one last seen, or all when the index cannot be read |
| `OnDemandIndex.Node.NoteRefreshed` | ondemand.go:449-465 | adopts the published entry, read again |
| `OnDemandIndex.Node.FollowerPass` | scheduler.go:213-227 | memory and index after a pass are those of the specification the runs are proved about |
| `OnDemandRuns.OfferedIffExpiryDiffers` | ondemand.go:416-445 | where the published entry describes storage, a host noted at the expiry it was loaded with is offered exactly when storage has another expiry |
| `OnDemandRuns.NotOfferedHasTheExpiry` | ondemand.go:407-445 | in every orderly run, wherever the published entry describes storage a host the diff does not offer has the stored expiry |
| `OnDemandRuns.MissedIff` | ondemand.go:407-445 | and is up to date exactly when the last chain stored for it since it was loaded, if any, is the one it has |
| `OnDemandRuns.NotOfferedIsCurrent` | ondemand.go:407-445 | so with rising expiries it is up to date |
| `OnDemandRuns.NotOfferedIsCurrentIff` | ondemand.go:407-445 | and a host noted at the expiry it was loaded with is so exactly where the published entry describes storage |
| `OnDemandRuns.RepublicationHeals` | ondemand.go:363-380 | after a lost publication is repeated a host is up to date or offered |
| `OnDemandRuns.NewLeaderKeepsTheIndex` | ondemand.go:382-402 | whatever a node that starts to lead publishes first, the entries of all other hosts stay |
| `OnDemandRuns.AdoptedIsAnnounced` | scheduler.go:243-266 | a leader that finds a chain in storage and announces it describes storage |
| `OnDemandRuns.PrunedIsForgotten` | ondemand.go:212-236 | what left the allow-set is forgotten and offered again when it returns, what did not is kept |
| `OnDemandRuns.RestartIsOfferedAll` | ondemand.go:416-445 | a follower that restarts is offered everything announced |
| `OnDemandRuns.PassIsTheMethods` | scheduler.go:213-227 | a complete pass of the machine leaves the memory the follower's method is specified to leave |
| `OnDemandRuns.DiffRefinesRefreshingAll` | ondemand.go:407-445 | in every orderly run with rising expiries, any number of believed leaders and lost and late publications included, a pass that begins when the published index describes storage leaves exactly the memory that refreshing every host would |
| `OnDemandRuns.PassBringsUpToDate` | scheduler.go:213-227 | while chains are stored and published in the middle of it, a pass brings every host at least to what storage held when it began |
| `OnDemandRuns.FailedHostsAreOfferedAgain` | ondemand.go:447-465 | after a pass a host is offered again exactly when it was and its refresh or its note failed |
| `OnDemandRuns.CleanPassLeavesNoDiff` | scheduler.go:213-227 | after a pass without failures the next diff is empty and memory is as stored |
| `OnDemandRuns.MisledIff` | ondemand.go:447-465 | a host ends up behind storage and hidden from the diff exactly when the last publication between its refresh and its note announced a later expiry |
| `OnDemandRuns.LateNoteMisleads` | ondemand.go:447-465 | a run that ends so |
| `OnDemandRuns.LostPublicationHides` | ondemand.go:363-380 | a run in which a lost publication hides a newer chain from the diff |
| `OnDemandRuns.EqualExpiriesHide` | ondemand.go:407-445 | a run in which the index describes storage and the diff misses a chain of the same expiry |
| `KeyStore.NodesConverge` | keystore.go:163-207 | on a backend that honours create-once any two successful returns, anywhere, are one key, and it is stored |
| `KeyStore.StoredKeyStays` | keystore.go:163-207 | a stored key is never replaced by a creation |
| `KeyStore.OnlyLeadersMint` | keystore.go:163-190 | whoever is about to write a key minted it as a leader that found none |
| `KeyStore.StoredWasMinted` | keystore.go:163-207 | what is stored was put there by such a leader, by a write that landed |
| `KeyStore.FaultlessNodesSucceed` | keystore.go:163-180 | a node that can read finds the stored key, and a leader that finds none mints |
| `KeyStore.FaultlessWritersSucceed` | keystore.go:181-207 | a write without faults ends with the stored key, the loser of a race with the winner's; a write that reports failure is an error |
| `KeyStore.ReadBackDoesNotConverge` | keystore.go:195-206 | a run on a backend that ignores create-once in which two nodes return different keys |
| `FilesystemRegister.Linearizes` | storage/filesystem.go:95-288 | every interleaving of conditional puts and removals is a sequence of register operations, each deciding the outcome its goroutine returns; a failure is reported only where a system call failed, and changes nothing; no other step has an outcome |
| `FilesystemRegister.OutcomeStands` | storage/filesystem.go:192-214 | the outcome decided at the linearization point is the one returned |
| `FilesystemRegister.NoResurrection` | storage/filesystem.go:192-214 | a conditional replacement never brings a removed object back |
| `FilesystemRegister.OneWinnerPerETag` | storage/interface.go:66-80 | of all writers with one ETag one wins |
| `FilesystemRegister.OneWinnerPerCreate` | storage/filesystem.go:140-161 | between two creations that win there is a removal |
| `FilesystemRegister.NoDeadlock` | storage/filesystem.go:192-288 | in every run a goroutine in the middle of an operation can go on, or the one that has the lock can |
| `RetryBudgets.RetryBudget.Prune` | retry_budget.go:107-121 | keeps exactly the failures inside the window, in order |
| `RetryBudgets.RetryBudget.Allow` | retry_budget.go:63-81 | its answer and the account it leaves, against the specification the bounds are about; other hostnames untouched |
| `RetryBudgets.RetryBudget.RecordFailure` | retry_budget.go:84-92 | the failure joins what is still in the window |
| `RetryBudgets.RetryBudget.Block` | retry_budget.go:49-56 | the hostname is blocked until the given time |
| `RetryBudgets.RetryBudget.Reset` | retry_budget.go:95-103 | the hostname's account is empty |
| `RetryBudgets.FailuresAreBounded` | retry_budget.go:21-28 | in every run with at most c overlapping attempts every sliding hour holds at most max + c - 1 failures |
| `RetryBudgets.SerialFailuresAreBounded` | retry_budget.go:21-28 | attempts made one after another fail at most max times an hour |
| `RetryBudgets.BoundIsReached` | manager.go:741-765 | for every budget and overlap some run reaches that bound, so only non-overlapping attempts keep to max |
| `RetryBudgets.WaitIsExact` | retry_budget.go:58-81 | the wait is in (0, 1h], nothing is allowed sooner, and something is allowed then exactly when fewer than max failures are later than the oldest |
| `RetryBudgets.SerialWaitIsEarliest` | retry_budget.go:58-81 | in serial runs the wait is exactly the time to the next yes |
| `RetryBudgets.RateLimitHolds` | retry_budget.go:47-81 | in every run, once the CA has named a limit every attempt before it lifts is refused with exactly the time left, until a success, a flush or another limit |
| `RetryBudgets.LiftedLimitIsForgotten` | retry_budget.go:70-75 | a limit that has lifted has no effect and is removed |
| `RetryBudgets.AttemptsEnd` | retry_budget.go:83-103 | however an attempt ends it is one less in flight, only a failure is remembered, and a success or a flush forgets all |
| `Names.CompanionShares` | internal/layout/layout.go:42-50 | a companion shares its domain's budget exactly when the domain is not itself named like a companion |
| `Names.LowerIsAscii` | internal/layout/layout.go:34-43 | capitals become the small letters of the same place and nothing else changes |
| `TokenBuckets.TokenBucket.Take` | ondemand.go:585-604 | the in-place filter and append against the specification the bounds are about |
| `TokenBuckets.GrantsAreBounded` | ondemand.go:572-604 | over any history every window holds at most max grants |
| `TokenBuckets.PrunedDecidesAsFull` | ondemand.go:585-604 | the pruned list decides as a count over everything ever granted |
| `TokenBuckets.SplitBrainStaysUnderTheLimit` | ondemand.go:81-86 | two believed leaders together stay under the CA's limit for three hours |
| `EditDistance.Distance` | certstore/command.go:529-551 | the table computes the least cost of any alignment of the two strings |
| `EditDistance.DistIsOptimal` | certstore/command.go:529-551 | the recurrence is optimal over all alignments |
| `EditDistance.DistanceLaws` | certstore/command.go:529-551 | symmetric, zero exactly on equal strings, between the length difference and the longer length |
| `EditDistance.SlipCostsOne` | certstore/command.go:527-551 | two neighbours typed in the wrong order cost one, anywhere in any string |
| `EditDistance.TriangleFails` | certstore/command.go:529-551 | the triangle inequality fails |
| `EditDistance.Closest` | certstore/command.go:513-525 | the first candidate of least distance if within a third of the length, else nothing |

## Left out

- The ACME protocol itself: account registration, challenges and their servers, transport. Authorizations that fail end an attempt (`Stop`).
- Encodings and cryptography: PEM, X.509, JSON, SHA-256, MD5, IDNA. A key is known by its digest, a chain by its leaf's key and expiry, a stored document by its shape.
- The S3 backend; its conditional writes are taken as atomic, as the filesystem's are proved to be.
- Unconditional filesystem writes and listing; path sanitising and directory syncing.
- DNS exchange. A lookup's answer, or its absence, is an input.
- The HTTP administration API, the operator's commands other than the suggestion, TLS handshakes and certificate selection, the local copy of served certificates.
- Tickers, contexts and deadlines. A deadline is a step that stops the operation.
- Preflight checks, allow-set refresh and concurrency caps of on-demand hostnames, and the issuance gate for hosts without published records, which would add only short guards.
- Unicode lower-casing: names are ASCII.
- Nil receivers and absent backends, which switch the mechanism off.
- A journal record without an order URL, and an order for which the CA states no expiry.
- `obtain` and the asynchronous request queue, which call `issueWithKey`.
- The reconciliation takes neither the domain lock nor the lease; the model serializes it with the other operations of the ceremony.
- A second believed leader writing the retiring markers; operators deleting stored chains under an on-demand index; a leader that is demoted with an index read at startup and nothing in memory, or while it holds an unwritten chain, which refreshing every host would replace by the older stored one.
- Deleting a live or staged key from storage.
- Domains outside the configured list, which every operation refuses first.
- Goroutines inside a class: the methods of `CertCache`, `RetryBudget`, `TokenBucket` and `Node` run under the mutexes the code holds, so each is one atomic step. The interleavings that matter across nodes are the state machines.
- LeaseMethods.Cluster.Others: its body lets only time pass; callers rely on its contract alone, which allows any continuation by the others.
