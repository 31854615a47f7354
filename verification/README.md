# TalentFlow: a verified model of approvals, the outbox and notification delivery

TalentFlow moves candidates through a hiring workflow, has offers approved step by step, and notifies approvers through a
transactional outbox and leased delivery workers. This project models those state machines and proves what they guarantee
under concurrency, and it covers three smaller cores: candidate retention with its attachment store, the paged candidate
list, and the in-memory rate limiter.

| file | content |
|---|---|
| `Prelude.dfy`, `Runs.dfy` | options, results, finite sums; runs of a state machine and induction over them |
| `CandidateWorkflow.dfy`, `OfferApproval.dfy` | the stage graph, the candidate case, the approval policy, the offer |
| `Hiring.dfy` | the shared tables; every handler as reads, a plan, and guarded writes |
| `HiringSession.dfy` | the handlers as written, over a session with buffered inserts, proved equal to `Hiring.Handle` |
| `HiringInvariants.dfy`, `HiringHistory.dfy` | what every command keeps, and what holds after every run |
| `HiringOutcomes.dfy` | when each command succeeds, with which error it fails otherwise, what it changes; that approvals get an offer approved |
| `StageRoute.dfy` | when the free stage route separates candidates from their offers, and when it sets the terminal time |
| `Interleaving.dfy` | any number of handlers at once, and serialisability |
| `Leases.dfy` | the lease protocol of the delivery workers, interleaved in any way |
| `DeliveryWorkers.dfy`, `Contention.dfy` | one worker's loop, alone and among others, its termination and order, and both as runs of the protocol |
| `Outbox.dfy` | the publisher's loop and its abort on a lost race |
| `EndToEnd.dfy`, `Publishing.dfy` | handlers, publishers and workers over one store; the conservation law; the publisher's loop as a run of it |
| `Retention.dfy`, `AttachmentStores.dfy`, `RetentionServices.dfy` | holds, uploads and purges; rows against blobs; the code that performs them |
| `RetentionHistory.dfy` | what a purge leaves of a person, and who is due or on hold, told by the run alone |
| `KeysetPaging.dfy`, `RateLimit.dfy` | the paged list and the fixed-window limiter |

## Main results

- Fencing. However workers, clocks, lease lengths, expiries and crashes interleave, a finalising write changes a row if and
  only if the writer's claim is that row's latest claim.
- Every interleaving of handlers ends in the tables that the committed commands produce when they run one after another, and
  of two handlers that have read the same version of a candidate or of an offer, however far each has got, at most one ever
  commits on that reading.
- Approved and rejected offers never change, although `Offer.decide` does not look at the status, and however reads and commits
  interleave. Exactly one family of attempts is stopped by the unique key on (offer, step) alone: approving a rejected offer at
  a step that is not the last.
- An approved or hired candidate has an approved offer exactly when the stage route did not move them to the approved stage,
  and a pending offer's candidate still waits exactly when the stage route has not moved them since the offer was created.
- Decisions, outbox events, and deliveries plus pending events are equally many in every reachable state of the whole system.
  Its tables change as by some commands run one after another, and its deliveries as by some run of the lease protocol
  (`PartsAreReachable`, `PartsEvolve`), so the theorems about states and about runs of either carry over; those about what
  never changes are restated for the whole system.
- A decision commits exactly when it is a known one, by the role of the offer's step, at its version, on a pending offer whose
  candidate, if the decision finishes the offer, still waits; the approvals that a pending offer lacks then all commit and end
  in an approved offer (`DecisionSucceedsIff`, `ApprovalsCommit`).
- Nobody is anonymised early: a person is due exactly when the tenant's days have passed since the command that rejected or
  withdrew them and the tenant's last request about a hold did not ask for one, and a purge leaves nothing personal
  (`DueIff`, `AnonymisedAfterThePeriod`, `PurgeForgets`).
- The loop of a lone worker ends for every sender and every `max_attempts`, is a run of the protocol, and serves rows in order.

## Assumptions

- One SQL transaction takes effect at one moment, at its commit. A guarded update that matched keeps its row until the
  transaction ends, so evaluating the guard at the commit is the same test. `decide_offer.py` updates the offer before it
  reads the candidate; a handler that loses both races may therefore report a different one of its errors than the
  interleaved model, but it fails in both.
- `_fail` reads the row and writes it back by primary key. The protocol takes it as one step. `SplitFailIsFencedIff` states
  exactly when two separate statements would do the same, and `SplitFailRevivesDelivery` and `SplitFailRevivesDeadLetter` are
  runs in which they would not.
- A purge selects and later writes by primary key, with nothing to guard or lock the rows in between. The model keeps the two
  apart and assumes that the writes, blobs included, happen at one moment. `HeldPersonIsPreservedIff` and
  `HeldDocumentsKeepBytesIff` say what that means for legal holds.
- Worker names are distinct, each worker does one thing at a time, and all share one `max_attempts`. A worker that died may
  come back under its old name.
- Generated identifiers are fresh: offer identifiers, delivery identifiers and storage keys. Where it matters the model also
  says what happens when they are not.
- The limiter's timestamps do not decrease in the order in which its lock is granted; they are read before the lock is taken.
- Clock readings, the outcome of a send, the actor's role and generated identifiers are inputs.

History variables, which no step reads: the role in a decision row, a claim's own number in a worker's phase, the failure and
reclaim counts of a row, the claims whose send returned normally, and the counts of reported and of stale deliveries. Outbox
events are numbered in the order of their commits, their creation times are a separate input that may order them differently,
and the status column of the outbox is the set of published numbers.

## Where the code and what one might expect differ

- `attempts <= max_attempts` is not kept: taking over an expired lease counts an attempt and checks nothing. The bound holds
  for written failures (`ReachableRow`), and `ClaimKeepsBudgetIff` says which claims break it. README.md:166 of the repository
  promises that failed deliveries end as dead letters; a delivery whose worker dies on every attempt does not, for any maximum
  and any number of attempts (`AttemptsCanExceedMax`).
- `deliver_pending` counts a delivery even if its update matched nothing. The counts of all workers exceed the rows delivered by
  exactly the stale reports (`ReportedIsDeliveredPlusStale`); one worker's count covers the rows that its own writes moved to
  delivered, and equals them exactly when the row was still held at every normal send's write
  (`CountCoversDeliveries`); for a lone worker they agree (`CountIsDeliveries`).
- `deliver_pending` stops when it loses a race, with work left (`ContendedWorkerStopsEarly`).
- The stage route reaches every stage, so a hired candidate may have no offer (`HiredWithoutOffer`) and a pending offer may
  have a withdrawn candidate (`PendingOfferCandidateMayLeave`). `ApprovedOfferIffNotRouted` and `WaitingIffNotMoved` say exactly
  when this has happened in a run. What always binds the two runs from the offer to the candidate (`OfferBindsCandidate`), and
  `DecisionSucceedsIff` says exactly when a decision still gets through.
- A legal hold does not stop a purge that has already selected the person (`HoldCanComeTooLate`); every other held person is
  preserved (`HeldPersonIsPreservedIff`).
- `retry_after` is truncated, so waiting that long is enough only for whole seconds (`RetryAfterSufficesIff`).
- A purge deletes blobs before its transaction commits; a failed commit breaks the agreement of the two stores unless nobody
  the purge had selected has a document by then (`AbortedPurgeKeepsAgreementIff`). That nobody is due at that moment is not
  enough: `AbortBreaksAgreement` is a run with a hold in between.

## Model

| member | source | states |
|---|---|---|
| Leases.FinaliseIffLatestClaim | app/modules/notifications/application/delivery_worker.py:88-120 | in every reachable state, marking or failing changes the table iff the caller's claim number equals the row's attempts, and then it changes that row alone |
| Leases.MarkIffLatestClaim | app/modules/notifications/application/delivery_worker.py:88-101 | the owner test of the delivered update separates the latest claim from every older one |
| Leases.FailIffLatestClaim | app/modules/notifications/application/delivery_worker.py:105-120 | the same for a failure |
| Leases.LatestClaimHasOneHolder | app/modules/notifications/application/delivery_worker.py:69-78 | two workers in flight never both hold the latest claim on a row |
| Leases.ClaimKeepsInv | app/modules/notifications/application/delivery_worker.py:69-78 | a claim keeps rows well formed and turns the owner test against every older holder at once |
| Leases.StepKeepsInv | app/modules/notifications/application/delivery_worker.py:34-120 | every step of every worker keeps well-formed rows, fencing, the accounting of attempts, and the count of reports |
| Leases.ReachableInv | app/modules/notifications/application/delivery_worker.py:34-120 | so all of it holds in every reachable state |
| Leases.ReachableRow | app/modules/notifications/application/delivery_worker.py:69-120 | processing iff owned iff leased; pending iff never attempted; retry below and dead letter at or above the maximum; attempts are failures plus takeovers plus the open or delivering claim; failures stay within the budget; a delivered row's last claim was sent normally |
| Leases.FinalRowsStay | app/modules/notifications/application/delivery_worker.py:51-120 | delivered and dead-lettered rows are never written again, in any run |
| Leases.NoRowIsStuck | app/modules/notifications/application/delivery_worker.py:51-58 | every row that is not final becomes claimable once clocks pass some instant |
| Leases.RacingClaims | app/modules/notifications/application/delivery_worker.py:48-82 | of two workers that selected the same row the first to claim takes it; the second one's claim matches iff its clock reading is past the lease just taken, and otherwise it writes nothing and stops |
| Leases.SelectableIsOldestInReach | app/modules/notifications/application/delivery_worker.py:51-65 | the select returns a row iff it is not finished or under a running lease, and every older row is; an expired lease ranks by its age like any other row |
| Leases.ClaimKeepsBudgetIff | app/modules/notifications/application/delivery_worker.py:69-78 | a claim exceeds the permitted attempts iff it takes over an expired lease of the last one |
| Leases.ReportedIsDeliveredPlusStale | app/modules/notifications/application/delivery_worker.py:34-46 | the counts of all workers are the rows delivered plus the stale reports |
| Leases.SplitFailIsFencedIff | app/modules/notifications/application/delivery_worker.py:105-120 | when a worker reads its row, others go on, and it then writes the changed columns back by key, that equals the fenced write iff nobody took the lease over, or the row already has the status the write would give it, and the error unless the write leaves it out |
| Leases.AttemptsCanExceedMax | app/modules/notifications/application/delivery_worker.py:69-78 | for every maximum and every n, a reachable state in which a row whose worker always dies is in processing at attempt n |
| Leases.CountsCanExceedDeliveries | app/modules/notifications/application/delivery_worker.py:34-46 | a reachable state with two reports and one delivered row |
| Leases.SplitFailRevivesDelivery | app/modules/notifications/application/delivery_worker.py:105-120 | a run in which a split failure would turn a delivered row into a retry |
| Leases.SplitFailRevivesDeadLetter | app/modules/notifications/application/delivery_worker.py:105-120 | a run in which a split failure would turn a dead letter into a retry |
| Leases.ContendedWorkerStopsEarly | app/modules/notifications/application/delivery_worker.py:79-82 | a run in which a worker returns while another row is eligible |
| DeliveryWorkers.DeliveryWorker.ClaimNext | app/modules/notifications/application/delivery_worker.py:48-86 | whatever commits between select and update, a row in reach is chosen while every older one is delivered, dead-lettered, or in processing under a lease that has not run out; it is claimed iff it is still eligible, and nothing else changes |
| DeliveryWorkers.DeliveryWorker.MarkDelivered | app/modules/notifications/application/delivery_worker.py:88-103 | the guarded delivered update: status, attempts, and no other row |
| DeliveryWorkers.DeliveryWorker.Fail | app/modules/notifications/application/delivery_worker.py:105-120 | the guarded failure, field by field: dead letter iff the attempts have reached the maximum, the error cut to its first 1000 characters, no other row |
| DeliveryWorkers.DeliveryWorker.DeliverPending | app/modules/notifications/application/delivery_worker.py:34-46 | alone, the loop ends for every clock and sender, each turn attempts an oldest eligible row, it returns the number of normal sends, and nothing was eligible at its last reading of the clock |
| DeliveryWorkers.DeliveryWorker.OneTurn | app/modules/notifications/application/delivery_worker.py:36-45 | one turn with arbitrary commits by others before each of its statements: a claim that still matched, a send, a guarded write; or the end of the loop, for one of its two reasons |
| DeliveryWorkers.DeliveryWorker.DeliverAmongOthers | app/modules/notifications/application/delivery_worker.py:34-46 | the loop under contention, up to any number of turns: every turn as above, the count of normal sends, and an end only when nothing was eligible or the selected row was lost |
| DeliveryWorkers.CountCoversDeliveries | app/modules/notifications/application/delivery_worker.py:41-45 | for the turns of the contended loop, the count is at least the rows that the worker's own writes moved to delivered, and just that iff the row was still held at every normal send's write |
| DeliveryWorkers.AttemptLowersLoad | app/modules/notifications/application/delivery_worker.py:105-120 | every attempt lowers the sum over unfinished rows of max(1, max_attempts - attempts) |
| DeliveryWorkers.SendsAreBounded | app/modules/notifications/application/delivery_worker.py:34-67 | that sum bounds the number of sends |
| DeliveryWorkers.CountIsDeliveries | app/modules/notifications/application/delivery_worker.py:34-46 | a lone worker's count is the number of rows it moved to delivered |
| DeliveryWorkers.OlderRowsAreFinished | app/modules/notifications/application/delivery_worker.py:60-65 | when a row is attempted every older row is final and is never attempted again |
| DeliveryWorkers.OlderRowsAreOutOfReach | app/modules/notifications/application/delivery_worker.py:51-65 | whatever leases the loop finds, when a row is attempted every older row is final, or is as it was found, in processing under a lease that has not run out at that attempt's reading of the clock |
| DeliveryWorkers.AttemptsPerRow | app/modules/notifications/application/delivery_worker.py:105-120 | no attempt on a finished row, and on any other at most max_attempts minus its attempts, or one |
| DeliveryWorkers.AttemptsAreInOrder | app/modules/notifications/application/delivery_worker.py:60-65 | with distinct creation times, attempts on one row are consecutive and rows come in order of creation |
| DeliveryWorkers.OnlyForeignLeasesRemain | app/modules/notifications/application/delivery_worker.py:34-67 | the loop leaves only final rows and unexpired leases, and without leases only final rows |
| DeliveryWorkers.TurnIsFourSteps | app/modules/notifications/application/delivery_worker.py:36-45 | one turn of the loop is select, claim, send, finalise |
| Contention.TurnIsProtocolRun | app/modules/notifications/application/delivery_worker.py:36-45 | a contended turn is select, claim, send and finalise of the protocol with any steps of others in between, with the same table and its report |
| Contention.StopIsProtocolRun | app/modules/notifications/application/delivery_worker.py:66-82 | the end of the contended loop is a run of the protocol too, for either of its two reasons |
| Contention.LoopIsProtocolRun | app/modules/notifications/application/delivery_worker.py:34-46 | the contended loop, for any number of turns, is a run of the protocol that ends in the same table, and all that it counts is reported, whatever steps of others the statements meet |
| Contention.EveryEnvironmentIsAWorld | app/modules/notifications/application/delivery_worker.py:34-86 | no behaviour of the others is left out: whatever tables their steps lead to, the method's contract covers the loop that meets them |
| DeliveryWorkers.LoneRunIsProtocolRun | app/modules/notifications/application/delivery_worker.py:34-46 | the whole loop is a run of the protocol with the same table and the same reports |
| CandidateWorkflow.FitsIffHistory | app/modules/workflow/domain/candidate_state_machine.py:22-46 | the table of stages and versions holds exactly the ends and lengths of paths through the graph |
| CandidateWorkflow.ReachTable | app/modules/workflow/domain/candidate_state_machine.py:22-40 | the stages reachable from an approved, a rejected and a pending offer, both directions |
| OfferApproval.RequiredRoleInOrder | app/modules/offers/domain/approval_policy.py:18-22 | under steps numbered 1..n step i needs the i-th role and other steps do not exist |
| OfferApproval.RequiredRoleIsFirst | app/modules/offers/domain/approval_policy.py:18-22 | under any policy the role is that of the first step with the number, and there is none iff no step has it |
| OfferApproval.DecideUnderAnyPolicy | app/modules/offers/domain/offer.py:34-75 | under any policy, however numbered: that role decides, and what a rejection, the approval of the last step's number, and any other approval make of the offer |
| HiringSession.Session.TransitionCandidate | app/modules/candidates/infrastructure/sqlalchemy_repository.py:58-74 | the version-guarded update: when it matches and what it writes; the terminal time is the clock reading for rejected and withdrawn, and none otherwise; no other row changes |
| HiringSession.Session.UpdateOffer | app/modules/offers/infrastructure/sqlalchemy_repository.py:48-62 | the version-guarded offer update |
| HiringSession.Session.Commit | app/shared/database.py:19-20 | buffered inserts reach the tables at the commit, all of them or none, and not the updates either when a key is violated |
| HiringSession.HandleTransition | app/modules/candidates/application/transition_candidate.py:40-60 | the handler equals the atomic command, on success and on each error |
| HiringSession.HandleCreateOffer | app/modules/offers/application/create_offer.py:44-66 | the same for creating an offer |
| HiringSession.RecordAndCommit | app/modules/offers/application/decide_offer.py:68-77 | decision and event are stored together, iff the offer has no decision for the step |
| HiringSession.HandleDecideOffer | app/modules/offers/application/decide_offer.py:46-78 | the same for deciding: four tables in one commit |
| HiringInvariants.HandleKeepsInv | app/modules/offers/application/decide_offer.py:46-78 | every successful command, under any policy, keeps stages fitting versions, offers placed on their candidates, one offer to a candidate, and the ledger of decisions |
| HiringInvariants.WriteCandidateKeepsInv | app/modules/candidates/infrastructure/sqlalchemy_repository.py:58-74 | any legal move of any candidate keeps all of it, the free stage route included |
| HiringInvariants.InterviewingHasNoOffer | app/modules/offers/application/create_offer.py:44-65 | a candidate in applied, screening or interviewing has never had an offer |
| HiringInvariants.CreateKeepsInv | app/modules/offers/application/create_offer.py:52-65 | an offer for an interviewing candidate never meets the unique key on the candidate |
| HiringInvariants.DecidedOfferWasPending | app/modules/offers/domain/offer.py:34-75 | a decision that commits was on a pending offer |
| HiringInvariants.DecideEffect | app/modules/offers/application/decide_offer.py:46-78 | all that a successful decision changes among offers, decisions and events |
| HiringHistory.OfferHistory | app/modules/offers/domain/offer.py:34-75 | for steps 1..n: an approved offer has n approvals in role order, an offer rejected at s has s - 1 approvals and a rejection; version is the step while pending and the step plus one once finished, and an approved offer's step is the last |
| HiringHistory.FinishedOffersStay | app/modules/offers/domain/offer.py:34-75 | approved and rejected offers are immutable in every run of commands one after another, under every policy |
| EndToEnd.FinishedOffersStayInSystem | app/modules/offers/domain/offer.py:34-75 | and in every run of the whole system, reads and commits interleaved |
| HiringHistory.FinishedOfferIsRefused | app/modules/offers/infrastructure/sqlalchemy_repository.py:64-73 | which guard refuses a decision by the right role at the right version on a finished offer: the unique key iff a rejected offer is approved at a step before the last, otherwise the stage graph |
| HiringHistory.RejectedOfferNeedsTheKey | app/shared/models.py:222 | a run that reaches the key on (offer, step) |
| HiringHistory.DecisionSucceedsIff | app/modules/offers/application/decide_offer.py:46-78 | a decision commits iff the offer exists in the tenant at the expected version, the decision is approved or rejected, the role is that of the offer's step, the offer is pending and, when the decision finishes it, the candidate still waits; on a pending offer the stage graph alone can stop the right role |
| HiringHistory.DraftSucceedsIff | app/modules/offers/domain/offer.py:34-75 | the first phase accepts a decision iff the offer is there, the version matches, the decision is a known one, the step is one of 1..n and the role is the step's; each other case has its own error, in this order |
| HiringOutcomes.OpenSucceedsIff | app/modules/candidates/domain/candidate_case.py:17-25 | a case opens iff its identifier is new, in the first stage at version 1 |
| HiringOutcomes.TransitionSucceedsIff | app/modules/candidates/application/transition_candidate.py:40-60 | when a stage move succeeds, the error in every other case, and the row it leaves, terminal time included |
| HiringOutcomes.CreateSucceedsIff | app/modules/offers/application/create_offer.py:44-66 | an offer is created iff the tenant's candidate is interviewing and the identifier is new; what it leaves in both tables |
| HiringOutcomes.DecidedOffer | app/modules/offers/domain/offer.py:34-75 | a rejection finishes the offer, so does the approval of step n, any other approval moves it one step on; one decision and one event are added |
| HiringOutcomes.DecidedCandidate | app/modules/offers/application/decide_offer.py:57-67 | a finishing decision moves the offer's candidate to approved or rejected and no other candidate; any other decision moves nobody |
| HiringOutcomes.ApprovalsCommit | app/modules/offers/application/decide_offer.py:46-78 | liveness: from any reached pending offer whose candidate waits, the missing approvals, one to a step by the step's role, all commit and leave the offer approved and the candidate in the approved stage |
| HiringOutcomes.StandardApproval | app/modules/offers/domain/approval_policy.py:14-16 | under the standard policy a hiring manager and then a tenant administrator approve a new offer |
| HiringOutcomes.TenantsAreIsolated | app/modules/offers/infrastructure/sqlalchemy_repository.py:48-62 | no command changes a candidate or an offer of another tenant, or adds one |
| HiringHistory.PendingOfferCandidateMayLeave | app/modules/candidates/application/transition_candidate.py:40-60 | a run with a pending offer and a withdrawn candidate |
| HiringHistory.HiredWithoutOffer | app/modules/candidates/application/transition_candidate.py:40-60 | a run with a hired candidate and no offer |
| StageRoute.ApprovedOfferIffNotRouted | app/modules/candidates/application/transition_candidate.py:40-60 | in every run an approved or hired candidate has an approved offer iff the stage route did not move them to the approved stage |
| StageRoute.WaitingIffNotMoved | app/modules/candidates/application/transition_candidate.py:40-60 | in every run a pending offer's candidate still waits iff the stage route has not moved them since the offer was created |
| StageRoute.ApprovedOfferIffNotRoutedInterleaved | app/modules/candidates/application/transition_candidate.py:40-60 | the same for handlers whose reads and commits interleave, over the commands that the run commits |
| StageRoute.WaitingIffNotMovedInterleaved | app/modules/candidates/application/transition_candidate.py:40-60 | the same for the waiting candidate |
| StageRoute.TerminalTimeIsTheMove | app/modules/candidates/infrastructure/sqlalchemy_repository.py:69-71 | in every run a candidate's terminal time is the time of the command of the run that moved them to rejected or withdrawn, both directions |
| StageRoute.TerminalTimeIsTheMoveInterleaved | app/modules/candidates/infrastructure/sqlalchemy_repository.py:69-71 | the same over the commands that an interleaved run commits |
| HiringHistory.OfferBindsCandidate | app/modules/offers/application/decide_offer.py:57-67 | an approved offer's candidate is approved, hired or withdrawn; a rejected one's is rejected or withdrawn; any offer's candidate is reachable from pending approval, in the offer's tenant |
| HiringHistory.AtMostOneOffer | app/shared/models.py:208-210 | one offer to a candidate, and creating an offer without interruption can fail at its commit only through a reused identifier |
| Interleaving.CreateFailsIff | app/modules/offers/application/create_offer.py:54-65 | a commit from old reads fails iff the candidate has moved or the identifier is taken, never through the unique key on the candidate |
| HiringHistory.CandidateHistory | app/modules/candidates/domain/candidate_case.py:17-34 | stage and version are the end and length of a path, at most five moves; the terminal time is set exactly in rejected and withdrawn |
| HiringHistory.LeavesStay | app/modules/candidates/infrastructure/sqlalchemy_repository.py:58-74 | hired, rejected and withdrawn candidates never change again, terminal time included, in every run of commands |
| EndToEnd.LeavesStayInSystem | app/modules/candidates/infrastructure/sqlalchemy_repository.py:58-74 | nor in any run of the whole system |
| Interleaving.CommitIsHandle | app/modules/offers/application/decide_offer.py:46-78 | a commit from old reads that passes its guards does what the whole handler would do now |
| Interleaving.UninterruptedTask | app/modules/offers/application/decide_offer.py:46-78 | a handler that nothing comes between is the atomic command, and counts as committed |
| Interleaving.RunKeepsOffice | app/modules/candidates/infrastructure/sqlalchemy_repository.py:58-74 | in every interleaving versions only grow, and equal identifier and version imply an equal record |
| Interleaving.Serialisable | app/modules/offers/infrastructure/sqlalchemy_repository.py:48-62 | every interleaving equals running the committed commands one after another, each of them succeeding |
| Interleaving.FirstCommitterWins | app/modules/candidates/application/transition_candidate.py:46-52 | in every run, of two handlers that read the same version of a candidate or an offer, the second read of a deciding handler done or not, at most one ever commits on that reading |
| Interleaving.OvertakenNeverCommits | app/modules/offers/application/decide_offer.py:47-67 | a handler whose reading is out of date never commits, whatever it reads later |
| Outbox.PendingInOrder | app/modules/notifications/application/outbox_publisher.py:14-18 | exactly the pending events, each once, by creation time |
| Outbox.OutboxPublisher.CheckEvents | app/modules/notifications/application/outbox_publisher.py:19-36 | each check sees what others have committed by then, and the buffered inserts are exactly the events without a delivery at their check |
| Outbox.OutboxPublisher.PublishPending | app/modules/notifications/application/outbox_publisher.py:12-47 | one delivery to every pending event that had none at its check, addressed to its actor, pending, without attempts and created now, and all events marked; or nothing at all iff one of them has got a delivery since |
| Outbox.OutcomeMeans | app/modules/notifications/application/outbox_publisher.py:12-47 | in terms of rows: one insert to each selected event whose check finds none, success iff none of them has got one by the commit, the number returned is the number inserted, and failure changes nothing |
| Publishing.PublishIsSystemRun | app/modules/notifications/application/outbox_publisher.py:12-38 | whatever handlers, workers and other publishers do between its statements, the method's transaction is a run of the whole system with the same outcome |
| EndToEnd.StepKeepsSystem | app/modules/notifications/application/outbox_publisher.py:12-38 | every step of handlers, publishers and workers keeps the invariant of the whole system |
| EndToEnd.PartsAreReachable | app/modules/offers/application/decide_offer.py:46-78 | in every reachable state of the whole system the tables come from a serial run of commands and the deliveries from a run of the lease protocol |
| EndToEnd.PartsEvolve | app/modules/offers/application/decide_offer.py:46-78 | between any two states of a run of the whole system the tables change as by some commands one after another, and the deliveries as by some run of the lease protocol |
| EndToEnd.FinalRowsStayInSystem | app/modules/notifications/application/delivery_worker.py:51-120 | delivered and dead-lettered rows stay as they are in every run of the whole system |
| EndToEnd.Conservation | app/modules/offers/application/decide_offer.py:55-77 | sum over offers of version - 1 = decisions = outbox events = deliveries + pending events, in every reachable state |
| EndToEnd.DeliveriesMatchDecisions | app/shared/models.py:254 | deliveries are in bijection with published events, each going to the approver who took the decision |
| Retention.PurgesCompose | app/modules/retention/infrastructure/sqlalchemy_repository.py:70-101 | purging at t1 and then t2 leaves what purging at t2 leaves, counts add up, and a repeated purge finds nothing |
| Retention.RunKeepsHoldsOk | app/modules/retention/application/retention.py:90-100 | in every run a hold's tenant is its candidate's tenant |
| Retention.UninterruptedPurge | app/modules/retention/infrastructure/sqlalchemy_repository.py:70-101 | a purge whose select and writes nothing separates is the purge as one step |
| Retention.WritesPreserveIff | app/modules/retention/infrastructure/sqlalchemy_repository.py:87-100 | the unguarded writes leave a person alone iff they were not selected, or there is nothing left to take |
| Retention.HeldPersonIsPreservedIff | app/modules/retention/infrastructure/sqlalchemy_repository.py:74-100 | from hold to release no command changes the person's names or email, anonymises them, or deletes their attachment rows, unless a purge that had selected them before writes after; for a person not anonymised yet, iff |
| AttachmentStores.HeldDocumentsKeepBytesIff | app/modules/retention/infrastructure/sqlalchemy_repository.py:87-96 | the stored bytes of a held person's document stay, with fresh keys, iff no purge of its tenant that had selected the person before writes or fails to commit after; otherwise they are gone, unless the key is drawn again |
| Retention.HoldCanComeTooLate | app/modules/retention/infrastructure/sqlalchemy_repository.py:78-100 | a run in which a held person is anonymised |
| Retention.OnlyDuePeopleAreAnonymised | app/modules/retention/infrastructure/sqlalchemy_repository.py:78-100 | whoever is anonymised was rejected or withdrawn, past the period and not held, when a purge of their tenant selected; the record is the two redacted names, the redacted email and the time of that select |
| RetentionHistory.AnonymisedAfterThePeriod | app/modules/retention/infrastructure/sqlalchemy_repository.py:70-101 | in every run: whoever is anonymised was rejected or withdrawn by an earlier command, at least the days of the policy set last times 86400 seconds before the select that took them, and not on hold then |
| RetentionHistory.DueIff | app/modules/retention/infrastructure/sqlalchemy_repository.py:70-86 | over runs: a rejected or withdrawn person is due iff the tenant's days have passed since the time of the command that moved them, the last hold request did not ask for a hold, and they are not anonymised |
| RetentionHistory.OnlyClosedAreDue | app/modules/retention/infrastructure/sqlalchemy_repository.py:79-84 | nobody is due whom no command of the run rejected or withdrew |
| RetentionHistory.HeldIffAsked | app/modules/retention/infrastructure/sqlalchemy_repository.py:36-59 | in every run a person is on hold iff the last request for them by their own tenant asked for it |
| RetentionHistory.HoldRequestEffect | app/modules/retention/infrastructure/sqlalchemy_repository.py:36-59 | one request: nothing for another tenant's person, a release, or a hold with the reason given, else the one there was, else the default |
| RetentionHistory.PurgeForgets | app/modules/retention/infrastructure/sqlalchemy_repository.py:87-100 | registries that differ only in the names and emails of the people due are equal after the purge |
| RetentionHistory.EmailsDiffer | app/modules/retention/infrastructure/sqlalchemy_repository.py:99 | different people get different redacted emails |
| RetentionHistory.PurgeTakesExactly | app/modules/retention/infrastructure/sqlalchemy_repository.py:87-100 | a purge takes exactly the names, emails, document rows and blobs of the people due |
| AttachmentStores.StoresAgree | app/modules/attachments/application/attachment_service.py:96-119 | blobs and attachment rows agree after any run of uploads with fresh keys, failing anywhere, purges with other commands between select and writes, and failed purge commits that had nothing to delete |
| AttachmentStores.StepKeepsAgreementIff | app/modules/retention/infrastructure/sqlalchemy_repository.py:87-96 | from agreement a command leads to agreement iff it is one of those, or an upload for a candidate who does not exist |
| AttachmentStores.UploadKeepsAgreementIff | app/modules/attachments/application/attachment_service.py:96-118 | an upload keeps the stores in agreement iff its key was fresh, whatever becomes of it |
| AttachmentStores.UploadEffect | app/modules/attachments/application/attachment_service.py:76-119 | what an upload leaves in both stores, stored, failed, or refused |
| AttachmentStores.AbortedPurgeKeepsAgreementIff | app/modules/retention/infrastructure/sqlalchemy_repository.py:87-96 | a purge whose commit fails keeps the stores in agreement iff nobody it had selected has an attachment by then |
| AttachmentStores.AbortBreaksAgreement | app/modules/retention/infrastructure/sqlalchemy_repository.py:78-96 | a run in which nobody is due and a failed commit breaks the agreement |
| RetentionServices.RetentionStore.SetLegalHold | app/modules/retention/infrastructure/sqlalchemy_repository.py:36-59 | existence guard, create, re-reason, release, for the right tenant only |
| RetentionServices.RetentionStore.DeleteAttachments | app/modules/retention/infrastructure/sqlalchemy_repository.py:88-96 | the inner loop removes exactly one person's rows and blobs |
| RetentionServices.RetentionStore.AnonymiseOne | app/modules/retention/infrastructure/sqlalchemy_repository.py:87-100 | one turn of the outer loop purges one person: the four columns it leaves, and nobody else's |
| RetentionServices.RetentionStore.SelectDue | app/modules/retention/infrastructure/sqlalchemy_repository.py:71-86 | the selected people are exactly those due |
| RetentionServices.RetentionStore.PurgeRecords | app/modules/retention/infrastructure/sqlalchemy_repository.py:87-101 | the loop in any order equals purging all selected people at once |
| RetentionServices.RetentionStore.PurgeDue | app/modules/retention/infrastructure/sqlalchemy_repository.py:70-101 | the purge, and the identifiers it returns |
| RetentionServices.RetentionStore.PurgeAndAudit | app/modules/retention/application/retention.py:114-127 | the count returned, and one audit record to each purged person |
| RetentionServices.RetentionStore.Upload | app/modules/attachments/application/attachment_service.py:76-119 | blob first, then the row; stored iff the person is there, nothing fails, and identifier and key are unused; any failure leaves rows as they were and removes the blob |
| KeysetPaging.PageIs | app/modules/candidates/infrastructure/sqlalchemy_repository.py:90-119 | a page holds exactly the matching rows from the cursor to its own last row, and has a successor iff more than `limit` were left |
| KeysetPaging.PageTotalIs | app/modules/candidates/infrastructure/sqlalchemy_repository.py:98-118 | the total on a page covers all that is left, and at the start is exactly that |
| KeysetPaging.WalkIsComplete | app/modules/candidates/infrastructure/sqlalchemy_repository.py:85-119 | with inserts, deletions and edits between pages: no duplicates, ascending, only matches, and every row that matches throughout |
| KeysetPaging.FixedTableWalk | app/modules/candidates/infrastructure/sqlalchemy_repository.py:85-119 | on a fixed table the pages together are the filtered rows in order, in the least number of pages, and every page's total is their number |
| KeysetPaging.FixedTableLists | app/modules/candidates/infrastructure/sqlalchemy_repository.py:90-119 | the pages of a fixed table list exactly the tenant's rows in the stage and of the requisition asked for, each once, and every total is their number |
| KeysetPaging.WalkListsOnlyTheFilter | app/modules/candidates/infrastructure/sqlalchemy_repository.py:85-95 | over changing tables a listed row was the tenant's, in the stage and of the requisition when its page was read |
| KeysetPaging.WalkEnds | app/modules/candidates/infrastructure/sqlalchemy_repository.py:117 | following the cursor over a fixed table comes to an end |
| RateLimit.MemoryFixedWindowRateLimiter.Consume | app/shared/rate_limit.py:30-40 | the new window of the key, no other key touched, and the decision: allowed iff the count is within the limit, and what remains of it |
| RateLimit.WithinWindow | app/shared/rate_limit.py:33-39 | within a window exactly the first calls get an allowing decision, up to the limit |
| RateLimit.DecisionInWindow | app/shared/rate_limit.py:33-40 | in a window that an earlier call began, a call is allowed iff fewer calls than the limit came before it, and `remaining` is the number of further calls of the window that will be allowed |
| RateLimit.Serve | app/shared/rate_limit.py:30-40 | the limiter called on a sequence of calls: the allowing decisions for a key are as many as counted by the bounds, so at most twice the limit in one window's length and one less in a shorter interval |
| RateLimit.TwiceTheLimit | app/shared/rate_limit.py:30-40 | any interval of one window's length holds at most twice the limit of allowed calls of a key |
| RateLimit.TwiceTheLimitIsReached | app/shared/rate_limit.py:30-40 | and, both ends included, can hold that many, for every limit and length, from a fresh limiter |
| RateLimit.TwiceTheLimitLessOne | app/shared/rate_limit.py:30-40 | an interval shorter than a window holds one call less, since a stored window has counted the call that stored it |
| RateLimit.WindowsAreApart | app/shared/rate_limit.py:33-35 | a new window starts iff the stored one ran out, and ends at least one length later |
| RateLimit.RetryAfterPlusOne | app/shared/rate_limit.py:38-40 | waiting `retry_after` and one more second always outlasts the window |
| RateLimit.RetryAfterSufficesIff | app/shared/rate_limit.py:38-40 | waiting `retry_after` alone does iff whole seconds were left, or less than one |

## Left out

- Routes, schemas, settings, middleware and identity: transport around the modelled handlers.
- The database engine: isolation levels, lock waits, deadlocks and foreign keys; see the assumptions for what is taken from it.
- `create_candidate`: the requisition and email checks; the model opens a case with a fresh identifier.
- Audit rows of stage moves, uploads and holds: appended in the same transaction and never read by the modelled code.
- Title, salary and currency of an offer, and topic, tenant and payload of an event beyond offer, decision and actor.
- The email address a purge writes may collide with a stored one; the unique email per tenant is not modelled.
- Attachment checks before the upload, the scanner, downloads and listings, and the name, type and digest of a document.
- The file system below the map from key to content, and a failing save or delete; a process that dies after a purge has deleted
  blobs is the failed commit, one that dies inside an upload is not modelled.
- "A purged candidate has no attachments" beyond the purge itself: an upload does not look at anonymisation.
- The retention worker that goes through the tenants with a policy: repeated purges of different tenants.
- The Redis limiter and the client address of a request: foreign calls and lookups.
- Progress of workers under contention: only that no row is stuck, and that a lone worker finishes.
- Tokens, calendar feeds, interviews, reporting and metrics: single-check handlers, counters and library calls.
