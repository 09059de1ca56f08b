# Concierge, verified

Concierge is the identity plane of an investment platform: it decides who is an owner of the
fund, who may sign in and for how long, who may grant what, and which accounts are frozen. This
project models its state machines in Dafny and proves what they promise over every input, every
run, or every interleaving.

| module | what it models |
|---|---|
| `Results`, `Ballots`, `Consilium`, `Attrition`, `Answers`, `ProposalRuns`, `Aggregates` | the three ownership consilia: counting rules, one shared lifecycle, what a moving roster does to a verdict, what each command does to a proposal, and the aggregates as classes proved equal to the lifecycle |
| `Fund`, `Backing`, `Transactions`, `Carrying`, `BreakGlass` | the roster with any number of open proposals, who stood behind each execution, every transaction of the store as a run of the fund, how what is decided moves the register, and the emergency-access latch over whole histories |
| `RefreshStore`, `RefreshRefinement`, `RedisInterleavings`, `Sessions` | both refresh-token stores, the refinement of one by the other, the Redis one command at a time, and what a session is worth read off its history |
| `RefreshProtocol`, `AuthServices` | the refresh handler as interleaved steps, and as the code runs it |
| `RelyingParty`, `ClientSessions` | authorization codes and client sessions as interleaved transactions, the two handlers as the code runs them, and what each transaction changes row by row |
| `Permissions`, `Catalogs`, `Delegation`, `Publishing` | patterns, catalogs, grants and their delegation, and publishing a catalog |
| `Users`, `HoldBudget`, `Mirror` | the user aggregate, what one admin's brake can cost, and the outbox read page by page by a remote mirror |
| `Codes`, `SingleFlight`, `RateLimiter`, `LimiterClocks` | emailed one-time codes, per-key locks reaped by reference count, the fixed-window limiter, and the limiter on a clock that may step back |

Each class updates its fields in place, as the code does, and every method is proved equal to a
function of the old state; the theorems are about those functions and about runs of them. A run
is a sequence of steps of any length by anybody. Refused commands leave the state as it was.
The lemmas whose names end in `Does`, `Do` or `Moves` say of one operation what it changes, when it
refuses, and what it leaves alone, in terms of the fields and without the functions that compute it.

## How to read the results

Where the code does not do what its comments say, the model follows the code, a lemma shows the
case, and another states exactly when the comment holds:

- `domain/src/governance.rs:545-548` says that a moving roster can only make approval harder.
  `Attrition.OneVoteCarriesOnceTheRestLeave` opens a proposal of any kind, the commented removal
  among them, over any number of peers, has one of them say yes, and executes it once the others
  have left, where it was refused before. For each
  counting rule the module says exactly when those who leave carry a proposal and when they undo
  one; `LosingForVotesOnlyHarder` is the part of the comment that is true.
- `domain/src/governance.rs:1223-1226` calls the frozen threshold the bar a proposal is actually
  measured against. Over its snapshot it is (`Backing.SnapshotIsKept`); execution measures against
  the seated peers alone and may carry a proposal below it (`Attrition.ExecutesBelowBarExactly`).
  The store never does: over every sequence of its transactions what it executed had reached the
  bar (`Transactions.StoreNeverGoesBelowTheBar`).
- `auth/src/management.rs:575-580` calls the Redis rotate/reuse decision atomic. The verdict is,
  the wipe is a second command: `RedisInterleavings.ReuseVerdictLeavesWindow` rotates the family
  in between, and `WipeEndsFamily` closes the window.
- `auth/src/management.rs:493-497` makes the user's revocation one script so that no session
  outlives logout-everywhere. Against an issue landing in between it is enough: the script ends
  exactly what the index names (`RedisInterleavings.RevocationReachesExactly`). But each issue
  overwrites the index key's expiry with its own cap, taken from a clock it read before its
  commands were sent. When a user's issues land against the order of their readings, under one
  session length as under a shortened one, the index expires before a family it held, and that
  family still rotates after the script: `OutOfOrderOutlivesRevocation`, for any bounds.
  `NoOrphanExactly` proves that a run keeps every family indexed exactly when each issue's cap is
  no earlier than its user's others at that moment; under one session length it is enough that a
  user's issues land in the order of their readings (`OrderedReadingsSuffice`).
- `runner/src/infrastructure/relying_parties.rs:312-315` says a redemption racing a single logout
  finds its code expired. The insert compares with the clock the redemption read when it began:
  `RelyingParty.UpstreamRaceExactly` proves it opens its session exactly when that reading is
  earlier than the logout's. `SingleLogoutHolds` ends every code no redemption of which reads
  earlier, over every run, and `SingleLogoutExactly` shows that no weaker condition will do.
- `runner/src/notification.rs:125-129` prunes what the counter still needs when the clock steps
  back, as it does to two calls racing over a bucket's edge, each having read it before the lock:
  `RateLimiter.ClockGoingBackForgets`. On a clock that does not, pruning is unobservable; on
  any clock it never makes an answer stricter, and `LimiterClocks.AnswerDiffersExactly` says when
  it makes one laxer. Counts are 32 bits wide: `RateLimiter.BudgetWraps`.
- `domain/src/users.rs:441` (the raw brake) ends a hold and starts no cooldown:
  `Users.RawBrakeForgetsTheHold`. The budget of `HoldBudget.HoldsStayWithinBudget` is over the
  commands that do.
- `iam/src/lib.rs:94` (containment) decides inclusion over all names. Over the names a catalog may
  hold, of three segments and more, it is too strict in exactly two shapes:
  `Permissions.PermissionInclusionExactly`, with `TwoStarsTakeInAsMuch` for `ns:*:*` and `ns:*`.

Database transactions are atomic steps; clocks are arguments, and theorems that need them not to
run back say so. In `RedisInterleavings`, `RefreshProtocol`, `RelyingParty`, `Codes` and
`HoldBudget` each reading is its sender's own, however late its command lands; the expiry of Redis
keys follows the server's clock. Where such lag costs something an exact bound says how much:
fifty comparisons of emailed codes in any fifteen minutes hold up to 301 seconds of it
(`Codes.FiftyExactly`; `ComparisonBudget` covers any lag), a day of hold in any eight up to a
cooldown (`HoldBudget.WithinDayExactly`). Secrets, codes and ids are minted fresh; digests are
injective.

## Model

| member | source | states |
|---|---|---|
| `Ballots.Unanimity` | domain/src/governance.rs:208-226 | the early-return loop computes the unanimity verdict |
| `Ballots.Majority` | domain/src/governance.rs:255-279 | the counting loop computes the majority verdict |
| `Ballots.UnanimityIsExact` | domain/src/governance.rs:208-226 | passes iff every way of answering the pending ballots carries, fails iff none does, open iff both exist |
| `Ballots.MajorityIsExact` | domain/src/governance.rs:255-287 | the same exactness for "more than half" |
| `Ballots.VerdictIsFinal` | domain/src/governance.rs:208-279 | a verdict once reached survives every further vote, under either rule |
| `Ballots.RulesCompared` | domain/src/governance.rs:208-287 | the rules coincide up to two peers; unanimity passing implies majority passing |
| `Consilium.PassesAmongExactly` | domain/src/governance.rs:573-577 | when each kind of proposal passes against a roster: accepted by its target, unanimous seated peers, or a strict seated majority |
| `Consilium.LaterOwnersHaveNoSay` | domain/src/governance.rs:573-577 | owners seated after a proposal opened never change its verdict |
| `Consilium.BlankSaysNothing` | domain/src/governance.rs:683-689 | a reason is trimmed of white space at both ends, and is empty then exactly when it was nothing else |
| `Consilium.ExecutedHasBacking` | domain/src/governance.rs:554-571 | an execution has a seated initiator, with the target's acceptance, all the seated peers, or a majority of them behind it, and a second person For whenever the proposal asks the people an opening asks |
| `Backing.NobodyActsAlone` | domain/src/governance.rs:246-248 | in every run from an empty book each executed proposal has two people behind it, by steps of their own: the initiator who filed it and still sits, and another who was asked at filing, said yes and still sits, or the removal's accepting target |
| `Backing.SnapshotIsKept` | domain/src/governance.rs:1223-1226 | in every run a proposal asks the people it was opened with, never its initiator or a removal's target, each answer in it was given by a step of theirs, and the frozen bar decides the verdict over them |
| `Attrition.AttritionCarriesExactly` | domain/src/governance.rs:540-577 | peers leaving carry an undecided owner consilium iff a For voter stays and every undecided peer has left |
| `Attrition.AttritionUndoesExactly` | domain/src/governance.rs:540-577 | peers leaving undo a passed one iff nobody asked is left and no target accepted |
| `Attrition.LosingForVotesOnlyHarder` | domain/src/governance.rs:545-548 | losing only peers who voted For never carries anything |
| `Attrition.MajorityAmongExactly` | domain/src/governance.rs:1375-1381 | a proposal about a user passes against a roster iff the lead of its For votes over the snapshot exceeds their lead among those who left |
| `Attrition.AttritionCarriesMajorityExactly` | domain/src/governance.rs:1348-1377 | those who leave carry one that had not passed iff they were behind by more than the whole snapshot is |
| `Attrition.AttritionUndoesMajorityExactly` | domain/src/governance.rs:1348-1377 | they undo one that had passed iff they led by at least as much as the whole snapshot does |
| `Attrition.BarIsTheVerdict` | domain/src/governance.rs:1223-1226 | over the snapshot a proposal about a user passes iff its For votes reach the frozen bar |
| `Attrition.ExecutesBelowBarExactly` | domain/src/governance.rs:1348-1363 | execution carries one below its bar iff attrition made up what was missing |
| `Attrition.OneVoteCarriesOnceTheRestLeave` | domain/src/governance.rs:545-548 | opened over any number of peers and answered For by one, a proposal of any kind is refused while the rest sit and executed when they have left, a removal with its target still seated and silent |
| `Answers.OpenRemovalDoes` | domain/src/governance.rs:420-449 | a removal opens iff the roster has three and more, holds both its people, who differ, and the trimmed reason has one to five hundred characters; it asks everybody else and nobody twice |
| `Answers.OpenAdmissionDoes` | domain/src/governance.rs:825-853 | an admission opens iff the candidate has no seat and the seated initiator is not alone; everybody else is asked |
| `Answers.OpenOfUserDoes` | domain/src/governance.rs:1236-1265 | the same of a proposal about a user, whose bar is the least strict majority of those asked |
| `Answers.VoteDoes` | domain/src/governance.rs:485-504 | a vote is refused iff the proposal is closed, it says nothing, the voter is not asked or has said something else; a first answer goes into the voter's row and no other, and closes the proposal as rejected iff nobody can carry it any more |
| `Answers.DecideDoes` | domain/src/governance.rs:506-520 | the same of the target's own answer |
| `Answers.LostExactly` | domain/src/governance.rs:294-310 | nobody can carry it: a No to a removal its target has not accepted, or no completion of the ballots carries |
| `Answers.CancelDoes` | domain/src/governance.rs:523-534 | only the initiator withdraws, and only what is open |
| `Answers.ExpireDoes` | domain/src/governance.rs:386-397 | only an open proposal at or past its deadline expires |
| `Answers.ExecuteDoes` | domain/src/governance.rs:554-571 | execution is refused without backing in the roster; with it the proposal is executed, or voided for a lost initiator, a seat that cannot be spared, or one already held |
| `Answers.MakeVoidDoes` | domain/src/governance.rs:579-586 | voiding an open proposal keeps the reason, cut at two hundred characters |
| `ProposalRuns.OpenedIsWellRun` | domain/src/governance.rs:420-449 | every successful open of any kind starts a well-run life |
| `ProposalRuns.VoteGrows` | domain/src/governance.rs:485-504 | an effective vote appends one answer, or an answer and the rejection it completes, and changes no cast vote |
| `ProposalRuns.DecisionGrows` | domain/src/governance.rs:506-520 | the same for the target's own answer |
| `ProposalRuns.ClosingGrows` | domain/src/governance.rs:523-586 | cancelling, expiring, executing or voiding appends exactly the event that names the new state |
| `ProposalRuns.LifecycleLanguage` | domain/src/governance.rs:334-397 | over every run: Opened, then answers, then at most one closing event, last; version counts events; cast votes never change; closed states absorb; an open proposal never reads Fails |
| `Aggregates.Find` | domain/src/governance.rs:488-493 | the peer search finds the voter's first row or the end |
| `Aggregates.OwnerRemoval.Propose` | domain/src/governance.rs:420-449 | opening a removal: seats, floor, reason, snapshot without target and initiator |
| `Aggregates.OwnerRemoval.PeerVote` | domain/src/governance.rs:485-504 | the in-place vote is the lifecycle's vote |
| `Aggregates.OwnerRemoval.TargetDecision` | domain/src/governance.rs:506-520 | the in-place self-decision is the lifecycle's |
| `Aggregates.OwnerRemoval.ExecuteAgainst` | domain/src/governance.rs:554-571 | the in-place execution is the lifecycle's, voiding for a lost initiator or a broken floor |
| `Aggregates.OwnerRemoval.Withdraw` | domain/src/governance.rs:523-534 | only the initiator cancels, once |
| `Aggregates.OwnerRemoval.TimeOut` | domain/src/governance.rs:386-397 | expiry belongs to the clock and to open proposals |
| `Aggregates.OwnerAdmission.Propose` | domain/src/governance.rs:825-853 | opening an admission |
| `Aggregates.OwnerAdmission.CastVote` | domain/src/governance.rs:883-905 | voting on an admission |
| `Aggregates.OwnerAdmission.ExecuteAgainst` | domain/src/governance.rs:934-952 | carrying an admission, voiding for a lost initiator or a seated candidate |
| `Aggregates.UserProposal.Propose` | domain/src/governance.rs:1236-1265 | opening a proposal about a user, its bar frozen from the snapshot |
| `Aggregates.UserProposal.CastVote` | domain/src/governance.rs:1298-1320 | voting on it |
| `Aggregates.UserProposal.ExecuteAgainst` | domain/src/governance.rs:1348-1363 | carrying it by a majority of the seated |
| `Fund.OwnersNeverVanish` | domain/src/governance.rs:671-679 | in every run the fund has no owner or at least `MIN_OWNERS`, and once it has one it never has none |
| `Fund.StepKeepsSeats` | runner/src/infrastructure/governance.rs:284-300 | every step, resignation and genesis included, keeps the floor and one row per owner |
| `Fund.RegisterMovesOnlyWithBacking` | runner/src/infrastructure/governance.rs:722-733 | the roster moves only by an execution with a second person behind it, a resignation that leaves enough, or genesis into an empty fund |
| `Fund.TwoSteadfastOwners` | domain/src/governance.rs:554-577 | two owners who refrain from proposing, from voting For removals and admissions, from accepting their own removal and from resigning keep their seats in every run, and nobody new gains one |
| `Fund.OneSteadfastOwnerIsNotEnough` | domain/src/governance.rs:554-577 | of any three owners, in any order, two carry the removal of the third, who does nothing |
| `Transactions.TransactionIsRun` | runner/src/infrastructure/governance.rs:1038-1056 | expire-before-answer, answer and settle in one transaction is a run of fund steps |
| `Transactions.RequestsAreRun` | runner/src/infrastructure/governance.rs:908-1056 | any sequence of the store's openings, answers, cancellations, resignations and genesis, each with the lapsed or moot proposal it closes and all or nothing, is a run of fund steps |
| `Transactions.StoreKeepsSeats` | runner/src/infrastructure/governance.rs:1478-1504 | so over any sequence of transactions the floor holds and a seated fund stays seated |
| `Transactions.StoreNeverActsForOne` | runner/src/infrastructure/governance.rs:722-733 | so whatever the store has executed had two people behind it |
| `Transactions.StoreKeepsSteadfastOwners` | runner/src/infrastructure/governance.rs:1038-1056 | so two owners who refrain hold the fund against any sequence of transactions |
| `Transactions.StoreExecutesAtTheBar` | runner/src/infrastructure/governance.rs:579-596 | one transaction executes a proposal about a user only when its For votes reached the frozen bar |
| `Transactions.StoreNeverGoesBelowTheBar` | runner/src/infrastructure/governance.rs:579-596 | over any sequence of transactions from an empty book, whatever proposal about a user has been executed still asks the people it was filed with, each answer a step of theirs, and has reached the bar frozen over them |
| `Transactions.ExecutedInTimeAndTwice` | runner/src/infrastructure/governance.rs:722-738 | what a transaction executes was answered before its deadline and passes over the snapshot and over the seated peers alike |
| `Transactions.LastVoteRefusedExactly` | runner/src/infrastructure/governance.rs:722-733 | a passing removal vote is rolled back iff no peer asked is still seated |
| `Carrying.CarryDoes` | runner/src/infrastructure/governance.rs:468-488 | carrying executes an open proposal iff it is backed, its initiator sits, it still applies and the seat can be spared or is free; then the register moves as its kind says, everybody else as before; otherwise nothing moves |
| `Carrying.ExecutionsMoveRegister` | runner/src/infrastructure/governance.rs:284-299 | at every step of every run an execution unseats, seats, makes an admin, puts a verdict or lifts one, for its subject alone; nothing else moves the register but a resignation, genesis and the directory |
| `Carrying.StoreExecutionsMoveRegister` | runner/src/infrastructure/governance.rs:468-650 | over any sequence of transactions, the one that executes a proposal has moved the register as its kind says, and touched no other proposal |
| `Carrying.TransactDoes` | runner/src/infrastructure/governance.rs:1038-1056 | what an answer's transaction leaves: the due proposal expired, the refused answer unrecorded, the accepted one recorded and its verdict settled |
| `Carrying.OpeningDoes` | runner/src/infrastructure/governance.rs:908-999 | an opening files exactly what was opened, for 72 hours, and expires the lapsed proposal it collides with, or changes nothing |
| `Carrying.CancellingDoes` | runner/src/infrastructure/governance.rs:1057-1077 | cancelling closes the proposal for its initiator, and as expired once it is due |
| `Carrying.ResigningDoes` | runner/src/infrastructure/governance.rs:1478-1504 | resigning frees the seat iff two are left, and voids the removal it makes moot |
| `BreakGlass.Latch.Snapshot` | runner/src/authz.rs:186-203 | the latch's answer and when it seals |
| `BreakGlass.HistoryIsSound` | runner/src/authz.rs:145-154 | over every history of fund and overlapping snapshots a sealed latch, or a snapshot about to seal one, means a seated fund |
| `BreakGlass.LatchIsNeverWrong` | runner/src/authz.rs:145-154 | each snapshot is answered as an unlatched reading taken when it began would be |
| `BreakGlass.NobodyElevatedOnceSeated` | runner/src/authz.rs:186-227 | once the fund has been seated no snapshot begun afterwards elevates anybody, of any process, however late it answers |
| `BreakGlass.ElevatedExactly` | runner/src/authz.rs:186-227 | a snapshot elevates exactly the listed subjects, and exactly when the register it was shown was empty |
| `BreakGlass.SnapshotDoes` | runner/src/authz.rs:186-227 | a snapshot from its start to its answer: what it is shown, what it answers, and when its process latches |
| `RefreshStore.ReplacedSecretEndsFamily` | auth/src/management.rs:207-240 | the secret a rotation replaced is recognised as reuse, and spending it ends the family for both holders (section 4.14.2 of RFC 9700) |
| `RefreshStore.ReuseReachesOneRotation` | auth/src/management.rs:216-239 | only the current secret and the one it replaced are recognised; an older one changes nothing |
| `RefreshStore.InProcessRefreshStore.Rotate` | auth/src/management.rs:207-240 | rotation on the map, reuse dropping the family |
| `RefreshStore.InProcessRefreshStore.Inspect` | auth/src/management.rs:243-266 | classification without rotating |
| `RefreshStore.RedisRefreshStore.Issue` | auth/src/management.rs:358-397 | hash, expiry, index entry and index expiry |
| `RefreshStore.RedisRefreshStore.Rotate` | auth/src/management.rs:399-437 | the script's verdict, and the wipe that follows a reuse |
| `RefreshStore.RedisRefreshStore.Inspect` | auth/src/management.rs:450-479 | classification from the hash |
| `RefreshStore.RedisRefreshStore.Revoke` | auth/src/management.rs:481-489 | dropping a family through its stored owner |
| `RefreshRefinement.MapThroughView` | auth/src/management.rs:175-278 | in process, an operation answers and acts on the live families alone |
| `RefreshRefinement.RedisThroughView` | auth/src/management.rs:358-504 | on Redis, an operation answers and acts on its view as the in-process one would, expiry and pruning included |
| `RefreshRefinement.RedisRefinesInProcess` | auth/src/management.rs:74-80 | every admissible run gives the same answers on both backends, however keys expire in between |
| `RefreshRefinement.ReuseVerdictIsFinal` | auth/src/management.rs:207-240 | in process, once a rotation has met reuse every later rotation and inspection of the family is refused, by any task at any reading |
| `RedisInterleavings.NoOrphanExactly` | auth/src/management.rs:358-391 | over any interleaving, whatever each sender's clock read, every family is in its owner's index and outlived by it at every command iff each issue landed with a cap no earlier than its user's others |
| `RedisInterleavings.IssueCoversExactly` | auth/src/management.rs:362-388 | one issue keeps the index covering iff its own reading plus the session length is no earlier than the user's other caps |
| `RedisInterleavings.OrderedReadingsSuffice` | auth/src/management.rs:362-364 | from an empty store, under one session length, it is enough that each user's issues land in the order of their readings |
| `RedisInterleavings.RevocationReachesExactly` | auth/src/management.rs:616-626 | the revoke-user script ends a stored family of that user iff the index names it, and leaves any other as it was |
| `RedisInterleavings.RevokedForGood` | auth/src/management.rs:491-504 | a revoke-user script that finds every family indexed ends them for good: whatever lands later, in any order, none issued before is accepted by inspection or rotation at any reading |
| `RedisInterleavings.OrderedRunRevokes` | auth/src/management.rs:493-497 | so does one sent after any run in which each user's issues landed in the order of their readings |
| `RedisInterleavings.OutOfOrderOutlivesRevocation` | auth/src/management.rs:362-391 | two issues landing against their readings, any bounds: the index expires first, the script then changes nothing, and the first family is still inspected current and rotates |
| `RedisInterleavings.ReuseVerdictLeavesWindow` | auth/src/management.rs:422-427 | between the reuse verdict and the wipe the current secret still rotates; in process it does not |
| `RedisInterleavings.WipeEndsFamily` | auth/src/management.rs:564-573 | after the wipe nothing of the family is ever accepted, at any reading |
| `RedisInterleavings.IndexMoves` | auth/src/management.rs:358-391 | whom each user's index names, and until when, after every command |
| `RedisInterleavings.ListingPrunes` | auth/src/management.rs:506-545 | a listing prunes exactly the issued families it did not find |
| `Sessions.HonouredExactly` | auth/src/management.rs:207-266 | in process, after any operations at any readings, a handle is current, and rotates, iff its family was not ended, its secret is the last handed out, and the reading is before issue plus the session, before the last rotation plus the window, and not idle since |
| `Sessions.HonouredOnRedisExactly` | auth/src/management.rs:399-479 | on Redis the same, over every admissible run with its expiry and pruning |
| `Sessions.HonouredInterleavedExactly` | auth/src/management.rs:450-479 | the same in every interleaving of commands, at each sender's own readings, of a family still in the store |
| `Sessions.LeavesExactly` | auth/src/management.rs:564-611 | a family leaves the store iff its cap passes, a rotation finds it out of bounds, it is deleted, or a revoke-user script's index names it |
| `RefreshProtocol.MintsCarryIssueVersion` | auth/src/service.rs:134-144 | in every interleaving each token minted carries its family's issue-time token version |
| `RefreshProtocol.SupersededNeverMints` | auth/src/service.rs:247-255 | once the account's version has moved on and no handler past its look-up holds the old one, no run mints for the family again |
| `RefreshProtocol.WipeEndsMinting` | auth/src/service.rs:165-170 | once a handler's or a logout's wipe of a user has run over a store with every family indexed, no run mints for a family issued to them before, but at most once for each handler already past its rotation |
| `RefreshProtocol.PendingStillMints` | auth/src/service.rs:247-261 | and such a handler, its version unmoved, does mint after the wipe |
| `RefreshProtocol.HandlersNeverOrphan` | auth/src/management.rs:358-391 | a run of handlers whose sign-ins land in the order of their users' caps leaves every family indexed |
| `RefreshProtocol.EachSecretRotatesOnce` | auth/src/service.rs:221-261 | any number of concurrent refreshes rotate each secret successfully at most once |
| `RefreshProtocol.FailedLookupIsRetryable` | auth/src/service.rs:225-243 | a failed directory look-up leaves every family as it was and the same handle presentable, at any later reading |
| `RefreshProtocol.OnlyCommittedStepsTouchStore` | auth/src/service.rs:225-249 | nothing before the rotation touches the store |
| `RefreshProtocol.SignInDoes` | auth/src/service.rs:134-144 | a sign-in starts for a known enabled account, issues one family and mints at the version it saw |
| `RefreshProtocol.InspectDoes` | auth/src/service.rs:221-239 | a current handle goes on, a replayed one is sent to wipe its owner, any other is turned away |
| `RefreshProtocol.LookupDoes` | auth/src/service.rs:241-247 | a failed look-up ends the refresh, a disabled account is to be wiped, any other goes on with its version |
| `RefreshProtocol.RotationDoes` | auth/src/service.rs:249-250 | the script's verdict and its effect, reuse sent to wipe the family |
| `RefreshProtocol.CompareDoes` | auth/src/service.rs:251-261 | a version that moved on is refused and wiped, otherwise the token is minted |
| `RefreshProtocol.WipeDoes` | auth/src/service.rs:165-170 | a wipe sends its one command and ends the handler |
| `AuthServices.AuthService.Refresh` | auth/src/service.rs:221-261 | the handler's exact effect on the store, its reply and what the relying parties are told, in every branch |
| `AuthServices.AuthService.OpenSession` | auth/src/service.rs:134-144 | a session opens iff the account is reachable, known and enabled |
| `AuthServices.AuthService.Logout` | auth/src/service.rs:263-289 | only the current secret ends the family, or every family, here and at the relying parties |
| `AuthServices.RefreshIsItsSteps` | auth/src/service.rs:221-261 | an uninterrupted refresh is the interleaved steps in a row |
| `AuthServices.RefreshesExactly` | auth/src/service.rs:221-261 | a refresh mints iff the handle is current at both its readings, the look-up succeeds, the account is enabled and its version is the family's |
| `AuthServices.RefreshDoes` | auth/src/service.rs:221-261 | every reply with its condition, what is told, and what is left of the store: untouched, rotated, or without the sessions the user's index names |
| `RelyingParty.RelyingParties.ClaimCode` | runner/src/infrastructure/relying_parties.rs:170-231 | burning a presented code, and marking and revoking on a second presentation |
| `RelyingParty.RelyingParties.OpenFor` | runner/src/infrastructure/relying_parties.rs:233-258 | the guarded insert |
| `RelyingParty.RelyingParties.RedeemCode` | runner/src/relying_party.rs:325-394 | the handler is its three steps, and grants exactly when the code redeems and the user passes at its version |
| `RelyingParty.RelyingParties.RotateRefresh` | runner/src/relying_party.rs:396-453 | the handler is its steps; it rotates exactly a live session's current secret for a passing user, and otherwise ends a live session |
| `RelyingParty.RedeemsExactly` | runner/src/infrastructure/relying_parties.rs:170-231 | a presentation redeems iff it is the first, in time, and bound to the same client, redirect and challenge |
| `RelyingParty.OneSessionPerCode` | runner/src/relying_party.rs:325-394 | in every interleaving a code opens at most one session, for the user, client and version it was issued for |
| `RelyingParty.ReplayedCodeHoldsNothing` | runner/src/infrastructure/relying_parties.rs:187-210 | once a stored code has been presented twice no live session of it exists, also when the replay lands between claim and open |
| `RelyingParty.ReplayRecognised` | runner/src/infrastructure/relying_parties.rs:21-23 | in every run a spent code is answered as a replay, whatever its binding, exactly until a code is stored more than a day after the expiry its row has by then |
| `RelyingParty.SessionsRotateOnce` | runner/src/infrastructure/relying_parties.rs:279-296 | each session secret rotates at most once, no session outlives its ceiling, a revoked one never moves |
| `RelyingParty.UpstreamRaceExactly` | runner/src/infrastructure/relying_parties.rs:309-335 | a redemption racing a single logout opens its session iff it read an earlier clock |
| `RelyingParty.SingleLogoutHolds` | runner/src/infrastructure/relying_parties.rs:309-335 | no run, whatever else it redeems and reads, leaves a live session of codes the logout reached, when no redemption of one of them reads an earlier clock |
| `RelyingParty.RevocationSignsOut` | runner/src/infrastructure/relying_parties.rs:309-335 | the logout reaches every matching code ever issued, but those a redemption in flight holds at an earlier reading |
| `RelyingParty.SingleLogoutExactly` | runner/src/infrastructure/relying_parties.rs:309-335 | over all runs after the logout, an unpresented code never gets a live session iff its redemptions read no earlier than the logout, or than the code's own expiry if that came first |
| `ClientSessions.LogoutDoes` | runner/src/infrastructure/relying_parties.rs:309-335 | a logout revokes exactly the sessions of the user, and of the one sign-in when it is named; exactly their codes expire no later than now; nothing else of any row moves |
| `ClientSessions.LogoutSparesOthers` | runner/src/infrastructure/relying_parties.rs:316-321 | codes of other users and sign-ins redeem as before |
| `ClientSessions.PresentationDoes` | runner/src/infrastructure/relying_parties.rs:170-219 | a first presentation spends the code, a later one marks the replay and revokes exactly the sessions of that code |
| `ClientSessions.StoringDoes` | runner/src/infrastructure/relying_parties.rs:140-167 | storing a code adds it for a minute and reaps exactly the rows expired for more than a day |
| `ClientSessions.ClaimDoes` | runner/src/infrastructure/relying_parties.rs:170-231 | a claim leaves a handler holding what the code was issued for iff it redeems |
| `ClientSessions.AdmitRedemptionDoes` | runner/src/relying_party.rs:325-394 | a redemption is admitted iff its user is active at exactly the code's version |
| `ClientSessions.AdmitRefreshDoes` | runner/src/relying_party.rs:396-453 | a refresh is admitted iff its user is active at no newer a version than the session's |
| `ClientSessions.OpenDoes` | runner/src/infrastructure/relying_parties.rs:233-258 | a session opens iff its code stands unreplayed and unexpired at the reading, with the code's terms, for a week and thirty days in all |
| `ClientSessions.ReadDoes` | runner/src/relying_party.rs:396-453 | a live session of the caller's own is read, by its current secret to be admitted, by any other to be revoked |
| `ClientSessions.RotateDoes` | runner/src/infrastructure/relying_parties.rs:279-296 | a rotation moves a standing session on for a week, never past its ceiling, and no other session |
| `ClientSessions.RevokeDoes` | runner/src/infrastructure/relying_parties.rs:298-307 | a revocation touches one session |
| `Permissions.CoversIsInclusion` | iam/src/lib.rs:94-112 | for parsed patterns, containment iff every concrete name the one globs the other globs too |
| `Permissions.Contains` | iam/src/lib.rs:95-112 | the one-pass loop decides that inclusion |
| `Permissions.Matches` | iam/src/lib.rs:90-92 | on a concrete name, matching is the independent glob |
| `Permissions.ContainmentIsPartialOrder` | iam/src/lib.rs:94-112 | containment is reflexive, transitive and antisymmetric on patterns |
| `Permissions.PermissionInclusionExactly` | iam/src/lib.rs:94-112 | over names of three segments and more, when inclusion holds, and the two shapes containment refuses |
| `Permissions.TwoStarsTakeInAsMuch` | iam/src/lib.rs:94-112 | in every namespace `ns:*:*` takes in every permission `ns:*` does, and containment refuses it |
| `Permissions.JoinOfSplit` | iam/src/lib.rs:74 | splitting on the separator loses nothing |
| `Permissions.SplitsExactly` | iam/src/lib.rs:74 | splitting is the one way to write a name as colon-free segments joined by colons |
| `Permissions.ParsesExactly` | iam/src/lib.rs:70-82 | text is a pattern iff it has at most 128 characters, begins with a word, and goes on with at least one word or star |
| `Catalogs.Check` | iam/src/lib.rs:131-160 | the check accepts exactly the bounded catalogs inside their namespace whose delegated aliases delegate nothing |
| `Catalogs.ResolvedStaysInNamespace` | domain/src/iam.rs:70-76 | what any grants resolve to is in the catalog and its namespace |
| `Catalogs.PatternGrantsFollowInclusion` | domain/src/iam.rs:59-66 | a pattern containing another grants at least as much of any catalog |
| `Catalogs.ReservedNamespacesUngrantable` | domain/src/iam.rs:24-45 | no target text of a reserved namespace parses into something that grants |
| `Catalogs.CheckedSays` | iam/src/lib.rs:131-160 | the check's bounds, shapes and delegation rule, spelled out over the words of each name |
| `Catalogs.ResolvesExactly` | domain/src/iam.rs:70-76 | a user may do exactly what a target they hold names, or everything where granting seats hold all |
| `Catalogs.DelegatesExactly` | domain/src/iam.rs:78-80 | and delegate exactly what the catalog lets such a target delegate |
| `Delegation.GrantTable.AuthorityIn` | runner/src/infrastructure/grants.rs:183-212 | whose authority a request carries |
| `Delegation.GrantTable.GrantTo` | runner/src/infrastructure/grants.rs:247-325 | the grant transaction, each refusal in its order |
| `Delegation.GrantTable.RevokeFrom` | runner/src/infrastructure/grants.rs:327-360 | the revoke transaction |
| `Delegation.AuthorityExactly` | runner/src/infrastructure/grants.rs:198-212 | an active actor is a seat iff elevated or seated to grant, a delegate iff a grant they hold in the namespace delegates the target |
| `Delegation.GrantsExactly` | runner/src/infrastructure/grants.rs:247-325 | Granted is answered iff the actor has authority so addressed, the catalog defines the target and one other active account is named; then that row stands and no other moved, and any other answer moves none |
| `Delegation.RefusalsExactly` | runner/src/infrastructure/grants.rs:262-301 | each refusal with its exact condition; only a seat learns why |
| `Delegation.GrantedIsUsable` | runner/src/infrastructure/grants.rs:308-318 | after a grant the user holds the target and may do everything it names |
| `Delegation.RevokesExactly` | runner/src/infrastructure/grants.rs:327-360 | Revoked is answered iff the actor has authority and the row stands, and takes away that row alone |
| `Delegation.RevokingUndoesGranting` | runner/src/infrastructure/grants.rs:327-360 | the same actor can take a grant back at once, and a new one leaves no trace |
| `Delegation.DelegationIsClosed` | runner/src/infrastructure/grants.rs:198-360 | no run of delegates' grants and revocations changes who holds a delegating alias, or touches a grant out of reach |
| `Delegation.PowerToDelegateIsFixed` | domain/src/iam.rs:78-80 | so what each user may delegate is the same after the run |
| `Delegation.NobodyGainsBeyondReach` | domain/src/iam.rs:70-80 | a permission gained in the run comes from an alias somebody could already delegate |
| `Publishing.Collect` | runner/src/relying_party.rs:293-308 | the published lists become a catalog saying the same, refused iff a name repeats |
| `Publishing.Shelf.Publish` | runner/src/relying_party.rs:284-323 | the handler's outcome and history: a publication too far ahead, repeating a name or failing the check is refused; otherwise the stored history decides |
| `Publishing.HistoryAdvances` | runner/src/infrastructure/grants.rs:427-461 | over any publications, good or bad, in any order: every stored catalog was stated by an accepted one and passed the check, and stored versions strictly rise |
| `Publishing.StoredIsNewest` | runner/src/infrastructure/grants.rs:427-461 | and none accepted carries a higher version than the one stored last |
| `Publishing.RepublishingIsIdempotent` | runner/src/infrastructure/grants.rs:442-449 | repeating a publication changes nothing; any other at or below its version is stale |
| `Publishing.PublishDoes` | runner/src/relying_party.rs:284-323 | each outcome with its exact condition, and what is stored after it |
| `Users.CommandKeeps` | domain/src/users.rs:551-597 | every command keeps the caps and the log honest; only session revocations move the token version |
| `Users.LogTellsStanding` | domain/src/users.rs:515-563 | over every run SUSPENDED and REINSTATED strictly alternate and the last says whether the account is frozen |
| `Users.VerdictStands` | domain/src/users.rs:504-529 | the owners' verdict outlives every hold, lapse and admin reinstatement |
| `Users.SeatsAreNotHeldFromBelow` | domain/src/users.rs:463-480 | no run of presses by anyone below an owner freezes an account holding an admin or owner seat |
| `Users.HoldEndsExactly` | domain/src/users.rs:515-563 | which commands end a live hold and which of them record its end |
| `Users.StandingMoves` | domain/src/users.rs:463-563 | who stands frozen after each command, and why: the owners' act lifts anything, one admin's anything but their verdict, a hold lapses at its deadline, and each refusal of a hold |
| `Users.ProfileMoves` | domain/src/users.rs:366-404 | what each command does to the address, name, level, seat and token version |
| `Users.EventsTell` | domain/src/users.rs:593-597 | which event a command emits, exactly when its change happened, and how far the row counter rises |
| `Users.RawBrakeForgetsTheHold` | domain/src/users.rs:441-443 | the raw brake over a hold lets the next one follow without a pause |
| `Users.Account.constructor` | domain/src/users.rs:310-329 | a provisioned account and its first event |
| `Users.Account.PlaceHold` | domain/src/users.rs:469-502 | a hold and its three refusals, in order |
| `Users.Account.EnableAt` | domain/src/users.rs:515-529 | lifting, and dating the hold's end no later than its deadline |
| `Users.Account.Lapse` | domain/src/users.rs:537-546 | a due hold falls away, and only a due hold |
| `Users.Account.SuspendAs` | domain/src/users.rs:551-558 | the one writer of a freeze |
| `Users.Account.ChangeEmailTo` | domain/src/users.rs:373-386 | a verified address is never downgraded |
| `Users.Account.GrantKycLevel` | domain/src/users.rs:568-581 | the level's bound and its verified-email condition |
| `Users.Account.TakenOver` | domain/src/users.rs:401-404 | verifying and revoking in one act |
| `HoldBudget.HoldsStayWithinBudget` | domain/src/users.rs:163-178 | holds last at most a day, start a cooldown after every earlier one ended, and fill at most a day of any eight, at `i64` readings in any order whose lifts lag no more than the cooldown behind an earlier press |
| `HoldBudget.WithinDayExactly` | domain/src/users.rs:163-178 | a day in any eight bounds every account, run and window iff lifts lag behind earlier presses by no more than the cooldown |
| `HoldBudget.PendingProposalExtends` | domain/src/users.rs:482-494 | a press under an open proposal extends the hold, and only such a press |
| `Mirror.PageIsNextRows` | runner/src/bridge.rs:104-122 | a page is exactly the next rows: as many as were asked for, between one and five hundred, or all that are left |
| `Mirror.PullAll` | runner/src/bridge.rs:100-123 | paging from the beginning with arbitrary limits ends, having read every row exactly once in order |
| `Mirror.RedeliveryChangesNothing` | contracts/proto/concierge/v1/events.proto:72-76 | rows delivered again change nothing in the mirror |
| `Mirror.DrainedFolds` | runner/src/infrastructure/users.rs:949-997 | a transaction's rows, numbered back from the final counter, are all applied and leave its final snapshot |
| `Mirror.CaughtUpReaderAgrees` | runner/src/infrastructure/users.rs:949-997 | after any transactions, rollbacks, pages and lost places a reader with nothing left to pull sees every account's frozen flag, seat, level and token version as they stand, and its address as of its last event; sequences strictly rise per account |
| `Mirror.WritesDo` | runner/src/infrastructure/users.rs:949-997 | a transaction commits all its commands or none, and appends its events in order, positioned, numbered and stamped |
| `Codes.CodeTable.IssueCode` | runner/src/infrastructure/credentials.rs:126-172 | the throttle, the burning of predecessors and the insert |
| `Codes.CodeTable.RedeemCode` | runner/src/infrastructure/credentials.rs:70-107 | each refusal, and the counted comparison |
| `Codes.AcceptsExactly` | runner/src/infrastructure/credentials.rs:68-107 | a presentation is accepted iff the last code issued for its address, purpose and user is the one presented, unspent and in time |
| `Codes.IssueDoes` | runner/src/infrastructure/credentials.rs:126-172 | a code is sent iff fewer than five were in fifteen minutes; it is live for ten minutes and spends its predecessors alone |
| `Codes.LiveRedeemDoes` | runner/src/infrastructure/credentials.rs:85-107 | a guess at a live code in time is counted whatever it says, and spends it by a match or as the fifth |
| `Codes.SpentRedeemDoes` | runner/src/infrastructure/credentials.rs:70-84 | without a live code nothing is compared |
| `Codes.SentCodeOpens` | runner/src/infrastructure/credentials.rs:68-107 | the code just sent is accepted within its ten minutes, and nothing after it is |
| `Codes.GuessBudget` | runner/src/ports.rs:1280-1287 | in every run, whatever order its readings come in: at most five codes per address per window, one live per scope, five guesses, all before expiry, and one match per code |
| `Codes.ComparisonBudget` | runner/src/ports.rs:1280-1287 | fifteen minutes allow twenty-five comparisons against an address for each window it takes to cover them, a code's lifetime and the lag of redemptions behind the issues of their codes |
| `Codes.FiftyExactly` | runner/src/ports.rs:1280-1287 | so fifty bound every run, address and fifteen minutes iff no redemption lags behind its code's issue by more than 301 seconds |
| `Codes.SixDigits` | runner/src/infrastructure/credentials.rs:38-49 | rejection sampling takes the first draw below the limit |
| `Codes.NoCodeIsLikelier` | runner/src/infrastructure/credentials.rs:37-49 | every code is given by exactly 4294 accepted draws |
| `SingleFlight.ReapsExactlyTheIdle` | runner/src/web/single_flight.rs:34-37 | reaping keeps an entry iff somebody holds or awaits its key |
| `SingleFlight.Exclusion` | runner/src/web/single_flight.rs:29-41 | under any interleaving no two tasks hold the turn for one key |
| `SingleFlight.TurnIsByKey` | runner/src/web/single_flight.rs:29-41 | a waiting task may take its turn iff nobody holds its key |
| `SingleFlight.MapHoldsKeysInFlight` | runner/src/web/single_flight.rs:34-38 | after every request the map names exactly the keys in flight |
| `SingleFlight.AskingDoes` | runner/src/web/single_flight.rs:29-41 | a task that asks waits on the lock its key's other tasks share, and on no other key's |
| `SingleFlight.GrantingAndDroppingDo` | runner/src/web/single_flight.rs:29-41 | a grant and a drop move one task |
| `SingleFlight.KeyedLocks.Retain` | runner/src/web/single_flight.rs:37 | the in-place sweep removes exactly the unreferenced entries |
| `SingleFlight.KeyedLocks.Acquire` | runner/src/web/single_flight.rs:32-39 | reap, look up, clone |
| `RateLimiter.Limiter.HitAt` | runner/src/notification.rs:118-141 | one call on the map, pruned on the way in |
| `RateLimiter.PrunedEqualsUnpruned` | runner/src/notification.rs:125-129 | on a clock that does not go back every answer is an unbounded table's |
| `RateLimiter.ClockGoingBackForgets` | runner/src/notification.rs:118-141 | a run in which the clock steps back one bucket and a spent key passes again |
| `RateLimiter.AnswersExactly` | runner/src/notification.rs:118-141 | on a clock that does not go back a call passes iff the spends of its key in the present bucket are within the budget, modulo 2^32 |
| `RateLimiter.BucketBudget` | runner/src/notification.rs:99-101 | on such a clock exactly the first `max` spends of a bucket pass, short of a wrap |
| `RateLimiter.BucketsAreWindows` | runner/src/notification.rs:99-121 | a bucket is one window of the clock, a window of zero being one second |
| `RateLimiter.BudgetWraps` | runner/src/notification.rs:137-140 | the 2^32nd spend of a bucket passes again |
| `LimiterClocks.AnswersOnAnyClock` | runner/src/notification.rs:118-141 | on any clock the limiter answers by the spends since the key was last reset or pruned, an unbounded table by those since it was last reset |
| `LimiterClocks.LosesExactly` | runner/src/notification.rs:125-129 | the two differ iff an earlier call of another key and bucket pruned a count nothing had reset since |
| `LimiterClocks.PruningNeverStricter` | runner/src/notification.rs:125-129 | on any clock, short of a wrap, whatever an unbounded table lets through the limiter lets through |
| `LimiterClocks.AnswerDiffersExactly` | runner/src/notification.rs:125-141 | and an answer differs iff such a count was lost and the limit lies between what is left and what was spent |
| `RateLimiter.SlidingBudget` | runner/src/notification.rs:118-141 | on such a clock any stretch of one window lets at most twice the budget through |

## Left out

- HTTP, gRPC and proto mapping, TLS, configuration, telemetry, mail rendering: no invariant of their own.
- Signing and verifying tokens, password hashing, passkeys, PKCE hashing, constant-time comparison: opaque and injective.
- SQL text: each transaction is one atomic step; a failed database call is a step that did not happen.
- Overflow of the 64-bit version and attempt counters: unbounded here; the limiter's 32-bit count and the `i64` clock arithmetic of holds and lifecycles are modelled as they are.
- The limit of one open proposal per subject: the fund is modelled without it, so its theorems hold of more runs than the store allows.
- The emailed invitation and its self-decision code: the target's answer is taken as given once it reaches the aggregate.
- `list_for_user`, `family_id_of` and `revoke_by_id` answers of the refresh stores, which differ between backends past a family's absolute deadline; the deletions behind them are modelled.
- Device metadata, session listings and the relying parties' client registry.
- KYC cases, the payment-label grammar, profile-field parsers and enum round trips: finite or shallow.
- Which of several spent codes with the same creation second is read when none is live: it decides only between two refusals.
- Whether profile fields parse: taken as given when the profile is replaced.
- The remote reader's own code, which is not in this repository: its folding is modelled from the contract's words on sequence and redelivery, and `Mirror.PullAll` stands in for its polling loop.
- Mirror.CaughtUpReaderAgrees: the address is that of the account's last event, because a change of it emits none; the seat permissions a database trigger stamps on the rows are not part of this model.
- SingleFlight.TurnIsByKey: says when a turn may be taken, not that a fair scheduler hands it out in order.
