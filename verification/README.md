# Vendra, modelled and proved

Vendra is a supplier and procurement application: Go handlers over PostgreSQL. Most handlers are thin, but several
are protocols between people who act at the same time, or rules whose parts must agree. This project models those in
Dafny and proves what they promise. A table is a map or a sequence, a handler is one step or one step for each of its
SQL statements, and time is an integer that never goes back.

`dafny verify dfyconfig.toml` checks everything.

## The modules

- `Approval`, `ApprovalRuns`, `ApprovalHandlers`: the approval engine. `Approval` has the tables and what each statement
  does to them. `ApprovalRuns` interleaves submissions, bank account changes and decisions statement by statement, with
  row locks, rule edits, role edits, setting changes and failures anywhere. `ApprovalHandlers` has the handlers as whole
  steps, as a class whose methods issue the same statements, and the lemmas that tie the two levels together.
- `ApprovalStrands`: which interleavings of a submission, a PATCH and a decision leave an object reading
  `pending_approval` with no approval open, and where an approval word comes from, statement by statement.
- `ApprovalOutcomes`: what the statements bring about: that approved accounts are paid, which rule an approval follows,
  and that success is told exactly when it was written.
- `Tender`, `Scoring`: one tender with its participants, bids and awards, and the comparison it is decided from.
- `Permissions`, `ApiKeys`, `ApiKeyOutcomes`, `Organizations`: wildcard permissions and what roles, keys and tokens derive
  from them, with what each handler leaves in the tables; the organisation tree, its materialised path and the data scopes.
- `LoginGuard`, `LoginRaces`, `AIBudget`, `Deliveries`: the sign-in throttle with its retention sweep, the same with
  many sign-ins between check and record, the hourly budget of model calls, and the delivery queue.
- `Migrations`, `Invitations`: replicas under an advisory lock, and redeeming an invitation against recalling it.
- `Recency`, `Recorder`, `Nonce`, `Disposition`, `DispositionNames`: the bounded recorder against "the last 100 distinct
  keys", the nonce injector, and the Content-Disposition header with what its two names keep of the original.

Some rows carry history: facts the program does not store, kept so that a property can be stated about them. They are
named where they are declared: the roles an actor held when a step was checked, the account a supplier was registered
with, the permissions a key was first cut from, the link an account was made with, the company an invitation was issued
for, and how many calls were on record when a request passed its check. No step reads them.

## What turned out otherwise

- The permission matcher is not transitive for words with a wildcard at both ends. `ApiKeys.StarDotStarEscapes` gives the
  one such word a role may hold; the exact condition is `Permissions.LimitsExactly` and `ApiKeys.AcceptedIsCleanExactly`.
- Two statements of a submission, and two of a PATCH, let a decision in between, and an object can then read
  `pending_approval` for good with no approval open: a decision before the submission's mark, a first approval before a
  failed submission deletes its instance, or a PATCH that restates the word too late (`ApprovalStrands.DecisionCanStrand`,
  `ApprovalStrands.LatePatchPutsBack`, each from the start). `ApprovalStrands.CarefulRunsStrandNothing` says which
  schedules are safe, and `ApprovalStrands.CarefulExactly` that the condition on an event is exact; on a run, the exact
  condition is `ApprovalStrands.NeverStrandsExactly`.
- Likewise a PATCH can put back a word a decision has just replaced. When one statement does so is
  `ApprovalStrands.GivenExactly`; over whole handlers it cannot happen (`ApprovalHandlers.OwnedWordsHaveAnAuthor`).
- A recall can be told that a link was used when in fact another recall withdrew it (`Invitations.SaidAcceptedExactly`).
- With two adapters of one name, the first enabled and the last not, the delivery queue stalls on their rows
  (`Deliveries.NeverStallsExactly`).
- With more calls on record than the limit, the Retry-After of the AI budget can be too short: a run is
  `AIBudget.RetryAfterCanBeTooShort`, the exact condition `AIBudget.WaitIsEnoughExactly`.
- Once a tender's currency is edited, a bid can keep the old unit beside new figures (`Tender.UnitCanDrift`); when unit
  and tender agree is `Tender.UnitAgreesExactly`.
- Sign-ins that all read before one of them records exceed the limit of the lockout by up to their number less one
  (`LoginRaces.WindowCanBeFull`). If the lockout is as long as the window they exceed it by no more; otherwise
  `LoginRaces.WindowIsBounded` allows as many again for every lockout that fits into the window.

## Model

| member | source | states |
|---|---|---|
| `ApprovalRuns.AccountsComeFromApprovals` | internal/httpapi/suppliers.go:476-528 | in every run that keeps both settings on, a supplier's stored account is the registered one, or the one asked for in a change whose instance is approved with one approval per snapshotted step, each by an actor entitled to that step |
| `ApprovalRuns.OnlyApprovalsWrite` | internal/httpapi/workflows.go:437-439 | with both settings on, the only statement that changes an account is the commit of the last approval of a change for that supplier, and it writes the account that very change asked for |
| `ApprovalRuns.ChangeIsFixed` | internal/httpapi/suppliers.go:510-510 | no statement of any request rewrites what an account change asks for, or for whom |
| `ApprovalRuns.OffSkipsTheApproval` | internal/httpapi/suppliers.go:485-528 | with either setting off the account is written directly, so the condition on the two settings cannot be dropped |
| `ApprovalRuns.DirectNeedsSettingOff` | internal/httpapi/suppliers.go:485-519 | no request gets past the approval while both settings read as on |
| `ApprovalRuns.LogIsInStep` | internal/httpapi/workflows.go:359-439 | whatever interleaves, an instance's action log matches it: approvals at exactly 0 to current_step - 1 while pending, at every step when approved, and one closing action after them when rejected or returned |
| `Approval.DecisionKeepsInStep` | internal/httpapi/workflows.go:410-432 | one decision by an entitled actor keeps the log in step; a final approval leaves current_step where it is |
| `Approval.ApprovedIsFull` | internal/httpapi/workflows.go:422-432 | approved means exactly one approval for each snapshotted step, in order |
| `ApprovalRuns.NobodyDecidesTheirOwn` | internal/httpapi/workflows.go:398-409 | while self-approval stays blocked, no approve or reject in any log is by the requester |
| `ApprovalRuns.NeverStranded` | internal/httpapi/workflows.go:21-31 | rule edits never leave a pending instance that no decision is accepted on: a holder of "*" can return it |
| `ApprovalRuns.OnePending` | internal/httpapi/objects.go:485-514 | however submissions interleave, an object has at most one pending instance |
| `ApprovalRuns.AlreadySubmittedIsTrue` | internal/httpapi/objects.go:485-515 | "already submitted" names an instance of that object that was pending when it was read |
| `ApprovalRuns.ActionsAreBounded` | internal/httpapi/workflows.go:359-447 | from any moment it is pending, an instance takes at most |steps| - current_step further actions, in every continuation of the run |
| `ApprovalOutcomes.ApprovedWasPaid` | internal/httpapi/workflows.go:437-439 | over every run an approved account change was paid: the event that approved it left the supplier it was asked for, who is on record, with the account it asked for |
| `ApprovalOutcomes.CommitPays` | internal/httpapi/workflows.go:410-439 | the commit of a change's last approval, whatever the number of steps, writes the account asked for to that supplier; no other commit touches an account |
| `ApprovalOutcomes.EachStepWasApproved` | internal/httpapi/workflows.go:384-432 | after every run each step of an approved instance has its own approval, by an actor who held the step's role when it was checked or had "*" |
| `ApprovalOutcomes.EntitlesByHeldRoles` | internal/httpapi/workflows.go:391-396 | a decision gets past the check only if the step names no role, the actor holds it at that moment, or has "*" |
| `ApprovalOutcomes.SubmissionPicksARule` | internal/httpapi/objects.go:584-606 | a submission goes on with the steps of a rule that is enabled and of the object's type |
| `ApprovalOutcomes.ChangePicksTheNewest` | internal/httpapi/suppliers.go:505-505 | an account change goes on with the steps of an enabled rule for such changes, of the newest version there is |
| `ApprovalOutcomes.EditsReachNoInstance` | internal/httpapi/workflows.go:246-246 | an edited rule is newer than it was and has the new steps; instances already open keep theirs |
| `ApprovalOutcomes.SuccessMeansWritten` | internal/httpapi/objects.go:438-534 | a request is told of success exactly when its statement has written what that success means, for every kind of request |
| `ApprovalOutcomes.ToldWhichIsOpen` | internal/httpapi/objects.go:485-515 | whoever finds an approval open, before inserting or after losing the race, is told which; a loser who finds none is told of failure |
| `ApprovalStrands.CarefulRunsStrandNothing` | internal/httpapi/objects.go:500-523 | statement by statement, over every run: no routed object is left reading pending_approval without an open instance, if no decision commits on an instance whose submission has neither marked the object nor given up (one that settles an instance being taken back is harmless), and a PATCH writes pending_approval only while the object still reads it or has an instance nobody is opening |
| `ApprovalStrands.CarelessCanStrand` | internal/httpapi/objects.go:500-523 | after a careful run, any event that breaks the condition is followed by careful statements of requests already there, and of no others, that leave the object it is about in approval with no approval open |
| `ApprovalStrands.CarefulExactly` | internal/httpapi/objects.go:500-523 | the condition is exact: after a careful run an event meets it if and only if no continuation by careful statements of requests already there leaves any object stranded |
| `ApprovalStrands.NeverStrandsExactly` | internal/httpapi/objects.go:500-523 | a run strands an object exactly when it contains a mark or a PATCH of pending_approval that finds no open instance, or a cleanup that deletes the instance of an object reading pending_approval |
| `ApprovalStrands.StrandsExactly` | internal/httpapi/objects.go:518-523 | the same for one event: the three statements, with what each would find, are all there is |
| `ApprovalStrands.DecisionCanStrand` | internal/httpapi/objects.go:507-523 | from every start where an object can be submitted: after any decision the self-approval policy lets through that commits between INSERT and UPDATE, or a first approval of several between a failed UPDATE and the DELETE, careful statements of requests already there leave that object in approval with no approval open |
| `ApprovalStrands.LatePatchPutsBack` | internal/httpapi/objects.go:387-438 | from every such start a PATCH that read a word and writes it after a decision settled the approval puts that word back; for pending_approval the object is stranded |
| `ApprovalStrands.GivenExactly` | internal/httpapi/objects.go:203-217 | one statement: a routed object comes to read an approval word exactly when a submission or a decision writes it, or a PATCH lands after the object stopped reading the word it restates |
| `ApprovalStrands.WordsWereGiven` | internal/httpapi/objects.go:203-217 | over every run of single statements, an approval word a routed object reads was there at the start or a submission of it or a decision on it wrote it |
| `Approval.OpenKeepsSound` | internal/httpapi/objects.go:507-507 | an INSERT past the partial unique index keeps logs in step and open approvals apart |
| `Approval.DecideKeepsSound` | internal/httpapi/workflows.go:410-439 | the decision transaction keeps logs in step, open approvals apart, and an account change's status equal to its instance's |
| `Approval.StatusFollowsDecision` | internal/httpapi/workflows.go:411-436 | a decision writes the object's status and no other object's: rejected, returned, approved after the last step, and pending_approval before it |
| `Approval.PaysExactly` | internal/httpapi/workflows.go:437-439 | one decision: an approval of the last step of an account change writes the account asked for, and no other decision writes any |
| `Approval.RecordsExactly` | internal/httpapi/workflows.go:410-432 | one decision is appended to the log; an approval before the last step moves on by one and anything else settles as decided |
| `Approval.DecideKeepsAccounted` | internal/httpapi/workflows.go:437-439 | the decision transaction leaves every supplier's account accounted for by its registration or a full approval |
| `Approval.WithdrawKeepsSound` | internal/httpapi/objects.go:523-529 | the cleanup of a failed submission leaves the rest of the engine sound |
| `ApprovalHandlers.NoWayAround` | internal/httpapi/objects.go:203-217 | a create, a PATCH, a portal create, an award or a confirmation leaves an object in an approval word only if the object already held it |
| `ApprovalHandlers.OwnedWordsHaveAnAuthor` | internal/httpapi/objects.go:203-217 | over every run of whole handlers, mixed as they come: an object reads an approval word only if it did so at the start and ever since, or a submission of it, a decision on it or the account change that created it is an event before which it did not read the word and since which it has |
| `ApprovalHandlers.OthersWriteNone` | internal/httpapi/objects.go:203-217 | an event that is no submission of, decision on or account change creating this very object leaves it in an approval word only if it already read that word |
| `ApprovalHandlers.PaddingDoesNotHelp` | internal/httpapi/objects.go:210-217 | an approval word is refused on create whatever white space surrounds it, and on PATCH exactly when the object does not hold it |
| `ApprovalHandlers.NamedIsInjective` | internal/httpapi/objects.go:203-217 | comparing statuses as words is comparing their texts |
| `ApprovalHandlers.RunKeepsWhole` | internal/httpapi/objects.go:450-534 | over every run of whole handlers the engine stays sound and no routed object reads pending_approval without an open instance |
| `ApprovalHandlers.DecisionAlone` | internal/httpapi/workflows.go:334-447 | the statements of a decision that nothing interrupts do what the handler does as one step |
| `ApprovalHandlers.SubmitAlone` | internal/httpapi/objects.go:450-534 | the statements of a submission that nothing interrupts do what the handler does as one step |
| `ApprovalHandlers.PatchAlone` | internal/httpapi/objects.go:384-438 | the read and the write of a PATCH that nothing interrupts do what the handler does as one step |
| `ApprovalHandlers.ChangeAlone` | internal/httpapi/suppliers.go:476-528 | the statements of an account change that nothing interrupts do what the handler does as one step |
| `ApprovalHandlers.AnswersExactly` | internal/httpapi/workflows.go:353-409 | a decision is refused exactly for a missing instance, one already settled, a role the actor does not hold without "*", or a blocked decision on one's own request, in this order; otherwise it is accepted, and settles at the last step or when it is no approval |
| `ApprovalHandlers.DecidesExactly` | internal/httpapi/workflows.go:410-439 | an accepted decision is the transaction with the roles the actor holds; a refused one changes nothing |
| `ApprovalHandlers.FollowsItsRule` | internal/httpapi/workflows.go:21-31 | an instance stored without steps is decided by the steps of its rule |
| `ApprovalHandlers.SubmitsExactly` | internal/httpapi/objects.go:459-534 | a submission approves the object at once when approvals are off or no rule matches, changes nothing when an approval is open, and otherwise opens one with the rule's steps, in the requester's name |
| `ApprovalHandlers.AsksExactly` | internal/httpapi/suppliers.go:485-528 | a new account is written at once unless both settings are on; then it waits on a change of its own, which names supplier, account and requester |
| `ApprovalHandlers.CreatesExactly` | internal/httpapi/objects.go:203-291 | a created object reads the text stated, trimmed, or draft; the four texts of approvals are refused |
| `ApprovalHandlers.PatchesExactly` | internal/httpapi/objects.go:387-438 | a PATCH writes the status and supplier stated, keeps what is not stated, and is refused exactly for one of the four texts that the object does not read |
| `ApprovalHandlers.AwardsWriteTheirWords` | internal/httpapi/sourcing.go:728-776 | the words the sourcing handlers put on an object: open, preferred_negotiation, selected, and confirmed on one that is approved or sent |
| `ApprovalHandlers.ValidSteps` | internal/httpapi/workflows.go:146-165 | a list of steps is accepted exactly when it has one and every name is more than white space, and each step is numbered by its place |
| `ApprovalHandlers.MatchesExactly` | internal/httpapi/objects.go:610-643 | a rule matches exactly when every condition it states is met: the amount bounds, a missing amount counting as zero, the organisation, the risk level, the risk list, and each wanted detail |
| `ApprovalHandlers.MatchingWorkflow` | internal/httpapi/objects.go:584-650 | the rule a submission gets is the first that matches in the order of versions: its organisation, risk and detail conditions are met by the object, no newer one matches, and none is answered exactly when none matches |
| `ApprovalHandlers.AmountsRoute` | internal/httpapi/objects.go:610-622 | rules whose amount ranges do not meet never both match, and an object without an amount counts as zero |
| `ApprovalHandlers.MatchesBetween` | internal/httpapi/objects.go:610-622 | a rule that matches at two amounts matches at every amount between |
| `ApprovalHandlers.Engine.Submit` | internal/httpapi/objects.go:450-534 | the statements of a submission carry the tables to the state the specification says |
| `ApprovalHandlers.Engine.Act` | internal/httpapi/workflows.go:334-447 | a decision is refused for the first reason that applies and changes nothing, or does the whole transaction |
| `ApprovalHandlers.Engine.Record` | internal/httpapi/workflows.go:410-439 | the four statements of a decision add up to one transaction |
| `ApprovalHandlers.Engine.ChangeAccount` | internal/httpapi/suppliers.go:476-528 | a new account is written at once when a setting is off, and otherwise only asked for |
| `ApprovalHandlers.Engine.CreateObject` | internal/httpapi/objects.go:219-291 | a new object takes the status stated, or draft, unless it claims an approval word |
| `ApprovalHandlers.Engine.PatchObject` | internal/httpapi/objects.go:384-448 | a PATCH writes the status stated, or keeps it, unless it claims an approval word the object does not hold |
| `Tender.OneWinner` | internal/httpapi/sourcing.go:733-755 | over every run at most one participant is selected; its bid is submitted and is the response of the final selection |
| `Tender.StandingsAgree` | internal/httpapi/sourcing.go:216-363 | after every run draft and submitted equal the bid's own status, declined means no bid or a draft, invited means none, and a submitted bid has an amount |
| `Tender.StepKeepsInv` | internal/httpapi/sourcing.go:216-336 | every handler keeps each participant's standing in agreement with its bid: draft and submitted equal the bid's own status, invited has none, declined none or a draft, selected a submitted one that the final selection names |
| `Tender.RunKeepsInv` | internal/httpapi/sourcing.go:107-158 | after every run from a tender nobody has been invited to, standings, bids and selections agree |
| `Tender.ClosedBidIsFixed` | internal/httpapi/sourcing.go:236-248 | while a participant is selected or not selected, no step touches its bid |
| `Tender.OnlyAwardsMoveTheAnswered` | internal/httpapi/sourcing.go:324-328 | a standing the award wrote is moved by nothing but an award |
| `Tender.AwardStands` | internal/httpapi/sourcing.go:685-768 | after a final award, until the next award, the winner stays selected with the bid as it was, and everybody who took part stays turned down |
| `Tender.PreferredMayRevise` | internal/httpapi/sourcing.go:243-248 | the preferred bidder may save before the deadline, and stays preferred |
| `Tender.PreferredLeavesOthers` | internal/httpapi/sourcing.go:733-755 | a preferred award moves only the bidder it names, and neither a bid nor the final selection |
| `Tender.SaveIsStored` | internal/httpapi/sourcing.go:319-328 | a save stores exactly what was offered under the response's own id and touches no other bidder |
| `Tender.AnswersExactly` | internal/httpapi/sourcing.go:221-303 | a save is refused exactly for these reasons in this order: not invited, past the due date, declined, finally answered, a figure out of range or a submission without an amount, another currency |
| `Tender.LateChangesNothing` | internal/httpapi/sourcing.go:103-105 | after the due date neither a save nor an invitation changes anything |
| `Tender.TimelyIsTaken` | internal/httpapi/sourcing.go:228-336 | up to and on the due date a bidder who is invited, drafting, submitted or preferred gets an offer in range stored |
| `Tender.DeadlineSeals` | internal/httpapi/sourcing.go:228-231 | over every run in which the due date is past and stays, no bid changes |
| `Tender.SavesExactly` | internal/httpapi/sourcing.go:311-328 | a save leaves a preferred bidder preferred and any other at draft or submitted, and a bid in its old unit only when it states none |
| `Tender.InvitesExactly` | internal/httpapi/sourcing.go:107-158 | an invitation is refused when late, for nobody, or beyond the buyer's scope; otherwise the tender is open and exactly the suppliers named are added as invited |
| `Tender.DeclinesExactly` | internal/httpapi/sourcing.go:343-367 | declining moves an invited or drafting bidder to declined and does nothing else |
| `Tender.AwardsExactly` | internal/httpapi/sourcing.go:704-755 | an award needs the submitted bid of the bidder named; a final one makes that bidder selected and all others not selected, a preferred one moves that bidder alone, with the status and the selection that go with it |
| `Tender.TwoCanBePreferred` | internal/httpapi/sourcing.go:745-755 | two participants can both read preferred |
| `Tender.OneUnit` | internal/httpapi/sourcing.go:300-319 | if a tender's currency is never edited every bid is in it |
| `Tender.UnitMovesWithTheFigures` | internal/httpapi/sourcing.go:311-319 | a bid's currency changes only in a save that states the tender's currency, together with its figures |
| `Tender.SaveAgreesExactly` | internal/httpapi/sourcing.go:311-319 | after an accepted save the bid is in the tender's currency exactly when it is new, states the currency, or already was in it |
| `Tender.UnitIsTheOneSet` | internal/httpapi/sourcing.go:311-319 | over every run a bid's currency is the tender's at its first save or its last save that stated it, whichever came later |
| `Tender.UnitAgreesExactly` | internal/httpapi/sourcing.go:311-319 | so after every run a bid is in the tender's currency exactly when that is the one in force at that save |
| `Tender.UnitCanDrift` | internal/httpapi/sourcing.go:311-319 | an edit of the currency followed by a save that states none leaves the bid in the old unit beside new figures |
| `Tender.Joined` | internal/httpapi/sourcing.go:143-151 | inviting adds the suppliers not yet invited and leaves the standing of the others alone |
| `Tender.SourcingRequest.AddParticipants` | internal/httpapi/sourcing.go:107-158 | inviting is refused for the first reason that applies, or adds exactly the new suppliers and counts them |
| `Tender.SourcingRequest.SaveResponse` | internal/httpapi/sourcing.go:216-336 | saving a bid is refused for the first reason that applies, or stores it and stamps the participant unless the committee has answered |
| `Tender.SourcingRequest.DeclineRequest` | internal/httpapi/sourcing.go:343-367 | declining works from invited and draft only |
| `Tender.SourcingRequest.SelectResponse` | internal/httpapi/sourcing.go:685-768 | an award needs a submitted bid of the tender, and writes the selection, the tender's status and every standing together |
| `Scoring.FinalInScale` | internal/httpapi/sourcing.go:395-406 | with weights that are not negative every final score is between 0 and 100 |
| `Scoring.FullPriceExactly` | internal/httpapi/sourcing.go:404-404 | the price score is 100 exactly for the smallest positive amount |
| `Scoring.FullDeliveryExactly` | internal/httpapi/sourcing.go:404-404 | the delivery score is 100 exactly for the shortest positive delivery |
| `Scoring.FinalExactly` | internal/httpapi/sourcing.go:404-404 | the final score is the weighted mean of five marks: 100 times cheapest over own amount or 0, the supplier's score or 50, 100 times quickest over own days or 50, 100, 70, 30 or 0 by risk, and the mean evaluation or 50 |
| `Scoring.DefaultWeights` | internal/httpapi/sourcing.go:396-403 | weights that add up to nothing count as 30, 20, 15, 15 and 20 |
| `Scoring.SaferIsAhead` | internal/httpapi/sourcing.go:404-404 | of two bids alike but for the supplier's risk the safer one never stands behind, and stands in front when risk has weight |
| `Scoring.RankCounts` | internal/httpapi/sourcing.go:380-380 | a bid's place is the number of bids with a higher final score, or the same and a smaller amount |
| `Scoring.OneWeightDecides` | internal/httpapi/sourcing.go:404-404 | with all the weight on one component the final score is that component: for the risk 100, 70, 30 or 0 by level, and 50 for a quality, delivery or evaluation that is not there |
| `Scoring.LoweringNeverHurts` | internal/httpapi/sourcing.go:380-404 | lowering one's own positive amount never moves one down the comparison |
| `Scoring.LoweringMoves` | internal/httpapi/sourcing.go:404-404 | it lowers no score of one's own and raises nobody else's |
| `Scoring.UnitDoesNotMatter` | internal/httpapi/sourcing.go:404-404 | multiplying every amount by the same positive number changes no score |
| `Scoring.NewcomerDoesNotMatter` | internal/httpapi/sourcing.go:404-404 | another bid that undercuts neither minimum changes no score |
| `Scoring.InForce` | internal/httpapi/sourcing.go:396-403 | the weights in force never add up to nothing, and are not negative if the stored ones are not |
| `Scoring.MinAmount` | internal/httpapi/sourcing.go:404-404 | the smallest amount above zero |
| `Scoring.MinDays` | internal/httpapi/sourcing.go:404-404 | the shortest delivery above zero days |
| `Scoring.Average` | internal/httpapi/sourcing.go:428-447 | an evaluation is the mean of its marks, on the scale; it is refused exactly when there are none or one is off the scale |
| `Permissions.TransitiveExactly` | internal/httpapi/context.go:96-100 | a word hands on nothing it does not itself allow, exactly when it has no wildcard at one of its ends |
| `Permissions.TwoEndedHandsOnTooMuch` | internal/httpapi/context.go:96-100 | every word shaped "*. ... .*" allows a word that allows one it does not |
| `Permissions.MatchesExactly` | internal/httpapi/context.go:87-100 | a word allows itself, "*" everything, "x.*" what starts with "x.", "*.x" what ends with ".x", and nothing else |
| `Permissions.Intersect` | internal/httpapi/mcpoauth.go:389-398 | the permissions of the first list, each also allowed by the second |
| `Permissions.IntersectPermissions` | internal/httpapi/mcpoauth.go:389-398 | the loop computes that intersection, in order |
| `Permissions.IntersectAllows` | internal/httpapi/mcpoauth.go:389-398 | an intersection allows nothing the first list denies, nor anything the second denies if that is clean |
| `Permissions.LimitsExactly` | internal/httpapi/mcpoauth.go:403-412 | a list limits every intersection with it exactly when it has "*" or no word with wildcards at both ends |
| `Permissions.SoundExactly` | internal/httpapi/context.go:87-100 | the same condition decides whether the list allows all that the words it allows do |
| `ApiKeys.AcceptedTwoEnded` | internal/httpapi/auth.go:393-428 | the one word with wildcards at both ends a role may be given is "*.*" |
| `ApiKeys.AcceptedIsCleanExactly` | internal/httpapi/auth.go:435-452 | for a role list that passed the check, the condition is: "*" in it, or no "*.*" |
| `ApiKeys.CreatesNothingMoreExactly` | internal/httpapi/admin.go:824-837 | a creator can cut no key allowing a word the creator lacks, exactly when the creator's list is clean |
| `ApiKeys.StarDotStarEscapes` | internal/httpapi/admin.go:824-837 | a role given "*.*" can cut a key that reads contracts, which the role cannot |
| `ApiKeys.DefaultIsNeverRefused` | internal/httpapi/admin.go:809-818 | a key asked for without scopes is never refused as an escalation |
| `ApiKeys.DefaultOnlyReads` | internal/httpapi/admin.go:809-818 | a key asked for without scopes carries only words that end in .read |
| `ApiKeys.CheckScopes` | internal/httpapi/admin.go:824-837 | a request is refused whole if one trimmed scope is empty or beyond the creator; otherwise the distinct scopes are kept in order of first appearance |
| `ApiKeys.DefaultsOf` | internal/httpapi/admin.go:809-818 | a key asked for without scopes gets *.read if the creator is allowed it, and otherwise the creator's own words ending in .read |
| `ApiKeys.CheckWords` | internal/httpapi/auth.go:435-452 | a role's list is accepted, trimmed, exactly when every word is non-empty and opens some door |
| `ApiKeys.KeyIsBounded` | internal/httpapi/auth.go:194-209 | what a key carries its creator was allowed when it was cut and its roles grant now, each as far as that list is clean |
| `ApiKeys.TokenIsBounded` | internal/httpapi/mcpoauth.go:344-352 | a single sign-on token allows nothing the administrator's list denies, nor what its own words or today's roles deny if they are clean |
| `ApiKeys.ScopeWords` | internal/httpapi/mcpoauth.go:377-385 | the words of a scope claim that are permissions here |
| `ApiKeys.Accounts.UpdateRole` | internal/httpapi/admin.go:351-382 | a role's list changes only to an accepted one, and a system role's never |
| `ApiKeys.Accounts.CreateKey` | internal/httpapi/admin.go:794-862 | a key holds only scopes its creator was allowed, or the request is refused with the first reason that applies |
| `ApiKeys.Accounts.RotateKey` | internal/httpapi/admin.go:864-898 | the new key has the old one's scopes and expiry and the old one stops; only an active key of the caller's is rotated |
| `ApiKeys.Accounts.RevokeKey` | internal/httpapi/admin.go:900-908 | only an active key of the caller's is revoked |
| `ApiKeys.KeysAreBounded` | internal/httpapi/auth.go:194-209 | over every run of role creation, role edits, assignments, key creation, rotation and revocation, a key allows nothing its creator was not allowed when the scopes were cut, if that list was clean, and nothing the account's roles refuse now, if their words are clean; whatever role lists were stored before the check of lists existed. If none of those had a two-ended word but "*.*", clean means: "*" among the words, or no "*.*" |
| `ApiKeys.KeyWasCut` | internal/httpapi/admin.go:864-898 | however often it was rotated, a key has the scopes, creator and expiry of one accepted request of its own user |
| `ApiKeyOutcomes.RolesNowExactly` | internal/httpapi/auth.go:194-209 | an account is granted exactly the words of the roles it holds |
| `ApiKeyOutcomes.CarriesExactly` | internal/httpapi/mcpoauth.go:389-412 | a key carries exactly those of its scopes that a word of a role its account holds now allows |
| `ApiKeyOutcomes.NoRolesNothingCarried` | internal/httpapi/mcpoauth.go:403-412 | after every run, once all roles are taken from an account each of its keys carries nothing |
| `ApiKeyOutcomes.KeyNeedsARole` | internal/httpapi/mcpoauth.go:403-412 | after every run, what no role of the account allows is refused to its keys, if the words it holds are clean |
| `ApiKeyOutcomes.RoleWritesExactly` | internal/httpapi/admin.go:309-382 | a role's list is written, trimmed, exactly when every word of it opens a door, the role is new or is there and not a system role |
| `ApiKeyOutcomes.AssignsExactly` | internal/httpapi/admin.go:258-263 | an assignment leaves the account exactly those of the roles named that exist, and no other account's roles change |
| `ApiKeyOutcomes.ObjectDoors` | internal/httpapi/auth.go:393-428 | each kind of object has the doors read, create, update and amount.read |
| `ApiKeyOutcomes.ScopesExactly` | internal/httpapi/admin.go:824-837 | scopes are stored exactly when every trimmed word asked for is allowed to the creator, and they are those words |
| `ApiKeyOutcomes.DefaultsExactly` | internal/httpapi/admin.go:809-818 | asked for nothing, a key gets *.read if a word of the creator allows it, and otherwise exactly the creator's words that end in .read |
| `ApiKeyOutcomes.CutsExactly` | internal/httpapi/admin.go:794-862 | a key is cut exactly when every word asked for is allowed and it is to live 1 to 365 days; it is the creator's, expires that many days later and holds exactly those words; otherwise nothing changes |
| `ApiKeyOutcomes.RevokesExactly` | internal/httpapi/admin.go:900-908 | a revocation stops an active key of the caller's and does nothing else |
| `ApiKeyOutcomes.RotatesExactly` | internal/httpapi/admin.go:864-898 | a rotation of an active key of the caller's adds the new key as the old one was and stops the old one; any other changes nothing |
| `ApiKeyOutcomes.TokenExactly` | internal/httpapi/mcpoauth.go:344-352 | a token carries exactly the administrator's words that the roles allow and, if its claim names any permission, one of those allows |
| `ApiKeys.RotationMoves` | internal/httpapi/admin.go:864-898 | a rotation moves scopes, expiry and account to the new key, stops the old one and touches no other |
| `ApiKeys.Accounts.CreateRole` | internal/httpapi/admin.go:309-349 | a role is created with an accepted, trimmed list or not at all |
| `ApiKeys.Accounts.AssignRoles` | internal/httpapi/admin.go:258-263 | an account holds exactly the roles assigned to it last |
| `ApiKeys.Accounts.FromKey` | internal/httpapi/auth.go:194-209 | an active key of the current tables allows nothing its creator lacked when it was cut, if that list was clean, and nothing its account's roles refuse now, if theirs are |
| `Organizations.PathExactly` | internal/httpapi/admin.go:443-451 | path||id||"/" of one organisation starts with that of another exactly when it is it or below it by parent |
| `Organizations.DivisionExactly` | internal/httpapi/rows.go:908-913 | the division scope is exactly the subtree |
| `Organizations.LikeIsPrefix` | internal/httpapi/rows.go:908-913 | the LIKE the scope is rendered with asks for a prefix, for patterns without LIKE's own characters |
| `Organizations.ScopesWiden` | internal/httpapi/rows.go:908-913 | department is within division and division within company |
| `Organizations.DivisionsNest` | internal/httpapi/rows.go:908-913 | two divisions that share an organisation are one inside the other |
| `Organizations.ListedExactlyWhatOpens` | internal/httpapi/objects.go:314-334 | a list shows exactly the records that can be opened one by one, for all four scopes |
| `Organizations.OpensExactly` | internal/httpapi/objects.go:314-334 | who may open a record: everybody in company scope, whoever's organisation is at or above the record's in division scope, the same organisation in department scope, the same person in own scope |
| `Organizations.AddedIsUnderItsParent` | internal/httpapi/admin.go:443-451 | a new organisation is under its parent and all above it, and no other relation changes |
| `Organizations.Organizations.Create` | internal/httpapi/admin.go:413-458 | a missing parent is refused, and otherwise exactly one row is added |
| `LoginGuard.WindowBound` | internal/httpapi/loginguard.go:66-75 | m failures recorded in a window W satisfy (m - limit) * lockout < W whenever m > limit, so at most limit if the lockout is as long |
| `LoginGuard.Attempts.FailuresAreBounded` | internal/httpapi/auth.go:225-283 | the bound of WindowBound holds at every moment of every run, for accounts and for addresses |
| `LoginGuard.AdmittedMeans` | internal/httpapi/loginguard.go:66-75 | not locked means the guard is off, fewer failures than the limit in the window, or all of them a lockout ago |
| `LoginGuard.WaitingIsEnough` | internal/httpapi/loginguard.go:66-75 | whoever waits as long as told is let through if nobody else fails meanwhile |
| `LoginGuard.LatestIsMax` | internal/httpapi/loginguard.go:93-112 | the count and the latest of the failures agree, and the latest is their maximum |
| `LoginGuard.LockedExactly` | internal/httpapi/loginguard.go:66-112 | an account is locked by its own limit and an address by its own: exactly when that many failures lie in the window and the latest is less than a lockout ago; the wait told is what is left of that |
| `LoginGuard.VerdictExactly` | internal/httpapi/auth.go:225-243 | a sign-in is turned away for the account first, then for the address if the request has one |
| `LoginGuard.ClearedExactly` | internal/httpapi/auth.go:279-283 | a clearing deletes exactly the failures of the account |
| `LoginGuard.ClearKeepsOthers` | internal/httpapi/auth.go:279-283 | it leaves every other account's count as it was |
| `LoginGuard.SweptExactly` | internal/httpapi/maintenance.go:51-77 | a sweep deletes exactly the rows before its moment |
| `LoginGuard.NormalizedExactly` | internal/httpapi/loginguard.go:33-54 | what each setting out of range becomes |
| `LoginGuard.Protection.Normalized` | internal/httpapi/loginguard.go:33-54 | a setting is clamped into range, in-range settings are kept, and a limit is off only if it was set to zero |
| `LoginGuard.SweepKeepsVerdict` | internal/httpapi/maintenance.go:51-77 | the retention sweep, a day or more back, never changes what the guard decides |
| `LoginGuard.ClearKeepsGuarded` | internal/httpapi/auth.go:279-283 | a sign-in that deletes an account's failures keeps the bound for every other subject |
| `LoginGuard.ClearUnlocks` | internal/httpapi/auth.go:279-283 | a successful sign-in unlocks the account, whatever was tried against it |
| `LoginGuard.Attempts.Login` | internal/httpapi/auth.go:216-294 | a sign-in is answered as if no sweep had ever run, and records or deletes the rows it should |
| `LoginGuard.Attempts.SignIn` | internal/httpapi/auth.go:225-250 | the address typed is trimmed and put in lower case first, so its spellings share one history; nobody signs in with a wrong password |
| `Common.LowerExactly` | internal/httpapi/auth.go:225-225 | lower case makes two spellings one exactly when they differ in the case of ASCII letters |
| `Common.TrimExactly` | internal/httpapi/auth.go:225-225 | trimming takes off the white space at both ends and nothing else |
| `LoginGuard.Attempts.Purge` | internal/httpapi/maintenance.go:51-77 | a sweep deletes what is older than the retention, if there is one, and the guard's answers from then on stay the same |
| `LoginGuard.Attempts.Clear` | internal/httpapi/passwordapi.go:53-53 | deleting an account's failures keeps the table in order |
| `LoginRaces.WindowIsBounded` | internal/httpapi/auth.go:225-293 | with at most k of a subject's sign-ins between check and record at once, limit + q * k failures in a window mean that q lockouts fit into it; fewer than limit + k if the lockout is as long as the window |
| `LoginRaces.WindowCanBeFull` | internal/httpapi/auth.go:225-293 | for every account and every address, every limit and every k some run records limit + k - 1 of its failures at one instant, so the bound for a lockout as long as the window is exact |
| `AIBudget.HourIsBounded` | internal/httpapi/integrations.go:106-128 | with at most k requests at once between check and record, no hour holds more than limit + k - 1 calls |
| `AIBudget.HourIsBoundedInSequence` | internal/httpapi/integrations.go:106-128 | one at a time, no hour holds more than limit |
| `AIBudget.HourCanBeFull` | internal/httpapi/integrations.go:99-128 | for every limit and k some run reaches limit + k - 1, so the bound is exact |
| `AIBudget.RetryAfterIsEnough` | internal/httpapi/integrations.go:121-127 | refused with exactly limit calls counted, a caller who waits as told is admitted if nobody else calls, and one who retries before the oldest ages out is not |
| `AIBudget.AdmittedAgainExactly` | internal/httpapi/integrations.go:106-128 | for any log and any limit: whoever was refused is admitted later exactly when the limit-th newest call is an hour old by then |
| `AIBudget.WaitIsEnoughExactly` | internal/httpapi/integrations.go:121-127 | the wait told, worked out from the oldest call counted, is enough exactly when the limit-th newest call is an hour old by then; the two are the same call when no more than the limit are counted |
| `AIBudget.RetryAfterCanBeTooShort` | internal/httpapi/integrations.go:121-127 | for every limit a run with two requests at once refuses a caller who waits as told, with nobody else calling, and is refused again |
| `AIBudget.UsedIsSuffix` | internal/httpapi/integrations.go:106-120 | the calls counted are the latest ones, and the oldest of them is the first |
| `AIBudget.RefusesExactly` | internal/httpapi/integrations.go:106-128 | a check refuses exactly when a positive limit is used up by calls of the last hour, and tells, to the second, how long until the oldest of them is an hour old |
| `AIBudget.Account.WithinBudget` | internal/httpapi/integrations.go:106-128 | a check refuses exactly when a positive limit is used up, with a positive wait |
| `AIBudget.Account.RecordCall` | internal/httpapi/integrations.go:99-101 | recording counts one more call |
| `Deliveries.AttemptedInTime` | internal/httpapi/notifications.go:207-228 | a waiting row with q waiting rows ahead of it is attempted within 5 * (q / 50) + 1 passes, whatever is scheduled behind it and however many delivered rows the table holds |
| `Deliveries.PassExactly` | internal/httpapi/notifications.go:177-228 | a pass tries exactly the first fifty waiting rows whose name's last adapter is on; each counts one attempt more and is delivered if it was taken, and every other row stays |
| `Deliveries.ConsistentExactly` | internal/httpapi/notifications.go:177-217 | the configurations that never stall: whatever name has an adapter that is on, its last one is on |
| `Deliveries.DrainsInTime` | internal/httpapi/notifications.go:207-228 | five passes for every row leave nothing waiting |
| `Deliveries.FrontIsReached` | internal/httpapi/notifications.go:207-228 | after 5 * (q / 50) passes fewer than fifty rows wait ahead of it |
| `Deliveries.NeverStallsExactly` | internal/httpapi/notifications.go:177-217 | a pass over waiting rows always attempts one, for every table, exactly when no enabled adapter is followed by a disabled one of its name |
| `Deliveries.DistinctIsConsistent` | internal/httpapi/notifications.go:177-184 | with distinct adapter names the configuration is consistent |
| `Deliveries.FrontIsAttempted` | internal/httpapi/notifications.go:207-228 | a waiting row with fewer than fifty waiting before it takes one attempt, and is delivered exactly if that succeeds |
| `Deliveries.OthersAreUntouched` | internal/httpapi/notifications.go:196-217 | a row that is delivered, spent or of an adapter that is off is left as it is |
| `Deliveries.RowsOnlyAdvance` | internal/httpapi/notifications.go:207-228 | over every run a row takes at most five attempts, and is left alone once delivered or while its adapter is off |
| `Deliveries.DrainEmpties` | internal/httpapi/notifications.go:207-228 | as many passes as attempts remain leave nothing waiting |
| `Deliveries.PassUsesUp` | internal/httpapi/notifications.go:207-228 | a pass that changes anything uses up attempts |
| `Deliveries.BlocksSettle` | internal/httpapi/notifications.go:207-228 | a row with q waiting rows ahead of it is settled after 5 * (q / 50 + 1) passes |
| `Deliveries.MissingIsExact` | internal/httpapi/notifications.go:137-137 | scheduling adds one pending row for each notification that has none for the adapter |
| `Deliveries.HasExactly` | internal/httpapi/notifications.go:129-143 | after scheduling every notification has a row for every adapter that is on |
| `Deliveries.IsNewExactly` | internal/httpapi/notifications.go:137-137 | a row scheduled is of a notification there is, for an adapter that is on, undelivered and untried |
| `Deliveries.Queue.Schedule` | internal/httpapi/notifications.go:129-143 | every notification gets one row for every adapter that is on, and nothing else is added |
| `Deliveries.Queue.Dispatch` | internal/httpapi/notifications.go:172-231 | a pass does to the table what the specification says, row by row |
| `Deliveries.ReadAdapters` | internal/httpapi/notifications.go:177-184 | the loop builds the last-wins map and the names that are on |
| `Migrations.MigrationsAreSafe` | internal/db/db.go:68-123 | for any number of replicas with prefixes of the list, crashing and failing anywhere: the recorded versions are a prefix of the newest list, a script commits once at most and only with its version, and a replica that is done has its whole list applied |
| `Migrations.OneAtATime` | internal/db/db.go:74-85 | two replicas are never past the lock at once |
| `Migrations.ReplicaFinishes` | internal/db/db.go:68-123 | from every start a replica on its own that meets no failure applies exactly what is missing of its list and lets go of the lock |
| `Migrations.CrashLetsGo` | internal/db/db.go:74-85 | a replica that goes down inside frees the lock for the next and leaves what is recorded |
| `Migrations.StepKeepsSafe` | internal/db/db.go:93-121 | no statement of any replica breaks the prefix, the match of scripts and versions, or the lock |
| `Migrations.TodoIsExact` | internal/db/db.go:93-104 | the scripts to apply are the files ending in .sql whose version is not recorded |
| `Migrations.TodoInOrder` | internal/db/db.go:93-104 | the scripts are applied in the order of the sorted entries |
| `Migrations.Database.Migrate` | internal/db/db.go:68-123 | a pass applies the outstanding scripts in order, up to the first that fails; it succeeds exactly when none does |
| `Invitations.InvitationsAreSafe` | internal/httpapi/portal.go:383-492 | in every interleaving accepted and revoked are never both set, a link makes at most one account, for the company it was bound to, and no two accounts share an address |
| `Invitations.RecallIsFinal` | internal/httpapi/portal.go:331-381 | once a recall answers success, no redeem of the link ever succeeds |
| `Invitations.RegisteredOnAWorkingLink` | internal/httpapi/portal.go:383-410 | over every run whoever registered found the link, when its row was locked, unexpired, unused and not withdrawn |
| `Invitations.WorkingLinkRegisters` | internal/httpapi/portal.go:383-492 | the statements of a registration on a working link that nobody holds make the account, for the link's company or the new one, and mark the link used |
| `Invitations.OtherLinksRefuse` | internal/httpapi/portal.go:383-492 | on any other link, for a taken address, or without a company they refuse and change nothing |
| `Invitations.RecallWithdraws` | internal/httpapi/portal.go:331-381 | the statements of a recall withdraw a link that is neither used nor held |
| `Invitations.ReadsExactly` | internal/httpapi/portal.go:331-365 | what a recall is told when it reads: nothing of links out of reach, and what became of the others |
| `Invitations.SaidAcceptedExactly` | internal/httpapi/portal.go:357-378 | a recall answered "already used" is right exactly when no other recall of the link succeeded |
| `Invitations.SaidAcceptedCanBeWrong` | internal/httpapi/portal.go:357-378 | two recalls that both read first: the second is told the link was used |
| `Invitations.AcceptKeepsSound` | internal/httpapi/portal.go:424-489 | the registration transaction keeps the tables sound |
| `Invitations.StepKeepsInv` | internal/httpapi/portal.go:331-492 | every statement of every request keeps the locks and the tables in agreement |
| `Invitations.Portal.Register` | internal/httpapi/portal.go:383-492 | a registration succeeds exactly on a live link with a company and a free address, and does all of the transaction or none |
| `Invitations.Portal.Recall` | internal/httpapi/portal.go:331-381 | a recall withdraws a link that was not used |
| `Recorder.Recorder.Record` | internal/tracking/violations.go:47-81 | recording a report keeps the map in agreement with the reports since the last Forget |
| `Recorder.Recorder.EvictOldest` | internal/tracking/violations.go:83-92 | the entry removed is one last seen longest ago |
| `Recorder.Recorder.Forget` | internal/tracking/violations.go:127-134 | forgetting empties the map and starts the history again |
| `Recorder.KeyIsInjective` | internal/tracking/violations.go:55-69 | different directives and origins are never filed under one key |
| `Recorder.NormalDirective` | internal/tracking/violations.go:55-61 | a directive is one word, never empty |
| `Recorder.DirectiveExactly` | internal/tracking/violations.go:55-61 | a report is filed under the first word of its directive in lower case, whatever follows the word or stands around it |
| `Recorder.NoDirective` | internal/tracking/violations.go:58-61 | a report that names none is filed under connect-src |
| `Recency.RecordingAgrees` | internal/tracking/violations.go:47-92 | eviction by the oldest last reading keeps exactly the 100 keys reported last, with faithful counts and readings |
| `Recency.FullPlaceReplaces` | internal/tracking/violations.go:76-92 | in a full map, dropping the least recently reported key and adding the new one is the last 100 distinct keys again |
| `Recency.RecentCount` | internal/tracking/violations.go:14-14 | the last distinct keys are min(100, distinct keys) many |
| `Recency.OldestByClock` | internal/tracking/violations.go:83-92 | with a strictly increasing clock the oldest last reading is the least recently reported key |
| `Recency.AddKeepsFaithful` | internal/tracking/violations.go:76-80 | a new entry starts its count at one |
| `Recency.CountKeepsFaithful` | internal/tracking/violations.go:69-75 | a repeated report adds one to its count and moves nothing else |
| `Nonce.OutputCarries` | internal/tracking/tracking.go:247-270 | every <script in the output has nonce= before its next >, or the end |
| `Nonce.DeletingGivesBack` | internal/tracking/tracking.go:247-270 | deleting what was inserted gives the snippet back |
| `Nonce.WithNonceIsComplete` | internal/tracking/tracking.go:247-270 | applying it again, with any nonce, changes nothing |
| `Nonce.WithNonceOnlyInserts` | internal/tracking/tracking.go:247-270 | the output is the snippet with insertions, and each of them spells the nonce attribute |
| `Nonce.InsertsExactly` | internal/tracking/tracking.go:247-270 | the attribute goes where a tag needs it and nowhere else; between two such places the snippet is copied |
| `Nonce.NeedsExactly` | internal/tracking/tracking.go:250-264 | a place needs it exactly when "<script" ends there, in any case, and no "nonce=" stands before the next > |
| `Nonce.AttributeReads` | internal/tracking/tracking.go:266-266 | the attribute ends at its own closing quote, and its value, unescaped, is the nonce |
| `Nonce.ScanIsInjected` | internal/tracking/tracking.go:250-269 | the scan by cut remainders computes the position-by-position definition |
| `Nonce.AddNonce` | internal/tracking/tracking.go:247-270 | the loop terminates and computes it |
| `Nonce.HtmlEscape` | internal/tracking/tracking.go:266-266 | an escaped nonce contains no character that ends the attribute |
| `Disposition.PercentRoundTrip` | internal/httpapi/disposition.go:21-31 | the ext-value is attr-char and %XX only, as section 3.2.1 of RFC 8187 has it, and decodes to every byte of any name |
| `Disposition.EncodeExtValue` | internal/httpapi/disposition.go:21-31 | the loop computes that ext-value byte by byte |
| `Disposition.QuotedRoundTrip` | internal/httpapi/disposition.go:36-58 | reading an escaped text as the quoted-string of section 5.6.4 of RFC 9110 gives the text back and ends at the closing quote |
| `Disposition.FallbackIsEscaped` | internal/httpapi/disposition.go:36-58 | the fallback is the escaped form of a text that is never empty |
| `DispositionNames.PlainStaysPlain` | internal/httpapi/disposition.go:21-31 | a name that needs no encoding is its own ext-value |
| `DispositionNames.HexExactly` | internal/httpapi/disposition.go:21-31 | every other byte is a percent sign and its two digits in upper case |
| `DispositionNames.VisibleExactly` | internal/httpapi/disposition.go:39-43 | the fallback keeps exactly the visible ASCII characters, in order |
| `DispositionNames.WordsExactly` | internal/httpapi/disposition.go:49-49 | white space separates words and is none of them |
| `DispositionNames.JoinExactly` | internal/httpapi/disposition.go:49-49 | the words are joined by single spaces |
| `DispositionNames.ExtExactly` | internal/httpapi/disposition.go:52-54 | the extension is what follows the last dot, with the dot |
| `DispositionNames.TidyExactly` | internal/httpapi/disposition.go:52-57 | a name with nothing but dots before its extension becomes document with that extension, and any other stays |
| `Disposition.AsciiFallbackName` | internal/httpapi/disposition.go:36-58 | the loop and the tidying compute that fallback |
| `Disposition.HeaderReads` | internal/httpapi/disposition.go:66-69 | a reader of the header recovers the disposition, the readable name and the exact name |
| `Disposition.ContentDisposition` | internal/httpapi/disposition.go:66-69 | the header reads back to what it was made of |

## Left out

- HTTP, JSON decoding, error texts, audit rows, SQL text, the React front end, dashboards, search, analytics and metrics: no state these properties depend on.
- Cryptography: bcrypt, AES-GCM, token hashing, OIDC and JWT verification are opaque; a cipher is any text, a password matches or does not.
- Unicode: names and snippets are ASCII or bytes. The nonce injector indexes a lower-cased copy of the snippet, which is the same text only in ASCII.
- Database failures that the code only logs, such as the role lookup of a key, the read receipt of a bid and the update of a delivery, are taken to succeed. A failed count of sign-in failures, after which the code lets the sign-in through, is taken not to happen.
- LoginGuard.Attempts.Login: takes the check and the record of one sign-in as one step; `LoginRaces.WindowIsBounded` has the bound for sign-ins that overlap. No sign-in there deletes failures.
- LoginGuard.Attempts.FailuresAreBounded: is about sign-ins one at a time and one setting of the protection; failures recorded under another setting do not count towards it.
- Deliveries.AttemptedInTime: takes the list of adapters as fixed, the order of creation as fixed for rows created at the same moment, and every UPDATE as successful.
- Migrations.MigrationsAreSafe: does not model a lock connection that is lost while its process lives on; the lock is released by the process, by its end, or not at all.
- Scoring.FinalInScale: scores are exact real numbers; the columns round to two decimals, which can make two scores equal that are not.
- ApprovalRuns.LogIsInStep: the data scope of an approver is part of what makes locking the row succeed or not.
- ApprovalRuns.AccountsComeFromApprovals: which rule matches a submission is left open there; any enabled rule of the type may be picked. `ApprovalHandlers.MatchingWorkflow` models the choice.
- ApprovalHandlers.MatchingWorkflow: conditions that do not parse, which the handlers refuse to store, are not modelled.
- ApiKeys.Accounts.CreateKey: the checks on the key's name are not modelled.
- Organizations.Organizations.Create: the checks on the length of the name and the shape of the parent id are not modelled.
- Disposition.HeaderReads: the reader is the grammar of the two parameters, not a browser.
- Access grants (delegations) and the conditions on them: `hasGrantPermission` scans a list with the same matcher and would add only easy members.
- splitHosts and AddAllowedHost in internal/tracking/tracking.go: they depend on net/url, which is not part of this model.
- Soft deletion of objects and suppliers, one-line validators of lengths, dates and enumerations, the log store, form drafts and the work inbox.
