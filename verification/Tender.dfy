/** One tender: its participants, their bids and the committee's award (internal/httpapi/sourcing.go). */
module Tender {
  import opened Common

  datatype Standing = Invited | Draft | Submitted | Declined | Preferred | Selected | NotSelected

  /** The award's words, which a bidder's save must not overwrite. */
  predicate IsTheCommittees(s: Standing) { s == Preferred || s == Selected || s == NotSelected }

  /** The answer about this bidder is final. */
  predicate IsClosed(s: Standing) { s == Selected || s == NotSelected }

  /** The commercial side of a bid; terms stands for its texts and lists. */
  datatype Offer = Offer(amount: Option<real>, days: Option<int>, terms: string)

  datatype Bid = Bid(id: nat, submitted: bool, currency: string, offer: Offer)

  /** Days are counted from any fixed day; preferred and final hold the response of each selection. */
  datatype Tender = Tender(
    status: string, currency: string, due: Option<int>,
    participants: map<nat, Standing>, bids: map<nat, Bid>, preferred: Option<nat>, final: Option<nat>)

  const MAX_AMOUNT: real := 1000000000000000.0
  const MAX_DELIVERY_DAYS := 36500

  predicate DeadlinePassed(t: Tender, today: int) { t.due.Some? && t.due.value < today }

  /** The unit bids are compared in. */
  function UnitOf(t: Tender): string { if t.currency == "" then "KRW" else t.currency }

  predicate InRange(o: Offer) {
    && (o.amount.Some? ==> 0.0 <= o.amount.value <= MAX_AMOUNT)
    && (o.days.Some? ==> 0 <= o.days.value <= MAX_DELIVERY_DAYS)
  }

  datatype Answer =
    | Ok
    | NotInvited
    | SubmissionClosed
    | ParticipationDeclined
    | SourcingAwarded
    | ValidationError
    | CurrencyMismatch
    | CannotDecline
    | SourcingClosed
    | OutOfScope
    | InvalidResponse

  // The handlers, as functions.

  /** INSERT ... ON CONFLICT DO NOTHING, once for each supplier. */
  function Joined(participants: map<nat, Standing>, suppliers: seq<nat>): (after: map<nat, Standing>)
    ensures forall s :: s in after <==> s in participants || s in suppliers
    ensures forall s :: s in after ==> after[s] == if s in participants then participants[s] else Invited
  {
    if suppliers == [] then participants
    else
      var front, last := suppliers[..|suppliers| - 1], suppliers[|suppliers| - 1];
      assert forall s :: s in suppliers <==> s in front || s == last;
      var before := Joined(participants, front);
      if last in before then before else before[last := Invited]
  }

  function InviteAnswer(t: Tender, suppliers: seq<nat>, allowed: set<nat>, today: int): Answer {
    if DeadlinePassed(t, today) then SourcingClosed
    else if suppliers == [] then ValidationError
    else if exists i :: 0 <= i < |suppliers| && suppliers[i] !in allowed then OutOfScope
    else Ok
  }

  function Invite(t: Tender, suppliers: seq<nat>): Tender {
    t.(status := "open", participants := Joined(t.participants, suppliers))
  }

  /** quoted is the currency the bidder states, already checked against the list; "" when it states none. */
  function RespondAnswer(t: Tender, supplier: nat, today: int, quoted: string, offer: Offer, submit: bool): Answer {
    if supplier !in t.participants then NotInvited
    else if DeadlinePassed(t, today) then SubmissionClosed
    else if t.participants[supplier] == Declined then ParticipationDeclined
    else if IsClosed(t.participants[supplier]) then SourcingAwarded
    else if !InRange(offer) then ValidationError
    else if submit && offer.amount.None? then ValidationError
    else if quoted != "" && quoted != UnitOf(t) then CurrencyMismatch
    else Ok
  }

  /** id is what a new response would be numbered. */
  function Respond(t: Tender, supplier: nat, id: nat, quoted: string, offer: Offer, submit: bool): Tender
    requires supplier in t.participants
  {
    var bid := if supplier in t.bids then
                 Bid(t.bids[supplier].id, submit, if quoted != "" then UnitOf(t) else t.bids[supplier].currency, offer)
               else Bid(id, submit, UnitOf(t), offer);
    var standing := if IsTheCommittees(t.participants[supplier]) then t.participants[supplier]
                    else if submit then Submitted else Draft;
    t.(bids := t.bids[supplier := bid], participants := t.participants[supplier := standing])
  }

  function DeclineAnswer(t: Tender, supplier: nat): Answer {
    if supplier in t.participants && (t.participants[supplier] == Invited || t.participants[supplier] == Draft) then Ok
    else CannotDecline
  }

  function Decline(t: Tender, supplier: nat): Tender {
    t.(participants := t.participants[supplier := Declined])
  }

  predicate Holds(t: Tender, supplier: nat, response: nat) {
    supplier in t.bids && t.bids[supplier].id == response
  }

  function SelectAnswer(t: Tender, supplier: nat, response: nat): Answer {
    if Holds(t, supplier, response) && t.bids[supplier].submitted then Ok else InvalidResponse
  }

  /** Every other standing after an award: a final one turns all of them down. */
  function Awarded(participants: map<nat, Standing>, winner: nat, final: bool): map<nat, Standing> {
    map s | s in participants ::
      if s == winner then (if final then Selected else Preferred) else if final then NotSelected else participants[s]
  }

  /** supplier is the bidder the response belongs to. */
  function Select(t: Tender, supplier: nat, response: nat, final: bool): Tender {
    t.(status := if final then "selected" else "preferred_negotiation",
       preferred := if final then t.preferred else Some(response),
       final := if final then Some(response) else t.final,
       participants := Awarded(t.participants, supplier, final))
  }

  // Runs.

  /** In Edit the buyer rewrites the tender's own fields. */
  datatype Event =
    | DoInvite(suppliers: seq<nat>, allowed: set<nat>, today: int)
    | DoRespond(supplier: nat, today: int, id: nat, quoted: string, offer: Offer, submit: bool)
    | DoDecline(supplier: nat)
    | DoSelect(supplier: nat, response: nat, final: bool)
    | Edit(status: string, currency: string, due: Option<int>)

  predicate NewId(t: Tender, id: nat) { forall s :: s in t.bids ==> t.bids[s].id != id }

  /** A refused request changes nothing; the database never hands out a response id twice. */
  function Next(t: Tender, e: Event): Tender {
    match e
    case DoInvite(suppliers, allowed, today) =>
      if InviteAnswer(t, suppliers, allowed, today) == Ok then Invite(t, suppliers) else t
    case DoRespond(supplier, today, id, quoted, offer, submit) =>
      if RespondAnswer(t, supplier, today, quoted, offer, submit) == Ok && (supplier in t.bids || NewId(t, id))
      then Respond(t, supplier, id, quoted, offer, submit) else t
    case DoDecline(supplier) => if DeclineAnswer(t, supplier) == Ok then Decline(t, supplier) else t
    case DoSelect(supplier, response, final) =>
      if SelectAnswer(t, supplier, response) == Ok then Select(t, supplier, response, final) else t
    case Edit(status, currency, due) => t.(status := status, currency := currency, due := due)
  }

  function After(start: Tender, run: seq<Event>): Tender {
    if run == [] then start else Next(After(start, run[..|run| - 1]), run[|run| - 1])
  }

  predicate IsNew(t: Tender) { t.participants == map[] && t.bids == map[] && t.preferred == None && t.final == None }

  // The invariant.

  /** A participant's standing agrees with its bid and with the selections. */
  predicate Agrees(t: Tender, s: nat)
    requires s in t.participants
  {
    match t.participants[s]
    case Invited => s !in t.bids
    case Draft => s in t.bids && !t.bids[s].submitted
    case Submitted => s in t.bids && t.bids[s].submitted
    case Declined => s in t.bids ==> !t.bids[s].submitted
    case Preferred => s in t.bids
    case Selected => s in t.bids && t.bids[s].submitted && t.final == Some(t.bids[s].id)
    case NotSelected => true
  }

  predicate Inv(t: Tender) {
    && (forall s :: s in t.participants ==> Agrees(t, s))
    && (forall s :: s in t.bids ==> s in t.participants)
    && (forall a, b :: a in t.bids && b in t.bids && t.bids[a].id == t.bids[b].id ==> a == b)
    && (forall s :: s in t.bids && t.bids[s].submitted ==> t.bids[s].offer.amount.Some?)
    && (forall s :: s in t.bids ==> InRange(t.bids[s].offer))
  }

  lemma InviteKeepsInv(t: Tender, suppliers: seq<nat>)
    requires Inv(t)
    ensures Inv(Invite(t, suppliers))
  {
    var u := Invite(t, suppliers);
    forall s | s in u.participants ensures Agrees(u, s) {
      assert s in t.participants ==> Agrees(t, s);
    }
  }

  lemma RespondKeepsInv(t: Tender, supplier: nat, today: int, id: nat, quoted: string, offer: Offer, submit: bool)
    requires Inv(t) && RespondAnswer(t, supplier, today, quoted, offer, submit) == Ok && (supplier in t.bids || NewId(t, id))
    ensures Inv(Respond(t, supplier, id, quoted, offer, submit))
  {
    var u := Respond(t, supplier, id, quoted, offer, submit);
    forall s | s in u.participants ensures Agrees(u, s) {
      assert Agrees(t, s);
    }
  }

  lemma DeclineKeepsInv(t: Tender, supplier: nat)
    requires Inv(t) && DeclineAnswer(t, supplier) == Ok
    ensures Inv(Decline(t, supplier))
  {
    var u := Decline(t, supplier);
    forall s | s in u.participants ensures Agrees(u, s) {
      assert Agrees(t, s);
    }
  }

  lemma SelectKeepsInv(t: Tender, supplier: nat, response: nat, final: bool)
    requires Inv(t) && SelectAnswer(t, supplier, response) == Ok
    ensures Inv(Select(t, supplier, response, final))
  {
    var u := Select(t, supplier, response, final);
    forall s | s in u.participants ensures Agrees(u, s) {
      assert Agrees(t, s);
    }
  }

  lemma StepKeepsInv(t: Tender, e: Event)
    requires Inv(t)
    ensures Inv(Next(t, e))
  {
    match e
    case DoInvite(suppliers, _, _) => InviteKeepsInv(t, suppliers);
    case DoRespond(supplier, today, id, quoted, offer, submit) =>
      if Next(t, e) != t { RespondKeepsInv(t, supplier, today, id, quoted, offer, submit); }
    case DoDecline(supplier) =>
      if DeclineAnswer(t, supplier) == Ok { DeclineKeepsInv(t, supplier); }
    case DoSelect(supplier, response, final) =>
      if SelectAnswer(t, supplier, response) == Ok { SelectKeepsInv(t, supplier, response, final); }
    case Edit(status, currency, due) =>
      assert forall s :: s in t.participants && Agrees(t, s) ==> Agrees(Next(t, e), s);
  }

  lemma {:induction false} RunKeepsInv(start: Tender, run: seq<Event>)
    requires IsNew(start)
    ensures Inv(After(start, run))
  {
    if run != [] {
      RunKeepsInv(start, run[..|run| - 1]);
      StepKeepsInv(After(start, run[..|run| - 1]), run[|run| - 1]);
    }
  }

  // What follows.

  /** At most one bidder is selected, and it owns the response of the final selection. */
  lemma OneWinner(start: Tender, run: seq<Event>, a: nat, b: nat)
    requires IsNew(start)
    requires a in After(start, run).participants && After(start, run).participants[a] == Selected
    requires b in After(start, run).participants && After(start, run).participants[b] == Selected
    ensures a == b
    ensures var t := After(start, run);
            a in t.bids && t.bids[a].submitted && t.final == Some(t.bids[a].id)
  {
    RunKeepsInv(start, run);
    assert Agrees(After(start, run), a) && Agrees(After(start, run), b);
  }

  // What the handlers do, case by case.

  /** A save is refused for the first of these reasons that applies, and accepted otherwise. */
  lemma AnswersExactly(t: Tender, s: nat, today: int, quoted: string, offer: Offer, submit: bool)
    ensures var answer := RespondAnswer(t, s, today, quoted, offer, submit);
            var late := t.due.Some? && t.due.value < today;
            var unit := if t.currency == "" then "KRW" else t.currency;
            var outside := (offer.amount.Some? && !(0.0 <= offer.amount.value <= 1000000000000000.0))
                           || (offer.days.Some? && !(0 <= offer.days.value <= 36500)) || (submit && offer.amount.None?);
            && (answer == NotInvited <==> s !in t.participants)
            && (answer == SubmissionClosed <==> s in t.participants && late)
            && (s in t.participants && !late ==>
                  && (answer == ParticipationDeclined <==> t.participants[s] == Declined)
                  && (answer == SourcingAwarded <==> t.participants[s] == Selected || t.participants[s] == NotSelected)
                  && (t.participants[s] in {Invited, Draft, Submitted, Preferred} ==>
                        && (answer == ValidationError <==> outside)
                        && (answer == CurrencyMismatch <==> !outside && quoted != "" && quoted != unit)
                        && (answer == Ok <==> !outside && (quoted == "" || quoted == unit))))
  {
  }

  /** A late bid changes nothing, and neither does a late invitation. */
  lemma LateChangesNothing(t: Tender, due: int, today: int, e: Event)
    requires t.due == Some(due) && due < today
    requires (e.DoRespond? || e.DoInvite?) && e.today == today
    ensures Next(t, e) == t
  {
  }

  /** On the last day, and before it, a bidder still in the running is let in with an offer in range. */
  lemma TimelyIsTaken(t: Tender, s: nat, today: int, id: nat, offer: Offer, submit: bool)
    requires s in t.participants && t.participants[s] in {Invited, Draft, Submitted, Preferred}
    requires t.due.Some? ==> today <= t.due.value
    requires offer.amount.Some? && 0.0 <= offer.amount.value <= 1000000000000000.0
    requires offer.days.Some? ==> 0 <= offer.days.value <= 36500
    requires s !in t.bids ==> forall other :: other in t.bids ==> t.bids[other].id != id
    ensures var u := Next(t, DoRespond(s, today, id, "", offer, submit));
            s in u.bids && u.bids[s].offer == offer && u.bids[s].submitted == submit
  {
  }

  /** Every save of the run comes after the due date, and no edit moves that date. */
  predicate AllLate(run: seq<Event>, due: int) {
    forall i :: 0 <= i < |run| ==> (run[i].Edit? ==> run[i].due == Some(due)) && (run[i].DoRespond? ==> due < run[i].today)
  }

  /** Once the due date is past, no bid changes, whatever else happens. */
  lemma {:induction false} DeadlineSeals(t: Tender, run: seq<Event>, due: int)
    requires t.due == Some(due) && AllLate(run, due)
    ensures After(t, run).due == Some(due) && After(t, run).bids == t.bids
  {
    if run != [] {
      DeadlineSeals(t, run[..|run| - 1], due);
    }
  }

  /** Inviting is refused late, for nobody, or beyond one's scope; otherwise the tender is open and has the suppliers named. */
  lemma InvitesExactly(t: Tender, suppliers: seq<nat>, allowed: set<nat>, today: int, s: nat)
    ensures var answer, u := InviteAnswer(t, suppliers, allowed, today), Next(t, DoInvite(suppliers, allowed, today));
            var late := t.due.Some? && t.due.value < today;
            var beyond := exists i :: 0 <= i < |suppliers| && suppliers[i] !in allowed;
            && (answer == SourcingClosed <==> late)
            && (answer == ValidationError <==> !late && suppliers == [])
            && (answer == OutOfScope <==> !late && suppliers != [] && beyond)
            && (answer == Ok <==> !late && suppliers != [] && !beyond)
            && (answer != Ok ==> u == t)
            && (answer == Ok ==>
                  && u == t.(status := "open", participants := u.participants)
                  && (s in u.participants <==> s in t.participants || s in suppliers)
                  && (s in t.participants ==> u.participants[s] == t.participants[s])
                  && (s in suppliers && s !in t.participants ==> u.participants[s] == Invited))
  {
  }

  /** Declining works from invited and from draft, and moves nothing but that standing. */
  lemma DeclinesExactly(t: Tender, s: nat)
    ensures Next(t, DoDecline(s)) ==
            if s in t.participants && t.participants[s] in {Invited, Draft}
            then t.(participants := t.participants[s := Declined]) else t
    ensures DeclineAnswer(t, s) == Ok <==> s in t.participants && t.participants[s] in {Invited, Draft}
  {
  }

  /** An award needs a submitted bid of its own bidder; a final one decides on everybody, a preferred one on nobody else. */
  lemma AwardsExactly(t: Tender, winner: nat, response: nat, final: bool, s: nat)
    ensures var answer, u := SelectAnswer(t, winner, response), Next(t, DoSelect(winner, response, final));
            && (answer == Ok <==> winner in t.bids && t.bids[winner].id == response && t.bids[winner].submitted)
            && (answer != Ok ==> answer == InvalidResponse && u == t)
            && (answer == Ok ==>
                  && u.bids == t.bids && u.currency == t.currency && u.due == t.due
                  && u.status == (if final then "selected" else "preferred_negotiation")
                  && u.final == (if final then Some(response) else t.final)
                  && u.preferred == (if final then t.preferred else Some(response))
                  && (s in u.participants <==> s in t.participants)
                  && (s in t.participants ==>
                        u.participants[s] == if s == winner then (if final then Selected else Preferred)
                                             else if final then NotSelected else t.participants[s]))
  {
  }

  /** An edit rewrites the tender's own fields and touches no bidder. */
  lemma EditsExactly(t: Tender, status: string, currency: string, due: Option<int>)
    ensures var u := Next(t, Edit(status, currency, due));
            && u.status == status && u.currency == currency && u.due == due
            && u == t.(status := status, currency := currency, due := due)
  {
  }

  /** What a save leaves of the bidder: the standing an award wrote outranks it, and a unit is set only with figures stated in it. */
  lemma SavesExactly(t: Tender, s: nat, today: int, id: nat, quoted: string, offer: Offer, submit: bool)
    requires RespondAnswer(t, s, today, quoted, offer, submit) == Ok
    ensures var u, unit := Respond(t, s, id, quoted, offer, submit), if t.currency == "" then "KRW" else t.currency;
            && s in u.participants && s in u.bids
            && u.participants[s] == (if t.participants[s] == Preferred then Preferred else if submit then Submitted else Draft)
            && u.bids[s].currency == (if s in t.bids && quoted == "" then t.bids[s].currency else unit)
            && u == t.(bids := u.bids, participants := u.participants)
  {
  }

  /** Standing by standing, after every run. */
  lemma StandingsAgree(start: Tender, run: seq<Event>, s: nat)
    requires IsNew(start) && s in After(start, run).participants
    ensures var t := After(start, run);
            && (t.participants[s] == Draft ==> s in t.bids && !t.bids[s].submitted)
            && (t.participants[s] == Submitted ==> s in t.bids && t.bids[s].submitted)
            && (t.participants[s] == Declined && s in t.bids ==> !t.bids[s].submitted)
            && (t.participants[s] == Invited ==> s !in t.bids)
            && (s in t.bids && t.bids[s].submitted ==> t.bids[s].offer.amount.Some?)
  {
    RunKeepsInv(start, run);
    assert Agrees(After(start, run), s);
  }

  /** A save stores what was offered, keeps the response's id, and touches no other bidder. */
  lemma SaveIsStored(t: Tender, s: nat, today: int, id: nat, quoted: string, offer: Offer, submit: bool, other: nat)
    requires RespondAnswer(t, s, today, quoted, offer, submit) == Ok && other != s
    ensures var u := Respond(t, s, id, quoted, offer, submit);
            && s in u.bids && u.bids[s].offer == offer && u.bids[s].submitted == submit
            && u.bids[s].id == (if s in t.bids then t.bids[s].id else id)
            && (other in u.bids <==> other in t.bids) && (other in t.bids ==> u.bids[other] == t.bids[other])
            && (other in u.participants <==> other in t.participants)
            && (other in t.participants ==> u.participants[other] == t.participants[other])
  {
  }

  /** The preferred bidder may revise the bid before the deadline, and stays preferred. */
  lemma PreferredMayRevise(t: Tender, s: nat, today: int, id: nat, offer: Offer, submit: bool)
    requires Inv(t) && s in t.participants && t.participants[s] == Preferred
    requires !DeadlinePassed(t, today) && InRange(offer) && offer.amount.Some?
    ensures var u := Next(t, DoRespond(s, today, id, "", offer, submit));
            && s in u.participants && u.participants[s] == Preferred
            && s in u.bids && u.bids[s].offer == offer && u.bids[s].submitted == submit
  {
    assert Agrees(t, s);
  }

  /** A preferred award moves nobody but the bidder it names. */
  lemma PreferredLeavesOthers(t: Tender, winner: nat, response: nat, s: nat)
    requires SelectAnswer(t, winner, response) == Ok && s in t.participants
    ensures var u := Select(t, winner, response, false);
            && s in u.participants && u.participants[s] == (if s == winner then Preferred else t.participants[s])
            && u.preferred == Some(t.bids[winner].id) && u.final == t.final && u.bids == t.bids
  {
  }

  /** Two bidders can both read preferred, so nothing of the kind holds of that standing. */
  lemma TwoCanBePreferred(t: Tender, a: nat, b: nat)
    requires Inv(t) && a != b && Holds(t, a, 0) && Holds(t, b, 1) && t.bids[a].submitted && t.bids[b].submitted
    ensures var u := Next(Next(t, DoSelect(a, 0, false)), DoSelect(b, 1, false));
            a in u.participants && b in u.participants && u.participants[a] == Preferred && u.participants[b] == Preferred
  {
  }

  /** While a bidder's answer is final, no step touches its bid. */
  lemma ClosedBidIsFixed(t: Tender, e: Event, s: nat)
    requires Inv(t) && s in t.participants && IsClosed(t.participants[s])
    ensures s in t.bids <==> s in Next(t, e).bids
    ensures s in t.bids ==> Next(t, e).bids[s] == t.bids[s]
  {
  }

  /** Only an award moves a bidder on whom the committee has answered. */
  lemma OnlyAwardsMoveTheAnswered(t: Tender, e: Event, s: nat)
    requires s in t.participants && IsTheCommittees(t.participants[s]) && !e.DoSelect?
    ensures s in Next(t, e).participants && Next(t, e).participants[s] == t.participants[s]
  {
  }

  /** A final award stands until the next award, with the winner's bid as it was awarded. */
  lemma {:induction false} AwardStands(t: Tender, run: seq<Event>, winner: nat, s: nat)
    requires Inv(t) && winner in t.bids && t.bids[winner].submitted && s in t.participants
    requires forall i :: 0 <= i < |run| ==> !run[i].DoSelect?
    ensures var u := After(Select(t, winner, t.bids[winner].id, true), run);
            && Inv(u)
            && s in u.participants && u.participants[s] == (if s == winner then Selected else NotSelected)
            && u.final == Some(t.bids[winner].id)
            && (s in t.bids ==> s in u.bids && u.bids[s] == t.bids[s])
  {
    var start := Select(t, winner, t.bids[winner].id, true);
    if run == [] {
      SelectKeepsInv(t, winner, t.bids[winner].id, true);
    } else {
      var front, e := run[..|run| - 1], run[|run| - 1];
      AwardStands(t, front, winner, s);
      var u := After(start, front);
      StepKeepsInv(u, e);
      ClosedBidIsFixed(u, e, s);
      OnlyAwardsMoveTheAnswered(u, e, s);
    }
  }

  // Currency.

  /** A step leaves a bid's unit as it was, or sets it to the tender's together with the figures. */
  lemma UnitMovesWithTheFigures(t: Tender, e: Event, s: nat)
    requires s in Next(t, e).bids
    ensures var u := Next(t, e);
            && (s !in t.bids ==> u.bids[s].currency == UnitOf(t))
            && (s in t.bids && u.bids[s].currency != t.bids[s].currency
                ==> u.bids[s].currency == UnitOf(t) && e.DoRespond? && e.supplier == s && e.quoted == UnitOf(t) && u.bids[s].offer == e.offer)
  {
  }

  predicate KeepsCurrency(run: seq<Event>, currency: string) {
    forall i :: 0 <= i < |run| && run[i].Edit? ==> run[i].currency == currency
  }

  /** If the tender's currency is never edited, every bid is in it. */
  lemma {:induction false} OneUnit(start: Tender, run: seq<Event>, s: nat)
    requires IsNew(start) && KeepsCurrency(run, start.currency)
    ensures After(start, run).currency == start.currency
    ensures s in After(start, run).bids ==> After(start, run).bids[s].currency == UnitOf(start)
  {
    if run != [] {
      var front := run[..|run| - 1];
      OneUnit(start, front, s);
      if s in After(start, run).bids {
        UnitMovesWithTheFigures(After(start, front), run[|run| - 1], s);
      }
    }
  }

  /** After a save, unit and tender agree exactly for a new bid, a stated currency, or a bid already in the tender's. */
  lemma SaveAgreesExactly(t: Tender, s: nat, today: int, id: nat, quoted: string, offer: Offer, submit: bool)
    requires RespondAnswer(t, s, today, quoted, offer, submit) == Ok
    ensures var u := Respond(t, s, id, quoted, offer, submit);
            u.bids[s].currency == UnitOf(u) <==> s !in t.bids || quoted != "" || t.bids[s].currency == UnitOf(t)
  {
  }

  /** The event is a save of s that sets its unit: the first one, or one that states the currency. */
  predicate SetsUnit(t: Tender, e: Event, s: nat) {
    e.DoRespond? && e.supplier == s && (s !in t.bids || e.quoted != "")
    && RespondAnswer(t, s, e.today, e.quoted, e.offer, e.submit) == Ok && (s in t.bids || NewId(t, e.id))
  }

  /** The tender's unit when the unit of s was last set in the run. */
  function SetAt(start: Tender, run: seq<Event>, s: nat): Option<string> {
    if run == [] then None
    else
      var before, e := After(start, run[..|run| - 1]), run[|run| - 1];
      if SetsUnit(before, e, s) then Some(UnitOf(before)) else SetAt(start, run[..|run| - 1], s)
  }

  /** Over every run a bid's unit is the one in force at its first save or its last stated one, whichever came later. */
  lemma {:induction false} UnitIsTheOneSet(start: Tender, run: seq<Event>, s: nat)
    requires IsNew(start)
    ensures s in After(start, run).bids <==> SetAt(start, run, s).Some?
    ensures s in After(start, run).bids ==> SetAt(start, run, s) == Some(After(start, run).bids[s].currency)
  {
    if run != [] {
      UnitIsTheOneSet(start, run[..|run| - 1], s);
    }
  }

  /** So a bid is in the tender's unit exactly when that is the unit it was last set in. */
  lemma UnitAgreesExactly(start: Tender, run: seq<Event>, s: nat)
    requires IsNew(start) && s in After(start, run).bids
    ensures After(start, run).bids[s].currency == UnitOf(After(start, run))
            <==> SetAt(start, run, s) == Some(UnitOf(After(start, run)))
  {
    UnitIsTheOneSet(start, run, s);
  }

  /** If the currency is edited, a bid saved without a stated one keeps the old unit beside new figures. */
  lemma UnitCanDrift(t: Tender, s: nat, today: int, currency: string, offer: Offer)
    requires Inv(t) && s in t.bids && t.participants[s] == Submitted && !DeadlinePassed(t, today)
    requires InRange(offer) && offer.amount.Some? && currency != "" && currency != t.bids[s].currency
    ensures var u := Next(Next(t, Edit(t.status, currency, t.due)), DoRespond(s, today, 0, "", offer, true));
            s in u.bids && u.bids[s].offer == offer && u.bids[s].currency == t.bids[s].currency != UnitOf(u)
  {
  }

  // The handlers as they run, statement after statement.

  method AllAllowed(suppliers: seq<nat>, allowed: set<nat>) returns (ok: bool)
    ensures ok <==> forall i :: 0 <= i < |suppliers| ==> suppliers[i] in allowed
  {
    for i := 0 to |suppliers|
      invariant forall j :: 0 <= j < i ==> suppliers[j] in allowed
    {
      if suppliers[i] !in allowed {
        return false;
      }
    }
    return true;
  }

  class SourcingRequest {
    var status: string
    var currency: string
    var due: Option<int>
    var participants: map<nat, Standing>
    var bids: map<nat, Bid>
    var preferred: Option<nat>
    var final: Option<nat>

    function View(): Tender
      reads this
    {
      Tender(status, currency, due, participants, bids, preferred, final)
    }

    ghost predicate Valid()
      reads this
    {
      Inv(View())
    }

    constructor (status: string, currency: string, due: Option<int>)
      ensures Valid() && IsNew(View()) && View().status == status && View().currency == currency && View().due == due
    {
      this.status, this.currency, this.due := status, currency, due;
      participants, bids, preferred, final := map[], map[], None, None;
    }

    method AddParticipants(suppliers: seq<nat>, allowed: set<nat>, today: int) returns (answer: Answer, count: nat)
      requires Valid()
      modifies `status, `participants
      ensures Valid()
      ensures answer == old(InviteAnswer(View(), suppliers, allowed, today))
      ensures View() == if answer == Ok then old(Invite(View(), suppliers)) else old(View())
      ensures count == |participants| - |old(participants)|
    {
      if due.Some? && due.value < today {
        return SourcingClosed, 0;
      }
      if suppliers == [] {
        return ValidationError, 0;
      }
      var inScope := AllAllowed(suppliers, allowed);
      if !inScope {
        return OutOfScope, 0;
      }
      InviteKeepsInv(View(), suppliers);
      count := Insert(suppliers);
      status := "open";
      assert View() == old(Invite(View(), suppliers));
      return Ok, count;
    }

    method Insert(suppliers: seq<nat>) returns (count: nat)
      modifies `participants
      ensures participants == Joined(old(participants), suppliers)
      ensures count == |participants| - |old(participants)|
    {
      ghost var before := participants;
      count := 0;
      for i := 0 to |suppliers|
        invariant participants == Joined(before, suppliers[..i])
        invariant count == |participants| - |before|
      {
        assert suppliers[..i + 1][..i] == suppliers[..i];
        if suppliers[i] !in participants {
          participants := participants[suppliers[i] := Invited];
          count := count + 1;
        }
      }
      assert suppliers[..|suppliers|] == suppliers;
    }

    /** id numbers the response if it is new. */
    method SaveResponse(supplier: nat, today: int, id: nat, quoted: string, offer: Offer, submit: bool)
      returns (answer: Answer)
      requires Valid() && (supplier in bids || NewId(View(), id))
      modifies `participants, `bids
      ensures Valid()
      ensures answer == old(RespondAnswer(View(), supplier, today, quoted, offer, submit))
      ensures View() == if answer == Ok then old(Respond(View(), supplier, id, quoted, offer, submit)) else old(View())
    {
      if supplier !in participants {
        return NotInvited;
      }
      if due.Some? && due.value < today {
        return SubmissionClosed;
      }
      if participants[supplier] == Declined {
        return ParticipationDeclined;
      }
      if IsClosed(participants[supplier]) {
        return SourcingAwarded;
      }
      if offer.amount.Some? && !(0.0 <= offer.amount.value <= MAX_AMOUNT) {
        return ValidationError;
      }
      if offer.days.Some? && !(0 <= offer.days.value <= MAX_DELIVERY_DAYS) {
        return ValidationError;
      }
      if submit && offer.amount.None? {
        return ValidationError;
      }
      if quoted != "" && quoted != UnitOf(View()) {
        return CurrencyMismatch;
      }
      RespondKeepsInv(View(), supplier, today, id, quoted, offer, submit);
      StoreBid(supplier, id, quoted, offer, submit);
      if !IsTheCommittees(participants[supplier]) {
        participants := participants[supplier := if submit then Submitted else Draft];
      }
      assert View() == old(Respond(View(), supplier, id, quoted, offer, submit));
      return Ok;
    }

    method StoreBid(supplier: nat, id: nat, quoted: string, offer: Offer, submit: bool)
      requires supplier in participants
      modifies `bids
      ensures bids == old(Respond(View(), supplier, id, quoted, offer, submit)).bids
    {
      var unit := UnitOf(View());
      if supplier in bids {
        var bid := bids[supplier];
        bids := bids[supplier := Bid(bid.id, submit, if quoted != "" then unit else bid.currency, offer)];
      } else {
        bids := bids[supplier := Bid(id, submit, unit, offer)];
      }
    }

    method DeclineRequest(supplier: nat) returns (answer: Answer)
      requires Valid()
      modifies `participants
      ensures Valid()
      ensures answer == old(DeclineAnswer(View(), supplier))
      ensures View() == if answer == Ok then old(Decline(View(), supplier)) else old(View())
    {
      if supplier !in participants || (participants[supplier] != Invited && participants[supplier] != Draft) {
        return CannotDecline;
      }
      DeclineKeepsInv(View(), supplier);
      participants := participants[supplier := Declined];
      return Ok;
    }

    method SelectResponse(supplier: nat, response: nat, isFinal: bool) returns (answer: Answer)
      requires Valid()
      modifies `status, `participants, `preferred, `final
      ensures Valid()
      ensures answer == old(SelectAnswer(View(), supplier, response))
      ensures View() == if answer == Ok then old(Select(View(), supplier, response, isFinal)) else old(View())
    {
      if supplier !in bids || bids[supplier].id != response || !bids[supplier].submitted {
        return InvalidResponse;
      }
      SelectKeepsInv(View(), supplier, response, isFinal);
      if isFinal {
        final := Some(response);
        status := "selected";
      } else {
        preferred := Some(response);
        status := "preferred_negotiation";
      }
      participants := Awarded(participants, supplier, isFinal);
      assert View() == old(Select(View(), supplier, response, isFinal));
      return Ok;
    }
  }
}
