/** The handlers of the approval engine, each run on its own (internal/httpapi/workflows.go, objects.go, suppliers.go). */
module ApprovalHandlers {
  import opened Common
  import opened Approval
  import R = ApprovalRuns

  // Statuses as a caller writes them.

  /** The status a text names. */
  function Named(text: string): (w: Word)
    ensures Owned(w) <==> text in {"pending_approval", "approved", "rejected", "returned"}
  {
    if text == "draft" then Draft
    else if text == "pending_approval" then PendingApproval
    else if text == "approved" then Approved
    else if text == "rejected" then Rejected
    else if text == "returned" then Returned
    else Else(text)
  }

  /** The words approvals award are the texts the database holds for them. */
  lemma NamedTexts(text: string)
    ensures Named(text) == Draft <==> text == "draft"
    ensures Named(text) == PendingApproval <==> text == "pending_approval"
    ensures Named(text) == Approved <==> text == "approved"
    ensures Named(text) == Rejected <==> text == "rejected"
    ensures Named(text) == Returned <==> text == "returned"
    ensures text !in {"draft", "pending_approval", "approved", "rejected", "returned"} ==> Named(text) == Else(text)
  {
  }

  /** Different texts are different statuses, so comparing words is comparing texts. */
  lemma NamedIsInjective(a: string, b: string)
    ensures Named(a) == Named(b) <==> a == b
  {
  }

  /** The status field of a request, trimmed; None when there is none. */
  function Stated(raw: string): Option<Word> {
    if Trim(raw) == "" then None else Some(Named(Trim(raw)))
  }

  /** The request claims a word approvals award that the object does not already hold. */
  predicate RefusesStatus(raw: string, current: Option<Word>) {
    Stated(raw).Some? && Stated(raw) != current && Owned(Stated(raw).value)
  }

  // Rules.

  datatype Numbered = Numbered(order: nat, step: Step)

  /** Every step named, and numbered in place; no list is accepted without a step. */
  method ValidSteps(steps: seq<Step>) returns (list: Option<seq<Numbered>>)
    ensures list.Some? <==> steps != [] && forall i :: 0 <= i < |steps| ==> Trim(steps[i].name) != ""
    ensures list.Some? ==> |list.value| == |steps| && forall i :: 0 <= i < |steps| ==> list.value[i] == Numbered(i, steps[i])
  {
    if steps == [] {
      return None;
    }
    var numbered: seq<Numbered> := [];
    for i := 0 to |steps|
      invariant |numbered| == i && forall k :: 0 <= k < i ==> numbered[k] == Numbered(k, steps[k])
      invariant forall k :: 0 <= k < i ==> Trim(steps[k].name) != ""
    {
      if Trim(steps[i].name) == "" {
        return None;
      }
      numbered := numbered + [Numbered(i, steps[i])];
    }
    return Some(numbered);
  }

  /** What a rule asks of an object; a field left empty asks nothing. */
  datatype Conditions = Conditions(
    minAmount: Option<real>, maxAmount: Option<real>, organization: string, riskLevel: string, riskLevels: seq<string>,
    wanted: map<string, string>)

  /** wanted holds the conditions on contractType, category, project and securityLevel; detail is the object's data. */
  datatype Facts = Facts(amount: Option<real>, organization: Option<string>, riskLevel: Option<string>, detail: map<string, string>)

  function OrElse<T>(value: Option<T>, default: T): T { if value.Some? then value.value else default }

  predicate DetailMatches(c: Conditions, o: Facts) {
    forall key :: key in c.wanted && c.wanted[key] != "" ==> key in o.detail && o.detail[key] == c.wanted[key]
  }

  predicate WorkflowMatches(c: Conditions, o: Facts) {
    && !(c.minAmount.Some? && OrElse(o.amount, 0.0) < c.minAmount.value)
    && !(c.maxAmount.Some? && OrElse(o.amount, 0.0) > c.maxAmount.value)
    && (c.organization != "" ==> o.organization == Some(c.organization))
    && (c.riskLevel != "" ==> OrElse(o.riskLevel, "") == c.riskLevel)
    && (c.riskLevels != [] ==> OrElse(o.riskLevel, "") in c.riskLevels)
    && DetailMatches(c, o)
  }

  /** A rule matches exactly when every condition it states is met. */
  lemma MatchesExactly(c: Conditions, o: Facts)
    ensures WorkflowMatches(c, o) <==>
            && (c.minAmount.Some? ==> c.minAmount.value <= if o.amount.Some? then o.amount.value else 0.0)
            && (c.maxAmount.Some? ==> (if o.amount.Some? then o.amount.value else 0.0) <= c.maxAmount.value)
            && (c.organization != "" ==> o.organization == Some(c.organization))
            && (c.riskLevel != "" ==> o.riskLevel == Some(c.riskLevel))
            && (c.riskLevels != [] ==> exists k :: 0 <= k < |c.riskLevels|
                                                   && c.riskLevels[k] == if o.riskLevel.Some? then o.riskLevel.value else "")
            && (forall key :: key in c.wanted && c.wanted[key] != "" ==> key in o.detail && o.detail[key] == c.wanted[key])
  {
  }

  /** Rules whose amount ranges do not meet never both match, and an object without an amount counts as zero. */
  lemma AmountsRoute(c: Conditions, d: Conditions, o: Facts)
    requires c.maxAmount.Some? && d.minAmount.Some? && c.maxAmount.value < d.minAmount.value
    ensures !(WorkflowMatches(c, o) && WorkflowMatches(d, o))
    ensures o.amount.None? && WorkflowMatches(d, o) ==> d.minAmount.value <= 0.0
  {
  }

  /** A rule that matches at two amounts matches at every amount between them, all else equal. */
  lemma MatchesBetween(c: Conditions, o: Facts, low: real, high: real, amount: real)
    requires low <= amount <= high
    requires WorkflowMatches(c, o.(amount := Some(low))) && WorkflowMatches(c, o.(amount := Some(high)))
    ensures WorkflowMatches(c, o.(amount := Some(amount)))
  {
  }

  /** A row of the query over the enabled rules of a type, newest version first. */
  datatype Candidate = Candidate(id: nat, version: nat, conditions: Conditions, steps: seq<Step>)

  /** The first row that matches: of the rules that match, one of the newest version. */
  method MatchingWorkflow(rows: seq<Candidate>, o: Facts) returns (found: Option<Candidate>)
    requires forall i, j :: 0 <= i < j < |rows| ==> rows[i].version >= rows[j].version
    ensures found.None? <==> forall i :: 0 <= i < |rows| ==> !WorkflowMatches(rows[i].conditions, o)
    ensures found.Some? ==> found.value in rows && WorkflowMatches(found.value.conditions, o)
    ensures found.Some? ==>
      var c := found.value.conditions;
      && (c.organization != "" ==> o.organization == Some(c.organization))
      && (c.riskLevel != "" ==> o.riskLevel == Some(c.riskLevel))
      && (c.riskLevels != [] ==> (if o.riskLevel.Some? then o.riskLevel.value else "") in c.riskLevels)
      && (forall key :: key in c.wanted && c.wanted[key] != "" ==> key in o.detail && o.detail[key] == c.wanted[key])
    ensures found.Some? ==>
      exists i :: 0 <= i < |rows| && rows[i] == found.value && forall k :: 0 <= k < i ==> !WorkflowMatches(rows[k].conditions, o)
    ensures found.Some? ==>
      forall row :: row in rows && WorkflowMatches(row.conditions, o) ==> row.version <= found.value.version
  {
    for i := 0 to |rows|
      invariant forall k :: 0 <= k < i ==> !WorkflowMatches(rows[k].conditions, o)
    {
      if WorkflowMatches(rows[i].conditions, o) {
        return Some(rows[i]);
      }
    }
    return None;
  }

  // Whole handlers, as functions of the tables.

  datatype Event =
    | CreateObject(o: nat, name: string, raw: string, s: nat)
    | PatchObject(o: nat, raw: string, moved: Option<nat>)
    | Sourcing(o: nat, award: Award)
    | PortalCreate(o: nat, name: string, s: nat)
    | SubmitObject(o: nat, user: nat, id: nat, rule: Option<nat>)
    | AskChange(s: nat, cipher: string, user: nat, o: nat, id: nat, rule: Option<nat>)
    | Decide(i: nat, decision: Decision, user: nat, star: bool)
    | Administer(definitions: map<nat, Definition>, roles: map<nat, set<string>>, settings: Settings)

  /** The other handlers that write an object's status. */
  datatype Award = Invites | Prefers | Selects | Confirms

  function AwardWord(a: Award): Word {
    match a
    case Invites => Named("open")
    case Prefers => Named("preferred_negotiation")
    case Selects => Named("selected")
    case Confirms => Named("confirmed")
  }

  predicate IsRouted(db: Db, o: nat) { o in db.objects && db.objects[o].kind != BankChange }

  function Created(db: Db, o: nat, name: string, raw: string, s: nat): Db {
    if o in db.objects || RefusesStatus(raw, None) then db
    else db.(objects := db.objects[o := Object(Routed(name), OrElse(Stated(raw), Draft), s, "")])
  }

  function Patched(db: Db, o: nat, raw: string, moved: Option<nat>): Db {
    if !IsRouted(db, o) || RefusesStatus(raw, Some(db.objects[o].status)) then db
    else
      var before := db.objects[o];
      db.(objects := db.objects[o := before.(status := OrElse(Stated(raw), before.status), supplier := OrElse(moved, before.supplier))])
  }

  predicate HasRule(db: Db, rule: Option<nat>, kind: Kind) {
    rule.Some? ==> rule.value in db.definitions && db.definitions[rule.value].enabled && db.definitions[rule.value].kind == kind
  }

  /** rule is what matching picked. */
  function SubmittedWhole(db: Db, o: nat, user: nat, id: nat, rule: Option<nat>): Db {
    if !IsRouted(db, o) || id in db.instances || !HasRule(db, rule, db.objects[o].kind) then db
    else if !db.settings.approvals then WithStatus(db, o, Approved)
    else if HasPending(db, o) then db
    else if rule.None? then WithStatus(db, o, Approved)
    else
      var inst := Instance(rule.value, db.objects[o].kind, o, user, db.definitions[rule.value].steps, Pending, 0);
      WithStatus(Opened(db, id, inst), o, PendingApproval)
  }

  function Asked(db: Db, s: nat, cipher: string, user: nat, o: nat, id: nat, rule: Option<nat>): Db {
    if s !in db.suppliers || o in db.objects || id in db.instances || !HasRule(db, rule, BankChange) then db
    else if !(db.settings.approvals && db.settings.bankApproval) then db.(suppliers := Paid(db.suppliers, s, cipher))
    else if rule.None? then db
    else
      var inst := Instance(rule.value, BankChange, o, user, db.definitions[rule.value].steps, Pending, 0);
      Opened(db.(objects := db.objects[o := Object(BankChange, PendingApproval, s, cipher)]), id, inst)
  }

  datatype Answer = Ok(standing: Standing) | NotFound | NotPending | InvalidWorkflow | Forbidden | SeparationOfDuties

  function DecisionAnswer(db: Db, i: nat, d: Decision, user: nat, star: bool): Answer {
    if i !in db.instances || db.instances[i].definition !in db.definitions then NotFound
    else
      var inst := db.instances[i];
      var steps := InstanceSteps(inst.steps, db.definitions[inst.definition].steps);
      var roles := if user in db.roles then db.roles[user] else {};
      if inst.standing != Pending then NotPending
      else if inst.current >= |steps| then InvalidWorkflow
      else if !MayDecide(steps[inst.current], roles, star) then Forbidden
      else if d != Return && inst.requestedBy == user && db.settings.blockSelf then SeparationOfDuties
      else Ok(Advanced(inst.(steps := steps), d).standing)
  }

  function DecidedWhole(db: Db, i: nat, d: Decision, user: nat, star: bool): Db {
    if !DecisionAnswer(db, i, d, user, star).Ok? || i !in db.log then db
    else Decided(db, i, Action(db.instances[i].current, d, user, if user in db.roles then db.roles[user] else {}, star))
  }

  function Handle(db: Db, e: Event): Db {
    match e
    case CreateObject(o, name, raw, s) => Created(db, o, name, raw, s)
    case PatchObject(o, raw, moved) => Patched(db, o, raw, moved)
    case Sourcing(o, award) =>
      if IsRouted(db, o) && (award == Confirms ==> db.objects[o].status == Approved || db.objects[o].status == Named("sent"))
      then WithStatus(db, o, AwardWord(award)) else db
    case PortalCreate(o, name, s) =>
      if o in db.objects then db else db.(objects := db.objects[o := Object(Routed(name), Named("submitted"), s, "")])
    case SubmitObject(o, user, id, rule) => SubmittedWhole(db, o, user, id, rule)
    case AskChange(s, cipher, user, o, id, rule) => Asked(db, s, cipher, user, o, id, rule)
    case Decide(i, d, user, star) => DecidedWhole(db, i, d, user, star)
    case Administer(definitions, roles, settings) =>
      if (forall d :: d in definitions ==> definitions[d].steps != []) && db.definitions.Keys <= definitions.Keys
      then db.(definitions := definitions, roles := roles, settings := settings) else db
  }

  function After(db: Db, run: seq<Event>): Db {
    if run == [] then db else Handle(After(db, run[..|run| - 1]), run[|run| - 1])
  }

  // Who writes the words approvals award.

  // What each handler does, in the terms of the tables.

  /** A decision's answer, reason by reason. */
  lemma AnswersExactly(db: Db, i: nat, d: Decision, user: nat, star: bool)
    requires Sound(db)
    ensures var answer := DecisionAnswer(db, i, d, user, star);
            && (answer == NotFound <==> i !in db.instances)
            && (answer == NotPending <==> i in db.instances && db.instances[i].standing != Pending)
            && answer != InvalidWorkflow
            && (i in db.instances && db.instances[i].standing == Pending ==>
                  && db.instances[i].current < |db.instances[i].steps|
                  && var inst := db.instances[i];
                     var role := inst.steps[inst.current].role;
                     var entitled := role == "" || star || (user in db.roles && role in db.roles[user]);
                     var own := d != Return && inst.requestedBy == user && db.settings.blockSelf;
                     && (answer == Forbidden <==> !entitled)
                     && (answer == SeparationOfDuties <==> entitled && own)
                     && (answer == Ok(Pending) <==> entitled && !own && d == Approve && inst.current + 1 != |inst.steps|)
                     && (answer == Ok(Settled(d)) <==> entitled && !own && (d != Approve || inst.current + 1 == |inst.steps|)))
  {
    if i in db.instances {
      assert InstanceSound(db, i);
    }
  }

  /** An accepted decision is the transaction, with the roles the actor holds then; a refused one changes nothing. */
  lemma DecidesExactly(db: Db, i: nat, d: Decision, user: nat, star: bool)
    requires Sound(db)
    ensures !DecisionAnswer(db, i, d, user, star).Ok? ==> DecidedWhole(db, i, d, user, star) == db
    ensures DecisionAnswer(db, i, d, user, star).Ok? ==>
              && i in db.instances && i in db.log && db.instances[i].standing == Pending
              && DecidedWhole(db, i, d, user, star)
                 == Decided(db, i, Action(db.instances[i].current, d, user, if user in db.roles then db.roles[user] else {}, star))
  {
    if i in db.instances {
      assert InstanceSound(db, i);
    }
  }

  /** Without steps in its snapshot an instance follows its rule. */
  lemma FollowsItsRule(db: Db, i: nat, d: Decision, user: nat, star: bool)
    requires i in db.instances && db.instances[i].definition in db.definitions && db.instances[i].standing == Pending
    requires db.instances[i].steps == []
    ensures var inst, steps := db.instances[i], db.definitions[db.instances[i].definition].steps;
            && (DecisionAnswer(db, i, d, user, star) == InvalidWorkflow <==> inst.current >= |steps|)
            && (DecisionAnswer(db, i, d, user, star) == Forbidden <==>
                  inst.current < |steps| && steps[inst.current].role != "" && !star
                  && !(user in db.roles && steps[inst.current].role in db.roles[user]))
  {
  }

  /** A submission approves at once when approvals are off or no rule matches, and otherwise opens one approval with the rule's steps. */
  lemma SubmitsExactly(db: Db, o: nat, user: nat, id: nat, rule: Option<nat>)
    requires o in db.objects && db.objects[o].kind != BankChange && id !in db.instances
    requires rule.Some? ==> rule.value in db.definitions && db.definitions[rule.value].enabled
                            && db.definitions[rule.value].kind == db.objects[o].kind
    ensures var after := SubmittedWhole(db, o, user, id, rule);
            var open := exists i :: i in db.instances && db.instances[i].subject == o && db.instances[i].standing == Pending;
            var direct := !db.settings.approvals || (!open && rule.None?);
            && (direct ==> after == db.(objects := db.objects[o := db.objects[o].(status := Approved)]))
            && (db.settings.approvals && open ==> after == db)
            && (!direct && !open ==>
                  after == db.(objects := db.objects[o := db.objects[o].(status := PendingApproval)],
                               log := db.log[id := []],
                               instances := db.instances[id :=
                                 Instance(rule.value, db.objects[o].kind, o, user, db.definitions[rule.value].steps, Pending, 0)]))
  {
    if exists i :: i in db.instances && db.instances[i].subject == o && db.instances[i].standing == Pending {
      var i :| i in db.instances && db.instances[i].subject == o && db.instances[i].standing == Pending;
      assert PendingOn(db, o, i);
    }
  }

  /** A new account is written at once unless both settings are on; then it waits on a change of its own, if there is a rule. */
  lemma AsksExactly(db: Db, s: nat, cipher: string, user: nat, o: nat, id: nat, rule: Option<nat>)
    requires s in db.suppliers && o !in db.objects && id !in db.instances
    requires rule.Some? ==> rule.value in db.definitions && db.definitions[rule.value].enabled
                            && db.definitions[rule.value].kind == BankChange
    ensures var after := Asked(db, s, cipher, user, o, id, rule);
            var both := db.settings.approvals && db.settings.bankApproval;
            && (!both ==> after == db.(suppliers := db.suppliers[s := db.suppliers[s].(cipher := Some(cipher))]))
            && (both && rule.None? ==> after == db)
            && (both && rule.Some? ==>
                  after == db.(objects := db.objects[o := Object(BankChange, PendingApproval, s, cipher)],
                               log := db.log[id := []],
                               instances := db.instances[id :=
                                 Instance(rule.value, BankChange, o, user, db.definitions[rule.value].steps, Pending, 0)]))
  {
  }

  lemma StatedText(raw: string)
    ensures Stated(raw) == if Trim(raw) == "" then None else Some(Named(Trim(raw)))
    ensures Owned(Named(Trim(raw))) <==> Trim(raw) in {"pending_approval", "approved", "rejected", "returned"}
  {
    hide Trim, Named;
  }

  /** A created object reads what was stated, or draft; the four texts of approvals are refused. */
  lemma CreatesExactly(db: Db, o: nat, name: string, raw: string, s: nat)
    requires o !in db.objects
    ensures var after := Created(db, o, name, raw, s);
            && (Trim(raw) in {"pending_approval", "approved", "rejected", "returned"} ==> after == db)
            && (Trim(raw) !in {"pending_approval", "approved", "rejected", "returned"} ==>
                  after == db.(objects := db.objects[o :=
                    Object(Routed(name), if Trim(raw) == "" then Draft else Named(Trim(raw)), s, "")]))
  {
    StatedText(raw);
    hide Named, Trim, Stated;
  }

  /** A PATCH writes the status and the supplier it states and keeps what it does not; the four texts pass only when held already. */
  lemma PatchesExactly(db: Db, o: nat, raw: string, moved: Option<nat>)
    requires o in db.objects && db.objects[o].kind != BankChange
    ensures var before, after := db.objects[o], Patched(db, o, raw, moved);
            var refused := Trim(raw) in {"pending_approval", "approved", "rejected", "returned"} && Named(Trim(raw)) != before.status;
            && (refused ==> after == db)
            && (!refused ==>
                  after == db.(objects := db.objects[o := before.(
                    status := if Trim(raw) == "" then before.status else Named(Trim(raw)),
                    supplier := if moved.Some? then moved.value else before.supplier)]))
  {
    StatedText(raw);
    hide Named, Trim, Stated;
  }

  /** What the awards put on a routed object, the confirmation on one approved or sent, and what the portal creates one with. */
  lemma AwardsWriteTheirWords(db: Db, o: nat, name: string, s: nat)
    ensures o in db.objects && db.objects[o].kind != BankChange ==>
              && Handle(db, Sourcing(o, Invites)) == db.(objects := db.objects[o := db.objects[o].(status := Else("open"))])
              && Handle(db, Sourcing(o, Prefers))
                 == db.(objects := db.objects[o := db.objects[o].(status := Else("preferred_negotiation"))])
              && Handle(db, Sourcing(o, Selects)) == db.(objects := db.objects[o := db.objects[o].(status := Else("selected"))])
              && Handle(db, Sourcing(o, Confirms))
                 == (if db.objects[o].status == Approved || db.objects[o].status == Else("sent")
                     then db.(objects := db.objects[o := db.objects[o].(status := Else("confirmed"))]) else db)
    ensures o !in db.objects ==>
              Handle(db, PortalCreate(o, name, s))
              == db.(objects := db.objects[o := Object(Routed(name), Else("submitted"), s, "")])
  {
  }

  /** Administration writes rules, roles and settings, as long as no rule is dropped and none is without steps. */
  lemma AdministersExactly(db: Db, definitions: map<nat, Definition>, roles: map<nat, set<string>>, settings: Settings)
    ensures Handle(db, Administer(definitions, roles, settings)) ==
            if (forall d :: d in definitions ==> |definitions[d].steps| > 0) && (forall d :: d in db.definitions ==> d in definitions)
            then db.(definitions := definitions, roles := roles, settings := settings) else db
  {
  }

  predicate WritesOwned(e: Event) { e.SubmitObject? || e.AskChange? || e.Decide? }

  /** A create, a PATCH, an award or a confirmation leaves an object in an approval's word only if it already was in it. */
  lemma NoWayAround(db: Db, e: Event, o: nat)
    requires !WritesOwned(e) && o in Handle(db, e).objects && Owned(Handle(db, e).objects[o].status)
    ensures o in db.objects && db.objects[o].status == Handle(db, e).objects[o].status
  {
  }

  /** The event is a submission of o, the account change that creates o, or a decision on an instance of o. */
  predicate Authors(db: Db, e: Event, o: nat) {
    || (e.SubmitObject? && e.o == o)
    || (e.AskChange? && e.o == o)
    || (e.Decide? && e.i in db.instances && db.instances[e.i].subject == o)
  }

  /** The object's row is the same, or there is none. */
  predicate SameRow(db: Db, after: Db, o: nat) {
    (o in after.objects <==> o in db.objects) && (o in db.objects ==> after.objects[o] == db.objects[o])
  }

  lemma SubmitLeavesOthers(db: Db, o: nat, user: nat, id: nat, rule: Option<nat>, other: nat)
    requires other != o
    ensures SameRow(db, SubmittedWhole(db, o, user, id, rule), other)
  {
    hide HasPending, HasRule;
  }

  lemma AskLeavesOthers(db: Db, s: nat, cipher: string, user: nat, o: nat, id: nat, rule: Option<nat>, other: nat)
    requires other != o
    ensures SameRow(db, Asked(db, s, cipher, user, o, id, rule), other)
  {
    hide HasRule;
  }

  lemma DecideLeavesOthers(db: Db, i: nat, d: Decision, user: nat, star: bool, other: nat)
    requires i in db.instances ==> db.instances[i].subject != other
    ensures SameRow(db, DecidedWhole(db, i, d, user, star), other)
  {
    hide MayDecide;
  }

  /** Any other event leaves o in an approval's word only if o already was in it. */
  lemma OthersWriteNone(db: Db, e: Event, o: nat)
    requires !Authors(db, e, o) && o in Handle(db, e).objects && Owned(Handle(db, e).objects[o].status)
    ensures o in db.objects && db.objects[o].status == Handle(db, e).objects[o].status
  {
    if !WritesOwned(e) {
      NoWayAround(db, e, o);
    } else {
      hide SubmittedWhole, Asked, DecidedWhole;
      match e
      case SubmitObject(p, user, id, rule) => SubmitLeavesOthers(db, p, user, id, rule, o);
      case AskChange(s, cipher, user, p, id, rule) => AskLeavesOthers(db, s, cipher, user, p, id, rule, o);
      case Decide(i, d, user, star) => DecideLeavesOthers(db, i, d, user, star, o);
    }
  }

  predicate Reads(db: Db, o: nat, w: Word) { o in db.objects && db.objects[o].status == w }

  /** The k-th event put w there, where o did not read it, and o has read it since. */
  predicate PutThereBy(db: Db, run: seq<Event>, k: nat, o: nat, w: Word)
    requires k < |run|
  {
    && Authors(After(db, run[..k]), run[k], o) && !Reads(After(db, run[..k]), o, w)
    && forall m :: k < m <= |run| ==> Reads(After(db, run[..m]), o, w)
  }

  /**
   * Over every run of whole handlers: an object reads an approval's word only if it did at the start and ever since, or
   * a submission of it, a decision on it or the account change that created it put the word there, which it did not read.
   */
  lemma {:induction false} OwnedWordsHaveAnAuthor(db: Db, run: seq<Event>, o: nat)
    requires o in After(db, run).objects && Owned(After(db, run).objects[o].status)
    ensures var w := After(db, run).objects[o].status;
            || (forall m :: 0 <= m <= |run| ==> Reads(After(db, run[..m]), o, w))
            || exists k :: 0 <= k < |run| && PutThereBy(db, run, k, o, w)
  {
    hide Handle, Authors;
    var w := After(db, run).objects[o].status;
    assert run[..|run|] == run;
    if run == [] {
    } else {
      var n := |run| - 1;
      if !Reads(After(db, run[..n]), o, w) {
        if !Authors(After(db, run[..n]), run[n], o) {
          OthersWriteNone(After(db, run[..n]), run[n], o);
        }
        assert PutThereBy(db, run, n, o, w);
      } else {
        OwnedWordsHaveAnAuthor(db, run[..n], o);
        assert forall m :: 0 <= m <= n ==> run[..n][..m] == run[..m];
        if k :| 0 <= k < n && PutThereBy(db, run[..n], k, o, w) {
          assert PutThereBy(db, run, k, o, w);
        }
      }
    }
  }

  /** A request that states a word is answered by the whitespace around it making no difference. */
  lemma PaddingDoesNotHelp(raw: string, w: Word)
    requires Named(Trim(raw)) == w && Owned(w)
    ensures RefusesStatus(raw, None)
    ensures forall current :: RefusesStatus(raw, Some(current)) <==> current != w
  {
    assert Trim(raw) != "";
  }

  // What the engine keeps over whole handlers.

  /** A routed object in approval has an open instance. */
  predicate PendingIsOpen(db: Db, o: nat)
    requires o in db.objects
  {
    db.objects[o].kind != BankChange && db.objects[o].status == PendingApproval ==> HasPending(db, o)
  }

  predicate Whole(db: Db) { Sound(db) && forall o :: o in db.objects ==> PendingIsOpen(db, o) }

  lemma PendingStays(db: Db, after: Db, o: nat)
    requires forall i :: PendingOn(db, o, i) ==> PendingOn(after, o, i)
    ensures HasPending(db, o) ==> HasPending(after, o)
  {
    if HasPending(db, o) {
      var i :| i in db.instances && PendingOn(db, o, i);
      assert PendingOn(after, o, i);
    }
  }

  lemma StatusKeepsWhole(db: Db, o: nat, w: Word)
    requires Whole(db) && IsRouted(db, o) && (w == PendingApproval ==> HasPending(db, o))
    ensures Whole(WithStatus(db, o, w))
  {
    hide Sound;
    var after := WithStatus(db, o, w);
    StatusKeepsSound(db, o, w);
    forall p | p in after.objects ensures PendingIsOpen(after, p) {
      assert PendingIsOpen(db, p);
      PendingStays(db, after, p);
    }
  }

  lemma OpenKeepsWhole(db: Db, i: nat, inst: Instance)
    requires Whole(db) && Sound(Opened(db, i, inst)) && i !in db.instances
    ensures Whole(Opened(db, i, inst))
  {
    hide Sound;
    var after := Opened(db, i, inst);
    forall p | p in after.objects ensures PendingIsOpen(after, p) {
      assert PendingIsOpen(db, p);
      PendingStays(db, after, p);
    }
  }

  lemma SubmitKeepsWhole(db: Db, o: nat, user: nat, id: nat, rule: Option<nat>)
    requires Whole(db)
    ensures Whole(SubmittedWhole(db, o, user, id, rule))
  {
    if IsRouted(db, o) && id !in db.instances && HasRule(db, rule, db.objects[o].kind) {
      if !db.settings.approvals || (rule.None? && !HasPending(db, o)) {
        StatusKeepsWhole(db, o, Approved);
      } else if !HasPending(db, o) {
        var inst := Instance(rule.value, db.objects[o].kind, o, user, db.definitions[rule.value].steps, Pending, 0);
        OpenKeepsSound(db, id, inst);
        OpenKeepsWhole(db, id, inst);
        assert PendingOn(Opened(db, id, inst), o, id);
        StatusKeepsWhole(Opened(db, id, inst), o, PendingApproval);
      }
    }
  }

  lemma DecideKeepsWhole(db: Db, i: nat, d: Decision, user: nat, star: bool)
    requires Whole(db)
    ensures Whole(DecidedWhole(db, i, d, user, star))
  {
    var after := DecidedWhole(db, i, d, user, star);
    if after != db {
      assert InstanceSound(db, i);
      var a := Action(db.instances[i].current, d, user, if user in db.roles then db.roles[user] else {}, star);
      DecideKeepsSound(db, i, a);
      hide Sound;
      forall p | p in after.objects ensures PendingIsOpen(after, p) {
        assert PendingIsOpen(db, p);
        if p == db.instances[i].subject {
          assert after.objects[p].status == PendingApproval ==> PendingOn(after, p, i);
        } else {
          PendingStays(db, after, p);
        }
      }
    }
  }

  /** Objects are added or rewritten, and none of them enters approval. */
  lemma ObjectsKeepWhole(db: Db, objects: map<nat, Object>)
    requires Whole(db) && forall o :: o in db.objects ==> o in objects && objects[o].kind == db.objects[o].kind
    requires forall o :: o in db.objects && db.objects[o].kind == BankChange ==> objects[o] == db.objects[o]
    requires forall o :: o in objects && objects[o].kind != BankChange && objects[o].status == PendingApproval
                         ==> o in db.objects && db.objects[o].status == PendingApproval
    ensures Whole(db.(objects := objects))
  {
    var after := db.(objects := objects);
    SoundElsewhere(db, after);
    hide Sound;
    forall p | p in objects ensures PendingIsOpen(after, p) {
      assert p in db.objects ==> PendingIsOpen(db, p);
      PendingStays(db, after, p);
    }
  }

  lemma NewChangeKeepsWhole(db: Db, o: nat, s: nat, cipher: string)
    requires Whole(db) && o !in db.objects
    ensures Whole(db.(objects := db.objects[o := Object(BankChange, PendingApproval, s, cipher)]))
  {
    ObjectsKeepWhole(db, db.objects[o := Object(BankChange, PendingApproval, s, cipher)]);
  }

  lemma AskKeepsWhole(db: Db, s: nat, cipher: string, user: nat, o: nat, id: nat, rule: Option<nat>)
    requires Whole(db)
    ensures Whole(Asked(db, s, cipher, user, o, id, rule))
  {
    if s in db.suppliers && o !in db.objects && id !in db.instances && HasRule(db, rule, BankChange) {
      if !(db.settings.approvals && db.settings.bankApproval) {
        ElsewhereKeepsWhole(db, db.(suppliers := Paid(db.suppliers, s, cipher)));
      } else if rule.Some? {
        var inst := Instance(rule.value, BankChange, o, user, db.definitions[rule.value].steps, Pending, 0);
        NewChangeKeepsWhole(db, o, s, cipher);
        var with := db.(objects := db.objects[o := Object(BankChange, PendingApproval, s, cipher)]);
        forall j | j in with.instances ensures with.instances[j].subject != o {
          assert InstanceSound(db, j);
        }
        OpenKeepsSound(with, id, inst);
        OpenKeepsWhole(with, id, inst);
      }
    }
  }

  /** Neither objects nor instances are touched. */
  lemma ElsewhereKeepsWhole(db: Db, after: Db)
    requires after == db.(definitions := after.definitions, suppliers := after.suppliers, roles := after.roles,
                          settings := after.settings)
    requires Whole(db)
    requires db.definitions.Keys <= after.definitions.Keys
    requires forall d :: d in after.definitions ==> after.definitions[d].steps != []
    ensures Whole(after)
  {
    assert forall d :: d in db.definitions ==> d in after.definitions.Keys;
    SoundElsewhere(db, after);
    hide Sound;
    forall p | p in after.objects ensures PendingIsOpen(after, p) {
      assert PendingIsOpen(db, p);
      PendingStays(db, after, p);
    }
  }

  lemma HandleKeepsWhole(db: Db, e: Event)
    requires Whole(db)
    ensures Whole(Handle(db, e))
  {
    match e
    case SubmitObject(o, user, id, rule) => SubmitKeepsWhole(db, o, user, id, rule);
    case AskChange(s, cipher, user, o, id, rule) => AskKeepsWhole(db, s, cipher, user, o, id, rule);
    case Decide(i, d, user, star) => DecideKeepsWhole(db, i, d, user, star);
    case Administer(_, _, _) => if Handle(db, e) != db { ElsewhereKeepsWhole(db, Handle(db, e)); }
    case _ => OtherKeepsWhole(db, e);
  }

  lemma OtherKeepsWhole(db: Db, e: Event)
    requires Whole(db) && (e.CreateObject? || e.PatchObject? || e.Sourcing? || e.PortalCreate?)
    ensures Whole(Handle(db, e))
  {
    hide Named, Stated, RefusesStatus, Whole;
    var after := Handle(db, e);
    assert after == db.(objects := after.objects);
    forall o | o in after.objects && after.objects[o].kind != BankChange && after.objects[o].status == PendingApproval
      ensures o in db.objects && db.objects[o].status == PendingApproval
    {
      NoWayAround(db, e, o);
    }
    ObjectsKeepWhole(db, after.objects);
  }

  /** Over every run of whole handlers: the engine stays sound, and nothing reads "in approval" without an open approval. */
  lemma {:induction false} RunKeepsWhole(db: Db, run: seq<Event>)
    requires Whole(db)
    ensures Whole(After(db, run))
  {
    if run != [] {
      RunKeepsWhole(db, run[..|run| - 1]);
      HandleKeepsWhole(After(db, run[..|run| - 1]), run[|run| - 1]);
    }
  }

  // A handler whose statements nothing interrupts is the function above.

  function RolesOf(db: Db, user: nat): set<string> { if user in db.roles then db.roles[user] else {} }

  lemma OverStays(s: R.State, r: nat)
    requires r in s.requests && s.requests[r].Over?
    ensures R.Go(s, r) == s
  {
  }

  lemma LockAlone(s: R.State, r: nat, i: nat, d: Decision, user: nat, star: bool)
    requires R.Inv(s) && r in s.requests && s.requests[r] == R.Deciding(i, d, user, star) && i !in s.locks
    ensures R.Go(s, r) == if i in s.db.instances && s.db.instances[i].standing == Pending
                          then R.To(s, r, R.Holding(i, d, user, star)).(locks := s.locks[i := r])
                          else R.To(s, r, R.Over(R.Refused))
  {
    if i in s.db.instances {
      R.SoundAt(s.db, i);
    }
  }

  /** The four statements of a decision, run in one go, are the decision. */
  lemma DecisionAlone(s: R.State, r: nat, i: nat, d: Decision, user: nat, star: bool)
    requires R.Inv(s) && r in s.requests && s.requests[r] == R.Deciding(i, d, user, star) && i !in s.locks
    ensures R.Go(R.Go(R.Go(R.Go(s, r), r), r), r).db == DecidedWhole(s.db, i, d, user, star)
  {
    LockAlone(s, r, i, d, user, star);
    var s1 := R.Go(s, r);
    if i !in s.db.instances || s.db.instances[i].standing != Pending {
      OverStays(s1, r);
    } else {
      R.SoundAt(s.db, i);
      EntitleAlone(s1, r, i, d, user, star);
    }
  }

  lemma EntitleAlone(s: R.State, r: nat, i: nat, d: Decision, user: nat, star: bool)
    requires r in s.requests && s.requests[r] == R.Holding(i, d, user, star)
    requires i in s.db.instances && InstanceSound(s.db, i) && s.db.instances[i].standing == Pending
    ensures R.Go(R.Go(R.Go(s, r), r), r).db == DecidedWhole(s.db, i, d, user, star)
  {
    hide Decided;
    var inst, roles := s.db.instances[i], RolesOf(s.db, user);
    if MayDecide(inst.steps[inst.current], roles, star) {
      assert R.Go(s, r) == R.To(s, r, R.Entitled(i, d, user, star, roles));
      ClearAlone(R.Go(s, r), r, i, d, user, star, roles);
    } else {
      assert R.Go(s, r) == R.Freed(s, r, i, R.Refused);
      OverStays(R.Go(s, r), r);
    }
  }

  lemma ClearAlone(s: R.State, r: nat, i: nat, d: Decision, user: nat, star: bool, roles: set<string>)
    requires r in s.requests && s.requests[r] == R.Entitled(i, d, user, star, roles)
    requires i in s.db.instances && i in s.db.log
    ensures R.Go(R.Go(s, r), r).db ==
            if d == Return || s.db.instances[i].requestedBy != user || !s.db.settings.blockSelf
            then Decided(s.db, i, Action(s.db.instances[i].current, d, user, roles, star)) else s.db
  {
    hide Decided;
    if d == Return || s.db.instances[i].requestedBy != user || !s.db.settings.blockSelf {
      assert R.Go(s, r) == R.To(s, r, R.Cleared(i, d, user, star, roles));
    } else {
      assert R.Go(s, r) == R.Freed(s, r, i, R.Refused);
      OverStays(R.Go(s, r), r);
    }
  }

  /** The request's next statement, meeting this. */
  function Meet(s: R.State, r: nat, id: nat, pick: Option<nat>): R.State { R.Next(s, R.Run(r, R.Luck(true, id, pick))) }

  lemma OverStaysFor(s: R.State, r: nat, id: nat, pick: Option<nat>)
    requires r in s.requests && s.requests[r].Over?
    ensures Meet(s, r, id, pick) == s
  {
  }

  /** Likewise the statements of a submission; found is what the query for an open approval answers. */
  lemma SubmitAlone(s: R.State, r: nat, o: nat, user: nat, id: nat, rule: Option<nat>, found: Option<nat>)
    requires R.Inv(s) && r in s.requests && s.requests[r] == R.Submitting(o, user) && R.FindsPending(s.db, o, found)
    requires IsRouted(s.db, o) && id !in s.db.instances && id !in s.spent && HasRule(s.db, rule, s.db.objects[o].kind)
    ensures Meet(Meet(Meet(Meet(Meet(s, r, 0, None), r, 0, found), r, 0, rule), r, id, None), r, 0, None).db
            == SubmittedWhole(s.db, o, user, id, rule)
  {
    var s1 := Meet(s, r, 0, None);
    if s.db.settings.approvals {
      assert s1 == R.To(s, r, R.SubmitOn(o, user));
      FoundAlone(s1, r, o, user, id, rule, found);
    } else {
      assert s1 == R.To(s, r, R.SubmitOff(o));
      var s2 := Meet(s1, r, 0, found);
      assert s2.db == WithStatus(s.db, o, Approved);
      OverStaysFor(s2, r, 0, rule);
      OverStaysFor(s2, r, id, None);
      OverStaysFor(s2, r, 0, None);
    }
  }

  lemma FoundAlone(s: R.State, r: nat, o: nat, user: nat, id: nat, rule: Option<nat>, found: Option<nat>)
    requires r in s.requests && s.requests[r] == R.SubmitOn(o, user) && R.FindsPending(s.db, o, found) && s.db.settings.approvals
    requires IsRouted(s.db, o) && id !in s.db.instances && id !in s.spent && HasRule(s.db, rule, s.db.objects[o].kind)
    ensures Meet(Meet(Meet(Meet(s, r, 0, found), r, 0, rule), r, id, None), r, 0, None).db == SubmittedWhole(s.db, o, user, id, rule)
  {
    var s1 := Meet(s, r, 0, found);
    if found.Some? {
      assert HasPending(s.db, o);
      OverStaysFor(s1, r, 0, rule);
      OverStaysFor(s1, r, id, None);
      OverStaysFor(s1, r, 0, None);
    } else {
      assert s1 == R.To(s, r, R.SubmitMatch(o, user));
      MatchAlone(s1, r, o, user, id, rule);
    }
  }

  lemma MatchAlone(s: R.State, r: nat, o: nat, user: nat, id: nat, rule: Option<nat>)
    requires r in s.requests && s.requests[r] == R.SubmitMatch(o, user) && !HasPending(s.db, o) && s.db.settings.approvals
    requires IsRouted(s.db, o) && id !in s.db.instances && id !in s.spent && HasRule(s.db, rule, s.db.objects[o].kind)
    ensures Meet(Meet(Meet(s, r, 0, rule), r, id, None), r, 0, None).db == SubmittedWhole(s.db, o, user, id, rule)
  {
    hide HasPending, Opened, WithStatus;
    var s1 := Meet(s, r, 0, rule);
    if rule.None? {
      assert s1 == R.To(s, r, R.SubmitUnmatched(o));
      var s2 := Meet(s1, r, id, None);
      OverStaysFor(s2, r, 0, None);
    } else {
      var steps := s.db.definitions[rule.value].steps;
      assert s1 == R.To(s, r, R.SubmitInsert(o, user, rule.value, steps));
      var inst := R.NewInstance(s.db, o, user, rule.value, steps);
      var s2 := Meet(s1, r, id, None);
      assert s2 == R.To(s.(db := Opened(s.db, id, inst)), r, R.SubmitMark(o, id));
    }
  }

  /** The two statements of a PATCH. */
  lemma PatchAlone(t: R.State, r: nat, o: nat, raw: string, moved: Option<nat>)
    requires R.Inv(t) && r in t.requests && t.requests[r] == R.Patching(o, Stated(raw), moved)
    ensures Meet(Meet(t, r, 0, None), r, 0, None).db == Patched(t.db, o, raw, moved)
  {
    PatchReads(t, r, o, raw, moved);
    PatchedAsStated(t.db, o, raw, moved);
    hide Stated, Meet, R.Inv, R.PatchedBy, Patched, RefusesStatus;
    var t1 := Meet(t, r, 0, None);
    if IsRouted(t.db, o) && !RefusesStatus(raw, Some(t.db.objects[o].status)) {
      PatchWrites(t1, r, o, Stated(raw), moved);
    } else {
      OverStaysFor(t1, r, 0, None);
    }
  }

  lemma PatchedAsStated(db: Db, o: nat, raw: string, moved: Option<nat>)
    ensures Patched(db, o, raw, moved)
            == if IsRouted(db, o) && !RefusesStatus(raw, Some(db.objects[o].status)) then R.PatchedBy(db, o, Stated(raw), moved)
               else db
  {
    hide Stated, RefusesStatus;
  }

  lemma PatchReads(t: R.State, r: nat, o: nat, raw: string, moved: Option<nat>)
    requires r in t.requests && t.requests[r] == R.Patching(o, Stated(raw), moved)
    ensures Meet(t, r, 0, None)
            == R.To(t, r, if IsRouted(t.db, o) && !RefusesStatus(raw, Some(t.db.objects[o].status))
                          then R.PatchChecked(o, Stated(raw), moved) else R.Over(R.Refused))
  {
    hide Stated, R.PatchedBy;
  }

  lemma PatchWrites(t: R.State, r: nat, o: nat, w: Option<Word>, moved: Option<nat>)
    requires r in t.requests && t.requests[r] == R.PatchChecked(o, w, moved) && o in t.db.objects
    ensures Meet(t, r, 0, None).db == R.PatchedBy(t.db, o, w, moved)
  {
    hide R.PatchedBy;
  }

  /** And those of an account change. */
  lemma ChangeAlone(t: R.State, r: nat, s: nat, cipher: string, user: nat, o: nat, id: nat, rule: Option<nat>)
    requires R.Inv(t) && r in t.requests && t.requests[r] == R.Changing(s, cipher, user) && s in t.db.suppliers
    requires o !in t.db.objects && id !in t.db.instances && id !in t.spent
    requires rule.Some? ==> R.IsNewest(t.db, rule.value, BankChange)
    ensures Meet(Meet(Meet(Meet(Meet(t, r, 0, None), r, 0, None), r, 0, rule), r, o, None), r, id, None).db
            == Asked(t.db, s, cipher, user, o, id, rule)
  {
    var t2 := Meet(Meet(t, r, 0, None), r, 0, None);
    SettingsRead(t, r, s, cipher, user);
    if t.db.settings.approvals && t.db.settings.bankApproval {
      hide Meet, Sound;
      AskAlone(t2, r, s, cipher, user, o, id, rule);
    } else {
      hide Sound;
      var t3 := Meet(t2, r, 0, rule);
      OverStaysFor(t3, r, o, None);
      OverStaysFor(t3, r, id, None);
    }
  }

  lemma SettingsRead(t: R.State, r: nat, s: nat, cipher: string, user: nat)
    requires r in t.requests && t.requests[r] == R.Changing(s, cipher, user) && s in t.db.suppliers
    ensures Meet(Meet(t, r, 0, None), r, 0, None)
            == R.To(t, r, if t.db.settings.approvals && t.db.settings.bankApproval then R.ChangePick(s, cipher, user)
                          else R.ChangeDirect(s, cipher))
  {
    assert Meet(t, r, 0, None) == R.To(t, r, R.ChangingRead(s, cipher, user, t.db.settings.approvals));
  }

  lemma AskAlone(t: R.State, r: nat, s: nat, cipher: string, user: nat, o: nat, id: nat, rule: Option<nat>)
    requires Sound(t.db) && r in t.requests && t.requests[r] == R.ChangePick(s, cipher, user) && s in t.db.suppliers
    requires o !in t.db.objects && id !in t.db.instances && id !in t.spent
    requires t.db.settings.approvals && t.db.settings.bankApproval
    requires rule.Some? ==> R.IsNewest(t.db, rule.value, BankChange)
    ensures Meet(Meet(Meet(t, r, 0, rule), r, o, None), r, id, None).db == Asked(t.db, s, cipher, user, o, id, rule)
  {
    R.NewObjectHasNoInstance(t.db, o);
    hide Sound, Opened;
    var t1 := Meet(t, r, 0, rule);
    if rule.None? {
      OverStaysFor(t1, r, o, None);
      OverStaysFor(t1, r, id, None);
    } else {
      var steps := t.db.definitions[rule.value].steps;
      assert t1 == R.To(t, r, R.ChangeObject(s, cipher, user, rule.value, steps));
      ChangeOpens(t1, r, s, cipher, user, o, id, rule.value, steps);
    }
  }

  /** The two inserts of a change. */
  lemma ChangeOpens(t: R.State, r: nat, s: nat, cipher: string, user: nat, o: nat, id: nat, rule: nat, steps: seq<Step>)
    requires r in t.requests && t.requests[r] == R.ChangeObject(s, cipher, user, rule, steps)
    requires o !in t.db.objects && NoInstance(t.db, o) && id !in t.db.instances && id !in t.spent
    ensures var with := t.db.(objects := t.db.objects[o := Object(BankChange, PendingApproval, s, cipher)]);
            Meet(Meet(t, r, o, None), r, id, None).db
            == Opened(with, id, Instance(rule, BankChange, o, user, steps, Pending, 0))
  {
    hide Opened;
    var with := t.db.(objects := t.db.objects[o := Object(BankChange, PendingApproval, s, cipher)]);
    assert Meet(t, r, o, None) == R.To(t.(db := with), r, R.ChangeInstance(o, user, rule, steps));
    assert !HasPending(with, o);
  }

  // The handlers as they run, statement after statement.

  /** What the suppliers hold after a decision. */
  lemma ActPays(db: Db, i: nat, a: Action)
    requires Sound(db) && i in db.instances && i in db.log && db.instances[i].standing == Pending
    ensures var after := Decided(db, i, a);
            var inst := after.instances[i];
            && inst.subject in after.objects
            && (inst.standing == Settled(Approve) && inst.kind == BankChange ==>
                  var change := after.objects[inst.subject];
                  change.supplier in after.suppliers ==> after.suppliers[change.supplier].cipher == Some(change.cipher))
            && (inst.standing != Settled(Approve) || inst.kind != BankChange ==> after.suppliers == db.suppliers)
  {
    assert InstanceSound(db, i);
    forall s | s in db.suppliers ensures Decided(db, i, a).suppliers.Keys == db.suppliers.Keys {
      PaysExactly(db, i, a, s);
    }
  }

  datatype SubmitAnswer = Missing | AutoApproved | AlreadyOpen | Opens

  datatype ChangeAnswer = NoSupplier | WrittenAtOnce | NoRule | PutUp

  class Engine {
    var definitions: map<nat, Definition>
    var objects: map<nat, Object>
    var instances: map<nat, Instance>
    var log: map<nat, seq<Action>>
    var suppliers: map<nat, Supplier>
    var roles: map<nat, set<string>>
    var settings: Settings

    function View(): Db
      reads this
    {
      Db(definitions, objects, instances, log, suppliers, roles, settings)
    }

    ghost predicate Valid()
      reads this
    {
      Whole(View())
    }

    constructor (settings: Settings)
      ensures Valid() && View() == Db(map[], map[], map[], map[], map[], map[], settings)
    {
      definitions, objects, instances, log, suppliers, roles := map[], map[], map[], map[], map[], map[];
      this.settings := settings;
    }

    /** Rules, roles and settings as their own handlers write them; no rule is dropped and none is without steps. */
    method Administrate(rules: map<nat, Definition>, roles: map<nat, set<string>>, settings: Settings)
      requires Valid() && definitions.Keys <= rules.Keys && forall d :: d in rules ==> rules[d].steps != []
      modifies `definitions, `roles, `settings
      ensures Valid() && View() == old(Handle(View(), Administer(rules, roles, settings)))
    {
      hide Whole;
      HandleKeepsWhole(View(), Administer(rules, roles, settings));
      definitions := rules;
      this.roles, this.settings := roles, settings;
    }

    method RegisterSupplier(s: nat, cipher: Option<string>)
      requires Valid() && s !in suppliers
      modifies `suppliers
      ensures Valid() && View() == old(View()).(suppliers := old(suppliers)[s := Supplier(cipher, cipher)])
    {
      ElsewhereKeepsWhole(View(), View().(suppliers := suppliers[s := Supplier(cipher, cipher)]));
      suppliers := suppliers[s := Supplier(cipher, cipher)];
    }

    method CreateObject(o: nat, name: string, raw: string, s: nat) returns (refused: bool)
      requires Valid() && o !in objects
      modifies `objects
      ensures Valid() && View() == old(Handle(View(), Event.CreateObject(o, name, raw, s)))
      ensures refused <==> RefusesStatus(raw, None)
    {
      hide Named, Stated, RefusesStatus, Whole;
      HandleKeepsWhole(View(), Event.CreateObject(o, name, raw, s));
      if RefusesStatus(raw, None) {
        return true;
      }
      objects := objects[o := Object(Routed(name), OrElse(Stated(raw), Draft), s, "")];
      return false;
    }

    method PatchObject(o: nat, raw: string, moved: Option<nat>) returns (found: bool, refused: bool)
      requires Valid()
      modifies `objects
      ensures Valid() && View() == old(Handle(View(), Event.PatchObject(o, raw, moved)))
      ensures found <==> old(IsRouted(View(), o))
      ensures refused <==> found && RefusesStatus(raw, Some(old(objects)[o].status))
    {
      hide Named, Stated, RefusesStatus, Whole;
      HandleKeepsWhole(View(), Event.PatchObject(o, raw, moved));
      if o !in objects || objects[o].kind == BankChange {
        return false, false;
      }
      var before := objects[o];
      if RefusesStatus(raw, Some(before.status)) {
        return true, true;
      }
      objects := objects[o := before.(status := OrElse(Stated(raw), before.status), supplier := OrElse(moved, before.supplier))];
      return true, false;
    }

    /** rule is what matching picked, and is looked at only when the handler gets that far. */
    method Submit(o: nat, user: nat, id: nat, rule: Option<nat>) returns (answer: SubmitAnswer)
      requires Valid() && id !in instances && (IsRouted(View(), o) ==> HasRule(View(), rule, objects[o].kind))
      modifies `objects, `instances, `log
      ensures Valid() && View() == old(SubmittedWhole(View(), o, user, id, rule))
      ensures answer == Missing <==> !old(IsRouted(View(), o))
      ensures answer == AutoApproved ==> o in objects && objects[o].status == Approved && instances == old(instances)
      ensures answer == AlreadyOpen ==> View() == old(View()) && HasPending(View(), o)
      ensures answer == Opens ==> id in instances && PendingOn(View(), o, id) && o in objects && objects[o].status == PendingApproval
    {
      if o !in objects || objects[o].kind == BankChange {
        return Missing;
      }
      SubmitKeepsWhole(View(), o, user, id, rule);
      if !settings.approvals {
        SetStatus(o, Approved);
        return AutoApproved;
      }
      if HasPending(View(), o) {
        return AlreadyOpen;
      }
      if rule.None? {
        SetStatus(o, Approved);
        return AutoApproved;
      }
      Open(id, Instance(rule.value, objects[o].kind, o, user, definitions[rule.value].steps, Pending, 0));
      SetStatus(o, PendingApproval);
      return Opens;
    }

    method Open(id: nat, inst: Instance)
      modifies `instances, `log
      ensures View() == old(Opened(View(), id, inst))
    {
      instances := instances[id := inst];
      log := log[id := []];
    }

    method SetStatus(o: nat, w: Word)
      modifies `objects
      ensures View() == old(WithStatus(View(), o, w))
    {
      if o in objects {
        objects := objects[o := objects[o].(status := w)];
      }
    }

    /** One decision, refused or recorded with everything that follows from it. */
    method Act(i: nat, d: Decision, user: nat, star: bool) returns (answer: Answer)
      requires Valid()
      modifies `objects, `instances, `log, `suppliers
      ensures Valid() && View() == old(DecidedWhole(View(), i, d, user, star))
      ensures answer == old(DecisionAnswer(View(), i, d, user, star))
      ensures answer.Ok? ==> i in instances && instances[i].standing == answer.standing
      ensures answer == Ok(Settled(Approve)) && instances[i].kind == BankChange ==>
        && instances[i].subject in objects
        && var change := objects[instances[i].subject];
           change.supplier in suppliers ==> suppliers[change.supplier].cipher == Some(change.cipher)
      ensures answer != Ok(Settled(Approve)) || instances[i].kind != BankChange ==> suppliers == old(suppliers)
    {
      ghost var before := View();
      DecideKeepsWhole(View(), i, d, user, star);
      if i !in instances || instances[i].definition !in definitions {
        return NotFound;
      }
      var inst := instances[i];
      if inst.standing != Pending {
        return NotPending;
      }
      var steps := InstanceSteps(inst.steps, definitions[inst.definition].steps);
      if inst.current >= |steps| {
        return InvalidWorkflow;
      }
      var role := steps[inst.current].role;
      if role != "" && !(user in roles && role in roles[user]) && !star {
        return Forbidden;
      }
      if d != Return && inst.requestedBy == user && settings.blockSelf {
        return SeparationOfDuties;
      }
      assert InstanceSound(View(), i);
      answer := Ok(Advanced(inst, d).standing);
      ghost var a := Action(instances[i].current, d, user, if user in roles then roles[user] else {}, star);
      Record(i, Action(instances[i].current, d, user, if user in roles then roles[user] else {}, star));
      ActPays(before, i, a);
    }

    method Record(i: nat, a: Action)
      requires i in instances && i in log
      modifies `objects, `instances, `log, `suppliers
      ensures View() == old(Decided(View(), i, a))
    {
      log := log[i := log[i] + [a]];
      var inst := instances[i];
      if a.decision == Approve && inst.current + 1 < |inst.steps| {
        inst := inst.(current := inst.current + 1);
      } else {
        inst := inst.(standing := Settled(a.decision));
      }
      instances := instances[i := inst];
      SetStatus(inst.subject, ObjectWord(inst.standing));
      if inst.standing == Settled(Approve) && inst.kind == BankChange && inst.subject in objects {
        SetAccount(objects[inst.subject].supplier, objects[inst.subject].cipher);
      }
    }

    method SetAccount(s: nat, cipher: string)
      modifies `suppliers
      ensures suppliers == Paid(old(suppliers), s, cipher)
    {
      if s in suppliers {
        suppliers := suppliers[s := suppliers[s].(cipher := Some(cipher))];
      }
    }

    /** A new account for a supplier: written at once, or put up for approval. */
    method ChangeAccount(s: nat, cipher: string, user: nat, o: nat, id: nat, rule: Option<nat>) returns (answer: ChangeAnswer)
      requires Valid() && o !in objects && id !in instances && HasRule(View(), rule, BankChange)
      modifies `objects, `instances, `log, `suppliers
      ensures Valid() && View() == old(Asked(View(), s, cipher, user, o, id, rule))
      ensures answer == (if s !in old(suppliers) then NoSupplier
                         else if !(settings.approvals && settings.bankApproval) then WrittenAtOnce
                         else if rule.None? then NoRule
                         else PutUp)
      ensures answer != WrittenAtOnce ==> suppliers == old(suppliers)
    {
      AskKeepsWhole(View(), s, cipher, user, o, id, rule);
      if s !in suppliers {
        return NoSupplier;
      }
      if !(settings.approvals && settings.bankApproval) {
        SetAccount(s, cipher);
        return WrittenAtOnce;
      }
      if rule.None? {
        return NoRule;
      }
      objects := objects[o := Object(BankChange, PendingApproval, s, cipher)];
      Open(id, Instance(rule.value, BankChange, o, user, definitions[rule.value].steps, Pending, 0));
      return PutUp;
    }
  }
}
