/**
 * Submissions, account changes and decisions interleaved statement by statement
 * (internal/httpapi/objects.go, suppliers.go, workflows.go).
 */
module ApprovalRuns {
  import opened Common
  import opened Approval

  datatype Answer =
    | Submitted(i: nat)
    | AlreadySubmitted(i: nat)
    | AutoApproved
    | Changed
    | ChangeAsked
    | DecidedAs(decision: Decision)
    | Patched
    | Refused
    | Failed

  /** Where a request stands: between which two of its statements. */
  datatype Request =
    // submitObject
    | Submitting(o: nat, user: nat)
    | SubmitOff(o: nat)
    | SubmitOn(o: nat, user: nat)
    | SubmitMatch(o: nat, user: nat)
    | SubmitUnmatched(o: nat)
    | SubmitInsert(o: nat, user: nat, definition: nat, steps: seq<Step>)
    | SubmitLost(o: nat)
    | SubmitMark(o: nat, i: nat)
    | SubmitCleanup(i: nat)
    // updateSupplier with a bank account
    | Changing(s: nat, cipher: string, user: nat)
    | ChangingRead(s: nat, cipher: string, user: nat, approvals: bool)
    | ChangePick(s: nat, cipher: string, user: nat)
    | ChangeObject(s: nat, cipher: string, user: nat, definition: nat, steps: seq<Step>)
    | ChangeInstance(o: nat, user: nat, definition: nat, steps: seq<Step>)
    | ChangeDirect(s: nat, cipher: string)
    // updateObject; w is the status stated, moved the supplier
    | Patching(o: nat, w: Option<Word>, moved: Option<nat>)
    | PatchChecked(o: nat, w: Option<Word>, moved: Option<nat>)
    // workflowAction
    | Deciding(i: nat, decision: Decision, user: nat, star: bool)
    | Holding(i: nat, decision: Decision, user: nat, star: bool)
    | Entitled(i: nat, decision: Decision, user: nat, star: bool, roles: set<string>)
    | Cleared(i: nat, decision: Decision, user: nat, star: bool, roles: set<string>)
    | Over(answer: Answer)

  /** locks says which request's transaction holds an instance's row; spent holds the ids of withdrawn instances. */
  datatype State = State(db: Db, requests: map<nat, Request>, locks: map<nat, nat>, spent: set<nat>)

  /** What a statement meets: whether it succeeds, the id it is handed, and the row a query picks. */
  datatype Luck = Luck(ok: bool, id: nat, pick: Option<nat>)

  /** Write stands for the handlers that put a status of their own on an object in one statement: awards and confirmations. */
  datatype Event =
    | Configure(settings: Settings)
    | AddRule(d: nat, rule: Definition)
    | EditRule(d: nat, enabled: bool, steps: seq<Step>)
    | Grant(user: nat, roles: set<string>)
    | Register(s: nat, cipher: Option<string>)
    | Create(o: nat, name: string, status: Word, s: nat)
    | Write(o: nat, status: Word)
    | Begin(r: nat, request: Request)
    | Run(r: nat, luck: Luck)

  // One request's next statement.

  predicate RoutedObject(db: Db, o: nat) { o in db.objects && db.objects[o].kind != BankChange }

  /** The query for an open approval answers pick. */
  predicate FindsPending(db: Db, o: nat, pick: Option<nat>) {
    if pick.Some? then PendingOn(db, o, pick.value) else !HasPending(db, o)
  }

  predicate IsRule(db: Db, d: nat, kind: Kind) {
    d in db.definitions && db.definitions[d].enabled && db.definitions[d].kind == kind
  }

  predicate IsNewest(db: Db, d: nat, kind: Kind) {
    IsRule(db, d, kind) && forall e :: e in db.definitions && IsRule(db, e, kind) ==> db.definitions[e].version <= db.definitions[d].version
  }

  function To(s: State, r: nat, x: Request): State { s.(requests := s.requests[r := x]) }

  function Freed(s: State, r: nat, i: nat, answer: Answer): State {
    s.(requests := s.requests[r := Over(answer)], locks := s.locks - {i})
  }

  function NewInstance(db: Db, o: nat, user: nat, d: nat, steps: seq<Step>): Instance
    requires o in db.objects
  {
    Instance(d, db.objects[o].kind, o, user, steps, Pending, 0)
  }

  /** Guarded by the partial unique index on pending instances. */
  predicate CanInsert(s: State, luck: Luck, o: nat) {
    luck.ok && luck.id !in s.db.instances && luck.id !in s.spent && !HasPending(s.db, o) && o in s.db.objects
  }

  function RunSubmit(s: State, r: nat, luck: Luck): State
    requires r in s.requests
  {
    match s.requests[r]
    case Submitting(o, user) =>
      if !luck.ok || !RoutedObject(s.db, o) then To(s, r, Over(Refused))
      else if s.db.settings.approvals then To(s, r, SubmitOn(o, user)) else To(s, r, SubmitOff(o))
    case SubmitOff(o) =>
      if luck.ok then To(s.(db := WithStatus(s.db, o, Approved)), r, Over(AutoApproved)) else To(s, r, Over(Failed))
    case SubmitOn(o, user) =>
      if !FindsPending(s.db, o, luck.pick) then s
      else if luck.pick.Some? then To(s, r, Over(AlreadySubmitted(luck.pick.value)))
      else To(s, r, SubmitMatch(o, user))
    case SubmitMatch(o, user) =>
      if !luck.ok || o !in s.db.objects then To(s, r, Over(Failed))
      else if luck.pick.None? then To(s, r, SubmitUnmatched(o))
      else if IsRule(s.db, luck.pick.value, s.db.objects[o].kind)
      then To(s, r, SubmitInsert(o, user, luck.pick.value, s.db.definitions[luck.pick.value].steps))
      else s
    case SubmitUnmatched(o) =>
      if luck.ok then To(s.(db := WithStatus(s.db, o, Approved)), r, Over(AutoApproved)) else To(s, r, Over(Failed))
    case SubmitInsert(o, user, d, steps) =>
      if CanInsert(s, luck, o)
      then To(s.(db := Opened(s.db, luck.id, NewInstance(s.db, o, user, d, steps))), r, SubmitMark(o, luck.id))
      else To(s, r, SubmitLost(o))
    case SubmitLost(o) =>
      if !FindsPending(s.db, o, luck.pick) then s
      else To(s, r, Over(if luck.pick.Some? then AlreadySubmitted(luck.pick.value) else Failed))
    case SubmitMark(o, i) =>
      if luck.ok then To(s.(db := WithStatus(s.db, o, PendingApproval)), r, Over(Submitted(i)))
      else To(s, r, SubmitCleanup(i))
    case SubmitCleanup(i) =>
      if i in s.locks then s
      else if luck.ok && i in s.db.instances && s.db.instances[i].standing == Pending
      then To(s.(db := Withdrawn(s.db, i), spent := s.spent + {i}), r, Over(Failed))
      else To(s, r, Over(Failed))
    case _ => s
  }

  function RunChange(s: State, r: nat, luck: Luck): State
    requires r in s.requests
  {
    match s.requests[r]
    case Changing(sup, cipher, user) =>
      if !luck.ok || sup !in s.db.suppliers then To(s, r, Over(Refused))
      else To(s, r, ChangingRead(sup, cipher, user, s.db.settings.approvals))
    case ChangingRead(sup, cipher, user, approvals) =>
      if !luck.ok then To(s, r, Over(Refused))
      else if approvals && s.db.settings.bankApproval then To(s, r, ChangePick(sup, cipher, user))
      else To(s, r, ChangeDirect(sup, cipher))
    case ChangePick(sup, cipher, user) =>
      if !luck.ok || luck.pick.None? then To(s, r, Over(Refused))
      else if IsNewest(s.db, luck.pick.value, BankChange)
      then To(s, r, ChangeObject(sup, cipher, user, luck.pick.value, s.db.definitions[luck.pick.value].steps))
      else s
    case ChangeObject(sup, cipher, user, d, steps) =>
      if luck.ok && luck.id !in s.db.objects
      then To(s.(db := s.db.(objects := s.db.objects[luck.id := Object(BankChange, PendingApproval, sup, cipher)])),
              r, ChangeInstance(luck.id, user, d, steps))
      else To(s, r, Over(Failed))
    case ChangeInstance(o, user, d, steps) =>
      if CanInsert(s, luck, o)
      then To(s.(db := Opened(s.db, luck.id, NewInstance(s.db, o, user, d, steps))), r, Over(ChangeAsked))
      else To(s, r, Over(Failed))
    case ChangeDirect(sup, cipher) =>
      if luck.ok then To(s.(db := s.db.(suppliers := Paid(s.db.suppliers, sup, cipher))), r, Over(Changed))
      else To(s, r, Over(Failed))
    case _ => s
  }

  /** UPDATE business_objects with what a PATCH states. */
  function PatchedBy(db: Db, o: nat, w: Option<Word>, moved: Option<nat>): Db
    requires o in db.objects
  {
    var before := db.objects[o];
    db.(objects := db.objects[o := before.(status := if w.Some? then w.value else before.status,
                                           supplier := if moved.Some? then moved.value else before.supplier)])
  }

  /** The read that decides the refusal and the write are two statements. */
  function RunPatch(s: State, r: nat, luck: Luck): State
    requires r in s.requests
  {
    match s.requests[r]
    case Patching(o, w, moved) =>
      if !luck.ok || !RoutedObject(s.db, o) then To(s, r, Over(Refused))
      else if w.Some? && Owned(w.value) && w.value != s.db.objects[o].status then To(s, r, Over(Refused))
      else To(s, r, PatchChecked(o, w, moved))
    case PatchChecked(o, w, moved) =>
      if luck.ok && o in s.db.objects then To(s.(db := PatchedBy(s.db, o, w, moved)), r, Over(Patched))
      else To(s, r, Over(Failed))
    case _ => s
  }

  predicate CanLock(s: State, i: nat, luck: Luck) {
    luck.ok && i in s.db.instances && s.db.instances[i].standing == Pending
    && s.db.instances[i].definition in s.db.definitions
    && s.db.instances[i].current < |InstanceSteps(s.db.instances[i].steps, s.db.definitions[s.db.instances[i].definition].steps)|
  }

  function RunDecision(s: State, r: nat, luck: Luck): State
    requires r in s.requests
  {
    match s.requests[r]
    case Deciding(i, decision, user, star) =>
      if i in s.locks then s
      else if CanLock(s, i, luck) then To(s, r, Holding(i, decision, user, star)).(locks := s.locks[i := r])
      else To(s, r, Over(Refused))
    case Holding(i, decision, user, star) =>
      if i !in s.db.instances || s.db.instances[i].definition !in s.db.definitions then s
      else
        var inst := s.db.instances[i];
        var steps := InstanceSteps(inst.steps, s.db.definitions[inst.definition].steps);
        var roles := if user in s.db.roles then s.db.roles[user] else {};
        if luck.ok && inst.current < |steps| && MayDecide(steps[inst.current], roles, star)
        then To(s, r, Entitled(i, decision, user, star, roles))
        else Freed(s, r, i, Refused)
    case Entitled(i, decision, user, star, roles) =>
      if i !in s.db.instances then s
      else if luck.ok && (decision == Return || s.db.instances[i].requestedBy != user || !s.db.settings.blockSelf)
      then To(s, r, Cleared(i, decision, user, star, roles))
      else Freed(s, r, i, Refused)
    case Cleared(i, decision, user, star, roles) =>
      if i !in s.db.instances || i !in s.db.log then s
      else if luck.ok
      then Freed(s.(db := Decided(s.db, i, Action(s.db.instances[i].current, decision, user, roles, star))), r, i, DecidedAs(decision))
      else Freed(s, r, i, Failed)
    case _ => s
  }

  predicate IsSubmit(x: Request) {
    x.Submitting? || x.SubmitOff? || x.SubmitOn? || x.SubmitMatch? || x.SubmitUnmatched? || x.SubmitInsert? || x.SubmitLost?
    || x.SubmitMark? || x.SubmitCleanup?
  }

  predicate IsChange(x: Request) {
    x.Changing? || x.ChangingRead? || x.ChangePick? || x.ChangeObject? || x.ChangeInstance? || x.ChangeDirect?
  }

  predicate IsPatch(x: Request) { x.Patching? || x.PatchChecked? }

  /** An event that is not possible, or waits for a lock, changes nothing. */
  function Next(s: State, e: Event): State {
    match e
    case Configure(settings) => s.(db := s.db.(settings := settings))
    case AddRule(d, rule) =>
      if d in s.db.definitions || rule.steps == [] then s else s.(db := s.db.(definitions := s.db.definitions[d := rule]))
    case EditRule(d, enabled, steps) =>
      if d !in s.db.definitions || steps == [] then s
      else
        var rule := s.db.definitions[d];
        s.(db := s.db.(definitions := s.db.definitions[d := Definition(rule.kind, enabled, rule.version + 1, steps)]))
    case Grant(user, roles) => s.(db := s.db.(roles := s.db.roles[user := roles]))
    case Register(sup, cipher) =>
      if sup in s.db.suppliers then s else s.(db := s.db.(suppliers := s.db.suppliers[sup := Supplier(cipher, cipher)]))
    case Create(o, name, status, sup) =>
      if o in s.db.objects || Owned(status) then s
      else s.(db := s.db.(objects := s.db.objects[o := Object(Routed(name), status, sup, "")]))
    case Write(o, status) =>
      if !RoutedObject(s.db, o) || Owned(status) then s else s.(db := WithStatus(s.db, o, status))
    case Begin(r, x) =>
      if r in s.requests || !(x.Submitting? || x.Changing? || x.Deciding? || x.Patching?) then s else To(s, r, x)
    case Run(r, luck) =>
      if r !in s.requests then s
      else if IsSubmit(s.requests[r]) then RunSubmit(s, r, luck)
      else if IsChange(s.requests[r]) then RunChange(s, r, luck)
      else if IsPatch(s.requests[r]) then RunPatch(s, r, luck)
      else RunDecision(s, r, luck)
  }

  function After(start: State, run: seq<Event>): State {
    if run == [] then start else Next(After(start, run[..|run| - 1]), run[|run| - 1])
  }

  /** No approval has been opened, nothing is in flight, and every supplier holds what it was registered with. */
  predicate Starts(s: State) {
    && s.requests == map[] && s.locks == map[] && s.spent == {}
    && s.db.instances == map[] && s.db.log == map[]
    && (forall d :: d in s.db.definitions ==> s.db.definitions[d].steps != [])
    && (forall o :: o in s.db.objects ==> s.db.objects[o].kind != BankChange)
    && (forall sup :: sup in s.db.suppliers ==> s.db.suppliers[sup].cipher == s.db.suppliers[sup].initial)
  }

  // The invariant.

  /** The request holds the row of a pending instance. */
  predicate Holds(s: State, r: nat, i: nat) {
    && i in s.locks && s.locks[i] == r
    && i in s.db.instances && s.db.instances[i].standing == Pending
  }

  predicate Rules(db: Db, d: nat, steps: seq<Step>) { d in db.definitions && steps != [] }

  predicate RequestSound(s: State, r: nat)
    requires r in s.requests
  {
    match s.requests[r]
    case SubmitOff(o) => RoutedObject(s.db, o)
    case SubmitOn(o, _) => RoutedObject(s.db, o)
    case SubmitMatch(o, _) => RoutedObject(s.db, o)
    case SubmitUnmatched(o) => RoutedObject(s.db, o)
    case SubmitInsert(o, _, d, steps) => RoutedObject(s.db, o) && Rules(s.db, d, steps)
    case SubmitLost(o) => RoutedObject(s.db, o)
    case SubmitMark(o, _) => RoutedObject(s.db, o)
    case PatchChecked(o, _, _) => RoutedObject(s.db, o)
    case ChangeObject(_, _, _, d, steps) => Rules(s.db, d, steps)
    case ChangeInstance(o, _, d, steps) =>
      && Rules(s.db, d, steps) && NoInstance(s.db, o)
      && o in s.db.objects && s.db.objects[o].kind == BankChange && s.db.objects[o].status == PendingApproval
    case Holding(i, _, _, _) => Holds(s, r, i)
    case Entitled(i, _, _, star, roles) =>
      Holds(s, r, i) && s.db.instances[i].current < |s.db.instances[i].steps|
      && MayDecide(s.db.instances[i].steps[s.db.instances[i].current], roles, star)
    case Cleared(i, _, _, star, roles) =>
      Holds(s, r, i) && s.db.instances[i].current < |s.db.instances[i].steps|
      && MayDecide(s.db.instances[i].steps[s.db.instances[i].current], roles, star)
    case _ => true
  }

  predicate OpensSame(x: Request, y: Request) { x.ChangeInstance? && y.ChangeInstance? && x.o == y.o }

  /** Two requests never wait to open an instance on the same account change. */
  predicate ChangesApart(s: State) {
    forall q, r :: q in s.requests && r in s.requests && q != r ==> !OpensSame(s.requests[q], s.requests[r])
  }

  predicate Inv(s: State) {
    && Sound(s.db)
    && (forall r :: r in s.requests ==> RequestSound(s, r))
    && ChangesApart(s)
  }

  // Frames.

  /** What q has locked stays locked and as it is. */
  predicate LocksKept(s: State, t: State, q: nat) {
    forall i :: i in s.locks && s.locks[i] == q ==>
      && i in t.locks && t.locks[i] == q
      && (i in s.db.instances ==> i in t.db.instances && t.db.instances[i] == s.db.instances[i])
  }

  /** A change waiting for its instance still has none. */
  predicate StillWaits(t: State, x: Request) { x.ChangeInstance? ==> NoInstance(t.db, x.o) }

  lemma RequestKept(s: State, t: State, q: nat)
    requires q in s.requests && RequestSound(s, q) && q in t.requests && t.requests[q] == s.requests[q]
    requires DbKept(s.db, t.db) && LocksKept(s, t, q) && StillWaits(t, s.requests[q])
    ensures RequestSound(t, q)
  {
  }

  lemma OneRequestMoves(s: State, t: State, r: nat)
    requires Inv(s) && Sound(t.db) && DbKept(s.db, t.db)
    requires r in t.requests && t.requests == s.requests[r := t.requests[r]] && RequestSound(t, r)
    requires forall q :: q in s.requests && q != r ==>
      LocksKept(s, t, q) && StillWaits(t, s.requests[q]) && !OpensSame(s.requests[q], t.requests[r])
    ensures Inv(t)
  {
    hide RequestSound, Sound, DbKept, LocksKept, StillWaits;
    forall q | q in t.requests ensures RequestSound(t, q) {
      if q != r {
        RequestKept(s, t, q);
      }
    }
    assert forall x, y :: OpensSame(x, y) ==> OpensSame(y, x);
  }

  /** A statement that only reads: the tables stay, and only the request and its own lock move. */
  lemma ReadKeepsInv(s: State, t: State, r: nat)
    requires Inv(s) && t.db == s.db && r in t.requests && t.requests == s.requests[r := t.requests[r]]
    requires RequestSound(t, r) && !t.requests[r].ChangeInstance?
    requires forall i :: i in s.locks && s.locks[i] != r ==> i in t.locks && t.locks[i] == s.locks[i]
    ensures Inv(t)
  {
    forall q | q in s.requests && q != r
      ensures LocksKept(s, t, q) && StillWaits(t, s.requests[q]) && !OpensSame(s.requests[q], t.requests[r])
    {
      assert RequestSound(s, q);
    }
    OneRequestMoves(s, t, r);
  }

  lemma TablesMove(s: State, db: Db)
    requires Inv(s) && Sound(db) && DbKept(s.db, db) && db.instances == s.db.instances
    ensures Inv(s.(db := db))
  {
    hide Sound, DbKept;
    var t := s.(db := db);
    forall r | r in t.requests ensures RequestSound(t, r) {
      assert RequestSound(s, r);
      RequestKept(s, t, r);
    }
  }

  lemma SoundAt(db: Db, i: nat)
    requires Sound(db) && i in db.instances
    ensures InstanceSound(db, i)
  {
  }

  lemma NewObjectHasNoInstance(db: Db, o: nat)
    requires Sound(db) && o !in db.objects
    ensures NoInstance(db, o)
  {
    forall i | i in db.instances ensures db.instances[i].subject != o {
      SoundAt(db, i);
    }
  }

  lemma RequestAt(s: State, r: nat)
    requires Inv(s) && r in s.requests
    ensures RequestSound(s, r)
  {
  }

  // Tables written outside the approval requests.

  lemma RulesAreNotEmpty(db: Db)
    requires Sound(db)
    ensures forall d :: d in db.definitions ==> db.definitions[d].steps != []
  {
  }

  lemma OutsideKeepsRows(s: State, e: Event)
    requires !e.Begin? && !e.Run?
    ensures var t := Next(s, e);
            && t == s.(db := t.db) && t.db.instances == s.db.instances && t.db.log == s.db.log
            && DbKept(s.db, t.db) && AccountChangesKept(s.db, t.db)
  {
  }

  lemma OutsideKeepsRules(s: State, e: Event)
    requires !e.Begin? && !e.Run? && forall d :: d in s.db.definitions ==> s.db.definitions[d].steps != []
    ensures var t := Next(s, e);
            forall d :: d in t.db.definitions ==> t.db.definitions[d].steps != []
  {
  }

  lemma OutsideKeepsInv(s: State, e: Event)
    requires Inv(s) && !e.Begin? && !e.Run?
    ensures Inv(Next(s, e))
  {
    hide Next, DbKept, Sound, RequestSound, ChangesApart;
    RulesAreNotEmpty(s.db);
    OutsideKeepsRows(s, e);
    OutsideKeepsRules(s, e);
    SoundElsewhere(s.db, Next(s, e).db);
    TablesMove(s, Next(s, e).db);
  }

  // Submission.

  lemma MarkKeepsInv(s: State, r: nat, o: nat, w: Word, answer: Answer)
    requires Inv(s) && r in s.requests && RoutedObject(s.db, o)
    ensures Inv(To(s.(db := WithStatus(s.db, o, w)), r, Over(answer)))
  {
    hide Sound;
    var t := To(s.(db := WithStatus(s.db, o, w)), r, Over(answer));
    StatusKeepsSound(s.db, o, w);
    forall q | q in s.requests && q != r ensures StillWaits(t, s.requests[q]) {
      RequestAt(s, q);
    }
    OneRequestMoves(s, t, r);
  }

  lemma OpenedKeepsDb(db: Db, i: nat, inst: Instance)
    requires i !in db.instances
    ensures DbKept(db, Opened(db, i, inst)) && Opened(db, i, inst).instances == db.instances[i := inst]
  {
  }

  lemma InsertKeepsInv(s: State, r: nat, o: nat, user: nat, d: nat, steps: seq<Step>, luck: Luck, next: Request)
    requires Inv(s) && r in s.requests && CanInsert(s, luck, o) && Rules(s.db, d, steps)
    requires (next.SubmitMark? && next.o == o) || next == Over(ChangeAsked)
    requires next.SubmitMark? ==> RoutedObject(s.db, o)
    requires s.db.objects[o].kind == BankChange ==> s.requests[r].ChangeInstance? && s.requests[r].o == o
    ensures Inv(To(s.(db := Opened(s.db, luck.id, NewInstance(s.db, o, user, d, steps))), r, next))
  {
    hide Sound, Opened, DbKept, NoInstance, HasPending;
    var inst := NewInstance(s.db, o, user, d, steps);
    OpenedKeepsDb(s.db, luck.id, inst);
    var t := To(s.(db := Opened(s.db, luck.id, inst)), r, next);
    RequestAt(s, r);
    assert s.db.objects[o].kind == BankChange ==> NoInstance(s.db, o);
    OpensSound(s.db, luck.id, inst);
    forall q | q in s.requests && q != r ensures LocksKept(s, t, q) && StillWaits(t, s.requests[q]) {
      RequestAt(s, q);
      assert !OpensSame(s.requests[q], s.requests[r]);
      if s.requests[q].ChangeInstance? {
        OpenedElsewhere(s.db, luck.id, inst, s.requests[q].o);
      }
    }
    OneRequestMoves(s, t, r);
  }

  lemma OpensSound(db: Db, i: nat, inst: Instance)
    requires Sound(db) && i !in db.instances && !HasPending(db, inst.subject)
    requires inst.standing == Pending && inst.current == 0 && inst.steps != []
    requires inst.subject in db.objects && db.objects[inst.subject].kind == inst.kind && inst.definition in db.definitions
    requires inst.kind == BankChange ==> db.objects[inst.subject].status == PendingApproval && NoInstance(db, inst.subject)
    ensures Sound(Opened(db, i, inst))
  {
    OpenKeepsSound(db, i, inst);
  }

  lemma OpenedElsewhere(db: Db, i: nat, inst: Instance, o: nat)
    requires NoInstance(db, o) && inst.subject != o
    ensures NoInstance(Opened(db, i, inst), o)
  {
  }

  lemma WithdrawKeepsInv(s: State, r: nat, i: nat)
    requires Inv(s) && r in s.requests && i !in s.locks
    ensures Inv(To(s.(db := Withdrawn(s.db, i), spent := s.spent + {i}), r, Over(Failed)))
  {
    hide Sound;
    var t := To(s.(db := Withdrawn(s.db, i), spent := s.spent + {i}), r, Over(Failed));
    WithdrawKeepsSound(s.db, i);
    forall q | q in s.requests && q != r ensures StillWaits(t, s.requests[q]) {
      assert RequestSound(s, q);
    }
    OneRequestMoves(s, t, r);
  }

  /** The phases of a submission that only read. */
  lemma SubmitReadKeepsInv(s: State, r: nat, luck: Luck)
    requires Inv(s) && r in s.requests
    requires var x := s.requests[r]; x.Submitting? || x.SubmitOn? || x.SubmitMatch? || x.SubmitLost?
    ensures Inv(RunSubmit(s, r, luck))
  {
    RulesAreNotEmpty(s.db);
    RequestAt(s, r);
    hide Sound, ChangesApart;
    if RunSubmit(s, r, luck) != s {
      ReadKeepsInv(s, RunSubmit(s, r, luck), r);
    }
  }

  lemma SubmitKeepsInv(s: State, r: nat, luck: Luck)
    requires Inv(s) && r in s.requests && IsSubmit(s.requests[r])
    ensures Inv(RunSubmit(s, r, luck))
  {
    hide Sound, ChangesApart;
    RequestAt(s, r);
    var t := RunSubmit(s, r, luck);
    match s.requests[r]
    case SubmitOff(o) =>
      if luck.ok { MarkKeepsInv(s, r, o, Approved, AutoApproved); } else { ReadKeepsInv(s, t, r); }
    case SubmitUnmatched(o) =>
      if luck.ok { MarkKeepsInv(s, r, o, Approved, AutoApproved); } else { ReadKeepsInv(s, t, r); }
    case SubmitMark(o, i) =>
      if luck.ok { MarkKeepsInv(s, r, o, PendingApproval, Submitted(i)); } else { ReadKeepsInv(s, t, r); }
    case SubmitInsert(o, user, d, steps) =>
      if CanInsert(s, luck, o) { InsertKeepsInv(s, r, o, user, d, steps, luck, SubmitMark(o, luck.id)); }
      else { ReadKeepsInv(s, t, r); }
    case SubmitCleanup(i) =>
      if i !in s.locks { if t.db != s.db { WithdrawKeepsInv(s, r, i); } else { ReadKeepsInv(s, t, r); } }
    case _ => SubmitReadKeepsInv(s, r, luck);
  }

  // Account changes.

  lemma NewChangeKeepsInv(s: State, r: nat, luck: Luck)
    requires Inv(s) && r in s.requests && s.requests[r].ChangeObject?
    ensures Inv(RunChange(s, r, luck))
  {
    hide Sound;
    RequestAt(s, r);
    var t := RunChange(s, r, luck);
    if t.db == s.db {
      ReadKeepsInv(s, t, r);
    } else {
      NewObjectHasNoInstance(s.db, luck.id);
      SoundWithChange(s.db, luck.id, s.requests[r].s, s.requests[r].cipher);
      forall q | q in s.requests && q != r
        ensures StillWaits(t, s.requests[q]) && !OpensSame(s.requests[q], t.requests[r])
      {
        RequestAt(s, q);
      }
      OneRequestMoves(s, t, r);
    }
  }

  lemma SoundWithChange(db: Db, o: nat, sup: nat, cipher: string)
    requires Sound(db) && o !in db.objects
    ensures Sound(db.(objects := db.objects[o := Object(BankChange, PendingApproval, sup, cipher)]))
  {
    SoundElsewhere(db, db.(objects := db.objects[o := Object(BankChange, PendingApproval, sup, cipher)]));
  }

  lemma SoundPaid(db: Db, sup: nat, cipher: string)
    requires Sound(db)
    ensures Sound(db.(suppliers := Paid(db.suppliers, sup, cipher)))
  {
    SoundElsewhere(db, db.(suppliers := Paid(db.suppliers, sup, cipher)));
  }

  lemma DirectKeepsInv(s: State, r: nat, luck: Luck)
    requires Inv(s) && r in s.requests && s.requests[r].ChangeDirect?
    ensures Inv(RunChange(s, r, luck))
  {
    hide Sound;
    var t := RunChange(s, r, luck);
    SoundPaid(s.db, s.requests[r].s, s.requests[r].cipher);
    forall q | q in s.requests && q != r ensures StillWaits(t, s.requests[q]) {
      assert RequestSound(s, q);
    }
    OneRequestMoves(s, t, r);
  }

  /** The phases of a change that only read. */
  lemma ChangeReadKeepsInv(s: State, r: nat, luck: Luck)
    requires Inv(s) && r in s.requests
    requires var x := s.requests[r]; x.Changing? || x.ChangingRead? || x.ChangePick?
    ensures Inv(RunChange(s, r, luck))
  {
    RulesAreNotEmpty(s.db);
    hide Sound, ChangesApart;
    if RunChange(s, r, luck) != s {
      ReadKeepsInv(s, RunChange(s, r, luck), r);
    }
  }

  lemma ChangeKeepsInv(s: State, r: nat, luck: Luck)
    requires Inv(s) && r in s.requests && IsChange(s.requests[r])
    ensures Inv(RunChange(s, r, luck))
  {
    hide Sound, ChangesApart;
    RequestAt(s, r);
    var t := RunChange(s, r, luck);
    match s.requests[r]
    case ChangeObject(_, _, _, _, _) => NewChangeKeepsInv(s, r, luck);
    case ChangeInstance(o, user, d, steps) =>
      if CanInsert(s, luck, o) { InsertKeepsInv(s, r, o, user, d, steps, luck, Over(ChangeAsked)); }
      else { ReadKeepsInv(s, t, r); }
    case ChangeDirect(_, _) => DirectKeepsInv(s, r, luck);
    case _ => ChangeReadKeepsInv(s, r, luck);
  }

  // PATCH.

  lemma PatchedKeepsSound(db: Db, o: nat, w: Option<Word>, moved: Option<nat>)
    requires Sound(db) && RoutedObject(db, o)
    ensures Sound(PatchedBy(db, o, w, moved)) && DbKept(db, PatchedBy(db, o, w, moved))
  {
    RulesAreNotEmpty(db);
    SoundElsewhere(db, PatchedBy(db, o, w, moved));
  }

  lemma PatchKeepsInv(s: State, r: nat, luck: Luck)
    requires Inv(s) && r in s.requests && IsPatch(s.requests[r])
    ensures Inv(RunPatch(s, r, luck))
  {
    hide Sound, DbKept, PatchedBy;
    RequestAt(s, r);
    var x, t := s.requests[r], RunPatch(s, r, luck);
    if x.PatchChecked? && luck.ok {
      PatchedKeepsSound(s.db, x.o, x.w, x.moved);
      assert t.db.instances == s.db.instances by { PatchedInstances(s.db, x.o, x.w, x.moved); }
      forall q | q in s.requests && q != r ensures StillWaits(t, s.requests[q]) {
        RequestAt(s, q);
      }
      OneRequestMoves(s, t, r);
    } else {
      ReadKeepsInv(s, t, r);
    }
  }

  lemma PatchedInstances(db: Db, o: nat, w: Option<Word>, moved: Option<nat>)
    requires o in db.objects
    ensures PatchedBy(db, o, w, moved) == db.(objects := PatchedBy(db, o, w, moved).objects)
  {
  }

  // Decisions.

  lemma LockKeepsInv(s: State, r: nat, luck: Luck)
    requires Inv(s) && r in s.requests && s.requests[r].Deciding?
    ensures Inv(RunDecision(s, r, luck))
  {
    var t := RunDecision(s, r, luck);
    if t != s {
      ReadKeepsInv(s, t, r);
    }
  }

  lemma EntitleKeepsInv(s: State, r: nat, luck: Luck)
    requires Inv(s) && r in s.requests && s.requests[r].Holding?
    ensures Inv(RunDecision(s, r, luck))
  {
    assert RequestSound(s, r) && InstanceSound(s.db, s.requests[r].i);
    ReadKeepsInv(s, RunDecision(s, r, luck), r);
  }

  lemma ClearKeepsInv(s: State, r: nat, luck: Luck)
    requires Inv(s) && r in s.requests && s.requests[r].Entitled?
    ensures Inv(RunDecision(s, r, luck))
  {
    assert RequestSound(s, r);
    ReadKeepsInv(s, RunDecision(s, r, luck), r);
  }

  lemma DecidedKeepsDb(db: Db, i: nat, a: Action)
    requires i in db.instances && i in db.log
    ensures DbKept(db, Decided(db, i, a))
    ensures Decided(db, i, a).instances == db.instances[i := Advanced(db.instances[i], a.decision)]
    ensures forall o :: NoInstance(db, o) ==> NoInstance(Decided(db, i, a), o)
  {
  }

  lemma CommitKeepsInv(s: State, r: nat, luck: Luck)
    requires Inv(s) && r in s.requests && s.requests[r].Cleared?
    ensures Inv(RunDecision(s, r, luck))
  {
    hide Sound, Decided, DbKept, NoInstance;
    var x, t := s.requests[r], RunDecision(s, r, luck);
    RequestAt(s, r);
    SoundAt(s.db, x.i);
    if luck.ok {
      var a := Action(s.db.instances[x.i].current, x.decision, x.user, x.roles, x.star);
      DecideKeepsSound(s.db, x.i, a);
      DecidedKeepsDb(s.db, x.i, a);
      forall q | q in s.requests && q != r ensures LocksKept(s, t, q) && StillWaits(t, s.requests[q]) {
        RequestAt(s, q);
      }
      OneRequestMoves(s, t, r);
    } else {
      ReadKeepsInv(s, t, r);
    }
  }

  lemma DecisionKeepsInv(s: State, r: nat, luck: Luck)
    requires Inv(s) && r in s.requests
    ensures Inv(RunDecision(s, r, luck))
  {
    hide Inv;
    var x := s.requests[r];
    if x.Deciding? {
      LockKeepsInv(s, r, luck);
    } else if x.Holding? {
      EntitleKeepsInv(s, r, luck);
    } else if x.Entitled? {
      ClearKeepsInv(s, r, luck);
    } else if x.Cleared? {
      CommitKeepsInv(s, r, luck);
    }
  }

  lemma StepKeepsInv(s: State, e: Event)
    requires Inv(s)
    ensures Inv(Next(s, e))
  {
    if e.Begin? {
      if Next(s, e) != s { ReadKeepsInv(s, Next(s, e), e.r); }
    } else if !e.Run? {
      OutsideKeepsInv(s, e);
    } else if e.r in s.requests {
      hide Inv, RunSubmit, RunChange, RunPatch, RunDecision;
      var x := s.requests[e.r];
      if IsSubmit(x) {
        SubmitKeepsInv(s, e.r, e.luck);
      } else if IsChange(x) {
        ChangeKeepsInv(s, e.r, e.luck);
      } else if IsPatch(x) {
        PatchKeepsInv(s, e.r, e.luck);
      } else {
        DecisionKeepsInv(s, e.r, e.luck);
      }
    }
  }

  lemma {:induction false} RunKeepsInv(start: State, run: seq<Event>)
    requires Starts(start)
    ensures Inv(After(start, run))
  {
    if run != [] {
      RunKeepsInv(start, run[..|run| - 1]);
      StepKeepsInv(After(start, run[..|run| - 1]), run[|run| - 1]);
    }
  }

  // What one statement does to the tables.

  datatype Effect =
    | Nothing
    | Marks(o: nat, word: Word)
    | Opens(i: nat, inst: Instance)
    | Withdraws(i: nat)
    | AsksChange(o: nat, s: nat, cipher: string)
    | Pays(s: nat, cipher: string)
    | Patches(o: nat, w: Option<Word>, moved: Option<nat>)
    | Decides(i: nat, a: Action)

  function Apply(db: Db, f: Effect): Db {
    match f
    case Nothing => db
    case Marks(o, word) => WithStatus(db, o, word)
    case Opens(i, inst) => Opened(db, i, inst)
    case Withdraws(i) => Withdrawn(db, i)
    case AsksChange(o, sup, cipher) => db.(objects := db.objects[o := Object(BankChange, PendingApproval, sup, cipher)])
    case Pays(sup, cipher) => db.(suppliers := Paid(db.suppliers, sup, cipher))
    case Patches(o, w, moved) => if o in db.objects then PatchedBy(db, o, w, moved) else db
    case Decides(i, a) => if i in db.instances && i in db.log then Decided(db, i, a) else db
  }

  /** When a request in its place x may have the effect. */
  predicate Fits(s: State, x: Request, f: Effect) {
    match f
    case Nothing => true
    case Marks(o, _) => RoutedObject(s.db, o)
    case Opens(i, inst) => i !in s.db.instances && i !in s.spent && inst.standing == Pending
    case Withdraws(i) => i in s.db.instances && s.db.instances[i].standing == Pending
    case AsksChange(o, _, _) => o !in s.db.objects
    case Pays(_, _) => x.ChangeDirect?
    case Patches(o, w, moved) => RoutedObject(s.db, o) && x == PatchChecked(o, w, moved)
    case Decides(i, a) =>
      && x.Cleared? && i == x.i && i in s.db.instances && i in s.db.log && s.db.instances[i].standing == Pending
      && a == Action(s.db.instances[i].current, x.decision, x.user, x.roles, x.star)
  }

  predicate HasEffect(s: State, t: State, x: Request, f: Effect) {
    && Fits(s, x, f) && t.db == Apply(s.db, f)
    && t.spent == s.spent + if f.Withdraws? then {f.i} else {}
  }

  /** What the next statement of a request in its place x writes. */
  function EffectOf(s: State, x: Request, luck: Luck): Effect {
    match x
    case SubmitOff(o) => if luck.ok then Marks(o, Approved) else Nothing
    case SubmitUnmatched(o) => if luck.ok then Marks(o, Approved) else Nothing
    case SubmitMark(o, _) => if luck.ok then Marks(o, PendingApproval) else Nothing
    case SubmitInsert(o, user, d, steps) =>
      if CanInsert(s, luck, o) then Opens(luck.id, NewInstance(s.db, o, user, d, steps)) else Nothing
    case SubmitCleanup(i) =>
      if i !in s.locks && luck.ok && i in s.db.instances && s.db.instances[i].standing == Pending then Withdraws(i) else Nothing
    case ChangeObject(sup, cipher, _, _, _) =>
      if luck.ok && luck.id !in s.db.objects then AsksChange(luck.id, sup, cipher) else Nothing
    case ChangeInstance(o, user, d, steps) =>
      if CanInsert(s, luck, o) then Opens(luck.id, NewInstance(s.db, o, user, d, steps)) else Nothing
    case ChangeDirect(sup, cipher) => if luck.ok then Pays(sup, cipher) else Nothing
    case PatchChecked(o, w, moved) => if luck.ok then Patches(o, w, moved) else Nothing
    case Cleared(i, decision, user, star, roles) =>
      if luck.ok && i in s.db.instances && i in s.db.log
      then Decides(i, Action(s.db.instances[i].current, decision, user, roles, star)) else Nothing
    case _ => Nothing
  }

  lemma SubmitEffect(s: State, r: nat, luck: Luck)
    requires r in s.requests && RequestSound(s, r) && IsSubmit(s.requests[r])
    ensures HasEffect(s, RunSubmit(s, r, luck), s.requests[r], EffectOf(s, s.requests[r], luck))
  {
    hide WithStatus, Opened, HasPending, FindsPending, IsRule;
  }

  lemma ChangeEffect(s: State, r: nat, luck: Luck)
    requires r in s.requests && IsChange(s.requests[r])
    ensures HasEffect(s, RunChange(s, r, luck), s.requests[r], EffectOf(s, s.requests[r], luck))
  {
    hide Opened, HasPending, IsNewest;
  }

  lemma DecisionEffect(s: State, r: nat, luck: Luck)
    requires r in s.requests && RequestSound(s, r)
    requires !IsSubmit(s.requests[r]) && !IsChange(s.requests[r]) && !IsPatch(s.requests[r])
    ensures HasEffect(s, RunDecision(s, r, luck), s.requests[r], EffectOf(s, s.requests[r], luck))
  {
    hide Decided;
  }

  lemma PatchEffect(s: State, r: nat, luck: Luck)
    requires r in s.requests && RequestSound(s, r) && IsPatch(s.requests[r])
    ensures HasEffect(s, RunPatch(s, r, luck), s.requests[r], EffectOf(s, s.requests[r], luck))
  {
    hide PatchedBy;
  }

  lemma RunEffect(s: State, r: nat, luck: Luck) returns (f: Effect)
    requires Inv(s) && r in s.requests
    ensures f == EffectOf(s, s.requests[r], luck) && HasEffect(s, Next(s, Run(r, luck)), s.requests[r], f)
  {
    RequestAt(s, r);
    hide RunSubmit, RunChange, RunPatch, RunDecision, EffectOf, HasEffect, Inv, RequestSound;
    f := EffectOf(s, s.requests[r], luck);
    if IsSubmit(s.requests[r]) {
      SubmitEffect(s, r, luck);
    } else if IsChange(s.requests[r]) {
      ChangeEffect(s, r, luck);
    } else if IsPatch(s.requests[r]) {
      PatchEffect(s, r, luck);
    } else {
      DecisionEffect(s, r, luck);
    }
  }

  // Every run: the log in step with the instance.

  /** However rules are edited meanwhile, an instance's log is in step with it. */
  lemma LogIsInStep(start: State, run: seq<Event>, i: nat)
    requires Starts(start) && i in After(start, run).db.instances
    ensures i in After(start, run).db.log
    ensures InStep(After(start, run).db.instances[i], After(start, run).db.log[i])
  {
    RunKeepsInv(start, run);
    SoundAt(After(start, run).db, i);
  }

  /** The request's next statement, meeting nothing in its way. */
  function Go(s: State, r: nat): State { Next(s, Run(r, Luck(true, 0, None))) }

  lemma LockGoes(s: State, r: nat)
    requires Inv(s) && r in s.requests && s.requests[r].Deciding? && s.requests[r].i !in s.locks
    requires s.requests[r].i in s.db.instances && s.db.instances[s.requests[r].i].standing == Pending
    ensures var x := s.requests[r];
            Go(s, r) == To(s, r, Holding(x.i, x.decision, x.user, x.star)).(locks := s.locks[x.i := r])
  {
    SoundAt(s.db, s.requests[r].i);
  }

  lemma EntitleGoes(s: State, r: nat)
    requires Inv(s) && r in s.requests && s.requests[r].Holding? && s.requests[r].star
    ensures Go(s, r) == To(s, r, Go(s, r).requests[r])
    ensures var x, y := s.requests[r], Go(s, r).requests[r];
            y.Entitled? && y == Entitled(x.i, x.decision, x.user, true, y.roles)
  {
    RequestAt(s, r);
    SoundAt(s.db, s.requests[r].i);
  }

  /** The self-approval policy lets user decide i. */
  predicate PolicyAllows(db: Db, i: nat, d: Decision, user: nat) {
    i in db.instances && (d == Return || db.instances[i].requestedBy != user || !db.settings.blockSelf)
  }

  lemma PolicyGoes(s: State, r: nat)
    requires Inv(s) && r in s.requests && s.requests[r].Entitled?
    requires PolicyAllows(s.db, s.requests[r].i, s.requests[r].decision, s.requests[r].user)
    ensures var x := s.requests[r];
            Go(s, r) == To(s, r, Cleared(x.i, x.decision, x.user, x.star, x.roles))
  {
    RequestAt(s, r);
  }

  lemma CommitGoes(s: State, r: nat)
    requires Inv(s) && r in s.requests && s.requests[r].Cleared?
    ensures r in Go(s, r).requests && Go(s, r).requests[r] == Over(DecidedAs(s.requests[r].decision))
    ensures s.requests[r].i in s.db.instances
    ensures Go(s, r).db.instances == s.db.instances[s.requests[r].i := Advanced(s.db.instances[s.requests[r].i], s.requests[r].decision)]
  {
    hide Decided, Sound;
    RequestAt(s, r);
    SoundAt(s.db, s.requests[r].i);
    DecidedKeepsDb(s.db, s.requests[r].i, Action(s.db.instances[s.requests[r].i].current, s.requests[r].decision,
                                                 s.requests[r].user, s.requests[r].roles, s.requests[r].star));
  }

  lemma ReturnGoesThrough(s: State, i: nat, r: nat, user: nat)
    requires Inv(s) && i in s.db.instances && s.db.instances[i].standing == Pending && i !in s.locks
    requires r in s.requests && s.requests[r] == Deciding(i, Return, user, true)
    ensures var t := Go(Go(Go(Go(s, r), r), r), r);
            r in t.requests && t.requests[r] == Over(DecidedAs(Return))
            && t.db.instances == s.db.instances[i := s.db.instances[i].(standing := Settled(Return))]
  {
    var go := Run(r, Luck(true, 0, None));
    hide Next, Inv;
    LockGoes(s, r);
    StepKeepsInv(s, go);
    var s2 := Go(s, r);
    EntitleGoes(s2, r);
    StepKeepsInv(s2, go);
    var s3 := Go(s2, r);
    PolicyGoes(s3, r);
    StepKeepsInv(s3, go);
    CommitGoes(Go(s3, r), r);
  }

  /** A pending instance can always be acted on: with the permission, "return" goes through in four statements. */
  lemma NeverStranded(start: State, run: seq<Event>, i: nat, r: nat, user: nat)
    requires Starts(start)
    requires i in After(start, run).db.instances && After(start, run).db.instances[i].standing == Pending
    requires i !in After(start, run).locks && r !in After(start, run).requests
    ensures var asked := Next(After(start, run), Begin(r, Deciding(i, Return, user, true)));
            var t := Go(Go(Go(Go(asked, r), r), r), r);
            r in t.requests && t.requests[r] == Over(DecidedAs(Return)) && i in t.db.instances
            && t.db.instances[i].standing == Settled(Return)
  {
    hide Go, Inv;
    RunKeepsInv(start, run);
    var s := After(start, run);
    StepKeepsInv(s, Begin(r, Deciding(i, Return, user, true)));
    ReturnGoesThrough(Next(s, Begin(r, Deciding(i, Return, user, true))), i, r, user);
  }

  // One open approval for an object.

  lemma OnePending(start: State, run: seq<Event>, o: nat, i: nat, j: nat)
    requires Starts(start) && PendingOn(After(start, run).db, o, i) && PendingOn(After(start, run).db, o, j)
    ensures i == j
  {
    RunKeepsInv(start, run);
    assert Apart(After(start, run).db, i, j);
  }

  /** "Already submitted" names an approval of the object that was pending when it was read. */
  lemma AlreadySubmittedIsTrue(s: State, r: nat, luck: Luck, i: nat)
    requires r in s.requests && !s.requests[r].Over?
    requires r in Next(s, Run(r, luck)).requests && Next(s, Run(r, luck)).requests[r] == Over(AlreadySubmitted(i))
    ensures s.requests[r].SubmitOn? || s.requests[r].SubmitLost?
    ensures PendingOn(s.db, s.requests[r].o, i)
  {
  }

  /** The same instance, further on; or withdrawn for good. */
  predicate Continues(s: State, t: State, i: nat)
    requires i in s.db.instances && i in s.db.log
  {
    if i in t.db.instances && i in t.db.log then
      && t.db.instances[i] == s.db.instances[i].(standing := t.db.instances[i].standing, current := t.db.instances[i].current)
      && s.db.log[i] <= t.db.log[i]
    else i !in t.db.instances && i in t.spent
  }

  lemma EffectContinues(s: State, t: State, x: Request, f: Effect, i: nat)
    requires HasEffect(s, t, x, f) && i in s.db.instances && i in s.db.log
    ensures Continues(s, t, i)
  {
    hide Marked, Paid;
  }

  lemma StepContinues(s: State, e: Event, i: nat)
    requires Inv(s) && i in s.db.instances && i in s.db.log
    ensures Continues(s, Next(s, e), i)
  {
    hide RunSubmit, RunChange, RunPatch, RunDecision, HasEffect, Inv;
    if e.Run? && e.r in s.requests {
      var f := RunEffect(s, e.r, e.luck);
      EffectContinues(s, Next(s, e), s.requests[e.r], f, i);
    }
  }

  lemma SpentStays(s: State, e: Event, i: nat)
    requires Inv(s) && i in s.spent && i !in s.db.instances
    ensures i in Next(s, e).spent && i !in Next(s, e).db.instances
  {
    hide RunSubmit, RunChange, RunPatch, RunDecision, Inv, Marked, Paid;
    if e.Run? && e.r in s.requests {
      var f := RunEffect(s, e.r, e.luck);
    }
  }

  lemma ContinuesOn(s: State, t: State, e: Event, i: nat)
    requires i in s.db.instances && i in s.db.log && Continues(s, t, i) && (i in t.db.instances ==> i in t.db.log)
    requires Inv(t)
    ensures Continues(s, Next(t, e), i)
  {
    hide Next, Inv;
    if i in t.db.instances {
      StepContinues(t, e, i);
    } else {
      SpentStays(t, e, i);
    }
  }

  lemma {:induction false} RunContinues(start: State, run: seq<Event>, more: seq<Event>, i: nat)
    requires Starts(start) && i in After(start, run).db.instances && i in After(start, run).db.log
    ensures Continues(After(start, run), After(start, run + more), i)
  {
    hide Next, Continues, Inv;
    if more == [] {
      assert run + more == run;
      ContinuesNow(After(start, run), i);
    } else {
      var front := more[..|more| - 1];
      RunContinues(start, run, front, i);
      assert (run + more)[..|run + more| - 1] == run + front;
      if i in After(start, run + front).db.instances {
        LogIsInStep(start, run + front, i);
      }
      RunKeepsInv(start, run + front);
      ContinuesOn(After(start, run), After(start, run + front), more[|more| - 1], i);
    }
  }

  lemma ContinuesNow(s: State, i: nat)
    requires i in s.db.instances && i in s.db.log
    ensures Continues(s, s, i)
  {
  }

  /** A pending instance takes at most as many further actions as steps are left. */
  lemma ActionsAreBounded(start: State, run: seq<Event>, more: seq<Event>, i: nat)
    requires Starts(start) && i in After(start, run).db.instances && After(start, run).db.instances[i].standing == Pending
    requires i in After(start, run).db.log && i in After(start, run + more).db.log && i in After(start, run + more).db.instances
    ensures var inst := After(start, run).db.instances[i];
            |After(start, run + more).db.log[i]| - |After(start, run).db.log[i]| <= |inst.steps| - inst.current
  {
    LogIsInStep(start, run, i);
    LogIsInStep(start, run + more, i);
    RunContinues(start, run, more, i);
  }

  // Self-approval.

  predicate SettingHolds(run: seq<Event>, holds: Settings -> bool) {
    forall k :: 0 <= k < |run| && run[k].Configure? ==> holds(run[k].settings)
  }

  predicate Impartial(db: Db, i: nat, d: Decision, user: nat) {
    i in db.instances ==> d == Return || db.instances[i].requestedBy != user
  }

  predicate DutiesInv(s: State) {
    && s.db.settings.blockSelf
    && DutiesApart(s.db)
    && forall r :: r in s.requests && s.requests[r].Cleared? ==>
         Impartial(s.db, s.requests[r].i, s.requests[r].decision, s.requests[r].user)
  }

  lemma EffectKeepsDuties(s: State, t: State, r: nat, f: Effect)
    requires Sound(s.db) && DutiesInv(s) && r in s.requests && HasEffect(s, t, s.requests[r], f)
    ensures DutiesApart(t.db) && t.db.settings == s.db.settings
  {
    hide Marked, Paid, Sound;
  }

  /** An instance's requester never changes. */
  lemma EffectKeepsImpartial(s: State, t: State, x: Request, f: Effect, i: nat, d: Decision, user: nat)
    requires HasEffect(s, t, x, f) && i in s.db.instances && Impartial(s.db, i, d, user)
    ensures Impartial(t.db, i, d, user)
  {
    hide Marked, Paid;
  }

  /** A decision is cleared only past the policy. */
  lemma ClearedPastPolicy(s: State, r: nat, luck: Luck, q: nat)
    requires r in s.requests && q in Next(s, Run(r, luck)).requests && Next(s, Run(r, luck)).requests[q].Cleared?
    ensures q in s.requests && (Next(s, Run(r, luck)).requests[q] == s.requests[q]
            || (q == r && s.requests[r].Entitled?
                && Next(s, Run(r, luck)) == To(s, r, Next(s, Run(r, luck)).requests[r])
                && (s.db.settings.blockSelf ==>
                      Impartial(s.db, Next(s, Run(r, luck)).requests[q].i, Next(s, Run(r, luck)).requests[q].decision,
                                Next(s, Run(r, luck)).requests[q].user))))
  {
    hide Decided, Opened, Withdrawn, WithStatus, Paid, HasPending, IsNewest, IsRule, FindsPending;
  }

  lemma OutsideKeepsDuties(s: State, e: Event)
    requires DutiesInv(s) && !e.Run? && (e.Configure? ==> e.settings.blockSelf)
    ensures DutiesInv(Next(s, e))
  {
  }

  lemma StepKeepsDuties(s: State, e: Event)
    requires Inv(s) && DutiesInv(s) && (e.Configure? ==> e.settings.blockSelf)
    ensures DutiesInv(Next(s, e))
  {
    if e.Run? && e.r in s.requests {
      var t := Next(s, e);
      hide RunSubmit, RunChange, RunPatch, RunDecision, Next, HasEffect, Sound, RequestSound, ChangesApart, DutiesApart, Impartial;
      var f := RunEffect(s, e.r, e.luck);
      EffectKeepsDuties(s, t, e.r, f);
      forall q | q in t.requests && t.requests[q].Cleared?
        ensures Impartial(t.db, t.requests[q].i, t.requests[q].decision, t.requests[q].user)
      {
        ClearedPastPolicy(s, e.r, e.luck, q);
        ClearedHolds(s, e, q);
        EffectKeepsImpartial(s, t, s.requests[e.r], f, t.requests[q].i, t.requests[q].decision, t.requests[q].user);
      }
    } else if !e.Run? {
      OutsideKeepsDuties(s, e);
    }
  }

  lemma ClearedHolds(s: State, e: Event, q: nat)
    requires Inv(s) && q in Next(s, e).requests && Next(s, e).requests[q].Cleared?
    requires q in s.requests && (Next(s, e).requests[q] == s.requests[q]
             || (s.requests[q].Entitled? && Next(s, e) == To(s, q, Next(s, e).requests[q])))
    ensures Next(s, e).requests[q].i in s.db.instances
  {
    hide Sound, ChangesApart;
    RequestAt(s, q);
    StepKeepsInv(s, e);
    RequestAt(Next(s, e), q);
  }

  lemma {:induction false} RunKeepsDuties(start: State, run: seq<Event>)
    requires Starts(start) && start.db.settings.blockSelf && SettingHolds(run, (x: Settings) => x.blockSelf)
    ensures DutiesInv(After(start, run))
  {
    hide Next, Inv;
    if run != [] {
      RunKeepsDuties(start, run[..|run| - 1]);
      RunKeepsInv(start, run[..|run| - 1]);
      StepKeepsDuties(After(start, run[..|run| - 1]), run[|run| - 1]);
    }
  }

  /** While self-approval stays blocked, nobody's approval or rejection is of their own request. */
  lemma NobodyDecidesTheirOwn(start: State, run: seq<Event>, i: nat, k: nat)
    requires Starts(start) && start.db.settings.blockSelf && SettingHolds(run, (x: Settings) => x.blockSelf)
    requires i in After(start, run).db.instances && i in After(start, run).db.log && k < |After(start, run).db.log[i]|
    ensures var a := After(start, run).db.log[i][k];
            a.decision != Return ==> a.actor != After(start, run).db.instances[i].requestedBy
  {
    RunKeepsDuties(start, run);
  }

  // Bank accounts.

  predicate ControlsOn(x: Settings) { x.approvals && x.bankApproval }

  /** With both settings on, no change is on its way past the approval. */
  predicate BankInv(s: State) {
    && ControlsOn(s.db.settings)
    && AllAccounted(s.db)
    && forall r :: r in s.requests ==>
         !s.requests[r].ChangeDirect? && (s.requests[r].ChangingRead? ==> s.requests[r].approvals)
  }

  lemma OutsideSuppliers(s: State, e: Event, sup: nat)
    requires !e.Begin? && !e.Run? && sup in Next(s, e).db.suppliers
    ensures var t := Next(s, e);
            if sup in s.db.suppliers then t.db.suppliers[sup] == s.db.suppliers[sup]
            else t.db.suppliers[sup].cipher == t.db.suppliers[sup].initial
  {
  }

  lemma OutsideKeepsAccounted(s: State, e: Event)
    requires Sound(s.db) && AllAccounted(s.db) && !e.Begin? && !e.Run?
    ensures AllAccounted(Next(s, e).db)
  {
    hide Next, Sound;
    var t := Next(s, e);
    OutsideKeepsRows(s, e);
    forall sup | sup in t.db.suppliers ensures Accounted(t.db, sup) {
      OutsideSuppliers(s, e, sup);
      if sup in s.db.suppliers {
        AccountedKept(s.db, t.db, sup);
      }
    }
  }

  lemma OutsideKeepsBank(s: State, e: Event)
    requires Inv(s) && BankInv(s) && !e.Run? && (e.Configure? ==> ControlsOn(e.settings))
    ensures BankInv(Next(s, e))
  {
    hide Sound, RequestSound, ChangesApart, AllAccounted;
    if !e.Begin? {
      OutsideKeepsAccounted(s, e);
    }
  }

  lemma EffectKeepsAccounted(s: State, t: State, x: Request, f: Effect, sup: nat)
    requires Sound(s.db) && AllAccounted(s.db) && Sound(t.db) && HasEffect(s, t, x, f) && !x.ChangeDirect?
    requires sup in t.db.suppliers
    ensures sup in s.db.suppliers && Accounted(t.db, sup)
  {
    hide Sound, Decided, Accounted;
    if f.Decides? {
      DecidedSuppliers(s.db, f.i, f.a);
      DecideKeepsAccounted(s.db, f.i, f.a, sup);
    } else {
      AccountedKept(s.db, t.db, sup);
    }
  }

  lemma DecidedSuppliers(db: Db, i: nat, a: Action)
    requires i in db.instances && i in db.log
    ensures Decided(db, i, a).suppliers.Keys == db.suppliers.Keys
  {
  }

  /** A change is routed past the approval only when one of the settings was read as off. */
  lemma DirectNeedsSettingOff(s: State, r: nat, luck: Luck, q: nat)
    requires r in s.requests && BankInv(s) && q in Next(s, Run(r, luck)).requests
    ensures !Next(s, Run(r, luck)).requests[q].ChangeDirect?
    ensures Next(s, Run(r, luck)).requests[q].ChangingRead? ==> Next(s, Run(r, luck)).requests[q].approvals
  {
    hide AllAccounted, Decided, Opened, Withdrawn, WithStatus;
  }

  lemma RunSettings(s: State, r: nat, luck: Luck)
    requires Inv(s) && r in s.requests
    ensures Next(s, Run(r, luck)).db.settings == s.db.settings
  {
    hide Next;
    var f := RunEffect(s, r, luck);
  }

  lemma StepKeepsBank(s: State, e: Event)
    requires Inv(s) && BankInv(s) && (e.Configure? ==> ControlsOn(e.settings))
    ensures BankInv(Next(s, e))
  {
    if e.Run? && e.r in s.requests {
      var t := Next(s, e);
      hide Next, HasEffect, Sound, RequestSound, ChangesApart, Accounted;
      var f := RunEffect(s, e.r, e.luck);
      StepKeepsInv(s, e);
      RunSettings(s, e.r, e.luck);
      forall sup | sup in t.db.suppliers ensures Accounted(t.db, sup) {
        EffectKeepsAccounted(s, t, s.requests[e.r], f, sup);
      }
      forall q | q in t.requests ensures !t.requests[q].ChangeDirect? && (t.requests[q].ChangingRead? ==> t.requests[q].approvals) {
        DirectNeedsSettingOff(s, e.r, e.luck, q);
      }
    } else if !e.Run? {
      OutsideKeepsBank(s, e);
    }
  }

  lemma {:induction false} RunKeepsBank(start: State, run: seq<Event>)
    requires Starts(start) && ControlsOn(start.db.settings) && SettingHolds(run, (x: Settings) => ControlsOn(x))
    ensures BankInv(After(start, run))
  {
    hide Next, Inv;
    if run != [] {
      RunKeepsBank(start, run[..|run| - 1]);
      RunKeepsInv(start, run[..|run| - 1]);
      StepKeepsBank(After(start, run[..|run| - 1]), run[|run| - 1]);
    }
  }

  /**
   * While both settings stay on, a supplier's account is the one it was registered with, or the one asked for
   * in a change whose instance is approved with one approval for every snapshotted step, each by an actor
   * entitled to it.
   */
  lemma AccountsComeFromApprovals(start: State, run: seq<Event>, sup: nat)
    requires Starts(start) && ControlsOn(start.db.settings) && SettingHolds(run, (x: Settings) => ControlsOn(x))
    requires sup in After(start, run).db.suppliers
    ensures Accounted(After(start, run).db, sup)
  {
    RunKeepsBank(start, run);
  }

  lemma EffectKeepsChange(s: State, t: State, x: Request, f: Effect, o: nat)
    requires HasEffect(s, t, x, f) && o in s.db.objects && s.db.objects[o].kind == BankChange
    ensures o in t.db.objects && t.db.objects[o] == s.db.objects[o].(status := t.db.objects[o].status)
  {
    hide Paid, Advanced;
  }

  /** What a change asks for is fixed when it is asked. */
  lemma ChangeIsFixed(s: State, e: Event, o: nat)
    requires Inv(s) && o in s.db.objects && s.db.objects[o].kind == BankChange
    ensures var t := Next(s, e);
            o in t.db.objects && t.db.objects[o] == s.db.objects[o].(status := t.db.objects[o].status)
  {
    hide Inv, RunSubmit, RunChange, RunPatch, RunDecision, HasEffect;
    if e.Run? && e.r in s.requests {
      var f := RunEffect(s, e.r, e.luck);
      EffectKeepsChange(s, Next(s, e), s.requests[e.r], f, o);
    } else if !e.Begin? && !e.Run? {
      OutsideKeepsRows(s, e);
    }
  }

  /** With either setting off the account is written at once, so the two settings are needed. */
  lemma OffSkipsTheApproval(s: State, r: nat)
    requires r in s.requests && s.requests[r].Changing? && s.requests[r].s in s.db.suppliers && !ControlsOn(s.db.settings)
    ensures var t := Go(Go(Go(s, r), r), r);
            s.requests[r].s in t.db.suppliers && t.db.suppliers[s.requests[r].s].cipher == Some(s.requests[r].cipher)
  {
    var x := s.requests[r];
    assert Go(s, r) == To(s, r, ChangingRead(x.s, x.cipher, x.user, s.db.settings.approvals));
    assert Go(Go(s, r), r) == To(s, r, ChangeDirect(x.s, x.cipher));
  }

  /** Past the settings, only the last approval of a change writes an account, and it writes the one that change asked for. */
  lemma OnlyApprovalsWrite(s: State, e: Event, sup: nat)
    requires Inv(s) && BankInv(s) && sup in s.db.suppliers && sup in Next(s, e).db.suppliers
    requires Next(s, e).db.suppliers[sup] != s.db.suppliers[sup]
    ensures e.Run? && e.r in s.requests && s.requests[e.r].Cleared? && s.requests[e.r].decision == Approve
    ensures FromApproval(Next(s, e).db, sup, s.requests[e.r].i)
  {
    hide Sound, RequestSound, ChangesApart, RunSubmit, RunChange, RunPatch, RunDecision, AllAccounted;
    assert e.Run? && e.r in s.requests;
    var t := Next(s, e);
    var f := RunEffect(s, e.r, e.luck);
    assert f.Decides? by { hide Decided; }
    DecisionPays(s.db, f.i, f.a, sup);
    StepKeepsInv(s, e);
    SoundAt(t.db, f.i);
    ApprovedIsFull(t.db.instances[f.i], t.db.log[f.i]);
    assert FromApproval(t.db, sup, f.i);
  }
}
