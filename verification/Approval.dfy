/**
 * The tables of the approval engine and what its statements do to them
 * (internal/httpapi/workflows.go, objects.go, suppliers.go).
 */
module Approval {
  import opened Common

  /** An object's status: the four words approvals award, the one an object starts with, and any other. */
  datatype Word = Draft | PendingApproval | Approved | Rejected | Returned | Else(text: string)

  predicate Owned(w: Word) { w == PendingApproval || w == Approved || w == Rejected || w == Returned }

  /** An object of a routed type, or a supplier's bank account change, which has no route. */
  datatype Kind = Routed(name: string) | BankChange

  /** One step of a rule; its order is its index. role "" leaves the step to anyone who may approve. */
  datatype Step = Step(name: string, role: string)

  datatype Definition = Definition(kind: Kind, enabled: bool, version: nat, steps: seq<Step>)

  /** cipher is the account a bank change asks for. */
  datatype Object = Object(kind: Kind, status: Word, supplier: nat, cipher: string)

  datatype Decision = Approve | Reject | Return

  datatype Standing = Pending | Settled(decision: Decision)

  /** steps is the snapshot taken at submission. */
  datatype Instance = Instance(
    definition: nat, kind: Kind, subject: nat, requestedBy: nat, steps: seq<Step>, standing: Standing, current: nat)

  /** A row of the action log. roles and star are history: what the actor held when the step was checked. */
  datatype Action = Action(step: nat, decision: Decision, actor: nat, roles: set<string>, star: bool)

  /** initial is history: the cipher the supplier was registered with. */
  datatype Supplier = Supplier(cipher: Option<string>, initial: Option<string>)

  datatype Settings = Settings(approvals: bool, bankApproval: bool, blockSelf: bool)

  datatype Db = Db(
    definitions: map<nat, Definition>, objects: map<nat, Object>, instances: map<nat, Instance>,
    log: map<nat, seq<Action>>, suppliers: map<nat, Supplier>, roles: map<nat, set<string>>, settings: Settings)

  /** The steps an instance follows; the rule's own are the fallback for a row written without any. */
  function InstanceSteps(snapshot: seq<Step>, definition: seq<Step>): seq<Step> {
    if snapshot != [] then snapshot else definition
  }

  predicate MayDecide(step: Step, roles: set<string>, star: bool) {
    step.role == "" || step.role in roles || star
  }

  // Statements.

  predicate PendingOn(db: Db, subject: nat, i: nat) {
    i in db.instances && db.instances[i].subject == subject && db.instances[i].standing == Pending
  }

  predicate HasPending(db: Db, subject: nat) { exists i :: i in db.instances && PendingOn(db, subject, i) }

  /** INSERT INTO workflow_instances; the caller has checked the partial unique index. */
  function Opened(db: Db, i: nat, inst: Instance): Db {
    db.(instances := db.instances[i := inst], log := db.log[i := []])
  }

  function Marked(objects: map<nat, Object>, o: nat, w: Word): map<nat, Object> {
    if o in objects then objects[o := objects[o].(status := w)] else objects
  }

  /** UPDATE business_objects SET status. */
  function WithStatus(db: Db, o: nat, w: Word): Db { db.(objects := Marked(db.objects, o, w)) }

  /** DELETE FROM workflow_instances; its actions go with it. */
  function Withdrawn(db: Db, i: nat): Db {
    db.(instances := db.instances - {i}, log := db.log - {i})
  }

  /** An approval before the last step moves on; anything else settles, and leaves current_step where it is. */
  function Advanced(inst: Instance, d: Decision): Instance {
    if d == Approve && inst.current + 1 < |inst.steps| then inst.(current := inst.current + 1)
    else inst.(standing := Settled(d))
  }

  function ObjectWord(standing: Standing): Word {
    match standing
    case Pending => PendingApproval
    case Settled(Approve) => Approved
    case Settled(Reject) => Rejected
    case Settled(Return) => Returned
  }

  /** UPDATE suppliers SET bank_account_encrypted. */
  function Paid(suppliers: map<nat, Supplier>, s: nat, cipher: string): map<nat, Supplier> {
    if s in suppliers then suppliers[s := suppliers[s].(cipher := Some(cipher))] else suppliers
  }

  /** The account change takes effect. */
  predicate TakesEffect(inst: Instance) { inst.standing == Settled(Approve) && inst.kind == BankChange }

  /** The transaction of one decision: the action, the instance, the object, and an approved account. */
  function Decided(db: Db, i: nat, a: Action): Db
    requires i in db.instances && i in db.log
  {
    var inst := Advanced(db.instances[i], a.decision);
    db.(log := db.log[i := db.log[i] + [a]],
        instances := db.instances[i := inst],
        objects := Marked(db.objects, inst.subject, ObjectWord(inst.standing)),
        suppliers := if TakesEffect(inst) && inst.subject in db.objects
                     then Paid(db.suppliers, db.objects[inst.subject].supplier, db.objects[inst.subject].cipher)
                     else db.suppliers)
  }

  // The log.

  /** The first n actions approve steps 0 to n - 1 in turn, each by somebody entitled to the step. */
  predicate ApprovedUpTo(steps: seq<Step>, log: seq<Action>, n: nat)
    requires n <= |steps| && n <= |log|
  {
    forall k :: 0 <= k < n ==> log[k].step == k && log[k].decision == Approve && MayDecide(steps[k], log[k].roles, log[k].star)
  }

  /** The action log in step with the instance. */
  predicate InStep(inst: Instance, log: seq<Action>) {
    && inst.current < |inst.steps|
    && match inst.standing
       case Pending => |log| == inst.current && ApprovedUpTo(inst.steps, log, inst.current)
       case Settled(d) =>
         && |log| == inst.current + 1
         && ApprovedUpTo(inst.steps, log, inst.current)
         && log[inst.current].step == inst.current && log[inst.current].decision == d
         && MayDecide(inst.steps[inst.current], log[inst.current].roles, log[inst.current].star)
         && (d == Approve ==> inst.current + 1 == |inst.steps|)
  }

  lemma DecisionKeepsInStep(inst: Instance, log: seq<Action>, a: Action)
    requires InStep(inst, log) && inst.standing == Pending
    requires a.step == inst.current && MayDecide(inst.steps[inst.current], a.roles, a.star)
    ensures InStep(Advanced(inst, a.decision), log + [a])
  {
  }

  /** Approved means one approval for every snapshotted step, each by an actor entitled to it. */
  predicate FullyApproved(inst: Instance, log: seq<Action>) {
    inst.standing == Settled(Approve) && |log| == |inst.steps| && ApprovedUpTo(inst.steps, log, |inst.steps|)
  }

  lemma ApprovedIsFull(inst: Instance, log: seq<Action>)
    requires InStep(inst, log) && inst.standing == Settled(Approve)
    ensures FullyApproved(inst, log)
  {
  }

  // What the tables keep.

  predicate InstanceSound(db: Db, i: nat)
    requires i in db.instances
  {
    var inst := db.instances[i];
    && i in db.log && InStep(inst, db.log[i])
    && inst.subject in db.objects && db.objects[inst.subject].kind == inst.kind
    && inst.definition in db.definitions
    && (inst.kind == BankChange ==> db.objects[inst.subject].status == ObjectWord(inst.standing))
  }

  /** No object has two open instances, and a bank change has one instance ever. */
  predicate Apart(db: Db, i: nat, j: nat)
    requires i in db.instances && j in db.instances
  {
    i == j || db.instances[i].subject != db.instances[j].subject
    || (db.instances[i].kind != BankChange && (db.instances[i].standing != Pending || db.instances[j].standing != Pending))
  }

  predicate Sound(db: Db) {
    && (forall i :: i in db.instances ==> InstanceSound(db, i))
    && (forall i, j :: i in db.instances && j in db.instances ==> Apart(db, i, j))
    && (forall d :: d in db.definitions ==> db.definitions[d].steps != [])
  }

  /** The supplier's cipher came from a change that was approved in full. */
  predicate FromApproval(db: Db, s: nat, i: nat)
    requires s in db.suppliers
  {
    && i in db.instances && i in db.log && FullyApproved(db.instances[i], db.log[i]) && db.instances[i].kind == BankChange
    && db.instances[i].subject in db.objects
    && db.objects[db.instances[i].subject].supplier == s
    && db.suppliers[s].cipher == Some(db.objects[db.instances[i].subject].cipher)
  }

  predicate Accounted(db: Db, s: nat)
    requires s in db.suppliers
  {
    db.suppliers[s].cipher == db.suppliers[s].initial || exists i :: i in db.instances && FromApproval(db, s, i)
  }

  predicate AllAccounted(db: Db) { forall s :: s in db.suppliers ==> Accounted(db, s) }

  /** Nobody approved or rejected their own request. */
  predicate DutiesApart(db: Db) {
    forall i, k :: i in db.instances && i in db.log && 0 <= k < |db.log[i]| ==>
      db.log[i][k].decision == Return || db.log[i][k].actor != db.instances[i].requestedBy
  }

  // Each statement keeps them.

  lemma OpenKeepsSound(db: Db, i: nat, inst: Instance)
    requires Sound(db) && i !in db.instances && !HasPending(db, inst.subject)
    requires inst.standing == Pending && inst.current == 0 && inst.steps != []
    requires inst.subject in db.objects && db.objects[inst.subject].kind == inst.kind && inst.definition in db.definitions
    requires inst.kind == BankChange
      ==> db.objects[inst.subject].status == PendingApproval
          && forall j :: j in db.instances ==> db.instances[j].subject != inst.subject
    ensures Sound(Opened(db, i, inst))
  {
    var after := Opened(db, i, inst);
    forall j | j in after.instances ensures InstanceSound(after, j) {
      assert j != i ==> InstanceSound(db, j);
    }
    forall j, k | j in after.instances && k in after.instances ensures Apart(after, j, k) {
      if j != i && k != i {
        assert Apart(db, j, k);
      } else if j != k {
        var other := if j == i then k else j;
        assert InstanceSound(db, other) && !PendingOn(db, inst.subject, other);
      }
    }
  }

  lemma StatusKeepsSound(db: Db, subject: nat, w: Word)
    requires Sound(db) && (subject in db.objects ==> db.objects[subject].kind != BankChange)
    ensures Sound(WithStatus(db, subject, w))
  {
    var after := WithStatus(db, subject, w);
    forall i | i in after.instances ensures InstanceSound(after, i) {
      assert InstanceSound(db, i);
    }
    forall i, j | i in after.instances && j in after.instances ensures Apart(after, i, j) {
      assert Apart(db, i, j);
    }
  }

  lemma WithdrawKeepsSound(db: Db, i: nat)
    requires Sound(db)
    ensures Sound(Withdrawn(db, i))
  {
    var after := Withdrawn(db, i);
    forall j | j in after.instances ensures InstanceSound(after, j) {
      assert InstanceSound(db, j);
    }
    forall j, k | j in after.instances && k in after.instances ensures Apart(after, j, k) {
      assert Apart(db, j, k);
    }
  }

  lemma DecideKeepsInstances(db: Db, i: nat, a: Action, j: nat)
    requires Sound(db) && i in db.instances && i in db.log && db.instances[i].standing == Pending && j in db.instances
    requires a.step == db.instances[i].current && a.step < |db.instances[i].steps|
    requires MayDecide(db.instances[i].steps[a.step], a.roles, a.star)
    ensures InstanceSound(Decided(db, i, a), j)
  {
    assert InstanceSound(db, i) && InstanceSound(db, j) && Apart(db, i, j);
    DecisionKeepsInStep(db.instances[i], db.log[i], a);
  }

  lemma DecideKeepsSound(db: Db, i: nat, a: Action)
    requires Sound(db) && i in db.instances && i in db.log && db.instances[i].standing == Pending
    requires a.step == db.instances[i].current && a.step < |db.instances[i].steps|
    requires MayDecide(db.instances[i].steps[a.step], a.roles, a.star)
    ensures Sound(Decided(db, i, a))
  {
    hide InstanceSound;
    var after := Decided(db, i, a);
    forall j | j in after.instances ensures InstanceSound(after, j) {
      DecideKeepsInstances(db, i, a, j);
    }
    forall j, k | j in after.instances && k in after.instances ensures Apart(after, j, k) {
      assert Apart(db, j, k);
    }
  }

  /** What a decision does to the object, and to no other. */
  lemma StatusFollowsDecision(db: Db, i: nat, a: Action, o: nat)
    requires Sound(db) && i in db.instances && i in db.log && db.instances[i].standing == Pending && o in db.objects
    ensures var inst, after := db.instances[i], Decided(db, i, a);
            && o in after.objects
            && after.objects[o].status ==
               (if o != inst.subject then db.objects[o].status
                else if a.decision == Reject then Rejected
                else if a.decision == Return then Returned
                else if inst.current + 1 == |inst.steps| then Approved
                else PendingApproval)
  {
    assert InstanceSound(db, i);
  }

  // Statements that touch neither instances nor their logs.

  predicate NoInstance(db: Db, o: nat) { forall i :: i in db.instances ==> db.instances[i].subject != o }

  /** Rules and objects stay, with their kinds; a change still without an instance stays as it is. */
  predicate DbKept(a: Db, b: Db) {
    && (forall d :: d in a.definitions ==> d in b.definitions)
    && (forall o :: o in a.objects ==> o in b.objects && b.objects[o].kind == a.objects[o].kind)
    && (forall o :: o in a.objects && a.objects[o].kind == BankChange && NoInstance(a, o) ==> b.objects[o] == a.objects[o])
  }

  predicate AccountChangesKept(a: Db, b: Db) {
    forall o :: o in a.objects && a.objects[o].kind == BankChange ==> o in b.objects && b.objects[o] == a.objects[o]
  }

  lemma SoundElsewhere(a: Db, b: Db)
    requires Sound(a) && b.instances == a.instances && b.log == a.log && DbKept(a, b)
    requires AccountChangesKept(a, b)
    requires forall d :: d in b.definitions ==> b.definitions[d].steps != []
    ensures Sound(b)
  {
    forall i | i in b.instances ensures InstanceSound(b, i) {
      assert InstanceSound(a, i);
    }
    forall i, j | i in b.instances && j in b.instances ensures Apart(b, i, j) {
      assert Apart(a, i, j);
    }
  }

  // Where a supplier's account comes from.

  /** Approved instances and their logs stay as they are. */
  predicate ApprovalsKept(db: Db, after: Db) {
    forall i :: i in db.instances && i in db.log && db.instances[i].standing == Settled(Approve) ==>
      i in after.instances && after.instances[i] == db.instances[i] && i in after.log && after.log[i] == db.log[i]
  }

  /** So do the supplier and the account of a change. */
  predicate ChangesKept(db: Db, after: Db) {
    forall o :: o in db.objects && db.objects[o].kind == BankChange ==>
      o in after.objects && after.objects[o] == db.objects[o].(status := after.objects[o].status)
  }

  lemma AccountedKept(db: Db, after: Db, s: nat)
    requires Sound(db) && s in db.suppliers && Accounted(db, s)
    requires s in after.suppliers && after.suppliers[s] == db.suppliers[s]
    requires ApprovalsKept(db, after) && ChangesKept(db, after)
    ensures Accounted(after, s)
  {
    if i :| i in db.instances && FromApproval(db, s, i) {
      assert InstanceSound(db, i);
      assert FromApproval(after, s, i);
    }
  }

  lemma DecisionKeepsTheRest(db: Db, i: nat, a: Action)
    requires i in db.instances && i in db.log && db.instances[i].standing == Pending
    ensures ApprovalsKept(db, Decided(db, i, a)) && ChangesKept(db, Decided(db, i, a))
  {
  }

  lemma DecisionPays(db: Db, i: nat, a: Action, s: nat)
    requires i in db.instances && i in db.log && s in db.suppliers
    ensures var after := Decided(db, i, a);
            && s in after.suppliers && i in after.instances && i in after.log
            && (after.suppliers[s] != db.suppliers[s] ==>
                  && TakesEffect(after.instances[i])
                  && after.instances[i].subject in after.objects
                  && after.objects[after.instances[i].subject].supplier == s
                  && after.suppliers[s].cipher == Some(after.objects[after.instances[i].subject].cipher))
  {
  }

  lemma DecideKeepsAccounted(db: Db, i: nat, a: Action, s: nat)
    requires Sound(db) && AllAccounted(db) && i in db.instances && i in db.log && db.instances[i].standing == Pending
    requires Sound(Decided(db, i, a)) && s in db.suppliers
    ensures s in Decided(db, i, a).suppliers && Accounted(Decided(db, i, a), s)
  {
    hide Decided;
    DecisionKeepsTheRest(db, i, a);
    DecisionPays(db, i, a, s);
    var after := Decided(db, i, a);
    if after.suppliers[s] == db.suppliers[s] {
      AccountedKept(db, after, s);
    } else {
      assert InstanceSound(after, i);
      ApprovedIsFull(after.instances[i], after.log[i]);
      assert FromApproval(after, s, i);
    }
  }

  // What a decision does, in the terms of the tables.

  /** The last approval of a change writes the account it asks for, whatever the number of steps, and nothing else writes one. */
  lemma PaysExactly(db: Db, i: nat, a: Action, s: nat)
    requires Sound(db) && i in db.instances && i in db.log && db.instances[i].standing == Pending && s in db.suppliers
    ensures var inst := db.instances[i];
            && inst.subject in db.objects
            && Decided(db, i, a).suppliers.Keys == db.suppliers.Keys
            && Decided(db, i, a).suppliers[s] ==
               if a.decision == Approve && inst.current + 1 == |inst.steps| && inst.kind == BankChange
                  && db.objects[inst.subject].supplier == s
               then db.suppliers[s].(cipher := Some(db.objects[inst.subject].cipher))
               else db.suppliers[s]
  {
    assert InstanceSound(db, i);
  }

  /** The decision is logged after the earlier ones; an approval short of the last step moves on, anything else settles as decided. */
  lemma RecordsExactly(db: Db, i: nat, a: Action)
    requires Sound(db) && i in db.instances && i in db.log && db.instances[i].standing == Pending
    ensures var inst, after := db.instances[i], Decided(db, i, a);
            && after.log == db.log[i := db.log[i] + [a]]
            && after.instances == db.instances[i :=
                 if a.decision == Approve && inst.current + 1 != |inst.steps| then inst.(current := inst.current + 1)
                 else inst.(standing := Settled(a.decision))]
  {
    assert InstanceSound(db, i);
  }

  /** Every action of an approved instance is an approval of its step, by somebody who held the step's role, or the star. */
  lemma ApprovedStep(inst: Instance, log: seq<Action>, k: nat)
    requires FullyApproved(inst, log) && k < |inst.steps|
    ensures log[k].decision == Approve && log[k].step == k
    ensures inst.steps[k].role == "" || inst.steps[k].role in log[k].roles || log[k].star
  {
  }
}
