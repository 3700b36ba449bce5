/**
 * What the statements of the approval engine bring about: that an approved account is paid, and which rule an approval
 * follows (internal/httpapi/workflows.go, objects.go, suppliers.go).
 */
module ApprovalOutcomes {
  import opened Common
  import opened Approval
  import opened ApprovalRuns

  // What is approved takes effect.

  /** The commit of a change's last approval writes the account, for every number of steps; no other commit writes one. */
  lemma CommitPays(s: State, r: nat, luck: Luck, sup: nat)
    requires Inv(s) && r in s.requests && s.requests[r].Cleared? && luck.ok && sup in s.db.suppliers
    ensures var x, t := s.requests[r], Next(s, Run(r, luck));
            && x.i in s.db.instances && s.db.instances[x.i].subject in s.db.objects && t.db.suppliers.Keys == s.db.suppliers.Keys
            && var inst := s.db.instances[x.i];
               t.db.suppliers[sup] ==
               if x.decision == Approve && inst.current + 1 == |inst.steps| && inst.kind == BankChange
                  && s.db.objects[inst.subject].supplier == sup
               then s.db.suppliers[sup].(cipher := Some(s.db.objects[inst.subject].cipher))
               else s.db.suppliers[sup]
  {
    hide Sound, Decided, ChangesApart;
    RequestAt(s, r);
    var x := s.requests[r];
    SoundAt(s.db, x.i);
    PaysExactly(s.db, x.i, Action(s.db.instances[x.i].current, x.decision, x.user, x.roles, x.star), sup);
  }

  /** Every account change, and every request for one, is for a supplier on record. */
  predicate SuppliersKnown(s: State) {
    && (forall o :: o in s.db.objects && s.db.objects[o].kind == BankChange ==> s.db.objects[o].supplier in s.db.suppliers)
    && (forall r :: r in s.requests && NamesSupplier(s.requests[r]) ==> s.requests[r].s in s.db.suppliers)
  }

  lemma EffectKeepsSuppliers(s: State, t: State, x: Request, f: Effect)
    requires HasEffect(s, t, x, f)
    ensures t.db.suppliers.Keys == s.db.suppliers.Keys
    ensures forall o :: o in t.db.objects && t.db.objects[o].kind == BankChange ==>
              || (o in s.db.objects && s.db.objects[o].kind == BankChange && t.db.objects[o].supplier == s.db.objects[o].supplier)
              || (f.AsksChange? && t.db.objects[o].supplier == f.s)
  {
    hide Advanced, HasPending;
  }

  predicate NamesSupplier(x: Request) { x.ChangingRead? || x.ChangePick? || x.ChangeObject? }

  lemma OthersNameNone(s: State, r: nat, luck: Luck)
    requires r in s.requests && !IsChange(s.requests[r]) && r in Next(s, Run(r, luck)).requests
    ensures !NamesSupplier(Next(s, Run(r, luck)).requests[r])
  {
    hide Decided, Opened, Withdrawn, WithStatus, PatchedBy, HasPending, IsRule, FindsPending;
  }

  /** A change is taken up only for a supplier on record. */
  lemma ChangeNamesItsSupplier(s: State, r: nat, luck: Luck)
    requires r in s.requests && r in Next(s, Run(r, luck)).requests
    ensures var x, y := s.requests[r], Next(s, Run(r, luck)).requests[r];
            NamesSupplier(y) ==> (NamesSupplier(x) && x.s == y.s) || y.s in s.db.suppliers
  {
    if !IsChange(s.requests[r]) {
      OthersNameNone(s, r, luck);
    }
    hide RunSubmit, RunPatch, RunDecision, Opened, Paid, HasPending, IsNewest;
  }

  lemma OnlyItsRequestMoves(s: State, r: nat, luck: Luck, q: nat)
    requires r in s.requests && q != r && q in Next(s, Run(r, luck)).requests
    ensures q in s.requests && Next(s, Run(r, luck)).requests[q] == s.requests[q]
  {
    hide Decided, Opened, Withdrawn, WithStatus, PatchedBy, Paid, HasPending, IsNewest, IsRule, FindsPending;
  }

  lemma RunKeepsKnown(s: State, r: nat, luck: Luck)
    requires Inv(s) && SuppliersKnown(s) && r in s.requests
    ensures SuppliersKnown(Next(s, Run(r, luck)))
  {
    var t := Next(s, Run(r, luck));
    var f := RunEffect(s, r, luck);
    assert f.AsksChange? ==> s.requests[r].ChangeObject? && f.s == s.requests[r].s;
    hide Next, HasEffect, EffectOf, Inv;
    EffectKeepsSuppliers(s, t, s.requests[r], f);
    forall q | q in t.requests && NamesSupplier(t.requests[q])
      ensures t.requests[q].s in t.db.suppliers
    {
      if q == r {
        ChangeNamesItsSupplier(s, r, luck);
        StaysOnRecord(s, r, luck);
      } else {
        OnlyItsRequestMoves(s, r, luck, q);
      }
    }
  }

  lemma StaysOnRecord(s: State, r: nat, luck: Luck)
    requires r in s.requests
    ensures r in Next(s, Run(r, luck)).requests
  {
    hide Decided, Opened, Withdrawn, WithStatus, PatchedBy, Paid, HasPending, IsNewest, IsRule, FindsPending;
  }

  lemma OutsideKeepsKnown(s: State, e: Event)
    requires SuppliersKnown(s) && !e.Run?
    ensures SuppliersKnown(Next(s, e))
  {
  }

  lemma {:induction false} RunsKeepKnown(start: State, run: seq<Event>)
    requires Starts(start)
    ensures SuppliersKnown(After(start, run))
  {
    if run != [] {
      hide Inv, Next, SuppliersKnown;
      var front, e := run[..|run| - 1], run[|run| - 1];
      RunsKeepKnown(start, front);
      RunKeepsInv(start, front);
      if !e.Run? {
        OutsideKeepsKnown(After(start, front), e);
      } else if e.r in After(start, front).requests {
        RunKeepsKnown(After(start, front), e.r, e.luck);
      } else {
        assert Next(After(start, front), e) == After(start, front) by { NothingToRun(After(start, front), e); }
      }
    }
  }

  lemma NothingToRun(s: State, e: Event)
    requires e.Run? && e.r !in s.requests
    ensures Next(s, e) == s
  {
  }

  predicate IsApproved(s: State, i: nat) { i in s.db.instances && s.db.instances[i].standing == Settled(Approve) }

  predicate IsApprovedChange(s: State, i: nat) { IsApproved(s, i) && s.db.instances[i].kind == BankChange }

  /** An instance becomes approved only in the commit of its own last approval. */
  lemma BecomesApproved(s: State, e: Event, i: nat)
    requires Inv(s) && !IsApproved(s, i) && IsApproved(Next(s, e), i)
    ensures e.Run? && e.r in s.requests && s.requests[e.r].Cleared? && s.requests[e.r].i == i && e.luck.ok
    ensures i in s.db.instances && s.requests[e.r].decision == Approve
    ensures s.db.instances[i].current + 1 == |s.db.instances[i].steps|
    ensures Next(s, e).db.instances[i] == s.db.instances[i].(standing := Settled(Approve))
  {
    hide Sound, RequestSound, ChangesApart, RunSubmit, RunChange, RunPatch, RunDecision;
    assert e.Run? && e.r in s.requests;
    var f := RunEffect(s, e.r, e.luck);
    RequestAt(s, e.r);
    assert f.Decides? && f.i == i by { hide Paid, Marked; }
    SoundAt(s.db, i);
  }

  /** The supplier a change was asked for, as now has it, is on record in paid with the account asked for. */
  predicate HoldsTheAccount(now: Db, i: nat, paid: Db) {
    && i in now.instances && now.instances[i].subject in now.objects
    && now.objects[now.instances[i].subject].supplier in paid.suppliers
    && paid.suppliers[now.objects[now.instances[i].subject].supplier].cipher
       == Some(now.objects[now.instances[i].subject].cipher)
  }

  predicate ApprovedAt(start: State, run: seq<Event>, k: nat, i: nat)
    requires k < |run|
  {
    !IsApproved(After(start, run[..k]), i) && IsApproved(After(start, run[..k + 1]), i)
  }

  /**
   * Over every run, an approved change was paid: the event that approved it left the supplier it was asked for, who is
   * on record, with the account it asked for.
   */
  lemma {:induction false} ApprovedWasPaid(start: State, run: seq<Event>, i: nat) returns (k: nat)
    requires Starts(start) && IsApprovedChange(After(start, run), i)
    ensures k < |run| && ApprovedAt(start, run, k, i)
    ensures HoldsTheAccount(After(start, run).db, i, After(start, run[..k + 1]).db)
  {
    hide Starts, Next, Inv, SuppliersKnown, After, IsApproved, IsApprovedChange, HoldsTheAccount, ApprovedAt;
    NoneAtTheStart(start, i);
    assert run != [];
    var n := |run| - 1;
    var front := run[..n];
    RunKeepsInv(start, front);
    RunsKeepKnown(start, front);
    LastEvent(start, run, i);
    if IsApproved(After(start, front), i) {
      ApprovedStays(After(start, front), run[n], i);
      k := ApprovedWasPaid(start, front, i);
      InFront(start, run, n, k, i);
    } else {
      k := n;
      ApprovalPays(After(start, front), run[n], i);
    }
  }

  lemma LastEvent(start: State, run: seq<Event>, i: nat)
    requires run != []
    ensures After(start, run) == Next(After(start, run[..|run| - 1]), run[|run| - 1]) && run[..|run| - 1 + 1] == run
    ensures ApprovedAt(start, run, |run| - 1, i) <==> !IsApproved(After(start, run[..|run| - 1]), i) && IsApproved(After(start, run), i)
  {
    assert run[..|run| - 1 + 1] == run;
  }

  lemma InFront(start: State, run: seq<Event>, n: nat, k: nat, i: nat)
    requires k < n <= |run| && ApprovedAt(start, run[..n], k, i)
    ensures ApprovedAt(start, run, k, i) && run[..n][..k + 1] == run[..k + 1]
  {
    assert run[..n][..k] == run[..k] && run[..n][..k + 1] == run[..k + 1];
  }

  lemma NoneAtTheStart(start: State, i: nat)
    requires Starts(start)
    ensures !IsApprovedChange(After(start, []), i)
  {
  }

  lemma ApprovedStays(s: State, e: Event, i: nat)
    requires Inv(s) && IsApproved(s, i) && IsApprovedChange(Next(s, e), i)
    ensures IsApprovedChange(s, i)
    ensures forall paid :: HoldsTheAccount(s.db, i, paid) ==> HoldsTheAccount(Next(s, e).db, i, paid)
  {
    SoundAt(s.db, i);
    hide Next, Inv, Sound;
    StepContinues(s, e, i);
    SoundIsLogged(s, e, i);
    ChangeIsFixed(s, e, s.db.instances[i].subject);
  }

  lemma SoundIsLogged(s: State, e: Event, i: nat)
    requires Inv(s) && i in Next(s, e).db.instances
    ensures i in Next(s, e).db.log
  {
    hide Next;
    StepKeepsInv(s, e);
    SoundAt(Next(s, e).db, i);
  }

  lemma ApprovalPays(s: State, e: Event, i: nat)
    requires Inv(s) && SuppliersKnown(s) && !IsApproved(s, i) && IsApprovedChange(Next(s, e), i)
    ensures IsApproved(Next(s, e), i) && HoldsTheAccount(Next(s, e).db, i, Next(s, e).db)
  {
    BecomesApproved(s, e, i);
    SoundAt(s.db, i);
    var o := s.db.instances[i].subject;
    hide Next, Inv, Sound;
    ChangeIsFixed(s, e, o);
    CommitPays(s, e.r, e.luck, s.db.objects[o].supplier);
  }

  /** Every step of an approved instance was approved by somebody who held its role when it was checked, or the star. */
  lemma EachStepWasApproved(start: State, run: seq<Event>, i: nat, k: nat)
    requires Starts(start) && IsApproved(After(start, run), i) && k < |After(start, run).db.instances[i].steps|
    ensures i in After(start, run).db.log && k < |After(start, run).db.log[i]|
    ensures var step, a := After(start, run).db.instances[i].steps[k], After(start, run).db.log[i][k];
            a.decision == Approve && a.step == k && (step.role == "" || step.role in a.roles || a.star)
  {
    LogIsInStep(start, run, i);
    var inst, log := After(start, run).db.instances[i], After(start, run).db.log[i];
    ApprovedIsFull(inst, log);
    ApprovedStep(inst, log, k);
  }

  // The rule an approval follows.

  /** A submission goes on with the steps of a rule that is enabled and of the object's type. */
  lemma SubmissionPicksARule(s: State, r: nat, luck: Luck)
    requires r in s.requests && !s.requests[r].SubmitInsert?
    requires r in Next(s, Run(r, luck)).requests && Next(s, Run(r, luck)).requests[r].SubmitInsert?
    ensures var y := Next(s, Run(r, luck)).requests[r];
            && y.o in s.db.objects && y.definition in s.db.definitions
            && s.db.definitions[y.definition].enabled && s.db.definitions[y.definition].kind == s.db.objects[y.o].kind
            && y.steps == s.db.definitions[y.definition].steps
  {
    hide Decided, Opened, Withdrawn, WithStatus, PatchedBy, Paid, HasPending, IsNewest, FindsPending;
  }

  /** An account change goes on with the steps of an enabled rule for account changes, of the newest version there is. */
  lemma ChangePicksTheNewest(s: State, r: nat, luck: Luck)
    requires r in s.requests && !s.requests[r].ChangeObject?
    requires r in Next(s, Run(r, luck)).requests && Next(s, Run(r, luck)).requests[r].ChangeObject?
    ensures var y := Next(s, Run(r, luck)).requests[r];
            && y.definition in s.db.definitions
            && s.db.definitions[y.definition].enabled && s.db.definitions[y.definition].kind == BankChange
            && y.steps == s.db.definitions[y.definition].steps
            && forall e :: e in s.db.definitions && s.db.definitions[e].enabled && s.db.definitions[e].kind == BankChange ==>
                 s.db.definitions[e].version <= s.db.definitions[y.definition].version
  {
    hide Decided, Opened, Withdrawn, WithStatus, PatchedBy, Paid, HasPending, FindsPending;
  }

  /** An edit makes the rule newer than it was, and reaches no instance: those keep the steps they were opened with. */
  lemma EditsReachNoInstance(s: State, d: nat, enabled: bool, steps: seq<Step>)
    requires d in s.db.definitions && steps != []
    ensures var t := Next(s, EditRule(d, enabled, steps));
            && t.db.instances == s.db.instances && t.db.log == s.db.log
            && d in t.db.definitions && t.db.definitions[d].version > s.db.definitions[d].version
            && t.db.definitions[d].steps == steps && t.db.definitions[d].enabled == enabled
            && t.db.definitions[d].kind == s.db.definitions[d].kind
            && forall e :: e in s.db.definitions && e != d ==> e in t.db.definitions && t.db.definitions[e] == s.db.definitions[e]
  {
  }

  /** A decision goes on only for somebody entitled to the step, with the roles they hold at that moment. */
  lemma EntitlesByHeldRoles(s: State, r: nat, luck: Luck)
    requires Inv(s) && r in s.requests && s.requests[r].Holding?
    requires r in Next(s, Run(r, luck)).requests && Next(s, Run(r, luck)).requests[r].Entitled?
    ensures var y := Next(s, Run(r, luck)).requests[r];
            && y.i in s.db.instances && s.db.instances[y.i].current < |s.db.instances[y.i].steps|
            && y.roles == (if y.user in s.db.roles then s.db.roles[y.user] else {})
            && var role := s.db.instances[y.i].steps[s.db.instances[y.i].current].role;
               role == "" || role in y.roles || y.star
  {
    RequestAt(s, r);
    SoundAt(s.db, s.requests[r].i);
  }

  // What a request is told.

  /** The answer y of a request in its place x goes with the effect f. */
  predicate ToldAsWritten(x: Request, y: Request, f: Effect) {
    && (y == Over(Changed) <==> f.Pays?)
    && (y == Over(ChangeAsked) <==> x.ChangeInstance? && f.Opens?)
    && (y == Over(Patched) <==> f.Patches?)
    && (y == Over(AutoApproved) <==> f.Marks? && f.word == Approved)
    && (y.Over? && y.answer.Submitted? <==> f.Marks? && f.word == PendingApproval)
    && (y.Over? && y.answer.Submitted? ==> x == SubmitMark(f.o, y.answer.i))
    && (y.Over? && y.answer.DecidedAs? <==> f.Decides?)
    && (f.Decides? ==> y == Over(DecidedAs(f.a.decision)))
  }

  lemma SubmissionTold(s: State, r: nat, luck: Luck)
    requires r in s.requests && IsSubmit(s.requests[r]) && RequestSound(s, r) && r in RunSubmit(s, r, luck).requests
    ensures ToldAsWritten(s.requests[r], RunSubmit(s, r, luck).requests[r], EffectOf(s, s.requests[r], luck))
  {
    hide Opened, Withdrawn, WithStatus, HasPending, IsRule, FindsPending;
  }

  lemma ChangeTold(s: State, r: nat, luck: Luck)
    requires r in s.requests && IsChange(s.requests[r]) && RequestSound(s, r) && r in RunChange(s, r, luck).requests
    ensures ToldAsWritten(s.requests[r], RunChange(s, r, luck).requests[r], EffectOf(s, s.requests[r], luck))
  {
    hide Opened, Paid, HasPending, IsNewest;
  }

  lemma PatchTold(s: State, r: nat, luck: Luck)
    requires r in s.requests && IsPatch(s.requests[r]) && RequestSound(s, r) && r in RunPatch(s, r, luck).requests
    ensures ToldAsWritten(s.requests[r], RunPatch(s, r, luck).requests[r], EffectOf(s, s.requests[r], luck))
  {
    hide PatchedBy;
  }

  lemma DecisionTold(s: State, r: nat, luck: Luck)
    requires r in s.requests && RequestSound(s, r) && !s.requests[r].Over? && r in RunDecision(s, r, luck).requests
    requires !IsSubmit(s.requests[r]) && !IsChange(s.requests[r]) && !IsPatch(s.requests[r])
    ensures ToldAsWritten(s.requests[r], RunDecision(s, r, luck).requests[r], EffectOf(s, s.requests[r], luck))
  {
    hide Decided;
  }

  /** A request is told of success exactly when its statement has written what that success means. */
  lemma SuccessMeansWritten(s: State, r: nat, luck: Luck)
    requires Inv(s) && r in s.requests && !s.requests[r].Over? && r in Next(s, Run(r, luck)).requests
    ensures ToldAsWritten(s.requests[r], Next(s, Run(r, luck)).requests[r], EffectOf(s, s.requests[r], luck))
  {
    RequestAt(s, r);
    hide Inv, RequestSound, RunSubmit, RunChange, RunPatch, RunDecision, ToldAsWritten, EffectOf;
    if IsSubmit(s.requests[r]) {
      SubmissionTold(s, r, luck);
    } else if IsChange(s.requests[r]) {
      ChangeTold(s, r, luck);
    } else if IsPatch(s.requests[r]) {
      PatchTold(s, r, luck);
    } else {
      DecisionTold(s, r, luck);
    }
  }

  /** Whoever finds an approval open, before inserting or after losing the race to insert, is told which; the loser who finds none, failure. */
  lemma ToldWhichIsOpen(s: State, r: nat, pick: Option<nat>)
    requires r in s.requests && (s.requests[r].SubmitOn? || s.requests[r].SubmitLost?)
    ensures var o, t := s.requests[r].o, Next(s, Run(r, Luck(true, 0, pick)));
            var found := pick.Some? && pick.value in s.db.instances
                         && s.db.instances[pick.value].subject == o && s.db.instances[pick.value].standing == Pending;
            var none := forall i :: i in s.db.instances ==> s.db.instances[i].subject != o || s.db.instances[i].standing != Pending;
            && t.db == s.db
            && (found ==> r in t.requests && t.requests[r] == Over(AlreadySubmitted(pick.value)))
            && (s.requests[r].SubmitLost? && pick.None? && none ==> r in t.requests && t.requests[r] == Over(Failed))
  {
  }

  /** What administration writes. */
  lemma AdministrationWrites(s: State, user: nat, roles: set<string>, settings: Settings, d: nat, rule: Definition)
    ensures Next(s, Configure(settings)) == s.(db := s.db.(settings := settings))
    ensures Next(s, Grant(user, roles)) == s.(db := s.db.(roles := s.db.roles[user := roles]))
    ensures d !in s.db.definitions && rule.steps != [] ==>
              Next(s, AddRule(d, rule)) == s.(db := s.db.(definitions := s.db.definitions[d := rule]))
  {
  }

  /** What the other handlers write: a new supplier with its account, a new object, a status that approvals do not award. */
  lemma OthersWriteExactly(s: State, sup: nat, cipher: Option<string>, o: nat, name: string, w: Word)
    ensures sup !in s.db.suppliers ==>
              Next(s, Register(sup, cipher)) == s.(db := s.db.(suppliers := s.db.suppliers[sup := Supplier(cipher, cipher)]))
    ensures o !in s.db.objects && w !in {PendingApproval, Approved, Rejected, Returned} ==>
              Next(s, Create(o, name, w, sup))
              == s.(db := s.db.(objects := s.db.objects[o := Object(Routed(name), w, sup, "")]))
    ensures o in s.db.objects && s.db.objects[o].kind != BankChange && w !in {PendingApproval, Approved, Rejected, Returned} ==>
              Next(s, Write(o, w)) == s.(db := s.db.(objects := s.db.objects[o := s.db.objects[o].(status := w)]))
    ensures w in {PendingApproval, Approved, Rejected, Returned} ==>
              Next(s, Create(o, name, w, sup)) == s && Next(s, Write(o, w)) == s
  {
  }
}
