/**
 * When an object is left reading "in approval" with no approval open
 * (the separate statements of submitObject and updateObject, internal/httpapi/objects.go).
 */
module ApprovalStrands {
  import opened Common
  import opened Approval
  import opened ApprovalRuns

  predicate Stranded(db: Db, o: nat) {
    RoutedObject(db, o) && db.objects[o].status == PendingApproval && !HasPending(db, o)
  }

  predicate NoneStranded(db: Db) { forall o :: o in db.objects ==> !Stranded(db, o) }

  // What one statement strands.

  /** What a caller could look up before the statement. */
  predicate Strands(s: State, e: Event) {
    && e.Run? && e.r in s.requests && e.luck.ok
    && match s.requests[e.r]
       case SubmitMark(o, _) => !HasPending(s.db, o)
       case PatchChecked(o, w, _) => w == Some(PendingApproval) && !HasPending(s.db, o)
       case SubmitCleanup(i) =>
         && i !in s.locks && i in s.db.instances && s.db.instances[i].standing == Pending
         && RoutedObject(s.db, s.db.instances[i].subject)
         && s.db.objects[s.db.instances[i].subject].status == PendingApproval
       case _ => false
  }

  lemma SamePending(a: Db, b: Db, o: nat)
    requires a.instances == b.instances
    ensures HasPending(a, o) <==> HasPending(b, o)
  {
    forall i ensures PendingOn(a, o, i) == PendingOn(b, o, i) {
    }
  }

  lemma OneObjectWritten(a: Db, b: Db, o: nat)
    requires NoneStranded(a) && a.instances == b.instances && o in b.objects
    requires b.objects == a.objects[o := b.objects[o]]
    ensures NoneStranded(b) <==> !Stranded(b, o)
  {
    forall p | p in b.objects && p != o ensures !Stranded(b, p) {
      SamePending(a, b, p);
      assert !Stranded(a, p);
    }
  }

  lemma MarkStrands(db: Db, o: nat, w: Word)
    requires NoneStranded(db) && RoutedObject(db, o)
    ensures NoneStranded(WithStatus(db, o, w)) <==> !(w == PendingApproval && !HasPending(db, o))
  {
    SamePending(db, WithStatus(db, o, w), o);
    OneObjectWritten(db, WithStatus(db, o, w), o);
  }

  lemma PatchStrands(db: Db, o: nat, w: Option<Word>, moved: Option<nat>)
    requires NoneStranded(db) && RoutedObject(db, o)
    ensures NoneStranded(PatchedBy(db, o, w, moved)) <==> !(w == Some(PendingApproval) && !HasPending(db, o))
  {
    assert !Stranded(db, o);
    SamePending(db, PatchedBy(db, o, w, moved), o);
    OneObjectWritten(db, PatchedBy(db, o, w, moved), o);
  }

  /** One instance more, or less, leaves the approvals of other objects. */
  lemma PendingElsewhere(a: Db, b: Db, i: nat, o: nat)
    requires forall j :: j != i ==> (j in a.instances <==> j in b.instances)
    requires forall j :: j != i && j in a.instances ==> a.instances[j] == b.instances[j]
    requires i in a.instances ==> a.instances[i].subject != o
    ensures HasPending(a, o) ==> HasPending(b, o)
  {
    if j :| j in a.instances && PendingOn(a, o, j) {
      assert PendingOn(b, o, j);
    }
  }

  lemma OnlyPending(db: Db, o: nat, i: nat, after: Db)
    requires Sound(db) && PendingOn(db, o, i)
    requires forall j :: j in after.instances && j != i ==> j in db.instances && after.instances[j] == db.instances[j]
    requires i in after.instances ==> after.instances[i].standing != Pending
    ensures !HasPending(after, o)
  {
    forall j | j in after.instances ensures !PendingOn(after, o, j) {
      if j != i {
        assert Apart(db, i, j);
      }
    }
  }

  lemma WithdrawalStrands(db: Db, i: nat)
    requires Sound(db) && NoneStranded(db) && i in db.instances && db.instances[i].standing == Pending
    ensures var o := db.instances[i].subject;
            NoneStranded(Withdrawn(db, i)) <==> !(RoutedObject(db, o) && db.objects[o].status == PendingApproval)
  {
    var o, after := db.instances[i].subject, Withdrawn(db, i);
    OnlyPending(db, o, i, after);
    forall p | p in after.objects && p != o ensures !Stranded(after, p) {
      assert !Stranded(db, p);
      PendingElsewhere(db, after, i, p);
    }
    assert Stranded(after, o) <==> RoutedObject(db, o) && db.objects[o].status == PendingApproval;
  }

  lemma OpeningStrandsNothing(db: Db, i: nat, inst: Instance)
    requires NoneStranded(db) && i !in db.instances
    ensures NoneStranded(Opened(db, i, inst))
  {
    forall o | o in db.objects ensures !Stranded(Opened(db, i, inst), o) {
      assert !Stranded(db, o);
      PendingElsewhere(db, Opened(db, i, inst), i, o);
    }
  }

  lemma DecisionStrandsNothing(db: Db, i: nat, a: Action)
    requires NoneStranded(db) && i in db.instances && i in db.log && db.instances[i].standing == Pending
    ensures NoneStranded(Decided(db, i, a))
  {
    var o, after := db.instances[i].subject, Decided(db, i, a);
    forall p | p in after.objects ensures !Stranded(after, p) {
      assert !Stranded(db, p);
      if p != o {
        PendingElsewhere(db, after, i, p);
      } else if after.instances[i].standing == Pending {
        assert PendingOn(after, o, i);
      }
    }
  }

  lemma ElsewhereStrandsNothing(a: Db, b: Db)
    requires NoneStranded(a) && a.instances == b.instances
    requires forall o :: RoutedObject(b, o) && b.objects[o].status == PendingApproval
               ==> RoutedObject(a, o) && a.objects[o].status == PendingApproval
    ensures NoneStranded(b)
  {
    forall o | o in b.objects ensures !Stranded(b, o) {
      SamePending(a, b, o);
      assert o in a.objects ==> !Stranded(a, o);
    }
  }

  lemma EffectStrandsExactly(s: State, x: Request, f: Effect)
    requires Sound(s.db) && NoneStranded(s.db) && Fits(s, x, f)
    ensures NoneStranded(Apply(s.db, f)) <==>
            !match f
             case Marks(o, w) => w == PendingApproval && !HasPending(s.db, o)
             case Patches(o, w, _) => w == Some(PendingApproval) && !HasPending(s.db, o)
             case Withdraws(i) =>
               RoutedObject(s.db, s.db.instances[i].subject) && s.db.objects[s.db.instances[i].subject].status == PendingApproval
             case _ => false
  {
    hide Sound, NoneStranded, HasPending, Decided, Opened, Withdrawn, WithStatus, PatchedBy, Paid;
    match f
    case Nothing =>
    case Marks(o, w) => MarkStrands(s.db, o, w);
    case Opens(i, inst) => OpeningStrandsNothing(s.db, i, inst);
    case Withdraws(i) => WithdrawalStrands(s.db, i);
    case AsksChange(o, sup, cipher) => ElsewhereStrandsNothing(s.db, Apply(s.db, f));
    case Pays(sup, cipher) => ElsewhereStrandsNothing(s.db, Apply(s.db, f));
    case Patches(o, w, moved) => PatchStrands(s.db, o, w, moved);
    case Decides(i, a) => DecisionStrandsNothing(s.db, i, a);
  }

  lemma OutsideStrandsNothing(s: State, e: Event)
    requires NoneStranded(s.db) && !e.Run?
    ensures NoneStranded(Next(s, e).db)
  {
    hide NoneStranded;
    ElsewhereStrandsNothing(s.db, Next(s, e).db);
  }

  /** An event leaves an object stranded exactly when it is one of three statements that finds no open approval. */
  lemma StrandsExactly(s: State, e: Event)
    requires Inv(s) && NoneStranded(s.db)
    ensures NoneStranded(Next(s, e).db) <==> !Strands(s, e)
  {
    if !e.Run? {
      OutsideStrandsNothing(s, e);
    } else if e.r in s.requests {
      hide Next, NoneStranded, HasPending, Apply, Sound, RequestSound, ChangesApart;
      var f := RunEffect(s, e.r, e.luck);
      EffectStrandsExactly(s, s.requests[e.r], f);
    }
  }

  /** At no point of the run is an object stranded. */
  predicate NeverStrands(start: State, run: seq<Event>) {
    NoneStranded(After(start, run).db) && (run != [] ==> NeverStrands(start, run[..|run| - 1]))
  }

  predicate NoneOfThem(start: State, run: seq<Event>) {
    run != [] ==> NoneOfThem(start, run[..|run| - 1]) && !Strands(After(start, run[..|run| - 1]), run[|run| - 1])
  }

  lemma {:induction false} NeverStrandsExactly(start: State, run: seq<Event>)
    requires Starts(start) && NoneStranded(start.db)
    ensures NeverStrands(start, run) <==> NoneOfThem(start, run)
  {
    hide NoneStranded, Strands, Next, Inv;
    if run != [] {
      var front := run[..|run| - 1];
      NeverStrandsExactly(start, front);
      RunKeepsInv(start, front);
      if NoneStranded(After(start, front).db) {
        StrandsExactly(After(start, front), run[|run| - 1]);
      }
    }
  }

  // Which schedules strand nothing.

  /** A submission has opened i and has not finished with it. */
  predicate IsOpening(x: Request) { x.SubmitMark? || x.SubmitCleanup? }

  predicate Opening(x: Request, i: nat) { IsOpening(x) && x.i == i }

  predicate BeingOpened(s: State, i: nat) { exists r :: r in s.requests && Opening(s.requests[r], i) }

  predicate Settles(inst: Instance, d: Decision) { Advanced(inst, d).standing != Pending }

  /** A decision keeps off approvals still being opened, unless it settles one whose submission is taking it back. */
  predicate CarefulDecision(s: State, i: nat, d: Decision)
    requires i in s.db.instances
  {
    forall r :: r in s.requests && Opening(s.requests[r], i) ==> s.requests[r].SubmitCleanup? && Settles(s.db.instances[i], d)
  }

  /** A PATCH restates "in approval" only while the object still reads it, or has an approval no submission is still opening. */
  predicate CarefulPatch(s: State, o: nat)
    requires o in s.db.objects
  {
    s.db.objects[o].status == PendingApproval || exists i :: i in s.db.instances && PendingOn(s.db, o, i) && !BeingOpened(s, i)
  }

  predicate Careful(s: State, e: Event) {
    e.Run? && e.r in s.requests && e.luck.ok ==>
      match s.requests[e.r]
      case Cleared(i, decision, _, _, _) => i in s.db.instances ==> CarefulDecision(s, i, decision)
      case PatchChecked(o, w, _) => w == Some(PendingApproval) && o in s.db.objects ==> CarefulPatch(s, o)
      case _ => true
  }

  predicate CarefulRun(start: State, run: seq<Event>) {
    run != [] ==> CarefulRun(start, run[..|run| - 1]) && Careful(After(start, run[..|run| - 1]), run[|run| - 1])
  }

  /** An approval being opened is there, and while it is open its object does not read "in approval". */
  predicate WaitsForMark(db: Db, x: Request, i: nat) {
    && i in db.instances && RoutedObject(db, db.instances[i].subject)
    && (x.SubmitMark? ==> PendingOn(db, x.o, i))
    && (db.instances[i].standing == Pending ==> db.objects[db.instances[i].subject].status != PendingApproval)
  }

  predicate OpensApart(x: Request, y: Request) { IsOpening(x) && IsOpening(y) ==> x.i != y.i }

  predicate MarksInv(s: State) {
    && (forall r :: r in s.requests && IsOpening(s.requests[r]) ==> WaitsForMark(s.db, s.requests[r], s.requests[r].i))
    && (forall q, r :: q in s.requests && r in s.requests && q != r ==> OpensApart(s.requests[q], s.requests[r]))
  }

  predicate HoldsLock(x: Request, i: nat) { (x.Holding? || x.Entitled? || x.Cleared?) && x.i == i }

  /** A lock is held by a decision on the instance it locks. */
  predicate LocksHeld(s: State) {
    forall i :: i in s.locks ==> s.locks[i] in s.requests && HoldsLock(s.requests[s.locks[i]], i)
  }

  predicate Orderly(s: State) { NoneStranded(s.db) && MarksInv(s) && LocksHeld(s) }

  /** Only the request run moves. */
  lemma OnlyOneMoves(s: State, r: nat, luck: Luck, q: nat)
    requires r in s.requests && q != r
    ensures q in Next(s, Run(r, luck)).requests <==> q in s.requests
    ensures q in s.requests ==> Next(s, Run(r, luck)).requests[q] == s.requests[q]
  {
    hide Decided, Opened, Withdrawn, WithStatus, PatchedBy, Paid, HasPending, IsNewest, IsRule, FindsPending;
  }

  lemma StillThere(s: State, r: nat, luck: Luck)
    requires r in s.requests
    ensures r in Next(s, Run(r, luck)).requests
  {
    hide Decided, Opened, Withdrawn, WithStatus, PatchedBy, Paid, HasPending, IsNewest, IsRule, FindsPending;
  }

  /** Where a request comes to hold an approval it opened. */
  lemma ComesToOpen(s: State, r: nat, luck: Luck, i: nat)
    requires r in s.requests && r in Next(s, Run(r, luck)).requests && Opening(Next(s, Run(r, luck)).requests[r], i)
    ensures var x, t := s.requests[r], Next(s, Run(r, luck));
            (t.requests[r] == x && t.db == s.db)
            || (x.SubmitMark? && x.i == i && t.requests[r] == SubmitCleanup(i) && t.db == s.db)
            || (x.SubmitInsert? && CanInsert(s, luck, x.o) && i == luck.id && t.requests[r] == SubmitMark(x.o, i)
                && t.db == Opened(s.db, i, NewInstance(s.db, x.o, x.user, x.definition, x.steps)))
  {
    hide Decided, Opened, Withdrawn, WithStatus, PatchedBy, Paid, HasPending, IsNewest, IsRule, FindsPending;
  }

  /** A decision takes one lock, keeps it, or lets it go when it is over. */
  lemma DecisionLocks(s: State, r: nat, luck: Luck)
    requires r in s.requests && r in RunDecision(s, r, luck).requests
    ensures var x, t := s.requests[r], RunDecision(s, r, luck);
            || (t.locks == s.locks && t.requests[r] == x)
            || (t.locks == s.locks && x.Deciding?)
            || (x.Deciding? && t.locks == s.locks[x.i := r] && HoldsLock(t.requests[r], x.i))
            || (t.locks == s.locks && HoldsLock(x, x.i) && HoldsLock(t.requests[r], x.i))
            || (HoldsLock(x, x.i) && t.locks == s.locks - {x.i})
  {
    hide Decided;
  }

  lemma OthersLockNothing(s: State, r: nat, luck: Luck)
    requires r in s.requests && (IsSubmit(s.requests[r]) || IsChange(s.requests[r]) || IsPatch(s.requests[r]))
    ensures Next(s, Run(r, luck)).locks == s.locks
  {
    hide Opened, Withdrawn, WithStatus, PatchedBy, Paid, HasPending, IsNewest, IsRule, FindsPending;
  }

  lemma RunLocksStayHeld(s: State, r: nat, luck: Luck)
    requires LocksHeld(s) && r in s.requests
    ensures LocksHeld(Next(s, Run(r, luck)))
  {
    var x, t := s.requests[r], Next(s, Run(r, luck));
    StillThere(s, r, luck);
    if IsSubmit(x) || IsChange(x) || IsPatch(x) {
      OthersLockNothing(s, r, luck);
    } else {
      DecisionLocks(s, r, luck);
    }
    hide RunSubmit, RunChange, RunPatch, RunDecision;
    forall i | i in t.locks ensures t.locks[i] in t.requests && HoldsLock(t.requests[t.locks[i]], i) {
      if t.locks[i] != r {
        OnlyOneMoves(s, r, luck, t.locks[i]);
      }
    }
  }

  lemma LocksStayHeld(s: State, e: Event)
    requires LocksHeld(s)
    ensures LocksHeld(Next(s, e))
  {
    if e.Run? && e.r in s.requests {
      hide Next;
      RunLocksStayHeld(s, e.r, e.luck);
    }
  }

  /** The effect leaves i, and an object that waits for its mark, as they are. */
  predicate Spares(db: Db, f: Effect, y: Request, i: nat)
    requires i in db.instances
  {
    var inst := db.instances[i];
    match f
    case Marks(o, w) => w == PendingApproval && o == inst.subject ==> inst.standing != Pending
    case Patches(o, w, _) => w == Some(PendingApproval) && o == inst.subject ==> inst.standing != Pending
    case Withdraws(j) => j != i
    case Decides(j, a) => j == i ==> y.SubmitCleanup? && Settles(inst, a.decision)
    case _ => true
  }

  lemma DecisionKeepsWaiting(db: Db, j: nat, a: Action, y: Request, i: nat)
    requires Sound(db) && WaitsForMark(db, y, i)
    requires j in db.instances && j in db.log && db.instances[j].standing == Pending
    requires Spares(db, Decides(j, a), y, i)
    ensures WaitsForMark(Decided(db, j, a), y, i)
  {
    assert Apart(db, i, j);
    hide Sound, TakesEffect, Paid;
  }

  lemma EffectKeepsWaiting(s: State, x: Request, f: Effect, y: Request, i: nat)
    requires Sound(s.db) && Fits(s, x, f) && WaitsForMark(s.db, y, i) && Spares(s.db, f, y, i)
    ensures WaitsForMark(Apply(s.db, f), y, i)
  {
    hide Sound, Decided, Paid;
    if f.Decides? {
      DecisionKeepsWaiting(s.db, f.i, f.a, y, i);
    }
  }

  lemma MarkSpares(s: State, r: nat, q: nat)
    requires Inv(s) && MarksInv(s) && r in s.requests && q in s.requests && q != r
    requires s.requests[r].SubmitMark? && IsOpening(s.requests[q])
    requires s.requests[q].i in s.db.instances && s.requests[r].o == s.db.instances[s.requests[q].i].subject
    ensures s.db.instances[s.requests[q].i].standing != Pending
  {
    assert OpensApart(s.requests[q], s.requests[r]);
    assert WaitsForMark(s.db, s.requests[r], s.requests[r].i);
    assert Apart(s.db, s.requests[q].i, s.requests[r].i);
  }

  lemma PatchSpares(s: State, o: nat, q: nat)
    requires Inv(s) && q in s.requests && IsOpening(s.requests[q]) && WaitsForMark(s.db, s.requests[q], s.requests[q].i)
    requires o in s.db.objects && CarefulPatch(s, o) && o == s.db.instances[s.requests[q].i].subject
    ensures s.db.instances[s.requests[q].i].standing != Pending
  {
    var i := s.requests[q].i;
    if s.db.objects[o].status != PendingApproval {
      var j :| j in s.db.instances && PendingOn(s.db, o, j) && !BeingOpened(s, j);
      assert Opening(s.requests[q], i);
      assert Apart(s.db, i, j);
    }
  }

  /** A careful statement spares every approval another submission is opening. */
  lemma CarefulSpares(s: State, r: nat, luck: Luck, q: nat)
    requires Inv(s) && MarksInv(s) && r in s.requests && q in s.requests && q != r && IsOpening(s.requests[q])
    requires Careful(s, Run(r, luck)) && WaitsForMark(s.db, s.requests[q], s.requests[q].i)
    ensures Spares(s.db, EffectOf(s, s.requests[r], luck), s.requests[q], s.requests[q].i)
  {
    var x, y := s.requests[r], s.requests[q];
    RequestAt(s, r);
    assert OpensApart(y, x);
    hide Inv, MarksInv, Settles, HasPending, CarefulPatch;
    if x.SubmitMark? && x.o == s.db.instances[y.i].subject {
      MarkSpares(s, r, q);
    } else if x.PatchChecked? && luck.ok && x.w == Some(PendingApproval) && x.o == s.db.instances[y.i].subject {
      PatchSpares(s, x.o, q);
    } else if x.Cleared? && luck.ok && x.i == y.i {
      assert Opening(y, x.i);
    }
  }

  /** A submission finds its own approval open, and its object not yet marked. */
  lemma OwnWaits(s: State, r: nat, luck: Luck)
    requires Inv(s) && NoneStranded(s.db) && MarksInv(s) && r in s.requests
    requires r in Next(s, Run(r, luck)).requests && IsOpening(Next(s, Run(r, luck)).requests[r])
    ensures var t := Next(s, Run(r, luck));
            WaitsForMark(t.db, t.requests[r], t.requests[r].i)
  {
    var x, t := s.requests[r], Next(s, Run(r, luck));
    ComesToOpen(s, r, luck, t.requests[r].i);
    RequestAt(s, r);
    hide Next, Inv, HasPending;
    if IsOpening(x) {
      assert WaitsForMark(s.db, x, x.i);
    } else {
      assert !Stranded(s.db, x.o);
    }
  }

  /** What a submission opens, no other is opening. */
  lemma OwnApart(s: State, r: nat, luck: Luck, q: nat)
    requires MarksInv(s) && r in s.requests && q in s.requests && q != r
    requires r in Next(s, Run(r, luck)).requests
    ensures OpensApart(s.requests[q], Next(s, Run(r, luck)).requests[r])
  {
    var t := Next(s, Run(r, luck));
    if IsOpening(s.requests[q]) && IsOpening(t.requests[r]) {
      ComesToOpen(s, r, luck, t.requests[r].i);
      assert OpensApart(s.requests[q], s.requests[r]);
      assert WaitsForMark(s.db, s.requests[q], s.requests[q].i);
    }
  }

  lemma CarefulKeepsMarks(s: State, r: nat, luck: Luck)
    requires Inv(s) && NoneStranded(s.db) && MarksInv(s) && r in s.requests && Careful(s, Run(r, luck))
    ensures MarksInv(Next(s, Run(r, luck)))
  {
    var t := Next(s, Run(r, luck));
    StillThere(s, r, luck);
    var f := RunEffect(s, r, luck);
    hide Next, NoneStranded, Careful, WaitsForMark, OpensApart, EffectOf, Apply, Fits, Sound, RequestSound, ChangesApart;
    forall q | q in t.requests && IsOpening(t.requests[q]) ensures WaitsForMark(t.db, t.requests[q], t.requests[q].i) {
      if q == r {
        OwnWaits(s, r, luck);
      } else {
        OnlyOneMoves(s, r, luck, q);
        CarefulSpares(s, r, luck, q);
        EffectKeepsWaiting(s, s.requests[r], f, s.requests[q], s.requests[q].i);
      }
    }
    forall p, q | p in t.requests && q in t.requests && p != q ensures OpensApart(t.requests[p], t.requests[q]) {
      ApartAfter(s, r, luck, p, q);
    }
  }

  lemma ApartAfter(s: State, r: nat, luck: Luck, p: nat, q: nat)
    requires MarksInv(s) && r in s.requests && p != q
    requires p in Next(s, Run(r, luck)).requests && q in Next(s, Run(r, luck)).requests
    ensures OpensApart(Next(s, Run(r, luck)).requests[p], Next(s, Run(r, luck)).requests[q])
  {
    hide Next;
    if p == r {
      OnlyOneMoves(s, r, luck, q);
      OwnApart(s, r, luck, q);
    } else {
      OnlyOneMoves(s, r, luck, p);
      if q == r {
        OwnApart(s, r, luck, p);
      } else {
        OnlyOneMoves(s, r, luck, q);
      }
    }
  }

  lemma OutsideKeepsMarks(s: State, e: Event)
    requires MarksInv(s) && !e.Run?
    ensures MarksInv(Next(s, e))
  {
  }

  /** A careful statement finds what it needs. */
  lemma CarefulStrandsNothing(s: State, e: Event)
    requires Inv(s) && NoneStranded(s.db) && MarksInv(s) && Careful(s, e)
    ensures !Strands(s, e)
  {
    if e.Run? && e.r in s.requests && e.luck.ok {
      var x := s.requests[e.r];
      if IsOpening(x) {
        assert WaitsForMark(s.db, x, x.i);
      } else if x.PatchChecked? && x.w == Some(PendingApproval) {
        RequestAt(s, e.r);
        assert !Stranded(s.db, x.o);
      }
    }
  }

  lemma StepKeepsOrderly(s: State, e: Event)
    requires Inv(s) && Orderly(s) && Careful(s, e)
    ensures Orderly(Next(s, e))
  {
    hide Inv, NoneStranded, MarksInv, LocksHeld, Careful;
    CarefulStrandsNothing(s, e);
    StrandsExactly(s, e);
    LocksStayHeld(s, e);
    if !e.Run? {
      OutsideKeepsMarks(s, e);
    } else if e.r in s.requests {
      CarefulKeepsMarks(s, e.r, e.luck);
    }
  }

  lemma {:induction false} RunKeepsOrderly(start: State, run: seq<Event>)
    requires Starts(start) && NoneStranded(start.db) && CarefulRun(start, run)
    ensures Orderly(After(start, run))
  {
    if run != [] {
      hide Inv, Orderly, Next;
      RunKeepsOrderly(start, run[..|run| - 1]);
      RunKeepsInv(start, run[..|run| - 1]);
      StepKeepsOrderly(After(start, run[..|run| - 1]), run[|run| - 1]);
    }
  }

  /** If every statement is careful, no object is ever left "in approval" with no approval open. */
  lemma CarefulRunsStrandNothing(start: State, run: seq<Event>, o: nat)
    requires Starts(start) && NoneStranded(start.db) && CarefulRun(start, run)
    requires RoutedObject(After(start, run).db, o) && After(start, run).db.objects[o].status == PendingApproval
    ensures HasPending(After(start, run).db, o)
  {
    RunKeepsOrderly(start, run);
    assert !Stranded(After(start, run).db, o);
  }

  // Every other schedule can go on to strand an object.

  lemma AfterMore(start: State, run: seq<Event>, e: Event)
    ensures After(start, run + [e]) == Next(After(start, run), e)
  {
    assert (run + [e])[..|run|] == run;
  }

  lemma {:induction false} AfterBoth(start: State, run: seq<Event>, more: seq<Event>)
    ensures After(start, run + more) == After(After(start, run), more)
  {
    if more == [] {
      assert run + more == run;
    } else {
      var front, e := more[..|more| - 1], more[|more| - 1];
      AfterBoth(start, run, front);
      assert run + more == run + front + [e] && more == front + [e];
      AfterMore(start, run + front, e);
      AfterMore(After(start, run), front, e);
    }
  }

  lemma Extend(start: State, run: seq<Event>, e: Event)
    requires CarefulRun(start, run) && Careful(After(start, run), e)
    ensures CarefulRun(start, run + [e]) && After(start, run + [e]) == Next(After(start, run), e)
  {
    AfterMore(start, run, e);
    assert (run + [e])[..|run|] == run;
  }

  lemma {:induction false} CarefulBoth(start: State, run: seq<Event>, more: seq<Event>)
    ensures CarefulRun(start, run + more) <==> CarefulRun(start, run) && CarefulRun(After(start, run), more)
  {
    if more == [] {
      assert run + more == run;
    } else {
      var front, e := more[..|more| - 1], more[|more| - 1];
      CarefulBoth(start, run, front);
      AfterBoth(start, run, front);
      assert (run + more)[..|run + more| - 1] == run + front;
    }
  }

  predicate RunsOnly(s: State, more: seq<Event>) {
    forall k :: 0 <= k < |more| ==> more[k].Run? && more[k].r in s.requests
  }

  /** Careful statements of requests that are already there, and nothing else. */
  predicate OnTheWay(s: State, more: seq<Event>) { RunsOnly(s, more) && CarefulRun(s, more) }

  /** Only the request run appears, and it is there already. */
  lemma SameRequests(s: State, r: nat, luck: Luck)
    requires r in s.requests
    ensures Next(s, Run(r, luck)).requests.Keys == s.requests.Keys
  {
    hide Next;
    StillThere(s, r, luck);
    forall q | q != r ensures q in Next(s, Run(r, luck)).requests <==> q in s.requests {
      OnlyOneMoves(s, r, luck, q);
    }
  }

  lemma OneOnTheWay(s: State, e: Event)
    requires e.Run? && e.r in s.requests && Careful(s, e)
    ensures OnTheWay(s, [e]) && After(s, [e]) == Next(s, e)
  {
    hide Careful;
    Extend(s, [], e);
    assert [] + [e] == [e];
  }

  lemma FirstOnTheWay(s: State, e: Event, rest: seq<Event>)
    requires e.Run? && e.r in s.requests && Careful(s, e) && OnTheWay(Next(s, e), rest)
    ensures OnTheWay(s, [e] + rest) && After(s, [e] + rest) == After(Next(s, e), rest)
  {
    hide Careful, Next, After, CarefulRun;
    OneOnTheWay(s, e);
    CarefulBoth(s, [e], rest);
    AfterBoth(s, [e], rest);
    SameRequests(s, e.r, e.luck);
  }

  const WELL := Luck(true, 0, None)
  const BADLY := Luck(false, 0, None)

  /** The object reads "in approval" and its approval, i, is open and not locked. */
  predicate OpenUnlocked(s: State, i: nat) {
    && i !in s.locks && i in s.db.instances && s.db.instances[i].standing == Pending
    && RoutedObject(s.db, s.db.instances[i].subject) && s.db.objects[s.db.instances[i].subject].status == PendingApproval
  }

  lemma TakingBackStrands(s: State, r: nat, i: nat)
    requires Inv(s) && r in s.requests && s.requests[r] == SubmitCleanup(i) && OpenUnlocked(s, i)
    ensures Stranded(Next(s, Run(r, WELL)).db, s.db.instances[i].subject)
  {
    var t := Next(s, Run(r, WELL));
    assert t.db == Withdrawn(s.db, i);
    OnlyPending(s.db, s.db.instances[i].subject, i, t.db);
  }

  /** A submission whose approval is open and already marked fails its own mark and takes the approval back. */
  lemma FailingStrands(s: State, r: nat, i: nat) returns (more: seq<Event>)
    requires Inv(s) && r in s.requests && Opening(s.requests[r], i) && OpenUnlocked(s, i)
    ensures OnTheWay(s, more) && Stranded(After(s, more).db, s.db.instances[i].subject)
  {
    if s.requests[r].SubmitMark? {
      var t := Next(s, Run(r, BADLY));
      assert t == To(s, r, SubmitCleanup(i));
      StepKeepsInv(s, Run(r, BADLY));
      hide Next, Inv, Stranded, After, OnTheWay;
      TakingBackStrands(t, r, i);
      OneOnTheWay(t, Run(r, WELL));
      FirstOnTheWay(s, Run(r, BADLY), [Run(r, WELL)]);
      more := [Run(r, BADLY)] + [Run(r, WELL)];
    } else {
      hide Next, Inv, Stranded, After, OnTheWay;
      TakingBackStrands(s, r, i);
      OneOnTheWay(s, Run(r, WELL));
      more := [Run(r, WELL)];
    }
  }

  lemma MarkGoes(s: State, r: nat)
    requires Inv(s) && r in s.requests && s.requests[r].SubmitMark?
    ensures RoutedObject(s.db, s.requests[r].o)
    ensures Next(s, Run(r, WELL)).db == WithStatus(s.db, s.requests[r].o, PendingApproval)
  {
    RequestAt(s, r);
  }

  lemma MarkingStrands(s: State, r: nat)
    requires Inv(s) && r in s.requests && s.requests[r].SubmitMark? && !HasPending(s.db, s.requests[r].o)
    ensures OnTheWay(s, [Run(r, WELL)]) && Stranded(After(s, [Run(r, WELL)]).db, s.requests[r].o)
  {
    var o := s.requests[r].o;
    hide Inv, HasPending, After, Next, OnTheWay;
    MarkGoes(s, r);
    OneOnTheWay(s, Run(r, WELL));
    SamePending(s.db, Next(s, Run(r, WELL)).db, o);
  }

  /** What a commit leaves behind. */
  lemma CommitLeaves(s: State, q: nat, luck: Luck)
    requires Inv(s) && q in s.requests && s.requests[q].Cleared? && luck.ok
    ensures var x, t := s.requests[q], Next(s, Run(q, luck));
            && x.i in s.db.instances && s.db.instances[x.i].standing == Pending && x.i !in t.locks
            && t.db.instances == s.db.instances[x.i := Advanced(s.db.instances[x.i], x.decision)]
            && t.db.objects == Marked(s.db.objects, s.db.instances[x.i].subject,
                                      ObjectWord(Advanced(s.db.instances[x.i], x.decision).standing))
  {
    RequestAt(s, q);
    SoundAt(s.db, s.requests[q].i);
  }

  lemma CarelessDecisionCanStrand(s: State, q: nat, luck: Luck) returns (more: seq<Event>)
    requires Inv(s) && MarksInv(s) && q in s.requests && s.requests[q].Cleared? && luck.ok && !Careful(s, Run(q, luck))
    ensures OnTheWay(Next(s, Run(q, luck)), more)
    ensures s.requests[q].i in s.db.instances
    ensures Stranded(After(Next(s, Run(q, luck)), more).db, s.db.instances[s.requests[q].i].subject)
  {
    var i, d, t := s.requests[q].i, s.requests[q].decision, Next(s, Run(q, luck));
    CommitLeaves(s, q, luck);
    var r :| r in s.requests && Opening(s.requests[r], i) && !(s.requests[r].SubmitCleanup? && Settles(s.db.instances[i], d));
    OnlyOneMoves(s, q, luck, r);
    StepKeepsInv(s, Run(q, luck));
    assert WaitsForMark(s.db, s.requests[r], i);
    hide Next, Inv, Stranded, After, Careful, MarksInv, HasPending, OnTheWay;
    if Settles(s.db.instances[i], d) {
      assert Sound(s.db) by { SoundIn(s); }
      OnlyPending(s.db, s.requests[r].o, i, t.db);
      MarkingStrands(t, r);
      more := [Run(r, WELL)];
    } else {
      more := FailingStrands(t, r, i);
    }
  }

  lemma SoundIn(s: State)
    requires Inv(s)
    ensures Sound(s.db)
  {
  }

  /** A decision that holds a lock can always fail and let it go. */
  lemma LetsGo(s: State, i: nat)
    requires Inv(s) && LocksHeld(s) && i in s.locks
    ensures var t := Next(s, Run(s.locks[i], BADLY));
            && t.db == s.db && i !in t.locks
            && forall r :: r != s.locks[i] && r in s.requests ==> r in t.requests && t.requests[r] == s.requests[r]
  {
    var q := s.locks[i];
    RequestAt(s, q);
    SoundAt(s.db, i);
    hide Inv, LocksHeld, InStep;
    assert Next(s, Run(q, BADLY)) == Freed(s, q, i, if s.requests[q].Cleared? then Failed else Refused);
  }

  /** Once the object reads "in approval", the submission still opening its approval can take it back. */
  lemma OpenedStrands(s: State, r: nat, i: nat) returns (more: seq<Event>)
    requires Inv(s) && LocksHeld(s) && r in s.requests && Opening(s.requests[r], i)
    requires OpenUnlocked(s.(locks := s.locks - {i}), i)
    ensures OnTheWay(s, more) && Stranded(After(s, more).db, s.db.instances[i].subject)
  {
    if i in s.locks {
      var free := Run(s.locks[i], BADLY);
      LetsGo(s, i);
      StepKeepsInv(s, free);
      hide Next, Inv, Stranded, After, OnTheWay;
      var rest := FailingStrands(Next(s, free), r, i);
      FirstOnTheWay(s, free, rest);
      more := [free] + rest;
    } else {
      more := FailingStrands(s, r, i);
    }
  }

  lemma PatchGoes(s: State, q: nat, luck: Luck)
    requires Inv(s) && q in s.requests && s.requests[q].PatchChecked? && luck.ok
    ensures var x, t := s.requests[q], Next(s, Run(q, luck));
            && RoutedObject(s.db, x.o) && RoutedObject(t.db, x.o) && t.locks == s.locks && t.db.instances == s.db.instances
            && (x.w.Some? ==> t.db.objects[x.o].status == x.w.value)
            && forall o :: RoutedObject(s.db, o) ==> RoutedObject(t.db, o)
  {
    RequestAt(s, q);
    hide Inv;
  }

  lemma CarelessPatchCanStrand(s: State, q: nat, luck: Luck) returns (more: seq<Event>)
    requires Inv(s) && Orderly(s) && q in s.requests && s.requests[q].PatchChecked? && luck.ok && !Careful(s, Run(q, luck))
    ensures OnTheWay(Next(s, Run(q, luck)), more) && Stranded(After(Next(s, Run(q, luck)), more).db, s.requests[q].o)
  {
    var o, t := s.requests[q].o, Next(s, Run(q, luck));
    PatchGoes(s, q, luck);
    if HasPending(s.db, o) {
      var i :| i in s.db.instances && PendingOn(s.db, o, i);
      assert BeingOpened(s, i);
      var r :| r in s.requests && Opening(s.requests[r], i);
      OnlyOneMoves(s, q, luck, r);
      StepKeepsInv(s, Run(q, luck));
      LocksStayHeld(s, Run(q, luck));
      hide Next, Inv, Stranded, After, LocksHeld, MarksInv, Careful, OnTheWay;
      more := OpenedStrands(t, r, i);
    } else {
      SamePending(s.db, t.db, o);
      more := [];
    }
  }

  /** The object that the event's request is about: that of the approval decided, or the one patched. */
  predicate IsAbout(s: State, e: Event, o: nat) {
    && e.Run? && e.r in s.requests
    && match s.requests[e.r]
       case Cleared(i, _, _, _, _) => i in s.db.instances && s.db.instances[i].subject == o
       case PatchChecked(p, _, _) => p == o
       case _ => false
  }

  /**
   * After anything careless, requests that are already there can go on, with careful statements alone, to leave its
   * object "in approval" with no approval open.
   */
  lemma CarelessCanStrand(start: State, run: seq<Event>, e: Event) returns (more: seq<Event>, o: nat)
    requires Starts(start) && NoneStranded(start.db) && CarefulRun(start, run) && !Careful(After(start, run), e)
    ensures OnTheWay(After(start, run + [e]), more)
    ensures IsAbout(After(start, run), e, o) && Stranded(After(start, run + [e] + more).db, o)
  {
    var s := After(start, run);
    RunKeepsInv(start, run);
    RunKeepsOrderly(start, run);
    hide After, CarefulRun, Inv, Stranded, OnTheWay, Starts, MarksInv, LocksHeld;
    if s.requests[e.r].Cleared? {
      more := CarelessDecisionCanStrand(s, e.r, e.luck);
      o := s.db.instances[s.requests[e.r].i].subject;
    } else {
      more := CarelessPatchCanStrand(s, e.r, e.luck);
      o := s.requests[e.r].o;
    }
    AfterMore(start, run, e);
    AfterBoth(start, run + [e], more);
  }

  /** So after a careful run, an event is careful exactly when nothing careful that is on its way can strand an object after it. */
  lemma CarefulExactly(start: State, run: seq<Event>, e: Event)
    requires Starts(start) && NoneStranded(start.db) && CarefulRun(start, run)
    ensures Careful(After(start, run), e) <==>
            forall more :: OnTheWay(After(start, run + [e]), more) ==> NoneStranded(After(start, run + [e] + more).db)
  {
    hide After, Careful, Starts, Next, NoneStranded;
    if Careful(After(start, run), e) {
      Extend(start, run, e);
      forall more | OnTheWay(After(start, run + [e]), more) ensures NoneStranded(After(start, run + [e] + more).db) {
        CarefulBoth(start, run + [e], more);
        RunKeepsOrderly(start, run + [e] + more);
      }
    } else {
      var more, o := CarelessCanStrand(start, run, e);
      NotNone(After(start, run + [e] + more).db, o);
    }
  }

  lemma NotNone(db: Db, o: nat)
    requires Stranded(db, o)
    ensures !NoneStranded(db)
  {
  }

  // Runs from the start that get there.

  lemma ToAgain(s: State, r: nat, x: Request, y: Request)
    ensures To(To(s, r, x), r, y) == To(s, r, y)
  {
  }

  /** The submission's five statements up to the insertion. */
  lemma SubmissionOpens(start: State, run: seq<Event>, r: nat, o: nat, user: nat, d: nat, i: nat) returns (longer: seq<Event>)
    requires CarefulRun(start, run) && r !in After(start, run).requests && After(start, run).db.settings.approvals
    requires RoutedObject(After(start, run).db, o) && !HasPending(After(start, run).db, o)
    requires IsRule(After(start, run).db, d, After(start, run).db.objects[o].kind)
    requires i !in After(start, run).db.instances && i !in After(start, run).spent
    ensures CarefulRun(start, longer)
    ensures var s := After(start, run);
            After(start, longer)
            == To(s.(db := Opened(s.db, i, NewInstance(s.db, o, user, d, s.db.definitions[d].steps))), r, SubmitMark(o, i))
  {
    hide After, CarefulRun, Opened;
    var s := After(start, run);
    var picks := Luck(true, i, Some(d));
    Extend(start, run, Begin(r, Submitting(o, user)));
    longer := run + [Begin(r, Submitting(o, user))];
    Extend(start, longer, Run(r, WELL));
    longer := longer + [Run(r, WELL)];
    ToAgain(s, r, Submitting(o, user), SubmitOn(o, user));
    Extend(start, longer, Run(r, WELL));
    longer := longer + [Run(r, WELL)];
    ToAgain(s, r, SubmitOn(o, user), SubmitMatch(o, user));
    Extend(start, longer, Run(r, picks));
    longer := longer + [Run(r, picks)];
    var inserting := SubmitInsert(o, user, d, s.db.definitions[d].steps);
    ToAgain(s, r, SubmitMatch(o, user), inserting);
    Extend(start, longer, Run(r, picks));
    longer := longer + [Run(r, picks)];
    ToAgain(s.(db := Opened(s.db, i, NewInstance(s.db, o, user, d, inserting.steps))), r, inserting, SubmitMark(o, i));
  }

  /** A decision by a holder of the star, up to its commit. */
  lemma DecisionClears(start: State, run: seq<Event>, q: nat, i: nat, d: Decision, actor: nat)
    returns (longer: seq<Event>, roles: set<string>)
    requires Starts(start) && CarefulRun(start, run) && q !in After(start, run).requests && i !in After(start, run).locks
    requires PolicyAllows(After(start, run).db, i, d, actor) && After(start, run).db.instances[i].standing == Pending
    ensures CarefulRun(start, longer)
    ensures var s := After(start, run);
            After(start, longer) == To(s, q, Cleared(i, d, actor, true, roles)).(locks := s.locks[i := q])
  {
    hide After, CarefulRun, Inv, Starts, Next;
    var s, go, asked := After(start, run), Run(q, WELL), Begin(q, Deciding(i, d, actor, true));
    RunKeepsInv(start, run);
    assert Next(s, asked) == To(s, q, Deciding(i, d, actor, true)) by { Begins(s, q, i, d, actor); }
    Extend(start, run, asked);
    longer := run + [asked];
    var s1 := After(start, longer);
    RunKeepsInv(start, longer);
    LockGoes(s1, q);
    Extend(start, longer, go);
    longer := longer + [go];
    var s2 := After(start, longer);
    RunKeepsInv(start, longer);
    EntitleGoes(s2, q);
    Extend(start, longer, go);
    longer := longer + [go];
    var s3 := After(start, longer);
    RunKeepsInv(start, longer);
    PolicyGoes(s3, q);
    Extend(start, longer, go);
    longer := longer + [go];
    roles := s3.requests[q].roles;
    ToAgain(s, q, Deciding(i, d, actor, true), Holding(i, d, actor, true));
    ToAgain(s.(locks := s.locks[i := q]), q, Holding(i, d, actor, true), s3.requests[q]);
    ToAgain(s.(locks := s.locks[i := q]), q, s3.requests[q], Cleared(i, d, actor, true, roles));
  }

  lemma Begins(s: State, q: nat, i: nat, d: Decision, actor: nat)
    requires q !in s.requests
    ensures Next(s, Begin(q, Deciding(i, d, actor, true))) == To(s, q, Deciding(i, d, actor, true))
  {
  }

  /** A starting state where o can be submitted, under the rule d. */
  predicate CanSubmit(start: State, o: nat, d: nat) {
    && Starts(start) && NoneStranded(start.db) && start.db.settings.approvals
    && RoutedObject(start.db, o) && IsRule(start.db, d, start.db.objects[o].kind)
  }

  predicate MayPass(start: State, decision: Decision, user: nat, actor: nat) {
    decision == Return || actor != user || !start.db.settings.blockSelf
  }

  /**
   * From every start where an object can be submitted, every decision that commits before the submission's mark, or
   * a first approval of several that commits after the mark has failed, can leave it "in approval" with no approval
   * open, by careful statements of requests that are already there.
   */
  lemma DecisionCanStrand(start: State, o: nat, d: nat, user: nat, actor: nat, decision: Decision, failed: bool)
    returns (run: seq<Event>, commit: Event, more: seq<Event>)
    requires CanSubmit(start, o, d) && MayPass(start, decision, user, actor)
    requires failed ==> decision == Approve && |start.db.definitions[d].steps| > 1
    ensures CarefulRun(start, run) && OnTheWay(After(start, run + [commit]), more)
    ensures Stranded(After(start, run + [commit] + more).db, o)
    ensures var s := After(start, run);
            && commit.Run? && commit.r in s.requests && s.requests[commit.r].Cleared? && s.requests[commit.r].decision == decision
            && 0 in s.requests && s.requests[0] == if failed then SubmitCleanup(s.requests[commit.r].i)
                                                   else SubmitMark(o, s.requests[commit.r].i)
  {
    hide After, CarefulRun, Inv, Next, Stranded, OnTheWay, HasPending, Careful;
    assert !HasPending(start.db, o) by { NothingPending(start, o); }
    StartsCareful(start);
    run := SubmissionOpens(start, [], 0, o, user, d, 0);
    if failed {
      MarkFails(start, run, 0, o, 0);
      run := run + [Run(0, BADLY)];
    }
    var s := After(start, run);
    var inst := NewInstance(start.db, o, user, d, start.db.definitions[d].steps);
    assert s.db == Opened(start.db, 0, inst);
    var roles;
    run, roles := DecisionClears(start, run, 1, 0, decision, actor);
    commit := Run(1, WELL);
    CommitIsCareless(After(start, run), 1, 0, 0);
    var about;
    more, about := CarelessCanStrand(start, run, commit);
  }

  lemma NothingPending(start: State, o: nat)
    requires Starts(start)
    ensures !HasPending(start.db, o)
  {
  }

  lemma StartsCareful(start: State)
    ensures After(start, []) == start && CarefulRun(start, [])
  {
  }

  lemma MarkFails(start: State, run: seq<Event>, r: nat, o: nat, i: nat)
    requires CarefulRun(start, run) && r in After(start, run).requests && After(start, run).requests[r] == SubmitMark(o, i)
    ensures CarefulRun(start, run + [Run(r, BADLY)])
    ensures After(start, run + [Run(r, BADLY)]) == To(After(start, run), r, SubmitCleanup(i))
  {
    hide After, CarefulRun;
    Extend(start, run, Run(r, BADLY));
  }

  lemma CommitIsCareless(s: State, q: nat, r: nat, i: nat)
    requires q in s.requests && s.requests[q].Cleared? && s.requests[q].i == i && i in s.db.instances
    requires r in s.requests && Opening(s.requests[r], i)
    requires s.requests[r].SubmitMark? || !Settles(s.db.instances[i], s.requests[q].decision)
    ensures !Careful(s, Run(q, WELL))
  {
  }

  // A PATCH that lands late.

  lemma MarkLands(start: State, run: seq<Event>, r: nat, o: nat, i: nat)
    requires CarefulRun(start, run) && r in After(start, run).requests && After(start, run).requests[r] == SubmitMark(o, i)
    ensures var s := After(start, run);
            && CarefulRun(start, run + [Run(r, WELL)])
            && After(start, run + [Run(r, WELL)]) == To(s.(db := WithStatus(s.db, o, PendingApproval)), r, Over(Submitted(i)))
  {
    hide After, CarefulRun, WithStatus;
    Extend(start, run, Run(r, WELL));
  }

  lemma PatchReads(start: State, run: seq<Event>, r: nat, o: nat, w: Word) returns (longer: seq<Event>)
    requires CarefulRun(start, run) && r !in After(start, run).requests
    requires RoutedObject(After(start, run).db, o) && After(start, run).db.objects[o].status == w
    ensures CarefulRun(start, longer) && After(start, longer) == To(After(start, run), r, PatchChecked(o, Some(w), None))
  {
    hide After, CarefulRun;
    var asked := Begin(r, Patching(o, Some(w), None));
    Extend(start, run, asked);
    Extend(start, run + [asked], Run(r, WELL));
    ToAgain(After(start, run), r, Patching(o, Some(w), None), PatchChecked(o, Some(w), None));
    longer := run + [asked] + [Run(r, WELL)];
  }

  /** The submission goes through, and the PATCH has read the object while it read w. */
  lemma SubmittedAndRead(start: State, o: nat, d: nat, user: nat, w: Word) returns (run: seq<Event>)
    requires CanSubmit(start, o, d) && (w == start.db.objects[o].status || w == PendingApproval)
    ensures CarefulRun(start, run)
    ensures var s := After(start, run);
            && s.requests == map[0 := Over(Submitted(0)), 1 := PatchChecked(o, Some(w), None)] && s.locks == map[]
            && s.db.settings == start.db.settings && RoutedObject(s.db, o)
            && s.db.instances == map[0 := NewInstance(start.db, o, user, d, start.db.definitions[d].steps)]
  {
    hide After, CarefulRun, HasPending;
    NothingPending(start, o);
    StartsCareful(start);
    run := [];
    if w == start.db.objects[o].status {
      run := PatchReads(start, run, 1, o, w);
    }
    run := SubmissionOpens(start, run, 0, o, user, d, 0);
    MarkLands(start, run, 0, o, 0);
    run := run + [Run(0, WELL)];
    if w != start.db.objects[o].status {
      run := PatchReads(start, run, 1, o, w);
    }
  }

  lemma SettlesInstances(s: State, q: nat, i: nat)
    requires Inv(s) && q in s.requests && s.requests[q].Cleared? && s.requests[q].i == i
    requires i in s.db.instances && Settles(s.db.instances[i], s.requests[q].decision)
    ensures Next(s, Run(q, WELL)).db.instances
            == s.db.instances[i := s.db.instances[i].(standing := Settled(s.requests[q].decision))]
  {
    hide Sound;
    CommitLeaves(s, q, WELL);
  }

  /** The submission's approval is settled, and a PATCH that read w has still to write it. */
  lemma SettledWhileRead(start: State, o: nat, d: nat, user: nat, actor: nat, decision: Decision, w: Word)
    returns (run: seq<Event>)
    requires CanSubmit(start, o, d) && MayPass(start, decision, user, actor)
    requires decision == Approve ==> |start.db.definitions[d].steps| == 1
    requires w == start.db.objects[o].status || w == PendingApproval
    ensures CarefulRun(start, run)
    ensures var s := After(start, run);
            && 1 in s.requests && s.requests[1] == PatchChecked(o, Some(w), None)
            && s.db.instances == map[0 := NewInstance(start.db, o, user, d, start.db.definitions[d].steps)
                                            .(standing := Settled(decision))]
  {
    hide After, CarefulRun, HasPending, Starts, Careful;
    run := SubmittedAndRead(start, o, d, user, w);
    var roles;
    run, roles := DecisionClears(start, run, 2, 0, decision, actor);
    CommitExtends(start, run, 2);
    SettledCommit(start, run, 2, 0, 1);
    run := run + [Run(2, WELL)];
  }

  lemma CommitExtends(start: State, run: seq<Event>, q: nat)
    requires CarefulRun(start, run) && q in After(start, run).requests && After(start, run).requests[q].Cleared?
    requires forall r :: r in After(start, run).requests ==> !IsOpening(After(start, run).requests[r])
    ensures CarefulRun(start, run + [Run(q, WELL)])
    ensures After(start, run + [Run(q, WELL)]) == Next(After(start, run), Run(q, WELL))
  {
    hide After, CarefulRun, Next, Careful;
    NobodyOpens(After(start, run), Run(q, WELL));
    Extend(start, run, Run(q, WELL));
  }

  /** The commit settles i and leaves another request where it stands. */
  lemma SettledCommit(start: State, run: seq<Event>, q: nat, i: nat, r: nat)
    requires Starts(start) && q in After(start, run).requests && After(start, run).requests[q].Cleared?
    requires After(start, run).requests[q].i == i && i in After(start, run).db.instances
    requires Settles(After(start, run).db.instances[i], After(start, run).requests[q].decision)
    requires r in After(start, run).requests && r != q
    ensures var s, t := After(start, run), Next(After(start, run), Run(q, WELL));
            && r in t.requests && t.requests[r] == s.requests[r]
            && t.db.instances == s.db.instances[i := s.db.instances[i].(standing := Settled(s.requests[q].decision))]
  {
    hide After, Next, Inv, Starts;
    RunKeepsInv(start, run);
    SettlesInstances(After(start, run), q, i);
    OnlyOneMoves(After(start, run), q, WELL, r);
  }

  /**
   * A PATCH that restates the word it read, and writes only when a decision has moved the object, puts that word
   * back: approved where the approval was rejected, say, or "in approval" where none is open.
   */
  lemma LatePatchPutsBack(start: State, o: nat, d: nat, user: nat, actor: nat, decision: Decision, w: Word)
    returns (run: seq<Event>)
    requires CanSubmit(start, o, d) && MayPass(start, decision, user, actor)
    requires decision == Approve ==> |start.db.definitions[d].steps| == 1
    requires w == start.db.objects[o].status || w == PendingApproval
    ensures CarefulRun(start, run) && 1 in After(start, run).requests
    ensures After(start, run).requests[1] == PatchChecked(o, Some(w), None)
    ensures var t := After(start, run + [Run(1, WELL)]);
            && RoutedObject(t.db, o) && t.db.objects[o].status == w
            && t.db.instances.Keys == {0} && t.db.instances[0].subject == o && t.db.instances[0].standing == Settled(decision)
            && (w == PendingApproval ==> Stranded(t.db, o))
  {
    hide After, CarefulRun, HasPending, Inv, Next, Starts;
    run := SettledWhileRead(start, o, d, user, actor, decision, w);
    RunKeepsInv(start, run);
    PatchGoes(After(start, run), 1, WELL);
    AfterMore(start, run, Run(1, WELL));
    NoPendingAmong(Next(After(start, run), Run(1, WELL)).db, o);
  }

  lemma NobodyOpens(s: State, e: Event)
    requires e.Run? && e.r in s.requests && s.requests[e.r].Cleared?
    requires forall r :: r in s.requests ==> !IsOpening(s.requests[r])
    ensures Careful(s, e)
  {
  }

  lemma NoPendingAmong(db: Db, o: nat)
    requires forall i :: i in db.instances ==> db.instances[i].standing != Pending
    ensures !HasPending(db, o)
  {
  }

  // Where an owned word comes from, statement by statement.

  predicate Reads(db: Db, o: nat, w: Word) { RoutedObject(db, o) && db.objects[o].status == w }

  /** A submission's or a decision's write on o gives it w. */
  predicate Gives(s: State, e: Event, o: nat, w: Word) {
    && e.Run? && e.r in s.requests
    && match EffectOf(s, s.requests[e.r], e.luck)
       case Marks(p, word) => p == o && word == w
       case Decides(i, a) =>
         i in s.db.instances && s.db.instances[i].subject == o && ObjectWord(Advanced(s.db.instances[i], a.decision).standing) == w
       case _ => false
  }

  /** A PATCH writes w, which the object no longer reads. */
  predicate LandsLate(s: State, e: Event, o: nat, w: Word) {
    && e.Run? && e.r in s.requests && e.luck.ok
    && s.requests[e.r].PatchChecked? && s.requests[e.r].o == o && s.requests[e.r].w == Some(w) && !Reads(s.db, o, w)
  }

  lemma EffectGives(s: State, x: Request, f: Effect, o: nat, w: Word)
    requires Sound(s.db) && Fits(s, x, f) && Owned(w) && !Reads(s.db, o, w)
    ensures Reads(Apply(s.db, f), o, w) <==>
            RoutedObject(s.db, o) &&
            match f
            case Marks(p, word) => p == o && word == w
            case Patches(p, word, _) => p == o && word == Some(w)
            case Decides(i, a) =>
              s.db.instances[i].subject == o && ObjectWord(Advanced(s.db.instances[i], a.decision).standing) == w
            case _ => false
  {
    hide Paid;
    if f.Decides? {
      SoundAt(s.db, f.i);
    }
  }

  lemma OutsideGivesNothing(s: State, e: Event, o: nat, w: Word)
    requires !e.Run? && Owned(w) && !Reads(s.db, o, w)
    ensures !Reads(Next(s, e).db, o, w)
  {
  }

  /** A routed object comes to read an owned word exactly when a submission or a decision writes it, or a PATCH lands late. */
  lemma GivenExactly(s: State, e: Event, o: nat, w: Word)
    requires Inv(s) && RoutedObject(s.db, o) && Owned(w) && !Reads(s.db, o, w)
    ensures Reads(Next(s, e).db, o, w) <==> Gives(s, e, o, w) || LandsLate(s, e, o, w)
  {
    if !e.Run? {
      OutsideGivesNothing(s, e, o, w);
    } else if e.r in s.requests {
      var f := RunEffect(s, e.r, e.luck);
      assert Fits(s, s.requests[e.r], f);
      hide Next, Apply, Sound, RequestSound, ChangesApart, Reads, Advanced;
      EffectGives(s, s.requests[e.r], f, o, w);
    }
  }

  lemma NewObjectsReadNone(s: State, e: Event, o: nat, w: Word)
    requires Inv(s) && !RoutedObject(s.db, o) && Owned(w)
    ensures !Reads(Next(s, e).db, o, w)
  {
    if !e.Run? {
      OutsideGivesNothing(s, e, o, w);
    } else if e.r in s.requests {
      var f := RunEffect(s, e.r, e.luck);
      assert Fits(s, s.requests[e.r], f);
      hide Next, Apply, Sound, RequestSound, ChangesApart, Advanced;
      EffectGives(s, s.requests[e.r], f, o, w);
    }
  }

  /** o read w at the start, or some submission or decision of the run gave it w. */
  predicate Given(start: State, run: seq<Event>, o: nat, w: Word) {
    if run == [] then Reads(start.db, o, w)
    else Given(start, run[..|run| - 1], o, w) || Gives(After(start, run[..|run| - 1]), run[|run| - 1], o, w)
  }

  /** A PATCH states only a word that its object read. */
  lemma PatchesStateWhatTheyRead(s: State, e: Event, q: nat)
    requires q in Next(s, e).requests && Next(s, e).requests[q].PatchChecked?
    requires Next(s, e).requests[q].w.Some? && Owned(Next(s, e).requests[q].w.value)
    ensures (q in s.requests && s.requests[q] == Next(s, e).requests[q])
            || Reads(s.db, Next(s, e).requests[q].o, Next(s, e).requests[q].w.value)
  {
    if e.Run? && e.r in s.requests {
      hide Next;
      if q != e.r {
        OnlyOneMoves(s, e.r, e.luck, q);
      } else {
        OwnPatch(s, q, e.luck);
      }
    }
  }

  lemma OwnPatch(s: State, r: nat, luck: Luck)
    requires r in s.requests && r in Next(s, Run(r, luck)).requests && Next(s, Run(r, luck)).requests[r].PatchChecked?
    ensures var x, y := s.requests[r], Next(s, Run(r, luck)).requests[r];
            x == y || (y.w.Some? && Owned(y.w.value) ==> Reads(s.db, y.o, y.w.value))
  {
    if !IsPatch(s.requests[r]) {
      OthersNeverPatch(s, r, luck);
    }
    hide RunSubmit, RunChange, RunDecision, PatchedBy;
  }

  lemma OthersNeverPatch(s: State, r: nat, luck: Luck)
    requires r in s.requests && !IsPatch(s.requests[r]) && r in Next(s, Run(r, luck)).requests
    ensures !Next(s, Run(r, luck)).requests[r].PatchChecked?
  {
    hide Decided, Opened, Withdrawn, WithStatus, PatchedBy, Paid, HasPending, IsNewest, IsRule, FindsPending;
  }

  predicate WordsGiven(start: State, run: seq<Event>) {
    && (forall o :: o in After(start, run).db.objects && RoutedObject(After(start, run).db, o)
                    && Owned(After(start, run).db.objects[o].status)
          ==> Given(start, run, o, After(start, run).db.objects[o].status))
    && (forall r :: r in After(start, run).requests && After(start, run).requests[r].PatchChecked?
                    && After(start, run).requests[r].w.Some? && Owned(After(start, run).requests[r].w.value)
          ==> Given(start, run, After(start, run).requests[r].o, After(start, run).requests[r].w.value))
  }

  lemma {:induction false} RunKeepsGiven(start: State, run: seq<Event>)
    requires Starts(start)
    ensures WordsGiven(start, run)
  {
    hide Inv, Next, Gives;
    if run != [] {
      var front, e := run[..|run| - 1], run[|run| - 1];
      var s, t := After(start, front), After(start, run);
      RunKeepsGiven(start, front);
      RunKeepsInv(start, front);
      forall o | RoutedObject(t.db, o) && Owned(t.db.objects[o].status) ensures Given(start, run, o, t.db.objects[o].status) {
        var w := t.db.objects[o].status;
        if !RoutedObject(s.db, o) {
          NewObjectsReadNone(s, e, o, w);
        } else if !Reads(s.db, o, w) {
          GivenExactly(s, e, o, w);
        }
      }
      forall r | r in t.requests && t.requests[r].PatchChecked? && t.requests[r].w.Some? && Owned(t.requests[r].w.value)
        ensures Given(start, run, t.requests[r].o, t.requests[r].w.value)
      {
        PatchesStateWhatTheyRead(s, e, r);
      }
    }
  }

  /** However the statements interleave, an owned word that a routed object reads was there at the start or was given to it. */
  lemma WordsWereGiven(start: State, run: seq<Event>, o: nat)
    requires Starts(start) && RoutedObject(After(start, run).db, o) && Owned(After(start, run).db.objects[o].status)
    ensures Given(start, run, o, After(start, run).db.objects[o].status)
  {
    RunKeepsGiven(start, run);
  }
}
