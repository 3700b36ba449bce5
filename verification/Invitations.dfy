/** Redeeming an invitation against calling it back (internal/httpapi/portal.go). */
module Invitations {
  import opened Common

  /** An invitations row. bound is history: the supplier it was issued for, which supplier holds until it is redeemed. */
  datatype Invitation = Invitation(
    email: string, bound: Option<nat>, supplier: Option<nat>, expires: int, accepted: bool, revoked: bool)

  /** A supplier's account. invitation is history: the link it was made with. */
  datatype Account = Account(invitation: nat, email: string, supplier: nat)

  datatype Db = Db(invitations: map<nat, Invitation>, accounts: seq<Account>, emails: set<string>, suppliers: set<nat>)

  predicate Live(db: Db, i: nat, now: int) {
    i in db.invitations && db.invitations[i].expires > now && !db.invitations[i].accepted && !db.invitations[i].revoked
  }

  // Committed effects.

  function Issued(db: Db, i: nat, email: string, supplier: Option<nat>, expires: int): Db {
    db.(invitations := db.invitations[i := Invitation(Lower(email), supplier, supplier, expires, false, false)])
  }

  /** The registration transaction: the account, its company, and the mark on the invitation. */
  function Accepted(db: Db, i: nat, supplier: nat): Db
    requires i in db.invitations
  {
    var row := db.invitations[i];
    Db(db.invitations[i := row.(accepted := true, supplier := Some(supplier))],
       db.accounts + [Account(i, row.email, supplier)], db.emails + {row.email}, db.suppliers + {supplier})
  }

  function Revoked(db: Db, i: nat): Db
    requires i in db.invitations
  {
    db.(invitations := db.invitations[i := db.invitations[i].(revoked := true)])
  }

  // What holds of the tables at every moment.

  predicate RowSound(row: Invitation) {
    && !(row.accepted && row.revoked)
    && (row.bound.Some? ==> row.supplier == row.bound)
    && (row.accepted ==> row.supplier.Some?)
  }

  predicate AccountSound(db: Db, account: Account) {
    && account.invitation in db.invitations
    && db.invitations[account.invitation].accepted
    && db.invitations[account.invitation].supplier == Some(account.supplier)
    && db.invitations[account.invitation].email == account.email
  }

  predicate HasAccount(db: Db, i: nat) { exists k :: 0 <= k < |db.accounts| && db.accounts[k].invitation == i }

  predicate Sound(db: Db) {
    && (forall i :: i in db.invitations ==> RowSound(db.invitations[i]))
    && (forall i :: i in db.invitations && db.invitations[i].accepted ==> HasAccount(db, i))
    && (forall k :: 0 <= k < |db.accounts| ==> AccountSound(db, db.accounts[k]))
    && (forall a, b :: 0 <= a < b < |db.accounts| ==> db.accounts[a].invitation != db.accounts[b].invitation)
    && (forall a, b :: 0 <= a < b < |db.accounts| ==> db.accounts[a].email != db.accounts[b].email)
    && (forall k :: 0 <= k < |db.accounts| ==> db.accounts[k].email in db.emails)
  }

  lemma IssueKeepsSound(db: Db, i: nat, email: string, supplier: Option<nat>, expires: int)
    requires Sound(db) && i !in db.invitations
    ensures Sound(Issued(db, i, email, supplier, expires))
  {
    var after := Issued(db, i, email, supplier, expires);
    assert forall j :: HasAccount(db, j) ==> HasAccount(after, j);
    assert forall k :: 0 <= k < |db.accounts| ==> AccountSound(db, db.accounts[k]);
  }

  lemma AcceptKeepsSound(db: Db, i: nat, supplier: nat)
    requires Sound(db) && i in db.invitations && !db.invitations[i].accepted && !db.invitations[i].revoked
    requires db.invitations[i].email !in db.emails
    requires db.invitations[i].bound.Some? ==> supplier == db.invitations[i].bound.value
    ensures Sound(Accepted(db, i, supplier))
  {
    var after := Accepted(db, i, supplier);
    assert after.accounts[|db.accounts|].invitation == i;
    forall j | j in after.invitations && after.invitations[j].accepted ensures HasAccount(after, j) {
      if j != i {
        var k :| 0 <= k < |db.accounts| && db.accounts[k].invitation == j;
        assert after.accounts[k].invitation == j;
      }
    }
    forall k | 0 <= k < |after.accounts| ensures AccountSound(after, after.accounts[k]) {
      if k < |db.accounts| {
        assert AccountSound(db, db.accounts[k]);
      }
    }
  }

  lemma RevokeKeepsSound(db: Db, i: nat)
    requires Sound(db) && i in db.invitations && !db.invitations[i].accepted
    ensures Sound(Revoked(db, i))
  {
    var after := Revoked(db, i);
    assert forall j :: HasAccount(db, j) ==> HasAccount(after, j);
    assert forall k :: 0 <= k < |db.accounts| ==> AccountSound(db, db.accounts[k]);
  }

  // Requests in flight, one statement at a time.

  datatype Redeem =
    | Asked(i: nat)
    | Holding(i: nat)
    | WithSupplier(i: nat, supplier: nat)
    | WithAccount(i: nat, supplier: nat)
    | Registered(i: nat, supplier: nat)
    | Refused(i: nat)

  datatype Recall = Called(i: nat) | Seen(i: nat) | Recalled(i: nat) | SaidAccepted(i: nat) | Denied(i: nat)

  /** locks says which request's transaction holds an invitation's row. */
  datatype State = State(db: Db, clock: int, redeems: map<nat, Redeem>, recalls: map<nat, Recall>, locks: map<nat, nat>)

  datatype Step =
    | Tick(now: int)
    | Issue(i: nat, email: string, supplier: Option<nat>, expires: int)
    | Ask(r: nat, i: nat)
    | Lock(r: nat)
    | PickSupplier(r: nat, made: Option<nat>)
    | InsertUser(r: nat, ok: bool)
    | Commit(r: nat, ok: bool)
    | Abort(r: nat)
    | CallBack(c: nat, i: nat)
    | Read(c: nat, allowed: bool)
    | Update(c: nat)

  predicate InTransaction(x: Redeem) { x.Holding? || x.WithSupplier? || x.WithAccount? }

  /** The transaction ends without effect. */
  function RolledBack(s: State, r: nat): State
    requires r in s.redeems
  {
    s.(redeems := s.redeems[r := Refused(s.redeems[r].i)], locks := s.locks - {s.redeems[r].i})
  }

  /** A step that is not possible, or waits for a lock, changes nothing. */
  function Next(s: State, step: Step): State {
    match step
    case Tick(now) => if s.clock <= now then s.(clock := now) else s
    case Issue(i, email, supplier, expires) =>
      if i in s.db.invitations then s else s.(db := Issued(s.db, i, email, supplier, expires))
    case Ask(r, i) => if r in s.redeems then s else s.(redeems := s.redeems[r := Asked(i)])
    case Lock(r) =>
      if r !in s.redeems || !s.redeems[r].Asked? || s.redeems[r].i in s.locks then s
      else
        var i := s.redeems[r].i;
        if Live(s.db, i, s.clock) then s.(redeems := s.redeems[r := Holding(i)], locks := s.locks[i := r])
        else s.(redeems := s.redeems[r := Refused(i)])
    case PickSupplier(r, made) =>
      if r !in s.redeems || !s.redeems[r].Holding? || s.redeems[r].i !in s.db.invitations then s
      else
        var i := s.redeems[r].i;
        var supplier := s.db.invitations[i].supplier;
        if supplier.Some? then s.(redeems := s.redeems[r := WithSupplier(i, supplier.value)])
        else if made.Some? && made.value !in s.db.suppliers then s.(redeems := s.redeems[r := WithSupplier(i, made.value)])
        else RolledBack(s, r)
    case InsertUser(r, ok) =>
      if r !in s.redeems || !s.redeems[r].WithSupplier? || s.redeems[r].i !in s.db.invitations then s
      else if ok && s.db.invitations[s.redeems[r].i].email !in s.db.emails then
        s.(redeems := s.redeems[r := WithAccount(s.redeems[r].i, s.redeems[r].supplier)])
      else RolledBack(s, r)
    case Commit(r, ok) =>
      if r !in s.redeems || !s.redeems[r].WithAccount? || s.redeems[r].i !in s.db.invitations then s
      else if ok && s.db.invitations[s.redeems[r].i].email !in s.db.emails then
        s.(db := Accepted(s.db, s.redeems[r].i, s.redeems[r].supplier),
           redeems := s.redeems[r := Registered(s.redeems[r].i, s.redeems[r].supplier)],
           locks := s.locks - {s.redeems[r].i})
      else RolledBack(s, r)
    case Abort(r) => if r in s.redeems && InTransaction(s.redeems[r]) then RolledBack(s, r) else s
    case CallBack(c, i) => if c in s.recalls then s else s.(recalls := s.recalls[c := Called(i)])
    case Read(c, allowed) =>
      if c !in s.recalls || !s.recalls[c].Called? then s
      else
        var i := s.recalls[c].i;
        if i !in s.db.invitations || !allowed then s.(recalls := s.recalls[c := Denied(i)])
        else if s.db.invitations[i].accepted then s.(recalls := s.recalls[c := SaidAccepted(i)])
        else if s.db.invitations[i].revoked then s.(recalls := s.recalls[c := Recalled(i)])
        else s.(recalls := s.recalls[c := Seen(i)])
    case Update(c) =>
      if c !in s.recalls || !s.recalls[c].Seen? || s.recalls[c].i in s.locks || s.recalls[c].i !in s.db.invitations then s
      else
        var i := s.recalls[c].i;
        if s.db.invitations[i].accepted || s.db.invitations[i].revoked then s.(recalls := s.recalls[c := SaidAccepted(i)])
        else s.(db := Revoked(s.db, i), recalls := s.recalls[c := Recalled(i)])
  }

  const START := State(Db(map[], [], {}, {}), 0, map[], map[], map[])

  function After(run: seq<Step>): State {
    if run == [] then START else Next(After(run[..|run| - 1]), run[|run| - 1])
  }

  // The invariant.

  predicate RedeemSound(s: State, r: nat)
    requires r in s.redeems
  {
    var x := s.redeems[r];
    && (InTransaction(x) ==>
      && x.i in s.locks && s.locks[x.i] == r && x.i in s.db.invitations
      && !s.db.invitations[x.i].accepted && !s.db.invitations[x.i].revoked)
    && (x.WithSupplier? || x.WithAccount? ==>
      s.db.invitations[x.i].bound.Some? ==> s.db.invitations[x.i].bound.value == x.supplier)
    && (x.Registered? ==>
      x.i in s.db.invitations && s.db.invitations[x.i].accepted && s.db.invitations[x.i].supplier == Some(x.supplier))
  }

  predicate RecallSound(s: State, c: nat)
    requires c in s.recalls
  {
    match s.recalls[c]
    case Recalled(i) => i in s.db.invitations && s.db.invitations[i].revoked
    case SaidAccepted(i) => i in s.db.invitations && (s.db.invitations[i].accepted || s.db.invitations[i].revoked)
    case _ => true
  }

  predicate Inv(s: State) {
    && Sound(s.db)
    && (forall r :: r in s.redeems ==> RedeemSound(s, r))
    && (forall c :: c in s.recalls ==> RecallSound(s, c))
  }

  lemma CommitKeepsInv(s: State, r: nat, ok: bool)
    requires Inv(s)
    ensures Inv(Next(s, Commit(r, ok)))
  {
    if r in s.redeems && s.redeems[r].WithAccount? && !(ok && s.db.invitations[s.redeems[r].i].email !in s.db.emails) {
      RollBackKeepsInv(s, r);
    } else if r in s.redeems && s.redeems[r].WithAccount? {
      assert RedeemSound(s, r);
      var x := s.redeems[r];
      AcceptKeepsSound(s.db, x.i, x.supplier);
      var t := Next(s, Commit(r, ok));
      forall q | q in t.redeems ensures RedeemSound(t, q) {
        assert RedeemSound(s, q);
      }
      forall c | c in t.recalls ensures RecallSound(t, c) {
        assert RecallSound(s, c);
      }
    }
  }

  lemma UpdateKeepsInv(s: State, c: nat)
    requires Inv(s)
    ensures Inv(Next(s, Update(c)))
  {
    var t := Next(s, Update(c));
    if t.db != s.db {
      RevokeKeepsSound(s.db, s.recalls[c].i);
    }
    forall r | r in t.redeems ensures RedeemSound(t, r) {
      assert RedeemSound(s, r);
    }
    forall d | d in t.recalls ensures RecallSound(t, d) {
      assert RecallSound(s, d);
    }
  }

  lemma IssueKeepsInv(s: State, i: nat, email: string, supplier: Option<nat>, expires: int)
    requires Inv(s) && i !in s.db.invitations
    ensures Inv(Next(s, Issue(i, email, supplier, expires)))
  {
    IssueKeepsSound(s.db, i, email, supplier, expires);
    var t := Next(s, Issue(i, email, supplier, expires));
    forall r | r in t.redeems ensures RedeemSound(t, r) {
      assert RedeemSound(s, r);
    }
    forall c | c in t.recalls ensures RecallSound(t, c) {
      assert RecallSound(s, c);
    }
  }

  /** A step that moves one redeem request, and frees or takes only its own lock, leaves the others as they were. */
  lemma OneRedeemMoves(s: State, t: State, r: nat)
    requires Inv(s) && r in t.redeems && t == s.(redeems := s.redeems[r := t.redeems[r]], locks := t.locks)
    requires forall i :: i in s.locks && s.locks[i] != r ==> i in t.locks && t.locks[i] == s.locks[i]
    requires RedeemSound(t, r)
    ensures Inv(t)
  {
    forall q | q in t.redeems ensures RedeemSound(t, q) {
      assert q != r ==> RedeemSound(s, q);
    }
    forall c | c in t.recalls ensures RecallSound(t, c) {
      assert RecallSound(s, c);
    }
  }

  lemma RollBackKeepsInv(s: State, r: nat)
    requires Inv(s) && r in s.redeems && InTransaction(s.redeems[r])
    ensures Inv(RolledBack(s, r))
  {
    assert RedeemSound(s, r);
    OneRedeemMoves(s, RolledBack(s, r), r);
  }

  lemma LockKeepsInv(s: State, r: nat)
    requires Inv(s)
    ensures Inv(Next(s, Lock(r)))
  {
    if r in s.redeems && Next(s, Lock(r)) != s {
      OneRedeemMoves(s, Next(s, Lock(r)), r);
    }
  }

  lemma PickSupplierKeepsInv(s: State, r: nat, made: Option<nat>)
    requires Inv(s)
    ensures Inv(Next(s, PickSupplier(r, made)))
  {
    if r in s.redeems && s.redeems[r].Holding? {
      assert RedeemSound(s, r) && RowSound(s.db.invitations[s.redeems[r].i]);
      RollBackKeepsInv(s, r);
      OneRedeemMoves(s, Next(s, PickSupplier(r, made)), r);
    }
  }

  lemma InsertUserKeepsInv(s: State, r: nat, ok: bool)
    requires Inv(s)
    ensures Inv(Next(s, InsertUser(r, ok)))
  {
    if r in s.redeems && s.redeems[r].WithSupplier? {
      assert RedeemSound(s, r);
      RollBackKeepsInv(s, r);
      OneRedeemMoves(s, Next(s, InsertUser(r, ok)), r);
    }
  }

  /** Likewise for a step that only moves one recall. */
  lemma OneRecallMoves(s: State, t: State, c: nat)
    requires Inv(s) && c in t.recalls && t == s.(recalls := s.recalls[c := t.recalls[c]])
    requires RecallSound(t, c)
    ensures Inv(t)
  {
    forall r | r in t.redeems ensures RedeemSound(t, r) {
      assert RedeemSound(s, r);
    }
    forall d | d in t.recalls ensures RecallSound(t, d) {
      assert d != c ==> RecallSound(s, d);
    }
  }

  lemma ReadKeepsInv(s: State, c: nat, allowed: bool)
    requires Inv(s)
    ensures Inv(Next(s, Read(c, allowed)))
  {
    if c in s.recalls {
      assert RecallSound(s, c);
      OneRecallMoves(s, Next(s, Read(c, allowed)), c);
    }
  }

  lemma TickKeepsInv(s: State, now: int)
    requires Inv(s)
    ensures Inv(Next(s, Tick(now)))
  {
    var t := Next(s, Tick(now));
    assert forall r :: r in s.redeems && RedeemSound(s, r) ==> RedeemSound(t, r);
    assert forall c :: c in s.recalls && RecallSound(s, c) ==> RecallSound(t, c);
  }

  lemma StepKeepsInv(s: State, step: Step)
    requires Inv(s)
    ensures Inv(Next(s, step))
  {
    match step
    case Tick(now) => TickKeepsInv(s, now);
    case Issue(i, email, supplier, expires) =>
      if i !in s.db.invitations { IssueKeepsInv(s, i, email, supplier, expires); }
    case Ask(r, i) =>
      if r !in s.redeems { OneRedeemMoves(s, Next(s, step), r); }
    case Lock(r) => LockKeepsInv(s, r);
    case PickSupplier(r, made) => PickSupplierKeepsInv(s, r, made);
    case InsertUser(r, ok) => InsertUserKeepsInv(s, r, ok);
    case Commit(r, ok) => CommitKeepsInv(s, r, ok);
    case Abort(r) =>
      if r in s.redeems && InTransaction(s.redeems[r]) { RollBackKeepsInv(s, r); }
    case CallBack(c, i) =>
      if c !in s.recalls { OneRecallMoves(s, Next(s, step), c); }
    case Read(c, allowed) => ReadKeepsInv(s, c, allowed);
    case Update(c) => UpdateKeepsInv(s, c);
  }

  lemma {:induction false} RunKeepsInv(run: seq<Step>)
    ensures Inv(After(run))
  {
    if run != [] {
      RunKeepsInv(run[..|run| - 1]);
      StepKeepsInv(After(run[..|run| - 1]), run[|run| - 1]);
    }
  }

  // What follows for every interleaving.

  predicate MadeWith(db: Db, a: int, i: nat) { 0 <= a < |db.accounts| && db.accounts[a].invitation == i }

  /** Redeemed and called back exclude each other, a link makes one account at most, and for the company it names. */
  lemma InvitationsAreSafe(run: seq<Step>, i: nat)
    requires i in After(run).db.invitations
    ensures var db := After(run).db;
            && !(db.invitations[i].accepted && db.invitations[i].revoked)
            && (db.invitations[i].accepted <==> HasAccount(db, i))
            && (forall a, b :: MadeWith(db, a, i) && MadeWith(db, b, i) ==> a == b)
            && (forall a, b :: 0 <= a < b < |db.accounts| ==> db.accounts[a].email != db.accounts[b].email)
            && (forall a :: MadeWith(db, a, i) && db.invitations[i].bound.Some?
                            ==> db.accounts[a].supplier == db.invitations[i].bound.value)
  {
    RunKeepsInv(run);
    var db := After(run).db;
    assert RowSound(db.invitations[i]);
    forall a | 0 <= a < |db.accounts| && db.accounts[a].invitation == i ensures AccountSound(db, db.accounts[a]) {
    }
    assert db.invitations[i].accepted <==> HasAccount(db, i);
  }

  lemma StepKeepsRecalled(s: State, step: Step, c: nat)
    requires c in s.recalls && s.recalls[c].Recalled?
    ensures c in Next(s, step).recalls && Next(s, step).recalls[c] == s.recalls[c]
  {
  }

  lemma {:induction false} RecalledStays(run: seq<Step>, more: seq<Step>, c: nat)
    requires c in After(run).recalls && After(run).recalls[c].Recalled?
    ensures c in After(run + more).recalls && After(run + more).recalls[c] == After(run).recalls[c]
  {
    if more == [] {
      assert run + more == run;
    } else {
      RecalledStays(run, more[..|more| - 1], c);
      StepKeepsRecalled(After(run + more[..|more| - 1]), more[|more| - 1], c);
      assert (run + more)[..|run + more| - 1] == run + more[..|more| - 1];
    }
  }

  /** Once a recall has answered success, the link has made no account and never will. */
  lemma RecallIsFinal(run: seq<Step>, more: seq<Step>, c: nat)
    requires c in After(run).recalls && After(run).recalls[c].Recalled?
    ensures var i := After(run).recalls[c].i;
            && !HasAccount(After(run + more).db, i)
            && forall r :: r in After(run + more).redeems && After(run + more).redeems[r].Registered?
                           ==> After(run + more).redeems[r].i != i
  {
    RecalledStays(run, more, c);
    RunKeepsInv(run + more);
    var t, i := After(run + more), After(run).recalls[c].i;
    assert RecallSound(t, c);
    InvitationsAreSafe(run + more, i);
    forall r | r in t.redeems && t.redeems[r].Registered? ensures t.redeems[r].i != i {
      assert RedeemSound(t, r);
    }
  }

  // A link that works, and one that does not.

  /** A link just issued works until its expiry, for the address in lower case. */
  lemma IssuedWorks(db: Db, i: nat, email: string, supplier: Option<nat>, expires: int, now: int)
    ensures var after := Issued(db, i, email, supplier, expires);
            && (Live(after, i, now) <==> now < expires)
            && i in after.invitations && after.invitations[i].email == Lower(email) && after.invitations[i].supplier == supplier
            && after == db.(invitations := db.invitations[i := after.invitations[i]])
  {
  }

  /** The link was there, unexpired, neither used nor withdrawn. */
  predicate Worked(s: State, i: nat) {
    && i in s.db.invitations && s.clock < s.db.invitations[i].expires
    && !s.db.invitations[i].accepted && !s.db.invitations[i].revoked
  }

  predicate TookUp(x: Redeem) { InTransaction(x) || x.Registered? }

  lemma TakesUpAWorkingLink(s: State, step: Step, r: nat)
    requires r in Next(s, step).redeems && TookUp(Next(s, step).redeems[r])
    ensures (r in s.redeems && TookUp(s.redeems[r]) && Next(s, step).redeems[r].i == s.redeems[r].i)
            || (step == Lock(r) && Worked(s, Next(s, step).redeems[r].i))
  {
  }

  /** Over every run, whoever registered found the link working when the row was locked: an expired one registers nobody. */
  lemma {:induction false} RegisteredOnAWorkingLink(run: seq<Step>, r: nat) returns (k: nat)
    requires r in After(run).redeems && TookUp(After(run).redeems[r])
    ensures k < |run| && run[k] == Lock(r) && Worked(After(run[..k]), After(run).redeems[r].i)
  {
    var n := |run| - 1;
    TakesUpAWorkingLink(After(run[..n]), run[n], r);
    hide Next;
    if r in After(run[..n]).redeems && TookUp(After(run[..n]).redeems[r])
       && After(run).redeems[r].i == After(run[..n]).redeems[r].i {
      k := RegisteredOnAWorkingLink(run[..n], r);
      assert run[..n][..k] == run[..k];
    } else {
      k := n;
    }
  }

  /** The company a registration is for: the link's, or the one made for it. */
  function CompanyFor(s: State, i: nat, made: nat): nat
    requires i in s.db.invitations
  {
    if s.db.invitations[i].supplier.Some? then s.db.invitations[i].supplier.value else made
  }

  /** Otherwise the five statements refuse and leave the tables alone. */
  lemma OtherLinksRefuse(s: State, r: nat, i: nat, made: Option<nat>)
    requires r !in s.redeems && i !in s.locks && (made.Some? ==> made.value !in s.db.suppliers)
    requires !Worked(s, i) || s.db.invitations[i].email in s.db.emails || (s.db.invitations[i].supplier.None? && made.None?)
    ensures var t := Next(Next(Next(Next(Next(s, Ask(r, i)), Lock(r)), PickSupplier(r, made)), InsertUser(r, true)), Commit(r, true));
            r in t.redeems && t.redeems[r] == Refused(i) && t.db == s.db && i !in t.locks
  {
    var asked := Next(s, Ask(r, i));
    assert asked == s.(redeems := s.redeems[r := Asked(i)]);
    var held := Next(asked, Lock(r));
    if !Worked(s, i) {
      assert held.redeems[r] == Refused(i) && held.db == s.db;
      RefusedStays(held, r, made);
    } else {
      assert held == s.(redeems := s.redeems[r := Asked(i)][r := Holding(i)], locks := s.locks[i := r]);
      var picked := Next(held, PickSupplier(r, made));
      if s.db.invitations[i].supplier.None? && made.None? {
        assert picked.redeems[r] == Refused(i) && picked.db == s.db && i !in picked.locks;
      } else {
        assert picked.redeems[r].WithSupplier? && picked.redeems[r].i == i && picked.db == s.db;
        var inserted := Next(picked, InsertUser(r, true));
        assert inserted.redeems[r] == Refused(i) && inserted.db == s.db && i !in inserted.locks;
      }
    }
  }

  lemma RefusedStays(s: State, r: nat, made: Option<nat>)
    requires r in s.redeems && s.redeems[r].Refused?
    ensures Next(Next(Next(s, PickSupplier(r, made)), InsertUser(r, true)), Commit(r, true)) == s
  {
  }

  /** What a recall is told when it reads: nothing of links out of its reach, and what became of the others. */
  lemma ReadsExactly(s: State, c: nat, i: nat, allowed: bool)
    requires c in s.recalls && s.recalls[c] == Called(i)
    ensures var t := Next(s, Read(c, allowed));
            && t.db == s.db && c in t.recalls
            && (t.recalls[c] == Denied(i) <==> i !in s.db.invitations || !allowed)
            && (t.recalls[c] == SaidAccepted(i) <==> i in s.db.invitations && allowed && s.db.invitations[i].accepted)
            && (t.recalls[c] == Recalled(i) <==>
                  i in s.db.invitations && allowed && !s.db.invitations[i].accepted && s.db.invitations[i].revoked)
            && (t.recalls[c] == Seen(i) <==>
                  i in s.db.invitations && allowed && !s.db.invitations[i].accepted && !s.db.invitations[i].revoked)
  {
  }

  /** Five statements on a working link that nobody holds register its address, for its company or the new one. */
  lemma WorkingLinkRegisters(s: State, r: nat, i: nat, made: nat)
    requires Worked(s, i) && r !in s.redeems && i !in s.locks
    requires s.db.invitations[i].email !in s.db.emails && made !in s.db.suppliers
    ensures var t := Next(Next(Next(Next(Next(s, Ask(r, i)), Lock(r)), PickSupplier(r, Some(made))), InsertUser(r, true)), Commit(r, true));
            var row, company := s.db.invitations[i], CompanyFor(s, i, made);
            && r in t.redeems && t.redeems[r] == Registered(i, company) && i !in t.locks
            && t.db.invitations == s.db.invitations[i := row.(accepted := true, supplier := Some(company))]
            && t.db.accounts == s.db.accounts + [Account(i, row.email, company)]
            && t.db.emails == s.db.emails + {row.email} && t.db.suppliers == s.db.suppliers + {company}
  {
    var asked := Next(s, Ask(r, i));
    assert asked == s.(redeems := s.redeems[r := Asked(i)]);
    var held := Next(asked, Lock(r));
    assert held.db == s.db && held.redeems[r] == Holding(i) && i in held.locks;
    var picked := Next(held, PickSupplier(r, Some(made)));
    assert picked.db == s.db && picked.redeems[r] == WithSupplier(i, CompanyFor(s, i, made));
    var inserted := Next(picked, InsertUser(r, true));
    assert inserted.db == s.db && inserted.redeems[r] == WithAccount(i, CompanyFor(s, i, made));
  }

  /** A recall of a working link that nobody holds withdraws it, in two statements. */
  lemma RecallWithdraws(s: State, c: nat, i: nat)
    requires i in s.db.invitations && !s.db.invitations[i].accepted && !s.db.invitations[i].revoked
    requires c !in s.recalls && i !in s.locks
    ensures var t := Next(Next(Next(s, CallBack(c, i)), Read(c, true)), Update(c));
            && c in t.recalls && t.recalls[c] == Recalled(i)
            && t.db == s.db.(invitations := s.db.invitations[i := s.db.invitations[i].(revoked := true)])
  {
    var called := Next(s, CallBack(c, i));
    assert called == s.(recalls := s.recalls[c := Called(i)]);
    var read := Next(called, Read(c, true));
    assert read.db == s.db && read.recalls[c] == Seen(i) && read.locks == s.locks;
  }

  // The answer "already used".

  predicate WasRecalled(s: State, i: nat) { exists c :: c in s.recalls && s.recalls[c] == Recalled(i) }

  lemma OnlyUpdateRevokes(s: State, step: Step, i: nat)
    requires i in Next(s, step).db.invitations && Next(s, step).db.invitations[i].revoked
    ensures (i in s.db.invitations && s.db.invitations[i].revoked) || (step.Update? && WasRecalled(Next(s, step), i))
  {
    if step.Update? {
      assert Next(s, step) != s ==> Next(s, step).recalls[step.c].i == s.recalls[step.c].i;
    }
  }

  lemma {:induction false} RevokedMeansRecalled(run: seq<Step>, i: nat)
    requires i in After(run).db.invitations && After(run).db.invitations[i].revoked
    ensures WasRecalled(After(run), i)
  {
    if run != [] {
      var s, step := After(run[..|run| - 1]), run[|run| - 1];
      OnlyUpdateRevokes(s, step, i);
      if i in s.db.invitations && s.db.invitations[i].revoked {
        RevokedMeansRecalled(run[..|run| - 1], i);
        var c :| c in s.recalls && s.recalls[c] == Recalled(i);
        StepKeepsRecalled(s, step, c);
      }
    }
  }

  /** A recall answered "already used" is right exactly when no other recall of the link succeeded. */
  lemma SaidAcceptedExactly(run: seq<Step>, c: nat)
    requires c in After(run).recalls && After(run).recalls[c].SaidAccepted?
    ensures var s := After(run);
            var i := s.recalls[c].i;
            i in s.db.invitations && (s.db.invitations[i].accepted <==> !WasRecalled(s, i))
  {
    RunKeepsInv(run);
    var s := After(run);
    assert RecallSound(s, c);
    var i := s.recalls[c].i;
    if WasRecalled(s, i) {
      var d :| d in s.recalls && s.recalls[d] == Recalled(i);
      assert RecallSound(s, d) && RowSound(s.db.invitations[i]);
    } else if s.db.invitations[i].revoked {
      RevokedMeansRecalled(run, i);
    }
  }

  lemma OneStep(run: seq<Step>, step: Step)
    ensures After(run + [step]) == Next(After(run), step)
  {
    assert (run + [step])[..|run|] == run;
  }

  lemma TwoCallBacks() returns (run: seq<Step>)
    ensures var s := After(run);
            && s.db.invitations == map[0 := Invitation(Lower(""), None, None, 1, false, false)]
            && s.recalls == map[0 := Called(0), 1 := Called(0)] && s.locks == map[]
  {
    var issue, first, second := Issue(0, "", None, 1), CallBack(0, 0), CallBack(1, 0);
    run := [issue] + [first] + [second];
    OneStep([], issue);
    assert [] + [issue] == [issue];
    OneStep([issue], first);
    OneStep([issue] + [first], second);
  }

  lemma TwoReads() returns (run: seq<Step>)
    ensures var s := After(run);
            && 0 in s.db.invitations && !s.db.invitations[0].accepted && !s.db.invitations[0].revoked
            && s.recalls == map[0 := Seen(0), 1 := Seen(0)] && s.locks == map[]
  {
    var start := TwoCallBacks();
    run := start + [Read(0, true)] + [Read(1, true)];
    OneStep(start, Read(0, true));
    OneStep(start + [Read(0, true)], Read(1, true));
  }

  /** And it can be wrong: two recalls that both read first. */
  lemma SaidAcceptedCanBeWrong() returns (run: seq<Step>)
    ensures 0 in After(run).db.invitations && !After(run).db.invitations[0].accepted
    ensures 1 in After(run).recalls && After(run).recalls[1] == SaidAccepted(0)
  {
    var start := TwoReads();
    run := start + [Update(0)] + [Update(1)];
    OneStep(start, Update(0));
    OneStep(start + [Update(0)], Update(1));
  }

  // The two handlers, each run on its own.

  datatype Answer = Done | InvalidInvitation | RegistrationFailed | NotFound | OutOfScope | AlreadyAccepted

  class Portal {
    var invitations: map<nat, Invitation>
    var accounts: seq<Account>
    var emails: set<string>
    var suppliers: set<nat>

    function View(): Db
      reads this
    {
      Db(invitations, accounts, emails, suppliers)
    }

    constructor ()
      ensures View() == START.db
    {
      invitations, accounts, emails, suppliers := map[], [], {}, {};
    }

    /** made is the company row a registrant without one would create, if that succeeds; stored says the rest does. */
    method Register(i: nat, now: int, made: Option<nat>, stored: bool) returns (answer: Answer)
      requires Sound(View()) && (made.Some? ==> made.value !in suppliers)
      modifies this
      ensures Sound(View())
      ensures answer == (if i !in old(invitations) || old(invitations)[i].expires <= now || old(invitations)[i].accepted
                            || old(invitations)[i].revoked then InvalidInvitation
                         else if old(invitations)[i].supplier.None? && made.None? then RegistrationFailed
                         else if old(invitations)[i].email in old(emails) || !stored then RegistrationFailed
                         else Done)
      ensures answer == Done ==>
        var row := old(invitations)[i];
        var company := if row.supplier.Some? then row.supplier.value else made.value;
        && View() == Accepted(old(View()), i, company)
        && accounts == old(accounts) + [Account(i, row.email, company)]
        && invitations == old(invitations)[i := row.(accepted := true, supplier := Some(company))]
      ensures answer != Done ==> View() == old(View())
    {
      if !Live(View(), i, now) {
        return InvalidInvitation;
      }
      var row := invitations[i];
      assert RowSound(row);
      var supplier := row.supplier;
      if supplier.None? {
        if made.None? {
          return RegistrationFailed;
        }
        supplier := made;
      }
      if row.email in emails || !stored {
        return RegistrationFailed;
      }
      AcceptKeepsSound(View(), i, supplier.value);
      suppliers := suppliers + {supplier.value};
      emails := emails + {row.email};
      accounts := accounts + [Account(i, row.email, supplier.value)];
      invitations := invitations[i := row.(accepted := true, supplier := supplier)];
      return Done;
    }

    method Recall(i: nat, allowed: bool) returns (answer: Answer)
      requires Sound(View())
      modifies `invitations
      ensures Sound(View())
      ensures answer == (if i !in old(invitations) then NotFound
                         else if !allowed then OutOfScope
                         else if old(invitations)[i].accepted then AlreadyAccepted
                         else Done)
      ensures answer == Done ==>
        View() == old(View()).(invitations := old(invitations)[i := old(invitations)[i].(revoked := true)])
      ensures answer != Done ==> View() == old(View())
    {
      if i !in invitations {
        return NotFound;
      }
      if !allowed {
        return OutOfScope;
      }
      var row := invitations[i];
      if row.accepted {
        return AlreadyAccepted;
      }
      RevokeKeepsSound(View(), i);
      if row.revoked {
        assert View() == Revoked(View(), i);
        return Done;
      }
      invitations := invitations[i := row.(revoked := true)];
      return Done;
    }
  }
}
