/** Sign-ins whose check and record are separate steps (internal/httpapi/auth.go, loginguard.go). */
module LoginRaces {
  import opened Common
  import opened LoginGuard

  /** A sign-in that passed the check: who it is for, when it was checked, and how many rows were on record then. */
  datatype Ticket = Ticket(email: string, ip: Option<string>, checked: int, seen: nat)

  /** tickets is history: the ticket each row was recorded on. */
  datatype State = State(clock: int, rows: seq<Attempt>, tickets: seq<Ticket>, pending: seq<Ticket>)

  /** In Fail the password turns out wrong; in Leave the request ends without a record. */
  datatype Event =
    | Wait(now: int)
    | Check(email: string, ip: Option<string>)
    | Fail(which: nat)
    | Leave(which: nat)

  function Without(pending: seq<Ticket>, which: nat): seq<Ticket>
    requires which < |pending|
  {
    pending[..which] + pending[which + 1..]
  }

  function RowOf(t: Ticket, at: int): Attempt { Attempt(t.email, t.ip, false, at) }

  /** A clock that would go back, or a request that is not there, changes nothing; a locked sign-in leaves no row. */
  function Next(s: State, p: Protection, e: Event): State {
    match e
    case Wait(now) => if s.clock <= now then s.(clock := now) else s
    case Check(email, ip) =>
      if Verdict(s.rows, p, email, ip, s.clock).Some? then s
      else s.(pending := s.pending + [Ticket(email, ip, s.clock, |s.rows|)])
    case Fail(which) =>
      if which >= |s.pending| then s
      else
        var t := s.pending[which];
        s.(rows := s.rows + [RowOf(t, s.clock)], tickets := s.tickets + [t], pending := Without(s.pending, which))
    case Leave(which) =>
      if which >= |s.pending| then s else s.(pending := Without(s.pending, which))
  }

  const START := State(0, [], [], [])

  function After(p: Protection, run: seq<Event>): State {
    if run == [] then START else Next(After(p, run[..|run| - 1]), p, run[|run| - 1])
  }

  /** The sign-in counts against the subject if it fails. */
  predicate IsFor(t: Ticket, s: Subject) { Fails(RowOf(t, 0), s) }

  /** The subject's sign-ins that were checked by the time i rows were on record, and wait. */
  function Waiting(pending: seq<Ticket>, s: Subject, i: nat): nat {
    if pending == [] then 0
    else
      var last := pending[|pending| - 1];
      Waiting(pending[..|pending| - 1], s, i) + if IsFor(last, s) && last.seen <= i then 1 else 0
  }

  /** And those recorded since. */
  function Late(tickets: seq<Ticket>, s: Subject, i: nat): nat {
    if |tickets| <= i then 0
    else
      var last := tickets[|tickets| - 1];
      Late(tickets[..|tickets| - 1], s, i) + if IsFor(last, s) && last.seen <= i then 1 else 0
  }

  function Count(pending: seq<Ticket>, s: Subject): nat {
    if pending == [] then 0
    else Count(pending[..|pending| - 1], s) + if IsFor(pending[|pending| - 1], s) then 1 else 0
  }

  /** At no moment of the run are more than k of the subject's sign-ins between their check and their record. */
  predicate Narrow(p: Protection, run: seq<Event>, s: Subject, k: nat) {
    run == [] || (Narrow(p, run[..|run| - 1], s, k) && Count(After(p, run).pending, s) <= k)
  }

  // The invariant.

  predicate Admitted(rows: seq<Attempt>, p: Protection, s: Subject, t: Ticket, clock: int) {
    t.seen <= |rows| && t.checked <= clock && (IsFor(t, s) ==> LockedFor(rows[..t.seen], p, s, t.checked).None?)
  }

  /** Row j was recorded on ticket t, which the guard had let in. */
  predicate StandsBy(rows: seq<Attempt>, p: Protection, s: Subject, t: Ticket, j: nat)
    requires j < |rows|
  {
    t.seen <= j && rows[j] == RowOf(t, rows[j].at) && Admitted(rows, p, s, t, rows[j].at)
  }

  ghost predicate Inv(x: State, p: Protection, s: Subject, k: nat) {
    && |x.tickets| == |x.rows|
    && (forall j :: 0 <= j < |x.rows| ==> StandsBy(x.rows, p, s, x.tickets[j], j))
    && (forall j :: 0 <= j < |x.pending| ==> Admitted(x.rows, p, s, x.pending[j], x.clock))
    && (forall i: nat :: i <= |x.rows| ==> Late(x.tickets, s, i) + Waiting(x.pending, s, i) <= k)
  }

  lemma {:induction false} WaitingIsWithin(pending: seq<Ticket>, s: Subject, i: nat)
    ensures Waiting(pending, s, i) <= Count(pending, s)
  {
    if pending != [] {
      WaitingIsWithin(pending[..|pending| - 1], s, i);
    }
  }

  lemma {:induction false} WaitingAdds(a: seq<Ticket>, b: seq<Ticket>, s: Subject, i: nat)
    ensures Waiting(a + b, s, i) == Waiting(a, s, i) + Waiting(b, s, i)
  {
    if b == [] {
      assert a + b == a;
    } else {
      WaitingAdds(a, b[..|b| - 1], s, i);
      assert (a + b)[..|a + b| - 1] == a + b[..|b| - 1];
    }
  }

  lemma WaitingWithout(pending: seq<Ticket>, which: nat, s: Subject, i: nat)
    requires which < |pending|
    ensures Waiting(Without(pending, which), s, i)
            == Waiting(pending, s, i) - if IsFor(pending[which], s) && pending[which].seen <= i then 1 else 0
  {
    var one := [pending[which]];
    WaitingAdds(pending[..which], pending[which + 1..], s, i);
    WaitingAdds(pending[..which] + one, pending[which + 1..], s, i);
    WaitingAdds(pending[..which], one, s, i);
    assert pending == pending[..which] + one + pending[which + 1..];
    assert Waiting(one, s, i) == if IsFor(pending[which], s) && pending[which].seen <= i then 1 else 0 by {
      assert one[..0] == [];
    }
  }

  lemma AdmittedGrows(rows: seq<Attempt>, row: Attempt, p: Protection, s: Subject, t: Ticket, clock: int)
    requires Admitted(rows, p, s, t, clock)
    ensures Admitted(rows + [row], p, s, t, clock)
  {
    assert (rows + [row])[..t.seen] == rows[..t.seen];
  }

  lemma CheckKeepsInv(x: State, p: Protection, s: Subject, k: nat, email: string, ip: Option<string>)
    requires Inv(x, p, s, k) && Count(Next(x, p, Check(email, ip)).pending, s) <= k
    ensures Inv(Next(x, p, Check(email, ip)), p, s, k)
  {
    var y := Next(x, p, Check(email, ip));
    if y != x {
      var t := Ticket(email, ip, x.clock, |x.rows|);
      assert x.rows[..|x.rows|] == x.rows && y.pending[..|x.pending|] == x.pending;
      VerdictCovers(x.rows, p, email, ip, x.clock, s);
      forall i: nat | i <= |y.rows| ensures Late(y.tickets, s, i) + Waiting(y.pending, s, i) <= k {
        WaitingIsWithin(y.pending, s, i);
        if i < |y.rows| {
          assert Waiting(y.pending, s, i) == Waiting(x.pending, s, i);
        }
      }
    }
  }

  /** The check of a sign-in looks at both things its failure would count against. */
  lemma VerdictCovers(rows: seq<Attempt>, p: Protection, email: string, ip: Option<string>, now: int, s: Subject)
    requires Verdict(rows, p, email, ip, now).None?
    ensures Fails(Attempt(email, ip, false, 0), s) ==> LockedFor(rows, p, s, now).None?
  {
  }

  lemma FailKeepsCount(x: State, which: nat, s: Subject, i: nat, k: nat)
    requires which < |x.pending| && |x.tickets| == |x.rows| && i <= |x.rows| + 1
    requires forall j: nat :: j <= |x.rows| ==> Late(x.tickets, s, j) + Waiting(x.pending, s, j) <= k
    requires Count(Without(x.pending, which), s) <= k
    ensures Late(x.tickets + [x.pending[which]], s, i) + Waiting(Without(x.pending, which), s, i) <= k
  {
    WaitingWithout(x.pending, which, s, i);
    WaitingIsWithin(Without(x.pending, which), s, i);
    assert (x.tickets + [x.pending[which]])[..|x.tickets|] == x.tickets;
  }

  lemma FailKeepsInv(x: State, p: Protection, s: Subject, k: nat, which: nat)
    requires Inv(x, p, s, k) && which < |x.pending| && Count(Next(x, p, Fail(which)).pending, s) <= k
    ensures Inv(Next(x, p, Fail(which)), p, s, k)
  {
    hide LockedFor, Waiting, Late, Count;
    var y, t := Next(x, p, Fail(which)), x.pending[which];
    var row := RowOf(t, x.clock);
    forall j | 0 <= j < |y.rows| ensures StandsBy(y.rows, p, s, y.tickets[j], j) {
      if j < |x.rows| {
        assert StandsBy(x.rows, p, s, x.tickets[j], j);
        AdmittedGrows(x.rows, row, p, s, x.tickets[j], x.rows[j].at);
      } else {
        assert Admitted(x.rows, p, s, t, x.clock);
        AdmittedGrows(x.rows, row, p, s, t, x.clock);
      }
    }
    forall j | 0 <= j < |y.pending| ensures Admitted(y.rows, p, s, y.pending[j], y.clock) {
      AdmittedGrows(x.rows, row, p, s, x.pending[if j < which then j else j + 1], x.clock);
    }
    forall i: nat | i <= |y.rows| ensures Late(y.tickets, s, i) + Waiting(y.pending, s, i) <= k {
      FailKeepsCount(x, which, s, i, k);
    }
  }

  lemma LeaveKeepsInv(x: State, p: Protection, s: Subject, k: nat, which: nat)
    requires Inv(x, p, s, k) && which < |x.pending|
    ensures Inv(Next(x, p, Leave(which)), p, s, k)
  {
    hide LockedFor, Waiting, Late;
    var y := Next(x, p, Leave(which));
    forall i: nat | i <= |y.rows| ensures Late(y.tickets, s, i) + Waiting(y.pending, s, i) <= k {
      WaitingWithout(x.pending, which, s, i);
    }
    assert forall j :: 0 <= j < |y.pending| ==> y.pending[j] == x.pending[if j < which then j else j + 1];
  }

  lemma {:induction false} RunKeepsInv(p: Protection, run: seq<Event>, s: Subject, k: nat)
    requires Narrow(p, run, s, k)
    ensures Inv(After(p, run), p, s, k)
  {
    if run != [] {
      var front, e := run[..|run| - 1], run[|run| - 1];
      RunKeepsInv(p, front, s, k);
      var x := After(p, front);
      hide LockedFor, Waiting, Late, Count, Narrow;
      match e
      case Wait(now) =>
      case Check(email, ip) => CheckKeepsInv(x, p, s, k, email, ip);
      case Fail(which) => if which < |x.pending| { FailKeepsInv(x, p, s, k, which); }
      case Leave(which) => if which < |x.pending| { LeaveKeepsInv(x, p, s, k, which); }
    }
  }

  // The bound.

  /** The n-th failure of the window. */
  lemma {:induction false} NthRecorded(rows: seq<Attempt>, s: Subject, from: int, window: int, n: nat) returns (w: nat)
    requires 0 < n <= Recorded(rows, s, from, window)
    ensures w < |rows| && InWindow(rows[w], s, from, window) && Recorded(rows[..w + 1], s, from, window) == n
  {
    var front := rows[..|rows| - 1];
    if n <= Recorded(front, s, from, window) {
      w := NthRecorded(front, s, from, window, n);
      assert front[..w + 1] == rows[..w + 1];
    } else {
      w := |rows| - 1;
      assert rows[..w + 1] == rows;
    }
  }

  /** If every later failure of the window was checked by the time w rows were on record, they were all in flight then. */
  lemma {:induction false} AllInFlight(x: State, p: Protection, s: Subject, from: int, window: int, w: nat, n: nat)
    requires w <= n <= |x.rows| == |x.tickets|
    requires forall j :: w <= j < n && InWindow(x.rows[j], s, from, window) ==> IsFor(x.tickets[j], s) && x.tickets[j].seen <= w
    ensures Recorded(x.rows[..n], s, from, window) - Recorded(x.rows[..w], s, from, window) <= Late(x.tickets[..n], s, w)
    decreases n
  {
    hide IsFor, InWindow;
    if w < n {
      AllInFlight(x, p, s, from, window, w, n - 1);
      assert x.rows[..n][..n - 1] == x.rows[..n - 1] && x.tickets[..n][..n - 1] == x.tickets[..n - 1];
    }
  }

  /** Among k further failures of the window one was checked when its first ones up to row w were on record. */
  lemma CheckedLater(x: State, p: Protection, s: Subject, k: nat, from: int, n: nat, w: nat) returns (j: nat)
    requires Inv(x, p, s, k) && w < n <= |x.rows| && InWindow(x.rows[w], s, from, p.Window())
    requires Recorded(x.rows[..n], s, from, p.Window()) >= Recorded(x.rows[..w + 1], s, from, p.Window()) + k
    ensures w < j < n && InWindow(x.rows[j], s, from, p.Window()) && x.tickets[j].seen > w
  {
    assert Late(x.tickets, s, w) + Waiting(x.pending, s, w) <= k;
    if j0: nat :| w < j0 < n && InWindow(x.rows[j0], s, from, p.Window()) && x.tickets[j0].seen > w {
      j := j0;
    } else {
      assert StandsBy(x.rows, p, s, x.tickets[w], w);
      assert forall i :: 0 <= i < |x.rows| ==> StandsBy(x.rows, p, s, x.tickets[i], i);
      AllInFlight(x, p, s, from, p.Window(), w, n);
      assert x.rows[..w + 1][..w] == x.rows[..w];
      LateGrows(x.tickets, s, w, n);
      assert false;
    }
  }

  lemma {:induction false} LateGrows(tickets: seq<Ticket>, s: Subject, i: nat, n: nat)
    requires n <= |tickets|
    ensures Late(tickets[..n], s, i) <= Late(tickets, s, i)
    decreases |tickets|
  {
    if n < |tickets| {
      var front := tickets[..|tickets| - 1];
      LateGrows(front, s, i, n);
      assert front[..n] == tickets[..n];
    } else {
      assert tickets[..n] == tickets;
    }
  }

  /** That check counted the window's failures up to row w, a limit of them at least, and so waited out their lockout. */
  lemma CheckSawThem(x: State, p: Protection, s: Subject, from: int, j: nat, w: nat, before: Attempt)
    requires p.InRange() && w < j < |x.rows| == |x.tickets| && StandsBy(x.rows, p, s, x.tickets[j], j)
    requires p.Limit(s) > 0 && InWindow(x.rows[j], s, from, p.Window()) && x.tickets[j].seen > w
    requires Recorded(x.rows[..w + 1], s, from, p.Window()) >= p.Limit(s)
    requires before in x.rows[..w + 1] && InWindow(before, s, from, p.Window())
    ensures x.rows[j].at >= before.at + p.Lockout()
  {
    var t := x.tickets[j];
    var seen := x.rows[..t.seen];
    assert seen[..w + 1] == x.rows[..w + 1];
    RecordedGrows(seen, s, from, p.Window(), w + 1);
    RecordedAreCounted(seen, s, from, p.Window(), t.checked - p.Window());
    AdmittedMeans(seen, p, s, t.checked);
    assert before in seen;
  }

  lemma {:induction false} RecordedGrows(rows: seq<Attempt>, s: Subject, from: int, window: int, n: nat)
    requires n <= |rows|
    ensures Recorded(rows[..n], s, from, window) <= Recorded(rows, s, from, window)
    decreases |rows|
  {
    if n < |rows| {
      var front := rows[..|rows| - 1];
      RecordedGrows(front, s, from, window, n);
      assert front[..n] == rows[..n];
    } else {
      assert rows[..n] == rows;
    }
  }

  /** Past the first limit failures of a window, every k more take another lockout. */
  lemma {:induction false} FailuresSpread(x: State, p: Protection, s: Subject, k: nat, from: int, q: nat, n: nat)
    returns (late: Attempt)
    requires p.InRange() && p.Limit(s) > 0 && Inv(x, p, s, k) && n <= |x.rows|
    requires Recorded(x.rows[..n], s, from, p.Window()) >= p.Limit(s) + q * k
    ensures late in x.rows[..n] && InWindow(late, s, from, p.Window()) && late.at >= from + q * p.Lockout()
    decreases q
  {
    var rows, limit, window := x.rows[..n], p.Limit(s), p.Window();
    if q == 0 {
      var w := NthRecorded(rows, s, from, window, 1);
      late := rows[w];
    } else {
      Product(q, k, p.Lockout());
      var w := NthRecorded(rows, s, from, window, limit + (q - 1) * k);
      assert rows[..w + 1] == x.rows[..w + 1];
      var before := FailuresSpread(x, p, s, k, from, q - 1, w + 1);
      var j := CheckedLater(x, p, s, k, from, n, w);
      CheckSawThem(x, p, s, from, j, w, before);
      late := rows[j];
    }
  }

  lemma Product(q: nat, k: nat, lockout: int)
    requires q > 0
    ensures q * k == (q - 1) * k + k && q * lockout == (q - 1) * lockout + lockout && (q - 1) * k >= 0
  {
  }

  /**
   * With at most k of a subject's sign-ins at once between check and record, limit + q * k failures in a window mean
   * that q lockouts fit into it; so fewer than limit + k, if the lockout is as long as the window.
   */
  lemma WindowIsBounded(p: Protection, run: seq<Event>, s: Subject, k: nat, from: int, q: nat)
    requires p.InRange() && p.Limit(s) > 0 && Narrow(p, run, s, k)
    ensures Recorded(After(p, run).rows, s, from, p.Window()) >= p.Limit(s) + q * k ==> q * p.Lockout() < p.Window()
    ensures p.Lockout() >= p.Window() ==> Recorded(After(p, run).rows, s, from, p.Window()) < p.Limit(s) + k
  {
    RunKeepsInv(p, run, s, k);
    var x := After(p, run);
    assert x.rows[..|x.rows|] == x.rows;
    if Recorded(x.rows, s, from, p.Window()) >= p.Limit(s) + q * k {
      var late := FailuresSpread(x, p, s, k, from, q, |x.rows|);
    }
    if p.Lockout() >= p.Window() && Recorded(x.rows, s, from, p.Window()) >= p.Limit(s) + k {
      var late := FailuresSpread(x, p, s, k, from, 1, |x.rows|);
    }
  }

  // The bound is reached.

  function Letters(n: nat): string { seq(n, _ => 'q') }

  /** Whom the n-th sign-in is for: always the account, or another account each time from the address. */
  function NthEmail(s: Subject, n: nat): string { if s.Account? then s.email else Letters(n) }

  function From(s: Subject): Option<string> { if s.Account? then None else Some(s.ip) }

  /** Everything so far was tried against the subject, in one instant, and failed in the order it was checked. */
  ghost predicate AtOnce(x: State, s: Subject, rows: nat, pending: nat) {
    && x.clock == 0 && |x.rows| == rows && |x.pending| == pending
    && (forall i :: 0 <= i < rows ==> x.rows[i] == Attempt(NthEmail(s, i), From(s), false, 0))
    && forall i :: 0 <= i < pending ==> x.pending[i].email == NthEmail(s, rows + i) && x.pending[i].ip == From(s)
  }

  lemma {:induction false} AllCounted(rows: seq<Attempt>, s: Subject, window: int)
    requires window > 0 && forall i :: 0 <= i < |rows| ==> rows[i] == Attempt(NthEmail(s, i), From(s), false, 0)
    ensures LoginGuard.Count(rows, s, -window) == |rows|
    ensures Recorded(rows, s, 0, window) == |rows|
  {
    if rows != [] {
      AllCounted(rows[..|rows| - 1], s, window);
    }
  }

  /** An address tries every account once. */
  lemma {:induction false} NewEachTime(rows: seq<Attempt>, s: Subject, n: nat, since: int)
    requires s.Address? && |rows| <= n
    requires forall i :: 0 <= i < |rows| ==> rows[i] == Attempt(NthEmail(s, i), From(s), false, 0)
    ensures LoginGuard.Count(rows, Account(NthEmail(s, n)), since) == 0
  {
    if rows != [] {
      NewEachTime(rows[..|rows| - 1], s, n, since);
      assert |rows[|rows| - 1].email| == |rows| - 1 < |NthEmail(s, n)|;
    }
  }

  lemma {:induction false} CountIsWithin(pending: seq<Ticket>, s: Subject)
    ensures Count(pending, s) <= |pending|
  {
    if pending != [] {
      CountIsWithin(pending[..|pending| - 1], s);
    }
  }

  function CheckNth(s: Subject, n: nat): Event { Check(NthEmail(s, n), From(s)) }

  lemma Admits(rows: seq<Attempt>, p: Protection, s: Subject, n: nat)
    requires p.InRange() && |rows| < p.Limit(s) && |rows| <= n
    requires forall i :: 0 <= i < |rows| ==> rows[i] == Attempt(NthEmail(s, i), From(s), false, 0)
    ensures Verdict(rows, p, NthEmail(s, n), From(s), 0).None?
  {
    AllCounted(rows, s, p.Window());
    AdmittedMeans(rows, p, s, 0);
    if s.Address? {
      NewEachTime(rows, s, n, -p.Window());
      AdmittedMeans(rows, p, Account(NthEmail(s, n)), 0);
    }
    hide LockedFor;
  }

  lemma OneMoreChecked(x: State, p: Protection, s: Subject, rows: nat, pending: nat)
    requires p.InRange() && AtOnce(x, s, rows, pending) && rows < p.Limit(s)
    ensures AtOnce(Next(x, p, CheckNth(s, rows + pending)), s, rows, pending + 1)
  {
    Admits(x.rows, p, s, rows + pending);
    hide Verdict, NthEmail;
  }

  lemma OneMoreFailed(x: State, p: Protection, s: Subject, rows: nat, pending: nat)
    requires AtOnce(x, s, rows, pending) && pending > 0
    ensures AtOnce(Next(x, p, Fail(0)), s, rows + 1, pending - 1)
  {
    hide NthEmail;
    var y := Next(x, p, Fail(0));
    assert forall i :: 0 <= i < pending - 1 ==> y.pending[i] == x.pending[i + 1];
    assert forall i :: 0 <= i < pending - 1 ==> y.pending[i].email == NthEmail(s, rows + (i + 1));
  }

  lemma OneStep(p: Protection, run: seq<Event>, s: Subject, k: nat, e: Event, rows: nat, pending: nat)
    requires Narrow(p, run, s, k) && pending <= k
    requires AtOnce(Next(After(p, run), p, e), s, rows, pending)
    ensures Narrow(p, run + [e], s, k) && AtOnce(After(p, run + [e]), s, rows, pending)
  {
    hide Next, Count;
    assert (run + [e])[..|run|] == run;
    CountIsWithin(After(p, run + [e]).pending, s);
  }

  lemma OneMore(p: Protection, run: seq<Event>, s: Subject, k: nat, e: Event, rows: nat, pending: nat)
    requires p.InRange() && Narrow(p, run, s, k) && AtOnce(After(p, run), s, rows, pending) && pending <= k
    ensures e == CheckNth(s, rows + pending) && rows < p.Limit(s) && pending < k
      ==> Narrow(p, run + [e], s, k) && AtOnce(After(p, run + [e]), s, rows, pending + 1)
    ensures e == Fail(0) && pending > 0
      ==> Narrow(p, run + [e], s, k) && AtOnce(After(p, run + [e]), s, rows + 1, pending - 1)
  {
    hide Next, Narrow, AtOnce, Count, NthEmail, From;
    if e == CheckNth(s, rows + pending) && rows < p.Limit(s) && pending < k {
      OneMoreChecked(After(p, run), p, s, rows, pending);
      OneStep(p, run, s, k, e, rows, pending + 1);
    } else if e == Fail(0) && pending > 0 {
      OneMoreFailed(After(p, run), p, s, rows, pending);
      OneStep(p, run, s, k, e, rows + 1, pending - 1);
    }
  }

  /** For every account or address, every limit and every k some run records limit + k - 1 of its failures in one instant. */
  lemma WindowCanBeFull(p: Protection, s: Subject, k: nat) returns (run: seq<Event>)
    requires p.InRange() && p.Limit(s) > 0 && k > 0
    ensures Narrow(p, run, s, k)
    ensures Recorded(After(p, run).rows, s, 0, p.Window()) == p.Limit(s) + k - 1
  {
    hide After, Next, Narrow, AtOnce, Recorded, CheckNth;
    var limit := p.Limit(s);
    run := [];
    NothingYet(p, s, k);
    for i := 0 to limit - 1
      invariant Narrow(p, run, s, k) && AtOnce(After(p, run), s, i, 0)
    {
      var check := CheckNth(s, i);
      OneMore(p, run, s, k, check, i, 0);
      OneMore(p, run + [check], s, k, Fail(0), i, 1);
      run := run + [check] + [Fail(0)];
    }
    for i := 0 to k
      invariant Narrow(p, run, s, k) && AtOnce(After(p, run), s, limit - 1, i)
    {
      OneMore(p, run, s, k, CheckNth(s, limit - 1 + i), limit - 1, i);
      run := run + [CheckNth(s, limit - 1 + i)];
    }
    for i := 0 to k
      invariant Narrow(p, run, s, k) && AtOnce(After(p, run), s, limit - 1 + i, k - i)
    {
      OneMore(p, run, s, k, Fail(0), limit - 1 + i, k - i);
      run := run + [Fail(0)];
    }
    AllRecorded(After(p, run), s, limit + k - 1, 0, p.Window());
  }

  lemma NothingYet(p: Protection, s: Subject, k: nat)
    ensures Narrow(p, [], s, k) && AtOnce(After(p, []), s, 0, 0)
  {
  }

  lemma AllRecorded(x: State, s: Subject, rows: nat, pending: nat, window: int)
    requires AtOnce(x, s, rows, pending) && window > 0
    ensures Recorded(x.rows, s, 0, window) == rows
  {
    AllCounted(x.rows, s, window);
  }
}
