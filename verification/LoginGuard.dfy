/** The sign-in throttle and the sweep that ages its table (internal/httpapi/loginguard.go, auth.go, maintenance.go). */
module LoginGuard {
  import opened Common

  const MINUTE := 60
  const DAY := 24 * 60 * MINUTE

  datatype Protection = Protection(maxFailures: int, windowMinutes: int, lockoutMinutes: int, maxAddressFailures: int)
  {
    function Window(): int { windowMinutes * MINUTE }

    function Lockout(): int { lockoutMinutes * MINUTE }

    function Limit(s: Subject): int { if s.Account? then maxFailures else maxAddressFailures }

    predicate InRange() {
      && 0 <= maxFailures <= 1000
      && 0 <= maxAddressFailures <= 10000
      && 1 <= windowMinutes <= 1440
      && 1 <= lockoutMinutes <= 1440
    }

    /** A malformed setting neither locks everybody out nor switches the guard off: only a zero limit is off. */
    function Normalized(): (p: Protection)
      ensures p.InRange()
      ensures p == this <==> InRange()
      ensures (p.maxFailures == 0 <==> maxFailures == 0) && (p.maxAddressFailures == 0 <==> maxAddressFailures == 0)
    {
      var failures := if maxFailures < 0 then 5 else if maxFailures > 1000 then 1000 else maxFailures;
      var addressFailures :=
        if maxAddressFailures < 0 then 25 else if maxAddressFailures > 10000 then 10000 else maxAddressFailures;
      var window := if windowMinutes < 1 || windowMinutes > 1440 then 15 else windowMinutes;
      var lockout := if lockoutMinutes < 1 || lockoutMinutes > 1440 then 15 else lockoutMinutes;
      Protection(failures, window, lockout, addressFailures)
    }
  }

  /** The days a sweep keeps. */
  function NormalizedDays(days: int, fallback: nat): nat {
    if days < 0 then fallback else if days > 3650 then 3650 else days
  }

  datatype Attempt = Attempt(email: string, ip: Option<string>, succeeded: bool, at: int)

  /** What failures are counted against. */
  datatype Subject = Account(email: string) | Address(ip: string)

  predicate Fails(row: Attempt, s: Subject) {
    && !row.succeeded
    && match s
       case Account(email) => row.email == email
       case Address(ip) => row.ip == Some(ip)
  }

  // What a sign-in reads.

  /** The failures of the subject after the moment since. */
  function Count(rows: seq<Attempt>, s: Subject, since: int): nat {
    if rows == [] then 0
    else
      var row := rows[|rows| - 1];
      Count(rows[..|rows| - 1], s, since) + if Fails(row, s) && row.at > since then 1 else 0
  }

  /** The latest of them. */
  function Latest(rows: seq<Attempt>, s: Subject, since: int): Option<int> {
    if rows == [] then None
    else
      var row, before := rows[|rows| - 1], Latest(rows[..|rows| - 1], s, since);
      if Fails(row, s) && row.at > since && (before.None? || before.value < row.at) then Some(row.at) else before
  }

  /** How long a subject with this history stays locked, if it is. */
  function RetryAfter(failures: nat, latest: Option<int>, limit: int, lockout: int, now: int): Option<int> {
    if limit <= 0 || failures < limit || latest.None? then None
    else
      var remaining := latest.value + lockout - now;
      if remaining <= 0 then None else Some(remaining)
  }

  function LockedFor(rows: seq<Attempt>, p: Protection, s: Subject, now: int): Option<int> {
    var since := now - p.Window();
    RetryAfter(Count(rows, s, since), Latest(rows, s, since), p.Limit(s), p.Lockout(), now)
  }

  /** Every failure after since is at most the moment at. */
  predicate AllUpTo(rows: seq<Attempt>, s: Subject, since: int, at: int) {
    forall row :: row in rows && Fails(row, s) && row.at > since ==> row.at <= at
  }

  lemma {:induction false} LatestIsMax(rows: seq<Attempt>, s: Subject, since: int)
    ensures Latest(rows, s, since).Some? <==> Count(rows, s, since) > 0
    ensures Latest(rows, s, since).None? ==> AllUpTo(rows, s, since, since)
    ensures Latest(rows, s, since).Some? ==> AllUpTo(rows, s, since, Latest(rows, s, since).value)
    ensures Latest(rows, s, since).Some?
      ==> exists row :: row in rows && Fails(row, s) && row.at == Latest(rows, s, since).value > since
  {
    if rows != [] {
      var front, last := rows[..|rows| - 1], rows[|rows| - 1];
      LatestIsMax(front, s, since);
      assert forall row :: row in rows <==> row in front || row == last;
    }
  }

  /** The rows of failed sign-ins on the account, or from the address, after a moment. */
  function FailedSince(rows: seq<Attempt>, s: Subject, since: int): set<nat> {
    set i | 0 <= i < |rows| && !rows[i].succeeded && rows[i].at > since
            && match s { case Account(email) => rows[i].email == email case Address(ip) => rows[i].ip == Some(ip) }
  }

  lemma {:induction false} CountExactly(rows: seq<Attempt>, s: Subject, since: int)
    ensures Count(rows, s, since) == |FailedSince(rows, s, since)|
  {
    if rows != [] {
      var n := |rows| - 1;
      CountExactly(rows[..n], s, since);
      assert FailedSince(rows, s, since) == FailedSince(rows[..n], s, since) + if Fails(rows[n], s) && rows[n].at > since then {n} else {};
    }
  }

  /**
   * An account is locked by its own limit and an address by its own, zero meaning none: when so many failures lie in the
   * window, until a lockout after the latest of them; and the wait told is what is left of that.
   */
  lemma LockedExactly(rows: seq<Attempt>, p: Protection, s: Subject, now: int)
    requires p.InRange()
    ensures var limit := if s.Account? then p.maxFailures else p.maxAddressFailures;
            var failed := FailedSince(rows, s, now - p.windowMinutes * 60);
            && (LockedFor(rows, p, s, now).Some? <==>
                  limit > 0 && |failed| >= limit && exists i :: i in failed && rows[i].at > now - p.lockoutMinutes * 60)
            && (LockedFor(rows, p, s, now).Some? ==>
                  && (exists i :: i in failed && LockedFor(rows, p, s, now).value == rows[i].at + p.lockoutMinutes * 60 - now)
                  && forall i :: i in failed ==> rows[i].at + p.lockoutMinutes * 60 - now <= LockedFor(rows, p, s, now).value)
  {
    var since := now - p.Window();
    CountExactly(rows, s, since);
    LatestIsMax(rows, s, since);
    var failed := FailedSince(rows, s, since);
    assert forall i :: i in failed ==> rows[i] in rows && Fails(rows[i], s);
    if Latest(rows, s, since).Some? {
      var row :| row in rows && Fails(row, s) && row.at == Latest(rows, s, since).value > since;
      var i :| 0 <= i < |rows| && rows[i] == row;
      assert i in failed;
    }
  }

  /** Not locked means: too few failures in the window, or each of them a lockout ago. */
  lemma AdmittedMeans(rows: seq<Attempt>, p: Protection, s: Subject, now: int)
    requires p.InRange()
    ensures LockedFor(rows, p, s, now).None? <==>
            p.Limit(s) == 0 || Count(rows, s, now - p.Window()) < p.Limit(s)
            || AllUpTo(rows, s, now - p.Window(), now - p.Lockout())
  {
    LatestIsMax(rows, s, now - p.Window());
  }

  /** Waiting as long as told is enough when nobody else fails meanwhile. */
  lemma WaitingIsEnough(rows: seq<Attempt>, p: Protection, s: Subject, now: int, later: int)
    requires p.InRange() && LockedFor(rows, p, s, now).Some? && later >= now + LockedFor(rows, p, s, now).value
    ensures LockedFor(rows, p, s, later).None?
  {
    var since, sinceLater := now - p.Window(), later - p.Window();
    LatestIsMax(rows, s, since);
    LatestIsMax(rows, s, sinceLater);
  }

  // The bound.

  /** Every failure recorded for the subject was let in by the guard over the rows before it. */
  predicate Guarded(rows: seq<Attempt>, p: Protection, s: Subject) {
    rows == [] ||
    var front, row := rows[..|rows| - 1], rows[|rows| - 1];
    Guarded(front, p, s) && (Fails(row, s) ==> LockedFor(front, p, s, row.at).None?)
  }

  predicate InWindow(row: Attempt, s: Subject, from: int, window: int) {
    Fails(row, s) && from <= row.at < from + window
  }

  /** The failures recorded in the window that starts at from. */
  function Recorded(rows: seq<Attempt>, s: Subject, from: int, window: int): nat {
    if rows == [] then 0
    else Recorded(rows[..|rows| - 1], s, from, window) + if InWindow(rows[|rows| - 1], s, from, window) then 1 else 0
  }

  /** The positions of those failures. */
  function FailedWithin(rows: seq<Attempt>, s: Subject, from: int, window: int): set<nat> {
    set i | 0 <= i < |rows| && Fails(rows[i], s) && from <= rows[i].at < from + window
  }

  lemma {:induction false} RecordedExactly(rows: seq<Attempt>, s: Subject, from: int, window: int)
    ensures Recorded(rows, s, from, window) == |FailedWithin(rows, s, from, window)|
  {
    if rows != [] {
      var n := |rows| - 1;
      RecordedExactly(rows[..n], s, from, window);
      assert FailedWithin(rows, s, from, window)
             == FailedWithin(rows[..n], s, from, window) + if InWindow(rows[n], s, from, window) then {n} else {};
    }
  }

  lemma {:induction false} RecordedAreCounted(rows: seq<Attempt>, s: Subject, from: int, window: int, since: int)
    requires since < from
    ensures Recorded(rows, s, from, window) <= Count(rows, s, since)
    ensures Recorded(rows, s, from, window) > 0 ==> exists row :: row in rows && InWindow(row, s, from, window)
  {
    if rows != [] {
      var front, last := rows[..|rows| - 1], rows[|rows| - 1];
      RecordedAreCounted(front, s, from, window, since);
      assert forall row :: row in rows <==> row in front || row == last;
    }
  }

  /** Past the limit, each further failure in a window stands a lockout after the one before it. */
  lemma {:induction false} FailuresSpread(rows: seq<Attempt>, p: Protection, s: Subject, from: int) returns (late: Attempt)
    requires p.InRange() && p.Limit(s) > 0 && Guarded(rows, p, s)
    requires Recorded(rows, s, from, p.Window()) > p.Limit(s)
    ensures late in rows && InWindow(late, s, from, p.Window())
    ensures late.at >= from + (Recorded(rows, s, from, p.Window()) - p.Limit(s)) * p.Lockout()
  {
    var front, row := rows[..|rows| - 1], rows[|rows| - 1];
    var m, limit := Recorded(rows, s, from, p.Window()), p.Limit(s);
    if !InWindow(row, s, from, p.Window()) {
      late := FailuresSpread(front, p, s, from);
    } else {
      late := row;
      RecordedAreCounted(front, s, from, p.Window(), row.at - p.Window());
      AdmittedMeans(front, p, s, row.at);
      hide LockedFor, Count, Fails;
      if m - 1 > limit {
        var before := FailuresSpread(front, p, s, from);
        assert before.at + p.Lockout() <= row.at;
        Step(m - 1 - limit, p.Lockout());
      } else {
        var before :| before in front && InWindow(before, s, from, p.Window());
        assert before.at + p.Lockout() <= row.at;
        Step(0, p.Lockout());
      }
    }
  }

  lemma Step(n: int, lockout: int)
    ensures (n + 1) * lockout == n * lockout + lockout
  {
  }

  /** In any window, m failures beyond the limit take m lockouts; with a lockout as long as the window there are none. */
  lemma WindowBound(rows: seq<Attempt>, p: Protection, s: Subject, from: int)
    requires p.InRange() && p.Limit(s) > 0 && Guarded(rows, p, s)
    ensures Recorded(rows, s, from, p.Window()) > p.Limit(s)
      ==> (Recorded(rows, s, from, p.Window()) - p.Limit(s)) * p.Lockout() < p.Window()
    ensures p.Lockout() >= p.Window() ==> Recorded(rows, s, from, p.Window()) <= p.Limit(s)
  {
    var m, limit := Recorded(rows, s, from, p.Window()), p.Limit(s);
    if m > limit {
      var late := FailuresSpread(rows, p, s, from);
      AtLeast(m - limit, p.Lockout());
    }
  }

  lemma AtLeast(n: int, lockout: int)
    requires n >= 1 && lockout >= 0
    ensures n * lockout >= lockout
  {
    Step(n - 1, lockout);
    NotNegative(n - 1, lockout);
  }

  lemma NotNegative(a: int, b: int)
    requires a >= 0 && b >= 0
    ensures a * b >= 0
  {
  }

  // Deletions.

  /** DELETE ... WHERE email = $1 AND NOT succeeded. */
  function Cleared(rows: seq<Attempt>, email: string): seq<Attempt> {
    if rows == [] then []
    else
      var front, row := Cleared(rows[..|rows| - 1], email), rows[|rows| - 1];
      if Fails(row, Account(email)) then front else front + [row]
  }

  /** DELETE ... WHERE created_at < before. */
  function Swept(rows: seq<Attempt>, before: int): seq<Attempt> {
    if rows == [] then []
    else
      var front, row := Swept(rows[..|rows| - 1], before), rows[|rows| - 1];
      if row.at < before then front else front + [row]
  }

  /** What a clearing deletes, and what it keeps. */
  lemma {:induction false} ClearedExactly(rows: seq<Attempt>, email: string, row: Attempt)
    ensures row in Cleared(rows, email) <==> row in rows && !(row.email == email && !row.succeeded)
  {
    if rows != [] {
      ClearedExactly(rows[..|rows| - 1], email, row);
      assert row in rows <==> row in rows[..|rows| - 1] || row == rows[|rows| - 1];
    }
  }

  /** Other accounts' failures stay counted, row by row. */
  lemma {:induction false} ClearKeepsOthers(rows: seq<Attempt>, email: string, other: string, since: int)
    requires other != email
    ensures Count(Cleared(rows, email), Account(other), since) == Count(rows, Account(other), since)
  {
    if rows != [] {
      ClearKeepsOthers(rows[..|rows| - 1], email, other, since);
      DropLast(Cleared(rows[..|rows| - 1], email), rows[|rows| - 1]);
    }
  }

  lemma {:induction false} SweptExactly(rows: seq<Attempt>, before: int, row: Attempt)
    ensures row in Swept(rows, before) <==> row in rows && row.at >= before
  {
    if rows != [] {
      SweptExactly(rows[..|rows| - 1], before, row);
      assert row in rows <==> row in rows[..|rows| - 1] || row == rows[|rows| - 1];
    }
  }

  /** The retention: thirty days when the setting makes no sense, ten years at most, and none at all for zero. */
  lemma RetentionExactly(days: int)
    ensures days < 0 ==> NormalizedDays(days, 30) == 30
    ensures 0 <= days <= 3650 ==> NormalizedDays(days, 30) == days
    ensures days > 3650 ==> NormalizedDays(days, 30) == 3650
  {
  }

  /** What a protection setting out of range becomes, field by field. */
  lemma NormalizedExactly(p: Protection)
    ensures var q := p.Normalized();
            && q.maxFailures == (if p.maxFailures < 0 then 5 else Min(p.maxFailures, 1000))
            && q.maxAddressFailures == (if p.maxAddressFailures < 0 then 25 else Min(p.maxAddressFailures, 10000))
            && q.windowMinutes == (if 1 <= p.windowMinutes <= 1440 then p.windowMinutes else 15)
            && q.lockoutMinutes == (if 1 <= p.lockoutMinutes <= 1440 then p.lockoutMinutes else 15)
  {
  }

  lemma DropLast(front: seq<Attempt>, row: Attempt)
    ensures (front + [row])[..|front|] == front
  {
  }

  lemma {:induction false} ClearedIsFewer(rows: seq<Attempt>, email: string, s: Subject, since: int)
    ensures Count(Cleared(rows, email), s, since) <= Count(rows, s, since)
    ensures s == Account(email) ==> Count(Cleared(rows, email), s, since) == 0
  {
    if rows != [] {
      var front, row := rows[..|rows| - 1], rows[|rows| - 1];
      ClearedIsFewer(front, email, s, since);
      DropLast(Cleared(front, email), row);
    }
  }

  lemma {:induction false} ClearedAreRows(rows: seq<Attempt>, email: string)
    ensures forall row :: row in Cleared(rows, email) ==> row in rows
  {
    if rows != [] {
      ClearedAreRows(rows[..|rows| - 1], email);
    }
  }

  lemma ClearKeepsAdmitted(rows: seq<Attempt>, p: Protection, s: Subject, email: string, now: int)
    requires p.InRange() && LockedFor(rows, p, s, now).None?
    ensures LockedFor(Cleared(rows, email), p, s, now).None?
  {
    ClearedIsFewer(rows, email, s, now - p.Window());
    ClearedAreRows(rows, email);
    AdmittedMeans(rows, p, s, now);
    AdmittedMeans(Cleared(rows, email), p, s, now);
  }

  /** A sign-in that clears an account leaves every subject's remaining failures guarded. */
  lemma {:induction false} ClearKeepsGuarded(rows: seq<Attempt>, p: Protection, s: Subject, email: string)
    requires p.InRange() && Guarded(rows, p, s)
    ensures Guarded(Cleared(rows, email), p, s)
  {
    if rows != [] {
      var front, row := rows[..|rows| - 1], rows[|rows| - 1];
      ClearKeepsGuarded(front, p, s, email);
      DropLast(Cleared(front, email), row);
      if Fails(row, s) {
        ClearKeepsAdmitted(front, p, s, email, row.at);
      }
    }
  }

  /** A cleared account is not locked, whatever was tried against it. */
  lemma ClearUnlocks(rows: seq<Attempt>, p: Protection, email: string, now: int)
    requires p.InRange()
    ensures LockedFor(Cleared(rows, email), p, Account(email), now).None?
  {
    ClearedIsFewer(rows, email, Account(email), now - p.Window());
    LatestIsMax(Cleared(rows, email), Account(email), now - p.Window());
  }

  /** The sweep does not touch what a guard that looks back to since counts. */
  lemma {:induction false} SweepKeepsCounted(rows: seq<Attempt>, before: int, s: Subject, since: int)
    requires before <= since + 1
    ensures Count(Swept(rows, before), s, since) == Count(rows, s, since)
    ensures Latest(Swept(rows, before), s, since) == Latest(rows, s, since)
  {
    if rows != [] {
      var front, row := rows[..|rows| - 1], rows[|rows| - 1];
      SweepKeepsCounted(front, before, s, since);
      DropLast(Swept(front, before), row);
    }
  }

  lemma {:induction false} SweepTwice(rows: seq<Attempt>, a: int, b: int)
    requires a <= b
    ensures Swept(Swept(rows, a), b) == Swept(rows, b)
  {
    if rows != [] {
      var front, row := rows[..|rows| - 1], rows[|rows| - 1];
      SweepTwice(front, a, b);
      DropLast(Swept(front, a), row);
    }
  }

  lemma {:induction false} SweepAgain(rows: seq<Attempt>, a: int, b: int)
    requires a <= b
    ensures Swept(Swept(rows, b), a) == Swept(rows, b)
  {
    if rows != [] {
      var front, row := rows[..|rows| - 1], rows[|rows| - 1];
      SweepAgain(front, a, b);
      DropLast(Swept(front, b), row);
    }
  }

  lemma {:induction false} SweepThenClear(rows: seq<Attempt>, before: int, email: string)
    ensures Cleared(Swept(rows, before), email) == Swept(Cleared(rows, email), before)
  {
    if rows != [] {
      var front, row := rows[..|rows| - 1], rows[|rows| - 1];
      SweepThenClear(front, before, email);
      DropLast(Swept(front, before), row);
      DropLast(Cleared(front, email), row);
    }
  }

  lemma SweepKeepsVerdict(rows: seq<Attempt>, before: int, p: Protection, s: Subject, now: int)
    requires p.InRange() && before <= now - DAY
    ensures LockedFor(Swept(rows, before), p, s, now) == LockedFor(rows, p, s, now)
  {
    SweepKeepsCounted(rows, before, s, now - p.Window());
  }

  // The table over a run.

  datatype Outcome = Locked(wait: int) | Unavailable | WrongPassword | Failed | SignedIn

  datatype Lookup = Found | NoAccount | LookupFailed

  /** The wait a sign-in is answered with: the account's lock before the address's. */
  function Verdict(rows: seq<Attempt>, p: Protection, email: string, ip: Option<string>, now: int): Option<int> {
    var account := LockedFor(rows, p, Account(email), now);
    if account.Some? then account
    else if ip.Some? then LockedFor(rows, p, Address(ip.value), now)
    else None
  }

  /** A sign-in is turned away for the account first, and for the address only if the request has one. */
  lemma VerdictExactly(rows: seq<Attempt>, p: Protection, email: string, ip: Option<string>, now: int)
    ensures var account := LockedFor(rows, p, Account(email), now);
            && (account.Some? ==> Verdict(rows, p, email, ip, now) == account)
            && (account.None? && ip.None? ==> Verdict(rows, p, email, ip, now).None?)
            && (account.None? && ip.Some? ==> Verdict(rows, p, email, ip, now) == LockedFor(rows, p, Address(ip.value), now))
  {
  }

  lemma AppendKeepsGuarded(rows: seq<Attempt>, p: Protection, s: Subject, row: Attempt)
    requires Guarded(rows, p, s) && (Fails(row, s) ==> Verdict(rows, p, row.email, row.ip, row.at).None?)
    ensures Guarded(rows + [row], p, s)
  {
    DropLast(rows, row);
  }

  /**
   * login_attempts under fixed settings. history is the table as it would be had no sweep ever run:
   * what the guard decides is stated about it, what is stored is what a sweep left of it.
   */
  class Attempts {
    const protection: Protection
    var rows: seq<Attempt>
    ghost var history: seq<Attempt>
    ghost var sweptTo: int
    var clock: int

    ghost predicate Valid()
      reads this
    {
      && protection.InRange()
      && rows == Swept(history, sweptTo)
      && sweptTo <= clock - DAY
      && forall s :: Guarded(history, protection, s)
    }

    constructor (settings: Protection, now: int)
      ensures Valid() && protection == settings.Normalized() && history == [] && clock == now
    {
      protection := settings.Normalized();
      rows, history, sweptTo, clock := [], [], now - DAY, now;
    }

    /** One sign-in, its check and its record taken as one step. email is trimmed and in lower case. */
    method Login(email: string, ip: Option<string>, now: int, account: Lookup, passwordMatches: bool, stored: bool)
      returns (outcome: Outcome)
      requires Valid() && clock <= now
      modifies this
      ensures Valid() && clock == now && sweptTo == old(sweptTo)
      ensures var locked := Verdict(old(history), protection, email, ip, now);
              outcome == if locked.Some? then Locked(locked.value)
                         else if account == LookupFailed then Unavailable
                         else if account == NoAccount || !passwordMatches then WrongPassword
                         else if !stored then Failed
                         else SignedIn
      ensures history == if outcome == WrongPassword then old(history) + [Attempt(email, ip, false, now)]
                         else if outcome == SignedIn then Cleared(old(history) + [Attempt(email, ip, true, now)], email)
                         else old(history)
    {
      clock := now;
      var locked := Check(email, ip);
      if locked.Some? {
        return Locked(locked.value);
      }
      if account == LookupFailed {
        return Unavailable;
      }
      if account == NoAccount || !passwordMatches {
        Append(Attempt(email, ip, false, now));
        return WrongPassword;
      }
      if !stored {
        return Failed;
      }
      Append(Attempt(email, ip, true, now));
      Clear(email);
      return SignedIn;
    }

    /** The handler: the address typed is trimmed and put in lower case before anything is read. */
    method SignIn(typed: string, ip: Option<string>, now: int, account: Lookup, passwordMatches: bool, stored: bool)
      returns (outcome: Outcome)
      requires Valid() && clock <= now
      modifies this
      ensures Valid()
      ensures outcome.Locked? <==> Verdict(old(history), protection, Lower(Trim(typed)), ip, now).Some?
      ensures outcome == SignedIn ==> account == Found && passwordMatches
      ensures outcome == SignedIn ==>
        forall row :: row in history <==> row in old(history) + [Attempt(Lower(Trim(typed)), ip, true, now)]
                                          && !(row.email == Lower(Trim(typed)) && !row.succeeded)
      ensures outcome == WrongPassword ==> history == old(history) + [Attempt(Lower(Trim(typed)), ip, false, now)]
    {
      hide Verdict, Cleared, Guarded, Swept;
      outcome := Login(Lower(Trim(typed)), ip, now, account, passwordMatches, stored);
      ghost var tried := old(history) + [Attempt(Lower(Trim(typed)), ip, true, now)];
      if outcome == SignedIn {
        forall row ensures row in history <==> row in tried && !(row.email == Lower(Trim(typed)) && !row.succeeded) {
          ClearedExactly(tried, Lower(Trim(typed)), row);
        }
      }
    }

    /** The stored rows answer as all the rows would. */
    method Check(email: string, ip: Option<string>) returns (locked: Option<int>)
      requires Valid()
      ensures locked == Verdict(history, protection, email, ip, clock)
    {
      SweepKeepsVerdict(history, sweptTo, protection, Account(email), clock);
      locked := LockedFor(rows, protection, Account(email), clock);
      if locked.None? && ip.Some? {
        SweepKeepsVerdict(history, sweptTo, protection, Address(ip.value), clock);
        locked := LockedFor(rows, protection, Address(ip.value), clock);
      }
    }

    method Append(row: Attempt)
      requires Valid() && row.at == clock
      requires row.succeeded || Verdict(history, protection, row.email, row.ip, clock).None?
      modifies `rows, `history
      ensures Valid() && history == old(history) + [row] && rows == old(rows) + [row]
    {
      DropLast(history, row);
      forall s ensures Guarded(history + [row], protection, s) {
        AppendKeepsGuarded(history, protection, s, row);
      }
      rows, history := rows + [row], history + [row];
    }

    /** Also what changing or resetting a password does. */
    method Clear(email: string)
      requires Valid()
      modifies `rows, `history
      ensures Valid() && rows == Cleared(old(rows), email) && history == Cleared(old(history), email)
    {
      SweepThenClear(history, sweptTo, email);
      forall s ensures Guarded(Cleared(history, email), protection, s) {
        ClearKeepsGuarded(history, protection, s, email);
      }
      rows, history := Cleared(rows, email), Cleared(history, email);
    }

    /** The retention sweep, at whatever retention is set; what the guard decides stays what it was. */
    method Purge(days: int, now: int)
      requires Valid() && clock <= now
      modifies `rows, `sweptTo, `clock
      ensures Valid() && clock == now
      ensures rows == if NormalizedDays(days, 30) == 0 then old(rows) else Swept(old(rows), now - NormalizedDays(days, 30) * 86400)
      ensures forall s, later {:trigger LockedFor(rows, protection, s, later)} ::
                now <= later ==> LockedFor(rows, protection, s, later) == LockedFor(history, protection, s, later)
    {
      clock := now;
      var kept := NormalizedDays(days, 30);
      if kept > 0 {
        var before := now - kept * DAY;
        if sweptTo <= before {
          SweepTwice(history, sweptTo, before);
          sweptTo := before;
        } else {
          SweepAgain(history, before, sweptTo);
        }
        rows := Swept(rows, before);
      }
      forall s, later | now <= later ensures LockedFor(rows, protection, s, later) == LockedFor(history, protection, s, later) {
        SweepKeepsVerdict(history, sweptTo, protection, s, later);
      }
    }

    /** At every moment of every run, for accounts and for addresses. */
    lemma FailuresAreBounded(s: Subject, from: int)
      requires Valid() && protection.Limit(s) > 0
      ensures var m := Recorded(history, s, from, protection.Window());
              m > protection.Limit(s) ==> (m - protection.Limit(s)) * protection.Lockout() < protection.Window()
      ensures protection.Lockout() >= protection.Window()
        ==> Recorded(history, s, from, protection.Window()) <= protection.Limit(s)
    {
      WindowBound(history, protection, s, from);
    }
  }
}
