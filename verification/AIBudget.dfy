/** The hourly budget of model calls, whose check and record are separate steps (internal/httpapi/integrations.go). */
module AIBudget {
  import opened Common

  /** Times are microseconds, the resolution of the audit log. */
  const SECOND := 1_000_000
  const HOUR := 3600 * SECOND

  /** A request that passed the check: when, and how many calls were on record then. The count is history. */
  datatype Ticket = Ticket(checked: int, seen: nat)

  /** A recorded call. The ticket it was made on is history; the log itself keeps only the time. */
  datatype Call = Call(at: int, ticket: Ticket)

  // The check.

  /** The calls of the last hour. */
  function Used(calls: seq<Call>, now: int): nat {
    if calls == [] then 0
    else Used(calls[..|calls| - 1], now) + if calls[|calls| - 1].at > now - HOUR then 1 else 0
  }

  /** The earliest of them. */
  function Oldest(calls: seq<Call>, now: int): Option<int> {
    if calls == [] then None
    else
      var before, at := Oldest(calls[..|calls| - 1], now), calls[|calls| - 1].at;
      if at > now - HOUR && (before.None? || at < before.value) then Some(at) else before
  }

  /** Whole seconds, truncated toward zero. */
  function Seconds(micros: int): int {
    if micros >= 0 then micros / SECOND else -((-micros) / SECOND)
  }

  /** None admits; Some says how many seconds to wait. later is the clock once the log has been read. */
  function Refusal(calls: seq<Call>, limit: int, now: int, later: int): Option<int> {
    if limit <= 0 || Used(calls, now) < limit then None
    else
      var oldest := Oldest(calls, now);
      var wait := if oldest.Some? then Seconds(oldest.value + HOUR - later) + 1 else 0;
      Some(if wait > 0 then wait else 60)
  }

  predicate InOrder(calls: seq<Call>, clock: int) {
    && (forall i, j :: 0 <= i < j < |calls| ==> calls[i].at <= calls[j].at)
    && (forall i :: 0 <= i < |calls| ==> calls[i].at <= clock)
  }

  lemma {:induction false} UsedIsSuffix(calls: seq<Call>, clock: int, now: int, first: nat)
    requires InOrder(calls, clock) && first <= |calls|
    requires forall i :: 0 <= i < |calls| ==> (calls[i].at > now - HOUR <==> first <= i)
    ensures Used(calls, now) == |calls| - first
    ensures Oldest(calls, now) == if first < |calls| then Some(calls[first].at) else None
    decreases |calls|
  {
    if calls != [] {
      var front := calls[..|calls| - 1];
      if first == |calls| {
        UsedIsSuffix(front, clock, now, first - 1);
      } else {
        UsedIsSuffix(front, clock, now, first);
      }
    }
  }

  lemma {:induction false} FirstCounted(calls: seq<Call>, clock: int, now: int) returns (first: nat)
    requires InOrder(calls, clock)
    ensures first <= |calls|
    ensures forall i :: 0 <= i < |calls| ==> (calls[i].at > now - HOUR <==> first <= i)
  {
    if calls == [] || calls[|calls| - 1].at <= now - HOUR {
      first := |calls|;
    } else {
      first := FirstCounted(calls[..|calls| - 1], clock, now);
    }
  }

  /**
   * Refused with exactly the limit on record, a caller who waits as told is admitted, and one who retries before
   * the oldest call ages out is not.
   */
  lemma RetryAfterIsEnough(calls: seq<Call>, limit: int, now: int, later: int, again: int, after: int)
    requires InOrder(calls, now) && now <= later && Used(calls, now) == limit > 0
    ensures Refusal(calls, limit, now, later).Some? && Oldest(calls, now).Some?
    ensures again >= later + Refusal(calls, limit, now, later).value * SECOND ==> Refusal(calls, limit, again, after).None?
    ensures now <= again < Oldest(calls, now).value + HOUR ==> Refusal(calls, limit, again, after).Some?
  {
    var first := FirstCounted(calls, now, now);
    UsedIsSuffix(calls, now, now, first);
    var oldest := calls[first].at;
    var firstAgain := FirstCounted(calls, now, again);
    UsedIsSuffix(calls, now, again, firstAgain);
    SecondsCover(oldest + HOUR - later);
    assert again >= oldest + HOUR ==> firstAgain > first;
  }

  /** The calls of the last hour. */
  function WithinTheHour(calls: seq<Call>, now: int): set<nat> {
    set i | 0 <= i < |calls| && calls[i].at > now - 3600 * 1_000_000
  }

  lemma {:induction false} UsedExactly(calls: seq<Call>, now: int)
    ensures Used(calls, now) == |WithinTheHour(calls, now)|
  {
    if calls != [] {
      var n := |calls| - 1;
      UsedExactly(calls[..n], now);
      assert WithinTheHour(calls, now) == WithinTheHour(calls[..n], now) + if calls[n].at > now - HOUR then {n} else {};
    }
  }

  lemma {:induction false} OldestExactly(calls: seq<Call>, now: int)
    ensures Oldest(calls, now).None? <==> WithinTheHour(calls, now) == {}
    ensures Oldest(calls, now).Some? ==>
              && (exists i :: i in WithinTheHour(calls, now) && calls[i].at == Oldest(calls, now).value)
              && forall i :: i in WithinTheHour(calls, now) ==> Oldest(calls, now).value <= calls[i].at
  {
    if calls != [] {
      var n := |calls| - 1;
      OldestExactly(calls[..n], now);
      assert WithinTheHour(calls, now) == WithinTheHour(calls[..n], now) + if calls[n].at > now - HOUR then {n} else {};
      if Oldest(calls[..n], now).Some? {
        var i :| i in WithinTheHour(calls[..n], now) && calls[..n][i].at == Oldest(calls[..n], now).value;
        assert i in WithinTheHour(calls, now) && calls[i].at == calls[..n][i].at;
      }
      assert calls[n].at > now - HOUR ==> n in WithinTheHour(calls, now);
    }
  }

  /**
   * A check refuses exactly when a positive limit is used up in the last hour, and tells a wait that ends, to the second,
   * when the oldest of those calls is an hour old; a minute, should that be past already.
   */
  lemma RefusesExactly(calls: seq<Call>, limit: int, now: int, later: int)
    ensures Refusal(calls, limit, now, later).Some? <==> 0 < limit <= |WithinTheHour(calls, now)|
    ensures Refusal(calls, limit, now, later).Some? ==>
              exists i :: i in WithinTheHour(calls, now) && (forall j :: j in WithinTheHour(calls, now) ==> calls[i].at <= calls[j].at)
                          && WaitIs(Refusal(calls, limit, now, later).value, calls[i].at + 3600 * 1_000_000 - later)
  {
    UsedExactly(calls, now);
    OldestExactly(calls, now);
    if Refusal(calls, limit, now, later).Some? {
      var i :| i in WithinTheHour(calls, now) && calls[i].at == Oldest(calls, now).value;
      WaitOf(calls[i].at + HOUR - later);
    }
  }

  /** The wait told, in seconds, for a gap in microseconds. */
  predicate WaitIs(wait: int, gap: int) {
    && (gap >= 0 ==> (wait - 1) * 1_000_000 <= gap < wait * 1_000_000)
    && (-1_000_000 < gap < 0 ==> wait == 1)
    && (gap <= -1_000_000 ==> wait == 60)
  }

  lemma WaitOf(gap: int)
    ensures WaitIs(if Seconds(gap) + 1 > 0 then Seconds(gap) + 1 else 60, gap)
  {
  }

  lemma SecondsCover(micros: int)
    ensures (Seconds(micros) + 1) * SECOND > micros
  {
  }

  /** Whoever was refused is admitted exactly when the limit-th newest call has aged out. */
  lemma AdmittedAgainExactly(calls: seq<Call>, limit: int, now: int, again: int, after: int)
    requires InOrder(calls, now) && 0 < limit <= Used(calls, now) && now <= again
    ensures limit <= |calls|
    ensures Refusal(calls, limit, again, after).None? <==> calls[|calls| - limit].at <= again - 3600 * 1_000_000
  {
    var first := FirstCounted(calls, now, now);
    UsedIsSuffix(calls, now, now, first);
    var firstAgain := FirstCounted(calls, now, again);
    UsedIsSuffix(calls, now, again, firstAgain);
  }

  /**
   * The wait told is long enough exactly when the limit-th newest call is an hour old by then. It is worked out from
   * the oldest call counted, which is that call when no more than the limit are on record.
   */
  lemma WaitIsEnoughExactly(calls: seq<Call>, limit: int, now: int, later: int, after: int)
    requires InOrder(calls, now) && 0 < limit <= Used(calls, now) && now <= later
    ensures limit <= |calls| && Refusal(calls, limit, now, later).Some?
    ensures Oldest(calls, now).Some?
    ensures var again := later + Refusal(calls, limit, now, later).value * SECOND;
            && again > Oldest(calls, now).value + HOUR
            && (Refusal(calls, limit, again, after).None? <==> calls[|calls| - limit].at + HOUR <= again)
    ensures Used(calls, now) == limit ==> Oldest(calls, now) == Some(calls[|calls| - limit].at)
  {
    var first := FirstCounted(calls, now, now);
    UsedIsSuffix(calls, now, now, first);
    SecondsCover(calls[first].at + HOUR - later);
    AdmittedAgainExactly(calls, limit, now, later + Refusal(calls, limit, now, later).value * SECOND, after);
  }

  // Runs.

  /** One account's calls, and its requests that have been checked and have not yet been recorded. */
  datatype State = State(clock: int, calls: seq<Call>, pending: seq<Ticket>)

  datatype Event =
    | Wait(now: int)
    | Check
    | Record(which: nat)
    | GiveUp(which: nat)

  function Without(pending: seq<Ticket>, which: nat): seq<Ticket>
    requires which < |pending|
  {
    pending[..which] + pending[which + 1..]
  }

  /** A clock that would go back, or a request that is not there, changes nothing. */
  function Next(s: State, limit: int, e: Event): State {
    match e
    case Wait(now) => if s.clock <= now then s.(clock := now) else s
    case Check =>
      if Refusal(s.calls, limit, s.clock, s.clock).Some? then s
      else s.(pending := s.pending + [Ticket(s.clock, |s.calls|)])
    case Record(which) =>
      if which >= |s.pending| then s
      else s.(calls := s.calls + [Call(s.clock, s.pending[which])], pending := Without(s.pending, which))
    case GiveUp(which) =>
      if which >= |s.pending| then s else s.(pending := Without(s.pending, which))
  }

  const START := State(0, [], [])

  function After(limit: int, run: seq<Event>): State {
    if run == [] then START else Next(After(limit, run[..|run| - 1]), limit, run[|run| - 1])
  }

  /** At no moment of the run are more than k requests between their check and their record. */
  predicate Narrow(limit: int, run: seq<Event>, k: nat) {
    run == [] || (Narrow(limit, run[..|run| - 1], k) && |After(limit, run).pending| <= k)
  }

  /** The requests that were already checked when call i was about to be recorded, as far as they are on record. */
  function Late(calls: seq<Call>, i: nat): nat {
    if |calls| <= i then 0
    else Late(calls[..|calls| - 1], i) + if calls[|calls| - 1].ticket.seen <= i then 1 else 0
  }

  /** And those that still wait. */
  function Waiting(pending: seq<Ticket>, i: nat): nat {
    if pending == [] then 0
    else Waiting(pending[..|pending| - 1], i) + if pending[|pending| - 1].seen <= i then 1 else 0
  }

  predicate Admitted(calls: seq<Call>, t: Ticket, limit: int, clock: int) {
    && t.seen <= |calls|
    && t.checked <= clock
    && Used(calls[..t.seen], t.checked) < limit
  }

  ghost predicate Inv(s: State, limit: int, k: nat) {
    && InOrder(s.calls, s.clock)
    && (forall i :: 0 <= i < |s.calls| ==> s.calls[i].ticket.seen <= i && Admitted(s.calls, s.calls[i].ticket, limit, s.calls[i].at))
    && (forall i :: 0 <= i < |s.pending| ==> Admitted(s.calls, s.pending[i], limit, s.clock))
    && (forall i: nat :: i <= |s.calls| ==> Late(s.calls, i) + Waiting(s.pending, i) <= k)
  }

  lemma {:induction false} WaitingIsWithin(pending: seq<Ticket>, i: nat)
    ensures Waiting(pending, i) <= |pending|
  {
    if pending != [] {
      WaitingIsWithin(pending[..|pending| - 1], i);
    }
  }

  lemma {:induction false} WaitingAdds(a: seq<Ticket>, b: seq<Ticket>, i: nat)
    ensures Waiting(a + b, i) == Waiting(a, i) + Waiting(b, i)
  {
    if b == [] {
      assert a + b == a;
    } else {
      WaitingAdds(a, b[..|b| - 1], i);
      assert (a + b)[..|a + b| - 1] == a + b[..|b| - 1];
    }
  }

  lemma WaitingWithout(pending: seq<Ticket>, which: nat, i: nat)
    requires which < |pending|
    ensures Waiting(Without(pending, which), i) == Waiting(pending, i) - if pending[which].seen <= i then 1 else 0
  {
    var one := [pending[which]];
    WaitingAdds(pending[..which], pending[which + 1..], i);
    WaitingAdds(pending[..which] + one, pending[which + 1..], i);
    WaitingAdds(pending[..which], one, i);
    assert pending == pending[..which] + one + pending[which + 1..];
    assert Waiting(one, i) == if pending[which].seen <= i then 1 else 0 by { assert one[..0] == []; }
  }

  lemma CheckKeepsInv(s: State, limit: int, k: nat)
    requires limit > 0 && Inv(s, limit, k) && |Next(s, limit, Check).pending| <= k
    ensures Inv(Next(s, limit, Check), limit, k)
  {
    var t := Next(s, limit, Check);
    if t != s {
      var ticket := Ticket(s.clock, |s.calls|);
      assert s.calls[..|s.calls|] == s.calls;
      assert t.pending[..|s.pending|] == s.pending;
      forall i: nat | i <= |t.calls| ensures Late(t.calls, i) + Waiting(t.pending, i) <= k {
        WaitingIsWithin(t.pending, i);
      }
    }
  }

  lemma RecordKeepsCount(s: State, which: nat, i: nat, k: nat, call: Call)
    requires which < |s.pending| && call.ticket == s.pending[which] && i <= |s.calls| + 1
    requires forall j: nat :: j <= |s.calls| ==> Late(s.calls, j) + Waiting(s.pending, j) <= k
    requires |s.pending| <= k
    ensures Late(s.calls + [call], i) + Waiting(Without(s.pending, which), i) <= k
  {
    WaitingWithout(s.pending, which, i);
    assert (s.calls + [call])[..|s.calls|] == s.calls;
    if i == |s.calls| + 1 {
      WaitingIsWithin(Without(s.pending, which), i);
    }
  }

  lemma AdmittedGrows(calls: seq<Call>, call: Call, t: Ticket, limit: int, clock: int, later: int)
    requires Admitted(calls, t, limit, clock) && clock <= later
    ensures Admitted(calls + [call], t, limit, later)
  {
    assert (calls + [call])[..t.seen] == calls[..t.seen];
  }

  lemma RecordKeepsInv(s: State, limit: int, k: nat, which: nat)
    requires limit > 0 && Inv(s, limit, k) && |s.pending| <= k && which < |s.pending|
    ensures Inv(Next(s, limit, Record(which)), limit, k)
  {
    var t := Next(s, limit, Record(which));
    var call := Call(s.clock, s.pending[which]);
    forall i | 0 <= i < |t.calls| ensures Admitted(t.calls, t.calls[i].ticket, limit, t.calls[i].at) {
      AdmittedGrows(s.calls, call, t.calls[i].ticket, limit, t.calls[i].at, t.calls[i].at);
    }
    forall i | 0 <= i < |t.pending| ensures Admitted(t.calls, t.pending[i], limit, t.clock) {
      AdmittedGrows(s.calls, call, s.pending[if i < which then i else i + 1], limit, s.clock, s.clock);
    }
    forall i: nat | i <= |t.calls| ensures Late(t.calls, i) + Waiting(t.pending, i) <= k {
      RecordKeepsCount(s, which, i, k, call);
    }
  }

  lemma GiveUpKeepsInv(s: State, limit: int, k: nat, which: nat)
    requires limit > 0 && Inv(s, limit, k) && which < |s.pending|
    ensures Inv(Next(s, limit, GiveUp(which)), limit, k)
  {
    var t := Next(s, limit, GiveUp(which));
    forall i: nat | i <= |t.calls| ensures Late(t.calls, i) + Waiting(t.pending, i) <= k {
      WaitingWithout(s.pending, which, i);
    }
    assert forall i :: 0 <= i < |t.pending| ==> t.pending[i] == s.pending[if i < which then i else i + 1];
  }

  lemma {:induction false} RunKeepsInv(limit: int, run: seq<Event>, k: nat)
    requires limit > 0 && Narrow(limit, run, k)
    ensures Inv(After(limit, run), limit, k)
    ensures |After(limit, run).pending| <= k
  {
    if run != [] {
      var front, e := run[..|run| - 1], run[|run| - 1];
      RunKeepsInv(limit, front, k);
      var s := After(limit, front);
      match e
      case Wait(now) =>
      case Check => CheckKeepsInv(s, limit, k);
      case Record(which) => if which < |s.pending| { RecordKeepsInv(s, limit, k, which); }
      case GiveUp(which) => if which < |s.pending| { GiveUpKeepsInv(s, limit, k, which); }
    }
  }

  // The bound.

  /** Every call from lo on up to hi was checked by the time from was the number on record. */
  lemma {:induction false} AllLate(calls: seq<Call>, from: nat, hi: nat)
    requires from <= hi <= |calls|
    requires forall j :: from <= j < hi ==> calls[j].ticket.seen <= from
    ensures Late(calls, from) >= hi - from
    decreases |calls|
  {
    if from < |calls| {
      var front := calls[..|calls| - 1];
      if hi == |calls| && from < hi {
        AllLate(front, from, hi - 1);
      } else {
        AllLate(front, from, hi);
      }
    }
  }

  /** The call of the window whose check came last. */
  lemma {:induction false} LastChecked(calls: seq<Call>, lo: nat, hi: nat) returns (last: nat)
    requires lo < hi <= |calls|
    ensures lo <= last < hi
    ensures forall j :: lo <= j < hi ==> calls[j].ticket.seen <= calls[last].ticket.seen
  {
    last := lo;
    if lo + 1 < hi {
      var before := LastChecked(calls, lo, hi - 1);
      last := if calls[before].ticket.seen <= calls[hi - 1].ticket.seen then hi - 1 else before;
    }
  }

  /** What the last check saw of the window was below the limit. */
  lemma {:induction false} SeenBelowLimit(calls: seq<Call>, lo: nat, since: int)
    requires lo <= |calls| && forall j :: lo <= j < |calls| ==> calls[j].at > since - HOUR
    ensures Used(calls, since) >= |calls| - lo
    decreases |calls|
  {
    if lo < |calls| {
      SeenBelowLimit(calls[..|calls| - 1], lo, since);
    }
  }

  lemma WindowIsBounded(calls: seq<Call>, limit: int, k: nat, lo: nat, hi: nat, last: nat, clock: int)
    requires limit > 0 && lo <= last < hi <= |calls| && InOrder(calls, clock) && calls[hi - 1].at - calls[lo].at < HOUR
    requires forall j :: lo <= j < hi ==> calls[j].ticket.seen <= calls[last].ticket.seen
    requires calls[last].ticket.seen <= last && Admitted(calls, calls[last].ticket, limit, calls[last].at)
    requires forall i: nat :: i <= |calls| ==> Late(calls, i) <= k
    ensures hi - lo <= limit + k - 1
  {
    var t := calls[last].ticket;
    if t.seen < lo {
      AllLate(calls, lo, hi);
    } else {
      assert calls[last].at <= calls[hi - 1].at;
      SeenBelowLimit(calls[..t.seen], lo, t.checked);
      AllLate(calls, t.seen, hi);
    }
  }

  /** With at most k requests at once between check and record, no hour holds more than limit + k - 1 calls. */
  lemma HourIsBounded(limit: int, run: seq<Event>, k: nat, lo: nat, hi: nat)
    requires limit > 0 && Narrow(limit, run, k)
    requires lo < hi <= |After(limit, run).calls|
    requires After(limit, run).calls[hi - 1].at - After(limit, run).calls[lo].at < 3600 * 1_000_000
    ensures hi - lo <= limit + k - 1
  {
    RunKeepsInv(limit, run, k);
    var s := After(limit, run);
    var last := LastChecked(s.calls, lo, hi);
    assert forall i: nat :: i <= |s.calls| ==> Late(s.calls, i) + Waiting(s.pending, i) <= k;
    WindowIsBounded(s.calls, limit, k, lo, hi, last, s.clock);
  }

  /** One request at a time, the limit is the bound. */
  lemma HourIsBoundedInSequence(limit: int, run: seq<Event>, lo: nat, hi: nat)
    requires limit > 0 && Narrow(limit, run, 1)
    requires lo < hi <= |After(limit, run).calls|
    requires After(limit, run).calls[hi - 1].at - After(limit, run).calls[lo].at < 3600 * 1_000_000
    ensures hi - lo <= limit
  {
    HourIsBounded(limit, run, 1, lo, hi);
  }

  // The bound is reached.

  ghost predicate AtOnce(s: State, calls: nat, pending: nat) {
    && s.clock == 0 && |s.calls| == calls && |s.pending| == pending
    && forall i :: 0 <= i < calls ==> s.calls[i].at == 0
  }

  lemma OneMore(limit: int, run: seq<Event>, k: nat, e: Event, calls: nat, pending: nat)
    requires Narrow(limit, run, k) && AtOnce(After(limit, run), calls, pending) && pending <= k
    ensures e == Check && calls < limit && pending < k
      ==> Narrow(limit, run + [e], k) && AtOnce(After(limit, run + [e]), calls, pending + 1)
    ensures e == Record(0) && pending > 0
      ==> Narrow(limit, run + [e], k) && AtOnce(After(limit, run + [e]), calls + 1, pending - 1)
  {
    assert (run + [e])[..|run|] == run;
    UsedIsSuffix(After(limit, run).calls, 0, 0, 0);
  }

  /** For every limit and every k there is a run that makes limit + k - 1 calls in one instant. */
  lemma HourCanBeFull(limit: nat, k: nat) returns (run: seq<Event>)
    requires limit > 0 && k > 0
    ensures Narrow(limit, run, k) && AtOnce(After(limit, run), limit + k - 1, 0)
  {
    run := [];
    for i := 0 to limit - 1
      invariant Narrow(limit, run, k) && AtOnce(After(limit, run), i, 0)
    {
      OneMore(limit, run, k, Check, i, 0);
      OneMore(limit, run + [Check], k, Record(0), i, 1);
      run := run + [Check] + [Record(0)];
    }
    for i := 0 to k
      invariant Narrow(limit, run, k) && AtOnce(After(limit, run), limit - 1, i)
    {
      OneMore(limit, run, k, Check, limit - 1, i);
      run := run + [Check];
    }
    for i := 0 to k
      invariant Narrow(limit, run, k) && AtOnce(After(limit, run), limit - 1 + i, k - i)
    {
      OneMore(limit, run, k, Record(0), limit - 1 + i, k - i);
      run := run + [Record(0)];
    }
  }

  // The wait told can be too short.

  /** One call at the start, n half an hour later, and one request still waiting that was checked at the start. */
  ghost predicate HalfAnHourOn(s: State, n: nat) {
    && s.clock == HOUR / 2 && |s.calls| == n + 1 && |s.pending| == 1
    && s.calls[0].at == 0
    && forall i :: 0 < i <= n ==> s.calls[i].at == HOUR / 2
  }

  lemma OneStep(limit: int, run: seq<Event>, k: nat, e: Event)
    requires Narrow(limit, run, k) && |Next(After(limit, run), limit, e).pending| <= k
    ensures After(limit, run + [e]) == Next(After(limit, run), limit, e) && Narrow(limit, run + [e], k)
  {
    assert (run + [e])[..|run|] == run;
  }

  lemma HalfAnHour(limit: nat) returns (run: seq<Event>)
    requires limit > 0
    ensures Narrow(limit, run, 2) && HalfAnHourOn(After(limit, run), 0)
  {
    OneMore(limit, [], 2, Check, 0, 0);
    assert [] + [Check] == [Check];
    OneStep(limit, [Check], 2, Check);
    OneStep(limit, [Check] + [Check], 2, Record(0));
    run := [Check] + [Check] + [Record(0)];
    OneStep(limit, run, 2, Wait(HOUR / 2));
    run := run + [Wait(HOUR / 2)];
  }

  /** One more call while the old request waits. */
  lemma OneMoreBeside(limit: int, run: seq<Event>, n: nat)
    requires Narrow(limit, run, 2) && HalfAnHourOn(After(limit, run), n) && n + 1 < limit
    ensures Narrow(limit, run + [Check] + [Record(1)], 2)
    ensures HalfAnHourOn(After(limit, run + [Check] + [Record(1)]), n + 1)
  {
    UsedIsSuffix(After(limit, run).calls, HOUR / 2, HOUR / 2, 0);
    OneStep(limit, run, 2, Check);
    OneStep(limit, run + [Check], 2, Record(1));
  }

  /**
   * For every limit some run, with two requests at most between check and record, refuses a caller who is then refused
   * again after waiting as told, with nobody else calling.
   */
  lemma RetryAfterCanBeTooShort(limit: nat) returns (run: seq<Event>)
    requires limit > 0
    ensures Narrow(limit, run, 2)
    ensures var s := After(limit, run);
            && Refusal(s.calls, limit, s.clock, s.clock).Some?
            && var again := s.clock + Refusal(s.calls, limit, s.clock, s.clock).value * SECOND;
               Refusal(s.calls, limit, again, again).Some?
  {
    run := HalfAnHour(limit);
    for n := 0 to limit - 1
      invariant Narrow(limit, run, 2) && HalfAnHourOn(After(limit, run), n)
    {
      OneMoreBeside(limit, run, n);
      run := run + [Check] + [Record(1)];
    }
    OneStep(limit, run, 2, Record(0));
    run := run + [Record(0)];
    var s := After(limit, run);
    UsedIsSuffix(s.calls, s.clock, s.clock, 0);
    WaitIsEnoughExactly(s.calls, limit, s.clock, s.clock, s.clock + Refusal(s.calls, limit, s.clock, s.clock).value * SECOND);
  }

  // The steps as the handlers take them.

  /** One account's side of the audit log, and the requests in flight. */
  class Account {
    const limit: int
    var clock: int
    var calls: seq<Call>
    var pending: seq<Ticket>

    function View(): State
      reads this
    {
      State(clock, calls, pending)
    }

    constructor (limit: int)
      ensures View() == START && this.limit == limit
    {
      this.limit := limit;
      clock, calls, pending := 0, [], [];
    }

    /** The check a handler makes before it builds its prompt. */
    method WithinBudget() returns (wait: Option<int>)
      modifies `pending
      ensures View() == Next(old(View()), limit, Check)
      ensures wait.Some? <==> 0 < limit <= Used(calls, clock)
      ensures wait.Some? ==> wait.value > 0
    {
      wait := Refusal(calls, limit, clock, clock);
      if wait.None? {
        pending := pending + [Ticket(clock, |calls|)];
      }
    }

    /** The record it makes as the call goes out. */
    method RecordCall(which: nat)
      requires which < |pending|
      modifies `calls, `pending
      ensures View() == Next(old(View()), limit, Record(which))
      ensures Used(calls, clock) == Used(old(calls), clock) + 1
    {
      ghost var before := calls;
      calls := calls + [Call(clock, pending[which])];
      assert calls[..|before|] == before;
      pending := Without(pending, which);
    }
  }
}
