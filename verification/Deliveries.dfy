/** The queue of outbound notifications: scheduling, and passes of at most fifty attempts (internal/httpapi/notifications.go). */
module Deliveries {

  const BATCH := 50
  const MOST := 5

  datatype Adapter = Adapter(name: string, enabled: bool)

  /** A notification_deliveries row; the table is held in its fixed order of creation. */
  datatype Row = Row(notification: nat, adapter: string, delivered: bool, attempts: nat)

  predicate IsOn(adapter: Adapter) { adapter.enabled && adapter.name != "" }

  /** The names the batch is selected by. */
  function Active(adapters: seq<Adapter>): (names: set<string>)
    ensures forall name :: name in names <==> exists i :: 0 <= i < |adapters| && IsOn(adapters[i]) && adapters[i].name == name
  {
    set i | 0 <= i < |adapters| && IsOn(adapters[i]) :: adapters[i].name
  }

  /** The adapter of a name; the last of several wins. */
  function ByName(adapters: seq<Adapter>): map<string, Adapter> {
    if adapters == [] then map[]
    else
      var last := adapters[|adapters| - 1];
      ByName(adapters[..|adapters| - 1])[last.name := last]
  }

  predicate Live(adapters: seq<Adapter>, name: string) {
    name in ByName(adapters) && ByName(adapters)[name].enabled
  }

  /** No enabled adapter is followed by a disabled one of its name; distinct names are enough. */
  predicate Consistent(adapters: seq<Adapter>) {
    forall name :: name in Active(adapters) ==> Live(adapters, name)
  }

  lemma {:induction false} DistinctIsConsistent(adapters: seq<Adapter>)
    requires forall i, j :: 0 <= i < j < |adapters| ==> adapters[i].name != adapters[j].name
    ensures forall i :: 0 <= i < |adapters| ==> adapters[i].name in ByName(adapters) && ByName(adapters)[adapters[i].name] == adapters[i]
    ensures Consistent(adapters)
  {
    if adapters != [] {
      DistinctIsConsistent(adapters[..|adapters| - 1]);
      assert forall i :: 0 <= i < |adapters| - 1 ==> adapters[..|adapters| - 1][i] == adapters[i];
    }
  }

  // One pass.

  predicate Eligible(row: Row, active: set<string>) { !row.delivered && row.attempts < MOST && row.adapter in active }

  function Eligibles(rows: seq<Row>, active: set<string>): nat {
    if rows == [] then 0
    else Eligibles(rows[..|rows| - 1], active) + if Eligible(rows[|rows| - 1], active) then 1 else 0
  }

  /** The row at k is in the batch. */
  predicate Selected(rows: seq<Row>, active: set<string>, k: nat)
    requires k < |rows|
  {
    Eligible(rows[k], active) && Eligibles(rows[..k], active) < BATCH
  }

  function Attempted(row: Row, ok: bool): Row {
    row.(attempts := row.attempts + 1, delivered := row.delivered || ok)
  }

  /** The table after a pass; ok holds the positions whose delivery succeeds. */
  function Pass(rows: seq<Row>, adapters: seq<Adapter>, ok: set<nat>): (after: seq<Row>)
    ensures |after| == |rows|
  {
    seq(|rows|, k requires 0 <= k < |rows| =>
      if Selected(rows, Active(adapters), k) && Live(adapters, rows[k].adapter) then Attempted(rows[k], k in ok) else rows[k])
  }

  // A pass, row by row.

  /** Not delivered, tried fewer than five times, and some adapter of its name is on. */
  predicate Waits(row: Row, adapters: seq<Adapter>) {
    && !row.delivered && row.attempts < 5
    && exists i :: 0 <= i < |adapters| && adapters[i].enabled && adapters[i].name != "" && adapters[i].name == row.adapter
  }

  /** The last adapter of the name is on. */
  predicate LastIsOn(adapters: seq<Adapter>, name: string) {
    exists i :: 0 <= i < |adapters| && adapters[i].name == name && adapters[i].enabled
                && forall j :: i < j < |adapters| ==> adapters[j].name != name
  }

  lemma {:induction false} LiveExactly(adapters: seq<Adapter>, name: string)
    ensures Live(adapters, name) <==> LastIsOn(adapters, name)
    ensures name in ByName(adapters) <==> exists i :: 0 <= i < |adapters| && adapters[i].name == name
  {
    if adapters != [] {
      var n := |adapters| - 1;
      LiveExactly(adapters[..n], name);
      assert forall i :: 0 <= i < n ==> adapters[..n][i] == adapters[i];
      if adapters[n].name == name {
        assert LastIsOn(adapters, name) <==> adapters[n].enabled;
      } else if LastIsOn(adapters[..n], name) {
        var i :| 0 <= i < n && adapters[..n][i].name == name && adapters[..n][i].enabled
                 && forall j :: i < j < n ==> adapters[..n][j].name != name;
        assert adapters[i].name == name && adapters[i].enabled;
        assert forall j :: i < j < n ==> adapters[..n][j] == adapters[j];
      }
    }
  }

  lemma WaitsExactly(row: Row, adapters: seq<Adapter>)
    ensures Eligible(row, Active(adapters)) <==> Waits(row, adapters)
  {
  }

  function WaitingAhead(rows: seq<Row>, adapters: seq<Adapter>, k: nat): set<nat>
    requires k <= |rows|
  {
    set j | 0 <= j < k && Waits(rows[j], adapters)
  }

  lemma {:induction false} EligiblesExactly(rows: seq<Row>, adapters: seq<Adapter>, k: nat)
    requires k <= |rows|
    ensures Eligibles(rows[..k], Active(adapters)) == |WaitingAhead(rows, adapters, k)|
    decreases k
  {
    hide Waits, Active, Eligible;
    if k > 0 {
      EligiblesExactly(rows, adapters, k - 1);
      assert rows[..k][..k - 1] == rows[..k - 1];
      WaitsExactly(rows[k - 1], adapters);
      assert WaitingAhead(rows, adapters, k)
             == WaitingAhead(rows, adapters, k - 1) + if Waits(rows[k - 1], adapters) then {k - 1} else {};
    }
  }

  /**
   * A pass tries exactly the first fifty waiting rows whose name's last adapter is on: each of them counts one more
   * attempt and is delivered if the adapter took it. Every other row stays as it is.
   */
  lemma PassExactly(rows: seq<Row>, adapters: seq<Adapter>, ok: set<nat>, k: nat)
    requires k < |rows|
    ensures Pass(rows, adapters, ok)[k]
            == if Waits(rows[k], adapters) && |WaitingAhead(rows, adapters, k)| < 50 && LastIsOn(adapters, rows[k].adapter)
               then Row(rows[k].notification, rows[k].adapter, k in ok, rows[k].attempts + 1)
               else rows[k]
  {
    hide Waits, Active, Eligible, LastIsOn, Live, Eligibles;
    WaitsExactly(rows[k], adapters);
    EligiblesExactly(rows, adapters, k);
    LiveExactly(adapters, rows[k].adapter);
    NotYet(rows[k], adapters);
  }

  lemma NotYet(row: Row, adapters: seq<Adapter>)
    ensures Waits(row, adapters) ==> !row.delivered
  {
  }

  /** The configurations that never stall the queue: whatever name has an adapter that is on, its last one is on. */
  lemma ConsistentExactly(adapters: seq<Adapter>)
    ensures Consistent(adapters) <==>
            forall i :: 0 <= i < |adapters| && adapters[i].enabled && adapters[i].name != "" ==> LastIsOn(adapters, adapters[i].name)
  {
    hide LastIsOn, Live;
    forall name ensures Live(adapters, name) <==> LastIsOn(adapters, name) {
      LiveExactly(adapters, name);
    }
    assert forall i :: 0 <= i < |adapters| && IsOn(adapters[i]) ==> adapters[i].name in Active(adapters);
  }

  /** Untouched rows: delivered, spent, or of an adapter that is not on. */
  lemma OthersAreUntouched(rows: seq<Row>, adapters: seq<Adapter>, ok: set<nat>, k: nat)
    requires k < |rows| && !Eligible(rows[k], Active(adapters))
    ensures Pass(rows, adapters, ok)[k] == rows[k]
  {
  }

  /** With fewer than a batch of eligible rows before it, an eligible row is attempted. */
  lemma FrontIsAttempted(rows: seq<Row>, adapters: seq<Adapter>, ok: set<nat>, k: nat)
    requires Consistent(adapters) && k < |rows| && Eligible(rows[k], Active(adapters))
    requires Eligibles(rows[..k], Active(adapters)) < BATCH
    ensures Pass(rows, adapters, ok)[k] == Row(rows[k].notification, rows[k].adapter, k in ok, rows[k].attempts + 1)
  {
  }

  /** If only rows that stood at place m of the queue or behind it still wait, at most the rest of the queue does. */
  lemma {:induction false} FewEligibles(before: seq<Row>, now: seq<Row>, active: set<string>, m: nat)
    requires |before| == |now|
    requires forall i :: 0 <= i < |now| && Eligible(now[i], active) ==>
      Eligible(before[i], active) && Eligibles(before[..i], active) >= m
    ensures Eligibles(now, active) == 0 || Eligibles(now, active) + m <= Eligibles(before, active)
  {
    if now != [] {
      var n := |now| - 1;
      assert forall i :: 0 <= i < n ==> before[..n][..i] == before[..i];
      FewEligibles(before[..n], now[..n], active, m);
    }
  }

  lemma {:induction false} FirstEligible(rows: seq<Row>, active: set<string>, k: nat) returns (first: nat)
    requires k < |rows| && Eligible(rows[k], active)
    ensures first <= k && Eligible(rows[first], active) && Eligibles(rows[..first], active) == 0
  {
    first := 0;
    while !Eligible(rows[first], active)
      invariant first <= k && Eligibles(rows[..first], active) == 0
      decreases k - first
    {
      assert rows[..first + 1][..first] == rows[..first];
      first := first + 1;
    }
  }

  /** A pass over waiting rows always attempts one of them, for every table, exactly when the configuration is consistent. */
  ghost predicate NeverStalls(adapters: seq<Adapter>) {
    forall rows, ok, k :: 0 <= k < |rows| && Eligible(rows[k], Active(adapters)) ==> Pass(rows, adapters, ok) != rows
  }

  lemma NeverStallsExactly(adapters: seq<Adapter>)
    ensures NeverStalls(adapters) <==> Consistent(adapters)
  {
    if Consistent(adapters) {
      forall rows, ok, k | 0 <= k < |rows| && Eligible(rows[k], Active(adapters)) ensures Pass(rows, adapters, ok) != rows {
        var first := FirstEligible(rows, Active(adapters), k);
        FrontIsAttempted(rows, adapters, ok, first);
      }
    } else {
      var name :| name in Active(adapters) && !Live(adapters, name);
      var rows := [Row(0, name, false, 0)];
      assert Eligible(rows[0], Active(adapters));
      assert Pass(rows, adapters, {}) == rows;
    }
  }

  // Runs.

  /** A pass, or rows added at the end by scheduling. */
  datatype Event = Dispatch(ok: set<nat>) | Enqueue(more: seq<Row>)

  function Next(rows: seq<Row>, adapters: seq<Adapter>, e: Event): seq<Row> {
    match e
    case Dispatch(ok) => Pass(rows, adapters, ok)
    case Enqueue(more) => rows + more
  }

  function After(rows: seq<Row>, adapters: seq<Adapter>, run: seq<Event>): (after: seq<Row>)
    ensures |after| >= |rows|
  {
    if run == [] then rows else Next(After(rows, adapters, run[..|run| - 1]), adapters, run[|run| - 1])
  }

  function Passes(run: seq<Event>): nat {
    if run == [] then 0 else Passes(run[..|run| - 1]) + if run[|run| - 1].Dispatch? then 1 else 0
  }

  /** A row keeps its notification and adapter, its attempts only grow and not past five, and once delivered it stays as it is. */
  lemma {:induction false} RowsOnlyAdvance(rows: seq<Row>, adapters: seq<Adapter>, run: seq<Event>, k: nat)
    requires k < |rows|
    ensures var row := After(rows, adapters, run)[k];
            && row.notification == rows[k].notification && row.adapter == rows[k].adapter
            && row.attempts <= (if rows[k].attempts <= 5 then 5 else rows[k].attempts)
            && (row == rows[k] || row.attempts > rows[k].attempts)
            && (rows[k].delivered || rows[k].adapter !in Active(adapters) ==> row == rows[k])
  {
    if run != [] {
      RowsOnlyAdvance(rows, adapters, run[..|run| - 1], k);
    }
  }

  /** The waiting rows ahead of row k: its place in the queue, whatever the table holds besides. */
  function Ahead(rows: seq<Row>, adapters: seq<Adapter>, k: nat): nat
    requires k < |rows|
  {
    Eligibles(rows[..k], Active(adapters))
  }

  lemma {:induction false} SettledStays(rows: seq<Row>, adapters: seq<Adapter>, run: seq<Event>, k: nat)
    requires k < |rows| && !Eligible(rows[k], Active(adapters))
    ensures !Eligible(After(rows, adapters, run)[k], Active(adapters))
  {
    RowsOnlyAdvance(rows, adapters, run, k);
  }

  /** After five passes for every fifty places, the front of the queue is settled. */
  lemma {:induction false} BlocksSettle(rows: seq<Row>, adapters: seq<Adapter>, run: seq<Event>, k: nat)
    requires Consistent(adapters) && k < |rows| && Passes(run) >= MOST * (Ahead(rows, adapters, k) / BATCH + 1)
    ensures !Eligible(After(rows, adapters, run)[k], Active(adapters))
  {
    if Eligible(rows[k], Active(adapters)) {
      AttemptsByPasses(rows, adapters, run, k, Passes(run) - MOST * (Ahead(rows, adapters, k) / BATCH));
    } else {
      SettledStays(rows, adapters, run, k);
    }
  }

  /** From the pass its block comes to the front, a row is attempted in every pass until it is settled. */
  lemma {:induction false} AttemptsByPasses(rows: seq<Row>, adapters: seq<Adapter>, run: seq<Event>, k: nat, n: nat)
    requires Consistent(adapters) && k < |rows| && Passes(run) == MOST * (Ahead(rows, adapters, k) / BATCH) + n
    ensures !Eligible(After(rows, adapters, run)[k], Active(adapters))
            || After(rows, adapters, run)[k].attempts >= rows[k].attempts + n
    decreases Ahead(rows, adapters, k) / BATCH, |run|, 1
  {
    if run != [] && n > 0 {
      var front, e := run[..|run| - 1], run[|run| - 1];
      if e.Enqueue? {
        AttemptsByPasses(rows, adapters, front, k, n);
      } else {
        AttemptsByPasses(rows, adapters, front, k, n - 1);
        var before := After(rows, adapters, front);
        FrontIsReached(rows, adapters, front, k);
        if Eligible(before[k], Active(adapters)) {
          FrontIsAttempted(before, adapters, e.ok, k);
        }
      }
    } else if run != [] {
      RowsOnlyAdvance(rows, adapters, run, k);
    }
  }

  /** Once the earlier blocks have had their passes, fewer than a batch wait ahead of row k. */
  lemma {:induction false} FrontIsReached(rows: seq<Row>, adapters: seq<Adapter>, run: seq<Event>, k: nat)
    requires Consistent(adapters) && k < |rows| && Passes(run) >= MOST * (Ahead(rows, adapters, k) / BATCH)
    ensures Eligibles(After(rows, adapters, run)[..k], Active(adapters)) < BATCH
    decreases Ahead(rows, adapters, k) / BATCH, |run|, 0
  {
    var now, active, block := After(rows, adapters, run), Active(adapters), Ahead(rows, adapters, k) / BATCH;
    forall i | 0 <= i < k && Eligible(now[i], active)
      ensures Eligible(rows[i], active) && Eligibles(rows[..i], active) >= BATCH * block
    {
      if !Eligible(rows[i], active) {
        SettledStays(rows, adapters, run, i);
      } else if Ahead(rows, adapters, i) < BATCH * block {
        AttemptsByPasses(rows, adapters, run, i, Passes(run) - MOST * (Ahead(rows, adapters, i) / BATCH));
      }
    }
    assert forall i :: 0 <= i < k ==> rows[..k][..i] == rows[..i];
    FewEligibles(rows[..k], now[..k], active, BATCH * block);
  }

  /** A row with q waiting rows ahead of it is attempted within 5 * (q / 50) + 1 passes, whatever is scheduled behind it. */
  lemma AttemptedInTime(rows: seq<Row>, adapters: seq<Adapter>, run: seq<Event>, k: nat)
    requires Consistent(adapters) && k < |rows| && Waits(rows[k], adapters)
    requires Passes(run) >= 5 * (|WaitingAhead(rows, adapters, k)| / 50) + 1
    ensures After(rows, adapters, run)[k].attempts > rows[k].attempts
  {
    WaitsExactly(rows[k], adapters);
    EligiblesExactly(rows, adapters, k);
    hide Eligible, Active, Waits;
    RowsOnlyAdvance(rows, adapters, run, k);
    AttemptsByPasses(rows, adapters, run, k, Passes(run) - MOST * (Ahead(rows, adapters, k) / BATCH));
  }

  // The measure.

  /** The attempts the table can still use up. */
  function Remaining(rows: seq<Row>, active: set<string>): nat {
    if rows == [] then 0
    else
      var last := rows[|rows| - 1];
      Remaining(rows[..|rows| - 1], active) + if Eligible(last, active) then MOST - last.attempts else 0
  }

  /** n passes with nothing scheduled between them; ok(i) says what succeeds in pass i. */
  function Drain(rows: seq<Row>, adapters: seq<Adapter>, oks: seq<set<nat>>): (after: seq<Row>)
    ensures |after| == |rows|
  {
    if oks == [] then rows else Pass(Drain(rows, adapters, oks[..|oks| - 1]), adapters, oks[|oks| - 1])
  }

  predicate UsesOne(before: Row, after: Row, active: set<string>) {
    Eligible(before, active) && after.adapter == before.adapter && after.attempts == before.attempts + 1
  }

  lemma {:induction false} RemainingCompares(before: seq<Row>, after: seq<Row>, active: set<string>)
    requires |before| == |after|
    requires forall i :: 0 <= i < |before| ==> after[i] == before[i] || UsesOne(before[i], after[i], active)
    ensures Remaining(after, active) <= Remaining(before, active)
    ensures before != after ==> Remaining(after, active) < Remaining(before, active)
  {
    if before != [] {
      var n := |before| - 1;
      RemainingCompares(before[..n], after[..n], active);
      if before[..n] == after[..n] && before[n] == after[n] {
        assert before == before[..n] + [before[n]] == after;
      }
    }
  }

  lemma PassUsesUp(rows: seq<Row>, adapters: seq<Adapter>, ok: set<nat>)
    ensures Remaining(Pass(rows, adapters, ok), Active(adapters)) <= Remaining(rows, Active(adapters))
    ensures Pass(rows, adapters, ok) != rows
      ==> Remaining(Pass(rows, adapters, ok), Active(adapters)) < Remaining(rows, Active(adapters))
  {
    RemainingCompares(rows, Pass(rows, adapters, ok), Active(adapters));
  }

  /** As many passes as attempts remain leave nothing waiting. */
  lemma {:induction false} DrainEmpties(rows: seq<Row>, adapters: seq<Adapter>, oks: seq<set<nat>>)
    requires Consistent(adapters)
    ensures Remaining(Drain(rows, adapters, oks), Active(adapters)) + |oks| <= Remaining(rows, Active(adapters))
            || Remaining(Drain(rows, adapters, oks), Active(adapters)) == 0
    ensures |oks| >= Remaining(rows, Active(adapters)) ==> Remaining(Drain(rows, adapters, oks), Active(adapters)) == 0
  {
    if oks != [] {
      var before := Drain(rows, adapters, oks[..|oks| - 1]);
      DrainEmpties(rows, adapters, oks[..|oks| - 1]);
      PassUsesUp(before, adapters, oks[|oks| - 1]);
      if Remaining(before, Active(adapters)) > 0 {
        NeverStallsExactly(adapters);
        var k := SomeEligible(before, Active(adapters));
      }
    }
  }

  lemma {:induction false} RemainingIsWithin(rows: seq<Row>, active: set<string>)
    ensures Remaining(rows, active) <= MOST * |rows|
    ensures Remaining(rows, active) == 0 ==> forall k :: 0 <= k < |rows| ==> !Eligible(rows[k], active)
  {
    if rows != [] {
      RemainingIsWithin(rows[..|rows| - 1], active);
      assert forall k :: 0 <= k < |rows| - 1 ==> rows[..|rows| - 1][k] == rows[k];
    }
  }

  /** Five passes for every row of the table leave nothing waiting. */
  lemma DrainsInTime(rows: seq<Row>, adapters: seq<Adapter>, oks: seq<set<nat>>, k: nat)
    requires Consistent(adapters) && |oks| >= 5 * |rows| && k < |rows|
    ensures !Waits(Drain(rows, adapters, oks)[k], adapters)
  {
    var after := Drain(rows, adapters, oks);
    RemainingIsWithin(rows, Active(adapters));
    RemainingIsWithin(after, Active(adapters));
    DrainEmpties(rows, adapters, oks);
    WaitsExactly(after[k], adapters);
  }

  lemma {:induction false} SomeEligible(rows: seq<Row>, active: set<string>) returns (k: nat)
    requires Remaining(rows, active) > 0
    ensures k < |rows| && Eligible(rows[k], active)
  {
    k := |rows| - 1;
    if !Eligible(rows[k], active) {
      k := SomeEligible(rows[..k], active);
    }
  }

  // Scheduling.

  predicate Has(rows: seq<Row>, notification: nat, adapter: string) {
    exists i :: 0 <= i < |rows| && rows[i].notification == notification && rows[i].adapter == adapter
  }

  /** The rows one INSERT ... SELECT adds for an adapter: one for each notification that has none. */
  function Missing(rows: seq<Row>, notifications: seq<nat>, adapter: string): seq<Row> {
    if notifications == [] then []
    else
      var last := notifications[|notifications| - 1];
      Missing(rows, notifications[..|notifications| - 1], adapter) +
      if Has(rows, last, adapter) then [] else [Row(last, adapter, false, 0)]
  }

  predicate NoDuplicates(rows: seq<Row>) {
    forall i, j :: 0 <= i < j < |rows| ==> rows[i].notification != rows[j].notification || rows[i].adapter != rows[j].adapter
  }

  predicate DistinctIds(ids: seq<nat>) {
    forall i, j :: 0 <= i < j < |ids| ==> ids[i] != ids[j]
  }

  lemma {:induction false} MissingIsExact(rows: seq<Row>, notifications: seq<nat>, adapter: string)
    ensures forall row :: row in Missing(rows, notifications, adapter) <==>
            row.notification in notifications && row == Row(row.notification, adapter, false, 0)
            && !Has(rows, row.notification, adapter)
    ensures DistinctIds(notifications) ==> NoDuplicates(Missing(rows, notifications, adapter))
  {
    if notifications != [] {
      var front, last := notifications[..|notifications| - 1], notifications[|notifications| - 1];
      MissingIsExact(rows, front, adapter);
      assert forall x :: x in notifications <==> x in front || x == last;
      var before := Missing(rows, front, adapter);
      assert forall i :: 0 <= i < |before| ==> before[i] in before;
    }
  }

  /** Every notification gets its row. */
  lemma ScheduleIsComplete(rows: seq<Row>, notifications: seq<nat>, adapter: string, n: nat)
    requires n in notifications
    ensures Has(rows + Missing(rows, notifications, adapter), n, adapter)
  {
    MissingIsExact(rows, notifications, adapter);
    var missing := Missing(rows, notifications, adapter);
    if Has(rows, n, adapter) {
      HasIsKept(rows, missing, n, adapter);
    } else {
      assert Row(n, adapter, false, 0) in missing;
      var i :| 0 <= i < |missing| && missing[i] == Row(n, adapter, false, 0);
      assert (rows + missing)[|rows| + i] == missing[i];
    }
  }

  /** What a table with everything scheduled holds: a row for each notification and each adapter that is on. */
  lemma HasExactly(rows: seq<Row>, notifications: seq<nat>, adapters: seq<Adapter>, i: nat, n: nat)
    requires forall name, m :: name in Active(adapters) && m in notifications ==> Has(rows, m, name)
    requires i < |adapters| && adapters[i].enabled && adapters[i].name != "" && n in notifications
    ensures exists j :: 0 <= j < |rows| && rows[j].notification == n && rows[j].adapter == adapters[i].name
  {
    assert IsOn(adapters[i]) && adapters[i].name in Active(adapters);
    assert Has(rows, n, adapters[i].name);
  }

  /** What a scheduled row is: of a notification there is, for an adapter that is on, undelivered and not yet tried. */
  lemma IsNewExactly(row: Row, notifications: seq<nat>, adapters: seq<Adapter>)
    ensures IsNew(row, notifications, Active(adapters)) <==>
            && row.notification in notifications && !row.delivered && row.attempts == 0 && row.adapter != ""
            && exists i :: 0 <= i < |adapters| && adapters[i].enabled && adapters[i].name == row.adapter
  {
    assert forall i :: 0 <= i < |adapters| ==> (IsOn(adapters[i]) <==> adapters[i].enabled && adapters[i].name != "");
  }

  lemma HasIsKept(rows: seq<Row>, more: seq<Row>, n: nat, adapter: string)
    requires Has(rows, n, adapter)
    ensures Has(rows + more, n, adapter)
  {
    var i :| 0 <= i < |rows| && rows[i].notification == n && rows[i].adapter == adapter;
    assert (rows + more)[i] == rows[i];
  }

  /** And only one. */
  lemma ScheduleMakesNoDuplicates(rows: seq<Row>, notifications: seq<nat>, adapter: string)
    requires DistinctIds(notifications) && NoDuplicates(rows)
    ensures NoDuplicates(rows + Missing(rows, notifications, adapter))
  {
    MissingIsExact(rows, notifications, adapter);
    var missing := Missing(rows, notifications, adapter);
    var after := rows + missing;
    forall i, j | 0 <= i < |rows| <= j < |after|
      ensures after[i].notification != after[j].notification || after[i].adapter != after[j].adapter
    {
      assert after[j] in missing && !Has(rows, after[j].notification, adapter);
    }
  }

  // The batch as the query answers it.

  /** The positions selected among the first n rows. */
  function Batch(rows: seq<Row>, active: set<string>, n: nat): (batch: seq<nat>)
    requires n <= |rows|
    ensures |batch| == if Eligibles(rows[..n], active) < BATCH then Eligibles(rows[..n], active) else BATCH
    ensures forall i, j :: 0 <= i < j < |batch| ==> batch[i] < batch[j]
    ensures forall k: nat :: k in batch <==> k < n && Selected(rows, active, k)
  {
    if n == 0 then
      assert rows[..0] == [];
      []
    else
      assert rows[..n][..n - 1] == rows[..n - 1];
      var before := Batch(rows, active, n - 1);
      assert forall i :: 0 <= i < |before| ==> before[i] in before;
      if Eligible(rows[n - 1], active) && |before| < BATCH then before + [n - 1] else before
  }

  class Queue {
    var notifications: seq<nat>
    var rows: seq<Row>

    ghost predicate Valid()
      reads this
    {
      && DistinctIds(notifications)
      && NoDuplicates(rows)
      && forall i :: 0 <= i < |rows| ==> rows[i].attempts <= MOST
    }

    constructor ()
      ensures Valid() && rows == [] && notifications == []
    {
      notifications, rows := [], [];
    }

    /** The earlier parts of scheduling add notifications; a repeated one is not added again. */
    method Notify(id: nat)
      requires Valid()
      modifies `notifications
      ensures Valid()
      ensures notifications == if id in old(notifications) then old(notifications) else old(notifications) + [id]
    {
      if id !in notifications {
        notifications := notifications + [id];
      }
    }

    /** The last part of scheduling: delivery rows for the adapters that are on. */
    method Schedule(adapters: seq<Adapter>)
      requires Valid()
      modifies `rows
      ensures Valid()
      ensures old(rows) <= rows
      ensures forall j :: |old(rows)| <= j < |rows| ==> IsNew(rows[j], notifications, Active(adapters))
      ensures forall name, n :: name in Active(adapters) && n in notifications ==> Has(rows, n, name)
    {
      for i := 0 to |adapters|
        invariant Valid()
        invariant old(rows) <= rows
        invariant forall j :: |old(rows)| <= j < |rows| ==> IsNew(rows[j], notifications, Active(adapters))
        invariant forall j, n :: 0 <= j < i && IsOn(adapters[j]) && n in notifications ==> Has(rows, n, adapters[j].name)
      {
        if adapters[i].enabled && adapters[i].name != "" {
          assert IsOn(adapters[i]);
          Insert(adapters[i].name);
        }
      }
    }

    method Insert(adapter: string)
      requires Valid()
      modifies `rows
      ensures Valid()
      ensures rows == old(rows) + Missing(old(rows), notifications, adapter)
      ensures forall j :: |old(rows)| <= j < |rows| ==> IsNew(rows[j], notifications, {adapter})
      ensures forall n :: n in notifications ==> Has(rows, n, adapter)
      ensures forall n, name :: Has(old(rows), n, name) ==> Has(rows, n, name)
    {
      var missing := Missing(rows, notifications, adapter);
      ScheduleMakesNoDuplicates(rows, notifications, adapter);
      MissingIsExact(rows, notifications, adapter);
      forall n | n in notifications ensures Has(rows + missing, n, adapter) {
        ScheduleIsComplete(rows, notifications, adapter, n);
      }
      forall n, name | Has(rows, n, name) ensures Has(rows + missing, n, name) {
        HasIsKept(rows, missing, n, name);
      }
      assert forall i :: |rows| <= i < |rows + missing| ==> (rows + missing)[i] in missing;
      rows := rows + missing;
    }

    /** One pass; ok holds the positions whose delivery would succeed. */
    method Dispatch(adapters: seq<Adapter>, ok: set<nat>)
      requires Valid()
      modifies `rows
      ensures Valid()
      ensures rows == Pass(old(rows), adapters, ok)
    {
      var byName, active := ReadAdapters(adapters);
      if active == {} {
        assert rows == Pass(rows, adapters, ok);
        return;
      }
      var batch := Batch(rows, active, |rows|);
      assert forall i :: 0 <= i < |batch| ==> batch[i] in batch;
      Deliver(batch, byName, ok);
      assert rows == Pass(old(rows), adapters, ok);
    }

    method Deliver(batch: seq<nat>, byName: map<string, Adapter>, ok: set<nat>)
      requires forall i, j :: 0 <= i < j < |batch| ==> batch[i] < batch[j]
      requires forall i :: 0 <= i < |batch| ==> batch[i] < |rows|
      modifies `rows
      ensures |rows| == |old(rows)|
      ensures forall k :: 0 <= k < |rows| ==>
        rows[k] == if k in batch then Tried(old(rows)[k], byName, k in ok) else old(rows)[k]
    {
      ghost var before := rows;
      for i := 0 to |batch|
        invariant |rows| == |before|
        invariant forall k :: 0 <= k < |rows| ==>
          rows[k] == if k in batch[..i] then Tried(before[k], byName, k in ok) else before[k]
      {
        var k := batch[i];
        assert forall x :: x in batch[..i + 1] <==> x in batch[..i] || x == k;
        if rows[k].adapter in byName && byName[rows[k].adapter].enabled {
          rows := rows[k := Attempted(rows[k], k in ok)];
        }
      }
      assert batch[..|batch|] == batch;
    }
  }

  /** A row of the batch: skipped when the adapter of its name is off after all. */
  function Tried(row: Row, byName: map<string, Adapter>, ok: bool): Row {
    if row.adapter in byName && byName[row.adapter].enabled then Attempted(row, ok) else row
  }

  method ReadAdapters(adapters: seq<Adapter>) returns (byName: map<string, Adapter>, active: set<string>)
    ensures byName == ByName(adapters) && active == Active(adapters)
  {
    byName, active := map[], {};
    for i := 0 to |adapters|
      invariant byName == ByName(adapters[..i]) && active == Active(adapters[..i])
    {
      assert adapters[..i + 1][..i] == adapters[..i];
      ActiveAdds(adapters[..i], adapters[i]);
      assert adapters[..i + 1] == adapters[..i] + [adapters[i]];
      byName := byName[adapters[i].name := adapters[i]];
      if adapters[i].enabled && adapters[i].name != "" {
        active := active + {adapters[i].name};
      }
    }
    assert adapters[..|adapters|] == adapters;
  }

  predicate IsNew(row: Row, notifications: seq<nat>, names: set<string>) {
    row.notification in notifications && row.adapter in names && !row.delivered && row.attempts == 0
  }

  lemma ActiveAdds(adapters: seq<Adapter>, adapter: Adapter)
    ensures Active(adapters + [adapter]) == Active(adapters) + if IsOn(adapter) then {adapter.name} else {}
  {
    var all := adapters + [adapter];
    assert all[|adapters|] == adapter;
    assert forall i :: 0 <= i < |adapters| ==> all[i] == adapters[i];
  }
}
