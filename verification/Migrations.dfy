/** Replicas that migrate one database under an advisory lock (internal/db/db.go). */
module Migrations {
  import opened Common

  datatype Entry = Entry(name: string, isDir: bool)

  predicate IsScript(e: Entry) { !e.isDir && HasSuffix(e.name, ".sql") }

  // One replica's pass, as the loop makes it.

  predicate IsTodo(e: Entry, applied: seq<string>) { IsScript(e) && e.name !in applied }

  /** The scripts a pass has to apply, in the directory's order. */
  function Todo(entries: seq<Entry>, applied: seq<string>): seq<string> {
    if entries == [] then []
    else
      var last := entries[|entries| - 1];
      Todo(entries[..|entries| - 1], applied) + if IsTodo(last, applied) then [last.name] else []
  }

  lemma {:induction false} TodoIsExact(entries: seq<Entry>, applied: seq<string>, name: string)
    ensures name in Todo(entries, applied) <==> exists e :: e in entries && IsTodo(e, applied) && e.name == name
  {
    if entries != [] {
      var front, last := entries[..|entries| - 1], entries[|entries| - 1];
      TodoIsExact(front, applied, name);
      assert forall e :: e in entries <==> e in front || e == last;
    }
  }

  /** What has to be applied is a file ending in .sql that is not recorded; a directory never. */
  lemma ScriptExactly(e: Entry, applied: seq<string>)
    ensures IsTodo(e, applied) <==> !e.isDir && e.name !in applied && exists front :: e.name == front + ".sql"
  {
    SuffixExactly(e.name, ".sql");
  }

  /** The scripts come in the order of the entries. */
  lemma {:induction false} TodoInOrder(entries: seq<Entry>, applied: seq<string>, i: nat, j: nat) returns (p: nat, q: nat)
    requires i < j < |Todo(entries, applied)|
    ensures p < q < |entries| && entries[p].name == Todo(entries, applied)[i] && entries[q].name == Todo(entries, applied)[j]
  {
    var n := |entries| - 1;
    var front := Todo(entries[..n], applied);
    if j < |front| {
      p, q := TodoInOrder(entries[..n], applied, i, j);
    } else {
      assert Todo(entries, applied)[i] == front[i] && front[i] in front;
      TodoIsExact(entries[..n], applied, front[i]);
      var e :| e in entries[..n] && IsTodo(e, applied) && e.name == front[i];
      p :| 0 <= p < n && entries[..n][p] == e;
      q := n;
    }
  }

  lemma {:induction false} TodoGrows(entries: seq<Entry>, applied: seq<string>, i: nat)
    requires i < |entries|
    ensures Todo(entries[..i], applied) <= Todo(entries[..i + 1], applied) <= Todo(entries, applied)
    decreases |entries| - i
  {
    assert entries[..i + 1][..i] == entries[..i];
    if i + 1 < |entries| {
      TodoGrows(entries, applied, i + 1);
    } else {
      assert entries[..i + 1] == entries;
    }
  }

  predicate DistinctEntries(entries: seq<Entry>) {
    forall i, j :: 0 <= i < j < |entries| ==> entries[i].name != entries[j].name
  }

  lemma NameIsNew(entries: seq<Entry>, applied: seq<string>, i: nat)
    requires i < |entries| && DistinctEntries(entries)
    ensures entries[i].name !in Todo(entries[..i], applied)
  {
    TodoIsExact(entries[..i], applied, entries[i].name);
  }

  class Database {
    var applied: seq<string>

    constructor ()
      ensures applied == []
    {
      applied := [];
    }

    /** good holds the scripts that run without an error. The entries come sorted by name. */
    method Migrate(entries: seq<Entry>, good: set<string>) returns (done: bool)
      requires DistinctEntries(entries)
      modifies this
      ensures done ==> applied == old(applied) + Todo(entries, old(applied))
      ensures !done ==> StoppedAt(Todo(entries, old(applied)), good, old(applied), applied)
      ensures done <==> forall script :: script in Todo(entries, old(applied)) ==> script in good
    {
      ghost var before := applied;
      for i := 0 to |entries|
        invariant applied == before + Todo(entries[..i], before)
        invariant forall script :: script in Todo(entries[..i], before) ==> script in good
      {
        assert entries[..i + 1][..i] == entries[..i];
        if entries[i].isDir || !HasSuffix(entries[i].name, ".sql") {
          continue;
        }
        NameIsNew(entries, before, i);
        if entries[i].name in applied {
          continue;
        }
        if entries[i].name !in good {
          TodoGrows(entries, before, i);
          ghost var n := |Todo(entries[..i], before)|;
          assert Todo(entries[..i + 1], before)[n] == entries[i].name;
          assert Todo(entries, before)[n] == entries[i].name && Todo(entries, before)[..n] == Todo(entries[..i], before);
          return false;
        }
        applied := applied + [entries[i].name];
      }
      assert entries[..|entries|] == entries;
      return true;
    }
  }

  /** The pass applied what came before the first script that fails, and nothing after it. */
  ghost predicate StoppedAt(todo: seq<string>, good: set<string>, before: seq<string>, after: seq<string>) {
    exists n :: 0 <= n < |todo| && todo[n] in todo && todo[n] !in good && after == before + todo[..n]
                && forall k :: 0 <= k < n ==> todo[k] in good
  }

  // Replicas at once.

  ghost predicate DistinctNames<N>(names: seq<N>) {
    forall i, j :: 0 <= i < j < |names| ==> names[i] != names[j]
  }

  /** Where a replica stands. In Running the transaction is open and the script not yet through. */
  datatype Phase =
    | Idle
    | Queued
    | Looking(at: nat)
    | Running(at: nat)
    | Written(at: nat)
    | Done
    | Failed

  /**
   * names is the newest release's sorted list. A replica's own list is the prefix of its length.
   * commits is history: the scripts whose transactions were committed, in order.
   */
  datatype State<N> = State(applied: seq<N>, commits: seq<N>, holder: Option<nat>, phase: map<nat, Phase>)

  datatype Action =
    | Start
    | Acquire
    | Look
    | RunScript(ok: bool)
    | Commit(ok: bool)
    | Release
    | Crash

  datatype Step = Step(replica: nat, action: Action)

  predicate Inside(p: Phase) { p.Looking? || p.Running? || p.Written? }

  /** A step that is not possible where the replica stands changes nothing. */
  ghost function Next<N>(names: seq<N>, lists: map<nat, nat>, s: State<N>, step: Step): State<N> {
    var r := step.replica;
    if r !in lists || lists[r] > |names| || r !in s.phase then s
    else
      var p := s.phase[r];
      match step.action
      case Start => if p == Idle then s.(phase := s.phase[r := Queued]) else s
      case Acquire =>
        if p == Queued && s.holder == None then s.(holder := Some(r), phase := s.phase[r := Looking(0)]) else s
      case Look =>
        if !p.Looking? then s
        else if p.at >= lists[r] then s.(phase := s.phase[r := Done])
        else if names[p.at] in s.applied then s.(phase := s.phase[r := Looking(p.at + 1)])
        else s.(phase := s.phase[r := Running(p.at)])
      case RunScript(ok) =>
        if !p.Running? then s else s.(phase := s.phase[r := if ok then Written(p.at) else Failed])
      case Commit(ok) =>
        if !p.Written? || p.at >= |names| then s
        else if !ok || names[p.at] in s.applied then s.(phase := s.phase[r := Failed])
        else s.(applied := s.applied + [names[p.at]], commits := s.commits + [names[p.at]], phase := s.phase[r := Looking(p.at + 1)])
      case Release =>
        if (p == Done || p == Failed) && s.holder == Some(r) then s.(holder := None) else s
      case Crash =>
        s.(holder := if s.holder == Some(r) then None else s.holder, phase := s.phase[r := Idle])
  }

  ghost function After<N>(names: seq<N>, lists: map<nat, nat>, start: State<N>, run: seq<Step>): State<N> {
    if run == [] then start else Next(names, lists, After(names, lists, start, run[..|run| - 1]), run[|run| - 1])
  }

  /** Nobody has started, and the scripts of some release have been applied. */
  ghost predicate Starts<N>(names: seq<N>, lists: map<nat, nat>, s: State<N>) {
    && s.applied <= names && s.commits == [] && s.holder == None
    && s.phase.Keys == lists.Keys
    && (forall r :: r in s.phase ==> s.phase[r] == Idle)
    && (forall r :: r in lists ==> lists[r] <= |names|)
  }

  /** The replica's place agrees with what is recorded. */
  ghost predicate InPlace<N>(names: seq<N>, length: nat, s: State<N>, r: nat)
    requires r in s.phase
  {
    match s.phase[r]
    case Looking(at) => s.holder == Some(r) && at <= length && at <= |s.applied|
    case Running(at) => s.holder == Some(r) && at < length && at == |s.applied|
    case Written(at) => s.holder == Some(r) && at < length && at == |s.applied|
    case Done => length <= |s.applied|
    case _ => true
  }

  ghost predicate Safe<N>(names: seq<N>, lists: map<nat, nat>, before: seq<N>, s: State<N>) {
    && s.phase.Keys == lists.Keys
    && s.applied <= names
    && s.applied == before + s.commits
    && forall r :: r in lists ==> lists[r] <= |names| && InPlace(names, lists[r], s, r)
  }

  lemma LookKeepsSafe<N>(names: seq<N>, lists: map<nat, nat>, before: seq<N>, s: State<N>, r: nat)
    requires DistinctNames(names) && Safe(names, lists, before, s)
    ensures Safe(names, lists, before, Next(names, lists, s, Step(r, Look)))
  {
    if r in lists && s.phase[r].Looking? && s.phase[r].at < lists[r] {
      var at := s.phase[r].at;
      assert InPlace(names, lists[r], s, r);
      assert forall i :: 0 <= i < |s.applied| ==> s.applied[i] == names[i];
      assert at == |s.applied| <==> names[at] !in s.applied;
    }
  }

  lemma CommitKeepsSafe<N>(names: seq<N>, lists: map<nat, nat>, before: seq<N>, s: State<N>, r: nat, ok: bool)
    requires DistinctNames(names) && Safe(names, lists, before, s)
    ensures Safe(names, lists, before, Next(names, lists, s, Step(r, Commit(ok))))
    ensures s.applied <= Next(names, lists, s, Step(r, Commit(ok))).applied
  {
    if r in lists && s.phase[r].Written? {
      assert InPlace(names, lists[r], s, r);
      assert s.applied + [names[|s.applied|]] <= names;
    }
  }

  lemma StepKeepsSafe<N>(names: seq<N>, lists: map<nat, nat>, before: seq<N>, s: State<N>, step: Step)
    requires DistinctNames(names) && Safe(names, lists, before, s)
    ensures Safe(names, lists, before, Next(names, lists, s, step))
    ensures s.applied <= Next(names, lists, s, step).applied
  {
    match step.action
    case Look => LookKeepsSafe(names, lists, before, s, step.replica);
    case Commit(ok) => CommitKeepsSafe(names, lists, before, s, step.replica, ok);
    case _ =>
  }

  lemma {:induction false} RunKeepsSafe<N>(names: seq<N>, lists: map<nat, nat>, start: State<N>, run: seq<Step>)
    requires DistinctNames(names) && Starts(names, lists, start)
    ensures Safe(names, lists, start.applied, After(names, lists, start, run))
    ensures start.applied <= After(names, lists, start, run).applied
  {
    if run != [] {
      RunKeepsSafe(names, lists, start, run[..|run| - 1]);
      StepKeepsSafe(names, lists, start.applied, After(names, lists, start, run[..|run| - 1]), run[|run| - 1]);
    }
  }

  /**
   * However many replicas start, crash and fail: the recorded versions are a prefix of the newest list,
   * a script commits once at most and only with its version, and a replica that is done has its list applied.
   */
  lemma MigrationsAreSafe<N>(names: seq<N>, lists: map<nat, nat>, start: State<N>, run: seq<Step>)
    requires DistinctNames(names) && Starts(names, lists, start)
    ensures var s := After(names, lists, start, run);
            && s.applied <= names
            && s.applied == start.applied + s.commits
            && DistinctNames(s.applied)
            && (forall r :: r in lists && r in s.phase && s.phase[r] == Done ==> names[..lists[r]] <= s.applied)
  {
    RunKeepsSafe(names, lists, start, run);
    var s := After(names, lists, start, run);
    assert forall i :: 0 <= i < |s.applied| ==> s.applied[i] == names[i];
    forall r | r in lists && s.phase[r] == Done ensures names[..lists[r]] <= s.applied {
      assert InPlace(names, lists[r], s, r);
    }
  }

  /** Two replicas are never past the lock at once. */
  lemma OneAtATime<N>(names: seq<N>, lists: map<nat, nat>, start: State<N>, run: seq<Step>, a: nat, b: nat)
    requires DistinctNames(names) && Starts(names, lists, start) && a in lists && b in lists && a != b
    ensures var s := After(names, lists, start, run);
            a in s.phase && b in s.phase && !(Inside(s.phase[a]) && Inside(s.phase[b]))
  {
    RunKeepsSafe(names, lists, start, run);
    var s := After(names, lists, start, run);
    assert InPlace(names, lists[a], s, a) && InPlace(names, lists[b], s, b);
  }

  /** A replica that goes down lets go of the lock and leaves what is recorded; another that waits can then take it. */
  lemma CrashLetsGo<N>(names: seq<N>, lists: map<nat, nat>, s: State<N>, r: nat, other: nat)
    requires r in lists && lists[r] <= |names| && r in s.phase && s.holder == Some(r)
    requires other in lists && lists[other] <= |names| && other in s.phase && other != r && s.phase[other] == Queued
    ensures var t := Next(names, lists, s, Step(r, Crash));
            && t.applied == s.applied && t.commits == s.commits && t.holder == None && t.phase[r] == Idle
            && Next(names, lists, t, Step(other, Acquire)).holder == Some(other)
  {
  }

  // A replica that meets no failure.

  lemma OneMore<N>(names: seq<N>, lists: map<nat, nat>, start: State<N>, run: seq<Step>, step: Step)
    ensures After(names, lists, start, run + [step]) == Next(names, lists, After(names, lists, start, run), step)
  {
    assert (run + [step])[..|run|] == run;
  }

  ghost predicate AllBy(run: seq<Step>, r: nat) { forall k :: 0 <= k < |run| ==> run[k].replica == r }

  /** The replica holds the lock, looks at script at, and has left the others where they were. */
  ghost predicate LooksAt<N>(start: State<N>, s: State<N>, r: nat, at: nat) {
    s.holder == Some(r) && r in s.phase && s.phase[r] == Looking(at) && s.phase == start.phase[r := Looking(at)]
  }

  /** One script: passed over when it is recorded, and otherwise run, recorded and committed. */
  lemma OneScript<N>(names: seq<N>, lists: map<nat, nat>, start: State<N>, run: seq<Step>, r: nat, at: nat)
    returns (longer: seq<Step>)
    requires r in lists && at < lists[r] <= |names| && r in start.phase && AllBy(run, r)
    requires LooksAt(start, After(names, lists, start, run), r, at)
    ensures AllBy(longer, r) && LooksAt(start, After(names, lists, start, longer), r, at + 1)
    ensures var s := After(names, lists, start, run);
            After(names, lists, start, longer).applied == if names[at] in s.applied then s.applied else s.applied + [names[at]]
  {
    hide After;
    var s := After(names, lists, start, run);
    OneMore(names, lists, start, run, Step(r, Look));
    longer := run + [Step(r, Look)];
    if names[at] !in s.applied {
      OneMore(names, lists, start, longer, Step(r, RunScript(true)));
      longer := longer + [Step(r, RunScript(true))];
      OneMore(names, lists, start, longer, Step(r, Commit(true)));
      longer := longer + [Step(r, Commit(true))];
    }
  }

  lemma TakesTheLock<N>(names: seq<N>, lists: map<nat, nat>, start: State<N>, r: nat) returns (run: seq<Step>)
    requires Starts(names, lists, start) && r in lists
    ensures AllBy(run, r) && LooksAt(start, After(names, lists, start, run), r, 0)
    ensures After(names, lists, start, run).applied == start.applied
  {
    OneMore(names, lists, start, [], Step(r, Start));
    run := [] + [Step(r, Start)];
    OneMore(names, lists, start, run, Step(r, Acquire));
    run := run + [Step(r, Acquire)];
  }

  lemma LetsGo<N>(names: seq<N>, lists: map<nat, nat>, start: State<N>, run: seq<Step>, r: nat) returns (longer: seq<Step>)
    requires r in lists && lists[r] <= |names| && AllBy(run, r) && LooksAt(start, After(names, lists, start, run), r, lists[r])
    ensures AllBy(longer, r)
    ensures var s := After(names, lists, start, longer);
            && r in s.phase && s.phase[r] == Done && s.holder == None && s.applied == After(names, lists, start, run).applied
  {
    OneMore(names, lists, start, run, Step(r, Look));
    longer := run + [Step(r, Look)];
    OneMore(names, lists, start, longer, Step(r, Release));
    longer := longer + [Step(r, Release)];
  }

  /** From every start a replica on its own, meeting no failure, applies what is missing of its list, and lets go of the lock. */
  lemma ReplicaFinishes<N>(names: seq<N>, lists: map<nat, nat>, start: State<N>, r: nat) returns (run: seq<Step>)
    requires DistinctNames(names) && Starts(names, lists, start) && r in lists
    ensures AllBy(run, r)
    ensures var s := After(names, lists, start, run);
            && r in s.phase && s.phase[r] == Done && s.holder == None
            && s.applied == if lists[r] <= |start.applied| then start.applied else names[..lists[r]]
  {
    run := TakesTheLock(names, lists, start, r);
    var at := 0;
    hide After, AllBy, LooksAt, DistinctNames;
    while at < lists[r]
      invariant at <= lists[r] && AllBy(run, r) && LooksAt(start, After(names, lists, start, run), r, at)
      invariant After(names, lists, start, run).applied == if at <= |start.applied| then start.applied else names[..at]
    {
      NextIsMissing(names, start.applied, at);
      run := OneScript(names, lists, start, run, r, at);
      at := at + 1;
    }
    run := LetsGo(names, lists, start, run, r);
  }

  lemma NextIsMissing<N>(names: seq<N>, applied: seq<N>, at: nat)
    requires DistinctNames(names) && applied <= names && at < |names|
    ensures at < |applied| ==> names[at] in applied
    ensures at >= |applied| ==> names[at] !in (if at == |applied| then applied else names[..at])
    ensures at >= |applied| ==> (if at == |applied| then applied else names[..at]) + [names[at]] == names[..at + 1]
  {
    assert forall i :: 0 <= i < |applied| ==> applied[i] == names[i];
    if at < |applied| {
      assert applied[at] == names[at];
    }
    if at == |applied| {
      assert applied == names[..at];
    }
  }
}
