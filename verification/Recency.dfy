/** The reference the recorder of blocked origins is judged by: the last N distinct keys of a history of reports. */
module Recency {
  import opened Common

  const LIMIT: nat := 100

  /** One report: the key it is counted under, where it came from and the clock reading. */
  datatype Report<K, P> = Report(key: K, page: P, at: int)

  ghost function Keys<K(!new), P>(log: seq<Report<K, P>>): set<K> { set i | 0 <= i < |log| :: log[i].key }

  /** The position of the last report of k. */
  ghost function LastIndex<K(!new), P>(log: seq<Report<K, P>>, k: K): (i: nat)
    requires k in Keys(log)
    ensures i < |log| && log[i].key == k
    ensures forall j :: i < j < |log| ==> log[j].key != k
  {
    var n := |log| - 1;
    if log[n].key == k then n
    else
      assert forall x :: x in Keys(log) && x != log[n].key ==> x in Keys(log[..n]) by {
        forall x | x in Keys(log) && x != log[n].key ensures x in Keys(log[..n]) {
          var j :| 0 <= j < |log| && log[j].key == x;
          assert log[..n][j].key == x;
        }
      }
      LastIndex(log[..n], k)
  }

  /** The distinct keys reported after position i. */
  ghost function Since<K(!new), P>(log: seq<Report<K, P>>, i: nat): set<K> {
    set j | i < j < |log| :: log[j].key
  }

  /** k is among the LIMIT most recently reported distinct keys. */
  ghost predicate Recent<K(!new), P>(log: seq<Report<K, P>>, k: K) {
    k in Keys(log) && |Since(log, LastIndex(log, k))| < LIMIT
  }

  ghost function RecentKeys<K(!new), P>(log: seq<Report<K, P>>): set<K> { set k | k in Keys(log) && Recent(log, k) }

  /** The clock never stood still between two reports. */
  ghost predicate Increasing<K(!new), P>(log: seq<Report<K, P>>) {
    forall i, j :: 0 <= i < j < |log| ==> log[i].at < log[j].at
  }

  lemma AppendKeys<K(!new), P>(log: seq<Report<K, P>>, r: Report<K, P>)
    ensures Keys(log + [r]) == Keys(log) + {r.key}
  {
    var next := log + [r];
    assert next[|log|] == r;
    forall x | x in Keys(log) ensures x in Keys(next) {
      var j :| 0 <= j < |log| && log[j].key == x;
      assert next[j].key == x;
    }
  }

  lemma AppendSince<K(!new), P>(log: seq<Report<K, P>>, r: Report<K, P>, i: nat)
    requires i < |log|
    ensures Since(log + [r], i) == Since(log, i) + {r.key}
  {
    var next := log + [r];
    assert next[|log|] == r;
    forall x | x in Since(log, i) ensures x in Since(next, i) {
      var j :| i < j < |log| && log[j].key == x;
      assert next[j].key == x;
    }
  }

  lemma Append<K(!new), P>(log: seq<Report<K, P>>, r: Report<K, P>, k: K)
    ensures Keys(log + [r]) == Keys(log) + {r.key}
    ensures r.key in Keys(log + [r]) && LastIndex(log + [r], r.key) == |log|
    ensures Recent(log + [r], r.key)
    ensures k in Keys(log) && k != r.key ==>
      && LastIndex(log + [r], k) == LastIndex(log, k)
      && Since(log + [r], LastIndex(log, k)) == Since(log, LastIndex(log, k)) + {r.key}
  {
    AppendKeys(log, r);
    assert (log + [r])[..|log|] == log;
    assert Since(log + [r], |log|) == {};
    if k in Keys(log) && k != r.key {
      AppendSince(log, r, LastIndex(log, k));
    }
  }

  lemma SubsetSize<T>(a: set<T>, b: set<T>)
    requires a <= b
    ensures |a| <= |b|
  {
    assert b == a + (b - a);
  }

  /** A key reported after x's last report is fresher than x: fewer keys follow it. */
  lemma Fresher<K(!new), P>(log: seq<Report<K, P>>, x: K, y: K)
    requires x in Keys(log) && y in Keys(log) && x != y
    ensures y in Since(log, LastIndex(log, x)) <==> LastIndex(log, x) < LastIndex(log, y)
    ensures LastIndex(log, x) < LastIndex(log, y) ==>
      && Since(log, LastIndex(log, y)) + {y} <= Since(log, LastIndex(log, x))
      && |Since(log, LastIndex(log, y))| < |Since(log, LastIndex(log, x))|
  {
    var i, j := LastIndex(log, x), LastIndex(log, y);
    if i < j {
      var sx, sy := Since(log, i), Since(log, j);
      assert log[j].key == y && y in sx;
      assert y !in sy;
      SubsetSize(sy + {y}, sx);
    }
  }

  /** Reporting a key already held changes nothing about which keys are held. */
  lemma RepeatKeeps<K(!new), P>(log: seq<Report<K, P>>, r: Report<K, P>)
    requires Recent(log, r.key)
    ensures RecentKeys(log + [r]) == RecentKeys(log)
  {
    forall x ensures Recent(log + [r], x) <==> Recent(log, x) {
      Append(log, r, x);
      if x in Keys(log) && x != r.key {
        Fresher(log, x, r.key);
        var sx := Since(log, LastIndex(log, x));
        if LastIndex(log, x) < LastIndex(log, r.key) {
          assert sx + {r.key} == sx;
        } else {
          Fresher(log, r.key, x);
          SubsetSize(sx, sx + {r.key});
        }
      }
    }
    assert forall x :: x in RecentKeys(log + [r]) <==> Recent(log + [r], x);
    assert forall x :: x in RecentKeys(log) <==> Recent(log, x);
  }

  /** A key that is not held and finds a free place is added to those held. */
  lemma FreePlaceAdds<K(!new), P>(log: seq<Report<K, P>>, r: Report<K, P>)
    requires !Recent(log, r.key) && |RecentKeys(log)| < LIMIT
    ensures RecentKeys(log + [r]) == RecentKeys(log) + {r.key}
  {
    forall x ensures Recent(log + [r], x) <==> Recent(log, x) || x == r.key {
      if Recent(log, x) {
        FollowersAreRecent(log, x);
        SubsetSize(Since(log, LastIndex(log, x)) + {x}, RecentKeys(log));
      }
      FreePlaceOne(log, r, x);
    }
    assert forall x :: x in RecentKeys(log + [r]) <==> Recent(log + [r], x);
    assert forall x :: x in RecentKeys(log) <==> Recent(log, x);
  }

  lemma FreePlaceOne<K(!new), P>(log: seq<Report<K, P>>, r: Report<K, P>, x: K)
    requires !Recent(log, r.key)
    requires Recent(log, x) ==> |Since(log, LastIndex(log, x)) + {x}| < LIMIT
    ensures Recent(log + [r], x) <==> Recent(log, x) || x == r.key
  {
    Append(log, r, x);
    if x in Keys(log) && x != r.key {
      var sx := Since(log, LastIndex(log, x));
      SubsetSize(sx, sx + {r.key});
      assert x !in sx;
      assert |sx + {x}| == |sx| + 1;
    }
  }

  lemma FollowersAreRecent<K(!new), P>(log: seq<Report<K, P>>, x: K)
    requires Recent(log, x)
    ensures Since(log, LastIndex(log, x)) + {x} <= RecentKeys(log)
  {
    forall y | y in Since(log, LastIndex(log, x)) ensures y in RecentKeys(log) {
      assert y in Keys(log);
      Fresher(log, x, y);
    }
  }

  ghost predicate IsOldest<K(!new), P>(log: seq<Report<K, P>>, e: K) {
    && Recent(log, e)
    && forall k :: Recent(log, k) ==> LastIndex(log, e) <= LastIndex(log, k)
  }

  /** A new key at a full recorder takes the place of the least recently reported one. */
  lemma FullPlaceReplaces<K(!new), P>(log: seq<Report<K, P>>, r: Report<K, P>, e: K)
    requires !Recent(log, r.key) && |RecentKeys(log)| == LIMIT
    requires IsOldest(log, e)
    ensures RecentKeys(log + [r]) == RecentKeys(log) - {e} + {r.key}
  {
    FollowersOfOldest(log, r, e);
    forall x ensures Recent(log + [r], x) <==> (Recent(log, x) && x != e) || x == r.key {
      ReplacedOrNot(log, r, e, x);
    }
    assert forall x :: x in RecentKeys(log + [r]) <==> Recent(log + [r], x);
    assert forall x :: x in RecentKeys(log) <==> Recent(log, x);
  }

  lemma FollowersOfOldest<K(!new), P>(log: seq<Report<K, P>>, r: Report<K, P>, e: K)
    requires !Recent(log, r.key) && |RecentKeys(log)| == LIMIT
    requires IsOldest(log, e)
    ensures |Since(log, LastIndex(log, e))| == LIMIT - 1 && r.key !in Since(log, LastIndex(log, e))
  {
    var se := Since(log, LastIndex(log, e));
    forall y | y in RecentKeys(log) - {e} ensures y in se {
      assert Recent(log, y);
      Fresher(log, e, y);
    }
    assert e in RecentKeys(log);
    SubsetSize(RecentKeys(log) - {e}, se);
    if r.key in Keys(log) { Fresher(log, e, r.key); }
  }

  lemma ReplacedOrNot<K(!new), P>(log: seq<Report<K, P>>, r: Report<K, P>, e: K, x: K)
    requires !Recent(log, r.key) && Recent(log, e)
    requires |Since(log, LastIndex(log, e))| == LIMIT - 1 && r.key !in Since(log, LastIndex(log, e))
    requires Recent(log, x) ==> LastIndex(log, e) <= LastIndex(log, x)
    ensures Recent(log + [r], x) <==> (Recent(log, x) && x != e) || x == r.key
  {
    Append(log, r, x);
    if x in Keys(log) && x != r.key && x != e {
      if Recent(log, x) {
        Fresher(log, e, x);
      } else {
        var sx := Since(log, LastIndex(log, x));
        SubsetSize(sx, sx + {r.key});
      }
    }
  }

  lemma {:induction false} OldestExists<K(!new), P>(log: seq<Report<K, P>>, among: set<K>) returns (e: K)
    requires among != {} && forall k :: k in among ==> k in Keys(log)
    ensures e in among && forall k :: k in among ==> LastIndex(log, e) <= LastIndex(log, k)
    decreases |among|
  {
    e :| e in among;
    var rest := among - {e};
    assert forall k :: k in among ==> k == e || k in rest;
    if rest != {} {
      var f := OldestExists(log, rest);
      if LastIndex(log, f) < LastIndex(log, e) { e := f; }
    }
  }

  /** The reference holds every distinct key of the history until there are more than LIMIT, and then exactly that many. */
  lemma {:induction false} RecentCount<K(!new), P>(log: seq<Report<K, P>>)
    ensures |RecentKeys(log)| == if |Keys(log)| < 100 then |Keys(log)| else 100
    ensures RecentKeys(log) <= Keys(log)
  {
    if log == [] {
    } else {
      var prev, r := log[..|log| - 1], log[|log| - 1];
      assert log == prev + [r];
      RecentCount(prev);
      Append(prev, r, r.key);
      assert forall k :: k in RecentKeys(prev) <==> Recent(prev, k);
      if Recent(prev, r.key) {
        RepeatKeeps(prev, r);
        assert Keys(log) == Keys(prev);
      } else if |RecentKeys(prev)| < LIMIT {
        FreePlaceAdds(prev, r);
        EqualWhenSameSize(RecentKeys(prev), Keys(prev));
      } else {
        var e := OldestExists(prev, RecentKeys(prev));
        FullPlaceReplaces(prev, r, e);
        SubsetSize(Keys(prev), Keys(log));
      }
    }
  }

  lemma EqualWhenSameSize<T>(a: set<T>, b: set<T>)
    requires a <= b && |a| == |b|
    ensures a == b
  {
    assert b == a + (b - a);
  }

  // How often a key was reported since it was last inserted.

  /** The position of the report that inserted k for the stay it is now on. */
  ghost function Inserted<K(!new), P>(log: seq<Report<K, P>>, k: K): (i: nat)
    requires Recent(log, k)
    ensures i < |log| && log[i].key == k
  {
    var n := |log| - 1;
    if log[n].key == k && !Recent(log[..n], k) then n
    else (StillRecent(log, k); Inserted(log[..n], k))
  }

  /** What "last inserted" means: absent just before that report, and present ever since. */
  lemma {:induction false} InsertedStartsTheStay<K(!new), P>(log: seq<Report<K, P>>, k: K, j: nat)
    requires Recent(log, k) && Inserted(log, k) <= j <= |log|
    ensures Recent(log[..j], k) <==> j > Inserted(log, k)
  {
    var n := |log| - 1;
    if j == |log| {
      assert log[..j] == log;
    } else if log[n].key == k && !Recent(log[..n], k) {
    } else {
      StillRecent(log, k);
      InsertedStartsTheStay(log[..n], k, j);
      assert log[..j] == log[..n][..j];
    }
  }

  lemma StillRecent<K(!new), P>(log: seq<Report<K, P>>, k: K)
    requires Recent(log, k) && (log[|log| - 1].key != k || Recent(log[..|log| - 1], k))
    ensures Recent(log[..|log| - 1], k)
  {
    var n := |log| - 1;
    var prev := log[..n];
    assert log == prev + [log[n]];
    if log[n].key != k {
      Append(prev, log[n], k);
      SubsetSize(Since(prev, LastIndex(prev, k)), Since(log, LastIndex(log, k)));
    }
  }

  ghost function Occurrences<K(!new), P>(log: seq<Report<K, P>>, k: K): nat {
    if log == [] then 0
    else Occurrences(log[..|log| - 1], k) + (if log[|log| - 1].key == k then 1 else 0)
  }

  /** The number of reports of k since it was last inserted. */
  ghost function ReportsThisStay<K(!new), P>(log: seq<Report<K, P>>, k: K): nat
    requires Recent(log, k)
  {
    Occurrences(log[Inserted(log, k)..], k)
  }

  lemma StayGrows<K(!new), P>(log: seq<Report<K, P>>, r: Report<K, P>, k: K)
    requires Recent(log, k) && Recent(log + [r], k)
    ensures Inserted(log + [r], k) == Inserted(log, k)
    ensures ReportsThisStay(log + [r], k) == ReportsThisStay(log, k) + (if r.key == k then 1 else 0)
  {
    var next, i := log + [r], Inserted(log, k);
    assert next[..|log|] == log;
    assert next[i..] == log[i..] + [r];
    assert next[i..][..|next[i..]| - 1] == log[i..];
  }

  lemma StayStarts<K(!new), P>(log: seq<Report<K, P>>, r: Report<K, P>)
    requires !Recent(log, r.key) && Recent(log + [r], r.key)
    ensures Inserted(log + [r], r.key) == |log|
    ensures ReportsThisStay(log + [r], r.key) == 1
  {
    var next := log + [r];
    assert next[..|log|] == log;
    assert next[|log|..] == [r];
    assert Occurrences([r], r.key) == Occurrences([r][..0], r.key) + 1;
  }

  // What a bounded store holds for each key.

  datatype Stay<P> = Stay(page: P, count: int, firstSeen: int, lastSeen: int)

  ghost predicate Describes<K(!new), P>(v: Stay<P>, log: seq<Report<K, P>>, k: K)
    requires Recent(log, k)
  {
    && v.lastSeen == log[LastIndex(log, k)].at && v.page == log[LastIndex(log, k)].page
    && v.firstSeen == log[Inserted(log, k)].at
    && v.count == ReportsThisStay(log, k)
  }

  /** The entries are the recent keys of the history, each describing the stay it is on. */
  ghost predicate Faithful<K(!new), P>(m: map<K, Stay<P>>, log: seq<Report<K, P>>) {
    forall k :: (k in m <==> Recent(log, k)) && (k in m ==> Describes(m[k], log, k))
  }

  lemma FaithfulKeys<K(!new), P>(m: map<K, Stay<P>>, log: seq<Report<K, P>>)
    requires Faithful(m, log)
    ensures m.Keys == RecentKeys(log) && |m| == Min(LIMIT, |Keys(log)|)
  {
    assert forall k :: k in m.Keys <==> k in RecentKeys(log);
    RecentCount(log);
  }

  ghost function Counted<K(!new), P>(v: Stay<P>, r: Report<K, P>): Stay<P> { v.(count := v.count + 1, lastSeen := r.at, page := r.page) }

  lemma CountedDescribes<K(!new), P>(v: Stay<P>, log: seq<Report<K, P>>, r: Report<K, P>, k: K)
    requires Recent(log, k) && Recent(log, r.key) && Describes(v, log, k)
    ensures Recent(log + [r], k)
    ensures Describes(if k == r.key then Counted(v, r) else v, log + [r], k)
  {
    RepeatKeeps(log, r);
    assert k in RecentKeys(log + [r]);
    Append(log, r, k);
    StayGrows(log, r, k);
    var next := log + [r];
    assert forall i :: 0 <= i < |log| ==> next[i] == log[i];
  }

  /** Reporting a held key again updates its entry and no other. */
  lemma CountKeepsFaithful<K(!new), P>(m: map<K, Stay<P>>, log: seq<Report<K, P>>, r: Report<K, P>)
    requires Faithful(m, log) && r.key in m
    ensures Faithful(m[r.key := Counted(m[r.key], r)], log + [r])
  {
    var after, next := m[r.key := Counted(m[r.key], r)], log + [r];
    forall k ensures (k in after <==> Recent(next, k)) && (k in after ==> Describes(after[k], next, k)) {
      if k in m {
        CountedDescribes(m[k], log, r, k);
      } else {
        RepeatKeeps(log, r);
        assert k !in RecentKeys(next);
      }
    }
  }

  /** The least recently reported entry by the clock is the least recently reported by position. */
  lemma OldestByClock<K(!new), P>(m: map<K, Stay<P>>, log: seq<Report<K, P>>, e: K)
    requires Faithful(m, log) && Increasing(log) && e in m
    requires forall k :: k in m ==> m[e].lastSeen <= m[k].lastSeen
    ensures IsOldest(log, e)
  {
    forall k | Recent(log, k) ensures LastIndex(log, e) <= LastIndex(log, k) {
      assert k in m && Describes(m[k], log, k) && Describes(m[e], log, e);
    }
  }

  /** Recording a key that is not held, into a free place or over the oldest entry. */
  lemma AddKeepsFaithful<K(!new), P>(m: map<K, Stay<P>>, log: seq<Report<K, P>>, r: Report<K, P>, v: Stay<P>, evicted: K)
    requires Faithful(m, log) && Increasing(log) && r.key !in m
    requires v.page == r.page && v.count == 1 && v.firstSeen == v.lastSeen == r.at
    requires |m| >= LIMIT ==> evicted in m && forall k :: k in m ==> m[evicted].lastSeen <= m[k].lastSeen
    ensures Faithful((if |m| >= LIMIT then m - {evicted} else m)[r.key := v], log + [r])
  {
    var kept := if |m| >= LIMIT then m - {evicted} else m;
    AddedKeys(m, log, r, evicted);
    NewDescribes(v, log, r);
    forall k | k in kept ensures Describes(kept[k], log + [r], k) {
      KeptDescribes(m[k], log, r, k);
    }
    Assemble(kept, log + [r], r.key, v);
  }

  lemma Assemble<K(!new), P>(kept: map<K, Stay<P>>, next: seq<Report<K, P>>, key: K, v: Stay<P>)
    requires forall k :: Recent(next, k) <==> k in kept || k == key
    requires forall k :: k in kept ==> Describes(kept[k], next, k)
    requires Describes(v, next, key)
    ensures Faithful(kept[key := v], next)
  {
  }

  lemma AddedKeys<K(!new), P>(m: map<K, Stay<P>>, log: seq<Report<K, P>>, r: Report<K, P>, evicted: K)
    requires Faithful(m, log) && Increasing(log) && r.key !in m
    requires |m| >= LIMIT ==> evicted in m && forall k :: k in m ==> m[evicted].lastSeen <= m[k].lastSeen
    ensures forall k :: Recent(log + [r], k) <==> k in (if |m| >= LIMIT then m - {evicted} else m) || k == r.key
  {
    FaithfulKeys(m, log);
    if |m| < LIMIT {
      FreePlaceAdds(log, r);
    } else {
      OldestByClock(m, log, evicted);
      FullPlaceReplaces(log, r, evicted);
    }
    assert forall k :: k in RecentKeys(log) <==> k in m;
    assert forall k :: k in RecentKeys(log + [r]) <==> Recent(log + [r], k);
  }

  lemma KeptDescribes<K(!new), P>(v: Stay<P>, log: seq<Report<K, P>>, r: Report<K, P>, k: K)
    requires Recent(log, k) && Recent(log + [r], k) && k != r.key && Describes(v, log, k)
    ensures Describes(v, log + [r], k)
  {
    Append(log, r, k);
    StayGrows(log, r, k);
  }

  lemma NewDescribes<K(!new), P>(v: Stay<P>, log: seq<Report<K, P>>, r: Report<K, P>)
    requires !Recent(log, r.key) && v.page == r.page && v.count == 1 && v.firstSeen == v.lastSeen == r.at
    ensures Recent(log + [r], r.key) && Describes(v, log + [r], r.key)
  {
    Append(log, r, r.key);
    StayStarts(log, r);
  }

  /** What recording r does to the contents: the held entry is counted, or a new one takes a free or the oldest place. */
  ghost predicate Follows<K(!new), P>(held: map<K, Stay<P>>, after: map<K, Stay<P>>, r: Report<K, P>, evicted: K) {
    if r.key in held then after == held[r.key := Counted(held[r.key], r)]
    else
      && (|held| >= LIMIT ==> evicted in held && forall k :: k in held ==> held[evicted].lastSeen <= held[k].lastSeen)
      && after == (if |held| >= LIMIT then held - {evicted} else held)[r.key := Stay(r.page, 1, r.at, r.at)]
  }

  /** The promise, on a clock that never stands still. */
  ghost predicate Agrees<K(!new), P>(m: map<K, Stay<P>>, log: seq<Report<K, P>>) {
    Increasing(log) ==> Faithful(m, log)
  }

  /** Evicting by oldest reading refines "the last N distinct keys of the history". */
  lemma RecordingAgrees<K(!new), P>(held: map<K, Stay<P>>, after: map<K, Stay<P>>, log: seq<Report<K, P>>, r: Report<K, P>, evicted: K)
    requires Agrees(held, log) && Follows(held, after, r, evicted)
    ensures Agrees(after, log + [r])
  {
    if Increasing(log + [r]) {
      assert forall i :: 0 <= i < |log| ==> (log + [r])[i] == log[i];
      if r.key in held {
        CountKeepsFaithful(held, log, r);
      } else {
        AddKeepsFaithful(held, log, r, Stay(r.page, 1, r.at, r.at), evicted);
      }
    }
  }
}
