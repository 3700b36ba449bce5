/** The bounded recorder of blocked origins (internal/tracking/violations.go). */
module Recorder {
  import opened Common
  import opened Recency

  const MAX_VIOLATIONS: nat := LIMIT

  /** The directive a report is filed under: lower case, first word, connect-src when there is none. */
  function NormalDirective(raw: string): (d: string)
    ensures d != "" && ' ' !in d
  {
    var trimmed := Trim(Lower(raw));
    var word := trimmed[..IndexOf(trimmed, ' ')];
    if word == "" then "connect-src" else word
  }

  lemma LowerSpaces(s: string)
    ensures AllSpace(s) ==> AllSpace(Lower(s))
    ensures (forall i :: 0 <= i < |s| ==> !IsSpace(s[i])) ==> forall i :: 0 <= i < |s| ==> !IsSpace(Lower(s)[i])
    ensures ' ' !in s ==> ' ' !in Lower(s)
  {
  }

  lemma LowerOf(a: string, b: string)
    ensures Lower(a + b) == Lower(a) + Lower(b)
  {
  }

  /** The directive is the first word of the report, in lower case; what follows the word, and the space around it, make no difference. */
  lemma DirectiveExactly(before: string, word: string, rest: string, after: string)
    requires AllSpace(before) && AllSpace(after) && word != "" && forall i :: 0 <= i < |word| ==> !IsSpace(word[i])
    requires rest == "" || (rest[0] == ' ' && !IsSpace(rest[|rest| - 1]))
    ensures NormalDirective(before + (word + rest) + after) == Lower(word)
  {
    var d, tail := Lower(word), Lower(rest);
    LowerOf(before + (word + rest), after);
    LowerOf(before, word + rest);
    LowerOf(word, rest);
    LowerSpaces(before);
    LowerSpaces(after);
    LowerSpaces(word);
    EndsInNoSpace(word, rest);
    TrimExactly(Lower(before), d + tail, Lower(after));
    assert (d + tail)[..|d|] == d;
    IndexOfIs(d + tail, ' ', |d|);
  }

  lemma EndsInNoSpace(word: string, rest: string)
    requires word != "" && forall i :: 0 <= i < |word| ==> !IsSpace(word[i])
    requires rest == "" || !IsSpace(rest[|rest| - 1])
    ensures var low := Lower(word) + Lower(rest);
            !IsSpace(low[0]) && !IsSpace(low[|low| - 1])
  {
    LowerSpaces(word);
    if rest != "" {
      LowerSpaces([rest[|rest| - 1]]);
    }
  }

  /** A report that names no directive is filed under connect-src. */
  lemma NoDirective(blank: string)
    requires AllSpace(blank)
    ensures NormalDirective(blank) == "connect-src"
  {
    LowerSpaces(blank);
    TrimExactly(Lower(blank), "", "");
    assert Lower(blank) + "" + "" == Lower(blank);
  }

  function KeyOf(directive: string, origin: string): string { directive + " " + origin }

  /** Two different (directive, origin) pairs are never merged under one key. */
  lemma KeyIsInjective(d1: string, o1: string, d2: string, o2: string)
    requires ' ' !in d1 && ' ' !in d2
    ensures KeyOf(d1, o1) == KeyOf(d2, o2) <==> d1 == d2 && o1 == o2
  {
    var k1, k2 := KeyOf(d1, o1), KeyOf(d2, o2);
    assert forall i :: 0 <= i < |d1| ==> k1[i] == d1[i];
    assert forall i :: 0 <= i < |d2| ==> k2[i] == d2[i];
    if k1 == k2 {
      assert k1[|d1|] == ' ' && k2[|d2|] == ' ';
      assert |d1| == |d2|;
      assert d1 == k1[..|d1|] && d2 == k2[..|d2|];
      assert o1 == k1[|d1| + 1..] && o2 == k2[|d2| + 1..];
    }
  }

  /** One origin the policy refused; the page, the count and the last reading are updated in place. */
  class Violation {
    const origin: string
    const directive: string
    var page: string
    var count: int
    var firstSeen: int
    var lastSeen: int

    ghost function Value(): Stay<string>
      reads this
    {
      Stay(page, count, firstSeen, lastSeen)
    }

    constructor (origin: string, directive: string, page: string, moment: int)
      ensures this.origin == origin && this.directive == directive && Value() == Stay(page, 1, moment, moment)
    {
      this.origin, this.directive, this.page := origin, directive, page;
      count, firstSeen, lastSeen := 1, moment, moment;
    }
  }

  /** Every entry is filed under the key made of its own directive and origin. */
  ghost predicate Filed(violations: map<string, Violation>) {
    forall k :: k in violations ==> k == KeyOf(violations[k].directive, violations[k].origin)
  }

  class Recorder {
    var violations: map<string, Violation>
    /** The accepted reports since the last Forget, oldest first. */
    ghost var log: seq<Report<string, string>>

    ghost function Contents(): map<string, Stay<string>>
      reads `violations, violations.Values
    {
      map k | k in violations :: violations[k].Value()
    }

    /** No entry is shared, and the bound holds whatever the clock does. */
    ghost predicate Owned()
      reads `violations, violations.Values
    {
      && (forall k, l :: k in violations && l in violations && k != l ==> violations[k] != violations[l])
      && |violations| <= MAX_VIOLATIONS && "" !in violations
    }

    /** On a clock that never stands still the contents are the reference's. */
    ghost predicate Valid()
      reads this, violations.Values
    {
      Owned() && Filed(violations) && Agrees(Contents(), log)
    }

    constructor ()
      ensures Valid() && violations == map[] && log == []
    {
      violations, log := map[], [];
    }

    /** Drops an entry whose LastSeen no other entry's precedes. */
    method EvictOldest() returns (ghost evicted: string)
      requires Owned() && violations != map[]
      modifies this`violations
      ensures evicted in old(violations) && violations == old(violations) - {evicted}
      ensures Owned() && |violations| == old(|violations|) - 1 && Contents() == old(Contents()) - {evicted}
      ensures forall k :: k in old(Contents()) ==> old(Contents())[evicted].lastSeen <= old(Contents())[k].lastSeen
    {
      var oldestKey, oldest := "", 0;
      var remaining := violations.Keys;
      while remaining != {}
        invariant remaining <= violations.Keys
        invariant oldestKey == "" ==> remaining == violations.Keys
        invariant oldestKey != "" ==> oldestKey in violations && oldest == violations[oldestKey].lastSeen
        invariant oldestKey != "" ==> forall k :: k in violations.Keys - remaining ==> oldest <= violations[k].lastSeen
      {
        var key :| key in remaining;
        remaining := remaining - {key};
        if oldestKey == "" || violations[key].lastSeen < oldest {
          oldestKey, oldest := key, violations[key].lastSeen;
        }
      }
      ghost var before := violations;
      violations := violations - {oldestKey};
      evicted := oldestKey;
      assert |violations| == |before| - 1 by {
        assert violations.Keys == before.Keys - {oldestKey};
        assert |violations.Keys| == |violations| && |before.Keys| == |before|;
      }
    }

    /** Evicts when there is no free place. */
    method MakeRoom() returns (ghost evicted: string)
      requires Owned()
      modifies this`violations
      ensures Owned() && |violations| < MAX_VIOLATIONS
      ensures forall k :: k in violations ==> k in old(violations) && violations[k] == old(violations)[k]
      ensures |old(Contents())| >= LIMIT ==>
        && evicted in old(Contents())
        && forall k :: k in old(Contents()) ==> old(Contents())[evicted].lastSeen <= old(Contents())[k].lastSeen
      ensures Contents() == if |old(Contents())| >= LIMIT then old(Contents()) - {evicted} else old(Contents())
    {
      assert |Contents()| == |violations| by {
        assert Contents().Keys == violations.Keys;
        assert |Contents().Keys| == |Contents()| && |violations.Keys| == |violations|;
      }
      evicted := "";
      if |violations| >= MAX_VIOLATIONS {
        evicted := EvictOldest();
      }
    }

    /** Puts a new entry into a free place. */
    method Insert(key: string, directive: string, origin: string, page: string, moment: int) returns (added: Violation)
      requires Owned() && key !in violations && key != "" && |violations| < MAX_VIOLATIONS
      modifies this`violations
      ensures Owned() && fresh(added) && added.directive == directive && added.origin == origin
      ensures violations == old(violations)[key := added]
      ensures Contents() == old(Contents())[key := Stay(page, 1, moment, moment)]
    {
      added := new Violation(origin, directive, page, moment);
      ghost var kept := Contents();
      violations := violations[key := added];
      assert Contents() == kept[key := added.Value()];
    }

    /** A new entry in a free place, or in the oldest entry's when there is none. */
    method Store(key: string, directive: string, origin: string, page: string, moment: int)
      returns (added: Violation, ghost evicted: string)
      requires Owned() && key !in violations && key != ""
      modifies this`violations
      ensures Owned() && fresh(added) && added.directive == directive && added.origin == origin
      ensures key in violations && violations[key] == added
      ensures forall k :: k in violations && k != key ==> k in old(violations) && violations[k] == old(violations)[k]
      ensures violations.Values <= old(violations.Values) + {added}
      ensures Follows(old(Contents()), Contents(), Report(key, page, moment), evicted)
    {
      evicted := MakeRoom();
      added := Insert(key, directive, origin, page, moment);
    }

    /** The half of Record for a key that is held: its entry is updated in place. */
    method CountAgain(key: string, page: string, now: int)
      requires Valid() && key in violations
      modifies this`log, violations.Values
      ensures Valid() && violations == old(violations)
      ensures log == old(log) + [Report(key, page, now)]
    {
      ghost var before, held, r := log, Contents(), Report(key, page, now);
      var existing := violations[key];
      existing.count := existing.count + 1;
      existing.lastSeen := now;
      existing.page := page;
      assert Contents() == held[key := Counted(held[key], r)];
      log := log + [r];
      RecordingAgrees(held, Contents(), before, r, "");
    }

    /** The half of Record for a key that is not held. */
    method AddNew(directive: string, origin: string, page: string, now: int)
      requires Valid() && KeyOf(directive, origin) !in violations
      modifies this
      ensures Valid() && fresh(violations.Values - old(violations.Values))
      ensures log == old(log) + [Report(KeyOf(directive, origin), page, now)]
    {
      var key := KeyOf(directive, origin);
      ghost var before, held, r := log, Contents(), Report(key, page, now);
      assert |key| > 0;
      var added, evicted := Store(key, directive, origin, page, now);
      log := log + [r];
      RecordingAgrees(held, Contents(), before, r, evicted);
    }

    /** Notes one blocked request. `origin` is what originOf made of the blocked address, "" when it made nothing. */
    method Record(origin: string, rawDirective: string, page: string, now: int)
      requires Valid()
      modifies this, violations.Values
      ensures Valid()
      ensures fresh(violations.Values - old(violations.Values))
      ensures log == if "http" <= origin
                     then old(log) + [Report(KeyOf(NormalDirective(rawDirective), origin), page, now)]
                     else old(log)
      ensures !("http" <= origin) ==> violations == old(violations) && Contents() == old(Contents())
    {
      if origin == "" || !("http" <= origin) {
        return;
      }
      var directive := NormalDirective(rawDirective);
      if KeyOf(directive, origin) in violations {
        CountAgain(KeyOf(directive, origin), page, now);
      } else {
        AddNew(directive, origin, page, now);
      }
    }

    /** Drops every recorded violation. */
    method Forget()
      requires Valid()
      modifies this
      ensures Valid() && violations == map[] && log == []
    {
      violations := map[];
      log := [];
    }
  }
}
