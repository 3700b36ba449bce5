/** The wildcard permission words, and the lists they are held in (internal/httpapi/context.go, auth.go, mcpoauth.go). */
module Permissions {
  import opened Common

  predicate Matches(got: string, wanted: string) {
    || got == "*" || got == wanted
    || (HasSuffix(got, ".*") && got[..|got| - 1] <= wanted)
    || ("*." <= got && HasSuffix(wanted, got[1..]))
  }

  /** A word with a wildcard at both ends. */
  predicate TwoEnded(got: string) { "*." <= got && HasSuffix(got, ".*") }

  predicate Allows(permissions: seq<string>, wanted: string) {
    exists i :: 0 <= i < |permissions| && Matches(permissions[i], wanted)
  }

  // Transitivity.

  /** What a is allowed to hand on, a itself allows. */
  ghost predicate Transitive(a: string) {
    forall b, c :: Matches(a, b) && Matches(b, c) ==> Matches(a, c)
  }

  lemma SuffixOfSuffix(c: string, b: string, t: string)
    requires HasSuffix(c, b) && HasSuffix(b, t)
    ensures HasSuffix(c, t)
  {
    var cut := |c| - |b|;
    assert c[|c| - |t|..] == c[cut..][|b| - |t|..];
  }

  lemma PrefixBegins(a: string, b: string)
    requires HasSuffix(a, ".*") && a[..|a| - 1] <= b && "*." <= b
    ensures "*." <= a
  {
    assert a[|a| - 2] == '.' by { assert a[|a| - 2..][0] == '.'; }
    assert b[0] == a[..|a| - 1][0] == a[0];
    assert b[1] == a[..|a| - 1][1] == a[1];
  }

  lemma SuffixEnds(a: string, b: string)
    requires "*." <= a && HasSuffix(b, a[1..]) && HasSuffix(b, ".*")
    ensures HasSuffix(a, ".*")
  {
    var t := a[1..];
    assert t[0] == '.';
    assert b[|b| - 1] == '*' && b[|b| - 2] == '.' by { assert b[|b| - 2..] == ".*"; }
    assert t[|t| - 1] == b[|b| - 1] by { assert b[|b| - |t|..][|t| - 1] == b[|b| - 1]; }
    assert t[|t| - 2] == b[|b| - 2] by { assert b[|b| - |t|..][|t| - 2] == b[|b| - 2]; }
    assert a[|a| - 2..] == ".*";
  }

  lemma FromPrefixWord(a: string, b: string, c: string)
    requires HasSuffix(a, ".*") && !TwoEnded(a) && a[..|a| - 1] <= b && Matches(b, c)
    ensures Matches(a, c)
  {
    var p := a[..|a| - 1];
    assert p[|p| - 1] == '.' by { assert a[|a| - 2..][0] == '.'; }
    if "*." <= b { PrefixBegins(a, b); }
    if HasSuffix(b, ".*") && b[..|b| - 1] <= c {
      assert b[|b| - 1] == '*' by { assert b[|b| - 2..][1] == '*'; }
      PrefixOfPrefix(p, b, c);
    } else {
      assert b == c || b == "*";
    }
  }

  lemma PrefixOfPrefix(p: string, b: string, c: string)
    requires p != "" && p[|p| - 1] == '.' && p <= b && b[|b| - 1] == '*' && b[..|b| - 1] <= c
    ensures p <= c
  {
    assert b[|p| - 1] == '.';
    assert p == b[..|p|] == b[..|b| - 1][..|p|] == c[..|p|];
  }

  lemma FromSuffixWord(a: string, b: string, c: string)
    requires "*." <= a && !TwoEnded(a) && HasSuffix(b, a[1..]) && Matches(b, c)
    ensures Matches(a, c)
  {
    var t := a[1..];
    assert t[0] == '.' && b[|b| - |t|..][0] == '.';
    if HasSuffix(b, ".*") { SuffixEnds(a, b); }
    if "*." <= b && HasSuffix(c, b[1..]) {
      assert b[|b| - |t|] == '.' && b[0] == '*';
      assert b[1..][|b| - 1 - |t|..] == b[|b| - |t|..] == t;
      SuffixOfSuffix(c, b[1..], t);
    } else {
      assert b == c || b == "*";
    }
  }

  lemma OneEndedIsTransitive(a: string)
    requires !TwoEnded(a)
    ensures Transitive(a)
  {
    forall b, c | Matches(a, b) && Matches(b, c) ensures Matches(a, c) {
      if a == "*" || a == b {
      } else if HasSuffix(a, ".*") && a[..|a| - 1] <= b {
        FromPrefixWord(a, b, c);
      } else {
        FromSuffixWord(a, b, c);
      }
    }
  }

  /** The words that show it fails: for "*.m.*", the middle one is "*.m.r" and the end one "q.m.r". */
  function Middle(a: string, r: string): string
    requires a != ""
  {
    a[..|a| - 1] + r
  }

  function End(a: string, q: string, r: string): string
    requires |a| >= 2
  {
    q + a[1..|a| - 1] + r
  }

  lemma LastOfSuffix(c: string, t: string)
    requires t != ""
    ensures HasSuffix(c, t) ==> c[|c| - 1] == t[|t| - 1]
  {
    if HasSuffix(c, t) {
      assert c[|c| - |t|..][|t| - 1] == t[|t| - 1];
    }
  }

  lemma TwoEndedHandsOnTooMuch(a: string, q: string, r: string)
    requires TwoEnded(a) && '*' !in q && '*' !in r && q != "" && r != ""
    ensures Matches(a, Middle(a, r)) && Matches(Middle(a, r), End(a, q, r)) && !Matches(a, End(a, q, r))
  {
    var b, c := Middle(a, r), End(a, q, r);
    assert a[..|a| - 1] <= b;
    assert |a| >= 3 && a[0] == '*' && a[1] == '.' && a[|a| - 1] == '*' by { assert a[|a| - 2..] == ".*"; }
    assert b[1..] == a[1..|a| - 1] + r;
    assert c == q + b[1..];
    assert c[|q|..] == b[1..];
    assert b[0] == '*' && b[1] == '.';
    assert c[0] == q[0] && q[0] in q;
    assert c[|c| - 1] == r[|r| - 1] && r[|r| - 1] in r;
    assert a[1..][|a| - 2] == '*';
    LastOfSuffix(c, a[1..]);
  }

  /** Exactly the words without a wildcard at both ends are transitive grantors. */
  lemma TransitiveExactly(a: string)
    ensures Transitive(a) <==> !TwoEnded(a)
  {
    if TwoEnded(a) {
      TwoEndedHandsOnTooMuch(a, "q", "r");
    } else {
      OneEndedIsTransitive(a);
    }
  }

  // Intersection.

  function Kept(permission: string, granted: seq<string>): seq<string> {
    if Allows(granted, permission) then [permission] else []
  }

  /** Which of the permissions the other list also grants, in order. */
  function Intersect(permissions: seq<string>, granted: seq<string>): (kept: seq<string>)
    ensures forall x :: x in kept <==> x in permissions && Allows(granted, x)
  {
    if permissions == [] then []
    else
      var front, last := permissions[..|permissions| - 1], permissions[|permissions| - 1];
      assert forall x :: x in permissions <==> x in front || x == last;
      Intersect(front, granted) + Kept(last, granted)
  }

  method IntersectPermissions(permissions: seq<string>, granted: seq<string>) returns (kept: seq<string>)
    ensures kept == Intersect(permissions, granted)
  {
    kept := [];
    for i := 0 to |permissions|
      invariant kept == Intersect(permissions[..i], granted)
    {
      assert permissions[..i + 1][..i] == permissions[..i];
      if Allows(granted, permissions[i]) {
        kept := kept + [permissions[i]];
      }
    }
    assert permissions[..|permissions|] == permissions;
  }

  /** The list grants nothing through a word it hands on that it does not grant itself. */
  ghost predicate Sound(granted: seq<string>) {
    forall p, w :: Allows(granted, p) && Matches(p, w) ==> Allows(granted, w)
  }

  /** The condition an administrator can read off the list. */
  predicate Clean(granted: seq<string>) {
    "*" in granted || forall i :: 0 <= i < |granted| ==> !TwoEnded(granted[i])
  }

  lemma AllowsThrough(permissions: seq<string>, p: string, w: string)
    requires p in permissions && Matches(p, w)
    ensures Allows(permissions, w)
  {
    var i :| 0 <= i < |permissions| && permissions[i] == p;
  }

  function Repeat(c: char, n: nat): (s: string)
    ensures |s| == n && forall i :: 0 <= i < n ==> s[i] == c
  {
    if n == 0 then "" else [c] + Repeat(c, n - 1)
  }

  ghost function Longest(words: seq<string>): (n: nat)
    ensures forall w :: w in words ==> |w| <= n
  {
    if words == [] then 0
    else
      assert forall w :: w in words ==> w == words[0] || w in words[1..];
      var rest := Longest(words[1..]);
      if |words[0]| > rest then |words[0]| else rest
  }

  /** A long enough word is out of reach of every word but "*". */
  lemma OutOfReach(g: string, a: string, n: nat)
    requires g != "*" && |g| < n && TwoEnded(a)
    ensures !Matches(g, End(a, Repeat('q', n), Repeat('q', n)))
  {
    var q := Repeat('q', n);
    var c := End(a, q, q);
    assert c[..n] == q && c[|c| - n..] == q;
    PrefixDot(g, c);
    SuffixDot(g, c);
    assert forall i :: 0 <= i < n ==> c[i] == c[..n][i];
    assert forall i :: |c| - n <= i < |c| ==> c[i] == c[|c| - n..][i - (|c| - n)];
  }

  lemma PrefixDot(g: string, c: string)
    ensures HasSuffix(g, ".*") && g[..|g| - 1] <= c ==> c[|g| - 2] == '.'
  {
    if HasSuffix(g, ".*") && g[..|g| - 1] <= c {
      assert g[|g| - 2..][0] == '.';
      assert g[..|g| - 1][|g| - 2] == '.';
    }
  }

  lemma SuffixDot(g: string, c: string)
    ensures "*." <= g && HasSuffix(c, g[1..]) ==> c[|c| - |g| + 1] == '.'
  {
    if "*." <= g && HasSuffix(c, g[1..]) {
      assert g[1..][0] == '.';
      assert c[|c| - |g| + 1..][0] == '.';
    }
  }

  /** A list is sound exactly when it is clean. */
  lemma SoundExactly(granted: seq<string>)
    ensures Sound(granted) <==> Clean(granted)
  {
    if "*" in granted {
      forall p, w | Allows(granted, p) && Matches(p, w) ensures Allows(granted, w) {
        AllowsThrough(granted, "*", w);
      }
    } else if Clean(granted) {
      forall p, w | Allows(granted, p) && Matches(p, w) ensures Allows(granted, w) {
        var i :| 0 <= i < |granted| && Matches(granted[i], p);
        OneEndedIsTransitive(granted[i]);
      }
    } else {
      var i :| 0 <= i < |granted| && TwoEnded(granted[i]);
      var a, n := granted[i], Longest(granted) + 1;
      var q := Repeat('q', n);
      TwoEndedHandsOnTooMuch(a, q, q);
      assert Allows(granted, Middle(a, q));
      forall j | 0 <= j < |granted| ensures !Matches(granted[j], End(a, q, q)) {
        assert granted[j] in granted;
        OutOfReach(granted[j], a, n);
      }
      assert !Allows(granted, End(a, q, q));
    }
  }

  lemma IntersectAllows(permissions: seq<string>, granted: seq<string>, w: string)
    ensures Allows(Intersect(permissions, granted), w) ==> Allows(permissions, w)
    ensures Clean(granted) && Allows(Intersect(permissions, granted), w) ==> Allows(granted, w)
  {
    var kept := Intersect(permissions, granted);
    SoundExactly(granted);
    if Allows(kept, w) {
      var i :| 0 <= i < |kept| && Matches(kept[i], w);
      assert kept[i] in kept;
      AllowsThrough(permissions, kept[i], w);
    }
  }

  /** No intersection with the list allows a word the list denies. */
  ghost predicate Limits(granted: seq<string>) {
    forall permissions, w :: Allows(Intersect(permissions, granted), w) ==> Allows(granted, w)
  }

  lemma LimitsExactly(granted: seq<string>)
    ensures Limits(granted) <==> Clean(granted)
  {
    if Clean(granted) {
      forall permissions, w | Allows(Intersect(permissions, granted), w) ensures Allows(granted, w) {
        IntersectAllows(permissions, granted, w);
      }
    } else {
      SoundExactly(granted);
      var p, w :| Allows(granted, p) && Matches(p, w) && !Allows(granted, w);
      var kept := Intersect([p], granted);
      assert p in [p] && p in kept;
      AllowsThrough(kept, p, w);
      assert Allows(Intersect([p], granted), w);
    }
  }

  predicate StartsLike(got: string, wanted: string) { HasSuffix(got, ".*") && got[..|got| - 1] <= wanted }

  predicate EndsLike(got: string, wanted: string) { "*." <= got && HasSuffix(wanted, got[1..]) }

  lemma StartsExactly(got: string, wanted: string)
    ensures StartsLike(got, wanted) <==> exists front, rest :: got == front + ".*" && wanted == front + "." + rest
  {
    if StartsLike(got, wanted) {
      var front, rest := got[..|got| - 2], wanted[|got| - 1..];
      assert got == front + ".*" && got[..|got| - 1] == front + ".";
      assert wanted == front + "." + rest;
    }
    if front, rest :| got == front + ".*" && wanted == front + "." + rest {
      assert got[|got| - 2..] == ".*" && got[..|got| - 1] == front + ".";
    }
  }

  lemma EndsExactly(got: string, wanted: string)
    ensures EndsLike(got, wanted) <==> exists front, rest :: got == "*." + rest && wanted == front + "." + rest
  {
    if EndsLike(got, wanted) {
      var rest, front := got[2..], wanted[..|wanted| - |got| + 1];
      assert got == "*." + rest && got[1..] == "." + rest;
      assert wanted == front + got[1..];
      assert wanted == front + "." + rest;
    }
    if front, rest :| got == "*." + rest && wanted == front + "." + rest {
      assert got[1..] == "." + rest && wanted[|front|..] == "." + rest;
    }
  }

  /** A word allows itself; "*" allows everything, "x.*" what starts with "x." and "*.x" what ends with ".x"; nothing else. */
  lemma MatchesExactly(got: string, wanted: string)
    ensures Matches(got, wanted) <==>
            || got == wanted || got == "*"
            || (exists front, rest :: got == front + ".*" && wanted == front + "." + rest)
            || (exists front, rest :: got == "*." + rest && wanted == front + "." + rest)
  {
    StartsExactly(got, wanted);
    EndsExactly(got, wanted);
    assert Matches(got, wanted) <==> got == wanted || got == "*" || StartsLike(got, wanted) || EndsLike(got, wanted);
    hide Matches, StartsLike, EndsLike;
  }
}
