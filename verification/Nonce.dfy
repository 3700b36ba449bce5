/** Adding the request's nonce to the script tags of a snippet (internal/tracking/tracking.go), on ASCII text. */
module Nonce {
  import opened Common

  /** The lower-cased text reads "<script" at k. */
  predicate TagAt(s: string, k: nat) {
    && k + 7 <= |s|
    && LowerChar(s[k]) == '<' && LowerChar(s[k + 1]) == 's' && LowerChar(s[k + 2]) == 'c' && LowerChar(s[k + 3]) == 'r'
    && LowerChar(s[k + 4]) == 'i' && LowerChar(s[k + 5]) == 'p' && LowerChar(s[k + 6]) == 't'
  }

  /** The lower-cased text reads "nonce=" at k. */
  predicate NonceAt(s: string, k: nat) {
    && k + 6 <= |s|
    && LowerChar(s[k]) == 'n' && LowerChar(s[k + 1]) == 'o' && LowerChar(s[k + 2]) == 'n'
    && LowerChar(s[k + 3]) == 'c' && LowerChar(s[k + 4]) == 'e' && LowerChar(s[k + 5]) == '='
  }

  /** strings.Index(strings.ToLower(s), "<script"), with |s| for -1. */
  function FindTag(s: string): (k: nat)
    ensures k == |s| || k + 7 <= |s|
  {
    if s == "" || TagAt(s, 0) then 0
    else if FindTag(s[1..]) == |s[1..]| then |s|
    else 1 + FindTag(s[1..])
  }

  lemma TagInSuffix(s: string, i: nat, k: nat)
    requires i <= |s|
    ensures TagAt(s[i..], k) <==> TagAt(s, i + k)
  {
    assert k + 7 <= |s[i..]| ==> s[i..][k..k + 7] == s[i + k..i + k + 7];
  }

  lemma {:induction false} FindTagIsFirst(s: string)
    ensures FindTag(s) < |s| ==> TagAt(s, FindTag(s))
    ensures forall j :: 0 <= j < FindTag(s) ==> !TagAt(s, j)
  {
    if s != "" && !TagAt(s, 0) {
      FindTagIsFirst(s[1..]);
      TagInSuffix(s, 1, FindTag(s[1..]));
      forall j | 0 < j < FindTag(s) ensures !TagAt(s, j) {
        TagInSuffix(s, 1, j - 1);
      }
    }
  }

  /** strings.Contains(strings.ToLower(s), "nonce="). */
  predicate ContainsNonce(s: string) {
    exists k :: 0 <= k < |s| && NonceAt(s, k)
  }

  /** "nonce=" stands before the next '>' or the end. */
  predicate Carries(s: string) {
    |s| >= 6 && (NonceAt(s, 0) || (s[0] != '>' && Carries(s[1..])))
  }

  function EscapeChar(c: char): (e: string)
    ensures '<' !in e && '>' !in e && '"' !in e
  {
    if c == '&' then "&amp;" else if c == '<' then "&lt;" else if c == '>' then "&gt;"
    else if c == '"' then "&#34;" else if c == '\'' then "&#39;" else [c]
  }

  /** html.EscapeString. */
  function HtmlEscape(s: string): (e: string)
    ensures '<' !in e && '>' !in e && '"' !in e
  {
    if s == "" then "" else EscapeChar(s[0]) + HtmlEscape(s[1..])
  }

  function Attribute(nonce: string): (attr: string)
    ensures '<' !in attr && '>' !in attr && |attr| >= 8 && attr[0] == ' ' && NonceAt(attr, 1)
  {
    " nonce=\"" + HtmlEscape(nonce) + "\""
  }

  // What a browser makes of the attribute.

  /** The text that stands for an escaped one, entity by entity. */
  function Unescape(e: string): string
    decreases |e|
  {
    if e == "" then ""
    else if "&amp;" <= e then "&" + Unescape(e[5..])
    else if "&lt;" <= e then "<" + Unescape(e[4..])
    else if "&gt;" <= e then ">" + Unescape(e[4..])
    else if "&#34;" <= e then "\"" + Unescape(e[5..])
    else if "&#39;" <= e then "'" + Unescape(e[5..])
    else [e[0]] + Unescape(e[1..])
  }

  lemma EscapedChar(c: char, rest: string)
    ensures Unescape(EscapeChar(c) + rest) == [c] + Unescape(rest)
  {
    var e, t := EscapeChar(c), EscapeChar(c) + rest;
    assert t[|e|..] == rest && t[..|e|] == e;
    if c == '&' || c == '<' || c == '>' || c == '"' || c == '\'' {
      assert e <= t;
      assert t[1] == e[1] && t[2] == e[2] && t[3] == e[3];
    } else {
      assert t[0] == c;
    }
  }

  lemma {:induction false} EscapeReads(s: string)
    ensures Unescape(HtmlEscape(s)) == s
  {
    if s != "" {
      EscapeReads(s[1..]);
      EscapedChar(s[0], HtmlEscape(s[1..]));
      hide Unescape, EscapeChar;
      assert [s[0]] + s[1..] == s;
    }
  }

  /** The attribute is nonce="...", ends at its own closing quote, and reads as the nonce it was made of. */
  lemma AttributeReads(nonce: string)
    ensures exists value :: Attribute(nonce) == " nonce=\"" + value + "\"" && '"' !in value && Unescape(value) == nonce
  {
    EscapeReads(nonce);
    assert Attribute(nonce) == " nonce=\"" + HtmlEscape(nonce) + "\"";
  }

  // The reference: what the output holds at each position of the snippet.

  /** A script tag's name ends at i, and the tag has no nonce of its own. */
  predicate Needs(s: string, i: nat) {
    7 <= i <= |s| && TagAt(s, i - 7) && !Carries(s[i..])
  }

  lemma ReadsScript(t: string)
    requires |t| == 7
    ensures t == "<script" <==>
            t[0] == '<' && t[1] == 's' && t[2] == 'c' && t[3] == 'r' && t[4] == 'i' && t[5] == 'p' && t[6] == 't'
  {
    assert t == [t[0], t[1], t[2], t[3], t[4], t[5], t[6]];
  }

  lemma ReadsNonce(t: string)
    requires |t| == 6
    ensures t == "nonce=" <==> t[0] == 'n' && t[1] == 'o' && t[2] == 'n' && t[3] == 'c' && t[4] == 'e' && t[5] == '='
  {
    assert t == [t[0], t[1], t[2], t[3], t[4], t[5]];
  }

  lemma TagAtExactly(s: string, k: nat)
    ensures TagAt(s, k) <==> k + 7 <= |s| && Lower(s[k..k + 7]) == "<script"
  {
    if k + 7 <= |s| {
      var low := Lower(s[k..k + 7]);
      assert forall j :: 0 <= j < 7 ==> low[j] == LowerChar(s[k + j]);
      ReadsScript(low);
    }
  }

  lemma NonceAtExactly(s: string, k: nat)
    ensures NonceAt(s, k) <==> k + 6 <= |s| && Lower(s[k..k + 6]) == "nonce="
  {
    if k + 6 <= |s| {
      var low := Lower(s[k..k + 6]);
      assert forall j :: 0 <= j < 6 ==> low[j] == LowerChar(s[k + j]);
      ReadsNonce(low);
    }
  }

  lemma {:induction false} CarriesExactly(s: string)
    ensures Carries(s) <==> exists k: nat :: k <= |s| && NonceAt(s, k) && '>' !in s[..k]
  {
    if |s| >= 6 {
      if NonceAt(s, 0) {
        assert s[..0] == "";
      } else if s[0] != '>' {
        CarriesExactly(s[1..]);
        if k: nat :| k <= |s[1..]| && NonceAt(s[1..], k) && '>' !in s[1..][..k] {
          assert NonceAt(s, k + 1) && s[..k + 1] == [s[0]] + s[1..][..k];
        }
        if k: nat :| k <= |s| && NonceAt(s, k) && '>' !in s[..k] {
          assert k > 0 && NonceAt(s[1..], k - 1);
          assert s[..k] == [s[0]] + s[1..][..k - 1];
        }
      } else {
        forall k: nat | k <= |s| && NonceAt(s, k) ensures '>' in s[..k] {
          assert k > 0 && s[..k][0] == '>';
        }
      }
    }
  }

  /** The text reads "nonce=" at p, in whatever case. */
  predicate ReadsNonceAt(s: string, p: nat) { p + 6 <= |s| && Lower(s[p..p + 6]) == "nonce=" }

  lemma NonceInSuffix(s: string, i: nat, p: nat)
    requires i <= p <= |s|
    ensures NonceAt(s[i..], p - i) <==> ReadsNonceAt(s, p)
    ensures s[i..][..p - i] == s[i..p]
  {
    NonceAtExactly(s[i..], p - i);
    hide NonceAt, Lower;
    assert p + 6 <= |s| ==> s[i..][p - i..p - i + 6] == s[p..p + 6];
  }

  lemma CarriesFrom(s: string, i: nat)
    requires i <= |s|
    ensures Carries(s[i..]) <==> exists p: nat :: i <= p <= |s| && ReadsNonceAt(s, p) && '>' !in s[i..p]
  {
    CarriesExactly(s[i..]);
    hide Carries, NonceAt, ReadsNonceAt;
    if Carries(s[i..]) {
      var k: nat :| k <= |s[i..]| && NonceAt(s[i..], k) && '>' !in s[i..][..k];
      NonceInSuffix(s, i, i + k);
    }
    if p: nat :| i <= p <= |s| && ReadsNonceAt(s, p) && '>' !in s[i..p] {
      NonceInSuffix(s, i, p);
    }
  }

  /** A tag needs the attribute when nothing between its name and the next '>' reads "nonce=". */
  lemma NeedsExactly(s: string, i: nat)
    requires i <= |s|
    ensures Needs(s, i) <==>
            && 7 <= i && Lower(s[i - 7..i]) == "<script"
            && !exists p: nat :: i <= p <= |s| && ReadsNonceAt(s, p) && '>' !in s[i..p]
  {
    if 7 <= i {
      TagAtExactly(s, i - 7);
      CarriesFrom(s, i);
      hide Carries, TagAt, ReadsNonceAt;
    }
  }

  /** The output from position i on: the attribute goes exactly where it is needed, and every character of the snippet follows. */
  function Injected(s: string, attr: string, i: nat): string
    requires i <= |s|
    decreases |s| - i, 1
  {
    if Needs(s, i) then attr + FromChar(s, attr, i) else FromChar(s, attr, i)
  }

  function FromChar(s: string, attr: string, i: nat): string
    requires i <= |s|
    decreases |s| - i, 0
  {
    if i == |s| then "" else [s[i]] + Injected(s, attr, i + 1)
  }

  function WithNonce(snippet: string, nonce: string): string {
    if nonce == "" || snippet == "" then snippet else Injected(snippet, Attribute(nonce), 0)
  }

  // Deleting the inserted characters gives the snippet back.

  /** Which characters of Injected(s, attr, i) were inserted. */
  function Inserted(s: string, attr: string, i: nat): (mask: seq<bool>)
    requires i <= |s|
    ensures |mask| == |Injected(s, attr, i)|
    decreases |s| - i
  {
    var own := if i == |s| then [] else [false] + Inserted(s, attr, i + 1);
    if Needs(s, i) then seq(|attr|, _ => true) + own else own
  }

  function Delete(s: string, mask: seq<bool>): string
    requires |s| == |mask|
  {
    if s == "" then "" else (if mask[0] then "" else [s[0]]) + Delete(s[1..], mask[1..])
  }

  lemma {:induction false} DeletePrefix(a: string, rest: string, mask: seq<bool>)
    requires |rest| == |mask|
    ensures Delete(a + rest, seq(|a|, _ => true) + mask) == Delete(rest, mask)
  {
    var all := seq(|a|, _ => true) + mask;
    if a == "" {
      assert a + rest == rest && all == mask;
    } else {
      assert (a + rest)[1..] == a[1..] + rest;
      assert all[1..] == seq(|a[1..]|, _ => true) + mask;
      DeletePrefix(a[1..], rest, mask);
    }
  }

  lemma {:induction false} DeletingGivesBack(s: string, attr: string, i: nat)
    requires i <= |s|
    ensures Delete(Injected(s, attr, i), Inserted(s, attr, i)) == s[i..]
    decreases |s| - i
  {
    var own := if i == |s| then [] else [false] + Inserted(s, attr, i + 1);
    if i < |s| {
      DeletingGivesBack(s, attr, i + 1);
      var rest := Injected(s, attr, i + 1);
      assert ([s[i]] + rest)[1..] == rest && own[1..] == Inserted(s, attr, i + 1);
      assert s[i..] == [s[i]] + s[i + 1..];
    }
    assert Delete(FromChar(s, attr, i), own) == s[i..];
    if Needs(s, i) {
      DeletePrefix(attr, FromChar(s, attr, i), own);
    }
  }

  predicate AllTrue(mask: seq<bool>) { forall i :: 0 <= i < |mask| ==> mask[i] }

  /** Wherever the marked characters begin they spell the attribute, all of it, and an unmarked one or the end follows. */
  predicate Spells(t: string, mask: seq<bool>, attr: string)
    requires |t| == |mask| && attr != ""
    decreases |t|
  {
    if t == "" then true
    else if !mask[0] then Spells(t[1..], mask[1..], attr)
    else
      && |attr| <= |t| && t[..|attr|] == attr && AllTrue(mask[..|attr|])
      && (|attr| == |t| || !mask[|attr|])
      && Spells(t[|attr|..], mask[|attr|..], attr)
  }

  lemma SpellsFrom(attr: string, rest: string, mask: seq<bool>)
    requires attr != "" && |rest| == |mask| && (rest == "" || !mask[0]) && Spells(rest, mask, attr)
    ensures Spells(attr + rest, seq(|attr|, _ => true) + mask, attr)
  {
    var marks := seq(|attr|, _ => true);
    assert (attr + rest)[..|attr|] == attr && (attr + rest)[|attr|..] == rest;
    assert (marks + mask)[..|attr|] == marks && (marks + mask)[|attr|..] == mask;
    assert (marks + mask)[0];
  }

  lemma {:induction false} InsertedSpells(s: string, attr: string, i: nat)
    requires i <= |s| && attr != ""
    ensures Spells(Injected(s, attr, i), Inserted(s, attr, i), attr)
    decreases |s| - i
  {
    var own := if i == |s| then [] else [false] + Inserted(s, attr, i + 1);
    if i < |s| {
      InsertedSpells(s, attr, i + 1);
      var rest := Injected(s, attr, i + 1);
      assert ([s[i]] + rest)[1..] == rest && own[1..] == Inserted(s, attr, i + 1);
    }
    assert Spells(FromChar(s, attr, i), own, attr);
    if Needs(s, i) {
      SpellsFrom(attr, FromChar(s, attr, i), own);
    }
  }

  // Every script tag of the output carries a nonce.

  /** Every "<script" of t has "nonce=" before its next '>' or the end. */
  predicate AllCarry(t: string) {
    |t| < 7 || ((TagAt(t, 0) ==> Carries(t[7..])) && AllCarry(t[1..]))
  }

  lemma {:induction false} AllCarryAt(t: string, k: nat)
    requires AllCarry(t) && TagAt(t, k)
    ensures Carries(t[k + 7..])
  {
    if k > 0 {
      assert TagAt(t[1..], k - 1);
      AllCarryAt(t[1..], k - 1);
      assert t[1..][k + 6..] == t[k + 7..];
    }
  }

  lemma {:induction false} CarriesAfter(a: string, t: string)
    requires '>' !in a && |a| >= 7 && NonceAt(a, 1)
    ensures Carries(a + t)
  {
    var w := a + t;
    assert w[0] == a[0] && NonceAt(w[1..], 0);
  }

  /** A nonce the snippet already has is still there, and still ahead of the '>'. */
  lemma {:induction false} KeepsCarrying(s: string, attr: string, i: nat)
    requires i <= |s| && '>' !in attr && |attr| >= 7 && NonceAt(attr, 1)
    requires Carries(s[i..]) || Needs(s, i)
    ensures Carries(Injected(s, attr, i))
    decreases |s| - i
  {
    if Needs(s, i) {
      CarriesAfter(attr, FromChar(s, attr, i));
    } else if NonceAt(s[i..], 0) {
      assert forall j :: 0 <= j < 6 ==> s[i..][j] == s[i + j];
      NonceIsKept(s, attr, i);
    } else {
      assert s[i..][1..] == s[i + 1..];
      KeepsCarrying(s, attr, i + 1);
      var rest := Injected(s, attr, i + 1);
      assert ([s[i]] + rest)[1..] == rest;
      assert |rest| >= 6;
    }
  }

  /** A place the attribute goes to follows a 't'. */
  lemma NeedsFollowsT(s: string, p: nat)
    requires 0 < p <= |s| && LowerChar(s[p - 1]) != 't'
    ensures !Needs(s, p) && Injected(s, "", p) == FromChar(s, "", p)
    ensures forall attr :: Injected(s, attr, p) == FromChar(s, attr, p)
  {
    assert 7 <= p ==> s[p - 7 + 6] == s[p - 1];
  }

  /** No attribute lands inside the word "nonce=". */
  lemma NonceIsKept(s: string, attr: string, i: nat)
    requires NonceAt(s, i) && !Needs(s, i)
    ensures NonceAt(Injected(s, attr, i), 0)
  {
    NeedsFollowsT(s, i + 1);
    NeedsFollowsT(s, i + 2);
    NeedsFollowsT(s, i + 3);
    NeedsFollowsT(s, i + 4);
    NeedsFollowsT(s, i + 5);
    var t1, t2, t3 := FromChar(s, attr, i + 1), FromChar(s, attr, i + 2), FromChar(s, attr, i + 3);
    var t4, t5 := FromChar(s, attr, i + 4), FromChar(s, attr, i + 5);
    assert t4 == [s[i + 4]] + t5;
    assert t3 == [s[i + 3]] + t4;
    assert t2 == [s[i + 2]] + t3;
    assert t1 == [s[i + 1]] + t2;
    assert FromChar(s, attr, i) == [s[i]] + t1;
    assert t5[0] == s[i + 5];
  }

  /** The lower-cased text reads "<script" from its j-th character on, at k. */
  predicate RestOfTagAt(s: string, k: nat, j: nat)
    requires j <= 7
    decreases 7 - j
  {
    j == 7 || (k < |s| && LowerChar(s[k]) == "<script"[j] && RestOfTagAt(s, k + 1, j + 1))
  }

  lemma RestOfTagAtStart(s: string, k: nat)
    ensures RestOfTagAt(s, k, 0) <==> TagAt(s, k)
  {
    var upToP := k + 6 < |s| && LowerChar(s[k + 5]) == 'p' && LowerChar(s[k + 6]) == 't';
    assert RestOfTagAt(s, k + 6, 6) == (k + 6 < |s| && LowerChar(s[k + 6]) == 't');
    assert RestOfTagAt(s, k + 5, 5) == upToP;
    assert RestOfTagAt(s, k + 3, 3) == (upToP && LowerChar(s[k + 3]) == 'r' && LowerChar(s[k + 4]) == 'i');
    assert RestOfTagAt(s, k + 2, 2) == (LowerCharIs(s, k + 2, 'c') && RestOfTagAt(s, k + 3, 3));
  }

  predicate LowerCharIs(s: string, k: nat, c: char) { k < |s| && LowerChar(s[k]) == c }

  lemma {:induction false} RestOfTagShift(c: char, t: string, k: nat, j: nat)
    requires j <= 7
    ensures RestOfTagAt([c] + t, k + 1, j) <==> RestOfTagAt(t, k, j)
    decreases 7 - j
  {
    if j < 7 { RestOfTagShift(c, t, k + 1, j + 1); }
  }

  /** A "<script" of the output, read from its j-th character on, is one of the snippet. */
  lemma {:induction false} TagIsOriginal(s: string, attr: string, i: nat, j: nat)
    requires i < |s| && j < 7 && RestOfTagAt(FromChar(s, attr, i), 0, j)
    ensures RestOfTagAt(s, i, j) && i + 7 - j <= |s|
    ensures |FromChar(s, attr, i)| >= 7 - j && FromChar(s, attr, i)[7 - j..] == Injected(s, attr, i + 7 - j)
    decreases 7 - j
  {
    var t, rest := FromChar(s, attr, i), Injected(s, attr, i + 1);
    assert t == [s[i]] + rest;
    RestOfTagShift(s[i], rest, 0, j + 1);
    if j < 6 {
      assert "<script"[j] != 't';
      NeedsFollowsT(s, i + 1);
      assert i + 1 < |s| by { assert RestOfTagAt(rest, 0, j + 1) && |rest| > 0; }
      assert rest == FromChar(s, attr, i + 1);
      TagIsOriginal(s, attr, i + 1, j + 1);
      DropPastHead(s[i], rest, 6 - j);
    } else {
      assert t[1..] == rest;
    }
  }

  lemma DropPastHead(c: char, rest: string, n: nat)
    requires n <= |rest|
    ensures ([c] + rest)[n + 1..] == rest[n..]
  {
  }

  lemma TagStartCarries(s: string, attr: string, i: nat)
    requires i < |s| && '>' !in attr && |attr| >= 7 && NonceAt(attr, 1)
    requires TagAt(FromChar(s, attr, i), 0)
    ensures Carries(FromChar(s, attr, i)[7..])
  {
    RestOfTagAtStart(FromChar(s, attr, i), 0);
    TagIsOriginal(s, attr, i, 0);
    RestOfTagAtStart(s, i);
    KeepsCarrying(s, attr, i + 7);
  }

  lemma {:induction false} PrefixWithoutTag(a: string, t: string)
    requires '<' !in a && AllCarry(t)
    ensures AllCarry(a + t)
  {
    if a == "" {
      assert a + t == t;
    } else {
      assert (a + t)[1..] == a[1..] + t && (a + t)[0] == a[0];
      PrefixWithoutTag(a[1..], t);
    }
  }

  lemma {:induction false} OutputCarries(s: string, attr: string, i: nat)
    requires i <= |s| && '<' !in attr && '>' !in attr && |attr| >= 7 && NonceAt(attr, 1)
    ensures AllCarry(Injected(s, attr, i))
    decreases |s| - i
  {
    if i < |s| {
      OutputCarries(s, attr, i + 1);
      var t, rest := FromChar(s, attr, i), Injected(s, attr, i + 1);
      assert t[1..] == rest;
      if TagAt(t, 0) { TagStartCarries(s, attr, i); }
      assert AllCarry(t);
    }
    PrefixWithoutTag(attr, FromChar(s, attr, i));
  }

  lemma {:induction false} NothingToDo(s: string, attr: string, i: nat)
    requires i <= |s| && AllCarry(s)
    ensures Injected(s, attr, i) == s[i..]
    decreases |s| - i
  {
    if Needs(s, i) { AllCarryAt(s, i - 7); }
    if i < |s| { NothingToDo(s, attr, i + 1); }
  }

  /** With a nonce to give, every script tag of the output carries one, and no later pass with any nonce changes it. */
  lemma WithNonceIsComplete(snippet: string, nonce: string, later: string)
    requires nonce != ""
    ensures AllCarry(WithNonce(snippet, nonce))
    ensures WithNonce(WithNonce(snippet, nonce), later) == WithNonce(snippet, nonce)
  {
    var out := WithNonce(snippet, nonce);
    if snippet != "" {
      OutputCarries(snippet, Attribute(nonce), 0);
    }
    NothingToDo(out, Attribute(later), 0);
  }

  /** Everything inserted is a copy of the attribute; deleting it gives the snippet back. */
  lemma WithNonceOnlyInserts(snippet: string, nonce: string)
    requires nonce != "" && snippet != ""
    ensures Spells(WithNonce(snippet, nonce), Inserted(snippet, Attribute(nonce), 0), Attribute(nonce))
    ensures Delete(WithNonce(snippet, nonce), Inserted(snippet, Attribute(nonce), 0)) == snippet
  {
    InsertedSpells(snippet, Attribute(nonce), 0);
    DeletingGivesBack(snippet, Attribute(nonce), 0);
    assert snippet[0..] == snippet;
  }

  // The scan.

  lemma {:induction false} CutCarries(s: string)
    ensures ContainsNonce(s[..IndexOf(s, '>')]) <==> Carries(s)
  {
    var cut := s[..IndexOf(s, '>')];
    if s == "" || s[0] == '>' {
      assert cut == "";
    } else {
      CutCarries(s[1..]);
      var rest := s[1..][..IndexOf(s[1..], '>')];
      assert cut[1..] == rest && cut == [s[0]] + rest;
      if ContainsNonce(cut) {
        var k :| 0 <= k < |cut| && NonceAt(cut, k);
        if k > 0 { assert NonceAt(rest, k - 1); } else { assert NonceAt(s, 0); }
      }
      if Carries(s) {
        if NonceAt(s, 0) {
          assert |cut| >= 6;
          assert NonceAt(cut, 0);
        } else {
          var k :| 0 <= k < |rest| && NonceAt(rest, k);
          assert NonceAt(cut, k + 1);
        }
      }
    }
  }

  lemma Regroup(a: string, b: string, c: string)
    ensures a + (b + c) == a + b + c
  {
  }

  lemma CopyStep(s: string, attr: string, i: nat)
    requires i < |s| && !Needs(s, i + 1)
    ensures FromChar(s, attr, i) == [s[i]] + FromChar(s, attr, i + 1)
  {
  }

  lemma SliceStep(s: string, i: nat, end: nat)
    requires i < end <= |s|
    ensures s[i..end] == [s[i]] + s[i + 1..end]
  {
  }

  /** Between two finds of the scan nothing is inserted. */
  lemma {:induction false} CopiedUpTo(s: string, attr: string, i: nat, end: nat)
    requires i < end <= |s|
    requires forall p :: i < p < end ==> !Needs(s, p)
    ensures FromChar(s, attr, i) == s[i..end] + Injected(s, attr, end)
    decreases end - i
  {
    SliceStep(s, i, end);
    if i + 1 < end {
      hide FromChar, Injected, Needs;
      CopyStep(s, attr, i);
      CopiedUpTo(s, attr, i + 1, end);
      Regroup([s[i]], s[i + 1..end], Injected(s, attr, end));
    } else {
      hide Injected, Needs;
      assert s[i..end] == [s[i]];
    }
  }

  /** The attribute goes where it is needed and nowhere else: up to the next such place the snippet is copied as it is. */
  lemma InsertsExactly(s: string, attr: string, i: nat, j: nat)
    requires i < j <= |s| && forall k :: i < k < j ==> !Needs(s, k)
    ensures Injected(s, attr, i) == (if Needs(s, i) then attr else "") + (s[i..j] + Injected(s, attr, j))
  {
    CopiedUpTo(s, attr, i, j);
    hide FromChar, Needs;
    assert "" + FromChar(s, attr, i) == FromChar(s, attr, i);
  }

  /** Tags do not overlap. */
  lemma InsideTag(s: string, k: nat, q: nat)
    requires TagAt(s, k) && k < q < k + 7
    ensures !TagAt(s, q)
  {
    assert s[q] == s[k + (q - k)];
    assert LowerChar(s[k + 1]) != '<' && LowerChar(s[k + 2]) != '<' && LowerChar(s[k + 3]) != '<'
        && LowerChar(s[k + 4]) != '<' && LowerChar(s[k + 5]) != '<' && LowerChar(s[k + 6]) != '<';
  }

  /** The next tag the scan finds is the next one there is: tags do not overlap. */
  lemma NoTagBetween(s: string, i: nat, k: nat)
    requires i <= |s| && (i == 0 || (i >= 7 && TagAt(s, i - 7)))
    requires i + k <= |s| && forall j :: 0 <= j < k ==> !TagAt(s[i..], j)
    ensures forall p :: i < p < i + k + 7 && p <= |s| ==> !Needs(s, p)
  {
    forall p | i < p < i + k + 7 && p <= |s| ensures !Needs(s, p) {
      if p >= 7 {
        var q := p - 7;
        if q >= i {
          assert !TagAt(s[i..], q - i);
        } else {
          InsideTag(s, i - 7, q);
        }
      }
    }
  }

  /** One turn of the scan: the text up to the end of the next tag's name, the attribute if the tag carries none, and the rest. */
  function Turn(remaining: string, attr: string, rest: string): string
    requires FindTag(remaining) < |remaining|
  {
    var end := FindTag(remaining) + 7;
    remaining[..end] + ((if Carries(remaining[end..]) then "" else attr) + rest)
  }

  lemma ScanStep(s: string, attr: string, i: nat, t: string)
    requires i <= |s| && t == s[i..] && (i == 0 || (i >= 7 && TagAt(s, i - 7)))
    requires FindTag(t) < |t|
    ensures var end := FindTag(t) + 7;
            && TagAt(s, i + end - 7) && t[end..] == s[i + end..]
            && FromChar(s, attr, i) == Turn(t, attr, FromChar(s, attr, i + end))
  {
    var k := FindTag(t);
    FindTagIsFirst(t);
    TagInSuffix(s, i, k);
    NoTagBetween(s, i, k);
    CopiedUpTo(s, attr, i, i + k + 7);
    assert t[..k + 7] == s[i..i + k + 7] && t[k + 7..] == s[i + k + 7..];
    assert "" + FromChar(s, attr, i + k + 7) == FromChar(s, attr, i + k + 7);
  }

  lemma ScanEnd(s: string, attr: string, i: nat)
    requires i <= |s| && (i == 0 || (i >= 7 && TagAt(s, i - 7)))
    requires FindTag(s[i..]) == |s[i..]|
    ensures FromChar(s, attr, i) == s[i..]
  {
    FindTagIsFirst(s[i..]);
    NoTagBetween(s, i, |s| - i);
    if i < |s| { CopiedUpTo(s, attr, i, |s|); }
  }

  /** What the scan makes of the text it has not read yet. */
  function Scan(remaining: string, attr: string): string
    decreases |remaining|
  {
    if FindTag(remaining) == |remaining| then remaining
    else Turn(remaining, attr, Scan(remaining[FindTag(remaining) + 7..], attr))
  }

  /** The scan does to each position what the reference says. */
  lemma {:induction false} ScanIsInjected(s: string, attr: string, i: nat)
    requires i <= |s| && (i == 0 || (i >= 7 && TagAt(s, i - 7)))
    ensures Scan(s[i..], attr) == FromChar(s, attr, i)
    decreases |s| - i
  {
    var t := s[i..];
    if FindTag(t) == |t| {
      ScanEnd(s, attr, i);
    } else {
      ScanStep(s, attr, i, t);
      ScanIsInjected(s, attr, i + FindTag(t) + 7);
      assert Scan(t, attr) == Turn(t, attr, Scan(t[FindTag(t) + 7..], attr));
    }
  }

  lemma TurnKeeps(builder: string, remaining: string, attr: string)
    requires FindTag(remaining) < |remaining|
    ensures var end := FindTag(remaining) + 7;
            builder + remaining[..end] + (if Carries(remaining[end..]) then "" else attr) + Scan(remaining[end..], attr)
            == builder + Scan(remaining, attr)
  {
    var end := FindTag(remaining) + 7;
    var piece, added, rest := remaining[..end], if Carries(remaining[end..]) then "" else attr, Scan(remaining[end..], attr);
    assert builder + piece + added + rest == builder + (piece + (added + rest));
  }

  method AddNonce(snippet: string, nonce: string) returns (output: string)
    ensures output == WithNonce(snippet, nonce)
  {
    if nonce == "" || snippet == "" {
      return snippet;
    }
    var builder, remaining, attr := "", snippet, Attribute(nonce);
    while true
      invariant builder + Scan(remaining, attr) == Scan(snippet, attr)
      decreases |remaining|
    {
      var index := FindTag(remaining);
      if index == |remaining| {
        ScanIsInjected(snippet, attr, 0);
        assert snippet[0..] == snippet;
        return builder + remaining;
      }
      TurnKeeps(builder, remaining, attr);
      var end := index + |"<script"|;
      builder := builder + remaining[..end];
      remaining := remaining[end..];
      CutCarries(remaining);
      if !ContainsNonce(remaining[..IndexOf(remaining, '>')]) {
        builder := builder + attr;
      } else {
        assert builder + "" == builder;
      }
    }
  }
}
