/** Datatypes and ASCII text functions shared by the other modules. */
module Common {

  datatype Option<+T> = None | Some(value: T)

  function Min(a: int, b: int): int { if a <= b then a else b }

  /** ASCII white space, as strings.TrimSpace and strings.Fields see it. */
  predicate IsSpace(c: char) { c == ' ' || '\t' <= c <= '\r' }

  function TrimLeft(s: string): (r: string)
    ensures r == [] || !IsSpace(r[0])
    ensures |r| <= |s| && r == s[|s| - |r|..]
  {
    if s != [] && IsSpace(s[0]) then TrimLeft(s[1..]) else s
  }

  function TrimRight(s: string): (r: string)
    ensures r == [] || !IsSpace(r[|r| - 1])
    ensures r <= s
  {
    if s != [] && IsSpace(s[|s| - 1]) then TrimRight(s[..|s| - 1]) else s
  }

  /** strings.TrimSpace on ASCII text. */
  function Trim(s: string): (r: string)
    ensures r != [] ==> !IsSpace(r[0]) && !IsSpace(r[|r| - 1])
  {
    TrimRight(TrimLeft(s))
  }

  function LowerChar(c: char): char {
    if 'A' <= c <= 'Z' then (c as int + 32) as char else c
  }

  /** strings.ToLower on ASCII text. */
  function Lower(s: string): (r: string)
    ensures |r| == |s|
    ensures forall i :: 0 <= i < |s| ==> r[i] == LowerChar(s[i])
  {
    seq(|s|, i requires 0 <= i < |s| => LowerChar(s[i]))
  }

  /** The position of the first c, or |s| when there is none. */
  function IndexOf(s: string, c: char): (n: nat)
    ensures n <= |s|
    ensures c !in s[..n]
    ensures n < |s| ==> s[n] == c
  {
    if s == [] || s[0] == c then 0 else 1 + IndexOf(s[1..], c)
  }

  /** The first c is where it is found with none before it. */
  lemma {:induction false} IndexOfIs(s: string, c: char, n: nat)
    requires n <= |s| && c !in s[..n] && (n < |s| ==> s[n] == c)
    ensures IndexOf(s, c) == n
  {
    if n > 0 {
      assert s[..n][0] == s[0] && s[..n][1..] == s[1..][..n - 1];
      IndexOfIs(s[1..], c, n - 1);
    }
  }

  predicate HasSuffix<T(==)>(s: seq<T>, suffix: seq<T>) {
    |suffix| <= |s| && s[|s| - |suffix|..] == suffix
  }

  // What trimming and lower case forget, and what they keep.

  /** The six characters of ASCII white space. */
  lemma SpaceExactly(c: char)
    ensures IsSpace(c) <==> c == ' ' || c == '\t' || c == '\n' || c as int == 11 || c as int == 12 || c == '\r'
  {
  }

  predicate AllSpace(s: string) { forall i :: 0 <= i < |s| ==> IsSpace(s[i]) }

  lemma {:induction false} TrimLeftExactly(pad: string, s: string)
    requires AllSpace(pad) && (s == "" || !IsSpace(s[0]))
    ensures TrimLeft(pad + s) == s
  {
    if pad == "" {
      assert pad + s == s;
    } else {
      assert (pad + s)[1..] == pad[1..] + s;
      TrimLeftExactly(pad[1..], s);
    }
  }

  lemma {:induction false} TrimRightExactly(s: string, pad: string)
    requires AllSpace(pad) && (s == "" || !IsSpace(s[|s| - 1]))
    ensures TrimRight(s + pad) == s
  {
    if pad == "" {
      assert s + pad == s;
    } else {
      assert (s + pad)[..|s + pad| - 1] == s + pad[..|pad| - 1];
      TrimRightExactly(s, pad[..|pad| - 1]);
    }
  }

  /** Trimming takes off the white space at both ends and nothing else. */
  lemma TrimExactly(before: string, s: string, after: string)
    requires AllSpace(before) && AllSpace(after)
    requires s != "" ==> !IsSpace(s[0])
    requires s != "" ==> !IsSpace(s[|s| - 1])
    ensures Trim(before + s + after) == s
  {
    if s == "" {
      assert before + s + after == before + after + "";
      TrimLeftExactly(before + after, "");
    } else {
      assert before + s + after == before + (s + after);
      TrimLeftExactly(before, s + after);
      TrimRightExactly(s, after);
    }
  }

  /** The two are one letter, in either case, or the same character. */
  predicate SameLetter(a: char, b: char) {
    || a == b
    || ('A' <= a <= 'Z' && b as int == a as int + 32)
    || ('A' <= b <= 'Z' && a as int == b as int + 32)
  }

  /** Lower case forgets the case of ASCII letters, and nothing else. */
  lemma LowerExactly(a: string, b: string)
    ensures Lower(a) == Lower(b) <==> |a| == |b| && forall i :: 0 <= i < |a| ==> SameLetter(a[i], b[i])
    ensures forall i :: 0 <= i < |a| ==> !('A' <= Lower(a)[i] <= 'Z')
  {
    var x, y := Lower(a), Lower(b);
    if |a| == |b| && forall i :: 0 <= i < |a| ==> SameLetter(a[i], b[i]) {
      assert forall i :: 0 <= i < |a| ==> x[i] == y[i];
    }
    if x == y {
      assert forall i :: 0 <= i < |a| ==> x[i] == LowerChar(a[i]) && y[i] == LowerChar(b[i]);
    }
  }

  lemma SuffixExactly<T>(s: seq<T>, suffix: seq<T>)
    ensures HasSuffix(s, suffix) <==> exists front :: s == front + suffix
  {
    if HasSuffix(s, suffix) {
      assert s == s[..|s| - |suffix|] + suffix;
    }
  }
}
