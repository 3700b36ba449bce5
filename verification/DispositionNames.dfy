/** What the two file names of a header keep of the original (internal/httpapi/disposition.go). */
module DispositionNames {
  import opened Common
  import opened Disposition

  // What the two names keep of the original.

  /** attr-char of section 3.2.1 of RFC 8187. */
  lemma AttrCharExactly(b: char)
    ensures AttrChar(b) <==>
            'a' <= b <= 'z' || 'A' <= b <= 'Z' || '0' <= b <= '9' || (exists i :: 0 <= i < 12 && b == "!#$&+-.^_`|~"[i])
  {
    var marks := "!#$&+-.^_`|~";
    assert marks == ['!', '#', '$', '&', '+', '-', '.', '^', '_', '`', '|', '~'];
    if AttrChar(b) && !('a' <= b <= 'z' || 'A' <= b <= 'Z' || '0' <= b <= '9') {
      assert b in marks;
    }
  }

  /** Characters that need no encoding stand for themselves. */
  lemma {:induction false} PlainStaysPlain(name: Bytes)
    requires forall i :: 0 <= i < |name| ==> AttrChar(name[i])
    ensures PercentEncode(name) == name
  {
    if name != "" {
      PlainStaysPlain(name[1..]);
      assert [name[0]] + name[1..] == name;
    }
  }

  /** The visible characters are kept in order and the others dropped, one by one. */
  lemma {:induction false} VisibleExactly(a: string, c: char, b: string)
    ensures VisiblePart(a + [c] + b) == VisiblePart(a) + (if ' ' <= c <= '~' then [c] else "") + VisiblePart(b)
  {
    var s := a + [c] + b;
    if a == "" {
      assert s == [c] + b && s[1..] == b;
    } else {
      VisibleExactly(a[1..], c, b);
      assert s[1..] == a[1..] + [c] + b && s[0] == a[0];
      var head := if ' ' <= a[0] <= '~' then [a[0]] else "";
      Regroup4(head, VisiblePart(a[1..]), if ' ' <= c <= '~' then [c] else "", VisiblePart(b));
    }
  }

  lemma Regroup4(a: string, b: string, c: string, d: string)
    ensures a + (b + c + d) == a + b + c + d
  {
  }

  predicate NoSpace(w: string) { forall i :: 0 <= i < |w| ==> !IsSpace(w[i]) }

  lemma {:induction false} WordEnds(w: string, rest: string)
    requires NoSpace(w) && (rest == "" || IsSpace(rest[0]))
    ensures TakeWord(w + rest) == w && DropWord(w + rest) == rest
  {
    if w == "" {
      assert w + rest == rest;
    } else {
      assert (w + rest)[1..] == w[1..] + rest;
      WordEnds(w[1..], rest);
      assert [w[0]] + w[1..] == w;
    }
  }

  /** White space separates the words of a name, and none of it is a word. */
  lemma WordsExactly(w: string, space: char, rest: string)
    requires NoSpace(w) && IsSpace(space)
    ensures Fields(w) == if w == "" then [] else [w]
    ensures Fields(w + [space] + rest) == Fields(w) + Fields(rest)
  {
    WordEnds(w, "");
    WordEnds(w, [space] + rest);
    assert w + "" == w && w + [space] + rest == w + ([space] + rest);
    assert ([space] + rest)[1..] == rest;
    if w == "" {
      assert w + ([space] + rest) == [space] + rest;
    }
  }

  /** The words are put together again with one space between them. */
  lemma {:induction false} JoinExactly(a: seq<string>, b: seq<string>, w: string)
    requires a != [] && b != []
    ensures Join(a + b) == Join(a) + " " + Join(b) && Join([w]) == w && Join([]) == ""
  {
    if |a| == 1 {
      assert (a + b)[1..] == b;
    } else {
      assert (a + b)[1..] == a[1..] + b;
      JoinExactly(a[1..], b, w);
      assert a[0] + " " + (Join(a[1..]) + " " + Join(b)) == a[0] + " " + Join(a[1..]) + " " + Join(b);
    }
  }

  lemma Snoc(a: string, e: string)
    requires e != ""
    ensures a + e == a + e[..|e| - 1] + [e[|e| - 1]] && e[..|e| - 1] + [e[|e| - 1]] == e
  {
  }

  lemma Without(e: string, c: char)
    requires e != "" && c !in e
    ensures c !in e[..|e| - 1] && e[|e| - 1] != c
  {
    assert e[|e| - 1] in e;
    assert forall x :: x in e[..|e| - 1] ==> x in e;
  }

  /** The extension is what follows the last dot of the last path element, with the dot. */
  lemma {:induction false} ExtExactly(front: string, e: string)
    requires '.' !in e && '/' !in e
    ensures Ext(front + ['.'] + e) == ['.'] + e
  {
    hide Ext;
    if e == "" {
      ExtAppend(front, '.');
      assert front + ['.'] + e == front + ['.'] && ['.'] + e == ".";
    } else {
      var rest, c := e[..|e| - 1], e[|e| - 1];
      Without(e, '.');
      Without(e, '/');
      Snoc(front + ['.'], e);
      Snoc(['.'], e);
      ExtExactly(front, rest);
      ExtAppend(front + ['.'] + rest, c);
    }
  }

  lemma ExtOfNothing()
    ensures Ext("") == ""
  {
  }

  /** Without a dot in its last path element a name has none. */
  lemma {:induction false} NoExt(front: string, e: string)
    requires '.' !in e && '/' !in e && (front == "" || front[|front| - 1] == '/')
    ensures Ext(front + e) == ""
  {
    hide Ext;
    if e == "" {
      assert front + e == front;
      ExtOfNothing();
      if front != "" {
        Snoc("", front);
        assert "" + front == front;
        ExtAppend(front[..|front| - 1], '/');
      }
    } else {
      var rest, c := e[..|e| - 1], e[|e| - 1];
      Without(e, '.');
      Without(e, '/');
      Snoc(front, e);
      NoExt(front, rest);
      ExtAppend(front + rest, c);
    }
  }

  lemma StemOf(front: string, ext: string)
    requires Ext(front + ext) == ext
    ensures Stem(front + ext) == front
  {
    hide Ext;
    assert (front + ext)[..|front|] == front;
  }

  /** A name with nothing but dots before its extension is called a document; any other stays as it is. */
  lemma TidyExactly(front: string, e: string)
    requires '.' !in e && '/' !in e
    ensures Tidy(front + (['.'] + e)) ==
            if forall i :: 0 <= i < |front| ==> front[i] == '.' then "document" + (['.'] + e) else front + (['.'] + e)
  {
    ExtExactly(front, e);
    assert front + ['.'] + e == front + (['.'] + e);
    StemOf(front, ['.'] + e);
    hide Ext, Stem;
  }

  /** A name without a dot stays, unless it is empty. */
  lemma TidyWithoutDots(e: string)
    requires '.' !in e && '/' !in e
    ensures Tidy(e) == if e == "" then "document" else e
  {
    NoExt("", e);
    assert "" + e == e && e + "" == e;
    StemOf(e, "");
    hide Ext, Stem;
    assert e != "" ==> e[0] in e;
  }

  /** A visible name in which spaces stand one at a time between words is kept, if it is tidy. */
  lemma ReadableKeeps(name: string)
    requires AllVisible(name) && Join(Fields(name)) == name && Tidy(name) == name
    ensures Readable(name) == name
  {
    VisibleStays(name);
  }

  lemma {:induction false} VisibleStays(name: string)
    requires AllVisible(name)
    ensures VisiblePart(name) == name
  {
    if name != "" {
      VisibleStays(name[1..]);
      assert [name[0]] + name[1..] == name;
    }
  }

  /** A percent sign is followed by the two digits of the byte, in upper case. */
  lemma HexExactly(b: char)
    requires b < 256 as char && !AttrChar(b)
    ensures var digits := "0123456789ABCDEF";
            EncodeByte(b) == ['%', digits[b as int / 16], digits[b as int % 16]]
  {
    var digits := "0123456789ABCDEF";
    assert digits == ['0', '1', '2', '3', '4', '5', '6', '7', '8', '9', 'A', 'B', 'C', 'D', 'E', 'F'];
    assert forall n: nat :: n < 16 ==> HexDigit(n) == digits[n];
  }
}
