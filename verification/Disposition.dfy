/** The Content-Disposition header of a download (internal/httpapi/disposition.go), and readers for what it carries. */
module Disposition {
  import opened Common

  /** A byte string: every character stands for one byte. */
  type Bytes = s: string | forall i :: 0 <= i < |s| ==> s[i] < 256 as char

  // The ext-value of section 3.2.1 of RFC 8187.

  predicate AttrChar(b: char) {
    'A' <= b <= 'Z' || 'a' <= b <= 'z' || '0' <= b <= '9' 
    || b == '!' || b == '#' || b == '$' || b == '&' || b == '+' || b == '-' || b == '.'
    || b == '^' || b == '_' || b == '`' || b == '|' || b == '~'
  }

  function HexDigit(n: nat): (c: char)
    requires n < 16
    ensures HexValue(c) == Some(n)
  {
    if n < 10 then ('0' as int + n) as char else ('A' as int + n - 10) as char
  }

  function HexValue(c: char): (v: Option<nat>)
    ensures v.Some? ==> v.value < 16
  {
    if '0' <= c <= '9' then Some(c as int - '0' as int)
    else if 'A' <= c <= 'F' then Some(c as int - 'A' as int + 10)
    else if 'a' <= c <= 'f' then Some(c as int - 'a' as int + 10)
    else None
  }

  function EncodeByte(b: char): string
    requires b < 256 as char
  {
    if AttrChar(b) then [b] else ['%', HexDigit(b as int / 16), HexDigit(b as int % 16)]
  }

  function PercentEncode(name: Bytes): string {
    if name == "" then "" else EncodeByte(name[0]) + PercentEncode(name[1..])
  }

  /** Reads an ext-value; None when a character is neither attr-char nor part of a %XX. */
  function PercentDecode(value: string): Option<string> {
    if value == "" then Some("")
    else if value[0] == '%' then
      if |value| < 3 || HexValue(value[1]) == None || HexValue(value[2]) == None then None
      else
        match PercentDecode(value[3..])
        case None => None
        case Some(rest) => Some([(16 * HexValue(value[1]).value + HexValue(value[2]).value) as char] + rest)
    else if !AttrChar(value[0]) then None
    else
      match PercentDecode(value[1..])
      case None => None
      case Some(rest) => Some([value[0]] + rest)
  }

  lemma DecodeByte(b: char, rest: string, decoded: string)
    requires b < 256 as char && PercentDecode(rest) == Some(decoded)
    ensures PercentDecode(EncodeByte(b) + rest) == Some([b] + decoded)
  {
    var value := EncodeByte(b) + rest;
    if AttrChar(b) {
      assert value[0] == b && value[1..] == rest;
    } else {
      assert value[0] == '%' && value[3..] == rest;
      assert value[1] == HexDigit(b as int / 16) && value[2] == HexDigit(b as int % 16);
      assert 16 * (b as int / 16) + b as int % 16 == b as int;
    }
  }

  /** Every name survives: the value is grammatical and reads back byte for byte. */
  lemma {:induction false} PercentRoundTrip(name: Bytes)
    ensures PercentDecode(PercentEncode(name)) == Some(name)
  {
    if name != "" {
      PercentRoundTrip(name[1..]);
      DecodeByte(name[0], PercentEncode(name[1..]), name[1..]);
      assert name == [name[0]] + name[1..];
    }
  }

  lemma EncodeStep(name: Bytes, i: nat)
    requires i < |name|
    ensures PercentEncode(name[i..]) == EncodeByte(name[i]) + PercentEncode(name[i + 1..])
  {
    assert name[i..][1..] == name[i + 1..];
  }

  method EncodeExtValue(name: Bytes) returns (value: string)
    ensures value == PercentEncode(name)
  {
    value := "";
    var i := 0;
    assert name[0..] == name;
    while i < |name|
      invariant 0 <= i <= |name|
      invariant value + PercentEncode(name[i..]) == PercentEncode(name)
    {
      hide PercentEncode;
      EncodeStep(name, i);
      Regroup(value, EncodeByte(name[i]), PercentEncode(name[i + 1..]));
      var c := name[i];
      i := i + 1;
      if AttrChar(c) {
        value := value + [c];
        continue;
      }
      value := value + ['%', HexDigit(c as int / 16), HexDigit(c as int % 16)];
    }
    assert name[|name|..] == "";
  }

  lemma Regroup(a: string, b: string, c: string)
    ensures a + (b + c) == a + b + c
  {
  }

  // The quoted-string of section 5.6.4 of RFC 9110.

  predicate Visible(c: char) { ' ' <= c <= '~' }

  function VisiblePart(name: string): (v: string)
    ensures AllVisible(v)
  {
    if name == "" then ""
    else (if Visible(name[0]) then [name[0]] else "") + VisiblePart(name[1..])
  }

  function EscapeChar(c: char): string { if c == '"' || c == '\\' then ['\\', c] else [c] }

  function Escape(s: string): string {
    if s == "" then "" else EscapeChar(s[0]) + Escape(s[1..])
  }

  /** Reads the inside of a quoted-string up to its closing quote: what it says, and what follows the quote. */
  function ReadQuoted(s: string): Option<(string, string)> {
    if s == "" then None
    else if s[0] == '"' then Some(("", s[1..]))
    else if s[0] == '\\' then
      if |s| < 2 || !Visible(s[1]) then None
      else
        match ReadQuoted(s[2..])
        case None => None
        case Some((value, rest)) => Some(([s[1]] + value, rest))
    else if !Visible(s[0]) then None
    else
      match ReadQuoted(s[1..])
      case None => None
      case Some((value, rest)) => Some(([s[0]] + value, rest))
  }

  lemma ReadChar(c: char, rest: string, value: string, after: string)
    requires Visible(c) && ReadQuoted(rest) == Some((value, after))
    ensures ReadQuoted(EscapeChar(c) + rest) == Some(([c] + value, after))
  {
    var whole := EscapeChar(c) + rest;
    if c == '"' || c == '\\' {
      assert whole[0] == '\\' && whole[1] == c && whole[2..] == rest;
    } else {
      assert whole[0] == c && whole[1..] == rest;
    }
  }

  /** Escaped text cannot end its own quoted-string, and reads back as itself. */
  lemma {:induction false} QuotedRoundTrip(s: string, rest: string)
    requires AllVisible(s)
    ensures ReadQuoted(Escape(s) + ['"'] + rest) == Some((s, rest))
  {
    if s == "" {
      assert (['"'] + rest)[1..] == rest;
      assert Escape(s) + ['"'] + rest == ['"'] + rest;
    } else {
      QuotedRoundTrip(s[1..], rest);
      var tail := Escape(s[1..]) + ['"'] + rest;
      ReadChar(s[0], tail, s[1..], rest);
      assert Escape(s) + ['"'] + rest == EscapeChar(s[0]) + tail;
      assert s == [s[0]] + s[1..];
    }
  }

  // strings.Fields, strings.Join and filepath.Ext.

  ghost predicate AllVisible(s: string) { forall i :: 0 <= i < |s| ==> Visible(s[i]) }

  function TakeWord(s: string): (w: string)
    ensures AllVisible(s) ==> AllVisible(w)
  {
    if s == "" || IsSpace(s[0]) then "" else [s[0]] + TakeWord(s[1..])
  }

  function DropWord(s: string): (rest: string)
    ensures |rest| <= |s| && (s != "" && !IsSpace(s[0]) ==> |rest| < |s|)
    ensures AllVisible(s) ==> AllVisible(rest)
  {
    if s == "" || IsSpace(s[0]) then s else DropWord(s[1..])
  }

  function Fields(s: string): (words: seq<string>)
    ensures AllVisible(s) ==> forall w :: w in words ==> AllVisible(w)
    decreases |s|
  {
    if s == "" then []
    else if IsSpace(s[0]) then Fields(s[1..])
    else [TakeWord(s)] + Fields(DropWord(s))
  }

  function Join(words: seq<string>): (s: string)
    ensures (forall w :: w in words ==> AllVisible(w)) ==> AllVisible(s)
  {
    if words == [] then ""
    else if |words| == 1 then words[0]
    else
      assert words[0] in words && forall w :: w in words[1..] ==> w in words;
      words[0] + " " + Join(words[1..])
  }

  function Ext(s: string): (e: string)
    ensures |e| <= |s| && s[|s| - |e|..] == e
  {
    if s == "" then ""
    else
      var last := s[|s| - 1];
      if last == '/' then ""
      else if last == '.' then "."
      else if Ext(s[..|s| - 1]) == "" then ""
      else Ext(s[..|s| - 1]) + [last]
  }

  function Stem(s: string): string { s[..|s| - |Ext(s)|] }

  predicate AllDots(s: string) { forall i :: 0 <= i < |s| ==> s[i] == '.' }

  /** A name that is nothing but dots before its extension gets a stem. */
  function Tidy(name: string): (r: string)
    ensures r != "" && (AllVisible(name) ==> AllVisible(r))
  {
    if AllDots(Stem(name)) then "document" + Ext(name) else name
  }

  /** What a client without filename* ends up calling the file: the visible ASCII of the name, its blanks collapsed, with a usable stem. */
  function Readable(name: string): (r: string)
    ensures r != "" && AllVisible(r)
  {
    Tidy(Join(Fields(VisiblePart(name))))
  }

  // Escaping commutes with each of them, so the code may escape first and tidy afterwards.

  lemma {:induction false} EscapeAppend(a: string, b: string)
    ensures Escape(a + b) == Escape(a) + Escape(b)
  {
    if a == "" {
      assert a + b == b;
    } else {
      assert (a + b)[1..] == a[1..] + b;
      EscapeAppend(a[1..], b);
    }
  }

  function EscapeAll(words: seq<string>): seq<string> {
    if words == [] then [] else [Escape(words[0])] + EscapeAll(words[1..])
  }

  lemma WordStep(c: char, e: string)
    requires !IsSpace(c)
    ensures TakeWord([c] + e) == [c] + TakeWord(e) && DropWord([c] + e) == DropWord(e)
  {
    assert ([c] + e)[1..] == e;
  }

  lemma WordOfPair(c: char, e: string)
    requires !IsSpace(c)
    ensures TakeWord(EscapeChar(c) + e) == EscapeChar(c) + TakeWord(e) && DropWord(EscapeChar(c) + e) == DropWord(e)
  {
    WordStep(c, e);
    if c == '"' || c == '\\' {
      WordStep('\\', [c] + e);
      assert EscapeChar(c) + e == ['\\'] + ([c] + e);
    }
  }

  lemma EscapeCons(c: char, w: string)
    ensures Escape([c] + w) == EscapeChar(c) + Escape(w)
  {
    assert ([c] + w)[1..] == w;
  }

  lemma {:induction false} WordOfEscaped(s: string)
    ensures TakeWord(Escape(s)) == Escape(TakeWord(s))
    ensures DropWord(Escape(s)) == Escape(DropWord(s))
  {
    if s == "" {
    } else if IsSpace(s[0]) {
      assert Escape(s) == [s[0]] + Escape(s[1..]);
    } else {
      var c, t := s[0], s[1..];
      assert s == [c] + t;
      WordOfEscaped(t);
      EscapeCons(c, t);
      EscapeCons(c, TakeWord(t));
      WordOfPair(c, Escape(t));
      WordStep(c, t);
    }
  }

  lemma {:induction false} FieldsOfEscaped(s: string)
    ensures Fields(Escape(s)) == EscapeAll(Fields(s))
    decreases |s|
  {
    if s == "" {
    } else if IsSpace(s[0]) {
      assert Escape(s) == [s[0]] + Escape(s[1..]);
      FieldsOfEscaped(s[1..]);
    } else {
      WordOfEscaped(s);
      FieldsOfEscaped(DropWord(s));
      assert Fields(s)[1..] == Fields(DropWord(s));
      assert !IsSpace(Escape(s)[0]);
    }
  }

  lemma {:induction false} JoinOfEscaped(words: seq<string>)
    ensures Join(EscapeAll(words)) == Escape(Join(words))
  {
    if |words| > 1 {
      JoinOfEscaped(words[1..]);
      EscapeAppend(words[0] + " ", Join(words[1..]));
      EscapeAppend(words[0], " ");
      assert EscapeAll(words)[1..] == EscapeAll(words[1..]);
      assert Escape(" ") == " ";
    }
  }

  lemma ExtAppend(p: string, c: char)
    ensures Ext(p + [c]) == if c == '/' then "" else if c == '.' then "." else if Ext(p) == "" then "" else Ext(p) + [c]
  {
    assert (p + [c])[..|p|] == p;
  }

  lemma EscapeSnoc(s: string, c: char)
    ensures Escape(s + [c]) == Escape(s) + EscapeChar(c)
  {
    EscapeAppend(s, [c]);
    assert [c][1..] == "";
    assert Escape([c]) == EscapeChar(c) + Escape("") == EscapeChar(c);
  }

  lemma ExtPair(e: string, c: char)
    requires c == '"' || c == '\\'
    ensures Ext(e + ['\\', c]) == if Ext(e) == "" then "" else Ext(e) + ['\\', c]
  {
    hide Ext;
    ExtAppend(e, '\\');
    ExtAppend(e + ['\\'], c);
    assert e + ['\\', c] == e + ['\\'] + [c];
    assert Ext(e) + ['\\', c] == Ext(e) + ['\\'] + [c];
  }

  lemma ExtEscapeStep(e: string, c: char)
    ensures Ext(e + EscapeChar(c)) ==
            if c == '/' then "" else if c == '.' then "." else if Ext(e) == "" then "" else Ext(e) + EscapeChar(c)
  {
    if c == '"' || c == '\\' {
      ExtPair(e, c);
    } else {
      ExtAppend(e, c);
    }
  }

  lemma EscapedIsNotEmpty(s: string)
    requires s != ""
    ensures Escape(s) != ""
  {
    assert |EscapeChar(s[0])| > 0;
  }

  lemma {:induction false} ExtOfEscaped(s: string)
    ensures Ext(Escape(s)) == Escape(Ext(s))
  {
    if s != "" {
      var p, c := s[..|s| - 1], s[|s| - 1];
      assert s == p + [c];
      ExtOfEscaped(p);
      EscapeSnoc(p, c);
      ExtAppend(p, c);
      var e, x := Escape(p), Ext(p);
      ExtEscapeStep(e, c);
      if c == '/' {
      } else if c == '.' {
        EscapeSnoc("", '.');
        assert "" + ['.'] == ".";
      } else if x != "" {
        EscapedIsNotEmpty(x);
        EscapeSnoc(x, c);
      }
    }
  }

  lemma {:induction false} DotsOfEscaped(s: string)
    ensures AllDots(Escape(s)) <==> AllDots(s)
  {
    if s != "" {
      DotsOfEscaped(s[1..]);
      var e := Escape(s);
      if AllDots(e) {
        assert e[0] == '.';
        assert Escape(s[1..]) == e[1..];
      }
      if AllDots(s) {
        assert EscapeChar(s[0]) == ['.'];
      }
    }
  }

  lemma StemOfEscaped(s: string)
    ensures Stem(Escape(s)) == Escape(Stem(s))
  {
    ExtOfEscaped(s);
    assert s == Stem(s) + Ext(s);
    EscapeAppend(Stem(s), Ext(s));
  }

  lemma TidyOfEscaped(v: string)
    ensures var w := Join(Fields(v));
            Join(Fields(Escape(v))) == Escape(w) && Ext(Escape(w)) == Escape(Ext(w)) && (AllDots(Stem(Escape(w))) <==> AllDots(Stem(w)))
  {
    FieldsOfEscaped(v);
    JoinOfEscaped(Fields(v));
    ExtOfEscaped(Join(Fields(v)));
    StemOfEscaped(Join(Fields(v)));
    DotsOfEscaped(Stem(Join(Fields(v))));
  }

  lemma VisibleStep(name: string, i: nat)
    requires i < |name|
    ensures Escape(VisiblePart(name[i..])) ==
            (if Visible(name[i]) then EscapeChar(name[i]) else "") + Escape(VisiblePart(name[i + 1..]))
  {
    assert name[i..][1..] == name[i + 1..];
    var rest := VisiblePart(name[i + 1..]);
    if Visible(name[i]) {
      assert VisiblePart(name[i..]) == [name[i]] + rest;
      assert ([name[i]] + rest)[1..] == rest;
    } else {
      assert VisiblePart(name[i..]) == "" + rest == rest;
    }
  }

  /** Tidying the escaped text gives the escaped tidy text: AsciiFallbackName's last four steps. */
  lemma FallbackIsEscaped(name: string)
    ensures Tidy(Join(Fields(Escape(VisiblePart(name))))) == Escape(Readable(name))
  {
    TidyOfEscaped(VisiblePart(name));
    assert Escape("document") == "document";
    EscapeAppend("document", Ext(Join(Fields(VisiblePart(name)))));
  }

  method AsciiFallbackName(name: Bytes) returns (fallback: string)
    ensures fallback == Escape(Readable(name))
  {
    var b := "";
    var i := 0;
    assert name[0..] == name;
    while i < |name|
      invariant 0 <= i <= |name|
      invariant b + Escape(VisiblePart(name[i..])) == Escape(VisiblePart(name))
    {
      VisibleStep(name, i);
      var c := name[i];
      i := i + 1;
      ghost var rest := Escape(VisiblePart(name[i..]));
      if c < 0x20 as char || c >= 0x7f as char {
        assert "" + rest == rest;
        continue;
      }
      assert b + (EscapeChar(c) + rest) == b + EscapeChar(c) + rest;
      ghost var before := b;
      if c == '"' || c == '\\' {
        b := b + ['\\'];
      }
      b := b + [c];
      assert b == before + EscapeChar(c);
    }
    assert name[|name|..] == "";
    assert b == Escape(VisiblePart(name));
    FallbackIsEscaped(name);
    EscapedIsNotEmpty(Readable(name));
    fallback := Join(Fields(b));
    if AllDots(Stem(fallback)) {
      fallback := "document" + Ext(fallback);
    }
    if fallback == "" {
      fallback := "document";
    }
  }

  /** Reads a whole header: the disposition type, the filename parameter and the filename* parameter. */
  function ReadHeader(header: string): Option<(string, string, string)> {
    var semi := IndexOf(header, ';');
    var first, second := "; filename=\"", "; filename*=UTF-8''";
    if !(first <= header[semi..]) then None
    else
      match ReadQuoted(header[semi + |first|..])
      case None => None
      case Some((fallback, rest)) =>
        if !(second <= rest) then None
        else
          match PercentDecode(rest[|second|..])
          case None => None
          case Some(name) => Some((header[..semi], fallback, name))
  }

  lemma {:induction false} IndexOfAfter(a: string, c: char, rest: string)
    requires c !in a
    ensures IndexOf(a + [c] + rest, c) == |a|
  {
    var s := a + [c] + rest;
    assert s[|a|] == c;
    assert forall i :: 0 <= i < |a| ==> s[i] == a[i];
  }

  lemma HeaderShape(disposition: string, escaped: string, value: string)
    requires ';' !in disposition
    ensures var inside := escaped + ['"'] + ("; filename*=UTF-8''" + value);
            var header := disposition + "; filename=\"" + escaped + "\"; filename*=UTF-8''" + value;
            && IndexOf(header, ';') == |disposition| && header[..|disposition|] == disposition
            && header[|disposition|..] == "; filename=\"" + inside
            && header[|disposition| + |"; filename=\""|..] == inside
  {
    var inside := escaped + ['"'] + ("; filename*=UTF-8''" + value);
    var header := disposition + "; filename=\"" + escaped + "\"; filename*=UTF-8''" + value;
    assert "\"; filename*=UTF-8''" == ['"'] + "; filename*=UTF-8''";
    assert header == disposition + ("; filename=\"" + inside);
    assert "; filename=\"" == [';'] + " filename=\"";
    assert disposition + ("; filename=\"" + inside) == disposition + [';'] + (" filename=\"" + inside);
    IndexOfAfter(disposition, ';', " filename=\"" + inside);
  }

  lemma HeaderReads(disposition: string, readable: string, name: Bytes)
    requires ';' !in disposition && AllVisible(readable)
    ensures ReadHeader(disposition + "; filename=\"" + Escape(readable) + "\"; filename*=UTF-8''" + PercentEncode(name))
            == Some((disposition, readable, name))
  {
    HeaderShape(disposition, Escape(readable), PercentEncode(name));
    var tail := "; filename*=UTF-8''" + PercentEncode(name);
    QuotedRoundTrip(readable, tail);
    assert tail[|"; filename*=UTF-8''"|..] == PercentEncode(name);
    PercentRoundTrip(name);
  }

  /** Whatever bytes the name holds, the header reads back as the type, a usable ASCII name and the exact name. */
  method ContentDisposition(disposition: string, name: Bytes) returns (header: string)
    requires ';' !in disposition
    ensures ReadHeader(header) == Some((disposition, Readable(name), name))
  {
    var fallback := AsciiFallbackName(name);
    var value := EncodeExtValue(name);
    header := disposition + "; filename=\"" + fallback + "\"; filename*=UTF-8''" + value;
    HeaderReads(disposition, Readable(name), name);
  }
}
