/**
  TOML basic strings and string arrays as the config editor prints and scans them, and the proof that
  scanning undoes printing.  Characters are Unicode scalar values: every byte the source's byte loops
  test for is ASCII, and no ASCII byte occurs inside a multi-byte UTF-8 sequence.
 */
module TomlStrings {
  import opened Prelude

  // ---- Printing --------------------------------------------------------------------------------------

  function HexDigit(d: nat): char
    requires d < 16
  {
    if d < 10 then '0' + d as char else 'A' + (d - 10) as char
  }

  /** %04X */
  function Hex4(n: nat): string
    requires n < 0x10000
  {
    [HexDigit(n / 4096), HexDigit(n / 256 % 16), HexDigit(n / 16 % 16), HexDigit(n % 16)]
  }

  function EscapeChar(c: char): (r: string)
    ensures |r| > 0
  {
    if c == '"' then "\\\""
    else if c == '\\' then "\\\\"
    else if c == '\U{08}' then "\\b"
    else if c == '\U{0C}' then "\\f"
    else if c == '\n' then "\\n"
    else if c == '\r' then "\\r"
    else if c == '\t' then "\\t"
    else if c < ' ' then "\\u" + Hex4(c as nat)
    else [c]
  }

  function EscapeBody(s: string): string {
    if |s| == 0 then "" else EscapeChar(s[0]) + EscapeBody(s[1..])
  }

  function Escape(s: string): string {
    "\"" + EscapeBody(s) + "\""
  }

  function Join(items: seq<string>): string {
    if |items| == 0 then ""
    else if |items| == 1 then Escape(items[0])
    else Escape(items[0]) + ", " + Join(items[1..])
  }

  function Render(items: seq<string>): string {
    "[" + Join(items) + "]"
  }

  // ---- Parsing one string -------------------------------------------------------------------------------

  /** unicode.IsSpace */
  predicate IsSpace(c: char) {
    c in "\t\n\U{0B}\U{0C}\r \U{85}\U{A0}\U{1680}\U{2028}\U{2029}\U{202F}\U{205F}\U{3000}"
    || '\U{2000}' <= c <= '\U{200A}'
  }

  function TrimLeft(s: string): string {
    if |s| > 0 && IsSpace(s[0]) then TrimLeft(s[1..]) else s
  }

  function TrimRight(s: string): string {
    if |s| > 0 && IsSpace(s[|s| - 1]) then TrimRight(s[..|s| - 1]) else s
  }

  function Trim(s: string): string {
    TrimRight(TrimLeft(s))
  }

  function HexValue(c: char): (r: Option<nat>)
    ensures r.Some? ==> r.value < 16
  {
    if '0' <= c <= '9' then Some((c - '0') as nat)
    else if 'A' <= c <= 'F' then Some((c - 'A') as nat + 10)
    else if 'a' <= c <= 'f' then Some((c - 'a') as nat + 10)
    else None
  }

  function ParseHex(s: string): Option<nat> {
    if |s| == 0 then Some(0)
    else
      match (ParseHex(s[..|s| - 1]), HexValue(s[|s| - 1]))
      case (Some(hi), Some(lo)) => Some(16 * hi + lo)
      case _ => None
  }

  /** The character a code point denotes; an invalid one becomes U+FFFD. */
  function Rune(v: nat): char {
    if v < 0xD800 || 0xE000 <= v < 0x11_0000 then v as char else '\U{FFFD}'
  }

  function Simple(c: char): Option<char> {
    if c == 'b' then Some('\U{08}')
    else if c == 'f' then Some('\U{0C}')
    else if c == 'n' then Some('\n')
    else if c == 'r' then Some('\r')
    else if c == 't' then Some('\t')
    else if c == '"' then Some('"')
    else if c == '\\' then Some('\\')
    else None
  }

  function Prepend(c: char, r: Option<string>): Option<string> {
    if r.Some? then Some([c] + r.value) else None
  }

  function Unescape(s: string): Option<string> {
    if |s| == 0 then Some("")
    else if s[0] != '\\' then Prepend(s[0], Unescape(s[1..]))
    else if |s| < 2 then None
    else if Simple(s[1]).Some? then Prepend(Simple(s[1]).value, Unescape(s[2..]))
    else if s[1] == 'u' || s[1] == 'U' then
      var n := if s[1] == 'U' then 8 else 4;
      if 1 + n >= |s| then None
      else
        match ParseHex(s[2..2 + n])
        case None => None
        case Some(v) => Prepend(Rune(v), Unescape(s[2 + n..]))
    else None
  }

  /** The index of the closing quote at or after i, or past the end. */
  function FindClose(s: string, q: char, i: nat): (j: nat)
    ensures j >= i
    decreases |s| - i
  {
    if i >= |s| then i
    else if q == '"' && s[i] == '\\' then FindClose(s, q, i + 2)
    else if s[i] == q then i
    else FindClose(s, q, i + 1)
  }

  function ParseString(text: string): Option<string> {
    var s := Trim(text);
    if |s| == 0 || (s[0] != '"' && s[0] != '\'') then None
    else
      var q := s[0];
      var i := FindClose(s, q, 1);
      if i >= |s| || s[i] != q then None
      else
        var rest := Trim(s[i + 1..]);
        if |rest| > 0 && rest[0] != '#' then None
        else if q == '\'' then Some(s[1..i])
        else Unescape(s[1..i])
  }

  // ---- Scanning an array -------------------------------------------------------------------------------------

  function SkipComment(text: string, i: nat): (j: nat)
    ensures j >= i
    decreases |text| - i
  {
    if i < |text| && text[i] != '\n' then SkipComment(text, i + 1) else i
  }

  predicate Blank(c: char) {
    c == ' ' || c == '\t' || c == '\r' || c == '\n'
  }

  /** Where the scanner is: inside a quoted string or not, just after a backslash or not, and where
      the current element began. */
  datatype Mode = Mode(quote: Option<char>, esc: bool, start: Option<nat>)

  const OUTSIDE: Mode := Mode(None, false, None)

  /** The text of the element under way, if any. */
  function Pending(text: string, m: Mode, i: nat): seq<string> {
    if m.start.Some? && m.start.value <= i <= |text| then [text[m.start.value..i]] else []
  }

  /** The raw elements of the array from position i on, or None if it cannot be scanned. */
  function ScanFrom(text: string, i: nat, m: Mode, elems: seq<string>): Option<seq<string>>
    decreases |text| - i
  {
    if i >= |text| then None
    else
      var c := text[i];
      if m.quote.Some? then
        if m.quote.value == '"' && m.esc then ScanFrom(text, i + 1, m.(esc := false), elems)
        else if m.quote.value == '"' && c == '\\' then ScanFrom(text, i + 1, m.(esc := true), elems)
        else if c == m.quote.value then ScanFrom(text, i + 1, m.(quote := None), elems)
        else ScanFrom(text, i + 1, m, elems)
      else if c == '"' || c == '\'' then
        ScanFrom(text, i + 1, m.(quote := Some(c), start := if m.start.None? then Some(i) else m.start), elems)
      else if c == '[' then None
      else if c == ']' then Some(elems + Pending(text, m, i))
      else if c == ',' then ScanFrom(text, i + 1, m.(start := None), elems + Pending(text, m, i))
      else if c == '#' then ScanFrom(text, SkipComment(text, i) + 1, m, elems)
      else if m.start.None? && !Blank(c) then None
      else ScanFrom(text, i + 1, m, elems)
  }

  function SkipBlanks(text: string, i: nat): (j: nat)
    requires i <= |text|
    ensures i <= j <= |text|
    decreases |text| - i
  {
    if i < |text| && (text[i] == ' ' || text[i] == '\t') then SkipBlanks(text, i + 1) else i
  }

  /** Parses the first n raw elements. */
  function ParseAll(elems: seq<string>, n: nat): Option<seq<string>>
    requires n <= |elems|
  {
    if n == 0 then Some([])
    else
      match ParseAll(elems, n - 1)
      case None => None
      case Some(items) =>
        if Trim(elems[n - 1]) == "" then Some(items)
        else
          match ParseString(Trim(elems[n - 1]))
          case None => None
          case Some(s) => Some(items + [s])
  }

  function ScanArray(text: string): Option<seq<string>> {
    var i := SkipBlanks(text, 0);
    if i >= |text| || text[i] != '[' then None
    else
      match ScanFrom(text, i + 1, OUTSIDE, [])
      case None => None
      case Some(elems) => ParseAll(elems, |elems|)
  }

  // ---- One character -------------------------------------------------------------------------------------------

  lemma HexDigitValue(d: nat)
    requires d < 16
    ensures HexValue(HexDigit(d)) == Some(d)
    ensures HexDigit(d) != '"' && HexDigit(d) != '\\'
  {
  }

  lemma HexRoundTrip(n: nat)
    requires n < 32
    ensures ParseHex(Hex4(n)) == Some(n)
  {
    var h := Hex4(n);
    HexDigitValue(0);
    HexDigitValue(n / 16 % 16);
    HexDigitValue(n % 16);
    assert h[..3][..2][..1][..0] == "";
    assert h[..3][..2][..1] == ['0'] && h[..3][..2] == ['0', '0'];
    assert ParseHex(h[..3][..2][..1]) == Some(0);
    assert ParseHex(h[..3][..2]) == Some(0);
    assert ParseHex(h[..3]) == Some(n / 16);
  }

  lemma {:induction false} UnescapeChar(c: char, rest: string)
    ensures Unescape(EscapeChar(c) + rest) == Prepend(c, Unescape(rest))
  {
    var e := EscapeChar(c);
    if |e| == 2 {
      ShortEscape(c, e[1], rest);
    } else if |e| == 6 {
      assert e[2..] == Hex4(c as nat);
      UnicodeEscape(c, e, rest);
    } else {
      assert ([c] + rest)[1..] == rest;
    }
  }

  lemma {:induction false} ShortEscape(c: char, d: char, rest: string)
    requires Simple(d) == Some(c)
    ensures Unescape(['\\', d] + rest) == Prepend(c, Unescape(rest))
  {
    assert (['\\', d] + rest)[2..] == rest;
  }

  lemma {:induction false} UnicodeEscape(c: char, e: string, rest: string)
    requires c < ' ' && |e| == 6 && e[0] == '\\' && e[1] == 'u' && e[2..] == Hex4(c as nat)
    ensures Unescape(e + rest) == Prepend(c, Unescape(rest))
  {
    hide Hex4, ParseHex;
    assert (e + rest)[2..6] == e[2..];
    HexRoundTrip(c as nat);
    assert (e + rest)[6..] == rest;
  }

  lemma {:induction false} UnescapeBody(s: string)
    ensures Unescape(EscapeBody(s)) == Some(s)
  {
    if |s| > 0 {
      UnescapeBody(s[1..]);
      UnescapeChar(s[0], EscapeBody(s[1..]));
      assert [s[0]] + s[1..] == s;
    }
  }

  /** text reads `chunk` at p. */
  ghost predicate At(text: string, p: nat, chunk: string) {
    p + |chunk| <= |text| && text[p..p + |chunk|] == chunk
  }

  lemma AtIndex(text: string, p: nat, chunk: string, j: nat)
    requires At(text, p, chunk) && j < |chunk|
    ensures text[p + j] == chunk[j]
  {
    assert text[p..p + |chunk|][j] == chunk[j];
  }

  lemma AtSplit(text: string, p: nat, a: string, b: string)
    requires At(text, p, a + b)
    ensures At(text, p, a) && At(text, p + |a|, b)
  {
    assert text[p..p + |a|] == (a + b)[..|a|] == a;
    assert text[p + |a|..p + |a| + |b|] == (a + b)[|a|..] == b;
  }

  /** Inside a basic string no escaped character ends it, whichever way it is walked. */
  lemma ChunkPasses(text: string, p: nat, c: char, start: Option<nat>, elems: seq<string>)
    requires At(text, p, EscapeChar(c))
    ensures var m := Mode(Some('"'), false, start);
            ScanFrom(text, p, m, elems) == ScanFrom(text, p + |EscapeChar(c)|, m, elems)
    ensures FindClose(text, '"', p) == FindClose(text, '"', p + |EscapeChar(c)|)
  {
    var e := EscapeChar(c);
    var m := Mode(Some('"'), false, start);
    AtIndex(text, p, e, 0);
    if |e| == 1 {
    } else {
      AtIndex(text, p, e, 1);
      assert ScanFrom(text, p, m, elems) == ScanFrom(text, p + 1, m.(esc := true), elems) == ScanFrom(text, p + 2, m, elems);
      if |e| == 6 {
        DigitPasses(text, p, e, 2, start, elems);
        DigitPasses(text, p, e, 3, start, elems);
        DigitPasses(text, p, e, 4, start, elems);
        DigitPasses(text, p, e, 5, start, elems);
      }
    }
  }

  lemma DigitPasses(text: string, p: nat, e: string, j: nat, start: Option<nat>, elems: seq<string>)
    requires At(text, p, e) && j < |e| && e[j] != '"' && e[j] != '\\'
    ensures var m := Mode(Some('"'), false, start);
            ScanFrom(text, p + j, m, elems) == ScanFrom(text, p + j + 1, m, elems)
    ensures FindClose(text, '"', p + j) == FindClose(text, '"', p + j + 1)
  {
    AtIndex(text, p, e, j);
  }

  lemma {:induction false} BodyPasses(text: string, p: nat, s: string, start: Option<nat>, elems: seq<string>)
    requires At(text, p, EscapeBody(s))
    ensures var m := Mode(Some('"'), false, start);
            ScanFrom(text, p, m, elems) == ScanFrom(text, p + |EscapeBody(s)|, m, elems)
    ensures FindClose(text, '"', p) == FindClose(text, '"', p + |EscapeBody(s)|)
    decreases |s|
  {
    hide ScanFrom, FindClose, EscapeChar;
    if |s| > 0 {
      AtSplit(text, p, EscapeChar(s[0]), EscapeBody(s[1..]));
      ChunkPasses(text, p, s[0], start, elems);
      BodyPasses(text, p + |EscapeChar(s[0])|, s[1..], start, elems);
    }
  }

  // ---- One string --------------------------------------------------------------------------------------------------

  lemma EscapeIsTrimmed(s: string)
    ensures Trim(Escape(s)) == Escape(s)
  {
    assert !IsSpace('"');
  }

  /** Parsing undoes printing, whatever the string holds. */
  lemma ParseEscape(s: string)
    ensures ParseString(Escape(s)) == Some(s)
  {
    var t := Escape(s);
    var b := EscapeBody(s);
    EscapeIsTrimmed(s);
    assert At(t, 1, b) by {
      assert t[1..1 + |b|] == b;
    }
    BodyPasses(t, 1, s, None, []);
    assert t[1 + |b|] == '"';
    assert FindClose(t, '"', 1) == 1 + |b|;
    assert t[|b| + 2..] == "";
    assert t[1..1 + |b|] == b;
    UnescapeBody(s);
  }

  // ---- A whole array --------------------------------------------------------------------------------------------------

  lemma {:induction false} OpenQuote(text: string, p: nat, elems: seq<string>)
    requires p < |text| && text[p] == '"'
    ensures ScanFrom(text, p, OUTSIDE, elems) == ScanFrom(text, p + 1, Mode(Some('"'), false, Some(p)), elems)
  {
  }

  lemma {:induction false} CloseQuote(text: string, p: nat, start: Option<nat>, elems: seq<string>)
    requires p < |text| && text[p] == '"'
    ensures ScanFrom(text, p, Mode(Some('"'), false, start), elems) == ScanFrom(text, p + 1, Mode(None, false, start), elems)
  {
  }

  lemma {:induction false} CommaEnds(text: string, p: nat, start: nat, elems: seq<string>)
    requires start <= p && p + 1 < |text| && text[p] == ',' && text[p + 1] == ' '
    ensures ScanFrom(text, p, Mode(None, false, Some(start)), elems)
         == ScanFrom(text, p + 2, OUTSIDE, elems + [text[start..p]])
  {
    assert ScanFrom(text, p, Mode(None, false, Some(start)), elems)
        == ScanFrom(text, p + 1, OUTSIDE, elems + [text[start..p]]);
  }

  lemma {:induction false} BracketEnds(text: string, p: nat, start: Option<nat>, elems: seq<string>)
    requires p < |text| && text[p] == ']' && (start.Some? ==> start.value <= p)
    ensures ScanFrom(text, p, Mode(None, false, start), elems)
         == Some(elems + if start.Some? then [text[start.value..p]] else [])
  {
  }

  lemma {:induction false} QuotedPasses(text: string, p: nat, s: string, elems: seq<string>)
    requires At(text, p, Escape(s))
    ensures ScanFrom(text, p, OUTSIDE, elems) == ScanFrom(text, p + |Escape(s)|, Mode(None, false, Some(p)), elems)
  {
    hide ScanFrom, EscapeBody;
    var b := EscapeBody(s);
    AtIndex(text, p, Escape(s), 0);
    OpenQuote(text, p, elems);
    assert Escape(s) == "\"" + (b + "\"");
    AtSplit(text, p, "\"", b + "\"");
    AtSplit(text, p + 1, b, "\"");
    BodyPasses(text, p + 1, s, Some(p), elems);
    AtIndex(text, p + 1 + |b|, "\"", 0);
    CloseQuote(text, p + 1 + |b|, Some(p), elems);
  }

  function Escaped(items: seq<string>): (r: seq<string>)
    ensures |r| == |items| && forall i :: 0 <= i < |r| ==> r[i] == Escape(items[i])
  {
    if |items| == 0 then [] else [Escape(items[0])] + Escaped(items[1..])
  }

  lemma {:induction false} ItemsScan(text: string, p: nat, items: seq<string>, elems: seq<string>)
    requires At(text, p, Join(items) + "]")
    ensures ScanFrom(text, p, OUTSIDE, elems) == Some(elems + Escaped(items))
    decreases |items|
  {
    hide ScanFrom, Escape, At;
    if |items| == 0 {
      assert Join(items) + "]" == "]";
      AtIndex(text, p, "]", 0);
      AtFits(text, p, "]");
      BracketEnds(text, p, None, elems);
      assert Escaped(items) == [];
    } else {
      var e := Escape(items[0]);
      var rest := Join(items[1..]) + "]";
      var tail := if |items| == 1 then "]" else ", " + rest;
      assert Join(items) + "]" == e + tail;
      AtSplit(text, p, e, tail);
      AtFits(text, p, e);
      QuotedPasses(text, p, items[0], elems);
      var q := p + |e|;
      AtFits(text, q, tail);
      AtIndex(text, q, tail, 0);
      if |items| == 1 {
        BracketEnds(text, q, Some(p), elems);
        assert Escaped(items) == [e];
      } else {
        AtIndex(text, q, tail, 1);
        AtSplit(text, q, ", ", rest);
        CommaEnds(text, q, p, elems);
        ItemsScan(text, q + 2, items[1..], elems + [e]);
        assert elems + [e] + Escaped(items[1..]) == elems + Escaped(items);
      }
    }
  }

  lemma AtFits(text: string, p: nat, chunk: string)
    requires At(text, p, chunk)
    ensures p + |chunk| <= |text| && text[p..p + |chunk|] == chunk
  {
  }

  lemma {:induction false} ParseAllEscaped(items: seq<string>, n: nat)
    requires n <= |items|
    ensures ParseAll(Escaped(items), n) == Some(items[..n])
  {
    hide Escape, Trim, ParseString, Escaped;
    if n > 0 {
      ParseAllEscaped(items, n - 1);
      EscapeIsTrimmed(items[n - 1]);
      EscapeNonEmpty(items[n - 1]);
      ParseEscape(items[n - 1]);
      assert items[..n - 1] + [items[n - 1]] == items[..n];
    }
  }

  lemma EscapeNonEmpty(s: string)
    ensures |Escape(s)| >= 2
  {
  }

  /** Scanning a printed array gives the list back, whatever its strings hold and whatever follows
      the closing bracket, with up to any number of blanks in front. */
  lemma ScanRender(before: string, items: seq<string>, after: string)
    requires forall c :: c in before ==> c == ' ' || c == '\t'
    ensures ScanArray(before + Render(items) + after) == Some(items)
  {
    hide Join, ScanFrom, ParseAll, Escaped, Blank;
    var text := before + Render(items) + after;
    var tail := Join(items) + "]";
    forall j | 0 <= j < |before|
      ensures text[j] == ' ' || text[j] == '\t'
    {
      assert text[j] == before[j] && before[j] in before;
    }
    assert text[|before|] == '[';
    SkipsTo(text, 0, |before|);
    assert At(text, |before| + 1, tail) by {
      assert text == before + "[" + tail + after;
      assert text[|before| + 1..|before| + 1 + |tail|] == tail;
    }
    ItemsScan(text, |before| + 1, items, []);
    assert [] + Escaped(items) == Escaped(items);
    ParseAllEscaped(items, |items|);
    assert items[..|items|] == items;
  }

  lemma {:induction false} SkipsTo(text: string, i: nat, n: nat)
    requires i <= n < |text|
    requires forall j :: i <= j < n ==> text[j] == ' ' || text[j] == '\t'
    requires text[n] != ' ' && text[n] != '\t'
    ensures SkipBlanks(text, i) == n
    decreases n - i
  {
    if i < n {
      SkipsTo(text, i + 1, n);
    }
  }
}
