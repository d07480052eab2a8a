/**
  Scanning arrays as people write them: basic and literal strings, blanks, line breaks, comments and a
  trailing comma anywhere the format allows them.
 */
module TomlLayouts {
  import opened Prelude
  import opened TomlStrings

  /** Blanks, line breaks and comments, each comment to the end of its line. */
  predicate IsGap(g: string)
    decreases |g|
  {
    g == "" ||
    if g[0] == '#' then SkipComment(g, 0) < |g| && IsGap(g[SkipComment(g, 0) + 1..])
    else Blank(g[0]) && IsGap(g[1..])
  }

  /** A string between two gaps, written as a literal string or as a basic one. */
  datatype Item = Item(before: string, value: string, literal: bool, after: string)

  function Quoted(it: Item): string {
    if it.literal then "'" + it.value + "'" else Escape(it.value)
  }

  predicate WellWritten(it: Item) {
    IsGap(it.before) && IsGap(it.after) && (it.literal ==> '\'' !in it.value)
  }

  /** The rest of the array after its opening bracket; the last item may be followed by a comma and a
      gap. */
  function Body(items: seq<Item>, tail: Option<string>): string
    decreases |items|, 1
  {
    if |items| == 0 then (if tail.Some? then tail.value else "") + "]"
    else items[0].before + Quoted(items[0]) + items[0].after + Rest(items, tail)
  }

  /** What follows the first item. */
  function Rest(items: seq<Item>, tail: Option<string>): string
    requires |items| > 0
    decreases |items|, 0
  {
    if |items| == 1 && tail.None? then "]" else "," + Body(items[1..], tail)
  }

  function Values(items: seq<Item>): seq<string> {
    if |items| == 0 then [] else [items[0].value] + Values(items[1..])
  }

  function Raw(items: seq<Item>): seq<string> {
    if |items| == 0 then [] else [Quoted(items[0]) + items[0].after] + Raw(items[1..])
  }

  // ---- Gaps -------------------------------------------------------------------------------------------------

  lemma {:induction false} CommentShift(text: string, p: nat, g: string, i: nat)
    requires At(text, p, g) && i <= |g| && SkipComment(g, i) < |g|
    ensures SkipComment(text, p + i) == p + SkipComment(g, i)
    decreases |g| - i
  {
    if i < |g| {
      AtIndex(text, p, g, i);
      if g[i] != '\n' {
        CommentShift(text, p, g, i + 1);
      }
    }
  }

  /** The scanner passes a gap, before a string or after it. */
  lemma {:induction false} GapPasses(text: string, p: nat, g: string, start: Option<nat>, elems: seq<string>)
    requires At(text, p, g) && IsGap(g)
    ensures var m := Mode(None, false, start);
            ScanFrom(text, p, m, elems) == ScanFrom(text, p + |g|, m, elems)
    decreases |g|
  {
    if |g| > 0 {
      AtIndex(text, p, g, 0);
      var n := if g[0] == '#' then SkipComment(g, 0) + 1 else 1;
      assert g == g[..n] + g[n..];
      AtSplit(text, p, g[..n], g[n..]);
      GapPasses(text, p + n, g[n..], start, elems);
      if g[0] == '#' {
        CommentShift(text, p, g, 0);
      }
    }
  }

  // ---- Literal strings -----------------------------------------------------------------------------------------

  lemma {:induction false} LiteralPasses(text: string, p: nat, s: string, start: Option<nat>, elems: seq<string>)
    requires At(text, p, s) && '\'' !in s
    ensures var m := Mode(Some('\''), false, start);
            ScanFrom(text, p, m, elems) == ScanFrom(text, p + |s|, m, elems)
    ensures FindClose(text, '\'', p) == FindClose(text, '\'', p + |s|)
    decreases |s|
  {
    hide At;
    if |s| > 0 {
      AtIndex(text, p, s, 0);
      AtFits(text, p, s);
      assert s == s[..1] + s[1..] && s[0] in s;
      AtSplit(text, p, s[..1], s[1..]);
      LiteralPasses(text, p + 1, s[1..], start, elems);
    }
  }

  lemma {:induction false} LiteralQuotes(text: string, p: nat, start: Option<nat>, elems: seq<string>)
    requires p < |text| && text[p] == '\''
    ensures ScanFrom(text, p, OUTSIDE, elems) == ScanFrom(text, p + 1, Mode(Some('\''), false, Some(p)), elems)
    ensures ScanFrom(text, p, Mode(Some('\''), false, start), elems) == ScanFrom(text, p + 1, Mode(None, false, start), elems)
  {
  }

  /** The scanner takes a string of either kind whole. */
  lemma {:induction false} StringPasses(text: string, p: nat, it: Item, elems: seq<string>)
    requires At(text, p, Quoted(it)) && WellWritten(it)
    ensures ScanFrom(text, p, OUTSIDE, elems) == ScanFrom(text, p + |Quoted(it)|, Mode(None, false, Some(p)), elems)
  {
    hide ScanFrom, Escape;
    if it.literal {
      var s := it.value;
      assert Quoted(it) == "'" + (s + "'");
      AtSplit(text, p, "'", s + "'");
      AtSplit(text, p + 1, s, "'");
      AtIndex(text, p, "'", 0);
      AtIndex(text, p + 1 + |s|, "'", 0);
      LiteralQuotes(text, p, None, elems);
      LiteralPasses(text, p + 1, s, Some(p), elems);
      LiteralQuotes(text, p + 1 + |s|, Some(p), elems);
    } else {
      QuotedPasses(text, p, it.value, elems);
    }
  }

  // ---- The array -------------------------------------------------------------------------------------------------

  lemma {:induction false} CommaPasses(text: string, p: nat, start: nat, elems: seq<string>)
    requires start <= p < |text| && text[p] == ','
    ensures ScanFrom(text, p, Mode(None, false, Some(start)), elems) == ScanFrom(text, p + 1, OUTSIDE, elems + [text[start..p]])
  {
  }

  /** One item, up to what follows it. */
  lemma {:induction false} ItemPasses(text: string, p: nat, it: Item, rest: string, elems: seq<string>)
    requires At(text, p, it.before + (Quoted(it) + (it.after + rest))) && WellWritten(it)
    ensures var at := p + |it.before|;
            var end := at + |Quoted(it) + it.after|;
            && At(text, end, rest)
            && text[at..end] == Quoted(it) + it.after
            && ScanFrom(text, p, OUTSIDE, elems) == ScanFrom(text, end, Mode(None, false, Some(at)), elems)
  {
    hide ScanFrom, Quoted, IsGap;
    var at, q := p + |it.before|, Quoted(it);
    AtSplit(text, p, it.before, q + (it.after + rest));
    AtSplit(text, at, q, it.after + rest);
    AtSplit(text, at + |q|, it.after, rest);
    GapPasses(text, p, it.before, None, elems);
    StringPasses(text, at, it, elems);
    GapPasses(text, at + |q|, it.after, Some(at), elems);
    AtWhole(text, at, q, it.after);
  }

  lemma {:induction false} BodyShape(items: seq<Item>, tail: Option<string>)
    requires |items| > 0
    ensures var it, rest := items[0], Rest(items, tail);
            && Body(items, tail) == it.before + (Quoted(it) + (it.after + rest))
            && |rest| > 0 && (rest == "]" || rest[0] == ',')
    ensures Raw(items) == [Quoted(items[0]) + items[0].after] + Raw(items[1..])
    ensures if |items| == 1 && tail.None? then Rest(items, tail) == "]" && Raw(items[1..]) == []
            else Rest(items, tail) == "," + Body(items[1..], tail)
  {
    hide Quoted;
  }

  /** The comma or bracket after an item. */
  lemma {:induction false} ItemEnds(text: string, at: nat, end: nat, rest: string, elems: seq<string>)
    requires at <= end && At(text, end, rest) && |rest| > 0
    ensures end < |text|
    ensures rest == "]" ==> ScanFrom(text, end, Mode(None, false, Some(at)), elems) == Some(elems + [text[at..end]])
    ensures rest[0] == ',' ==>
              ScanFrom(text, end, Mode(None, false, Some(at)), elems) == ScanFrom(text, end + 1, OUTSIDE, elems + [text[at..end]])
  {
    hide ScanFrom;
    AtIndex(text, end, rest, 0);
    if rest == "]" {
      BracketEnds(text, end, Some(at), elems);
    } else if rest[0] == ',' {
      CommaPasses(text, end, at, elems);
    }
  }

  lemma {:induction false} NoItemsScan(text: string, p: nat, tail: Option<string>, elems: seq<string>)
    requires At(text, p, Body([], tail)) && (tail.Some? ==> IsGap(tail.value))
    ensures ScanFrom(text, p, OUTSIDE, elems) == Some(elems + Raw([]))
  {
    assert IsGap("");
    hide ScanFrom, IsGap;
    var g := if tail.Some? then tail.value else "";
    AtSplit(text, p, g, "]");
    EndScans(text, p, g, elems);
    assert elems + Raw([]) == elems;
  }

  lemma {:induction false} BodyScans(text: string, p: nat, items: seq<Item>, tail: Option<string>, elems: seq<string>)
    requires At(text, p, Body(items, tail))
    requires (forall i :: 0 <= i < |items| ==> WellWritten(items[i])) && (tail.Some? ==> IsGap(tail.value))
    ensures ScanFrom(text, p, OUTSIDE, elems) == Some(elems + Raw(items))
    decreases |items|
  {
    hide ScanFrom, Quoted, IsGap, At, WellWritten, Body, Rest, Raw;
    if |items| == 0 {
      assert items == [];
      NoItemsScan(text, p, tail, elems);
    } else {
      var it, rest := items[0], Rest(items, tail);
      BodyShape(items, tail);
      ItemPasses(text, p, it, rest, elems);
      var at := p + |it.before|;
      var raw := Quoted(it) + it.after;
      var end := at + |raw|;
      ItemEnds(text, at, end, rest, elems);
      var more := Raw(items[1..]);
      if |items| > 1 || tail.Some? {
        AtSplit(text, end, ",", Body(items[1..], tail));
        BodyScans(text, end + 1, items[1..], tail, elems + [raw]);
        assert elems + [raw] + more == elems + ([raw] + more);
      } else {
        assert [raw] + more == [raw];
      }
    }
  }

  lemma AtWhole(text: string, p: nat, a: string, b: string)
    requires At(text, p, a) && At(text, p + |a|, b)
    ensures p + |a| + |b| <= |text| && text[p..p + |a| + |b|] == a + b
  {
    assert text[p..p + |a| + |b|] == text[p..p + |a|] + text[p + |a|..p + |a| + |b|];
  }

  lemma EndScans(text: string, p: nat, g: string, elems: seq<string>)
    requires At(text, p, g) && At(text, p + |g|, "]") && IsGap(g)
    ensures ScanFrom(text, p, OUTSIDE, elems) == Some(elems)
  {
    hide ScanFrom;
    GapPasses(text, p, g, None, elems);
    AtIndex(text, p + |g|, "]", 0);
    BracketEnds(text, p + |g|, None, elems);
    assert elems + [] == elems;
  }

  // ---- The items -------------------------------------------------------------------------------------------------

  /** Nothing but space, or a comment after it. */
  predicate CommentTail(g: string) {
    TrimLeft(g) == "" || TrimLeft(g)[0] == '#'
  }

  lemma {:induction false} GapIsTail(g: string)
    requires IsGap(g)
    ensures CommentTail(g)
    decreases |g|
  {
    if |g| > 0 && g[0] != '#' {
      GapIsTail(g[1..]);
    }
  }

  lemma {:induction false} TailPrefix(g: string, n: nat)
    requires CommentTail(g) && n <= |g|
    ensures CommentTail(g[..n])
    decreases |g|
  {
    hide IsSpace;
    if n > 0 && IsSpace(g[0]) {
      assert g[..n][1..] == g[1..][..n - 1];
      TailPrefix(g[1..], n - 1);
    }
  }

  lemma {:induction false} TrimRightIsPrefix(s: string)
    ensures |TrimRight(s)| <= |s| && TrimRight(s) == s[..|TrimRight(s)|]
    ensures |s| > 0 && !IsSpace(s[0]) ==> |TrimRight(s)| > 0
  {
    hide IsSpace;
    if |s| > 0 && IsSpace(s[|s| - 1]) {
      TrimRightIsPrefix(s[..|s| - 1]);
    }
  }

  lemma {:induction false} TrimRightAfter(q: string, g: string)
    requires |q| > 0 && !IsSpace(q[|q| - 1])
    ensures TrimRight(q + g) == q + TrimRight(g)
    decreases |g|
  {
    hide IsSpace;
    if |g| > 0 && IsSpace(g[|g| - 1]) {
      assert (q + g)[..|q + g| - 1] == q + g[..|g| - 1];
      TrimRightAfter(q, g[..|g| - 1]);
    } else if |g| == 0 {
      assert q + g == q;
    }
  }

  lemma QuotesAround(it: Item)
    ensures var q, c := Quoted(it), if it.literal then '\'' else '"';
            |q| >= 2 && q[0] == c && q[|q| - 1] == c && !IsSpace(c)
  {
  }

  /** A string followed by space and comments trims to the string and some of what follows. */
  lemma {:induction false} TrimQuoted(it: Item, g: string)
    requires CommentTail(g)
    ensures Trim(Quoted(it) + g) == Quoted(it) + TrimRight(g)
    ensures CommentTail(TrimRight(g))
  {
    hide IsSpace, Quoted;
    QuotesAround(it);
    TrimRightAfter(Quoted(it), g);
    TrimRightIsPrefix(g);
    TailPrefix(g, |TrimRight(g)|);
  }

  lemma {:induction false} TailTrims(g: string)
    requires CommentTail(g)
    ensures Trim(g) == "" || Trim(g)[0] == '#'
  {
    TrimRightIsPrefix(TrimLeft(g));
  }

  lemma {:induction false} CloseFound(it: Item, g: string)
    requires it.literal ==> '\'' !in it.value
    ensures var s, q := Quoted(it) + g, Quoted(it);
            FindClose(s, q[0], 1) == |q| - 1
  {
    hide EscapeBody, ScanFrom;
    var inner := if it.literal then it.value else EscapeBody(it.value);
    var s := Quoted(it) + g;
    assert s[1..1 + |inner|] == inner;
    if it.literal {
      LiteralPasses(s, 1, inner, None, []);
    } else {
      BodyPasses(s, 1, it.value, None, []);
    }
    assert s[1 + |inner|] == s[0];
  }

  /** A string of either kind parses to its value, with space and comments after it. */
  lemma {:induction false} ParseQuoted(it: Item, g: string)
    requires CommentTail(g) && (it.literal ==> '\'' !in it.value)
    ensures ParseString(Quoted(it) + g) == Some(it.value)
  {
    hide FindClose, EscapeBody, Unescape, Trim, IsSpace;
    TrimQuoted(it, g);
    QuotesAround(it);
    var q, h := Quoted(it), TrimRight(g);
    var s := q + h;
    CloseFound(it, h);
    TailTrims(h);
    assert s[|q|..] == h;
    UnescapeBody(it.value);
    assert s[1..|q| - 1] == if it.literal then it.value else EscapeBody(it.value);
  }

  lemma {:induction false} ParseAllRaw(items: seq<Item>, n: nat)
    requires n <= |items| && forall i :: 0 <= i < |items| ==> WellWritten(items[i])
    ensures |Raw(items)| == |items| == |Values(items)| && ParseAll(Raw(items), n) == Some(Values(items)[..n])
    decreases n
  {
    hide Trim, ParseString, IsGap, Quoted;
    RawAt(items);
    if n > 0 {
      ParseAllRaw(items, n - 1);
      var it := items[n - 1];
      GapIsTail(it.after);
      TrimQuoted(it, it.after);
      QuotesAround(it);
      ParseQuoted(it, TrimRight(it.after));
      assert Values(items)[..n] == Values(items)[..n - 1] + [it.value];
    }
  }

  lemma {:induction false} RawAt(items: seq<Item>)
    ensures |Raw(items)| == |items| == |Values(items)|
    ensures forall i :: 0 <= i < |items| ==>
              Raw(items)[i] == Quoted(items[i]) + items[i].after && Values(items)[i] == items[i].value
  {
    hide Quoted;
    if |items| > 0 {
      RawAt(items[1..]);
    }
  }

  /** An array of strings, each basic or literal, with blanks, line breaks and comments between them and
      with or without a last comma, scans to its values, whatever stands behind it. */
  lemma {:induction false} ScanLayout(before: string, items: seq<Item>, tail: Option<string>, behind: string)
    requires forall c :: c in before ==> c == ' ' || c == '\t'
    requires (forall i :: 0 <= i < |items| ==> WellWritten(items[i])) && (tail.Some? ==> IsGap(tail.value))
    ensures ScanArray(before + "[" + Body(items, tail) + behind) == Some(Values(items))
  {
    hide Body, ScanFrom, ParseAll, Raw, Values, WellWritten, IsGap;
    var body := Body(items, tail);
    var text := before + "[" + body + behind;
    forall j | 0 <= j < |before|
      ensures text[j] == ' ' || text[j] == '\t'
    {
      assert text[j] == before[j] && before[j] in before;
    }
    assert text[|before|] == '[';
    SkipsTo(text, 0, |before|);
    assert At(text, |before| + 1, body) by {
      assert text[|before| + 1..|before| + 1 + |body|] == body;
    }
    BodyScans(text, |before| + 1, items, tail, []);
    assert [] + Raw(items) == Raw(items);
    ParseAllRaw(items, |items|);
    assert Values(items)[..|items|] == Values(items);
  }
}
