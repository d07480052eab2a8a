/**
  The flat `keys = [...]` path of the auth key editor over the lines of the [auth] section, and the
  printing and scanning loops it rests on.
 */
module AuthKeys {
  import opened Prelude
  import opened TomlStrings

  // ---- The byte loops ----------------------------------------------------------------------------------

  method EscapeBasic(s: string) returns (b: string)
    ensures b == Escape(s)
  {
    hide EscapeChar;
    b := "\"";
    assert s[0..] == s;
    for i := 0 to |s|
      invariant b + EscapeBody(s[i..]) == "\"" + EscapeBody(s)
    {
      assert s[i..][1..] == s[i + 1..];
      assert b + EscapeChar(s[i]) + EscapeBody(s[i + 1..]) == b + EscapeBody(s[i..]);
      b := b + EscapeChar(s[i]);
    }
    b := b + "\"";
  }

  function Glue(out: string, r: Option<string>): Option<string> {
    if r.Some? then Some(out + r.value) else None
  }

  lemma GlueStep(out: string, c: char, r: Option<string>)
    ensures Glue(out, Prepend(c, r)) == Glue(out + [c], r)
  {
    if r.Some? {
      assert out + ([c] + r.value) == out + [c] + r.value;
    }
  }

  lemma GlueEmpty(out: string, r: Option<string>)
    ensures Glue("", r) == r
    ensures Glue(out, Some("")) == Some(out)
  {
    if r.Some? {
      assert "" + r.value == r.value;
    }
    assert out + "" == out;
  }

  method UnescapeBasic(s: string) returns (r: Option<string>)
    ensures r == Unescape(s)
  {
    hide ParseHex, Rune, Simple;
    var out, i := "", 0;
    assert s[0..] == s;
    GlueEmpty(out, Unescape(s));
    while i < |s|
      invariant 0 <= i <= |s|
      invariant Unescape(s) == Glue(out, Unescape(s[i..]))
    {
      var c := s[i];
      assert s[i..][1..] == s[i + 1..];
      if c != '\\' {
        GlueStep(out, c, Unescape(s[i + 1..]));
        out, i := out + [c], i + 1;
        continue;
      }
      if i + 1 >= |s| {
        return None;
      }
      assert s[i..][2..] == s[i + 2..];
      var e := s[i + 1];
      if Simple(e).Some? {
        GlueStep(out, Simple(e).value, Unescape(s[i + 2..]));
        out, i := out + [Simple(e).value], i + 2;
      } else if e == 'u' || e == 'U' {
        var n := 4;
        if e == 'U' {
          n := 8;
        }
        if i + 1 + n >= |s| {
          return None;
        }
        assert s[i..][2..2 + n] == s[i + 2..i + 2 + n];
        assert s[i..][2 + n..] == s[i + 2 + n..];
        var v := ParseHex(s[i + 2..i + 2 + n]);
        if v == None {
          return None;
        }
        GlueStep(out, Rune(v.value), Unescape(s[i + 2 + n..]));
        out, i := out + [Rune(v.value)], i + 2 + n;
      } else {
        return None;
      }
    }
    assert s[i..] == "";
    GlueEmpty(out, Some(""));
    return Some(out);
  }

  method ParseBasicOrLiteral(text: string) returns (r: Option<string>)
    ensures r == ParseString(text)
  {
    var s := Trim(text);
    if s == "" {
      return None;
    }
    var q := s[0];
    if q != '"' && q != '\'' {
      return None;
    }
    var i := 1;
    while i < |s|
      invariant 1 <= i && FindClose(s, q, 1) == FindClose(s, q, i)
      decreases |s| - i
    {
      if q == '"' && s[i] == '\\' {
        i := i + 2;
        continue;
      }
      if s[i] == q {
        break;
      }
      i := i + 1;
    }
    if i >= |s| || s[i] != q {
      return None;
    }
    var rest := Trim(s[i + 1..]);
    if rest != "" && rest[0] != '#' {
      return None;
    }
    if q == '\'' {
      return Some(s[1..i]);
    }
    r := UnescapeBasic(s[1..i]);
  }

  /** What is still to print before item i. */
  ghost function Joined(items: seq<string>, i: nat): string
    requires i <= |items|
  {
    (if 0 < i < |items| then ", " else "") + Join(items[i..]) + "]"
  }

  lemma JoinedStep(items: seq<string>, i: nat)
    requires i < |items|
    ensures Joined(items, i) == (if i > 0 then ", " else "") + Escape(items[i]) + Joined(items, i + 1)
  {
    hide Escape;
    assert items[i..][1..] == items[i + 1..];
  }

  method RenderStringArray(items: seq<string>) returns (line: string)
    ensures line == Render(items)
  {
    line := "[";
    assert items[0..] == items;
    assert line + Joined(items, 0) == Render(items);
    hide Joined, Escape, Join, Render;
    for i := 0 to |items|
      invariant line + Joined(items, i) == Render(items)
    {
      var e := EscapeBasic(items[i]);
      var sep := if i > 0 then ", " else "";
      JoinedStep(items, i);
      assert line + sep + e + Joined(items, i + 1) == line + (sep + e + Joined(items, i + 1));
      line := line + sep + e;
    }
    JoinedEnd(items);
    line := line + "]";
  }

  lemma JoinedEnd(items: seq<string>)
    ensures Joined(items, |items|) == "]"
  {
  }

  /** The scanner's main loop: the raw elements, or None. */
  method ScanElements(text: string, from: nat) returns (r: Option<seq<string>>)
    ensures r == ScanFrom(text, from, OUTSIDE, [])
  {
    var i := from;
    var quote: Option<char> := None;
    var esc := false;
    var start: Option<nat> := None;
    var elems: seq<string> := [];
    while i < |text|
      invariant ScanFrom(text, from, OUTSIDE, []) == ScanFrom(text, i, Mode(quote, esc, start), elems)
      decreases |text| - i
    {
      var c := text[i];
      if quote.Some? {
        if quote.value == '"' && esc {
          esc := false;
        } else if quote.value == '"' && c == '\\' {
          esc := true;
        } else if c == quote.value {
          quote := None;
        }
        i := i + 1;
        continue;
      }
      if c == '"' || c == '\'' {
        if start == None {
          start := Some(i);
        }
        quote := Some(c);
      } else if c == '[' {
        return None;
      } else if c == ']' {
        return Some(elems + Pending(text, Mode(quote, esc, start), i));
      } else if c == ',' {
        elems := elems + Pending(text, Mode(quote, esc, start), i);
        start := None;
      } else if c == '#' {
        ghost var hash := i;
        while i < |text| && text[i] != '\n'
          invariant i >= hash && SkipComment(text, hash) == SkipComment(text, i)
          decreases |text| - i
        {
          i := i + 1;
        }
      } else if start == None && c != ' ' && c != '\t' && c != '\r' && c != '\n' {
        return None;
      }
      i := i + 1;
    }
    return None;
  }

  method ScanStringArray(text: string) returns (r: Option<seq<string>>)
    ensures r == ScanArray(text)
  {
    hide ScanFrom, ParseAll;
    var i := 0;
    while i < |text| && (text[i] == ' ' || text[i] == '\t')
      invariant i <= |text| && SkipBlanks(text, 0) == SkipBlanks(text, i)
    {
      i := i + 1;
    }
    if i >= |text| || text[i] != '[' {
      return None;
    }
    var elems := ScanElements(text, i + 1);
    if elems == None {
      return None;
    }
    r := ParseElements(elems.value);
  }

  method ParseElements(elems: seq<string>) returns (r: Option<seq<string>>)
    ensures r == ParseAll(elems, |elems|)
  {
    hide Trim, ParseString;
    var items: seq<string> := [];
    for n := 0 to |elems|
      invariant ParseAll(elems, n) == Some(items)
    {
      var e := Trim(elems[n]);
      if e == "" {
        continue;
      }
      var s := ParseBasicOrLiteral(e);
      if s == None {
        ParseAllStuck(elems, n + 1, |elems|);
        return None;
      }
      items := items + [s.value];
    }
    return Some(items);
  }

  lemma {:induction false} ParseAllStuck(elems: seq<string>, n: nat, m: nat)
    requires n <= m <= |elems| && ParseAll(elems, n).None?
    ensures ParseAll(elems, m).None?
    decreases m
  {
    hide Trim, ParseString;
    if n < m {
      ParseAllStuck(elems, n, m - 1);
    }
  }

  // ---- The new key list -----------------------------------------------------------------------------------

  /** The first n of the current keys without the removed ones and without repeats. */
  function Kept(cur: seq<string>, remove: set<string>, n: nat): seq<string>
    requires n <= |cur|
  {
    if n == 0 then []
    else
      var ks := Kept(cur, remove, n - 1);
      if cur[n - 1] in remove || cur[n - 1] in ks then ks else ks + [cur[n - 1]]
  }

  function WithAdded(kept: seq<string>, add: seq<string>, n: nat): seq<string>
    requires n <= |add|
  {
    if n == 0 then kept
    else
      var ks := WithAdded(kept, add, n - 1);
      if add[n - 1] in ks then ks else ks + [add[n - 1]]
  }

  function NextKeys(cur: seq<string>, add: seq<string>, remove: set<string>): seq<string> {
    WithAdded(Kept(cur, remove, |cur|), add, |add|)
  }

  lemma {:induction false} KeptMeans(cur: seq<string>, remove: set<string>, n: nat)
    requires n <= |cur|
    ensures Distinct(Kept(cur, remove, n))
    ensures forall k :: k in Kept(cur, remove, n) <==> k in cur[..n] && k !in remove
  {
    if n > 0 {
      KeptMeans(cur, remove, n - 1);
      assert cur[..n] == cur[..n - 1] + [cur[n - 1]];
    }
  }

  lemma {:induction false} AddedMeans(kept: seq<string>, add: seq<string>, n: nat)
    requires n <= |add| && Distinct(kept)
    ensures Distinct(WithAdded(kept, add, n)) && kept <= WithAdded(kept, add, n)
    ensures forall k :: k in WithAdded(kept, add, n) <==> k in kept || k in add[..n]
  {
    if n > 0 {
      AddedMeans(kept, add, n - 1);
      assert add[..n] == add[..n - 1] + [add[n - 1]];
    }
  }

  /** Position of a key among the first n, its first occurrence. */
  function FirstAt(ks: seq<string>, k: string): nat
    requires k in ks
  {
    if ks[0] == k then 0 else 1 + FirstAt(ks[1..], k)
  }

  lemma {:induction false} FirstAtPrefix(ks: seq<string>, n: nat, k: string)
    requires n <= |ks| && k in ks[..n]
    ensures k in ks && FirstAt(ks, k) == FirstAt(ks[..n], k) < n
    ensures ks[FirstAt(ks, k)] == k
  {
    if ks[0] != k {
      assert ks[1..][..n - 1] == ks[..n][1..];
      FirstAtPrefix(ks[1..], n - 1, k);
    }
  }

  lemma {:induction false} FirstAtLast(ks: seq<string>, n: nat)
    requires n < |ks| && ks[n] !in ks[..n]
    ensures FirstAt(ks, ks[n]) == n
  {
    if n > 0 {
      assert ks[0] in ks[..n];
      assert ks[1..][..n - 1] == ks[..n][1..];
      FirstAtLast(ks[1..], n - 1);
    }
  }

  /** ks lists keys of cur in the order of their first occurrences there. */
  ghost predicate Follows(ks: seq<string>, cur: seq<string>) {
    forall i, j :: 0 <= i < j < |ks| ==>
      ks[i] in cur && ks[j] in cur && FirstAt(cur, ks[i]) < FirstAt(cur, ks[j])
  }

  /** The kept keys stay in the order they were in. */
  lemma {:induction false} KeptInOrder(cur: seq<string>, remove: set<string>, n: nat)
    requires n <= |cur|
    ensures Follows(Kept(cur, remove, n), cur)
  {
    if n > 0 {
      KeptInOrder(cur, remove, n - 1);
      var was := Kept(cur, remove, n - 1);
      var k := cur[n - 1];
      if k !in remove && k !in was {
        KeptMeans(cur, remove, n - 1);
        FirstAtLast(cur, n - 1);
        forall i | 0 <= i < |was|
          ensures was[i] in cur && FirstAt(cur, was[i]) < n - 1
        {
          assert was[i] in was;
          FirstAtPrefix(cur, n - 1, was[i]);
        }
        assert Follows(was + [k], cur);
      }
    }
  }

  // ---- The section's lines -----------------------------------------------------------------------------------

  predicate Space(c: char) {
    c == ' ' || c == '\t' || c == '\n' || c == '\U{0C}' || c == '\r'
  }

  function SkipSpace(s: string): string {
    if |s| > 0 && Space(s[0]) then SkipSpace(s[1..]) else s
  }

  /** ^\s*keys\s*= */
  predicate KeysAssign(line: string) {
    var s := SkipSpace(line);
    "keys" <= s && "=" <= SkipSpace(s[4..])
  }

  /** The text after the first equals sign. */
  function AfterEquals(line: string): string {
    if |line| == 0 then "" else if line[0] == '=' then line[1..] else AfterEquals(line[1..])
  }

  datatype Flat = Absent | Unterminated | Found(start: nat, stop: nat, keys: seq<string>)

  /** Extends the array text line by line until it scans. */
  function ScanLines(lines: seq<string>, i: nat, j: nat, end: nat, arr: string): (r: Flat)
    requires i <= j < end <= |lines|
    ensures r.Found? ==> r.start == i && j <= r.stop < end
    ensures !r.Absent?
    decreases end - j
  {
    match ScanArray(arr)
    case Some(items) => Found(i, j, items)
    case None =>
      if j + 1 >= end then Unterminated else ScanLines(lines, i, j + 1, end, arr + lines[j + 1] + "\n")
  }

  /** Finds the flat assignment among lines i..end. */
  function FlatKeys(lines: seq<string>, i: nat, end: nat): (r: Flat)
    requires end <= |lines|
    ensures r.Found? ==> i <= r.start <= r.stop < end
    ensures r.Found? ==> forall j :: i <= j < r.start ==> !KeysAssign(lines[j])
    ensures r.Absent? ==> forall j :: i <= j < end ==> !KeysAssign(lines[j])
    decreases end - i
  {
    if i >= end then Absent
    else if !KeysAssign(lines[i]) then FlatKeys(lines, i + 1, end)
    else ScanLines(lines, i, i, end, AfterEquals(lines[i]) + "\n")
  }

  function KeysLine(keys: seq<string>): string {
    "keys = " + Render(keys)
  }

  lemma {:induction false} AfterFirstEquals(before: string, after: string)
    requires '=' !in before
    ensures AfterEquals(before + "=" + after) == after
  {
    var s := before + "=" + after;
    if |before| == 0 {
      assert s[1..] == after;
    } else {
      assert s[0] == before[0] && s[0] in before;
      assert s[1..] == before[1..] + "=" + after;
      AfterFirstEquals(before[1..], after);
    }
  }

  /** A written line scans back to its keys, in a section of any shape. */
  lemma {:induction false} KeysLineScans(lines: seq<string>, i: nat, end: nat, keys: seq<string>)
    requires i < end <= |lines| && lines[i] == KeysLine(keys)
    ensures KeysAssign(lines[i])
    ensures FlatKeys(lines, i, end) == Found(i, i, keys)
  {
    hide Render, ScanArray;
    var line := lines[i];
    assert line == "keys" + (" = " + Render(keys));
    assert SkipSpace(line) == line;
    assert line[4..] == [' '] + ("= " + Render(keys));
    assert line[4..][1..] == "= " + Render(keys);
    assert SkipSpace(line[4..]) == "= " + Render(keys);
    assert line == "keys " + "=" + (" " + Render(keys));
    AfterFirstEquals("keys ", " " + Render(keys));
    ScanRender(" ", keys, "\n");
  }

  lemma {:induction false} FlatKeysSkips(lines: seq<string>, i: nat, k: nat, end: nat)
    requires i <= k < end <= |lines| && forall j :: i <= j < k ==> !KeysAssign(lines[j])
    ensures FlatKeys(lines, i, end) == FlatKeys(lines, k, end)
    decreases k - i
  {
    if i < k {
      FlatKeysSkips(lines, i + 1, k, end);
    }
  }

  datatype Edit = Edited(lines: seq<string>, keys: seq<string>) | BadKey(position: nat) | LastKey | BadArray

  /** unicode.IsControl */
  predicate IsControl(c: char) {
    c < ' ' || '\U{7F}' <= c <= '\U{9F}'
  }

  predicate ValidKey(k: string) {
    k != "" && k == Trim(k) && forall i :: 0 <= i < |k| ==> !IsControl(k[i])
  }

  /** The position, counted from 1, of the first key from i on that may not be added; 0 for none. */
  function FirstInvalid(add: seq<string>, i: nat): nat
    requires i <= |add|
    decreases |add| - i
  {
    if i == |add| then 0 else if !ValidKey(add[i]) then i + 1 else FirstInvalid(add, i + 1)
  }

  /** How many of the first n current keys are removed. */
  function RemovedCount(cur: seq<string>, remove: set<string>, n: nat): nat
    requires n <= |cur|
  {
    if n == 0 then 0 else RemovedCount(cur, remove, n - 1) + if cur[n - 1] in remove then 1 else 0
  }

  /** As many as there are places holding a key to remove. */
  lemma {:induction false} RemovedCountMeans(cur: seq<string>, remove: set<string>, n: nat)
    requires n <= |cur|
    ensures RemovedCount(cur, remove, n) == |set i | 0 <= i < n && cur[i] in remove|
  {
    if n > 0 {
      RemovedCountMeans(cur, remove, n - 1);
      var before := set i | 0 <= i < n - 1 && cur[i] in remove;
      assert (set i | 0 <= i < n && cur[i] in remove) == if cur[n - 1] in remove then before + {n - 1} else before;
    }
  }

  /** The insertion point of an empty section: its end, before the blank that ends the file. */
  function InsertAt(lines: seq<string>, end: nat): nat
    requires end <= |lines|
  {
    if end == |lines| && end > 0 && lines[end - 1] == "" then end - 1 else end
  }

  function EndBlank(lines: seq<string>): seq<string> {
    if |lines| > 0 && lines[|lines| - 1] != "" then lines + [""] else lines
  }

  /** The flat edit of the section whose header is line hdr and which ends at line end. */
  function EditFlat(lines: seq<string>, hdr: nat, end: nat, add: seq<string>, remove: set<string>): Edit
    requires hdr < end <= |lines|
  {
    var f := FlatKeys(lines, hdr + 1, end);
    if FirstInvalid(add, 0) > 0 then BadKey(FirstInvalid(add, 0))
    else if f.Unterminated? then BadArray
    else
      var cur := CurrentKeys(f);
      var next := NextKeys(cur, add, remove);
      if |next| == 0 && |cur| > 0 then LastKey
      else if f.Found? then
        Edited(lines[..f.start] + [KeysLine(next)] + lines[f.stop + 1..], next)
      else
        var at := InsertAt(lines, end);
        Edited(EndBlank(lines[..at] + [KeysLine(next)] + lines[at..]), next)
  }

  /** The new list: the old keys minus the removed ones, in their order, followed by new ones; no
      duplicates. */
  lemma {:induction false} NextKeysMeans(cur: seq<string>, add: seq<string>, remove: set<string>)
    ensures var next := NextKeys(cur, add, remove);
            && Distinct(next)
            && Kept(cur, remove, |cur|) <= next
            && (forall k :: k in next <==> (k in cur && k !in remove) || k in add)
  {
    KeptMeans(cur, remove, |cur|);
    AddedMeans(Kept(cur, remove, |cur|), add, |add|);
    assert cur[..|cur|] == cur && add[..|add|] == add;
  }

  function CurrentKeys(f: Flat): seq<string> {
    if f.Found? then f.keys else []
  }

  /** Where the new line goes, and the first line after it that stays. */
  function EditStart(f: Flat, lines: seq<string>, end: nat): nat
    requires end <= |lines|
  {
    if f.Found? then f.start else InsertAt(lines, end)
  }

  function EditRest(f: Flat, lines: seq<string>, end: nat): nat
    requires end <= |lines|
  {
    if f.Found? then f.stop + 1 else InsertAt(lines, end)
  }

  /** Every line outside the assignment stays, in place; an insertion may add one blank line at the
      very end of the file. */
  lemma {:induction false} EditKeepsOtherLines(lines: seq<string>, hdr: nat, end: nat, add: seq<string>, remove: set<string>)
    requires hdr < end <= |lines|
    requires EditFlat(lines, hdr, end, add, remove).Edited?
    ensures var f, e := FlatKeys(lines, hdr + 1, end), EditFlat(lines, hdr, end, add, remove);
            var at, rest := EditStart(f, lines, end), EditRest(f, lines, end);
            && at <= rest <= |lines| && at < |e.lines|
            && e.lines[..at] == lines[..at] && e.lines[at] == KeysLine(e.keys)
            && (e.lines[at + 1..] == lines[rest..]
                || (!f.Found? && e.lines[at + 1..] == lines[rest..] + [""]))
  {
    hide Render, ScanArray, KeysAssign, ScanLines, FirstInvalid, NextKeys, FlatKeys, KeysLine;
    var f, e := FlatKeys(lines, hdr + 1, end), EditFlat(lines, hdr, end, add, remove);
    var at, rest := EditStart(f, lines, end), EditRest(f, lines, end);
    var out := lines[..at] + [KeysLine(e.keys)] + lines[rest..];
    assert out[at + 1..] == lines[rest..] && (out + [""])[at + 1..] == lines[rest..] + [""];
  }

  /** The edited file rescans to exactly the keys the edit reports, which are the new list and never
      none where there were some. */
  lemma {:induction false} EditRescans(lines: seq<string>, hdr: nat, end: nat, add: seq<string>, remove: set<string>)
    requires hdr < end <= |lines| && lines[hdr] != ""
    requires EditFlat(lines, hdr, end, add, remove).Edited?
    ensures var f := FlatKeys(lines, hdr + 1, end);
            var e := EditFlat(lines, hdr, end, add, remove);
            var newEnd := if f.Found? then end - (f.stop - f.start) else InsertAt(lines, end) + 1;
            && hdr < newEnd <= |e.lines|
            && FlatKeys(e.lines, hdr + 1, newEnd).Found?
            && FlatKeys(e.lines, hdr + 1, newEnd).keys == e.keys == NextKeys(CurrentKeys(f), add, remove)
            && (|CurrentKeys(f)| > 0 ==> |e.keys| > 0)
  {
    hide Render, ScanArray, KeysAssign, ScanLines, FirstInvalid, NextKeys, FlatKeys;
    var f := FlatKeys(lines, hdr + 1, end);
    var e := EditFlat(lines, hdr, end, add, remove);
    var at := if f.Found? then f.start else InsertAt(lines, end);
    EditedAt(lines, e.lines, hdr, at, if f.Found? then end - (f.stop - f.start) else at + 1, e.keys);
  }

  lemma EditedAt(lines: seq<string>, out: seq<string>, hdr: nat, at: nat, newEnd: nat, keys: seq<string>)
    requires hdr < at < newEnd <= |out| && at <= |lines|
    requires out[..at] == lines[..at] && out[at] == KeysLine(keys)
    requires forall j :: hdr < j < at ==> !KeysAssign(lines[j])
    ensures FlatKeys(out, hdr + 1, newEnd) == Found(at, at, keys)
    ensures out[..hdr + 1] == lines[..hdr + 1]
  {
    hide Render, ScanArray, KeysAssign, ScanLines;
    forall j | hdr < j < at
      ensures !KeysAssign(out[j])
    {
      assert out[j] == out[..at][j] == lines[..at][j] == lines[j];
    }
    FlatKeysSkips(out, hdr + 1, at, newEnd);
    KeysLineScans(out, at, newEnd, keys);
    assert out[..hdr + 1] == out[..at][..hdr + 1] == lines[..at][..hdr + 1];
  }

  // ---- The splice -------------------------------------------------------------------------------------------------

  method ScanAuthFlatKeys(lines: seq<string>, hdr: nat, end: nat) returns (r: Flat)
    requires hdr < end <= |lines|
    ensures r == FlatKeys(lines, hdr + 1, end)
  {
    hide ScanArray;
    var i := hdr + 1;
    while i < end
      invariant hdr + 1 <= i <= end && FlatKeys(lines, hdr + 1, end) == FlatKeys(lines, i, end)
    {
      if !KeysAssign(lines[i]) {
        i := i + 1;
        continue;
      }
      var arr := AfterEquals(lines[i]) + "\n";
      var j := i;
      while true
        invariant i <= j < end
        invariant FlatKeys(lines, hdr + 1, end) == ScanLines(lines, i, j, end, arr)
        decreases end - j
      {
        var items := ScanStringArray(arr);
        if items.Some? {
          return Found(i, j, items.value);
        }
        j := j + 1;
        if j >= end {
          return Unterminated;
        }
        arr := arr + lines[j] + "\n";
      }
    }
    return Absent;
  }

  method SpliceFlat(lines: seq<string>, hdr: nat, end: nat, add: seq<string>, remove: set<string>)
    returns (e: Edit, added: nat, removed: nat)
    requires hdr < end <= |lines|
    ensures e == EditFlat(lines, hdr, end, add, remove)
    ensures e.Edited? ==>
      var f := FlatKeys(lines, hdr + 1, end);
      var cur := CurrentKeys(f);
      removed == RemovedCount(cur, remove, |cur|) && added == |e.keys| - |Kept(cur, remove, |cur|)|
  {
    hide ScanArray, Render, ValidKey;
    added, removed := 0, 0;
    for n := 0 to |add|
      invariant FirstInvalid(add, 0) == FirstInvalid(add, n)
    {
      if !ValidKey(add[n]) {
        return BadKey(n + 1), 0, 0;
      }
    }
    var f := ScanAuthFlatKeys(lines, hdr, end);
    if f.Unterminated? {
      return BadArray, 0, 0;
    }
    var cur := if f.Found? then f.keys else [];
    var next: seq<string> := [];
    var seen: set<string> := {};
    for n := 0 to |cur|
      invariant next == Kept(cur, remove, n) && removed == RemovedCount(cur, remove, n)
      invariant forall k :: k in seen <==> k in next
    {
      if cur[n] in remove {
        removed := removed + 1;
        continue;
      }
      if cur[n] !in seen {
        seen := seen + {cur[n]};
        next := next + [cur[n]];
      }
    }
    ghost var kept := next;
    for n := 0 to |add|
      invariant next == WithAdded(kept, add, n) && |next| == |kept| + added
      invariant forall k :: k in seen <==> k in next
    {
      if add[n] in seen {
        continue;
      }
      seen := seen + {add[n]};
      next := next + [add[n]];
      added := added + 1;
    }
    if |next| == 0 && |cur| > 0 {
      return LastKey, 0, 0;
    }
    var line := RenderStringArray(next);
    var newLine := "keys = " + line;
    if f.Found? {
      return Edited(lines[..f.start] + [newLine] + lines[f.stop + 1..], next), added, removed;
    }
    var at := end;
    if at == |lines| && |lines| > 0 && lines[at - 1] == "" {
      at := at - 1;
    }
    var out := lines[..at] + [newLine] + lines[at..];
    if out[|out| - 1] != "" {
      out := out + [""];
    }
    return Edited(out, next), added, removed;
  }
}
