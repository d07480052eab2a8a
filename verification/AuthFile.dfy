/**
  The auth key edit on a whole config file: finding the [auth] section, refusing or handing over the
  table shape, writing the section where there is none, and what the edited file rescans to.
 */
module AuthFile {
  import opened Prelude
  import opened TomlStrings
  import opened AuthKeys

  // ---- Headers ---------------------------------------------------------------------------------------------

  function SkipChar(s: string, c: char): string {
    if |s| > 0 && s[0] == c then SkipChar(s[1..], c) else s
  }

  predicate NameChar(c: char) {
    'A' <= c <= 'Z' || 'a' <= c <= 'z' || '0' <= c <= '9' || c == '_' || c == '.' || c == '-'
  }

  function TakeName(s: string): (r: string)
    ensures r <= s
  {
    if |s| > 0 && NameChar(s[0]) then [s[0]] + TakeName(s[1..]) else ""
  }

  /** Nothing more on the line, or a comment. */
  predicate LineEnds(s: string) {
    s == "" || (s[0] == '#' && '\n' !in s)
  }

  /** The name in a table header line, single or double bracketed. */
  function HeaderName(line: string): Option<string> {
    var s := SkipSpace(line);
    if s == "" || s[0] != '[' then None
    else
      var inner := SkipSpace(SkipChar(s, '['));
      var name := TakeName(inner);
      var close := SkipSpace(inner[|name|..]);
      if name == "" || close == "" || close[0] != ']' || !LineEnds(SkipSpace(SkipChar(close, ']'))) then None
      else Some(name)
  }

  predicate Doubled(line: string) {
    "[[" <= Trim(line)
  }

  /** A header that opens a table of its own, and so closes the one before. */
  predicate Opens(line: string) {
    HeaderName(line).Some? && !Doubled(line)
  }

  predicate OpensNamed(line: string, name: string) {
    Opens(line) && HeaderName(line) == Some(name)
  }

  /** ^\s*\[\[\s*auth\.keys\s*\]\]\s*(?:#.*)?$ */
  predicate KeyTable(line: string) {
    var s := SkipSpace(line);
    && "[[" <= s
    && var inner := SkipSpace(s[2..]);
       "auth.keys" <= inner
       && var close := SkipSpace(inner[9..]);
          "]]" <= close && LineEnds(SkipSpace(close[2..]))
  }

  lemma {:induction false} SkipsSpace(a: string, s: string)
    requires (forall c :: c in a ==> Space(c)) && (s == "" || !Space(s[0]))
    ensures SkipSpace(a + s) == s
  {
    hide Space;
    if |a| > 0 {
      assert a[0] in a && (a + s)[1..] == a[1..] + s;
      SkipsSpace(a[1..], s);
    } else {
      assert a + s == s;
    }
  }

  lemma {:induction false} SkipsChars(n: nat, c: char, s: string)
    requires s == "" || s[0] != c
    ensures SkipChar(Times(c, n) + s, c) == s
  {
    if n > 0 {
      assert (Times(c, n) + s)[1..] == Times(c, n - 1) + s;
      SkipsChars(n - 1, c, s);
    } else {
      assert Times(c, 0) + s == s;
    }
  }

  /** n copies of c. */
  function Times(c: char, n: nat): string {
    if n == 0 then "" else [c] + Times(c, n - 1)
  }

  /** Every way to write a table header: any space around brackets and name, a comment behind. */
  lemma {:induction false} HeaderForms(a: string, n: nat, b: string, name: string, c: string, m: nat, d: string, comment: string)
    requires n > 0 && m > 0 && name != "" && forall i :: 0 <= i < |name| ==> NameChar(name[i])
    requires forall x :: x in a || x in b || x in c || x in d ==> Space(x)
    requires LineEnds(comment)
    ensures HeaderName(a + Times('[', n) + b + name + c + Times(']', m) + d + comment) == Some(name)
  {
    hide Space;
    SpaceIsNot();
    var tail := d + comment;
    var close := Times(']', m) + tail;
    var rest := c + close;
    var inner := b + (name + rest);
    var s := Times('[', n) + inner;
    assert a + Times('[', n) + b + name + c + Times(']', m) + d + comment == a + s;
    SkipsSpace(a, s);
    assert inner[0] == if b == "" then name[0] else b[0];
    assert b != "" ==> b[0] in b;
    SkipsChars(n, '[', inner);
    SkipsSpace(b, name + rest);
    assert rest[0] == if c == "" then ']' else c[0];
    assert c != "" ==> c[0] in c;
    NameOf(name, rest);
    assert (name + rest)[|name|..] == rest;
    SkipsSpace(c, close);
    assert tail != "" ==> tail[0] == if d == "" then comment[0] else d[0];
    assert d != "" ==> d[0] in d;
    SkipsChars(m, ']', tail);
    SkipsSpace(d, comment);
  }

  lemma SpaceIsNot()
    ensures !Space('[') && !Space(']') && !Space('#') && forall c: char :: NameChar(c) ==> !Space(c) && c != '[' && c != ']'
  {
  }

  /** The first line from i on that opens the named table, or the number of lines. */
  function FindHeader(lines: seq<string>, i: nat, name: string): (r: nat)
    requires i <= |lines|
    ensures i <= r <= |lines|
    decreases |lines| - i
  {
    if i == |lines| || OpensNamed(lines[i], name) then i else FindHeader(lines, i + 1, name)
  }

  lemma {:induction false} FindHeaderMeans(lines: seq<string>, i: nat, name: string)
    requires i <= |lines|
    ensures var r := FindHeader(lines, i, name);
            && (r < |lines| ==> OpensNamed(lines[r], name))
            && forall j :: i <= j < r ==> !OpensNamed(lines[j], name)
    decreases |lines| - i
  {
    hide OpensNamed;
    if i < |lines| && !OpensNamed(lines[i], name) {
      FindHeaderMeans(lines, i + 1, name);
    }
  }

  /** The first line from i on that opens a table, or the number of lines. */
  function NextHeader(lines: seq<string>, i: nat): (r: nat)
    requires i <= |lines|
    ensures i <= r <= |lines|
    decreases |lines| - i
  {
    if i == |lines| || Opens(lines[i]) then i else NextHeader(lines, i + 1)
  }

  lemma {:induction false} NextHeaderMeans(lines: seq<string>, i: nat)
    requires i <= |lines|
    ensures var r := NextHeader(lines, i);
            (r < |lines| ==> Opens(lines[r])) && forall j :: i <= j < r ==> !Opens(lines[j])
    decreases |lines| - i
  {
    hide Opens;
    if i < |lines| && !Opens(lines[i]) {
      NextHeaderMeans(lines, i + 1);
    }
  }

  predicate HasKeyTables(lines: seq<string>, i: nat, end: nat)
    requires end <= |lines|
  {
    exists j :: i <= j < end && KeyTable(lines[j])
  }

  // ---- The edit ----------------------------------------------------------------------------------------------

  /** The flat edit, a refusal to touch mixed shapes, or the table path. */
  datatype FileEdit = Flat(e: Edit) | Mixed | Tables

  /** What is appended to a file without the section. */
  function NewSection(keys: seq<string>): seq<string> {
    ["", "[auth]", KeysLine(keys), ""]
  }

  function EditFile(lines: seq<string>, add: seq<string>, remove: set<string>): FileEdit {
    var bad := FirstInvalid(add, 0);
    var hdr := FindHeader(lines, 0, "auth");
    if bad > 0 then Flat(BadKey(bad))
    else if hdr == |lines| then
      var keys := NextKeys([], add, {});
      Flat(Edited(lines + NewSection(keys), keys))
    else
      var end := NextHeader(lines, hdr + 1);
      var f := FlatKeys(lines, hdr + 1, end);
      if f.Unterminated? then Flat(BadArray)
      else if HasKeyTables(lines, hdr + 1, end) then (if f.Found? then Mixed else Tables)
      else Flat(EditFlat(lines, hdr, end, add, remove))
  }

  /** The flat keys of a file, as the next edit will find them. */
  function FileKeys(lines: seq<string>): Flat {
    var hdr := FindHeader(lines, 0, "auth");
    if hdr == |lines| then Absent else FlatKeys(lines, hdr + 1, NextHeader(lines, hdr + 1))
  }

  // ---- The edited file -----------------------------------------------------------------------------------------

  lemma KeysLineOpensNothing(keys: seq<string>)
    ensures !Opens(KeysLine(keys)) && !KeyTable(KeysLine(keys)) && KeysLine(keys) != ""
  {
    hide Render;
    assert KeysLine(keys)[0] == 'k';
    assert SkipSpace(KeysLine(keys)) == KeysLine(keys);
  }

  lemma BlankOpensNothing()
    ensures !Opens("")
  {
  }

  lemma AuthHeader()
    ensures Opens("[auth]") && HeaderName("[auth]") == Some("auth")
  {
    var line := "[auth]";
    assert SkipSpace(line) == line;
    assert line[1..] == "auth]" && SkipChar("auth]", '[') == "auth]";
    assert SkipChar(line, '[') == "auth]";
    assert SkipSpace("auth]") == "auth]";
    NameOf("auth", "]");
    assert "auth" + "]" == "auth]" && "auth]"[4..] == "]";
    assert SkipSpace("]") == "]" && "]"[1..] == "" && SkipChar("", ']') == "";
    assert SkipChar("]", ']') == "" && SkipSpace("") == "";
    NotDoubled();
  }

  lemma {:induction false} NameOf(name: string, rest: string)
    requires forall i :: 0 <= i < |name| ==> NameChar(name[i])
    requires |rest| > 0 && !NameChar(rest[0])
    ensures TakeName(name + rest) == name
  {
    if |name| > 0 {
      assert (name + rest)[1..] == name[1..] + rest;
      NameOf(name[1..], rest);
    } else {
      assert name + rest == rest;
    }
  }

  lemma NotDoubled()
    ensures !Doubled("[auth]")
  {
    assert !IsSpace('[') && !IsSpace(']');
    assert Trim("[auth]") == "[auth]";
    assert "[auth]"[1] == 'a';
  }

  lemma {:induction false} HeaderAt(lines: seq<string>, i: nat, h: nat, name: string)
    requires i <= h < |lines| && OpensNamed(lines[h], name)
    requires forall j :: i <= j < h ==> !OpensNamed(lines[j], name)
    ensures FindHeader(lines, i, name) == h
    decreases h - i
  {
    hide OpensNamed;
    if i < h {
      HeaderAt(lines, i + 1, h, name);
    }
  }

  /** A line that opens nothing, put or kept inside a section, leaves the section's header in place. */
  lemma {:induction false} SameHeader(lines: seq<string>, out: seq<string>, hdr: nat)
    requires hdr < |lines| && hdr < |out| && out[..hdr + 1] == lines[..hdr + 1]
    requires FindHeader(lines, 0, "auth") == hdr
    ensures FindHeader(out, 0, "auth") == hdr
  {
    forall j | 0 <= j <= hdr
      ensures out[j] == lines[j]
    {
      assert out[j] == out[..hdr + 1][j] == lines[..hdr + 1][j];
    }
    hide OpensNamed;
    FindHeaderMeans(lines, 0, "auth");
    HeaderAt(out, 0, hdr, "auth");
  }

  /** The section still reaches past the written line. */
  lemma SectionReaches(out: seq<string>, hdr: nat, at: nat, keys: seq<string>)
    requires hdr < at < |out| && out[at] == KeysLine(keys)
    requires forall j :: hdr < j < at ==> !Opens(out[j]) && !KeysAssign(out[j])
    ensures NextHeader(out, hdr + 1) > at
    ensures FlatKeys(out, hdr + 1, NextHeader(out, hdr + 1)) == Found(at, at, keys)
  {
    hide Render, ScanArray, KeysAssign, ScanLines, Opens, KeyTable, KeysLine;
    KeysLineOpensNothing(keys);
    var end := NextHeader(out, hdr + 1);
    NextHeaderMeans(out, hdr + 1);
    FlatKeysSkips(out, hdr + 1, at, end);
    KeysLineScans(out, at, end, keys);
  }

  /** Rescanning an edited file gives exactly the keys the edit reports, which are the old keys minus
      the removed ones followed by the new ones: whatever else the file holds, and whether it had an
      [auth] section with keys, one without, or none. */
  lemma EditedFileRescans(lines: seq<string>, add: seq<string>, remove: set<string>)
    requires EditFile(lines, add, remove).Flat? && EditFile(lines, add, remove).e.Edited?
    ensures var e := EditFile(lines, add, remove).e;
            && FileKeys(e.lines).Found? && FileKeys(e.lines).keys == e.keys
            && e.keys == NextKeys(CurrentKeys(FileKeys(lines)), add, remove)
            && (|CurrentKeys(FileKeys(lines))| > 0 ==> |e.keys| > 0)
  {
    hide Render, ScanArray, KeysAssign, ScanLines, FlatKeys, Opens, KeyTable, KeysLine, FirstInvalid, NextKeys, HeaderName;
    var hdr := FindHeader(lines, 0, "auth");
    var e := EditFile(lines, add, remove).e;
    if hdr == |lines| {
      NothingToRemove(add, remove);
      NewSectionRescans(lines, e.keys);
    } else {
      SectionRescans(lines, hdr, add, remove);
    }
  }

  /** Where the edit of a section writes its line, and what stands before it. */
  lemma {:induction false} WrittenWhere(lines: seq<string>, hdr: nat, end: nat, add: seq<string>, remove: set<string>)
    requires hdr < end <= |lines| && Opens(lines[hdr]) && EditFlat(lines, hdr, end, add, remove).Edited?
    requires forall j :: hdr < j < end ==> !Opens(lines[j])
    ensures var e, at := EditFlat(lines, hdr, end, add, remove), EditStart(FlatKeys(lines, hdr + 1, end), lines, end);
            && hdr < at <= |lines| && at < |e.lines| && e.lines[..at] == lines[..at] && e.lines[at] == KeysLine(e.keys)
            && forall j :: hdr < j < at ==> !Opens(lines[j]) && !KeysAssign(lines[j])
  {
    hide Render, ScanArray, KeysAssign, ScanLines, FlatKeys, Opens, KeyTable, KeysLine, FirstInvalid, NextKeys, HeaderName;
    HeaderNotBlank(lines[hdr]);
    EditKeepsOtherLines(lines, hdr, end, add, remove);
    hide EditFlat;
    InsertPastHeader(lines, hdr, end);
    BeforeFlat(lines, hdr + 1, end, EditStart(FlatKeys(lines, hdr + 1, end), lines, end));
  }

  lemma SectionRescans(lines: seq<string>, hdr: nat, add: seq<string>, remove: set<string>)
    requires hdr < |lines| && hdr == FindHeader(lines, 0, "auth")
    requires EditFlat(lines, hdr, NextHeader(lines, hdr + 1), add, remove).Edited?
    ensures var f := FlatKeys(lines, hdr + 1, NextHeader(lines, hdr + 1));
            var e := EditFlat(lines, hdr, NextHeader(lines, hdr + 1), add, remove);
            && FileKeys(e.lines).Found? && FileKeys(e.lines).keys == e.keys
            && e.keys == NextKeys(CurrentKeys(f), add, remove)
            && (|CurrentKeys(f)| > 0 ==> |e.keys| > 0)
  {
    hide Render, ScanArray, KeysAssign, ScanLines, FlatKeys, Opens, KeyTable, KeysLine, FirstInvalid, NextKeys, HeaderName;
    hide FindHeader, NextHeader, FileKeys, EditFlat, EditStart, CurrentKeys;
    var end := NextHeader(lines, hdr + 1);
    FindHeaderMeans(lines, 0, "auth");
    NextHeaderMeans(lines, hdr + 1);
    HeaderNotBlank(lines[hdr]);
    EditRescans(lines, hdr, end, add, remove);
    WrittenWhere(lines, hdr, end, add, remove);
    var e := EditFlat(lines, hdr, end, add, remove);
    WrittenLineFound(lines, e.lines, hdr, EditStart(FlatKeys(lines, hdr + 1, end), lines, end), e.keys);
  }

  /** A file that is as before up to the written line. */
  lemma {:induction false} WrittenLineFound(lines: seq<string>, out: seq<string>, hdr: nat, at: nat, keys: seq<string>)
    requires hdr < at <= |lines| && at < |out| && out[..at] == lines[..at] && out[at] == KeysLine(keys)
    requires FindHeader(lines, 0, "auth") == hdr
    requires forall j :: hdr < j < at ==> !Opens(lines[j]) && !KeysAssign(lines[j])
    ensures FileKeys(out).Found? && FileKeys(out).keys == keys
  {
    hide Render, ScanArray, KeysAssign, ScanLines, FlatKeys, Opens, KeyTable, KeysLine, HeaderName;
    UpToLine(lines, out, hdr, at);
    SameHeader(lines, out, hdr);
    SectionReaches(out, hdr, at, keys);
  }

  lemma HeaderNotBlank(line: string)
    requires Opens(line)
    ensures line != ""
  {
  }

  lemma InsertPastHeader(lines: seq<string>, hdr: nat, end: nat)
    requires hdr < end <= |lines| && lines[hdr] != ""
    ensures hdr < InsertAt(lines, end) <= end
  {
  }

  lemma UpToLine(lines: seq<string>, out: seq<string>, hdr: nat, at: nat)
    requires hdr < at <= |lines| && at <= |out| && out[..at] == lines[..at]
    ensures out[..hdr + 1] == lines[..hdr + 1]
    ensures forall j :: 0 <= j < at ==> out[j] == lines[j]
  {
    assert out[..hdr + 1] == out[..at][..hdr + 1];
    assert lines[..hdr + 1] == lines[..at][..hdr + 1];
    forall j | 0 <= j < at
      ensures out[j] == lines[j]
    {
      assert out[j] == out[..at][j] == lines[..at][j];
    }
  }

  /** No assignment stands before the place the new line goes to. */
  lemma {:induction false} BeforeFlat(lines: seq<string>, i: nat, end: nat, at: nat)
    requires end <= |lines|
    requires var f := FlatKeys(lines, i, end);
             !f.Unterminated? && at == EditStart(f, lines, end)
    ensures forall j :: i <= j < at ==> !KeysAssign(lines[j])
    ensures at <= end
  {
  }

  /** With no current keys there is nothing to remove. */
  lemma NothingToRemove(add: seq<string>, remove: set<string>)
    ensures NextKeys([], add, remove) == NextKeys([], add, {})
  {
    assert Kept([], remove, 0) == Kept([], {}, 0);
  }

  lemma {:induction false} NewSectionRescans(lines: seq<string>, keys: seq<string>)
    requires FindHeader(lines, 0, "auth") == |lines|
    ensures FileKeys(lines + NewSection(keys)).Found? && FileKeys(lines + NewSection(keys)).keys == keys
  {
    hide Render, ScanArray, KeysAssign, ScanLines, FlatKeys, Opens, KeyTable, KeysLine, HeaderName;
    var out, n := lines + NewSection(keys), |lines|;
    AuthHeader();
    BlankOpensNothing();
    FindHeaderMeans(lines, 0, "auth");
    assert out[n] == "" && out[n + 1] == "[auth]" && out[n + 2] == KeysLine(keys);
    HeaderAt(out, 0, n + 1, "auth");
    SectionReaches(out, n + 1, n + 2, keys);
  }

  // ---- When an edit succeeds -----------------------------------------------------------------------------------

  /** What a key must be to be added: not empty, no white space at either end, no control character. */
  predicate Addable(k: string) {
    && k != "" && !IsSpace(k[0]) && !IsSpace(k[|k| - 1])
    && forall i :: 0 <= i < |k| ==> !(k[i] as int < 0x20 || 0x7F <= k[i] as int <= 0x9F)
  }

  lemma {:induction false} TrimRightShrinks(s: string)
    ensures |TrimRight(s)| <= |s|
    ensures |s| > 0 && IsSpace(s[|s| - 1]) ==> |TrimRight(s)| < |s|
  {
    hide IsSpace;
    if |s| > 0 && IsSpace(s[|s| - 1]) {
      TrimRightShrinks(s[..|s| - 1]);
    }
  }

  lemma {:induction false} TrimLeftShrinks(s: string)
    ensures |TrimLeft(s)| <= |s|
    ensures |s| > 0 && IsSpace(s[0]) ==> |TrimLeft(s)| < |s|
  {
    hide IsSpace;
    if |s| > 0 && IsSpace(s[0]) {
      TrimLeftShrinks(s[1..]);
    }
  }

  lemma ValidIsAddable(k: string)
    ensures ValidKey(k) <==> Addable(k)
  {
    hide IsSpace;
    TrimLeftShrinks(k);
    TrimRightShrinks(TrimLeft(k));
    assert forall i :: 0 <= i < |k| ==> (IsControl(k[i]) <==> k[i] as int < 0x20 || 0x7F <= k[i] as int <= 0x9F);
  }

  lemma {:induction false} FirstInvalidMeans(add: seq<string>, i: nat)
    requires i <= |add|
    ensures var n := FirstInvalid(add, i);
            && (n == 0 <==> forall j :: i <= j < |add| ==> Addable(add[j]))
            && (n > 0 ==> i < n <= |add| && !Addable(add[n - 1]) && forall j :: i <= j < n - 1 ==> Addable(add[j]))
    decreases |add| - i
  {
    hide ValidKey, Addable;
    if i < |add| {
      ValidIsAddable(add[i]);
      FirstInvalidMeans(add, i + 1);
    }
  }

  /** The [auth] section holds [[auth.keys]] tables. */
  predicate InTables(lines: seq<string>) {
    var hdr := FindHeader(lines, 0, "auth");
    hdr < |lines| && HasKeyTables(lines, hdr + 1, NextHeader(lines, hdr + 1))
  }

  /** Exactly when the edit goes through: every key to add is addable, the key list that is there can be
      read, no tables hold the keys, and not all keys would go with none to come.  A key that is not
      addable is reported by its position, the first of them and before anything else. */
  lemma {:induction false} EditsExactlyWhen(lines: seq<string>, add: seq<string>, remove: set<string>)
    ensures var r, f := EditFile(lines, add, remove), FileKeys(lines);
            var cur := CurrentKeys(f);
            && (r.Flat? && r.e.Edited? <==>
                  && (forall j :: 0 <= j < |add| ==> Addable(add[j]))
                  && !f.Unterminated? && !InTables(lines)
                  && !(add == [] && cur != [] && forall k :: k in cur ==> k in remove))
            && (forall p: nat :: r == Flat(BadKey(p)) <==>
                  1 <= p <= |add| && !Addable(add[p - 1]) && forall j :: 0 <= j < p - 1 ==> Addable(add[j]))
  {
    hide Addable, FlatKeys, HeaderName, Opens, KeyTable, KeysLine, Render, NextKeys, HasKeyTables, FindHeader, NextHeader;
    FirstInvalidMeans(add, 0);
    var cur := CurrentKeys(FileKeys(lines));
    NextKeysMeans(cur, add, remove);
    var next := NextKeys(cur, add, remove);
    assert forall k :: k in next ==> next != [];
    assert next != [] ==> next[0] in next;
    assert add != [] ==> add[0] in next;
  }

  // ---- The loops -------------------------------------------------------------------------------------------------

  /** Locates the named table: its header line and the end of its section. */
  method FindSection(lines: seq<string>, name: string) returns (hdr: nat, end: nat, ok: bool)
    ensures ok <==> FindHeader(lines, 0, name) < |lines|
    ensures ok ==> hdr == FindHeader(lines, 0, name) && hdr < end == NextHeader(lines, hdr + 1)
  {
    hide HeaderName, Doubled;
    var i := 0;
    while i < |lines|
      invariant 0 <= i <= |lines| && FindHeader(lines, 0, name) == FindHeader(lines, i, name)
    {
      if HeaderName(lines[i]) != Some(name) || Doubled(lines[i]) {
        i := i + 1;
        continue;
      }
      var j := i + 1;
      while j < |lines|
        invariant i < j <= |lines| && NextHeader(lines, i + 1) == NextHeader(lines, j)
      {
        if HeaderName(lines[j]) == None || Doubled(lines[j]) {
          j := j + 1;
          continue;
        }
        return i, j, true;
      }
      return i, |lines|, true;
    }
    return 0, 0, false;
  }

  method ScanKeyTables(lines: seq<string>, hdr: nat, end: nat) returns (ok: bool)
    requires hdr < end <= |lines|
    ensures ok == HasKeyTables(lines, hdr + 1, end)
  {
    hide KeyTable;
    for i := hdr + 1 to end
      invariant forall j :: hdr < j < i ==> !KeyTable(lines[j])
    {
      if KeyTable(lines[i]) {
        return true;
      }
    }
    return false;
  }

  /** Applies the change to the whole file. */
  method SpliceAuthKeys(lines: seq<string>, add: seq<string>, remove: set<string>) returns (e: FileEdit)
    ensures e == EditFile(lines, add, remove)
  {
    hide HeaderName, Opens, KeyTable, Render, ScanArray, ValidKey;
    for n := 0 to |add|
      invariant FirstInvalid(add, 0) == FirstInvalid(add, n)
    {
      if !ValidKey(add[n]) {
        return Flat(BadKey(n + 1));
      }
    }
    var hdr, end, found := FindSection(lines, "auth");
    if !found {
      var next := Dedupe(add);
      var line := RenderStringArray(next);
      return Flat(Edited(lines + ["", "[auth]", "keys = " + line, ""], next));
    }
    var f := ScanAuthFlatKeys(lines, hdr, end);
    if f.Unterminated? {
      return Flat(BadArray);
    }
    var hasTables := ScanKeyTables(lines, hdr, end);
    if f.Found? && hasTables {
      return Mixed;
    }
    if hasTables {
      return Tables;
    }
    var edit, added, removed := SpliceFlat(lines, hdr, end, add, remove);
    return Flat(edit);
  }

  method Dedupe(add: seq<string>) returns (next: seq<string>)
    ensures next == NextKeys([], add, {})
  {
    next := [];
    var seen: set<string> := {};
    for n := 0 to |add|
      invariant next == WithAdded([], add, n)
      invariant forall k :: k in seen <==> k in next
    {
      if add[n] !in seen {
        seen := seen + {add[n]};
        next := next + [add[n]];
      }
    }
  }
}
