/** The ".properties" files of properties_file.cpp: a text of `key=value` lines, read into a map and printed from it in
  whatever order the map is walked.

  Characters stand for bytes. The file system is left out: a file is its text.
*/
module PropertiesFile {
  import opened Wrappers

  const WHITE: set<char> := {' ', '\t', '\r', '\n'}
  const BLANK: set<char> := {' ', '\t'}

  type Entries = map<string, string>

  // ---------------------------------------------------------------------------------------------
  // trim and split_key_value

  function TrimLeft(s: string, chars: set<char>): (r: string)
    ensures |r| <= |s|
  {
    if s != "" && s[0] in chars then TrimLeft(s[1..], chars) else s
  }

  function TrimRight(s: string, chars: set<char>): string {
    if s != "" && s[|s| - 1] in chars then TrimRight(s[..|s| - 1], chars) else s
  }

  function Trim(s: string, chars: set<char>): string {
    TrimRight(TrimLeft(s, chars), chars)
  }

  predicate Within(s: string, chars: set<char>) {
    forall c :: c in s ==> c in chars
  }

  /** Neither end is one of the characters. */
  predicate CleanLeft(s: string, chars: set<char>) {
    s != "" ==> s[0] !in chars
  }

  predicate CleanRight(s: string, chars: set<char>) {
    s != "" ==> s[|s| - 1] !in chars
  }

  lemma {:induction false} TrimLeftMeaning(s: string, chars: set<char>) returns (cut: string)
    ensures s == cut + TrimLeft(s, chars) && Within(cut, chars) && CleanLeft(TrimLeft(s, chars), chars)
  {
    if s != "" && s[0] in chars {
      var rest := TrimLeftMeaning(s[1..], chars);
      cut := [s[0]] + rest;
      assert s == [s[0]] + s[1..];
    } else {
      cut := "";
    }
  }

  lemma {:induction false} TrimRightMeaning(s: string, chars: set<char>) returns (cut: string)
    ensures s == TrimRight(s, chars) + cut && Within(cut, chars) && CleanRight(TrimRight(s, chars), chars)
  {
    if s != "" && s[|s| - 1] in chars {
      var rest := TrimRightMeaning(s[..|s| - 1], chars);
      cut := rest + [s[|s| - 1]];
      assert s == s[..|s| - 1] + [s[|s| - 1]];
    } else {
      cut := "";
    }
  }

  /** Trimming takes characters of the set off both ends, and as many as there are. */
  lemma TrimMeaning(s: string, chars: set<char>) returns (left: string, right: string)
    ensures s == left + Trim(s, chars) + right && Within(left, chars) && Within(right, chars)
    ensures CleanLeft(Trim(s, chars), chars) && CleanRight(Trim(s, chars), chars)
  {
    left := TrimLeftMeaning(s, chars);
    right := TrimRightMeaning(TrimLeft(s, chars), chars);
    var t := Trim(s, chars);
    if t != "" { assert TrimLeft(s, chars)[0] == t[0]; }
  }

  lemma {:induction false} TrimRightAfter(s: string, c: char, v: string, chars: set<char>)
    requires c !in chars
    ensures TrimRight(s + [c] + v, chars) == s + [c] + TrimRight(v, chars)
    decreases |v|
  {
    var all := s + [c] + v;
    if v != "" {
      assert all[..|all| - 1] == s + [c] + v[..|v| - 1];
      if v[|v| - 1] in chars { TrimRightAfter(s, c, v[..|v| - 1], chars); }
    }
  }

  /** The position of the first `c`, or the length of the text if there is none. */
  function Find(s: string, c: char): (i: nat)
    ensures i <= |s| && c !in s[..i] && (i < |s| ==> s[i] == c)
  {
    if s == "" || s[0] == c then 0
    else
      var i := 1 + Find(s[1..], c);
      assert s[..i] == [s[0]] + s[1..][..i - 1];
      i
  }

  lemma FindAfter(k: string, c: char, v: string)
    requires c !in k
    ensures Find(k + [c] + v, c) == |k|
  {
    var s := k + [c] + v;
    assert s[|k|] == c && forall j :: 0 <= j < |k| ==> s[j] == k[j];
  }

  function SplitKeyValue(line: string): Option<(string, string)> {
    var i := Find(line, '=');
    if i == |line| then None else Some((line[..i], line[i + 1..]))
  }

  // ---------------------------------------------------------------------------------------------
  // load_from_file

  /** What the reader keeps from line to line. */
  datatype Reader = Reader(prefix: string, entries: Entries)

  datatype Line = Skipped | Section(name: string) | Entry(key: string, value: string)

  function Classify(raw: string): Line {
    var line := Trim(raw, WHITE);
    if line == "" || line[0] == '#' then Skipped
    else if line[0] == '[' then Section(line)
    else match SplitKeyValue(line)
      case None => Skipped
      case Some((key, value)) => Entry(Trim(key, BLANK), Trim(value, BLANK))
  }

  function FlushLine(r: Reader, raw: string): Reader {
    match Classify(raw)
    case Skipped => r
    case Section(name) => r.(prefix := name)
    case Entry(key, value) => r.(entries := r.entries[r.prefix + key := value])
  }

  /** The pieces between line ends. A text that ends with a line end has an empty last piece. */
  function Lines(text: string): (lines: seq<string>)
    ensures lines != []
  {
    var i := Find(text, '\n');
    if i == |text| then [text] else [text[..i]] + Lines(text[i + 1..])
  }

  function ReadLines(r: Reader, lines: seq<string>): Reader
    decreases |lines|
  {
    if lines == [] then r else ReadLines(FlushLine(r, lines[0]), lines[1..])
  }

  /** The entries that a text holds. */
  function Parse(text: string): Entries {
    ReadLines(Reader("", map[]), Lines(text)).entries
  }

  lemma LinesAfter(line: string, rest: string)
    requires '\n' !in line
    ensures Lines(line + "\n" + rest) == [line] + Lines(rest)
  {
    FindAfter(line, '\n', rest);
    var text := line + ['\n'] + rest;
    assert text == line + "\n" + rest;
    assert text[..|line|] == line && text[|line| + 1..] == rest;
  }

  lemma OneLine(line: string)
    requires '\n' !in line
    ensures Lines(line) == [line]
  {
  }

  lemma {:induction false} LinesHaveNoNewline(text: string)
    ensures forall line :: line in Lines(text) ==> '\n' !in line
    ensures forall line, c :: line in Lines(text) && c in line ==> c in text
    decreases |text|
  {
    var i := Find(text, '\n');
    if i < |text| { LinesHaveNoNewline(text[i + 1..]); }
  }

  // ---------------------------------------------------------------------------------------------
  // What a text means, line by line

  predicate IsSectionLine(raw: string) {
    var line := Trim(raw, WHITE);
    line != "" && line[0] == '['
  }

  predicate IsEntryLine(raw: string) {
    var line := Trim(raw, WHITE);
    line != "" && line[0] != '#' && line[0] != '[' && '=' in line
  }

  function EntryKey(raw: string): string {
    var line := Trim(raw, WHITE);
    Trim(line[..Find(line, '=')], BLANK)
  }

  function EntryValue(raw: string): string
    requires IsEntryLine(raw)
  {
    var line := Trim(raw, WHITE);
    Trim(line[Find(line, '=') + 1..], BLANK)
  }

  /** The text of the last section line among the first `i`. */
  function SectionAt(lines: seq<string>, i: nat): string
    requires i <= |lines|
  {
    if i == 0 then "" else if IsSectionLine(lines[i - 1]) then Trim(lines[i - 1], WHITE) else SectionAt(lines, i - 1)
  }

  predicate Sets(lines: seq<string>, i: nat, k: string)
    requires i < |lines|
  {
    IsEntryLine(lines[i]) && k == SectionAt(lines, i) + EntryKey(lines[i])
  }

  ghost predicate SetsLast(lines: seq<string>, i: nat, k: string, v: string)
    requires i < |lines|
  {
    Sets(lines, i, k) && v == EntryValue(lines[i]) && forall j :: i < j < |lines| ==> !Sets(lines, j, k)
  }

  /** The last line that sets the key gives it this value. */
  ghost predicate Gives(lines: seq<string>, k: string, v: string) {
    exists i :: 0 <= i < |lines| && SetsLast(lines, i, k, v)
  }

  ghost predicate NeverSets(lines: seq<string>, k: string) {
    forall i :: 0 <= i < |lines| ==> !Sets(lines, i, k)
  }

  lemma ClassifyMeaning(raw: string)
    ensures Classify(raw) ==
      if IsSectionLine(raw) then Section(Trim(raw, WHITE))
      else if IsEntryLine(raw) then Entry(EntryKey(raw), EntryValue(raw))
      else Skipped
  {
    var line := Trim(raw, WHITE);
    var i := Find(line, '=');
    assert i == |line| ==> line[..i] == line;
    assert '=' in line <==> i < |line|;
  }

  lemma {:induction false} SectionOfFront(lines: seq<string>, n: nat, i: nat)
    requires i <= n <= |lines|
    ensures SectionAt(lines[..n], i) == SectionAt(lines, i)
    decreases i
  {
    if i > 0 { SectionOfFront(lines, n, i - 1); }
  }

  lemma {:induction false} ReadsOneMore(r: Reader, lines: seq<string>, line: string)
    ensures ReadLines(r, lines + [line]) == FlushLine(ReadLines(r, lines), line)
    decreases |lines|
  {
    if lines == [] {
      assert [] + [line] == [line] && [line][1..] == [];
    } else {
      assert (lines + [line])[1..] == lines[1..] + [line];
      ReadsOneMore(FlushLine(r, lines[0]), lines[1..], line);
    }
  }

  /** After reading some lines, a key has the value of the last line that sets it: one whose section, the last section
    line before it, followed by its own key, is the key. Without such a line it has what it had. */
  lemma {:induction false} ReadsTheLastLine(m: Entries, lines: seq<string>, k: string, v: string)
    ensures ReadLines(Reader("", m), lines).prefix == SectionAt(lines, |lines|)
    ensures var after := ReadLines(Reader("", m), lines).entries;
      k in after && after[k] == v <==>
        || Gives(lines, k, v)
        || (NeverSets(lines, k) && k in m && m[k] == v)
    decreases |lines|
  {
    if lines != [] {
      var n := |lines| - 1;
      var front := lines[..n];
      assert lines == front + [lines[n]];
      hide Classify, IsSectionLine, IsEntryLine, EntryKey, EntryValue;
      ReadsTheLastLine(m, front, k, v);
      ReadsOneMore(Reader("", m), front, lines[n]);
      ClassifyMeaning(lines[n]);
      forall i | 0 <= i <= n ensures SectionAt(front, i) == SectionAt(lines, i) { SectionOfFront(lines, n, i); }
      LastOfMore(lines, n, k, v);
    }
  }

  lemma LastOfMore(lines: seq<string>, n: nat, k: string, v: string)
    requires n + 1 == |lines| && forall i :: 0 <= i <= n ==> SectionAt(lines[..n], i) == SectionAt(lines, i)
    ensures NeverSets(lines, k) <==> NeverSets(lines[..n], k) && !Sets(lines, n, k)
    ensures Sets(lines, n, k) ==>
      (Gives(lines, k, v) <==> v == EntryValue(lines[n]))
    ensures !Sets(lines, n, k) ==>
      (Gives(lines, k, v) <==> Gives(lines[..n], k, v))
  {
    hide SectionAt, IsEntryLine, EntryKey, EntryValue;
    var front := lines[..n];
    assert forall i :: 0 <= i < n ==> (Sets(front, i, k) <==> Sets(lines, i, k));
    if Sets(lines, n, k) && v == EntryValue(lines[n]) { assert SetsLast(lines, n, k, v); }
    if !Sets(lines, n, k) {
      forall i | 0 <= i < n ensures SetsLast(front, i, k, v) <==> SetsLast(lines, i, k, v) {
      }
    }
  }

  /** A text holds exactly what its lines say, each key as the last line that sets it. */
  lemma ParseExactly(text: string, k: string, v: string)
    ensures k in Parse(text) && Parse(text)[k] == v <==> Gives(Lines(text), k, v)
  {
    hide Gives, NeverSets;
    ReadsTheLastLine(map[], Lines(text), k, v);
  }

  lemma {:induction false} SectionWithoutMore(lines: seq<string>, start: nat, i: nat)
    requires start < i <= |lines| && IsSectionLine(lines[start])
    requires forall j :: start < j < i ==> !IsSectionLine(lines[j])
    ensures SectionAt(lines, i) == Trim(lines[start], WHITE)
    decreases i
  {
    if i - 1 > start { SectionWithoutMore(lines, start, i - 1); }
  }

  lemma SectionBehind(lines: seq<string>, before: seq<string>, section: string, plain: seq<string>, j: nat)
    requires lines == before + [section] + plain && IsSectionLine(section)
    requires (forall line :: line in plain ==> !IsSectionLine(line)) && j < |plain|
    ensures lines[|before| + 1 + j] == plain[j] && SectionAt(lines, |before| + 1 + j) == Trim(section, WHITE)
  {
    hide IsSectionLine, Trim;
    var start := |before|;
    assert lines[start] == section && forall l :: start < l < start + 1 + j ==> lines[l] == plain[l - start - 1];
    SectionWithoutMore(lines, start, start + 1 + j);
  }

  /** Behind a section line, whatever comes before it, each entry stands under the text of that line and its own key, up
    to the next section line. */
  lemma EntriesStandUnderTheirSection(text: string, before: seq<string>, section: string, plain: seq<string>, i: nat)
    requires Lines(text) == before + [section] + plain && IsSectionLine(section)
    requires forall line :: line in plain ==> !IsSectionLine(line)
    requires i < |plain| && IsEntryLine(plain[i])
    requires forall j :: i < j < |plain| && IsEntryLine(plain[j]) ==> EntryKey(plain[j]) != EntryKey(plain[i])
    ensures var k := Trim(section, WHITE) + EntryKey(plain[i]);
      k in Parse(text) && Parse(text)[k] == EntryValue(plain[i])
  {
    hide IsEntryLine, IsSectionLine, EntryKey, EntryValue, Parse, Lines, SectionAt, Trim;
    var lines, at := Lines(text), |before| + 1 + i;
    var name := Trim(section, WHITE);
    SectionBehind(lines, before, section, plain, i);
    forall m | at < m < |lines| ensures !Sets(lines, m, name + EntryKey(plain[i])) {
      var j := m - |before| - 1;
      SectionBehind(lines, before, section, plain, j);
      if Sets(lines, m, name + EntryKey(plain[i])) { SameTail(name, EntryKey(plain[j]), EntryKey(plain[i])); }
    }
    assert SetsLast(lines, at, name + EntryKey(plain[i]), EntryValue(plain[i]));
    ParseExactly(text, name + EntryKey(plain[i]), EntryValue(plain[i]));
  }

  lemma SameTail(front: string, a: string, b: string)
    requires front + a == front + b
    ensures a == b
  {
    assert (front + a)[|front|..] == a && (front + b)[|front|..] == b;
  }

  // ---------------------------------------------------------------------------------------------
  // The print loop of save_to_file

  /** What a string looks like through `c_str()` and "%s". */
  function CString(s: string): (r: string)
    ensures '\0' !in r
  {
    s[..Find(s, '\0')]
  }

  lemma CStringOfPlain(s: string)
    requires '\0' !in s
    ensures CString(s) == s
  {
  }

  function PrintLine(key: string, value: string): string {
    CString(key) + "=" + CString(value) + "\n"
  }

  /** `order` names each key once: an order in which an unordered map may be walked. */
  ghost predicate IsOrder(order: seq<string>, m: Entries) {
    (forall i, j :: 0 <= i < j < |order| ==> order[i] != order[j]) && (forall k :: k in order <==> k in m)
  }

  function Print(m: Entries, order: seq<string>): string
    requires forall k :: k in order ==> k in m
  {
    if order == [] then "" else PrintLine(order[0], m[order[0]]) + Print(m, order[1..])
  }

  /** Save and open again. */
  ghost function Reload(m: Entries, order: seq<string>): Entries
    requires IsOrder(order, m)
  {
    Parse(Print(m, order))
  }

  // ---------------------------------------------------------------------------------------------
  // What survives

  predicate KeyOk(k: string) {
    '\n' !in k && '=' !in k && '\0' !in k && CleanLeft(k, {'#', '[', ' ', '\t', '\r'}) && CleanRight(k, BLANK)
  }

  predicate OneLineValue(v: string) {
    '\n' !in v && '\0' !in v
  }

  predicate ValueOk(v: string) {
    OneLineValue(v) && CleanLeft(v, BLANK) && CleanRight(v, WHITE)
  }

  predicate InDomain(m: Entries) {
    forall k :: k in m ==> KeyOk(k) && ValueOk(m[k])
  }

  lemma PlainLine(k: string, v: string)
    requires KeyOk(k) && OneLineValue(v)
    ensures PrintLine(k, v) == k + "=" + v + "\n" && '\n' !in k + "=" + v
  {
    CStringOfPlain(k);
    CStringOfPlain(v);
  }

  /** What is left of a value without line ends: the line is trimmed first, and then the value. */
  function TrimmedValue(v: string): string {
    Trim(TrimRight(v, WHITE), BLANK)
  }

  lemma TrimClean(s: string, chars: set<char>)
    ensures Trim(s, chars) == s <==> CleanLeft(s, chars) && CleanRight(s, chars)
  {
    if Trim(s, chars) == s { var _, _ := TrimMeaning(s, chars); }
  }

  lemma TrimmedValueFixed(v: string)
    requires OneLineValue(v)
    ensures TrimmedValue(v) == v <==> ValueOk(v)
  {
    var t := TrimRight(v, WHITE);
    var cut := TrimRightMeaning(v, WHITE);
    var left, right := TrimMeaning(t, BLANK);
    TrimClean(t, BLANK);
    if TrimmedValue(v) == v { assert |t| == |v|; assert t == v; }
    if ValueOk(v) { assert t == v; }
  }

  /** A printed entry is read as that entry, with a trimmed value. */
  lemma EntryReadsBack(k: string, v: string)
    requires KeyOk(k) && OneLineValue(v)
    ensures Classify(k + "=" + v) == Entry(k, TrimmedValue(v))
  {
    var raw := k + ['='] + v;
    assert raw == k + "=" + v;
    assert raw[0] == (if k == "" then '=' else k[0]);
    assert raw[0] !in WHITE;
    assert TrimLeft(raw, WHITE) == raw;
    TrimRightAfter(k, '=', v, WHITE);
    var value := TrimRight(v, WHITE);
    var line := k + ['='] + value;
    assert Trim(raw, WHITE) == line && line[0] == raw[0];
    FindAfter(k, '=', value);
    assert line[..|k|] == k && line[|k| + 1..] == value;
    TrimClean(k, BLANK);
  }

  /** The entries of the first keys of an order, after a save and a load. */
  function Trimmed(m: Entries): Entries {
    map k | k in m :: TrimmedValue(m[k])
  }

  lemma EmptyLine(r: Reader)
    ensures Classify("") == Skipped && ReadLines(r, [""]) == r
  {
    assert ReadLines(r, [""][1..]) == r;
  }

  lemma {:induction false} PrintReadsBack(m: Entries, order: seq<string>, r: Reader)
    requires r.prefix == "" && forall k :: k in order ==> k in m && KeyOk(k) && OneLineValue(m[k])
    requires forall i, j :: 0 <= i < j < |order| ==> order[i] != order[j]
    ensures ReadLines(r, Lines(Print(m, order))) ==
      Reader("", r.entries + map k | k in order :: TrimmedValue(m[k]))
    decreases |order|
  {
    hide TrimmedValue, KeyOk, OneLineValue, CString, Classify, Lines;
    if order == [] {
      OneLine("");
      EmptyLine(r);
    } else {
      var k, rest := order[0], order[1..];
      var line := k + "=" + m[k];
      PlainLine(k, m[k]);
      assert Print(m, order) == line + "\n" + Print(m, rest);
      LinesAfter(line, Print(m, rest));
      EntryReadsBack(k, m[k]);
      var next := FlushLine(r, line);
      assert next == Reader("", r.entries[k := TrimmedValue(m[k])]) by { assert "" + k == k; }
      PrintReadsBack(m, rest, next);
      assert ReadLines(r, [line] + Lines(Print(m, rest))) == ReadLines(next, Lines(Print(m, rest)));
      OneMore(m, order, r.entries);
    }
  }

  lemma OneMore(m: Entries, order: seq<string>, entries: Entries)
    requires order != [] && order[0] !in order[1..] && forall k :: k in order ==> k in m
    ensures entries[order[0] := TrimmedValue(m[order[0]])] + (map k | k in order[1..] :: TrimmedValue(m[k]))
         == entries + map k | k in order :: TrimmedValue(m[k])
  {
    hide TrimmedValue;
    assert forall k :: k in order <==> k == order[0] || k in order[1..];
  }

  /** With keys that survive, every entry comes back with its value trimmed, in whatever order the map is printed. */
  lemma ReloadTrimsValues(m: Entries, order: seq<string>)
    requires IsOrder(order, m) && forall k :: k in m ==> KeyOk(k) && OneLineValue(m[k])
    ensures Reload(m, order) == Trimmed(m)
  {
    PrintReadsBack(m, order, Reader("", map[]));
  }

  // ---------------------------------------------------------------------------------------------
  // What is read can be written

  lemma KeyOfLine(line: string, i: nat)
    requires i <= |line| && '\n' !in line && '\0' !in line && '=' !in line[..i]
    requires line != "" && line[0] !in WHITE && line[0] != '#' && line[0] != '['
    ensures KeyOk(Trim(line[..i], BLANK))
  {
    var k := line[..i];
    var left, right := TrimMeaning(k, BLANK);
    var key := Trim(k, BLANK);
    assert forall c :: c in key ==> c in k;
    assert forall c :: c in k ==> c in line;
    if key != "" {
      assert left == "";
      assert key[0] == line[0];
    }
  }

  lemma ValueOfLine(line: string, i: nat)
    requires i < |line| && '\n' !in line && '\0' !in line && CleanRight(line, WHITE)
    ensures ValueOk(Trim(line[i + 1..], BLANK))
  {
    var v := line[i + 1..];
    var left, right := TrimMeaning(v, BLANK);
    var value := Trim(v, BLANK);
    assert forall c :: c in value ==> c in v;
    assert forall c :: c in v ==> c in line;
    if value != "" {
      assert right == "";
      assert value[|value| - 1] == line[|line| - 1];
    }
  }

  /** A line outside a section yields an entry that survives. */
  lemma EntryInDomain(raw: string)
    requires '\n' !in raw && '\0' !in raw && Classify(raw).Entry?
    ensures KeyOk(Classify(raw).key) && ValueOk(Classify(raw).value)
  {
    hide KeyOk, ValueOk;
    var line := Trim(raw, WHITE);
    var left, right := TrimMeaning(raw, WHITE);
    assert forall c :: c in line ==> c in raw;
    KeyOfLine(line, Find(line, '='));
    ValueOfLine(line, Find(line, '='));
  }

  predicate StartsWith(s: string, c: char) {
    s != "" && s[0] == c
  }

  /** An entry either survives or stands in a section. */
  predicate EntryFine(k: string, v: string) {
    StartsWith(k, '[') || (KeyOk(k) && ValueOk(v))
  }

  predicate AllFine(e: Entries) {
    forall k :: k in e ==> EntryFine(k, e[k])
  }

  predicate PrefixFine(prefix: string) {
    prefix == "" || prefix[0] == '['
  }

  lemma {:induction false} ReadLinesFine(r: Reader, lines: seq<string>)
    requires forall line :: line in lines ==> '\n' !in line && '\0' !in line
    requires PrefixFine(r.prefix) && AllFine(r.entries)
    ensures AllFine(ReadLines(r, lines).entries)
    decreases |lines|
  {
    hide KeyOk, ValueOk, Trim, SplitKeyValue;
    if lines != [] {
      var next := FlushLine(r, lines[0]);
      if Classify(lines[0]).Entry? {
        EntryInDomain(lines[0]);
        var key := Classify(lines[0]).key;
        if r.prefix == "" { assert "" + key == key; } else { assert (r.prefix + key)[0] == '['; }
      }
      ReadLinesFine(next, lines[1..]);
    }
  }

  lemma ParseFine(text: string)
    requires '\0' !in text
    ensures AllFine(Parse(text))
  {
    LinesHaveNoNewline(text);
    ReadLinesFine(Reader("", map[]), Lines(text));
  }

  lemma {:induction false} WithoutSections(r: Reader, lines: seq<string>)
    requires forall line :: line in lines ==> !Classify(line).Section? && '\n' !in line && '\0' !in line
    requires r.prefix == "" && InDomain(r.entries)
    ensures InDomain(ReadLines(r, lines).entries)
    decreases |lines|
  {
    if lines != [] {
      var next := FlushLine(r, lines[0]);
      if Classify(lines[0]).Entry? {
        EntryInDomain(lines[0]);
        var key := Classify(lines[0]).key;
        assert "" + key == key;
      }
      WithoutSections(next, lines[1..]);
    }
  }

  lemma DomainReloads(m: Entries, order: seq<string>)
    requires IsOrder(order, m) && InDomain(m)
    ensures Reload(m, order) == m
  {
    ReloadTrimsValues(m, order);
    forall k | k in m ensures TrimmedValue(m[k]) == m[k] { TrimmedValueFixed(m[k]); }
    assert Trimmed(m) == m;
  }

  // ---------------------------------------------------------------------------------------------
  // Nothing else survives

  lemma {:induction false} PrintHasNoNul(m: Entries, order: seq<string>)
    requires forall k :: k in order ==> k in m
    ensures '\0' !in Print(m, order)
  {
    if order != [] { PrintHasNoNul(m, order[1..]); }
  }

  predicate PlainEntries(e: Entries) {
    forall k :: k in e ==> '\n' !in k && '\n' !in e[k]
  }

  lemma ClassifyOneLine(raw: string)
    requires '\n' !in raw
    ensures match Classify(raw)
      case Skipped => true
      case Section(name) => '\n' !in name
      case Entry(key, value) => '\n' !in key && '\n' !in value
  {
    hide Trim;
    var line := Trim(raw, WHITE);
    TrimKeepsChars(raw, WHITE);
    var i := Find(line, '=');
    if i < |line| {
      TrimKeepsChars(line[..i], BLANK);
      TrimKeepsChars(line[i + 1..], BLANK);
    }
  }

  lemma TrimKeepsChars(s: string, chars: set<char>)
    ensures forall c :: c in Trim(s, chars) ==> c in s
  {
    var left, right := TrimMeaning(s, chars);
  }

  lemma {:induction false} ReadLinesPlain(r: Reader, lines: seq<string>)
    requires forall line :: line in lines ==> '\n' !in line
    requires '\n' !in r.prefix && PlainEntries(r.entries)
    ensures PlainEntries(ReadLines(r, lines).entries)
    decreases |lines|
  {
    if lines != [] {
      ClassifyOneLine(lines[0]);
      ReadLinesPlain(FlushLine(r, lines[0]), lines[1..]);
    }
  }

  function EntryLines(lines: seq<string>): nat {
    if lines == [] then 0 else (if Classify(lines[0]).Entry? then 1 else 0) + EntryLines(lines[1..])
  }

  /** A line adds at most one entry, and only an entry line does. */
  lemma {:induction false} EntriesAreCounted(r: Reader, lines: seq<string>)
    ensures |ReadLines(r, lines).entries| <= |r.entries| + EntryLines(lines)
    decreases |lines|
  {
    if lines != [] {
      var next := FlushLine(r, lines[0]);
      EntriesAreCounted(next, lines[1..]);
      assert |next.entries| <= |r.entries| + (if Classify(lines[0]).Entry? then 1 else 0) by {
        match Classify(lines[0]) {
          case Entry(key, value) =>
            var k := r.prefix + key;
            assert next.entries.Keys == r.entries.Keys + {k};
            if k !in r.entries { assert |next.entries.Keys| == |r.entries.Keys| + 1; }
            else { assert next.entries.Keys == r.entries.Keys; }
          case _ =>
        }
      }
    }
  }

  lemma {:induction false} AtMostAllLines(lines: seq<string>)
    ensures EntryLines(lines) <= |lines|
    ensures EntryLines(lines) == |lines| ==> forall line :: line in lines ==> Classify(line).Entry?
  {
    if lines != [] { AtMostAllLines(lines[1..]); }
  }

  lemma {:induction false} OrderLength(order: seq<string>, keys: set<string>)
    requires (forall i, j :: 0 <= i < j < |order| ==> order[i] != order[j]) && forall k :: k in order <==> k in keys
    ensures |order| == |keys|
  {
    if order != [] {
      var rest := keys - {order[0]};
      assert forall k :: k in order[1..] <==> k in rest;
      OrderLength(order[1..], rest);
    }
  }

  /** Entries of one line each print as one line each, with an empty piece at the end. */
  lemma {:induction false} PlainPrint(m: Entries, order: seq<string>)
    requires PlainEntries(m) && forall k :: k in order ==> k in m
    ensures |Lines(Print(m, order))| == |order| + 1 && Lines(Print(m, order))[|order|] == ""
  {
    if order == [] {
      OneLine("");
    } else {
      var k := order[0];
      var line := CString(k) + "=" + CString(m[k]);
      assert Print(m, order) == line + "\n" + Print(m, order[1..]);
      LinesAfter(line, Print(m, order[1..]));
      PlainPrint(m, order[1..]);
    }
  }

  lemma {:induction false} EntryLinesLast(lines: seq<string>, last: string)
    ensures EntryLines(lines + [last]) == EntryLines(lines) + if Classify(last).Entry? then 1 else 0
  {
    if lines == [] {
      assert EntryLines([last]) == (if Classify(last).Entry? then 1 else 0) + EntryLines([last][1..]);
      assert [] + [last] == [last];
    } else {
      assert (lines + [last])[1..] == lines[1..] + [last];
      EntryLinesLast(lines[1..], last);
    }
  }

  /** If a map comes back as it was, no line of the file it was printed to is a section line. */
  lemma ReloadsWithoutSections(m: Entries, order: seq<string>)
    requires IsOrder(order, m) && Reload(m, order) == m
    ensures forall line :: line in Lines(Print(m, order)) ==> !Classify(line).Section?
  {
    hide KeyOk, CString, Trim, SplitKeyValue, PrintLine, TrimmedValue;
    var lines := Lines(Print(m, order));
    LinesHaveNoNewline(Print(m, order));
    ReadLinesPlain(Reader("", map[]), lines);
    PlainPrint(m, order);
    var front := lines[..|order|];
    assert lines == front + [""];
    EntryLinesLast(front, "");
    EmptyLine(Reader("", map[]));
    EntriesAreCounted(Reader("", map[]), lines);
    OrderLength(order, m.Keys);
    AtMostAllLines(front);
  }

  /** The domain of the file format: a map survives a save and a load, in whatever order it is printed, exactly when
    every key and every value is in it. */
  lemma SurvivesExactlyInDomain(m: Entries, order: seq<string>)
    requires IsOrder(order, m)
    ensures Reload(m, order) == m <==> InDomain(m)
  {
    if InDomain(m) {
      DomainReloads(m, order);
    }
    if Reload(m, order) == m {
      ReloadsWithoutSections(m, order);
      PrintHasNoNul(m, order);
      LinesHaveNoNewline(Print(m, order));
      WithoutSections(Reader("", map[]), Lines(Print(m, order)));
    }
  }

  /** Saving what was read from a text and reading it again changes nothing, exactly when no entry stands in a
    section. */
  lemma SavingNormalises(text: string, order: seq<string>)
    requires '\0' !in text && IsOrder(order, Parse(text))
    ensures Reload(Parse(text), order) == Parse(text) <==> forall k :: k in Parse(text) ==> !StartsWith(k, '[')
  {
    ParseFine(text);
    SurvivesExactlyInDomain(Parse(text), order);
  }

  /** So it is for every text without section lines. */
  lemma SavingNormalisesPlainTexts(text: string, order: seq<string>)
    requires '\0' !in text && IsOrder(order, Parse(text))
    requires forall line :: line in Lines(text) ==> !Classify(line).Section?
    ensures Reload(Parse(text), order) == Parse(text)
  {
    LinesHaveNoNewline(text);
    WithoutSections(Reader("", map[]), Lines(text));
    DomainReloads(Parse(text), order);
  }

  // ---------------------------------------------------------------------------------------------
  // The file handle

  datatype Error = NoError | NotFound | BufferOverflow

  lemma {:induction false} PrintAppend(m: Entries, order: seq<string>, key: string)
    requires key in m && forall k :: k in order ==> k in m
    ensures Print(m, order + [key]) == Print(m, order) + PrintLine(key, m[key])
  {
    if order == [] {
      assert Print(m, [key]) == PrintLine(key, m[key]) + Print(m, [key][1..]);
      assert [] + [key] == [key];
    } else {
      assert (order + [key])[1..] == order[1..] + [key];
      PrintAppend(m, order[1..], key);
    }
  }

  /** At a line end the reader takes in the line. */
  lemma AtLineEnd(r: Reader, raw: string, chars: string, i: nat)
    requires i < |chars| && chars[i] == '\n' && '\n' !in raw
    ensures ReadLines(r, Lines(raw + chars[i..])) == ReadLines(FlushLine(r, raw), Lines("" + chars[i + 1..]))
  {
    assert raw + chars[i..] == raw + "\n" + chars[i + 1..];
    assert "" + chars[i + 1..] == chars[i + 1..];
    LinesAfter(raw, chars[i + 1..]);
    ReadsFirst(r, raw, Lines(chars[i + 1..]));
  }

  lemma AtEnd(r: Reader, raw: string)
    requires '\n' !in raw
    ensures ReadLines(r, Lines(raw)) == FlushLine(r, raw)
  {
    OneLine(raw);
    ReadsFirst(r, raw, []);
  }

  class Store {
    var entries: Entries

    constructor ()
      ensures entries == map[]
    {
      entries := map[];
    }

    /** Takes in one line; the result is the section prefix from here on. */
    method TakeLine(raw: string, prefix: string) returns (next: string)
      modifies this
      ensures Reader(next, entries) == FlushLine(Reader(prefix, old(entries)), raw)
    {
      next := prefix;
      var line := Trim(raw, WHITE);
      if line == "" || line[0] == '#' { return; }
      if line[0] == '[' {
        next := line;
        return;
      }
      match SplitKeyValue(line) {
        case None =>
        case Some((key, value)) => entries := entries[prefix + Trim(key, BLANK) := Trim(value, BLANK)];
      }
    }

    /** load_from_file: `text` is absent if the file does not exist. */
    method Load(text: Option<string>)
      modifies this
      ensures text.None? ==> entries == old(entries)
      ensures text.Some? ==> entries == ReadLines(Reader("", old(entries)), Lines(text.value)).entries
    {
      hide ReadLines, Lines, FlushLine;
      if text.None? { return; }
      var chars := text.value;
      var prefix, raw := "", "";
      ghost var all := ReadLines(Reader("", entries), Lines(chars));
      assert raw + chars[0..] == chars;
      for i := 0 to |chars|
        invariant '\n' !in raw
        invariant ReadLines(Reader(prefix, entries), Lines(raw + chars[i..])) == all
      {
        if chars[i] == '\n' {
          AtLineEnd(Reader(prefix, entries), raw, chars, i);
          prefix := TakeLine(raw, prefix);
          raw := "";
        } else {
          assert raw + chars[i..] == raw + [chars[i]] + chars[i + 1..];
          raw := raw + [chars[i]];
        }
      }
      assert raw + chars[|chars|..] == raw;
      AtEnd(Reader(prefix, entries), raw);
      prefix := TakeLine(raw, prefix);
    }

    /** The text that save_to_file writes, and the order in which the map happened to be walked. */
    method Save() returns (text: string, ghost order: seq<string>)
      ensures IsOrder(order, entries) && text == Print(entries, order)
    {
      text, order := "", [];
      var rest := entries.Keys;
      while rest != {}
        invariant rest <= entries.Keys
        invariant forall k :: k in order <==> k in entries && k !in rest
        invariant forall i, j :: 0 <= i < j < |order| ==> order[i] != order[j]
        invariant text == Print(entries, order)
        decreases |rest|
      {
        var key :| key in rest;
        text := text + CString(key) + "=" + CString(entries[key]) + "\n";
        PrintAppend(entries, order, key);
        order := order + [key];
        rest := rest - {key};
      }
    }

    predicate Has(key: string)
      reads this
    {
      CString(key) in entries
    }

    /** The value with its terminator, if the buffer has room for both. On an error the buffer is as it was. */
    method Get(key: string, out: array<char>) returns (error: Error)
      modifies out
      ensures error == (if !Has(key) then NotFound
                        else if |entries[CString(key)]| + 1 > out.Length then BufferOverflow else NoError)
      ensures error == NoError ==>
        (var v := entries[CString(key)];
          out[..|v|] == v && out[|v|] == '\0' && out[|v| + 1..] == old(out[..])[|v| + 1..])
      ensures error != NoError ==> out[..] == old(out[..])
    {
      var name := CString(key);
      if name !in entries { return NotFound; }
      var value := entries[name];
      if |value| + 1 > out.Length { return BufferOverflow; }
      forall i | 0 <= i <= |value| {
        out[i] := if i < |value| then value[i] else '\0';
      }
      return NoError;
    }

    method Set(key: string, value: string)
      modifies this
      ensures entries == old(entries)[CString(key) := CString(value)]
    {
      entries := entries[CString(key) := CString(value)];
    }
  }

  lemma ReadsFirst(r: Reader, line: string, rest: seq<string>)
    ensures ReadLines(r, [line] + rest) == ReadLines(FlushLine(r, line), rest)
  {
    assert ([line] + rest)[1..] == rest;
  }
}
