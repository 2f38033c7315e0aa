/** Typed settings on top of a properties file: preferences.cpp.

  Every value is stored as a string with a tag in front: "b:1", "i32:42", "i64:42", "s:escaped text". Characters stand
  for bytes; strings that cross the C interface have no NUL.
*/
module Preferences {
  import opened Wrappers
  import P = PropertiesFile

  type CStr = s: string | '\0' !in s witness ""
  type Int32 = v: int | -0x8000_0000 <= v <= 0x7FFF_FFFF
  type Int64 = v: int | INT64_MIN <= v <= INT64_MAX

  const INT64_MIN: int := -0x8000_0000_0000_0000
  const INT64_MAX: int := 0x7FFF_FFFF_FFFF_FFFF

  // ---------------------------------------------------------------------------------------------
  // escape and unescape

  function EscapedChar(c: char): string {
    if c == '\\' then "\\\\" else if c == '\n' then "\\n" else [c]
  }

  function Escaped(s: string): string {
    if s == "" then "" else Escaped(s[..|s| - 1]) + EscapedChar(s[|s| - 1])
  }

  /** Each character is escaped by itself: a backslash is doubled, a line end becomes a backslash and an n, and every
    other character stays. */
  lemma {:induction false} EscapedMeaning(a: string, b: string)
    ensures Escaped(a + b) == Escaped(a) + Escaped(b)
    ensures |a| == 1 ==> Escaped(a) == if a == "\\" then "\\\\" else if a == "\n" then "\\n" else a
    decreases |b|
  {
    assert |a| == 1 ==> a[..0] == "" && a == [a[0]];
    hide EscapedChar;
    if b == "" {
      assert a + b == a;
    } else {
      var front, last := b[..|b| - 1], EscapedChar(b[|b| - 1]);
      assert (a + b)[..|a + b| - 1] == a + front;
      EscapedMeaning(a, front);
      Associates(Escaped(a), Escaped(front), last);
    }
  }

  method Escape(value: string) returns (result: string)
    ensures result == Escaped(value)
  {
    result := "";
    for i := 0 to |value|
      invariant result == Escaped(value[..i])
    {
      assert value[..i + 1][..i] == value[..i];
      if value[i] == '\\' {
        result := result + "\\\\";
      } else if value[i] == '\n' {
        result := result + "\\n";
      } else {
        result := result + [value[i]];
      }
    }
    assert value[..|value|] == value;
  }

  function Unescaped(s: string): string {
    if s == "" then ""
    else if s[0] == '\\' && |s| > 1 then [if s[1] == 'n' then '\n' else s[1]] + Unescaped(s[2..])
    else [s[0]] + Unescaped(s[1..])
  }

  method Unescape(value: string) returns (result: string)
    ensures result == Unescaped(value)
  {
    hide Unescaped;
    result := "";
    var i := 0;
    assert value[0..] == value;
    while i < |value|
      invariant 0 <= i <= |value|
      invariant result + Unescaped(value[i..]) == Unescaped(value)
    {
      UnescapedStep(value, i, result);
      if value[i] == '\\' && i + 1 < |value| {
        i := i + 1;
        result := result + [if value[i] == 'n' then '\n' else value[i]];
      } else {
        result := result + [value[i]];
      }
      i := i + 1;
    }
    UnescapedEnd(value);
  }

  lemma UnescapedEnd(value: string)
    ensures Unescaped(value[|value|..]) == ""
  {
  }

  lemma UnescapedStep(value: string, i: nat, done: string)
    requires i < |value|
    ensures done + Unescaped(value[i..]) ==
      if value[i] == '\\' && i + 1 < |value|
      then done + [if value[i + 1] == 'n' then '\n' else value[i + 1]] + Unescaped(value[i + 2..])
      else done + [value[i]] + Unescaped(value[i + 1..])
  {
    var rest := value[i..];
    assert rest[1..] == value[i + 1..];
    if value[i] == '\\' && i + 1 < |value| { assert rest[2..] == value[i + 2..]; }
  }

  lemma {:induction false} EscapedFirst(s: string)
    requires s != ""
    ensures Escaped(s) == EscapedChar(s[0]) + Escaped(s[1..])
  {
    hide EscapedChar;
    if |s| == 1 {
      assert s[..0] == "" && s[1..] == "";
    } else {
      var front, tail, last := s[..|s| - 1], s[1..], EscapedChar(s[|s| - 1]);
      EscapedFirst(front);
      assert front[1..] == tail[..|tail| - 1];
      Associates(EscapedChar(s[0]), Escaped(front[1..]), last);
    }
  }

  lemma Associates(a: string, b: string, c: string)
    ensures a + b + c == a + (b + c)
  {
  }

  lemma UnescapedChar(c: char, rest: string)
    ensures Unescaped(EscapedChar(c) + rest) == [c] + Unescaped(rest)
  {
    var e := EscapedChar(c);
    assert (e + rest)[|e|..] == rest;
  }

  /** Escaping loses nothing. */
  lemma {:induction false} UnescapeEscape(s: string)
    ensures Unescaped(Escaped(s)) == s
  {
    if s != "" {
      EscapedFirst(s);
      hide Unescaped, Escaped, EscapedChar;
      UnescapeEscape(s[1..]);
      UnescapedChar(s[0], Escaped(s[1..]));
    }
  }

  /** Escaped text is one line. */
  lemma {:induction false} EscapedIsOneLine(s: string)
    requires '\0' !in s
    ensures P.OneLineValue(Escaped(s))
  {
    if s != "" { EscapedIsOneLine(s[..|s| - 1]); }
  }

  const TRIMMED: set<char> := {' ', '\t', '\r'}

  /** Escaping does not touch the characters that trimming takes off. */
  lemma {:induction false} EscapedTrims(s: string)
    ensures P.TrimRight(Escaped(s), P.WHITE) == Escaped(P.TrimRight(s, TRIMMED))
  {
    if s != "" {
      var c, front := s[|s| - 1], s[..|s| - 1];
      var e := EscapedChar(c);
      assert Escaped(s) == Escaped(front) + e && Escaped(s)[|Escaped(s)| - 1] == e[|e| - 1];
      assert e[|e| - 1] in P.WHITE <==> c in TRIMMED;
      if c in TRIMMED {
        assert e == [c];
        EscapedTrims(front);
        assert Escaped(s)[..|Escaped(s)| - 1] == Escaped(front);
      }
    }
  }

  // ---------------------------------------------------------------------------------------------
  // Numbers: what "%d" prints and what strtol reads

  predicate IsDigit(c: char) {
    '0' <= c <= '9'
  }

  function DigitChar(d: nat): (c: char)
    requires d < 10
    ensures IsDigit(c) && c as int - '0' as int == d
  {
    ('0' as int + d) as char
  }

  function PrintNat(n: nat): (s: string)
    ensures s != "" && forall c :: c in s ==> IsDigit(c)
  {
    if n < 10 then [DigitChar(n)] else PrintNat(n / 10) + [DigitChar(n % 10)]
  }

  function PrintInt(v: int): (s: string)
    ensures s != "" && IsDigit(s[|s| - 1]) && forall c :: c in s ==> IsDigit(c) || c == '-'
  {
    if v < 0 then "-" + PrintNat(-v) else PrintNat(v)
  }

  function ReadNat(digits: string): nat
    requires forall c :: c in digits ==> IsDigit(c)
  {
    if digits == "" then 0
    else
      var last := digits[|digits| - 1];
      assert IsDigit(last);
      10 * ReadNat(digits[..|digits| - 1]) + (last as int - '0' as int)
  }

  lemma {:induction false} ReadPrintNat(n: nat)
    ensures ReadNat(PrintNat(n)) == n
  {
    if n < 10 {
      assert PrintNat(n)[..0] == "";
    } else {
      ReadPrintNat(n / 10);
      assert PrintNat(n)[..|PrintNat(n)| - 1] == PrintNat(n / 10);
    }
  }

  /** Leading digits. */
  function DigitRun(s: string): (n: nat)
    ensures n <= |s| && (forall c :: c in s[..n] ==> IsDigit(c)) && (n < |s| ==> !IsDigit(s[n]))
  {
    if s == "" || !IsDigit(s[0]) then 0
    else
      var n := 1 + DigitRun(s[1..]);
      assert s[..n] == [s[0]] + s[1..][..n - 1];
      n
  }

  const SPACES: set<char> := {' ', '\t', '\n', 11 as char, 12 as char, '\r'}

  function Sign(t: string): (sign: string)
    ensures sign <= t && sign in {"", "-", "+"}
  {
    if t != "" && (t[0] == '-' || t[0] == '+') then [t[0]] else ""
  }

  function Signed(sign: string, n: nat): int {
    if sign == "-" then 0 - n else n
  }

  datatype Parsed = Parsed(value: int, outOfRange: bool, end: nat)

  /** strtol or strtoll in base 10, for a type that holds `lo` to `hi`. */
  function Strtol(s: string, lo: int, hi: int): Parsed
    requires lo <= 0 <= hi
  {
    var t := P.TrimLeft(s, SPACES);
    var u := t[|Sign(t)|..];
    var n := DigitRun(u);
    if n == 0 then Parsed(0, false, 0)
    else
      var v := Signed(Sign(t), ReadNat(u[..n]));
      Parsed(if v < lo then lo else if v > hi then hi else v, v < lo || v > hi, |s| - |u| + n)
  }

  /** parse_int32 and parse_int64: `lo` to `hi` is the range of `long` or `long long`, `min` to `max` that of the
      result. */
  function ParseInt(raw: string, lo: int, hi: int, min: int, max: int): Option<int>
    requires lo <= 0 <= hi
  {
    if raw == "" then None
    else
      var p := Strtol(raw, lo, hi);
      if p.outOfRange || p.end != |raw| || p.value < min || p.value > max then None else Some(p.value)
  }

  lemma AllDigits(s: string)
    requires forall c :: c in s ==> IsDigit(c)
    ensures DigitRun(s) == |s|
  {
  }

  lemma SignOfPrinted(v: int)
    ensures P.TrimLeft(PrintInt(v), SPACES) == PrintInt(v)
    ensures var sign, digits := (if v < 0 then "-" else ""), PrintNat(if v < 0 then -v else v);
      PrintInt(v) == sign + digits && Sign(PrintInt(v)) == sign && PrintInt(v)[|sign|..] == digits
  {
    hide PrintNat;
    var digits := PrintNat(if v < 0 then -v else v);
    assert digits[0] in digits;
  }

  /** A printed number is read as that number, whatever the width of `long`, as long as it holds the number. */
  lemma ParsePrintInt(v: int, lo: int, hi: int, min: int, max: int)
    requires lo <= 0 <= hi && lo <= v <= hi && min <= v <= max
    ensures ParseInt(PrintInt(v), lo, hi, min, max) == Some(v)
  {
    hide PrintNat, PrintInt, Sign, DigitRun, ReadNat;
    var n := if v < 0 then -v else v;
    var digits := PrintNat(n);
    ReadPrintNat(n);
    AllDigits(digits);
    SignOfPrinted(v);
    assert digits[..|digits|] == digits;
  }

  /** What is accepted is a number, possibly behind white space and a sign, with nothing behind it. */
  lemma ParsedIsANumber(raw: string, lo: int, hi: int, min: int, max: int)
    requires lo <= 0 <= hi && ParseInt(raw, lo, hi, min, max).Some?
    ensures min <= ParseInt(raw, lo, hi, min, max).value <= max
    ensures exists space, sign, digits ::
      IsNumeral(raw, space, sign, digits) && ParseInt(raw, lo, hi, min, max).value == Signed(sign, ReadNat(digits))
  {
    hide ReadNat, Sign, DigitRun, P.TrimLeft;
    var space := P.TrimLeftMeaning(raw, SPACES);
    var t := P.TrimLeft(raw, SPACES);
    var digits := t[|Sign(t)|..];
    assert digits[..|digits|] == digits;
    assert IsNumeral(raw, space, Sign(t), digits);
  }

  ghost predicate IsNumeral(raw: string, space: string, sign: string, digits: string) {
    raw == space + sign + digits && sign in {"", "-", "+"} &&
    (forall c :: c in space ==> c == ' ' || 9 <= c as int <= 13) &&
    digits != "" && forall c :: c in digits ==> IsDigit(c)
  }

  function Pow10(n: nat): nat {
    if n == 0 then 1 else 10 * Pow10(n - 1)
  }

  lemma {:induction false} PrintNatLength(n: nat, digits: nat)
    requires digits > 0 && n < Pow10(digits)
    ensures |PrintNat(n)| <= digits
    decreases n
  {
    if n >= 10 {
      assert digits > 1 by { assert Pow10(1) == 10 * Pow10(0); }
      PrintNatLength(n / 10, digits - 1);
    }
  }

  /** Texts are decimal, the most significant digit first, and printed ones have no zeros in front. */
  lemma {:induction false} MostSignificantFirst(digits: string)
    requires digits != "" && forall c :: c in digits ==> IsDigit(c)
    ensures ReadNat(digits) == (digits[0] as int - '0' as int) * Pow10(|digits| - 1) + ReadNat(digits[1..])
  {
    var n, last := |digits|, digits[|digits| - 1];
    var front := digits[..n - 1];
    if n == 1 {
      assert digits[1..] == "" && front == "";
      assert IsDigit(digits[0]);
    } else {
      assert digits[1..][..n - 2] == front[1..];
      MostSignificantFirst(front);
      assert Pow10(n - 1) == 10 * Pow10(n - 2);
      TenTimes(digits[0] as int - '0' as int, Pow10(n - 2));
    }
  }

  lemma TenTimes(d: int, p: int)
    ensures 10 * (d * p) == d * (10 * p)
  {
  }

  lemma {:induction false} NoZerosInFront(n: nat)
    ensures PrintNat(n)[0] == '0' <==> n == 0
  {
    if n >= 10 {
      NoZerosInFront(n / 10);
      assert PrintNat(n)[0] == PrintNat(n / 10)[0];
    }
  }

  lemma {:induction false} SkipsSpaces(space: string, rest: string)
    requires P.Within(space, SPACES) && rest != "" && rest[0] !in SPACES
    ensures P.TrimLeft(space + rest, SPACES) == rest
  {
    if space == "" {
      assert space + rest == rest;
    } else {
      assert space[0] in space && (space + rest)[1..] == space[1..] + rest;
      assert forall c :: c in space[1..] ==> c in space;
      SkipsSpaces(space[1..], rest);
    }
  }

  lemma NumeralParts(raw: string, space: string, sign: string, digits: string)
    requires IsNumeral(raw, space, sign, digits)
    ensures P.TrimLeft(raw, SPACES) == sign + digits && Sign(sign + digits) == sign
    ensures (sign + digits)[|sign|..] == digits && DigitRun(digits) == |digits|
  {
    hide P.TrimLeft, DigitRun;
    AllDigits(digits);
    SpacesAre();
    assert digits[0] in digits;
    var rest := sign + digits;
    assert rest[0] == if sign == "" then digits[0] else sign[0];
    assert rest[|sign|..] == digits;
    hide IsDigit;
    assert P.Within(space, SPACES);
    assert raw == space + rest;
    SkipsSpaces(space, rest);
  }

  lemma SpacesAre()
    ensures forall c: char :: c in SPACES <==> c == ' ' || 9 <= c as int <= 13
  {
  }

  ghost predicate Numeral(raw: string, v: int) {
    exists space, sign, digits :: IsNumeral(raw, space, sign, digits) && v == Signed(sign, ReadNat(digits))
  }

  /** A text is accepted as a number exactly if it is one within both ranges, possibly behind white space and a sign. */
  lemma ParsesExactly(raw: string, lo: int, hi: int, min: int, max: int, v: int)
    requires lo <= 0 <= hi
    ensures ParseInt(raw, lo, hi, min, max) == Some(v) <==> lo <= v <= hi && min <= v <= max && Numeral(raw, v)
  {
    if ParseInt(raw, lo, hi, min, max) == Some(v) { ParsedIsANumber(raw, lo, hi, min, max); }
    if lo <= v <= hi && min <= v <= max && Numeral(raw, v) { NumeralParses(raw, lo, hi, min, max, v); }
  }

  lemma NumeralParses(raw: string, lo: int, hi: int, min: int, max: int, v: int)
    requires lo <= 0 <= hi && lo <= v <= hi && min <= v <= max && Numeral(raw, v)
    ensures ParseInt(raw, lo, hi, min, max) == Some(v)
  {
    var space, sign, digits :| IsNumeral(raw, space, sign, digits) && v == Signed(sign, ReadNat(digits));
    assert digits[..|digits|] == digits;
    hide ReadNat, Sign, DigitRun, P.TrimLeft;
    NumeralParts(raw, space, sign, digits);
  }

  // ---------------------------------------------------------------------------------------------
  // Settings

  datatype Setting = Bool(b: bool) | I32(i: Int32) | I64(l: Int64) | Text(s: CStr)

  datatype Kind = BoolKind | I32Kind | I64Kind | TextKind

  function KindOf(v: Setting): Kind {
    match v
    case Bool(_) => BoolKind
    case I32(_) => I32Kind
    case I64(_) => I64Kind
    case Text(_) => TextKind
  }

  function Tag(k: Kind): string {
    match k
    case BoolKind => "b"
    case I32Kind => "i32"
    case I64Kind => "i64"
    case TextKind => "s"
  }

  function Payload(v: Setting): string {
    match v
    case Bool(b) => if b then "1" else "0"
    case I32(i) => PrintInt(i)
    case I64(l) => PrintInt(l)
    case Text(s) => Escaped(s)
  }

  /** The string that a put stores. */
  function Stored(v: Setting): string {
    Tag(KindOf(v)) + ":" + Payload(v)
  }

  function SplitTag(tagged: string): Option<(string, string)> {
    var colon := P.Find(tagged, ':');
    if colon == |tagged| then None else Some((tagged[..colon], tagged[colon + 1..]))
  }

  /** The range of `long`, which is at least that of int32_t. */
  datatype Long = Long(lo: int, hi: int)

  predicate IsLong(long: Long) {
    long.lo <= -0x8000_0000 && long.hi >= 0x7FFF_FFFF
  }

  function ParsePayload(kind: Kind, raw: string, long: Long): Option<Setting>
    requires IsLong(long)
  {
    match kind
    case BoolKind => if raw == "0" then Some(Bool(false)) else if raw == "1" then Some(Bool(true)) else None
    case I32Kind =>
      (var r := ParseInt(raw, long.lo, long.hi, -0x8000_0000, 0x7FFF_FFFF);
       if r.None? then None else Some(I32(r.value)))
    case I64Kind =>
      (var r := ParseInt(raw, INT64_MIN, INT64_MAX, INT64_MIN, INT64_MAX);
       if r.None? then None else Some(I64(r.value)))
    case TextKind => Some(Text(P.CString(Unescaped(raw))))
  }

  /** What try_get_tagged finds. */
  function Tagged(m: P.Entries, key: CStr): Option<(string, string)> {
    if key !in m then None else SplitTag(P.CString(m[key]))
  }

  /** The value that a key has under a type. */
  function Read(m: P.Entries, key: CStr, kind: Kind, long: Long): Option<Setting>
    requires IsLong(long)
  {
    match Tagged(m, key)
    case None => None
    case Some((tag, raw)) => if tag != Tag(kind) then None else ParsePayload(kind, raw, long)
  }

  // ---------------------------------------------------------------------------------------------
  // What a put leaves behind

  lemma SplitStored(v: Setting)
    ensures SplitTag(Stored(v)) == Some((Tag(KindOf(v)), Payload(v)))
  {
    var tag, payload := Tag(KindOf(v)), Payload(v);
    P.FindAfter(tag, ':', payload);
    assert Stored(v) == tag + [':'] + payload;
    assert Stored(v)[..|tag|] == tag && Stored(v)[|tag| + 1..] == payload;
  }

  lemma ParseOwnPayload(v: Setting, long: Long)
    requires IsLong(long)
    ensures ParsePayload(KindOf(v), Payload(v), long) == Some(v)
  {
    hide ParseInt, PrintInt, Escaped, Unescaped;
    match v {
      case Bool(_) =>
      case I32(i) => ParsePrintInt(i, long.lo, long.hi, -0x8000_0000, 0x7FFF_FFFF);
      case I64(l) => ParsePrintInt(l, INT64_MIN, INT64_MAX, INT64_MIN, INT64_MAX);
      case Text(s) =>
        UnescapeEscape(s);
        P.CStringOfPlain(s);
    }
  }

  lemma PayloadOneLine(v: Setting)
    ensures P.OneLineValue(Payload(v)) && P.OneLineValue(Stored(v))
  {
    match v {
      case Text(s) => EscapedIsOneLine(s);
      case _ =>
    }
  }

  /** A stored setting reads as itself under its own type, and as nothing under the others. */
  lemma StoredReads(m: P.Entries, key: CStr, v: Setting, kind: Kind, long: Long)
    requires IsLong(long) && key in m && m[key] == Stored(v)
    ensures Read(m, key, kind, long) == if kind == KindOf(v) then Some(v) else None
  {
    hide ParsePayload, Stored, Payload, SplitTag;
    PayloadOneLine(v);
    P.CStringOfPlain(Stored(v));
    SplitStored(v);
    ParseOwnPayload(v, long);
  }

  lemma SplitExactly(tagged: string, tag: string, raw: string)
    requires ':' !in tag
    ensures SplitTag(tagged) == Some((tag, raw)) <==> tagged == tag + ":" + raw
  {
    if tagged == tag + ":" + raw {
      P.FindAfter(tag, ':', raw);
      assert tagged == tag + [':'] + raw && tagged[..|tag|] == tag && tagged[|tag| + 1..] == raw;
    }
    if SplitTag(tagged) == Some((tag, raw)) {
      var colon := P.Find(tagged, ':');
      assert tagged == tagged[..colon] + [tagged[colon]] + tagged[colon + 1..];
    }
  }

  /** The key is there, and its text is the tag and this. */
  ghost predicate HasText(m: P.Entries, key: CStr, tag: string, raw: string) {
    key in m && P.CString(m[key]) == tag + ":" + raw
  }

  /** The texts that read as a value under each type. */
  ghost predicate Spells(m: P.Entries, key: CStr, v: Setting) {
    match v
    case Bool(b) => HasText(m, key, "b", if b then "1" else "0")
    case I32(i) => exists raw :: HasText(m, key, "i32", raw) && Numeral(raw, i)
    case I64(l) => exists raw :: HasText(m, key, "i64", raw) && Numeral(raw, l)
    case Text(s) => exists raw :: HasText(m, key, "s", raw) && s == P.CString(Unescaped(raw))
  }

  /** A key has a value exactly if its text spells it: a flag as "b:0" or "b:1", a number as any text that is one. */
  lemma ReadsExactly(m: P.Entries, key: CStr, v: Setting, long: Long)
    requires IsLong(long)
    ensures Read(m, key, KindOf(v), long) == Some(v) <==> Spells(m, key, v)
  {
    hide ParseInt, Unescaped, P.CString, SplitTag, Numeral;
    forall tag, raw | ':' !in tag && key in m
      ensures SplitTag(P.CString(m[key])) == Some((tag, raw)) <==> HasText(m, key, tag, raw)
    {
      SplitExactly(P.CString(m[key]), tag, raw);
    }
    var tagged := Tagged(m, key);
    if tagged.Some? && tagged.value.0 == Tag(KindOf(v)) {
      var raw := tagged.value.1;
      assert HasText(m, key, Tag(KindOf(v)), raw);
      forall other | HasText(m, key, Tag(KindOf(v)), other) ensures other == raw {
        assert SplitTag(P.CString(m[key])) == Some((Tag(KindOf(v)), other));
      }
      match v {
        case I32(i) => ParsesExactly(raw, long.lo, long.hi, -0x8000_0000, 0x7FFF_FFFF, i);
        case I64(l) => ParsesExactly(raw, INT64_MIN, INT64_MAX, INT64_MIN, INT64_MAX, l);
        case _ =>
      }
    }
  }

  datatype Put = Put(key: CStr, value: Setting)

  function AfterPuts(m: P.Entries, puts: seq<Put>): P.Entries
    decreases |puts|
  {
    if puts == [] then m else AfterPuts(m, puts[..|puts| - 1])[puts[|puts| - 1].key := Stored(puts[|puts| - 1].value)]
  }

  function LastPut(puts: seq<Put>, key: CStr): Option<Setting>
    decreases |puts|
  {
    if puts == [] then None
    else if puts[|puts| - 1].key == key then Some(puts[|puts| - 1].value)
    else LastPut(puts[..|puts| - 1], key)
  }

  lemma {:induction false} LastPutIsStored(m: P.Entries, puts: seq<Put>, key: CStr)
    requires LastPut(puts, key).Some?
    ensures key in AfterPuts(m, puts) && AfterPuts(m, puts)[key] == Stored(LastPut(puts, key).value)
    decreases |puts|
  {
    if puts[|puts| - 1].key != key { LastPutIsStored(m, puts[..|puts| - 1], key); }
  }

  /** After any puts, each key that was put reads as the last value put there, and under the type of that value only. */
  lemma ReadsLastPut(m: P.Entries, puts: seq<Put>, key: CStr, kind: Kind, long: Long)
    requires IsLong(long) && LastPut(puts, key).Some?
    ensures var v := LastPut(puts, key).value;
      Read(AfterPuts(m, puts), key, kind, long) == if kind == KindOf(v) then Some(v) else None
  {
    LastPutIsStored(m, puts, key);
    StoredReads(AfterPuts(m, puts), key, LastPut(puts, key).value, kind, long);
  }

  // ---------------------------------------------------------------------------------------------
  // What a close and an open leave of it

  /** A text loses its trailing blanks and carriage returns. Everything else stays. */
  function Reloaded(v: Setting): (r: Setting)
    ensures KindOf(r) == KindOf(v)
  {
    match v
    case Text(s) => TrimKeepsCStr(s); Text(P.TrimRight(s, TRIMMED))
    case _ => v
  }

  lemma TrimKeepsCStr(s: CStr)
    ensures '\0' !in P.TrimRight(s, TRIMMED)
  {
    var cut := P.TrimRightMeaning(s, TRIMMED);
  }

  lemma CleanAfterTag(front: string, payload: string)
    requires front != "" && front[0] !in P.BLANK && front[|front| - 1] !in P.WHITE
    ensures P.TrimmedValue(front + payload) == front + P.TrimRight(payload, P.WHITE)
  {
    var init, last := front[..|front| - 1], front[|front| - 1];
    assert front + payload == init + [last] + payload;
    P.TrimRightAfter(init, last, payload, P.WHITE);
    var t := front + P.TrimRight(payload, P.WHITE);
    assert init + [last] + P.TrimRight(payload, P.WHITE) == t;
    var cut := P.TrimRightMeaning(payload, P.WHITE);
    assert P.CleanRight(t, P.WHITE);
    P.TrimClean(t, P.BLANK);
  }

  lemma PayloadTrims(v: Setting)
    ensures P.TrimRight(Payload(v), P.WHITE) == Payload(Reloaded(v))
  {
    match v {
      case Text(s) => EscapedTrims(s);
      case _ =>
    }
  }

  lemma StoredTrims(v: Setting)
    ensures P.TrimmedValue(Stored(v)) == Stored(Reloaded(v))
  {
    hide Payload, Reloaded;
    CleanAfterTag(Tag(KindOf(v)) + ":", Payload(v));
    PayloadTrims(v);
  }

  predicate CanBeSaved(m: P.Entries) {
    forall k :: k in m ==> P.KeyOk(k) && P.OneLineValue(m[k])
  }

  lemma {:induction false} PutsCanBeSaved(m: P.Entries, puts: seq<Put>)
    requires CanBeSaved(m) && forall p :: p in puts ==> P.KeyOk(p.key)
    ensures CanBeSaved(AfterPuts(m, puts))
    decreases |puts|
  {
    hide P.KeyOk, P.OneLineValue, Stored;
    if puts != [] {
      PutsCanBeSaved(m, puts[..|puts| - 1]);
      PayloadOneLine(puts[|puts| - 1].value);
    }
  }

  /** With keys that the file format can hold, each key that was put reads, after a close and an open, as the last value
    put there, less the trailing blanks and carriage returns of a text, and under the type of that value only; in
    whatever order the file was printed. */
  lemma ReadsLastPutAfterReopen(m: P.Entries, puts: seq<Put>, order: seq<string>, key: CStr, kind: Kind, long: Long)
    requires IsLong(long) && LastPut(puts, key).Some? && CanBeSaved(m) && forall p :: p in puts ==> P.KeyOk(p.key)
    requires P.IsOrder(order, AfterPuts(m, puts))
    ensures var v := LastPut(puts, key).value;
      Read(P.Reload(AfterPuts(m, puts), order), key, kind, long) ==
        if kind == KindOf(v) then Some(Reloaded(v)) else None
  {
    hide P.KeyOk, P.OneLineValue, P.Reload, Read, Reloaded;
    var after, v := AfterPuts(m, puts), LastPut(puts, key).value;
    PutsCanBeSaved(m, puts);
    P.ReloadTrimsValues(after, order);
    LastPutIsStored(m, puts, key);
    StoredTrims(v);
    StoredReads(P.Reload(after, order), key, Reloaded(v), kind, long);
  }

  /** So numbers and flags come back, and a text does exactly if it does not end in a blank or carriage return. */
  lemma WhatComesBack(v: Setting)
    ensures Reloaded(v) == v <==> (v.Text? ==> P.CleanRight(v.s, TRIMMED))
  {
    match v {
      case Text(s) => var cut := P.TrimRightMeaning(s, TRIMMED);
      case _ =>
    }
  }

  predicate WithoutSectionLines(text: string) {
    '\0' !in text && forall line :: line in P.Lines(text) ==> !P.Classify(line).Section?
  }

  lemma ParsedInDomain(text: string)
    requires WithoutSectionLines(text)
    ensures P.InDomain(P.Parse(text)) && CanBeSaved(P.Parse(text))
  {
    P.LinesHaveNoNewline(text);
    P.WithoutSections(P.Reader("", map[]), P.Lines(text));
  }

  lemma {:induction false} NotPutStays(m: P.Entries, puts: seq<Put>, key: CStr)
    requires LastPut(puts, key).None?
    ensures (key in AfterPuts(m, puts) <==> key in m) && (key in m ==> AfterPuts(m, puts)[key] == m[key])
    decreases |puts|
  {
    if puts != [] { NotPutStays(m, puts[..|puts| - 1], key); }
  }

  /** A whole session on a settings file without section lines: load, any puts, save in any order, load again. The keys
    that were put read as their last values, less the trailing blanks and carriage returns of texts; every other key
    reads as it did after the first load. */
  lemma SessionKeepsSettings(text: string, puts: seq<Put>, order: seq<string>, key: CStr, kind: Kind, long: Long)
    requires IsLong(long) && WithoutSectionLines(text) && forall p :: p in puts ==> P.KeyOk(p.key)
    requires P.IsOrder(order, AfterPuts(P.Parse(text), puts))
    ensures var reopened := P.Reload(AfterPuts(P.Parse(text), puts), order);
      Read(reopened, key, kind, long) ==
        match LastPut(puts, key)
        case Some(v) => if kind == KindOf(v) then Some(Reloaded(v)) else None
        case None => Read(P.Parse(text), key, kind, long)
  {
    hide P.KeyOk, P.OneLineValue, P.ValueOk, P.Reload, P.Parse, WithoutSectionLines, Reloaded, ParsePayload, SplitTag;
    var m := P.Parse(text);
    ParsedInDomain(text);
    if LastPut(puts, key).Some? {
      ReadsLastPutAfterReopen(m, puts, order, key, kind, long);
    } else {
      PutsCanBeSaved(m, puts);
      P.ReloadTrimsValues(AfterPuts(m, puts), order);
      NotPutStays(m, puts, key);
      if key in m { P.TrimmedValueFixed(m[key]); }
    }
  }

  // ---------------------------------------------------------------------------------------------
  // The handle

  lemma CStringInBuffer(buffer: string, v: string)
    requires |v| < |buffer| && buffer[..|v|] == v && buffer[|v|] == '\0'
    ensures P.CString(buffer) == P.CString(v)
  {
    var i := P.Find(v, '\0');
    assert buffer[..i] == v[..i] && buffer[i] == '\0';
    P.FindAfter(buffer[..i], '\0', buffer[i + 1..]);
    assert buffer == buffer[..i] + ['\0'] + buffer[i + 1..];
  }

  class Preferences {
    const file: P.Store
    const long: Long

    ghost predicate Valid() {
      IsLong(long)
    }

    constructor (file: P.Store, long: Long)
      requires IsLong(long)
      ensures this.file == file && this.long == long && Valid()
    {
      this.file, this.long := file, long;
    }

    /** Doubles the buffer until the value fits. */
    method TryGetTagged(key: CStr) returns (r: Option<(string, string)>)
      ensures r == Tagged(file.entries, key)
    {
      P.CStringOfPlain(key);
      ghost var needed := if key in file.entries then |file.entries[key]| + 1 else 0;
      var buffer := new char[32];
      while true
        invariant fresh(buffer) && buffer.Length > 0
        decreases needed - buffer.Length
      {
        var error := file.Get(key, buffer);
        if error == P.NoError {
          CStringInBuffer(buffer[..], file.entries[key]);
          return SplitTag(P.CString(buffer[..]));
        }
        if error == P.NotFound { return None; }
        buffer := new char[buffer.Length * 2];
      }
    }

    method Opt(key: CStr, kind: Kind) returns (r: Option<Setting>)
      requires Valid() && kind != TextKind
      ensures r == Read(file.entries, key, kind, long)
    {
      var tagged := TryGetTagged(key);
      if tagged.None? || tagged.value.0 != Tag(kind) { return None; }
      r := ParsePayload(kind, tagged.value.1, long);
    }

    method Has(key: CStr, kind: Kind) returns (r: bool)
      requires Valid()
      ensures r == Read(file.entries, key, kind, long).Some?
    {
      var tagged := TryGetTagged(key);
      r := tagged.Some? && tagged.value.0 == Tag(kind) && ParsePayload(kind, tagged.value.1, long).Some?;
    }

    /** The text with its terminator, if the buffer has room for both. On an error the buffer is as it was. */
    method OptString(key: CStr, out: array<char>) returns (error: P.Error)
      requires Valid()
      modifies out
      ensures error == P.NotFound <==> Read(file.entries, key, TextKind, long).None?
      ensures error == P.NoError ==>
        Read(file.entries, key, TextKind, long) == Some(Text(P.CString(out[..]))) && P.Find(out[..], '\0') < out.Length
      ensures error != P.NoError ==> out[..] == old(out[..])
      ensures error == P.BufferOverflow <==>
        Tagged(file.entries, key).Some? && Tagged(file.entries, key).value.0 == "s" &&
        |Unescaped(Tagged(file.entries, key).value.1)| + 1 > out.Length
    {
      var tagged := TryGetTagged(key);
      if tagged.None? || tagged.value.0 != "s" { return P.NotFound; }
      var value := Unescape(tagged.value.1);
      if |value| + 1 > out.Length { return P.BufferOverflow; }
      forall i | 0 <= i <= |value| {
        out[i] := if i < |value| then value[i] else '\0';
      }
      CStringInBuffer(out[..], value);
      assert P.Find(out[..], '\0') < out.Length;
      return P.NoError;
    }

    method PutBool(key: CStr, value: bool)
      modifies file
      ensures file.entries == old(file.entries)[key := if value then "b:1" else "b:0"]
      ensures file.entries == AfterPuts(old(file.entries), [Put(key, Bool(value))])
    {
      Stores(file.entries, key, Bool(value));
      assert (if value then "b:1" else "b:0") == Stored(Bool(value));
      file.Set(key, if value then "b:1" else "b:0");
    }

    /** The number is printed into a buffer of 32 characters, terminator included, where it fits. */
    method PutInt32(key: CStr, value: Int32)
      modifies file
      ensures file.entries == old(file.entries)[key := "i32:" + PrintInt(value)]
      ensures file.entries == AfterPuts(old(file.entries), [Put(key, I32(value))])
    {
      Stores(file.entries, key, I32(value));
      IntsFit(value);
      assert Printed("i32:" + PrintInt(value), 32) == Stored(I32(value));
      file.Set(key, Printed("i32:" + PrintInt(value), 32));
    }

    method PutInt64(key: CStr, value: Int64)
      modifies file
      ensures file.entries == old(file.entries)[key := "i64:" + PrintInt(value)]
      ensures file.entries == AfterPuts(old(file.entries), [Put(key, I64(value))])
    {
      Stores(file.entries, key, I64(value));
      IntsFit(value);
      assert Printed("i64:" + PrintInt(value), 40) == Stored(I64(value));
      file.Set(key, Printed("i64:" + PrintInt(value), 40));
    }

    method PutString(key: CStr, value: CStr)
      modifies file
      ensures file.entries == old(file.entries)[key := "s:" + Escaped(value)]
      ensures file.entries == AfterPuts(old(file.entries), [Put(key, Text(value))])
    {
      Stores(file.entries, key, Text(value));
      var escaped := Escape(value);
      assert "s:" + escaped == Stored(Text(value));
      file.Set(key, "s:" + escaped);
    }
  }

  /** snprintf into a buffer of `size` characters. */
  function Printed(s: string, size: nat): string
    requires size > 0
  {
    if |s| < size then s else s[..size - 1]
  }

  lemma IntsFit(v: Int64)
    ensures |PrintInt(v)| <= 20
  {
    var n: int := if v < 0 then 0 - v else v;
    assert Pow10(19) == 10_000_000_000_000_000_000 by {
      assert Pow10(5) == 100000;
      assert Pow10(10) == 10_000_000_000;
      assert Pow10(15) == 1_000_000_000_000_000;
    }
    PrintNatLength(n, 19);
  }

  lemma Stores(m: P.Entries, key: CStr, v: Setting)
    ensures P.CString(key) == key && P.CString(Stored(v)) == Stored(v)
    ensures m[P.CString(key) := P.CString(Stored(v))] == AfterPuts(m, [Put(key, v)])
  {
    P.CStringOfPlain(key);
    PayloadOneLine(v);
    P.CStringOfPlain(Stored(v));
    assert [Put(key, v)][..0] == [];
  }
}
