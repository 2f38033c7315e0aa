/** The keyboard of the CL-32: cl32_v4_keyboard.cpp.

  The chip answers register reads one after the other, or fails to; the answers are an input. Each key code is a
  number of seven bits.
*/
module Keyboard {
  import opened Wrappers

  type Byte = x: int | 0 <= x < 256

  const MAX_EVENTS_PER_DRAIN: nat := 16
  const PENDING_CAPACITY: nat := 32

  const KEY_FN: nat := 0x65
  const KEY_FILE: nat := 0x76
  const KEY_MENU: nat := 0x74
  const KEY_SHIFT: nat := 0x7F
  const KEY_ARROW_RIGHT: nat := 0x4F
  const KEY_ARROW_LEFT: nat := 0x50
  const KEY_ARROW_DOWN: nat := 0x51
  const KEY_ARROW_UP: nat := 0x52

  // ---------------------------------------------------------------------------------------------
  // Codes to characters

  /** The symbol layer of the letters. The last one has none. */
  const FN_SYMBOLS: seq<nat> := [
    0x7C, 0x3E, 0x7E, 0x2C, 0x40, 0x3F, 0x27, 0x3A, 0x26, 0x3B, 0x7B, 0x7D, 0x5D, 0x5B,
    0x28, 0x29, 0x21, 0xA3, 0x23, 0x24, 0x5E, 0x3C, 0x22, 0x5C, 0x25, 0
  ]

  /** The keys that are the same with and without Fn, as pairs of code and codepoint. */
  function Plain(code: nat): Option<nat> {
    match code
    case 0x28 => Some(10)
    case 0x2B => Some(9)
    case 0x29 => Some(0x1B)
    case 0x2A => Some(8)
    case 0x2C => Some(0x20)
    case 0x2E => Some(0x3D)
    case 0x37 => Some(0x2E)
    case 0x4F => Some(0x2192)
    case 0x50 => Some(0x2190)
    case 0x51 => Some(0x2193)
    case 0x52 => Some(0x2191)
    case 0x77 => Some(0x2713)
    case 0x78 => Some(0x2717)
    case 0x54 => Some(0x2F)
    case 0x55 => Some(0x2A)
    case 0x56 => Some(0x2D)
    case 0x57 => Some(0x2B)
    case 0x58 => Some(10)
    case 0x62 => Some(0x30)
    case 0x63 => Some(0x2E)
    case _ => if 0x59 <= code <= 0x61 then Some(0x31 + (code - 0x59)) else None
  }

  function TranslateKey(code: nat, shift: bool, fn: bool): (r: Option<nat>)
    ensures r.Some? ==> r.value > 0
  {
    if 0x04 <= code <= 0x1D then
      if fn && FN_SYMBOLS[code - 0x04] != 0 then Some(FN_SYMBOLS[code - 0x04])
      else Some(if shift then 0x41 + (code - 0x04) else 0x61 + (code - 0x04))
    else if fn && code == KEY_ARROW_RIGHT then Some(0x21F2)
    else if fn && code == KEY_ARROW_LEFT then Some(0x21F1)
    else if fn && (code == KEY_ARROW_DOWN || code == KEY_ARROW_UP) then None
    else Plain(code)
  }

  lemma SymbolsDiffer(i: nat, j: nat)
    requires i < j < 25
    ensures FN_SYMBOLS[i] != FN_SYMBOLS[j]
  {
  }

  lemma SymbolsAreTheirOwn(i: nat, code: nat)
    requires i < 25
    ensures Plain(code) != Some(FN_SYMBOLS[i]) && !('A' as int <= FN_SYMBOLS[i] <= 'Z' as int)
    ensures 0 < FN_SYMBOLS[i] < 0x21F1 && !('a' as int <= FN_SYMBOLS[i] <= 'z' as int)
  {
  }

  lemma PlainDiffer(a: nat, b: nat)
    requires a < b && Plain(a).Some?
    ensures Plain(a) == Plain(b) <==> (a, b) in {(0x28, 0x58), (0x37, 0x63)}
  {
  }

  predicate IsLetter(code: nat) {
    0x04 <= code <= 0x1D
  }

  /** What a letter stands for: its symbol, or the letter itself. */
  lemma LetterShows(code: nat, shift: bool, fn: bool) returns (c: nat)
    requires IsLetter(code)
    ensures TranslateKey(code, shift, fn) == Some(c)
    ensures if fn && code < 0x1D then c == FN_SYMBOLS[code - 0x04] else c == code + if shift then 0x3D else 0x5D
  {
    if fn && code < 0x1D { SymbolsAreTheirOwn(code - 0x04, 0); }
    c := TranslateKey(code, shift, fn).value;
  }

  lemma LettersDiffer(a: nat, b: nat, shift: bool, fn: bool)
    requires IsLetter(a) && IsLetter(b) && a < b
    ensures TranslateKey(a, shift, fn) != TranslateKey(b, shift, fn)
  {
    hide TranslateKey;
    var c := LetterShows(a, shift, fn);
    var d := LetterShows(b, shift, fn);
    if fn {
      if b < 0x1D { SymbolsDiffer(a - 0x04, b - 0x04); } else { SymbolsAreTheirOwn(a - 0x04, b); }
    }
  }

  lemma LetterDiffers(a: nat, b: nat, shift: bool, fn: bool)
    requires IsLetter(a) && !IsLetter(b)
    ensures TranslateKey(a, shift, fn) != TranslateKey(b, shift, fn)
  {
    if fn && a < 0x1D { SymbolsAreTheirOwn(a - 0x04, b); } else { PlainIsNoLetter(b); }
  }

  lemma PlainIsNoLetter(code: nat)
    ensures Plain(code).Some? ==> !(0x41 <= Plain(code).value <= 0x5A || 0x61 <= Plain(code).value <= 0x7A)
    ensures Plain(code) != Some(0x21F2) && Plain(code) != Some(0x21F1)
  {
  }

  lemma OthersDiffer(a: nat, b: nat, shift: bool, fn: bool)
    requires a < b && !IsLetter(a) && !IsLetter(b) && TranslateKey(a, shift, fn).Some?
    ensures TranslateKey(a, shift, fn) == TranslateKey(b, shift, fn) <==> (a, b) in {(0x28, 0x58), (0x37, 0x63)}
  {
    PlainIsNoLetter(a);
    PlainIsNoLetter(b);
    if Plain(a).Some? { PlainDiffer(a, b); }
    hide Plain;
  }

  /** Under the same modifiers two keys give the same character only if they are the two Enter keys or the two keys with
    a period. */
  lemma KeysDiffer(a: nat, b: nat, shift: bool, fn: bool)
    requires a < b && TranslateKey(a, shift, fn).Some?
    ensures TranslateKey(a, shift, fn) == TranslateKey(b, shift, fn) <==> (a, b) in {(0x28, 0x58), (0x37, 0x63)}
  {
    hide TranslateKey;
    if IsLetter(a) && IsLetter(b) {
      LettersDiffer(a, b, shift, fn);
    } else if IsLetter(a) {
      LetterDiffers(a, b, shift, fn);
    } else if IsLetter(b) {
      LetterDiffers(b, a, shift, fn);
    } else {
      OthersDiffer(a, b, shift, fn);
    }
  }

  /** Shift matters for letters that show no symbol; Fn for the letters but Z, and for the arrows. */
  lemma WhatModifiersChange(code: nat, shift: bool, fn: bool)
    ensures TranslateKey(code, true, fn) != TranslateKey(code, false, fn) <==> IsLetter(code) && !(fn && code != 0x1D)
    ensures TranslateKey(code, shift, true) != TranslateKey(code, shift, false) <==>
      (IsLetter(code) && code != 0x1D) || code in {KEY_ARROW_RIGHT, KEY_ARROW_LEFT, KEY_ARROW_DOWN, KEY_ARROW_UP}
  {
    if IsLetter(code) && code < 0x1D { SymbolsAreTheirOwn(code - 0x04, code); }
  }

  // ---------------------------------------------------------------------------------------------
  // The sticky modifiers, as a fold over key codes

  datatype ToggleState = Unpressed | OnePress | Locked

  function NextToggleState(s: ToggleState): ToggleState {
    match s
    case Unpressed => OnePress
    case OnePress => Locked
    case Locked => Unpressed
  }

  datatype KeyEvent = KeyEvent(key: nat, pressed: bool, hidKeycode: nat, hidModifier: nat)

  datatype Modifiers = Modifiers(shift: ToggleState, fn: ToggleState)

  predicate IsModifier(code: nat) {
    code == KEY_SHIFT || code == KEY_FN
  }

  predicate IsRaw(code: nat) {
    code == KEY_MENU || code == KEY_FILE
  }

  function Released(s: ToggleState): ToggleState {
    if s == OnePress then Unpressed else s
  }

  function AfterKey(m: Modifiers, code: nat): Modifiers {
    if code == KEY_SHIFT then m.(shift := NextToggleState(m.shift))
    else if code == KEY_FN then m.(fn := NextToggleState(m.fn))
    else if IsRaw(code) then m
    else Modifiers(Released(m.shift), Released(m.fn))
  }

  /** The codepoint of a key, or zero. */
  function KeyOf(m: Modifiers, code: nat): nat {
    if IsRaw(code) then 0
    else
      var r := TranslateKey(code, m.shift != Unpressed, m.fn != Unpressed);
      if r.Some? then r.value else 0
  }

  function Pair(m: Modifiers, code: nat): seq<KeyEvent> {
    var modifier := if m.shift != Unpressed then 0x02 else 0x00;
    [KeyEvent(KeyOf(m, code), true, code, modifier), KeyEvent(KeyOf(m, code), false, code, modifier)]
  }

  function EventsOf(m: Modifiers, code: nat): seq<KeyEvent> {
    if IsModifier(code) then [] else Pair(m, code)
  }

  function AfterKeys(m: Modifiers, codes: seq<nat>): Modifiers {
    if codes == [] then m else AfterKey(AfterKeys(m, codes[..|codes| - 1]), codes[|codes| - 1])
  }

  /** Everything that a sequence of key presses makes the keyboard report. */
  function Report(m: Modifiers, codes: seq<nat>): seq<KeyEvent> {
    if codes == [] then []
    else Report(m, codes[..|codes| - 1]) + EventsOf(AfterKeys(m, codes[..|codes| - 1]), codes[|codes| - 1])
  }

  /** A press and the release of the same key. */
  predicate Matching(a: KeyEvent, b: KeyEvent) {
    a.pressed && !b.pressed && b == a.(pressed := false)
  }

  function Keys(codes: seq<nat>): nat {
    if codes == [] then 0 else Keys(codes[..|codes| - 1]) + if IsModifier(codes[|codes| - 1]) then 0 else 1
  }

  /** Every key but the modifiers is reported once, by a press and its release. */
  lemma {:induction false} ReportsPairs(m: Modifiers, codes: seq<nat>)
    ensures |Report(m, codes)| == 2 * Keys(codes)
    ensures forall k :: 0 <= k < Keys(codes) ==> Matching(Report(m, codes)[2 * k], Report(m, codes)[2 * k + 1])
  {
    if codes != [] {
      ReportsPairs(m, codes[..|codes| - 1]);
    }
  }

  lemma {:induction false} AfterKeysMore(m: Modifiers, a: seq<nat>, b: seq<nat>)
    ensures AfterKeys(m, a + b) == AfterKeys(AfterKeys(m, a), b)
    decreases |b|
  {
    if b == [] {
      assert a + b == a;
    } else {
      assert (a + b)[..|a + b| - 1] == a + b[..|b| - 1];
      AfterKeysMore(m, a, b[..|b| - 1]);
    }
  }

  predicate Ordinary(code: nat) {
    !IsModifier(code) && !IsRaw(code)
  }

  predicate HasOrdinary(codes: seq<nat>) {
    exists c :: c in codes && Ordinary(c)
  }

  /** Without another press of Shift, a locked Shift stays, and one that was pressed once lasts until the first key that
    is neither a modifier nor Menu nor File. */
  lemma {:induction false} ShiftLasts(m: Modifiers, codes: seq<nat>)
    requires KEY_SHIFT !in codes
    ensures AfterKeys(m, codes).shift ==
      if m.shift == OnePress && HasOrdinary(codes) then Unpressed else m.shift
  {
    if codes != [] {
      var front, last := codes[..|codes| - 1], codes[|codes| - 1];
      ShiftLasts(m, front);
      assert codes == front + [last];
      assert HasOrdinary(codes) <==> HasOrdinary(front) || Ordinary(last);
    }
  }

  lemma {:induction false} FnLasts(m: Modifiers, codes: seq<nat>)
    requires KEY_FN !in codes
    ensures AfterKeys(m, codes).fn ==
      if m.fn == OnePress && HasOrdinary(codes) then Unpressed else m.fn
  {
    if codes != [] {
      var front, last := codes[..|codes| - 1], codes[|codes| - 1];
      FnLasts(m, front);
      assert codes == front + [last];
      assert HasOrdinary(codes) <==> HasOrdinary(front) || Ordinary(last);
    }
  }

  /** Pressing Shift three times in a row changes nothing, whatever Fn is. */
  lemma ThreeShiftsCancel(m: Modifiers)
    ensures AfterKeys(m, [KEY_SHIFT, KEY_SHIFT, KEY_SHIFT]) == m
  {
    AfterKeysMore(m, [KEY_SHIFT], [KEY_SHIFT, KEY_SHIFT]);
    AfterKeysMore(AfterKey(m, KEY_SHIFT), [KEY_SHIFT], [KEY_SHIFT]);
    OneKey(m, KEY_SHIFT);
    OneKey(AfterKey(m, KEY_SHIFT), KEY_SHIFT);
    OneKey(AfterKey(AfterKey(m, KEY_SHIFT), KEY_SHIFT), KEY_SHIFT);
    assert [KEY_SHIFT] + [KEY_SHIFT, KEY_SHIFT] == [KEY_SHIFT, KEY_SHIFT, KEY_SHIFT];
    assert [KEY_SHIFT] + [KEY_SHIFT] == [KEY_SHIFT, KEY_SHIFT];
  }

  lemma OneMore(m: Modifiers, codes: seq<nat>, code: nat)
    ensures AfterKeys(m, codes + [code]) == AfterKey(AfterKeys(m, codes), code)
    ensures Report(m, codes + [code]) == Report(m, codes) + EventsOf(AfterKeys(m, codes), code)
  {
    assert (codes + [code])[..|codes|] == codes;
  }

  lemma OneKey(m: Modifiers, code: nat)
    ensures AfterKeys(m, [code]) == AfterKey(m, code)
  {
    assert [code][..0] == [];
  }

  /** What the letters show with Fn, from A on; Z shows nothing else. */
  const SYMBOLS: string := "|>~,@?':&;{}][()!\U{A3}#$^<\"\\%"

  /** A letter, pressed after any keys, is reported by a press and a release. They carry its symbol if Fn is on and it
    has one, and else the letter, in upper case exactly if Shift is on; and the modifier exactly if Shift is on. */
  lemma LetterReports(m: Modifiers, codes: seq<nat>, code: nat)
    requires IsLetter(code)
    ensures var now, n := AfterKeys(m, codes), code - 0x04;
      var shift, fn := now.shift != Unpressed, now.fn != Unpressed;
      var key := if fn && n < |SYMBOLS| then SYMBOLS[n] as int else (if shift then 'A' else 'a') as int + n;
      var hidModifier := if shift then 0x02 else 0x00;
      Report(m, codes + [code]) ==
        Report(m, codes) + [KeyEvent(key, true, code, hidModifier), KeyEvent(key, false, code, hidModifier)]
  {
    hide TranslateKey;
    var now := AfterKeys(m, codes);
    OneMore(m, codes, code);
    var c := LetterShows(code, now.shift != Unpressed, now.fn != Unpressed);
    SymbolsSpelled();
  }

  lemma SymbolsSpelled()
    ensures |SYMBOLS| == 25 && forall i :: 0 <= i < 25 ==> FN_SYMBOLS[i] == SYMBOLS[i] as int
  {
  }

  /** Every other key that is no modifier is reported in the same way. With Fn the arrows are Home, End and the page
    keys, which have no character, as Menu and File have none. */
  lemma OthersReport(m: Modifiers, codes: seq<nat>, code: nat)
    requires !IsLetter(code) && !IsModifier(code)
    ensures var now := AfterKeys(m, codes);
      var key :=
        if code in {KEY_MENU, KEY_FILE} then 0
        else if now.fn != Unpressed && code in {KEY_ARROW_DOWN, KEY_ARROW_UP} then 0
        else if now.fn != Unpressed && code == KEY_ARROW_LEFT then '\U{21F1}' as int
        else if now.fn != Unpressed && code == KEY_ARROW_RIGHT then '\U{21F2}' as int
        else if Plain(code).Some? then Plain(code).value else 0;
      var hidModifier := if now.shift != Unpressed then 0x02 else 0x00;
      Report(m, codes + [code]) ==
        Report(m, codes) + [KeyEvent(key, true, code, hidModifier), KeyEvent(key, false, code, hidModifier)]
  {
    hide Plain, Report, AfterKeys;
    OneMore(m, codes, code);
  }

  /** The digits and signs of the keypad, and the arrows. */
  lemma PlainKeys(code: nat)
    ensures 0x59 <= code <= 0x61 ==> Plain(code) == Some('1' as int + (code - 0x59))
    ensures Plain(0x62) == Some('0' as int) && Plain(0x63) == Plain(0x37) == Some('.' as int)
    ensures 0x54 <= code <= 0x57 ==> Plain(code) == Some("/*-+"[code - 0x54] as int)
    ensures Plain(0x2B) == Some('\t' as int) && Plain(0x2C) == Some(' ' as int) && Plain(0x2E) == Some('=' as int)
    ensures Plain(0x28) == Plain(0x58) == Some('\n' as int)
    ensures KEY_ARROW_RIGHT <= code <= KEY_ARROW_UP ==>
      Plain(code) == Some("\U{2192}\U{2190}\U{2193}\U{2191}"[code - KEY_ARROW_RIGHT] as int)
  {
  }

  /** A press of Shift or Fn takes its own toggle from unpressed to pressed once, to locked, to unpressed, and leaves
    the other one and the report alone. */
  lemma ModifiersToggle(m: Modifiers, codes: seq<nat>)
    ensures var now, shifted := AfterKeys(m, codes), AfterKeys(m, codes + [KEY_SHIFT]);
      shifted.fn == now.fn && Report(m, codes + [KEY_SHIFT]) == Report(m, codes) &&
      (now.shift, shifted.shift) in {(Unpressed, OnePress), (OnePress, Locked), (Locked, Unpressed)}
    ensures var now, fned := AfterKeys(m, codes), AfterKeys(m, codes + [KEY_FN]);
      fned.shift == now.shift && Report(m, codes + [KEY_FN]) == Report(m, codes) &&
      (now.fn, fned.fn) in {(Unpressed, OnePress), (OnePress, Locked), (Locked, Unpressed)}
  {
    OneMore(m, codes, KEY_SHIFT);
    OneMore(m, codes, KEY_FN);
  }

  // ---------------------------------------------------------------------------------------------
  // The driver

  const START := Modifiers(Unpressed, Unpressed)

  // --- what the chip is asked for, and answers

  /** The raw events that were read, and how many register reads were answered. */
  datatype Drained = Drained(raws: seq<Byte>, answered: nat)

  /** From a read of the event count on, with room for some more events: the count, an event if there is one, the count
    again. A read that fails is the last one. */
  function Events(answers: seq<Option<Byte>>, room: nat): (r: Drained)
    ensures r.answered <= |answers| && |r.raws| <= room
    decreases room
  {
    if answers == [] then Drained([], 0)
    else if room == 0 || answers[0] == None || answers[0].value == 0 || |answers| == 1 then Drained([], 1)
    else if answers[1] == None then Drained([], 2)
    else
      var more := Events(answers[2..], room - 1);
      Drained([answers[1].value] + more.raws, 2 + more.answered)
  }

  predicate KeyboardBit(answers: seq<Option<Byte>>) {
    answers != [] && answers[0].Some? && answers[0].value % 2 == 1
  }

  /** All that one drain reads: the interrupt status, and events if the keyboard's bit is set. */
  function Drain(answers: seq<Option<Byte>>): (r: Drained)
    ensures r.answered <= |answers| && |r.raws| <= MAX_EVENTS_PER_DRAIN
  {
    if answers == [] then Drained([], 0)
    else if !KeyboardBit(answers) then Drained([], 1)
    else
      var events := Events(answers[1..], MAX_EVENTS_PER_DRAIN);
      Drained(events.raws, 1 + events.answered)
  }

  /** The `n`th event is announced by a count and can be read. */
  predicate HasEvent(answers: seq<Option<Byte>>, n: nat) {
    2 * n + 1 < |answers| && answers[2 * n].Some? && answers[2 * n].value > 0 && answers[2 * n + 1].Some?
  }

  lemma {:induction false} EventsMeaning(answers: seq<Option<Byte>>, room: nat)
    ensures var raws := Events(answers, room).raws;
      && (forall k :: 0 <= k < |raws| ==> HasEvent(answers, k) && raws[k] == answers[2 * k + 1].value)
      && (|raws| < room ==> !HasEvent(answers, |raws|))
    decreases room
  {
    if room > 0 && HasEvent(answers, 0) {
      var rest, raws := answers[2..], Events(answers, room).raws;
      EventsMeaning(rest, room - 1);
      forall k | 0 < k <= |raws| ensures HasEvent(answers, k) <==> HasEvent(rest, k - 1) {
        if 2 * k < |answers| { assert answers[2 * k] == rest[2 * (k - 1)]; }
        if 2 * k + 1 < |answers| { assert answers[2 * k + 1] == rest[2 * (k - 1) + 1]; }
      }
      forall k | 0 <= k < |raws| ensures HasEvent(answers, k) && raws[k] == answers[2 * k + 1].value {
        if k > 0 { assert HasEvent(rest, k - 1) && raws[k] == rest[2 * (k - 1) + 1].value; }
      }
    }
  }

  /** A drain takes the events that the chip announces, in order, up to the first that it does not announce or that
    cannot be read, and at most 16. */
  lemma DrainMeaning(answers: seq<Option<Byte>>)
    ensures KeyboardBit(answers) <==> answers != [] && answers[0].Some? && answers[0].value % 2 == 1
    ensures !KeyboardBit(answers) ==> Drain(answers).raws == []
    ensures var raws := Drain(answers).raws;
      KeyboardBit(answers) ==>
        (forall k :: 0 <= k < |raws| ==> HasEvent(answers[1..], k) && raws[k] == answers[1..][2 * k + 1].value) &&
        (|raws| < MAX_EVENTS_PER_DRAIN ==> !HasEvent(answers[1..], |raws|))
  {
    if KeyboardBit(answers) { EventsMeaning(answers[1..], MAX_EVENTS_PER_DRAIN); }
  }

  /** The codes of the keys that went down. */
  function DownCodes(raws: seq<Byte>): (r: seq<nat>)
    ensures |r| <= |raws|
  {
    if raws == [] then []
    else (if raws[0] >= 0x80 then [raws[0] % 0x80] else []) + DownCodes(raws[1..])
  }

  /** A drain that has read some events, with `at` the answers from the last count on. */
  ghost predicate Remaining(events: seq<Option<Byte>>, raws: seq<Byte>, at: seq<Option<Byte>>, room: nat) {
    var all, rest := Events(events, MAX_EVENTS_PER_DRAIN), Events(at, room);
    all.raws == raws + rest.raws && events[all.answered..] == at[rest.answered..]
  }

  lemma OneEventLess(events: seq<Option<Byte>>, raws: seq<Byte>, at: seq<Option<Byte>>, room: nat)
    requires Remaining(events, raws, at, room) && room > 0 && HasEvent(at, 0)
    ensures Remaining(events, raws + [at[1].value], at[2..], room - 1)
  {
    var more := Events(at[2..], room - 1);
    assert raws + ([at[1].value] + more.raws) == raws + [at[1].value] + more.raws;
    assert at[2..][more.answered..] == at[2 + more.answered..];
  }

  /** Where the events end, and what is left of the answers there. */
  lemma EventsEnd(at: seq<Option<Byte>>, room: nat)
    requires room == 0 || !HasEvent(at, 0)
    ensures var end := Events(at, room);
      end.raws == [] && end.answered ==
        if at == [] then 0 else if room == 0 || at[0] == None || at[0].value == 0 || |at| == 1 then 1 else 2
  {
  }

  lemma AllTaken(events: seq<Option<Byte>>, raws: seq<Byte>, at: seq<Option<Byte>>, room: nat, rest: seq<Option<Byte>>)
    requires Remaining(events, raws, at, room) && (room == 0 || !HasEvent(at, 0))
    requires at == [] ==> rest == []
    requires at != [] && (room == 0 || at[0] == None || at[0].value == 0 || |at| == 1) ==> rest == at[1..]
    requires |at| > 1 && room > 0 && at[0].Some? && at[0].value > 0 ==> rest == at[2..]
    ensures var all := Events(events, MAX_EVENTS_PER_DRAIN); all.raws == raws && events[all.answered..] == rest
  {
    EventsEnd(at, room);
    assert raws + [] == raws;
  }

  lemma NothingTaken(events: seq<Option<Byte>>)
    ensures Remaining(events, [], events, MAX_EVENTS_PER_DRAIN) && DownCodes([]) == []
  {
  }

  lemma {:induction false} OneMoreDown(raws: seq<Byte>, raw: Byte)
    ensures DownCodes(raws + [raw]) == DownCodes(raws) + if raw >= 0x80 then [raw % 0x80] else []
  {
    if raws == [] {
      assert [raw][1..] == [];
    } else {
      var first := if raws[0] >= 0x80 then [raws[0] % 0x80] else [];
      var last := if raw >= 0x80 then [raw % 0x80] else [];
      assert (raws + [raw])[0] == raws[0] && (raws + [raw])[1..] == raws[1..] + [raw];
      OneMoreDown(raws[1..], raw);
      assert first + (DownCodes(raws[1..]) + last) == first + DownCodes(raws[1..]) + last;
    }
  }

  /** Handing out the first of the waiting events. */
  lemma HandedOut(delivered: seq<KeyEvent>, waiting: seq<KeyEvent>)
    requires waiting != []
    ensures var more := delivered + [waiting[0]];
      more + waiting[1..] == delivered + waiting && (more == delivered + waiting <==> |waiting| == 1)
  {
    assert waiting == [waiting[0]] + waiting[1..];
    assert |waiting| == 1 ==> waiting[1..] == [];
  }

  class Bus {
    /** What the next register reads return. */
    var answers: seq<Option<Byte>>
    /** How often the keyboard's interrupt bit was cleared. */
    var cleared: nat

    constructor (answers: seq<Option<Byte>>)
      ensures this.answers == answers && cleared == 0
    {
      this.answers, cleared := answers, 0;
    }

    method ClearInterrupt()
      modifies this`cleared
      ensures cleared == old(cleared) + 1
    {
      cleared := cleared + 1;
    }

    method Get() returns (r: Option<Byte>)
      modifies this`answers
      ensures answers == if old(answers) == [] then [] else old(answers)[1..]
      ensures r == if old(answers) == [] then None else old(answers)[0]
    {
      if answers == [] { return None; }
      r, answers := answers[0], answers[1..];
    }
  }

  /** The events that wait in the ring, the oldest one first. */
  function Ring(slots: seq<KeyEvent>, head: nat, count: nat): (q: seq<KeyEvent>)
    requires |slots| == PENDING_CAPACITY
    ensures |q| == count
  {
    seq(count, i requires 0 <= i < count => slots[(head + i) % PENDING_CAPACITY])
  }

  lemma NextSlot(head: nat, i: nat)
    requires head < PENDING_CAPACITY
    ensures ((head + 1) % PENDING_CAPACITY + i) % PENDING_CAPACITY == (head + (i + 1)) % PENDING_CAPACITY
  {
    if head + 1 == PENDING_CAPACITY {
      assert (PENDING_CAPACITY + i) % PENDING_CAPACITY == i % PENDING_CAPACITY;
    }
  }

  /** Without its oldest event, the ring begins one slot further on. */
  lemma RingTail(slots: seq<KeyEvent>, head: nat, count: nat)
    requires |slots| == PENDING_CAPACITY && head < PENDING_CAPACITY
    ensures Ring(slots, head, count + 1)[0] == slots[head]
    ensures Ring(slots, (head + 1) % PENDING_CAPACITY, count) == Ring(slots, head, count + 1)[1..]
  {
    var all, tail := Ring(slots, head, count + 1), Ring(slots, (head + 1) % PENDING_CAPACITY, count);
    forall i | 0 <= i < count ensures tail[i] == all[i + 1] { NextSlot(head, i); }
  }

  datatype KeyData = KeyData(key: nat, pressed: bool, continueReading: bool, hidKeycode: nat, hidModifier: nat)

  const NO_KEY := KeyData(0, false, false, 0, 0)

  class Driver {
    var shiftState: ToggleState
    var fnState: ToggleState
    var pending: array<KeyEvent>
    var pendingHead: nat
    var pendingCount: nat
    /** All down codes that were read, and all events that were handed out. */
    ghost var codes: seq<nat>
    ghost var delivered: seq<KeyEvent>

    ghost predicate Sane()
      reads this`pending, this`pendingHead, this`pendingCount
    {
      pending.Length == PENDING_CAPACITY && pendingHead < PENDING_CAPACITY && pendingCount <= PENDING_CAPACITY
    }

    ghost function Queue(): (q: seq<KeyEvent>)
      requires Sane()
      reads this`pending, this`pendingHead, this`pendingCount, pending
      ensures |q| == pendingCount
    {
      Ring(pending[..], pendingHead, pendingCount)
    }

    /** What was handed out and what is waiting is exactly what the codes report: nothing was dropped. */
    ghost predicate Valid()
      reads this, pending
    {
      Sane() && Modifiers(shiftState, fnState) == AfterKeys(START, codes) && delivered + Queue() == Report(START, codes)
    }

    constructor ()
      ensures Valid() && fresh(pending) && codes == [] && delivered == []
    {
      shiftState, fnState := Unpressed, Unpressed;
      pending := new KeyEvent[PENDING_CAPACITY](_ => KeyEvent(0, false, 0, 0));
      pendingHead, pendingCount := 0, 0;
      codes, delivered := [], [];
    }

    method PushPending(e: KeyEvent)
      requires Sane()
      modifies this`pendingCount, pending
      ensures Sane()
      ensures Queue() == if old(pendingCount) < PENDING_CAPACITY then old(Queue()) + [e] else old(Queue())
    {
      if pendingCount >= PENDING_CAPACITY { return; }
      var tail := (pendingHead + pendingCount) % PENDING_CAPACITY;
      ghost var before := Queue();
      pending[tail] := e;
      pendingCount := pendingCount + 1;
      assert forall i :: 0 <= i < |before| ==> Queue()[i] == before[i];
    }

    method PopPending() returns (e: Option<KeyEvent>)
      requires Sane()
      modifies this`pendingHead, this`pendingCount
      ensures Sane()
      ensures old(pendingCount) == 0 ==> e == None && Queue() == old(Queue())
      ensures old(pendingCount) > 0 ==> e == Some(old(Queue())[0]) && Queue() == old(Queue())[1..]
    {
      if pendingCount == 0 { return None; }
      e := Some(pending[pendingHead]);
      pendingHead := (pendingHead + 1) % PENDING_CAPACITY;
      pendingCount := pendingCount - 1;
      RingTail(pending[..], old(pendingHead), pendingCount);
    }

    method HandleKeyDown(code: nat)
      requires Valid() && pendingCount + 2 <= PENDING_CAPACITY
      modifies this, pending
      ensures Valid() && pending == old(pending) && delivered == old(delivered) && codes == old(codes) + [code]
      ensures pendingCount <= old(pendingCount) + 2
    {
      hide Report, AfterKeys, TranslateKey, Queue;
      ghost var m := Modifiers(shiftState, fnState);
      ghost var before := Queue();
      OneMore(START, codes, code);
      assert delivered + (before + Pair(m, code)) == delivered + before + Pair(m, code);
      codes := codes + [code];
      if code == KEY_SHIFT {
        shiftState := NextToggleState(shiftState);
        return;
      }
      if code == KEY_FN {
        fnState := NextToggleState(fnState);
        return;
      }
      var shift := shiftState != Unpressed;
      var hidModifier := if shift then 0x02 else 0x00;
      if code == KEY_MENU || code == KEY_FILE {
        PushPending(KeyEvent(0, true, code, hidModifier));
        PushPending(KeyEvent(0, false, code, hidModifier));
        assert Queue() == before + Pair(m, code);
        return;
      }
      var fn := fnState != Unpressed;
      var key := TranslateKey(code, shift, fn);
      PushPending(KeyEvent(if key.Some? then key.value else 0, true, code, hidModifier));
      PushPending(KeyEvent(if key.Some? then key.value else 0, false, code, hidModifier));
      assert Queue() == before + Pair(m, code);
      if shiftState == OnePress {
        shiftState := Unpressed;
      }
      if fnState == OnePress {
        fnState := Unpressed;
      }
    }

    /** The loop of drain_events, with the read of the count before it. */
    method TakeEvents(bus: Bus) returns (counted: bool)
      requires Valid() && pendingCount == 0
      modifies this, pending, bus`answers
      ensures Valid() && pending == old(pending) && delivered == old(delivered)
      ensures counted <==> old(bus.answers) != [] && old(bus.answers)[0].Some?
      ensures codes == old(codes) + DownCodes(Events(old(bus.answers), MAX_EVENTS_PER_DRAIN).raws)
      ensures bus.answers == old(bus.answers)[Events(old(bus.answers), MAX_EVENTS_PER_DRAIN).answered..]
    {
      hide Report, AfterKeys, Queue, Valid, DownCodes, Events, Remaining;
      ghost var events, raws, at := bus.answers, [], bus.answers;
      NothingTaken(events);
      var count := bus.Get();
      if count == None {
        AllTaken(events, raws, at, MAX_EVENTS_PER_DRAIN, bus.answers);
        return false;
      }
      counted := true;
      var drained := 0;
      while drained < MAX_EVENTS_PER_DRAIN && count.value > 0
        invariant 0 <= drained <= MAX_EVENTS_PER_DRAIN && pendingCount <= 2 * drained
        invariant at != [] && at[0] == count && count.Some? && bus.answers == at[1..]
        invariant Remaining(events, raws, at, MAX_EVENTS_PER_DRAIN - drained)
        invariant Valid() && pending == old(pending) && delivered == old(delivered)
        invariant codes == old(codes) + DownCodes(raws)
      {
        var raw := bus.Get();
        if raw == None {
          AllTaken(events, raws, at, MAX_EVENTS_PER_DRAIN - drained, bus.answers);
          return;
        }
        if raw.value >= 0x80 {
          HandleKeyDown(raw.value % 0x80);
        }
        OneMoreDown(raws, raw.value);
        OneEventLess(events, raws, at, MAX_EVENTS_PER_DRAIN - drained);
        raws, at := raws + [raw.value], at[2..];
        count := bus.Get();
        if count == None {
          AllTaken(events, raws, at, MAX_EVENTS_PER_DRAIN - drained - 1, bus.answers);
          return;
        }
        drained := drained + 1;
      }
      AllTaken(events, raws, at, MAX_EVENTS_PER_DRAIN - drained, bus.answers);
    }

    /** Takes up to 16 events off the chip, as long as it answers and has some. */
    method DrainEvents(bus: Bus)
      requires Valid() && pendingCount == 0
      modifies this, pending, bus
      ensures Valid() && pending == old(pending) && delivered == old(delivered)
      ensures codes == old(codes) + DownCodes(Drain(old(bus.answers)).raws)
      ensures bus.answers == old(bus.answers)[Drain(old(bus.answers)).answered..]
      ensures bus.cleared == old(bus.cleared) +
        if KeyboardBit(old(bus.answers)) && |old(bus.answers)| > 1 && old(bus.answers)[1].Some? then 1 else 0
    {
      hide Valid, Events;
      ghost var before := bus.answers;
      var status := bus.Get();
      if status == None || status.value % 2 == 0 { return; }
      var counted := TakeEvents(bus);
      assert before[1..][Events(before[1..], MAX_EVENTS_PER_DRAIN).answered..] == before[Drain(before).answered..];
      if counted { bus.ClearInterrupt(); }
    }

    /** Hands out the next event, if there is one; asks the chip only when none is waiting. */
    method ReadKey(bus: Bus) returns (data: KeyData)
      requires Valid()
      modifies this, pending, bus
      ensures Valid() && pending == old(pending)
      ensures old(pendingCount) > 0 ==>
        codes == old(codes) && bus.answers == old(bus.answers) && bus.cleared == old(bus.cleared)
      ensures old(pendingCount) == 0 ==>
        codes == old(codes) + DownCodes(Drain(old(bus.answers)).raws) &&
        bus.answers == old(bus.answers)[Drain(old(bus.answers)).answered..]
      ensures delivered == old(delivered) ==> data == NO_KEY && delivered == Report(START, codes)
      ensures delivered != old(delivered) ==>
        (var e := KeyEvent(data.key, data.pressed, data.hidKeycode, data.hidModifier);
         delivered == old(delivered) + [e] && (data.continueReading <==> delivered != Report(START, codes)))
    {
      hide Report, AfterKeys, Drain, DownCodes;
      if pendingCount == 0 {
        DrainEvents(bus);
      }
      ghost var waiting := Queue();
      hide Queue;
      var event := PopPending();
      if event == None {
        assert delivered + waiting == delivered;
        return NO_KEY;
      }
      HandedOut(delivered, waiting);
      delivered := delivered + [event.value];
      data := KeyData(event.value.key, event.value.pressed, pendingCount > 0, event.value.hidKeycode,
        event.value.hidModifier);
    }
  }
}
