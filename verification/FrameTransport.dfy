/** The frames between "tt shell" and a device, and its terminal output: class Connection and write_output in shell.py.

  The connection is what has been received and not been used yet, and what is still to come: pieces of data, with
  pauses that are longer than the caller waits.
*/
module FrameTransport {
  import opened Wrappers

  type Byte = x: int | 0 <= x < 256

  const HEADER_SIZE: nat := 3
  const PAYLOAD_MAX: nat := 1024
  const CR: Byte := 0x0D
  const LF: Byte := 0x0A

  datatype Frame = Frame(kind: Byte, payload: seq<Byte>)

  // ---------------------------------------------------------------------------------------------
  // Frames as bytes

  /** The length field has two bytes. */
  predicate Fits(f: Frame) {
    |f.payload| < 0x1_0000
  }

  /** A big-endian 16-bit number. */
  function Length(high: int, low: int): int {
    256 * high + low
  }

  function Encode(f: Frame): seq<Byte>
    requires Fits(f)
  {
    [f.kind, |f.payload| / 256, |f.payload| % 256] + f.payload
  }

  /** A frame begins with its kind and the length of its payload in two bytes, the more significant one first. */
  lemma EncodeMeaning(f: Frame)
    requires Fits(f)
    ensures var bytes := Encode(f);
      var high: int, low: int := bytes[1], bytes[2];
      |bytes| == 3 + |f.payload| && bytes[0] == f.kind && 256 * high + low == |f.payload| && bytes[3..] == f.payload
  {
  }

  function EncodeAll(fs: seq<Frame>): seq<Byte>
    requires forall f :: f in fs ==> Fits(f)
  {
    if fs == [] then [] else Encode(fs[0]) + EncodeAll(fs[1..])
  }

  /** The frames that send_frame cuts a payload into. */
  function Cut(kind: Byte, payload: seq<Byte>): (fs: seq<Frame>)
    ensures fs != [] && forall f :: f in fs ==> Fits(f)
  {
    if |payload| <= PAYLOAD_MAX then [Frame(kind, payload)]
    else [Frame(kind, payload[..PAYLOAD_MAX])] + Cut(kind, payload[PAYLOAD_MAX..])
  }

  function Joined(fs: seq<Frame>): seq<Byte> {
    if fs == [] then [] else fs[0].payload + Joined(fs[1..])
  }

  /** The pieces of a payload have its kind, all but the last have 1024 bytes and that at most as many, none but that of
    an empty payload is empty, and put together they are the payload. */
  lemma {:induction false} CutMeaning(kind: Byte, payload: seq<Byte>)
    ensures Joined(Cut(kind, payload)) == payload
    ensures forall f :: f in Cut(kind, payload) ==>
      f.kind == kind && |f.payload| <= PAYLOAD_MAX && (payload != [] ==> f.payload != [])
    ensures forall i :: 0 <= i < |Cut(kind, payload)| - 1 ==> |Cut(kind, payload)[i].payload| == 1024
    decreases |payload|
  {
    var fs := Cut(kind, payload);
    if |payload| <= PAYLOAD_MAX {
      assert Joined(fs) == payload + Joined(fs[1..]) && fs[1..] == [];
    } else {
      CutMeaning(kind, payload[PAYLOAD_MAX..]);
      assert fs[1..] == Cut(kind, payload[PAYLOAD_MAX..]);
      assert payload == payload[..PAYLOAD_MAX] + payload[PAYLOAD_MAX..];
    }
  }

  /** pop_frame: the first frame, if it is complete, and what is behind it. */
  function Pop(buffer: seq<Byte>): Option<(Frame, seq<Byte>)> {
    if |buffer| < HEADER_SIZE then None
    else
      var end := HEADER_SIZE + Length(buffer[1], buffer[2]);
      if |buffer| < end then None else Some((Frame(buffer[0], buffer[HEADER_SIZE..end]), buffer[end..]))
  }

  /** A complete frame is popped whole, whatever follows it. */
  lemma PopEncoded(f: Frame, rest: seq<Byte>)
    requires Fits(f)
    ensures Pop(Encode(f) + rest) == Some((f, rest))
  {
    var buffer := Encode(f) + rest;
    var end := HEADER_SIZE + |f.payload|;
    assert buffer[0] == f.kind && Length(buffer[1], buffer[2]) == |f.payload|;
    assert buffer[HEADER_SIZE..end] == f.payload && buffer[end..] == rest;
  }

  /** Nothing is popped before all of a frame is there. */
  lemma PopNothingEarly(f: Frame, n: nat)
    requires Fits(f) && n < |Encode(f)|
    ensures Pop(Encode(f)[..n]) == None
  {
  }

  /** More data behind a complete frame does not change it. */
  lemma PopStays(buffer: seq<Byte>, more: seq<Byte>)
    ensures Pop(buffer).Some? ==> Pop(buffer + more) == Some((Pop(buffer).value.0, Pop(buffer).value.1 + more))
  {
    if Pop(buffer).Some? {
      var end := HEADER_SIZE + Length(buffer[1], buffer[2]);
      var all := buffer + more;
      assert all[1] == buffer[1] && all[2] == buffer[2] && all[0] == buffer[0];
      assert all[HEADER_SIZE..end] == buffer[HEADER_SIZE..end];
      assert all[end..] == buffer[end..] + more;
    }
  }

  /** All complete frames, one after the other. */
  function PopAll(buffer: seq<Byte>): (seq<Frame>, seq<Byte>)
    decreases |buffer|
  {
    match Pop(buffer)
    case None => ([], buffer)
    case Some((f, rest)) => var (fs, last) := PopAll(rest); ([f] + fs, last)
  }

  /** Popping gives back the frames that were encoded, in order, and nothing else. */
  lemma {:induction false} PopAllEncoded(fs: seq<Frame>, rest: seq<Byte>)
    requires (forall f :: f in fs ==> Fits(f)) && Pop(rest) == None
    ensures PopAll(EncodeAll(fs) + rest) == (fs, rest)
  {
    if fs == [] {
      assert EncodeAll(fs) + rest == rest;
    } else {
      assert EncodeAll(fs) + rest == Encode(fs[0]) + (EncodeAll(fs[1..]) + rest);
      PopEncoded(fs[0], EncodeAll(fs[1..]) + rest);
      PopAllEncoded(fs[1..], rest);
      assert [fs[0]] + fs[1..] == fs;
    }
  }

  // ---------------------------------------------------------------------------------------------
  // A sequence of send_frame calls

  datatype Message = Message(kind: Byte, payload: seq<Byte>)

  function CutAll(ms: seq<Message>): (fs: seq<Frame>)
    ensures forall f :: f in fs ==> Fits(f)
  {
    if ms == [] then [] else CutAll(ms[..|ms| - 1]) + Cut(ms[|ms| - 1].kind, ms[|ms| - 1].payload)
  }

  function Payloads(ms: seq<Message>): seq<Byte> {
    if ms == [] then [] else Payloads(ms[..|ms| - 1]) + ms[|ms| - 1].payload
  }

  lemma {:induction false} EncodeAllMore(a: seq<Frame>, b: seq<Frame>)
    requires forall f :: f in a + b ==> Fits(f)
    ensures (forall f :: f in a ==> Fits(f)) && (forall f :: f in b ==> Fits(f))
    ensures EncodeAll(a + b) == EncodeAll(a) + EncodeAll(b)
  {
    assert forall f :: f in a ==> f in a + b;
    assert forall f :: f in b ==> f in a + b;
    if a == [] {
      assert a + b == b;
    } else {
      assert (a + b)[1..] == a[1..] + b;
      EncodeAllMore(a[1..], b);
    }
  }

  lemma {:induction false} JoinedMore(a: seq<Frame>, b: seq<Frame>)
    ensures Joined(a + b) == Joined(a) + Joined(b)
  {
    if a == [] {
      assert a + b == b;
    } else {
      assert (a + b)[1..] == a[1..] + b;
      JoinedMore(a[1..], b);
    }
  }

  /** What arrives of any messages, put together, is their payloads. */
  lemma {:induction false} AllPayloadsArrive(ms: seq<Message>)
    ensures Joined(PopAll(EncodeAll(CutAll(ms))).0) == Payloads(ms)
    ensures PopAll(EncodeAll(CutAll(ms))).0 == CutAll(ms)
    decreases |ms|
  {
    PopAllEncoded(CutAll(ms), []);
    assert EncodeAll(CutAll(ms)) + [] == EncodeAll(CutAll(ms));
    if ms != [] {
      var last := ms[|ms| - 1];
      AllPayloadsArrive(ms[..|ms| - 1]);
      JoinedMore(CutAll(ms[..|ms| - 1]), Cut(last.kind, last.payload));
      CutMeaning(last.kind, last.payload);
    }
  }

  class Sender {
    var sent: seq<Byte>

    constructor ()
      ensures sent == []
    {
      sent := [];
    }

    method SendFrame(kind: Byte, payload: seq<Byte>)
      modifies this
      ensures sent == old(sent) + EncodeAll(Cut(kind, payload))
    {
      hide EncodeAll, Encode, Cut;
      ghost var whole := EncodeAll(Cut(kind, payload));
      assert payload[0..] == payload;
      var end := if |payload| < 1 then 1 else |payload|;
      var offset := 0;
      while offset < end
        invariant 0 <= offset <= |payload| || offset >= end
        invariant offset < end ==> sent + EncodeAll(Cut(kind, payload[offset..])) == old(sent) + whole
        invariant offset >= end ==> sent == old(sent) + whole
        decreases end - offset
      {
        var chunk := payload[offset..if offset + PAYLOAD_MAX < |payload| then offset + PAYLOAD_MAX else |payload|];
        FirstChunk(kind, payload, offset);
        ghost var last := offset + PAYLOAD_MAX >= |payload|;
        assert last ==> chunk == payload[offset..];
        sent := sent + Encode(Frame(kind, chunk));
        offset := offset + PAYLOAD_MAX;
      }
    }
  }

  lemma FirstChunk(kind: Byte, payload: seq<Byte>, offset: nat)
    requires offset <= |payload|
    ensures offset + PAYLOAD_MAX < |payload| ==>
      EncodeAll(Cut(kind, payload[offset..])) ==
        Encode(Frame(kind, payload[offset..offset + PAYLOAD_MAX])) +
          EncodeAll(Cut(kind, payload[offset + PAYLOAD_MAX..]))
    ensures offset + PAYLOAD_MAX >= |payload| ==>
      EncodeAll(Cut(kind, payload[offset..])) == Encode(Frame(kind, payload[offset..]))
  {
    var rest := payload[offset..];
    var fs := Cut(kind, rest);
    if |rest| > PAYLOAD_MAX {
      assert rest[..PAYLOAD_MAX] == payload[offset..offset + PAYLOAD_MAX];
      assert rest[PAYLOAD_MAX..] == payload[offset + PAYLOAD_MAX..];
      assert fs[1..] == Cut(kind, rest[PAYLOAD_MAX..]);
    } else {
      assert fs[1..] == [];
    }
  }

  // ---------------------------------------------------------------------------------------------
  // The receiving side

  /** A piece that recv returns, or a pause that is longer than its timeout. */
  datatype Piece = Data(bytes: seq<Byte>) | Pause

  function Flat(pieces: seq<Piece>): seq<Byte> {
    if pieces == [] then [] else (if pieces[0].Data? then pieces[0].bytes else []) + Flat(pieces[1..])
  }

  datatype Received = More | Closed | TimedOut

  function FindLf(s: seq<Byte>): (i: nat)
    ensures i <= |s| && LF !in s[..i] && (i < |s| ==> s[i] == LF)
  {
    if s == [] || s[0] == LF then 0
    else
      var i := 1 + FindLf(s[1..]);
      assert s[..i] == [s[0]] + s[1..][..i - 1];
      i
  }

  /** No pauses, and no end before the last piece. */
  predicate Steady(pieces: seq<Piece>) {
    forall i :: 0 <= i < |pieces| ==> pieces[i].Data? && pieces[i].bytes != []
  }

  class Connection {
    var buffer: seq<Byte>
    var incoming: seq<Piece>

    /** Everything that has not been used yet. */
    function Unused(): seq<Byte>
      reads this
    {
      buffer + Flat(incoming)
    }

    constructor (incoming: seq<Piece>)
      ensures buffer == [] && this.incoming == incoming && Unused() == Flat(incoming)
    {
      buffer, this.incoming := [], incoming;
    }

    /** recv: an empty piece means that the other side has closed the connection. */
    method Receive() returns (r: Received)
      modifies this
      ensures Unused() == old(Unused())
      ensures r == More ==> |incoming| < |old(incoming)|
      ensures r != More ==> buffer == old(buffer)
      ensures old(Steady(incoming)) ==> Steady(incoming) && r != TimedOut && (r == Closed ==> incoming == [])
    {
      if incoming == [] { return Closed; }
      match incoming[0] {
        case Pause =>
          incoming := incoming[1..];
          return TimedOut;
        case Data(bytes) =>
          if bytes == [] { return Closed; }
          assert buffer + Flat(incoming) == (buffer + bytes) + Flat(incoming[1..]);
          buffer, incoming := buffer + bytes, incoming[1..];
          return More;
      }
    }

    /** Without a line, nothing is lost; with one, exactly the line and its line feed are used. If there is no pause
      and no early end, a line that is there is found, however it was cut into pieces. */
    method ReadLine() returns (line: Option<seq<Byte>>)
      modifies this
      ensures line.None? ==> Unused() == old(Unused())
      ensures line.Some? ==> LF !in line.value && line.value + [LF] + Unused() == old(Unused())
      ensures old(Steady(incoming)) ==> (line.Some? <==> LF in old(Unused())) && Steady(incoming)
    {
      while LF !in buffer
        invariant Unused() == old(Unused()) && (old(Steady(incoming)) ==> Steady(incoming))
        decreases |incoming|
      {
        var r := Receive();
        if r != More { return None; }
      }
      var i := FindLf(buffer);
      assert buffer[..|buffer|] == buffer;
      assert buffer == buffer[..i] + [LF] + buffer[i + 1..];
      line := Some(buffer[..i]);
      buffer := buffer[i + 1..];
    }

    method PopFrame() returns (r: Option<Frame>)
      modifies this`buffer
      ensures Pop(old(buffer)).None? ==> r.None? && buffer == old(buffer)
      ensures Pop(old(buffer)).Some? ==> r == Some(Pop(old(buffer)).value.0) && buffer == Pop(old(buffer)).value.1
    {
      if |buffer| < HEADER_SIZE { return None; }
      var kind, length := buffer[0], Length(buffer[1], buffer[2]);
      if |buffer| < HEADER_SIZE + length { return None; }
      var payload := buffer[HEADER_SIZE..HEADER_SIZE + length];
      buffer := buffer[HEADER_SIZE + length..];
      return Some(Frame(kind, payload));
    }

    /** The next frame. If there is no pause and no early end, it is the first one of all that is unused, however that
      was cut into pieces, and none is reported only if none is complete; the source then ends the program. */
    method ReadFrame() returns (r: Option<Frame>)
      modifies this
      ensures r.None? ==> Unused() == old(Unused())
      ensures r.Some? ==> Pop(old(Unused())) == Some((r.value, Unused()))
      ensures old(Steady(incoming)) ==> (r.None? <==> Pop(old(Unused())).None?) && Steady(incoming)
    {
      r := None;
      while r == None
        invariant r == None ==> Unused() == old(Unused())
        invariant r.Some? ==> Pop(old(Unused())) == Some((r.value, Unused()))
        invariant old(Steady(incoming)) ==> Steady(incoming)
        decreases |incoming|, r == None
      {
        PopStays(buffer, Flat(incoming));
        r := PopFrame();
        if r == None {
          var received := Receive();
          if received != More { return None; }
        }
      }
    }
  }

  /** A session as its callers run it: the greeting line first, and then frames. Whatever frames the other side has sent
    behind its greeting are read in order, however all of that was cut into pieces, also where a piece holds the end of
    the greeting and the beginning of a frame. */
  method ReadSession(connection: Connection, ghost greeting: seq<Byte>, ghost sent: seq<Frame>, count: nat)
    returns (line: Option<seq<Byte>>, frames: seq<Frame>)
    requires Steady(connection.incoming) && LF !in greeting && count == |sent| && forall f :: f in sent ==> Fits(f)
    requires connection.Unused() == greeting + [LF] + EncodeAll(sent)
    modifies connection
    ensures line == Some(greeting) && frames == sent && connection.Unused() == []
  {
    assert connection.Unused()[|greeting|] == LF;
    line := connection.ReadLine();
    SameLine(line.value, connection.Unused(), greeting, EncodeAll(sent));
    frames := [];
    for i := 0 to count
      invariant Steady(connection.incoming) && frames == sent[..i] && (forall f :: f in sent[i..] ==> Fits(f))
      invariant connection.Unused() == EncodeAll(sent[i..])
    {
      NextFrame(sent, i);
      var frame := connection.ReadFrame();
      frames := frames + [frame.value];
    }
  }

  lemma NextFrame(sent: seq<Frame>, i: nat)
    requires i < |sent| && forall f :: f in sent[i..] ==> Fits(f)
    ensures forall f :: f in sent[i + 1..] ==> Fits(f)
    ensures Pop(EncodeAll(sent[i..])) == Some((sent[i], EncodeAll(sent[i + 1..])))
  {
    var rest := sent[i..];
    assert rest[0] == sent[i] && rest[1..] == sent[i + 1..] && sent[i] in rest;
    PopEncoded(sent[i], EncodeAll(rest[1..]));
  }

  lemma SameLine(a: seq<Byte>, restA: seq<Byte>, b: seq<Byte>, restB: seq<Byte>)
    requires LF !in a && LF !in b && a + [LF] + restA == b + [LF] + restB
    ensures a == b && restA == restB
  {
    var all := a + [LF] + restA;
    assert all[|a|] == LF && (b + [LF] + restB)[|b|] == LF;
    assert all[..|a|] == a && (b + [LF] + restB)[..|b|] == b;
    assert all[|a| + 1..] == restA && (b + [LF] + restB)[|b| + 1..] == restB;
  }

  // ---------------------------------------------------------------------------------------------
  // write_output

  function OutputByte(b: Byte, afterCr: bool): seq<Byte> {
    if b == LF && !afterCr then [CR, LF] else [b]
  }

  function Output(data: seq<Byte>, afterCr: bool): seq<Byte> {
    if data == [] then [] else OutputByte(data[0], afterCr) + Output(data[1..], data[0] == CR)
  }

  function EndsInCr(data: seq<Byte>, afterCr: bool): bool {
    if data == [] then afterCr else data[|data| - 1] == CR
  }

  method WriteOutput(data: seq<Byte>, previousWasCr: bool) returns (output: seq<Byte>, wasCr: bool)
    ensures output == Output(data, previousWasCr) && wasCr == EndsInCr(data, previousWasCr)
  {
    output, wasCr := [], previousWasCr;
    for i := 0 to |data|
      invariant output == Output(data[..i], previousWasCr) && wasCr == EndsInCr(data[..i], previousWasCr)
    {
      assert data[..i + 1] == data[..i] + [data[i]];
      OutputMore(data[..i], [data[i]], previousWasCr);
      assert [data[i]][1..] == [];
      if data[i] == LF && !wasCr {
        output := output + [CR];
      }
      output := output + [data[i]];
      wasCr := data[i] == CR;
    }
    assert data[..|data|] == data;
  }

  lemma {:induction false} OutputMore(a: seq<Byte>, b: seq<Byte>, afterCr: bool)
    ensures Output(a + b, afterCr) == Output(a, afterCr) + Output(b, EndsInCr(a, afterCr))
    ensures EndsInCr(a + b, afterCr) == EndsInCr(b, EndsInCr(a, afterCr))
    decreases |a|
  {
    if a == [] {
      assert a + b == b;
    } else {
      hide OutputByte;
      assert (a + b)[1..] == a[1..] + b;
      OutputMore(a[1..], b, a[0] == CR);
      assert EndsInCr(a[1..], a[0] == CR) == EndsInCr(a, afterCr);
      var first, middle, last := OutputByte(a[0], afterCr), Output(a[1..], a[0] == CR), Output(b, EndsInCr(a, afterCr));
      assert first + middle + last == first + (middle + last);
    }
  }

  function Concat(chunks: seq<seq<Byte>>): seq<Byte> {
    if chunks == [] then [] else chunks[0] + Concat(chunks[1..])
  }

  function OutputOfChunks(chunks: seq<seq<Byte>>, afterCr: bool): seq<Byte> {
    if chunks == [] then [] else Output(chunks[0], afterCr) + OutputOfChunks(chunks[1..], EndsInCr(chunks[0], afterCr))
  }

  /** However the data are cut into chunks, the terminal gets the same bytes. */
  lemma {:induction false} ChunksDoNotMatter(chunks: seq<seq<Byte>>, afterCr: bool)
    ensures OutputOfChunks(chunks, afterCr) == Output(Concat(chunks), afterCr)
    decreases |chunks|
  {
    if chunks != [] {
      ChunksDoNotMatter(chunks[1..], EndsInCr(chunks[0], afterCr));
      OutputMore(chunks[0], Concat(chunks[1..]), afterCr);
    }
  }

  /** No line feed without a carriage return in front. */
  predicate RawLines(s: seq<Byte>, afterCr: bool) {
    forall i :: 0 <= i < |s| ==> RawAt(s, i, afterCr)
  }

  predicate RawAt(s: seq<Byte>, i: nat, afterCr: bool)
    requires i < |s|
  {
    s[i] == LF ==> if i == 0 then afterCr else s[i - 1] == CR
  }

  function WithoutCr(s: seq<Byte>): seq<Byte> {
    if s == [] then [] else (if s[0] == CR then [] else [s[0]]) + WithoutCr(s[1..])
  }

  lemma RawLinesFirst(b: Byte, rest: seq<Byte>, afterCr: bool)
    ensures RawLines([b] + rest, afterCr) <==> (b == LF ==> afterCr) && RawLines(rest, b == CR)
  {
    var all := [b] + rest;
    var cr := b == CR;
    forall i | 0 < i < |all| ensures RawAt(all, i, afterCr) == RawAt(rest, i - 1, cr) {
    }
    if RawLines(all, afterCr) {
      assert RawAt(all, 0, afterCr);
      forall i | 0 <= i < |rest| ensures RawAt(rest, i, cr) { assert RawAt(all, i + 1, afterCr); }
    }
    if (b == LF ==> afterCr) && RawLines(rest, cr) {
      forall i | 0 <= i < |all| ensures RawAt(all, i, afterCr) {
        if i > 0 { assert RawAt(rest, i - 1, cr); }
      }
    }
  }

  /** How many line feeds have no carriage return in front. */
  function BareLineFeeds(data: seq<Byte>, afterCr: bool): nat {
    if data == [] then 0
    else (if data[0] == LF && !afterCr then 1 else 0) + BareLineFeeds(data[1..], data[0] == CR)
  }

  /** A raw terminal gets whole line ends, by one carriage return more for each line feed without one, and otherwise the
    same text; data that have whole line ends stay as they are. */
  lemma {:induction false} OutputMeaning(data: seq<Byte>, afterCr: bool)
    ensures RawLines(Output(data, afterCr), afterCr) && WithoutCr(Output(data, afterCr)) == WithoutCr(data)
    ensures |Output(data, afterCr)| == |data| + BareLineFeeds(data, afterCr)
    ensures RawLines(data, afterCr) ==> Output(data, afterCr) == data
    decreases |data|
  {
    hide RawLines, WithoutCr;
    if data == [] {
      NothingIsRaw(afterCr);
    } else {
      var rest := Output(data[1..], data[0] == CR);
      OutputMeaning(data[1..], data[0] == CR);
      assert [data[0]] + data[1..] == data;
      RawLinesFirst(data[0], data[1..], afterCr);
      WithoutCrFirst(data[0], data[1..]);
      RawLinesFirst(data[0], rest, afterCr);
      WithoutCrFirst(data[0], rest);
      if data[0] == LF && !afterCr {
        assert [CR, LF] + rest == [CR] + ([LF] + rest);
        RawLinesFirst(LF, rest, true);
        RawLinesFirst(CR, [LF] + rest, afterCr);
        WithoutCrFirst(CR, [LF] + rest);
      }
    }
  }

  lemma NothingIsRaw(afterCr: bool)
    ensures RawLines([], afterCr)
  {
  }

  lemma WithoutCrFirst(b: Byte, rest: seq<Byte>)
    ensures WithoutCr([b] + rest) == (if b == CR then [] else [b]) + WithoutCr(rest)
  {
    assert ([b] + rest)[1..] == rest;
  }
}
