/** The protocol by which I/O threads, closers and the codec-hotplug listener share audio stream handles, step by step.

  One direction (input or output) of one audio-stream device is modelled; the other direction is an independent
  copy. A state holds the fields of `AudioStreamData` and of every handle ever opened, and the program counter of
  every thread. One action is one critical section of `AudioStreamData::mutex`, or one operation outside it
  (a semaphore wait, a codec call, a delete).

  The invariant accounts for every handle by the threads that are at work on it: those inside a codec call, the
  closer that waits for them, the closer that has stopped waiting, the listener that waits for them too, the
  listener that has stopped waiting, and the thread that dropped the last reference. It fixes `busy_count`,
  `lifetime_refs` and the state of both semaphores.

  After that come the steps by which a closed handle comes to its end, what is left of a handle that the STOPPED
  handler has severed from its codec, and how a handle or a thread can come to hold on to a codec.
*/
module AudioStreamSteps {

  type Thread = nat
  type HandleId = nat

  /** A codec device; 0 is the null pointer. */
  type Codec = nat

  const NO_CODEC: Codec := 0

  /** `Missing` was never created, `Detached` is an object whose handle field has been nulled. */
  datatype Semaphore = Missing | Live(given: bool) | Detached | Deleted

  datatype Slot = Free | Reserved | Open(handle: HandleId)

  /** A stream handle. `leaked` records that the listener took a lifetime reference without getting a semaphore
      to wait on; `freed` that the memory was deleted. No step reads either of them. */
  datatype Handle = Handle(
    codec: Codec, busy: int, refs: int, closing: bool, listenerClosed: bool,
    drain: Semaphore, listenerDrain: Semaphore, leaked: bool, freed: bool)

  /** Where a thread is, between two critical sections. */
  datatype Pc =
    | Idle
    | Opening(codec: Codec)                    // holds the reservation, opens the codec outside the lock
    | OpenUndo(codec: Codec)                   // gave the reservation up, still has to close the codec
    | IoEntry(h: HandleId)                     // called read or write, io_begin not reached yet
    | IoBusy(h: HandleId, codec: Codec)        // between io_begin and io_end
    | CloseEntry(h: HandleId)                  // called close_stream, its critical section not reached yet
    | CloseWait(h: HandleId, codec: Codec)     // waits on drain_semaphore
    | CloseCodec(h: HandleId, codec: Codec)    // about to call audio_codec_close, if the codec is not null
    | CloseRelease(h: HandleId)                // about to drop the application's reference
    | ListenWait(h: HandleId)                  // waits on listener_drain_semaphore, at most two seconds
    | ListenRelease(h: HandleId)               // about to drop the listener's reference
    | ListenPoll(codec: Codec)                 // polls the reservation, at most two seconds
    | Freeing(h: HandleId)                     // dropped the last reference, about to delete the handle

  datatype State = State(
    codecSlot: Codec, slot: Slot, reservation: Codec, enabled: bool,
    handles: seq<Handle>, pcs: map<Thread, Pc>)

  datatype Action =
    | Bind(codec: Codec)
    | Reserve(t: Thread, codec: Codec)
    | OpenFail(t: Thread)
    | OpenCommit(t: Thread)
    | UndoClose(t: Thread)
    | EnterIo(t: Thread, h: HandleId)
    | IoBegin(t: Thread)
    | IoEnd(t: Thread)
    | EnterClose(t: Thread, h: HandleId)
    | SetEnabled(t: Thread, on: bool)
    | CloseLatch(t: Thread)
    | CloseTake(t: Thread)
    | CallCodecClose(t: Thread)
    | Release(t: Thread)
    | Delete(t: Thread)
    | CodecEvent(t: Thread, stopped: bool, preferred: Codec, created: bool)
    | ListenTake(t: Thread)
    | ListenTimeout(t: Thread)
    | PollReservation(t: Thread, timedOut: bool)

  // ---------------------------------------------------------------------------------------------
  // The critical sections, as functions on values

  const FRESH_DRAIN := Live(false)

  function NewHandle(codec: Codec): Handle {
    Handle(codec, 0, 1, false, false, FRESH_DRAIN, Missing, false, false)
  }

  /** io_begin succeeds only for the handle in the slot, not being closed, with a codec. */
  predicate Admits(slot: Slot, h: HandleId, hd: Handle) {
    slot == Open(h) && !hd.closing && !hd.listenerClosed && hd.codec != NO_CODEC
  }

  function Give(s: Semaphore): Semaphore {
    if s.Live? then Live(true) else s
  }

  function EndIo(hd: Handle): Handle {
    var b := hd.busy - 1;
    hd.(busy := b,
        drain := if b == 0 && hd.closing then Give(hd.drain) else hd.drain,
        listenerDrain := if b == 0 && hd.listenerClosed then Give(hd.listenerDrain) else hd.listenerDrain)
  }

  function Detach(s: Semaphore): Semaphore {
    if s.Live? then Detached else s
  }

  function DropRef(hd: Handle): Handle {
    var r := hd.refs - 1;
    if r == 0 then hd.(refs := r, drain := Detach(hd.drain), listenerDrain := Detach(hd.listenerDrain))
    else hd.(refs := r)
  }

  function LatchSlot(slot: Slot, h: HandleId): Slot {
    if slot == Open(h) then Free else slot
  }

  /** The part of the listener's section that changes the handle found in the slot. */
  function ListenerClose(hd: Handle, current: Codec, stopped: bool, created: bool): Handle {
    var sever := stopped && hd.codec == current;
    var mustDrain := sever && hd.busy > 0;
    hd.(codec := if sever then NO_CODEC else hd.codec,
        listenerClosed := true,
        refs := if mustDrain then hd.refs + 1 else hd.refs,
        listenerDrain := if mustDrain then (if created then Live(false) else Missing) else hd.listenerDrain,
        leaked := hd.leaked || (mustDrain && !created))
  }

  /** Whether the listener waits for the handle's I/O after its section. */
  predicate ListenerWaits(hd: Handle, current: Codec, stopped: bool, created: bool) {
    stopped && hd.codec == current && hd.busy > 0 && created
  }

  function Destroy(hd: Handle): Handle {
    hd.(freed := true,
        drain := if hd.drain == Detached then Deleted else hd.drain,
        listenerDrain := if hd.listenerDrain == Detached then Deleted else hd.listenerDrain)
  }

  // ---------------------------------------------------------------------------------------------
  // The state machine

  function Init(): State {
    State(NO_CODEC, Free, NO_CODEC, true, [], map[])
  }

  function At(s: State, t: Thread): Pc {
    if t in s.pcs then s.pcs[t] else Idle
  }

  /** The handle a program counter refers to exists. */
  predicate Refers(s: State, h: HandleId) {
    h < |s.handles|
  }

  predicate Enabled(s: State, a: Action) {
    match a
    case Bind(_) => s.codecSlot == NO_CODEC
    case Reserve(t, c) => At(s, t) == Idle && c != NO_CODEC && s.enabled && s.slot == Free
    case OpenFail(t) => At(s, t).Opening?
    case OpenCommit(t) => At(s, t).Opening?
    case UndoClose(t) => At(s, t).OpenUndo?
    case EnterIo(t, h) => At(s, t) == Idle && Refers(s, h)
    case IoBegin(t) => At(s, t).IoEntry? && Refers(s, At(s, t).h)
    case IoEnd(t) => At(s, t).IoBusy? && Refers(s, At(s, t).h)
    case EnterClose(t, h) => At(s, t) == Idle && Refers(s, h)
    case SetEnabled(t, _) => At(s, t) == Idle
    case CloseLatch(t) => At(s, t).CloseEntry? && Refers(s, At(s, t).h)
    case CloseTake(t) => At(s, t).CloseWait? && Refers(s, At(s, t).h) && s.handles[At(s, t).h].drain == Live(true)
    case CallCodecClose(t) => At(s, t).CloseCodec?
    case Release(t) => (At(s, t).CloseRelease? || At(s, t).ListenRelease?) && Refers(s, At(s, t).h)
    case Delete(t) => At(s, t).Freeing? && Refers(s, At(s, t).h)
    case CodecEvent(t, _, preferred, _) =>
      && At(s, t) == Idle && preferred != s.codecSlot
      && (s.slot.Open? ==> Refers(s, s.slot.handle))
    case ListenTake(t) =>
      At(s, t).ListenWait? && Refers(s, At(s, t).h) && s.handles[At(s, t).h].listenerDrain == Live(true)
    case ListenTimeout(t) => At(s, t).ListenWait?
    case PollReservation(t, timedOut) =>
      At(s, t).ListenPoll? && (timedOut || s.reservation != At(s, t).codec)
  }

  function Goto(s: State, t: Thread, p: Pc): State {
    s.(pcs := s.pcs[t := p])
  }

  function Next(s: State, a: Action): State
    requires Enabled(s, a)
  {
    match a
    case Bind(c) => s.(codecSlot := c)
    case Reserve(t, c) => Goto(s.(slot := Reserved, reservation := c), t, Opening(c))
    case OpenFail(t) =>
      Goto(s.(slot := if s.slot == Reserved then Free else s.slot, reservation := NO_CODEC), t, Idle)
    case OpenCommit(t) =>
      var c := At(s, t).codec;
      if s.codecSlot != c then
        Goto(s.(slot := if s.slot == Reserved then Free else s.slot, reservation := NO_CODEC), t, OpenUndo(c))
      else
        Goto(s.(slot := Open(|s.handles|), reservation := NO_CODEC, handles := s.handles + [NewHandle(c)]), t, Idle)
    case UndoClose(t) => Goto(s, t, Idle)
    case EnterIo(t, h) => Goto(s, t, IoEntry(h))
    case IoBegin(t) =>
      var h := At(s, t).h;
      var hd := s.handles[h];
      if Admits(s.slot, h, hd) then
        Goto(s.(handles := s.handles[h := hd.(busy := hd.busy + 1)]), t, IoBusy(h, hd.codec))
      else
        Goto(s, t, Idle)
    case IoEnd(t) =>
      var h := At(s, t).h;
      Goto(s.(handles := s.handles[h := EndIo(s.handles[h])]), t, Idle)
    case EnterClose(t, h) => Goto(s, t, CloseEntry(h))
    case SetEnabled(t, on) =>
      Goto(s.(enabled := on), t, if !on && s.slot.Open? then CloseEntry(s.slot.handle) else Idle)
    case CloseLatch(t) =>
      var h := At(s, t).h;
      var hd := s.handles[h];
      if hd.closing then Goto(s, t, Idle)
      else
        Goto(s.(slot := LatchSlot(s.slot, h), handles := s.handles[h := hd.(closing := true)]), t,
             if hd.busy > 0 then CloseWait(h, hd.codec) else CloseCodec(h, hd.codec))
    case CloseTake(t) =>
      var p := At(s, t);
      Goto(s.(handles := s.handles[p.h := s.handles[p.h].(drain := Live(false))]), t, CloseCodec(p.h, p.codec))
    case CallCodecClose(t) => Goto(s, t, CloseRelease(At(s, t).h))
    case Release(t) =>
      var h := At(s, t).h;
      var hd := DropRef(s.handles[h]);
      Goto(s.(handles := s.handles[h := hd]), t, if hd.refs == 0 then Freeing(h) else Idle)
    case Delete(t) =>
      var h := At(s, t).h;
      Goto(s.(handles := s.handles[h := Destroy(s.handles[h])]), t, Idle)
    case CodecEvent(t, stopped, preferred, created) =>
      (match s.slot
       case Free => Goto(s.(codecSlot := preferred), t, Idle)
       case Reserved =>
         Goto(s.(codecSlot := preferred), t,
              if stopped && s.reservation == s.codecSlot then ListenPoll(s.codecSlot) else Idle)
       case Open(h) =>
         var hd := s.handles[h];
         Goto(s.(codecSlot := preferred, slot := Free,
                 handles := s.handles[h := ListenerClose(hd, s.codecSlot, stopped, created)]), t,
              if ListenerWaits(hd, s.codecSlot, stopped, created) then ListenWait(h) else Idle))
    case ListenTake(t) =>
      var h := At(s, t).h;
      Goto(s.(handles := s.handles[h := s.handles[h].(listenerDrain := Live(false))]), t, ListenRelease(h))
    case ListenTimeout(t) => Goto(s, t, ListenRelease(At(s, t).h))
    case PollReservation(t, _) => Goto(s, t, Idle)
  }

  /** The first critical section of an API call: it reads a handle that nothing keeps alive for the caller. */
  predicate FirstSection(s: State, a: Action) {
    (a.IoBegin? && At(s, a.t).IoEntry?) || (a.CloseLatch? && At(s, a.t).CloseEntry?)
  }

  /** An API call whose first section comes after the handle was deleted. */
  predicate Late(s: State, a: Action) {
    && FirstSection(s, a)
    && Refers(s, At(s, a.t).h)
    && s.handles[At(s, a.t).h].freed
  }

  /** The handle whose memory an action reads or writes, if any. */
  function Touches(s: State, a: Action): set<HandleId> {
    match a
    case IoBegin(t) => HandleAt(s, t)
    case IoEnd(t) => HandleAt(s, t)
    case CloseLatch(t) => HandleAt(s, t)
    case CloseTake(t) => HandleAt(s, t)
    case Release(t) => HandleAt(s, t)
    case Delete(t) => HandleAt(s, t)
    case ListenTake(t) => HandleAt(s, t)
    case ListenTimeout(t) => HandleAt(s, t)
    case CodecEvent(_, _, _, _) => if s.slot.Open? then {s.slot.handle} else {}
    case _ => {}
  }

  function HandleOf(p: Pc): set<HandleId> {
    match p
    case IoEntry(h) => {h}
    case IoBusy(h, _) => {h}
    case CloseEntry(h) => {h}
    case CloseWait(h, _) => {h}
    case CloseCodec(h, _) => {h}
    case CloseRelease(h) => {h}
    case ListenWait(h) => {h}
    case ListenRelease(h) => {h}
    case Freeing(h) => {h}
    case _ => {}
  }

  function HandleAt(s: State, t: Thread): set<HandleId> {
    HandleOf(At(s, t))
  }

  /** set_enabled finds the placeholder of an open in progress in the slot, and closes it as if it were a handle. */
  predicate ClosesPlaceholder(s: State, a: Action) {
    a.SetEnabled? && !a.on && s.slot == Reserved
  }

  /** No handle that the action touches has been deleted, and none of them is the placeholder. */
  predicate Sound(s: State, a: Action) {
    !ClosesPlaceholder(s, a) && forall h :: h in Touches(s, a) ==> Refers(s, h) && !s.handles[h].freed
  }

  // ---------------------------------------------------------------------------------------------
  // The invariant

  datatype Role = InIo | Draining | Closing | Listening | Unlistening | Deleting

  predicate Plays(p: Pc, role: Role, h: HandleId) {
    match role
    case InIo => p.IoBusy? && p.h == h
    case Draining => p.CloseWait? && p.h == h
    case Closing => (p.CloseCodec? || p.CloseRelease?) && p.h == h
    case Listening => p.ListenWait? && p.h == h
    case Unlistening => p.ListenRelease? && p.h == h
    case Deleting => p.Freeing? && p.h == h
  }

  /** The threads that play a role on a handle. */
  function Who(pcs: map<Thread, Pc>, role: Role, h: HandleId): set<Thread> {
    set t | t in pcs && Plays(pcs[t], role, h)
  }

  lemma WhoAfter(pcs: map<Thread, Pc>, t: Thread, p: Pc, role: Role, h: HandleId)
    ensures Who(pcs[t := p], role, h) ==
            if Plays(p, role, h) then Who(pcs, role, h) + {t} else Who(pcs, role, h) - {t}
  {}

  function Count(pcs: map<Thread, Pc>, role: Role, h: HandleId): nat {
    |Who(pcs, role, h)|
  }

  function One(b: bool): nat {
    if b then 1 else 0
  }

  predicate RecountedFor(pcs: map<Thread, Pc>, t: Thread, p: Pc, role: Role, h: HandleId) {
    Count(pcs[t := p], role, h) ==
    Count(pcs, role, h) - One(t in pcs && Plays(pcs[t], role, h)) + One(Plays(p, role, h))
  }

  /** How many threads play a role after one thread has moved. */
  lemma CountAfter(pcs: map<Thread, Pc>, t: Thread, p: Pc, role: Role, h: HandleId)
    ensures RecountedFor(pcs, t, p, role, h)
  {
    WhoAfter(pcs, t, p, role, h);
    assert t in Who(pcs, role, h) <==> t in pcs && Plays(pcs[t], role, h);
  }

  /** What holds of one handle, given how many threads play each role on it. */
  predicate Accounted(hd: Handle, io: nat, draining: nat, closing: nat, listening: nat, unlistening: nat,
                      deleting: nat) {
    && hd.busy == io
    && draining + closing <= 1
    && (!hd.closing ==> draining + closing == 0)
    && listening + unlistening + One(hd.leaked) <= 1
    && (listening + unlistening + One(hd.leaked) > 0 ==> hd.listenerClosed)
    && hd.refs == (if hd.closing then draining + closing else 1) + listening + unlistening + One(hd.leaked)
    && deleting <= 1
    && (hd.freed ==> hd.refs == 0 && deleting == 0)
    && (!hd.freed ==> (hd.refs == 0 <==> deleting == 1))
    && (hd.closing && draining == 0 ==> io == 0)
    && hd.drain ==
         (if hd.freed then Deleted else if hd.refs == 0 then Detached else Live(hd.drain.Live? && hd.drain.given))
    && (draining > 0 && io == 0 ==> hd.drain == Live(true))
    && (hd.drain == Live(true) ==> hd.closing && io == 0)
    && (listening > 0 ==> hd.listenerDrain.Live? && (io == 0 ==> hd.listenerDrain.given))
    && (hd.listenerDrain == Live(true) ==> io == 0)
    && (hd.listenerDrain.Live? ==> hd.listenerClosed && hd.refs > 0)
    && (hd.listenerDrain == Detached ==> hd.refs == 0 && !hd.freed)
    && (hd.listenerDrain == Deleted ==> hd.freed)
  }

  predicate HandleInv(hd: Handle, pcs: map<Thread, Pc>, h: HandleId) {
    Accounted(hd, Count(pcs, InIo, h), Count(pcs, Draining, h), Count(pcs, Closing, h),
              Count(pcs, Listening, h), Count(pcs, Unlistening, h), Count(pcs, Deleting, h))
  }

  /** The slot, the reservation and the threads that are opening agree. */
  predicate SlotInv(s: State) {
    && (s.slot.Open? ==>
          && Refers(s, s.slot.handle)
          && var hd := s.handles[s.slot.handle];
             !hd.closing && !hd.listenerClosed && hd.codec == s.codecSlot && hd.codec != NO_CODEC)
    && (s.slot == Reserved <==> s.reservation != NO_CODEC)
    && (forall t :: t in s.pcs && s.pcs[t].Opening? ==>
          s.slot == Reserved && s.pcs[t].codec == s.reservation)
    && (forall t, u :: t in s.pcs && u in s.pcs && s.pcs[t].Opening? && s.pcs[u].Opening? ==> t == u)
  }

  predicate PcsInv(s: State) {
    forall t, h :: t in s.pcs && h in HandleOf(s.pcs[t]) ==> h < |s.handles|
  }

  ghost predicate Inv(s: State) {
    && SlotInv(s)
    && PcsInv(s)
    && forall h :: 0 <= h < |s.handles| ==> HandleInv(s.handles[h], s.pcs, h)
  }

  /** A thread's move that concerns neither its old nor its new handle leaves `h` accounted for. */
  lemma OtherHandleKept(hd: Handle, pcs: map<Thread, Pc>, t: Thread, p: Pc, h: HandleId)
    requires HandleInv(hd, pcs, h)
    requires forall role :: !Plays(p, role, h)
    requires t in pcs ==> forall role :: !Plays(pcs[t], role, h)
    ensures HandleInv(hd, pcs[t := p], h)
  {
    forall role ensures Count(pcs[t := p], role, h) == Count(pcs, role, h) {
      CountAfter(pcs, t, p, role, h);
    }
  }

  /** The role counts of a handle after thread `t` moved to `p`. */
  predicate Recounted(pcs: map<Thread, Pc>, t: Thread, p: Pc, h: HandleId) {
    && RecountedFor(pcs, t, p, InIo, h)
    && RecountedFor(pcs, t, p, Draining, h)
    && RecountedFor(pcs, t, p, Closing, h)
    && RecountedFor(pcs, t, p, Listening, h)
    && RecountedFor(pcs, t, p, Unlistening, h)
    && RecountedFor(pcs, t, p, Deleting, h)
  }

  lemma CountsAfter(pcs: map<Thread, Pc>, t: Thread, p: Pc, h: HandleId)
    ensures Recounted(pcs, t, p, h)
  {
    CountAfter(pcs, t, p, InIo, h);
    CountAfter(pcs, t, p, Draining, h);
    CountAfter(pcs, t, p, Closing, h);
    CountAfter(pcs, t, p, Listening, h);
    CountAfter(pcs, t, p, Unlistening, h);
    CountAfter(pcs, t, p, Deleting, h);
  }

  predicate Unused(pcs: map<Thread, Pc>, h: HandleId) {
    && Count(pcs, InIo, h) == Count(pcs, Draining, h) == Count(pcs, Closing, h) == 0
    && Count(pcs, Listening, h) == Count(pcs, Unlistening, h) == Count(pcs, Deleting, h) == 0
  }

  /** No thread refers to a handle that does not exist yet. */
  lemma NobodyYet(s: State, h: HandleId)
    requires PcsInv(s) && h >= |s.handles|
    ensures Unused(s.pcs, h)
  {
    forall role ensures Count(s.pcs, role, h) == 0 {
      forall t | t in s.pcs ensures !Plays(s.pcs[t], role, h) {
        assert h !in HandleOf(s.pcs[t]);
      }
      assert Who(s.pcs, role, h) == {};
    }
  }

  /** The count is positive where a thread plays the role. */
  lemma Counted(pcs: map<Thread, Pc>, t: Thread, role: Role, h: HandleId)
    requires t in pcs && Plays(pcs[t], role, h)
    ensures Count(pcs, role, h) >= 1
  {
    assert t in Who(pcs, role, h);
  }

  lemma IoBeginKept(hd: Handle, pcs: map<Thread, Pc>, t: Thread, h: HandleId)
    requires HandleInv(hd, pcs, h) && Admits(Open(h), h, hd)
    requires t in pcs && pcs[t] == IoEntry(h)
    ensures HandleInv(hd.(busy := hd.busy + 1), pcs[t := IoBusy(h, hd.codec)], h)
  {
    CountsAfter(pcs, t, IoBusy(h, hd.codec), h);
  }

  lemma IoEndKept(hd: Handle, pcs: map<Thread, Pc>, t: Thread, h: HandleId)
    requires HandleInv(hd, pcs, h)
    requires t in pcs && pcs[t].IoBusy? && pcs[t].h == h
    ensures HandleInv(EndIo(hd), pcs[t := Idle], h)
  {
    CountsAfter(pcs, t, Idle, h);
    Counted(pcs, t, InIo, h);
  }

  lemma CloseLatchKept(hd: Handle, pcs: map<Thread, Pc>, t: Thread, h: HandleId)
    requires HandleInv(hd, pcs, h) && !hd.closing && !hd.freed
    requires t in pcs && pcs[t] == CloseEntry(h)
    ensures HandleInv(hd.(closing := true),
                      pcs[t := if hd.busy > 0 then CloseWait(h, hd.codec) else CloseCodec(h, hd.codec)], h)
  {
    CountsAfter(pcs, t, if hd.busy > 0 then CloseWait(h, hd.codec) else CloseCodec(h, hd.codec), h);
  }

  lemma CloseTakeKept(hd: Handle, pcs: map<Thread, Pc>, t: Thread, h: HandleId)
    requires HandleInv(hd, pcs, h) && hd.drain == Live(true)
    requires t in pcs && pcs[t].CloseWait? && pcs[t].h == h
    ensures HandleInv(hd.(drain := Live(false)), pcs[t := CloseCodec(h, pcs[t].codec)], h)
  {
    CountsAfter(pcs, t, CloseCodec(h, pcs[t].codec), h);
    Counted(pcs, t, Draining, h);
  }

  lemma CodecCloseKept(hd: Handle, pcs: map<Thread, Pc>, t: Thread, h: HandleId)
    requires HandleInv(hd, pcs, h)
    requires t in pcs && pcs[t].CloseCodec? && pcs[t].h == h
    ensures HandleInv(hd, pcs[t := CloseRelease(h)], h)
  {
    CountsAfter(pcs, t, CloseRelease(h), h);
  }

  lemma ReleaseKept(hd: Handle, pcs: map<Thread, Pc>, t: Thread, h: HandleId)
    requires HandleInv(hd, pcs, h)
    requires t in pcs && (pcs[t] == CloseRelease(h) || pcs[t] == ListenRelease(h))
    ensures HandleInv(DropRef(hd), pcs[t := if DropRef(hd).refs == 0 then Freeing(h) else Idle], h)
  {
    CountsAfter(pcs, t, if DropRef(hd).refs == 0 then Freeing(h) else Idle, h);
    Counted(pcs, t, if pcs[t].CloseRelease? then Closing else Unlistening, h);
  }

  lemma DeleteKept(hd: Handle, pcs: map<Thread, Pc>, t: Thread, h: HandleId)
    requires HandleInv(hd, pcs, h)
    requires t in pcs && pcs[t] == Freeing(h)
    ensures HandleInv(Destroy(hd), pcs[t := Idle], h)
  {
    CountsAfter(pcs, t, Idle, h);
    Counted(pcs, t, Deleting, h);
  }

  lemma ListenerCloseKept(hd: Handle, pcs: map<Thread, Pc>, t: Thread, h: HandleId,
                          current: Codec, stopped: bool, created: bool)
    requires HandleInv(hd, pcs, h) && !hd.closing && !hd.listenerClosed
    requires t in pcs ==> pcs[t] == Idle
    ensures HandleInv(ListenerClose(hd, current, stopped, created),
                      pcs[t := if ListenerWaits(hd, current, stopped, created) then ListenWait(h) else Idle], h)
  {
    CountsAfter(pcs, t, if ListenerWaits(hd, current, stopped, created) then ListenWait(h) else Idle, h);
  }

  lemma ListenTakeKept(hd: Handle, pcs: map<Thread, Pc>, t: Thread, h: HandleId)
    requires HandleInv(hd, pcs, h) && hd.listenerDrain == Live(true)
    requires t in pcs && pcs[t] == ListenWait(h)
    ensures HandleInv(hd.(listenerDrain := Live(false)), pcs[t := ListenRelease(h)], h)
  {
    CountsAfter(pcs, t, ListenRelease(h), h);
    Counted(pcs, t, Listening, h);
  }

  lemma ListenTimeoutKept(hd: Handle, pcs: map<Thread, Pc>, t: Thread, h: HandleId)
    requires HandleInv(hd, pcs, h)
    requires t in pcs && pcs[t] == ListenWait(h)
    ensures HandleInv(hd, pcs[t := ListenRelease(h)], h)
  {
    CountsAfter(pcs, t, ListenRelease(h), h);
  }

  /** Does the action change handle `h`, or move a thread that plays a role on it? */
  predicate Concerns(s: State, a: Action, h: HandleId) {
    match a
    case IoBegin(t) => h in HandleAt(s, t)
    case IoEnd(t) => h in HandleAt(s, t)
    case CloseLatch(t) => h in HandleAt(s, t)
    case CloseTake(t) => h in HandleAt(s, t)
    case CallCodecClose(t) => h in HandleAt(s, t)
    case Release(t) => h in HandleAt(s, t)
    case Delete(t) => h in HandleAt(s, t)
    case ListenTake(t) => h in HandleAt(s, t)
    case ListenTimeout(t) => h in HandleAt(s, t)
    case CodecEvent(_, _, _, _) => s.slot == Open(h)
    case _ => false
  }

  lemma UnconcernedUnchanged(s: State, a: Action, h: HandleId)
    requires Enabled(s, a) && h < |s.handles| && !Concerns(s, a, h)
    ensures h < |Next(s, a).handles| && Next(s, a).handles[h] == s.handles[h]
  {
  }

  lemma UnconcernedPlaysNothing(s: State, a: Action, h: HandleId, role: Role)
    requires Enabled(s, a) && h < |s.handles| && !Concerns(s, a, h) && !a.Bind?
    ensures Next(s, a).pcs == s.pcs[a.t := Next(s, a).pcs[a.t]]
    ensures !Plays(Next(s, a).pcs[a.t], role, h)
    ensures a.t in s.pcs ==> !Plays(s.pcs[a.t], role, h)
  {
  }

  lemma UnconcernedKept(s: State, a: Action, h: HandleId)
    requires Inv(s) && Enabled(s, a) && h < |s.handles| && !Concerns(s, a, h)
    ensures h < |Next(s, a).handles| && HandleInv(Next(s, a).handles[h], Next(s, a).pcs, h)
  {
    UnconcernedUnchanged(s, a, h);
    if a.Bind? {
      assert Next(s, a).pcs == s.pcs;
    } else {
      hide Next, Enabled, Concerns, HandleInv, SlotInv, Plays;
      forall role ensures Next(s, a).pcs == s.pcs[a.t := Next(s, a).pcs[a.t]]
                          && !Plays(Next(s, a).pcs[a.t], role, h)
                          && (a.t in s.pcs ==> !Plays(s.pcs[a.t], role, h))
      {
        UnconcernedPlaysNothing(s, a, h, role);
      }
      UnconcernedPlaysNothing(s, a, h, InIo);
      OtherHandleKept(s.handles[h], s.pcs, a.t, Next(s, a).pcs[a.t], h);
    }
  }

  lemma IoStepKept(s: State, a: Action, h: HandleId)
    requires Inv(s) && Enabled(s, a) && h < |s.handles| && Concerns(s, a, h)
    requires a.IoBegin? || a.IoEnd?
    ensures HandleInv(Next(s, a).handles[h], Next(s, a).pcs, h)
  {
    var hd := s.handles[h];
    if a.IoEnd? {
      IoEndKept(hd, s.pcs, a.t, h);
    } else if Admits(s.slot, h, hd) {
      IoBeginKept(hd, s.pcs, a.t, h);
    } else {
      OtherHandleKept(hd, s.pcs, a.t, Idle, h);
    }
  }

  lemma CloseLatchStepKept(s: State, a: Action, h: HandleId)
    requires Inv(s) && Enabled(s, a) && Sound(s, a) && h < |s.handles| && Concerns(s, a, h)
    requires a.CloseLatch?
    ensures HandleInv(Next(s, a).handles[h], Next(s, a).pcs, h)
  {
    var hd := s.handles[h];
    assert h in Touches(s, a);
    if hd.closing {
      OtherHandleKept(hd, s.pcs, a.t, Idle, h);
    } else {
      CloseLatchKept(hd, s.pcs, a.t, h);
    }
  }

  lemma CloseStepKept(s: State, a: Action, h: HandleId)
    requires Inv(s) && Enabled(s, a) && h < |s.handles| && Concerns(s, a, h)
    requires a.CloseTake? || a.CallCodecClose?
    ensures HandleInv(Next(s, a).handles[h], Next(s, a).pcs, h)
  {
    var hd := s.handles[h];
    if a.CloseTake? { CloseTakeKept(hd, s.pcs, a.t, h); } else { CodecCloseKept(hd, s.pcs, a.t, h); }
  }

  lemma ReleaseStepKept(s: State, a: Action, h: HandleId)
    requires Inv(s) && Enabled(s, a) && h < |s.handles| && Concerns(s, a, h)
    requires a.Release? || a.Delete?
    ensures HandleInv(Next(s, a).handles[h], Next(s, a).pcs, h)
  {
    var hd := s.handles[h];
    if a.Release? { ReleaseKept(hd, s.pcs, a.t, h); } else { DeleteKept(hd, s.pcs, a.t, h); }
  }

  lemma ListenerStepKept(s: State, a: Action, h: HandleId)
    requires Inv(s) && Enabled(s, a) && h < |s.handles| && Concerns(s, a, h)
    requires a.ListenTake? || a.ListenTimeout?
    ensures HandleInv(Next(s, a).handles[h], Next(s, a).pcs, h)
  {
    var hd := s.handles[h];
    if a.ListenTake? { ListenTakeKept(hd, s.pcs, a.t, h); } else { ListenTimeoutKept(hd, s.pcs, a.t, h); }
  }

  lemma CodecEventKept(s: State, a: Action, h: HandleId)
    requires Inv(s) && Enabled(s, a) && h < |s.handles| && Concerns(s, a, h)
    requires a.CodecEvent?
    ensures HandleInv(Next(s, a).handles[h], Next(s, a).pcs, h)
  {
    ListenerCloseKept(s.handles[h], s.pcs, a.t, h, s.codecSlot, a.stopped, a.created);
  }

  lemma FreshHandleKept(pcs: map<Thread, Pc>, t: Thread, c: Codec, h: HandleId)
    requires t in pcs && pcs[t] == Opening(c)
    requires Unused(pcs, h)
    ensures HandleInv(NewHandle(c), pcs[t := Idle], h)
  {
    CountsAfter(pcs, t, Idle, h);
  }

  lemma NewHandleKept(s: State, a: Action)
    requires Inv(s) && Enabled(s, a) && a.OpenCommit? && |Next(s, a).handles| > |s.handles|
    ensures HandleInv(Next(s, a).handles[|s.handles|], Next(s, a).pcs, |s.handles|)
  {
    var h := |s.handles|;
    NobodyYet(s, h);
    FreshHandleKept(s.pcs, a.t, At(s, a.t).codec, h);
    assert Next(s, a).handles[h] == NewHandle(At(s, a.t).codec);
  }

  /** Every action keeps the handle it works on, and every other handle, accounted for. */
  lemma StepKeepsHandle(s: State, a: Action, h: HandleId)
    requires Inv(s) && Enabled(s, a) && Sound(s, a) && h < |Next(s, a).handles|
    ensures HandleInv(Next(s, a).handles[h], Next(s, a).pcs, h)
  {
    if h == |s.handles| {
      NewHandleKept(s, a);
    } else if !Concerns(s, a, h) {
      UnconcernedKept(s, a, h);
    } else if a.IoBegin? || a.IoEnd? {
      IoStepKept(s, a, h);
    } else if a.CloseLatch? {
      CloseLatchStepKept(s, a, h);
    } else if a.CloseTake? || a.CallCodecClose? {
      CloseStepKept(s, a, h);
    } else if a.Release? || a.Delete? {
      ReleaseStepKept(s, a, h);
    } else if a.CodecEvent? {
      CodecEventKept(s, a, h);
    } else {
      ListenerStepKept(s, a, h);
    }
  }

  lemma OpenStepKeepsSlot(s: State, a: Action)
    requires Inv(s) && Enabled(s, a) && (a.Bind? || a.Reserve? || a.OpenFail? || a.OpenCommit?)
    ensures SlotInv(Next(s, a))
  {
  }

  lemma CloseStepKeepsSlot(s: State, a: Action)
    requires Inv(s) && Enabled(s, a) && (a.SetEnabled? || a.CloseLatch? || a.CodecEvent?)
    ensures SlotInv(Next(s, a))
  {
  }

  /** The remaining actions leave the slot, the reservation and what the slot's handle says about itself alone. */
  predicate LeavesSlot(a: Action) {
    a.UndoClose? || a.EnterIo? || a.IoBegin? || a.IoEnd? || a.EnterClose? || a.CloseTake?
    || a.CallCodecClose? || a.Release? || a.Delete? || a.ListenTake? || a.ListenTimeout? || a.PollReservation?
  }

  lemma SlotStays(s: State, a: Action)
    requires Enabled(s, a) && LeavesSlot(a)
    ensures var s' := Next(s, a);
      s'.slot == s.slot && s'.reservation == s.reservation && s'.codecSlot == s.codecSlot && |s'.handles| == |s.handles|
    ensures s.slot.Open? && Refers(s, s.slot.handle) ==>
      var hd, hd' := s.handles[s.slot.handle], Next(s, a).handles[s.slot.handle];
      hd'.closing == hd.closing && hd'.listenerClosed == hd.listenerClosed && hd'.codec == hd.codec
  {
  }

  lemma OpeningStays(s: State, a: Action, u: Thread)
    requires Enabled(s, a) && LeavesSlot(a) && u in Next(s, a).pcs && Next(s, a).pcs[u].Opening?
    ensures u in s.pcs && s.pcs[u] == Next(s, a).pcs[u]
  {
  }

  /** The placeholder stays with the thread that is opening. */
  lemma OpenerStays(s: State, a: Action)
    requires SlotInv(s) && Enabled(s, a) && Sound(s, a)
    requires s.slot == Reserved ==> exists t :: At(s, t) == Opening(s.reservation)
    ensures Next(s, a).slot == Reserved ==> exists t :: At(Next(s, a), t) == Opening(Next(s, a).reservation)
  {
    var s' := Next(s, a);
    if a.Reserve? {
      assert At(s', a.t) == Opening(s'.reservation);
    } else if s.slot == Reserved && s'.slot == Reserved {
      var t :| At(s, t) == Opening(s.reservation);
      assert t in s.pcs;
      assert At(s', t) == Opening(s'.reservation);
    }
  }

  lemma OtherStepKeepsSlot(s: State, a: Action)
    requires SlotInv(s) && Enabled(s, a) && LeavesSlot(a)
    ensures SlotInv(Next(s, a))
  {
    hide Next, Enabled, LeavesSlot;
    SlotStays(s, a);
    forall u | u in Next(s, a).pcs && Next(s, a).pcs[u].Opening?
      ensures u in s.pcs && s.pcs[u] == Next(s, a).pcs[u]
    {
      OpeningStays(s, a, u);
    }
  }

  lemma StepKeepsSlot(s: State, a: Action)
    requires Inv(s) && Enabled(s, a)
    ensures SlotInv(Next(s, a))
  {
    hide Next, SlotInv, PcsInv, HandleInv, Enabled;
    if a.Bind? || a.Reserve? || a.OpenFail? || a.OpenCommit? {
      OpenStepKeepsSlot(s, a);
    } else if a.SetEnabled? || a.CloseLatch? || a.CodecEvent? {
      CloseStepKeepsSlot(s, a);
    } else {
      OtherStepKeepsSlot(s, a);
    }
  }

  lemma HandlesGrow(s: State, a: Action)
    requires Enabled(s, a)
    ensures |s.handles| <= |Next(s, a).handles|
  {
  }

  /** A thread moves to a handle it was at, to the one it was handed, or to the one in the slot. */
  lemma TargetExists(s: State, a: Action, h: HandleId)
    requires Enabled(s, a) && PcsInv(s) && SlotInv(s) && !a.Bind?
    requires h in HandleOf(Next(s, a).pcs[a.t])
    ensures h < |s.handles|
  {
    if !a.EnterIo? && !a.EnterClose? && !a.SetEnabled? && !a.CodecEvent? {
      assert h in HandleOf(s.pcs[a.t]);
    }
  }

  lemma OthersStay(s: State, a: Action, t: Thread)
    requires Enabled(s, a) && (a.Bind? || t != a.t)
    ensures t in Next(s, a).pcs <==> t in s.pcs
    ensures t in s.pcs ==> Next(s, a).pcs[t] == s.pcs[t]
  {
  }

  lemma StepKeepsPcs(s: State, a: Action)
    requires Inv(s) && Enabled(s, a)
    ensures PcsInv(Next(s, a))
  {
    hide Next, Enabled, HandleInv;
    HandlesGrow(s, a);
    var s' := Next(s, a);
    forall t, h | t in s'.pcs && h in HandleOf(s'.pcs[t]) ensures h < |s'.handles| {
      if a.Bind? || t != a.t {
        OthersStay(s, a, t);
      } else {
        TargetExists(s, a, h);
      }
    }
  }

  lemma StepKeepsInv(s: State, a: Action)
    requires Inv(s) && Enabled(s, a) && Sound(s, a)
    ensures Inv(Next(s, a))
  {
    forall h | 0 <= h < |Next(s, a).handles| ensures HandleInv(Next(s, a).handles[h], Next(s, a).pcs, h) {
      StepKeepsHandle(s, a, h);
    }
    StepKeepsSlot(s, a);
    StepKeepsPcs(s, a);
  }

  // ---------------------------------------------------------------------------------------------
  // Which steps can meet a deleted handle

  /** A handle somebody still works on is not freed. */
  lemma WorkedOnIsAlive(s: State, t: Thread, h: HandleId)
    requires Inv(s) && t in s.pcs && h < |s.handles|
    requires h in HandleOf(s.pcs[t]) && !s.pcs[t].IoEntry? && !s.pcs[t].CloseEntry?
    ensures !s.handles[h].freed
  {
    var p := s.pcs[t];
    assert HandleInv(s.handles[h], s.pcs, h);
    Counted(s.pcs, t,
      if p.IoBusy? then InIo else if p.CloseWait? then Draining
      else if p.CloseCodec? || p.CloseRelease? then Closing
      else if p.ListenWait? then Listening else if p.ListenRelease? then Unlistening else Deleting, h);
  }

  /** The thread is in a call on the handle that has not reached its first section. */
  predicate Waiting(s: State, u: Thread, h: HandleId) {
    At(s, u) == IoEntry(h) || At(s, u) == CloseEntry(h)
  }

  /** Nobody calls read, write or close on a handle once a close of it has won, and a close wins while no other call on
      the handle is before its first section. Handles whose last reference the listener leaked are never deleted, and do
      not matter. A direction is not disabled while it is being opened. */
  ghost predicate Orderly(s: State, a: Action) {
    match a
    case EnterIo(_, h) => Refers(s, h) ==> !s.handles[h].closing || s.handles[h].leaked
    case EnterClose(_, h) => Refers(s, h) ==> !s.handles[h].closing || s.handles[h].leaked
    case CloseLatch(t) =>
      At(s, t).CloseEntry? && Refers(s, At(s, t).h) ==>
        s.handles[At(s, t).h].closing || s.handles[At(s, t).h].leaked ||
        forall u: Thread :: Waiting(s, u, At(s, t).h) ==> u == t
    case SetEnabled(_, on) => on || s.slot != Reserved
    case _ => true
  }

  ghost predicate NoneOvertaken(s: State) {
    forall u: Thread, h: HandleId :: Refers(s, h) && Waiting(s, u, h) ==> !s.handles[h].closing || s.handles[h].leaked
  }

  lemma LeakedIsNotFreed(s: State, h: HandleId)
    requires Inv(s) && Refers(s, h) && (!s.handles[h].closing || s.handles[h].leaked)
    ensures !s.handles[h].freed
  {
    assert HandleInv(s.handles[h], s.pcs, h);
  }

  /** Only the first section of a call can meet a deleted handle. */
  lemma OnlyFirstSections(s: State, a: Action)
    requires Inv(s) && Enabled(s, a)
    ensures Sound(s, a) <==> !Late(s, a) && !ClosesPlaceholder(s, a)
  {
    if !FirstSection(s, a) {
      forall h | h in Touches(s, a) ensures Refers(s, h) && !s.handles[h].freed {
        if a.CodecEvent? {
          assert HandleInv(s.handles[h], s.pcs, h);
        } else {
          WorkedOnIsAlive(s, a.t, h);
        }
      }
    }
  }

  lemma OrderlyIsSound(s: State, a: Action)
    requires Inv(s) && Enabled(s, a) && NoneOvertaken(s) && Orderly(s, a)
    ensures Sound(s, a)
  {
    hide Inv;
    OnlyFirstSections(s, a);
    if FirstSection(s, a) {
      assert Waiting(s, a.t, At(s, a.t).h);
      LeakedIsNotFreed(s, At(s, a.t).h);
    }
  }

  /** A thread comes to the entry of a call by entering it, or through set_enabled. */
  lemma WaitingAfter(s: State, a: Action, u: Thread, h: HandleId)
    requires Enabled(s, a) && Waiting(Next(s, a), u, h)
    ensures (Waiting(s, u, h) && (!a.Bind? ==> a.t != u))
            || (!a.Bind? && a.t == u && ((a.EnterIo? && a.h == h) || (a.EnterClose? && a.h == h)
                                         || (a.SetEnabled? && s.slot == Open(h))))
  {
    if a.Bind? || a.t != u { OthersStay(s, a, u); }
  }

  /** A handle is closing from the close that wins. */
  lemma ClosingAfter(s: State, a: Action, h: HandleId)
    requires Enabled(s, a) && h < |Next(s, a).handles| && Next(s, a).handles[h].closing
    ensures h < |s.handles| && (s.handles[h].leaked ==> Next(s, a).handles[h].leaked)
    ensures s.handles[h].closing || (a.CloseLatch? && At(s, a.t) == CloseEntry(h))
  {
  }

  lemma OrderlyStep(s: State, a: Action)
    requires Inv(s) && Enabled(s, a) && NoneOvertaken(s) && Orderly(s, a)
    ensures NoneOvertaken(Next(s, a))
  {
    var s' := Next(s, a);
    hide Next, Enabled, HandleInv, PcsInv;
    forall u: Thread, h: HandleId | Refers(s', h) && Waiting(s', u, h) && s'.handles[h].closing
      ensures s'.handles[h].leaked {
      WaitingAfter(s, a, u, h);
      ClosingAfter(s, a, h);
    }
  }

  lemma InitInv()
    ensures Inv(Init()) && NoneOvertaken(Init())
  {
  }

  // --- a handle that is closing comes to its end

  function CodecClosers(pcs: map<Thread, Pc>, h: HandleId): set<Thread> {
    set t | t in pcs && pcs[t].CloseCodec? && pcs[t].h == h
  }

  /** A handle that is being closed and will be deleted. */
  predicate Ending(s: State, h: HandleId) {
    Refers(s, h) && s.handles[h].closing && !s.handles[h].leaked
  }

  function Waits(s: State, h: HandleId): nat {
    Count(s.pcs, Draining, h) + Count(s.pcs, Listening, h)
  }

  lemma SomebodyWorks(s: State, h: HandleId) returns (t: Thread)
    requires Inv(s) && Ending(s, h) && !s.handles[h].freed
    ensures t in s.pcs && h in HandleOf(s.pcs[t]) && !Waiting(s, t, h)
    ensures s.handles[h].busy > 0 ==> s.pcs[t].IoBusy?
  {
    var hd := s.handles[h];
    assert HandleInv(hd, s.pcs, h);
    var role := if hd.busy > 0 then InIo
      else if Count(s.pcs, Draining, h) > 0 then Draining else if Count(s.pcs, Closing, h) > 0 then Closing
      else if Count(s.pcs, Listening, h) > 0 then Listening else if Count(s.pcs, Unlistening, h) > 0 then Unlistening
      else Deleting;
    assert Who(s.pcs, role, h) != {};
    t :| t in Who(s.pcs, role, h);
  }

  /** The thread's next action on a handle without I/O in flight, or the end of its own I/O. */
  function NextAction(p: Pc, t: Thread): Action {
    match p
    case IoBusy(_, _) => IoEnd(t)
    case CloseWait(_, _) => CloseTake(t)
    case CloseCodec(_, _) => CallCodecClose(t)
    case ListenWait(_) => ListenTake(t)
    case Freeing(_) => Delete(t)
    case _ => Release(t)
  }

  lemma CanGoOn(s: State, h: HandleId, t: Thread)
    requires Inv(s) && Refers(s, h) && t in s.pcs && h in HandleOf(s.pcs[t]) && !Waiting(s, t, h)
    requires s.handles[h].busy > 0 ==> s.pcs[t].IoBusy?
    ensures Enabled(s, NextAction(s.pcs[t], t)) && Sound(s, NextAction(s.pcs[t], t))
  {
    var p := s.pcs[t];
    assert HandleInv(s.handles[h], s.pcs, h);
    if p.CloseWait? { Counted(s.pcs, t, Draining, h); }
    if p.ListenWait? { Counted(s.pcs, t, Listening, h); }
    WorkedOnIsAlive(s, t, h);
  }

  /** One such action brings the handle closer to its end. */
  lemma ComesCloser(s: State, h: HandleId, t: Thread)
    requires Ending(s, h) && t in s.pcs && h in HandleOf(s.pcs[t]) && !Waiting(s, t, h)
    requires Enabled(s, NextAction(s.pcs[t], t))
    ensures var s' := Next(s, NextAction(s.pcs[t], t));
      && Ending(s', h)
      && (s'.handles[h].freed
          || s'.handles[h].busy < s.handles[h].busy
          || (s'.handles[h].busy == s.handles[h].busy &&
              (Waits(s', h) < Waits(s, h)
               || (Waits(s', h) == Waits(s, h) &&
                   (CodecClosers(s'.pcs, h) < CodecClosers(s.pcs, h)
                    || (CodecClosers(s'.pcs, h) == CodecClosers(s.pcs, h) &&
                         s'.handles[h].refs < s.handles[h].refs))))))
  {
    var p, s' := s.pcs[t], Next(s, NextAction(s.pcs[t], t));
    assert s'.pcs == s.pcs[t := s'.pcs[t]];
    CountAfter(s.pcs, t, s'.pcs[t], Draining, h);
    CountAfter(s.pcs, t, s'.pcs[t], Listening, h);
    assert p.CloseCodec? ==> t in CodecClosers(s.pcs, h) && t !in CodecClosers(s'.pcs, h);
  }

  lemma NextActor(p: Pc, t: Thread)
    ensures !NextAction(p, t).Bind? && NextAction(p, t).t == t
  {
  }

  lemma DisorderIsSound(s: State, a: Action)
    requires Inv(s) && Enabled(s, a) && !Orderly(s, a)
    ensures Sound(s, a) <==> !a.SetEnabled?
  {
    if a.CloseLatch? { LeakedIsNotFreed(s, At(s, a.t).h); }
  }

  lemma LateIsUnsound(s: State, u: Thread, h: HandleId)
    requires Waiting(s, u, h) && Refers(s, h) && s.handles[h].freed
    ensures var late := if At(s, u).IoEntry? then IoBegin(u) else CloseLatch(u); Enabled(s, late) && !Sound(s, late)
  {
    assert h in Touches(s, if At(s, u).IoEntry? then IoBegin(u) else CloseLatch(u));
  }

  lemma StepKeepsFreed(s: State, a: Action, h: HandleId)
    requires Enabled(s, a) && h < |s.handles| && s.handles[h].freed
    ensures h < |Next(s, a).handles| && Next(s, a).handles[h].freed
  {
  }

  // ---------------------------------------------------------------------------------------------
  // The STOPPED handler

  /** The handle no longer leads to a codec: not itself, not through the slot, not through a closer that already
      captured its codec. */
  ghost predicate Severed(s: State, h: HandleId) {
    && h < |s.handles|
    && s.handles[h].codec == NO_CODEC
    && s.handles[h].listenerClosed
    && s.slot != Open(h)
    && forall t :: t in s.pcs && (s.pcs[t].CloseWait? || s.pcs[t].CloseCodec?) && s.pcs[t].h == h ==>
         s.pcs[t].codec == NO_CODEC
  }

  /** Nor is any I/O in flight on it. */
  ghost predicate Quiet(s: State, h: HandleId) {
    && Severed(s, h)
    && forall t :: t in s.pcs && s.pcs[t].IoBusy? ==> s.pcs[t].h != h
  }

  lemma NoIoWhenNotBusy(s: State, h: HandleId)
    requires Inv(s) && h < |s.handles| && s.handles[h].busy == 0
    ensures forall t :: t in s.pcs && s.pcs[t].IoBusy? ==> s.pcs[t].h != h
  {
    assert HandleInv(s.handles[h], s.pcs, h);
    forall t | t in s.pcs && s.pcs[t].IoBusy? ensures s.pcs[t].h != h {
      if s.pcs[t].h == h { Counted(s.pcs, t, InIo, h); }
    }
  }

  lemma StoppedSevers(s: State, a: Action, h: HandleId)
    requires Inv(s) && Enabled(s, a) && a.CodecEvent? && a.stopped && s.slot == Open(h)
    ensures Severed(Next(s, a), h)
    ensures s.handles[h].busy == 0 ==> Quiet(Next(s, a), h)
  {
    assert HandleInv(s.handles[h], s.pcs, h);
    forall t | t in s.pcs && (s.pcs[t].CloseWait? || s.pcs[t].CloseCodec?) ensures s.pcs[t].h != h {
      if s.pcs[t].h == h { Counted(s.pcs, t, if s.pcs[t].CloseWait? then Draining else Closing, h); }
    }
    if s.handles[h].busy == 0 { NoIoWhenNotBusy(s, h); }
  }

  lemma StepKeepsSeveredHandle(s: State, a: Action, h: HandleId)
    requires Enabled(s, a) && Severed(s, h)
    ensures h < |Next(s, a).handles| && Next(s, a).slot != Open(h)
    ensures Next(s, a).handles[h].codec == NO_CODEC && Next(s, a).handles[h].listenerClosed
  {
  }

  lemma SeveredTarget(s: State, a: Action, h: HandleId)
    requires Enabled(s, a) && Severed(s, h) && !a.Bind?
    ensures var p := Next(s, a).pcs[a.t];
      && (p.IoBusy? ==> p.h != h)
      && ((p.CloseWait? || p.CloseCodec?) && p.h == h ==> p.codec == NO_CODEC)
  {
  }

  lemma StepKeepsSevered(s: State, a: Action, h: HandleId)
    requires Enabled(s, a) && Severed(s, h)
    ensures Severed(Next(s, a), h)
    ensures Quiet(s, h) ==> Quiet(Next(s, a), h)
  {
    hide Next, Enabled;
    StepKeepsSeveredHandle(s, a, h);
    if !a.Bind? { SeveredTarget(s, a, h); }
    forall t | a.Bind? || t != a.t
      ensures t in Next(s, a).pcs <==> t in s.pcs
      ensures t in s.pcs ==> Next(s, a).pcs[t] == s.pcs[t]
    {
      OthersStay(s, a, t);
    }
  }

  /** A listener whose wait is answered finds no I/O in flight. */
  lemma AnsweredWaitMeansIdle(s: State, t: Thread, h: HandleId)
    requires Inv(s) && Enabled(s, ListenTake(t)) && At(s, t) == ListenWait(h)
    ensures forall u :: u in s.pcs && s.pcs[u].IoBusy? ==> s.pcs[u].h != h
  {
    hide SlotInv, PcsInv;
    assert HandleInv(s.handles[h], s.pcs, h);
    NoIoWhenNotBusy(s, h);
  }

  // --- the codec that has stopped

  /** The thread is inside an I/O call of the codec, or a close that has captured it has not called it yet. */
  predicate Holds(p: Pc, c: Codec) {
    (p.IoBusy? || p.CloseWait? || p.CloseCodec?) && p.codec == c
  }

  predicate CodecQuiet(s: State, c: Codec) {
    forall t :: t in s.pcs ==> !Holds(s.pcs[t], c)
  }

  /** A handle outside of the slot that still leads to the codec: its close will call it. */
  predicate Loose(s: State, h: HandleId, c: Codec) {
    h < |s.handles| && s.handles[h].codec == c && !s.handles[h].closing && s.slot != Open(h)
  }

  ghost predicate LeftBehind(s: State, c: Codec) {
    !CodecQuiet(s, c) || exists h :: Loose(s, h, c)
  }

  /** An action that binds nothing to the codec. */
  lemma HoldsAfter(s: State, a: Action, c: Codec, t: Thread)
    requires SlotInv(s) && Enabled(s, a) && s.codecSlot != c && c != NO_CODEC
    requires t in Next(s, a).pcs && Holds(Next(s, a).pcs[t], c)
    ensures (t in s.pcs && Holds(s.pcs[t], c)) || exists h :: Loose(s, h, c)
  {
    if a.Bind? || a.t != t {
      OthersStay(s, a, t);
    } else if a.CloseLatch? {
      assert Loose(s, At(s, t).h, c);
    }
  }

  lemma LooseAfter(s: State, a: Action, c: Codec, h: HandleId)
    requires SlotInv(s) && Enabled(s, a) && s.codecSlot != c && c != NO_CODEC && Loose(Next(s, a), h, c)
    ensures Loose(s, h, c)
  {
  }

  lemma NothingIsLeftBehind(s: State, a: Action, c: Codec)
    requires Inv(s) && Enabled(s, a) && s.codecSlot != c && c != NO_CODEC && !LeftBehind(s, c)
    ensures !LeftBehind(Next(s, a), c)
  {
    hide Next, Enabled, SlotInv, HandleInv, PcsInv, Loose, Holds;
    var s' := Next(s, a);
    forall t | t in s'.pcs ensures !Holds(s'.pcs[t], c) {
      if Holds(s'.pcs[t], c) { HoldsAfter(s, a, c, t); }
    }
    forall h ensures !Loose(s', h, c) {
      if Loose(s', h, c) { LooseAfter(s, a, c, h); }
    }
  }

  lemma {:induction false} UnusedThread(pcs: map<Thread, Pc>) returns (t: Thread)
    ensures t !in pcs
  {
    t := 0;
    ghost var below: set<Thread> := {};
    while t in pcs
      invariant below <= pcs.Keys && |below| == t && forall u: Thread :: u < t <==> u in below
      decreases |pcs.Keys| - t
    {
      below := below + {t};
      Fewer(below, pcs.Keys);
      t := t + 1;
    }
  }

  lemma {:induction false} Fewer(a: set<Thread>, b: set<Thread>)
    requires a <= b
    ensures |a| <= |b|
    decreases |a|
  {
    if x :| x in a { Fewer(a - {x}, b - {x}); }
  }

  lemma CloseLatched(s: State, t: Thread, h: HandleId, c: Codec) returns (s1: State, s2: State)
    requires t !in s.pcs && Loose(s, h, c) && !s.handles[h].freed
    ensures Enabled(s, EnterClose(t, h)) && Sound(s, EnterClose(t, h)) && s1 == Next(s, EnterClose(t, h))
    ensures Enabled(s1, CloseLatch(t)) && Sound(s1, CloseLatch(t)) && s2 == Next(s1, CloseLatch(t))
    ensures s1.codecSlot == s.codecSlot && t in s2.pcs && Holds(s2.pcs[t], c)
  {
    s1 := Next(s, EnterClose(t, h));
    s2 := Next(s1, CloseLatch(t));
  }

  // --- what can have been left behind, told by the events before

  datatype Way = ByStarted | ByStopped | ByClose

  /** The handle leaves the slot while the codec is bound. */
  predicate Leaves(s: State, a: Action, h: HandleId, c: Codec, w: Way) {
    && s.slot == Open(h) && s.codecSlot == c
    && match w
       case ByStarted => a.CodecEvent? && !a.stopped
       case ByStopped => a.CodecEvent? && a.stopped
       case ByClose => a.CloseLatch? && At(s, a.t) == CloseEntry(h)
  }

  predicate InSlot(s: State, h: HandleId, c: Codec) {
    s.slot == Open(h) && h < |s.handles| && s.handles[h].codec == c
  }

  predicate DoesIo(s: State, t: Thread, h: HandleId, c: Codec) {
    t in s.pcs && s.pcs[t] == IoBusy(h, c)
  }

  predicate ClosesInto(s: State, t: Thread, h: HandleId, c: Codec) {
    t in s.pcs && (s.pcs[t] == CloseWait(h, c) || s.pcs[t] == CloseCodec(h, c))
  }

  lemma SlotAfter(s: State, a: Action, h: HandleId, c: Codec) returns (w: Way)
    requires SlotInv(s) && Enabled(s, a) && InSlot(s, h, c)
    ensures InSlot(Next(s, a), h, c) || Leaves(s, a, h, c, w)
  {
    w := if !a.CodecEvent? then ByClose else if a.stopped then ByStopped else ByStarted;
  }

  lemma IoAfter(s: State, a: Action, t: Thread, h: HandleId, c: Codec)
    requires Enabled(s, a) && DoesIo(Next(s, a), t, h, c)
    ensures DoesIo(s, t, h, c) || (InSlot(s, h, c) && InSlot(Next(s, a), h, c))
  {
    if a.Bind? || a.t != t { OthersStay(s, a, t); }
  }

  lemma CloseAfter(s: State, a: Action, t: Thread, h: HandleId, c: Codec)
    requires SlotInv(s) && Enabled(s, a) && ClosesInto(Next(s, a), t, h, c)
    ensures ClosesInto(s, t, h, c) || Loose(s, h, c) || Leaves(s, a, h, c, ByClose)
  {
    if a.Bind? || a.t != t { OthersStay(s, a, t); }
  }

  lemma LooseSince(s: State, a: Action, h: HandleId, c: Codec)
    requires SlotInv(s) && Enabled(s, a) && Loose(Next(s, a), h, c) && c != NO_CODEC
    ensures Loose(s, h, c) || Leaves(s, a, h, c, ByStarted)
  {
  }

  lemma NothingAtFirst(h: HandleId, c: Codec)
    ensures !Loose(Init(), h, c)
  {
  }

  predicate Finishes(p: Pc, h: HandleId) {
    (p.CloseWait? || p.CloseCodec?) && p.h == h
  }

  lemma StepKeepsClosing(s: State, a: Action, h: HandleId)
    requires Enabled(s, a) && h < |s.handles| && s.handles[h].closing
    ensures h < |Next(s, a).handles| && Next(s, a).handles[h].closing
  {
  }

  lemma ClosedByLeaving(s: State, a: Action, h: HandleId, c: Codec)
    requires Enabled(s, a) && Leaves(s, a, h, c, ByClose)
    ensures h < |Next(s, a).handles| && Next(s, a).handles[h].closing
  {
  }

  /** While I/O is in flight on a closed handle its closer waits. */
  lemma CloserWaits(s: State, t: Thread, h: HandleId, c: Codec)
    requires Inv(s) && DoesIo(s, t, h, c) && h < |s.handles| && s.handles[h].closing
    ensures exists u :: u in s.pcs && Finishes(s.pcs[u], h)
  {
    assert HandleInv(s.handles[h], s.pcs, h);
    Counted(s.pcs, t, InIo, h);
    assert Who(s.pcs, Draining, h) != {};
    var u :| u in Who(s.pcs, Draining, h);
    assert Finishes(s.pcs[u], h);
  }

  predicate Finishing(s: State, h: HandleId) {
    exists t :: t in s.pcs && Finishes(s.pcs[t], h)
  }

  predicate InUse(s: State, h: HandleId) {
    exists t :: t in s.pcs && s.pcs[t].IoBusy? && s.pcs[t].h == h
  }

  /** A handle outside of the slot that keeps the codec, as do its closers. */
  predicate KeepsCodec(s: State, h: HandleId, c: Codec) {
    && h < |s.handles| && s.slot != Open(h) && s.handles[h].codec == c
    && forall t :: t in s.pcs && Finishes(s.pcs[t], h) ==> s.pcs[t].codec == c
  }

  /** A handle outside of the slot on which the only I/O is in that codec. */
  predicate IoKeepsCodec(s: State, h: HandleId, c: Codec) {
    && h < |s.handles| && s.slot != Open(h)
    && forall t :: t in s.pcs && s.pcs[t].IoBusy? && s.pcs[t].h == h ==> s.pcs[t].codec == c
  }

  lemma LeavesTheSlot(s: State, a: Action, h: HandleId, c: Codec, w: Way)
    requires SlotInv(s) && Enabled(s, a) && Leaves(s, a, h, c, w)
    ensures h < |Next(s, a).handles| && Next(s, a).slot != Open(h)
    ensures forall t :: t in Next(s, a).pcs && Next(s, a).pcs[t].IoBusy? ==> t in s.pcs && s.pcs[t] == Next(s, a).pcs[t]
  {
  }

  /** A handle in the slot has no closer. */
  lemma NoCloserInSlot(s: State, t: Thread)
    requires Inv(s) && s.slot.Open? && t in s.pcs
    ensures !Finishes(s.pcs[t], s.slot.handle)
  {
    var h := s.slot.handle;
    assert HandleInv(s.handles[h], s.pcs, h);
    if Finishes(s.pcs[t], h) { Counted(s.pcs, t, if s.pcs[t].CloseWait? then Draining else Closing, h); }
  }

  lemma FinishesAfter(s: State, a: Action, t: Thread, h: HandleId)
    requires Enabled(s, a) && h < |s.handles| && t in Next(s, a).pcs && Finishes(Next(s, a).pcs[t], h)
    ensures (t in s.pcs && Finishes(s.pcs[t], h) && s.pcs[t].codec == Next(s, a).pcs[t].codec)
            || (a == CloseLatch(t) && Next(s, a).pcs[t].codec == s.handles[h].codec)
  {
    if a.Bind? || a.t != t { OthersStay(s, a, t); }
  }

  lemma CodecOutsideStays(s: State, a: Action, h: HandleId)
    requires Enabled(s, a) && h < |s.handles| && s.slot != Open(h)
    ensures h < |Next(s, a).handles| && Next(s, a).slot != Open(h) && Next(s, a).handles[h].codec == s.handles[h].codec
  {
  }

  lemma StaysKeepingCodec(s: State, a: Action, h: HandleId, c: Codec)
    requires Enabled(s, a) && KeepsCodec(s, h, c)
    ensures KeepsCodec(Next(s, a), h, c)
  {
    hide Next, Enabled, Finishes;
    CodecOutsideStays(s, a, h);
    forall t | t in Next(s, a).pcs && Finishes(Next(s, a).pcs[t], h) ensures CodecIs(Next(s, a).pcs[t], h, c) {
      FinishesAfter(s, a, t, h);
      FinisherHasCodec(Next(s, a).pcs[t], h);
    }
  }

  predicate CodecIs(p: Pc, h: HandleId, c: Codec) {
    Finishes(p, h) && p.codec == c
  }

  lemma FinisherHasCodec(p: Pc, h: HandleId)
    requires Finishes(p, h)
    ensures p.CloseWait? || p.CloseCodec?
  {
  }

  lemma KeepsCodecFromNow(s: State, a: Action, h: HandleId, c: Codec, w: Way)
    requires Inv(s) && Enabled(s, a) && Leaves(s, a, h, c, w) && w != ByStopped
    ensures KeepsCodec(Next(s, a), h, c)
  {
    hide HandleInv, PcsInv;
    var s' := Next(s, a);
    forall t | t in s'.pcs && Finishes(s'.pcs[t], h) ensures s'.pcs[t].codec == c {
      FinishesAfter(s, a, t, h);
      if t in s.pcs { NoCloserInSlot(s, t); }
    }
  }

  lemma IoOutsideStays(s: State, a: Action, h: HandleId, c: Codec)
    requires Enabled(s, a) && IoKeepsCodec(s, h, c)
    ensures IoKeepsCodec(Next(s, a), h, c)
  {
    CodecOutsideStays(s, a, h);
    var s' := Next(s, a);
    forall t | t in s'.pcs && s'.pcs[t].IoBusy? && s'.pcs[t].h == h ensures s'.pcs[t].codec == c {
      if a.Bind? || a.t != t { OthersStay(s, a, t); }
    }
  }

  // --- opens

  /** The thread is opening the codec, or is about to close it again as the direction was rebound meanwhile. */
  predicate Opens(p: Pc, c: Codec) {
    p == Opening(c) || p == OpenUndo(c)
  }

  predicate OpensQuiet(s: State, c: Codec) {
    forall t :: t in s.pcs ==> !Opens(s.pcs[t], c)
  }

  /** The action reserves the direction for an open of the codec. */
  predicate Reserves(a: Action, c: Codec) {
    a.Reserve? && a.codec == c
  }

  /** A thread is opening from its reservation until the open fails or commits. */
  lemma OpeningAfter(s: State, a: Action, t: Thread, c: Codec)
    requires Enabled(s, a)
    ensures At(Next(s, a), t) == Opening(c) <==>
      a == Reserve(t, c) || (At(s, t) == Opening(c) && a != OpenFail(t) && a != OpenCommit(t))
  {
  }

  /** It has to undo its open from a commit that finds the direction rebound until it has closed the codec. */
  lemma UndoAfter(s: State, a: Action, t: Thread, c: Codec)
    requires Enabled(s, a)
    ensures At(Next(s, a), t) == OpenUndo(c) <==>
      FindsRebound(s, a, t, c) || (At(s, t) == OpenUndo(c) && a != UndoClose(t))
  {
  }

  predicate FindsRebound(s: State, a: Action, t: Thread, c: Codec) {
    a == OpenCommit(t) && At(s, t) == Opening(c) && s.codecSlot != c
  }

  lemma OpensStayQuiet(s: State, a: Action, c: Codec)
    requires Enabled(s, a) && OpensQuiet(s, c) && !Reserves(a, c)
    ensures OpensQuiet(Next(s, a), c)
  {
    hide Next, Enabled;
    forall t | t in Next(s, a).pcs ensures !Opens(Next(s, a).pcs[t], c) {
      OpeningAfter(s, a, t, c);
      UndoAfter(s, a, t, c);
    }
  }

  lemma NotInSlot(s: State, h: HandleId, c: Codec)
    requires Inv(s) && s.codecSlot != c
    ensures !InSlot(s, h, c)
  {
  }
}
