/** What the stream handle protocol of audio_stream.cpp gives over whole runs, and what it does not. A run is a sequence
  of the steps of AudioStreamSteps; the classes at the end take them on the fields that the driver updates in place.
*/
module AudioStream {
  import opened AudioStreamSteps

  /** A run: every action is enabled where it is taken and touches live memory only, as what a program does
      after touching deleted memory is undefined. */
  ghost predicate IsRun(ss: seq<State>, run: seq<Action>) {
    && |ss| == |run| + 1
    && ss[0] == Init()
    && forall i :: 0 <= i < |run| ==> Enabled(ss[i], run[i]) && Sound(ss[i], run[i]) && ss[i + 1] == Next(ss[i], run[i])
  }

  // ---------------------------------------------------------------------------------------------
  // Whole runs

  lemma {:induction false} RunKeepsInv(ss: seq<State>, run: seq<Action>, i: nat)
    requires IsRun(ss, run) && i < |ss|
    ensures Inv(ss[i])
  {
    if i > 0 {
      RunKeepsInv(ss, run, i - 1);
      StepKeepsInv(ss[i - 1], run[i - 1]);
    }
  }

  /** Memory safety of every interleaving: the next action of a run touches memory that it must not touch only when it
      is the first section of a read, write or close whose handle was deleted meanwhile, or closes the placeholder. */
  lemma OnlyLateCallsAreUnsound(ss: seq<State>, run: seq<Action>, a: Action)
    requires IsRun(ss, run) && Enabled(ss[|run|], a)
    ensures Sound(ss[|run|], a) <==> !Late(ss[|run|], a) && !ClosesPlaceholder(ss[|run|], a)
  {
    hide Next, Enabled, Sound, Inv;
    RunKeepsInv(ss, run, |run|);
    OnlyFirstSections(ss[|run|], a);
  }

  // --- what callers must do so that no call is late

  /** The run ends in `s`. */
  ghost predicate Leads(ss: seq<State>, run: seq<Action>, s: State) {
    IsRun(ss, run) && ss[|run|] == s
  }

  lemma Extend(ss: seq<State>, run: seq<Action>, s: State, a: Action, s': State)
    returns (ss': seq<State>, run': seq<Action>)
    requires Leads(ss, run, s) && Enabled(s, a) && Sound(s, a) && s' == Next(s, a)
    ensures Leads(ss', run', s') && run' == run + [a] && ss' == ss + [s']
  {
    hide Enabled, Sound, Next;
    ss', run' := ss + [s'], run + [a];
  }

  lemma StartOfRun() returns (ss: seq<State>, run: seq<Action>)
    ensures Leads(ss, run, Init()) && run == []
  {
    ss, run := [Init()], [];
  }

  /** Any interleaving, whether or not it touches deleted memory. */
  ghost predicate IsTrace(ss: seq<State>, run: seq<Action>) {
    && |ss| == |run| + 1
    && ss[0] == Init()
    && forall i :: 0 <= i < |run| ==> Enabled(ss[i], run[i]) && ss[i + 1] == Next(ss[i], run[i])
  }

  lemma {:induction false} OrderlyPrefix(ss: seq<State>, run: seq<Action>, i: nat)
    requires IsTrace(ss, run) && i < |ss| && forall k :: 0 <= k < i ==> Orderly(ss[k], run[k])
    ensures Inv(ss[i]) && NoneOvertaken(ss[i]) && forall k :: 0 <= k < i ==> Sound(ss[k], run[k])
  {
    hide Next, Enabled, Sound, Orderly, HandleInv, SlotInv, PcsInv;
    if i == 0 {
      InitInv();
    } else {
      OrderlyPrefix(ss, run, i - 1);
      OrderlyIsSound(ss[i - 1], run[i - 1]);
      OrderlyStep(ss[i - 1], run[i - 1]);
      StepKeepsInv(ss[i - 1], run[i - 1]);
    }
  }

  /** With orderly callers nothing in any interleaving touches a deleted handle. */
  lemma OrderlyCallersAreSafe(ss: seq<State>, run: seq<Action>)
    requires IsTrace(ss, run) && forall k :: 0 <= k < |run| ==> Orderly(ss[k], run[k])
    ensures IsRun(ss, run)
  {
    hide Next, Enabled, Sound, Orderly;
    OrderlyPrefix(ss, run, |run|);
  }

  /** A call that was overtaken by the close of its handle can come late: the handle's end can be reached first. */
  lemma {:induction false} OvertakenCanBeLate(ss: seq<State>, run: seq<Action>, s: State, u: Thread, h: HandleId)
    returns (ss': seq<State>, run': seq<Action>, s': State)
    requires Leads(ss, run, s) && Ending(s, h) && Waiting(s, u, h)
    ensures Leads(ss', run', s') && run <= run' && Refers(s', h)
    ensures At(s', u) == At(s, u) && s'.handles[h].freed
    decreases s.handles[h].busy, Waits(s, h), CodecClosers(s.pcs, h), s.handles[h].refs
  {
    hide Next, Enabled, Sound, HandleInv, SlotInv, PcsInv, CodecClosers, Count, Leads, Touches;
    InvWhereLed(ss, run, s);
    ss', run', s' := ss, run, s;
    if !s.handles[h].freed {
      var t := SomebodyWorks(s, h);
      CanGoOn(s, h, t);
      ComesCloser(s, h, t);
      NextActor(s.pcs[t], t);
      OthersStay(s, NextAction(s.pcs[t], t), u);
      var s1 := Next(s, NextAction(s.pcs[t], t));
      var ss1, run1 := Extend(ss, run, s, NextAction(s.pcs[t], t), s1);
      if s1.handles[h].freed {
        ss', run', s' := ss1, run1, s1;
      } else {
        RefsNotNegative(ss1, run1, s1, h);
        ss', run', s' := OvertakenCanBeLate(ss1, run1, s1, u, h);
      }
    }
  }

  lemma RefsNotNegative(ss: seq<State>, run: seq<Action>, s: State, h: HandleId)
    requires Leads(ss, run, s) && Refers(s, h)
    ensures s.handles[h].refs >= 0 && s.handles[h].busy >= 0
  {
    InvWhereLed(ss, run, s);
    assert HandleInv(s.handles[h], s.pcs, h);
  }

  lemma InvWhereLed(ss: seq<State>, run: seq<Action>, s: State)
    requires Leads(ss, run, s)
    ensures Inv(s)
  {
    hide Next, Enabled, Sound, Inv;
    RunKeepsInv(ss, run, |run|);
  }

  /** The other half: any action that is not orderly touches such memory at once, or can be followed, without any other
      mistake, by the first section of a call whose handle has been deleted. */
  lemma DisorderlyCallersCanBeLate(ss: seq<State>, run: seq<Action>, s: State, a: Action)
    returns (ss': seq<State>, run': seq<Action>, s': State, late: Action)
    requires Leads(ss, run, s) && Enabled(s, a) && !Orderly(s, a)
    ensures Leads(ss', run', s') && Enabled(s', late) && !Sound(s', late)
    ensures run + [a] <= run' + [late]
  {
    InvWhereLed(ss, run, s);
    DisorderIsSound(s, a);
    hide Leads, HandleInv, SlotInv, PcsInv, Sound;
    if a.SetEnabled? { return ss, run, s, a; }
    var u, h;
    var s1 := Next(s, a);
    if a.CloseLatch? {
      h := At(s, a.t).h;
      u :| Waiting(s, u, h) && u != a.t;
    } else {
      u, h := a.t, a.h;
    }
    var ss1, run1 := Extend(ss, run, s, a, s1);
    ss', run', s' := OvertakenCanBeLate(ss1, run1, s1, u, h);
    late := if At(s', u).IoEntry? then IoBegin(u) else CloseLatch(u);
    LateIsUnsound(s', u, h);
  }

  /** A deleted handle has no I/O in flight and nobody waiting on it or holding it; a handle without references is
      deleted, or one thread is about to delete it; the semaphores go with the handle. */
  lemma HandleLifetime(ss: seq<State>, run: seq<Action>, i: nat, h: HandleId)
    requires IsRun(ss, run) && i < |ss| && h < |ss[i].handles|
    ensures var hd := ss[i].handles[h];
      && (hd.freed ==> hd.closing && hd.busy == 0 && hd.refs == 0 && Unused(ss[i].pcs, h))
      && (hd.refs == 0 <==> hd.freed || Count(ss[i].pcs, Deleting, h) == 1)
      && (hd.refs == 0 ==> hd.closing && hd.busy == 0)
      && (hd.freed <==> hd.drain == Deleted)
      && (hd.freed ==> hd.listenerDrain == Deleted || hd.listenerDrain == Missing)
      && hd.busy == Count(ss[i].pcs, InIo, h)
  {
    RunKeepsInv(ss, run, i);
    assert HandleInv(ss[i].handles[h], ss[i].pcs, h);
  }

  /** A thread that waits on a semaphore of a handle waits on a live one, and is not stuck: I/O is still in flight
      or the token is there. */
  lemma NoLostDrainToken(ss: seq<State>, run: seq<Action>, i: nat, t: Thread)
    requires IsRun(ss, run) && i < |ss|
    ensures At(ss[i], t).CloseWait? ==>
      var h := At(ss[i], t).h;
      h < |ss[i].handles| && ss[i].handles[h].drain.Live?
      && (ss[i].handles[h].busy > 0 || ss[i].handles[h].drain.given)
    ensures At(ss[i], t).ListenWait? ==>
      var h := At(ss[i], t).h;
      h < |ss[i].handles| && ss[i].handles[h].listenerDrain.Live?
      && (ss[i].handles[h].busy > 0 || ss[i].handles[h].listenerDrain.given)
  {
    RunKeepsInv(ss, run, i);
    var p := At(ss[i], t);
    if p.CloseWait? || p.ListenWait? {
      assert p.h in HandleOf(ss[i].pcs[t]);
      Counted(ss[i].pcs, t, if p.CloseWait? then Draining else Listening, p.h);
      assert HandleInv(ss[i].handles[p.h], ss[i].pcs, p.h);
    }
  }

  lemma {:induction false} FreedStays(ss: seq<State>, run: seq<Action>, i: nat, j: nat, h: HandleId)
    requires IsRun(ss, run) && i <= j < |ss| && h < |ss[i].handles| && ss[i].handles[h].freed
    ensures h < |ss[j].handles| && ss[j].handles[h].freed
  {
    hide Enabled, Sound, Next;
    if i < j {
      FreedStays(ss, run, i, j - 1, h);
      StepKeepsFreed(ss[j - 1], run[j - 1], h);
    }
  }

  /** No run deletes a handle twice. */
  lemma DeletedOnce(ss: seq<State>, run: seq<Action>, i: nat, j: nat)
    requires IsRun(ss, run) && i < |run| && j < |run| && run[i].Delete? && run[j].Delete?
    requires HandleAt(ss[i], run[i].t) == HandleAt(ss[j], run[j].t)
    ensures i == j
  {
    if i != j {
      var a, b := if i < j then i else j, if i < j then j else i;
      var h := At(ss[a], run[a].t).h;
      assert h in Touches(ss[b], run[b]);
      FreedStays(ss, run, a + 1, b, h);
    }
  }

  /** Once every thread is idle, a closed handle has been deleted, unless the listener ever failed to create the
      semaphore it wanted to wait on: that reference is never dropped. */
  lemma ClosedHandlesAreDeleted(ss: seq<State>, run: seq<Action>, i: nat, h: HandleId)
    requires IsRun(ss, run) && i < |ss| && h < |ss[i].handles|
    requires forall t :: t in ss[i].pcs ==> ss[i].pcs[t] == Idle
    ensures ss[i].handles[h].freed <==> ss[i].handles[h].closing && !ss[i].handles[h].leaked
  {
    RunKeepsInv(ss, run, i);
    assert HandleInv(ss[i].handles[h], ss[i].pcs, h);
    forall role: Role ensures Who(ss[i].pcs, role, h) == {} {}
  }

  // ---------------------------------------------------------------------------------------------
  // What each section does, over whole runs

  /** Some thread is inside the codec with the handle. */
  ghost predicate SomeIo(s: State, h: HandleId) {
    exists u :: At(s, u).IoBusy? && At(s, u).h == h
  }

  lemma BusyMeansIo(s: State, h: HandleId)
    requires Inv(s) && h < |s.handles|
    ensures s.handles[h].busy > 0 <==> SomeIo(s, h)
  {
    assert HandleInv(s.handles[h], s.pcs, h);
    if SomeIo(s, h) {
      var u :| At(s, u).IoBusy? && At(s, u).h == h;
      Counted(s.pcs, u, InIo, h);
    } else {
      assert Who(s.pcs, InIo, h) == {} by {
        forall u | u in s.pcs ensures !Plays(s.pcs[u], InIo, h) { assert At(s, u) == s.pcs[u]; }
      }
    }
  }

  /** A read or write gets in exactly if its handle is in the slot, however many are in already. */
  lemma IoGetsInExactly(ss: seq<State>, run: seq<Action>, i: nat, t: Thread)
    requires IsRun(ss, run) && i < |run| && run[i] == IoBegin(t)
    ensures var s, s', h := ss[i], ss[i + 1], At(ss[i], t).h;
      && h < |s.handles| && s'.slot == s.slot
      && At(s', t) == (if s.slot == Open(h) then IoBusy(h, s.codecSlot) else Idle)
      && s'.handles ==
           (if s.slot == Open(h) then s.handles[h := s.handles[h].(busy := s.handles[h].busy + 1)] else s.handles)
  {
    RunKeepsInv(ss, run, i);
  }

  /** The first close of a handle goes on, and takes it out of the slot; it waits exactly if there is I/O on it. Every
      other close of it changes nothing. */
  lemma CloseGoesOnExactly(ss: seq<State>, run: seq<Action>, i: nat, t: Thread)
    requires IsRun(ss, run) && i < |run| && run[i] == CloseLatch(t)
    ensures var s, s', h := ss[i], ss[i + 1], At(ss[i], t).h;
      && h < |s.handles|
      && (s.handles[h].closing ==> At(s', t) == Idle && s'.handles == s.handles && s'.slot == s.slot)
      && (!s.handles[h].closing ==>
            && At(s', t) ==
                 (if SomeIo(s, h) then CloseWait(h, s.handles[h].codec) else CloseCodec(h, s.handles[h].codec))
            && s'.handles == s.handles[h := s.handles[h].(closing := true)]
            && s'.slot == (if s.slot == Open(h) then Free else s.slot))
  {
    RunKeepsInv(ss, run, i);
    BusyMeansIo(ss[i], At(ss[i], t).h);
  }

  /** The listener takes the handle in the slot away, severs it from its codec exactly if that has stopped, and waits
      exactly if there is I/O on it then. A reserved slot stays; the listener polls exactly if the codec that has
      stopped is being opened. */
  lemma ListenerTakesAwayExactly(ss: seq<State>, run: seq<Action>, i: nat)
    requires IsRun(ss, run) && i < |run| && run[i].CodecEvent?
    ensures var s, s', a := ss[i], ss[i + 1], run[i];
      && s'.codecSlot == a.preferred && |s'.handles| == |s.handles|
      && (s.slot.Open? ==>
            && var h := s.slot.handle;
            && h < |s.handles| && s'.slot == Free && s'.handles[h].listenerClosed
            && s'.handles[h].codec == (if a.stopped then NO_CODEC else s.codecSlot)
            && At(s', a.t) == (if a.stopped && a.created && SomeIo(s, h) then ListenWait(h) else Idle)
            && forall k :: 0 <= k < |s.handles| && k != h ==> s'.handles[k] == s.handles[k])
      && (!s.slot.Open? ==>
            && s'.slot == s.slot && s'.handles == s.handles
            && At(s', a.t) ==
                 if a.stopped && (exists u :: At(s, u) == Opening(s.codecSlot)) then ListenPoll(s.codecSlot) else Idle)
  {
    var s := ss[i];
    RunKeepsInv(ss, run, i);
    ReservedWhileOpening(ss, run, i);
    if s.slot.Open? { BusyMeansIo(s, s.slot.handle); }
  }

  /** The placeholder is in the slot exactly while some thread is opening, which holds the reservation for its codec. */
  lemma {:induction false} ReservedWhileOpening(ss: seq<State>, run: seq<Action>, i: nat)
    requires IsRun(ss, run) && i < |ss|
    ensures ss[i].slot == Reserved <==> exists t :: At(ss[i], t).Opening?
    ensures ss[i].slot == Reserved ==> exists t :: At(ss[i], t) == Opening(ss[i].reservation)
    ensures forall t :: At(ss[i], t).Opening? ==> At(ss[i], t).codec == ss[i].reservation != NO_CODEC
  {
    RunKeepsInv(ss, run, i);
    if i > 0 {
      ReservedWhileOpening(ss, run, i - 1);
      RunKeepsInv(ss, run, i - 1);
      OpenerStays(ss[i - 1], run[i - 1]);
    }
  }

  /** An open that comes to its last section puts a new handle into the slot exactly if the direction is still bound to
      its codec; otherwise it has to close the codec again. The placeholder is gone in both cases. */
  lemma OpenCommitsExactly(ss: seq<State>, run: seq<Action>, i: nat, t: Thread, c: Codec)
    requires IsRun(ss, run) && i < |run| && run[i] == OpenCommit(t) && At(ss[i], t) == Opening(c)
    ensures var s, s' := ss[i], ss[i + 1];
      && s.slot == Reserved && s'.reservation == NO_CODEC
      && (s.codecSlot == c ==>
            && At(s', t) == Idle && s'.slot == Open(|s.handles|) && |s'.handles| == |s.handles| + 1
            && s'.handles[..|s.handles|] == s.handles && s'.handles[|s.handles|].codec == c
            && !s'.handles[|s.handles|].closing && !s'.handles[|s.handles|].listenerClosed
            && s'.handles[|s.handles|].refs == 1 && s'.handles[|s.handles|].busy == 0)
      && (s.codecSlot != c ==> At(s', t) == OpenUndo(c) && s'.slot == Free && s'.handles == s.handles)
  {
    RunKeepsInv(ss, run, i);
  }

  /** A direction can be opened exactly if it is enabled, nobody is opening it, and no handle is in its slot. */
  lemma CanBeOpenedExactly(ss: seq<State>, run: seq<Action>, i: nat, t: Thread, c: Codec)
    requires IsRun(ss, run) && i < |ss| && At(ss[i], t) == Idle && c != NO_CODEC
    ensures Enabled(ss[i], Reserve(t, c)) <==>
      ss[i].enabled && (forall u :: !At(ss[i], u).Opening?) && forall h :: ss[i].slot != Open(h)
  {
    ReservedWhileOpening(ss, run, i);
  }

  // ---------------------------------------------------------------------------------------------
  // The STOPPED handler

  lemma {:induction false} RunKeepsSevered(ss: seq<State>, run: seq<Action>, i: nat, j: nat, h: HandleId)
    requires IsRun(ss, run) && i <= j < |ss| && Severed(ss[i], h)
    ensures Severed(ss[j], h)
    ensures Quiet(ss[i], h) ==> Quiet(ss[j], h)
  {
    if i < j {
      RunKeepsSevered(ss, run, i, j - 1, h);
      StepKeepsSevered(ss[j - 1], run[j - 1], h);
    }
  }

  /** If a handle is in its slot when the STOPPED handler runs (step `i`), and the handler had nothing to wait for
      (`k == i`) or its wait was answered (step `k`), then from then on no I/O is in flight on the handle and no
      closer calls its codec. */
  lemma StoppedHandlerQuiets(ss: seq<State>, run: seq<Action>, i: nat, k: nat, m: nat, h: HandleId)
    requires IsRun(ss, run) && i <= k < m < |ss|
    requires run[i].CodecEvent? && run[i].stopped && ss[i].slot == Open(h)
    requires if k == i then ss[i].handles[h].busy == 0
             else run[k].ListenTake? && At(ss[k], run[k].t) == ListenWait(h)
    ensures Quiet(ss[m], h)
  {
    hide Next, Enabled, Sound, Inv;
    RunKeepsInv(ss, run, i);
    StoppedSevers(ss[i], run[i], h);
    RunKeepsSevered(ss, run, i + 1, if k == i then m else k, h);
    if k > i {
      RunKeepsInv(ss, run, k);
      AnsweredWaitMeansIdle(ss[k], run[k].t, h);
      StepKeepsSevered(ss[k], run[k], h);
      RunKeepsSevered(ss, run, k + 1, m, h);
    }
  }

  // --- the codec that has stopped

  lemma {:induction false} StaysQuiet(ss: seq<State>, run: seq<Action>, i: nat, m: nat, c: Codec)
    requires IsRun(ss, run) && i <= m < |ss| && c != NO_CODEC
    requires !LeftBehind(ss[i], c) && forall j :: i <= j < m ==> ss[j].codecSlot != c
    ensures !LeftBehind(ss[m], c)
    decreases m - i
  {
    hide Next, Enabled, Sound, Inv, LeftBehind;
    if i < m {
      RunKeepsInv(ss, run, m - 1);
      StaysQuiet(ss, run, i, m - 1, c);
      NothingIsLeftBehind(ss[m - 1], run[m - 1], c);
    }
  }

  /** However the run goes on, until the codec is bound again no thread is inside it and no close calls it. */
  ghost predicate QuietUntilBoundAgain(ss: seq<State>, run: seq<Action>, c: Codec) {
    forall ss', run' :: Continues(ss, run, ss', run', c) ==> CodecQuiet(ss'[|run'|], c)
  }

  ghost predicate Continues(ss: seq<State>, run: seq<Action>, ss': seq<State>, run': seq<Action>, c: Codec) {
    IsRun(ss', run') && ss <= ss' && run <= run' && forall m :: |run| <= m < |run'| ==> ss'[m].codecSlot != c
  }

  /** The owner of a loose handle closes it: the close captures the codec. */
  lemma LooseHandleIsClosed(ss: seq<State>, run: seq<Action>, c: Codec, h: HandleId)
    returns (ss': seq<State>, run': seq<Action>)
    requires IsRun(ss, run) && ss[|run|].codecSlot != c && Loose(ss[|run|], h, c)
    ensures Continues(ss, run, ss', run', c) && !CodecQuiet(ss'[|run'|], c)
  {
    var s := ss[|run|];
    var t := UnusedThread(s.pcs);
    RunKeepsInv(ss, run, |run|);
    LeakedIsNotFreed(s, h);
    hide Next, Enabled, Sound, Inv;
    var s1, s2 := CloseLatched(s, t, h, c);
    assert Leads(ss, run, s);
    ss', run' := Extend(ss, run, s, EnterClose(t, h), s1);
    ss', run' := Extend(ss', run', s1, CloseLatch(t), s2);
    assert IsRun(ss', run') && ss' == ss + [s1] + [s2] && run' == run + [EnterClose(t, h)] + [CloseLatch(t)];
    assert ss'[|run|] == s && ss'[|run| + 1] == s1 && ss'[|run| + 2] == s2;
  }

  /** Once a codec is no longer bound, it stays quiet until it is bound again exactly when nothing is left behind: no
      I/O in it, no close on its way to it, and no unclosed handle outside of the slot that leads to it. */
  lemma QuietExactlyWhenNothingIsLeftBehind(ss: seq<State>, run: seq<Action>, c: Codec)
    requires IsRun(ss, run) && c != NO_CODEC && ss[|run|].codecSlot != c
    ensures QuietUntilBoundAgain(ss, run, c) <==> !LeftBehind(ss[|run|], c)
  {
    hide Next, Enabled, Sound, Inv, CodecQuiet, Loose;
    if !LeftBehind(ss[|run|], c) {
      forall ss', run' | Continues(ss, run, ss', run', c) ensures CodecQuiet(ss'[|run'|], c) {
        StaysQuietHere(ss, run, ss', run', c);
      }
    } else if h :| Loose(ss[|run|], h, c) {
      var ss', run' := LooseHandleIsClosed(ss, run, c, h);
      assert Continues(ss, run, ss', run', c);
    } else {
      assert Continues(ss, run, ss, run, c);
    }
  }

  lemma StaysQuietHere(ss: seq<State>, run: seq<Action>, ss': seq<State>, run': seq<Action>, c: Codec)
    requires Continues(ss, run, ss', run', c) && IsRun(ss, run) && c != NO_CODEC && !LeftBehind(ss[|run|], c)
    ensures CodecQuiet(ss'[|run'|], c)
  {
    hide Next, Enabled, Sound;
    assert ss'[|run|] == ss[|run|];
    StaysQuiet(ss', run', |run|, |run'|, c);
  }

  // --- what can have been left behind, told by the events before

  ghost predicate LeftBefore(ss: seq<State>, run: seq<Action>, n: nat, h: HandleId, c: Codec, w: Way)
    requires n <= |ss| && n <= |run|
  {
    exists j :: 0 <= j < n && Leaves(ss[j], run[j], h, c, w)
  }

  lemma {:induction false} LooseComesFrom(ss: seq<State>, run: seq<Action>, n: nat, h: HandleId, c: Codec)
    requires IsRun(ss, run) && n <= |run| && Loose(ss[n], h, c) && c != NO_CODEC
    ensures LeftBefore(ss, run, n, h, c, ByStarted)
    decreases n
  {
    hide Next, Enabled, Sound, HandleInv, PcsInv, SlotInv, Leaves, Loose;
    if n == 0 {
      NothingAtFirst(h, c);
    } else {
      RunKeepsInv(ss, run, n - 1);
      LooseSince(ss[n - 1], run[n - 1], h, c);
      if Loose(ss[n - 1], h, c) { LooseComesFrom(ss, run, n - 1, h, c); }
    }
  }

  lemma {:induction false} CloseComesFrom(ss: seq<State>, run: seq<Action>, n: nat, t: Thread, h: HandleId, c: Codec)
    requires IsRun(ss, run) && n <= |run| && ClosesInto(ss[n], t, h, c) && c != NO_CODEC
    ensures LeftBefore(ss, run, n, h, c, ByStarted) || LeftBefore(ss, run, n, h, c, ByClose)
    decreases n
  {
    hide Next, Enabled, Sound, HandleInv, PcsInv, SlotInv, Leaves, Loose;
    if n > 0 {
      RunKeepsInv(ss, run, n - 1);
      CloseAfter(ss[n - 1], run[n - 1], t, h, c);
      if ClosesInto(ss[n - 1], t, h, c) {
        CloseComesFrom(ss, run, n - 1, t, h, c);
      } else if Loose(ss[n - 1], h, c) {
        LooseComesFrom(ss, run, n - 1, h, c);
      }
    }
  }

  lemma {:induction false} IoComesFrom(ss: seq<State>, run: seq<Action>, n: nat, t: Thread, h: HandleId, c: Codec)
    requires IsRun(ss, run) && n <= |run| && DoesIo(ss[n], t, h, c)
    ensures InSlot(ss[n], h, c) || exists w :: LeftBefore(ss, run, n, h, c, w)
    decreases n
  {
    hide Next, Enabled, Sound, HandleInv, PcsInv, SlotInv, Leaves, InSlot;
    if n > 0 {
      RunKeepsInv(ss, run, n - 1);
      IoAfter(ss[n - 1], run[n - 1], t, h, c);
      if DoesIo(ss[n - 1], t, h, c) {
        IoComesFrom(ss, run, n - 1, t, h, c);
        if InSlot(ss[n - 1], h, c) {
          var w := SlotAfter(ss[n - 1], run[n - 1], h, c);
          assert InSlot(ss[n], h, c) || LeftBefore(ss, run, n, h, c, w);
        } else {
          var w :| LeftBefore(ss, run, n - 1, h, c, w);
          assert LeftBefore(ss, run, n, h, c, w);
        }
      }
    }
  }

  /** The wait of a STOPPED handler at step `i` on the handle that it found was not necessary, or was answered. */
  predicate Drained(ss: seq<State>, run: seq<Action>, i: nat, h: HandleId)
    requires |ss| == |run| + 1 && i < |run|
  {
    (h < |ss[i].handles| && ss[i].handles[h].busy == 0) ||
    exists k :: i < k < |run| && run[k].ListenTake? && At(ss[k], run[k].t) == ListenWait(h)
  }

  /** What a handle that left the slot at step `j` has left of the codec at the end of the run: after a STARTED event it
      leads to it until it is closed and the closer has called the codec; the I/O that a STOPPED handler did not see the
      end of is still in flight; or the close that took it out has not called the codec yet. */
  ghost predicate Remains(ss: seq<State>, run: seq<Action>, j: nat, h: HandleId, c: Codec)
    requires |ss| == |run| + 1 && j < |run|
  {
    var s, a, end := ss[j], run[j], ss[|run|];
    || (Leaves(s, a, h, c, ByStarted) && h < |end.handles| && (!end.handles[h].closing || Finishing(end, h)))
    || (Leaves(s, a, h, c, ByStopped) && InUse(end, h))
    || (Leaves(s, a, h, c, ByClose) && Finishing(end, h))
  }

  lemma {:induction false} ClosingStays(ss: seq<State>, run: seq<Action>, j: nat, n: nat, h: HandleId)
    requires IsRun(ss, run) && j <= n < |ss| && h < |ss[j].handles| && ss[j].handles[h].closing
    ensures h < |ss[n].handles| && ss[n].handles[h].closing
    decreases n
  {
    hide Next, Enabled, Sound;
    if j < n {
      ClosingStays(ss, run, j, n - 1, h);
      StepKeepsClosing(ss[n - 1], run[n - 1], h);
    }
  }

  /** A drained STOPPED handler leaves no I/O on its handle. */
  lemma DrainedHasNoIo(ss: seq<State>, run: seq<Action>, j: nat, h: HandleId, c: Codec)
    requires IsRun(ss, run) && j < |run| && Leaves(ss[j], run[j], h, c, ByStopped) && Drained(ss, run, j, h)
    ensures !InUse(ss[|run|], h)
  {
    hide Next, Enabled, Sound, Inv;
    var k :| j <= k < |run| && if k == j then h < |ss[j].handles| && ss[j].handles[h].busy == 0
                               else run[k].ListenTake? && At(ss[k], run[k].t) == ListenWait(h);
    StoppedHandlerQuiets(ss, run, j, k, |run|, h);
  }

  lemma IoRemains(ss: seq<State>, run: seq<Action>, j: nat, t: Thread, h: HandleId, c: Codec, w: Way)
    requires IsRun(ss, run) && j < |run| && Leaves(ss[j], run[j], h, c, w) && DoesIo(ss[|run|], t, h, c)
    ensures Remains(ss, run, j, h, c)
  {
    hide Next, Enabled, Sound, HandleInv, SlotInv, Leaves;
    RunKeepsInv(ss, run, |run|);
    assert h in HandleOf(ss[|run|].pcs[t]);
    if w == ByClose {
      ClosedByLeaving(ss[j], run[j], h, c);
      ClosingStays(ss, run, j + 1, |run|, h);
    }
    if ss[|run|].handles[h].closing { CloserWaits(ss[|run|], t, h, c); }
  }

  /** Whatever is left behind of a codec that is not bound comes from a handle that left the slot while it was. */
  lemma LeftBehindComesFrom(ss: seq<State>, run: seq<Action>, c: Codec) returns (j: nat, h: HandleId)
    requires IsRun(ss, run) && c != NO_CODEC && ss[|run|].codecSlot != c && LeftBehind(ss[|run|], c)
    ensures j < |run| && Remains(ss, run, j, h, c)
  {
    hide Next, Enabled, Sound, HandleInv, SlotInv, Leaves;
    var n, s := |run|, ss[|run|];
    RunKeepsInv(ss, run, n);
    if h' :| Loose(s, h', c) {
      LooseComesFrom(ss, run, n, h', c);
      h := h';
      j :| 0 <= j < n && Leaves(ss[j], run[j], h, c, ByStarted);
    } else {
      var t :| t in s.pcs && Holds(s.pcs[t], c);
      h := s.pcs[t].h;
      assert h in HandleOf(s.pcs[t]);
      if s.pcs[t].IoBusy? {
        IoComesFrom(ss, run, n, t, h, c);
        NotInSlot(s, h, c);
        var w :| LeftBefore(ss, run, n, h, c, w);
        j :| 0 <= j < n && Leaves(ss[j], run[j], h, c, w);
        IoRemains(ss, run, j, t, h, c, w);
      } else {
        assert ClosesInto(s, t, h, c) && Finishes(s.pcs[t], h);
        CloseComesFrom(ss, run, n, t, h, c);
        var w := if LeftBefore(ss, run, n, h, c, ByStarted) then ByStarted else ByClose;
        j :| 0 <= j < n && Leaves(ss[j], run[j], h, c, w);
      }
    }
  }

  /** A handle that has left the slot does not come back. */
  lemma {:induction false} NeverBack(ss: seq<State>, run: seq<Action>, j: nat, n: nat, h: HandleId)
    requires IsRun(ss, run) && j <= n < |ss| && h < |ss[j].handles| && ss[j].slot != Open(h)
    ensures h < |ss[n].handles| && ss[n].slot != Open(h)
    decreases n
  {
    hide Next, Enabled, Sound;
    if j < n {
      NeverBack(ss, run, j, n - 1, h);
      CodecOutsideStays(ss[n - 1], run[n - 1], h);
    }
  }

  /** I/O on the handle in the slot is in the codec that is bound. */
  lemma IoInSlotIsInTheCodec(ss: seq<State>, run: seq<Action>, n: nat, t: Thread, h: HandleId, c: Codec)
    requires IsRun(ss, run) && n <= |run| && DoesIo(ss[n], t, h, c) && ss[n].slot == Open(h)
    ensures ss[n].codecSlot == c
  {
    hide Next, Enabled, Sound, HandleInv, PcsInv;
    RunKeepsInv(ss, run, n);
    IoComesFrom(ss, run, n, t, h, c);
    if w :| LeftBefore(ss, run, n, h, c, w) {
      var j :| 0 <= j < n && Leaves(ss[j], run[j], h, c, w);
      RunKeepsInv(ss, run, j);
      LeavesTheSlot(ss[j], run[j], h, c, w);
      NeverBack(ss, run, j + 1, n, h);
    }
  }

  lemma {:induction false} CodecIsKept(ss: seq<State>, run: seq<Action>, j: nat, n: nat, h: HandleId, c: Codec, w: Way)
    requires IsRun(ss, run) && j < n < |ss| && Leaves(ss[j], run[j], h, c, w)
    ensures if w == ByStopped then IoKeepsCodec(ss[n], h, c) else KeepsCodec(ss[n], h, c)
    decreases n
  {
    hide Next, Enabled, Sound, HandleInv, PcsInv, KeepsCodec, Finishes, Leaves;
    if j + 1 < n {
      CodecIsKept(ss, run, j, n - 1, h, c, w);
      if w == ByStopped { IoOutsideStays(ss[n - 1], run[n - 1], h, c); }
      else { StaysKeepingCodec(ss[n - 1], run[n - 1], h, c); }
    } else {
      RunKeepsInv(ss, run, j);
      if w == ByStopped { IoIsKeptFromNow(ss, run, j, h, c); } else { KeepsCodecFromNow(ss[j], run[j], h, c, w); }
    }
  }

  lemma IoIsKeptFromNow(ss: seq<State>, run: seq<Action>, j: nat, h: HandleId, c: Codec)
    requires IsRun(ss, run) && j < |run| && Leaves(ss[j], run[j], h, c, ByStopped)
    ensures IoKeepsCodec(ss[j + 1], h, c)
  {
    hide Next, Enabled, Sound, HandleInv, PcsInv;
    RunKeepsInv(ss, run, j);
    LeavesTheSlot(ss[j], run[j], h, c, ByStopped);
    var s := ss[j + 1];
    forall t | t in s.pcs && s.pcs[t].IoBusy? && s.pcs[t].h == h ensures s.pcs[t].codec == c {
      IoInSlotIsInTheCodec(ss, run, j, t, h, s.pcs[t].codec);
    }
  }

  /** The converse, for each of the three ways in which a handle leaves the slot. */
  lemma RemainsIsLeftBehind(ss: seq<State>, run: seq<Action>, j: nat, h: HandleId, c: Codec)
    requires IsRun(ss, run) && j < |run| && Remains(ss, run, j, h, c)
    ensures LeftBehind(ss[|run|], c)
  {
    hide Next, Enabled, Sound, Leaves;
    var end := ss[|run|];
    if Leaves(ss[j], run[j], h, c, ByStopped) && InUse(end, h) {
      CodecIsKept(ss, run, j, |run|, h, c, ByStopped);
      var t :| t in end.pcs && end.pcs[t].IoBusy? && end.pcs[t].h == h;
      assert Holds(end.pcs[t], c);
    } else {
      CodecIsKept(ss, run, j, |run|, h, c, if Leaves(ss[j], run[j], h, c, ByStarted) then ByStarted else ByClose);
      if Finishing(end, h) {
        var t :| t in end.pcs && Finishes(end.pcs[t], h);
        assert Holds(end.pcs[t], c);
      } else {
        assert Loose(end, h, c);
      }
    }
  }

  /** Something is left behind of a codec that is not bound exactly when a handle that left the slot while it was has
      left something of it. */
  lemma LeftBehindExactly(ss: seq<State>, run: seq<Action>, c: Codec)
    requires IsRun(ss, run) && c != NO_CODEC && ss[|run|].codecSlot != c
    ensures LeftBehind(ss[|run|], c) <==> exists j, h :: 0 <= j < |run| && Remains(ss, run, j, h, c)
  {
    hide IsRun, LeftBehind, Remains;
    RunLength(ss, run);
    if LeftBehind(ss[|run|], c) {
      var j, h := LeftBehindComesFrom(ss, run, c);
    }
    if j: nat, h: HandleId :| j < |run| && Remains(ss, run, j, h, c) { RemainsIsLeftBehind(ss, run, j, h, c); }
  }

  lemma RunLength(ss: seq<State>, run: seq<Action>)
    requires IsRun(ss, run)
    ensures |ss| == |run| + 1
  {
  }

  /** The other half for STARTED events: the handle that one takes off a codec is left behind until it is closed. */
  lemma StartedLeavesBehind(ss: seq<State>, run: seq<Action>, j: nat, n: nat, h: HandleId, c: Codec)
    requires IsRun(ss, run) && j < n < |ss| && Leaves(ss[j], run[j], h, c, ByStarted)
    ensures h < |ss[n].handles| && (ss[n].handles[h].closing || (Loose(ss[n], h, c) && LeftBehind(ss[n], c)))
  {
    hide Next, Enabled, Sound, Leaves;
    CodecIsKept(ss, run, j, n, h, c, ByStarted);
  }

  // --- opens of a codec

  /** The run goes on, and no open of the codec begins. */
  ghost predicate WithoutOpen(ss: seq<State>, run: seq<Action>, ss': seq<State>, run': seq<Action>, c: Codec) {
    IsRun(ss', run') && ss <= ss' && run <= run' && forall m :: |run| <= m < |run'| ==> !Reserves(run'[m], c)
  }

  /** However the run goes on, until the direction is reserved for the codec again no open calls it. */
  ghost predicate NoOpenUntilReservedAgain(ss: seq<State>, run: seq<Action>, c: Codec) {
    forall ss', run' :: WithoutOpen(ss, run, ss', run', c) ==> OpensQuiet(ss'[|run'|], c)
  }

  lemma {:induction false} NoOpenBegins(ss: seq<State>, run: seq<Action>, i: nat, m: nat, c: Codec)
    requires IsRun(ss, run) && i <= m < |ss| && OpensQuiet(ss[i], c) && forall j :: i <= j < m ==> !Reserves(run[j], c)
    ensures OpensQuiet(ss[m], c)
    decreases m - i
  {
    hide Next, Enabled, Sound, OpensQuiet;
    if i < m {
      NoOpenBegins(ss, run, i, m - 1, c);
      OpensStayQuiet(ss[m - 1], run[m - 1], c);
    }
  }

  lemma NoOpenExactly(ss: seq<State>, run: seq<Action>, c: Codec)
    requires IsRun(ss, run)
    ensures NoOpenUntilReservedAgain(ss, run, c) <==> OpensQuiet(ss[|run|], c)
  {
    hide Next, Enabled, Sound, OpensQuiet;
    if OpensQuiet(ss[|run|], c) {
      forall ss', run' | WithoutOpen(ss, run, ss', run', c) ensures OpensQuiet(ss'[|run'|], c) {
        assert ss'[|run|] == ss[|run|];
        NoOpenBegins(ss', run', |run|, |run'|, c);
      }
    } else {
      assert WithoutOpen(ss, run, ss, run, c);
    }
  }

  /** The thread reserved the direction for the codec at step `k`, and its open has neither failed nor come to its last
      section since. */
  ghost predicate OpeningSince(ss: seq<State>, run: seq<Action>, k: nat, t: Thread, c: Codec)
    requires |ss| == |run| + 1 && k < |run|
  {
    run[k] == Reserve(t, c) && forall m :: k < m < |run| ==> run[m] != OpenFail(t) && run[m] != OpenCommit(t)
  }

  /** The last section of the thread's open found the direction rebound at step `k`, and the thread has not closed the
      codec since. */
  ghost predicate UndoingSince(ss: seq<State>, run: seq<Action>, k: nat, t: Thread, c: Codec)
    requires |ss| == |run| + 1 && k < |run|
  {
    FindsRebound(ss[k], run[k], t, c) && forall m :: k < m < |run| ==> run[m] != UndoClose(t)
  }

  lemma RunPrefix(ss: seq<State>, run: seq<Action>)
    requires IsRun(ss, run) && |run| > 0
    ensures IsRun(ss[..|run|], run[..|run| - 1])
  {
  }

  lemma {:induction false} OpeningExactly(ss: seq<State>, run: seq<Action>, t: Thread, c: Codec)
    requires IsRun(ss, run)
    ensures At(ss[|run|], t) == Opening(c) <==> exists k :: 0 <= k < |run| && OpeningSince(ss, run, k, t, c)
    decreases |run|
  {
    if |run| > 0 {
      hide Next, Enabled, Sound, OpeningSince;
      var m, front := |run| - 1, run[..|run| - 1];
      RunPrefix(ss, run);
      OpeningExactly(ss[..|run|], front, t, c);
      OpeningAfter(ss[m], run[m], t, c);
      OpeningSplits(ss, run, t, c);
    }
  }

  lemma OpeningSplits(ss: seq<State>, run: seq<Action>, t: Thread, c: Codec)
    requires |ss| == |run| + 1 && |run| > 0
    ensures var m := |run| - 1;
      && (OpeningSince(ss, run, m, t, c) <==> run[m] == Reserve(t, c))
      && forall k :: 0 <= k < m ==> (OpeningSince(ss, run, k, t, c) <==>
           OpeningSince(ss[..|run|], run[..m], k, t, c) && run[m] != OpenFail(t) && run[m] != OpenCommit(t))
  {
  }

  lemma {:induction false} UndoingExactly(ss: seq<State>, run: seq<Action>, t: Thread, c: Codec)
    requires IsRun(ss, run)
    ensures At(ss[|run|], t) == OpenUndo(c) <==> exists k :: 0 <= k < |run| && UndoingSince(ss, run, k, t, c)
    decreases |run|
  {
    if |run| > 0 {
      hide Next, Enabled, Sound, FindsRebound, UndoingSince;
      var m, front := |run| - 1, run[..|run| - 1];
      RunPrefix(ss, run);
      UndoingExactly(ss[..|run|], front, t, c);
      UndoAfter(ss[m], run[m], t, c);
      UndoingSplits(ss, run, t, c);
    }
  }

  lemma UndoingSplits(ss: seq<State>, run: seq<Action>, t: Thread, c: Codec)
    requires |ss| == |run| + 1 && |run| > 0
    ensures var m := |run| - 1;
      && (UndoingSince(ss, run, m, t, c) <==> FindsRebound(ss[m], run[m], t, c))
      && forall k :: 0 <= k < m ==> (UndoingSince(ss, run, k, t, c) <==>
           UndoingSince(ss[..|run|], run[..m], k, t, c) && run[m] != UndoClose(t))
  {
    hide FindsRebound;
  }

  ghost predicate SomeoneOpens(ss: seq<State>, run: seq<Action>, c: Codec)
    requires |ss| == |run| + 1
  {
    exists k, t :: 0 <= k < |run| && OpeningSince(ss, run, k, t, c)
  }

  ghost predicate SomeoneUndoes(ss: seq<State>, run: seq<Action>, c: Codec)
    requires |ss| == |run| + 1
  {
    exists k, t :: 0 <= k < |run| && UndoingSince(ss, run, k, t, c)
  }

  lemma OpenersAre(ss: seq<State>, run: seq<Action>, c: Codec)
    requires IsRun(ss, run)
    ensures SomeoneOpens(ss, run, c) <==> exists t :: At(ss[|run|], t) == Opening(c)
    ensures SomeoneUndoes(ss, run, c) <==> exists t :: At(ss[|run|], t) == OpenUndo(c)
    ensures OpensQuiet(ss[|run|], c) <==> !SomeoneOpens(ss, run, c) && !SomeoneUndoes(ss, run, c)
  {
    hide Next, Enabled, Sound, OpeningSince, UndoingSince;
    var end := ss[|run|];
    if t :| At(end, t) == Opening(c) {
      OpeningExactly(ss, run, t, c);
      assert t in end.pcs && Opens(end.pcs[t], c);
    }
    if t :| At(end, t) == OpenUndo(c) {
      UndoingExactly(ss, run, t, c);
      assert t in end.pcs && Opens(end.pcs[t], c);
    }
    if k, t :| 0 <= k < |run| && OpeningSince(ss, run, k, t, c) { OpeningExactly(ss, run, t, c); }
    if k, t :| 0 <= k < |run| && UndoingSince(ss, run, k, t, c) { UndoingExactly(ss, run, t, c); }
    if t :| t in end.pcs && Opens(end.pcs[t], c) {
      assert At(end, t) == Opening(c) || At(end, t) == OpenUndo(c);
    }
  }

  /** While a direction's handler still polls the reservation of a codec, and once it saw it resolved, no thread is
      in the middle of opening that codec. */
  lemma ResolvedReservationIsNotOpening(ss: seq<State>, run: seq<Action>, i: nat, t: Thread, u: Thread)
    requires IsRun(ss, run) && i < |run| && run[i] == PollReservation(t, false)
    ensures At(ss[i], u) != Opening(At(ss[i], t).codec)
  {
    RunKeepsInv(ss, run, i);
  }

  /** When the STOPPED handler of a codec ends its poll because it saw the reservation resolved, no open calls the
      codec until the direction is reserved for it again, exactly if no thread is left that has to undo an open of it:
      one whose last section found the direction rebound, and that has not closed the codec since. */
  lemma ResolvedPollExactly(ss: seq<State>, run: seq<Action>, t: Thread, c: Codec)
    requires IsRun(ss, run) && run != [] && run[|run| - 1] == PollReservation(t, false)
    requires At(ss[|run| - 1], t) == ListenPoll(c)
    ensures NoOpenUntilReservedAgain(ss, run, c) <==> forall u :: At(ss[|run|], u) != OpenUndo(c)
    ensures NoOpenUntilReservedAgain(ss, run, c) <==> !SomeoneUndoes(ss, run, c)
  {
    var n := |run| - 1;
    NoOpenExactly(ss, run, c);
    OpenersAre(ss, run, c);
    var end := ss[n + 1];
    forall u: Thread ensures At(end, u) != Opening(c) {
      ResolvedReservationIsNotOpening(ss, run, n, t, u);
      OpeningAfter(ss[n], run[n], u, c);
    }
  }

  /** When it ends because its time is up, also no thread may be left that is still opening the codec. */
  lemma TimedOutPollExactly(ss: seq<State>, run: seq<Action>, t: Thread, c: Codec)
    requires IsRun(ss, run) && run != [] && run[|run| - 1] == PollReservation(t, true)
    requires At(ss[|run| - 1], t) == ListenPoll(c)
    ensures NoOpenUntilReservedAgain(ss, run, c) <==>
      forall u :: At(ss[|run|], u) != Opening(c) && At(ss[|run|], u) != OpenUndo(c)
    ensures NoOpenUntilReservedAgain(ss, run, c) <==> !SomeoneOpens(ss, run, c) && !SomeoneUndoes(ss, run, c)
  {
    hide IsRun, SomeoneOpens, SomeoneUndoes, OpensQuiet, NoOpenUntilReservedAgain;
    RunLength(ss, run);
    NoOpenExactly(ss, run, c);
    OpenersAre(ss, run, c);
  }

  // --- the codec that has stopped, altogether

  /** However the run goes on, nobody calls the codec: no I/O and no close until it is bound again, no open until the
      direction is reserved for it again. */
  ghost predicate LeftAlone(ss: seq<State>, run: seq<Action>, c: Codec) {
    QuietUntilBoundAgain(ss, run, c) && NoOpenUntilReservedAgain(ss, run, c)
  }

  /** After the STOPPED handler (step `i`) that found the codec bound, and drained the handle in the slot if there was
      one, the codec is left alone exactly if no earlier event has left anything behind (a STARTED event that took a
      handle off the codec, a STOPPED handler that did not see the end of I/O, or a close that took its handle out of
      the slot), and no open of the codec is on its way or has to be undone. */
  lemma StoppedCodecStaysQuiet(ss: seq<State>, run: seq<Action>, i: nat, c: Codec)
    requires IsRun(ss, run) && c != NO_CODEC && i < |run| && run[i].CodecEvent? && run[i].stopped &&
      ss[i].codecSlot == c
    requires ss[i].slot.Open? ==> Drained(ss, run, i, ss[i].slot.handle)
    requires forall m :: i < m <= |run| ==> ss[m].codecSlot != c
    ensures QuietUntilBoundAgain(ss, run, c) <==> forall j, h :: 0 <= j < i ==> !Remains(ss, run, j, h, c)
    ensures LeftAlone(ss, run, c) <==>
      (forall j, h :: 0 <= j < i ==> !Remains(ss, run, j, h, c)) &&
      !SomeoneOpens(ss, run, c) && !SomeoneUndoes(ss, run, c)
  {
    hide Next, Enabled, Sound, Inv, Drained, QuietUntilBoundAgain, LeftBehind, InUse, Finishing, OpensQuiet,
      NoOpenUntilReservedAgain, SomeoneOpens, SomeoneUndoes;
    QuietExactlyWhenNothingIsLeftBehind(ss, run, c);
    LeftBehindExactly(ss, run, c);
    NoOpenExactly(ss, run, c);
    OpenersAre(ss, run, c);
    forall j: nat, h: HandleId | i <= j < |run| ensures !Remains(ss, run, j, h, c) {
      if j == i && Leaves(ss[i], run[i], h, c, ByStopped) { DrainedHasNoIo(ss, run, i, h, c); }
    }
  }

  /** When that handler found the direction reserved for the codec, and has just seen the reservation resolved, only
      an open that has to be undone can be in the way besides. */
  lemma PolledCodecStaysQuiet(ss: seq<State>, run: seq<Action>, i: nat, c: Codec)
    requires IsRun(ss, run) && c != NO_CODEC && i < |run| - 1
    requires run[i].CodecEvent? && run[i].stopped && ss[i].codecSlot == c && ss[i].slot == Reserved
    requires run[|run| - 1] == PollReservation(run[i].t, false) && At(ss[|run| - 1], run[i].t) == ListenPoll(c)
    requires forall m :: i < m <= |run| ==> ss[m].codecSlot != c
    ensures LeftAlone(ss, run, c) <==>
      (forall j, h :: 0 <= j < i ==> !Remains(ss, run, j, h, c)) && !SomeoneUndoes(ss, run, c)
  {
    hide Next, Enabled, Sound, Remains, QuietUntilBoundAgain, NoOpenUntilReservedAgain, SomeoneOpens, SomeoneUndoes;
    StoppedCodecStaysQuiet(ss, run, i, c);
    ResolvedPollExactly(ss, run, run[i].t, c);
  }

  // ---------------------------------------------------------------------------------------------
  // What the protocol does not give: concrete runs

  const OPENED := State(1, Open(0), NO_CODEC, true, [NewHandle(1)], map[0 := Idle])

  const OPENING := State(1, Reserved, 1, true, [], map[0 := Opening(1)])

  /** Thread 0 reserves the slot for a stream on codec 1. */
  lemma OpeningRun() returns (ss: seq<State>, run: seq<Action>)
    ensures Leads(ss, run, OPENING) && |run| == 2
  {
    hide Leads;
    var s0 := Init().(codecSlot := 1);
    ss, run := StartOfRun();
    ss, run := Extend(ss, run, Init(), Bind(1), s0);
    ss, run := Extend(ss, run, s0, Reserve(0, 1), OPENING);
  }

  /** It opens the stream. */
  lemma OpenedRun() returns (ss: seq<State>, run: seq<Action>)
    ensures Leads(ss, run, OPENED) && |run| == 3
  {
    hide Leads;
    ss, run := OpeningRun();
    ss, run := Extend(ss, run, OPENING, OpenCommit(0), OPENED);
  }

  /** Thread 1 has called read when thread 0 closes and deletes the handle: io_begin then reads freed memory. */
  lemma LateIoBegin() returns (ss: seq<State>, run: seq<Action>, s: State)
    ensures Leads(ss, run, s) && At(s, 1) == IoEntry(0)
    ensures Enabled(s, IoBegin(1)) && !Sound(s, IoBegin(1))
  {
    hide Leads;
    ss, run := OpenedRun();
    var s1 := OPENED.(pcs := map[0 := Idle, 1 := IoEntry(0)]);
    ss, run := Extend(ss, run, OPENED, EnterIo(1, 0), s1);
    var s2 := s1.(pcs := map[0 := CloseEntry(0), 1 := IoEntry(0)]);
    ss, run := Extend(ss, run, s1, EnterClose(0, 0), s2);
    ss, run, s := CloseToTheEnd(ss, run, s2);
    assert 0 in Touches(s, IoBegin(1));
  }

  /** set_enabled captures the slot's handle and gives the mutex back before it closes it. Here the owner closes and
      deletes the handle in between: set_enabled's close then reads freed memory. */
  lemma LateSetEnabled() returns (ss: seq<State>, run: seq<Action>, s: State)
    ensures Leads(ss, run, s) && |run| > 3 && run[3] == SetEnabled(1, false) && At(s, 1) == CloseEntry(0)
    ensures Enabled(s, CloseLatch(1)) && !Sound(s, CloseLatch(1))
  {
    hide Leads;
    ss, run := OpenedRun();
    var s1 := OPENED.(enabled := false, pcs := map[0 := Idle, 1 := CloseEntry(0)]);
    ss, run := Extend(ss, run, OPENED, SetEnabled(1, false), s1);
    var s2 := s1.(pcs := map[0 := CloseEntry(0), 1 := CloseEntry(0)]);
    ss, run := Extend(ss, run, s1, EnterClose(0, 0), s2);
    ss, run, s := CloseToTheEnd(ss, run, s2);
    assert 0 in Touches(s, CloseLatch(1));
  }

  const LATCHED := NewHandle(1).(closing := true)

  lemma CloseToTheEnd(ss0: seq<State>, run0: seq<Action>, s0: State)
    returns (ss: seq<State>, run: seq<Action>, s: State)
    requires s0 == OPENED.(enabled := s0.enabled, pcs := map[0 := CloseEntry(0), 1 := At(s0, 1)])
    requires Leads(ss0, run0, s0) && At(s0, 1) in {IoEntry(0), CloseEntry(0)}
    ensures Leads(ss, run, s) && At(s, 1) == At(s0, 1) && |s.handles| == 1 && s.handles[0].freed && run0 <= run
  {
    hide Leads;
    var s1 := s0.(slot := Free, handles := s0.handles[0 := LATCHED], pcs := s0.pcs[0 := CloseCodec(0, 1)]);
    ss, run := Extend(ss0, run0, s0, CloseLatch(0), s1);
    var s2 := s1.(pcs := s1.pcs[0 := CloseRelease(0)]);
    ss, run := Extend(ss, run, s1, CallCodecClose(0), s2);
    ss, run, s := ReleaseToTheEnd(ss, run, s2);
  }

  lemma ReleaseToTheEnd(ss0: seq<State>, run0: seq<Action>, s0: State)
    returns (ss: seq<State>, run: seq<Action>, s: State)
    requires |s0.handles| == 1 && s0.handles[0] == LATCHED && Leads(ss0, run0, s0)
    requires At(s0, 0) == CloseRelease(0)
    ensures Leads(ss, run, s) && At(s, 1) == At(s0, 1) && |s.handles| == 1 && s.handles[0].freed && run0 <= run
  {
    hide Leads;
    var s1 := s0.(handles := s0.handles[0 := DropRef(LATCHED)], pcs := s0.pcs[0 := Freeing(0)]);
    ss, run := Extend(ss0, run0, s0, Release(0), s1);
    s := s1.(handles := s1.handles[0 := Destroy(DropRef(LATCHED))], pcs := s1.pcs[0 := Idle]);
    ss, run := Extend(ss, run, s1, Delete(0), s);
  }

  /** A STARTED event rebinds the direction to codec 2 and leaves the handle bound to codec 1. The handler of codec
      1's STOPPED event finds nothing to do, as codec 1 is no longer in the slot, and the close calls into it. */
  lemma StartedRebindKeepsOldCodec() returns (ss: seq<State>, run: seq<Action>, s: State)
    ensures Leads(ss, run, s) && |run| == 6 && run[3] == CodecEvent(2, false, 2, true)
    ensures At(s, 0) == CloseCodec(0, 1) && s.codecSlot == 2
  {
    hide Leads;
    ss, run := OpenedRun();
    var rebound := NewHandle(1).(listenerClosed := true);
    var s1 := State(2, Free, NO_CODEC, true, [rebound], map[0 := Idle, 2 := Idle]);
    ss, run := Extend(ss, run, OPENED, CodecEvent(2, false, 2, true), s1);
    var s2 := s1.(pcs := map[0 := CloseEntry(0), 2 := Idle]);
    ss, run := Extend(ss, run, s1, EnterClose(0, 0), s2);
    s := s2.(handles := [rebound.(closing := true)], pcs := map[0 := CloseCodec(0, 1), 2 := Idle]);
    ss, run := Extend(ss, run, s2, CloseLatch(0), s);
  }

  /** The STOPPED handler waits for no close: one that has taken its handle out of the slot calls the codec after the
      handler has returned. */
  lemma CloseOutlivesStopped() returns (ss: seq<State>, run: seq<Action>, s: State)
    ensures Leads(ss, run, s) && |run| == 6 && run[5] == CodecEvent(2, true, NO_CODEC, true)
    ensures At(s, 2) == Idle && At(s, 0) == CloseCodec(0, 1) && s.codecSlot == NO_CODEC
  {
    hide Leads;
    ss, run := OpenedRun();
    var s1 := OPENED.(pcs := map[0 := CloseEntry(0)]);
    ss, run := Extend(ss, run, OPENED, EnterClose(0, 0), s1);
    var s2 := State(1, Free, NO_CODEC, true, [LATCHED], map[0 := CloseCodec(0, 1)]);
    ss, run := Extend(ss, run, s1, CloseLatch(0), s2);
    s := State(NO_CODEC, Free, NO_CODEC, true, [LATCHED], map[0 := CloseCodec(0, 1), 2 := Idle]);
    ss, run := Extend(ss, run, s2, CodecEvent(2, true, NO_CODEC, true), s);
  }

  const READING := OPENED.(handles := [NewHandle(1).(busy := 1)], pcs := map[0 := Idle, 1 := IoBusy(0, 1)])

  lemma ReadingRun() returns (ss: seq<State>, run: seq<Action>)
    ensures Leads(ss, run, READING) && |run| == 5
  {
    hide Leads;
    ss, run := OpenedRun();
    var s1 := OPENED.(pcs := map[0 := Idle, 1 := IoEntry(0)]);
    ss, run := Extend(ss, run, OPENED, EnterIo(1, 0), s1);
    ss, run := Extend(ss, run, s1, IoBegin(1), READING);
  }

  const SEVERED := Handle(NO_CODEC, 1, 2, false, true, Live(false), Live(false), false, false)

  const DRAINING :=
    State(NO_CODEC, Free, NO_CODEC, true, [SEVERED], map[0 := Idle, 1 := IoBusy(0, 1), 2 := ListenWait(0)])

  lemma DrainingRun() returns (ss: seq<State>, run: seq<Action>)
    ensures Leads(ss, run, DRAINING) && |run| == 6 && run[5] == CodecEvent(2, true, NO_CODEC, true)
  {
    hide Leads;
    ss, run := ReadingRun();
    ss, run := Extend(ss, run, READING, CodecEvent(2, true, NO_CODEC, true), DRAINING);
  }

  /** When the listener's wait times out, its handler ends with the read still inside the stopped codec. */
  lemma TimeoutLeavesIo() returns (ss: seq<State>, run: seq<Action>, s: State)
    ensures Leads(ss, run, s) && |run| == 8
    ensures run[5] == CodecEvent(2, true, NO_CODEC, true) && run[6] == ListenTimeout(2)
    ensures At(s, 2) == Idle && At(s, 1) == IoBusy(0, 1)
  {
    hide Leads;
    ss, run := DrainingRun();
    var s1 := DRAINING.(pcs := map[0 := Idle, 1 := IoBusy(0, 1), 2 := ListenRelease(0)]);
    ss, run := Extend(ss, run, DRAINING, ListenTimeout(2), s1);
    s := s1.(handles := [SEVERED.(refs := 1)], pcs := map[0 := Idle, 1 := IoBusy(0, 1), 2 := Idle]);
    ss, run := Extend(ss, run, s1, Release(2), s);
  }

  /** The listener could not create its semaphore: it never drops its reference, and the closed handle leaks. */
  lemma MissingSemaphoreLeaks() returns (ss: seq<State>, run: seq<Action>, s: State)
    ensures Leads(ss, run, s) && |run| == 11 && run[5] == CodecEvent(2, true, NO_CODEC, false)
    ensures forall t :: t in s.pcs ==> s.pcs[t] == Idle
    ensures |s.handles| == 1 && s.handles[0].closing && !s.handles[0].freed
  {
    hide Leads;
    ss, run := ReadingRun();
    var hd := Handle(NO_CODEC, 1, 2, false, true, Live(false), Missing, true, false);
    var s1 := State(NO_CODEC, Free, NO_CODEC, true, [hd], map[0 := Idle, 1 := IoBusy(0, 1), 2 := Idle]);
    ss, run := Extend(ss, run, READING, CodecEvent(2, true, NO_CODEC, false), s1);
    var s2 := s1.(handles := [hd.(busy := 0)], pcs := map[0 := Idle, 1 := Idle, 2 := Idle]);
    ss, run := Extend(ss, run, s1, IoEnd(1), s2);
    ss, run, s := CloseLeaked(ss, run, s2, hd.(busy := 0));
  }

  lemma CloseLeaked(ss0: seq<State>, run0: seq<Action>, s0: State, hd: Handle)
    returns (ss: seq<State>, run: seq<Action>, s: State)
    requires Leads(ss0, run0, s0) && hd == Handle(NO_CODEC, 0, 2, false, true, Live(false), Missing, true, false)
    requires s0 == State(NO_CODEC, Free, NO_CODEC, true, [hd], map[0 := Idle, 1 := Idle, 2 := Idle])
    ensures Leads(ss, run, s) && |run| == |run0| + 4 && run0 <= run
    ensures s == s0.(handles := [hd.(closing := true, refs := 1)])
  {
    hide Leads;
    var s1 := s0.(pcs := map[0 := CloseEntry(0), 1 := Idle, 2 := Idle]);
    ss, run := Extend(ss0, run0, s0, EnterClose(0, 0), s1);
    var s2 := s0.(handles := [hd.(closing := true)], pcs := map[0 := CloseCodec(0, NO_CODEC), 1 := Idle, 2 := Idle]);
    ss, run := Extend(ss, run, s1, CloseLatch(0), s2);
    var s3 := s2.(pcs := map[0 := CloseRelease(0), 1 := Idle, 2 := Idle]);
    ss, run := Extend(ss, run, s2, CallCodecClose(0), s3);
    s := s0.(handles := [hd.(closing := true, refs := 1)]);
    ss, run := Extend(ss, run, s3, Release(0), s);
  }

  /** A commit that finds the direction rebound gives the reservation up before it closes the codec, so a STOPPED
      handler that polls the reservation can end while that close is still to come. */
  lemma ResolvedReservationMayStillClose() returns (ss: seq<State>, run: seq<Action>, s: State)
    ensures Leads(ss, run, s) && |run| == 5
    ensures run[2] == CodecEvent(2, true, NO_CODEC, true) && run[4] == PollReservation(2, false)
    ensures At(s, 2) == Idle && At(s, 0) == OpenUndo(1)
  {
    hide Leads;
    ss, run := OpeningRun();
    var s1 := OPENING.(codecSlot := NO_CODEC, pcs := OPENING.pcs[2 := ListenPoll(1)]);
    ss, run := Extend(ss, run, OPENING, CodecEvent(2, true, NO_CODEC, true), s1);
    var s2 := s1.(slot := Free, reservation := NO_CODEC, pcs := s1.pcs[0 := OpenUndo(1)]);
    ss, run := Extend(ss, run, s1, OpenCommit(0), s2);
    s := s2.(pcs := s2.pcs[2 := Idle]);
    ss, run := Extend(ss, run, s2, PollReservation(2, false), s);
  }

  // ---------------------------------------------------------------------------------------------
  // The critical sections on the objects the driver updates in place. Each method is one section, run with
  // `AudioStreamData::mutex` held; its contract is the function the state machine takes the step with.

  class StreamHandle {
    const id: HandleId
    var codec: Codec
    var busyCount: int
    var lifetimeRefs: int
    var closing: bool
    var listenerClosed: bool
    var drainSemaphore: Semaphore
    var listenerDrainSemaphore: Semaphore
    ghost var leaked: bool
    ghost var freed: bool

    ghost function View(): Handle
      reads this
    {
      Handle(codec, busyCount, lifetimeRefs, closing, listenerClosed, drainSemaphore, listenerDrainSemaphore,
             leaked, freed)
    }

    constructor (id: HandleId, codec: Codec)
      ensures this.id == id && View() == NewHandle(codec)
    {
      this.id, this.codec := id, codec;
      busyCount, lifetimeRefs, closing, listenerClosed := 0, 1, false, false;
      drainSemaphore, listenerDrainSemaphore := FRESH_DRAIN, Missing;
      leaked, freed := false, false;
    }
  }

  class StreamData {
    var codecSlot: Codec
    var openHandle: StreamHandle?
    var reserved: bool
    var reservation: Codec

    /** The field holds a handle, the placeholder or null; handles are told apart by their address. */
    function SlotView(): Slot
      reads this
    {
      if openHandle != null then Open(openHandle.id) else if reserved then Reserved else Free
    }

    predicate Valid()
      reads this
    {
      openHandle != null ==> !reserved
    }

    predicate KnowsApart(h: StreamHandle)
      reads this
    {
      openHandle != null && openHandle.id == h.id ==> openHandle == h
    }

    constructor ()
      ensures Valid() && SlotView() == Free && codecSlot == NO_CODEC && reservation == NO_CODEC
    {
      codecSlot, openHandle, reserved, reservation := NO_CODEC, null, false, NO_CODEC;
    }

    method IoBegin(h: StreamHandle) returns (ok: bool, codec: Codec)
      requires KnowsApart(h)
      modifies h`busyCount
      ensures ok <==> openHandle == h && !h.closing && !h.listenerClosed && h.codec != NO_CODEC
      ensures ok <==> Admits(SlotView(), h.id, old(h.View()))
      ensures h.busyCount == old(h.busyCount) + if ok then 1 else 0
      ensures codec == if ok then h.codec else NO_CODEC
    {
      codec := NO_CODEC;
      if openHandle != h || h.closing || h.listenerClosed || h.codec == NO_CODEC {
        return false, codec;
      }
      codec := h.codec;
      h.busyCount := h.busyCount + 1;
      ok := true;
    }

    method IoEnd(h: StreamHandle)
      modifies h`busyCount, h`drainSemaphore, h`listenerDrainSemaphore
      ensures h.View() == EndIo(old(h.View()))
      ensures h.busyCount == old(h.busyCount) - 1
      ensures h.drainSemaphore ==
        if h.busyCount == 0 && h.closing && old(h.drainSemaphore).Live? then Live(true) else old(h.drainSemaphore)
      ensures h.listenerDrainSemaphore ==
        if h.busyCount == 0 && h.listenerClosed && old(h.listenerDrainSemaphore).Live? then Live(true)
        else old(h.listenerDrainSemaphore)
    {
      h.busyCount := h.busyCount - 1;
      if h.busyCount == 0 {
        if h.closing && h.drainSemaphore.Live? {
          h.drainSemaphore := Live(true);
        }
        if h.listenerClosed && h.listenerDrainSemaphore.Live? {
          h.listenerDrainSemaphore := Live(true);
        }
      }
    }

    /** release_lifetime_ref up to the point where it gives the mutex back. */
    method ReleaseLifetimeRef(h: StreamHandle) returns (lastRef: bool)
      modifies h`lifetimeRefs, h`drainSemaphore, h`listenerDrainSemaphore
      ensures h.View() == DropRef(old(h.View()))
      ensures h.lifetimeRefs == old(h.lifetimeRefs) - 1 && (lastRef <==> h.lifetimeRefs == 0)
      ensures lastRef ==> !h.drainSemaphore.Live? && !h.listenerDrainSemaphore.Live?
      ensures !lastRef || !old(h.drainSemaphore).Live? ==> h.drainSemaphore == old(h.drainSemaphore)
      ensures !lastRef || !old(h.listenerDrainSemaphore).Live? ==>
        h.listenerDrainSemaphore == old(h.listenerDrainSemaphore)
    {
      h.lifetimeRefs := h.lifetimeRefs - 1;
      lastRef := h.lifetimeRefs == 0;
      if lastRef {
        h.drainSemaphore := Detach(h.drainSemaphore);
        h.listenerDrainSemaphore := Detach(h.listenerDrainSemaphore);
      }
    }

    /** The first section of close_stream; `won` is false for every caller but the first. */
    method CloseLatch(h: StreamHandle) returns (won: bool, mustDrain: bool, codec: Codec)
      requires Valid() && KnowsApart(h)
      modifies this`openHandle, h`closing
      ensures Valid()
      ensures won <==> !old(h.closing)
      ensures h.View() == old(h.View()).(closing := true)
      ensures openHandle == if won && old(openHandle) == h then null else old(openHandle)
      ensures SlotView() == if won then LatchSlot(old(SlotView()), h.id) else old(SlotView())
      ensures won ==> codec == h.codec && (mustDrain <==> h.busyCount > 0)
    {
      mustDrain, codec := false, NO_CODEC;
      if h.closing {
        return false, mustDrain, codec;
      }
      h.closing := true;
      if openHandle == h {
        openHandle := null;
      }
      won, mustDrain, codec := true, h.busyCount > 0, h.codec;
    }

    /** The listener's section for one direction; `created` tells whether a semaphore could be created. A direction
        whose preferred codec is the bound one is left alone. */
    method OnCodecEvent(stopped: bool, preferred: Codec, created: bool)
      returns (drained: StreamHandle?, mustWaitForOpen: bool)
      requires Valid()
      modifies this`codecSlot, this`openHandle, openHandle
      ensures Valid() && codecSlot == preferred
      ensures preferred == old(codecSlot) ==> drained == null && !mustWaitForOpen && unchanged(this)
      ensures preferred == old(codecSlot) && openHandle != null ==> unchanged(openHandle)
      ensures preferred != old(codecSlot) ==>
        && SlotView() == (if old(SlotView()).Open? then Free else old(SlotView()))
        && (old(openHandle) != null ==>
              old(openHandle).View() == ListenerClose(old(openHandle.View()), old(codecSlot), stopped, created))
        && (drained != null <==>
              old(openHandle) != null && ListenerWaits(old(openHandle.View()), old(codecSlot), stopped, created))
        && (mustWaitForOpen <==> stopped && old(SlotView()) == Reserved && reservation == old(codecSlot))
      ensures drained != null ==> drained == old(openHandle)
      ensures preferred != old(codecSlot) && old(openHandle) != null ==>
        var h, severs := old(openHandle), stopped && old(openHandle.codec) == old(codecSlot);
        var waits := severs && old(openHandle.busyCount) > 0;
        && openHandle == null && h.listenerClosed && h.codec == (if severs then NO_CODEC else old(openHandle.codec))
        && h.lifetimeRefs == old(openHandle.lifetimeRefs) + (if waits then 1 else 0)
        && (waits && created ==> h.listenerDrainSemaphore == Live(false))
        && (drained != null <==> waits && created)
    {
      if preferred == codecSlot {
        return null, false;
      }
      var current := codecSlot;
      drained := null;
      mustWaitForOpen := stopped && openHandle == null && reserved && reservation == current;
      if openHandle != null {
        var handle := openHandle;
        if stopped && handle.codec == current {
          handle.codec := NO_CODEC;
          if handle.busyCount > 0 {
            handle.listenerDrainSemaphore := if created then Live(false) else Missing;
            handle.lifetimeRefs := handle.lifetimeRefs + 1;
            handle.leaked := handle.leaked || !created;
            if created {
              drained := handle;
            }
          }
        }
        handle.listenerClosed := true;
        openHandle := null;
      }
      codecSlot := preferred;
    }

    /** The last section of open_stream: commit the handle, or undo the open when the direction was rebound. */
    method OpenCommit(handle: StreamHandle) returns (ok: bool)
      requires openHandle == null && reserved
      modifies this`openHandle, this`reserved, this`reservation
      ensures ok <==> codecSlot == handle.codec
      ensures Valid() && SlotView() == (if ok then Open(handle.id) else Free) && reservation == NO_CODEC
    {
      ok := codecSlot == handle.codec;
      reserved, reservation := false, NO_CODEC;
      if ok {
        openHandle := handle;
      }
    }
  }
}
