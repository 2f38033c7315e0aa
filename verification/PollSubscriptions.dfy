/** Poll subscriptions to system events: system_event.cpp.

  Subscriptions are nodes of an intrusive list that the caller owns. Every call holds the one mutex throughout, so a
  run is a sequence of calls. The event groups that waiting tasks sleep on are left out; whether a bit could be claimed
  is a parameter.
*/
module PollSubscriptions {
  import opened Wrappers

  type Byte = x: int | 0 <= x < 256

  datatype Error = NoError | Resource | InvalidState | NotFound | Timeout | BufferOverflow

  /** A pointer and two 32-bit numbers on the ESP32. */
  const MAX_DATA_SIZE: nat := 12

  const SEQUENCES: nat := 0x1_0000_0000

  datatype Event = Event(kind: nat, time: nat, payload: seq<Byte>)

  /** The fields of a subscription. Bytes of `data` from `dataLen` on are left over from earlier events. */
  datatype Fields = Fields(
    kind: nat, time: nat, data: seq<Byte>, dataLen: nat, sequence: nat, consumed: nat, cancelled: bool)

  // ---------------------------------------------------------------------------------------------
  // What the calls do to one subscription

  function Copied(e: Event): (n: nat)
    ensures n <= MAX_DATA_SIZE && n <= |e.payload|
  {
    if |e.payload| < MAX_DATA_SIZE then |e.payload| else MAX_DATA_SIZE
  }

  function Registered(f: Fields): Fields {
    f.(sequence := 0, consumed := 0, cancelled := false, dataLen := 0)
  }

  function Notified(f: Fields, e: Event): Fields
    requires |f.data| == MAX_DATA_SIZE
  {
    if f.kind != e.kind then f
    else f.(time := e.time, data := e.payload[..Copied(e)] + f.data[Copied(e)..], dataLen := Copied(e),
            sequence := (f.sequence + 1) % SEQUENCES)
  }

  function PollResult(f: Fields): Error {
    if f.sequence != f.consumed then NoError else if f.cancelled then InvalidState else Timeout
  }

  function Polled(f: Fields): Fields {
    f.(consumed := f.sequence)
  }

  // ---------------------------------------------------------------------------------------------
  // Whole runs

  type Sub = nat

  datatype State = State(list: seq<Sub>, subs: map<Sub, Fields>)

  /** `Configure` is the caller setting the event type before it subscribes. */
  datatype Call =
    | Configure(s: Sub, kind: nat)
    | Subscribe(s: Sub, claimed: bool)
    | Unsubscribe(s: Sub)
    | Emit(e: Event)
    | Poll(s: Sub)

  predicate Sane(st: State) {
    forall s :: s in st.subs ==> |st.subs[s].data| == MAX_DATA_SIZE
  }

  /** The subscription exists, and is not added while it is further down in the list. */
  predicate Allowed(st: State, c: Call) {
    match c
    case Configure(s, _) => s in st.subs && s !in st.list
    case Subscribe(s, _) => s in st.subs && (s in st.list ==> st.list[0] == s)
    case Unsubscribe(s) => s in st.subs
    case Emit(_) => true
    case Poll(s) => s in st.subs
  }

  /** The call is refused or adds the subscription. */
  predicate Adds(st: State, c: Call) {
    c.Subscribe? && c.claimed && !(st.list != [] && st.list[0] == c.s)
  }

  function Without(list: seq<Sub>, s: Sub): seq<Sub> {
    if list == [] then [] else if list[0] == s then list[1..] else [list[0]] + Without(list[1..], s)
  }

  function Next(st: State, c: Call): State
    requires Sane(st) && Allowed(st, c)
  {
    match c
    case Configure(s, kind) => st.(subs := st.subs[s := st.subs[s].(kind := kind)])
    case Subscribe(s, _) =>
      if Adds(st, c) then State([s] + st.list, st.subs[s := Registered(st.subs[s])]) else st
    case Unsubscribe(s) =>
      if s in st.list then State(Without(st.list, s), st.subs[s := st.subs[s].(cancelled := true)]) else st
    case Emit(e) => st.(subs := map s | s in st.subs :: if s in st.list then Notified(st.subs[s], e) else st.subs[s])
    case Poll(s) => st.(subs := st.subs[s := Polled(st.subs[s])])
  }

  predicate NoDuplicates(list: seq<Sub>) {
    forall i, j :: 0 <= i < j < |list| ==> list[i] != list[j]
  }

  predicate Inv(st: State) {
    Sane(st) && NoDuplicates(st.list) && (forall s :: s in st.list ==> s in st.subs) &&
    forall s :: s in st.subs ==> st.subs[s].sequence < SEQUENCES && st.subs[s].consumed < SEQUENCES
  }

  ghost predicate IsRun(states: seq<State>, calls: seq<Call>) {
    |states| == |calls| + 1 && Inv(states[0]) && states[0].list == [] &&
    forall i :: 0 <= i < |calls| ==>
      Sane(states[i]) && Allowed(states[i], calls[i]) && states[i + 1] == Next(states[i], calls[i])
  }

  lemma {:induction false} WithoutMeaning(list: seq<Sub>, s: Sub)
    requires NoDuplicates(list)
    ensures NoDuplicates(Without(list, s)) && forall x :: x in Without(list, s) <==> x in list && x != s
  {
    if list != [] {
      assert list == [list[0]] + list[1..];
      assert forall i, j :: 0 <= i < j < |list[1..]| ==> list[1..][i] == list[i + 1] && list[1..][j] == list[j + 1];
      if list[0] != s {
        WithoutMeaning(list[1..], s);
        assert list[0] !in list[1..];
        var w := Without(list[1..], s);
        assert forall i, j :: 0 <= i < j < |w| ==> w[i] != w[j];
      }
    }
  }

  lemma NextInv(st: State, c: Call)
    requires Inv(st) && Allowed(st, c)
    ensures Inv(Next(st, c))
  {
    WithoutMeaning(st.list, if c.Emit? then 0 else c.s);
  }

  lemma {:induction false} RunInv(states: seq<State>, calls: seq<Call>, i: nat)
    requires IsRun(states, calls) && i < |states|
    ensures Inv(states[i])
  {
    if i > 0 {
      RunInv(states, calls, i - 1);
      NextInv(states[i - 1], calls[i - 1]);
    }
  }

  /** Whether a subscription is registered, by the calls alone: the last one that added or removed it added it. */
  ghost predicate Listed(states: seq<State>, calls: seq<Call>, i: nat, s: Sub)
    requires |states| == |calls| + 1 && i < |states|
  {
    i > 0 &&
    (if Adds(states[i - 1], calls[i - 1]) && calls[i - 1].s == s then true
     else if calls[i - 1] == Unsubscribe(s) then false
     else Listed(states, calls, i - 1, s))
  }

  /** In every run the list holds exactly the registered subscriptions, each of them once. */
  lemma {:induction false} ListHoldsTheRegistered(states: seq<State>, calls: seq<Call>, i: nat, s: Sub)
    requires IsRun(states, calls) && i < |states|
    ensures NoDuplicates(states[i].list)
    ensures s in states[i].list <==> Listed(states, calls, i, s)
  {
    RunInv(states, calls, i);
    if i > 0 {
      ListHoldsTheRegistered(states, calls, i - 1, s);
      RunInv(states, calls, i - 1);
      var c := calls[i - 1];
      WithoutMeaning(states[i - 1].list, if c.Emit? then 0 else c.s);
    }
  }

  /** Matching events since the subscription was added or last polled with success. */
  ghost function Unseen(states: seq<State>, calls: seq<Call>, i: nat, s: Sub): nat
    requires IsRun(states, calls) && i < |states|
  {
    if i == 0 then 0
    else
      var st, c, before := states[i - 1], calls[i - 1], Unseen(states, calls, i - 1, s);
      match c
      case Subscribe(x, _) => if x == s && Adds(st, c) then 0 else before
      case Emit(e) => if s in st.list && s in st.subs && st.subs[s].kind == e.kind then before + 1 else before
      case Poll(x) => if x == s && PollResult(st.subs[s]) == NoError then 0 else before
      case _ => before
  }

  lemma {:induction false} SequenceCounts(states: seq<State>, calls: seq<Call>, i: nat, s: Sub)
    requires IsRun(states, calls) && i < |states| && Listed(states, calls, i, s)
    ensures s in states[i].subs && !states[i].subs[s].cancelled
    ensures states[i].subs[s].sequence == (states[i].subs[s].consumed + Unseen(states, calls, i, s)) % SEQUENCES
  {
    hide Next, Sane, NoDuplicates, PollResult;
    RunInv(states, calls, i - 1);
    ListHoldsTheRegistered(states, calls, i - 1, s);
    var st, c := states[i - 1], calls[i - 1];
    if Adds(st, c) && c.s == s {
      AddedCounts(st, c);
    } else {
      SequenceCounts(states, calls, i - 1, s);
      StepCounts(st, c, s, Unseen(states, calls, i - 1, s));
    }
  }

  lemma AddedCounts(st: State, c: Call)
    requires Sane(st) && Allowed(st, c) && Adds(st, c)
    ensures var r := Next(st, c);
      c.s in r.subs && !r.subs[c.s].cancelled && r.subs[c.s].sequence == 0 && r.subs[c.s].consumed == 0
  {
  }

  lemma StepCounts(st: State, c: Call, s: Sub, unseen: nat)
    requires Inv(st) && Allowed(st, c) && s in st.list && c != Unsubscribe(s) && !(Adds(st, c) && c.s == s)
    requires st.subs[s].sequence == (st.subs[s].consumed + unseen) % SEQUENCES
    ensures var after := match c
        case Emit(e) => if st.subs[s].kind == e.kind then unseen + 1 else unseen
        case Poll(x) => if x == s && PollResult(st.subs[s]) == NoError then 0 else unseen
        case _ => unseen;
      s in Next(st, c).subs &&
      Next(st, c).subs[s].sequence == (Next(st, c).subs[s].consumed + after) % SEQUENCES &&
      Next(st, c).subs[s].cancelled == st.subs[s].cancelled
  {
  }

  /** While a subscription is registered, a poll succeeds exactly if the number of matching events since it was added or
    last polled with success is not a multiple of 2^32. */
  lemma PollSeesEvents(states: seq<State>, calls: seq<Call>, i: nat, s: Sub)
    requires IsRun(states, calls) && i < |states| && Listed(states, calls, i, s)
    ensures s in states[i].subs
    ensures PollResult(states[i].subs[s]) == if Unseen(states, calls, i, s) % SEQUENCES != 0 then NoError else Timeout
  {
    SequenceCounts(states, calls, i, s);
    RunInv(states, calls, i);
    WrapsExactly(states[i].subs[s].consumed, Unseen(states, calls, i, s));
  }

  lemma WrapsExactly(consumed: nat, unseen: nat)
    requires consumed < SEQUENCES
    ensures (consumed + unseen) % SEQUENCES == consumed <==> unseen % SEQUENCES == 0
  {
  }

  /** With fewer than 2^32 of them that is: if there was one. */
  lemma PollSeesAnyEvent(states: seq<State>, calls: seq<Call>, i: nat, s: Sub)
    requires IsRun(states, calls) && i < |states| && Listed(states, calls, i, s) &&
      Unseen(states, calls, i, s) < SEQUENCES
    ensures s in states[i].subs && (PollResult(states[i].subs[s]) == NoError <==> Unseen(states, calls, i, s) > 0)
  {
    PollSeesEvents(states, calls, i, s);
  }

  /** Whether a subscription has been removed, by the calls alone, and not been added again. */
  ghost predicate Removed(states: seq<State>, calls: seq<Call>, i: nat, s: Sub)
    requires |states| == |calls| + 1 && i < |states|
  {
    i > 0 &&
    (if Adds(states[i - 1], calls[i - 1]) && calls[i - 1].s == s then false
     else Removed(states, calls, i - 1, s) || (calls[i - 1] == Unsubscribe(s) && Listed(states, calls, i - 1, s)))
  }

  lemma {:induction false} RemovedIsCancelled(states: seq<State>, calls: seq<Call>, i: nat, s: Sub)
    requires IsRun(states, calls) && i < |states| && Removed(states, calls, i, s)
    ensures s in states[i].subs && states[i].subs[s].cancelled && s !in states[i].list
    ensures states[i].subs[s].sequence == (states[i].subs[s].consumed + Unseen(states, calls, i, s)) % SEQUENCES
  {
    hide Next, Sane, NoDuplicates, PollResult;
    RunInv(states, calls, i - 1);
    var st, c := states[i - 1], calls[i - 1];
    ListHoldsTheRegistered(states, calls, i - 1, s);
    if Removed(states, calls, i - 1, s) {
      RemovedIsCancelled(states, calls, i - 1, s);
      StepOfRemoved(st, c, s, Unseen(states, calls, i - 1, s));
    } else {
      SequenceCounts(states, calls, i - 1, s);
      Removal(st, s);
    }
  }

  lemma Removal(st: State, s: Sub)
    requires Inv(st) && s in st.list && s in st.subs
    ensures var r := Next(st, Unsubscribe(s));
      s !in r.list && s in r.subs && r.subs[s] == st.subs[s].(cancelled := true)
  {
    WithoutMeaning(st.list, s);
  }

  lemma StepOfRemoved(st: State, c: Call, s: Sub, unseen: nat)
    requires Inv(st) && Allowed(st, c) && s in st.subs && s !in st.list && !(Adds(st, c) && c.s == s)
    requires st.subs[s].cancelled && st.subs[s].sequence == (st.subs[s].consumed + unseen) % SEQUENCES
    ensures var r := Next(st, c);
      var after := if c == Poll(s) && PollResult(st.subs[s]) == NoError then 0 else unseen;
      s in r.subs && s !in r.list && r.subs[s].cancelled &&
      r.subs[s].sequence == (r.subs[s].consumed + after) % SEQUENCES
  {
    WithoutMeaning(st.list, if c.Emit? then 0 else c.s);
  }

  /** Once a subscription has been removed, a poll still reports what is pending, and otherwise, also after such a
    report, that the subscription is gone. */
  lemma PollAfterRemoval(states: seq<State>, calls: seq<Call>, i: nat, s: Sub)
    requires IsRun(states, calls) && i < |states| && Removed(states, calls, i, s)
    ensures s in states[i].subs
    ensures PollResult(states[i].subs[s]) ==
      if Unseen(states, calls, i, s) % SEQUENCES != 0 then NoError else InvalidState
    ensures i < |calls| && calls[i] == Poll(s) ==>
      s in states[i + 1].subs && PollResult(states[i + 1].subs[s]) == InvalidState
  {
    RemovedIsCancelled(states, calls, i, s);
    RunInv(states, calls, i);
    WrapsExactly(states[i].subs[s].consumed, Unseen(states, calls, i, s));
  }

  /** The last matching event since the subscription was added. */
  ghost function LastEvent(states: seq<State>, calls: seq<Call>, i: nat, s: Sub): Option<Event>
    requires IsRun(states, calls) && i < |states|
  {
    if i == 0 then None
    else
      var st, c, before := states[i - 1], calls[i - 1], LastEvent(states, calls, i - 1, s);
      match c
      case Subscribe(x, _) => if x == s && Adds(st, c) then None else before
      case Emit(e) => if s in st.list && s in st.subs && st.subs[s].kind == e.kind then Some(e) else before
      case _ => before
  }

  predicate Holds(f: Fields, e: Option<Event>) {
    |f.data| == MAX_DATA_SIZE && f.dataLen <= MAX_DATA_SIZE &&
    match e
    case None => f.dataLen == 0
    case Some(e) =>
      var n := if |e.payload| < MAX_DATA_SIZE then |e.payload| else MAX_DATA_SIZE;
      f.data[..f.dataLen] == e.payload[..n] && f.time == e.time
  }

  /** A registered subscription holds the data of the last matching event, cut at the size of its buffer; and none
    before the first. */
  lemma {:induction false} HoldsLastEvent(states: seq<State>, calls: seq<Call>, i: nat, s: Sub)
    requires IsRun(states, calls) && i < |states| && Listed(states, calls, i, s)
    ensures s in states[i].subs && Holds(states[i].subs[s], LastEvent(states, calls, i, s))
  {
    hide Sane;
    RunInv(states, calls, i - 1);
    ListHoldsTheRegistered(states, calls, i - 1, s);
    var st, c := states[i - 1], calls[i - 1];
    if Adds(st, c) && c.s == s {
      AddedHoldsNothing(st, c);
    } else {
      HoldsLastEvent(states, calls, i - 1, s);
      StepHolds(st, c, s, LastEvent(states, calls, i - 1, s));
    }
  }

  lemma AddedHoldsNothing(st: State, c: Call)
    requires Sane(st) && Allowed(st, c) && Adds(st, c)
    ensures Holds(Next(st, c).subs[c.s], None)
  {
  }

  lemma StepHolds(st: State, c: Call, s: Sub, last: Option<Event>)
    requires Sane(st) && Allowed(st, c) && s in st.list && s in st.subs && !(Adds(st, c) && c.s == s)
    requires Holds(st.subs[s], last)
    ensures Holds(Next(st, c).subs[s], if c.Emit? && st.subs[s].kind == c.e.kind then Some(c.e) else last)
  {
    if c.Emit? && st.subs[s].kind == c.e.kind {
      var f := Notified(st.subs[s], c.e);
      assert f.data[..f.dataLen] == c.e.payload[..Copied(c.e)];
    }
  }

  // ---------------------------------------------------------------------------------------------
  // Adding a subscription twice

  /** The list as pointers. */
  datatype Links = Links(head: Option<Sub>, next: map<Sub, Option<Sub>>)

  function Follow(links: Links, from: Option<Sub>, steps: nat): Option<Sub>
    decreases steps
  {
    if steps == 0 || from.None? then from
    else Follow(links, if from.value in links.next then links.next[from.value] else None, steps - 1)
  }

  /** A walk along the list, as every call takes it, comes to an end. */
  ghost predicate Ends(links: Links) {
    exists n: nat :: Follow(links, links.head, n) == None
  }

  /** What system_event_subscribe does to the links once its check has passed. */
  function Linked(links: Links, s: Sub): Links {
    Links(Some(s), links.next[s := links.head])
  }

  lemma {:induction false} FollowAvoiding(links: Links, other: Links, from: Option<Sub>, n: nat, s: Sub)
    requires forall k: nat :: k <= n ==> Follow(links, from, k) != Some(s)
    requires forall x :: x != s ==>
      (x in links.next <==> x in other.next) && (x in links.next ==> links.next[x] == other.next[x])
    ensures Follow(other, from, n) == Follow(links, from, n)
    decreases n
  {
    if n > 0 && from.Some? {
      assert Follow(links, from, 0) != Some(s);
      var to := if from.value in links.next then links.next[from.value] else None;
      forall k: nat | k <= n - 1 ensures Follow(links, to, k) != Some(s) {
        assert Follow(links, from, k + 1) == Follow(links, to, k);
      }
      FollowAvoiding(links, other, to, n - 1, s);
    }
  }

  lemma {:induction false} FollowSteps(links: Links, from: Option<Sub>, a: nat, b: nat)
    ensures Follow(links, from, a + b) == Follow(links, Follow(links, from, a), b)
    decreases a
  {
    if a > 0 && from.Some? {
      FollowSteps(links, if from.value in links.next then links.next[from.value] else None, a - 1, b);
    } else if from.None? {
      NothingFollows(links, b);
    }
  }

  lemma {:induction false} NothingFollows(links: Links, n: nat)
    ensures Follow(links, None, n) == None
  {
  }

  /** A walk that comes by `s` again after `period` steps never ends. */
  lemma {:induction false} RoundAndRound(links: Links, s: Sub, period: nat, n: nat)
    requires period > 0 && Follow(links, Some(s), period) == Some(s)
    ensures Follow(links, Some(s), n) != None
    decreases n
  {
    if n >= period {
      FollowSteps(links, Some(s), period, n - period);
      RoundAndRound(links, s, period, n - period);
    } else {
      FollowSteps(links, Some(s), n, period - n);
      NothingFollows(links, period - n);
    }
  }

  /** Registering a subscription keeps the list finite exactly if it is not in it yet. The call itself only turns down
    the one at the head. */
  lemma SubscribeTwiceNeverEnds(links: Links, s: Sub)
    requires Ends(links)
    ensures Ends(Linked(links, s)) <==> forall n: nat :: Follow(links, links.head, n) != Some(s)
  {
    var after := Linked(links, s);
    var old' := links.head;
    if m: nat :| Follow(links, old', m) == Some(s) {
      var k := FirstVisit(links, s, m);
      if k > 0 { FollowAvoiding(links, after, old', k - 1, s); }
      ArrivesAgain(links, s, k);
      forall n: nat ensures Follow(after, after.head, n) != None { RoundAndRound(after, s, k + 1, n); }
    } else {
      var n: nat :| Follow(links, old', n) == None;
      FollowAvoiding(links, after, old', n, s);
      assert Follow(after, after.head, n + 1) == Follow(after, old', n);
    }
  }

  lemma {:induction false} FirstVisit(links: Links, s: Sub, m: nat) returns (k: nat)
    requires Follow(links, links.head, m) == Some(s)
    ensures Follow(links, links.head, k) == Some(s)
    ensures forall j: nat :: j < k ==> Follow(links, links.head, j) != Some(s)
  {
    k := 0;
    while Follow(links, links.head, k) != Some(s)
      invariant k <= m
      invariant forall j: nat :: j < k ==> Follow(links, links.head, j) != Some(s)
      decreases m - k
    {
      k := k + 1;
    }
  }

  lemma ArrivesAgain(links: Links, s: Sub, k: nat)
    requires Follow(links, links.head, k) == Some(s)
    requires forall j: nat :: j < k ==> Follow(links, links.head, j) != Some(s)
    ensures Follow(Linked(links, s), Some(s), k + 1) == Some(s)
  {
    var after := Linked(links, s);
    FollowSteps(after, Some(s), 1, k);
    OneStep(after, Some(s));
    hide Follow;
    assert Follow(after, Some(s), 1 + k) == Follow(after, links.head, k);
    if k > 0 {
      FollowAvoiding(links, after, links.head, k - 1, s);
      FollowSteps(links, links.head, k - 1, 1);
      FollowSteps(after, links.head, k - 1, 1);
      OneStep(links, Follow(links, links.head, k - 1));
      OneStep(after, Follow(links, links.head, k - 1));
    } else {
      NoStep(after, links.head);
      NoStep(links, links.head);
    }
  }

  lemma NoStep(links: Links, from: Option<Sub>)
    ensures Follow(links, from, 0) == from
  {
  }

  lemma OneStep(links: Links, from: Option<Sub>)
    ensures Follow(links, from, 1) ==
      if from.None? then None
      else if from.value in links.next then links.next[from.value] else None
  {
    if from.Some? {
      assert Follow(links, from, 1) ==
        Follow(links, if from.value in links.next then links.next[from.value] else None, 0);
    }
  }

  // ---------------------------------------------------------------------------------------------
  // The intrusive list

  class Subscription {
    var fields: Fields
    var next: Subscription?

    constructor (kind: nat)
      ensures fields.kind == kind && |fields.data| == MAX_DATA_SIZE
    {
      fields := Fields(kind, 0, seq(MAX_DATA_SIZE, _ => 0), 0, 0, 0, false);
      next := null;
    }

    /** The body of the loop in notify_poll_subscribers. */
    method Notify(e: Event)
      requires |fields.data| == MAX_DATA_SIZE
      modifies this`fields
      ensures fields == Notified(old(fields), e) && |fields.data| == MAX_DATA_SIZE
    {
      if fields.kind == e.kind {
        var copied := if |e.payload| < MAX_DATA_SIZE then |e.payload| else MAX_DATA_SIZE;
        fields := fields.(time := e.time, data := e.payload[..copied] + fields.data[copied..], dataLen := copied);
        fields := fields.(sequence := (fields.sequence + 1) % SEQUENCES);
      }
    }

    /** The check and the mark of system_event_poll. */
    method Poll() returns (error: Error)
      modifies this`fields
      ensures error == PollResult(old(fields)) && fields == Polled(old(fields))
      ensures error == NoError <==> old(fields).sequence != old(fields).consumed
      ensures error == InvalidState <==> old(fields).sequence == old(fields).consumed && fields.cancelled
    {
      var pending, cancelled := fields.sequence != fields.consumed, fields.cancelled;
      if pending { fields := fields.(consumed := fields.sequence); }
      return if pending then NoError else if cancelled then InvalidState else Timeout;
    }

    /** Copies the event's data, if there is room for all of it. */
    method GetData(out: array<Byte>) returns (error: Error)
      requires fields.dataLen <= |fields.data|
      modifies out
      ensures error == if out.Length < fields.dataLen then BufferOverflow else NoError
      ensures error == NoError ==> out[..] == fields.data[..fields.dataLen] + old(out[..])[fields.dataLen..]
      ensures error != NoError ==> out[..] == old(out[..])
    {
      if out.Length < fields.dataLen { return BufferOverflow; }
      forall i | 0 <= i < fields.dataLen {
        out[i] := fields.data[i];
      }
      return NoError;
    }
  }

  ghost function Successor(list: seq<Subscription>, i: nat): Subscription? {
    if i + 1 < |list| then list[i + 1] else null
  }

  class PollList {
    var head: Subscription?
    ghost var list: seq<Subscription>

    ghost predicate Valid()
      reads this, list
    {
      head == (if list == [] then null else list[0]) &&
      (forall i :: 0 <= i < |list| ==> list[i].next == Successor(list, i)) &&
      (forall i, j :: 0 <= i < j < |list| ==> list[i] != list[j]) &&
      (forall i :: 0 <= i < |list| ==> |list[i].fields.data| == MAX_DATA_SIZE)
    }

    constructor ()
      ensures Valid() && list == []
    {
      head, list := null, [];
    }

    /** The links lead from the subscription at `k` to the front, and from there back to it. */
    ghost predicate Circle(k: nat)
      reads this, list
    {
      k < |list| && head == list[k] && list[k].next == list[0] && forall i :: 0 <= i < k ==> list[i].next == list[i + 1]
    }

    /** `claimed` says whether the event group had a bit left. Only the first node is recognised as registered
      already; one that is further down turns the list into a circle. */
    method Subscribe(sub: Subscription, claimed: bool) returns (error: Error)
      requires Valid() && |sub.fields.data| == MAX_DATA_SIZE
      modifies this, sub
      ensures error == if !claimed then Resource else if old(head) == sub then InvalidState else NoError
      ensures error == NoError ==> sub.fields == Registered(old(sub.fields))
      ensures error == NoError && sub !in old(list) ==> Valid() && list == [sub] + old(list)
      ensures error == NoError && sub in old(list) ==>
        list == old(list) && exists k :: 0 < k < |list| && list[k] == sub && Circle(k)
      ensures error != NoError ==> Valid() && list == old(list) && sub.fields == old(sub.fields)
    {
      if !claimed { return Resource; }
      if head == sub { return InvalidState; }
      sub.fields := Registered(sub.fields);
      sub.next := head;
      head := sub;
      ghost var rest := list;
      if sub in list {
        ghost var k :| 0 <= k < |list| && list[k] == sub;
        assert forall i :: 0 <= i < k ==> list[i].next == Successor(rest, i);
        assert Circle(k);
      } else {
        list := [sub] + list;
        assert forall i :: 0 < i < |list| ==> list[i] == rest[i - 1];
        assert forall i :: 0 < i < |list| ==> Successor(list, i) == Successor(rest, i - 1);
      }
      return NoError;
    }

    /** Takes out exactly that subscription. */
    method Unsubscribe(sub: Subscription) returns (error: Error)
      requires Valid()
      modifies this, list, sub
      ensures Valid()
      ensures error == if sub in old(list) then NoError else NotFound
      ensures sub in old(list) ==>
        exists k :: 0 <= k < |old(list)| && old(list)[k] == sub && list == old(list)[..k] + old(list)[k + 1..]
      ensures sub !in old(list) ==> list == old(list)
      ensures forall n :: n in old(list) && n != sub ==> n.fields == old(n.fields)
      ensures sub.fields == if sub in old(list) then old(sub.fields).(cancelled := true) else old(sub.fields)
    {
      ghost var before := list;
      var previous, found, k := Find(sub);
      if !found { return NotFound; }
      Unlink(previous, sub, k);
      sub.fields := sub.fields.(cancelled := true);
      assert list == before[..k] + before[k + 1..];
      return NoError;
    }

    /** The walk along the links. */
    method Find(sub: Subscription) returns (previous: Subscription?, found: bool, ghost k: nat)
      requires Valid()
      ensures found <==> sub in list
      ensures found ==> k < |list| && list[k] == sub && previous == (if k > 0 then list[k - 1] else null)
    {
      hide Successor;
      previous := null;
      var link := head;
      k := 0;
      while link != null && link != sub
        invariant 0 <= k <= |list| && link == (if k < |list| then list[k] else null)
        invariant previous == (if k > 0 then list[k - 1] else null)
        invariant forall j :: 0 <= j < k ==> list[j] != sub
        decreases |list| - k
      {
        assert list[k].next == Successor(list, k);
        SuccessorIs(list, k);
        previous, link, k := link, link.next, k + 1;
      }
      found := link != null;
    }

    /** Lets the link that points to `sub` point behind it. */
    method Unlink(previous: Subscription?, sub: Subscription, ghost k: nat)
      requires Valid() && k < |list| && list[k] == sub && previous == (if k > 0 then list[k - 1] else null)
      modifies this, previous
      ensures Valid() && list == old(list)[..k] + old(list)[k + 1..]
      ensures previous != null ==> previous.fields == old(previous.fields)
    {
      hide Successor;
      ghost var before := list;
      ghost var rest := before[..k] + before[k + 1..];
      assert list[k].next == Successor(list, k);
      SuccessorIs(before, k);
      SuccessorsWithout(before, k);
      WithoutOne(before, k);
      if previous == null {
        head := sub.next;
        list := list[1..];
        assert list == rest;
      } else {
        previous.next := sub.next;
        list := list[..k] + list[k + 1..];
        assert list == rest && head == list[0];
        forall i | 0 <= i < |list| ensures list[i].next == Successor(list, i) {
          assert i != k - 1 ==> list[i] != previous;
        }
      }
    }

    /** notify_poll_subscribers: every registered subscription takes note of the event, and no other. */
    method Notify(e: Event)
      requires Valid()
      modifies list
      ensures Valid() && list == old(list)
      ensures forall n :: n in list ==> n.fields == Notified(old(n.fields), e)
    {
      hide Notified, NotedBy, Successor;
      ghost var nodes := list;
      var sub := head;
      ghost var k := 0;
      while sub != null
        invariant 0 <= k <= |nodes| && sub == (if k < |nodes| then nodes[k] else null)
        invariant list == nodes && Valid()
        invariant forall j :: 0 <= j < k ==> NotedBy(nodes[j].fields, old(nodes[j].fields), e)
        invariant forall j :: k <= j < |nodes| ==> nodes[j].fields == old(nodes[j].fields)
        decreases |nodes| - k
      {
        assert sub == nodes[k] && sub.next == Successor(nodes, k);
        SuccessorIs(nodes, k);
        sub.Notify(e);
        assert NotedBy(nodes[k].fields, old(nodes[k].fields), e) by { Noted(nodes[k].fields, old(nodes[k].fields), e); }
        sub, k := sub.next, k + 1;
      }
      forall n | n in list ensures n.fields == Notified(old(n.fields), e) {
        var j :| 0 <= j < |nodes| && nodes[j] == n;
        assert NotedBy(nodes[j].fields, old(nodes[j].fields), e);
        Noted(nodes[j].fields, old(nodes[j].fields), e);
      }
    }
  }

  lemma SuccessorIs(list: seq<Subscription>, k: nat)
    ensures Successor(list, k) == if k + 1 < |list| then list[k + 1] else null
  {
  }

  lemma WithoutOne(list: seq<Subscription>, k: nat)
    requires k < |list| && forall i, j :: 0 <= i < j < |list| ==> list[i] != list[j]
    ensures var rest := list[..k] + list[k + 1..];
      && (forall i :: 0 <= i < |rest| ==> rest[i] == list[if i < k then i else i + 1])
      && (forall i, j :: 0 <= i < j < |rest| ==> rest[i] != rest[j])
      && (k == 0 ==> rest == list[1..])
  {
  }

  lemma SuccessorsWithout(list: seq<Subscription>, k: nat)
    requires k < |list|
    ensures var rest := list[..k] + list[k + 1..];
      forall i :: 0 <= i < |rest| ==> Successor(rest, i) == Successor(list, if i + 1 < k then i else i + 1)
  {
  }

  lemma Noted(after: Fields, before: Fields, e: Event)
    requires |before.data| == MAX_DATA_SIZE && |after.data| == MAX_DATA_SIZE
    ensures NotedBy(after, before, e) <==> after == Notified(before, e)
  {
  }

  predicate NotedBy(after: Fields, before: Fields, e: Event) {
    |before.data| == MAX_DATA_SIZE && |after.data| == MAX_DATA_SIZE && after == Notified(before, e)
  }
}
