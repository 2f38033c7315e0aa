/** The hotplug poller of device.cpp: devices whose driver has a probe are started and stopped as they come and go,
  once the probe has said so often enough in a row.

  What a probe says and whether a start or stop works are inputs; how starts and stops interleave with everything else
  is the subject of DeviceLifecycle.
*/
module Hotplug {

  type Dev = nat

  /** Consecutive polls that a probe result must hold. */
  const DEBOUNCE_COUNT: nat := 2

  // ---------------------------------------------------------------------------------------------
  // One device

  datatype Hot = Hot(present: bool, consecutive: nat)

  const ABSENT := Hot(false, 0)

  predicate Acts(h: Hot, present: bool) {
    present != h.present && h.consecutive + 1 >= DEBOUNCE_COUNT
  }

  /** The section after a probe. */
  function Observed(h: Hot, present: bool): Hot {
    if present == h.present || Acts(h, present) then h.(consecutive := 0) else h.(consecutive := h.consecutive + 1)
  }

  /** What a whole poll leaves behind: a start or stop that does not work is not taken note of. */
  function AfterPoll(h: Hot, present: bool, works: bool): Hot {
    if Acts(h, present) && works then Observed(h, present).(present := present) else Observed(h, present)
  }

  datatype Poll = Poll(present: bool, works: bool)

  function AfterPolls(polls: seq<Poll>): Hot {
    if polls == [] then ABSENT
    else AfterPoll(AfterPolls(polls[..|polls| - 1]), polls[|polls| - 1].present, polls[|polls| - 1].works)
  }

  /** A poll with this result completes another two in a row that disagree with what was done last. */
  predicate Completes(polls: seq<Poll>, present: bool)
    decreases |polls|, 1
  {
    present != LastAction(polls) && (Disagreeing(polls) + 1) % DEBOUNCE_COUNT == 0
  }

  /** The direction of the last start or stop that worked. */
  function LastAction(polls: seq<Poll>): bool
    decreases |polls|, 0
  {
    if polls == [] then false
    else
      var front, last := polls[..|polls| - 1], polls[|polls| - 1];
      if Completes(front, last.present) && last.works then last.present else LastAction(front)
  }

  /** How many polls in a row have disagreed with it, since the last one that agreed or the last action that worked. */
  function Disagreeing(polls: seq<Poll>): nat
    decreases |polls|, 0
  {
    if polls == [] then 0
    else
      var front, last := polls[..|polls| - 1], polls[|polls| - 1];
      if last.present == LastAction(front) || (Completes(front, last.present) && last.works) then 0
      else Disagreeing(front) + 1
  }

  lemma {:induction false} CountsDisagreement(polls: seq<Poll>)
    ensures AfterPolls(polls) == Hot(LastAction(polls), Disagreeing(polls) % DEBOUNCE_COUNT)
  {
    if polls != [] {
      var front := polls[..|polls| - 1];
      CountsDisagreement(front);
      EverySecond(Disagreeing(front));
    }
  }

  /** After any polls, the next one acts exactly if it completes another two in a row that disagree with what was done
    last; so an action that does not work is tried again every two polls, and a single odd probe result does nothing. */
  lemma ActsOnEverySecondDisagreement(polls: seq<Poll>, present: bool)
    ensures Acts(AfterPolls(polls), present) <==> Completes(polls, present)
  {
    CountsDisagreement(polls);
    hide AfterPolls, Disagreeing, LastAction;
    EverySecond(Disagreeing(polls));
  }

  lemma EverySecond(n: nat)
    ensures n % DEBOUNCE_COUNT + 1 >= DEBOUNCE_COUNT <==> (n + 1) % DEBOUNCE_COUNT == 0
  {
  }

  lemma NeedsTwoInARow(polls: seq<Poll>, present: bool)
    requires Acts(AfterPolls(polls), present)
    ensures polls != [] && polls[|polls| - 1].present == present
  {
    ActsOnEverySecondDisagreement(polls, present);
  }

  /** Of two polls in a row that disagree one acts. */
  lemma OneOfTwoActs(polls: seq<Poll>, works: bool)
    ensures var present := !LastAction(polls);
      Acts(AfterPolls(polls), present) || Acts(AfterPolls(polls + [Poll(present, works)]), present)
  {
    var next := polls + [Poll(!LastAction(polls), works)];
    assert next[..|polls|] == polls;
    CountsDisagreement(polls);
    CountsDisagreement(next);
  }

  // ---------------------------------------------------------------------------------------------
  // All devices

  datatype Kind = NoDriver | NoProbe | Probed

  datatype Device = Device(kind: Kind, constructed: bool, started: bool, refs: int, hot: Hot)

  datatype Action = Action(d: Dev, start: bool, mandatory: bool)

  /** What a poll makes of a device that it holds a reference on. */
  function Polled(dv: Device, present: bool, works: bool): Device {
    match dv.kind
    case NoDriver => dv
    case NoProbe => if !dv.started && works then dv.(started := true) else dv
    case Probed =>
      dv.(hot := AfterPoll(dv.hot, present, works),
          started := if Acts(dv.hot, present) && works then present else dv.started)
  }

  /** What the poll decides to do with a device. */
  function ActionsFor(d: Dev, dv: Device, present: bool): seq<Action> {
    match dv.kind
    case NoDriver => []
    case NoProbe => if dv.started then [] else [Action(d, true, true)]
    case Probed => if Acts(dv.hot, present) then [Action(d, present, false)] else []
  }

  /** A device between its probe and its action. */
  function Seen(dv: Device, present: bool): Device {
    if dv.kind == Probed then dv.(hot := Observed(dv.hot, present)) else dv
  }

  function Acted(dv: Device, a: Action, works: bool): Device {
    if !works then dv
    else if a.mandatory then dv.(started := a.start)
    else dv.(started := a.start, hot := dv.hot.(present := a.start))
  }

  lemma SeenThenActed(d: Dev, dv: Device, present: bool, works: bool)
    ensures var as' := ActionsFor(d, dv, present);
      |as'| <= 1 &&
        Polled(dv, present, works) == if as' == [] then Seen(dv, present) else Acted(Seen(dv, present), as'[0], works)
  {
  }

  /** What a poll leaves of a device: one with a probe is started or stopped, as the probe says, exactly if two polls in
    a row have disagreed and the start or stop works; one without is started if it is not. */
  predicate TurnedOut(dv: Device, here: bool, works: bool, after: Device) {
    after == dv.(started := after.started, hot := after.hot) &&
    match dv.kind
    case NoDriver => after == dv
    case NoProbe => after.hot == dv.hot && (after.started <==> dv.started || works)
    case Probed =>
      var second := here != dv.hot.present && dv.hot.consecutive + 1 >= DEBOUNCE_COUNT;
      && after.started == (if second && works then here else dv.started)
      && after.hot.present == (if second && works then here else dv.hot.present)
      && after.hot.consecutive == (if here == dv.hot.present || second then 0 else dv.hot.consecutive + 1)
  }

  lemma PolledTurnsOut(dv: Device, here: bool, works: bool)
    ensures TurnedOut(dv, here, works, Polled(dv, here, works))
  {
  }

  /** A device after a sequence of polls. */
  function DeviceAfter(dv: Device, polls: seq<Poll>): Device {
    if polls == [] then dv
    else Polled(DeviceAfter(dv, polls[..|polls| - 1]), polls[|polls| - 1].present, polls[|polls| - 1].works)
  }

  /** A device with a probe that begins stopped and absent is started, after any polls, exactly if the last action that
    worked was a start. */
  lemma {:induction false} StartedIsLastAction(dv: Device, polls: seq<Poll>)
    requires dv.kind == Probed && !dv.started && dv.hot == ABSENT
    ensures DeviceAfter(dv, polls) == dv.(started := LastAction(polls), hot := AfterPolls(polls))
    ensures DeviceAfter(dv, polls).started == LastAction(polls)
  {
    if polls != [] {
      var front, last := polls[..|polls| - 1], polls[|polls| - 1];
      StartedIsLastAction(dv, front);
      ActsOnEverySecondDisagreement(front, last.present);
    }
  }

  lemma ActedMeaning(dv: Device, a: Action, works: bool)
    ensures Acted(dv, a, works).started == if works then a.start else dv.started
    ensures Acted(dv, a, works).hot.present == if works && !a.mandatory then a.start else dv.hot.present
  {
  }

  predicate Distinct(ds: seq<Dev>) {
    forall i, j :: 0 <= i < j < |ds| ==> ds[i] != ds[j]
  }

  /** The actions of some devices, in order. */
  function AllActions(ds: seq<Dev>, devices: map<Dev, Device>, present: Dev -> bool): seq<Action>
    requires forall d :: d in ds ==> d in devices
  {
    if ds == [] then []
    else AllActions(ds[..|ds| - 1], devices, present)
         + ActionsFor(ds[|ds| - 1], devices[ds[|ds| - 1]], present(ds[|ds| - 1]))
  }

  ghost predicate IsFirstFailure(actions: seq<Action>, works: Dev -> bool, r: int) {
    if r == -1 then forall a :: a in actions ==> !Fails(a, works)
    else exists i ::
      && 0 <= i < |actions| && Fails(actions[i], works) && actions[i].d == r
      && forall j :: 0 <= j < i ==> !Fails(actions[j], works)
  }

  lemma FirstFailureMore(front: seq<Action>, last: Action, works: Dev -> bool, r: int)
    requires IsFirstFailure(front, works, r)
    ensures IsFirstFailure(front + [last], works, if r == -1 && Fails(last, works) then last.d else r)
  {
    var more := front + [last];
    if r != -1 {
      var i :| 0 <= i < |front| && Fails(front[i], works) && front[i].d == r &&
        forall j :: 0 <= j < i ==> !Fails(front[j], works);
      assert more[i] == front[i];
    } else if Fails(last, works) {
      assert more[|front|] == last;
    }
  }

  /** The device of the first mandatory start that does not work. */
  function FirstFailure(actions: seq<Action>, works: Dev -> bool): (r: int)
    ensures IsFirstFailure(actions, works, r)
  {
    if actions == [] then -1
    else
      var front, last := actions[..|actions| - 1], actions[|actions| - 1];
      var r := FirstFailure(front, works);
      FirstFailureMore(front, last, works, r);
      assert actions == front + [last];
      if r != -1 then r
      else if Fails(last, works) then last.d else -1
  }

  lemma NoFailure(works: Dev -> bool)
    ensures FirstFailure([], works) == -1
  {
  }

  lemma NextFailure(front: seq<Action>, last: Action, works: Dev -> bool)
    ensures FirstFailure(front + [last], works) ==
      if FirstFailure(front, works) == -1 && Fails(last, works) then last.d else FirstFailure(front, works)
  {
    assert (front + [last])[..|front|] == front;
  }

  predicate Fails(a: Action, works: Dev -> bool) {
    a.mandatory && a.start && !works(a.d)
  }

  /** A device without a probe that is to be started, and is not because that does not work. */
  predicate Bad(d: Dev, devices: map<Dev, Device>, works: Dev -> bool) {
    d in devices && devices[d].constructed && Wanted(devices[d]) && !works(d)
  }

  ghost predicate IsFirstBad(ds: seq<Dev>, devices: map<Dev, Device>, works: Dev -> bool, r: int) {
    if r == -1 then forall d :: d in ds ==> !Bad(d, devices, works)
    else exists i ::
      && 0 <= i < |ds| && ds[i] == r && Bad(ds[i], devices, works)
      && forall j :: 0 <= j < i ==> !Bad(ds[j], devices, works)
  }

  lemma FirstBadMore(ds: seq<Dev>, d: Dev, devices: map<Dev, Device>, works: Dev -> bool, r: int)
    requires IsFirstBad(ds, devices, works, r)
    ensures IsFirstBad(ds + [d], devices, works, if r == -1 && Bad(d, devices, works) then d else r)
  {
    var more := ds + [d];
    if r != -1 {
      var i :| 0 <= i < |ds| && ds[i] == r && Bad(ds[i], devices, works) &&
        forall j :: 0 <= j < i ==> !Bad(ds[j], devices, works);
      assert more[i] == r;
    } else if Bad(d, devices, works) {
      assert more[|ds|] == d;
    }
  }

  /** The devices of these that are constructed, in order. */
  function Constructed(ds: seq<Dev>, devices: map<Dev, Device>): seq<Dev>
    requires forall d :: d in ds ==> d in devices
  {
    if ds == [] then []
    else
      var last := ds[|ds| - 1];
      Constructed(ds[..|ds| - 1], devices) + if devices[last].constructed then [last] else []
  }

  lemma {:induction false} ConstructedMeaning(ds: seq<Dev>, n: nat, devices: map<Dev, Device>)
    requires Distinct(ds) && n <= |ds| && forall d :: d in ds ==> d in devices
    ensures var cs := Constructed(ds[..n], devices);
      Distinct(cs) && (forall d :: d in cs <==> d in ds[..n] && devices[d].constructed) && (n < |ds| ==> ds[n] !in cs)
    decreases n
  {
    if n > 0 {
      ConstructedMeaning(ds, n - 1, devices);
      assert ds[..n] == ds[..n - 1] + [ds[n - 1]];
      ConstructedMore(ds[..n - 1], ds[n - 1], devices);
    }
  }

  lemma ConstructedMore(ds: seq<Dev>, d: Dev, devices: map<Dev, Device>)
    requires d in devices && forall e :: e in ds ==> e in devices
    ensures Constructed(ds + [d], devices) == Constructed(ds, devices) + if devices[d].constructed then [d] else []
  {
    assert (ds + [d])[..|ds|] == ds;
  }

  lemma ActionsMore(ds: seq<Dev>, d: Dev, devices: map<Dev, Device>, present: Dev -> bool)
    requires d in devices && forall e :: e in ds ==> e in devices
    ensures AllActions(ds + [d], devices, present) ==
      AllActions(ds, devices, present) + ActionsFor(d, devices[d], present(d))
  {
    assert (ds + [d])[..|ds|] == ds;
  }

  lemma NextBad(actions: seq<Action>, d: Dev, dv: Device, here: bool, works: Dev -> bool)
    ensures FirstFailure(actions + ActionsFor(d, dv, here), works) ==
      if FirstFailure(actions, works) == -1 && Wanted(dv) && !works(d) then d else FirstFailure(actions, works)
  {
    var own := ActionsFor(d, dv, here);
    hide FirstFailure;
    if own == [] {
      assert actions + own == actions;
    } else {
      assert own == [own[0]];
      NextFailure(actions, own[0], works);
    }
  }

  /** The first failure among the actions is that of the first bad device. */
  lemma {:induction false} FirstFailureIsFirstBad(ds: seq<Dev>, devices: map<Dev, Device>, held: map<Dev, Device>,
                                                  present: Dev -> bool, works: Dev -> bool)
    requires forall d :: d in ds ==> d in devices && d in held && Wanted(held[d]) == Wanted(devices[d])
    ensures forall d :: d in Constructed(ds, devices) ==> d in ds
    ensures
      var actions := AllActions(Constructed(ds, devices), held, present);
      IsFirstBad(ds, devices, works, FirstFailure(actions, works))
  {
    if ds == [] {
      NoFailure(works);
    } else {
      var front, last := ds[..|ds| - 1], ds[|ds| - 1];
      assert ds == front + [last];
      FirstFailureIsFirstBad(front, devices, held, present, works);
      ConstructedMore(front, last, devices);
      hide IsFirstBad, FirstFailure, Wanted, ActionsFor, AllActions, Constructed;
      var before := Constructed(front, devices);
      var actions := AllActions(before, held, present);
      FirstBadMore(front, last, devices, works, FirstFailure(actions, works));
      if devices[last].constructed {
        ActionsMore(before, last, held, present);
        NextBad(actions, last, held[last], present(last), works);
      } else {
        assert before + [] == before;
      }
    }
  }

  /** Without a bad device every start that is wanted works. */
  lemma NoneBad(ds: seq<Dev>, devices: map<Dev, Device>, works: Dev -> bool, r: int)
    requires IsFirstBad(ds, devices, works, r)
    ensures r == -1 <==> forall d :: Watched(d, ds, devices) && Wanted(devices[d]) ==> works(d)
  {
  }

  class Poller {
    var devices: map<Dev, Device>
    var registered: seq<Dev>

    ghost predicate Valid()
      reads this
    {
      Distinct(registered) && forall d :: d in registered ==> d in devices
    }

    constructor (devices: map<Dev, Device>)
      ensures Valid() && registered == [] && this.devices == devices
    {
      this.devices, registered := devices, [];
    }

    method Register(d: Dev)
      requires Valid() && d in devices
      modifies this`registered
      ensures Valid() && registered == if d in old(registered) then old(registered) else old(registered) + [d]
    {
      if d !in registered { registered := registered + [d]; }
    }

    /** References on the devices that are there. */
    method Pin() returns (pinned: seq<Dev>)
      requires Valid()
      modifies this`devices
      ensures Distinct(pinned) && forall d :: d in pinned <==> d in registered && old(devices)[d].constructed
      ensures pinned == Constructed(registered, old(devices))
      ensures devices == old(Referenced(devices, pinned, 1))
    {
      pinned := [];
      ghost var first := devices;
      NoneReferenced(first, 1);
      assert Constructed(registered[..0], first) == [];
      for i := 0 to |registered|
        invariant devices == Referenced(first, pinned, 1) && pinned == Constructed(registered[..i], first)
      {
        hide Constructed, Referenced;
        var d := registered[i];
        ConstructedMeaning(registered, i, first);
        ConstructedMore(registered[..i], d, first);
        assert registered[..i + 1] == registered[..i] + [d];
        OneMoreReferenced(first, pinned, d, 1);
        if devices[d].constructed {
          devices := devices[d := devices[d].(refs := devices[d].refs + 1)];
          pinned := pinned + [d];
        } else {
          assert pinned + [] == pinned;
        }
      }
      assert registered[..|registered|] == registered;
      ConstructedMeaning(registered, |registered|, first);
    }

    method Unpin(pinned: seq<Dev>)
      requires Distinct(pinned) && forall d :: d in pinned ==> d in devices
      modifies this`devices
      ensures devices == Referenced(old(devices), pinned, -1)
    {
      ghost var first := devices;
      NoneReferenced(first, -1);
      for i := 0 to |pinned|
        invariant devices == Referenced(first, pinned[..i], -1)
      {
        var d := pinned[i];
        assert d !in pinned[..i];
        assert pinned[..i + 1] == pinned[..i] + [d];
        OneMoreReferenced(first, pinned[..i], d, -1);
        devices := devices[d := devices[d].(refs := devices[d].refs - 1)];
      }
      assert pinned[..|pinned|] == pinned;
    }

    /** Probes each device, and collects what to do. */
    method Probe(pinned: seq<Dev>, present: Dev -> bool) returns (actions: seq<Action>)
      requires Distinct(pinned) && forall d :: d in pinned ==> d in devices
      modifies this`devices
      ensures actions == old(AllActions(pinned, devices, present))
      ensures devices.Keys == old(devices).Keys
      ensures forall d :: d in devices ==>
        devices[d] == if d in pinned then Seen(old(devices)[d], present(d)) else old(devices)[d]
    {
      hide Seen, ActionsFor;
      actions := [];
      ghost var first := devices;
      for i := 0 to |pinned|
        invariant devices.Keys == first.Keys
        invariant forall d :: d in devices ==>
          devices[d] == if d in pinned[..i] then Seen(first[d], present(d)) else first[d]
        invariant actions == AllActions(pinned[..i], first, present)
      {
        var d := pinned[i];
        assert d !in pinned[..i];
        assert pinned[..i + 1] == pinned[..i] + [d];
        assert devices[d] == first[d];
        var more := ProbeDevice(d, present(d));
        actions := actions + more;
      }
      assert pinned[..|pinned|] == pinned;
    }

    /** The body of that loop. */
    method ProbeDevice(d: Dev, here: bool) returns (actions: seq<Action>)
      requires d in devices
      modifies this`devices
      ensures actions == ActionsFor(d, old(devices)[d], here)
      ensures devices == old(devices)[d := Seen(old(devices)[d], here)]
    {
      actions := [];
      var dv := devices[d];
      match dv.kind {
        case NoDriver =>
        case NoProbe =>
          if !dv.started { actions := [Action(d, true, true)]; }
        case Probed =>
          var act := false;
          if here == dv.hot.present {
            dv := dv.(hot := dv.hot.(consecutive := 0));
          } else {
            dv := dv.(hot := dv.hot.(consecutive := dv.hot.consecutive + 1));
            if dv.hot.consecutive >= DEBOUNCE_COUNT {
              dv := dv.(hot := dv.hot.(consecutive := 0));
              act := true;
            }
          }
          devices := devices[d := dv];
          if act { actions := [Action(d, here, false)]; }
      }
    }

    /** Starts and stops, and takes note of what worked. The result is the first mandatory start that failed. */
    method Act(actions: seq<Action>, works: Dev -> bool) returns (firstError: int)
      requires forall a :: a in actions ==> a.d in devices
      requires forall i, j :: 0 <= i < j < |actions| ==> actions[i].d != actions[j].d
      modifies this`devices
      ensures firstError == FirstFailure(actions, works)
      ensures devices.Keys == old(devices).Keys
      ensures forall i :: 0 <= i < |actions| ==>
        devices[actions[i].d] == Acted(old(devices)[actions[i].d], actions[i], works(actions[i].d))
      ensures forall a :: a in actions ==>
        devices[a.d].started == (if works(a.d) then a.start else old(devices)[a.d].started) &&
        devices[a.d].hot.present == if works(a.d) && !a.mandatory then a.start else old(devices)[a.d].hot.present
      ensures forall d :: d in devices && (forall a :: a in actions ==> a.d != d) ==> devices[d] == old(devices)[d]
    {
      hide Acted, FirstFailure, IsFirstFailure;
      firstError := -1;
      ghost var first := devices;
      NoFailure(works);
      for i := 0 to |actions|
        invariant devices.Keys == first.Keys && firstError == FirstFailure(actions[..i], works)
        invariant forall j :: 0 <= j < i ==>
          devices[actions[j].d] == Acted(first[actions[j].d], actions[j], works(actions[j].d))
        invariant forall d :: d in devices && (forall j :: 0 <= j < i ==> actions[j].d != d) ==> devices[d] == first[d]
      {
        var a := actions[i];
        assert forall j :: 0 <= j < i ==> actions[j].d != a.d;
        assert actions[..i + 1] == actions[..i] + [a];
        NextFailure(actions[..i], a, works);
        var ok := works(a.d);
        TakeNote(a, ok);
        if a.mandatory && a.start && !ok && firstError == -1 {
          firstError := a.d;
        }
      }
      assert actions[..|actions|] == actions;
      forall a | a in actions
        ensures devices[a.d].started == (if works(a.d) then a.start else first[a.d].started)
        ensures devices[a.d].hot.present == if works(a.d) && !a.mandatory then a.start else first[a.d].hot.present
      {
        ActedMeaning(first[a.d], a, works(a.d));
      }
    }

    /** Takes note of a start or stop that worked. */
    method TakeNote(a: Action, ok: bool)
      requires a.d in devices
      modifies this`devices
      ensures devices == old(devices)[a.d := Acted(old(devices)[a.d], a, ok)]
    {
      if ok {
        devices := devices[a.d := devices[a.d].(started := a.start)];
        if !a.mandatory {
          devices := devices[a.d := devices[a.d].(hot := devices[a.d].hot.(present := a.start))];
        }
      }
    }

    /** One poll: every registered device that is there is polled, every other one is as it was, and no reference is
        kept. */
    method PollOnce(present: Dev -> bool, works: Dev -> bool) returns (firstError: int)
      requires Valid()
      modifies this`devices
      ensures Valid() && devices.Keys == old(devices).Keys
      ensures forall d :: d in devices ==>
        (devices[d] ==
           if Watched(d, registered, old(devices)) then Polled(old(devices)[d], present(d), works(d))
           else old(devices)[d])
      ensures forall d :: Watched(d, registered, old(devices)) ==>
        TurnedOut(old(devices)[d], present(d), works(d), devices[d])
      ensures firstError == -1 <==>
        (forall d :: Watched(d, registered, old(devices)) && Wanted(old(devices)[d]) ==> works(d))
      ensures IsFirstBad(registered, old(devices), works, firstError)
    {
      hide Acted, Seen, AllActions, Referenced, FirstFailure, Polled, Distinct, TurnedOut, IsFirstBad, Constructed,
        Fails, Acts;
      ghost var first := devices;
      var pinned := Pin();
      ghost var held := devices;
      ReferencedMeaning(first, pinned, 1);
      var actions := Probe(pinned, present);
      ghost var seen := devices;
      ActionsMeaning(pinned, held, present);
      firstError := Act(actions, works);
      ghost var acted := devices;
      Unpin(pinned);
      ReferencedMeaning(acted, pinned, -1);
      forall d | d in devices
        ensures devices[d] == if d in pinned then Polled(first[d], present(d), works(d)) else first[d]
      {
        if d in pinned {
          PolledOne(d, first, held, seen, acted, actions, present, works);
        } else {
          assert forall a :: a in actions ==> a.d != d;
        }
      }
      FirstFailureIsFirstBad(registered, first, held, present, works);
      NoneBad(registered, first, works, firstError);
      AllTurnedOut(first, devices, pinned, present, works);
    }
  }

  predicate Watched(d: Dev, registered: seq<Dev>, devices: map<Dev, Device>) {
    d in registered && d in devices && devices[d].constructed
  }

  /** A device without a probe that is to be started. */
  predicate Wanted(dv: Device) {
    dv.kind == NoProbe && !dv.started
  }

  lemma AllTurnedOut(devices: map<Dev, Device>, after: map<Dev, Device>, ds: seq<Dev>, present: Dev -> bool,
                     works: Dev -> bool)
    requires forall d :: d in ds ==> d in devices && d in after
    requires forall d :: d in ds ==> after[d] == Polled(devices[d], present(d), works(d))
    ensures forall d :: d in ds ==> TurnedOut(devices[d], present(d), works(d), after[d])
  {
    forall d | d in ds ensures TurnedOut(devices[d], present(d), works(d), after[d]) {
      PolledTurnsOut(devices[d], present(d), works(d));
    }
  }

  lemma ReferencedMeaning(devices: map<Dev, Device>, ds: seq<Dev>, change: int)
    ensures Referenced(devices, ds, change).Keys == devices.Keys
    ensures forall d :: d in devices ==>
      (Referenced(devices, ds, change)[d] ==
         if d in ds then devices[d].(refs := devices[d].refs + change) else devices[d])
  {
  }

  /** One device through all phases of a poll. */
  lemma PolledOne(d: Dev, first: map<Dev, Device>, held: map<Dev, Device>, seen: map<Dev, Device>,
                  acted: map<Dev, Device>,
                  actions: seq<Action>, present: Dev -> bool, works: Dev -> bool)
    requires d in first && d in held && d in seen && d in acted
    requires held[d] == first[d].(refs := first[d].refs + 1) && seen[d] == Seen(held[d], present(d))
    requires forall a :: a in ActionsFor(d, held[d], present(d)) ==> a in actions
    requires forall a :: a in actions && a.d == d ==> a in ActionsFor(d, held[d], present(d))
    requires forall a :: a in actions && a.d == d ==> acted[d] == Acted(seen[d], a, works(d))
    requires (forall a :: a in actions ==> a.d != d) ==> acted[d] == seen[d]
    ensures acted[d].(refs := acted[d].refs - 1) == Polled(first[d], present(d), works(d))
  {
    SeenThenActed(d, held[d], present(d), works(d));
    var own := ActionsFor(d, held[d], present(d));
    if own != [] { assert own[0] in actions && own[0].d == d; }
  }

  /** The devices with their reference counts changed. */
  function Referenced(devices: map<Dev, Device>, ds: seq<Dev>, change: int): map<Dev, Device> {
    map d | d in devices :: if d in ds then devices[d].(refs := devices[d].refs + change) else devices[d]
  }

  lemma NoneReferenced(devices: map<Dev, Device>, change: int)
    ensures Referenced(devices, [], change) == devices
  {
  }

  lemma OneMoreReferenced(devices: map<Dev, Device>, ds: seq<Dev>, d: Dev, change: int)
    requires d in devices && d !in ds
    ensures Referenced(devices, ds + [d], change) ==
      Referenced(devices, ds, change)[d := devices[d].(refs := devices[d].refs + change)]
    ensures Referenced(devices, ds, change)[d] == devices[d]
  {
  }

  /** The actions are those of the devices: at most one for each. */
  lemma {:induction false} ActionsMeaning(ds: seq<Dev>, devices: map<Dev, Device>, present: Dev -> bool)
    requires Distinct(ds) && forall d :: d in ds ==> d in devices
    ensures var as' := AllActions(ds, devices, present);
      (forall a :: a in as' <==> a.d in ds && a in ActionsFor(a.d, devices[a.d], present(a.d))) &&
      (forall i, j :: 0 <= i < j < |as'| ==> as'[i].d != as'[j].d)
  {
    if ds != [] {
      var front, last := ds[..|ds| - 1], ds[|ds| - 1];
      assert ds == front + [last];
      ActionsMeaning(front, devices, present);
      assert last !in front;
    }
  }
}
