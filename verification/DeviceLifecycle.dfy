/** The device lifecycle of device.cpp with the binding of driver.cpp, over whole runs: what holds in all of them, and
  what callers must see to. A run is a sequence of the steps of DeviceSteps; the classes at the end take them in
  place.
*/
module DeviceLifecycle {
  import opened DeviceSteps
  import opened Wrappers

  ghost predicate IsRun(ss: seq<State>, run: seq<Action>) {
    && |ss| == |run| + 1
    && ss[0] == Init()
    && forall i :: 0 <= i < |run| ==>
         Enabled(ss[i], run[i]) && Sound(ss[i], run[i]) && ss[i + 1] == Next(ss[i], run[i])
  }

  // ---------------------------------------------------------------------------------------------
  // Whole runs

  lemma {:induction false} RunKeepsInv(ss: seq<State>, run: seq<Action>, i: nat)
    requires IsRun(ss, run) && i < |ss|
    ensures Inv(ss[i])
  {
    hide Next, Enabled, Sound, DeviceInv, ChildrenInv, DriverInv, Of;
    if i == 0 {
      InitInv();
    } else {
      RunKeepsInv(ss, run, i - 1);
      StepKeepsInv(ss[i - 1], run[i - 1]);
    }
  }

  /** In every interleaving the flags keep their order, the ledger and the parents' lists hold each device once and
      only while it is constructed, and a device somebody holds a reference on is constructed. */
  lemma LifecycleInEveryRun(ss: seq<State>, run: seq<Action>, i: nat, d: Dev)
    requires IsRun(ss, run) && i < |ss|
    ensures var s, dv := ss[i], Of(ss[i], d);
      && FlagsInv(dv)
      && multiset(s.ledger)[d] <= 1 && (d in s.ledger ==> dv.constructed)
      && (dv.added ==> multiset(s.ledger)[d] == 1)
      && (dv.parent.Some? ==> multiset(Of(s, dv.parent.value).children)[d] <= 1)
      && (dv.added && dv.parent.Some? ==> multiset(Of(s, dv.parent.value).children)[d] == 1)
      && (dv.refs > 0 ==> dv.constructed)
  {
    hide Next, Enabled, Sound, ChildrenInv, DriverInv, Accounted, Tallied, Of;
    RunKeepsInv(ss, run, i);
    assert DeviceInv(ss[i], d);
    AccountedFacts(Of(ss[i], d), Tallied(ss[i].ops, d), multiset(ss[i].ledger)[d], Listed(ss[i], d));
  }

  /** A device that others list as their parent is constructed, and cannot be destructed. */
  lemma ParentsStay(ss: seq<State>, run: seq<Action>, i: nat, d: Dev, p: Dev)
    requires IsRun(ss, run) && i < |ss| && Of(ss[i], d).added && Of(ss[i], d).parent == Some(p)
    ensures Of(ss[i], p).constructed && !MayDestruct(Of(ss[i], p))
  {
    LifecycleInEveryRun(ss, run, i, d);
    hide Next, Enabled, Sound, ChildrenInv, DriverInv, Accounted, Tallied;
    RunKeepsInv(ss, run, i);
    assert DeviceInv(ss[i], p);
    LedgerIsConstructed(ss[i], p);
  }

  /** The ledger lookup inside device_remove always finds its device, so its rollback is never taken. */
  lemma RemoveAlwaysFinds(ss: seq<State>, run: seq<Action>, i: nat, o: OpId)
    requires IsRun(ss, run) && i < |ss| && o < |ss[i].ops|
    ensures ss[i].ops[o].RemoveLedger? ==> ss[i].ops[o].d in ss[i].ledger
    ensures !ss[i].ops[o].RemoveMissing?
  {
    hide Next, Enabled, Sound, ChildrenInv, DriverInv, Accounted, Tallied, Of;
    RunKeepsInv(ss, run, i);
    assert DeviceInv(ss[i], ss[i].ops[o].d);
    RemoveMissingUnreachable(ss[i], o);
    if ss[i].ops[o].RemoveLedger? { LedgerKept(ss[i], o, true); }
  }

  lemma OnlyStartsMeetDeadDrivers(ss: seq<State>, run: seq<Action>, a: Action)
    requires IsRun(ss, run) && Enabled(ss[|run|], a)
    ensures forall d :: d in TouchedDevices(ss[|run|], a) ==> Of(ss[|run|], d).constructed
    ensures !Sound(ss[|run|], a) ==>
      a.Proceed? && Binding(ss[|run|].ops[a.o]) && !Live(ss[|run|], DriverOf(ss[|run|], ss[|run|].ops[a.o].d))
  {
    hide Next, Enabled, Sound, DeviceInv, ChildrenInv, DriverInv, Of;
    RunKeepsInv(ss, run, |run|);
    OnlyADeadDriverIsUnsound(ss[|run|], a);
  }

  // --- when a call goes ahead

  /** The call begins this operation and leaves the device as `dv`. */
  ghost predicate Begun(s: State, s': State, d: Dev, dv: Device, op: Op) {
    s'.ops == s.ops + [op] && s'.ledger == s.ledger && s'.drivers == s.drivers && Of(s', d) == dv &&
    forall e :: e != d ==> Of(s', e) == Of(s, e)
  }

  /** In every reachable state each call goes ahead, or destructs its device, exactly under these conditions, and
      changes nothing otherwise. References matter to device_destruct only. */
  lemma CallsGoAheadExactly(ss: seq<State>, run: seq<Action>, i: nat, d: Dev)
    requires IsRun(ss, run) && i < |run|
    ensures var s, s', dv := ss[i], ss[i + 1], Of(ss[i], d);
      match run[i]
      case Add(e) => e == d ==> if !dv.added && !dv.removing then Begun(s, s', d, dv, AddLedger(d)) else s' == s
      case Remove(e) => e == d ==>
        if dv.added && !dv.started && !dv.starting
        then Begun(s, s', d, dv.(added := false, removing := true), RemoveParent(d)) else s' == s
      case Start(e, t) => e == d ==>
        if dv.added && dv.driver.Some? && !dv.started && !dv.starting
        then Begun(s, s', d, dv.(starting := true), StartBind(d, t)) else s' == s
      case Stop(e, t) => e == d ==>
        if dv.started && !dv.stopping then Begun(s, s', d, dv.(stopping := true), StopUnbind(d, t)) else s' == s
      case Destruct(e) => e == d ==>
        if dv.refs == 0 && !dv.added && !dv.removing && dv.children == [] then !Of(s', d).constructed else s' == s
      case _ => true
  {
    hide ChildrenInv, DriverInv, Tallied, Listed;
    RunKeepsInv(ss, run, i);
    assert DeviceInv(ss[i], d);
  }

  /** The driver's answer decides: a start ends with the device started, and counted by its driver, exactly if the bind
      worked, and a stop leaves it started exactly if the unbind did not. */
  lemma AnswersDecide(ss: seq<State>, run: seq<Action>, i: nat, o: OpId, ok: bool)
    requires IsRun(ss, run) && i < |run| && run[i] == Proceed(o, ok)
    ensures o < |ss[i].ops| && o < |ss[i + 1].ops|
    ensures var s, s', d := ss[i], ss[i + 1], ss[i].ops[o].d;
      match s.ops[o]
      case InBind(_, _) => s'.ops[o] == StartCommit(d, ok) &&
        UseCount(s', DriverOf(s, d)) == UseCount(s, DriverOf(s, d)) + if ok then 1 else 0
      case InUnbind(_, _) => s'.ops[o] == StopCommit(d, ok) &&
        UseCount(s', DriverOf(s, d)) == UseCount(s, DriverOf(s, d)) - if ok then 1 else 0
      case StartCommit(_, bound) => Of(s', d) == Of(s, d).(starting := false, started := bound)
      case StopCommit(_, unbound) => Of(s, d).started && Of(s', d) == Of(s, d).(stopping := false, started := !unbound)
      case _ => true
  {
    hide ChildrenInv, DriverInv, Tallied, Listed;
    RunKeepsInv(ss, run, i);
    var s, d := ss[i], ss[i].ops[o].d;
    assert DeviceInv(s, d);
    TalliedMoved(s.ops, o, s.ops[o]);
  }

  /** The last bind or unbind of the device that worked was a bind. */
  ghost predicate LastBound(ss: seq<State>, run: seq<Action>, i: nat, d: Dev)
    requires |ss| == |run| + 1 && i < |ss|
  {
    i > 0 && if Switches(ss[i - 1], run[i - 1], d) then Binds(ss[i - 1], run[i - 1]) else LastBound(ss, run, i - 1, d)
  }

  lemma {:induction false} BoundIsLastBound(ss: seq<State>, run: seq<Action>, i: nat, d: Dev)
    requires IsRun(ss, run) && i < |ss|
    ensures Of(ss[i], d).bound <==> LastBound(ss, run, i, d)
  {
    hide Next, Enabled, Sound, DeviceInv, ChildrenInv, DriverInv;
    if i > 0 {
      BoundIsLastBound(ss, run, i - 1, d);
      RunKeepsInv(ss, run, i - 1);
      if Switches(ss[i - 1], run[i - 1], d) {
        SwitchFlipsBound(ss[i - 1], run[i - 1], d);
      } else {
        BoundElsewhere(ss[i - 1], run[i - 1], d);
      }
    }
  }

  /** While no start or stop of it is in progress, a device is started exactly if the last bind or unbind of it that
      worked was a bind. */
  lemma StartedExactlyWhenBound(ss: seq<State>, run: seq<Action>, i: nat, d: Dev)
    requires IsRun(ss, run) && i < |ss| && !Of(ss[i], d).starting && !Of(ss[i], d).stopping
    ensures Of(ss[i], d).started <==> LastBound(ss, run, i, d)
  {
    hide Next, Enabled, Sound, ChildrenInv, DriverInv, Tallied, LastBound;
    RunKeepsInv(ss, run, i);
    assert DeviceInv(ss[i], d);
    BoundIsLastBound(ss, run, i, d);
  }

  /** What an action does to the references of a device: lookups, gets and the poller take one, puts and the end of a
      probe give one back. */
  function Taken(s: State, a: Action, d: Dev): int {
    match a
    case Lookup(e) => if e == d then 1 else 0
    case Get(e) => if e == d then 1 else 0
    case Probe(e, _) => if e == d then 1 else 0
    case Put(e) => if e == d then -1 else 0
    case Proceed(o, _) => if o < |s.ops| && s.ops[o].InProbe? && s.ops[o].d == d then -1 else 0
    case _ => 0
  }

  function Outstanding(ss: seq<State>, run: seq<Action>, i: nat, d: Dev): int
    requires |ss| == |run| + 1 && i < |ss|
  {
    if i == 0 then 0 else Outstanding(ss, run, i - 1, d) + Taken(ss[i - 1], run[i - 1], d)
  }

  lemma RefsAfterParentSection(s: State, d: Dev, e: Dev)
    ensures Of(AddChild(s, d), e).refs == Of(s, e).refs && Of(RemoveChild(s, d), e).refs == Of(s, e).refs
  {
    hide Erase;
  }

  lemma RefsOfSet(s: State, s': State, e: Dev, dv: Device, d: Dev)
    requires s'.devices == s.devices[e := dv]
    ensures Of(s', d) == if d == e then dv else Of(s, d)
  {
  }

  /** A section changes the references of its own device at most, and those only where it ends a probe. */
  lemma RefsAfterSection(s: State, o: OpId, ok: bool, d: Dev)
    requires Enabled(s, Proceed(o, ok))
    ensures Of(Step(s, o, ok), d).refs == Of(s, d).refs + Taken(s, Proceed(o, ok), d)
  {
    var e, s' := s.ops[o].d, Step(s, o, ok);
    RefsAfterParentSection(s, e, d);
    assert
      || s'.devices in {s.devices, AddChild(s, e).devices, RemoveChild(s, e).devices}
      || (s'.devices == s.devices[e := Of(s', e)] && Of(s', e).refs == Of(s, e).refs + Taken(s, Proceed(o, ok), e))
    by {
      hide AddChild, RemoveChild, Erase, CanEnter;
    }
    assert Taken(s, Proceed(o, ok), d) == 0 || (d == e && s'.devices == s.devices[e := Of(s', e)]);
    hide Step, Taken, AddChild, RemoveChild;
    if s'.devices == s.devices[e := Of(s', e)] { RefsOfSet(s, s', e, Of(s', e), d); }
  }

  lemma RefsAfterStep(s: State, a: Action, d: Dev)
    requires Enabled(s, a) && !a.Proceed?
    requires !Of(s, d).constructed ==> Of(s, d).refs == 0
    ensures Of(Next(s, a), d).refs == Of(s, d).refs + Taken(s, a, d)
  {
    hide Step, Erase, CanEnter, NoAdder;
  }

  /** The reference count is the number of references taken and not given back, and is never negative. */
  lemma {:induction false} ReferencesAreCounted(ss: seq<State>, run: seq<Action>, i: nat, d: Dev)
    requires IsRun(ss, run) && i < |ss|
    ensures Of(ss[i], d).refs == Outstanding(ss, run, i, d) >= 0
  {
    RefsInv(ss, run, i, d);
    if i > 0 {
      hide Enabled, Sound, Taken, Of, Step, Inv;
      ReferencesAreCounted(ss, run, i - 1, d);
      RefsInv(ss, run, i - 1, d);
      var s, a := ss[i - 1], run[i - 1];
      if a.Proceed? { RefsAfterSection(s, a.o, a.ok, d); } else { RefsAfterStep(s, a, d); }
    }
  }

  lemma RefsInv(ss: seq<State>, run: seq<Action>, i: nat, d: Dev)
    requires IsRun(ss, run) && i < |ss|
    ensures Of(ss[i], d).refs >= 0 && (!Of(ss[i], d).constructed ==> Of(ss[i], d).refs == 0)
  {
    hide Next, Enabled, Sound, ChildrenInv, DriverInv, Tallied, Of;
    RunKeepsInv(ss, run, i);
    assert DeviceInv(ss[i], d);
  }

  /** While references are outstanding device_destruct changes nothing. */
  lemma ReferencesPreventDestruct(ss: seq<State>, run: seq<Action>, i: nat, d: Dev)
    requires IsRun(ss, run) && i < |run| && Of(ss[i], d).refs > 0
    ensures Of(ss[i + 1], d).constructed
    ensures run[i] == Destruct(d) ==> ss[i + 1] == ss[i]
  {
    hide Next, Enabled, Sound, DeviceInv, ChildrenInv, DriverInv;
    LifecycleInEveryRun(ss, run, i, d);
    ConstructionStays(ss[i], run[i], d);
  }

  // --- binds and unbinds

  lemma {:induction false} RunKeepsBound(ss: seq<State>, run: seq<Action>, i: nat, j: nat, d: Dev)
    requires IsRun(ss, run) && i <= j < |ss|
    requires forall k :: i <= k < j ==> !Switches(ss[k], run[k], d)
    ensures Of(ss[j], d).bound == Of(ss[i], d).bound
  {
    hide Next, Enabled, Sound, DeviceInv, ChildrenInv, DriverInv;
    if i < j {
      RunKeepsBound(ss, run, i, j - 1, d);
      RunKeepsInv(ss, run, j - 1);
      BoundElsewhere(ss[j - 1], run[j - 1], d);
    }
  }

  /** The successful binds and unbinds of a device alternate, and begin with a bind. */
  lemma BindsAlternate(ss: seq<State>, run: seq<Action>, i: nat, j: nat, d: Dev)
    requires IsRun(ss, run) && i < j < |run|
    requires Switches(ss[i], run[i], d) && Switches(ss[j], run[j], d)
    requires forall k :: i < k < j ==> !Switches(ss[k], run[k], d)
    ensures Binds(ss[i], run[i]) <==> Unbinds(ss[j], run[j])
  {
    hide Next, Enabled, Sound, DeviceInv, ChildrenInv, DriverInv;
    RunKeepsInv(ss, run, i);
    RunKeepsInv(ss, run, j);
    SwitchFlipsBound(ss[i], run[i], d);
    SwitchFlipsBound(ss[j], run[j], d);
    RunKeepsBound(ss, run, i + 1, j, d);
  }

  lemma FirstSwitchIsABind(ss: seq<State>, run: seq<Action>, j: nat, d: Dev)
    requires IsRun(ss, run) && j < |run| && Switches(ss[j], run[j], d)
    requires forall k :: 0 <= k < j ==> !Switches(ss[k], run[k], d)
    ensures Binds(ss[j], run[j])
  {
    hide Next, Enabled, Sound, DeviceInv, ChildrenInv, DriverInv;
    RunKeepsInv(ss, run, j);
    SwitchFlipsBound(ss[j], run[j], d);
    RunKeepsBound(ss, run, 0, j, d);
  }

  /** A driver's use count is the number of devices bound to it, and destructing it succeeds exactly when there is
      none. */
  lemma UseCountIsExact(ss: seq<State>, run: seq<Action>, i: nat, v: Drv)
    requires IsRun(ss, run) && i < |ss|
    ensures UseCount(ss[i], v) == |Users(ss[i], v)|
    ensures Enabled(ss[i], DestructDriver(v)) ==>
      (Live(Next(ss[i], DestructDriver(v)), v) <==> Users(ss[i], v) != {})
  {
    hide Enabled, Sound, DeviceInv, ChildrenInv, Users, Step;
    RunKeepsInv(ss, run, i);
    assert DriverInv(ss[i], v);
  }

  /** The driver callbacks of one device never run on two threads at once. */
  lemma {:induction false} CallbacksNeverOverlap(ss: seq<State>, run: seq<Action>, i: nat)
    requires IsRun(ss, run) && i < |ss|
    ensures Exclusive(ss[i].ops)
  {
    hide Next, Enabled, Sound;
    if i == 0 {
      assert |Init().ops| == 0;
    } else {
      CallbacksNeverOverlap(ss, run, i - 1);
      CallbackEntry(ss[i - 1], run[i - 1]);
    }
  }

  /** At most one start or stop of a device is between its first section and its last: whoever comes second finds
      `starting`, `started` or `stopping` set. */
  lemma OneSwitchAtATime(ss: seq<State>, run: seq<Action>, i: nat, o: OpId, u: OpId)
    requires IsRun(ss, run) && i < |ss| && o < |ss[i].ops| && u < |ss[i].ops| && o != u
    requires Switching(ss[i].ops[o]) && ss[i].ops[o].d == ss[i].ops[u].d
    ensures !Switching(ss[i].ops[u])
  {
    hide Next, Enabled, Sound, ChildrenInv, DriverInv, Tallied, Accounted, AtLeast, Plus, Unit, Of, Listed, Switching;
    RunKeepsInv(ss, run, i);
    var s, d := ss[i], ss[i].ops[o].d;
    assert DeviceInv(s, d);
    TwoAreCounted(s.ops, o, u);
    OneSwitchAccount(Of(s, d), Tallied(s.ops, d), s.ops[o], s.ops[u], multiset(s.ledger)[d], Listed(s, d));
  }

  // --- what callers must do so that no start meets a dead driver

  /** Any interleaving, sound or not. */
  ghost predicate IsTrace(ss: seq<State>, run: seq<Action>) {
    && |ss| == |run| + 1
    && ss[0] == Init()
    && forall i :: 0 <= i < |run| ==> Enabled(ss[i], run[i]) && ss[i + 1] == Next(ss[i], run[i])
  }

  lemma {:induction false} CarefulPrefix(ss: seq<State>, run: seq<Action>, i: nat)
    requires IsTrace(ss, run) && i < |ss| && forall k :: 0 <= k < i ==> Careful(ss[k], run[k])
    ensures Inv(ss[i]) && StartsHaveDrivers(ss[i]) && forall k :: 0 <= k < i ==> Sound(ss[k], run[k])
  {
    hide Next, Enabled, Sound, Inv, Careful;
    if i == 0 {
      InitInv();
    } else {
      CarefulPrefix(ss, run, i - 1);
      CarefulStep(ss[i - 1], run[i - 1]);
      StepKeepsInv(ss[i - 1], run[i - 1]);
    }
  }

  /** When every start finds its driver there and every driver is destructed while no start is at its bind, nothing in
      any interleaving touches a destructed device or a dead driver. */
  lemma CarefulCallersAreSafe(ss: seq<State>, run: seq<Action>)
    requires IsTrace(ss, run) && forall k :: 0 <= k < |run| ==> Careful(ss[k], run[k])
    ensures IsRun(ss, run)
  {
    hide Next, Enabled, Sound, Inv, Careful;
    CarefulPrefix(ss, run, |run|);
  }

  /** `starting` tells a caller that a start may be at its bind. */
  lemma NoFlagNoBind(ss: seq<State>, run: seq<Action>, v: Drv)
    requires IsRun(ss, run)
    requires forall d :: Of(ss[|run|], d).starting ==> DriverOf(ss[|run|], d) != v
    ensures Careful(ss[|run|], DestructDriver(v))
  {
    hide Next, Enabled, Sound, ChildrenInv, DriverInv, Tallied, Live;
    var s := ss[|run|];
    RunKeepsInv(ss, run, |run|);
    forall o | 0 <= o < |s.ops| && Binding(s.ops[o]) ensures Of(s, s.ops[o].d).starting {
      assert DeviceInv(s, s.ops[o].d);
      TalliedMoved(s.ops, o, s.ops[o]);
    }
  }

  /** A start whose driver is dead gets to use it, once the probes of its device have ended. */
  lemma {:induction false} MeetsItsDeadDriver(ss: seq<State>, run: seq<Action>, s: State, o: OpId)
    returns (ss': seq<State>, run': seq<Action>, s': State)
    requires Leads(ss, run, s) && o < |s.ops| && Binding(s.ops[o]) && !Live(s, DriverOf(s, s.ops[o].d))
    ensures Leads(ss', run', s') && run <= run'
    ensures Enabled(s', Proceed(o, true)) && !Sound(s', Proceed(o, true))
    decreases Of(s, s.ops[o].d).probes
  {
    hide Next, DeviceInv, ChildrenInv, DriverInv, Of, Leads;
    InvWhereLed(ss, run, s);
    assert DeviceInv(s, s.ops[o].d);
    ss', run', s' := ss, run, s;
    if !CanEnter(s, s.ops[o].d, s.ops[o].t) {
      var u :| 0 <= u < |s.ops| && InCallback(s.ops[u]) && s.ops[u].d == s.ops[o].d && s.ops[u].t != s.ops[o].t;
      OnlyAProbeKeepsOut(s, o, u);
      ProbeEnds(s, u);
      OnlyADeadDriverIsUnsound(s, Proceed(u, true));
      var s1 := Next(s, Proceed(u, true));
      var ss1, run1 := Extend(ss, run, s, Proceed(u, true), s1);
      ss', run', s' := MeetsItsDeadDriver(ss1, run1, s1, o);
    }
  }

  lemma InvWhereLed(ss: seq<State>, run: seq<Action>, s: State)
    requires Leads(ss, run, s)
    ensures Inv(s)
  {
    hide Next, Enabled, Sound, Inv;
    RunKeepsInv(ss, run, |run|);
  }

  /** The other half: the first call that is not careful can be followed, without any other mistake, by a start that
      uses a dead driver. */
  lemma CarelessCallersMeetDeadDrivers(ss: seq<State>, run: seq<Action>, s: State, a: Action)
    returns (ss': seq<State>, run': seq<Action>, s': State, last: Action)
    requires Leads(ss, run, s) && Enabled(s, a) && !Careful(s, a)
    ensures Leads(ss', run', s') && run + [a] <= run'
    ensures Enabled(s', last) && !Sound(s', last)
  {
    hide Next, DeviceInv, ChildrenInv, DriverInv, Of, Leads, Live, UseCount, MayStart;
    InvWhereLed(ss, run, s);
    OnlyADeadDriverIsUnsound(s, a);
    var s1 := Next(s, a);
    var ss1, run1 := Extend(ss, run, s, a, s1);
    var o;
    if a.Start? {
      o := |s.ops|;
      BeginNext(s, a);
      StartKeepsDrivers(s, a);
    } else {
      o :| 0 <= o < |s.ops| && Binding(s.ops[o]) && DriverOf(s, s.ops[o].d) == a.v;
      InProgressKeepsDriver(s, a, o);
      LiveAfter(s, a, a.v);
      DestructKeepsOps(s, a);
    }
    ss', run', s' := MeetsItsDeadDriver(ss1, run1, s1, o);
    last := Proceed(o, true);
  }

  // --- what the code does not give

  ghost predicate Leads(ss: seq<State>, run: seq<Action>, s: State) {
    IsRun(ss, run) && ss[|run|] == s
  }

  lemma Extend(ss: seq<State>, run: seq<Action>, s: State, a: Action, s': State)
    returns (ss': seq<State>, run': seq<Action>)
    requires Leads(ss, run, s) && Enabled(s, a) && Sound(s, a) && s' == Next(s, a)
    ensures Leads(ss', run', s') && run' == run + [a]
  {
    hide Enabled, Sound, Next;
    ss', run' := ss + [s'], run + [a];
  }

  const ADDED := BLANK.(constructed := true, driver := Some(1), added := true)

  lemma AddedRun() returns (ss: seq<State>, run: seq<Action>, s: State)
    ensures Leads(ss, run, s) && s == State(map[0 := ADDED], [0], map[1 := Driver(true, 0)], [Over(0)])
  {
    hide Leads;
    var s1 := Init().(drivers := map[1 := Driver(true, 0)]);
    var s2 := s1.(devices := map[0 := ADDED.(added := false)]);
    var s3 := s2.(ops := [AddLedger(0)]);
    var s4 := s2.(ops := s3.ops[0 := AddParent(0)], ledger := [] + [0]);
    var s5 := s4.(ops := s4.ops[0 := AddFlag(0)]);
    s := s5.(ops := s5.ops[0 := Over(0)], devices := s5.devices[0 := ADDED]);
    ss, run := StartOfRun();
    ss, run := Extend(ss, run, Init(), ConstructDriver(1), s1);
    ss, run := Extend(ss, run, s1, Construct(0, None, Some(1)), s2);
    ss, run := Extend(ss, run, s2, Add(0), s3);
    ss, run := Extend(ss, run, s3, Proceed(0, true), s4);
    ss, run := Extend(ss, run, s4, Proceed(0, true), s5);
    ss, run := Extend(ss, run, s5, Proceed(0, true), s);
  }

  lemma StartOfRun() returns (ss: seq<State>, run: seq<Action>)
    ensures Leads(ss, run, Init())
  {
    ss, run := [Init()], [];
  }

  /** driver_bind counts the device only after the driver's callback, so driver_destruct can succeed while a start is
      inside that callback, and the count that follows is written to freed memory. */
  lemma DestructedUnderAStart() returns (ss: seq<State>, run: seq<Action>, s: State)
    ensures Leads(ss, run, s) && |s.ops| == 2 && s.ops[1].InBind?
    ensures Enabled(s, Proceed(1, true)) && !Sound(s, Proceed(1, true))
  {
    hide Leads;
    var s0;
    ss, run, s0 := AddedRun();
    var s1 := s0.(devices := s0.devices[0 := ADDED.(starting := true)], ops := s0.ops + [StartBind(0, 7)]);
    var s2 := s1.(ops := s1.ops[1 := InBind(0, 7)]);
    s := s2.(drivers := s2.drivers[1 := Driver(false, 0)]);
    ss, run := Extend(ss, run, s0, Start(0, 7), s1);
    ss, run := Extend(ss, run, s1, Proceed(1, true), s2);
    ss, run := Extend(ss, run, s2, DestructDriver(1), s);
  }

  // ---------------------------------------------------------------------------------------------
  // The sections on the objects that are updated in place

  datatype Error = ErrorNone | InvalidState | ResourceBusy | NotFound | Resource

  /** What the first section of an operation answers. `Go` continues the operation. */
  datatype Answer = Go | Return(error: Error)

  class DeviceInternal {
    var driver: Option<Drv>
    var parent: Option<Dev>
    var added: bool
    var started: bool
    var starting: bool
    var stopping: bool
    var removing: bool
    var refCount: int
    var children: seq<Dev>
    ghost var probes: int
    ghost var bound: bool

    ghost function View(): Device
      reads this
    {
      Device(true, added, started, starting, stopping, removing, refCount, probes, children, parent, driver, bound)
    }

    constructor (parent: Option<Dev>, driver: Option<Drv>)
      ensures View() == BLANK.(constructed := true, parent := parent, driver := driver)
    {
      this.driver, this.parent := driver, parent;
      added, started, starting, stopping, removing := false, false, false, false, false;
      refCount, probes, children, bound := 0, 0, [], false;
    }

    /** device_destruct up to the point of no return. */
    method MayBeDestructed() returns (answer: Answer)
      requires refCount >= 0
      ensures answer == Go <==> refCount == 0 && !started && !added && !removing && children == []
      ensures answer == Go <==> MayDestruct(View())
      ensures answer == Return(ResourceBusy) <==> refCount > 0
    {
      if refCount > 0 {
        return Return(ResourceBusy);
      }
      if started || added || removing {
        return Return(InvalidState);
      }
      if children != [] {
        return Return(InvalidState);
      }
      answer := Go;
    }

    method BeginAdd() returns (answer: Answer)
      ensures answer == Go <==> !started && !added && !removing
      ensures answer == if MayAdd(View()) then Go else Return(InvalidState)
    {
      answer := if started || added || removing then Return(InvalidState) else Go;
    }

    method BeginRemove() returns (answer: Answer)
      modifies this`added, this`removing
      ensures answer == Go <==> old(added) && !started && !starting
      ensures (added <==> old(added) && answer != Go) && (removing <==> old(removing) || answer == Go)
      ensures answer == if MayRemove(old(View())) then Go else Return(InvalidState)
      ensures View() == if MayRemove(old(View())) then Withdraw(old(View())) else old(View())
    {
      if started || starting || !added {
        return Return(InvalidState);
      }
      added, removing := false, true;
      answer := Go;
    }

    method BeginStart() returns (answer: Answer)
      modifies this`starting
      ensures answer ==
        if !added || driver == None then Return(InvalidState)
        else if started then Return(ErrorNone)
        else if old(starting) then Return(ResourceBusy)
        else Go
      ensures answer == Go <==> MayStart(old(View()))
      ensures View() == if answer == Go then old(View()).(starting := true) else old(View())
    {
      if !added || driver == None {
        return Return(InvalidState);
      }
      if started {
        return Return(ErrorNone);
      }
      if starting {
        return Return(ResourceBusy);
      }
      starting := true;
      answer := Go;
    }

    method EndStart(bindError: Error) returns (error: Error)
      modifies this`starting, this`started
      ensures !starting && (started <==> bindError == ErrorNone)
      ensures View() == CommitStart(old(View()), bindError == ErrorNone)
      ensures error == if bindError == ErrorNone || bindError == NotFound then bindError else Resource
    {
      starting := false;
      started := bindError == ErrorNone;
      error := if bindError != ErrorNone then (if bindError == NotFound then NotFound else Resource) else ErrorNone;
    }

    method BeginStop() returns (answer: Answer)
      modifies this`stopping
      ensures answer ==
        if !added then Return(InvalidState)
        else if !started then Return(ErrorNone)
        else if old(stopping) then Return(ResourceBusy)
        else Go
      ensures answer == Go <==> MayStop(old(View()))
      ensures View() == if answer == Go then old(View()).(stopping := true) else old(View())
    {
      if !added {
        return Return(InvalidState);
      }
      if !started {
        return Return(ErrorNone);
      }
      if stopping {
        return Return(ResourceBusy);
      }
      stopping := true;
      answer := Go;
    }

    method EndStop(unbindError: Error) returns (error: Error)
      modifies this`stopping, this`started
      ensures !stopping && (started <==> old(started) && unbindError != ErrorNone)
      ensures View() == CommitStop(old(View()), unbindError == ErrorNone)
      ensures error == if unbindError == ErrorNone then ErrorNone else Resource
    {
      stopping := false;
      if unbindError != ErrorNone {
        return Resource;
      }
      started := false;
      error := ErrorNone;
    }
  }

  class DeviceLedger {
    var devices: seq<Dev>

    constructor ()
      ensures devices == []
    {
      devices := [];
    }

    /** The search and erase of device_remove. */
    method Remove(d: Dev) returns (found: bool)
      modifies this
      ensures found <==> d in old(devices)
      ensures devices == Erase(old(devices), d)
      ensures if !found then devices == old(devices)
              else exists i ::
                && 0 <= i < |old(devices)| && old(devices)[i] == d && d !in old(devices)[..i]
                && devices == old(devices)[..i] + old(devices)[i + 1..]
    {
      var i := 0;
      while i < |devices| && devices[i] != d
        invariant 0 <= i <= |devices| && d !in devices[..i]
        invariant devices == old(devices)
        invariant Erase(devices, d) == devices[..i] + Erase(devices[i..], d)
      {
        assert devices[i..] == [devices[i]] + devices[i + 1..];
        assert devices[..i + 1] == devices[..i] + [devices[i]];
        i := i + 1;
      }
      found := i < |devices|;
      assert devices == devices[..i] + devices[i..];
      if found {
        devices := devices[..i] + devices[i + 1..];
      } else {
        assert devices[..i] == devices;
      }
    }

    /** The search of the lookups: the first device that matches. */
    method Find(matches: Dev -> bool) returns (found: Option<Dev>)
      ensures found == None ==> forall d :: d in devices ==> !matches(d)
      ensures found.Some? ==> exists i :: 0 <= i < |devices| && devices[i] == found.value && matches(found.value)
                                          && forall j :: 0 <= j < i ==> !matches(devices[j])
    {
      for i := 0 to |devices|
        invariant forall j :: 0 <= j < i ==> !matches(devices[j])
      {
        if matches(devices[i]) {
          return Some(devices[i]);
        }
      }
      found := None;
    }
  }
}
