/** The device lifecycle of device.cpp with the binding of driver.cpp, step by step, under any interleaving.

  A state holds every device, the ledger, every driver and the operations that are in progress. One action is one
  critical section (of a device mutex, of the ledger mutex, or of both where a lookup nests them), or one end of a
  driver callback. Operations may begin at any time, also inside another operation's driver callback: nesting only
  restricts the interleavings further.

  One owner constructs, adds and destructs a device, one call at a time. Parent and driver are set at construction.

  The invariant accounts for every device by the operations that are in progress on it: how many of them are at each
  point between two sections fixes its flags, how often the ledger and its parent list it, whether its driver counts
  it, and its least number of references.

  What a section does is proved once for the account of a device as a value, then for the device that the operation
  works on, for every other device, for the lists of children and for the drivers.
*/
module DeviceSteps {
  import opened Wrappers

  type Dev = nat
  type Drv = nat
  type Thread = nat
  type OpId = nat

  /** Of the references, `probes` are the poller's. `bound` records whether the last successful bind or unbind was a
      bind; no step reads it. */
  datatype Device = Device(
    constructed: bool, added: bool, started: bool, starting: bool, stopping: bool, removing: bool,
    refs: int, probes: int, children: seq<Dev>, parent: Option<Dev>, driver: Option<Drv>, bound: bool)

  datatype Driver = Driver(live: bool, useCount: int)

  /** An operation on a device between two of its critical sections. */
  datatype Op =
    | AddLedger(d: Dev)                   // passed the check of device_add
    | AddParent(d: Dev)                   // in the ledger
    | AddFlag(d: Dev)                     // in its parent's list
    | RemoveParent(d: Dev)                // passed the check of device_remove
    | RemoveLedger(d: Dev)                // out of its parent's list
    | RemoveDone(d: Dev)                  // out of the ledger
    | RemoveMissing(d: Dev)               // was not in the ledger, back in its parent's list, about to roll back
    | StartBind(d: Dev, t: Thread)        // `starting` is set, the callback mutex not taken yet
    | InBind(d: Dev, t: Thread)           // inside driver_bind
    | StartCommit(d: Dev, ok: bool)       // bind is over, the flags not updated yet
    | StopUnbind(d: Dev, t: Thread)
    | InUnbind(d: Dev, t: Thread)
    | StopCommit(d: Dev, ok: bool)
    | InProbe(d: Dev, t: Thread)          // the poller's probe, on a device it holds a reference on
    | Over(d: Dev)

  datatype State = State(devices: map<Dev, Device>, ledger: seq<Dev>, drivers: map<Drv, Driver>, ops: seq<Op>)

  datatype Action =
    | Construct(d: Dev, parent: Option<Dev>, driver: Option<Drv>)
    | Destruct(d: Dev)
    | Add(d: Dev)
    | Remove(d: Dev)
    | Start(d: Dev, t: Thread)
    | Stop(d: Dev, t: Thread)
    | Probe(d: Dev, t: Thread)
    | Proceed(o: OpId, ok: bool)          // the next section of an operation; `ok` is the driver's answer
    | Lookup(d: Dev)
    | Get(d: Dev)
    | Put(d: Dev)
    | ConstructDriver(v: Drv)
    | DestructDriver(v: Drv)

  // ---------------------------------------------------------------------------------------------
  // The critical sections, as functions on values

  const BLANK := Device(false, false, false, false, false, false, 0, 0, [], None, None, false)

  predicate MayDestruct(dv: Device) {
    dv.refs == 0 && !dv.started && !dv.added && !dv.removing && dv.children == []
  }

  predicate MayAdd(dv: Device) {
    !dv.started && !dv.added && !dv.removing
  }

  predicate MayRemove(dv: Device) {
    !dv.started && !dv.starting && dv.added
  }

  predicate MayStart(dv: Device) {
    dv.added && dv.driver.Some? && !dv.started && !dv.starting
  }

  predicate MayStop(dv: Device) {
    dv.added && dv.started && !dv.stopping
  }

  function Withdraw(dv: Device): Device {
    dv.(added := false, removing := true)
  }

  function CommitStart(dv: Device, ok: bool): Device {
    dv.(starting := false, started := ok)
  }

  function BeginProbe(dv: Device): Device {
    dv.(refs := dv.refs + 1, probes := dv.probes + 1)
  }

  function EndProbe(dv: Device): Device {
    dv.(refs := dv.refs - 1, probes := dv.probes - 1)
  }

  function CommitStop(dv: Device, ok: bool): Device {
    dv.(stopping := false, started := if ok then false else dv.started)
  }

  // ---------------------------------------------------------------------------------------------
  // The state machine

  function Init(): State {
    State(map[], [], map[], [])
  }

  function Of(s: State, d: Dev): Device {
    if d in s.devices then s.devices[d] else BLANK
  }

  function Set(s: State, d: Dev, dv: Device): State {
    s.(devices := s.devices[d := dv])
  }

  predicate Live(s: State, v: Drv) {
    v in s.drivers && s.drivers[v].live
  }

  function UseCount(s: State, v: Drv): int {
    if v in s.drivers then s.drivers[v].useCount else 0
  }

  /** The driver a device is bound through; device_start refuses devices without one. */
  function DriverOf(s: State, d: Dev): Drv {
    if Of(s, d).driver.Some? then Of(s, d).driver.value else 0
  }

  predicate InCallback(op: Op) {
    op.InBind? || op.InUnbind? || op.InProbe?
  }

  /** The device's callback mutex is free or already this thread's. */
  predicate CanEnter(s: State, d: Dev, t: Thread) {
    forall o :: 0 <= o < |s.ops| && InCallback(s.ops[o]) && s.ops[o].d == d ==> s.ops[o].t == t
  }

  predicate NoAdder(s: State, d: Dev) {
    forall o :: 0 <= o < |s.ops| && s.ops[o].d == d ==>
      !s.ops[o].AddLedger? && !s.ops[o].AddParent? && !s.ops[o].AddFlag?
  }

  predicate Enabled(s: State, a: Action) {
    match a
    // A device that is its own parent can never be added: device_add_child would abort
    case Construct(d, parent, _) => !Of(s, d).constructed && parent != Some(d)
    case Destruct(d) => Of(s, d).constructed && NoAdder(s, d)
    case Add(d) => Of(s, d).constructed && NoAdder(s, d)
    case Remove(d) => Of(s, d).constructed
    case Start(d, _) => Of(s, d).constructed
    case Stop(d, _) => Of(s, d).constructed
    case Probe(d, t) => Of(s, d).constructed && CanEnter(s, d, t)
    case Proceed(o, _) =>
      && o < |s.ops| && !s.ops[o].Over?
      && (s.ops[o].StartBind? || s.ops[o].StopUnbind? ==> CanEnter(s, s.ops[o].d, s.ops[o].t))
      // device_add_child checks that the parent is added, and aborts otherwise
      && (s.ops[o].AddParent? && Of(s, s.ops[o].d).parent.Some? ==> Of(s, Of(s, s.ops[o].d).parent.value).added)
    case Lookup(d) => d in s.ledger
    case Get(d) => Of(s, d).constructed
    case Put(d) => Of(s, d).refs > Of(s, d).probes  // everyone puts what it got, and the poller its own
    case ConstructDriver(v) => !Live(s, v)
    case DestructDriver(v) => Live(s, v)
  }

  function Begin(s: State, op: Op): State {
    s.(ops := s.ops + [op])
  }

  function Become(s: State, o: OpId, op: Op): State
    requires o < |s.ops|
  {
    s.(ops := s.ops[o := op])
  }

  function Finish(s: State, o: OpId): State
    requires o < |s.ops|
  {
    s.(ops := s.ops[o := Over(s.ops[o].d)])
  }

  function AddChild(s: State, d: Dev): State {
    match Of(s, d).parent
    case None => s
    case Some(p) => Set(s, p, Of(s, p).(children := Of(s, p).children + [d]))
  }

  function RemoveChild(s: State, d: Dev): State {
    match Of(s, d).parent
    case None => s
    case Some(p) => Set(s, p, Of(s, p).(children := Erase(Of(s, p).children, d)))
  }

  function Adjust(s: State, v: Drv, change: int): State {
    s.(drivers := s.drivers[v := Driver(Live(s, v), UseCount(s, v) + change)])
  }

  /** The next section of an operation in progress. */
  function Step(s: State, o: OpId, ok: bool): State
    requires o < |s.ops|
  {
    var d := s.ops[o].d;
    match s.ops[o]
    case AddLedger(_) => Become(s.(ledger := s.ledger + [d]), o, AddParent(d))
    case AddParent(_) => Become(AddChild(s, d), o, AddFlag(d))
    case AddFlag(_) => Finish(Set(s, d, Of(s, d).(added := true)), o)
    case RemoveParent(_) => Become(RemoveChild(s, d), o, RemoveLedger(d))
    case RemoveLedger(_) =>
      if d in s.ledger then Become(s.(ledger := Erase(s.ledger, d)), o, RemoveDone(d))
      else Become(AddChild(s, d), o, RemoveMissing(d))
    case RemoveDone(_) => Finish(Set(s, d, Of(s, d).(removing := false)), o)
    case RemoveMissing(_) => Finish(Set(s, d, Of(s, d).(added := true, removing := false)), o)
    case StartBind(_, t) => Become(s, o, InBind(d, t))
    case InBind(_, _) =>
      if ok && Of(s, d).added then
        Become(Adjust(Set(s, d, Of(s, d).(bound := true)), DriverOf(s, d), 1), o, StartCommit(d, true))
      else Become(s, o, StartCommit(d, false))
    case StartCommit(_, bound) => Finish(Set(s, d, CommitStart(Of(s, d), bound)), o)
    case StopUnbind(_, t) => Become(s, o, InUnbind(d, t))
    case InUnbind(_, _) =>
      if ok && Of(s, d).added then
        Become(Adjust(Set(s, d, Of(s, d).(bound := false)), DriverOf(s, d), -1), o, StopCommit(d, true))
      else Become(s, o, StopCommit(d, false))
    case StopCommit(_, unbound) => Finish(Set(s, d, CommitStop(Of(s, d), unbound)), o)
    case InProbe(_, _) => Finish(Set(s, d, EndProbe(Of(s, d))), o)
    case Over(_) => s
  }

  function Next(s: State, a: Action): State
    requires Enabled(s, a)
  {
    match a
    case Construct(d, parent, driver) => Set(s, d, BLANK.(constructed := true, parent := parent, driver := driver))
    case Destruct(d) => if MayDestruct(Of(s, d)) then Set(s, d, BLANK) else s
    case Add(d) => if MayAdd(Of(s, d)) then Begin(s, AddLedger(d)) else s
    case Remove(d) =>
      if MayRemove(Of(s, d)) then Begin(Set(s, d, Withdraw(Of(s, d))), RemoveParent(d)) else s
    case Start(d, t) =>
      if MayStart(Of(s, d)) then Begin(Set(s, d, Of(s, d).(starting := true)), StartBind(d, t)) else s
    case Stop(d, t) =>
      if MayStop(Of(s, d)) then Begin(Set(s, d, Of(s, d).(stopping := true)), StopUnbind(d, t)) else s
    case Probe(d, t) => Begin(Set(s, d, BeginProbe(Of(s, d))), InProbe(d, t))
    case Proceed(o, ok) => Step(s, o, ok)
    case Lookup(d) => Set(s, d, Of(s, d).(refs := Of(s, d).refs + 1))
    case Get(d) => Set(s, d, Of(s, d).(refs := Of(s, d).refs + 1))
    case Put(d) => Set(s, d, Of(s, d).(refs := Of(s, d).refs - 1))
    case ConstructDriver(v) => s.(drivers := s.drivers[v := Driver(true, 0)])
    case DestructDriver(v) => if s.drivers[v].useCount == 0 then s.(drivers := s.drivers[v := Driver(false, 0)]) else s
  }

  /** The devices whose internals an action reads or writes. */
  function TouchedDevices(s: State, a: Action): set<Dev>
    requires Enabled(s, a)
  {
    match a
    case Destruct(d) => {d}
    case Add(d) => {d}
    case Remove(d) => {d}
    case Start(d, _) => {d}
    case Stop(d, _) => {d}
    case Probe(d, _) => {d}
    case Lookup(d) => {d}
    case Get(d) => {d}
    case Put(d) => {d}
    case Proceed(o, _) =>
      var d := s.ops[o].d;
      if (s.ops[o].AddParent? || s.ops[o].RemoveParent?) && Of(s, d).parent.Some? then {d, Of(s, d).parent.value}
      else {d}
    case _ => {}
  }

  /** An operation that is about to run driver_bind or driver_unbind, or is inside it, uses the driver's internals. */
  predicate UsesDriver(s: State, a: Action) {
    a.Proceed? && a.o < |s.ops|
    && (s.ops[a.o].StartBind? || s.ops[a.o].InBind? || s.ops[a.o].StopUnbind? || s.ops[a.o].InUnbind?)
  }

  predicate Sound(s: State, a: Action)
    requires Enabled(s, a)
  {
    && (forall d :: d in TouchedDevices(s, a) ==> Of(s, d).constructed)
    && (UsesDriver(s, a) ==> Live(s, DriverOf(s, s.ops[a.o].d)))
  }

  // ---------------------------------------------------------------------------------------------
  // How many operations on a device are at each point

  datatype Tally = Tally(
    addL: nat, addP: nat, addF: nat, remP: nat, remL: nat, remD: nat, remM: nat,
    binding: nat, wasBound: nat, notBound: nat, unbinding: nat, unbound: nat, stillBound: nat, probing: nat)

  const NOTHING := Tally(0, 0, 0, 0, 0, 0, 0, 0, 0, 0, 0, 0, 0, 0)

  function Plus(a: Tally, b: Tally): Tally {
    Tally(a.addL + b.addL, a.addP + b.addP, a.addF + b.addF, a.remP + b.remP, a.remL + b.remL, a.remD + b.remD,
          a.remM + b.remM, a.binding + b.binding, a.wasBound + b.wasBound, a.notBound + b.notBound,
          a.unbinding + b.unbinding, a.unbound + b.unbound, a.stillBound + b.stillBound, a.probing + b.probing)
  }

  function Unit(op: Op, d: Dev): Tally {
    if op.d != d then NOTHING
    else match op
      case AddLedger(_) => NOTHING.(addL := 1)
      case AddParent(_) => NOTHING.(addP := 1)
      case AddFlag(_) => NOTHING.(addF := 1)
      case RemoveParent(_) => NOTHING.(remP := 1)
      case RemoveLedger(_) => NOTHING.(remL := 1)
      case RemoveDone(_) => NOTHING.(remD := 1)
      case RemoveMissing(_) => NOTHING.(remM := 1)
      case StartBind(_, _) => NOTHING.(binding := 1)
      case InBind(_, _) => NOTHING.(binding := 1)
      case StartCommit(_, ok) => if ok then NOTHING.(wasBound := 1) else NOTHING.(notBound := 1)
      case StopUnbind(_, _) => NOTHING.(unbinding := 1)
      case InUnbind(_, _) => NOTHING.(unbinding := 1)
      case StopCommit(_, ok) => if ok then NOTHING.(unbound := 1) else NOTHING.(stillBound := 1)
      case InProbe(_, _) => NOTHING.(probing := 1)
      case Over(_) => NOTHING
  }

  function Tallied(ops: seq<Op>, d: Dev): Tally {
    if ops == [] then NOTHING else Plus(Tallied(ops[..|ops| - 1], d), Unit(ops[|ops| - 1], d))
  }

  lemma TalliedMore(ops: seq<Op>, op: Op, d: Dev)
    ensures Tallied(ops + [op], d) == Plus(Tallied(ops, d), Unit(op, d))
  {
    assert (ops + [op])[..|ops|] == ops;
  }

  predicate AtLeast(c: Tally, u: Tally) {
    && c.addL >= u.addL && c.addP >= u.addP && c.addF >= u.addF
    && c.remP >= u.remP && c.remL >= u.remL && c.remD >= u.remD && c.remM >= u.remM
    && c.binding >= u.binding && c.wasBound >= u.wasBound && c.notBound >= u.notBound
    && c.unbinding >= u.unbinding && c.unbound >= u.unbound && c.stillBound >= u.stillBound && c.probing >= u.probing
  }

  function Minus(c: Tally, u: Tally): Tally
    requires AtLeast(c, u)
  {
    Tally(c.addL - u.addL, c.addP - u.addP, c.addF - u.addF, c.remP - u.remP, c.remL - u.remL, c.remD - u.remD,
          c.remM - u.remM, c.binding - u.binding, c.wasBound - u.wasBound, c.notBound - u.notBound,
          c.unbinding - u.unbinding, c.unbound - u.unbound, c.stillBound - u.stillBound, c.probing - u.probing)
  }

  /** The account after one operation has moved from `op` to `op'`. */
  function Moved(c: Tally, op: Op, op': Op): Tally
    requires AtLeast(c, Unit(op, op.d))
  {
    Plus(Minus(c, Unit(op, op.d)), Unit(op', op.d))
  }

  lemma MinusPlus(c: Tally, u: Tally, v: Tally, w: Tally)
    ensures AtLeast(Plus(c, u), u) && Plus(Minus(Plus(c, u), u), v) == Plus(c, v)
    ensures AtLeast(c, w) ==> AtLeast(Plus(c, u), w) && Plus(Plus(Minus(c, w), v), u) == Plus(Minus(Plus(c, u), w), v)
  {
  }

  /** An operation in progress is counted, and takes its unit along when it moves on. */
  lemma {:induction false} TalliedMoved(ops: seq<Op>, o: OpId, op: Op)
    requires o < |ops| && op.d == ops[o].d
    ensures AtLeast(Tallied(ops, op.d), Unit(ops[o], op.d))
    ensures Tallied(ops[o := op], op.d) == Moved(Tallied(ops, op.d), ops[o], op)
    decreases |ops|
  {
    hide Plus, Unit, AtLeast, Minus;
    var n, d := |ops| - 1, op.d;
    if o < n {
      TalliedMoved(ops[..n], o, op);
      assert ops[o := op][..n] == ops[..n][o := op];
      MinusPlus(Tallied(ops[..n], d), Unit(ops[n], d), Unit(op, d), Unit(ops[o], d));
    } else {
      assert ops[o := op][..n] == ops[..n];
      MinusPlus(Tallied(ops[..n], d), Unit(ops[n], d), Unit(op, d), Unit(ops[o], d));
    }
  }

  /** An operation on one device does not count for another. */
  lemma {:induction false} TalliedElsewhere(ops: seq<Op>, o: OpId, op: Op, d: Dev)
    requires o < |ops| && op.d == ops[o].d && d != op.d
    ensures Tallied(ops[o := op], d) == Tallied(ops, d)
    decreases |ops|
  {
    assert Unit(op, d) == Unit(ops[o], d);
    hide Unit, Plus;
    var n := |ops| - 1;
    FrontOfUpdate(ops, o, op);
    if o < n { TalliedElsewhere(ops[..n], o, op, d); }
  }

  lemma FrontOfUpdate(ops: seq<Op>, o: OpId, op: Op)
    requires o < |ops|
    ensures var n := |ops| - 1; ops[o := op][..n] == if o < n then ops[..n][o := op] else ops[..n]
  {
  }

  // ---------------------------------------------------------------------------------------------
  // The invariant

  function One(b: bool): nat {
    if b then 1 else 0
  }

  predicate FlagsInv(dv: Device) {
    && (dv.started ==> dv.added && dv.driver.Some?)
    && (dv.starting ==> dv.added && !dv.started && dv.driver.Some?)
    && (dv.stopping ==> dv.started)
    && (dv.removing ==> !dv.added && !dv.started && !dv.starting)
  }

  /** What holds of one device, given the operations on it and how often the ledger and its parent list it. */
  predicate Accounted(dv: Device, c: Tally, inLedger: nat, inParent: nat) {
    && FlagsInv(dv)
    && (!dv.constructed ==> dv == BLANK && c == NOTHING)
    && c.binding + c.wasBound + c.notBound == One(dv.starting)
    && c.unbinding + c.unbound + c.stillBound == One(dv.stopping)
    && c.remP + c.remL + c.remD == One(dv.removing)
    && c.remM == 0
    && c.addL + c.addP + c.addF <= 1
    && (c.addL + c.addP + c.addF == 1 ==> !dv.added && !dv.removing)
    && inLedger == One(dv.added) + c.addP + c.addF + c.remP + c.remL
    && (dv.parent.Some? ==> inParent == One(dv.added) + c.addF + c.remP)
    && (dv.bound <==> (dv.started && c.unbound == 0) || c.wasBound == 1)
    && dv.probes == c.probing && dv.refs >= dv.probes
  }

  function Listed(s: State, d: Dev): nat {
    if Of(s, d).parent.Some? then multiset(Of(s, Of(s, d).parent.value).children)[d] else 0
  }

  predicate DeviceInv(s: State, d: Dev) {
    Accounted(Of(s, d), Tallied(s.ops, d), multiset(s.ledger)[d], Listed(s, d))
  }

  /** A list of children holds children only. */
  predicate ChildrenInv(s: State, p: Dev) {
    forall d :: d in Of(s, p).children ==> Of(s, d).parent == Some(p)
  }

  function Users(s: State, v: Drv): set<Dev> {
    set d | d in s.devices && s.devices[d].bound && s.devices[d].driver == Some(v)
  }

  /** A driver's use count is the number of devices bound to it, and a driver in use is alive. */
  predicate DriverInv(s: State, v: Drv) {
    UseCount(s, v) == |Users(s, v)| && (Users(s, v) != {} ==> Live(s, v))
  }

  ghost predicate Inv(s: State) {
    && (forall d: Dev :: DeviceInv(s, d) && Of(s, d).parent != Some(d))
    && (forall p: Dev :: ChildrenInv(s, p))
    && (forall v: Drv :: DriverInv(s, v))
  }

  // --- what one section does to the account of its device

  lemma AddLedgerAccount(dv: Device, c: Tally, op: Op, inLedger: nat, inParent: nat)
    requires Accounted(dv, c, inLedger, inParent) && op.AddLedger? && AtLeast(c, Unit(op, op.d))
    ensures Accounted(dv, Moved(c, op, AddParent(op.d)), inLedger + 1, inParent)
  {
  }

  lemma AddParentAccount(dv: Device, c: Tally, op: Op, inLedger: nat, inParent: nat)
    requires Accounted(dv, c, inLedger, inParent) && op.AddParent? && AtLeast(c, Unit(op, op.d))
    ensures Accounted(dv, Moved(c, op, AddFlag(op.d)), inLedger, if dv.parent.Some? then inParent + 1 else inParent)
  {
  }

  lemma AddFlagAccount(dv: Device, c: Tally, op: Op, inLedger: nat, inParent: nat)
    requires Accounted(dv, c, inLedger, inParent) && op.AddFlag? && AtLeast(c, Unit(op, op.d))
    ensures Accounted(dv.(added := true), Moved(c, op, Over(op.d)), inLedger, inParent)
  {
  }

  lemma RemoveParentAccount(dv: Device, c: Tally, op: Op, inLedger: nat, inParent: nat)
    requires Accounted(dv, c, inLedger, inParent) && op.RemoveParent? && AtLeast(c, Unit(op, op.d))
    ensures dv.parent.Some? ==> inParent == 1
    ensures Accounted(dv, Moved(c, op, RemoveLedger(op.d)), inLedger, 0)
  {
  }

  lemma RemoveLedgerAccount(dv: Device, c: Tally, op: Op, inLedger: nat, inParent: nat)
    requires Accounted(dv, c, inLedger, inParent) && op.RemoveLedger? && AtLeast(c, Unit(op, op.d))
    ensures inLedger == 1
    ensures Accounted(dv, Moved(c, op, RemoveDone(op.d)), 0, inParent)
  {
  }

  lemma RemoveDoneAccount(dv: Device, c: Tally, op: Op, inLedger: nat, inParent: nat)
    requires Accounted(dv, c, inLedger, inParent) && op.RemoveDone? && AtLeast(c, Unit(op, op.d))
    ensures Accounted(dv.(removing := false), Moved(c, op, Over(op.d)), inLedger, inParent)
  {
  }

  lemma BindingAccount(dv: Device, c: Tally, op: Op, inLedger: nat, inParent: nat)
    requires Accounted(dv, c, inLedger, inParent) && op.StartBind? && AtLeast(c, Unit(op, op.d))
    ensures dv.added && dv.driver.Some?
    ensures forall t :: Accounted(dv, Moved(c, op, InBind(op.d, t)), inLedger, inParent)
  {
  }

  lemma BindAccount(dv: Device, c: Tally, op: Op, inLedger: nat, inParent: nat)
    requires Accounted(dv, c, inLedger, inParent) && op.InBind? && AtLeast(c, Unit(op, op.d))
    ensures dv.added && dv.driver.Some? && !dv.bound
    ensures Accounted(dv.(bound := true), Moved(c, op, StartCommit(op.d, true)), inLedger, inParent)
    ensures Accounted(dv, Moved(c, op, StartCommit(op.d, false)), inLedger, inParent)
  {
  }

  lemma StartCommitAccount(dv: Device, c: Tally, op: Op, inLedger: nat, inParent: nat)
    requires Accounted(dv, c, inLedger, inParent) && op.StartCommit? && AtLeast(c, Unit(op, op.d))
    ensures Accounted(CommitStart(dv, op.ok), Moved(c, op, Over(op.d)), inLedger, inParent)
  {
  }

  lemma UnbindingAccount(dv: Device, c: Tally, op: Op, inLedger: nat, inParent: nat)
    requires Accounted(dv, c, inLedger, inParent) && op.StopUnbind? && AtLeast(c, Unit(op, op.d))
    ensures dv.added && dv.driver.Some? && dv.bound
    ensures forall t :: Accounted(dv, Moved(c, op, InUnbind(op.d, t)), inLedger, inParent)
  {
  }

  lemma UnbindAccount(dv: Device, c: Tally, op: Op, inLedger: nat, inParent: nat)
    requires Accounted(dv, c, inLedger, inParent) && op.InUnbind? && AtLeast(c, Unit(op, op.d))
    ensures dv.added && dv.driver.Some? && dv.bound
    ensures Accounted(dv.(bound := false), Moved(c, op, StopCommit(op.d, true)), inLedger, inParent)
    ensures Accounted(dv, Moved(c, op, StopCommit(op.d, false)), inLedger, inParent)
  {
  }

  lemma StopCommitAccount(dv: Device, c: Tally, op: Op, inLedger: nat, inParent: nat)
    requires Accounted(dv, c, inLedger, inParent) && op.StopCommit? && AtLeast(c, Unit(op, op.d))
    ensures Accounted(CommitStop(dv, op.ok), Moved(c, op, Over(op.d)), inLedger, inParent)
  {
  }

  lemma ProbeAccount(dv: Device, c: Tally, op: Op, inLedger: nat, inParent: nat)
    requires Accounted(dv, c, inLedger, inParent) && op.InProbe? && AtLeast(c, Unit(op, op.d))
    ensures Accounted(EndProbe(dv), Moved(c, op, Over(op.d)), inLedger, inParent)
  {
  }

  /** The first section of an operation. */
  lemma BeginAccount(dv: Device, c: Tally, op: Op, inLedger: nat, inParent: nat)
    requires Accounted(dv, c, inLedger, inParent) && dv.constructed
    ensures op.AddLedger? && MayAdd(dv) && c.addL + c.addP + c.addF == 0 ==>
      Accounted(dv, Plus(c, Unit(op, op.d)), inLedger, inParent)
    ensures op.RemoveParent? && MayRemove(dv) ==> Accounted(Withdraw(dv), Plus(c, Unit(op, op.d)), inLedger, inParent)
    ensures op.StartBind? && MayStart(dv) ==>
      Accounted(dv.(starting := true), Plus(c, Unit(op, op.d)), inLedger, inParent)
    ensures op.StopUnbind? && MayStop(dv) ==>
      Accounted(dv.(stopping := true), Plus(c, Unit(op, op.d)), inLedger, inParent)
    ensures op.InProbe? ==> Accounted(BeginProbe(dv), Plus(c, Unit(op, op.d)), inLedger, inParent)
  {
  }

  /** device_destruct lets go of a device only when nothing is left of it. */
  lemma DestructAccount(dv: Device, c: Tally, inLedger: nat, inParent: nat)
    requires Accounted(dv, c, inLedger, inParent) && MayDestruct(dv) && c.addL + c.addP + c.addF == 0
    ensures c == NOTHING && inLedger == 0 && (dv.parent.Some? ==> inParent == 0) && !dv.bound
    ensures Accounted(BLANK, c, 0, 0)
  {
  }

  /** What a section of an operation turns the operation into. */
  function Becomes(s: State, o: OpId, ok: bool): Op
    requires o < |s.ops|
  {
    Step(s, o, ok).ops[o]
  }

  lemma RefsAccount(dv: Device, c: Tally, refs: int, inLedger: nat, inParent: nat)
    requires Accounted(dv, c, inLedger, inParent) && dv.constructed && refs >= dv.probes
    ensures Accounted(dv.(refs := refs), c, inLedger, inParent)
  {
  }

  lemma ConstructAccount(c: Tally, inLedger: nat, inParent: nat, parent: Option<Dev>, driver: Option<Drv>)
    requires Accounted(BLANK, c, inLedger, inParent)
    ensures Accounted(BLANK.(constructed := true, parent := parent, driver := driver), c, inLedger, 0)
  {
  }

  // --- a section of an operation, on its own device

  /** A change of a device's own fields, other than its children and parent. */
  lemma FieldsChange(s: State, s': State, d: Dev, dv: Device, d0: Dev)
    requires s'.devices == s.devices[d := dv]
    requires dv.children == Of(s, d).children && dv.parent == Of(s, d).parent
    ensures Of(s', d) == dv && (d0 != d ==> Of(s', d0) == Of(s, d0))
    ensures Listed(s', d0) == Listed(s, d0)
  {
  }

  lemma FieldsSame(s: State, s': State, d: Dev)
    requires s'.devices == s.devices
    ensures Of(s', d) == Of(s, d) && Listed(s', d) == Listed(s, d)
  {
  }

  /** device_add_child and device_remove_child change one entry of the parent's list, and nothing else. */
  lemma ParentListChanges(s: State, s': State, d: Dev)
    requires Of(s, d).parent != Some(d)
    requires s'.devices == AddChild(s, d).devices || s'.devices == RemoveChild(s, d).devices
    ensures Of(s', d) == Of(s, d)
    ensures s'.devices == AddChild(s, d).devices ==>
      Listed(s', d) == if Of(s, d).parent.Some? then Listed(s, d) + 1 else Listed(s, d)
    ensures s'.devices == RemoveChild(s, d).devices && (Of(s, d).parent.Some? ==> Listed(s, d) == 1) ==>
      Listed(s', d) == 0
  {
    if Of(s, d).parent.Some? {
      EraseOne(Of(s, Of(s, d).parent.value).children, d);
    }
  }

  predicate ChangesLedger(op: Op) {
    op.AddLedger? || op.RemoveLedger?
  }

  /** The ledger lookup of device_remove never fails. */
  lemma LedgerKept(s: State, o: OpId, ok: bool)
    requires o < |s.ops| && ChangesLedger(s.ops[o]) && DeviceInv(s, s.ops[o].d)
    ensures s.ops[o].RemoveLedger? ==> s.ops[o].d in s.ledger
    ensures DeviceInv(Step(s, o, ok), s.ops[o].d)
  {
    hide Accounted, Tallied, Listed, Moved, AtLeast, Unit;
    var d, c, dv := s.ops[o].d, Tallied(s.ops, s.ops[o].d), Of(s, s.ops[o].d);
    var op', s' := Becomes(s, o, ok), Step(s, o, ok);
    var l, p := multiset(s.ledger)[d], Listed(s, d);
    TalliedMoved(s.ops, o, op');
    if s.ops[o].AddLedger? {
      AddLedgerAccount(dv, c, s.ops[o], l, p);
    } else {
      RemoveLedgerAccount(dv, c, s.ops[o], l, p);
      EraseOne(s.ledger, d);
    }
    FieldsSame(s, s', d);
  }

  predicate MovesChild(op: Op) {
    op.AddParent? || op.RemoveParent?
  }

  lemma ChildKept(s: State, o: OpId, ok: bool)
    requires o < |s.ops| && MovesChild(s.ops[o]) && DeviceInv(s, s.ops[o].d)
    requires Of(s, s.ops[o].d).parent != Some(s.ops[o].d)
    ensures DeviceInv(Step(s, o, ok), s.ops[o].d)
  {
    hide Accounted, Tallied, Listed, Moved, AtLeast, Unit;
    var d, c, dv := s.ops[o].d, Tallied(s.ops, s.ops[o].d), Of(s, s.ops[o].d);
    var op', s' := Becomes(s, o, ok), Step(s, o, ok);
    var l, p := multiset(s.ledger)[d], Listed(s, d);
    TalliedMoved(s.ops, o, op');
    if s.ops[o].AddParent? {
      AddParentAccount(dv, c, s.ops[o], l, p);
    } else {
      RemoveParentAccount(dv, c, s.ops[o], l, p);
    }
    ParentListChanges(s, s', d);
  }

  predicate ChangesFlags(op: Op) {
    op.AddFlag? || op.RemoveDone? || op.StartCommit? || op.StopCommit? || op.InProbe?
  }

  lemma FlagsKept(s: State, o: OpId, ok: bool)
    requires o < |s.ops| && ChangesFlags(s.ops[o]) && DeviceInv(s, s.ops[o].d)
    ensures DeviceInv(Step(s, o, ok), s.ops[o].d)
  {
    hide Accounted, Tallied, Listed, Moved, AtLeast, Unit;
    var d, c, dv := s.ops[o].d, Tallied(s.ops, s.ops[o].d), Of(s, s.ops[o].d);
    var op', s' := Becomes(s, o, ok), Step(s, o, ok);
    var l, p := multiset(s.ledger)[d], Listed(s, d);
    TalliedMoved(s.ops, o, op');
    match s.ops[o] {
      case AddFlag(_) => AddFlagAccount(dv, c, s.ops[o], l, p);
      case RemoveDone(_) => RemoveDoneAccount(dv, c, s.ops[o], l, p);
      case StartCommit(_, _) => StartCommitAccount(dv, c, s.ops[o], l, p);
      case StopCommit(_, _) => StopCommitAccount(dv, c, s.ops[o], l, p);
      case InProbe(_, _) => ProbeAccount(dv, c, s.ops[o], l, p);
    }
    FieldsChange(s, s', d, Of(s', d), d);
  }

  predicate Unbinding(op: Op) {
    op.StopUnbind? || op.InUnbind?
  }

  predicate Binding(op: Op) {
    op.StartBind? || op.InBind?
  }

  /** The callback's sections; `bound` follows the driver's answer. */
  lemma CallbackKept(s: State, o: OpId, ok: bool)
    requires o < |s.ops| && (Binding(s.ops[o]) || Unbinding(s.ops[o])) && DeviceInv(s, s.ops[o].d)
    ensures DeviceInv(Step(s, o, ok), s.ops[o].d)
  {
    hide Accounted, Tallied, Listed, Moved, AtLeast, Unit;
    var d, c, dv := s.ops[o].d, Tallied(s.ops, s.ops[o].d), Of(s, s.ops[o].d);
    var op', s' := Becomes(s, o, ok), Step(s, o, ok);
    var l, p := multiset(s.ledger)[d], Listed(s, d);
    TalliedMoved(s.ops, o, op');
    match s.ops[o] {
      case StartBind(_, _) => BindingAccount(dv, c, s.ops[o], l, p);
      case InBind(_, _) => BindAccount(dv, c, s.ops[o], l, p);
      case StopUnbind(_, _) => UnbindingAccount(dv, c, s.ops[o], l, p);
      case InUnbind(_, _) => UnbindAccount(dv, c, s.ops[o], l, p);
    }
    if s'.devices == s.devices {
      FieldsSame(s, s', d);
    } else {
      FieldsChange(s, s', d, dv.(bound := s.ops[o].InBind?), d);
    }
  }

  lemma RemoveMissingUnreachable(s: State, o: OpId)
    requires o < |s.ops| && DeviceInv(s, s.ops[o].d)
    ensures !s.ops[o].RemoveMissing?
  {
    TalliedMoved(s.ops, o, s.ops[o]);
  }

  lemma ProceedKept(s: State, o: OpId, ok: bool)
    requires o < |s.ops| && DeviceInv(s, s.ops[o].d) && Of(s, s.ops[o].d).parent != Some(s.ops[o].d)
    ensures DeviceInv(Step(s, o, ok), s.ops[o].d)
  {
    hide DeviceInv;
    RemoveMissingUnreachable(s, o);
    if ChangesLedger(s.ops[o]) {
      LedgerKept(s, o, ok);
    } else if MovesChild(s.ops[o]) {
      ChildKept(s, o, ok);
    } else if ChangesFlags(s.ops[o]) {
      FlagsKept(s, o, ok);
    } else if !s.ops[o].Over? {
      CallbackKept(s, o, ok);
    }
  }

  // --- a section of an operation, on every other device

  /** Children aside, a device is accounted for by its own fields. */
  lemma ChildrenDoNotCount(dv: Device, children: seq<Dev>, c: Tally, inLedger: nat, inParent: nat)
    requires Accounted(dv, c, inLedger, inParent) && dv.constructed
    ensures Accounted(dv.(children := children), c, inLedger, inParent)
  {
  }

  lemma LedgerElsewhere(s: State, o: OpId, ok: bool, d: Dev)
    requires o < |s.ops| && d != s.ops[o].d
    ensures multiset(Step(s, o, ok).ledger)[d] == multiset(s.ledger)[d]
  {
    hide Erase;
    EraseOne(s.ledger, s.ops[o].d);
    match s.ops[o]
    case AddLedger(_) =>
    case RemoveLedger(_) =>
    case _ => assert Step(s, o, ok).ledger == s.ledger;
  }

  lemma FieldsElsewhere(s: State, o: OpId, ok: bool, d: Dev)
    requires o < |s.ops| && d != s.ops[o].d && !s.ops[o].RemoveLedger? && !s.ops[o].RemoveMissing?
    requires !MovesChild(s.ops[o])
    ensures Of(Step(s, o, ok), d) == Of(s, d)
  {
  }

  /** The section that moves a child. */
  lemma ChildMoves(s: State, o: OpId, ok: bool)
    requires o < |s.ops| && MovesChild(s.ops[o])
    ensures Step(s, o, ok).devices ==
      (if s.ops[o].AddParent? then AddChild(s, s.ops[o].d) else RemoveChild(s, s.ops[o].d)).devices
  {
    hide AddChild, RemoveChild;
  }

  lemma ChildMovesElsewhere(s: State, o: OpId, ok: bool, d: Dev)
    requires o < |s.ops| && d != s.ops[o].d && MovesChild(s.ops[o])
    ensures Of(Step(s, o, ok), d) == Of(s, d).(children := Of(Step(s, o, ok), d).children)
    ensures Of(s, s.ops[o].d).parent != Some(d) ==> Of(Step(s, o, ok), d) == Of(s, d)
  {
    hide Step, Erase;
    ChildMoves(s, o, ok);
  }

  lemma ChildrenStay(s: State, o: OpId, ok: bool, p: Dev)
    requires o < |s.ops| && !s.ops[o].RemoveLedger? && !s.ops[o].RemoveMissing? && !MovesChild(s.ops[o])
    ensures Of(Step(s, o, ok), p).children == Of(s, p).children
  {
    if p != s.ops[o].d { FieldsElsewhere(s, o, ok, p); }
  }

  lemma OneChildMoves(s: State, s': State, d: Dev, p: Dev)
    requires s'.devices == AddChild(s, d).devices || s'.devices == RemoveChild(s, d).devices
    ensures var cs, cs' := Of(s, p).children, Of(s', p).children; cs' == cs || cs' == cs + [d] || cs' == Erase(cs, d)
  {
    hide Erase;
  }

  lemma ListsElsewhere(s: State, o: OpId, ok: bool, p: Dev, d: Dev)
    requires o < |s.ops| && d != s.ops[o].d && !s.ops[o].RemoveLedger? && !s.ops[o].RemoveMissing?
    ensures multiset(Of(Step(s, o, ok), p).children)[d] == multiset(Of(s, p).children)[d]
  {
    hide Step, Erase;
    var e, cs := s.ops[o].d, Of(s, p).children;
    if MovesChild(s.ops[o]) {
      ChildMoves(s, o, ok);
      hide MovesChild;
      OneChildMoves(s, Step(s, o, ok), e, p);
      EraseOne(cs, e);
    } else {
      ChildrenStay(s, o, ok, p);
    }
  }

  /** A device whose account has not changed, but for its list of children. */
  lemma SameAccount(s: State, s': State, d: Dev)
    requires DeviceInv(s, d) && Tallied(s'.ops, d) == Tallied(s.ops, d) &&
      multiset(s'.ledger)[d] == multiset(s.ledger)[d]
    requires Listed(s', d) == Listed(s, d)
    requires Of(s', d) == Of(s, d) || (Of(s, d).constructed && Of(s', d) == Of(s, d).(children := Of(s', d).children))
    ensures DeviceInv(s', d)
  {
    hide Accounted, Tallied, Listed, Of;
    if Of(s', d) != Of(s, d) {
      ChildrenDoNotCount(Of(s, d), Of(s', d).children, Tallied(s.ops, d), multiset(s.ledger)[d], Listed(s, d));
    }
  }

  lemma ListedElsewhere(s: State, o: OpId, ok: bool, d: Dev)
    requires o < |s.ops| && d != s.ops[o].d && !s.ops[o].RemoveLedger? && !s.ops[o].RemoveMissing?
    requires Of(Step(s, o, ok), d).parent == Of(s, d).parent
    ensures Listed(Step(s, o, ok), d) == Listed(s, d)
  {
    hide Step, Of;
    if Of(s, d).parent.Some? { ListsElsewhere(s, o, ok, Of(s, d).parent.value, d); }
  }

  lemma OthersElsewhere(s: State, o: OpId, ok: bool, d: Dev)
    requires o < |s.ops| && Enabled(s, Proceed(o, ok)) && Sound(s, Proceed(o, ok)) && d != s.ops[o].d
    requires !s.ops[o].RemoveLedger? && !s.ops[o].RemoveMissing?
    ensures Of(Step(s, o, ok), d) == Of(s, d) ||
      (Of(s, d).constructed && Of(Step(s, o, ok), d) == Of(s, d).(children := Of(Step(s, o, ok), d).children))
  {
    hide Step, Enabled;
    if MovesChild(s.ops[o]) {
      ChildMovesElsewhere(s, o, ok, d);
      if Of(s, s.ops[o].d).parent == Some(d) { assert d in TouchedDevices(s, Proceed(o, ok)); }
    } else {
      FieldsElsewhere(s, o, ok, d);
    }
  }

  lemma ElsewhereKept(s: State, o: OpId, ok: bool, d: Dev)
    requires o < |s.ops| && Inv(s) && Enabled(s, Proceed(o, ok)) && Sound(s, Proceed(o, ok)) && d != s.ops[o].d
    ensures DeviceInv(Step(s, o, ok), d)
  {
    hide Step, Accounted, Tallied, DriverInv, ChildrenInv, Enabled, Sound, Listed;
    assert DeviceInv(s, d) && DeviceInv(s, s.ops[o].d);
    hide DeviceInv, Of;
    RemoveMissingUnreachable(s, o);
    OpsAfterStep(s, o, ok);
    TalliedElsewhere(s.ops, o, Becomes(s, o, ok), d);
    LedgerElsewhere(s, o, ok, d);
    if s.ops[o].RemoveLedger? {
      RemoveLedgerLeavesDevices(s, o, ok);
      FieldsSame(s, Step(s, o, ok), d);
    } else {
      OthersElsewhere(s, o, ok, d);
      ListedElsewhere(s, o, ok, d);
    }
    SameAccount(s, Step(s, o, ok), d);
  }

  lemma OpsAfterStep(s: State, o: OpId, ok: bool)
    requires o < |s.ops|
    ensures Step(s, o, ok).ops == s.ops[o := Becomes(s, o, ok)] && Becomes(s, o, ok).d == s.ops[o].d
  {
    hide Erase, Of, Live, UseCount, DriverOf, CommitStart, CommitStop, EndProbe;
  }

  lemma RemoveLedgerLeavesDevices(s: State, o: OpId, ok: bool)
    requires o < |s.ops| && s.ops[o].RemoveLedger? && DeviceInv(s, s.ops[o].d)
    ensures Step(s, o, ok).devices == s.devices
  {
    hide DeviceInv;
    LedgerKept(s, o, ok);
    hide Tallied, Listed, Erase;
  }

  // --- the other actions

  /** The operation that an action begins, and the device as it leaves it. */
  function BegunOp(a: Action): Op {
    match a
    case Add(d) => AddLedger(d)
    case Remove(d) => RemoveParent(d)
    case Start(d, t) => StartBind(d, t)
    case Stop(d, t) => StopUnbind(d, t)
    case Probe(d, t) => InProbe(d, t)
    case _ => Over(0)
  }

  function BegunDevice(a: Action, dv: Device): Device {
    match a
    case Remove(_) => Withdraw(dv)
    case Start(_, _) => dv.(starting := true)
    case Stop(_, _) => dv.(stopping := true)
    case Probe(_, _) => BeginProbe(dv)
    case _ => dv
  }

  predicate Begins(s: State, a: Action) {
    match a
    case Add(d) => MayAdd(Of(s, d))
    case Remove(d) => MayRemove(Of(s, d))
    case Start(d, _) => MayStart(Of(s, d))
    case Stop(d, _) => MayStop(Of(s, d))
    case Probe(_, _) => true
    case _ => false
  }

  lemma {:induction false} NoAdderNoTally(ops: seq<Op>, d: Dev)
    requires forall o :: 0 <= o < |ops| && ops[o].d == d ==>
      !ops[o].AddLedger? && !ops[o].AddParent? && !ops[o].AddFlag?
    ensures Tallied(ops, d).addL + Tallied(ops, d).addP + Tallied(ops, d).addF == 0
  {
    if ops != [] {
      NoAdderNoTally(ops[..|ops| - 1], d);
    }
  }

  lemma PlusNothing(c: Tally)
    ensures Plus(c, NOTHING) == c
  {
  }

  lemma TalliedMoreElsewhere(ops: seq<Op>, op: Op, d: Dev)
    requires op.d != d
    ensures Tallied(ops + [op], d) == Tallied(ops, d)
  {
    hide Tallied, Plus;
    TalliedMore(ops, op, d);
    PlusNothing(Tallied(ops, d));
  }

  lemma BeginNext(s: State, a: Action)
    requires Enabled(s, a) && (a.Add? || a.Remove? || a.Start? || a.Stop? || a.Probe?)
    ensures Begins(s, a) ==> Next(s, a).ops == s.ops + [BegunOp(a)] && Next(s, a).ledger == s.ledger
    ensures Begins(s, a) && !a.Add? ==> Next(s, a).devices == s.devices[a.d := BegunDevice(a, Of(s, a.d))]
    ensures Begins(s, a) && a.Add? ==> Next(s, a).devices == s.devices
    ensures !Begins(s, a) ==> Next(s, a) == s
  {
  }

  lemma BeginKept(s: State, a: Action, d: Dev)
    requires Enabled(s, a) && (a.Add? || a.Remove? || a.Start? || a.Stop? || a.Probe?)
    requires DeviceInv(s, d) && DeviceInv(s, a.d)
    ensures DeviceInv(Next(s, a), d)
  {
    hide Accounted, Tallied, Plus, Unit, Listed, Next;
    if a.Add? { NoAdderNoTally(s.ops, a.d); }
    BeginNext(s, a);
    if Begins(s, a) {
      assert Of(s, a.d).constructed;
      BeginAccount(Of(s, a.d), Tallied(s.ops, a.d), BegunOp(a), multiset(s.ledger)[a.d], Listed(s, a.d));
      if d == a.d { TalliedMore(s.ops, BegunOp(a), d); } else { TalliedMoreElsewhere(s.ops, BegunOp(a), d); }
      if a.Add? {
        FieldsSame(s, Next(s, a), d);
      } else {
        FieldsChange(s, Next(s, a), a.d, BegunDevice(a, Of(s, a.d)), d);
      }
    }
  }

  /** Only constructed devices have state, and only they are in the ledger. */
  lemma LedgerIsConstructed(s: State, d: Dev)
    requires DeviceInv(s, d)
    ensures !Of(s, d).constructed ==> Of(s, d) == BLANK && d !in s.ledger
    ensures Of(s, d).refs >= Of(s, d).probes >= 0
  {
    hide Tallied;
    assert multiset(s.ledger)[d] == 0 ==> d !in s.ledger;
  }

  lemma RefsKept(s: State, a: Action, d: Dev)
    requires Enabled(s, a) && (a.Lookup? || a.Get? || a.Put?)
    requires DeviceInv(s, d) && DeviceInv(s, a.d)
    ensures Of(s, a.d).constructed
    ensures DeviceInv(Next(s, a), d)
  {
    hide Accounted, Listed, Tallied;
    LedgerIsConstructed(s, a.d);
    var dv := Of(s, a.d);
    var refs := if a.Put? then dv.refs - 1 else dv.refs + 1;
    RefsAccount(dv, Tallied(s.ops, a.d), refs, multiset(s.ledger)[a.d], Listed(s, a.d));
    FieldsChange(s, Next(s, a), a.d, dv.(refs := refs), d);
  }

  /** A device that does not exist is nobody's child. */
  lemma BlankIsUnlisted(s: State, d: Dev, p: Dev)
    requires ChildrenInv(s, p) && Of(s, d).parent == None
    ensures d !in Of(s, p).children && multiset(Of(s, p).children)[d] == 0
  {
  }

  lemma ConstructKept(s: State, a: Action, d: Dev)
    requires Enabled(s, a) && a.Construct?
    requires DeviceInv(s, d) && DeviceInv(s, a.d)
    requires a.parent.Some? ==> ChildrenInv(s, a.parent.value)
    ensures DeviceInv(Next(s, a), d)
  {
    hide Accounted, Tallied, ChildrenInv;
    LedgerIsConstructed(s, a.d);
    if a.parent.Some? { BlankIsUnlisted(s, a.d, a.parent.value); }
    ConstructAccount(Tallied(s.ops, a.d), multiset(s.ledger)[a.d], Listed(s, a.d), a.parent, a.driver);
  }

  lemma DestructNext(s: State, a: Action, d: Dev)
    requires Enabled(s, a) && a.Destruct? && MayDestruct(Of(s, a.d))
    ensures Next(s, a).ops == s.ops && Next(s, a).ledger == s.ledger
    ensures Of(Next(s, a), d) == if d == a.d then BLANK else Of(s, d)
    ensures d != a.d ==> Listed(Next(s, a), d) == Listed(s, d)
  {
  }

  lemma DestructKept(s: State, a: Action, d: Dev)
    requires Enabled(s, a) && a.Destruct? && MayDestruct(Of(s, a.d))
    requires DeviceInv(s, d) && DeviceInv(s, a.d)
    ensures DeviceInv(Next(s, a), d)
    ensures a.d !in s.ledger && !Of(s, a.d).bound && Listed(s, a.d) == 0
  {
    hide Accounted, Tallied, Next;
    NoAdderNoTally(s.ops, a.d);
    DestructNext(s, a, d);
    DestructAccount(Of(s, a.d), Tallied(s.ops, a.d), multiset(s.ledger)[a.d], Listed(s, a.d));
  }

  lemma StepKeepsDevice(s: State, a: Action, d: Dev)
    requires Inv(s) && Enabled(s, a) && Sound(s, a)
    ensures DeviceInv(Next(s, a), d)
  {
    hide Sound, Step, ChildrenInv, DriverInv, DeviceInv, Of, MayDestruct, MayAdd, MayRemove, MayStart, MayStop;
    assert DeviceInv(s, d);
    match a {
      case Construct(_, _, _) => ConstructKept(s, a, d);
      case Destruct(_) => if MayDestruct(Of(s, a.d)) { DestructKept(s, a, d); }
      case Lookup(_) => RefsKept(s, a, d);
      case Get(_) => RefsKept(s, a, d);
      case Put(_) => RefsKept(s, a, d);
      case Proceed(o, ok) =>
        assert DeviceInv(s, s.ops[o].d);
        if d == s.ops[o].d { ProceedKept(s, o, ok); } else { ElsewhereKept(s, o, ok, d); }
      case ConstructDriver(_) => DriversDoNotCount(s, Next(s, a), d);
      case DestructDriver(_) => DriversDoNotCount(s, Next(s, a), d);
      case _ => BeginKept(s, a, d);
    }
  }

  lemma DriversDoNotCount(s: State, s': State, d: Dev)
    requires DeviceInv(s, d) && s' == s.(drivers := s'.drivers)
    ensures DeviceInv(s', d)
  {
    hide Accounted, Tallied;
  }

  // --- the lists of children, and the drivers

  /** A section of an operation changes no parent and no driver, and `bound` only where the driver succeeded. */
  lemma SectionKeepsTies(s: State, o: OpId, ok: bool, x: Dev)
    requires o < |s.ops|
    ensures Of(Step(s, o, ok), x).parent == Of(s, x).parent && Of(Step(s, o, ok), x).driver == Of(s, x).driver
    ensures !(ok && (s.ops[o].InBind? || s.ops[o].InUnbind?)) ==> Of(Step(s, o, ok), x).bound == Of(s, x).bound
  {
  }

  lemma TiesStay(s: State, a: Action, x: Dev)
    requires Enabled(s, a) && !((a.Construct? || a.Destruct?) && a.d == x)
    ensures Of(Next(s, a), x).parent == Of(s, x).parent && Of(Next(s, a), x).driver == Of(s, x).driver
    ensures !Binds(s, a) && !Unbinds(s, a) ==> Of(Next(s, a), x).bound == Of(s, x).bound
  {
    hide Tallied, Step;
    if a.Proceed? { SectionKeepsTies(s, a.o, a.ok, x); }
  }

  /** A list of children only ever gains a child of its device. */
  lemma ChildrenAfter(s: State, a: Action, p: Dev, x: Dev)
    requires Enabled(s, a) && x in Of(Next(s, a), p).children
    ensures x in Of(s, p).children || (a.Proceed? && x == s.ops[a.o].d && Of(s, x).parent == Some(p))
  {
    hide Tallied;
    if a.Proceed? { EraseSubset(Of(s, p).children, s.ops[a.o].d, x); }
  }

  lemma StepKeepsChildren(s: State, a: Action, p: Dev)
    requires Inv(s) && Enabled(s, a)
    ensures ChildrenInv(Next(s, a), p)
  {
    hide Next, DeviceInv, DriverInv, Enabled;
    forall x | x in Of(Next(s, a), p).children ensures Of(Next(s, a), x).parent == Some(p) {
      ChildrenAfter(s, a, p, x);
      assert ChildrenInv(s, p);
      if (a.Construct? || a.Destruct?) && a.d == x {
        RebornIsUnlisted(s, a, p);
      } else {
        TiesStay(s, a, x);
      }
    }
  }

  /** A device that a construct or destruct changes is nobody's child, or not changed at all. */
  lemma RebornIsUnlisted(s: State, a: Action, p: Dev)
    requires Enabled(s, a) && (a.Construct? || a.Destruct?)
    requires DeviceInv(s, a.d) && ChildrenInv(s, p)
    ensures a.d in Of(s, p).children ==> Of(Next(s, a), a.d) == Of(s, a.d)
  {
    hide Accounted, Tallied;
    LedgerIsConstructed(s, a.d);
    if a.d in Of(s, p).children && a.Destruct? && MayDestruct(Of(s, a.d)) {
      DestructKept(s, a, a.d);
    }
  }

  predicate Serves(s: State, v: Drv, x: Dev) {
    Of(s, x).bound && Of(s, x).driver == Some(v)
  }

  lemma UsersAre(s: State, v: Drv, x: Dev)
    ensures x in Users(s, v) <==> Serves(s, v, x)
  {
  }

  /** Inside driver_bind a device is added, has a driver and is not bound; inside driver_unbind it is bound. */
  lemma InsideBind(s: State, o: OpId)
    requires o < |s.ops| && DeviceInv(s, s.ops[o].d)
    ensures s.ops[o].StartBind? || s.ops[o].InBind? || s.ops[o].StopUnbind? || s.ops[o].InUnbind? ==>
      Of(s, s.ops[o].d).added && Of(s, s.ops[o].d).driver.Some?
    ensures s.ops[o].StartBind? || s.ops[o].InBind? ==> !Of(s, s.ops[o].d).bound
    ensures s.ops[o].StopUnbind? || s.ops[o].InUnbind? ==> Of(s, s.ops[o].d).bound
  {
    hide Tallied;
    TalliedMoved(s.ops, o, s.ops[o]);
  }

  /** The action is a successful bind or unbind. */
  predicate Binds(s: State, a: Action) {
    a.Proceed? && a.o < |s.ops| && s.ops[a.o].InBind? && a.ok
  }

  predicate Unbinds(s: State, a: Action) {
    a.Proceed? && a.o < |s.ops| && s.ops[a.o].InUnbind? && a.ok
  }

  lemma BindNext(s: State, a: Action)
    requires Enabled(s, a) && (Binds(s, a) || Unbinds(s, a)) && Of(s, s.ops[a.o].d).added
    ensures Next(s, a).devices == s.devices[s.ops[a.o].d := Of(s, s.ops[a.o].d).(bound := Binds(s, a))]
    ensures Next(s, a).drivers ==
      Adjust(s, DriverOf(s, s.ops[a.o].d), if Binds(s, a) then 1 else -1).drivers
  {
    hide Tallied;
  }

  lemma RebornIsUnbound(s: State, a: Action)
    requires Enabled(s, a) && (a.Construct? || a.Destruct?) && DeviceInv(s, a.d)
    ensures Of(Next(s, a), a.d) == Of(s, a.d) || !Of(s, a.d).bound
    ensures Of(Next(s, a), a.d) == Of(s, a.d) || !Of(Next(s, a), a.d).bound
  {
    hide Accounted, Tallied;
    LedgerIsConstructed(s, a.d);
    if a.Destruct? && MayDestruct(Of(s, a.d)) {
      DestructKept(s, a, a.d);
    }
  }

  lemma UsersStay(s: State, a: Action, v: Drv)
    requires Inv(s) && Enabled(s, a) && !Binds(s, a) && !Unbinds(s, a)
    ensures Users(Next(s, a), v) == Users(s, v)
  {
    hide Next, DeviceInv, ChildrenInv, DriverInv, Users, Enabled;
    forall x: Dev ensures x in Users(Next(s, a), v) <==> x in Users(s, v) {
      UsersAre(s, v, x);
      UsersAre(Next(s, a), v, x);
      if (a.Construct? || a.Destruct?) && a.d == x {
        RebornIsUnbound(s, a);
      } else {
        TiesStay(s, a, x);
      }
    }
  }

  lemma DriversStay(s: State, a: Action, v: Drv)
    requires Enabled(s, a) && !Binds(s, a) && !Unbinds(s, a)
    ensures UseCount(Next(s, a), v) == UseCount(s, v) || (a.ConstructDriver? && a.v == v)
    ensures Live(Next(s, a), v) == Live(s, v) || (a.ConstructDriver? && a.v == v)
            || (a.DestructDriver? && a.v == v && UseCount(s, v) == 0)
    ensures a.ConstructDriver? && a.v == v ==> !Live(s, v) && UseCount(Next(s, a), v) == 0 && Live(Next(s, a), v)
  {
    hide Tallied;
  }

  lemma StepKeepsDriver(s: State, a: Action, v: Drv)
    requires Inv(s) && Enabled(s, a) && Sound(s, a)
    ensures DriverInv(Next(s, a), v)
  {
    hide Next, Sound, DeviceInv, ChildrenInv, DriverInv, Enabled, Of, Binds, Unbinds;
    assert DriverInv(s, v);
    if Binds(s, a) || Unbinds(s, a) {
      BindsAnOp(s, a);
      assert DeviceInv(s, s.ops[a.o].d);
      BindKeepsDriver(s, a, v);
    } else {
      UsersStay(s, a, v);
      DriversStay(s, a, v);
      SameUsersKeepDriver(s, Next(s, a), a, v);
    }
  }

  lemma BindsAnOp(s: State, a: Action)
    requires Binds(s, a) || Unbinds(s, a)
    ensures a.Proceed? && a.o < |s.ops|
  {
  }

  lemma SameUsersKeepDriver(s: State, s': State, a: Action, v: Drv)
    requires DriverInv(s, v) && Users(s', v) == Users(s, v)
    requires UseCount(s', v) == UseCount(s, v) || (a.ConstructDriver? && a.v == v)
    requires Live(s', v) == Live(s, v) || (a.ConstructDriver? && a.v == v)
             || (a.DestructDriver? && a.v == v && UseCount(s, v) == 0)
    requires a.ConstructDriver? && a.v == v ==> !Live(s, v) && UseCount(s', v) == 0 && Live(s', v)
    ensures DriverInv(s', v)
  {
    hide Users, UseCount, Live;
    assert |Users(s, v)| == 0 ==> Users(s, v) == {};
  }

  lemma BindKeepsDriver(s: State, a: Action, v: Drv)
    requires Enabled(s, a) && (Binds(s, a) || Unbinds(s, a)) && Sound(s, a)
    requires DriverInv(s, v) && DeviceInv(s, s.ops[a.o].d)
    ensures DriverInv(Next(s, a), v)
  {
    hide Next, DeviceInv, Users;
    var d := s.ops[a.o].d;
    InsideBind(s, a.o);
    BindNext(s, a);
    var users := Users(s, v);
    forall x: Dev
      ensures x in Users(Next(s, a), v) <==> if x == d && DriverOf(s, d) == v then Binds(s, a) else x in users
    {
      UsersAre(s, v, x);
      UsersAre(Next(s, a), v, x);
    }
    UsersAre(s, v, d);
    assert Users(Next(s, a), v) ==
      if DriverOf(s, d) != v then users else if Binds(s, a) then users + {d} else users - {d};
  }

  // ---------------------------------------------------------------------------------------------
  // Every action keeps the invariant

  lemma InitInv()
    ensures Inv(Init())
  {
    forall d: Dev ensures DeviceInv(Init(), d) {}
    forall v: Drv ensures DriverInv(Init(), v) {
      assert Users(Init(), v) == {};
    }
  }

  lemma NoSelfParent(s: State, a: Action, d: Dev)
    requires Enabled(s, a) && Of(s, d).parent != Some(d)
    ensures Of(Next(s, a), d).parent != Some(d)
  {
    hide Next;
    if (a.Construct? || a.Destruct?) && a.d == d {
      RebornParent(s, a);
    } else {
      TiesStay(s, a, d);
    }
  }

  lemma RebornParent(s: State, a: Action)
    requires Enabled(s, a) && (a.Construct? || a.Destruct?)
    ensures Of(Next(s, a), a.d).parent != Some(a.d) || Of(Next(s, a), a.d).parent == Of(s, a.d).parent
  {
  }

  lemma StepKeepsInv(s: State, a: Action)
    requires Inv(s) && Enabled(s, a) && Sound(s, a)
    ensures Inv(Next(s, a))
  {
    hide Next, Enabled, Sound, DeviceInv, ChildrenInv, DriverInv, Of;
    var s' := Next(s, a);
    forall d: Dev ensures DeviceInv(s', d) && Of(s', d).parent != Some(d) {
      StepKeepsDevice(s, a, d);
      NoSelfParent(s, a, d);
    }
    forall p: Dev ensures ChildrenInv(s', p) { StepKeepsChildren(s, a, p); }
    forall v: Drv ensures DriverInv(s', v) { StepKeepsDriver(s, a, v); }
  }

  lemma AccountedFacts(dv: Device, c: Tally, inLedger: nat, inParent: nat)
    requires Accounted(dv, c, inLedger, inParent)
    ensures FlagsInv(dv) && inLedger <= 1 && (dv.parent.Some? ==> inParent <= 1)
    ensures inLedger == 1 ==> dv.constructed
    ensures dv.added ==> inLedger == 1 && (dv.parent.Some? ==> inParent == 1)
    ensures dv.refs > 0 || dv.added || dv.removing ==> dv.constructed
    ensures dv.refs >= 0
  {
  }

  lemma InProgressAccount(dv: Device, c: Tally, op: Op, inLedger: nat, inParent: nat)
    requires Accounted(dv, c, inLedger, inParent) && !op.Over? && AtLeast(c, Unit(op, op.d))
    ensures dv.constructed && (op.RemoveParent? && dv.parent.Some? ==> inParent == 1)
  {
  }

  lemma InProgressIsConstructed(s: State, o: OpId)
    requires o < |s.ops| && !s.ops[o].Over? && DeviceInv(s, s.ops[o].d)
    ensures Of(s, s.ops[o].d).constructed
    ensures s.ops[o].RemoveParent? && Of(s, s.ops[o].d).parent.Some? ==> Listed(s, s.ops[o].d) == 1
  {
    hide Tallied, Accounted, Unit, AtLeast, Plus, Minus, Of, Listed;
    TalliedMoved(s.ops, o, s.ops[o]);
    var d := s.ops[o].d;
    InProgressAccount(Of(s, d), Tallied(s.ops, d), s.ops[o], multiset(s.ledger)[d], Listed(s, d));
  }

  /** No action touches a destructed device: not a lookup, not a callback's continuation, not the parent whose list is
      changed. The one thing that can be gone is a driver under a start. */
  lemma OnlyADeadDriverIsUnsound(s: State, a: Action)
    requires Inv(s) && Enabled(s, a)
    ensures forall d :: d in TouchedDevices(s, a) ==> Of(s, d).constructed
    ensures Sound(s, a) <==> !(a.Proceed? && Binding(s.ops[a.o]) && !Live(s, DriverOf(s, s.ops[a.o].d)))
  {
    hide Next, ChildrenInv, Accounted, Tallied;
    forall d | d in TouchedDevices(s, a) ensures Of(s, d).constructed {
      assert DeviceInv(s, d);
      LedgerIsConstructed(s, d);
      if a.Proceed? {
        assert DeviceInv(s, s.ops[a.o].d);
        InProgressIsConstructed(s, a.o);
      } else if a.Put? {
        PutIsConstructed(s, d);
      }
    }
    if a.Proceed? && Unbinding(s.ops[a.o]) {
      InsideBind(s, a.o);
      UsersAre(s, DriverOf(s, s.ops[a.o].d), s.ops[a.o].d);
      assert DriverInv(s, DriverOf(s, s.ops[a.o].d));
    }
  }

  lemma PutIsConstructed(s: State, d: Dev)
    requires DeviceInv(s, d) && Of(s, d).refs > 0
    ensures Of(s, d).constructed
  {
  }

  lemma ConstructionStays(s: State, a: Action, d: Dev)
    requires Enabled(s, a) && Of(s, d).constructed && Of(s, d).refs > 0
    ensures Of(Next(s, a), d).constructed
    ensures a == Destruct(d) ==> Next(s, a) == s
  {
    hide Tallied, Step;
    if a.Proceed? { SectionKeepsConstruction(s, a.o, a.ok, d); }
  }

  lemma SectionKeepsConstruction(s: State, o: OpId, ok: bool, d: Dev)
    requires o < |s.ops|
    ensures Of(Step(s, o, ok), d).constructed == Of(s, d).constructed
  {
  }

  /** A successful bind or unbind of `d`. */
  predicate Switches(s: State, a: Action, d: Dev) {
    (Binds(s, a) || Unbinds(s, a)) && s.ops[a.o].d == d
  }

  lemma BoundElsewhere(s: State, a: Action, d: Dev)
    requires Inv(s) && Enabled(s, a) && Sound(s, a) && !Switches(s, a, d)
    ensures Of(Next(s, a), d).bound == Of(s, d).bound
  {
    hide Next, DeviceInv, ChildrenInv, DriverInv, Enabled, Sound;
    if Binds(s, a) || Unbinds(s, a) {
      assert DeviceInv(s, s.ops[a.o].d);
      InsideBind(s, a.o);
      BindNext(s, a);
    } else if (a.Construct? || a.Destruct?) && a.d == d {
      RebornIsUnbound(s, a);
    } else {
      TiesStay(s, a, d);
    }
  }

  lemma SwitchFlipsBound(s: State, a: Action, d: Dev)
    requires Inv(s) && Enabled(s, a) && Switches(s, a, d)
    ensures Of(s, d).bound == Unbinds(s, a) && Of(Next(s, a), d).bound == Binds(s, a)
  {
    hide Next, DeviceInv, ChildrenInv, DriverInv, Enabled;
    assert DeviceInv(s, d);
    InsideBind(s, a.o);
    BindNext(s, a);
  }

  // --- callbacks

  predicate Exclusive(ops: seq<Op>) {
    forall o, u ::
      (0 <= o < |ops| && 0 <= u < |ops| && InCallback(ops[o]) && InCallback(ops[u]) && ops[o].d == ops[u].d) ==>
      ops[o].t == ops[u].t
  }

  lemma SectionEntersCallback(s: State, o: OpId, ok: bool)
    requires o < |s.ops|
    ensures InCallback(Becomes(s, o, ok)) ==>
      (s.ops[o].StartBind? || s.ops[o].StopUnbind?) && Becomes(s, o, ok).d == s.ops[o].d &&
        Becomes(s, o, ok).t == s.ops[o].t
  {
    hide Tallied;
  }

  lemma OpsAfter(s: State, a: Action)
    requires Enabled(s, a)
    ensures var ops' := Next(s, a).ops;
      || ops' == s.ops
      || (ops' == s.ops + [BegunOp(a)] && (a.Probe? || !InCallback(BegunOp(a))))
      || (a.Proceed? && ops' == s.ops[a.o := Becomes(s, a.o, a.ok)])
  {
    hide Tallied, Step;
    if a.Proceed? {
      OpsAfterStep(s, a.o, a.ok);
    } else if a.Add? || a.Remove? || a.Start? || a.Stop? || a.Probe? {
      BeginNext(s, a);
    }
  }

  /** An operation enters a callback only through the callback mutex. */
  lemma CallbackEntry(s: State, a: Action)
    requires Enabled(s, a)
    ensures var ops' := Next(s, a).ops;
      forall o :: 0 <= o < |ops'| && InCallback(ops'[o]) ==>
        (o < |s.ops| && ops'[o] == s.ops[o])
        || (CanEnter(s, ops'[o].d, ops'[o].t) && o == (if a.Proceed? then a.o else |s.ops|))
  {
    hide Tallied, Step, Next;
    OpsAfter(s, a);
    if a.Proceed? { SectionEntersCallback(s, a.o, a.ok); }
  }

  // --- starts and stops of one device

  predicate Switching(op: Op) {
    Binding(op) || Unbinding(op) || op.StartCommit? || op.StopCommit?
  }

  lemma BothAreCounted(c: Tally, op: Op, u: Tally)
    requires AtLeast(c, Unit(op, op.d)) && AtLeast(Moved(c, op, Over(op.d)), u)
    ensures AtLeast(c, Plus(Unit(op, op.d), u))
  {
    assert Unit(Over(op.d), op.d) == NOTHING;
    hide Unit;
  }

  lemma TwoAreCounted(ops: seq<Op>, o: OpId, u: OpId)
    requires o < |ops| && u < |ops| && o != u && ops[o].d == ops[u].d
    ensures AtLeast(Tallied(ops, ops[o].d), Plus(Unit(ops[o], ops[o].d), Unit(ops[u], ops[o].d)))
  {
    hide Tallied, Plus, Unit, AtLeast, Moved;
    var d := ops[o].d;
    TalliedMoved(ops, o, Over(d));
    TalliedMoved(ops[o := Over(d)], u, ops[u]);
    BothAreCounted(Tallied(ops, d), ops[o], Unit(ops[u], d));
  }

  function Switchers(c: Tally): nat {
    c.binding + c.wasBound + c.notBound + c.unbinding + c.unbound + c.stillBound
  }

  predicate IsSwitch(u: Tally) {
    u.binding == 1 || u.wasBound == 1 || u.notBound == 1 || u.unbinding == 1 || u.unbound == 1 || u.stillBound == 1
  }

  lemma SwitchingUnit(op: Op)
    ensures Switching(op) ==> IsSwitch(Unit(op, op.d))
    ensures op.InProbe? ==> Unit(op, op.d).probing == 1
  {
  }

  lemma SwitchersAtLeast(c: Tally, u: Tally, v: Tally)
    requires AtLeast(c, Plus(u, v))
    ensures IsSwitch(u) && IsSwitch(v) ==> Switchers(c) >= 2
    ensures c.probing >= v.probing
  {
  }

  lemma AccountedSwitchers(dv: Device, c: Tally, inLedger: nat, inParent: nat)
    requires Accounted(dv, c, inLedger, inParent)
    ensures Switchers(c) <= 1 && dv.probes == c.probing
  {
  }

  lemma OneSwitchAccount(dv: Device, c: Tally, op: Op, op': Op, inLedger: nat, inParent: nat)
    requires Accounted(dv, c, inLedger, inParent) && op.d == op'.d
    requires AtLeast(c, Plus(Unit(op, op.d), Unit(op', op.d)))
    ensures Switching(op) ==> !Switching(op')
    ensures op'.InProbe? ==> dv.probes > 0
  {
    hide Accounted, AtLeast, Plus, Unit, Switchers, Switching, IsSwitch;
    AccountedSwitchers(dv, c, inLedger, inParent);
    SwitchingUnit(op);
    SwitchingUnit(op');
    SwitchersAtLeast(c, Unit(op, op.d), Unit(op', op.d));
  }

  // --- what callers must do so that no start meets a dead driver

  /** A device is started while its driver is there, and a driver is destructed while no start is at its bind. */
  predicate Careful(s: State, a: Action) {
    match a
    case Start(d, _) => MayStart(Of(s, d)) ==> Live(s, DriverOf(s, d))
    case DestructDriver(v) =>
      UseCount(s, v) == 0 ==> forall o :: 0 <= o < |s.ops| && Binding(s.ops[o]) ==> DriverOf(s, s.ops[o].d) != v
    case _ => true
  }

  predicate StartsHaveDrivers(s: State) {
    forall o :: 0 <= o < |s.ops| && Binding(s.ops[o]) ==> Live(s, DriverOf(s, s.ops[o].d))
  }

  /** The device of an operation in progress keeps its driver. */
  lemma InProgressKeepsDriver(s: State, a: Action, o: OpId)
    requires Inv(s) && Enabled(s, a) && o < |s.ops| && !s.ops[o].Over?
    ensures DriverOf(Next(s, a), s.ops[o].d) == DriverOf(s, s.ops[o].d)
  {
    hide Accounted, Tallied, Next, ChildrenInv, DriverInv, Enabled;
    var d := s.ops[o].d;
    assert DeviceInv(s, d);
    InProgressIsConstructed(s, o);
    if (a.Construct? || a.Destruct?) && a.d == d {
      NotRebornInProgress(s, a, o);
    } else {
      TiesStay(s, a, d);
    }
  }

  lemma NotRebornInProgress(s: State, a: Action, o: OpId)
    requires Enabled(s, a) && o < |s.ops| && !s.ops[o].Over? && (a.Construct? || a.Destruct?) && a.d == s.ops[o].d
    requires DeviceInv(s, a.d) && Of(s, a.d).constructed
    ensures Next(s, a) == s
  {
    hide Tallied, Accounted;
    if a.Destruct? && MayDestruct(Of(s, a.d)) {
      NoAdderNoTally(s.ops, a.d);
      DestructAccount(Of(s, a.d), Tallied(s.ops, a.d), multiset(s.ledger)[a.d], Listed(s, a.d));
      TalliedMoved(s.ops, o, s.ops[o]);
    }
  }

  /** Only construct and destruct decide whether a driver is alive. */
  lemma LiveAfter(s: State, a: Action, v: Drv)
    requires Enabled(s, a)
    ensures Live(s, v) && !(a.DestructDriver? && a.v == v && UseCount(s, v) == 0) ==> Live(Next(s, a), v)
    ensures !Live(s, v) && !(a.ConstructDriver? && a.v == v) ==> !Live(Next(s, a), v)
    ensures a.DestructDriver? && a.v == v && UseCount(s, v) == 0 ==> !Live(Next(s, a), v)
  {
  }

  lemma BindingAfter(s: State, a: Action, o: OpId)
    requires Enabled(s, a) && o < |Next(s, a).ops| && Binding(Next(s, a).ops[o])
    ensures (o < |s.ops| && Binding(s.ops[o]) && Next(s, a).ops[o].d == s.ops[o].d)
            || (a.Start? && MayStart(Of(s, a.d)) && Next(s, a).ops[o].d == a.d)
  {
    hide Tallied, Step, Next;
    OpsAfter(s, a);
    if a.Proceed? { StaysBinding(s, a.o, a.ok); }
    if a.Start? { BeginNext(s, a); }
  }

  lemma StaysBinding(s: State, o: OpId, ok: bool)
    requires o < |s.ops|
    ensures Becomes(s, o, ok).d == s.ops[o].d && (Binding(Becomes(s, o, ok)) ==> Binding(s.ops[o]))
  {
  }

  lemma CarefulStep(s: State, a: Action)
    requires Inv(s) && Enabled(s, a) && StartsHaveDrivers(s) && Careful(s, a)
    ensures Sound(s, a) && StartsHaveDrivers(Next(s, a))
  {
    hide Next, Sound, DeviceInv, ChildrenInv, DriverInv, Live, Of, UseCount, MayStart;
    OnlyADeadDriverIsUnsound(s, a);
    var s' := Next(s, a);
    forall o | 0 <= o < |s'.ops| && Binding(s'.ops[o]) ensures Live(s', DriverOf(s', s'.ops[o].d)) {
      BindingAfter(s, a, o);
      if o < |s.ops| && Binding(s.ops[o]) && s'.ops[o].d == s.ops[o].d {
        InProgressKeepsDriver(s, a, o);
        LiveAfter(s, a, DriverOf(s, s.ops[o].d));
      } else {
        StartKeepsDrivers(s, a);
      }
    }
  }

  lemma StartKeepsDrivers(s: State, a: Action)
    requires Enabled(s, a) && a.Start?
    ensures DriverOf(Next(s, a), a.d) == DriverOf(s, a.d) && forall v :: Live(Next(s, a), v) == Live(s, v)
  {
  }

  /** Whoever keeps a start out of its device's callback mutex is a probe, which ends on its own. */
  lemma OnlyAProbeKeepsOut(s: State, o: OpId, u: OpId)
    requires o < |s.ops| && u < |s.ops| && o != u && Binding(s.ops[o]) && DeviceInv(s, s.ops[o].d)
    requires InCallback(s.ops[u]) && s.ops[u].d == s.ops[o].d
    ensures s.ops[u].InProbe? && Of(s, s.ops[o].d).probes > 0
  {
    hide Tallied, Of, Accounted, AtLeast, Plus, Unit, Listed;
    var d := s.ops[o].d;
    TwoAreCounted(s.ops, o, u);
    OneSwitchAccount(Of(s, d), Tallied(s.ops, d), s.ops[o], s.ops[u], multiset(s.ledger)[d], Listed(s, d));
  }

  lemma ProbeEnds(s: State, u: OpId)
    requires u < |s.ops| && s.ops[u].InProbe?
    ensures Enabled(s, Proceed(u, true))
    ensures var s', d := Next(s, Proceed(u, true)), s.ops[u].d;
      && s'.ops == s.ops[u := Over(d)] && s'.drivers == s.drivers
      && Of(s', d).probes == Of(s, d).probes - 1 && Of(s', d).driver == Of(s, d).driver
  {
  }

  lemma DestructKeepsOps(s: State, a: Action)
    requires Enabled(s, a) && a.DestructDriver?
    ensures Next(s, a).ops == s.ops
  {
  }
}
