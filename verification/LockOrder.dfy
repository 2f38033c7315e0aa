/** Deadlock freedom of the device code: device.cpp, and the locks of driver.cpp and device_listener.cpp that it
  takes. */
module LockOrder {

  // A device is named by its path in the device tree. An operation is a call into the device code together with what
  // its driver callbacks and listeners do; `Trace` lists the locks it takes and gives back, in order, and where it sets
  // and clears `starting` or `stopping`. Threads run such traces in any interleaving.
  //
  // Of those two flags at most one is set, by one call (DeviceLifecycle.OneSwitchAtATime): here the call claims the
  // device. A call that finds the device claimed returns busy, or returns as if there was nothing to do.

  /** The position of each ancestor among its siblings, from the root down. */
  type Dev = seq<nat>

  datatype Lock = Callback(d: Dev) | Registry | Ledger | Listeners | Drivers | Mutex(d: Dev)

  /** `Claim` is followed by the end of its section, and then by `n` events of a call that goes on. */
  datatype Event = Acquire(l: Lock) | Release(l: Lock) | Claim(d: Dev, n: nat) | Unclaim(d: Dev)

  /** A call, the branches it takes, and the calls that its callbacks and listeners make. A start or stop with `go` does
      go on unless the device is claimed. */
  datatype Op =
    | Destruct(d: Dev)
    | Add(d: Dev, go: bool)
    | Remove(d: Dev, go: bool, found: bool)
    | Start(d: Dev, go: bool, ok: bool, body: seq<Op>, after: seq<Op>)
    | Stop(d: Dev, go: bool, ok: bool, before: seq<Op>, body: seq<Op>, after: seq<Op>)
    | Get(d: Dev)
    | Put(d: Dev)
    | Lookup(d: Dev, found: bool)
    | ForEach(visited: seq<Dev>)
    | Register
    | FindDriver
    | Listen
    | Probe(d: Dev, body: seq<Op>)
    | Poll(pinned: seq<Dev>, rounds: seq<Op>, actions: seq<Op>)

  // ---------------------------------------------------------------------------------------------
  // The locks an operation takes

  function Section(l: Lock): seq<Event> {
    [Acquire(l), Release(l)]
  }

  function Around(l: Lock, inner: seq<Event>): seq<Event> {
    [Acquire(l)] + inner + [Release(l)]
  }

  /** device_get or device_put on each device. */
  function Sections(ds: seq<Dev>): seq<Event> {
    if ds == [] then [] else Section(Mutex(ds[0])) + Sections(ds[1..])
  }

  /** The section of device_add_child or device_remove_child, for a device that has a parent. */
  function ParentSection(d: Dev): seq<Event> {
    if |d| <= 1 then [] else Section(Mutex(d[..|d| - 1]))
  }

  /** The first section of a start or stop, and what it does then if it goes on. */
  function Claiming(d: Dev, inner: seq<Event>): seq<Event> {
    [Acquire(Mutex(d)), Claim(d, |inner|), Release(Mutex(d))] + inner
  }

  /** The last section of a start or stop. */
  function Unclaiming(d: Dev): seq<Event> {
    [Acquire(Mutex(d)), Unclaim(d), Release(Mutex(d))]
  }

  function Trace(op: Op): seq<Event>
    decreases op, 1
  {
    match op
    case Destruct(d) => Section(Mutex(d))
    case Add(d, go) => Section(Mutex(d)) + if go then Section(Ledger) + ParentSection(d) else []
    case Remove(d, go, found) =>
      Section(Mutex(d)) +
      (if !go then []
       else ParentSection(d) + Section(Ledger) + (if found then [] else ParentSection(d)) + Section(Mutex(d)))
    case Start(d, go, ok, body, after) =>
      if !go then Section(Mutex(d))
      else Claiming(d, Around(Callback(d), TraceAll(body)) + Unclaiming(d) + Notify(ok, TraceAll(after)))
    case Stop(d, go, ok, before, body, after) =>
      if !go then Section(Mutex(d))
      else Claiming(d, Notify(true, TraceAll(before)) + Around(Callback(d), TraceAll(body)) + Unclaiming(d)
                       + Notify(ok, TraceAll(after)))
    case Get(d) => Section(Mutex(d))
    case Put(d) => Section(Mutex(d))
    case Lookup(d, found) => Around(Ledger, if found then Section(Mutex(d)) else [])
    case ForEach(visited) => Around(Ledger, Sections(visited))
    case Register => Section(Registry)
    case FindDriver => Section(Drivers)
    case Listen => Section(Listeners)
    case Probe(d, body) => Section(Mutex(d)) + Around(Callback(d), TraceAll(body)) + Section(Mutex(d))
    case Poll(pinned, rounds, actions) =>
      Around(Registry, Sections(pinned)) + TraceAll(rounds) + TraceAll(actions) + Sections(pinned)
  }

  /** device_listener_notify: the listeners run after their list has been copied. */
  function Notify(happens: bool, listeners: seq<Event>): seq<Event> {
    if happens then Section(Listeners) + listeners else []
  }

  function TraceAll(ops: seq<Op>): seq<Event>
    decreases ops, 0
  {
    if ops == [] then [] else Trace(ops[0]) + TraceAll(ops[1..])
  }

  /** The locks that events take, in order. */
  function Locks(events: seq<Event>): seq<Lock> {
    if events == [] then [] else (if events[0].Acquire? then [events[0].l] else []) + Locks(events[1..])
  }

  function Mutexes(ds: seq<Dev>): seq<Lock> {
    seq(|ds|, i requires 0 <= i < |ds| => Mutex(ds[i]))
  }

  lemma {:induction false} LocksMore(xs: seq<Event>, ys: seq<Event>)
    ensures Locks(xs + ys) == Locks(xs) + Locks(ys)
  {
    if xs == [] {
      assert xs + ys == ys;
    } else {
      assert (xs + ys)[1..] == xs[1..] + ys;
      LocksMore(xs[1..], ys);
    }
  }

  lemma LocksAround(l: Lock, inner: seq<Event>)
    ensures Locks(Around(l, inner)) == [l] + Locks(inner) && Locks(Section(l)) == [l]
  {
    LocksMore([Acquire(l)] + inner, [Release(l)]);
    LocksMore([Acquire(l)], inner);
    assert [Acquire(l)][1..] == [] && [Release(l)][1..] == [] && Section(l)[1..] == [Release(l)];
  }

  lemma {:induction false} LocksOfSections(ds: seq<Dev>)
    ensures Locks(Sections(ds)) == Mutexes(ds)
  {
    if ds != [] {
      LocksAround(Mutex(ds[0]), []);
      LocksMore(Section(Mutex(ds[0])), Sections(ds[1..]));
      LocksOfSections(ds[1..]);
      assert Mutexes(ds) == [Mutex(ds[0])] + Mutexes(ds[1..]);
    }
  }

  lemma LocksOfSwitch(d: Dev, xs: seq<Event>, happens: bool, listeners: seq<Event>)
    ensures Locks(Notify(happens, listeners)) == if happens then [Listeners] + Locks(listeners) else []
    ensures Locks(Claiming(d, xs + Unclaiming(d) + Notify(happens, listeners))) ==
      [Mutex(d)] + Locks(xs) + [Mutex(d)] + Locks(Notify(happens, listeners))
  {
    var m := Mutex(d);
    var n, last := |xs + Unclaiming(d) + Notify(happens, listeners)|, Unclaiming(d);
    var first := [Acquire(m), Claim(d, n), Release(m)];
    LocksAround(Listeners, []);
    LocksMore(Section(Listeners), listeners);
    LocksMore(xs, last);
    LocksMore(xs + last, Notify(happens, listeners));
    LocksMore(first, xs + last + Notify(happens, listeners));
    hide Locks;
    assert Locks(first) == [m] by { LocksOfSection(m, first[1]); }
    assert Locks(last) == [m] by { LocksOfSection(m, Unclaim(d)); }
    assert [m] + (Locks(xs) + [m] + Locks(Notify(happens, listeners))) ==
           [m] + Locks(xs) + [m] + Locks(Notify(happens, listeners));
  }

  lemma LocksOfSection(l: Lock, e: Event)
    requires !e.Acquire?
    ensures Locks([Acquire(l), e, Release(l)]) == [l]
  {
    assert [Acquire(l), e, Release(l)] == Around(l, [e]);
    LocksAround(l, [e]);
    assert [e][1..] == [];
  }

  /** The parent of a device, if it has one. */
  function Parent(d: Dev): seq<Dev> {
    if |d| <= 1 then [] else [d[..|d| - 1]]
  }

  /** The locks that a call without callbacks takes, in order. */
  lemma LocksOfPlainCall(op: Op)
    requires !op.Start? && !op.Stop? && !op.Probe? && !op.Poll?
    ensures Locks(Trace(op)) ==
      match op
      case Add(d, go) => [Mutex(d)] + if go then [Ledger] + Mutexes(Parent(d)) else []
      case Remove(d, go, found) =>
        [Mutex(d)] +
        if !go then []
        else Mutexes(Parent(d)) + [Ledger] + (if found then [] else Mutexes(Parent(d))) + [Mutex(d)]
      case Lookup(d, found) => [Ledger] + if found then [Mutex(d)] else []
      case ForEach(visited) => [Ledger] + Mutexes(visited)
      case Register => [Registry]
      case FindDriver => [Drivers]
      case Listen => [Listeners]
      case _ => [Mutex(op.d)]
  {
    hide Locks;
    forall l ensures Locks(Section(l)) == [l] { LocksAround(l, []); }
    match op {
      case Add(d, go) =>
        LocksOfParent(d);
        LocksMore(Section(Ledger), ParentSection(d));
        LocksMore(Section(Mutex(d)), if go then Section(Ledger) + ParentSection(d) else []);
      case Remove(d, go, found) =>
        var m, q, l := Section(Mutex(d)), ParentSection(d), Section(Ledger);
        var r := if found then [] else q;
        LocksOfParent(d);
        LocksMore(q, l);
        LocksMore(q + l, r);
        LocksMore(q + l + r, m);
        LocksMore(m, if go then q + l + r + m else []);
      case Lookup(d, found) =>
        LocksOfParent(d);
        LocksAround(Ledger, if found then Section(Mutex(d)) else []);
      case ForEach(visited) =>
        LocksAround(Ledger, Sections(visited));
        LocksOfSections(visited);
      case _ =>
    }
  }

  lemma LocksOfParent(d: Dev)
    ensures Locks(ParentSection(d)) == Mutexes(Parent(d)) && Locks([]) == []
  {
    if |d| > 1 { LocksAround(Mutex(d[..|d| - 1]), []); }
  }

  /** The locks that a call with callbacks takes, in order: a callback runs under the callback mutex of its device, and
    the device's own mutex is taken before it and after it; listeners are notified before a stop that goes on, and after
    a start or stop that worked. */
  lemma LocksOfCall(op: Op)
    ensures match op
      case Start(d, go, ok, body, after) =>
        Locks(Trace(op)) ==
          [Mutex(d)] +
          if !go then []
          else [Callback(d)] + Locks(TraceAll(body)) + [Mutex(d)] +
               if ok then [Listeners] + Locks(TraceAll(after)) else []
      case Stop(d, go, ok, before, body, after) =>
        Locks(Trace(op)) ==
          [Mutex(d)] +
          if !go then []
          else [Listeners] + Locks(TraceAll(before)) + [Callback(d)] + Locks(TraceAll(body)) + [Mutex(d)] +
               if ok then [Listeners] + Locks(TraceAll(after)) else []
      case Probe(d, body) => Locks(Trace(op)) == [Mutex(d), Callback(d)] + Locks(TraceAll(body)) + [Mutex(d)]
      case Poll(pinned, rounds, actions) =>
        Locks(Trace(op)) ==
          [Registry] + Mutexes(pinned) + Locks(TraceAll(rounds)) + Locks(TraceAll(actions)) + Mutexes(pinned)
      case _ => true
  {
    hide Locks, TraceAll, Claiming, Unclaiming, Notify;
    match op {
      case Start(d, go, ok, body, after) =>
        LocksAround(Mutex(d), []);
        LocksAround(Callback(d), TraceAll(body));
        LocksOfSwitch(d, Around(Callback(d), TraceAll(body)), ok, TraceAll(after));
      case Stop(d, go, ok, before, body, after) =>
        LocksAround(Mutex(d), []);
        LocksAround(Callback(d), TraceAll(body));
        var b := Notify(true, TraceAll(before));
        LocksOfSwitch(d, [], true, TraceAll(before));
        LocksMore(b, Around(Callback(d), TraceAll(body)));
        LocksOfSwitch(d, b + Around(Callback(d), TraceAll(body)), ok, TraceAll(after));
      case Probe(d, body) =>
        var m, c := Section(Mutex(d)), Around(Callback(d), TraceAll(body));
        LocksAround(Mutex(d), []);
        LocksAround(Callback(d), TraceAll(body));
        LocksMore(m, c);
        LocksMore(m + c, m);
      case Poll(pinned, rounds, actions) =>
        var r, ps := Around(Registry, Sections(pinned)), Sections(pinned);
        LocksAround(Registry, ps);
        LocksOfSections(pinned);
        LocksMore(r, TraceAll(rounds));
        LocksMore(r + TraceAll(rounds), TraceAll(actions));
        LocksMore(r + TraceAll(rounds) + TraceAll(actions), ps);
      case _ =>
    }
  }

  // ---------------------------------------------------------------------------------------------
  // What driver callbacks and listeners may do

  /** Two ways to keep out of deadlocks, either of which is enough. Descendants: a callback starts, stops and probes
      descendants of its device only. ProbesOnly: start and stop callbacks start and stop whatever they like but do not
      probe, and during a probe only descendants of the probed device are started and stopped. */
  datatype Policy = Descendants | ProbesOnly

  /** Where a call is made: in no callback, in callbacks that may start and stop anything, or in one that is bound to
      the descendants of a device. */
  datatype Above = Nobody | Anywhere | Inside(d: Dev)

  predicate Below(above: Above, d: Dev) {
    above.Inside? ==> above.d < d
  }

  /** Where the start or stop callback of `d` runs. */
  function Within(p: Policy, above: Above, d: Dev): Above {
    if p.Descendants? then Inside(d) else if above.Inside? then above else Anywhere
  }

  /** Listeners run where the call that notifies them runs. */
  predicate Allowed(p: Policy, op: Op, above: Above)
    decreases op, 1
  {
    match op
    case Start(d, go, _, body, after) =>
      go ==> Below(above, d) && AllAllowed(p, body, Within(p, above, d)) && AllAllowed(p, after, above)
    case Stop(d, go, _, before, body, after) =>
      go ==> Below(above, d) && AllAllowed(p, before, above) && AllAllowed(p, body, Within(p, above, d))
             && AllAllowed(p, after, above)
    case Probe(d, body) => (if p.Descendants? then Below(above, d) else above.Nobody?) && AllAllowed(p, body, Inside(d))
    case Poll(_, rounds, actions) => AllAllowed(p, rounds, above) && AllAllowed(p, actions, above)
    case _ => true
  }

  predicate AllAllowed(p: Policy, ops: seq<Op>, above: Above)
    decreases ops, 0
  {
    ops == [] || (Allowed(p, ops[0], above) && AllAllowed(p, ops[1..], above))
  }

  // ---------------------------------------------------------------------------------------------
  // The lock order

  function Class(l: Lock): nat {
    match l
    case Callback(_) => 0
    case Registry => 1
    case Ledger => 2
    case Listeners => 3
    case Drivers => 4
    case Mutex(_) => 5
  }

  /** Callback mutexes in the order of depth, then the registries, then the device mutexes. */
  predicate Less(a: Lock, b: Lock) {
    Class(a) < Class(b) || (a.Callback? && b.Callback? && |a.d| < |b.d|)
  }

  predicate Recursive(l: Lock) {
    l.Callback? || l.Mutex?
  }

  /** The locks a thread holds, in the order in which it took them, and the devices it has claimed. */
  datatype Own = Own(held: seq<Lock>, claims: set<Dev>)

  /** Of the callback mutexes held, those of devices that are not claimed lie above the claimed device asked for. A
      device that is not claimed is probed, and then nothing is held. */
  predicate MayEnter(a: Own, d: Dev) {
    if d in a.claims then forall h :: h in a.held ==> h.Callback? && (h.d in a.claims || |h.d| < |d|) else a.held == []
  }

  /** The lock is held already and may be taken again, or comes after what is held. */
  predicate MayAcquire(p: Policy, a: Own, l: Lock) {
    || (Recursive(l) && l in a.held)
    || (if p.ProbesOnly? && l.Callback? then MayEnter(a, l.d) else forall h :: h in a.held ==> Less(h, l))
  }

  /** What is left of a start or stop whose device is claimed: the end of its first section. */
  function Refused(events: seq<Event>, n: nat): seq<Event>
    requires n + 2 <= |events|
  {
    [events[1]] + events[n + 2..]
  }

  /** The events keep the lock order, and lead from owning `a` to owning `b`. */
  predicate Disciplined(p: Policy, a: Own, events: seq<Event>, b: Own)
    decreases |events|
  {
    if events == [] then a == b
    else match events[0]
      case Acquire(l) => MayAcquire(p, a, l) && Disciplined(p, a.(held := a.held + [l]), events[1..], b)
      case Release(l) =>
        a.held != [] && a.held[|a.held| - 1] == l && Disciplined(p, a.(held := a.held[..|a.held| - 1]), events[1..], b)
      case Claim(d, n) =>
        n + 2 <= |events| && (d in a.claims || Disciplined(p, a.(claims := a.claims + {d}), events[1..], b))
        && Disciplined(p, a, Refused(events, n), b)
      case Unclaim(d) => d in a.claims && Disciplined(p, a.(claims := a.claims - {d}), events[1..], b)
  }

  lemma {:induction false} DisciplinedThen(p: Policy, a: Own, xs: seq<Event>, b: Own, ys: seq<Event>, c: Own)
    requires Disciplined(p, a, xs, b) && Disciplined(p, b, ys, c)
    ensures Disciplined(p, a, xs + ys, c)
    decreases |xs|
  {
    if xs == [] {
      assert xs + ys == ys;
    } else {
      assert (xs + ys)[1..] == xs[1..] + ys;
      match xs[0] {
        case Acquire(l) => DisciplinedThen(p, a.(held := a.held + [l]), xs[1..], b, ys, c);
        case Release(l) => DisciplinedThen(p, a.(held := a.held[..|a.held| - 1]), xs[1..], b, ys, c);
        case Claim(d, n) =>
          assert Refused(xs + ys, n) == Refused(xs, n) + ys;
          if d !in a.claims { DisciplinedThen(p, a.(claims := a.claims + {d}), xs[1..], b, ys, c); }
          DisciplinedThen(p, a, Refused(xs, n), b, ys, c);
        case Unclaim(d) => DisciplinedThen(p, a.(claims := a.claims - {d}), xs[1..], b, ys, c);
      }
    }
  }

  function Holding(a: Own, l: Lock): Own {
    a.(held := a.held + [l])
  }

  lemma AroundDisciplined(p: Policy, a: Own, l: Lock, inner: seq<Event>, b: Own)
    requires MayAcquire(p, a, l) && Disciplined(p, Holding(a, l), inner, Holding(b, l))
    ensures Disciplined(p, a, Around(l, inner), b)
  {
    assert Disciplined(p, Holding(b, l), [Release(l)], b) by {
      assert (b.held + [l])[..|b.held|] == b.held && [Release(l)][1..] == [];
      assert Holding(b, l).(held := b.held) == b;
    }
    DisciplinedThen(p, Holding(a, l), inner, Holding(b, l), [Release(l)], b);
    assert Around(l, inner)[1..] == inner + [Release(l)];
  }

  lemma SectionDisciplined(p: Policy, a: Own, l: Lock)
    requires MayAcquire(p, a, l)
    ensures Disciplined(p, a, Section(l), a)
  {
    AroundDisciplined(p, a, l, [], a);
    assert Around(l, []) == Section(l);
  }

  lemma {:induction false} SectionsDisciplined(p: Policy, a: Own, ds: seq<Dev>)
    requires forall d :: MayAcquire(p, a, Mutex(d))
    ensures Disciplined(p, a, Sections(ds), a)
  {
    if ds != [] {
      SectionDisciplined(p, a, Mutex(ds[0]));
      SectionsDisciplined(p, a, ds[1..]);
      DisciplinedThen(p, a, Section(Mutex(ds[0])), a, Sections(ds[1..]), a);
    }
  }

  function Claimer(a: Own, d: Dev): Own {
    a.(claims := a.claims + {d})
  }

  lemma ClaimingDisciplined(p: Policy, a: Own, d: Dev, inner: seq<Event>)
    requires MayAcquire(p, a, Mutex(d))
    requires d in a.claims || Disciplined(p, Claimer(a, d), inner, a)
    ensures Disciplined(p, a, Claiming(d, inner), a)
  {
    var m, r, e := Mutex(d), Release(Mutex(d)), Claiming(d, inner);
    var b := Holding(a, m);
    assert (a.held + [m])[..|a.held|] == a.held;
    assert e[1..][1..] == [r] + inner && ([r] + inner)[1..] == inner;
    assert Refused(e[1..], |inner|) == [r] by { assert e[1..][|inner| + 2..] == []; }
    assert Disciplined(p, b, [r], a) by { assert [r][1..] == []; assert b.(held := a.held) == a; }
    if d !in a.claims {
      assert Claimer(b, d).(held := a.held) == Claimer(a, d);
      assert Disciplined(p, Claimer(b, d), [r] + inner, a);
    }
    assert Disciplined(p, b, e[1..], a);
  }

  lemma UnclaimingDisciplined(p: Policy, a: Own, d: Dev)
    requires d !in a.claims && MayAcquire(p, Claimer(a, d), Mutex(d))
    ensures Disciplined(p, Claimer(a, d), Unclaiming(d), a)
  {
    var b := Holding(Claimer(a, d), Mutex(d));
    assert a.claims + {d} - {d} == a.claims;
    assert b.(claims := b.claims - {d}) == Holding(a, Mutex(d));
    assert [Unclaim(d)][1..] == [];
    assert Disciplined(p, b, [Unclaim(d)], Holding(a, Mutex(d)));
    AroundDisciplined(p, Claimer(a, d), Mutex(d), [Unclaim(d)], a);
    assert Around(Mutex(d), [Unclaim(d)]) == Unclaiming(d);
  }

  /** What a thread owns where a call is made: callback mutexes on the way to the device that the calls are bound to, or
      else of claimed devices. */
  predicate OnTheWay(p: Policy, a: Own, above: Above) {
    forall h :: h in a.held ==>
      h.Callback? &&
      if p.Descendants? then above.Inside? && |h.d| <= |above.d|
      else !above.Nobody? && (h.d in a.claims || (above.Inside? && h.d == above.d))
  }

  lemma OnTheWayMayAcquire(p: Policy, a: Own, above: Above, l: Lock)
    requires OnTheWay(p, a, above) && !l.Callback?
    ensures MayAcquire(p, a, l)
  {
  }

  lemma OnTheWayMayEnter(p: Policy, a: Own, above: Above, d: Dev)
    requires OnTheWay(p, a, above) && Below(above, d) && (d in a.claims || p.Descendants? || above.Nobody?)
    ensures MayAcquire(p, a, Callback(d))
    ensures d in a.claims ==> OnTheWay(p, Holding(a, Callback(d)), Within(p, above, d))
    ensures p.Descendants? || above.Nobody? ==> OnTheWay(p, Holding(a, Callback(d)), Inside(d))
  {
    assert above.Inside? ==> |above.d| < |d|;
    assert a.held == [] || a.held[0] in a.held;
  }

  lemma Then(p: Policy, a: Own, xs: seq<Event>, ys: seq<Event>)
    requires Disciplined(p, a, xs, a) && Disciplined(p, a, ys, a)
    ensures Disciplined(p, a, xs + ys, a)
  {
    DisciplinedThen(p, a, xs, a, ys, a);
  }

  lemma NothingDisciplined(p: Policy, a: Own)
    ensures Disciplined(p, a, [], a)
  {
  }

  lemma PlainSection(p: Policy, a: Own, above: Above, l: Lock)
    requires OnTheWay(p, a, above) && !l.Callback?
    ensures Disciplined(p, a, Section(l), a)
  {
    OnTheWayMayAcquire(p, a, above, l);
    SectionDisciplined(p, a, l);
  }

  lemma ParentSectionDisciplined(p: Policy, a: Own, above: Above, d: Dev)
    requires OnTheWay(p, a, above)
    ensures Disciplined(p, a, ParentSection(d), a)
  {
    NothingDisciplined(p, a);
    if |d| > 1 { PlainSection(p, a, above, Mutex(d[..|d| - 1])); }
  }

  /** The callback of a device that this call has claimed. */
  lemma {:induction false} CallbackDisciplined(p: Policy, a: Own, above: Above, d: Dev, body: seq<Op>)
    requires OnTheWay(p, a, above) && Below(above, d) && d in a.claims && AllAllowed(p, body, Within(p, above, d))
    ensures Disciplined(p, a, Around(Callback(d), TraceAll(body)), a)
    decreases body, 1
  {
    hide Disciplined;
    OnTheWayMayEnter(p, a, above, d);
    AllDisciplined(p, Holding(a, Callback(d)), Within(p, above, d), body);
    AroundDisciplined(p, a, Callback(d), TraceAll(body), a);
  }

  lemma {:induction false} NotifyDisciplined(p: Policy, a: Own, above: Above, happens: bool, listeners: seq<Op>)
    requires OnTheWay(p, a, above) && AllAllowed(p, listeners, above)
    ensures Disciplined(p, a, Notify(happens, TraceAll(listeners)), a)
    decreases listeners, 1
  {
    hide Disciplined;
    NothingDisciplined(p, a);
    PlainSection(p, a, above, Listeners);
    AllDisciplined(p, a, above, listeners);
    Then(p, a, Section(Listeners), TraceAll(listeners));
  }

  /** A list of allowed calls keeps the lock order and gives every lock and claim back. */
  lemma {:induction false} AllDisciplined(p: Policy, a: Own, above: Above, ops: seq<Op>)
    requires OnTheWay(p, a, above) && AllAllowed(p, ops, above)
    ensures Disciplined(p, a, TraceAll(ops), a)
    decreases ops, 0
  {
    hide Disciplined;
    NothingDisciplined(p, a);
    if ops != [] {
      OpDisciplined(p, a, above, ops[0]);
      AllDisciplined(p, a, above, ops[1..]);
      Then(p, a, Trace(ops[0]), TraceAll(ops[1..]));
    }
  }

  /** What follows the callback of a start or stop. */
  lemma {:induction false} SwitchEnds(p: Policy, a: Own, above: Above, d: Dev, ok: bool, xs: seq<Event>, after: seq<Op>)
    requires OnTheWay(p, a, above) && d !in a.claims && AllAllowed(p, after, above)
    requires Disciplined(p, Claimer(a, d), xs, Claimer(a, d))
    ensures Disciplined(p, a, Claiming(d, xs + Unclaiming(d) + Notify(ok, TraceAll(after))), a)
    decreases after, 2
  {
    hide Disciplined;
    var b := Claimer(a, d);
    OnTheWayMayAcquire(p, a, above, Mutex(d));
    OnTheWayMayAcquire(p, b, above, Mutex(d));
    UnclaimingDisciplined(p, a, d);
    NotifyDisciplined(p, a, above, ok, after);
    DisciplinedThen(p, b, xs, b, Unclaiming(d), a);
    DisciplinedThen(p, b, xs + Unclaiming(d), a, Notify(ok, TraceAll(after)), a);
    ClaimingDisciplined(p, a, d, xs + Unclaiming(d) + Notify(ok, TraceAll(after)));
  }

  lemma {:induction false} StartDisciplined(p: Policy, a: Own, above: Above, op: Op)
    requires OnTheWay(p, a, above) && Allowed(p, op, above) && op.Start?
    ensures Disciplined(p, a, Trace(op), a)
    decreases op, 0
  {
    hide Disciplined;
    PlainSection(p, a, above, Mutex(op.d));
    if op.go {
      var c := Around(Callback(op.d), TraceAll(op.body));
      if op.d in a.claims {
        OnTheWayMayAcquire(p, a, above, Mutex(op.d));
        ClaimingDisciplined(p, a, op.d, c + Unclaiming(op.d) + Notify(op.ok, TraceAll(op.after)));
      } else {
        CallbackDisciplined(p, Claimer(a, op.d), above, op.d, op.body);
        SwitchEnds(p, a, above, op.d, op.ok, c, op.after);
      }
    }
  }

  lemma {:induction false} StopDisciplined(p: Policy, a: Own, above: Above, op: Op)
    requires OnTheWay(p, a, above) && Allowed(p, op, above) && op.Stop?
    ensures Disciplined(p, a, Trace(op), a)
    decreases op, 0
  {
    hide Disciplined;
    PlainSection(p, a, above, Mutex(op.d));
    if op.go {
      var b, c := Notify(true, TraceAll(op.before)), Around(Callback(op.d), TraceAll(op.body));
      if op.d in a.claims {
        OnTheWayMayAcquire(p, a, above, Mutex(op.d));
        ClaimingDisciplined(p, a, op.d, b + c + Unclaiming(op.d) + Notify(op.ok, TraceAll(op.after)));
      } else {
        NotifyDisciplined(p, Claimer(a, op.d), above, true, op.before);
        CallbackDisciplined(p, Claimer(a, op.d), above, op.d, op.body);
        Then(p, Claimer(a, op.d), b, c);
        SwitchEnds(p, a, above, op.d, op.ok, b + c, op.after);
      }
    }
  }

  lemma RemoveDisciplined(p: Policy, a: Own, above: Above, op: Op)
    requires OnTheWay(p, a, above) && op.Remove?
    ensures Disciplined(p, a, Trace(op), a)
  {
    hide Disciplined;
    NothingDisciplined(p, a);
    var m, q, l := Section(Mutex(op.d)), ParentSection(op.d), Section(Ledger);
    var r := if op.found then [] else q;
    PlainSection(p, a, above, Mutex(op.d));
    PlainSection(p, a, above, Ledger);
    ParentSectionDisciplined(p, a, above, op.d);
    if op.go {
      Then(p, a, q, l);
      Then(p, a, q + l, r);
      Then(p, a, q + l + r, m);
      Then(p, a, m, q + l + r + m);
    } else {
      Then(p, a, m, []);
    }
  }

  lemma {:induction false} PollDisciplined(p: Policy, a: Own, above: Above, op: Op)
    requires OnTheWay(p, a, above) && Allowed(p, op, above) && (op.Poll? || op.Probe?)
    ensures Disciplined(p, a, Trace(op), a)
    decreases op, 0
  {
    hide Disciplined;
    if op.Probe? {
      var m, c := Section(Mutex(op.d)), Around(Callback(op.d), TraceAll(op.body));
      PlainSection(p, a, above, Mutex(op.d));
      OnTheWayMayEnter(p, a, above, op.d);
      AllDisciplined(p, Holding(a, Callback(op.d)), Inside(op.d), op.body);
      AroundDisciplined(p, a, Callback(op.d), TraceAll(op.body), a);
      Then(p, a, m, c);
      Then(p, a, m + c, m);
    } else {
      var r, ps := Around(Registry, Sections(op.pinned)), Sections(op.pinned);
      OnTheWayMayAcquire(p, a, above, Registry);
      SectionsDisciplined(p, Holding(a, Registry), op.pinned);
      AroundDisciplined(p, a, Registry, ps, a);
      SectionsDisciplined(p, a, op.pinned);
      AllDisciplined(p, a, above, op.rounds);
      AllDisciplined(p, a, above, op.actions);
      Then(p, a, r, TraceAll(op.rounds));
      Then(p, a, r + TraceAll(op.rounds), TraceAll(op.actions));
      Then(p, a, r + TraceAll(op.rounds) + TraceAll(op.actions), ps);
    }
  }

  lemma LedgerDisciplined(p: Policy, a: Own, above: Above, ds: seq<Dev>)
    requires OnTheWay(p, a, above)
    ensures Disciplined(p, a, Around(Ledger, Sections(ds)), a)
  {
    OnTheWayMayAcquire(p, a, above, Ledger);
    SectionsDisciplined(p, Holding(a, Ledger), ds);
    AroundDisciplined(p, a, Ledger, Sections(ds), a);
  }

  /** Every acquisition of an allowed call keeps the lock order of the policy or takes a recursive lock again, whichever
      of its starts and stops are refused, and the call gives back what it took. */
  lemma {:induction false} OpDisciplined(p: Policy, a: Own, above: Above, op: Op)
    requires OnTheWay(p, a, above) && Allowed(p, op, above)
    ensures Disciplined(p, a, Trace(op), a)
    decreases op, 1
  {
    hide Disciplined;
    match op {
      case Start(_, _, _, _, _) => StartDisciplined(p, a, above, op);
      case Stop(_, _, _, _, _, _) => StopDisciplined(p, a, above, op);
      case Remove(_, _, _) => RemoveDisciplined(p, a, above, op);
      case Poll(_, _, _) => PollDisciplined(p, a, above, op);
      case Probe(_, _) => PollDisciplined(p, a, above, op);
      case Add(d, go) =>
        NothingDisciplined(p, a);
        PlainSection(p, a, above, Mutex(d));
        PlainSection(p, a, above, Ledger);
        ParentSectionDisciplined(p, a, above, d);
        Then(p, a, Section(Ledger), ParentSection(d));
        Then(p, a, Section(Mutex(d)), if go then Section(Ledger) + ParentSection(d) else []);
      case Lookup(d, found) =>
        assert (if found then Section(Mutex(d)) else []) == Sections(if found then [d] else []);
        LedgerDisciplined(p, a, above, if found then [d] else []);
      case ForEach(visited) => LedgerDisciplined(p, a, above, visited);
      case Destruct(d) => PlainSection(p, a, above, Mutex(d));
      case Get(d) => PlainSection(p, a, above, Mutex(d));
      case Put(d) => PlainSection(p, a, above, Mutex(d));
      case Register => PlainSection(p, a, above, Registry);
      case FindDriver => PlainSection(p, a, above, Drivers);
      case Listen => PlainSection(p, a, above, Listeners);
    }
  }

  // ---------------------------------------------------------------------------------------------
  // Threads

  datatype Thread = Thread(todo: seq<Event>, own: Own)

  const NOTHING: Own := Own([], {})

  /** One thread for each list of calls. */
  function Boot(programs: seq<seq<Op>>): (ts: seq<Thread>)
    ensures |ts| == |programs|
    ensures forall i :: 0 <= i < |ts| ==> ts[i] == Thread(TraceAll(programs[i]), NOTHING)
  {
    if programs == [] then [] else [Thread(TraceAll(programs[0]), NOTHING)] + Boot(programs[1..])
  }

  /** Thread `i` asks for a lock that thread `j` holds. */
  predicate WaitsFor(ts: seq<Thread>, i: nat, j: nat)
    requires i < |ts| && j < |ts|
  {
    i != j && ts[i].todo != [] && ts[i].todo[0].Acquire? && ts[i].todo[0].l in ts[j].own.held
  }

  /** A lock is granted only while no other thread holds it. */
  predicate CanStep(ts: seq<Thread>, i: nat) {
    i < |ts| && ts[i].todo != [] && forall j :: 0 <= j < |ts| ==> !WaitsFor(ts, i, j)
  }

  predicate Claimed(ts: seq<Thread>, d: Dev) {
    exists j :: 0 <= j < |ts| && d in ts[j].own.claims
  }

  function WithoutLast(ls: seq<Lock>, l: Lock): seq<Lock> {
    if ls == [] then []
    else
      var rest, last := ls[..|ls| - 1], ls[|ls| - 1];
      if last == l then rest else WithoutLast(rest, l) + [last]
  }

  function Have(a: Own, e: Event): Own {
    match e
    case Acquire(l) => Holding(a, l)
    case Release(l) => a.(held := WithoutLast(a.held, l))
    case Claim(d, _) => Claimer(a, d)
    case Unclaim(d) => a.(claims := a.claims - {d})
  }

  /** The next event; `refused` when it would claim a device that is claimed. */
  function Advance(t: Thread, refused: bool): Thread
    requires t.todo != []
  {
    if !refused then Thread(t.todo[1..], Have(t.own, t.todo[0]))
    else match t.todo[0]
      case Claim(_, n) => Thread(if n + 2 <= |t.todo| then Refused(t.todo, n) else [], t.own)
      case _ => t
  }

  function Step(ts: seq<Thread>, i: nat): seq<Thread>
    requires CanStep(ts, i)
  {
    ts[i := Advance(ts[i], ts[i].todo[0].Claim? && Claimed(ts, ts[i].todo[0].d))]
  }

  /** Each entry of the schedule names a thread that can take its next step. */
  predicate IsSchedule(ts: seq<Thread>, schedule: seq<nat>)
    decreases |schedule|
  {
    schedule == [] || (CanStep(ts, schedule[0]) && IsSchedule(Step(ts, schedule[0]), schedule[1..]))
  }

  function After(ts: seq<Thread>, schedule: seq<nat>): (r: seq<Thread>)
    requires IsSchedule(ts, schedule)
    ensures |r| == |ts|
    decreases |schedule|
  {
    if schedule == [] then ts else After(Step(ts, schedule[0]), schedule[1..])
  }

  predicate Finished(ts: seq<Thread>) {
    forall i :: 0 <= i < |ts| ==> ts[i] == Thread([], NOTHING)
  }

  /** Each thread waits for the next one. */
  predicate IsWaitChain(ts: seq<Thread>, chain: seq<nat>) {
    (forall k :: 0 <= k < |chain| ==> chain[k] < |ts|) &&
    (forall k :: 0 <= k < |chain| - 1 ==> WaitsFor(ts, chain[k], chain[k + 1]))
  }

  predicate Apart(a: Own, b: Own) {
    (forall l :: l in a.held ==> l !in b.held) && a.claims !! b.claims
  }

  ghost predicate Inv(p: Policy, ts: seq<Thread>) {
    (forall i :: 0 <= i < |ts| ==> Disciplined(p, ts[i].own, ts[i].todo, NOTHING)) &&
    (forall i, j :: 0 <= i < |ts| && 0 <= j < |ts| && i != j ==> Apart(ts[i].own, ts[j].own))
  }

  lemma BootInv(p: Policy, programs: seq<seq<Op>>)
    requires forall ops :: ops in programs ==> AllAllowed(p, ops, Nobody)
    ensures Inv(p, Boot(programs))
  {
    forall i | 0 <= i < |programs| ensures Disciplined(p, NOTHING, TraceAll(programs[i]), NOTHING) {
      AllDisciplined(p, NOTHING, Nobody, programs[i]);
    }
  }

  /** A thread's own step, while nobody else has what it asks for or claims. */
  lemma StepKeepsApart(t: Thread, refused: bool, b: Own)
    requires t.todo != [] && Apart(t.own, b)
    requires t.todo[0].Acquire? ==> t.todo[0].l !in b.held
    requires t.todo[0].Claim? && !refused ==> t.todo[0].d !in b.claims
    ensures Apart(Advance(t, refused).own, b) && Apart(b, Advance(t, refused).own)
  {
    if t.todo[0].Release? { WithoutLastSubset(t.own.held, t.todo[0].l); }
  }

  lemma {:induction false} WithoutLastSubset(ls: seq<Lock>, l: Lock)
    ensures forall h :: h in WithoutLast(ls, l) ==> h in ls
  {
    if ls != [] { WithoutLastSubset(ls[..|ls| - 1], l); }
  }

  lemma StepInv(p: Policy, ts: seq<Thread>, i: nat)
    requires Inv(p, ts) && CanStep(ts, i)
    ensures Inv(p, Step(ts, i))
  {
    var n := Step(ts, i);
    var refused := ts[i].todo[0].Claim? && Claimed(ts, ts[i].todo[0].d);
    assert Disciplined(p, ts[i].own, ts[i].todo, NOTHING);
    assert Disciplined(p, n[i].own, n[i].todo, NOTHING);
    hide Disciplined, Advance, Apart;
    forall j | 0 <= j < |ts| && j != i ensures Apart(n[i].own, ts[j].own) && Apart(ts[j].own, n[i].own) {
      assert Apart(ts[i].own, ts[j].own);
      assert !WaitsFor(ts, i, j);
      StepKeepsApart(ts[i], refused, ts[j].own);
    }
  }

  lemma {:induction false} RunInv(p: Policy, ts: seq<Thread>, schedule: seq<nat>)
    requires Inv(p, ts) && IsSchedule(ts, schedule)
    ensures Inv(p, After(ts, schedule)) && |After(ts, schedule)| == |ts|
    decreases |schedule|
  {
    if schedule != [] {
      StepInv(p, ts, schedule[0]);
      RunInv(p, Step(ts, schedule[0]), schedule[1..]);
    }
  }

  ghost predicate AllApart(ts: seq<Thread>) {
    forall i, j :: 0 <= i < |ts| && 0 <= j < |ts| && i != j ==> Apart(ts[i].own, ts[j].own)
  }

  lemma StepStaysApart(ts: seq<Thread>, i: nat)
    requires AllApart(ts) && CanStep(ts, i)
    ensures AllApart(Step(ts, i))
  {
    var n := Step(ts, i);
    var refused := ts[i].todo[0].Claim? && Claimed(ts, ts[i].todo[0].d);
    hide Advance, Apart;
    forall j | 0 <= j < |ts| && j != i ensures Apart(n[i].own, ts[j].own) && Apart(ts[j].own, n[i].own) {
      assert Apart(ts[i].own, ts[j].own);
      assert !WaitsFor(ts, i, j);
      StepKeepsApart(ts[i], refused, ts[j].own);
    }
  }

  /** Whatever the calls are, no two threads ever hold the same lock, or are inside a start or stop of the same
      device. */
  lemma {:induction false} NothingIsShared(ts: seq<Thread>, schedule: seq<nat>)
    requires AllApart(ts) && IsSchedule(ts, schedule)
    ensures AllApart(After(ts, schedule))
    decreases |schedule|
  {
    if schedule != [] {
      hide Apart;
      StepStaysApart(ts, schedule[0]);
      NothingIsShared(Step(ts, schedule[0]), schedule[1..]);
    }
  }

  lemma LocksAreExclusive(programs: seq<seq<Op>>, schedule: seq<nat>, i: nat, j: nat)
    requires IsSchedule(Boot(programs), schedule) && i < |programs| && j < |programs| && i != j
    ensures var ts := After(Boot(programs), schedule);
      (forall l :: l in ts[i].own.held ==> l !in ts[j].own.held) && ts[i].own.claims !! ts[j].own.claims
  {
    NothingIsShared(Boot(programs), schedule);
    assert Apart(After(Boot(programs), schedule)[i].own, After(Boot(programs), schedule)[j].own);
  }

  /** A thread that holds something waits for one that, if it waits too, waits for a lock further up: of two threads at
      most one has claimed the device that the first asks for. */
  lemma WaitsUpwards(p: Policy, ts: seq<Thread>, i: nat, j: nat, k: nat)
    requires Inv(p, ts) && i < |ts| && j < |ts| && k < |ts| && WaitsFor(ts, i, j) && WaitsFor(ts, j, k)
    requires ts[i].own.held != []
    ensures Less(ts[i].todo[0].l, ts[j].todo[0].l)
  {
    assert Disciplined(p, ts[i].own, ts[i].todo, NOTHING) && Disciplined(p, ts[j].own, ts[j].todo, NOTHING);
    assert Apart(ts[i].own, ts[j].own) && Apart(ts[j].own, ts[k].own);
  }

  /** Along a cycle of waiting threads the locks waited for go strictly up. */
  lemma {:induction false} ChainGoesUp(p: Policy, ts: seq<Thread>, chain: seq<nat>, k: nat)
    requires Inv(p, ts) && IsWaitChain(ts, chain) && 0 < k < |chain| - 1 && ts[chain[0]].own.held != []
    ensures WaitsFor(ts, chain[0], chain[1]) && WaitsFor(ts, chain[k], chain[k + 1])
    ensures Less(ts[chain[0]].todo[0].l, ts[chain[k]].todo[0].l)
  {
    assert WaitsFor(ts, chain[k - 1], chain[k - 1 + 1]);
    if k > 1 {
      assert WaitsFor(ts, chain[k - 2], chain[k - 2 + 1]);
      ChainGoesUp(p, ts, chain, k - 1);
    }
    WaitsUpwards(p, ts, chain[k - 1], chain[k], chain[k + 1]);
  }

  lemma {:induction false} NoWaitCycle(p: Policy, ts: seq<Thread>, chain: seq<nat>)
    requires Inv(p, ts) && IsWaitChain(ts, chain) && |chain| >= 2
    ensures chain[0] != chain[|chain| - 1]
  {
    var last := |chain| - 1;
    assert WaitsFor(ts, chain[0], chain[0 + 1]);
    assert WaitsFor(ts, chain[last - 1], chain[last - 1 + 1]);
    if last > 1 && chain[0] == chain[last] {
      ChainGoesUp(p, ts, chain, last - 1);
      assert WaitsFor(ts, chain[last - 2], chain[last - 2 + 1]);
      WaitsUpwards(p, ts, chain[last - 1], chain[last], chain[1]);
    }
  }

  function Rank(l: Lock, depth: nat): nat {
    if l.Callback? then |l.d| else depth + Class(l)
  }

  predicate EntersBelow(t: Thread, depth: nat) {
    t.todo != [] && t.todo[0].Acquire? && t.todo[0].l.Callback? ==> |t.todo[0].l.d| <= depth
  }

  /** No callback mutex that a thread waits for lies deeper than this. */
  function Depth(ts: seq<Thread>): (d: nat)
    ensures forall i :: 0 <= i < |ts| ==> EntersBelow(ts[i], d)
  {
    if ts == [] then 0
    else
      var rest := Depth(ts[1..]);
      assert forall i :: 0 < i < |ts| ==> ts[i] == ts[1..][i - 1];
      if EntersBelow(ts[0], rest) then rest else |ts[0].todo[0].l.d|
  }

  /** Following waiting threads upwards ends at one that can go on. */
  lemma {:induction false} SomeoneCanStep(p: Policy, ts: seq<Thread>, i: nat)
    requires Inv(p, ts) && i < |ts| && ts[i].todo != [] && ts[i].own.held != []
    ensures exists r: nat :: CanStep(ts, r)
    decreases if ts[i].todo[0].Acquire? then Depth(ts) + 6 - Rank(ts[i].todo[0].l, Depth(ts)) else 0
  {
    if !CanStep(ts, i) {
      var j :| 0 <= j < |ts| && WaitsFor(ts, i, j);
      assert Disciplined(p, ts[j].own, ts[j].todo, NOTHING);
      if !CanStep(ts, j) {
        var k :| 0 <= k < |ts| && WaitsFor(ts, j, k);
        WaitsUpwards(p, ts, i, j, k);
        assert EntersBelow(ts[i], Depth(ts)) && EntersBelow(ts[j], Depth(ts));
        SomeoneCanStep(p, ts, j);
      }
    }
  }

  /** Whatever any number of threads call under either policy, no state that they can reach has a cycle of waiting
      threads. */
  lemma WaitForGraphIsAcyclic(p: Policy, programs: seq<seq<Op>>, schedule: seq<nat>, chain: seq<nat>)
    requires forall ops :: ops in programs ==> AllAllowed(p, ops, Nobody)
    requires IsSchedule(Boot(programs), schedule)
    requires |chain| >= 2 && IsWaitChain(After(Boot(programs), schedule), chain)
    ensures chain[0] != chain[|chain| - 1]
  {
    BootInv(p, programs);
    RunInv(p, Boot(programs), schedule);
    NoWaitCycle(p, After(Boot(programs), schedule), chain);
  }

  /** In such a state either every call has returned and every lock and every claim is given back, or some thread can
      go on. */
  lemma NeverDeadlocked(p: Policy, programs: seq<seq<Op>>, schedule: seq<nat>)
    requires forall ops :: ops in programs ==> AllAllowed(p, ops, Nobody)
    requires IsSchedule(Boot(programs), schedule)
    ensures var ts := After(Boot(programs), schedule); Finished(ts) || exists r: nat :: CanStep(ts, r)
  {
    BootInv(p, programs);
    RunInv(p, Boot(programs), schedule);
    var ts := After(Boot(programs), schedule);
    if i: nat :| i < |ts| && ts[i].todo != [] {
      if !CanStep(ts, i) {
        var j :| 0 <= j < |ts| && WaitsFor(ts, i, j);
        assert Disciplined(p, ts[j].own, ts[j].todo, NOTHING);
        SomeoneCanStep(p, ts, j);
      }
    } else {
      forall i | 0 <= i < |ts| ensures ts[i] == Thread([], NOTHING) {
        assert Disciplined(p, ts[i].own, ts[i].todo, NOTHING);
      }
    }
  }

  function Work(ts: seq<Thread>): nat {
    if ts == [] then 0 else |ts[0].todo| + Work(ts[1..])
  }

  lemma {:induction false} WorkAfterStep(ts: seq<Thread>, i: nat, t: Thread)
    requires i < |ts|
    ensures Work(ts[i := t]) == Work(ts) - |ts[i].todo| + |t.todo|
  {
    if i == 0 {
      assert ts[0 := t][1..] == ts[1..];
    } else {
      assert ts[i := t][1..] == ts[1..][i - 1 := t];
      WorkAfterStep(ts[1..], i - 1, t);
    }
  }

  /** Every step does some of the work, so no run goes on for ever, and a run that has ended early stops at a state
      where someone can go on: every scheduler brings all calls to an end. */
  lemma {:induction false} RunsEnd(ts: seq<Thread>, schedule: seq<nat>)
    requires IsSchedule(ts, schedule)
    ensures |schedule| + Work(After(ts, schedule)) <= Work(ts)
    decreases |schedule|
  {
    if schedule != [] {
      var i := schedule[0];
      WorkAfterStep(ts, i, Advance(ts[i], ts[i].todo[0].Claim? && Claimed(ts, ts[i].todo[0].d)));
      RunsEnd(Step(ts, i), schedule[1..]);
    }
  }

  // ---------------------------------------------------------------------------------------------
  // Why probes are restricted

  function HaveAll(a: Own, es: seq<Event>): Own
    decreases |es|
  {
    if es == [] then a else HaveAll(Have(a, es[0]), es[1..])
  }

  /** Nothing in the way of these events, while another thread has `other`. */
  predicate Clear(a: Own, es: seq<Event>, other: Own)
    decreases |es|
  {
    es == [] || (
      && (es[0].Acquire? ==> es[0].l !in other.held)
      && (es[0].Claim? ==> es[0].d !in a.claims && es[0].d !in other.claims)
      && Clear(Have(a, es[0]), es[1..], other))
  }

  function Times(i: nat, n: nat): (s: seq<nat>)
    ensures |s| == n
  {
    if n == 0 then [] else [i] + Times(i, n - 1)
  }

  /** Steps of thread `i` alone, one of two. */
  lemma {:induction false} StepsAlone(ts: seq<Thread>, i: nat, es: seq<Event>)
    requires |ts| == 2 && i < 2 && es <= ts[i].todo && Clear(ts[i].own, es, ts[1 - i].own)
    ensures IsSchedule(ts, Times(i, |es|))
    ensures After(ts, Times(i, |es|)) == ts[i := Thread(ts[i].todo[|es|..], HaveAll(ts[i].own, es))]
    decreases |es|
  {
    if es == [] {
      assert ts[i := ts[i]] == ts;
    } else {
      assert es[0] == ts[i].todo[0];
      assert CanStep(ts, i);
      var next := Step(ts, i);
      assert next[i] == Thread(ts[i].todo[1..], Have(ts[i].own, es[0]));
      StepsAlone(next, i, es[1..]);
      assert Times(i, |es|)[1..] == Times(i, |es[1..]|);
      assert next[i].todo[|es[1..]|..] == ts[i].todo[|es|..];
      assert next[i := After(next, Times(i, |es[1..]|))[i]] == ts[i := After(next, Times(i, |es[1..]|))[i]];
    }
  }

  lemma {:induction false} ScheduleThen(ts: seq<Thread>, first: seq<nat>, second: seq<nat>)
    requires IsSchedule(ts, first) && IsSchedule(After(ts, first), second)
    ensures IsSchedule(ts, first + second) && After(ts, first + second) == After(After(ts, first), second)
    decreases |first|
  {
    if first == [] {
      assert first + second == second;
    } else {
      assert (first + second)[1..] == first[1..] + second;
      ScheduleThen(Step(ts, first[0]), first[1..], second);
    }
  }

  /** Two threads that make these calls can get to where neither has finished and neither can go on. */
  ghost predicate CanDeadlock(a: Op, b: Op) {
    exists schedule ::
      var ts := Boot([[a], [b]]);
      IsSchedule(ts, schedule) &&
      forall i :: 0 <= i < 2 ==> After(ts, schedule)[i].todo != [] && !CanStep(After(ts, schedule), i)
  }

  /** The calls get this far, and then ask for this lock. */
  predicate Reaches(op: Op, es: seq<Event>, l: Lock) {
    es + [Acquire(l)] <= TraceAll([op])
  }

  lemma Standoff(a: Op, xs: seq<Event>, l: Lock, b: Op, ys: seq<Event>, m: Lock)
    requires Reaches(a, xs, l) && Reaches(b, ys, m)
    requires Clear(NOTHING, xs, NOTHING) && Clear(NOTHING, ys, HaveAll(NOTHING, xs))
    requires m in HaveAll(NOTHING, xs).held && l in HaveAll(NOTHING, ys).held
    ensures CanDeadlock(a, b)
  {
    hide TraceAll, IsSchedule, After, Times, HaveAll, Clear;
    var ts := Boot([[a], [b]]);
    assert xs <= ts[0].todo && ts[0].todo[|xs|] == (xs + [Acquire(l)])[|xs|];
    assert ys <= ts[1].todo && ts[1].todo[|ys|] == (ys + [Acquire(m)])[|ys|];
    StepsAlone(ts, 0, xs);
    var mid := After(ts, Times(0, |xs|));
    StepsAlone(mid, 1, ys);
    ScheduleThen(ts, Times(0, |xs|), Times(1, |ys|));
    var schedule := Times(0, |xs|) + Times(1, |ys|);
    var end := After(ts, schedule);
    assert WaitsFor(end, 0, 1) && WaitsFor(end, 1, 0);
    assert !CanStep(end, 0) && !CanStep(end, 1);
    hide WaitsFor, CanStep, Reaches, Boot;
    assert IsSchedule(ts, schedule);
  }

  predicate RunsCallback(op: Op) {
    op.Probe? || (op.Start? && op.go)
  }

  /** A callback of one device that makes one call, which runs a callback of another device. */
  predicate Nests(op: Op, d: Dev, other: Dev) {
    RunsCallback(op) && op.d == d && |op.body| == 1 && RunsCallback(op.body[0]) && op.body[0].d == other
  }

  function Length(op: Op): nat
    requires RunsCallback(op)
  {
    if op.Probe? then 0
    else |Around(Callback(op.d), TraceAll(op.body)) + Unclaiming(op.d) + Notify(op.ok, TraceAll(op.after))|
  }

  /** What comes before the callback. */
  function First(op: Op): seq<Event>
    requires RunsCallback(op)
  {
    if op.Probe? then Section(Mutex(op.d)) else [Acquire(Mutex(op.d)), Claim(op.d, Length(op)), Release(Mutex(op.d))]
  }

  lemma AroundOpens(first: seq<Event>, l: Lock, inner: seq<Event>, u: seq<Event>, n: seq<Event>)
    ensures first + [Acquire(l)] + inner <= first + (Around(l, inner) + u + n)
  {
    assert first + (Around(l, inner) + u + n) == (first + [Acquire(l)] + inner) + ([Release(l)] + u + n);
  }

  lemma CallbackIsNext(op: Op)
    requires RunsCallback(op)
    ensures First(op) + [Acquire(Callback(op.d))] + TraceAll(op.body) <= Trace(op)
  {
    hide TraceAll, Around, Notify, Unclaiming;
    var m := Section(Mutex(op.d));
    var inner := TraceAll(op.body);
    if op.Probe? {
      AroundOpens(m, Callback(op.d), inner, m, []);
      assert Trace(op) == m + (Around(Callback(op.d), inner) + m + []);
    } else {
      AroundOpens(First(op), Callback(op.d), inner, Unclaiming(op.d), Notify(op.ok, TraceAll(op.after)));
    }
  }

  /** What a thread does until it asks for the second callback mutex. */
  function UpTo(op: Op, d: Dev, other: Dev): seq<Event>
    requires Nests(op, d, other)
  {
    First(op) + ([Acquire(Callback(d))] + First(op.body[0]))
  }

  lemma OneCall(op: Op)
    ensures TraceAll([op]) == Trace(op)
  {
    hide Trace;
    assert [op][1..] == [];
    assert TraceAll([]) == [];
  }

  lemma Asks(op: Op, d: Dev, other: Dev)
    requires Nests(op, d, other)
    ensures Reaches(op, UpTo(op, d, other), Callback(other))
  {
    hide Trace, First, TraceAll;
    var b := op.body[0];
    CallbackIsNext(op);
    CallbackIsNext(b);
    OneCall(op);
    OneCall(b);
    assert op.body == [b];
    var f, g := First(op) + [Acquire(Callback(d))], First(b) + [Acquire(Callback(other))];
    PrefixOf(f, g, TraceAll(b.body), Trace(b), Trace(op));
    assert UpTo(op, d, other) + [Acquire(Callback(other))] == f + g;
  }

  lemma PrefixOf(f: seq<Event>, x: seq<Event>, y: seq<Event>, z: seq<Event>, t: seq<Event>)
    requires f + z <= t && x + y <= z
    ensures f + x <= t
  {
    assert x <= z;
    assert f + x <= f + z;
  }

  /** Devices claimed before the callback. */
  function Claims(op: Op): set<Dev>
    requires RunsCallback(op)
  {
    if op.Probe? then {} else {op.d}
  }

  lemma {:induction false} HaveAllThen(a: Own, xs: seq<Event>, ys: seq<Event>, other: Own)
    ensures HaveAll(a, xs + ys) == HaveAll(HaveAll(a, xs), ys)
    ensures Clear(a, xs, other) && Clear(HaveAll(a, xs), ys, other) ==> Clear(a, xs + ys, other)
    decreases |xs|
  {
    if xs == [] {
      assert xs + ys == ys;
    } else {
      assert (xs + ys)[1..] == xs[1..] + ys;
      HaveAllThen(Have(a, xs[0]), xs[1..], ys, other);
    }
  }

  lemma AfterFirst(op: Op, a: Own, other: Own)
    requires RunsCallback(op) && Mutex(op.d) !in other.held
    requires op.Start? ==> op.d !in a.claims && op.d !in other.claims
    ensures Clear(a, First(op), other) && HaveAll(a, First(op)) == Own(a.held, a.claims + Claims(op))
  {
    var m, b := Mutex(op.d), Holding(a, Mutex(op.d));
    var c := Own(b.held, a.claims + Claims(op));
    var es := First(op);
    assert WithoutLast(b.held, m) == a.held by { assert b.held[..|b.held| - 1] == a.held; }
    assert HaveAll(c, [Release(m)]) == Own(a.held, c.claims) && Clear(c, [Release(m)], other) by {
      assert [Release(m)][1..] == [];
    }
    if op.Probe? {
      assert es[1..] == [Release(m)] && b == c;
    } else {
      assert es[1..][1..] == [Release(m)] && Have(b, es[1]) == c;
    }
  }

  lemma WhatItHas(op: Op, d: Dev, other: Dev, them: Own)
    requires Nests(op, d, other) && d != other
    requires them.held in {[], [Callback(other)]}
    requires op.Start? ==> d !in them.claims
    requires op.body[0].Start? ==> other !in them.claims
    ensures Clear(NOTHING, UpTo(op, d, other), them)
    ensures HaveAll(NOTHING, UpTo(op, d, other)) == Own([Callback(d)], Claims(op) + Claims(op.body[0]))
  {
    var f, c, g := First(op), [Acquire(Callback(d))], First(op.body[0]);
    var a := Own([], Claims(op));
    AfterFirst(op, NOTHING, them);
    assert HaveAll(NOTHING, f) == a;
    assert HaveAll(a, c) == Own([Callback(d)], a.claims) && Clear(a, c, them) by {
      assert c[1..] == [] && [] + [Callback(d)] == [Callback(d)];
    }
    AfterFirst(op.body[0], Own([Callback(d)], a.claims), them);
    HaveAllThen(a, c, g, them);
    HaveAllThen(NOTHING, f, c + g, them);
  }

  /** Two threads, each of which runs a callback of one device that needs a callback of the other's device, can deadlock
      when no device is started by both. So it takes a probe: two probes that start each other's device, two starts that
      probe each other's device, or a probe within a probe, against a start that starts what is probed first. */
  lemma CrossingProbesCanDeadlock(a: Op, b: Op, d: Dev, other: Dev)
    requires d != other && Nests(a, d, other) && Nests(b, other, d)
    requires !(a.Start? && b.body[0].Start?) && !(b.Start? && a.body[0].Start?)
    ensures CanDeadlock(a, b)
  {
    hide First, HaveAll, Clear;
    Asks(a, d, other);
    Asks(b, other, d);
    WhatItHas(a, d, other, NOTHING);
    WhatItHas(b, other, d, HaveAll(NOTHING, UpTo(a, d, other)));
    Standoff(a, UpTo(a, d, other), Callback(other), b, UpTo(b, other, d), Callback(d));
  }
}
