/** Modules and the drivers that they bring: module.cpp, and the ledger of driver.cpp.

  Starting a module constructs its drivers and puts them into the ledger, one behind the other. Stopping it takes them
  out again, the last one first, and destructs them.

  A failed `check` stops the system: a call that runs into one has the outcome `Aborted`. Start and stop callbacks of
  modules, and allocations, succeed or fail as their parameters say.
*/
module ModuleDrivers {
  import opened Wrappers

  type Mod = nat
  type Drv = nat

  datatype Outcome = Done | Failed | InvalidState | Aborted

  datatype ModuleInternal = ModuleInternal(started: bool, driversReady: bool)

  datatype DriverInternal = DriverInternal(useCount: int, owner: Option<Mod>)

  // ---------------------------------------------------------------------------------------------
  // The driver ledger

  /** The ledger without some drivers, in the same order. */
  function Without(l: seq<Drv>, ds: set<Drv>): seq<Drv> {
    if l == [] then [] else (if l[0] in ds then [] else [l[0]]) + Without(l[1..], ds)
  }

  function Count(l: seq<Drv>, d: Drv): nat {
    multiset(l)[d]
  }

  predicate Distinct(ds: seq<Drv>) {
    forall i, j :: 0 <= i < j < |ds| ==> ds[i] != ds[j]
  }

  function SetOf(ds: seq<Drv>): set<Drv> {
    set d | d in ds
  }

  lemma {:induction false} CountWithout(l: seq<Drv>, ds: set<Drv>, d: Drv)
    ensures Count(Without(l, ds), d) == if d in ds then 0 else Count(l, d)
  {
    if l != [] {
      CountWithout(l[1..], ds, d);
      assert l == [l[0]] + l[1..];
    }
  }

  lemma {:induction false} NothingToTakeOut(l: seq<Drv>, ds: set<Drv>)
    requires forall d :: d in ds ==> d !in l
    ensures Without(l, ds) == l
  {
    if l != [] {
      assert forall d :: d in ds ==> d !in l[1..];
      NothingToTakeOut(l[1..], ds);
    }
  }

  lemma {:induction false} WithoutMore(a: seq<Drv>, b: seq<Drv>, ds: set<Drv>)
    ensures Without(a + b, ds) == Without(a, ds) + Without(b, ds)
  {
    if a == [] {
      assert a + b == b;
    } else {
      assert (a + b)[1..] == a[1..] + b;
      WithoutMore(a[1..], b, ds);
    }
  }

  /** Erasing the one occurrence of a driver takes it out. */
  lemma {:induction false} EraseTheOne(l: seq<Drv>, d: Drv)
    requires Count(l, d) == 1
    ensures d in l && Erase(l, d) == Without(l, {d})
  {
    assert l == [l[0]] + l[1..];
    if l[0] == d {
      assert d !in l[1..];
      NothingToTakeOut(l[1..], {d});
    } else {
      EraseTheOne(l[1..], d);
    }
  }

  lemma {:induction false} CountDistinct(ds: seq<Drv>, d: Drv)
    requires Distinct(ds)
    ensures Count(ds, d) == if d in ds then 1 else 0
  {
    if ds != [] {
      CountDistinct(ds[1..], d);
      assert ds == [ds[0]] + ds[1..];
    }
  }

  lemma CountMore(a: seq<Drv>, b: seq<Drv>, d: Drv)
    ensures Count(a + b, d) == Count(a, d) + Count(b, d)
  {
  }

  /** Taking out what was appended gives the ledger back. */
  lemma AppendedAndTakenOut(l: seq<Drv>, ds: seq<Drv>)
    requires forall d :: d in ds ==> d !in l
    ensures Without(l + ds, SetOf(ds)) == l
  {
    WithoutMore(l, ds, SetOf(ds));
    NothingToTakeOut(l, SetOf(ds));
    AllTakenOut(ds, SetOf(ds));
  }

  lemma {:induction false} AllTakenOut(l: seq<Drv>, ds: set<Drv>)
    requires forall d :: d in l ==> d in ds
    ensures Without(l, ds) == []
  {
    if l != [] {
      assert forall d :: d in l[1..] ==> d in l;
      AllTakenOut(l[1..], ds);
    }
  }

  // ---------------------------------------------------------------------------------------------
  // The kernel's modules

  /** Which drivers each module brings. No driver belongs to two modules or twice to one. */
  type Drivers = map<Mod, seq<Drv>>

  ghost predicate Separate(drivers: Drivers) {
    (forall m :: m in drivers ==> Distinct(drivers[m])) &&
    forall m, n, d :: m in drivers && n in drivers && d in drivers[m] && d in drivers[n] ==> m == n
  }

  predicate UsedIn(internals: map<Drv, DriverInternal>, d: Drv) {
    d in internals && internals[d].useCount != 0
  }

  /** The last of these drivers that is in use. */
  predicate StopsAt(internals: map<Drv, DriverInternal>, ds: seq<Drv>, i: nat)
    requires i < |ds|
  {
    UsedIn(internals, ds[i]) && forall j :: i < j < |ds| ==> !UsedIn(internals, ds[j])
  }

  lemma NoneRemoved(l: seq<Drv>, internals: map<Drv, DriverInternal>, ds: seq<Drv>)
    ensures Without(l, SetOf(ds[|ds|..])) == l && internals - SetOf(ds[|ds|..]) == internals
  {
    NothingToTakeOut(l, SetOf(ds[|ds|..]));
  }

  lemma NothingWasThere(l: seq<Drv>, ds: seq<Drv>)
    requires forall d :: d in ds ==> Count(l, d) == 0
    ensures Without(l, SetOf(ds)) == l
  {
    forall d | d in SetOf(ds) ensures d !in l { assert Count(l, d) == 0; }
    NothingToTakeOut(l, SetOf(ds));
  }

  /** What is left of the ledger and of the drivers without those of one module. */
  lemma TakenOut(l: seq<Drv>, internals: map<Drv, DriverInternal>, ds: seq<Drv>)
    ensures forall d :: Count(Without(l, SetOf(ds)), d) == if d in ds then 0 else Count(l, d)
    ensures forall d :: d in ds ==> d !in Without(l, SetOf(ds))
    ensures forall d :: d !in ds ==> (d in internals <==> d in internals - SetOf(ds))
    ensures forall d :: d !in ds && d in internals ==> (internals - SetOf(ds))[d] == internals[d]
  {
    forall d ensures Count(Without(l, SetOf(ds)), d) == if d in ds then 0 else Count(l, d) {
      CountWithout(l, SetOf(ds), d);
    }
    forall d | d in ds ensures d !in Without(l, SetOf(ds)) { CountWithout(l, SetOf(ds), d); }
  }

  /** The step of the loop in module_stop, on the ledger and on the drivers. */
  lemma OneMoreRemoved(l: seq<Drv>, internals: map<Drv, DriverInternal>, ds: seq<Drv>, i: nat)
    requires Distinct(ds) && i < |ds| && Count(l, ds[i]) == 1 && ds[i] in internals
    ensures ds[i] in Without(l, SetOf(ds[i + 1..])) && ds[i] in internals - SetOf(ds[i + 1..])
    ensures Erase(Without(l, SetOf(ds[i + 1..])), ds[i]) == Without(l, SetOf(ds[i..]))
    ensures (internals - SetOf(ds[i + 1..])) - {ds[i]} == internals - SetOf(ds[i..])
  {
    hide Without, Erase, Count;
    var d, rest := ds[i], SetOf(ds[i + 1..]);
    assert d !in rest;
    CountWithout(l, rest, d);
    EraseTheOne(Without(l, rest), d);
    TakeOutOneMore(l, rest, d);
    assert SetOf(ds[i..]) == rest + {d} by { assert ds[i..] == [d] + ds[i + 1..]; }
    hide SetOf;
    assert (internals - rest) - {d} == internals - (rest + {d});
  }

  class Kernel {
    const drivers: Drivers
    /** A module without an entry is not constructed. */
    var modules: map<Mod, ModuleInternal>
    var moduleLedger: seq<Mod>
    /** A driver without an entry is not constructed. */
    var internals: map<Drv, DriverInternal>
    var ledger: seq<Drv>

    predicate Ready(m: Mod)
      reads this
    {
      m in modules && modules[m].driversReady
    }

    /** The drivers of a module are there, each of them once and its own, exactly while it has them ready. */
    ghost predicate OwnsDrivers(m: Mod)
      requires m in drivers
      reads this
    {
      (Ready(m) ==> modules[m].started) &&
      forall d :: d in drivers[m] ==>
        Count(ledger, d) == (if Ready(m) then 1 else 0) &&
          (Ready(m) ==> d in internals && internals[d].owner == Some(m))
    }

    ghost predicate Valid()
      reads this
    {
      Separate(drivers) && forall m :: m in drivers ==> OwnsDrivers(m)
    }

    predicate InUse(d: Drv)
      reads this
    {
      UsedIn(internals, d)
    }

    constructor (drivers: Drivers)
      requires Separate(drivers)
      ensures Valid() && this.drivers == drivers && ledger == []
    {
      this.drivers := drivers;
      modules, moduleLedger, internals, ledger := map[], [], map[], [];
    }

    /** driver_construct and driver_add, with the owner set in between. */
    method ConstructAdd(d: Drv, m: Mod, memory: bool) returns (ok: bool)
      modifies this`internals, this`ledger
      ensures ok == memory
      ensures ok ==> internals == old(internals)[d := DriverInternal(0, Some(m))] && ledger == old(ledger) + [d]
      ensures !ok ==> internals == old(internals) && ledger == old(ledger)
    {
      if !memory { return false; }
      internals := internals[d := DriverInternal(0, None)];
      internals := internals[d := internals[d].(owner := Some(m))];
      ledger := ledger + [d];
      return true;
    }

    /** driver_remove_destruct. A driver that is in use has left the ledger all the same when its destruction fails. */
    method RemoveDestruct(d: Drv) returns (ok: bool)
      requires d in ledger ==> d in internals
      modifies this`internals, this`ledger
      ensures ok <==> old(d in ledger && !InUse(d))
      ensures ledger == old(Erase(ledger, d))
      ensures internals == if ok then old(internals) - {d} else old(internals)
    {
      EraseAbsent(ledger, d);
      if d !in ledger { return false; }
      ledger := Erase(ledger, d);
      if internals[d].useCount != 0 { return false; }
      internals := internals - {d};
      return true;
    }

    /** module_start. `out` are the drivers for which there is no memory. */
    method Start(m: Mod, callbackFails: bool, out: set<Drv>) returns (r: Outcome)
      requires Valid() && m in drivers
      modifies this`modules, this`internals, this`ledger
      ensures r != Aborted ==> Valid()
      ensures old(m !in modules) ==> r == InvalidState && Same(old(modules), old(internals), old(ledger))
      ensures old(m in modules && modules[m].started) ==> r == Done && Same(old(modules), old(internals), old(ledger))
      ensures old(m in modules && !modules[m].started) ==>
        r != InvalidState && (r == Failed <==> callbackFails) &&
        (r == Failed ==> Same(old(modules), old(internals), old(ledger))) &&
        (r == Aborted <==> !callbackFails && exists d :: d in drivers[m] && d in out) &&
        (r == Done ==>
          modules == old(modules)[m := ModuleInternal(true, drivers[m] != [])] && ledger == old(ledger) + drivers[m] &&
          internals.Keys == old(internals).Keys + SetOf(drivers[m]) &&
          forall d :: d in internals ==>
            internals[d] == if d in drivers[m] then DriverInternal(0, Some(m)) else old(internals)[d])
    {
      if m !in modules { return InvalidState; }
      if modules[m].started { return Done; }
      if callbackFails { return Failed; }
      ghost var l0, i0 := ledger, internals;
      var ds := drivers[m];
      assert OwnsDrivers(m);
      r := AddAll(m, out);
      if r == Aborted { return; }
      modules := modules[m := ModuleInternal(true, ds != [])];
      forall n | n in drivers ensures OwnsDrivers(n) {
        assert old(OwnsDrivers(n));
        forall d | d in drivers[n]
          ensures Count(ledger, d) == Count(l0, d) + (if n == m then 1 else 0)
          ensures n != m ==> (d in internals <==> d in i0) && (d in i0 ==> internals[d] == i0[d])
        {
          CountMore(l0, ds, d);
          CountDistinct(ds, d);
        }
      }
    }

    /** The loop of module_start. */
    method AddAll(m: Mod, out: set<Drv>) returns (r: Outcome)
      requires m in drivers
      modifies this`internals, this`ledger
      ensures r == Aborted <==> exists d :: d in drivers[m] && d in out
      ensures r != Aborted ==> r == Done && ledger == old(ledger) + drivers[m]
      ensures r != Aborted ==> internals == Constructed(old(internals), drivers[m], m)
    {
      var ds := drivers[m];
      NoneConstructed(internals, ds[..0], m);
      hide Constructed;
      for i := 0 to |ds|
        invariant ledger == old(ledger) + ds[..i] && internals == Constructed(old(internals), ds[..i], m)
        invariant forall j :: 0 <= j < i ==> ds[j] !in out
      {
        var ok := ConstructAdd(ds[i], m, ds[i] !in out);
        if !ok {
          assert ds[i] in ds;
          return Aborted;
        }
        assert ds[..i + 1] == ds[..i] + [ds[i]];
        OneMoreConstructed(old(internals), ds[..i], ds[i], m);
      }
      assert ds[..|ds|] == ds;
      r := Done;
    }

    ghost predicate Same(m: map<Mod, ModuleInternal>, i: map<Drv, DriverInternal>, l: seq<Drv>)
      reads this
    {
      modules == m && internals == i && ledger == l
    }

    /** module_stop: the drivers are taken away from the last to the first, unless one is in use. A module whose own
      stop callback fails stays started, without its drivers. */
    method Stop(m: Mod, callbackFails: bool) returns (r: Outcome)
      requires Valid() && m in drivers
      modifies this`modules, this`internals, this`ledger
      ensures r != Aborted ==> Valid()
      ensures old(m !in modules) ==> r == InvalidState && Same(old(modules), old(internals), old(ledger))
      ensures old(m in modules && !modules[m].started) ==> r == Done && Same(old(modules), old(internals), old(ledger))
      ensures old(m in modules && modules[m].started) ==>
        (r == Aborted <==> old(Ready(m) && exists d :: d in drivers[m] && InUse(d))) &&
        (r != Aborted ==> (r == if callbackFails then Failed else Done) &&
                          modules == old(modules)[m := ModuleInternal(callbackFails, false)] &&
                          ledger == old(Without(ledger, SetOf(drivers[m]))) &&
                          internals == old(if Ready(m) then internals - SetOf(drivers[m]) else internals) &&
                          forall d :: d in drivers[m] ==> d !in ledger)
    {
      hide Without, SetOf, Count, Separate, UsedIn;
      if m !in modules { return InvalidState; }
      if !modules[m].started { return Done; }
      r := ReleaseDrivers(m);
      if r == Aborted { return; }
      ghost var l := ledger;
      forall n | n in drivers ensures n != m ==> OwnsDrivers(n) { assert OwnsDrivers(n); }
      assert OwnsDrivers(m);
      if callbackFails { return Failed; }
      modules := modules[m := modules[m].(started := false)];
    }

    /** The first half of module_stop, up to the module's own callback. */
    method ReleaseDrivers(m: Mod) returns (r: Outcome)
      requires Valid() && m in drivers && m in modules && modules[m].started
      modifies this`modules, this`internals, this`ledger
      ensures r == Aborted <==> old(Ready(m) && exists d :: d in drivers[m] && InUse(d))
      ensures r != Aborted ==> r == Done && Valid() && modules == old(modules)[m := ModuleInternal(true, false)]
      ensures r != Aborted ==>
        internals == old(if Ready(m) then internals - SetOf(drivers[m]) else internals) &&
        ledger == old(Without(ledger, SetOf(drivers[m]))) && forall d :: d in drivers[m] ==> d !in ledger
    {
      hide Without, SetOf, Count;
      ghost var l0, i0 := ledger, internals;
      var ds := drivers[m];
      assert OwnsDrivers(m);
      TakenOut(l0, i0, ds);
      if !modules[m].driversReady {
        NothingWasThere(l0, ds);
        assert modules[m := ModuleInternal(true, false)] == modules;
        return Done;
      }
      r := RemoveAll(m);
      if r == Aborted { return; }
      modules := modules[m := modules[m].(driversReady := false)];
      forall n | n in drivers ensures OwnsDrivers(n) {
        assert old(OwnsDrivers(n));
        assert forall d :: d in drivers[n] ==> (d in ds <==> n == m);
      }
    }

    /** The loop of module_stop: the last driver first, up to the first one that is in use, which has left the ledger
      by then. */
    method RemoveAll(m: Mod) returns (r: Outcome)
      requires Valid() && m in drivers && Ready(m)
      modifies this`internals, this`ledger
      ensures r == Aborted <==> old(exists d :: d in drivers[m] && InUse(d))
      ensures r != Aborted ==> r == Done && ledger == old(Without(ledger, SetOf(drivers[m])))
      ensures r != Aborted ==> internals == old(internals) - SetOf(drivers[m])
      ensures r == Aborted ==>
        exists i ::
          && 0 <= i < |drivers[m]| && StopsAt(old(internals), drivers[m], i)
          && ledger == old(Without(ledger, SetOf(drivers[m][i..])))
          && internals == old(internals) - SetOf(drivers[m][i + 1..])
    {
      ghost var l0, i0 := ledger, internals;
      assert OwnsDrivers(m);
      var ds := drivers[m];
      assert Distinct(ds);
      assert forall d :: d in ds ==> Count(l0, d) == 1 && d in i0;
      hide Without, Erase, SetOf, Separate, OwnsDrivers, Count, Distinct;
      NoneRemoved(l0, i0, ds);
      for i := |ds| downto 0
        invariant ledger == Without(l0, SetOf(ds[i..])) && internals == i0 - SetOf(ds[i..])
        invariant forall j :: i <= j < |ds| ==> !UsedIn(i0, ds[j])
      {
        assert ds[i] in ds;
        OneMoreRemoved(l0, i0, ds, i);
        var ok := RemoveDestruct(ds[i]);
        if !ok {
          assert StopsAt(i0, ds, i);
          return Aborted;
        }
      }
      assert ds[0..] == ds;
      assert forall d :: d in ds ==> !UsedIn(i0, d);
      r := Done;
    }

    /** driver_bind and driver_unbind, once the driver's callback has succeeded. */
    method CountUse(d: Drv, change: int)
      requires Valid() && d in internals
      modifies this`internals
      ensures Valid() &&
        internals == old(internals)[d := old(internals)[d].(useCount := old(internals)[d].useCount + change)]
    {
      hide Count;
      internals := internals[d := internals[d].(useCount := internals[d].useCount + change)];
      forall m | m in drivers ensures OwnsDrivers(m) { assert old(OwnsDrivers(m)); }
    }

    /** module_ensure_started */
    method EnsureStarted(m: Mod, memory: bool, callbackFails: bool, out: set<Drv>) returns (r: Outcome)
      requires Valid() && m in drivers
      modifies this
      ensures r != Aborted ==> Valid()
      ensures r == Done ==> m in modules && modules[m].started
      ensures memory || old(m in modules) ==>
        r != InvalidState &&
          moduleLedger == if m in old(moduleLedger) then old(moduleLedger) else old(moduleLedger) + [m]
      ensures !memory && old(m !in modules) ==> r == Failed && Same(old(modules), old(internals), old(ledger))
    {
      if m !in modules {
        if !memory { return Failed; }
        Construct(m);
      }
      if m !in moduleLedger { moduleLedger := moduleLedger + [m]; }
      assert Valid() by { forall n | n in drivers ensures OwnsDrivers(n) { } }
      if modules[m].started { return Done; }
      r := Start(m, callbackFails, out);
    }

    method Construct(m: Mod)
      requires Valid() && m in drivers && m !in modules
      modifies this`modules
      ensures Valid() && modules == old(modules)[m := ModuleInternal(false, false)]
    {
      hide Count;
      modules := modules[m := ModuleInternal(false, false)];
      forall n | n in drivers ensures OwnsDrivers(n) { assert old(OwnsDrivers(n)); }
    }

    /** module_ensure_destructed: none of the module's drivers is left. */
    method EnsureDestructed(m: Mod, callbackFails: bool) returns (r: Outcome)
      requires Valid() && m in drivers
      modifies this
      ensures r != Aborted ==> Valid()
      ensures r == Aborted <==> old(Ready(m) && exists d :: d in drivers[m] && InUse(d))
      ensures r == Done ==> m !in modules && forall d :: d in drivers[m] ==> d !in ledger
      ensures r == Done && old(m in modules) ==> m !in moduleLedger
    {
      hide SetOf, Without, Separate, UsedIn;
      assert OwnsDrivers(m);
      if m !in modules {
        forall d | d in drivers[m] ensures d !in ledger { assert Count(ledger, d) == 0; }
        return Done;
      }
      if modules[m].started {
        r := Stop(m, callbackFails);
        if r != Done { return; }
      }
      assert OwnsDrivers(m);
      forall d | d in drivers[m] ensures d !in ledger { assert Count(ledger, d) == 0; }
      moduleLedger := Without(moduleLedger, {m});
      CountWithout(old(moduleLedger), {m}, m);
      assert m !in moduleLedger;
      Destruct(m);
      r := Done;
    }

    method Destruct(m: Mod)
      requires Valid() && m in drivers && m in modules && !Ready(m)
      modifies this`modules
      ensures Valid() && modules == old(modules) - {m}
    {
      hide Count;
      modules := modules - {m};
      forall n | n in drivers ensures OwnsDrivers(n) { assert old(OwnsDrivers(n)); }
    }
  }

  lemma {:induction false} TakeOutOneMore(l: seq<Drv>, ds: set<Drv>, d: Drv)
    ensures Without(Without(l, ds), {d}) == Without(l, ds + {d})
  {
    if l != [] {
      TakeOutOneMore(l[1..], ds, d);
      WithoutMore(if l[0] in ds then [] else [l[0]], Without(l[1..], ds), {d});
    }
  }

  /** The drivers that were constructed for a module, on top of those there were. */
  function Constructed(i: map<Drv, DriverInternal>, ds: seq<Drv>, m: Mod): map<Drv, DriverInternal> {
    i + map d | d in ds :: DriverInternal(0, Some(m))
  }

  lemma NoneConstructed(i: map<Drv, DriverInternal>, ds: seq<Drv>, m: Mod)
    requires ds == []
    ensures Constructed(i, ds, m) == i
  {
  }

  lemma OneMoreConstructed(i: map<Drv, DriverInternal>, ds: seq<Drv>, d: Drv, m: Mod)
    ensures Constructed(i, ds + [d], m) == Constructed(i, ds, m)[d := DriverInternal(0, Some(m))]
  {
  }
}
