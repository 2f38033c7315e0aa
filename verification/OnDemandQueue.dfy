/** The design that file_ops.cpp and MainDispatcher.cpp share: a FIFO under one mutex, served by a worker that is
  started when something is queued while none is running, and that ends itself when it finds the queue empty. The
  client that starts a worker first joins the previous one, and keeps the mutex while it does.

  A state holds the queue, every worker there ever was and the clients that are in the middle of queueing. `accepted`
  and `taken` record what was queued successfully and what a worker took; no step reads them.
*/
module OnDemandQueue {
  import opened Wrappers

  type Client = nat

  datatype ClientPc<T> =
    | Locking(item: T)   // about to lock the queue
    | Joining(item: T)   // holds the mutex, joins the previous worker
    | Starting(item: T)  // holds the mutex, starts a worker

  datatype WorkerPc<T> = Ready | Running(item: T) | Exiting | Ended

  datatype State<T> = State(
    mutex: Option<Client>, queue: seq<T>, running: bool, stale: Option<nat>,
    workers: seq<WorkerPc<T>>, clients: map<Client, ClientPc<T>>, accepted: seq<T>, taken: seq<T>)

  datatype Action<T> =
    | Request(t: Client, item: T)
    | Append(t: Client)
    | Join(t: Client)
    | Start(t: Client, ok: bool)
    | Pop(w: nat)
    | Done(w: nat)
    | End(w: nat)

  function Init<T>(): State<T> {
    State(None, [], false, None, [], map[], [], [])
  }

  predicate IsWorker<T>(s: State<T>, w: nat) {
    w < |s.workers|
  }

  predicate Enabled<T(==)>(s: State<T>, a: Action<T>) {
    match a
    case Request(t, _) => t !in s.clients
    case Append(t) => t in s.clients && s.clients[t].Locking? && s.mutex == None
    case Join(t) =>
      && t in s.clients && s.clients[t].Joining?
      && s.stale.Some? && IsWorker(s, s.stale.value) && s.workers[s.stale.value] == Ended
    case Start(t, _) => t in s.clients && s.clients[t].Starting?
    case Pop(w) => IsWorker(s, w) && s.workers[w] == Ready && s.mutex == None
    case Done(w) => IsWorker(s, w) && s.workers[w].Running?
    case End(w) => IsWorker(s, w) && s.workers[w] == Exiting
  }

  function Next<T(==)>(s: State<T>, a: Action<T>): State<T>
    requires Enabled(s, a)
  {
    match a
    case Request(t, item) => s.(clients := s.clients[t := Locking(item)])
    case Append(t) =>
      var item := s.clients[t].item;
      if s.running then
        s.(queue := s.queue + [item], clients := s.clients - {t}, accepted := s.accepted + [item])
      else
        s.(queue := s.queue + [item], mutex := Some(t),
           clients := s.clients[t := if s.stale.Some? then Joining(item) else Starting(item)])
    case Join(t) => s.(stale := None, clients := s.clients[t := Starting(s.clients[t].item)])
    case Start(t, true) =>
      s.(mutex := None, running := true, stale := Some(|s.workers|), workers := s.workers + [Ready],
         clients := s.clients - {t}, accepted := s.accepted + [s.clients[t].item])
    case Start(t, false) => s.(mutex := None, queue := [], clients := s.clients - {t})
    case Pop(w) =>
      if s.queue == [] then s.(running := false, workers := s.workers[w := Exiting])
      else s.(queue := s.queue[1..], workers := s.workers[w := Running(s.queue[0])], taken := s.taken + [s.queue[0]])
    case Done(w) => s.(workers := s.workers[w := Ready])
    case End(w) => s.(workers := s.workers[w := Ended])
  }

  // ---------------------------------------------------------------------------------------------
  // The invariant

  predicate Holds<T>(p: ClientPc<T>) {
    p.Joining? || p.Starting?
  }

  predicate Active<T(==)>(p: WorkerPc<T>) {
    p == Ready || p.Running?
  }

  /** Only the newest worker may still be alive, it is active while `running` is set, and `stale` names it until it
      is joined. */
  predicate WorkersInv<T(==)>(s: State<T>) {
    && (forall w :: 0 <= w < |s.workers| - 1 ==> s.workers[w] == Ended)
    && (s.running <==> |s.workers| > 0 && Active(s.workers[|s.workers| - 1]))
    && (s.stale == None && |s.workers| > 0 ==> s.workers[|s.workers| - 1] == Ended)
    && (s.stale.Some? ==> s.stale.value + 1 == |s.workers|)
  }

  /** While the mutex is free, no worker means no queue, and what was accepted is what was taken, then what waits.
      While a client holds it, its own item is all there is in the queue. */
  predicate QueueInv<T(==)>(s: State<T>) {
    && (s.mutex == None ==> (!s.running ==> s.queue == []) && s.accepted == s.taken + s.queue)
    && (forall t :: t in s.clients && Holds(s.clients[t]) ==> s.mutex == Some(t))
    && (s.mutex.Some? ==>
          && s.mutex.value in s.clients && Holds(s.clients[s.mutex.value])
          && !s.running && s.queue == [s.clients[s.mutex.value].item] && s.accepted == s.taken
          && (s.clients[s.mutex.value].Joining? <==> s.stale.Some?))
  }

  ghost predicate Inv<T>(s: State<T>) {
    WorkersInv(s) && QueueInv(s)
  }

  lemma StepKeepsWorkers<T>(s: State<T>, a: Action<T>)
    requires Inv(s) && Enabled(s, a)
    ensures WorkersInv(Next(s, a))
  {
  }

  lemma StepKeepsQueue<T>(s: State<T>, a: Action<T>)
    requires Inv(s) && Enabled(s, a)
    ensures QueueInv(Next(s, a))
  {
    if a.Pop? && s.queue != [] {
      assert s.taken + s.queue == (s.taken + [s.queue[0]]) + s.queue[1..];
    }
  }

  ghost predicate IsRun<T(!new)>(ss: seq<State<T>>, run: seq<Action<T>>) {
    && |ss| == |run| + 1
    && ss[0] == Init()
    && forall i :: 0 <= i < |run| ==> Enabled(ss[i], run[i]) && ss[i + 1] == Next(ss[i], run[i])
  }

  lemma {:induction false} RunKeepsInv<T(!new)>(ss: seq<State<T>>, run: seq<Action<T>>, i: nat)
    requires IsRun(ss, run) && i < |ss|
    ensures Inv(ss[i])
  {
    if i > 0 {
      RunKeepsInv(ss, run, i - 1);
      StepKeepsWorkers(ss[i - 1], run[i - 1]);
      StepKeepsQueue(ss[i - 1], run[i - 1]);
    }
  }

  // ---------------------------------------------------------------------------------------------
  // What every run gives

  /** What waits to be run. */
  function Pending<T>(s: State<T>): seq<T> {
    if |s.taken| <= |s.accepted| then s.accepted[|s.taken|..] else []
  }

  /** Items run at most once and in the order they were accepted, by one worker at a time; and whenever the mutex is
      free, whatever waits is in the queue and has a worker. */
  lemma RunsInOrder<T(!new)>(ss: seq<State<T>>, run: seq<Action<T>>, i: nat)
    requires IsRun(ss, run) && i < |ss|
    ensures var s := ss[i];
      && s.taken <= s.accepted
      && (s.mutex == None ==> Pending(s) == s.queue)
      && (s.mutex == None && !s.running ==> s.queue == [])
      && (forall v, w ::
            (0 <= v < |s.workers| && 0 <= w < |s.workers| && Active(s.workers[v]) && Active(s.workers[w])) ==> v == w)
      && (s.running <==> exists w :: 0 <= w < |s.workers| && Active(s.workers[w]))
  {
    RunKeepsInv(ss, run, i);
  }

  /** Every step, seen from outside, is nothing, one item added at the back, or the front item taken. */
  lemma RefinesFifo<T(!new)>(ss: seq<State<T>>, run: seq<Action<T>>, i: nat)
    requires IsRun(ss, run) && i < |run|
    ensures var s, s' := ss[i], ss[i + 1];
      match run[i]
      case Append(t) => Pending(s') == if s.running then Pending(s) + [s.clients[t].item] else Pending(s)
      case Start(t, ok) => Pending(s') == if ok then Pending(s) + [s.clients[t].item] else Pending(s)
      case Pop(w) =>
        if Pending(s) == [] then Pending(s') == [] && s'.workers[w] == Exiting
        else Pending(s') == Pending(s)[1..] && s'.workers[w] == Running(Pending(s)[0])
      case _ => Pending(s') == Pending(s)
  {
    RunKeepsInv(ss, run, i);
    RunKeepsInv(ss, run, i + 1);
  }

  /** When no worker can be started, the client's own item is the only one that is lost. */
  lemma FailedStartLosesOnlyItsItem<T(!new)>(ss: seq<State<T>>, run: seq<Action<T>>, i: nat, t: Client)
    requires IsRun(ss, run) && i < |run| && run[i] == Start(t, false)
    ensures ss[i].queue == [ss[i].clients[t].item] && Pending(ss[i]) == [] && Pending(ss[i + 1]) == []
    ensures ss[i + 1].accepted == ss[i].accepted && !ss[i + 1].running
  {
    RunKeepsInv(ss, run, i);
  }

  /** The client that holds the mutex is never stuck: it can start its worker, or join the old one, or the old one is
      past its last use of the mutex and can end without it. */
  lemma MutexHolderProceeds<T(!new)>(ss: seq<State<T>>, run: seq<Action<T>>, i: nat)
    requires IsRun(ss, run) && i < |ss| && ss[i].mutex.Some?
    ensures var s, t := ss[i], ss[i].mutex.value;
      || Enabled(s, Start(t, true))
      || Enabled(s, Join(t))
      || (s.stale.Some? && Enabled(s, End(s.stale.value)) && Enabled(Next(s, End(s.stale.value)), Join(t)))
  {
    RunKeepsInv(ss, run, i);
    var s := ss[i];
    if s.clients[s.mutex.value].Joining? {
      var w := s.stale.value;
      assert !Active(s.workers[w]);
    }
  }

  /** Nothing is stranded: while something waits, some client or worker can take a step, and once nobody can, every
      accepted item has been taken. */
  lemma NothingStranded<T(!new)>(ss: seq<State<T>>, run: seq<Action<T>>, i: nat)
    requires IsRun(ss, run) && i < |ss|
    requires ss[i].clients == map[]
    requires forall w :: 0 <= w < |ss[i].workers| ==> ss[i].workers[w] == Ended
    ensures ss[i].taken == ss[i].accepted && ss[i].queue == []
  {
    RunKeepsInv(ss, run, i);
  }

  lemma WaitingHasANextStep<T(!new)>(ss: seq<State<T>>, run: seq<Action<T>>, i: nat)
    requires IsRun(ss, run) && i < |ss| && ss[i].mutex == None && ss[i].queue != []
    ensures exists w :: IsWorker(ss[i], w) && (Enabled(ss[i], Pop(w)) || Enabled(ss[i], Done(w)))
  {
    RunKeepsInv(ss, run, i);
    var w := |ss[i].workers| - 1;
    assert IsWorker(ss[i], w) && Active(ss[i].workers[w]);
    assert Enabled(ss[i], Pop(w)) || Enabled(ss[i], Done(w));
  }

  // ---------------------------------------------------------------------------------------------
  // The linked list, as it is updated in place under the mutex

  class Node<T> {
    const value: T
    var next: Node?<T>

    constructor (value: T)
      ensures this.value == value && next == null
    {
      this.value, next := value, null;
    }
  }

  ghost function Values<T>(ns: seq<Node<T>>): seq<T> {
    seq(|ns|, i requires 0 <= i < |ns| => ns[i].value)
  }

  class WorkerQueue<T> {
    var head: Node?<T>
    var tail: Node?<T>
    var running: bool
    ghost var nodes: seq<Node<T>>

    ghost predicate Linked()
      reads this, nodes
    {
      && (forall i, j :: 0 <= i < j < |nodes| ==> nodes[i] != nodes[j])
      && (forall i, j :: 0 <= i && j == i + 1 && j < |nodes| ==> nodes[i].next == nodes[j])
      && (nodes != [] ==> nodes[|nodes| - 1].next == null)
      && (head == null <==> nodes == [])
      && (nodes != [] ==> head == nodes[0])
      && tail == (if nodes == [] then null else nodes[|nodes| - 1])
    }

    /** What holds whenever the mutex is free. */
    ghost predicate Valid()
      reads this, nodes
    {
      Linked() && (!running ==> nodes == [])
    }

    ghost function Contents(): seq<T>
      reads this
    {
      Values(nodes)
    }

    constructor ()
      ensures Valid() && Contents() == [] && !running
    {
      head, tail, running, nodes := null, null, false, [];
    }

    /** The critical section of file_ops_queue and of dispatch; `canStart` tells whether a worker can be started. */
    method Queue(item: T, canStart: bool) returns (ok: bool)
      requires Valid()
      modifies this, tail
      ensures Valid()
      ensures ok <==> old(running) || canStart
      ensures running <==> ok
      ensures Contents() == if ok then old(Contents()) + [item] else []
      ensures !ok ==> old(Contents()) == []
    {
      var node := new Node(item);
      if tail != null {
        tail.next := node;
      } else {
        head := node;
      }
      tail := node;
      nodes := nodes + [node];
      assert Contents() == old(Contents()) + [item];
      if !running {
        if !canStart {
          head, tail, nodes := null, null, [];
          return false;
        }
        running := true;
      }
      ok := true;
    }

    /** pop_or_stop and popOrStop. */
    method PopOrStop() returns (node: Node?<T>)
      requires Valid() && running
      modifies this
      ensures Valid()
      ensures running <==> node != null
      ensures if old(Contents()) == [] then node == null && Contents() == []
              else node != null && node.value == old(Contents())[0] && Contents() == old(Contents())[1..]
    {
      node := head;
      if node != null {
        assert |nodes| > 1 ==> node.next == nodes[1];
        head := node.next;
        nodes := nodes[1..];
        if head == null {
          tail := null;
        }
      } else {
        running := false;
      }
    }
  }
}
