/** The completion links of file_ops.cpp, on top of the on-demand worker queue, step by step.

  A link is shared by its subscription and by every item that names it, so that a subscriber can leave while its work
  is still queued. One action is one critical section of the queue mutex or of a link mutex. The thread that drops the
  last share of a link deletes it in the same action: nobody else can reach the link between the two.

  A subscription is only used by the client that owns it, as its API demands.

  The invariant counts the shares of a link: one for the subscription, one for each item that names it in the queue
  or in the hands of the worker, one for each client that has not queued its item yet, and one for each client that
  could not and is about to give its share up. While a link is subscribed, what was submitted is dropped, pending,
  completed or polled.

  Every step moves shares from one of these places to another, or takes one away together with the count.
*/
module FileOpsSteps {
  import opened Wrappers
  import Q = OnDemandQueue

  type Client = nat
  type LinkId = nat

  /** The owner, and which of its subscriptions. */
  type Subscription = (Client, nat)

  datatype Item = Item(id: nat, link: Option<LinkId>)

  /** `submitted`, `dropped` and `polled` count what happened to the link so far; no step reads them. */
  datatype Link = Link(
    sub: Subscription, owners: int, subscribed: bool, completed: nat, bit: bool, freed: bool,
    submitted: nat, dropped: nat, polled: nat)

  /** Where a client is that is neither idle nor in the middle of queueing. */
  datatype Pc =
    | Dropping(link: LinkId)      // could not start a worker, about to release the link
    | Unsubscribing(link: LinkId) // the subscription forgot the link, the link still counts as subscribed
    | AwaitPoll(link: LinkId)     // await is about to poll
    | AwaitWait(link: LinkId)     // await found nothing, and is about to wait for its bit

  datatype State = State(
    q: Q.State<Item>, links: seq<Link>, subs: map<Subscription, LinkId>, pcs: map<Client, Pc>, nextId: nat)

  datatype Action =
    | Subscribe(t: Client, sub: Subscription)
    | Share(t: Client, via: Option<Subscription>)
    | Core(core: Q.Action<Item>)
    | Complete(w: nat)
    | Drop(t: Client)
    | Unsubscribe(t: Client, sub: Subscription)
    | Sever(t: Client)
    | Poll(t: Client, sub: Subscription)
    | Await(t: Client, sub: Subscription)
    | AwaitStep(t: Client)
    | Wake(t: Client, timedOut: bool)

  // ---------------------------------------------------------------------------------------------
  // The critical sections of a link, as functions on values

  function NewLink(sub: Subscription): Link {
    Link(sub, 1, true, 0, false, false, 0, 0, 0)
  }

  function ShareLink(l: Link): Link {
    l.(owners := l.owners + 1, submitted := l.submitted + 1)
  }

  /** Gives one share up; the last one deletes the link. */
  function Release(l: Link): Link {
    l.(owners := l.owners - 1, freed := l.owners == 1 || l.freed)
  }

  function CompleteLink(l: Link): Link {
    Release(if l.subscribed then l.(completed := l.completed + 1, bit := true) else l)
  }

  function DropLink(l: Link): Link {
    Release(l.(dropped := l.dropped + 1))
  }

  function SeverLink(l: Link): Link {
    Release(l.(subscribed := false, bit := false))
  }

  function PollLink(l: Link): Link {
    if l.completed > 0 then l.(completed := l.completed - 1, polled := l.polled + 1) else l
  }

  // ---------------------------------------------------------------------------------------------
  // The state machine

  function Init(): State {
    State(Q.Init(), [], map[], map[], 0)
  }

  predicate Idle(s: State, t: Client) {
    t !in s.pcs && t !in s.q.clients
  }

  /** The client is idle and `sub` is a subscription of its own that is subscribed. */
  predicate Owns(s: State, t: Client, sub: Subscription) {
    Idle(s, t) && sub.0 == t && sub in s.subs && s.subs[sub] < |s.links|
  }

  predicate Enabled(s: State, a: Action) {
    match a
    case Subscribe(t, sub) => Idle(s, t) && sub.0 == t && sub !in s.subs
    case Share(t, via) => if via.Some? then Owns(s, t, via.value) else Idle(s, t)
    case Core(core) => !core.Request? && !core.Done? && Q.Enabled(s.q, core)
    case Complete(w) =>
      && Q.Enabled(s.q, Q.Done(w))
      && (s.q.workers[w].item.link.Some? ==> s.q.workers[w].item.link.value < |s.links|)
    case Drop(t) => t in s.pcs && s.pcs[t].Dropping? && s.pcs[t].link < |s.links|
    case Unsubscribe(t, sub) => Owns(s, t, sub)
    case Sever(t) => t in s.pcs && s.pcs[t].Unsubscribing? && s.pcs[t].link < |s.links|
    case Poll(t, sub) => Owns(s, t, sub)
    case Await(t, sub) => Owns(s, t, sub)
    case AwaitStep(t) => t in s.pcs && s.pcs[t].AwaitPoll? && s.pcs[t].link < |s.links|
    case Wake(t, timedOut) =>
      && t in s.pcs && s.pcs[t].AwaitWait? && s.pcs[t].link < |s.links|
      && (timedOut || s.links[s.pcs[t].link].bit)
  }

  function SetLink(s: State, l: LinkId, link: Link): State
    requires l < |s.links|
  {
    s.(links := s.links[l := link])
  }

  function Next(s: State, a: Action): State
    requires Enabled(s, a)
  {
    match a
    case Subscribe(t, sub) => s.(links := s.links + [NewLink(sub)], subs := s.subs[sub := |s.links|])
    case Share(t, via) =>
      if via.None? then
        s.(q := Q.Next(s.q, Q.Request(t, Item(s.nextId, None))), nextId := s.nextId + 1)
      else
        var l := s.subs[via.value];
        SetLink(s, l, ShareLink(s.links[l]))
        .(q := Q.Next(s.q, Q.Request(t, Item(s.nextId, Some(l)))), nextId := s.nextId + 1)
    case Core(core) =>
      var s' := s.(q := Q.Next(s.q, core));
      if core.Start? && !core.ok && s.q.clients[core.t].item.link.Some? then
        s'.(pcs := s.pcs[core.t := Dropping(s.q.clients[core.t].item.link.value)])
      else s'
    case Complete(w) =>
      var s' := s.(q := Q.Next(s.q, Q.Done(w)));
      (match s.q.workers[w].item.link
       case None => s'
       case Some(l) => SetLink(s', l, CompleteLink(s.links[l])))
    case Drop(t) =>
      var l := s.pcs[t].link;
      SetLink(s, l, DropLink(s.links[l])).(pcs := s.pcs - {t})
    case Unsubscribe(t, sub) => s.(subs := s.subs - {sub}, pcs := s.pcs[t := Unsubscribing(s.subs[sub])])
    case Sever(t) =>
      var l := s.pcs[t].link;
      SetLink(s, l, SeverLink(s.links[l])).(pcs := s.pcs - {t})
    case Poll(t, sub) => SetLink(s, s.subs[sub], PollLink(s.links[s.subs[sub]]))
    case Await(t, sub) => s.(pcs := s.pcs[t := AwaitPoll(s.subs[sub])])
    case AwaitStep(t) =>
      var l := s.pcs[t].link;
      SetLink(s, l, PollLink(s.links[l]))
      .(pcs := if s.links[l].completed > 0 then s.pcs - {t} else s.pcs[t := AwaitWait(l)])
    case Wake(t, timedOut) =>
      var l := s.pcs[t].link;
      if timedOut then s.(pcs := s.pcs - {t})
      else SetLink(s, l, s.links[l].(bit := false)).(pcs := s.pcs[t := AwaitPoll(l)])
  }

  /** The link an action reads or writes, if any. */
  function Touched(s: State, a: Action): Option<LinkId>
    requires Enabled(s, a)
  {
    match a
    case Share(_, Some(sub)) => Some(s.subs[sub])
    case Complete(w) => s.q.workers[w].item.link
    case Drop(t) => Some(s.pcs[t].link)
    case Sever(t) => Some(s.pcs[t].link)
    case Poll(_, sub) => Some(s.subs[sub])
    case AwaitStep(t) => Some(s.pcs[t].link)
    case Wake(t, _) => Some(s.pcs[t].link)
    case _ => None
  }

  // ---------------------------------------------------------------------------------------------
  // Who names a link

  /** The item a worker is running, if any. */
  function InFlight(q: Q.State<Item>): seq<Item> {
    if |q.workers| > 0 && q.workers[|q.workers| - 1].Running? then [q.workers[|q.workers| - 1].item] else []
  }

  /** Every item that has reached the queue and is not completed, oldest first. */
  function Unfinished(q: Q.State<Item>): seq<Item> {
    InFlight(q) + q.queue
  }

  function Naming(items: seq<Item>, l: LinkId): nat {
    if items == [] then 0
    else (if items[0].link == Some(l) then 1 else 0) + Naming(items[1..], l)
  }

  lemma {:induction false} NamingConcat(xs: seq<Item>, ys: seq<Item>, l: LinkId)
    ensures Naming(xs + ys, l) == Naming(xs, l) + Naming(ys, l)
  {
    if xs == [] {
      assert xs + ys == ys;
    } else {
      NamingConcat(xs[1..], ys, l);
      assert (xs + ys)[1..] == xs[1..] + ys;
    }
  }

  /** The clients whose item counts for the link and is not in the queue: not yet, or no longer. */
  function Before(q: Q.State<Item>, l: LinkId): set<Client> {
    set t | t in q.clients && q.clients[t].Locking? && q.clients[t].item.link == Some(l)
  }

  function After(pcs: map<Client, Pc>, l: LinkId): set<Client> {
    set t | t in pcs && pcs[t] == Dropping(l)
  }

  function Sharers(s: State, l: LinkId): nat {
    Naming(Unfinished(s.q), l) + |Before(s.q, l)| + |After(s.pcs, l)|
  }

  // ---------------------------------------------------------------------------------------------
  // The invariant

  function One(b: bool): nat {
    if b then 1 else 0
  }

  /** The share count is exact, the link goes with the last share, and while it is subscribed every submission is
      accounted for. */
  predicate LinkInv(s: State, l: LinkId)
    requires l < |s.links|
  {
    var link := s.links[l];
    && link.owners == One(link.subscribed) + Sharers(s, l)
    && (link.freed <==> link.owners == 0)
    && (link.subscribed ==> link.submitted == link.owners - 1 + link.dropped + link.completed + link.polled)
  }

  /** A subscription and its link name each other, until its owner is in the middle of unsubscribing it. */
  predicate SubsInv(s: State) {
    && (forall sub :: sub in s.subs ==>
          s.subs[sub] < |s.links| && s.links[s.subs[sub]].sub == sub && s.links[s.subs[sub]].subscribed)
    && (forall l :: 0 <= l < |s.links| && s.links[l].subscribed ==>
          var sub := s.links[l].sub;
          (sub in s.subs && s.subs[sub] == l) || (sub.0 in s.pcs && s.pcs[sub.0] == Unsubscribing(l)))
  }

  predicate PcInv(s: State, t: Client, p: Pc) {
    && p.link < |s.links|
    && t !in s.q.clients
    && (p.Unsubscribing? ==> s.links[p.link].sub.0 == t && s.links[p.link].subscribed
                             && !(s.links[p.link].sub in s.subs && s.subs[s.links[p.link].sub] == p.link))
    && (p.AwaitPoll? || p.AwaitWait? ==>
          s.links[p.link].sub.0 == t && s.links[p.link].sub in s.subs && s.subs[s.links[p.link].sub] == p.link)
    && (p.AwaitWait? && s.links[p.link].completed > 0 ==> s.links[p.link].bit)
  }

  predicate PcsInv(s: State) {
    forall t :: t in s.pcs ==> PcInv(s, t, s.pcs[t])
  }

  predicate ItemInv(n: nat, item: Item) {
    item.link.Some? ==> item.link.value < n
  }

  /** Items name links that exist. */
  predicate ItemsBelow(q: Q.State<Item>, n: nat) {
    && (forall i :: 0 <= i < |q.queue| ==> ItemInv(n, q.queue[i]))
    && (forall w :: 0 <= w < |q.workers| && q.workers[w].Running? ==> ItemInv(n, q.workers[w].item))
    && (forall t :: t in q.clients ==> ItemInv(n, q.clients[t].item))
  }

  predicate ItemsInv(s: State) {
    ItemsBelow(s.q, |s.links|)
  }

  ghost predicate Inv(s: State) {
    && Q.Inv(s.q)
    && SubsInv(s) && PcsInv(s) && ItemsInv(s)
    && forall l :: 0 <= l < |s.links| ==> LinkInv(s, l)
  }

  // ---------------------------------------------------------------------------------------------
  // How the steps of the queue move items

  lemma QueueStepMovesItems(q: Q.State<Item>, core: Q.Action<Item>)
    requires Q.Inv(q) && Q.Enabled(q, core)
    ensures var q' := Q.Next(q, core);
      match core
      case Append(t) => Unfinished(q') == Unfinished(q) + [q.clients[t].item]
      case Start(t, false) => Unfinished(q) == [q.clients[t].item] && Unfinished(q') == []
      case Done(w) => Unfinished(q) == [q.workers[w].item] + Unfinished(q')
      case _ => Unfinished(q') == Unfinished(q)
  {
    var q' := Q.Next(q, core);
    if core.Append? {
      assert InFlight(q') == InFlight(q);
    } else if core.Pop? && q.queue != [] {
      assert InFlight(q) == [] && InFlight(q') == [q.queue[0]];
      assert [q.queue[0]] + q.queue[1..] == q.queue;
    }
  }

  lemma QueueStepMovesClients(q: Q.State<Item>, core: Q.Action<Item>, l: LinkId)
    requires Q.Enabled(q, core)
    ensures var q' := Q.Next(q, core);
      match core
      case Append(t) =>
        Before(q', l) == Before(q, l) - {t} && (t in Before(q, l) <==> q.clients[t].item.link == Some(l))
      case Request(t, item) =>
        Before(q', l) == (if item.link == Some(l) then Before(q, l) + {t} else Before(q, l)) && t !in Before(q, l)
      case _ => Before(q', l) == Before(q, l)
  {
  }

  lemma QueueStepKeepsInv(q: Q.State<Item>, core: Q.Action<Item>)
    requires Q.Inv(q) && Q.Enabled(q, core)
    ensures Q.Inv(Q.Next(q, core))
  {
    hide Q.Next, Q.Enabled;
    Q.StepKeepsWorkers(q, core);
    Q.StepKeepsQueue(q, core);
  }

  /** The action of the queue that an action takes along, if any. */
  function CoreOf(s: State, a: Action): Option<Q.Action<Item>>
    requires Enabled(s, a)
  {
    match a
    case Core(core) => Some(core)
    case Complete(w) => Some(Q.Done(w))
    case Share(t, via) => Some(Q.Request(t, Item(s.nextId, if via.None? then None else Some(s.subs[via.value]))))
    case _ => None
  }

  lemma QueueAfter(s: State, a: Action)
    requires Enabled(s, a)
    ensures CoreOf(s, a).Some? ==> Q.Enabled(s.q, CoreOf(s, a).value) && Next(s, a).q == Q.Next(s.q, CoreOf(s, a).value)
    ensures CoreOf(s, a).None? ==> Next(s, a).q == s.q
  {
    hide Q.Next;
  }

  // ---------------------------------------------------------------------------------------------
  // Every action keeps the invariant

  /** By how much an action changes the number of sharers of a link. */
  function Delta(s: State, a: Action, l: LinkId): int
    requires Enabled(s, a)
  {
    if Touched(s, a) != Some(l) then 0
    else if a.Share? then 1
    else if a.Complete? || a.Drop? then -1
    else 0
  }

  lemma AfterAfter(s: State, a: Action, l: LinkId)
    requires Inv(s) && Enabled(s, a)
    ensures var pcs' := Next(s, a).pcs;
      After(pcs', l) ==
        if a.Core? && a.core.Start? && !a.core.ok && s.q.clients[a.core.t].item.link == Some(l)
        then After(s.pcs, l) + {a.core.t}
        else if a.Drop? && s.pcs[a.t].link == l then After(s.pcs, l) - {a.t}
        else After(s.pcs, l)
    ensures a.Core? && a.core.Start? && !a.core.ok ==> a.core.t !in After(s.pcs, l)
    ensures a.Drop? ==> (a.t in After(s.pcs, l) <==> s.pcs[a.t].link == l)
  {
    hide Q.Next, LinkInv, SubsInv, ItemsInv, Q.WorkersInv, Q.QueueInv;
  }

  lemma CoreSharers(s: State, a: Action, l: LinkId)
    requires Inv(s) && Enabled(s, a) && a.Core?
    ensures Sharers(Next(s, a), l) == Sharers(s, l)
  {
    hide Q.Next, LinkInv, SubsInv, ItemsInv, PcsInv, After, Before, Unfinished, Q.WorkersInv, Q.QueueInv;
    AfterAfter(s, a, l);
    QueueStepMovesItems(s.q, a.core);
    QueueStepMovesClients(s.q, a.core, l);
    if a.core.Append? {
      NamingConcat(Unfinished(s.q), [s.q.clients[a.core.t].item], l);
    }
  }

  lemma SharersAfter(s: State, a: Action, l: LinkId)
    requires Inv(s) && Enabled(s, a)
    ensures Sharers(Next(s, a), l) == Sharers(s, l) + Delta(s, a, l)
  {
    hide Q.Next, LinkInv, SubsInv, ItemsInv, PcsInv, After, Before, Unfinished, Q.WorkersInv, Q.QueueInv;
    if a.Core? {
      CoreSharers(s, a, l);
    } else {
      AfterAfter(s, a, l);
      QueueAfter(s, a);
      if CoreOf(s, a).Some? {
        QueueStepMovesItems(s.q, CoreOf(s, a).value);
        QueueStepMovesClients(s.q, CoreOf(s, a).value, l);
      }
    }
  }

  /** What an action makes of the link it touches. */
  function LinkAfter(s: State, a: Action, link: Link): Link {
    match a
    case Share(_, _) => ShareLink(link)
    case Complete(_) => CompleteLink(link)
    case Drop(_) => DropLink(link)
    case Sever(_) => SeverLink(link)
    case Poll(_, _) => PollLink(link)
    case AwaitStep(_) => PollLink(link)
    case Wake(_, timedOut) => if timedOut then link else link.(bit := false)
    case _ => link
  }

  lemma LinksAfter(s: State, a: Action)
    requires Inv(s) && Enabled(s, a)
    ensures |Next(s, a).links| == |s.links| + (if a.Subscribe? then 1 else 0)
    ensures a.Subscribe? ==> Next(s, a).links == s.links + [NewLink(a.sub)]
    ensures !a.Subscribe? && Touched(s, a).None? ==> Next(s, a).links == s.links
    ensures !a.Subscribe? && Touched(s, a).Some? ==>
      Next(s, a).links == s.links[Touched(s, a).value := LinkAfter(s, a, s.links[Touched(s, a).value])]
  {
    hide Q.Next, LinkInv, SubsInv, ItemsInv, PcsInv, Q.WorkersInv, Q.QueueInv;
  }

  /** Nobody names a link that does not exist yet. */
  lemma NobodyNamesTheNext(s: State)
    requires ItemsInv(s) && PcsInv(s)
    ensures Sharers(s, |s.links|) == 0
  {
    var l := |s.links|;
    forall i | 0 <= i < |Unfinished(s.q)| ensures Unfinished(s.q)[i].link != Some(l) {
      if i < |InFlight(s.q)| {
        assert Unfinished(s.q)[i] == s.q.workers[|s.q.workers| - 1].item;
      } else {
        assert Unfinished(s.q)[i] == s.q.queue[i - |InFlight(s.q)|];
      }
    }
    NamedByNone(Unfinished(s.q), l);
    assert Before(s.q, l) == {};
    assert After(s.pcs, l) == {};
  }

  lemma {:induction false} NamedByNone(items: seq<Item>, l: LinkId)
    requires forall i :: 0 <= i < |items| ==> items[i].link != Some(l)
    ensures Naming(items, l) == 0
  {
    if items != [] {
      NamedByNone(items[1..], l);
    }
  }

  /** A live subscription is behind every use of its link by its owner. */
  lemma OwnerSeesSubscribed(s: State, a: Action)
    requires Inv(s) && Enabled(s, a) && Touched(s, a).Some?
    ensures Touched(s, a).value < |s.links|
    ensures (a.Share? || a.Poll? || a.AwaitStep? || a.Wake? || a.Sever?) ==> s.links[Touched(s, a).value].subscribed
  {
    hide Q.Next, LinkInv, ItemsInv, Q.WorkersInv, Q.QueueInv;
    if !a.Complete? && !a.Share? && !a.Poll? {
      assert PcInv(s, a.t, s.pcs[a.t]);
    }
  }

  lemma ShareIsCounted(s: State, a: Action)
    requires Inv(s) && Enabled(s, a) && (a.Complete? || a.Drop?) && Touched(s, a).Some?
    ensures Sharers(s, Touched(s, a).value) >= 1
  {
    hide LinkInv, SubsInv, ItemsInv;
    var l := Touched(s, a).value;
    if a.Drop? {
      assert a.t in After(s.pcs, l);
    } else {
      QueueStepMovesItems(s.q, Q.Done(a.w));
      assert Unfinished(s.q)[0].link == Some(l);
    }
  }

  lemma StepKeepsLink(s: State, a: Action, l: LinkId)
    requires Inv(s) && Enabled(s, a) && l < |Next(s, a).links|
    ensures LinkInv(Next(s, a), l)
  {
    hide Next, Enabled, SubsInv, ItemsInv, PcsInv, Sharers, Q.WorkersInv, Q.QueueInv;
    LinksAfter(s, a);
    SharersAfter(s, a, l);
    if l == |s.links| {
      NobodyNamesTheNext(s);
    } else {
      assert LinkInv(s, l);
      if Touched(s, a) == Some(l) {
        OwnerSeesSubscribed(s, a);
      }
    }
  }

  /** The client that takes an action; workers are not clients. */
  function Actor(a: Action): Option<Client> {
    match a
    case Complete(_) => None
    case Core(core) => if core.Append? || core.Join? || core.Start? then Some(core.t) else None
    case _ => Some(a.t)
  }

  lemma SubsAfter(s: State, a: Action)
    requires Enabled(s, a)
    ensures Next(s, a).subs ==
            if a.Subscribe? then s.subs[a.sub := |s.links|]
            else if a.Unsubscribe? then s.subs - {a.sub}
            else s.subs
  {
    hide Q.Next;
  }

  lemma OtherClientsStay(s: State, a: Action, t: Client)
    requires Enabled(s, a) && Actor(a) != Some(t)
    ensures t in Next(s, a).pcs <==> t in s.pcs
    ensures t in s.pcs ==> Next(s, a).pcs[t] == s.pcs[t]
    ensures t in Next(s, a).q.clients <==> t in s.q.clients
  {
  }

  /** The owner's own calls go to the link of a subscription of its own. */
  lemma OwnersSubscription(s: State, a: Action)
    requires Inv(s) && Enabled(s, a) && Touched(s, a).Some? && !a.Complete? && !a.Drop?
    ensures Touched(s, a).value < |s.links| && s.links[Touched(s, a).value].sub.0 == a.t
  {
    hide LinkInv, ItemsInv, Q.WorkersInv, Q.QueueInv, Sharers, Q.Enabled;
    if a.AwaitStep? || a.Wake? || a.Sever? {
      assert PcInv(s, a.t, s.pcs[a.t]);
    }
  }

  lemma OtherPcKept(s: State, a: Action, t: Client)
    requires Inv(s) && Enabled(s, a) && t in s.pcs && Actor(a) != Some(t)
    ensures t in Next(s, a).pcs && PcInv(Next(s, a), t, Next(s, a).pcs[t])
  {
    hide Next, LinkInv, ItemsInv, SubsInv, Q.WorkersInv, Q.QueueInv, Sharers, Q.Enabled;
    LinksAfter(s, a);
    SubsAfter(s, a);
    OtherClientsStay(s, a, t);
    assert PcInv(s, t, s.pcs[t]);
    if Touched(s, a).Some? && !a.Complete? && !a.Drop? {
      OwnersSubscription(s, a);
    }
  }

  lemma ActorPcKept(s: State, a: Action, t: Client)
    requires Inv(s) && Enabled(s, a) && Actor(a) == Some(t) && t in Next(s, a).pcs
    ensures PcInv(Next(s, a), t, Next(s, a).pcs[t])
  {
    hide LinkInv, Q.WorkersInv, Q.QueueInv, Sharers;
    if t in s.pcs {
      assert PcInv(s, t, s.pcs[t]);
    }
  }

  lemma StepKeepsPcs(s: State, a: Action)
    requires Inv(s) && Enabled(s, a)
    ensures PcsInv(Next(s, a))
  {
    hide Next, LinkInv, ItemsInv, SubsInv, Q.WorkersInv, Q.QueueInv, Sharers, Enabled, PcInv;
    forall t | t in Next(s, a).pcs ensures PcInv(Next(s, a), t, Next(s, a).pcs[t]) {
      if Actor(a) == Some(t) {
        ActorPcKept(s, a, t);
      } else {
        OtherClientsStay(s, a, t);
        OtherPcKept(s, a, t);
      }
    }
  }

  lemma QueueStepKeepsItems(q: Q.State<Item>, core: Q.Action<Item>, n: nat)
    requires ItemsBelow(q, n) && Q.Enabled(q, core) && (core.Request? ==> ItemInv(n, core.item))
    ensures ItemsBelow(Q.Next(q, core), n)
  {
  }

  lemma ItemsBelowMore(q: Q.State<Item>, n: nat, m: nat)
    requires ItemsBelow(q, n) && n <= m
    ensures ItemsBelow(q, m)
  {
  }

  lemma StepKeepsItems(s: State, a: Action)
    requires Inv(s) && Enabled(s, a)
    ensures ItemsInv(Next(s, a))
  {
    hide Next, LinkInv, PcsInv, SubsInv, Q.Next, Q.WorkersInv, Q.QueueInv, ItemsBelow;
    LinksAfter(s, a);
    QueueAfter(s, a);
    if CoreOf(s, a).Some? {
      QueueStepKeepsItems(s.q, CoreOf(s, a).value, |s.links|);
    }
    ItemsBelowMore(Next(s, a).q, |s.links|, |Next(s, a).links|);
  }

  /** The links that a client is in the middle of unsubscribing come and go with its two steps. */
  lemma UnsubscribingAfter(s: State, a: Action, t: Client, l: LinkId)
    requires Inv(s) && Enabled(s, a)
    ensures t in s.pcs && s.pcs[t] == Unsubscribing(l) && !(a.Sever? && a.t == t) ==>
              t in Next(s, a).pcs && Next(s, a).pcs[t] == Unsubscribing(l)
    ensures a.Unsubscribe? && a.t == t && s.subs[a.sub] == l ==>
              t in Next(s, a).pcs && Next(s, a).pcs[t] == Unsubscribing(l)
  {
    hide Q.Next, LinkInv, ItemsInv, SubsInv, Q.WorkersInv, Q.QueueInv;
    if t in s.pcs { assert PcInv(s, t, s.pcs[t]); }
  }

  /** Whoever sees the link as subscribed: the subscription itself, or its owner in the middle of leaving. */
  predicate Named(s: State, l: LinkId)
    requires l < |s.links|
  {
    var sub := s.links[l].sub;
    (sub in s.subs && s.subs[sub] == l) || (sub.0 in s.pcs && s.pcs[sub.0] == Unsubscribing(l))
  }

  lemma StepKeepsNamed(s: State, a: Action, l: LinkId)
    requires Inv(s) && Enabled(s, a) && l < |s.links| && l < |Next(s, a).links| && Next(s, a).links[l].subscribed
    ensures Named(Next(s, a), l)
  {
    hide Next, LinkInv, ItemsInv, Q.WorkersInv, Q.QueueInv, Sharers, Q.Enabled, Q.Next;
    LinksAfter(s, a);
    SubsAfter(s, a);
    assert Named(s, l);
    UnsubscribingAfter(s, a, s.links[l].sub.0, l);
    if a.Sever? {
      assert PcInv(s, a.t, s.pcs[a.t]);
    }
  }

  lemma StepKeepsSubscribed(s: State, a: Action, sub: Subscription)
    requires Inv(s) && Enabled(s, a) && sub in Next(s, a).subs
    ensures var l := Next(s, a).subs[sub];
      l < |Next(s, a).links| && Next(s, a).links[l].sub == sub && Next(s, a).links[l].subscribed
  {
    hide Next, LinkInv, ItemsInv, Q.WorkersInv, Q.QueueInv, Sharers, Q.Enabled, Q.Next;
    LinksAfter(s, a);
    SubsAfter(s, a);
    if a.Sever? {
      assert PcInv(s, a.t, s.pcs[a.t]);
    }
  }

  lemma StepKeepsSubs(s: State, a: Action)
    requires Inv(s) && Enabled(s, a)
    ensures SubsInv(Next(s, a))
  {
    hide Next, Inv, Enabled;
    var s' := Next(s, a);
    forall sub | sub in s'.subs
      ensures s'.subs[sub] < |s'.links| && s'.links[s'.subs[sub]].sub == sub && s'.links[s'.subs[sub]].subscribed
    {
      StepKeepsSubscribed(s, a, sub);
    }
    forall l | 0 <= l < |s'.links| && s'.links[l].subscribed ensures Named(s', l) {
      if l < |s.links| { StepKeepsNamed(s, a, l); } else { NewLinkIsNamed(s, a); }
    }
  }

  lemma NewLinkIsNamed(s: State, a: Action)
    requires Inv(s) && Enabled(s, a)
    ensures |Next(s, a).links| > |s.links| ==> |Next(s, a).links| == |s.links| + 1 && Named(Next(s, a), |s.links|)
  {
    hide Next, LinkInv, ItemsInv, Q.WorkersInv, Q.QueueInv, Sharers, Q.Enabled, Q.Next;
    LinksAfter(s, a);
    SubsAfter(s, a);
  }

  lemma StepKeepsInv(s: State, a: Action)
    requires Inv(s) && Enabled(s, a)
    ensures Inv(Next(s, a))
  {
    hide Next, Enabled, LinkInv, PcsInv, SubsInv, ItemsInv, Q.Inv, Q.Next;
    QueueAfter(s, a);
    if CoreOf(s, a).Some? {
      QueueStepKeepsInv(s.q, CoreOf(s, a).value);
    }
    StepKeepsSubs(s, a);
    StepKeepsPcs(s, a);
    StepKeepsItems(s, a);
    forall l | 0 <= l < |Next(s, a).links| ensures LinkInv(Next(s, a), l) {
      StepKeepsLink(s, a, l);
    }
  }

  lemma InitInv()
    ensures Inv(Init())
  {
  }

  // ---------------------------------------------------------------------------------------------
  // A client that awaits a completion

  predicate Awaits(s: State, t: Client, l: LinkId) {
    t in s.pcs && s.pcs[t] in {AwaitPoll(l), AwaitWait(l)} && l < |s.links|
  }

  /** Nobody else consumes a completion of a link that its owner awaits. */
  lemma OthersDoNotPoll(s: State, a: Action, t: Client, l: LinkId)
    requires Inv(s) && Enabled(s, a) && Awaits(s, t, l) && Actor(a) != Some(t)
    ensures Awaits(Next(s, a), t, l) && Next(s, a).links[l].polled == s.links[l].polled
  {
    hide Next, LinkInv, ItemsInv, SubsInv, Q.WorkersInv, Q.QueueInv, Sharers, Enabled;
    LinksAfter(s, a);
    OtherClientsStay(s, a, t);
    assert PcInv(s, t, s.pcs[t]);
    if Touched(s, a).Some? && !a.Complete? && !a.Drop? {
      OwnersSubscription(s, a);
    }
  }

  lemma OwnAwaitStep(s: State, a: Action, t: Client, l: LinkId)
    requires Inv(s) && Enabled(s, a) && Awaits(s, t, l) && Actor(a) == Some(t)
    ensures a == AwaitStep(t) || a == Wake(t, false) || a == Wake(t, true)
    ensures l < |Next(s, a).links|
    ensures var after, before := Next(s, a).links[l].polled, s.links[l].polled;
      if t in Next(s, a).pcs then Awaits(Next(s, a), t, l) && after == before
      else if a == AwaitStep(t) then s.links[l].completed > 0 && after == before + 1
      else a == Wake(t, true) && after == before
  {
    hide LinkInv, ItemsInv, SubsInv, Q.WorkersInv, Q.QueueInv, Sharers;
    LinksAfter(s, a);
    assert PcInv(s, t, s.pcs[t]);
  }
}
