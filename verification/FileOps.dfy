/** What the completion links of file_ops.cpp give over whole runs. A run is a sequence of the steps of FileOpsSteps.
*/
module FileOps {
  import opened FileOpsSteps
  import opened Wrappers
  import Q = OnDemandQueue

  ghost predicate IsRun(ss: seq<State>, run: seq<Action>) {
    && |ss| == |run| + 1
    && ss[0] == Init()
    && forall i :: 0 <= i < |run| ==> Enabled(ss[i], run[i]) && ss[i + 1] == Next(ss[i], run[i])
  }

  lemma {:induction false} RunKeepsInv(ss: seq<State>, run: seq<Action>, i: nat)
    requires IsRun(ss, run) && i < |ss|
    ensures Inv(ss[i])
  {
    hide Next, Enabled, LinkInv, PcsInv, SubsInv, ItemsInv;
    if i == 0 {
      InitInv();
    } else {
      RunKeepsInv(ss, run, i - 1);
      StepKeepsInv(ss[i - 1], run[i - 1]);
    }
  }

  /** A link has exactly one share for its subscription while that lasts, and one for every unfinished item that names
      it; it is deleted exactly when there is none. */
  lemma SharesAreExact(ss: seq<State>, run: seq<Action>, i: nat, l: LinkId)
    requires IsRun(ss, run) && i < |ss| && l < |ss[i].links|
    ensures ss[i].links[l].owners == One(ss[i].links[l].subscribed) + Sharers(ss[i], l)
    ensures ss[i].links[l].freed <==> !ss[i].links[l].subscribed && Sharers(ss[i], l) == 0
  {
    hide Next, Enabled, Sharers;
    RunKeepsInv(ss, run, i);
    assert LinkInv(ss[i], l);
  }

  /** While a link is subscribed, everything submitted through it is dropped for want of a worker, unfinished,
      completed and waiting to be polled, or polled. */
  lemma SubmissionsAreConserved(ss: seq<State>, run: seq<Action>, i: nat, l: LinkId)
    requires IsRun(ss, run) && i < |ss| && l < |ss[i].links| && ss[i].links[l].subscribed
    ensures var link := ss[i].links[l];
      link.submitted == link.dropped + Sharers(ss[i], l) + link.completed + link.polled
  {
    hide Next, Enabled, Sharers;
    RunKeepsInv(ss, run, i);
    assert LinkInv(ss[i], l);
  }

  /** No action of a run touches a link that has been deleted. */
  lemma NoUseAfterDelete(ss: seq<State>, run: seq<Action>, a: Action)
    requires IsRun(ss, run) && Enabled(ss[|run|], a) && Touched(ss[|run|], a).Some?
    ensures Touched(ss[|run|], a).value < |ss[|run|].links| && !ss[|run|].links[Touched(ss[|run|], a).value].freed
  {
    hide Next, Sharers, Enabled;
    var s := ss[|run|];
    RunKeepsInv(ss, run, |run|);
    OwnerSeesSubscribed(s, a);
    assert LinkInv(s, Touched(s, a).value);
    if a.Complete? || a.Drop? {
      ShareIsCounted(s, a);
    }
  }

  lemma {:induction false} FreedStays(ss: seq<State>, run: seq<Action>, i: nat, j: nat, l: LinkId)
    requires IsRun(ss, run) && i <= j < |ss| && l < |ss[i].links| && ss[i].links[l].freed
    ensures l < |ss[j].links| && ss[j].links[l].freed
  {
    hide Next, Enabled, LinkInv, PcsInv, SubsInv, ItemsInv;
    if i < j {
      FreedStays(ss, run, i, j - 1, l);
      RunKeepsInv(ss, run, j - 1);
      LinksAfter(ss[j - 1], run[j - 1]);
    }
  }

  /** A run deletes a link at most once. */
  lemma DeletedOnce(ss: seq<State>, run: seq<Action>, i: nat, j: nat, l: LinkId)
    requires IsRun(ss, run) && i < |run| && j < |run| && l < |ss[i].links| && l < |ss[j].links|
    requires !ss[i].links[l].freed && l < |ss[i + 1].links| && ss[i + 1].links[l].freed
    requires !ss[j].links[l].freed && l < |ss[j + 1].links| && ss[j + 1].links[l].freed
    ensures i == j
  {
    hide Next, Enabled;
    if i < j {
      FreedStays(ss, run, i + 1, j, l);
    } else if j < i {
      FreedStays(ss, run, j + 1, i, l);
    }
  }

  /** When the worker completes an item it signals a subscription only while that is subscribed, or while its owner
      has not yet returned from unsubscribing it; otherwise it leaves the link's completions and bit alone. */
  lemma WorkerRespectsUnsubscribe(ss: seq<State>, run: seq<Action>, i: nat, l: LinkId)
    requires IsRun(ss, run) && i < |run| && run[i].Complete? && Touched(ss[i], run[i]) == Some(l)
    ensures l < |ss[i].links| && l < |ss[i + 1].links|
    ensures var s, sub := ss[i], ss[i].links[l].sub;
      if s.links[l].subscribed then
        (sub in s.subs && s.subs[sub] == l) || (sub.0 in s.pcs && s.pcs[sub.0] == Unsubscribing(l))
      else
        ss[i + 1].links[l].completed == s.links[l].completed && ss[i + 1].links[l].bit == s.links[l].bit
  {
    hide Next, Enabled, LinkInv, PcsInv, ItemsInv;
    RunKeepsInv(ss, run, i);
    OwnerSeesSubscribed(ss[i], run[i]);
    LinksAfter(ss[i], run[i]);
  }

  /** No lost wakeup: a client about to wait while a completion is there will find its bit set. */
  lemma NoLostWakeup(ss: seq<State>, run: seq<Action>, i: nat, t: Client)
    requires IsRun(ss, run) && i < |ss| && t in ss[i].pcs && ss[i].pcs[t].AwaitWait?
    ensures ss[i].pcs[t].link < |ss[i].links|
    ensures ss[i].links[ss[i].pcs[t].link].completed > 0 ==> Enabled(ss[i], Wake(t, false))
  {
    hide Next, LinkInv, SubsInv, ItemsInv;
    RunKeepsInv(ss, run, i);
    assert PcInv(ss[i], t, ss[i].pcs[t]);
  }

  /** One poll of await ends it with success exactly when it consumes one completion, and otherwise it goes on to
      wait. */
  lemma AwaitPollsOnce(ss: seq<State>, run: seq<Action>, i: nat, t: Client)
    requires IsRun(ss, run) && i < |run| && run[i] == AwaitStep(t)
    ensures var l := ss[i].pcs[t].link;
      var before, after := ss[i].links[l], ss[i + 1].links[l];
      if t in ss[i + 1].pcs
      then ss[i + 1].pcs[t] == AwaitWait(l) && before.completed == 0 && after == before
      else after.completed == before.completed - 1 && after.polled == before.polled + 1
           && after.owners == before.owners && after.bit == before.bit
  {
    hide LinkInv, SubsInv, ItemsInv;
    RunKeepsInv(ss, run, i);
    LinksAfter(ss[i], run[i]);
  }

  lemma {:induction false} AwaitSoFar(ss: seq<State>, run: seq<Action>, i: nat, k: nat, t: Client, sub: Subscription)
    requires IsRun(ss, run) && i < k < |ss| && run[i] == Await(t, sub)
    requires forall m :: i < m <= k ==> t in ss[m].pcs
    ensures sub in ss[i].subs && ss[i].subs[sub] < |ss[i].links|
    ensures var l := ss[i].subs[sub]; Awaits(ss[k], t, l) && ss[k].links[l].polled == ss[i].links[l].polled
    decreases k
  {
    hide Inv;
    if k > i + 1 {
      AwaitSoFar(ss, run, i, k - 1, t, sub);
      hide Next, Enabled;
      RunKeepsInv(ss, run, k - 1);
      var l := ss[i].subs[sub];
      if Actor(run[k - 1]) == Some(t) {
        OwnAwaitStep(ss[k - 1], run[k - 1], t, l);
      } else {
        OthersDoNotPoll(ss[k - 1], run[k - 1], t, l);
      }
    }
  }

  /** A whole await, from its call at step `i` to its return at step `j`, whatever the other threads do meanwhile: it
      returns by its own poll, having consumed one completion, or by a timeout, having consumed none, and nobody else
      has consumed any. */
  lemma AwaitConsumesExactlyOne(ss: seq<State>, run: seq<Action>, i: nat, j: nat, t: Client, sub: Subscription)
    requires IsRun(ss, run) && i < j < |run| && run[i] == Await(t, sub)
    requires (forall m :: i < m <= j ==> t in ss[m].pcs) && t !in ss[j + 1].pcs
    ensures sub in ss[i].subs && ss[i].subs[sub] < |ss[i].links| && ss[i].subs[sub] < |ss[j + 1].links|
    ensures var l, n := ss[i].subs[sub], if run[j] == AwaitStep(t) then 1 else 0;
      ss[j + 1].links[l].polled == ss[i].links[l].polled + n
    ensures run[j] == AwaitStep(t) || run[j] == Wake(t, true)
  {
    hide Next, Enabled, Inv;
    AwaitSoFar(ss, run, i, j, t, sub);
    RunKeepsInv(ss, run, j);
    var l := ss[i].subs[sub];
    if Actor(run[j]) == Some(t) {
      OwnAwaitStep(ss[j], run[j], t, l);
    } else {
      OthersDoNotPoll(ss[j], run[j], t, l);
    }
  }

  /** The file operations queue is a run of the on-demand queue: items are taken once, in the order they were accepted,
      and whenever the mutex is free what waits is queued and has a worker. */
  lemma TakenInOrder(ss: seq<State>, run: seq<Action>, i: nat)
    requires IsRun(ss, run) && i < |ss|
    ensures var q := ss[i].q;
      && q.taken <= q.accepted
      && (q.mutex == None ==> q.accepted == q.taken + q.queue)
      && (q.mutex == None && !q.running ==> q.queue == [])
      && |InFlight(q)| <= 1
  {
    hide Next, Enabled, LinkInv, PcsInv, SubsInv, ItemsInv;
    RunKeepsInv(ss, run, i);
  }

  // ---------------------------------------------------------------------------------------------
  // The link as it is updated in place; each method is one critical section of its mutex

  class FileOpsLink {
    var owners: int
    var subscribed: bool
    var completed: nat
    var bit: bool              // the subscription's bit in its event group
    ghost const sub: Subscription
    ghost var freed: bool
    ghost var submitted: nat
    ghost var dropped: nat
    ghost var polled: nat

    ghost function View(): Link
      reads this
    {
      Link(sub, owners, subscribed, completed, bit, freed, submitted, dropped, polled)
    }

    constructor (ghost sub: Subscription)
      ensures View() == NewLink(sub)
    {
      owners, subscribed, completed, bit := 1, true, 0, false;
      this.sub := sub;
      freed, submitted, dropped, polled := false, 0, 0, 0;
    }

    method Share()
      modifies this
      ensures View() == ShareLink(old(View()))
      ensures owners == old(owners) + 1
      ensures subscribed == old(subscribed) && completed == old(completed) && bit == old(bit)
    {
      owners := owners + 1;
      submitted := submitted + 1;
    }

    /** complete(); `last` tells the worker to delete the link. */
    method Complete() returns (last: bool)
      modifies this
      ensures View() == CompleteLink(old(View())) && (last <==> old(owners) == 1)
      ensures owners == old(owners) - 1 && subscribed == old(subscribed)
      ensures completed == old(completed) + (if subscribed then 1 else 0) && (bit <==> old(bit) || subscribed)
    {
      if subscribed {
        completed := completed + 1;
        bit := true;
      }
      owners := owners - 1;
      last := owners == 0;
      freed := freed || last;
    }

    /** release_link(), after a worker could not be started. */
    method Drop() returns (last: bool)
      modifies this
      ensures View() == DropLink(old(View())) && (last <==> old(owners) == 1)
      ensures owners == old(owners) - 1
      ensures subscribed == old(subscribed) && completed == old(completed) && bit == old(bit)
    {
      owners := owners - 1;
      last := owners == 0;
      dropped := dropped + 1;
      freed := freed || last;
    }

    /** The critical section of file_ops_unsubscribe(), with the release of the bit that follows it. */
    method Sever() returns (last: bool)
      modifies this
      ensures View() == SeverLink(old(View())) && (last <==> old(owners) == 1)
      ensures owners == old(owners) - 1 && !subscribed && !bit && completed == old(completed)
    {
      subscribed := false;
      owners := owners - 1;
      last := owners == 0;
      bit := false;
      freed := freed || last;
    }

    method Poll() returns (available: bool)
      modifies this
      ensures View() == PollLink(old(View())) && (available <==> old(completed) > 0)
      ensures completed == old(completed) - (if available then 1 else 0)
      ensures owners == old(owners) && subscribed == old(subscribed) && bit == old(bit)
    {
      available := completed > 0;
      if available {
        completed := completed - 1;
        polled := polled + 1;
      }
    }
  }
}
