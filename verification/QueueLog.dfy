/** When the deque is a sorted log: over which runs it ascends, so that an ack leaves
    exactly what is above the offset, and what breaks that after a crash. */
module QueueLog {
  import opened IntSets
  import opened Options
  import opened UpdateQueue
  import opened QueueProtocol
  import opened QueueGuards
  import opened QueueOrder

  // ---- Pushing onto an ascending deque ----

  /** Every id of the answer that is not queued exceeds everything queued. */
  predicate TopsQueue(q: seq<Entry>, ids: seq<int>) { forall id, x | id in NewIds(q, ids) && x in Ids(q) :: x < id }

  /** What is left of the answer from k on tops the deque. */
  ghost predicate Topping(q: seq<Entry>, ids: seq<int>, k: nat)
    requires k <= |ids|
  {
    Ascending(q) && forall j, x | k <= j < |ids| && ids[j] !in Ids(q) && x in Ids(q) :: x < ids[j]
  }

  lemma AppendAscends(q: seq<Entry>, e: Entry)
    requires Ascending(q) && forall x | x in Ids(q) :: x < e.id
    ensures Ascending(q + [e]) && Ids(q + [e]) == Ids(q) + {e.id}
  {
    IdsLaws(q, e);
    forall i | 0 <= i < |q| ensures q[i].id < e.id {
      assert q[i].id in Ids(q);
    }
  }

  lemma RoomAscends(q: seq<Entry>)
    requires Ascending(q) && q != []
    ensures Ascending(q[1..]) && Ids(q[1..]) <= Ids(q)
  {
    assert forall i | 0 <= i < |q| - 1 :: q[1..][i] == q[i + 1];
  }

  lemma ToppingStep(m: Memory, l: Limits, a: Arrival, ids: seq<int>, k: nat)
    requires k < |ids| && Increasing(ids) && a.update.id == Some(ids[k]) && Topping(m.q, ids, k)
    ensures Topping(PushOne(m, l, a).q, ids, k + 1)
  {
    hide Ids;
    hide Ascending;
    if ids[k] !in Ids(m.q) {
      var full := |m.q| >= l.maxsize && m.q != [];
      var room, e := if full then m.q[1..] else m.q, EntryFor(a, ids[k]);
      assert PushOne(m, l, a).q == room + [e];
      hide PushOne;
      if full { RoomAscends(m.q); }
      AppendAscends(room, e);
    }
  }

  lemma {:induction false} PushTopping(m: Memory, l: Limits, arrivals: seq<Arrival>, ids: seq<int>, k: nat)
    requires Stamped(arrivals, ids) && Increasing(ids) && k <= |ids| && Topping(m.q, ids, 0)
    ensures Topping(PushMemory(m, l, arrivals[..k]).q, ids, k)
  {
    if k == 0 {
    } else {
      PushTopping(m, l, arrivals, ids, k - 1);
      assert arrivals[..k][..k - 1] == arrivals[..k - 1];
      var m1 := PushMemory(m, l, arrivals[..k - 1]);
      assert PushMemory(m, l, arrivals[..k]) == PushOne(m1, l, arrivals[k - 1]);
      hide Topping;
      ToppingStep(m1, l, arrivals[k - 1], ids, k - 1);
    }
  }

  /** A push that tops an ascending deque keeps it ascending, whatever overflows. */
  lemma {:induction false} PushAscends(m: Memory, l: Limits, arrivals: seq<Arrival>, ids: seq<int>)
    requires Ascending(m.q) && Stamped(arrivals, ids) && Increasing(ids) && TopsQueue(m.q, ids)
    ensures Ascending(PushMemory(m, l, arrivals).q)
  {
    forall j, x | 0 <= j < |ids| && ids[j] !in Ids(m.q) && x in Ids(m.q) ensures x < ids[j] {
      assert ids[j] in ids && ids[j] in NewIds(m.q, ids);
    }
    PushTopping(m, l, arrivals, ids, |ids|);
    assert arrivals[..|ids|] == arrivals;
  }

  lemma AppendedTops(m: Memory, m1: Memory, batch: seq<Entry>, ids: seq<int>)
    requires Appended(m, m1, batch, ids) && Ascending(m1.q)
    ensures TopsQueue(m.q, ids)
  {
    hide NewIds;
    forall id, x | id in NewIds(m.q, ids) && x in Ids(m.q) ensures x < id {
      assert id in Ids(batch);
      var i :| 0 <= i < |m.q| && m.q[i].id == x;
      var j :| 0 <= j < |batch| && batch[j].id == id;
      assert m1.q[i] == m.q[i] && m1.q[|m.q| + j] == batch[j];
    }
  }

  /** With room it does so exactly then. */
  lemma {:induction false} PushAscendsIff(m: Memory, l: Limits, arrivals: seq<Arrival>, ids: seq<int>)
    requires Ascending(m.q) && Stamped(arrivals, ids) && Increasing(ids) && HasRoom(m, l, ids)
    ensures Ascending(PushMemory(m, l, arrivals).q) <==> TopsQueue(m.q, ids)
  {
    hide PushMemory;
    hide BatchOf;
    hide HasRoom;
    hide TopsQueue;
    hide Appended;
    if TopsQueue(m.q, ids) { PushAscends(m, l, arrivals, ids); }
    PushAppends(m, l, arrivals, ids);
    if Ascending(PushMemory(m, l, arrivals).q) {
      AppendedTops(m, PushMemory(m, l, arrivals), BatchOf(m, l, arrivals), ids);
    }
  }

  // ---- Over runs ----

  /** A push sends nothing again that is no longer queued below something that is. */
  predicate PushTops(s: System, a: Action) {
    a.Push? && s.poller.Fetched? ==> TopsQueue(PruneMemory(s.memory, s.limits, a.mono).q, s.poller.ids)
  }

  lemma DropsAscend(m: Memory, l: Limits, lastSeen: int, mono: real)
    requires Ascending(m.q)
    ensures Ascending(AckMemory(m, lastSeen).q) && Ascending(PruneMemory(m, l, mono).q)
  {
    DropAckedIsSuffix(m.q, AckMemory(m, lastSeen).offset);
    DropExpiredIsSuffix(m.q, mono - l.ttl);
    hide DropAcked;
    hide DropExpired;
  }

  lemma AscendingStep(s: System, a: Action)
    requires Sourced(s) && Ascending(s.memory.q) && Enabled(s, a) && PushTops(s, a)
    ensures Ascending(Next(s, a).memory.q)
  {
    hide Ascending;
    hide PushMemory;
    hide PruneMemory;
    hide AckMemory;
    hide Reload;
    match a
    case Push(arrivals, mono) =>
      DropsAscend(s.memory, s.limits, 0, mono);
      PushAscends(PruneMemory(s.memory, s.limits, mono), s.limits, arrivals, s.poller.ids);
    case AckBegin(_, lastSeen) => DropsAscend(s.memory, s.limits, lastSeen, 0.0);
    case PullBegin(r) => DropsAscend(s.memory, s.limits, s.replicas[r].cursor, 0.0);
    case Crash(mono, wall) => ReloadAccounts(s.disk, s.limits, mono, wall);
    case _ =>
  }

  lemma {:induction false} AscendingAlways(ss: seq<System>, acts: seq<Action>, n: nat)
    requires IsExecution(ss, acts) && n < |ss|
    requires forall i {:trigger PushTops(ss[i], acts[i])} | 0 <= i < n :: PushTops(ss[i], acts[i])
    ensures Sourced(ss[n]) && Ascending(ss[n].memory.q)
  {
    hide Next;
    hide Enabled;
    hide PushTops;
    if n == 0 {
    } else {
      hide Sourced;
      hide Ascending;
      AscendingAlways(ss, acts, n - 1);
      assert Enabled(ss[n - 1], acts[n - 1]) && PushTops(ss[n - 1], acts[n - 1]);
      SourcedStep(ss[n - 1], acts[n - 1]);
      AscendingStep(ss[n - 1], acts[n - 1]);
    }
  }

  /** In every execution, over any number of crashes, whose pushes top the deque, the
      queue is a sorted log: it ascends, and an ack leaves exactly the entries above
      the offset, of which a page is the first `limit`. */
  lemma SortedLog(ss: seq<System>, acts: seq<Action>, n: nat, lastSeen: int, limit: int)
    requires IsExecution(ss, acts) && n < |ss|
    requires forall i {:trigger PushTops(ss[i], acts[i])} | 0 <= i < n :: PushTops(ss[i], acts[i])
    ensures Ascending(ss[n].memory.q)
    ensures var m := ss[n].memory;
            var r := AckMemory(m, lastSeen);
            r.q == Above(m.q, r.offset) && Page(r, limit) == Take(r.q, PageSize(limit))
  {
    hide IsExecution;
    hide PushTops;
    AscendingAlways(ss, acts, n);
    AckLeavesExactlyTheUnacked(ss[n].memory, lastSeen);
    PageAfterAck(ss[n].memory, lastSeen, limit);
  }

  /** Until the first crash every push does. */
  lemma TopsUntilCrash(ss: seq<System>, acts: seq<Action>, n: nat)
    requires IsExecution(ss, acts) && n < |acts| && forall i | 0 <= i < n :: !acts[i].Crash?
    ensures PushTops(ss[n], acts[n])
  {
    hide Next;
    hide Enabled;
    BehindPollAlways(ss, acts, n);
    var s, a := ss[n], acts[n];
    if a.Push? && s.poller.Fetched? {
      ShrinkIds(s.memory, s.limits, 0, a.mono);
      hide PruneMemory;
    }
  }
}
