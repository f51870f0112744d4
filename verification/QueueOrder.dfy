/** The order in which replicas see updates, over any number of crashes. What keeps
    a stream increasing is that the unacked part of the deque ascends; a push can
    break that only after a crash, when Telegram sends again what the reload did
    not serve. */
module QueueOrder {
  import opened IntSets
  import opened Options
  import opened UpdateQueue
  import opened QueueProtocol
  import opened QueueGuards

  // ---- The unacked part of the deque ----

  ghost predicate OrderedAbove(q: seq<Entry>, offset: int) {
    forall i, j | 0 <= i < j < |q| && q[i].id > offset && q[j].id > offset :: q[i].id < q[j].id
  }

  lemma {:induction false} AboveBelowLast(q: seq<Entry>, offset: int, i: nat)
    requires q != [] && OrderedAbove(q, offset) && q[|q| - 1].id > offset && i < |Above(q[..|q| - 1], offset)|
    ensures Above(q[..|q| - 1], offset)[i].id < q[|q| - 1].id
  {
    var front := q[..|q| - 1];
    var a := Above(front, offset);
    AboveMembers(front, offset);
    hide Above;
    assert a[i] in a && a[i] in front;
    var k :| 0 <= k < |front| && front[k] == a[i];
    assert q[k] == front[k];
  }

  lemma {:induction false} AboveAscends(q: seq<Entry>, offset: int)
    requires OrderedAbove(q, offset)
    ensures Ascending(Above(q, offset))
  {
    if q == [] {
    } else {
      var front := q[..|q| - 1];
      var a := Above(front, offset);
      assert OrderedAbove(front, offset);
      AboveAscends(front, offset);
      if q[|q| - 1].id > offset {
        forall i | 0 <= i < |a| ensures a[i].id < q[|q| - 1].id { AboveBelowLast(q, offset, i); }
      }
    }
  }

  /** Pushed now, id would not go behind a larger unacked one. */
  ghost predicate Fits(m: Memory, id: int) {
    id > m.offset && id !in Ids(m.q) ==> forall x | x in Ids(m.q) && x > m.offset :: x < id
  }

  ghost predicate BatchFits(m: Memory, l: Limits, arrivals: seq<Arrival>, ids: seq<int>) {
    && |arrivals| == |ids|
    && forall k | 0 <= k < |ids| :: Fits(PushMemory(m, l, arrivals[..k]), ids[k])
  }

  lemma PushOneOrders(m: Memory, l: Limits, a: Arrival, id: int)
    requires OrderedAbove(m.q, m.offset) && a.update.id == Some(id) && Fits(m, id)
    ensures OrderedAbove(PushOne(m, l, a).q, m.offset)
  {
    var q, room := PushOne(m, l, a).q, if |m.q| >= l.maxsize && m.q != [] then m.q[1..] else m.q;
    if id !in Ids(m.q) {
      forall i | 0 <= i < |room| && room[i].id > m.offset && id > m.offset ensures room[i].id < id {
        assert room[i].id in Ids(m.q);
      }
    }
  }

  lemma {:induction false} BatchFitsFront(m: Memory, l: Limits, arrivals: seq<Arrival>, ids: seq<int>)
    requires BatchFits(m, l, arrivals, ids) && arrivals != []
    ensures BatchFits(m, l, arrivals[..|arrivals| - 1], ids[..|arrivals| - 1])
    ensures Fits(PushMemory(m, l, arrivals[..|arrivals| - 1]), ids[|arrivals| - 1])
  {
    hide Fits;
    hide PushMemory;
    var last := |arrivals| - 1;
    forall k | 0 <= k < last ensures Fits(PushMemory(m, l, arrivals[..last][..k]), ids[..last][k]) {
      assert arrivals[..last][..k] == arrivals[..k];
    }
  }

  lemma {:induction false} PushOrders(m: Memory, l: Limits, arrivals: seq<Arrival>, ids: seq<int>)
    requires OrderedAbove(m.q, m.offset) && Stamped(arrivals, ids) && BatchFits(m, l, arrivals, ids)
    ensures OrderedAbove(PushMemory(m, l, arrivals).q, m.offset) && PushMemory(m, l, arrivals).offset == m.offset
  {
    hide OrderedAbove;
    hide BatchFits;
    if arrivals == [] {
    } else {
      var last := |arrivals| - 1;
      BatchFitsFront(m, l, arrivals, ids);
      PushOrders(m, l, arrivals[..last], ids[..last]);
      PushOneOrders(PushMemory(m, l, arrivals[..last]), l, arrivals[last], ids[last]);
      PushCounters(m, l, arrivals);
    }
  }

  lemma {:induction false} BatchFitsBoth(m: Memory, l: Limits, arrivals: seq<Arrival>, ids: seq<int>)
    requires |arrivals| == |ids| && arrivals != []
    requires BatchFits(m, l, arrivals[..|arrivals| - 1], ids[..|arrivals| - 1])
    requires Fits(PushMemory(m, l, arrivals[..|arrivals| - 1]), ids[|arrivals| - 1])
    ensures BatchFits(m, l, arrivals, ids)
  {
    hide Fits;
    hide PushMemory;
    var last := |arrivals| - 1;
    forall k | 0 <= k < |ids| ensures Fits(PushMemory(m, l, arrivals[..k]), ids[k]) {
      if k < last {
        assert arrivals[..last][..k] == arrivals[..k] && ids[..last][k] == ids[k];
      }
    }
  }

  lemma OrderedFits(m: Memory, m1: Memory, e: Entry)
    requires m1.offset == m.offset && m1.q == (if e.id in Ids(m.q) then m.q else m.q + [e])
    requires OrderedAbove(m1.q, m.offset)
    ensures OrderedAbove(m.q, m.offset) && Fits(m, e.id)
  {
    forall i, j | 0 <= i < j < |m.q| && m.q[i].id > m.offset && m.q[j].id > m.offset ensures m.q[i].id < m.q[j].id {
      assert m1.q[i] == m.q[i] && m1.q[j] == m.q[j];
    }
    forall x | x in Ids(m.q) && x > m.offset && e.id > m.offset && e.id !in Ids(m.q) ensures x < e.id {
      var i :| 0 <= i < |m.q| && m.q[i].id == x;
      assert m1.q[i] == m.q[i] && m1.q[|m.q|] == e;
    }
  }

  lemma {:induction false} OrderedBatchFits(m: Memory, l: Limits, arrivals: seq<Arrival>, ids: seq<int>)
    requires Stamped(arrivals, ids) && Increasing(ids) && HasRoom(m, l, ids)
    requires OrderedAbove(PushMemory(m, l, arrivals).q, m.offset)
    ensures BatchFits(m, l, arrivals, ids)
  {
    hide OrderedAbove;
    hide BatchFits;
    hide HasRoom;
    hide Fits;
    hide Ids;
    hide PushMemory;
    if arrivals == [] {
      NothingFits(m, l);
    } else {
      var last := |arrivals| - 1;
      var front, id, a := ids[..last], ids[last], arrivals[last];
      assert ids == front + [id];
      RoomBefore(m, l, front, id);
      var m1 := PushMemory(m, l, arrivals[..last]);
      LastArrival(m, l, arrivals, ids);
      OrderedFits(m1, PushMemory(m, l, arrivals), EntryFor(a, id));
      OrderedBatchFits(m, l, arrivals[..last], front);
      BatchFitsBoth(m, l, arrivals, ids);
    }
  }

  lemma NothingFits(m: Memory, l: Limits)
    ensures BatchFits(m, l, [], [])
  {}

  lemma {:induction false} LastArrival(m: Memory, l: Limits, arrivals: seq<Arrival>, ids: seq<int>)
    requires Stamped(arrivals, ids) && Increasing(ids) && HasRoom(m, l, ids) && arrivals != []
    ensures var last := |arrivals| - 1;
            var m1 := PushMemory(m, l, arrivals[..last]);
            && m1.offset == m.offset
            && PushMemory(m, l, arrivals)
               == if ids[last] in Ids(m1.q) then m1 else m1.(q := m1.q + [EntryFor(arrivals[last], ids[last])])
  {
    hide HasRoom;
    hide Ids;
    hide PushOne;
    hide NewIds;
    hide PushMemory;
    hide BatchOf;
    var last := |arrivals| - 1;
    var front, id := ids[..last], ids[last];
    assert ids == front + [id];
    RoomBefore(m, l, front, id);
    BatchPush(m, l, arrivals, id);
    PushAppends(m, l, arrivals[..last], front);
    NoDropHere(m, l, PushMemory(m, l, arrivals[..last]), BatchOf(m, l, arrivals[..last]), front, arrivals[last], id);
  }

  /** With room, a push keeps the unacked part in order exactly when its ids fit. */
  lemma {:induction false} PushOrdersIff(m: Memory, l: Limits, arrivals: seq<Arrival>, ids: seq<int>)
    requires OrderedAbove(m.q, m.offset) && Stamped(arrivals, ids) && Increasing(ids) && HasRoom(m, l, ids)
    ensures OrderedAbove(PushMemory(m, l, arrivals).q, m.offset) <==> BatchFits(m, l, arrivals, ids)
  {
    hide OrderedAbove;
    hide BatchFits;
    if BatchFits(m, l, arrivals, ids) { PushOrders(m, l, arrivals, ids); }
    if OrderedAbove(PushMemory(m, l, arrivals).q, m.offset) { OrderedBatchFits(m, l, arrivals, ids); }
  }

  lemma NoDropHere(m: Memory, l: Limits, m1: Memory, batch: seq<Entry>, ids: seq<int>, a: Arrival, id: int)
    requires Appended(m, m1, batch, ids) && (forall i | 0 <= i < |ids| :: ids[i] < id) && a.update.id == Some(id)
    requires HasRoom(m, l, ids + [id])
    ensures PushOne(m1, l, a) == if id in Ids(m1.q) then m1 else m1.(q := m1.q + [EntryFor(a, id)])
  {
    hide PushOne;
    hide Ids;
    hide NewIds;
    NewIdsPush(m.q, ids, id);
    PushOneAppends(m1, l, a, id);
  }

  // ---- Streams increase while pushes fit ----

  ghost predicate ReplicaInOrder(rep: Replica, offset: int) {
    && Increasing(rep.stream)
    && rep.cursor == (if rep.stream == [] then 0 else rep.stream[|rep.stream| - 1])
    && rep.cursor >= 0
    && (rep.waiting && rep.cursor > 0 ==> rep.cursor <= offset)
  }

  ghost predicate InOrder(s: System) {
    && OrderedAbove(s.memory.q, s.memory.offset)
    && s.memory.offset >= 0 && OffsetOf(s.disk) >= 0 && (forall t | t in s.acks :: s.acks[t].n >= 0)
    && forall r | r in s.replicas :: ReplicaInOrder(s.replicas[r], s.memory.offset)
  }

  ghost predicate PushFits(s: System, a: Action) {
    a.Push? && s.poller.Fetched? ==>
      BatchFits(PruneMemory(s.memory, s.limits, a.mono), s.limits, a.arrivals, s.poller.ids)
  }

  /** One page extends an ordered stream in order. */
  lemma PageInOrder(m: Memory, limit: int, rep: Replica)
    requires OrderedAbove(m.q, m.offset) && m.offset >= 0 && ReplicaInOrder(rep, m.offset) && rep.waiting
    ensures var ids := IdsOf(Page(m, limit));
            ReplicaInOrder(Replica(Advance(rep.cursor, ids), ids == [], rep.stream + ids), m.offset)
  {
    hide Above;
    hide OrderedAbove;
    var page := Page(m, limit);
    var ids := IdsOf(page);
    AboveAscends(m.q, m.offset);
    AboveMembers(m.q, m.offset);
    AdvanceIsMax(rep.cursor, ids);
    forall i | 0 <= i < |ids| ensures ids[i] > rep.cursor {
      assert page[i] in Above(m.q, m.offset);
    }
    assert Increasing(ids);
  }

  lemma OrderAck(s: System, t: int, lastSeen: int, replicas: map<int, Replica>)
    requires InOrder(s)
    requires forall r | r in replicas :: r in s.replicas && (replicas[r] == s.replicas[r]
               || (replicas[r] == s.replicas[r].(waiting := true) && replicas[r].cursor <= lastSeen))
    ensures InOrder(BeginAck(s.(replicas := replicas), t, lastSeen))
  {
    DropAckedIsSuffix(s.memory.q, AckMemory(s.memory, lastSeen).offset);
  }

  lemma PruneOrders(m: Memory, l: Limits, mono: real)
    requires OrderedAbove(m.q, m.offset)
    ensures var r := PruneMemory(m, l, mono); r.offset == m.offset && OrderedAbove(r.q, m.offset)
  {
    DropExpiredIsSuffix(m.q, mono - l.ttl);
  }

  lemma OrderPush(s: System, a: Action)
    requires InOrder(s) && Enabled(s, a) && a.Push? && PushFits(s, a)
    ensures InOrder(Next(s, a))
  {
    var m := PruneMemory(s.memory, s.limits, a.mono);
    PruneOrders(s.memory, s.limits, a.mono);
    PushOrders(m, s.limits, a.arrivals, s.poller.ids);
  }

  lemma OrderRead(s: System, r: int, limit: int)
    requires InOrder(s) && Enabled(s, PullRead(r, limit))
    ensures InOrder(Next(s, PullRead(r, limit)))
  {
    PageInOrder(s.memory, limit, s.replicas[r]);
    hide Page;
    hide Advance;
    hide OrderedAbove;
  }

  lemma OrderStep(s: System, a: Action)
    requires InOrder(s) && Enabled(s, a) && PushFits(s, a)
    ensures InOrder(Next(s, a))
  {
    match a
    case Push(_, _) => OrderPush(s, a);
    case AckBegin(t, lastSeen) => OrderAck(s, t, lastSeen, s.replicas);
    case PullBegin(r) =>
      OrderAck(s, r, s.replicas[r].cursor, s.replicas[r := s.replicas[r].(waiting := true)]);
    case PullRead(r, limit) => OrderRead(s, r, limit);
    case CommitBatch(wall) => CommitKeys(s.disk, s.poller.batch, wall);
    case Crash(mono, wall) => ReloadAccounts(s.disk, s.limits, mono, wall);
    case _ =>
  }

  lemma {:induction false} OrderAlways(ss: seq<System>, acts: seq<Action>, n: nat)
    requires IsExecution(ss, acts) && n < |ss|
    requires forall i {:trigger PushFits(ss[i], acts[i])} | 0 <= i < n :: PushFits(ss[i], acts[i])
    ensures InOrder(ss[n])
  {
    hide Next;
    hide Enabled;
    hide PushFits;
    if n == 0 {
    } else {
      OrderAlways(ss, acts, n - 1);
      assert Enabled(ss[n - 1], acts[n - 1]) && PushFits(ss[n - 1], acts[n - 1]);
      OrderStep(ss[n - 1], acts[n - 1]);
    }
  }

  // ---- When a push fits ----

  /** The highest id the poller has handed to the queue in this lifetime. */
  function Reached(s: System): int {
    if s.poller.Pushed? || s.poller.Committed? then Advance(s.saved, s.poller.ids) else s.saved
  }

  /** No id Telegram may send again is missing below a queued one. */
  ghost predicate Gapless(s: System) {
    forall z, x | z in s.emitted && x in Ids(s.memory.q) && Reached(s) < z && s.memory.offset < z < x ::
      z in Ids(s.memory.q)
  }

  /** Nothing unacked is queued beyond the saved offset. */
  predicate CaughtUp(s: System) { forall x | x in Ids(s.memory.q) :: x <= s.memory.offset || x <= s.saved }

  /** No emitted id above both offsets is left out by the reload below a served
      one. */
  ghost predicate LeavesNoGap(s: System, wall: real) {
    var served := Served(s.disk, s.limits, wall);
    forall z, x | z in s.emitted && x in served && s.saved < z && OffsetOf(s.disk) < z < x :: z in served
  }

  /** What keeps streams in order, read off the state before the step: a crash
      leaves no gap, and a push neither expires nor drops anything unless the
      queue is caught up. */
  ghost predicate Clean(s: System, a: Action) {
    match a
    case Push(_, mono) =>
      s.poller.Fetched? ==>
        CaughtUp(s) || (FrontFresh(s.memory, s.limits, mono) && HasRoom(s.memory, s.limits, s.poller.ids))
    case Crash(_, wall) => LeavesNoGap(s, wall)
    case _ => true
  }

  ghost predicate IsClean(ss: seq<System>, acts: seq<Action>) {
    |acts| <= |ss| && forall i {:trigger Clean(ss[i], acts[i])} | 0 <= i < |acts| :: Clean(ss[i], acts[i])
  }

  /** What a push has queued so far comes from the deque or the answer. */
  lemma {:induction false} PushedFrom(m: Memory, l: Limits, arrivals: seq<Arrival>, ids: seq<int>, k: nat)
    requires Stamped(arrivals, ids) && k <= |ids|
    ensures var r := PushMemory(m, l, arrivals[..k]);
            r.offset == m.offset && forall x | x in Ids(r.q) :: x in Ids(m.q) || x in ids[..k]
  {
    assert Stamped(arrivals[..k], ids[..k]);
    PushIds(m, l, arrivals[..k], ids[..k]);
  }

  lemma CaughtUpFits(s: System, a: Action)
    requires Sourced(s) && Enabled(s, a) && a.Push? && CaughtUp(s)
    ensures PushFits(s, a) && Gapless(Next(s, a))
  {
    var m, ids := PruneMemory(s.memory, s.limits, a.mono), s.poller.ids;
    ShrinkIds(s.memory, s.limits, 0, a.mono);
    forall k | 0 <= k < |ids| ensures Fits(PushMemory(m, s.limits, a.arrivals[..k]), ids[k]) {
      PushedFrom(m, s.limits, a.arrivals, ids, k);
    }
    PushedFrom(m, s.limits, a.arrivals, ids, |ids|);
    assert a.arrivals[..|ids|] == a.arrivals && ids[..|ids|] == ids;
    AdvanceIsMax(s.saved, ids);
  }

  lemma RoomFitsAt(s: System, m1: Memory, ids: seq<int>, k: nat)
    requires Gapless(s) && s.poller == Fetched(ids) && Answer(ids, s.emitted, s.saved) && k < |ids|
    requires m1.offset == s.memory.offset && Ids(m1.q) == Ids(s.memory.q) + Elements(ids[..k])
    ensures Fits(m1, ids[k])
  {
    hide Ids;
    forall x | x in Ids(m1.q) && x > m1.offset && ids[k] > m1.offset && ids[k] !in Ids(m1.q) ensures x < ids[k] {
      if x in ids[..k] {
        var j :| 0 <= j < k && ids[j] == x;
      } else {
        assert x in Ids(s.memory.q) && x != ids[k];
      }
    }
  }

  lemma RoomFits(s: System, a: Action)
    requires Sourced(s) && Gapless(s) && Enabled(s, a) && a.Push?
    requires FrontFresh(s.memory, s.limits, a.mono) && HasRoom(s.memory, s.limits, s.poller.ids)
    ensures PushFits(s, a) && Gapless(Next(s, a))
  {
    hide HasRoom;
    hide PushMemory;
    hide BatchOf;
    hide PruneMemory;
    hide Ids;
    var ids := s.poller.ids;
    FrontFreshIff(s.memory, s.limits, a.mono);
    hide FrontFresh;
    forall k | 0 <= k < |ids| ensures Fits(PushMemory(s.memory, s.limits, a.arrivals[..k]), ids[k]) {
      hide Fits;
      RoomHolds(s.memory, s.limits, a.arrivals, ids, k);
      RoomFitsAt(s, PushMemory(s.memory, s.limits, a.arrivals[..k]), ids, k);
    }
    RoomHolds(s.memory, s.limits, a.arrivals, ids, |ids|);
    assert a.arrivals[..|ids|] == a.arrivals && ids[..|ids|] == ids;
    AdvanceIsMax(s.saved, ids);
    hide Advance;
    hide BatchFits;
    GaplessPush(s, Next(s, a), ids);
  }

  lemma GaplessPush(s: System, s': System, ids: seq<int>)
    requires Gapless(s) && s.poller == Fetched(ids) && s'.poller.Pushed? && s'.poller.ids == ids
    requires s'.emitted == s.emitted && s'.saved == s.saved && s'.memory.offset == s.memory.offset
    requires Ids(s'.memory.q) == Ids(s.memory.q) + Elements(ids)
    ensures Gapless(s')
  {
    hide Ids;
    AdvanceIsMax(s.saved, ids);
  }

  lemma GaplessAck(s: System, t: int, lastSeen: int, replicas: map<int, Replica>)
    requires Gapless(s)
    ensures Gapless(BeginAck(s.(replicas := replicas), t, lastSeen))
  {
    ShrinkIds(s.memory, s.limits, lastSeen, 0.0);
  }

  lemma GaplessStep(s: System, a: Action)
    requires Sourced(s) && Gapless(s) && Enabled(s, a) && Clean(s, a)
    ensures PushFits(s, a) && Gapless(Next(s, a))
  {
    match a
    case Push(_, _) => if CaughtUp(s) { CaughtUpFits(s, a); } else { RoomFits(s, a); }
    case AckBegin(t, lastSeen) => GaplessAck(s, t, lastSeen, s.replicas);
    case PullBegin(r) =>
      GaplessAck(s, r, s.replicas[r].cursor, s.replicas[r := s.replicas[r].(waiting := true)]);
    case Crash(mono, wall) => ReloadIsServed(s.disk, s.limits, mono, wall);
    case _ =>
  }

  lemma {:induction false} GaplessAlways(ss: seq<System>, acts: seq<Action>, n: nat)
    requires IsExecution(ss, acts) && IsClean(ss, acts) && n < |ss|
    ensures Sourced(ss[n]) && Gapless(ss[n])
    ensures forall i {:trigger PushFits(ss[i], acts[i])} | 0 <= i < n :: PushFits(ss[i], acts[i])
  {
    hide Next;
    hide Enabled;
    hide Clean;
    hide PushFits;
    if n == 0 {
    } else {
      hide Gapless;
      hide Sourced;
      GaplessAlways(ss, acts, n - 1);
      assert Enabled(ss[n - 1], acts[n - 1]) && Clean(ss[n - 1], acts[n - 1]);
      SourcedStep(ss[n - 1], acts[n - 1]);
      GaplessStep(ss[n - 1], acts[n - 1]);
    }
  }

  /** However many replicas pull, ack and interleave, and over any number of
      crashes, each replica's stream is strictly increasing if no crash leaves a gap
      and no push meanwhile expires or drops what Telegram may send again. */
  lemma StreamsIncrease(ss: seq<System>, acts: seq<Action>, n: nat, r: int)
    requires IsExecution(ss, acts) && IsClean(ss, acts) && n < |ss| && r in ss[n].replicas
    ensures Increasing(ss[n].replicas[r].stream)
  {
    hide IsExecution;
    hide IsClean;
    GaplessAlways(ss, acts, n);
    OrderAlways(ss, acts, n);
  }

  // ---- Until a crash every step is clean ----

  ghost predicate BehindPoll(s: System) { forall x | x in Ids(s.memory.q) :: x <= Reached(s) }

  lemma BehindPollStep(s: System, a: Action)
    requires Sourced(s) && BehindPoll(s) && Enabled(s, a) && !a.Crash?
    ensures BehindPoll(Next(s, a))
  {
    match a
    case Push(arrivals, mono) =>
      var ids := s.poller.ids;
      ShrinkIds(s.memory, s.limits, 0, mono);
      PushIds(PruneMemory(s.memory, s.limits, mono), s.limits, arrivals, ids);
      AdvanceIsMax(s.saved, ids);
    case AckBegin(t, lastSeen) => ShrinkIds(s.memory, s.limits, lastSeen, 0.0);
    case PullBegin(r) => ShrinkIds(s.memory, s.limits, s.replicas[r].cursor, 0.0);
    case _ =>
  }

  lemma {:induction false} BehindPollAlways(ss: seq<System>, acts: seq<Action>, n: nat)
    requires IsExecution(ss, acts) && n < |ss| && forall i | 0 <= i < n :: !acts[i].Crash?
    ensures Sourced(ss[n]) && BehindPoll(ss[n])
  {
    hide Next;
    hide Enabled;
    if n == 0 {
    } else {
      hide BehindPoll;
      hide Sourced;
      BehindPollAlways(ss, acts, n - 1);
      assert Enabled(ss[n - 1], acts[n - 1]);
      SourcedStep(ss[n - 1], acts[n - 1]);
      BehindPollStep(ss[n - 1], acts[n - 1]);
    }
  }

  /** So without a crash StreamsIncrease asks for nothing, whatever overflows or
      expires. */
  lemma CleanUntilCrash(ss: seq<System>, acts: seq<Action>)
    requires IsExecution(ss, acts) && forall i | 0 <= i < |acts| :: !acts[i].Crash?
    ensures IsClean(ss, acts)
  {
    hide Next;
    hide Enabled;
    forall i | 0 <= i < |acts| ensures Clean(ss[i], acts[i]) { BehindPollAlways(ss, acts, i); }
  }
}
