/** What a gap does: after a crash that leaves one, a replica whose cursor lies
    below it can receive a decreasing stream. So the condition StreamsIncrease puts
    on a crash is needed. */
module QueueGaps {
  import opened IntSets
  import opened Options
  import opened UpdateQueue
  import opened QueueProtocol
  import opened QueueGuards
  import opened QueueOrder

  ghost predicate Precedes(q: seq<Entry>, x: int, z: int) {
    exists i, j :: 0 <= i < j < |q| && q[i].id == x && q[j].id == z
  }

  lemma {:induction false} DropAckedPrecedes(q: seq<Entry>, offset: int, x: int, z: int)
    requires Precedes(q, x, z) && x > offset && z > offset
    ensures Precedes(DropAcked(q, offset), x, z)
  {
    var r := DropAcked(q, offset);
    DropAckedIsSuffix(q, offset);
    hide DropAcked;
    var i, j :| 0 <= i < j < |q| && q[i].id == x && q[j].id == z;
    var cut := |q| - |r|;
    assert r[i - cut] == q[i] && r[j - cut] == q[j];
  }

  lemma {:induction false} AbovePrecedes(q: seq<Entry>, offset: int, x: int, z: int)
    requires Precedes(q, x, z) && x > offset && z > offset
    ensures Precedes(Above(q, offset), x, z)
  {
    var i, j :| 0 <= i < j < |q| && q[i].id == x && q[j].id == z;
    var front, a := q[..|q| - 1], Above(q[..|q| - 1], offset);
    if j < |front| {
      assert front[i] == q[i] && front[j] == q[j];
      AbovePrecedes(front, offset, x, z);
      var i', j' :| 0 <= i' < j' < |a| && a[i'].id == x && a[j'].id == z;
      assert Above(q, offset)[i'] == a[i'] && Above(q, offset)[j'] == a[j'];
    } else {
      AboveMembers(front, offset);
      assert q[i] in front && q[i] in a;
      var i' :| 0 <= i' < |a| && a[i'] == q[i];
      assert Above(q, offset)[i'] == a[i'] && Above(q, offset)[|a|] == q[j];
    }
  }

  /** A page that holds x before a smaller z. */
  lemma PageDecreases(m: Memory, x: int, z: int, stream: seq<int>)
    requires Precedes(m.q, x, z) && m.offset < z < x
    ensures !Increasing(stream + IdsOf(Page(m, |m.q| + 1)))
  {
    var page := Page(m, |m.q| + 1);
    AboveShrinks(m.q, m.offset);
    AbovePrecedes(m.q, m.offset, x, z);
    hide Above;
    assert page == Above(m.q, m.offset);
    var i, j :| 0 <= i < j < |page| && page[i].id == x && page[j].id == z;
    var all := stream + IdsOf(page);
    assert all[|stream| + i] == x && all[|stream| + j] == z;
  }

  /** An idle replica that has seen neither receives x before z. */
  lemma OutOfOrderShows(s: System, r: int, x: int, z: int) returns (acts: seq<Action>, s': System)
    requires r in s.replicas && !s.replicas[r].waiting && r !in s.acks && s.replicas[r].cursor < z
    requires Precedes(s.memory.q, x, z) && s.memory.offset < z < x
    ensures Leads(s, acts, s') && r in s'.replicas && !Increasing(s'.replicas[r].stream)
  {
    hide Leads;
    hide Page;
    hide Advance;
    hide Increasing;
    var m := Pulled(s, r);
    if s.replicas[r].cursor > 0 { DropAckedPrecedes(s.memory.q, m.offset, x, z); }
    PageDecreases(m, x, z, s.replicas[r].stream);
    acts, s' := PullPage(s, r, |m.q| + 1);
  }

  /** Whenever the unacked part of the deque is out of order, an idle replica that
      has seen none of it can receive a decreasing stream. */
  lemma DisorderShows(s: System, r: int) returns (acts: seq<Action>, s': System)
    requires r in s.replicas && !s.replicas[r].waiting && r !in s.acks && s.replicas[r].cursor <= s.memory.offset
    requires Distinct(s.memory.q) && !OrderedAbove(s.memory.q, s.memory.offset)
    ensures Leads(s, acts, s') && r in s'.replicas && !Increasing(s'.replicas[r].stream)
  {
    hide Leads;
    hide Increasing;
    var q, offset := s.memory.q, s.memory.offset;
    var i, j :| 0 <= i < j < |q| && q[i].id > offset && q[j].id > offset && q[i].id >= q[j].id;
    assert Precedes(q, q[i].id, q[j].id);
    acts, s' := OutOfOrderShows(s, r, q[i].id, q[j].id);
  }

  /** A push with room whose ids do not fit has that effect, so what PushOrdersIff
      asks of a push is needed too. */
  lemma UnfitPushDecreases(s: System, a: Action, r: int) returns (acts: seq<Action>, s': System)
    requires Enabled(s, a) && a.Push? && Sourced(s) && InOrder(s) && !PushFits(s, a)
    requires Consistent(s.memory, s.limits) && s.limits.maxsize >= 1
    requires HasRoom(PruneMemory(s.memory, s.limits, a.mono), s.limits, s.poller.ids)
    requires r in s.replicas && !s.replicas[r].waiting && r !in s.acks && s.replicas[r].cursor <= s.memory.offset
    ensures Leads(Next(s, a), acts, s') && r in s'.replicas && !Increasing(s'.replicas[r].stream)
  {
    hide Leads;
    hide PushMemory;
    hide BatchOf;
    hide HasRoom;
    hide BatchFits;
    hide OrderedAbove;
    var m, ids := PruneMemory(s.memory, s.limits, a.mono), s.poller.ids;
    PruneOrders(s.memory, s.limits, a.mono);
    PushOrdersIff(m, s.limits, a.arrivals, ids);
    PushCounters(m, s.limits, a.arrivals);
    DropsKeep(s.memory, s.limits, 0, a.mono);
    PushKeeps(m, s.limits, a.arrivals);
    acts, s' := DisorderShows(Next(s, a), r);
  }

  // ---- Sending again what the reload left out ----

  /** What Telegram holds from the saved offset up to z. */
  function Pending(s: System, z: int): set<int> { set y | y in s.emitted && s.saved < y <= z }

  function Resent(ids: seq<int>, at: real): seq<Arrival> {
    seq(|ids|, i requires 0 <= i < |ids| => Arrival(Update(Some(ids[i]), ""), at))
  }

  lemma PendingAnswers(s: System, z: int)
    ensures Answer(Ordered(Pending(s, z)), s.emitted, s.saved)
    ensures Elements(Ordered(Pending(s, z))) == Pending(s, z)
  {
    hide Ordered;
    var ids := Ordered(Pending(s, z));
    assert forall i | 0 <= i < |ids| :: ids[i] in ids;
  }

  lemma ReloadIsFresh(d: Disk, l: Limits, mono: real, wall: real)
    ensures FrontFresh(Reload(d, l, mono, wall), l, mono)
  {
    var q := Reload(d, l, mono, wall).q;
    LoadRowsExact(d, Loaded(d, l, wall), mono, wall);
    if q != [] && l.ttl > 0.0 {
      assert q[0] in q;
      assert q[0].id in Loadable(d, l, wall);
    }
  }

  // ---- Fewer arrivals than maxsize do not push the last entry out ----

  /** The entry e is in q with at most k entries behind it. */
  ghost predicate NearEnd(q: seq<Entry>, e: Entry, k: nat) {
    exists p :: 0 <= p < |q| && q[p] == e && |q| - 1 - p <= k
  }

  lemma NearEndStep(m: Memory, l: Limits, a: Arrival, e: Entry, k: nat)
    requires NearEnd(m.q, e, k) && k + 1 < l.maxsize
    ensures NearEnd(PushOne(m, l, a).q, e, k + 1)
  {
    var p :| 0 <= p < |m.q| && m.q[p] == e && |m.q| - 1 - p <= k;
    var q := PushOne(m, l, a).q;
    if IdFor(m, a.update) in Ids(m.q) {
      assert q[p] == e;
    } else if |m.q| >= l.maxsize {
      assert q[p - 1] == e;
    } else {
      assert q[p] == e;
    }
  }

  lemma {:induction false} LastSurvives(m: Memory, l: Limits, arrivals: seq<Arrival>, k: nat)
    requires m.q != [] && k <= |arrivals| < l.maxsize
    ensures NearEnd(PushMemory(m, l, arrivals[..k]).q, m.q[|m.q| - 1], k)
  {
    if k == 0 {
      assert arrivals[..0] == [];
    } else {
      LastSurvives(m, l, arrivals, k - 1);
      assert arrivals[..k][..k - 1] == arrivals[..k - 1];
      hide NearEnd;
      NearEndStep(PushMemory(m, l, arrivals[..k - 1]), l, arrivals[k - 1], m.q[|m.q| - 1], k - 1);
    }
  }

  /** The last arrival goes behind the last entry. */
  lemma {:induction false} LastGoesBehind(m: Memory, l: Limits, arrivals: seq<Arrival>, ids: seq<int>)
    requires m.q != [] && Stamped(arrivals, ids) && Increasing(ids) && 0 < |ids| < l.maxsize
    requires ids[|ids| - 1] !in Ids(m.q)
    ensures Precedes(PushMemory(m, l, arrivals).q, m.q[|m.q| - 1].id, ids[|ids| - 1])
  {
    var last, e := |ids| - 1, m.q[|m.q| - 1];
    var m1 := PushMemory(m, l, arrivals[..last]);
    LastSurvives(m, l, arrivals, last);
    LastSurvives(m, l, arrivals, |ids|);
    PushedFrom(m, l, arrivals, ids, last);
    assert ids[last] !in Ids(m1.q);
    assert arrivals[..|ids|] == arrivals;
    var q := PushMemory(m, l, arrivals).q;
    assert q == PushOne(m1, l, arrivals[last]).q;
    hide PushMemory;
    assert q[|q| - 1].id == ids[last];
    var p :| 0 <= p < |q| && q[p] == e;
    assert e.id in Ids(m.q);
  }

  lemma {:induction false} LastIsQueued(m: Memory, l: Limits, arrivals: seq<Arrival>, ids: seq<int>)
    requires Stamped(arrivals, ids) && ids != []
    ensures ids[|ids| - 1] in Ids(PushMemory(m, l, arrivals).q) && PushMemory(m, l, arrivals).offset == m.offset
  {
    PushCounters(m, l, arrivals);
    var last := |ids| - 1;
    var m1, q := PushMemory(m, l, arrivals[..last]), PushMemory(m, l, arrivals).q;
    assert q == PushOne(m1, l, arrivals[last]).q;
    hide PushMemory;
    if ids[last] !in Ids(m1.q) {
      assert q[|q| - 1].id == ids[last];
    }
  }

  // ---- Telegram sends again ----

  /** Telegram sends again up to z. */
  lemma Resend(s: System, mono: real, z: int) returns (acts: seq<Action>, s': System)
    requires s.poller.Idle? && z in s.emitted && s.saved < z && FrontFresh(s.memory, s.limits, mono)
    ensures Leads(s, acts, s')
    ensures var ids := Ordered(Pending(s, z));
            && ids != [] && ids[|ids| - 1] == z && Stamped(Resent(ids, mono), ids) && Increasing(ids)
            && |ids| == |Pending(s, z)|
            && s' == s.(memory := PushMemory(s.memory, s.limits, Resent(ids, mono)),
                        poller := s'.poller, told := s'.told)
  {
    hide Leads;
    hide Ordered;
    hide PushMemory;
    hide BatchOf;
    hide PruneMemory;
    hide Resent;
    var ids := Ordered(Pending(s, z));
    var arrivals := Resent(ids, mono);
    PendingAnswers(s, z);
    ResentStamped(ids, mono);
    PendingEnds(s, z);
    var s1 := Next(s, Poll(ids));
    LeadsOne(s, Poll(ids));
    LeadsOne(s1, Push(arrivals, mono));
    s' := Next(s1, Push(arrivals, mono));
    LeadsThen(s, [Poll(ids)], s1, [Push(arrivals, mono)], s');
    acts := [Poll(ids)] + [Push(arrivals, mono)];
    FrontFreshIff(s.memory, s.limits, mono);
  }

  lemma ResentStamped(ids: seq<int>, at: real)
    ensures Stamped(Resent(ids, at), ids)
  {}

  lemma PendingEnds(s: System, z: int)
    requires z in s.emitted && s.saved < z
    ensures var ids := Ordered(Pending(s, z)); ids != [] && ids[|ids| - 1] == z && Increasing(ids)
  {
    hide Ordered;
    var ids := Ordered(Pending(s, z));
    assert z in ids;
    var k :| 0 <= k < |ids| && ids[k] == z;
    assert ids[|ids| - 1] in ids;
  }

  /** The state after a crash, as far as resending is concerned. */
  lemma AfterCrash(s: System, mono: real, wall: real)
    ensures var s1 := Next(s, Crash(mono, wall));
            && s1.poller.Idle? && s1.emitted == s.emitted && s1.saved == s.saved && s1.limits == s.limits
            && s1.acks == map[] && s1.done == s.done && s1.memory.offset == OffsetOf(s.disk)
            && Ids(s1.memory.q) == Served(s.disk, s.limits, wall) && Ascending(s1.memory.q)
            && FrontFresh(s1.memory, s.limits, mono)
            && (forall z :: Pending(s1, z) == Pending(s, z))
            && (forall r | r in s.replicas :: r in s1.replicas && s1.replicas[r] == s.replicas[r].(waiting := false))
  {
    hide Reload;
    hide Served;
    hide FrontFresh;
    ReloadIsServed(s.disk, s.limits, mono, wall);
    ReloadAccounts(s.disk, s.limits, mono, wall);
    ReloadIsFresh(s.disk, s.limits, mono, wall);
    ReloadOffset(s.disk, s.limits, mono, wall);
  }

  lemma LastIsHighest(q: seq<Entry>, x: int)
    requires Ascending(q) && x in Ids(q)
    ensures q != [] && q[|q| - 1].id >= x && q[|q| - 1].id in Ids(q)
  {}

  /** After a crash that serves some x, an id z below it that the reload left out goes
      behind the highest served one when Telegram sends fewer than maxsize updates
      again. */
  lemma ResendGoesBehind(s: System, mono: real, wall: real, z: int, x: int)
    returns (acts: seq<Action>, s': System, top: int)
    requires z in s.emitted && s.saved < z < x && |Pending(s, z)| < s.limits.maxsize
    requires z !in Served(s.disk, s.limits, wall) && x in Served(s.disk, s.limits, wall)
    ensures Leads(Next(s, Crash(mono, wall)), acts, s') && Precedes(s'.memory.q, top, z) && top >= x
    ensures var s1 := Next(s, Crash(mono, wall));
            && s' == s1.(memory := s'.memory, poller := s'.poller, told := s'.told)
            && s'.memory.offset == OffsetOf(s.disk) && top in Served(s.disk, s.limits, wall)
  {
    hide Leads;
    hide PushMemory;
    hide Precedes;
    hide FrontFresh;
    hide Served;
    hide Pending;
    hide Next;
    hide Ordered;
    hide Resent;
    hide Ids;
    hide Increasing;
    var s1 := Next(s, Crash(mono, wall));
    AfterCrash(s, mono, wall);
    LastIsHighest(s1.memory.q, x);
    top := s1.memory.q[|s1.memory.q| - 1].id;
    acts, s' := Resend(s1, mono, z);
    var ids := Ordered(Pending(s1, z));
    LastGoesBehind(s1.memory, s1.limits, Resent(ids, mono), ids);
    PushCounters(s1.memory, s1.limits, Resent(ids, mono));
  }

  /** After a crash that leaves z out below a served x, if Telegram sends fewer than
      maxsize updates again up to z, every replica whose cursor lies below z can
      receive a decreasing stream. */
  lemma GapDecreases(s: System, mono: real, wall: real, r: int, z: int, x: int)
    returns (acts: seq<Action>, s': System)
    requires z in s.emitted && s.saved < z && OffsetOf(s.disk) < z < x
    requires z !in Served(s.disk, s.limits, wall) && x in Served(s.disk, s.limits, wall)
    requires |Pending(s, z)| < s.limits.maxsize
    requires r in s.replicas && s.replicas[r].cursor < z
    ensures Leads(Next(s, Crash(mono, wall)), acts, s') && r in s'.replicas && !Increasing(s'.replicas[r].stream)
  {
    hide Leads;
    hide Served;
    hide Increasing;
    hide Precedes;
    hide Pending;
    AfterCrash(s, mono, wall);
    hide Next;
    var acts1, s2, top := ResendGoesBehind(s, mono, wall, z, x);
    var acts2;
    acts2, s' := OutOfOrderShows(s2, r, top, z);
    LeadsThen(Next(s, Crash(mono, wall)), acts1, s2, acts2, s');
    acts := acts1 + acts2;
  }

  /** Likewise an acked id that Telegram still holds goes behind the served ones: from
      then on an ack no longer removes it. */
  lemma AckedGoesBehind(s: System, mono: real, wall: real, z: int, x: int) returns (acts: seq<Action>, s': System)
    requires z in s.emitted && s.saved < z <= OffsetOf(s.disk) && x in Served(s.disk, s.limits, wall)
    requires |Pending(s, z)| < s.limits.maxsize
    ensures Leads(Next(s, Crash(mono, wall)), acts, s')
    ensures !AckedFirst(s'.memory.q, s'.memory.offset) && z in Ids(AckMemory(s'.memory, z).q)
  {
    hide Leads;
    hide Served;
    hide Pending;
    hide Next;
    hide Precedes;
    hide AckedFirst;
    hide AckMemory;
    ServedAbove(s, wall);
    var top;
    acts, s', top := ResendGoesBehind(s, mono, wall, z, x);
    StaysBehind(s'.memory, top, z);
  }

  lemma StaysBehind(m: Memory, x: int, z: int)
    requires Precedes(m.q, x, z) && z <= m.offset < x
    ensures !AckedFirst(m.q, m.offset) && z in Ids(AckMemory(m, z).q)
  {
    hide DropAcked;
    hide AckedFirst;
    hide Ids;
    var i, j :| 0 <= i < j < |m.q| && m.q[i].id == x && m.q[j].id == z;
    NotAckedFirst(m.q, m.offset, i, j);
    NotDropped(m.q, m.offset, i, j);
    assert AckMemory(m, z).q == DropAcked(m.q, m.offset);
  }

  lemma NotAckedFirst(q: seq<Entry>, offset: int, i: nat, j: nat)
    requires i < j < |q| && q[j].id <= offset < q[i].id
    ensures !AckedFirst(q, offset)
  {}

  lemma {:induction false} NotDropped(q: seq<Entry>, offset: int, i: nat, j: nat)
    requires i < j < |q| && offset < q[i].id
    ensures q[j].id in Ids(DropAcked(q, offset))
  {
    var r := DropAcked(q, offset);
    DropAckedIsSuffix(q, offset);
    hide DropAcked;
    var cut := |q| - |r|;
    assert cut <= i;
    assert r[j - cut] == q[j];
  }

  lemma ServedAbove(s: System, wall: real)
    ensures forall id | id in Served(s.disk, s.limits, wall) :: id > OffsetOf(s.disk)
  {
    hide Rank;
  }

  /** An ack that has returned but whose offset is not the persisted one does not hold:
      if Telegram still has the id, a crash brings it back to the next look. */
  lemma AckedComesBack(s: System, mono: real, wall: real, id: int) returns (acts: seq<Action>, s': System)
    requires id in s.emitted && s.saved < id && OffsetOf(s.disk) < id <= s.done
    ensures Leads(s, acts, s') && s'.done == s.done
    ensures exists limit :: id in IdsOf(Page(s'.memory, limit))
  {
    hide Leads;
    hide Served;
    hide FrontFresh;
    hide Pending;
    hide PushMemory;
    var s1 := Next(s, Crash(mono, wall));
    LeadsOne(s, Crash(mono, wall));
    AfterCrash(s, mono, wall);
    hide Next;
    var more;
    more, s' := Resend(s1, mono, id);
    LeadsThen(s, [Crash(mono, wall)], s1, more, s');
    acts := [Crash(mono, wall)] + more;
    var ids := Ordered(Pending(s1, id));
    LastIsQueued(s1.memory, s1.limits, Resent(ids, mono), ids);
    PageHolds(s'.memory, id);
  }

  lemma PageHolds(m: Memory, id: int)
    requires id in Ids(m.q) && id > m.offset
    ensures id in IdsOf(Page(m, |m.q| + 1))
  {
    var page := Page(m, |m.q| + 1);
    AboveShrinks(m.q, m.offset);
    AboveMembers(m.q, m.offset);
    hide Above;
    var i :| 0 <= i < |m.q| && m.q[i].id == id;
    assert m.q[i] in page;
    var k :| 0 <= k < |page| && page[k] == m.q[i];
    assert IdsOf(page)[k] == id;
  }

  lemma ReloadOffset(d: Disk, l: Limits, mono: real, wall: real)
    ensures Reload(d, l, mono, wall).offset == OffsetOf(d)
  {}
}
