/** Runs from the start that show why the conditions of the theorems are there. */
module QueueRuns {
  import opened IntSets
  import opened Options
  import opened UpdateQueue
  import opened QueueProtocol
  import opened QueueGuards
  import opened QueueOrder
  import opened QueueGaps
  import opened QueueDelivery

  // ---- Building runs ----

  function Boot(maxsize: nat, replicas: map<int, Replica>): System {
    System(Limits(maxsize, 0.0), Memory([], 0, 0, 0, 0), Disk(map[], None), 0, Idle, map[], replicas,
           {}, 0, 0, 0, map[], {})
  }

  lemma Extend(ss: seq<System>, acts: seq<Action>, a: Action) returns (ss': seq<System>, acts': seq<Action>)
    requires IsExecution(ss, acts) && Enabled(ss[|ss| - 1], a)
    ensures IsExecution(ss', acts') && ss' != [] && ss'[|ss'| - 1] == Next(ss[|ss| - 1], a) && acts' == acts + [a]
  {
    hide Next;
    ss', acts' := ss + [Next(ss[|ss| - 1], a)], acts + [a];
    forall i | 0 <= i < |acts'|
      ensures Enabled(ss'[i], acts'[i]) && ss'[i + 1] == Next(ss'[i], acts'[i])
    {
      assert ss'[i] == ss[i];
      if i < |acts| {
        assert Enabled(ss[i], acts[i]) && ss'[i + 1] == ss[i + 1] && acts'[i] == acts[i];
      } else {
        assert i == |ss| - 1 && acts'[i] == a;
      }
    }
    assert ss'[0] == ss[0] && Init(ss'[0]);
  }

  lemma {:induction false} ExtendAll(ss: seq<System>, acts: seq<Action>, more: seq<Action>, s: System)
    returns (ss': seq<System>, acts': seq<Action>)
    requires IsExecution(ss, acts) && Leads(ss[|ss| - 1], more, s)
    ensures IsExecution(ss', acts') && ss' != [] && ss'[|ss'| - 1] == s && acts' == acts + more
    decreases |more|
  {
    hide Next;
    hide Enabled;
    if more == [] {
      ss', acts' := ss, acts;
      assert acts + more == acts;
    } else {
      ss', acts' := Extend(ss, acts, more[0]);
      ss', acts' := ExtendAll(ss', acts', more[1..], s);
      assert acts + more == acts + [more[0]] + more[1..];
    }
  }

  // ---- Overlapping acks ----

  /** Two overlapping acks whose writes land in the other order leave the
      persisted offset below an ack that has returned. */
  lemma OverlappingAcksRegress() returns (ss: seq<System>, acts: seq<Action>)
    ensures IsExecution(ss, acts) && OffsetOf(ss[|ss| - 1].disk) < ss[|ss| - 1].done
  {
    var s0 := Boot(1, map[]);
    var s1 := Next(s0, AckBegin(1, 5));
    var s2 := Next(s1, AckBegin(2, 10));
    var s3 := Next(s2, AckDelete(2));
    var s4 := Next(s3, AckSave(2));
    var s5 := Next(s4, AckDelete(1));
    var s6 := Next(s5, AckSave(1));
    ss := [s0, s1, s2, s3, s4, s5, s6];
    acts := [AckBegin(1, 5), AckBegin(2, 10), AckDelete(2), AckSave(2), AckDelete(1), AckSave(1)];
  }

  // ---- Overflow ----

  function Up(id: int): Arrival { Arrival(Update(Some(id), ""), 0.0) }

  function Queued(id: int): Entry { Entry(id, Update(Some(id), ""), 0.0) }

  lemma {:induction false} PushTwo(m: Memory, l: Limits)
    requires m.q == [] && l.maxsize == 1
    ensures PushMemory(m, l, [Up(1), Up(2)]) == m.(q := [Queued(2)], dropped := m.dropped + 1)
    ensures BatchOf(m, l, [Up(1), Up(2)]) == [Queued(1), Queued(2)]
  {
    var two, one := [Up(1), Up(2)], [Up(1)];
    assert two[..1] == one && one[..0] == [];
    assert PushMemory(m, l, []) == m && BatchOf(m, l, []) == [];
    assert PushMemory(m, l, one) == PushOne(m, l, Up(1)) == m.(q := [Queued(1)]);
    assert BatchOf(m, l, one) == [Queued(1)];
    IdsLaws([], Queued(1));
    assert [] + [Queued(1)] == [Queued(1)];
  }

  /** Two updates arrive in one answer at a deque of size one. */
  lemma FillTinyQueue() returns (ss: seq<System>, acts: seq<Action>)
    ensures IsExecution(ss, acts) && ss != []
    ensures var s := ss[|ss| - 1];
            s.poller == Pushed([1, 2], [Queued(1), Queued(2)])
            && s == Boot(1, map[7 := Replica(0, false, [])])
                    .(memory := Memory([Queued(2)], 0, 1, 0, 0), poller := s.poller, emitted := {1, 2})
  {
    var s0 := Boot(1, map[7 := Replica(0, false, [])]);
    ss, acts := [s0], [];
    ss, acts := Extend(ss, acts, Emit(1));
    ss, acts := Extend(ss, acts, Emit(2));
    ss, acts := Extend(ss, acts, Poll([1, 2]));
    PushTwo(s0.memory, s0.limits);
    ss, acts := Extend(ss, acts, Push([Up(1), Up(2)], 0.0));
  }

  lemma SaveTinyQueue() returns (ss: seq<System>, acts: seq<Action>)
    ensures IsExecution(ss, acts) && ss != []
    ensures var s := ss[|ss| - 1];
            && s.memory == Memory([Queued(2)], 0, 1, 0, 0) && s.told == 2 && s.emitted == {1, 2}
            && s.delivered == {} && s.pruned == map[] && s.acks == map[]
            && s.replicas == map[7 := Replica(0, false, [])]
  {
    ss, acts := FillTinyQueue();
    CommitKeys(Disk(map[], None), [Queued(1), Queued(2)], 0.0);
    ss, acts := Extend(ss, acts, CommitBatch(0.0));
    AdvanceIsMax(0, [1, 2]);
    ss, acts := Extend(ss, acts, SaveOffset);
    ss, acts := Extend(ss, acts, Poll([]));
  }

  /** When the deque overflows, the dropped update's row survives on disk only
      until a later update is acked: it ends up delivered to nobody, deleted from
      disk and forgotten by Telegram. */
  lemma OverflowLosesUndelivered() returns (ss: seq<System>, acts: seq<Action>)
    ensures IsExecution(ss, acts) && ss != []
    ensures var s := ss[|ss| - 1];
            1 in s.emitted && 1 !in s.delivered && 1 !in s.disk.rows && 1 <= s.told && s.pruned == map[]
  {
    hide IsExecution;
    hide Leads;
    ss, acts := SaveTinyQueue();
    var s := ss[|ss| - 1];
    assert s.memory.q[0].id == 2;
    var more, s' := LeftBehindIsLost(s, 1, 2, 7);
    ss, acts := ExtendAll(ss, acts, more, s');
  }

  // ---- A crash in the middle of an ack ----

  const TwoIdle := map[7 := Replica(0, false, []), 8 := Replica(0, false, [])]

  lemma {:induction false} PushBoth(m: Memory, l: Limits)
    requires m.q == [] && l.maxsize == 5
    ensures PushMemory(m, l, [Up(1), Up(2)]) == m.(q := [Queued(1), Queued(2)])
    ensures BatchOf(m, l, [Up(1), Up(2)]) == [Queued(1), Queued(2)]
  {
    var two, one := [Up(1), Up(2)], [Up(1)];
    assert two[..1] == one && one[..0] == [];
    assert PushMemory(m, l, []) == m && BatchOf(m, l, []) == [];
    assert PushMemory(m, l, one) == PushOne(m, l, Up(1)) == m.(q := [Queued(1)]);
    assert BatchOf(m, l, one) == [Queued(1)];
    IdsLaws([], Queued(1));
    assert [] + [Queued(1)] == [Queued(1)];
  }

  function RowAt(id: int): Row { Row(Some(Update(Some(id), "")), 1.0) }

  lemma {:induction false} CommitBoth(d: Disk)
    requires d == Disk(map[], None)
    ensures Commit(d, [Queued(1), Queued(2)], 1.0) == Disk(map[1 := RowAt(1), 2 := RowAt(2)], None)
  {
    var two, one := [Queued(1), Queued(2)], [Queued(1)];
    assert two[..1] == one && one[..0] == [];
    assert Commit(d, [], 1.0) == d;
    assert Commit(d, one, 1.0) == Disk(map[1 := RowAt(1)], None);
  }

  /** Both updates are queued, none is on disk. */
  lemma FillBoth() returns (ss: seq<System>, acts: seq<Action>)
    ensures IsExecution(ss, acts) && ss != []
    ensures ss[|ss| - 1] == Boot(5, TwoIdle).(memory := Memory([Queued(1), Queued(2)], 0, 0, 0, 0), emitted := {1, 2},
                                              poller := Pushed([1, 2], [Queued(1), Queued(2)]))
  {
    hide PushMemory;
    hide BatchOf;
    var s0 := Boot(5, TwoIdle);
    ss, acts := [s0], [];
    ss, acts := Extend(ss, acts, Emit(1));
    ss, acts := Extend(ss, acts, Emit(2));
    ss, acts := Extend(ss, acts, Poll([1, 2]));
    PushBoth(s0.memory, s0.limits);
    ss, acts := Extend(ss, acts, Push([Up(1), Up(2)], 0.0));
  }

  function Stored(): System {
    Boot(5, TwoIdle).(memory := Memory([Queued(1), Queued(2)], 0, 0, 0, 0), emitted := {1, 2},
                      poller := Committed([1, 2]), disk := Disk(map[1 := RowAt(1), 2 := RowAt(2)], None))
  }

  lemma StoreBoth() returns (ss: seq<System>, acts: seq<Action>)
    ensures IsExecution(ss, acts) && ss != [] && ss[|ss| - 1] == Stored()
  {
    hide IsExecution;
    hide Commit;
    ss, acts := FillBoth();
    CommitBoth(ss[|ss| - 1].disk);
    ss, acts := Extend(ss, acts, CommitBatch(1.0));
  }

  lemma FirstOfBoth()
    ensures IdsOf(Page(Memory([Queued(1), Queued(2)], 0, 0, 0, 0), 1)) == [1] && Advance(0, [1]) == 1
  {
    var two, one := [Queued(1), Queued(2)], [Queued(1)];
    assert two[..1] == one && one[..0] == [] && Above(one[..0], 0) == [];
    assert Above(one, 0) == one && Above(two, 0) == two;
    assert [1][..0] == [];
  }

  /** Replica 7 receives update 1 and comes back; its ack has deleted the row and not
      yet saved the offset. */
  lemma AckHalfway() returns (ss: seq<System>, acts: seq<Action>)
    ensures IsExecution(ss, acts) && ss != []
    ensures var s := ss[|ss| - 1];
            && s.limits == Limits(5, 0.0) && s.saved == 0 && s.emitted == {1, 2}
            && s.disk == Disk(map[2 := RowAt(2)], None)
            && 8 in s.replicas && s.replicas[8] == Replica(0, false, [])
  {
    hide IsExecution;
    hide Leads;
    hide Page;
    hide Advance;
    hide DropAcked;
    ss, acts := StoreBoth();
    FirstOfBoth();
    var more, s1 := PullPage(ss[|ss| - 1], 7, 1);
    ss, acts := ExtendAll(ss, acts, more, s1);
    assert s1.replicas[7] == Replica(1, false, [1]) && s1.disk == Stored().disk;
    ss, acts := Extend(ss, acts, PullBegin(7));
    var s2 := ss[|ss| - 1];
    assert s2.acks[7] == Deleting(1) && s2.disk == Stored().disk;
    ss, acts := Extend(ss, acts, AckDelete(7));
    assert ss[|ss| - 1].disk.rows == map[2 := RowAt(2)];
  }

  lemma ServesTheOther(d: Disk, l: Limits)
    requires d == Disk(map[2 := RowAt(2)], None) && l == Limits(5, 0.0)
    ensures Served(d, l, 1.0) == {2}
  {
    hide Rank;
    assert RowsAbove(d, 0) == {2};
    ReloadsAllServes(d, l, 1.0);
  }

  /** A crash there leaves update 1 out below update 2 while Telegram still holds
      both: sent again, 1 goes behind 2, and replica 8 receives 2 before 1. */
  lemma CrashReorders() returns (ss: seq<System>, acts: seq<Action>)
    ensures IsExecution(ss, acts) && ss != []
    ensures var s := ss[|ss| - 1]; 8 in s.replicas && !Increasing(s.replicas[8].stream)
  {
    hide IsExecution;
    hide Leads;
    hide Served;
    hide Increasing;
    ss, acts := AckHalfway();
    var s := ss[|ss| - 1];
    ServesTheOther(s.disk, s.limits);
    assert Pending(s, 1) == {1};
    var more, s' := GapDecreases(s, 0.0, 1.0, 8, 1, 2);
    ss, acts := Extend(ss, acts, Crash(0.0, 1.0));
    ss, acts := ExtendAll(ss, acts, more, s');
  }

  // ---- An acked update comes back ----

  lemma PageOfBoth()
    ensures var m := Memory([Queued(1), Queued(2)], 0, 0, 0, 0);
            IdsOf(Page(m, 100)) == [1, 2] && Advance(0, [1, 2]) == 2
  {
    var two, one := [Queued(1), Queued(2)], [Queued(1)];
    assert two[..1] == one && one[..0] == [] && Above(one[..0], 0) == [];
    assert Above(one, 0) == one && Above(two, 0) == two;
    assert [1, 2][..1] == [1] && [1][..0] == [];
  }

  lemma FirstHasPulled() returns (ss: seq<System>, acts: seq<Action>)
    ensures IsExecution(ss, acts) && ss != []
    ensures var s := ss[|ss| - 1];
            && s.saved == 0 && s.emitted == {1, 2} && s.acks == map[]
            && s.memory == Memory([Queued(1), Queued(2)], 0, 0, 0, 0)
            && s.replicas == map[7 := Replica(1, false, [1]), 8 := Replica(0, false, [])]
  {
    hide IsExecution;
    hide Leads;
    hide Page;
    hide Advance;
    hide Next;
    ss, acts := FillBoth();
    FirstOfBoth();
    var more, s1 := PullPage(ss[|ss| - 1], 7, 1);
    ss, acts := ExtendAll(ss, acts, more, s1);
    assert [] + [1] == [1];
  }

  /** Replica 7 has seen update 1 and replica 8 both. */
  lemma BothHavePulled() returns (ss: seq<System>, acts: seq<Action>)
    ensures IsExecution(ss, acts) && ss != []
    ensures var s := ss[|ss| - 1];
            && s.saved == 0 && s.emitted == {1, 2} && s.acks == map[] && s.memory.offset == 0
            && s.replicas == map[7 := Replica(1, false, [1]), 8 := Replica(2, false, [1, 2])]
  {
    hide IsExecution;
    hide Leads;
    hide Page;
    hide Advance;
    hide Next;
    ss, acts := FirstHasPulled();
    PageOfBoth();
    var more, s1 := PullPage(ss[|ss| - 1], 8, 100);
    ss, acts := ExtendAll(ss, acts, more, s1);
    assert [] + [1, 2] == [1, 2];
  }

  /** Both come back; neither ack has reached the disk. */
  lemma TwoAcksInFlight() returns (ss: seq<System>, acts: seq<Action>)
    ensures IsExecution(ss, acts) && ss != []
    ensures var s := ss[|ss| - 1];
            && s.saved == 0 && s.emitted == {1, 2} && 7 in s.acks && 8 in s.acks
            && s.acks[7] == Deleting(1) && s.acks[8] == Deleting(2)
  {
    hide IsExecution;
    hide DropAcked;
    ss, acts := BothHavePulled();
    ss, acts := Extend(ss, acts, PullBegin(7));
    ss, acts := Extend(ss, acts, PullBegin(8));
  }

  /** Saved in the wrong order, the two acks leave the persisted offset at 1 although
      the ack of 2 has returned; a crash brings update 2 back to the next look. */
  lemma AckedReturns() returns (ss: seq<System>, acts: seq<Action>)
    ensures IsExecution(ss, acts) && ss != []
    ensures var s := ss[|ss| - 1]; 2 <= s.done && exists limit :: 2 in IdsOf(Page(s.memory, limit))
  {
    hide IsExecution;
    hide Leads;
    hide Page;
    ss, acts := TwoAcksInFlight();
    var more, s1 := OverlapRegresses(ss[|ss| - 1], 7, 8);
    ss, acts := ExtendAll(ss, acts, more, s1);
    var s2;
    more, s2 := AckedComesBack(s1, 0.0, 1.0, 2);
    ss, acts := ExtendAll(ss, acts, more, s2);
  }

  // ---- Acked updates crowd out an unacked one ----

  lemma {:induction false} PushSnoc(m: Memory, l: Limits, arrivals: seq<Arrival>, a: Arrival)
    ensures PushMemory(m, l, arrivals + [a]) == PushOne(PushMemory(m, l, arrivals), l, a)
  {
    assert (arrivals + [a])[..|arrivals|] == arrivals;
  }

  lemma {:induction false} PushesThree(m: Memory, l: Limits)
    requires l.maxsize == 3 && (m.q == [] || m.q == [Queued(3)])
    ensures PushMemory(m, l, [Up(1), Up(2), Up(3)])
            == m.(q := if m.q == [] then [Queued(1), Queued(2), Queued(3)] else [Queued(3), Queued(1), Queued(2)])
  {
    hide PushMemory;
    PushNothing(m, l);
    PushSnoc(m, l, [], Up(1));
    PushSnoc(m, l, [Up(1)], Up(2));
    PushSnoc(m, l, [Up(1), Up(2)], Up(3));
    assert [] + [Up(1)] == [Up(1)] && [Up(1)] + [Up(2)] == [Up(1), Up(2)];
    assert [Up(1), Up(2)] + [Up(3)] == [Up(1), Up(2), Up(3)];
    assert PushMemory(m, l, [Up(1)]) == m.(q := m.q + [Queued(1)]);
    assert PushMemory(m, l, [Up(1), Up(2)]) == m.(q := m.q + [Queued(1), Queued(2)]);
    if m.q != [] {
      assert (m.q + [Queued(1), Queued(2)])[0].id == 3;
    }
  }

  lemma {:induction false} PushNothing(m: Memory, l: Limits)
    ensures PushMemory(m, l, []) == m
  {}

  lemma {:induction false} BatchOfThree(m: Memory, l: Limits)
    requires l.maxsize == 3 && m.q == []
    ensures BatchOf(m, l, [Up(1), Up(2), Up(3)]) == [Queued(1), Queued(2), Queued(3)]
  {
    hide PushMemory;
    hide BatchOf;
    var ids := [1, 2, 3];
    assert Elements(ids) == {1, 2, 3} && NewIds(m.q, ids) == {1, 2, 3};
    PushesThree(m, l);
    PushAppends(m, l, [Up(1), Up(2), Up(3)], ids);
    assert [] + BatchOf(m, l, [Up(1), Up(2), Up(3)]) == BatchOf(m, l, [Up(1), Up(2), Up(3)]);
  }

  lemma {:induction false} CommitThree(d: Disk)
    requires d == Disk(map[], None)
    ensures Commit(d, [Queued(1), Queued(2), Queued(3)], 1.0)
            == Disk(map[1 := RowAt(1), 2 := RowAt(2), 3 := RowAt(3)], None)
  {
    var three, two := [Queued(1), Queued(2), Queued(3)], [Queued(1), Queued(2)];
    assert three[..2] == two;
    CommitBoth(d);
  }

  lemma TwoOfThree()
    ensures var m := Memory([Queued(1), Queued(2), Queued(3)], 0, 0, 0, 0);
            IdsOf(Page(m, 2)) == [1, 2] && Advance(0, [1, 2]) == 2
    ensures DropAcked([Queued(1), Queued(2), Queued(3)], 2) == [Queued(3)]
  {
    var three, two, one := [Queued(1), Queued(2), Queued(3)], [Queued(1), Queued(2)], [Queued(1)];
    assert three[..2] == two && two[..1] == one && one[..0] == [] && Above(one[..0], 0) == [];
    assert Above(one, 0) == one && Above(two, 0) == two && Above(three, 0) == three;
    PageOfBoth();
    assert three[1..] == [Queued(2), Queued(3)] && three[1..][1..] == [Queued(3)];
    assert DropAcked([Queued(3)], 2) == [Queued(3)] && DropAcked([Queued(2), Queued(3)], 2) == [Queued(3)];
  }

  lemma ReloadTheThird(d: Disk, l: Limits)
    requires d == Disk(map[3 := RowAt(3)], Some(2)) && l == Limits(3, 0.0)
    ensures Reload(d, l, 0.0, 1.0) == Memory([Queued(3)], 2, 0, 0, 0)
  {
    assert RowsAbove(d, 2) == {3};
    assert ReloadsAll(d, l, 1.0);
    ReloadsAllIff(d, l, 0.0, 1.0);
    ReloadsAllServes(d, l, 1.0);
    ReloadIsServed(d, l, 0.0, 1.0);
    ReloadAccounts(d, l, 0.0, 1.0);
    LoadRowsExact(d, Loaded(d, l, 1.0), 0.0, 1.0);
    hide LoadRows;
    hide Loaded;
    hide Served;
    var q := Reload(d, l, 0.0, 1.0).q;
    assert |q| == 1 && q[0] in q && q[0].id in Ids(q);
  }

  /** All three updates are queued, none is on disk. */
  lemma FillThree() returns (ss: seq<System>, acts: seq<Action>)
    ensures IsExecution(ss, acts) && ss != []
    ensures var s := ss[|ss| - 1];
            && s == Boot(3, TwoIdle).(memory := Memory([Queued(1), Queued(2), Queued(3)], 0, 0, 0, 0),
                                      emitted := {1, 2, 3}, poller := s.poller)
            && s.poller == Pushed([1, 2, 3], [Queued(1), Queued(2), Queued(3)])
  {
    hide PushMemory;
    hide BatchOf;
    var s0 := Boot(3, TwoIdle);
    ss, acts := [s0], [];
    ss, acts := Extend(ss, acts, Emit(1));
    ss, acts := Extend(ss, acts, Emit(2));
    ss, acts := Extend(ss, acts, Emit(3));
    ss, acts := Extend(ss, acts, Poll([1, 2, 3]));
    PushesThree(s0.memory, s0.limits);
    BatchOfThree(s0.memory, s0.limits);
    ss, acts := Extend(ss, acts, Push([Up(1), Up(2), Up(3)], 0.0));
  }

  /** Replica 7 receives 1 and 2 and its ack of 2 is done, on disk and all; the poll offset
      is not saved when the process dies. */
  lemma AckThenCrash() returns (ss: seq<System>, acts: seq<Action>)
    ensures IsExecution(ss, acts) && ss != []
    ensures var s := ss[|ss| - 1];
            && s.limits == Limits(3, 0.0) && s.memory == Memory([Queued(3)], 2, 0, 0, 0) && s.poller == Idle
            && s.saved == 0 && s.emitted == {1, 2, 3} && s.delivered == {1, 2}
  {
    hide IsExecution;
    hide Leads;
    hide Page;
    hide Advance;
    hide DropAcked;
    hide Commit;
    hide Reload;
    ss, acts := FillThree();
    CommitThree(ss[|ss| - 1].disk);
    ss, acts := Extend(ss, acts, CommitBatch(1.0));
    TwoOfThree();
    var more, s1 := PullPage(ss[|ss| - 1], 7, 2);
    ss, acts := ExtendAll(ss, acts, more, s1);
    assert s1.replicas[7] == Replica(2, false, [1, 2]);
    var s2;
    more, s2 := BeginPull(s1, 7);
    ss, acts := ExtendAll(ss, acts, more, s2);
    assert s2.disk.rows == map[3 := RowAt(3)] && OffsetOf(s2.disk) == 2;
    ReloadTheThird(s2.disk, s2.limits);
    ss, acts := Extend(ss, acts, Crash(0.0, 1.0));
  }

  /** Sent again, 1 and 2 go behind 3, and no ack removes them any more. */
  lemma AckedBehind() returns (ss: seq<System>, acts: seq<Action>)
    ensures IsExecution(ss, acts) && ss != []
    ensures var s := ss[|ss| - 1];
            && s.memory == Memory([Queued(3), Queued(1), Queued(2)], 2, 0, 0, 0)
            && AckMemory(s.memory, 2) == s.memory && !AckedFirst(s.memory.q, s.memory.offset)
            && s.limits == Limits(3, 0.0) && s.poller.Pushed? && s.poller.ids == [1, 2, 3]
            && s.saved == 0 && s.emitted == {1, 2, 3} && s.delivered == {1, 2}
  {
    hide IsExecution;
    hide PushMemory;
    hide BatchOf;
    ss, acts := AckThenCrash();
    var s := ss[|ss| - 1];
    ss, acts := Extend(ss, acts, Poll([1, 2, 3]));
    PushesThree(s.memory, s.limits);
    ss, acts := Extend(ss, acts, Push([Up(1), Up(2), Up(3)], 0.0));
    var q := ss[|ss| - 1].memory.q;
    NotAckedFirst(q, 2, 0, 1);
  }

  lemma {:induction false} PushFourth(m: Memory, l: Limits)
    requires l.maxsize == 3 && m.q == [Queued(3), Queued(1), Queued(2)]
    ensures PushMemory(m, l, [Up(4)]) == m.(q := [Queued(1), Queued(2), Queued(4)], dropped := m.dropped + 1)
  {
    hide PushMemory;
    PushNothing(m, l);
    PushSnoc(m, l, [], Up(4));
    assert [] + [Up(4)] == [Up(4)];
    assert m.q[1..] == [Queued(1), Queued(2)];
  }

  /** The next update then pushes the unacked 3 out while the acked 1 and 2 stay. */
  lemma AckedCrowdsOut() returns (ss: seq<System>, acts: seq<Action>)
    ensures IsExecution(ss, acts) && ss != []
    ensures var s := ss[|ss| - 1];
            && s.memory.q == [Queued(1), Queued(2), Queued(4)] && s.memory.offset == 2
            && 3 in s.emitted && 3 !in s.delivered
  {
    hide IsExecution;
    hide PushMemory;
    hide BatchOf;
    hide Commit;
    ss, acts := AckedBehind();
    ss, acts := Extend(ss, acts, CommitBatch(1.0));
    AdvanceIsMax(0, [1, 2, 3]);
    ss, acts := Extend(ss, acts, SaveOffset);
    ss, acts := Extend(ss, acts, Emit(4));
    ss, acts := Extend(ss, acts, Poll([4]));
    PushFourth(ss[|ss| - 1].memory, ss[|ss| - 1].limits);
    ss, acts := Extend(ss, acts, Push([Up(4)], 0.0));
  }
}
