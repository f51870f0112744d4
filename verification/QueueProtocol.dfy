/** The crash-recovery protocol around the queue: the poller that feeds it
    (internal/botapi/session.go), the consumers that drain it (pkg/client) and a
    process that may die between any two statements. Telegram, the disk and the
    replicas survive a crash; the deque, the consumer offset in memory, the poller
    and the acks in flight do not. */
module QueueProtocol {
  import opened Options
  import opened UpdateQueue

  /** Where the poller stands; its offset variable equals `saved` throughout. */
  datatype Poller =
    | Idle
    | Fetched(ids: seq<int>)
    | Pushed(ids: seq<int>, batch: seq<Entry>)
    | Committed(ids: seq<int>)

  /** An ack between its memory part and its return; n is its snapshot. */
  datatype AckPhase = Deleting(n: int) | Saving(n: int)

  /** A consumer: its cursor, whether a pull is under way, and what it received. */
  datatype Replica = Replica(cursor: int, waiting: bool, stream: seq<int>)

  datatype System = System(
    limits: Limits, memory: Memory, disk: Disk,
    saved: int,                // bots.telegram_offset
    poller: Poller, acks: map<int, AckPhase>, replicas: map<int, Replica>,
    emitted: set<int>,         // ids Telegram has ever assigned
    told: int,                 // highest offset Telegram has been told to forget
    maxAck: int,               // highest offset any consumer has acked
    done: int,                 // highest offset of an ack that has returned
    pruned: map<int, real>,    // ids whose row was deleted by expiry, and how old it was
    delivered: set<int>)       // ids some replica has received

  datatype Action =
    | Emit(id: int)
    | Poll(ids: seq<int>)
    | ExpireRows(wall: real)
    | Push(arrivals: seq<Arrival>, mono: real)
    | CommitBatch(wall: real)
    | SaveOffset
    | AckBegin(thread: int, lastSeen: int)
    | AckDelete(thread: int)
    | AckSave(thread: int)
    | PullBegin(r: int)
    | PullRead(r: int, limit: int)
    | PullEnd(r: int)
    | Crash(mono: real, wall: real)

  function Max(a: int, b: int): int { if a >= b then a else b }

  /** A getUpdates answer above `after`: the lowest pending ids, in order. */
  ghost predicate Answer(ids: seq<int>, emitted: set<int>, after: int) {
    && (forall i | 0 <= i < |ids| :: ids[i] in emitted && after < ids[i])
    && (forall i, j | 0 <= i < j < |ids| :: ids[i] < ids[j])
    && (forall x, i | x in emitted && 0 <= i < |ids| && after < x <= ids[i] :: x in ids)
  }

  ghost predicate Stamped(arrivals: seq<Arrival>, ids: seq<int>) {
    |arrivals| == |ids| && forall i | 0 <= i < |ids| :: arrivals[i].update.id == Some(ids[i])
  }

  ghost predicate Enabled(s: System, a: Action) {
    match a
    case Emit(id) => id > 0 && forall x | x in s.emitted :: x < id
    case Poll(ids) => s.poller.Idle? && Answer(ids, s.emitted, s.saved)
    case ExpireRows(_) => s.poller.Fetched?
    case Push(arrivals, _) => s.poller.Fetched? && Stamped(arrivals, s.poller.ids)
    case CommitBatch(_) => s.poller.Pushed?
    case SaveOffset => s.poller.Committed?
    case AckBegin(t, _) => t !in s.acks && t !in s.replicas
    case AckDelete(t) => t in s.acks && s.acks[t].Deleting?
    case AckSave(t) => t in s.acks && s.acks[t].Saving?
    case PullBegin(r) => r in s.replicas && !s.replicas[r].waiting && r !in s.acks
    case PullRead(r, _) => r in s.replicas && s.replicas[r].waiting && r !in s.acks
    case PullEnd(r) => r in s.replicas && s.replicas[r].waiting && r !in s.acks
    case Crash(_, _) => true
  }

  function BeginAck(s: System, t: int, lastSeen: int): System {
    var m := AckMemory(s.memory, lastSeen);
    s.(memory := m, acks := s.acks[t := Deleting(m.offset)], maxAck := Max(s.maxAck, lastSeen))
  }

  function IdsOf(page: seq<Entry>): seq<int> { seq(|page|, i requires 0 <= i < |page| => page[i].id) }

  /** The client's cursor loop: the highest id seen so far. */
  function Advance(cursor: int, ids: seq<int>): int {
    if ids == [] then cursor else Max(Advance(cursor, ids[..|ids| - 1]), ids[|ids| - 1])
  }

  function Receive(s: System, r: int, limit: int): System
    requires r in s.replicas
  {
    var ids := IdsOf(Page(s.memory, limit));
    var rep := s.replicas[r];
    s.(delivered := s.delivered + (set x | x in ids),
       replicas := s.replicas[r := Replica(Advance(rep.cursor, ids), ids == [], rep.stream + ids)])
  }

  /** The rows of d missing from d', with their age. */
  function Gone(d: Disk, d': Disk, wall: real): map<int, real> {
    map id | id in d.rows && id !in d'.rows :: wall - d.rows[id].enqueuedAt
  }

  ghost function Next(s: System, a: Action): System
    requires Enabled(s, a)
  {
    match a
    case Emit(id) => s.(emitted := s.emitted + {id})
    case Poll(ids) => s.(told := Max(s.told, s.saved), poller := if ids == [] then Idle else Fetched(ids))
    case ExpireRows(wall) =>
      var left := PruneDisk(s.disk, s.limits, wall);
      s.(disk := left, pruned := s.pruned + Gone(s.disk, left, wall))
    case Push(arrivals, mono) =>
      var m := PruneMemory(s.memory, s.limits, mono);
      s.(memory := PushMemory(m, s.limits, arrivals),
         poller := Pushed(s.poller.ids, BatchOf(m, s.limits, arrivals)))
    case CommitBatch(wall) => s.(disk := Commit(s.disk, s.poller.batch, wall), poller := Committed(s.poller.ids))
    case SaveOffset => s.(saved := Advance(s.saved, s.poller.ids), poller := Idle)
    case AckBegin(t, lastSeen) => BeginAck(s, t, lastSeen)
    case AckDelete(t) => s.(disk := DeleteAcked(s.disk, s.acks[t].n), acks := s.acks[t := Saving(s.acks[t].n)])
    case AckSave(t) =>
      s.(disk := SaveAck(s.disk, s.acks[t].n), acks := s.acks - {t}, done := Max(s.done, s.acks[t].n))
    case PullBegin(r) =>
      var s1 := s.(replicas := s.replicas[r := s.replicas[r].(waiting := true)]);
      if s.replicas[r].cursor > 0 then BeginAck(s1, r, s.replicas[r].cursor) else s1
    case PullRead(r, limit) => Receive(s, r, limit)
    case PullEnd(r) => s.(replicas := s.replicas[r := s.replicas[r].(waiting := false)])
    case Crash(mono, wall) =>
      s.(memory := Reload(s.disk, s.limits, mono, wall), disk := DeleteAcked(s.disk, OffsetOf(s.disk)),
         poller := Idle, acks := map[],
         replicas := map r | r in s.replicas :: s.replicas[r].(waiting := false))
  }

  ghost predicate Init(s: System) {
    && s.limits.maxsize >= 1
    && s.memory == Memory([], 0, 0, 0, 0) && s.disk == Disk(map[], None)
    && s.saved == 0 && s.poller == Idle && s.acks == map[] && s.emitted == {} && s.told == 0
    && s.maxAck == 0 && s.done == 0 && s.pruned == map[] && s.delivered == {}
    && forall r | r in s.replicas :: s.replicas[r] == Replica(0, false, [])
  }

  ghost predicate IsExecution(ss: seq<System>, acts: seq<Action>) {
    && |ss| == |acts| + 1 && Init(ss[0])
    && forall i {:trigger Enabled(ss[i], acts[i])} | 0 <= i < |acts| ::
         Enabled(ss[i], acts[i]) && ss[i + 1] == Next(ss[i], acts[i])
  }

  // ---- What the memory and disk functions do to ids ----

  lemma {:induction false} PushIds(m: Memory, l: Limits, arrivals: seq<Arrival>, ids: seq<int>)
    requires Stamped(arrivals, ids)
    ensures Ids(PushMemory(m, l, arrivals).q) <= Ids(m.q) + Ids(BatchOf(m, l, arrivals))
    ensures forall id | id in ids :: id in Ids(m.q) + Ids(BatchOf(m, l, arrivals))
    ensures forall id | id in Ids(BatchOf(m, l, arrivals)) :: id in ids
    ensures PushMemory(m, l, arrivals).offset == m.offset
  {
    if arrivals == [] {
    } else {
      var last := |arrivals| - 1;
      PushIds(m, l, arrivals[..last], ids[..last]);
      var m1, b1 := PushMemory(m, l, arrivals[..last]), BatchOf(m, l, arrivals[..last]);
      var e := Entry(ids[last], Update(Some(ids[last]), arrivals[last].update.payload), arrivals[last].at);
      var room := if |m1.q| >= l.maxsize && m1.q != [] then m1.q[1..] else m1.q;
      assert Ids(room) <= Ids(m1.q);
      IdsLaws(room, e);
      IdsLaws(b1, e);
      assert ids == ids[..last] + [ids[last]];
      assert PushMemory(m, l, arrivals).q == if ids[last] in Ids(m1.q) then m1.q else room + [e];
      assert BatchOf(m, l, arrivals) == if ids[last] in Ids(m1.q) then b1 else b1 + [e];
    }
  }

  lemma {:induction false} CommitKeys(d: Disk, batch: seq<Entry>, wall: real)
    ensures Commit(d, batch, wall).rows.Keys == d.rows.Keys + Ids(batch)
    ensures Commit(d, batch, wall).offset == d.offset
  {
    if batch == [] {
    } else {
      var last := |batch| - 1;
      CommitKeys(d, batch[..last], wall);
      IdsLaws(batch[..last], batch[last]);
      assert batch[..last] + [batch[last]] == batch;
    }
  }

  lemma ShrinkIds(m: Memory, l: Limits, lastSeen: int, now: real)
    ensures Ids(AckMemory(m, lastSeen).q) <= Ids(m.q)
    ensures forall id | id in Ids(m.q) && id > AckMemory(m, lastSeen).offset :: id in Ids(AckMemory(m, lastSeen).q)
    ensures Ids(PruneMemory(m, l, now).q) <= Ids(m.q)
  {
    var q := AckMemory(m, lastSeen).q;
    DropAckedIsSuffix(m.q, AckMemory(m, lastSeen).offset);
    DropExpiredIsSuffix(m.q, now - l.ttl);
    var cut := |m.q| - |q|;
    forall id | id in Ids(m.q) && id > AckMemory(m, lastSeen).offset ensures id in Ids(q) {
      var i :| 0 <= i < |m.q| && m.q[i].id == id;
      assert m.q[i] == q[i - cut];
    }
  }

  lemma ReloadIds(d: Disk, l: Limits, mono: real, wall: real)
    ensures forall id | id in Ids(Reload(d, l, mono, wall).q) :: id in d.rows && id > OffsetOf(d)
  {
    forall id | id in Ids(Reload(d, l, mono, wall).q) ensures id in d.rows && id > OffsetOf(d) {
      ReloadServes(d, l, mono, wall, id);
    }
  }

  lemma {:induction false} AdvanceIsMax(cursor: int, ids: seq<int>)
    ensures Advance(cursor, ids) >= cursor && forall i | 0 <= i < |ids| :: ids[i] <= Advance(cursor, ids)
    ensures Advance(cursor, ids) == cursor || Advance(cursor, ids) in ids
  {
    if ids == [] {
    } else {
      AdvanceIsMax(cursor, ids[..|ids| - 1]);
    }
  }

  // ---- Ids come from Telegram ----

  /** What is queued, stored or in hand Telegram has sent. */
  ghost predicate Sourced(s: System) {
    && Ids(s.memory.q) <= s.emitted && s.disk.rows.Keys <= s.emitted
    && (forall id | id in s.emitted :: id > 0)
    && (!s.poller.Idle? ==> Answer(s.poller.ids, s.emitted, s.saved))
    && (s.poller.Pushed? ==> forall id | id in Ids(s.poller.batch) :: id in s.poller.ids)
  }

  lemma SourcedStep(s: System, a: Action)
    requires Sourced(s) && Enabled(s, a)
    ensures Sourced(Next(s, a))
  {
    match a
    case Push(arrivals, mono) =>
      ShrinkIds(s.memory, s.limits, 0, mono);
      PushIds(PruneMemory(s.memory, s.limits, mono), s.limits, arrivals, s.poller.ids);
    case CommitBatch(wall) => CommitKeys(s.disk, s.poller.batch, wall);
    case AckBegin(t, lastSeen) => ShrinkIds(s.memory, s.limits, lastSeen, 0.0);
    case PullBegin(r) => ShrinkIds(s.memory, s.limits, s.replicas[r].cursor, 0.0);
    case Crash(mono, wall) => ReloadIds(s.disk, s.limits, mono, wall);
    case _ =>
  }

  // ---- Nothing Telegram was told to forget is lost ----

  /** On disk, at or below the highest acked offset, or more than a TTL old when its row
      was deleted. */
  ghost predicate Safe(s: System, id: int) {
    id in s.disk.rows || id <= s.maxAck || (id in s.pruned && s.pruned[id] > s.limits.ttl > 0.0)
  }

  /** What the poller holds in its hands: ids on their way to the disk. */
  function InHand(s: System): set<int> { if s.poller.Pushed? then Ids(s.poller.batch) else {} }

  ghost predicate Covered(s: System, id: int) { Safe(s, id) || id in InHand(s) }

  ghost predicate NothingLost(s: System) {
    && s.told <= s.saved && (s.saved == 0 || s.saved in s.emitted)
    && s.memory.offset <= s.maxAck && OffsetOf(s.disk) <= s.maxAck
    && (forall t | t in s.acks :: s.acks[t].n <= s.maxAck)
    && (forall id | id in s.emitted && id <= s.saved :: Safe(s, id))
    && (forall id | id in Ids(s.memory.q) :: Covered(s, id))
    && (!s.poller.Idle? ==> Answer(s.poller.ids, s.emitted, s.saved))
    && (s.poller.Pushed? || s.poller.Committed? ==> forall id | id in s.poller.ids :: Covered(s, id))
  }

  lemma NothingLostStep(s: System, a: Action)
    requires NothingLost(s) && Enabled(s, a)
    ensures NothingLost(Next(s, a))
  {
    hide NothingLost;
    hide Next;
    match a
    case Push(_, _) => PushKeepsAll(s, a);
    case CommitBatch(wall) => CommitIsSafe(s, wall);
    case SaveOffset => SavingIsSafe(s);
    case AckBegin(t, lastSeen) => AckIsSafe(s, a);
    case PullBegin(r) => AckIsSafe(s, a);
    case Crash(_, _) => RestartIsSafe(s, a);
    case _ => RowsLeaveSafely(s, a);
  }

  lemma CommitIsSafe(s: System, wall: real)
    requires NothingLost(s) && s.poller.Pushed?
    ensures NothingLost(Next(s, CommitBatch(wall)))
  {
    CommitKeys(s.disk, s.poller.batch, wall);
  }

  lemma RowsLeaveSafely(s: System, a: Action)
    requires NothingLost(s) && Enabled(s, a)
    requires !a.Push? && !a.CommitBatch? && !a.SaveOffset? && !a.AckBegin? && !a.PullBegin? && !a.Crash?
    ensures NothingLost(Next(s, a))
  {
    var s' := Next(s, a);
    assert forall id | Safe(s, id) :: Safe(s', id);
  }

  lemma SavingIsSafe(s: System)
    requires NothingLost(s) && s.poller.Committed?
    ensures NothingLost(Next(s, SaveOffset))
  {
    var ids := s.poller.ids;
    AdvanceIsMax(s.saved, ids);
    forall id | id in s.emitted && id <= Advance(s.saved, ids) ensures Safe(s, id) {
      if id > s.saved {
        var i :| 0 <= i < |ids| && ids[i] == Advance(s.saved, ids);
        assert id in ids;
      }
    }
  }

  lemma BeginAckIsSafe(s: System, t: int, lastSeen: int)
    requires NothingLost(s)
    ensures NothingLost(BeginAck(s, t, lastSeen))
  {
    hide Ids;
    hide DropAcked;
    ShrinkIds(s.memory, s.limits, lastSeen, 0.0);
    var s' := BeginAck(s, t, lastSeen);
    assert forall id | Covered(s, id) :: Covered(s', id);
  }

  lemma WaitingIsSafe(s: System, replicas: map<int, Replica>)
    requires NothingLost(s)
    ensures NothingLost(s.(replicas := replicas))
  {
    var s' := s.(replicas := replicas);
    assert forall id | Covered(s, id) :: Covered(s', id);
  }

  lemma AckIsSafe(s: System, a: Action)
    requires NothingLost(s) && Enabled(s, a) && (a.AckBegin? || a.PullBegin?)
    ensures NothingLost(Next(s, a))
  {
    hide NothingLost;
    hide BeginAck;
    if a.AckBegin? {
      BeginAckIsSafe(s, a.thread, a.lastSeen);
    } else {
      var waiting := s.replicas[a.r := s.replicas[a.r].(waiting := true)];
      WaitingIsSafe(s, waiting);
      BeginAckIsSafe(s.(replicas := waiting), a.r, s.replicas[a.r].cursor);
    }
  }

  lemma PushKeepsAll(s: System, a: Action)
    requires NothingLost(s) && Enabled(s, a) && a.Push?
    ensures NothingLost(Next(s, a))
  {
    var m := PruneMemory(s.memory, s.limits, a.mono);
    ShrinkIds(s.memory, s.limits, 0, a.mono);
    PushIds(m, s.limits, a.arrivals, s.poller.ids);
  }

  lemma RestartIsSafe(s: System, a: Action)
    requires NothingLost(s) && a.Crash?
    ensures NothingLost(Next(s, a))
  {
    ReloadIds(s.disk, s.limits, a.mono, a.wall);
    var s' := Next(s, a);
    assert forall id | Safe(s, id) :: Safe(s', id);
  }

  lemma {:induction false} NothingLostAlways(ss: seq<System>, acts: seq<Action>, n: nat)
    requires IsExecution(ss, acts) && n < |ss|
    ensures NothingLost(ss[n])
  {
    hide Next;
    hide Enabled;
    if n == 0 {
    } else {
      NothingLostAlways(ss, acts, n - 1);
      assert Enabled(ss[n - 1], acts[n - 1]);
      NothingLostStep(ss[n - 1], acts[n - 1]);
    }
  }

  /** A restart leaves on disk exactly the rows above the persisted offset, as they are,
      and the offset itself. */
  lemma CrashKeepsUnacked(s: System, mono: real, wall: real, id: int)
    ensures var d := Next(s, Crash(mono, wall)).disk;
            && (id in d.rows <==> id in s.disk.rows && id > OffsetOf(s.disk))
            && (id in d.rows ==> d.rows[id] == s.disk.rows[id]) && d.offset == s.disk.offset
  {}

  /** Polling tells Telegram to forget everything up to the saved offset. */
  lemma PollForgets(s: System, ids: seq<int>)
    requires Enabled(s, Poll(ids))
    ensures var t := Next(s, Poll(ids)).told; t >= s.saved && (t == s.told || t == s.saved)
  {}

  /** In every execution, with crashes anywhere and acks overlapping, each id
      Telegram was told to forget is on disk, or at or below the highest acked
      offset, or its row was more than a TTL old when it was deleted. */
  lemma ForgottenIsNeverLost(ss: seq<System>, acts: seq<Action>, n: nat, id: int)
    requires IsExecution(ss, acts) && n < |ss| && id in ss[n].emitted && id <= ss[n].told
    ensures || id in ss[n].disk.rows || id <= ss[n].maxAck
            || (id in ss[n].pruned && ss[n].pruned[id] > ss[n].limits.ttl > 0.0)
  {
    NothingLostAlways(ss, acts, n);
  }

  // ---- Continuations ----

  /** The actions are enabled one after the other and lead from s to s'. */
  ghost predicate Leads(s: System, acts: seq<Action>, s': System)
    decreases |acts|
  {
    if acts == [] then s == s' else Enabled(s, acts[0]) && Leads(Next(s, acts[0]), acts[1..], s')
  }

  lemma {:induction false} LeadsOn(s: System, acts: seq<Action>, s': System)
    requires acts != [] && Enabled(s, acts[0]) && Leads(Next(s, acts[0]), acts[1..], s')
    ensures Leads(s, acts, s')
  {}

  lemma {:induction false} LeadsNowhere(s: System)
    ensures Leads(s, [], s)
  {}

  lemma {:induction false} LeadsThen(s: System, acts1: seq<Action>, s1: System, acts2: seq<Action>, s2: System)
    requires Leads(s, acts1, s1) && Leads(s1, acts2, s2)
    ensures Leads(s, acts1 + acts2, s2)
    decreases |acts1|
  {
    hide Next;
    hide Enabled;
    if acts1 == [] {
      assert acts1 + acts2 == acts2;
    } else {
      LeadsThen(Next(s, acts1[0]), acts1[1..], s1, acts2, s2);
      assert (acts1 + acts2)[1..] == acts1[1..] + acts2;
    }
  }

  lemma {:induction false} LeadsOne(s: System, a: Action)
    requires Enabled(s, a)
    ensures Leads(s, [a], Next(s, a))
  {
    hide Next;
    hide Enabled;
    LeadsNowhere(Next(s, a));
    assert [a][1..] == [];
  }

  /** The ack t in flight runs to its end. */
  lemma FinishAck(s: System, t: int) returns (acts: seq<Action>, s': System)
    requires t in s.acks
    ensures Leads(s, acts, s')
    ensures s' == s.(disk := s'.disk, acks := s.acks - {t}, done := Max(s.done, s.acks[t].n))
    ensures OffsetOf(s'.disk) == s.acks[t].n
    ensures s'.disk.rows == if s.acks[t].Deleting? then DeleteAcked(s.disk, s.acks[t].n).rows else s.disk.rows
  {
    hide Leads;
    var s1 := s;
    acts := [];
    LeadsNowhere(s);
    if s.acks[t].Deleting? {
      LeadsOne(s, AckDelete(t));
      acts, s1 := [AckDelete(t)], Next(s, AckDelete(t));
      assert s1.acks - {t} == s.acks - {t};
    }
    LeadsOne(s1, AckSave(t));
    s' := Next(s1, AckSave(t));
    LeadsThen(s, acts, s1, [AckSave(t)], s');
    acts := acts + [AckSave(t)];
  }

  /** What a pull by replica r finds in memory once its ack, if any, is done. */
  function Pulled(s: System, r: int): Memory
    requires r in s.replicas
  {
    if s.replicas[r].cursor > 0 then AckMemory(s.memory, s.replicas[r].cursor) else s.memory
  }

  lemma BeginPull(s: System, r: int) returns (acts: seq<Action>, s': System)
    requires r in s.replicas && !s.replicas[r].waiting && r !in s.acks
    ensures Leads(s, acts, s')
    ensures s' == s.(memory := Pulled(s, r), disk := s'.disk, maxAck := s'.maxAck, done := s'.done,
                     replicas := s.replicas[r := s.replicas[r].(waiting := true)])
    ensures s'.disk.rows.Keys <= s.disk.rows.Keys
    ensures s.replicas[r].cursor > 0 ==> s'.disk.rows == DeleteAcked(s.disk, s'.memory.offset).rows
                                         && OffsetOf(s'.disk) == s'.memory.offset
    ensures s.replicas[r].cursor <= 0 ==> s'.disk == s.disk
  {
    hide Leads;
    var s1 := Next(s, PullBegin(r));
    LeadsOne(s, PullBegin(r));
    acts, s' := [PullBegin(r)], s1;
    if s.replicas[r].cursor > 0 {
      var more;
      more, s' := FinishAck(s1, r);
      LeadsThen(s, acts, s1, more, s');
      acts := acts + more;
      assert s'.acks == s.acks;
    }
  }

  /** An idle replica pulls a page, its acks included. */
  lemma PullPage(s: System, r: int, limit: int) returns (acts: seq<Action>, s': System)
    requires r in s.replicas && !s.replicas[r].waiting && r !in s.acks
    ensures Leads(s, acts, s')
    ensures var ids, rep := IdsOf(Page(Pulled(s, r), limit)), s.replicas[r];
            s' == s.(memory := Pulled(s, r), disk := s'.disk, maxAck := s'.maxAck, done := s'.done,
                     delivered := s.delivered + (set x | x in ids),
                     replicas := s.replicas[r := Replica(Advance(rep.cursor, ids), ids == [], rep.stream + ids)])
    ensures s'.disk.rows.Keys <= s.disk.rows.Keys && (s.replicas[r].cursor <= 0 ==> s'.disk == s.disk)
  {
    hide Leads;
    hide Page;
    hide Advance;
    var s1;
    acts, s1 := BeginPull(s, r);
    LeadsOne(s1, PullRead(r, limit));
    s' := Next(s1, PullRead(r, limit));
    LeadsThen(s, acts, s1, [PullRead(r, limit)], s');
    acts := acts + [PullRead(r, limit)];
  }

  // ---- An acked id never comes back ----

  /** The step does not save an offset below the persisted one. */
  ghost predicate SavesForward(s: System, a: Action) {
    a.AckSave? && a.thread in s.acks ==> s.acks[a.thread].n >= OffsetOf(s.disk)
  }

  ghost predicate SavesInOrder(ss: seq<System>, acts: seq<Action>) {
    && |ss| == |acts| + 1
    && forall i {:trigger SavesForward(ss[i], acts[i])} | 0 <= i < |acts| :: SavesForward(ss[i], acts[i])
  }

  ghost predicate OffsetKept(s: System, s': System) { OffsetOf(s.disk) <= OffsetOf(s'.disk) }

  /** A step keeps the persisted offset from going back exactly when it saves
      forward. */
  lemma OffsetKeptIff(s: System, a: Action)
    requires Enabled(s, a)
    ensures OffsetKept(s, Next(s, a)) <==> SavesForward(s, a)
  {
    match a
    case CommitBatch(wall) => CommitKeys(s.disk, s.poller.batch, wall);
    case _ =>
  }

  /** Over a whole execution, overlapping acks and crashes included, the persisted
      offset never decreases if and only if every save is in order. */
  lemma OffsetNeverDecreasesIff(ss: seq<System>, acts: seq<Action>)
    requires IsExecution(ss, acts)
    ensures (forall i {:trigger SavesForward(ss[i], acts[i])} | 0 <= i < |acts| :: OffsetKept(ss[i], ss[i + 1]))
            <==> SavesInOrder(ss, acts)
  {
    hide Next;
    hide Enabled;
    hide OffsetKept;
    hide SavesForward;
    forall i | 0 <= i < |acts| ensures OffsetKept(ss[i], ss[i + 1]) <==> SavesForward(ss[i], acts[i]) {
      assert Enabled(ss[i], acts[i]);
      OffsetKeptIff(ss[i], acts[i]);
    }
  }

  ghost predicate AcksHold(s: System) {
    && s.done <= OffsetOf(s.disk) <= s.memory.offset
    && forall t | t in s.acks :: s.acks[t].n <= s.memory.offset
  }

  lemma AcksHoldStep(s: System, a: Action)
    requires AcksHold(s) && Enabled(s, a) && SavesForward(s, a)
    ensures var s' := Next(s, a);
            && AcksHold(s') && s'.done >= s.done
            && (!a.Crash? ==> s'.memory.offset >= s.memory.offset)
  {
    match a
    case Push(arrivals, mono) => PushIds(PruneMemory(s.memory, s.limits, mono), s.limits, arrivals, s.poller.ids);
    case CommitBatch(wall) => CommitKeys(s.disk, s.poller.batch, wall);
    case _ =>
  }

  lemma {:induction false} AcksHoldAlways(ss: seq<System>, acts: seq<Action>, n: nat)
    requires IsExecution(ss, acts) && SavesInOrder(ss, acts) && n < |ss|
    ensures AcksHold(ss[n])
  {
    hide Next;
    hide Enabled;
    if n == 0 {
    } else {
      AcksHoldAlways(ss, acts, n - 1);
      assert Enabled(ss[n - 1], acts[n - 1]) && SavesForward(ss[n - 1], acts[n - 1]);
      AcksHoldStep(ss[n - 1], acts[n - 1]);
    }
  }

  lemma {:induction false} OffsetsGrow(ss: seq<System>, acts: seq<Action>, i: nat, j: nat)
    requires IsExecution(ss, acts) && SavesInOrder(ss, acts) && i <= j < |ss|
    ensures ss[j].done >= ss[i].done && OffsetOf(ss[j].disk) >= OffsetOf(ss[i].disk)
    ensures (forall k | i <= k < j :: !acts[k].Crash?) ==> ss[j].memory.offset >= ss[i].memory.offset
    decreases j
  {
    hide Next;
    hide Enabled;
    hide AcksHold;
    if i == j {
    } else {
      OffsetsGrow(ss, acts, i, j - 1);
      AcksHoldAlways(ss, acts, j - 1);
      assert Enabled(ss[j - 1], acts[j - 1]) && SavesForward(ss[j - 1], acts[j - 1]);
      AcksHoldStep(ss[j - 1], acts[j - 1]);
      OffsetKeptIff(ss[j - 1], acts[j - 1]);
    }
  }

  /** With saves in order, once an ack has returned no later look at the queue, in
      this or any later process lifetime, yields an id at or below it, even if
      Telegram sends it again; the persisted consumer offset never decreases, and
      the one in memory only at a crash. */
  lemma AckedNeverReturns(ss: seq<System>, acts: seq<Action>, i: nat, j: nat, limit: int)
    requires IsExecution(ss, acts) && SavesInOrder(ss, acts) && i <= j < |ss|
    ensures forall e | e in Page(ss[j].memory, limit) :: e.id > ss[i].done
    ensures OffsetOf(ss[j].disk) >= OffsetOf(ss[i].disk)
    ensures (forall k | i <= k < j :: !acts[k].Crash?) ==> ss[j].memory.offset >= ss[i].memory.offset
  {
    AcksHoldAlways(ss, acts, j);
    OffsetsGrow(ss, acts, i, j);
    AboveMembers(ss[j].memory.q, ss[j].memory.offset);
  }

  // ---- Serial acks save in order, overlapping ones may not ----

  /** Acks do not overlap: none starts while another is in flight. */
  ghost predicate Serial(s: System, a: Action) {
    a.AckBegin? || (a.PullBegin? && a.r in s.replicas && s.replicas[a.r].cursor > 0) ==> s.acks == map[]
  }

  ghost predicate IsSerial(ss: seq<System>, acts: seq<Action>) {
    |ss| == |acts| + 1 && forall i {:trigger Serial(ss[i], acts[i])} | 0 <= i < |acts| :: Serial(ss[i], acts[i])
  }

  ghost predicate OneAck(s: System) {
    && AcksHold(s)
    && (forall t | t in s.acks :: s.acks[t].n == s.memory.offset)
    && (forall t, u | t in s.acks && u in s.acks :: t == u)
  }

  lemma OneAckStep(s: System, a: Action)
    requires OneAck(s) && Enabled(s, a) && Serial(s, a)
    ensures SavesForward(s, a) && OneAck(Next(s, a))
  {
    AcksHoldStep(s, a);
    match a
    case Push(arrivals, mono) => PushIds(PruneMemory(s.memory, s.limits, mono), s.limits, arrivals, s.poller.ids);
    case _ =>
  }

  lemma {:induction false} OneAckAlways(ss: seq<System>, acts: seq<Action>, n: nat)
    requires IsExecution(ss, acts) && IsSerial(ss, acts) && n < |ss|
    ensures OneAck(ss[n])
  {
    hide Next;
    hide Enabled;
    hide Serial;
    if n == 0 {
    } else {
      OneAckAlways(ss, acts, n - 1);
      assert Enabled(ss[n - 1], acts[n - 1]) && Serial(ss[n - 1], acts[n - 1]);
      OneAckStep(ss[n - 1], acts[n - 1]);
    }
  }

  /** So AckedNeverReturns covers every execution with serial acks. */
  lemma SerialSavesInOrder(ss: seq<System>, acts: seq<Action>)
    requires IsExecution(ss, acts) && IsSerial(ss, acts)
    ensures SavesInOrder(ss, acts)
  {
    hide Next;
    hide Enabled;
    hide Serial;
    hide OneAck;
    forall i | 0 <= i < |acts| ensures SavesForward(ss[i], acts[i]) {
      OneAckAlways(ss, acts, i);
      assert Enabled(ss[i], acts[i]) && Serial(ss[i], acts[i]);
      OneAckStep(ss[i], acts[i]);
    }
  }

  /** Any two acks in flight with different snapshots can save in the wrong order
      and leave the persisted offset below an ack that has returned. */
  lemma OverlapRegresses(s: System, t: int, u: int) returns (acts: seq<Action>, s': System)
    requires t in s.acks && u in s.acks && s.acks[t].n < s.acks[u].n
    ensures Leads(s, acts, s') && OffsetOf(s'.disk) == s.acks[t].n < s.acks[u].n <= s'.done
    ensures s'.emitted == s.emitted && s'.saved == s.saved
  {
    hide Leads;
    var acts1, s1 := FinishAck(s, u);
    var acts2, s2 := FinishAck(s1, t);
    LeadsThen(s, acts1, s1, acts2, s2);
    acts, s' := acts1 + acts2, s2;
  }

  // ---- The objects take these steps ----

  function IdsIn(arrivals: seq<Arrival>): seq<int> {
    seq(|arrivals|, i requires 0 <= i < |arrivals| =>
      if arrivals[i].update.id.Some? then arrivals[i].update.id.value else 0)
  }

  /** What the poller does with one answer, undisturbed, is four steps. */
  lemma DeliverIsSteps(s: System, arrivals: seq<Arrival>, mono: real, wallPrune: real, wall: real) returns (s': System)
    requires s.poller.Fetched? && Stamped(arrivals, s.poller.ids)
    ensures Leads(s, [ExpireRows(wallPrune), Push(arrivals, mono), CommitBatch(wall), SaveOffset], s')
    ensures var m := PruneMemory(s.memory, s.limits, mono);
            && s'.memory == PushMemory(m, s.limits, arrivals)
            && s'.disk == Commit(PruneDisk(s.disk, s.limits, wallPrune), BatchOf(m, s.limits, arrivals), wall)
            && s'.saved == Advance(s.saved, IdsIn(arrivals)) && s'.poller == Idle
  {
    hide Leads;
    assert IdsIn(arrivals) == s.poller.ids;
    var s1 := Next(s, ExpireRows(wallPrune));
    var s2 := Next(s1, Push(arrivals, mono));
    var s3 := Next(s2, CommitBatch(wall));
    s' := Next(s3, SaveOffset);
    LeadsNowhere(s');
    var acts := [ExpireRows(wallPrune), Push(arrivals, mono), CommitBatch(wall), SaveOffset];
    assert acts[3..][1..] == [] && acts[2..][1..] == acts[3..] && acts[1..][1..] == acts[2..];
    LeadsOn(s3, acts[3..], s');
    LeadsOn(s2, acts[2..], s');
    LeadsOn(s1, acts[1..], s');
    LeadsOn(s, acts, s');
  }

  /** An ack, undisturbed, is three steps. */
  lemma AckIsSteps(s: System, t: int, lastSeen: int) returns (s': System)
    requires Enabled(s, AckBegin(t, lastSeen))
    ensures Leads(s, [AckBegin(t, lastSeen), AckDelete(t), AckSave(t)], s')
    ensures s'.memory == AckMemory(s.memory, lastSeen)
    ensures s'.disk == SaveAck(DeleteAcked(s.disk, s'.memory.offset), s'.memory.offset) && s'.acks == s.acks
  {
    hide Leads;
    var s1 := Next(s, AckBegin(t, lastSeen));
    var s2 := Next(s1, AckDelete(t));
    s' := Next(s2, AckSave(t));
    LeadsNowhere(s');
    var acts := [AckBegin(t, lastSeen), AckDelete(t), AckSave(t)];
    assert acts[2..][1..] == [] && acts[1..][1..] == acts[2..];
    LeadsOn(s2, acts[2..], s');
    LeadsOn(s1, acts[1..], s');
    LeadsOn(s, acts, s');
  }

  /** The cursor loop the poller and the client share. */
  method Highest(cursor: int, ids: seq<int>) returns (c: int)
    ensures c == Advance(cursor, ids)
  {
    c := cursor;
    for i := 0 to |ids|
      invariant c == Advance(cursor, ids[..i])
    {
      assert ids[..i + 1][..i] == ids[..i];
      if ids[i] > c {
        c := ids[i];
      }
    }
    assert ids[..|ids|] == ids;
  }

  /** The poller of one bot: queue first, then the offset, then the next poll. */
  class BotPoller {
    const queue: Queue
    var offset: int
    var savedOffset: int  // bots.telegram_offset

    constructor (queue: Queue, savedOffset: int)
      ensures this.queue == queue && offset == this.savedOffset == savedOffset
    {
      this.queue, this.savedOffset, offset := queue, savedOffset, savedOffset;
    }

    method Deliver(arrivals: seq<Arrival>, mono: real, wallPrune: real, wall: real)
      requires queue.Valid()
      modifies this, queue
      ensures queue.Valid()
      ensures arrivals == [] ==> queue.Mem() == old(queue.Mem()) && queue.db == old(queue.db)
      ensures arrivals != [] ==>
                var m := PruneMemory(old(queue.Mem()), queue.limits, mono);
                && queue.Mem() == PushMemory(m, queue.limits, arrivals)
                && queue.db == Commit(PruneDisk(old(queue.db), queue.limits, wallPrune),
                                      BatchOf(m, queue.limits, arrivals), wall)
      ensures offset == Advance(old(offset), IdsIn(arrivals))
      ensures savedOffset == if arrivals == [] then old(savedOffset) else offset
    {
      if arrivals == [] {
        return;
      }
      queue.PushAll(arrivals, mono, wallPrune, wall);
      offset := Highest(offset, IdsIn(arrivals));
      savedOffset := offset;
    }
  }

  /** A consumer of pkg/client: one PullUpdates call. */
  class Consumer {
    var offset: int

    method PullUpdates(queue: Queue, limit: int) returns (ids: seq<int>)
      requires queue.Valid()
      modifies this, queue
      ensures queue.Valid()
      ensures queue.Mem() == if old(offset) > 0 then AckMemory(old(queue.Mem()), old(offset)) else old(queue.Mem())
      ensures queue.db == if old(offset) > 0
                          then SaveAck(DeleteAcked(old(queue.db), queue.consumerOffset), queue.consumerOffset)
                          else old(queue.db)
      ensures ids == IdsOf(Page(queue.Mem(), limit))
      ensures offset == Advance(old(offset), ids)
    {
      var page := queue.Pull(if offset > 0 then Some(offset + 1) else None, limit);
      ids := IdsOf(page);
      offset := Highest(offset, ids);
    }
  }
}
