/** What the queue protocol owes an update that no replica has received yet. An
    undelivered update is lost only if it left the deque, the reload or the disk
    itself; what happens to other updates does not matter. */
module QueueDelivery {
  import opened IntSets
  import opened Options
  import opened UpdateQueue
  import opened QueueProtocol
  import opened QueueGuards

  /** Once in the deque, id is in it after every arrival of the batch. */
  ghost predicate Stays(m: Memory, l: Limits, arrivals: seq<Arrival>, id: int) {
    forall k | 0 <= k < |arrivals| && id in Ids(PushMemory(m, l, arrivals[..k]).q) ::
      id in Ids(PushMemory(m, l, arrivals[..k + 1]).q)
  }

  /** The step does not lose id: a push neither expires it nor drops it from the
      deque, the reload serves its row, its row does not expire, and nobody acks it
      unseen. */
  ghost predicate Spared(s: System, a: Action, id: int) {
    match a
    case Push(arrivals, mono) =>
      var m := PruneMemory(s.memory, s.limits, mono);
      (id in Ids(s.memory.q) ==> id in Ids(m.q)) && Stays(m, s.limits, arrivals, id)
    case ExpireRows(wall) => id !in ExpiredRows(s.disk, s.limits, wall)
    case Crash(_, wall) => id in s.disk.rows && id > OffsetOf(s.disk) ==> id in Served(s.disk, s.limits, wall)
    case AckBegin(_, lastSeen) => lastSeen < id
    case _ => true
  }

  /** Every step of the first n spares id while no replica has received it. */
  ghost predicate IsSpared(ss: seq<System>, acts: seq<Action>, n: nat, id: int) {
    && n <= |acts| <= |ss|
    && forall i {:trigger Spared(ss[i], acts[i], id)} | 0 <= i < n ::
         id !in ss[i].delivered ==> Spared(ss[i], acts[i], id)
  }

  // ---- The invariant ----

  ghost predicate Due(s: System, id: int) { id in s.emitted && id !in s.delivered }

  predicate Known(s: System, id: int) { id == 0 || id in s.emitted }

  /** Cursors and acks come from pages, or are below id. */
  ghost predicate AcksKnown(s: System, id: int) {
    && Known(s, s.saved) && (Known(s, s.maxAck) || s.maxAck < id)
    && forall r | r in s.replicas :: Known(s, s.replicas[r].cursor)
  }

  /** Queued, id comes after smaller ids only; not queued, it lies above them and
      Telegram still holds it. */
  ghost predicate QueuedInOrder(q: seq<Entry>, id: int) {
    forall i, j | 0 <= i < j < |q| && q[j].id == id :: q[i].id < id
  }

  ghost predicate InQueue(s: System, id: int) {
    && QueuedInOrder(s.memory.q, id)
    && (id !in Ids(s.memory.q) ==>
          && id > s.saved && (forall x | x in Ids(s.memory.q) :: x < id)
          && (s.poller.Pushed? || s.poller.Committed? ==> id !in s.poller.ids))
  }

  ghost predicate OnDisk(s: System, id: int) {
    && (id !in s.disk.rows ==>
          && id > s.saved && (forall x | x in s.disk.rows :: x < id)
          && (s.poller.Committed? ==> id !in s.poller.ids))
    && (id in Ids(s.memory.q) ==> id in s.disk.rows || id in InHand(s))
  }

  ghost predicate Unacked(s: System, id: int) {
    id > s.maxAck && forall r | r in s.replicas :: id > s.replicas[r].cursor
  }

  ghost predicate Kept(s: System, id: int) {
    && NothingLost(s) && Sourced(s)
    && (id !in s.delivered ==> AcksKnown(s, id))
    && (Due(s, id) ==> InQueue(s, id) && OnDisk(s, id) && Unacked(s, id))
  }

  // ---- Pushing ----

  /** After the first k ids of the answer: id is in order, or not yet reached. */
  ghost predicate Reaching(s: System, ids: seq<int>, q: seq<Entry>, k: nat, id: int)
    requires k <= |ids|
  {
    && QueuedInOrder(q, id)
    && (id !in Ids(q) ==> id !in ids[..k] && id > s.saved && forall x | x in Ids(q) :: x < id)
  }

  lemma EarlierIsInAnswer(emitted: set<int>, after: int, ids: seq<int>, k: nat, z: int)
    requires Answer(ids, emitted, after) && k < |ids| && z in emitted && after < z < ids[k]
    ensures z in ids[..k]
  {
    var j :| 0 <= j < |ids| && ids[j] == z;
    assert ids[..k][j] == z;
  }

  lemma AppendQueued(q: seq<Entry>, e: Entry, id: int)
    requires QueuedInOrder(q, id) && (e.id == id ==> forall x | x in Ids(q) :: x < id)
    ensures QueuedInOrder(q + [e], id)
  {
    var q' := q + [e];
    forall i, j | 0 <= i < j < |q'| && q'[j].id == id ensures q'[i].id < id {
      assert q[i].id in Ids(q);
    }
  }

  lemma FrontDropKeeps(q: seq<Entry>, id: int)
    requires q != [] && QueuedInOrder(q, id)
    ensures QueuedInOrder(q[1..], id) && Ids(q[1..]) <= Ids(q)
  {
    assert forall i | 0 <= i < |q| - 1 :: q[1..][i] == q[i + 1];
  }

  lemma ReachingStep(s: System, ids: seq<int>, m: Memory, l: Limits, a: Arrival, k: nat, id: int)
    requires Answer(ids, s.emitted, s.saved) && k < |ids| && id in s.emitted && a.update.id == Some(ids[k])
    requires Reaching(s, ids, m.q, k, id) && (id in Ids(m.q) ==> id in Ids(PushOne(m, l, a).q))
    ensures Reaching(s, ids, PushOne(m, l, a).q, k + 1, id)
  {
    assert ids[..k + 1] == ids[..k] + [ids[k]];
    if ids[k] !in Ids(m.q) {
      var full := |m.q| >= l.maxsize && m.q != [];
      var room, e := if full then m.q[1..] else m.q, EntryFor(a, ids[k]);
      if full { FrontDropKeeps(m.q, id); }
      if id !in Ids(m.q) && id < ids[k] { EarlierIsInAnswer(s.emitted, s.saved, ids, k, id); }
      IdsLaws(room, e);
      AppendQueued(room, e, id);
      assert PushOne(m, l, a).q == room + [e];
    }
  }

  lemma {:induction false} PushReaches(s: System, m: Memory, arrivals: seq<Arrival>, ids: seq<int>, k: nat, id: int)
    requires Answer(ids, s.emitted, s.saved) && Stamped(arrivals, ids) && k <= |ids| && id in s.emitted
    requires Reaching(s, ids, m.q, 0, id) && Stays(m, s.limits, arrivals, id)
    ensures Reaching(s, ids, PushMemory(m, s.limits, arrivals[..k]).q, k, id)
  {
    if k == 0 {
    } else {
      PushReaches(s, m, arrivals, ids, k - 1, id);
      assert arrivals[..k][..k - 1] == arrivals[..k - 1];
      var m1 := PushMemory(m, s.limits, arrivals[..k - 1]);
      assert PushMemory(m, s.limits, arrivals[..k]) == PushOne(m1, s.limits, arrivals[k - 1]);
      assert id in Ids(m1.q) ==> id in Ids(PushMemory(m, s.limits, arrivals[..k - 1 + 1]).q);
      hide Reaching;
      hide PushOne;
      hide PushMemory;
      ReachingStep(s, ids, m1, s.limits, arrivals[k - 1], k - 1, id);
    }
  }

  lemma PruneReaches(s: System, ids: seq<int>, mono: real, id: int)
    requires InQueue(s, id)
    requires var m := PruneMemory(s.memory, s.limits, mono); id in Ids(s.memory.q) ==> id in Ids(m.q)
    ensures Reaching(s, ids, PruneMemory(s.memory, s.limits, mono).q, 0, id)
  {
    ShrinkIds(s.memory, s.limits, 0, mono);
    DropExpiredIsSuffix(s.memory.q, mono - s.limits.ttl);
  }

  lemma PushOutcome(s: System, a: Action, id: int)
    requires InQueue(s, id) && id in s.emitted && Sourced(s) && Enabled(s, a) && a.Push? && Spared(s, a, id)
    ensures var s' := Next(s, a);
            && Reaching(s, s.poller.ids, s'.memory.q, |s.poller.ids|, id)
            && Ids(s'.memory.q) <= Ids(s.memory.q) + InHand(s')
  {
    hide Reaching;
    hide PushMemory;
    hide BatchOf;
    hide PruneMemory;
    hide Stays;
    var m, ids := PruneMemory(s.memory, s.limits, a.mono), s.poller.ids;
    PruneReaches(s, ids, a.mono, id);
    PushReaches(s, m, a.arrivals, ids, |ids|, id);
    assert a.arrivals[..|ids|] == a.arrivals;
    ShrinkIds(s.memory, s.limits, 0, a.mono);
    PushIds(m, s.limits, a.arrivals, ids);
  }

  lemma KeptPush(s: System, a: Action, id: int)
    requires Kept(s, id) && Due(s, id) && Enabled(s, a) && a.Push? && Spared(s, a, id)
    ensures InQueue(Next(s, a), id) && OnDisk(Next(s, a), id) && Unacked(Next(s, a), id)
  {
    hide PushMemory;
    hide BatchOf;
    hide PruneMemory;
    hide Spared;
    hide NothingLost;
    hide Ids;
    PushOutcome(s, a, id);
    assert s.poller.ids[..|s.poller.ids|] == s.poller.ids;
  }

  // ---- The other steps ----

  lemma KeptEmit(s: System, a: Action, id: int)
    requires Kept(s, id) && id !in s.delivered && Enabled(s, a) && a.Emit?
    ensures AcksKnown(Next(s, a), id)
    ensures Due(Next(s, a), id) ==> InQueue(Next(s, a), id) && OnDisk(Next(s, a), id) && Unacked(Next(s, a), id)
  {
    if a.id == id {
      assert id !in Ids(s.memory.q) && id !in s.disk.rows;
      assert forall j | 0 <= j < |s.memory.q| :: s.memory.q[j].id in Ids(s.memory.q);
    }
  }

  lemma KeptCommit(s: System, a: Action, id: int)
    requires Kept(s, id) && Due(s, id) && Enabled(s, a) && a.CommitBatch?
    ensures InQueue(Next(s, a), id) && OnDisk(Next(s, a), id) && Unacked(Next(s, a), id)
  {
    CommitKeys(s.disk, s.poller.batch, a.wall);
    var s' := Next(s, a);
    if id !in s'.disk.rows {
      assert id !in Ids(s.memory.q) && id !in s.poller.ids;
      forall x | x in Ids(s.poller.batch) ensures x < id {
        var k :| 0 <= k < |s.poller.ids| && s.poller.ids[k] == x;
      }
    }
  }

  lemma KeptSave(s: System, id: int)
    requires Kept(s, id) && Due(s, id) && s.poller.Committed?
    ensures var s' := Next(s, SaveOffset); InQueue(s', id) && OnDisk(s', id) && Unacked(s', id)
  {
    AdvanceIsMax(s.saved, s.poller.ids);
    var ids, top := s.poller.ids, Advance(s.saved, s.poller.ids);
    if id > s.saved && id !in ids && top != s.saved {
      var k :| 0 <= k < |ids| && ids[k] == top;
    }
  }

  lemma AckKeeps(m: Memory, l: Limits, lastSeen: int, id: int)
    requires QueuedInOrder(m.q, id) && id > lastSeen && id > m.offset
    ensures var r := AckMemory(m, lastSeen);
            && QueuedInOrder(r.q, id) && Ids(r.q) <= Ids(m.q) && (id in Ids(m.q) ==> id in Ids(r.q))
  {
    ShrinkIds(m, l, lastSeen, 0.0);
    DropAckedIsSuffix(m.q, AckMemory(m, lastSeen).offset);
    hide DropAcked;
  }

  lemma KeptAck(s: System, a: Action, id: int)
    requires Kept(s, id) && Due(s, id) && Enabled(s, a) && (a.AckBegin? || a.PullBegin?) && Spared(s, a, id)
    ensures InQueue(Next(s, a), id) && OnDisk(Next(s, a), id) && Unacked(Next(s, a), id)
  {
    hide AckMemory;
    hide QueuedInOrder;
    hide Ids;
    var lastSeen := if a.AckBegin? then a.lastSeen else s.replicas[a.r].cursor;
    AckKeeps(s.memory, s.limits, lastSeen, id);
  }

  lemma KeptCrash(s: System, a: Action, id: int)
    requires Kept(s, id) && Due(s, id) && a.Crash? && Spared(s, a, id)
    ensures InQueue(Next(s, a), id) && OnDisk(Next(s, a), id) && Unacked(Next(s, a), id)
  {
    ReloadIsServed(s.disk, s.limits, a.mono, a.wall);
    ReloadIds(s.disk, s.limits, a.mono, a.wall);
    ReloadAccounts(s.disk, s.limits, a.mono, a.wall);
    hide Served;
    hide Reload;
  }

  // ---- Reading ----

  lemma {:induction false} AboveQueued(q: seq<Entry>, offset: int, id: int)
    requires QueuedInOrder(q, id)
    ensures QueuedInOrder(Above(q, offset), id)
  {
    if q == [] {
    } else {
      var front, e := q[..|q| - 1], q[|q| - 1];
      AboveQueued(front, offset, id);
      AboveMembers(front, offset);
      if e.id > offset {
        var a := Above(front, offset);
        forall x | x in Ids(a) && e.id == id ensures x < id {
          var i :| 0 <= i < |a| && a[i].id == x;
          assert a[i] in a && a[i] in front;
          var j :| 0 <= j < |front| && front[j] == a[i];
          assert q[j] == front[j];
        }
        AppendQueued(a, e, id);
      }
    }
  }

  /** A page is a prefix of the entries above the offset, so an id left out of it
      lies above all of it. */
  lemma LeftOutIsAbove(s: System, limit: int, id: int, i: nat)
    requires InQueue(s, id) && id > s.memory.offset && i < |Page(s.memory, limit)|
    requires id !in IdsOf(Page(s.memory, limit))
    ensures Page(s.memory, limit)[i].id < id
  {
    var q, offset := s.memory.q, s.memory.offset;
    var all, page := Above(q, offset), Page(s.memory, limit);
    AboveMembers(q, offset);
    assert page[i] in q && page[i].id in Ids(q);
    assert forall k | 0 <= k < |page| :: page[k] == all[k] && IdsOf(page)[k] == page[k].id;
    if id in Ids(q) {
      var j :| 0 <= j < |q| && q[j].id == id;
      assert q[j] in all;
      var k :| 0 <= k < |all| && all[k] == q[j];
      AboveQueued(q, offset, id);
    }
  }

  lemma PageKnown(s: System, limit: int)
    requires Sourced(s)
    ensures var ids := IdsOf(Page(s.memory, limit)); forall i | 0 <= i < |ids| :: ids[i] in s.emitted
  {
    var page := Page(s.memory, limit);
    AboveMembers(s.memory.q, s.memory.offset);
    hide Above;
    forall i | 0 <= i < |page| ensures page[i].id in s.emitted {
      assert page[i] in Above(s.memory.q, s.memory.offset) && page[i] in s.memory.q;
      assert page[i].id in Ids(s.memory.q);
    }
  }

  lemma KeptRead(s: System, r: int, limit: int, id: int)
    requires Kept(s, id) && Enabled(s, PullRead(r, limit)) && id !in s.delivered
    ensures var s' := Next(s, PullRead(r, limit));
            && (id !in s'.delivered ==> AcksKnown(s', id))
            && (Due(s', id) ==> InQueue(s', id) && OnDisk(s', id) && Unacked(s', id))
  {
    var ids := IdsOf(Page(s.memory, limit));
    var s' := Next(s, PullRead(r, limit));
    PageKnown(s, limit);
    AdvanceIsMax(s.replicas[r].cursor, ids);
    if Due(s', id) {
      forall i | 0 <= i < |ids| ensures ids[i] < id { LeftOutIsAbove(s, limit, id, i); }
    }
    hide Page;
    hide Advance;
  }

  // ---- All steps ----

  lemma KeptQuiet(s: System, a: Action, id: int)
    requires Kept(s, id) && id !in s.delivered && Enabled(s, a) && Spared(s, a, id)
    requires a.Poll? || a.ExpireRows? || a.AckDelete? || a.AckSave? || a.PullEnd?
    ensures AcksKnown(Next(s, a), id)
    ensures Due(s, id) ==> InQueue(Next(s, a), id) && OnDisk(Next(s, a), id) && Unacked(Next(s, a), id)
  {}

  lemma AcksKnownStep(s: System, a: Action, id: int)
    requires Kept(s, id) && id !in s.delivered && Enabled(s, a) && Spared(s, a, id) && !a.PullRead?
    ensures AcksKnown(Next(s, a), id)
  {
    if a.SaveOffset? { AdvanceIsMax(s.saved, s.poller.ids); }
  }

  lemma KeptStep(s: System, a: Action, id: int)
    requires Kept(s, id) && Enabled(s, a) && (id !in s.delivered ==> Spared(s, a, id))
    ensures Kept(Next(s, a), id)
  {
    NothingLostStep(s, a);
    SourcedStep(s, a);
    if id !in s.delivered { KeptBody(s, a, id); }
    DeliveredStays(s, a, id);
    hide Next;
    hide NothingLost;
    hide Sourced;
    hide AcksKnown;
    hide InQueue;
    hide OnDisk;
    hide Unacked;
  }

  lemma DeliveredStays(s: System, a: Action, id: int)
    requires Enabled(s, a)
    ensures id in s.delivered ==> id in Next(s, a).delivered
    ensures !a.Emit? && Due(Next(s, a), id) ==> Due(s, id)
  {}

  lemma KeptBody(s: System, a: Action, id: int)
    requires Kept(s, id) && Enabled(s, a) && id !in s.delivered && Spared(s, a, id)
    ensures id !in Next(s, a).delivered ==> AcksKnown(Next(s, a), id)
    ensures Due(Next(s, a), id) ==> InQueue(Next(s, a), id) && OnDisk(Next(s, a), id) && Unacked(Next(s, a), id)
  {
    hide Next;
    hide Kept;
    hide Spared;
    hide AcksKnown;
    hide InQueue;
    hide OnDisk;
    hide Unacked;
    DeliveredStays(s, a, id);
    if !a.PullRead? { AcksKnownStep(s, a, id); }
    if a.Emit? {
      KeptEmit(s, a, id);
    } else if a.PullRead? {
      KeptRead(s, a.r, a.limit, id);
    } else if Due(s, id) {
      match a
      case Push(_, _) => KeptPush(s, a, id);
      case CommitBatch(_) => KeptCommit(s, a, id);
      case SaveOffset => KeptSave(s, id);
      case AckBegin(_, _) => KeptAck(s, a, id);
      case PullBegin(_) => KeptAck(s, a, id);
      case Crash(_, _) => KeptCrash(s, a, id);
      case _ => KeptQuiet(s, a, id);
    }
  }

  lemma {:induction false} KeptAlways(ss: seq<System>, acts: seq<Action>, n: nat, id: int)
    requires IsExecution(ss, acts) && IsSpared(ss, acts, n, id) && n < |ss|
    ensures Kept(ss[n], id)
  {
    hide Next;
    hide Enabled;
    hide Spared;
    if n == 0 {
    } else {
      hide Kept;
      KeptAlways(ss, acts, n - 1, id);
      assert Enabled(ss[n - 1], acts[n - 1]);
      assert id !in ss[n - 1].delivered ==> Spared(ss[n - 1], acts[n - 1], id);
      KeptStep(ss[n - 1], acts[n - 1], id);
    }
  }

  /** In every execution, crashes included, an update no replica has received and no
      step has lost is above every acked offset and every cursor; it is queued or
      Telegram still holds it, and its row is on disk or Telegram was not told to
      forget it. Whatever becomes of other updates. */
  lemma UndeliveredIsNeverRemoved(ss: seq<System>, acts: seq<Action>, n: nat, id: int)
    requires IsExecution(ss, acts) && n < |ss| && IsSpared(ss, acts, n, id)
    requires id in ss[n].emitted && id !in ss[n].delivered
    ensures id > ss[n].maxAck && id > ss[n].memory.offset && id > OffsetOf(ss[n].disk)
    ensures forall r | r in ss[n].replicas :: id > ss[n].replicas[r].cursor
    ensures id in Ids(ss[n].memory.q) || id > ss[n].saved
    ensures id in ss[n].disk.rows || id > ss[n].told
  {
    hide Spared;
    KeptAlways(ss, acts, n, id);
  }

  // ---- Runs that lose nothing ----

  predicate RowsFresh(d: Disk, l: Limits, wall: real) {
    l.ttl <= 0.0 || forall id | id in d.rows :: d.rows[id].enqueuedAt >= wall - l.ttl
  }

  lemma RowsFreshIff(d: Disk, l: Limits, wall: real)
    ensures RowsFresh(d, l, wall) <==> PruneDisk(d, l, wall).rows == d.rows
    ensures RowsFresh(d, l, wall) ==> ExpiredRows(d, l, wall) == {}
  {
    var gone := ExpiredRows(d, l, wall);
    if RowsFresh(d, l, wall) {
      assert forall id | id in d.rows :: id !in gone;
      assert gone <= d.rows.Keys;
      assert gone == {} && d.rows - gone == d.rows;
    }
    if PruneDisk(d, l, wall).rows == d.rows {
      forall id | id in d.rows ensures id !in gone {
        assert id in d.rows - gone;
      }
    }
  }

  /** What loses no update at all, read off the state before the step: a push with a
      fresh front and room for its new ids, no expired row, a crash at which every
      row above the offset is unexpired, parses and fits, and no acks but those of
      replicas pulling with their cursor. */
  ghost predicate Lossless(s: System, a: Action) {
    match a
    case Push(_, mono) =>
      s.poller.Fetched? ==> FrontFresh(s.memory, s.limits, mono) && HasRoom(s.memory, s.limits, s.poller.ids)
    case ExpireRows(wall) => RowsFresh(s.disk, s.limits, wall)
    case Crash(_, wall) => ReloadsAll(s.disk, s.limits, wall)
    case AckBegin(_, _) => false
    case _ => true
  }

  /** The counters show nothing dropped, expired or left unloaded. */
  ghost predicate NothingCounted(s: System, a: Action)
    requires Enabled(s, a)
  {
    var s' := Next(s, a);
    match a
    case Push(_, _) => s'.memory.dropped == s.memory.dropped && s'.memory.expired == s.memory.expired
    case ExpireRows(_) => s'.disk.rows == s.disk.rows
    case Crash(_, _) => s'.memory.unloaded == 0
    case AckBegin(_, _) => false
    case _ => true
  }

  /** The guards are exact. */
  lemma LosslessIff(s: System, a: Action)
    requires Enabled(s, a) && Sourced(s) && s.limits.maxsize >= 1 && |s.memory.q| <= s.limits.maxsize
    ensures Lossless(s, a) <==> NothingCounted(s, a)
  {
    match a
    case Push(arrivals, mono) => PushCountsIff(s.memory, s.limits, arrivals, s.poller.ids, mono);
    case ExpireRows(wall) => RowsFreshIff(s.disk, s.limits, wall);
    case Crash(mono, wall) => ReloadsAllIff(s.disk, s.limits, mono, wall);
    case _ =>
  }

  lemma {:induction false} PushCountsIff(m: Memory, l: Limits, arrivals: seq<Arrival>, ids: seq<int>, mono: real)
    requires Stamped(arrivals, ids) && Increasing(ids) && l.maxsize >= 1 && |m.q| <= l.maxsize
    ensures var r := PushMemory(PruneMemory(m, l, mono), l, arrivals);
            FrontFresh(m, l, mono) && HasRoom(m, l, ids) <==> r.dropped == m.dropped && r.expired == m.expired
  {
    var m1 := PruneMemory(m, l, mono);
    FrontFreshIff(m, l, mono);
    PushCounters(m1, l, arrivals);
    HasRoomIff(m1, l, arrivals, ids);
    hide PushMemory;
    hide FrontFresh;
    hide HasRoom;
  }

  lemma {:induction false} DepthAlways(ss: seq<System>, acts: seq<Action>, n: nat)
    requires IsExecution(ss, acts) && n < |ss|
    ensures Sourced(ss[n]) && ss[n].limits.maxsize >= 1 && Consistent(ss[n].memory, ss[n].limits)
  {
    hide Next;
    hide Enabled;
    if n == 0 {
    } else {
      hide Sourced;
      hide Consistent;
      DepthAlways(ss, acts, n - 1);
      assert Enabled(ss[n - 1], acts[n - 1]);
      SourcedStep(ss[n - 1], acts[n - 1]);
      DepthStep(ss[n - 1], acts[n - 1]);
    }
  }

  lemma DepthStep(s: System, a: Action)
    requires Enabled(s, a) && s.limits.maxsize >= 1 && Consistent(s.memory, s.limits)
    ensures Next(s, a).limits == s.limits && Consistent(Next(s, a).memory, s.limits)
  {
    match a
    case Push(arrivals, mono) =>
      DropsKeep(s.memory, s.limits, 0, mono);
      PushKeeps(PruneMemory(s.memory, s.limits, mono), s.limits, arrivals);
    case AckBegin(_, lastSeen) => DropsKeep(s.memory, s.limits, lastSeen, 0.0);
    case PullBegin(r) => DropsKeep(s.memory, s.limits, s.replicas[r].cursor, 0.0);
    case Crash(mono, wall) => ReloadAccounts(s.disk, s.limits, mono, wall);
    case _ =>
  }

  /** In every execution the guards hold of a step exactly when its counters show no
      loss. */
  lemma LosslessIsExact(ss: seq<System>, acts: seq<Action>, i: nat)
    requires IsExecution(ss, acts) && i < |acts|
    ensures Enabled(ss[i], acts[i])
    ensures Lossless(ss[i], acts[i]) <==> NothingCounted(ss[i], acts[i])
  {
    hide Next;
    hide Lossless;
    DepthAlways(ss, acts, i);
    assert Enabled(ss[i], acts[i]);
    LosslessIff(ss[i], acts[i]);
  }

  lemma {:induction false} RoomStays(m: Memory, l: Limits, arrivals: seq<Arrival>, ids: seq<int>, id: int)
    requires Stamped(arrivals, ids) && Increasing(ids) && HasRoom(m, l, ids)
    ensures Stays(m, l, arrivals, id)
  {
    hide PushMemory;
    forall k | 0 <= k < |arrivals| && id in Ids(PushMemory(m, l, arrivals[..k]).q)
      ensures id in Ids(PushMemory(m, l, arrivals[..k + 1]).q)
    {
      RoomHolds(m, l, arrivals, ids, k);
      RoomHolds(m, l, arrivals, ids, k + 1);
    }
  }

  /** A step that loses nothing spares every update. */
  lemma LosslessSpares(s: System, a: Action, id: int)
    requires Enabled(s, a) && Sourced(s) && Lossless(s, a)
    ensures Spared(s, a, id)
  {
    match a
    case Push(arrivals, mono) =>
      FrontFreshIff(s.memory, s.limits, mono);
      RoomStays(s.memory, s.limits, arrivals, s.poller.ids, id);
    case ExpireRows(wall) => RowsFreshIff(s.disk, s.limits, wall);
    case Crash(_, wall) => ReloadsAllServes(s.disk, s.limits, wall);
    case _ =>
  }

  ghost predicate IsLossless(ss: seq<System>, acts: seq<Action>) {
    |acts| <= |ss| && forall i {:trigger Lossless(ss[i], acts[i])} | 0 <= i < |acts| :: Lossless(ss[i], acts[i])
  }

  /** So UndeliveredIsNeverRemoved speaks of every update of a lossless run. */
  lemma LosslessRunSpares(ss: seq<System>, acts: seq<Action>, n: nat, id: int)
    requires IsExecution(ss, acts) && IsLossless(ss, acts) && n <= |acts|
    ensures IsSpared(ss, acts, n, id)
  {
    hide Next;
    hide Lossless;
    hide Spared;
    forall i | 0 <= i < n ensures Spared(ss[i], acts[i], id) {
      DepthAlways(ss, acts, i);
      assert Enabled(ss[i], acts[i]) && Lossless(ss[i], acts[i]);
      LosslessSpares(ss[i], acts[i], id);
    }
  }

  // ---- Having left the deque, an update can be lost for good ----

  lemma AckedPage(m: Memory, x: int, cursor: int)
    requires x in Ids(m.q) && x > m.offset
    ensures var ids := IdsOf(Page(m, |m.q| + 1));
            && x in ids && ids != [] && Advance(cursor, ids) >= x
            && forall y | y in ids :: y in Ids(m.q)
  {
    var page := Page(m, |m.q| + 1);
    var ids := IdsOf(page);
    AboveShrinks(m.q, m.offset);
    AboveMembers(m.q, m.offset);
    hide Above;
    assert page == Above(m.q, m.offset);
    var i :| 0 <= i < |m.q| && m.q[i].id == x;
    assert m.q[i] in page;
    var k :| 0 <= k < |page| && page[k] == m.q[i];
    assert ids[k] == x;
    AdvanceIsMax(cursor, ids);
    forall y | y in ids ensures y in Ids(m.q) {
      var j :| 0 <= j < |ids| && ids[j] == y;
      assert page[j] in page && page[j] in m.q;
    }
  }

  /** From any state in which an undelivered id is no longer in the deque and a later
      one is, an idle replica that has not seen the later one can ack both away: the
      id's row is gone, and it is below the persisted offset, so it is not served
      again even if Telegram sends it again. */
  lemma LeftBehindIsLost(s: System, id: int, x: int, r: int) returns (acts: seq<Action>, s': System)
    requires id !in s.delivered && id !in Ids(s.memory.q) && 0 < id < x
    requires x in Ids(s.memory.q) && x > s.memory.offset
    requires r in s.replicas && !s.replicas[r].waiting && r !in s.acks && s.replicas[r].cursor < x
    ensures Leads(s, acts, s') && id !in s'.delivered && id !in s'.disk.rows
    ensures id <= OffsetOf(s'.disk) && id <= s'.memory.offset
    ensures s'.emitted == s.emitted && s'.told == s.told && s'.pruned == s.pruned
  {
    hide Leads;
    hide Page;
    hide Advance;
    var m := Pulled(s, r);
    ShrinkIds(s.memory, s.limits, s.replicas[r].cursor, 0.0);
    hide Ids;
    AckedPage(m, x, s.replicas[r].cursor);
    var acts1, s1 := PullPage(s, r, |m.q| + 1);
    var acts2;
    acts2, s' := BeginPull(s1, r);
    LeadsThen(s, acts1, s1, acts2, s');
    acts := acts1 + acts2;
  }
}
