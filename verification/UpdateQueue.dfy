/** The durable update queue of one bot (internal/store/queue.go). `Memory` is
    what a crash loses, `Disk` what survives it. The functions say what each
    statement does to one of the two; class `Queue` is the object that runs them
    in loops over its deque and its `seen` index. */
module UpdateQueue {
  import opened IntSets
  import opened Options

  datatype Update = Update(id: Option<int>, payload: string)

  /** An update as PushAll meets it, with the clock reading it is stamped with. */
  datatype Arrival = Arrival(update: Update, at: real)

  datatype Entry = Entry(id: int, update: Update, enqueued: real)

  /** A row of update_queue; `update` is None when its JSON does not parse. */
  datatype Row = Row(update: Option<Update>, enqueuedAt: real)

  datatype Disk = Disk(rows: map<int, Row>, offset: Option<int>)

  datatype Memory = Memory(q: seq<Entry>, offset: int, dropped: nat, expired: nat, unloaded: nat)

  /** maxsize and ttl; the overflow policy is drop_oldest, the only one in use. */
  datatype Limits = Limits(maxsize: nat, ttl: real)

  function Ids(q: seq<Entry>): set<int> { set i | 0 <= i < |q| :: q[i].id }

  ghost predicate Distinct(q: seq<Entry>) { forall i, j | 0 <= i < j < |q| :: q[i].id != q[j].id }

  ghost predicate Ascending(q: seq<Entry>) { forall i, j | 0 <= i < j < |q| :: q[i].id < q[j].id }

  ghost predicate Consistent(m: Memory, l: Limits) { Distinct(m.q) && |m.q| <= l.maxsize }

  // ---- Pushing ----

  /** The id an update is queued under: its own, or the next one in line. */
  function IdFor(m: Memory, u: Update): int {
    if u.id.Some? then u.id.value
    else if m.q != [] then m.q[|m.q| - 1].id + 1
    else m.offset + 1
  }

  function PushOne(m: Memory, l: Limits, a: Arrival): Memory {
    var id := IdFor(m, a.update);
    if id in Ids(m.q) then m
    else
      var full := |m.q| >= l.maxsize && m.q != [];
      var room := if full then m.q[1..] else m.q;
      m.(q := room + [Entry(id, Update(Some(id), a.update.payload), a.at)],
         dropped := m.dropped + if full then 1 else 0)
  }

  function PushMemory(m: Memory, l: Limits, arrivals: seq<Arrival>): Memory {
    if arrivals == [] then m
    else PushOne(PushMemory(m, l, arrivals[..|arrivals| - 1]), l, arrivals[|arrivals| - 1])
  }

  /** What PushMemory queued, in order: the batch to persist. */
  function BatchOf(m: Memory, l: Limits, arrivals: seq<Arrival>): seq<Entry> {
    if arrivals == [] then []
    else
      var last := |arrivals| - 1;
      var m1 := PushMemory(m, l, arrivals[..last]);
      var id := IdFor(m1, arrivals[last].update);
      BatchOf(m, l, arrivals[..last])
      + if id in Ids(m1.q) then []
        else [Entry(id, Update(Some(id), arrivals[last].update.payload), arrivals[last].at)]
  }

  /** INSERT OR IGNORE of the batch, in one transaction. */
  function Commit(d: Disk, batch: seq<Entry>, wall: real): Disk {
    if batch == [] then d
    else
      var d1 := Commit(d, batch[..|batch| - 1], wall);
      var e := batch[|batch| - 1];
      if e.id in d1.rows then d1 else d1.(rows := d1.rows[e.id := Row(Some(e.update), wall)])
  }

  /** What row id of r holds after a commit of the batch: what was there before, or an
      entry of the batch, stamped with the time of the transaction. */
  ghost predicate Committed(d: Disk, batch: seq<Entry>, wall: real, r: Disk, id: int) {
    if id in d.rows then id in r.rows && r.rows[id] == d.rows[id]
    else if id in r.rows then exists k :: 0 <= k < |batch| && IsRowOf(r.rows[id], batch[k], wall) && batch[k].id == id
    else forall k | 0 <= k < |batch| :: batch[k].id != id
  }

  predicate IsRowOf(row: Row, e: Entry, wall: real) { row == Row(Some(e.update), wall) }

  lemma {:induction false} CommitExact(d: Disk, batch: seq<Entry>, wall: real, id: int)
    ensures Committed(d, batch, wall, Commit(d, batch, wall), id) && Commit(d, batch, wall).offset == d.offset
  {
    if batch == [] {
    } else {
      var front, e := batch[..|batch| - 1], batch[|batch| - 1];
      var d1, r := Commit(d, front, wall), Commit(d, batch, wall);
      CommitExact(d, front, wall, id);
      if id !in d.rows && id in d1.rows {
        var k :| 0 <= k < |front| && IsRowOf(d1.rows[id], front[k], wall) && front[k].id == id;
        assert batch[k] == front[k] && r.rows[id] == d1.rows[id];
      } else if id !in d.rows && id in r.rows {
        assert IsRowOf(r.rows[id], batch[|batch| - 1], wall);
      } else if id !in d.rows {
        assert forall k | 0 <= k < |batch| - 1 :: batch[k] == front[k];
      }
    }
  }

  // ---- Expiry ----

  function DropExpired(q: seq<Entry>, cutoff: real): seq<Entry> {
    if q == [] || q[0].enqueued > cutoff then q else DropExpired(q[1..], cutoff)
  }

  function PruneMemory(m: Memory, l: Limits, now: real): (r: Memory)
    ensures |r.q| <= |m.q|
  {
    if l.ttl <= 0.0 then m
    else
      var q := DropExpired(m.q, now - l.ttl);
      DropExpiredIsSuffix(m.q, now - l.ttl);
      m.(q := q, expired := m.expired + (|m.q| - |q|))
  }

  lemma {:induction false} DropExpiredIsSuffix(q: seq<Entry>, cutoff: real)
    ensures var r := DropExpired(q, cutoff); |r| <= |q| && r == q[|q| - |r|..]
  {
    if q != [] && q[0].enqueued <= cutoff { DropExpiredIsSuffix(q[1..], cutoff); }
  }

  function ExpiredRows(d: Disk, l: Limits, wall: real): set<int> {
    set id | id in d.rows && l.ttl > 0.0 && d.rows[id].enqueuedAt < wall - l.ttl
  }

  function PruneDisk(d: Disk, l: Limits, wall: real): Disk { d.(rows := d.rows - ExpiredRows(d, l, wall)) }

  /** A row is deleted exactly when the TTL is on and it is more than that old; the
      others stay as they are. */
  lemma PruneDiskExact(d: Disk, l: Limits, wall: real, id: int)
    ensures var r := PruneDisk(d, l, wall);
            && (id in r.rows <==> id in d.rows && (l.ttl <= 0.0 || wall - d.rows[id].enqueuedAt <= l.ttl))
            && (id in r.rows ==> r.rows[id] == d.rows[id]) && r.offset == d.offset
  {}

  /** Memory loses exactly the longest prefix of entries that are at least a TTL old,
      and counts them. */
  lemma {:induction false} DropExpiredExact(q: seq<Entry>, cutoff: real)
    ensures var r := DropExpired(q, cutoff);
            && |r| <= |q| && r == q[|q| - |r|..]
            && (forall i | 0 <= i < |q| - |r| :: q[i].enqueued <= cutoff)
            && (r != [] ==> r[0].enqueued > cutoff)
  {
    if q == [] || q[0].enqueued > cutoff {
    } else {
      DropExpiredExact(q[1..], cutoff);
    }
  }

  lemma PruneMemoryExact(m: Memory, l: Limits, now: real)
    ensures var r := PruneMemory(m, l, now);
            var n := |m.q| - |r.q|;
            && n >= 0 && r == m.(q := m.q[n..], expired := m.expired + n)
            && (forall i | 0 <= i < n :: l.ttl > 0.0 && now - m.q[i].enqueued >= l.ttl)
            && (l.ttl > 0.0 && r.q != [] ==> now - r.q[0].enqueued < l.ttl)
            && (l.ttl <= 0.0 ==> r == m)
  {
    DropExpiredExact(m.q, now - l.ttl);
  }

  // ---- Acknowledging ----

  function DropAcked(q: seq<Entry>, offset: int): seq<Entry> {
    if q == [] || q[0].id > offset then q else DropAcked(q[1..], offset)
  }

  function AckMemory(m: Memory, lastSeen: int): Memory {
    var offset := if lastSeen > m.offset then lastSeen else m.offset;
    m.(offset := offset, q := DropAcked(m.q, offset))
  }

  function AckedRows(d: Disk, n: int): set<int> { set id | id in d.rows && id <= n }

  function DeleteAcked(d: Disk, n: int): Disk { d.(rows := d.rows - AckedRows(d, n)) }

  function SaveAck(d: Disk, n: int): Disk { d.(offset := Some(n)) }

  lemma {:induction false} DropAckedIsSuffix(q: seq<Entry>, offset: int)
    ensures var r := DropAcked(q, offset);
            |r| <= |q| && r == q[|q| - |r|..] && forall i | 0 <= i < |q| - |r| :: q[i].id <= offset
    ensures DropAcked(q, offset) != [] ==> DropAcked(q, offset)[0].id > offset
  {
    if q != [] && q[0].id <= offset {
      DropAckedIsSuffix(q[1..], offset);
    }
  }

  // ---- Pulling ----

  function Above(q: seq<Entry>, offset: int): seq<Entry> {
    if q == [] then []
    else Above(q[..|q| - 1], offset) + if q[|q| - 1].id > offset then [q[|q| - 1]] else []
  }

  function Take<T>(s: seq<T>, n: nat): (r: seq<T>)
    ensures r <= s && |r| == if |s| <= n then |s| else n
  {
    if |s| <= n then s else s[..n]
  }

  function PageSize(limit: int): nat { if limit <= 0 then 100 else limit }

  /** One look at the queue by a long poll. */
  function Page(m: Memory, limit: int): seq<Entry> { Take(Above(m.q, m.offset), PageSize(limit)) }

  lemma {:induction false} AboveMembers(q: seq<Entry>, offset: int)
    ensures forall e :: e in Above(q, offset) <==> e in q && e.id > offset
  {
    if q == [] {
    } else {
      AboveMembers(q[..|q| - 1], offset);
      assert q == q[..|q| - 1] + [q[|q| - 1]];
    }
  }

  lemma {:induction false} AboveAll(q: seq<Entry>, offset: int)
    requires forall i | 0 <= i < |q| :: q[i].id > offset
    ensures Above(q, offset) == q
  {
    if q == [] {
    } else {
      AboveAll(q[..|q| - 1], offset);
    }
  }

  lemma {:induction false} AboveNone(q: seq<Entry>, offset: int)
    requires forall i | 0 <= i < |q| :: q[i].id <= offset
    ensures Above(q, offset) == []
  {
    if q == [] {
    } else {
      AboveNone(q[..|q| - 1], offset);
    }
  }

  lemma {:induction false} AboveSplit(a: seq<Entry>, b: seq<Entry>, offset: int)
    ensures Above(a + b, offset) == Above(a, offset) + Above(b, offset)
  {
    if b == [] {
      assert a + b == a;
    } else {
      var last := |b| - 1;
      AboveSplit(a, b[..last], offset);
      assert (a + b)[..|a + b| - 1] == a + b[..last];
    }
  }

  /** A page is no longer than asked for, 100 when nothing sensible is asked for, and
      stops short only when nothing is left. */
  lemma PageLength(m: Memory, limit: int)
    ensures var most := if limit <= 0 then 100 else limit;
            |Page(m, limit)| == if |Above(m.q, m.offset)| < most then |Above(m.q, m.offset)| else most
    ensures Page(m, limit) <= Above(m.q, m.offset)
  {}

  // ---- The queue is a sorted log ----

  /** Nothing acked stands behind something unacked. */
  ghost predicate AckedFirst(q: seq<Entry>, offset: int) {
    forall i, j | 0 <= i < j < |q| && q[i].id > offset :: q[j].id > offset
  }

  lemma {:induction false} DropAckedIff(q: seq<Entry>, offset: int)
    ensures DropAcked(q, offset) == Above(q, offset) <==> AckedFirst(q, offset)
  {
    if q == [] {
    } else if q[0].id <= offset {
      DropAckedIff(q[1..], offset);
      AboveSplit([q[0]], q[1..], offset);
      AboveNone([q[0]], offset);
      assert [q[0]] + q[1..] == q;
      assert AckedFirst(q, offset) ==> AckedFirst(q[1..], offset);
      assert forall i | 1 <= i < |q| :: q[i] == q[1..][i - 1];
    } else {
      if AckedFirst(q, offset) { AboveAll(q, offset); }
      AboveMembers(q, offset);
      assert Above(q, offset) == q ==> forall i | 0 <= i < |q| :: q[i] in Above(q, offset);
    }
  }

  /** Ack leaves exactly the entries above the offset if and only if no acked one
      stands behind an unacked one; in an ascending deque none ever does. */
  lemma AckLeavesExactlyTheUnacked(m: Memory, lastSeen: int)
    ensures var r := AckMemory(m, lastSeen);
            && r.offset >= m.offset && r.offset >= lastSeen
            && (r.q == Above(m.q, r.offset) <==> AckedFirst(m.q, r.offset))
            && (Ascending(m.q) ==> r.q == Above(m.q, r.offset))
  {
    DropAckedIff(m.q, AckMemory(m, lastSeen).offset);
  }

  /** What Ack leaves behind an unacked entry is never served. */
  lemma {:induction false} AboveDropAcked(q: seq<Entry>, offset: int)
    ensures Above(DropAcked(q, offset), offset) == Above(q, offset)
  {
    var r := DropAcked(q, offset);
    DropAckedIsSuffix(q, offset);
    var cut := |q| - |r|;
    assert q == q[..cut] + r;
    AboveNone(q[..cut], offset);
    AboveSplit(q[..cut], r, offset);
    assert [] + Above(r, offset) == Above(r, offset);
  }

  /** After an ack the next page is the first `limit` entries above the offset, for
      every deque. */
  lemma PageAfterAck(m: Memory, lastSeen: int, limit: int)
    ensures Page(AckMemory(m, lastSeen), limit)
            == Take(Above(m.q, AckMemory(m, lastSeen).offset), PageSize(limit))
  {
    AboveDropAcked(m.q, AckMemory(m, lastSeen).offset);
  }

  /** An update without an id gets the next one in line: it is queued behind an ascending
      deque, right above its last id, or right above the offset. */
  lemma SynthesizedGoesLast(m: Memory, l: Limits, a: Arrival)
    requires Ascending(m.q) && a.update.id.None?
    ensures var id := IdFor(m, a.update);
            var q := PushOne(m, l, a).q;
            && id !in Ids(m.q) && q != [] && q[|q| - 1].id == id
            && q[|q| - 1].update == Update(Some(id), a.update.payload)
            && (forall x | x in Ids(m.q) :: x < id)
            && (if m.q == [] then id == m.offset + 1 else id - 1 in Ids(m.q))
  {
    if m.q != [] {
      assert m.q[|m.q| - 1].id in Ids(m.q);
    }
  }

  lemma PushOneKeeps(m: Memory, l: Limits, a: Arrival)
    requires Consistent(m, l) && l.maxsize >= 1
    ensures Consistent(PushOne(m, l, a), l)
  {
    var id := IdFor(m, a.update);
    if id !in Ids(m.q) {
      forall i | 0 <= i < |m.q| ensures m.q[i].id != id { assert m.q[i].id in Ids(m.q); }
    }
  }

  lemma {:induction false} PushKeeps(m: Memory, l: Limits, arrivals: seq<Arrival>)
    requires Consistent(m, l) && l.maxsize >= 1
    ensures Consistent(PushMemory(m, l, arrivals), l)
  {
    if arrivals == [] {
    } else {
      PushKeeps(m, l, arrivals[..|arrivals| - 1]);
      PushOneKeeps(PushMemory(m, l, arrivals[..|arrivals| - 1]), l, arrivals[|arrivals| - 1]);
    }
  }

  lemma DropsKeep(m: Memory, l: Limits, lastSeen: int, now: real)
    requires Consistent(m, l)
    ensures Consistent(AckMemory(m, lastSeen), l) && Consistent(PruneMemory(m, l, now), l)
    ensures Ascending(m.q) ==> Ascending(AckMemory(m, lastSeen).q) && Ascending(PruneMemory(m, l, now).q)
  {
    DropAckedIsSuffix(m.q, AckMemory(m, lastSeen).offset);
    DropExpiredIsSuffix(m.q, now - l.ttl);
  }

  // ---- Reloading after a restart ----

  function OffsetOf(d: Disk): int { if d.offset.Some? then d.offset.value else 0 }

  function RowsAbove(d: Disk, n: int): set<int> { set id | id in d.rows && id > n }

  /** The rows the reload query accepts, before its LIMIT. */
  function Loadable(d: Disk, l: Limits, wall: real): set<int> {
    var cutoff := if l.ttl > 0.0 then wall - l.ttl else 0.0;
    set id | id in RowsAbove(d, OffsetOf(d)) && d.rows[id].enqueuedAt > cutoff
  }

  function LoadRows(d: Disk, ids: seq<int>, mono: real, wall: real): seq<Entry>
    requires forall i | 0 <= i < |ids| :: ids[i] in d.rows
  {
    if ids == [] then []
    else
      var id := ids[|ids| - 1];
      var row := d.rows[id];
      LoadRows(d, ids[..|ids| - 1], mono, wall)
      + if row.update.None? then [] else [Entry(id, row.update.value, mono - (wall - row.enqueuedAt))]
  }

  /** The rows the reload query returns. */
  function Loaded(d: Disk, l: Limits, wall: real): (ids: seq<int>)
    ensures forall i | 0 <= i < |ids| :: ids[i] in d.rows && ids[i] in Loadable(d, l, wall)
    ensures forall i, j | 0 <= i < j < |ids| :: ids[i] < ids[j]
  {
    var all := Ordered(Loadable(d, l, wall));
    var ids := Take(all, l.maxsize);
    assert forall i | 0 <= i < |ids| :: ids[i] == all[i] && all[i] in all;
    ids
  }

  function Backlog(d: Disk, loaded: nat): nat {
    var left := |RowsAbove(d, OffsetOf(d))| - loaded;
    if left < 0 then 0 else left
  }

  function Restored(d: Disk, l: Limits, mono: real, wall: real): seq<Entry> {
    LoadRows(d, Loaded(d, l, wall), mono, wall)
  }

  function Reload(d: Disk, l: Limits, mono: real, wall: real): Memory {
    var q := Restored(d, l, mono, wall);
    Memory(q, OffsetOf(d), 0, 0, Backlog(d, |q|))
  }

  lemma {:induction false} LoadRowsExact(d: Disk, ids: seq<int>, mono: real, wall: real)
    requires forall i | 0 <= i < |ids| :: ids[i] in d.rows
    requires forall i, j | 0 <= i < j < |ids| :: ids[i] < ids[j]
    ensures var q := LoadRows(d, ids, mono, wall);
            && |q| <= |ids|
            && Ascending(q)
            && (forall e :: e in q <==> e.id in ids && d.rows[e.id].update == Some(e.update)
                                        && e.enqueued == mono - (wall - d.rows[e.id].enqueuedAt))
  {
    if ids == [] {
    } else {
      var last := |ids| - 1;
      LoadRowsExact(d, ids[..last], mono, wall);
      assert ids == ids[..last] + [ids[last]];
      var before := LoadRows(d, ids[..last], mono, wall);
      forall i | 0 <= i < |before| ensures before[i].id < ids[last] {
        assert before[i] in before;
      }
    }
  }

  /** How many members of s lie below x. */
  function Rank(s: set<int>, x: int): nat { |set y | y in s && y < x| }

  lemma RankStep(s: set<int>, m: int, x: int)
    requires m in s
    ensures m < x ==> Rank(s, x) == 1 + Rank(s - {m}, x)
    ensures m == x && (forall y | y in s :: m <= y) ==> Rank(s, x) == 0
  {
    if m < x {
      assert (set y | y in s && y < x) == {m} + (set y | y in s - {m} && y < x);
    } else if m == x && forall y | y in s :: m <= y {
      assert (set y | y in s && y < x) == {};
    }
  }

  lemma {:induction false} RankInOrder(s: set<int>, k: nat)
    requires k < |s|
    ensures Rank(s, Ordered(s)[k]) == k
  {
    hide Rank;
    hide Ordered;
    hide Least;
    var m := Least(s);
    var rest := Ordered(s - {m});
    OrderedCons(s);
    RankStep(s, m, Ordered(s)[k]);
    if k == 0 {
    } else {
      RankInOrder(s - {m}, k - 1);
      assert Ordered(s)[k] == rest[k - 1] && rest[k - 1] in rest;
    }
  }

  lemma LoadedIsLowest(d: Disk, l: Limits, wall: real, id: int)
    ensures var s := Loadable(d, l, wall); id in Loaded(d, l, wall) <==> id in s && Rank(s, id) < l.maxsize
  {
    var s := Loadable(d, l, wall);
    if id in s {
      var all := Ordered(s);
      var k :| 0 <= k < |all| && all[k] == id;
      RankInOrder(s, k);
      var ids := Loaded(d, l, wall);
      if k < l.maxsize { assert ids[k] == id; }
    }
  }

  /** Above the offset and, when the TTL is on, less than that old; when it is off, with a
      time stamp after 0. */
  predicate Unexpired(d: Disk, l: Limits, wall: real, id: int) {
    && id in d.rows && id > OffsetOf(d)
    && (if l.ttl > 0.0 then wall - d.rows[id].enqueuedAt < l.ttl else d.rows[id].enqueuedAt > 0.0)
  }

  lemma LoadableIs(d: Disk, l: Limits, wall: real)
    ensures Loadable(d, l, wall) == set id | id in d.rows && Unexpired(d, l, wall, id)
  {
    var want := set id | id in d.rows && Unexpired(d, l, wall, id);
    forall id ensures id in Loadable(d, l, wall) <==> id in want {}
  }

  lemma {:induction false} ReloadHolds(d: Disk, l: Limits, mono: real, wall: real, id: int)
    ensures id in Ids(Reload(d, l, mono, wall).q) <==> id in Loaded(d, l, wall) && d.rows[id].update.Some?
  {
    LoadRowsExact(d, Loaded(d, l, wall), mono, wall);
    hide Loaded;
    hide LoadRows;
    var q := Reload(d, l, mono, wall).q;
    if id in Loaded(d, l, wall) && d.rows[id].update.Some? {
      var e := Entry(id, d.rows[id].update.value, mono - (wall - d.rows[id].enqueuedAt));
      assert e in q;
    }
    if id in Ids(q) {
      var i :| 0 <= i < |q| && q[i].id == id;
      assert q[i] in q;
    }
  }

  /** Reload serves exactly the parseable rows among the `maxsize` lowest unexpired ones
      above the offset... */
  lemma ReloadServes(d: Disk, l: Limits, mono: real, wall: real, id: int)
    ensures id in Ids(Reload(d, l, mono, wall).q)
            <==> && Unexpired(d, l, wall, id) && d.rows[id].update.Some?
                 && |set y | y in d.rows && Unexpired(d, l, wall, y) && y < id| < l.maxsize
  {
    hide Reload;
    hide Loaded;
    ReloadHolds(d, l, mono, wall, id);
    LoadedIsLowest(d, l, wall, id);
    LoadableIs(d, l, wall);
    hide Loadable;
    var s := Loadable(d, l, wall);
    assert (set y | y in s && y < id) == set y | y in d.rows && Unexpired(d, l, wall, y) && y < id;
  }

  /** ...each as it is stored, and as old as its row... */
  lemma ReloadKeepsRows(d: Disk, l: Limits, mono: real, wall: real, e: Entry)
    requires e in Reload(d, l, mono, wall).q
    ensures e.id in d.rows && d.rows[e.id].update == Some(e.update)
    ensures mono - e.enqueued == wall - d.rows[e.id].enqueuedAt
  {
    LoadRowsExact(d, Loaded(d, l, wall), mono, wall);
    hide LoadRows;
    hide Loaded;
  }

  /** ...and reports every other row above the offset as unloaded: the clamp at
      zero never acts. */
  lemma ReloadAccounts(d: Disk, l: Limits, mono: real, wall: real)
    ensures var m := Reload(d, l, mono, wall);
            && Ascending(m.q) && Consistent(m, l)
            && |m.q| + m.unloaded == |RowsAbove(d, OffsetOf(d))|
  {
    LoadRowsExact(d, Loaded(d, l, wall), mono, wall);
    Subset(Loadable(d, l, wall), RowsAbove(d, OffsetOf(d)));
  }

  // ---- The object ----

  lemma IdsLaws(q: seq<Entry>, e: Entry)
    ensures Ids(q + [e]) == Ids(q) + {e.id}
    ensures q != [] && Distinct(q) ==> Ids(q[1..]) == Ids(q) - {q[0].id} && Distinct(q[1..])
  {
    assert forall i | 0 <= i < |q| :: (q + [e])[i] == q[i];
    assert (q + [e])[|q|] == e;
    if q != [] && Distinct(q) {
      forall id | id in Ids(q) - {q[0].id} ensures id in Ids(q[1..]) {
        var i :| 0 <= i < |q| && q[i].id == id;
        assert q[1..][i - 1].id == id;
      }
    }
  }

  class Queue {
    const limits: Limits
    var q: seq<Entry>
    var seen: set<int>
    var consumerOffset: int
    var dropped: nat
    var expired: nat
    var unloadedBacklog: nat
    var db: Disk

    ghost function Mem(): Memory
      reads this
    {
      Memory(q, consumerOffset, dropped, expired, unloadedBacklog)
    }

    /** `seen` is the id set of the deque, whose ids are distinct and number at
        most maxsize. */
    ghost predicate Valid()
      reads this
    {
      limits.maxsize >= 1 && seen == Ids(q) && Consistent(Mem(), limits)
    }

    /** OpenQueue: reload what the disk kept. */
    constructor (limits: Limits, disk: Disk, mono: real, wall: real)
      requires limits.maxsize >= 1
      ensures Valid() && this.limits == limits
      ensures Mem() == Reload(disk, limits, mono, wall)
      ensures db == DeleteAcked(disk, OffsetOf(disk))
    {
      this.limits := limits;
      db := disk;
      q, seen, dropped, expired, unloadedBacklog, consumerOffset := [], {}, 0, 0, 0, 0;
      new;
      LoadFromDB(mono, wall);
      ReloadAccounts(disk, limits, mono, wall);
    }

    method LoadFromDB(mono: real, wall: real)
      requires q == [] && seen == {} && consumerOffset == 0 && dropped == 0 && expired == 0
      modifies this
      ensures q == Restored(old(db), limits, mono, wall) && seen == Ids(q)
      ensures consumerOffset == OffsetOf(old(db)) && unloadedBacklog == Backlog(old(db), |q|)
      ensures dropped == 0 && expired == 0
      ensures db == DeleteAcked(old(db), OffsetOf(old(db)))
    {
      if db.offset.Some? {
        consumerOffset := db.offset.value;
      }
      LoadEntries(Loaded(db, limits, wall), mono, wall);
      CountBacklog();
    }

    method CountBacklog()
      requires consumerOffset == OffsetOf(db)
      modifies this`db, this`unloadedBacklog
      ensures db == DeleteAcked(old(db), consumerOffset)
      ensures unloadedBacklog == Backlog(old(db), |q|)
    {
      db := db.(rows := db.rows - AckedRows(db, consumerOffset));
      assert RowsAbove(db, consumerOffset) == RowsAbove(old(db), consumerOffset);
      var left := |RowsAbove(db, consumerOffset)| - |q|;
      unloadedBacklog := if left < 0 then 0 else left;
    }

    method LoadEntries(ids: seq<int>, mono: real, wall: real)
      requires q == [] && seen == {}
      requires forall i | 0 <= i < |ids| :: ids[i] in db.rows
      modifies this`q, this`seen
      ensures q == LoadRows(db, ids, mono, wall) && seen == Ids(q)
    {
      var rows := db.rows;
      for i := 0 to |ids|
        invariant q == LoadRows(db, ids[..i], mono, wall) && seen == Ids(q)
      {
        assert ids[..i + 1][..i] == ids[..i];
        var row := rows[ids[i]];
        if row.update.Some? {
          var e := Entry(ids[i], row.update.value, mono - (wall - row.enqueuedAt));
          IdsLaws(q, e);
          q := q + [e];
          seen := seen + {ids[i]};
        }
      }
      assert ids[..|ids|] == ids;
    }

    method RemoveFront()
      requires Valid() && q != []
      modifies this`q, this`seen
      ensures Valid() && q == old(q)[1..]
    {
      IdsLaws(q, q[0]);
      seen := seen - {q[0].id};
      q := q[1..];
    }

    method PruneExpired(now: real, wall: real)
      requires Valid()
      modifies this`q, this`seen, this`expired, this`db
      ensures Valid()
      ensures Mem() == PruneMemory(old(Mem()), limits, now)
      ensures db == PruneDisk(old(db), limits, wall)
    {
      if limits.ttl <= 0.0 {
        assert db.rows - ExpiredRows(db, limits, wall) == db.rows;
        return;
      }
      var cutoff := now - limits.ttl;
      while q != [] && q[0].enqueued <= cutoff
        invariant Valid() && |q| <= |old(q)| && db == old(db)
        invariant DropExpired(q, cutoff) == DropExpired(old(q), cutoff)
        invariant expired == old(expired) + |old(q)| - |q|
        decreases |q|
      {
        RemoveFront();
        expired := expired + 1;
      }
      db := db.(rows := db.rows - ExpiredRows(db, limits, wall));
    }

    method PushAll(arrivals: seq<Arrival>, now: real, wallPrune: real, wall: real)
      requires Valid()
      modifies this
      ensures Valid()
      ensures Mem() == PushMemory(PruneMemory(old(Mem()), limits, now), limits, arrivals)
      ensures db == Commit(PruneDisk(old(db), limits, wallPrune),
                           BatchOf(PruneMemory(old(Mem()), limits, now), limits, arrivals), wall)
    {
      PruneExpired(now, wallPrune);
      ghost var m := Mem();
      var batch: seq<Entry> := [];
      for i := 0 to |arrivals|
        invariant Valid() && db == PruneDisk(old(db), limits, wallPrune)
        invariant Mem() == PushMemory(m, limits, arrivals[..i])
        invariant batch == BatchOf(m, limits, arrivals[..i])
      {
        assert arrivals[..i + 1][..i] == arrivals[..i];
        var queued := PushUpdate(arrivals[i]);
        batch := batch + queued;
      }
      assert arrivals[..|arrivals|] == arrivals;
      Persist(batch, wall);
    }

    /** The body of PushAll's loop. */
    method PushUpdate(a: Arrival) returns (queued: seq<Entry>)
      requires Valid()
      modifies this`q, this`seen, this`dropped
      ensures Valid() && Mem() == PushOne(old(Mem()), limits, a)
      ensures var id := IdFor(old(Mem()), a.update);
              queued == if id in Ids(old(q)) then [] else [Entry(id, Update(Some(id), a.update.payload), a.at)]
    {
      PushOneKeeps(Mem(), limits, a);
      var id := if a.update.id.Some? then a.update.id.value
                else if |q| > 0 then q[|q| - 1].id + 1
                else consumerOffset + 1;
      if id in seen {
        return [];
      }
      if |q| >= limits.maxsize {
        RemoveFront();
        dropped := dropped + 1;
      }
      var e := Entry(id, Update(Some(id), a.update.payload), a.at);
      IdsLaws(q, e);
      q := q + [e];
      seen := seen + {id};
      return [e];
    }

    method Persist(batch: seq<Entry>, wall: real)
      requires Valid()
      modifies this`db
      ensures Valid() && db == Commit(old(db), batch, wall)
    {
      for i := 0 to |batch|
        invariant Valid() && db == Commit(old(db), batch[..i], wall)
      {
        assert batch[..i + 1][..i] == batch[..i];
        if batch[i].id !in db.rows {
          db := db.(rows := db.rows[batch[i].id := Row(Some(batch[i].update), wall)]);
        }
      }
      assert batch[..|batch|] == batch;
    }

    method Ack(lastSeen: int)
      requires Valid()
      modifies this`q, this`seen, this`consumerOffset, this`db
      ensures Valid()
      ensures Mem() == AckMemory(old(Mem()), lastSeen)
      ensures db == SaveAck(DeleteAcked(old(db), consumerOffset), consumerOffset)
    {
      if lastSeen > consumerOffset {
        consumerOffset := lastSeen;
      }
      while q != [] && q[0].id <= consumerOffset
        invariant Valid() && db == old(db) && consumerOffset == AckMemory(old(Mem()), lastSeen).offset
        invariant DropAcked(q, consumerOffset) == DropAcked(old(q), consumerOffset)
        decreases |q|
      {
        RemoveFront();
      }
      var acked := consumerOffset;
      db := db.(rows := db.rows - AckedRows(db, acked));
      db := db.(offset := Some(acked));
    }

    /** One pass of Pull: acknowledge, then look at the queue. */
    method Pull(offset: Option<int>, limit: int) returns (out: seq<Entry>)
      requires Valid()
      modifies this`q, this`seen, this`consumerOffset, this`db
      ensures Valid()
      ensures Mem() == if offset.Some? then AckMemory(old(Mem()), offset.value - 1) else old(Mem())
      ensures db == if offset.Some? then SaveAck(DeleteAcked(old(db), consumerOffset), consumerOffset) else old(db)
      ensures out == Page(Mem(), limit)
    {
      if offset.Some? {
        Ack(offset.value - 1);
      }
      out := Look(limit);
    }

    method Look(limit: int) returns (out: seq<Entry>)
      requires Valid()
      ensures out == Page(Mem(), limit)
    {
      var size := if limit <= 0 then 100 else limit;
      out := [];
      var i := 0;
      while i < |q| && |out| < size
        invariant 0 <= i <= |q| && out == Above(q[..i], consumerOffset) && |out| <= size
      {
        assert q[..i + 1][..i] == q[..i];
        if q[i].id > consumerOffset {
          out := out + [q[i]];
        }
        i := i + 1;
      }
      assert q == q[..i] + q[i..];
      AboveSplit(q[..i], q[i..], consumerOffset);
    }
  }
}
