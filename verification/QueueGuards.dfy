/** What a push or a reload will do, read off the state before it: which ids a
    reload serves, when it serves every row, and when a push neither expires nor
    drops anything. */
module QueueGuards {
  import opened IntSets
  import opened Options
  import opened UpdateQueue
  import opened QueueProtocol

  // ---- Reloading ----

  /** The ids a reload serves: the parseable ones among the `maxsize` lowest
      unexpired rows above the offset. */
  ghost function Served(d: Disk, l: Limits, wall: real): set<int> {
    var s := Loadable(d, l, wall);
    set id | id in s && d.rows[id].update.Some? && Rank(s, id) < l.maxsize
  }

  lemma ReloadIsServed(d: Disk, l: Limits, mono: real, wall: real)
    ensures Ids(Reload(d, l, mono, wall).q) == Served(d, l, wall)
  {
    hide Rank;
    hide Reload;
    hide Loadable;
    hide Loaded;
    forall id ensures id in Ids(Reload(d, l, mono, wall).q) <==> id in Served(d, l, wall) {
      ReloadHolds(d, l, mono, wall, id);
      LoadedIsLowest(d, l, wall, id);
    }
  }

  lemma {:induction false} IdsCount(q: seq<Entry>)
    requires Distinct(q)
    ensures |Ids(q)| == |q|
  {
    if q == [] {
      assert Ids(q) == {};
    } else {
      var front, e := q[..|q| - 1], q[|q| - 1];
      IdsCount(front);
      assert front + [e] == q;
      assert Ids(q) == Ids(front) + {e.id} by { IdsLaws(front, e); }
      assert e.id !in Ids(front);
    }
  }

  /** Every row above the offset is unexpired and parses, and they fit. */
  ghost predicate ReloadsAll(d: Disk, l: Limits, wall: real) {
    && (forall id | id in d.rows && id > OffsetOf(d) ::
          d.rows[id].update.Some? && d.rows[id].enqueuedAt > if l.ttl > 0.0 then wall - l.ttl else 0.0)
    && |RowsAbove(d, OffsetOf(d))| <= l.maxsize
  }

  lemma RankBelowSize(s: set<int>, id: int)
    requires id in s
    ensures Rank(s, id) < |s|
  {
    var below := set y | y in s && y < id;
    Subset(below, s - {id});
  }

  lemma ReloadsAllServes(d: Disk, l: Limits, wall: real)
    requires ReloadsAll(d, l, wall)
    ensures Served(d, l, wall) == RowsAbove(d, OffsetOf(d))
  {
    hide Rank;
    var all := RowsAbove(d, OffsetOf(d));
    assert Loadable(d, l, wall) == all;
    forall id | id in all ensures id in Served(d, l, wall) { RankBelowSize(all, id); }
  }

  /** That is exactly when nothing is left unloaded. */
  lemma ReloadsAllIff(d: Disk, l: Limits, mono: real, wall: real)
    ensures ReloadsAll(d, l, wall) <==> Reload(d, l, mono, wall).unloaded == 0
  {
    hide Rank;
    hide Reload;
    var m, all := Reload(d, l, mono, wall), RowsAbove(d, OffsetOf(d));
    ReloadAccounts(d, l, mono, wall);
    ReloadIsServed(d, l, mono, wall);
    IdsCount(m.q);
    if ReloadsAll(d, l, wall) { ReloadsAllServes(d, l, wall); }
    if m.unloaded == 0 {
      assert Ids(m.q) <= all;
      SameSize(Ids(m.q), all);
      forall id | id in d.rows && id > OffsetOf(d) ensures id in Served(d, l, wall) {
        assert id in all;
      }
    }
  }

  // ---- Pushing ----

  /** Nothing in the deque is due to expire. */
  predicate FrontFresh(m: Memory, l: Limits, mono: real) {
    l.ttl <= 0.0 || m.q == [] || m.q[0].enqueued > mono - l.ttl
  }

  lemma FrontFreshIff(m: Memory, l: Limits, mono: real)
    ensures FrontFresh(m, l, mono) <==> PruneMemory(m, l, mono).expired == m.expired
    ensures FrontFresh(m, l, mono) ==> PruneMemory(m, l, mono) == m
  {
    if l.ttl > 0.0 && m.q != [] && m.q[0].enqueued <= mono - l.ttl {
      DropExpiredIsSuffix(m.q[1..], mono - l.ttl);
    }
  }

  function Elements(ids: seq<int>): set<int> { set x | x in ids }

  function NewIds(q: seq<Entry>, ids: seq<int>): set<int> { Elements(ids) - Ids(q) }

  predicate HasRoom(m: Memory, l: Limits, ids: seq<int>) { |m.q| + |NewIds(m.q, ids)| <= l.maxsize }

  ghost predicate Increasing(ids: seq<int>) { forall i, j | 0 <= i < j < |ids| :: ids[i] < ids[j] }

  lemma ElementsPush(ids: seq<int>, id: int)
    requires forall i | 0 <= i < |ids| :: ids[i] < id
    ensures Elements(ids + [id]) == Elements(ids) + {id} && id !in Elements(ids)
  {
    assert id !in ids;
    assert forall x :: x in ids + [id] <==> x in ids || x == id;
  }

  lemma NewIdsPush(q: seq<Entry>, ids: seq<int>, id: int)
    requires forall i | 0 <= i < |ids| :: ids[i] < id
    ensures NewIds(q, ids + [id]) == NewIds(q, ids) + if id in Ids(q) then {} else {id}
    ensures |NewIds(q, ids + [id])| == |NewIds(q, ids)| + if id in Ids(q) then 0 else 1
    ensures Elements(ids + [id]) == Elements(ids) + {id} && id !in Elements(ids)
  {
    ElementsPush(ids, id);
    hide Elements;
    hide Ids;
    if id in Ids(q) { assert NewIds(q, ids + [id]) == NewIds(q, ids); }
  }

  function EntryFor(a: Arrival, id: int): Entry { Entry(id, Update(Some(id), a.update.payload), a.at) }

  lemma PushOneAppends(m: Memory, l: Limits, a: Arrival, id: int)
    requires a.update.id == Some(id)
    ensures id in Ids(m.q) ==> PushOne(m, l, a) == m
    ensures id !in Ids(m.q) && |m.q| < l.maxsize ==> PushOne(m, l, a) == m.(q := m.q + [EntryFor(a, id)])
    ensures id !in Ids(m.q) && |m.q| >= l.maxsize >= 1 ==> PushOne(m, l, a).dropped == m.dropped + 1
    ensures Ids(m.q + [EntryFor(a, id)]) == Ids(m.q) + {id}
  {
    IdsLaws(m.q, EntryFor(a, id));
  }

  lemma BatchPush(m: Memory, l: Limits, arrivals: seq<Arrival>, id: int)
    requires arrivals != [] && arrivals[|arrivals| - 1].update.id == Some(id)
    ensures var front, a := arrivals[..|arrivals| - 1], arrivals[|arrivals| - 1];
            && PushMemory(m, l, arrivals) == PushOne(PushMemory(m, l, front), l, a)
            && BatchOf(m, l, arrivals) == if id in Ids(PushMemory(m, l, front).q) then BatchOf(m, l, front)
                                          else BatchOf(m, l, front) + [EntryFor(a, id)]
  {}

  /** batch has been appended to m, and holds what is new among ids. */
  ghost predicate Appended(m: Memory, m1: Memory, batch: seq<Entry>, ids: seq<int>) {
    && m1 == m.(q := m.q + batch) && Ids(m1.q) == Ids(m.q) + Elements(ids)
    && |batch| == |NewIds(m.q, ids)| && Ids(batch) == NewIds(m.q, ids)
  }

  lemma AppendNothing(m: Memory)
    ensures Appended(m, m, [], [])
  {
    assert m.q + [] == m.q;
    assert Elements([]) == {} && NewIds(m.q, []) == {} && Ids([]) == {};
  }

  lemma AppendStep(m: Memory, l: Limits, m1: Memory, batch: seq<Entry>, ids: seq<int>, a: Arrival, id: int)
    requires Appended(m, m1, batch, ids) && (forall i | 0 <= i < |ids| :: ids[i] < id) && a.update.id == Some(id)
    requires HasRoom(m, l, ids + [id])
    ensures Appended(m, PushOne(m1, l, a), if id in Ids(m1.q) then batch else batch + [EntryFor(a, id)], ids + [id])
  {
    hide PushOne;
    hide Ids;
    hide NewIds;
    hide Elements;
    NewIdsPush(m.q, ids, id);
    PushOneAppends(m1, l, a, id);
    IdsLaws(batch, EntryFor(a, id));
    assert (m.q + batch) + [EntryFor(a, id)] == m.q + (batch + [EntryFor(a, id)]);
  }

  /** With room, a push appends the new ids and drops nothing. */
  lemma {:induction false} PushAppends(m: Memory, l: Limits, arrivals: seq<Arrival>, ids: seq<int>)
    requires Stamped(arrivals, ids) && Increasing(ids) && HasRoom(m, l, ids)
    ensures Appended(m, PushMemory(m, l, arrivals), BatchOf(m, l, arrivals), ids)
  {
    hide Appended;
    hide PushOne;
    hide HasRoom;
    if arrivals == [] {
      AppendNothing(m);
    } else {
      var last := |arrivals| - 1;
      var front, id := ids[..last], ids[last];
      assert ids == front + [id];
      RoomBefore(m, l, front, id);
      PushAppends(m, l, arrivals[..last], front);
      BatchPush(m, l, arrivals, id);
      hide PushMemory;
      hide BatchOf;
      AppendStep(m, l, PushMemory(m, l, arrivals[..last]), BatchOf(m, l, arrivals[..last]), front, arrivals[last], id);
    }
  }

  lemma RoomBefore(m: Memory, l: Limits, ids: seq<int>, id: int)
    requires (forall i | 0 <= i < |ids| :: ids[i] < id) && HasRoom(m, l, ids + [id])
    ensures HasRoom(m, l, ids)
  {
    hide NewIds;
    NewIdsPush(m.q, ids, id);
  }

  lemma {:induction false} PushCounters(m: Memory, l: Limits, arrivals: seq<Arrival>)
    ensures var r := PushMemory(m, l, arrivals);
            r.dropped >= m.dropped && r.expired == m.expired && r.offset == m.offset
  {
    if arrivals == [] {
    } else {
      PushCounters(m, l, arrivals[..|arrivals| - 1]);
    }
  }

  /** A push drops nothing exactly when there is room. */
  lemma {:induction false} HasRoomIff(m: Memory, l: Limits, arrivals: seq<Arrival>, ids: seq<int>)
    requires Stamped(arrivals, ids) && Increasing(ids) && |m.q| <= l.maxsize && l.maxsize >= 1
    ensures HasRoom(m, l, ids) <==> PushMemory(m, l, arrivals).dropped == m.dropped
  {
    if arrivals == [] {
      assert NewIds(m.q, ids) == {};
    } else {
      hide Appended;
      hide PushOne;
      hide PushMemory;
      hide HasRoom;
      var last := |arrivals| - 1;
      var front, id, a := ids[..last], ids[last], arrivals[last];
      assert ids == front + [id];
      HasRoomIff(m, l, arrivals[..last], front);
      PushCounters(m, l, arrivals[..last]);
      BatchPush(m, l, arrivals, id);
      if HasRoom(m, l, front) { PushAppends(m, l, arrivals[..last], front); }
      RoomStep(m, l, PushMemory(m, l, arrivals[..last]), front, a, id);
    }
  }

  lemma RoomStep(m: Memory, l: Limits, m1: Memory, ids: seq<int>, a: Arrival, id: int)
    requires l.maxsize >= 1 && |m.q| <= l.maxsize && a.update.id == Some(id)
    requires forall i | 0 <= i < |ids| :: ids[i] < id
    requires HasRoom(m, l, ids) ==> exists batch :: Appended(m, m1, batch, ids)
    requires HasRoom(m, l, ids) <==> m1.dropped == m.dropped
    requires m1.dropped >= m.dropped
    ensures HasRoom(m, l, ids + [id]) <==> PushOne(m1, l, a).dropped == m.dropped
  {
    hide PushOne;
    hide Ids;
    hide NewIds;
    NewIdsPush(m.q, ids, id);
    PushOneAppends(m1, l, a, id);
    PushOneCounts(m1, l, a);
  }

  lemma PushOneCounts(m: Memory, l: Limits, a: Arrival)
    ensures PushOne(m, l, a).dropped >= m.dropped
  {}

  lemma RoomForPrefix(m: Memory, l: Limits, ids: seq<int>, k: nat)
    requires HasRoom(m, l, ids) && k <= |ids|
    ensures HasRoom(m, l, ids[..k])
  {
    Subset(NewIds(m.q, ids[..k]), NewIds(m.q, ids));
  }

  /** What the deque holds after k ids of the answer, when there is room. */
  lemma {:induction false} RoomHolds(m: Memory, l: Limits, arrivals: seq<Arrival>, ids: seq<int>, k: nat)
    requires Stamped(arrivals, ids) && Increasing(ids) && HasRoom(m, l, ids) && k <= |ids|
    ensures var r := PushMemory(m, l, arrivals[..k]);
            r.offset == m.offset && Ids(r.q) == Ids(m.q) + Elements(ids[..k])
  {
    RoomForPrefix(m, l, ids, k);
    hide HasRoom;
    hide PushMemory;
    hide BatchOf;
    assert Stamped(arrivals[..k], ids[..k]) && Increasing(ids[..k]);
    PushAppends(m, l, arrivals[..k], ids[..k]);
  }

  // ---- Pages ----

  lemma {:induction false} AboveShrinks(q: seq<Entry>, offset: int)
    ensures |Above(q, offset)| <= |q|
  {
    if q == [] {
    } else {
      AboveShrinks(q[..|q| - 1], offset);
    }
  }
}
