/** What is served is what Telegram sent: an update keeps its payload from its arrival
    over the deque, the disk and any number of reloads to the page a consumer gets. */
module QueuePayloads {
  import opened Options
  import opened UpdateQueue
  import opened QueueProtocol
  import opened QueueGuards

  /** The update Telegram sends under this id, each time it sends it. */
  function Original(sent: int -> string, id: int): Update { Update(Some(id), sent(id)) }

  ghost predicate Carries(q: seq<Entry>, sent: int -> string) {
    forall i | 0 <= i < |q| :: q[i].update == Original(sent, q[i].id)
  }

  ghost predicate Genuine(arrivals: seq<Arrival>, sent: int -> string) {
    forall i | 0 <= i < |arrivals| && arrivals[i].update.id.Some? ::
      arrivals[i].update.payload == sent(arrivals[i].update.id.value)
  }

  ghost predicate AllCarry(s: System, sent: int -> string) {
    && Carries(s.memory.q, sent) && (s.poller.Pushed? ==> Carries(s.poller.batch, sent))
    && forall id | id in s.disk.rows :: s.disk.rows[id].update == Some(Original(sent, id))
  }

  lemma {:induction false} PushCarries(m: Memory, l: Limits, arrivals: seq<Arrival>, ids: seq<int>, sent: int -> string)
    requires Stamped(arrivals, ids) && Genuine(arrivals, sent) && Carries(m.q, sent)
    ensures Carries(PushMemory(m, l, arrivals).q, sent) && Carries(BatchOf(m, l, arrivals), sent)
  {
    if arrivals == [] {
    } else {
      var last := |arrivals| - 1;
      PushCarries(m, l, arrivals[..last], ids[..last], sent);
      BatchPush(m, l, arrivals, ids[last]);
      PushOneCarries(PushMemory(m, l, arrivals[..last]), l, arrivals[last], sent);
      hide PushMemory;
      hide BatchOf;
      hide PushOne;
    }
  }

  lemma PushOneCarries(m: Memory, l: Limits, a: Arrival, sent: int -> string)
    requires Carries(m.q, sent) && a.update.id.Some? && a.update.payload == sent(a.update.id.value)
    ensures Carries(PushOne(m, l, a).q, sent)
  {}

  lemma DropsCarry(m: Memory, l: Limits, lastSeen: int, mono: real, sent: int -> string)
    requires Carries(m.q, sent)
    ensures Carries(AckMemory(m, lastSeen).q, sent) && Carries(PruneMemory(m, l, mono).q, sent)
  {
    DropAckedIsSuffix(m.q, AckMemory(m, lastSeen).offset);
    DropExpiredIsSuffix(m.q, mono - l.ttl);
    hide DropAcked;
    hide DropExpired;
  }

  lemma {:induction false} CommitCarries(d: Disk, batch: seq<Entry>, wall: real, sent: int -> string)
    requires Carries(batch, sent) && forall id | id in d.rows :: d.rows[id].update == Some(Original(sent, id))
    ensures var r := Commit(d, batch, wall); forall id | id in r.rows :: r.rows[id].update == Some(Original(sent, id))
  {
    hide Commit;
    var r := Commit(d, batch, wall);
    forall id | id in r.rows ensures r.rows[id].update == Some(Original(sent, id)) {
      CommitExact(d, batch, wall, id);
      if id !in d.rows {
        var k :| 0 <= k < |batch| && IsRowOf(r.rows[id], batch[k], wall) && batch[k].id == id;
      }
    }
  }

  lemma ReloadCarries(d: Disk, l: Limits, mono: real, wall: real, sent: int -> string)
    requires forall id | id in d.rows :: d.rows[id].update == Some(Original(sent, id))
    ensures Carries(Reload(d, l, mono, wall).q, sent)
  {
    hide Reload;
    var q := Reload(d, l, mono, wall).q;
    forall i | 0 <= i < |q| ensures q[i].update == Original(sent, q[i].id) {
      ReloadKeepsRows(d, l, mono, wall, q[i]);
    }
  }

  lemma AllCarryStep(s: System, a: Action, sent: int -> string)
    requires AllCarry(s, sent) && Enabled(s, a) && (a.Push? ==> Genuine(a.arrivals, sent))
    ensures AllCarry(Next(s, a), sent)
  {
    hide Carries;
    hide PushMemory;
    hide BatchOf;
    hide PruneMemory;
    hide AckMemory;
    hide Commit;
    hide Reload;
    match a
    case Push(arrivals, mono) =>
      DropsCarry(s.memory, s.limits, 0, mono, sent);
      PushCarries(PruneMemory(s.memory, s.limits, mono), s.limits, arrivals, s.poller.ids, sent);
    case CommitBatch(wall) => CommitCarries(s.disk, s.poller.batch, wall, sent);
    case AckBegin(_, lastSeen) => DropsCarry(s.memory, s.limits, lastSeen, 0.0, sent);
    case PullBegin(r) => DropsCarry(s.memory, s.limits, s.replicas[r].cursor, 0.0, sent);
    case Crash(mono, wall) => ReloadCarries(s.disk, s.limits, mono, wall, sent);
    case _ =>
  }

  lemma {:induction false} AllCarryAlways(ss: seq<System>, acts: seq<Action>, n: nat, sent: int -> string)
    requires IsExecution(ss, acts) && n < |ss|
    requires forall i | 0 <= i < n && acts[i].Push? :: Genuine(acts[i].arrivals, sent)
    ensures AllCarry(ss[n], sent)
  {
    hide Next;
    hide Enabled;
    if n == 0 {
    } else {
      hide AllCarry;
      AllCarryAlways(ss, acts, n - 1, sent);
      assert Enabled(ss[n - 1], acts[n - 1]);
      AllCarryStep(ss[n - 1], acts[n - 1], sent);
    }
  }

  /** In every execution, crashes included, every entry of every page carries the payload
      Telegram sent for its id. */
  lemma ServedAsSent(ss: seq<System>, acts: seq<Action>, n: nat, sent: int -> string, limit: int)
    requires IsExecution(ss, acts) && n < |ss|
    requires forall i | 0 <= i < n && acts[i].Push? :: Genuine(acts[i].arrivals, sent)
    ensures forall e | e in Page(ss[n].memory, limit) :: e.update == Update(Some(e.id), sent(e.id))
  {
    hide IsExecution;
    AllCarryAlways(ss, acts, n, sent);
    AboveMembers(ss[n].memory.q, ss[n].memory.offset);
    hide Above;
    forall e | e in Page(ss[n].memory, limit) ensures e.update == Update(Some(e.id), sent(e.id)) {
      assert e in ss[n].memory.q;
      var i :| 0 <= i < |ss[n].memory.q| && ss[n].memory.q[i] == e;
    }
  }
}
