/** Admission control for one MTProto session (internal/rateguard/mt.go): the
    Bot API guard plus a silent bucket and per-peer adaptive backoff. Every run
    of it projects onto a run of the Bot API guard, which carries the window
    bound over. */
module MTRateGuard {
  import opened Buckets
  import opened Options
  import opened Reals
  import opened RateGuard

  datatype Peer = Peer(offences: nat, lastWait: real, pausedUntil: real)

  datatype MTConfig = MTConfig(floodBackoffBase: real, peerFloodCooldown: real, slowmodeRespect: bool)

  datatype MTState = MTState(mt: MTConfig, core: GuardState, silent: BucketState, peers: map<int, Peer>)
  {
    ghost predicate WellFormed() { core.WellFormed() && silent.WellFormed() }
  }

  /** The outcome of ParseFloodWait: mt.go:31-52. */
  datatype FloodType = FloodWait | FloodPremium | Slowmode | PeerFlood

  // ---- The adaptive wait ----

  function Pow(base: real, n: nat): real { if n == 0 then 1.0 else base * Pow(base, n - 1) }

  const MAX_BACKOFF := 3600.0

  function Adaptive(wait: real, base: real, offences: nat): real {
    Capped(wait, Pow(base, if offences == 0 then 0 else offences - 1))
  }

  function Capped(wait: real, factor: real): real { Min(wait * factor, MAX_BACKOFF) }

  lemma {:induction false} PowGrows(base: real, n: nat)
    requires base >= 1.0
    ensures Pow(base, n) >= 1.0 && Pow(base, n + 1) >= Pow(base, n)
  {
    if n > 0 { PowGrows(base, n - 1); }
    assert Pow(base, n + 1) == base * Pow(base, n);
    var p := Pow(base, n);
    assert (base - 1.0) * p >= 0.0;
  }

  lemma ScaledOrder(wait: real, x: real, y: real)
    requires wait >= 0.0 && x <= y
    ensures wait * x <= wait * y
  {
    assert wait * (y - x) >= 0.0;
  }

  /** Each offence waits at least what Telegram asked (up to an hour), never more
      than an hour, and never less than the offence before. */
  lemma AdaptiveBounds(wait: real, base: real, offences: nat)
    requires wait >= 0.0 && base >= 1.0
    ensures Min(wait, 3600.0) <= Adaptive(wait, base, offences) <= 3600.0
    ensures Adaptive(wait, base, offences) <= Adaptive(wait, base, offences + 1)
  {
    var n := if offences == 0 then 0 else offences - 1;
    PowGrows(base, n);
    ScaledOrder(wait, 1.0, Pow(base, n));
    ScaledOrder(wait, Pow(base, n), Pow(base, n + 1));
  }

  // ---- Specification of the operations ----

  function PeerOf(m: MTState, c: int): Peer { if c in m.peers then m.peers[c] else Peer(0, 0.0, 0.0) }

  function WithPeer(m: MTState, chat: Option<int>): MTState {
    if chat.None? then m else m.(peers := m.peers[chat.value := PeerOf(m, chat.value)])
  }

  predicate PeerPaused(m: MTState, chat: Option<int>, now: real) {
    chat.Some? && PeerOf(m, chat.value).pausedUntil > now
  }

  function MTAcquire(m: MTState, kind: Kind, silent: bool, chat: Option<int>, paidLane: bool, now: real, created: real)
    : (MTState, bool)
  {
    var m1 := WithPeer(m, chat);
    if PeerPaused(m, chat, now) then (m1, false)
    else if kind == Write && silent && m.core.egress <= now then
      var (b, ok) := TryTake(m.silent, now);
      (m1.(silent := b), ok)
    else
      var (core, ok) := Acquire(m.core, kind, chat, paidLane, now, created);
      (m1.(core := core), ok)
  }

  function MTQuote(m: MTState, kind: Kind, chat: Option<int>, now: real, created: real): (MTState, real)
    requires m.WellFormed()
  {
    var (core, wait) := Quote(m.core, kind, chat, now, created);
    (WithPeer(m, chat).(core := core),
     if chat.None? then wait else Max(wait, PeerOf(m, chat.value).pausedUntil - now))
  }

  /** The pause a report puts on the chat bucket or the egress; None when it
      leaves them alone. */
  function CorePause(m: MTState, kind: FloodType, wait: real, chat: Option<int>): Option<real> {
    if kind == PeerFlood || (kind == Slowmode && !m.mt.slowmodeRespect) then None
    else if chat.None? then Some(wait)
    else Some(Adaptive(wait, m.mt.floodBackoffBase, PeerOf(m, chat.value).offences + 1))
  }

  function ReportFlood(m: MTState, kind: FloodType, wait: real, chat: Option<int>, now: real, created: real): MTState {
    var pause := CorePause(m, kind, wait, chat);
    var core := if pause.None? then m.core else Report429(m.core, chat, pause.value, now, created);
    if chat.None? || (pause.None? && kind != PeerFlood) then m.(core := core)
    else
      var p := PeerOf(m, chat.value);
      var p' := if kind == PeerFlood then Peer(p.offences + 1, p.lastWait, now + m.mt.peerFloodCooldown)
                else Peer(p.offences + 1, wait, now + pause.value);
      m.(core := core, peers := m.peers[chat.value := p'])
  }

  function ClearPeer(m: MTState, c: int): MTState { m.(peers := m.peers - {c}) }

  /** What each kind of report does to the shared buckets: a PeerFlood and an unrespected
      slowmode nothing; any other pauses the egress for what Telegram asks when no chat
      is named, else the chat for min(wait * base^offences, 3600). */
  lemma PauseOfReport(m: MTState, kind: FloodType, wait: real, chat: Option<int>)
    ensures var pause := CorePause(m, kind, wait, chat);
            if kind == PeerFlood || (kind == Slowmode && !m.mt.slowmodeRespect) then pause == None
            else if chat.None? then pause == Some(wait)
            else pause == Some(Capped(wait, Pow(m.mt.floodBackoffBase, PeerOf(m, chat.value).offences)))
  {
    hide Adaptive;
    hide Capped;
    if chat.Some? { AdaptiveIs(wait, m.mt.floodBackoffBase, PeerOf(m, chat.value).offences); }
  }

  lemma {:induction false} AdaptiveIs(wait: real, base: real, earlier: nat)
    ensures Adaptive(wait, base, earlier + 1) == Capped(wait, Pow(base, earlier))
  {
    hide Capped;
  }

  lemma CappedIs(wait: real, factor: real)
    ensures Capped(wait, factor) == Min(wait * factor, 3600.0)
  {}

  lemma PowIs(base: real, n: nat)
    ensures Pow(base, 0) == 1.0 && Pow(base, n + 1) == base * Pow(base, n)
  {}

  // ---- Traces ----

  datatype MTEvent =
    | MTAttempt(kind: Kind, silent: bool, chat: Option<int>, paidLane: bool, now: real, created: real)
    | MTProbe(kind: Kind, chat: Option<int>, now: real, created: real)
    | Flood(flood: FloodType, wait: real, chat: Option<int>, now: real, created: real)
    | Clear(peer: int, now: real)
    | MTSnapshot(now: real)

  ghost function MTStep(m: MTState, e: MTEvent): (MTState, bool)
    requires m.WellFormed()
  {
    match e
    case MTAttempt(kind, silent, chat, paidLane, now, created) =>
      MTAcquire(m, kind, silent, chat, paidLane, now, created)
    case MTProbe(kind, chat, now, created) => (MTQuote(m, kind, chat, now, created).0, false)
    case Flood(flood, wait, chat, now, created) => (ReportFlood(m, flood, wait, chat, now, created), false)
    case Clear(peer, _) => (ClearPeer(m, peer), false)
    case MTSnapshot(now) => (m.(core := RefilledChats(m.core, now)), false)
  }

  datatype MTRecord = MTRecord(e: MTEvent, before: MTState, after: MTState, ok: bool)

  ghost predicate MTStepped(r: MTRecord) {
    r.before.WellFormed() && (r.after, r.ok) == MTStep(r.before, r.e)
  }

  ghost predicate IsMTRun(rs: seq<MTRecord>) {
    && (forall i | 0 <= i < |rs| :: rs[i].before.WellFormed())
    && (forall i {:trigger MTStepped(rs[i])} | 0 <= i < |rs| :: MTStepped(rs[i]))
    && (forall i | 0 <= i < |rs| - 1 :: rs[i].after == rs[i + 1].before)
    && (forall i, j | 0 <= i <= j < |rs| :: rs[i].e.now <= rs[j].e.now)
  }

  // ---- Projection onto the Bot API guard ----

  /** What the core guard sees of an MTProto event; None when it sees nothing. */
  function Seen(m: MTState, e: MTEvent): Option<Event> {
    match e
    case MTAttempt(kind, silent, chat, paidLane, now, created) =>
      if PeerPaused(m, chat, now) || (kind == Write && silent && m.core.egress <= now) then None
      else Some(Attempt(kind, chat, paidLane, now, created))
    case MTProbe(kind, chat, now, created) => Some(Probe(kind, chat, now, created))
    case Flood(flood, wait, chat, now, created) =>
      var pause := CorePause(m, flood, wait, chat);
      if pause.None? then None else Some(RateGuard.Report(chat, pause.value, now, created))
    case Clear(_, _) => None
    case MTSnapshot(now) => Some(Snapshot(now))
  }

  ghost function View(r: MTRecord): Option<Record> {
    var e := Seen(r.before, r.e);
    if e.None? then None else Some(Record(e.value, r.before.core, r.after.core, r.ok))
  }

  /** An attempt the core guard has to account for: all but silent writes. */
  predicate CoreAttempt(e: MTEvent) { e.MTAttempt? && !(e.kind == Write && e.silent) }

  predicate CoreWrite(e: MTEvent) { CoreAttempt(e) && e.kind == Write }

  lemma StepProjects(r: MTRecord)
    requires MTStepped(r)
    ensures r.after.WellFormed()
    ensures if View(r).None? then r.after.core == r.before.core && (r.ok ==> !CoreAttempt(r.e))
            else Stepped(View(r).value) && View(r).value.e.now == r.e.now
    ensures r.ok && CoreAttempt(r.e) ==>
              var e := Attempt(r.e.kind, r.e.chat, r.e.paidLane, r.e.now, r.e.created);
              View(r) == Some(Record(e, r.before.core, r.after.core, true))
  {
    var e := Seen(r.before, r.e);
    if e.Some? { StepKeepsWellFormed(r.before.core, e.value); }
  }

  ghost function Project(rs: seq<MTRecord>): seq<Record> {
    if rs == [] then []
    else if View(rs[0]).None? then Project(rs[1..])
    else [View(rs[0]).value] + Project(rs[1..])
  }

  lemma ConsIsRun(r: Record, rs: seq<Record>)
    requires Stepped(r) && IsRun(rs) && (rs != [] ==> r.after == rs[0].before && r.e.now <= rs[0].e.now)
    ensures IsRun([r] + rs)
  {
    var all := [r] + rs;
    assert forall i | 0 < i < |all| :: all[i] == rs[i - 1];
  }

  /** Every MTProto run projects onto a run of the Bot API guard. */
  lemma {:induction false} RunProjects(rs: seq<MTRecord>)
    requires IsMTRun(rs)
    ensures IsRun(Project(rs))
    ensures Project(rs) != [] ==> Project(rs)[0].before == rs[0].before.core && Project(rs)[0].e.now >= rs[0].e.now
    ensures Project(rs) != [] ==> Project(rs)[|Project(rs)| - 1].e.now <= rs[|rs| - 1].e.now
  {
    if rs == [] {
    } else {
      var rest := rs[1..];
      assert forall i | 0 <= i < |rest| :: rest[i] == rs[i + 1];
      RunProjects(rest);
      StepProjects(rs[0]);
      if View(rs[0]).Some? { ConsIsRun(View(rs[0]).value, Project(rest)); }
    }
  }

  predicate InScope(s: Scope, kind: Kind, chat: Option<int>, paidLane: bool) {
    match s
    case Chat(id) => kind == Write && chat == Some(id)
    case Bot => kind == Write && !paidLane
    case Paid => kind == Write && paidLane
    case Reads => kind == Read
  }

  function MTCounts(s: Scope, r: MTRecord): nat {
    if r.ok && CoreAttempt(r.e) && InScope(s, r.e.kind, r.e.chat, r.e.paidLane) then 1 else 0
  }

  function MTAdmitted(rs: seq<MTRecord>, s: Scope): nat {
    if rs == [] then 0 else MTCounts(s, rs[0]) + MTAdmitted(rs[1..], s)
  }

  lemma ViewCounts(r: MTRecord, s: Scope)
    requires MTStepped(r)
    ensures MTCounts(s, r) <= if View(r).None? then 0 else EntryOf(View(r).value, s).spent
  {
    StepProjects(r);
  }

  lemma RunTail(rs: seq<MTRecord>)
    requires IsMTRun(rs) && rs != []
    ensures IsMTRun(rs[1..]) && MTStepped(rs[0])
  {
    hide MTStepped;
    var rest := rs[1..];
    assert forall i | 0 <= i < |rest| :: rest[i] == rs[i + 1];
  }

  lemma LedgerCons(r: Record, rs: seq<Record>, s: Scope)
    ensures Spent(Ledger([r] + rs, s)) == EntryOf(r, s).spent + Spent(Ledger(rs, s))
  {
    hide EntryOf;
    assert Ledger([r] + rs, s) == [EntryOf(r, s)] + Ledger(rs, s);
  }

  lemma {:induction false} AdmittedProjects(rs: seq<MTRecord>, s: Scope)
    requires IsMTRun(rs)
    ensures MTAdmitted(rs, s) <= Spent(Ledger(Project(rs), s))
  {
    hide View;
    hide EntryOf;
    hide MTCounts;
    hide IsMTRun;
    hide MTStepped;
    if rs == [] {
    } else {
      var rest, v := rs[1..], View(rs[0]);
      RunTail(rs);
      AdmittedProjects(rest, s);
      ViewCounts(rs[0], s);
      hide Ledger;
      if v.Some? { LedgerCons(v.value, Project(rest), s); }
    }
  }

  lemma {:induction false} MTLedgerWindow(rs: seq<MTRecord>, from: nat, to: nat, s: Scope)
    requires IsMTRun(rs) && from < to <= |rs|
    ensures var w := rs[from..to];
            var cfg := rs[from].before.core.cfg;
            MTAdmitted(w, s) as real
            <= Burst(cfg, s) as real + Accrued(cfg, s, rs[from].e.now, rs[to - 1].e.now)
               + Cleared(Ledger(Project(w), s)) as real
  {
    var w := rs[from..to];
    assert forall i | 0 <= i < |w| :: w[i] == rs[from + i];
    AdmittedProjects(w, s);
    RunProjects(w);
    var cfg, p := rs[from].before.core.cfg, Project(w);
    AccruedIsWorth(cfg, s, rs[from].e.now, rs[to - 1].e.now);
    if p == [] {
    } else {
      assert p[0..|p|] == p;
      LedgerWindow(p, 0, |p|, s);
      AccruedIsWorth(cfg, s, p[0].e.now, p[|p| - 1].e.now);
      AccruedIsWorth(cfg, s, rs[from].e.now, p[0].e.now);
      AccruedIsWorth(cfg, s, p[|p| - 1].e.now, rs[to - 1].e.now);
    }
  }

  /** Over every window of every MTProto run, the attempts admitted in a scope, silent
      writes aside, number at most burst + rate * T + one per pause cleared. */
  lemma {:induction false} MTWindowBound(rs: seq<MTRecord>, from: nat, to: nat, s: Scope)
    requires IsMTRun(rs) && from < to <= |rs|
    ensures var w, cfg := rs[from..to], rs[from].before.core.cfg;
            MTAdmitted(w, s) as real
            <= Burst(cfg, s) as real + Rate(cfg, s) * (rs[to - 1].e.now - rs[from].e.now)
               + PausesCleared(Project(w), s) as real
  {
    hide IsMTRun;
    MTLedgerWindow(rs, from, to, s);
    LedgerCounts(Project(rs[from..to]), s);
  }

  // ---- A quoted wait is the least one ----

  lemma MTWaitTimeExact(m: MTState, kind: Kind, chat: Option<int>, now: real, created: real, t: real, created': real)
    requires m.WellFormed() && 0.0 <= now <= t
    ensures var (m', w) := MTQuote(m, kind, chat, now, created);
            w >= 0.0 && (MTAcquire(m', kind, false, chat, false, t, created').1 <==> t >= now + w)
  {
    WaitTimeExact(m.core, kind, chat, now, created, t, created');
  }

  // ---- A real flood wait is never cut short ----

  /** The attempts a pause must stop: every one, or the non-silent writes to the chat. */
  predicate MTBarred(e: MTEvent, chat: Option<int>) {
    e.MTAttempt? && (chat.None? || (CoreWrite(e) && e.chat == chat))
  }

  lemma MTStepHolds(r: MTRecord, chat: Option<int>, until: real)
    requires MTStepped(r) && HeldUntil(r.before.core, chat, until) && r.e.now < until
    ensures HeldUntil(r.after.core, chat, until)
    ensures r.ok ==> !MTBarred(r.e, chat)
  {
    StepProjects(r);
    if View(r).Some? { StepHolds(View(r).value, chat, until); }
  }

  lemma {:induction false} MTHeldToTheEnd(rs: seq<MTRecord>, chat: Option<int>, until: real, n: nat)
    requires IsMTRun(rs) && n < |rs| && HeldUntil(rs[0].before.core, chat, until) && rs[n].e.now < until
    ensures HeldUntil(rs[n].before.core, chat, until)
  {
    if n == 0 {
    } else {
      MTHeldToTheEnd(rs, chat, until, n - 1);
      MTStepHolds(rs[n - 1], chat, until);
    }
  }

  /** After a flood report at t that pauses for a, whatever attempts, probes,
      other reports and cleared peers follow, nothing it bars is admitted before
      t + a: no attempt at all when no chat was named, else no non-silent write to
      the chat. */
  lemma FloodWaitNeverCutShort(rs: seq<MTRecord>, n: nat, a: real)
    requires IsMTRun(rs) && 0 < n < |rs| && rs[0].e.Flood?
    requires CorePause(rs[0].before, rs[0].e.flood, rs[0].e.wait, rs[0].e.chat) == Some(a)
    requires rs[n].ok && MTBarred(rs[n].e, rs[0].e.chat)
    ensures rs[n].e.now >= rs[0].e.now + a
  {
    var until := rs[0].e.now + a;
    if rs[n].e.now < until {
      assert MTStepped(rs[0]);
      var rest := rs[1..];
      assert forall i | 0 <= i < |rest| :: rest[i] == rs[i + 1];
      MTHeldToTheEnd(rest, rs[0].e.chat, until, n - 1);
      MTStepHolds(rs[n], rs[0].e.chat, until);
    }
  }

  /** Whether clearing the peer lifts a reported wait: a write that was open goes out at
      once if and only if the report paused no bucket, as for a PeerFlood or an
      unrespected slowmode. */
  lemma ClearLiftsIff(m: MTState, flood: FloodType, wait: real, c: int, now: real)
    requires m.WellFormed() && c in m.core.chats && m.core.egress <= now && 0.0 <= now
    requires Refilled(m.core.chats[c], now).Open(now) && Refilled(m.core.global, now).Open(now)
    requires var pause := CorePause(m, flood, wait, Some(c)); pause.Some? ==> pause.value > 0.0
    ensures var m1 := ReportFlood(m, flood, wait, Some(c), now, now);
            MTAcquire(ClearPeer(m1, c), Write, false, Some(c), false, now, now).1
            <==> CorePause(m, flood, wait, Some(c)).None?
  {}

  // ---- A peer's own pause ----

  /** The event ends peer c's pause before `until`: it clears the peer, or it is a
      report on the peer that ends earlier. */
  ghost predicate EndsEarly(m: MTState, e: MTEvent, c: int, until: real) {
    match e
    case Clear(peer, _) => peer == c
    case Flood(flood, wait, chat, now, _) =>
      chat == Some(c) &&
      if flood == PeerFlood then now + m.mt.peerFloodCooldown < until
      else CorePause(m, flood, wait, chat).Some? && now + CorePause(m, flood, wait, chat).value < until
    case _ => false
  }

  /** A step keeps a peer's pause exactly when it does not end it early. */
  lemma PeerPauseIff(r: MTRecord, c: int, until: real)
    requires MTStepped(r) && PeerOf(r.before, c).pausedUntil >= until > 0.0
    ensures PeerOf(r.after, c).pausedUntil >= until <==> !EndsEarly(r.before, r.e, c, until)
    ensures r.after.mt == r.before.mt
  {}

  ghost predicate NoneEndsEarly(rs: seq<MTRecord>, n: nat, c: int, until: real) {
    n <= |rs| && forall i | 0 <= i < n :: !EndsEarly(rs[i].before, rs[i].e, c, until)
  }

  lemma {:induction false} PeerPauseKept(rs: seq<MTRecord>, n: nat, c: int, until: real)
    requires IsMTRun(rs) && n < |rs| && PeerOf(rs[0].before, c).pausedUntil >= until > 0.0
    requires NoneEndsEarly(rs, n, c, until)
    ensures PeerOf(rs[n].before, c).pausedUntil >= until
  {
    if n == 0 {
    } else {
      PeerPauseKept(rs, n - 1, c, until);
      assert MTStepped(rs[n - 1]);
      PeerPauseIff(rs[n - 1], c, until);
    }
  }

  /** After a PeerFlood report at t nothing naming the peer is admitted before the
      cooldown is over, silent methods and reads included, whatever attempts, probes
      and reports follow, unless one clears the peer or is a report on it that ends
      earlier. */
  lemma PeerFloodHolds(rs: seq<MTRecord>, n: nat, c: int)
    requires IsMTRun(rs) && 0 < n < |rs| && rs[0].e.Flood? && rs[0].e.flood == PeerFlood && rs[0].e.chat == Some(c)
    requires var until := rs[0].e.now + rs[0].before.mt.peerFloodCooldown;
             until > 0.0 && forall i | 0 < i < n :: !EndsEarly(rs[i].before, rs[i].e, c, until)
    requires rs[n].e.MTAttempt? && rs[n].e.chat == Some(c) && rs[n].ok
    ensures rs[n].e.now >= rs[0].e.now + rs[0].before.mt.peerFloodCooldown
  {
    var until := rs[0].e.now + rs[0].before.mt.peerFloodCooldown;
    var rest := rs[1..];
    RunTail(rs);
    assert forall i | 0 <= i < |rest| :: rest[i] == rs[i + 1];
    assert PeerOf(rs[0].after, c).pausedUntil == until;
    PeerPauseKept(rest, n - 1, c, until);
    assert MTStepped(rs[n]);
  }

  /** A later report on the peer overwrites its pause, longer or shorter. */
  lemma ReportOverwrites(m: MTState, flood: FloodType, wait: real, c: int, now: real, created: real, t: real)
    requires CorePause(m, flood, wait, Some(c)).Some?
    ensures var m1 := ReportFlood(m, flood, wait, Some(c), now, created);
            PeerPaused(m1, Some(c), t) <==> t < now + CorePause(m, flood, wait, Some(c)).value
  {}

  // ---- The k-th report ----

  /** The reports on peer c since it was last cleared, on top of `before`. */
  ghost function ReportsOn(rs: seq<MTRecord>, n: nat, c: int, before: nat): nat
    requires n <= |rs|
  {
    if n == 0 then before
    else
      var r := rs[n - 1];
      match r.e
      case Clear(peer, _) => if peer == c then 0 else ReportsOn(rs, n - 1, c, before)
      case Flood(flood, _, chat, _, _) =>
        ReportsOn(rs, n - 1, c, before)
        + if chat == Some(c) && (flood != Slowmode || r.before.mt.slowmodeRespect) then 1 else 0
      case _ => ReportsOn(rs, n - 1, c, before)
  }

  lemma {:induction false} OffencesCounted(rs: seq<MTRecord>, n: nat, c: int)
    requires IsMTRun(rs) && n < |rs|
    ensures PeerOf(rs[n].before, c).offences == ReportsOn(rs, n, c, PeerOf(rs[0].before, c).offences)
    ensures rs[n].before.mt == rs[0].before.mt
  {
    if n == 0 {
    } else {
      OffencesCounted(rs, n - 1, c);
      OffenceStep(rs[n - 1], c);
    }
  }

  lemma OffenceStep(r: MTRecord, c: int)
    requires MTStepped(r)
    ensures r.after.mt == r.before.mt
    ensures PeerOf(r.after, c).offences
            == match r.e
               case Clear(peer, _) => if peer == c then 0 else PeerOf(r.before, c).offences
               case Flood(flood, _, chat, _, _) =>
                 PeerOf(r.before, c).offences
                 + (if chat == Some(c) && (flood != Slowmode || r.before.mt.slowmodeRespect) then 1 else 0)
               case _ => PeerOf(r.before, c).offences
  {}

  /** Over a run, a flood report on a peer after k earlier ones since it was last cleared
      pauses its chat for min(wait * base^k, 3600). */
  lemma {:induction false} KthReportWaits(rs: seq<MTRecord>, n: nat, c: int)
    requires IsMTRun(rs) && n < |rs| && PeerOf(rs[0].before, c).offences == 0
    requires rs[n].e.Flood? && rs[n].e.chat == Some(c)
    requires rs[n].e.flood == FloodWait || rs[n].e.flood == FloodPremium
    ensures var k := ReportsOn(rs, n, c, 0);
            var pause := Capped(rs[n].e.wait, Pow(rs[0].before.mt.floodBackoffBase, k));
            && PeerOf(rs[n].after, c).pausedUntil == rs[n].e.now + pause
            && c in rs[n].after.core.chats && rs[n].after.core.chats[c].pausedUntil >= rs[n].e.now + pause
  {
    hide IsMTRun;
    hide MTStepped;
    hide CorePause;
    hide Capped;
    OffencesCounted(rs, n, c);
    RunStepped(rs, n);
    PauseOfReport(rs[n].before, rs[n].e.flood, rs[n].e.wait, Some(c));
    ReportPauses(rs[n], c);
  }

  lemma ReportPauses(r: MTRecord, c: int)
    requires MTStepped(r) && r.e.Flood? && r.e.chat == Some(c)
    requires CorePause(r.before, r.e.flood, r.e.wait, Some(c)).Some?
    ensures var pause := CorePause(r.before, r.e.flood, r.e.wait, Some(c)).value;
            && PeerOf(r.after, c).pausedUntil == r.e.now + pause
            && c in r.after.core.chats && r.after.core.chats[c].pausedUntil >= r.e.now + pause
  {
    hide Adaptive;
  }

  lemma RunStepped(rs: seq<MTRecord>, n: nat)
    requires IsMTRun(rs) && n < |rs|
    ensures MTStepped(rs[n])
  {}

  /** Clearing a peer starts it over: the next attempt meets no peer pause, the next
      flood waits what Telegram asks, up to an hour, and no other peer moves. */
  lemma ClearStartsOver(m: MTState, c: int, kind: Kind, paidLane: bool, wait: real, now: real, created: real)
    requires 0.0 <= now
    ensures var m1 := ClearPeer(m, c);
            && !PeerPaused(m1, Some(c), now) && m1.core == m.core && m1.silent == m.silent
            && CorePause(m1, FloodWait, wait, Some(c)) == Some(Min(wait, 3600.0))
            && MTAcquire(m1, kind, false, Some(c), paidLane, now, created).1
               == Acquire(m.core, kind, Some(c), paidLane, now, created).1
            && forall d | d != c :: PeerOf(m1, d) == PeerOf(m, d)
  {
    assert Pow(m.mt.floodBackoffBase, 0) == 1.0;
  }

  // ---- Tokens are conserved ----

  /** A silent write draws on the silent bucket alone; any other attempt keeps the Bot API
      guard's law and leaves the silent bucket alone. */
  lemma MTTokensConserved(m: MTState, kind: Kind, silent: bool, chat: Option<int>, paidLane: bool, now: real,
                          created: real)
    requires m.WellFormed()
    ensures var (m', ok) := MTAcquire(m, kind, silent, chat, paidLane, now, created);
            var wrote := ok && kind == Write && !silent;
            && Drawn(m.silent, m'.silent, now) == (if ok && kind == Write && silent then 1.0 else 0.0)
            && (chat.Some? ==> Drawn(ChatOf(m.core, chat.value, created), ChatOf(m'.core, chat.value, created), now)
                               == if wrote then 1.0 else 0.0)
            && Drawn(m.core.global, m'.core.global, now) == (if wrote && !paidLane then 1.0 else 0.0)
            && Drawn(m.core.paid, m'.core.paid, now) == (if wrote && paidLane then 1.0 else 0.0)
            && Drawn(m.core.reading, m'.core.reading, now) == (if ok && kind == Read then 1.0 else 0.0)
            && (forall d | Some(d) != chat :: ChatOf(m'.core, d, created) == ChatOf(m.core, d, created))
  {
    hide Acquire;
    hide Drawn;
    hide Refilled;
    DrawnByTake(m.silent, now);
    DrawnByTake(m.core.global, now);
    DrawnByTake(m.core.paid, now);
    DrawnByTake(m.core.reading, now);
    if chat.Some? { DrawnByTake(ChatOf(m.core, chat.value, created), now); }
    TokensConserved(m.core, kind, chat, paidLane, now, created);
    EgressBars(m.core, kind, chat, paidLane, now, created);
  }

  lemma EgressBars(g: GuardState, kind: Kind, chat: Option<int>, paidLane: bool, now: real, created: real)
    ensures now < g.egress ==> Acquire(g, kind, chat, paidLane, now, created) == (g, false)
  {}

  // ---- The object ----

  class MTGuard {
    const mt: MTConfig
    const core: Guard  // the buckets MTGuard shares with the Bot API guard
    const silent: Bucket
    var peerBackoffs: map<int, Peer>

    ghost function State(): MTState
      reads this, core, core.Repr(), silent
    {
      MTState(mt, core.State(), silent.State(), peerBackoffs)
    }

    ghost predicate Valid()
      reads this, core, core.Repr(), silent
    {
      core.Valid() && silent !in core.Repr() && State().WellFormed()
    }

    constructor (mt: MTConfig, core: Guard, silentRate: real, now: real)
      requires core.Valid() && silentRate > 0.0
      ensures Valid() && this.core == core && fresh(silent)
      ensures State() == MTState(mt, core.State(),
                                 Fresh(silentRate, if silentRate.Floor > 5 then silentRate.Floor else 5, now), map[])
    {
      this.mt, this.core := mt, core;
      silent := new Bucket(silentRate, if silentRate.Floor > 5 then silentRate.Floor else 5, now);
      peerBackoffs := map[];
    }

    method PeerState(c: int) returns (p: Peer)
      modifies this`peerBackoffs
      ensures p == PeerOf(old(State()), c) && peerBackoffs == old(peerBackoffs)[c := p]
    {
      if c !in peerBackoffs {
        peerBackoffs := peerBackoffs[c := Peer(0, 0.0, 0.0)];
      }
      p := peerBackoffs[c];
    }

    method TryAcquire(kind: Kind, isSilent: bool, chat: Option<int>, now: real, created: real) returns (ok: bool)
      requires Valid()
      modifies this`peerBackoffs, silent, core, core.Repr()
      ensures Valid() && core.paidLane == old(core.paidLane) && fresh(core.Repr() - old(core.Repr()))
      ensures (State(), ok) == MTAcquire(old(State()), kind, isSilent, chat, core.paidLane, now, created)
    {
      hide Acquire;
      if chat.Some? {
        var p := PeerState(chat.value);
        if p.pausedUntil > now {
          return false;
        }
      }
      assert core.State() == old(core.State()) && core.Valid();
      if now >= core.egressPausedUntil && kind == Write && isSilent {
        ghost var shared := core.State();
        ok := silent.TakeNow(now);
        assert core.State() == shared;
        return;
      }
      ok := core.TryAcquire(kind, chat, now, created);
    }

    method WaitTime(kind: Kind, chat: Option<int>, now: real, created: real) returns (wait: real)
      requires Valid()
      modifies this`peerBackoffs, core, core.Repr()
      ensures Valid() && fresh(core.Repr() - old(core.Repr()))
      ensures (State(), wait) == MTQuote(old(State()), kind, chat, now, created)
    {
      var peerWait := 0.0;
      if chat.Some? {
        var p := PeerState(chat.value);
        peerWait := p.pausedUntil - now;
      }
      assert core.State() == old(core.State()) && core.Valid();
      wait := core.WaitTime(kind, chat, now, created);
      wait := Max(wait, peerWait);
    }

    method ReportFloodWait(kind: FloodType, wait: real, chat: Option<int>, now: real, created: real)
      requires Valid()
      modifies this`peerBackoffs, core, core.Repr()
      ensures Valid() && fresh(core.Repr() - old(core.Repr()))
      ensures State() == ReportFlood(old(State()), kind, wait, chat, now, created)
    {
      hide Report429;
      hide Adaptive;
      if kind == PeerFlood {
        if chat.Some? {
          CoolPeer(wait, chat.value, now, created);
        }
        return;
      }
      if kind == Slowmode && !mt.slowmodeRespect {
        return;
      }
      if chat.Some? {
        PausePeer(wait, chat.value, now, created);
      } else {
        core.Report(None, wait, now, created);
      }
    }

    /** A PeerFlood: one more offence, and the fixed cooldown. */
    method CoolPeer(ghost wait: real, c: int, now: real, ghost created: real)
      requires Valid()
      modifies this`peerBackoffs
      ensures Valid() && State() == ReportFlood(old(State()), PeerFlood, wait, Some(c), now, created)
    {
      hide Report429;
      hide Adaptive;
      var p := PeerState(c);
      p := p.(offences := p.offences + 1, pausedUntil := now + mt.peerFloodCooldown);
      peerBackoffs := peerBackoffs[c := p];
      assert peerBackoffs == old(peerBackoffs)[c := p] && core.State() == old(core.State());
    }

    /** A flood on a known chat: one more offence, and the adaptive pause. */
    method PausePeer(wait: real, c: int, now: real, created: real)
      requires Valid()
      modifies this`peerBackoffs, core, core.Repr()
      ensures Valid() && fresh(core.Repr() - old(core.Repr()))
      ensures State() == ReportFlood(old(State()), FloodWait, wait, Some(c), now, created)
    {
      hide Report429;
      hide Adaptive;
      var p := PeerState(c);
      var offences := p.offences + 1;
      var adaptive := Adaptive(wait, mt.floodBackoffBase, offences);
      peerBackoffs := peerBackoffs[c := Peer(offences, wait, now + adaptive)];
      assert peerBackoffs == old(peerBackoffs)[c := peerBackoffs[c]];
      assert core.State() == old(core.State()) && core.Valid();
      PauseCore(adaptive, c, now, created);
    }

    /** Report on the shared buckets, which leaves this object's own alone. */
    method PauseCore(seconds: real, c: int, now: real, created: real)
      requires Valid()
      modifies core, core.Repr()
      ensures Valid() && fresh(core.Repr() - old(core.Repr())) && silent.State() == old(silent.State())
      ensures core.State() == Report429(old(core.State()), Some(c), seconds, now, created)
    {
      hide Report429;
      core.Report(Some(c), seconds, now, created);
    }

    method ClearPeerBackoff(c: int)
      requires Valid()
      modifies this`peerBackoffs
      ensures Valid() && State() == ClearPeer(old(State()), c)
    {
      peerBackoffs := peerBackoffs - {c};
    }
  }
}
