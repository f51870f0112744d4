/** Admission control for one bot token (internal/rateguard/rateguard.go).
    `GuardState` and the functions on it are the specification: one refill, one
    check and one charge per bucket. Class `Guard` is the code: it re-refills,
    re-checks and carries a refund branch, and is proved equal to the
    specification. Laws over whole traces of events follow. */
module RateGuard {
  import opened Buckets
  import opened IntSets
  import opened Options
  import opened Reals

  /** The outcome of MethodKind: rateguard.go:36-45. */
  datatype Kind = Fast | Read | Write

  datatype Config = Config(privateRate: real, privateBurst: nat, groupRate: real, groupBurst: nat,
                           globalRate: real, globalBurst: nat, readRate: real, paidRate: real)
  {
    predicate WellFormed() {
      && privateRate > 0.0 && groupRate > 0.0 && globalRate > 0.0 && readRate > 0.0 && paidRate >= 1.0
      && privateBurst >= 1 && groupBurst >= 1 && globalBurst >= 1
    }

    function ChatRate(c: int): real { if c >= 0 then privateRate else groupRate }

    function ChatBurst(c: int): nat { if c >= 0 then privateBurst else groupBurst }

    function ReadBurst(): nat { if readRate.Floor > 10 then readRate.Floor else 10 }

    function PaidBurst(): nat
      requires paidRate >= 1.0
    {
      paidRate.Floor
    }
  }

  datatype GuardState = GuardState(cfg: Config, chats: map<int, BucketState>, global: BucketState,
                                   paid: BucketState, reading: BucketState, egress: real)
  {
    ghost predicate WellFormed() {
      && cfg.WellFormed()
      && global.WellFormed() && paid.WellFormed() && reading.WellFormed()
      && global.rate == cfg.globalRate && global.capacity == cfg.globalBurst
      && paid.rate == cfg.paidRate && paid.capacity == cfg.PaidBurst()
      && reading.rate == cfg.readRate && reading.capacity == cfg.ReadBurst()
      && forall c | c in chats ::
           chats[c].WellFormed() && chats[c].rate == cfg.ChatRate(c) && chats[c].capacity == cfg.ChatBurst(c)
    }
  }

  /** The bucket of chat c, created full on first use. `created` is the clock
      reading NewBucket takes itself, after the caller has read `now`. */
  function ChatOf(g: GuardState, c: int, created: real): BucketState {
    if c in g.chats then g.chats[c] else Fresh(g.cfg.ChatRate(c), g.cfg.ChatBurst(c), created)
  }

  // ---- Specification of the operations ----

  datatype Lanes = Lanes(chat: Option<BucketState>, global: BucketState, paid: BucketState)

  function RefilledChat(chat: Option<BucketState>, now: real): Option<BucketState> {
    if chat.None? then None else Some(Refilled(chat.value, now))
  }

  function ChargedChat(chat: Option<BucketState>): Option<BucketState> {
    if chat.None? then None else Some(Charged(chat.value))
  }

  /** A write needs a token from its chat (if any) and one from its lane. */
  function Admit(l: Lanes, paidLane: bool, now: real): (Lanes, bool) {
    var chat := RefilledChat(l.chat, now);
    if chat.Some? && !chat.value.Open(now) then (l.(chat := chat), false)
    else if paidLane then
      var (paid, ok) := TryTake(l.paid, now);
      (Lanes(if ok then ChargedChat(chat) else chat, l.global, paid), ok)
    else
      var (global, ok) := TryTake(l.global, now);
      (Lanes(if ok then ChargedChat(chat) else chat, global, l.paid), ok)
  }

  function LanesOf(g: GuardState, chat: Option<int>, created: real): Lanes {
    Lanes(if chat.None? then None else Some(ChatOf(g, chat.value, created)), g.global, g.paid)
  }

  function WithLanes(g: GuardState, chat: Option<int>, l: Lanes): GuardState {
    g.(chats := if chat.Some? && l.chat.Some? then g.chats[chat.value := l.chat.value] else g.chats,
       global := l.global, paid := l.paid)
  }

  function Acquire(g: GuardState, kind: Kind, chat: Option<int>, paidLane: bool, now: real, created: real)
    : (GuardState, bool)
  {
    if now < g.egress then (g, false)
    else match kind
      case Fast => (g, true)
      case Read => var (reading, ok) := TryTake(g.reading, now); (g.(reading := reading), ok)
      case Write =>
        var (l, ok) := Admit(LanesOf(g, chat, created), paidLane, now);
        (WithLanes(g, chat, l), ok)
  }

  function WithRefilledChat(g: GuardState, chat: Option<int>, now: real, created: real): GuardState {
    if chat.None? then g
    else g.(chats := g.chats[chat.value := Refilled(ChatOf(g, chat.value, created), now)])
  }

  function Quote(g: GuardState, kind: Kind, chat: Option<int>, now: real, created: real): (GuardState, real)
    requires g.WellFormed()
  {
    var wait := Max(0.0, g.egress - now);
    match kind
    case Fast => (g, wait)
    case Read => (g.(reading := Refilled(g.reading, now)), Max(wait, NextAvailable(g.reading, now)))
    case Write =>
      var w := Max(wait, NextAvailable(g.global, now));
      (WithRefilledChat(g.(global := Refilled(g.global, now)), chat, now, created),
       if chat.None? then w else Max(w, NextAvailable(ChatOf(g, chat.value, created), now)))
  }

  function Report429(g: GuardState, chat: Option<int>, retry: real, now: real, created: real): GuardState {
    if chat.Some? then g.(chats := g.chats[chat.value := Paused(ChatOf(g, chat.value, created), retry, now)])
    else g.(egress := Max(g.egress, now + retry), global := Paused(g.global, retry, now))
  }

  datatype SendState = Blocked | Drained | Ready

  function ChatSendState(g: GuardState, chat: Option<int>, now: real, created: real): (GuardState, SendState)
    requires g.WellFormed()
  {
    if now < g.egress then (g, Blocked)
    else
      var g1 := g.(global := Refilled(g.global, now));
      var wait := NextAvailable(g.global, now);
      if chat.None? then (g1, if wait > 0.0 then Drained else Ready)
      else
        var b := ChatOf(g, chat.value, created);
        if b.pausedUntil > now then (g1.(chats := g1.chats[chat.value := b]), Blocked)
        else (WithRefilledChat(g1, chat, now, created),
              if Max(wait, NextAvailable(b, now)) > 0.0 then Drained else Ready)
  }

  /** The status page probes every chat bucket. */
  function RefilledChats(g: GuardState, now: real): GuardState {
    g.(chats := map c | c in g.chats :: Refilled(g.chats[c], now))
  }

  // ---- Traces ----

  datatype Event =
    | Attempt(kind: Kind, chat: Option<int>, paidLane: bool, now: real, created: real)
    | Probe(kind: Kind, chat: Option<int>, now: real, created: real)
    | Look(chat: Option<int>, now: real, created: real)
    | Report(chat: Option<int>, retry: real, now: real, created: real)
    | Snapshot(now: real)

  /** One event: the new state, and whether it was an admitted attempt. */
  ghost function Step(g: GuardState, e: Event): (GuardState, bool)
    requires g.WellFormed()
  {
    match e
    case Attempt(kind, chat, paidLane, now, created) => Acquire(g, kind, chat, paidLane, now, created)
    case Probe(kind, chat, now, created) => (Quote(g, kind, chat, now, created).0, false)
    case Look(chat, now, created) => (ChatSendState(g, chat, now, created).0, false)
    case Report(chat, retry, now, created) => (Report429(g, chat, retry, now, created), false)
    case Snapshot(now) => (RefilledChats(g, now), false)
  }

  lemma AttemptKeepsWellFormed(g: GuardState, e: Event)
    requires g.WellFormed() && e.Attempt?
    ensures Step(g, e).0.WellFormed() && Step(g, e).0.cfg == g.cfg
  {}

  lemma OtherKeepsWellFormed(g: GuardState, e: Event)
    requires g.WellFormed() && !e.Attempt?
    ensures Step(g, e).0.WellFormed() && Step(g, e).0.cfg == g.cfg
  {}

  lemma StepKeepsWellFormed(g: GuardState, e: Event)
    requires g.WellFormed()
    ensures Step(g, e).0.WellFormed() && Step(g, e).0.cfg == g.cfg
  {
    hide Step;
    if e.Attempt? { AttemptKeepsWellFormed(g, e); } else { OtherKeepsWellFormed(g, e); }
  }

  /** One event of a run, with the states around it. */
  datatype Record = Record(e: Event, before: GuardState, after: GuardState, ok: bool)

  ghost predicate Stepped(r: Record) {
    r.before.WellFormed() && (r.after, r.ok) == Step(r.before, r.e)
  }

  /** A run from any well-formed state, on a clock that never goes back. A window
      of a run is a run. */
  ghost predicate IsRun(rs: seq<Record>) {
    && (forall i | 0 <= i < |rs| :: rs[i].before.WellFormed())
    && (forall i {:trigger Stepped(rs[i])} | 0 <= i < |rs| :: Stepped(rs[i]))
    && (forall i | 0 <= i < |rs| - 1 :: rs[i].after == rs[i + 1].before)
    && (forall i, j | 0 <= i <= j < |rs| :: rs[i].e.now <= rs[j].e.now)
  }

  // ---- Admission is bounded over every window ----

  /** What a window bound is about: the writes to one chat, the non-paid writes of the
      whole bot, the paid ones, or the reads. */
  datatype Scope = Chat(id: int) | Bot | Paid | Reads

  predicate Counts(s: Scope, e: Event) {
    e.Attempt? &&
    match s
    case Chat(id) => e.kind == Write && e.chat == Some(id)
    case Bot => e.kind == Write && !e.paidLane
    case Paid => e.kind == Write && e.paidLane
    case Reads => e.kind == Read
  }

  function BucketFor(g: GuardState, s: Scope): BucketState {
    match s
    case Chat(id) => ChatOf(g, id, 0.0)
    case Bot => g.global
    case Paid => g.paid
    case Reads => g.reading
  }

  /** What is left to spend in scope s at time t. */
  ghost function Budget(g: GuardState, s: Scope, t: real): real {
    match s
    case Chat(id) => if id in g.chats then Potential(g.chats[id], t) else g.cfg.ChatBurst(id) as real
    case _ => Potential(BucketFor(g, s), t)
  }

  /** The one bucket operation event e performs in scope s. */
  ghost function TouchOf(g: GuardState, e: Event, s: Scope): Touch
    requires g.WellFormed()
  {
    match s
    case Chat(id) => ChatTouch(g, e, id)
    case Bot => BotTouch(g, e)
    case Paid =>
      if !e.Attempt? || e.kind != Write || !e.paidLane || e.now < g.egress || ChatBlocked(g, e) then Leave
      else if Step(g, e).1 then Charge
      else Refill
    case Reads =>
      if e.Attempt? && e.kind == Read && e.now >= g.egress then (if Step(g, e).1 then Charge else Refill)
      else if e.Probe? && e.kind == Read then Refill
      else Leave
  }

  ghost function ChatTouch(g: GuardState, e: Event, id: int): Touch
    requires g.WellFormed()
  {
    if e.Snapshot? then (if id in g.chats then Refill else Leave)
    else if e.chat != Some(id) then Leave
    else match e
      case Attempt(kind, _, _, now, _) =>
        if kind != Write || now < g.egress then Leave else if Step(g, e).1 then Charge else Refill
      case Probe(kind, _, _, _) => if kind == Write then Refill else Leave
      case Look(_, now, created) => if now < g.egress || ChatOf(g, id, created).pausedUntil > now then Leave else Refill
      case Report(_, retry, _, _) => Pause(retry)
  }

  ghost function BotTouch(g: GuardState, e: Event): Touch
    requires g.WellFormed()
  {
    match e
    case Attempt(kind, _, paidLane, now, _) =>
      if kind != Write || now < g.egress || paidLane || ChatBlocked(g, e) then Leave
      else if Step(g, e).1 then Charge
      else Refill
    case Probe(kind, _, _, _) => if kind == Write then Refill else Leave
    case Look(_, now, _) => if now < g.egress then Leave else Refill
    case Report(chat, retry, _, _) => if chat.Some? then Leave else Pause(retry)
    case Snapshot(_) => Leave
  }

  predicate ChatBlocked(g: GuardState, e: Event)
    requires e.Attempt?
  {
    e.chat.Some? && !Refilled(ChatOf(g, e.chat.value, e.created), e.now).Open(e.now)
  }

  /** The bucket event e finds in scope s. */
  function Before(g: GuardState, e: Event, s: Scope): BucketState {
    match s
    case Chat(id) => if e.Snapshot? then ChatOf(g, id, 0.0) else ChatOf(g, id, e.created)
    case _ => BucketFor(g, s)
  }

  predicate Exists(g: GuardState, s: Scope) { s.Chat? ==> s.id in g.chats }

  /** Event e touches scope s as TouchOf says. */
  ghost predicate TouchesAs(g: GuardState, e: Event, s: Scope)
    requires g.WellFormed()
  {
    var (g', ok) := Step(g, e);
    var touch := TouchOf(g, e, s);
    && (touch.Charge? <==> ok && Counts(s, e))
    && Allowed(Before(g, e, s), touch, e.now)
    && (if Exists(g', s) then BucketFor(g', s) == Touched(Before(g, e, s), touch, e.now)
        else touch == Leave && !Exists(g, s))
  }

  lemma AttemptTouches(g: GuardState, e: Event, s: Scope)
    requires g.WellFormed() && e.Attempt?
    ensures TouchesAs(g, e, s)
  {}

  lemma OtherTouches(g: GuardState, e: Event, s: Scope)
    requires g.WellFormed() && !e.Attempt?
    ensures TouchesAs(g, e, s)
  {}

  /** Every event does at most one bucket operation per scope, and it is a charge
      exactly for an admitted write of the scope. */
  lemma StepTouches(g: GuardState, e: Event, s: Scope)
    requires g.WellFormed()
    ensures TouchesAs(g, e, s)
  {
    hide TouchesAs;
    if e.Attempt? { AttemptTouches(g, e, s); } else { OtherTouches(g, e, s); }
  }

  function Rate(cfg: Config, s: Scope): real {
    match s
    case Chat(id) => cfg.ChatRate(id)
    case Bot => cfg.globalRate
    case Paid => cfg.paidRate
    case Reads => cfg.readRate
  }

  function Burst(cfg: Config, s: Scope): nat
    requires cfg.WellFormed()
  {
    match s
    case Chat(id) => cfg.ChatBurst(id)
    case Bot => cfg.globalBurst
    case Paid => cfg.PaidBurst()
    case Reads => cfg.ReadBurst()
  }

  /** The numbers the bounds are about: a negative chat id is a group's, reads have a burst
      of at least 10, and the paid lane one of a second's worth. */
  lemma ScopeLimits(cfg: Config, id: int)
    requires cfg.WellFormed()
    ensures id >= 0 ==> Rate(cfg, Chat(id)) == cfg.privateRate && Burst(cfg, Chat(id)) == cfg.privateBurst
    ensures id < 0 ==> Rate(cfg, Chat(id)) == cfg.groupRate && Burst(cfg, Chat(id)) == cfg.groupBurst
    ensures Rate(cfg, Bot) == cfg.globalRate && Burst(cfg, Bot) == cfg.globalBurst
    ensures Rate(cfg, Paid) == cfg.paidRate && Burst(cfg, Paid) as real <= cfg.paidRate < Burst(cfg, Paid) as real + 1.0
    ensures Rate(cfg, Reads) == cfg.readRate && Burst(cfg, Reads) >= 10
    ensures Burst(cfg, Reads) > 10 ==> Burst(cfg, Reads) as real <= cfg.readRate < Burst(cfg, Reads) as real + 1.0
  {}

  /** What the clock reading t is worth in tokens. */
  function Worth(cfg: Config, s: Scope, t: real): real { Rate(cfg, s) * t }

  /** Tokens that accrue in scope s from a to b. */
  function Accrued(cfg: Config, s: Scope, a: real, b: real): real { Rate(cfg, s) * (b - a) }

  lemma AccruedIsWorth(cfg: Config, s: Scope, a: real, b: real)
    ensures Accrued(cfg, s, a, b) == Worth(cfg, s, b) - Worth(cfg, s, a)
    ensures cfg.WellFormed() && a <= b ==> Worth(cfg, s, a) <= Worth(cfg, s, b)
  {
    if cfg.WellFormed() { RateOrder(b, a, Rate(cfg, s)); }
  }

  lemma BudgetGrows(g: GuardState, s: Scope, t: real, t': real)
    requires g.WellFormed() && t <= t'
    ensures Budget(g, s, t') <= Budget(g, s, t) + Worth(g.cfg, s, t') - Worth(g.cfg, s, t)
    ensures Worth(g.cfg, s, t) <= Worth(g.cfg, s, t')
    ensures Budget(g, s, t) <= Burst(g.cfg, s) as real
  {
    PotentialGrows(BucketFor(g, s), t, t');
    AccruedIsWorth(g.cfg, s, t, t');
  }

  ghost function EntryOf(r: Record, s: Scope): Entry {
    Entry(Worth(r.before.cfg, s, r.e.now), Budget(r.before, s, r.e.now), if r.ok && Counts(s, r.e) then 1 else 0,
          Clears(BucketFor(r.before, s), BucketFor(r.after, s)), Budget(r.after, s, r.e.now))
  }

  ghost function Ledger(rs: seq<Record>, s: Scope): seq<Entry> {
    seq(|rs|, i requires 0 <= i < |rs| => EntryOf(rs[i], s))
  }

  /** Every event pays for what it admits out of the budget. */
  lemma StepPays(r: Record, s: Scope)
    requires Stepped(r)
    ensures Pays(EntryOf(r, s))
    ensures r.after.WellFormed() && r.after.cfg == r.before.cfg
  {
    StepKeepsWellFormed(r.before, r.e);
    StepTouches(r.before, r.e, s);
    TouchPays(Before(r.before, r.e, s), TouchOf(r.before, r.e, s), r.e.now);
  }

  lemma StepFollows(r: Record, next: Record, s: Scope)
    requires r.after.WellFormed() && r.after.cfg == r.before.cfg
    requires r.after == next.before && r.e.now <= next.e.now
    ensures Follows(EntryOf(r, s), EntryOf(next, s))
  {
    BudgetGrows(r.after, s, r.e.now, next.e.now);
  }

  lemma LedgerFunded(rs: seq<Record>, s: Scope)
    requires IsRun(rs)
    ensures Funded(Ledger(rs, s))
  {
    forall i | 0 <= i < |rs| ensures Pays(Ledger(rs, s)[i]) { StepPays(rs[i], s); }
    forall i | 0 <= i < |rs| - 1 ensures Follows(Ledger(rs, s)[i], Ledger(rs, s)[i + 1]) {
      StepPays(rs[i], s);
      StepFollows(rs[i], rs[i + 1], s);
    }
  }

  lemma {:induction false} SameConfig(rs: seq<Record>)
    requires IsRun(rs) && rs != []
    ensures forall i | 0 <= i < |rs| :: rs[i].before.cfg == rs[0].before.cfg
  {
    if |rs| > 1 {
      StepPays(rs[0], Bot);
      SameConfig(rs[1..]);
      assert forall i | 1 <= i < |rs| :: rs[i] == rs[1..][i - 1];
    }
  }

  lemma LedgerBound(w: seq<Record>, s: Scope, cfg: Config)
    requires w != [] && Funded(Ledger(w, s)) && w[0].before.WellFormed()
    requires w[0].before.cfg == cfg && w[|w| - 1].before.cfg == cfg
    ensures var l := Ledger(w, s);
            Spent(l) as real
            <= Burst(cfg, s) as real + Accrued(cfg, s, w[0].e.now, w[|w| - 1].e.now) + Cleared(l) as real
  {
    FundedBound(Ledger(w, s));
    BudgetGrows(w[0].before, s, w[0].e.now, w[0].e.now);
    AccruedIsWorth(cfg, s, w[0].e.now, w[|w| - 1].e.now);
  }

  lemma LedgerWindow(rs: seq<Record>, from: nat, to: nat, s: Scope)
    requires IsRun(rs) && from < to <= |rs|
    ensures var l := Ledger(rs[from..to], s);
            var cfg := rs[0].before.cfg;
            Spent(l) as real
            <= Burst(cfg, s) as real + Accrued(cfg, s, rs[from].e.now, rs[to - 1].e.now) + Cleared(l) as real
  {
    var w := rs[from..to];
    assert forall i | 0 <= i < |w| :: w[i] == rs[from + i];
    SameConfig(rs);
    LedgerFunded(w, s);
    LedgerBound(w, s, rs[0].before.cfg);
  }

  /** How many attempts of the scope were admitted. */
  function Admitted(rs: seq<Record>, s: Scope): nat {
    if rs == [] then 0 else (if rs[0].ok && Counts(s, rs[0].e) then 1 else 0) + Admitted(rs[1..], s)
  }

  /** How many pauses of the scope's bucket were cleared. */
  function PausesCleared(rs: seq<Record>, s: Scope): nat {
    if rs == [] then 0
    else
      var b, b' := BucketFor(rs[0].before, s), BucketFor(rs[0].after, s);
      (if b.pausedUntil != 0.0 && b'.pausedUntil == 0.0 then 1 else 0) + PausesCleared(rs[1..], s)
  }

  lemma {:induction false} LedgerCounts(rs: seq<Record>, s: Scope)
    ensures Spent(Ledger(rs, s)) == Admitted(rs, s) && Cleared(Ledger(rs, s)) == PausesCleared(rs, s)
  {
    if rs == [] {
    } else {
      LedgerCounts(rs[1..], s);
      assert Ledger(rs, s)[1..] == Ledger(rs[1..], s);
    }
  }

  /** Over every window of every run, the attempts admitted in a scope number at most
      burst + rate * T + one per pause cleared in the window. */
  lemma {:induction false} WindowBound(rs: seq<Record>, from: nat, to: nat, s: Scope)
    requires IsRun(rs) && from < to <= |rs|
    ensures var w, cfg := rs[from..to], rs[0].before.cfg;
            Admitted(w, s) as real
            <= Burst(cfg, s) as real + Rate(cfg, s) * (rs[to - 1].e.now - rs[from].e.now) + PausesCleared(w, s) as real
  {
    LedgerWindow(rs, from, to, s);
    LedgerCounts(rs[from..to], s);
    hide IsRun;
  }

  // ---- A quoted wait is the least one ----

  /** After a quote w at `now` and nothing in between, an attempt on the normal
      lane fails at every t before `now + w` and succeeds at every t from there. */
  lemma WaitTimeExact(g: GuardState, kind: Kind, chat: Option<int>, now: real, created: real, t: real, created': real)
    requires g.WellFormed() && 0.0 <= now <= t
    ensures var (g', w) := Quote(g, kind, chat, now, created);
            w >= 0.0 && (Acquire(g', kind, chat, false, t, created').1 <==> t >= now + w)
  {
    BucketWaitExact(g.reading, now, t);
    BucketWaitExact(g.global, now, t);
    if chat.Some? { BucketWaitExact(ChatOf(g, chat.value, created), now, t); }
  }

  // ---- The first write to a chat ----

  /** A bucket is made with its own clock reading, after the caller read `now`, so the
      refill that follows takes back what accrues in between: the first write to a
      chat passes its bucket exactly when at least one token is left of the burst. */
  lemma FirstWriteIff(g: GuardState, c: int, now: real, created: real)
    requires g.WellFormed() && c !in g.chats && 0.0 <= now <= created
    requires g.egress <= now && Refilled(g.global, now).Open(now)
    ensures Acquire(g, Write, Some(c), false, now, created).1
            <==> (created - now) * g.cfg.ChatRate(c) <= g.cfg.ChatBurst(c) as real - 1.0
  {
    GainLaws(ChatOf(g, c, created), now, created);
  }

  /** With a burst of one, only when no time passes in between. */
  lemma FirstWriteNeedsSlack(g: GuardState, c: int, now: real, created: real)
    requires g.WellFormed() && c !in g.chats && 0.0 <= now <= created && g.cfg.ChatBurst(c) == 1
    requires g.egress <= now && Refilled(g.global, now).Open(now)
    ensures Acquire(g, Write, Some(c), false, now, created).1 <==> created == now
  {
    hide Acquire;
    FirstWriteIff(g, c, now, created);
    RateOrder(0.0, created - now, g.cfg.ChatRate(c));
    assert 0.0 * g.cfg.ChatRate(c) == 0.0;
  }

  // ---- A real 429 is never cut short ----

  predicate HeldUntil(g: GuardState, chat: Option<int>, until: real) {
    if chat.None? then g.egress >= until
    else chat.value in g.chats && g.chats[chat.value].pausedUntil >= until
  }

  /** The attempts a pause must stop: writes to the chat, or every attempt. */
  predicate Barred(e: Event, chat: Option<int>) {
    e.Attempt? && (chat.None? || (e.kind == Write && e.chat == chat))
  }

  lemma StepHolds(r: Record, chat: Option<int>, until: real)
    requires Stepped(r) && HeldUntil(r.before, chat, until) && r.e.now < until
    ensures HeldUntil(r.after, chat, until)
    ensures r.ok ==> !Barred(r.e, chat)
  {
    if r.e.Snapshot? && chat.Some? {
      assert r.after.chats[chat.value] == Refilled(r.before.chats[chat.value], r.e.now);
    }
  }

  lemma {:induction false} HeldToTheEnd(rs: seq<Record>, chat: Option<int>, until: real, n: nat)
    requires IsRun(rs) && n < |rs| && HeldUntil(rs[0].before, chat, until) && rs[n].e.now < until
    ensures HeldUntil(rs[n].before, chat, until)
  {
    if n == 0 {
    } else {
      HeldToTheEnd(rs, chat, until, n - 1);
      StepHolds(rs[n - 1], chat, until);
    }
  }

  /** After a 429 at t with retry r, whatever attempts, probes and other reports
      follow, nothing it bars is admitted before t + r. */
  lemma RealWaitNeverCutShort(rs: seq<Record>, n: nat)
    requires IsRun(rs) && 0 < n < |rs| && rs[0].e.Report?
    requires rs[n].ok && Barred(rs[n].e, rs[0].e.chat)
    ensures rs[n].e.now >= rs[0].e.now + rs[0].e.retry
  {
    var until := rs[0].e.now + rs[0].e.retry;
    if rs[n].e.now < until {
      assert Stepped(rs[0]);
      var rest := rs[1..];
      assert forall i | 0 <= i < |rest| :: rest[i] == rs[i + 1];
      HeldToTheEnd(rest, rs[0].e.chat, until, n - 1);
      StepHolds(rs[n], rs[0].e.chat, until);
    }
  }

  // ---- Tokens are conserved ----

  /** Tokens taken between b and b', both brought forward to `now`. */
  function Drawn(b: BucketState, b': BucketState, now: real): real {
    Refilled(b, now).tokens - Refilled(b', now).tokens
  }

  lemma DrawnByTake(b: BucketState, now: real)
    requires b.WellFormed()
    ensures Drawn(b, b, now) == 0.0 && Drawn(b, Refilled(b, now), now) == 0.0
    ensures Refilled(b, now).Open(now) ==> Drawn(b, Charged(Refilled(b, now)), now) == 1.0
  {
    RefillIdempotent(b, now);
    var r := Refilled(b, now);
    GainLaws(Charged(r), now, now);
  }

  /** An admitted write takes one token from its chat and one from exactly one of the
      global and the paid lane, an admitted read one from the read bucket, a fast method
      none anywhere; a refused attempt takes none; nothing else moves. */
  lemma TokensConserved(g: GuardState, kind: Kind, chat: Option<int>, paidLane: bool, now: real, created: real)
    requires g.WellFormed()
    ensures var (g', ok) := Acquire(g, kind, chat, paidLane, now, created);
            var wrote := ok && kind == Write;
            && (chat.Some? ==> Drawn(ChatOf(g, chat.value, created), ChatOf(g', chat.value, created), now)
                               == if wrote then 1.0 else 0.0)
            && Drawn(g.global, g'.global, now) == (if wrote && !paidLane then 1.0 else 0.0)
            && Drawn(g.paid, g'.paid, now) == (if wrote && paidLane then 1.0 else 0.0)
            && Drawn(g.reading, g'.reading, now) == (if ok && kind == Read then 1.0 else 0.0)
            && g'.egress == g.egress && (kind == Fast ==> g' == g) && (kind != Read ==> g'.reading == g.reading)
            && (forall d | Some(d) != chat :: ChatOf(g', d, created) == ChatOf(g, d, created))
  {
    DrawnByTake(g.global, now);
    DrawnByTake(g.paid, now);
    DrawnByTake(g.reading, now);
    if chat.Some? { DrawnByTake(ChatOf(g, chat.value, created), now); }
  }

  // ---- What a report and a look say ----

  /** A report on a chat holds its writes to the end of the pause and no longer, and
      leaves everything else alone. */
  lemma ReportOpensIff(g: GuardState, c: int, retry: real, now: real, created: real, t: real)
    requires g.WellFormed() && now <= t && ChatOf(g, c, created).updated <= t
    requires Max(ChatOf(g, c, created).pausedUntil, now + retry) > 0.0
    requires g.egress <= t && Refilled(g.global, t).Open(t)
    ensures var g' := Report429(g, Some(c), retry, now, created);
            && (Acquire(g', Write, Some(c), false, t, t).1
                <==> t >= Max(ChatOf(g, c, created).pausedUntil, now + retry))
            && g' == g.(chats := g'.chats) && forall d | d != c :: ChatOf(g', d, created) == ChatOf(g, d, created)
  {
    hide Refilled;
    PauseOpensIff(ChatOf(g, c, created), retry, now, t);
  }

  /** A report without a chat holds everything: a fast method goes exactly from the end of
      the longer pause on. */
  lemma EgressOpensIff(g: GuardState, retry: real, now: real, created: real, t: real)
    ensures var g' := Report429(g, None, retry, now, created);
            && (Acquire(g', Fast, None, false, t, t).1 <==> t >= Max(g.egress, now + retry))
            && g' == g.(egress := g'.egress, global := Paused(g.global, retry, now))
  {}

  /** The look of the typing loop: ready exactly when a write would be admitted now,
      blocked exactly while the egress or the chat is paused. */
  lemma SendStateExact(g: GuardState, chat: Option<int>, now: real, created: real)
    requires g.WellFormed() && now >= 0.0
    ensures var r := ChatSendState(g, chat, now, created).1;
            && (r == Ready <==> Acquire(g, Write, chat, false, now, created).1)
            && (r == Blocked <==> now < g.egress || (chat.Some? && ChatOf(g, chat.value, created).pausedUntil > now))
  {
    LookIsOpen(g.global, now);
    if chat.Some? { LookIsOpen(ChatOf(g, chat.value, created), now); }
    hide Refilled;
    hide NextAvailable;
  }

  lemma LookIsOpen(b: BucketState, now: real)
    requires b.WellFormed() && now >= 0.0
    ensures NextAvailable(b, now) <= 0.0 <==> Refilled(b, now).Open(now)
    ensures b.pausedUntil > now ==> !Refilled(b, now).Open(now)
  {
    BucketWaitExact(b, now, now);
    RefillIdempotent(b, now);
  }

  // ---- The object ----

  /** The guard as the code runs it: it owns its buckets and updates them in place, a
      chat bucket is refilled and re-checked before and after the global charge, and
      a charge that can no longer be used is refunded. */
  class Guard {
    const cfg: Config
    const globalWrites: Bucket
    const paid: Bucket
    const readBucket: Bucket
    var chats: map<int, Bucket>  // private chats and groups: their ids differ in sign
    var paidEnabled: bool
    var paidLane: bool
    var egressPausedUntil: real

    ghost function Repr(): set<Bucket>
      reads this
    {
      {globalWrites, paid, readBucket} + chats.Values
    }

    ghost function ChatStates(): map<int, BucketState>
      reads this, Repr()
    {
      map c | c in chats :: chats[c].State()
    }

    ghost function State(): GuardState
      reads this, Repr()
    {
      GuardState(cfg, ChatStates(), globalWrites.State(), paid.State(), readBucket.State(), egressPausedUntil)
    }

    /** No bucket serves twice. */
    ghost predicate Separate()
      reads this
    {
      && globalWrites != paid && globalWrites != readBucket && paid != readBucket
      && (forall c | c in chats :: chats[c] !in {globalWrites, paid, readBucket})
      && (forall c, d | c in chats && d in chats && c != d :: chats[c] != chats[d])
    }

    ghost predicate Valid()
      reads this, Repr()
    {
      Separate() && State().WellFormed()
    }

    constructor (cfg: Config, now1: real, now2: real, now3: real)
      requires cfg.WellFormed()
      ensures Valid() && !paidEnabled && !paidLane && fresh(Repr())
      ensures var readBurst := if cfg.readRate.Floor > 10 then cfg.readRate.Floor else 10;
              State() == GuardState(cfg, map[], Fresh(cfg.globalRate, cfg.globalBurst, now1),
                                    Fresh(cfg.paidRate, cfg.paidRate.Floor, now2),
                                    Fresh(cfg.readRate, readBurst, now3), 0.0)
    {
      this.cfg := cfg;
      chats := map[];
      globalWrites := new Bucket(cfg.globalRate, cfg.globalBurst, now1);
      paid := new Bucket(cfg.paidRate, cfg.paidRate.Floor, now2);
      readBucket := new Bucket(cfg.readRate, if cfg.readRate.Floor > 10 then cfg.readRate.Floor else 10, now3);
      paidEnabled, paidLane, egressPausedUntil := false, false, 0.0;
    }

    method ChatBucket(c: int, created: real) returns (b: Bucket)
      requires Valid()
      modifies this`chats
      ensures Valid() && fresh(Repr() - old(Repr())) && chats == old(chats)[c := b]
      ensures State() == old(State()).(chats := old(ChatStates())[c := ChatOf(old(State()), c, created)])
    {
      if c !in chats {
        b := new Bucket(cfg.ChatRate(c), cfg.ChatBurst(c), created);
        chats := chats[c := b];
      } else {
        b := chats[c];
      }
      assert chats == old(chats)[c := b];
      assert ChatStates() == old(ChatStates())[c := b.State()];
    }

    /** Refills the chat's bucket; true when it may not send now. */
    method RefillChat(c: int, now: real) returns (blocked: bool)
      requires Valid() && c in chats
      modifies chats[c]
      ensures Valid()
      ensures State() == old(State()).(chats := old(ChatStates())[c := Refilled(old(ChatStates())[c], now)])
      ensures blocked == !ChatStates()[c].Open(now)
    {
      assert forall d | d in chats && d != c :: chats[d] != chats[c];
      chats[c].RefillAt(now);
      assert forall d | d in chats && d != c :: chats[d].State() == old(chats[d].State());
      assert ChatStates() == old(ChatStates())[c := chats[c].State()];
      blocked := chats[c].pausedUntil > now || chats[c].tokens < 1.0;
    }

    method ChargeChat(c: int)
      requires Valid() && c in chats
      modifies chats[c]
      ensures Valid()
      ensures State() == old(State()).(chats := old(ChatStates())[c := Charged(old(ChatStates())[c])])
    {
      assert forall d | d in chats && d != c :: chats[d] != chats[c];
      chats[c].tokens := chats[c].tokens - 1.0;
      assert forall d | d in chats && d != c :: chats[d].State() == old(chats[d].State());
      assert ChatStates() == old(ChatStates())[c := chats[c].State()];
    }

    /** TryTake on one of the three shared buckets. */
    method TakeLane(b: Bucket, now: real) returns (ok: bool)
      requires Valid() && b in {globalWrites, paid, readBucket}
      modifies b
      ensures Valid() && (b.State(), ok) == TryTake(old(b.State()), now) && ChatStates() == old(ChatStates())
      ensures forall x | x in {globalWrites, paid, readBucket} && x != b :: x.State() == old(x.State())
    {
      assert forall d | d in chats :: chats[d] != b;
      ok := b.TakeNow(now);
      assert forall d | d in chats :: chats[d].State() == old(chats[d].State());
    }

    /** NextAvailable on one of them. */
    method NextLane(b: Bucket, now: real) returns (wait: real)
      requires Valid() && b in {globalWrites, paid, readBucket}
      modifies b
      ensures Valid() && b.State() == Refilled(old(b.State()), now) && wait == NextAvailable(old(b.State()), now)
      ensures ChatStates() == old(ChatStates())
      ensures forall x | x in {globalWrites, paid, readBucket} && x != b :: x.State() == old(x.State())
    {
      assert forall d | d in chats :: chats[d] != b;
      wait := b.Next(now);
      assert forall d | d in chats :: chats[d].State() == old(chats[d].State());
    }

    method EnterPaidLane(allowed: bool)
      modifies this`paidLane
      ensures paidLane == (allowed && paidEnabled)
    {
      paidLane := allowed && paidEnabled;
    }

    method ExitPaidLane()
      modifies this`paidLane
      ensures !paidLane
    {
      paidLane := false;
    }

    method TryAcquire(kind: Kind, chat: Option<int>, now: real, created: real) returns (ok: bool)
      requires Valid()
      modifies this`chats, Repr()
      ensures Valid() && fresh(Repr() - old(Repr()))
      ensures (State(), ok) == Acquire(old(State()), kind, chat, paidLane, now, created)
    {
      if now < egressPausedUntil {
        return false;
      }
      if kind == Fast {
        return true;
      }
      if kind == Read {
        ok := TakeLane(readBucket, now);
        return;
      }
      if chat.Some? {
        var b := ChatBucket(chat.value, created);
        var blocked := RefillChat(chat.value, now);
        assert ChatStates() == old(ChatStates())[chat.value := ChatStates()[chat.value]];
        if blocked {
          return false;
        }
      }
      if paidLane {
        ok := TryPaid(chat, now, old(State()), created);
      } else {
        ok := TryGlobal(chat, now, old(State()), created);
      }
    }

    /** The paid stretch of TryAcquire, with the chat refilled and open. */
    method TryPaid(chat: Option<int>, now: real, ghost before: GuardState, created: real) returns (ok: bool)
      requires Valid() && before.WellFormed() && before.egress <= now
      requires State() == WithRefilledChat(before, chat, now, created)
      requires chat.Some? ==> ChatStates()[chat.value].Open(now)
      modifies Repr()
      ensures Valid() && chats == old(chats)
      ensures (State(), ok) == Acquire(before, Write, chat, true, now, created)
    {
      ok := TakeLane(paid, now);
      if ok && chat.Some? {
        ChargeChat(chat.value);
        assert ChatStates() == before.chats[chat.value := ChatStates()[chat.value]];
      }
    }

    /** The last stretch of TryAcquire: re-check the chat, charge the global bucket, and
        settle with the chat. */
    method TryGlobal(chat: Option<int>, now: real, ghost before: GuardState, created: real) returns (ok: bool)
      requires Valid() && before.WellFormed() && before.egress <= now
      requires State() == WithRefilledChat(before, chat, now, created)
      modifies Repr()
      ensures Valid() && chats == old(chats)
      ensures (State(), ok) == Acquire(before, Write, chat, false, now, created)
    {
      if chat.Some? {
        RefillIdempotent(ChatOf(before, chat.value, created), now);
        var blocked := RefillChat(chat.value, now);
        assert ChatStates() == old(ChatStates());
        if blocked {
          return false;
        }
      }
      ok := TakeLane(globalWrites, now);
      if !ok {
        return;
      }
      if chat.Some? {
        RefillIdempotent(ChatOf(before, chat.value, created), now);
        ok := SettleChat(chat.value, now);
        assert ok;  // so the refund never happens
        assert ChatStates() == before.chats[chat.value := ChatStates()[chat.value]];
      }
    }

    /** After the global charge: re-check the chat and charge it, or refund. */
    method SettleChat(c: int, now: real) returns (ok: bool)
      requires Valid() && c in chats
      modifies chats[c], globalWrites
      ensures Valid()
      ensures var g, b := old(State()), Refilled(old(ChatStates())[c], now);
              && ok == b.Open(now)
              && State() == if ok then g.(chats := g.chats[c := Charged(b)])
                            else g.(chats := g.chats[c := b], global := g.global.(tokens := g.global.tokens + 1.0))
    {
      var blocked := RefillChat(c, now);
      if blocked {
        Refund();
        return false;
      }
      ChargeChat(c);
      assert ChatStates() == old(ChatStates())[c := ChatStates()[c]];
      return true;
    }

    method Refund()
      requires Valid()
      modifies globalWrites
      ensures Valid() && ChatStates() == old(ChatStates())
      ensures State() == old(State()).(global := old(globalWrites.State()).(tokens := old(globalWrites.tokens) + 1.0))
    {
      assert forall d | d in chats :: chats[d] != globalWrites;
      globalWrites.tokens := globalWrites.tokens + 1.0;
      assert forall d | d in chats :: chats[d].State() == old(chats[d].State());
    }

    /** A request as the proxy makes it: the lane is armed for this attempt only. */
    method AcquireInLane(kind: Kind, chat: Option<int>, allowed: bool, now: real, created: real) returns (ok: bool)
      requires Valid()
      modifies this`chats, this`paidLane, Repr()
      ensures Valid() && !paidLane && fresh(Repr() - old(Repr()))
      ensures (State(), ok) == Acquire(old(State()), kind, chat, allowed && paidEnabled, now, created)
      ensures !allowed || !paidEnabled ==> paid.State() == old(paid.State())
      ensures allowed && paidEnabled && kind == Write ==> globalWrites.State() == old(globalWrites.State())
    {
      EnterPaidLane(allowed);
      assert ChatStates() == old(ChatStates());
      ok := TryAcquire(kind, chat, now, created);
      ghost var states := ChatStates();
      ExitPaidLane();
      assert ChatStates() == states;
    }

    method WaitTime(kind: Kind, chat: Option<int>, now: real, created: real) returns (wait: real)
      requires Valid()
      modifies this`chats, Repr()
      ensures Valid() && fresh(Repr() - old(Repr()))
      ensures (State(), wait) == Quote(old(State()), kind, chat, now, created)
    {
      wait := Max(0.0, egressPausedUntil - now);
      if kind == Fast {
        return;
      }
      if kind == Read {
        var w := NextLane(readBucket, now);
        wait := Max(wait, w);
        return;
      }
      var w := NextLane(globalWrites, now);
      wait := Max(wait, w);
      if chat.Some? {
        w := NextForChat(chat.value, now, created);
        wait := Max(wait, w);
      }
    }

    /** chatBucket(c).NextAvailable(now) */
    method NextForChat(c: int, now: real, created: real) returns (wait: real)
      requires Valid()
      modifies this`chats, Repr()
      ensures Valid() && fresh(Repr() - old(Repr()))
      ensures State() == WithRefilledChat(old(State()), Some(c), now, created)
      ensures wait == NextAvailable(ChatOf(old(State()), c, created), now)
    {
      var b := ChatBucket(c, created);
      wait := ProbeChat(c, now);
      assert ChatStates() == old(ChatStates())[c := ChatStates()[c]];
    }

    method PauseChat(c: int, seconds: real, now: real)
      requires Valid() && c in chats
      modifies chats[c]
      ensures Valid()
      ensures State() == old(State()).(chats := old(ChatStates())[c := Paused(old(ChatStates())[c], seconds, now)])
    {
      assert forall d | d in chats && d != c :: chats[d] != chats[c];
      chats[c].PauseFor(seconds, now);
      assert forall d | d in chats && d != c :: chats[d].State() == old(chats[d].State());
      assert ChatStates() == old(ChatStates())[c := chats[c].State()];
    }

    method Report(chat: Option<int>, retryAfter: real, now: real, created: real)
      requires Valid()
      modifies this`chats, this`egressPausedUntil, Repr()
      ensures Valid() && fresh(Repr() - old(Repr()))
      ensures State() == Report429(old(State()), chat, retryAfter, now, created)
    {
      if chat.Some? {
        var b := ChatBucket(chat.value, created);
        PauseChat(chat.value, retryAfter, now);
        assert ChatStates() == old(ChatStates())[chat.value := ChatStates()[chat.value]];
      } else {
        egressPausedUntil := Max(egressPausedUntil, now + retryAfter);
        assert forall d | d in chats :: chats[d] != globalWrites;
        globalWrites.PauseFor(retryAfter, now);
        assert forall d | d in chats :: chats[d].State() == old(chats[d].State());
        assert ChatStates() == old(ChatStates());
      }
    }

    method SendStateOf(chat: Option<int>, now: real, created: real) returns (r: SendState)
      requires Valid()
      modifies this`chats, Repr()
      ensures Valid() && fresh(Repr() - old(Repr()))
      ensures (State(), r) == ChatSendState(old(State()), chat, now, created)
    {
      if now < egressPausedUntil {
        return Blocked;
      }
      var wait := NextLane(globalWrites, now);
      if chat.Some? {
        var b := ChatBucket(chat.value, created);
        if b.pausedUntil > now {
          return Blocked;
        }
        var w := NextForChat(chat.value, now, created);
        wait := Max(wait, w);
        assert ChatStates() == old(ChatStates())[chat.value := ChatStates()[chat.value]];
      }
      return if wait > 0.0 then Drained else Ready;
    }

    method RestoreBackoff(chat: Option<int>, remaining: real, now: real, created: real)
      requires Valid()
      modifies this`chats, this`egressPausedUntil, Repr()
      ensures Valid() && fresh(Repr() - old(Repr()))
      ensures State() == if remaining <= 0.0 then old(State())
                         else Report429(old(State()), chat, remaining, now, created)
    {
      if remaining <= 0.0 {
        return;
      }
      Report(chat, remaining, now, created);
    }

    method ProbeChat(c: int, now: real) returns (wait: real)
      requires Valid() && c in chats
      modifies chats[c]
      ensures Valid() && wait == NextAvailable(old(ChatStates())[c], now)
      ensures State() == old(State()).(chats := old(ChatStates())[c := Refilled(old(ChatStates())[c], now)])
    {
      assert forall d | d in chats && d != c :: chats[d] != chats[c];
      assert ChatStates()[c].WellFormed() && ChatStates()[c] == chats[c].State();
      wait := chats[c].Next(now);
      assert forall d | d in chats && d != c :: chats[d].State() == old(chats[d].State());
      assert ChatStates() == old(ChatStates())[c := chats[c].State()];
    }

    /** Snapshot: how many chats of each sign would have to wait. */
    method Throttled(now: real) returns (privateEmpty: nat, groupEmpty: nat)
      requires Valid()
      modifies chats.Values
      ensures Valid() && chats == old(chats)
      ensures State() == RefilledChats(old(State()), now)
      ensures privateEmpty == |Waiting(old(ChatStates()), old(ChatStates()).Keys, true, now)|
      ensures groupEmpty == |Waiting(old(ChatStates()), old(ChatStates()).Keys, false, now)|
    {
      hide Refilled;
      hide NextAvailable;
      hide Count;
      hide Probed;
      privateEmpty, groupEmpty := 0, 0;
      var left := chats.Keys;
      ghost var g := State();
      assert g.chats.Keys == chats.Keys;
      ProbedNone(g, left, now);
      while left != {}
        invariant Valid() && left <= chats.Keys == g.chats.Keys && State() == Probed(g, g.chats.Keys - left, now)
        invariant privateEmpty == Count(g, left, true, now) && groupEmpty == Count(g, left, false, now)
        decreases |left|
      {
        Inhabited(left);
        var c :| c in left;
        ProbeStep(g, left, c, now);
        var wait := ProbeChat(c, now);
        left := left - {c};
        if wait > 0.0 && c >= 0 {
          privateEmpty := privateEmpty + 1;
        } else if wait > 0.0 {
          groupEmpty := groupEmpty + 1;
        }
      }
      ProbedAll(g, left, now);
    }
  }

  /** The chats in done have been refilled. */
  ghost function Probed(g: GuardState, done: set<int>, now: real): GuardState {
    g.(chats := map c | c in g.chats :: if c in done then Refilled(g.chats[c], now) else g.chats[c])
  }

  lemma ProbedNone(g: GuardState, left: set<int>, now: real)
    requires g.WellFormed() && left == g.chats.Keys
    ensures Probed(g, g.chats.Keys - left, now) == g
    ensures Count(g, left, true, now) == 0 && Count(g, left, false, now) == 0
  {
    assert g.chats.Keys - left == {};
    assert Probed(g, {}, now).chats == g.chats;
    assert Waiting(g.chats, {}, true, now) == {} == Waiting(g.chats, {}, false, now);
  }

  lemma ProbedAll(g: GuardState, left: set<int>, now: real)
    requires g.WellFormed() && left == {}
    ensures Probed(g, g.chats.Keys - left, now) == RefilledChats(g, now)
    ensures forall private :: Count(g, left, private, now) == |Waiting(g.chats, g.chats.Keys, private, now)|
  {
    assert g.chats.Keys - left == g.chats.Keys;
  }

  /** How many of the chats already probed would have to wait. */
  ghost function Count(g: GuardState, left: set<int>, private: bool, now: real): nat
    requires g.WellFormed()
  {
    assert forall c | c in g.chats :: g.chats[c].WellFormed() && g.chats[c].rate > 0.0;
    |Waiting(g.chats, g.chats.Keys - left, private, now)|
  }

  lemma ProbeStep(g: GuardState, left: set<int>, c: int, now: real)
    requires g.WellFormed() && left <= g.chats.Keys && c in left
    ensures var p := Probed(g, g.chats.Keys - left, now);
            && c in p.chats && p.chats[c] == g.chats[c]
            && Probed(g, g.chats.Keys - (left - {c}), now) == p.(chats := p.chats[c := Refilled(p.chats[c], now)])
    ensures g.chats[c].rate > 0.0
    ensures forall private :: Count(g, left - {c}, private, now) == Count(g, left, private, now)
              + if (c >= 0) == private && NextAvailable(g.chats[c], now) > 0.0 then 1 else 0
  {
    hide NextAvailable;
    hide Waiting;
    hide Refilled;
    var done := g.chats.Keys - left;
    assert g.chats.Keys - (left - {c}) == done + {c};
    assert forall d | d in g.chats :: g.chats[d].WellFormed() && g.chats[d].rate > 0.0;
    forall private ensures Count(g, left - {c}, private, now) == Count(g, left, private, now)
              + if (c >= 0) == private && NextAvailable(g.chats[c], now) > 0.0 then 1 else 0
    {
      WaitingPush(g.chats, done, c, private, now);
    }
    var p := Probed(g, done, now);
    assert Probed(g, done + {c}, now).chats == p.chats[c := Refilled(p.chats[c], now)];
  }

  /** The private chats, or the groups, among ids that would have to wait. */
  ghost function Waiting(chats: map<int, BucketState>, ids: set<int>, private: bool, now: real): set<int>
    requires ids <= chats.Keys && forall c | c in ids :: chats[c].rate > 0.0
  {
    set c | c in ids && (c >= 0) == private && NextAvailable(chats[c], now) > 0.0
  }

  lemma WaitingPush(chats: map<int, BucketState>, ids: set<int>, c: int, private: bool, now: real)
    requires ids <= chats.Keys && c in chats && c !in ids
    requires forall d | d in ids + {c} :: chats[d].rate > 0.0
    ensures |Waiting(chats, ids + {c}, private, now)|
            == |Waiting(chats, ids, private, now)|
               + if (c >= 0) == private && NextAvailable(chats[c], now) > 0.0 then 1 else 0
  {
    hide NextAvailable;
    var waits := (c >= 0) == private && NextAvailable(chats[c], now) > 0.0;
    assert Waiting(chats, ids + {c}, private, now) == Waiting(chats, ids, private, now) + if waits then {c} else {};
  }
}
