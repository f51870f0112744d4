/** Idempotent sends (internal/store/gateway.go, internal/botapi/proxy.go). A
    claim on a key is three SQL statements; other claims may run between them.
    The model follows one key: its row, or None. */
module Idempotency {
  import opened Options

  const TTL := 300.0
  const STALE := 60.0

  datatype KeyState = Pending | Done

  datatype Row = Row(state: KeyState, seenAt: real)

  datatype Verdict = Claimed | Reclaimed | Replay

  // ---- The statements ----

  function DeleteExpired(row: Option<Row>, now: real): Option<Row> {
    if row.Some? && row.value.seenAt < now - TTL then None else row
  }

  predicate Inserts(row: Option<Row>) { row.None? }

  predicate Reclaims(row: Option<Row>, now: real) {
    row.Some? && row.value.state == Pending && row.value.seenAt < now - STALE
  }

  function Finished(row: Option<Row>, now: real): Option<Row> {
    if row.None? then None else Some(Row(Done, now))
  }

  function Failed(row: Option<Row>): Option<Row> {
    if row.Some? && row.value.state == Pending then None else row
  }

  // ---- One claim, undisturbed ----

  function ClaimVerdict(row: Option<Row>, now: real): Verdict {
    var r := DeleteExpired(row, now);
    if Inserts(r) then Claimed else if Reclaims(r, now) then Reclaimed else Replay
  }

  function ClaimRow(row: Option<Row>, now: real): Option<Row> {
    if ClaimVerdict(row, now) == Replay then DeleteExpired(row, now) else Some(Row(Pending, now))
  }

  /** A claim proceeds if there is no row, if the row is more than 300 s old, or if
      it is pending and more than 60 s old; then the row is its own. Otherwise it
      leaves the row as it is. */
  lemma ClaimExact(row: Option<Row>, now: real)
    ensures var v := ClaimVerdict(row, now);
            match row
            case None => v == Claimed
            case Some(Row(Done, at)) => v == if now - at > 300.0 then Claimed else Replay
            case Some(Row(Pending, at)) =>
              v == if now - at > 300.0 then Claimed else if now - at > 60.0 then Reclaimed else Replay
    ensures ClaimRow(row, now) == if ClaimVerdict(row, now) == Replay then row else Some(Row(Pending, now))
  {}

  /** A finished send answers for its key for 300 s, and a failure after it does not
      take that back. */
  lemma FinishAnswers(row: Option<Row>, finished: real, now: real)
    requires row.Some?
    ensures ClaimVerdict(Finished(row, finished), now) == Replay <==> now <= finished + 300.0
    ensures Failed(Finished(row, finished)) == Finished(row, finished)
  {}

  // ---- Concurrent claims and sends on one key ----

  /** A claim's progress; `now` is the clock reading it took at its start. */
  datatype Phase = Deleting | Inserting | Updating | Sending | Suppressed | Resolved

  datatype Claim = Claim(now: real, phase: Phase)

  datatype System = System(row: Option<Row>, clock: real, claims: map<int, Claim>, lastDone: Option<real>)

  datatype Action =
    | Tick(to: real)
    | Start(id: int)
    | Statement(id: int)
    | Finish(id: int)
    | Fail(id: int)

  predicate Enabled(s: System, a: Action) {
    match a
    case Tick(to) => s.clock <= to
    case Start(id) => id !in s.claims
    case Statement(id) => id in s.claims && s.claims[id].phase in {Deleting, Inserting, Updating}
    case Finish(id) => id in s.claims && s.claims[id].phase == Sending
    case Fail(id) => id in s.claims && s.claims[id].phase == Sending
  }

  function At(s: System, id: int, phase: Phase): System
    requires id in s.claims
  {
    s.(claims := s.claims[id := s.claims[id].(phase := phase)])
  }

  function Won(s: System, id: int): System
    requires id in s.claims
  {
    At(s, id, Sending).(row := Some(Row(Pending, s.claims[id].now)))
  }

  function Next(s: System, a: Action): System
    requires Enabled(s, a)
  {
    match a
    case Tick(to) => s.(clock := to)
    case Start(id) => s.(claims := s.claims[id := Claim(s.clock, Deleting)])
    case Statement(id) =>
      var c := s.claims[id];
      (match c.phase
       case Deleting => At(s, id, Inserting).(row := DeleteExpired(s.row, c.now))
       case Inserting => if Inserts(s.row) then Won(s, id) else At(s, id, Updating)
       case _ => if Reclaims(s.row, c.now) then Won(s, id) else At(s, id, Suppressed))
    case Finish(id) => At(s, id, Resolved).(row := Finished(s.row, s.clock), lastDone := Some(s.clock))
    case Fail(id) => At(s, id, Resolved).(row := Failed(s.row))
  }

  ghost predicate IsPath(ss: seq<System>, acts: seq<Action>) {
    |ss| == |acts| + 1
    && forall i {:trigger Enabled(ss[i], acts[i])} | 0 <= i < |acts| ::
         Enabled(ss[i], acts[i]) && ss[i + 1] == Next(ss[i], acts[i])
  }

  function Twice(s: System, id: int): System
    requires id in s.claims && s.claims[id].phase == Deleting
  {
    Next(Next(s, Statement(id)), Statement(id))
  }

  /** A claim whose statements nothing interrupts is the claim of the table: it is
      sending after two of them if it inserts, after three if it reclaims. */
  lemma ClaimIsStatements(s: System, id: int)
    requires id in s.claims && s.claims[id].phase == Deleting
    ensures var v, t := ClaimVerdict(s.row, s.claims[id].now), Twice(s, id);
            var u := if v == Claimed then t else Next(t, Statement(id));
            && (v == Claimed <==> t.claims[id].phase == Sending)
            && u.claims[id].phase == (if v == Replay then Suppressed else Sending)
            && u.row == ClaimRow(s.row, s.claims[id].now)
  {}

  // ---- A race of claims has at most one winner ----

  ghost predicate Race(s: System) {
    forall i, j | i in s.claims && j in s.claims :: s.claims[i].now <= s.claims[j].now + 60.0
  }

  ghost predicate OneWinner(s: System) {
    && Race(s)
    && (forall i | i in s.claims :: s.claims[i].phase != Resolved)
    && (forall i | i in s.claims && s.claims[i].phase == Sending :: s.row == Some(Row(Pending, s.claims[i].now)))
    && (forall i, j | i in s.claims && j in s.claims && s.claims[i].phase == Sending
                        && s.claims[j].phase == Sending :: i == j)
  }

  lemma RaceStep(s: System, a: Action)
    requires OneWinner(s) && Enabled(s, a) && a.Statement?
    ensures OneWinner(Next(s, a))
  {}

  /** From any row, however the statements of any number of claims interleave,
      with clock readings within 60 s of each other and no finish or fail between
      them, at most one claim proceeds. */
  lemma {:induction false} AtMostOneProceeds(ss: seq<System>, acts: seq<Action>, n: nat)
    requires IsPath(ss, acts) && n < |ss| && Race(ss[0])
    requires forall i | i in ss[0].claims :: ss[0].claims[i].phase == Deleting
    requires forall k | 0 <= k < |acts| :: acts[k].Statement?
    ensures OneWinner(ss[n])
  {
    if n == 0 {
    } else {
      AtMostOneProceeds(ss, acts, n - 1);
      assert Enabled(ss[n - 1], acts[n - 1]);
      RaceStep(ss[n - 1], acts[n - 1]);
    }
  }

  // ---- Over the whole life of a key ----

  /** Every proceeding send is over within 60 s of its claim. */
  ghost predicate Prompt(s: System) {
    forall i | i in s.claims && s.claims[i].phase == Sending :: s.clock <= s.claims[i].now + 60.0
  }

  ghost predicate Quiet(s: System) { s.lastDone.Some? && s.clock <= s.lastDone.value + 300.0 }

  ghost predicate Exclusive(s: System) {
    && (forall i | i in s.claims :: s.claims[i].now <= s.clock)
    && (forall i | i in s.claims && s.claims[i].phase == Sending :: s.row == Some(Row(Pending, s.claims[i].now)))
    && (forall i, j | i in s.claims && j in s.claims && s.claims[i].phase == Sending
                        && s.claims[j].phase == Sending :: i == j)
    && (Quiet(s) ==> s.row == Some(Row(Done, s.lastDone.value)))
  }

  lemma ExclusiveStep(s: System, a: Action)
    requires Exclusive(s) && Prompt(s) && Enabled(s, a) && Prompt(Next(s, a))
    ensures Exclusive(Next(s, a))
  {}

  ghost predicate Fresh(s: System) { s.claims == map[] && s.lastDone == None }

  lemma {:induction false} ExclusiveAlways(ss: seq<System>, acts: seq<Action>, n: nat)
    requires IsPath(ss, acts) && n < |ss| && Fresh(ss[0]) && forall k | 0 <= k < |ss| :: Prompt(ss[k])
    ensures Exclusive(ss[n])
  {
    if n == 0 {
    } else {
      ExclusiveAlways(ss, acts, n - 1);
      assert Enabled(ss[n - 1], acts[n - 1]);
      ExclusiveStep(ss[n - 1], acts[n - 1]);
    }
  }

  /** If every proceeding send resolves within 60 s of its claim, then whenever a
      claim proceeds no other send is in flight, and the last completed send is
      more than 300 s old. */
  lemma NoDoubleSend(ss: seq<System>, acts: seq<Action>, n: nat, id: int)
    requires IsPath(ss, acts) && n < |acts| && Fresh(ss[0]) && forall k | 0 <= k < |ss| :: Prompt(ss[k])
    requires acts[n] == Statement(id) && id in ss[n + 1].claims && ss[n + 1].claims[id].phase == Sending
    ensures forall j | j in ss[n].claims :: ss[n].claims[j].phase != Sending
    ensures ss[n].lastDone.Some? ==> ss[n].clock > ss[n].lastDone.value + 300.0
  {
    ExclusiveAlways(ss, acts, n);
    ExclusiveAlways(ss, acts, n + 1);
    assert Enabled(ss[n], acts[n]);
  }

  /** A failed send frees the key at once: the next claim proceeds. */
  lemma FailFrees(s: System, id: int, now: real)
    requires Exclusive(s) && Prompt(s) && Enabled(s, Fail(id))
    ensures ClaimVerdict(Next(s, Fail(id)).row, now) == Claimed
  {}

  /** Beside a send d in flight, a claim c that has come to its UPDATE proceeds if
      and only if it read the clock more than 60 s after d did. */
  lemma ReclaimsIff(s: System, d: int, c: int)
    requires Exclusive(s) && d in s.claims && s.claims[d].phase == Sending
    requires c in s.claims && s.claims[c].phase == Updating
    ensures Next(s, Statement(c)).claims[c].phase == Sending <==> s.claims[c].now > s.claims[d].now + 60.0
  {}

  /** A whole claim c, undisturbed beside a send d in flight, proceeds on the same
      condition; past 300 s it is the INSERT that lets it through. */
  lemma ClaimBesideSendIff(s: System, d: int, now: real)
    requires Exclusive(s) && d in s.claims && s.claims[d].phase == Sending
    ensures ClaimVerdict(s.row, now) != Replay <==> now > s.claims[d].now + 60.0
    ensures ClaimVerdict(s.row, now) == Claimed <==> now > s.claims[d].now + 300.0
  {}

  /** So a send in flight for any time above 60 s is doubled by a claim that starts
      then. */
  lemma SlowSendIsDoubled(now: real, gap: real) returns (ss: seq<System>, acts: seq<Action>)
    requires gap > 60.0
    ensures IsPath(ss, acts) && Fresh(ss[0])
    ensures var s := ss[|ss| - 1];
            && 1 in s.claims && 2 in s.claims && s.claims[1].phase == Sending && s.claims[2].phase == Sending
            && s.claims[1].now == now && s.claims[2].now == now + gap
  {
    var s0 := System(None, now, map[], None);
    var s1 := Next(s0, Start(1));
    var s2 := Next(s1, Statement(1));
    var s3 := Next(s2, Statement(1));
    var s4 := Next(s3, Tick(now + gap));
    var s5 := Next(s4, Start(2));
    var s6 := Next(s5, Statement(2));
    var s7 := Next(s6, Statement(2));
    ss := [s0, s1, s2, s3, s4, s5, s6, s7];
    acts := [Start(1), Statement(1), Statement(1), Tick(now + gap), Start(2), Statement(2), Statement(2)];
    if gap <= TTL {
      ss, acts := ss + [Next(s7, Statement(2))], acts + [Statement(2)];
    }
  }

  // ---- The table ----

  class KeyTable {
    var rows: map<string, Row>

    ghost function RowOf(key: string): Option<Row>
      reads this
    {
      if key in rows then Some(rows[key]) else None
    }

    constructor ()
      ensures rows == map[]
    {
      rows := map[];
    }

    /** IdempotencyClaim, with nothing between its statements. */
    method Claim(key: string, now: real) returns (v: Verdict)
      modifies this
      ensures v == ClaimVerdict(old(RowOf(key)), now)
      ensures RowOf(key) == ClaimRow(old(RowOf(key)), now)
      ensures rows - {key} == old(rows) - {key}
    {
      if key in rows && rows[key].seenAt < now - TTL {
        rows := rows - {key};
      }
      if key !in rows {
        rows := rows[key := Row(Pending, now)];
        return Claimed;
      }
      if rows[key].state == Pending && rows[key].seenAt < now - STALE {
        rows := rows[key := Row(Pending, now)];
        return Reclaimed;
      }
      return Replay;
    }

    method Finish(key: string, now: real)
      modifies this
      ensures RowOf(key) == Finished(old(RowOf(key)), now)
      ensures rows - {key} == old(rows) - {key}
    {
      if key in rows {
        rows := rows[key := Row(Done, now)];
      }
    }

    method Fail(key: string)
      modifies this
      ensures RowOf(key) == Failed(old(RowOf(key)))
      ensures rows - {key} == old(rows) - {key}
    {
      if key in rows && rows[key].state == Pending {
        rows := rows - {key};
      }
    }
  }

  // ---- The JSON path of Proxy.Call ----

  datatype ChatAction = NotChatAction | Cancel | CancelTimeout | OtherAction

  /** What Call needs of a request: whether it is a write, its Idempotency-Key
      ("" when absent), its sendChatAction action and allow_paid_broadcast. */
  datatype Request = Request(write: bool, key: string, action: ChatAction, paid: bool)

  predicate Guarded(req: Request) { req.key != "" && req.write }

  /** `upstream` is the status admitAndForward comes back with. */
  method Call(table: KeyTable, req: Request, paidOptIn: bool, upstream: int, now: real, later: real)
    returns (status: int, replay: bool)
    modifies table
    ensures replay == (Guarded(req) && ClaimVerdict(old(table.RowOf(req.key)), now) == Replay)
    ensures status == if replay || req.action in {Cancel, CancelTimeout} then 200
                      else if req.paid && !paidOptIn then 403
                      else upstream
    ensures !Guarded(req) ==> table.rows == old(table.rows)
    ensures Guarded(req) ==>
              table.RowOf(req.key) == if replay then ClaimRow(old(table.RowOf(req.key)), now)
                                      else if req.action in {Cancel, CancelTimeout} then Some(Row(Pending, now))
                                      else if status < 400 then Some(Row(Done, later))
                                      else None
    ensures table.rows - {req.key} == old(table.rows) - {req.key}
  {
    var active := req.key != "" && req.write;
    if active {
      var v := table.Claim(req.key, now);
      if v == Replay {
        return 200, true;
      }
    }
    if req.action == Cancel || req.action == CancelTimeout {
      return 200, false;
    }
    if req.paid && !paidOptIn {
      if active {
        table.Fail(req.key);
      }
      return 403, false;
    }
    status, replay := upstream, false;
    if active {
      if status < 400 {
        table.Finish(req.key, later);
      } else {
        table.Fail(req.key);
      }
    }
  }
}
