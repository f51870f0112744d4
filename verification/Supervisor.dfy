/** The session supervisor and its file lock (internal/mtproto/sessions.go,
    internal/lock/lock.go), for one alias and any number of processes. `Proc` is
    one supervisor; the kernel keeps the flock of each inode and drops it when
    its holder dies. */
module Supervisor {
  import opened Options
  import opened Reals

  datatype SessionState = Connecting | Live | OnHold | Draining | Broken

  /** The outcome of ClassifyStartError on a failed start. */
  datatype Failure = Terminal | Flood(wait: real, jitter: real) | Retry

  /** One supervisor. `cleared` is set between passing the checks of the loop with the
      lock in hand and starting the client. The last two fields are history: generic
      failures since the last success, and the earliest time the failures since the
      last admin restart allow a start. */
  datatype Proc = Proc(state: SessionState, connected: bool, cleared: bool, starting: bool, fd: Option<nat>,
                       nextRetryAt: real, backoff: real, terminal: bool, failures: nat, notBefore: real)
  {
    predicate Active() { connected || starting }

    /** The checks at the top of the supervise loop. */
    predicate MayStart(now: real) {
      && !terminal && !cleared && !starting && state != OnHold && state != Draining
      && !(connected && state == Live) && nextRetryAt <= now
    }
  }

  const LOCK_RETRY := 60.0
  const MAX_BACKOFF := 300.0

  const NewProc := Proc(Connecting, false, false, false, None, 0.0, 1.0, false, 0, 0.0)

  /** min(2^k, 300): the pause after the (k+1)-st generic failure in a row. */
  function RetryDelay(k: nat): real { Min(Pow2(k) as real, MAX_BACKOFF) }

  function Pow2(k: nat): nat { if k == 0 then 1 else 2 * Pow2(k - 1) }

  /** How long a failure bars the next start. */
  function Delay(f: Failure, failures: nat): real {
    match f
    case Terminal => 0.0
    case Flood(wait, _) => wait + 60.0
    case Retry => RetryDelay(failures)
  }

  // ---- What each step does to a supervisor ----

  function Refused(p: Proc, now: real): Proc {
    p.(state := Broken, nextRetryAt := now + LOCK_RETRY, notBefore := Max(p.notBefore, now + LOCK_RETRY))
  }

  function Begun(p: Proc): Proc { p.(state := Connecting, connected := false, cleared := false, starting := true) }

  function Connected(p: Proc): Proc {
    p.(state := Live, connected := true, starting := false, backoff := 1.0, failures := 0)
  }

  /** The lock is released before the failure is classified. */
  function Failed(p: Proc, f: Failure, now: real): Proc {
    var q := p.(starting := false, fd := None, notBefore := Max(p.notBefore, now + Delay(f, p.failures)));
    match f
    case Terminal => q.(state := Broken, terminal := true)
    case Flood(wait, jitter) => q.(state := Connecting, nextRetryAt := now + (wait + 60.0 + jitter))
    case Retry => q.(state := Broken, nextRetryAt := now + p.backoff, backoff := Min(p.backoff * 2.0, MAX_BACKOFF),
                     failures := p.failures + 1)
  }

  function Restarted(p: Proc): Proc { if p.terminal then p else p.(nextRetryAt := 0.0, notBefore := 0.0) }

  /** An admin restart lets a supervisor start at once, unless it has failed for good. */
  lemma RestartFrees(p: Proc, now: real)
    requires now >= 0.0 && !p.Active() && !p.cleared && p.state != OnHold && p.state != Draining
    ensures Restarted(p).MayStart(now) <==> !p.terminal
  {}

  // ---- All processes and the kernel ----

  datatype System = System(procs: map<int, Proc>, path: Option<nat>, locks: map<nat, int>, inodes: nat, clock: real)

  datatype Action =
    | Tick(to: real)
    | Spawn(p: int)
    | Kill(p: int)
    | Acquire(p: int, pythonFresh: bool)
    | Gate(p: int)
    | Begin(p: int)
    | ConnectOk(p: int)
    | ConnectFail(p: int, f: Failure)
    | Disconnect(p: int)
    | Admin(p: int, state: SessionState)
    | Restart(p: int)

  predicate Enabled(s: System, a: Action) {
    match a
    case Tick(to) => s.clock <= to
    case Spawn(p) => p !in s.procs
    case Kill(p) => p in s.procs
    case Acquire(p, _) => p in s.procs && s.procs[p].MayStart(s.clock) && s.procs[p].fd.None?
    case Gate(p) => p in s.procs && s.procs[p].MayStart(s.clock) && s.procs[p].fd.Some?
    case Begin(p) => p in s.procs && s.procs[p].cleared
    case ConnectOk(p) => p in s.procs && s.procs[p].starting
    case ConnectFail(p, f) => p in s.procs && s.procs[p].starting && (f.Flood? ==> f.wait >= 0.0 && f.jitter >= 0.0)
    case Disconnect(p) => p in s.procs && s.procs[p].connected
    case Admin(p, state) => p in s.procs && state in {Live, OnHold, Draining}
    case Restart(p) => p in s.procs
  }

  /** O_CREATE opens the file the path names, or makes one. */
  function InodeOf(s: System): nat { if s.path.Some? then s.path.value else s.inodes }

  /** Whether lock.Acquire succeeds: flock first, then the check for a live
      Python holder. */
  predicate Granted(s: System, pythonFresh: bool) { InodeOf(s) !in s.locks && !pythonFresh }

  function Set(s: System, p: int, proc: Proc): System { s.(procs := s.procs[p := proc]) }

  function Next(s: System, a: Action): System
    requires Enabled(s, a)
  {
    match a
    case Tick(to) => s.(clock := to)
    case Spawn(p) => Set(s, p, NewProc)
    case Kill(p) => s.(procs := s.procs - {p}, locks := map i | i in s.locks && s.locks[i] != p :: s.locks[i])
    case Acquire(p, pythonFresh) =>
      var i := InodeOf(s);
      var file := s.(path := Some(i), inodes := if s.path.Some? then s.inodes else s.inodes + 1);
      if Granted(s, pythonFresh) then
        Set(file, p, s.procs[p].(fd := Some(i), cleared := true)).(locks := s.locks[i := p])
      else Set(file, p, Refused(s.procs[p], s.clock))
    case Gate(p) => Set(s, p, s.procs[p].(cleared := true))
    case Begin(p) => Set(s, p, Begun(s.procs[p]))
    case ConnectOk(p) => Set(s, p, Connected(s.procs[p]))
    case ConnectFail(p, f) =>
      var released := if s.procs[p].fd.Some? then s.locks - {s.procs[p].fd.value} else s.locks;
      Set(s, p, Failed(s.procs[p], f, s.clock)).(locks := released)
    case Disconnect(p) => Set(s, p, s.procs[p].(connected := false))
    case Admin(p, state) => Set(s, p, s.procs[p].(state := state))
    case Restart(p) => Set(s, p, Restarted(s.procs[p]))
  }

  predicate Init(s: System) { s.procs == map[] && s.path == None && s.locks == map[] && s.clock >= 0.0 }

  ghost predicate IsExecution(ss: seq<System>, acts: seq<Action>) {
    && |ss| == |acts| + 1 && Init(ss[0])
    && forall i {:trigger Enabled(ss[i], acts[i])} | 0 <= i < |acts| ::
         Enabled(ss[i], acts[i]) && ss[i + 1] == Next(ss[i], acts[i])
  }

  // ---- At most one process is connected ----

  /** A lock in the kernel's table and the descriptor its holder keeps agree, and
      every lock is on the one inode the path has ever named. */
  ghost predicate LocksAgree(s: System) {
    && (forall i | i in s.locks :: s.path == Some(i) && s.locks[i] in s.procs && s.procs[s.locks[i]].fd == Some(i))
    && (forall p | p in s.procs && s.procs[p].fd.Some? ::
          s.procs[p].fd.value in s.locks && s.locks[s.procs[p].fd.value] == p)
    && (forall p | p in s.procs && (s.procs[p].Active() || s.procs[p].cleared) :: s.procs[p].fd.Some?)
    && (forall p | p in s.procs && s.procs[p].starting :: !s.procs[p].connected && !s.procs[p].cleared)
  }

  lemma LocksAgreeStep(s: System, a: Action)
    requires LocksAgree(s) && Enabled(s, a)
    ensures LocksAgree(Next(s, a))
    ensures s.path.Some? ==> Next(s, a).path == s.path
  {}

  lemma {:induction false} LocksAgreeAlways(ss: seq<System>, acts: seq<Action>, n: nat)
    requires IsExecution(ss, acts) && n < |ss|
    ensures LocksAgree(ss[n])
  {
    hide Next;
    hide Enabled;
    if n == 0 {
    } else {
      LocksAgreeAlways(ss, acts, n - 1);
      assert Enabled(ss[n - 1], acts[n - 1]);
      LocksAgreeStep(ss[n - 1], acts[n - 1]);
    }
  }

  /** However many supervisors run, fail to connect, lose their connection, are
      paused or die, at most one process is connected or connecting; and whoever
      is holds the flock. */
  lemma AtMostOneConnected(ss: seq<System>, acts: seq<Action>, n: nat, p: int, q: int)
    requires IsExecution(ss, acts) && n < |ss|
    requires p in ss[n].procs && ss[n].procs[p].Active() && q in ss[n].procs && ss[n].procs[q].Active()
    ensures p == q
    ensures ss[n].procs[p].fd.Some? && ss[n].procs[p].fd == ss[n].path
  {
    LocksAgreeAlways(ss, acts, n);
  }

  lemma GrantedWhen(s: System, pythonFresh: bool)
    requires LocksAgree(s)
    ensures Granted(s, pythonFresh) <==> !pythonFresh && forall q | q in s.procs :: s.procs[q].fd.None?
  {
    var i := InodeOf(s);
    if i in s.locks {
      var q := s.locks[i];
      assert q in s.procs && s.procs[q].fd.Some?;
    } else {
      forall q | q in s.procs ensures s.procs[q].fd.None? {}
    }
  }

  /** The lock is granted if and only if no live process holds it and no Python
      sidecar is alive; with it the supervisor may start its client. */
  lemma GrantedIff(ss: seq<System>, acts: seq<Action>, n: nat, p: int, pythonFresh: bool)
    requires IsExecution(ss, acts) && n < |acts| && acts[n] == Acquire(p, pythonFresh)
    ensures var free := !pythonFresh && forall q | q in ss[n].procs :: ss[n].procs[q].fd.None?;
            p in ss[n + 1].procs && ss[n + 1].procs[p].fd.Some? == ss[n + 1].procs[p].cleared == free
  {
    hide LocksAgree;
    LocksAgreeAlways(ss, acts, n);
    assert Enabled(ss[n], acts[n]);
    GrantedWhen(ss[n], pythonFresh);
    hide Granted;
  }

  /** A failed start leaves the lock free for anyone. */
  lemma FailedStartReleases(ss: seq<System>, acts: seq<Action>, n: nat)
    requires IsExecution(ss, acts) && n < |acts| && acts[n].ConnectFail?
    ensures var p := acts[n].p;
            && p in ss[n + 1].procs && ss[n + 1].procs[p].fd.None? && !ss[n + 1].procs[p].Active()
            && ss[n + 1].locks == map[]
  {
    LocksAgreeAlways(ss, acts, n);
    assert Enabled(ss[n], acts[n]);
    assert forall i | i in ss[n].locks :: Some(i) == ss[n].path == ss[n].procs[acts[n].p].fd;
    assert ss[n + 1].locks.Keys == {};
  }

  /** The lock file keeps one inode for good. */
  lemma {:induction false} InodeNeverChanges(ss: seq<System>, acts: seq<Action>, m: nat, n: nat)
    requires IsExecution(ss, acts) && m <= n < |ss| && ss[m].path.Some?
    ensures ss[n].path == ss[m].path
  {
    hide Next;
    hide Enabled;
    if m < n {
      InodeNeverChanges(ss, acts, m, n - 1);
      LocksAgreeAlways(ss, acts, n - 1);
      assert Enabled(ss[n - 1], acts[n - 1]);
      LocksAgreeStep(ss[n - 1], acts[n - 1]);
    }
  }

  /** Were the file unlinked while p holds its lock, a second process would be
      granted a lock on a fresh inode. */
  lemma UnlinkWouldGrantTwo(s: System, p: int, q: int)
    requires LocksAgree(s) && p in s.procs && s.procs[p].Active() && Enabled(s, Acquire(q, false))
    requires s.inodes !in s.locks
    ensures var s' := Next(s.(path := None), Acquire(q, false));
            s'.procs[q].fd.Some? && s'.procs[p].fd.Some? && p != q
  {}

  // ---- Retry discipline ----

  lemma BackoffDoubles(k: nat)
    ensures Min(RetryDelay(k) * 2.0, MAX_BACKOFF) == RetryDelay(k + 1)
  {
    assert Pow2(k + 1) == 2 * Pow2(k);
  }

  /** A supervisor's retry gate is never earlier than its failures allow. */
  predicate Disciplined(p: Proc) { p.notBefore <= p.nextRetryAt && p.backoff == RetryDelay(p.failures) }

  ghost predicate AllDisciplined(s: System, pid: int) {
    && s.clock >= 0.0
    && (pid in s.procs && !s.procs[pid].terminal ==> Disciplined(s.procs[pid]))
    && (pid in s.procs && (s.procs[pid].cleared || s.procs[pid].starting) ==>
          !s.procs[pid].terminal && s.procs[pid].notBefore <= s.clock)
    && (pid in s.procs && s.procs[pid].starting ==> !s.procs[pid].cleared)
  }

  lemma DisciplineStep(s: System, a: Action, pid: int)
    requires AllDisciplined(s, pid) && Enabled(s, a)
    ensures AllDisciplined(Next(s, a), pid)
    ensures a != Kill(pid) && pid in s.procs ==>
              && pid in Next(s, a).procs && (s.procs[pid].terminal ==> Next(s, a).procs[pid].terminal)
              && (a != Restart(pid) ==> Next(s, a).procs[pid].notBefore >= s.procs[pid].notBefore)
  {
    if pid in s.procs { BackoffDoubles(s.procs[pid].failures); }
  }

  lemma {:induction false} DisciplinedAlways(ss: seq<System>, acts: seq<Action>, n: nat, pid: int)
    requires IsExecution(ss, acts) && n < |ss|
    ensures AllDisciplined(ss[n], pid)
  {
    hide Next;
    hide Enabled;
    if n == 0 {
    } else {
      DisciplinedAlways(ss, acts, n - 1, pid);
      assert Enabled(ss[n - 1], acts[n - 1]);
      DisciplineStep(ss[n - 1], acts[n - 1], pid);
    }
  }

  /** While pid lives, a terminal failure stays; unless it is restarted, so does what
      it must not do before. */
  lemma {:induction false} BarsStay(ss: seq<System>, acts: seq<Action>, m: nat, n: nat, pid: int)
    requires IsExecution(ss, acts) && m <= n < |ss| && pid in ss[m].procs
    requires forall i | m <= i < n :: acts[i] != Kill(pid)
    ensures pid in ss[n].procs && (ss[m].procs[pid].terminal ==> ss[n].procs[pid].terminal)
    ensures (forall i | m <= i < n :: acts[i] != Restart(pid)) ==>
              ss[n].procs[pid].notBefore >= ss[m].procs[pid].notBefore
  {
    hide Next;
    hide Enabled;
    hide AllDisciplined;
    if m == n {
    } else {
      BarsStay(ss, acts, m, n - 1, pid);
      DisciplinedAlways(ss, acts, n - 1, pid);
      assert Enabled(ss[n - 1], acts[n - 1]);
      DisciplineStep(ss[n - 1], acts[n - 1], pid);
    }
  }

  /** The generic failures of pid since it last connected or was started. */
  function RetriesSince(acts: seq<Action>, n: nat, pid: int): nat
    requires n <= |acts|
  {
    if n == 0 then 0
    else
      match acts[n - 1]
      case Spawn(p) => if p == pid then 0 else RetriesSince(acts, n - 1, pid)
      case ConnectOk(p) => if p == pid then 0 else RetriesSince(acts, n - 1, pid)
      case ConnectFail(p, f) => RetriesSince(acts, n - 1, pid) + if p == pid && f.Retry? then 1 else 0
      case _ => RetriesSince(acts, n - 1, pid)
  }

  lemma {:induction false} FailuresCounted(ss: seq<System>, acts: seq<Action>, n: nat, pid: int)
    requires IsExecution(ss, acts) && n < |ss| && pid in ss[n].procs
    ensures ss[n].procs[pid].failures == RetriesSince(acts, n, pid)
  {
    if n == 0 {
    } else {
      assert Enabled(ss[n - 1], acts[n - 1]);
      if pid in ss[n - 1].procs { FailuresCounted(ss, acts, n - 1, pid); }
      hide RetryDelay;
    }
  }

  /** min(2^k, 300) doubles from 1 and stays at 300 from the tenth failure on. */
  lemma {:induction false} RetryNumbers(k: nat)
    ensures RetryDelay(0) == 1.0
    ensures RetryDelay(k + 1) == if 2.0 * RetryDelay(k) <= 300.0 then 2.0 * RetryDelay(k) else 300.0
    ensures RetryDelay(k) <= 300.0 && (k >= 9 ==> RetryDelay(k) == 300.0)
  {
    BackoffDoubles(k);
    if k > 9 {
      RetryNumbers(k - 1);
    } else {
      assert Pow2(1) == 2 && Pow2(2) == 4 && Pow2(3) == 8 && Pow2(4) == 16 && Pow2(5) == 32;
      assert Pow2(6) == 64 && Pow2(7) == 128 && Pow2(8) == 256 && Pow2(9) == 512;
    }
  }

  /** A process that failed to start at step m and, not restarted by an admin, begins a
      start at step n has waited out the failure: the flood wait plus 60 s, or
      min(2^(k-1), 300) s after the k-th generic failure since it last connected. */
  lemma {:induction false} RetryDiscipline(ss: seq<System>, acts: seq<Action>, m: nat, n: nat, pid: int)
    requires IsExecution(ss, acts) && m < n < |acts|
    requires acts[m].ConnectFail? && acts[m].p == pid && acts[n] == Begin(pid)
    requires forall i | m <= i < n :: acts[i] != Kill(pid) && acts[i] != Restart(pid)
    ensures !acts[m].f.Terminal?
    ensures acts[m].f.Flood? ==> ss[n].clock >= ss[m].clock + acts[m].f.wait + 60.0
    ensures acts[m].f.Retry? ==> ss[n].clock >= ss[m].clock + RetryDelay(RetriesSince(acts, m, pid))
  {
    assert Enabled(ss[m], acts[m]) && Enabled(ss[n], acts[n]);
    FailuresCounted(ss, acts, m, pid);
    BarsStay(ss, acts, m + 1, n, pid);
    DisciplinedAlways(ss, acts, n, pid);
  }

  /** The gate opens again exactly then, and never after a terminal failure. */
  lemma GateAfterFailure(p: Proc, f: Failure, now: real, t: real)
    requires p.starting && !p.cleared && !p.connected && !p.terminal && p.backoff == RetryDelay(p.failures)
    ensures var q := Failed(p, f, now);
            q.MayStart(t) <==> match f
                               case Terminal => false
                               case Flood(wait, jitter) => t >= now + wait + 60.0 + jitter
                               case Retry => t >= now + RetryDelay(p.failures)
  {}

  lemma GateAfterRefusal(p: Proc, now: real, t: real)
    requires p.MayStart(now)
    ensures Refused(p, now).MayStart(t) <==> t >= now + 60.0
  {}

  /** While paused, draining, or connected and live, a session passes no gate and takes no
      lock. */
  lemma HeldPassesNoGate(ss: seq<System>, acts: seq<Action>, n: nat, pid: int)
    requires IsExecution(ss, acts) && n < |acts| && pid in ss[n].procs
    requires var p := ss[n].procs[pid]; p.state == OnHold || p.state == Draining || (p.connected && p.state == Live)
    ensures acts[n] != Gate(pid) && !(acts[n].Acquire? && acts[n].p == pid)
  {
    assert Enabled(ss[n], acts[n]);
  }

  /** After a terminal failure the process passes no gate, takes no lock and begins no
      start again, whatever restarts an admin asks for. */
  lemma TerminalIsForGood(ss: seq<System>, acts: seq<Action>, m: nat, n: nat, pid: int)
    requires IsExecution(ss, acts) && m < n < |acts|
    requires acts[m].ConnectFail? && acts[m].p == pid && acts[m].f.Terminal?
    requires forall i | m <= i < n :: acts[i] != Kill(pid)
    ensures acts[n] != Begin(pid) && acts[n] != Gate(pid) && !(acts[n].Acquire? && acts[n].p == pid)
    ensures acts[n] == Restart(pid) ==> ss[n + 1].procs == ss[n].procs
  {
    assert Enabled(ss[m], acts[m]) && Enabled(ss[n], acts[n]);
    BarsStay(ss, acts, m + 1, n, pid);
    DisciplinedAlways(ss, acts, n, pid);
  }

  /** After a lock refusal it waits at least 60 s. */
  lemma RefusalDiscipline(ss: seq<System>, acts: seq<Action>, m: nat, n: nat, pid: int)
    requires IsExecution(ss, acts) && m < n < |acts|
    requires acts[m].Acquire? && acts[m].p == pid && !Granted(ss[m], acts[m].pythonFresh) && acts[n] == Begin(pid)
    requires forall i | m <= i < n :: acts[i] != Kill(pid) && acts[i] != Restart(pid)
    ensures ss[n].clock >= ss[m].clock + 60.0
  {
    assert Enabled(ss[m], acts[m]) && Enabled(ss[n], acts[n]);
    BarsStay(ss, acts, m + 1, n, pid);
    DisciplinedAlways(ss, acts, n, pid);
  }

  // ---- The objects ----

  /** The kernel's flock on the lock file's inode. */
  class LockFile {
    var holder: Option<int>
  }

  class Lock {
    const pid: int
    const file: LockFile
    var held: bool

    ghost predicate Valid()
      reads this, file
    {
      held ==> file.holder == Some(pid)
    }

    constructor (pid: int, file: LockFile)
      ensures Valid() && !held && this.pid == pid && this.file == file
    {
      this.pid, this.file, held := pid, file, false;
    }

    /** flock, then refuse and unlock again if a Python sidecar is alive. */
    method Acquire(pythonFresh: bool) returns (ok: bool)
      requires Valid() && !held
      modifies this`held, file
      ensures Valid() && held == ok
      ensures ok <==> old(file.holder).None? && !pythonFresh
      ensures file.holder == if ok then Some(pid) else old(file.holder)
    {
      if file.holder.Some? {
        return false;
      }
      file.holder := Some(pid);
      if pythonFresh {
        file.holder := None;
        return false;
      }
      held := true;
      return true;
    }

    method Release()
      requires Valid()
      modifies this`held, file
      ensures Valid() && !held
      ensures file.holder == if old(held) then None else old(file.holder)
    {
      if !held {
        return;
      }
      file.holder := None;
      held := false;
    }
  }

  /** What a pass of the supervise loop meets: whether flock would succeed, whether a
      due ping is stuck, and how the start goes. */
  datatype Pass = Pass(now: real, free: bool, pingStuck: bool, outcome: Option<Failure>, failedAt: real)

  function Passed(p: Proc, inode: nat, w: Pass): Proc {
    if p.terminal || p.state == OnHold || p.state == Draining then p
    else if p.connected && p.state == Live then (if w.pingStuck then p.(connected := false) else p)
    else if p.nextRetryAt > w.now then p
    else if p.fd.None? && !w.free then Refused(p, w.now)
    else
      var begun := Begun(p.(fd := Some(inode)));
      if w.outcome.None? then Connected(begun) else Failed(begun, w.outcome.value, w.failedAt)
  }

  /** A pass that starts the client is a run of the system's steps, each of which the
      other processes may interleave with. */
  lemma PassIsSteps(s: System, p: int, pythonFresh: bool, outcome: Option<Failure>)
    requires p in s.procs && s.procs[p].MayStart(s.clock)
    requires outcome.Some? && outcome.value.Flood? ==> outcome.value.wait >= 0.0 && outcome.value.jitter >= 0.0
    ensures var gate := if s.procs[p].fd.None? then Acquire(p, pythonFresh) else Gate(p);
            var inode := if s.procs[p].fd.Some? then s.procs[p].fd.value else InodeOf(s);
            var end := Passed(s.procs[p], inode, Pass(s.clock, Granted(s, pythonFresh), false, outcome, s.clock));
            var s1 := Next(s, gate);
            if !s1.procs[p].cleared then s1.procs[p] == end
            else
              && Enabled(s1, Begin(p))
              && var s2 := Next(s1, Begin(p));
                 var last := if outcome.None? then ConnectOk(p) else ConnectFail(p, outcome.value);
                 Enabled(s2, last) && Next(s2, last).procs[p] == end
  {}

  /** A stuck ping is the system's disconnect; any other pass changes nothing. */
  lemma IdlePass(s: System, p: int, w: Pass)
    requires p in s.procs && !s.procs[p].cleared && !s.procs[p].starting && w.now == s.clock
    requires !s.procs[p].MayStart(s.clock)
    ensures var end := Passed(s.procs[p], 0, w);
            end == s.procs[p] || (Enabled(s, Disconnect(p)) && Next(s, Disconnect(p)).procs[p] == end)
  {}

  class Session {
    const lock: Lock
    const inode: nat
    var state: SessionState
    var connected: bool
    var nextRetryAt: real
    var backoff: real
    var terminalError: bool
    ghost var failures: nat
    ghost var notBefore: real

    ghost function Value(): Proc
      reads this, lock
    {
      Proc(state, connected, false, false, if lock.held then Some(inode) else None, nextRetryAt, backoff,
           terminalError, failures, notBefore)
    }

    constructor (lock: Lock, inode: nat)
      requires !lock.held
      ensures Value() == NewProc && this.lock == lock && this.inode == inode
    {
      this.lock, this.inode := lock, inode;
      state, connected, nextRetryAt, backoff, terminalError := Connecting, false, 0.0, 1.0, false;
      failures, notBefore := 0, 0.0;
    }

    method SuperviseOnce(now: real, pythonFresh: bool, pingStuck: bool, outcome: Option<Failure>, failedAt: real)
      requires lock.Valid()
      modifies this, lock`held, lock.file
      ensures lock.Valid()
      ensures var free := old(lock.file.holder).None? && !pythonFresh;
              Value() == Passed(old(Value()), inode, Pass(now, free, pingStuck, outcome, failedAt))
      ensures lock.file.holder == if lock.held then Some(lock.pid)
                                  else if old(lock.held) then None else old(lock.file.holder)
    {
      if terminalError || state == OnHold || state == Draining {
        return;
      }
      if connected && state == Live {
        if pingStuck {
          connected := false;
        }
        return;
      }
      if now < nextRetryAt {
        return;
      }
      if !lock.held {
        var ok := lock.Acquire(pythonFresh);
        if !ok {
          state := Broken;
          nextRetryAt := now + LOCK_RETRY;
          notBefore := Max(notBefore, now + LOCK_RETRY);
          return;
        }
      }
      state := Connecting;
      StartClient(outcome, failedAt);
    }

    /** startClient and the supervisor's classification of its error. */
    method StartClient(outcome: Option<Failure>, failedAt: real)
      requires lock.Valid() && lock.held && state == Connecting
      modifies this, lock`held, lock.file
      ensures lock.Valid()
      ensures Value() == if outcome.None? then Connected(Begun(old(Value())))
                         else Failed(Begun(old(Value())), outcome.value, failedAt)
      ensures lock.file.holder == if outcome.None? then old(lock.file.holder) else None
    {
      connected := false;
      if outcome.None? {
        connected, state, backoff, failures := true, Live, 1.0, 0;
        return;
      }
      lock.Release();
      notBefore := Max(notBefore, failedAt + Delay(outcome.value, failures));
      match outcome.value {
        case Terminal =>
          state, terminalError := Broken, true;
        case Flood(wait, jitter) =>
          state, nextRetryAt := Connecting, failedAt + (wait + 60.0 + jitter);
        case Retry =>
          state, nextRetryAt := Broken, failedAt + backoff;
          backoff := Min(backoff * 2.0, MAX_BACKOFF);
          failures := failures + 1;
      }
    }

    method Restart() returns (ok: bool)
      modifies this`nextRetryAt, this`notBefore
      ensures ok == !terminalError && Value() == Restarted(old(Value()))
    {
      if terminalError {
        return false;
      }
      nextRetryAt, notBefore := 0.0, 0.0;
      return true;
    }
  }
}
