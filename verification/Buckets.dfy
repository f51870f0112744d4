/** The token bucket of the rate guard (internal/rateguard/rateguard.go).
    `BucketState` and the functions on it say what a bucket means; class
    `Bucket` is the object whose fields the gateway updates in place. Times and
    token counts are reals, so rounding is not modelled. */
module Buckets {
  import opened Reals

  datatype BucketState = BucketState(rate: real, capacity: nat, tokens: real, updated: real, pausedUntil: real)
  {
    predicate WellFormed() { rate > 0.0 && capacity >= 1 }

    predicate Open(now: real) { pausedUntil <= now && tokens >= 1.0 }
  }

  /** A new bucket starts full. `at` is its own clock reading. */
  function Fresh(rate: real, capacity: nat, at: real): BucketState {
    BucketState(rate, capacity, capacity as real, at, 0.0)
  }

  /** The tokens that accrued between the last refill and t. */
  function Gain(b: BucketState, t: real): real { (t - b.updated) * b.rate }

  /** A pause that has run out is cleared and worth at least one token. */
  predicate PauseOver(b: BucketState, now: real) { b.pausedUntil != 0.0 && now >= b.pausedUntil }

  function Refilled(b: BucketState, now: real): BucketState {
    var over := PauseOver(b, now);
    var tokens := if over then Max(b.tokens, 1.0) else b.tokens;
    b.(pausedUntil := if over then 0.0 else b.pausedUntil,
       tokens := Min(b.capacity as real, tokens + Gain(b, now)),
       updated := now)
  }

  function Charged(b: BucketState): BucketState { b.(tokens := b.tokens - 1.0) }

  function TryTake(b: BucketState, now: real): (BucketState, bool) {
    var r := Refilled(b, now);
    if r.Open(now) then (Charged(r), true) else (r, false)
  }

  function NextAvailable(b: BucketState, now: real): real
    requires b.rate > 0.0
  {
    var r := Refilled(b, now);
    if r.pausedUntil > now then r.pausedUntil - now
    else if r.tokens < 1.0 then (1.0 - r.tokens) / r.rate
    else 0.0
  }

  function Paused(b: BucketState, seconds: real, now: real): BucketState {
    b.(pausedUntil := Max(b.pausedUntil, now + seconds), tokens := 0.0)
  }

  // ---- Refilling twice at one instant changes nothing ----

  lemma RefillIdempotent(b: BucketState, now: real)
    requires b.WellFormed()
    ensures Refilled(Refilled(b, now), now) == Refilled(b, now)
  {
    GainLaws(Refilled(b, now), now, now);
  }

  // ---- The wait a bucket quotes is the least one ----

  lemma RateOrder(x: real, y: real, rate: real)
    requires rate > 0.0
    ensures x >= y <==> x * rate >= y * rate
  {
    if x >= y { assert (x - y) * rate >= 0.0; } else { assert (y - x) * rate > 0.0; }
  }

  lemma WaitCoversDeficit(deficit: real, rate: real, dt: real)
    requires rate > 0.0
    ensures dt >= deficit / rate <==> dt * rate >= deficit
  {
    var w := deficit / rate;
    assert w * rate == deficit;
    RateOrder(dt, w, rate);
  }

  lemma GainLaws(b: BucketState, t: real, t': real)
    requires b.rate > 0.0
    ensures Gain(b, t') == Gain(b, t) + b.rate * (t' - t)
    ensures Gain(b, b.updated) == 0.0
    ensures t <= t' ==> b.rate * (t' - t) >= 0.0
  {
    RateOrder(t' - t, 0.0, b.rate);
  }

  /** After a probe at `now` quoting w, the bucket is open at `t` exactly from
      `now + w` on. */
  lemma BucketWaitExact(b: BucketState, now: real, t: real)
    requires b.WellFormed() && 0.0 <= now <= t
    ensures Refilled(Refilled(b, now), t).Open(t) <==> t >= now + NextAvailable(b, now)
    ensures NextAvailable(b, now) >= 0.0
  {
    var r := Refilled(b, now);
    GainLaws(r, now, t);
    if r.pausedUntil <= now && r.tokens < 1.0 {
      WaitCoversDeficit(1.0 - r.tokens, r.rate, t - now);
      WaitCoversDeficit(1.0 - r.tokens, r.rate, 0.0);
    }
  }

  /** A pause is kept to the end and no longer: from then on one send may go. A longer
      pause already running is not shortened. */
  lemma PauseOpensIff(b: BucketState, seconds: real, now: real, t: real)
    requires b.WellFormed() && b.updated <= t && now <= t && Max(b.pausedUntil, now + seconds) > 0.0
    ensures Refilled(Paused(b, seconds, now), t).Open(t) <==> t >= Max(b.pausedUntil, now + seconds)
  {
    GainLaws(b, b.updated, t);
  }

  /** A pause takes every token, whatever the bucket held: at its end there is the one
      it is worth and what has accrued since the last refill. */
  lemma PauseDrains(b: BucketState, seconds: real, now: real, t: real)
    requires b.WellFormed() && b.updated <= t && t >= Max(b.pausedUntil, now + seconds) > 0.0
    ensures Refilled(Paused(b, seconds, now), t).tokens
            == Min(b.capacity as real, 1.0 + (t - b.updated) * b.rate)
  {}

  // ---- A bucket gives its full burst and its full rate ----

  /** The bucket after attempts at these times, and how many were admitted. */
  function Attempts(b: BucketState, ts: seq<real>): (BucketState, nat) {
    if ts == [] then (b, 0)
    else
      var (before, n) := Attempts(b, ts[..|ts| - 1]);
      var (after, ok) := TryTake(before, ts[|ts| - 1]);
      (after, if ok then n + 1 else n)
  }

  /** Of any number of attempts at one instant a new bucket admits as many as its
      capacity. */
  lemma {:induction false} BurstExact(rate: real, capacity: nat, at: real, ts: seq<real>)
    requires rate > 0.0 && capacity >= 1 && at >= 0.0 && forall i | 0 <= i < |ts| :: ts[i] == at
    ensures Attempts(Fresh(rate, capacity, at), ts).1 == if |ts| <= capacity then |ts| else capacity
    ensures var b := Attempts(Fresh(rate, capacity, at), ts).0;
            && b.rate == rate && b.capacity == capacity && b.updated == at && b.pausedUntil == 0.0
            && b.tokens == (if |ts| <= capacity then capacity - |ts| else 0) as real
  {
    if ts == [] {
    } else {
      BurstExact(rate, capacity, at, ts[..|ts| - 1]);
      var b := Attempts(Fresh(rate, capacity, at), ts[..|ts| - 1]).0;
      GainLaws(b, at, at);
    }
  }

  /** At t, one token has accrued since the last refill. */
  predicate Due(rate: real, since: real, t: real) { t >= since && t >= 0.0 && (t - since) * rate >= 1.0 }

  /** Attempts no closer than one over the rate. */
  ghost predicate Paced(b: BucketState, ts: seq<real>) {
    && (ts != [] ==> Due(b.rate, b.updated, ts[0]))
    && (forall i | 0 < i < |ts| :: Due(b.rate, ts[i - 1], ts[i]))
  }

  lemma DueAdmits(b: BucketState, t: real)
    requires b.WellFormed() && b.tokens >= 0.0 && b.pausedUntil == 0.0 && Due(b.rate, b.updated, t)
    ensures TryTake(b, t).1
    ensures var r := TryTake(b, t).0;
            r.rate == b.rate && r.capacity == b.capacity && r.tokens >= 0.0 && r.pausedUntil == 0.0 && r.updated == t
  {
    assert Gain(b, t) >= 1.0;
    hide Gain;
    hide Due;
  }

  /** An unpaused bucket, even an empty one, admits every paced attempt. */
  lemma {:induction false} PacedAdmits(b: BucketState, ts: seq<real>)
    requires b.WellFormed() && b.tokens >= 0.0 && b.pausedUntil == 0.0 && Paced(b, ts)
    ensures Attempts(b, ts).1 == |ts|
    ensures var r := Attempts(b, ts).0;
            && r.rate == b.rate && r.capacity == b.capacity && r.tokens >= 0.0 && r.pausedUntil == 0.0
            && r.updated == (if ts == [] then b.updated else ts[|ts| - 1])
  {
    hide TryTake;
    hide Due;
    if ts == [] {
    } else {
      var front := ts[..|ts| - 1];
      assert forall i | 0 <= i < |front| :: front[i] == ts[i];
      PacedAdmits(b, front);
      DueAdmits(Attempts(b, front).0, ts[|ts| - 1]);
    }
  }

  // ---- Potential: the tokens a bucket could offer at time t ----

  ghost function Potential(b: BucketState, t: real): (p: real)
    ensures 0.0 <= p <= b.capacity as real
  {
    Max(0.0, Min(b.capacity as real, Max(b.tokens, 0.0) + Gain(b, t)))
  }

  lemma PotentialGrows(b: BucketState, t: real, t': real)
    requires b.rate > 0.0 && t <= t'
    ensures Potential(b, t') <= Potential(b, t) + b.rate * (t' - t)
  {
    GainLaws(b, t, t');
  }

  /** 1 when the step from b to b' cleared a pause. */
  function Clears(b: BucketState, b': BucketState): nat {
    if b.pausedUntil != 0.0 && b'.pausedUntil == 0.0 then 1 else 0
  }

  lemma RefillPotential(b: BucketState, now: real)
    requires b.WellFormed()
    ensures Potential(Refilled(b, now), now) <= Potential(b, now) + Clears(b, Refilled(b, now)) as real
    ensures Refilled(b, now).tokens <= Potential(Refilled(b, now), now)
  {
    var r := Refilled(b, now);
    GainLaws(r, now, now);
  }

  lemma ChargePotential(b: BucketState, now: real)
    requires b.WellFormed() && b.updated == now && 1.0 <= b.tokens <= b.capacity as real
    ensures Potential(Charged(b), now) == Potential(b, now) - 1.0
  {
    GainLaws(b, now, now);
    GainLaws(Charged(b), now, now);
  }

  lemma PausePotential(b: BucketState, seconds: real, now: real)
    ensures Potential(Paused(b, seconds, now), now) <= Potential(b, now)
  {}

  /** Everything an operation of the guard can do to one bucket. */
  datatype Touch = Leave | Refill | Charge | Pause(seconds: real)

  function Touched(b: BucketState, touch: Touch, now: real): BucketState {
    match touch
    case Leave => b
    case Refill => Refilled(b, now)
    case Charge => Charged(Refilled(b, now))
    case Pause(seconds) => Paused(b, seconds, now)
  }

  predicate Allowed(b: BucketState, touch: Touch, now: real) {
    touch.Charge? ==> Refilled(b, now).Open(now)
  }

  function Spends(touch: Touch): real { if touch.Charge? then 1.0 else 0.0 }

  /** A charge is paid for out of the potential; nothing else but a cleared
      pause adds to it. */
  lemma TouchPays(b: BucketState, touch: Touch, now: real)
    requires b.WellFormed() && Allowed(b, touch, now)
    ensures Potential(Touched(b, touch, now), now) + Spends(touch)
            <= Potential(b, now) + Clears(b, Touched(b, touch, now)) as real
  {
    RefillPotential(b, now);
    var r := Refilled(b, now);
    if touch.Charge? { ChargePotential(r, now); }
    if touch.Pause? { PausePotential(b, touch.seconds, now); }
  }

  // ---- Accounting over a run ----

  /** One event as the accounts see it: the budget before and after it, what it
      spent, how many pauses it cleared, and the tokens the clock has been worth
      so far (rate times time). */
  datatype Entry = Entry(worth: real, start: real, spent: nat, cleared: nat, end: real)

  function Spent(l: seq<Entry>): nat { if l == [] then 0 else l[0].spent + Spent(l[1..]) }

  function Cleared(l: seq<Entry>): nat { if l == [] then 0 else l[0].cleared + Cleared(l[1..]) }

  predicate Pays(e: Entry) { 0.0 <= e.end && e.end + e.spent as real <= e.start + e.cleared as real }

  predicate Follows(e: Entry, next: Entry) { e.worth <= next.worth && next.start <= e.end + next.worth - e.worth }

  /** Every entry pays for itself, and between entries the budget grows at most
      at the refill rate. */
  ghost predicate Funded(l: seq<Entry>) {
    && (forall i | 0 <= i < |l| :: Pays(l[i]))
    && (forall i | 0 <= i < |l| - 1 :: Follows(l[i], l[i + 1]))
  }

  lemma {:induction false} FundedBound(l: seq<Entry>)
    requires Funded(l) && l != []
    ensures Spent(l) as real <= l[0].start + l[|l| - 1].worth - l[0].worth + Cleared(l) as real
  {
    assert Pays(l[0]);
    if |l| > 1 {
      var rest := l[1..];
      assert Follows(l[0], l[1]);
      assert forall i | 0 <= i < |rest| :: rest[i] == l[i + 1];
      FundedBound(rest);
    }
  }

  // ---- The object ----

  class Bucket {
    var rate: real
    var capacity: nat
    var tokens: real
    var updated: real
    var pausedUntil: real

    ghost function State(): BucketState
      reads this
    {
      BucketState(rate, capacity, tokens, updated, pausedUntil)
    }

    constructor (rate: real, capacity: nat, at: real)
      ensures State() == Fresh(rate, capacity, at)
    {
      this.rate, this.capacity := rate, capacity;
      tokens, updated, pausedUntil := capacity as real, at, 0.0;
    }

    method RefillAt(now: real)
      modifies this
      ensures State() == Refilled(old(State()), now)
    {
      if pausedUntil != 0.0 && now >= pausedUntil {
        pausedUntil := 0.0;
        tokens := Max(tokens, 1.0);
      }
      var elapsed := now - updated;
      tokens := Min(capacity as real, tokens + elapsed * rate);
      updated := now;
    }

    method TakeNow(now: real) returns (ok: bool)
      modifies this
      ensures (State(), ok) == TryTake(old(State()), now)
    {
      RefillAt(now);
      if pausedUntil > now {
        return false;
      }
      if tokens >= 1.0 {
        tokens := tokens - 1.0;
        return true;
      }
      return false;
    }

    method Next(now: real) returns (wait: real)
      requires rate > 0.0
      modifies this
      ensures State() == Refilled(old(State()), now)
      ensures wait == NextAvailable(old(State()), now)
    {
      RefillAt(now);
      if pausedUntil > now {
        return pausedUntil - now;
      }
      var deficit := 1.0 - tokens;
      if deficit > 0.0 {
        return deficit / rate;
      }
      return 0.0;
    }

    method PauseFor(seconds: real, now: real)
      modifies this
      ensures State() == Paused(old(State()), seconds, now)
    {
      pausedUntil := Max(pausedUntil, now + seconds);
      tokens := 0.0;
    }
  }
}
