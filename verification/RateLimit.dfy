/** The in-memory token-bucket limiter of internal/middleware/ratelimit.go: one
    lazily refilled bucket per key, and a janitor that evicts idle buckets.

    Tokens and times are reals (seconds). The order of events is the order in which
    they hold the mutex, and their clock readings do not decrease. */
module RateLimit {

  datatype Config = Config(rpm: int, burst: int)

  /** The limits in force after the defaults have been applied. */
  predicate InForce(c: Config) {
    c.rpm >= 1 && c.burst >= 0
  }

  function Normalise(rpm: int, burst: int): (c: Config)
    ensures InForce(c)
    ensures c.burst == 0 <==> rpm == 1 && burst <= 0
    ensures rpm >= 1 ==> c.rpm == rpm
    ensures rpm <= 0 ==> c.rpm == 120
    ensures burst >= 1 ==> c.burst == burst
    ensures burst <= 0 ==> 2 * c.burst <= c.rpm <= 2 * c.burst + 1
  {
    var r := if rpm <= 0 then 120 else rpm;
    Config(r, if burst <= 0 then r / 2 else burst)
  }

  const IDLE_SECONDS: real := 900.0

  datatype Bucket = Bucket(tokens: real, lastSeen: real)

  type Buckets = map<string, Bucket>

  /** The tokens a never-full bucket gains in the given number of seconds. */
  function Refill(c: Config, seconds: real): real {
    seconds * (c.rpm as real / 60.0)
  }

  function Cap(c: Config): real {
    c.burst as real
  }

  function Capped(c: Config, x: real): real {
    if x > Cap(c) then Cap(c) else x
  }

  /** The tokens a request at `now` finds, before it spends one. */
  function Available(c: Config, buckets: Buckets, key: string, now: real): real {
    if key in buckets
    then Capped(c, buckets[key].tokens + Refill(c, now - buckets[key].lastSeen))
    else Cap(c)
  }

  /** Requests without a key are not limited. */
  predicate Admits(c: Config, buckets: Buckets, key: string, now: real) {
    key == "" || Available(c, buckets, key, now) >= 1.0
  }

  function AfterRequest(c: Config, buckets: Buckets, key: string, now: real): Buckets {
    if key == "" then buckets
    else
      var x := Available(c, buckets, key, now);
      buckets[key := Bucket(if x >= 1.0 then x - 1.0 else x, now)]
  }

  function Swept(buckets: Buckets, now: real): Buckets {
    map k | k in buckets && buckets[k].lastSeen >= now - IDLE_SECONDS :: buckets[k]
  }

  class Limiter {
    const config: Config
    var buckets: Buckets

    constructor (rpm: int, burst: int)
      ensures config == Normalise(rpm, burst)
      ensures buckets == map[]
    {
      config := Normalise(rpm, burst);
      buckets := map[];
    }

    method Handle(key: string, now: real) returns (admitted: bool)
      modifies this
      ensures admitted == Admits(config, old(buckets), key, now)
      ensures buckets == AfterRequest(config, old(buckets), key, now)
      ensures key == "" ==> admitted && buckets == old(buckets)
      ensures key != "" ==>
                var burst := config.burst as real;
                var refilled := if key !in old(buckets) then burst
                                else old(buckets)[key].tokens
                                     + (now - old(buckets)[key].lastSeen) * (config.rpm as real / 60.0);
                var tokens := if refilled > burst then burst else refilled;
                && (admitted <==> tokens >= 1.0)
                && buckets == old(buckets)[key := Bucket(if admitted then tokens - 1.0 else tokens, now)]
    {
      if key == "" {
        return true;
      }
      if key !in buckets {
        buckets := buckets[key := Bucket(config.burst as real, now)];
      }
      var b := buckets[key];
      var elapsed := now - b.lastSeen;
      b := b.(tokens := b.tokens + elapsed * (config.rpm as real / 60.0));
      assert elapsed * (config.rpm as real / 60.0) == Refill(config, elapsed);
      assert key !in old(buckets) ==> elapsed == 0.0 && Refill(config, elapsed) == 0.0;
      ghost var found := if b.tokens > config.burst as real then config.burst as real else b.tokens;
      assert found == Available(config, old(buckets), key, now);
      if b.tokens > config.burst as real {
        b := b.(tokens := config.burst as real);
      }
      b := b.(lastSeen := now);
      buckets := buckets[key := b];
      assert buckets == old(buckets)[key := b];
      if b.tokens < 1.0 {
        return false;
      }
      b := b.(tokens := b.tokens - 1.0);
      buckets := buckets[key := b];
      return true;
    }

    /** One janitor tick. */
    method Sweep(now: real)
      modifies this
      ensures buckets == Swept(old(buckets), now)
      ensures forall k :: k in buckets <==> k in old(buckets) && old(buckets)[k].lastSeen >= now - 900.0
    {
      var cutoff := now - 15.0 * 60.0;
      var pending := buckets.Keys;
      while pending != {}
        invariant pending <= buckets.Keys <= old(buckets).Keys
        invariant forall k :: k in buckets ==> buckets[k] == old(buckets)[k]
        invariant forall k :: k in old(buckets) && k !in pending ==>
                                (k in buckets <==> old(buckets)[k].lastSeen >= cutoff)
        decreases pending
      {
        var k :| k in pending;
        pending := pending - {k};
        if buckets[k].lastSeen < cutoff {
          buckets := map x | x in buckets && x != k :: buckets[x];
        }
      }
    }
  }

  // ----- One key's requests, with no eviction -----

  ghost predicate Ordered(ts: seq<real>) {
    forall i, j :: 0 <= i <= j < |ts| ==> ts[i] <= ts[j]
  }

  function Credits(c: Config, ts: seq<real>): (us: seq<real>)
    ensures |us| == |ts| && forall i :: 0 <= i < |ts| ==> us[i] == Refill(c, ts[i])
  {
    seq(|ts|, i requires 0 <= i < |ts| => Refill(c, ts[i]))
  }

  /** Tokens found by the i-th of one key's requests when nothing is ever evicted.
      The i-th request arrives when the credit is us[i]. */
  function Level(cap: real, us: seq<real>, i: nat): real
    requires i < |us|
  {
    if i == 0 then cap
    else
      var x := Left(Level(cap, us, i - 1)) + us[i] - us[i-1];
      if x > cap then cap else x
  }

  /** Tokens left behind by a request that finds x. */
  function Left(x: real): real {
    if x >= 1.0 then x - 1.0 else x
  }

  predicate Passes(cap: real, us: seq<real>, i: nat)
    requires i < |us|
  {
    Level(cap, us, i) >= 1.0
  }

  /** How many of the requests in [lo, hi) are admitted. */
  function Admitted(cap: real, us: seq<real>, lo: nat, hi: nat): nat
    requires lo <= hi <= |us|
    decreases hi
  {
    if lo == hi then 0
    else Admitted(cap, us, lo, hi - 1) + if Passes(cap, us, hi - 1) then 1 else 0
  }

  /** What is left of the budget of the window from request j to request i, just
      before request i is decided. */
  function Allowance(cap: real, us: seq<real>, j: nat, i: nat): real
    requires j <= i < |us|
  {
    cap + us[i] - us[j] - Admitted(cap, us, j, i) as real
  }

  /** The bucket level is the least allowance over all windows ending now. */
  lemma {:induction false} LevelIsLeastAllowance(cap: real, us: seq<real>, i: nat)
    requires i < |us|
    ensures forall j :: 0 <= j <= i ==> Level(cap, us, i) <= Allowance(cap, us, j, i)
    ensures exists j :: 0 <= j <= i && Level(cap, us, i) == Allowance(cap, us, j, i)
  {
    if i == 0 {
      assert Level(cap, us, 0) == Allowance(cap, us, 0, 0);
    } else {
      LevelIsLeastAllowance(cap, us, i - 1);
      assert Allowance(cap, us, i, i) == cap;
      forall j | 0 <= j < i
        ensures Allowance(cap, us, j, i)
             == Allowance(cap, us, j, i - 1) - (if Passes(cap, us, i - 1) then 1.0 else 0.0) + us[i] - us[i-1]
      {
      }
      var k :| 0 <= k <= i - 1 && Level(cap, us, i - 1) == Allowance(cap, us, k, i - 1);
      assert Level(cap, us, i) == Allowance(cap, us, k, i) || Level(cap, us, i) == Allowance(cap, us, i, i);
    }
  }

  lemma RefillGained(c: Config, s: real, t: real)
    ensures Refill(c, t) - Refill(c, s) == Refill(c, t - s)
  {
  }

  lemma RefillMonotone(c: Config, s: real, t: real)
    requires InForce(c) && s <= t
    ensures Refill(c, s) <= Refill(c, t)
  {
  }

  lemma CreditsOrdered(c: Config, ts: seq<real>)
    requires InForce(c) && Ordered(ts)
    ensures Ordered(Credits(c, ts))
  {
    forall i, j | 0 <= i <= j < |ts|
      ensures Credits(c, ts)[i] <= Credits(c, ts)[j]
    {
      RefillMonotone(c, ts[i], ts[j]);
    }
  }

  /** Admitting request i would put the window that starts with request j over its
      budget of a burst plus what the window's length refills. */
  ghost predicate OverBudgetSince(c: Config, ts: seq<real>, j: nat, i: nat)
    requires j <= i < |ts|
  {
    Admitted(Cap(c), Credits(c, ts), j, i) as real + 1.0 > Cap(c) + Refill(c, ts[i] - ts[j])
  }

  lemma BudgetIsAllowance(c: Config, ts: seq<real>, j: nat, i: nat)
    requires j <= i < |ts|
    ensures OverBudgetSince(c, ts, j, i) <==> Allowance(Cap(c), Credits(c, ts), j, i) < 1.0
  {
    RefillGained(c, ts[j], ts[i]);
  }

  ghost predicate OverBudget(c: Config, ts: seq<real>, i: nat)
    requires i < |ts|
  {
    exists j :: 0 <= j <= i && OverBudgetSince(c, ts, j, i)
  }

  /** A request is rejected exactly when admitting it would put a window over budget. */
  lemma ExactAdmission(c: Config, ts: seq<real>, i: nat)
    requires i < |ts|
    ensures !Passes(Cap(c), Credits(c, ts), i) <==> OverBudget(c, ts, i)
  {
    var cap, us := Cap(c), Credits(c, ts);
    LevelIsLeastAllowance(cap, us, i);
    var k :| 0 <= k <= i && Level(cap, us, i) == Allowance(cap, us, k, i);
    BudgetIsAllowance(c, ts, k, i);
    if j: nat :| j <= i && OverBudgetSince(c, ts, j, i) {
      BudgetIsAllowance(c, ts, j, i);
    }
  }

  /** In terms of credit, no window of requests [lo, hi) admits more than its budget. */
  lemma {:induction false} WindowCredit(cap: real, us: seq<real>, lo: nat, hi: nat)
    requires Ordered(us) && cap >= 0.0 && lo < hi <= |us|
    ensures Admitted(cap, us, lo, hi) as real <= cap + us[hi-1] - us[lo]
    decreases hi
  {
    assert us[lo] <= us[hi-1];
    if Passes(cap, us, hi - 1) {
      LevelIsLeastAllowance(cap, us, hi - 1);
      assert Level(cap, us, hi - 1) <= Allowance(cap, us, lo, hi - 1);
    } else if lo < hi - 1 {
      assert us[hi-2] <= us[hi-1];
      WindowCredit(cap, us, lo, hi - 1);
    }
  }

  /** No stretch of time [start, end] admits more than the burst plus what it refills:
      all the requests of [lo, hi) arrive within it. */
  lemma WindowBound(c: Config, ts: seq<real>, lo: nat, hi: nat, start: real, end: real)
    requires InForce(c) && Ordered(ts)
    requires lo < hi <= |ts| && start <= ts[lo] && ts[hi-1] <= end
    ensures Admitted(Cap(c), Credits(c, ts), lo, hi) as real <= Cap(c) + Refill(c, end - start)
  {
    CreditsOrdered(c, ts);
    WindowCredit(Cap(c), Credits(c, ts), lo, hi);
    RefillMonotone(c, start, ts[lo]);
    RefillMonotone(c, ts[hi-1], end);
    RefillGained(c, start, end);
  }

  lemma {:induction false} LevelInRange(cap: real, us: seq<real>, i: nat)
    requires cap >= 0.0 && Ordered(us) && i < |us|
    ensures 0.0 <= Level(cap, us, i) <= cap
  {
    if i > 0 {
      LevelInRange(cap, us, i - 1);
      assert us[i-1] <= us[i];
    }
  }

  lemma {:induction false} LevelOfPrefix(cap: real, us: seq<real>, vs: seq<real>, i: nat)
    requires i < |us| && us <= vs
    ensures Level(cap, us, i) == Level(cap, vs, i)
  {
    if i > 0 {
      LevelOfPrefix(cap, us, vs, i - 1);
    }
    assert us[i] == vs[i];
  }

  // ----- Whole runs: requests on any keys interleaved with janitor ticks -----

  datatype Event =
    | Request(key: string, now: real)
    | Tick(now: real)

  ghost predicate InOrder(events: seq<Event>) {
    forall i, j :: 0 <= i <= j < |events| ==> events[i].now <= events[j].now
  }

  function Apply(c: Config, buckets: Buckets, e: Event): Buckets {
    match e
    case Request(key, now) => AfterRequest(c, buckets, key, now)
    case Tick(now) => Swept(buckets, now)
  }

  /** The buckets once the first n events have been served, starting empty. */
  function After(c: Config, events: seq<Event>, n: nat): Buckets
    requires n <= |events|
  {
    if n == 0 then map[] else Apply(c, After(c, events, n - 1), events[n-1])
  }

  ghost predicate Asked(events: seq<Event>, n: nat, key: string)
    requires n <= |events|
  {
    exists i :: 0 <= i < n && events[i].Request? && events[i].key == key
  }

  lemma {:induction false} OnlyAskedHaveBuckets(c: Config, events: seq<Event>, n: nat, key: string)
    requires n <= |events| && key in After(c, events, n)
    ensures Asked(events, n, key)
  {
    if n > 0 && key in After(c, events, n - 1) {
      OnlyAskedHaveBuckets(c, events, n - 1, key);
    }
  }

  /** With a burst of at least one, the first request of a key is admitted in every run. */
  lemma FirstIsAdmitted(c: Config, events: seq<Event>, n: nat)
    requires c.burst >= 1 && n < |events| && events[n].Request? && !Asked(events, n, events[n].key)
    ensures Admits(c, After(c, events, n), events[n].key, events[n].now)
  {
    if events[n].key in After(c, events, n) {
      OnlyAskedHaveBuckets(c, events, n, events[n].key);
    }
  }

  ghost predicate RejectedAt(c: Config, events: seq<Event>, n: nat)
    requires n < |events|
  {
    events[n].Request? && events[n].key != "" ==> !Admits(c, After(c, events, n), events[n].key, events[n].now)
  }

  /** The configurations that reject every keyed request of every run: a limit of one
      request a minute without a burst, whose half is rounded down to none. */
  lemma RejectsEverybodyIff(rpm: int, burst: int)
    ensures (forall events: seq<Event>, n: nat :: n < |events| ==> RejectedAt(Normalise(rpm, burst), events, n))
       <==> rpm == 1 && burst <= 0
  {
    var c := Normalise(rpm, burst);
    if c.burst >= 1 {
      var events := [Request("k", 0.0)];
      FirstIsAdmitted(c, events, 0);
      assert !RejectedAt(c, events, 0);
    }
  }

  /** The arrival times of one key's requests among the first n events. */
  function TimesOf(key: string, events: seq<Event>, n: nat): (ts: seq<real>)
    requires n <= |events|
    ensures forall t :: t in ts ==> exists i :: 0 <= i < n && events[i].now == t
  {
    if n == 0 then []
    else
      var ts := TimesOf(key, events, n - 1);
      var e := events[n-1];
      if e.Request? && e.key == key then ts + [e.now] else ts
  }

  /** Driving the real limiter over a run leaves it in `After`. */
  method Drive(limiter: Limiter, events: seq<Event>)
    requires limiter.buckets == map[]
    modifies limiter
    ensures limiter.buckets == After(limiter.config, events, |events|)
  {
    for n := 0 to |events|
      invariant limiter.buckets == After(limiter.config, events, n)
    {
      match events[n]
      case Request(key, now) => var _ := limiter.Handle(key, now);
      case Tick(now) => limiter.Sweep(now);
    }
  }

  lemma {:induction false} TimesOrdered(key: string, events: seq<Event>, n: nat)
    requires n <= |events| && InOrder(events)
    ensures Ordered(TimesOf(key, events, n))
  {
    if n > 0 {
      TimesOrdered(key, events, n - 1);
      var ts := TimesOf(key, events, n - 1);
      forall i | 0 <= i < |ts|
        ensures ts[i] <= events[n-1].now
      {
        assert ts[i] in ts;
      }
    }
  }

  /** Tokens the last of one key's requests leaves behind when nothing is evicted. */
  function LastLeft(c: Config, ts: seq<real>): real
    requires |ts| > 0
  {
    Left(Level(Cap(c), Credits(c, ts), |ts| - 1))
  }

  /** The stored bucket is the never-evicted one; a missing bucket was idle too long. */
  ghost predicate Tracks(c: Config, buckets: Buckets, key: string, ts: seq<real>, clock: real) {
    if key in buckets then
      |ts| > 0 && buckets[key] == Bucket(LastLeft(c, ts), ts[|ts|-1])
    else
      |ts| > 0 ==> ts[|ts|-1] < clock - IDLE_SECONDS
  }

  predicate RefillsWithinIdle(c: Config) {
    15 * c.rpm >= c.burst
  }

  lemma IdleRefill(c: Config, s: real, t: real)
    requires InForce(c) && RefillsWithinIdle(c) && s + IDLE_SECONDS <= t
    ensures Refill(c, t) - Refill(c, s) >= Cap(c)
  {
    RefillMonotone(c, s + IDLE_SECONDS, t);
    RefillGained(c, s, s + IDLE_SECONDS);
    assert Refill(c, IDLE_SECONDS) == 15.0 * c.rpm as real;
    assert (15 * c.rpm) as real == 15.0 * c.rpm as real;
  }

  lemma StoredLevel(c: Config, b: Bucket, now: real)
    ensures b.tokens + Refill(c, now - b.lastSeen) == b.tokens + Refill(c, now) - Refill(c, b.lastSeen)
  {
    RefillGained(c, b.lastSeen, now);
  }

  lemma LevelAfterLast(c: Config, ts: seq<real>, now: real)
    requires |ts| > 0
    ensures var x := LastLeft(c, ts) + Refill(c, now) - Refill(c, ts[|ts|-1]);
            Level(Cap(c), Credits(c, ts + [now]), |ts|) == Capped(c, x)
  {
    var us, vs := Credits(c, ts), Credits(c, ts + [now]);
    assert us <= vs;
    LevelOfPrefix(Cap(c), us, vs, |ts| - 1);
  }

  lemma LastLeftInRange(c: Config, ts: seq<real>)
    requires InForce(c) && |ts| > 0 && Ordered(ts)
    ensures 0.0 <= LastLeft(c, ts) <= Cap(c)
  {
    CreditsOrdered(c, ts);
    LevelInRange(Cap(c), Credits(c, ts), |ts| - 1);
  }

  /** An evicted bucket would be full again. */
  lemma IdleLevel(c: Config, ts: seq<real>, now: real)
    requires InForce(c) && RefillsWithinIdle(c) && Ordered(ts) && |ts| > 0 && ts[|ts|-1] < now - IDLE_SECONDS
    ensures Capped(c, LastLeft(c, ts) + Refill(c, now - ts[|ts|-1])) == Cap(c)
  {
    LastLeftInRange(c, ts);
    IdleRefill(c, ts[|ts|-1], now);
  }

  /** The limiter finds what a never-evicting one would find. */
  lemma SameLevel(c: Config, buckets: Buckets, key: string, ts: seq<real>, now: real)
    requires InForce(c) && RefillsWithinIdle(c) && Ordered(ts)
    requires Tracks(c, buckets, key, ts, now)
    ensures Available(c, buckets, key, now) == Level(Cap(c), Credits(c, ts + [now]), |ts|)
  {
    if |ts| > 0 {
      LevelAfterLast(c, ts, now);
      if key in buckets {
        StoredLevel(c, buckets[key], now);
      } else {
        IdleLevel(c, ts, now);
      }
    }
  }

  lemma {:induction false} RunTracks(c: Config, events: seq<Event>, n: nat, key: string, clock: real)
    requires InForce(c) && RefillsWithinIdle(c) && InOrder(events)
    requires n <= |events| && key != "" && (n > 0 ==> events[n-1].now <= clock)
    ensures Tracks(c, After(c, events, n), key, TimesOf(key, events, n), clock)
  {
    if n > 0 {
      var e := events[n-1];
      RunTracks(c, events, n - 1, key, e.now);
      TimesOrdered(key, events, n - 1);
      if e.Request? && e.key == key {
        SameLevel(c, After(c, events, n - 1), key, TimesOf(key, events, n - 1), e.now);
      }
    }
  }

  /** Eviction is invisible and keys do not interfere: every request of a run is
      answered as if its key's requests were alone and nothing was ever evicted. */
  lemma EvictionIsInvisible(c: Config, events: seq<Event>, n: nat)
    requires InForce(c) && RefillsWithinIdle(c) && InOrder(events)
    requires n < |events| && events[n].Request? && events[n].key != ""
    ensures var ts := TimesOf(events[n].key, events, n + 1);
            |ts| > 0 &&
            (Admits(c, After(c, events, n), events[n].key, events[n].now)
             <==> Passes(Cap(c), Credits(c, ts), |ts| - 1))
  {
    var e := events[n];
    RunTracks(c, events, n, e.key, e.now);
    TimesOrdered(e.key, events, n);
    SameLevel(c, After(c, events, n), e.key, TimesOf(e.key, events, n), e.now);
  }

  /** In such a run a request is rejected exactly when admitting it would put a window
      of its own key's requests over budget. */
  lemma RunAdmission(c: Config, events: seq<Event>, n: nat)
    requires InForce(c) && RefillsWithinIdle(c) && InOrder(events)
    requires n < |events| && events[n].Request? && events[n].key != ""
    ensures var ts := TimesOf(events[n].key, events, n + 1);
            |ts| > 0 &&
            (!Admits(c, After(c, events, n), events[n].key, events[n].now)
             <==> OverBudget(c, ts, |ts| - 1))
  {
    EvictionIsInvisible(c, events, n);
    var ts := TimesOf(events[n].key, events, n + 1);
    ExactAdmission(c, ts, |ts| - 1);
  }

  // ----- The condition is exact: with a larger burst, eviction shows -----

  /** How many of the events in [lo, hi) are admitted requests of the key. */
  function AdmittedIn(c: Config, events: seq<Event>, key: string, lo: nat, hi: nat): nat
    requires lo <= hi <= |events|
    decreases hi
  {
    if lo == hi then 0
    else
      AdmittedIn(c, events, key, lo, hi - 1) +
      if events[hi-1] == Request(key, events[hi-1].now) && Admits(c, After(c, events, hi - 1), key, events[hi-1].now)
      then 1 else 0
  }

  /** A burst and rpm requests a minute. */
  function Budget(rpm: int, burst: int, seconds: real): real {
    burst as real + rpm as real * (seconds / 60.0)
  }

  lemma BudgetIs(c: Config, seconds: real)
    ensures Cap(c) + Refill(c, seconds) == Budget(c.rpm, c.burst, seconds)
  {
  }

  /** Admitting event n would put the stretch since event j over a burst and what rpm requests
      a minute refill. */
  ghost predicate TooManySince(c: Config, events: seq<Event>, j: nat, n: nat)
    requires j <= n < |events|
  {
    && events[n].Request? && events[j].Request? && events[j].key == events[n].key
    && AdmittedIn(c, events, events[n].key, j, n) as real + 1.0 > Budget(c.rpm, c.burst, events[n].now - events[j].now)
  }

  lemma TimesOfRequest(key: string, events: seq<Event>, n: nat)
    requires n < |events|
    ensures TimesOf(key, events, n + 1)
         == TimesOf(key, events, n) + if events[n] == Request(key, events[n].now) then [events[n].now] else []
  {
  }

  lemma {:induction false} TimesPrefix(key: string, events: seq<Event>, m: nat, n: nat)
    requires m <= n <= |events|
    ensures TimesOf(key, events, m) <= TimesOf(key, events, n)
  {
    if m < n {
      TimesPrefix(key, events, m, n - 1);
    }
  }

  lemma OwnVerdict(c: Config, events: seq<Event>, n: nat, ts: seq<real>)
    requires InForce(c) && RefillsWithinIdle(c) && InOrder(events)
    requires n < |events| && events[n].Request? && events[n].key != ""
    requires TimesOf(events[n].key, events, n + 1) <= ts
    ensures |TimesOf(events[n].key, events, n)| < |ts|
    ensures Admits(c, After(c, events, n), events[n].key, events[n].now)
       <==> Passes(Cap(c), Credits(c, ts), |TimesOf(events[n].key, events, n)|)
  {
    EvictionIsInvisible(c, events, n);
    TimesOfRequest(events[n].key, events, n);
    var own := TimesOf(events[n].key, events, n + 1);
    LevelOfPrefix(Cap(c), Credits(c, own), Credits(c, ts), |own| - 1);
  }

  /** What event n adds to the count of admissions from the key's lo-th request on. */
  lemma OneMoreEvent(c: Config, events: seq<Event>, key: string, n: nat, lo: nat, ts: seq<real>)
    requires InForce(c) && RefillsWithinIdle(c) && InOrder(events) && n < |events| && key != ""
    requires TimesOf(key, events, n + 1) <= ts && lo <= |TimesOf(key, events, n)| <= |TimesOf(key, events, n + 1)|
    ensures var own := events[n] == Request(key, events[n].now);
            Admitted(Cap(c), Credits(c, ts), lo, |TimesOf(key, events, n + 1)|)
            == Admitted(Cap(c), Credits(c, ts), lo, |TimesOf(key, events, n)|)
               + if own && Admits(c, After(c, events, n), key, events[n].now) then 1 else 0
  {
    TimesOfRequest(key, events, n);
    if events[n] == Request(key, events[n].now) {
      OwnVerdict(c, events, n, ts);
    }
  }

  /** Counting admissions by events and by the key's requests is the same. */
  lemma {:induction false} AdmittedByRequests(c: Config, events: seq<Event>, key: string, lo: nat, hi: nat,
                                              ts: seq<real>)
    requires InForce(c) && RefillsWithinIdle(c) && InOrder(events) && lo <= hi <= |events| && key != ""
    requires TimesOf(key, events, hi) <= ts
    ensures |TimesOf(key, events, lo)| <= |TimesOf(key, events, hi)| <= |ts|
    ensures AdmittedIn(c, events, key, lo, hi)
         == Admitted(Cap(c), Credits(c, ts), |TimesOf(key, events, lo)|, |TimesOf(key, events, hi)|)
    decreases hi
  {
    TimesPrefix(key, events, lo, hi);
    if lo < hi {
      TimesPrefix(key, events, hi - 1, hi);
      TimesPrefix(key, events, lo, hi - 1);
      AdmittedByRequests(c, events, key, lo, hi - 1, ts);
      OneMoreEvent(c, events, key, hi - 1, |TimesOf(key, events, lo)|, ts);
    }
  }

  lemma {:induction false} RequestAt(key: string, events: seq<Event>, n: nat, i: nat) returns (j: nat)
    requires n <= |events| && i < |TimesOf(key, events, n)|
    ensures j < n && events[j].Request? && events[j].key == key && |TimesOf(key, events, j)| == i
    ensures events[j].now == TimesOf(key, events, n)[i]
  {
    TimesOfRequest(key, events, n - 1);
    if i < |TimesOf(key, events, n - 1)| {
      j := RequestAt(key, events, n - 1, i);
    } else {
      j := n - 1;
    }
  }

  lemma EventIsRequest(c: Config, events: seq<Event>, j: nat, n: nat)
    requires j <= n < |events| && events[n].Request? && events[j].Request? && events[j].key == events[n].key
    ensures var ts := TimesOf(events[n].key, events, n + 1); var i := |TimesOf(events[n].key, events, j)|;
            && i < |ts| && ts[i] == events[j].now && ts[|ts|-1] == events[n].now
            && |TimesOf(events[n].key, events, n)| == |ts| - 1 && TimesOf(events[n].key, events, n) <= ts
  {
    var key := events[n].key;
    TimesOfRequest(key, events, n);
    TimesOfRequest(key, events, j);
    TimesPrefix(key, events, j + 1, n + 1);
    TimesPrefix(key, events, n, n + 1);
  }

  lemma BudgetSinceEvent(c: Config, events: seq<Event>, j: nat, n: nat)
    requires InForce(c) && RefillsWithinIdle(c) && InOrder(events) && j <= n < |events|
    requires events[n].Request? && events[n].key != "" && events[j].Request? && events[j].key == events[n].key
    ensures var ts := TimesOf(events[n].key, events, n + 1); var i := |TimesOf(events[n].key, events, j)|;
            i < |ts| && (TooManySince(c, events, j, n) <==> OverBudgetSince(c, ts, i, |ts| - 1))
  {
    var key := events[n].key;
    var ts, i := TimesOf(key, events, n + 1), |TimesOf(key, events, j)|;
    EventIsRequest(c, events, j, n);
    AdmittedByRequests(c, events, key, j, n, ts);
    BudgetIs(c, ts[|ts|-1] - ts[i]);
  }

  /** In plain terms: if 15 minutes at rpm requests a minute make up a burst, a request is
      rejected exactly when, since some request of its key, more would have been admitted
      than a burst and rpm requests a minute. */
  lemma RejectedIff(c: Config, events: seq<Event>, n: nat)
    requires InForce(c) && 15 * c.rpm >= c.burst && InOrder(events)
    requires n < |events| && events[n].Request? && events[n].key != ""
    ensures !Admits(c, After(c, events, n), events[n].key, events[n].now)
       <==> exists j: nat :: j <= n && TooManySince(c, events, j, n)
  {
    var key := events[n].key;
    var ts := TimesOf(key, events, n + 1);
    RunAdmission(c, events, n);
    var last := |ts| - 1;
    if i :| 0 <= i <= last && OverBudgetSince(c, ts, i, last) {
      var j := RequestAt(key, events, n + 1, i);
      BudgetSinceEvent(c, events, j, n);
    }
    if j: nat :| j <= n && TooManySince(c, events, j, n) {
      BudgetSinceEvent(c, events, j, n);
    }
  }

  /** Half a token more than what 15 idle minutes refill. */
  function WakeTime(c: Config): (t: real)
    requires InForce(c)
    ensures t > IDLE_SECONDS
  {
    IDLE_SECONDS + 30.0 / c.rpm as real
  }

  lemma WakeCredit(c: Config)
    requires InForce(c)
    ensures Refill(c, WakeTime(c)) == (15 * c.rpm) as real + 0.5
  {
    var e := 30.0 / c.rpm as real;
    assert e * c.rpm as real == 30.0;
    assert Refill(c, e) == 0.5;
    assert Refill(c, IDLE_SECONDS) == (15 * c.rpm) as real;
  }

  /** Spend the burst at time 0, let the janitor evict the bucket, ask again. */
  function DrainAndReturn(c: Config): (events: seq<Event>)
    requires InForce(c)
    ensures |events| == c.burst + 15 * c.rpm + 2
  {
    seq(c.burst + 15 * c.rpm + 2, i =>
      if i < c.burst then Request("k", 0.0)
      else if i == c.burst then Tick(WakeTime(c))
      else Request("k", WakeTime(c)))
  }

  function Spent(c: Config, used: int, at: real): Buckets {
    if used == 0 then map[] else map["k" := Bucket(Cap(c) - used as real, at)]
  }

  lemma SpentAvailable(c: Config, used: int, at: real)
    requires InForce(c) && 0 <= used <= c.burst
    ensures Available(c, Spent(c, used, at), "k", at) == Cap(c) - used as real
  {
    StoredLevel(c, Bucket(Cap(c) - used as real, at), at);
  }

  lemma DrainInOrder(c: Config)
    requires InForce(c)
    ensures InOrder(DrainAndReturn(c))
  {
    var events := DrainAndReturn(c);
    forall i, j | 0 <= i <= j < |events|
      ensures events[i].now <= events[j].now
    {
      assert events[i].now == if i < c.burst then 0.0 else WakeTime(c);
      assert events[j].now == if j < c.burst then 0.0 else WakeTime(c);
    }
  }

  lemma {:induction false} DrainedBuckets(c: Config, n: nat)
    requires InForce(c) && 15 * c.rpm < c.burst && n <= c.burst + 15 * c.rpm + 2
    ensures After(c, DrainAndReturn(c), n)
         == if n <= c.burst then Spent(c, n, 0.0) else Spent(c, n - c.burst - 1, WakeTime(c))
  {
    if n > 0 {
      DrainedBuckets(c, n - 1);
      if n <= c.burst {
        SpentAvailable(c, n - 1, 0.0);
      } else if n > c.burst + 1 {
        SpentAvailable(c, n - c.burst - 2, WakeTime(c));
      }
    }
  }

  lemma {:induction false} DrainTimes(c: Config, n: nat)
    requires InForce(c) && n <= c.burst + 15 * c.rpm + 2
    ensures var ts := TimesOf("k", DrainAndReturn(c), n);
            |ts| == (if n <= c.burst then n else n - 1) &&
            (n > 0 ==> c.burst > 0 ==> ts[0] == 0.0) &&
            (n > c.burst + 1 ==> ts[|ts|-1] == WakeTime(c))
  {
    if n > 0 {
      DrainTimes(c, n - 1);
    }
  }

  lemma {:induction false} TimesGrow(key: string, events: seq<Event>, m: nat, n: nat)
    requires m <= n <= |events|
    ensures TimesOf(key, events, m) <= TimesOf(key, events, n)
  {
    if m < n {
      TimesGrow(key, events, m, n - 1);
    }
  }

  lemma {:induction false} AllAdmitted(cap: real, us: seq<real>, hi: nat)
    requires hi <= |us| && forall i :: 0 <= i < hi ==> Passes(cap, us, i)
    ensures Admitted(cap, us, 0, hi) == hi
  {
    if hi > 0 {
      AllAdmitted(cap, us, hi - 1);
    }
  }

  /** A request that the limiter answers unlike one that never evicts. */
  ghost predicate Disagrees(c: Config, events: seq<Event>, n: nat)
    requires n < |events| && events[n].Request?
  {
    var ts := TimesOf(events[n].key, events, n + 1);
    |ts| > 0 &&
    (Admits(c, After(c, events, n), events[n].key, events[n].now) != Passes(Cap(c), Credits(c, ts), |ts| - 1))
  }

  lemma DrainAdmits(c: Config, n: nat)
    requires InForce(c) && !RefillsWithinIdle(c)
    requires n < |DrainAndReturn(c)| && n != c.burst
    ensures Admits(c, After(c, DrainAndReturn(c), n), "k", DrainAndReturn(c)[n].now)
  {
    DrainedBuckets(c, n);
    if n < c.burst {
      SpentAvailable(c, n, 0.0);
    } else {
      SpentAvailable(c, n - c.burst - 1, WakeTime(c));
    }
  }

  /** Admitting every request of DrainAndReturn would put the whole run over budget. */
  lemma SomeRejected(c: Config, ts: seq<real>) returns (i: nat)
    requires InForce(c) && !RefillsWithinIdle(c)
    requires ts == TimesOf("k", DrainAndReturn(c), |DrainAndReturn(c)|)
    ensures i < |ts| && !Passes(Cap(c), Credits(c, ts), i)
  {
    var us := Credits(c, ts);
    DrainTimes(c, |DrainAndReturn(c)|);
    DrainInOrder(c);
    TimesOrdered("k", DrainAndReturn(c), |DrainAndReturn(c)|);
    i := 0;
    while i < |ts| && Passes(Cap(c), us, i)
      invariant i <= |ts|
      invariant forall k :: 0 <= k < i ==> Passes(Cap(c), us, k)
    {
      i := i + 1;
    }
    if i == |ts| {
      AllAdmitted(Cap(c), us, |us|);
      WindowBound(c, ts, 0, |ts|, 0.0, WakeTime(c));
      WakeCredit(c);
    }
  }

  lemma PassesInPrefix(c: Config, events: seq<Event>, key: string, m: nat, i: nat)
    requires m <= |events| && i < |TimesOf(key, events, m)|
    ensures var ts := TimesOf(key, events, |events|);
            i < |ts| &&
            (Passes(Cap(c), Credits(c, TimesOf(key, events, m)), i) <==> Passes(Cap(c), Credits(c, ts), i))
  {
    TimesGrow(key, events, m, |events|);
    var us, vs := Credits(c, TimesOf(key, events, m)), Credits(c, TimesOf(key, events, |events|));
    assert us <= vs;
    LevelOfPrefix(Cap(c), us, vs, i);
  }

  /** The limiter admits more than the window of DrainAndReturn allows. */
  lemma EvictionVisible(c: Config) returns (n: nat)
    requires InForce(c) && !RefillsWithinIdle(c)
    ensures InOrder(DrainAndReturn(c)) && n < |DrainAndReturn(c)|
    ensures DrainAndReturn(c)[n].Request? && DrainAndReturn(c)[n].key != ""
    ensures Disagrees(c, DrainAndReturn(c), n)
  {
    var events := DrainAndReturn(c);
    var ts := TimesOf("k", events, |events|);
    var i := SomeRejected(c, ts);
    DrainInOrder(c);
    DrainTimes(c, |events|);
    n := if i < c.burst then i else i + 1;
    DrainTimes(c, n + 1);
    PassesInPrefix(c, events, "k", n + 1, i);
    DrainAdmits(c, n);
  }

  /** Eviction is invisible in every run exactly when 15 idle minutes refill a burst. */
  lemma EvictionInvisibleIff(c: Config)
    requires InForce(c)
    ensures RefillsWithinIdle(c) <==>
            forall events: seq<Event>, n: nat ::
              InOrder(events) && n < |events| && events[n].Request? && events[n].key != ""
              ==> !Disagrees(c, events, n)
  {
    if RefillsWithinIdle(c) {
      forall events: seq<Event>, n: nat |
        InOrder(events) && n < |events| && events[n].Request? && events[n].key != ""
        ensures !Disagrees(c, events, n)
      {
        EvictionIsInvisible(c, events, n);
      }
    } else {
      var n := EvictionVisible(c);
    }
  }
}
