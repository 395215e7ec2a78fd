/** The device cap: Register of internal/devices/service.go over the queries of
    sql/queries/device_tokens.sql. A token belongs to one row; times are whole seconds. */
module Devices {

  type Account = string   // a user of a tenant

  const MAX_ACTIVE_DEVICES := 2
  const THIRTY_DAYS := 2592000

  datatype Row = Row(account: Account, seen: int)

  type Table = map<string, Row>

  function Mine(rows: Table, account: Account): set<string> {
    set t | t in rows && rows[t].account == account
  }

  /** CountActiveDevicesForUser counts these. */
  function Active(rows: Table, account: Account, now: int): set<string> {
    set t | t in rows && rows[t].account == account && rows[t].seen > now - THIRTY_DAYS
  }

  /** EvictOldestDeviceForUser may delete this row: stale rows are candidates too. */
  predicate IsOldest(rows: Table, account: Account, token: string) {
    token in Mine(rows, account) && forall u :: u in Mine(rows, account) ==> rows[token].seen <= rows[u].seen
  }

  predicate IsNewest(rows: Table, account: Account, token: string) {
    token in Mine(rows, account) && forall u :: u in Mine(rows, account) ==> rows[u].seen <= rows[token].seen
  }

  function Without(rows: Table, token: string): Table {
    map t | t in rows && t != token :: rows[t]
  }

  lemma {:induction false} OldestExists(rows: Table, account: Account, among: set<string>) returns (oldest: string)
    requires among != {} && among <= Mine(rows, account)
    ensures oldest in among && forall u :: u in among ==> rows[oldest].seen <= rows[u].seen
  {
    var t :| t in among;
    if among == {t} {
      return t;
    }
    var other := OldestExists(rows, account, among - {t});
    oldest := if rows[t].seen <= rows[other].seen then t else other;
    forall u | u in among ensures rows[oldest].seen <= rows[u].seen {
      assert u == t || u in among - {t};
    }
  }

  lemma ActiveAreMine(rows: Table, account: Account, now: int)
    ensures Active(rows, account, now) <= Mine(rows, account)
    ensures |Active(rows, account, now)| <= |Mine(rows, account)|
  {
    Smaller(Active(rows, account, now), Mine(rows, account));
  }

  lemma {:induction false} Smaller(x: set, y: set)
    requires x <= y
    ensures |x| <= |y|
  {
    assert |y| == |x| + |y - x| by {
      assert y == x + (y - x);
    }
  }

  // ----- One registration -----

  /** Which of the queries fail, by turn of the loop. */
  datatype Faults = Faults(count: set<nat>, evict: set<nat>, upsert: bool)

  predicate Clean(f: Faults) {
    f.count == {} && f.evict == {} && !f.upsert
  }

  /** Rows were only deleted, all of one account, and none that is newer than one kept. */
  ghost predicate Trimmed(was: Table, rows: Table, account: Account) {
    && (forall t :: t in rows ==> t in was && rows[t] == was[t])
    && (forall t :: t in was && was[t].account != account ==> t in rows)
    && (forall t, u :: t in Mine(was, account) && t !in rows && u in Mine(rows, account) ==>
          was[t].seen <= rows[u].seen)
  }

  function Only(rows: Table, account: Account, keep: string): Table {
    map t | t in rows && (rows[t].account != account || t == keep) :: rows[t]
  }

  /** An account below the cap keeps every row; at or over the cap it keeps one newest row,
      and nothing else, beside the token that registers. */
  ghost predicate Registered(was: Table, rows: Table, account: Account, token: string, now: int) {
    if |Active(was, account, now)| < MAX_ACTIVE_DEVICES then rows == was[token := Row(account, now)]
    else exists keep :: IsNewest(was, account, keep) && rows == Only(was, account, keep)[token := Row(account, now)]
  }

  /** Between evictions the account is still at the cap or down to its last row. */
  ghost predicate Partway(was: Table, rows: Table, account: Account, now: int) {
    && Trimmed(was, rows, account)
    && (rows == was ||
        (&& |Active(was, account, now)| >= MAX_ACTIVE_DEVICES
         && (|Active(rows, account, now)| >= MAX_ACTIVE_DEVICES || |Mine(rows, account)| == 1)))
  }

  lemma EvictionStep(was: Table, rows: Table, account: Account, now: int, victim: string)
    requires Partway(was, rows, account, now) && IsOldest(rows, account, victim)
    requires |Active(rows, account, now)| >= MAX_ACTIVE_DEVICES
    ensures Partway(was, Without(rows, victim), account, now)
    ensures |Without(rows, victim)| < |rows|
  {
    var left := Without(rows, victim);
    assert left.Keys == rows.Keys - {victim};
    assert |left| == |left.Keys| && |rows| == |rows.Keys|;
    assert Mine(left, account) == Mine(rows, account) - {victim};
    forall t, u | t in Mine(was, account) && t !in left && u in Mine(left, account)
      ensures was[t].seen <= left[u].seen
    {
      assert u in Mine(rows, account);
      if t in rows {
        assert t == victim;
      }
    }
    if victim in Active(rows, account, now) {
      assert Active(rows, account, now) == Mine(rows, account);
      assert Active(left, account, now) == Mine(left, account);
    } else {
      assert Active(left, account, now) == Active(rows, account, now);
    }
  }

  lemma OneLeft(was: Table, rows: Table, account: Account) returns (keep: string)
    requires Trimmed(was, rows, account) && |Mine(rows, account)| == 1
    ensures IsNewest(was, account, keep) && rows == Only(was, account, keep)
  {
    keep :| keep in Mine(rows, account);
    assert Mine(rows, account) == {keep} by {
      assert |Mine(rows, account) - {keep}| == 0;
    }
    forall t | t in was && (was[t].account != account || t == keep) ensures t in rows {}
    forall t | t in rows ensures was[t].account != account || t == keep {
      assert rows[t].account == account ==> t in Mine(rows, account);
    }
    assert rows.Keys == Only(was, account, keep).Keys;
    forall u | u in Mine(was, account) ensures was[u].seen <= was[keep].seen {
      if u in rows {
        assert u in Mine(rows, account);
      }
    }
  }

  lemma Finished(was: Table, left: Table, account: Account, token: string, now: int)
    requires Partway(was, left, account, now) && |Active(left, account, now)| < MAX_ACTIVE_DEVICES
    ensures Registered(was, left[token := Row(account, now)], account, token, now)
  {
    if |Active(was, account, now)| >= MAX_ACTIVE_DEVICES {
      var keep := OneLeft(was, left, account);
      assert IsNewest(was, account, keep) && left == Only(was, account, keep);
    }
  }

  class Service {
    var rows: Table

    constructor ()
      ensures rows == map[]
    {
      rows := map[];
    }

    method EvictOldestDeviceForUser(account: Account)
      modifies this
      ensures Mine(old(rows), account) == {} ==> rows == old(rows)
      ensures Mine(old(rows), account) != {} ==>
                exists victim :: IsOldest(old(rows), account, victim) && rows == old(rows) - {victim}
    {
      var mine := Mine(rows, account);
      if mine == {} {
        return;
      }
      ghost var some := OldestExists(rows, account, mine);
      var victim :| victim in mine && forall u :: u in mine ==> rows[victim].seen <= rows[u].seen;
      assert IsOldest(rows, account, victim);
      rows := rows - {victim};
    }

    method Register(account: Account, token: string, now: int, faults: Faults) returns (err: bool)
      modifies this
      ensures err == faults.upsert
      ensures !err ==> token in rows && rows[token] == Row(account, now)
      ensures exists left ::
                && Trimmed(old(rows), left, account)
                && rows == if err then left else left[token := Row(account, now)]
      ensures Clean(faults) ==> Registered(old(rows), rows, account, token, now)
    {
      ghost var was := rows;
      var turn := 0;
      while true
        invariant Partway(was, rows, account, now)
        decreases |rows|
      {
        var n := |Active(rows, account, now)|;
        if turn in faults.count || n < MAX_ACTIVE_DEVICES {
          break;
        }
        ActiveAreMine(rows, account, now);
        if turn in faults.evict {
          break;
        }
        ghost var before := rows;
        EvictOldestDeviceForUser(account);
        ghost var victim :| IsOldest(before, account, victim) && rows == before - {victim};
        assert rows == Without(before, victim);
        EvictionStep(was, before, account, now, victim);
        turn := turn + 1;
      }
      ghost var left := rows;
      if Clean(faults) {
        Finished(was, left, account, token, now);
      }
      if !faults.upsert {
        rows := rows[token := Row(account, now)];
      }
      err := faults.upsert;
    }
  }

  /** The account's tokens seen in the last 30 days. */
  function RecentOf(rows: Table, account: Account, now: int): set<string> {
    set t | t in rows && rows[t].account == account && rows[t].seen > now - 30 * 24 * 60 * 60
  }

  lemma ActiveIsRecent(rows: Table, account: Account, now: int)
    ensures Active(rows, account, now) == RecentOf(rows, account, now)
  {
  }

  /** What Register does to the table: with fewer than two recent tokens it only adds or
      refreshes its own; otherwise the account keeps one of its rows, the latest seen, beside
      that, and all other accounts keep theirs. */
  lemma RegisteredIs(was: Table, rows: Table, account: Account, token: string, now: int)
    requires Registered(was, rows, account, token, now)
    ensures token in rows && rows[token].account == account && rows[token].seen == now
    ensures forall t :: t != token && t in rows ==> t in was && rows[t] == was[t]
    ensures forall t :: t != token && t in was && was[t].account != account ==> t in rows
    ensures |RecentOf(was, account, now)| < 2 ==> forall t :: t in was ==> t in rows
    ensures |RecentOf(was, account, now)| >= 2 ==>
              exists keep :: Kept(was, rows, account, token, keep)
  {
    ActiveIsRecent(was, account, now);
    if |Active(was, account, now)| >= MAX_ACTIVE_DEVICES {
      var keep :| IsNewest(was, account, keep) && rows == Only(was, account, keep)[token := Row(account, now)];
      assert Kept(was, rows, account, token, keep);
    }
  }

  ghost predicate Kept(was: Table, rows: Table, account: Account, token: string, keep: string) {
    && keep in was && was[keep].account == account && keep in rows
    && (forall t :: t in was && was[t].account == account ==> was[t].seen <= was[keep].seen)
    && (forall t :: t in rows && rows[t].account == account ==> t == keep || t == token)
  }

  /** Serial use never exceeds the cap, and the registering token is active afterwards. */
  lemma SerialCap(was: Table, rows: Table, account: Account, token: string, now: int)
    requires Registered(was, rows, account, token, now)
    ensures token in RecentOf(rows, account, now)
    ensures |RecentOf(rows, account, now)| <= 2
    ensures forall other, t :: other != account && t != token ==> (t in Mine(rows, other) <==> t in Mine(was, other))
  {
    ActiveIsRecent(rows, account, now);
    var active := Active(rows, account, now);
    if |Active(was, account, now)| < MAX_ACTIVE_DEVICES {
      assert active == Active(was, account, now) + {token};
    } else {
      var keep :| IsNewest(was, account, keep) && rows == Only(was, account, keep)[token := Row(account, now)];
      assert active <= {keep, token};
      Smaller(active, {keep, token});
    }
  }

  predicate OnlyNewest(rows: Table, account: Account, token: string) {
    token in Mine(rows, account) &&
    forall u :: u in Mine(rows, account) && u != token ==> rows[u].seen < rows[token].seen
  }

  ghost predicate DistinctTimes(rows: Table, account: Account) {
    forall t, u :: t in Mine(rows, account) && u in Mine(rows, account) && rows[t].seen == rows[u].seen ==> t == u
  }

  /** Who survives another device's registration: below the cap everybody; at the cap only
      a newest, and for certain one that is newer than all the others. So a launch on the
      newest device itself evicts all the others, although it adds no device. */
  lemma SurvivesIff(was: Table, rows: Table, account: Account, token: string, now: int, other: string)
    requires Registered(was, rows, account, token, now) && other in Mine(was, account) && other != token
    ensures other in Mine(rows, account) ==>
              |Active(was, account, now)| < MAX_ACTIVE_DEVICES || IsNewest(was, account, other)
    ensures |Active(was, account, now)| < MAX_ACTIVE_DEVICES || OnlyNewest(was, account, other) ==>
              other in Mine(rows, account)
    ensures DistinctTimes(was, account) ==>
              (other in Mine(rows, account) <==>
               |Active(was, account, now)| < MAX_ACTIVE_DEVICES || IsNewest(was, account, other))
    ensures OnlyNewest(was, account, token) && |Active(was, account, now)| >= MAX_ACTIVE_DEVICES ==>
              Mine(rows, account) == {token}
  {
    if |Active(was, account, now)| >= MAX_ACTIVE_DEVICES {
      var keep :| IsNewest(was, account, keep) && rows == Only(was, account, keep)[token := Row(account, now)];
      assert OnlyNewest(was, account, other) ==> keep == other;
      if OnlyNewest(was, account, token) {
        assert keep == token;
        assert forall t :: t in Mine(rows, account) ==> t == token;
        assert token in Mine(rows, account);
      }
    }
  }

  // ----- Overlapping registrations -----

  datatype Pc = Counting | Evicting | Upserting

  datatype Call = Call(account: Account, token: string, pc: Pc)

  datatype State = State(rows: Table, calls: map<nat, Call>, now: int, errors: nat)

  datatype Action =
    | Begin(id: nat, account: Account, token: string)
    | Count(id: nat, fails: bool)
    | Evict(id: nat, victim: string, fails: bool)
    | Upsert(id: nat, fails: bool)
    | Unregister(token: string)
    | Tick(now: int)

  function To(s: State, id: nat, pc: Pc): State
    requires id in s.calls
  {
    s.(calls := s.calls[id := s.calls[id].(pc := pc)])
  }

  predicate At(s: State, id: nat, pc: Pc) {
    id in s.calls && s.calls[id].pc == pc
  }

  function Step(s: State, a: Action): State {
    match a
    case Begin(id, account, token) =>
      if id in s.calls then s else s.(calls := s.calls[id := Call(account, token, Counting)])
    case Count(id, fails) =>
      if !At(s, id, Counting) then s
      else if fails then To(s, id, Upserting).(errors := s.errors + 1)
      else if |Active(s.rows, s.calls[id].account, s.now)| < MAX_ACTIVE_DEVICES then To(s, id, Upserting)
      else To(s, id, Evicting)
    case Evict(id, victim, fails) =>
      if !At(s, id, Evicting) then s
      else if fails then To(s, id, Upserting).(errors := s.errors + 1)
      else if IsOldest(s.rows, s.calls[id].account, victim) then To(s, id, Counting).(rows := Without(s.rows, victim))
      else if Mine(s.rows, s.calls[id].account) == {} then To(s, id, Counting)
      else s
    case Upsert(id, fails) =>
      if !At(s, id, Upserting) then s
      else
        var call := s.calls[id];
        s.(calls := s.calls - {id},
           rows := if fails then s.rows else s.rows[call.token := Row(call.account, s.now)])
    case Unregister(token) => s.(rows := Without(s.rows, token))
    case Tick(now) => if now < s.now then s else s.(now := now)
  }

  function After(run: seq<Action>): State {
    if run == [] then State(map[], map[], 0, 0) else Step(After(run[..|run|-1]), run[|run|-1])
  }

  function InFlight(s: State, account: Account): set<nat> {
    set i | i in s.calls && s.calls[i].account == account
  }

  function Pending(s: State, account: Account): set<nat> {
    set i | i in s.calls && s.calls[i].account == account && s.calls[i].pc == Upserting
  }

  predicate Capped(s: State, account: Account, k: nat) {
    |Active(s.rows, account, s.now)| + |Pending(s, account)| <= MAX_ACTIVE_DEVICES - 1 + k + s.errors
  }

  lemma OneMore<T>(x: set<T>, y: set<T>, e: T)
    requires x <= y + {e}
    ensures |x| <= |y| + 1
  {
    Smaller(x, y + {e});
  }

  /** A count that found room brings the sum of active devices and pending upserts to the
      bound at most, with every call in flight pending. */
  lemma CountCapped(s: State, id: nat, fails: bool, account: Account, k: nat)
    requires Capped(s, account, k) && |InFlight(s, account)| <= k && At(s, id, Counting)
    ensures Capped(Step(s, Count(id, fails)), account, k)
  {
    var pending, pending' := Pending(s, account), Pending(Step(s, Count(id, fails)), account);
    if fails {
      OneMore(pending', pending, id);
    } else if s.calls[id].account == account && |Active(s.rows, account, s.now)| < MAX_ACTIVE_DEVICES {
      Smaller(pending', InFlight(s, account));
    } else {
      Smaller(pending', pending);
    }
  }

  lemma EvictCapped(s: State, id: nat, victim: string, fails: bool, account: Account, k: nat)
    requires Capped(s, account, k) && At(s, id, Evicting)
    ensures Capped(Step(s, Evict(id, victim, fails)), account, k)
  {
    var r := Step(s, Evict(id, victim, fails));
    if fails {
      OneMore(Pending(r, account), Pending(s, account), id);
    } else {
      Smaller(Pending(r, account), Pending(s, account));
    }
    Smaller(Active(r.rows, account, r.now), Active(s.rows, account, s.now));
  }

  /** An upsert turns a pending call into at most one active device. */
  lemma UpsertCapped(s: State, id: nat, fails: bool, account: Account, k: nat)
    requires Capped(s, account, k) && At(s, id, Upserting)
    ensures Capped(Step(s, Upsert(id, fails)), account, k)
  {
    UpsertPending(s, id, fails, account);
    UpsertActive(s, id, fails, account);
  }

  lemma UpsertPending(s: State, id: nat, fails: bool, account: Account)
    requires At(s, id, Upserting)
    ensures |Pending(Step(s, Upsert(id, fails)), account)|
         == |Pending(s, account)| - if s.calls[id].account == account then 1 else 0
  {
    var r := Step(s, Upsert(id, fails));
    if s.calls[id].account == account {
      assert Pending(r, account) == Pending(s, account) - {id};
    } else {
      assert Pending(r, account) == Pending(s, account);
    }
  }

  lemma UpsertActive(s: State, id: nat, fails: bool, account: Account)
    requires At(s, id, Upserting)
    ensures |Active(Step(s, Upsert(id, fails)).rows, account, s.now)|
         <= |Active(s.rows, account, s.now)| + if s.calls[id].account == account then 1 else 0
  {
    var active, active' := Active(s.rows, account, s.now), Active(Step(s, Upsert(id, fails)).rows, account, s.now);
    if s.calls[id].account == account {
      OneMore(active', active, s.calls[id].token);
    } else {
      Smaller(active', active);
    }
  }

  lemma OtherCapped(s: State, a: Action, account: Account, k: nat)
    requires Capped(s, account, k) && (a.Begin? || a.Unregister? || a.Tick?)
    ensures Capped(Step(s, a), account, k)
  {
    assert Pending(Step(s, a), account) == Pending(s, account);
    Smaller(Active(Step(s, a).rows, account, Step(s, a).now), Active(s.rows, account, s.now));
  }

  lemma StepCapped(s: State, a: Action, account: Account, k: nat)
    requires Capped(s, account, k) && |InFlight(s, account)| <= k
    ensures Capped(Step(s, a), account, k)
  {
    match a
    case Count(id, fails) => if At(s, id, Counting) { CountCapped(s, id, fails, account, k); }
    case Evict(id, victim, fails) => if At(s, id, Evicting) { EvictCapped(s, id, victim, fails, account, k); }
    case Upsert(id, fails) => if At(s, id, Upserting) { UpsertCapped(s, id, fails, account, k); }
    case _ => OtherCapped(s, a, account, k);
  }

  ghost predicate AtMostInFlight(run: seq<Action>, account: Account, k: nat) {
    forall n :: 0 <= n <= |run| ==> |InFlight(After(run[..n]), account)| <= k
  }

  /** The cap under races: while at most k registrations of an account overlap, its active
      devices never exceed MAX_ACTIVE_DEVICES - 1 + k, and each query that failed can add one
      to that. */
  lemma {:induction false} RunCapped(run: seq<Action>, account: Account, k: nat)
    requires AtMostInFlight(run, account, k)
    ensures Capped(After(run), account, k)
    ensures |RecentOf(After(run).rows, account, After(run).now)| <= 1 + k + After(run).errors
  {
    ActiveIsRecent(After(run).rows, account, After(run).now);
    if run == [] {
      assert Active(map[], account, 0) == {};
      assert Pending(After(run), account) == {};
    } else {
      var front := run[..|run|-1];
      assert forall n :: 0 <= n <= |front| ==> front[..n] == run[..n];
      RunCapped(front, account, k);
      assert front[..|front|] == front;
      StepCapped(After(front), run[|run|-1], account, k);
    }
  }

  // ----- One registration on its own -----

  ghost predicate Own(a: Action, id: nat) {
    || (a.Count? && a.id == id && !a.fails)
    || (a.Evict? && a.id == id && !a.fails)
    || (a.Upsert? && a.id == id && !a.fails)
  }

  function Continue(s: State, acts: seq<Action>): State {
    if acts == [] then s else Step(Continue(s, acts[..|acts|-1]), acts[|acts|-1])
  }

  /** How far call `id`, begun in table `was`, has come. */
  ghost predicate Solo(was: Table, s: State, id: nat, call: Call, now: int) {
    && s.now == now
    && (id in s.calls ==>
          && s.calls[id].account == call.account && s.calls[id].token == call.token
          && Partway(was, s.rows, call.account, now)
          && (s.calls[id].pc == Evicting ==> |Active(s.rows, call.account, now)| >= MAX_ACTIVE_DEVICES)
          && (s.calls[id].pc == Upserting ==> |Active(s.rows, call.account, now)| < MAX_ACTIVE_DEVICES))
    && (id !in s.calls ==> Registered(was, s.rows, call.account, call.token, now))
  }

  lemma SoloStep(was: Table, s: State, id: nat, call: Call, now: int, a: Action)
    requires Solo(was, s, id, call, now) && Own(a, id)
    ensures Solo(was, Step(s, a), id, call, now)
  {
    if a.Evict? && At(s, id, Evicting) {
      ActiveAreMine(s.rows, call.account, now);
      if IsOldest(s.rows, call.account, a.victim) {
        EvictionStep(was, s.rows, call.account, now, a.victim);
      }
    } else if a.Upsert? && At(s, id, Upserting) {
      Finished(was, s.rows, call.account, call.token, now);
    }
  }

  /** A call of the machine that nothing overlaps does what Register does. */
  lemma {:induction false} SoloRun(s: State, id: nat, acts: seq<Action>)
    requires At(s, id, Counting) && forall a :: a in acts ==> Own(a, id)
    requires id !in Continue(s, acts).calls
    ensures Registered(s.rows, Continue(s, acts).rows, s.calls[id].account, s.calls[id].token, s.now)
  {
    SoloSoFar(s, id, acts);
  }

  lemma {:induction false} SoloSoFar(s: State, id: nat, acts: seq<Action>)
    requires At(s, id, Counting) && forall a :: a in acts ==> Own(a, id)
    ensures Solo(s.rows, Continue(s, acts), id, s.calls[id], s.now)
  {
    if acts != [] {
      var front, a := acts[..|acts|-1], acts[|acts|-1];
      assert a in acts && forall b :: b in front ==> b in acts;
      SoloSoFar(s, id, front);
      SoloStep(s.rows, Continue(s, front), id, s.calls[id], s.now, a);
    }
  }

  // ----- The bound is reached -----

  function Name(i: nat): (name: string)
    ensures |name| == i
  {
    seq(i, j => 'x')
  }

  /** A call that has found room. */
  function Queued(account: Account, i: nat): Call {
    Call(account, Name(i + 1), Upserting)
  }

  /** One device, and `n` calls that all found room for themselves. */
  function Opened(account: Account, n: nat): State {
    State(map[Name(0) := Row(account, 0)], map i | 0 <= i < n :: Queued(account, i), 0, 0)
  }

  /** The first n names, all just registered. */
  function Fresh(account: Account, n: nat): Table {
    if n == 0 then map[] else Fresh(account, n - 1)[Name(n - 1) := Row(account, 0)]
  }

  /** The same after the calls below `m` have upserted. */
  function Closed(account: Account, m: nat, n: nat): State {
    State(Fresh(account, m + 1), map i | m <= i < n :: Queued(account, i), 0, 0)
  }

  lemma {:induction false} AllActive(account: Account, n: nat)
    ensures |Active(Fresh(account, n), account, 0)| == n
    ensures forall name :: name in Fresh(account, n) ==> |name| < n
  {
    if n == 0 {
      assert Active(Fresh(account, n), account, 0) == {};
    } else {
      AllActive(account, n - 1);
      assert Active(Fresh(account, n), account, 0) == Active(Fresh(account, n - 1), account, 0) + {Name(n - 1)};
    }
  }

  ghost predicate Reaches(run: seq<Action>, s: State, account: Account, k: nat) {
    After(run) == s && AtMostInFlight(run, account, k)
  }

  lemma Extend(run: seq<Action>, s: State, a: Action, account: Account, k: nat)
    requires Reaches(run, s, account, k) && |InFlight(Step(s, a), account)| <= k
    ensures Reaches(run + [a], Step(s, a), account, k)
  {
    var more := run + [a];
    assert more[..|run|] == run;
    forall n | 0 <= n <= |more| ensures |InFlight(After(more[..n]), account)| <= k {
      if n == |more| {
        assert more[..n] == more;
      } else {
        assert more[..n] == run[..n];
      }
    }
  }

  lemma {:induction false} FirstN(s: set<nat>, n: nat)
    requires forall i :: i in s ==> i < n
    ensures |s| <= n
  {
    if n > 0 {
      FirstN(s - {n - 1}, n - 1);
      OneMore(s, s - {n - 1}, n - 1);
    }
  }

  lemma FewInFlight(s: State, account: Account, k: nat)
    requires forall i :: i in s.calls ==> i < k
    ensures |InFlight(s, account)| <= k
  {
    FirstN(InFlight(s, account), k);
  }

  lemma FirstDevice(account: Account, k: nat) returns (run: seq<Action>)
    requires k >= 1
    ensures Reaches(run, Opened(account, 0), account, k)
  {
    run := [];
    var s := After(run);
    FewInFlight(s, account, k);
    assert Reaches(run, s, account, k);
    assert Active(s.rows, account, 0) == {};
    var one := Begin(0, account, Name(0));
    FewInFlight(Step(s, one), account, k);
    Extend(run, s, one, account, k);
    var two := Count(0, false);
    FewInFlight(Step(Step(s, one), two), account, k);
    Extend(run + [one], Step(s, one), two, account, k);
    var three := Upsert(0, false);
    FewInFlight(Step(Step(Step(s, one), two), three), account, k);
    Extend(run + [one] + [two], Step(Step(s, one), two), three, account, k);
    run := run + [one] + [two] + [three];
    assert After(run) == Opened(account, 0);
  }

  lemma OpenStep(account: Account, n: nat)
    ensures Step(Step(Opened(account, n), Begin(n, account, Name(n + 1))), Count(n, false)) == Opened(account, n + 1)
  {
    var s := Opened(account, n);
    assert Active(s.rows, account, 0) == {Name(0)};
    assert Opened(account, n + 1).calls == s.calls[n := Queued(account, n)];
  }

  lemma OpenNext(account: Account, n: nat, k: nat, run: seq<Action>) returns (more: seq<Action>)
    requires n < k && Reaches(run, Opened(account, n), account, k)
    ensures Reaches(more, Opened(account, n + 1), account, k)
  {
    var s, one, two := Opened(account, n), Begin(n, account, Name(n + 1)), Count(n, false);
    OpenStep(account, n);
    FewInFlight(Step(s, one), account, k);
    Extend(run, s, one, account, k);
    FewInFlight(Opened(account, n + 1), account, k);
    Extend(run + [one], Step(s, one), two, account, k);
    more := run + [one] + [two];
  }

  lemma {:induction false} OpenAll(account: Account, n: nat, k: nat) returns (run: seq<Action>)
    requires n <= k && k >= 1
    ensures Reaches(run, Opened(account, n), account, k)
  {
    if n == 0 {
      run := FirstDevice(account, k);
    } else {
      run := OpenAll(account, n - 1, k);
      run := OpenNext(account, n - 1, k, run);
    }
  }

  lemma CloseStep(account: Account, m: nat, k: nat)
    requires 1 <= m <= k
    ensures Step(Closed(account, m - 1, k), Upsert(m - 1, false)) == Closed(account, m, k)
  {
    var s := Closed(account, m - 1, k);
    assert s.calls[m - 1] == Queued(account, m - 1);
    UpsertIs(s, m - 1);
    CloseCalls(account, m, k);
  }

  lemma UpsertIs(s: State, id: nat)
    requires At(s, id, Upserting)
    ensures Step(s, Upsert(id, false))
         == State(s.rows[s.calls[id].token := Row(s.calls[id].account, s.now)],
                  s.calls - {id}, s.now, s.errors)
  {
  }

  lemma CloseCalls(account: Account, m: nat, k: nat)
    requires 1 <= m <= k
    ensures var calls := Closed(account, m - 1, k).calls;
            Closed(account, m, k).calls == calls - {m - 1}
  {
  }

  lemma NoneClosed(account: Account, n: nat)
    ensures Opened(account, n) == Closed(account, 0, n)
  {
    assert Fresh(account, 1) == Fresh(account, 0)[Name(0) := Row(account, 0)];
  }

  lemma CloseNext(account: Account, m: nat, k: nat, run: seq<Action>) returns (more: seq<Action>)
    requires 1 <= m <= k && Reaches(run, Closed(account, m - 1, k), account, k)
    ensures Reaches(more, Closed(account, m, k), account, k)
  {
    CloseStep(account, m, k);
    FewInFlight(Closed(account, m, k), account, k);
    Extend(run, Closed(account, m - 1, k), Upsert(m - 1, false), account, k);
    more := run + [Upsert(m - 1, false)];
  }

  lemma {:induction false} CloseAll(account: Account, m: nat, k: nat) returns (run: seq<Action>)
    requires m <= k && k >= 1
    ensures Reaches(run, Closed(account, m, k), account, k)
  {
    if m == 0 {
      NoneClosed(account, k);
      run := OpenAll(account, k, k);
    } else {
      run := CloseAll(account, m - 1, k);
      run := CloseNext(account, m, k, run);
    }
  }

  /** Nobody in flight, n active devices, e failed queries. */
  function Quiet(account: Account, n: nat, e: nat): State {
    State(Fresh(account, n), map[], 0, e)
  }

  lemma FailedCountSteps(account: Account, n: nat, e: nat)
    ensures var s := Quiet(account, n, e);
            var s1 := Step(s, Begin(0, account, Name(n))); var s2 := Step(s1, Count(0, true));
            && s1 == s.(calls := map[0 := Call(account, Name(n), Counting)])
            && s2 == s.(calls := map[0 := Call(account, Name(n), Upserting)], errors := e + 1)
            && Step(s2, Upsert(0, false)) == Quiet(account, n + 1, e + 1)
  {
    var s := Quiet(account, n, e);
    var s2 := s.(calls := map[0 := Call(account, Name(n), Upserting)], errors := e + 1);
    UpsertIs(s2, 0);
    assert s2.calls - {0} == map[];
  }

  /** A registration whose count fails adds a device whatever the cap. */
  lemma FailedCount(account: Account, n: nat, e: nat, k: nat, run: seq<Action>) returns (more: seq<Action>)
    requires k >= 1 && Reaches(run, Quiet(account, n, e), account, k)
    ensures Reaches(more, Quiet(account, n + 1, e + 1), account, k)
  {
    var s, one, two, three := Quiet(account, n, e), Begin(0, account, Name(n)), Count(0, true), Upsert(0, false);
    FailedCountSteps(account, n, e);
    var s1 := Step(s, one);
    var s2 := Step(s1, two);
    FewInFlight(s1, account, k);
    Extend(run, s, one, account, k);
    FewInFlight(s2, account, k);
    Extend(run + [one], s1, two, account, k);
    FewInFlight(Quiet(account, n + 1, e + 1), account, k);
    Extend(run + [one] + [two], s2, three, account, k);
    more := run + [one] + [two] + [three];
  }

  lemma {:induction false} FailedCounts(account: Account, e: nat, k: nat) returns (run: seq<Action>)
    requires k >= 1
    ensures Reaches(run, Quiet(account, k + 1 + e, e), account, k)
  {
    if e == 0 {
      run := CloseAll(account, k, k);
      assert Closed(account, k, k) == Quiet(account, k + 1, 0);
    } else {
      run := FailedCounts(account, e - 1, k);
      run := FailedCount(account, k + e, e - 1, k, run);
    }
  }

  /** The bound is tight: with k overlapping registrations and e failed queries an account
      can end with exactly MAX_ACTIVE_DEVICES - 1 + k + e active devices. */
  lemma BoundReached(account: Account, k: nat, e: nat) returns (run: seq<Action>)
    requires k >= 1
    ensures AtMostInFlight(run, account, k) && After(run).errors == e
    ensures |RecentOf(After(run).rows, account, After(run).now)| == 1 + k + e
  {
    run := FailedCounts(account, e, k);
    AllActive(account, k + 1 + e);
    ActiveIsRecent(After(run).rows, account, After(run).now);
  }
}
