/** Sending one notification to many device tokens: Send of internal/push/fcm.go, as a
    machine whose processes are the dispatching loop and one goroutine per token. A step of
    the machine is one access to the shared semaphore, wait group, mutex or counters.
    The outcome of the request for each token is an arbitrary input. */
module FanOut {
  import opened Wrappers

  /** Where a token's goroutine stands. */
  datatype Pc =
    | Unborn
    | Sending
    | Wanting                // its request failed; it waits for the mutex
    | Reading
    | Writing(seen: nat)     // failed++ has read `seen`
    | Naming                 // about to set lastErr
    | Unlocking
    | Leaving                // about to give its slot back
    | Signing                // about to call wg.Done
    | Gone

  /** Where the loop over the tokens stands. */
  datatype Dispatch = Adding | Acquiring | Spawning | Waiting | Returned

  datatype State = State(
    dispatch: Dispatch, next: nat, wg: int, slots: int, mutex: Option<nat>,
    failed: nat, lastErr: Option<nat>, workers: seq<Pc>, requests: seq<nat>)

  datatype Actor = Dispatcher | Worker(i: nat)

  function Limit(configured: int): (limit: nat)
    ensures limit >= 1
    ensures configured > 0 ==> limit == configured
    ensures configured <= 0 ==> limit == 20
  {
    if configured <= 0 then 20 else configured
  }

  function Init(n: nat): State {
    State(if n == 0 then Returned else Adding, 0, 0, 0, None, 0, None, seq(n, i => Unborn), seq(n, i => 0))
  }

  predicate Enabled(limit: nat, s: State, who: Actor) {
    match who
    case Dispatcher =>
      (match s.dispatch
       case Adding => true
       case Acquiring => s.slots < limit
       case Spawning => s.next < |s.workers|
       case Waiting => s.wg == 0
       case Returned => false)
    case Worker(i) =>
      && i < |s.workers| == |s.requests|
      && !s.workers[i].Unborn? && !s.workers[i].Gone?
      && (s.workers[i].Wanting? ==> s.mutex.None?)
  }

  function WorkerStep(fails: seq<bool>, s: State, i: nat): (r: State)
    requires i < |s.workers| == |s.requests| == |fails|
    ensures |r.workers| == |r.requests| == |fails|
  {
    match s.workers[i]
    case Unborn => s
    case Sending =>
      s.(requests := s.requests[i := s.requests[i] + 1],
         workers := s.workers[i := if fails[i] then Wanting else Leaving])
    case Wanting => s.(mutex := Some(i), workers := s.workers[i := Reading])
    case Reading => s.(workers := s.workers[i := Writing(s.failed)])
    case Writing(seen) => s.(failed := seen + 1, workers := s.workers[i := Naming])
    case Naming => s.(lastErr := Some(i), workers := s.workers[i := Unlocking])
    case Unlocking => s.(mutex := None, workers := s.workers[i := Leaving])
    case Leaving => s.(slots := s.slots - 1, workers := s.workers[i := Signing])
    case Signing => s.(wg := s.wg - 1, workers := s.workers[i := Gone])
    case Gone => s
  }

  function Step(limit: nat, fails: seq<bool>, s: State, who: Actor): (r: State)
    requires |s.workers| == |s.requests| == |fails|
    ensures |r.workers| == |r.requests| == |fails|
  {
    if !Enabled(limit, s, who) then s else
    match who
    case Worker(i) => WorkerStep(fails, s, i)
    case Dispatcher =>
      match s.dispatch
      case Adding =>
        if s.next < |s.workers| then s.(wg := s.wg + 1, dispatch := Acquiring) else s.(dispatch := Waiting)
      case Acquiring => s.(slots := s.slots + 1, dispatch := Spawning)
      case Spawning => s.(workers := s.workers[s.next := Sending], next := s.next + 1, dispatch := Adding)
      case Waiting => s.(dispatch := Returned)
      case Returned => s
  }

  // ----- Tallies over the goroutines -----

  datatype Tally = InRequest | Slots | Pending | Counted | Work

  predicate Holding(pc: Pc) {
    !pc.Unborn? && !pc.Signing? && !pc.Gone?
  }

  predicate Critical(pc: Pc) {
    pc.Reading? || pc.Writing? || pc.Naming? || pc.Unlocking?
  }

  predicate Sent(pc: Pc) {
    !pc.Unborn? && !pc.Sending?
  }

  /** The goroutine has passed the block under the mutex. */
  predicate Past(pc: Pc) {
    pc.Leaving? || pc.Signing? || pc.Gone?
  }

  function Rank(pc: Pc): nat {
    match pc
    case Unborn => 12 case Sending => 8 case Wanting => 7 case Reading => 6 case Writing(_) => 5
    case Naming => 4 case Unlocking => 3 case Leaving => 2 case Signing => 1 case Gone => 0
  }

  function Weight(t: Tally, failing: bool, pc: Pc): nat {
    match t
    case InRequest => if pc.Sending? then 1 else 0
    case Slots => if Holding(pc) then 1 else 0
    case Pending => if Holding(pc) || pc.Signing? then 1 else 0
    case Counted => if pc.Naming? || pc.Unlocking? || (Past(pc) && failing) then 1 else 0
    case Work => Rank(pc)
  }

  function Total(t: Tally, fails: seq<bool>, workers: seq<Pc>): nat
    requires |fails| == |workers|
  {
    if workers == [] then 0
    else Total(t, fails[..|fails|-1], workers[..|workers|-1]) + Weight(t, fails[|fails|-1], workers[|workers|-1])
  }

  lemma {:induction false} TotalUpdate(t: Tally, fails: seq<bool>, workers: seq<Pc>, i: nat, pc: Pc)
    requires i < |fails| == |workers|
    ensures Total(t, fails, workers[i := pc])
         == Total(t, fails, workers) - Weight(t, fails[i], workers[i]) + Weight(t, fails[i], pc)
    ensures Total(t, fails, workers) >= Weight(t, fails[i], workers[i])
  {
    var last := |workers| - 1;
    if i == last {
      assert workers[i := pc][..last] == workers[..last];
    } else {
      TotalUpdate(t, fails[..last], workers[..last], i, pc);
      assert workers[i := pc][..last] == workers[..last][i := pc];
    }
  }

  lemma {:induction false} TotalZero(t: Tally, fails: seq<bool>, workers: seq<Pc>)
    requires |fails| == |workers|
    requires forall i :: 0 <= i < |workers| ==> Weight(t, fails[i], workers[i]) == 0
    ensures Total(t, fails, workers) == 0
  {
    if workers != [] {
      TotalZero(t, fails[..|fails|-1], workers[..|workers|-1]);
    }
  }

  lemma {:induction false} TotalAtMost(t: Tally, u: Tally, fails: seq<bool>, workers: seq<Pc>)
    requires |fails| == |workers|
    requires t == InRequest && u == Slots
    ensures Total(t, fails, workers) <= Total(u, fails, workers)
  {
    if workers != [] {
      TotalAtMost(t, u, fails[..|fails|-1], workers[..|workers|-1]);
    }
  }

  /** The failing sends of the whole list. */
  function Failures(fails: seq<bool>): nat {
    if fails == [] then 0 else Failures(fails[..|fails|-1]) + if fails[|fails|-1] then 1 else 0
  }

  lemma {:induction false} AllCounted(fails: seq<bool>, workers: seq<Pc>)
    requires |fails| == |workers| && forall i :: 0 <= i < |workers| ==> workers[i] == Gone
    ensures Total(Counted, fails, workers) == Failures(fails)
  {
    if workers != [] {
      AllCounted(fails[..|fails|-1], workers[..|workers|-1]);
    }
  }

  lemma {:induction false} AllFail(fails: seq<bool>)
    ensures Failures(fails) <= |fails|
    ensures Failures(fails) == |fails| <==> forall i :: 0 <= i < |fails| ==> fails[i]
    ensures Failures(fails) == 0 <==> forall i :: 0 <= i < |fails| ==> !fails[i]
  {
    if fails != [] {
      var last := |fails| - 1;
      AllFail(fails[..last]);
      assert forall i :: 0 <= i < last ==> fails[..last][i] == fails[i];
    }
  }

  // ----- The invariant -----

  predicate WorkerOk(fails: seq<bool>, s: State, i: nat)
    requires i < |s.workers| == |s.requests| == |fails|
  {
    var pc := s.workers[i];
    && (pc.Unborn? <==> s.next <= i)
    && (Critical(pc) <==> s.mutex == Some(i))
    && (Critical(pc) || pc.Wanting? ==> fails[i])
    && (pc.Writing? ==> pc.seen == s.failed)
    && s.requests[i] == (if Sent(pc) then 1 else 0)
    && (pc.Unlocking? || (Past(pc) && fails[i]) ==> s.lastErr.Some?)
  }

  predicate Sized(fails: seq<bool>, s: State) {
    |s.workers| == |s.requests| == |fails|
  }

  predicate Balanced(limit: nat, fails: seq<bool>, s: State)
    requires Sized(fails, s)
  {
    && s.slots == Total(Slots, fails, s.workers) + (if s.dispatch.Spawning? then 1 else 0)
    && s.slots <= limit
    && s.wg == Total(Pending, fails, s.workers) + (if s.dispatch.Acquiring? || s.dispatch.Spawning? then 1 else 0)
    && s.failed == Total(Counted, fails, s.workers)
  }

  predicate Inv(limit: nat, fails: seq<bool>, s: State) {
    && Sized(fails, s) && Balanced(limit, fails, s)
    && s.next <= |fails|
    && (s.dispatch.Acquiring? || s.dispatch.Spawning? ==> s.next < |fails|)
    && (s.dispatch.Waiting? || s.dispatch.Returned? ==> s.next == |fails|)
    && (s.dispatch.Returned? ==> s.wg == 0)
    && (s.lastErr.Some? ==> s.lastErr.value < |fails| && fails[s.lastErr.value])
    && (s.mutex.Some? ==> s.mutex.value < |fails|)
    && forall i :: 0 <= i < |fails| ==> WorkerOk(fails, s, i)
  }

  function Measure(fails: seq<bool>, s: State): nat
    requires Sized(fails, s)
  {
    Total(Work, fails, s.workers) +
    match s.dispatch case Adding => 3 case Acquiring => 2 case Spawning => 1 case Waiting => 1 case Returned => 0
  }

  lemma InitInv(limit: nat, fails: seq<bool>)
    ensures Inv(limit, fails, Init(|fails|))
    ensures Measure(fails, Init(|fails|)) <= 12 * |fails| + 3
  {
    var s := Init(|fails|);
    TotalZero(Slots, fails, s.workers);
    TotalZero(Pending, fails, s.workers);
    TotalZero(Counted, fails, s.workers);
    UnbornWork(fails, s.workers);
  }

  lemma {:induction false} UnbornWork(fails: seq<bool>, workers: seq<Pc>)
    requires |fails| == |workers| && forall i :: 0 <= i < |workers| ==> workers[i].Unborn?
    ensures Total(Work, fails, workers) == 12 * |workers|
  {
    if workers != [] {
      UnbornWork(fails[..|fails|-1], workers[..|workers|-1]);
    }
  }

  /** A goroutine's step disturbs no other goroutine. */
  lemma WorkerFrame(limit: nat, fails: seq<bool>, s: State, i: nat, j: nat)
    requires i < |s.workers| == |s.requests| == |fails| && j < |fails|
    requires WorkerOk(fails, s, i) && WorkerOk(fails, s, j) && Enabled(limit, s, Worker(i))
    ensures WorkerOk(fails, WorkerStep(fails, s, i), j)
  {
  }

  /** What one step adds to each counter is what it adds to the goroutine's weight. */
  lemma WorkerMove(limit: nat, fails: seq<bool>, s: State, i: nat)
    requires i < |s.workers| == |s.requests| == |fails|
    requires WorkerOk(fails, s, i) && Enabled(limit, s, Worker(i))
    ensures var r := WorkerStep(fails, s, i);
            && r.workers == s.workers[i := r.workers[i]] && r.dispatch == s.dispatch
            && r.slots - s.slots == Weight(Slots, fails[i], r.workers[i]) - Weight(Slots, fails[i], s.workers[i]) <= 0
            && r.wg - s.wg == Weight(Pending, fails[i], r.workers[i]) - Weight(Pending, fails[i], s.workers[i])
            && r.failed - s.failed == Weight(Counted, fails[i], r.workers[i]) - Weight(Counted, fails[i], s.workers[i])
            && Weight(Work, fails[i], r.workers[i]) < Weight(Work, fails[i], s.workers[i])
  {
  }

  lemma Totals(fails: seq<bool>, workers: seq<Pc>, i: nat, pc: Pc)
    requires i < |fails| == |workers|
    ensures Change(Slots, fails, workers, i, pc) && Change(Pending, fails, workers, i, pc)
    ensures Change(Counted, fails, workers, i, pc) && Change(Work, fails, workers, i, pc)
  {
    TotalUpdate(Slots, fails, workers, i, pc);
    TotalUpdate(Pending, fails, workers, i, pc);
    TotalUpdate(Counted, fails, workers, i, pc);
    TotalUpdate(Work, fails, workers, i, pc);
  }

  predicate Change(t: Tally, fails: seq<bool>, workers: seq<Pc>, i: nat, pc: Pc)
    requires i < |fails| == |workers|
  {
    Total(t, fails, workers[i := pc])
    == Total(t, fails, workers) - Weight(t, fails[i], workers[i]) + Weight(t, fails[i], pc)
  }

  lemma WorkerBalance(limit: nat, fails: seq<bool>, s: State, r: State, i: nat)
    requires i < |s.workers| == |s.requests| == |fails| == |r.workers| == |r.requests|
    requires Balanced(limit, fails, s)
    requires r.workers == s.workers[i := r.workers[i]] && r.dispatch == s.dispatch
    requires r.slots - s.slots == Weight(Slots, fails[i], r.workers[i]) - Weight(Slots, fails[i], s.workers[i]) <= 0
    requires r.wg - s.wg == Weight(Pending, fails[i], r.workers[i]) - Weight(Pending, fails[i], s.workers[i])
    requires r.failed - s.failed == Weight(Counted, fails[i], r.workers[i]) - Weight(Counted, fails[i], s.workers[i])
    requires Weight(Work, fails[i], r.workers[i]) < Weight(Work, fails[i], s.workers[i])
    ensures Balanced(limit, fails, r)
    ensures Measure(fails, r) < Measure(fails, s)
  {
    Totals(fails, s.workers, i, r.workers[i]);
  }

  lemma WorkerInv(limit: nat, fails: seq<bool>, s: State, i: nat)
    requires Inv(limit, fails, s) && Enabled(limit, s, Worker(i))
    ensures Inv(limit, fails, WorkerStep(fails, s, i))
    ensures Measure(fails, WorkerStep(fails, s, i)) < Measure(fails, s)
  {
    var s' := WorkerStep(fails, s, i);
    assert WorkerOk(fails, s, i);
    WorkerMove(limit, fails, s, i);
    WorkerBalance(limit, fails, s, s', i);
    forall j | 0 <= j < |fails| ensures WorkerOk(fails, s', j) {
      WorkerFrame(limit, fails, s, i, j);
    }
  }

  lemma DispatcherBalance(limit: nat, fails: seq<bool>, s: State)
    requires Sized(fails, s) && Balanced(limit, fails, s) && Enabled(limit, s, Dispatcher)
    requires s.dispatch.Spawning? ==> s.workers[s.next].Unborn?
    ensures Balanced(limit, fails, Step(limit, fails, s, Dispatcher))
    ensures Measure(fails, Step(limit, fails, s, Dispatcher)) < Measure(fails, s)
  {
    if s.dispatch.Spawning? {
      Totals(fails, s.workers, s.next, Sending);
    }
  }

  lemma DispatcherFrame(limit: nat, fails: seq<bool>, s: State, j: nat)
    requires Sized(fails, s) && j < |fails| && WorkerOk(fails, s, j) && Enabled(limit, s, Dispatcher)
    requires s.mutex.Some? ==> s.mutex.value < |fails|
    ensures WorkerOk(fails, Step(limit, fails, s, Dispatcher), j)
  {
  }

  lemma DispatcherInv(limit: nat, fails: seq<bool>, s: State)
    requires Inv(limit, fails, s) && Enabled(limit, s, Dispatcher)
    ensures Inv(limit, fails, Step(limit, fails, s, Dispatcher))
    ensures Measure(fails, Step(limit, fails, s, Dispatcher)) < Measure(fails, s)
  {
    if s.dispatch.Spawning? {
      assert WorkerOk(fails, s, s.next);
    }
    DispatcherBalance(limit, fails, s);
    forall j | 0 <= j < |fails| ensures WorkerOk(fails, Step(limit, fails, s, Dispatcher), j) {
      DispatcherFrame(limit, fails, s, j);
    }
  }

  /** Every step keeps the invariant, and an enabled one brings the end nearer. */
  lemma StepInv(limit: nat, fails: seq<bool>, s: State, who: Actor)
    requires Inv(limit, fails, s)
    ensures Inv(limit, fails, Step(limit, fails, s, who))
    ensures Enabled(limit, s, who) ==> Measure(fails, Step(limit, fails, s, who)) < Measure(fails, s)
  {
    if Enabled(limit, s, who) {
      match who
      case Worker(i) => WorkerInv(limit, fails, s, i);
      case Dispatcher => DispatcherInv(limit, fails, s);
    }
  }

  /** No deadlock: until Send returns, some process can move. */
  lemma Progress(limit: nat, fails: seq<bool>, s: State) returns (who: Actor)
    requires Inv(limit, fails, s) && limit >= 1 && !s.dispatch.Returned?
    ensures Enabled(limit, s, who)
  {
    if s.mutex.Some? {
      assert WorkerOk(fails, s, s.mutex.value);
      return Worker(s.mutex.value);
    }
    if i :| 0 <= i < |fails| && !s.workers[i].Unborn? && !s.workers[i].Gone? {
      return Worker(i);
    }
    TotalZero(Slots, fails, s.workers);
    TotalZero(Pending, fails, s.workers);
    return Dispatcher;
  }

  // ----- Runs -----

  function After(limit: nat, fails: seq<bool>, run: seq<Actor>): (s: State)
    ensures |s.workers| == |s.requests| == |fails|
  {
    if run == [] then Init(|fails|) else Step(limit, fails, After(limit, fails, run[..|run|-1]), run[|run|-1])
  }

  lemma {:induction false} RunInv(limit: nat, fails: seq<bool>, run: seq<Actor>)
    ensures Inv(limit, fails, After(limit, fails, run))
  {
    if run == [] {
      InitInv(limit, fails);
    } else {
      RunInv(limit, fails, run[..|run|-1]);
      StepInv(limit, fails, After(limit, fails, run[..|run|-1]), run[|run|-1]);
    }
  }

  /** In every state of every interleaving at most `limit` requests are in flight, no two
      goroutines are between Lock and Unlock, and no token is sent twice. */
  lemma Bounded(limit: nat, fails: seq<bool>, run: seq<Actor>)
    ensures var s := After(limit, fails, run);
            && InFlight(s.workers) <= limit
            && (forall i, j ::
                  0 <= i < |fails| && 0 <= j < |fails| && Critical(s.workers[i]) && Critical(s.workers[j]) ==> i == j)
            && |s.requests| == |fails| && (forall i :: 0 <= i < |fails| ==> s.requests[i] <= 1)
  {
    RunInv(limit, fails, run);
    var s := After(limit, fails, run);
    TotalAtMost(InRequest, Slots, fails, s.workers);
    InFlightIsTotal(fails, s.workers);
    forall i | 0 <= i < |fails| ensures s.requests[i] <= 1 {
      assert WorkerOk(fails, s, i);
    }
    forall i, j | 0 <= i < |fails| && 0 <= j < |fails| && Critical(s.workers[i]) && Critical(s.workers[j])
      ensures i == j
    {
      assert WorkerOk(fails, s, i) && WorkerOk(fails, s, j);
    }
  }

  /** The dispatcher starting k sends that have not ended. */
  function Burst(k: nat): seq<Actor> {
    if k == 0 then [] else Burst(k - 1) + [Dispatcher, Dispatcher, Dispatcher]
  }

  lemma AfterOn(limit: nat, fails: seq<bool>, run: seq<Actor>, who: Actor)
    ensures After(limit, fails, run + [who]) == Step(limit, fails, After(limit, fails, run), who)
  {
    assert (run + [who])[..|run|] == run;
  }

  lemma ThreeSteps(limit: nat, fails: seq<bool>, s: State)
    requires Sized(fails, s) && s.dispatch.Adding? && s.next < |fails| && s.slots < limit
    ensures Step(limit, fails, Step(limit, fails, Step(limit, fails, s, Dispatcher), Dispatcher), Dispatcher)
         == s.(wg := s.wg + 1, slots := s.slots + 1, workers := s.workers[s.next := Sending], next := s.next + 1)
  {
  }

  lemma {:induction false} BurstState(limit: nat, fails: seq<bool>, k: nat)
    requires k <= limit && k <= |fails| && fails != []
    ensures var s := After(limit, fails, Burst(k));
            && s.dispatch == Adding && s.next == s.slots == k
            && forall i :: 0 <= i < |fails| ==> s.workers[i] == if i < k then Sending else Unborn
  {
    if k > 0 {
      BurstState(limit, fails, k - 1);
      var run := Burst(k - 1);
      ThreeSteps(limit, fails, After(limit, fails, run));
      AfterOn(limit, fails, run, Dispatcher);
      AfterOn(limit, fails, run + [Dispatcher], Dispatcher);
      AfterOn(limit, fails, run + [Dispatcher] + [Dispatcher], Dispatcher);
      assert Burst(k) == run + [Dispatcher] + [Dispatcher] + [Dispatcher];
    }
  }

  /** The number of goroutines whose request is in flight. */
  function InFlight(workers: seq<Pc>): nat {
    if workers == [] then 0
    else InFlight(workers[..|workers|-1]) + if workers[|workers|-1].Sending? then 1 else 0
  }

  lemma {:induction false} InFlightIsTotal(fails: seq<bool>, workers: seq<Pc>)
    requires |fails| == |workers|
    ensures InFlight(workers) == Total(InRequest, fails, workers)
  {
    if workers != [] {
      InFlightIsTotal(fails[..|fails|-1], workers[..|workers|-1]);
    }
  }

  lemma {:induction false} FirstSending(workers: seq<Pc>, k: nat)
    requires k <= |workers|
    requires forall i :: 0 <= i < |workers| ==> workers[i] == if i < k then Sending else Unborn
    ensures InFlight(workers) == k
  {
    if workers != [] {
      var last := |workers| - 1;
      FirstSending(workers[..last], if k <= last then k else last);
    }
  }

  /** The limit is used: some interleaving has as many requests in flight as the limit and
      the list allow. */
  lemma LimitReached(limit: nat, fails: seq<bool>)
    requires fails != []
    ensures var k := if limit < |fails| then limit else |fails|;
            InFlight(After(limit, fails, Burst(k)).workers) == k
  {
    var k := if limit < |fails| then limit else |fails|;
    BurstState(limit, fails, k);
    var workers := After(limit, fails, Burst(k)).workers;
    FirstSending(workers, k);
  }

  predicate Moves(limit: nat, fails: seq<bool>, run: seq<Actor>) {
    forall k :: 0 <= k < |run| ==> Enabled(limit, After(limit, fails, run[..k]), run[k])
  }

  /** Termination: no interleaving makes more than twelve moves a token and three. */
  lemma {:induction false} Terminates(limit: nat, fails: seq<bool>, run: seq<Actor>)
    requires Moves(limit, fails, run)
    ensures |run| + Measure(fails, After(limit, fails, run)) <= 12 * |fails| + 3
  {
    if run == [] {
      InitInv(limit, fails);
    } else {
      var front := run[..|run|-1];
      assert forall k :: 0 <= k < |front| ==> front[..k] == run[..k] && front[k] == run[k];
      Terminates(limit, fails, front);
      RunInv(limit, fails, front);
      StepInv(limit, fails, After(limit, fails, front), run[|run|-1]);
    }
  }

  lemma AtReturn(limit: nat, fails: seq<bool>, s: State)
    requires Inv(limit, fails, s) && s.dispatch.Returned?
    ensures forall i :: 0 <= i < |fails| ==> s.workers[i].Gone? && s.requests[i] == 1
    ensures s.failed == Failures(fails)
    ensures s.lastErr.Some? <==> s.failed > 0
  {
    forall i | 0 <= i < |fails| ensures s.workers[i].Gone? && s.requests[i] == 1 {
      assert WorkerOk(fails, s, i);
      TotalUpdate(Pending, fails, s.workers, i, Gone);
    }
    AllCounted(fails, s.workers);
    AllFail(fails);
    if i :| 0 <= i < |fails| && fails[i] {
      assert WorkerOk(fails, s, i);
    }
    assert (s.lastErr.Some? ==> fails[s.lastErr.value]);
  }

  /** When an interleaving has returned: every token was sent exactly once, every
      goroutine is over, no failure was lost or counted twice, and if any send failed the
      error kept is that of a failing send. */
  lemma Outcome(limit: nat, fails: seq<bool>, run: seq<Actor>)
    requires After(limit, fails, run).dispatch.Returned?
    ensures var s := After(limit, fails, run);
            && |s.requests| == |fails|
            && (forall i :: 0 <= i < |fails| ==> s.workers[i].Gone? && s.requests[i] == 1)
            && s.failed == Failures(fails)
            && (s.lastErr.Some? <==> s.failed > 0)
            && (s.lastErr.Some? ==> s.lastErr.value < |fails| && fails[s.lastErr.value])
  {
    RunInv(limit, fails, run);
    AtReturn(limit, fails, After(limit, fails, run));
  }

  /** A limit of zero would stop the first Send for ever, and only that limit would: there
      is a reachable state that has not returned and cannot move exactly when the limit is
      zero and there is a token. */
  lemma StuckIff(limit: nat, fails: seq<bool>)
    ensures (exists run :: Stuck(limit, fails, run)) <==> limit == 0 && fails != []
  {
    if run :| Stuck(limit, fails, run) {
      RunInv(limit, fails, run);
      if limit >= 1 {
        var who := Progress(limit, fails, After(limit, fails, run));
        assert false;
      }
      if fails == [] {
        EmptyReturns(limit, run);
        assert false;
      }
    }
    if limit == 0 && fails != [] {
      var run := [Dispatcher];
      assert run[..0] == [];
      assert After(limit, fails, run[..0]) == Init(|fails|);
      assert Stuck(limit, fails, run);
    }
  }

  ghost predicate Stuck(limit: nat, fails: seq<bool>, run: seq<Actor>) {
    var s := After(limit, fails, run);
    !s.dispatch.Returned? && forall who :: !Enabled(limit, s, who)
  }

  lemma {:induction false} EmptyReturns(limit: nat, run: seq<Actor>)
    ensures After(limit, [], run).dispatch.Returned?
  {
    if run != [] {
      EmptyReturns(limit, run[..|run|-1]);
    }
  }

  // ----- Send -----

  class Fcm {
    const maxConcurrency: nat

    constructor (configured: int)
      ensures maxConcurrency == if configured > 0 then configured else 20
    {
      maxConcurrency := Limit(configured);
    }

    /** The goroutines are interleaved in any way at all; every way ends. The error
        returned is the position whose error is wrapped. */
    method Send(tokens: seq<string>, fails: seq<bool>) returns (err: Option<nat>, requests: seq<nat>)
      requires maxConcurrency >= 1 && |fails| == |tokens|
      ensures err.Some? <==> tokens != [] && forall i :: 0 <= i < |fails| ==> fails[i]
      ensures err.Some? ==> err.value < |tokens|
      ensures |requests| == |tokens| && forall i :: 0 <= i < |tokens| ==> requests[i] == 1
    {
      if |tokens| == 0 {
        return None, [];
      }
      var s := Init(|tokens|);
      InitInv(maxConcurrency, fails);
      while !s.dispatch.Returned?
        invariant Inv(maxConcurrency, fails, s)
        decreases if Sized(fails, s) then Measure(fails, s) else 0
      {
        var ready := set i | 0 <= i < |tokens| && Enabled(maxConcurrency, s, Worker(i)) :: Worker(i);
        if Enabled(maxConcurrency, s, Dispatcher) {
          ready := ready + {Dispatcher};
        }
        ghost var some := Progress(maxConcurrency, fails, s);
        assert some in ready;
        var who :| who in ready;
        StepInv(maxConcurrency, fails, s, who);
        s := Step(maxConcurrency, fails, s, who);
      }
      AtReturn(maxConcurrency, fails, s);
      AllFail(fails);
      if s.failed == |tokens| {
        return s.lastErr, s.requests;
      }
      return None, s.requests;
    }
  }
}
