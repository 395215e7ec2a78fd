/** What holds in every run of the settlement machine: the life of an order, enrollments,
    announcements, convergence, and what a success reply is worth. */
module SettlementRuns {
  import opened Wrappers
  import opened Settlement

  // ----- What holds in every reachable state -----

  /** Rows keep their identity and statuses only move from created to paid to refunded. */
  ghost predicate Advances(before: Order, after: Order) {
    && after.buyer == before.buyer && after.tenant == before.tenant
    && after.course == before.course && after.bundle == before.bundle
    && (after.status == before.status
        || (before.status == Created && after.status == Paid)
        || (before.status == Paid && after.status == Refunded))
  }

  lemma ProcAdvances(s: State, p: Pid, fail: bool, id: OrderId)
    requires p in s.procs && ProcOk(s, p) && id in s.db.orders
    ensures id in StepProc(s, p, fail).db.orders && Advances(s.db.orders[id], StepProc(s, p, fail).db.orders[id])
  {
    match s.procs[p].pc
    case Enrolling(_, _, _, _) =>
    case RefundSent =>
    case _ => assert StepProc(s, p, fail).db == s.db;
  }

  /** No step moves an order backwards, so nothing ever leaves `refunded`. */
  lemma StatusAdvances(s: State, a: Action, id: OrderId)
    requires Inv(s) && id in s.db.orders
    ensures id in Step(s, a).db.orders && Advances(s.db.orders[id], Step(s, a).db.orders[id])
  {
    if a.Advance? && a.p in s.procs {
      ProcAdvances(s, a.p, a.fail, id);
    }
  }

  /** How many steps of the run turned the order into a paid one. */
  function TimesPaid(s: State, actions: seq<Action>, id: OrderId): nat {
    if actions == [] then 0
    else
      var before, after := Run(s, actions[..|actions|-1]), Run(s, actions);
      TimesPaid(s, actions[..|actions|-1], id)
      + if id in after.db.orders && after.db.orders[id].status == Paid
           && (id in before.db.orders ==> before.db.orders[id].status != Paid) then 1 else 0
  }

  /** However many deliveries race, an order turns paid once, unless it never settles. */
  lemma {:induction false} SettledOnce(s: State, actions: seq<Action>, id: OrderId)
    requires Initial(s)
    ensures var end := Run(s, actions);
            TimesPaid(s, actions, id) == if id in end.db.orders && end.db.orders[id].status != Created then 1 else 0
  {
    if actions != [] {
      var prefix := actions[..|actions|-1];
      SettledOnce(s, prefix, id);
      RunInv(s, prefix);
      var before := Run(s, prefix);
      if id in before.db.orders {
        StatusAdvances(before, actions[|actions|-1], id);
      } else {
        NewlyPresent(before, actions[|actions|-1], id);
      }
    }
  }

  lemma NewlyPresent(s: State, a: Action, id: OrderId)
    requires Inv(s) && id !in s.db.orders
    ensures id in Step(s, a).db.orders ==> Step(s, a).db.orders[id].status == Created
  {
    if a.Advance? && a.p in s.procs {
      ProcAddsNone(s, a.p, a.fail, id);
    }
  }

  lemma ProcAddsNone(s: State, p: Pid, fail: bool, id: OrderId)
    requires p in s.procs && ProcOk(s, p) && id !in s.db.orders
    ensures id !in StepProc(s, p, fail).db.orders
  {
    match s.procs[p].pc
    case Enrolling(_, _, _, _) =>
    case RefundSent =>
    case _ => assert StepProc(s, p, fail).db == s.db;
  }

  /** After n steps call p was between its marking and its enrollments, and the bundle
      held exactly these courses; an unknown bundle holds none. */
  ghost predicate ListedAt(s0: State, actions: seq<Action>, n: nat, p: Pid, bundle: BundleId, courses: seq<CourseId>)
    requires n <= |actions|
  {
    var s := Run(s0, actions[..n]);
    && p in s.procs && s.procs[p].pc.Marked?
    && courses == if bundle in s.db.bundles then s.db.bundles[bundle] else []
  }

  ghost predicate Listed(s0: State, actions: seq<Action>, p: Pid, bundle: BundleId, courses: seq<CourseId>) {
    exists n: nat :: n <= |actions| && ListedAt(s0, actions, n, p, bundle, courses)
  }

  ghost predicate EnrollsListed(s0: State, actions: seq<Action>, s: State, p: Pid)
    requires p in s.procs
  {
    s.procs[p].pc.Enrolling? && s.procs[p].call.BundleVerify? && s.procs[p].pc.row.bundle.Some? ==>
      Listed(s0, actions, p, s.procs[p].pc.row.bundle.value, s.procs[p].pc.items)
  }

  ghost predicate CommittedListed(s0: State, actions: seq<Action>, s: State, id: OrderId)
    requires id in s.commits && id in s.db.orders
  {
    s.db.orders[id].bundle.Some? ==>
      Listed(s0, actions, s.commits[id].committer, s.db.orders[id].bundle.value, s.commits[id].courses)
  }

  lemma ListedLater(s0: State, actions: seq<Action>, a: Action, p: Pid, bundle: BundleId, courses: seq<CourseId>)
    requires Listed(s0, actions, p, bundle, courses)
    ensures Listed(s0, actions + [a], p, bundle, courses)
  {
    var n: nat :| n <= |actions| && ListedAt(s0, actions, n, p, bundle, courses);
    assert (actions + [a])[..n] == actions[..n];
    assert ListedAt(s0, actions + [a], n, p, bundle, courses);
  }

  lemma ListedNow(s0: State, actions: seq<Action>, a: Action, p: Pid, bundle: BundleId)
    requires p in Run(s0, actions).procs && Run(s0, actions).procs[p].pc.Marked?
    ensures Listed(s0, actions + [a], p, bundle, BundleItems(Run(s0, actions).db, bundle))
  {
    assert (actions + [a])[..|actions|] == actions;
    assert ListedAt(s0, actions + [a], |actions|, p, bundle, BundleItems(Run(s0, actions).db, bundle));
  }

  /** A call is enrolling because it was, or because it has just listed its courses. */
  lemma EnrollingSince(s: State, a: Action, p: Pid)
    requires p in Step(s, a).procs && Step(s, a).procs[p].pc.Enrolling?
    ensures p in s.procs && Continues(s.procs[p], Step(s, a).procs[p], s.db)
  {
    if a.Advance? && a.p == p {
      if !s.procs[p].pc.Marked? && !s.procs[p].pc.Enrolling? {
        OtherSteps(s, p, a.fail);
      }
    } else if a.Advance? && a.p in s.procs {
      OthersUntouched(s, a.p, a.fail, p);
    }
  }

  predicate Continues(before: Proc, after: Proc, db: Db)
    requires after.pc.Enrolling?
  {
    && before.call == after.call
    && (|| (before.pc.Enrolling? && before.pc.row == after.pc.row && before.pc.items == after.pc.items)
        || (&& before.pc.Marked? && before.pc.row == after.pc.row
            && (after.call.BundleVerify? && after.pc.row.bundle.Some? ==>
                  after.pc.items == BundleItems(db, after.pc.row.bundle.value))))
  }

  lemma OthersUntouched(s: State, p: Pid, fail: bool, q: Pid)
    requires p in s.procs && p != q
    ensures q in StepProc(s, p, fail).procs <==> q in s.procs
    ensures q in s.procs ==> StepProc(s, p, fail).procs[q] == s.procs[q]
  {
    match s.procs[p].pc
    case Begun =>
    case Opened =>
    case Holding(_) =>
    case Marked(_, _) =>
    case Enrolling(_, _, _, _) =>
    case PostCommit(_) =>
    case RefundApproved =>
    case RefundSent =>
    case Finished(_) =>
  }

  /** A commit is an old one, or that of a call that was enrolling its items. */
  lemma CommittedSince(s: State, a: Action, id: OrderId)
    requires id in Step(s, a).commits
    ensures var c := Step(s, a).commits[id];
            || (id in s.commits && c == s.commits[id])
            || (&& c.committer in s.procs && s.procs[c.committer].pc.Enrolling? && s.procs[c.committer].call.order == id
                && c.courses == s.procs[c.committer].pc.items)
  {
    if a.Advance? && a.p in s.procs {
      match s.procs[a.p].pc
      case Begun =>
      case Opened =>
      case Holding(_) =>
      case Marked(_, _) =>
      case Enrolling(_, _, _, _) =>
      case PostCommit(_) =>
      case RefundApproved =>
      case RefundSent =>
      case Finished(_) =>
    }
  }

  lemma SameCall(s: State, a: Action, p: Pid)
    requires p in s.procs
    ensures p in Step(s, a).procs && Step(s, a).procs[p].call == s.procs[p].call
  {
    if a.Advance? && a.p in s.procs {
      if a.p != p {
        OthersUntouched(s, a.p, a.fail, p);
      } else {
        match s.procs[p].pc
        case Begun =>
        case Opened =>
        case Holding(_) =>
        case Marked(_, _) =>
        case Enrolling(_, _, _, _) =>
        case PostCommit(_) =>
        case RefundApproved =>
        case RefundSent =>
        case Finished(_) =>
      }
    }
  }

  lemma {:induction false} EnrollingListed(s0: State, actions: seq<Action>, p: Pid)
    requires p in Run(s0, actions).procs && Initial(s0)
    ensures EnrollsListed(s0, actions, Run(s0, actions), p)
  {
    if actions != [] {
      var front, a := actions[..|actions|-1], actions[|actions|-1];
      assert front + [a] == actions;
      var s, after := Run(s0, front), Run(s0, actions).procs[p];
      if after.pc.Enrolling? && after.call.BundleVerify? && after.pc.row.bundle.Some? {
        EnrollingSince(s, a, p);
        if s.procs[p].pc.Marked? {
          ListedNow(s0, front, a, p, after.pc.row.bundle.value);
        } else {
          EnrollingListed(s0, front, p);
          ListedLater(s0, front, a, p, after.pc.row.bundle.value, after.pc.items);
        }
      }
    }
  }

  lemma {:induction false} CommitListed(s0: State, actions: seq<Action>, id: OrderId)
    requires Initial(s0) && id in Run(s0, actions).commits
    ensures id in Run(s0, actions).db.orders && CommittedListed(s0, actions, Run(s0, actions), id)
  {
    RunInv(s0, actions);
    if actions != [] && Run(s0, actions).db.orders[id].bundle.Some? {
      var front, a := actions[..|actions|-1], actions[|actions|-1];
      assert front + [a] == actions;
      var s, s' := Run(s0, front), Run(s0, actions);
      var c := s'.commits[id];
      RunInv(s0, front);
      CommittedSince(s, a, id);
      if id in s.commits && c == s.commits[id] {
        CommitListed(s0, front, id);
      } else {
        assert ProcOk(s, c.committer) && OrderOk(s', id);
        EnrollingListed(s0, front, c.committer);
        SameCall(s, a, c.committer);
      }
      StatusAdvances(s, a, id);
      ListedLater(s0, front, a, c.committer, s'.db.orders[id].bundle.value, c.courses);
    }
  }

  /** A paid course order records the payment and has its buyer enrolled in the course. A
      paid bundle order has its buyer enrolled in every course that the bundle held while
      the settling transaction listed it, and what was paid for is those courses and no
      other. */
  lemma PaidMeansEnrolled(s: State, actions: seq<Action>, id: OrderId)
    requires Initial(s) && id in Run(s, actions).db.orders
    requires Run(s, actions).db.orders[id].status != Created
    ensures var end := Run(s, actions); var row := end.db.orders[id];
            && id in end.commits && end.commits[id].committer in end.procs
            && !end.procs[end.commits[id].committer].call.Refund?
            && row.paymentId == end.procs[end.commits[id].committer].call.paymentId
            && (row.course.Some? ==> (row.buyer, row.course.value) in end.db.enrollments)
            && (row.bundle.Some? ==>
                  Listed(s, actions, end.commits[id].committer, row.bundle.value, end.commits[id].courses))
            && (row.course.Some? ==> end.commits[id].courses == [row.course.value])
            && (forall c :: c in end.commits[id].courses ==> (row.buyer, c) in end.db.enrollments)
  {
    RunInv(s, actions);
    CommitListed(s, actions, id);
    var end := Run(s, actions);
    assert OrderOk(end, id);
    var row, courses := end.db.orders[id], end.commits[id].courses;
    forall c | c in courses ensures (row.buyer, c) in end.db.enrollments {
      assert (row.buyer, c) in EnrollAll(row.buyer, courses);
    }
    if row.course.Some? {
      assert courses[0] == row.course.value;
    }
  }

  /** The plan of a settlement: the payment and each course that it enrolled, if its service
      has a producer, and for a course order with referrals the reward. */
  lemma PlanExact(s: State, actions: seq<Action>, id: OrderId, e: Effect)
    requires Initial(s) && id in Run(s, actions).commits && e.order == id
    ensures var end := Run(s, actions); var commit := end.commits[id];
            && commit.committer in end.procs
            && (e in commit.plan <==>
                var call, w := end.procs[commit.committer].call, end.wiring;
                var emits := (call.ClientVerify? && w.courseEvents) || (call.BundleVerify? && w.bundleEvents);
                match e
                case PaymentSucceeded(_) => emits
                case CoursePurchased(_, course) => emits && course in commit.courses
                case RewardCall(_) => call.ClientVerify? && w.referrals)
  {
    RunInv(s, actions);
    var end := Run(s, actions);
    assert OrderOk(end, id);
    AnnouncedBy(end.wiring, end.procs[end.commits[id].committer].call, end.commits[id].courses, e);
  }

  /** A bundle order is only ever settled by the bundle path: the course path and the
      webhook roll back on its NULL course_id. */
  lemma BundleNeedsBundleVerify(s: State, actions: seq<Action>, id: OrderId)
    requires Initial(s) && id in Run(s, actions).db.orders
    requires Run(s, actions).db.orders[id].status != Created
    ensures var end := Run(s, actions);
            && id in end.commits && end.commits[id].committer in end.procs
            && (end.procs[end.commits[id].committer].call.BundleVerify? <==> end.db.orders[id].bundle.Some?)
  {
    RunInv(s, actions);
    assert OrderOk(Run(s, actions), id);
  }

  lemma {:induction false} CountOf(effects: seq<Effect>, e: Effect)
    ensures multiset(effects)[e] == multiset(EffectsOf(e.order, effects))[e]
  {
    if effects != [] {
      var last := |effects| - 1;
      CountOf(effects[..last], e);
      assert effects == effects[..last] + [effects[last]];
    }
  }

  lemma {:induction false} DistinctCount<T>(xs: seq<T>, x: T)
    requires Distinct(xs)
    ensures multiset(xs)[x] <= 1
  {
    if xs != [] {
      var last := |xs| - 1;
      DistinctCount(xs[..last], x);
      assert xs == xs[..last] + [xs[last]];
      if x == xs[last] {
        assert x !in xs[..last];
      }
    }
  }

  lemma AnnouncementsDistinct(w: Wiring, call: Call, courses: seq<CourseId>)
    requires Distinct(courses)
    ensures Distinct(Announcements(w, call, courses))
  {
  }

  /** Every announcement of the order's settlement has been made. */
  ghost predicate Announced(s: State, id: OrderId) {
    && id in s.commits && s.commits[id].committer in s.procs
    && s.procs[s.commits[id].committer].pc == Finished(Delivered)
  }

  /** Each purchase event and reward call fires at most once in a run, and only for an
      order whose settling path announces it; once the settling call has returned to
      its client without a crash, each of its announcements has fired. */
  lemma EffectsAtMostOnce(s: State, actions: seq<Action>, e: Effect)
    requires Initial(s)
    ensures var end := Run(s, actions);
            && multiset(end.effects)[e] <= 1
            && (e in end.effects ==> e.order in end.commits && e in end.commits[e.order].plan)
            && (Announced(end, e.order) && e in end.commits[e.order].plan ==> e in end.effects)
  {
    RunInv(s, actions);
    var end := Run(s, actions);
    var own := EffectsOf(e.order, end.effects);
    CountOf(end.effects, e);
    assert e in end.effects <==> e in own;
    if e.order in end.commits {
      var c := end.commits[e.order];
      assert OrderOk(end, e.order) && ProcOk(end, c.committer);
      PlanIsDistinct(end, e.order);
      assert own <= c.plan;
      DistinctCount(own, e);
    }
  }

  /** The call's service has an event producer; the webhook has none. */
  predicate Emits(w: Wiring, call: Call) {
    (call.ClientVerify? && w.courseEvents) || (call.BundleVerify? && w.bundleEvents)
  }

  lemma AnnouncedBy(w: Wiring, call: Call, courses: seq<CourseId>, e: Effect)
    requires e.order == call.order && !call.Refund?
    ensures e in Announcements(w, call, courses) <==>
            match e
            case PaymentSucceeded(_) => Emits(w, call)
            case CoursePurchased(_, course) => Emits(w, call) && course in courses
            case RewardCall(_) => w.referrals && call.ClientVerify?
  {
    if e.CoursePurchased? && e.course in courses {
      var k :| 0 <= k < |courses| && courses[k] == e.course;
      assert Purchases(call.order, courses)[k] == e;
    }
  }

  /** What has fired for an order whose settling call ran to its end: nothing after a
      webhook; from a service with a producer the payment and a purchase of each enrolled
      course and of no other; from the course path with referrals the reward. */
  lemma EffectsExact(s: State, actions: seq<Action>, e: Effect)
    requires Initial(s) && Announced(Run(s, actions), e.order)
    ensures var end := Run(s, actions);
            var commit := end.commits[e.order]; var call := end.procs[commit.committer].call;
            e in end.effects <==>
            match e
            case PaymentSucceeded(_) => Emits(end.wiring, call)
            case CoursePurchased(_, course) => Emits(end.wiring, call) && course in commit.courses
            case RewardCall(_) => end.wiring.referrals && call.ClientVerify?
  {
    var end := Run(s, actions);
    RunInv(s, actions);
    assert OrderOk(end, e.order);
    EffectsAtMostOnce(s, actions, e);
    AnnouncedBy(end.wiring, end.procs[end.commits[e.order].committer].call, end.commits[e.order].courses, e);
  }

  lemma PlanIsDistinct(s: State, id: OrderId)
    requires id in s.db.orders && id in s.commits && OrderOk(s, id) && ProcOk(s, s.commits[id].committer)
    ensures Distinct(s.commits[id].plan)
    ensures Announced(s, id) ==> EffectsOf(id, s.effects) == s.commits[id].plan
  {
    var c := s.commits[id];
    AnnouncementsDistinct(s.wiring, s.procs[c.committer].call, c.courses);
  }

  // ----- Convergence: what the final state is, whatever the order of deliveries -----

  ghost predicate OnlyCalls(actions: seq<Action>) {
    forall a :: a in actions ==> a.Start? || a.Advance? || a.Crash?
  }

  /** The courses an order pays for. */
  function Entitled(db: Db, row: Order): seq<CourseId> {
    if row.course.Some? then [row.course.value]
    else if row.bundle.Some? && row.bundle.value in db.bundles then db.bundles[row.bundle.value]
    else []
  }

  /** `pair` is an enrollment that one of the given settled orders pays for. */
  ghost predicate PaidFor(db: Db, settled: set<OrderId>, pair: (UserId, CourseId)) {
    exists id :: id in settled && id in db.orders
                 && pair in EnrollAll(db.orders[id].buyer, Entitled(db, db.orders[id]))
  }

  ghost predicate SameOrders(s0: State, s: State) {
    && s.db.bundles == s0.db.bundles
    && s.db.orders.Keys == s0.db.orders.Keys
    && forall id :: id in s0.db.orders ==>
         && s.db.orders[id].buyer == s0.db.orders[id].buyer
         && s.db.orders[id].course == s0.db.orders[id].course
         && s.db.orders[id].bundle == s0.db.orders[id].bundle
  }

  ghost predicate ItemsFixed(s0: State, s: State) {
    && (forall p :: p in s.procs && s.procs[p].pc.Enrolling? && s.procs[p].call.order in s0.db.orders ==>
          s.procs[p].pc.items == Entitled(s0.db, s0.db.orders[s.procs[p].call.order]))
    && (forall id :: id in s.commits && id in s0.db.orders ==>
          s.commits[id].courses == Entitled(s0.db, s0.db.orders[id]))
  }

  ghost predicate EnrollmentsExact(s0: State, s: State) {
    forall pair :: pair in s.db.enrollments <==>
                   pair in s0.db.enrollments || PaidFor(s0.db, s.commits.Keys, pair)
  }

  lemma SettleExact(s0: State, s: State, p: Pid)
    requires SameOrders(s0, s) && ItemsFixed(s0, s) && EnrollmentsExact(s0, s)
    requires p in s.procs && ProcOk(s, p) && s.procs[p].pc.Enrolling? && s.procs[p].pc.enrolled >= |s.procs[p].pc.items|
    ensures EnrollmentsExact(s0, StepEnrolling(s, p, false))
  {
    var s' := StepEnrolling(s, p, false);
    var id := s.procs[p].call.order;
    PublishIsSettle(s, p);
    var added := EnrollAll(s0.db.orders[id].buyer, Entitled(s0.db, s0.db.orders[id]));
    assert s'.db.enrollments == s.db.enrollments + added;
    assert s'.commits.Keys == s.commits.Keys + {id};
    forall pair
      ensures PaidFor(s0.db, s'.commits.Keys, pair) <==> PaidFor(s0.db, s.commits.Keys, pair) || pair in added
    {
      if pair in added {
        assert id in s'.commits.Keys;
      }
    }
  }

  lemma ItemsFrame(s0: State, s: State, s': State, p: Pid)
    requires ItemsFixed(s0, s) && p in s'.procs && s'.procs == s.procs[p := s'.procs[p]]
    requires s'.commits == s.commits
    requires s'.procs[p].pc.Enrolling? && s'.procs[p].call.order in s0.db.orders ==>
               s'.procs[p].pc.items == Entitled(s0.db, s0.db.orders[s'.procs[p].call.order])
    ensures ItemsFixed(s0, s')
  {
  }

  lemma MarkedItems(s0: State, s: State, p: Pid, fail: bool)
    requires p in s.procs && ProcOk(s, p) && SameOrders(s0, s) && ItemsFixed(s0, s)
    requires s.procs[p].pc.Marked? && OrderOk(s, s.procs[p].call.order)
    ensures ItemsFixed(s0, StepMarked(s, p, fail))
  {
    ItemsFrame(s0, s, StepMarked(s, p, fail), p);
  }

  lemma EnrollingItems(s0: State, s: State, p: Pid, fail: bool)
    requires p in s.procs && ProcOk(s, p) && ItemsFixed(s0, s) && s.procs[p].pc.Enrolling?
    ensures ItemsFixed(s0, StepEnrolling(s, p, fail))
  {
    var s' := StepEnrolling(s, p, fail);
    if !s'.procs[p].pc.PostCommit? {
      ItemsFrame(s0, s, s', p);
    }
  }

  predicate Moved(s: State, s': State, p: Pid) {
    && p in s'.procs && s'.procs == s.procs[p := s'.procs[p]] && s'.commits == s.commits
    && !s'.procs[p].pc.Enrolling?
  }

  lemma Stays(s: State, p: Pid)
    requires p in s.procs && !s.procs[p].pc.Enrolling?
    ensures Moved(s, s, p)
  {
  }

  lemma BegunMoves(s: State, p: Pid, fail: bool)
    requires p in s.procs && s.procs[p].pc.Begun?
    ensures Moved(s, StepBegun(s, p, fail), p)
  {
    Stays(s, p);
  }

  lemma OpenedMoves(s: State, p: Pid, fail: bool)
    requires p in s.procs && s.procs[p].pc.Opened?
    ensures Moved(s, StepOpened(s, p, fail), p)
  {
    Stays(s, p);
  }

  lemma HoldingMoves(s: State, p: Pid, fail: bool)
    requires p in s.procs && s.procs[p].pc.Holding?
    ensures Moved(s, StepHolding(s, p, fail), p)
  {
  }

  lemma RefundSentMoves(s: State, p: Pid, fail: bool)
    requires p in s.procs && s.procs[p].pc.RefundSent?
    ensures Moved(s, StepRefundSent(s, p, fail), p)
  {
    Stays(s, p);
  }

  lemma OtherSteps(s: State, p: Pid, fail: bool)
    requires p in s.procs && !s.procs[p].pc.Marked? && !s.procs[p].pc.Enrolling?
    ensures Moved(s, StepProc(s, p, fail), p)
  {
    match s.procs[p].pc
    case Begun => BegunMoves(s, p, fail);
    case Opened => OpenedMoves(s, p, fail);
    case Holding(_) => HoldingMoves(s, p, fail);
    case RefundSent => RefundSentMoves(s, p, fail);
    case Finished(_) => Stays(s, p);
    case _ =>
  }

  lemma ItemsFixedStep(s0: State, s: State, p: Pid, fail: bool)
    requires p in s.procs && ProcOk(s, p) && SameOrders(s0, s) && ItemsFixed(s0, s)
    requires s.procs[p].call.order in s.db.orders ==> OrderOk(s, s.procs[p].call.order)
    ensures ItemsFixed(s0, StepProc(s, p, fail))
  {
    match s.procs[p].pc
    case Marked(_, _) => MarkedItems(s0, s, p, fail);
    case Enrolling(_, _, _, _) => EnrollingItems(s0, s, p, fail);
    case _ =>
      OtherSteps(s, p, fail);
      ItemsFrame(s0, s, StepProc(s, p, fail), p);
  }

  lemma EnrollmentsStep(s0: State, s: State, p: Pid, fail: bool)
    requires p in s.procs && ProcOk(s, p)
    requires SameOrders(s0, s) && ItemsFixed(s0, s) && EnrollmentsExact(s0, s)
    ensures EnrollmentsExact(s0, StepProc(s, p, fail))
  {
    if s.procs[p].pc.Enrolling? && StepProc(s, p, fail).procs[p].pc.PostCommit? {
      SettleExact(s0, s, p);
    } else {
      NoCommit(s, p, fail);
    }
  }

  lemma SameOrdersStep(s0: State, s: State, p: Pid, fail: bool)
    requires p in s.procs && ProcOk(s, p) && SameOrders(s0, s)
    ensures SameOrders(s0, StepProc(s, p, fail))
  {
    match s.procs[p].pc
    case Enrolling(_, _, _, _) =>
    case RefundSent =>
    case _ => assert StepProc(s, p, fail).db == s.db;
  }

  lemma NoCommit(s: State, p: Pid, fail: bool)
    requires p in s.procs && ProcOk(s, p)
    requires !(s.procs[p].pc.Enrolling? && StepProc(s, p, fail).procs[p].pc.PostCommit?)
    ensures StepProc(s, p, fail).db.enrollments == s.db.enrollments
    ensures StepProc(s, p, fail).commits == s.commits
  {
    match s.procs[p].pc
    case Enrolling(_, _, _, _) =>
    case RefundSent =>
    case _ => assert StepProc(s, p, fail).db == s.db;
  }

  lemma IdleExact(s0: State, s: State, s': State, p: Pid)
    requires SameOrders(s0, s) && ItemsFixed(s0, s) && EnrollmentsExact(s0, s)
    requires s'.db == s.db && s'.commits == s.commits
    requires s' == s || (p in s'.procs && s'.procs == s.procs[p := s'.procs[p]] && !s'.procs[p].pc.Enrolling?)
    ensures SameOrders(s0, s') && ItemsFixed(s0, s') && EnrollmentsExact(s0, s')
  {
  }

  lemma IdleStepExact(s0: State, s: State, a: Action)
    requires a.Start? || a.Crash? || (a.Advance? && a.p !in s.procs)
    requires SameOrders(s0, s) && ItemsFixed(s0, s) && EnrollmentsExact(s0, s)
    ensures SameOrders(s0, Step(s, a)) && ItemsFixed(s0, Step(s, a)) && EnrollmentsExact(s0, Step(s, a))
  {
    IdleExact(s0, s, Step(s, a), a.p);
  }

  /** Enrollments are exactly the initial ones and those that settled orders pay for. */
  lemma {:induction false} RunExact(s: State, actions: seq<Action>)
    requires Initial(s) && OnlyCalls(actions)
    ensures SameOrders(s, Run(s, actions)) && ItemsFixed(s, Run(s, actions)) && EnrollmentsExact(s, Run(s, actions))
  {
    if actions != [] {
      var prefix, a := actions[..|actions|-1], actions[|actions|-1];
      RunExact(s, prefix);
      RunInv(s, prefix);
      assert a in actions;
      var mid := Run(s, prefix);
      if a.Advance? && a.p in mid.procs {
        assert ProcOk(mid, a.p);
        assert mid.procs[a.p].call.order in mid.db.orders ==> OrderOk(mid, mid.procs[a.p].call.order);
        ItemsFixedStep(s, mid, a.p, a.fail);
        SameOrdersStep(s, mid, a.p, a.fail);
        EnrollmentsStep(s, mid, a.p, a.fail);
      } else {
        IdleStepExact(s, mid, a);
      }
    }
  }

  /** The orders that have settled, whether or not they were refunded since. */
  function SettledOrders(s: State): set<OrderId> {
    set id | id in s.db.orders && s.db.orders[id].status != Created
  }

  /** Two runs that settle the same orders end with the same enrollments, however their
      calls were ordered, interleaved, repeated or crashed. */
  lemma Converge(s: State, one: seq<Action>, two: seq<Action>)
    requires Initial(s) && OnlyCalls(one) && OnlyCalls(two)
    requires SettledOrders(Run(s, one)) == SettledOrders(Run(s, two))
    ensures Run(s, one).db.enrollments == Run(s, two).db.enrollments
  {
    SettledAreCommitted(s, one);
    SettledAreCommitted(s, two);
    RunExact(s, one);
    RunExact(s, two);
  }

  lemma SettledAreCommitted(s: State, actions: seq<Action>)
    requires Initial(s)
    ensures Run(s, actions).commits.Keys == SettledOrders(Run(s, actions))
  {
    RunInv(s, actions);
    var end := Run(s, actions);
    forall id | id in end.db.orders
      ensures end.db.orders[id].status == Created <==> id !in end.commits
    {
      assert OrderOk(end, id);
    }
  }

  /** The caller was told of success. */
  predicate Succeeded(pc: Pc) {
    pc == Finished(Delivered) || pc == Finished(Skipped)
  }

  predicate Settled(db: Db, id: OrderId) {
    id in db.orders && db.orders[id].status != Created
  }

  lemma OnlyOpenedSkips(s: State, p: Pid, fail: bool)
    requires p in s.procs && !s.procs[p].pc.Opened? && !s.procs[p].pc.Finished?
    ensures p in StepProc(s, p, fail).procs && StepProc(s, p, fail).procs[p].pc != Finished(Skipped)
  {
    match s.procs[p].pc
    case Begun =>
    case Holding(_) =>
    case Marked(_, _) =>
    case Enrolling(_, _, _, _) =>
    case PostCommit(_) =>
    case RefundApproved =>
    case RefundSent =>
  }

  /** The replies that leave an order unsettled: exactly those of a webhook whose locking
      read fails, or finds no row, while the order is unsettled. */
  lemma UnsettledSuccessIff(s: State, p: Pid, fail: bool)
    requires Inv(s) && p in s.procs && !s.procs[p].pc.Finished?
    ensures var id := s.procs[p].call.order; var s' := StepProc(s, p, fail);
            && p in s'.procs
            && (Succeeded(s'.procs[p].pc) && !Settled(s'.db, id)
                <==> && s.procs[p].pc.Opened? && s.procs[p].call.Webhook?
                     && (fail || id !in s.db.orders) && !Settled(s.db, id))
  {
    if s.procs[p].pc.Opened? {
      OpenedReply(s, p, fail);
    } else {
      OnlyOpenedSkips(s, p, fail);
      SameCall(s, Advance(p, fail), p);
      AdvanceInv(s, p, fail);
      assert ProcOk(StepProc(s, p, fail), p);
    }
  }

  lemma OpenedReply(s: State, p: Pid, fail: bool)
    requires p in s.procs && s.procs[p].pc.Opened?
    ensures var s' := StepOpened(s, p, fail);
            && p in s'.procs && s'.db == s.db
            && (Succeeded(s'.procs[p].pc) <==>
                && s.procs[p].call.Webhook? && (fail || s.procs[p].call.order !in s.db.orders))
  {
  }

  /** A success reply is not proof of settlement: one webhook, whose locking read fails. */
  lemma WebhookLosesOrder(s: State, id: OrderId)
    requires Initial(s) && id in s.db.orders && id != ""
    ensures var end := Run(s, [Start(0, Webhook(id, "pay")), Advance(0, false), Advance(0, true)]);
            && 0 in end.procs && Succeeded(end.procs[0].pc) && end.db == s.db && !Settled(end.db, id)
  {
    var a, b, c := Start(0, Webhook(id, "pay")), Advance(0, false), Advance(0, true);
    RunOn(s, [], a);
    RunOn(s, [a], b);
    RunOn(s, [a, b], c);
    assert [] + [a] == [a] && [a] + [b] == [a, b] && [a, b] + [c] == [a, b, c];
    assert Step(s, a).procs[0] == Proc(Webhook(id, "pay"), Begun);
    assert Step(Step(s, a), b).procs[0].pc == Opened;
  }

  lemma RunOn(s: State, actions: seq<Action>, a: Action)
    ensures Run(s, actions + [a]) == Step(Run(s, actions), a)
  {
    assert (actions + [a])[..|actions|] == actions;
  }

  /** A client's call reported success, or a webhook that found the row did. */
  ghost predicate DeliveredTo(s: State, id: OrderId) {
    exists p :: p in s.procs && s.procs[p].call.order == id && Succeeded(s.procs[p].pc)
                && (s.procs[p].call.Webhook? ==> s.procs[p].pc != Finished(Skipped))
  }

  ghost predicate NoRefunds(actions: seq<Action>) {
    forall a :: a in actions && a.Start? ==> !a.call.Refund?
  }

  lemma {:induction false} NoRefundCalls(s: State, actions: seq<Action>)
    requires Initial(s) && NoRefunds(actions)
    ensures forall p :: p in Run(s, actions).procs ==> !Run(s, actions).procs[p].call.Refund?
    ensures forall id :: id in Run(s, actions).db.orders ==> Run(s, actions).db.orders[id].status != Refunded
  {
    if actions != [] {
      var prefix, a := actions[..|actions|-1], actions[|actions|-1];
      NoRefundCalls(s, prefix);
      RunInv(s, prefix);
      var mid := Run(s, prefix);
      assert a in actions;
      if a.Advance? && a.p in mid.procs {
        assert ProcOk(mid, a.p);
        NoRefundStep(mid, a.p, a.fail);
      }
    }
  }

  lemma NoRefundStep(s: State, p: Pid, fail: bool)
    requires p in s.procs && ProcOk(s, p) && !s.procs[p].call.Refund?
    requires forall id :: id in s.db.orders ==> s.db.orders[id].status != Refunded
    ensures forall id :: id in StepProc(s, p, fail).db.orders ==> StepProc(s, p, fail).db.orders[id].status != Refunded
    ensures var s' := StepProc(s, p, fail);
            forall q :: q in s'.procs ==> q in s.procs && s'.procs[q].call == s.procs[q].call
  {
    match s.procs[p].pc
    case Begun =>
    case Opened =>
    case Holding(_) =>
    case Marked(_, _) =>
    case Enrolling(_, _, _, _) =>
    case PostCommit(_) =>
    case RefundApproved =>
    case RefundSent =>
    case Finished(_) =>
  }

  /** Once every order has been delivered in that sense and none is refunded, every order
      is paid and the enrollments are the initial ones plus every entitlement:
      one and the same final state for every order of deliveries. */
  lemma AllDelivered(s: State, actions: seq<Action>)
    requires Initial(s) && OnlyCalls(actions) && NoRefunds(actions)
    requires forall id :: id in s.db.orders ==> DeliveredTo(Run(s, actions), id)
    ensures var end := Run(s, actions);
            && end.db.orders.Keys == s.db.orders.Keys
            && (forall id :: id in end.db.orders ==> end.db.orders[id].status == Paid)
            && (forall pair :: pair in end.db.enrollments <==>
                               pair in s.db.enrollments || PaidFor(s.db, s.db.orders.Keys, pair))
  {
    RunInv(s, actions);
    RunExact(s, actions);
    NoRefundCalls(s, actions);
    SettledAreCommitted(s, actions);
    var end := Run(s, actions);
    forall id | id in end.db.orders
      ensures end.db.orders[id].status == Paid
    {
      assert DeliveredTo(end, id);
      var p :| p in end.procs && end.procs[p].call.order == id && Succeeded(end.procs[p].pc)
               && (end.procs[p].call.Webhook? ==> end.procs[p].pc != Finished(Skipped));
      assert ProcOk(end, p);
    }
    assert end.commits.Keys == s.db.orders.Keys;
  }

  /** What callers can see: a client's call about this order replied with success. */
  ghost predicate ClientTold(s: State, id: OrderId) {
    exists p :: p in s.procs && s.procs[p].call.order == id && !s.procs[p].call.Webhook? && Succeeded(s.procs[p].pc)
  }

  /** The same end, from the clients' replies alone. */
  lemma AllClientsTold(s: State, actions: seq<Action>)
    requires Initial(s) && OnlyCalls(actions) && NoRefunds(actions)
    requires forall id :: id in s.db.orders ==> ClientTold(Run(s, actions), id)
    ensures var end := Run(s, actions);
            && end.db.orders.Keys == s.db.orders.Keys
            && (forall id :: id in end.db.orders ==> end.db.orders[id].status == Paid)
            && (forall pair :: pair in end.db.enrollments <==>
                               pair in s.db.enrollments || PaidFor(s.db, s.db.orders.Keys, pair))
  {
    forall id | id in s.db.orders ensures DeliveredTo(Run(s, actions), id) {
      assert ClientTold(Run(s, actions), id);
    }
    AllDelivered(s, actions);
  }
}
