/** Orders, their settlement by three racing paths and their refund:
    courseorders.Verify, coursebundles.Verify, webhooks.applyPaymentSuccess and
    refunds.Issue over the `payments` and `enrollments` tables.

    Any number of calls run at once. A settlement call is one transaction: its marking
    and its enrollments are private writes, which its commit publishes and a rollback
    discards, and it holds the row lock of its order from the locking read to its end. A
    refund reads and updates outside any transaction. Every database or provider operation
    may fail and every call may crash at any point. */
module Settlement {
  import opened Wrappers

  type OrderId = string
  type UserId = string
  type CourseId = string
  type BundleId = string
  type Pid = nat

  datatype Status = Created | Paid | Refunded

  /** A payments row. `bundle` is metadata.bundle_id. */
  datatype Order = Order(
    tenant: string,
    buyer: UserId,
    course: Option<CourseId>,
    bundle: Option<BundleId>,
    status: Status,
    paymentId: string)

  datatype Effect =
    | PaymentSucceeded(order: OrderId)
    | CoursePurchased(order: OrderId, course: CourseId)
    | RewardCall(order: OrderId)

  datatype Call =
    | ClientVerify(order: OrderId, user: UserId, paymentId: string, signed: bool)
    | BundleVerify(order: OrderId, user: UserId, paymentId: string, signed: bool)
    | Webhook(order: OrderId, paymentId: string)
    | Refund(order: OrderId, tenant: string)

  /** A reply: an error, or a success. A webhook reports success (`Skipped`) also when its
      locking read fails or finds no row. */
  datatype Outcome = Delivered | Skipped | Failed

  /** The uncommitted writes of a transaction. */
  datatype Writes = Writes(row: Order, pairs: set<(UserId, CourseId)>)

  datatype Pc =
    | Begun
    | Opened
    | Holding(row: Order)
    | Marked(row: Order, tx: Writes)
    | Enrolling(row: Order, tx: Writes, items: seq<CourseId>, enrolled: nat)
    | PostCommit(pending: seq<Effect>)
    | RefundApproved
    | RefundSent
    | Finished(outcome: Outcome)

  datatype Proc = Proc(call: Call, pc: Pc)

  datatype Db = Db(
    orders: map<OrderId, Order>,
    enrollments: set<(UserId, CourseId)>,
    bundles: map<BundleId, seq<CourseId>>)

  /** Which of the optional collaborators the two services were built with. */
  datatype Wiring = Wiring(courseEvents: bool, bundleEvents: bool, referrals: bool)

  /** A record of the commit that settled an order; no step reads it. */
  datatype Commit = Commit(committer: Pid, courses: seq<CourseId>, plan: seq<Effect>)

  datatype State = State(
    wiring: Wiring,
    db: Db,
    locks: map<OrderId, Pid>,
    procs: map<Pid, Proc>,
    effects: seq<Effect>,
    commits: map<OrderId, Commit>)

  datatype Action =
    | Start(p: Pid, call: Call)
    | Advance(p: Pid, fail: bool)
    | Crash(p: Pid)
    | NewOrder(id: OrderId, order: Order)
    | SetBundle(bundle: BundleId, courses: seq<CourseId>)

  // ----- What a settlement writes -----

  function EnrollAll(buyer: UserId, courses: seq<CourseId>): set<(UserId, CourseId)> {
    set c | c in courses :: (buyer, c)
  }

  /** What one settlement amounts to: the order paid, its buyer enrolled. */
  function Settle(db: Db, id: OrderId, paymentId: string, courses: seq<CourseId>): Db
    requires id in db.orders
  {
    var row := db.orders[id];
    db.(orders := db.orders[id := AsPaid(row, paymentId)],
        enrollments := db.enrollments + EnrollAll(row.buyer, courses))
  }

  function AsPaid(row: Order, paymentId: string): Order {
    row.(status := Paid, paymentId := paymentId)
  }

  /** A commit. */
  function Publish(db: Db, id: OrderId, tx: Writes): Db {
    db.(orders := db.orders[id := tx.row], enrollments := db.enrollments + tx.pairs)
  }

  function BundleItems(db: Db, bundle: BundleId): seq<CourseId> {
    if bundle in db.bundles then db.bundles[bundle] else []
  }

  /** What a settlement announces after its commit; the webhook announces nothing. */
  function Announcements(w: Wiring, call: Call, courses: seq<CourseId>): seq<Effect> {
    match call
    case ClientVerify(id, _, _, _) =>
      Events(w.courseEvents, id, courses) + if w.referrals then [RewardCall(id)] else []
    case BundleVerify(id, _, _, _) => Events(w.bundleEvents, id, courses)
    case _ => []
  }

  function Events(producer: bool, id: OrderId, courses: seq<CourseId>): seq<Effect> {
    if producer then [PaymentSucceeded(id)] + Purchases(id, courses) else []
  }

  function Purchases(id: OrderId, courses: seq<CourseId>): seq<Effect> {
    seq(|courses|, i requires 0 <= i < |courses| => CoursePurchased(id, courses[i]))
  }

  // ----- Steps -----

  predicate Locked(s: State, id: OrderId, p: Pid) {
    id in s.locks && s.locks[id] != p
  }

  function Goto(s: State, p: Pid, pc: Pc): State
    requires p in s.procs
  {
    s.(procs := s.procs[p := s.procs[p].(pc := pc)])
  }

  /** End a transaction without committing it. */
  function Release(s: State, p: Pid, outcome: Outcome): State
    requires p in s.procs
  {
    Goto(s, p, Finished(outcome)).(locks := s.locks - {s.procs[p].call.order})
  }

  function StepBegun(s: State, p: Pid, fail: bool): State
    requires p in s.procs
  {
    var call := s.procs[p].call;
    var id := call.order;
    if fail || (IsClient(call) && !call.signed) || (call.Webhook? && id == "") then Goto(s, p, Finished(Failed))
    else if call.Refund? then
      if id in s.db.orders && s.db.orders[id].tenant == call.tenant
         && s.db.orders[id].status == Paid && s.db.orders[id].paymentId != ""
      then Goto(s, p, RefundApproved)
      else Goto(s, p, Finished(Failed))
    else Goto(s, p, Opened)
  }

  predicate IsClient(call: Call) {
    call.ClientVerify? || call.BundleVerify?
  }

  /** The locking read. The webhook takes any error for an order of another flow. */
  function StepOpened(s: State, p: Pid, fail: bool): State
    requires p in s.procs
  {
    var call := s.procs[p].call;
    var id := call.order;
    if fail || id !in s.db.orders then Goto(s, p, Finished(if call.Webhook? then Skipped else Failed))
    else if Locked(s, id, p) then s
    else Goto(s, p, Holding(s.db.orders[id])).(locks := s.locks[id := p])
  }

  function StepHolding(s: State, p: Pid, fail: bool): State
    requires p in s.procs && s.procs[p].pc.Holding?
  {
    var call, row := s.procs[p].call, s.procs[p].pc.row;
    if IsClient(call) && call.user != row.buyer then Release(s, p, Failed)
    else if row.status == Paid then Release(s, p, Delivered)
    else if row.status == Refunded then Release(s, p, if call.Webhook? then Delivered else Failed)
    else if call.BundleVerify? && row.bundle.None? then Release(s, p, Failed)
    else if fail || call.Refund? then Release(s, p, Failed)
    else Goto(s, p, Marked(row, Writes(AsPaid(row, call.paymentId), {})))
  }

  /** The bundle path lists the courses. A bundle order has a NULL course_id, which
      `enrollments` does not accept: its insert fails in the course and webhook paths. */
  function StepMarked(s: State, p: Pid, fail: bool): State
    requires p in s.procs && s.procs[p].pc.Marked?
  {
    var call, row, tx := s.procs[p].call, s.procs[p].pc.row, s.procs[p].pc.tx;
    if call.BundleVerify? then
      if fail then Release(s, p, Failed)
      else Goto(s, p, Enrolling(row, tx, if row.bundle.Some? then BundleItems(s.db, row.bundle.value) else [], 0))
    else if row.course.None? then Release(s, p, Failed)
    else Goto(s, p, Enrolling(row, tx, [row.course.value], 0))
  }

  /** The next insert, or the commit. */
  function StepEnrolling(s: State, p: Pid, fail: bool): State
    requires p in s.procs && s.procs[p].pc.Enrolling?
  {
    var call, pc := s.procs[p].call, s.procs[p].pc;
    if fail then Release(s, p, Failed)
    else if pc.enrolled < |pc.items| then
      var pair := (pc.row.buyer, pc.items[pc.enrolled]);
      Goto(s, p, pc.(tx := pc.tx.(pairs := pc.tx.pairs + {pair}), enrolled := pc.enrolled + 1))
    else
      var plan := Announcements(s.wiring, call, pc.items);
      Goto(s, p, PostCommit(plan)).(
        db := Publish(s.db, call.order, pc.tx),
        locks := s.locks - {call.order},
        commits := s.commits[call.order := Commit(p, pc.items, plan)])
  }

  function StepPostCommit(s: State, p: Pid): State
    requires p in s.procs && s.procs[p].pc.PostCommit?
  {
    var pending := s.procs[p].pc.pending;
    if pending == [] then Goto(s, p, Finished(Delivered))
    else Goto(s, p, PostCommit(pending[1..])).(effects := s.effects + [pending[0]])
  }

  /** The refund update waits for a row lock but does not look at the status again. */
  function StepRefundSent(s: State, p: Pid, fail: bool): State
    requires p in s.procs
  {
    var id := s.procs[p].call.order;
    if fail || id !in s.db.orders then Goto(s, p, Finished(Failed))
    else if Locked(s, id, p) then s
    else AfterRefund(s, p)
  }

  function StepProc(s: State, p: Pid, fail: bool): State
    requires p in s.procs
  {
    match s.procs[p].pc
    case Begun => StepBegun(s, p, fail)
    case Opened => StepOpened(s, p, fail)
    case Holding(_) => StepHolding(s, p, fail)
    case Marked(_, _) => StepMarked(s, p, fail)
    case Enrolling(_, _, _, _) => StepEnrolling(s, p, fail)
    case PostCommit(_) => StepPostCommit(s, p)
    case RefundApproved => Goto(s, p, if fail then Finished(Failed) else RefundSent)
    case RefundSent => StepRefundSent(s, p, fail)
    case Finished(_) => s
  }

  predicate InTransaction(pc: Pc) {
    pc.Holding? || pc.Marked? || pc.Enrolling?
  }

  /** Buy and its bundle sibling write exactly one of course_id and metadata.bundle_id. */
  predicate Fresh(order: Order) {
    order.status == Created && (order.course.Some? <==> order.bundle.None?)
  }

  predicate Distinct<T(==)>(xs: seq<T>) {
    forall i, j :: 0 <= i < j < |xs| ==> xs[i] != xs[j]
  }

  function Step(s: State, a: Action): State {
    match a
    case Start(p, call) => if p in s.procs then s else s.(procs := s.procs[p := Proc(call, Begun)])
    case Advance(p, fail) => if p in s.procs then StepProc(s, p, fail) else s
    case Crash(p) =>
      if p !in s.procs || s.procs[p].pc.Finished? then s
      else if InTransaction(s.procs[p].pc) then Release(s, p, Failed)
      else Goto(s, p, Finished(Failed))
    case NewOrder(id, order) =>
      if id in s.db.orders || !Fresh(order) then s else s.(db := s.db.(orders := s.db.orders[id := order]))
    case SetBundle(bundle, courses) =>
      if Distinct(courses) then s.(db := s.db.(bundles := s.db.bundles[bundle := courses])) else s
  }

  function Run(s: State, actions: seq<Action>): State {
    if actions == [] then s else Step(Run(s, actions[..|actions|-1]), actions[|actions|-1])
  }

  /** No call has started; every order is waiting for its payment. */
  ghost predicate Initial(s: State) {
    && s.locks == map[] && s.procs == map[] && s.effects == [] && s.commits == map[]
    && (forall id :: id in s.db.orders ==> Fresh(s.db.orders[id]))
    && (forall b :: b in s.db.bundles ==> Distinct(s.db.bundles[b]))
  }

  // ----- The invariant -----

  ghost predicate HoldsRow(s: State, p: Pid)
    requires p in s.procs && InTransaction(s.procs[p].pc)
  {
    var id := s.procs[p].call.order;
    && id in s.locks && s.locks[id] == p
    && id in s.db.orders && s.db.orders[id] == s.procs[p].pc.row
    && !s.procs[p].call.Refund?
    && (!s.procs[p].pc.Holding? ==>
          s.procs[p].pc.row.status == Created
          && s.procs[p].pc.tx.row == AsPaid(s.procs[p].pc.row, s.procs[p].call.paymentId))
    && (s.procs[p].pc.Marked? ==> s.procs[p].pc.tx.pairs == {})
    && (s.procs[p].call.BundleVerify? && !s.procs[p].pc.Holding? ==> s.procs[p].pc.row.bundle.Some?)
    && (s.procs[p].pc.Enrolling? ==>
          && Distinct(s.procs[p].pc.items) && s.procs[p].pc.enrolled <= |s.procs[p].pc.items|
          && s.procs[p].pc.tx.pairs == EnrollAll(s.procs[p].pc.row.buyer, s.procs[p].pc.items[..s.procs[p].pc.enrolled])
          && (!s.procs[p].call.BundleVerify? ==>
                s.procs[p].pc.row.course.Some? && s.procs[p].pc.items == [s.procs[p].pc.row.course.value]))
  }

  ghost predicate ProcOk(s: State, p: Pid)
    requires p in s.procs
  {
    var call, pc := s.procs[p].call, s.procs[p].pc;
    && (pc.Opened? ==> !call.Refund?)
    && (pc == Finished(Skipped) ==> call.Webhook?)
    && (InTransaction(pc) ==> HoldsRow(s, p))
    && (pc.PostCommit? ==> call.order in s.commits && s.commits[call.order].committer == p
                           && s.commits[call.order].plan == EffectsOf(call.order, s.effects) + pc.pending)
    && (pc.RefundApproved? || pc.RefundSent? ==>
          call.Refund? && call.order in s.db.orders && s.db.orders[call.order].status != Created)
    && (pc == Finished(Delivered) ==>
          call.order in s.db.orders && s.db.orders[call.order].status != Created
          && (call.Refund? ==> s.db.orders[call.order].status == Refunded))
    && (call.order in s.commits && s.commits[call.order].committer == p ==>
          && (pc.PostCommit? || pc.Finished?)
          && (pc == Finished(Delivered) ==> EffectsOf(call.order, s.effects) == s.commits[call.order].plan))
  }

  ghost predicate OrderOk(s: State, id: OrderId)
    requires id in s.db.orders
  {
    var row := s.db.orders[id];
    && (row.course.Some? <==> row.bundle.None?)
    && (row.status == Created <==> id !in s.commits)
    && (id in s.commits ==>
          var c := s.commits[id];
          && c.committer in s.procs && s.procs[c.committer].call.order == id && !s.procs[c.committer].call.Refund?
          && Distinct(c.courses) && row.paymentId == s.procs[c.committer].call.paymentId
          && c.plan == Announcements(s.wiring, s.procs[c.committer].call, c.courses)
          && (row.course.Some? ==> c.courses == [row.course.value] && !s.procs[c.committer].call.BundleVerify?)
          && (row.bundle.Some? ==> s.procs[c.committer].call.BundleVerify?)
          && EnrollAll(row.buyer, c.courses) <= s.db.enrollments)
  }

  /** The effects concerning one order, in the order they fired. */
  function EffectsOf(id: OrderId, effects: seq<Effect>): seq<Effect> {
    if effects == [] then []
    else
      var rest := EffectsOf(id, effects[..|effects|-1]);
      var e := effects[|effects|-1];
      if e.order == id then rest + [e] else rest
  }

  ghost predicate ProcsOk(s: State) {
    forall p :: p in s.procs ==> ProcOk(s, p)
  }

  ghost predicate OrdersOk(s: State) {
    forall id :: id in s.db.orders ==> OrderOk(s, id)
  }

  ghost predicate LocksOk(s: State) {
    forall id :: id in s.locks ==>
      s.locks[id] in s.procs && s.procs[s.locks[id]].call.order == id && InTransaction(s.procs[s.locks[id]].pc)
  }

  ghost predicate BundlesOk(s: State) {
    forall b :: b in s.db.bundles ==> Distinct(s.db.bundles[b])
  }

  ghost predicate EffectsOk(s: State) {
    && (forall id :: id in s.commits ==> id in s.db.orders && EffectsOf(id, s.effects) <= s.commits[id].plan)
    && (forall id :: id !in s.commits ==> EffectsOf(id, s.effects) == [])
  }

  ghost predicate Inv(s: State) {
    ProcsOk(s) && OrdersOk(s) && LocksOk(s) && BundlesOk(s) && EffectsOk(s)
  }

  lemma InitialInv(s: State)
    requires Initial(s)
    ensures Inv(s)
  {
  }

  lemma EffectsOfAppend(id: OrderId, effects: seq<Effect>, e: Effect)
    ensures EffectsOf(id, effects + [e])
         == if e.order == id then EffectsOf(id, effects) + [e] else EffectsOf(id, effects)
  {
    assert (effects + [e])[..|effects|] == effects;
  }

  /** What a step must leave alone for another call q to stay in order. */
  lemma ProcFrame(s: State, s': State, q: Pid)
    requires q in s.procs && q in s'.procs && s'.procs[q] == s.procs[q] && ProcOk(s, q)
    requires var id := s.procs[q].call.order;
             && (InTransaction(s.procs[q].pc) ==>
                   id in s'.locks && s'.locks[id] == q && id in s'.db.orders && s'.db.orders[id] == s.db.orders[id])
             && (id in s.db.orders && s.db.orders[id].status != Created ==>
                   id in s'.db.orders && s'.db.orders[id].status != Created
                   && (s.db.orders[id].status == Refunded ==> s'.db.orders[id].status == Refunded))
             && (id in s.commits && s.commits[id].committer == q ==>
                   EffectsOf(id, s'.effects) == EffectsOf(id, s.effects))
             && (id in s.commits ==> id in s'.commits && s'.commits[id] == s.commits[id])
             && (id in s'.commits && s'.commits[id].committer == q ==> id in s.commits)
    ensures ProcOk(s', q)
  {
  }

  /** What a step must leave alone for an order it does not settle to stay in order. */
  lemma OrderFrame(s: State, s': State, id: OrderId)
    requires id in s.db.orders && id in s'.db.orders && OrderOk(s, id) && s'.wiring == s.wiring
    requires s'.db.orders[id] == s.db.orders[id]
          || (s.db.orders[id].status != Created && s'.db.orders[id] == s.db.orders[id].(status := Refunded))
    requires id in s.commits <==> id in s'.commits
    requires id in s.commits ==>
               s'.commits[id] == s.commits[id] && s.commits[id].committer in s'.procs
               && s'.procs[s.commits[id].committer].call == s.procs[s.commits[id].committer].call
    requires s.db.enrollments <= s'.db.enrollments
    ensures OrderOk(s', id)
  {
  }

  /** A step of call p that moves only its own program counter, and its lock. */
  lemma MoveInv(s: State, s': State, p: Pid)
    requires Inv(s) && p in s.procs && p in s'.procs && s'.procs == s.procs[p := s'.procs[p]]
    requires s'.procs[p].call == s.procs[p].call && ProcOk(s', p)
    requires s'.db == s.db && s'.effects == s.effects && s'.commits == s.commits && s'.wiring == s.wiring
    requires LocksOk(s') && HoldersKept(s, s', p)
    ensures Inv(s')
  {
    forall q | q in s'.procs ensures ProcOk(s', q) {
      if q != p {
        assert ProcOk(s, q);
        ProcFrame(s, s', q);
      }
    }
    forall id | id in s'.db.orders ensures OrderOk(s', id) {
      assert OrderOk(s, id);
      OrderFrame(s, s', id);
    }
  }

  ghost predicate HoldersKept(s: State, s': State, p: Pid) {
    forall q :: q in s.procs && q != p && InTransaction(s.procs[q].pc) ==>
      s.procs[q].call.order in s'.locks && s'.locks[s.procs[q].call.order] == q
  }

  /** A call that lets go of its own row takes nobody else's lock. */
  lemma ReleaseLocks(s: State, p: Pid, outcome: Outcome)
    requires ProcsOk(s) && LocksOk(s) && p in s.procs && InTransaction(s.procs[p].pc)
    ensures LocksOk(Release(s, p, outcome)) && HoldersKept(s, Release(s, p, outcome), p)
  {
    assert ProcOk(s, p);
    forall q | q in s.procs && q != p && InTransaction(s.procs[q].pc)
      ensures s.procs[q].call.order in Release(s, p, outcome).locks
      ensures Release(s, p, outcome).locks[s.procs[q].call.order] == q
    {
      assert ProcOk(s, q);
    }
  }

  lemma ReleaseInv(s: State, p: Pid, outcome: Outcome)
    requires Inv(s) && p in s.procs && InTransaction(s.procs[p].pc)
    requires outcome != Skipped && (outcome == Delivered ==> s.procs[p].pc.row.status != Created)
    ensures Inv(Release(s, p, outcome))
  {
    assert ProcOk(s, p);
    ReleaseLocks(s, p, outcome);
    MoveInv(s, Release(s, p, outcome), p);
  }

  lemma GotoLocks(s: State, p: Pid, pc: Pc)
    requires ProcsOk(s) && LocksOk(s) && p in s.procs && (InTransaction(s.procs[p].pc) ==> InTransaction(pc))
    ensures LocksOk(Goto(s, p, pc)) && HoldersKept(s, Goto(s, p, pc), p)
  {
    forall q | q in s.procs && q != p && InTransaction(s.procs[q].pc)
      ensures s.procs[q].call.order in s.locks && s.locks[s.procs[q].call.order] == q
    {
      assert ProcOk(s, q);
    }
  }

  /** Moving on without touching anything shared. */
  lemma GotoInv(s: State, p: Pid, pc: Pc)
    requires Inv(s) && p in s.procs && ProcOk(Goto(s, p, pc), p)
    requires InTransaction(s.procs[p].pc) ==> InTransaction(pc)
    ensures Inv(Goto(s, p, pc))
  {
    GotoLocks(s, p, pc);
    MoveInv(s, Goto(s, p, pc), p);
  }

  lemma LockInv(s: State, p: Pid)
    requires Inv(s) && p in s.procs && s.procs[p].pc.Opened? && !s.procs[p].call.Refund?
    requires s.procs[p].call.order in s.db.orders && !Locked(s, s.procs[p].call.order, p)
    ensures var id := s.procs[p].call.order;
            Inv(Goto(s, p, Holding(s.db.orders[id])).(locks := s.locks[id := p]))
  {
    var id := s.procs[p].call.order;
    var s' := Goto(s, p, Holding(s.db.orders[id])).(locks := s.locks[id := p]);
    forall q | q in s.procs && q != p && InTransaction(s.procs[q].pc)
      ensures s.procs[q].call.order in s'.locks && s'.locks[s.procs[q].call.order] == q
    {
      assert ProcOk(s, q);
    }
    MoveInv(s, s', p);
  }

  lemma BegunInv(s: State, p: Pid, fail: bool)
    requires Inv(s) && p in s.procs && s.procs[p].pc.Begun?
    ensures Inv(StepBegun(s, p, fail))
  {
    assert ProcOk(s, p);
    GotoInv(s, p, StepBegun(s, p, fail).procs[p].pc);
  }

  lemma OpenedInv(s: State, p: Pid, fail: bool)
    requires Inv(s) && p in s.procs && s.procs[p].pc.Opened?
    ensures Inv(StepOpened(s, p, fail))
  {
    assert ProcOk(s, p);
    var s' := StepOpened(s, p, fail);
    if s'.procs[p].pc.Holding? {
      LockInv(s, p);
    } else if s'.procs[p].pc.Finished? {
      GotoInv(s, p, s'.procs[p].pc);
    }
  }

  lemma HoldingInv(s: State, p: Pid, fail: bool)
    requires Inv(s) && p in s.procs && s.procs[p].pc.Holding?
    ensures Inv(StepHolding(s, p, fail))
  {
    assert ProcOk(s, p);
    var s' := StepHolding(s, p, fail);
    if s'.procs[p].pc.Marked? {
      GotoInv(s, p, s'.procs[p].pc);
    } else {
      ReleaseInv(s, p, s'.procs[p].pc.outcome);
    }
  }

  lemma MarkedInv(s: State, p: Pid, fail: bool)
    requires Inv(s) && p in s.procs && s.procs[p].pc.Marked?
    ensures Inv(StepMarked(s, p, fail))
  {
    assert ProcOk(s, p);
    var s' := StepMarked(s, p, fail);
    if s'.procs[p].pc.Enrolling? {
      GotoInv(s, p, s'.procs[p].pc);
    } else {
      ReleaseInv(s, p, Failed);
    }
  }

  lemma EnrollNext(buyer: UserId, items: seq<CourseId>, k: nat)
    requires k < |items|
    ensures EnrollAll(buyer, items[..k]) + {(buyer, items[k])} == EnrollAll(buyer, items[..k + 1])
  {
    assert items[..k + 1] == items[..k] + [items[k]];
  }

  /** The writes that a commit publishes are those of one whole settlement. */
  lemma PublishIsSettle(s: State, p: Pid)
    requires p in s.procs && s.procs[p].pc.Enrolling? && HoldsRow(s, p)
    requires s.procs[p].pc.enrolled >= |s.procs[p].pc.items|
    ensures StepEnrolling(s, p, false).db
         == Settle(s.db, s.procs[p].call.order, s.procs[p].call.paymentId, s.procs[p].pc.items)
  {
    var items := s.procs[p].pc.items;
    assert items[..s.procs[p].pc.enrolled] == items;
  }

  lemma CommitInv(s: State, p: Pid)
    requires Inv(s) && p in s.procs && s.procs[p].pc.Enrolling?
    requires s.procs[p].pc.enrolled >= |s.procs[p].pc.items|
    ensures Inv(StepEnrolling(s, p, false))
  {
    assert ProcOk(s, p);
    PublishIsSettle(s, p);
    SettleInv(s, StepEnrolling(s, p, false), p);
  }

  /** `s'` is `s` after call p has committed one settlement. */
  ghost predicate Committed(s: State, s': State, p: Pid)
    requires p in s.procs && s.procs[p].pc.Enrolling? && !s.procs[p].call.Refund?
    requires s.procs[p].call.order in s.db.orders
  {
    var call, items := s.procs[p].call, s.procs[p].pc.items;
    var plan := Announcements(s.wiring, call, items);
    s' == Goto(s, p, PostCommit(plan)).(
      db := Settle(s.db, call.order, call.paymentId, items),
      locks := s.locks - {call.order},
      commits := s.commits[call.order := Commit(p, items, plan)])
  }

  lemma CommittedProcs(s: State, s': State, p: Pid, q: Pid)
    requires Inv(s) && p in s.procs && s.procs[p].pc.Enrolling? && HoldsRow(s, p) && Committed(s, s', p)
    requires q in s'.procs && EffectsOf(s.procs[p].call.order, s.effects) == []
    ensures ProcOk(s', q)
  {
    if q == p {
      var plan := s'.procs[p].pc.pending;
      assert plan == [] + plan;
    } else {
      assert ProcOk(s, q);
      assert OrderOk(s, s.procs[p].call.order);
      ProcFrame(s, s', q);
    }
  }

  lemma CommittedOrders(s: State, s': State, p: Pid, id: OrderId)
    requires Inv(s) && p in s.procs && s.procs[p].pc.Enrolling? && HoldsRow(s, p) && Committed(s, s', p)
    requires id in s.db.orders
    ensures OrderOk(s', id)
  {
    assert OrderOk(s, id);
    if id != s.procs[p].call.order {
      OrderFrame(s, s', id);
    }
  }

  lemma SettleInv(s: State, s': State, p: Pid)
    requires Inv(s) && p in s.procs && s.procs[p].pc.Enrolling? && HoldsRow(s, p) && Committed(s, s', p)
    ensures Inv(s')
  {
    var id := s.procs[p].call.order;
    assert OrderOk(s, id);
    assert EffectsOf(id, s.effects) == [];
    forall q | q in s'.procs ensures ProcOk(s', q) {
      CommittedProcs(s, s', p, q);
    }
    forall i | i in s'.db.orders ensures OrderOk(s', i) {
      CommittedOrders(s, s', p, i);
    }
  }

  lemma EnrollingInv(s: State, p: Pid, fail: bool)
    requires Inv(s) && p in s.procs && s.procs[p].pc.Enrolling?
    ensures Inv(StepEnrolling(s, p, fail))
  {
    assert ProcOk(s, p);
    var s' := StepEnrolling(s, p, fail);
    if s'.procs[p].pc.PostCommit? {
      CommitInv(s, p);
    } else if s'.procs[p].pc.Enrolling? {
      EnrollNext(s.procs[p].pc.row.buyer, s.procs[p].pc.items, s.procs[p].pc.enrolled);
      GotoInv(s, p, s'.procs[p].pc);
    } else {
      ReleaseInv(s, p, Failed);
    }
  }

  lemma AnnouncementsAreOwn(w: Wiring, call: Call, courses: seq<CourseId>)
    ensures forall e :: e in Announcements(w, call, courses) ==> e.order == call.order
  {
  }

  /** The next effect due, and what stays due after it. */
  lemma PendingIsOwn(s: State, p: Pid)
    requires Inv(s) && p in s.procs && s.procs[p].pc.PostCommit? && s.procs[p].pc.pending != []
    ensures var id, pending := s.procs[p].call.order, s.procs[p].pc.pending;
            && id in s.commits && s.commits[id].committer == p
            && pending[0].order == id
            && s.commits[id].plan == EffectsOf(id, s.effects) + [pending[0]] + pending[1..]
  {
    assert ProcOk(s, p);
    var id, pending := s.procs[p].call.order, s.procs[p].pc.pending;
    assert id in s.db.orders && OrderOk(s, id);
    var c := s.commits[id];
    AnnouncementsAreOwn(s.wiring, s.procs[c.committer].call, c.courses);
    SplitFirst(EffectsOf(id, s.effects), pending);
    assert pending[0] in c.plan;
  }

  lemma SplitFirst(fired: seq<Effect>, pending: seq<Effect>)
    requires pending != []
    ensures fired + pending == fired + [pending[0]] + pending[1..] && pending[0] in fired + pending
  {
    assert (fired + pending)[|fired|] == pending[0];
  }

  lemma FiredEffects(s: State, id: OrderId, e: Effect, rest: seq<Effect>)
    requires EffectsOk(s) && id in s.commits && e.order == id
    requires s.commits[id].plan == EffectsOf(id, s.effects) + [e] + rest
    ensures EffectsOk(s.(effects := s.effects + [e]))
    ensures EffectsOf(id, s.effects + [e]) == EffectsOf(id, s.effects) + [e]
    ensures forall i :: i != id ==> EffectsOf(i, s.effects + [e]) == EffectsOf(i, s.effects)
  {
    forall i
      ensures EffectsOf(i, s.effects + [e])
           == if i == id then EffectsOf(i, s.effects) + [e] else EffectsOf(i, s.effects)
    {
      EffectsOfAppend(i, s.effects, e);
    }
  }

  lemma FiredProc(s: State, p: Pid, q: Pid)
    requires p in s.procs && s.procs[p].pc.PostCommit? && s.procs[p].pc.pending != []
    requires q in s.procs && q != p && ProcOk(s, q)
    requires s.procs[p].call.order in s.commits && s.commits[s.procs[p].call.order].committer == p
    requires var id := s.procs[q].call.order;
             id != s.procs[p].call.order ==>
               EffectsOf(id, s.effects + [s.procs[p].pc.pending[0]]) == EffectsOf(id, s.effects)
    ensures ProcOk(StepPostCommit(s, p), q)
  {
    ProcFrame(s, StepPostCommit(s, p), q);
  }

  lemma FireInv(s: State, p: Pid)
    requires Inv(s) && p in s.procs && s.procs[p].pc.PostCommit? && s.procs[p].pc.pending != []
    ensures Inv(StepPostCommit(s, p))
  {
    assert ProcOk(s, p);
    var id, pending := s.procs[p].call.order, s.procs[p].pc.pending;
    var s' := StepPostCommit(s, p);
    PendingIsOwn(s, p);
    FiredEffects(s, id, pending[0], pending[1..]);
    forall q | q in s'.procs && q != p ensures ProcOk(s', q) {
      assert ProcOk(s, q);
      FiredProc(s, p, q);
    }
    assert ProcOk(s', p);
    forall i | i in s'.db.orders ensures OrderOk(s', i) {
      assert OrderOk(s, i);
      OrderFrame(s, s', i);
    }
  }

  lemma PostCommitInv(s: State, p: Pid)
    requires Inv(s) && p in s.procs && s.procs[p].pc.PostCommit?
    ensures Inv(StepPostCommit(s, p))
  {
    if s.procs[p].pc.pending == [] {
      assert ProcOk(s, p);
      assert OrderOk(s, s.procs[p].call.order);
      GotoInv(s, p, Finished(Delivered));
    } else {
      FireInv(s, p);
    }
  }

  function AfterRefund(s: State, p: Pid): State
    requires p in s.procs && s.procs[p].call.order in s.db.orders
  {
    var id := s.procs[p].call.order;
    Goto(s, p, Finished(Delivered)).(db := s.db.(orders := s.db.orders[id := s.db.orders[id].(status := Refunded)]))
  }

  lemma RefundedProcs(s: State, p: Pid, q: Pid)
    requires Inv(s) && p in s.procs && q in s.procs && s.procs[p].pc.RefundSent?
    requires s.procs[p].call.order in s.db.orders && !Locked(s, s.procs[p].call.order, p)
    ensures ProcOk(AfterRefund(s, p), q)
  {
    assert ProcOk(s, p) && ProcOk(s, q);
    if q != p {
      ProcFrame(s, AfterRefund(s, p), q);
    }
  }

  lemma RefundedInv(s: State, p: Pid)
    requires Inv(s) && p in s.procs && s.procs[p].pc.RefundSent?
    requires s.procs[p].call.order in s.db.orders && !Locked(s, s.procs[p].call.order, p)
    ensures Inv(AfterRefund(s, p))
  {
    assert ProcOk(s, p);
    var s' := AfterRefund(s, p);
    forall q | q in s'.procs ensures ProcOk(s', q) {
      RefundedProcs(s, p, q);
    }
    forall i | i in s'.db.orders ensures OrderOk(s', i) {
      assert OrderOk(s, i);
      OrderFrame(s, s', i);
    }
  }

  lemma RefundSentInv(s: State, p: Pid, fail: bool)
    requires Inv(s) && p in s.procs && s.procs[p].pc.RefundSent?
    ensures Inv(StepRefundSent(s, p, fail))
  {
    assert ProcOk(s, p);
    if fail || s.procs[p].call.order !in s.db.orders {
      GotoInv(s, p, Finished(Failed));
    } else if !Locked(s, s.procs[p].call.order, p) {
      RefundedInv(s, p);
    }
  }

  /** A step that only adds a call or an order, or edits a bundle. */
  lemma OthersInv(s: State, s': State)
    requires Inv(s) && BundlesOk(s')
    requires s'.locks == s.locks && s'.effects == s.effects && s'.commits == s.commits && s'.wiring == s.wiring
    requires s'.db.enrollments == s.db.enrollments
    requires forall p :: p in s.procs ==> p in s'.procs && s'.procs[p] == s.procs[p]
    requires forall p :: p in s'.procs && p !in s.procs ==> s'.procs[p].pc.Begun?
    requires forall id :: id in s.db.orders ==> id in s'.db.orders && s'.db.orders[id] == s.db.orders[id]
    requires forall id :: id in s'.db.orders && id !in s.db.orders ==> Fresh(s'.db.orders[id])
    ensures Inv(s')
  {
    forall q | q in s'.procs ensures ProcOk(s', q) {
      if q in s.procs {
        assert ProcOk(s, q);
        ProcFrame(s, s', q);
      }
    }
    forall id | id in s'.db.orders ensures OrderOk(s', id) {
      if id in s.db.orders {
        assert OrderOk(s, id);
        OrderFrame(s, s', id);
      }
    }
  }

  lemma AdvanceInv(s: State, p: Pid, fail: bool)
    requires Inv(s) && p in s.procs
    ensures Inv(StepProc(s, p, fail))
  {
    match s.procs[p].pc
    case Begun => BegunInv(s, p, fail);
    case Opened => OpenedInv(s, p, fail);
    case Holding(_) => HoldingInv(s, p, fail);
    case Marked(_, _) => MarkedInv(s, p, fail);
    case Enrolling(_, _, _, _) => EnrollingInv(s, p, fail);
    case PostCommit(_) => PostCommitInv(s, p);
    case RefundApproved =>
      assert ProcOk(s, p);
      GotoInv(s, p, if fail then Finished(Failed) else RefundSent);
    case RefundSent => RefundSentInv(s, p, fail);
    case Finished(_) =>
  }

  lemma CrashInv(s: State, p: Pid)
    requires Inv(s)
    ensures Inv(Step(s, Crash(p)))
  {
    if p in s.procs && !s.procs[p].pc.Finished? {
      assert ProcOk(s, p);
      if InTransaction(s.procs[p].pc) {
        ReleaseInv(s, p, Failed);
      } else {
        GotoInv(s, p, Finished(Failed));
      }
    }
  }

  lemma StartInv(s: State, p: Pid, call: Call)
    requires Inv(s)
    ensures Inv(Step(s, Start(p, call)))
  {
    if p !in s.procs {
      OthersInv(s, s.(procs := s.procs[p := Proc(call, Begun)]));
    }
  }

  lemma NewOrderInv(s: State, id: OrderId, order: Order)
    requires Inv(s)
    ensures Inv(Step(s, NewOrder(id, order)))
  {
    if id !in s.db.orders && Fresh(order) {
      OthersInv(s, s.(db := s.db.(orders := s.db.orders[id := order])));
    }
  }

  lemma SetBundleInv(s: State, bundle: BundleId, courses: seq<CourseId>)
    requires Inv(s)
    ensures Inv(Step(s, SetBundle(bundle, courses)))
  {
    if Distinct(courses) {
      OthersInv(s, s.(db := s.db.(bundles := s.db.bundles[bundle := courses])));
    }
  }

  /** Every step, of any call or of the administrators, keeps the invariant. */
  lemma StepInv(s: State, a: Action)
    requires Inv(s)
    ensures Inv(Step(s, a))
  {
    match a
    case Advance(p, fail) =>
      if p in s.procs {
        AdvanceInv(s, p, fail);
      }
    case Crash(p) => CrashInv(s, p);
    case Start(p, call) => StartInv(s, p, call);
    case NewOrder(id, order) => NewOrderInv(s, id, order);
    case SetBundle(bundle, courses) => SetBundleInv(s, bundle, courses);
  }

  lemma {:induction false} RunInv(s: State, actions: seq<Action>)
    requires Initial(s)
    ensures Inv(Run(s, actions))
  {
    if actions == [] {
      InitialInv(s);
    } else {
      RunInv(s, actions[..|actions|-1]);
      StepInv(Run(s, actions[..|actions|-1]), actions[|actions|-1]);
    }
  }
}
