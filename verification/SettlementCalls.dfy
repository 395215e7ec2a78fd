/** What one settlement or refund call does when nothing else runs: the specification of
    the services' four methods, and the proof that a call of the concurrent machine that
    nothing overlaps does exactly that. */
module SettlementCalls {
  import opened Wrappers
  import opened Settlement
  import opened SettlementRuns

  /** The operations that can fail. */
  datatype Op = BeginTx | LockRow | MarkPaid | ListItems | Enroll(course: CourseId) | CommitTx
              | ReadRow | ProviderRefund | MarkRefunded

  // ----- Specification -----

  /** The courses that a settling call enrolls. */
  function Courses(db: Db, call: Call, row: Order): seq<CourseId> {
    if call.BundleVerify? then (if row.bundle.Some? then BundleItems(db, row.bundle.value) else [])
    else if row.course.Some? then [row.course.value] else []
  }

  /** A course order, or for the bundle path a bundle order. */
  predicate Suits(call: Call, row: Order) {
    if call.BundleVerify? then row.bundle.Some? else row.course.Some?
  }

  /** The transaction's writes and its commit work. */
  predicate Works(db: Db, call: Call, row: Order, faults: set<Op>) {
    && Suits(call, row) && {MarkPaid, CommitTx} !! faults && (call.BundleVerify? ==> ListItems !in faults)
    && forall c :: c in Courses(db, call, row) ==> Enroll(c) !in faults
  }

  /** Whether the call reports success. */
  predicate Succeeds(db: Db, call: Call, faults: set<Op>) {
    match call
    case Webhook(id, _) =>
      && id != "" && BeginTx !in faults
      && (LockRow in faults || id !in db.orders || db.orders[id].status != Created
          || Works(db, call, db.orders[id], faults))
    case Refund(id, tenant) =>
      && {ReadRow, ProviderRefund, MarkRefunded} !! faults && id in db.orders
      && db.orders[id].tenant == tenant && db.orders[id].status == Paid && db.orders[id].paymentId != ""
    case _ =>
      && call.signed && {BeginTx, LockRow} !! faults
      && call.order in db.orders && db.orders[call.order].buyer == call.user
      && (db.orders[call.order].status == Paid
          || (db.orders[call.order].status == Created && Works(db, call, db.orders[call.order], faults)))
  }

  predicate Settles(db: Db, call: Call, faults: set<Op>) {
    && !call.Refund? && Succeeds(db, call, faults) && LockRow !in faults
    && call.order in db.orders && db.orders[call.order].status == Created
  }

  /** The tables afterwards: one whole settlement, a refund, or no change. */
  function Written(db: Db, call: Call, faults: set<Op>): Db {
    if Settles(db, call, faults) then Settle(db, call.order, call.paymentId, Courses(db, call, db.orders[call.order]))
    else if call.Refund? && Succeeds(db, call, faults) then
      db.(orders := db.orders[call.order := db.orders[call.order].(status := Refunded)])
    else db
  }

  function Said(w: Wiring, db: Db, call: Call, faults: set<Op>): seq<Effect> {
    if Settles(db, call, faults) then Announcements(w, call, Courses(db, call, db.orders[call.order])) else []
  }

  /** A call reports success and leaves its order unsettled exactly when it is a webhook
      and the locking read failed on an unsettled order or found no row. */
  lemma UnsettledReplyIff(db: Db, call: Call, faults: set<Op>)
    ensures Succeeds(db, call, faults) && !Settled(Written(db, call, faults), call.order)
       <==> && call.Webhook? && call.order != "" && BeginTx !in faults
            && (call.order !in db.orders || (LockRow in faults && db.orders[call.order].status == Created))
  {
  }

  // ----- A lone call of the machine -----

  /** The operation that the call is about to do. */
  function NextOp(call: Call, pc: Pc): Option<Op> {
    match pc
    case Begun => Some(if call.Refund? then ReadRow else BeginTx)
    case Opened => Some(LockRow)
    case Holding(_) => Some(MarkPaid)
    case Marked(_, _) => Some(ListItems)
    case Enrolling(_, _, items, enrolled) => Some(if enrolled < |items| then Enroll(items[enrolled]) else CommitTx)
    case PostCommit(_) => None
    case RefundApproved => Some(ProviderRefund)
    case RefundSent => Some(MarkRefunded)
    case Finished(_) => None
  }

  function AloneStep(s: State, p: Pid, faults: set<Op>): (r: State)
    requires p in s.procs
    ensures p in r.procs
  {
    var op := NextOp(s.procs[p].call, s.procs[p].pc);
    var fail := op.Some? && op.value in faults;
    SameCall(s, Advance(p, fail), p);
    StepProc(s, p, fail)
  }

  /** The state after n steps of call p. */
  function Alone(s: State, p: Pid, faults: set<Op>, n: nat): State
    requires p in s.procs
    decreases n
  {
    if n == 0 then s else Alone(AloneStep(s, p, faults), p, faults, n - 1)
  }

  /** Up to the locking read nothing has failed. */
  predicate Allowed(call: Call, faults: set<Op>) {
    && !call.Refund? && BeginTx !in faults && (IsClient(call) ==> call.signed) && (call.Webhook? ==> call.order != "")
  }

  predicate HasRow(db: Db, call: Call, faults: set<Op>, row: Order) {
    && Allowed(call, faults) && LockRow !in faults && call.order in db.orders && row == db.orders[call.order]
  }

  predicate HasMarked(db: Db, call: Call, faults: set<Op>, row: Order, tx: Writes) {
    && HasRow(db, call, faults, row) && row.status == Created && MarkPaid !in faults
    && (IsClient(call) ==> row.buyer == call.user) && (call.BundleVerify? ==> row.bundle.Some?)
    && tx.row == AsPaid(row, call.paymentId)
  }

  /** Where the call stands, in terms of the tables it began with. */
  ghost predicate Halfway(s0: State, s: State, call: Call, pc: Pc, faults: set<Op>) {
    match pc
    case Begun => Untouched(s0, s)
    case Opened => Untouched(s0, s) && Allowed(call, faults)
    case Holding(row) => Untouched(s0, s) && HasRow(s0.db, call, faults, row)
    case Marked(row, tx) => Untouched(s0, s) && HasMarked(s0.db, call, faults, row, tx) && tx.pairs == {}
    case Enrolling(row, tx, items, enrolled) =>
      && Untouched(s0, s) && HasMarked(s0.db, call, faults, row, tx) && Suits(call, row)
      && (call.BundleVerify? ==> ListItems !in faults) && items == Courses(s0.db, call, row)
      && enrolled <= |items| && tx.pairs == EnrollAll(row.buyer, items[..enrolled])
      && forall c :: c in items[..enrolled] ==> Enroll(c) !in faults
    case PostCommit(pending) =>
      && Settles(s0.db, call, faults) && s.db == Written(s0.db, call, faults)
      && s.effects + pending == s0.effects + Said(s0.wiring, s0.db, call, faults)
    case RefundApproved => Untouched(s0, s) && MayRefund(s0.db, call, faults)
    case RefundSent => Untouched(s0, s) && MayRefund(s0.db, call, faults) && ProviderRefund !in faults
    case Finished(_) =>
      && (Succeeded(pc) <==> Succeeds(s0.db, call, faults)) && s.db == Written(s0.db, call, faults)
      && s.effects == s0.effects + Said(s0.wiring, s0.db, call, faults)
  }

  predicate MayRefund(db: Db, call: Call, faults: set<Op>) {
    && call.Refund? && ReadRow !in faults && call.order in db.orders
    && db.orders[call.order].tenant == call.tenant && db.orders[call.order].status == Paid
    && db.orders[call.order].paymentId != ""
  }

  ghost predicate Untouched(s0: State, s: State) {
    s.db == s0.db && s.effects == s0.effects
  }

  ghost predicate AloneOk(s0: State, s: State, p: Pid, faults: set<Op>) {
    && p in s0.procs && p in s.procs && s.procs[p].call == s0.procs[p].call && s.wiring == s0.wiring
    && !Locked(s, s0.procs[p].call.order, p)
    && Halfway(s0, s, s.procs[p].call, s.procs[p].pc, faults)
  }

  lemma BegunStep(s0: State, s: State, p: Pid, faults: set<Op>)
    requires AloneOk(s0, s, p, faults) && s.procs[p].pc.Begun?
    ensures AloneOk(s0, AloneStep(s, p, faults), p, faults)
    ensures Phase(AloneStep(s, p, faults).procs[p].pc) < Phase(s.procs[p].pc)
  {
    assert s0.effects + [] == s0.effects;
  }

  lemma OpenedStep(s0: State, s: State, p: Pid, faults: set<Op>)
    requires AloneOk(s0, s, p, faults) && s.procs[p].pc.Opened?
    ensures AloneOk(s0, AloneStep(s, p, faults), p, faults)
    ensures Phase(AloneStep(s, p, faults).procs[p].pc) < Phase(s.procs[p].pc)
  {
    assert s0.effects + [] == s0.effects;
  }

  /** The end of a transaction that does not commit. */
  lemma Released(s0: State, s: State, p: Pid, faults: set<Op>, outcome: Outcome)
    requires AloneOk(s0, s, p, faults) && InTransaction(s.procs[p].pc)
    requires !s.procs[p].call.Refund? && !Settles(s0.db, s.procs[p].call, faults)
    requires outcome != Failed <==> Succeeds(s0.db, s.procs[p].call, faults)
    ensures AloneOk(s0, Release(s, p, outcome), p, faults)
  {
    assert s0.effects + [] == s0.effects;
  }

  lemma HoldingStep(s0: State, s: State, p: Pid, faults: set<Op>)
    requires AloneOk(s0, s, p, faults) && s.procs[p].pc.Holding?
    ensures AloneOk(s0, AloneStep(s, p, faults), p, faults)
    ensures Phase(AloneStep(s, p, faults).procs[p].pc) < Phase(s.procs[p].pc)
  {
    var pc := AloneStep(s, p, faults).procs[p].pc;
    if pc.Finished? {
      Released(s0, s, p, faults, pc.outcome);
    }
  }

  lemma MarkedStep(s0: State, s: State, p: Pid, faults: set<Op>)
    requires AloneOk(s0, s, p, faults) && s.procs[p].pc.Marked?
    ensures AloneOk(s0, AloneStep(s, p, faults), p, faults)
    ensures Phase(AloneStep(s, p, faults).procs[p].pc) < Phase(s.procs[p].pc)
  {
    if AloneStep(s, p, faults).procs[p].pc.Finished? {
      Released(s0, s, p, faults, Failed);
    }
  }

  lemma EnrollStep(s0: State, s: State, p: Pid, faults: set<Op>)
    requires AloneOk(s0, s, p, faults) && s.procs[p].pc.Enrolling? && s.procs[p].pc.enrolled < |s.procs[p].pc.items|
    ensures AloneOk(s0, AloneStep(s, p, faults), p, faults)
    ensures var pc := AloneStep(s, p, faults).procs[p].pc;
            Phase(pc) < Phase(s.procs[p].pc) || (pc.Enrolling? && Left(pc) < Left(s.procs[p].pc))
  {
    var pc := s.procs[p].pc;
    assert pc.items[pc.enrolled] in pc.items;
    if Enroll(pc.items[pc.enrolled]) in faults {
      Released(s0, s, p, faults, Failed);
    } else {
      EnrollNext(pc.row.buyer, pc.items, pc.enrolled);
      assert pc.items[..pc.enrolled + 1] == pc.items[..pc.enrolled] + [pc.items[pc.enrolled]];
    }
  }

  /** The commit, in terms of the specification. */
  lemma CommitIsWritten(s0: State, s: State, p: Pid, faults: set<Op>)
    requires AloneOk(s0, s, p, faults) && s.procs[p].pc.Enrolling? && s.procs[p].pc.enrolled >= |s.procs[p].pc.items|
    requires CommitTx !in faults
    ensures Settles(s0.db, s.procs[p].call, faults)
    ensures Publish(s.db, s.procs[p].call.order, s.procs[p].pc.tx) == Written(s0.db, s.procs[p].call, faults)
    ensures Announcements(s.wiring, s.procs[p].call, s.procs[p].pc.items)
         == Said(s0.wiring, s0.db, s.procs[p].call, faults)
  {
    var pc := s.procs[p].pc;
    assert pc.items[..pc.enrolled] == pc.items;
  }

  lemma CommitStep(s0: State, s: State, p: Pid, faults: set<Op>)
    requires AloneOk(s0, s, p, faults) && s.procs[p].pc.Enrolling? && s.procs[p].pc.enrolled >= |s.procs[p].pc.items|
    ensures AloneOk(s0, AloneStep(s, p, faults), p, faults)
    ensures Phase(AloneStep(s, p, faults).procs[p].pc) < Phase(s.procs[p].pc)
  {
    if CommitTx in faults {
      Released(s0, s, p, faults, Failed);
    } else {
      CommitIsWritten(s0, s, p, faults);
    }
  }

  lemma PostCommitStep(s0: State, s: State, p: Pid, faults: set<Op>)
    requires AloneOk(s0, s, p, faults) && s.procs[p].pc.PostCommit?
    ensures AloneOk(s0, AloneStep(s, p, faults), p, faults)
    ensures var pc := AloneStep(s, p, faults).procs[p].pc;
            Phase(pc) < Phase(s.procs[p].pc) || (pc.PostCommit? && Left(pc) < Left(s.procs[p].pc))
  {
    var pending := s.procs[p].pc.pending;
    if pending == [] {
      assert s.effects + pending == s.effects;
    } else {
      SplitFirst(s.effects, pending);
    }
  }

  lemma RefundStep(s0: State, s: State, p: Pid, faults: set<Op>)
    requires AloneOk(s0, s, p, faults) && (s.procs[p].pc.RefundApproved? || s.procs[p].pc.RefundSent?)
    ensures AloneOk(s0, AloneStep(s, p, faults), p, faults)
    ensures Phase(AloneStep(s, p, faults).procs[p].pc) < Phase(s.procs[p].pc)
  {
    assert s0.effects + [] == s0.effects;
  }

  function Phase(pc: Pc): nat {
    match pc
    case Begun => 6 case Opened => 5 case Holding(_) => 4 case Marked(_, _) => 3 case Enrolling(_, _, _, _) => 2
    case PostCommit(_) => 1 case RefundApproved => 2 case RefundSent => 1 case Finished(_) => 0
  }

  function Left(pc: Pc): nat {
    if pc.Enrolling? && pc.enrolled <= |pc.items| then |pc.items| - pc.enrolled
    else if pc.PostCommit? then |pc.pending| else 0
  }

  lemma {:induction false} AloneEnds(s0: State, s: State, p: Pid, faults: set<Op>) returns (n: nat)
    requires AloneOk(s0, s, p, faults)
    ensures AloneOk(s0, Alone(s, p, faults, n), p, faults) && Alone(s, p, faults, n).procs[p].pc.Finished?
    decreases Phase(s.procs[p].pc), Left(s.procs[p].pc)
  {
    var pc := s.procs[p].pc;
    if pc.Finished? {
      return 0;
    }
    if pc.Begun? {
      BegunStep(s0, s, p, faults);
    } else if pc.Opened? {
      OpenedStep(s0, s, p, faults);
    } else if pc.Holding? {
      HoldingStep(s0, s, p, faults);
    } else if pc.Marked? {
      MarkedStep(s0, s, p, faults);
    } else if pc.Enrolling? && pc.enrolled < |pc.items| {
      EnrollStep(s0, s, p, faults);
    } else if pc.Enrolling? {
      CommitStep(s0, s, p, faults);
    } else if pc.PostCommit? {
      PostCommitStep(s0, s, p, faults);
    } else {
      RefundStep(s0, s, p, faults);
    }
    var rest := AloneEnds(s0, AloneStep(s, p, faults), p, faults);
    return rest + 1;
  }

  /** A call of the machine that begins when nobody holds its row and that nothing
      overlaps comes to an end, and then its reply, the tables and the announcements are
      those of the serial methods, whichever operations fail. */
  lemma SoloRun(s: State, p: Pid, faults: set<Op>) returns (n: nat)
    requires p in s.procs && s.procs[p].pc.Begun? && !Locked(s, s.procs[p].call.order, p)
    ensures var call, end := s.procs[p].call, Alone(s, p, faults, n);
            && p in end.procs && end.procs[p].pc.Finished?
            && (Succeeded(end.procs[p].pc) <==> Succeeds(s.db, call, faults))
            && end.db == Written(s.db, call, faults)
            && end.effects == s.effects + Said(s.wiring, s.db, call, faults)
  {
    n := AloneEnds(s, s, p, faults);
  }
}
