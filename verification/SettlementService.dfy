/** The settlement and refund calls run one at a time, in the source's own form: local
    copies of the tables stand for a transaction's private writes, a commit publishes
    them, and returning without a commit rolls back. `faults` lists the operations that
    fail during the call. The specification is that of SettlementCalls, which a lone call of
    the concurrent machine meets too. */
module SettlementService {
  import opened Wrappers
  import opened Settlement
  import opened SettlementCalls

  datatype Reply = Ok | Error(reason: Reason)
  datatype Reason = SignatureMismatch | Database | OrderNotFound | NotYourOrder | OrderRefunded
                  | NotABundle | EnrollmentFailed | NotPaid | NoPaymentId | ProviderFailed

  class Payments {
    const wiring: Wiring
    var orders: map<OrderId, Order>
    var enrollments: set<(UserId, CourseId)>
    var bundles: map<BundleId, seq<CourseId>>
    var effects: seq<Effect>

    function Tables(): Db
      reads this
    {
      Db(orders, enrollments, bundles)
    }

    /** courseorders.Verify */
    method VerifyCourse(id: OrderId, user: UserId, paymentId: string, signed: bool, faults: set<Op>)
      returns (reply: Reply)
      modifies this
      ensures reply == Ok <==> Succeeds(old(Tables()), ClientVerify(id, user, paymentId, signed), faults)
      ensures Tables() == Written(old(Tables()), ClientVerify(id, user, paymentId, signed), faults)
      ensures effects == old(effects) + Said(wiring, old(Tables()), ClientVerify(id, user, paymentId, signed), faults)
    {
      if !signed {
        return Error(SignatureMismatch);
      }
      if BeginTx in faults {
        return Error(Database);
      }
      if LockRow in faults || id !in orders {
        return Error(OrderNotFound);
      }
      var row := orders[id];
      if row.buyer != user {
        return Error(NotYourOrder);
      }
      if row.status == Paid {
        return Ok;
      }
      if row.status == Refunded {
        return Error(OrderRefunded);
      }
      if MarkPaid in faults {
        return Error(Database);
      }
      var txOrders := orders[id := row.(status := Paid, paymentId := paymentId)];
      if row.course.None? || Enroll(row.course.value) in faults {
        return Error(EnrollmentFailed);
      }
      var course := row.course.value;
      var txEnrollments := enrollments + {(row.buyer, course)};
      if CommitTx in faults {
        return Error(Database);
      }
      orders, enrollments := txOrders, txEnrollments;
      if wiring.courseEvents {
        effects := effects + [PaymentSucceeded(id)];
        effects := effects + [CoursePurchased(id, course)];
      }
      if wiring.referrals {
        effects := effects + [RewardCall(id)];
      }
      assert EnrollAll(row.buyer, [course]) == {(row.buyer, course)};
      assert Purchases(id, [course]) == [CoursePurchased(id, course)];
      return Ok;
    }

    /** webhooks.applyPaymentSuccess; success is also reported for orders of other flows
        and for orders that are already settled or refunded. */
    method ApplyPaymentSuccess(id: OrderId, paymentId: string, faults: set<Op>)
      returns (reply: Reply)
      modifies this
      ensures reply == Ok <==> Succeeds(old(Tables()), Webhook(id, paymentId), faults)
      ensures Tables() == Written(old(Tables()), Webhook(id, paymentId), faults)
      ensures effects == old(effects) + Said(wiring, old(Tables()), Webhook(id, paymentId), faults)
    {
      if id == "" {
        return Error(OrderNotFound);
      }
      if BeginTx in faults {
        return Error(Database);
      }
      if LockRow in faults || id !in orders {
        return Ok;
      }
      var row := orders[id];
      if row.status == Paid || row.status == Refunded {
        return Ok;
      }
      if MarkPaid in faults {
        return Error(Database);
      }
      var txOrders := orders[id := row.(status := Paid, paymentId := paymentId)];
      if row.course.None? || Enroll(row.course.value) in faults {
        return Error(EnrollmentFailed);
      }
      var txEnrollments := enrollments + {(row.buyer, row.course.value)};
      if CommitTx in faults {
        return Error(Database);
      }
      orders, enrollments := txOrders, txEnrollments;
      assert EnrollAll(row.buyer, [row.course.value]) == {(row.buyer, row.course.value)};
      return Ok;
    }

    /** coursebundles.Verify: all of the bundle's courses are enrolled, or none. */
    method VerifyBundle(id: OrderId, user: UserId, paymentId: string, signed: bool, faults: set<Op>)
      returns (reply: Reply)
      modifies this
      ensures reply == Ok <==> Succeeds(old(Tables()), BundleVerify(id, user, paymentId, signed), faults)
      ensures Tables() == Written(old(Tables()), BundleVerify(id, user, paymentId, signed), faults)
      ensures effects == old(effects) + Said(wiring, old(Tables()), BundleVerify(id, user, paymentId, signed), faults)
      ensures reply == Ok && old(orders)[id].status == Created ==>
                var row := old(orders)[id];
                && row.bundle.Some? && row.buyer == user
                && orders == old(orders)[id := row.(status := Paid, paymentId := paymentId)]
                && (forall u, c :: (u, c) in enrollments <==>
                      || (u, c) in old(enrollments)
                      || (u == user && row.bundle.value in old(bundles) && c in old(bundles)[row.bundle.value]))
    {
      if !signed {
        return Error(SignatureMismatch);
      }
      if BeginTx in faults {
        return Error(Database);
      }
      if LockRow in faults || id !in orders {
        return Error(OrderNotFound);
      }
      var row := orders[id];
      if row.buyer != user {
        return Error(NotYourOrder);
      }
      if row.status == Paid {
        return Ok;
      }
      if row.status == Refunded {
        return Error(OrderRefunded);
      }
      if row.bundle.None? {
        return Error(NotABundle);
      }
      if MarkPaid in faults {
        return Error(Database);
      }
      var txOrders := orders[id := row.(status := Paid, paymentId := paymentId)];
      if ListItems in faults {
        return Error(Database);
      }
      var items := [];
      if row.bundle.value in bundles {
        items := bundles[row.bundle.value];
      }
      var txEnrollments := enrollments;
      for i := 0 to |items|
        invariant txEnrollments == enrollments + EnrollAll(row.buyer, items[..i])
        invariant forall c :: c in items[..i] ==> Enroll(c) !in faults
      {
        if Enroll(items[i]) in faults {
          return Error(EnrollmentFailed);
        }
        txEnrollments := txEnrollments + {(row.buyer, items[i])};
        assert items[..i+1] == items[..i] + [items[i]];
      }
      assert items[..|items|] == items;
      if CommitTx in faults {
        return Error(Database);
      }
      orders, enrollments := txOrders, txEnrollments;
      EmitPurchases(id, items);
      return Ok;
    }

    method EmitPurchases(id: OrderId, items: seq<CourseId>)
      modifies this`effects
      ensures effects == old(effects) + Events(wiring.bundleEvents, id, items)
    {
      if wiring.bundleEvents {
        effects := effects + [PaymentSucceeded(id)];
        for i := 0 to |items|
          invariant effects == old(effects) + [PaymentSucceeded(id)] + Purchases(id, items)[..i]
        {
          effects := effects + [CoursePurchased(id, items[i])];
        }
        assert Purchases(id, items)[..|items|] == Purchases(id, items);
      }
    }

    /** refunds.Issue: no transaction; the provider is called between the check and the
        update, so a failed update leaves the row paid. */
    method Issue(id: OrderId, tenant: string, faults: set<Op>) returns (reply: Reply)
      modifies this
      ensures reply == Ok <==> Succeeds(old(Tables()), Refund(id, tenant), faults)
      ensures Tables() == Written(old(Tables()), Refund(id, tenant), faults)
      ensures effects == old(effects) + Said(wiring, old(Tables()), Refund(id, tenant), faults)
    {
      if ReadRow in faults || id !in orders || orders[id].tenant != tenant {
        return Error(OrderNotFound);
      }
      var row := orders[id];
      if row.status != Paid {
        return Error(NotPaid);
      }
      if row.paymentId == "" {
        return Error(NoPaymentId);
      }
      if ProviderRefund in faults {
        return Error(ProviderFailed);
      }
      if MarkRefunded in faults {
        return Error(Database);
      }
      orders := orders[id := orders[id].(status := Refunded)];
      return Ok;
    }
  }
}
