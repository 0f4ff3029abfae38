/** What dispute resolution decides, that it does not depend on how the order got there, and the
    two ways money can still move around it. */
module DisputeTheorems {
  import opened Wrappers
  import opened Int64
  import opened Ledger
  import opened Pricing
  import opened Market
  import opened Books
  import opened EscrowRuns

  /** The accounts a resolved order ends with: a function of its amounts, of whether it was paid for,
      and of the decision, and of nothing else. */
  function Settled(amount: int, discount: int, funded: bool, refund: int, rate: real): Accounts {
    var remaining := amount - refund;
    var fee := if remaining > 0 then Fee(remaining, rate) else 0;
    var share := if refund > 0 then BuyerShare(refund, amount, discount) else 0;
    Accounts(if funded then -(amount - discount) else 0, if funded then -discount else 0,
             if funded then 0 else -amount, share, refund - share, fee, remaining - fee, 0)
  }

  /** What an order's accounts read once nothing is settled and nothing has been given back. */
  function Unsettled(amount: int, discount: int, funded: bool): Accounts {
    Accounts(if funded then -(amount - discount) else 0, if funded then -discount else 0,
             if funded then amount else 0, 0, 0, 0, 0, 0)
  }

  lemma SoundUnsettled(order: Order, s: Option<Settlement>, b: Books)
    requires Sound(order, s, b) && order.state.Disputed? && !(Live(s) && s.value.state.PaidOut?)
    ensures UnwoundBooks(s, b).acc == Unsettled(order.amount, order.discount, b.paid.rows > 0)
  {
  }

  lemma SettledFrom(order: Order, b: Books, funded: bool, refund: int, refunded: Books, rate: real)
    requires 0 <= refund <= order.amount && b.acc == Unsettled(order.amount, order.discount, funded)
    requires Returned(b, refunded, refund, ShareOf(order, refund))
    ensures RebookedBooks(refunded, order.amount - refund, rate).acc
              == Settled(order.amount, order.discount, funded, refund, rate)
  {
    var share := ShareOf(order, refund);
    assert refunded.acc
             == b.acc.(escrow := b.acc.escrow - refund, buyerRefund := share, promotionRecovery := refund - share);
  }

  lemma ResolvedAccounts(db: Db, after: Db, id: Id, refund: int, rate: real, refunded: Books)
    requires Consistent(db) && Resolved(db, after, id, refund, rate, refunded)
    ensures BooksOf(after, id).acc
         == Settled(db.orders[id].amount, db.orders[id].discount, BooksOf(db, id).paid.rows > 0, refund, rate)
  {
    Look(db, id);
    var order, s, b := db.orders[id], SettlementOf(db, id), BooksOf(db, id);
    SoundUnsettled(order, s, b);
    SettledFrom(order, UnwoundBooks(s, b), b.paid.rows > 0, refund, refunded, rate);
  }

  /** What everyone involved can see of a resolved order: its final state, all eight accounts and the
      settlement that is still live. */
  datatype Verdict = Verdict(state: OrderState, acc: Accounts, live: Option<Settlement>)

  function VerdictAt(db: Db, id: Id): Verdict
    requires id in db.orders
  {
    Verdict(db.orders[id].state, BooksOf(db, id).acc, if Live(SettlementOf(db, id)) then SettlementOf(db, id) else None)
  }

  function VerdictOn(amount: int, discount: int, funded: bool, outcome: Outcome, rate: real): Verdict {
    var refund := RefundOf(outcome, amount);
    Verdict(if refund == amount then Refunded else Completed, Settled(amount, discount, funded, refund, rate),
            RebookedRow(None, amount - refund, rate))
  }

  lemma VerdictFollows(order: Order, s: Option<Settlement>, after: Order, s': Option<Settlement>, refund: int,
                       rate: real)
    requires s' == RebookedRow(UnwoundRow(s), order.amount - refund, rate) && 0 <= refund <= order.amount
    ensures (if Live(s') then s' else None) == RebookedRow(None, order.amount - refund, rate)
  {
  }

  lemma ResolvedVerdict(db: Db, after: Db, id: Id, outcome: Outcome, refund: int, rate: real, refunded: Books)
    requires Consistent(db) && Resolved(db, after, id, refund, rate, refunded)
             && refund == RefundOf(outcome, db.orders[id].amount)
    ensures VerdictAt(after, id)
         == VerdictOn(db.orders[id].amount, db.orders[id].discount, BooksOf(db, id).paid.rows > 0, outcome, rate)
  {
    ResolvedAccounts(db, after, id, refund, rate, refunded);
    VerdictFollows(db.orders[id], SettlementOf(db, id), after.orders[id], SettlementOf(after, id), refund, rate);
  }

  /** The outcome of a resolution depends on the order's amounts, its funding and the decision alone. */
  lemma ResolveDecides(db: Db, dispute: Id, outcome: Outcome, rate: real, after: Db)
    requires Consistent(db) && 0.0 <= rate <= 100.0 && ResolveDispute(db, dispute, outcome, rate) == Ok(after)
    ensures dispute in db.disputes && db.disputes[dispute].order in db.orders
            && db.disputes[dispute].order in after.orders
    ensures
      var id := db.disputes[dispute].order;
      VerdictAt(after, id)
      == VerdictOn(db.orders[id].amount, db.orders[id].discount, BooksOf(db, id).paid.rows > 0, outcome, rate)
  {
    var refunded := Resolving(db, dispute, outcome, rate, after);
    var id := db.disputes[dispute].order;
    ResolvedVerdict(db, after, id, outcome, RefundOf(outcome, db.orders[id].amount), rate, refunded);
  }

  predicate SamePrice(db1: Db, id1: Id, db2: Db, id2: Id)
    requires id1 in db1.orders && id2 in db2.orders
  {
    && db1.orders[id1].amount == db2.orders[id2].amount && db1.orders[id1].discount == db2.orders[id2].discount
    && BooksOf(db1, id1).paid.rows == BooksOf(db2, id2).paid.rows
  }

  /** History independence: the same decision over two orders of equal amounts and funding ends with
      the same accounts, state and live settlement, whether the dispute was opened before purchase
      confirmation or after it. */
  lemma ResolutionIgnoresHistory(db1: Db, dispute1: Id, after1: Db, db2: Db, dispute2: Id, after2: Db,
                                 outcome: Outcome, rate: real)
    requires Consistent(db1) && Consistent(db2) && 0.0 <= rate <= 100.0
    requires ResolveDispute(db1, dispute1, outcome, rate) == Ok(after1)
    requires ResolveDispute(db2, dispute2, outcome, rate) == Ok(after2)
    requires dispute1 in db1.disputes && db1.disputes[dispute1].order in db1.orders
    requires dispute2 in db2.disputes && db2.disputes[dispute2].order in db2.orders
    requires SamePrice(db1, db1.disputes[dispute1].order, db2, db2.disputes[dispute2].order)
    ensures db1.disputes[dispute1].order in after1.orders && db2.disputes[dispute2].order in after2.orders
    ensures VerdictAt(after1, db1.disputes[dispute1].order) == VerdictAt(after2, db2.disputes[dispute2].order)
  {
    var v1 := Decides(db1, dispute1, outcome, rate, after1);
    var v2 := Decides(db2, dispute2, outcome, rate, after2);
  }

  lemma Decides(db: Db, dispute: Id, outcome: Outcome, rate: real, after: Db) returns (v: Verdict)
    requires Consistent(db) && 0.0 <= rate <= 100.0 && ResolveDispute(db, dispute, outcome, rate) == Ok(after)
    ensures dispute in db.disputes && db.disputes[dispute].order in db.orders
            && db.disputes[dispute].order in after.orders
    ensures
      var id := db.disputes[dispute].order;
      v == VerdictAt(after, id)
      == VerdictOn(db.orders[id].amount, db.orders[id].discount, BooksOf(db, id).paid.rows > 0, outcome, rate)
  {
    ResolveDecides(db, dispute, outcome, rate, after);
    v := VerdictAt(after, db.disputes[dispute].order);
  }

  /** Undoing a purchase confirmation and releasing everything to the seller at the same rate is a round
      trip: every account and the settled amounts are back where the confirmation put them. */
  lemma ReleaseRestoresAcceptance(db: Db, dispute: Id, rate: real, after: Db)
    requires Consistent(db) && 0.0 <= rate <= 100.0 && ResolveDispute(db, dispute, ReleaseToSeller, rate) == Ok(after)
    requires dispute in db.disputes && db.disputes[dispute].order in db.settlements
             && db.disputes[dispute].order in db.orders
    requires
      var id := db.disputes[dispute].order;
      db.orders[id].amount > 0 && db.settlements[id].fee == Fee(db.orders[id].amount, rate)
    ensures
      var id := db.disputes[dispute].order;
      && BooksOf(after, id).acc == BooksOf(db, id).acc
      && id in after.settlements && after.settlements[id] == db.settlements[id].(state := Scheduled)
  {
    var id := db.disputes[dispute].order;
    var refunded := Resolving(db, dispute, ReleaseToSeller, rate, after);
    ResolveDecides(db, dispute, ReleaseToSeller, rate, after);
    Look(db, id);
    RoundTrip(db.orders[id], db.settlements[id], BooksOf(db, id), rate);
  }

  /** The accounts of a disputed order whose purchase had been confirmed. */
  lemma ConfirmedAccounts(order: Order, s: Settlement, b: Books)
    requires Sound(order, Some(s), b) && order.state.Disputed? && !s.state.PaidOut?
    ensures s.gross == order.amount && s.net == order.amount - s.fee
    ensures
      var funded := b.paid.rows > 0;
      b.acc == Accounts(if funded then -(order.amount - order.discount) else 0, if funded then -order.discount else 0,
                        if funded then 0 else -order.amount, 0, 0, s.fee, s.net, 0)
  {
    assert Live(Some(s)) && b.acc.Back() == 0;
    assert b.acc.buyerRefund == 0 && b.acc.promotionRecovery == 0;
  }

  lemma RoundTrip(order: Order, s: Settlement, b: Books, rate: real)
    requires Sound(order, Some(s), b) && order.state.Disputed? && !s.state.PaidOut?
    requires order.amount > 0 && s.fee == Fee(order.amount, rate)
    ensures Settled(order.amount, order.discount, b.paid.rows > 0, 0, rate) == b.acc
    ensures RebookedRow(None, order.amount, rate) == Some(s.(state := Scheduled))
  {
    ConfirmedAccounts(order, s, b);
  }

  // ----- When a resolution goes through

  lemma UnwindAccepted(s: Settlement)
    requires 0 <= s.fee && 0 <= s.net && s.gross == s.fee + s.net
    ensures Accepts([DebitOf(PlatformRevenue, s.fee), DebitOf(SellerPayable, s.net), CreditOf(Escrow, s.gross)])
  {
    var a, b, c := DebitOf(PlatformRevenue, s.fee), DebitOf(SellerPayable, s.net), CreditOf(Escrow, s.gross);
    TotalThree(a, b, c, Debit);
    TotalThree(a, b, c, Credit);
    assert NonNegative([a, b, c]);
  }

  lemma SettleAccepted(gross: int, rate: real)
    requires 0 <= gross && 0.0 <= rate <= 100.0
    ensures Accepts(SettleLines(gross, Fee(gross, rate)))
  {
    FeeWithinAmount(gross, rate);
    var fee := Fee(gross, rate);
    var a, b, c := DebitOf(Escrow, gross), CreditOf(PlatformRevenue, fee), CreditOf(SellerPayable, gross - fee);
    TotalThree(a, b, c, Debit);
    TotalThree(a, b, c, Credit);
    assert NonNegative([a, b, c]);
  }

  /** The split of this refund survives 64-bit arithmetic. */
  predicate Splits(order: Order, refund: int) {
    refund <= 0 || Accepts(RefundLines(refund, BuyerShare(refund, order.amount, order.discount)))
  }

  lemma RefundGoesThrough(db: Db, id: Id, refund: int)
    requires id in db.orders
    ensures BookRefund(db, id, refund).Ok? <==> Splits(db.orders[id], refund)
  {
  }

  lemma EndingGoesThrough(db: Db, id: Id, to: OrderState)
    requires id in db.orders && EscrowBalance(db, id) == 0
    ensures ApplyTransition(db, id, to).Ok?
  {
  }

  lemma UnwindGoesThrough(db: Db, id: Id)
    requires Consistent(db) && id in db.orders
    ensures UnwindSettlement(db, id).Ok? <==> !(id in db.settlements && db.settlements[id].state.PaidOut?)
  {
    Look(db, id);
    if id in db.settlements {
      UnwindAccepted(db.settlements[id]);
    }
  }

  lemma RebookGoesThrough(db: Db, id: Id, remaining: int, rate: real)
    requires 0.0 <= rate <= 100.0
    ensures Rebook(db, id, remaining, rate).Ok?
  {
    if remaining > 0 {
      SettleAccepted(remaining, rate);
    }
  }

  lemma RedivideFromSteps(db: Db, id: Id, refund: int, rate: real, unwound: Db, refunded: Db, rebooked: Db)
    requires id in db.orders && UnwindSettlement(db, id) == Ok(unwound) && id in unwound.orders
    requires BookRefund(unwound, id, refund) == Ok(refunded)
    requires Rebook(refunded, id, db.orders[id].amount - refund, rate) == Ok(rebooked)
    ensures Redivide(db, id, refund, rate) == Ok(rebooked) && id in rebooked.orders
  {
  }

  lemma RedivideGoesThrough(db: Db, id: Id, refund: int, rate: real) returns (rebooked: Db)
    requires Consistent(db) && 0.0 <= rate <= 100.0
    requires id in db.orders && db.orders[id].state.Disputed? && 0 <= refund <= db.orders[id].amount
    requires !(id in db.settlements && db.settlements[id].state.PaidOut?) && Splits(db.orders[id], refund)
    ensures Redivide(db, id, refund, rate) == Ok(rebooked) && id in rebooked.orders
            && BooksOf(rebooked, id).acc.escrow <= 0
  {
    var remaining := db.orders[id].amount - refund;
    UnwindGoesThrough(db, id);
    var unwound := UnwindSettlement(db, id).value;
    Unwinding(db, id, unwound);
    RefundGoesThrough(unwound, id, refund);
    var refunded := BookRefund(unwound, id, refund).value;
    RebookGoesThrough(refunded, id, remaining, rate);
    rebooked := Rebook(refunded, id, remaining, rate).value;
    RedivideFromSteps(db, id, refund, rate, unwound, refunded, rebooked);
    ResolvingMoney(db, id, refund, rate, unwound, refunded, rebooked);
  }

  lemma RedistributeGoesThrough(db: Db, dispute: Id, id: Id, refund: int, rate: real)
    requires Consistent(db) && 0.0 <= rate <= 100.0
    requires id in db.orders && db.orders[id].state.Disputed? && 0 <= refund <= db.orders[id].amount
    requires !(id in db.settlements && db.settlements[id].state.PaidOut?) && Splits(db.orders[id], refund)
    ensures Redistribute(db, dispute, id, refund, rate).Ok?
  {
    var rebooked := RedivideGoesThrough(db, id, refund, rate);
    EndingGoesThrough(rebooked.(disputes := rebooked.disputes[dispute := Dispute(id, false)]), id,
                      if refund == db.orders[id].amount then Refunded else Completed);
  }

  /** A decidable dispute comes down to its money. */
  lemma ResolveIsRedistribute(db: Db, dispute: Id, outcome: Outcome, rate: real)
    requires Decidable(db, dispute, outcome)
    ensures
      var id := db.disputes[dispute].order;
      ResolveDispute(db, dispute, outcome, rate)
      == Redistribute(db, dispute, id, RefundOf(outcome, db.orders[id].amount), rate)
  {
  }

  lemma ResolveNeeds(db: Db, dispute: Id, outcome: Outcome, rate: real, after: Db)
    requires Consistent(db) && ResolveDispute(db, dispute, outcome, rate) == Ok(after)
    ensures dispute in db.disputes && db.disputes[dispute].order in db.orders
    ensures
      var id := db.disputes[dispute].order;
      !(id in db.settlements && db.settlements[id].state.PaidOut?)
      && Splits(db.orders[id], RefundOf(outcome, db.orders[id].amount))
  {
    var unwound, refunded, rebooked := ResolveSteps(db, dispute, outcome, rate, after);
    var id := db.disputes[dispute].order;
    UnwindGoesThrough(db, id);
    Unwinding(db, id, unwound);
    RefundGoesThrough(unwound, id, RefundOf(outcome, db.orders[id].amount));
  }

  /** An open dispute over a disputed order resolves, whatever the outcome, exactly when its settlement
      has not been paid out and the refund splits. */
  lemma ResolveSucceedsIff(db: Db, dispute: Id, outcome: Outcome, rate: real)
    requires Consistent(db) && 0.0 <= rate <= 100.0 && Decidable(db, dispute, outcome)
    ensures
      var id := db.disputes[dispute].order;
      ResolveDispute(db, dispute, outcome, rate).Ok?
      <==> !(id in db.settlements && db.settlements[id].state.PaidOut?)
           && Splits(db.orders[id], RefundOf(outcome, db.orders[id].amount))
  {
    var id := db.disputes[dispute].order;
    var refund := RefundOf(outcome, db.orders[id].amount);
    if !(id in db.settlements && db.settlements[id].state.PaidOut?) && Splits(db.orders[id], refund) {
      SaneOrder(db, id);
      ResolveIsRedistribute(db, dispute, outcome, rate);
      RedistributeGoesThrough(db, dispute, id, refund, rate);
    } else if ResolveDispute(db, dispute, outcome, rate).Ok? {
      ResolveNeeds(db, dispute, outcome, rate, ResolveDispute(db, dispute, outcome, rate).value);
    }
  }

  // ----- Freezing

  /** Opening a dispute leaves the order no settlement that could be paid out as it stands. */
  lemma OpeningFreezes(db: Db, who: Principal, id: Id, dispute: Id, after: Db)
    requires OpenDispute(db, who, id, dispute) == Ok(after)
    ensures id in after.orders && after.orders[id].state.Disputed?
    ensures dispute in after.disputes && after.disputes[dispute] == Dispute(id, true)
    ensures SettlementAction(after, id, CompleteIt) == Err(SettlementConflict)
  {
    var frozen := db.(disputes := db.disputes[dispute := Dispute(id, true)], settlements := Frozen(db.settlements, id));
    PlainMove(frozen, id, Disputed);
    assert after.settlements == frozen.settlements;
  }

  lemma PayoutAccepted(net: int)
    requires 0 <= net
    ensures Accepts([DebitOf(SellerPayable, net), CreditOf(SellerPayout, net)])
  {
    var a, b := DebitOf(SellerPayable, net), CreditOf(SellerPayout, net);
    TotalAppend([], a, Debit);
    TotalAppend([], a, Credit);
    TotalAppend([a], b, Debit);
    TotalAppend([a], b, Credit);
    assert [] + [a] == [a] && [a] + [b] == [a, b] && NonNegative([a, b]);
  }

  lemma PaidOutRefuses(db: Db, dispute: Id, outcome: Outcome, rate: real)
    requires Decidable(db, dispute, outcome)
    requires db.disputes[dispute].order in db.settlements && db.settlements[db.disputes[dispute].order].state.PaidOut?
    ensures ResolveDispute(db, dispute, outcome, rate) == Err(SettlementCompleted)
  {
    var id := db.disputes[dispute].order;
    ResolveIsRedistribute(db, dispute, outcome, rate);
    assert UnwindSettlement(db, id) == Err(SettlementCompleted);
  }

  lemma LiftedAndPaid(db: Db, id: Id, net: int)
    requires id in db.settlements && db.settlements[id].state.Held? && db.settlements[id].net == net && 0 <= net
    ensures
      var released := SettlementAction(db, id, ReleaseIt);
      var paid := SettlementAction(released.value, id, CompleteIt);
      && released.Ok? && paid.Ok?
      && paid.value.orders == db.orders && paid.value.disputes == db.disputes
      && id in paid.value.settlements && paid.value.settlements[id].state.PaidOut?
  {
    PayoutAccepted(net);
  }

  /** The freeze is not a lock: while a dispute is open and decidable an operator may still release and pay
      out the held settlement, and then that dispute is refused, because the money has gone. */
  lemma FreezeCanBeLifted(db: Db, dispute: Id, outcome: Outcome, rate: real)
    requires Consistent(db) && Decidable(db, dispute, outcome)
    requires db.disputes[dispute].order in db.settlements && db.settlements[db.disputes[dispute].order].state.Held?
    ensures
      var id := db.disputes[dispute].order;
      var released := SettlementAction(db, id, ReleaseIt);
      && released.Ok? && SettlementAction(released.value, id, CompleteIt).Ok?
      && var paid := SettlementAction(released.value, id, CompleteIt).value;
      Decidable(paid, dispute, outcome) && ResolveDispute(paid, dispute, outcome, rate) == Err(SettlementCompleted)
  {
    var id := db.disputes[dispute].order;
    Look(db, id);
    LiftedAndPaid(db, id, db.settlements[id].net);
    PaidOutRefuses(SettlementAction(SettlementAction(db, id, ReleaseIt).value, id, CompleteIt).value, dispute,
                   outcome, rate);
  }

  // ----- The general path out of a dispute

  /** The general state change from disputed to refunded returns what escrow holds and nothing else: the
      order ends refunded with a live settlement, and its buyer with nothing, exactly when the dispute
      was opened after purchase confirmation. */
  lemma GeneralRefundKeepsSettlement(db: Db, who: Principal, id: Id, overdue: bool, rate: real, after: Db)
    requires Consistent(db) && id in db.orders && db.orders[id].state.Disputed?
    requires TransitionOrder(db, who, id, Refunded, overdue, rate) == Ok(after)
    ensures id in after.orders && after.orders[id].state.Refunded?
    ensures SettlementOf(after, id) == SettlementOf(db, id)
    ensures Live(SettlementOf(after, id)) <==> id in db.settlements
    ensures BooksOf(after, id).acc.Back()
         == (if id in db.settlements || BooksOf(db, id).paid.rows == 0 then 0 else db.orders[id].amount)
  {
    EscrowInRange(db, id);
    Moving(db, id, Refunded, after);
    Look(db, id);
    GeneralRefundBooks(db.orders[id], SettlementOf(db, id), BooksOf(db, id), BooksOf(after, id));
  }

  lemma GeneralRefundBooks(order: Order, s: Option<Settlement>, b: Books, after: Books)
    requires Sound(order, s, b) && order.state.Disputed?
    requires Returned(b, after, Greatest(0, b.acc.escrow), ShareOf(order, Greatest(0, b.acc.escrow)))
    ensures Live(s) <==> s.Some?
    ensures after.acc.Back() == (if s.Some? || b.paid.rows == 0 then 0 else order.amount)
  {
  }
}
