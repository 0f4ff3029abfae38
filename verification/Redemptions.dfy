/** Coupon redemptions against the orders that used the coupons, over whole runs. */
module Redemptions {
  import opened Wrappers
  import opened Ledger
  import opened Pricing
  import opened Market
  import opened Books
  import opened EscrowRuns
  import Budgets

  predicate RedemptionOk(db: Db, id: Id) {
    && (id in db.redemptions ==>
          && id in db.orders
          && db.redemptions[id].user == db.orders[id].buyer && db.redemptions[id].discount == db.orders[id].discount
          && 1 <= db.orders[id].discount)
    && (id in db.orders && db.orders[id].discount > 0 && id !in db.redemptions ==> db.orders[id].state.Cancelled?)
  }

  ghost predicate Redeemed(db: Db) {
    forall id: Id :: RedemptionOk(db, id)
  }

  lemma RefundRedemptions(db: Db, id: Id, refund: int, after: Db)
    requires id in db.orders && BookRefund(db, id, refund) == Ok(after)
    ensures after.redemptions == db.redemptions
  {
  }

  lemma MoveRedemptions(db: Db, id: Id, to: OrderState, after: Db)
    requires id in db.orders && ApplyTransition(db, id, to) == Ok(after)
    ensures after.redemptions == db.redemptions
    ensures id in after.orders && after.orders[id].state == to
  {
    if to.Cancelled? || to.Refunded? {
      var returned := EndingShape(db, id, to, after);
      if EscrowBalance(db, id) > 0 {
        RefundRedemptions(db, id, EscrowBalance(db, id), returned);
      }
    }
  }

  lemma RedivideRedemptions(db: Db, id: Id, refund: int, rate: real, rebooked: Db)
    requires id in db.orders && Redivide(db, id, refund, rate) == Ok(rebooked)
    ensures rebooked.redemptions == db.redemptions
  {
    var unwound, refunded := RedivideSteps(db, id, refund, rate, rebooked);
    Budgets.UnwindTables(db, id, unwound);
    RefundRedemptions(unwound, id, refund, refunded);
    Budgets.RebookTables(refunded, id, db.orders[id].amount - refund, rate, rebooked);
  }

  lemma ResolveRedemptions(db: Db, dispute: Id, outcome: Outcome, rate: real, after: Db)
    requires ResolveDispute(db, dispute, outcome, rate) == Ok(after)
    ensures after.redemptions == db.redemptions
  {
    ResolveOpens(db, dispute, outcome, rate, after);
    var id := db.disputes[dispute].order;
    var refund := RefundOf(outcome, db.orders[id].amount);
    var rebooked := RedistributeSteps(db, dispute, id, refund, rate, after);
    RedivideRedemptions(db, id, refund, rate, rebooked);
    MoveRedemptions(rebooked.(disputes := rebooked.disputes[dispute := Dispute(id, false)]), id,
                    if refund == db.orders[id].amount then Refunded else Completed, after);
  }

  lemma MovedRedemptions(db: Db, a: Action)
    requires a.DoTransition? || a.DoDeliver? || a.DoRevise?
    ensures Step(db, a).redemptions == db.redemptions
  {
    if Attempt(db, a).Ok? {
      var after := Step(db, a);
      match a
      case DoTransition(_, id, to, _, setting) =>
        if to.Accepted? {
          PlainMove(db, id, Accepted);
        } else {
          MoveRedemptions(db, id, to, after);
        }
      case DoDeliver(_, id) => MoveRedemptions(db, id, Delivered, after);
      case DoRevise(_, id, _) => MoveRedemptions(db, id, RevisionRequested, after);
    }
  }

  lemma ReviewedRedemptions(db: Db, a: Action)
    requires a.DoReview? || a.DoOpenDispute?
    ensures Step(db, a).redemptions == db.redemptions
  {
    if Attempt(db, a).Ok? {
      var after := Step(db, a);
      match a
      case DoReview(_, id) =>
        if db.orders[id].state.Accepted? {
          MoveRedemptions(db.(reviews := db.reviews + {id}), id, Completed, after);
        }
      case DoOpenDispute(_, id, dispute) =>
        MoveRedemptions(db.(disputes := db.disputes[dispute := Dispute(id, true)],
                            settlements := Frozen(db.settlements, id)),
                        id, Disputed, after);
    }
  }

  /** Only placing and expiring an order touch the redemption table. */
  lemma OtherRedemptions(db: Db, a: Action)
    requires !a.DoCreate? && !a.DoExpire?
    ensures Step(db, a).redemptions == db.redemptions
  {
    if a.DoTransition? || a.DoDeliver? || a.DoRevise? {
      MovedRedemptions(db, a);
    } else if a.DoReview? || a.DoOpenDispute? {
      ReviewedRedemptions(db, a);
    } else if Attempt(db, a).Ok? {
      var after := Step(db, a);
      match a
      case DoOpenBudget(_, _) =>
      case DoPay(who, id, key, payment) => PayOutcome(db, who, id, key, payment, after);
      case DoSubmitRequirement(_, _) =>
      case DoAccept(_, id, _) => PlainMove(db, id, Accepted);
      case DoAutoAccept(id, _) =>
        if id in db.orders {
          PlainMove(db, id, Accepted);
        }
      case DoResolve(dispute, outcome, setting) => ResolveRedemptions(db, dispute, outcome, FeeRate(setting), after);
      case DoSettlement(id, act) => Budgets.SettlementTables(db, id, act, after);
      case DoDecide(_, _) =>
    }
  }

  lemma NoNewcomers(db: Db, a: Action)
    requires !a.DoCreate?
    ensures Step(db, a).orders.Keys == db.orders.Keys
  {
  }

  /** An order's terms never change, so its redemption stays right as long as it stays. */
  lemma TermsStay(before: Db, after: Db, id: Id)
    requires Evolves(before, after) && id in before.orders
    ensures id in after.orders && after.orders[id].buyer == before.orders[id].buyer
    ensures after.orders[id].discount == before.orders[id].discount
    ensures before.orders[id].state.Cancelled? ==> after.orders[id].state.Cancelled?
  {
    assert Evolution(before.orders[id], SettlementOf(before, id), BooksOf(before, id),
                     after.orders[id], SettlementOf(after, id), BooksOf(after, id));
  }

  lemma RedemptionFollows(before: Db, after: Db, id: Id)
    requires Evolves(before, after) && after.orders.Keys == before.orders.Keys && RedemptionOk(before, id)
    requires id in after.redemptions ==> id in before.redemptions && after.redemptions[id] == before.redemptions[id]
    requires id in before.redemptions && id !in after.redemptions ==>
               id in after.orders && after.orders[id].state.Cancelled?
    ensures RedemptionOk(after, id)
  {
    if id in before.orders {
      TermsStay(before, after, id);
    }
  }

  lemma OtherRedeemed(db: Db, a: Action, id: Id)
    requires Consistent(db) && RedemptionOk(db, id) && !a.DoCreate? && !a.DoExpire?
    ensures RedemptionOk(Step(db, a), id)
  {
    var after := Step(db, a);
    OtherRedemptions(db, a);
    StepKeeps(db, a);
    NoNewcomers(db, a);
    RedemptionFollows(db, after, id);
  }

  lemma CreateRedeemed(db: Db, a: Action, id: Id)
    requires a.DoCreate? && Redeemed(db)
    ensures RedemptionOk(Step(db, a), id)
  {
    assert RedemptionOk(db, id);
  }

  lemma ExpireOutcome(db: Db, id: Id, seen: OrderState, after: Db)
    requires ExpireOrder(db, id, seen) == Ok(after)
    ensures if Unpaid(seen) && id in db.orders && db.orders[id].state == seen
            then after.redemptions == db.redemptions - {id} && id in after.orders && after.orders[id].state.Cancelled?
            else after == db
  {
    if Unpaid(seen) && db.orders[id].state == seen {
      MoveRedemptions(db.(redemptions := db.redemptions - {id}), id, Cancelled, after);
    }
  }

  /** Expiry frees exactly that order's redemption, and cancels the order with it. */
  lemma ExpireRedeemed(db: Db, moved: Id, seen: OrderState, after: Db, id: Id)
    requires Consistent(db) && RedemptionOk(db, id) && ExpireOrder(db, moved, seen) == Ok(after)
    ensures RedemptionOk(after, id)
  {
    ExpireOutcome(db, moved, seen, after);
    ExpireKeeps(db, moved, seen, after);
    RedemptionFollows(db, after, id);
  }

  /** In every reachable state a redemption belongs to an existing order, to that order's buyer and for
      that order's discount, and an order that had a discount has lost its redemption only by ending
      cancelled. */
  lemma {:induction false} RunRedeemed(actions: seq<Action>)
    ensures Redeemed(Run(actions))
  {
    if actions != [] {
      var front, a := actions[..|actions| - 1], actions[|actions| - 1];
      RunRedeemed(front);
      RunKeeps(front);
      forall id: Id ensures RedemptionOk(Step(Run(front), a), id) {
        assert RedemptionOk(Run(front), id);
        if a.DoCreate? {
          CreateRedeemed(Run(front), a, id);
        } else if a.DoExpire? {
          if Attempt(Run(front), a).Ok? {
            ExpireRedeemed(Run(front), a.id, a.seen, Step(Run(front), a), id);
          }
        } else {
          OtherRedeemed(Run(front), a, id);
        }
      }
    }
  }
}
