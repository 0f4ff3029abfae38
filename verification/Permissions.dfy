/** Who can make an order move. */
module Permissions {
  import opened Wrappers
  import opened Ledger
  import opened Pricing
  import opened Market
  import opened Books
  import opened EscrowRuns
  import opened DisputeRuns
  import opened DisputeTheorems

  predicate Involved(db: Db, who: Principal, id: Id) {
    id in db.orders && (who.user == db.orders[id].buyer || who.user == db.orders[id].seller || who.manage || who.risk)
  }

  /** A principal who is neither party to an order nor an operator changes nothing by any request about it. */
  lemma StrangersChangeNothing(db: Db, a: Action)
    requires a.DoPay? || a.DoTransition? || a.DoSubmitRequirement? || a.DoDeliver? || a.DoRevise? || a.DoAccept?
             || a.DoReview?
             || a.DoOpenDispute?
    requires !Involved(db, a.who, a.id)
    ensures Attempt(db, a).Err? && Step(db, a) == db
  {
    if a.DoTransition? && a.id in db.orders {
      assert !CanTransition(a.who, db.orders[a.id], a.to);
    }
  }

  // ----- Confirming a purchase

  predicate Confirms(before: Db, after: Db, id: Id) {
    && id in before.orders && id in after.orders
    && !before.orders[id].state.Accepted? && after.orders[id].state.Accepted?
  }

  lemma OtherMoveConfirmsNothing(db: Db, before: Db, after: Db, moved: Id, to: OrderState, id: Id)
    requires before.orders == db.orders && OnlyMoved(before, after, moved, to)
    ensures Confirms(db, after, id) ==> id == moved && to.Accepted?
  {
  }

  lemma NoConfirmingInReview(db: Db, a: Action, id: Id)
    requires a.DoExpire? || a.DoReview? || a.DoOpenDispute?
    ensures !Confirms(db, Step(db, a), id)
  {
    var after := Step(db, a);
    if Attempt(db, a).Ok? && after != db {
      match a
      case DoExpire(moved, _) =>
        var freed := db.(redemptions := db.redemptions - {moved});
        MoveMoves(freed, moved, Cancelled, after);
        OtherMoveConfirmsNothing(db, freed, after, moved, Cancelled, id);
      case DoReview(_, moved) =>
        if db.orders[moved].state.Accepted? {
          var reviewed := db.(reviews := db.reviews + {moved});
          MoveMoves(reviewed, moved, Completed, after);
          OtherMoveConfirmsNothing(db, reviewed, after, moved, Completed, id);
        }
      case DoOpenDispute(_, moved, dispute) =>
        var frozen := db.(disputes := db.disputes[dispute := Dispute(moved, true)],
                          settlements := Frozen(db.settlements, moved));
        MoveMoves(frozen, moved, Disputed, after);
        OtherMoveConfirmsNothing(db, frozen, after, moved, Disputed, id);
    }
  }

  lemma NoConfirmingInDelivery(db: Db, a: Action, id: Id)
    requires a.DoSubmitRequirement? || a.DoDeliver? || a.DoRevise?
    ensures !Confirms(db, Step(db, a), id)
  {
    var after := Step(db, a);
    if Attempt(db, a).Ok? && after != db {
      match a
      case DoSubmitRequirement(_, moved) =>
      case DoDeliver(_, moved) =>
        MoveMoves(db, moved, Delivered, after);
        OtherMoveConfirmsNothing(db, db, after, moved, Delivered, id);
      case DoRevise(_, moved, _) =>
        MoveMoves(db, moved, RevisionRequested, after);
        OtherMoveConfirmsNothing(db, db, after, moved, RevisionRequested, id);
    }
  }

  lemma NoConfirmingInMoney(db: Db, a: Action, id: Id)
    requires Consistent(db)
             && (a.DoCreate? || a.DoOpenBudget? || a.DoPay? || a.DoSettlement? || a.DoDecide? || a.DoResolve?)
    ensures !Confirms(db, Step(db, a), id)
  {
    var after := Step(db, a);
    if Attempt(db, a).Ok? {
      if a.DoPay? {
        PayOutcome(db, a.who, a.id, a.key, a.payment, after);
      } else if a.DoResolve? {
        ResolvingMoves(db, a.dispute, a.outcome, FeeRate(a.feeSetting), after);
        ResolvedStateFinal(db, a.dispute, a.outcome, FeeRate(a.feeSetting), after);
      }
    }
  }

  lemma ResolvedStateFinal(db: Db, dispute: Id, outcome: Outcome, rate: real, after: Db)
    requires Consistent(db) && 0.0 <= rate <= 100.0 && ResolveDispute(db, dispute, outcome, rate) == Ok(after)
    ensures dispute in db.disputes && db.disputes[dispute].order in after.orders
    ensures after.orders[db.disputes[dispute].order].state.Refunded?
            || after.orders[db.disputes[dispute].order].state.Completed?
  {
    ResolveDecides(db, dispute, outcome, rate, after);
  }

  /** A purchase is confirmed by its buyer, by an operator, or by the acceptance window running out. */
  lemma WhoConfirms(db: Db, a: Action, id: Id)
    requires Consistent(db) && Confirms(db, Step(db, a), id)
    ensures a.DoAutoAccept? || ((a.DoAccept? || a.DoTransition?) && (a.who.user == db.orders[id].buyer || a.who.manage))
    ensures a.id == id && db.orders[id].state.Delivered?
  {
    var after := Step(db, a);
    if a.DoExpire? || a.DoReview? || a.DoOpenDispute? {
      NoConfirmingInReview(db, a, id);
    } else if a.DoSubmitRequirement? || a.DoDeliver? || a.DoRevise? {
      NoConfirmingInDelivery(db, a, id);
    } else if a.DoAccept? || a.DoAutoAccept? || (a.DoTransition? && a.to.Accepted?) {
      AcceptMoves(db, a.id, FeeRate(a.feeSetting), after);
      OtherMoveConfirmsNothing(db, db, after, a.id, Accepted, id);
    } else if a.DoTransition? {
      MoveMoves(db, a.id, a.to, after);
      OtherMoveConfirmsNothing(db, db, after, a.id, a.to, id);
    } else {
      NoConfirmingInMoney(db, a, id);
    }
  }

  // ----- Walking away

  lemma EndingIff(db: Db, id: Id, to: OrderState)
    requires id in db.orders && (to.Cancelled? || to.Refunded?)
    ensures ApplyTransition(db, id, to).Ok? <==> Splits(db.orders[id], EscrowBalance(db, id))
  {
    if EscrowBalance(db, id) > 0 {
      RefundGoesThrough(db, id, EscrowBalance(db, id));
    }
  }

  /** A buyer cancels on their own exactly when a cancellation is pending, the grace period after the promised
      date is over, and what escrow holds can be split. */
  lemma BuyerCancelsIff(db: Db, who: Principal, id: Id, overdue: bool, rate: real)
    requires id in db.orders && who.user == db.orders[id].buyer && !who.manage
    ensures TransitionOrder(db, who, id, Cancelled, overdue, rate).Ok?
      <==> db.orders[id].state.CancelRequested? && overdue && Splits(db.orders[id], EscrowBalance(db, id))
  {
    EndingIff(db, id, Cancelled);
  }
}
