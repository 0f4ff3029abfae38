/** Open disputes over whole runs: never two on one order, and none on an order that has gone on to be
    completed. */
module DisputeRuns {
  import opened Wrappers
  import opened Ledger
  import opened Pricing
  import opened Market
  import opened Books
  import opened EscrowRuns

  predicate OpenOn(db: Db, dispute: Id, id: Id) {
    dispute in db.disputes && db.disputes[dispute].open && db.disputes[dispute].order == id
  }

  /** The order is frozen, or was refunded around the dispute. */
  predicate Waiting(db: Db, id: Id) {
    id in db.orders && (db.orders[id].state.Disputed? || db.orders[id].state.Refunded?)
  }

  ghost predicate DisputesOk(db: Db) {
    && (forall d, id :: OpenOn(db, d, id) ==> Waiting(db, id))
    && (forall d, e, id :: OpenOn(db, d, id) && OpenOn(db, e, id) ==> d == e)
  }

  // ----- What a transaction does to order states

  /** Only order `id` changed, to `to`, and no dispute did. */
  ghost predicate OnlyMoved(db: Db, after: Db, id: Id, to: OrderState) {
    && id in db.orders && after.orders.Keys == db.orders.Keys && after.disputes == db.disputes
    && after.orders[id].state == to
    && forall other :: other in db.orders && other != id ==> after.orders[other] == db.orders[other]
  }

  lemma ReleaseMovesNothing(db: Db, posted: Db, id: Id, upTo: int)
    requires id in db.orders && posted.orders == db.orders && posted.disputes == db.disputes
    ensures OnlyMoved(db, ReleaseBudget(posted, id, upTo), id, db.orders[id].state)
  {
  }

  lemma RefundMovesNothing(db: Db, id: Id, refund: int, after: Db)
    requires id in db.orders && BookRefund(db, id, refund) == Ok(after)
    ensures OnlyMoved(db, after, id, db.orders[id].state)
  {
    if refund > 0 {
      var share := BuyerShare(refund, db.orders[id].amount, db.orders[id].discount);
      var recorded := if share > 0 then db.(refunds := db.refunds + [Refund(id, share)]) else db;
      var posted := recorded.(ledger := recorded.ledger + Posted(id, RefundLines(refund, share)));
      ReleaseMovesNothing(db, posted, id, share);
      assert after == ReleaseBudget(posted, id, share);
    }
  }

  lemma MoveMoves(db: Db, id: Id, to: OrderState, after: Db)
    requires id in db.orders && ApplyTransition(db, id, to) == Ok(after)
    ensures OnlyMoved(db, after, id, to)
  {
    if to.Cancelled? || to.Refunded? {
      var returned := EndingShape(db, id, to, after);
      if EscrowBalance(db, id) > 0 {
        RefundMovesNothing(db, id, EscrowBalance(db, id), returned);
      }
    }
  }

  lemma AcceptMoves(db: Db, id: Id, rate: real, after: Db)
    requires id in db.orders && AcceptAndSettle(db, id, rate) == Ok(after)
    ensures OnlyMoved(db, after, id, Accepted)
  {
    PlainMove(db, id, Accepted);
  }

  /** No dispute changed, and no order that was waiting stopped doing so. */
  ghost predicate KeepsWaiting(db: Db, after: Db) {
    after.disputes == db.disputes && forall id :: Waiting(db, id) ==> Waiting(after, id)
  }

  lemma MovedKeepsWaiting(db: Db, before: Db, after: Db, id: Id, to: OrderState)
    requires before.orders == db.orders && before.disputes == db.disputes && OnlyMoved(before, after, id, to)
    requires Waiting(db, id) ==> to.Refunded?
    ensures KeepsWaiting(db, after)
  {
  }

  lemma PayKeepsWaiting(db: Db, a: Action)
    requires a.DoCreate? || a.DoOpenBudget? || a.DoPay? || a.DoSettlement? || a.DoDecide?
    ensures KeepsWaiting(db, Step(db, a))
  {
    if Attempt(db, a).Ok? && a.DoPay? {
      PayOutcome(db, a.who, a.id, a.key, a.payment, Step(db, a));
    }
  }

  lemma WorkKeepsWaiting(db: Db, a: Action)
    requires a.DoSubmitRequirement? || a.DoDeliver? || a.DoRevise? || a.DoAccept? || a.DoAutoAccept?
    ensures KeepsWaiting(db, Step(db, a))
  {
    var after := Step(db, a);
    if Attempt(db, a).Ok? && after != db {
      match a
      case DoSubmitRequirement(_, id) => MovedKeepsWaiting(db, db, after, id, Ready);
      case DoDeliver(_, id) =>
        MoveMoves(db, id, Delivered, after);
        MovedKeepsWaiting(db, db, after, id, Delivered);
      case DoRevise(_, id, _) =>
        MoveMoves(db, id, RevisionRequested, after);
        MovedKeepsWaiting(db, db, after, id, RevisionRequested);
      case DoAccept(_, id, setting) =>
        AcceptMoves(db, id, FeeRate(setting), after);
        MovedKeepsWaiting(db, db, after, id, Accepted);
      case DoAutoAccept(id, setting) =>
        AcceptMoves(db, id, FeeRate(setting), after);
        MovedKeepsWaiting(db, db, after, id, Accepted);
    }
  }

  /** The general state change is the one transaction that may move a waiting order, and only to refunded. */
  lemma TransitionKeepsWaiting(db: Db, who: Principal, id: Id, to: OrderState, overdue: bool, rate: real, after: Db)
    requires TransitionOrder(db, who, id, to, overdue, rate) == Ok(after)
    ensures KeepsWaiting(db, after)
  {
    if to.Accepted? {
      AcceptMoves(db, id, rate, after);
    } else {
      MoveMoves(db, id, to, after);
    }
    MovedKeepsWaiting(db, db, after, id, to);
  }

  lemma EndKeepsWaiting(db: Db, a: Action)
    requires a.DoExpire? || a.DoReview?
    ensures KeepsWaiting(db, Step(db, a))
  {
    var after := Step(db, a);
    if Attempt(db, a).Ok? && after != db {
      match a
      case DoExpire(id, _) =>
        var freed := db.(redemptions := db.redemptions - {id});
        MoveMoves(freed, id, Cancelled, after);
        MovedKeepsWaiting(db, freed, after, id, Cancelled);
      case DoReview(_, id) =>
        if db.orders[id].state.Accepted? {
          var reviewed := db.(reviews := db.reviews + {id});
          MoveMoves(reviewed, id, Completed, after);
          MovedKeepsWaiting(db, reviewed, after, id, Completed);
        }
    }
  }

  // ----- Runs

  lemma WaitingKeepsOk(db: Db, after: Db)
    requires DisputesOk(db) && KeepsWaiting(db, after)
    ensures DisputesOk(after)
  {
    forall d, id | OpenOn(after, d, id) ensures Waiting(after, id) {
      assert OpenOn(db, d, id);
    }
    forall d, e, id | OpenOn(after, d, id) && OpenOn(after, e, id) ensures d == e {
      assert OpenOn(db, d, id) && OpenOn(db, e, id);
    }
  }

  lemma OpeningKeepsOk(db: Db, who: Principal, id: Id, dispute: Id, after: Db)
    requires DisputesOk(db) && OpenDispute(db, who, id, dispute) == Ok(after)
    ensures DisputesOk(after)
  {
    var frozen := db.(disputes := db.disputes[dispute := Dispute(id, true)], settlements := Frozen(db.settlements, id));
    MoveMoves(frozen, id, Disputed, after);
    assert forall d :: !OpenOn(db, d, id);
    forall d, other | OpenOn(after, d, other) && other != id ensures OpenOn(db, d, other) && Waiting(after, other) {
      assert OpenOn(db, d, other);
      assert Waiting(db, other);
    }
    forall d | OpenOn(after, d, id) ensures d == dispute {
      assert !OpenOn(db, d, id);
    }
  }

  /** A resolution closes the one open dispute of the order it ends. */
  lemma ResolvingMoves(db: Db, dispute: Id, outcome: Outcome, rate: real, after: Db)
    requires ResolveDispute(db, dispute, outcome, rate) == Ok(after)
    ensures dispute in db.disputes && db.disputes[dispute].open
    ensures
      var id := db.disputes[dispute].order;
      && after.disputes == db.disputes[dispute := Dispute(id, false)] && after.orders.Keys == db.orders.Keys
      && forall other :: other in db.orders && other != id ==> after.orders[other] == db.orders[other]
  {
    var unwound, refunded, rebooked := ResolveSteps(db, dispute, outcome, rate, after);
    var id := db.disputes[dispute].order;
    var refund := RefundOf(outcome, db.orders[id].amount);
    Unwinding(db, id, unwound);
    RefundMovesNothing(unwound, id, refund, refunded);
    Rebooking(refunded, id, db.orders[id].amount - refund, rate, rebooked);
    MoveMoves(rebooked.(disputes := rebooked.disputes[dispute := Dispute(id, false)]), id,
              if refund == db.orders[id].amount then Refunded else Completed, after);
  }

  lemma ResolvingKeepsOk(db: Db, dispute: Id, outcome: Outcome, rate: real, after: Db)
    requires DisputesOk(db) && ResolveDispute(db, dispute, outcome, rate) == Ok(after)
    ensures DisputesOk(after)
  {
    ResolvingMoves(db, dispute, outcome, rate, after);
    ClosedKeepsOk(db, dispute, db.disputes[dispute].order, after);
  }

  lemma ClosedKeepsOk(db: Db, dispute: Id, id: Id, after: Db)
    requires DisputesOk(db) && OpenOn(db, dispute, id)
    requires after.disputes == db.disputes[dispute := Dispute(id, false)] && after.orders.Keys == db.orders.Keys
    requires forall other :: other in db.orders && other != id ==> after.orders[other] == db.orders[other]
    ensures DisputesOk(after)
  {
    forall d, other | OpenOn(after, d, other) ensures OpenOn(db, d, other) && other != id && Waiting(after, other) {
      assert OpenOn(db, d, other) && d != dispute;
    }
  }

  lemma OthersKeepWaiting(db: Db, a: Action)
    requires !a.DoOpenDispute? && !a.DoResolve?
    ensures KeepsWaiting(db, Step(db, a))
  {
    var after := Step(db, a);
    if Attempt(db, a).Err? {
    } else if a.DoTransition? {
      TransitionKeepsWaiting(db, a.who, a.id, a.to, a.overdue, FeeRate(a.feeSetting), after);
    } else if a.DoExpire? || a.DoReview? {
      EndKeepsWaiting(db, a);
    } else if a.DoSubmitRequirement? || a.DoDeliver? || a.DoRevise? || a.DoAccept? || a.DoAutoAccept? {
      WorkKeepsWaiting(db, a);
    } else {
      PayKeepsWaiting(db, a);
    }
  }

  lemma StepDisputes(db: Db, a: Action)
    requires DisputesOk(db)
    ensures DisputesOk(Step(db, a))
  {
    var after := Step(db, a);
    if Attempt(db, a).Err? {
    } else if a.DoOpenDispute? {
      OpeningKeepsOk(db, a.who, a.id, a.dispute, after);
    } else if a.DoResolve? {
      ResolvingKeepsOk(db, a.dispute, a.outcome, FeeRate(a.feeSetting), after);
    } else {
      OthersKeepWaiting(db, a);
      WaitingKeepsOk(db, after);
    }
  }

  /** In every reachable state an order has at most one open dispute, and an order with one is disputed or
      was refunded around it: no order is ever completed, cancelled or paid for with its dispute open. */
  lemma {:induction false} RunDisputes(actions: seq<Action>)
    ensures DisputesOk(Run(actions))
  {
    if actions != [] {
      RunDisputes(actions[..|actions| - 1]);
      StepDisputes(Run(actions[..|actions| - 1]), actions[|actions| - 1]);
    }
  }
}
