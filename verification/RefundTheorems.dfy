/** How what an order gives back is split between its buyer and the promotion, over every run. */
module RefundTheorems {
  import opened Wrappers
  import opened Int64
  import opened Ledger
  import opened Pricing
  import opened Market
  import opened Refunds
  import opened Books
  import opened EscrowRuns
  import opened EscrowTheorems

  /** Everything given back so far is split as one refund of that size is. */
  predicate SplitAsOne(order: Order, acc: Accounts) {
    acc.buyerRefund == ShareOf(order, acc.Back())
  }

  /** Nothing more was given back, or all of it at once. */
  predicate GivesOnce(order: Order, acc: Accounts, after: Accounts) {
    || (after.buyerRefund == acc.buyerRefund && after.promotionRecovery == acc.promotionRecovery)
    || (acc.Back() == 0 && SplitAsOne(order, after))
  }

  /** What order `id` gave back, account by account: `r`, of which `share` to the buyer. */
  predicate ReturnsAt(db: Db, after: Db, id: Id, r: int, share: int) {
    var acc, acc' := Balances(db.ledger, id), Balances(after.ledger, id);
    acc'.buyerRefund == acc.buyerRefund + share && acc'.promotionRecovery == acc.promotionRecovery + r - share
  }

  lemma NothingBooked(db: Db, after: Db, id: Id)
    requires after.ledger == db.ledger
    ensures ReturnsAt(db, after, id, 0, 0)
  {
  }

  lemma NothingElsewhere(db: Db, after: Db, id: Id, other: Id)
    requires Elsewhere(db, after, id) && other != id
    ensures ReturnsAt(db, after, other, 0, 0)
  {
    assert SameAt(db, after, other);
    assert BooksOf(db, other).acc == BooksOf(after, other).acc;
  }

  /** What has not ended has given nothing back. */
  lemma NothingBackYet(db: Db, id: Id)
    requires Consistent(db) && id in db.orders && !Final(db.orders[id].state)
    ensures
      var acc := Balances(db.ledger, id);
      acc.Back() == 0 && 0 <= acc.buyerRefund && 0 <= acc.promotionRecovery
  {
    Look(db, id);
    assert BooksOf(db, id).acc == Balances(db.ledger, id);
  }

  lemma PaymentReturns(db: Db, who: Principal, paid: Id, key: string, payment: Id, after: Db, id: Id)
    requires PayOrder(db, who, paid, key, payment) == Ok(after)
    ensures ReturnsAt(db, after, id, 0, 0)
  {
    PayOutcome(db, who, paid, key, payment, after);
    if !Replays(db, paid, key) {
      var order := db.orders[paid];
      PostedBalances(db.ledger, paid, PayLines(order.amount, order.discount), id);
      PayMoves(Balances(db.ledger, id), order.amount, order.discount);
    }
  }

  lemma ConfirmationReturns(db: Db, confirmed: Id, rate: real, after: Db, id: Id)
    requires confirmed in db.orders && AcceptAndSettle(db, confirmed, rate) == Ok(after)
    ensures ReturnsAt(db, after, id, 0, 0)
  {
    var amount := db.orders[confirmed].amount;
    assert after.ledger == db.ledger + Posted(confirmed, SettleLines(amount, Fee(amount, rate)));
    PostedBalances(db.ledger, confirmed, SettleLines(amount, Fee(amount, rate)), id);
    SettleMoves(Balances(db.ledger, id), amount, Fee(amount, rate));
  }

  lemma PayoutReturns(db: Db, settled: Id, act: SettlementAct, after: Db, id: Id)
    requires SettlementAction(db, settled, act) == Ok(after)
    ensures ReturnsAt(db, after, id, 0, 0)
  {
    if act.CompleteIt? {
      var net := db.settlements[settled].net;
      var lines := [DebitOf(SellerPayable, net), CreditOf(SellerPayout, net)];
      assert after.ledger == db.ledger + Posted(settled, lines);
      PostedBalances(db.ledger, settled, lines, id);
      PayoutMoves(Balances(db.ledger, id), net);
    }
  }

  /** What the order holds, never below zero: what ending it returns. */
  function Holding(db: Db, id: Id): int {
    Greatest(0, Balances(db.ledger, id).escrow)
  }

  lemma MoveReturns(db: Db, moved: Id, to: OrderState, after: Db, id: Id)
    requires Consistent(db) && moved in db.orders && ApplyTransition(db, moved, to) == Ok(after)
    ensures if id == moved && (to.Cancelled? || to.Refunded?) then
              ReturnsAt(db, after, id, Holding(db, id), ShareOf(db.orders[id], Holding(db, id)))
            else ReturnsAt(db, after, id, 0, 0)
  {
    EscrowInRange(db, moved);
    Moving(db, moved, to, after);
    if id != moved {
      NothingElsewhere(db, after, moved, id);
    } else if !to.Cancelled? && !to.Refunded? {
      assert BooksOf(db, id).acc == BooksOf(after, id).acc;
    }
  }

  lemma DecidedReturns(s: Option<Settlement>, b: Books, remaining: int, rate: real, r: int, share: int,
                       refunded: Books, after: Books)
    requires Returned(UnwoundBooks(s, b), refunded, r, share) && after == RebookedBooks(refunded, remaining, rate)
    ensures after.acc.buyerRefund == b.acc.buyerRefund + share
    ensures after.acc.promotionRecovery == b.acc.promotionRecovery + r - share
  {
  }

  lemma ResolvedReturns(db: Db, after: Db, id: Id, refund: int, rate: real, refunded: Books)
    requires Resolved(db, after, id, refund, rate, refunded)
    ensures id in db.orders && db.orders[id].state.Disputed? && Elsewhere(db, after, id)
    ensures ReturnsAt(db, after, id, refund, ShareOf(db.orders[id], refund))
    ensures id in after.orders && Decided(db.orders[id], refund, after.orders[id].state)
  {
    DecidedReturns(SettlementOf(db, id), BooksOf(db, id), db.orders[id].amount - refund, rate, refund,
                   ShareOf(db.orders[id], refund), refunded, BooksOf(after, id));
  }

  lemma ResolutionReturns(db: Db, dispute: Id, outcome: Outcome, rate: real, after: Db) returns (id: Id, refund: int)
    requires Consistent(db) && 0.0 <= rate <= 100.0 && ResolveDispute(db, dispute, outcome, rate) == Ok(after)
    ensures id in db.orders && db.orders[id].state.Disputed? && Elsewhere(db, after, id)
    ensures ReturnsAt(db, after, id, refund, ShareOf(db.orders[id], refund))
    ensures id in after.orders && Decided(db.orders[id], refund, after.orders[id].state)
  {
    var refunded := Resolving(db, dispute, outcome, rate, after);
    id := db.disputes[dispute].order;
    refund := RefundOf(outcome, db.orders[id].amount);
    ResolvedReturns(db, after, id, refund, rate, refunded);
  }

  /** What a transaction may return: nothing, or from an order that has not ended what it holds or, by a decision,
      the refund decided on. */
  predicate MayReturn(db: Db, a: Action, after: Db, id: Id, r: int)
    requires id in db.orders
  {
    && ReturnsAt(db, after, id, r, ShareOf(db.orders[id], r))
    && (Final(db.orders[id].state) ==> r == 0)
    && (if a.DoResolve? then
          id in after.orders && after.orders[id].state.Refunded? && !Final(db.orders[id].state) ==>
            r == db.orders[id].amount
        else r == 0 || r == Holding(db, id))
  }

  lemma ResolutionMayReturn(db: Db, a: Action, after: Db, id: Id) returns (r: int)
    requires Consistent(db) && id in db.orders && a.DoResolve? && Attempt(db, a) == Ok(after)
    ensures MayReturn(db, a, after, id, r)
  {
    var decided, refund := ResolutionReturns(db, a.dispute, a.outcome, FeeRate(a.feeSetting), after);
    if id != decided {
      NothingElsewhere(db, after, decided, id);
      assert SameAt(db, after, id);
      r := 0;
    } else {
      r := refund;
    }
  }

  lemma MoveMayReturn(db: Db, before: Db, a: Action, moved: Id, to: OrderState, after: Db, id: Id) returns (r: int)
    requires Consistent(before) && before.orders == db.orders && before.ledger == db.ledger && id in db.orders
    requires moved in db.orders && !Final(db.orders[moved].state) && ApplyTransition(before, moved, to) == Ok(after)
    requires !a.DoResolve?
    ensures MayReturn(db, a, after, id, r)
  {
    MoveReturns(before, moved, to, after, id);
    r := if id == moved && (to.Cancelled? || to.Refunded?) then Holding(db, id) else 0;
  }

  lemma NoneMayReturn(db: Db, a: Action, after: Db, id: Id)
    requires id in db.orders && ReturnsAt(db, after, id, 0, 0) && !a.DoResolve?
    ensures MayReturn(db, a, after, id, 0)
  {
  }

  lemma ExpiryMayReturn(db: Db, a: Action, after: Db, id: Id) returns (r: int)
    requires Consistent(db) && id in db.orders && a.DoExpire? && Attempt(db, a) == Ok(after)
    ensures MayReturn(db, a, after, id, r)
  {
    if Unpaid(a.seen) && db.orders[a.id].state == a.seen {
      var without := db.(redemptions := db.redemptions - {a.id});
      OtherTables(db, without);
      r := MoveMayReturn(db, without, a, a.id, Cancelled, after, id);
    } else {
      r := 0;
    }
  }

  lemma TransitionMayReturn(db: Db, a: Action, after: Db, id: Id) returns (r: int)
    requires Consistent(db) && id in db.orders && a.DoTransition? && Attempt(db, a) == Ok(after)
    ensures MayReturn(db, a, after, id, r)
  {
    if a.to.Accepted? {
      ConfirmationReturns(db, a.id, FeeRate(a.feeSetting), after, id);
      r := 0;
    } else {
      r := MoveMayReturn(db, db, a, a.id, a.to, after, id);
    }
  }

  lemma OtherReturnsNothing(db: Db, a: Action, after: Db, id: Id)
    requires id in db.orders && Attempt(db, a) == Ok(after)
    requires !a.DoTransition? && !a.DoExpire? && !a.DoResolve?
    ensures ReturnsAt(db, after, id, 0, 0)
  {
    match a
    case DoPay(who, paid, key, payment) => PaymentReturns(db, who, paid, key, payment, after, id);
    case DoAccept(who, confirmed, setting) => ConfirmationReturns(db, confirmed, FeeRate(setting), after, id);
    case DoAutoAccept(confirmed, setting) =>
      if db.orders[confirmed].state.Delivered? {
        ConfirmationReturns(db, confirmed, FeeRate(setting), after, id);
      }
    case DoSettlement(settled, act) => PayoutReturns(db, settled, act, after, id);
    case _ => NothingBooked(db, after, id);
  }

  lemma StepReturns(db: Db, a: Action, id: Id) returns (r: int)
    requires Consistent(db) && id in db.orders
    ensures MayReturn(db, a, Step(db, a), id, r)
  {
    r := 0;
    if Attempt(db, a).Ok? {
      var after := Step(db, a);
      if a.DoResolve? {
        r := ResolutionMayReturn(db, a, after, id);
      } else if a.DoTransition? {
        r := TransitionMayReturn(db, a, after, id);
      } else if a.DoExpire? {
        r := ExpiryMayReturn(db, a, after, id);
      } else {
        OtherReturnsNothing(db, a, after, id);
        NoneMayReturn(db, a, after, id);
      }
    }
  }

  lemma ReturnsGivesOnce(order: Order, acc: Accounts, after: Accounts, r: int, share: int)
    requires acc.Back() == 0 && 0 <= acc.buyerRefund && 0 <= acc.promotionRecovery && share == ShareOf(order, r)
    requires after.buyerRefund == acc.buyerRefund + share
             && after.promotionRecovery == acc.promotionRecovery + r - share
    ensures GivesOnce(order, acc, after)
  {
    assert after.Back() == r;
  }

  /** No transaction gives back a second time: an order gives back nothing or everything it ever will. */
  lemma StepGivesOnce(db: Db, a: Action, id: Id)
    requires Consistent(db) && id in db.orders
    ensures GivesOnce(db.orders[id], Balances(db.ledger, id), Balances(Step(db, a).ledger, id))
  {
    var r := StepReturns(db, a, id);
    if r != 0 {
      NothingBackYet(db, id);
      ReturnsGivesOnce(db.orders[id], Balances(db.ledger, id), Balances(Step(db, a).ledger, id), r,
                       ShareOf(db.orders[id], r));
    }
  }

  lemma SplitFollows(order: Order, order': Order, acc: Accounts, after: Accounts)
    requires SplitAsOne(order, acc) && GivesOnce(order, acc, after)
    requires order'.amount == order.amount && order'.discount == order.discount
    ensures SplitAsOne(order', after)
  {
  }

  lemma {:induction false} RunSplitsAsOne(actions: seq<Action>, id: Id)
    requires id in Run(actions).orders
    ensures SplitAsOne(Run(actions).orders[id], Balances(Run(actions).ledger, id))
  {
    if actions != [] {
      var db, a := Run(actions[..|actions| - 1]), actions[|actions| - 1];
      RunKeeps(actions[..|actions| - 1]);
      if id in db.orders {
        RunSplitsAsOne(actions[..|actions| - 1], id);
        StepGivesOnce(db, a, id);
        StepKeeps(db, a);
        SplitFollows(db.orders[id], Step(db, a).orders[id], Balances(db.ledger, id), Balances(Step(db, a).ledger, id));
      } else {
        NewcomersAreUnpaid(db, a, id);
        StepKeeps(db, a);
        NothingBackYet(Step(db, a), id);
      }
    }
  }

  lemma BackWithinAmount(order: Order, s: Option<Settlement>, b: Books)
    requires Sound(order, s, b)
    ensures 0 <= b.acc.Back() <= order.amount && 0 <= b.acc.buyerRefund && 0 <= b.acc.promotionRecovery
  {
  }

  /** As long as its multiplication fits, the buyer has at most what they paid and the promotion at most the
      discount, and an order that gave back everything gave each of them exactly that. */
  predicate SplitsFairly(order: Order, acc: Accounts) {
    order.amount <= SAFE_AMOUNT || acc.Back() * (order.amount - order.discount) <= MAX ==>
      && acc.buyerRefund <= order.amount - order.discount && acc.promotionRecovery <= order.discount
      && (acc.Back() == order.amount ==>
            acc.buyerRefund == order.amount - order.discount && acc.promotionRecovery == order.discount)
  }

  /** In every reachable state what an order gave back is within its amount, split as one refund of that size,
      and up to the safe amount split fairly. */
  lemma GivenBackSplits(actions: seq<Action>, id: Id)
    requires id in Run(actions).orders
    ensures
      var order, acc := Run(actions).orders[id], Balances(Run(actions).ledger, id);
      0 <= acc.Back() <= order.amount && acc.buyerRefund == ShareOf(order, acc.Back()) && SplitsFairly(order, acc)
  {
    var db := Run(actions);
    RunKeeps(actions);
    RunSplitsAsOne(actions, id);
    Look(db, id);
    BackWithinAmount(db.orders[id], SettlementOf(db, id), BooksOf(db, id));
    FittingSplit(db.orders[id], BooksOf(db, id).acc);
  }

  lemma FittingSplit(order: Order, acc: Accounts)
    requires Sane(order) && SplitAsOne(order, acc) && 0 <= acc.Back() <= order.amount
    requires 0 <= acc.buyerRefund && 0 <= acc.promotionRecovery
    ensures SplitsFairly(order, acc)
  {
    if 0 < acc.Back() {
      ExactSplit(acc.Back(), order.amount, order.discount);
      if order.amount <= SAFE_AMOUNT {
        ProductBound(acc.Back(), order.amount - order.discount, SAFE_AMOUNT);
      }
      if 0 < order.discount {
        ShareExactIffFits(acc.Back(), order.amount, order.discount);
      }
    }
  }

  // ----- How an order came to be refunded

  /** A resolution took the order to refunded. */
  predicate DecidesRefund(before: Db, a: Action, after: Db, id: Id) {
    && a.DoResolve? && id in before.orders && id in after.orders
    && !Final(before.orders[id].state) && after.orders[id].state.Refunded?
  }

  predicate EverRefundedByDecision(actions: seq<Action>, id: Id) {
    && actions != []
    && var front, a := actions[..|actions| - 1], actions[|actions| - 1];
    && (EverRefundedByDecision(front, id) || DecidesRefund(Run(front), a, Run(actions), id))
  }

  /** A decision gives everything back; any other way to refunded gives back nothing that was never paid. */
  predicate BackHistory(order: Order, b: Books, decided: bool) {
    && (decided ==> order.state.Refunded? && b.acc.Back() == order.amount)
    && (order.state.Refunded? && b.paid.rows == 0 && !decided ==> b.acc.Back() == 0)
  }

  lemma BackStep(order: Order, s: Option<Settlement>, b: Books, order': Order, s': Option<Settlement>, b': Books,
                 decided: bool, now: bool, r: int)
    requires Sound(order, s, b) && Sound(order', s', b') && Evolution(order, s, b, order', s', b')
    requires BackHistory(order, b, decided) && b'.acc.Back() == b.acc.Back() + r
             && (Final(order.state) ==> r == 0 && !now)
    requires if now then order'.state.Refunded? && r == order.amount
             else order'.state.Refunded? && !Final(order.state) ==> r == 0 || r == Greatest(0, b.acc.escrow)
    ensures BackHistory(order', b', decided || now)
  {
  }

  lemma BackFollows(db: Db, a: Action, id: Id, decided: bool)
    requires Consistent(db) && Consistent(Step(db, a)) && id in db.orders && id in Step(db, a).orders
    requires BackHistory(db.orders[id], BooksOf(db, id), decided)
    ensures BackHistory(Step(db, a).orders[id], BooksOf(Step(db, a), id), decided
                        || DecidesRefund(db, a, Step(db, a), id))
  {
    var after := Step(db, a);
    var r := StepReturns(db, a, id);
    StepKeeps(db, a);
    Look(db, id);
    Look(after, id);
    BackStep(db.orders[id], SettlementOf(db, id), BooksOf(db, id), after.orders[id], SettlementOf(after, id),
             BooksOf(after, id), decided, DecidesRefund(db, a, after, id), r);
  }

  lemma {:induction false} NeverDecidedBefore(actions: seq<Action>, id: Id)
    requires id !in Run(actions).orders
    ensures !EverRefundedByDecision(actions, id)
  {
    if actions != [] {
      var front := actions[..|actions| - 1];
      if id in Run(front).orders {
        RunKeeps(front);
        OrdersStay(Run(front), actions[|actions| - 1], id);
      } else {
        NeverDecidedBefore(front, id);
      }
    }
  }

  lemma {:induction false} BackFollowsHistory(actions: seq<Action>, id: Id)
    requires id in Run(actions).orders
    ensures BackHistory(Run(actions).orders[id], BooksOf(Run(actions), id), EverRefundedByDecision(actions, id))
  {
    if actions != [] {
      var front := actions[..|actions| - 1];
      RunKeeps(front);
      RunKeeps(actions);
      if id in Run(front).orders {
        BackFollowsHistory(front, id);
        BackFollows(Run(front), actions[|actions| - 1], id, EverRefundedByDecision(front, id));
      } else {
        NewcomersAreUnpaid(Run(front), actions[|actions| - 1], id);
        NeverDecidedBefore(front, id);
      }
    }
  }

  /** Escrow is what the state promises exactly when the order was paid for, is worth nothing, was never due to
      move money, or was refunded with nothing settled and not by a decision. */
  lemma EscrowFollowsHistory(actions: seq<Action>, id: Id)
    requires id in Run(actions).orders
    ensures
      var order, s, b := Run(actions).orders[id], SettlementOf(Run(actions), id), BooksOf(Run(actions), id);
      b.acc.escrow == Expected(order, s)
      <==> (b.paid.rows == 1 || order.amount == 0 || Unpaid(order.state) || order.state.Cancelled?
            || (order.state.Refunded? && !Live(s) && !EverRefundedByDecision(actions, id)))
  {
    EscrowFollowsState(actions, id);
    BackFollowsHistory(actions, id);
    RunKeeps(actions);
    Look(Run(actions), id);
  }

  lemma UnfundedHolds(order: Order, s: Option<Settlement>, b: Books, decided: bool)
    requires Sound(order, s, b) && BackHistory(order, b, decided) && b.paid.rows != 1
    ensures Gross(s) + b.acc.Back() == 0 <==> order.amount == 0 || (!Live(s) && !decided)
  {
  }

  /** The clamp in the escrow query changes nothing exactly when the order was paid for, is worth nothing, or has
      neither a live settlement nor a decision that refunded it. */
  lemma ClampInertIff(actions: seq<Action>, id: Id)
    requires id in Run(actions).orders
    ensures
      var order, s, b := Run(actions).orders[id], SettlementOf(Run(actions), id), BooksOf(Run(actions), id);
      EscrowBalance(Run(actions), id) == b.acc.escrow
      <==> (b.paid.rows == 1 || order.amount == 0 || (!Live(s) && !EverRefundedByDecision(actions, id)))
  {
    var db := Run(actions);
    EscrowClampInert(actions, id);
    BackFollowsHistory(actions, id);
    RunKeeps(actions);
    Look(db, id);
    if BooksOf(db, id).paid.rows != 1 {
      UnfundedHolds(db.orders[id], SettlementOf(db, id), BooksOf(db, id), EverRefundedByDecision(actions, id));
    }
  }
}
