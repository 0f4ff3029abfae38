/** What every reader of the ledger may rely on, whatever sequence of transactions came before. */
module EscrowTheorems {
  import opened Wrappers
  import opened Int64
  import opened Ledger
  import opened Pricing
  import opened Market
  import opened Books
  import opened EscrowRuns

  // ----- Conservation

  lemma SoundConserves(order: Order, s: Option<Settlement>, b: Books)
    requires Sound(order, s, b)
    ensures
      && b.acc.Sum() == 0
      && b.paid.rows <= 1 && b.refunds == b.acc.buyerRefund
      && (b.paid.rows == 1 ==>
            && -b.acc.buyerPayment == b.paid.total == order.amount - order.discount
            && -b.acc.promotionExpense == order.discount
            && order.amount == b.acc.escrow + b.acc.buyerRefund + b.acc.promotionRecovery
                               + b.acc.platformRevenue + b.acc.sellerPayable + b.acc.sellerPayout
            && 0 <= b.acc.escrow && 0 <= b.acc.buyerRefund && 0 <= b.acc.promotionRecovery
            && 0 <= b.acc.platformRevenue && 0 <= b.acc.sellerPayable && 0 <= b.acc.sellerPayout)
  {
  }

  /** Double entry holds per order, and every paid order's money is in exactly one place: what came in
      equals the order amount and equals what escrow holds plus everything that left it. */
  lemma Conservation(actions: seq<Action>, id: Id)
    requires id in Run(actions).orders
    ensures
      var order, b := Run(actions).orders[id], BooksOf(Run(actions), id);
      && b.acc.Sum() == 0
      && b.paid.rows <= 1 && b.refunds == b.acc.buyerRefund
      && (b.paid.rows == 1 ==>
            && -b.acc.buyerPayment == b.paid.total == order.amount - order.discount
            && -b.acc.promotionExpense == order.discount
            && order.amount == b.acc.escrow + b.acc.buyerRefund + b.acc.promotionRecovery
                               + b.acc.platformRevenue + b.acc.sellerPayable + b.acc.sellerPayout
            && 0 <= b.acc.escrow && 0 <= b.acc.buyerRefund && 0 <= b.acc.promotionRecovery
            && 0 <= b.acc.platformRevenue && 0 <= b.acc.sellerPayable && 0 <= b.acc.sellerPayout)
  {
    RunKeeps(actions);
    Look(Run(actions), id);
    SoundConserves(Run(actions).orders[id], SettlementOf(Run(actions), id), BooksOf(Run(actions), id));
  }

  // ----- Escrow against the order state

  /** What the order state promises to hold in escrow. */
  function Expected(order: Order, s: Option<Settlement>): int {
    if Working(order.state) || (order.state.Disputed? && s.None?) then order.amount else 0
  }

  /** Escrow is what the state promises exactly when the order was paid for, or is worth nothing, or no
      money was ever due to move: nothing captured in its first states, cancelled, or refunded with
      nothing settled and nothing given back. */
  lemma EscrowFollowsState(actions: seq<Action>, id: Id)
    requires id in Run(actions).orders
    ensures
      var order, s, b := Run(actions).orders[id], SettlementOf(Run(actions), id), BooksOf(Run(actions), id);
      b.acc.escrow == Expected(order, s)
      <==> (b.paid.rows == 1 || order.amount == 0 || Unpaid(order.state) || order.state.Cancelled?
            || (order.state.Refunded? && !Live(s) && b.acc.Back() == 0))
  {
    RunKeeps(actions);
    Look(Run(actions), id);
    EscrowFormula(Run(actions).orders[id], SettlementOf(Run(actions), id), BooksOf(Run(actions), id));
  }

  lemma EscrowFormula(order: Order, s: Option<Settlement>, b: Books)
    requires Sound(order, s, b)
    ensures b.acc.escrow == Expected(order, s)
      <==> (b.paid.rows == 1 || order.amount == 0 || Unpaid(order.state) || order.state.Cancelled?
            || (order.state.Refunded? && !Live(s) && b.acc.Back() == 0))
  {
  }

  /** The clamp in the escrow query changes the result only for an order nobody paid for that has
      nevertheless settled or refunded something. */
  lemma EscrowClampInert(actions: seq<Action>, id: Id)
    requires id in Run(actions).orders
    ensures
      var s, b := SettlementOf(Run(actions), id), BooksOf(Run(actions), id);
      EscrowBalance(Run(actions), id) == b.acc.escrow <==> (b.paid.rows == 1 || Gross(s) + b.acc.Back() == 0)
  {
    RunKeeps(actions);
    Look(Run(actions), id);
    ClampFormula(Run(actions).orders[id], SettlementOf(Run(actions), id), BooksOf(Run(actions), id));
  }

  lemma ClampFormula(order: Order, s: Option<Settlement>, b: Books)
    requires Sound(order, s, b)
    ensures 0 <= b.acc.escrow <==> (b.paid.rows == 1 || Gross(s) + b.acc.Back() == 0)
  {
  }

  // ----- One payment per order, and the one way around it

  /** The step took the order from payment pending to paid without passing through a payment. */
  predicate HandPays(before: Db, after: Db, id: Id) {
    && id in before.orders && id in after.orders
    && before.orders[id].state.PaymentPending? && after.orders[id].state == OrderState.Paid
  }

  predicate EverPaidByHand(actions: seq<Action>, id: Id) {
    && actions != []
    && var front := actions[..|actions| - 1];
    && (EverPaidByHand(front, id) || HandPays(Run(front), Run(actions), id))
  }

  /** Past the unpaid states an order that was not cancelled has no captured payment if and only if its
      run contains a hand-made step from payment pending to paid. */
  lemma {:induction false} UnfundedIffPaidByHand(actions: seq<Action>, id: Id)
    requires id in Run(actions).orders
    ensures FundingHistory(Run(actions).orders[id], BooksOf(Run(actions), id), EverPaidByHand(actions, id))
  {
    if actions != [] {
      var front := actions[..|actions| - 1];
      RunKeeps(front);
      RunKeeps(actions);
      if id in Run(front).orders {
        UnfundedIffPaidByHand(front, id);
        FundingFollows(Run(front), actions[|actions| - 1], id, EverPaidByHand(front, id));
      } else {
        NewcomersAreUnpaid(Run(front), actions[|actions| - 1], id);
        NeverBefore(front, id);
        Look(Run(actions), id);
      }
    }
  }

  lemma FundingFollows(db: Db, a: Action, id: Id, byHand: bool)
    requires Consistent(db) && Consistent(Step(db, a)) && id in db.orders && id in Step(db, a).orders
    requires FundingHistory(db.orders[id], BooksOf(db, id), byHand)
    ensures FundingHistory(Step(db, a).orders[id], BooksOf(Step(db, a), id), byHand || HandPays(db, Step(db, a), id))
  {
    var after := Step(db, a);
    StepKeeps(db, a);
    Look(db, id);
    Look(after, id);
    FundingStep(db.orders[id], SettlementOf(db, id), BooksOf(db, id),
                after.orders[id], SettlementOf(after, id), BooksOf(after, id), byHand);
  }

  /** A hand-made payment leaves an order without a capture for good; without one, a live or settled
      order has exactly its one capture. */
  predicate FundingHistory(order: Order, b: Books, byHand: bool) {
    && (byHand ==> b.paid.rows == 0 && !Unpaid(order.state))
    && (!Unpaid(order.state) && !order.state.Cancelled? ==> (b.paid.rows == 0 <==> byHand))
  }

  lemma FundingStep(order: Order, s: Option<Settlement>, b: Books, order': Order, s': Option<Settlement>, b': Books,
                    byHand: bool)
    requires Sound(order, s, b) && Sound(order', s', b') && Evolution(order, s, b, order', s', b')
    requires FundingHistory(order, b, byHand)
    ensures FundingHistory(order', b', byHand || (order.state.PaymentPending? && order'.state == OrderState.Paid))
  {
  }

  lemma NewcomersAreUnpaid(db: Db, a: Action, id: Id)
    requires id !in db.orders && id in Step(db, a).orders
    ensures Step(db, a).orders[id].state.Created?
  {
  }

  lemma {:induction false} NeverBefore(actions: seq<Action>, id: Id)
    requires id !in Run(actions).orders
    ensures !EverPaidByHand(actions, id)
  {
    if actions != [] {
      var front := actions[..|actions| - 1];
      if id in Run(front).orders {
        RunKeeps(front);
        OrdersStay(Run(front), actions[|actions| - 1], id);
      } else {
        NeverBefore(front, id);
      }
    }
  }

  lemma OrdersStay(db: Db, a: Action, id: Id)
    requires Consistent(db) && id in db.orders
    ensures id in Step(db, a).orders
  {
    StepKeeps(db, a);
  }

  lemma MoveIsNotHandPay(db: Db, moved: Id, to: OrderState, after: Db, id: Id)
    requires moved in db.orders && ApplyTransition(db, moved, to) == Ok(after)
    requires Balances(db.ledger, moved).escrow <= MAX
    ensures HandPays(db, after, id) ==> moved == id && to == OrderState.Paid
  {
    Moving(db, moved, to, after);
    if moved != id {
      assert SameAt(db, after, id);
    }
  }

  lemma AcceptIsNotHandPay(db: Db, accepted: Id, rate: real, after: Db, id: Id)
    requires accepted in db.orders && AcceptAndSettle(db, accepted, rate) == Ok(after)
    ensures !HandPays(db, after, id)
  {
    PlainMove(db, accepted, Accepted);
    assert after.orders == SetState(db, accepted, Accepted).orders;
  }

  lemma ResolveIsNotHandPay(db: Db, dispute: Id, outcome: Outcome, rate: real, after: Db, id: Id)
    requires Consistent(db) && 0.0 <= rate <= 100.0 && ResolveDispute(db, dispute, outcome, rate) == Ok(after)
    ensures !HandPays(db, after, id)
  {
    var refunded := Resolving(db, dispute, outcome, rate, after);
    if db.disputes[dispute].order != id {
      assert SameAt(db, after, id);
    }
  }

  lemma NoHandPayInReview(db: Db, a: Action, id: Id)
    requires Consistent(db) && (a.DoExpire? || a.DoReview? || a.DoOpenDispute?)
    ensures !HandPays(db, Step(db, a), id)
  {
    if Attempt(db, a).Ok? {
      var after := Step(db, a);
      EscrowInRange(db, a.id);
      match a
      case DoExpire(moved, seen) =>
        if Unpaid(seen) && db.orders[moved].state == seen {
          MoveIsNotHandPay(db.(redemptions := db.redemptions - {moved}), moved, Cancelled, after, id);
        }
      case DoReview(_, moved) =>
        if db.orders[moved].state.Accepted? {
          MoveIsNotHandPay(db.(reviews := db.reviews + {moved}), moved, Completed, after, id);
        }
      case DoOpenDispute(_, moved, dispute) =>
        MoveIsNotHandPay(db.(disputes := db.disputes[dispute := Dispute(moved, true)],
                             settlements := Frozen(db.settlements, moved)),
                         moved, Disputed, after, id);
    }
  }

  lemma NoHandPayInDelivery(db: Db, a: Action, id: Id)
    requires Consistent(db) && (a.DoDeliver? || a.DoRevise? || a.DoAccept? || a.DoAutoAccept?)
    ensures !HandPays(db, Step(db, a), id)
  {
    if Attempt(db, a).Ok? {
      var after := Step(db, a);
      EscrowInRange(db, a.id);
      match a
      case DoDeliver(_, moved) => MoveIsNotHandPay(db, moved, Delivered, after, id);
      case DoRevise(_, moved, _) => MoveIsNotHandPay(db, moved, RevisionRequested, after, id);
      case DoAccept(_, moved, setting) => AcceptIsNotHandPay(db, moved, FeeRate(setting), after, id);
      case DoAutoAccept(moved, setting) =>
        if db.orders[moved].state.Delivered? {
          AcceptIsNotHandPay(db, moved, FeeRate(setting), after, id);
        }
    }
  }

  /** Whatever the transaction, such a step is an operator's general state change of that order. */
  lemma OnlyOperatorsPayByHand(db: Db, a: Action, id: Id)
    requires Consistent(db) && HandPays(db, Step(db, a), id)
    ensures a.DoTransition? && a.who.manage && a.id == id && a.to == OrderState.Paid
  {
    var after := Step(db, a);
    if a.DoExpire? || a.DoReview? || a.DoOpenDispute? {
      NoHandPayInReview(db, a, id);
    } else if a.DoDeliver? || a.DoRevise? || a.DoAccept? || a.DoAutoAccept? {
      NoHandPayInDelivery(db, a, id);
    } else if a.DoPay? {
      PayOutcome(db, a.who, a.id, a.key, a.payment, after);
    } else if a.DoResolve? {
      ResolveIsNotHandPay(db, a.dispute, a.outcome, FeeRate(a.feeSetting), after, id);
    } else if a.DoTransition? {
      if a.to.Accepted? {
        AcceptIsNotHandPay(db, a.id, FeeRate(a.feeSetting), after, id);
      } else {
        EscrowInRange(db, a.id);
        MoveIsNotHandPay(db, a.id, a.to, after, id);
      }
    }
  }

  // ----- Settlements against the ledger

  predicate RowMatchesBooks(order: Order, s: Option<Settlement>, acc: Accounts) {
    && (s.Some? ==> s.value.gross == s.value.fee + s.value.net && 0 <= s.value.fee && 0 <= s.value.net)
    && acc.sellerPayable == (if s.Some? && (s.value.state.Scheduled? || s.value.state.Confirmed? || s.value.state.Held?)
                             then s.value.net else 0)
    && acc.platformRevenue == (if s.Some? && !s.value.state.Voided? then s.value.fee else 0)
    && acc.sellerPayout == (if s.Some? && s.value.state.PaidOut? then s.value.net else 0)
    && (order.state.Accepted? ==> Live(s) && s.value.gross == order.amount)
    && (order.state.Completed? ==> Live(s) && s.value.gross + acc.buyerRefund + acc.promotionRecovery == order.amount)
    && (Unpaid(order.state) || Working(order.state) || order.state.Cancelled? ==> s.None?)
  }

  lemma SoundMatches(order: Order, s: Option<Settlement>, b: Books)
    requires Sound(order, s, b)
    ensures RowMatchesBooks(order, s, b.acc)
  {
  }

  /** The seller's accounts are the settlement row's, in each of its states. */
  lemma SettlementAgrees(actions: seq<Action>, id: Id)
    requires id in Run(actions).orders
    ensures RowMatchesBooks(Run(actions).orders[id], SettlementOf(Run(actions), id), BooksOf(Run(actions), id).acc)
  {
    RunKeeps(actions);
    Look(Run(actions), id);
    SoundMatches(Run(actions).orders[id], SettlementOf(Run(actions), id), BooksOf(Run(actions), id));
  }

  lemma RunAppend(actions: seq<Action>, a: Action)
    ensures Run(actions + [a]) == Step(Run(actions), a)
  {
    assert (actions + [a])[..|actions|] == actions;
  }

  predicate PaidOutAt(db: Db, id: Id) {
    id in db.settlements && db.settlements[id].state.PaidOut?
  }

  lemma PaidOutBooks(db: Db, id: Id)
    requires Consistent(db) && PaidOutAt(db, id)
    ensures id in db.orders && BooksOf(db, id).acc.sellerPayout == db.settlements[id].net
  {
    Look(db, id);
  }

  lemma PaidOutStays(db: Db, a: Action, id: Id)
    requires Consistent(db) && PaidOutAt(db, id)
    ensures id in Step(db, a).settlements && Step(db, a).settlements[id] == db.settlements[id]
  {
    PaidOutBooks(db, id);
    StepKeeps(db, a);
    assert SettlementOf(Step(db, a), id) == SettlementOf(db, id);
  }

  /** Once paid out, the settlement row never changes again and the seller is never paid a second time. */
  lemma {:induction false} PaidOutOnce(actions: seq<Action>, more: seq<Action>, id: Id)
    requires PaidOutAt(Run(actions), id)
    ensures
      var before, after := Run(actions), Run(actions + more);
      && id in after.settlements && after.settlements[id] == before.settlements[id]
      && BooksOf(after, id).acc.sellerPayout == BooksOf(before, id).acc.sellerPayout == before.settlements[id].net
    decreases |more|
  {
    RunKeeps(actions);
    PaidOutBooks(Run(actions), id);
    if more == [] {
      assert actions + more == actions;
    } else {
      var front, a := more[..|more| - 1], more[|more| - 1];
      PaidOutOnce(actions, front, id);
      assert actions + more == (actions + front) + [a];
      RunAppend(actions + front, a);
      RunKeeps(actions + front);
      PaidOutStays(Run(actions + front), a, id);
      RunKeeps(actions + more);
      PaidOutBooks(Run(actions + more), id);
    }
  }

  /** A finished order stays in its final state: it never counts as live again. */
  lemma {:induction false} FinalForever(actions: seq<Action>, more: seq<Action>, id: Id)
    requires id in Run(actions).orders && Final(Run(actions).orders[id].state)
    ensures id in Run(actions + more).orders && Run(actions + more).orders[id].state == Run(actions).orders[id].state
    decreases |more|
  {
    if more == [] {
      assert actions + more == actions;
    } else {
      var front, a := more[..|more| - 1], more[|more| - 1];
      FinalForever(actions, front, id);
      assert actions + more == (actions + front) + [a];
      RunAppend(actions + front, a);
      RunKeeps(actions + front);
      StepKeeps(Run(actions + front), a);
    }
  }

  // ----- Payments

  predicate MayPay(who: Principal, order: Order) {
    who.user == order.buyer || who.manage
  }

  lemma PaidRefusesOrReplays(db: Db, id: Id, who: Principal, key: string, payment: Id)
    requires id in db.orders && !Unpaid(db.orders[id].state)
    ensures PayOrder(db, who, id, key, payment).Ok? <==> MayPay(who, db.orders[id]) && Replays(db, id, key)
    ensures PayOrder(db, who, id, key, payment).Ok? ==> PayOrder(db, who, id, key, payment).value == db
  {
  }

  lemma PaidBooksOnce(db: Db, id: Id)
    requires Consistent(db) && id in db.orders && BooksOf(db, id).paid.rows > 0
    ensures BooksOf(db, id).paid == Takings(1, db.orders[id].amount - db.orders[id].discount)
    ensures !Unpaid(db.orders[id].state)
  {
    Look(db, id);
    SoundTakings(db.orders[id], SettlementOf(db, id), BooksOf(db, id));
  }

  lemma SoundTakings(order: Order, s: Option<Settlement>, b: Books)
    requires Sound(order, s, b) && b.paid.rows > 0
    ensures b.paid == Takings(1, order.amount - order.discount) && !Unpaid(order.state)
  {
  }

  /** However often an order is paid for, with whatever keys, it holds at most one captured payment, of
      the payable amount; after that a payment succeeds only as a replay of a used key, and changes nothing. */
  lemma PaidOnce(actions: seq<Action>, id: Id, who: Principal, key: string, payment: Id)
    requires id in Run(actions).orders && BooksOf(Run(actions), id).paid.rows > 0
    ensures
      var db := Run(actions);
      && BooksOf(db, id).paid == Takings(1, db.orders[id].amount - db.orders[id].discount)
      && (PayOrder(db, who, id, key, payment).Ok? <==> MayPay(who, db.orders[id]) && Replays(db, id, key))
      && (PayOrder(db, who, id, key, payment).Ok? ==> PayOrder(db, who, id, key, payment).value == db)
  {
    RunKeeps(actions);
    PaidBooksOnce(Run(actions), id);
    PaidRefusesOrReplays(Run(actions), id, who, key, payment);
  }

  lemma {:induction false} OneRow(payments: seq<Payment>, id: Id, i: nat)
    requires i < |payments| && payments[i].order == id
    ensures PaidRows(payments, id).rows >= 1
  {
    if i < |payments| - 1 {
      OneRow(payments[..|payments| - 1], id, i);
    }
  }

  lemma {:induction false} TwoRows(payments: seq<Payment>, id: Id, i: nat, j: nat)
    requires i < j < |payments| && payments[i].order == id && payments[j].order == id
    ensures PaidRows(payments, id).rows >= 2
  {
    var front := payments[..|payments| - 1];
    if j == |payments| - 1 {
      OneRow(front, id, i);
    } else {
      TwoRows(front, id, i, j);
    }
  }

  /** An order never has two payment rows, so every replay finds the same payment. */
  lemma OnlyPayment(actions: seq<Action>, id: Id, i: nat, j: nat)
    requires i < |Run(actions).payments| && j < |Run(actions).payments|
    requires Run(actions).payments[i].order == id && Run(actions).payments[j].order == id
    ensures i == j && id in Run(actions).orders
  {
    var db := Run(actions);
    RunKeeps(actions);
    Look(db, id);
    OneRow(db.payments, id, i);
    if i < j {
      TwoRows(db.payments, id, i, j);
    } else if j < i {
      TwoRows(db.payments, id, j, i);
    }
    AtMostOneRow(db, id);
  }

  lemma AtMostOneRow(db: Db, id: Id)
    requires OkAt(db, id)
    ensures BooksOf(db, id).paid.rows <= 1 && (BooksOf(db, id).paid.rows > 0 ==> id in db.orders)
  {
  }
}
