/** Four concrete runs, step by step: what a hand-made payment leaves in escrow, how an order ends refunded with
    its seller still to be paid, how a seller is paid while the dispute is open, and how a refund of one frees a
    whole reservation. */
module Lifecycle {
  import opened Wrappers
  import opened Ledger
  import opened Pricing
  import opened Market
  import opened Refunds
  import opened Books
  import opened EscrowRuns
  import opened EscrowTheorems
  import opened DisputeTheorems
  import opened Freezes

  const BUYER := Principal(10, false, false)
  const SELLER := Principal(20, false, false)
  const OPERATOR := Principal(30, true, false)

  /** Order 1 is worth 1000 and in this state, with or without a settlement. */
  predicate At(db: Db, state: OrderState, settled: bool) {
    && 1 in db.orders && db.orders[1] == Order(10, 20, state, 1000, 0, None, 0)
    && (1 in db.settlements <==> settled)
  }

  // ----- Paid by hand

  const HAND_PAID := [DoCreate(1, 10, 20, 1000, None, None), DoTransition(BUYER, 1, PaymentPending, false, None),
                      DoTransition(OPERATOR, 1, OrderState.Paid, false, None)]

  lemma RunNext(actions: seq<Action>, a: Action, more: seq<Action>)
    requires more == actions + [a]
    ensures Run(more) == Step(Run(actions), a)
  {
    RunAppend(actions, a);
  }

  lemma Places()
    ensures At(Step(EMPTY_DB, HAND_PAID[0]), Created, false) && Step(EMPTY_DB, HAND_PAID[0]).ledger == []
  {
  }

  lemma Moves(db: Db, who: Principal, from: OrderState, to: OrderState, settled: bool)
    requires At(db, from, settled) && Allowed(from, to) && CanTransition(who, db.orders[1], to)
    requires !to.Accepted? && !to.Cancelled? && !to.Refunded? && !(from.Disputed? && to.Completed?)
    ensures At(Step(db, DoTransition(who, 1, to, false, None)), to, settled)
    ensures Step(db, DoTransition(who, 1, to, false, None)).ledger == db.ledger
  {
  }

  /** The operator's step books nothing: the order is paid, promises 1000 in escrow and holds none. */
  lemma HandPaidHoldsNothing()
    ensures
      var db := Run(HAND_PAID);
      && At(db, OrderState.Paid, false) && BooksOf(db, 1).acc.escrow == 0
         && Expected(db.orders[1], SettlementOf(db, 1)) == 1000
      && EverPaidByHand(HAND_PAID, 1)
  {
    var one, two := HAND_PAID[..1], HAND_PAID[..2];
    RunNext([], HAND_PAID[0], one);
    RunNext(one, HAND_PAID[1], two);
    RunNext(two, HAND_PAID[2], HAND_PAID);
    Places();
    Moves(Run(one), BUYER, Created, PaymentPending, false);
    Moves(Run(two), OPERATOR, PaymentPending, OrderState.Paid, false);
    assert HandPays(Run(two), Run(HAND_PAID), 1);
  }

  // ----- Refunded, and still to be paid

  const DISPUTED := [DoCreate(1, 10, 20, 1000, None, None), DoPay(BUYER, 1, "k", 5),
                     DoTransition(SELLER, 1, InProgress, false, None),
                     DoDeliver(SELLER, 1), DoAccept(BUYER, 1, None), DoOpenDispute(BUYER, 1, 7)]

  lemma PayAccepted()
    ensures Accepts(PayLines(1000, 0))
  {
    var a, b, c := DebitOf(BuyerPayment, 1000), DebitOf(PromotionExpense, 0), CreditOf(Escrow, 1000);
    TotalThree(a, b, c, Debit);
    TotalThree(a, b, c, Credit);
    assert NonNegative([a, b, c]);
  }

  lemma Pays(db: Db)
    requires At(db, Created, false) && db.payments == []
    ensures At(Step(db, DoPay(BUYER, 1, "k", 5)), Ready, false)
    ensures Step(db, DoPay(BUYER, 1, "k", 5)).disputes == db.disputes
  {
    PayAccepted();
    PlainMove(db, 1, PaymentPending);
    var pending := SetState(db, 1, PaymentPending);
    var booked := BookPayment(pending, 1, "k", 5).value;
    PlainMove(booked, 1, OrderState.Paid);
    PlainMove(SetState(booked, 1, OrderState.Paid), 1, Ready);
  }

  lemma Delivers(db: Db)
    requires At(db, InProgress, false)
    ensures At(Step(db, DoDeliver(SELLER, 1)), Delivered, false)
            && Step(db, DoDeliver(SELLER, 1)).disputes == db.disputes
  {
  }

  lemma Confirms(db: Db)
    requires At(db, Delivered, false)
    ensures SettledAs(Step(db, DoAccept(BUYER, 1, None)), 1, Scheduled)
    ensures At(Step(db, DoAccept(BUYER, 1, None)), Accepted, true)
            && Step(db, DoAccept(BUYER, 1, None)).disputes == db.disputes
  {
    SettleAccepted(1000, FeeRate(None));
    PlainMove(db, 1, Accepted);
  }

  lemma Disputes(db: Db)
    requires At(db, Accepted, true) && db.disputes == map[] && SettledAs(db, 1, Scheduled)
    ensures At(Step(db, DoOpenDispute(BUYER, 1, 7)), Disputed, true)
    ensures SettledAs(Step(db, DoOpenDispute(BUYER, 1, 7)), 1, Held)
  {
    PlainMove(db.(disputes := db.disputes[7 := Dispute(1, true)], settlements := Frozen(db.settlements, 1)), 1,
              Disputed);
  }

  lemma UpToDelivery()
    ensures At(Run(DISPUTED[..4]), Delivered, false) && Run(DISPUTED[..4]).disputes == map[]
  {
    RunNext([], DISPUTED[0], DISPUTED[..1]);
    RunNext(DISPUTED[..1], DISPUTED[1], DISPUTED[..2]);
    RunNext(DISPUTED[..2], DISPUTED[2], DISPUTED[..3]);
    RunNext(DISPUTED[..3], DISPUTED[3], DISPUTED[..4]);
    Places();
    Pays(Run(DISPUTED[..1]));
    Moves(Run(DISPUTED[..2]), SELLER, Ready, InProgress, false);
    MovesKeepDisputes(Run(DISPUTED[..2]));
    Delivers(Run(DISPUTED[..3]));
  }

  lemma MovesKeepDisputes(db: Db)
    requires At(db, Ready, false)
    ensures Step(db, DoTransition(SELLER, 1, InProgress, false, None)).disputes == db.disputes
  {
  }

  lemma UpToDispute()
    ensures At(Run(DISPUTED), Disputed, true) && SettledAs(Run(DISPUTED), 1, Held)
  {
    UpToDelivery();
    RunNext(DISPUTED[..4], DISPUTED[4], DISPUTED[..5]);
    RunNext(DISPUTED[..5], DISPUTED[5], DISPUTED);
    Confirms(Run(DISPUTED[..4]));
    Disputes(Run(DISPUTED[..5]));
  }

  /** The frozen settlement of that order, released and completed by an operator: the seller is paid while the
      dispute is open. */
  lemma PaidOutInDispute()
    ensures
      var db := Run(DISPUTED + [DoSettlement(1, ReleaseIt), DoSettlement(1, CompleteIt)]);
      InDispute(db, 1) && SettledAs(db, 1, PaidOut)
  {
    UpToDispute();
    LiftedRun(DISPUTED, 1);
  }

  lemma NothingHeld(order: Order, s: Option<Settlement>, b: Books)
    requires Sound(order, s, b) && order.state.Disputed? && s.Some?
    ensures b.acc.escrow <= 0
  {
  }

  /** After the operator's general refund the buyer has nothing back and the seller's settlement is live. */
  lemma RefundedYetPayable()
    ensures
      var db := Run(DISPUTED + [DoTransition(OPERATOR, 1, Refunded, false, None)]);
      && 1 in db.orders && db.orders[1].state.Refunded? && Live(SettlementOf(db, 1)) && BooksOf(db, 1).acc.Back() == 0
  {
    var db, a := Run(DISPUTED), DoTransition(OPERATOR, 1, Refunded, false, None);
    RunAppend(DISPUTED, a);
    UpToDispute();
    RunKeeps(DISPUTED);
    Look(db, 1);
    NothingHeld(db.orders[1], SettlementOf(db, 1), BooksOf(db, 1));
    GeneralRefundGoes(db);
    GeneralRefundKeepsSettlement(db, OPERATOR, 1, false, FeeRate(None), Step(db, a));
  }

  lemma GeneralRefundGoes(db: Db)
    requires At(db, Disputed, true) && Balances(db.ledger, 1).escrow <= 0
    ensures TransitionOrder(db, OPERATOR, 1, Refunded, false, FeeRate(None)).Ok?
  {
    EndingGoesThrough(db, 1, Refunded);
  }

  // ----- A refund too small to reach the buyer

  const HALF_OFF := CouponUse(4, Terms(Fixed, 500, 0, None))

  const HALF_PAID := [DoOpenBudget(7, 900), DoCreate(1, 10, 20, 1000, Some(HALF_OFF), Some(7)), DoPay(BUYER, 1, "k", 5),
                      DoTransition(SELLER, 1, InProgress, false, None), DoOpenDispute(BUYER, 1, 9),
                      DoResolve(9, RefundPartial(1), None)]

  /** Order 1, half paid by a coupon, holds this much of budget 7, which nobody else uses; nothing has been
      settled or refunded. */
  predicate Reserves(db: Db, state: OrderState, held: int) {
    && 1 in db.orders && db.orders[1] == Order(10, 20, state, 1000, 500, Some(7), held)
    && 7 in db.budgets && db.budgets[7] == Budget(900, held)
    && db.refunds == [] && db.settlements == map[]
  }

  lemma PlacesOnBudget()
    ensures
      var db := Step(Step(EMPTY_DB, HALF_PAID[0]), HALF_PAID[1]);
      Reserves(db, Created, 500) && db.payments == [] && db.disputes == map[]
  {
    assert ComputeDiscount(HALF_OFF.terms, 1000) == Ok(500);
  }

  lemma HalfAccepted()
    ensures Accepts(PayLines(1000, 500)) && Accepts(RefundLines(1, 0)) && BuyerShare(1, 1000, 500) == 0
  {
    var a, b, c := DebitOf(BuyerPayment, 500), DebitOf(PromotionExpense, 500), CreditOf(Escrow, 1000);
    TotalThree(a, b, c, Debit);
    TotalThree(a, b, c, Credit);
    assert NonNegative([a, b, c]);
    SplitAccepted(1, 0);
  }

  lemma PaysHalf(db: Db)
    requires Reserves(db, Created, 500) && db.payments == []
    ensures Reserves(Step(db, HALF_PAID[2]), Ready, 500) && Step(db, HALF_PAID[2]).disputes == db.disputes
  {
    HalfAccepted();
    PlainMove(db, 1, PaymentPending);
    var pending := SetState(db, 1, PaymentPending);
    var booked := BookPayment(pending, 1, "k", 5).value;
    PlainMove(booked, 1, OrderState.Paid);
    PlainMove(SetState(booked, 1, OrderState.Paid), 1, Ready);
  }

  lemma StartsAndDisputes(db: Db)
    requires Reserves(db, Ready, 500) && db.disputes == map[]
    ensures
      var after := Step(Step(db, HALF_PAID[3]), HALF_PAID[4]);
      Reserves(after, Disputed, 500) && after.disputes == map[9 := Dispute(1, true)]
  {
    PlainMove(db, 1, InProgress);
    var started := SetState(db, 1, InProgress);
    assert Step(db, HALF_PAID[3]) == started;
    PlainMove(started.(disputes := started.disputes[9 := Dispute(1, true)]), 1, Disputed);
  }

  lemma RefundsOne(db: Db)
    requires Reserves(db, Disputed, 500)
    ensures BookRefund(db, 1, 1).Ok? && Reserves(BookRefund(db, 1, 1).value, Disputed, 0)
  {
    HalfAccepted();
  }

  lemma DecidesOne(db: Db)
    requires Reserves(db, Disputed, 500) && db.disputes == map[9 := Dispute(1, true)]
    ensures
      var after := Step(db, HALF_PAID[5]);
      && 1 in after.orders && after.orders[1] == Order(10, 20, Completed, 1000, 500, Some(7), 0)
      && 7 in after.budgets && after.budgets[7] == Budget(900, 0) && after.refunds == []
  {
    var rate := FeeRate(None);
    RefundsOne(db);
    var refunded := BookRefund(db, 1, 1).value;
    assert UnwindSettlement(db, 1) == Ok(db);
    SettleAccepted(999, rate);
    var rebooked := Rebook(refunded, 1, 999, rate);
    assert Redivide(db, 1, 1, rate) == rebooked && rebooked.Ok? && rebooked.value.orders == refunded.orders;
    PlainMove(rebooked.value.(disputes := rebooked.value.disputes[9 := Dispute(1, false)]), 1, Completed);
  }

  /** A run in which a dispute gives back 1 of 1000: the buyer's half of it rounds to nothing, no refund is
      recorded, and the whole reservation of 500 is free again although the order was completed. */
  lemma TinyRefundRun()
    ensures
      var before, db := Run(HALF_PAID[..5]), Run(HALF_PAID);
      && Reserves(before, Disputed, 500)
      && 1 in db.orders && db.orders[1].state.Completed? && db.orders[1].consumed == 0
      && 7 in db.budgets && db.budgets[7] == Budget(900, 0) && db.refunds == []
  {
    RunNext([], HALF_PAID[0], HALF_PAID[..1]);
    RunNext(HALF_PAID[..1], HALF_PAID[1], HALF_PAID[..2]);
    RunNext(HALF_PAID[..2], HALF_PAID[2], HALF_PAID[..3]);
    RunNext(HALF_PAID[..3], HALF_PAID[3], HALF_PAID[..4]);
    RunNext(HALF_PAID[..4], HALF_PAID[4], HALF_PAID[..5]);
    RunNext(HALF_PAID[..5], HALF_PAID[5], HALF_PAID);
    PlacesOnBudget();
    PaysHalf(Run(HALF_PAID[..2]));
    StartsAndDisputes(Run(HALF_PAID[..3]));
    DecidesOne(Run(HALF_PAID[..5]));
  }
}
