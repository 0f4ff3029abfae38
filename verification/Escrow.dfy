/** Every transaction keeps the books in agreement, so every run does. */
module EscrowRuns {
  import opened Wrappers
  import opened Int64
  import opened Ledger
  import opened Pricing
  import opened Market
  import opened Books

  // ----- The four kinds of posting, account by account

  lemma PayMoves(acc: Accounts, amount: int, discount: int)
    ensures acc.MoveAll(PayLines(amount, discount))
         == acc.(buyerPayment := acc.buyerPayment - (amount - discount),
                 promotionExpense := acc.promotionExpense - discount,
                 escrow := acc.escrow + amount)
  {
    MoveThree(acc, DebitOf(BuyerPayment, amount - discount), DebitOf(PromotionExpense, discount),
              CreditOf(Escrow, amount));
  }

  lemma SettleMoves(acc: Accounts, gross: int, fee: int)
    ensures acc.MoveAll(SettleLines(gross, fee))
         == acc.(escrow := acc.escrow - gross, platformRevenue := acc.platformRevenue + fee,
                 sellerPayable := acc.sellerPayable + gross - fee)
  {
    MoveThree(acc, DebitOf(Escrow, gross), CreditOf(PlatformRevenue, fee), CreditOf(SellerPayable, gross - fee));
  }

  lemma UnwindMoves(acc: Accounts, s: Settlement)
    ensures acc.MoveAll([DebitOf(PlatformRevenue, s.fee), DebitOf(SellerPayable, s.net), CreditOf(Escrow, s.gross)])
         == acc.(platformRevenue := acc.platformRevenue - s.fee, sellerPayable := acc.sellerPayable - s.net,
                 escrow := acc.escrow + s.gross)
  {
    MoveThree(acc, DebitOf(PlatformRevenue, s.fee), DebitOf(SellerPayable, s.net), CreditOf(Escrow, s.gross));
  }

  lemma PayoutMoves(acc: Accounts, net: int)
    ensures acc.MoveAll([DebitOf(SellerPayable, net), CreditOf(SellerPayout, net)])
         == acc.(sellerPayable := acc.sellerPayable - net, sellerPayout := acc.sellerPayout + net)
  {
    MoveTwo(acc, DebitOf(SellerPayable, net), CreditOf(SellerPayout, net));
  }

  // ----- The invariant on values: what each transaction may make of one order

  lemma SoundNew(order: Order)
    requires Sane(order) && order.state.Created?
    ensures Sound(order, None, NO_BOOKS)
  {
  }

  function PaidBooks(order: Order, b: Books): Books {
    b.(paid := Takings(b.paid.rows + 1, b.paid.total + order.amount - order.discount),
       acc := b.acc.(buyerPayment := b.acc.buyerPayment - (order.amount - order.discount),
                     promotionExpense := b.acc.promotionExpense - order.discount,
                     escrow := b.acc.escrow + order.amount))
  }

  lemma SoundPay(order: Order, s: Option<Settlement>, b: Books)
    requires Sound(order, s, b) && Unpaid(order.state)
    ensures Sound(order.(state := Ready), s, PaidBooks(order, b))
  {
  }

  function SettledBooks(b: Books, gross: int, fee: int): Books {
    b.(acc := b.acc.(escrow := b.acc.escrow - gross, platformRevenue := b.acc.platformRevenue + fee,
                     sellerPayable := b.acc.sellerPayable + gross - fee))
  }

  lemma SoundAccept(order: Order, s: Option<Settlement>, b: Books, rate: real)
    requires Sound(order, s, b) && order.state.Delivered? && 0.0 <= rate <= 100.0
    ensures
      var fee := Fee(order.amount, rate);
      Sound(order.(state := Accepted), Some(Settlement(order.amount, fee, order.amount - fee, Scheduled)),
            SettledBooks(b, order.amount, fee))
  {
    FeeWithinAmount(order.amount, rate);
  }

  /** A settlement row may move between its live states freely. */
  lemma SoundRow(order: Order, s: Settlement, b: Books, state: SettlementState)
    requires Sound(order, Some(s), b) && !s.state.Voided? && !s.state.PaidOut? && !state.Voided? && !state.PaidOut?
    ensures Sound(order, Some(s.(state := state)), b)
  {
  }

  lemma SoundPayout(order: Order, s: Settlement, b: Books)
    requires Sound(order, Some(s), b) && !s.state.Voided? && !s.state.PaidOut?
    ensures
      var acc := b.acc.(sellerPayable := b.acc.sellerPayable - s.net, sellerPayout := b.acc.sellerPayout + s.net);
      Sound(order, Some(s.(state := PaidOut)), b.(acc := acc))
  {
  }

  // ----- Transaction by transaction

  lemma CreateKeeps(db: Db, id: Id, buyer: Id, seller: Id, price: int, coupon: Option<CouponUse>, budget: Option<Id>,
                    after: Db)
    requires Consistent(db) && CreateOrder(db, id, buyer, seller, price, coupon, budget) == Ok(after)
    ensures Consistent(after) && Evolves(db, after)
  {
    var order := after.orders[id];
    assert id !in db.orders && Sane(order) && order.state.Created?;
    assert after == db.(orders := db.orders[id := order], budgets := after.budgets, redemptions := after.redemptions);
    CreatedKeeps(db, id, order, after.budgets, after.redemptions);
  }

  lemma Inserting(db: Db, id: Id, order: Order, budgets: map<Id, Budget>, redemptions: map<Id, Redemption>)
    requires OkAt(db, id) && id !in db.orders
    ensures Became(db, db.(orders := db.orders[id := order], budgets := budgets, redemptions := redemptions), id,
                   order, None, NO_BOOKS)
  {
  }

  lemma CreatedKeeps(db: Db, id: Id, order: Order, budgets: map<Id, Budget>, redemptions: map<Id, Redemption>)
    requires Consistent(db) && id !in db.orders && Sane(order) && order.state.Created?
    ensures
      var after := db.(orders := db.orders[id := order], budgets := budgets, redemptions := redemptions);
      Consistent(after) && Evolves(db, after)
  {
    Look(db, id);
    SoundNew(order);
    Inserting(db, id, order, budgets, redemptions);
    var after := db.(orders := db.orders[id := order], budgets := budgets, redemptions := redemptions);
    Keeps(db, after, id, order, None, NO_BOOKS);
    OneEvolves(db, after, id);
  }

  predicate Routine(from: OrderState, to: OrderState) {
    Allowed(from, to) && !to.Accepted? && !(from.Disputed? && to.Completed?)
  }

  lemma SoundMove(order: Order, s: Option<Settlement>, b: Books, moved: Order, after: Books)
    requires Sound(order, s, b) && Routine(order.state, moved.state)
    requires moved == order.(state := moved.state, consumed := moved.consumed)
    requires
      var held := Greatest(0, b.acc.escrow);
      if moved.state.Cancelled? || moved.state.Refunded? then Returned(b, after, held, ShareOf(order, held))
      else after == b
    ensures Sound(moved, s, after)
  {
  }

  lemma EscrowInRange(db: Db, id: Id)
    requires Consistent(db) && id in db.orders
    ensures Balances(db.ledger, id).escrow <= MAX
  {
    Look(db, id);
  }

  lemma MoveKeeps(db: Db, id: Id, to: OrderState, after: Db)
    requires Consistent(db) && id in db.orders && ApplyTransition(db, id, to) == Ok(after)
    requires Routine(db.orders[id].state, to)
    ensures Consistent(after) && Evolves(db, after)
  {
    EscrowInRange(db, id);
    Moving(db, id, to, after);
    MovedKeeps(db, id, to, after);
  }

  lemma MovedKeeps(db: Db, id: Id, to: OrderState, after: Db)
    requires Consistent(db) && MovedTo(db, after, id, to) && Routine(db.orders[id].state, to)
    ensures Consistent(after) && Evolves(db, after)
  {
    Look(db, id);
    SoundMove(db.orders[id], SettlementOf(db, id), BooksOf(db, id), after.orders[id], BooksOf(after, id));
    Advances(db, after, id, after.orders[id], SettlementOf(db, id), BooksOf(after, id));
  }

  /** What a fresh payment makes of the tables, in one piece. */
  function PaidDb(db: Db, id: Id, key: string, payment: Id): Db
    requires id in db.orders
  {
    SetState(BookedDb(db, id, key, payment), id, Ready)
  }

  function BookedDb(db: Db, id: Id, key: string, payment: Id): Db
    requires id in db.orders
  {
    var order := db.orders[id];
    db.(payments := db.payments + [Payment(payment, id, key, order.amount - order.discount)],
        ledger := db.ledger + Posted(id, PayLines(order.amount, order.discount)))
  }

  lemma PlainMove(db: Db, id: Id, to: OrderState)
    requires id in db.orders && !to.Cancelled? && !to.Refunded?
    ensures ApplyTransition(db, id, to) == Ok(SetState(db, id, to))
  {
  }

  lemma CaptureOutcome(db: Db, id: Id, key: string, payment: Id, after: Db)
    requires id in db.orders && CapturePayment(db, id, key, payment) == Ok(after)
    ensures after == PaidDb(db, id, key, payment)
  {
    var booked := BookedDb(db, id, key, payment);
    PlainMove(booked, id, OrderState.Paid);
    PlainMove(SetState(booked, id, OrderState.Paid), id, Ready);
    assert after == SetState(SetState(booked, id, OrderState.Paid), id, Ready);
    assert after.orders == db.orders[id := db.orders[id].(state := Ready)];
  }

  lemma PendingFirst(db: Db, id: Id, key: string, payment: Id)
    requires id in db.orders
    ensures PaidDb(SetState(db, id, PaymentPending), id, key, payment) == PaidDb(db, id, key, payment)
  {
    var order := db.orders[id];
    assert db.orders[id := order.(state := PaymentPending)][id := order.(state := Ready)]
             == db.orders[id := order.(state := Ready)];
  }

  /** A fresh payment is one capture, one posting and a ready order, whichever of the two unpaid
      states it starts from; a replayed key changes nothing. */
  lemma PayOutcome(db: Db, who: Principal, id: Id, key: string, payment: Id, after: Db)
    requires PayOrder(db, who, id, key, payment) == Ok(after)
    ensures id in db.orders
    ensures if Replays(db, id, key) then after == db
            else Unpaid(db.orders[id].state) && after == PaidDb(db, id, key, payment)
  {
    if !Replays(db, id, key) {
      if db.orders[id].state.Created? {
        PlainMove(db, id, PaymentPending);
        CaptureOutcome(SetState(db, id, PaymentPending), id, key, payment, after);
        PendingFirst(db, id, key, payment);
      } else {
        CaptureOutcome(db, id, key, payment, after);
      }
    }
  }

  lemma PayKeeps(db: Db, who: Principal, id: Id, key: string, payment: Id, after: Db)
    requires Consistent(db) && PayOrder(db, who, id, key, payment) == Ok(after)
    ensures Consistent(after) && Evolves(db, after)
  {
    PayOutcome(db, who, id, key, payment, after);
    if !Replays(db, id, key) {
      PaidKeeps(db, id, key, payment);
    }
  }

  ghost predicate Booked(db: Db, after: Db, id: Id) {
    && id in db.orders
    && Became(db, after, id, db.orders[id], SettlementOf(db, id), PaidBooks(db.orders[id], BooksOf(db, id)))
  }

  lemma PostingPayment(db: Db, id: Id, order: Order, s: Option<Settlement>, b: Books, after: Db)
    requires id in db.orders && order == db.orders[id] && s == SettlementOf(db, id) && b == BooksOf(db, id)
    requires after == db.(ledger := db.ledger + Posted(id, PayLines(order.amount, order.discount)))
    ensures Became(db, after, id, order, s,
                   b.(acc := b.acc.(buyerPayment := b.acc.buyerPayment - (order.amount - order.discount),
                                    promotionExpense := b.acc.promotionExpense - order.discount,
                                    escrow := b.acc.escrow + order.amount)))
  {
    Posting(db, id, PayLines(order.amount, order.discount));
    PayMoves(b.acc, order.amount, order.discount);
  }

  lemma BookingPosts(db: Db, captured: Db, after: Db, id: Id, order: Order, s: Option<Settlement>, b: Books, b1: Books)
    requires id in db.orders && Became(db, captured, id, order, s, b1)
    requires b1 == b.(paid := Takings(b.paid.rows + 1, b.paid.total + order.amount - order.discount))
    requires after == captured.(ledger := captured.ledger + Posted(id, PayLines(order.amount, order.discount)))
    ensures Became(db, after, id, order, s, PaidBooks(order, b))
  {
    PostingPayment(captured, id, order, s, b1, after);
    Then(db, captured, after, id, order, s, PaidBooks(order, b));
  }

  lemma Booking(db: Db, id: Id, key: string, payment: Id)
    requires id in db.orders
    ensures Booked(db, BookedDb(db, id, key, payment), id)
  {
    var order, b := db.orders[id], BooksOf(db, id);
    var p := Payment(payment, id, key, order.amount - order.discount);
    Capturing(db, p);
    BookingPosts(db, db.(payments := db.payments + [p]), BookedDb(db, id, key, payment), id, order,
                 SettlementOf(db, id),
                 b, b.(paid := Takings(b.paid.rows + 1, b.paid.total + p.amount)));
  }

  lemma PaidKeeps(db: Db, id: Id, key: string, payment: Id)
    requires Consistent(db) && id in db.orders && Unpaid(db.orders[id].state)
    ensures Consistent(PaidDb(db, id, key, payment)) && Evolves(db, PaidDb(db, id, key, payment))
  {
    var order, s, b := db.orders[id], SettlementOf(db, id), BooksOf(db, id);
    Look(db, id);
    SoundPay(order, s, b);
    Booking(db, id, key, payment);
    var booked := BookedDb(db, id, key, payment);
    SettingState(booked, id, Ready);
    Then(db, booked, PaidDb(db, id, key, payment), id, order.(state := Ready), s, PaidBooks(order, b));
    Advances(db, PaidDb(db, id, key, payment), id, order.(state := Ready), s, PaidBooks(order, b));
  }

  function SettledDb(db: Db, id: Id, gross: int, fee: int): Db {
    db.(settlements := db.settlements[id := Settlement(gross, fee, gross - fee, Scheduled)],
        ledger := db.ledger + Posted(id, SettleLines(gross, fee)))
  }

  lemma Settling(db: Db, id: Id, gross: int, fee: int)
    requires id in db.orders
    ensures Became(db, SettledDb(db, id, gross, fee), id, db.orders[id],
                   Some(Settlement(gross, fee, gross - fee, Scheduled)), SettledBooks(BooksOf(db, id), gross, fee))
  {
    var s, b := Settlement(gross, fee, gross - fee, Scheduled), BooksOf(db, id);
    var row := db.(settlements := db.settlements[id := s]);
    SettlingRow(db, id, s);
    assert BooksOf(row, id) == b;
    Posting(row, id, SettleLines(gross, fee));
    SettleMoves(b.acc, gross, fee);
    Then(db, row, SettledDb(db, id, gross, fee), id, db.orders[id], Some(s), SettledBooks(b, gross, fee));
  }

  lemma AcceptKeeps(db: Db, id: Id, rate: real, after: Db)
    requires Consistent(db) && id in db.orders && db.orders[id].state.Delivered? && 0.0 <= rate <= 100.0
    requires AcceptAndSettle(db, id, rate) == Ok(after)
    ensures Consistent(after) && Evolves(db, after)
  {
    assert after == SettledDb(SetState(db, id, Accepted), id, db.orders[id].amount, Fee(db.orders[id].amount, rate));
    AcceptedKeeps(db, id, rate);
  }

  lemma AcceptedKeeps(db: Db, id: Id, rate: real)
    requires Consistent(db) && id in db.orders && db.orders[id].state.Delivered? && 0.0 <= rate <= 100.0
    ensures
      var after := SettledDb(SetState(db, id, Accepted), id, db.orders[id].amount, Fee(db.orders[id].amount, rate));
      Consistent(after) && Evolves(db, after)
  {
    var order, b := db.orders[id], BooksOf(db, id);
    var fee := Fee(order.amount, rate);
    Look(db, id);
    SoundAccept(order, SettlementOf(db, id), b, rate);
    var moved := SetState(db, id, Accepted);
    SettingState(db, id, Accepted);
    Settling(moved, id, order.amount, fee);
    var s := Some(Settlement(order.amount, fee, order.amount - fee, Scheduled));
    var after := SettledDb(moved, id, order.amount, fee);
    assert Became(moved, after, id, order.(state := Accepted), s, SettledBooks(b, order.amount, fee));
    Then(db, moved, after, id, order.(state := Accepted), s, SettledBooks(b, order.amount, fee));
    Advances(db, after, id, order.(state := Accepted), s, SettledBooks(b, order.amount, fee));
  }

  lemma RowKeeps(db: Db, id: Id, state: SettlementState)
    requires Consistent(db) && id in db.settlements
    requires !db.settlements[id].state.Voided? && !db.settlements[id].state.PaidOut? && !state.Voided?
             && !state.PaidOut?
    ensures
      var after := db.(settlements := db.settlements[id := db.settlements[id].(state := state)]);
      id in db.orders && Consistent(after) && Evolves(db, after)
  {
    Look(db, id);
    var s := db.settlements[id];
    SoundRow(db.orders[id], s, BooksOf(db, id), state);
    SettlingRow(db, id, s.(state := state));
    Advances(db, db.(settlements := db.settlements[id := s.(state := state)]), id, db.orders[id],
             Some(s.(state := state)), BooksOf(db, id));
  }

  /** The invariant does not look at disputes, budgets, redemptions or reviews. */
  lemma OtherTables(db: Db, after: Db)
    requires Consistent(db)
    requires after
               == db.(disputes := after.disputes, budgets := after.budgets, redemptions := after.redemptions,
                      reviews := after.reviews)
    ensures Consistent(after) && Evolves(db, after) && OnlyRows(db, after)
  {
    forall id: Id ensures OkAt(after, id) {
      assert OkAt(db, id) && SameAt(db, after, id);
    }
  }

  lemma OpenDisputeKeeps(db: Db, who: Principal, id: Id, dispute: Id, after: Db)
    requires Consistent(db) && OpenDispute(db, who, id, dispute) == Ok(after)
    ensures Consistent(after) && Evolves(db, after)
  {
    var frozen := db.(settlements := Frozen(db.settlements, id));
    if frozen != db {
      RowKeeps(db, id, Held);
    }
    var disputes := db.disputes[dispute := Dispute(id, true)];
    OtherTables(frozen, frozen.(disputes := disputes));
    EvolvesAfterRows(db, frozen, frozen.(disputes := disputes));
    MoveKeeps(frozen.(disputes := disputes), id, Disputed, after);
    EvolvesAfterRows(db, frozen.(disputes := disputes), after);
  }

  lemma PayoutKeeps(db: Db, id: Id)
    requires Consistent(db) && id in db.settlements
    requires !db.settlements[id].state.Voided? && !db.settlements[id].state.PaidOut?
    ensures
      var s := db.settlements[id];
      Consistent(db.(settlements := db.settlements[id := s.(state := PaidOut)],
                     ledger := db.ledger + Posted(id, [DebitOf(SellerPayable, s.net), CreditOf(SellerPayout, s.net)])))
  {
    Look(db, id);
    var s, b := db.settlements[id], BooksOf(db, id);
    SoundPayout(db.orders[id], s, b);
    var row := db.(settlements := db.settlements[id := s.(state := PaidOut)]);
    SettlingRow(db, id, s.(state := PaidOut));
    assert BooksOf(row, id) == b;
    var lines := [DebitOf(SellerPayable, s.net), CreditOf(SellerPayout, s.net)];
    Posting(row, id, lines);
    PayoutMoves(b.acc, s.net);
    var after := row.(ledger := row.ledger + Posted(id, lines));
    var b' := b.(acc := b.acc.MoveAll(lines));
    Then(db, row, after, id, db.orders[id], Some(s.(state := PaidOut)), b');
    Advances(db, after, id, db.orders[id], Some(s.(state := PaidOut)), b');
  }

  lemma SettlementActionKeeps(db: Db, id: Id, act: SettlementAct, after: Db)
    requires Consistent(db) && SettlementAction(db, id, act) == Ok(after)
    ensures Consistent(after) && Evolves(db, after)
  {
    match act
    case HoldIt => RowKeeps(db, id, Held);
    case ReleaseIt => RowKeeps(db, id, Scheduled);
    case CompleteIt => PayoutKeeps(db, id);
  }

  lemma DecisionKeeps(db: Db, id: Id, hold: bool)
    requires Consistent(db)
    ensures Consistent(ApplySettlementDecision(db, id, hold)) && Evolves(db, ApplySettlementDecision(db, id, hold))
  {
    if id in db.settlements && db.settlements[id].state.Scheduled? {
      RowKeeps(db, id, if hold then Held else Confirmed);
    }
  }

  // ----- Dispute resolution

  /** The order's settlement and books once what a purchase confirmation booked is reversed. */
  function UnwoundRow(s: Option<Settlement>): Option<Settlement> {
    if Live(s) then Some(s.value.(state := Voided)) else s
  }

  function UnwoundBooks(s: Option<Settlement>, b: Books): Books {
    if Live(s) then
      b.(acc := b.acc.(platformRevenue := b.acc.platformRevenue - s.value.fee,
                       sellerPayable := b.acc.sellerPayable - s.value.net, escrow := b.acc.escrow + s.value.gross))
    else b
  }

  ghost predicate Unwound(db: Db, after: Db, id: Id) {
    && id in db.orders && id in after.orders
    && Became(db, after, id, db.orders[id], UnwoundRow(SettlementOf(db, id)),
              UnwoundBooks(SettlementOf(db, id), BooksOf(db, id)))
  }

  lemma Unwinding(db: Db, id: Id, after: Db)
    requires id in db.orders && UnwindSettlement(db, id) == Ok(after)
    ensures Unwound(db, after, id)
    ensures after.orders == db.orders && after.disputes == db.disputes
    ensures !(Live(SettlementOf(db, id)) && db.settlements[id].state.PaidOut?)
  {
    if id in db.settlements && !db.settlements[id].state.Voided? {
      var s, b := db.settlements[id], BooksOf(db, id);
      var row := db.(settlements := db.settlements[id := s.(state := Voided)]);
      SettlingRow(db, id, s.(state := Voided));
      var lines := [DebitOf(PlatformRevenue, s.fee), DebitOf(SellerPayable, s.net), CreditOf(Escrow, s.gross)];
      Posting(row, id, lines);
      UnwindMoves(b.acc, s);
      Then(db, row, after, id, db.orders[id], Some(s.(state := Voided)), UnwoundBooks(Some(s), b));
    }
  }

  function RebookedRow(s: Option<Settlement>, remaining: int, rate: real): Option<Settlement> {
    if remaining > 0 then
      Some(Settlement(remaining, Fee(remaining, rate), remaining - Fee(remaining, rate), Scheduled))
    else s
  }

  function RebookedBooks(b: Books, remaining: int, rate: real): Books {
    if remaining > 0 then SettledBooks(b, remaining, Fee(remaining, rate)) else b
  }

  ghost predicate Rebooked(db: Db, after: Db, id: Id, remaining: int, rate: real) {
    && id in db.orders
    && Became(db, after, id, db.orders[id], RebookedRow(SettlementOf(db, id), remaining, rate),
              RebookedBooks(BooksOf(db, id), remaining, rate))
  }

  lemma Rebooking(db: Db, id: Id, remaining: int, rate: real, after: Db)
    requires id in db.orders && Rebook(db, id, remaining, rate) == Ok(after)
    ensures Rebooked(db, after, id, remaining, rate)
    ensures after.orders == db.orders && after.disputes == db.disputes
  {
    if remaining > 0 {
      Settling(db, id, remaining, Fee(remaining, rate));
      assert after == SettledDb(db, id, remaining, Fee(remaining, rate));
    }
  }

  predicate Decided(order: Order, refund: int, state: OrderState) {
    state == if refund == order.amount then Refunded else Completed
  }

  /** `refunded` is what the books say once the refund has left escrow. */
  lemma SoundResolve(order: Order, s: Option<Settlement>, b: Books, refund: int, refunded: Books, rate: real,
                     decided: Order)
    requires Sound(order, s, b) && order.state.Disputed? && 0.0 <= rate <= 100.0
    requires !(Live(s) && s.value.state.PaidOut?)
    requires 0 <= refund <= order.amount
    requires Returned(UnwoundBooks(s, b), refunded, refund, ShareOf(order, refund))
    requires decided == order.(state := decided.state, consumed := decided.consumed)
             && Decided(order, refund, decided.state)
    ensures Sound(decided, RebookedRow(UnwoundRow(s), order.amount - refund, rate),
                  RebookedBooks(refunded, order.amount - refund, rate))
    ensures RebookedBooks(refunded, order.amount - refund, rate).acc.escrow <= 0
  {
    if order.amount > refund {
      FeeWithinAmount(order.amount - refund, rate);
    }
  }

  /** The transaction's money part: unwind, refund, rebook. */
  ghost predicate Redistributed(db: Db, after: Db, id: Id, refund: int, rate: real, refunded: Books) {
    && id in db.orders && id in after.orders && OnlyReserve(db.orders[id], after.orders[id])
    && Returned(UnwoundBooks(SettlementOf(db, id), BooksOf(db, id)), refunded, refund, ShareOf(db.orders[id], refund))
    && Became(db, after, id, after.orders[id],
              RebookedRow(UnwoundRow(SettlementOf(db, id)), db.orders[id].amount - refund, rate),
              RebookedBooks(refunded, db.orders[id].amount - refund, rate))
  }

  lemma Redistributing(db: Db, id: Id, refund: int, rate: real, unwound: Db, refunded: Db, rebooked: Db)
    requires id in db.orders && id in unwound.orders && id in refunded.orders
    requires Unwound(db, unwound, id) && GaveBack(unwound, refunded, id, refund)
    requires Rebooked(refunded, rebooked, id, db.orders[id].amount - refund, rate)
    ensures Redistributed(db, rebooked, id, refund, rate, BooksOf(refunded, id))
  {
    var s, b := SettlementOf(db, id), BooksOf(db, id);
    var remaining := db.orders[id].amount - refund;
    UnwoundThenRefunded(db, unwound, refunded, id, refund, UnwoundRow(s), UnwoundBooks(s, b));
    Then(db, refunded, rebooked, id, refunded.orders[id], RebookedRow(UnwoundRow(s), remaining, rate),
         RebookedBooks(BooksOf(refunded, id), remaining, rate));
  }

  lemma RedistributingSteps(db: Db, id: Id, refund: int, rate: real, unwound: Db, refunded: Db, rebooked: Db)
    requires id in db.orders && id in unwound.orders && id in refunded.orders && 0 <= refund <= MAX
    requires Unwound(db, unwound, id) && BookRefund(unwound, id, refund) == Ok(refunded)
    requires Rebooked(refunded, rebooked, id, db.orders[id].amount - refund, rate)
    ensures Redistributed(db, rebooked, id, refund, rate, BooksOf(refunded, id))
  {
    assert GaveBack(unwound, refunded, id, refund) by {
      Refunding(unwound, id, refund, refunded);
    }
    Redistributing(db, id, refund, rate, unwound, refunded, rebooked);
  }

  lemma UnwoundThenRefunded(db: Db, unwound: Db, refunded: Db, id: Id, refund: int, s: Option<Settlement>, b: Books)
    requires id in db.orders && Became(db, unwound, id, db.orders[id], s, b) && GaveBack(unwound, refunded, id, refund)
    ensures Became(db, refunded, id, refunded.orders[id], s, BooksOf(refunded, id))
    ensures OnlyReserve(db.orders[id], refunded.orders[id])
            && Returned(b, BooksOf(refunded, id), refund, ShareOf(db.orders[id], refund))
  {
    ElsewhereTransitive(db, unwound, refunded, id);
  }

  lemma RedivideSteps(db: Db, id: Id, refund: int, rate: real, rebooked: Db) returns (unwound: Db, refunded: Db)
    requires id in db.orders && Redivide(db, id, refund, rate) == Ok(rebooked)
    ensures UnwindSettlement(db, id) == Ok(unwound) && id in unwound.orders
            && BookRefund(unwound, id, refund) == Ok(refunded)
    ensures Rebook(refunded, id, db.orders[id].amount - refund, rate) == Ok(rebooked) && id in rebooked.orders
  {
    unwound := UnwindSettlement(db, id).value;
    refunded := BookRefund(unwound, id, refund).value;
  }

  /** What lets a resolution reach the money at all. */
  predicate Decidable(db: Db, dispute: Id, outcome: Outcome) {
    && dispute in db.disputes && db.disputes[dispute].open && db.disputes[dispute].order in db.orders
    && var order := db.orders[db.disputes[dispute].order];
    && order.state.Disputed? && (outcome.RefundPartial? ==> 0 < outcome.refund < order.amount)
  }

  lemma ResolveOpens(db: Db, dispute: Id, outcome: Outcome, rate: real, after: Db)
    requires ResolveDispute(db, dispute, outcome, rate) == Ok(after)
    ensures Decidable(db, dispute, outcome)
    ensures
      var id := db.disputes[dispute].order;
      Redistribute(db, dispute, id, RefundOf(outcome, db.orders[id].amount), rate) == Ok(after)
  {
  }

  /** The state change that closes the dispute once the money is divided. */
  predicate Closes(db: Db, dispute: Id, id: Id, refund: int, rebooked: Db, after: Db)
    requires id in db.orders && id in rebooked.orders
  {
    ApplyTransition(rebooked.(disputes := rebooked.disputes[dispute := Dispute(id, false)]), id,
                    if refund == db.orders[id].amount then Refunded else Completed) == Ok(after)
  }

  lemma RedistributeSteps(db: Db, dispute: Id, id: Id, refund: int, rate: real, after: Db) returns (rebooked: Db)
    requires id in db.orders && Redistribute(db, dispute, id, refund, rate) == Ok(after)
    ensures Redivide(db, id, refund, rate) == Ok(rebooked) && id in rebooked.orders
    ensures Closes(db, dispute, id, refund, rebooked, after)
  {
    rebooked := Redivide(db, id, refund, rate).value;
  }

  /** The three steps of a successful resolution, and the state change that closes it. */
  lemma ResolveSteps(db: Db, dispute: Id, outcome: Outcome, rate: real, after: Db)
      returns (unwound: Db, refunded: Db, rebooked: Db)
    requires ResolveDispute(db, dispute, outcome, rate) == Ok(after)
    ensures Decidable(db, dispute, outcome)
    ensures
      var id := db.disputes[dispute].order;
      var refund := RefundOf(outcome, db.orders[id].amount);
      && UnwindSettlement(db, id) == Ok(unwound) && id in unwound.orders
      && BookRefund(unwound, id, refund) == Ok(refunded)
      && Rebook(refunded, id, db.orders[id].amount - refund, rate) == Ok(rebooked) && id in rebooked.orders
      && Closes(db, dispute, id, refund, rebooked, after)
  {
    ResolveOpens(db, dispute, outcome, rate, after);
    var id := db.disputes[dispute].order;
    var refund := RefundOf(outcome, db.orders[id].amount);
    rebooked := RedistributeSteps(db, dispute, id, refund, rate, after);
    unwound, refunded := RedivideSteps(db, id, refund, rate, rebooked);
  }

  lemma ClosingDispute(db: Db, dispute: Id, id: Id)
    requires id in db.orders
    ensures Became(db, db.(disputes := db.disputes[dispute := Dispute(id, false)]), id, db.orders[id],
                   SettlementOf(db, id), BooksOf(db, id))
  {
  }

  /** After a resolution the order is final, with the books the refund and the rebooking leave. */
  ghost predicate Resolved(db: Db, after: Db, id: Id, refund: int, rate: real, refunded: Books) {
    && id in db.orders && id in after.orders
    && var order, s, b := db.orders[id], SettlementOf(db, id), BooksOf(db, id);
    && 0 <= refund <= order.amount && order.state.Disputed? && !(Live(s) && s.value.state.PaidOut?)
    && Returned(UnwoundBooks(s, b), refunded, refund, ShareOf(order, refund))
    && after.orders[id] == order.(state := after.orders[id].state, consumed := after.orders[id].consumed)
    && Decided(order, refund, after.orders[id].state)
    && Became(db, after, id, after.orders[id], RebookedRow(UnwoundRow(s), order.amount - refund, rate),
              RebookedBooks(refunded, order.amount - refund, rate))
  }

  /** The money of a resolution: what it leaves on the order, and nothing in escrow. */
  lemma ResolvingMoney(db: Db, id: Id, refund: int, rate: real, unwound: Db, refunded: Db, rebooked: Db)
    requires Consistent(db) && 0.0 <= rate <= 100.0
    requires id in db.orders && db.orders[id].state.Disputed? && 0 <= refund <= db.orders[id].amount
    requires UnwindSettlement(db, id) == Ok(unwound) && id in unwound.orders
             && BookRefund(unwound, id, refund) == Ok(refunded)
    requires Rebook(refunded, id, db.orders[id].amount - refund, rate) == Ok(rebooked)
    ensures Redistributed(db, rebooked, id, refund, rate, BooksOf(refunded, id))
    ensures !(Live(SettlementOf(db, id)) && db.settlements[id].state.PaidOut?)
    ensures BooksOf(rebooked, id).acc.escrow <= 0
  {
    SaneOrder(db, id);
    Unwinding(db, id, unwound);
    Rebooking(refunded, id, db.orders[id].amount - refund, rate, rebooked);
    RedistributingSteps(db, id, refund, rate, unwound, refunded, rebooked);
    RedistributedEscrow(db, rebooked, id, refund, rate, BooksOf(refunded, id));
  }

  lemma SaneOrder(db: Db, id: Id)
    requires Consistent(db) && id in db.orders
    ensures Sane(db.orders[id])
  {
    Look(db, id);
  }

  lemma ClosingMoves(db: Db, dispute: Id, id: Id, refund: int, rebooked: Db, after: Db)
    requires id in db.orders && id in rebooked.orders && Elsewhere(db, rebooked, id)
    requires BooksOf(rebooked, id).acc.escrow <= 0 && Closes(db, dispute, id, refund, rebooked, after)
    ensures id in after.orders
            && Became(db, after, id, after.orders[id], SettlementOf(rebooked, id), BooksOf(rebooked, id))
    ensures after.orders[id]
              == rebooked.orders[id].(state := after.orders[id].state, consumed := after.orders[id].consumed)
    ensures Decided(db.orders[id], refund, after.orders[id].state)
  {
    var closed := rebooked.(disputes := rebooked.disputes[dispute := Dispute(id, false)]);
    var to := if refund == db.orders[id].amount then Refunded else Completed;
    ClosingDispute(rebooked, dispute, id);
    Moving(closed, id, to, after);
    ClosedThenMoved(db, rebooked, closed, after, id, to);
  }

  lemma ResolvingEnd(db: Db, dispute: Id, id: Id, refund: int, rate: real, rebooked: Db, after: Db, refunded: Books)
    requires id in db.orders && db.orders[id].state.Disputed? && 0 <= refund <= db.orders[id].amount
    requires !(Live(SettlementOf(db, id)) && db.settlements[id].state.PaidOut?)
    requires Redistributed(db, rebooked, id, refund, rate, refunded) && BooksOf(rebooked, id).acc.escrow <= 0
    requires Closes(db, dispute, id, refund, rebooked, after)
    ensures Resolved(db, after, id, refund, rate, refunded)
  {
    ClosingMoves(db, dispute, id, refund, rebooked, after);
    ResolvedParts(db, rebooked, after, id, refund, rate, refunded);
  }

  lemma Resolving(db: Db, dispute: Id, outcome: Outcome, rate: real, after: Db) returns (refunded: Books)
    requires Consistent(db) && 0.0 <= rate <= 100.0 && ResolveDispute(db, dispute, outcome, rate) == Ok(after)
    ensures dispute in db.disputes && db.disputes[dispute].order in db.orders
    ensures
      var id := db.disputes[dispute].order;
      Resolved(db, after, id, RefundOf(outcome, db.orders[id].amount), rate, refunded)
  {
    ResolveOpens(db, dispute, outcome, rate, after);
    var id := db.disputes[dispute].order;
    SaneOrder(db, id);
    refunded := ResolvingParts(db, dispute, id, RefundOf(outcome, db.orders[id].amount), rate, after);
  }

  lemma ResolvingParts(db: Db, dispute: Id, id: Id, refund: int, rate: real, after: Db) returns (refunded: Books)
    requires Consistent(db) && 0.0 <= rate <= 100.0
    requires id in db.orders && db.orders[id].state.Disputed? && 0 <= refund <= db.orders[id].amount
    requires Redistribute(db, dispute, id, refund, rate) == Ok(after)
    ensures Resolved(db, after, id, refund, rate, refunded)
  {
    var rebooked := RedistributeSteps(db, dispute, id, refund, rate, after);
    var unwound, refundedDb := RedivideSteps(db, id, refund, rate, rebooked);
    refunded := BooksOf(refundedDb, id);
    ResolvingMoney(db, id, refund, rate, unwound, refundedDb, rebooked);
    ResolvingEnd(db, dispute, id, refund, rate, rebooked, after, refunded);
  }

  lemma RedistributedEscrow(db: Db, rebooked: Db, id: Id, refund: int, rate: real, refunded: Books)
    requires Consistent(db) && 0.0 <= rate <= 100.0 && Redistributed(db, rebooked, id, refund, rate, refunded)
    requires db.orders[id].state.Disputed? && 0 <= refund <= db.orders[id].amount
    requires !(Live(SettlementOf(db, id)) && db.settlements[id].state.PaidOut?)
    ensures BooksOf(rebooked, id).acc.escrow <= 0
  {
    Look(db, id);
    var order := db.orders[id];
    SoundResolve(order, SettlementOf(db, id), BooksOf(db, id), refund, refunded, rate,
                 order.(state := if refund == order.amount then Refunded else Completed));
  }

  lemma ResolvedParts(db: Db, rebooked: Db, after: Db, id: Id, refund: int, rate: real, refunded: Books)
    requires id in db.orders && db.orders[id].state.Disputed? && 0 <= refund <= db.orders[id].amount
    requires !(Live(SettlementOf(db, id)) && db.settlements[id].state.PaidOut?)
    requires Redistributed(db, rebooked, id, refund, rate, refunded)
    requires id in rebooked.orders && id in after.orders
    requires Became(db, after, id, after.orders[id], SettlementOf(rebooked, id), BooksOf(rebooked, id))
    requires after.orders[id]
               == rebooked.orders[id].(state := after.orders[id].state, consumed := after.orders[id].consumed)
    requires Decided(db.orders[id], refund, after.orders[id].state)
    ensures Resolved(db, after, id, refund, rate, refunded)
  {
  }

  lemma ClosedThenMoved(db: Db, rebooked: Db, closed: Db, after: Db, id: Id, to: OrderState)
    requires id in rebooked.orders && Elsewhere(db, rebooked, id)
    requires Became(rebooked, closed, id, rebooked.orders[id], SettlementOf(rebooked, id), BooksOf(rebooked, id))
    requires MovedTo(closed, after, id, to) && BooksOf(rebooked, id).acc.escrow <= 0
    ensures Became(db, after, id, after.orders[id], SettlementOf(rebooked, id), BooksOf(rebooked, id))
  {
    ElsewhereTransitive(db, rebooked, closed, id);
    ElsewhereTransitive(db, closed, after, id);
  }

  lemma ResolvedSound(db: Db, after: Db, id: Id, refund: int, rate: real, refunded: Books)
    requires Consistent(db) && 0.0 <= rate <= 100.0 && Resolved(db, after, id, refund, rate, refunded)
    ensures Sound(after.orders[id], SettlementOf(after, id), BooksOf(after, id))
  {
    Look(db, id);
    SoundResolve(db.orders[id], SettlementOf(db, id), BooksOf(db, id), refund, refunded, rate, after.orders[id]);
  }

  lemma ResolvedEvolves(order: Order, s: Option<Settlement>, b: Books, refund: int, rate: real, refunded: Books,
                        decided: Order)
    requires order.state.Disputed? && !(Live(s) && s.value.state.PaidOut?)
    requires Returned(UnwoundBooks(s, b), refunded, refund, ShareOf(order, refund))
    requires decided == order.(state := decided.state, consumed := decided.consumed)
             && Decided(order, refund, decided.state)
    ensures Evolution(order, s, b, decided, RebookedRow(UnwoundRow(s), order.amount - refund, rate),
                      RebookedBooks(refunded, order.amount - refund, rate))
  {
  }

  lemma ResolvedKeeps(db: Db, after: Db, id: Id, refund: int, rate: real, refunded: Books)
    requires Consistent(db) && 0.0 <= rate <= 100.0 && Resolved(db, after, id, refund, rate, refunded)
    ensures Consistent(after) && Evolves(db, after)
  {
    ResolvedSound(db, after, id, refund, rate, refunded);
    ResolvedEvolves(db.orders[id], SettlementOf(db, id), BooksOf(db, id), refund, rate, refunded, after.orders[id]);
    Advances(db, after, id, after.orders[id], SettlementOf(after, id), BooksOf(after, id));
  }

  lemma ResolveKeeps(db: Db, dispute: Id, outcome: Outcome, rate: real, after: Db)
    requires Consistent(db) && 0.0 <= rate <= 100.0 && ResolveDispute(db, dispute, outcome, rate) == Ok(after)
    ensures Consistent(after) && Evolves(db, after)
  {
    var refunded := Resolving(db, dispute, outcome, rate, after);
    var id := db.disputes[dispute].order;
    ResolvedKeeps(db, after, id, RefundOf(outcome, db.orders[id].amount), rate, refunded);
  }

  // ----- Runs

  lemma TransitionKeeps(db: Db, who: Principal, id: Id, to: OrderState, overdue: bool, rate: real, after: Db)
    requires Consistent(db) && 0.0 <= rate <= 100.0 && TransitionOrder(db, who, id, to, overdue, rate) == Ok(after)
    ensures Consistent(after) && Evolves(db, after)
  {
    if to.Accepted? {
      AcceptKeeps(db, id, rate, after);
    } else {
      MoveKeeps(db, id, to, after);
    }
  }

  lemma ExpireKeeps(db: Db, id: Id, seen: OrderState, after: Db)
    requires Consistent(db) && ExpireOrder(db, id, seen) == Ok(after)
    ensures Consistent(after) && Evolves(db, after)
  {
    if Unpaid(seen) && db.orders[id].state == seen {
      OtherTables(db, db.(redemptions := db.redemptions - {id}));
      MoveKeeps(db.(redemptions := db.redemptions - {id}), id, Cancelled, after);
      EvolvesAfterRows(db, db.(redemptions := db.redemptions - {id}), after);
    }
  }

  lemma ReviewKeeps(db: Db, who: Principal, id: Id, after: Db)
    requires Consistent(db) && CreateReview(db, who, id) == Ok(after)
    ensures Consistent(after) && Evolves(db, after)
  {
    OtherTables(db, db.(reviews := db.reviews + {id}));
    if db.orders[id].state.Accepted? {
      MoveKeeps(db.(reviews := db.reviews + {id}), id, Completed, after);
      EvolvesAfterRows(db, db.(reviews := db.reviews + {id}), after);
    }
  }

  lemma RequirementKeeps(db: Db, who: Principal, id: Id, after: Db)
    requires Consistent(db) && SubmitRequirement(db, who, id) == Ok(after)
    ensures Consistent(after) && Evolves(db, after)
  {
    if db.orders[id].state.RequirementPending? {
      PlainMove(db, id, Ready);
      MoveKeeps(db, id, Ready, after);
    }
  }

  /** Every transaction, whoever runs it, keeps the books in agreement. */
  lemma StepKeeps(db: Db, a: Action)
    requires Consistent(db)
    ensures Consistent(Step(db, a)) && Evolves(db, Step(db, a))
  {
    if Attempt(db, a).Ok? {
      var after := Attempt(db, a).value;
      match a
      case DoCreate(id, buyer, seller, price, coupon, budget) =>
        CreateKeeps(db, id, buyer, seller, price, coupon, budget, after);
      case DoOpenBudget(budget, limit) => OtherTables(db, after);
      case DoPay(who, id, key, payment) => PayKeeps(db, who, id, key, payment, after);
      case DoTransition(who, id, to, overdue, setting) =>
        TransitionKeeps(db, who, id, to, overdue, FeeRate(setting), after);
      case DoSubmitRequirement(who, id) => RequirementKeeps(db, who, id, after);
      case DoDeliver(who, id) => MoveKeeps(db, id, Delivered, after);
      case DoRevise(who, id, overLimit) => MoveKeeps(db, id, RevisionRequested, after);
      case DoAccept(who, id, setting) => AcceptKeeps(db, id, FeeRate(setting), after);
      case DoAutoAccept(id, setting) =>
        if db.orders[id].state.Delivered? {
          AcceptKeeps(db, id, FeeRate(setting), after);
        }
      case DoExpire(id, seen) => ExpireKeeps(db, id, seen, after);
      case DoReview(who, id) => ReviewKeeps(db, who, id, after);
      case DoOpenDispute(who, id, dispute) => OpenDisputeKeeps(db, who, id, dispute, after);
      case DoResolve(dispute, outcome, setting) => ResolveKeeps(db, dispute, outcome, FeeRate(setting), after);
      case DoSettlement(id, act) => SettlementActionKeeps(db, id, act, after);
      case DoDecide(id, hold) => DecisionKeeps(db, id, hold);
    }
  }

  lemma {:induction false} RunKeeps(actions: seq<Action>)
    ensures Consistent(Run(actions))
  {
    if actions != [] {
      RunKeeps(actions[..|actions| - 1]);
      StepKeeps(Run(actions[..|actions| - 1]), actions[|actions| - 1]);
    }
  }
}
