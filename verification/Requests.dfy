/** Exactly which requests are granted, in the states a run can reach: who may ask for what, from where, and what
    they get. The ledger's guard never refuses a payment, a confirmation or an expiry; only giving money back can
    fail, and only when its split does not survive the program's arithmetic. */
module Requests {
  import opened Wrappers
  import opened Int64
  import opened Ledger
  import opened Pricing
  import opened Market
  import opened Books
  import opened EscrowRuns
  import opened DisputeRuns
  import opened DisputeTheorems
  import opened Outcomes
  import Budgets
  import Redemptions

  // ----- The state graph, read backwards

  /** The states from which the graph leads to `to`. */
  function Sources(to: OrderState): set<OrderState> {
    match to
    case Created => {}
    case PaymentPending => {Created}
    case Paid => {PaymentPending}
    case RequirementPending => {OrderState.Paid}
    case Ready => {OrderState.Paid, RequirementPending}
    case InProgress => {Ready, RevisionRequested, CancelRequested}
    case Delivered => {InProgress, RevisionRequested}
    case RevisionRequested => {Delivered}
    case Accepted => {Delivered}
    case Completed => {Accepted, Disputed}
    case CancelRequested => {RequirementPending, Ready, InProgress}
    case Cancelled => {Created, PaymentPending, CancelRequested}
    case Refunded => {OrderState.Paid, Disputed}
    case Disputed => {InProgress, Delivered, RevisionRequested, Accepted}
  }

  /** What a buyer and a seller may ask for on their own. */
  const BUYER_ASKS := {PaymentPending, CancelRequested, Accepted, RevisionRequested}
  const SELLER_ASKS := {Ready, InProgress, Delivered}

  /** Whether this principal may ask for this state of this order. */
  predicate MayAsk(who: Principal, order: Order, to: OrderState, overdue: bool) {
    || who.manage
    || (who.user == order.buyer && to in BUYER_ASKS)
    || (who.user == order.seller && to in SELLER_ASKS)
    || (who.user == order.buyer && order.state.CancelRequested? && to.Cancelled? && overdue)
  }

  lemma UnsettledYet(order: Order, s: Option<Settlement>, b: Books)
    requires Sound(order, s, b) && order.state.Delivered?
    ensures s.None? && 0 <= order.amount
  {
  }

  lemma ConfirmsUnsettled(db: Db, id: Id, rate: real)
    requires id in db.orders && id !in db.settlements
    requires Accepts(SettleLines(db.orders[id].amount, Fee(db.orders[id].amount, rate)))
    ensures AcceptAndSettle(db, id, rate).Ok?
  {
    PlainMove(db, id, Accepted);
  }

  lemma ConfirmationGoesThrough(db: Db, id: Id, rate: real)
    requires Consistent(db) && id in db.orders && db.orders[id].state.Delivered? && 0.0 <= rate <= 100.0
    ensures AcceptAndSettle(db, id, rate).Ok?
  {
    Look(db, id);
    UnsettledYet(db.orders[id], SettlementOf(db, id), BooksOf(db, id));
    SettleAccepted(db.orders[id].amount, rate);
    ConfirmsUnsettled(db, id, rate);
  }

  lemma MoveGoesThroughIff(db: Db, id: Id, to: OrderState)
    requires id in db.orders
    ensures ApplyTransition(db, id, to).Ok?
      <==> (to.Cancelled? || to.Refunded? ==> Splits(db.orders[id], EscrowBalance(db, id)))
  {
    if (to.Cancelled? || to.Refunded?) && EscrowBalance(db, id) > 0 {
      RefundGoesThrough(db, id, EscrowBalance(db, id));
    }
  }

  /** What the general state change looks at before it touches any money. */
  predicate Granted(who: Principal, order: Order, to: OrderState, overdue: bool) {
    order.state in Sources(to) && MayAsk(who, order, to, overdue) && !(order.state.Disputed? && to.Completed?)
  }

  lemma GraphBackwards(from: OrderState, to: OrderState)
    ensures Allowed(from, to) <==> from in Sources(to)
  {
  }

  lemma MayAskIff(who: Principal, order: Order, to: OrderState, overdue: bool)
    ensures MayAsk(who, order, to, overdue)
      <==> CanTransition(who, order, to)
           || (who.user == order.buyer && to.Cancelled? && order.state.CancelRequested? && overdue)
  {
  }

  lemma GrantedThenMoved(db: Db, who: Principal, id: Id, to: OrderState, overdue: bool, rate: real)
    requires id in db.orders
    ensures
      var r := TransitionOrder(db, who, id, to, overdue, rate);
      if !Granted(who, db.orders[id], to, overdue) then r.Err?
      else r == if to.Accepted? then AcceptAndSettle(db, id, rate) else ApplyTransition(db, id, to)
  {
    GraphBackwards(db.orders[id].state, to);
    MayAskIff(who, db.orders[id], to, overdue);
  }

  /** The general state change goes through exactly along the graph, for an operator, or for the party the target
      belongs to, or for the buyer of an overdue order whose cancellation is pending; a dispute is never completed
      this way; and ending an order needs a refund that splits. */
  lemma TransitionGrantedIff(db: Db, who: Principal, id: Id, to: OrderState, overdue: bool, rate: real)
    requires Consistent(db) && id in db.orders && 0.0 <= rate <= 100.0
    ensures TransitionOrder(db, who, id, to, overdue, rate).Ok?
      <==> && db.orders[id].state in Sources(to) && MayAsk(who, db.orders[id], to, overdue)
           && !(db.orders[id].state.Disputed? && to.Completed?)
           && (to.Cancelled? || to.Refunded? ==> Splits(db.orders[id], EscrowBalance(db, id)))
  {
    GrantedThenMoved(db, who, id, to, overdue, rate);
    MoveGoesThroughIff(db, id, to);
    if to.Accepted? && db.orders[id].state.Delivered? {
      ConfirmationGoesThrough(db, id, rate);
    }
  }

  /** And what went through is there afterwards, on this order alone. */
  lemma TransitionArrives(db: Db, who: Principal, id: Id, to: OrderState, overdue: bool, rate: real, after: Db)
    requires TransitionOrder(db, who, id, to, overdue, rate) == Ok(after)
    ensures OnlyMoved(db, after, id, to)
  {
    GrantedThenMoved(db, who, id, to, overdue, rate);
    if to.Accepted? {
      AcceptMoves(db, id, rate, after);
    } else {
      MoveMoves(db, id, to, after);
    }
  }

  /** Every refusal is told for what it is. */
  lemma TransitionRefusals(db: Db, who: Principal, id: Id, to: OrderState, overdue: bool, rate: real)
    requires Consistent(db) && 0.0 <= rate <= 100.0
    ensures
      var r := TransitionOrder(db, who, id, to, overdue, rate);
      if id !in db.orders then r == Err(NotFound)
      else
        var order := db.orders[id];
        if order.state !in Sources(to) then r == Err(InvalidTransition)
        else if !MayAsk(who, order, to, overdue) then
          r == Err(if who.user == order.buyer && to.Cancelled? then PendingReview else Denied)
        else if order.state.Disputed? && to.Completed? then r == Err(ResolveDisputeFirst)
        else r.Err? ==> to.Cancelled? || to.Refunded?
  {
    if id in db.orders {
      GraphBackwards(db.orders[id].state, to);
      TransitionGrantedIff(db, who, id, to, overdue, rate);
    }
  }

  // ----- Paying

  predicate UsedKey(db: Db, id: Id, key: string) {
    exists i :: 0 <= i < |db.payments| && db.payments[i].order == id && db.payments[i].key == key
  }

  lemma PaymentBalances(amount: int, discount: int)
    requires 0 <= discount <= amount
    ensures Accepts(PayLines(amount, discount))
  {
    var a, b, c := DebitOf(BuyerPayment, amount - discount), DebitOf(PromotionExpense, discount),
                   CreditOf(Escrow, amount);
    TotalThree(a, b, c, Debit);
    TotalThree(a, b, c, Credit);
    assert NonNegative([a, b, c]);
  }

  lemma CaptureGoesThrough(db: Db, id: Id, key: string, payment: Id)
    requires id in db.orders && Accepts(PayLines(db.orders[id].amount, db.orders[id].discount))
    ensures CapturePayment(db, id, key, payment).Ok?
  {
    var booked := BookedDb(db, id, key, payment);
    PlainMove(booked, id, OrderState.Paid);
    PlainMove(SetState(booked, id, OrderState.Paid), id, Ready);
  }

  /** A payment goes through exactly for the buyer or an operator, and with a key already used for the order or on an
      order that is not yet paid for: no payment is ever refused for its amounts. */
  lemma PaymentGrantedIff(db: Db, who: Principal, id: Id, key: string, payment: Id)
    requires Consistent(db)
    ensures PayOrder(db, who, id, key, payment).Ok?
      <==> && id in db.orders && (who.user == db.orders[id].buyer || who.manage)
           && (UsedKey(db, id, key) || db.orders[id].state.Created? || db.orders[id].state.PaymentPending?)
  {
    if id in db.orders && (db.orders[id].state.Created? || db.orders[id].state.PaymentPending?) {
      SaneOrder(db, id);
      PaymentBalances(db.orders[id].amount, db.orders[id].discount);
      PlainMove(db, id, PaymentPending);
      CaptureGoesThrough(db, id, key, payment);
      CaptureGoesThrough(SetState(db, id, PaymentPending), id, key, payment);
    }
  }

  lemma NothingBooked(order: Order, s: Option<Settlement>, b: Books)
    requires Sound(order, s, b) && (order.state.Created? || order.state.PaymentPending?)
    ensures b == NO_BOOKS && s.None?
  {
  }

  /** A payment under a new key leaves the order ready, one payment row of what the buyer owes after the discount, and
      the whole amount in escrow: the buyer's part and the promotion's. */
  lemma PaymentLeaves(db: Db, who: Principal, id: Id, key: string, payment: Id, after: Db)
    requires Consistent(db) && PayOrder(db, who, id, key, payment) == Ok(after) && !UsedKey(db, id, key)
    ensures id in db.orders
    ensures
      var order := db.orders[id];
      && after.orders == db.orders[id := order.(state := Ready)]
      && after.payments == db.payments + [Payment(payment, id, key, order.amount - order.discount)]
      && BooksOf(after, id).acc
         == NO_ACCOUNTS.(buyerPayment := -(order.amount - order.discount), promotionExpense := -order.discount,
                         escrow := order.amount)
  {
    FreshPayment(db, who, id, key, payment, after);
    NothingBookedAt(db, id);
    FirstPayment(db, id, key, payment);
  }

  lemma FreshPayment(db: Db, who: Principal, id: Id, key: string, payment: Id, after: Db)
    requires PayOrder(db, who, id, key, payment) == Ok(after) && !UsedKey(db, id, key)
    ensures id in db.orders && Unpaid(db.orders[id].state) && after == PaidDb(db, id, key, payment)
  {
    PayOutcome(db, who, id, key, payment, after);
  }

  lemma NothingBookedAt(db: Db, id: Id)
    requires Consistent(db) && id in db.orders && Unpaid(db.orders[id].state)
    ensures BooksOf(db, id) == NO_BOOKS
  {
    Look(db, id);
    NothingBooked(db.orders[id], SettlementOf(db, id), BooksOf(db, id));
  }

  lemma FirstPayment(db: Db, id: Id, key: string, payment: Id)
    requires id in db.orders && BooksOf(db, id) == NO_BOOKS
    ensures
      var order, after := db.orders[id], PaidDb(db, id, key, payment);
      BooksOf(after, id).acc
      == NO_ACCOUNTS.(buyerPayment := -(order.amount - order.discount), promotionExpense := -order.discount,
                      escrow := order.amount)
  {
    Booking(db, id, key, payment);
    assert BooksOf(PaidDb(db, id, key, payment), id) == BooksOf(BookedDb(db, id, key, payment), id);
  }

  // ----- Working

  /** Answering the requirements is the buyer's, before work starts; it makes an order ready that was waiting for
      them and changes nothing else. */
  lemma RequirementGrantedIff(db: Db, who: Principal, id: Id)
    ensures
      var r := SubmitRequirement(db, who, id);
      && (r.Ok? <==> id in db.orders && who.user == db.orders[id].buyer
                     && db.orders[id].state in {Created, OrderState.Paid, RequirementPending})
      && (r.Ok? ==> r.value == if db.orders[id].state.RequirementPending? then
                                 db.(orders := db.orders[id := db.orders[id].(state := Ready)])
                               else db)
  {
  }

  /** Delivering is the seller's or an operator's, while work or rework is under way. */
  lemma DeliveryGrantedIff(db: Db, who: Principal, id: Id)
    ensures
      var r := CreateDelivery(db, who, id);
      && (r.Ok? <==> id in db.orders && (who.user == db.orders[id].seller || who.manage)
                     && db.orders[id].state in {InProgress, RevisionRequested})
      && (r.Ok? ==> r.value == db.(orders := db.orders[id := db.orders[id].(state := Delivered)]))
  {
    if id in db.orders {
      PlainMove(db, id, Delivered);
    }
  }

  /** Asking for a revision is the buyer's or an operator's, on what was delivered, within the limit. */
  lemma RevisionGrantedIff(db: Db, who: Principal, id: Id, overLimit: bool)
    ensures
      var r := CreateRevision(db, who, id, overLimit);
      && (r.Ok? <==> id in db.orders && (who.user == db.orders[id].buyer || who.manage)
                     && db.orders[id].state.Delivered? && !overLimit)
      && (r.Ok? ==> r.value == db.(orders := db.orders[id := db.orders[id].(state := RevisionRequested)]))
  {
    if id in db.orders {
      PlainMove(db, id, RevisionRequested);
    }
  }

  /** Confirming is the buyer's or an operator's, on what was delivered, and in no reachable state does the ledger or an
      old settlement stand in its way. */
  lemma AcceptGrantedIff(db: Db, who: Principal, id: Id, rate: real)
    requires Consistent(db) && 0.0 <= rate <= 100.0
    ensures AcceptOrder(db, who, id, rate).Ok?
      <==> && id in db.orders && (who.user == db.orders[id].buyer || who.manage) && db.orders[id].state.Delivered?
    ensures AutoAccept(db, id, rate).Ok? <==> id in db.orders
  {
    if id in db.orders && db.orders[id].state.Delivered? {
      ConfirmationGoesThrough(db, id, rate);
    }
  }

  /** And then it is the same confirmation whoever asked. */
  lemma AcceptSettles(db: Db, who: Principal, id: Id, rate: real, after: Db)
    requires id in db.orders && db.orders[id].state.Delivered?
    requires AcceptOrder(db, who, id, rate) == Ok(after) || AutoAccept(db, id, rate) == Ok(after)
             || exists overdue :: TransitionOrder(db, who, id, Accepted, overdue, rate) == Ok(after)
    ensures OnlyMoved(db, after, id, Accepted)
    ensures Settles(BooksOf(db, id).acc, SettlementOf(after, id), BooksOf(after, id).acc, db.orders[id].amount, rate)
  {
    AcceptMoves(db, id, rate, after);
    ConfirmationPays(db, id, rate, after);
  }

  lemma UndeliveredStays(db: Db, id: Id, rate: real)
    requires id in db.orders && !db.orders[id].state.Delivered?
    ensures AutoAccept(db, id, rate) == Ok(db)
  {
  }

  // ----- Ending

  /** An order is expired by the scan exactly if it is still as unpaid as the scan saw it, and nothing can refuse it. */
  lemma ExpiryGrantedIff(db: Db, id: Id, seen: OrderState)
    requires Consistent(db)
    ensures
      var r := ExpireOrder(db, id, seen);
      && (r.Ok? <==> id in db.orders)
      && (r.Ok? && db.orders[id].state == seen && seen in {Created, PaymentPending} ==>
            && OnlyMoved(db, r.value, id, Cancelled) && r.value.redemptions == db.redemptions - {id})
      && (r.Ok? && !(db.orders[id].state == seen && seen in {Created, PaymentPending}) ==> r.value == db)
  {
    if id in db.orders && db.orders[id].state == seen && Unpaid(seen) {
      NothingBookedAt(db, id);
      Expires(db, id, seen);
    }
  }

  lemma Expires(db: Db, id: Id, seen: OrderState)
    requires id in db.orders && Unpaid(seen) && db.orders[id].state == seen && BooksOf(db, id) == NO_BOOKS
    ensures ExpireOrder(db, id, seen).Ok? && OnlyMoved(db, ExpireOrder(db, id, seen).value, id, Cancelled)
    ensures ExpireOrder(db, id, seen).value.redemptions == db.redemptions - {id}
  {
    var freed := db.(redemptions := db.redemptions - {id});
    EndingGoesThrough(freed, id, Cancelled);
    MoveMoves(freed, id, Cancelled, ExpireOrder(db, id, seen).value);
    Redemptions.MoveRedemptions(freed, id, Cancelled, ExpireOrder(db, id, seen).value);
  }

  /** A review is the buyer's, once, on an order confirmed or completed, and completes the first. */
  lemma ReviewGrantedIff(db: Db, who: Principal, id: Id)
    ensures
      var r := CreateReview(db, who, id);
      && (r.Ok? <==> id in db.orders && who.user == db.orders[id].buyer
                     && db.orders[id].state in {Accepted, Completed} && id !in db.reviews)
      && (r.Ok? ==> r.value == db.(reviews := db.reviews + {id},
                                   orders := db.orders[id := db.orders[id].(state := Completed)]))
  {
    if id in db.orders {
      PlainMove(db.(reviews := db.reviews + {id}), id, Completed);
      assert db.orders[id].state.Completed? ==> db.orders[id := db.orders[id].(state := Completed)] == db.orders;
    }
  }

  // ----- Disputing

  /** A dispute may be opened by either party, an operator or a risk officer, on work under way, delivered, sent back or
      confirmed, once at a time. */
  lemma DisputeGrantedIff(db: Db, who: Principal, id: Id, dispute: Id)
    ensures OpenDispute(db, who, id, dispute).Ok?
      <==> && id in db.orders
           && (who.user == db.orders[id].buyer || who.user == db.orders[id].seller || who.manage || who.risk)
           && db.orders[id].state in {InProgress, Delivered, RevisionRequested, Accepted}
           && (forall d :: d in db.disputes && db.disputes[d].order == id ==> !db.disputes[d].open)
           && dispute !in db.disputes
  {
    if id in db.orders {
      PlainMove(db.(disputes := db.disputes[dispute := Dispute(id, true)], settlements := Frozen(db.settlements, id)),
                id, Disputed);
      GraphBackwards(db.orders[id].state, Disputed);
    }
  }

  /** It leaves the order disputed, the dispute open, and what was to be paid out held. */
  lemma DisputeFreezes(db: Db, who: Principal, id: Id, dispute: Id, after: Db)
    requires OpenDispute(db, who, id, dispute) == Ok(after)
    ensures after.orders == db.orders[id := db.orders[id].(state := Disputed)]
    ensures after.disputes == db.disputes[dispute := Dispute(id, true)] && after.ledger == db.ledger
    ensures after.settlements
         == if id in db.settlements && db.settlements[id].state in {Scheduled, Confirmed} then
              db.settlements[id := db.settlements[id].(state := Held)]
            else db.settlements
  {
    PlainMove(db.(disputes := db.disputes[dispute := Dispute(id, true)], settlements := Frozen(db.settlements, id)),
              id, Disputed);
  }

  /** A decision goes through exactly on an open dispute of a disputed order that was not paid out, for a part that is
      really a part, and for a refund that splits; releasing everything to the seller needs no more than that. */
  lemma DecisionGrantedIff(db: Db, dispute: Id, outcome: Outcome, rate: real)
    requires Consistent(db) && 0.0 <= rate <= 100.0
    ensures ResolveDispute(db, dispute, outcome, rate).Ok?
      <==> && dispute in db.disputes && db.disputes[dispute].open && db.disputes[dispute].order in db.orders
           && var id := db.disputes[dispute].order;
           && db.orders[id].state.Disputed? && !(id in db.settlements && db.settlements[id].state.PaidOut?)
           && match outcome
              case RefundFull => Splits(db.orders[id], db.orders[id].amount)
              case RefundPartial(refund) => 0 < refund < db.orders[id].amount && Splits(db.orders[id], refund)
              case ReleaseToSeller => true
  {
    if Decidable(db, dispute, outcome) {
      ResolveSucceedsIff(db, dispute, outcome, rate);
    } else if ResolveDispute(db, dispute, outcome, rate).Ok? {
      ResolveOpens(db, dispute, outcome, rate, ResolveDispute(db, dispute, outcome, rate).value);
    }
  }

  // ----- Placing

  /** What the coupon, if any, takes off this price. */
  function Saving(coupon: Option<CouponUse>, price: int): int {
    if coupon.Some? then IdealDiscount(coupon.value.terms, price) else 0
  }

  /** Whether the budget, if it is one, has room for this much. */
  predicate HasRoom(budgets: map<Id, Budget>, budget: Option<Id>, payable: int) {
    budget.Some? && budget.value in budgets ==> budgets[budget.value].consumed + payable <= budgets[budget.value].amount
  }

  lemma ReservationGrantedIff(budgets: map<Id, Budget>, budget: Option<Id>, payable: int)
    requires 0 <= payable <= MAX
    requires budget.Some? && budget.value in budgets ==>
               0 <= budgets[budget.value].consumed <= budgets[budget.value].amount <= MAX
    ensures
      var r := ReserveBudget(budgets, budget, payable);
      && (r.Ok? <==> HasRoom(budgets, budget, payable))
      && (r.Ok? && budget.Some? && budget.value in budgets && payable > 0 ==>
            r.value == (budgets[budget.value := Budget(budgets[budget.value].amount,
                                                       budgets[budget.value].consumed + payable)], budget, payable))
      && (r.Ok? && !(budget.Some? && budget.value in budgets && payable > 0) ==> r.value == (budgets, None, 0))
  {
    if budget.Some? && budget.value in budgets && budgets[budget.value].consumed + payable > MAX {
      WrapEqual(budgets[budget.value].consumed + payable, budgets[budget.value].consumed + payable - MODULUS);
    }
  }

  /** An order is placed exactly between two people, under a new id, at a price that fits, with a coupon that applies to
      it, and on a budget that has room for what the coupon leaves to pay. */
  lemma OrderGrantedIff(db: Db, id: Id, buyer: Id, seller: Id, price: int, coupon: Option<CouponUse>,
                        budget: Option<Id>)
    requires Budgets.Budgeted(db)
    ensures CreateOrder(db, id, buyer, seller, price, coupon, budget).Ok?
      <==> && buyer != seller && id !in db.orders && 0 <= price <= MAX
           && (coupon.Some? ==> Applicable(coupon.value.terms, price))
           && HasRoom(db.budgets, budget, price - Saving(coupon, price))
  {
    if coupon.Some? && price <= MAX {
      DiscountIsIdeal(coupon.value.terms, price);
    }
    if 0 <= price <= MAX && (coupon.Some? ==> Applicable(coupon.value.terms, price)) {
      BudgetInRange(db, budget);
      ReservationGrantedIff(db.budgets, budget, price - Saving(coupon, price));
    }
  }

  lemma BudgetInRange(db: Db, budget: Option<Id>)
    requires Budgets.Budgeted(db)
    ensures budget.Some? && budget.value in db.budgets ==>
              0 <= db.budgets[budget.value].consumed <= db.budgets[budget.value].amount <= MAX
  {
    if budget.Some? && budget.value in db.budgets {
      assert Budgets.BudgetOk(db, budget.value);
    }
  }

  /** It owes the price less the coupon's saving, holds that much of the budget and records the redemption; nothing
      else changes. */
  lemma OrderLeaves(db: Db, id: Id, buyer: Id, seller: Id, price: int, coupon: Option<CouponUse>, budget: Option<Id>,
                    after: Db)
    requires Budgets.Budgeted(db) && CreateOrder(db, id, buyer, seller, price, coupon, budget) == Ok(after)
    ensures
      var saving := Saving(coupon, price);
      var holds := budget.Some? && budget.value in db.budgets && price > saving;
      after == db.(
        orders := db.orders[id := Order(buyer, seller, Created, price, saving, if holds then budget else None,
                                        if holds then price - saving else 0)],
        budgets := if holds then
                     db.budgets[budget.value := Budget(db.budgets[budget.value].amount,
                                                       db.budgets[budget.value].consumed + price - saving)]
                   else db.budgets,
        redemptions := if coupon.Some? then
                         db.redemptions[id := Redemption(coupon.value.coupon, buyer, saving)]
                       else db.redemptions)
  {
    if coupon.Some? {
      DiscountIsIdeal(coupon.value.terms, price);
    }
    BudgetInRange(db, budget);
    ReservationGrantedIff(db.budgets, budget, price - Saving(coupon, price));
  }

  /** A budget can be opened once, with a positive amount that fits, and starts unused. */
  lemma BudgetGrantedIff(db: Db, budget: Id, amount: int)
    ensures
      var r := OpenBudget(db, budget, amount);
      && (r.Ok? <==> budget !in db.budgets && 1 <= amount <= MAX)
      && (r.Ok? ==> r.value.budgets == db.budgets[budget := Budget(amount, 0)])
  {
  }
}
