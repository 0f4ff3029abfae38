/** Orders, escrow, settlements, disputes and budgets: the tables, and what each committed transaction makes
    of them. Each is one step: most lock the row of their order first, and the settlement actions, the
    background decision and the tool call decide by one guarded update of one row. */
module Market {
  import opened Wrappers
  import opened Int64
  import opened Ledger
  import opened Pricing

  // ----- Tables

  datatype OrderState =
    | Created | PaymentPending | Paid | RequirementPending | Ready | InProgress | Delivered
    | RevisionRequested | Accepted | Completed | CancelRequested | Cancelled | Refunded | Disputed

  /** `consumed` is the part of `budget` the order still holds. */
  datatype Order = Order(buyer: Id, seller: Id, state: OrderState, amount: int, discount: int,
                         budget: Option<Id>, consumed: int)

  datatype Payment = Payment(id: Id, order: Id, key: string, amount: int)

  /** PaidOut and Voided are the stored states 'completed' and 'cancelled'. */
  datatype SettlementState = Scheduled | Confirmed | Held | PaidOut | Voided

  datatype Settlement = Settlement(gross: int, fee: int, net: int, state: SettlementState)

  datatype Dispute = Dispute(order: Id, open: bool)

  datatype Refund = Refund(order: Id, amount: int)

  datatype Budget = Budget(amount: int, consumed: int)

  datatype Redemption = Redemption(coupon: Id, user: Id, discount: int)

  /** Settlements and redemptions are keyed by order: both tables declare the order unique. */
  datatype Db = Db(orders: map<Id, Order>, payments: seq<Payment>, ledger: seq<Entry>,
                   settlements: map<Id, Settlement>, disputes: map<Id, Dispute>, refunds: seq<Refund>,
                   budgets: map<Id, Budget>, redemptions: map<Id, Redemption>, reviews: set<Id>)

  const EMPTY_DB := Db(map[], [], [], map[], map[], [], map[], map[], {})

  datatype Principal = Principal(user: Id, manage: bool, risk: bool)

  datatype Error =
    | NotFound | Denied | InvalidState | InvalidTransition | PendingReview | ResolveDisputeFirst | RevisionLimit
    | AlreadyDisputed | AlreadyResolved | InvalidRefund | SettlementCompleted | SettlementConflict | ReviewExists
    | SelfOrder | DuplicateId | BadPrice | CouponRefused(why: Refusal) | BudgetExceeded | OutOfRange | Unbalanced

  // ----- The transition table

  predicate Allowed(from: OrderState, to: OrderState) {
    match from
    case Created => to.PaymentPending? || to.Cancelled?
    case PaymentPending => to.Paid? || to.Cancelled?
    case Paid => to.RequirementPending? || to.Ready? || to.Refunded?
    case RequirementPending => to.Ready? || to.CancelRequested?
    case Ready => to.InProgress? || to.CancelRequested?
    case InProgress => to.Delivered? || to.CancelRequested? || to.Disputed?
    case Delivered => to.RevisionRequested? || to.Accepted? || to.Disputed?
    case RevisionRequested => to.InProgress? || to.Delivered? || to.Disputed?
    case Accepted => to.Completed? || to.Disputed?
    case CancelRequested => to.Cancelled? || to.InProgress?
    case Disputed => to.Refunded? || to.Completed?
    case Completed => false
    case Cancelled => false
    case Refunded => false
  }

  predicate Final(state: OrderState) {
    state.Completed? || state.Cancelled? || state.Refunded?
  }

  predicate Unpaid(state: OrderState) {
    state.Created? || state.PaymentPending?
  }

  /** Paid for, work under way, nothing decided yet. */
  predicate Working(state: OrderState) {
    state.Paid? || state.RequirementPending? || state.Ready? || state.InProgress? || state.Delivered?
    || state.RevisionRequested? || state.CancelRequested?
  }

  predicate CanTransition(who: Principal, order: Order, to: OrderState) {
    who.manage
    || (match to
        case PaymentPending => who.user == order.buyer
        case CancelRequested => who.user == order.buyer
        case Accepted => who.user == order.buyer
        case RevisionRequested => who.user == order.buyer
        case Ready => who.user == order.seller
        case InProgress => who.user == order.seller
        case Delivered => who.user == order.seller
        case _ => false)
  }

  // ----- Shared helpers

  function WriteLedger(db: Db, order: Id, lines: seq<Line>): Result<Db, Error> {
    if Accepts(lines) then Ok(db.(ledger := db.ledger + Posted(order, lines))) else Err(Unbalanced)
  }

  /** What the ledger says the order still holds, never below zero. */
  function EscrowBalance(db: Db, id: Id): int {
    Greatest(0, Balances(db.ledger, id).escrow)
  }

  /** Holds `payable` against the organization's active budget. The comparison runs in 64-bit
      arithmetic; the update itself is checked by the database. */
  function ReserveBudget(budgets: map<Id, Budget>, budget: Option<Id>, payable: int)
    : Result<(map<Id, Budget>, Option<Id>, int), Error>
  {
    if budget.None? || payable <= 0 || budget.value !in budgets then Ok((budgets, None, 0))
    else
      var b := budgets[budget.value];
      if Wrap(b.consumed + payable) > b.amount then Err(BudgetExceeded)
      else if b.consumed + payable > MAX then Err(OutOfRange)
      else Ok((budgets[budget.value := b.(consumed := b.consumed + payable)], budget, payable))
  }

  function Released(held: int, upTo: int): int {
    if 0 < upTo < held then upTo else held
  }

  /** Gives back what the order still holds, at most `upTo`; a non-positive `upTo` gives back everything. */
  function ReleaseBudget(db: Db, id: Id, upTo: int): (after: Db)
    requires id in db.orders
    ensures after.orders.Keys == db.orders.Keys
  {
    var order := db.orders[id];
    if order.budget.None? || order.consumed <= 0 then db
    else
      var release := Released(order.consumed, upTo);
      var budgets :=
        if order.budget.value in db.budgets then
          var b := db.budgets[order.budget.value];
          db.budgets[order.budget.value := b.(consumed := Greatest(0, b.consumed - release))]
        else db.budgets;
      db.(budgets := budgets, orders := db.orders[id := order.(consumed := order.consumed - release)])
  }

  /** The buyer's part of a refund, in the program's 64-bit arithmetic. */
  function BuyerShare(refund: int, amount: int, discount: int): int {
    if 0 < discount && 0 < amount then Quotient(Wrap(refund * (amount - discount)), amount) else refund
  }

  function RefundLines(refund: int, share: int): seq<Line> {
    [DebitOf(Escrow, refund), CreditOf(BuyerRefund, share), CreditOf(PromotionRecovery, Wrap(refund - share))]
  }

  function BookRefund(db: Db, id: Id, refund: int): (r: Result<Db, Error>)
    requires id in db.orders
    ensures r.Ok? ==> r.value.orders.Keys == db.orders.Keys
  {
    if refund <= 0 then Ok(db)
    else
      var order := db.orders[id];
      var share := BuyerShare(refund, order.amount, order.discount);
      var recorded := if share > 0 then db.(refunds := db.refunds + [Refund(id, share)]) else db;
      var posted :- WriteLedger(recorded, id, RefundLines(refund, share));
      Ok(ReleaseBudget(posted, id, share))
  }

  function SetState(db: Db, id: Id, to: OrderState): Db
    requires id in db.orders
  {
    db.(orders := db.orders[id := db.orders[id].(state := to)])
  }

  /** Moves the order; ending it returns whatever escrow and budget it still holds. */
  function ApplyTransition(db: Db, id: Id, to: OrderState): (r: Result<Db, Error>)
    requires id in db.orders
    ensures r.Ok? ==> r.value.orders.Keys == db.orders.Keys
  {
    if to.Cancelled? || to.Refunded? then
      var held := EscrowBalance(db, id);
      var returned :- if held > 0 then BookRefund(db, id, held) else Ok(db);
      Ok(SetState(ReleaseBudget(returned, id, 0), id, to))
    else Ok(SetState(db, id, to))
  }

  function SettleLines(gross: int, fee: int): seq<Line> {
    [DebitOf(Escrow, gross), CreditOf(PlatformRevenue, fee), CreditOf(SellerPayable, gross - fee)]
  }

  /** Purchase confirmation: state, settlement row and ledger together. */
  function AcceptAndSettle(db: Db, id: Id, rate: real): (r: Result<Db, Error>)
    requires id in db.orders
    ensures r.Ok? ==> r.value.orders.Keys == db.orders.Keys
  {
    var amount := db.orders[id].amount;
    var fee := Fee(amount, rate);
    var moved :- ApplyTransition(db, id, Accepted);
    if id in moved.settlements then Err(SettlementConflict)
    else
      WriteLedger(moved.(settlements := moved.settlements[id := Settlement(amount, fee, amount - fee, Scheduled)]),
                  id, SettleLines(amount, fee))
  }

  /** Reverses what a purchase confirmation booked, so the dispute can decide over the whole escrow. */
  function UnwindSettlement(db: Db, id: Id): (r: Result<Db, Error>)
    ensures r.Ok? ==> r.value.orders.Keys == db.orders.Keys
  {
    if id !in db.settlements then Ok(db)
    else
      var s := db.settlements[id];
      if s.state.PaidOut? then Err(SettlementCompleted)
      else if s.state.Voided? then Ok(db)
      else
        WriteLedger(db.(settlements := db.settlements[id := s.(state := Voided)]), id,
                    [DebitOf(PlatformRevenue, s.fee), DebitOf(SellerPayable, s.net), CreditOf(Escrow, s.gross)])
  }

  // ----- Transactions

  datatype CouponUse = CouponUse(coupon: Id, terms: Terms)

  /** `budget` is the organization's active budget, when the order is placed for one that has one. */
  function CreateOrder(db: Db, id: Id, buyer: Id, seller: Id, price: int, coupon: Option<CouponUse>, budget: Option<Id>)
    : Result<Db, Error>
  {
    if buyer == seller then Err(SelfOrder)
    else if id in db.orders then Err(DuplicateId)
    else if !(0 <= price <= MAX) then Err(BadPrice)
    else
      var decided := if coupon.Some? then ComputeDiscount(coupon.value.terms, price) else Ok(0);
      if decided.Err? then Err(CouponRefused(decided.error))
      else
        var discount := decided.value;
        var (budgets, held, reserved) :- ReserveBudget(db.budgets, budget, price - discount);
        Ok(db.(budgets := budgets,
               orders := db.orders[id := Order(buyer, seller, Created, price, discount, held, reserved)],
               redemptions :=
                 if coupon.Some? then db.redemptions[id := Redemption(coupon.value.coupon, buyer, discount)]
                 else db.redemptions))
  }

  function OpenBudget(db: Db, budget: Id, amount: int): Result<Db, Error> {
    if budget in db.budgets then Err(DuplicateId)
    else if !(0 < amount <= MAX) then Err(BadPrice)
    else Ok(db.(budgets := db.budgets[budget := Budget(amount, 0)]))
  }

  predicate Replays(db: Db, order: Id, key: string) {
    exists i :: 0 <= i < |db.payments| && db.payments[i].order == order && db.payments[i].key == key
  }

  function PayLines(amount: int, discount: int): seq<Line> {
    [DebitOf(BuyerPayment, amount - discount), DebitOf(PromotionExpense, discount), CreditOf(Escrow, amount)]
  }

  function PayOrder(db: Db, who: Principal, id: Id, key: string, payment: Id): (r: Result<Db, Error>)
    ensures r.Ok? ==> r.value.orders.Keys == db.orders.Keys
  {
    if id !in db.orders || (db.orders[id].buyer != who.user && !who.manage) then Err(Denied)
    else
      var order := db.orders[id];
      if Replays(db, id, key) then Ok(db)
      else if !Unpaid(order.state) then Err(InvalidState)
      else
        var pending :- if order.state.Created? then ApplyTransition(db, id, PaymentPending) else Ok(db);
        CapturePayment(pending, id, key, payment)
  }

  /** The payment row and the escrow posting. */
  function BookPayment(db: Db, id: Id, key: string, payment: Id): (r: Result<Db, Error>)
    requires id in db.orders
    ensures r.Ok? ==> r.value.orders == db.orders
  {
    var order := db.orders[id];
    var captured := db.(payments := db.payments + [Payment(payment, id, key, order.amount - order.discount)]);
    WriteLedger(captured, id, PayLines(order.amount, order.discount))
  }

  /** The booking and the two state changes that follow it. */
  function CapturePayment(db: Db, id: Id, key: string, payment: Id): (r: Result<Db, Error>)
    requires id in db.orders
    ensures r.Ok? ==> r.value.orders.Keys == db.orders.Keys
  {
    var booked :- BookPayment(db, id, key, payment);
    var paid :- ApplyTransition(booked, id, Paid);
    ApplyTransition(paid, id, Ready)
  }

  /** The general state change; `overdue` says the grace period after the promised date is over. */
  function TransitionOrder(db: Db, who: Principal, id: Id, to: OrderState, overdue: bool, rate: real)
    : (r: Result<Db, Error>)
    ensures r.Ok? ==> r.value.orders.Keys == db.orders.Keys
  {
    if id !in db.orders then Err(NotFound)
    else
      var order := db.orders[id];
      var overdueCancel := who.user == order.buyer && to.Cancelled? && order.state.CancelRequested? && overdue;
      if !Allowed(order.state, to) then Err(InvalidTransition)
      else if !overdueCancel && !CanTransition(who, order, to) then
        Err(if who.user == order.buyer && to.Cancelled? then PendingReview else Denied)
      else if order.state.Disputed? && to.Completed? then Err(ResolveDisputeFirst)
      else if to.Accepted? then AcceptAndSettle(db, id, rate)
      else ApplyTransition(db, id, to)
  }

  /** The tool call that stores the buyer's answers, which may promote the order. */
  function SubmitRequirement(db: Db, who: Principal, id: Id): (r: Result<Db, Error>)
    ensures r.Ok? ==> r.value.orders.Keys == db.orders.Keys
  {
    if id !in db.orders || db.orders[id].buyer != who.user
       || !(db.orders[id].state.Created? || db.orders[id].state.Paid? || db.orders[id].state.RequirementPending?)
    then Err(Denied)
    else if db.orders[id].state.RequirementPending? then Ok(SetState(db, id, Ready))
    else Ok(db)
  }

  function CreateDelivery(db: Db, who: Principal, id: Id): (r: Result<Db, Error>)
    ensures r.Ok? ==> r.value.orders.Keys == db.orders.Keys
  {
    if id !in db.orders || (db.orders[id].seller != who.user && !who.manage) then Err(Denied)
    else if !(db.orders[id].state.InProgress? || db.orders[id].state.RevisionRequested?) then Err(InvalidState)
    else ApplyTransition(db, id, Delivered)
  }

  function CreateRevision(db: Db, who: Principal, id: Id, overLimit: bool): (r: Result<Db, Error>)
    ensures r.Ok? ==> r.value.orders.Keys == db.orders.Keys
  {
    if id !in db.orders || (db.orders[id].buyer != who.user && !who.manage) then Err(Denied)
    else if !db.orders[id].state.Delivered? then Err(InvalidState)
    else if overLimit then Err(RevisionLimit)
    else ApplyTransition(db, id, RevisionRequested)
  }

  function AcceptOrder(db: Db, who: Principal, id: Id, rate: real): (r: Result<Db, Error>)
    ensures r.Ok? ==> r.value.orders.Keys == db.orders.Keys
  {
    if id !in db.orders || (db.orders[id].buyer != who.user && !who.manage) then Err(Denied)
    else if !db.orders[id].state.Delivered? then Err(InvalidState)
    else AcceptAndSettle(db, id, rate)
  }

  function AutoAccept(db: Db, id: Id, rate: real): (r: Result<Db, Error>)
    ensures r.Ok? ==> r.value.orders.Keys == db.orders.Keys
  {
    if id !in db.orders then Err(NotFound)
    else if !db.orders[id].state.Delivered? then Ok(db)
    else AcceptAndSettle(db, id, rate)
  }

  /** `seen` is the state the scan read; an order that moved since is left alone. */
  function ExpireOrder(db: Db, id: Id, seen: OrderState): (r: Result<Db, Error>)
    ensures r.Ok? ==> r.value.orders.Keys == db.orders.Keys
  {
    if id !in db.orders then Err(NotFound)
    else if !Unpaid(seen) || db.orders[id].state != seen then Ok(db)
    else ApplyTransition(db.(redemptions := db.redemptions - {id}), id, Cancelled)
  }

  function CreateReview(db: Db, who: Principal, id: Id): (r: Result<Db, Error>)
    ensures r.Ok? ==> r.value.orders.Keys == db.orders.Keys
  {
    if id !in db.orders || db.orders[id].buyer != who.user then Err(Denied)
    else if !(db.orders[id].state.Accepted? || db.orders[id].state.Completed?) then Err(InvalidState)
    else if id in db.reviews then Err(ReviewExists)
    else
      var reviewed := db.(reviews := db.reviews + {id});
      if db.orders[id].state.Accepted? then ApplyTransition(reviewed, id, Completed) else Ok(reviewed)
  }

  predicate HasOpenDispute(db: Db, id: Id) {
    exists d :: d in db.disputes && db.disputes[d].order == id && db.disputes[d].open
  }

  /** Freezing stops a settlement that has not been paid out or voided. */
  function Frozen(settlements: map<Id, Settlement>, id: Id): map<Id, Settlement> {
    if id in settlements && (settlements[id].state.Scheduled? || settlements[id].state.Confirmed?) then
      settlements[id := settlements[id].(state := Held)]
    else settlements
  }

  function OpenDispute(db: Db, who: Principal, id: Id, dispute: Id): (r: Result<Db, Error>)
    ensures r.Ok? ==> r.value.orders.Keys == db.orders.Keys
  {
    if id !in db.orders then Err(NotFound)
    else
      var order := db.orders[id];
      if who.user != order.buyer && who.user != order.seller && !who.manage && !who.risk then Err(Denied)
      else if !Allowed(order.state, Disputed) then Err(InvalidState)
      else if HasOpenDispute(db, id) then Err(AlreadyDisputed)
      else if dispute in db.disputes then Err(DuplicateId)
      else
        ApplyTransition(db.(disputes := db.disputes[dispute := Dispute(id, true)],
                            settlements := Frozen(db.settlements, id)), id, Disputed)
  }

  datatype Outcome = RefundFull | RefundPartial(refund: int) | ReleaseToSeller

  function RefundOf(outcome: Outcome, amount: int): int {
    match outcome
    case RefundFull => amount
    case RefundPartial(refund) => refund
    case ReleaseToSeller => 0
  }

  /** Books the seller's share of what the buyer does not get back. */
  function Rebook(db: Db, id: Id, remaining: int, rate: real): (r: Result<Db, Error>)
    ensures r.Ok? ==> r.value.orders.Keys == db.orders.Keys
  {
    if remaining <= 0 then Ok(db)
    else
      var fee := Fee(remaining, rate);
      WriteLedger(db.(settlements := db.settlements[id := Settlement(remaining, fee, remaining - fee, Scheduled)]),
                  id, SettleLines(remaining, fee))
  }

  /** The decision's money: unwind, refund, rebook. */
  function Redivide(db: Db, id: Id, refund: int, rate: real): (r: Result<Db, Error>)
    requires id in db.orders
    ensures r.Ok? ==> r.value.orders.Keys == db.orders.Keys
  {
    var unwound :- UnwindSettlement(db, id);
    var refunded :- BookRefund(unwound, id, refund);
    Rebook(refunded, id, db.orders[id].amount - refund, rate)
  }

  /** The money, then the closed dispute and the final state. */
  function Redistribute(db: Db, dispute: Id, id: Id, refund: int, rate: real): (r: Result<Db, Error>)
    requires id in db.orders
    ensures r.Ok? ==> r.value.orders.Keys == db.orders.Keys
  {
    var rebooked :- Redivide(db, id, refund, rate);
    ApplyTransition(rebooked.(disputes := rebooked.disputes[dispute := Dispute(id, false)]), id,
                    if refund == db.orders[id].amount then Refunded else Completed)
  }

  function ResolveDispute(db: Db, dispute: Id, outcome: Outcome, rate: real): (r: Result<Db, Error>)
    ensures r.Ok? ==> r.value.orders.Keys == db.orders.Keys
  {
    if dispute !in db.disputes || db.disputes[dispute].order !in db.orders then Err(NotFound)
    else
      var id := db.disputes[dispute].order;
      var amount := db.orders[id].amount;
      if !db.disputes[dispute].open then Err(AlreadyResolved)
      else if !db.orders[id].state.Disputed? then Err(InvalidState)
      else if outcome.RefundPartial? && !(0 < outcome.refund < amount) then Err(InvalidRefund)
      else Redistribute(db, dispute, id, RefundOf(outcome, amount), rate)
  }

  datatype SettlementAct = HoldIt | ReleaseIt | CompleteIt

  /** The operator's hold, release and payout. */
  function SettlementAction(db: Db, id: Id, act: SettlementAct): (r: Result<Db, Error>)
    ensures r.Ok? ==> r.value.orders.Keys == db.orders.Keys
  {
    if id !in db.settlements then Err(SettlementConflict)
    else
      var s := db.settlements[id];
      match act
      case HoldIt =>
        if s.state.Scheduled? || s.state.Confirmed? then Ok(db.(settlements := db.settlements[id := s.(state := Held)]))
        else Err(SettlementConflict)
      case ReleaseIt =>
        if s.state.Held? then Ok(db.(settlements := db.settlements[id := s.(state := Scheduled)]))
        else Err(SettlementConflict)
      case CompleteIt =>
        if s.state.Scheduled? || s.state.Confirmed? then
          WriteLedger(db.(settlements := db.settlements[id := s.(state := PaidOut)]), id,
                      [DebitOf(SellerPayable, s.net), CreditOf(SellerPayout, s.net)])
        else Err(SettlementConflict)
  }

  /** The background decision over a due settlement; one that moved since is left alone. */
  function ApplySettlementDecision(db: Db, id: Id, hold: bool): Db {
    if id in db.settlements && db.settlements[id].state.Scheduled? then
      db.(settlements := db.settlements[id := db.settlements[id].(state := if hold then Held else Confirmed)])
    else db
  }

  // ----- Runs

  datatype Action =
    | DoCreate(id: Id, buyer: Id, seller: Id, price: int, coupon: Option<CouponUse>, budget: Option<Id>)
    | DoOpenBudget(budgetId: Id, limit: int)
    | DoPay(who: Principal, id: Id, key: string, payment: Id)
    | DoTransition(who: Principal, id: Id, to: OrderState, overdue: bool, feeSetting: Option<real>)
    | DoSubmitRequirement(who: Principal, id: Id)
    | DoDeliver(who: Principal, id: Id)
    | DoRevise(who: Principal, id: Id, overLimit: bool)
    | DoAccept(who: Principal, id: Id, feeSetting: Option<real>)
    | DoAutoAccept(id: Id, feeSetting: Option<real>)
    | DoExpire(id: Id, seen: OrderState)
    | DoReview(who: Principal, id: Id)
    | DoOpenDispute(who: Principal, id: Id, dispute: Id)
    | DoResolve(dispute: Id, outcome: Outcome, feeSetting: Option<real>)
    | DoSettlement(id: Id, act: SettlementAct)
    | DoDecide(id: Id, hold: bool)

  function Attempt(db: Db, a: Action): Result<Db, Error> {
    match a
    case DoCreate(id, buyer, seller, price, coupon, budget) => CreateOrder(db, id, buyer, seller, price, coupon, budget)
    case DoOpenBudget(budget, limit) => OpenBudget(db, budget, limit)
    case DoPay(who, id, key, payment) => PayOrder(db, who, id, key, payment)
    case DoTransition(who, id, to, overdue, setting) => TransitionOrder(db, who, id, to, overdue, FeeRate(setting))
    case DoSubmitRequirement(who, id) => SubmitRequirement(db, who, id)
    case DoDeliver(who, id) => CreateDelivery(db, who, id)
    case DoRevise(who, id, overLimit) => CreateRevision(db, who, id, overLimit)
    case DoAccept(who, id, setting) => AcceptOrder(db, who, id, FeeRate(setting))
    case DoAutoAccept(id, setting) => AutoAccept(db, id, FeeRate(setting))
    case DoExpire(id, seen) => ExpireOrder(db, id, seen)
    case DoReview(who, id) => CreateReview(db, who, id)
    case DoOpenDispute(who, id, dispute) => OpenDispute(db, who, id, dispute)
    case DoResolve(dispute, outcome, setting) => ResolveDispute(db, dispute, outcome, FeeRate(setting))
    case DoSettlement(id, act) => SettlementAction(db, id, act)
    case DoDecide(id, hold) => Ok(ApplySettlementDecision(db, id, hold))
  }

  /** A refused transaction is rolled back. */
  function Step(db: Db, a: Action): Db {
    var r := Attempt(db, a);
    if r.Ok? then r.value else db
  }

  /** Every run of the platform is a sequence of attempted transactions from the empty tables. */
  function Run(actions: seq<Action>): Db {
    if actions == [] then EMPTY_DB else Step(Run(actions[..|actions| - 1]), actions[|actions| - 1])
  }
}
