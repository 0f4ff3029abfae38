/** The handlers as they run: tables updated in place, statement by statement, inside a transaction that
    is rolled back when a step refuses. Each is proved to do exactly what its transaction says. */
module Store {
  import opened Wrappers
  import opened Int64
  import opened Ledger
  import opened Pricing
  import opened Market

  /** A step inside a transaction: on success the tables are as specified, on refusal they are about to be
      rolled back. */
  predicate Partly(r: Result<Db, Error>, refused: Option<Error>, now: Db) {
    match r
    case Ok(after) => refused.None? && now == after
    case Err(e) => refused == Some(e)
  }

  /** A whole transaction: committed as specified, or refused with nothing changed. */
  predicate Wholly(r: Result<Db, Error>, before: Db, refused: Option<Error>, now: Db) {
    match r
    case Ok(after) => refused.None? && now == after
    case Err(e) => refused == Some(e) && now == before
  }

  predicate PaidWith(payments: seq<Payment>, id: Id, key: string, payment: Id) {
    exists i :: 0 <= i < |payments| && payments[i].order == id && payments[i].key == key && payments[i].id == payment
  }

  class Tables {
    var orders: map<Id, Order>
    var payments: seq<Payment>
    var ledger: seq<Entry>
    var settlements: map<Id, Settlement>
    var disputes: map<Id, Dispute>
    var refunds: seq<Refund>
    var budgets: map<Id, Budget>
    var redemptions: map<Id, Redemption>
    var reviews: set<Id>

    constructor ()
      ensures Snapshot() == EMPTY_DB
    {
      orders, payments, ledger, settlements, disputes := map[], [], [], map[], map[];
      refunds, budgets, redemptions, reviews := [], map[], map[], {};
    }

    function Snapshot(): Db
      reads this
    {
      Db(orders, payments, ledger, settlements, disputes, refunds, budgets, redemptions, reviews)
    }

    /** Commit, or roll back to where the transaction began. */
    method Finish(refused: Option<Error>, saved: Db)
      modifies this
      ensures Snapshot() == if refused.Some? then saved else old(Snapshot())
    {
      if refused.Some? {
        orders, payments, ledger, settlements := saved.orders, saved.payments, saved.ledger, saved.settlements;
        disputes, refunds, budgets := saved.disputes, saved.refunds, saved.budgets;
        redemptions, reviews := saved.redemptions, saved.reviews;
      }
    }

    // ----- Ledger

    /** Refuses a negative amount, and sums both sides in 64-bit arithmetic. */
    method Balanced(lines: seq<Line>) returns (ok: bool)
      ensures ok == Accepts(lines)
    {
      var debits, credits := 0, 0;
      for i := 0 to |lines|
        invariant NonNegative(lines[..i])
        invariant debits == Wrap(Total(lines[..i], Debit)) && credits == Wrap(Total(lines[..i], Credit))
      {
        assert lines[..i + 1][..i] == lines[..i];
        if lines[i].amount < 0 {
          return false;
        }
        AddWraps(Total(lines[..i], Debit), lines[i].amount);
        AddWraps(Total(lines[..i], Credit), lines[i].amount);
        if lines[i].direction.Debit? {
          debits := Wrap(debits + lines[i].amount);
        } else {
          credits := Wrap(credits + lines[i].amount);
        }
      }
      assert lines[..|lines|] == lines;
      return debits == credits;
    }

    /** Inserts the lines that are worth something. */
    method InsertLines(order: Id, lines: seq<Line>)
      modifies `ledger
      ensures ledger == old(ledger) + Posted(order, lines)
    {
      for i := 0 to |lines|
        invariant ledger == old(ledger) + Posted(order, lines[..i])
      {
        assert lines[..i + 1][..i] == lines[..i];
        if lines[i].amount != 0 {
          ledger := ledger + [Entry(order, lines[i])];
        }
      }
      assert lines[..|lines|] == lines;
    }

    method WriteLedger(order: Id, lines: seq<Line>) returns (refused: Option<Error>)
      modifies `ledger
      ensures Wholly(Market.WriteLedger(old(Snapshot()), order, lines), old(Snapshot()), refused, Snapshot())
    {
      var ok := Balanced(lines);
      if !ok {
        return Some(Unbalanced);
      }
      InsertLines(order, lines);
      return None;
    }

    method EscrowBalance(id: Id) returns (held: int)
      ensures held == Market.EscrowBalance(Snapshot(), id)
    {
      held := 0;
      for i := 0 to |ledger|
        invariant held == Balances(ledger[..i], id).escrow
      {
        assert ledger[..i + 1][..i] == ledger[..i];
        if ledger[i].order == id && ledger[i].line.account.Escrow? {
          held := held + Signed(ledger[i].line);
        }
      }
      assert ledger[..|ledger|] == ledger;
      if held < 0 {
        held := 0;
      }
    }

    // ----- Budgets

    method ReserveBudget(budget: Option<Id>, payable: int)
        returns (refused: Option<Error>, held: Option<Id>, reserved: int)
      modifies `budgets
      ensures match Market.ReserveBudget(old(budgets), budget, payable)
        case Ok((after, h, r)) => refused.None? && budgets == after && held == h && reserved == r
        case Err(e) => refused == Some(e) && budgets == old(budgets)
    {
      held, reserved := None, 0;
      if budget.None? || payable <= 0 || budget.value !in budgets {
        return None, None, 0;
      }
      var b := budgets[budget.value];
      if Wrap(b.consumed + payable) > b.amount {
        return Some(BudgetExceeded), None, 0;
      }
      if b.consumed + payable > MAX {
        return Some(OutOfRange), None, 0;
      }
      budgets := budgets[budget.value := b.(consumed := b.consumed + payable)];
      return None, budget, payable;
    }

    method ReleaseBudget(id: Id, upTo: int)
      requires id in orders
      modifies `budgets, `orders
      ensures Snapshot() == Market.ReleaseBudget(old(Snapshot()), id, upTo)
    {
      var held := orders[id].consumed;
      if orders[id].budget.None? || held <= 0 {
        return;
      }
      var release := held;
      if upTo > 0 && upTo < held {
        release := upTo;
      }
      var budget := orders[id].budget.value;
      if budget in budgets {
        budgets := budgets[budget := budgets[budget].(consumed := Greatest(0, budgets[budget].consumed - release))];
      }
      orders := orders[id := orders[id].(consumed := held - release)];
    }

    // ----- Refunds and state changes

    method BookRefund(id: Id, refund: int) returns (refused: Option<Error>)
      requires id in orders
      modifies this
      ensures Partly(Market.BookRefund(old(Snapshot()), id, refund), refused, Snapshot())
      ensures id in orders && payments == old(payments)
    {
      if refund <= 0 {
        return None;
      }
      var amount, discount := orders[id].amount, orders[id].discount;
      var buyerRefund := refund;
      if discount > 0 && amount > 0 {
        buyerRefund := Quotient(Wrap(refund * (amount - discount)), amount);
      }
      var promotionRefund := Wrap(refund - buyerRefund);
      if buyerRefund > 0 {
        refunds := refunds + [Refund(id, buyerRefund)];
      }
      refused := WriteLedger(id,
                             [DebitOf(Escrow, refund), CreditOf(BuyerRefund, buyerRefund),
                              CreditOf(PromotionRecovery, promotionRefund)]);
      if refused.None? {
        ReleaseBudget(id, buyerRefund);
      }
    }

    /** Ending an order first returns whatever escrow still holds, then whatever budget is left. */
    method ApplyOrderTransition(id: Id, to: OrderState) returns (refused: Option<Error>)
      requires id in orders
      modifies this
      ensures Partly(Market.ApplyTransition(old(Snapshot()), id, to), refused, Snapshot())
      ensures id in orders && payments == old(payments)
    {
      refused := None;
      if to.Cancelled? || to.Refunded? {
        var held := EscrowBalance(id);
        if held > 0 {
          refused := BookRefund(id, held);
        }
        if refused.None? {
          ReleaseBudget(id, 0);
        }
      }
      if refused.None? {
        orders := orders[id := orders[id].(state := to)];
      }
    }

    method AcceptAndSettle(id: Id, rate: real) returns (refused: Option<Error>)
      requires id in orders
      modifies this
      ensures Partly(Market.AcceptAndSettle(old(Snapshot()), id, rate), refused, Snapshot())
    {
      var amount := orders[id].amount;
      var fee := Fee(amount, rate);
      var net := amount - fee;
      refused := ApplyOrderTransition(id, Accepted);
      if refused.None? {
        if id in settlements {
          return Some(SettlementConflict);
        }
        settlements := settlements[id := Settlement(amount, fee, net, Scheduled)];
        refused := WriteLedger(id,
                               [DebitOf(Escrow, amount), CreditOf(PlatformRevenue, fee), CreditOf(SellerPayable, net)]);
      }
    }

    // ----- Orders

    method CreateOrder(id: Id, buyer: Id, seller: Id, price: int, coupon: Option<CouponUse>, budget: Option<Id>)
        returns (refused: Option<Error>)
      modifies this
      ensures Wholly(Market.CreateOrder(old(Snapshot()), id, buyer, seller, price, coupon, budget), old(Snapshot()),
                     refused, Snapshot())
    {
      if buyer == seller {
        return Some(SelfOrder);
      }
      if id in orders {
        return Some(DuplicateId);
      }
      if !(0 <= price <= MAX) {
        return Some(BadPrice);
      }
      var discount := 0;
      if coupon.Some? {
        var decided := ComputeDiscount(coupon.value.terms, price);
        if decided.Err? {
          return Some(CouponRefused(decided.error));
        }
        discount := decided.value;
      }
      var held, reserved;
      refused, held, reserved := ReserveBudget(budget, price - discount);
      if refused.Some? {
        return;
      }
      orders := orders[id := Order(buyer, seller, Created, price, discount, held, reserved)];
      if coupon.Some? {
        redemptions := redemptions[id := Redemption(coupon.value.coupon, buyer, discount)];
      }
    }

    method OpenBudget(budget: Id, amount: int) returns (refused: Option<Error>)
      modifies this
      ensures Wholly(Market.OpenBudget(old(Snapshot()), budget, amount), old(Snapshot()), refused, Snapshot())
    {
      if budget in budgets {
        return Some(DuplicateId);
      }
      if !(0 < amount <= MAX) {
        return Some(BadPrice);
      }
      budgets := budgets[budget := Budget(amount, 0)];
      return None;
    }

    method FindPayment(id: Id, key: string) returns (found: Option<Id>)
      ensures found.Some? <==> Replays(Snapshot(), id, key)
      ensures found.Some? ==> PaidWith(payments, id, key, found.value)
    {
      for i := 0 to |payments|
        invariant forall j :: 0 <= j < i ==> !(payments[j].order == id && payments[j].key == key)
      {
        if payments[i].order == id && payments[i].key == key {
          return Some(payments[i].id);
        }
      }
      return None;
    }

    method BookPayment(id: Id, key: string, payment: Id) returns (refused: Option<Error>)
      requires id in orders
      modifies this
      ensures Partly(Market.BookPayment(old(Snapshot()), id, key, payment), refused, Snapshot())
      ensures orders == old(orders) && PaidWith(payments, id, key, payment)
    {
      var amount, payable := orders[id].amount, orders[id].amount - orders[id].discount;
      payments := payments + [Payment(payment, id, key, payable)];
      assert payments[|payments| - 1] == Payment(payment, id, key, payable);
      refused := WriteLedger(id,
                             [DebitOf(BuyerPayment, payable), DebitOf(PromotionExpense, orders[id].discount),
                              CreditOf(Escrow, amount)]);
    }

    method Capture(id: Id, key: string, payment: Id) returns (refused: Option<Error>)
      requires id in orders
      modifies this
      ensures Partly(CapturePayment(old(Snapshot()), id, key, payment), refused, Snapshot())
      ensures PaidWith(payments, id, key, payment)
    {
      refused := BookPayment(id, key, payment);
      if refused.None? {
        refused := ApplyOrderTransition(id, OrderState.Paid);
      }
      if refused.None? {
        refused := ApplyOrderTransition(id, Ready);
      }
    }

    /** On success `paid` is a payment of this order under this key: the one found, or the new one. */
    method PayOrder(who: Principal, id: Id, key: string, payment: Id) returns (refused: Option<Error>, paid: Id)
      modifies this
      ensures Wholly(Market.PayOrder(old(Snapshot()), who, id, key, payment), old(Snapshot()), refused, Snapshot())
      ensures refused.None? ==> PaidWith(payments, id, key, paid)
    {
      var saved := Snapshot();
      paid := payment;
      if id !in orders || (orders[id].buyer != who.user && !who.manage) {
        return Some(Denied), payment;
      }
      var found := FindPayment(id, key);
      if found.Some? {
        return None, found.value;
      }
      if !orders[id].state.Created? && !orders[id].state.PaymentPending? {
        return Some(InvalidState), payment;
      }
      refused := None;
      if orders[id].state.Created? {
        refused := ApplyOrderTransition(id, PaymentPending);
      }
      if refused.None? {
        refused := Capture(id, key, payment);
      }
      Finish(refused, saved);
    }

    method TransitionOrder(who: Principal, id: Id, to: OrderState, overdue: bool, rate: real)
        returns (refused: Option<Error>)
      modifies this
      ensures Wholly(Market.TransitionOrder(old(Snapshot()), who, id, to, overdue, rate), old(Snapshot()), refused,
                     Snapshot())
    {
      var saved := Snapshot();
      if id !in orders {
        return Some(NotFound);
      }
      var order := orders[id];
      var overdueCancel := who.user == order.buyer && to.Cancelled? && order.state.CancelRequested? && overdue;
      if !Allowed(order.state, to) {
        return Some(InvalidTransition);
      }
      if !overdueCancel && !CanTransition(who, order, to) {
        if who.user == order.buyer && to.Cancelled? {
          return Some(PendingReview);
        }
        return Some(Denied);
      }
      if order.state.Disputed? && to.Completed? {
        return Some(ResolveDisputeFirst);
      }
      if to.Accepted? {
        refused := AcceptAndSettle(id, rate);
      } else {
        refused := ApplyOrderTransition(id, to);
      }
      Finish(refused, saved);
    }

    method SubmitRequirement(who: Principal, id: Id) returns (refused: Option<Error>)
      modifies this
      ensures Wholly(Market.SubmitRequirement(old(Snapshot()), who, id), old(Snapshot()), refused, Snapshot())
    {
      if id !in orders || orders[id].buyer != who.user {
        return Some(Denied);
      }
      var state := orders[id].state;
      if !(state.Created? || state.Paid? || state.RequirementPending?) {
        return Some(Denied);
      }
      if state.RequirementPending? {
        orders := orders[id := orders[id].(state := Ready)];
      }
      return None;
    }

    method CreateDelivery(who: Principal, id: Id) returns (refused: Option<Error>)
      modifies this
      ensures Wholly(Market.CreateDelivery(old(Snapshot()), who, id), old(Snapshot()), refused, Snapshot())
    {
      var saved := Snapshot();
      if id !in orders || (orders[id].seller != who.user && !who.manage) {
        return Some(Denied);
      }
      if !orders[id].state.InProgress? && !orders[id].state.RevisionRequested? {
        return Some(InvalidState);
      }
      refused := ApplyOrderTransition(id, Delivered);
      Finish(refused, saved);
    }

    method CreateRevision(who: Principal, id: Id, overLimit: bool) returns (refused: Option<Error>)
      modifies this
      ensures Wholly(Market.CreateRevision(old(Snapshot()), who, id, overLimit), old(Snapshot()), refused, Snapshot())
    {
      var saved := Snapshot();
      if id !in orders || (orders[id].buyer != who.user && !who.manage) {
        return Some(Denied);
      }
      if !orders[id].state.Delivered? {
        return Some(InvalidState);
      }
      if overLimit {
        return Some(RevisionLimit);
      }
      refused := ApplyOrderTransition(id, RevisionRequested);
      Finish(refused, saved);
    }

    method AcceptOrder(who: Principal, id: Id, rate: real) returns (refused: Option<Error>)
      modifies this
      ensures Wholly(Market.AcceptOrder(old(Snapshot()), who, id, rate), old(Snapshot()), refused, Snapshot())
    {
      var saved := Snapshot();
      if id !in orders || (orders[id].buyer != who.user && !who.manage) {
        return Some(Denied);
      }
      if !orders[id].state.Delivered? {
        return Some(InvalidState);
      }
      refused := AcceptAndSettle(id, rate);
      Finish(refused, saved);
    }

    method AutoAccept(id: Id, rate: real) returns (refused: Option<Error>)
      modifies this
      ensures Wholly(Market.AutoAccept(old(Snapshot()), id, rate), old(Snapshot()), refused, Snapshot())
    {
      var saved := Snapshot();
      if id !in orders {
        return Some(NotFound);
      }
      if !orders[id].state.Delivered? {
        return None;
      }
      refused := AcceptAndSettle(id, rate);
      Finish(refused, saved);
    }

    /** `seen` is one of the two unpaid states the scan selects. */
    method ExpireOrder(id: Id, seen: OrderState) returns (refused: Option<Error>)
      requires Unpaid(seen)
      modifies this
      ensures Wholly(Market.ExpireOrder(old(Snapshot()), id, seen), old(Snapshot()), refused, Snapshot())
    {
      var saved := Snapshot();
      if id !in orders {
        return Some(NotFound);
      }
      if orders[id].state != seen {
        return None;
      }
      redemptions := redemptions - {id};
      refused := ApplyOrderTransition(id, Cancelled);
      Finish(refused, saved);
    }

    method CreateReview(who: Principal, id: Id) returns (refused: Option<Error>)
      modifies this
      ensures Wholly(Market.CreateReview(old(Snapshot()), who, id), old(Snapshot()), refused, Snapshot())
    {
      var saved := Snapshot();
      if id !in orders || orders[id].buyer != who.user {
        return Some(Denied);
      }
      var state := orders[id].state;
      if !state.Accepted? && !state.Completed? {
        return Some(InvalidState);
      }
      if id in reviews {
        return Some(ReviewExists);
      }
      reviews := reviews + {id};
      refused := None;
      if state.Accepted? {
        refused := ApplyOrderTransition(id, Completed);
        Finish(refused, saved);
      }
    }

    // ----- Disputes

    method FreezeSettlement(id: Id)
      modifies `settlements
      ensures settlements == Frozen(old(settlements), id)
    {
      if id in settlements && (settlements[id].state.Scheduled? || settlements[id].state.Confirmed?) {
        settlements := settlements[id := settlements[id].(state := Held)];
      }
    }

    method OpenDispute(who: Principal, id: Id, dispute: Id) returns (refused: Option<Error>)
      modifies this
      ensures Wholly(Market.OpenDispute(old(Snapshot()), who, id, dispute), old(Snapshot()), refused, Snapshot())
    {
      var saved := Snapshot();
      if id !in orders {
        return Some(NotFound);
      }
      var order := orders[id];
      if who.user != order.buyer && who.user != order.seller && !who.manage && !who.risk {
        return Some(Denied);
      }
      if !Allowed(order.state, Disputed) {
        return Some(InvalidState);
      }
      if HasOpenDispute(Snapshot(), id) {
        return Some(AlreadyDisputed);
      }
      if dispute in disputes {
        return Some(DuplicateId);
      }
      disputes := disputes[dispute := Dispute(id, true)];
      FreezeSettlement(id);
      refused := ApplyOrderTransition(id, Disputed);
      Finish(refused, saved);
    }

    method UnwindSettlement(id: Id) returns (refused: Option<Error>)
      modifies this
      ensures Partly(Market.UnwindSettlement(old(Snapshot()), id), refused, Snapshot())
    {
      if id !in settlements {
        return None;
      }
      var s := settlements[id];
      if s.state.PaidOut? {
        return Some(SettlementCompleted);
      }
      if s.state.Voided? {
        return None;
      }
      settlements := settlements[id := s.(state := Voided)];
      refused := WriteLedger(id,
                             [DebitOf(PlatformRevenue, s.fee), DebitOf(SellerPayable, s.net),
                              CreditOf(Escrow, s.gross)]);
    }

    method Rebook(id: Id, remaining: int, rate: real) returns (refused: Option<Error>)
      modifies this
      ensures Partly(Market.Rebook(old(Snapshot()), id, remaining, rate), refused, Snapshot())
    {
      if remaining <= 0 {
        return None;
      }
      var fee := Fee(remaining, rate);
      var net := remaining - fee;
      settlements := settlements[id := Settlement(remaining, fee, net, Scheduled)];
      refused := WriteLedger(id,
                             [DebitOf(Escrow, remaining), CreditOf(PlatformRevenue, fee),
                              CreditOf(SellerPayable, net)]);
    }

    method ResolveDispute(dispute: Id, outcome: Outcome, rate: real) returns (refused: Option<Error>)
      modifies this
      ensures Wholly(Market.ResolveDispute(old(Snapshot()), dispute, outcome, rate), old(Snapshot()), refused,
                     Snapshot())
    {
      var saved := Snapshot();
      if dispute !in disputes || disputes[dispute].order !in orders {
        return Some(NotFound);
      }
      var id := disputes[dispute].order;
      var amount := orders[id].amount;
      if !disputes[dispute].open {
        return Some(AlreadyResolved);
      }
      if !orders[id].state.Disputed? {
        return Some(InvalidState);
      }
      var refund := 0;
      match outcome {
        case RefundFull => refund := amount;
        case RefundPartial(part) =>
          refund := part;
          if refund <= 0 || refund >= amount {
            return Some(InvalidRefund);
          }
        case ReleaseToSeller =>
      }
      refused := Redistribute(dispute, id, refund, rate);
      Finish(refused, saved);
    }

    method Redivide(id: Id, refund: int, rate: real) returns (refused: Option<Error>)
      requires id in orders
      modifies this
      ensures Partly(Market.Redivide(old(Snapshot()), id, refund, rate), refused, Snapshot())
    {
      var amount := orders[id].amount;
      refused := UnwindSettlement(id);
      if refused.None? {
        refused := BookRefund(id, refund);
      }
      if refused.None? {
        refused := Rebook(id, amount - refund, rate);
      }
    }

    /** The money, then the closed dispute and the final state. */
    method Redistribute(dispute: Id, id: Id, refund: int, rate: real) returns (refused: Option<Error>)
      requires id in orders
      modifies this
      ensures Partly(Market.Redistribute(old(Snapshot()), dispute, id, refund, rate), refused, Snapshot())
    {
      var amount := orders[id].amount;
      refused := Redivide(id, refund, rate);
      if refused.None? {
        disputes := disputes[dispute := Dispute(id, false)];
        var to := OrderState.Completed;
        if refund == amount {
          to := Refunded;
        }
        refused := ApplyOrderTransition(id, to);
      }
    }

    // ----- Settlements

    method SettlementAction(id: Id, act: SettlementAct) returns (refused: Option<Error>)
      modifies this
      ensures Wholly(Market.SettlementAction(old(Snapshot()), id, act), old(Snapshot()), refused, Snapshot())
    {
      var saved := Snapshot();
      if id !in settlements {
        return Some(SettlementConflict);
      }
      var s := settlements[id];
      var live := s.state.Scheduled? || s.state.Confirmed?;
      match act
      case HoldIt =>
        if !live {
          return Some(SettlementConflict);
        }
        settlements := settlements[id := s.(state := Held)];
        return None;
      case ReleaseIt =>
        if !s.state.Held? {
          return Some(SettlementConflict);
        }
        settlements := settlements[id := s.(state := Scheduled)];
        return None;
      case CompleteIt =>
        if !live {
          return Some(SettlementConflict);
        }
        settlements := settlements[id := s.(state := PaidOut)];
        refused := WriteLedger(id, [DebitOf(SellerPayable, s.net), CreditOf(SellerPayout, s.net)]);
        Finish(refused, saved);
    }

    method ApplySettlementDecision(id: Id, hold: bool)
      modifies this
      ensures Snapshot() == Market.ApplySettlementDecision(old(Snapshot()), id, hold)
    {
      if id !in settlements || !settlements[id].state.Scheduled? {
        return;
      }
      var state := SettlementState.Confirmed;
      if hold {
        state := Held;
      }
      settlements := settlements[id := settlements[id].(state := state)];
    }

    // ----- The scans

    /** `stale` is what the query selected; a transaction that refuses is skipped. */
    method ExpireUnpaidOrders(stale: seq<(Id, OrderState)>) returns (expired: nat)
      requires forall i :: 0 <= i < |stale| ==> Unpaid(stale[i].1)
      modifies this
      ensures Snapshot() == Resume(old(Snapshot()), Expiries(stale))
      ensures expired == Succeeded(old(Snapshot()), Expiries(stale))
    {
      expired := 0;
      for i := 0 to |stale|
        invariant Snapshot() == Resume(old(Snapshot()), Expiries(stale[..i]))
        invariant expired == Succeeded(old(Snapshot()), Expiries(stale[..i]))
      {
        var before := Snapshot();
        var refused := ExpireOrder(stale[i].0, stale[i].1);
        NextExpiry(old(Snapshot()), stale, i);
        if refused.None? {
          expired := expired + 1;
        }
      }
      assert stale[..|stale|] == stale;
    }

    method AutoAcceptDeliveries(ripe: seq<Id>, feeSetting: Option<real>) returns (accepted: nat)
      modifies this
      ensures Snapshot() == Resume(old(Snapshot()), Acceptances(ripe, feeSetting))
      ensures accepted == Succeeded(old(Snapshot()), Acceptances(ripe, feeSetting))
    {
      accepted := 0;
      var rate := FeeRate(feeSetting);
      for i := 0 to |ripe|
        invariant Snapshot() == Resume(old(Snapshot()), Acceptances(ripe[..i], feeSetting))
        invariant accepted == Succeeded(old(Snapshot()), Acceptances(ripe[..i], feeSetting))
      {
        var refused := AutoAccept(ripe[i], rate);
        NextAcceptance(old(Snapshot()), ripe, feeSetting, i);
        if refused.None? {
          accepted := accepted + 1;
        }
      }
      assert ripe[..|ripe|] == ripe;
    }

    /** Each due settlement goes on hold when its order's risk says so, and is confirmed otherwise, if the
        deployment confirms on its own. */
    method ProcessDueSettlements(due: seq<(Id, bool)>, auto: bool) returns (processed: nat)
      modifies this
      ensures Snapshot() == Resume(old(Snapshot()), Decisions(due, auto)) && processed == |Decisions(due, auto)|
    {
      processed := 0;
      for i := 0 to |due|
        invariant Snapshot() == Resume(old(Snapshot()), Decisions(due[..i], auto))
        invariant processed == |Decisions(due[..i], auto)|
      {
        NextDecision(old(Snapshot()), due, auto, i);
        var hold := due[i].1;
        if !hold && !auto {
          continue;
        }
        ApplySettlementDecision(due[i].0, hold);
        processed := processed + 1;
      }
      assert due[..|due|] == due;
    }
  }

  lemma AddWraps(total: int, amount: int)
    ensures Wrap(Wrap(total) + amount) == Wrap(total + amount)
  {
    WrapEqual(Wrap(total) + amount, total + amount);
  }

  // ----- Runs from any state

  function Resume(db: Db, actions: seq<Action>): Db {
    if actions == [] then db else Step(Resume(db, actions[..|actions| - 1]), actions[|actions| - 1])
  }

  /** How many of the transactions go through, each on what the ones before left. */
  function Succeeded(db: Db, actions: seq<Action>): nat {
    if actions == [] then 0
    else
      var front := actions[..|actions| - 1];
      Succeeded(db, front) + if Attempt(Resume(db, front), actions[|actions| - 1]).Ok? then 1 else 0
  }

  /** Whatever a scan does is a continuation of the platform's run, so everything proved of runs holds after it. */
  lemma {:induction false} ResumeIsRun(actions: seq<Action>, more: seq<Action>)
    ensures Resume(Run(actions), more) == Run(actions + more)
  {
    if more == [] {
      assert actions + more == actions;
    } else {
      ResumeIsRun(actions, more[..|more| - 1]);
      assert (actions + more)[..|actions + more| - 1] == actions + more[..|more| - 1];
    }
  }

  function Expiries(stale: seq<(Id, OrderState)>): seq<Action> {
    seq(|stale|, i requires 0 <= i < |stale| => DoExpire(stale[i].0, stale[i].1))
  }

  function Acceptances(ripe: seq<Id>, feeSetting: Option<real>): seq<Action> {
    seq(|ripe|, i requires 0 <= i < |ripe| => DoAutoAccept(ripe[i], feeSetting))
  }

  function Decisions(due: seq<(Id, bool)>, auto: bool): seq<Action> {
    if due == [] then []
    else
      var before, last := Decisions(due[..|due| - 1], auto), due[|due| - 1];
      if last.1 || auto then before + [DoDecide(last.0, last.1)] else before
  }

  lemma ResumeOne(db: Db, actions: seq<Action>, a: Action)
    ensures Resume(db, actions + [a]) == Step(Resume(db, actions), a)
    ensures Succeeded(db, actions + [a])
         == Succeeded(db, actions) + if Attempt(Resume(db, actions), a).Ok? then 1 else 0
  {
    assert (actions + [a])[..|actions|] == actions;
  }

  lemma NextExpiry(db: Db, stale: seq<(Id, OrderState)>, i: nat)
    requires i < |stale|
    ensures Resume(db, Expiries(stale[..i + 1]))
              == Step(Resume(db, Expiries(stale[..i])), DoExpire(stale[i].0, stale[i].1))
    ensures Succeeded(db, Expiries(stale[..i + 1]))
         == Succeeded(db, Expiries(stale[..i]))
            + if Attempt(Resume(db, Expiries(stale[..i])), DoExpire(stale[i].0, stale[i].1)).Ok? then 1 else 0
  {
    assert Expiries(stale[..i + 1]) == Expiries(stale[..i]) + [DoExpire(stale[i].0, stale[i].1)];
    ResumeOne(db, Expiries(stale[..i]), DoExpire(stale[i].0, stale[i].1));
  }

  lemma NextAcceptance(db: Db, ripe: seq<Id>, feeSetting: Option<real>, i: nat)
    requires i < |ripe|
    ensures Resume(db, Acceptances(ripe[..i + 1], feeSetting))
         == Step(Resume(db, Acceptances(ripe[..i], feeSetting)), DoAutoAccept(ripe[i], feeSetting))
    ensures Succeeded(db, Acceptances(ripe[..i + 1], feeSetting))
         == Succeeded(db, Acceptances(ripe[..i], feeSetting))
            + if Attempt(Resume(db, Acceptances(ripe[..i], feeSetting)), DoAutoAccept(ripe[i], feeSetting)).Ok? then 1
              else 0
  {
    assert Acceptances(ripe[..i + 1], feeSetting)
             == Acceptances(ripe[..i], feeSetting) + [DoAutoAccept(ripe[i], feeSetting)];
    ResumeOne(db, Acceptances(ripe[..i], feeSetting), DoAutoAccept(ripe[i], feeSetting));
  }

  lemma NextDecision(db: Db, due: seq<(Id, bool)>, auto: bool, i: nat)
    requires i < |due|
    ensures Resume(db, Decisions(due[..i + 1], auto))
         == if due[i].1 || auto then
              Market.ApplySettlementDecision(Resume(db, Decisions(due[..i], auto)), due[i].0, due[i].1)
            else Resume(db, Decisions(due[..i], auto))
    ensures |Decisions(due[..i + 1], auto)| == |Decisions(due[..i], auto)| + if due[i].1 || auto then 1 else 0
  {
    assert due[..i + 1][..i] == due[..i];
    ResumeOne(db, Decisions(due[..i], auto), DoDecide(due[i].0, due[i].1));
  }
}
