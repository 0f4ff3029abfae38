/** Organization budgets against the orders that use them, over whole runs. */
module Budgets {
  import opened Wrappers
  import opened Int64
  import opened Ledger
  import opened Pricing
  import opened Market
  import opened Books
  import opened EscrowRuns

  // ----- What the orders of a budget hold together

  function Part(order: Order, budget: Id): int {
    if order.budget == Some(budget) then order.consumed else 0
  }

  ghost function Held(orders: map<Id, Order>, ids: set<Id>, budget: Id): int
    requires ids <= orders.Keys
  {
    if ids == {} then 0
    else
      var id :| id in ids;
      Part(orders[id], budget) + Held(orders, ids - {id}, budget)
  }

  lemma {:induction false} HeldSplit(orders: map<Id, Order>, ids: set<Id>, id: Id, budget: Id)
    requires ids <= orders.Keys && id in ids
    ensures Held(orders, ids, budget) == Part(orders[id], budget) + Held(orders, ids - {id}, budget)
  {
    var first :| first in ids
      && Held(orders, ids, budget) == Part(orders[first], budget) + Held(orders, ids - {first}, budget);
    if first != id {
      HeldSplit(orders, ids - {first}, id, budget);
      HeldSplit(orders, ids - {id}, first, budget);
      assert ids - {first} - {id} == ids - {id} - {first};
    }
  }

  lemma {:induction false} HeldSame(orders: map<Id, Order>, others: map<Id, Order>, ids: set<Id>, budget: Id)
    requires ids <= orders.Keys && ids <= others.Keys
    requires forall id :: id in ids ==> Part(orders[id], budget) == Part(others[id], budget)
    ensures Held(orders, ids, budget) == Held(others, ids, budget)
  {
    if ids != {} {
      var id :| id in ids;
      HeldSplit(orders, ids, id, budget);
      HeldSplit(others, ids, id, budget);
      HeldSame(orders, others, ids - {id}, budget);
    }
  }

  lemma {:induction false} HeldAtLeast(orders: map<Id, Order>, ids: set<Id>, budget: Id)
    requires ids <= orders.Keys && forall id :: id in ids ==> 0 <= orders[id].consumed
    ensures 0 <= Held(orders, ids, budget)
  {
    if ids != {} {
      var id :| id in ids;
      HeldSplit(orders, ids, id, budget);
      HeldAtLeast(orders, ids - {id}, budget);
    }
  }

  /** Changing one order changes the total by that order's part. */
  lemma HeldUpdate(orders: map<Id, Order>, id: Id, order: Order, budget: Id)
    ensures
      var after := orders[id := order];
      Held(after, after.Keys, budget)
      == Held(orders, orders.Keys, budget) + Part(order, budget) - if id in orders then Part(orders[id], budget) else 0
  {
    var after := orders[id := order];
    HeldSplit(after, after.Keys, id, budget);
    HeldSame(orders, after, after.Keys - {id}, budget);
    if id in orders {
      HeldSplit(orders, orders.Keys, id, budget);
      assert after.Keys - {id} == orders.Keys - {id};
    } else {
      assert after.Keys - {id} == orders.Keys;
    }
  }

  // ----- The invariant

  predicate ReservedOk(order: Order, budgets: map<Id, Budget>) {
    && 0 <= order.consumed <= Greatest(0, order.amount - order.discount)
    && (order.budget.None? ==> order.consumed == 0)
    && (order.budget.Some? ==> order.budget.value in budgets)
    && (order.state.Cancelled? || order.state.Refunded? ==> order.consumed == 0)
  }

  ghost predicate BudgetOk(db: Db, budget: Id)
    requires budget in db.budgets
  {
    var b := db.budgets[budget];
    && 0 <= b.consumed <= b.amount <= MAX
    && b.consumed == Held(db.orders, db.orders.Keys, budget)
  }

  ghost predicate Budgeted(db: Db) {
    && (forall id :: id in db.orders ==> ReservedOk(db.orders[id], db.budgets))
    && (forall budget :: budget in db.budgets ==> BudgetOk(db, budget))
  }

  /** No budget ever holds less than one of its orders: the GREATEST clamp in a release is inert. */
  lemma ClampInert(db: Db, id: Id)
    requires Budgeted(db) && id in db.orders && db.orders[id].budget.Some?
    ensures db.orders[id].budget.value in db.budgets
    ensures db.orders[id].consumed <= db.budgets[db.orders[id].budget.value].consumed
  {
    assert ReservedOk(db.orders[id], db.budgets);
    var budget := db.orders[id].budget.value;
    assert BudgetOk(db, budget);
    HeldSplit(db.orders, db.orders.Keys, id, budget);
    forall other | other in db.orders.Keys - {id} ensures 0 <= db.orders[other].consumed {
      assert ReservedOk(db.orders[other], db.budgets);
    }
    HeldAtLeast(db.orders, db.orders.Keys - {id}, budget);
  }

  // ----- Giving back

  /** `budgets` with `release` less consumed on `budget`, if there is one. */
  function Lowered(budgets: map<Id, Budget>, budget: Option<Id>, release: int): map<Id, Budget> {
    if budget.Some? && budget.value in budgets then
      budgets[budget.value := budgets[budget.value].(consumed := budgets[budget.value].consumed - release)]
    else budgets
  }

  /** Order `id` gave back `release` of what it held, its budget got exactly that, and no other order
      and no other budget changed. */
  ghost predicate Freed(db: Db, after: Db, id: Id, release: int) {
    && id in db.orders && id in after.orders
    && 0 <= release <= db.orders[id].consumed
    && after.orders == db.orders[id := after.orders[id]]
    && after.orders[id] == db.orders[id].(state := after.orders[id].state, consumed := db.orders[id].consumed - release)
    && after.budgets == Lowered(db.budgets, db.orders[id].budget, release)
  }

  lemma FreedThen(a: Db, b: Db, c: Db, id: Id, first: int, second: int)
    requires Freed(a, b, id, first) && Freed(b, c, id, second)
    ensures Freed(a, c, id, first + second)
  {
    assert c.orders == a.orders[id := c.orders[id]];
    assert c.budgets == Lowered(a.budgets, a.orders[id].budget, first + second);
  }

  lemma FreedKeeps(db: Db, after: Db, id: Id, release: int)
    requires Budgeted(db) && Freed(db, after, id, release)
    requires after.orders[id].state.Cancelled? || after.orders[id].state.Refunded? ==> after.orders[id].consumed == 0
    ensures Budgeted(after)
  {
    forall other | other in after.orders ensures ReservedOk(after.orders[other], after.budgets) {
      assert ReservedOk(db.orders[other], db.budgets);
    }
    forall budget | budget in after.budgets ensures BudgetOk(after, budget) {
      assert BudgetOk(db, budget);
      HeldUpdate(db.orders, id, after.orders[id], budget);
      assert 0 <= after.budgets[budget].consumed by {
        if db.orders[id].budget == Some(budget) {
          ClampInert(db, id);
        }
      }
    }
  }

  lemma Unmoved(db: Db, after: Db, id: Id)
    requires id in db.orders && id in after.orders && 0 <= db.orders[id].consumed
    requires after.orders == db.orders[id := db.orders[id].(state := after.orders[id].state)]
             && after.budgets == db.budgets
    ensures Freed(db, after, id, 0)
  {
    assert after.budgets == Lowered(db.budgets, db.orders[id].budget, 0);
  }

  lemma ReleaseFrees(db: Db, id: Id, upTo: int)
    requires Budgeted(db) && id in db.orders
    ensures Freed(db, ReleaseBudget(db, id, upTo), id, Released(db.orders[id].consumed, upTo))
    ensures Budgeted(ReleaseBudget(db, id, upTo))
  {
    var order, after := db.orders[id], ReleaseBudget(db, id, upTo);
    assert ReservedOk(order, db.budgets);
    if order.budget.Some? && order.consumed > 0 {
      ClampInert(db, id);
    } else {
      Unmoved(db, after, id);
    }
    FreedKeeps(db, after, id, Released(order.consumed, upTo));
  }

  /** Only the orders and the budgets count here. */
  lemma SameTables(db: Db, other: Db)
    requires Budgeted(db) && other.orders == db.orders && other.budgets == db.budgets
    ensures Budgeted(other)
  {
    forall budget | budget in other.budgets ensures BudgetOk(other, budget) {
      assert BudgetOk(db, budget);
    }
  }

  lemma FreedFrom(db: Db, other: Db, after: Db, id: Id, release: int)
    requires other.orders == db.orders && other.budgets == db.budgets && Freed(other, after, id, release)
    ensures Freed(db, after, id, release)
  {
  }

  /** What booking a refund takes off the order's reservation. */
  function RefundRelease(order: Order, refund: int): int {
    if refund <= 0 then 0 else Released(order.consumed, BuyerShare(refund, order.amount, order.discount))
  }

  lemma RefundFrees(db: Db, id: Id, refund: int, after: Db)
    requires Budgeted(db) && id in db.orders && BookRefund(db, id, refund) == Ok(after)
    ensures Freed(db, after, id, RefundRelease(db.orders[id], refund)) && Budgeted(after)
  {
    assert ReservedOk(db.orders[id], db.budgets);
    if refund <= 0 {
      Unmoved(db, after, id);
    } else {
      var share := BuyerShare(refund, db.orders[id].amount, db.orders[id].discount);
      var recorded := if share > 0 then db.(refunds := db.refunds + [Refund(id, share)]) else db;
      var posted := recorded.(ledger := recorded.ledger + Posted(id, RefundLines(refund, share)));
      assert after == ReleaseBudget(posted, id, share);
      SameTables(db, posted);
      ReleaseFrees(posted, id, share);
      FreedFrom(db, posted, after, id, Released(db.orders[id].consumed, share));
    }
  }

  /** A refund takes off exactly the buyer's share, or all that is left, if and only if that share is
      positive or nothing was held. */
  lemma RefundReleasesShareIff(db: Db, id: Id, refund: int, after: Db)
    requires Budgeted(db) && id in db.orders && BookRefund(db, id, refund) == Ok(after) && refund > 0
    ensures
      var order, share := db.orders[id], BuyerShare(refund, db.orders[id].amount, db.orders[id].discount);
      && id in after.orders
      && (after.orders[id].consumed == order.consumed - Least(order.consumed, share) <==>
          share > 0 || order.consumed == 0)
      && (share <= 0 ==> after.orders[id].consumed == 0)
  {
    RefundFrees(db, id, refund, after);
    assert ReservedOk(db.orders[id], db.budgets);
    AcceptedShare(db, id, refund, after);
  }

  lemma AcceptedShare(db: Db, id: Id, refund: int, after: Db)
    requires id in db.orders && BookRefund(db, id, refund) == Ok(after) && refund > 0
    ensures 0 <= BuyerShare(refund, db.orders[id].amount, db.orders[id].discount)
  {
    var share := BuyerShare(refund, db.orders[id].amount, db.orders[id].discount);
    assert RefundLines(refund, share)[1].amount == share;
  }

  lemma EndingFrees(db: Db, id: Id, to: OrderState, after: Db)
    requires Budgeted(db) && id in db.orders && ApplyTransition(db, id, to) == Ok(after)
    ensures Freed(db, after, id, if to.Cancelled? || to.Refunded? then db.orders[id].consumed else 0)
    ensures after.orders[id].state == to && Budgeted(after)
  {
    assert ReservedOk(db.orders[id], db.budgets);
    if to.Cancelled? || to.Refunded? {
      var returned := EndingShape(db, id, to, after);
      var first := BeforeEnding(db, id, returned);
      EndingReleases(db, returned, id, first, to);
    } else {
      Unmoved(db, after, id);
    }
    FreedKeeps(db, after, id, if to.Cancelled? || to.Refunded? then db.orders[id].consumed else 0);
  }

  lemma EndingReleases(db: Db, returned: Db, id: Id, first: int, to: OrderState)
    requires Budgeted(returned) && Freed(db, returned, id, first)
    ensures Freed(db, SetState(ReleaseBudget(returned, id, 0), id, to), id, db.orders[id].consumed)
  {
    var released := ReleaseBudget(returned, id, 0);
    ReleaseFrees(returned, id, 0);
    FreedThen(db, returned, released, id, first, returned.orders[id].consumed);
    Unmoved(released, SetState(released, id, to), id);
    FreedThen(db, released, SetState(released, id, to), id, db.orders[id].consumed, 0);
  }

  lemma BeforeEnding(db: Db, id: Id, returned: Db) returns (first: int)
    requires Budgeted(db) && id in db.orders
    requires if EscrowBalance(db, id) > 0 then BookRefund(db, id, EscrowBalance(db, id)) == Ok(returned)
             else returned == db
    ensures Freed(db, returned, id, first) && Budgeted(returned)
  {
    assert ReservedOk(db.orders[id], db.budgets);
    if EscrowBalance(db, id) > 0 {
      RefundFrees(db, id, EscrowBalance(db, id), returned);
      first := RefundRelease(db.orders[id], EscrowBalance(db, id));
    } else {
      Unmoved(db, returned, id);
      first := 0;
    }
  }

  // ----- Transaction by transaction

  lemma CreateBudgeted(db: Db, id: Id, buyer: Id, seller: Id, price: int, coupon: Option<CouponUse>,
                       budget: Option<Id>, after: Db)
    requires Budgeted(db) && CreateOrder(db, id, buyer, seller, price, coupon, budget) == Ok(after)
    ensures Budgeted(after)
  {
    var order := after.orders[id];
    var payable := price - order.discount;
    assert ReserveBudget(db.budgets, budget, payable) == Ok((after.budgets, order.budget, order.consumed));
    assert after.orders == db.orders[id := order] && id !in db.orders;
    Reserving(db, id, order, budget, payable, after);
  }

  lemma Reserving(db: Db, id: Id, order: Order, budget: Option<Id>, payable: int, after: Db)
    requires Budgeted(db) && id !in db.orders && after.orders == db.orders[id := order]
    requires ReserveBudget(db.budgets, budget, payable) == Ok((after.budgets, order.budget, order.consumed))
    requires order.state.Created? && payable == order.amount - order.discount
    ensures Budgeted(after)
  {
    forall other | other in after.orders ensures ReservedOk(after.orders[other], after.budgets) {
      if other != id {
        assert ReservedOk(db.orders[other], db.budgets);
      }
    }
    forall b | b in after.budgets ensures BudgetOk(after, b) {
      assert BudgetOk(db, b);
      HeldUpdate(db.orders, id, order, b);
    }
  }

  lemma OpenBudgeted(db: Db, budget: Id, amount: int, after: Db)
    requires Budgeted(db) && OpenBudget(db, budget, amount) == Ok(after)
    ensures Budgeted(after)
  {
    forall id | id in after.orders ensures ReservedOk(after.orders[id], after.budgets) {
      assert ReservedOk(db.orders[id], db.budgets);
    }
    forall b | b in after.budgets ensures BudgetOk(after, b) {
      if b == budget {
        forall id | id in db.orders.Keys ensures Part(db.orders[id], b) == 0 {
          assert ReservedOk(db.orders[id], db.budgets);
        }
        HeldNone(db.orders, db.orders.Keys, b);
      } else {
        assert BudgetOk(db, b);
      }
    }
  }

  lemma {:induction false} HeldNone(orders: map<Id, Order>, ids: set<Id>, budget: Id)
    requires ids <= orders.Keys && forall id :: id in ids ==> Part(orders[id], budget) == 0
    ensures Held(orders, ids, budget) == 0
  {
    if ids != {} {
      var id :| id in ids;
      HeldSplit(orders, ids, id, budget);
      HeldNone(orders, ids - {id}, budget);
    }
  }

  lemma PayBudgeted(db: Db, who: Principal, id: Id, key: string, payment: Id, after: Db)
    requires Budgeted(db) && PayOrder(db, who, id, key, payment) == Ok(after)
    ensures Budgeted(after)
  {
    PayOutcome(db, who, id, key, payment, after);
    if !Replays(db, id, key) {
      assert ReservedOk(db.orders[id], db.budgets);
      Unmoved(db, after, id);
      FreedKeeps(db, after, id, 0);
    }
  }

  lemma AcceptBudgeted(db: Db, id: Id, rate: real, after: Db)
    requires Budgeted(db) && id in db.orders && AcceptAndSettle(db, id, rate) == Ok(after)
    ensures Budgeted(after)
  {
    PlainMove(db, id, Accepted);
    assert ReservedOk(db.orders[id], db.budgets);
    Unmoved(db, after, id);
    FreedKeeps(db, after, id, 0);
  }

  lemma RefundBudgeted(db: Db, id: Id, refund: int, after: Db)
    requires Budgeted(db) && id in db.orders && BookRefund(db, id, refund) == Ok(after)
    ensures Budgeted(after)
  {
    RefundFrees(db, id, refund, after);
  }

  lemma RedivideBudgeted(db: Db, id: Id, refund: int, rate: real, rebooked: Db)
    requires Budgeted(db) && id in db.orders && Redivide(db, id, refund, rate) == Ok(rebooked)
    ensures Budgeted(rebooked)
  {
    var unwound, refunded := RedivideSteps(db, id, refund, rate, rebooked);
    UnwindTables(db, id, unwound);
    SameTables(db, unwound);
    RefundBudgeted(unwound, id, refund, refunded);
    RebookTables(refunded, id, db.orders[id].amount - refund, rate, rebooked);
    SameTables(refunded, rebooked);
  }

  lemma ClosingBudget(db: Db, dispute: Id, id: Id, refund: int, rebooked: Db, after: Db)
    requires Budgeted(rebooked) && id in db.orders && id in rebooked.orders
             && Closes(db, dispute, id, refund, rebooked, after)
    ensures Budgeted(after)
  {
    var closed := rebooked.(disputes := rebooked.disputes[dispute := Dispute(id, false)]);
    SameTables(rebooked, closed);
    EndingFrees(closed, id, if refund == db.orders[id].amount then Refunded else Completed, after);
  }

  lemma ResolveBudgeted(db: Db, dispute: Id, outcome: Outcome, rate: real, after: Db)
    requires Budgeted(db) && ResolveDispute(db, dispute, outcome, rate) == Ok(after)
    ensures Budgeted(after)
  {
    ResolveOpens(db, dispute, outcome, rate, after);
    var id := db.disputes[dispute].order;
    var refund := RefundOf(outcome, db.orders[id].amount);
    var rebooked := RedistributeSteps(db, dispute, id, refund, rate, after);
    RedivideBudgeted(db, id, refund, rate, rebooked);
    ClosingBudget(db, dispute, id, refund, rebooked, after);
  }

  lemma UnwindTables(db: Db, id: Id, after: Db)
    requires UnwindSettlement(db, id) == Ok(after)
    ensures after.orders == db.orders && after.budgets == db.budgets && after.redemptions == db.redemptions
  {
  }

  lemma RebookTables(db: Db, id: Id, remaining: int, rate: real, after: Db)
    requires Rebook(db, id, remaining, rate) == Ok(after)
    ensures after.orders == db.orders && after.budgets == db.budgets && after.redemptions == db.redemptions
  {
  }

  lemma SettlementTables(db: Db, id: Id, act: SettlementAct, after: Db)
    requires SettlementAction(db, id, act) == Ok(after)
    ensures after.orders == db.orders && after.budgets == db.budgets && after.redemptions == db.redemptions
  {
  }

  lemma ClosingBudgeted(db: Db, a: Action)
    requires Budgeted(db) && (a.DoExpire? || a.DoReview? || a.DoOpenDispute? || a.DoTransition?)
    ensures Budgeted(Step(db, a))
  {
    if Attempt(db, a).Ok? {
      var after := Step(db, a);
      match a
      case DoExpire(id, seen) =>
        if Unpaid(seen) && db.orders[id].state == seen {
          SameTables(db, db.(redemptions := db.redemptions - {id}));
          EndingFrees(db.(redemptions := db.redemptions - {id}), id, Cancelled, after);
        }
      case DoReview(_, id) =>
        SameTables(db, db.(reviews := db.reviews + {id}));
        if db.orders[id].state.Accepted? {
          EndingFrees(db.(reviews := db.reviews + {id}), id, Completed, after);
        }
      case DoOpenDispute(_, id, dispute) =>
        var frozen := db.(disputes := db.disputes[dispute := Dispute(id, true)],
                          settlements := Frozen(db.settlements, id));
        SameTables(db, frozen);
        EndingFrees(frozen, id, Disputed, after);
      case DoTransition(_, id, to, _, setting) =>
        if to.Accepted? {
          AcceptBudgeted(db, id, FeeRate(setting), after);
        } else {
          EndingFrees(db, id, to, after);
        }
    }
  }

  lemma DeliveryBudgeted(db: Db, a: Action)
    requires Budgeted(db) && (a.DoSubmitRequirement? || a.DoDeliver? || a.DoRevise? || a.DoAccept? || a.DoAutoAccept?)
    ensures Budgeted(Step(db, a))
  {
    if Attempt(db, a).Ok? {
      var after := Step(db, a);
      match a
      case DoSubmitRequirement(_, id) =>
        if db.orders[id].state.RequirementPending? {
          PlainMove(db, id, Ready);
          EndingFrees(db, id, Ready, after);
        }
      case DoDeliver(_, id) => EndingFrees(db, id, Delivered, after);
      case DoRevise(_, id, _) => EndingFrees(db, id, RevisionRequested, after);
      case DoAccept(_, id, setting) => AcceptBudgeted(db, id, FeeRate(setting), after);
      case DoAutoAccept(id, setting) =>
        if db.orders[id].state.Delivered? {
          AcceptBudgeted(db, id, FeeRate(setting), after);
        }
    }
  }

  lemma StepBudgeted(db: Db, a: Action)
    requires Budgeted(db)
    ensures Budgeted(Step(db, a))
  {
    var after := Step(db, a);
    if a.DoExpire? || a.DoReview? || a.DoOpenDispute? || a.DoTransition? {
      ClosingBudgeted(db, a);
    } else if a.DoSubmitRequirement? || a.DoDeliver? || a.DoRevise? || a.DoAccept? || a.DoAutoAccept? {
      DeliveryBudgeted(db, a);
    } else if Attempt(db, a).Ok? {
      match a
      case DoCreate(id, buyer, seller, price, coupon, budget) =>
        CreateBudgeted(db, id, buyer, seller, price, coupon, budget, after);
      case DoOpenBudget(budget, limit) => OpenBudgeted(db, budget, limit, after);
      case DoPay(who, id, key, payment) => PayBudgeted(db, who, id, key, payment, after);
      case DoResolve(dispute, outcome, setting) => ResolveBudgeted(db, dispute, outcome, FeeRate(setting), after);
      case DoSettlement(id, act) =>
        SettlementTables(db, id, act, after);
        SameTables(db, after);
      case DoDecide(id, hold) => SameTables(db, after);
    }
  }

  lemma {:induction false} RunBudgeted(actions: seq<Action>)
    ensures Budgeted(Run(actions))
  {
    if actions == [] {
      assert EMPTY_DB.orders.Keys == {};
    } else {
      RunBudgeted(actions[..|actions| - 1]);
      StepBudgeted(Run(actions[..|actions| - 1]), actions[|actions| - 1]);
    }
  }

  /** In every reachable state each budget has consumed exactly what its orders hold together, which is
      between nothing and its limit, and a cancelled or refunded order holds nothing. */
  lemma BudgetAccounting(actions: seq<Action>, budget: Id, id: Id)
    requires budget in Run(actions).budgets && id in Run(actions).orders
    ensures
      var db := Run(actions);
      var b, order := db.budgets[budget], db.orders[id];
      && b.consumed == Held(db.orders, db.orders.Keys, budget) && 0 <= b.consumed <= b.amount
      && 0 <= order.consumed
      && (order.budget == Some(budget) ==> order.consumed <= b.consumed)
      && (order.state.Cancelled? || order.state.Refunded? ==> order.consumed == 0)
  {
    var db := Run(actions);
    RunBudgeted(actions);
    assert BudgetOk(db, budget) && ReservedOk(db.orders[id], db.budgets);
    if db.orders[id].budget == Some(budget) {
      ClampInert(db, id);
    }
  }
}
