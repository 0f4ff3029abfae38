/** Whether the settlement of a disputed order stays frozen, over whole runs. */
module Freezes {
  import opened Wrappers
  import opened Ledger
  import opened Pricing
  import opened Market
  import opened Books
  import opened EscrowRuns
  import opened EscrowTheorems
  import opened DisputeTheorems

  /** What an operator's action and the background decision make of a settlement, by its state alone. */
  function Acted(state: SettlementState, act: SettlementAct): SettlementState {
    match act
    case HoldIt => if state.Scheduled? || state.Confirmed? then Held else state
    case ReleaseIt => if state.Held? then Scheduled else state
    case CompleteIt => if state.Scheduled? || state.Confirmed? then PaidOut else state
  }

  function Moved(state: SettlementState, a: Action, id: Id): SettlementState {
    match a
    case DoSettlement(settled, act) => if settled == id then Acted(state, act) else state
    case DoDecide(settled, hold) =>
      if settled == id && state.Scheduled? then (if hold then Held else Confirmed) else state
    case _ => state
  }

  /** The state after all of them, in order. */
  function MovedBy(state: SettlementState, actions: seq<Action>, id: Id): SettlementState {
    if actions == [] then state else Moved(MovedBy(state, actions[..|actions| - 1], id), actions[|actions| - 1], id)
  }

  /** The order has a settlement in this state. */
  predicate SettledAs(db: Db, id: Id, state: SettlementState) {
    id in db.settlements && db.settlements[id].state == state
  }

  predicate InDispute(db: Db, id: Id) {
    id in db.orders && db.orders[id].state.Disputed?
  }

  // ----- What a transaction does to the row

  predicate SameRow(db: Db, after: Db, id: Id) {
    SettlementOf(after, id) == SettlementOf(db, id)
  }

  lemma RefundKeepsRows(db: Db, id: Id, refund: int, after: Db)
    requires id in db.orders && BookRefund(db, id, refund) == Ok(after)
    ensures after.settlements == db.settlements
  {
  }

  lemma MoveKeepsRows(db: Db, id: Id, to: OrderState, after: Db)
    requires id in db.orders && ApplyTransition(db, id, to) == Ok(after)
    ensures after.settlements == db.settlements
  {
    if to.Cancelled? || to.Refunded? {
      var returned := EndingShape(db, id, to, after);
      if EscrowBalance(db, id) > 0 {
        RefundKeepsRows(db, id, EscrowBalance(db, id), returned);
      }
    }
  }

  lemma ConfirmingAddsRow(db: Db, confirmed: Id, rate: real, after: Db, id: Id)
    requires confirmed in db.orders && AcceptAndSettle(db, confirmed, rate) == Ok(after) && id in db.settlements
    ensures SameRow(db, after, id)
  {
    PlainMove(db, confirmed, Accepted);
  }

  lemma RedividingKeepsOthers(db: Db, decided: Id, refund: int, rate: real, after: Db, id: Id)
    requires decided in db.orders && Redivide(db, decided, refund, rate) == Ok(after) && id != decided
    ensures SameRow(db, after, id)
  {
    var unwound, refunded := RedivideSteps(db, decided, refund, rate, after);
    RefundKeepsRows(unwound, decided, refund, refunded);
  }

  lemma ResolvingKeepsOthers(db: Db, dispute: Id, outcome: Outcome, rate: real, after: Db, id: Id)
    requires ResolveDispute(db, dispute, outcome, rate) == Ok(after)
    ensures dispute in db.disputes && (id != db.disputes[dispute].order ==> SameRow(db, after, id))
  {
    ResolveOpens(db, dispute, outcome, rate, after);
    var decided := db.disputes[dispute].order;
    var refund := RefundOf(outcome, db.orders[decided].amount);
    var rebooked := RedistributeSteps(db, dispute, decided, refund, rate, after);
    if id != decided {
      RedividingKeepsOthers(db, decided, refund, rate, rebooked, id);
    }
    MoveKeepsRows(rebooked.(disputes := rebooked.disputes[dispute := Dispute(decided, false)]), decided,
                  if refund == db.orders[decided].amount then Refunded else Completed, after);
  }

  /** A resolution ends the order it decides. */
  lemma ResolvingEnds(db: Db, dispute: Id, outcome: Outcome, rate: real, after: Db)
    requires Consistent(db) && 0.0 <= rate <= 100.0 && ResolveDispute(db, dispute, outcome, rate) == Ok(after)
    ensures dispute in db.disputes && !InDispute(after, db.disputes[dispute].order)
  {
    var refunded := Resolving(db, dispute, outcome, rate, after);
  }

  lemma WorkKeepsRow(db: Db, a: Action, id: Id)
    requires id in db.settlements && Attempt(db, a).Ok?
    requires a.DoSubmitRequirement? || a.DoDeliver? || a.DoRevise? || a.DoAccept? || a.DoAutoAccept? || a.DoTransition?
    ensures SameRow(db, Step(db, a), id)
  {
    var after := Step(db, a);
    match a
    case DoSubmitRequirement(_, _) =>
    case DoDeliver(_, moved) => MoveKeepsRows(db, moved, Delivered, after);
    case DoRevise(_, moved, _) => MoveKeepsRows(db, moved, RevisionRequested, after);
    case DoAccept(_, moved, setting) => ConfirmingAddsRow(db, moved, FeeRate(setting), after, id);
    case DoAutoAccept(moved, setting) =>
      if db.orders[moved].state.Delivered? {
        ConfirmingAddsRow(db, moved, FeeRate(setting), after, id);
      }
    case DoTransition(_, moved, to, _, setting) =>
      if to.Accepted? {
        ConfirmingAddsRow(db, moved, FeeRate(setting), after, id);
      } else {
        MoveKeepsRows(db, moved, to, after);
      }
  }

  lemma EndKeepsRow(db: Db, a: Action, id: Id)
    requires id in db.settlements && Attempt(db, a).Ok? && (a.DoExpire? || a.DoReview?)
    ensures SameRow(db, Step(db, a), id)
  {
    var after := Step(db, a);
    if after != db {
      match a
      case DoExpire(moved, _) => MoveKeepsRows(db.(redemptions := db.redemptions - {moved}), moved, Cancelled, after);
      case DoReview(_, moved) =>
        if db.orders[moved].state.Accepted? {
          MoveKeepsRows(db.(reviews := db.reviews + {moved}), moved, Completed, after);
        }
    }
  }

  lemma PayKeepsRow(db: Db, a: Action, id: Id)
    requires a.DoCreate? || a.DoOpenBudget? || a.DoPay?
    ensures SameRow(db, Step(db, a), id)
  {
    if a.DoPay? && Attempt(db, a).Ok? {
      PayOutcome(db, a.who, a.id, a.key, a.payment, Step(db, a));
    }
  }

  lemma OpeningKeepsOthers(db: Db, who: Principal, frozen: Id, dispute: Id, after: Db, id: Id)
    requires OpenDispute(db, who, frozen, dispute) == Ok(after) && InDispute(db, id)
    ensures SameRow(db, after, id)
  {
    MoveKeepsRows(db.(disputes := db.disputes[dispute := Dispute(frozen, true)],
                      settlements := Frozen(db.settlements, frozen)),
                  frozen, Disputed, after);
  }

  lemma SettlementMoves(db: Db, settled: Id, act: SettlementAct, id: Id)
    requires Consistent(db) && id in db.settlements
    ensures SettledAs(Step(db, DoSettlement(settled, act)), id,
                      Moved(db.settlements[id].state, DoSettlement(settled, act), id))
  {
    if settled == id && act.CompleteIt? {
      Look(db, id);
      PayoutAccepted(db.settlements[id].net);
    }
  }

  /** While an order stays disputed nothing but the operator's actions on its settlement and the background
      decision over it moves the row. */
  lemma StepMovesRow(db: Db, a: Action, id: Id)
    requires Consistent(db) && InDispute(db, id) && id in db.settlements && InDispute(Step(db, a), id)
    ensures SettledAs(Step(db, a), id, Moved(db.settlements[id].state, a, id))
  {
    if a.DoSettlement? {
      SettlementMoves(db, a.id, a.act, id);
    } else if a.DoDecide? || Attempt(db, a).Err? {
    } else {
      var after := Step(db, a);
      assert SameRow(db, after, id) by {
        if a.DoResolve? {
          ResolvingEnds(db, a.dispute, a.outcome, FeeRate(a.feeSetting), after);
          ResolvingKeepsOthers(db, a.dispute, a.outcome, FeeRate(a.feeSetting), after, id);
        } else if a.DoOpenDispute? {
          OpeningKeepsOthers(db, a.who, a.id, a.dispute, after, id);
        } else if a.DoExpire? || a.DoReview? {
          EndKeepsRow(db, a, id);
        } else if a.DoCreate? || a.DoOpenBudget? || a.DoPay? {
          PayKeepsRow(db, a, id);
        } else {
          WorkKeepsRow(db, a, id);
        }
      }
    }
  }

  // ----- Over whole runs

  /** A disputed order that has left the dispute does not come back to it. */
  lemma {:induction false} DisputeIsLeftOnce(actions: seq<Action>, more: seq<Action>, i: nat, id: Id)
    requires i <= |more| && InDispute(Run(actions), id) && InDispute(Run(actions + more), id)
    ensures InDispute(Run(actions + more[..i]), id)
  {
    assert more[..0] == [] && actions + [] == actions;
    if i > 0 {
      var here := actions + more[..i];
      DisputedOrFinal(actions, more[..i], id);
      if Final(Run(here).orders[id].state) {
        assert actions + more == here + more[i..];
        FinalForever(here, more[i..], id);
      }
    }
  }

  lemma LeavesToFinal(order: Order, s: Option<Settlement>, b: Books, order': Order, s': Option<Settlement>, b': Books)
    requires Evolution(order, s, b, order', s', b') && (order.state.Disputed? || Final(order.state))
    ensures order'.state.Disputed? || Final(order'.state)
  {
  }

  lemma StepFromDispute(db: Db, after: Db, id: Id)
    requires Evolves(db, after) && id in db.orders && (InDispute(db, id) || Final(db.orders[id].state))
    ensures id in after.orders && (InDispute(after, id) || Final(after.orders[id].state))
  {
    LeavesToFinal(db.orders[id], SettlementOf(db, id), BooksOf(db, id),
                  after.orders[id], SettlementOf(after, id), BooksOf(after, id));
  }

  lemma {:induction false} DisputedOrFinal(actions: seq<Action>, more: seq<Action>, id: Id)
    requires InDispute(Run(actions), id)
    ensures id in Run(actions + more).orders
    ensures InDispute(Run(actions + more), id) || Final(Run(actions + more).orders[id].state)
  {
    if more == [] {
      assert actions + more == actions;
    } else {
      var front, a := more[..|more| - 1], more[|more| - 1];
      DisputedOrFinal(actions, front, id);
      assert actions + more == (actions + front) + [a];
      RunAppend(actions + front, a);
      RunKeeps(actions + front);
      StepKeeps(Run(actions + front), a);
      StepFromDispute(Run(actions + front), Run(actions + more), id);
    }
  }

  /** As long as the order is disputed, its settlement is exactly what the operator's actions and the background
      decision made of it, whatever else ran. */
  lemma {:induction false} RowFollowsActions(actions: seq<Action>, more: seq<Action>, id: Id)
    requires InDispute(Run(actions), id) && id in Run(actions).settlements && InDispute(Run(actions + more), id)
    ensures SettledAs(Run(actions + more), id, MovedBy(Run(actions).settlements[id].state, more, id))
  {
    if more == [] {
      assert actions + more == actions;
    } else {
      var front, a := more[..|more| - 1], more[|more| - 1];
      DisputeIsLeftOnce(actions, more, |more| - 1, id);
      RowFollowsActions(actions, front, id);
      assert actions + more == (actions + front) + [a];
      RunAppend(actions + front, a);
      RunKeeps(actions + front);
      StepMovesRow(Run(actions + front), a, id);
    }
  }

  lemma {:induction false} HeldWithoutRelease(actions: seq<Action>, id: Id)
    requires DoSettlement(id, ReleaseIt) !in actions
    ensures MovedBy(Held, actions, id) == Held
  {
    if actions != [] {
      HeldWithoutRelease(actions[..|actions| - 1], id);
    }
  }

  lemma {:induction false} UnpaidWithoutCompletion(actions: seq<Action>, id: Id)
    requires DoSettlement(id, CompleteIt) !in actions
    ensures !MovedBy(Held, actions, id).PaidOut?
  {
    if actions != [] {
      UnpaidWithoutCompletion(actions[..|actions| - 1], id);
    }
  }

  /** A frozen settlement of an order that stays disputed is frozen at every moment if and only if no operator
      releases it. */
  lemma FrozenThroughoutIff(actions: seq<Action>, more: seq<Action>, id: Id)
    requires InDispute(Run(actions), id) && SettledAs(Run(actions), id, Held) && InDispute(Run(actions + more), id)
    ensures (forall i :: 0 <= i <= |more| ==> SettledAs(Run(actions + more[..i]), id, Held))
            <==> DoSettlement(id, ReleaseIt) !in more
  {
    forall i | 0 <= i <= |more|
      ensures SettledAs(Run(actions + more[..i]), id, MovedBy(Held, more[..i], id))
    {
      DisputeIsLeftOnce(actions, more, i, id);
      RowFollowsActions(actions, more[..i], id);
    }
    if DoSettlement(id, ReleaseIt) in more {
      var i :| 0 <= i < |more| && more[i] == DoSettlement(id, ReleaseIt);
      assert more[..i + 1][..i] == more[..i];
      assert MovedBy(Held, more[..i + 1], id) == Moved(MovedBy(Held, more[..i], id), more[i], id);
      assert SettledAs(Run(actions + more[..i]), id, Held) ==> !SettledAs(Run(actions + more[..i + 1]), id, Held);
    } else {
      forall i | 0 <= i <= |more| ensures MovedBy(Held, more[..i], id) == Held {
        HeldWithoutRelease(more[..i], id);
      }
    }
  }

  /** Only these actions of an operator are done to the order's settlement. */
  predicate Confined(actions: seq<Action>, id: Id, permitted: set<SettlementAct>) {
    forall i :: 0 <= i < |actions| && actions[i].DoSettlement? && actions[i].id == id ==> actions[i].act in permitted
  }

  ghost predicate NeverPaidInDispute(actions: seq<Action>, id: Id, permitted: set<SettlementAct>) {
    forall more :: Confined(more, id, permitted) && InDispute(Run(actions + more), id)
      ==> !SettledAs(Run(actions + more), id, PaidOut)
  }

  /** So a freeze protects the money of a dispute if and only if nobody may both release and pay out: whatever
      else runs, a frozen settlement is not paid out while its order is disputed exactly when one of the two
      actions is not to be had. */
  lemma FreezeProtectsIff(actions: seq<Action>, id: Id, permitted: set<SettlementAct>)
    requires InDispute(Run(actions), id) && SettledAs(Run(actions), id, Held)
    ensures NeverPaidInDispute(actions, id, permitted) <==> !(ReleaseIt in permitted && CompleteIt in permitted)
  {
    if ReleaseIt in permitted && CompleteIt in permitted {
      var more := [DoSettlement(id, ReleaseIt), DoSettlement(id, CompleteIt)];
      LiftedRun(actions, id);
      assert Confined(more, id, permitted);
    } else {
      forall more | Confined(more, id, permitted) && InDispute(Run(actions + more), id)
        ensures !SettledAs(Run(actions + more), id, PaidOut)
      {
        RowFollowsActions(actions, more, id);
        if ReleaseIt !in permitted {
          HeldWithoutRelease(more, id);
        } else {
          UnpaidWithoutCompletion(more, id);
        }
      }
    }
  }

  lemma LiftedSteps(db: Db, id: Id)
    requires InDispute(db, id) && SettledAs(db, id, Held) && 0 <= db.settlements[id].net
    ensures
      var after := Step(Step(db, DoSettlement(id, ReleaseIt)), DoSettlement(id, CompleteIt));
      InDispute(after, id) && SettledAs(after, id, PaidOut)
  {
    LiftedAndPaid(db, id, db.settlements[id].net);
  }

  lemma NetIsPositive(db: Db, id: Id)
    requires Consistent(db) && id in db.settlements
    ensures 0 <= db.settlements[id].net
  {
    Look(db, id);
  }

  /** Releasing and completing is a run of two transactions that pays out and leaves the order disputed. */
  lemma LiftedRun(actions: seq<Action>, id: Id)
    requires InDispute(Run(actions), id) && SettledAs(Run(actions), id, Held)
    ensures
      var db := Run(actions + [DoSettlement(id, ReleaseIt), DoSettlement(id, CompleteIt)]);
      InDispute(db, id) && SettledAs(db, id, PaidOut)
  {
    var release, complete := DoSettlement(id, ReleaseIt), DoSettlement(id, CompleteIt);
    RunAppend(actions, release);
    RunAppend(actions + [release], complete);
    assert actions + [release] + [complete] == actions + [release, complete];
    RunKeeps(actions);
    NetIsPositive(Run(actions), id);
    LiftedSteps(Run(actions), id);
  }
}
