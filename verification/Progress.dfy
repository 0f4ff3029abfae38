/** Whether an order can still be brought to an end, by whatever its parties, the operators and the scans do. */
module Progress {
  import opened Wrappers
  import opened Ledger
  import opened Pricing
  import opened Market
  import opened Books
  import opened EscrowRuns
  import opened EscrowTheorems
  import opened DisputeRuns
  import opened DisputeTheorems
  import opened Outcomes
  import opened Refunds
  import opened Requests
  import opened Store
  import Freezes
  import Payments

  const OPERATOR := Principal(0, true, true)

  predicate EndsAfter(db: Db, more: seq<Action>, id: Id) {
    id in Resume(db, more).orders && Final(Resume(db, more).orders[id].state)
  }

  ghost predicate CanEnd(db: Db, id: Id) {
    exists more: seq<Action> :: EndsAfter(db, more, id)
  }

  /** Disputed with no dispute to decide, and more in escrow than the program can split. */
  predicate Stuck(db: Db, id: Id) {
    && id in db.orders && db.orders[id].state.Disputed?
    && (forall d :: d in db.disputes && db.disputes[d].order == id ==> !db.disputes[d].open)
    && !Splits(db.orders[id], EscrowBalance(db, id))
  }

  // ----- Towards the end

  lemma {:induction false} ResumeFirst(db: Db, a: Action, more: seq<Action>)
    ensures Resume(db, [a] + more) == Resume(Step(db, a), more)
  {
    if more == [] {
      assert [a] + more == [] + [a];
      ResumeOne(db, [], a);
    } else {
      ResumeFirst(db, a, more[..|more| - 1]);
      assert ([a] + more)[..|[a] + more| - 1] == [a] + more[..|more| - 1];
    }
  }

  lemma EndsOneLater(db: Db, a: Action, id: Id)
    requires CanEnd(Step(db, a), id)
    ensures CanEnd(db, id)
  {
    var more :| EndsAfter(Step(db, a), more, id);
    ResumeFirst(db, a, more);
    assert EndsAfter(db, [a] + more, id);
  }

  lemma EndedAlready(db: Db, id: Id)
    requires id in db.orders && Final(db.orders[id].state)
    ensures CanEnd(db, id)
  {
    assert EndsAfter(db, [], id);
  }

  /** The operator's general change takes the order there. */
  lemma OperatorMoves(db: Db, id: Id, to: OrderState)
    requires Consistent(db) && id in db.orders && db.orders[id].state in Sources(to)
    requires !(db.orders[id].state.Disputed? && to.Completed?)
    requires to.Cancelled? || to.Refunded? ==> Splits(db.orders[id], EscrowBalance(db, id))
    ensures
      var after := Step(db, DoTransition(OPERATOR, id, to, false, None));
      Consistent(after) && id in after.orders && after.orders[id].state == to
  {
    var a := DoTransition(OPERATOR, id, to, false, None);
    TransitionGrantedIff(db, OPERATOR, id, to, false, FeeRate(None));
    TransitionArrives(db, OPERATOR, id, to, false, FeeRate(None), Step(db, a));
    StepKeeps(db, a);
  }

  lemma EndsFromAccepted(db: Db, id: Id)
    requires Consistent(db) && id in db.orders && db.orders[id].state.Accepted?
    ensures CanEnd(db, id)
  {
    OperatorMoves(db, id, Completed);
    EndedAlready(Step(db, DoTransition(OPERATOR, id, Completed, false, None)), id);
    EndsOneLater(db, DoTransition(OPERATOR, id, Completed, false, None), id);
  }

  lemma EndsFromDelivered(db: Db, id: Id)
    requires Consistent(db) && id in db.orders && db.orders[id].state.Delivered?
    ensures CanEnd(db, id)
  {
    OperatorMoves(db, id, Accepted);
    EndsFromAccepted(Step(db, DoTransition(OPERATOR, id, Accepted, false, None)), id);
    EndsOneLater(db, DoTransition(OPERATOR, id, Accepted, false, None), id);
  }

  lemma EndsFromWork(db: Db, id: Id)
    requires Consistent(db) && id in db.orders && db.orders[id].state in {InProgress, RevisionRequested}
    ensures CanEnd(db, id)
  {
    OperatorMoves(db, id, Delivered);
    EndsFromDelivered(Step(db, DoTransition(OPERATOR, id, Delivered, false, None)), id);
    EndsOneLater(db, DoTransition(OPERATOR, id, Delivered, false, None), id);
  }

  lemma EndsFromReady(db: Db, id: Id)
    requires Consistent(db) && id in db.orders && db.orders[id].state in {Ready, CancelRequested}
    ensures CanEnd(db, id)
  {
    OperatorMoves(db, id, InProgress);
    EndsFromWork(Step(db, DoTransition(OPERATOR, id, InProgress, false, None)), id);
    EndsOneLater(db, DoTransition(OPERATOR, id, InProgress, false, None), id);
  }

  lemma EndsFromPaid(db: Db, id: Id)
    requires Consistent(db) && id in db.orders && db.orders[id].state in {OrderState.Paid, RequirementPending}
    ensures CanEnd(db, id)
  {
    OperatorMoves(db, id, Ready);
    EndsFromReady(Step(db, DoTransition(OPERATOR, id, Ready, false, None)), id);
    EndsOneLater(db, DoTransition(OPERATOR, id, Ready, false, None), id);
  }

  lemma EndsFromUnpaid(db: Db, id: Id)
    requires Consistent(db) && id in db.orders && db.orders[id].state in {Created, PaymentPending}
    ensures CanEnd(db, id)
  {
    var a := DoExpire(id, db.orders[id].state);
    ExpiryGrantedIff(db, id, db.orders[id].state);
    EndedAlready(Step(db, a), id);
    EndsOneLater(db, a, id);
  }

  lemma SettledEscrow(order: Order, s: Option<Settlement>, b: Books)
    requires Sound(order, s, b) && order.state.Disputed? && s.Some?
    ensures b.acc.escrow <= 0
  {
  }

  /** Out of a dispute: everything to the seller if there is a dispute to decide and the seller was not paid, and
      the general refund if not. */
  lemma EndsFromDispute(db: Db, id: Id)
    requires Consistent(db) && id in db.orders && db.orders[id].state.Disputed? && !Stuck(db, id)
    ensures CanEnd(db, id)
  {
    if Splits(db.orders[id], EscrowBalance(db, id)) {
      OperatorMoves(db, id, Refunded);
      EndedAlready(Step(db, DoTransition(OPERATOR, id, Refunded, false, None)), id);
      EndsOneLater(db, DoTransition(OPERATOR, id, Refunded, false, None), id);
    } else {
      var dispute :| dispute in db.disputes && db.disputes[dispute].order == id && db.disputes[dispute].open;
      ReleaseEnds(db, dispute, id);
      EndsOneLater(db, DoResolve(dispute, ReleaseToSeller, None), id);
    }
  }

  lemma ReleaseEnds(db: Db, dispute: Id, id: Id)
    requires Consistent(db) && id in db.orders && db.orders[id].state.Disputed?
    requires dispute in db.disputes && db.disputes[dispute] == Dispute(id, true)
    requires !Splits(db.orders[id], EscrowBalance(db, id))
    ensures CanEnd(Step(db, DoResolve(dispute, ReleaseToSeller, None)), id)
  {
    var a := DoResolve(dispute, ReleaseToSeller, None);
    Look(db, id);
    if id in db.settlements {
      SettledEscrow(db.orders[id], SettlementOf(db, id), BooksOf(db, id));
    }
    DecisionGrantedIff(db, dispute, ReleaseToSeller, FeeRate(None));
    ResolutionPays(db, dispute, ReleaseToSeller, FeeRate(None), Step(db, a));
    EndedAlready(Step(db, a), id);
  }

  // ----- Stuck for good

  lemma StuckUnsettled(order: Order, s: Option<Settlement>, b: Books)
    requires Sound(order, s, b) && order.state.Disputed? && 0 < b.acc.escrow
    ensures s.None? && b.acc.escrow == Funding(order, b)
  {
  }

  /** What needs the order's row is refused, or changes nothing. */
  lemma StuckRefuses(db: Db, a: Action, id: Id)
    requires Consistent(db) && Stuck(db, id) && Payments.Needs(db, a, id)
    ensures Step(db, a) == db
  {
    match a
    case DoPay(who, _, key, payment) => PayRefused(db, who, id, key, payment);
    case DoTransition(who, _, to, overdue, setting) =>
      TransitionGrantedIff(db, who, id, to, overdue, FeeRate(setting));
    case DoOpenDispute(who, _, dispute) => DisputeGrantedIff(db, who, id, dispute);
    case DoResolve(dispute, outcome, setting) => DecisionGrantedIff(db, dispute, outcome, FeeRate(setting));
    case _ =>
  }

  lemma PayRefused(db: Db, who: Principal, id: Id, key: string, payment: Id)
    requires id in db.orders && db.orders[id].state.Disputed?
    ensures Step(db, DoPay(who, id, key, payment)) == db
  {
    PaidRefusesOrReplays(db, id, who, key, payment);
  }

  /** No settlement appears on it. */
  lemma StuckStaysUnsettled(db: Db, a: Action, id: Id)
    requires Consistent(db) && Stuck(db, id) && id !in db.settlements && !Payments.Needs(db, a, id)
    ensures id !in Step(db, a).settlements
  {
    var after := Step(db, a);
    StepCharges(db, a, id);
    if Attempt(db, a).Err? {
    } else if a.DoResolve? {
      Freezes.ResolvingKeepsOthers(db, a.dispute, a.outcome, FeeRate(a.feeSetting), after, id);
    } else if a.DoTransition? && !a.to.Accepted? {
      Freezes.MoveKeepsRows(db, a.id, a.to, after);
    } else if a.DoTransition? || a.DoAccept? || a.DoAutoAccept? {
      PlainMove(db, a.id, Accepted);
    }
  }

  lemma StuckStaysUndisputed(db: Db, a: Action, id: Id)
    requires Stuck(db, id) && !Payments.Needs(db, a, id)
    ensures
      var after := Step(db, a);
      forall d :: d in after.disputes && after.disputes[d].order == id ==> !after.disputes[d].open
  {
    var after := Step(db, a);
    if a.DoOpenDispute? && Attempt(db, a).Ok? {
      DisputeFreezes(db, a.who, a.id, a.dispute, after);
    } else if a.DoResolve? && Attempt(db, a).Ok? {
      ResolvingMoves(db, a.dispute, a.outcome, FeeRate(a.feeSetting), after);
    } else if !a.DoOpenDispute? && !a.DoResolve? {
      OthersKeepWaiting(db, a);
    }
  }

  lemma SameFunding(order: Order, s: Option<Settlement>, b: Books, b': Books)
    requires Sound(order, None, b) && Sound(order, None, b') && order.state.Disputed?
    requires Evolution(order, None, b, order, None, b')
    ensures b'.acc.escrow == b.acc.escrow
  {
  }

  lemma StuckStep(db: Db, a: Action, id: Id)
    requires Consistent(db) && Stuck(db, id)
    ensures Stuck(Step(db, a), id)
  {
    if Payments.Needs(db, a, id) {
      StuckRefuses(db, a, id);
    } else {
      var after := Step(db, a);
      Look(db, id);
      StuckUnsettled(db.orders[id], SettlementOf(db, id), BooksOf(db, id));
      StepKeeps(db, a);
      Look(after, id);
      Payments.StepKeepsRow(db, a, id);
      StuckStaysUnsettled(db, a, id);
      StuckStaysUndisputed(db, a, id);
      SameFunding(db.orders[id], None, BooksOf(db, id), BooksOf(after, id));
    }
  }

  lemma {:induction false} StuckForever(db: Db, more: seq<Action>, id: Id)
    requires Consistent(db) && Stuck(db, id)
    ensures Consistent(Resume(db, more)) && Stuck(Resume(db, more), id)
  {
    if more != [] {
      var front := more[..|more| - 1];
      StuckForever(db, front, id);
      StuckStep(Resume(db, front), more[|more| - 1], id);
      StepKeeps(Resume(db, front), more[|more| - 1]);
    }
  }

  /** In every reachable state an order can still be brought to an end if and only if it is not stuck: put into dispute
      without a dispute to decide, and with an escrow whose refund the program's arithmetic refuses. */
  lemma CanEndIff(db: Db, id: Id)
    requires Consistent(db) && id in db.orders
    ensures CanEnd(db, id) <==> !Stuck(db, id)
  {
    if Stuck(db, id) {
      forall more: seq<Action> ensures !EndsAfter(db, more, id) {
        StuckForever(db, more, id);
      }
    } else {
      match db.orders[id].state
      case Created => EndsFromUnpaid(db, id);
      case PaymentPending => EndsFromUnpaid(db, id);
      case Paid => EndsFromPaid(db, id);
      case RequirementPending => EndsFromPaid(db, id);
      case Ready => EndsFromReady(db, id);
      case CancelRequested => EndsFromReady(db, id);
      case InProgress => EndsFromWork(db, id);
      case RevisionRequested => EndsFromWork(db, id);
      case Delivered => EndsFromDelivered(db, id);
      case Accepted => EndsFromAccepted(db, id);
      case Disputed => EndsFromDispute(db, id);
      case _ => EndedAlready(db, id);
    }
  }

  // ----- How an order gets stuck

  lemma WorkDisputesNothing(db: Db, a: Action, id: Id)
    requires id in db.orders && !Freezes.InDispute(db, id) && Payments.Needs(db, a, id)
    requires a.DoSubmitRequirement? || a.DoDeliver? || a.DoRevise? || a.DoReview? || a.DoPay?
    ensures !Freezes.InDispute(Step(db, a), id)
  {
    match a
    case DoSubmitRequirement(who, _) => RequirementGrantedIff(db, who, id);
    case DoDeliver(who, _) => DeliveryGrantedIff(db, who, id);
    case DoRevise(who, _, overLimit) => RevisionGrantedIff(db, who, id, overLimit);
    case DoReview(who, _) => ReviewGrantedIff(db, who, id);
    case DoPay(who, _, key, payment) =>
      if Attempt(db, a).Ok? {
        PayOutcome(db, who, id, key, payment, Step(db, a));
      }
  }

  lemma EndDisputesNothing(db: Db, a: Action, id: Id)
    requires Consistent(db) && id in db.orders && !Freezes.InDispute(db, id) && Payments.Needs(db, a, id)
    requires a.DoAccept? || a.DoAutoAccept? || a.DoExpire? || a.DoResolve? || a.DoCreate?
    ensures !Freezes.InDispute(Step(db, a), id)
  {
    var after := Step(db, a);
    if Attempt(db, a).Ok? && after != db {
      match a
      case DoAccept(_, _, setting) => AcceptMoves(db, id, FeeRate(setting), after);
      case DoAutoAccept(_, setting) => AcceptMoves(db, id, FeeRate(setting), after);
      case DoExpire(_, seen) => ExpiryGrantedIff(db, id, seen);
      case DoResolve(dispute, outcome, setting) => Freezes.ResolvingEnds(db, dispute, outcome, FeeRate(setting), after);
    }
  }

  /** An order comes into dispute by a dispute or by the general change. */
  lemma DisputedByWhom(db: Db, a: Action, id: Id)
    requires Consistent(db) && id in db.orders && !Freezes.InDispute(db, id) && Freezes.InDispute(Step(db, a), id)
    ensures (a.DoOpenDispute? || (a.DoTransition? && a.to.Disputed?)) && a.id == id && Attempt(db, a).Ok?
  {
    if !Payments.Needs(db, a, id) {
      Payments.StepKeepsRow(db, a, id);
    } else if a.DoTransition? {
      if Attempt(db, a).Ok? {
        TransitionArrives(db, a.who, id, a.to, a.overdue, FeeRate(a.feeSetting), Step(db, a));
      }
    } else if a.DoAccept? || a.DoAutoAccept? || a.DoExpire? || a.DoResolve? || a.DoCreate? {
      EndDisputesNothing(db, a, id);
    } else if !a.DoOpenDispute? {
      WorkDisputesNothing(db, a, id);
    }
  }

  lemma DisputeIsThere(db: Db, who: Principal, id: Id, dispute: Id, after: Db)
    requires OpenDispute(db, who, id, dispute) == Ok(after)
    ensures !Stuck(after, id)
  {
    DisputeFreezes(db, who, id, dispute, after);
    assert after.disputes[dispute] == Dispute(id, true);
  }

  /** Only an operator's general change into dispute can leave an order stuck that was not. */
  lemma OnlyOperatorsStick(db: Db, a: Action, id: Id)
    requires Consistent(db) && id in db.orders && !Freezes.InDispute(db, id) && Stuck(Step(db, a), id)
    ensures a.DoTransition? && a.id == id && a.to.Disputed? && a.who.manage
  {
    DisputedByWhom(db, a, id);
    if a.DoOpenDispute? {
      DisputeIsThere(db, a.who, id, a.dispute, Step(db, a));
    } else {
      TransitionGrantedIff(db, a.who, id, Disputed, a.overdue, FeeRate(a.feeSetting));
    }
  }

  /** A disputed order that is not stuck does not become so. */
  lemma DisputeStaysDecidable(db: Db, a: Action, id: Id)
    requires Consistent(db) && DisputesOk(db) && Freezes.InDispute(db, id) && !Stuck(db, id)
    requires Freezes.InDispute(Step(db, a), id)
    ensures !Stuck(Step(db, a), id)
  {
    var after := Step(db, a);
    StepKeeps(db, a);
    if exists d :: OpenOn(db, d, id) {
      var d :| OpenOn(db, d, id);
      DisputeStaysOpen(db, a, d, id);
    } else {
      assert forall d :: d in db.disputes && db.disputes[d].order == id && db.disputes[d].open ==> OpenOn(db, d, id);
      SplittingStays(db, a, id);
    }
  }

  lemma DisputeStaysOpen(db: Db, a: Action, dispute: Id, id: Id)
    requires Consistent(db) && DisputesOk(db) && OpenOn(db, dispute, id) && Freezes.InDispute(Step(db, a), id)
    ensures OpenOn(Step(db, a), dispute, id)
  {
    var after := Step(db, a);
    if a.DoOpenDispute? && Attempt(db, a).Ok? {
      DisputeFreezes(db, a.who, a.id, a.dispute, after);
    } else if a.DoResolve? && Attempt(db, a).Ok? {
      ResolvingMoves(db, a.dispute, a.outcome, FeeRate(a.feeSetting), after);
      Freezes.ResolvingEnds(db, a.dispute, a.outcome, FeeRate(a.feeSetting), after);
    } else if !a.DoOpenDispute? && !a.DoResolve? {
      OthersKeepWaiting(db, a);
    }
  }

  lemma EscrowOfDisputed(order: Order, s: Option<Settlement>, b: Books, order': Order, s': Option<Settlement>,
                         b': Books)
    requires Sound(order, s, b) && Sound(order', s', b') && order.state.Disputed? && order'.state.Disputed?
    requires Evolution(order, s, b, order', s', b')
    ensures b'.acc.escrow <= 0 || b'.acc.escrow == b.acc.escrow
  {
  }

  lemma SplittingStays(db: Db, a: Action, id: Id)
    requires Consistent(db) && Consistent(Step(db, a)) && Evolves(db, Step(db, a))
    requires Freezes.InDispute(db, id) && Freezes.InDispute(Step(db, a), id)
    requires Splits(db.orders[id], EscrowBalance(db, id))
    ensures Splits(Step(db, a).orders[id], EscrowBalance(Step(db, a), id))
  {
    Look(db, id);
    Look(Step(db, a), id);
    EscrowOfDisputed(db.orders[id], SettlementOf(db, id), BooksOf(db, id), Step(db, a).orders[id],
                     SettlementOf(Step(db, a), id), BooksOf(Step(db, a), id));
  }

  /** The general change into dispute, for an operator. */
  predicate PutsInDispute(a: Action, id: Id) {
    a.DoTransition? && a.id == id && a.to.Disputed? && a.who.manage
  }

  /** So in every run no order gets stuck that no operator put into dispute by the general change. */
  lemma {:induction false} StuckOnlyByHand(actions: seq<Action>, id: Id)
    requires Stuck(Run(actions), id)
    ensures exists i :: 0 <= i < |actions| && PutsInDispute(actions[i], id)
  {
    if actions != [] {
      var front, a := actions[..|actions| - 1], actions[|actions| - 1];
      RunKeeps(front);
      RunDisputes(front);
      if id !in Run(front).orders {
        NewcomersAreUnpaid(Run(front), a, id);
      } else if Stuck(Run(front), id) {
        StuckOnlyByHand(front, id);
        var i :| 0 <= i < |front| && PutsInDispute(front[i], id);
        assert actions[i] == front[i];
      } else if Freezes.InDispute(Run(front), id) {
        DisputeStaysDecidable(Run(front), a, id);
      } else {
        OnlyOperatorsStick(Run(front), a, id);
        assert PutsInDispute(actions[|front|], id);
      }
    }
  }

  /** An order of four billion with a coupon of one, in work and put into dispute by an operator. */
  const STUCK := [DoCreate(1, 10, 20, 4_000_000_000, Some(CouponUse(4, Terms(Fixed, 1, 0, None))), None),
                  DoPay(Principal(10, false, false), 1, "k", 5),
                  DoTransition(Principal(20, false, false), 1, InProgress, false, None),
                  DoTransition(OPERATOR, 1, Disputed, false, None)]

  predicate Worth(db: Db, state: OrderState) {
    && 1 in db.orders && db.orders[1] == Order(10, 20, state, 4_000_000_000, 1, None, 0)
    && db.disputes == map[]
  }

  lemma StuckPays(db: Db)
    requires Consistent(db) && Worth(db, Created) && db.payments == []
    ensures
      var after := Step(db, STUCK[1]);
      Worth(after, Ready) && Balances(after.ledger, 1).escrow == 4_000_000_000
  {
    PaymentGrantedIff(db, Principal(10, false, false), 1, "k", 5);
    PaymentLeaves(db, Principal(10, false, false), 1, "k", 5, Step(db, STUCK[1]));
    OthersKeepWaiting(db, STUCK[1]);
  }

  lemma StuckMoves(db: Db)
    requires Worth(db, Ready) && Balances(db.ledger, 1).escrow == 4_000_000_000
    ensures
      var after := Step(Step(db, STUCK[2]), STUCK[3]);
      Worth(after, Disputed) && Balances(after.ledger, 1).escrow == 4_000_000_000
  {
    PlainMove(db, 1, InProgress);
    PlainMove(SetState(db, 1, InProgress), 1, Disputed);
  }

  /** A run of four transactions after which an order can never be brought to an end. */
  lemma StuckRun()
    ensures Stuck(Run(STUCK), 1) && !CanEnd(Run(STUCK), 1)
  {
    RunAppend([], STUCK[0]);
    RunAppend(STUCK[..1], STUCK[1]);
    RunAppend(STUCK[..2], STUCK[2]);
    RunAppend(STUCK[..3], STUCK[3]);
    assert [] + [STUCK[0]] == STUCK[..1] && STUCK[..1] + [STUCK[1]] == STUCK[..2];
    assert STUCK[..2] + [STUCK[2]] == STUCK[..3] && STUCK[..3] + [STUCK[3]] == STUCK;
    RunKeeps(STUCK[..1]);
    assert ComputeDiscount(Terms(Fixed, 1, 0, None), 4_000_000_000) == Ok(1);
    StuckPays(Run(STUCK[..1]));
    StuckMoves(Run(STUCK[..2]));
    LargeRefundRefused();
    RunKeeps(STUCK);
    CanEndIff(Run(STUCK), 1);
  }
}
