/** What a confirmation, a resolution and the settlement actions leave on an order, in amounts and states that can
    be read off the tables: nothing here is stated through the functions those transactions are built from. */
module Outcomes {
  import opened Wrappers
  import opened Ledger
  import opened Pricing
  import opened Market
  import opened Books
  import opened EscrowRuns
  import opened DisputeTheorems
  import Freezes

  // ----- The platform's percentage

  /** `fee` is `rate` percent of `amount`, rounded down. */
  predicate PercentOf(amount: int, rate: real, fee: int) {
    100.0 * fee as real <= amount as real * rate < 100.0 * (fee + 1) as real
  }

  lemma FeeIffPercent(amount: int, rate: real, fee: int)
    ensures fee == Fee(amount, rate) <==> PercentOf(amount, rate, fee)
  {
    var share := amount as real * rate / 100.0;
    assert share.Floor as real <= share < share.Floor as real + 1.0;
    assert PercentOf(amount, rate, fee) <==> fee as real <= share < fee as real + 1.0;
  }

  /** `fee` is what the setting charges on `amount`: the configured percentage when it is one, ten percent when
      there is none or it is out of range. */
  predicate ChargedBy(setting: Option<real>, amount: int, fee: int) {
    && (setting.Some? && 0.0 <= setting.value <= 100.0 ==> PercentOf(amount, setting.value, fee))
    && (setting.None? || setting.value < 0.0 || setting.value > 100.0 ==> PercentOf(amount, 10.0, fee))
  }

  lemma SettingCharges(setting: Option<real>, amount: int)
    ensures ChargedBy(setting, amount, Fee(amount, FeeRate(setting)))
  {
    FeeIffPercent(amount, FeeRate(setting), Fee(amount, FeeRate(setting)));
  }

  /** A new settlement of `gross` whose fee is `rate` percent of it, and the postings that go with it. */
  predicate Settles(acc: Accounts, row: Option<Settlement>, after: Accounts, gross: int, rate: real) {
    && row.Some? && row.value.state.Scheduled? && row.value.gross == gross
    && PercentOf(gross, rate, row.value.fee) && row.value.net == gross - row.value.fee
    && after == acc.(escrow := acc.escrow - gross, platformRevenue := acc.platformRevenue + row.value.fee,
                     sellerPayable := acc.sellerPayable + row.value.net)
  }

  lemma SettledSettles(db: Db, id: Id, gross: int, rate: real)
    requires id in db.orders
    ensures
      var after := SettledDb(db, id, gross, Fee(gross, rate));
      Settles(BooksOf(db, id).acc, SettlementOf(after, id), BooksOf(after, id).acc, gross, rate)
  {
    Settling(db, id, gross, Fee(gross, rate));
    FeeIffPercent(gross, rate, Fee(gross, rate));
  }

  /** Confirming a purchase settles the whole amount at the rate in force: the fee is that percentage, the seller
      gets the rest, and both leave escrow. */
  lemma ConfirmationPays(db: Db, id: Id, rate: real, after: Db)
    requires id in db.orders && AcceptAndSettle(db, id, rate) == Ok(after)
    ensures id in after.orders && after.orders[id] == db.orders[id].(state := Accepted) && id !in db.settlements
    ensures Settles(BooksOf(db, id).acc, SettlementOf(after, id), BooksOf(after, id).acc, db.orders[id].amount, rate)
  {
    PlainMove(db, id, Accepted);
    var moved := SetState(db, id, Accepted);
    SettingState(db, id, Accepted);
    SettledSettles(moved, id, db.orders[id].amount, rate);
    assert after == SettledDb(moved, id, db.orders[id].amount, Fee(db.orders[id].amount, rate));
  }

  /** So does booking the seller's remainder after a decision. */
  lemma RebookingPays(db: Db, id: Id, remaining: int, rate: real, after: Db)
    requires id in db.orders && remaining > 0 && Rebook(db, id, remaining, rate) == Ok(after)
    ensures after.orders == db.orders
    ensures Settles(BooksOf(db, id).acc, SettlementOf(after, id), BooksOf(after, id).acc, remaining, rate)
  {
    SettledSettles(db, id, remaining, rate);
    assert after == SettledDb(db, id, remaining, Fee(remaining, rate));
  }

  // ----- What a decision pays

  /** `back` of the order's money went back and the rest is settled on the seller at this rate. */
  predicate Divides(amount: int, acc: Accounts, row: Option<Settlement>, back: int, rate: real) {
    && acc.Back() == back
    && (back == amount ==> !Live(row) && acc.platformRevenue == 0 && acc.sellerPayable == 0)
    && (back < amount ==>
          && Live(row) && row.value.state.Scheduled? && row.value.gross == amount - back
          && PercentOf(row.value.gross, rate, row.value.fee) && row.value.net == row.value.gross - row.value.fee
          && acc.platformRevenue == row.value.fee && acc.sellerPayable == row.value.net)
    && acc.sellerPayout == 0
  }

  /** What a decision means: a full refund gives everything back and settles nothing, a partial one gives exactly
      that back and settles the rest, a release settles everything; the order ends refunded in the first case and
      completed in the others, except that releasing an order worth nothing also ends it refunded. */
  predicate Pays(outcome: Outcome, amount: int, state: OrderState, acc: Accounts, row: Option<Settlement>,
                 rate: real)
  {
    match outcome
    case RefundFull => state.Refunded? && Divides(amount, acc, row, amount, rate)
    case RefundPartial(refund) => 0 < refund < amount && state.Completed? && Divides(amount, acc, row, refund, rate)
    case ReleaseToSeller =>
      (if amount > 0 then state.Completed? else state.Refunded?) && Divides(amount, acc, row, 0, rate)
  }

  lemma VerdictPays(amount: int, discount: int, funded: bool, outcome: Outcome, rate: real)
    requires 0 <= amount && (outcome.RefundPartial? ==> 0 < outcome.refund < amount)
    ensures
      var v := VerdictOn(amount, discount, funded, outcome, rate);
      Pays(outcome, amount, v.state, v.acc, v.live, rate)
  {
    var remaining := match outcome
      case RefundFull => 0
      case RefundPartial(refund) => amount - refund
      case ReleaseToSeller => amount;
    FeeIffPercent(remaining, rate, Fee(remaining, rate));
  }

  lemma PaysLive(outcome: Outcome, amount: int, v: Verdict, row: Option<Settlement>, rate: real)
    requires Pays(outcome, amount, v.state, v.acc, v.live, rate) && v.live == (if Live(row) then row else None)
    ensures Pays(outcome, amount, v.state, v.acc, row, rate)
  {
  }

  /** Every resolution that goes through pays what its decision means. */
  lemma ResolutionPays(db: Db, dispute: Id, outcome: Outcome, rate: real, after: Db)
    requires Consistent(db) && 0.0 <= rate <= 100.0 && ResolveDispute(db, dispute, outcome, rate) == Ok(after)
    ensures dispute in db.disputes && db.disputes[dispute].order in db.orders
            && db.disputes[dispute].order in after.orders
    ensures
      var id := db.disputes[dispute].order;
      Pays(outcome, db.orders[id].amount, after.orders[id].state, BooksOf(after, id).acc, SettlementOf(after, id), rate)
  {
    ResolveOpens(db, dispute, outcome, rate, after);
    var id := db.disputes[dispute].order;
    SaneOrder(db, id);
    var v := Decides(db, dispute, outcome, rate, after);
    VerdictPays(db.orders[id].amount, db.orders[id].discount, BooksOf(db, id).paid.rows > 0, outcome, rate);
    PaysLive(outcome, db.orders[id].amount, v, SettlementOf(after, id), rate);
  }

  // ----- Who sets a settlement's amounts

  predicate SameAmounts(before: Option<Settlement>, after: Option<Settlement>) {
    after.Some? ==> before.Some? && after.value == before.value.(state := after.value.state)
  }

  predicate Charged(setting: Option<real>, row: Option<Settlement>) {
    row.Some? && ChargedBy(setting, row.value.gross, row.value.fee) && row.value.net == row.value.gross - row.value.fee
  }

  /** The row is as it was up to its state, or this setting charged it anew. */
  predicate KeptOrCharged(db: Db, after: Db, setting: Option<real>, id: Id) {
    SameAmounts(SettlementOf(db, id), SettlementOf(after, id)) || Charged(setting, SettlementOf(after, id))
  }

  lemma ConfirmingCharges(db: Db, confirmed: Id, setting: Option<real>, after: Db, id: Id)
    requires confirmed in db.orders && AcceptAndSettle(db, confirmed, FeeRate(setting)) == Ok(after)
    ensures KeptOrCharged(db, after, setting, id)
  {
    PlainMove(db, confirmed, Accepted);
    SettingCharges(setting, db.orders[confirmed].amount);
  }

  lemma DecidedRow(s: Option<Settlement>, remaining: int, setting: Option<real>)
    ensures
      var row := RebookedRow(UnwoundRow(s), remaining, FeeRate(setting));
      SameAmounts(s, row) || Charged(setting, row)
  {
    SettingCharges(setting, remaining);
  }

  lemma ResolvedRow(db: Db, dispute: Id, outcome: Outcome, rate: real, after: Db) returns (remaining: int)
    requires Consistent(db) && 0.0 <= rate <= 100.0 && ResolveDispute(db, dispute, outcome, rate) == Ok(after)
    ensures dispute in db.disputes
    ensures
      var id := db.disputes[dispute].order;
      SettlementOf(after, id) == RebookedRow(UnwoundRow(SettlementOf(db, id)), remaining, rate)
  {
    var refunded := Resolving(db, dispute, outcome, rate, after);
    var id := db.disputes[dispute].order;
    remaining := db.orders[id].amount - RefundOf(outcome, db.orders[id].amount);
  }

  lemma ResolvingCharges(db: Db, dispute: Id, outcome: Outcome, setting: Option<real>, after: Db, id: Id)
    requires Consistent(db) && ResolveDispute(db, dispute, outcome, FeeRate(setting)) == Ok(after)
    ensures KeptOrCharged(db, after, setting, id)
  {
    ResolveOpens(db, dispute, outcome, FeeRate(setting), after);
    var decided := db.disputes[dispute].order;
    if id == decided {
      var remaining := ResolvedRow(db, dispute, outcome, FeeRate(setting), after);
      DecidedRow(SettlementOf(db, id), remaining, setting);
    } else {
      Freezes.ResolvingKeepsOthers(db, dispute, outcome, FeeRate(setting), after, id);
    }
  }

  lemma WorkKeepsAmounts(db: Db, a: Action, id: Id)
    requires Attempt(db, a).Ok? && (a.DoDeliver? || a.DoRevise? || a.DoExpire?)
    ensures SameAmounts(SettlementOf(db, id), SettlementOf(Step(db, a), id))
  {
    var after := Step(db, a);
    if after != db {
      match a
      case DoDeliver(_, moved) => Freezes.MoveKeepsRows(db, moved, Delivered, after);
      case DoRevise(_, moved, _) => Freezes.MoveKeepsRows(db, moved, RevisionRequested, after);
      case DoExpire(moved, _) =>
        Freezes.MoveKeepsRows(db.(redemptions := db.redemptions - {moved}), moved, Cancelled, after);
    }
  }

  lemma ReviewKeepsAmounts(db: Db, a: Action, id: Id)
    requires Attempt(db, a).Ok? && (a.DoReview? || a.DoOpenDispute?)
    ensures SameAmounts(SettlementOf(db, id), SettlementOf(Step(db, a), id))
  {
    var after := Step(db, a);
    match a
    case DoReview(_, moved) =>
      if db.orders[moved].state.Accepted? {
        Freezes.MoveKeepsRows(db.(reviews := db.reviews + {moved}), moved, Completed, after);
      }
    case DoOpenDispute(_, moved, dispute) =>
      Freezes.MoveKeepsRows(db.(disputes := db.disputes[dispute := Dispute(moved, true)],
                                settlements := Frozen(db.settlements, moved)),
                            moved, Disputed, after);
  }

  lemma PayKeepsAmounts(db: Db, a: Action, id: Id)
    requires a.DoCreate? || a.DoOpenBudget? || a.DoPay? || a.DoSubmitRequirement?
    ensures SameAmounts(SettlementOf(db, id), SettlementOf(Step(db, a), id))
  {
    if a.DoPay? && Attempt(db, a).Ok? {
      PayOutcome(db, a.who, a.id, a.key, a.payment, Step(db, a));
    }
  }

  lemma ActionKeepsAmounts(db: Db, a: Action, id: Id)
    requires a.DoSettlement? || a.DoDecide?
    ensures SameAmounts(SettlementOf(db, id), SettlementOf(Step(db, a), id))
  {
  }

  /** The transactions that confirm or decide, each with the fee setting it reads. */
  predicate Confirms(a: Action) {
    a.DoTransition? || a.DoAccept? || a.DoAutoAccept? || a.DoResolve?
  }

  /** The amounts of a settlement are only ever set by a confirmation or a resolution, and then they are what its
      fee setting charges. */
  lemma StepCharges(db: Db, a: Action, id: Id)
    requires Consistent(db)
    ensures SameAmounts(SettlementOf(db, id), SettlementOf(Step(db, a), id))
            || (Confirms(a) && Charged(a.feeSetting, SettlementOf(Step(db, a), id)))
  {
    var after := Step(db, a);
    if Attempt(db, a).Err? {
    } else if a.DoAccept? || (a.DoAutoAccept? && after != db) || (a.DoTransition? && a.to.Accepted?) {
      ConfirmingCharges(db, a.id, a.feeSetting, after, id);
    } else if a.DoAutoAccept? {
    } else if a.DoTransition? {
      Freezes.MoveKeepsRows(db, a.id, a.to, after);
    } else if a.DoResolve? {
      ResolvingCharges(db, a.dispute, a.outcome, a.feeSetting, after, id);
    } else if a.DoDeliver? || a.DoRevise? || a.DoExpire? {
      WorkKeepsAmounts(db, a, id);
    } else if a.DoReview? || a.DoOpenDispute? {
      ReviewKeepsAmounts(db, a, id);
    } else if a.DoSettlement? || a.DoDecide? {
      ActionKeepsAmounts(db, a, id);
    } else {
      PayKeepsAmounts(db, a, id);
    }
  }

  /** Some confirmation or resolution of the run had the fee setting that charges this row. */
  predicate ChargedIn(actions: seq<Action>, row: Option<Settlement>) {
    exists i :: 0 <= i < |actions| && Confirms(actions[i]) && Charged(actions[i].feeSetting, row)
  }

  lemma ChargedLater(actions: seq<Action>, a: Action, before: Option<Settlement>, row: Option<Settlement>)
    requires row.Some? && SameAmounts(before, row) && ChargedIn(actions, before)
    ensures ChargedIn(actions + [a], row)
  {
    var i :| 0 <= i < |actions| && Confirms(actions[i]) && Charged(actions[i].feeSetting, before);
    assert (actions + [a])[i] == actions[i];
  }

  /** In every reachable state every settlement's fee is the percentage that was configured when it was confirmed
      or decided, rounded down, and its net is the rest. */
  lemma {:induction false} RowsAreCharged(actions: seq<Action>, id: Id)
    requires id in Run(actions).settlements
    ensures ChargedIn(actions, SettlementOf(Run(actions), id))
  {
    if actions != [] {
      var front, a := actions[..|actions| - 1], actions[|actions| - 1];
      var before, row := SettlementOf(Run(front), id), SettlementOf(Run(actions), id);
      RunKeeps(front);
      StepCharges(Run(front), a, id);
      assert actions == front + [a];
      if SameAmounts(before, row) {
        RowsAreCharged(front, id);
        ChargedLater(front, a, before, row);
      } else {
        assert Confirms(actions[|front|]) && Charged(actions[|front|].feeSetting, row);
      }
    }
  }

  // ----- Settlement actions

  /** The row moves to this state and nothing else changes, except that paying out moves the net amount from what the
      seller is owed to what the seller was paid. */
  predicate RowMoved(db: Db, after: Db, id: Id, to: SettlementState)
    requires id in db.settlements
  {
    var acc := BooksOf(db, id).acc;
    && after.settlements == db.settlements[id := db.settlements[id].(state := to)]
    && after == db.(settlements := after.settlements, ledger := after.ledger)
    && BooksOf(after, id).acc
       == (if to.PaidOut? then
             acc.(sellerPayable := acc.sellerPayable - db.settlements[id].net,
                  sellerPayout := acc.sellerPayout + db.settlements[id].net)
           else acc)
    && (!to.PaidOut? ==> after.ledger == db.ledger)
  }

  /** A hold goes through on what is scheduled or confirmed, a release on what is held, a payout on what is scheduled
      or confirmed; they leave the row held, scheduled and paid out. */
  lemma SettlementActionIff(db: Db, id: Id, act: SettlementAct)
    requires Consistent(db) && id in db.settlements
    ensures
      var r, state := SettlementAction(db, id, act), db.settlements[id].state;
      match act
      case HoldIt =>
        (r.Ok? <==> state.Scheduled? || state.Confirmed?) && (r.Ok? ==> RowMoved(db, r.value, id, Held))
      case ReleaseIt => (r.Ok? <==> state.Held?) && (r.Ok? ==> RowMoved(db, r.value, id, Scheduled))
      case CompleteIt =>
        (r.Ok? <==> state.Scheduled? || state.Confirmed?) && (r.Ok? ==> RowMoved(db, r.value, id, PaidOut))
  {
    if act.CompleteIt? && (db.settlements[id].state.Scheduled? || db.settlements[id].state.Confirmed?) {
      Look(db, id);
      PayoutAccepted(db.settlements[id].net);
      PayingOut(db, id);
    }
  }

  lemma PayingOut(db: Db, id: Id)
    requires id in db.settlements && id in db.orders && SettlementAction(db, id, CompleteIt).Ok?
    ensures RowMoved(db, SettlementAction(db, id, CompleteIt).value, id, PaidOut)
  {
    var s := db.settlements[id];
    var row := db.(settlements := db.settlements[id := s.(state := PaidOut)]);
    Posting(row, id, [DebitOf(SellerPayable, s.net), CreditOf(SellerPayout, s.net)]);
    PayoutMoves(BooksOf(db, id).acc, s.net);
    assert BooksOf(row, id) == BooksOf(db, id);
  }

  /** The background decision holds or confirms what is still scheduled, and leaves any other row alone. */
  lemma DueIsDecided(db: Db, id: Id, hold: bool)
    ensures
      var after := ApplySettlementDecision(db, id, hold);
      if id in db.settlements && db.settlements[id].state.Scheduled? then
        RowMoved(db, after, id, if hold then Held else Confirmed)
      else after == db
  {
  }
}
