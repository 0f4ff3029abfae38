/** The handlers over a whole run: what each of them leaves in the tables is the state of a longer run. */
module Platform {
  import opened Wrappers
  import opened Market
  import opened Books
  import opened Store
  import EscrowRuns
  import EscrowTheorems
  import Budgets
  import DisputeRuns
  import opened Ledger
  import Pricing
  import Redemptions
  import Requests

  /** Whether a handler commits or refuses, the tables afterwards are those of the run with its transaction
      appended, with money, budgets, redemptions and disputes in agreement; a refusal leaves them as they were. */
  lemma HandlerExtendsRun(actions: seq<Action>, a: Action, refused: Option<Error>, now: Db)
    requires Wholly(Attempt(Run(actions), a), Run(actions), refused, now)
    ensures now == Run(actions + [a]) && (refused.Some? ==> now == Run(actions))
    ensures Consistent(now) && Budgets.Budgeted(now) && Redemptions.Redeemed(now) && DisputeRuns.DisputesOk(now)
  {
    EscrowTheorems.RunAppend(actions, a);
    EscrowRuns.RunKeeps(actions + [a]);
    Budgets.RunBudgeted(actions + [a]);
    Redemptions.RunRedeemed(actions + [a]);
    DisputeRuns.RunDisputes(actions + [a]);
  }

  /** The same for the scans, which append one transaction per selected row. */
  lemma ScanExtendsRun(actions: seq<Action>, more: seq<Action>, now: Db)
    requires now == Resume(Run(actions), more)
    ensures now == Run(actions + more)
    ensures Consistent(now) && Budgets.Budgeted(now) && Redemptions.Redeemed(now) && DisputeRuns.DisputesOk(now)
  {
    ResumeIsRun(actions, more);
    EscrowRuns.RunKeeps(actions + more);
    Budgets.RunBudgeted(actions + more);
    Redemptions.RunRedeemed(actions + more);
    DisputeRuns.RunDisputes(actions + more);
  }

  // ----- What a scan has done when it is through

  predicate DistinctFirst<T>(rows: seq<(Id, T)>) {
    forall i, j :: 0 <= i < j < |rows| ==> rows[i].0 != rows[j].0
  }

  /** What the scan makes of a due settlement. */
  function DueBecomes(state: SettlementState, hold: bool, auto: bool): SettlementState {
    if !state.Scheduled? then state else if hold then Held else if auto then Confirmed else Scheduled
  }

  /** Every due row became what it is to become, every other stayed. */
  predicate DueDecided(rows: map<Id, Settlement>, after: map<Id, Settlement>, due: seq<(Id, bool)>, auto: bool) {
    && after.Keys == rows.Keys
    && (forall i :: 0 <= i < |due| && due[i].0 in rows ==>
          after[due[i].0] == rows[due[i].0].(state := DueBecomes(rows[due[i].0].state, due[i].1, auto)))
    && (forall id :: id in rows && (forall i :: 0 <= i < |due| ==> due[i].0 != id) ==> after[id] == rows[id])
  }

  lemma OneMoreDecided(rows: map<Id, Settlement>, mid: map<Id, Settlement>, due: seq<(Id, bool)>, auto: bool)
    requires due != [] && DistinctFirst(due) && DueDecided(rows, mid, due[..|due| - 1], auto)
    ensures
      var last := due[|due| - 1];
      var after := if last.0 in mid then
                     mid[last.0 := mid[last.0].(state := DueBecomes(mid[last.0].state, last.1, auto))]
                   else mid;
      DueDecided(rows, after, due, auto)
  {
    var front, last := due[..|due| - 1], due[|due| - 1];
    forall i | 0 <= i < |front| ensures due[i] == front[i] && due[i].0 != last.0 {
    }
    if last.0 in rows {
      assert forall i :: 0 <= i < |front| ==> front[i].0 != last.0;
      assert mid[last.0] == rows[last.0];
    }
  }

  lemma DueStep(db: Db, due: seq<(Id, bool)>, auto: bool)
    requires due != []
    ensures
      var mid, last := Resume(db, Decisions(due[..|due| - 1], auto)), due[|due| - 1];
      Resume(db, Decisions(due, auto))
      == if last.0 in mid.settlements then
           mid.(settlements := mid.settlements[last.0 := mid.settlements[last.0].(
                                 state := DueBecomes(mid.settlements[last.0].state, last.1, auto))])
         else mid
  {
    assert due[..|due| - 1 + 1] == due;
    NextDecision(db, due, auto, |due| - 1);
    var mid, last := Resume(db, Decisions(due[..|due| - 1], auto)), due[|due| - 1];
    if last.0 in mid.settlements {
      assert mid.settlements[last.0 := mid.settlements[last.0]] == mid.settlements;
    }
  }

  /** The scan over due settlements holds those that are flagged and still scheduled, confirms the others that are, if
      the deployment confirms on its own, and touches nothing else. */
  lemma {:induction false} ScanDecides(db: Db, due: seq<(Id, bool)>, auto: bool)
    requires DistinctFirst(due)
    ensures
      var after := Resume(db, Decisions(due, auto));
      after == db.(settlements := after.settlements) && DueDecided(db.settlements, after.settlements, due, auto)
  {
    if due != [] {
      ScanDecides(db, due[..|due| - 1], auto);
      DueStep(db, due, auto);
      OneMoreDecided(db.settlements, Resume(db, Decisions(due[..|due| - 1], auto)).settlements, due, auto);
    }
  }

  lemma ExpiryStep(db: Db, id: Id, seen: OrderState)
    requires Consistent(db) && Unpaid(seen)
    ensures
      var after := Step(db, DoExpire(id, seen));
      && Consistent(after) && after.orders.Keys == db.orders.Keys
      && (id in db.orders && db.orders[id].state == seen ==> after.orders[id].state.Cancelled?)
      && (forall other :: other in db.orders && other != id ==> after.orders[other] == db.orders[other])
  {
    EscrowRuns.StepKeeps(db, DoExpire(id, seen));
    Requests.ExpiryGrantedIff(db, id, seen);
  }

  /** Every selected order that was as selected is cancelled, every order not selected is as it was. */
  predicate StaleCancelled(orders: map<Id, Order>, after: map<Id, Order>, stale: seq<(Id, OrderState)>) {
    && after.Keys == orders.Keys
    && (forall i :: 0 <= i < |stale| && stale[i].0 in orders && orders[stale[i].0].state == stale[i].1 ==>
          after[stale[i].0].state.Cancelled?)
    && (forall id :: id in orders && (forall i :: 0 <= i < |stale| ==> stale[i].0 != id) ==> after[id] == orders[id])
  }

  lemma OneMoreCancelled(orders: map<Id, Order>, mid: map<Id, Order>, after: map<Id, Order>,
                         stale: seq<(Id, OrderState)>)
    requires stale != [] && DistinctFirst(stale) && StaleCancelled(orders, mid, stale[..|stale| - 1])
    requires after.Keys == mid.Keys
    requires
      var last := stale[|stale| - 1];
      && (last.0 in mid && mid[last.0].state == last.1 ==> after[last.0].state.Cancelled?)
      && (forall other :: other in mid && other != last.0 ==> after[other] == mid[other])
    ensures StaleCancelled(orders, after, stale)
  {
    var front, last := stale[..|stale| - 1], stale[|stale| - 1];
    forall i | 0 <= i < |front| ensures stale[i] == front[i] && stale[i].0 != last.0 {
    }
    if last.0 in orders {
      assert forall i :: 0 <= i < |front| ==> front[i].0 != last.0;
      assert mid[last.0] == orders[last.0];
    }
  }

  /** The scan over unpaid orders cancels every selected order that is still as it was selected, and no other order
      changes. */
  lemma {:induction false} ScanExpires(db: Db, stale: seq<(Id, OrderState)>)
    requires Consistent(db) && DistinctFirst(stale) && forall i :: 0 <= i < |stale| ==> Unpaid(stale[i].1)
    ensures
      var after := Resume(db, Expiries(stale));
      Consistent(after) && StaleCancelled(db.orders, after.orders, stale)
  {
    if stale != [] {
      var front, last := stale[..|stale| - 1], stale[|stale| - 1];
      ScanExpires(db, front);
      assert stale[..|front| + 1] == stale;
      NextExpiry(db, stale, |front|);
      var mid := Resume(db, Expiries(front));
      ExpiryStep(mid, last.0, last.1);
      OneMoreCancelled(db.orders, mid.orders, Step(mid, DoExpire(last.0, last.1)).orders, stale);
    }
  }

  lemma AcceptanceStep(db: Db, id: Id, feeSetting: Option<real>)
    requires Consistent(db)
    ensures
      var after := Step(db, DoAutoAccept(id, feeSetting));
      && Consistent(after) && after.orders.Keys == db.orders.Keys
      && (id in db.orders && db.orders[id].state.Delivered? ==> after.orders[id].state.Accepted?)
      && (forall other :: other in db.orders && other != id ==> after.orders[other] == db.orders[other])
  {
    var a := DoAutoAccept(id, feeSetting);
    EscrowRuns.StepKeeps(db, a);
    Requests.AcceptGrantedIff(db, Principal(0, true, true), id, Pricing.FeeRate(feeSetting));
    if id in db.orders && db.orders[id].state.Delivered? {
      DisputeRuns.AcceptMoves(db, id, Pricing.FeeRate(feeSetting), Step(db, a));
    }
  }

  /** Every selected order that was delivered is confirmed, every order not selected is as it was. */
  predicate RipeConfirmed(orders: map<Id, Order>, after: map<Id, Order>, ripe: seq<Id>) {
    && after.Keys == orders.Keys
    && (forall id :: id in ripe && id in orders && orders[id].state.Delivered? ==> after[id].state.Accepted?)
    && (forall id :: id in orders && id !in ripe ==> after[id] == orders[id])
  }

  lemma OneMoreConfirmed(orders: map<Id, Order>, mid: map<Id, Order>, after: map<Id, Order>, front: seq<Id>, last: Id)
    requires last !in front && RipeConfirmed(orders, mid, front) && after.Keys == mid.Keys
    requires last in mid && mid[last].state.Delivered? ==> after[last].state.Accepted?
    requires forall other :: other in mid && other != last ==> after[other] == mid[other]
    ensures RipeConfirmed(orders, after, front + [last])
  {
  }

  predicate NoRepeats(ripe: seq<Id>) {
    forall i, j :: 0 <= i < j < |ripe| ==> ripe[i] != ripe[j]
  }

  lemma NoRepeatsFront(ripe: seq<Id>)
    requires ripe != [] && NoRepeats(ripe)
    ensures NoRepeats(ripe[..|ripe| - 1]) && ripe[|ripe| - 1] !in ripe[..|ripe| - 1]
  {
  }

  /** The scan over deliveries confirms every selected order that is still delivered, and no other order changes. */
  lemma {:induction false} ScanAccepts(db: Db, ripe: seq<Id>, feeSetting: Option<real>)
    requires Consistent(db) && NoRepeats(ripe)
    ensures
      var after := Resume(db, Acceptances(ripe, feeSetting));
      Consistent(after) && RipeConfirmed(db.orders, after.orders, ripe)
  {
    if ripe != [] {
      var front, last := ripe[..|ripe| - 1], ripe[|ripe| - 1];
      NoRepeatsFront(ripe);
      ScanAccepts(db, front, feeSetting);
      assert ripe == front + [last] && ripe[..|front| + 1] == ripe;
      NextAcceptance(db, ripe, feeSetting, |front|);
      var mid := Resume(db, Acceptances(front, feeSetting));
      AcceptanceStep(mid, last, feeSetting);
      OneMoreConfirmed(db.orders, mid.orders, Step(mid, DoAutoAccept(last, feeSetting)).orders, front, last);
    }
  }
}
