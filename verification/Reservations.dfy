/** Orders placed on an organization's budget racing each other and everything else. The budget row is locked and
    read, the payable amount compared with what is left, and the order committed with the raised row; whatever else
    would write the row waits until then, and everything else interleaves freely. */
module Reservations {
  import opened Wrappers
  import opened Int64
  import opened Ledger
  import opened Pricing
  import opened Market
  import opened EscrowTheorems
  import Budgets

  datatype Request = Request(order: Id, buyer: Id, seller: Id, price: int, coupon: Option<CouponUse>,
                             budget: Option<Id>)

  /** `seen` is the budget row as it was read; an order may also turn out to have no budget to hold. */
  datatype Stage = Begun | Unlimited | Locked(seen: Budget)

  datatype Tx = Tx(request: Request, stage: Stage)

  datatype Race = Race(db: Db, txs: map<Id, Tx>, log: seq<Action>)

  const START := Race(EMPTY_DB, map[], [])

  datatype Move =
    | Begin(tx: Id, request: Request)
    | ReadBudget(tx: Id)
    | Commit(tx: Id)
    | Crash(tx: Id)
    | Other(action: Action)

  function Discount(request: Request): Result<int, Refusal> {
    if request.coupon.Some? then ComputeDiscount(request.coupon.value.terms, request.price) else Ok(0)
  }

  /** What refuses an order before its budget is looked at. */
  predicate Acceptable(request: Request) {
    request.buyer != request.seller && 0 <= request.price <= MAX && Discount(request).Ok?
  }

  function Payable(request: Request): int
    requires Acceptable(request)
  {
    request.price - Discount(request).value
  }

  predicate Holds(tx: Tx, budget: Id) {
    tx.stage.Locked? && tx.request.budget == Some(budget)
  }

  predicate Free(r: Race, budget: Id) {
    forall t :: t in r.txs ==> !Holds(r.txs[t], budget)
  }

  /** The transaction writes none of the budget rows that are held, and order ids are drawn fresh. */
  predicate StaysOff(r: Race, a: Action) {
    forall t :: t in r.txs ==>
      && (r.txs[t].stage.Locked? && r.txs[t].request.budget.Some? && r.txs[t].request.budget.value in r.db.budgets ==>
            && r.txs[t].request.budget.value in Step(r.db, a).budgets
            && Step(r.db, a).budgets[r.txs[t].request.budget.value] == r.db.budgets[r.txs[t].request.budget.value])
      && (a.DoCreate? ==> a.id != r.txs[t].request.order)
  }

  predicate Enabled(r: Race, m: Move) {
    match m
    case Begin(t, request) =>
      t !in r.txs && request.order !in r.db.orders && forall u :: u in r.txs ==> r.txs[u].request.order != request.order
    case ReadBudget(t) =>
      t in r.txs && r.txs[t].stage.Begun? && (r.txs[t].request.budget.Some? ==> Free(r, r.txs[t].request.budget.value))
    case Commit(t) => t in r.txs && !r.txs[t].stage.Begun?
    case Crash(t) => t in r.txs
    case Other(a) => StaysOff(r, a)
  }

  function Put(r: Race, t: Id, stage: Stage): Race
    requires t in r.txs
  {
    r.(txs := r.txs[t := r.txs[t].(stage := stage)])
  }

  function Drop(r: Race, t: Id): Race {
    r.(txs := r.txs - {t})
  }

  /** The whole transaction this one turns out to be. */
  function WholeOf(tx: Tx): Action {
    DoCreate(tx.request.order, tx.request.buyer, tx.request.seller, tx.request.price, tx.request.coupon,
             if tx.stage.Locked? then tx.request.budget else None)
  }

  /** What a commit writes, from what was read. */
  function Written(db: Db, tx: Tx): Db
    requires Acceptable(tx.request)
  {
    var request, payable := tx.request, Payable(tx.request);
    var discount := Discount(request).value;
    var budgets :=
      if tx.stage.Locked? && request.budget.Some? then
        db.budgets[request.budget.value := tx.stage.seen.(consumed := tx.stage.seen.consumed + payable)]
      else db.budgets;
    var order :=
      if tx.stage.Locked? then
        Order(request.buyer, request.seller, Created, request.price, discount, request.budget, payable)
      else Order(request.buyer, request.seller, Created, request.price, discount, None, 0);
    db.(budgets := budgets, orders := db.orders[request.order := order],
        redemptions :=
          if request.coupon.Some? then
            db.redemptions[request.order := Redemption(request.coupon.value.coupon, request.buyer, discount)]
          else db.redemptions)
  }

  function Next(r: Race, m: Move): Race {
    if !Enabled(r, m) then r
    else
      match m
      case Begin(t, request) => r.(txs := r.txs[t := Tx(request, Begun)])
      case ReadBudget(t) =>
        var request := r.txs[t].request;
        if !Acceptable(request) then Drop(r, t)
        else if request.budget.None? || Payable(request) <= 0 || request.budget.value !in r.db.budgets then
          Put(r, t, Unlimited)
        else
          var row := r.db.budgets[request.budget.value];
          if Wrap(row.consumed + Payable(request)) > row.amount then Drop(r, t) else Put(r, t, Locked(row))
      case Commit(t) =>
        var tx := r.txs[t];
        if !Acceptable(tx.request) || (tx.stage.Locked? && tx.stage.seen.consumed + Payable(tx.request) > MAX) then
          Drop(r, t)
        else Race(Written(r.db, tx), r.txs - {t}, r.log + [WholeOf(tx)])
      case Crash(t) => Drop(r, t)
      case Other(a) => r.(db := Step(r.db, a), log := r.log + [a])
  }

  function Raced(moves: seq<Move>): Race {
    if moves == [] then START else Next(Raced(moves[..|moves| - 1]), moves[|moves| - 1])
  }

  // ----- What was read still stands

  predicate Stands(db: Db, tx: Tx) {
    && tx.request.order !in db.orders
    && (!tx.stage.Begun? ==> Acceptable(tx.request))
    && (tx.stage.Locked? ==>
          && tx.request.budget.Some? && tx.request.budget.value in db.budgets
          && db.budgets[tx.request.budget.value] == tx.stage.seen && 0 < Payable(tx.request)
          && Wrap(tx.stage.seen.consumed + Payable(tx.request)) <= tx.stage.seen.amount)
  }

  ghost predicate Exclusive(r: Race) {
    && (forall t, u, budget :: t in r.txs && u in r.txs && Holds(r.txs[t], budget) && Holds(r.txs[u], budget) ==>
        t == u)
    && (forall t, u :: (t in r.txs && u in r.txs && r.txs[t].request.order == r.txs[u].request.order) ==> t == u)
  }

  predicate AllStand(r: Race) {
    forall t :: t in r.txs ==> Stands(r.db, r.txs[t])
  }

  lemma ExclusiveStep(r: Race, m: Move)
    requires Exclusive(r)
    ensures Exclusive(Next(r, m))
  {
  }

  /** A commit is the whole transaction, run on the tables as they are. */
  lemma WrittenIsWhole(db: Db, tx: Tx)
    requires Stands(db, tx) && !tx.stage.Begun?
    requires tx.stage.Locked? ==> tx.stage.seen.consumed + Payable(tx.request) <= MAX
    ensures Written(db, tx) == Step(db, WholeOf(tx))
  {
  }

  /** The whole transaction a request asks for. */
  function Asked(request: Request): Action {
    DoCreate(request.order, request.buyer, request.seller, request.price, request.coupon, request.budget)
  }

  /** An order whose statements nobody comes between is the whole transaction, granted or refused. */
  lemma AloneIsWhole(r: Race, t: Id)
    requires t in r.txs && r.txs[t].stage.Begun? && r.txs[t].request.order !in r.db.orders
    requires r.txs[t].request.budget.Some? ==> Free(r, r.txs[t].request.budget.value)
    ensures
      var after := Next(Next(r, ReadBudget(t)), Commit(t));
      after.db == Step(r.db, Asked(r.txs[t].request)) && t !in after.txs
  {
    var request, read := r.txs[t].request, Next(r, ReadBudget(t));
    if t in read.txs && !(read.txs[t].stage.Locked? && read.txs[t].stage.seen.consumed + Payable(request) > MAX) {
      WrittenIsWhole(r.db, read.txs[t]);
    }
  }

  lemma OnlyCreationCreates(db: Db, a: Action, order: Id)
    requires order !in db.orders && order in Step(db, a).orders
    ensures a.DoCreate? && a.id == order
  {
  }

  lemma OtherStands(r: Race, a: Action)
    requires AllStand(r) && StaysOff(r, a)
    ensures AllStand(Next(r, Other(a)))
  {
    forall t | t in r.txs ensures Stands(Step(r.db, a), r.txs[t]) {
      if r.txs[t].request.order in Step(r.db, a).orders {
        OnlyCreationCreates(r.db, a, r.txs[t].request.order);
      }
    }
  }

  lemma CommitStands(r: Race, t: Id)
    requires AllStand(r) && Exclusive(r) && t in r.txs && !r.txs[t].stage.Begun?
    ensures AllStand(Next(r, Commit(t)))
  {
    var after := Next(r, Commit(t));
    forall u | u in after.txs ensures Stands(after.db, after.txs[u]) {
      assert u in r.txs && u != t && Stands(r.db, r.txs[u]);
      assert r.txs[u].request.order != r.txs[t].request.order;
      if r.txs[u].stage.Locked? {
        assert Holds(r.txs[u], r.txs[u].request.budget.value);
        assert !Holds(r.txs[t], r.txs[u].request.budget.value);
      }
    }
  }

  lemma StandsStep(r: Race, m: Move)
    requires AllStand(r) && Exclusive(r)
    ensures AllStand(Next(r, m))
  {
    if Enabled(r, m) {
      if m.Other? {
        OtherStands(r, m.action);
      } else if m.Commit? {
        CommitStands(r, m.tx);
      }
    }
  }

  lemma LogStep(r: Race, m: Move)
    requires AllStand(r) && r.db == Run(r.log)
    ensures Next(r, m).db == Run(Next(r, m).log)
  {
    if Enabled(r, m) {
      if m.Other? {
        RunAppend(r.log, m.action);
      } else if m.Commit? && Next(r, m).log != r.log {
        WrittenIsWhole(r.db, r.txs[m.tx]);
        RunAppend(r.log, WholeOf(r.txs[m.tx]));
      }
    }
  }

  /** However orders on budgets and everything else interleave, the tables are those of the run of whole transactions
      in the order they finished. */
  lemma {:induction false} RacesAreRuns(moves: seq<Move>)
    ensures Raced(moves).db == Run(Raced(moves).log) && Exclusive(Raced(moves)) && AllStand(Raced(moves))
  {
    if moves != [] {
      var r, m := Raced(moves[..|moves| - 1]), moves[|moves| - 1];
      RacesAreRuns(moves[..|moves| - 1]);
      ExclusiveStep(r, m);
      StandsStep(r, m);
      LogStep(r, m);
    }
  }

  /** So no race takes more out of a budget than is in it. */
  lemma NeverOverdrawn(moves: seq<Move>, budget: Id)
    requires budget in Raced(moves).db.budgets
    ensures 0 <= Raced(moves).db.budgets[budget].consumed <= Raced(moves).db.budgets[budget].amount
  {
    RacesAreRuns(moves);
    Budgets.RunBudgeted(Raced(moves).log);
    assert Budgets.BudgetOk(Raced(moves).db, budget);
  }
}
