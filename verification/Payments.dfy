/** Payments for the same orders racing each other and everything else. A payment is several statements of one
    transaction: lock and read the order row, look the key up, write and commit. Another transaction that needs
    the order row waits from the first statement to the end; everything else interleaves freely. */
module Payments {
  import opened Wrappers
  import opened Ledger
  import opened Pricing
  import opened Market
  import opened Books
  import opened EscrowRuns
  import opened EscrowTheorems
  import opened DisputeRuns

  datatype Request = Request(who: Principal, order: Id, key: string, payment: Id)

  /** `seen` is the order row as the first statement read it. */
  datatype Progress = Begun | Locked(seen: Order) | Missed(seen: Order)

  datatype Tx = Tx(request: Request, stage: Progress)

  datatype Answer = Forbidden | Refused | Failed | Replayed(paid: Id) | Captured(paid: Id)

  datatype Reply = Reply(request: Request, answer: Answer)

  /** The committed tables, the payments in flight, what was answered, and the transactions that committed. */
  datatype Race = Race(db: Db, txs: map<Id, Tx>, replies: map<Id, Reply>, log: seq<Action>)

  const START := Race(EMPTY_DB, map[], map[], [])

  datatype Move =
    | Begin(tx: Id, request: Request)
    | ReadOrder(tx: Id)
    | LookUp(tx: Id)
    | Commit(tx: Id)
    | Crash(tx: Id)
    | Other(action: Action)

  predicate Holds(tx: Tx, order: Id) {
    tx.request.order == order && !tx.stage.Begun?
  }

  predicate Free(r: Race, order: Id) {
    forall t :: t in r.txs ==> !Holds(r.txs[t], order)
  }

  /** Whether the transaction needs the row of this order; the settlement updates look at no order row. */
  predicate Needs(db: Db, a: Action, order: Id) {
    match a
    case DoCreate(id, _, _, _, _, _) => id == order
    case DoOpenBudget(_, _) => false
    case DoPay(_, id, _, _) => id == order
    case DoTransition(_, id, _, _, _) => id == order
    case DoSubmitRequirement(_, id) => id == order
    case DoDeliver(_, id) => id == order
    case DoRevise(_, id, _) => id == order
    case DoAccept(_, id, _) => id == order
    case DoAutoAccept(id, _) => id == order
    case DoExpire(id, _) => id == order
    case DoReview(_, id) => id == order
    case DoOpenDispute(_, id, _) => id == order
    case DoResolve(dispute, _, _) => dispute in db.disputes && db.disputes[dispute].order == order
    case DoSettlement(_, _) => false
    case DoDecide(_, _) => false
  }

  predicate FreshPayment(r: Race, payment: Id) {
    && (forall t :: t in r.txs ==> r.txs[t].request.payment != payment)
    && (forall t :: t in r.replies ==> r.replies[t].request.payment != payment)
  }

  predicate Enabled(r: Race, m: Move) {
    match m
    case Begin(t, request) => t !in r.txs && t !in r.replies && FreshPayment(r, request.payment)
    case ReadOrder(t) => t in r.txs && r.txs[t].stage.Begun? && Free(r, r.txs[t].request.order)
    case LookUp(t) => t in r.txs && r.txs[t].stage.Locked?
    case Commit(t) => t in r.txs && r.txs[t].stage.Missed?
    case Crash(t) => t in r.txs
    case Other(a) => forall t :: t in r.txs && !r.txs[t].stage.Begun? ==> !Needs(r.db, a, r.txs[t].request.order)
  }

  function WholeOf(request: Request): Action {
    DoPay(request.who, request.order, request.key, request.payment)
  }

  /** The payment filed under this order and key, if there is one. */
  function Found(payments: seq<Payment>, order: Id, key: string): Option<Id> {
    if payments == [] then None
    else
      var last := payments[|payments| - 1];
      if last.order == order && last.key == key then Some(last.id) else Found(payments[..|payments| - 1], order, key)
  }

  function Put(r: Race, t: Id, stage: Progress): Race
    requires t in r.txs
  {
    r.(txs := r.txs[t := r.txs[t].(stage := stage)])
  }

  /** The request is answered and its transaction over; `db` is what is committed now. */
  function Replied(r: Race, t: Id, db: Db, answer: Answer): Race
    requires t in r.txs
  {
    Race(db, r.txs - {t}, r.replies[t := Reply(r.txs[t].request, answer)], r.log + [WholeOf(r.txs[t].request)])
  }

  /** The rows a payment writes, from what its first statement read. */
  function Written(db: Db, seen: Order, request: Request): Db
    requires request.order in db.orders
  {
    db.(payments := db.payments + [Payment(request.payment, request.order, request.key, seen.amount - seen.discount)],
        ledger := db.ledger + Posted(request.order, PayLines(seen.amount, seen.discount)),
        orders := db.orders[request.order := db.orders[request.order].(state := Ready)])
  }

  function Next(r: Race, m: Move): Race {
    if !Enabled(r, m) then r
    else
      match m
      case Begin(t, request) => r.(txs := r.txs[t := Tx(request, Begun)])
      case ReadOrder(t) =>
        var request := r.txs[t].request;
        if request.order in r.db.orders && MayPay(request.who, r.db.orders[request.order]) then
          Put(r, t, Locked(r.db.orders[request.order]))
        else Replied(r, t, r.db, Forbidden)
      case LookUp(t) =>
        var request, seen := r.txs[t].request, r.txs[t].stage.seen;
        var found := Found(r.db.payments, request.order, request.key);
        if found.Some? then Replied(r, t, r.db, Replayed(found.value))
        else if !Unpaid(seen.state) then Replied(r, t, r.db, Refused)
        else Put(r, t, Missed(seen))
      case Commit(t) =>
        var request, seen := r.txs[t].request, r.txs[t].stage.seen;
        if request.order in r.db.orders && Accepts(PayLines(seen.amount, seen.discount)) then
          Replied(r, t, Written(r.db, seen, request), Captured(request.payment))
        else Replied(r, t, r.db, Failed)
      case Crash(t) => r.(txs := r.txs - {t})
      case Other(a) => r.(db := Step(r.db, a), log := r.log + [a])
  }

  function Raced(moves: seq<Move>): Race {
    if moves == [] then START else Next(Raced(moves[..|moves| - 1]), moves[|moves| - 1])
  }

  // ----- What a transaction leaves alone

  predicate KeepsRow(db: Db, after: Db, id: Id) {
    id in db.orders && id in after.orders && after.orders[id] == db.orders[id]
  }

  lemma WorkKeepsRow(db: Db, a: Action, id: Id)
    requires id in db.orders && !Needs(db, a, id)
    requires a.DoSubmitRequirement? || a.DoDeliver? || a.DoRevise? || a.DoAccept? || a.DoAutoAccept?
    ensures KeepsRow(db, Step(db, a), id)
  {
    var after := Step(db, a);
    if Attempt(db, a).Ok? && after != db {
      match a
      case DoSubmitRequirement(_, _) =>
      case DoDeliver(_, moved) => MoveMoves(db, moved, Delivered, after);
      case DoRevise(_, moved, _) => MoveMoves(db, moved, RevisionRequested, after);
      case DoAccept(_, moved, setting) => AcceptMoves(db, moved, FeeRate(setting), after);
      case DoAutoAccept(moved, setting) => AcceptMoves(db, moved, FeeRate(setting), after);
    }
  }

  lemma EndKeepsRow(db: Db, a: Action, id: Id)
    requires id in db.orders && !Needs(db, a, id) && (a.DoTransition? || a.DoExpire? || a.DoReview? || a.DoOpenDispute?)
    ensures KeepsRow(db, Step(db, a), id)
  {
    var after := Step(db, a);
    if Attempt(db, a).Ok? && after != db {
      match a
      case DoTransition(_, moved, to, _, setting) =>
        if to.Accepted? {
          AcceptMoves(db, moved, FeeRate(setting), after);
        } else {
          MoveMoves(db, moved, to, after);
        }
      case DoExpire(moved, _) => MoveMoves(db.(redemptions := db.redemptions - {moved}), moved, Cancelled, after);
      case DoReview(_, moved) =>
        if db.orders[moved].state.Accepted? {
          MoveMoves(db.(reviews := db.reviews + {moved}), moved, Completed, after);
        }
      case DoOpenDispute(_, moved, dispute) =>
        MoveMoves(db.(disputes := db.disputes[dispute := Dispute(moved, true)],
                      settlements := Frozen(db.settlements, moved)),
                  moved, Disputed, after);
    }
  }

  lemma PlacingKeepsRow(db: Db, a: Action, id: Id)
    requires id in db.orders && !Needs(db, a, id)
    requires a.DoCreate? || a.DoOpenBudget? || a.DoPay? || a.DoSettlement? || a.DoDecide?
    ensures KeepsRow(db, Step(db, a), id)
  {
    if a.DoPay? && Attempt(db, a).Ok? {
      PayOutcome(db, a.who, a.id, a.key, a.payment, Step(db, a));
    }
  }

  /** A transaction that does not need an order's row does not change it. */
  lemma StepKeepsRow(db: Db, a: Action, id: Id)
    requires id in db.orders && !Needs(db, a, id)
    ensures KeepsRow(db, Step(db, a), id)
  {
    if a.DoResolve? {
      if Attempt(db, a).Ok? {
        ResolvingMoves(db, a.dispute, a.outcome, FeeRate(a.feeSetting), Step(db, a));
      }
    } else if a.DoTransition? || a.DoExpire? || a.DoReview? || a.DoOpenDispute? {
      EndKeepsRow(db, a, id);
    } else if a.DoSubmitRequirement? || a.DoDeliver? || a.DoRevise? || a.DoAccept? || a.DoAutoAccept? {
      WorkKeepsRow(db, a, id);
    } else {
      PlacingKeepsRow(db, a, id);
    }
  }

  lemma RefundKeepsPayments(db: Db, id: Id, refund: int, after: Db)
    requires id in db.orders && BookRefund(db, id, refund) == Ok(after)
    ensures after.payments == db.payments
  {
  }

  lemma MoveKeepsPayments(db: Db, id: Id, to: OrderState, after: Db)
    requires id in db.orders && ApplyTransition(db, id, to) == Ok(after)
    ensures after.payments == db.payments
  {
    if to.Cancelled? || to.Refunded? {
      var returned := EndingShape(db, id, to, after);
      if EscrowBalance(db, id) > 0 {
        RefundKeepsPayments(db, id, EscrowBalance(db, id), returned);
      }
    }
  }

  lemma ConfirmingKeepsPayments(db: Db, id: Id, rate: real, after: Db)
    requires id in db.orders && AcceptAndSettle(db, id, rate) == Ok(after)
    ensures after.payments == db.payments
  {
    PlainMove(db, id, Accepted);
  }

  lemma RedividingKeepsPayments(db: Db, id: Id, refund: int, rate: real, after: Db)
    requires id in db.orders && Redivide(db, id, refund, rate) == Ok(after)
    ensures after.payments == db.payments
  {
    var unwound, refunded := RedivideSteps(db, id, refund, rate, after);
    RefundKeepsPayments(unwound, id, refund, refunded);
  }

  lemma ResolvingKeepsPayments(db: Db, dispute: Id, outcome: Outcome, rate: real, after: Db)
    requires ResolveDispute(db, dispute, outcome, rate) == Ok(after)
    ensures after.payments == db.payments
  {
    ResolveOpens(db, dispute, outcome, rate, after);
    var id := db.disputes[dispute].order;
    var refund := RefundOf(outcome, db.orders[id].amount);
    var rebooked := RedistributeSteps(db, dispute, id, refund, rate, after);
    RedividingKeepsPayments(db, id, refund, rate, rebooked);
    MoveKeepsPayments(rebooked.(disputes := rebooked.disputes[dispute := Dispute(id, false)]), id,
                      if refund == db.orders[id].amount then Refunded else Completed, after);
  }

  /** Payments are only ever appended, and only by a payment of their order under their key. */
  ghost predicate PaysAtMost(db: Db, after: Db, a: Action) {
    || after.payments == db.payments
    || (a.DoPay? && exists amount :: after.payments == db.payments + [Payment(a.payment, a.id, a.key, amount)])
  }

  lemma PaidRow(db: Db, id: Id, key: string, payment: Id)
    requires id in db.orders
    ensures PaidDb(db, id, key, payment).payments
         == db.payments + [Payment(payment, id, key, db.orders[id].amount - db.orders[id].discount)]
  {
  }

  lemma PayPays(db: Db, who: Principal, id: Id, key: string, payment: Id, after: Db)
    requires PayOrder(db, who, id, key, payment) == Ok(after)
    ensures id in db.orders
    ensures after.payments
         == if Replays(db, id, key) then db.payments
            else db.payments + [Payment(payment, id, key, db.orders[id].amount - db.orders[id].discount)]
  {
    PayOutcome(db, who, id, key, payment, after);
    PaidRow(db, id, key, payment);
  }

  lemma StepKeepsPayments(db: Db, a: Action)
    requires !a.DoPay?
    ensures Step(db, a).payments == db.payments
  {
    if Attempt(db, a).Ok? && Step(db, a) != db {
      var after := Step(db, a);
      match a
      case DoTransition(_, id, to, _, setting) =>
        if to.Accepted? {
          ConfirmingKeepsPayments(db, id, FeeRate(setting), after);
        } else {
          MoveKeepsPayments(db, id, to, after);
        }
      case DoDeliver(_, id) => MoveKeepsPayments(db, id, Delivered, after);
      case DoRevise(_, id, _) => MoveKeepsPayments(db, id, RevisionRequested, after);
      case DoAccept(_, id, setting) => ConfirmingKeepsPayments(db, id, FeeRate(setting), after);
      case DoAutoAccept(id, setting) => ConfirmingKeepsPayments(db, id, FeeRate(setting), after);
      case DoExpire(id, _) => MoveKeepsPayments(db.(redemptions := db.redemptions - {id}), id, Cancelled, after);
      case DoReview(_, id) =>
        if db.orders[id].state.Accepted? {
          MoveKeepsPayments(db.(reviews := db.reviews + {id}), id, Completed, after);
        }
      case DoOpenDispute(_, id, dispute) =>
        MoveKeepsPayments(db.(disputes := db.disputes[dispute := Dispute(id, true)],
                              settlements := Frozen(db.settlements, id)),
                          id, Disputed, after);
      case DoResolve(dispute, outcome, setting) =>
        ResolvingKeepsPayments(db, dispute, outcome, FeeRate(setting), after);
      case _ =>
    }
  }

  lemma StepPays(db: Db, a: Action)
    ensures PaysAtMost(db, Step(db, a), a)
  {
    if !a.DoPay? {
      StepKeepsPayments(db, a);
    } else if Attempt(db, a).Ok? {
      PayPays(db, a.who, a.id, a.key, a.payment, Step(db, a));
    }
  }

  lemma FoundAppends(payments: seq<Payment>, p: Payment, order: Id, key: string)
    ensures Found(payments + [p], order, key)
         == if p.order == order && p.key == key then Some(p.id) else Found(payments, order, key)
  {
    assert (payments + [p])[..|payments|] == payments;
  }

  lemma StepKeepsFound(db: Db, a: Action, order: Id, key: string)
    requires !Needs(db, a, order)
    ensures Found(Step(db, a).payments, order, key) == Found(db.payments, order, key)
  {
    StepPays(db, a);
    if Step(db, a).payments != db.payments {
      var amount :| Step(db, a).payments == db.payments + [Payment(a.payment, a.id, a.key, amount)];
      FoundAppends(db.payments, Payment(a.payment, a.id, a.key, amount), order, key);
    }
  }

  lemma {:induction false} FoundIff(payments: seq<Payment>, order: Id, key: string)
    ensures Found(payments, order, key).Some?
      <==> exists i :: 0 <= i < |payments| && payments[i].order == order && payments[i].key == key
  {
    if payments != [] {
      var front := payments[..|payments| - 1];
      FoundIff(front, order, key);
      if Found(front, order, key).Some? {
        var i :| 0 <= i < |front| && front[i].order == order && front[i].key == key;
        assert payments[i] == front[i];
      } else {
        assert forall i :: 0 <= i < |front| ==> payments[i] == front[i];
      }
    }
  }

  // ----- Each answer is that of one whole transaction

  /** What a whole payment answers when it runs on these tables. */
  function Whole(db: Db, request: Request): Answer {
    match PayOrder(db, request.who, request.order, request.key, request.payment)
    case Ok(_) =>
      var found := Found(db.payments, request.order, request.key);
      if found.Some? then Replayed(found.value) else Captured(request.payment)
    case Err(error) => if error.Denied? then Forbidden else if error.InvalidState? then Refused else Failed
  }

  /** Under the lock, what a transaction read and looked up still stands. */
  predicate Stands(db: Db, tx: Tx) {
    var request := tx.request;
    && (!tx.stage.Begun? ==>
          request.order in db.orders && db.orders[request.order] == tx.stage.seen && MayPay(request.who, tx.stage.seen))
    && (tx.stage.Missed? ==> Found(db.payments, request.order, request.key).None? && Unpaid(tx.stage.seen.state))
  }

  lemma CaptureGoes(db: Db, id: Id, key: string, payment: Id)
    requires id in db.orders
    ensures
      var captured := CapturePayment(db, id, key, payment);
      if Accepts(PayLines(db.orders[id].amount, db.orders[id].discount)) then captured.Ok?
      else captured == Err(Unbalanced)
  {
  }

  lemma PayGoes(db: Db, request: Request)
    requires request.order in db.orders && MayPay(request.who, db.orders[request.order])
             && Unpaid(db.orders[request.order].state)
    requires !Replays(db, request.order, request.key)
    ensures
      var order := db.orders[request.order];
      var paid := PayOrder(db, request.who, request.order, request.key, request.payment);
      if Accepts(PayLines(order.amount, order.discount)) then paid.Ok? else paid == Err(Unbalanced)
  {
    PlainMove(db, request.order, PaymentPending);
    CaptureGoes(db, request.order, request.key, request.payment);
    CaptureGoes(SetState(db, request.order, PaymentPending), request.order, request.key, request.payment);
  }

  lemma WrittenIsPaid(db: Db, request: Request)
    requires request.order in db.orders
    ensures Written(db, db.orders[request.order], request) == PaidDb(db, request.order, request.key, request.payment)
  {
  }

  lemma WrittenIsWhole(db: Db, tx: Tx)
    requires Stands(db, tx) && tx.stage.Missed?
    ensures
      var request, seen := tx.request, tx.stage.seen;
      if Accepts(PayLines(seen.amount, seen.discount)) then
        Written(db, seen, request) == Step(db, WholeOf(request)) && Whole(db, request) == Captured(request.payment)
      else Step(db, WholeOf(request)) == db && Whole(db, request) == Failed
  {
    var request := tx.request;
    FoundIff(db.payments, request.order, request.key);
    PayGoes(db, request);
    WrittenIsPaid(db, request);
    if Accepts(PayLines(tx.stage.seen.amount, tx.stage.seen.discount)) {
      PayOutcome(db, request.who, request.order, request.key, request.payment, Step(db, WholeOf(request)));
    }
  }

  /** Whichever step answers a request, tables and answer are those of its whole transaction at that moment. */
  lemma AnswerIsWhole(r: Race, m: Move, t: Id)
    requires t in r.txs && Stands(r.db, r.txs[t]) && t in Next(r, m).replies && t !in r.replies
    ensures
      var request := r.txs[t].request;
      && Next(r, m).db == Step(r.db, WholeOf(request))
      && Next(r, m).replies[t] == Reply(request, Whole(r.db, request))
  {
    var request := r.txs[t].request;
    FoundIff(r.db.payments, request.order, request.key);
    if m.Commit? {
      WrittenIsWhole(r.db, r.txs[t]);
    }
  }

  /** A payment that nobody comes between is answered, as its whole transaction is. */
  lemma AloneIsAnswered(r: Race, t: Id)
    requires t in r.txs && t !in r.replies && r.txs[t].stage.Begun? && Free(r, r.txs[t].request.order)
    ensures
      var request, after := r.txs[t].request, Next(Next(Next(r, ReadOrder(t)), LookUp(t)), Commit(t));
      && after.db == Step(r.db, WholeOf(request))
      && t in after.replies && after.replies[t] == Reply(request, Whole(r.db, request))
  {
    var read := Next(r, ReadOrder(t));
    if t in read.replies {
      AnswerIsWhole(r, ReadOrder(t), t);
    } else {
      var looked := Next(read, LookUp(t));
      FoundIff(read.db.payments, r.txs[t].request.order, r.txs[t].request.key);
      if t in looked.replies {
        AnswerIsWhole(read, LookUp(t), t);
      } else {
        AnswerIsWhole(looked, Commit(t), t);
      }
    }
  }

  // ----- Every interleaving

  predicate Served(reply: Reply) {
    reply.answer.Replayed? || reply.answer.Captured?
  }

  predicate Filed(p: Payment, reply: Reply)
    requires Served(reply)
  {
    p.id == reply.answer.paid && p.order == reply.request.order && p.key == reply.request.key
  }

  /** A request that was answered with a payment was answered with one that is on file for it. */
  predicate OnFile(db: Db, reply: Reply) {
    Served(reply) ==>
      && (reply.answer.Captured? ==> reply.answer.paid == reply.request.payment)
      && exists i :: 0 <= i < |db.payments| && Filed(db.payments[i], reply)
  }

  /** Nobody else holds an order somebody holds. */
  ghost predicate Exclusive(r: Race) {
    forall t, u, order :: t in r.txs && u in r.txs && Holds(r.txs[t], order) && Holds(r.txs[u], order) ==> t == u
  }

  /** Payment ids are drawn fresh, and a request is answered once. */
  predicate FreshIds(r: Race) {
    && (forall t, u :: (t in r.txs && u in r.txs && r.txs[t].request.payment == r.txs[u].request.payment) ==> t == u)
    && (forall t, u :: t in r.txs && u in r.replies ==> r.txs[t].request.payment != r.replies[u].request.payment)
    && (forall t, u :: (t in r.replies && u in r.replies
                        && r.replies[t].request.payment == r.replies[u].request.payment) ==> t == u)
    && r.txs.Keys !! r.replies.Keys
  }

  predicate Grounded(r: Race) {
    && (forall t :: t in r.txs ==> Stands(r.db, r.txs[t]))
    && (forall t :: t in r.replies ==> OnFile(r.db, r.replies[t]))
  }

  lemma ExclusiveStep(r: Race, m: Move)
    requires Exclusive(r)
    ensures Exclusive(Next(r, m))
  {
  }

  lemma BeginFresh(r: Race, t: Id, request: Request)
    requires FreshIds(r) && Enabled(r, Begin(t, request))
    ensures FreshIds(Next(r, Begin(t, request)))
  {
  }

  lemma RepliedFresh(r: Race, t: Id, db: Db, answer: Answer)
    requires FreshIds(r) && t in r.txs
    ensures FreshIds(Replied(r, t, db, answer))
  {
  }

  lemma PutFresh(r: Race, t: Id, stage: Progress)
    requires FreshIds(r) && t in r.txs
    ensures FreshIds(Put(r, t, stage))
  {
  }

  lemma FreshStep(r: Race, m: Move)
    requires FreshIds(r)
    ensures FreshIds(Next(r, m))
  {
    if Enabled(r, m) {
      var after := Next(r, m);
      if m.Begin? {
        BeginFresh(r, m.tx, m.request);
      } else if m.Other? || m.Crash? {
      } else if m.tx in after.replies {
        RepliedFresh(r, m.tx, after.db, after.replies[m.tx].answer);
      } else {
        PutFresh(r, m.tx, after.txs[m.tx].stage);
      }
    }
  }

  lemma StillStands(db: Db, a: Action, tx: Tx)
    requires Stands(db, tx) && (!tx.stage.Begun? ==> !Needs(db, a, tx.request.order))
    ensures Stands(Step(db, a), tx)
  {
    if !tx.stage.Begun? {
      StepKeepsRow(db, a, tx.request.order);
      StepKeepsFound(db, a, tx.request.order, tx.request.key);
    }
  }

  lemma StillOnFile(db: Db, a: Action, reply: Reply)
    requires OnFile(db, reply)
    ensures OnFile(Step(db, a), reply)
  {
    StepPays(db, a);
    if Served(reply) {
      var i :| 0 <= i < |db.payments| && Filed(db.payments[i], reply);
      assert Step(db, a).payments[i] == db.payments[i];
    }
  }

  lemma {:induction false} FoundIsFiled(payments: seq<Payment>, order: Id, key: string)
    requires Found(payments, order, key).Some?
    ensures exists i :: 0 <= i < |payments| && payments[i].order == order && payments[i].key == key
                        && payments[i].id == Found(payments, order, key).value
  {
    var front, last := payments[..|payments| - 1], payments[|payments| - 1];
    if !(last.order == order && last.key == key) {
      FoundIsFiled(front, order, key);
      var i :| 0 <= i < |front| && front[i].order == order && front[i].key == key
               && front[i].id == Found(front, order, key).value;
      assert payments[i] == front[i];
    }
  }

  lemma WholeIsOnFile(db: Db, request: Request)
    ensures OnFile(Step(db, WholeOf(request)), Reply(request, Whole(db, request)))
  {
    var a, reply := WholeOf(request), Reply(request, Whole(db, request));
    if PayOrder(db, request.who, request.order, request.key, request.payment).Ok? {
      PayOutcome(db, request.who, request.order, request.key, request.payment, Step(db, a));
      FoundIff(db.payments, request.order, request.key);
      if Found(db.payments, request.order, request.key).Some? {
        FoundIsFiled(db.payments, request.order, request.key);
      } else {
        var payments := Step(db, a).payments;
        assert Filed(payments[|payments| - 1], reply);
      }
    }
  }

  lemma OthersStand(r: Race, t: Id, u: Id)
    requires Exclusive(r) && t in r.txs && u in r.txs && u != t && !r.txs[t].stage.Begun? && Stands(r.db, r.txs[u])
    ensures Stands(Step(r.db, WholeOf(r.txs[t].request)), r.txs[u])
  {
    assert !r.txs[u].stage.Begun? ==>
             Holds(r.txs[u], r.txs[u].request.order) && Holds(r.txs[t], r.txs[t].request.order);
    StillStands(r.db, WholeOf(r.txs[t].request), r.txs[u]);
  }

  /** Answering a request leaves what every other transaction relies on in place. */
  lemma AnsweredGrounded(r: Race, m: Move, t: Id)
    requires Exclusive(r) && FreshIds(r) && Grounded(r) && t in r.txs && t in Next(r, m).replies
    ensures Grounded(Next(r, m))
  {
    var request, after := r.txs[t].request, Next(r, m);
    AnswerIsWhole(r, m, t);
    WholeIsOnFile(r.db, request);
    AnsweredParts(r, m, t);
    forall u | u in after.txs ensures Stands(after.db, after.txs[u]) {
      if after.db != r.db {
        OthersStand(r, t, u);
      }
    }
    forall u | u in after.replies ensures OnFile(after.db, after.replies[u]) {
      if u != t {
        StillOnFile(r.db, WholeOf(request), r.replies[u]);
      }
    }
  }

  lemma AnsweredParts(r: Race, m: Move, t: Id)
    requires t in r.txs && t !in r.replies && t in Next(r, m).replies
    ensures Next(r, m).txs == r.txs - {t}
    ensures Next(r, m).replies == r.replies[t := Next(r, m).replies[t]]
    ensures Next(r, m).log == r.log + [WholeOf(r.txs[t].request)]
    ensures Next(r, m).db == r.db || !r.txs[t].stage.Begun?
  {
  }

  lemma OtherGrounded(r: Race, a: Action)
    requires Grounded(r) && Enabled(r, Other(a))
    ensures Grounded(Next(r, Other(a)))
  {
    forall t | t in r.txs ensures Stands(Step(r.db, a), r.txs[t]) {
      StillStands(r.db, a, r.txs[t]);
    }
    forall t | t in r.replies ensures OnFile(Step(r.db, a), r.replies[t]) {
      StillOnFile(r.db, a, r.replies[t]);
    }
  }

  lemma GroundedStep(r: Race, m: Move)
    requires Exclusive(r) && FreshIds(r) && Grounded(r)
    ensures Grounded(Next(r, m))
  {
    if Enabled(r, m) {
      if m.Other? {
        OtherGrounded(r, m.action);
      } else if m.tx in Next(r, m).replies {
        AnsweredGrounded(r, m, m.tx);
      }
    }
  }

  lemma LogStep(r: Race, m: Move)
    requires FreshIds(r) && Grounded(r) && r.db == Run(r.log)
    ensures Next(r, m).db == Run(Next(r, m).log)
  {
    if Enabled(r, m) {
      if m.Other? {
        RunAppend(r.log, m.action);
      } else if m.tx in Next(r, m).replies {
        AnswerIsWhole(r, m, m.tx);
        AnsweredParts(r, m, m.tx);
        RunAppend(r.log, WholeOf(r.txs[m.tx].request));
      }
    }
  }

  /** However payments and everything else interleave, the tables are those of the run of whole transactions in
      the order they finished, so everything proved of runs holds of them. */
  lemma {:induction false} RacesAreRuns(moves: seq<Move>)
    ensures Raced(moves).db == Run(Raced(moves).log)
    ensures Exclusive(Raced(moves)) && FreshIds(Raced(moves)) && Grounded(Raced(moves))
  {
    if moves != [] {
      var r, m := Raced(moves[..|moves| - 1]), moves[|moves| - 1];
      RacesAreRuns(moves[..|moves| - 1]);
      ExclusiveStep(r, m);
      FreshStep(r, m);
      GroundedStep(r, m);
      LogStep(r, m);
    }
  }

  /** Whatever races, all requests for one order that were answered with a payment were answered with the same
      one, under the same key, and at most one of them captured it. */
  lemma OnePaymentPerOrder(moves: seq<Move>, t: Id, u: Id)
    requires t in Raced(moves).replies && u in Raced(moves).replies
    requires Served(Raced(moves).replies[t]) && Served(Raced(moves).replies[u])
    requires Raced(moves).replies[t].request.order == Raced(moves).replies[u].request.order
    ensures
      var first, second := Raced(moves).replies[t], Raced(moves).replies[u];
      && first.answer.paid == second.answer.paid && first.request.key == second.request.key
      && (first.answer.Captured? && second.answer.Captured? ==> t == u)
  {
    RacesAreRuns(moves);
    var r := Raced(moves);
    assert OnFile(r.db, r.replies[t]) && OnFile(r.db, r.replies[u]);
    var i :| 0 <= i < |r.db.payments| && Filed(r.db.payments[i], r.replies[t]);
    var j :| 0 <= j < |r.db.payments| && Filed(r.db.payments[j], r.replies[u]);
    OnlyPayment(r.log, r.replies[t].request.order, i, j);
  }
}
