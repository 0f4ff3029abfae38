/** What the ledger, the settlement row and the order state say about each other, in every state
    any run can reach. */
module Books {
  import opened Wrappers
  import opened Int64
  import opened Ledger
  import opened Market
  import opened Refunds

  /** One order's accounts, and what its payment and refund rows add up to. */
  datatype Books = Books(acc: Accounts, paid: Takings, refunds: int)

  datatype Takings = Takings(rows: nat, total: int)

  const NO_BOOKS := Books(NO_ACCOUNTS, Takings(0, 0), 0)

  function PaidRows(payments: seq<Payment>, id: Id): Takings {
    if payments == [] then Takings(0, 0)
    else
      var before, last := PaidRows(payments[..|payments| - 1], id), payments[|payments| - 1];
      if last.order == id then Takings(before.rows + 1, before.total + last.amount) else before
  }

  function RefundRows(refunds: seq<Refund>, id: Id): int {
    if refunds == [] then 0
    else
      var before, last := RefundRows(refunds[..|refunds| - 1], id), refunds[|refunds| - 1];
      if last.order == id then before + last.amount else before
  }

  function BooksOf(db: Db, id: Id): Books {
    Books(Balances(db.ledger, id), PaidRows(db.payments, id), RefundRows(db.refunds, id))
  }

  function SettlementOf(db: Db, id: Id): Option<Settlement> {
    if id in db.settlements then Some(db.settlements[id]) else None
  }

  // ----- The invariant

  predicate Live(s: Option<Settlement>) {
    s.Some? && !s.value.state.Voided?
  }

  predicate Owed(s: Option<Settlement>) {
    Live(s) && !s.value.state.PaidOut?
  }

  function Gross(s: Option<Settlement>): int {
    if Live(s) then s.value.gross else 0
  }

  /** What the one captured payment, if any, brought into escrow. */
  function Funding(order: Order, b: Books): int {
    if b.paid.rows > 0 then order.amount else 0
  }

  /** Every balance follows from the order, its settlement row and what was captured and given back. */
  predicate Agrees(order: Order, s: Option<Settlement>, b: Books) {
    && (b.paid == Takings(0, 0) || b.paid == Takings(1, order.amount - order.discount))
    && b.acc.buyerPayment == -b.paid.total
    && b.acc.promotionExpense == -(if b.paid.rows > 0 then order.discount else 0)
    && 0 <= b.acc.buyerRefund && 0 <= b.acc.promotionRecovery && b.refunds == b.acc.buyerRefund
    && (s.Some? ==> 0 <= s.value.fee && 0 <= s.value.net && s.value.gross == s.value.fee + s.value.net)
    && b.acc.platformRevenue == (if Live(s) then s.value.fee else 0)
    && b.acc.sellerPayable == (if Owed(s) then s.value.net else 0)
    && b.acc.sellerPayout == (if Live(s) && s.value.state.PaidOut? then s.value.net else 0)
    && b.acc.escrow == Funding(order, b) - Gross(s) - b.acc.Back()
  }

  /** Which settlements and refunds each order state admits. */
  predicate Stage(order: Order, s: Option<Settlement>, b: Books) {
    var back := b.acc.Back();
    match order.state
    case Created => b.paid.rows == 0 && s.None? && back == 0
    case PaymentPending => b.paid.rows == 0 && s.None? && back == 0
    case Accepted => Live(s) && s.value.gross == order.amount && back == 0
    case Disputed => (s.None? || (Live(s) && s.value.gross == order.amount)) && back == 0
    case Completed => Live(s) && s.value.gross + back == order.amount
    case Cancelled => s.None? && back == Funding(order, b)
    case Refunded =>
      || (Live(s) && s.value.gross == order.amount && back == 0)
      || (!Live(s) && (back == Funding(order, b) || back == order.amount))
    case _ => s.None? && back == 0
  }

  predicate Sane(order: Order) {
    0 <= order.discount <= order.amount <= MAX
  }

  predicate Sound(order: Order, s: Option<Settlement>, b: Books) {
    Sane(order) && Agrees(order, s, b) && Stage(order, s, b)
  }

  predicate OkAt(db: Db, id: Id) {
    if id in db.orders then Sound(db.orders[id], SettlementOf(db, id), BooksOf(db, id))
    else id !in db.settlements && BooksOf(db, id) == NO_BOOKS
  }

  ghost predicate Consistent(db: Db) {
    forall id: Id :: OkAt(db, id)
  }

  // ----- How one transaction changes the books

  predicate SameAt(before: Db, after: Db, id: Id) {
    && (id in before.orders <==> id in after.orders)
    && (id in before.orders ==> before.orders[id] == after.orders[id])
    && SettlementOf(before, id) == SettlementOf(after, id)
    && BooksOf(before, id) == BooksOf(after, id)
  }

  ghost predicate Elsewhere(before: Db, after: Db, id: Id) {
    forall other: Id :: other != id ==> SameAt(before, after, other)
  }

  /** Order `id` now reads as given, and no other order changed. */
  ghost predicate Became(before: Db, after: Db, id: Id, order: Order, s: Option<Settlement>, b: Books) {
    && Elsewhere(before, after, id)
    && id in after.orders && after.orders[id] == order
    && SettlementOf(after, id) == s && BooksOf(after, id) == b
  }

  lemma Look(db: Db, id: Id)
    requires Consistent(db)
    ensures OkAt(db, id)
  {
  }

  lemma Keeps(before: Db, after: Db, id: Id, order: Order, s: Option<Settlement>, b: Books)
    requires Consistent(before) && Became(before, after, id, order, s, b) && Sound(order, s, b)
    ensures Consistent(after)
  {
    forall other: Id ensures OkAt(after, other) {
      if other != id {
        assert OkAt(before, other) && SameAt(before, after, other);
      }
    }
  }

  /** How one transaction may change one order: identity and amounts never, the state along the
      table (paying jumps from either unpaid state to ready), captures only by that jump, and a
      paid-out settlement not at all. */
  predicate Evolution(order: Order, s: Option<Settlement>, b: Books, order': Order, s': Option<Settlement>, b': Books) {
    && order' == order.(state := order'.state, consumed := order'.consumed)
    && (order'.state == order.state || Allowed(order.state, order'.state)
        || (Unpaid(order.state) && order'.state.Ready?))
    && (if Unpaid(order.state) && order'.state.Ready? then b'.paid.rows == b.paid.rows + 1 else b'.paid == b.paid)
    && (s.Some? ==> s'.Some?)
    && (s.Some? && s.value.state.PaidOut? ==> s' == s)
  }

  ghost predicate Evolves(before: Db, after: Db) {
    forall id: Id :: id in before.orders ==>
      && id in after.orders
      && Evolution(before.orders[id], SettlementOf(before, id), BooksOf(before, id),
                   after.orders[id], SettlementOf(after, id), BooksOf(after, id))
  }

  lemma StandsStill(order: Order, s: Option<Settlement>, b: Books)
    ensures Evolution(order, s, b, order, s, b)
  {
  }

  /** One order evolved and the others stood still. */
  lemma OneEvolves(before: Db, after: Db, id: Id)
    requires Elsewhere(before, after, id)
    requires id in before.orders ==>
      && id in after.orders
      && Evolution(before.orders[id], SettlementOf(before, id), BooksOf(before, id),
                   after.orders[id], SettlementOf(after, id), BooksOf(after, id))
    ensures Evolves(before, after)
  {
    forall other: Id | other in before.orders
      ensures other in after.orders
      ensures Evolution(before.orders[other], SettlementOf(before, other), BooksOf(before, other),
                        after.orders[other], SettlementOf(after, other), BooksOf(after, other))
    {
      if other != id {
        assert SameAt(before, after, other);
        StandsStill(before.orders[other], SettlementOf(before, other), BooksOf(before, other));
      }
    }
  }

  lemma Advances(before: Db, after: Db, id: Id, order: Order, s: Option<Settlement>, b: Books)
    requires Consistent(before) && Became(before, after, id, order, s, b) && Sound(order, s, b)
    requires id in before.orders
             && Evolution(before.orders[id], SettlementOf(before, id), BooksOf(before, id), order, s, b)
    ensures Consistent(after) && Evolves(before, after)
  {
    Keeps(before, after, id, order, s, b);
    OneEvolves(before, after, id);
  }

  /** The same orders with the same books; settlement rows may differ. */
  ghost predicate OnlyRows(before: Db, after: Db) {
    before.orders == after.orders && forall id: Id :: BooksOf(before, id) == BooksOf(after, id)
  }

  lemma EvolvesAfterRows(before: Db, middle: Db, after: Db)
    requires OnlyRows(before, middle) && Evolves(before, middle) && Evolves(middle, after)
    ensures Evolves(before, after)
  {
    forall id: Id | id in before.orders
      ensures id in after.orders
      ensures Evolution(before.orders[id], SettlementOf(before, id), BooksOf(before, id),
                        after.orders[id], SettlementOf(after, id), BooksOf(after, id))
    {
      assert BooksOf(before, id) == BooksOf(middle, id);
    }
  }

  lemma ElsewhereTransitive(a: Db, b: Db, c: Db, id: Id)
    requires Elsewhere(a, b, id) && Elsewhere(b, c, id)
    ensures Elsewhere(a, c, id)
  {
    forall other: Id | other != id ensures SameAt(a, c, other) {
      assert SameAt(a, b, other) && SameAt(b, c, other);
    }
  }

  lemma Then(a: Db, m: Db, c: Db, id: Id, order: Order, s: Option<Settlement>, b: Books)
    requires Elsewhere(a, m, id) && Became(m, c, id, order, s, b)
    ensures Became(a, c, id, order, s, b)
  {
    ElsewhereTransitive(a, m, c, id);
  }

  lemma Posting(db: Db, id: Id, lines: seq<Line>)
    requires id in db.orders
    ensures
      var b := BooksOf(db, id);
      Became(db, db.(ledger := db.ledger + Posted(id, lines)), id, db.orders[id], SettlementOf(db, id),
             b.(acc := b.acc.MoveAll(lines)))
  {
    forall other: Id
      ensures Balances(db.ledger + Posted(id, lines), other)
           == if other == id then Balances(db.ledger, other).MoveAll(lines) else Balances(db.ledger, other)
    {
      PostedBalances(db.ledger, id, lines, other);
    }
  }

  lemma Capturing(db: Db, p: Payment)
    requires p.order in db.orders
    ensures
      var b := BooksOf(db, p.order);
      Became(db, db.(payments := db.payments + [p]), p.order, db.orders[p.order], SettlementOf(db, p.order),
             b.(paid := Takings(b.paid.rows + 1, b.paid.total + p.amount)))
  {
    assert (db.payments + [p])[..|db.payments|] == db.payments;
  }

  lemma RecordingRefund(db: Db, r: Refund)
    requires r.order in db.orders
    ensures
      var b := BooksOf(db, r.order);
      Became(db, db.(refunds := db.refunds + [r]), r.order, db.orders[r.order], SettlementOf(db, r.order),
             b.(refunds := b.refunds + r.amount))
  {
    assert (db.refunds + [r])[..|db.refunds|] == db.refunds;
  }

  lemma SettingState(db: Db, id: Id, to: OrderState)
    requires id in db.orders
    ensures Became(db, SetState(db, id, to), id, db.orders[id].(state := to), SettlementOf(db, id), BooksOf(db, id))
  {
  }

  lemma SettlingRow(db: Db, id: Id, s: Settlement)
    requires id in db.orders
    ensures Became(db, db.(settlements := db.settlements[id := s]), id, db.orders[id], Some(s), BooksOf(db, id))
  {
  }

  predicate OnlyReserve(before: Order, after: Order) {
    after == before.(consumed := after.consumed)
  }

  lemma Releasing(db: Db, id: Id, upTo: int)
    requires id in db.orders
    ensures
      var after := ReleaseBudget(db, id, upTo);
      && id in after.orders && OnlyReserve(db.orders[id], after.orders[id])
      && Became(db, after, id, after.orders[id], SettlementOf(db, id), BooksOf(db, id))
      && after.settlements == db.settlements && after.disputes == db.disputes
  {
  }

  /** `r` left escrow, `share` of it for the buyer and the rest for the promotion, and nothing else moved. */
  predicate Returned(b: Books, after: Books, r: int, share: int) {
    && 0 <= share <= r
    && after.acc == b.acc.(escrow := b.acc.escrow - r, buyerRefund := b.acc.buyerRefund + share,
                           promotionRecovery := b.acc.promotionRecovery + r - share)
    && after.paid == b.paid && after.refunds == b.refunds + share
  }

  /** The buyer's part of what an order gives back. */
  function ShareOf(order: Order, refund: int): int {
    if refund <= 0 then 0 else BuyerShare(refund, order.amount, order.discount)
  }

  lemma RefundMoves(acc: Accounts, refund: int, share: int)
    requires 0 <= share <= refund <= MAX
    ensures acc.MoveAll(RefundLines(refund, share))
         == acc.(escrow := acc.escrow - refund, buyerRefund := acc.buyerRefund + share,
                 promotionRecovery := acc.promotionRecovery + refund - share)
  {
    MoveThree(acc, DebitOf(Escrow, refund), CreditOf(BuyerRefund, share),
              CreditOf(PromotionRecovery, Wrap(refund - share)));
  }

  /** Refunding changed the order's books by `refund` and its reservation, and nothing else. */
  ghost predicate GaveBack(db: Db, after: Db, id: Id, refund: int) {
    && id in db.orders && id in after.orders && OnlyReserve(db.orders[id], after.orders[id])
    && Elsewhere(db, after, id)
    && after.settlements == db.settlements && after.disputes == db.disputes
    && Returned(BooksOf(db, id), BooksOf(after, id), refund, ShareOf(db.orders[id], refund))
  }

  lemma Refunding(db: Db, id: Id, refund: int, after: Db)
    requires id in db.orders && 0 <= refund <= MAX
    requires BookRefund(db, id, refund) == Ok(after)
    ensures GaveBack(db, after, id, refund)
  {
    if refund > 0 {
      var order := db.orders[id];
      var share := BuyerShare(refund, order.amount, order.discount);
      var recorded := if share > 0 then db.(refunds := db.refunds + [Refund(id, share)]) else db;
      var lines := RefundLines(refund, share);
      var posted := recorded.(ledger := recorded.ledger + Posted(id, lines));
      AcceptedSplit(refund, order.amount, order.discount);
      RefundingParts(db, id, refund, share, recorded, posted, after);
    }
  }

  lemma RefundingParts(db: Db, id: Id, refund: int, share: int, recorded: Db, posted: Db, after: Db)
    requires id in db.orders && 0 <= share <= refund <= MAX && share == ShareOf(db.orders[id], refund)
    requires recorded == if share > 0 then db.(refunds := db.refunds + [Refund(id, share)]) else db
    requires posted == recorded.(ledger := recorded.ledger + Posted(id, RefundLines(refund, share)))
    requires after == ReleaseBudget(posted, id, share)
    ensures GaveBack(db, after, id, refund)
  {
    RecordingRefund(db, Refund(id, share));
    assert Elsewhere(db, recorded, id);
    assert BooksOf(recorded, id) == BooksOf(db, id).(refunds := BooksOf(db, id).refunds + share);
    RefundMoves(BooksOf(recorded, id).acc, refund, share);
    Posting(recorded, id, RefundLines(refund, share));
    Releasing(posted, id, share);
    ElsewhereTransitive(db, recorded, posted, id);
    ElsewhereTransitive(db, posted, after, id);
  }

  lemma GaveBackThenReleased(db: Db, returned: Db, id: Id, refund: int, upTo: int)
    requires GaveBack(db, returned, id, refund)
    ensures GaveBack(db, ReleaseBudget(returned, id, upTo), id, refund)
  {
    Releasing(returned, id, upTo);
    ElsewhereTransitive(db, returned, ReleaseBudget(returned, id, upTo), id);
  }

  /** What a state change does: ending an order returns exactly its positive escrow, any other move
      leaves the books alone. */
  ghost predicate MovedTo(db: Db, after: Db, id: Id, to: OrderState) {
    && id in db.orders && id in after.orders
    && Became(db, after, id, after.orders[id], SettlementOf(db, id), BooksOf(after, id))
    && after.orders[id] == db.orders[id].(state := to, consumed := after.orders[id].consumed)
    && after.disputes == db.disputes
    && (if to.Cancelled? || to.Refunded? then
          Returned(BooksOf(db, id), BooksOf(after, id), Greatest(0, BooksOf(db, id).acc.escrow),
                   ShareOf(db.orders[id], Greatest(0, BooksOf(db, id).acc.escrow)))
        else BooksOf(after, id) == BooksOf(db, id))
  }

  lemma EndingShape(db: Db, id: Id, to: OrderState, after: Db) returns (returned: Db)
    requires id in db.orders && ApplyTransition(db, id, to) == Ok(after) && (to.Cancelled? || to.Refunded?)
    ensures if EscrowBalance(db, id) > 0 then BookRefund(db, id, EscrowBalance(db, id)) == Ok(returned)
            else returned == db
    ensures id in returned.orders && after == SetState(ReleaseBudget(returned, id, 0), id, to)
  {
    returned := if EscrowBalance(db, id) > 0 then BookRefund(db, id, EscrowBalance(db, id)).value else db;
  }

  lemma Moving(db: Db, id: Id, to: OrderState, after: Db)
    requires id in db.orders && ApplyTransition(db, id, to) == Ok(after)
    requires Balances(db.ledger, id).escrow <= MAX
    ensures MovedTo(db, after, id, to)
  {
    if to.Cancelled? || to.Refunded? {
      var returned := EndingShape(db, id, to, after);
      ReturnedBeforeEnding(db, id, returned);
      Ending(db, returned, id, EscrowBalance(db, id), to);
    } else {
      SettingState(db, id, to);
    }
  }

  lemma ReturnedBeforeEnding(db: Db, id: Id, returned: Db)
    requires id in db.orders && Balances(db.ledger, id).escrow <= MAX
    requires if EscrowBalance(db, id) > 0 then BookRefund(db, id, EscrowBalance(db, id)) == Ok(returned)
             else returned == db
    ensures GaveBack(db, returned, id, EscrowBalance(db, id))
  {
    if EscrowBalance(db, id) > 0 {
      Refunding(db, id, EscrowBalance(db, id), returned);
    }
  }

  lemma Ending(db: Db, returned: Db, id: Id, held: int, to: OrderState)
    requires id in db.orders && id in returned.orders
    requires GaveBack(db, returned, id, held) && held == Greatest(0, BooksOf(db, id).acc.escrow)
    requires to.Cancelled? || to.Refunded?
    ensures MovedTo(db, SetState(ReleaseBudget(returned, id, 0), id, to), id, to)
  {
    GaveBackThenReleased(db, returned, id, held, 0);
    var released := ReleaseBudget(returned, id, 0);
    SettingState(released, id, to);
    ElsewhereTransitive(db, released, SetState(released, id, to), id);
  }
}
