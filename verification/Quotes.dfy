/** One request for quotation: sellers submit quotes while the buyer accepts one. Submitting checks that
    the request is open before its own transaction begins; accepting locks the chosen quote, later closes
    every quote it then finds submitted, and commits. All of these steps interleave. */
module Quotes {
  import opened Wrappers

  type Id = nat

  datatype QuoteState = Submitted | Accepted | Rejected

  datatype Quote = Quote(seller: Id, amount: nat, state: QuoteState, order: Option<Id>)

  datatype Order = Order(seller: Id, amount: nat)

  /** A submission that has seen the request open and not yet written its quote. */
  datatype Draft = Draft(seller: Id, amount: nat)

  /** An acceptance in flight; closing it takes the other submitted quotes as its losers. */
  datatype Acceptance = Acceptance(quote: Id, order: Id, closed: bool, losers: set<Id>)

  /** `late` keeps track of the quotes that came in after the list was closed, by the acceptance in
      progress or by the award. */
  datatype State = State(buyer: Id, awarded: bool, quotes: map<Id, Quote>, orders: map<Id, Order>,
                         drafts: map<Id, Draft>, txs: map<Id, Acceptance>, late: set<Id>)

  function Opened(buyer: Id): State {
    State(buyer, false, map[], map[], map[], map[], {})
  }

  predicate Holds(tx: Acceptance, quote: Id) {
    quote == tx.quote || quote in tx.losers
  }

  predicate Free(s: State, quote: Id) {
    forall t :: t in s.txs ==> !Holds(s.txs[t], quote)
  }

  predicate Closing(s: State) {
    s.awarded || exists t :: t in s.txs && s.txs[t].closed
  }

  predicate IsSubmitted(s: State, quote: Id) {
    quote in s.quotes && s.quotes[quote].state.Submitted?
  }

  function SubmittedQuotes(s: State): set<Id> {
    set q | q in s.quotes && s.quotes[q].state.Submitted?
  }

  // ----- Steps

  datatype Action =
    | CheckOpen(draft: Id, seller: Id, amount: nat)
    | Insert(draft: Id, quote: Id)
    | Revise(draft: Id, quote: Id)
    | Begin(tx: Id, quote: Id, order: Id)
    | Close(tx: Id)
    | Commit(tx: Id)
    | Abort(tx: Id)

  /** Inserting and revising are the two branches of one upsert on the seller's quote: revising waits for the
      row, and only a submitted quote can be revised. Closing waits for every submitted quote another
      acceptance holds. */
  predicate Enabled(s: State, a: Action) {
    match a
    case CheckOpen(draft, seller, _) => draft !in s.drafts && !s.awarded && seller != s.buyer
    case Insert(draft, quote) =>
      && draft in s.drafts && quote !in s.quotes
      && forall q :: q in s.quotes ==> s.quotes[q].seller != s.drafts[draft].seller
    case Revise(draft, quote) =>
      draft in s.drafts && IsSubmitted(s, quote) && s.quotes[quote].seller == s.drafts[draft].seller && Free(s, quote)
    case Begin(t, quote, order) =>
      && t !in s.txs && IsSubmitted(s, quote) && !s.awarded && Free(s, quote)
      && order !in s.orders && forall u :: u in s.txs ==> s.txs[u].order != order
    case Close(t) => t in s.txs && !s.txs[t].closed && forall u :: u in s.txs && u != t ==> NoneSubmitted(s, s.txs[u])
    case Commit(t) => t in s.txs && s.txs[t].closed
    case Abort(t) => t in s.txs
  }

  predicate NoneSubmitted(s: State, tx: Acceptance) {
    !IsSubmitted(s, tx.quote) && forall q :: q in tx.losers ==> !IsSubmitted(s, q)
  }

  function Decided(quotes: map<Id, Quote>, tx: Acceptance): map<Id, Quote> {
    map q | q in quotes ::
      if q == tx.quote then quotes[q].(state := Accepted, order := Some(tx.order))
      else if q in tx.losers then quotes[q].(state := Rejected)
      else quotes[q]
  }

  function Next(s: State, a: Action): State {
    if !Enabled(s, a) then s
    else
      match a
      case CheckOpen(draft, seller, amount) => s.(drafts := s.drafts[draft := Draft(seller, amount)])
      case Insert(draft, quote) =>
        var d := s.drafts[draft];
        s.(quotes := s.quotes[quote := Quote(d.seller, d.amount, Submitted, None)], drafts := s.drafts - {draft},
           late := if Closing(s) then s.late + {quote} else s.late)
      case Revise(draft, quote) =>
        s.(quotes := s.quotes[quote := s.quotes[quote].(amount := s.drafts[draft].amount)],
           drafts := s.drafts - {draft})
      case Begin(t, quote, order) => s.(txs := s.txs[t := Acceptance(quote, order, false, {})])
      case Close(t) =>
        s.(txs := s.txs[t := s.txs[t].(closed := true, losers := SubmittedQuotes(s) - {s.txs[t].quote})])
      case Commit(t) =>
        var tx := s.txs[t];
        s.(awarded := true, quotes := Decided(s.quotes, tx), txs := s.txs - {t},
           orders := if tx.quote in s.quotes then
                       s.orders[tx.order := Order(s.quotes[tx.quote].seller, s.quotes[tx.quote].amount)]
                     else s.orders)
      case Abort(t) => s.(txs := s.txs - {t}, late := if s.txs[t].closed && !s.awarded then {} else s.late)
  }

  function Run(buyer: Id, actions: seq<Action>): State {
    if actions == [] then Opened(buyer) else Next(Run(buyer, actions[..|actions| - 1]), actions[|actions| - 1])
  }

  // ----- The invariant, table by table

  predicate Submits(quotes: map<Id, Quote>, q: Id) {
    q in quotes && quotes[q].state.Submitted?
  }

  /** Acceptances only hold submitted quotes. */
  ghost predicate HeldSubmitted(quotes: map<Id, Quote>, txs: map<Id, Acceptance>) {
    forall t, q :: t in txs && Holds(txs[t], q) ==> Submits(quotes, q)
  }

  /** Nobody holds what another holds, and only one has closed the list. */
  ghost predicate Exclusive(txs: map<Id, Acceptance>) {
    && (forall t, u, q :: t in txs && u in txs && Holds(txs[t], q) && Holds(txs[u], q) ==> t == u)
    && (forall t, u :: t in txs && u in txs && txs[t].closed && txs[u].closed ==> t == u)
  }

  ghost predicate HasCloser(txs: map<Id, Acceptance>) {
    exists t :: t in txs && txs[t].closed
  }

  /** Nobody is late before the list is closed. */
  ghost predicate LateOk(awarded: bool, quotes: map<Id, Quote>, txs: map<Id, Acceptance>, late: set<Id>) {
    late <= quotes.Keys && (awarded || HasCloser(txs) || late == {})
  }

  /** Before the award nothing is decided; after it everything in time is. */
  ghost predicate Settled(awarded: bool, quotes: map<Id, Quote>, orders: map<Id, Order>, late: set<Id>) {
    if awarded then forall q :: q in quotes && q !in late ==> !quotes[q].state.Submitted?
    else orders == map[] && forall q :: q in quotes ==> quotes[q].state.Submitted?
  }

  /** Who closed the list holds everything in time, and is in time himself unless the award is already out. */
  ghost predicate ListClosed(awarded: bool, quotes: map<Id, Quote>, txs: map<Id, Acceptance>, late: set<Id>) {
    forall t :: t in txs && txs[t].closed ==>
      && (awarded || txs[t].quote !in late)
      && forall q :: Submits(quotes, q) && q !in late ==> Holds(txs[t], q)
  }

  predicate Wins(quotes: map<Id, Quote>, late: set<Id>, q: Id) {
    q in quotes && q !in late && quotes[q].state.Accepted?
  }

  ghost predicate OneWinner(awarded: bool, quotes: map<Id, Quote>, late: set<Id>) {
    && (awarded ==> exists q :: Wins(quotes, late, q))
    && (forall q, r :: Wins(quotes, late, q) && Wins(quotes, late, r) ==> q == r)
  }

  ghost predicate Carries(quotes: map<Id, Quote>, q: Id, order: Id) {
    q in quotes && quotes[q].order == Some(order)
  }

  /** Accepted quotes and orders correspond, one to one. */
  ghost predicate OrdersMatch(quotes: map<Id, Quote>, orders: map<Id, Order>) {
    && (forall q :: q in quotes ==> (quotes[q].state.Accepted? <==> quotes[q].order.Some?))
    && (forall q, o :: Carries(quotes, q, o) ==> o in orders && orders[o] == Order(quotes[q].seller, quotes[q].amount))
    && (forall q, r, o :: Carries(quotes, q, o) && Carries(quotes, r, o) ==> q == r)
    && (forall o :: o in orders ==> exists q :: Carries(quotes, q, o))
  }

  ghost predicate OrderIdsFresh(orders: map<Id, Order>, txs: map<Id, Acceptance>) {
    && (forall t :: t in txs ==> txs[t].order !in orders)
    && (forall t, u :: t in txs && u in txs && txs[t].order == txs[u].order ==> t == u)
  }

  ghost predicate OnePerSeller(quotes: map<Id, Quote>) {
    forall q, r :: q in quotes && r in quotes && quotes[q].seller == quotes[r].seller ==> q == r
  }

  ghost predicate Inv(s: State) {
    && HeldSubmitted(s.quotes, s.txs) && Exclusive(s.txs)
    && LateOk(s.awarded, s.quotes, s.txs, s.late) && Settled(s.awarded, s.quotes, s.orders, s.late)
    && ListClosed(s.awarded, s.quotes, s.txs, s.late) && OneWinner(s.awarded, s.quotes, s.late)
    && OrdersMatch(s.quotes, s.orders) && OrderIdsFresh(s.orders, s.txs) && OnePerSeller(s.quotes)
  }

  // ----- Writing a submitted quote

  /** `x` may stand at `q`: a new submitted quote, or a submitted quote with another amount. */
  predicate Writes(quotes: map<Id, Quote>, q: Id, x: Quote) {
    && x.state.Submitted? && x.order.None?
    && (q in quotes ==> quotes[q].state.Submitted? && quotes[q].seller == x.seller)
    && (q !in quotes ==> forall r :: r in quotes ==> quotes[r].seller != x.seller)
  }

  lemma WriteOrders(quotes: map<Id, Quote>, orders: map<Id, Order>, q: Id, x: Quote)
    requires OrdersMatch(quotes, orders) && Writes(quotes, q, x)
    ensures OrdersMatch(quotes[q := x], orders)
  {
    var after := quotes[q := x];
    forall r, o | Carries(after, r, o) ensures Carries(quotes, r, o) && r != q {
    }
    forall o | o in orders ensures exists r :: Carries(after, r, o) {
      var r :| Carries(quotes, r, o);
      assert Carries(after, r, o);
    }
  }

  lemma WriteWinner(awarded: bool, quotes: map<Id, Quote>, late: set<Id>, late': set<Id>, q: Id, x: Quote)
    requires OneWinner(awarded, quotes, late) && Writes(quotes, q, x)
    requires late' == late || (q !in quotes && late' == late + {q})
    ensures OneWinner(awarded, quotes[q := x], late')
  {
    var after := quotes[q := x];
    forall r, w | Wins(after, late', r) && Wins(after, late', w) ensures r == w {
      assert Wins(quotes, late, r) && Wins(quotes, late, w);
    }
    if awarded {
      var winner :| Wins(quotes, late, winner);
      assert Wins(after, late', winner);
    }
  }

  lemma WriteSettled(awarded: bool, quotes: map<Id, Quote>, orders: map<Id, Order>, late: set<Id>, late': set<Id>,
                     q: Id, x: Quote)
    requires Settled(awarded, quotes, orders, late) && Writes(quotes, q, x)
    requires late <= late' && (awarded ==> q in late')
    ensures Settled(awarded, quotes[q := x], orders, late')
  {
  }

  lemma WriteList(awarded: bool, quotes: map<Id, Quote>, txs: map<Id, Acceptance>, late: set<Id>, late': set<Id>,
                  q: Id, x: Quote)
    requires ListClosed(awarded, quotes, txs, late) && HeldSubmitted(quotes, txs) && Writes(quotes, q, x)
    requires (late' == late || (q !in quotes && late' == late + {q})) && (HasCloser(txs) ==> q in late')
    ensures ListClosed(awarded, quotes[q := x], txs, late')
  {
    forall t | t in txs && txs[t].closed ensures awarded || txs[t].quote !in late' {
      assert Holds(txs[t], txs[t].quote) && Submits(quotes, txs[t].quote);
    }
    forall t, r | t in txs && txs[t].closed && Submits(quotes[q := x], r) && r !in late' ensures Holds(txs[t], r) {
      assert HasCloser(txs);
      assert Submits(quotes, r);
    }
  }

  lemma WriteHeld(quotes: map<Id, Quote>, txs: map<Id, Acceptance>, q: Id, x: Quote)
    requires HeldSubmitted(quotes, txs) && Writes(quotes, q, x)
    ensures HeldSubmitted(quotes[q := x], txs)
  {
    forall t, r | t in txs && Holds(txs[t], r) ensures Submits(quotes[q := x], r) {
      assert Submits(quotes, r);
    }
  }

  lemma WriteKeeps(s: State, q: Id, x: Quote, drafts: map<Id, Draft>, late: set<Id>)
    requires Inv(s) && Writes(s.quotes, q, x)
    requires late == s.late || (q !in s.quotes && late == s.late + {q})
    requires s.awarded || HasCloser(s.txs) ==> q in late
    requires !s.awarded && !HasCloser(s.txs) ==> late == s.late
    ensures Inv(s.(quotes := s.quotes[q := x], drafts := drafts, late := late))
  {
    WriteHeld(s.quotes, s.txs, q, x);
    WriteSettled(s.awarded, s.quotes, s.orders, s.late, late, q, x);
    WriteList(s.awarded, s.quotes, s.txs, s.late, late, q, x);
    WriteWinner(s.awarded, s.quotes, s.late, late, q, x);
    WriteOrders(s.quotes, s.orders, q, x);
  }

  lemma InsertKeeps(s: State, draft: Id, quote: Id)
    requires Inv(s) && Enabled(s, Insert(draft, quote))
    ensures Inv(Next(s, Insert(draft, quote)))
  {
    var d, after := s.drafts[draft], Next(s, Insert(draft, quote));
    WriteKeeps(s, quote, Quote(d.seller, d.amount, Submitted, None), after.drafts, after.late);
  }

  /** A quote that can still be revised once the list is closed came in late: the closer holds the others. */
  lemma RevisedLate(s: State, quote: Id)
    requires Settled(s.awarded, s.quotes, s.orders, s.late) && ListClosed(s.awarded, s.quotes, s.txs, s.late)
    requires IsSubmitted(s, quote) && Free(s, quote) && (s.awarded || HasCloser(s.txs))
    ensures quote in s.late
  {
    if !s.awarded {
      var t :| t in s.txs && s.txs[t].closed;
      assert Submits(s.quotes, quote) && !Holds(s.txs[t], quote);
    }
  }

  lemma ReviseKeeps(s: State, draft: Id, quote: Id)
    requires Inv(s) && Enabled(s, Revise(draft, quote))
    ensures Inv(Next(s, Revise(draft, quote)))
  {
    if s.awarded || HasCloser(s.txs) {
      RevisedLate(s, quote);
    }
    WriteKeeps(s, quote, s.quotes[quote].(amount := s.drafts[draft].amount), s.drafts - {draft}, s.late);
  }

  // ----- Accepting

  lemma BeginLocks(quotes: map<Id, Quote>, txs: map<Id, Acceptance>, t: Id, tx: Acceptance)
    requires HeldSubmitted(quotes, txs) && Exclusive(txs) && t !in txs
    requires !tx.closed && tx.losers == {} && Submits(quotes, tx.quote)
    requires forall u :: u in txs ==> !Holds(txs[u], tx.quote)
    ensures HeldSubmitted(quotes, txs[t := tx]) && Exclusive(txs[t := tx])
  {
  }

  lemma BeginKeeps(s: State, t: Id, quote: Id, order: Id)
    requires Inv(s) && Enabled(s, Begin(t, quote, order))
    ensures Inv(Next(s, Begin(t, quote, order)))
  {
    var tx, after := Acceptance(quote, order, false, {}), Next(s, Begin(t, quote, order));
    BeginLocks(s.quotes, s.txs, t, tx);
    SameClosers(s.txs, after.txs);
    SameList(s.awarded, s.quotes, s.txs, after.txs, s.late);
  }

  lemma SameClosers(txs: map<Id, Acceptance>, txs': map<Id, Acceptance>)
    requires forall t :: t in txs && txs[t].closed ==> t in txs' && txs'[t] == txs[t]
    ensures HasCloser(txs) ==> HasCloser(txs')
  {
    if HasCloser(txs) {
      var t :| t in txs && txs[t].closed;
      assert t in txs' && txs'[t].closed;
    }
  }

  lemma SameList(awarded: bool, quotes: map<Id, Quote>, txs: map<Id, Acceptance>, txs': map<Id, Acceptance>,
                 late: set<Id>)
    requires ListClosed(awarded, quotes, txs, late)
    requires forall t :: t in txs' && txs'[t].closed ==> t in txs && txs[t] == txs'[t]
    ensures ListClosed(awarded, quotes, txs', late)
  {
  }

  /** Whoever closes is alone: every other acceptance would hold a submitted quote. */
  lemma CloserIsAlone(s: State, t: Id)
    requires HeldSubmitted(s.quotes, s.txs) && Enabled(s, Close(t))
    ensures s.txs.Keys == {t}
  {
    forall u | u in s.txs ensures u == t {
      assert Holds(s.txs[u], s.txs[u].quote) && Submits(s.quotes, s.txs[u].quote);
    }
  }

  lemma CloseKeeps(s: State, t: Id)
    requires Inv(s) && Enabled(s, Close(t))
    ensures Inv(Next(s, Close(t)))
  {
    var after := Next(s, Close(t));
    CloserIsAlone(s, t);
    assert Holds(s.txs[t], s.txs[t].quote);
    assert after.txs.Keys == {t} && !HasCloser(s.txs);
    AloneLocks(s.quotes, after.txs, t, after.txs[t]);
    AloneList(s.awarded, s.quotes, after.txs, t, s.late);
    AloneOrders(s.orders, s.txs, after.txs, t);
  }

  lemma AloneLocks(quotes: map<Id, Quote>, txs: map<Id, Acceptance>, t: Id, tx: Acceptance)
    requires txs.Keys == {t} && txs[t] == tx
    requires Submits(quotes, tx.quote) && forall q :: q in tx.losers ==> Submits(quotes, q)
    ensures HeldSubmitted(quotes, txs) && Exclusive(txs)
  {
  }

  lemma AloneList(awarded: bool, quotes: map<Id, Quote>, txs: map<Id, Acceptance>, t: Id, late: set<Id>)
    requires txs.Keys == {t} && txs[t].closed && (awarded || late == {})
    requires forall q :: Submits(quotes, q) ==> Holds(txs[t], q)
    ensures ListClosed(awarded, quotes, txs, late) && HasCloser(txs)
  {
    assert t in txs;
  }

  lemma AloneOrders(orders: map<Id, Order>, txs: map<Id, Acceptance>, txs': map<Id, Acceptance>, t: Id)
    requires OrderIdsFresh(orders, txs) && t in txs && txs'.Keys == {t} && txs'[t].order == txs[t].order
    ensures OrderIdsFresh(orders, txs')
  {
  }

  lemma DropLocks(quotes: map<Id, Quote>, txs: map<Id, Acceptance>, t: Id)
    requires HeldSubmitted(quotes, txs) && Exclusive(txs)
    ensures HeldSubmitted(quotes, txs - {t}) && Exclusive(txs - {t})
  {
    assert forall u :: u in txs - {t} ==> u in txs && (txs - {t})[u] == txs[u];
  }

  lemma DropOrders(orders: map<Id, Order>, txs: map<Id, Acceptance>, t: Id)
    requires OrderIdsFresh(orders, txs)
    ensures OrderIdsFresh(orders, txs - {t})
  {
    assert forall u :: u in txs - {t} ==> u in txs && (txs - {t})[u] == txs[u];
  }

  /** Without the closer nobody has closed. */
  lemma NoOtherCloser(txs: map<Id, Acceptance>, t: Id)
    requires Exclusive(txs) && t in txs && txs[t].closed
    ensures !HasCloser(txs - {t})
  {
    forall u | u in txs - {t} ensures !(txs - {t})[u].closed {
      assert u in txs && u != t;
    }
  }

  lemma AbortKeeps(s: State, t: Id)
    requires Inv(s) && t in s.txs
    ensures Inv(Next(s, Abort(t)))
  {
    var after := Next(s, Abort(t));
    DropLocks(s.quotes, s.txs, t);
    DropOrders(s.orders, s.txs, t);
    if s.txs[t].closed {
      NoOtherCloser(s.txs, t);
      if !s.awarded {
        NobodyWins(s.quotes, {});
      }
    } else {
      SameClosers(s.txs, s.txs - {t});
      SameList(s.awarded, s.quotes, s.txs, s.txs - {t}, s.late);
    }
  }

  lemma NobodyWins(quotes: map<Id, Quote>, late: set<Id>)
    requires forall q :: q in quotes ==> quotes[q].state.Submitted?
    ensures OneWinner(false, quotes, late)
  {
  }

  lemma CommitLocks(quotes: map<Id, Quote>, txs: map<Id, Acceptance>, t: Id)
    requires HeldSubmitted(quotes, txs) && Exclusive(txs) && t in txs
    ensures HeldSubmitted(Decided(quotes, txs[t]), txs - {t}) && Exclusive(txs - {t})
  {
    DropLocks(quotes, txs, t);
    forall u, q | u in txs - {t} && Holds((txs - {t})[u], q) ensures Submits(Decided(quotes, txs[t]), q) {
      assert Holds(txs[u], q) && Submits(quotes, q) && !Holds(txs[t], q);
    }
  }

  lemma CommitSettled(awarded: bool, quotes: map<Id, Quote>, txs: map<Id, Acceptance>, orders: map<Id, Order>, t: Id,
                      late: set<Id>)
    requires ListClosed(awarded, quotes, txs, late) && t in txs && txs[t].closed
    ensures Settled(true, Decided(quotes, txs[t]), orders, late)
  {
    forall q | q in Decided(quotes, txs[t]) && q !in late ensures !Decided(quotes, txs[t])[q].state.Submitted? {
      assert Submits(quotes, q) ==> Holds(txs[t], q);
    }
  }

  /** The first to commit is the winner in time; anyone after that is late. */
  lemma CommitWinner(awarded: bool, quotes: map<Id, Quote>, tx: Acceptance, orders: map<Id, Order>, late: set<Id>)
    requires OneWinner(awarded, quotes, late) && Settled(awarded, quotes, orders, late)
    requires Submits(quotes, tx.quote) && (forall q :: q in tx.losers ==> Submits(quotes, q))
             && (awarded || tx.quote !in late)
    ensures OneWinner(true, Decided(quotes, tx), late)
  {
    var after := Decided(quotes, tx);
    if awarded {
      assert tx.quote in late;
      assert forall q :: Wins(after, late, q) <==> Wins(quotes, late, q);
    } else {
      assert Wins(after, late, tx.quote);
      assert forall q :: Wins(after, late, q) ==> q == tx.quote;
    }
  }

  lemma CommitOrders(quotes: map<Id, Quote>, tx: Acceptance, orders: map<Id, Order>)
    requires OrdersMatch(quotes, orders) && tx.order !in orders
    requires Submits(quotes, tx.quote) && forall q :: q in tx.losers ==> Submits(quotes, q)
    ensures OrdersMatch(Decided(quotes, tx),
                        orders[tx.order := Order(quotes[tx.quote].seller, quotes[tx.quote].amount)])
  {
    var after, orders' := Decided(quotes, tx),
                          orders[tx.order := Order(quotes[tx.quote].seller, quotes[tx.quote].amount)];
    assert forall q, o :: Carries(after, q, o) <==> Carries(quotes, q, o) || (q == tx.quote && o == tx.order) by {
      assert quotes[tx.quote].order.None?;
    }
    forall o | o in orders' ensures exists q :: Carries(after, q, o) {
      if o == tx.order {
        assert Carries(after, tx.quote, o);
      } else {
        var q :| Carries(quotes, q, o);
        assert Carries(after, q, o);
      }
    }
  }

  lemma CommitFresh(orders: map<Id, Order>, txs: map<Id, Acceptance>, t: Id, order: Order)
    requires OrderIdsFresh(orders, txs) && t in txs
    ensures OrderIdsFresh(orders[txs[t].order := order], txs - {t})
  {
    DropOrders(orders, txs, t);
    forall u | u in txs - {t} ensures (txs - {t})[u].order !in orders[txs[t].order := order] {
      assert u in txs && u != t;
    }
  }

  lemma CommitSellers(quotes: map<Id, Quote>, tx: Acceptance)
    requires OnePerSeller(quotes)
    ensures OnePerSeller(Decided(quotes, tx))
  {
  }

  lemma CommitKeeps(s: State, t: Id)
    requires Inv(s) && t in s.txs && s.txs[t].closed
    ensures Inv(Next(s, Commit(t)))
  {
    var tx := s.txs[t];
    assert Holds(tx, tx.quote) && Submits(s.quotes, tx.quote);
    forall q | q in tx.losers ensures Submits(s.quotes, q) {
      assert Holds(tx, q);
    }
    CommitLocks(s.quotes, s.txs, t);
    CommitSettled(s.awarded, s.quotes, s.txs, Next(s, Commit(t)).orders, t, s.late);
    CommitWinner(s.awarded, s.quotes, tx, s.orders, s.late);
    CommitOrders(s.quotes, tx, s.orders);
    CommitFresh(s.orders, s.txs, t, Order(s.quotes[tx.quote].seller, s.quotes[tx.quote].amount));
    CommitSellers(s.quotes, tx);
    NoOtherCloser(s.txs, t);
  }

  lemma Keeps(s: State, a: Action)
    requires Inv(s)
    ensures Inv(Next(s, a))
  {
    if Enabled(s, a) {
      match a
      case CheckOpen(_, _, _) =>
      case Insert(draft, quote) => InsertKeeps(s, draft, quote);
      case Revise(draft, quote) => ReviseKeeps(s, draft, quote);
      case Begin(t, quote, order) => BeginKeeps(s, t, quote, order);
      case Close(t) => CloseKeeps(s, t);
      case Commit(t) => CommitKeeps(s, t);
      case Abort(t) => AbortKeeps(s, t);
    }
  }

  lemma {:induction false} RunKeeps(buyer: Id, actions: seq<Action>)
    ensures Inv(Run(buyer, actions))
  {
    if actions != [] {
      RunKeeps(buyer, actions[..|actions| - 1]);
      Keeps(Run(buyer, actions[..|actions| - 1]), actions[|actions| - 1]);
    }
  }

  // ----- What the award means

  /** Exactly `winner` of the quotes that came in time is accepted, and every other one is rejected. */
  predicate Decides(s: State, winner: Id) {
    && Wins(s.quotes, s.late, winner)
    && forall q :: q in s.quotes && q !in s.late && q != winner ==> s.quotes[q].state.Rejected?
  }

  /** Whatever interleaves: the request is awarded exactly when some quote is accepted; accepted quotes and
      created orders correspond one to one; and of the quotes that came in time exactly one is accepted and
      every other one rejected. */
  lemma AwardDecides(buyer: Id, actions: seq<Action>)
    ensures
      var s := Run(buyer, actions);
      && (s.awarded <==> exists q :: q in s.quotes && s.quotes[q].state.Accepted?)
      && OrdersMatch(s.quotes, s.orders) && OnePerSeller(s.quotes)
      && (s.awarded ==> exists winner :: Decides(s, winner))
  {
    var s := Run(buyer, actions);
    RunKeeps(buyer, actions);
    if s.awarded {
      var winner :| Wins(s.quotes, s.late, winner);
      forall q | q in s.quotes && q !in s.late && q != winner ensures s.quotes[q].state.Rejected? {
        assert !Wins(s.quotes, s.late, q);
      }
      assert Decides(s, winner);
    }
  }

  /** So when nobody was late the award is final: one accepted quote, carrying the one order, and none left
      submitted. */
  lemma AwardIsFinal(buyer: Id, actions: seq<Action>) returns (winner: Id, order: Id)
    requires Run(buyer, actions).awarded && Run(buyer, actions).late == {}
    ensures
      var s := Run(buyer, actions);
      && Carries(s.quotes, winner, order) && s.quotes[winner].state.Accepted?
      && s.orders == map[order := Order(s.quotes[winner].seller, s.quotes[winner].amount)]
      && forall q :: q in s.quotes && q != winner ==> s.quotes[q].state.Rejected?
  {
    var s := Run(buyer, actions);
    AwardDecides(buyer, actions);
    winner :| Decides(s, winner);
    order := s.quotes[winner].order.value;
    assert Carries(s.quotes, winner, order);
    OnlyOrder(s.quotes, s.orders, winner, order);
  }

  lemma OnlyOrder(quotes: map<Id, Quote>, orders: map<Id, Order>, winner: Id, order: Id)
    requires OrdersMatch(quotes, orders) && Carries(quotes, winner, order)
    requires forall q :: q in quotes && q != winner ==> quotes[q].state.Rejected?
    ensures orders == map[order := Order(quotes[winner].seller, quotes[winner].amount)]
  {
    forall o | o in orders ensures o == order {
      var q :| Carries(quotes, q, o);
      assert q == winner;
    }
  }

  // ----- Exactly when the award is final

  ghost predicate StillOpen(quotes: map<Id, Quote>, late: set<Id>, q: Id) {
    q in late && q in quotes && !quotes[q].state.Rejected?
  }

  /** Nobody who was late has been turned down unless another latecomer won: the list that decides the award
      was taken before any of them came in. */
  ghost predicate LateOpen(awarded: bool, quotes: map<Id, Quote>, txs: map<Id, Acceptance>, late: set<Id>) {
    if awarded then late != {} ==> exists q :: StillOpen(quotes, late, q)
    else forall t, q :: t in txs && txs[t].closed && q in txs[t].losers ==> q !in late
  }

  lemma WriteLateOpen(s: State, q: Id, x: Quote, late: set<Id>)
    requires HeldSubmitted(s.quotes, s.txs) && LateOpen(s.awarded, s.quotes, s.txs, s.late) && Writes(s.quotes, q, x)
    requires late == s.late || (q !in s.quotes && late == s.late + {q})
    ensures LateOpen(s.awarded, s.quotes[q := x], s.txs, late)
  {
    if s.awarded {
      if q in late {
        assert StillOpen(s.quotes[q := x], late, q);
      } else if late != {} {
        var r :| StillOpen(s.quotes, s.late, r);
        assert StillOpen(s.quotes[q := x], late, r);
      }
    } else {
      forall t, r | t in s.txs && s.txs[t].closed && r in s.txs[t].losers ensures r !in late {
        assert Holds(s.txs[t], r) && Submits(s.quotes, r);
      }
    }
  }

  lemma CommitLateOpen(s: State, t: Id)
    requires Inv(s) && LateOpen(s.awarded, s.quotes, s.txs, s.late) && t in s.txs && s.txs[t].closed
    ensures LateOpen(true, Decided(s.quotes, s.txs[t]), s.txs - {t}, s.late)
  {
    var tx, after := s.txs[t], Decided(s.quotes, s.txs[t]);
    assert Holds(tx, tx.quote) && Submits(s.quotes, tx.quote);
    if s.awarded {
      assert StillOpen(after, s.late, tx.quote);
    } else if s.late != {} {
      var q :| q in s.late;
      assert StillOpen(after, s.late, q);
    }
  }

  lemma LateOpenStep(s: State, a: Action)
    requires Inv(s) && LateOpen(s.awarded, s.quotes, s.txs, s.late)
    ensures LateOpen(Next(s, a).awarded, Next(s, a).quotes, Next(s, a).txs, Next(s, a).late)
  {
    if Enabled(s, a) {
      var after := Next(s, a);
      match a
      case CheckOpen(_, _, _) =>
      case Insert(draft, quote) =>
        var d := s.drafts[draft];
        WriteLateOpen(s, quote, Quote(d.seller, d.amount, Submitted, None), after.late);
      case Revise(draft, quote) => ReviseLateOpen(s, draft, quote);
      case Begin(t, quote, order) => BeginLateOpen(s, t, Acceptance(quote, order, false, {}));
      case Close(t) =>
        CloserIsAlone(s, t);
        assert !s.awarded ==> s.late == {};
      case Commit(t) => CommitLateOpen(s, t);
      case Abort(t) => AbortLateOpen(s, t);
    }
  }

  lemma ReviseLateOpen(s: State, draft: Id, quote: Id)
    requires Inv(s) && LateOpen(s.awarded, s.quotes, s.txs, s.late) && Enabled(s, Revise(draft, quote))
    ensures LateOpen(s.awarded, s.quotes[quote := s.quotes[quote].(amount := s.drafts[draft].amount)], s.txs, s.late)
  {
    WriteLateOpen(s, quote, s.quotes[quote].(amount := s.drafts[draft].amount), s.late);
  }

  lemma BeginLateOpen(s: State, t: Id, tx: Acceptance)
    requires LateOpen(s.awarded, s.quotes, s.txs, s.late) && t !in s.txs && !tx.closed
    ensures LateOpen(s.awarded, s.quotes, s.txs[t := tx], s.late)
  {
  }

  lemma AbortLateOpen(s: State, t: Id)
    requires LateOpen(s.awarded, s.quotes, s.txs, s.late) && t in s.txs
    ensures LateOpen(s.awarded, s.quotes, s.txs - {t}, if s.txs[t].closed && !s.awarded then {} else s.late)
  {
  }

  lemma {:induction false} RunLateOpen(buyer: Id, actions: seq<Action>)
    ensures
      var s := Run(buyer, actions);
      LateOpen(s.awarded, s.quotes, s.txs, s.late)
  {
    if actions != [] {
      RunLateOpen(buyer, actions[..|actions| - 1]);
      RunKeeps(buyer, actions[..|actions| - 1]);
      LateOpenStep(Run(buyer, actions[..|actions| - 1]), actions[|actions| - 1]);
    }
  }

  /** `winner` is accepted and everybody else turned down. */
  predicate Final(s: State, winner: Id) {
    && winner in s.quotes && s.quotes[winner].state.Accepted?
    && forall q :: q in s.quotes && q != winner ==> s.quotes[q].state.Rejected?
  }

  lemma LateIsNotFinal(s: State, winner: Id)
    requires Inv(s) && LateOpen(s.awarded, s.quotes, s.txs, s.late) && s.awarded && Final(s, winner)
    ensures s.late == {}
  {
    var inTime :| Wins(s.quotes, s.late, inTime);
    assert inTime == winner;
    forall q ensures !StillOpen(s.quotes, s.late, q) {
    }
  }

  /** The award of a request means what it promises, one quote accepted and every other rejected, if and only
      if no quote came in after the list was closed; and then there is the accepted quote's order and no other. */
  lemma FinalIffNobodyLate(buyer: Id, actions: seq<Action>)
    requires Run(buyer, actions).awarded
    ensures
      var s := Run(buyer, actions);
      && (s.late == {} <==> exists winner :: Final(s, winner))
      && (forall winner :: Final(s, winner) ==>
            && s.quotes[winner].order.Some?
            && s.orders == map[s.quotes[winner].order.value := Order(s.quotes[winner].seller, s.quotes[winner].amount)])
  {
    var s := Run(buyer, actions);
    RunKeeps(buyer, actions);
    RunLateOpen(buyer, actions);
    if s.late == {} {
      var winner, order := AwardIsFinal(buyer, actions);
      assert Final(s, winner);
    }
    forall winner | Final(s, winner)
      ensures s.late == {} && s.quotes[winner].order.Some?
      ensures s.orders == map[s.quotes[winner].order.value := Order(s.quotes[winner].seller, s.quotes[winner].amount)]
    {
      LateIsNotFinal(s, winner);
      assert Carries(s.quotes, winner, s.quotes[winner].order.value);
      OnlyOrder(s.quotes, s.orders, winner, s.quotes[winner].order.value);
    }
  }

  // ----- Latecomers

  const SLOW := [CheckOpen(0, 1, 100), CheckOpen(1, 2, 90), Insert(0, 10), Begin(0, 10, 50), Close(0)]

  lemma RunAppend(buyer: Id, actions: seq<Action>, a: Action)
    ensures Run(buyer, actions + [a]) == Next(Run(buyer, actions), a)
  {
    assert (actions + [a])[..|actions|] == actions;
  }

  const AFTER_SLOW := State(9, false, map[10 := Quote(1, 100, Submitted, None)], map[], map[1 := Draft(2, 90)],
                           map[0 := Acceptance(10, 50, true, {})], {})

  lemma SlowStart()
    ensures Run(9, SLOW[..3])
              == Opened(9).(quotes := map[10 := Quote(1, 100, Submitted, None)], drafts := map[1 := Draft(2, 90)])
  {
    RunAppend(9, [], SLOW[0]);
    RunAppend(9, [SLOW[0]], SLOW[1]);
    RunAppend(9, [SLOW[0], SLOW[1]], SLOW[2]);
    assert [] + [SLOW[0]] == [SLOW[0]] && [SLOW[0]] + [SLOW[1]] == [SLOW[0], SLOW[1]];
    assert [SLOW[0], SLOW[1]] + [SLOW[2]] == SLOW[..3];
    assert Run(9, [SLOW[0], SLOW[1]]).drafts == map[0 := Draft(1, 100), 1 := Draft(2, 90)];
    assert map[0 := Draft(1, 100), 1 := Draft(2, 90)] - {0} == map[1 := Draft(2, 90)];
  }

  lemma SlowRun()
    ensures Run(9, SLOW) == AFTER_SLOW
  {
    SlowStart();
    RunAppend(9, SLOW[..3], SLOW[3]);
    RunAppend(9, SLOW[..4], SLOW[4]);
    assert SLOW[..3] + [SLOW[3]] == SLOW[..4] && SLOW[..4] + [SLOW[4]] == SLOW;
    var s := Run(9, SLOW[..4]);
    assert s.txs == map[0 := Acceptance(10, 50, false, {})];
    assert SubmittedQuotes(s) - {10} == {};
  }

  /** A seller who saw the request open can still write the quote after the award, and it stays submitted. */
  lemma LateQuoteStaysSubmitted()
    ensures
      var s := Run(9, SLOW + [Commit(0)] + [Insert(1, 11)]);
      s.awarded && 11 in s.quotes && s.quotes[11].state.Submitted?
  {
    SlowRun();
    RunAppend(9, SLOW, Commit(0));
    RunAppend(9, SLOW + [Commit(0)], Insert(1, 11));
  }

  const AFTER_LATE := AFTER_SLOW.(quotes := map[10 := Quote(1, 100, Submitted, None),
                                                11 := Quote(2, 90, Submitted, None)],
                                  drafts := map[], late := {11},
                                  txs := map[0 := Acceptance(10, 50, true, {}), 1 := Acceptance(11, 51, false, {})])

  lemma LateRun()
    ensures Run(9, SLOW + [Insert(1, 11)] + [Begin(1, 11, 51)]) == AFTER_LATE
  {
    SlowRun();
    RunAppend(9, SLOW, Insert(1, 11));
    RunAppend(9, SLOW + [Insert(1, 11)], Begin(1, 11, 51));
    assert AFTER_SLOW.txs[0].closed;
    assert Run(9, SLOW + [Insert(1, 11)]).quotes == AFTER_LATE.quotes;
    assert Run(9, SLOW + [Insert(1, 11)]).drafts == map[];
  }

  /** Worse, between the closing and the commit it can even be accepted, and the request ends with two
      accepted quotes and two orders. */
  lemma LateQuoteCanBeAccepted()
    ensures
      var s := Run(9, SLOW + [Insert(1, 11)] + [Begin(1, 11, 51)] + [Commit(0)] + [Close(1)] + [Commit(1)]);
      && 10 in s.quotes && 11 in s.quotes && s.quotes[10].state.Accepted? && s.quotes[11].state.Accepted?
      && s.orders.Keys == {50, 51}
  {
    LateRun();
    var before := SLOW + [Insert(1, 11)] + [Begin(1, 11, 51)];
    RunAppend(9, before, Commit(0));
    RunAppend(9, before + [Commit(0)], Close(1));
    RunAppend(9, before + [Commit(0)] + [Close(1)], Commit(1));
    FirstCommits();
    SecondCommits();
  }

  const AFTER_FIRST := AFTER_LATE.(awarded := true, txs := map[1 := Acceptance(11, 51, false, {})],
                                   orders := map[50 := Order(1, 100)],
                                   quotes := map[10 := Quote(1, 100, Accepted, Some(50)),
                                                 11 := Quote(2, 90, Submitted, None)])

  lemma FirstCommits()
    ensures Next(AFTER_LATE, Commit(0)) == AFTER_FIRST
  {
    assert Next(AFTER_LATE, Commit(0)).quotes == AFTER_FIRST.quotes;
    assert Next(AFTER_LATE, Commit(0)).txs == AFTER_FIRST.txs;
  }

  lemma SecondCommits()
    ensures
      var s := Next(Next(AFTER_FIRST, Close(1)), Commit(1));
      && 10 in s.quotes && 11 in s.quotes && s.quotes[10].state.Accepted? && s.quotes[11].state.Accepted?
      && s.orders.Keys == {50, 51}
  {
    assert SubmittedQuotes(AFTER_FIRST) - {11} == {};
    assert Next(AFTER_FIRST, Close(1)).txs == map[1 := Acceptance(11, 51, true, {})];
  }

  // ----- What goes through

  /** A seller who sees the request open and has no quote on it yet writes one. */
  lemma FirstQuote(s: State, draft: Id, seller: Id, amount: nat, quote: Id)
    requires !s.awarded && seller != s.buyer && draft !in s.drafts && quote !in s.quotes
    requires forall q :: q in s.quotes ==> s.quotes[q].seller != seller
    ensures
      var after := Next(Next(s, CheckOpen(draft, seller, amount)), Insert(draft, quote));
      after.quotes == s.quotes[quote := Quote(seller, amount, Submitted, None)] && after.drafts == s.drafts
  {
    assert s.drafts[draft := Draft(seller, amount)] - {draft} == s.drafts;
  }

  /** One who has a submitted quote that no acceptance holds changes its amount. */
  lemma SecondQuote(s: State, draft: Id, amount: nat, quote: Id)
    requires !s.awarded && IsSubmitted(s, quote) && Free(s, quote) && draft !in s.drafts
    requires s.quotes[quote].seller != s.buyer
    ensures
      var after := Next(Next(s, CheckOpen(draft, s.quotes[quote].seller, amount)), Revise(draft, quote));
      after.quotes == s.quotes[quote := s.quotes[quote].(amount := amount)] && after.drafts == s.drafts
  {
    assert s.drafts[draft := Draft(s.quotes[quote].seller, amount)] - {draft} == s.drafts;
    assert Free(Next(s, CheckOpen(draft, s.quotes[quote].seller, amount)), quote);
  }

  /** Nobody gets a draft of a request that is awarded, nor the buyer of one of their own. */
  lemma ClosedToQuotes(s: State, draft: Id, seller: Id, amount: nat)
    ensures draft !in s.drafts ==>
      (draft in Next(s, CheckOpen(draft, seller, amount)).drafts <==> !s.awarded && seller != s.buyer)
  {
  }

  /** Giving up an acceptance releases what it holds and decides nothing. */
  lemma GivingUpDecidesNothing(s: State, t: Id)
    requires t in s.txs
    ensures
      var after := Next(s, Abort(t));
      after.txs == s.txs - {t} && after.quotes == s.quotes && after.orders == s.orders && after.awarded == s.awarded
  {
  }

  /** While nothing else is going on, any submitted quote of an open request can be accepted: it is, every other
      submitted quote is turned down, and its order of its seller and amount is the one that is added. */
  lemma AwardGoesThrough(s: State, t: Id, quote: Id, order: Id)
    requires !s.awarded && s.txs == map[] && IsSubmitted(s, quote) && order !in s.orders
    ensures
      var after := Next(Next(Next(s, Begin(t, quote, order)), Close(t)), Commit(t));
      && after.awarded && after.txs == map[]
      && after.orders == s.orders[order := Order(s.quotes[quote].seller, s.quotes[quote].amount)]
      && after.quotes.Keys == s.quotes.Keys
      && (forall q :: q in s.quotes ==>
            after.quotes[q] == if q == quote then s.quotes[q].(state := Accepted, order := Some(order))
                               else if s.quotes[q].state.Submitted? then s.quotes[q].(state := Rejected)
                               else s.quotes[q])
  {
    var begun := Next(s, Begin(t, quote, order));
    assert begun.txs == map[t := Acceptance(quote, order, false, {})];
    var closed := Next(begun, Close(t));
    assert closed.txs == map[t := Acceptance(quote, order, true, SubmittedQuotes(s) - {quote})];
    assert closed.txs - {t} == map[];
  }
}
