/** Seller capacity and coupon limits with any number of orders being placed at once. Placing an order
    is a sequence of steps of one transaction: lock and read the seller's profile, count the live orders,
    lock and read the coupon, count its redemptions, commit. Steps of different transactions interleave
    freely; a row lock is held from the step that reads the row to the end of the transaction, and a
    count sees what has been committed when it runs. */
module Admission {
  import opened Wrappers
  import opened Sets

  type Id = nat

  datatype Order = Order(seller: Id, live: bool)

  datatype Use = Use(coupon: Id, user: Id)

  /** No total means no ceiling on it; a non-positive `perUser` means none on that. */
  datatype Limits = Limits(total: Option<nat>, perUser: int, active: bool)

  datatype Stage = Begun | SellerRead | SellerPassed | CouponRead | CouponPassed

  /** `capacity` and `limits` are what the transaction read; there may be no profile row to read. */
  datatype Tx = Tx(buyer: Id, seller: Id, order: Id, coupon: Option<Id>, stage: Stage,
                   capacity: Option<int>, limits: Option<Limits>)

  datatype State = State(profiles: map<Id, int>, coupons: map<Id, Limits>, orders: map<Id, Order>,
                         uses: map<Id, Use>, txs: map<Id, Tx>)

  const EMPTY_STATE := State(map[], map[], map[], map[], map[])

  function LiveOrders(s: State, seller: Id): set<Id> {
    set id | id in s.orders && s.orders[id].seller == seller && s.orders[id].live
  }

  function UsesOf(s: State, coupon: Id): set<Id> {
    set id | id in s.uses && s.uses[id].coupon == coupon
  }

  function UsesBy(s: State, coupon: Id, user: Id): set<Id> {
    set id | id in s.uses && s.uses[id].coupon == coupon && s.uses[id].user == user
  }

  /** A transaction that found a profile row holds it from then on; one that found none holds nothing. */
  predicate HoldsSeller(tx: Tx, seller: Id) {
    tx.seller == seller && !tx.stage.Begun? && tx.capacity.Some?
  }

  predicate HoldsCoupon(tx: Tx, coupon: Id) {
    tx.coupon == Some(coupon) && (tx.stage.CouponRead? || tx.stage.CouponPassed?)
  }

  predicate SellerFree(s: State, seller: Id) {
    forall t :: t in s.txs ==> !HoldsSeller(s.txs[t], seller)
  }

  predicate CouponFree(s: State, coupon: Id) {
    forall t :: t in s.txs ==> !HoldsCoupon(s.txs[t], coupon)
  }

  // ----- Steps

  datatype Action =
    | Begin(tx: Id, buyer: Id, seller: Id, order: Id, coupon: Option<Id>)
    | ReadSeller(tx: Id)
    | CountLive(tx: Id)
    | ReadCoupon(tx: Id)
    | CountUses(tx: Id)
    | Commit(tx: Id)
    | Abort(tx: Id)
    | SetCapacity(seller: Id, capacity: int)
    | SetLimits(limited: Id, limits: Limits)
    | Finish(order: Id)
    | Expire(order: Id)

  function Put(s: State, t: Id, tx: Tx): State {
    s.(txs := s.txs[t := tx])
  }

  function Drop(s: State, t: Id): State {
    s.(txs := s.txs - {t})
  }

  predicate ReadyToCommit(tx: Tx) {
    tx.stage.CouponPassed? || (tx.stage.SellerPassed? && tx.coupon.None?)
  }

  /** Whether the step can happen now: a step that needs a row waits while another transaction holds it. */
  predicate Enabled(s: State, a: Action) {
    match a
    case Begin(t, _, _, order, _) =>
      t !in s.txs && order !in s.orders && forall u :: u in s.txs ==> s.txs[u].order != order
    case ReadSeller(t) => t in s.txs && s.txs[t].stage.Begun? && SellerFree(s, s.txs[t].seller)
    case CountLive(t) => t in s.txs && s.txs[t].stage.SellerRead?
    case ReadCoupon(t) =>
      t in s.txs && s.txs[t].stage.SellerPassed? && s.txs[t].coupon.Some? && CouponFree(s, s.txs[t].coupon.value)
    case CountUses(t) => t in s.txs && s.txs[t].stage.CouponRead? && s.txs[t].limits.Some? && s.txs[t].coupon.Some?
    case Commit(t) => t in s.txs && ReadyToCommit(s.txs[t])
    case Abort(t) => t in s.txs
    case SetCapacity(seller, capacity) => 0 <= capacity && SellerFree(s, seller)
    case SetLimits(coupon, _) => CouponFree(s, coupon)
    case Finish(order) => order in s.orders
    case Expire(order) => order in s.orders
  }

  predicate CapacityLeft(s: State, tx: Tx) {
    tx.capacity.None? || tx.capacity.value <= 0 || |LiveOrders(s, tx.seller)| < tx.capacity.value
  }

  predicate UsesLeft(s: State, coupon: Id, user: Id, limits: Limits) {
    && (limits.total.Some? ==> |UsesOf(s, coupon)| < limits.total.value)
    && (limits.perUser > 0 ==> |UsesBy(s, coupon, user)| < limits.perUser)
  }

  function Next(s: State, a: Action): State {
    if !Enabled(s, a) then s
    else
      match a
      case Begin(t, buyer, seller, order, coupon) => Put(s, t, Tx(buyer, seller, order, coupon, Begun, None, None))
      case ReadSeller(t) =>
        var tx := s.txs[t];
        var capacity := if tx.seller in s.profiles then Some(s.profiles[tx.seller]) else None;
        Put(s, t, tx.(stage := SellerRead, capacity := capacity))
      case CountLive(t) => if CapacityLeft(s, s.txs[t]) then Put(s, t, s.txs[t].(stage := SellerPassed)) else Drop(s, t)
      case ReadCoupon(t) =>
        var coupon := s.txs[t].coupon.value;
        if coupon in s.coupons && s.coupons[coupon].active then
          Put(s, t, s.txs[t].(stage := CouponRead, limits := Some(s.coupons[coupon])))
        else Drop(s, t)
      case CountUses(t) =>
        var tx := s.txs[t];
        if UsesLeft(s, tx.coupon.value, tx.buyer, tx.limits.value) then Put(s, t, tx.(stage := CouponPassed))
        else Drop(s, t)
      case Commit(t) =>
        var tx := s.txs[t];
        Drop(s, t).(orders := s.orders[tx.order := Order(tx.seller, true)],
                    uses := if tx.coupon.Some? then s.uses[tx.order := Use(tx.coupon.value, tx.buyer)] else s.uses)
      case Abort(t) => Drop(s, t)
      case SetCapacity(seller, capacity) => s.(profiles := s.profiles[seller := capacity])
      case SetLimits(coupon, limits) => s.(coupons := s.coupons[coupon := limits])
      case Finish(order) => s.(orders := s.orders[order := s.orders[order].(live := false)])
      case Expire(order) => s.(orders := s.orders[order := s.orders[order].(live := false)], uses := s.uses - {order})
  }

  function Run(s: State, actions: seq<Action>): State {
    if actions == [] then s else Next(Run(s, actions[..|actions| - 1]), actions[|actions| - 1])
  }

  // ----- Sellers

  /** The seller has a profile, whoever read it holds it, nobody else does, and what was read and counted
      under the lock still stands. */
  predicate SellerInv(s: State, seller: Id) {
    && seller in s.profiles
    && (forall t :: t in s.txs && s.txs[t].seller == seller && !s.txs[t].stage.Begun? ==>
          s.txs[t].capacity == Some(s.profiles[seller]))
    && (forall t, u :: t in s.txs && u in s.txs && HoldsSeller(s.txs[t], seller) && HoldsSeller(s.txs[u], seller) ==>
        t == u)
    && (forall t :: t in s.txs && s.txs[t].seller == seller && !s.txs[t].stage.Begun? && !s.txs[t].stage.SellerRead? ==>
          s.profiles[seller] <= 0 || |LiveOrders(s, seller)| < s.profiles[seller])
  }

  /** Only a commit adds to a seller's live orders, and it adds one. */
  lemma LiveOrdersStep(s: State, a: Action, seller: Id)
    ensures !(a.Commit? && Enabled(s, a) && s.txs[a.tx].seller == seller) ==>
              |LiveOrders(Next(s, a), seller)| <= |LiveOrders(s, seller)|
    ensures |LiveOrders(Next(s, a), seller)| <= |LiveOrders(s, seller)| + 1
  {
    if a.Commit? && Enabled(s, a) && s.txs[a.tx].seller == seller {
      OneMore(LiveOrders(s, seller), LiveOrders(Next(s, a), seller), s.txs[a.tx].order);
    } else {
      FewerElements(LiveOrders(Next(s, a), seller), LiveOrders(s, seller));
    }
  }

  lemma PutKeepsSeller(s: State, t: Id, tx: Tx, seller: Id)
    requires SellerInv(s, seller)
    requires tx.seller == seller && !tx.stage.Begun? ==>
      && tx.capacity == Some(s.profiles[seller])
      && (forall u :: u in s.txs && HoldsSeller(s.txs[u], seller) ==> u == t)
      && (tx.stage.SellerRead? || s.profiles[seller] <= 0 || |LiveOrders(s, seller)| < s.profiles[seller])
    ensures SellerInv(Put(s, t, tx), seller)
  {
    assert LiveOrders(Put(s, t, tx), seller) == LiveOrders(s, seller);
  }

  lemma DropKeepsSeller(s: State, t: Id, seller: Id)
    requires SellerInv(s, seller)
    ensures SellerInv(Drop(s, t), seller)
  {
    assert LiveOrders(Drop(s, t), seller) == LiveOrders(s, seller);
  }

  /** Other tables may change as long as this seller's live orders do not grow. */
  lemma TablesKeepSeller(s: State, after: State, seller: Id)
    requires SellerInv(s, seller) && after.txs == s.txs && |LiveOrders(after, seller)| <= |LiveOrders(s, seller)|
    requires seller in after.profiles && (after.profiles[seller] == s.profiles[seller] || SellerFree(s, seller))
    ensures SellerInv(after, seller)
  {
    if after.profiles[seller] != s.profiles[seller] {
      forall t | t in s.txs && s.txs[t].seller == seller ensures s.txs[t].stage.Begun? {
        assert !HoldsSeller(s.txs[t], seller);
      }
    }
  }

  lemma OthersAreBegun(s: State, t: Id, u: Id, seller: Id)
    requires SellerInv(s, seller) && t in s.txs && u in s.txs && u != t && s.txs[u].seller == seller
    requires HoldsSeller(s.txs[t], seller)
    ensures s.txs[u].stage.Begun?
  {
    assert !HoldsSeller(s.txs[u], seller);
  }

  /** While one transaction holds the seller, every other one of this seller is still at its start. */
  lemma CommitKeepsSeller(s: State, t: Id, seller: Id)
    requires SellerInv(s, seller) && t in s.txs && ReadyToCommit(s.txs[t])
    ensures SellerInv(Next(s, Commit(t)), seller)
  {
    var after := Next(s, Commit(t));
    LiveOrdersStep(s, Commit(t), seller);
    DropKeepsSeller(s, t, seller);
    if s.txs[t].seller == seller {
      assert HoldsSeller(s.txs[t], seller);
      forall u | u in after.txs && after.txs[u].seller == seller ensures after.txs[u].stage.Begun? {
        OthersAreBegun(s, t, u, seller);
      }
    } else {
      TablesKeepSeller(Drop(s, t), after, seller);
    }
  }

  lemma PlacingKeepsSeller(s: State, a: Action, seller: Id)
    requires SellerInv(s, seller) && Enabled(s, a)
    requires a.Begin? || a.ReadSeller? || a.CountLive? || a.ReadCoupon? || a.CountUses? || a.Abort?
    ensures SellerInv(Next(s, a), seller)
  {
    DropKeepsSeller(s, a.tx, seller);
    if a.tx in Next(s, a).txs {
      PutKeepsSeller(s, a.tx, Next(s, a).txs[a.tx], seller);
    }
  }

  lemma SellerStep(s: State, a: Action, seller: Id)
    requires SellerInv(s, seller)
    ensures SellerInv(Next(s, a), seller)
  {
    if Enabled(s, a) {
      if a.Commit? {
        CommitKeepsSeller(s, a.tx, seller);
      } else if a.SetCapacity? || a.SetLimits? || a.Finish? || a.Expire? {
        LiveOrdersStep(s, a, seller);
        TablesKeepSeller(s, Next(s, a), seller);
      } else {
        PlacingKeepsSeller(s, a, seller);
      }
    }
  }

  /** Whatever else is going on, the step that takes a seller's live orders up is a commit, and it leaves
      them within the capacity in force; a capacity of zero is no limit. */
  lemma CapacityRespected(s: State, a: Action, seller: Id)
    requires SellerInv(s, seller) && |LiveOrders(Next(s, a), seller)| > |LiveOrders(s, seller)|
    ensures a.Commit? && a.tx in s.txs && s.txs[a.tx].seller == seller
    ensures s.profiles[seller] <= 0 || |LiveOrders(Next(s, a), seller)| <= s.profiles[seller]
    ensures Next(s, a).profiles == s.profiles
  {
    LiveOrdersStep(s, a, seller);
  }

  predicate Within(a: Action, seller: Id, limit: nat) {
    a.SetCapacity? && a.seller == seller ==> 1 <= a.capacity <= limit
  }

  /** Over a whole run: as long as the seller's capacity stays between 1 and `limit`, so do the live
      orders, however the transactions interleave. */
  lemma {:induction false} LiveOrdersBounded(s: State, actions: seq<Action>, seller: Id, limit: nat)
    requires SellerInv(s, seller) && 1 <= s.profiles[seller] <= limit && |LiveOrders(s, seller)| <= limit
    requires forall i :: 0 <= i < |actions| ==> Within(actions[i], seller, limit)
    ensures SellerInv(Run(s, actions), seller)
    ensures 1 <= Run(s, actions).profiles[seller] <= limit && |LiveOrders(Run(s, actions), seller)| <= limit
  {
    if actions != [] {
      var front, a := actions[..|actions| - 1], actions[|actions| - 1];
      assert Within(a, seller, limit);
      forall i | 0 <= i < |front| ensures Within(front[i], seller, limit) {
        assert Within(actions[i], seller, limit);
      }
      LiveOrdersBounded(s, front, seller, limit);
      LiveOrdersBoundedStep(Run(s, front), a, seller, limit);
    }
  }

  lemma LiveOrdersBoundedStep(s: State, a: Action, seller: Id, limit: nat)
    requires SellerInv(s, seller) && 1 <= s.profiles[seller] <= limit && |LiveOrders(s, seller)| <= limit
    requires Within(a, seller, limit)
    ensures SellerInv(Next(s, a), seller)
    ensures 1 <= Next(s, a).profiles[seller] <= limit && |LiveOrders(Next(s, a), seller)| <= limit
  {
    SellerStep(s, a, seller);
    if |LiveOrders(Next(s, a), seller)| > |LiveOrders(s, seller)| {
      CapacityRespected(s, a, seller);
    }
  }

  /** Nobody has read this seller's profile yet, and so the seller has no orders. */
  predicate Unread(s: State, seller: Id) {
    && (forall t :: t in s.txs && s.txs[t].seller == seller ==> s.txs[t].stage.Begun?)
    && (forall id :: id in s.orders ==> s.orders[id].seller != seller)
  }

  /** The base case: the first profile of an unread seller establishes the invariant. */
  lemma UnreadEstablishes(s: State, seller: Id)
    requires Unread(s, seller) && seller in s.profiles
    ensures SellerInv(s, seller) && LiveOrders(s, seller) == {}
  {
  }

  /** `a` lets a transaction of this seller read the profile row. */
  predicate ReadsSeller(s: State, a: Action, seller: Id) {
    a.ReadSeller? && Enabled(s, a) && s.txs[a.tx].seller == seller
  }

  lemma UnreadStep(s: State, a: Action, seller: Id)
    requires Unread(s, seller) && !ReadsSeller(s, a, seller)
    ensures Unread(Next(s, a), seller)
  {
  }

  /** Every transaction of this seller that reads the profile finds one, because the first listing created it. */
  predicate FindsProfile(actions: seq<Action>, seller: Id) {
    forall i :: 0 <= i < |actions| && ReadsSeller(Run(EMPTY_STATE, actions[..i]), actions[i], seller) ==>
      seller in Run(EMPTY_STATE, actions[..i]).profiles
  }

  predicate AllWithin(actions: seq<Action>, seller: Id, limit: nat) {
    forall i :: 0 <= i < |actions| ==> Within(actions[i], seller, limit)
  }

  lemma RunSplits(actions: seq<Action>, seller: Id, limit: nat)
    requires actions != [] && FindsProfile(actions, seller) && AllWithin(actions, seller, limit)
    ensures
      var front, a := actions[..|actions| - 1], actions[|actions| - 1];
      && FindsProfile(front, seller) && AllWithin(front, seller, limit) && Within(a, seller, limit)
      && (ReadsSeller(Run(EMPTY_STATE, front), a, seller) ==> seller in Run(EMPTY_STATE, front).profiles)
  {
    var front := actions[..|actions| - 1];
    forall i | 0 <= i < |front| ensures front[i] == actions[i] && front[..i] == actions[..i] {
    }
  }

  /** From empty tables: if the seller's profile comes before the first order that looks at it and its
      capacities are set within a limit, live orders never pass that limit, however orders interleave. */
  lemma {:induction false} CapacityHoldsFromStart(actions: seq<Action>, seller: Id, limit: nat)
    requires FindsProfile(actions, seller) && AllWithin(actions, seller, limit)
    ensures
      var s := Run(EMPTY_STATE, actions);
      && |LiveOrders(s, seller)| <= limit
      && (if seller in s.profiles then SellerInv(s, seller) && 1 <= s.profiles[seller] <= limit else Unread(s, seller))
  {
    if actions != [] {
      var front, a := actions[..|actions| - 1], actions[|actions| - 1];
      RunSplits(actions, seller, limit);
      CapacityHoldsFromStart(front, seller, limit);
      FromStartStep(Run(EMPTY_STATE, front), a, seller, limit);
    } else {
      assert LiveOrders(EMPTY_STATE, seller) == {};
    }
  }

  lemma FromStartStep(s: State, a: Action, seller: Id, limit: nat)
    requires Within(a, seller, limit) && (ReadsSeller(s, a, seller) ==> seller in s.profiles)
    requires |LiveOrders(s, seller)| <= limit
    requires if seller in s.profiles then SellerInv(s, seller) && 1 <= s.profiles[seller] <= limit
             else Unread(s, seller)
    ensures |LiveOrders(Next(s, a), seller)| <= limit
    ensures if seller in Next(s, a).profiles then
              SellerInv(Next(s, a), seller) && 1 <= Next(s, a).profiles[seller] <= limit
            else Unread(Next(s, a), seller)
  {
    if seller in s.profiles {
      LiveOrdersBoundedStep(s, a, seller, limit);
    } else {
      UnreadStep(s, a, seller);
      assert LiveOrders(Next(s, a), seller) == {};
      if seller in Next(s, a).profiles {
        UnreadEstablishes(Next(s, a), seller);
      }
    }
  }

  /** An order that has finished never counts as live again. */
  lemma {:induction false} FinishedStaysFinished(s: State, actions: seq<Action>, order: Id)
    requires order in s.orders && !s.orders[order].live && OrdersFresh(s)
    ensures OrdersFresh(Run(s, actions)) && order in Run(s, actions).orders && !Run(s, actions).orders[order].live
  {
    if actions != [] {
      FinishedStaysFinished(s, actions[..|actions| - 1], order);
      OrdersFreshStep(Run(s, actions[..|actions| - 1]), actions[|actions| - 1]);
    }
  }

  /** Order ids are drawn fresh, and redemptions only exist for orders. */
  predicate OrdersFresh(s: State) {
    && (forall t :: t in s.txs ==> s.txs[t].order !in s.orders)
    && (forall t, u :: t in s.txs && u in s.txs && s.txs[t].order == s.txs[u].order ==> t == u)
    && (forall id :: id in s.uses ==> id in s.orders)
  }

  lemma OrdersFreshStep(s: State, a: Action)
    requires OrdersFresh(s)
    ensures OrdersFresh(Next(s, a))
    ensures forall id :: id in s.orders && !s.orders[id].live ==> id in Next(s, a).orders && !Next(s, a).orders[id].live
  {
    if Enabled(s, a) {
      if a.Commit? {
        CommitKeepsFresh(s, a.tx);
      } else if a.Begin? {
        assert Next(s, a).orders == s.orders && Next(s, a).uses == s.uses;
      } else if !(a.SetCapacity? || a.SetLimits? || a.Finish? || a.Expire?) {
        PlacingKeepsFresh(s, a);
      }
    }
  }

  lemma CommitKeepsFresh(s: State, t: Id)
    requires OrdersFresh(s) && t in s.txs && ReadyToCommit(s.txs[t])
    ensures OrdersFresh(Next(s, Commit(t)))
    ensures forall id :: id in s.orders && !s.orders[id].live ==>
              id in Next(s, Commit(t)).orders && !Next(s, Commit(t)).orders[id].live
  {
  }

  lemma PutKeepsFresh(s: State, t: Id, tx: Tx)
    requires OrdersFresh(s) && t in s.txs && tx.order == s.txs[t].order
    ensures OrdersFresh(Put(s, t, tx))
  {
  }

  lemma DropKeepsFresh(s: State, t: Id)
    requires OrdersFresh(s)
    ensures OrdersFresh(Drop(s, t))
  {
  }

  lemma PlacingKeepsFresh(s: State, a: Action)
    requires OrdersFresh(s) && Enabled(s, a)
    requires a.ReadSeller? || a.CountLive? || a.ReadCoupon? || a.CountUses? || a.Abort?
    ensures OrdersFresh(Next(s, a)) && Next(s, a).orders == s.orders
  {
    DropKeepsFresh(s, a.tx);
    if a.tx in Next(s, a).txs {
      PutKeepsFresh(s, a.tx, Next(s, a).txs[a.tx]);
    }
  }

  /** The lock is on a row, so the limit needs the row: a transaction that read before the seller had a
      profile takes no turn, and two live orders then stand against a capacity of one. Creating a listing
      inserts the profile in the same transaction (internal/httpapi/talents.go:486-488), which rules this
      out: it is why `FindsProfile` holds of the platform's runs. */
  lemma NoProfileNoLimit()
    ensures
      var before := Run(EMPTY_STATE, [Begin(0, 5, 1, 10, None), ReadSeller(0), CountLive(0)]);
      var created := Run(before, [SetCapacity(1, 1), Begin(1, 6, 1, 11, None), ReadSeller(1), CountLive(1)]);
      var s := Run(created, [Commit(0), Commit(1)]);
      1 in s.profiles && s.profiles[1] == 1 && |LiveOrders(s, 1)| == 2
  {
    Unlisted();
    Listed();
    BothCommit();
  }

  const UNLISTED_TX := Tx(5, 1, 10, None, SellerPassed, None, None)
  const LISTED_TX := Tx(6, 1, 11, None, SellerPassed, Some(1), None)

  lemma Unlisted()
    ensures Run(EMPTY_STATE, [Begin(0, 5, 1, 10, None), ReadSeller(0), CountLive(0)])
         == EMPTY_STATE.(txs := map[0 := UNLISTED_TX])
  {
    var s1 := EMPTY_STATE.(txs := map[0 := Tx(5, 1, 10, None, Begun, None, None)]);
    var s2 := EMPTY_STATE.(txs := map[0 := Tx(5, 1, 10, None, SellerRead, None, None)]);
    Take(EMPTY_STATE, [], EMPTY_STATE, Begin(0, 5, 1, 10, None), s1);
    Take(EMPTY_STATE, [Begin(0, 5, 1, 10, None)], s1, ReadSeller(0), s2);
    Take(EMPTY_STATE, [Begin(0, 5, 1, 10, None), ReadSeller(0)], s2, CountLive(0),
         EMPTY_STATE.(txs := map[0 := UNLISTED_TX]));
  }

  lemma Listed()
    ensures Run(EMPTY_STATE.(txs := map[0 := UNLISTED_TX]),
                [SetCapacity(1, 1), Begin(1, 6, 1, 11, None), ReadSeller(1), CountLive(1)])
         == EMPTY_STATE.(profiles := map[1 := 1], txs := map[0 := UNLISTED_TX, 1 := LISTED_TX])
  {
    var s := EMPTY_STATE.(txs := map[0 := UNLISTED_TX]);
    var s1 := s.(profiles := map[1 := 1]);
    var s2 := s1.(txs := map[0 := UNLISTED_TX, 1 := LISTED_TX.(stage := Begun, capacity := None)]);
    var s3 := s1.(txs := map[0 := UNLISTED_TX, 1 := LISTED_TX.(stage := SellerRead)]);
    ListedBegins(s, s1, s2);
    ListedPasses(s1, s2, s3);
    TakeTwo(s, [], s, SetCapacity(1, 1), s1, Begin(1, 6, 1, 11, None), s2);
    TakeTwo(s, [SetCapacity(1, 1), Begin(1, 6, 1, 11, None)], s2, ReadSeller(1), s3, CountLive(1),
            s1.(txs := map[0 := UNLISTED_TX, 1 := LISTED_TX]));
    assert [] + [SetCapacity(1, 1), Begin(1, 6, 1, 11, None)] == [SetCapacity(1, 1), Begin(1, 6, 1, 11, None)];
    assert [SetCapacity(1, 1), Begin(1, 6, 1, 11, None)] + [ReadSeller(1), CountLive(1)]
        == [SetCapacity(1, 1), Begin(1, 6, 1, 11, None), ReadSeller(1), CountLive(1)];
  }

  lemma TakeTwo(s: State, done: seq<Action>, here: State, a: Action, mid: State, b: Action, there: State)
    requires Run(s, done) == here && Next(here, a) == mid && Next(mid, b) == there
    ensures Run(s, done + [a, b]) == there
  {
    Take(s, done, here, a, mid);
    Take(s, done + [a], mid, b, there);
    assert done + [a] + [b] == done + [a, b];
  }

  lemma ListedBegins(s: State, s1: State, s2: State)
    requires s == EMPTY_STATE.(txs := map[0 := UNLISTED_TX]) && s1 == s.(profiles := map[1 := 1])
    requires s2 == s1.(txs := map[0 := UNLISTED_TX, 1 := LISTED_TX.(stage := Begun, capacity := None)])
    ensures Next(s, SetCapacity(1, 1)) == s1 && Next(s1, Begin(1, 6, 1, 11, None)) == s2
  {
    assert s2.txs == s1.txs[1 := LISTED_TX.(stage := Begun, capacity := None)];
  }

  lemma ListedPasses(s1: State, s2: State, s3: State)
    requires s1 == EMPTY_STATE.(txs := map[0 := UNLISTED_TX], profiles := map[1 := 1])
    requires s2 == s1.(txs := map[0 := UNLISTED_TX, 1 := LISTED_TX.(stage := Begun, capacity := None)])
    requires s3 == s1.(txs := map[0 := UNLISTED_TX, 1 := LISTED_TX.(stage := SellerRead)])
    ensures Next(s2, ReadSeller(1)) == s3
    ensures Next(s3, CountLive(1)) == s1.(txs := map[0 := UNLISTED_TX, 1 := LISTED_TX])
  {
    assert s3.txs == s2.txs[1 := LISTED_TX.(stage := SellerRead)];
    assert LiveOrders(s3, 1) == {};
    assert s3.txs[1 := LISTED_TX] == map[0 := UNLISTED_TX, 1 := LISTED_TX];
  }

  lemma BothCommit()
    ensures
      var s := Run(EMPTY_STATE.(profiles := map[1 := 1], txs := map[0 := UNLISTED_TX, 1 := LISTED_TX]),
                   [Commit(0), Commit(1)]);
      s.profiles == map[1 := 1] && |LiveOrders(s, 1)| == 2
  {
    var s := EMPTY_STATE.(profiles := map[1 := 1], txs := map[0 := UNLISTED_TX, 1 := LISTED_TX]);
    var s1 := s.(orders := map[10 := Order(1, true)], txs := map[1 := LISTED_TX]);
    var s2 := s.(orders := map[10 := Order(1, true), 11 := Order(1, true)], txs := map[]);
    Take(s, [], s, Commit(0), s1);
    Take(s, [Commit(0)], s1, Commit(1), s2);
    assert LiveOrders(s2, 1) == {10, 11};
  }

  lemma Take(s: State, done: seq<Action>, here: State, a: Action, there: State)
    requires Run(s, done) == here && Next(here, a) == there
    ensures Run(s, done + [a]) == there
    ensures done == [] ==> done + [a] == [a]
  {
    assert (done + [a])[..|done|] == done;
  }

  // ----- Coupons

  predicate CouponInv(s: State, coupon: Id) {
    && (forall t :: t in s.txs && HoldsCoupon(s.txs[t], coupon) ==>
          coupon in s.coupons && s.txs[t].limits == Some(s.coupons[coupon]))
    && (forall t, u :: t in s.txs && u in s.txs && HoldsCoupon(s.txs[t], coupon) && HoldsCoupon(s.txs[u], coupon) ==>
        t == u)
    && (forall t :: t in s.txs && s.txs[t].coupon == Some(coupon) && s.txs[t].stage.CouponPassed? ==>
          coupon in s.coupons && UsesLeft(s, coupon, s.txs[t].buyer, s.coupons[coupon]))
  }

  /** `a` commits a transaction that redeems `coupon`. */
  predicate Redeems(s: State, a: Action, coupon: Id) {
    a.Commit? && Enabled(s, a) && s.txs[a.tx].coupon == Some(coupon)
  }

  lemma UsesTable(s: State, a: Action)
    ensures Next(s, a).uses
         == if a.Commit? && Enabled(s, a) && s.txs[a.tx].coupon.Some? then
              s.uses[s.txs[a.tx].order := Use(s.txs[a.tx].coupon.value, s.txs[a.tx].buyer)]
            else if a.Expire? && Enabled(s, a) then s.uses - {a.order}
            else s.uses
  {
  }

  lemma UsesOfStep(s: State, after: State, coupon: Id, order: Id, use: Use)
    requires after.uses == s.uses[order := use] && order !in s.uses
    ensures |UsesOf(after, coupon)| <= |UsesOf(s, coupon)| + if use.coupon == coupon then 1 else 0
    ensures |UsesBy(after, coupon, use.user)| <= |UsesBy(s, coupon, use.user)| + if use.coupon == coupon then 1 else 0
    ensures forall user :: user != use.user ==> UsesBy(after, coupon, user) == UsesBy(s, coupon, user)
  {
    if use.coupon == coupon {
      OneMore(UsesOf(s, coupon), UsesOf(after, coupon), order);
      OneMore(UsesBy(s, coupon, use.user), UsesBy(after, coupon, use.user), order);
    } else {
      FewerElements(UsesOf(after, coupon), UsesOf(s, coupon));
      FewerElements(UsesBy(after, coupon, use.user), UsesBy(s, coupon, use.user));
    }
  }

  lemma FewerUses(s: State, after: State, coupon: Id, user: Id, order: Id)
    requires after.uses == s.uses - {order} || after.uses == s.uses
    ensures |UsesOf(after, coupon)| <= |UsesOf(s, coupon)| && |UsesBy(after, coupon, user)| <= |UsesBy(s, coupon, user)|
  {
    FewerElements(UsesOf(after, coupon), UsesOf(s, coupon));
    FewerElements(UsesBy(after, coupon, user), UsesBy(s, coupon, user));
  }

  lemma UsesStep(s: State, a: Action, coupon: Id, user: Id)
    requires OrdersFresh(s)
    ensures |UsesOf(Next(s, a), coupon)| <= |UsesOf(s, coupon)| + if Redeems(s, a, coupon) then 1 else 0
    ensures |UsesBy(Next(s, a), coupon, user)|
         <= |UsesBy(s, coupon, user)| + if Redeems(s, a, coupon) && s.txs[a.tx].buyer == user then 1 else 0
  {
    var after := Next(s, a);
    UsesTable(s, a);
    if a.Commit? && Enabled(s, a) && s.txs[a.tx].coupon.Some? {
      var tx := s.txs[a.tx];
      UsesOfStep(s, after, coupon, tx.order, Use(tx.coupon.value, tx.buyer));
    } else {
      FewerUses(s, after, coupon, user, if a.Expire? then a.order else 0);
    }
  }

  lemma PutKeepsCoupon(s: State, t: Id, tx: Tx, coupon: Id)
    requires CouponInv(s, coupon)
    requires HoldsCoupon(tx, coupon) ==>
      && coupon in s.coupons && tx.limits == Some(s.coupons[coupon])
      && (forall u :: u in s.txs && HoldsCoupon(s.txs[u], coupon) ==> u == t)
      && (tx.stage.CouponPassed? ==> UsesLeft(s, coupon, tx.buyer, s.coupons[coupon]))
    ensures CouponInv(Put(s, t, tx), coupon)
  {
    var after := Put(s, t, tx);
    forall u | u in after.txs && after.txs[u].coupon == Some(coupon) && after.txs[u].stage.CouponPassed?
      ensures coupon in after.coupons && UsesLeft(after, coupon, after.txs[u].buyer, after.coupons[coupon])
    {
      SameUses(s, after, coupon, after.txs[u].buyer);
      assert HoldsCoupon(after.txs[u], coupon);
    }
  }

  lemma SameUses(s: State, after: State, coupon: Id, user: Id)
    requires after.uses == s.uses
    ensures UsesOf(after, coupon) == UsesOf(s, coupon) && UsesBy(after, coupon, user) == UsesBy(s, coupon, user)
  {
  }

  lemma DropKeepsCoupon(s: State, t: Id, coupon: Id)
    requires CouponInv(s, coupon)
    ensures CouponInv(Drop(s, t), coupon)
  {
    var after := Drop(s, t);
    forall u | u in after.txs && after.txs[u].coupon == Some(coupon) && after.txs[u].stage.CouponPassed?
      ensures coupon in after.coupons && UsesLeft(after, coupon, after.txs[u].buyer, after.coupons[coupon])
    {
      SameUses(s, after, coupon, after.txs[u].buyer);
      assert HoldsCoupon(s.txs[u], coupon);
    }
  }

  /** Other tables may change as long as this coupon's uses do not grow. */
  lemma TablesKeepCoupon(s: State, after: State, coupon: Id)
    requires CouponInv(s, coupon) && after.txs == s.txs
    requires |UsesOf(after, coupon)| <= |UsesOf(s, coupon)|
    requires forall user :: |UsesBy(after, coupon, user)| <= |UsesBy(s, coupon, user)|
    requires CouponFree(s, coupon)
      || (coupon in s.coupons && coupon in after.coupons && after.coupons[coupon] == s.coupons[coupon])
    ensures CouponInv(after, coupon)
  {
    forall t | t in after.txs && after.txs[t].coupon == Some(coupon) && after.txs[t].stage.CouponPassed?
      ensures coupon in after.coupons && UsesLeft(after, coupon, after.txs[t].buyer, after.coupons[coupon])
    {
      assert HoldsCoupon(s.txs[t], coupon);
      assert |UsesBy(after, coupon, after.txs[t].buyer)| <= |UsesBy(s, coupon, after.txs[t].buyer)|;
    }
  }

  /** A commit that redeems leaves nobody holding the coupon; any other leaves its uses alone. */
  lemma CommitKeepsCoupon(s: State, t: Id, coupon: Id)
    requires CouponInv(s, coupon) && OrdersFresh(s) && t in s.txs && ReadyToCommit(s.txs[t])
    ensures CouponInv(Next(s, Commit(t)), coupon)
  {
    var after := Next(s, Commit(t));
    DropKeepsCoupon(s, t, coupon);
    if s.txs[t].coupon == Some(coupon) {
      assert HoldsCoupon(s.txs[t], coupon);
      assert CouponFree(after, coupon) by {
        forall u | u in after.txs ensures !HoldsCoupon(after.txs[u], coupon) {
          assert u in s.txs && u != t;
        }
      }
      FreeIsInv(after, coupon);
    } else {
      assert UsesOf(after, coupon) == UsesOf(Drop(s, t), coupon);
      forall user ensures |UsesBy(after, coupon, user)| <= |UsesBy(Drop(s, t), coupon, user)| {
        assert UsesBy(after, coupon, user) == UsesBy(Drop(s, t), coupon, user);
      }
      if CouponFree(s, coupon) {
        assert CouponFree(Drop(s, t), coupon);
      }
      TablesKeepCoupon(Drop(s, t), after, coupon);
    }
  }

  lemma FreeIsInv(s: State, coupon: Id)
    requires CouponFree(s, coupon)
    ensures CouponInv(s, coupon)
  {
    forall t | t in s.txs && s.txs[t].coupon == Some(coupon) ensures !s.txs[t].stage.CouponPassed? {
      assert !HoldsCoupon(s.txs[t], coupon);
    }
  }

  lemma PlacingKeepsCoupon(s: State, a: Action, coupon: Id)
    requires CouponInv(s, coupon) && Enabled(s, a)
    requires a.Begin? || a.ReadSeller? || a.CountLive? || a.ReadCoupon? || a.CountUses? || a.Abort?
    ensures CouponInv(Next(s, a), coupon)
  {
    DropKeepsCoupon(s, a.tx, coupon);
    if a.tx in Next(s, a).txs {
      var tx := Next(s, a).txs[a.tx];
      if a.CountUses? {
        assert HoldsCoupon(s.txs[a.tx], s.txs[a.tx].coupon.value);
      }
      PutKeepsCoupon(s, a.tx, tx, coupon);
    }
  }

  lemma TableStepKeepsCoupon(s: State, a: Action, coupon: Id)
    requires CouponInv(s, coupon) && OrdersFresh(s) && Enabled(s, a)
    requires a.SetCapacity? || a.SetLimits? || a.Finish? || a.Expire?
    ensures CouponInv(Next(s, a), coupon)
  {
    var after := Next(s, a);
    UsesStep(s, a, coupon, 0);
    forall user ensures |UsesBy(after, coupon, user)| <= |UsesBy(s, coupon, user)| {
      UsesStep(s, a, coupon, user);
    }
    if !CouponFree(s, coupon) {
      var t :| t in s.txs && HoldsCoupon(s.txs[t], coupon);
    }
    TablesKeepCoupon(s, after, coupon);
  }

  lemma CouponStep(s: State, a: Action, coupon: Id)
    requires CouponInv(s, coupon) && OrdersFresh(s)
    ensures CouponInv(Next(s, a), coupon)
  {
    if Enabled(s, a) {
      if a.Commit? {
        CommitKeepsCoupon(s, a.tx, coupon);
      } else if a.SetCapacity? || a.SetLimits? || a.Finish? || a.Expire? {
        TableStepKeepsCoupon(s, a, coupon);
      } else {
        PlacingKeepsCoupon(s, a, coupon);
      }
    }
  }

  /** The step that takes a coupon's redemptions up is a commit that redeems it, by its buyer and one use,
      and it leaves the total and that buyer's share within the limits in force. */
  lemma CouponLimitsRespected(s: State, a: Action, coupon: Id, user: Id)
    requires CouponInv(s, coupon) && OrdersFresh(s)
    requires |UsesOf(Next(s, a), coupon)| > |UsesOf(s, coupon)|
             || |UsesBy(Next(s, a), coupon, user)| > |UsesBy(s, coupon, user)|
    ensures Redeems(s, a, coupon) && coupon in s.coupons && Next(s, a).coupons == s.coupons
    ensures s.coupons[coupon].total.Some? ==> |UsesOf(Next(s, a), coupon)| <= s.coupons[coupon].total.value
    ensures s.coupons[coupon].perUser > 0 && s.txs[a.tx].buyer == user ==>
              |UsesBy(Next(s, a), coupon, user)| <= s.coupons[coupon].perUser
    ensures |UsesBy(Next(s, a), coupon, user)| > |UsesBy(s, coupon, user)| ==> s.txs[a.tx].buyer == user
  {
    UsesStep(s, a, coupon, user);
  }

  /** The limits of `coupon` are, and are only ever set, within these. */
  predicate LimitsWithin(limits: Limits, total: nat, perUser: nat) {
    limits.total.Some? && limits.total.value <= total && 1 <= limits.perUser <= perUser
  }

  predicate SetsWithin(a: Action, coupon: Id, total: nat, perUser: nat) {
    a.SetLimits? && a.limited == coupon ==> LimitsWithin(a.limits, total, perUser)
  }

  predicate CouponBounded(s: State, coupon: Id, user: Id, total: nat, perUser: nat) {
    && OrdersFresh(s) && CouponInv(s, coupon)
    && (coupon in s.coupons ==> LimitsWithin(s.coupons[coupon], total, perUser))
    && |UsesOf(s, coupon)| <= total && |UsesBy(s, coupon, user)| <= perUser
  }

  /** Over a whole run: a coupon whose limits stay within `total` and `perUser` is never redeemed more often
      than that, nor by one user, however the transactions interleave. */
  lemma {:induction false} CouponUsesBounded(s: State, actions: seq<Action>, coupon: Id, user: Id, total: nat,
                                             perUser: nat)
    requires CouponBounded(s, coupon, user, total, perUser)
    requires forall i :: 0 <= i < |actions| ==> SetsWithin(actions[i], coupon, total, perUser)
    ensures CouponBounded(Run(s, actions), coupon, user, total, perUser)
  {
    if actions != [] {
      var front, a := actions[..|actions| - 1], actions[|actions| - 1];
      assert SetsWithin(a, coupon, total, perUser);
      forall i | 0 <= i < |front| ensures SetsWithin(front[i], coupon, total, perUser) {
        assert SetsWithin(actions[i], coupon, total, perUser);
      }
      CouponUsesBounded(s, front, coupon, user, total, perUser);
      CouponBoundedStep(Run(s, front), a, coupon, user, total, perUser);
    }
  }

  lemma CouponBoundedStep(s: State, a: Action, coupon: Id, user: Id, total: nat, perUser: nat)
    requires CouponBounded(s, coupon, user, total, perUser) && SetsWithin(a, coupon, total, perUser)
    ensures CouponBounded(Next(s, a), coupon, user, total, perUser)
  {
    OrdersFreshStep(s, a);
    CouponStep(s, a, coupon);
    UsesStep(s, a, coupon, user);
    if Redeems(s, a, coupon) {
      assert UsesLeft(s, coupon, s.txs[a.tx].buyer, s.coupons[coupon]);
    }
  }

  /** From empty tables: a coupon whose limits are only ever set within these is never redeemed more often. */
  lemma CouponHoldsFromStart(actions: seq<Action>, coupon: Id, user: Id, total: nat, perUser: nat)
    requires forall i :: 0 <= i < |actions| ==> SetsWithin(actions[i], coupon, total, perUser)
    ensures
      var s := Run(EMPTY_STATE, actions);
      && |UsesOf(s, coupon)| <= total && |UsesBy(s, coupon, user)| <= perUser
      && CouponBounded(s, coupon, user, total, perUser)
  {
    assert UsesOf(EMPTY_STATE, coupon) == {} && UsesBy(EMPTY_STATE, coupon, user) == {};
    CouponUsesBounded(EMPTY_STATE, actions, coupon, user, total, perUser);
  }

  /** A commit records one redemption for its own order exactly when it has a coupon, and expiry takes
      away exactly the expired order's. */
  lemma RedemptionsFollowOrders(s: State, a: Action)
    requires OrdersFresh(s) && Enabled(s, a) && (a.Commit? || a.Expire?)
    ensures a.Commit? ==>
      var tx := s.txs[a.tx];
      && (tx.order in Next(s, a).uses <==> tx.coupon.Some?)
      && (tx.coupon.Some? ==> Next(s, a).uses[tx.order] == Use(tx.coupon.value, tx.buyer))
      && Next(s, a).uses - {tx.order} == s.uses
    ensures a.Expire? ==> Next(s, a).uses == s.uses - {a.order}
  {
    if a.Commit? {
      assert s.txs[a.tx].order !in s.uses;
      assert Next(s, a).uses - {s.txs[a.tx].order} == s.uses;
    }
  }

  // ----- No deadlock

  /** A transaction in the middle of its coupon step has read the limits. */
  predicate Readings(s: State) {
    forall t :: t in s.txs && (s.txs[t].stage.CouponRead? || s.txs[t].stage.CouponPassed?) ==>
      s.txs[t].coupon.Some? && s.txs[t].limits.Some?
  }

  lemma PutKeepsReadings(s: State, t: Id, tx: Tx)
    requires Readings(s) && (tx.stage.CouponRead? || tx.stage.CouponPassed? ==> tx.coupon.Some? && tx.limits.Some?)
    ensures Readings(Put(s, t, tx)) && Readings(Drop(s, t))
  {
  }

  lemma ReadingsStep(s: State, a: Action)
    requires Readings(s)
    ensures Readings(Next(s, a))
  {
    if Enabled(s, a) && !(a.SetCapacity? || a.SetLimits? || a.Finish? || a.Expire?) {
      PutKeepsReadings(s, a.tx, if a.tx in Next(s, a).txs then Next(s, a).txs[a.tx] else s.txs[a.tx]);
    }
  }

  /** The step a transaction is about to take. */
  function Pending(t: Id, tx: Tx): Action {
    match tx.stage
    case Begun => ReadSeller(t)
    case SellerRead => CountLive(t)
    case SellerPassed => if tx.coupon.Some? then ReadCoupon(t) else Commit(t)
    case CouponRead => CountUses(t)
    case CouponPassed => Commit(t)
  }

  lemma CouponHolderMoves(s: State, t: Id, coupon: Id)
    requires Readings(s) && t in s.txs && HoldsCoupon(s.txs[t], coupon)
    ensures Enabled(s, Pending(t, s.txs[t]))
  {
  }

  lemma SellerHolderMoves(s: State, t: Id, seller: Id) returns (u: Id)
    requires Readings(s) && t in s.txs && HoldsSeller(s.txs[t], seller)
    ensures u in s.txs && Enabled(s, Pending(u, s.txs[u]))
  {
    u := t;
    if s.txs[t].stage.SellerPassed? && s.txs[t].coupon.Some? && !CouponFree(s, s.txs[t].coupon.value) {
      u :| u in s.txs && HoldsCoupon(s.txs[u], s.txs[t].coupon.value);
      CouponHolderMoves(s, u, s.txs[t].coupon.value);
    }
  }

  lemma SomebodyMoves(s: State)
    requires Readings(s) && s.txs != map[]
    ensures exists t :: t in s.txs && Enabled(s, Pending(t, s.txs[t]))
  {
    var t :| t in s.txs;
    if s.txs[t].stage.Begun? && !SellerFree(s, s.txs[t].seller) {
      var holder :| holder in s.txs && HoldsSeller(s.txs[holder], s.txs[t].seller);
      var u := SellerHolderMoves(s, holder, s.txs[t].seller);
    } else if s.txs[t].stage.SellerPassed? && s.txs[t].coupon.Some? && !CouponFree(s, s.txs[t].coupon.value) {
      var holder :| holder in s.txs && HoldsCoupon(s.txs[holder], s.txs[t].coupon.value);
      CouponHolderMoves(s, holder, s.txs[t].coupon.value);
    }
  }

  lemma {:induction false} RunReadings(actions: seq<Action>)
    ensures Readings(Run(EMPTY_STATE, actions))
  {
    if actions != [] {
      RunReadings(actions[..|actions| - 1]);
      ReadingsStep(Run(EMPTY_STATE, actions[..|actions| - 1]), actions[|actions| - 1]);
    }
  }

  /** Profiles are locked before coupons, so in every reachable state with orders being placed, some
      transaction can take its own next step: they never all wait for each other. */
  lemma NoDeadlock(actions: seq<Action>)
    requires Run(EMPTY_STATE, actions).txs != map[]
    ensures
      var s := Run(EMPTY_STATE, actions);
      exists t :: t in s.txs && Enabled(s, Pending(t, s.txs[t]))
  {
    RunReadings(actions);
    SomebodyMoves(Run(EMPTY_STATE, actions));
  }
}
