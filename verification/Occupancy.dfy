/** The other side of the limits: an order that has room is placed, and every limit can be filled. */
module Occupancy {
  import opened Wrappers
  import opened Int64
  import opened Admission
  import opened Sets

  // ----- Room

  /** The seller set no capacity, or has fewer live orders than it. */
  predicate SellerHasRoom(s: State, seller: Id) {
    seller in s.profiles && s.profiles[seller] > 0 ==> |LiveOrders(s, seller)| < s.profiles[seller]
  }

  /** The coupon can be used, and neither its total nor this user's share is used up. */
  predicate CouponHasRoom(s: State, coupon: Id, user: Id) {
    && coupon in s.coupons && s.coupons[coupon].active
    && (s.coupons[coupon].total.None? || |UsesOf(s, coupon)| < s.coupons[coupon].total.value)
    && (s.coupons[coupon].perUser <= 0 || |UsesBy(s, coupon, user)| < s.coupons[coupon].perUser)
  }

  /** However orders interleave, the capacity check lets a transaction on exactly if the seller has room when it
      counts. */
  lemma CountLiveIff(s: State, t: Id, seller: Id)
    requires SellerInv(s, seller) && t in s.txs && s.txs[t].seller == seller && s.txs[t].stage.SellerRead?
    ensures
      var after := Next(s, CountLive(t));
      if SellerHasRoom(s, seller) then t in after.txs && after.txs[t] == s.txs[t].(stage := SellerPassed)
      else t !in after.txs
  {
  }

  /** And so does the coupon check. */
  lemma CountUsesIff(s: State, t: Id, coupon: Id)
    requires CouponInv(s, coupon) && t in s.txs && s.txs[t].coupon == Some(coupon) && s.txs[t].stage.CouponRead?
    requires s.coupons[coupon].active
    ensures
      var after := Next(s, CountUses(t));
      if CouponHasRoom(s, coupon, s.txs[t].buyer) then
        t in after.txs && after.txs[t] == s.txs[t].(stage := CouponPassed)
      else t !in after.txs
  {
    assert HoldsCoupon(s.txs[t], coupon);
  }

  /** Room comes back: finishing or expiring an order takes exactly it off the seller's live orders, expiring takes
      exactly its redemption off the coupon, and giving up a transaction releases what it holds and changes nothing. */
  lemma RoomComesBack(s: State, order: Id, t: Id, seller: Id, coupon: Id)
    requires order in s.orders && t in s.txs
    ensures LiveOrders(Next(s, Finish(order)), seller) == LiveOrders(s, seller) - {order}
    ensures LiveOrders(Next(s, Expire(order)), seller) == LiveOrders(s, seller) - {order}
    ensures UsesOf(Next(s, Finish(order)), coupon) == UsesOf(s, coupon)
    ensures UsesOf(Next(s, Expire(order)), coupon) == UsesOf(s, coupon) - {order}
    ensures Next(s, Abort(t)) == s.(txs := s.txs - {t})
  {
  }

  // ----- One order, placed without waiting

  /** The steps of one order. */
  function Placing(t: Id, buyer: Id, seller: Id, order: Id, coupon: Option<Id>): seq<Action> {
    [Begin(t, buyer, seller, order, coupon), ReadSeller(t), CountLive(t)]
    + (if coupon.Some? then [ReadCoupon(t), CountUses(t)] else []) + [Commit(t)]
  }

  /** Nobody holds a row the order needs, and its ids are new. */
  predicate Clear(s: State, t: Id, seller: Id, order: Id, coupon: Option<Id>) {
    && t !in s.txs && order !in s.orders && (forall u :: u in s.txs ==> s.txs[u].order != order)
    && SellerFree(s, seller) && (coupon.Some? ==> CouponFree(s, coupon.value))
  }

  function Placed(s: State, buyer: Id, seller: Id, order: Id, coupon: Option<Id>): State {
    s.(orders := s.orders[order := Order(seller, true)],
       uses := if coupon.Some? then s.uses[order := Use(coupon.value, buyer)] else s.uses)
  }

  lemma {:induction false} RunConcat(s: State, actions: seq<Action>, more: seq<Action>)
    ensures Run(s, actions + more) == Run(Run(s, actions), more)
  {
    if more == [] {
      assert actions + more == actions;
    } else {
      RunConcat(s, actions, more[..|more| - 1]);
      assert (actions + more)[..|actions + more| - 1] == actions + more[..|more| - 1];
    }
  }

  lemma RunOne(s: State, a: Action)
    ensures Run(s, [a]) == Next(s, a)
  {
    assert [a][..0] == [];
  }

  lemma RunTwo(s: State, a: Action, b: Action)
    ensures Run(s, [a, b]) == Next(Next(s, a), b)
  {
    RunOne(s, a);
    RunConcat(s, [a], [b]);
    RunOne(Next(s, a), b);
    assert [a] + [b] == [a, b];
  }

  lemma RunThree(s: State, a: Action, b: Action, c: Action)
    ensures Run(s, [a, b, c]) == Next(Next(Next(s, a), b), c)
  {
    RunTwo(s, a, b);
    RunOne(Run(s, [a, b]), c);
    RunConcat(s, [a, b], [c]);
    assert [a, b] + [c] == [a, b, c];
  }

  lemma PutAgain(s: State, t: Id, tx: Tx, other: Tx)
    ensures Put(Put(s, t, tx), t, other) == Put(s, t, other)
    ensures t !in s.txs ==> Drop(Put(s, t, tx), t) == s
  {
    assert s.txs[t := tx][t := other] == s.txs[t := other];
    assert t !in s.txs ==> s.txs[t := tx] - {t} == s.txs;
  }

  /** The order's transaction after its seller steps. */
  function Passed(s: State, buyer: Id, seller: Id, order: Id, coupon: Option<Id>): Tx {
    var capacity := if seller in s.profiles then Some(s.profiles[seller]) else None;
    Tx(buyer, seller, order, coupon, SellerPassed, capacity, None)
  }

  lemma ReadStep(s: State, t: Id, tx: Tx)
    requires t !in s.txs && tx.stage.Begun? && SellerFree(s, tx.seller)
    ensures
      var capacity := if tx.seller in s.profiles then Some(s.profiles[tx.seller]) else None;
      Next(Put(s, t, tx), ReadSeller(t)) == Put(s, t, tx.(stage := SellerRead, capacity := capacity))
  {
    assert SellerFree(Put(s, t, tx), tx.seller);
    var capacity := if tx.seller in s.profiles then Some(s.profiles[tx.seller]) else None;
    PutAgain(s, t, tx, tx.(stage := SellerRead, capacity := capacity));
  }

  lemma CountStep(s: State, t: Id, tx: Tx)
    requires t !in s.txs && tx.stage.SellerRead?
    requires tx.capacity == if tx.seller in s.profiles then Some(s.profiles[tx.seller]) else None
    ensures Next(Put(s, t, tx), CountLive(t))
         == if SellerHasRoom(s, tx.seller) then Put(s, t, tx.(stage := SellerPassed)) else s
  {
    assert LiveOrders(Put(s, t, tx), tx.seller) == LiveOrders(s, tx.seller);
    PutAgain(s, t, tx, tx.(stage := SellerPassed));
  }

  lemma SellerSteps(s: State, t: Id, buyer: Id, seller: Id, order: Id, coupon: Option<Id>)
    requires Clear(s, t, seller, order, coupon)
    ensures Run(s, [Begin(t, buyer, seller, order, coupon), ReadSeller(t), CountLive(t)])
         == if SellerHasRoom(s, seller) then Put(s, t, Passed(s, buyer, seller, order, coupon)) else s
  {
    var begun := Tx(buyer, seller, order, coupon, Begun, None, None);
    RunThree(s, Begin(t, buyer, seller, order, coupon), ReadSeller(t), CountLive(t));
    ReadStep(s, t, begun);
    CountStep(s, t, Passed(s, buyer, seller, order, coupon).(stage := SellerRead));
  }

  lemma ReadCouponStep(s: State, t: Id, tx: Tx, coupon: Id)
    requires t !in s.txs && tx.stage.SellerPassed? && tx.coupon == Some(coupon) && CouponFree(s, coupon)
    ensures Next(Put(s, t, tx), ReadCoupon(t))
         == if coupon in s.coupons && s.coupons[coupon].active then
              Put(s, t, tx.(stage := CouponRead, limits := Some(s.coupons[coupon])))
            else s
  {
    assert CouponFree(Put(s, t, tx), coupon);
    PutAgain(s, t, tx, if coupon in s.coupons then tx.(stage := CouponRead, limits := Some(s.coupons[coupon])) else tx);
  }

  lemma CountUsesStep(s: State, t: Id, tx: Tx, coupon: Id)
    requires t !in s.txs && tx.stage.CouponRead? && tx.coupon == Some(coupon)
    requires coupon in s.coupons && s.coupons[coupon].active && tx.limits == Some(s.coupons[coupon])
    ensures Next(Put(s, t, tx), CountUses(t))
         == if CouponHasRoom(s, coupon, tx.buyer) then Put(s, t, tx.(stage := CouponPassed)) else s
  {
    SameUses(s, Put(s, t, tx), coupon, tx.buyer);
    PutAgain(s, t, tx, tx.(stage := CouponPassed));
  }

  lemma CouponSteps(s: State, t: Id, tx: Tx, coupon: Id)
    requires t !in s.txs && tx.stage.SellerPassed? && tx.coupon == Some(coupon) && CouponFree(s, coupon)
    ensures Run(Put(s, t, tx), [ReadCoupon(t), CountUses(t)])
         == if CouponHasRoom(s, coupon, tx.buyer) then
              Put(s, t, tx.(stage := CouponPassed, limits := Some(s.coupons[coupon])))
            else s
  {
    RunTwo(Put(s, t, tx), ReadCoupon(t), CountUses(t));
    ReadCouponStep(s, t, tx, coupon);
    if coupon in s.coupons && s.coupons[coupon].active {
      CountUsesStep(s, t, tx.(stage := CouponRead, limits := Some(s.coupons[coupon])), coupon);
    }
  }

  lemma CommitStep(s: State, t: Id, tx: Tx)
    requires t !in s.txs && ReadyToCommit(tx)
    ensures Run(Put(s, t, tx), [Commit(t)]) == Placed(s, tx.buyer, tx.seller, tx.order, tx.coupon)
  {
    RunOne(Put(s, t, tx), Commit(t));
    assert Put(s, t, tx).txs - {t} == s.txs;
  }

  lemma NothingToCommit(s: State, t: Id)
    requires t !in s.txs
    ensures Run(s, [Commit(t)]) == s && Run(s, [ReadCoupon(t), CountUses(t)]) == s
  {
    RunOne(s, Commit(t));
    RunTwo(s, ReadCoupon(t), CountUses(t));
  }

  /** An order that waits for nobody is placed exactly if its seller and its coupon have room, and then its order and
      its redemption are all that changes. */
  lemma PlacedIff(s: State, t: Id, buyer: Id, seller: Id, order: Id, coupon: Option<Id>)
    requires Clear(s, t, seller, order, coupon)
    ensures Run(s, Placing(t, buyer, seller, order, coupon))
         == if SellerHasRoom(s, seller) && (coupon.Some? ==> CouponHasRoom(s, coupon.value, buyer)) then
              Placed(s, buyer, seller, order, coupon)
            else s
  {
    var first := [Begin(t, buyer, seller, order, coupon), ReadSeller(t), CountLive(t)];
    var second := if coupon.Some? then [ReadCoupon(t), CountUses(t)] else [];
    RunConcat(s, first + second, [Commit(t)]);
    RunConcat(s, first, second);
    SellerSteps(s, t, buyer, seller, order, coupon);
    NothingToCommit(s, t);
    if SellerHasRoom(s, seller) {
      var tx := Passed(s, buyer, seller, order, coupon);
      if coupon.Some? {
        CouponSteps(s, t, tx, coupon.value);
        if CouponHasRoom(s, coupon.value, buyer) {
          CommitStep(s, t, tx.(stage := CouponPassed, limits := Some(s.coupons[coupon.value])));
        }
      } else {
        CommitStep(s, t, tx);
      }
    }
  }

  // ----- Filling a limit

  function Upto(k: nat): (ids: set<Id>)
    ensures |ids| == k && forall i: Id :: i in ids <==> i < k
  {
    if k == 0 then {} else Upto(k - 1) + {k - 1}
  }

  /** Who places the i-th order: always the same buyer, or each their own. */
  function BuyerOf(same: Option<Id>, i: Id): Id {
    if same.Some? then same.value else i
  }

  /** Orders 0 to k - 1 of one seller, all live, each with the coupon if there is one, and nothing in flight. */
  function Filled(base: State, seller: Id, coupon: Option<Id>, same: Option<Id>, k: nat): State {
    base.(orders := map i | i in Upto(k) :: Order(seller, true),
          uses := if coupon.Some? then map i | i in Upto(k) :: Use(coupon.value, BuyerOf(same, i)) else map[],
          txs := map[])
  }

  /** One more fits. */
  predicate OneMoreFits(base: State, seller: Id, coupon: Option<Id>, same: Option<Id>, k: nat) {
    && (seller in base.profiles && base.profiles[seller] > 0 ==> k < base.profiles[seller])
    && (coupon.Some? ==>
          && coupon.value in base.coupons && base.coupons[coupon.value].active
          && (base.coupons[coupon.value].total.Some? ==> k < base.coupons[coupon.value].total.value)
          && (same.Some? && base.coupons[coupon.value].perUser > 0 ==> k < base.coupons[coupon.value].perUser))
  }

  lemma FilledCounts(base: State, seller: Id, coupon: Option<Id>, same: Option<Id>, k: nat)
    ensures
      var s := Filled(base, seller, coupon, same, k);
      && |LiveOrders(s, seller)| == k
      && (coupon.Some? ==>
            && |UsesOf(s, coupon.value)| == k
            && |UsesBy(s, coupon.value, BuyerOf(same, k))| == if same.Some? then k else 0)
  {
    var s := Filled(base, seller, coupon, same, k);
    assert LiveOrders(s, seller) == Upto(k);
    if coupon.Some? {
      assert UsesOf(s, coupon.value) == Upto(k);
      assert UsesBy(s, coupon.value, BuyerOf(same, k)) == if same.Some? then Upto(k) else {};
    }
  }

  lemma FilledFurther(base: State, seller: Id, coupon: Option<Id>, same: Option<Id>, k: nat)
    ensures Placed(Filled(base, seller, coupon, same, k), BuyerOf(same, k), seller, k, coupon)
         == Filled(base, seller, coupon, same, k + 1)
  {
    assert Upto(k + 1) == Upto(k) + {k};
  }

  lemma FillOne(base: State, seller: Id, coupon: Option<Id>, same: Option<Id>, k: nat)
    requires OneMoreFits(base, seller, coupon, same, k)
    ensures Run(Filled(base, seller, coupon, same, k), Placing(0, BuyerOf(same, k), seller, k, coupon))
         == Filled(base, seller, coupon, same, k + 1)
  {
    FilledCounts(base, seller, coupon, same, k);
    FilledFurther(base, seller, coupon, same, k);
    PlacedIff(Filled(base, seller, coupon, same, k), 0, BuyerOf(same, k), seller, k, coupon);
  }

  /** None of the actions changes a capacity or a coupon. */
  predicate OnlyOrders(actions: seq<Action>) {
    forall i :: 0 <= i < |actions| ==> !actions[i].SetCapacity? && !actions[i].SetLimits?
  }

  lemma PlacingOnlyOrders(t: Id, buyer: Id, seller: Id, order: Id, coupon: Option<Id>)
    ensures OnlyOrders(Placing(t, buyer, seller, order, coupon))
  {
  }

  lemma OnlyOrdersJoin(actions: seq<Action>, more: seq<Action>)
    requires OnlyOrders(actions) && OnlyOrders(more)
    ensures OnlyOrders(actions + more)
  {
  }

  lemma FillNext(base: State, seller: Id, coupon: Option<Id>, same: Option<Id>, k: nat, before: seq<Action>)
      returns (actions: seq<Action>)
    requires OneMoreFits(base, seller, coupon, same, k) && OnlyOrders(before)
    requires Run(Filled(base, seller, coupon, same, 0), before) == Filled(base, seller, coupon, same, k)
    ensures OnlyOrders(actions)
    ensures Run(Filled(base, seller, coupon, same, 0), actions) == Filled(base, seller, coupon, same, k + 1)
  {
    var next := Placing(0, BuyerOf(same, k), seller, k, coupon);
    FillOne(base, seller, coupon, same, k);
    RunConcat(Filled(base, seller, coupon, same, 0), before, next);
    PlacingOnlyOrders(0, BuyerOf(same, k), seller, k, coupon);
    OnlyOrdersJoin(before, next);
    actions := before + next;
  }

  /** As long as one more fits, it can be placed. */
  lemma {:induction false} Fill(base: State, seller: Id, coupon: Option<Id>, same: Option<Id>, k: nat)
      returns (actions: seq<Action>)
    requires forall i: nat :: i < k ==> OneMoreFits(base, seller, coupon, same, i)
    ensures OnlyOrders(actions)
    ensures Run(Filled(base, seller, coupon, same, 0), actions) == Filled(base, seller, coupon, same, k)
  {
    if k == 0 {
      actions := [];
    } else {
      actions := Fill(base, seller, coupon, same, k - 1);
      actions := FillNext(base, seller, coupon, same, k - 1, actions);
    }
  }

  // ----- Capacity

  lemma ProfileStep(s: State, a: Action, seller: Id)
    requires seller in s.profiles
    ensures seller in Next(s, a).profiles
  {
  }

  lemma {:induction false} ProfileStays(s: State, actions: seq<Action>, seller: Id)
    requires seller in s.profiles
    ensures seller in Run(s, actions).profiles
  {
    if actions != [] {
      ProfileStays(s, actions[..|actions| - 1], seller);
      ProfileStep(Run(s, actions[..|actions| - 1]), actions[|actions| - 1], seller);
    }
  }

  /** A run that begins with the profile finds it. */
  lemma ProfileFirst(capacity: nat, more: seq<Action>, seller: Id)
    ensures FindsProfile([SetCapacity(seller, capacity)] + more, seller)
  {
    var actions := [SetCapacity(seller, capacity)] + more;
    forall i | 0 <= i < |actions| && ReadsSeller(Run(EMPTY_STATE, actions[..i]), actions[i], seller)
      ensures seller in Run(EMPTY_STATE, actions[..i]).profiles
    {
      assert i > 0 && actions[..i] == [SetCapacity(seller, capacity)] + actions[1..i];
      RunConcat(EMPTY_STATE, [SetCapacity(seller, capacity)], actions[1..i]);
      RunOne(EMPTY_STATE, SetCapacity(seller, capacity));
      ProfileStays(Run(EMPTY_STATE, [SetCapacity(seller, capacity)]), actions[1..i], seller);
    }
  }

  /** Every capacity can be filled from empty tables. */
  lemma CapacityIsFilled(seller: Id, capacity: nat) returns (actions: seq<Action>)
    requires 1 <= capacity
    ensures FindsProfile(actions, seller) && AllWithin(actions, seller, capacity)
    ensures Run(EMPTY_STATE, actions).profiles == map[seller := capacity]
    ensures |LiveOrders(Run(EMPTY_STATE, actions), seller)| == capacity
  {
    var base := EMPTY_STATE.(profiles := map[seller := capacity]);
    var more := Fill(base, seller, None, None, capacity);
    actions := [SetCapacity(seller, capacity)] + more;
    RunOne(EMPTY_STATE, SetCapacity(seller, capacity));
    assert Filled(base, seller, None, None, 0) == base;
    RunConcat(EMPTY_STATE, [SetCapacity(seller, capacity)], more);
    FilledCounts(base, seller, None, None, capacity);
    ProfileFirst(capacity, more, seller);
  }

  ghost predicate LiveAtMost(seller: Id, limit: nat, n: int) {
    forall actions :: FindsProfile(actions, seller) && AllWithin(actions, seller, limit) ==>
      |LiveOrders(Run(EMPTY_STATE, actions), seller)| <= n
  }

  /** Over all runs from empty tables in which the seller's capacities are set within `limit`, the seller has at most
      `n` live orders if and only if `n` is at least `limit`: the limit holds, and it can be filled. */
  lemma LiveAtMostIff(seller: Id, limit: nat, n: int)
    ensures LiveAtMost(seller, limit, n) <==> limit <= n
  {
    if limit <= n {
      forall actions | FindsProfile(actions, seller) && AllWithin(actions, seller, limit)
        ensures |LiveOrders(Run(EMPTY_STATE, actions), seller)| <= n
      {
        CapacityHoldsFromStart(actions, seller, limit);
      }
    } else if limit == 0 {
      var none: seq<Action> := [];
      assert FindsProfile(none, seller) && AllWithin(none, seller, limit);
      assert |LiveOrders(Run(EMPTY_STATE, none), seller)| > n;
    } else {
      var actions := CapacityIsFilled(seller, limit);
      assert |LiveOrders(Run(EMPTY_STATE, actions), seller)| > n;
    }
  }

  // ----- Coupons

  /** The coupon's limits are only ever set within these. */
  predicate AllSetWithin(actions: seq<Action>, coupon: Id, total: nat, perUser: nat) {
    forall i :: 0 <= i < |actions| ==> SetsWithin(actions[i], coupon, total, perUser)
  }

  lemma FilledFrom(coupon: Id, limits: Limits, k: nat, same: Option<Id>) returns (actions: seq<Action>)
    requires limits.active && (limits.total.Some? ==> k <= limits.total.value)
    requires same.Some? && limits.perUser > 0 ==> k <= limits.perUser
    ensures actions != [] && actions[0] == SetLimits(coupon, limits) && OnlyOrders(actions[1..])
    ensures Run(EMPTY_STATE, actions)
         == Filled(EMPTY_STATE.(coupons := map[coupon := limits]), 0, Some(coupon), same, k)
  {
    var base := EMPTY_STATE.(coupons := map[coupon := limits]);
    var more := Fill(base, 0, Some(coupon), same, k);
    RunOne(EMPTY_STATE, SetLimits(coupon, limits));
    assert Filled(base, 0, Some(coupon), same, 0) == base;
    actions := [SetLimits(coupon, limits)] + more;
    RunConcat(EMPTY_STATE, [SetLimits(coupon, limits)], more);
  }

  lemma OnlySetFirst(actions: seq<Action>, coupon: Id, limits: Limits, total: nat, perUser: nat)
    requires actions != [] && actions[0] == SetLimits(coupon, limits) && OnlyOrders(actions[1..])
    requires LimitsWithin(limits, total, perUser)
    ensures AllSetWithin(actions, coupon, total, perUser)
  {
    forall i | 0 <= i < |actions| ensures SetsWithin(actions[i], coupon, total, perUser) {
      assert i > 0 ==> actions[i] == actions[1..][i - 1];
    }
  }

  /** Every total can be used up by different buyers, and every share by one. */
  lemma CouponIsUsedUp(coupon: Id, total: nat, perUser: nat, same: Option<Id>) returns (actions: seq<Action>)
    requires 1 <= perUser
    ensures AllSetWithin(actions, coupon, total, perUser)
    ensures same.None? ==> |UsesOf(Run(EMPTY_STATE, actions), coupon)| == total
    ensures same.Some? ==> |UsesBy(Run(EMPTY_STATE, actions), coupon, same.value)| == Least(total, perUser)
  {
    var limits, k := Limits(Some(total), perUser, true), if same.Some? then Least(total, perUser) else total;
    actions := FilledFrom(coupon, limits, k, same);
    OnlySetFirst(actions, coupon, limits, total, perUser);
    FilledCounts(EMPTY_STATE.(coupons := map[coupon := limits]), 0, Some(coupon), same, k);
  }

  ghost predicate UsesAtMost(coupon: Id, total: nat, perUser: nat, n: int) {
    forall actions :: AllSetWithin(actions, coupon, total, perUser) ==> |UsesOf(Run(EMPTY_STATE, actions), coupon)| <= n
  }

  ghost predicate ShareAtMost(coupon: Id, user: Id, total: nat, perUser: nat, n: int) {
    forall actions :: AllSetWithin(actions, coupon, total, perUser) ==>
      |UsesBy(Run(EMPTY_STATE, actions), coupon, user)| <= n
  }

  /** Over all runs from empty tables in which a coupon's limits are set within these, it is used at most `n` times if
      and only if `n` is at least the total, and by one user if and only if `n` is at least the smaller of the two. */
  lemma UsesAtMostIff(coupon: Id, user: Id, total: nat, perUser: nat, n: int)
    requires 1 <= perUser
    ensures UsesAtMost(coupon, total, perUser, n) <==> total <= n
    ensures ShareAtMost(coupon, user, total, perUser, n) <==> Least(total, perUser) <= n
  {
    forall actions | AllSetWithin(actions, coupon, total, perUser)
      ensures |UsesOf(Run(EMPTY_STATE, actions), coupon)| <= total
      ensures |UsesBy(Run(EMPTY_STATE, actions), coupon, user)| <= Least(total, perUser)
    {
      CouponHoldsFromStart(actions, coupon, user, total, perUser);
      ShareWithinTotal(Run(EMPTY_STATE, actions), coupon, user);
    }
    var byAll := CouponIsUsedUp(coupon, total, perUser, None);
    var byOne := CouponIsUsedUp(coupon, total, perUser, Some(user));
    assert |UsesOf(Run(EMPTY_STATE, byAll), coupon)| == total;
    assert |UsesBy(Run(EMPTY_STATE, byOne), coupon, user)| == Least(total, perUser);
  }

  lemma ShareWithinTotal(s: State, coupon: Id, user: Id)
    ensures |UsesBy(s, coupon, user)| <= |UsesOf(s, coupon)|
  {
    FewerElements(UsesBy(s, coupon, user), UsesOf(s, coupon));
  }
}
