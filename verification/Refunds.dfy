/** How a refund splits between the buyer and the promotion, in the program's 64-bit arithmetic. */
module Refunds {
  import opened Int64
  import opened Ledger
  import opened Market

  /** The largest amount whose square fits in 64 bits. */
  const SAFE_AMOUNT := 3037000499

  predicate InRange(refund: int, amount: int, discount: int) {
    0 <= refund <= amount <= MAX && 0 <= discount <= amount
  }

  // ----- Division facts the solver needs spelled out

  lemma MultiplyOrder(x: int, y: int, a: int)
    requires 0 < a && y <= x
    ensures y * a <= x * a
  {
  }

  lemma CancelStrict(x: int, y: int, a: int)
    requires 0 < a && x * a < y * a
    ensures x < y
  {
    if y <= x {
      MultiplyOrder(x, y, a);
    }
  }

  lemma DivisionFloor(p: int, a: int)
    requires 0 < a
    ensures (p / a) * a <= p < (p / a + 1) * a
  {
    assert (p / a + 1) * a == (p / a) * a + a;
  }

  lemma DivisionMonotone(x: int, y: int, a: int)
    requires 0 < a && x <= y
    ensures x / a <= y / a
  {
    DivisionFloor(x, a);
    DivisionFloor(y, a);
    CancelStrict(x / a, y / a + 1, a);
  }

  lemma DivisionUnique(p: int, a: int, q: int)
    requires 0 < a && q * a <= p < (q + 1) * a
    ensures p / a == q
  {
    DivisionFloor(p, a);
    CancelStrict(p / a, q + 1, a);
    CancelStrict(q, p / a + 1, a);
  }

  lemma DivisionShift(p: int, a: int, k: int)
    requires 0 < a
    ensures (p + k * a) / a == p / a + k
  {
    DivisionFloor(p, a);
    assert (p / a + k) * a == (p / a) * a + k * a;
    assert (p / a + k + 1) * a == (p / a + 1) * a + k * a;
    DivisionUnique(p + k * a, a, p / a + k);
  }

  lemma DivisionRange(p: int, a: int, q: int)
    requires 0 < a && 0 <= p <= q * a
    ensures 0 <= p / a <= q
  {
    DivisionShift(0, a, q);
    DivisionMonotone(p, 0 + q * a, a);
    DivisionMonotone(0, p, a);
  }

  // ----- The split

  /** The exact split: each side gets back at most what it put in, and a full refund exactly that. */
  lemma ExactSplit(refund: int, amount: int, discount: int)
    requires InRange(refund, amount, discount) && 0 < amount
    ensures
      var share := refund * (amount - discount) / amount;
      && 0 <= share <= amount - discount && 0 <= refund - share <= discount
      && (refund == amount ==> share == amount - discount && refund - share == discount)
  {
    var paid := amount - discount;
    var p, q := refund * paid, refund * discount;
    assert p == refund * amount - q;
    MultiplyUpTo(refund, amount, paid);
    MultiplyUpTo(refund, amount, discount);
    DivisionRange(p, amount, paid);
    ShareRest(refund, amount, discount, p, q);
    if refund == amount {
      FullShare(amount, paid);
    }
  }

  lemma FullShare(amount: int, paid: int)
    requires 0 < amount
    ensures amount * paid / amount == paid
  {
    DivisionShift(0, amount, paid);
    assert 0 + paid * amount == amount * paid;
  }

  lemma MultiplyUpTo(x: int, y: int, z: int)
    requires 0 <= x <= y && 0 <= z
    ensures 0 <= x * z <= z * y
  {
  }

  lemma NegatedProduct(x: int, y: int)
    ensures (-x) * y == -(x * y)
  {
  }

  lemma ShareRest(refund: int, amount: int, discount: int, p: int, q: int)
    requires 0 < amount && p == refund * amount - q && 0 <= q <= discount * amount
    ensures 0 <= refund - p / amount <= discount
  {
    var least := (-discount) * amount;
    assert p == -q + refund * amount && least == 0 + (-discount) * amount;
    DivisionShift(-q, amount, refund);
    assert p / amount == (-q) / amount + refund;
    DivisionShift(0, amount, -discount);
    assert least / amount == -discount;
    NegatedProduct(discount, amount);
    DivisionMonotone(-q, 0, amount);
    DivisionMonotone(least, -q, amount);
  }

  lemma WrapLoses(p: int)
    requires p > MAX
    ensures Wrap(p) + MODULUS <= p
  {
    var k := (Wrap(p) - p) / MODULUS;
    assert Wrap(p) - p == k * MODULUS;
  }

  lemma WrapBelow(p: int)
    requires 0 <= p
    ensures Wrap(p) <= p
  {
    if p > MAX {
      WrapLoses(p);
    }
  }

  lemma WrappedShare(p: int, amount: int)
    requires p > MAX && 0 < amount <= MAX
    ensures Quotient(Wrap(p), amount) != p / amount
  {
    WrapLoses(p);
    var w := Wrap(p);
    DivisionShift(p - amount, amount, 1);
    assert p / amount == (p - amount) / amount + 1;
    if w >= 0 {
      DivisionMonotone(w, p - amount, amount);
    } else {
      DivisionMonotone(0, p - amount, amount);
      DivisionMonotone(0, -w, amount);
      assert 0 / amount == 0;
    }
  }

  lemma FittingShare(p: int, amount: int)
    requires 0 <= p <= MAX && 0 < amount
    ensures Quotient(Wrap(p), amount) == p / amount
  {
  }

  lemma ProductSign(x: int, y: int)
    requires 0 <= x && 0 <= y
    ensures 0 <= x * y
  {
  }

  /** The 64-bit result is the exact share if and only if the product fits. */
  lemma ShareExactIffFits(refund: int, amount: int, discount: int)
    requires InRange(refund, amount, discount) && 0 < amount && 0 < discount
    ensures BuyerShare(refund, amount, discount) == refund * (amount - discount) / amount
            <==> refund * (amount - discount) <= MAX
  {
    var p := refund * (amount - discount);
    ProductSign(refund, amount - discount);
    if p > MAX {
      WrappedShare(p, amount);
    } else {
      FittingShare(p, amount);
    }
  }

  /** For every amount up to the bound the split is exact, whatever the refund and discount. */
  lemma SafeAmountsSplitExactly(refund: int, amount: int, discount: int)
    requires InRange(refund, amount, discount) && 0 < amount <= SAFE_AMOUNT
    ensures
      var share := BuyerShare(refund, amount, discount);
      && 0 <= share <= amount - discount && 0 <= refund - share <= discount
      && (0 < discount ==> share == refund * (amount - discount) / amount)
      && (refund == amount ==> share == amount - discount)
      && Accepts(RefundLines(refund, share))
  {
    ExactSplit(refund, amount, discount);
    ProductBound(refund, amount - discount, SAFE_AMOUNT);
    SplitAccepted(refund, BuyerShare(refund, amount, discount));
  }

  lemma ProductBound(x: int, y: int, m: int)
    requires 0 <= x <= m && 0 <= y <= m
    ensures 0 <= x * y <= m * m
  {
  }

  lemma SplitAccepted(refund: int, share: int)
    requires 0 <= share <= refund <= MAX
    ensures Accepts(RefundLines(refund, share))
  {
    var a, b, c := DebitOf(Escrow, refund), CreditOf(BuyerRefund, share),
                   CreditOf(PromotionRecovery, Wrap(refund - share));
    TotalThree(a, b, c, Debit);
    TotalThree(a, b, c, Credit);
    assert NonNegative([a, b, c]);
  }

  lemma DivisionShrinks(p: int, a: int)
    requires 0 <= p && 0 < a
    ensures 0 <= p / a <= p
  {
    var q := p / a;
    assert q * a <= p;
    assert q <= q * a;
  }

  lemma ShareInRange(product: int, amount: int)
    requires Fits(product) && 0 < amount
    ensures Quotient(product, amount) <= MAX
  {
    DivisionShrinks(if product >= 0 then product else -product, amount);
  }

  /** However the buyer's share came out of 64-bit arithmetic, an accepted refund splits exactly
      `refund` into two non-negative parts. */
  lemma AcceptedSplit(refund: int, amount: int, discount: int)
    requires 0 < refund <= MAX && Accepts(RefundLines(refund, BuyerShare(refund, amount, discount)))
    ensures
      var share := BuyerShare(refund, amount, discount);
      0 <= share <= refund && Wrap(refund - share) == refund - share
  {
    var share := BuyerShare(refund, amount, discount);
    var lines := RefundLines(refund, share);
    assert lines[1].amount == share && lines[2].amount == Wrap(refund - share);
    if 0 < discount && 0 < amount {
      ShareInRange(Wrap(refund * (amount - discount)), amount);
    }
  }

  /** A wrapped product never passes the refund's side of the guard, and passes the share's side as long as
      truncation brings it up to zero. */
  lemma QuotientSign(w: int, refund: int, amount: int)
    requires 0 < amount && w <= refund * amount
    ensures 0 <= Quotient(w, amount) <= refund <==> -amount < w
  {
    if 0 <= w {
      DivisionRange(w, amount, refund);
    } else {
      DivisionFloor(-w, amount);
      if -amount < w {
        DivisionUnique(-w, amount, 0);
      } else {
        DivisionMonotone(amount, -w, amount);
      }
    }
  }

  /** The guard looks at the wrapped product only: it accepts a discounted refund exactly when that is above
      minus the order's amount, and accepts a wrong split exactly when in addition the product did not fit. */
  lemma AcceptedIff(refund: int, amount: int, discount: int)
    requires InRange(refund, amount, discount) && 0 < refund && 0 < discount
    ensures
      var product, share := refund * (amount - discount), BuyerShare(refund, amount, discount);
      && (Accepts(RefundLines(refund, share)) <==> -amount < Wrap(product))
      && (Accepts(RefundLines(refund, share)) && share != product / amount <==>
          -amount < Wrap(product) && MAX < product)
  {
    var product, share := refund * (amount - discount), BuyerShare(refund, amount, discount);
    MultiplyUpTo(refund, amount, amount - discount);
    WrapBelow(product);
    QuotientSign(Wrap(product), refund, amount);
    if Accepts(RefundLines(refund, share)) {
      AcceptedSplit(refund, amount, discount);
    } else if 0 <= share <= refund {
      SplitAccepted(refund, share);
    }
    ShareExactIffFits(refund, amount, discount);
  }

  /** Past the bound the wrapped product can be negative, and then the ledger refuses the refund:
      an order of four billion with a coupon of one cannot be refunded in full. */
  lemma LargeRefundRefused()
    ensures !Accepts(RefundLines(4_000_000_000, BuyerShare(4_000_000_000, 4_000_000_000, 1)))
  {
    var p := 4_000_000_000 * (4_000_000_000 - 1);
    assert p == 15_999_999_996_000_000_000;
    assert Wrap(p) == p - MODULUS;
    var share := BuyerShare(4_000_000_000, 4_000_000_000, 1);
    assert share < 0;
    assert RefundLines(4_000_000_000, share)[1].amount == share;
  }

  /** Worse, it can be positive, and then a wrong split is accepted: an order of five billion with a coupon of
      one, refunded in full, gives the buyer about a quarter of what they paid and the rest to the promotion. */
  lemma LargeRefundMissplit()
    ensures
      var share := BuyerShare(5_000_000_000, 5_000_000_000, 1);
      && Accepts(RefundLines(5_000_000_000, share))
      && share == 1_310_651_184 && 5_000_000_000 * (5_000_000_000 - 1) / 5_000_000_000 == 4_999_999_999
  {
    var product := 5_000_000_000 * (5_000_000_000 - 1);
    assert product == 24_999_999_995_000_000_000;
    assert Wrap(product) == product - MODULUS;
    SplitAccepted(5_000_000_000, 1_310_651_184);
  }
}
