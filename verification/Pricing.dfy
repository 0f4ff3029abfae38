/** What an order costs: the add-on loop, the coupon arithmetic and the platform fee. */
module Pricing {
  import opened Wrappers
  import opened Int64

  datatype Kind = Percent | Fixed | Unsupported

  datatype Terms = Terms(kind: Kind, value: int, minOrder: int, cap: Option<int>)

  datatype Refusal = BadAmount | BelowMinimum | BadPercent | UnknownKind | NoDiscount | AmountTooLarge | InvalidOption

  // ----- Coupon discount

  /** The percentage as the program computes it: split before multiplying, in 64-bit arithmetic. */
  function SplitPercent(amount: int, value: int): int
    requires 0 < amount
  {
    Wrap(Wrap((amount / 100) * value) + Wrap((amount % 100) * value) / 100)
  }

  function ComputeDiscount(terms: Terms, amount: int): (r: Result<int, Refusal>)
    ensures r.Ok? ==> 1 <= r.value <= amount && terms.minOrder <= amount
  {
    if amount <= 0 then Err(BadAmount)
    else if amount < terms.minOrder then Err(BelowMinimum)
    else if terms.kind.Unsupported? then Err(UnknownKind)
    else if terms.kind.Percent? && !(0 < terms.value <= 100) then Err(BadPercent)
    else
      var raw := if terms.kind.Percent? then SplitPercent(amount, terms.value) else terms.value;
      var capped := if terms.cap.Some? && 0 <= terms.cap.value < raw then terms.cap.value else raw;
      var discount := Least(capped, amount);
      if discount <= 0 then Err(NoDiscount) else Ok(discount)
  }

  /** No intermediate of the split formula exceeds the amount, so nothing wraps and the result is
      the exact floor of amount * value / 100. */
  lemma SplitPercentExact(amount: int, value: int)
    requires 0 < amount <= MAX && 0 < value <= 100
    ensures SplitPercent(amount, value) == amount * value / 100
    ensures 0 <= (amount / 100) * value <= amount
    ensures 0 <= (amount % 100) * value / 100 <= amount
    ensures SplitPercent(amount, value) <= amount
  {
    var q, m := amount / 100, amount % 100;
    SplitFloor(q, m, value);
    assert amount * value == (100 * q + m) * value;
    SplitBounds(q, m, value);
  }

  lemma SplitBounds(q: int, m: int, value: int)
    requires 0 <= q && 0 <= m < 100 && 0 < value <= 100
    ensures 0 <= q * value <= 100 * q
    ensures 0 <= m * value <= 100 * m && 0 <= m * value / 100 <= m
  {
  }

  lemma SplitFloor(q: int, m: int, value: int)
    ensures (100 * q + m) * value / 100 == q * value + m * value / 100
  {
    var a, b := q * value, m * value;
    assert (100 * q + m) * value == 100 * a + b;
    assert (100 * a + b) / 100 == a + b / 100;
  }

  /** The discount in unbounded arithmetic: the smallest of what the terms give, the cap and the amount. */
  function IdealDiscount(terms: Terms, amount: int): int {
    var raw := if terms.kind.Percent? then amount * terms.value / 100 else terms.value;
    Least(amount, if terms.cap.Some? && 0 <= terms.cap.value then Least(raw, terms.cap.value) else raw)
  }

  predicate Applicable(terms: Terms, amount: int) {
    && 0 < amount && terms.minOrder <= amount
    && (terms.kind.Fixed? || (terms.kind.Percent? && 0 < terms.value <= 100))
    && 1 <= IdealDiscount(terms, amount)
  }

  /** On every 64-bit amount the coupon applies exactly when the ideal discount is positive, and then
      the two agree. */
  lemma DiscountIsIdeal(terms: Terms, amount: int)
    requires amount <= MAX
    ensures ComputeDiscount(terms, amount).Ok? <==> Applicable(terms, amount)
    ensures Applicable(terms, amount) ==> ComputeDiscount(terms, amount).value == IdealDiscount(terms, amount)
  {
    if 0 < amount && terms.kind.Percent? && 0 < terms.value <= 100 {
      SplitPercentExact(amount, terms.value);
    }
  }

  // ----- Add-ons

  datatype AddOn = AddOn(price: int, days: int)

  function Prices(rows: seq<AddOn>): int {
    if rows == [] then 0 else Prices(rows[..|rows| - 1]) + rows[|rows| - 1].price
  }

  function Days(rows: seq<AddOn>): int {
    if rows == [] then 0 else Days(rows[..|rows| - 1]) + rows[|rows| - 1].days
  }

  /** What a basket costs: the exact sum, refused when it leaves the 64-bit range or when a
      requested add-on is not on sale. */
  function Charge(base: int, rows: seq<AddOn>, requested: nat): Result<int, Refusal> {
    if base + Prices(rows) > MAX then Err(AmountTooLarge)
    else if |rows| != requested then Err(InvalidOption)
    else Ok(base + Prices(rows))
  }

  predicate OnSale(rows: seq<AddOn>) {
    forall i :: 0 <= i < |rows| ==> 0 <= rows[i].price
  }

  lemma {:induction false} PricesMonotone(rows: seq<AddOn>, n: nat)
    requires OnSale(rows) && n <= |rows|
    ensures Prices(rows[..n]) <= Prices(rows)
    decreases |rows|
  {
    if n == |rows| {
      assert rows[..n] == rows;
    } else {
      var front := rows[..|rows| - 1];
      PricesMonotone(front, n);
      assert front[..n] == rows[..n];
    }
  }

  /** The order's own loop: it flags an overflow and keeps reading, because the row set is open. */
  method PriceOrder(base: int, baseDays: int, rows: seq<AddOn>, requested: nat)
      returns (r: Result<int, Refusal>, days: int)
    requires 0 <= base <= MAX && OnSale(rows)
    ensures r == Charge(base, rows, requested)
    ensures r.Ok? ==> days == baseDays + Days(rows) && base <= r.value <= MAX
  {
    var price, selected, overflow := base, 0, false;
    days := baseDays;
    for i := 0 to |rows|
      invariant 0 <= price <= MAX && base <= price <= base + Prices(rows[..i])
      invariant overflow ==> base + Prices(rows[..i]) > MAX
      invariant !overflow ==> price == base + Prices(rows[..i]) && selected == i && days == baseDays + Days(rows[..i])
    {
      assert rows[..i + 1][..i] == rows[..i];
      if rows[i].price > MAX - price {
        overflow := true;
      } else {
        price := price + rows[i].price;
        days := days + rows[i].days;
        selected := selected + 1;
      }
    }
    assert rows[..|rows|] == rows;
    if overflow {
      return Err(AmountTooLarge), days;
    }
    if selected != requested {
      return Err(InvalidOption), days;
    }
    return Ok(price), days;
  }

  /** The preview's loop, which counts every row it reads. */
  method PreviewPrice(base: int, rows: seq<AddOn>, requested: nat) returns (r: Result<int, Refusal>)
    requires 0 <= base <= MAX && OnSale(rows)
    requires requested == 0 ==> rows == []
    ensures r == Charge(base, rows, requested)
  {
    if requested == 0 {
      return Ok(base);
    }
    var amount, found, overflow := base, 0, false;
    for i := 0 to |rows|
      invariant found == i && 0 <= amount <= MAX && base <= amount <= base + Prices(rows[..i])
      invariant overflow ==> base + Prices(rows[..i]) > MAX
      invariant !overflow ==> amount == base + Prices(rows[..i])
    {
      assert rows[..i + 1][..i] == rows[..i];
      found := found + 1;
      if rows[i].price > MAX - amount {
        overflow := true;
      } else {
        amount := amount + rows[i].price;
      }
    }
    assert rows[..|rows|] == rows;
    if overflow {
      return Err(AmountTooLarge);
    }
    return if found != requested then Err(InvalidOption) else Ok(amount);
  }

  lemma {:induction false} PricesWithout(rows: seq<AddOn>, i: nat)
    requires i < |rows|
    ensures Prices(rows) == Prices(rows[..i] + rows[i + 1..]) + rows[i].price
    decreases |rows|
  {
    var last := |rows| - 1;
    if i == last {
      assert rows[..i] + rows[i + 1..] == rows[..last];
    } else {
      PricesWithout(rows[..last], i);
      var rest := rows[..i] + rows[i + 1..];
      assert rest[..|rest| - 1] == rows[..last][..i] + rows[..last][i + 1..];
    }
  }

  lemma MultisetWithout(rows: seq<AddOn>, i: nat)
    requires i < |rows|
    ensures multiset(rows[..i] + rows[i + 1..]) == multiset(rows) - multiset{rows[i]}
  {
    assert rows == rows[..i] + ([rows[i]] + rows[i + 1..]);
    assert multiset(rows) == multiset(rows[..i]) + (multiset([rows[i]]) + multiset(rows[i + 1..]));
  }

  /** Taking the same row out of both. */
  function Without(rows: seq<AddOn>, i: nat): seq<AddOn>
    requires i < |rows|
  {
    rows[..i] + rows[i + 1..]
  }

  lemma SameLength(rows: seq<AddOn>, others: seq<AddOn>)
    requires multiset(rows) == multiset(others)
    ensures |rows| == |others|
  {
    assert |multiset(rows)| == |rows| && |multiset(others)| == |others|;
  }

  lemma Somewhere(rows: seq<AddOn>, others: seq<AddOn>) returns (i: nat)
    requires rows != [] && multiset(rows) == multiset(others)
    ensures i < |others| && others[i] == rows[0]
    ensures multiset(Without(rows, 0)) == multiset(Without(others, i))
  {
    assert rows[0] in multiset(others);
    i :| 0 <= i < |others| && others[i] == rows[0];
    MultisetWithout(rows, 0);
    MultisetWithout(others, i);
  }

  lemma {:induction false} PricesIgnoreOrder(rows: seq<AddOn>, others: seq<AddOn>)
    requires multiset(rows) == multiset(others)
    ensures Prices(rows) == Prices(others) && |rows| == |others|
    decreases |rows|
  {
    SameLength(rows, others);
    if rows != [] {
      var i := Somewhere(rows, others);
      PricesWithout(rows, 0);
      PricesWithout(others, i);
      PricesIgnoreOrder(Without(rows, 0), Without(others, i));
    }
  }

  /** The database may return the rows in any order: the charge only depends on which rows they are. */
  lemma ChargeIgnoresOrder(base: int, rows: seq<AddOn>, others: seq<AddOn>, requested: nat)
    requires multiset(rows) == multiset(others)
    ensures Charge(base, rows, requested) == Charge(base, others, requested)
  {
    PricesIgnoreOrder(rows, others);
  }

  // ----- Platform fee

  /** The configured rate when it is a percentage, ten otherwise. */
  function FeeRate(setting: Option<real>): (r: real)
    ensures 0.0 <= r <= 100.0
  {
    if setting.Some? && 0.0 <= setting.value <= 100.0 then setting.value else 10.0
  }

  function Fee(amount: int, rate: real): int {
    (amount as real * rate / 100.0).Floor
  }

  /** The fee never exceeds the amount it is taken from. */
  lemma FeeWithinAmount(amount: int, rate: real)
    requires 0 <= amount && 0.0 <= rate <= 100.0
    ensures 0 <= Fee(amount, rate) <= amount
  {
    assert 0.0 <= amount as real * rate <= amount as real * 100.0;
  }
}
