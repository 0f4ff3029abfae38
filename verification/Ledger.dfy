/** The append-only ledger and the one gate through which entries reach it. */
module Ledger {
  import opened Int64

  type Id = nat

  datatype Account =
    | BuyerPayment | PromotionExpense | Escrow | BuyerRefund | PromotionRecovery
    | PlatformRevenue | SellerPayable | SellerPayout

  datatype Direction = Debit | Credit

  datatype Line = Line(account: Account, direction: Direction, amount: int)

  /** A stored row: one line, filed under the order it belongs to. */
  datatype Entry = Entry(order: Id, line: Line)

  function DebitOf(account: Account, amount: int): Line {
    Line(account, Debit, amount)
  }

  function CreditOf(account: Account, amount: int): Line {
    Line(account, Credit, amount)
  }

  function Signed(line: Line): int {
    if line.direction.Credit? then line.amount else -line.amount
  }

  /** The balance (credits minus debits) of every account. */
  datatype Accounts = Accounts(buyerPayment: int, promotionExpense: int, escrow: int, buyerRefund: int,
                               promotionRecovery: int, platformRevenue: int, sellerPayable: int, sellerPayout: int)
  {
    function Sum(): int {
      buyerPayment + promotionExpense + escrow + buyerRefund + promotionRecovery + platformRevenue + sellerPayable
        + sellerPayout
    }

    /** Money that went back to whoever funded the order. */
    function Back(): int {
      buyerRefund + promotionRecovery
    }

    function Move(line: Line): Accounts {
      var x := Signed(line);
      match line.account
      case BuyerPayment => this.(buyerPayment := buyerPayment + x)
      case PromotionExpense => this.(promotionExpense := promotionExpense + x)
      case Escrow => this.(escrow := escrow + x)
      case BuyerRefund => this.(buyerRefund := buyerRefund + x)
      case PromotionRecovery => this.(promotionRecovery := promotionRecovery + x)
      case PlatformRevenue => this.(platformRevenue := platformRevenue + x)
      case SellerPayable => this.(sellerPayable := sellerPayable + x)
      case SellerPayout => this.(sellerPayout := sellerPayout + x)
    }

    function MoveAll(lines: seq<Line>): Accounts {
      if lines == [] then this else MoveAll(lines[..|lines| - 1]).Move(lines[|lines| - 1])
    }
  }

  const NO_ACCOUNTS := Accounts(0, 0, 0, 0, 0, 0, 0, 0)

  /** The accounts of one order, from the rows filed under it. */
  function Balances(ledger: seq<Entry>, order: Id): Accounts {
    if ledger == [] then NO_ACCOUNTS
    else
      var last := ledger[|ledger| - 1];
      var before := Balances(ledger[..|ledger| - 1], order);
      if last.order == order then before.Move(last.line) else before
  }

  /** Exact total of one side of a transaction. */
  function Total(lines: seq<Line>, side: Direction): int {
    if lines == [] then 0
    else
      var last := lines[|lines| - 1];
      Total(lines[..|lines| - 1], side) + if last.direction == side then last.amount else 0
  }

  function SideLength(lines: seq<Line>, side: Direction): nat {
    if lines == [] then 0
    else SideLength(lines[..|lines| - 1], side) + if lines[|lines| - 1].direction == side then 1 else 0
  }

  predicate NonNegative(lines: seq<Line>) {
    forall i :: 0 <= i < |lines| ==> 0 <= lines[i].amount
  }

  /** The guard: no negative amount, and equal sums in 64-bit arithmetic. */
  predicate Accepts(lines: seq<Line>) {
    NonNegative(lines) && Wrap(Total(lines, Debit)) == Wrap(Total(lines, Credit))
  }

  /** The rows an accepted transaction adds; zero amounts leave none. */
  function Posted(order: Id, lines: seq<Line>): seq<Entry> {
    if lines == [] then []
    else
      var last := lines[|lines| - 1];
      Posted(order, lines[..|lines| - 1]) + if last.amount == 0 then [] else [Entry(order, last)]
  }

  /** Posting moves the accounts of that order by the transaction and no other order at all. */
  lemma {:induction false} PostedBalances(ledger: seq<Entry>, order: Id, lines: seq<Line>, other: Id)
    ensures Balances(ledger + Posted(order, lines), other)
         == if other == order then Balances(ledger, other).MoveAll(lines) else Balances(ledger, other)
  {
    if lines == [] {
      assert ledger + Posted(order, lines) == ledger;
    } else {
      var front, last := lines[..|lines| - 1], lines[|lines| - 1];
      PostedBalances(ledger, order, front, other);
      var before := ledger + Posted(order, front);
      if last.amount == 0 {
        assert ledger + Posted(order, lines) == before;
        MoveNothing(Balances(ledger, other).MoveAll(front), last);
      } else {
        assert ledger + Posted(order, lines) == before + [Entry(order, last)];
        BalancesAppend(before, Entry(order, last), other);
      }
    }
  }

  lemma MoveNothing(accounts: Accounts, line: Line)
    requires line.amount == 0
    ensures accounts.Move(line) == accounts
  {
  }

  lemma BalancesAppend(ledger: seq<Entry>, entry: Entry, other: Id)
    ensures Balances(ledger + [entry], other)
         == if entry.order == other then Balances(ledger, other).Move(entry.line) else Balances(ledger, other)
  {
    assert (ledger + [entry])[..|ledger|] == ledger;
  }

  /** A transaction changes the sum over all accounts by credits minus debits: a balanced one not at all. */
  lemma {:induction false} MoveAllSum(accounts: Accounts, lines: seq<Line>)
    ensures accounts.MoveAll(lines).Sum() == accounts.Sum() + Total(lines, Credit) - Total(lines, Debit)
  {
    if lines != [] {
      MoveAllSum(accounts, lines[..|lines| - 1]);
    }
  }

  lemma {:induction false} TotalRange(lines: seq<Line>, side: Direction)
    requires forall i :: 0 <= i < |lines| ==> 0 <= lines[i].amount <= MAX
    ensures 0 <= Total(lines, side) <= SideLength(lines, side) * MAX
  {
    if lines != [] {
      TotalRange(lines[..|lines| - 1], side);
    }
  }

  lemma CloseAndCongruent(d: int)
    requires -MODULUS < d < MODULUS
    ensures d % MODULUS == 0 <==> d == 0
  {
  }

  /** With at most two lines a side, which is every transaction the program books, the 64-bit
      comparison accepts exactly the balanced transactions. */
  lemma AcceptsExactlyBalanced(lines: seq<Line>)
    requires forall i :: 0 <= i < |lines| ==> lines[i].amount <= MAX
    requires SideLength(lines, Debit) <= 2 && SideLength(lines, Credit) <= 2
    ensures Accepts(lines) <==> NonNegative(lines) && Total(lines, Debit) == Total(lines, Credit)
  {
    if NonNegative(lines) {
      TotalRange(lines, Debit);
      TotalRange(lines, Credit);
      var debits, credits := Total(lines, Debit), Total(lines, Credit);
      assert debits <= 2 * MAX && credits <= 2 * MAX by {
        assert SideLength(lines, Debit) * MAX <= 2 * MAX && SideLength(lines, Credit) * MAX <= 2 * MAX;
      }
      CloseAndCongruent(debits - credits);
      WrapEqual(Total(lines, Debit), Total(lines, Credit));
    }
  }

  /** Three lines on one side are enough to fool it: the sums differ by a whole modulus. */
  lemma AcceptsUnbalanced()
    ensures
      var lines := [DebitOf(Escrow, MAX), DebitOf(Escrow, MAX), DebitOf(Escrow, 2)];
      Accepts(lines) && Total(lines, Debit) != Total(lines, Credit)
  {
    var lines := [DebitOf(Escrow, MAX), DebitOf(Escrow, MAX), DebitOf(Escrow, 2)];
    TotalThree(lines[0], lines[1], lines[2], Debit);
    TotalThree(lines[0], lines[1], lines[2], Credit);
    WrapEqual(Total(lines, Debit), Total(lines, Credit));
  }

  lemma MoveAppend(accounts: Accounts, lines: seq<Line>, line: Line)
    ensures accounts.MoveAll(lines + [line]) == accounts.MoveAll(lines).Move(line)
  {
    assert (lines + [line])[..|lines|] == lines;
  }

  lemma MoveTwo(accounts: Accounts, a: Line, b: Line)
    ensures accounts.MoveAll([a, b]) == accounts.Move(a).Move(b)
  {
    MoveAppend(accounts, [], a);
    MoveAppend(accounts, [a], b);
    assert [] + [a] == [a] && [a] + [b] == [a, b];
  }

  lemma MoveThree(accounts: Accounts, a: Line, b: Line, c: Line)
    ensures accounts.MoveAll([a, b, c]) == accounts.Move(a).Move(b).Move(c)
  {
    MoveTwo(accounts, a, b);
    MoveAppend(accounts, [a, b], c);
    assert [a, b] + [c] == [a, b, c];
  }

  lemma TotalAppend(lines: seq<Line>, line: Line, side: Direction)
    ensures Total(lines + [line], side) == Total(lines, side) + if line.direction == side then line.amount else 0
    ensures SideLength(lines + [line], side) == SideLength(lines, side) + if line.direction == side then 1 else 0
  {
    assert (lines + [line])[..|lines|] == lines;
  }

  lemma TotalThree(a: Line, b: Line, c: Line, side: Direction)
    ensures Total([a, b, c], side)
         == (if a.direction == side then a.amount else 0) + (if b.direction == side then b.amount else 0)
          + (if c.direction == side then c.amount else 0)
  {
    TotalAppend([], a, side);
    TotalAppend([a], b, side);
    TotalAppend([a, b], c, side);
    assert [] + [a] == [a] && [a] + [b] == [a, b] && [a, b] + [c] == [a, b, c];
  }
}
