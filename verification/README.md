# Verification of the marketplace's money, admission and delivery machinery

The platform sells services: a buyer places an order, pays into escrow, the seller delivers, the buyer
confirms, a settlement is scheduled and later paid out; a dispute can interrupt all of that. Around it run
organization budgets, coupons, requests for quotation, an outbox of domain events, mail, keyset-paged lists,
a rate limiter and a snippet filter. This project models those parts and proves what they promise.

## How it is organized

| files | what they hold |
|---|---|
| `Wrappers`, `Sets`, `Int64`, `Ledger`, `Pricing`, `Refunds` | shared datatypes and counting facts, 64-bit arithmetic, the double-entry gate, prices, discounts, fees and the refund split |
| `Market` | the tables and what each committed transaction makes of them; `Run` is any sequence of attempted transactions from empty tables |
| `Books`, `Escrow`, `EscrowTheorems`, `RefundTheorems` | the invariant that ties order state, settlement row, ledger, payments and refunds together, its preservation by every transaction, and what follows for every run |
| `Payments`, `Reservations` | payments, and orders on a budget, racing each other and everything else, statement by statement, proved to be runs of whole transactions |
| `Outcomes`, `Requests`, `Progress` | what transactions pay in amounts that can be read off the tables, exactly which requests are granted, and whether an order can still be brought to an end |
| `DisputeTheorems`, `DisputeRuns`, `Freezes`, `Lifecycle` | what a dispute decides and when it can, open disputes and frozen settlements over every run, and four concrete runs in which money goes around it |
| `Permissions` | who can make an order move |
| `Budgets`, `Redemptions` | budget accounting and coupon redemptions over every run |
| `Store`, `Platform` | the handlers and scans as they run, statement by statement on mutable tables with rollback, proved equal to `Market`'s transactions, and so to continue its runs |
| `Admission`, `Occupancy` | seller capacity and coupon limits under row locks, every interleaving, and that every limit can be filled |
| `Quotes` | submitting against accepting a quote, every interleaving |
| `Outbox`, `Mail` | at-least-once event handling with several workers, and the mail it queues |
| `Cursor`, `Paging`, `RateLimit` | the small algorithms |
| `Nonce`, `Utf8`, `Snippets`, `SnippetTheorems` | what the snippet filter is to give, and the filter as it runs on UTF-8 bytes with its offsets, and when it gives that |

`dafny verify dfyconfig.toml` checks everything.

## What turned out not to hold as documented

* `docs/architecture.md:166` says a normally finished order closes with nothing in escrow and nothing owed, and
  that cancelled and refunded ones do too. The general
  state change lets an operator move an order from payment pending to paid without booking money
  (`EscrowTheorems.UnfundedIffPaidByHand`, `Lifecycle.HandPaidHoldsNothing`) and from disputed to refunded
  while its settlement stays live (`DisputeTheorems.GeneralRefundKeepsSettlement`,
  `Lifecycle.RefundedYetPayable`). Both are proved with the exact condition.
* A refund whose buyer share rounds to zero frees the whole budget reservation
  (`Budgets.RefundReleasesShareIff`, `Lifecycle.TinyRefundRun`).
* The refund split multiplies before dividing, so past `3037000499` a product can wrap; the split is exact if and
  only if the product fits. Where it does not, the ledger guard refuses the refund if the wrapped product is at
  most minus the amount, and otherwise accepts it with the wrong split (`Refunds.ShareExactIffFits`,
  `Refunds.AcceptedIff`, `Refunds.LargeRefundRefused`, `Refunds.LargeRefundMissplit`). Which disputes resolve
  follows (`DisputeTheorems.ResolveSucceedsIff`).
* Freezing a settlement is not a lock. A held one stays held while its order is disputed if and only if no operator
  releases it, whatever else runs (`Freezes.FrozenThroughoutIff`), and it is safe from being paid out if and only if
  nobody may both release and complete it (`Freezes.FreezeProtectsIff`); both actions are an operator's, and a run
  in which the seller is paid during the dispute is `Lifecycle.PaidOutInDispute`.
* An order can be put beyond ending. The general state change lets an operator put one into dispute without a
  dispute, from which only a full refund leads out, and that may not split. In every reachable state an order can
  still be ended if and only if it is not there (`Progress.CanEndIff`), only an operator's general change brings it
  there (`Progress.StuckOnlyByHand`), and `Progress.StuckRun` is a run of four transactions that does.
* After an operator's retry an event is claimed within the retry limit if and only if no claim the retry overtook
  can still fail (`Outbox.LimitHoldsIff`, `Outbox.StaleClaimCostsATry`); an event that is done stays done if and
  only if every job still holding it has committed its fan-out (`Outbox.DoneForGoodIff`, `Outbox.DoneCanBeUndone`).
* A quote whose open-check came before the award can be written after it; written between the closing of the
  list and the commit it can even be accepted, which gives two orders (`Quotes.LateQuoteStaysSubmitted`,
  `Quotes.LateQuoteCanBeAccepted`). An award is final if and only if no quote was late
  (`Quotes.FinalIffNobodyLate`).
* A mail row is meant to be attempted at most four times and its message to be sent once. Reclaiming a row stuck in
  sending does not touch its attempts. Over lives with at most `k` reclaims the relay takes a message at most `n`
  times if and only if `n` is at least `k + 1`, and the row is attempted at most `n` times if and only if `n` is at
  least `k + 4` (`Mail.TakenAtMostIff`, `Mail.AttemptedAtMostIff`). A reclaim can also leave a sent row to be retried
  without its body (`Mail.SlowFailureRetriesWithoutBody`); without one that does not happen (`Mail.UndisturbedLife`).
* The snippet filter looks for script tags in the lower-cased text and cuts the text itself at the offsets it finds.
  Twenty-five characters take a different number of bytes in lower case; behind one of them the nonce can be written
  behind a tag, into its name, or beyond the end (`SnippetTheorems.MissesOpening`, `SnippetTheorems.SplitsOpening`,
  `SnippetTheorems.RunsBeyond`). The cuts are right if and only if the lower-cased text has its openings where the
  text has them (`Snippets.CutsRightIff`), which without a dotted capital I is so if and only if the text between
  openings keeps its length (`Snippets.AlignedIffBalanced`); over an alphabet the filter is right for every snippet if
  and only if no character of it changes its length (`SnippetTheorems.RightOverIff`).
* A capacity is a lock on the seller's profile row, so it needs the row to exist before the first order reads it
  (`Admission.NoProfileNoLimit`); creating a listing inserts it in the same transaction
  (`internal/httpapi/talents.go:486-488`), and then it holds from empty tables on
  (`Admission.CapacityHoldsFromStart`).

Two results are about inputs no caller passes, and say how far the guards carry: `Ledger.AcceptsUnbalanced` (three
large amounts on one side) and `Outbox.HugeBaseWraps` (a base wait past every configured one).

## Model

| member | source | states |
|---|---|---|
| Ledger.PostedBalances | internal/httpapi/disputes.go:51-76 | Writing a transaction moves the eight balances of its own order by exactly its lines, skipped zero amounts included, and those of no other order |
| Ledger.MoveAllSum | internal/httpapi/disputes.go:51-76 | A transaction changes the sum over all accounts by credits minus debits, so a balanced one conserves it |
| Ledger.AcceptsExactlyBalanced | internal/httpapi/disputes.go:52-66 | With at most two lines a side, which every caller has, the wrapping comparison accepts exactly the non-negative transactions whose exact sums agree |
| Ledger.AcceptsUnbalanced | internal/httpapi/disputes.go:52-66 | Three lines on one side can pass the wrapping comparison without balancing |
| Pricing.SplitPercentExact | internal/httpapi/coupons.go:38-68 | The split percentage equals the floor of amount times value over 100 and no intermediate exceeds the amount |
| Pricing.DiscountIsIdeal | internal/httpapi/coupons.go:38-68 | A coupon applies exactly when the discount in unbounded arithmetic is positive and its terms hold, and then both agree |
| Pricing.PriceOrder | internal/httpapi/orders.go:83-122 | The order's option loop accepts exactly when base plus all prices fits in 64 bits and every requested option is on sale, and returns that sum |
| Pricing.PreviewPrice | internal/httpapi/coupons.go:219-261 | The preview's differently counting loop returns the same charge |
| Pricing.ChargeIgnoresOrder | internal/httpapi/coupons.go:219-261 | The charge depends on which option rows there are, not on the order they arrive in |
| Pricing.FeeWithinAmount | internal/httpapi/orders.go:502-504 | With a rate in 0..100 the fee lies between 0 and the amount |
| Outcomes.FeeIffPercent | internal/httpapi/orders.go:502-504 | The fee is the one whole number with a hundred times it at most, and a hundred times the next more than, amount times rate |
| Outcomes.SettingCharges | internal/httpapi/disputes.go:22-30 | A setting within 0 and 100 is the rate, any other or none charges ten percent |
| Refunds.ExactSplit | internal/httpapi/disputes.go:409-417 | Exact split: the buyer gets at most what they paid, the promotion at most the discount, and a full refund returns exactly both |
| Refunds.ShareExactIffFits | internal/httpapi/disputes.go:413-417 | The 64-bit share equals the exact one if and only if refund times paid amount fits in 64 bits |
| Refunds.SafeAmountsSplitExactly | internal/httpapi/disputes.go:409-434 | Up to 3037000499 every refund splits exactly, within bounds, and passes the ledger guard |
| Refunds.AcceptedIff | internal/httpapi/disputes.go:409-434 | The guard accepts a discounted refund exactly when the wrapped product is above minus the amount, and a wrong split exactly when in addition the product does not fit |
| Refunds.LargeRefundRefused | internal/httpapi/disputes.go:409-434 | A concrete order above the bound whose full refund the guard refuses |
| Refunds.LargeRefundMissplit | internal/httpapi/disputes.go:409-434 | A concrete order above the bound whose full refund is accepted and gives the buyer 1310651184 instead of 4999999999 |
| Refunds.AcceptedSplit | internal/httpapi/disputes.go:413-434 | Whatever the multiplication wrapped to, a refund the guard accepts splits into two non-negative parts that add up to it |
| Books.Refunding | internal/httpapi/disputes.go:409-440 | Booking a refund takes it out of escrow, splits it between buyer refund and promotion recovery, records the buyer's part, and changes nothing else but the reservation |
| Books.Moving | internal/httpapi/orders.go:519-561 | A state change keeps identity and amounts; cancelling or refunding returns exactly the positive escrow balance, any other move leaves all balances alone |
| EscrowRuns.PayOutcome | internal/httpapi/orders.go:280-362 | A payment either replays a used key and changes nothing, or turns an unpaid order ready with one capture and one posting |
| EscrowRuns.AcceptKeeps | internal/httpapi/orders.go:502-517 | Purchase confirmation keeps state, settlement row and ledger in agreement |
| EscrowRuns.ResolveKeeps | internal/httpapi/disputes.go:271-375 | Unwinding, refunding, rebooking and ending keep them in agreement, whichever outcome is chosen |
| EscrowRuns.SettlementActionKeeps | internal/httpapi/finance.go:60-149 | Hold, release and payout keep them in agreement |
| EscrowRuns.DecisionKeeps | internal/worker/settlement.go:57-84 | So does the background decision over a due settlement |
| EscrowRuns.ExpireKeeps | internal/httpapi/maintenance.go:94-121 | So does expiring an unpaid order |
| EscrowRuns.ReviewKeeps | internal/httpapi/collaboration.go:163-224 | So does a review, which may complete the order |
| EscrowRuns.RequirementKeeps | internal/httpapi/mcp.go:403-450 | So does the tool call that promotes an order to ready |
| EscrowRuns.StepKeeps | internal/httpapi/orders.go:280-561 | Every transaction, whoever attempts it, keeps the invariant and moves each order only along the transition table |
| EscrowRuns.RunKeeps | internal/httpapi/orders.go:280-561 | So the invariant holds in every state any run reaches |
| Outcomes.ConfirmationPays | internal/httpapi/orders.go:502-517 | Confirming settles the whole amount: fee the rate's percentage rounded down, net the rest, both out of escrow and onto revenue and payable |
| Outcomes.RebookingPays | internal/httpapi/disputes.go:336-352 | So does booking the seller's remainder after a decision |
| Outcomes.StepCharges | internal/httpapi/orders.go:502-517 | No other transaction sets or changes the amounts of any settlement, and these charge what their fee setting says |
| Outcomes.RowsAreCharged | internal/httpapi/orders.go:502-517 | In every reachable state every settlement was charged by the fee setting of some confirmation or resolution of the run |
| Outcomes.SettlementActionIff | internal/httpapi/finance.go:60-149 | Hold and payout go through on what is scheduled or confirmed, release on what is held; the row, the net amount paid out and everything that stays are stated |
| Outcomes.DueIsDecided | internal/worker/settlement.go:57-84 | The background decision holds or confirms what is still scheduled and changes nothing else |
| EscrowTheorems.Conservation | internal/httpapi/disputes.go:47-76 | In every reachable state each order's accounts sum to zero, at most one payment is captured, and a paid order's amount equals escrow plus everything that left it, each part non-negative |
| RefundTheorems.EscrowFollowsHistory | internal/httpapi/orders.go:519-561 | Escrow is what the order state promises exactly when the order was paid for, is worth nothing, is unpaid or cancelled, or was refunded with nothing settled and not by a decision |
| RefundTheorems.ClampInertIff | internal/httpapi/disputes.go:445-452 | The clamp at zero changes nothing exactly when the order was paid for, is worth nothing, or has neither a live settlement nor a decision that refunded it |
| EscrowTheorems.UnfundedIffPaidByHand | internal/httpapi/orders.go:407-497 | Past the unpaid states an order that was not cancelled has no capture if and only if its run has a hand-made step from payment pending to paid |
| EscrowTheorems.OnlyOperatorsPayByHand | internal/httpapi/orders.go:407-419 | Such a step is always an operator's general state change of that order |
| EscrowTheorems.SettlementAgrees | internal/httpapi/finance.go:60-149 | Payable, revenue and payout are the settlement row's net and fee in exactly the states that say so, and accepted and completed orders have a live row of the right gross |
| EscrowTheorems.PaidOutOnce | internal/httpapi/finance.go:76-120 | Once paid out, the row and the payout balance never change again, whatever runs next |
| EscrowTheorems.FinalForever | internal/httpapi/orders.go:17-29 | A finished order stays in its final state for ever |
| EscrowTheorems.PaidOnce | internal/httpapi/orders.go:309-351 | A paid order holds one capture of amount minus discount; any further payment succeeds exactly as a replay of a used key and changes nothing |
| EscrowTheorems.OnlyPayment | internal/httpapi/orders.go:319-322 | In every reachable state an order has at most one payment row, so every replay finds the same payment |
| RefundTheorems.StepGivesOnce | internal/httpapi/disputes.go:409-440 | No transaction gives back a second time: each leaves refunds and recoveries alone or gives back, from nothing, one amount split as one refund |
| RefundTheorems.GivenBackSplits | internal/httpapi/disputes.go:409-440 | In every reachable state what an order gave back is within its amount and split as one refund of that size; where that product fits, buyer and promotion get at most what each put in, and exactly that when all was given back |
| Payments.AnswerIsWhole | internal/httpapi/orders.go:309-351 | Whichever statement answers a payment request, tables and answer are those of the whole transaction run at that moment |
| Payments.AloneIsAnswered | internal/httpapi/orders.go:280-362 | A payment that nobody comes between is answered, with tables and answer of its whole transaction |
| Payments.RacesAreRuns | internal/httpapi/orders.go:309-351 | However payments and all other transactions interleave, the tables are those of the run of whole transactions in the order they finished |
| Payments.OnePaymentPerOrder | internal/httpapi/orders.go:309-351 | Whatever races, all requests for one order that were answered with a payment name the same one under the same key, and at most one captured it |
| Reservations.WrittenIsWhole | internal/httpapi/organizations.go:444-480 | What an order on a budget commits from the row it read is the whole transaction run on the tables as they are |
| Reservations.AloneIsWhole | internal/httpapi/organizations.go:444-480 | An order on a budget that nobody comes between is the whole transaction, granted or refused |
| Reservations.RacesAreRuns | internal/httpapi/organizations.go:444-480 | However orders on budgets and all other transactions interleave, the tables are those of the run of whole transactions in the order they finished |
| Reservations.NeverOverdrawn | internal/httpapi/organizations.go:444-480 | No race takes more out of a budget than is in it |
| DisputeTheorems.ResolveDecides | internal/httpapi/disputes.go:271-375 | Final state, all eight balances and live settlement after a resolution are a function of amounts, funding, outcome and rate |
| Outcomes.ResolutionPays | internal/httpapi/disputes.go:309-376 | A full refund gives the whole amount back, settles nothing and ends refunded; a partial one gives exactly that back and settles the rest at the rate; a release settles everything; both end completed |
| Requests.DecisionGrantedIff | internal/httpapi/disputes.go:299-345 | A decision goes through exactly on an open dispute of a disputed order not paid out, for a real part, and for a refund that splits |
| DisputeTheorems.ResolutionIgnoresHistory | internal/httpapi/disputes.go:267-375 | Two disputes over equal orders with the same decision end alike, opened before or after purchase confirmation |
| DisputeTheorems.ReleaseRestoresAcceptance | internal/httpapi/disputes.go:381-403 | Unwinding a confirmation and releasing everything to the seller is a round trip on every balance and on the settlement |
| DisputeTheorems.ResolveSucceedsIff | internal/httpapi/disputes.go:299-345 | A decidable dispute resolves exactly when its settlement is not paid out and its refund splits |
| DisputeTheorems.OpeningFreezes | internal/httpapi/disputes.go:128-137 | Opening a dispute leaves no settlement that could be paid out as it stands |
| DisputeTheorems.FreezeCanBeLifted | internal/httpapi/finance.go:76-120 | A held settlement of an order whose dispute could be decided can be released and paid out, after which the same decision is refused because the settlement is completed |
| Freezes.StepMovesRow | internal/httpapi/finance.go:76-120 | While an order stays disputed no transaction but the operator's actions on its settlement and the background decision over it moves the row |
| Freezes.RowFollowsActions | internal/httpapi/finance.go:76-120 | Over every run in which the order stays disputed its settlement is exactly what those actions and decisions make of it |
| Freezes.FrozenThroughoutIff | internal/httpapi/disputes.go:128-137 | A frozen settlement of an order that stays disputed is frozen at every moment if and only if no operator releases it |
| Freezes.FreezeProtectsIff | internal/httpapi/finance.go:76-120 | Whatever else runs, a frozen settlement is not paid out while its order is disputed if and only if release and completion are not both permitted |
| Lifecycle.PaidOutInDispute | internal/httpapi/finance.go:76-120 | An eight-step run in which the seller is paid out while the dispute is open |
| DisputeTheorems.GeneralRefundKeepsSettlement | internal/httpapi/orders.go:466-491 | The general change from disputed to refunded leaves a live settlement exactly when there was one, and then returns nothing |
| DisputeRuns.RunDisputes | internal/httpapi/disputes.go:116-137 | In every reachable state an order has at most one open dispute, and an order with one is disputed or was refunded around it |
| DisputeRuns.TransitionKeepsWaiting | internal/httpapi/orders.go:466-491 | The general state change moves an order with an open dispute to refunded or not at all |
| Permissions.StrangersChangeNothing | internal/httpapi/orders.go:407-419 | Whoever is neither party nor operator is refused and changes nothing, by any request about the order |
| Requests.TransitionGrantedIff | internal/httpapi/orders.go:17-29 | The general change goes through exactly along the graph, read backwards, for an operator, the party the target belongs to, or the buyer of an overdue order, never completes a dispute, and needs a refund that splits to end an order |
| Requests.TransitionArrives | internal/httpapi/orders.go:421-497 | The state asked for is there afterwards, and on that order alone |
| Requests.TransitionRefusals | internal/httpapi/orders.go:446-470 | Every refusal names its first reason |
| Requests.PaymentGrantedIff | internal/httpapi/orders.go:280-351 | A payment goes through exactly for buyer or operator with a used key or on an unpaid order: in no reachable state do its amounts refuse it |
| Requests.PaymentLeaves | internal/httpapi/orders.go:309-351 | A payment under a new key leaves the order ready, one payment row of amount less discount, and the whole amount in escrow from buyer and promotion |
| Requests.RequirementGrantedIff | internal/httpapi/mcp.go:403-450 | Requirements are the buyer's before work starts, and promote exactly a waiting order |
| Requests.DeliveryGrantedIff | internal/httpapi/orders.go:563-615 | Delivering is the seller's or an operator's during work or rework |
| Requests.RevisionGrantedIff | internal/httpapi/orders.go:617-693 | A revision is the buyer's or an operator's on a delivery within the limit |
| Requests.AcceptGrantedIff | internal/httpapi/orders.go:695-730 | Confirming is the buyer's or an operator's on a delivery, and no reachable state refuses it; the acceptance window never fails |
| Requests.AcceptSettles | internal/httpapi/maintenance.go:176-200 | By request, by the general change or by the window, it is one and the same confirmation |
| Requests.ExpiryGrantedIff | internal/httpapi/maintenance.go:94-121 | Expiry cancels exactly the order that is as unpaid as it was seen, frees its redemption, and cannot be refused |
| Requests.ReviewGrantedIff | internal/httpapi/collaboration.go:163-224 | A review is the buyer's, once, on a confirmed or completed order, and completes it |
| Requests.DisputeGrantedIff | internal/httpapi/disputes.go:80-127 | A dispute is either party's, an operator's or a risk officer's, from four states, one at a time |
| Requests.DisputeFreezes | internal/httpapi/disputes.go:128-152 | It leaves order disputed, dispute open, and what was to be paid out held |
| Requests.OrderGrantedIff | internal/httpapi/orders.go:83-193 | An order is placed exactly between two people, under a new id, at a price that fits, with a coupon that applies and a budget with room for the rest |
| Requests.OrderLeaves | internal/httpapi/orders.go:149-193 | It owes the price less the saving, holds that much of the budget, and records the redemption |
| Requests.BudgetGrantedIff | internal/httpapi/organizations.go:388-434 | A budget is opened once, with a positive amount, unused |
| Progress.CanEndIff | internal/httpapi/orders.go:17-29 | In every reachable state some continuation ends the order if and only if it is not disputed without an open dispute and with an escrow that does not split |
| Progress.StuckOnlyByHand | internal/httpapi/orders.go:407-419 | No run gets an order there without an operator's general change of it into dispute |
| Progress.StuckRun | internal/httpapi/orders.go:407-497 | A run of four transactions that does |
| Permissions.WhoConfirms | internal/httpapi/orders.go:695-730 | A purchase is confirmed only from delivered, by its buyer, an operator, or the acceptance window |
| Permissions.BuyerCancelsIff | internal/httpapi/orders.go:446-465 | A buyer cancels alone exactly when a cancellation is pending, the grace period is over and escrow splits |
| Lifecycle.HandPaidHoldsNothing | internal/httpapi/orders.go:407-410 | A three-step run to a paid order that promises 1000 in escrow and holds none |
| Lifecycle.RefundedYetPayable | internal/httpapi/orders.go:466-491 | A seven-step run to a refunded order whose buyer got nothing and whose settlement is live |
| Budgets.ClampInert | internal/httpapi/organizations.go:484-502 | A budget always holds at least what each of its orders holds, so the clamp in a release never fires |
| Budgets.BudgetAccounting | internal/httpapi/organizations.go:444-502 | In every reachable state a budget has consumed exactly the sum over its orders, within its limit, and cancelled and refunded orders hold nothing |
| Budgets.RefundReleasesShareIff | internal/httpapi/organizations.go:482-502 | A refund releases exactly the buyer's share, capped by what is held, if and only if that share is positive or nothing was held; otherwise it releases everything |
| Lifecycle.TinyRefundRun | internal/httpapi/organizations.go:482-502 | A six-step run in which a dispute gives back 1 of 1000, records no refund, and frees a reservation of 500 of an order that is completed |
| Budgets.EndingFrees | internal/httpapi/orders.go:539-543 | Cancelling or refunding an order gives its budget exactly what the order still held, any other move nothing |
| Budgets.CreateBudgeted | internal/httpapi/organizations.go:444-480 | A reservation keeps the accounting, wrapping comparison included |
| Redemptions.ExpireOutcome | internal/httpapi/maintenance.go:94-121 | Expiry cancels an order that is still as the scan saw it and removes that order's redemption, and otherwise changes nothing |
| Redemptions.OtherRedemptions | internal/httpapi/orders.go:191-193 | No other transaction touches the redemption table |
| Redemptions.RunRedeemed | internal/httpapi/coupons.go:97-141 | In every reachable state a redemption belongs to an existing order, its buyer and its discount, and a discounted order without one is cancelled |
| Store.Tables.Balanced | internal/httpapi/disputes.go:52-66 | The two running 64-bit sums accept exactly the transactions of the guard |
| Store.Tables.InsertLines | internal/httpapi/disputes.go:67-75 | Appends the non-zero lines, in order |
| Store.Tables.WriteLedger | internal/httpapi/disputes.go:51-76 | Appends a balanced transaction or changes nothing |
| Store.Tables.EscrowBalance | internal/httpapi/disputes.go:445-452 | The summing query returns the ledger's escrow balance, at least zero |
| Store.Tables.ReserveBudget | internal/httpapi/organizations.go:444-480 | Holds the payable amount or refuses, as specified |
| Store.Tables.ReleaseBudget | internal/httpapi/organizations.go:484-502 | Releases in both tables as specified |
| Store.Tables.BookRefund | internal/httpapi/disputes.go:409-440 | Split, refund row, posting and release make the specified state |
| Store.Tables.ApplyOrderTransition | internal/httpapi/orders.go:519-561 | Return of escrow, release of budget and state update make the specified state |
| Store.Tables.AcceptAndSettle | internal/httpapi/orders.go:502-517 | State, settlement row and posting make the specified state |
| Store.Tables.CreateOrder | internal/httpapi/orders.go:149-193 | Commits order, reservation and redemption together or refuses and changes nothing |
| Store.Tables.OpenBudget | internal/httpapi/organizations.go:388-434 | Commits a new budget with nothing consumed or refuses |
| Store.Tables.PayOrder | internal/httpapi/orders.go:280-362 | Commits the specified payment, replays, or rolls everything back, and on success names a payment of this order under this key |
| Store.Tables.TransitionOrder | internal/httpapi/orders.go:421-497 | Commits the specified change or refuses with the specified error and changes nothing |
| Store.Tables.SubmitRequirement | internal/httpapi/mcp.go:403-450 | Promotes only an order waiting for its requirements |
| Store.Tables.CreateDelivery | internal/httpapi/orders.go:563-615 | Commits the delivery or refuses and changes nothing |
| Store.Tables.CreateRevision | internal/httpapi/orders.go:617-693 | Commits the revision request or refuses and changes nothing |
| Store.Tables.AcceptOrder | internal/httpapi/orders.go:695-730 | Commits the confirmation or rolls back |
| Store.Tables.AutoAccept | internal/httpapi/maintenance.go:176-200 | The same confirmation, skipped when the order moved on |
| Store.Tables.ExpireOrder | internal/httpapi/maintenance.go:94-121 | Commits the expiry, skipped when the order moved on |
| Store.Tables.CreateReview | internal/httpapi/collaboration.go:163-224 | Commits the review and completion or refuses and changes nothing |
| Store.Tables.OpenDispute | internal/httpapi/disputes.go:80-152 | Commits dispute, freeze and state together or refuses |
| Store.Tables.UnwindSettlement | internal/httpapi/disputes.go:381-403 | Voids and reverses a live settlement, leaves a voided one, refuses a paid-out one |
| Store.Tables.ResolveDispute | internal/httpapi/disputes.go:271-375 | Commits the whole resolution or rolls every part of it back |
| Store.Tables.SettlementAction | internal/httpapi/finance.go:60-149 | Commits the guarded update, with its payout posting, or changes nothing |
| Store.Tables.ApplySettlementDecision | internal/worker/settlement.go:57-84 | Decides a settlement that is still scheduled and leaves any other |
| Store.Tables.ExpireUnpaidOrders | internal/httpapi/maintenance.go:54-92 | The scan's effect is the run of one expiry per selected order, refusals skipped, and it counts those that went through |
| Store.Tables.AutoAcceptDeliveries | internal/httpapi/maintenance.go:123-174 | The scan's effect is the run of one confirmation per selected order, and it counts those that went through |
| Store.Tables.ProcessDueSettlements | internal/worker/settlement.go:15-55 | The scan's effect is the run of one decision per due settlement that is to be decided, and it counts those |
| Store.ResumeIsRun | internal/httpapi/maintenance.go:35-45 | What a scan does continues the platform's run, so everything proved of runs holds after it |
| Platform.HandlerExtendsRun | internal/httpapi/orders.go:280-561 | Whatever a handler leaves in the tables is the state of the run with its transaction appended, with money, budgets, redemptions and disputes in agreement |
| Platform.ScanExtendsRun | internal/httpapi/maintenance.go:35-45 | The same for a scan and the transactions it goes through |
| Platform.ScanDecides | internal/worker/settlement.go:15-55 | After the scan exactly the flagged scheduled settlements are held and, if the deployment confirms on its own, exactly the other scheduled ones are confirmed |
| Platform.ScanExpires | internal/httpapi/maintenance.go:54-92 | Every selected order still unpaid as selected is cancelled and no other order changed |
| Platform.ScanAccepts | internal/httpapi/maintenance.go:123-174 | Every selected order still delivered is confirmed and no other order changed |
| Admission.SellerStep | internal/httpapi/orders.go:741-758 | Every step of every interleaving keeps: one holder per profile row, and what it read and counted still stands |
| Admission.CapacityRespected | internal/httpapi/orders.go:132-143 | The only step that adds a live order is a commit, and it leaves the seller within the capacity in force |
| Admission.LiveOrdersBounded | internal/httpapi/rfq.go:391-399 | Over a whole run, with capacities set within a limit, live orders stay within it |
| Admission.UnreadEstablishes | internal/httpapi/talents.go:486-488 | The base case: the first profile of a seller nobody has read yet establishes the invariant |
| Admission.CapacityHoldsFromStart | internal/httpapi/orders.go:741-758 | From empty tables: if every order that reads the seller finds a profile and capacities are set within a limit, live orders never pass it, however orders interleave |
| Occupancy.CountLiveIff | internal/httpapi/orders.go:750-758 | However orders interleave, the count lets an order on exactly if no capacity is set or fewer orders are live |
| Occupancy.LiveAtMostIff | internal/httpapi/orders.go:741-758 | Over all runs from empty tables with capacities set within a limit, live orders stay within n if and only if n is at least the limit |
| Occupancy.PlacedIff | internal/httpapi/orders.go:132-193 | An order that waits for nobody is placed exactly if seller and coupon have room, and then its order and redemption are all that changes |
| Occupancy.RoomComesBack | internal/httpapi/maintenance.go:94-121 | Finishing and expiring take exactly that order off the live ones, expiring exactly its redemption off the coupon, and an abandoned transaction leaves nothing |
| Admission.NoProfileNoLimit | internal/httpapi/orders.go:741-748 | A transaction that found no profile row takes no turn, and the capacity of a profile created meanwhile is exceeded |
| Admission.FinishedStaysFinished | internal/httpapi/orders.go:752-757 | A finished order never counts as live again |
| Admission.CouponStep | internal/httpapi/coupons.go:97-141 | Every step keeps: one holder per coupon row, and the limits and counts it passed still stand |
| Admission.CouponLimitsRespected | internal/httpapi/coupons.go:124-134 | The only step that adds a redemption is its buyer's commit, and it leaves the total and that buyer's uses within the limits in force |
| Admission.CouponUsesBounded | internal/httpapi/coupons.go:124-134 | Over a whole run, with limits set within bounds, total and per-user redemptions stay within them |
| Admission.CouponHoldsFromStart | internal/httpapi/coupons.go:124-134 | The same from empty tables: with limits only ever set within bounds, redemptions stay within them |
| Occupancy.CountUsesIff | internal/httpapi/coupons.go:124-134 | However orders interleave, the count lets a coupon be used exactly if total and share are not used up |
| Occupancy.UsesAtMostIff | internal/httpapi/coupons.go:124-134 | Over all runs from empty tables uses stay within n if and only if n is at least the total, and one user's if and only if n is at least the smaller of total and share |
| Admission.RedemptionsFollowOrders | internal/httpapi/maintenance.go:94-121 | A commit records exactly its own order's redemption, expiry removes exactly the expired order's |
| Admission.NoDeadlock | internal/httpapi/orders.go:132-153 | Profiles are locked before coupons, so some transaction in flight can always take its next step |
| Outbox.QueuedExactly | internal/worker/worker.go:655-696 | A fan-out keeps old rows and adds every eligible recipient without one, once |
| Outbox.QueueNotifications | internal/worker/worker.go:655-696 | The loop inserts exactly those rows and reports exactly the new ones |
| Outbox.Deduplicated | internal/worker/worker.go:372-428 | Under any interleaving there is at most one notification per user and one delivery per webhook, none to the actor, and a done event had a fan-out commit |
| Outbox.DeliveredForGood | internal/worker/worker.go:446-481 | Everyone a committed fan-out was for has their notification in every later state |
| Outbox.DoneForGoodIff | internal/worker/worker.go:414-428 | A done event stays done over every continuation if and only if every job still holding it has committed its fan-out |
| Outbox.DoneCanBeUndone | internal/worker/worker.go:414-428 | A run in which that happens |
| Outbox.ClaimsBounded | internal/worker/worker.go:334-428 | Between operator retries an event is claimed at most retry limit plus reclaims plus the claims that can still fail at the retry |
| Outbox.ClaimsReached | internal/worker/worker.go:372-428 | The bound is met: without a reclaim or another retry, some continuation claims the event limit plus that many times |
| Outbox.LimitHoldsIff | internal/httpapi/events.go:98-110 | After a retry every continuation without a reclaim stays within the limit if and only if no earlier claim can still fail |
| Outbox.ClaimsBoundedFromNew | internal/worker/worker.go:372-428 | A fresh event is claimed at most retry limit plus reclaims times |
| Outbox.StaleClaimCostsATry | internal/httpapi/events.go:98-110 | The term for open claims is needed: a run that claims a third time with a limit of two |
| Outbox.RetryRevives | internal/httpapi/events.go:98-110 | A retry makes any event that is not done pending with no attempts, claimable, and leaves inbox, deliveries, workers and actor alone |
| Outbox.RetriedIsTried | internal/httpapi/events.go:98-110 | It is then claimed, in some continuation nobody intervenes in, the limit plus overtaken claims times |
| Outbox.RetriedIsDelivered | internal/httpapi/events.go:98-110 | Retried and handled once it is done, and everyone the fan-out finds who wants to know has been told |
| Outbox.CanBeDoneIff | internal/worker/worker.go:334-428 | Workers alone can still get an event done if and only if it was not given up with no worker left who could complete it or put it back |
| Outbox.BackoffIsCappedExponential | internal/worker/worker.go:430-442 | The shifted wait is min(max, base times 2 to the clamped attempt) whenever base times 2 to the 19 fits |
| Outbox.BackoffGrows | internal/worker/worker.go:430-442 | Later attempts never wait less |
| Outbox.QueuesBackOff | internal/worker/mail.go:210-211 | The three base and ceiling pairs in use are within the bound |
| Outbox.HugeBaseWraps | internal/worker/worker.go:430-442 | Past the bound the shift can wrap into a small wait |
| Outbox.DispatchedIsRun | internal/worker/worker.go:372-412 | A worker's pass over an event is a run of that event's steps |
| Outbox.EmittedIsDelivered | internal/httpapi/events.go:17-23 | An event as it is emitted, handled once without failure, is done after one attempt with exactly the eligible recipients and the hooks served |
| Outbox.Queue.ClaimBatch | internal/worker/worker.go:373-375 | Claims the whole batch in one statement and no other event |
| Outbox.Queue.HandleEvent | internal/worker/worker.go:446-481 | The fan-out transaction is the commit step, reported as done or as failed |
| Outbox.Queue.FailEvent | internal/worker/worker.go:414-428 | Retry or give up by the attempt this worker claimed, whatever the row says now |
| Outbox.Queue.DispatchEvents | internal/worker/worker.go:372-412 | A pass claims its batch, works through it in order up to where it is stopped, and touches nothing else |
| Outbox.Queue.ReclaimStuck | internal/worker/worker.go:334-338 | Takes back exactly the old events still in processing |
| Outbox.Queue.RetryDomainEvent | internal/httpapi/events.go:98-110 | Resets any event that is not done to pending with no attempts, and reports whether it did |
| Cursor.CursorRoundTrip | internal/httpapi/paging.go:22-48 | Decoding an encoded cursor gives back every storable key |
| Cursor.BlanksDoNotMatter | internal/httpapi/paging.go:26-30 | A blank before or behind a cursor changes nothing it reads as |
| Cursor.BytesRoundTrip | internal/httpapi/paging.go:22-34 | Unpadded base64 of section 5 of RFC 4648 round-trips every byte string |
| Cursor.AlphabetIsUrlSafe | internal/httpapi/paging.go:22-24 | The characters are those of section 5 of RFC 4648, in order |
| Cursor.SextetsKeepBits | internal/httpapi/paging.go:22-24 | Three bytes are four sextets of the same bits in order, and a shorter end is filled with zero bits |
| Cursor.CursorsDiffer | internal/httpapi/paging.go:22-24 | Different keys have different cursors |
| Paging.FetchServes | internal/httpapi/paging.go:63-71 | A page holds the newest admitted rows, skips none above its last, and its cursor reads back as that row |
| Paging.PageIsNewestFirst | internal/httpapi/paging.go:63-71 | Rows come by time and then identifier, both falling; the page is full unless the list ends and has a cursor exactly if there is more |
| Paging.WalkNeverRepeats | internal/httpapi/orders.go:221-278 | However rows arrive, enter and leave the filtered list between requests, no row is returned twice, every row returned was listed, and the whole read is in order |
| Paging.WalkMissesNothing | internal/httpapi/orders.go:221-278 | Every row listed all the while, and admitted by the starting cursor, has been returned when the cursor becomes null |
| Paging.PagesConcatenate | internal/httpapi/orders.go:221-278 | With a list that does not change the pages concatenate to the sorted list |
| Paging.ReadingEnds | internal/httpapi/paging.go:63-71 | With a list that does not change the cursor does become null |
| Paging.BrokenCursorStartsOver | internal/httpapi/paging.go:50-59 | An unreadable cursor serves the first page |
| RateLimit.Limiter.Allow | internal/httpapi/ratelimit.go:27-59 | Decision and new table, sweep included |
| RateLimit.Limiter.Sweep | internal/httpapi/ratelimit.go:40-47 | Deletes exactly the entries whose window is over |
| RateLimit.SweepIsInvisible | internal/httpapi/ratelimit.go:40-47 | With one window length and a clock that does not go back, sweeping changes no decision |
| RateLimit.LessThanTwiceTheLimit | internal/httpapi/ratelimit.go:27-59 | For a key with a constant limit every half-open interval one window long sees at most 2*limit-1 allowed calls, whatever else is called |
| RateLimit.NotRefusedEarly | internal/httpapi/ratelimit.go:27-59 | No call is refused whose key had fewer than its limit of calls allowed in the last window length |
| RateLimit.BoundIsReached | internal/httpapi/ratelimit.go:27-59 | The bound is tight |
| Snippets.AddNonce | internal/analytics/analytics.go:200-223 | The loop on bytes computes the specified outcome for every snippet, panic included |
| Snippets.CutsRightIff | internal/analytics/analytics.go:205-221 | The loop cuts behind the openings and nowhere else if and only if the lower-cased text has its openings where the text has them |
| Snippets.AlignedIsRight | internal/analytics/analytics.go:205-221 | And then it computes the specified text |
| Snippets.AlignedIffBalanced | internal/analytics/analytics.go:205-221 | Without a dotted capital I the offsets are right if and only if the text in front of the first opening, and between each and the next, is as long in lower case |
| SnippetTheorems.RightOverIff | internal/analytics/analytics.go:200-223 | Over an alphabet in which a script tag can be written, every snippet and nonce is filtered right if and only if no character changes its length in lower case |
| SnippetTheorems.MissesOpening | internal/analytics/analytics.go:205-221 | At "Ⱥ<script>x</script>" the attribute is written behind the tag and the script carries none |
| SnippetTheorems.RunsBeyond | internal/analytics/analytics.go:205-221 | At "Ⱥ<script" the slice is out of range |
| SnippetTheorems.SplitsOpening | internal/analytics/analytics.go:205-221 | At "İ<script>" the attribute is written into the tag's name |
| SnippetTheorems.ErasingGivesBack | internal/analytics/analytics.go:200-223 | For every snippet that does not panic the result is the input's own pieces with attributes between some of them; leaving those out gives back the input |
| SnippetTheorems.EveryScriptCarriesNonce | internal/analytics/analytics.go:198-223 | Where the offsets are right every script opening of the result carries `nonce=` before its first closing bracket |
| Nonce.AttributeValue | internal/analytics/analytics.go:219 | The attribute's value cannot leave its quotes, and is the nonce itself when that needs no escaping |
| SnippetTheorems.SecondTimeIsIdentity | internal/analytics/analytics.go:198-223 | Where the offsets are right and the nonce is ASCII, as it is drawn, a second application changes nothing |
| SnippetTheorems.UnchangedIffCovered | internal/analytics/analytics.go:198-223 | Where the offsets are right a snippet is left alone if and only if all its scripts already carry one |
| Quotes.RunKeeps | internal/httpapi/rfq.go:344-504 | Every interleaving keeps the locks, the award and the order correspondence consistent |
| Quotes.AwardDecides | internal/httpapi/rfq.go:383-491 | Awarded exactly when some quote is accepted; accepted quotes and orders correspond one to one; of the quotes in time exactly one is accepted and the rest rejected |
| Quotes.FinalIffNobodyLate | internal/httpapi/rfq.go:466-475 | After the award there is one accepted quote and every other is rejected if and only if nobody was late, and then its order is the only one |
| Quotes.AwardGoesThrough | internal/httpapi/rfq.go:344-491 | With nothing else going on any submitted quote of an open request is accepted, every other submitted one turned down, and its order added |
| Quotes.FirstQuote | internal/httpapi/rfq.go:141-179 | A seller who sees the request open and has no quote on it writes one |
| Quotes.SecondQuote | internal/httpapi/rfq.go:141-179 | One who has a submitted quote that is not held changes its amount |
| Quotes.LateQuoteStaysSubmitted | internal/httpapi/rfq.go:141-179 | A run in which a quote is still submitted after the award |
| Quotes.LateQuoteCanBeAccepted | internal/httpapi/rfq.go:370-475 | A run that ends with two accepted quotes and two orders |
| Mail.Recipients | internal/worker/mail.go:55-70 | The audience without the nil id, the actor and repetitions |
| Mail.GroupByRecipient | internal/worker/mail.go:133-148 | The map-and-order loop builds one message per address, in order of first appearance |
| Mail.SamePersonIff | internal/worker/mail.go:133-148 | Two addresses without blanks around them share a message exactly if they are the same up to case |
| Mail.OneMessagePerPerson | internal/worker/mail.go:133-174 | Each message has one case-folded recipient, no two share one, and every row is in its recipient's |
| Mail.MessagesPartition | internal/worker/mail.go:133-174 | The messages partition the claimed rows |
| Mail.Outgoing.ClaimDue | internal/worker/mail.go:119-132 | Claims exactly the due rows and counts the attempt |
| Mail.Outgoing.SendMail | internal/worker/mail.go:180-187 | The outcome of one message reaches exactly its rows |
| Mail.Outgoing.RecordMail | internal/worker/mail.go:191-215 | Each row is sent, retried or failed by its own attempts, and no other row changes |
| Mail.Outgoing.DeliverMail | internal/worker/mail.go:114-178 | After a pass every taken row has the outcome of its recipient's message and no other row changed |
| Mail.PassOutcome | internal/worker/mail.go:114-215 | A pass takes exactly the due rows that wait or whose next try has come, and each is sent, failed or tried again as relay, configuration and attempts say |
| Mail.GivenUpAtOnce | internal/worker/mail.go:154-160 | What is queued while mail is off, and an attempt that cannot be made, fails at once and loses its body |
| Mail.AtMostFourAttempts | internal/worker/mail.go:191-215 | A row whose every attempt is recorded is attempted until the first success or the fourth attempt and keeps its body exactly as long as it may be sent again |
| Mail.AttemptsBounded | internal/worker/worker.go:342-344 | With any number of workers, crashes and reclaims the relay takes a message at most once plus once per reclaim, and a row is attempted at most four times plus once per reclaim |
| Mail.TakenAtMostIff | internal/worker/worker.go:342-344 | Over all lives with at most k reclaims the relay takes a message at most n times if and only if n is at least k + 1 |
| Mail.AttemptedAtMostIff | internal/worker/worker.go:342-344 | And a row is attempted at most n times if and only if n is at least k + 4 |
| Mail.TakenAgain | internal/worker/worker.go:342-344 | For every k a life with k reclaims in which the relay took the message k times and the row waits for its next attempt |
| Mail.TriedAgain | internal/worker/worker.go:342-344 | For every k a life with k reclaims and k + 3 attempts whose row waits for its next |
| Mail.UndisturbedLife | internal/worker/mail.go:119-215 | Without a reclaim one worker at a time holds a row, the relay takes it at most once, a sent row was taken, and the body goes exactly when the row is final |
| Mail.SlowFailureRetriesWithoutBody | internal/worker/mail.go:191-215 | A run in which a sent row is put back to retry by a slower worker, its body already gone |

## Left out

- Pricing.FeeWithinAmount: the fee is the floor of a real product; the source multiplies in floating point, whose rounding is not modelled.
- EscrowRuns.StepKeeps: each transaction is one step. Most lock their order row first; settlementAction, applySettlementDecision and mcpSubmitRequirement decide by one guarded update of one row instead. The revision count, the overdue date, the time at which scans run and the fee setting are inputs of the step.
- Reservations.RacesAreRuns: which budget is the organization's active one is an input, and the seller and coupon steps of the same transaction are those of `Admission`.
- Payments.RacesAreRuns: the statements are interleaved for payments; the writes of one transaction, which nobody sees before it commits, are one step.
- Store.Tables.CreateOrder: seller capacity and coupon usage limits are not part of this transaction but of `Admission`; membership, requirement forms and feature switches can only refuse and are left out.
- Store.Tables.CreateRevision: the revision count and the limit it is compared with are one boolean input.
- Store.Tables.ExpireUnpaidOrders: what the scan's query selects is an input; stopping half-way is the same scan with a shorter list.
- Store.Tables.ResolveDispute: settlements are filed under their order, which the table declares unique; transaction ids, timelines, audit rows and emitted events are left out.
- Admission.CapacityRespected: starts from the invariant, which `Admission.CapacityHoldsFromStart` establishes from empty tables.
- Admission.LiveOrdersBounded: starts from the invariant, which `Admission.CapacityHoldsFromStart` establishes from empty tables.
- Admission.NoProfileNoLimit: its seller has no profile, which creating a listing rules out; it shows why the other results need the profile.
- Admission.FinishedStaysFinished: finishing is a flag here; the transition table behind it is `EscrowTheorems.FinalForever`.
- Admission.NoDeadlock: only the profile and coupon locks are modelled. The budget row, locked last by both paths, is not (`Reservations` interleaves it by itself), nor are the quote rows: an acceptance locks its quote before the profile (`internal/httpapi/rfq.go:370`) and updates the request's other quotes after the coupon (`internal/httpapi/rfq.go:470`), and two acceptances of one request do wait for each other there.
- Outbox.Deduplicated: the hourly deletion of old done events is left out; recipients, preferences, templates and webhooks may differ at every fan-out and are inputs.
- Outbox.ClaimsBounded: the retry limit is constant over the run; which events count as old enough to reclaim is an input.
- Cursor.CursorRoundTrip: identifiers are parsed in their 36-character form only; the other spellings the library accepts are taken as unreadable.
- RateLimit.LessThanTwiceTheLimit: one window length, which is what every caller passes.
- Snippets.AddNonce: letters of more than one byte whose lower-case form is as long stand for themselves, since only ASCII text is looked for; the table of the others is that of Unicode 14.
- SnippetTheorems.SecondTimeIsIdentity: nonces are ASCII, as the server draws them.
- Quotes.AwardDecides: permission, capacity, coupon and budget checks of an acceptance can only abort it and are left out, as are the events it emits.
- Mail.SamePersonIff: other letters than ASCII are compared as they are.
- Outcomes.FeeIffPercent: as for `Pricing.FeeWithinAmount`, rounding in floating point is not modelled.
- Mail.GroupByRecipient: addresses are folded and trimmed for ASCII letters and blanks only.
- Mail.Outgoing.DeliverMail: sending order and concurrency, templates, preferences and the address lookup are left out; which rows are due and which messages the relay takes are inputs.
- Mail.AttemptsBounded: when a row counts as stuck is an input, and so is when a worker crashes.
- HTTP handling, JSON, messages, audit logs, timelines and permission lookups; a principal is an id with two flags.
- SQL: tables are maps and sequences, unique keys are map keys, and the migrations' uniqueness constraints are assumed.
- Cryptography, sign-in, SMTP, webhook posting, the AI gateway, search ranking, trust and risk scores, dashboards, the talent approval workflow, feature flags and the user interface.
