# Café management system — Dafny model

A model of the in-memory state of `CafeManagementSystem` (cafe.cpp) and the
two operations that change it:

- the **menu** (`std::map<string, MenuItem>`), seeded with Coffee, Tea,
  Sandwich and Cake, whose stock levels are the only thing that ever changes;
- **`takeOrder`**: a loop over (item name, quantity) requests that ends at
  the sentinel `"done"`. An unknown name or a quantity above stock is refused
  and changes nothing. An accepted request deducts stock, adds
  `quantity × price` to the bill and adds the quantity to that item's line.
  When the loop ends, a positive bill records one `Order` and is added to
  `totalSales`;
- **`leaveReview`**: the rating prompt repeats until a rating in 1..5 is
  typed, and then exactly one review is appended.

Prices are integer cents (Coffee 300, Tea 250, Sandwich 500, Cake 400). The
source's `double` prices are all multiples of 0.5, so cents are exact.
Operator input is a parameter: a sequence of `Request(item, quantity)` for
an order and a sequence of typed ratings for a review. When that input never
contains the sentinel, or never contains an in-range rating, the source
would keep prompting; the model returns `None` in that case.

Modules: `Catalog` (menu items, seed menu, stock deduction),
`OrderTransaction` (the per-request `Step`, the loop `Run`, and the loop
invariant `Conserves`), `Ledger` (orders, `totalSales`, finalisation),
`Feedback` (reviews and the rating gate), `CafeSystem` (the whole state,
the two operations and the system invariant `Valid`), and `Scenarios`
(concrete runs). `MapSum` (sum of a map's values) and `Options` are
supporting modules.

Behaviour worth knowing:

- Quantities are arbitrary integers. The guard at cafe.cpp:103 checks only `quantity > stock`.
  So a zero quantity is accepted and creates a 0 line item. A negative
  quantity is accepted too: it raises stock and lowers the bill. If that
  leaves the bill at or below zero, no order is recorded, and the stock
  change still stands.
- An out-of-range rating is not rejected with an error. The prompt asks again
  until an in-range rating arrives.
- The end of input does not end an order. Only the literal `"done"` does.
- The menu and each order's line items are `std::map`s, ordered by key rather
  than by insertion. Order matters only to the display code, which is not
  modelled, so Dafny maps are used.

## Model

| member | source | states |
|---|---|---|
| Catalog.Seed | cafe.cpp:48-52 | the opening menu has exactly Coffee, Tea, Sandwich and Cake, each filed under its own name, with non-negative price and stock |
| Catalog.Deduct | cafe.cpp:112 | deducting changes only the named item's stock, by exactly the quantity; names, prices and all other items are untouched |
| Catalog.DeductKeepsStockNonNegative | cafe.cpp:103-112 | a deduction of any integer quantity not above current stock leaves every stock level non-negative |
| CafeSystem.Init | cafe.cpp:44-53 | the constructed café satisfies the system invariant, has the four seed items, no orders, no reviews and zero total sales |
| OrderTransaction.Fresh | cafe.cpp:76-77 | an order starts with a zero bill and no line items at all, so every item's quantity reads 0 |
| OrderTransaction.FreshConserves | cafe.cpp:76-77 | the loop invariant holds before the first request |
| OrderTransaction.Step | cafe.cpp:86-113 | "done" ends the loop whatever the menu holds; an unknown name is refused and changes nothing; a quantity above stock is refused, reports the available stock and changes nothing; otherwise the request is accepted with exactly three effects (stock down by the quantity, bill up by quantity × price, the item's line up by the quantity) and nothing else changes |
| OrderTransaction.Run | cafe.cpp:79-116 | the loop ends iff some request is "done"; it then stops at the first one, and no earlier request is "done" |
| OrderTransaction.AcceptedAddsLineValue | cafe.cpp:110-113 | an accepted request raises the priced sum of the line items by exactly its line total |
| OrderTransaction.PricedAfterAccept | cafe.cpp:110-113 | after an accepted request the priced line items differ only at the requested item, whose value is its accumulated quantity times the price |
| OrderTransaction.StepConserves | cafe.cpp:103-113 | every step keeps prices fixed, keeps line items within the menu, keeps stock taken equal to the accumulated quantity, and keeps the bill equal to the priced sum of the line items |
| OrderTransaction.RunConserves | cafe.cpp:79-116 | the same invariant holds at the end of the loop, for any request sequence |
| OrderTransaction.StepKeepsStockNonNegative | cafe.cpp:103-112 | no request, whatever its integer quantity, makes any stock negative |
| OrderTransaction.RunKeepsStockNonNegative | cafe.cpp:79-116 | stock stays non-negative throughout the loop |
| OrderTransaction.RepeatedItemAccumulates | cafe.cpp:110-113 | two accepted requests for one item add up in its line, its stock and the bill, rather than overwriting |
| OrderTransaction.ZeroQuantityAddsEmptyLine | cafe.cpp:103-113 | a zero quantity is accepted, moves no stock or money, and leaves a line for the item |
| OrderTransaction.NegativeQuantityRestocks | cafe.cpp:103-112 | a negative quantity is accepted, raises the item's stock, and lowers the bill when the price is positive |
| Ledger.Empty | cafe.cpp:46 | a new ledger has no orders and is balanced |
| Ledger.SumTotalsAppend | cafe.cpp:121-122 | appending an order adds its total to the sum of order totals |
| Ledger.Finalize | cafe.cpp:118-127 | a positive bill appends exactly one order, carrying the customer, the line items and the bill, and adds the bill to total sales; a bill of zero or less leaves the ledger unchanged |
| Ledger.FinalizeKeepsBalanced | cafe.cpp:118-123 | finalising keeps total sales equal to the sum of the order totals |
| Feedback.FirstValidRating | cafe.cpp:143-149 | the prompt settles on the first in-range rating typed; it never settles iff every rating typed is out of range |
| Feedback.Record | cafe.cpp:143-151 | a review is appended iff some typed rating is in range; exactly one is appended, with the given name and text and the first in-range rating; earlier reviews are kept; an all-in-range log stays all-in-range |
| CafeSystem.TakeOrder | cafe.cpp:69-128 | an order completes iff the sentinel is typed; it never touches reviews and changes the menu only in stock |
| CafeSystem.TakeOrderAccounts | cafe.cpp:76-116 | after a completed order, the stock taken from each item equals its accumulated quantity, line items name only menu items, and the bill is the priced sum of the line items |
| CafeSystem.TakeOrderRecords | cafe.cpp:118-127 | one order carrying the customer, line items and bill is recorded, and the bill added to total sales, iff the bill is positive; otherwise the ledger is unchanged while the stock changes from the loop stay |
| CafeSystem.LeaveReview | cafe.cpp:131-153 | a review is added iff some typed rating is in 1..5; exactly one review is added with that name and text, carrying the first in-range rating typed; menu, orders and total sales are untouched |
| Ledger.ClosingMessage | cafe.cpp:118-127 | the customer is thanked exactly when the bill is positive, and the thanks quotes that bill; otherwise the message is "No items ordered" |
| Ledger.ClosingMatchesLedger | cafe.cpp:118-127 | the customer is thanked exactly when finalising records an order, and the recorded total is the bill quoted |
| CafeSystem.TakeOrderKeepsValid | cafe.cpp:69-128 | taking an order preserves the system invariant: non-negative stock, total sales equal to the sum of order totals, every order positive and worth its line items at menu prices, every rating in range |
| CafeSystem.LeaveReviewKeepsValid | cafe.cpp:131-153 | leaving a review preserves the system invariant |
| CafeSystem.Perform | cafe.cpp:217-226 | choices 2 and 3: the action completes exactly when its input holds a "done" (order) or an in-range rating (review); a completed action keeps earlier orders and reviews as a prefix and changes the menu only in stock; an order leaves reviews alone and a review leaves menu and ledger alone |
| CafeSystem.Replay | cafe.cpp:202-226 | a sequence of orders and reviews completes exactly when every action in it completes (`None` otherwise), and then keeps history append-only and the menu fixed except for stock |
| CafeSystem.ReplayKeepsValid | cafe.cpp:69-153 | the system invariant survives any sequence of orders and reviews |
| CafeSystem.SalesMatchOrders | cafe.cpp:44-123 | starting from the constructor, total sales equal the sum of order totals after any sequence of orders and reviews |
| Scenarios.TenCoffees | cafe.cpp:103-122 | 10 Coffee: stock 50 becomes 40, total sales 3000 cents, one order {Coffee: 10} |
| Scenarios.SixtyCoffeesRefused | cafe.cpp:103-107 | 60 Coffee against stock 50 is refused, reports 50 available, and nothing is recorded |
| Scenarios.EspressoIsInvalid | cafe.cpp:89-94 | an unknown item is refused and the café is unchanged |
| Scenarios.LookupIsCaseSensitive | cafe.cpp:89-90 | "coffee" does not match "Coffee" |
| Scenarios.TwoThenThreeCoffees | cafe.cpp:110-122 | 2 then 3 Coffee record one line Coffee: 5 worth 1500 cents |
| Scenarios.SentinelBeforeLookup | cafe.cpp:86-89 | "done" ends the loop even when the menu has an item of that name |
| Scenarios.RequestsAfterSentinelIgnored | cafe.cpp:86-87 | requests after "done" are not read by this order |
| Scenarios.NegativeOrderNotRecordedButRestocks | cafe.cpp:103-127 | ordering -1 Coffee records no order and leaves Coffee stock at 51 |
| Scenarios.ZeroTeaLineAccepted | cafe.cpp:103-113 | a request for 0 Tea is accepted with a line total of 0 |
| Scenarios.ZeroLinesCloseWithNoItems | cafe.cpp:118-127 | an order of only 0 Tea ends with a zero bill and the closing "No items ordered" |
| Scenarios.ZeroLinesRecordNothing | cafe.cpp:118-127 | the same order completes and records nothing in the ledger |
| Catalog.WrapInt32 | cafe.cpp:15 | wrapping keeps the value in the 32-bit `int` range, congruent to the input, and unchanged when it already fits |
| Catalog.DeductInt32 | cafe.cpp:112 | the deduction as computed in 32-bit `int`: only the named stock changes, to the wrapped difference |
| Catalog.Int32DeductionGoesNegative | cafe.cpp:103-112 | with 32-bit arithmetic a quantity of -2147483648 passes the guard and leaves Coffee stock at -2147483598, while the unbounded deduction keeps stock non-negative |
| Scenarios.RatingBoundaries | cafe.cpp:144-151 | ratings 0 and 6 are asked again; 1 and 5 are accepted; the first in-range attempt is the one kept |

## Left out

- Console I/O: prompts, `getline`/`cin.ignore` buffer handling, and what happens after non-numeric input to `cin >>` (the stream fails and the loop spins). Operator input is a parameter instead.
- `displayMenu`, `viewTotalSales`, `viewOrders`, `viewReviews`: formatting only, with no state change.
- The `run` command loop and `main`: only choices 2 and 3 change state. `CafeSystem.Replay` applies any sequence of those two operations; the display choices, exit, and invalid choices are not modelled.
- `double` arithmetic: prices and bills are exact integer cents.
- C++ `int` overflow: quantity, stock and line quantities are unbounded integers in the operations. So `stock - quantity` with a huge negative quantity, and `orderItems[item] += quantity`, do not wrap. The stock overflow is exhibited separately under "## Findings".
- Printed messages: the per-request outcomes (`Outcome`) and the closing message (`Ledger.ClosingMessage`) are modelled as values; their wording and formatting are not.
- Key order of `std::map`: it affects only the display of the menu and of order lines, which is not modelled.

## Findings

| source | as written | input that shows it | evidently intended | confidence | as-written member | corrected member |
|---|---|---|---|---|---|---|
| cafe.cpp:103-112 | `stock -= quantity` on 32-bit `int` after only checking `quantity > stock` | quantity -2147483648 for Coffee (stock 50): the guard passes and the signed subtraction overflows (undefined behaviour; wraps to -2147483598 in practice) | stock never becomes negative | not executed | Catalog.Int32DeductionGoesNegative | Catalog.DeductKeepsStockNonNegative |
