/**
 The state of `CafeManagementSystem` and its two state-changing operations,
 `takeOrder` and `leaveReview`, as pure functions of that state and of the
 operator's input.
 */
module CafeSystem {

  import opened Options
  import opened Catalog
  import opened OrderTransaction
  import opened Ledger
  import opened Feedback

  datatype Cafe = Cafe(menu: Menu, ledger: Book, reviews: seq<Review>)

  /**
   What holds of every reachable café: stock is non-negative, the menu is
   filed by name with non-negative prices, total sales equal the sum of the
   order totals, every order has a positive total equal to its line items at
   menu prices, and every review is rated 1 to 5.
   */
  ghost predicate Valid(c: Cafe) {
    && StockNonNegative(c.menu)
    && WellKeyed(c.menu)
    && PricesNonNegative(c.menu)
    && Balanced(c.ledger)
    && (forall i :: 0 <= i < |c.ledger.orders| ==>
          var o := c.ledger.orders[i];
          && o.total > 0
          && o.items.Keys <= c.menu.Keys
          && o.total == OrderValue(o.items, c.menu))
    && AllRated(c.reviews)
  }

  /** The constructor: the seed menu, no orders, no reviews, zero sales. */
  function Init(): (c: Cafe)
    ensures Valid(c)
    ensures c.menu.Keys == {"Coffee", "Tea", "Sandwich", "Cake"}
    ensures c.ledger.orders == [] && c.ledger.totalSales == 0 && c.reviews == []
  {
    Cafe(Seed(), Empty(), [])
  }

  /**
   `takeOrder` for `customer` reading `requests`: `None` if the sentinel never
   arrives (the loop would still be prompting).
   */
  function TakeOrder(c: Cafe, customer: string, requests: seq<Request>): (r: Option<Cafe>)
    ensures r.None? <==> forall i :: 0 <= i < |requests| ==> requests[i].item != DoneSentinel
    ensures r.Some? ==> r.value.reviews == c.reviews && OnlyStockDiffers(c.menu, r.value.menu)
  {
    match Run(Fresh(c.menu), requests)
    case Open(_) => None
    case Closed(t, _) =>
      FreshConserves(c.menu);
      RunConserves(c.menu, Fresh(c.menu), requests);
      Some(Cafe(t.menu, Finalize(c.ledger, customer, t.items, t.bill), c.reviews))
  }

  /** The tally the request loop of `TakeOrder` ends with. */
  function FinalTally(c: Cafe, requests: seq<Request>): Tally {
    Run(Fresh(c.menu), requests).tally
  }

  /**
   Stock accounting of one completed `takeOrder`: the stock taken from each
   item is its accumulated quantity, and the bill is the priced sum of those
   quantities at the menu's prices.
   */
  lemma TakeOrderAccounts(c: Cafe, customer: string, requests: seq<Request>)
    requires TakeOrder(c, customer, requests).Some?
    ensures var c' := TakeOrder(c, customer, requests).value;
            var t := FinalTally(c, requests);
            && c'.menu == t.menu
            && t.items.Keys <= c.menu.Keys
            && (forall k :: k in c.menu ==> c.menu[k].stock - c'.menu[k].stock == Qty(t.items, k))
            && t.bill == OrderValue(t.items, c.menu)
  {
    var t := FinalTally(c, requests);
    FreshConserves(c.menu);
    RunConserves(c.menu, Fresh(c.menu), requests);
    OrderValueOnlyNeedsPrices(t.items, c.menu, t.menu);
  }

  /**
   Finalisation of one completed `takeOrder`: exactly one order carrying the
   bill is recorded, and the bill added to total sales, iff the bill is
   positive; otherwise the ledger is unchanged while the stock changes stand.
   */
  lemma TakeOrderRecords(c: Cafe, customer: string, requests: seq<Request>)
    requires TakeOrder(c, customer, requests).Some?
    ensures var c' := TakeOrder(c, customer, requests).value;
            var t := FinalTally(c, requests);
            && c'.menu == t.menu
            && (t.bill > 0 ==>
                  && c'.ledger.orders == c.ledger.orders + [Order(customer, t.items, t.bill)]
                  && c'.ledger.totalSales == c.ledger.totalSales + t.bill)
            && (t.bill <= 0 ==> c'.ledger == c.ledger)
  {
  }

  /** `leaveReview`: `None` while every rating typed is out of range. */
  function LeaveReview(c: Cafe, customer: string, text: string, ratings: seq<int>): (r: Option<Cafe>)
    ensures r.None? <==> forall i :: 0 <= i < |ratings| ==> !RatingInRange(ratings[i])
    ensures r.Some? ==>
              && r.value.menu == c.menu
              && r.value.ledger == c.ledger
              && |r.value.reviews| == |c.reviews| + 1
              && r.value.reviews[..|c.reviews|] == c.reviews
              && r.value.reviews[|c.reviews|].customer == customer
              && r.value.reviews[|c.reviews|].text == text
              && RatingInRange(r.value.reviews[|c.reviews|].rating)
              && exists j :: 0 <= j < |ratings| && r.value.reviews[|c.reviews|].rating == ratings[j]
                             && forall i :: 0 <= i < j ==> !RatingInRange(ratings[i])
  {
    match Record(c.reviews, customer, text, ratings)
    case None => None
    case Some(reviews) => Some(c.(reviews := reviews))
  }

  lemma TakeOrderKeepsValid(c: Cafe, customer: string, requests: seq<Request>)
    requires Valid(c) && TakeOrder(c, customer, requests).Some?
    ensures Valid(TakeOrder(c, customer, requests).value)
  {
    var c' := TakeOrder(c, customer, requests).value;
    var t := FinalTally(c, requests);
    TakeOrderAccounts(c, customer, requests);
    TakeOrderRecords(c, customer, requests);
    RunKeepsStockNonNegative(Fresh(c.menu), requests);
    FinalizeKeepsBalanced(c.ledger, customer, t.items, t.bill);
    forall i | 0 <= i < |c.ledger.orders|
      ensures OrderValue(c.ledger.orders[i].items, c'.menu) == OrderValue(c.ledger.orders[i].items, c.menu)
    {
      OrderValueOnlyNeedsPrices(c.ledger.orders[i].items, c.menu, c'.menu);
    }
    OrderValueOnlyNeedsPrices(t.items, c.menu, c'.menu);
  }

  lemma LeaveReviewKeepsValid(c: Cafe, customer: string, text: string, ratings: seq<int>)
    requires Valid(c) && LeaveReview(c, customer, text, ratings).Some?
    ensures Valid(LeaveReview(c, customer, text, ratings).value)
  {
  }

  /** One operator action that changes state. */
  datatype Action =
    | PlaceOrder(customer: string, requests: seq<Request>)
    | WriteReview(customer: string, text: string, ratings: seq<int>)

  /**
   Both operations leave history append-only: earlier orders and reviews
   are kept as a prefix, and the menu changes only in stock.
   */
  ghost predicate Extends(c: Cafe, c': Cafe) {
    && OnlyStockDiffers(c.menu, c'.menu)
    && c.ledger.orders <= c'.ledger.orders
    && c.reviews <= c'.reviews
  }

  /** Whether the operator's input lets the action finish: a "done" for an order, an in-range rating for a review. */
  predicate Completes(a: Action) {
    match a
    case PlaceOrder(_, requests) => exists i :: 0 <= i < |requests| && requests[i].item == DoneSentinel
    case WriteReview(_, _, ratings) => exists i :: 0 <= i < |ratings| && RatingInRange(ratings[i])
  }

  /** One dispatched operation; `None` if it never completes. */
  function Perform(c: Cafe, a: Action): (r: Option<Cafe>)
    ensures r.Some? <==> Completes(a)
    ensures r.Some? ==> Extends(c, r.value)
    ensures a.PlaceOrder? && r.Some? ==> r.value.reviews == c.reviews
    ensures a.WriteReview? && r.Some? ==> r.value.menu == c.menu && r.value.ledger == c.ledger
  {
    match a
    case PlaceOrder(customer, requests) =>
      var r := TakeOrder(c, customer, requests);
      if r.Some? then
        TakeOrderRecords(c, customer, requests);
        r
      else r
    case WriteReview(customer, text, ratings) => LeaveReview(c, customer, text, ratings)
  }

  /** A run of actions from `c`; `None` if some action never completes. */
  function Replay(c: Cafe, actions: seq<Action>): (r: Option<Cafe>)
    ensures r.Some? <==> forall i :: 0 <= i < |actions| ==> Completes(actions[i])
    ensures r.Some? ==> Extends(c, r.value)
    decreases |actions|
  {
    if |actions| == 0 then Some(c)
    else
      match Perform(c, actions[0])
      case None => None
      case Some(c') => Replay(c', actions[1..])
  }

  /** After any sequence of orders and reviews from a fresh café, `Valid` still holds. */
  lemma {:induction false} ReplayKeepsValid(c: Cafe, actions: seq<Action>)
    requires Valid(c)
    ensures Replay(c, actions).Some? ==> Valid(Replay(c, actions).value)
    decreases |actions|
  {
    if |actions| > 0 {
      match actions[0]
      case PlaceOrder(customer, requests) =>
        if TakeOrder(c, customer, requests).Some? {
          TakeOrderKeepsValid(c, customer, requests);
          ReplayKeepsValid(TakeOrder(c, customer, requests).value, actions[1..]);
        }
      case WriteReview(customer, text, ratings) =>
        if LeaveReview(c, customer, text, ratings).Some? {
          LeaveReviewKeepsValid(c, customer, text, ratings);
          ReplayKeepsValid(LeaveReview(c, customer, text, ratings).value, actions[1..]);
        }
    }
  }

  /** Total sales equal the sum of recorded order totals after any sequence of operations. */
  lemma SalesMatchOrders(actions: seq<Action>)
    ensures Replay(Init(), actions).Some? ==>
              var c := Replay(Init(), actions).value;
              c.ledger.totalSales == SumTotals(c.ledger.orders)
  {
    ReplayKeepsValid(Init(), actions);
  }

}
