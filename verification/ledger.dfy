/** Completed orders and the running sales total. */
module Ledger {

  /** A recorded order: line items keyed by item name, total in cents. */
  datatype Order = Order(customer: string, items: map<string, int>, total: int)

  datatype Book = Book(orders: seq<Order>, totalSales: int)

  /** Reference definition: the sum of the totals of `orders`, first to last. */
  function SumTotals(orders: seq<Order>): int
    decreases |orders|
  {
    if |orders| == 0 then 0 else orders[0].total + SumTotals(orders[1..])
  }

  /** The ledger's invariant: the running total is the sum of the recorded totals. */
  ghost predicate Balanced(b: Book) {
    b.totalSales == SumTotals(b.orders)
  }

  /** A ledger with nothing recorded. */
  function Empty(): (b: Book)
    ensures Balanced(b) && |b.orders| == 0
  {
    Book([], 0)
  }

  lemma {:induction false} SumTotalsAppend(orders: seq<Order>, o: Order)
    ensures SumTotals(orders + [o]) == SumTotals(orders) + o.total
    decreases |orders|
  {
    if |orders| > 0 {
      assert (orders + [o])[1..] == orders[1..] + [o];
      SumTotalsAppend(orders[1..], o);
    }
  }

  /**
   End of `takeOrder`: a positive bill records exactly one order and adds the
   bill to the sales total; otherwise the ledger is left as it was.
   */
  function Finalize(b: Book, customer: string, items: map<string, int>, bill: int): (b': Book)
    ensures bill > 0 ==> |b'.orders| == |b.orders| + 1 && b'.orders[..|b.orders|] == b.orders
    ensures bill > 0 ==> b'.orders[|b.orders|] == Order(customer, items, bill)
    ensures bill > 0 ==> b'.totalSales == b.totalSales + bill
    ensures bill <= 0 ==> b' == b
  {
    if bill > 0 then Book(b.orders + [Order(customer, items, bill)], b.totalSales + bill)
    else b
  }

  /** The message that closes `takeOrder`. */
  datatype Closing = ThankYou(bill: int) | NoItemsOrdered

  /**
   The closing message follows the bill alone: zero or negative bills say
   "No items ordered" even when lines were accepted.
   */
  function ClosingMessage(bill: int): (m: Closing)
    ensures m.ThankYou? <==> bill > 0
    ensures m.ThankYou? ==> m.bill == bill
  {
    if bill > 0 then ThankYou(bill) else NoItemsOrdered
  }

  /** The customer is thanked for a bill exactly when the ledger records an order for it. */
  lemma ClosingMatchesLedger(b: Book, customer: string, items: map<string, int>, bill: int)
    ensures ClosingMessage(bill).ThankYou? <==> Finalize(b, customer, items, bill) != b
    ensures ClosingMessage(bill).ThankYou? ==>
              Finalize(b, customer, items, bill).orders[|b.orders|].total == ClosingMessage(bill).bill
  {
    if bill > 0 {
      assert |Finalize(b, customer, items, bill).orders| != |b.orders|;
    }
  }

  /** Finalising keeps the running total equal to the sum of recorded totals. */
  lemma FinalizeKeepsBalanced(b: Book, customer: string, items: map<string, int>, bill: int)
    requires Balanced(b)
    ensures Balanced(Finalize(b, customer, items, bill))
  {
    if bill > 0 {
      SumTotalsAppend(b.orders, Order(customer, items, bill));
    }
  }

}
