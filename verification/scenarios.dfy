/** Concrete runs from a freshly opened café. */
module Scenarios {

  import opened Options
  import opened Catalog
  import opened OrderTransaction
  import opened Ledger
  import opened Feedback
  import opened CafeSystem

  /** Ten coffees: $30.00 billed, stock 50 -> 40, one order with a single Coffee line. */
  lemma TenCoffees()
    ensures var r := TakeOrder(Init(), "Ann", [Request("Coffee", 10), Request("done", 0)]);
            && r.Some?
            && r.value.menu["Coffee"].stock == 40
            && r.value.ledger.totalSales == 3000
            && r.value.ledger.orders == [Order("Ann", map["Coffee" := 10], 3000)]
  {
  }

  /** Sixty coffees against a stock of fifty: refused, nothing recorded, stock untouched. */
  lemma SixtyCoffeesRefused()
    ensures Step(Fresh(Seed()), Request("Coffee", 60)).outcome == InsufficientStock(50)
    ensures var r := TakeOrder(Init(), "Ann", [Request("Coffee", 60), Request("done", 0)]);
            r == Some(Init())
  {
  }

  /** An unknown item changes nothing, and the loop goes on to the next request. */
  lemma EspressoIsInvalid()
    ensures Step(Fresh(Seed()), Request("Espresso", 1)).outcome == InvalidItem
    ensures TakeOrder(Init(), "Ann", [Request("Espresso", 1), Request("done", 0)]) == Some(Init())
  {
  }

  /** Lookup is case-sensitive: "coffee" is not on the menu. */
  lemma LookupIsCaseSensitive()
    ensures Step(Fresh(Seed()), Request("coffee", 1)).outcome == InvalidItem
  {
  }

  /** 2 then 3 coffees make one line "Coffee": 5. */
  lemma TwoThenThreeCoffees()
    ensures var r := TakeOrder(Init(), "Bo", [Request("Coffee", 2), Request("Coffee", 3), Request("done", 0)]);
            && r.Some?
            && r.value.ledger.orders == [Order("Bo", map["Coffee" := 5], 1500)]
            && r.value.menu["Coffee"].stock == 45
  {
    var t1 := Step(Fresh(Seed()), Request("Coffee", 2)).tally;
    var t2 := Step(t1, Request("Coffee", 3)).tally;
    assert t2.items == map["Coffee" := 5];
  }

  /** The sentinel ends the loop even if a menu had an item called "done". */
  lemma SentinelBeforeLookup(menu: Menu, q: int)
    requires DoneSentinel in menu
    ensures Step(Fresh(menu), Request(DoneSentinel, q)) == StepResult(Finished, Fresh(menu))
  {
  }

  /** Requests after the sentinel belong to the next command and are not read. */
  lemma RequestsAfterSentinelIgnored()
    ensures TakeOrder(Init(), "Cy", [Request("done", 0), Request("Coffee", 5)]) == Some(Init())
  {
  }

  /** A single returned coffee: stock rises to 51, the bill is negative, so no order is recorded. */
  lemma NegativeOrderNotRecordedButRestocks()
    ensures var r := TakeOrder(Init(), "Di", [Request("Coffee", -1), Request("done", 0)]);
            && r.Some?
            && r.value.menu["Coffee"].stock == 51
            && r.value.ledger == Init().ledger
  {
  }

  /** Ratings 0 and 6 are re-asked; 1 and 5 are accepted. */
  lemma RatingBoundaries()
    ensures LeaveReview(Init(), "Ed", "ok", [0]).None?
    ensures LeaveReview(Init(), "Ed", "ok", [6]).None?
    ensures LeaveReview(Init(), "Ed", "ok", [1]) == Some(Init().(reviews := [Review("Ed", "ok", 1)]))
    ensures LeaveReview(Init(), "Ed", "ok", [5]) == Some(Init().(reviews := [Review("Ed", "ok", 5)]))
    ensures LeaveReview(Init(), "Ed", "ok", [0, 6, 4, 2]) == Some(Init().(reviews := [Review("Ed", "ok", 4)]))
  {
  }

  /** An order of only zero-quantity lines, closed by the sentinel. */
  function ZeroTeaOrder(): seq<Request> {
    [Request("Tea", 0), Request("done", 0)]
  }

  /** The zero-quantity Tea line is accepted. */
  lemma ZeroTeaLineAccepted()
    ensures Step(Fresh(Seed()), ZeroTeaOrder()[0]).outcome == Added(0)
  {
  }

  /** The loop ends with a zero bill, so the closing says "No items ordered". */
  lemma ZeroLinesCloseWithNoItems()
    ensures ClosingMessage(FinalTally(Init(), ZeroTeaOrder()).bill) == NoItemsOrdered
  {
    var rs := ZeroTeaOrder();
    var t := Step(Fresh(Seed()), rs[0]).tally;
    assert t.bill == 0;
    assert rs[1..] == [Request("done", 0)];
    assert FinalTally(Init(), rs).bill == 0;
  }

  /** Nothing is recorded for the zero-bill order. */
  lemma ZeroLinesRecordNothing()
    ensures TakeOrder(Init(), "Fay", ZeroTeaOrder()).Some?
    ensures TakeOrder(Init(), "Fay", ZeroTeaOrder()).value.ledger == Init().ledger
  {
    var rs := ZeroTeaOrder();
    var t := Step(Fresh(Seed()), rs[0]).tally;
    assert t.bill == 0;
    assert rs[1..] == [Request("done", 0)];
    assert FinalTally(Init(), rs).bill == 0;
  }

}
