/**
 One call of `takeOrder`: the request loop that turns a customer's
 (item, quantity) requests into stock deductions, a running bill and
 accumulated per-item quantities, until the "done" sentinel arrives.
 */
module OrderTransaction {

  import opened Catalog
  import opened MapSum

  /** Typed as the item name, this ends the request loop. */
  const DoneSentinel: string := "done"

  /** One pass of the loop: an item name and the quantity typed for it (unread unless the item exists). */
  datatype Request = Request(item: string, quantity: int)

  /** What the loop reports for one request. */
  datatype Outcome =
    | Finished
    | InvalidItem
    | InsufficientStock(available: int)
    | Added(lineTotal: int)

  /** The loop's state: the live menu, the running bill in cents, and quantity per item. */
  datatype Tally = Tally(menu: Menu, bill: int, items: map<string, int>)

  datatype StepResult = StepResult(outcome: Outcome, tally: Tally)

  /** How the request loop ended: at the sentinel after `consumed` requests, or with input still pending. */
  datatype RunResult =
    | Closed(tally: Tally, consumed: nat)
    | Open(tally: Tally)

  /** Quantity recorded for `k`, an absent entry reading as 0 like `std::map::operator[]`. */
  function Qty(items: map<string, int>, k: string): int {
    if k in items then items[k] else 0
  }

  /** The tally a `takeOrder` call starts from: empty bill, no line items. */
  function Fresh(menu: Menu): (t: Tally)
    ensures t.menu == menu && t.bill == 0
    ensures t.items == map[]
    ensures forall k :: Qty(t.items, k) == 0
  {
    Tally(menu, 0, map[])
  }

  /** The effect of an accepted request: exactly three changes, nothing else. */
  ghost predicate Accepted(t: Tally, r: Request, t': Tally)
    requires r.item in t.menu
  {
    var item := t.menu[r.item];
    && OnlyStockDiffers(t.menu, t'.menu)
    && t'.menu[r.item].stock == item.stock - r.quantity
    && (forall k :: k in t.menu && k != r.item ==> t'.menu[k] == t.menu[k])
    && t'.bill == t.bill + r.quantity * item.price
    && t'.items.Keys == t.items.Keys + {r.item}
    && t'.items[r.item] == Qty(t.items, r.item) + r.quantity
    && (forall k :: k in t.items && k != r.item ==> t'.items[k] == t.items[k])
  }

  /** One iteration of the request loop. */
  function Step(t: Tally, r: Request): (res: StepResult)
    ensures res.outcome.Finished? <==> r.item == DoneSentinel
    ensures res.outcome.InvalidItem? <==> r.item != DoneSentinel && r.item !in t.menu
    ensures res.outcome.InsufficientStock? <==>
              r.item != DoneSentinel && r.item in t.menu && r.quantity > t.menu[r.item].stock
    ensures res.outcome.InsufficientStock? ==> res.outcome.available == t.menu[r.item].stock
    ensures !res.outcome.Added? ==> res.tally == t
    ensures res.outcome.Added? ==>
              && r.item in t.menu
              && Accepted(t, r, res.tally)
              && res.outcome.lineTotal == r.quantity * t.menu[r.item].price
  {
    if r.item == DoneSentinel then StepResult(Finished, t)
    else if r.item !in t.menu then StepResult(InvalidItem, t)
    else
      var item := t.menu[r.item];
      if r.quantity > item.stock then StepResult(InsufficientStock(item.stock), t)
      else
        var lineTotal := r.quantity * item.price;
        StepResult(
          Added(lineTotal),
          Tally(Deduct(t.menu, r.item, r.quantity),
                t.bill + lineTotal,
                t.items[r.item := Qty(t.items, r.item) + r.quantity]))
  }

  /** The request loop: steps through `rs` until the sentinel, which is consumed; later requests are not read. */
  function Run(t: Tally, rs: seq<Request>): (res: RunResult)
    ensures res.Open? <==> forall i :: 0 <= i < |rs| ==> rs[i].item != DoneSentinel
    ensures res.Closed? ==>
              && 1 <= res.consumed <= |rs|
              && rs[res.consumed - 1].item == DoneSentinel
              && forall i :: 0 <= i < res.consumed - 1 ==> rs[i].item != DoneSentinel
    decreases |rs|
  {
    if |rs| == 0 then Open(t)
    else
      var s := Step(t, rs[0]);
      if s.outcome.Finished? then Closed(t, 1)
      else
        match Run(s.tally, rs[1..])
        case Open(t') => Open(t')
        case Closed(t', n) => Closed(t', n + 1)
  }

  /** Each line item priced at the menu's price; items missing from the menu carry no price. */
  function Priced(items: map<string, int>, menu: Menu): map<string, int> {
    map k | k in items && k in menu :: items[k] * menu[k].price
  }

  /** The value of a set of line items at the menu's prices. */
  ghost function OrderValue(items: map<string, int>, menu: Menu): int {
    Sum(Priced(items, menu))
  }

  /**
   The loop invariant of `takeOrder` relative to the menu `m0` it started from:
   prices never change, every line item names a menu item, the stock taken
   from each item is exactly its accumulated quantity, and the bill is the
   priced sum of the line items.
   */
  ghost predicate Conserves(m0: Menu, t: Tally) {
    && OnlyStockDiffers(m0, t.menu)
    && t.items.Keys <= m0.Keys
    && (forall k :: k in m0 ==> m0[k].stock - t.menu[k].stock == Qty(t.items, k))
    && t.bill == OrderValue(t.items, t.menu)
  }

  /** Line items are worth the same under two menus that agree on prices. */
  lemma OrderValueOnlyNeedsPrices(items: map<string, int>, menu: Menu, menu': Menu)
    requires OnlyStockDiffers(menu, menu')
    ensures OrderValue(items, menu') == OrderValue(items, menu)
  {
    assert Priced(items, menu') == Priced(items, menu);
  }

  lemma FreshConserves(m0: Menu)
    ensures Conserves(m0, Fresh(m0))
  {
    assert Priced(map[], m0) == map[];
  }

  /** One accepted request adds exactly its line total to the priced sum. */
  lemma AcceptedAddsLineValue(t: Tally, r: Request, t': Tally)
    requires r.item in t.menu && t.items.Keys <= t.menu.Keys
    requires Accepted(t, r, t')
    ensures OrderValue(t'.items, t'.menu) == OrderValue(t.items, t.menu) + r.quantity * t.menu[r.item].price
  {
    var n, q, p := r.item, r.quantity, t.menu[r.item].price;
    var before := Priced(t.items, t.menu);
    var old_qty := Qty(t.items, n);
    PricedAfterAccept(t, r, t');
    SumUpdate(before, n, (old_qty + q) * p);
    assert (if n in before then before[n] else 0) == old_qty * p;
    Distribute(old_qty, q, p);
  }

  /** Arithmetic helper: kept separate so the solver sees the product rule in isolation. */
  lemma Distribute(a: int, b: int, c: int)
    ensures (a + b) * c == a * c + b * c
  {
  }

  /** The priced line items after an accepted request: one entry overwritten, all others unchanged. */
  lemma PricedAfterAccept(t: Tally, r: Request, t': Tally)
    requires r.item in t.menu && t.items.Keys <= t.menu.Keys
    requires Accepted(t, r, t')
    ensures Priced(t'.items, t'.menu)
         == Priced(t.items, t.menu)[r.item := (Qty(t.items, r.item) + r.quantity) * t.menu[r.item].price]
  {
    var n := r.item;
    var before := Priced(t.items, t.menu);
    var after := Priced(t'.items, t'.menu);
    var expected := before[n := (Qty(t.items, n) + r.quantity) * t.menu[n].price];
    assert after.Keys == expected.Keys;
    forall k | k in after
      ensures after[k] == expected[k]
    {
      if k != n {
        assert t'.items[k] == t.items[k];
        assert t'.menu[k] == t.menu[k];
      }
    }
  }

  lemma {:induction false} StepConserves(m0: Menu, t: Tally, r: Request)
    requires Conserves(m0, t)
    ensures Conserves(m0, Step(t, r).tally)
  {
    var s := Step(t, r);
    if s.outcome.Added? {
      AcceptedAddsLineValue(t, r, s.tally);
    }
  }

  lemma {:induction false} RunConserves(m0: Menu, t: Tally, rs: seq<Request>)
    requires Conserves(m0, t)
    ensures Conserves(m0, Run(t, rs).tally)
    decreases |rs|
  {
    if |rs| > 0 {
      var s := Step(t, rs[0]);
      if !s.outcome.Finished? {
        StepConserves(m0, t, rs[0]);
        RunConserves(m0, s.tally, rs[1..]);
      }
    }
  }

  /** No request, whatever its quantity, can drive stock below zero. */
  lemma StepKeepsStockNonNegative(t: Tally, r: Request)
    requires StockNonNegative(t.menu)
    ensures StockNonNegative(Step(t, r).tally.menu)
  {
  }

  lemma {:induction false} RunKeepsStockNonNegative(t: Tally, rs: seq<Request>)
    requires StockNonNegative(t.menu)
    ensures StockNonNegative(Run(t, rs).tally.menu)
    decreases |rs|
  {
    if |rs| > 0 {
      var s := Step(t, rs[0]);
      if !s.outcome.Finished? {
        StepKeepsStockNonNegative(t, rs[0]);
        RunKeepsStockNonNegative(s.tally, rs[1..]);
      }
    }
  }

  /** Requesting the same item twice accumulates into one line item rather than overwriting it. */
  lemma RepeatedItemAccumulates(t: Tally, name: string, q1: int, q2: int)
    requires name != DoneSentinel && name in t.menu
    requires q1 <= t.menu[name].stock && q2 <= t.menu[name].stock - q1
    ensures var t1 := Step(t, Request(name, q1)).tally;
            var t2 := Step(t1, Request(name, q2)).tally;
            && Qty(t2.items, name) == Qty(t.items, name) + q1 + q2
            && t2.menu[name].stock == t.menu[name].stock - (q1 + q2)
            && t2.bill == t.bill + (q1 + q2) * t.menu[name].price
  {
    var t1 := Step(t, Request(name, q1)).tally;
    assert t1.menu[name].price == t.menu[name].price;
  }

  /** A zero quantity is accepted: nothing moves, but a 0 line item appears. */
  lemma ZeroQuantityAddsEmptyLine(t: Tally, name: string)
    requires name != DoneSentinel && name in t.menu && t.menu[name].stock >= 0
    ensures var s := Step(t, Request(name, 0));
            && s.outcome == Added(0)
            && name in s.tally.items && s.tally.items[name] == Qty(t.items, name)
            && s.tally.bill == t.bill
            && s.tally.menu == t.menu
  {
  }

  /** A negative quantity is accepted: it raises stock and lowers the bill. */
  lemma NegativeQuantityRestocks(t: Tally, name: string, q: int)
    requires name != DoneSentinel && name in t.menu && t.menu[name].stock >= 0 && q < 0
    ensures var s := Step(t, Request(name, q));
            && s.outcome.Added?
            && s.tally.menu[name].stock > t.menu[name].stock
            && (t.menu[name].price > 0 ==> s.tally.bill < t.bill)
  {
  }

}
