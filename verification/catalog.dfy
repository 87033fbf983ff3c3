/**
 The café menu: item name -> (name, price, stock).
 Prices are whole cents; the source's `double` prices are all multiples of 0.5 dollars.
 */
module Catalog {

  datatype MenuItem = MenuItem(name: string, price: int, stock: int)

  /** Keyed by item name; lookups are exact and case-sensitive. */
  type Menu = map<string, MenuItem>

  ghost predicate StockNonNegative(menu: Menu) {
    forall k :: k in menu ==> menu[k].stock >= 0
  }

  /** Every entry is filed under its own name. */
  ghost predicate WellKeyed(menu: Menu) {
    forall k :: k in menu ==> menu[k].name == k
  }

  ghost predicate PricesNonNegative(menu: Menu) {
    forall k :: k in menu ==> menu[k].price >= 0
  }

  /** `menu'` differs from `menu` at most in stock levels. */
  ghost predicate OnlyStockDiffers(menu: Menu, menu': Menu) {
    && menu'.Keys == menu.Keys
    && forall k :: k in menu ==> menu'[k].name == menu[k].name && menu'[k].price == menu[k].price
  }

  /** The menu a new café opens with. */
  function Seed(): (menu: Menu)
    ensures menu.Keys == {"Coffee", "Tea", "Sandwich", "Cake"}
    ensures StockNonNegative(menu) && WellKeyed(menu) && PricesNonNegative(menu)
  {
    map[
      "Coffee" := MenuItem("Coffee", 300, 50),
      "Tea" := MenuItem("Tea", 250, 40),
      "Sandwich" := MenuItem("Sandwich", 500, 30),
      "Cake" := MenuItem("Cake", 400, 20)
    ]
  }

  /** Takes `quantity` units of `name` out of stock, unchecked: the caller compares against stock first. */
  function Deduct(menu: Menu, name: string, quantity: int): (menu': Menu)
    requires name in menu
    ensures OnlyStockDiffers(menu, menu')
    ensures menu'[name].stock == menu[name].stock - quantity
    ensures forall k :: k in menu && k != name ==> menu'[k] == menu[k]
  {
    menu[name := menu[name].(stock := menu[name].stock - quantity)]
  }

  /** Deducting any quantity that does not exceed stock (negative ones included) leaves stock non-negative. */
  lemma DeductKeepsStockNonNegative(menu: Menu, name: string, quantity: int)
    requires StockNonNegative(menu)
    requires name in menu && quantity <= menu[name].stock
    ensures StockNonNegative(Deduct(menu, name, quantity))
  {
  }

  /** Number of values of a 32-bit C++ `int`. */
  const Int32Modulus: int := 0x1_0000_0000

  /** Two's-complement wrap of an integer into the range of a 32-bit `int`. */
  function WrapInt32(x: int): (r: int)
    ensures -0x8000_0000 <= r < 0x8000_0000
    ensures (x - r) % Int32Modulus == 0
    ensures -0x8000_0000 <= x < 0x8000_0000 ==> r == x
  {
    var m := x % Int32Modulus;
    if m >= 0x8000_0000 then m - Int32Modulus else m
  }

  /**
   The deduction as the source computes it with a 32-bit `int` stock and
   quantity, assuming the signed overflow wraps around.
   */
  function DeductInt32(menu: Menu, name: string, quantity: int): (menu': Menu)
    requires name in menu
    ensures OnlyStockDiffers(menu, menu')
    ensures menu'[name].stock == WrapInt32(menu[name].stock - quantity)
    ensures forall k :: k in menu && k != name ==> menu'[k] == menu[k]
  {
    menu[name := menu[name].(stock := WrapInt32(menu[name].stock - quantity))]
  }

  /**
   With 32-bit arithmetic the guard does not protect stock: the most
   negative `int` passes `quantity > stock` and the subtraction wraps to a
   negative stock. `Deduct` keeps the intended non-negative stock instead.
   */
  lemma Int32DeductionGoesNegative()
    ensures var q := -0x8000_0000;
            && !(q > Seed()["Coffee"].stock)
            && DeductInt32(Seed(), "Coffee", q)["Coffee"].stock == -2147483598
            && !StockNonNegative(DeductInt32(Seed(), "Coffee", q))
            && StockNonNegative(Deduct(Seed(), "Coffee", q))
  {
    var m := DeductInt32(Seed(), "Coffee", -0x8000_0000);
    assert m["Coffee"].stock == -2147483598;
    DeductKeepsStockNonNegative(Seed(), "Coffee", -0x8000_0000);
  }

}
