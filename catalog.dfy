/**
 * Definitions shared by every front end of the ice-cream vending machine:
 * the input symbols a `delta` method receives, price sums over a cart, and
 * the stock decrement performed when the cart is dispensed.
 */
module Catalog {

  datatype Option<T> = None | Some(value: T)

  /** Item names are the dictionary keys of the source (`'VanillaScoop'`, ...). */
  type Item = string

  /** An input symbol: a string (an item name or a command such as
      "Checkout"), an integer (inserted money) or Python's `None`. */
  datatype Input = Sym(name: string) | Cash(amount: int) | Nothing

  /** The four bank notes every front end accepts. */
  const Notes: set<int> := {2000, 5000, 10000, 20000}

  /** The menu of the `commit-*` automata, of `old2/eskrimDFA2-input.py`
      and of the callback front ends in `Experimental/`. */
  const CompactMenu: map<Item, int> :=
    map["VanillaScoop" := 10000, "ChocolateScoop" := 10000, "CaramelTopping" := 2000, "SprinklesTopping" := 2000]

  /** The menu of `old2/percobaanGUI.py` and of the per-action front ends in
      `Experimental/`. */
  const ShortMenu: map<Item, int> :=
    map["Vanilla" := 10000, "Chocolate" := 10000, "Caramel" := 2000, "Sprinkles" := 2000]

  /** `{item: 10 for item in menu}` */
  function TenEach(menu: map<Item, int>): map<Item, int>
  {
    map k | k in menu :: 10
  }

  /** `prices[x]`, with 0 for an item that has no price. */
  function PriceOf(prices: map<Item, int>, x: Item): int
  {
    if x in prices then prices[x] else 0
  }

  /** `stock.get(x, 0)` */
  function StockOf(stock: map<Item, int>, x: Item): int
  {
    if x in stock then stock[x] else 0
  }

  predicate PositivePrices(prices: map<Item, int>)
  {
    forall x | x in prices :: prices[x] > 0
  }

  predicate AllIn(cart: seq<Item>, keys: set<Item>)
  {
    forall i | 0 <= i < |cart| :: cart[i] in keys
  }

  /** The sum of the prices of the items of `cart` (each occurrence counted). */
  function SumPrices(prices: map<Item, int>, cart: seq<Item>): int
  {
    if cart == [] then 0
    else SumPrices(prices, cart[..|cart| - 1]) + PriceOf(prices, cart[|cart| - 1])
  }

  /** Appending an item adds its price: the incremental `total_price += price` keeps the sum. */
  lemma SumPricesSnoc(prices: map<Item, int>, cart: seq<Item>, x: Item)
    ensures SumPrices(prices, cart + [x]) == SumPrices(prices, cart) + PriceOf(prices, x)
  {
    assert (cart + [x])[..|cart|] == cart;
  }

  /** Appending a priced item keeps the cart priced and adds the item's price. */
  lemma CartAppend(prices: map<Item, int>, cart: seq<Item>, x: Item)
    requires AllIn(cart, prices.Keys) && x in prices
    ensures AllIn(cart + [x], prices.Keys)
    ensures SumPrices(prices, cart + [x]) == SumPrices(prices, cart) + prices[x]
  {
    SumPricesSnoc(prices, cart, x);
    assert forall i | 0 <= i < |cart| :: (cart + [x])[i] == cart[i];
  }

  /** A non-empty cart of priced items costs something. */
  lemma {:induction false} SumPricesPositive(prices: map<Item, int>, cart: seq<Item>)
    requires PositivePrices(prices) && AllIn(cart, prices.Keys) && cart != []
    ensures SumPrices(prices, cart) > 0
  {
    var init := cart[..|cart| - 1];
    if init != [] {
      assert AllIn(init, prices.Keys) by {
        forall i | 0 <= i < |init| ensures init[i] in prices { assert init[i] == cart[i]; }
      }
      SumPricesPositive(prices, init);
    }
  }

  /** How many copies of `x` the cart holds. */
  function Occurrences(cart: seq<Item>, x: Item): nat
  {
    multiset(cart)[x]
  }

  /** The stock after dispensing `cart`: every stocked item loses one unit
      per occurrence in the cart; items without a stock entry are skipped. */
  function Dispensed(stock: map<Item, int>, cart: seq<Item>): (r: map<Item, int>)
    ensures r.Keys == stock.Keys
  {
    map k | k in stock :: stock[k] - Occurrences(cart, k)
  }

  /** Dispensing a single item takes one unit of it and nothing else. */
  lemma DispensedSingle(stock: map<Item, int>, x: Item)
    requires x in stock
    ensures Dispensed(stock, [x]) == stock[x := stock[x] - 1]
  {
    assert Dispensed(stock, []) == stock;
    DispensedSnoc(stock, [], x);
    assert [] + [x] == [x];
  }

  /** The source's `for item in selected_items: stock[item] -= 1` loop. */
  method DecrementEach(stock: map<Item, int>, cart: seq<Item>) returns (result: map<Item, int>)
    ensures result == Dispensed(stock, cart)
  {
    result := stock;
    for i := 0 to |cart|
      invariant result == Dispensed(stock, cart[..i])
    {
      assert cart[..i + 1] == cart[..i] + [cart[i]];
      DispensedSnoc(stock, cart[..i], cart[i]);
      if cart[i] in result {
        result := result[cart[i] := result[cart[i]] - 1];
      }
    }
    assert cart[..|cart|] == cart;
  }

  /** Dispensing one more item takes one more unit of that item only. */
  lemma DispensedSnoc(stock: map<Item, int>, cart: seq<Item>, x: Item)
    ensures var d := Dispensed(stock, cart);
            Dispensed(stock, cart + [x]) == if x in d then d[x := d[x] - 1] else d
  {
    var d, e := Dispensed(stock, cart), Dispensed(stock, cart + [x]);
    assert multiset(cart + [x]) == multiset(cart) + multiset{x};
    forall k | k in stock ensures e[k] == d[k] - (if k == x then 1 else 0) {
      assert Occurrences(cart + [x], k) == Occurrences(cart, k) + (if k == x then 1 else 0);
    }
  }

  /** Whether the stock covers every copy in the cart. */
  predicate Covers(stock: map<Item, int>, cart: seq<Item>)
  {
    forall k | k in stock :: Occurrences(cart, k) <= stock[k]
  }

  predicate NonNegative(stock: map<Item, int>)
  {
    forall k | k in stock :: stock[k] >= 0
  }

  /** Dispensing keeps the stock non-negative exactly when the stock covers the cart. */
  lemma DispensedNonNegative(stock: map<Item, int>, cart: seq<Item>)
    ensures NonNegative(Dispensed(stock, cart)) <==> Covers(stock, cart)
  {
  }

  /** Dispensing changes only the items that are in the cart. */
  lemma DispensedFrame(stock: map<Item, int>, cart: seq<Item>, k: Item)
    requires k in stock
    ensures Dispensed(stock, cart)[k] == stock[k] <==> k !in cart
  {
  }

  /** `counts.get(x, 0)` for a count dictionary. */
  function CountOf(counts: map<Item, int>, x: Item): int
  {
    if x in counts then counts[x] else 0
  }

  /** The stock after subtracting a count dictionary. */
  function Subtracted(stock: map<Item, int>, counts: map<Item, int>): (r: map<Item, int>)
    ensures r.Keys == stock.Keys
  {
    map k | k in stock :: stock[k] - CountOf(counts, k)
  }

  /** The source's `for item, count in selected_items.items(): if item in stock: stock[item] -= count`. */
  method SubtractCounts(stock: map<Item, int>, counts: map<Item, int>) returns (result: map<Item, int>)
    ensures result == Subtracted(stock, counts)
  {
    result := stock;
    var todo := counts.Keys;
    while todo != {}
      invariant todo <= counts.Keys
      invariant result == map k | k in stock :: stock[k] - (if k in todo then 0 else CountOf(counts, k))
      decreases todo
    {
      var item :| item in todo;
      if item in result {
        result := result[item := result[item] - counts[item]];
      }
      todo := todo - {item};
    }
  }
}
