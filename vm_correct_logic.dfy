/**
 * `VendingMachineLogic` of `Experimental/VMcorrect.py`: one method per
 * customer action and no state field. `checkout` checks the payment and,
 * before it changes anything, that every cart item still has stock; a
 * purchase decrements the stock and clears the cart, the total and the
 * money.
 */
module VmCorrectLogic {

  import opened Catalog

  datatype Msg =
    | ItemAdded(item: Item)
    | SoldOut(item: Item)
    | MoneyInserted(amount: int)
    | SelectFirst
    | MoneyShort(needed: int)
    | OutOfStockAtCheckout(item: Item)
    | OrderCancelled(refund: int)
    | OrderCancelledNoRefund
    | ChangeTaken(amount: int)
    | NoChangeToTake

  /** The dictionary `checkout` returns. */
  datatype Checkout = Refused(message: Msg) | Purchased(change: int, items: seq<Item>)

  /** Whether every occurrence in the cart still has stock, as the loop at
      the start of a successful `checkout` demands. */
  predicate AllInStock(stock: map<Item, int>, cart: seq<Item>)
    requires AllIn(cart, stock.Keys)
  {
    forall i | 0 <= i < |cart| :: stock[cart[i]] > 0
  }

  /** The check loop of `checkout`: the first cart item whose stock is not
      positive, if there is one. */
  method FirstOutOfStock(stock: map<Item, int>, cart: seq<Item>) returns (r: Option<Item>)
    requires AllIn(cart, stock.Keys)
    ensures r.None? <==> AllInStock(stock, cart)
    ensures r.Some? ==> exists i | 0 <= i < |cart| :: cart[i] == r.value && stock[r.value] <= 0
                                                     && AllInStock(stock, cart[..i])
  {
    for i := 0 to |cart|
      invariant forall j | 0 <= j < i :: stock[cart[j]] > 0
    {
      if stock[cart[i]] <= 0 {
        assert AllInStock(stock, cart[..i]) by {
          forall j | 0 <= j < i ensures stock[cart[..i][j]] > 0 { assert cart[..i][j] == cart[j]; }
        }
        return Some(cart[i]);
      }
    }
    return None;
  }

  /** The check is implied by a stock that covers the cart, so with such a
      stock a paid checkout succeeds and leaves the stock non-negative. */
  lemma CoveredCartIsInStock(stock: map<Item, int>, cart: seq<Item>)
    requires AllIn(cart, stock.Keys) && Covers(stock, cart)
    ensures AllInStock(stock, cart)
  {
    forall i | 0 <= i < |cart| ensures stock[cart[i]] > 0 {
      assert cart[i] in multiset(cart);
      assert Occurrences(cart, cart[i]) >= 1;
    }
  }

  class VendingMachineLogic {
    var selectedItems: seq<Item>
    var totalPrice: int
    var moneyInserted: int
    var stock: map<Item, int>

    /** The stock keeps the menu's items, the cart holds menu items only,
        and the total is the cart's price. */
    predicate Valid()
      reads this
    {
      && stock.Keys == ShortMenu.Keys
      && AllIn(selectedItems, ShortMenu.Keys)
      && totalPrice == SumPrices(ShortMenu, selectedItems)
    }

    constructor ()
      ensures Valid()
      ensures selectedItems == [] && totalPrice == 0 && moneyInserted == 0
      ensures stock == TenEach(ShortMenu)
    {
      stock := TenEach(ShortMenu);
      selectedItems, totalPrice, moneyInserted := [], 0, 0;
    }

    /** `select_item(item_name)`: appends and prices an item whose stock is
        positive; an unknown or sold-out item changes nothing. */
    method SelectItem(name: Item) returns (message: Msg)
      requires Valid()
      modifies this
      ensures Valid()
      ensures message.ItemAdded? <==> StockOf(old(stock), name) > 0
      ensures message.ItemAdded? ==> message == ItemAdded(name)
                                     && selectedItems == old(selectedItems) + [name]
                                     && totalPrice == old(totalPrice) + ShortMenu[name]
      ensures !message.ItemAdded? ==> message == SoldOut(name)
                                      && selectedItems == old(selectedItems) && totalPrice == old(totalPrice)
      ensures moneyInserted == old(moneyInserted) && stock == old(stock)
    {
      if StockOf(stock, name) > 0 {
        CartAppend(ShortMenu, selectedItems, name);
        selectedItems := selectedItems + [name];
        totalPrice := totalPrice + ShortMenu[name];
        return ItemAdded(name);
      }
      return SoldOut(name);
    }

    /** `insert_money(amount)`: adds any amount, whatever the cart. */
    method InsertMoney(amount: int) returns (message: Msg)
      requires Valid()
      modifies this
      ensures Valid()
      ensures message == MoneyInserted(amount)
      ensures moneyInserted == old(moneyInserted) + amount
      ensures selectedItems == old(selectedItems) && totalPrice == old(totalPrice) && stock == old(stock)
    {
      moneyInserted := moneyInserted + amount;
      return MoneyInserted(amount);
    }

    /** `checkout`: refuses an empty cart, then a short payment, then a cart
        with an item out of stock, each without changing anything; otherwise
        takes one unit of stock per cart occurrence, returns the change and
        the purchased items, and clears the cart, the total and the money. */
    method Checkout() returns (result: Checkout)
      requires Valid()
      modifies this
      ensures Valid()
      ensures old(selectedItems) == [] ==> result == Refused(SelectFirst)
      ensures old(selectedItems) != [] && old(moneyInserted) < old(totalPrice) ==>
                result == Refused(MoneyShort(old(totalPrice) - old(moneyInserted)))
      ensures result.Purchased? <==>
                old(selectedItems) != [] && old(moneyInserted) >= old(totalPrice)
                && AllInStock(old(stock), old(selectedItems))
      ensures old(selectedItems) != [] && old(moneyInserted) >= old(totalPrice)
              && !AllInStock(old(stock), old(selectedItems)) ==>
                exists i | 0 <= i < |old(selectedItems)| ::
                  && result == Refused(OutOfStockAtCheckout(old(selectedItems)[i]))
                  && old(stock)[old(selectedItems)[i]] <= 0
                  && AllInStock(old(stock), old(selectedItems)[..i])
      ensures result.Purchased? ==>
                && result.change == old(moneyInserted) - old(totalPrice) >= 0
                && result.items == old(selectedItems)
                && stock == Dispensed(old(stock), old(selectedItems))
                && selectedItems == [] && totalPrice == 0 && moneyInserted == 0
      ensures result.Refused? ==>
                selectedItems == old(selectedItems) && totalPrice == old(totalPrice)
                && moneyInserted == old(moneyInserted) && stock == old(stock)
    {
      if selectedItems == [] {
        return Refused(SelectFirst);
      }
      if moneyInserted < totalPrice {
        var needed := totalPrice - moneyInserted;
        return Refused(MoneyShort(needed));
      }
      var missing := FirstOutOfStock(stock, selectedItems);
      if missing.Some? {
        return Refused(OutOfStockAtCheckout(missing.value));
      }
      stock := DecrementEach(stock, selectedItems);
      var change := moneyInserted - totalPrice;
      var purchasedItems := selectedItems;
      moneyInserted := 0;
      selectedItems := [];
      totalPrice := 0;
      return Purchased(change, purchasedItems);
    }

    /** `cancel_order`: refunds all the money inserted, reporting the refund
        only when it is positive, and clears the cart, the total and the
        money; the stock stays. */
    method CancelOrder() returns (message: Msg)
      requires Valid()
      modifies this
      ensures Valid()
      ensures message == if old(moneyInserted) > 0 then OrderCancelled(old(moneyInserted)) else OrderCancelledNoRefund
      ensures selectedItems == [] && totalPrice == 0 && moneyInserted == 0 && stock == old(stock)
    {
      var changeToReturn := moneyInserted;
      selectedItems := [];
      totalPrice := 0;
      moneyInserted := 0;
      if changeToReturn > 0 {
        return OrderCancelled(changeToReturn);
      }
      return OrderCancelledNoRefund;
    }

    /** `take_change`: hands back the money without buying; the cart and the
        total stay. */
    method TakeChange() returns (message: Msg)
      requires Valid()
      modifies this
      ensures Valid()
      ensures message == if old(moneyInserted) > 0 then ChangeTaken(old(moneyInserted)) else NoChangeToTake
      ensures moneyInserted == 0
      ensures selectedItems == old(selectedItems) && totalPrice == old(totalPrice) && stock == old(stock)
    {
      var changeToReturn := moneyInserted;
      moneyInserted := 0;
      if changeToReturn > 0 {
        return ChangeTaken(changeToReturn);
      }
      return NoChangeToTake;
    }
  }

  /** A machine with one vanilla left, two vanillas in the cart, paid. */
  method TwoVanillasPaid() returns (vm: VendingMachineLogic)
    ensures fresh(vm) && vm.Valid()
    ensures vm.selectedItems == ["Vanilla", "Vanilla"] && vm.totalPrice == 20000 && vm.moneyInserted == 20000
    ensures vm.stock == TenEach(ShortMenu)["Vanilla" := 1]
  {
    vm := new VendingMachineLogic();
    vm.stock := vm.stock["Vanilla" := 1];
    var msg := vm.SelectItem("Vanilla");
    assert vm.selectedItems == ["Vanilla"] && vm.totalPrice == 10000;
    msg := vm.SelectItem("Vanilla");
    msg := vm.InsertMoney(20000);
  }

  /** The checkout check looks at one unit per item only: two vanillas
      against a stock of one both pass it, and the stock ends at -1. */
  method Oversell() returns (left: int)
    ensures left == -1
  {
    var vm := TwoVanillasPaid();
    ghost var s := vm.stock;
    assert AllInStock(s, ["Vanilla", "Vanilla"]);
    var result := vm.Checkout();
    assert multiset(["Vanilla", "Vanilla"])["Vanilla"] == 2;
    left := vm.stock["Vanilla"];
  }
}
