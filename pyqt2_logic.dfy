/**
 * `VendingMachineLogic` of `Experimental/VMPyQt2.py`: the per-action logic
 * of `Experimental/VMcorrect.py` without the stock check in `checkout`, so a
 * paid checkout succeeds whatever the stock. The returned texts carry the
 * same tags as there.
 */
module PyQt2Logic {

  import opened Catalog
  import V = VmCorrectLogic

  class VendingMachineLogic {
    var selectedItems: seq<Item>
    var totalPrice: int
    var moneyInserted: int
    var stock: map<Item, int>

    /** The stock keeps the menu's items, the cart holds menu items only,
        and the total is the cart's price. */
    predicate Valid()
      reads this
    {
      && stock.Keys == ShortMenu.Keys
      && AllIn(selectedItems, ShortMenu.Keys)
      && totalPrice == SumPrices(ShortMenu, selectedItems)
    }

    constructor ()
      ensures Valid()
      ensures selectedItems == [] && totalPrice == 0 && moneyInserted == 0
      ensures stock == TenEach(ShortMenu)
    {
      stock := TenEach(ShortMenu);
      selectedItems, totalPrice, moneyInserted := [], 0, 0;
    }

    /** `select_item(item_name)`: appends and prices an item whose stock is
        positive; an unknown or sold-out item changes nothing. */
    method SelectItem(name: Item) returns (message: V.Msg)
      requires Valid()
      modifies this
      ensures Valid()
      ensures message.ItemAdded? <==> StockOf(old(stock), name) > 0
      ensures message.ItemAdded? ==> message == V.ItemAdded(name)
                                     && selectedItems == old(selectedItems) + [name]
                                     && totalPrice == old(totalPrice) + ShortMenu[name]
      ensures !message.ItemAdded? ==> message == V.SoldOut(name)
                                      && selectedItems == old(selectedItems) && totalPrice == old(totalPrice)
      ensures moneyInserted == old(moneyInserted) && stock == old(stock)
    {
      if StockOf(stock, name) > 0 {
        CartAppend(ShortMenu, selectedItems, name);
        selectedItems := selectedItems + [name];
        totalPrice := totalPrice + ShortMenu[name];
        return V.ItemAdded(name);
      }
      return V.SoldOut(name);
    }

    /** `insert_money(amount)`: adds any amount, whatever the cart. */
    method InsertMoney(amount: int) returns (message: V.Msg)
      requires Valid()
      modifies this
      ensures Valid()
      ensures message == V.MoneyInserted(amount)
      ensures moneyInserted == old(moneyInserted) + amount
      ensures selectedItems == old(selectedItems) && totalPrice == old(totalPrice) && stock == old(stock)
    {
      moneyInserted := moneyInserted + amount;
      return V.MoneyInserted(amount);
    }

    /** `checkout`: refuses an empty cart, then a short payment, without
        changing anything; otherwise takes one unit of stock per cart
        occurrence, returns the change and the purchased items, and clears
        the cart, the total and the money. */
    method Checkout() returns (result: V.Checkout)
      requires Valid()
      modifies this
      ensures Valid()
      ensures old(selectedItems) == [] ==> result == V.Refused(V.SelectFirst)
      ensures old(selectedItems) != [] && old(moneyInserted) < old(totalPrice) ==>
                result == V.Refused(V.MoneyShort(old(totalPrice) - old(moneyInserted)))
      ensures result.Purchased? <==> old(selectedItems) != [] && old(moneyInserted) >= old(totalPrice)
      ensures result.Purchased? ==>
                && result.change == old(moneyInserted) - old(totalPrice) >= 0
                && result.items == old(selectedItems)
                && stock == Dispensed(old(stock), old(selectedItems))
                && selectedItems == [] && totalPrice == 0 && moneyInserted == 0
      ensures result.Refused? ==>
                selectedItems == old(selectedItems) && totalPrice == old(totalPrice)
                && moneyInserted == old(moneyInserted) && stock == old(stock)
    {
      if selectedItems == [] {
        return V.Refused(V.SelectFirst);
      }
      if moneyInserted < totalPrice {
        var needed := totalPrice - moneyInserted;
        return V.Refused(V.MoneyShort(needed));
      }
      stock := DecrementEach(stock, selectedItems);
      var change := moneyInserted - totalPrice;
      var purchasedItems := selectedItems;
      moneyInserted := 0;
      selectedItems := [];
      totalPrice := 0;
      return V.Purchased(change, purchasedItems);
    }

    /** `cancel_order`: refunds all the money inserted, reporting the refund
        only when it is positive, and clears the cart, the total and the
        money; the stock stays. */
    method CancelOrder() returns (message: V.Msg)
      requires Valid()
      modifies this
      ensures Valid()
      ensures message == if old(moneyInserted) > 0 then V.OrderCancelled(old(moneyInserted)) else V.OrderCancelledNoRefund
      ensures selectedItems == [] && totalPrice == 0 && moneyInserted == 0 && stock == old(stock)
    {
      var changeToReturn := moneyInserted;
      selectedItems := [];
      totalPrice := 0;
      moneyInserted := 0;
      if changeToReturn > 0 {
        return V.OrderCancelled(changeToReturn);
      }
      return V.OrderCancelledNoRefund;
    }

    /** `take_change`: hands back the money without buying; the cart and the
        total stay. */
    method TakeChange() returns (message: V.Msg)
      requires Valid()
      modifies this
      ensures Valid()
      ensures message == if old(moneyInserted) > 0 then V.ChangeTaken(old(moneyInserted)) else V.NoChangeToTake
      ensures moneyInserted == 0
      ensures selectedItems == old(selectedItems) && totalPrice == old(totalPrice) && stock == old(stock)
    {
      var changeToReturn := moneyInserted;
      moneyInserted := 0;
      if changeToReturn > 0 {
        return V.ChangeTaken(changeToReturn);
      }
      return V.NoChangeToTake;
    }
  }

  /** With no check at checkout, a stock of one vanilla sells two and ends
      at -1, exactly as the checked variant does: the check cannot see more
      copies in the cart than in stock. */
  method Oversell() returns (left: int)
    ensures left == -1
  {
    var vm := new VendingMachineLogic();
    var s := TenEach(ShortMenu)["Vanilla" := 1];
    vm.stock := s;
    assert StockOf(s, "Vanilla") == 1;
    var msg := vm.SelectItem("Vanilla");
    assert vm.selectedItems == ["Vanilla"] && vm.totalPrice == 10000;
    msg := vm.SelectItem("Vanilla");
    assert vm.selectedItems == ["Vanilla", "Vanilla"] && vm.totalPrice == 20000;
    msg := vm.InsertMoney(20000);
    var result := vm.Checkout();
    assert multiset(["Vanilla", "Vanilla"])["Vanilla"] == 2;
    assert Dispensed(s, ["Vanilla", "Vanilla"])["Vanilla"] == -1;
    left := vm.stock["Vanilla"];
  }
}
