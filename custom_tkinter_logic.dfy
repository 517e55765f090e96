/**
 * `VendingMachineLogic` of `Experimental/VMCustomTkinter.py`: one method per
 * customer action over two states, Idle and Payment. A purchase decrements
 * the stock and returns the change but clears nothing; the GUI then calls
 * `reset_transaction`.
 */
module CustomTkinterLogic {

  import opened Catalog
  import ChangeMaking

  datatype State = Idle | Payment

  datatype Msg =
    | FinishCurrentOrder
    | ItemAdded(item: Item)
    | SoldOut(item: Item)
    | CartEmpty
    | PayTotal(total: int)
    | CheckoutFirst
    | MoneyInserted(amount: int)
    | NothingToPay
    | MoneyShort(needed: int)

  /** The dictionary `process_purchase` returns. */
  datatype Purchase = Refused(message: Msg) | Purchased(change: int, items: seq<Item>)

  class VendingMachineLogic {
    var currentState: State
    var selectedItems: seq<Item>
    var totalPrice: int
    var moneyInserted: int
    var stock: map<Item, int>

    /** The fields stay consistent: the stock keeps the menu's items, the
        total is the cart's price, money is only taken in Payment, and
        Payment is only entered with a non-empty cart. */
    predicate Valid()
      reads this
    {
      && stock.Keys == ShortMenu.Keys
      && AllIn(selectedItems, ShortMenu.Keys)
      && totalPrice == SumPrices(ShortMenu, selectedItems)
      && (currentState == Idle ==> moneyInserted == 0)
      && (currentState == Payment ==> selectedItems != [])
    }

    constructor ()
      ensures Valid()
      ensures currentState == Idle && selectedItems == [] && totalPrice == 0 && moneyInserted == 0
      ensures stock == TenEach(ShortMenu)
    {
      stock := TenEach(ShortMenu);
      currentState, selectedItems, totalPrice, moneyInserted := Idle, [], 0, 0;
    }

    /** `select_item(item_name)`: only in Idle, and only while the item is in
        stock; otherwise nothing changes. */
    method SelectItem(name: Item) returns (success: bool, message: Msg)
      requires Valid()
      modifies this
      ensures Valid()
      ensures success <==> old(currentState) == Idle && StockOf(old(stock), name) > 0
      ensures success ==> message == ItemAdded(name)
      ensures old(currentState) != Idle ==> message == FinishCurrentOrder
      ensures old(currentState) == Idle && !success ==> message == SoldOut(name)
      ensures success ==> selectedItems == old(selectedItems) + [name]
                          && totalPrice == old(totalPrice) + ShortMenu[name]
      ensures !success ==> selectedItems == old(selectedItems) && totalPrice == old(totalPrice)
      ensures currentState == old(currentState) && moneyInserted == old(moneyInserted) && stock == old(stock)
    {
      if currentState != Idle {
        return false, FinishCurrentOrder;
      }
      if StockOf(stock, name) > 0 {
        CartAppend(ShortMenu, selectedItems, name);
        selectedItems := selectedItems + [name];
        totalPrice := totalPrice + ShortMenu[name];
        return true, ItemAdded(name);
      }
      return false, SoldOut(name);
    }

    /** `go_to_payment`: fails on an empty cart, otherwise enters Payment. */
    method GoToPayment() returns (success: bool, message: Msg)
      requires Valid()
      modifies this
      ensures Valid()
      ensures success <==> old(selectedItems) != []
      ensures message == if success then PayTotal(old(totalPrice)) else CartEmpty
      ensures currentState == if success then Payment else old(currentState)
      ensures selectedItems == old(selectedItems) && totalPrice == old(totalPrice)
      ensures moneyInserted == old(moneyInserted) && stock == old(stock)
    {
      if selectedItems == [] {
        return false, CartEmpty;
      }
      currentState := Payment;
      return true, PayTotal(totalPrice);
    }

    /** `insert_money(amount)`: adds the amount in Payment only. */
    method InsertMoney(amount: int) returns (success: bool, message: Msg)
      requires Valid()
      modifies this
      ensures Valid()
      ensures success <==> old(currentState) == Payment
      ensures message == if success then MoneyInserted(amount) else CheckoutFirst
      ensures moneyInserted == if success then old(moneyInserted) + amount else old(moneyInserted)
      ensures currentState == old(currentState) && selectedItems == old(selectedItems)
      ensures totalPrice == old(totalPrice) && stock == old(stock)
    {
      if currentState != Payment {
        return false, CheckoutFirst;
      }
      moneyInserted := moneyInserted + amount;
      return true, MoneyInserted(amount);
    }

    /** `process_purchase`: in Payment with enough money, takes one unit of
        stock per cart occurrence and returns the change and a copy of the
        cart; the state, the cart and the money stay as they were, so a second
        call takes the stock again. */
    method ProcessPurchase() returns (result: Purchase)
      requires Valid()
      modifies this
      ensures Valid()
      ensures result.Purchased? <==> old(currentState) == Payment && old(moneyInserted) >= old(totalPrice)
      ensures old(currentState) != Payment ==> result == Refused(NothingToPay)
      ensures old(currentState) == Payment && old(moneyInserted) < old(totalPrice) ==>
                result == Refused(MoneyShort(old(totalPrice) - old(moneyInserted)))
      ensures result.Purchased? ==>
                result.change == old(moneyInserted) - old(totalPrice) >= 0
                && result.items == old(selectedItems)
                && stock == Dispensed(old(stock), old(selectedItems))
      ensures result.Refused? ==> stock == old(stock)
      ensures currentState == old(currentState) && selectedItems == old(selectedItems)
      ensures totalPrice == old(totalPrice) && moneyInserted == old(moneyInserted)
    {
      if currentState != Payment {
        return Refused(NothingToPay);
      }
      if moneyInserted < totalPrice {
        return Refused(MoneyShort(totalPrice - moneyInserted));
      }
      stock := DecrementEach(stock, selectedItems);
      var change := moneyInserted - totalPrice;
      var purchasedItems := selectedItems;
      return Purchased(change, purchasedItems);
    }

    /** `reset_transaction`: returns the money less the total when something
        was ordered, all the money otherwise, and starts over in Idle. */
    method ResetTransaction() returns (change: int)
      requires Valid()
      modifies this
      ensures Valid()
      ensures change == if old(totalPrice) > 0 then old(moneyInserted) - old(totalPrice) else old(moneyInserted)
      ensures currentState == Idle && selectedItems == [] && totalPrice == 0 && moneyInserted == 0
      ensures stock == old(stock)
    {
      change := if totalPrice > 0 then moneyInserted - totalPrice else moneyInserted;
      currentState := Idle;
      selectedItems := [];
      totalPrice := 0;
      moneyInserted := 0;
    }
  }

  /** `calculate_change_denominations(amount)`: the greedy breakdown over the
      notes sorted largest first. What is left over is below the smallest
      note, and nothing is handed out beyond the amount. */
  method CalculateChangeDenominations(amount: int) returns (breakdown: seq<int>)
    ensures forall i | 0 <= i < |breakdown| :: breakdown[i] in Notes
    ensures ChangeMaking.NonIncreasing(breakdown)
    ensures amount >= 0 ==> 0 <= amount - ChangeMaking.Sum(breakdown) < 2000
    ensures amount < 2000 ==> breakdown == []
    ensures breakdown == ChangeMaking.GreedyChange(amount, ChangeMaking.SortedDenominations).0
  {
    ChangeMaking.SortedDenominationsSorted();
    var remaining: int;
    ghost var counts: seq<nat>;
    ChangeMaking.SortedDenominationsAreNotes();
    breakdown, remaining, counts := ChangeMaking.Greedy(amount, ChangeMaking.SortedDenominations);
  }

  /** A double call of `process_purchase` takes the stock twice for one
      payment. */
  method DoublePurchase() returns (left: int)
    ensures left == 8
  {
    var vm := new VendingMachineLogic();
    assert StockOf(vm.stock, "Vanilla") == 10;
    var ok, msg := vm.SelectItem("Vanilla");
    assert vm.selectedItems == ["Vanilla"] && vm.totalPrice == 10000;
    ok, msg := vm.GoToPayment();
    ok, msg := vm.InsertMoney(10000);
    assert vm.currentState == Payment && vm.moneyInserted == 10000;
    DispensedSingle(vm.stock, "Vanilla");
    var first := vm.ProcessPurchase();
    assert StockOf(vm.stock, "Vanilla") == 9;
    DispensedSingle(vm.stock, "Vanilla");
    var second := vm.ProcessPurchase();
    left := vm.stock["Vanilla"];
  }

  /** Cancelling (`on_cancel` calls `reset_transaction`) after paying
      `inserted` towards a 10000 order refunds `inserted - 10000`, not the
      money inserted: 5000 paid gives -5000 (nothing is shown), 20000 paid
      gives back only 10000. */
  method CancelAfterPayment(inserted: int) returns (change: int)
    ensures change == inserted - 10000
  {
    var vm := new VendingMachineLogic();
    assert StockOf(vm.stock, "Vanilla") == 10;
    var ok, msg := vm.SelectItem("Vanilla");
    assert vm.totalPrice == 10000;
    ok, msg := vm.GoToPayment();
    ok, msg := vm.InsertMoney(inserted);
    assert vm.moneyInserted == inserted;
    change := vm.ResetTransaction();
  }
}
