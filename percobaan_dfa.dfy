/**
 * The automaton class `VendingMachineDFA` of `old2/percobaanGUI.py`, which
 * `old2/percobaanGUI2.py` repeats line for line. The cart is a dictionary
 * from item to count, selection checks the stock, and the call that
 * completes or cancels the payment dispenses (subtracting the counts from
 * the stock) and settles the money at once. Settling zeroes the money and
 * returns to Idle but leaves the cart and the total in place: the GUI clears
 * those fields itself.
 */
module PercobaanDfa {

  import opened Catalog

  datatype State = Idle | WaitingForSelection | WaitingForPayment | DispensingItem | ReturningChange

  /** `item_stocks` as `__init__` sets it. */
  const InitialStock: map<Item, int> := map["Vanilla" := 10, "Chocolate" := 9, "Caramel" := 10, "Sprinkles" := 10]

  /** The keys of `menu_prices`, in the dictionary's order. */
  const MenuKeys: seq<Item> := ["Vanilla", "Chocolate", "Caramel", "Sprinkles"]

  /** The lines of the text `delta` returns, as tags. */
  datatype Msg =
    | ItemAdded(item: Item, total: int)
    | SoldOut(item: Item)
    | OrderConfirmed(total: int)
    | OrderCancelled
    | SelectFirst
    | InvalidChoice
    | MoneyReceived(amount: int, inserted: int)
    | StillShort(needed: int)
    | PaymentEnough
    | PaymentCancelled
    | InvalidPayment
    | PleaseWait
    | Dispensing(counts: map<Item, int>)
    | ChangeReturned(change: int)
    | NoChangeDone
    | Done

  datatype Machine = Machine(state: State, counts: map<Item, int>, total: int, money: int, stock: map<Item, int>)

  /** What `reset` leaves: the stock is not part of the transaction. */
  function Cleared(m: Machine): Machine
  {
    Machine(Idle, map[], 0, 0, m.stock)
  }

  const Initial := Machine(Idle, map[], 0, 0, InitialStock)

  datatype StepResult = StepResult(next: Machine, output: seq<Msg>)

  /** The price of a count dictionary, summed over `keys`. */
  function CartTotal(counts: map<Item, int>, keys: seq<Item>): int
  {
    if keys == [] then 0 else CountOf(counts, keys[0]) * PriceOf(ShortMenu, keys[0]) + CartTotal(counts, keys[1..])
  }

  /** Changing the count of an item that is not among `keys` leaves the sum alone. */
  lemma {:induction false} CartTotalOther(counts: map<Item, int>, keys: seq<Item>, x: Item, c: int)
    requires x !in keys
    ensures CartTotal(counts[x := c], keys) == CartTotal(counts, keys)
  {
    if keys != [] {
      CartTotalOther(counts, keys[1..], x, c);
    }
  }

  /** Adding one copy of a listed item adds its price once:
      `selected_items[item] = selected_items.get(item, 0) + 1` together with
      `total_price += menu_prices[item]` keeps the total. */
  lemma {:induction false} CartTotalIncrement(counts: map<Item, int>, keys: seq<Item>, x: Item)
    requires x in keys
    requires forall i, j | 0 <= i < j < |keys| :: keys[i] != keys[j]
    ensures CartTotal(counts[x := CountOf(counts, x) + 1], keys) == CartTotal(counts, keys) + PriceOf(ShortMenu, x)
  {
    if keys[0] == x {
      assert x !in keys[1..];
      CartTotalOther(counts, keys[1..], x, CountOf(counts, x) + 1);
    } else {
      CartTotalIncrement(counts, keys[1..], x);
    }
  }

  /** A non-empty cart of listed items costs something. */
  lemma {:induction false} CartTotalPositive(counts: map<Item, int>, keys: seq<Item>)
    requires forall k | k in counts :: counts[k] >= 1
    requires PositivePrices(ShortMenu) && forall i | 0 <= i < |keys| :: keys[i] in ShortMenu
    ensures CartTotal(counts, keys) >= 0
    ensures (exists k | k in counts :: k in keys) ==> CartTotal(counts, keys) > 0
  {
    if keys != [] {
      CartTotalPositive(counts, keys[1..]);
      if keys[0] in counts {
        assert CountOf(counts, keys[0]) * PriceOf(ShortMenu, keys[0]) > 0;
      } else {
        assert forall k | k in counts && k in keys :: k in keys[1..];
      }
    }
  }

  /** `trigger_internal_transition(internal_symbol)` */
  function Internal(m: Machine, symbol: string): StepResult
    decreases if symbol == "_dispense_" then 1 else 0
  {
    if symbol == "_dispense_" then
      var r := Internal(m.(stock := Subtracted(m.stock, m.counts), state := ReturningChange), "_return_money_");
      StepResult(r.next, [Dispensing(m.counts)] + r.output)
    else if symbol == "_return_money_" then
      var change :=
        if m.state == ReturningChange && m.counts == map[] && m.total == 0 then m.money else m.money - m.total;
      StepResult(m.(money := 0, state := Idle),
                 if change > 0 then [ChangeReturned(change)]
                 else if change == 0 && m.state == ReturningChange then [NoChangeDone]
                 else if m.state == ReturningChange then [Done]
                 else [])
    else StepResult(m, [])
  }

  /** One call of `delta`. */
  function Step(m: Machine, input: Input): StepResult
  {
    match m.state
    case Idle => SelectionStep(m, input)
    case WaitingForSelection => SelectionStep(m, input)
    case WaitingForPayment =>
      if input.Cash? && input.amount in Notes then
        var money := m.money + input.amount;
        if money >= m.total then
          var r := Internal(m.(money := money, state := DispensingItem), "_dispense_");
          StepResult(r.next, [MoneyReceived(input.amount, money), PaymentEnough] + r.output)
        else StepResult(m.(money := money), [MoneyReceived(input.amount, money), StillShort(m.total - money)])
      else if input == Sym("Cancel") then
        var r := Internal(m.(state := ReturningChange), "_return_money_");
        StepResult(r.next, [PaymentCancelled] + r.output)
      else StepResult(m, [InvalidPayment])
    case DispensingItem => StepResult(m, [PleaseWait])
    case ReturningChange => StepResult(m, [PleaseWait])
  }

  /** `delta` in Idle or WaitingForSelection. The refund message of the
      internal transition is dropped here. */
  function SelectionStep(m: Machine, input: Input): StepResult
  {
    if input.Sym? && input.name in ShortMenu then
      var x := input.name;
      if StockOf(m.stock, x) > 0 then
        StepResult(m.(counts := m.counts[x := CountOf(m.counts, x) + 1], total := m.total + ShortMenu[x],
                      state := WaitingForSelection),
                   [ItemAdded(x, m.total + ShortMenu[x])])
      else StepResult(m, [SoldOut(x)])
    else if input == Sym("Checkout") && m.counts != map[] then
      StepResult(m.(state := WaitingForPayment), [OrderConfirmed(m.total)])
    else if input == Sym("Cancel") then
      StepResult(Internal(m, "_return_money_").next, [OrderCancelled])
    else if input.Cash? then StepResult(m, [SelectFirst])
    else StepResult(m, [InvalidChoice])
  }

  /** What holds between calls, starting from `__init__`: the stock keeps the
      menu's items, the cart counts listed items at least once each, the total
      is the cart's price, money is held only while payment is awaited and is
      then short of the total, and the internal states are never visible. */
  ghost predicate Inv(m: Machine)
  {
    && m.stock.Keys == ShortMenu.Keys
    && m.counts.Keys <= ShortMenu.Keys
    && (forall k | k in m.counts :: m.counts[k] >= 1)
    && m.total == CartTotal(m.counts, MenuKeys)
    && (m.state != WaitingForPayment ==> m.money == 0)
    && (m.state != Idle ==> m.counts != map[])
    && (m.state == WaitingForPayment ==> 0 <= m.money < m.total)
    && m.state !in {DispensingItem, ReturningChange}
  }

  lemma InitialInv()
    ensures Inv(Initial)
  {
  }

  lemma StepPreservesInv(m: Machine, input: Input)
    requires Inv(m)
    ensures Inv(Step(m, input).next)
  {
    match m.state
    case Idle => SelectionPreservesInv(m, input);
    case WaitingForSelection => SelectionPreservesInv(m, input);
    case WaitingForPayment => PaymentPreservesInv(m, input);
    case DispensingItem =>
    case ReturningChange =>
  }

  lemma SelectionPreservesInv(m: Machine, input: Input)
    requires Inv(m) && (m.state == Idle || m.state == WaitingForSelection)
    ensures Inv(SelectionStep(m, input).next)
  {
    var n := SelectionStep(m, input).next;
    if input.Sym? && input.name in ShortMenu && StockOf(m.stock, input.name) > 0 {
      AddItemPreservesInv(m, input.name);
    } else if input.Sym? && input.name in ShortMenu {
      assert n == m;
    } else if input == Sym("Checkout") && m.counts != map[] {
      assert PositivePrices(ShortMenu) && forall i | 0 <= i < |MenuKeys| :: MenuKeys[i] in ShortMenu;
      var k :| k in m.counts;
      assert k in MenuKeys;
      CartTotalPositive(m.counts, MenuKeys);
      assert n == m.(state := WaitingForPayment);
    } else if input == Sym("Cancel") {
      assert n == m.(money := 0, state := Idle);
    } else {
      assert n == m;
    }
  }

  /** Selecting an item in stock keeps the invariant. */
  lemma AddItemPreservesInv(m: Machine, x: Item)
    requires Inv(m) && (m.state == Idle || m.state == WaitingForSelection)
    requires x in ShortMenu && StockOf(m.stock, x) > 0
    ensures Inv(SelectionStep(m, Sym(x)).next)
  {
    var c := m.counts[x := CountOf(m.counts, x) + 1];
    CartTotalIncrement(m.counts, MenuKeys, x);
    assert forall k | k in c :: c[k] >= 1;
    assert c.Keys <= ShortMenu.Keys;
    var n := m.(counts := c, total := m.total + ShortMenu[x], state := WaitingForSelection);
    assert SelectionStep(m, Sym(x)).next == n;
    assert x in n.counts;
  }

  lemma PaymentPreservesInv(m: Machine, input: Input)
    requires Inv(m) && m.state == WaitingForPayment
    ensures Inv(Step(m, input).next)
  {
    var n := Step(m, input).next;
    if input.Cash? && input.amount in Notes {
      var money := m.money + input.amount;
      if money >= m.total {
        assert n == m.(stock := Subtracted(m.stock, m.counts), money := 0, state := Idle);
      } else {
        assert n == m.(money := money);
      }
    } else if input == Sym("Cancel") {
      assert n == m.(money := 0, state := Idle);
    } else {
      assert n == m;
    }
  }

  /** In the selection states a menu item in stock gets one more copy in the
      cart and its price added; one out of stock changes nothing; "Checkout"
      moves to payment exactly on a non-empty cart; money and any other input
      change nothing. "Cancel" returns to Idle with the money at 0 but keeps
      the cart and the total. */
  lemma SelectionSpec(m: Machine, input: Input)
    requires m.state in {Idle, WaitingForSelection}
    ensures var n := Step(m, input).next;
            && (input.Sym? && input.name in ShortMenu && StockOf(m.stock, input.name) > 0 ==>
                  n == m.(counts := m.counts[input.name := CountOf(m.counts, input.name) + 1],
                          total := m.total + ShortMenu[input.name], state := WaitingForSelection))
            && (input.Sym? && input.name in ShortMenu && StockOf(m.stock, input.name) <= 0 ==> n == m)
            && (n.state == WaitingForPayment <==> input == Sym("Checkout") && m.counts != map[])
            && (input.Cash? ==> n == m)
            && (input == Sym("Cancel") ==> n == m.(money := 0, state := Idle))
            && n.stock == m.stock
  {
  }

  /** In WaitingForPayment only a listed bank note is accumulated; short of
      the total the machine keeps waiting. Reaching it subtracts every count
      from the stock, reports any excess as change, zeroes the money and
      returns to Idle, keeping the cart and the total. */
  lemma PaymentSpec(m: Machine, input: Input)
    requires Inv(m) && m.state == WaitingForPayment
    ensures var r := Step(m, input);
            var money := m.money + (if input.Cash? then input.amount else 0);
            && (input.Cash? && input.amount in Notes && money < m.total ==> r.next == m.(money := money))
            && (input.Cash? && input.amount in Notes && money >= m.total ==>
                  r.next == m.(stock := Subtracted(m.stock, m.counts), money := 0, state := Idle)
                  && r.output == [MoneyReceived(input.amount, money), PaymentEnough, Dispensing(m.counts)]
                                 + (if money > m.total then [ChangeReturned(money - m.total)] else [NoChangeDone]))
            && (!(input.Cash? && input.amount in Notes) && input != Sym("Cancel") ==>
                  r == StepResult(m, [InvalidPayment]))
  {
  }

  /** "Cancel" during payment leaves the stock alone, zeroes the money and
      returns to Idle, and reports no refund at all: the money inserted is
      short of the total, so the computed change is negative. */
  lemma CancelPaymentSpec(m: Machine)
    requires Inv(m) && m.state == WaitingForPayment
    ensures Step(m, Sym("Cancel")) == StepResult(m.(money := 0, state := Idle), [PaymentCancelled, Done])
  {
  }

  /** In the internal states every input is answered "Mohon tunggu" and
      changes nothing. */
  lemma BusyStatesIgnoreInput(m: Machine, input: Input)
    requires m.state in {DispensingItem, ReturningChange}
    ensures Step(m, input) == StepResult(m, [PleaseWait])
  {
  }

  /** Dispensing keeps the stock non-negative when every count is covered. */
  lemma StockStaysNonNegative(m: Machine, input: Input)
    requires NonNegative(m.stock) && forall k | k in m.stock :: CountOf(m.counts, k) <= m.stock[k]
    ensures NonNegative(Step(m, input).next.stock)
  {
  }

  function Run(m: Machine, inputs: seq<Input>): Machine
    decreases |inputs|
  {
    if inputs == [] then m else Run(Step(m, inputs[0]).next, inputs[1..])
  }

  /** The tenth chocolate scoop is accepted while nine are in stock, and the
      order is confirmed. */
  lemma OversellOrder()
    ensures var m := Initial.(counts := map["Chocolate" := 10], total := 100000, state := WaitingForSelection);
            && Step(Initial.(counts := map["Chocolate" := 9], total := 90000, state := WaitingForSelection),
                    Sym("Chocolate")).next == m
            && Step(m, Sym("Checkout")).next == m.(state := WaitingForPayment)
  {
    var c := map["Chocolate" := 9];
    var m0 := Initial.(counts := c, total := 90000, state := WaitingForSelection);
    assert StockOf(m0.stock, "Chocolate") == 9;
    assert CountOf(c, "Chocolate") == 9;
    assert c["Chocolate" := 10] == map["Chocolate" := 10];
    assert SelectionStep(m0, Sym("Chocolate")).next
           == m0.(counts := c["Chocolate" := 10], total := 100000, state := WaitingForSelection);
  }

  /** Four 20000 notes are short of the total of 100000. */
  lemma OversellShortPayments()
    ensures var p := Initial.(counts := map["Chocolate" := 10], total := 100000, state := WaitingForPayment);
            && Step(p, Cash(20000)).next == p.(money := 20000)
            && Step(p.(money := 20000), Cash(20000)).next == p.(money := 40000)
            && Step(p.(money := 40000), Cash(20000)).next == p.(money := 60000)
            && Step(p.(money := 60000), Cash(20000)).next == p.(money := 80000)
  {
  }

  /** The fifth note completes the payment and dispenses the ten scoops. */
  lemma OversellLastPayment()
    ensures var p := Initial.(counts := map["Chocolate" := 10], total := 100000, state := WaitingForPayment);
            StockOf(Step(p.(money := 80000), Cash(20000)).next.stock, "Chocolate") == -1
  {
    var p := Initial.(counts := map["Chocolate" := 10], total := 100000, state := WaitingForPayment);
    assert Step(p.(money := 80000), Cash(20000)).next.stock == Subtracted(InitialStock, map["Chocolate" := 10]);
  }

  /** The nine chocolate scoops of the initial stock can be oversold: with
      nine already in the cart, a tenth is accepted, because selection checks
      the stock without reserving it, and paying leaves the stock at -1. */
  lemma Oversell()
    ensures StockOf(Run(Initial.(counts := map["Chocolate" := 9], total := 90000, state := WaitingForSelection),
                        [Sym("Chocolate"), Sym("Checkout"), Cash(20000), Cash(20000), Cash(20000), Cash(20000),
                         Cash(20000)]).stock, "Chocolate") == -1
  {
    OversellOrder();
    OversellShortPayments();
    OversellLastPayment();
  }

  /** The class `VendingMachineDFA`. */
  class VendingMachineDFA {
    var currentState: State
    var selectedItems: map<Item, int>
    var totalPrice: int
    var moneyInserted: int
    var itemStocks: map<Item, int>

    function Snapshot(): Machine
      reads this
    {
      Machine(currentState, selectedItems, totalPrice, moneyInserted, itemStocks)
    }

    constructor ()
      ensures Snapshot() == Initial
    {
      itemStocks := InitialStock;
      currentState, selectedItems, totalPrice, moneyInserted := Idle, map[], 0, 0;
    }

    /** `reset` */
    method Reset()
      modifies this
      ensures Snapshot() == Cleared(old(Snapshot()))
    {
      currentState := Idle;
      selectedItems := map[];
      totalPrice := 0;
      moneyInserted := 0;
    }

    /** `trigger_internal_transition(internal_symbol)` */
    method TriggerInternalTransition(symbol: string) returns (output: seq<Msg>)
      modifies this
      ensures StepResult(Snapshot(), output) == Internal(old(Snapshot()), symbol)
      decreases if symbol == "_dispense_" then 1 else 0
    {
      output := [];
      if symbol == "_dispense_" {
        itemStocks := SubtractCounts(itemStocks, selectedItems);
        output := [Dispensing(selectedItems)];
        currentState := ReturningChange;
        var rest := TriggerInternalTransition("_return_money_");
        output := output + rest;
      } else if symbol == "_return_money_" {
        var change := moneyInserted - totalPrice;
        if currentState == ReturningChange && selectedItems == map[] && totalPrice == 0 {
          change := moneyInserted;
        }
        moneyInserted := 0;
        if change > 0 {
          output := [ChangeReturned(change)];
        } else if change == 0 && currentState == ReturningChange {
          output := [NoChangeDone];
        } else if currentState == ReturningChange {
          output := [Done];
        }
        currentState := Idle;
      }
    }

    /** `delta(input_symbol)` */
    method Delta(input: Input) returns (output: seq<Msg>)
      modifies this
      ensures StepResult(Snapshot(), output) == Step(old(Snapshot()), input)
      ensures Inv(old(Snapshot())) ==> Inv(Snapshot())
    {
      ghost var before := Snapshot();
      var state := currentState;
      if state == Idle || state == WaitingForSelection {
        output := SelectionDelta(input);
      } else if state == WaitingForPayment {
        output := PaymentDelta(input);
      } else {
        output := [PleaseWait];
      }
      if Inv(before) {
        StepPreservesInv(before, input);
      }
    }

    /** The branch of `delta` for Idle and WaitingForSelection. */
    method SelectionDelta(input: Input) returns (output: seq<Msg>)
      requires currentState == Idle || currentState == WaitingForSelection
      modifies this
      ensures StepResult(Snapshot(), output) == SelectionStep(old(Snapshot()), input)
    {
      if input.Sym? && input.name in ShortMenu {
        var item := input.name;
        if StockOf(itemStocks, item) > 0 {
          selectedItems := selectedItems[item := CountOf(selectedItems, item) + 1];
          totalPrice := totalPrice + ShortMenu[item];
          currentState := WaitingForSelection;
          output := [ItemAdded(item, totalPrice)];
        } else {
          output := [SoldOut(item)];
        }
      } else if input == Sym("Checkout") && selectedItems != map[] {
        currentState := WaitingForPayment;
        output := [OrderConfirmed(totalPrice)];
      } else if input == Sym("Cancel") {
        output := [OrderCancelled];
        var _ := TriggerInternalTransition("_return_money_");
      } else if input.Cash? {
        output := [SelectFirst];
      } else {
        output := [InvalidChoice];
      }
    }

    /** The branch of `delta` for WaitingForPayment. */
    method PaymentDelta(input: Input) returns (output: seq<Msg>)
      requires currentState == WaitingForPayment
      modifies this
      ensures StepResult(Snapshot(), output) == Step(old(Snapshot()), input)
    {
      if input.Cash? && input.amount in Notes {
        moneyInserted := moneyInserted + input.amount;
        output := [MoneyReceived(input.amount, moneyInserted)];
        if moneyInserted >= totalPrice {
          currentState := DispensingItem;
          output := output + [PaymentEnough];
          var rest := TriggerInternalTransition("_dispense_");
          output := output + rest;
        } else {
          output := output + [StillShort(totalPrice - moneyInserted)];
        }
      } else if input == Sym("Cancel") {
        currentState := ReturningChange;
        output := [PaymentCancelled];
        var rest := TriggerInternalTransition("_return_money_");
        output := output + rest;
      } else {
        output := [InvalidPayment];
      }
    }
  }
}
