/**
 * The transaction automaton of the root `vending_machine_dfa.py`, the one
 * `main.py` drives. A customer picks scoops, presses "Next", picks
 * toppings, presses "Checkout", inserts money; the next call after enough
 * money has gone in dispenses and computes the change. There is no stock.
 */
module VendingMachineDfa {

  import opened Catalog

  datatype State =
    | Idle
    | IceCreamSelection
    | ToppingSelection
    | WaitingForPayment
    | DispensingItem
    | ReturningChange

  datatype Kind = Scoop | Topping

  /** `item_types` */
  const ItemTypes: map<Item, Kind> :=
    map["Vanilla Scoop" := Scoop, "Chocolate Scoop" := Scoop, "Caramel" := Topping, "Sprinkles" := Topping]

  /** `menu_prices` */
  const MenuPrices: map<Item, int> :=
    map["Vanilla Scoop" := 10000, "Chocolate Scoop" := 10000, "Caramel" := 2000, "Sprinkles" := 2000]

  /** `item_types.get(input_symbol)`: only an item name has a kind. */
  function KindOf(input: Input): Option<Kind>
  {
    if input.Sym? && input.name in ItemTypes then Some(ItemTypes[input.name]) else None
  }

  /** The messages `delta` returns, one tag per message text; the numbers
      interpolated into the text are the tag's fields. */
  datatype Msg =
    | Silent                                          // ""
    | ScoopAdded(item: Item)                          // first scoop, state Idle
    | ChooseIceCreamFirst
    | ItemAdded(item: Item, total: int)
    | ChooseToppings
    | OrderCancelled
    | InvalidScoopInput
    | CartEmptyCancelled
    | InvalidToppingInput
    | OrderConfirmed(total: int)
    | MoneyEnough(amount: int, inserted: int)
    | MoneyShort(amount: int, inserted: int, needed: int)
    | PaymentCancelled(refund: int)
    | DispensedWithChange(items: seq<Item>, change: int)
    | DispensedNoChange(items: seq<Item>)

  /** The fields of `VendingMachineDFA` as one value. */
  datatype Machine = Machine(state: State, items: seq<Item>, total: int, money: int, change: int)

  /** What `reset` leaves. */
  const Initial := Machine(Idle, [], 0, 0, 0)

  datatype StepResult = StepResult(next: Machine, output: Msg)

  /** One call of `delta` on the machine `m`. */
  function Step(m: Machine, input: Input): (r: StepResult)
  {
    match m.state
    case Idle =>
      if KindOf(input) == Some(Scoop) then
        var x := input.name;
        StepResult(m.(items := m.items + [x], total := m.total + MenuPrices[x], state := IceCreamSelection),
                   ScoopAdded(x))
      else StepResult(m, ChooseIceCreamFirst)
    case IceCreamSelection =>
      if KindOf(input) == Some(Scoop) then
        var x := input.name;
        StepResult(m.(items := m.items + [x], total := m.total + MenuPrices[x]),
                   ItemAdded(x, m.total + MenuPrices[x]))
      else if input == Sym("Next") then StepResult(m.(state := ToppingSelection), ChooseToppings)
      else if input == Sym("Cancel") then StepResult(Initial, OrderCancelled)
      else StepResult(m, InvalidScoopInput)
    case ToppingSelection =>
      if KindOf(input) == Some(Topping) then
        var x := input.name;
        StepResult(m.(items := m.items + [x], total := m.total + MenuPrices[x]),
                   ItemAdded(x, m.total + MenuPrices[x]))
      else if input == Sym("Checkout") then
        if m.items == [] then StepResult(Initial, CartEmptyCancelled)
        else StepResult(m.(state := WaitingForPayment), OrderConfirmed(m.total))
      else if input == Sym("Cancel") then StepResult(Initial, OrderCancelled)
      else StepResult(m, InvalidToppingInput)
    case WaitingForPayment =>
      if input.Cash? then
        var money := m.money + input.amount;
        if money >= m.total then StepResult(m.(money := money, state := DispensingItem), MoneyEnough(input.amount, money))
        else StepResult(m.(money := money), MoneyShort(input.amount, money, m.total - money))
      else if input == Sym("Cancel") then
        StepResult(m.(change := m.money, state := ReturningChange), PaymentCancelled(m.money))
      else StepResult(m, Silent)
    case DispensingItem =>
      var change := m.money - m.total;
      StepResult(m.(change := change, state := ReturningChange),
                 if change > 0 then DispensedWithChange(m.items, change) else DispensedNoChange(m.items))
    case ReturningChange =>
      StepResult(m, Silent)
  }

  predicate IsScoop(x: Item)
  {
    x in ItemTypes && ItemTypes[x] == Scoop
  }

  /** What holds of every machine reachable from `reset`: the total is the
      price of the cart, the cart holds scoops and then toppings, it starts
      with a scoop once the customer has left Idle, and the money inserted is
      short of the total exactly while payment is awaited. */
  ghost predicate Inv(m: Machine)
  {
    && AllIn(m.items, ItemTypes.Keys)
    && m.total == SumPrices(MenuPrices, m.items)
    && (forall i, j | 0 <= i < j < |m.items| :: IsScoop(m.items[j]) ==> IsScoop(m.items[i]))
    && (m.state == Idle ==> m == Initial)
    && (m.state != Idle ==> m.items != [] && IsScoop(m.items[0]))
    && (m.state == IceCreamSelection ==> forall i | 0 <= i < |m.items| :: IsScoop(m.items[i]))
    && (m.state in {IceCreamSelection, ToppingSelection} ==> m.money == 0)
    && (m.state != ReturningChange ==> m.change == 0)
    && (m.state == WaitingForPayment ==> m.money < m.total)
    && (m.state == DispensingItem ==> m.money >= m.total)
  }

  lemma InitialInv()
    ensures Inv(Initial)
  {
  }

  /** Every call of `delta` keeps the invariant. */
  lemma StepPreservesInv(m: Machine, input: Input)
    requires Inv(m)
    ensures Inv(Step(m, input).next)
  {
    match m.state
    case Idle => IdleKeepsInv(m, input);
    case IceCreamSelection => IceCreamSelectionKeepsInv(m, input);
    case ToppingSelection => ToppingSelectionKeepsInv(m, input);
    case WaitingForPayment =>
    case DispensingItem =>
    case ReturningChange =>
  }

  lemma IdleKeepsInv(m: Machine, input: Input)
    requires Inv(m) && m.state == Idle
    ensures Inv(Step(m, input).next)
  {
    if KindOf(input) == Some(Scoop) {
      AppendKeepsCart([], input.name);
      assert [] + [input.name] == [input.name];
      assert Step(m, input).next == Machine(IceCreamSelection, [input.name], MenuPrices[input.name], 0, 0);
    } else {
      assert Step(m, input).next == m;
    }
  }

  lemma IceCreamSelectionKeepsInv(m: Machine, input: Input)
    requires Inv(m) && m.state == IceCreamSelection
    ensures Inv(Step(m, input).next)
  {
    if KindOf(input) == Some(Scoop) {
      var x := input.name;
      AppendKeepsCart(m.items, x);
      var n := m.(items := m.items + [x], total := m.total + MenuPrices[x]);
      assert forall i | 0 <= i < |n.items| :: IsScoop(n.items[i]) by {
        forall i | 0 <= i < |n.items| ensures IsScoop(n.items[i]) {
          if i < |m.items| { assert n.items[i] == m.items[i]; }
        }
      }
      assert Step(m, input).next == n;
    } else if input == Sym("Next") {
      assert Step(m, input).next == m.(state := ToppingSelection);
    } else if input == Sym("Cancel") {
      assert Step(m, input).next == Initial;
    } else {
      assert Step(m, input).next == m;
    }
  }

  lemma ToppingSelectionKeepsInv(m: Machine, input: Input)
    requires Inv(m) && m.state == ToppingSelection
    ensures Inv(Step(m, input).next)
  {
    if KindOf(input) == Some(Topping) {
      var x := input.name;
      AppendKeepsCart(m.items, x);
      assert Step(m, input).next == m.(items := m.items + [x], total := m.total + MenuPrices[x]);
    } else if input == Sym("Checkout") {
      assert PositivePrices(MenuPrices) && AllIn(m.items, MenuPrices.Keys);
      SumPricesPositive(MenuPrices, m.items);
      assert Step(m, input).next == m.(state := WaitingForPayment);
    } else if input == Sym("Cancel") {
      assert Step(m, input).next == Initial;
    } else {
      assert Step(m, input).next == m;
    }
  }

  /** Appending a menu item to a well-formed cart: the price sum grows by its
      price, the first item stays, and the scoops-then-toppings order survives
      when a topping is appended or the cart held only scoops. */
  lemma AppendKeepsCart(items: seq<Item>, x: Item)
    requires AllIn(items, ItemTypes.Keys) && x in ItemTypes
    requires forall i, j | 0 <= i < j < |items| :: IsScoop(items[j]) ==> IsScoop(items[i])
    ensures AllIn(items + [x], ItemTypes.Keys)
    ensures SumPrices(MenuPrices, items + [x]) == SumPrices(MenuPrices, items) + MenuPrices[x]
    ensures (items + [x])[0] == if items == [] then x else items[0]
    ensures (!IsScoop(x) || forall i | 0 <= i < |items| :: IsScoop(items[i])) ==>
              forall i, j | 0 <= i < j < |items + [x]| :: IsScoop((items + [x])[j]) ==> IsScoop((items + [x])[i])
  {
    assert ItemTypes.Keys == MenuPrices.Keys;
    CartAppend(MenuPrices, items, x);
    var n := items + [x];
    assert forall i | 0 <= i < |items| :: n[i] == items[i];
  }

  /** In Idle only a scoop is accepted; it becomes the first item of the cart. */
  lemma IdleAcceptsOnlyScoops(m: Machine, input: Input)
    requires Inv(m) && m.state == Idle
    ensures Step(m, input).next != m <==> KindOf(input) == Some(Scoop)
    ensures KindOf(input) == Some(Scoop) ==>
              Step(m, input).next == Machine(IceCreamSelection, [input.name], MenuPrices[input.name], 0, 0)
  {
  }

  /** In IceCreamSelection: a scoop is appended and priced, "Next" moves on
      without touching the cart, "Cancel" is `reset`, anything else (a
      topping in particular) changes nothing. */
  lemma IceCreamSelectionStep(m: Machine, input: Input)
    requires m.state == IceCreamSelection
    ensures var n := Step(m, input).next;
            && (KindOf(input) == Some(Scoop) ==>
                  n.items == m.items + [input.name] && n.total == m.total + MenuPrices[input.name]
                  && n.state == IceCreamSelection)
            && (input == Sym("Next") ==> n == m.(state := ToppingSelection))
            && (input == Sym("Cancel") ==> n == Initial)
            && (KindOf(input) == Some(Topping) ==> n == m)
  {
  }

  /** In ToppingSelection: only toppings are added, "Checkout" moves to
      payment (the empty-cart branch cannot be reached from `reset`),
      "Cancel" resets, anything else changes nothing. */
  lemma ToppingSelectionStep(m: Machine, input: Input)
    requires Inv(m) && m.state == ToppingSelection
    ensures var n := Step(m, input).next;
            && (KindOf(input) == Some(Topping) ==>
                  n.items == m.items + [input.name] && n.total == m.total + MenuPrices[input.name]
                  && n.state == ToppingSelection)
            && (input == Sym("Checkout") ==> n == m.(state := WaitingForPayment))
            && (input == Sym("Cancel") ==> n == Initial)
            && (KindOf(input) == Some(Scoop) ==> n == m)
  {
  }

  /** In WaitingForPayment an integer is added to the money inserted, and the
      machine moves to DispensingItem exactly when that reaches the total;
      "Cancel" returns all the money and keeps the cart; nothing else changes
      the machine. */
  lemma PaymentStep(m: Machine, input: Input)
    requires m.state == WaitingForPayment
    ensures var n := Step(m, input).next;
            && (input.Cash? ==> n.money == m.money + input.amount && n.items == m.items && n.total == m.total
                                && (n.state == DispensingItem <==> m.money + input.amount >= m.total)
                                && (n.state != DispensingItem ==> n.state == WaitingForPayment))
            && (input == Sym("Cancel") ==> n == m.(change := m.money, state := ReturningChange))
            && (!input.Cash? && input != Sym("Cancel") ==> n == m)
  {
  }

  /** The call that enters DispensingItem only records the money; the next
      call, whatever its input, computes the change, which is never negative,
      and leaves the cart as it was. */
  lemma DispenseOnNextCall(m: Machine, input: Input, next: Input)
    requires Inv(m) && m.state == WaitingForPayment
    requires Step(m, input).next.state == DispensingItem
    ensures Step(m, input).next.change == 0
    ensures var d := Step(Step(m, input).next, next).next;
            && d.state == ReturningChange
            && d.change == m.money + input.amount - m.total >= 0
            && d.items == m.items
  {
  }

  /** Once in ReturningChange the machine ignores every input; only `reset`
      leaves it. */
  lemma ReturningChangeIsFinal(m: Machine, input: Input)
    requires m.state == ReturningChange
    ensures Step(m, input) == StepResult(m, Silent)
  {
  }

  /** The outcome of a run of `delta` calls. */
  function Run(m: Machine, inputs: seq<Input>): Machine
    decreases |inputs|
  {
    if inputs == [] then m else Run(Step(m, inputs[0]).next, inputs[1..])
  }

  lemma {:induction false} RunPreservesInv(m: Machine, inputs: seq<Input>)
    requires Inv(m)
    ensures Inv(Run(m, inputs))
    decreases |inputs|
  {
    if inputs != [] {
      StepPreservesInv(m, inputs[0]);
      RunPreservesInv(Step(m, inputs[0]).next, inputs[1..]);
    }
  }

  /** The four calls that order a vanilla scoop with caramel. */
  lemma VanillaWithCaramelOrder()
    ensures var m1 := Machine(IceCreamSelection, ["Vanilla Scoop"], 10000, 0, 0);
            var m3 := Machine(ToppingSelection, ["Vanilla Scoop", "Caramel"], 12000, 0, 0);
            && Step(Initial, Sym("Vanilla Scoop")).next == m1
            && Step(m1, Sym("Next")).next == m1.(state := ToppingSelection)
            && Step(m1.(state := ToppingSelection), Sym("Caramel")).next == m3
            && Step(m3, Sym("Checkout")).next == m3.(state := WaitingForPayment)
  {
  }

  /** A vanilla scoop with caramel, paid with a 20000 note: 8000 change. */
  lemma VanillaWithCaramel()
    ensures Run(Initial, [Sym("Vanilla Scoop"), Sym("Next"), Sym("Caramel"), Sym("Checkout"), Cash(20000), Nothing])
            == Machine(ReturningChange, ["Vanilla Scoop", "Caramel"], 12000, 20000, 8000)
  {
    VanillaWithCaramelOrder();
    var m4 := Machine(WaitingForPayment, ["Vanilla Scoop", "Caramel"], 12000, 0, 0);
    var m5 := Machine(DispensingItem, ["Vanilla Scoop", "Caramel"], 12000, 20000, 0);
    assert Step(m4, Cash(20000)).next == m5;
    assert Step(m5, Nothing).next == m5.(state := ReturningChange, change := 8000);
  }

  /** The class `VendingMachineDFA`. */
  class VendingMachineDFA {
    var currentState: State
    var selectedItems: seq<Item>
    var totalPrice: int
    var moneyInserted: int
    var changeToReturn: int

    function Snapshot(): Machine
      reads this
    {
      Machine(currentState, selectedItems, totalPrice, moneyInserted, changeToReturn)
    }

    constructor ()
      ensures Snapshot() == Initial
    {
      currentState, selectedItems, totalPrice, moneyInserted, changeToReturn := Idle, [], 0, 0, 0;
    }

    /** `reset` */
    method Reset()
      modifies this
      ensures Snapshot() == Initial
    {
      currentState := Idle;
      selectedItems := [];
      totalPrice := 0;
      moneyInserted := 0;
      changeToReturn := 0;
    }

    /** `delta(input_symbol)` */
    method Delta(input: Input) returns (output: Msg)
      modifies this
      ensures StepResult(Snapshot(), output) == Step(old(Snapshot()), input)
      ensures Inv(old(Snapshot())) ==> Inv(Snapshot())
    {
      ghost var before := Snapshot();
      var state := currentState;
      output := Silent;
      if state == Idle || state == IceCreamSelection {
        output := ScoopDelta(input);
      } else if state == ToppingSelection {
        output := ToppingDelta(input);
      } else if state == WaitingForPayment {
        output := PaymentDelta(input);
      }

      if state == DispensingItem {
        changeToReturn := moneyInserted - totalPrice;
        currentState := ReturningChange;
        if changeToReturn > 0 {
          output := DispensedWithChange(selectedItems, changeToReturn);
        } else {
          output := DispensedNoChange(selectedItems);
        }
      }
      if Inv(before) {
        StepPreservesInv(before, input);
      }
    }

    /** The branches of `delta` for Idle and IceCreamSelection. */
    method ScoopDelta(input: Input) returns (output: Msg)
      requires currentState == Idle || currentState == IceCreamSelection
      modifies this
      ensures StepResult(Snapshot(), output) == Step(old(Snapshot()), input)
    {
      if currentState == Idle {
        if KindOf(input) == Some(Scoop) {
          selectedItems := selectedItems + [input.name];
          totalPrice := totalPrice + MenuPrices[input.name];
          currentState := IceCreamSelection;
          output := ScoopAdded(input.name);
        } else {
          output := ChooseIceCreamFirst;
        }
      } else {
        if KindOf(input) == Some(Scoop) {
          selectedItems := selectedItems + [input.name];
          totalPrice := totalPrice + MenuPrices[input.name];
          output := ItemAdded(input.name, totalPrice);
        } else if input == Sym("Next") {
          currentState := ToppingSelection;
          output := ChooseToppings;
        } else if input == Sym("Cancel") {
          output := OrderCancelled;
          Reset();
        } else {
          output := InvalidScoopInput;
        }
      }
    }

    /** The branch of `delta` for ToppingSelection. */
    method ToppingDelta(input: Input) returns (output: Msg)
      requires currentState == ToppingSelection
      modifies this
      ensures StepResult(Snapshot(), output) == Step(old(Snapshot()), input)
    {
      if KindOf(input) == Some(Topping) {
        selectedItems := selectedItems + [input.name];
        totalPrice := totalPrice + MenuPrices[input.name];
        output := ItemAdded(input.name, totalPrice);
      } else if input == Sym("Checkout") {
        if selectedItems == [] {
          output := CartEmptyCancelled;
          Reset();
        } else {
          currentState := WaitingForPayment;
          output := OrderConfirmed(totalPrice);
        }
      } else if input == Sym("Cancel") {
        output := OrderCancelled;
        Reset();
      } else {
        output := InvalidToppingInput;
      }
    }

    /** The branch of `delta` for WaitingForPayment. */
    method PaymentDelta(input: Input) returns (output: Msg)
      requires currentState == WaitingForPayment
      modifies this
      ensures StepResult(Snapshot(), output) == Step(old(Snapshot()), input)
    {
      output := Silent;
      if input.Cash? {
        moneyInserted := moneyInserted + input.amount;
        if moneyInserted >= totalPrice {
          currentState := DispensingItem;
          output := MoneyEnough(input.amount, moneyInserted);
        } else {
          output := MoneyShort(input.amount, moneyInserted, totalPrice - moneyInserted);
        }
      } else if input == Sym("Cancel") {
        changeToReturn := moneyInserted;
        currentState := ReturningChange;
        output := PaymentCancelled(changeToReturn);
      }
    }
  }
}
