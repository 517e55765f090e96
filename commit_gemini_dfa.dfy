/**
 * The transaction automaton of `commit-gemini-2/vending_machine_dfa.py`:
 * any menu item may be picked while it is in stock, the cart is paid with
 * bank notes, and a `None` input sent while DispensingItem hands out the
 * cart, decrements the stock and computes the change.
 */
module CommitGeminiDfa {

  import opened Catalog

  datatype State =
    | Idle
    | WaitingForSelection
    | WaitingForPayment
    | DispensingItem
    | ReturningChange
    | TransactionComplete

  /** The messages of `delta`, as tags carrying the numbers they show. */
  datatype Msg =
    | InvalidAction                                  // the default message
    | ItemAdded(item: Item, total: int)
    | SoldOut(item: Item)
    | OrderConfirmed(total: int)
    | OrderCancelled
    | CheckoutFirst
    | CartEmpty
    | MoneyReceived(amount: int, inserted: int, needed: int)
    | PaymentEnough
    | PaymentCancelled(refund: int)
    | FinishPaymentFirst
    | DispensedWithChange(items: seq<Item>, change: int)
    | DispensedOnly(items: seq<Item>)

  datatype Machine = Machine(state: State, items: seq<Item>, total: int, money: int, change: int,
                             stock: map<Item, int>)

  /** What `reset` leaves: a fresh transaction over the same stock. */
  function Cleared(m: Machine): (r: Machine)
  {
    Machine(Idle, [], 0, 0, 0, m.stock)
  }

  const Initial := Machine(Idle, [], 0, 0, 0, TenEach(CompactMenu))

  datatype StepResult = StepResult(next: Machine, output: Msg)

  predicate IsMenuItem(input: Input)
  {
    input.Sym? && input.name in CompactMenu
  }

  predicate IsNote(input: Input)
  {
    input.Cash? && input.amount in Notes
  }

  /** `delta` in Idle or WaitingForSelection. */
  function SelectionStep(m: Machine, input: Input): StepResult
  {
    if IsMenuItem(input) then
      var x := input.name;
      if StockOf(m.stock, x) > 0 then
        StepResult(m.(items := m.items + [x], total := m.total + CompactMenu[x], state := WaitingForSelection),
                   ItemAdded(x, m.total + CompactMenu[x]))
      else StepResult(m, SoldOut(x))
    else if input == Sym("Checkout") && m.items != [] then
      StepResult(m.(state := WaitingForPayment), OrderConfirmed(m.total))
    else if input == Sym("Cancel") then StepResult(Cleared(m), OrderCancelled)
    else if IsNote(input) then StepResult(m, CheckoutFirst)
    else if input == Sym("Checkout") then StepResult(m, CartEmpty)
    else StepResult(m, InvalidAction)
  }

  /** One call of `delta`. */
  function Step(m: Machine, input: Input): StepResult
  {
    match m.state
    case Idle => SelectionStep(m, input)
    case WaitingForSelection => SelectionStep(m, input)
    case WaitingForPayment =>
      if IsNote(input) then
        var money := m.money + input.amount;
        if money >= m.total then StepResult(m.(money := money, state := DispensingItem), PaymentEnough)
        else StepResult(m.(money := money), MoneyReceived(input.amount, money, m.total - money))
      else if input == Sym("Cancel") then
        StepResult(m.(change := m.money, state := TransactionComplete), PaymentCancelled(m.money))
      else if IsMenuItem(input) then StepResult(m, FinishPaymentFirst)
      else StepResult(m, InvalidAction)
    case DispensingItem =>
      if input == Nothing then
        var change := m.money - m.total;
        StepResult(m.(stock := Dispensed(m.stock, m.items), change := change, state := TransactionComplete),
                   if change >= 0 then DispensedWithChange(m.items, change) else DispensedOnly(m.items))
      else StepResult(m, InvalidAction)
    case ReturningChange => StepResult(m, InvalidAction)
    case TransactionComplete => StepResult(m, InvalidAction)
  }

  /** What holds of every machine reachable from the constructor: the menu
      and the stock have the same items, the total is the price of the cart,
      the cart is empty exactly in Idle, and the money is short of the total
      exactly while payment is awaited. */
  ghost predicate Inv(m: Machine)
  {
    && m.stock.Keys == CompactMenu.Keys
    && AllIn(m.items, CompactMenu.Keys)
    && m.total == SumPrices(CompactMenu, m.items)
    && (m.state == Idle ==> m == Cleared(m))
    && (m.state != Idle ==> m.items != [])
    && (m.state == WaitingForSelection ==> m.money == 0 && m.change == 0)
    && (m.state == WaitingForPayment ==> m.money < m.total && m.change == 0)
    && (m.state == DispensingItem ==> m.money >= m.total && m.change == 0)
    && m.state != ReturningChange
  }

  lemma InitialInv()
    ensures Inv(Initial)
  {
  }

  lemma StepPreservesInv(m: Machine, input: Input)
    requires Inv(m)
    ensures Inv(Step(m, input).next)
  {
    match m.state
    case Idle => SelectionPreservesInv(m, input);
    case WaitingForSelection => SelectionPreservesInv(m, input);
    case WaitingForPayment =>
    case DispensingItem =>
    case ReturningChange =>
    case TransactionComplete =>
  }

  lemma SelectionPreservesInv(m: Machine, input: Input)
    requires Inv(m) && (m.state == Idle || m.state == WaitingForSelection)
    ensures Inv(SelectionStep(m, input).next)
  {
    var n := SelectionStep(m, input).next;
    if IsMenuItem(input) && StockOf(m.stock, input.name) > 0 {
      var x := input.name;
      CartAppend(CompactMenu, m.items, x);
      assert m.money == 0 && m.change == 0;
      assert n == m.(items := m.items + [x], total := m.total + CompactMenu[x], state := WaitingForSelection);
    } else if input == Sym("Checkout") && m.items != [] {
      assert PositivePrices(CompactMenu);
      SumPricesPositive(CompactMenu, m.items);
      assert n == m.(state := WaitingForPayment);
    } else if input == Sym("Cancel") && !IsMenuItem(input) {
      assert n == Cleared(m);
    } else {
      assert n == m;
    }
  }

  /** In the selection states a menu item in stock is appended and priced,
      one out of stock changes nothing; "Checkout" succeeds exactly on a
      non-empty cart; "Cancel" resets; money and everything else change
      nothing. */
  lemma SelectionSpec(m: Machine, input: Input)
    requires m.state in {Idle, WaitingForSelection}
    ensures var n := Step(m, input).next;
            && (IsMenuItem(input) && StockOf(m.stock, input.name) > 0 ==>
                  n == m.(items := m.items + [input.name], total := m.total + CompactMenu[input.name],
                          state := WaitingForSelection))
            && (n.state == WaitingForPayment <==> input == Sym("Checkout") && m.items != [])
            && (input == Sym("Cancel") ==> n == Cleared(m))
            && (n != m <==> (IsMenuItem(input) && StockOf(m.stock, input.name) > 0)
                            || (input == Sym("Checkout") && m.items != [])
                            || (input == Sym("Cancel") && m != Cleared(m)))
  {
  }

  /** In WaitingForPayment only a bank note is accumulated, and reaching the
      total moves to DispensingItem, while a short payment keeps waiting;
      "Cancel" refunds all the money without
      touching the stock; nothing else changes the machine. */
  lemma PaymentSpec(m: Machine, input: Input)
    requires m.state == WaitingForPayment
    ensures var n := Step(m, input).next;
            && (IsNote(input) ==> n.money == m.money + input.amount
                                  && (n.state == DispensingItem <==> n.money >= m.total)
                                  && (n.state != DispensingItem ==> n.state == WaitingForPayment)
                                  && n == m.(money := n.money, state := n.state))
            && (input == Sym("Cancel") ==> n == m.(change := m.money, state := TransactionComplete))
            && (!IsNote(input) && input != Sym("Cancel") ==> n == m)
  {
  }

  /** The stock changes only in the dispense step, which is a `None` input in
      DispensingItem; that step takes one unit per cart occurrence and sets
      the change to the money inserted minus the total, which the invariant
      keeps non-negative. */
  lemma DispenseSpec(m: Machine, input: Input)
    requires Inv(m)
    ensures var n := Step(m, input).next;
            && (n.stock != m.stock ==> m.state == DispensingItem && input == Nothing)
            && (m.state == DispensingItem && input == Nothing ==>
                  n.stock == Dispensed(m.stock, m.items) && n.change == m.money - m.total >= 0
                  && n.state == TransactionComplete && n.items == m.items)
  {
    if m.state == Idle || m.state == WaitingForSelection {
      assert Step(m, input).next.stock == SelectionStep(m, input).next.stock == m.stock;
    }
  }

  /** The stock stays non-negative on every step when the cart never holds
      more copies of an item than are in stock. */
  lemma StockStaysNonNegative(m: Machine, input: Input)
    requires NonNegative(m.stock) && Covers(m.stock, m.items)
    ensures NonNegative(Step(m, input).next.stock)
  {
    DispensedNonNegative(m.stock, m.items);
  }

  function Run(m: Machine, inputs: seq<Input>): Machine
    decreases |inputs|
  {
    if inputs == [] then m else Run(Step(m, inputs[0]).next, inputs[1..])
  }

  /** The three calls that put two vanilla scoops in the cart, against a
      stock of one, and confirm the order. */
  lemma OversellOrder()
    ensures var s := map["VanillaScoop" := 1, "ChocolateScoop" := 10, "CaramelTopping" := 10, "SprinklesTopping" := 10];
            var m1 := Machine(WaitingForSelection, ["VanillaScoop"], 10000, 0, 0, s);
            var m2 := Machine(WaitingForSelection, ["VanillaScoop", "VanillaScoop"], 20000, 0, 0, s);
            && Step(Initial.(stock := s), Sym("VanillaScoop")).next == m1
            && Step(m1, Sym("VanillaScoop")).next == m2
            && Step(m2, Sym("Checkout")).next == m2.(state := WaitingForPayment)
  {
  }

  /** Selection checks the stock but does not reserve it: with one vanilla
      scoop left, two can be put in the cart and paid for, and the stock ends
      at -1. */
  lemma Oversell()
    ensures var m := Initial.(stock := map["VanillaScoop" := 1, "ChocolateScoop" := 10,
                                            "CaramelTopping" := 10, "SprinklesTopping" := 10]);
            StockOf(Run(m, [Sym("VanillaScoop"), Sym("VanillaScoop"), Sym("Checkout"), Cash(20000), Nothing]).stock,
                    "VanillaScoop") == -1
  {
    OversellOrder();
    OversellPayment();
  }

  /** The two calls that pay for the two scoops and dispense them. */
  lemma OversellPayment()
    ensures var s := map["VanillaScoop" := 1, "ChocolateScoop" := 10, "CaramelTopping" := 10, "SprinklesTopping" := 10];
            var m3 := Machine(WaitingForPayment, ["VanillaScoop", "VanillaScoop"], 20000, 0, 0, s);
            var m4 := m3.(state := DispensingItem, money := 20000);
            && Step(m3, Cash(20000)).next == m4
            && StockOf(Step(m4, Nothing).next.stock, "VanillaScoop") == -1
  {
    assert multiset(["VanillaScoop", "VanillaScoop"])["VanillaScoop"] == 2;
  }

  /** The class `VendingMachineDFA`. */
  class VendingMachineDFA {
    var currentState: State
    var selectedItems: seq<Item>
    var totalPrice: int
    var moneyInserted: int
    var changeToReturn: int
    var stock: map<Item, int>

    function Snapshot(): Machine
      reads this
    {
      Machine(currentState, selectedItems, totalPrice, moneyInserted, changeToReturn, stock)
    }

    constructor ()
      ensures Snapshot() == Initial
    {
      stock := TenEach(CompactMenu);
      currentState, selectedItems, totalPrice, moneyInserted, changeToReturn := Idle, [], 0, 0, 0;
    }

    /** `reset`: clears the transaction and keeps the stock. */
    method Reset()
      modifies this
      ensures Snapshot() == Cleared(old(Snapshot()))
    {
      currentState := Idle;
      selectedItems := [];
      totalPrice := 0;
      moneyInserted := 0;
      changeToReturn := 0;
    }

    /** `delta(input_symbol)` */
    method Delta(input: Input) returns (output: Msg)
      modifies this
      ensures StepResult(Snapshot(), output) == Step(old(Snapshot()), input)
      ensures Inv(old(Snapshot())) ==> Inv(Snapshot())
    {
      ghost var before := Snapshot();
      var state := currentState;
      output := InvalidAction;
      if state == Idle || state == WaitingForSelection {
        output := SelectionDelta(input);
      } else if state == WaitingForPayment {
        output := PaymentDelta(input);
      } else if state == DispensingItem && input == Nothing {
        stock := DecrementEach(stock, selectedItems);
        changeToReturn := moneyInserted - totalPrice;
        currentState := TransactionComplete;
        if changeToReturn >= 0 {
          output := DispensedWithChange(selectedItems, changeToReturn);
        } else {
          output := DispensedOnly(selectedItems);
        }
      }
      if Inv(before) {
        StepPreservesInv(before, input);
      }
    }

    /** The branch of `delta` for Idle and WaitingForSelection. */
    method SelectionDelta(input: Input) returns (output: Msg)
      requires currentState == Idle || currentState == WaitingForSelection
      modifies this
      ensures StepResult(Snapshot(), output) == SelectionStep(old(Snapshot()), input)
    {
      output := InvalidAction;
      if input.Sym? && input.name in CompactMenu {
        if StockOf(stock, input.name) > 0 {
          selectedItems := selectedItems + [input.name];
          totalPrice := totalPrice + CompactMenu[input.name];
          currentState := WaitingForSelection;
          output := ItemAdded(input.name, totalPrice);
        } else {
          output := SoldOut(input.name);
        }
      } else if input == Sym("Checkout") && selectedItems != [] {
        currentState := WaitingForPayment;
        output := OrderConfirmed(totalPrice);
      } else if input == Sym("Cancel") {
        output := OrderCancelled;
        Reset();
      } else if input.Cash? && input.amount in Notes {
        output := CheckoutFirst;
      } else if input == Sym("Checkout") {
        output := CartEmpty;
      }
    }

    /** The branch of `delta` for WaitingForPayment. */
    method PaymentDelta(input: Input) returns (output: Msg)
      requires currentState == WaitingForPayment
      modifies this
      ensures StepResult(Snapshot(), output) == Step(old(Snapshot()), input)
    {
      output := InvalidAction;
      if input.Cash? && input.amount in Notes {
        moneyInserted := moneyInserted + input.amount;
        output := MoneyReceived(input.amount, moneyInserted, totalPrice - moneyInserted);
        if moneyInserted >= totalPrice {
          currentState := DispensingItem;
          output := PaymentEnough;
        }
      } else if input == Sym("Cancel") {
        changeToReturn := moneyInserted;
        currentState := TransactionComplete;
        output := PaymentCancelled(changeToReturn);
      } else if input.Sym? && input.name in CompactMenu {
        output := FinishPaymentFirst;
      }
    }
  }
}
