/**
 * The transaction automaton of `commit-default/vending_machine_dfa.py`:
 * like the `commit-gemini-2` one, except that every unmatched input returns
 * the empty message and that any call made while DispensingItem dispenses,
 * whatever its input.
 */
module CommitDefaultDfa {

  import opened Catalog

  datatype State =
    | Idle
    | WaitingForSelection
    | WaitingForPayment
    | DispensingItem
    | ReturningChange
    | TransactionComplete

  datatype Msg =
    | Silent                                         // ""
    | ItemAdded(item: Item, total: int)
    | SoldOut(item: Item)
    | OrderConfirmed(total: int)
    | OrderCancelled
    | MoneyReceived(amount: int, inserted: int, needed: int)
    | PaymentEnough
    | PaymentCancelled(refund: int)
    | DispensedWithChange(items: seq<Item>, change: int)
    | DispensedNoChange(items: seq<Item>)

  datatype Machine = Machine(state: State, items: seq<Item>, total: int, money: int, change: int,
                             stock: map<Item, int>)

  /** What `reset` leaves: a fresh transaction over the same stock. */
  function Cleared(m: Machine): Machine
  {
    Machine(Idle, [], 0, 0, 0, m.stock)
  }

  /** What `__init__` leaves. */
  const Initial := Machine(Idle, [], 0, 0, 0, TenEach(CompactMenu))

  datatype StepResult = StepResult(next: Machine, output: Msg)

  predicate IsMenuItem(input: Input)
  {
    input.Sym? && input.name in CompactMenu
  }

  predicate IsNote(input: Input)
  {
    input.Cash? && input.amount in Notes
  }

  /** One call of `delta`. */
  function Step(m: Machine, input: Input): StepResult
  {
    match m.state
    case Idle => SelectionStep(m, input)
    case WaitingForSelection => SelectionStep(m, input)
    case WaitingForPayment =>
      if IsNote(input) then
        var money := m.money + input.amount;
        if money >= m.total then StepResult(m.(money := money, state := DispensingItem), PaymentEnough)
        else StepResult(m.(money := money), MoneyReceived(input.amount, money, m.total - money))
      else if input == Sym("Cancel") then
        StepResult(m.(change := m.money, state := TransactionComplete), PaymentCancelled(m.money))
      else StepResult(m, Silent)
    case DispensingItem =>
      var change := m.money - m.total;
      StepResult(m.(stock := Dispensed(m.stock, m.items), change := change, state := TransactionComplete),
                 if change > 0 then DispensedWithChange(m.items, change) else DispensedNoChange(m.items))
    case ReturningChange => StepResult(m, Silent)
    case TransactionComplete => StepResult(m, Silent)
  }

  /** `delta` in Idle or WaitingForSelection. */
  function SelectionStep(m: Machine, input: Input): StepResult
  {
    if IsMenuItem(input) then
      var x := input.name;
      if StockOf(m.stock, x) > 0 then
        StepResult(m.(items := m.items + [x], total := m.total + CompactMenu[x], state := WaitingForSelection),
                   ItemAdded(x, m.total + CompactMenu[x]))
      else StepResult(m, SoldOut(x))
    else if input == Sym("Checkout") && m.items != [] then
      StepResult(m.(state := WaitingForPayment), OrderConfirmed(m.total))
    else if input == Sym("Cancel") then StepResult(Cleared(m), OrderCancelled)
    else StepResult(m, Silent)
  }

  /** What holds of every machine reachable from `__init__`. */
  ghost predicate Inv(m: Machine)
  {
    && m.stock.Keys == CompactMenu.Keys
    && AllIn(m.items, CompactMenu.Keys)
    && m.total == SumPrices(CompactMenu, m.items)
    && (m.state == Idle ==> m == Cleared(m))
    && (m.state != Idle ==> m.items != [])
    && (m.state == WaitingForSelection ==> m.money == 0 && m.change == 0)
    && (m.state == WaitingForPayment ==> m.money < m.total && m.change == 0)
    && (m.state == DispensingItem ==> m.money >= m.total && m.change == 0)
    && (m.state == TransactionComplete ==> m.change == m.money || m.change == m.money - m.total >= 0)
    && m.state != ReturningChange
  }

  /** `__init__` and `reset` agree on the transaction fields. */
  lemma InitialInv()
    ensures Inv(Initial) && Initial == Cleared(Initial)
  {
  }

  lemma StepPreservesInv(m: Machine, input: Input)
    requires Inv(m)
    ensures Inv(Step(m, input).next)
  {
    match m.state
    case Idle => SelectionPreservesInv(m, input);
    case WaitingForSelection => SelectionPreservesInv(m, input);
    case WaitingForPayment =>
    case DispensingItem =>
    case ReturningChange =>
    case TransactionComplete =>
  }

  lemma SelectionPreservesInv(m: Machine, input: Input)
    requires Inv(m) && (m.state == Idle || m.state == WaitingForSelection)
    ensures Inv(SelectionStep(m, input).next)
  {
    var n := SelectionStep(m, input).next;
    if IsMenuItem(input) && StockOf(m.stock, input.name) > 0 {
      var x := input.name;
      CartAppend(CompactMenu, m.items, x);
      assert m.money == 0 && m.change == 0;
      assert n == m.(items := m.items + [x], total := m.total + CompactMenu[x], state := WaitingForSelection);
    } else if IsMenuItem(input) {
      assert n == m;
    } else if input == Sym("Checkout") && m.items != [] {
      assert PositivePrices(CompactMenu);
      SumPricesPositive(CompactMenu, m.items);
      assert n == m.(state := WaitingForPayment);
    } else if input == Sym("Cancel") {
      assert n == Cleared(m);
    } else {
      assert n == m;
    }
  }

  /** In the selection states a menu item in stock is appended and priced;
      "Checkout" needs a non-empty cart; "Cancel" resets; every other input
      returns the empty message and changes nothing. */
  lemma SelectionSpec(m: Machine, input: Input)
    requires m.state in {Idle, WaitingForSelection}
    ensures var r := Step(m, input);
            && (IsMenuItem(input) && StockOf(m.stock, input.name) > 0 ==>
                  r.next == m.(items := m.items + [input.name], total := m.total + CompactMenu[input.name],
                               state := WaitingForSelection))
            && (IsMenuItem(input) && StockOf(m.stock, input.name) <= 0 ==> r.next == m)
            && (r.next.state == WaitingForPayment <==> input == Sym("Checkout") && m.items != [])
            && (input == Sym("Cancel") ==> r.next == Cleared(m))
            && (!IsMenuItem(input) && input != Sym("Checkout") && input != Sym("Cancel") ==>
                  r == StepResult(m, Silent))
            && (input == Sym("Checkout") && m.items == [] ==> r == StepResult(m, Silent))
  {
  }

  /** In WaitingForPayment only a bank note is accumulated, and the machine
      moves to DispensingItem once the money reaches the total; "Cancel"
      refunds everything; any other input changes nothing. */
  lemma PaymentSpec(m: Machine, input: Input)
    requires m.state == WaitingForPayment
    ensures var n := Step(m, input).next;
            && (IsNote(input) ==> n == m.(money := m.money + input.amount, state := n.state)
                                  && (n.state == DispensingItem <==> m.money + input.amount >= m.total)
                                  && (n.state != DispensingItem ==> n.state == WaitingForPayment))
            && (input == Sym("Cancel") ==> n == m.(change := m.money, state := TransactionComplete))
            && (!IsNote(input) && input != Sym("Cancel") ==> n == m)
  {
  }

  /** Any call in DispensingItem, whatever its input, takes one unit of stock
      per cart occurrence, sets the change, which is never negative, and
      completes the transaction; no other call touches the stock. */
  lemma DispenseOnAnyInput(m: Machine, input: Input)
    requires Inv(m)
    ensures var n := Step(m, input).next;
            && (m.state == DispensingItem ==>
                  n == m.(stock := Dispensed(m.stock, m.items), change := m.money - m.total,
                          state := TransactionComplete)
                  && n.change >= 0)
            && (m.state != DispensingItem ==> n.stock == m.stock)
  {
  }

  /** In TransactionComplete every input is ignored. */
  lemma TransactionCompleteIsFinal(m: Machine, input: Input)
    requires m.state == TransactionComplete
    ensures Step(m, input) == StepResult(m, Silent)
  {
  }

  /** The stock stays non-negative when the cart never holds more copies of an
      item than are in stock. */
  lemma StockStaysNonNegative(m: Machine, input: Input)
    requires NonNegative(m.stock) && Covers(m.stock, m.items)
    ensures NonNegative(Step(m, input).next.stock)
  {
    DispensedNonNegative(m.stock, m.items);
  }

  function Run(m: Machine, inputs: seq<Input>): Machine
    decreases |inputs|
  {
    if inputs == [] then m else Run(Step(m, inputs[0]).next, inputs[1..])
  }

  /** The three calls that order one chocolate scoop and pay exactly. */
  lemma ExactPaymentOrder()
    ensures var m1 := Machine(WaitingForSelection, ["ChocolateScoop"], 10000, 0, 0, TenEach(CompactMenu));
            && Step(Initial, Sym("ChocolateScoop")).next == m1
            && Step(m1, Sym("Checkout")).next == m1.(state := WaitingForPayment)
            && Step(m1.(state := WaitingForPayment), Cash(10000)).next == m1.(state := DispensingItem, money := 10000)
  {
  }

  /** A payment of exactly the total: the dispensing call reports no change. */
  lemma ExactPayment()
    ensures var m := Run(Initial, [Sym("ChocolateScoop"), Sym("Checkout"), Cash(10000), Sym("Checkout")]);
            m.state == TransactionComplete && m.change == 0
            && m.stock == TenEach(CompactMenu)["ChocolateScoop" := 9]
  {
    ExactPaymentOrder();
    var s := TenEach(CompactMenu);
    var m3 := Machine(DispensingItem, ["ChocolateScoop"], 10000, 10000, 0, s);
    DispensedSingle(s, "ChocolateScoop");
    assert Step(m3, Sym("Checkout")).next == m3.(stock := s["ChocolateScoop" := 9], state := TransactionComplete);
  }

  /** The class `VendingMachineDFA`. */
  class VendingMachineDFA {
    var currentState: State
    var selectedItems: seq<Item>
    var totalPrice: int
    var moneyInserted: int
    var changeToReturn: int
    var stock: map<Item, int>

    function Snapshot(): Machine
      reads this
    {
      Machine(currentState, selectedItems, totalPrice, moneyInserted, changeToReturn, stock)
    }

    /** `__init__` */
    constructor ()
      ensures Snapshot() == Initial
    {
      stock := TenEach(CompactMenu);
      currentState := Idle;
      selectedItems := [];
      totalPrice := 0;
      moneyInserted := 0;
      changeToReturn := 0;
    }

    /** `reset`: clears the transaction and keeps the stock. */
    method Reset()
      modifies this
      ensures Snapshot() == Cleared(old(Snapshot()))
    {
      currentState := Idle;
      selectedItems := [];
      totalPrice := 0;
      moneyInserted := 0;
      changeToReturn := 0;
    }

    /** `delta(input_symbol)` */
    method Delta(input: Input) returns (output: Msg)
      modifies this
      ensures StepResult(Snapshot(), output) == Step(old(Snapshot()), input)
      ensures Inv(old(Snapshot())) ==> Inv(Snapshot())
    {
      ghost var before := Snapshot();
      var state := currentState;
      output := Silent;
      if state == Idle || state == WaitingForSelection {
        output := SelectionDelta(input);
      } else if state == WaitingForPayment {
        output := PaymentDelta(input);
      }

      if state == DispensingItem {
        stock := DecrementEach(stock, selectedItems);
        changeToReturn := moneyInserted - totalPrice;
        currentState := TransactionComplete;
        if changeToReturn > 0 {
          output := DispensedWithChange(selectedItems, changeToReturn);
        } else {
          output := DispensedNoChange(selectedItems);
        }
      }
      if Inv(before) {
        StepPreservesInv(before, input);
      }
    }

    /** The branch of `delta` for Idle and WaitingForSelection. */
    method SelectionDelta(input: Input) returns (output: Msg)
      requires currentState == Idle || currentState == WaitingForSelection
      modifies this
      ensures StepResult(Snapshot(), output) == SelectionStep(old(Snapshot()), input)
    {
      output := Silent;
      if input.Sym? && input.name in CompactMenu {
        if StockOf(stock, input.name) > 0 {
          selectedItems := selectedItems + [input.name];
          totalPrice := totalPrice + CompactMenu[input.name];
          currentState := WaitingForSelection;
          output := ItemAdded(input.name, totalPrice);
        } else {
          output := SoldOut(input.name);
        }
      } else if input == Sym("Checkout") && selectedItems != [] {
        currentState := WaitingForPayment;
        output := OrderConfirmed(totalPrice);
      } else if input == Sym("Cancel") {
        output := OrderCancelled;
        Reset();
      }
    }

    /** The branch of `delta` for WaitingForPayment. */
    method PaymentDelta(input: Input) returns (output: Msg)
      requires currentState == WaitingForPayment
      modifies this
      ensures StepResult(Snapshot(), output) == Step(old(Snapshot()), input)
    {
      output := Silent;
      if input.Cash? && input.amount in Notes {
        moneyInserted := moneyInserted + input.amount;
        output := MoneyReceived(input.amount, moneyInserted, totalPrice - moneyInserted);
        if moneyInserted >= totalPrice {
          currentState := DispensingItem;
          output := PaymentEnough;
        }
      } else if input == Sym("Cancel") {
        changeToReturn := moneyInserted;
        currentState := TransactionComplete;
        output := PaymentCancelled(changeToReturn);
      }
    }
  }
}
