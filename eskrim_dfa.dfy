/**
 * The Mealy machine of `old2/eskrimDFA2-input.py`: no stock, any menu item
 * may be picked in any order, and the call that completes the payment (or
 * cancels it) runs the internal transitions at once, reporting the change
 * and resetting the machine before it returns.
 */
module EskrimDfa {

  import opened Catalog

  datatype State = Idle | WaitingForSelection | WaitingForPayment | DispensingItem | ReturningChange

  /** The lines of the text `delta` returns, as tags; a returned text is the
      list of its lines. */
  datatype Msg =
    | ItemAdded(item: Item, total: int)
    | OrderConfirmed(total: int)
    | OrderCancelled
    | Unrecognized(input: Input)
    | InvalidInState
    | MoneyReceived(amount: int, inserted: int)
    | StillShort(needed: int)
    | PaymentEnough
    | PaymentCancelled
    | InvalidPayment
    | Dispensing(items: seq<Item>)
    | ChangeReturned(change: int)
    | NoChange

  datatype Machine = Machine(state: State, items: seq<Item>, total: int, money: int)

  /** What `reset` leaves. */
  const Initial := Machine(Idle, [], 0, 0)

  datatype StepResult = StepResult(next: Machine, output: seq<Msg>)

  /** `input_symbol in self.alphabet` */
  predicate InAlphabet(input: Input)
  {
    || (input.Sym? && (input.name in CompactMenu || input.name == "Checkout" || input.name == "Cancel"))
    || (input.Cash? && input.amount in Notes)
  }

  /** `trigger_internal_transition(internal_symbol)` */
  function Internal(m: Machine, symbol: string): StepResult
    decreases if symbol == "__dispense__" then 1 else 0
  {
    if symbol == "__dispense__" then
      var r := Internal(m.(state := ReturningChange), "__return_money__");
      StepResult(r.next, [Dispensing(m.items)] + r.output)
    else if symbol == "__return_money__" then
      var change := if m.money - m.total < 0 then m.money else m.money - m.total;
      StepResult(Initial, if change > 0 then [ChangeReturned(change)] else [NoChange])
    else StepResult(m, [])
  }

  /** One call of `delta`. */
  function Step(m: Machine, input: Input): StepResult
  {
    match m.state
    case Idle => SelectionStep(m, input)
    case WaitingForSelection => SelectionStep(m, input)
    case WaitingForPayment =>
      if input.Cash? && InAlphabet(input) then
        var m' := m.(money := m.money + input.amount);
        if m'.money >= m.total then
          var r := Internal(m'.(state := DispensingItem), "__dispense__");
          StepResult(r.next, [MoneyReceived(input.amount, m'.money), PaymentEnough] + r.output)
        else StepResult(m', [MoneyReceived(input.amount, m'.money), StillShort(m.total - m'.money)])
      else if input == Sym("Cancel") then
        var r := Internal(m.(state := ReturningChange), "__return_money__");
        StepResult(r.next, [PaymentCancelled] + r.output)
      else StepResult(m, [InvalidPayment])
    case DispensingItem => StepResult(m, [])
    case ReturningChange => StepResult(m, [])
  }

  /** `delta` in Idle or WaitingForSelection. */
  function SelectionStep(m: Machine, input: Input): StepResult
  {
    if input.Sym? && input.name in CompactMenu then
      var x := input.name;
      StepResult(m.(items := m.items + [x], total := m.total + CompactMenu[x], state := WaitingForSelection),
                 [ItemAdded(x, m.total + CompactMenu[x])])
    else if input == Sym("Checkout") && m.items != [] then
      StepResult(m.(state := WaitingForPayment), [OrderConfirmed(m.total)])
    else if input == Sym("Cancel") then StepResult(Initial, [OrderCancelled])
    else if !InAlphabet(input) then StepResult(m, [Unrecognized(input)])
    else StepResult(m, [InvalidInState])
  }

  /** What holds between calls, starting from `reset`: the total is the price
      of the cart, the cart is empty exactly in Idle, money is only held while
      payment is awaited and is then short of the total, and the internal
      states are never visible. */
  ghost predicate Inv(m: Machine)
  {
    && AllIn(m.items, CompactMenu.Keys)
    && m.total == SumPrices(CompactMenu, m.items)
    && (m.state == Idle ==> m == Initial)
    && (m.state != Idle ==> m.items != [])
    && (m.state == WaitingForSelection ==> m.money == 0)
    && (m.state == WaitingForPayment ==> 0 <= m.money < m.total)
    && m.state !in {DispensingItem, ReturningChange}
  }

  lemma InitialInv()
    ensures Inv(Initial)
  {
  }

  lemma StepPreservesInv(m: Machine, input: Input)
    requires Inv(m)
    ensures Inv(Step(m, input).next)
  {
    match m.state
    case Idle => SelectionPreservesInv(m, input);
    case WaitingForSelection => SelectionPreservesInv(m, input);
    case WaitingForPayment => PaymentPreservesInv(m, input);
    case DispensingItem =>
    case ReturningChange =>
  }

  lemma SelectionPreservesInv(m: Machine, input: Input)
    requires Inv(m) && (m.state == Idle || m.state == WaitingForSelection)
    ensures Inv(SelectionStep(m, input).next)
  {
    var n := SelectionStep(m, input).next;
    if input.Sym? && input.name in CompactMenu {
      var x := input.name;
      CartAppend(CompactMenu, m.items, x);
      assert n == m.(items := m.items + [x], total := m.total + CompactMenu[x], state := WaitingForSelection);
    } else if input == Sym("Checkout") && m.items != [] {
      assert PositivePrices(CompactMenu);
      SumPricesPositive(CompactMenu, m.items);
      assert n == m.(state := WaitingForPayment);
    } else if input == Sym("Cancel") {
      assert n == Initial;
    } else {
      assert n == m;
    }
  }

  lemma PaymentPreservesInv(m: Machine, input: Input)
    requires Inv(m) && m.state == WaitingForPayment
    ensures Inv(Step(m, input).next)
  {
    var n := Step(m, input).next;
    if input.Cash? && InAlphabet(input) {
      if m.money + input.amount >= m.total {
        assert n == Internal(m.(money := m.money + input.amount, state := DispensingItem), "__dispense__").next;
        assert n == Initial;
      } else {
        assert n == m.(money := m.money + input.amount);
      }
    } else if input == Sym("Cancel") {
      assert n == Initial;
    } else {
      assert n == m;
    }
  }

  /** In the selection states every menu item is appended and priced, with no
      stock to check; "Checkout" needs a non-empty cart; "Cancel" resets; an
      input outside the alphabet and an input of the wrong kind each get
      their own message and change nothing. */
  lemma SelectionSpec(m: Machine, input: Input)
    requires m.state in {Idle, WaitingForSelection}
    ensures var r := Step(m, input);
            && (input.Sym? && input.name in CompactMenu ==>
                  r.next == m.(items := m.items + [input.name], total := m.total + CompactMenu[input.name],
                               state := WaitingForSelection))
            && (r.next.state == WaitingForPayment <==> input == Sym("Checkout") && m.items != [])
            && (input == Sym("Cancel") ==> r.next == Initial)
            && (!InAlphabet(input) ==> r == StepResult(m, [Unrecognized(input)]))
            && (input.Cash? && InAlphabet(input) ==> r == StepResult(m, [InvalidInState]))
            && (input == Sym("Checkout") && m.items == [] ==> r == StepResult(m, [InvalidInState]))
  {
  }

  /** In WaitingForPayment only a bank note is accumulated. Short of the
      total the machine keeps waiting; reaching it dispenses the cart in the
      same call, reports `money_inserted - total_price` as change and ends in
      a reset machine. */
  lemma PaymentSpec(m: Machine, input: Input)
    requires Inv(m) && m.state == WaitingForPayment
    ensures var r := Step(m, input);
            var money := m.money + (if input.Cash? then input.amount else 0);
            && (input.Cash? && input.amount in Notes && money < m.total ==>
                  r.next == m.(money := money))
            && (input.Cash? && input.amount in Notes && money >= m.total ==>
                  r.next == Initial
                  && r.output == [MoneyReceived(input.amount, money), PaymentEnough, Dispensing(m.items)]
                                 + (if money > m.total then [ChangeReturned(money - m.total)] else [NoChange]))
            && (!(input.Cash? && input.amount in Notes) && input != Sym("Cancel") ==>
                  r == StepResult(m, [InvalidPayment]))
  {
  }

  /** "Cancel" during payment refunds exactly the money inserted, which is
      short of the total, and resets. */
  lemma CancelPaymentSpec(m: Machine)
    requires Inv(m) && m.state == WaitingForPayment
    ensures Step(m, Sym("Cancel")).next == Initial
    ensures Step(m, Sym("Cancel")).output
            == [PaymentCancelled] + (if m.money > 0 then [ChangeReturned(m.money)] else [NoChange])
  {
  }

  /** Both internal transitions end in a reset machine, and their last line
      reports the change: what exceeds the total, or all the money when it
      falls short of the total (a cancelled payment), and only when positive. */
  lemma InternalResets(m: Machine, symbol: string)
    requires symbol == "__dispense__" || symbol == "__return_money__"
    ensures var r := Internal(m, symbol);
            var c := if m.money < m.total then m.money else m.money - m.total;
            && r.next == Initial
            && r.output != []
            && r.output[|r.output| - 1] == (if c > 0 then ChangeReturned(c) else NoChange)
  {
  }

  /** The class `VendingMachineDFA`. */
  class VendingMachineDFA {
    var currentState: State
    var selectedItems: seq<Item>
    var totalPrice: int
    var moneyInserted: int

    function Snapshot(): Machine
      reads this
    {
      Machine(currentState, selectedItems, totalPrice, moneyInserted)
    }

    constructor ()
      ensures Snapshot() == Initial
    {
      currentState, selectedItems, totalPrice, moneyInserted := Idle, [], 0, 0;
    }

    /** `reset` */
    method Reset()
      modifies this
      ensures Snapshot() == Initial
    {
      currentState := Idle;
      selectedItems := [];
      totalPrice := 0;
      moneyInserted := 0;
    }

    /** `trigger_internal_transition(internal_symbol)` */
    method TriggerInternalTransition(symbol: string) returns (output: seq<Msg>)
      modifies this
      ensures StepResult(Snapshot(), output) == Internal(old(Snapshot()), symbol)
      decreases if symbol == "__dispense__" then 1 else 0
    {
      output := [];
      if symbol == "__dispense__" {
        output := [Dispensing(selectedItems)];
        currentState := ReturningChange;
        var rest := TriggerInternalTransition("__return_money__");
        output := output + rest;
      } else if symbol == "__return_money__" {
        var change := moneyInserted - totalPrice;
        if change < 0 {
          change := moneyInserted;
        }
        if change > 0 {
          output := [ChangeReturned(change)];
        } else {
          output := [NoChange];
        }
        Reset();
      }
    }

    /** `delta(input_symbol)` */
    method Delta(input: Input) returns (output: seq<Msg>)
      modifies this
      ensures StepResult(Snapshot(), output) == Step(old(Snapshot()), input)
      ensures Inv(old(Snapshot())) ==> Inv(Snapshot())
    {
      ghost var before := Snapshot();
      var state := currentState;
      output := [];
      if state == Idle || state == WaitingForSelection {
        output := SelectionDelta(input);
      } else if state == WaitingForPayment {
        output := PaymentDelta(input);
      }
      if Inv(before) {
        StepPreservesInv(before, input);
      }
    }

    /** The branch of `delta` for Idle and WaitingForSelection. */
    method SelectionDelta(input: Input) returns (output: seq<Msg>)
      requires currentState == Idle || currentState == WaitingForSelection
      modifies this
      ensures StepResult(Snapshot(), output) == SelectionStep(old(Snapshot()), input)
    {
      if input.Sym? && input.name in CompactMenu {
        selectedItems := selectedItems + [input.name];
        totalPrice := totalPrice + CompactMenu[input.name];
        currentState := WaitingForSelection;
        output := [ItemAdded(input.name, totalPrice)];
      } else if input == Sym("Checkout") && selectedItems != [] {
        currentState := WaitingForPayment;
        output := [OrderConfirmed(totalPrice)];
      } else if input == Sym("Cancel") {
        output := [OrderCancelled];
        Reset();
      } else if !InAlphabet(input) {
        output := [Unrecognized(input)];
      } else {
        output := [InvalidInState];
      }
    }

    /** The branch of `delta` for WaitingForPayment. */
    method PaymentDelta(input: Input) returns (output: seq<Msg>)
      requires currentState == WaitingForPayment
      modifies this
      ensures StepResult(Snapshot(), output) == Step(old(Snapshot()), input)
    {
      if input.Cash? && InAlphabet(input) {
        moneyInserted := moneyInserted + input.amount;
        output := [MoneyReceived(input.amount, moneyInserted)];
        if moneyInserted >= totalPrice {
          currentState := DispensingItem;
          output := output + [PaymentEnough];
          var rest := TriggerInternalTransition("__dispense__");
          output := output + rest;
        } else {
          output := output + [StillShort(totalPrice - moneyInserted)];
        }
      } else if input == Sym("Cancel") {
        currentState := ReturningChange;
        output := [PaymentCancelled];
        var rest := TriggerInternalTransition("__return_money__");
        output := output + rest;
      } else {
        output := [InvalidPayment];
      }
    }
  }
}
