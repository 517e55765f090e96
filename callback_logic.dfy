/**
 * `VendingMachineLogic` of `Experimental/vending_machine_gui.py`, which
 * `Experimental/VMwxPy.py` repeats and `Experimental/VMpyQT.py` repeats with
 * Qt signals in place of the GUI callback. Paying enough dispenses at once
 * (the stock is decremented in the same call); the GUI later calls
 * `finalize_transaction`, which settles the change and resets.
 *
 * The callback (or signal) calls that carry data are kept as an event log:
 * the list of items handed to the dispense animation, and the amounts of
 * money returned. Display texts are not modelled.
 */
module CallbackLogic {

  import opened Catalog

  datatype State = Idle | WaitingForSelection | WaitingForPayment | DispensingItem | ReturningChange

  /** `gui_callback('dispense_animation', items)` / `dispense_triggered`,
      and `gui_callback('return_change', amount)` / `change_returned`. */
  datatype Event = DispenseAnimation(items: seq<Item>) | ReturnChange(amount: int)

  datatype Machine = Machine(state: State, items: seq<Item>, total: int, money: int, stock: map<Item, int>,
                             events: seq<Event>)

  /** What `reset_transaction` leaves: the stock and the GUI's log stay. */
  function Cleared(m: Machine): Machine
  {
    m.(state := Idle, items := [], total := 0, money := 0)
  }

  const Initial := Machine(Idle, [], 0, 0, TenEach(CompactMenu), [])

  /** `trigger_internal_transition(internal_symbol)` */
  function Internal(m: Machine, symbol: string): Machine
  {
    if symbol == "__dispense__" then
      m.(stock := Dispensed(m.stock, m.items), events := m.events + [DispenseAnimation(m.items)])
    else m
  }

  /** One call of `delta`. */
  function Step(m: Machine, input: Input): Machine
  {
    match m.state
    case Idle => SelectionStep(m, input)
    case WaitingForSelection => SelectionStep(m, input)
    case WaitingForPayment =>
      if input.Cash? then
        var money := m.money + input.amount;
        if money >= m.total then Internal(m.(money := money, state := DispensingItem), "__dispense__")
        else m.(money := money)
      else if input == Sym("Cancel") then
        var c := Cleared(m);
        c.(events := c.events + [ReturnChange(m.money)])
      else m
    case DispensingItem => m
    case ReturningChange => m
  }

  /** `delta` in Idle or WaitingForSelection. */
  function SelectionStep(m: Machine, input: Input): Machine
  {
    if input.Sym? && input.name in CompactMenu then
      var x := input.name;
      if StockOf(m.stock, x) > 0 then
        m.(items := m.items + [x], total := m.total + CompactMenu[x], state := WaitingForSelection)
      else m
    else if input == Sym("Checkout") && m.items != [] then m.(state := WaitingForPayment)
    else if input == Sym("Cancel") then Cleared(m)
    else m
  }

  /** `finalize_transaction` */
  function Finalize(m: Machine): Machine
  {
    var change := m.money - m.total;
    var c := Cleared(m.(state := ReturningChange));
    if change > 0 then c.(events := c.events + [ReturnChange(change)]) else c
  }

  /** What holds between calls, starting from `__init__`. */
  ghost predicate Inv(m: Machine)
  {
    && m.stock.Keys == CompactMenu.Keys
    && AllIn(m.items, CompactMenu.Keys)
    && m.total == SumPrices(CompactMenu, m.items)
    && (m.state == Idle ==> m.items == [] && m.total == 0 && m.money == 0)
    && (m.state != Idle ==> m.items != [])
    && (m.state == WaitingForSelection ==> m.money == 0)
    && (m.state == WaitingForPayment ==> m.money < m.total)
    && (m.state == DispensingItem ==> m.money >= m.total)
    && m.state != ReturningChange
  }

  lemma InitialInv()
    ensures Inv(Initial)
  {
  }

  lemma StepPreservesInv(m: Machine, input: Input)
    requires Inv(m)
    ensures Inv(Step(m, input))
  {
    match m.state
    case Idle => SelectionPreservesInv(m, input);
    case WaitingForSelection => SelectionPreservesInv(m, input);
    case WaitingForPayment => PaymentPreservesInv(m, input);
    case DispensingItem =>
    case ReturningChange =>
  }

  lemma SelectionPreservesInv(m: Machine, input: Input)
    requires Inv(m) && (m.state == Idle || m.state == WaitingForSelection)
    ensures Inv(SelectionStep(m, input))
  {
    var n := SelectionStep(m, input);
    if input.Sym? && input.name in CompactMenu && StockOf(m.stock, input.name) > 0 {
      var x := input.name;
      CartAppend(CompactMenu, m.items, x);
      assert n == m.(items := m.items + [x], total := m.total + CompactMenu[x], state := WaitingForSelection);
    } else if input.Sym? && input.name in CompactMenu {
      assert n == m;
    } else if input == Sym("Checkout") && m.items != [] {
      assert PositivePrices(CompactMenu);
      SumPricesPositive(CompactMenu, m.items);
      assert n == m.(state := WaitingForPayment);
    } else if input == Sym("Cancel") {
      assert n == Cleared(m);
    } else {
      assert n == m;
    }
  }

  lemma PaymentPreservesInv(m: Machine, input: Input)
    requires Inv(m) && m.state == WaitingForPayment
    ensures Inv(Step(m, input))
  {
    var n := Step(m, input);
    if input.Cash? {
      if m.money + input.amount >= m.total {
        assert n.state == DispensingItem && n.items == m.items && n.stock.Keys == m.stock.Keys;
      } else {
        assert n == m.(money := m.money + input.amount);
      }
    } else if input == Sym("Cancel") {
      assert n.state == Idle && n.items == [] && n.stock == m.stock;
    } else {
      assert n == m;
    }
  }

  lemma FinalizePreservesInv(m: Machine)
    requires Inv(m)
    ensures Inv(Finalize(m))
  {
  }

  /** In the selection states a menu item in stock is appended and priced;
      "Checkout" moves to payment exactly on a non-empty cart; "Cancel"
      resets; nothing else changes the machine, and the stock never changes. */
  lemma SelectionSpec(m: Machine, input: Input)
    requires m.state in {Idle, WaitingForSelection}
    ensures var n := Step(m, input);
            && (input.Sym? && input.name in CompactMenu && StockOf(m.stock, input.name) > 0 ==>
                  n == m.(items := m.items + [input.name], total := m.total + CompactMenu[input.name],
                          state := WaitingForSelection))
            && (n.state == WaitingForPayment <==> input == Sym("Checkout") && m.items != [])
            && (input == Sym("Cancel") ==> n == Cleared(m))
            && (n != m ==> (input.Sym? && input.name in CompactMenu) || input == Sym("Checkout")
                           || input == Sym("Cancel"))
            && n.stock == m.stock && n.events == m.events
  {
  }

  /** In WaitingForPayment any integer is accumulated. Reaching the total
      moves to DispensingItem and in the same call takes one unit of stock per
      cart occurrence and hands the cart to the dispense animation; the cart
      itself stays. "Cancel" resets and returns exactly the money inserted. */
  lemma PaymentSpec(m: Machine, input: Input)
    requires m.state == WaitingForPayment
    ensures var n := Step(m, input);
            && (input.Cash? && m.money + input.amount < m.total ==> n == m.(money := m.money + input.amount))
            && (input.Cash? && m.money + input.amount >= m.total ==>
                  n == m.(money := m.money + input.amount, state := DispensingItem,
                          stock := Dispensed(m.stock, m.items),
                          events := m.events + [DispenseAnimation(m.items)]))
            && (input == Sym("Cancel") ==> n == Cleared(m).(events := m.events + [ReturnChange(m.money)]))
            && (!input.Cash? && input != Sym("Cancel") ==> n == m)
  {
  }

  /** While the animation runs and while change is returned the machine
      ignores its inputs. */
  lemma BusyStatesIgnoreInput(m: Machine, input: Input)
    requires m.state in {DispensingItem, ReturningChange}
    ensures Step(m, input) == m
  {
  }

  /** `finalize_transaction` after a dispense returns the excess of the money
      over the total, which is never negative, reports it only when it is
      positive, and resets the transaction without touching the stock. */
  lemma FinalizeSpec(m: Machine)
    requires Inv(m) && m.state == DispensingItem
    ensures var n := Finalize(m);
            && n.state == Idle && n.items == [] && n.total == 0 && n.money == 0 && n.stock == m.stock
            && m.money - m.total >= 0
            && n.events == m.events + (if m.money > m.total then [ReturnChange(m.money - m.total)] else [])
  {
  }

  /** The log only grows. */
  lemma EventsOnlyGrow(m: Machine, input: Input)
    ensures var n := Step(m, input);
            |m.events| <= |n.events| && n.events[..|m.events|] == m.events
    ensures var n := Finalize(m);
            |m.events| <= |n.events| && n.events[..|m.events|] == m.events
  {
  }

  /** The stock stays non-negative when the cart never holds more copies of
      an item than are in stock. */
  lemma StockStaysNonNegative(m: Machine, input: Input)
    requires NonNegative(m.stock) && Covers(m.stock, m.items)
    ensures NonNegative(Step(m, input).stock)
  {
    DispensedNonNegative(m.stock, m.items);
  }

  function Run(m: Machine, inputs: seq<Input>): Machine
    decreases |inputs|
  {
    if inputs == [] then m else Run(Step(m, inputs[0]), inputs[1..])
  }

  /** The two calls that order one sprinkles topping. */
  lemma SprinklesOrder()
    ensures var m1 := Machine(WaitingForSelection, ["SprinklesTopping"], 2000, 0, TenEach(CompactMenu), []);
            && Step(Initial, Sym("SprinklesTopping")) == m1
            && Step(m1, Sym("Checkout")) == m1.(state := WaitingForPayment)
  {
  }

  /** Paying the sprinkles with a 5000 note dispenses them. */
  lemma SprinklesPayment()
    ensures var s := TenEach(CompactMenu);
            var m2 := Machine(WaitingForPayment, ["SprinklesTopping"], 2000, 0, s, []);
            Step(m2, Cash(5000)) == m2.(money := 5000, state := DispensingItem, stock := s["SprinklesTopping" := 9],
                                        events := [DispenseAnimation(["SprinklesTopping"])])
  {
    DispensedSingle(TenEach(CompactMenu), "SprinklesTopping");
  }

  /** One sprinkles topping paid with a 5000 note, then finalized: the
      animation gets the cart, 3000 comes back, the stock drops by one. */
  lemma SprinklesWithChange()
    ensures var m := Finalize(Run(Initial, [Sym("SprinklesTopping"), Sym("Checkout"), Cash(5000)]));
            && m.events == [DispenseAnimation(["SprinklesTopping"]), ReturnChange(3000)]
            && m.stock == TenEach(CompactMenu)["SprinklesTopping" := 9]
            && m.state == Idle
  {
    SprinklesOrder();
    SprinklesPayment();
  }

  /** The class `VendingMachineLogic`. */
  class VendingMachineLogic {
    var currentState: State
    var selectedItems: seq<Item>
    var totalPrice: int
    var moneyInserted: int
    var stock: map<Item, int>
    /** The calls made on the GUI callback that carry data. */
    var events: seq<Event>

    function Snapshot(): Machine
      reads this
    {
      Machine(currentState, selectedItems, totalPrice, moneyInserted, stock, events)
    }

    constructor ()
      ensures Snapshot() == Initial
    {
      stock := TenEach(CompactMenu);
      events := [];
      currentState, selectedItems, totalPrice, moneyInserted := Idle, [], 0, 0;
    }

    /** `reset_transaction` */
    method ResetTransaction()
      modifies this
      ensures Snapshot() == Cleared(old(Snapshot()))
    {
      currentState := Idle;
      selectedItems := [];
      totalPrice := 0;
      moneyInserted := 0;
    }

    /** `trigger_internal_transition(internal_symbol)` */
    method TriggerInternalTransition(symbol: string)
      modifies this
      ensures Snapshot() == Internal(old(Snapshot()), symbol)
    {
      if symbol == "__dispense__" {
        stock := DecrementEach(stock, selectedItems);
        events := events + [DispenseAnimation(selectedItems)];
      }
    }

    /** `delta(input_symbol)` */
    method Delta(input: Input)
      modifies this
      ensures Snapshot() == Step(old(Snapshot()), input)
      ensures Inv(old(Snapshot())) ==> Inv(Snapshot())
    {
      ghost var before := Snapshot();
      var state := currentState;
      if state == Idle || state == WaitingForSelection {
        SelectionDelta(input);
      } else if state == WaitingForPayment {
        PaymentDelta(input);
      }
      if Inv(before) {
        StepPreservesInv(before, input);
      }
    }

    /** The branch of `delta` for Idle and WaitingForSelection. */
    method SelectionDelta(input: Input)
      requires currentState == Idle || currentState == WaitingForSelection
      modifies this
      ensures Snapshot() == SelectionStep(old(Snapshot()), input)
    {
      if input.Sym? && input.name in CompactMenu {
        if StockOf(stock, input.name) > 0 {
          selectedItems := selectedItems + [input.name];
          totalPrice := totalPrice + CompactMenu[input.name];
          currentState := WaitingForSelection;
        }
      } else if input == Sym("Checkout") && selectedItems != [] {
        currentState := WaitingForPayment;
      } else if input == Sym("Cancel") {
        ResetTransaction();
      }
    }

    /** The branch of `delta` for WaitingForPayment. */
    method PaymentDelta(input: Input)
      requires currentState == WaitingForPayment
      modifies this
      ensures Snapshot() == Step(old(Snapshot()), input)
    {
      if input.Cash? {
        moneyInserted := moneyInserted + input.amount;
        if moneyInserted >= totalPrice {
          currentState := DispensingItem;
          TriggerInternalTransition("__dispense__");
        }
      } else if input == Sym("Cancel") {
        var changeToReturn := moneyInserted;
        ResetTransaction();
        events := events + [ReturnChange(changeToReturn)];
      }
    }

    /** `finalize_transaction` */
    method FinalizeTransaction()
      modifies this
      ensures Snapshot() == Finalize(old(Snapshot()))
      ensures Inv(old(Snapshot())) ==> Inv(Snapshot())
    {
      currentState := ReturningChange;
      var change := moneyInserted - totalPrice;
      ResetTransaction();
      if change > 0 {
        events := events + [ReturnChange(change)];
      }
    }
  }
}
