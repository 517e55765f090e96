# Ice-cream vending machine: transaction automata and change making

The repository is a family of front ends for one ice-cream vending machine.
Each front end carries its own copy of the transaction logic: a customer
selects scoops and toppings, checks out, inserts bank notes (2000, 5000,
10000 and 20000 rupiah), and the machine dispenses the cart and returns
change, or refunds the money on "Cancel". The desktop front end `main.py` also
works out which notes to hand back as change. It first runs an exact
backtracking search, then falls back to a greedy loop.

This project models that logic in Dafny, one module per source file, and
proves properties of it:

- `Catalog` holds what the front ends share: input symbols, menus, cart price
  sums, and the two stock-decrement loops.
- `ChangeMaking` models `_calculate_change` and the greedy fallback of
  `show_change` in `main.py`.
- The `delta`-style automata each get a class with the source's fields. Their
  `Delta` method is proved equal to a pure `Step` function on a snapshot of
  those fields. The candidate properties are lemmas about `Step` and about an
  invariant `Inv` that every call keeps:
  - `VendingMachineDfa`: `vending_machine_dfa.py`;
  - `CommitGeminiDfa`: `commit-gemini-2/vending_machine_dfa.py`;
  - `CommitDefaultDfa`: `commit-default/vending_machine_dfa.py`;
  - `EskrimDfa`: `old2/eskrimDFA2-input.py`;
  - `PercobaanDfa`: `old2/percobaanGUI.py`, and `old2/percobaanGUI2.py`, whose
    automaton is the same code line for line;
  - `CallbackLogic`: `Experimental/vending_machine_gui.py`, and also
    `Experimental/VMwxPy.py` and `Experimental/VMpyQT.py`, whose logic
    classes make the same transitions.
- The per-action classes are modelled as classes with a `Valid()` invariant and
  per-branch postconditions:
  - `CustomTkinterLogic`: `Experimental/VMCustomTkinter.py`;
  - `VmCorrectLogic`: `Experimental/VMcorrect.py`;
  - `PyQt2Logic`: `Experimental/VMPyQt2.py`.

Inputs are `Sym(name)` for a string, `Cash(amount)` for an integer and
`Nothing` for Python's `None`. Returned texts are modelled as tags (`Msg`). A
text made of several lines is the sequence of its tags.

Three behaviours of the code differ from how the machine's design describes it.
The model follows the code:

- **Selection checks the stock but does not reserve it.** A cart can hold more
  copies of an item than the stock has, and dispensing then drives the stock
  negative. The `Oversell` lemmas and methods exhibit this.
  `Experimental/VMcorrect.py` re-checks the stock at checkout, but only for
  stock > 0, so it oversells too. Non-negativity of the stock is proved only
  when the stock covers the cart.
- **`old2/percobaanGUI.py` keeps the cart and the total after a transaction.**
  This holds after a dispense and after a cancel. Its "Cancel" during payment
  reports no refund, only "Transaksi selesai", because the change it computes
  is negative. The GUI clears the cart itself.
- **"Cancel" in `Experimental/VMCustomTkinter.py` refunds money minus total.**
  `on_cancel` (lines 250-254) calls `reset_transaction`, which returns money
  inserted less the total while the cart is not empty (line 72).
  `show_change` (lines 296-298) shows nothing for an amount of 0 or less.
  Cancelling a 10000 order after paying 5000 therefore refunds nothing (the
  "change" is -5000), and after paying 20000 it refunds only 10000.
  `CancelAfterPayment` exhibits this.

## Model

| member | source | states |
|---|---|---|
| Catalog.CartAppend | Experimental/VMcorrect.py:34-36 | appending a priced item keeps the cart priced and adds exactly that item's price to the price sum, so incremental `total_price += price` keeps the total equal to the cart's price |
| Catalog.SumPricesPositive | commit-gemini-2/vending_machine_dfa.py:63-64 | a non-empty cart of items with positive prices has a positive total, which is why money is short of the total on entering payment |
| Catalog.DecrementEach | commit-gemini-2/vending_machine_dfa.py:97-98 | the `for item in selected_items: stock[item] -= 1` loop leaves every stocked item reduced by its number of occurrences in the cart |
| Catalog.DispensedNonNegative | commit-gemini-2/vending_machine_dfa.py:97-98 | dispensing leaves the stock non-negative if and only if the stock covers every copy in the cart |
| Catalog.DispensedFrame | commit-default/vending_machine_dfa.py:77-78 | dispensing changes a stocked item's count exactly when the item is in the cart |
| Catalog.SubtractCounts | old2/percobaanGUI.py:103-105 | the loop over the count dictionary subtracts each count from the stock of a stocked item and ignores other items |
| ChangeMaking.CalculateChange | main.py:373-405 | any result of `_calculate_change` sums exactly to the amount and uses only the listed denominations |
| ChangeMaking.TryCounts | main.py:391-402 | the count-down loop's result, when there is one, sums to the amount and uses only listed denominations |
| ChangeMaking.CalculateChangeBaseCases | main.py:379-383 | amount 0 gives the empty list; a positive amount with no denominations gives `None`; a negative amount gives `None` |
| ChangeMaking.TryCountsReaches | main.py:392-402 | counting down from `max_count`, the loop cannot fail when some smaller count has a payable remainder |
| ChangeMaking.ChangeComplete | main.py:392-405 | whenever an exact decomposition over the denominations exists, the search finds one |
| ChangeMaking.TryCountsShape | main.py:391-402 | the loop returns `count` copies of the current denomination for the largest count with a payable remainder, followed by the search's answer for that remainder |
| ChangeMaking.ChangeShape | main.py:386-402 | a result is the expansion of an exact decomposition whose counts are the lexicographically greatest of all exact decompositions: the first denomination is used as often as possible, then the next, and so on, grouped in list order |
| ChangeMaking.FirstCountMaximal | main.py:391-400 | no exact decomposition uses the first denomination more often than the count the loop settled on |
| ChangeMaking.ChangeNoneIffUnpayable | main.py:392-405 | `None` is returned if and only if no exact decomposition over the denominations exists |
| ChangeMaking.CountsBounded | main.py:391 | in every exact decomposition each denomination `d` is used at most `amount // d` times |
| ChangeMaking.Fits | main.py:436-437 | the number of copies of `d` the inner loop takes from an amount is the largest count whose total still fits into it, and 0 for an amount below `d` |
| ChangeMaking.AppendWhileFits | main.py:435-437 | the inner `while temp_amount >= d` loop appends `Fits(temp, d)` copies of `d`, lowers the amount by that many times `d`, ends below `d`, and does not go negative from a non-negative start |
| ChangeMaking.GreedyTakesFirstThatFits | main.py:434-437 | the greedy change (`GreedyChange`: as many of each denomination as fit, in list order) begins with the first denomination whenever it fits, so with the list sorted largest first the largest fitting note is handed out first |
| ChangeMaking.Greedy | main.py:433-437 | the pieces and the leftover are exactly `GreedyChange` of the amount over the list; the greedy pieces plus the leftover add up to the amount; the leftover is below every denomination and non-negative; the pieces come from the list and are non-increasing for a sorted list; an amount below every denomination gives no pieces |
| ChangeMaking.SortedDenominationsSorted | main.py:418 | the sorted denominations are the keys of `money_images`, in descending order, all positive |
| ChangeMaking.ShowChange | main.py:408-440 | nothing is shown for an amount of 0 or less; otherwise the exact search's bills are shown exactly when it succeeds, and they sum to the amount; failing that, the bills and the undelivered remainder are exactly `GreedyChange` of the amount over the notes sorted largest first, the bills are non-increasing and fall short of the amount by a positive remainder below 2000; all bills are notes |
| VendingMachineDfa.InitialInv | vending_machine_dfa.py:23-29 | the machine `reset` leaves satisfies the invariant |
| VendingMachineDfa.StepPreservesInv | vending_machine_dfa.py:31-106 | every `delta` call keeps the invariant: the total is the cart's price, scoops precede toppings, a non-Idle cart starts with a scoop, money is short of the total while payment is awaited and reaches it in DispensingItem |
| VendingMachineDfa.AppendKeepsCart | vending_machine_dfa.py:38-65 | appending an item adds its price to the total, keeps the first item, and keeps scoops before toppings when a topping is appended or the cart holds only scoops |
| VendingMachineDfa.IdleAcceptsOnlyScoops | vending_machine_dfa.py:36-43 | in Idle the machine changes exactly on a scoop, which becomes the only item, priced, in IceCreamSelection |
| VendingMachineDfa.IceCreamSelectionStep | vending_machine_dfa.py:46-58 | in IceCreamSelection a scoop is appended and priced, "Next" moves to ToppingSelection with the cart untouched, "Cancel" equals `reset`, and a topping changes nothing |
| VendingMachineDfa.ToppingSelectionStep | vending_machine_dfa.py:61-77 | in ToppingSelection only toppings are added, "Checkout" moves to payment, "Cancel" resets, and a scoop changes nothing |
| VendingMachineDfa.PaymentStep | vending_machine_dfa.py:81-93 | in WaitingForPayment any integer is added to the money, and the state becomes DispensingItem exactly when the money reaches the total; "Cancel" sets the change to the money, moves to ReturningChange and keeps the cart; anything else changes nothing |
| VendingMachineDfa.DispenseOnNextCall | vending_machine_dfa.py:85-104 | the call that enters DispensingItem does not dispense; the next call, with any input, sets the change to money minus total, which is never negative, moves to ReturningChange and keeps the cart |
| VendingMachineDfa.ReturningChangeIsFinal | vending_machine_dfa.py:31-106 | in ReturningChange every input returns the empty text and changes nothing |
| VendingMachineDfa.RunPreservesInv | vending_machine_dfa.py:31-106 | any sequence of `delta` calls keeps the invariant |
| VendingMachineDfa.VanillaWithCaramel | vending_machine_dfa.py:31-106 | a vanilla scoop with caramel paid with 20000 ends in ReturningChange with 8000 change |
| VendingMachineDfa.VendingMachineDFA.constructor | vending_machine_dfa.py:4-21 | `__init__` leaves the `reset` machine |
| VendingMachineDfa.VendingMachineDFA.Reset | vending_machine_dfa.py:23-29 | `reset` sets Idle, an empty cart, and total, money and change to 0 |
| VendingMachineDfa.VendingMachineDFA.Delta | vending_machine_dfa.py:31-106 | the fields' update and the returned text are those of `Step`, and the invariant is kept |
| CommitGeminiDfa.InitialInv | commit-gemini-2/vending_machine_dfa.py:7-40 | the constructed machine satisfies the invariant |
| CommitGeminiDfa.StepPreservesInv | commit-gemini-2/vending_machine_dfa.py:43-107 | every `delta` call keeps the invariant: stock and menu share their items, the total is the cart's price, the cart is empty exactly in Idle, and money is short of the total exactly while payment is awaited |
| CommitGeminiDfa.SelectionSpec | commit-gemini-2/vending_machine_dfa.py:54-73 | in selection an item in stock is appended and priced; "Checkout" moves to payment exactly on a non-empty cart; "Cancel" resets and keeps the stock; the machine changes only on these inputs |
| CommitGeminiDfa.PaymentSpec | commit-gemini-2/vending_machine_dfa.py:77-92 | in payment only a bank note is accumulated, and the machine moves to DispensingItem exactly when the money reaches the total and otherwise keeps waiting for payment; "Cancel" sets the change to all the money and completes the transaction; other inputs change nothing |
| CommitGeminiDfa.DispenseSpec | commit-gemini-2/vending_machine_dfa.py:96-101 | the stock changes only on a `None` input in DispensingItem, which takes one unit per cart occurrence, sets the non-negative change to money minus total, and moves to TransactionComplete |
| CommitGeminiDfa.StockStaysNonNegative | commit-gemini-2/vending_machine_dfa.py:97-98 | a step keeps the stock non-negative when the stock covers the cart |
| CommitGeminiDfa.Oversell | commit-gemini-2/vending_machine_dfa.py:56-98 | with one vanilla scoop in stock two are accepted and paid for, and the stock ends at -1 |
| CommitGeminiDfa.VendingMachineDFA.constructor | commit-gemini-2/vending_machine_dfa.py:7-30 | the constructed machine is the initial machine with ten of each item |
| CommitGeminiDfa.VendingMachineDFA.Reset | commit-gemini-2/vending_machine_dfa.py:32-40 | `reset` clears the transaction and keeps the stock |
| CommitGeminiDfa.VendingMachineDFA.Delta | commit-gemini-2/vending_machine_dfa.py:43-107 | the fields' update and the returned text are those of `Step`, and the invariant is kept |
| CommitDefaultDfa.InitialInv | commit-default/vending_machine_dfa.py:24-36 | `__init__` and `reset` leave the same transaction fields, and that machine satisfies the invariant |
| CommitDefaultDfa.StepPreservesInv | commit-default/vending_machine_dfa.py:39-89 | every `delta` call keeps the invariant, including that the change set on completion is the refund or money minus total, which is non-negative |
| CommitDefaultDfa.SelectionSpec | commit-default/vending_machine_dfa.py:43-57 | in selection an item in stock is appended and priced and one out of stock changes nothing; "Checkout" needs a non-empty cart; "Cancel" resets; any other input returns "" and changes nothing |
| CommitDefaultDfa.PaymentSpec | commit-default/vending_machine_dfa.py:60-73 | in payment only a bank note is accumulated, and the state becomes DispensingItem exactly when the money reaches the total; "Cancel" refunds all the money and completes the transaction |
| CommitDefaultDfa.DispenseOnAnyInput | commit-default/vending_machine_dfa.py:76-87 | any call while in DispensingItem takes one unit of stock per cart occurrence, sets the non-negative change and completes the transaction; no other call touches the stock |
| CommitDefaultDfa.TransactionCompleteIsFinal | commit-default/vending_machine_dfa.py:39-89 | in TransactionComplete every input returns "" and changes nothing |
| CommitDefaultDfa.StockStaysNonNegative | commit-default/vending_machine_dfa.py:77-78 | a step keeps the stock non-negative when the stock covers the cart |
| CommitDefaultDfa.ExactPayment | commit-default/vending_machine_dfa.py:39-89 | a chocolate scoop paid with exactly 10000 completes with change 0 and one scoop less in stock |
| CommitDefaultDfa.VendingMachineDFA.constructor | commit-default/vending_machine_dfa.py:2-28 | `__init__` sets ten of each item and the cleared transaction fields |
| CommitDefaultDfa.VendingMachineDFA.Reset | commit-default/vending_machine_dfa.py:30-36 | `reset` clears the transaction and keeps the stock |
| CommitDefaultDfa.VendingMachineDFA.Delta | commit-default/vending_machine_dfa.py:39-89 | the fields' update and the returned text are those of `Step`, and the invariant is kept |
| EskrimDfa.InitialInv | old2/eskrimDFA2-input.py:33-38 | the `reset` machine satisfies the invariant |
| EskrimDfa.StepPreservesInv | old2/eskrimDFA2-input.py:43-113 | every `delta` call keeps the invariant: the total is the cart's price, the machine is reset exactly in Idle, money is short of the total while payment is awaited, and the internal states never outlast a call |
| EskrimDfa.SelectionSpec | old2/eskrimDFA2-input.py:52-67 | in selection every menu item is appended and priced, with no stock check; "Checkout" needs a non-empty cart; "Cancel" resets; an input outside the alphabet and an input of the wrong kind each get their own message and change nothing |
| EskrimDfa.PaymentSpec | old2/eskrimDFA2-input.py:70-87 | in payment only a bank note is accumulated; short of the total the machine waits; reaching it dispenses in the same call, reports money minus total as change (or "no change") and ends reset; other inputs change nothing |
| EskrimDfa.CancelPaymentSpec | old2/eskrimDFA2-input.py:82-85 | "Cancel" in payment reports a refund of exactly the money inserted, when positive, and ends reset |
| EskrimDfa.InternalResets | old2/eskrimDFA2-input.py:91-113 | both internal transitions end reset, and their last line reports the excess over the total, or all the money when it falls short, only when positive |
| EskrimDfa.VendingMachineDFA.constructor | old2/eskrimDFA2-input.py:8-31 | the constructed machine is the `reset` machine |
| EskrimDfa.VendingMachineDFA.Reset | old2/eskrimDFA2-input.py:33-38 | `reset` sets Idle, an empty cart and zero amounts |
| EskrimDfa.VendingMachineDFA.TriggerInternalTransition | old2/eskrimDFA2-input.py:91-113 | the fields' update and the returned lines are those of `Internal` |
| EskrimDfa.VendingMachineDFA.Delta | old2/eskrimDFA2-input.py:43-89 | the fields' update and the returned lines are those of `Step`, and the invariant is kept |
| PercobaanDfa.CartTotalIncrement | old2/percobaanGUI.py:56-57 | adding one copy of a listed item to the count dictionary raises the cart's price by that item's price |
| PercobaanDfa.CartTotalPositive | old2/percobaanGUI.py:62-64 | a non-empty count dictionary of listed items with positive counts has a positive price |
| PercobaanDfa.InitialInv | old2/percobaanGUI.py:14-42 | the constructed machine satisfies the invariant |
| PercobaanDfa.StepPreservesInv | old2/percobaanGUI.py:44-130 | every `delta` call keeps the invariant: the stock keeps the menu's items, the counts are positive, the total is the cart's price, money is held only while payment is awaited and is then short of the total |
| PercobaanDfa.SelectionSpec | old2/percobaanGUI.py:52-71 | in selection, an item in stock has its count incremented and its price added, and one out of stock changes nothing; "Checkout" moves to payment exactly on a non-empty cart; money input changes nothing; "Cancel" returns to Idle with the money at 0 but keeps the cart; the stock never changes |
| PercobaanDfa.PaymentSpec | old2/percobaanGUI.py:73-90 | in payment only a listed note is accumulated; reaching the total subtracts every count from the stock, reports the excess as change, zeroes the money and returns to Idle, keeping the cart and the total; other inputs change nothing |
| PercobaanDfa.CancelPaymentSpec | old2/percobaanGUI.py:85-88 | "Cancel" in payment leaves the stock alone, zeroes the money, returns to Idle and reports no refund |
| PercobaanDfa.BusyStatesIgnoreInput | old2/percobaanGUI.py:92-93 | in the internal states every input is answered "Mohon tunggu" and changes nothing |
| PercobaanDfa.StockStaysNonNegative | old2/percobaanGUI.py:103-105 | a step keeps the stock non-negative when every count is covered by the stock |
| PercobaanDfa.Oversell | old2/percobaanGUI.py:55-105 | with nine chocolate scoops already in the cart and nine in stock, a tenth is accepted, and paying leaves the stock at -1 |
| PercobaanDfa.VendingMachineDFA.constructor | old2/percobaanGUI2.py:16-43 | the constructed machine has the initial stock and the `reset` transaction fields |
| PercobaanDfa.VendingMachineDFA.Reset | old2/percobaanGUI2.py:38-43 | `reset` clears the transaction and keeps the stock |
| PercobaanDfa.VendingMachineDFA.TriggerInternalTransition | old2/percobaanGUI2.py:96-127 | the fields' update and the returned lines are those of `Internal` |
| PercobaanDfa.VendingMachineDFA.Delta | old2/percobaanGUI2.py:45-94 | the fields' update and the returned lines are those of `Step`, and the invariant is kept |
| CallbackLogic.InitialInv | Experimental/vending_machine_gui.py:15-30 | the constructed machine satisfies the invariant |
| CallbackLogic.StepPreservesInv | Experimental/vending_machine_gui.py:32-79 | every `delta` call keeps the invariant: the total is the cart's price, the cart is empty exactly in Idle, money is short of the total while payment is awaited and reaches it in DispensingItem |
| CallbackLogic.FinalizePreservesInv | Experimental/vending_machine_gui.py:82-91 | `finalize_transaction` keeps the invariant |
| CallbackLogic.SelectionSpec | Experimental/vending_machine_gui.py:37-53 | in selection an item in stock is appended and priced; "Checkout" moves to payment exactly on a non-empty cart; "Cancel" resets; nothing else changes the machine, and the stock never changes |
| CallbackLogic.PaymentSpec | Experimental/vending_machine_gui.py:56-70 | in payment any integer is accumulated; reaching the total moves to DispensingItem, takes one unit of stock per cart occurrence and hands the cart to the dispense animation in the same call; "Cancel" resets and returns exactly the money inserted |
| CallbackLogic.BusyStatesIgnoreInput | Experimental/VMpyQT.py:44-81 | inputs in DispensingItem or ReturningChange change nothing |
| CallbackLogic.FinalizeSpec | Experimental/vending_machine_gui.py:82-91 | after a dispense `finalize_transaction` returns money minus total, which is non-negative and reported only when positive, and resets the transaction without touching the stock |
| CallbackLogic.EventsOnlyGrow | Experimental/VMwxPy.py:30-82 | the log of callback events is only appended to |
| CallbackLogic.StockStaysNonNegative | Experimental/vending_machine_gui.py:76-77 | a step keeps the stock non-negative when the stock covers the cart |
| CallbackLogic.SprinklesWithChange | Experimental/vending_machine_gui.py:32-91 | one sprinkles topping paid with 5000 and finalized hands the cart to the animation, returns 3000 and leaves one less in stock |
| CallbackLogic.VendingMachineLogic.constructor | Experimental/vending_machine_gui.py:15-22 | the constructed machine has ten of each item, the reset transaction fields and an empty log |
| CallbackLogic.VendingMachineLogic.ResetTransaction | Experimental/vending_machine_gui.py:24-30 | `reset_transaction` clears the transaction and keeps the stock and the log |
| CallbackLogic.VendingMachineLogic.TriggerInternalTransition | Experimental/vending_machine_gui.py:72-79 | `__dispense__` takes one unit of stock per cart occurrence and logs the cart for the animation; other symbols change nothing |
| CallbackLogic.VendingMachineLogic.Delta | Experimental/vending_machine_gui.py:32-70 | the fields' update and the log are those of `Step`, and the invariant is kept |
| CallbackLogic.VendingMachineLogic.FinalizeTransaction | Experimental/vending_machine_gui.py:82-91 | the fields' update and the log are those of `Finalize`, and the invariant is kept |
| CustomTkinterLogic.VendingMachineLogic.constructor | Experimental/VMCustomTkinter.py:17-34 | the constructed machine is Idle with an empty cart, zero amounts and ten of each item |
| CustomTkinterLogic.VendingMachineLogic.SelectItem | Experimental/VMCustomTkinter.py:36-43 | it succeeds exactly in Idle with the item in stock, and then appends and prices the item and reports `ItemAdded`; outside Idle it reports `FinishCurrentOrder` and for an item out of stock `SoldOut`, changing nothing |
| CustomTkinterLogic.VendingMachineLogic.GoToPayment | Experimental/VMCustomTkinter.py:45-49 | it fails on an empty cart with `CartEmpty` and otherwise enters Payment reporting `PayTotal` of the total; nothing else changes |
| CustomTkinterLogic.VendingMachineLogic.InsertMoney | Experimental/VMCustomTkinter.py:51-55 | the amount is added exactly in Payment, reporting `MoneyInserted(amount)`; otherwise it reports `CheckoutFirst` and nothing changes |
| CustomTkinterLogic.VendingMachineLogic.ProcessPurchase | Experimental/VMCustomTkinter.py:57-69 | it succeeds exactly in Payment with enough money, then takes one unit of stock per cart occurrence and returns the non-negative change and the cart, leaving state, cart and money as they were; outside Payment it refuses with `NothingToPay`, and on a short payment with `MoneyShort` of the missing amount, changing nothing |
| CustomTkinterLogic.VendingMachineLogic.ResetTransaction | Experimental/VMCustomTkinter.py:71-77 | it returns money minus total when something was ordered and all the money otherwise, then clears the transaction and keeps the stock |
| CustomTkinterLogic.CalculateChangeDenominations | Experimental/VMCustomTkinter.py:79-87 | the breakdown is exactly the notes of `GreedyChange` over the notes sorted largest first; the pieces are notes, non-increasing, and fall short of a non-negative amount by less than 2000; an amount below 2000 gives no pieces |
| CustomTkinterLogic.DoublePurchase | Experimental/VMCustomTkinter.py:57-69 | calling `process_purchase` twice for one payment takes the stock twice |
| CustomTkinterLogic.CancelAfterPayment | Experimental/VMCustomTkinter.py:71-77 | cancelling a 10000 order after paying `inserted` returns `inserted - 10000` rather than the money inserted |
| VmCorrectLogic.FirstOutOfStock | Experimental/VMcorrect.py:55-58 | the check loop finds no item exactly when every cart item has positive stock, and otherwise finds the first item whose stock is not positive |
| VmCorrectLogic.CoveredCartIsInStock | Experimental/VMcorrect.py:55-62 | a stock that covers the cart passes the checkout check |
| VmCorrectLogic.Oversell | Experimental/VMcorrect.py:34-62 | two vanillas against a stock of one both pass the checkout check, and the stock ends at -1 |
| VmCorrectLogic.VendingMachineLogic.constructor | Experimental/VMcorrect.py:20-30 | the constructed machine has an empty cart, zero amounts and ten of each item |
| VmCorrectLogic.VendingMachineLogic.SelectItem | Experimental/VMcorrect.py:32-38 | the item is appended and priced exactly when its stock is positive; otherwise nothing changes |
| VmCorrectLogic.VendingMachineLogic.InsertMoney | Experimental/VMcorrect.py:40-43 | any amount is always added to the money |
| VmCorrectLogic.VendingMachineLogic.Checkout | Experimental/VMcorrect.py:45-77 | it refuses an empty cart, then a short payment, then a cart with an item out of stock, naming the first such item in the cart, each without any change; it succeeds exactly otherwise, taking one unit of stock per cart occurrence, returning the non-negative change and the cart, and clearing the cart, total and money |
| VmCorrectLogic.VendingMachineLogic.CancelOrder | Experimental/VMcorrect.py:79-88 | it reports all the money as the refund, when positive, and clears the cart, total and money, keeping the stock |
| VmCorrectLogic.VendingMachineLogic.TakeChange | Experimental/VMcorrect.py:90-96 | it hands back all the money, when positive, and zeroes only the money |
| PyQt2Logic.VendingMachineLogic.constructor | Experimental/VMPyQt2.py:22-36 | the constructed machine has an empty cart, zero amounts and ten of each item |
| PyQt2Logic.VendingMachineLogic.SelectItem | Experimental/VMPyQt2.py:38-43 | the item is appended and priced exactly when its stock is positive; otherwise nothing changes |
| PyQt2Logic.VendingMachineLogic.InsertMoney | Experimental/VMPyQt2.py:45-47 | any amount is always added to the money |
| PyQt2Logic.VendingMachineLogic.Checkout | Experimental/VMPyQt2.py:49-64 | it refuses an empty cart, then a short payment, without any change; it succeeds exactly otherwise, whatever the stock, taking one unit per cart occurrence, returning the non-negative change and the cart, and clearing the cart, total and money |
| PyQt2Logic.VendingMachineLogic.CancelOrder | Experimental/VMPyQt2.py:66-73 | it reports all the money as the refund, when positive, and clears the cart, total and money, keeping the stock |
| PyQt2Logic.VendingMachineLogic.TakeChange | Experimental/VMPyQt2.py:75-80 | it hands back all the money, when positive, and zeroes only the money |
| PyQt2Logic.Oversell | Experimental/VMPyQt2.py:38-56 | two vanillas against a stock of one are sold, and the stock ends at -1 |

## Left out

- The GUI classes are not modelled. This covers the Tkinter, CustomTkinter, PyQt6 and wx layouts, the canvases, the timers and the animations, with their floating-point geometry.
- GUI code that assigns the logic's fields directly is not modelled either. For example, `old2/percobaanGUI.py` clears the cart after a dispense itself. The model shows the logic leaving the cart in place.
- Image, sound and network I/O is left out, and so are the threads that run it.
- `print` calls inside `reset` are left out, and so is the interactive stdin loop of `old2/eskrimDFA2-input.py`.
- `last_output` in `old2/percobaanGUI.py` is left out, because nothing reads it outside the GUI.
- Returned texts are tags. The model does not reproduce their wording, thousand separators or emoji. Where a text is built from lines, the empty line that an empty internal output adds is not kept.
- Display-only callback and Qt signal calls are left out. Only the calls whose data is not already in the machine's fields are kept, as a log: the dispense-animation list and the returned change. `Experimental/VMpyQT.py` and `Experimental/VMwxPy.py` share the `CallbackLogic` model, because their logic classes make the same transitions as `Experimental/vending_machine_gui.py`.
- `old2/percobaanGUI2.py` shares the `PercobaanDfa` model, because its `VendingMachineDFA` is the same code as that of `old2/percobaanGUI.py`.
- The iteration order of Python dictionaries is not modelled. No result depends on it apart from the order of the dispense text in `old2/percobaanGUI.py`, where the model reports the count dictionary as a value.
- Python's `bool` counts as an `int` in `isinstance(x, int)`. Inputs are `Sym`, `Cash` or `Nothing`, so `True` and `False` are not modelled as money.
- A `KeyError` from `stock[item]` on an item missing from the stock cannot happen under the invariants, because the stock always keeps the menu's items. Those paths are not modelled.
- VmCorrectLogic.FirstOutOfStock: it requires every cart item to be a stock key, because `stock[item]` raises `KeyError` otherwise. `Valid()` guarantees this for every cart the class builds.
- The front ends `commit-gemini-2/main.py` and `commit-default/main.py` are not part of this model. Their greedy image loop repeats the greedy fallback of `main.py`, and the rest is GUI code.
- In `main.py` only `_calculate_change` and the change computation of `show_change` are modelled. The widgets that show the bills are left out.
