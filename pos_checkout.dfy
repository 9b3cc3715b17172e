/**
 * `completeSale` and the backend effects it has, plus the worker balance.
 * The backend tables the sale touches are one state value: the stock per
 * product id, the single receipt-counter row (its id and its value), the
 * transaction table, the expenditure table and the shift table. Each backend call may fail; which
 * one fails (if any) is a parameter, since the network is outside the model.
 */
module PosCheckout {
  import opened Wrappers
  import opened JsText
  import opened PosSale
  import PosShifts

  datatype Customer = Customer(name: string, phone: string)

  /** A row of the transaction table, as `completeSale` inserts it. */
  datatype Transaction = Transaction(
    worker: string, receipt: string, items: seq<Line>, subtotal: real, discount: Option<Discount>,
    discountAmount: real, total: real, paymentMode: string, customer: Option<Customer>)

  datatype Expenditure = Expenditure(worker: string, amount: real)

  /** The backend tables the console reads and writes; `counterId` is the id of the one receipt-counter row. */
  datatype Backend = Backend(
    stock: map<string, int>, counterId: int, counter: int, transactions: seq<Transaction>,
    expenditures: seq<Expenditure>, shifts: seq<PosShifts.Shift>)

  /**
   * Which call of `completeSale` throws, if any: a backend call returning an
   * error, or `printReceipt` when the receipt window cannot be opened
   * (`window.open` gives `null` under a popup blocker).
   */
  datatype Fault = NoFault | CounterRead | StockWrite(line: nat) | Insert | Increment | Print

  /** Where `completeSale` stopped. */
  datatype Stage = ReadCounter | MissingProduct(id: string) | WriteStock(id: string) | InsertTransaction | IncrementCounter | PrintReceipt

  datatype Outcome = EmptySale | Completed(receipt: string) | Failed(stage: Stage)

  /** The transaction insert has run: the sale completed, or a later call threw. */
  predicate Recorded(out: Outcome) {
    out.Completed? || out == Failed(IncrementCounter) || out == Failed(PrintReceipt)
  }

  /** The counter update has run without an error. */
  predicate CounterStored(out: Outcome) {
    out.Completed? || out == Failed(PrintReceipt)
  }

  /** State of the stock-writing loop: still running, or stopped by an exception with the writes made so far. */
  datatype Writes = Running(stock: map<string, int>) | Aborted(stock: map<string, int>, stage: Stage)

  // ---------------------------------------------------------------------------
  // Receipt numbers
  // ---------------------------------------------------------------------------

  /** `RCP${String(counter).padStart(6, '0')}`. */
  function Receipt(counter: int): string {
    "RCP" + PadStart(IntToString(counter), 6, '0')
  }

  /** The receipt is "RCP" and the counter's digits padded to at least six, never truncated, and they read back as the counter. */
  lemma ReceiptFormat(counter: nat)
    ensures Receipt(counter)[..3] == "RCP"
    ensures |Receipt(counter)| == 3 + (if |Digits(counter)| >= 6 then |Digits(counter)| else 6)
    ensures forall i :: 3 <= i < |Receipt(counter)| ==> IsDecimalDigit(Receipt(counter)[i])
    ensures ParseRadix(Receipt(counter)[3..], 10) == counter
  {
    var d := Digits(counter);
    var p := PadStart(d, 6, '0');
    assert Receipt(counter) == "RCP" + p;
    assert Receipt(counter)[3..] == p;
    PaddedValue(d, 6);
    DigitsRoundTrip(counter);
  }

  /** Distinct non-negative counters give distinct receipts. */
  lemma ReceiptInjective(c1: nat, c2: nat)
    requires c1 != c2
    ensures Receipt(c1) != Receipt(c2)
  {
    ReceiptFormat(c1);
    ReceiptFormat(c2);
  }

  // ---------------------------------------------------------------------------
  // The stock-writing loop
  // ---------------------------------------------------------------------------

  /** `update({ stock }).eq('id', id)`: a row that does not exist is left alone. */
  function SetStock(stock: map<string, int>, id: string, value: int): map<string, int> {
    if id in stock then stock[id := value] else stock
  }

  /**
   * One iteration of the loop over the cart lines. A product line reads the
   * product from the worker's cached product list (`products.find`), which
   * throws when it is absent, and writes `cached stock - quantity` with no
   * lower bound; the write itself may fail. A service line does nothing.
   */
  function WriteLine(stock: map<string, int>, cache: map<string, int>, l: Line, fails: bool): Writes {
    if l.kind == Service then Running(stock)
    else if l.id !in cache then Aborted(stock, MissingProduct(l.id))
    else if fails then Aborted(stock, WriteStock(l.id))
    else Running(SetStock(stock, l.id, cache[l.id] - l.quantity))
  }

  /** The loop after its first `n` lines: it stops at the first exception. */
  function StockWrites(stock: map<string, int>, cache: map<string, int>, items: seq<Line>, fault: Fault, n: nat): Writes
    requires n <= |items|
    decreases n
  {
    if n == 0 then Running(stock)
    else match StockWrites(stock, cache, items, fault, n - 1)
      case Aborted(s, e) => Aborted(s, e)
      case Running(s) => WriteLine(s, cache, items[n - 1], fault == StockWrite(n - 1))
  }

  /** Once the loop has stopped, later lines change nothing. */
  lemma {:induction false} AbortSticks(stock: map<string, int>, cache: map<string, int>, items: seq<Line>, fault: Fault, n: nat, m: nat)
    requires n <= m <= |items|
    requires StockWrites(stock, cache, items, fault, n).Aborted?
    ensures StockWrites(stock, cache, items, fault, m) == StockWrites(stock, cache, items, fault, n)
    decreases m - n
  {
    if n < m {
      AbortSticks(stock, cache, items, fault, n, m - 1);
    }
  }

  /** The loop only ever stops on a missing product or a failed stock write. */
  lemma {:induction false} AbortStage(stock: map<string, int>, cache: map<string, int>, items: seq<Line>, fault: Fault, n: nat)
    requires n <= |items|
    requires StockWrites(stock, cache, items, fault, n).Aborted?
    ensures StockWrites(stock, cache, items, fault, n).stage.MissingProduct? || StockWrites(stock, cache, items, fault, n).stage.WriteStock?
    decreases n
  {
    if StockWrites(stock, cache, items, fault, n - 1).Aborted? {
      AbortStage(stock, cache, items, fault, n - 1);
    }
  }

  /** The loop over the cart lines, writing each product's new stock in turn (public/pos-supabase-integration.js:677-689). */
  method WriteStockLoop(stock: map<string, int>, cache: map<string, int>, items: seq<Line>, fault: Fault) returns (w: Writes)
    ensures w == StockWrites(stock, cache, items, fault, |items|)
  {
    var s := stock;
    var i := 0;
    while i < |items|
      invariant 0 <= i <= |items|
      invariant StockWrites(stock, cache, items, fault, i) == Running(s)
    {
      var l := items[i];
      if l.kind == Product {
        if l.id !in cache {
          w := Aborted(s, MissingProduct(l.id));
          AbortSticks(stock, cache, items, fault, i + 1, |items|);
          return;
        }
        var newStock := cache[l.id] - l.quantity;
        if fault == StockWrite(i) {
          w := Aborted(s, WriteStock(l.id));
          AbortSticks(stock, cache, items, fault, i + 1, |items|);
          return;
        }
        if l.id in s {
          s := s[l.id := newStock];
        }
      }
      i := i + 1;
    }
    w := Running(s);
  }

  /** No product line among the first `n` has id `id`. */
  ghost predicate NoProductLine(items: seq<Line>, n: nat, id: string)
    requires n <= |items|
  {
    forall j :: 0 <= j < n ==> !SameKey(items[j], id, Product)
  }

  /**
   * With every product cached and no write failing, each product line's row
   * ends at `cached stock - quantity` (it may go below zero), and every other
   * row is untouched; no row is added or removed.
   */
  lemma {:induction false} StockWritesEffect(stock: map<string, int>, cache: map<string, int>, items: seq<Line>, fault: Fault, n: nat)
    requires n <= |items|
    requires UniqueKeys(items)
    requires forall j :: 0 <= j < n && items[j].kind == Product ==> items[j].id in cache && fault != StockWrite(j)
    ensures StockWrites(stock, cache, items, fault, n).Running?
    ensures StockWrites(stock, cache, items, fault, n).stock.Keys == stock.Keys
    ensures forall j :: 0 <= j < n && items[j].kind == Product && items[j].id in stock ==>
      StockWrites(stock, cache, items, fault, n).stock[items[j].id] == cache[items[j].id] - items[j].quantity
    ensures forall id :: id in stock && NoProductLine(items, n, id) ==>
      StockWrites(stock, cache, items, fault, n).stock[id] == stock[id]
    decreases n
  {
    if n > 0 {
      StockWritesEffect(stock, cache, items, fault, n - 1);
      var l := items[n - 1];
      var r := StockWrites(stock, cache, items, fault, n);
      forall j | 0 <= j < n - 1 && items[j].kind == Product && items[j].id in stock
        ensures r.stock[items[j].id] == cache[items[j].id] - items[j].quantity
      {
        if l.kind == Product {
          assert !SameKey(items[n - 1], items[j].id, items[j].kind);
        }
      }
    }
  }

  /** A service-only sale leaves every stock count as it was. */
  lemma ServicesLeaveStock(stock: map<string, int>, cache: map<string, int>, items: seq<Line>, fault: Fault)
    requires UniqueKeys(items)
    requires forall j :: 0 <= j < |items| ==> items[j].kind == Service
    ensures StockWrites(stock, cache, items, fault, |items|) == Running(stock)
  {
    StockWritesEffect(stock, cache, items, fault, |items|);
    var r := StockWrites(stock, cache, items, fault, |items|).stock;
    forall id | id in stock ensures r[id] == stock[id] {
      assert NoProductLine(items, |items|, id);
    }
  }

  // ---------------------------------------------------------------------------
  // completeSale
  // ---------------------------------------------------------------------------

  /** `customerName || customerPhone ? { name, phone } : null`. */
  function CustomerOf(name: string, phone: string): Option<Customer> {
    if name != "" || phone != "" then Some(Customer(name, phone)) else None
  }

  function TransactionOf(v: SaleView, worker: string, receipt: string, paymentMode: string, name: string, phone: string): Transaction {
    Transaction(worker, receipt, v.items, v.subtotal, v.discount, v.discountAmount, v.total, paymentMode, CustomerOf(name, phone))
  }

  /**
   * `update({ counter: counter + 1 }).eq('id', 1)`: the read took the one
   * counter row whatever its id, but the write only reaches a row with id 1;
   * otherwise it updates nothing and reports no error.
   */
  function BumpCounter(db: Backend, read: int): (db': Backend)
    ensures db' == db.(counter := db'.counter)
    ensures db'.counter == (if db.counterId == 1 then read + 1 else db.counter)
  {
    if db.counterId == 1 then db.(counter := read + 1) else db
  }

  /**
   * `completeSale` as a function of the cart and the backend: read the
   * counter, write the stock line by line, insert the transaction, store
   * `counter + 1`, then print the receipt. Each step runs only if the earlier
   * ones succeeded, and nothing is undone when a later step fails.
   */
  function Checkout(v: SaleView, db: Backend, cache: map<string, int>, worker: string, paymentMode: string,
                    name: string, phone: string, fault: Fault): (Backend, Outcome)
  {
    if v.items == [] then (db, EmptySale)
    else if fault == CounterRead then (db, Failed(ReadCounter))
    else
      var receipt := Receipt(db.counter);
      match StockWrites(db.stock, cache, v.items, fault, |v.items|)
      case Aborted(s, e) => (db.(stock := s), Failed(e))
      case Running(s) =>
        if fault == Insert then (db.(stock := s), Failed(InsertTransaction))
        else
          var logged := db.(stock := s, transactions := db.transactions + [TransactionOf(v, worker, receipt, paymentMode, name, phone)]);
          if fault == Increment then (logged, Failed(IncrementCounter))
          else
            var bumped := BumpCounter(logged, db.counter);
            if fault == Print then (bumped, Failed(PrintReceipt))
            else (bumped, Completed(receipt))
  }

  /** An empty cart changes nothing. */
  lemma CheckoutEmpty(v: SaleView, db: Backend, cache: map<string, int>, worker: string, mode: string, name: string, phone: string, fault: Fault)
    requires v.items == []
    ensures Checkout(v, db, cache, worker, mode, name, phone, fault) == (db, EmptySale)
  {
  }

  /**
   * What every outcome leaves behind: the counter moves by exactly one only
   * once its update has run, and only when the counter row has id 1; the
   * transaction table grows by exactly one record, carrying the receipt for
   * the counter that was read, only once the insert has happened;
   * expenditures and shifts are never touched.
   */
  lemma CheckoutEffects(v: SaleView, db: Backend, cache: map<string, int>, worker: string, mode: string, name: string, phone: string, fault: Fault)
    ensures var (db', out) := Checkout(v, db, cache, worker, mode, name, phone, fault);
      && db'.counter == (if CounterStored(out) && db.counterId == 1 then db.counter + 1 else db.counter)
      && db'.counterId == db.counterId
      && (out.Completed? ==> out.receipt == Receipt(db.counter))
      && db'.transactions == (if Recorded(out)
                              then db.transactions + [TransactionOf(v, worker, Receipt(db.counter), mode, name, phone)]
                              else db.transactions)
      && db'.expenditures == db.expenditures && db'.shifts == db.shifts
      && (out == EmptySale <==> v.items == [])
  {
    if v.items != [] && fault != CounterRead {
      var w := StockWrites(db.stock, cache, v.items, fault, |v.items|);
      if w.Aborted? {
        AbortStage(db.stock, cache, v.items, fault, |v.items|);
      } else if fault == Insert {
      } else if fault == Increment {
      } else if fault == Print {
      } else {
      }
    }
  }

  /**
   * A sale of cached products with no failing call completes: the receipt is
   * built from the counter, the counter goes up by one (when its row has id
   * 1), one transaction is
   * appended, and each product line's stock becomes its cached stock minus its
   * quantity while every other row keeps its stock.
   */
  lemma CheckoutSuccess(v: SaleView, db: Backend, cache: map<string, int>, worker: string, mode: string, name: string, phone: string)
    requires v.items != [] && UniqueKeys(v.items)
    requires forall j :: 0 <= j < |v.items| && v.items[j].kind == Product ==> v.items[j].id in cache
    ensures var (db', out) := Checkout(v, db, cache, worker, mode, name, phone, NoFault);
      && out == Completed(Receipt(db.counter))
      && db'.counter == (if db.counterId == 1 then db.counter + 1 else db.counter)
      && db'.counterId == db.counterId
      && db'.transactions == db.transactions + [TransactionOf(v, worker, Receipt(db.counter), mode, name, phone)]
      && db'.stock.Keys == db.stock.Keys
      && (forall j :: 0 <= j < |v.items| && v.items[j].kind == Product && v.items[j].id in db.stock ==>
            db'.stock[v.items[j].id] == cache[v.items[j].id] - v.items[j].quantity)
      && (forall id :: id in db.stock && NoProductLine(v.items, |v.items|, id) ==> db'.stock[id] == db.stock[id])
  {
    StockWritesEffect(db.stock, cache, v.items, NoFault, |v.items|);
    var s := StockWrites(db.stock, cache, v.items, NoFault, |v.items|).stock;
    var t := TransactionOf(v, worker, Receipt(db.counter), mode, name, phone);
    assert Checkout(v, db, cache, worker, mode, name, phone, NoFault)
      == (BumpCounter(db.(stock := s, transactions := db.transactions + [t]), db.counter), Completed(Receipt(db.counter)));
  }

  /**
   * The stock is not checked: a sale of more units than the cached stock
   * drives the row below zero.
   */
  lemma NoStockFloor()
    ensures var v := SaleView([Line("p", "soap", 2.0, 3, 6.0, Product)], 6.0, None, 0.0, 6.0);
            var db := Backend(map["p" := 1], 1, 7, [], [], []);
            Checkout(v, db, map["p" := 1], "w", "cash", "", "", NoFault).0.stock["p"] == -2
  {
    var items := [Line("p", "soap", 2.0, 3, 6.0, Product)];
    assert StockWrites(map["p" := 1], map["p" := 1], items, NoFault, 1) == Running(map["p" := -2]);
  }

  /**
   * A failed counter update after the insert leaves a transaction recorded
   * under the counter's receipt while the counter stays put, so the next
   * successful sale gets the same receipt number.
   */
  lemma DuplicateReceiptAfterIncrementFailure(v: SaleView, w: SaleView, db: Backend, cache: map<string, int>, worker: string, mode: string, name: string, phone: string)
    requires v.items != [] && w.items != [] && UniqueKeys(v.items) && UniqueKeys(w.items)
    requires forall j :: 0 <= j < |v.items| && v.items[j].kind == Product ==> v.items[j].id in cache
    requires forall j :: 0 <= j < |w.items| && w.items[j].kind == Product ==> w.items[j].id in cache
    ensures Checkout(v, db, cache, worker, mode, name, phone, Increment).1 == Failed(IncrementCounter)
    ensures Checkout(v, db, cache, worker, mode, name, phone, Increment).0.transactions
            == db.transactions + [TransactionOf(v, worker, Receipt(db.counter), mode, name, phone)]
    ensures Checkout(w, Checkout(v, db, cache, worker, mode, name, phone, Increment).0, cache, worker, mode, name, phone, NoFault).1
            == Completed(Receipt(db.counter))
  {
    StockWritesEffect(db.stock, cache, v.items, Increment, |v.items|);
    var db1 := Checkout(v, db, cache, worker, mode, name, phone, Increment).0;
    assert db1.counter == db.counter;
    CheckoutSuccess(w, db1, cache, worker, mode, name, phone);
  }

  /**
   * A counter row whose id is not 1 is read but never written, with no error
   * reported: every later sale is issued the same receipt number.
   */
  lemma UnmatchedCounterRowRepeats(v: SaleView, w: SaleView, db: Backend, cache: map<string, int>, worker: string, mode: string, name: string, phone: string)
    requires db.counterId != 1
    requires v.items != [] && w.items != [] && UniqueKeys(v.items) && UniqueKeys(w.items)
    requires forall j :: 0 <= j < |v.items| && v.items[j].kind == Product ==> v.items[j].id in cache
    requires forall j :: 0 <= j < |w.items| && w.items[j].kind == Product ==> w.items[j].id in cache
    ensures Checkout(v, db, cache, worker, mode, name, phone, NoFault).1 == Completed(Receipt(db.counter))
    ensures Checkout(w, Checkout(v, db, cache, worker, mode, name, phone, NoFault).0, cache, worker, mode, name, phone, NoFault).1
            == Completed(Receipt(db.counter))
  {
    CheckoutSuccess(v, db, cache, worker, mode, name, phone);
    var db1 := Checkout(v, db, cache, worker, mode, name, phone, NoFault).0;
    CheckoutSuccess(w, db1, cache, worker, mode, name, phone);
  }

  /**
   * When the receipt window cannot be opened, the sale is already recorded and
   * the counter stored, but the cart is kept (see `CompleteSale`); pressing the
   * button again records the same cart a second time, under the next receipt.
   */
  lemma PrintFailureRecordsTwice(v: SaleView, db: Backend, cache: map<string, int>, worker: string, mode: string, name: string, phone: string)
    requires db.counterId == 1
    requires v.items != [] && UniqueKeys(v.items)
    requires forall j :: 0 <= j < |v.items| && v.items[j].kind == Product ==> v.items[j].id in cache
    ensures Checkout(v, db, cache, worker, mode, name, phone, Print).1 == Failed(PrintReceipt)
    ensures Checkout(v, db, cache, worker, mode, name, phone, Print).0.counter == db.counter + 1
    ensures Checkout(v, Checkout(v, db, cache, worker, mode, name, phone, Print).0, cache, worker, mode, name, phone, NoFault).0.transactions
            == db.transactions + [TransactionOf(v, worker, Receipt(db.counter), mode, name, phone),
                                  TransactionOf(v, worker, Receipt(db.counter + 1), mode, name, phone)]
  {
    PrintFailureCommits(v, db, cache, worker, mode, name, phone);
    CheckoutSuccess(v, db, cache, worker, mode, name, phone);
    var db1 := Checkout(v, db, cache, worker, mode, name, phone, NoFault).0;
    CheckoutSuccess(v, db1, cache, worker, mode, name, phone);
    var first := TransactionOf(v, worker, Receipt(db.counter), mode, name, phone);
    var second := TransactionOf(v, worker, Receipt(db.counter + 1), mode, name, phone);
    assert db.transactions + [first] + [second] == db.transactions + [first, second];
  }

  /** A receipt window that cannot be opened leaves every table as a completed sale does. */
  lemma PrintFailureCommits(v: SaleView, db: Backend, cache: map<string, int>, worker: string, mode: string, name: string, phone: string)
    requires v.items != []
    ensures Checkout(v, db, cache, worker, mode, name, phone, Print).0 == Checkout(v, db, cache, worker, mode, name, phone, NoFault).0
    ensures Checkout(v, db, cache, worker, mode, name, phone, NoFault).1.Completed? ==>
            Checkout(v, db, cache, worker, mode, name, phone, Print).1 == Failed(PrintReceipt)
  {
    SameWritesWithoutStockFault(db.stock, cache, v.items, Print, |v.items|);
  }

  /** A fault outside the loop does not change what the loop writes. */
  lemma {:induction false} SameWritesWithoutStockFault(stock: map<string, int>, cache: map<string, int>, items: seq<Line>, fault: Fault, n: nat)
    requires n <= |items| && !fault.StockWrite?
    ensures StockWrites(stock, cache, items, fault, n) == StockWrites(stock, cache, items, NoFault, n)
    decreases n
  {
    if n > 0 {
      SameWritesWithoutStockFault(stock, cache, items, fault, n - 1);
    }
  }

  /**
   * `completeSale()` on the current cart. On success the cart is reset; on any
   * other outcome (empty cart, a failing call, including a receipt window that
   * cannot be opened after the sale was recorded) the cart is left as it was.
   */
  method CompleteSale(sale: Sale, db: Backend, cache: map<string, int>, worker: string, paymentMode: string,
                      name: string, phone: string, fault: Fault) returns (db': Backend, outcome: Outcome)
    requires sale.Valid()
    modifies sale
    ensures (db', outcome) == Checkout(old(sale.View()), db, cache, worker, paymentMode, name, phone, fault)
    ensures sale.Valid()
    ensures outcome.Completed? ==>
      sale.items == [] && sale.subtotal == 0.0 && sale.discount == None && sale.discountAmount == 0.0 && sale.total == 0.0
    ensures !outcome.Completed? ==> sale.View() == old(sale.View())
  {
    db' := db;
    if |sale.items| == 0 {
      outcome := EmptySale;
      return;
    }
    if fault == CounterRead {
      outcome := Failed(ReadCounter);
      return;
    }
    var receipt := Receipt(db.counter);
    var w := WriteStockLoop(db.stock, cache, sale.items, fault);
    db' := db'.(stock := w.stock);
    if w.Aborted? {
      outcome := Failed(w.stage);
      return;
    }
    if fault == Insert {
      outcome := Failed(InsertTransaction);
      return;
    }
    var record := TransactionOf(sale.View(), worker, receipt, paymentMode, name, phone);
    db' := db'.(transactions := db'.transactions + [record]);
    if fault == Increment {
      outcome := Failed(IncrementCounter);
      return;
    }
    db' := BumpCounter(db', db.counter);
    if fault == Print {
      outcome := Failed(PrintReceipt);
      return;
    }
    outcome := Completed(receipt);
    sale.Reset();
  }

  // ---------------------------------------------------------------------------
  // Worker balance
  // ---------------------------------------------------------------------------

  /** Sum of the totals of the worker's transactions, in table order. */
  function SalesOf(txs: seq<Transaction>, worker: string): real
    decreases |txs|
  {
    if txs == [] then 0.0
    else SalesOf(txs[..|txs| - 1], worker) + (if txs[|txs| - 1].worker == worker then txs[|txs| - 1].total else 0.0)
  }

  /** Sum of the amounts of the worker's expenditures, in table order. */
  function ExpensesOf(es: seq<Expenditure>, worker: string): real
    decreases |es|
  {
    if es == [] then 0.0
    else ExpensesOf(es[..|es| - 1], worker) + (if es[|es| - 1].worker == worker then es[|es| - 1].amount else 0.0)
  }

  /** `calculateWorkerBalance(worker)`: the worker's sales minus the worker's expenses. */
  function WorkerBalance(db: Backend, worker: string): real {
    SalesOf(db.transactions, worker) - ExpensesOf(db.expenditures, worker)
  }

  /** A worker with no transactions and no expenditures has balance zero. */
  lemma {:induction false} BalanceOfStranger(db: Backend, worker: string)
    requires forall t <- db.transactions :: t.worker != worker
    requires forall e <- db.expenditures :: e.worker != worker
    ensures WorkerBalance(db, worker) == 0.0
  {
    NoSales(db.transactions, worker);
    NoExpenses(db.expenditures, worker);
  }

  lemma {:induction false} NoSales(txs: seq<Transaction>, worker: string)
    requires forall t <- txs :: t.worker != worker
    ensures SalesOf(txs, worker) == 0.0
    decreases |txs|
  {
    if txs != [] {
      assert txs[|txs| - 1] in txs;
      NoSales(txs[..|txs| - 1], worker);
    }
  }

  lemma {:induction false} NoExpenses(es: seq<Expenditure>, worker: string)
    requires forall e <- es :: e.worker != worker
    ensures ExpensesOf(es, worker) == 0.0
    decreases |es|
  {
    if es != [] {
      assert es[|es| - 1] in es;
      NoExpenses(es[..|es| - 1], worker);
    }
  }

  /**
   * Once a sale has been recorded (it completed, or only the counter update
   * failed), the selling worker's balance has grown by the sale total and
   * every other worker's balance is unchanged.
   */
  lemma CheckoutBalance(v: SaleView, db: Backend, cache: map<string, int>, worker: string, mode: string,
                        name: string, phone: string, fault: Fault, other: string)
    requires other != worker
    ensures var (db', out) := Checkout(v, db, cache, worker, mode, name, phone, fault);
      && (Recorded(out) ==> WorkerBalance(db', worker) == WorkerBalance(db, worker) + v.total)
      && (!Recorded(out) ==> WorkerBalance(db', worker) == WorkerBalance(db, worker))
      && WorkerBalance(db', other) == WorkerBalance(db, other)
  {
    CheckoutEffects(v, db, cache, worker, mode, name, phone, fault);
    var t := TransactionOf(v, worker, Receipt(db.counter), mode, name, phone);
    var txs := db.transactions + [t];
    assert txs[..|txs| - 1] == db.transactions;
  }
}
