/** `InventoryHistoryService` (src/domain/services.rs): turns a batch of stock
    movements into a ledger. The movements are put in (date, product code)
    order, and each one becomes a record with the product's stock before the
    movement, the size of the movement and the stock after it. Every product
    keeps its own running balance, which starts at zero. */
module InventoryHistoryService {
  import opened Wrappers
  import InventoryTransactions
  import InventoryTypes
  import InventoryBalances
  import Quantities
  import TransactionDates
  import ProductCodes
  import TransactionOrder
  import Text

  type Transaction = InventoryTransactions.InventoryTransaction

  /** `InventoryHistoryRecord`: one line of the ledger. */
  datatype InventoryHistoryRecord = InventoryHistoryRecord(
    date: TransactionDates.TransactionDate,
    inventoryType: InventoryTypes.InventoryType,
    productCode: ProductCodes.ProductCode,
    productName: string,
    baseQuantity: InventoryBalances.InventoryBalance,
    changeQuantity: Quantities.Quantity,
    balance: InventoryBalances.InventoryBalance)

  function Abs(x: real): (r: real)
    ensures r >= 0.0 && (r == x || r == -x)
  {
    if x < 0.0 then -x else x
  }

  /** What a movement does to its product's stock: production and purchase add
      their quantity, a sale takes it away. */
  function Change(t: Transaction): (r: real)
    ensures Abs(r) == t.quantity as real
    ensures r < 0.0 ==> t.inventoryType == InventoryTypes.Sales
    ensures r > 0.0 ==> t.inventoryType != InventoryTypes.Sales
  {
    match t.inventoryType
    case Production => t.quantity as real
    case Purchase => t.quantity as real
    case Sales => -(t.quantity as real)
  }

  /** The net change the movements `ts` make to the stock of product `code`. */
  function Net(ts: seq<Transaction>, code: string): real {
    if ts == [] then 0.0
    else
      var last := ts[|ts| - 1];
      Net(ts[..|ts| - 1], code) + (if last.productCode == code then Change(last) else 0.0)
  }

  /** The running balance of `code`; a product not seen yet stands at zero. */
  function BalanceOf(balances: map<string, real>, code: string): real {
    if code in balances then balances[code] else 0.0
  }

  /** `rec` is the ledger line for the `k`-th of the ordered movements `ts`. */
  predicate Describes(rec: InventoryHistoryRecord, ts: seq<Transaction>, k: nat)
    requires k < |ts|
  {
    var t := ts[k];
    rec.date == t.date && rec.inventoryType == t.inventoryType
    && rec.productCode == t.productCode && rec.productName == t.productName
    && rec.baseQuantity as real == Net(ts[..k], t.productCode)
    && rec.changeQuantity as real == t.quantity as real
    && rec.balance as real == rec.baseQuantity as real + Change(t)
  }

  /** The net change of two batches one after the other is the sum of both. */
  lemma {:induction false} NetAppend(a: seq<Transaction>, b: seq<Transaction>, code: string)
    ensures Net(a + b, code) == Net(a, code) + Net(b, code)
    decreases |b|
  {
    if b == [] {
      assert a + b == a;
    } else {
      var front := b[..|b| - 1];
      NetAppend(a, front, code);
      assert (a + b)[..|a + b| - 1] == a + front;
      assert (a + b)[|a + b| - 1] == b[|b| - 1];
    }
  }

  lemma NetSingle(t: Transaction, code: string)
    ensures Net([t], code) == if t.productCode == code then Change(t) else 0.0
  {
    assert [t][..0] == [];
  }

  lemma {:induction false} NetInsert(x: Transaction, s: seq<Transaction>, code: string)
    ensures Net(TransactionOrder.Insert(x, s), code) == Net(s, code) + Net([x], code)
  {
    if s == [] {
    } else if TransactionOrder.KeyLe(x, s[0]) {
      NetAppend([x], s, code);
    } else {
      NetInsert(x, s[1..], code);
      NetInsertBehind(x, s, code);
    }
  }

  /** The step of `NetInsert` where `x` goes behind the head of `s`. */
  lemma NetInsertBehind(x: Transaction, s: seq<Transaction>, code: string)
    requires s != [] && !TransactionOrder.KeyLe(x, s[0])
    requires Net(TransactionOrder.Insert(x, s[1..]), code) == Net(s[1..], code) + Net([x], code)
    ensures Net(TransactionOrder.Insert(x, s), code) == Net(s, code) + Net([x], code)
  {
    NetAppend([s[0]], TransactionOrder.Insert(x, s[1..]), code);
    NetAppend([s[0]], s[1..], code);
    assert [s[0]] + s[1..] == s;
  }

  /** Sorting the movements does not change what they add up to for any
      product. */
  lemma {:induction false} NetOfSort(ts: seq<Transaction>, code: string)
    ensures Net(TransactionOrder.SortByKey(ts), code) == Net(ts, code)
  {
    if ts != [] {
      NetOfSort(ts[1..], code);
      NetInsert(ts[0], TransactionOrder.SortByKey(ts[1..]), code);
      NetAppend([ts[0]], ts[1..], code);
      assert [ts[0]] + ts[1..] == ts;
    }
  }

  /** Movements of other products leave a product's net change alone. */
  lemma {:induction false} NetUnaffected(ts: seq<Transaction>, j: nat, k: nat, code: string)
    requires j <= k <= |ts|
    requires forall m :: j <= m < k ==> ts[m].productCode != code
    ensures Net(ts[..k], code) == Net(ts[..j], code)
    decreases k - j
  {
    if j < k {
      assert ts[..k][..k - 1] == ts[..k - 1];
      assert ts[..k][k - 1].productCode != code;
      NetUnaffected(ts, j, k - 1, code);
    }
  }

  /** One more movement of the prefix adds its change, or nothing when it is
      of another product. */
  lemma NetStep(ts: seq<Transaction>, i: nat, code: string)
    requires i < |ts|
    ensures Net(ts[..i + 1], code) == Net(ts[..i], code) + (if ts[i].productCode == code then Change(ts[i]) else 0.0)
  {
    var p := ts[..i + 1];
    assert p[..i] == ts[..i];
    assert p[i] == ts[i];
  }

  /** The stock before the `k`-th movement is the stock after the last earlier
      movement `j` of the same product. */
  lemma BaseIsPreviousBalance(ts: seq<Transaction>, j: nat, k: nat)
    requires j < k <= |ts|
    requires forall m :: j < m < k ==> ts[m].productCode != ts[j].productCode
    ensures Net(ts[..k], ts[j].productCode) == Net(ts[..j], ts[j].productCode) + Change(ts[j])
  {
    NetUnaffected(ts, j + 1, k, ts[j].productCode);
    NetStep(ts, j, ts[j].productCode);
  }

  /** `create_history`. The records follow the (date, product code) order of
      the movements; each one starts from the balance the previous record of
      its product left (zero for the first), and the last record of each
      product holds the net effect of all the movements of that product, in
      whatever order they were given. The `?` on the value-object
      constructors never fires, so the result is always a success. */
  method CreateHistory(transactions: seq<Transaction>) returns (r: Result<seq<InventoryHistoryRecord>>)
    ensures r.Success? && |r.value| == |transactions|
    ensures IsLedgerOf(r.value, TransactionOrder.SortByKey(transactions))
    ensures forall j, k :: 0 <= j < k < |r.value| ==> RecordLe(r.value[j], r.value[k])
    ensures forall k :: (0 <= k < |r.value| && forall m :: 0 <= m < k ==> r.value[m].productCode != r.value[k].productCode) ==>
      r.value[k].baseQuantity as real == 0.0
    ensures forall j, k :: (0 <= j < k < |r.value| && r.value[j].productCode == r.value[k].productCode &&
      forall m :: j < m < k ==> r.value[m].productCode != r.value[k].productCode) ==>
      r.value[k].baseQuantity == r.value[j].balance
    ensures forall k :: (0 <= k < |r.value| && forall m :: k < m < |r.value| ==> r.value[m].productCode != r.value[k].productCode) ==>
      r.value[k].balance as real == Net(transactions, r.value[k].productCode)
  {
    var sorted := TransactionOrder.SortByKey(transactions);
    var balances: map<string, real> := map[];
    var records: seq<InventoryHistoryRecord> := [];
    var i := 0;
    while i < |sorted|
      invariant 0 <= i <= |sorted| && |records| == i
      invariant forall code :: BalanceOf(balances, code) == Net(sorted[..i], code)
      invariant forall k :: 0 <= k < i ==> Describes(records[k], sorted, k)
    {
      var t := sorted[i];
      var code := t.productCode;
      var current := BalanceOf(balances, code);
      var change := match t.inventoryType
        case Production => t.quantity as real
        case Purchase => t.quantity as real
        case Sales => -(t.quantity as real);
      var newBalance := current + change;
      assert change == Change(t);
      BalancesGrow(balances, balances[code := newBalance], sorted, i, code, newBalance);
      balances := balances[code := newBalance];
      var base := InventoryBalances.New(current).value;
      var size := Quantities.New(Abs(change)).value;
      var after := InventoryBalances.New(newBalance).value;
      var rec := InventoryHistoryRecord(t.date, t.inventoryType, code, t.productName, base, size, after);
      assert current == Net(sorted[..i], code);
      assert Describes(rec, sorted, i);
      LedgerGrows(records, rec, sorted, i);
      records := records + [rec];
      i := i + 1;
    }
    LedgerFacts(records, transactions);
    r := Success(records);
  }

  /** What the ledger of the ordered movements says, gathered for `CreateHistory`. */
  lemma LedgerFacts(records: seq<InventoryHistoryRecord>, transactions: seq<Transaction>)
    requires IsLedgerOf(records, TransactionOrder.SortByKey(transactions))
    ensures forall j, k :: 0 <= j < k < |records| ==> RecordLe(records[j], records[k])
    ensures forall k :: (0 <= k < |records| && forall m :: 0 <= m < k ==> records[m].productCode != records[k].productCode) ==>
      records[k].baseQuantity as real == 0.0
    ensures forall j, k :: (0 <= j < k < |records| && records[j].productCode == records[k].productCode &&
      forall m :: j < m < k ==> records[m].productCode != records[k].productCode) ==>
      records[k].baseQuantity == records[j].balance
    ensures forall k :: (0 <= k < |records| && forall m :: k < m < |records| ==> records[m].productCode != records[k].productCode) ==>
      records[k].balance as real == Net(transactions, records[k].productCode)
  {
    var sorted := TransactionOrder.SortByKey(transactions);
    TransactionOrder.SortByKeySorted(transactions);
    LedgerInOrder(records, sorted);
    LedgerStartsAtZero(records, sorted);
    LedgerCarriesBalance(records, sorted);
    LedgerEndsAtNet(records, sorted);
    forall code: string {
      NetOfSort(transactions, code);
    }
  }

  /** One step of the running balances: writing the moved product's new
      balance keeps every product's balance equal to its net change so far. */
  lemma BalancesGrow(balances: map<string, real>, next: map<string, real>, ts: seq<Transaction>, i: nat, code: string, value: real)
    requires i < |ts| && code == ts[i].productCode
    requires forall c :: BalanceOf(balances, c) == Net(ts[..i], c)
    requires value == BalanceOf(balances, code) + Change(ts[i])
    requires next == balances[code := value]
    ensures forall c :: BalanceOf(next, c) == Net(ts[..i + 1], c)
  {
    assert ts[..i + 1][..i] == ts[..i];
  }

  lemma LedgerGrows(records: seq<InventoryHistoryRecord>, rec: InventoryHistoryRecord, ts: seq<Transaction>, i: nat)
    requires |records| == i < |ts|
    requires forall k :: 0 <= k < i ==> Describes(records[k], ts, k)
    requires Describes(rec, ts, i)
    ensures forall k :: 0 <= k < i + 1 ==> Describes((records + [rec])[k], ts, k)
  {
    forall k | 0 <= k < i + 1
      ensures Describes((records + [rec])[k], ts, k)
    {
      if k < i {
        assert (records + [rec])[k] == records[k];
      }
    }
  }

  /** The order of the ledger: by date text, then by product code. */
  predicate RecordLe(a: InventoryHistoryRecord, b: InventoryHistoryRecord) {
    Text.StrLt(a.date, b.date) || (a.date == b.date && Text.StrLe(a.productCode, b.productCode))
  }

  /** A ledger of movements in (date, product code) order is itself in that order. */
  lemma LedgerInOrder(records: seq<InventoryHistoryRecord>, ts: seq<Transaction>)
    requires IsLedgerOf(records, ts) && TransactionOrder.Sorted(ts)
    ensures forall j, k :: 0 <= j < k < |records| ==> RecordLe(records[j], records[k])
  {
    forall j, k | 0 <= j < k < |records|
      ensures RecordLe(records[j], records[k])
    {
      assert Describes(records[j], ts, j) && Describes(records[k], ts, k);
      assert TransactionOrder.KeyLe(ts[j], ts[k]);
    }
  }

  /** `records` is the ledger `create_history` writes for the ordered
      movements `ts`. */
  predicate IsLedgerOf(records: seq<InventoryHistoryRecord>, ts: seq<Transaction>) {
    |records| == |ts| && forall k :: 0 <= k < |ts| ==> Describes(records[k], ts, k)
  }

  lemma SameProducts(records: seq<InventoryHistoryRecord>, ts: seq<Transaction>)
    requires IsLedgerOf(records, ts)
    ensures forall m :: 0 <= m < |records| ==> records[m].productCode == ts[m].productCode
  {
    forall m | 0 <= m < |records|
      ensures records[m].productCode == ts[m].productCode
    {
      assert Describes(records[m], ts, m);
    }
  }

  /** The first record of each product starts from zero. */
  lemma LedgerStartsAtZero(records: seq<InventoryHistoryRecord>, ts: seq<Transaction>)
    requires IsLedgerOf(records, ts)
    ensures forall k :: 0 <= k < |records| && (forall m :: 0 <= m < k ==> records[m].productCode != records[k].productCode) ==>
      records[k].baseQuantity as real == 0.0
  {
    SameProducts(records, ts);
    forall k | 0 <= k < |records| && (forall m :: 0 <= m < k ==> records[m].productCode != records[k].productCode)
      ensures records[k].baseQuantity as real == 0.0
    {
      assert Describes(records[k], ts, k);
      NetUnaffected(ts, 0, k, ts[k].productCode);
    }
  }

  /** Each later record of a product starts from the balance the previous
      record of that product ended with. */
  lemma LedgerCarriesBalance(records: seq<InventoryHistoryRecord>, ts: seq<Transaction>)
    requires IsLedgerOf(records, ts)
    ensures forall j, k :: (0 <= j < k < |records| && records[j].productCode == records[k].productCode &&
      forall m :: j < m < k ==> records[m].productCode != records[k].productCode) ==>
      records[k].baseQuantity == records[j].balance
  {
    SameProducts(records, ts);
    forall j, k | 0 <= j < k < |records| && records[j].productCode == records[k].productCode &&
      (forall m :: j < m < k ==> records[m].productCode != records[k].productCode)
      ensures records[k].baseQuantity == records[j].balance
    {
      assert Describes(records[j], ts, j) && Describes(records[k], ts, k);
      BaseIsPreviousBalance(ts, j, k);
    }
  }

  /** The last record of each product holds the net effect of all of that
      product's movements. */
  lemma LedgerEndsAtNet(records: seq<InventoryHistoryRecord>, ts: seq<Transaction>)
    requires IsLedgerOf(records, ts)
    ensures forall k :: 0 <= k < |records| && (forall m :: k < m < |records| ==> records[m].productCode != records[k].productCode) ==>
      records[k].balance as real == Net(ts, records[k].productCode)
  {
    SameProducts(records, ts);
    forall k | 0 <= k < |records| && (forall m :: k < m < |records| ==> records[m].productCode != records[k].productCode)
      ensures records[k].balance as real == Net(ts, records[k].productCode)
    {
      assert Describes(records[k], ts, k);
      BaseIsPreviousBalance(ts, k, |ts|);
      assert ts[..|ts|] == ts;
    }
  }

  /** A sale dated after a purchase of the same product but listed first: the
      ledger puts the purchase first, from zero to 100, and the sale takes the
      stock from 100 down to 70. */
  method LedgerExample(earlier: TransactionDates.TransactionDate, later: TransactionDates.TransactionDate, code: ProductCodes.ProductCode)
    returns (ledger: seq<InventoryHistoryRecord>)
    requires Text.StrLt(earlier, later)
    ensures |ledger| == 2
    ensures ledger[0].inventoryType == InventoryTypes.Purchase && ledger[0].date == earlier
    ensures ledger[0].baseQuantity == 0.0 && ledger[0].balance == 100.0
    ensures ledger[1].inventoryType == InventoryTypes.Sales && ledger[1].date == later
    ensures ledger[1].baseQuantity == 100.0 && ledger[1].balance == 70.0
  {
    var sale := InventoryTransactions.New(later, InventoryTypes.Sales, code, "珪砂", 30.0);
    var purchase := InventoryTransactions.New(earlier, InventoryTypes.Purchase, code, "珪砂", 100.0);
    Text.StrLtAsymmetric(earlier, later);
    TransactionOrder.SortSwapsPair(sale, purchase);
    var r := CreateHistory([sale, purchase]);
    var sorted := [purchase, sale];
    assert Describes(r.value[0], sorted, 0) && Describes(r.value[1], sorted, 1);
    assert sorted[..1] == [purchase];
    assert r.value[0].inventoryType == InventoryTypes.Purchase;
    assert r.value[0].baseQuantity == 0.0 && r.value[0].balance == 100.0;
    assert r.value[1].inventoryType == InventoryTypes.Sales;
    assert r.value[1].baseQuantity == 100.0 && r.value[1].balance == 70.0;
    ledger := r.value;
  }
}
