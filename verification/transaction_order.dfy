/** The order in which `InventoryHistoryService::create_history`
    (src/domain/services.rs) walks the stock movements: by date, then by
    product code, both compared as text, keeping movements with equal keys in
    their input order (Rust's `sort_by` is stable).

    The sort itself is a library routine; it is specified here by a stable
    insertion sort, whose result is a permutation of its input, sorted by key,
    with the movements of each key in their input order. */
module TransactionOrder {
  import opened Text
  import InventoryTransactions

  type Transaction = InventoryTransactions.InventoryTransaction

  /** `a` may come before `b`: an earlier date text, or the same date and a
      product code that is not greater. */
  predicate KeyLe(a: Transaction, b: Transaction) {
    StrLt(a.date, b.date) || (a.date == b.date && StrLe(a.productCode, b.productCode))
  }

  /** Same date and same product code: the comparator calls them equal. */
  predicate SameKey(a: Transaction, b: Transaction) {
    a.date == b.date && a.productCode == b.productCode
  }

  lemma KeyLeReflexive(a: Transaction)
    ensures KeyLe(a, a)
  {
    StrLeReflexive(a.productCode);
  }

  lemma KeyLeTotal(a: Transaction, b: Transaction)
    ensures KeyLe(a, b) || KeyLe(b, a)
  {
    StrLeTotal(a.date, b.date);
    StrLeTotal(a.productCode, b.productCode);
  }

  lemma KeyLeTransitive(a: Transaction, b: Transaction, c: Transaction)
    requires KeyLe(a, b) && KeyLe(b, c)
    ensures KeyLe(a, c)
  {
    StrLeReflexive(a.date);
    StrLeReflexive(b.date);
    StrLeTransitive(a.date, b.date, c.date);
    if a.date == c.date {
      if a.date != b.date {
        StrLeAntisymmetric(a.date, b.date);
      }
      StrLeTransitive(a.productCode, b.productCode, c.productCode);
    }
  }

  /** The comparator calls two movements equal exactly when they have the same key. */
  lemma KeyLeBothWays(a: Transaction, b: Transaction)
    ensures KeyLe(a, b) && KeyLe(b, a) <==> SameKey(a, b)
  {
    if KeyLe(a, b) && KeyLe(b, a) {
      if a.date != b.date {
        StrLeAntisymmetric(a.date, b.date);
      }
      StrLeAntisymmetric(a.productCode, b.productCode);
    }
    if SameKey(a, b) {
      StrLeReflexive(a.productCode);
    }
  }

  predicate Sorted(s: seq<Transaction>) {
    forall i, j :: 0 <= i < j < |s| ==> KeyLe(s[i], s[j])
  }

  /** `x` placed before the first element it may precede, so after every
      element with the same key. */
  function Insert(x: Transaction, s: seq<Transaction>): (r: seq<Transaction>)
    ensures multiset(r) == multiset(s) + multiset{x}
    ensures |r| == |s| + 1
  {
    if s == [] then [x]
    else if KeyLe(x, s[0]) then [x] + s
    else
      assert s == [s[0]] + s[1..];
      [s[0]] + Insert(x, s[1..])
  }

  /** The order `sort_by` produces. */
  function SortByKey(ts: seq<Transaction>): (r: seq<Transaction>)
    ensures multiset(r) == multiset(ts)
    ensures |r| == |ts|
  {
    if ts == [] then []
    else
      assert ts == [ts[0]] + ts[1..];
      Insert(ts[0], SortByKey(ts[1..]))
  }

  /** Every element of `Insert(x, s)` is `x` or an element of `s`. */
  lemma {:induction false} InsertElements(x: Transaction, s: seq<Transaction>)
    ensures forall j :: 0 <= j < |Insert(x, s)| ==> Insert(x, s)[j] == x || Insert(x, s)[j] in s
  {
    if s != [] && !KeyLe(x, s[0]) {
      InsertElements(x, s[1..]);
      var r := Insert(x, s);
      assert r[1..] == Insert(x, s[1..]);
      forall j | 0 <= j < |r|
        ensures r[j] == x || r[j] in s
      {
        if j > 0 {
          assert r[j] == Insert(x, s[1..])[j - 1];
        }
      }
    }
  }

  /** A sorted sequence stays sorted behind an element that may precede all of it. */
  lemma ConsSorted(h: Transaction, s: seq<Transaction>)
    requires Sorted(s)
    requires forall j :: 0 <= j < |s| ==> KeyLe(h, s[j])
    ensures Sorted([h] + s)
  {
    var r := [h] + s;
    assert r[0] == h;
    assert forall j :: 1 <= j < |r| ==> r[j] == s[j - 1];
    forall i, j | 0 <= i < j < |r|
      ensures KeyLe(r[i], r[j])
    {
      if i > 0 {
        assert KeyLe(s[i - 1], s[j - 1]);
      }
    }
  }

  /** `h` may precede everything in `Insert(x, s)` when it may precede `x`
      and everything in `s`. */
  lemma HeadBeforeInsert(h: Transaction, x: Transaction, s: seq<Transaction>)
    requires KeyLe(h, x)
    requires forall j :: 0 <= j < |s| ==> KeyLe(h, s[j])
    ensures forall j :: 0 <= j < |Insert(x, s)| ==> KeyLe(h, Insert(x, s)[j])
  {
    InsertElements(x, s);
  }

  lemma {:induction false} InsertSorted(x: Transaction, s: seq<Transaction>)
    requires Sorted(s)
    ensures Sorted(Insert(x, s))
  {
    if s == [] {
    } else if KeyLe(x, s[0]) {
      forall j | 0 <= j < |s|
        ensures KeyLe(x, s[j])
      {
        if j > 0 {
          KeyLeTransitive(x, s[0], s[j]);
        }
      }
      ConsSorted(x, s);
    } else {
      KeyLeTotal(x, s[0]);
      assert Sorted(s[1..]);
      InsertSorted(x, s[1..]);
      HeadBeforeInsert(s[0], x, s[1..]);
      ConsSorted(s[0], Insert(x, s[1..]));
    }
  }

  /** The result is sorted by (date, product code). */
  lemma {:induction false} SortByKeySorted(ts: seq<Transaction>)
    ensures Sorted(SortByKey(ts))
  {
    if ts != [] {
      SortByKeySorted(ts[1..]);
      InsertSorted(ts[0], SortByKey(ts[1..]));
    }
  }

  /** Two movements given in the wrong order come out swapped. */
  lemma SortSwapsPair(x: Transaction, y: Transaction)
    requires !KeyLe(x, y)
    ensures SortByKey([x, y]) == [y, x]
  {
    assert [x, y][1..] == [y];
    assert [y][1..] == [];
  }

  /** The movements of `s` that have the key of `k`, in the order of `s`. */
  function WithKey(s: seq<Transaction>, k: Transaction): seq<Transaction> {
    if s == [] then []
    else if SameKey(s[0], k) then [s[0]] + WithKey(s[1..], k)
    else WithKey(s[1..], k)
  }

  lemma {:induction false} InsertStable(x: Transaction, s: seq<Transaction>, k: Transaction)
    ensures SameKey(x, k) ==> WithKey(Insert(x, s), k) == [x] + WithKey(s, k)
    ensures !SameKey(x, k) ==> WithKey(Insert(x, s), k) == WithKey(s, k)
  {
    if s == [] {
      assert Insert(x, s)[1..] == [];
    } else if KeyLe(x, s[0]) {
      assert Insert(x, s)[1..] == s;
    } else {
      var r := Insert(x, s);
      assert r[0] == s[0] && r[1..] == Insert(x, s[1..]);
      InsertStable(x, s[1..], k);
      if SameKey(x, k) {
        // s[0] cannot share x's key, or x would have been placed before it
        KeyLeReflexive(x);
        assert !SameKey(s[0], k);
      }
    }
  }

  /** Stability: for every key, the movements with that key come out in the
      order they went in. */
  lemma {:induction false} SortByKeyStable(ts: seq<Transaction>, k: Transaction)
    ensures WithKey(SortByKey(ts), k) == WithKey(ts, k)
  {
    if ts != [] {
      SortByKeyStable(ts[1..], k);
      InsertStable(ts[0], SortByKey(ts[1..]), k);
    }
  }
}
