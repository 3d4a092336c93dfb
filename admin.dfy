/**
 * The operator side of the shop: the `admin_only` gate, the two catalog
 * writes (`add_product`, `update_stock`) and the two reports
 * (`show_stats`, `show_recent_orders`).
 */
module Admin {
  import opened Wrappers
  import opened Database
  import opened CommandArgs

  // ---------------------------------------------------------------------
  // The gate
  // ---------------------------------------------------------------------

  /** A gated handler's outcome: refused at the gate, or the handler's own reply. */
  datatype Gated<+R> = Denied | Reached(reply: R)

  /**
   * The `admin_only` decorator: a caller whose id is not among the
   * configured admin ids is refused and the wrapped handler never runs;
   * an admin's call is exactly the wrapped handler's call. `handled` is
   * what the wrapped handler would do to `t`.
   */
  function AdminOnly<R>(callerId: int, adminIds: seq<int>, t: Tables, handled: Step<R>): (r: Step<Gated<R>>)
    ensures callerId !in adminIds ==> r.tables == t && r.reply == Denied
    ensures callerId in adminIds ==> r.tables == handled.tables && r.reply == Reached(handled.reply)
  {
    if callerId !in adminIds then Step(t, Denied) else Step(handled.tables, Reached(handled.reply))
  }

  // ---------------------------------------------------------------------
  // add_product <name> <price BTC> <price LTC> <file_id> <stock>
  // ---------------------------------------------------------------------

  datatype AddReply = AddUsage | AddBadValue | ProductAdded(productId: int)

  /** The five arguments are there and the three numbers parse. */
  predicate AddArgsValid(args: seq<Token>)
  {
    |args| == 5 && UnitsArg(args, 1).Some? && UnitsArg(args, 2).Some? && IntArg(args, 4).Some?
  }

  /** The handler behind the gate. */
  function AddProductHandler(t: Tables, args: seq<Token>): Step<AddReply>
    requires WellFormed(t)
  {
    if |args| != 5 then Step(t, AddUsage)
    else if UnitsArg(args, 1).None? || UnitsArg(args, 2).None? || IntArg(args, 4).None? then Step(t, AddBadValue)
    else
      var row := NewProduct(args[0].text, UnitsArg(args, 1).value, UnitsArg(args, 2).value, args[3].text,
                            IntArg(args, 4));
      var inserted := InsertProduct(t, row);
      Step(inserted.tables, ProductAdded(inserted.reply))
  }

  function AddProductStep(t: Tables, callerId: int, adminIds: seq<int>, args: seq<Token>): (r: Step<Gated<AddReply>>)
    requires WellFormed(t)
    ensures WellFormed(r.tables)
    ensures r.tables.transactions == t.transactions
    ensures r.tables.nextTransactionId == t.nextTransactionId
    ensures callerId !in adminIds ==> r.tables == t && r.reply == Denied
    ensures |args| != 5 ==> r.tables == t
    ensures r.reply.Reached? && r.reply.reply.ProductAdded? <==> callerId in adminIds && AddArgsValid(args)
    ensures !(r.reply.Reached? && r.reply.reply.ProductAdded?) ==> r.tables == t
    ensures r.reply.Reached? && r.reply.reply.ProductAdded? && AddArgsValid(args) ==>
              var id := r.reply.reply.productId;
              && id !in t.products
              && |r.tables.products| == |t.products| + 1
              && r.tables.products == t.products[id := Product(id, args[0].text, UnitsArg(args, 1).value,
                                                                UnitsArg(args, 2).value, args[3].text,
                                                                IntArg(args, 4).value)]
  {
    AdminOnly(callerId, adminIds, t, AddProductHandler(t, args))
  }

  method AddProduct(store: Store, callerId: int, adminIds: seq<int>, args: seq<Token>) returns (reply: Gated<AddReply>)
    requires store.Valid()
    modifies store
    ensures store.Valid()
    ensures Step(store.State(), reply) == AddProductStep(old(store.State()), callerId, adminIds, args)
  {
    if callerId !in adminIds {
      return Denied;
    }
    if |args| != 5 {
      return Reached(AddUsage);
    }
    if UnitsArg(args, 1).None? || UnitsArg(args, 2).None? || IntArg(args, 4).None? {
      return Reached(AddBadValue);
    }
    var row := NewProduct(args[0].text, UnitsArg(args, 1).value, UnitsArg(args, 2).value, args[3].text,
                          IntArg(args, 4));
    var id := store.AddProduct(row);
    return Reached(ProductAdded(id));
  }

  // ---------------------------------------------------------------------
  // update_stock <product id> <new stock>
  // ---------------------------------------------------------------------

  datatype StockReply = StockUsage | StockBadValue | StockUpdated | ProductNotFound

  /** The handler behind the gate; the new stock is stored as given, negative or not. */
  function UpdateStockHandler(t: Tables, args: seq<Token>): Step<StockReply>
  {
    if |args| != 2 then Step(t, StockUsage)
    else if IntArg(args, 0).None? || IntArg(args, 1).None? then Step(t, StockBadValue)
    else
      var id := IntArg(args, 0).value;
      if id in t.products then
        Step(t.(products := t.products[id := t.products[id].(stock := IntArg(args, 1).value)]), StockUpdated)
      else
        Step(t, ProductNotFound)
  }

  function UpdateStockStep(t: Tables, callerId: int, adminIds: seq<int>, args: seq<Token>): (r: Step<Gated<StockReply>>)
    requires WellFormed(t)
    ensures WellFormed(r.tables)
    ensures r.tables.transactions == t.transactions
    ensures r.tables.nextProductId == t.nextProductId && r.tables.nextTransactionId == t.nextTransactionId
    ensures callerId !in adminIds ==> r.tables == t && r.reply == Denied
    ensures |args| != 2 ==> r.tables == t
    ensures r.reply == Reached(StockUpdated) <==>
              && callerId in adminIds && |args| == 2
              && IntArg(args, 0).Some? && IntArg(args, 1).Some?
              && IntArg(args, 0).value in t.products
    ensures r.reply != Reached(StockUpdated) ==> r.tables == t
    ensures r.reply == Reached(StockUpdated) && |args| == 2 && IntArg(args, 0).Some? && IntArg(args, 1).Some? ==>
              var id := IntArg(args, 0).value;
              && id in t.products
              && SameExcept(t.products, r.tables.products, id)
              && r.tables.products[id] == t.products[id].(stock := IntArg(args, 1).value)
  {
    AdminOnly(callerId, adminIds, t, UpdateStockHandler(t, args))
  }

  method UpdateStock(store: Store, callerId: int, adminIds: seq<int>, args: seq<Token>) returns (reply: Gated<StockReply>)
    requires store.Valid()
    modifies store
    ensures store.Valid()
    ensures Step(store.State(), reply) == UpdateStockStep(old(store.State()), callerId, adminIds, args)
  {
    if callerId !in adminIds {
      return Denied;
    }
    if |args| != 2 {
      return Reached(StockUsage);
    }
    if IntArg(args, 0).None? || IntArg(args, 1).None? {
      return Reached(StockBadValue);
    }
    var id := IntArg(args, 0).value;
    if id in store.products {
      var product := store.products[id];
      store.products := store.products[id := product.(stock := IntArg(args, 1).value)];
      return Reached(StockUpdated);
    } else {
      return Reached(ProductNotFound);
    }
  }

  // ---------------------------------------------------------------------
  // show_stats
  // ---------------------------------------------------------------------

  datatype Stats = Stats(products: nat, sales: nat, awaitingPayment: nat)

  function StatusIds(txs: map<int, Transaction>, s: Status): set<int>
  {
    set id | id in txs && txs[id].status == s
  }

  function CountStatus(txs: map<int, Transaction>, s: Status): nat
  {
    |StatusIds(txs, s)|
  }

  /** Every transaction is counted under exactly one of the three statuses. */
  lemma StatusesPartition(txs: map<int, Transaction>)
    ensures CountStatus(txs, Pending) + CountStatus(txs, Completed) + CountStatus(txs, Refunded) == |txs|
  {
    var p, c, f := StatusIds(txs, Pending), StatusIds(txs, Completed), StatusIds(txs, Refunded);
    forall id | id in txs.Keys
      ensures id in p + c + f
    {
      match txs[id].status
      case Pending => assert id in p;
      case Completed => assert id in c;
      case Refunded => assert id in f;
    }
    assert p + c + f == txs.Keys;
    assert p * c == {};
    assert (p + c) * f == {};
    assert |p + c| == |p| + |c|;
    assert |p + c + f| == |p + c| + |f|;
  }

  /** Changing one transaction's status moves it from one count to another. */
  lemma CountAfterRestatus(txs: map<int, Transaction>, id: int, s: Status, to: Status)
    requires id in txs
    ensures CountStatus(txs[id := txs[id].(status := to)], s)
              == CountStatus(txs, s) - (if txs[id].status == s then 1 else 0) + (if to == s then 1 else 0)
  {
    var before := StatusIds(txs, s);
    var after := StatusIds(txs[id := txs[id].(status := to)], s);
    var rest := before - {id};
    assert after == if to == s then rest + {id} else rest;
    assert |rest| == |before| - (if id in before then 1 else 0);
  }

  /** A new transaction is counted under its own status only. */
  lemma CountAfterInsert(txs: map<int, Transaction>, id: int, row: Transaction, s: Status)
    requires id !in txs
    ensures CountStatus(txs[id := row], s) == CountStatus(txs, s) + (if row.status == s then 1 else 0)
  {
    var before := StatusIds(txs, s);
    assert StatusIds(txs[id := row], s) == if row.status == s then before + {id} else before;
  }

  /**
   * The report: catalog size, `completed` transactions counted as sales and
   * `pending` ones as awaiting payment. A `refunded` transaction is in
   * neither count, so the two counts and the refunds add up to the table.
   */
  function ShowStats(t: Tables, callerId: int, adminIds: seq<int>): (r: Step<Gated<Stats>>)
    ensures r.tables == t
    ensures r.reply == Denied <==> callerId !in adminIds
    ensures r.reply.Reached? ==>
              && r.reply.reply.products == |t.products|
              && r.reply.reply.sales == CountStatus(t.transactions, Completed)
              && r.reply.reply.awaitingPayment == CountStatus(t.transactions, Pending)
    ensures r.reply.Reached? ==>
              r.reply.reply.sales + r.reply.reply.awaitingPayment + CountStatus(t.transactions, Refunded)
                == |t.transactions|
  {
    StatusesPartition(t.transactions);
    var stats := Stats(|t.products|, CountStatus(t.transactions, Completed), CountStatus(t.transactions, Pending));
    AdminOnly(callerId, adminIds, t, Step(t, stats))
  }

  // ---------------------------------------------------------------------
  // show_recent_orders: transactions newest first, at most ten
  // ---------------------------------------------------------------------

  const RecentLimit: nat := 10

  ghost predicate NewestFirst(s: seq<Transaction>)
  {
    forall i, j :: 0 <= i < j < |s| ==> s[i].createdAt >= s[j].createdAt
  }

  /** No transaction occurs twice in `s`. */
  ghost predicate ListedOnce(s: seq<Transaction>)
  {
    forall y :: multiset(s)[y] <= 1
  }

  /** The rows of `txs` with keys in [lo, hi), in key order. */
  function Rows(txs: map<int, Transaction>, lo: int, hi: int): (rows: seq<Transaction>)
    requires forall id :: id in txs ==> txs[id].id == id
    ensures forall k :: 0 <= k < |rows| ==> lo <= rows[k].id < hi && rows[k].id in txs && txs[rows[k].id] == rows[k]
    ensures forall id :: lo <= id < hi && id in txs ==> txs[id] in rows
    ensures ListedOnce(rows)
    decreases hi - lo
  {
    if lo >= hi then []
    else if lo in txs then
      var rest := Rows(txs, lo + 1, hi);
      assert txs[lo] !in rest;
      [txs[lo]] + rest
    else Rows(txs, lo + 1, hi)
  }

  function InsertNewestFirst(x: Transaction, s: seq<Transaction>): (r: seq<Transaction>)
    ensures multiset(r) == multiset(s) + multiset{x}
    ensures |r| == |s| + 1 && (r[0] == x || (|s| > 0 && r[0] == s[0]))
  {
    if s == [] || s[0].createdAt <= x.createdAt then [x] + s
    else
      assert s == [s[0]] + s[1..];
      [s[0]] + InsertNewestFirst(x, s[1..])
  }

  lemma {:induction false} InsertKeepsNewestFirst(x: Transaction, s: seq<Transaction>)
    requires NewestFirst(s)
    ensures NewestFirst(InsertNewestFirst(x, s))
  {
    var r := InsertNewestFirst(x, s);
    if s == [] || s[0].createdAt <= x.createdAt {
      assert r == [x] + s;
      forall i, j | 0 <= i < j < |r|
        ensures r[i].createdAt >= r[j].createdAt
      {
        if i == 0 && j > 1 {
          assert s[0].createdAt >= s[j - 1].createdAt;
        }
      }
    } else {
      var rest := InsertNewestFirst(x, s[1..]);
      assert r == [s[0]] + rest;
      assert NewestFirst(s[1..]) by {
        forall i, j | 0 <= i < j < |s[1..]|
          ensures s[1..][i].createdAt >= s[1..][j].createdAt
        {
          assert s[1..][i] == s[i + 1] && s[1..][j] == s[j + 1];
        }
      }
      InsertKeepsNewestFirst(x, s[1..]);
      assert s[0].createdAt >= rest[0].createdAt;
      forall i, j | 0 <= i < j < |r|
        ensures r[i].createdAt >= r[j].createdAt
      {
        if i == 0 {
          assert r[j] == rest[j - 1];
          if j > 1 {
            assert rest[0].createdAt >= rest[j - 1].createdAt;
          }
        } else {
          assert r[i] == rest[i - 1] && r[j] == rest[j - 1];
        }
      }
    }
  }

  function SortNewestFirst(s: seq<Transaction>): (r: seq<Transaction>)
    ensures multiset(r) == multiset(s)
    ensures NewestFirst(r)
  {
    if s == [] then []
    else
      assert s == [s[0]] + s[1..];
      var rest := SortNewestFirst(s[1..]);
      InsertKeepsNewestFirst(s[0], rest);
      InsertNewestFirst(s[0], rest)
  }

  /** Taking a prefix of a newest-first list keeps the newest entries. */
  lemma PrefixHoldsNewest(s: seq<Transaction>, n: nat, x: Transaction)
    requires NewestFirst(s) && n <= |s|
    requires x in s && x !in s[..n]
    ensures forall k :: 0 <= k < n ==> s[k].createdAt >= x.createdAt
  {
  }

  /**
   * The query `order_by(created_at desc).limit(10)`: at most ten rows of
   * the transactions table, each listed once, newest first; fewer than ten
   * only when the table has no more; and no row left out is newer than a
   * row listed. (Rows with equal timestamps may come in any order.)
   */
  function RecentOrders(t: Tables): (r: seq<Transaction>)
    requires WellFormed(t)
    ensures |r| <= RecentLimit
    ensures forall k :: 0 <= k < |r| ==> r[k].id in t.transactions && t.transactions[r[k].id] == r[k]
    ensures ListedOnce(r)
    ensures NewestFirst(r)
    ensures |r| < RecentLimit ==> forall id :: id in t.transactions ==> t.transactions[id] in r
    ensures forall id :: id in t.transactions && t.transactions[id] !in r ==>
              forall k :: 0 <= k < |r| ==> r[k].createdAt >= t.transactions[id].createdAt
  {
    var rows := Rows(t.transactions, 1, t.nextTransactionId);
    var sorted := SortNewestFirst(rows);
    var n := if |sorted| < RecentLimit then |sorted| else RecentLimit;
    RecentOrdersCorrect(t, rows, sorted, n);
    sorted[..n]
  }

  /** A reordering of the table's rows holds each row of the table exactly once. */
  lemma ReorderedRows(t: Tables, rows: seq<Transaction>, sorted: seq<Transaction>)
    requires WellFormed(t)
    requires rows == Rows(t.transactions, 1, t.nextTransactionId)
    requires multiset(sorted) == multiset(rows)
    ensures forall k :: 0 <= k < |sorted| ==> sorted[k].id in t.transactions && t.transactions[sorted[k].id] == sorted[k]
    ensures forall id :: id in t.transactions ==> t.transactions[id] in sorted
    ensures ListedOnce(sorted)
  {
    forall k | 0 <= k < |sorted|
      ensures sorted[k].id in t.transactions && t.transactions[sorted[k].id] == sorted[k]
    {
      assert sorted[k] in multiset(rows);
    }
    forall id | id in t.transactions
      ensures t.transactions[id] in sorted
    {
      assert t.transactions[id] in multiset(rows);
    }
  }

  lemma PrefixListedOnce(s: seq<Transaction>, n: nat)
    requires ListedOnce(s) && n <= |s|
    ensures ListedOnce(s[..n])
  {
    assert s == s[..n] + s[n..];
    assert multiset(s) == multiset(s[..n]) + multiset(s[n..]);
    forall y
      ensures multiset(s[..n])[y] <= 1
    {
      assert multiset(s)[y] == multiset(s[..n])[y] + multiset(s[n..])[y];
    }
  }

  lemma RecentOrdersCorrect(t: Tables, rows: seq<Transaction>, sorted: seq<Transaction>, n: nat)
    requires WellFormed(t)
    requires rows == Rows(t.transactions, 1, t.nextTransactionId)
    requires multiset(sorted) == multiset(rows) && NewestFirst(sorted)
    requires n == if |sorted| < RecentLimit then |sorted| else RecentLimit
    ensures forall k :: 0 <= k < n ==> sorted[..n][k].id in t.transactions && t.transactions[sorted[..n][k].id] == sorted[..n][k]
    ensures ListedOnce(sorted[..n])
    ensures NewestFirst(sorted[..n])
    ensures n < RecentLimit ==> forall id :: id in t.transactions ==> t.transactions[id] in sorted[..n]
    ensures forall id :: id in t.transactions && t.transactions[id] !in sorted[..n] ==>
              forall k :: 0 <= k < n ==> sorted[..n][k].createdAt >= t.transactions[id].createdAt
  {
    var r := sorted[..n];
    ReorderedRows(t, rows, sorted);
    PrefixListedOnce(sorted, n);
    forall k | 0 <= k < n
      ensures r[k].id in t.transactions && t.transactions[r[k].id] == r[k]
    {
      assert r[k] == sorted[k];
    }
    forall id | id in t.transactions && t.transactions[id] !in r
      ensures forall k :: 0 <= k < n ==> r[k].createdAt >= t.transactions[id].createdAt
    {
      PrefixHoldsNewest(sorted, n, t.transactions[id]);
    }
    assert n < RecentLimit ==> r == sorted;
  }

  function ShowRecentOrders(t: Tables, callerId: int, adminIds: seq<int>): (r: Step<Gated<seq<Transaction>>>)
    requires WellFormed(t)
    ensures r.tables == t
    ensures r.reply == Denied <==> callerId !in adminIds
    ensures r.reply.Reached? ==> |r.reply.reply| <= RecentLimit && NewestFirst(r.reply.reply)
    ensures r.reply.Reached? ==> r.reply.reply == RecentOrders(t)
  {
    AdminOnly(callerId, adminIds, t, Step(t, RecentOrders(t)))
  }
}
