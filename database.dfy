/**
 * The two tables of the shop's database: `products` and `transactions`.
 * A row is a value; the tables are maps from primary key to row; the
 * store that the handlers update in place is the class `Store`.
 */
module Database {
  import opened Wrappers

  // ---------------------------------------------------------------------
  // Fixed-point amounts: the columns are Numeric(16, 8), i.e. 8 fractional
  // digits and 16 digits in all. An amount is kept as an integer number of
  // units of 10^-8 coin, so at most 16 digits of units.
  // ---------------------------------------------------------------------

  const UnitsBound: int := 10_000_000_000_000_000

  type Units = x: int | -UnitsBound < x < UnitsBound

  // ---------------------------------------------------------------------
  // The status and currency columns. The status column is a String(50)
  // and the currency column a String(10); the code only ever writes the
  // three statuses and the two currency codes below.
  // ---------------------------------------------------------------------

  datatype Status = Pending | Completed | Refunded

  function StatusName(s: Status): string
  {
    match s
    case Pending => "pending"
    case Completed => "completed"
    case Refunded => "refunded"
  }

  /** Reads a stored status string; anything outside the vocabulary is None. */
  function ParseStatus(name: string): (r: Option<Status>)
    ensures r.Some? ==> StatusName(r.value) == name
  {
    if name == "pending" then Some(Pending)
    else if name == "completed" then Some(Completed)
    else if name == "refunded" then Some(Refunded)
    else None
  }

  /** Every status is stored under its own name and read back as itself. */
  lemma StatusNameRoundTrip(s: Status)
    ensures ParseStatus(StatusName(s)) == Some(s)
  {
  }

  datatype Currency = BTC | LTC

  /**
   * The coin name the payment gateway's URLs use: the currency column's
   * code ("BTC" or "LTC") in lower case.
   */
  function GatewayCoin(c: Currency): string
  {
    match c
    case BTC => "btc"
    case LTC => "ltc"
  }

  // ---------------------------------------------------------------------
  // Rows
  // ---------------------------------------------------------------------

  datatype Product = Product(
    id: int,
    name: string,
    priceBtc: Units,
    priceLtc: Units,
    fileId: string,
    stock: int)

  datatype Transaction = Transaction(
    id: int,
    userId: int,
    productId: int,
    address: string,
    amount: Units,
    currency: Currency,
    status: Status,
    createdAt: int)

  /** Column defaults: `stock` is 0 and `status` is pending when not given. */
  const DefaultStock: int := 0
  const DefaultStatus: Status := Pending

  /** A new product row; an omitted stock takes the column default. */
  function NewProduct(name: string, priceBtc: Units, priceLtc: Units, fileId: string, stock: Option<int>): (p: Product)
    ensures p.name == name && p.priceBtc == priceBtc && p.priceLtc == priceLtc && p.fileId == fileId
    ensures stock.None? ==> p.stock == 0
    ensures stock.Some? ==> p.stock == stock.value
  {
    Product(0, name, priceBtc, priceLtc, fileId, if stock.Some? then stock.value else DefaultStock)
  }

  /** A new transaction row stamped with `now`; an omitted status takes the column default. */
  function NewTransaction(userId: int, productId: int, address: string, amount: Units,
                          currency: Currency, status: Option<Status>, now: int): (t: Transaction)
    ensures t.userId == userId && t.productId == productId && t.address == address
    ensures t.amount == amount && t.currency == currency && t.createdAt == now
    ensures status.None? ==> t.status == Pending
    ensures status.Some? ==> t.status == status.value
  {
    Transaction(0, userId, productId, address, amount, currency,
                if status.Some? then status.value else DefaultStatus, now)
  }

  // ---------------------------------------------------------------------
  // The database as a value
  // ---------------------------------------------------------------------

  /**
   * Both tables, keyed by primary key, with the next key each table's id
   * sequence hands out on insert.
   */
  datatype Tables = Tables(
    products: map<int, Product>,
    transactions: map<int, Transaction>,
    nextProductId: int,
    nextTransactionId: int)

  /** What a handler leaves behind: the tables after it, and its reply. */
  datatype Step<R> = Step(tables: Tables, reply: R)

  const EmptyTables: Tables := Tables(map[], map[], 1, 1)

  /**
   * Primary keys are positive, issued below the sequence's next value and
   * agree with the row's own id; every transaction's product_id refers to
   * an existing product (the foreign key).
   */
  ghost predicate WellFormed(t: Tables)
  {
    && 0 < t.nextProductId
    && 0 < t.nextTransactionId
    && (forall id :: id in t.products ==> 0 < id < t.nextProductId && t.products[id].id == id)
    && (forall id :: id in t.transactions ==>
          && 0 < id < t.nextTransactionId
          && t.transactions[id].id == id
          && t.transactions[id].productId in t.products)
  }

  /** `session.add(product)` followed by a commit: the row gets the next key. */
  function InsertProduct(t: Tables, row: Product): (r: Step<int>)
    requires WellFormed(t)
    ensures WellFormed(r.tables)
    ensures r.reply !in t.products
    ensures r.tables.products == t.products[r.reply := row.(id := r.reply)]
    ensures |r.tables.products| == |t.products| + 1
    ensures r.tables.transactions == t.transactions
    ensures r.tables.nextTransactionId == t.nextTransactionId
  {
    var id := t.nextProductId;
    Step(t.(products := t.products[id := row.(id := id)], nextProductId := id + 1), id)
  }

  /** `session.add(transaction)` followed by a commit: the row gets the next key. */
  function InsertTransaction(t: Tables, row: Transaction): (r: Step<int>)
    requires WellFormed(t)
    requires row.productId in t.products
    ensures WellFormed(r.tables)
    ensures r.reply !in t.transactions
    ensures r.tables.transactions == t.transactions[r.reply := row.(id := r.reply)]
    ensures |r.tables.transactions| == |t.transactions| + 1
    ensures r.tables.products == t.products
    ensures r.tables.nextProductId == t.nextProductId
  {
    var id := t.nextTransactionId;
    Step(t.(transactions := t.transactions[id := row.(id := id)], nextTransactionId := id + 1), id)
  }

  /** The rows of `m2` are those of `m1` except possibly the row under `key`. */
  ghost predicate SameExcept<V>(m1: map<int, V>, m2: map<int, V>, key: int)
  {
    && m1.Keys == m2.Keys
    && forall k :: k in m1 && k != key ==> m2[k] == m1[k]
  }

  // ---------------------------------------------------------------------
  // The store the handlers open a session on and update in place
  // ---------------------------------------------------------------------

  class Store {
    var products: map<int, Product>
    var transactions: map<int, Transaction>
    var nextProductId: int
    var nextTransactionId: int

    function State(): Tables
      reads this
    {
      Tables(products, transactions, nextProductId, nextTransactionId)
    }

    ghost predicate Valid()
      reads this
    {
      WellFormed(State())
    }

    /** A freshly created database: both tables empty. */
    constructor ()
      ensures Valid() && State() == EmptyTables
    {
      products, transactions := map[], map[];
      nextProductId, nextTransactionId := 1, 1;
    }

    method AddProduct(row: Product) returns (id: int)
      requires Valid()
      modifies this
      ensures Valid()
      ensures Step(State(), id) == InsertProduct(old(State()), row)
    {
      id := nextProductId;
      products := products[id := row.(id := id)];
      nextProductId := id + 1;
    }

    method AddTransaction(row: Transaction) returns (id: int)
      requires Valid()
      requires row.productId in products
      modifies this
      ensures Valid()
      ensures Step(State(), id) == InsertTransaction(old(State()), row)
    {
      id := nextTransactionId;
      transactions := transactions[id := row.(id := id)];
      nextTransactionId := id + 1;
    }
  }
}
