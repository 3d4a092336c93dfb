# Order and payment lifecycle of a crypto-payment shop bot

This project is a Dafny model of the store-changing core of a Telegram shop bot.
The bot sells digital goods for BTC or LTC. A buyer asks to pay for a product
(`/pay`) and gets a fresh deposit address. The buyer then presses "I have paid",
and the bot asks a blockchain gateway whether that address holds funds. If it
does, the bot marks the transaction `completed` and takes one unit off the
product's stock. An operator can refund a completed transaction (`/refund`). The
operator also adds products (`/add_product`), sets stock (`/update_stock`), and
reads two reports: the sales statistics and the ten most recent orders.

The store holds two tables, `products` and `transactions`. In the model they are
maps from primary key to row (`Database.Tables`). The `Database.Store` class
holds these maps as fields and the handlers update them in place. Each handler is
a method with `modifies store`, and its postcondition says that the new table
contents and the reply are those given by a pure step function of the old
contents (`StartPaymentStep`, `CheckPaymentStep`, `RefundStep`,
`AddProductStep`, `UpdateStockStep`). Most contracts and lemmas are stated about
these step functions. `Database.WellFormed` is the store invariant. It says that
keys are positive, that each key is below its table's id sequence and matches
the row's id, and that every transaction's `product_id` names an existing
product. Every handler preserves it.

The model follows the code as written:

- `check_payment_callback` does not look at the transaction's status.
- It decrements stock with no check that stock is positive.
- So each positive gateway answer takes one more unit. Stock can go below zero,
  and a refunded transaction can become completed again. `RepeatedChecks`,
  `LastUnitSoldTwice` and `PaidCheckCounts` state this exactly.
- There is no expiry operation and no `confirmed` or `fulfilled` status.
- No atomic compare-and-set guards the updates.

The payment gateway is an oracle passed in as function parameters. Both are
called with the gateway's coin name, `btc` or `ltc` (`Database.GatewayCoin`),
which is the stored currency code in lower case:

- `issue(coin)` (a `Payments.WalletIssuer`) is the deposit address issued for
  that coin, or `None` when issuance raises. In the code, any response other
  than 201 raises an error, and so does a failed request.
- `paid(address, coin)` (a `Payments.BalanceCheck`) is the gateway's answer to
  "was this address paid". It is `Some(true)` only for an HTTP 200 response
  with a positive `final_balance`, whatever the amount. Any other status code
  gives `Some(false)`, which is "not paid". It is `None` when the request
  itself raises (a connection error or a timeout) or when a 200 body is not
  JSON. The handler then takes its error branch (`CheckFailed`).

Command arguments are `CommandArgs.Token` values: a word's text together with
what `int()` and `float()` make of it. The model does not parse them.

Files: `wrappers.dfy` (Option), `database.dfy` (rows, tables, invariant, store
class), `command_args.dfy` (arguments), `admin.dfy` (gate, catalog writes,
reports), `payments.dfy` (payment handlers and lifecycle lemmas).

## Model

| member | source | states |
|---|---|---|
| `Database.StatusNameRoundTrip` | BOT_1/src/bot/database.py:24 | the status column holds one of three names; each status is stored under its own name and read back as itself |
| `Database.ParseStatus` | BOT_1/src/bot/database.py:24 | a stored string is read as a status only if it is that status's name |
| `Database.NewProduct` | BOT_1/src/bot/database.py:7-14 | a new product stores the given name, prices and file_id; when no stock is given, stock takes the column default 0 |
| `Database.NewTransaction` | BOT_1/src/bot/database.py:16-25 | a new transaction stores the given user, product, address, amount and currency, and is stamped with the insert time; when no status is given, status takes the column default `pending` |
| `Database.InsertProduct` | BOT_1/src/bot/database.py:9 | an insert gives the row a fresh primary key, adds exactly one product, and keeps the store invariant |
| `Database.InsertTransaction` | BOT_1/src/bot/database.py:18-20 | an insert gives the row a fresh primary key, adds exactly one transaction that references an existing product, and keeps the store invariant |
| `Database.Store.constructor` | BOT_1/src/bot/database.py:27-30 | a new database has both tables empty |
| `Database.Store.AddProduct` | BOT_1/src/bot/handlers/admin.py:123-124 | `session.add` plus commit: the store changes exactly as `InsertProduct` says |
| `Database.Store.AddTransaction` | BOT_1/src/bot/handlers/payments.py:37-38 | `session.add` plus commit: the store changes exactly as `InsertTransaction` says |
| `Payments.StartPaymentStep` | BOT_1/src/bot/handlers/payments.py:16-56 | an unparsable id, a missing product or stock < 1 writes nothing and requests no address; otherwise an address is requested in BTC exactly when price_btc > 0, else LTC; if issuance fails nothing is written and the reply is the error branch's; on success exactly one new `pending` transaction is added, with the caller's id, the product, the issued address and the price in the chosen currency; stock and the product id sequence are never changed |
| `Payments.StartPayment` | BOT_1/src/bot/handlers/payments.py:13-56 | the handler changes the store and replies exactly as `StartPaymentStep` says, and keeps the store invariant |
| `Payments.CheckPaymentStep` | BOT_1/src/bot/handlers/payments.py:63-98 | an unknown id changes nothing; a gateway request that raises changes nothing and takes the error branch; a "not paid" answer changes nothing; a positive answer sets the status to `completed` and lowers the product's stock by exactly 1, whatever the prior status or stock; no other row or field changes |
| `Payments.CheckPaymentCallback` | BOT_1/src/bot/handlers/payments.py:58-98 | the handler changes the store and replies exactly as `CheckPaymentStep` says, and keeps the store invariant |
| `Payments.RefundStep` | BOT_1/src/bot/handlers/payments.py:100-117 | a non-admin changes nothing; the refund succeeds if and only if the caller is an admin and the id names a `completed` transaction; it then sets that status to `refunded` and changes nothing else; stock and the id sequences are never touched; in every other case (missing, pending, already refunded, bad id) nothing changes |
| `Payments.RefundTransaction` | BOT_1/src/bot/handlers/payments.py:100-117 | the handler changes the store and replies exactly as `RefundStep` says, and keeps the store invariant |
| `Payments.RepeatedChecks` | BOT_1/src/bot/handlers/payments.py:73-77 | after any sequence of checks on one transaction, its product's stock has fallen by exactly the number of positive answers; the transaction is `completed` if any answer was positive and keeps its status otherwise; no other row changes |
| `Payments.LastUnitSoldTwice` | BOT_1/src/bot/handlers/payments.py:21-38 | with one unit in stock, two buyers can both open a payment, each against the address issued to that call, and when both pay the stock ends at -1 |
| `Payments.PaidCheckCounts` | BOT_1/src/bot/handlers/payments.py:73-77 | a positive check on a pending transaction moves it from awaiting payment to sales; on a completed one it changes no count but still takes a unit of stock; on a refunded one it counts a sale again |
| `Payments.RefundCounts` | BOT_1/src/bot/handlers/payments.py:109-111 | a successful refund moves one transaction out of the sales count, leaves the pending count as it was, and leaves products unchanged |
| `Payments.StartPaymentCounts` | BOT_1/src/bot/handlers/payments.py:29-38 | a successful payment start adds one to the awaiting-payment count and to no other count |
| `Admin.AdminOnly` | BOT_1/src/bot/handlers/admin.py:11-18 | a caller whose id is not among the admin ids is refused, and the wrapped handler does not run, so nothing changes; an admin's call has exactly the wrapped handler's effect and reply |
| `Admin.AddProductStep` | BOT_1/src/bot/handlers/admin.py:103-124 | a non-admin or an argument count other than 5 creates nothing; a product is added if and only if the caller is an admin, there are 5 arguments and the numbers parse; it is exactly one product, under a fresh id, with the given name, prices, file_id and stock; transactions and their id sequence are untouched |
| `Admin.AddProduct` | BOT_1/src/bot/handlers/admin.py:98-135 | the handler changes the store and replies exactly as `AddProductStep` says, and keeps the store invariant |
| `Admin.UpdateStockStep` | BOT_1/src/bot/handlers/admin.py:170-187 | a non-admin or an argument count other than 2 changes nothing; stock is updated if and only if the caller is an admin, both numbers parse and the id exists; it is then set to the given value, negative or not, and no other product or field changes; an unknown id changes nothing |
| `Admin.UpdateStock` | BOT_1/src/bot/handlers/admin.py:165-187 | the handler changes the store and replies exactly as `UpdateStockStep` says, and keeps the store invariant |
| `Admin.StatusesPartition` | BOT_1/src/bot/handlers/admin.py:146-147 | every transaction is counted under exactly one of the three statuses |
| `Admin.ShowStats` | BOT_1/src/bot/handlers/admin.py:145-147 | the report counts products, `completed` transactions as sales and `pending` ones as awaiting payment; `refunded` is in neither, so sales + awaiting + refunded equals the size of the transactions table; a non-admin gets nothing; the report changes nothing |
| `Admin.SortNewestFirst` | BOT_1/src/bot/handlers/admin.py:74 | the result is a permutation of the rows, ordered by created_at, newest first |
| `Admin.InsertKeepsNewestFirst` | BOT_1/src/bot/handlers/admin.py:74 | inserting one row into a newest-first list keeps it newest first |
| `Admin.RecentOrders` | BOT_1/src/bot/handlers/admin.py:73-76 | at most 10 rows of the transactions table, none listed twice, newest created_at first; fewer than 10 only when the table holds no more; no row left out is newer than a listed one |
| `Admin.ShowRecentOrders` | BOT_1/src/bot/handlers/admin.py:65-96 | a non-admin gets nothing; an admin gets the recent-orders list; the query changes nothing |

## Left out

- Telegram I/O is not modelled: reply and edit texts, inline keyboards,
  message formatting, the loop that notifies each admin after a payment
  (handlers/payments.py:91-92), and the `register_*` functions. Replies are
  modelled only as which branch was taken.
- A failure while notifying the admins (handlers/payments.py:91-92) happens
  after the commit. It would send the error reply although the payment was
  recorded. The model replies `PaymentConfirmed` there, because sending
  messages is not modelled.
- `crypto.py` is not modelled beyond the oracle contract above. This covers the
  HTTP calls to BlockCypher and the Fernet encryption of the private key. The
  encrypted key is never stored by `start_payment`, so nothing in the model
  depends on it.
- Parsing with `int()` and `float()` is not modelled. Each argument carries its
  parse results as data. How a parsed float is rounded to 8 digits, and what the
  database does with a value outside Numeric(16, 8) (backend-dependent), are not
  modelled: `Units` admits only in-range values.
- NULL columns are not modelled. Every write path in this core sets every
  column, so rows have no NULL fields. The `name` and `user_id` columns are
  NOT NULL, and the model's non-optional fields match that.
- Database failures (a failed commit, a String(255) overflow) and the resulting
  rollback are not modelled. A handler either completes its write or, on the
  branches the code takes before writing, writes nothing.
- The clock is a parameter `now`, used for `created_at`. Integer columns are
  unbounded `int`s, with no 32-bit column width.
- `check_payment_callback` parses the transaction id from the callback data
  outside its `try`. The model takes the id as an integer parameter.
- `check_payment_callback` loads the product through the transaction's
  `product_id`. Under the store invariant (the foreign key) that product always
  exists, so the crash branch the code would take otherwise cannot occur in the
  model.
- The session wiring, where payments read `bot_data['session']` while startup
  stores `session_factory`, is runtime plumbing and is not modelled.
- Concurrency is not modelled. The handlers are async, but each does one
  sequential read-modify-write with no atomic guard, so no interleavings are
  modelled and no atomicity is claimed.
- `admin_panel`, `admin_button_handler`, `commands.py`, `notifications.py`,
  `logger.py`, `config.py` and `main.py` are not modelled. They are
  presentation, logging, configuration and startup, and change no state.
  `config.admin_ids` is a parameter of the gated operations.
- Recent orders with equal `created_at` may come in any order, as in the SQL
  query.
