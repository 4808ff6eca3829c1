/** The persistent tables the controllers read and write (the Prisma client in the source),
    as one in-memory database object. Identifiers and creation order come from one counter. */
module Store {
  import opened Wrappers
  import opened AuthMiddleware

  datatype User = User(id: nat, email: string, passwordHash: string, role: string)

  /** A catalogue row. Prices and amounts are integer minor units (cents). */
  datatype Product = Product(id: nat, sellerId: nat, name: string, description: Option<string>,
                             price: int, stock: int)

  datatype OrderStatus = PENDING | PAID | SHIPPED

  /** The status as stored and as printed in messages. */
  function StatusName(s: OrderStatus): (name: string)
    ensures |name| > 0
  {
    match s
    case PENDING => "PENDING"
    case PAID => "PAID"
    case SHIPPED => "SHIPPED"
  }

  /** A line of an order: the product it names, how many, and the price copied from the
      product when the order was placed. */
  datatype OrderItem = OrderItem(productId: nat, quantity: int, unitPrice: int)

  /** An order together with its items (the items live and die with their order). */
  datatype Order = Order(id: nat, customerId: nat, status: OrderStatus, totalAmount: int, items: seq<OrderItem>)

  const SUCCESS: string := "SUCCESS"

  datatype Transaction = Transaction(id: nat, orderId: nat, amount: int, status: string, provider: string)

  /** The sum of unit_price * quantity over the lines, accumulated front to back. */
  function LineTotal(lines: seq<OrderItem>): int
  {
    if lines == [] then 0
    else LineTotal(lines[..|lines| - 1]) + lines[|lines| - 1].unitPrice * lines[|lines| - 1].quantity
  }

  /** Registered users: ids issued by the counter, roles from the whitelist, emails unique. */
  ghost predicate UsersValid(users: seq<User>, nextId: nat)
  {
    && (forall i :: 0 <= i < |users| ==> users[i].id < nextId && (users[i].role == CUSTOMER || users[i].role == SELLER))
    && (forall i, j :: 0 <= i < j < |users| ==> users[i].email != users[j].email)
  }

  /** Products are keyed by their own id. */
  ghost predicate ProductsValid(products: map<nat, Product>, nextId: nat)
  {
    forall k :: k in products ==> products[k].id == k && k < nextId
  }

  /** Stored orders: never PENDING (a PENDING order exists only inside an order transaction),
      total equal to the sum of their lines, and kept in creation (ascending id) order. */
  ghost predicate OrdersValid(orders: seq<Order>, nextId: nat)
  {
    && (forall i :: 0 <= i < |orders| ==>
          orders[i].id < nextId && orders[i].status != PENDING && orders[i].totalAmount == LineTotal(orders[i].items))
    && (forall i, j :: 0 <= i < j < |orders| ==> orders[i].id < orders[j].id)
  }

  /** Every transaction is a SUCCESS record of a stored order, for that order's total. */
  ghost predicate TransactionsValid(transactions: seq<Transaction>, orders: seq<Order>)
  {
    forall t :: t in transactions ==>
      t.status == SUCCESS &&
      exists k :: 0 <= k < |orders| && orders[k].id == t.orderId && orders[k].totalAmount == t.amount
  }

  class Database {
    var users: seq<User>
    var products: map<nat, Product>
    var orders: seq<Order>
    var transactions: seq<Transaction>
    var nextId: nat

    ghost predicate Valid()
      reads this
    {
      && UsersValid(users, nextId)
      && ProductsValid(products, nextId)
      && OrdersValid(orders, nextId)
      && TransactionsValid(transactions, orders)
    }

    /** An empty database. */
    constructor ()
      ensures Valid()
      ensures users == [] && products == map[] && orders == [] && transactions == []
    {
      users, products, orders, transactions, nextId := [], map[], [], [], 0;
    }
  }
}

/** The ordering `orderBy: { created_at: 'desc' }` that every order listing applies. */
module Listing {
  import opened Store

  /** Ids strictly increase along the sequence (creation order). */
  predicate IdsAscending(orders: seq<Order>)
  {
    forall i, j :: 0 <= i < j < |orders| ==> orders[i].id < orders[j].id
  }

  /** The orders that satisfy `keep`, newest first. */
  function NewestFirst(orders: seq<Order>, keep: Order -> bool): (r: seq<Order>)
    ensures forall o :: o in r <==> o in orders && keep(o)
    ensures IdsAscending(orders) ==> forall i, j :: 0 <= i < j < |r| ==> r[i].id > r[j].id
    decreases |orders|
  {
    if orders == [] then []
    else
      var prefix := orders[..|orders| - 1];
      var last := orders[|orders| - 1];
      var rest := NewestFirst(prefix, keep);
      assert orders == prefix + [last];
      assert IdsAscending(orders) ==> forall o :: o in rest ==> o.id < last.id by {
        if IdsAscending(orders) {
          forall o | o in rest ensures o.id < last.id {
            var m :| 0 <= m < |prefix| && prefix[m] == o;
            assert orders[m] == o;
          }
        }
      }
      (if keep(last) then [last] else []) + rest
  }
}
