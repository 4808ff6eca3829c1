/** The order transaction engine (`src/controllers/orderController.js`): placing an order
    inside one database transaction, and listing the caller's orders. */
module OrderController {
  import opened Wrappers
  import opened Errors
  import opened AuthMiddleware
  import opened PaymentService
  import opened Store
  import Listing
  import Strings

  /** One element of the request's `items` array; a missing field is `None`. */
  datatype ItemRequest = ItemRequest(productId: Option<nat>, quantity: Option<int>)

  /** The per-item shape check: a product id and a positive quantity. */
  predicate WellFormed(it: ItemRequest)
  {
    it.productId.Some? && it.quantity.Some? && it.quantity.value > 0
  }

  function ItemsMissing(): Error
  {
    AppError("Items array is required and must not be empty", 400)
  }

  function InvalidItem(): Error
  {
    AppError("Each item must have a valid product_id and positive quantity", 400)
  }

  function ProductNotFound(id: nat): Error
  {
    AppError("Product " + Strings.NatToString(id) + " not found", 404)
  }

  /** The 409 error names the product, the stock it still has and the quantity asked for. */
  function InsufficientStock(name: string, available: int, requested: int): Error
  {
    AppError("Insufficient stock for \"" + name + "\". Available: " + Strings.IntToString(available)
             + ", Requested: " + Strings.IntToString(requested), 409)
  }

  function PaymentFailed(): Error
  {
    AppError("Payment failed. Order has been cancelled.", 402)
  }

  /** The checks one item goes through inside the loop, against the stock as it stands
      at that point: shape (400), existence (404), sufficient stock (409). On success it
      yields the product row that is about to be decremented. */
  function Check(products: map<nat, Product>, it: ItemRequest): (r: Result<Product, Error>)
    ensures r.Success? <==>
      WellFormed(it) && it.productId.value in products && products[it.productId.value].stock >= it.quantity.value
    ensures r.Success? ==> r.value == products[it.productId.value]
    ensures !WellFormed(it) ==> r == Failure(InvalidItem())
    ensures WellFormed(it) && it.productId.value !in products ==> r == Failure(ProductNotFound(it.productId.value))
    ensures WellFormed(it) && it.productId.value in products && products[it.productId.value].stock < it.quantity.value ==>
      var p := products[it.productId.value];
      r == Failure(InsufficientStock(p.name, p.stock, it.quantity.value))
  {
    if !WellFormed(it) then Failure(InvalidItem())
    else if it.productId.value !in products then Failure(ProductNotFound(it.productId.value))
    else
      var p := products[it.productId.value];
      if p.stock < it.quantity.value then Failure(InsufficientStock(p.name, p.stock, it.quantity.value))
      else Success(p)
  }

  /** The state the loop carries: the product table with the decrements so far, the
      order lines built so far and the running total. */
  datatype Draft = Draft(products: map<nat, Product>, lines: seq<OrderItem>, total: int)

  /** The loop of `createOrder` as a function of the product table and the items, taken in
      input order: each item is checked against the stock left by the items before it, then
      its product is decremented, its price copied into a line and the line added to the total. */
  function Checkout(products: map<nat, Product>, items: seq<ItemRequest>): (r: Result<Draft, Error>)
    ensures r.Success? ==> |r.value.lines| == |items| && r.value.products.Keys == products.Keys
    ensures r.Failure? ==> r.error.statusCode.Some? && r.error.statusCode.value in {400, 404, 409}
    decreases |items|
  {
    if items == [] then Success(Draft(products, [], 0))
    else
      match Checkout(products, items[..|items| - 1])
      case Failure(e) => Failure(e)
      case Success(d) =>
        var it := items[|items| - 1];
        match Check(d.products, it)
        case Failure(e) => Failure(e)
        case Success(p) =>
          var id, q := it.productId.value, it.quantity.value;
          Success(Draft(d.products[id := p.(stock := p.stock - q)],
                        d.lines + [OrderItem(id, q, p.price)],
                        d.total + p.price * q))
  }

  /** The total quantity the well-formed items ask of product `id`. */
  function Demand(items: seq<ItemRequest>, id: nat): int
  {
    if items == [] then 0
    else
      var it := items[|items| - 1];
      Demand(items[..|items| - 1], id) + (if WellFormed(it) && it.productId.value == id then it.quantity.value else 0)
  }

  /** The product table after every item's demand has been taken off its product's stock. */
  function StockAfter(products: map<nat, Product>, items: seq<ItemRequest>): map<nat, Product>
  {
    map k | k in products :: products[k].(stock := products[k].stock - Demand(items, k))
  }

  /** The condition for the whole loop to get through: every item is well formed, names an
      existing product, and the summed demand on that product does not exceed its stock. */
  ghost predicate Feasible(products: map<nat, Product>, items: seq<ItemRequest>)
  {
    forall i :: 0 <= i < |items| ==>
      WellFormed(items[i]) && items[i].productId.value in products &&
      Demand(items, items[i].productId.value) <= products[items[i].productId.value].stock
  }

  /** A successful loop reduces every product's stock by exactly its demand (duplicate
      references are sequential decrements) and changes nothing else about any product. */
  lemma {:induction false} CheckoutStock(products: map<nat, Product>, items: seq<ItemRequest>)
    requires Checkout(products, items).Success?
    ensures Checkout(products, items).value.products == StockAfter(products, items)
    decreases |items|
  {
    if items != [] {
      var n := |items|;
      var prefix := items[..n - 1];
      CheckoutStock(products, prefix);
      var d' := Checkout(products, prefix).value;
      var it := items[n - 1];
      var id, q := it.productId.value, it.quantity.value;
      var p := d'.products[id];
      var m := Checkout(products, items).value.products;
      assert m == d'.products[id := p.(stock := p.stock - q)];
      var want := StockAfter(products, items);
      assert m.Keys == want.Keys;
      forall k | k in products
        ensures m[k] == want[k]
      {
        assert Demand(items, k) == Demand(prefix, k) + (if k == id then q else 0);
      }
    }
  }

  /** A successful loop builds one line per item, in input order, carrying the item's
      product and quantity and the price that product had when the order started. */
  lemma {:induction false} CheckoutLines(products: map<nat, Product>, items: seq<ItemRequest>)
    requires Checkout(products, items).Success?
    ensures var lines := Checkout(products, items).value.lines;
      && |lines| == |items|
      && forall i :: 0 <= i < |items| ==>
           WellFormed(items[i]) && items[i].productId.value in products &&
           lines[i] == OrderItem(items[i].productId.value, items[i].quantity.value,
                                 products[items[i].productId.value].price)
    decreases |items|
  {
    if items != [] {
      var n := |items|;
      var prefix := items[..n - 1];
      CheckoutLines(products, prefix);
      CheckoutStock(products, prefix);
      var d' := Checkout(products, prefix).value;
      var it := items[n - 1];
      var id, q := it.productId.value, it.quantity.value;
      var lines := Checkout(products, items).value.lines;
      assert lines == d'.lines + [OrderItem(id, q, d'.products[id].price)];
      forall i | 0 <= i < n - 1
        ensures items[i] == prefix[i]
      {
      }
    }
  }

  /** The running total of a successful loop is the sum of unit_price * quantity over its lines. */
  lemma {:induction false} CheckoutTotal(products: map<nat, Product>, items: seq<ItemRequest>)
    requires Checkout(products, items).Success?
    ensures Checkout(products, items).value.total == LineTotal(Checkout(products, items).value.lines)
    decreases |items|
  {
    if items != [] {
      var prefix := items[..|items| - 1];
      CheckoutTotal(products, prefix);
      var d' := Checkout(products, prefix).value;
      var lines := Checkout(products, items).value.lines;
      assert lines[..|lines| - 1] == d'.lines;
    }
  }

  /** The loop gets through exactly when the items are feasible for the product table. */
  lemma {:induction false} CheckoutSucceedsIff(products: map<nat, Product>, items: seq<ItemRequest>)
    ensures Checkout(products, items).Success? <==> Feasible(products, items)
    decreases |items|
  {
    if items != [] {
      var n := |items|;
      var prefix := items[..n - 1];
      var it := items[n - 1];
      CheckoutSucceedsIff(products, prefix);
      forall i | 0 <= i < n - 1
        ensures items[i] == prefix[i]
      {
      }
      if Checkout(products, items).Success? {
        CheckoutStock(products, prefix);
        var id := it.productId.value;
        forall i | 0 <= i < n
          ensures WellFormed(items[i]) && items[i].productId.value in products &&
                  Demand(items, items[i].productId.value) <= products[items[i].productId.value].stock
        {
          var k := items[i].productId.value;
          assert Demand(items, k) == Demand(prefix, k) + (if k == id then it.quantity.value else 0);
        }
      } else if Feasible(products, items) {
        assert WellFormed(it);
        var id := it.productId.value;
        forall i | 0 <= i < n - 1
          ensures Demand(prefix, prefix[i].productId.value) <= products[prefix[i].productId.value].stock
        {
          var k := prefix[i].productId.value;
          assert Demand(items, k) == Demand(prefix, k) + (if k == id then it.quantity.value else 0);
        }
        assert Feasible(products, prefix);
        CheckoutStock(products, prefix);
        assert false;
      }
    }
  }

  /** A failure of the loop on a prefix of the items is the failure of the whole loop. */
  lemma {:induction false} CheckoutFailurePersists(products: map<nat, Product>, items: seq<ItemRequest>, k: nat)
    requires k <= |items| && Checkout(products, items[..k]).Failure?
    ensures Checkout(products, items) == Checkout(products, items[..k])
    decreases |items| - k
  {
    if k < |items| {
      var n := k + 1;
      assert items[..n][..n - 1] == items[..k];
      CheckoutFailurePersists(products, items, n);
    } else {
      assert items[..k] == items;
    }
  }

  /** Which error a failed loop reports: the error of the first item whose check fails
      against the stock left by the items before it (all of which pass). */
  lemma {:induction false} CheckoutFailure(products: map<nat, Product>, items: seq<ItemRequest>)
    requires Checkout(products, items).Failure?
    ensures exists i :: 0 <= i < |items| && Checkout(products, items[..i]).Success? &&
                        Check(StockAfter(products, items[..i]), items[i]) == Failure(Checkout(products, items).error)
    decreases |items|
  {
    var n := |items|;
    var prefix := items[..n - 1];
    if Checkout(products, prefix).Failure? {
      CheckoutFailure(products, prefix);
      var i :| 0 <= i < |prefix| && Checkout(products, prefix[..i]).Success? &&
        Check(StockAfter(products, prefix[..i]), prefix[i]) == Failure(Checkout(products, prefix).error);
      assert prefix[..i] == items[..i];
    } else {
      CheckoutStock(products, prefix);
      assert items[..n - 1] == prefix;
    }
  }

  /** A product with demand on it is named by some well-formed item. */
  lemma {:induction false} DemandWitness(items: seq<ItemRequest>, id: nat)
    requires Demand(items, id) != 0
    ensures exists i :: 0 <= i < |items| && WellFormed(items[i]) && items[i].productId.value == id
    decreases |items|
  {
    var n := |items|;
    var prefix := items[..n - 1];
    if Demand(prefix, id) != 0 {
      DemandWitness(prefix, id);
      var i :| 0 <= i < |prefix| && WellFormed(prefix[i]) && prefix[i].productId.value == id;
      assert items[i] == prefix[i];
    }
  }

  /** No oversell: a successful loop leaves every product it touched with a stock of at
      least zero and every other product as it was, so a table without negative stock
      never gets one. */
  lemma CheckoutNeverOversells(products: map<nat, Product>, items: seq<ItemRequest>)
    requires Checkout(products, items).Success?
    ensures var after := Checkout(products, items).value.products;
      && after.Keys == products.Keys
      && forall k :: k in products ==> after[k].stock >= 0 || after[k] == products[k]
  {
    CheckoutStock(products, items);
    CheckoutSucceedsIff(products, items);
    var after := Checkout(products, items).value.products;
    forall k | k in products
      ensures after[k].stock >= 0 || after[k] == products[k]
    {
      if Demand(items, k) != 0 {
        DemandWitness(items, k);
      }
    }
  }

  /** The first two order scenarios of the test suite, with prices in cents: a product at
      25.00 with 10 in stock, an order of 3 leaves 7 in stock, one line at 25.00 and a total
      of 75.00; an order of 20 against the 7 left is refused with 409 naming both counts. */
  lemma TestSuiteScenario(seller: nat)
    ensures var products := map[1 := Product(1, seller, "Order Widget", None, 2500, 10)];
      var first := Checkout(products, [ItemRequest(Some(1), Some(3))]);
      && first == Success(Draft(map[1 := Product(1, seller, "Order Widget", None, 2500, 7)],
                                [OrderItem(1, 3, 2500)], 7500))
      && Checkout(first.value.products, [ItemRequest(Some(1), Some(20))])
           == Failure(InsufficientStock("Order Widget", 7, 20))
  {
    var products := map[1 := Product(1, seller, "Order Widget", None, 2500, 10)];
    var items := [ItemRequest(Some(1), Some(3))];
    assert items[..0] == [];
    assert Checkout(products, items[..0]) == Success(Draft(products, [], 0));
    var reduced := Product(1, seller, "Order Widget", None, 2500, 7);
    assert products[1 := reduced] == map[1 := reduced];
    assert Check(products, items[0]) == Success(products[1]);
    assert items[..|items| - 1] == items[..0];
    assert Checkout(products, items).Success?;
    assert Checkout(products, items).value.products == map[1 := reduced];
    assert Checkout(products, items).value.lines == [OrderItem(1, 3, 2500)];
    assert Checkout(products, items).value.total == 7500;
    var later := [ItemRequest(Some(1), Some(20))];
    assert later[..0] == [];
  }

  /** The payment call: the deterministic gateway whenever the request carries an outcome
      override, the random one otherwise. */
  function Charge(amount: int, outcome: Option<bool>, draw: bool): (r: PaymentResult)
    ensures outcome.Some? ==> r == ProcessPaymentWithOutcome(amount, outcome.value)
    ensures outcome.None? ==> r == ProcessPayment(amount, draw)
    ensures r.provider == PROVIDER && r.amount == amount
  {
    if outcome.Some? then ProcessPaymentWithOutcome(amount, outcome.value) else ProcessPayment(amount, draw)
  }

  /** The outcome of `createOrder` as a function of the product table and the request:
      the draft that is committed, or the error that is reported. */
  function PlaceOrder(products: map<nat, Product>, items: Option<seq<ItemRequest>>, outcome: Option<bool>, draw: bool)
    : (r: Result<Draft, Error>)
    ensures items.None? || |items.value| == 0 ==> r == Failure(ItemsMissing())
    ensures r.Success? ==>
      && items.Some? && |items.value| > 0 && Feasible(products, items.value)
      && r == Checkout(products, items.value) && Charge(r.value.total, outcome, draw).success
    ensures items.Some? && |items.value| > 0 && !Feasible(products, items.value) ==>
      r.Failure? && r == Checkout(products, items.value)
    ensures items.Some? && |items.value| > 0 && Feasible(products, items.value) ==>
      Checkout(products, items.value).Success? &&
      (r.Failure? <==> !Charge(Checkout(products, items.value).value.total, outcome, draw).success) &&
      (r.Failure? ==> r == Failure(PaymentFailed()))
  {
    if items.None? || |items.value| == 0 then Failure(ItemsMissing())
    else
      CheckoutSucceedsIff(products, items.value);
      match Checkout(products, items.value)
      case Failure(e) => Failure(e)
      case Success(d) => if Charge(d.total, outcome, draw).success then Success(d) else Failure(PaymentFailed())
  }

  /** The error codes `createOrder` can report, each with its cause: 400 for a missing or
      empty list or a malformed item, 404 for an unknown product, 409 for a product whose
      summed demand exceeds its stock, 402 for a declined payment of a feasible order. */
  lemma PlaceOrderFailure(products: map<nat, Product>, items: Option<seq<ItemRequest>>, outcome: Option<bool>, draw: bool)
    requires PlaceOrder(products, items, outcome, draw).Failure?
    ensures var e := PlaceOrder(products, items, outcome, draw).error;
      && e.statusCode.Some? && e.statusCode.value in {400, 402, 404, 409}
      && (e.statusCode.value == 400 ==>
            items.None? || |items.value| == 0 || exists i :: 0 <= i < |items.value| && !WellFormed(items.value[i]))
      && (e.statusCode.value == 404 ==>
            exists i :: 0 <= i < |items.value| && WellFormed(items.value[i]) && items.value[i].productId.value !in products)
      && (e.statusCode.value == 409 ==>
            exists i :: 0 <= i < |items.value| && WellFormed(items.value[i]) && items.value[i].productId.value in products &&
              Demand(items.value, items.value[i].productId.value) > products[items.value[i].productId.value].stock)
      && (e.statusCode.value == 402 ==>
            Feasible(products, items.value) && Checkout(products, items.value).Success? &&
            !Charge(Checkout(products, items.value).value.total, outcome, draw).success)
  {
    if items.Some? && |items.value| > 0 {
      var s := items.value;
      CheckoutSucceedsIff(products, s);
      if Checkout(products, s).Failure? {
        CheckoutFailure(products, s);
        var i :| 0 <= i < |s| && Checkout(products, s[..i]).Success? &&
          Check(StockAfter(products, s[..i]), s[i]) == Failure(Checkout(products, s).error);
        if WellFormed(s[i]) && s[i].productId.value in products {
          var k := s[i].productId.value;
          DemandPrefix(s, i + 1, k);
          assert s[..i + 1][..i] == s[..i];
        }
      }
    }
  }

  /** Demand only grows along the items. */
  lemma {:induction false} DemandPrefix(items: seq<ItemRequest>, k: nat, id: nat)
    requires k <= |items|
    ensures Demand(items[..k], id) <= Demand(items, id)
    decreases |items| - k
  {
    if k < |items| {
      DemandPrefix(items, k + 1, id);
      assert items[..k + 1][..k] == items[..k];
    } else {
      assert items[..k] == items;
    }
  }

  /** POST /api/orders (customers only). The list check happens before the database
      transaction; everything else runs inside it, and any error inside rolls back every
      write of the attempt: stock decrements, the order, its items and its transaction. */
  method CreateOrder(db: Database, user: Identity, items: Option<seq<ItemRequest>>, outcome: Option<bool>, draw: bool)
    returns (r: Result<Order, Error>)
    requires db.Valid()
    requires user.role == CUSTOMER
    modifies db
    ensures db.Valid()
    ensures r.Failure? ==>
      && db.products == old(db.products) && db.orders == old(db.orders)
      && db.transactions == old(db.transactions) && db.users == old(db.users) && db.nextId == old(db.nextId)
    ensures match PlaceOrder(old(db.products), items, outcome, draw)
      case Failure(e) => r == Failure(e)
      case Success(d) =>
        && r == Success(Order(old(db.nextId), user.id, PAID, d.total, d.lines))
        && db.products == d.products
        && db.orders == old(db.orders) + [r.value]
        && db.transactions == old(db.transactions) + [Transaction(old(db.nextId) + 1, r.value.id, d.total, SUCCESS, PROVIDER)]
        && db.users == old(db.users)
        && db.nextId == old(db.nextId) + 2
  {
    if items.None? || |items.value| == 0 {
      return Failure(ItemsMissing());
    }
    // prisma.$transaction: remember the tables so that an error can undo the attempt
    var products0, orders0, transactions0, nextId0 := db.products, db.orders, db.transactions, db.nextId;
    r := RunOrderTransaction(db, user, items.value, outcome, draw);
    if r.Failure? {
      db.products, db.orders, db.transactions, db.nextId := products0, orders0, transactions0, nextId0;
    } else {
      CommittedOrderKeepsValid(db, products0, orders0, transactions0, nextId0, items.value, user.id);
    }
  }

  /** The tables a committed order leaves behind satisfy the database invariant again. */
  lemma CommittedOrderKeepsValid(db: Database, products0: map<nat, Product>, orders0: seq<Order>,
                                 transactions0: seq<Transaction>, nextId0: nat, items: seq<ItemRequest>,
                                 customerId: nat)
    requires ProductsValid(products0, nextId0) && OrdersValid(orders0, nextId0)
    requires TransactionsValid(transactions0, orders0)
    requires UsersValid(db.users, nextId0)
    requires Checkout(products0, items).Success?
    requires var d := Checkout(products0, items).value;
      && db.products == d.products
      && db.orders == orders0 + [Order(nextId0, customerId, PAID, d.total, d.lines)]
      && db.transactions == transactions0 + [Transaction(nextId0 + 1, nextId0, d.total, SUCCESS, PROVIDER)]
      && db.nextId == nextId0 + 2
    ensures db.Valid()
  {
    CheckoutStock(products0, items);
    CheckoutTotal(products0, items);
    forall t | t in db.transactions
      ensures exists k :: 0 <= k < |db.orders| && db.orders[k].id == t.orderId && db.orders[k].totalAmount == t.amount
    {
      if t in transactions0 {
        var k :| 0 <= k < |orders0| && orders0[k].id == t.orderId && orders0[k].totalAmount == t.amount;
        assert db.orders[k] == orders0[k];
      } else {
        assert db.orders[|orders0|].id == t.orderId;
      }
    }
  }

  /** The body of the transaction callback. An error returns at once and leaves its
      partial writes behind for `CreateOrder` to roll back. */
  method RunOrderTransaction(db: Database, user: Identity, items: seq<ItemRequest>, outcome: Option<bool>, draw: bool)
    returns (r: Result<Order, Error>)
    requires |items| > 0
    modifies db
    ensures db.users == old(db.users)
    ensures match PlaceOrder(old(db.products), Some(items), outcome, draw)
      case Failure(e) => r == Failure(e)
      case Success(d) =>
        && r == Success(Order(old(db.nextId), user.id, PAID, d.total, d.lines))
        && db.products == d.products
        && db.orders == old(db.orders) + [r.value]
        && db.transactions == old(db.transactions) + [Transaction(old(db.nextId) + 1, r.value.id, d.total, SUCCESS, PROVIDER)]
        && db.nextId == old(db.nextId) + 2
  {
    var draft := ReserveItems(db, items);
    if draft.Failure? {
      return Failure(draft.error);
    }
    var totalAmount, lines := draft.value.total, draft.value.lines;
    var order := Order(db.nextId, user.id, PENDING, totalAmount, lines);
    db.orders := db.orders + [order];
    db.nextId := db.nextId + 1;
    var payment := Charge(totalAmount, outcome, draw);
    if payment.success {
      var paid := order.(status := PAID);
      db.orders := db.orders[|db.orders| - 1 := paid];
      db.transactions := db.transactions + [Transaction(db.nextId, order.id, totalAmount, SUCCESS, payment.provider)];
      db.nextId := db.nextId + 1;
      r := Success(paid);
    } else {
      r := Failure(PaymentFailed());
    }
  }

  /** The item loop: check each item against the current stock, decrement it, snapshot
      the price into a line and add the line to the running total. It stops at the first
      item that fails a check; the decrements made before that are left for the rollback. */
  method ReserveItems(db: Database, items: seq<ItemRequest>) returns (r: Result<Draft, Error>)
    modifies db
    ensures r == Checkout(old(db.products), items)
    ensures r.Success? ==> db.products == r.value.products
    ensures db.users == old(db.users) && db.orders == old(db.orders)
    ensures db.transactions == old(db.transactions) && db.nextId == old(db.nextId)
  {
    ghost var products0 := db.products;
    var totalAmount := 0;
    var lines: seq<OrderItem> := [];
    var i := 0;
    while i < |items|
      invariant 0 <= i <= |items|
      invariant Checkout(products0, items[..i]) == Success(Draft(db.products, lines, totalAmount))
      invariant db.users == old(db.users) && db.orders == old(db.orders)
      invariant db.transactions == old(db.transactions) && db.nextId == old(db.nextId)
    {
      var it := items[i];
      assert items[..i + 1][..i] == items[..i];
      if !WellFormed(it) {
        CheckoutFailurePersists(products0, items, i + 1);
        return Failure(InvalidItem());
      }
      var productId, quantity := it.productId.value, it.quantity.value;
      if productId !in db.products {
        CheckoutFailurePersists(products0, items, i + 1);
        return Failure(ProductNotFound(productId));
      }
      var product := db.products[productId];
      if product.stock < quantity {
        CheckoutFailurePersists(products0, items, i + 1);
        return Failure(InsufficientStock(product.name, product.stock, quantity));
      }
      db.products := db.products[productId := product.(stock := product.stock - quantity)];
      totalAmount := totalAmount + product.price * quantity;
      lines := lines + [OrderItem(productId, quantity, product.price)];
      i := i + 1;
    }
    assert items[..i] == items;
    r := Success(Draft(db.products, lines, totalAmount));
  }

  /** GET /api/orders (customers only): exactly the caller's orders, newest first. */
  function GetMyOrders(orders: seq<Order>, user: Identity): (r: seq<Order>)
    requires user.role == CUSTOMER
    ensures forall o :: o in r <==> o in orders && o.customerId == user.id
    ensures Listing.IdsAscending(orders) ==> forall i, j :: 0 <= i < j < |r| ==> r[i].id > r[j].id
  {
    Listing.NewestFirst(orders, (o: Order) => o.customerId == user.id)
  }
}
