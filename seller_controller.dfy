/** The fulfilment side (`src/controllers/sellerController.js`): the orders a seller takes
    part in, and the PAID -> SHIPPED transition under seller ownership. */
module SellerController {
  import opened Wrappers
  import opened Errors
  import opened AuthMiddleware
  import opened Store
  import Listing

  /** `item.product.seller_id === sellerId`, reading the product's current row. A line
      whose product is no longer in the table belongs to no seller. */
  predicate OwnsItem(products: map<nat, Product>, item: OrderItem, sellerId: nat)
  {
    item.productId in products && products[item.productId].sellerId == sellerId
  }

  /** `order.items.some(...)`: at least one line of the order is the seller's. */
  predicate HasSellerProducts(products: map<nat, Product>, order: Order, sellerId: nat)
  {
    exists i :: 0 <= i < |order.items| && OwnsItem(products, order.items[i], sellerId)
  }

  /** GET /api/seller/orders (sellers only): exactly the orders with at least one line of
      the caller's, newest first; a seller without such an order gets an empty list. */
  function GetSellerOrders(products: map<nat, Product>, orders: seq<Order>, user: Identity): (r: seq<Order>)
    requires user.role == SELLER
    ensures forall o :: o in r <==> o in orders && HasSellerProducts(products, o, user.id)
    ensures Listing.IdsAscending(orders) ==> forall i, j :: 0 <= i < j < |r| ==> r[i].id > r[j].id
    ensures (forall o :: o in orders ==> !HasSellerProducts(products, o, user.id)) ==> r == []
  {
    var r := Listing.NewestFirst(orders, (o: Order) => HasSellerProducts(products, o, user.id));
    assert r != [] ==> r[0] in r;
    r
  }

  /** The position of the order with the given id, if there is one. */
  function FindOrder(orders: seq<Order>, id: nat): (k: Option<nat>)
    ensures k.Some? ==> k.value < |orders| && orders[k.value].id == id
    ensures k.None? ==> forall i :: 0 <= i < |orders| ==> orders[i].id != id
  {
    if orders == [] then None
    else if orders[0].id == id then Some(0)
    else
      match FindOrder(orders[1..], id)
      case None => None
      case Some(k) => Some(k + 1)
  }

  function OrderNotFound(): Error
  {
    AppError("Order not found", 404)
  }

  function NotYourOrder(): Error
  {
    AppError("Forbidden. This order does not contain your products.", 403)
  }

  /** The 400 error names the order's current status. */
  function CannotShip(status: OrderStatus): Error
  {
    AppError("Cannot ship order with status \"" + StatusName(status) + "\". Only PAID orders can be shipped.", 400)
  }

  /** The checks `shipOrder` makes on an order it found, in order: ownership first (403,
      whatever the status), then status (400 unless PAID). On success the order is the same
      order with status SHIPPED. */
  function Ship(products: map<nat, Product>, order: Order, sellerId: nat): (r: Result<Order, Error>)
    ensures r.Success? <==> HasSellerProducts(products, order, sellerId) && order.status == PAID
    ensures r.Success? ==> r.value == order.(status := SHIPPED)
    ensures !HasSellerProducts(products, order, sellerId) ==> r == Failure(NotYourOrder())
    ensures HasSellerProducts(products, order, sellerId) && order.status != PAID ==> r == Failure(CannotShip(order.status))
  {
    if !HasSellerProducts(products, order, sellerId) then Failure(NotYourOrder())
    else if order.status != PAID then Failure(CannotShip(order.status))
    else Success(order.(status := SHIPPED))
  }

  /** SHIPPED has no way out: shipping a shipped order again, even by its seller, is refused
      with a message naming SHIPPED, and no order ever goes back to PAID or PENDING. */
  lemma ShippedIsTerminal(products: map<nat, Product>, order: Order, sellerId: nat)
    requires Ship(products, order, sellerId).Success?
    ensures var shipped := Ship(products, order, sellerId).value;
      && shipped.status == SHIPPED
      && Ship(products, shipped, sellerId) == Failure(CannotShip(SHIPPED))
  {
  }

  /** PATCH /api/seller/orders/:id/ship (sellers only). Only the status of the one order
      changes, and only on success. */
  method ShipOrder(db: Database, user: Identity, orderId: nat) returns (r: Result<Order, Error>)
    requires db.Valid()
    requires user.role == SELLER
    modifies db
    ensures db.Valid()
    ensures db.products == old(db.products) && db.users == old(db.users)
    ensures db.transactions == old(db.transactions) && db.nextId == old(db.nextId)
    ensures match FindOrder(old(db.orders), orderId)
      case None => r == Failure(OrderNotFound()) && db.orders == old(db.orders)
      case Some(k) =>
        && r == Ship(db.products, old(db.orders)[k], user.id)
        && db.orders == (if r.Success? then old(db.orders)[k := r.value] else old(db.orders))
  {
    var found := FindOrder(db.orders, orderId);
    if found.None? {
      return Failure(OrderNotFound());
    }
    var k := found.value;
    r := Ship(db.products, db.orders[k], user.id);
    if r.Success? {
      ghost var orders0 := db.orders;
      db.orders := db.orders[k := r.value];
      forall t | t in db.transactions
        ensures exists j :: 0 <= j < |db.orders| && db.orders[j].id == t.orderId && db.orders[j].totalAmount == t.amount
      {
        var j :| 0 <= j < |orders0| && orders0[j].id == t.orderId && orders0[j].totalAmount == t.amount;
        assert db.orders[j].id == orders0[j].id && db.orders[j].totalAmount == orders0[j].totalAmount;
      }
    }
  }
}
