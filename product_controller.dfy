/** The product catalogue (`src/controllers/productController.js`): create with
    validation, read one or all, and owner-only partial update and delete. */
module ProductController {
  import opened Wrappers
  import opened Errors
  import opened AuthMiddleware
  import opened Store
  import opened Strings

  /** The body of POST /api/products; a field not sent is `None`. */
  datatype CreateRequest = CreateRequest(name: Option<string>, description: Option<string>,
                                         price: Option<int>, stockQuantity: Option<int>)

  /** The body of PUT /api/products/:id. `description` may be sent as null, hence the
      inner option; every other field is either sent with a value or not sent. */
  datatype UpdateRequest = UpdateRequest(name: Option<string>, description: Option<Option<string>>,
                                         price: Option<int>, stockQuantity: Option<int>)

  function MissingFields(): Error
  {
    AppError("Name, price, and stock_quantity are required", 400)
  }

  function NegativeFields(): Error
  {
    AppError("Price and stock_quantity must be non-negative", 400)
  }

  function ProductNotFound(): Error
  {
    AppError("Product not found", 404)
  }

  /** The validation of `createProduct` and the row it inserts for the calling seller:
      a name and both numbers are required, neither number may be negative, and an absent
      or empty description is stored as null. */
  function NewProduct(req: CreateRequest, id: nat, sellerId: nat): (r: Result<Product, Error>)
    ensures r.Success? <==>
      Truthy(req.name) && req.price.Some? && req.stockQuantity.Some? && req.price.value >= 0 && req.stockQuantity.value >= 0
    ensures !(Truthy(req.name) && req.price.Some? && req.stockQuantity.Some?) ==> r == Failure(MissingFields())
    ensures r.Failure? ==> r.error.statusCode == Some(400)
    ensures r.Success? ==>
      && r.value.id == id && r.value.sellerId == sellerId
      && r.value.name == req.name.value && r.value.price == req.price.value
      && r.value.stock == req.stockQuantity.value
      && r.value.description == (if Truthy(req.description) then req.description else None)
  {
    if !Truthy(req.name) || req.price.None? || req.stockQuantity.None? then Failure(MissingFields())
    else if req.price.value < 0 || req.stockQuantity.value < 0 then Failure(NegativeFields())
    else
      Success(Product(id, sellerId, req.name.value, if Truthy(req.description) then req.description else None,
                      req.price.value, req.stockQuantity.value))
  }

  /** POST /api/products (sellers only). */
  method CreateProduct(db: Database, user: Identity, req: CreateRequest) returns (r: Result<Product, Error>)
    requires db.Valid()
    requires user.role == SELLER
    modifies db
    ensures db.Valid()
    ensures r == NewProduct(req, old(db.nextId), user.id)
    ensures db.products == (if r.Success? then old(db.products)[r.value.id := r.value] else old(db.products))
    ensures db.nextId == (if r.Success? then old(db.nextId) + 1 else old(db.nextId))
    ensures db.users == old(db.users) && db.orders == old(db.orders) && db.transactions == old(db.transactions)
  {
    r := NewProduct(req, db.nextId, user.id);
    if r.Success? {
      db.products := db.products[db.nextId := r.value];
      db.nextId := db.nextId + 1;
    }
  }

  /** GET /api/products/:id: the stored row, or 404. */
  function GetProduct(products: map<nat, Product>, id: nat): (r: Result<Product, Error>)
    ensures r.Success? <==> id in products
    ensures r.Success? ==> r.value == products[id]
    ensures r.Failure? ==> r.error == ProductNotFound()
  {
    if id !in products then Failure(ProductNotFound()) else Success(products[id])
  }

  /** The products whose ids are below `bound`, newest (largest id) first. */
  function ProductsBelow(products: map<nat, Product>, bound: nat): (r: seq<Product>)
    requires forall k :: k in products ==> products[k].id == k
    ensures forall p :: p in r ==> p.id < bound && p.id in products && products[p.id] == p
    ensures forall k :: k in products && k < bound ==> products[k] in r
    ensures forall i, j :: 0 <= i < j < |r| ==> r[i].id > r[j].id
    decreases bound
  {
    if bound == 0 then []
    else (if bound - 1 in products then [products[bound - 1]] else []) + ProductsBelow(products, bound - 1)
  }

  /** GET /api/products: every product, newest first. */
  function GetAllProducts(products: map<nat, Product>, nextId: nat): (r: seq<Product>)
    requires ProductsValid(products, nextId)
    ensures forall p :: p in r <==> p.id in products && products[p.id] == p
    ensures forall i, j :: 0 <= i < j < |r| ==> r[i].id > r[j].id
  {
    ProductsBelow(products, nextId)
  }

  /** The lookup and ownership check shared by update and delete: 404 for an unknown id,
      then 403 with `forbidden` when the caller is not the product's seller. */
  function Authorize(products: map<nat, Product>, id: nat, sellerId: nat, forbidden: Error): (r: Result<Product, Error>)
    ensures r.Success? <==> id in products && products[id].sellerId == sellerId
    ensures r.Success? ==> r.value == products[id]
    ensures id !in products ==> r == Failure(ProductNotFound())
    ensures id in products && products[id].sellerId != sellerId ==> r == Failure(forbidden)
  {
    if id !in products then Failure(ProductNotFound())
    else if products[id].sellerId != sellerId then Failure(forbidden)
    else Success(products[id])
  }

  /** The spread of `updateProduct`: each field that was sent replaces the stored one. */
  function ApplyUpdate(p: Product, req: UpdateRequest): (r: Product)
    ensures r.id == p.id && r.sellerId == p.sellerId
  {
    p.(name := if req.name.Some? then req.name.value else p.name,
       description := if req.description.Some? then req.description.value else p.description,
       price := if req.price.Some? then req.price.value else p.price,
       stock := if req.stockQuantity.Some? then req.stockQuantity.value else p.stock)
  }

  /** An update changes exactly the fields it carries: a field that was sent takes the sent
      value and a field that was not keeps its value; identity and owner never change. */
  lemma UpdateChangesOnlySentFields(p: Product, req: UpdateRequest)
    ensures var r := ApplyUpdate(p, req);
      && r.id == p.id && r.sellerId == p.sellerId
      && (req.name.None? ==> r.name == p.name) && (req.name.Some? ==> r.name == req.name.value)
      && (req.description.None? ==> r.description == p.description)
      && (req.description.Some? ==> r.description == req.description.value)
      && (req.price.None? ==> r.price == p.price) && (req.price.Some? ==> r.price == req.price.value)
      && (req.stockQuantity.None? ==> r.stock == p.stock)
      && (req.stockQuantity.Some? ==> r.stock == req.stockQuantity.value)
  {
  }

  /** Sending the same update twice leaves the product as one update did, and an empty
      update leaves it as it was. */
  lemma UpdateIdempotent(p: Product, req: UpdateRequest)
    ensures ApplyUpdate(ApplyUpdate(p, req), req) == ApplyUpdate(p, req)
    ensures ApplyUpdate(p, UpdateRequest(None, None, None, None)) == p
  {
  }

  /** PUT /api/products/:id (sellers only; only the owning seller succeeds). */
  method UpdateProduct(db: Database, user: Identity, id: nat, req: UpdateRequest) returns (r: Result<Product, Error>)
    requires db.Valid()
    requires user.role == SELLER
    modifies db
    ensures db.Valid()
    ensures match Authorize(old(db.products), id, user.id, AppError("Forbidden. You can only edit your own products.", 403))
      case Failure(e) => r == Failure(e) && db.products == old(db.products)
      case Success(p) => r == Success(ApplyUpdate(p, req)) && db.products == old(db.products)[id := r.value]
    ensures db.users == old(db.users) && db.orders == old(db.orders)
    ensures db.transactions == old(db.transactions) && db.nextId == old(db.nextId)
  {
    var found := Authorize(db.products, id, user.id, AppError("Forbidden. You can only edit your own products.", 403));
    if found.Failure? {
      return Failure(found.error);
    }
    var updated := ApplyUpdate(found.value, req);
    db.products := db.products[id := updated];
    r := Success(updated);
  }

  const DELETED: string := "Product deleted"

  /** DELETE /api/products/:id (sellers only; only the owning seller succeeds). Afterwards
      the product is gone and reading it answers 404. */
  method DeleteProduct(db: Database, user: Identity, id: nat) returns (r: Result<string, Error>)
    requires db.Valid()
    requires user.role == SELLER
    modifies db
    ensures db.Valid()
    ensures match Authorize(old(db.products), id, user.id, AppError("Forbidden. You can only delete your own products.", 403))
      case Failure(e) => r == Failure(e) && db.products == old(db.products)
      case Success(_) => r == Success(DELETED) && db.products == old(db.products) - {id}
    ensures r.Success? ==> GetProduct(db.products, id) == Failure(ProductNotFound())
    ensures db.users == old(db.users) && db.orders == old(db.orders)
    ensures db.transactions == old(db.transactions) && db.nextId == old(db.nextId)
  {
    var found := Authorize(db.products, id, user.id, AppError("Forbidden. You can only delete your own products.", 403));
    if found.Failure? {
      return Failure(found.error);
    }
    db.products := db.products - {id};
    r := Success(DELETED);
  }
}
