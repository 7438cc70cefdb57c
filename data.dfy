/** The persisted entities and the database context that holds their tables.
    Each table is a sequence of rows; a row is a value, so assigning a field of
    a tracked entity becomes replacing its row. */
module Data {
  import opened Common

  /** A user's Guid. */
  type UserId = int

  datatype Platform = PC | Xbox | PlayStation | Nintendo | Mobile

  /** A catalog entry. Price is kept in minor units. */
  datatype Product = Product(id: int, name: string, platform: Platform, totalRating: int, price: int)

  /** One user's rating of one product; (productId, userId) is the primary key. */
  datatype ProductRating = ProductRating(productId: int, userId: UserId, rating: int)

  datatype OrderStatus = Pending | Delivered

  datatype Order = Order(orderId: int, creationDate: int, userId: UserId, status: OrderStatus)

  /** A line item; its price is the product's price when the item was added. */
  datatype OrderItem = OrderItem(orderItemId: int, orderId: int, productId: int, quantity: int, price: int)

  /** Products.FindAsync(id): the row with that primary key, if any. */
  function ProductIndexById(ps: seq<Product>, id: int): (r: Option<nat>)
    ensures r.Some? <==> exists i :: 0 <= i < |ps| && ps[i].id == id
    ensures r.Some? ==> r.value < |ps| && ps[r.value].id == id
  {
    FirstIndexWhere(ps, (p: Product) => p.id == id)
  }

  ghost predicate UniqueProductIds(ps: seq<Product>) {
    forall i, j :: 0 <= i < j < |ps| ==> ps[i].id != ps[j].id
  }

  ghost predicate UniqueOrderIds(os: seq<Order>) {
    forall i, j :: 0 <= i < j < |os| ==> os[i].orderId != os[j].orderId
  }

  ghost predicate UniqueItemIds(items: seq<OrderItem>) {
    forall i, j :: 0 <= i < j < |items| ==> items[i].orderItemId != items[j].orderItemId
  }

  /** The composite primary key of the ratings table. */
  ghost predicate UniqueRatingKeys(rs: seq<ProductRating>) {
    forall i, j :: 0 <= i < j < |rs| ==>
      rs[i].productId != rs[j].productId || rs[i].userId != rs[j].userId
  }

  /** The foreign key of OrderItems.OrderId: some order has that id. */
  ghost predicate HasOrder(os: seq<Order>, id: int) {
    exists j :: 0 <= j < |os| && os[j].orderId == id
  }

  /** The design invariant of the cart pattern: a user has at most one Pending order. */
  ghost predicate AtMostOnePending(os: seq<Order>) {
    forall i, j :: 0 <= i < j < |os| && os[i].status == Pending && os[j].status == Pending ==>
      os[i].userId != os[j].userId
  }

  /** The tables, and the identity counters the store uses for new keys. */
  class AppDbContext {
    var products: seq<Product>
    var productRatings: seq<ProductRating>
    var orders: seq<Order>
    var orderItems: seq<OrderItem>
    var nextOrderId: int
    var nextOrderItemId: int

    /** What the database's keys guarantee. */
    ghost predicate Valid()
      reads this
    {
      && UniqueProductIds(products)
      && UniqueRatingKeys(productRatings)
      && UniqueOrderIds(orders)
      && UniqueItemIds(orderItems)
      && (forall o :: o in orders ==> o.orderId < nextOrderId)
      && (forall oi :: oi in orderItems ==> oi.orderItemId < nextOrderItemId)
      && (forall oi :: oi in orderItems ==> HasOrder(orders, oi.orderId))
    }

    constructor (products: seq<Product>)
      requires UniqueProductIds(products)
      ensures Valid()
      ensures this.products == products
      ensures productRatings == [] && orders == [] && orderItems == []
    {
      this.products := products;
      productRatings := [];
      orders := [];
      orderItems := [];
      nextOrderId := 1;
      nextOrderItemId := 1;
    }
  }
}
