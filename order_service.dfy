/** The order workflow: a user's single Pending order acts as a cart. Adding a
    product appends a line item that snapshots the product's price; a line's
    quantity may be edited only when that price is 0; line items are deleted
    by an ownership-filtered selection; buying moves the user's Pending orders
    to Delivered. */
module OrderService {
  import opened Common
  import opened Data

  const ProductNotFound := "Product not found"
  const OrderNotFound := "Order not found"
  const ProductNotInOrder := "Product not found in the order."
  const OnlyFreeItems := "Can only change the amount for unpaid (free) products."
  const NoItemsToDelete := "No matching order items found for deletion."
  const NoPendingOrders := "There are no pending orders to buy."

  /** An order as the API returns it, together with its line items. */
  datatype OrderDto = OrderDto(orderId: int, creationDate: int, userId: UserId, status: OrderStatus, items: seq<OrderItem>)

  // ---------------------------------------------------------------------------
  // Lookups

  /** The order's line items (its OrderItems navigation), in table order. */
  function ItemsOf(items: seq<OrderItem>, orderId: int): (r: seq<OrderItem>)
    ensures forall i :: 0 <= i < |r| ==> r[i] in items && r[i].orderId == orderId
    ensures forall i :: 0 <= i < |items| && items[i].orderId == orderId ==> items[i] in r
  {
    Where(items, (oi: OrderItem) => oi.orderId == orderId)
  }

  /** A new line item of the order comes last among its items. */
  lemma ItemsOfAppend(items: seq<OrderItem>, oi: OrderItem)
    ensures ItemsOf(items + [oi], oi.orderId) == ItemsOf(items, oi.orderId) + [oi]
  {
    WhereAppend(items, oi, (x: OrderItem) => x.orderId == oi.orderId);
  }

  function ToDto(o: Order, items: seq<OrderItem>): (r: OrderDto) {
    OrderDto(o.orderId, o.creationDate, o.userId, o.status, ItemsOf(items, o.orderId))
  }

  /** The first Pending order of the user: the cart. */
  function PendingOrderIndex(os: seq<Order>, uid: UserId): (r: Option<nat>) {
    FirstIndexWhere(os, (o: Order) => o.userId == uid && o.status == Pending)
  }

  /** The order with that id, provided it belongs to the user. */
  function OwnOrderIndex(os: seq<Order>, orderId: int, uid: UserId): (r: Option<nat>) {
    FirstIndexWhere(os, (o: Order) => o.orderId == orderId && o.userId == uid)
  }

  /** The user owning the order with that id (the item's Order navigation), if the order exists. */
  function OrderOwner(os: seq<Order>, orderId: int): (r: Option<UserId>) {
    match FirstIndexWhere(os, (o: Order) => o.orderId == orderId)
    case None => None
    case Some(i) => Some(os[i].userId)
  }

  /** The first line item of the order that is for the product. */
  function ItemIndexInOrder(items: seq<OrderItem>, orderId: int, productId: int): (r: Option<nat>) {
    FirstIndexWhere(items, (oi: OrderItem) => oi.orderId == orderId && oi.productId == productId)
  }

  // ---------------------------------------------------------------------------
  // GetOrderByIdAsync, GetOrdersByUserIdAsync

  /** The order only when both its id and its owner match; None stands for the null result. */
  function GetOrderById(os: seq<Order>, items: seq<OrderItem>, orderId: int, uid: UserId): (r: Option<OrderDto>)
    ensures r.Some? <==> exists i :: 0 <= i < |os| && os[i].orderId == orderId && os[i].userId == uid
    ensures r.Some? ==> r.value.orderId == orderId && r.value.userId == uid
    ensures r.Some? ==> exists i :: 0 <= i < |os| && r.value == ToDto(os[i], items)
    ensures r.Some? ==> forall oi :: oi in items && oi.orderId == orderId <==> oi in r.value.items
  {
    match OwnOrderIndex(os, orderId, uid)
    case None => None
    case Some(i) => Some(ToDto(os[i], items))
  }

  /** Exactly the user's orders, whatever their status, in table order. */
  function GetOrdersByUserId(os: seq<Order>, uid: UserId): (r: seq<Order>)
    ensures |r| <= |os|
    ensures forall i :: 0 <= i < |r| ==> r[i] in os && r[i].userId == uid
    ensures forall i :: 0 <= i < |os| && os[i].userId == uid ==> os[i] in r
  {
    Where(os, (o: Order) => o.userId == uid)
  }

  // ---------------------------------------------------------------------------
  // The cart invariant

  /** Adding a Pending order for a user who has none keeps at most one Pending order per user. */
  lemma AddingFirstPendingKeepsAtMostOnePending(os: seq<Order>, o: Order)
    requires AtMostOnePending(os)
    requires PendingOrderIndex(os, o.userId).None?
    ensures AtMostOnePending(os + [o])
  {
    var os' := os + [o];
    forall i, j | 0 <= i < j < |os'| && os'[i].status == Pending && os'[j].status == Pending
      ensures os'[i].userId != os'[j].userId
    {
      if j == |os| {
        assert os'[i] == os[i];
      }
    }
  }

  // ---------------------------------------------------------------------------
  // CreateOrderAsync

  /** A row keyed by the next identity value keeps the order ids unique and below the counter. */
  lemma AddOrderKeepsKeys(os: seq<Order>, o: Order, next: int)
    requires UniqueOrderIds(os) && (forall x :: x in os ==> x.orderId < next) && o.orderId == next
    ensures UniqueOrderIds(os + [o]) && forall x :: x in os + [o] ==> x.orderId < next + 1
  {
    var os' := os + [o];
    forall i, j | 0 <= i < j < |os'| ensures os'[i].orderId != os'[j].orderId {
      assert os'[i] == os[i] && os[i] in os;
      if j < |os| { assert os'[j] == os[j]; }
    }
  }

  lemma AddItemKeepsKeys(items: seq<OrderItem>, oi: OrderItem, next: int)
    requires UniqueItemIds(items) && (forall x :: x in items ==> x.orderItemId < next) && oi.orderItemId == next
    ensures UniqueItemIds(items + [oi]) && forall x :: x in items + [oi] ==> x.orderItemId < next + 1
  {
    var items' := items + [oi];
    forall i, j | 0 <= i < j < |items'| ensures items'[i].orderItemId != items'[j].orderItemId {
      assert items'[i] == items[i] && items[i] in items;
      if j < |items| { assert items'[j] == items[j]; }
    }
  }

  /** A new order keeps every line item's order reference valid. */
  lemma AddOrderKeepsReferences(os: seq<Order>, o: Order, items: seq<OrderItem>)
    requires forall oi :: oi in items ==> HasOrder(os, oi.orderId)
    ensures forall oi :: oi in items ==> HasOrder(os + [o], oi.orderId)
    ensures HasOrder(os + [o], o.orderId)
  {
    forall oi | oi in items ensures HasOrder(os + [o], oi.orderId) {
      var j :| 0 <= j < |os| && os[j].orderId == oi.orderId;
      assert (os + [o])[j] == os[j];
    }
    assert (os + [o])[|os|] == o;
  }

  /** An order id beyond every order's has no line items, as every item refers to an order. */
  lemma NewOrderHasNoItems(os: seq<Order>, items: seq<OrderItem>, next: int)
    requires forall o :: o in os ==> o.orderId < next
    requires forall oi :: oi in items ==> HasOrder(os, oi.orderId)
    ensures ItemsOf(items, next) == []
  {
    forall i | 0 <= i < |items| ensures items[i].orderId != next {
      assert items[i] in items;
      var j :| 0 <= j < |os| && os[j].orderId == items[i].orderId;
      assert os[j] in os;
    }
    WhereNoneKept(items, (oi: OrderItem) => oi.orderId == next);
  }

  /** The user's cart: the first Pending order of the user, or a new Pending order opened at
      time now under the next order id. */
  method FindOrOpenCart(db: AppDbContext, userId: UserId, now: int) returns (order: Order)
    requires db.Valid()
    modifies db`orders, db`nextOrderId
    ensures db.Valid()
    ensures old(AtMostOnePending(db.orders)) ==> AtMostOnePending(db.orders)
    ensures var cart := PendingOrderIndex(old(db.orders), userId);
      && order == (if cart.Some? then old(db.orders)[cart.value] else Order(old(db.nextOrderId), now, userId, Pending))
      && db.orders == (if cart.Some? then old(db.orders) else old(db.orders) + [order])
      && db.nextOrderId == old(db.nextOrderId) + (if cart.Some? then 0 else 1)
    ensures HasOrder(db.orders, order.orderId)
  {
    var cart := PendingOrderIndex(db.orders, userId);
    if cart.Some? {
      order := db.orders[cart.value];
    } else {
      AddOrderKeepsReferences(db.orders, Order(db.nextOrderId, now, userId, Pending), db.orderItems);
      order := Order(db.nextOrderId, now, userId, Pending);
      if AtMostOnePending(db.orders) {
        AddingFirstPendingKeepsAtMostOnePending(db.orders, order);
      }
      AddOrderKeepsKeys(db.orders, order, db.nextOrderId);
      db.orders := db.orders + [order];
      db.nextOrderId := db.nextOrderId + 1;
    }
  }

  /** Appends one line item under the next line-item id; the order's item list grows by exactly
      that line. */
  method AddLineItem(db: AppDbContext, orderId: int, productId: int, amount: int, price: int)
    requires db.Valid() && HasOrder(db.orders, orderId)
    modifies db`orderItems, db`nextOrderItemId
    ensures db.Valid()
    ensures var item := OrderItem(old(db.nextOrderItemId), orderId, productId, amount, price);
      && db.orderItems == old(db.orderItems) + [item]
      && db.nextOrderItemId == old(db.nextOrderItemId) + 1
      && ItemsOf(db.orderItems, orderId) == ItemsOf(old(db.orderItems), orderId) + [item]
  {
    var item := OrderItem(db.nextOrderItemId, orderId, productId, amount, price);
    ItemsOfAppend(db.orderItems, item);
    AddItemKeepsKeys(db.orderItems, item, db.nextOrderItemId);
    db.orderItems := db.orderItems + [item];
    db.nextOrderItemId := db.nextOrderItemId + 1;
  }

  /** Puts amount of the product into the user's cart: reuses the first Pending order of the
      user, or opens a new one at time now, and always appends one new line item priced at the
      product's current price. */
  method CreateOrder(db: AppDbContext, productId: int, amount: int, userId: UserId, now: int)
    returns (r: Result<OrderDto>)
    requires db.Valid()
    modifies db`orders, db`orderItems, db`nextOrderId, db`nextOrderItemId
    ensures db.Valid()
    ensures old(AtMostOnePending(db.orders)) ==> AtMostOnePending(db.orders)
    ensures ProductIndexById(db.products, productId).None? ==>
      && r == Err(Raise(NotFound, ProductNotFound))
      && db.orders == old(db.orders) && db.orderItems == old(db.orderItems)
      && db.nextOrderId == old(db.nextOrderId) && db.nextOrderItemId == old(db.nextOrderItemId)
    ensures ProductIndexById(db.products, productId).Some? ==>
      var product := db.products[ProductIndexById(db.products, productId).value];
      var cart := PendingOrderIndex(old(db.orders), userId);
      var order := if cart.Some? then old(db.orders)[cart.value] else Order(old(db.nextOrderId), now, userId, Pending);
      var item := OrderItem(old(db.nextOrderItemId), order.orderId, productId, amount, product.price);
      && db.orders == (if cart.Some? then old(db.orders) else old(db.orders) + [order])
      && db.nextOrderId == old(db.nextOrderId) + (if cart.Some? then 0 else 1)
      && db.orderItems == old(db.orderItems) + [item]
      && db.nextOrderItemId == old(db.nextOrderItemId) + 1
      && r == Ok(ToDto(order, db.orderItems))
      && r.value.items == ItemsOf(old(db.orderItems), order.orderId) + [item]
      && (cart.None? ==> r.value.items == [item])
  {
    var found := ProductIndexById(db.products, productId);
    if found.None? {
      return Err(Raise(NotFound, ProductNotFound));
    }
    var product := db.products[found.value];
    if PendingOrderIndex(db.orders, userId).None? {
      NewOrderHasNoItems(db.orders, db.orderItems, db.nextOrderId);
    }
    var order := FindOrOpenCart(db, userId, now);
    AddLineItem(db, order.orderId, productId, amount, product.price);
    r := Ok(ToDto(order, db.orderItems));
  }

  // ---------------------------------------------------------------------------
  // UpdateOrderItemAmountAsync

  /** Sets the quantity of the order's first line item for the product, allowed only when that
      line's snapshot price is 0. */
  method UpdateOrderItemAmount(db: AppDbContext, orderId: int, productId: int, newAmount: int, userId: UserId)
    returns (r: Result<OrderDto>)
    requires db.Valid()
    modifies db`orderItems
    ensures db.Valid()
    ensures OwnOrderIndex(db.orders, orderId, userId).None? ==>
      r == Err(Raise(NotFound, OrderNotFound)) && db.orderItems == old(db.orderItems)
    ensures OwnOrderIndex(db.orders, orderId, userId).Some? && ItemIndexInOrder(old(db.orderItems), orderId, productId).None? ==>
      r == Err(Raise(NotFound, ProductNotInOrder)) && db.orderItems == old(db.orderItems)
    ensures OwnOrderIndex(db.orders, orderId, userId).Some? && ItemIndexInOrder(old(db.orderItems), orderId, productId).Some? ==>
      var k := ItemIndexInOrder(old(db.orderItems), orderId, productId).value;
      if old(db.orderItems)[k].price != 0 then
        r == Err(Raise(BadRequest, OnlyFreeItems)) && db.orderItems == old(db.orderItems)
      else
        && db.orderItems == old(db.orderItems)[k := old(db.orderItems)[k].(quantity := newAmount)]
        && r == Ok(ToDto(db.orders[OwnOrderIndex(db.orders, orderId, userId).value], db.orderItems))
  {
    var found := OwnOrderIndex(db.orders, orderId, userId);
    if found.None? {
      return Err(Raise(NotFound, OrderNotFound));
    }
    var order := db.orders[found.value];
    var line := ItemIndexInOrder(db.orderItems, orderId, productId);
    if line.None? {
      return Err(Raise(NotFound, ProductNotInOrder));
    }
    var k := line.value;
    if db.orderItems[k].price != 0 {
      return Err(Raise(BadRequest, OnlyFreeItems));
    }
    db.orderItems := db.orderItems[k := db.orderItems[k].(quantity := newAmount)];
    assert forall i :: 0 <= i < |db.orderItems| ==> db.orderItems[i].orderItemId == old(db.orderItems)[i].orderItemId;
    r := Ok(ToDto(order, db.orderItems));
  }

  // ---------------------------------------------------------------------------
  // DeleteOrderItemsAsync

  /** The selection as the service writes it: the item's ORDER id is tested against the ids,
      and the item's order must belong to the user. */
  predicate SelectedAsWritten(os: seq<Order>, itemIds: seq<int>, uid: UserId, oi: OrderItem) {
    oi.orderId in itemIds && OrderOwner(os, oi.orderId) == Some(uid)
  }

  /** The selection the parameter's name and the service's tests call for: the item's own id. */
  predicate SelectedByItemId(os: seq<Order>, itemIds: seq<int>, uid: UserId, oi: OrderItem) {
    oi.orderItemId in itemIds && OrderOwner(os, oi.orderId) == Some(uid)
  }

  lemma WhereKeepsUniqueItemIds(items: seq<OrderItem>, keep: OrderItem -> bool)
    requires UniqueItemIds(items)
    ensures UniqueItemIds(Where(items, keep))
  {
    WhereKeepsPairwise(items, keep, (x: OrderItem, y: OrderItem) => x.orderItemId != y.orderItemId);
  }

  /** RemoveRange of the selected items; with nothing selected it fails and removes nothing. */
  method DeleteSelectedItems(db: AppDbContext, selected: OrderItem -> bool) returns (r: Result<()>)
    requires db.Valid()
    modifies db`orderItems
    ensures db.Valid()
    ensures r.Err? <==> forall i :: 0 <= i < |old(db.orderItems)| ==> !selected(old(db.orderItems)[i])
    ensures r.Err? ==> r.error == Raise(BadRequest, NoItemsToDelete) && db.orderItems == old(db.orderItems)
    ensures r.Ok? ==> db.orderItems == Where(old(db.orderItems), (oi: OrderItem) => !selected(oi))
  {
    var first := FirstIndexWhere(db.orderItems, selected);
    if first.None? {
      return Err(Raise(BadRequest, NoItemsToDelete));
    }
    WhereKeepsUniqueItemIds(db.orderItems, (oi: OrderItem) => !selected(oi));
    db.orderItems := Where(db.orderItems, (oi: OrderItem) => !selected(oi));
    r := Ok(());
  }

  /** Deletes the line items selected as the service writes it (by order id). */
  method DeleteOrderItems(db: AppDbContext, itemIds: seq<int>, userId: UserId) returns (r: Result<()>)
    requires db.Valid()
    modifies db`orderItems
    ensures db.Valid()
    ensures r.Err? <==> forall i :: 0 <= i < |old(db.orderItems)| ==> !SelectedAsWritten(db.orders, itemIds, userId, old(db.orderItems)[i])
    ensures r.Err? ==> r.error == Raise(BadRequest, NoItemsToDelete) && db.orderItems == old(db.orderItems)
    ensures r.Ok? ==> var os := db.orders;
      db.orderItems == Where(old(db.orderItems), (oi: OrderItem) => !SelectedAsWritten(os, itemIds, userId, oi))
  {
    var os := db.orders;
    var selected := (oi: OrderItem) => SelectedAsWritten(os, itemIds, userId, oi);
    WhereSameFilter(db.orderItems, (oi: OrderItem) => !selected(oi), (oi: OrderItem) => !SelectedAsWritten(os, itemIds, userId, oi));
    r := DeleteSelectedItems(db, selected);
  }

  /** Deletes the line items selected by their own ids, as intended. */
  method DeleteOrderItemsByItemId(db: AppDbContext, itemIds: seq<int>, userId: UserId) returns (r: Result<()>)
    requires db.Valid()
    modifies db`orderItems
    ensures db.Valid()
    ensures r.Err? <==> forall i :: 0 <= i < |old(db.orderItems)| ==> !SelectedByItemId(db.orders, itemIds, userId, old(db.orderItems)[i])
    ensures r.Err? ==> r.error == Raise(BadRequest, NoItemsToDelete) && db.orderItems == old(db.orderItems)
    ensures r.Ok? ==> var os := db.orders;
      db.orderItems == Where(old(db.orderItems), (oi: OrderItem) => !SelectedByItemId(os, itemIds, userId, oi))
  {
    var os := db.orders;
    var selected := (oi: OrderItem) => SelectedByItemId(os, itemIds, userId, oi);
    WhereSameFilter(db.orderItems, (oi: OrderItem) => !selected(oi), (oi: OrderItem) => !SelectedByItemId(os, itemIds, userId, oi));
    r := DeleteSelectedItems(db, selected);
  }

  /** One order of user 7 with line items 1 and 2: asking for item 2 selects nothing, and asking
      for item 1 selects item 2 as well, because the ids are compared with the order id 1. */
  lemma AsWrittenSelectsByOrderId()
    ensures var os := [Order(1, 0, 7, Pending)];
      var item1, item2 := OrderItem(1, 1, 10, 1, 0), OrderItem(2, 1, 11, 1, 0);
      && !SelectedAsWritten(os, [2], 7, item2)
      && SelectedAsWritten(os, [1], 7, item1) && SelectedAsWritten(os, [1], 7, item2)
  {
    var os := [Order(1, 0, 7, Pending)];
    assert FirstIndexWhere(os, (o: Order) => o.orderId == 1) == Some(0);
  }

  /** With the intended selection, every named item of the user's orders goes, and every item
      that was not named, or belongs to another user, stays, in its order. */
  lemma ByItemIdDeletesExactlyTheNamedItems(os: seq<Order>, items: seq<OrderItem>, itemIds: seq<int>, uid: UserId)
    ensures var kept := Where(items, (oi: OrderItem) => !SelectedByItemId(os, itemIds, uid, oi));
      && (forall oi :: oi in kept ==> oi.orderItemId !in itemIds || OrderOwner(os, oi.orderId) != Some(uid))
      && (forall i :: 0 <= i < |items| && items[i].orderItemId !in itemIds ==> items[i] in kept)
      && (forall i :: 0 <= i < |items| && OrderOwner(os, items[i].orderId) != Some(uid) ==> items[i] in kept)
  {
    var kept := Where(items, (oi: OrderItem) => !SelectedByItemId(os, itemIds, uid, oi));
    forall oi | oi in kept ensures oi.orderItemId !in itemIds || OrderOwner(os, oi.orderId) != Some(uid) {
      var t :| 0 <= t < |kept| && kept[t] == oi;
    }
  }

  // ---------------------------------------------------------------------------
  // BuyProductsAsync

  /** One order after the purchase: the user's Pending orders become Delivered. */
  function Purchased(o: Order, uid: UserId): (r: Order) {
    if o.userId == uid && o.status == Pending then o.(status := Delivered) else o
  }

  /** The orders table after the user buys everything in their Pending orders. */
  function AfterPurchase(os: seq<Order>, uid: UserId): (r: seq<Order>)
    ensures |r| == |os|
    ensures forall i :: 0 <= i < |r| ==> r[i].orderId == os[i].orderId && r[i].userId == os[i].userId
    ensures forall i :: 0 <= i < |r| && os[i].userId == uid && os[i].status == Pending ==> r[i].status == Delivered
    ensures forall i :: 0 <= i < |r| && !(os[i].userId == uid && os[i].status == Pending) ==> r[i] == os[i]
    ensures PendingOrderIndex(r, uid).None?
  {
    var r := seq(|os|, i requires 0 <= i < |os| => Purchased(os[i], uid));
    assert forall i :: 0 <= i < |r| ==> !(r[i].userId == uid && r[i].status == Pending);
    r
  }

  /** Buying creates no Pending order, so the cart invariant survives. */
  lemma AfterPurchaseKeepsAtMostOnePending(os: seq<Order>, uid: UserId)
    requires AtMostOnePending(os)
    ensures AtMostOnePending(AfterPurchase(os, uid))
  {
    var r := AfterPurchase(os, uid);
    forall i, j | 0 <= i < j < |r| && r[i].status == Pending && r[j].status == Pending
      ensures r[i].userId != r[j].userId
    {
      assert r[i] == os[i] && r[j] == os[j];
    }
  }

  /** Marks every Pending order of the user Delivered; fails when there is none. */
  method BuyProducts(db: AppDbContext, userId: UserId) returns (r: Result<()>)
    requires db.Valid()
    modifies db`orders
    ensures db.Valid()
    ensures r.Err? <==> PendingOrderIndex(old(db.orders), userId).None?
    ensures r.Err? ==> r.error == Raise(BadRequest, NoPendingOrders) && db.orders == old(db.orders)
    ensures r.Ok? ==> db.orders == AfterPurchase(old(db.orders), userId)
  {
    if PendingOrderIndex(db.orders, userId).None? {
      return Err(Raise(BadRequest, NoPendingOrders));
    }
    var i := 0;
    while i < |db.orders|
      invariant 0 <= i <= |db.orders| == |old(db.orders)|
      invariant forall j :: 0 <= j < i ==> db.orders[j] == Purchased(old(db.orders)[j], userId)
      invariant forall j :: i <= j < |db.orders| ==> db.orders[j] == old(db.orders)[j]
    {
      if db.orders[i].userId == userId && db.orders[i].status == Pending {
        db.orders := db.orders[i := db.orders[i].(status := Delivered)];
      }
      i := i + 1;
    }
    assert db.orders == AfterPurchase(old(db.orders), userId);
    r := Ok(());
  }
}
