/** The order resolvers of dist/resolvers/orderResolvers.js. Queries are
    functions of the order table; each mutation is a method on the database
    whose outcome is given by a function of the old tables, about which the
    lemmas below are stated. */
module OrderResolvers {
  import opened Errors
  import opened Strings
  import opened Domain
  import opened Auth
  import opened Validation
  import opened Store
  import Payment

  // ---------------------------------------------------------------- the table invariant

  /** The fee an order was charged: a stored fee, or none. */
  function FeeCharged(o: Order): Money {
    match o.deliveryFee
    case Some(f) => f
    case None => 0.0
  }

  /** What one line costs. */
  function LineAmount(l: OrderItem): Money {
    l.price * l.quantity as real
  }

  /** The sum of the lines, accumulated from the first to the last. */
  function LineSum(lines: seq<OrderItem>): Money {
    if lines == [] then 0.0 else LineSum(lines[..|lines| - 1]) + LineAmount(lines[|lines| - 1])
  }

  /** A stored order sits under its own id, a stored fee is positive, and the
      total is the lines plus the fee. */
  predicate OrderConsistent(id: Id, o: Order) {
    && o.id == id
    && (o.deliveryFee.Some? ==> o.deliveryFee.value > 0.0)
    && o.totalAmount == LineSum(o.items) + FeeCharged(o)
  }

  predicate OrdersConsistent(orders: map<Id, Order>) {
    forall id :: id in orders ==> OrderConsistent(id, orders[id])
  }

  /** The unique index on `orderNumber`. */
  predicate NumbersUnique(orders: map<Id, Order>) {
    forall a, b :: a in orders && b in orders && orders[a].orderNumber == orders[b].orderNumber ==> a == b
  }

  predicate NumberTaken(orders: map<Id, Order>, orderNumber: string) {
    exists k :: k in orders && orders[k].orderNumber == orderNumber
  }

  // ---------------------------------------------------------------- queries

  /** Whether the caller `user` may see or cancel order `o`. */
  predicate CanAccess(ctx: Context, user: User, o: Order) {
    ctx.isAdmin || o.userId == user.id
  }

  /** `orders`: every order for an admin, the caller's own otherwise. */
  function Orders(ctx: Context, orders: map<Id, Order>): (r: Result<set<Order>>)
    ensures r.Ok? <==> RequireAuth(ctx).Ok?
    ensures r.Err? ==> r == Fail(Authentication, "Authentication required")
    ensures r.Ok? ==> r.value <= orders.Values
  {
    var user :- RequireAuth(ctx);
    Ok(set o | o in orders.Values && CanAccess(ctx, user, o))
  }

  /** `order(id)`. */
  function OrderById(ctx: Context, orders: map<Id, Order>, id: Id): (r: Result<Order>)
    ensures r.Ok? <==>
      RequireAuth(ctx).Ok? && IsObjectId(id) && id in orders && CanAccess(ctx, ctx.user.value, orders[id])
    ensures r.Ok? ==> r.value == orders[id]
  {
    var user :- RequireAuth(ctx);
    var _ :- ValidateObjectId(id, "Order ID");
    if id !in orders then Fail(NotFound, "Order not found")
    else if !CanAccess(ctx, user, orders[id]) then Fail(Forbidden, "Access denied")
    else Ok(orders[id])
  }

  /** The errors of `order(id)`, in the order the resolver checks them. */
  lemma OrderByIdErrors(ctx: Context, orders: map<Id, Order>, id: Id)
    ensures RequireAuth(ctx).Err? ==> FailedWith(OrderById(ctx, orders, id), Authentication)
    ensures RequireAuth(ctx).Ok? && !IsObjectId(id) ==>
      OrderById(ctx, orders, id) == Fail(Validation, "Invalid Order ID format")
    ensures RequireAuth(ctx).Ok? && IsObjectId(id) && id !in orders ==>
      OrderById(ctx, orders, id) == Fail(NotFound, "Order not found")
    ensures RequireAuth(ctx).Ok? && IsObjectId(id) && id in orders && !CanAccess(ctx, ctx.user.value, orders[id]) ==>
      OrderById(ctx, orders, id) == Fail(Forbidden, "Access denied")
  {
  }

  /** The list and the single-order query agree: an order is listed exactly
      when it can be fetched by its id. */
  lemma OrdersAgreeWithOrderById(ctx: Context, orders: map<Id, Order>, id: Id)
    requires OrdersConsistent(orders) && id in orders && IsObjectId(id)
    requires RequireAuth(ctx).Ok?
    ensures orders[id] in Orders(ctx, orders).value <==> OrderById(ctx, orders, id).Ok?
  {
  }

  /** `orderByNumber(orderNumber)`: the unique index makes the match unique. */
  ghost function OrderByNumber(ctx: Context, orders: map<Id, Order>, orderNumber: string): (r: Result<Order>)
    ensures r.Ok? ==>
      && RequireAuth(ctx).Ok? && r.value in orders.Values && r.value.orderNumber == orderNumber
      && CanAccess(ctx, ctx.user.value, r.value)
    ensures RequireAuth(ctx).Ok? && !NumberTaken(orders, orderNumber) ==> r == Fail(NotFound, "Order not found")
  {
    var user :- RequireAuth(ctx);
    if !NumberTaken(orders, orderNumber) then Fail(NotFound, "Order not found")
    else
      var k :| k in orders && orders[k].orderNumber == orderNumber;
      if !CanAccess(ctx, user, orders[k]) then Fail(Forbidden, "Access denied")
      else Ok(orders[k])
  }

  /** With unique numbers, fetching by number is fetching by id. */
  lemma OrderByNumberIsOrderById(ctx: Context, orders: map<Id, Order>, id: Id)
    requires NumbersUnique(orders) && id in orders && IsObjectId(id)
    ensures OrderByNumber(ctx, orders, orders[id].orderNumber) == OrderById(ctx, orders, id)
  {
  }

  // ---------------------------------------------------------------- createOrder

  /** The menu item ids an order input asks for, in order. */
  function RequestedIds(items: seq<OrderItemInput>): (ids: seq<Id>)
    ensures |ids| == |items| && forall i :: 0 <= i < |items| ==> ids[i] == items[i].menuItemId
  {
    seq(|items|, i requires 0 <= i < |items| => items[i].menuItemId)
  }

  predicate Available(menu: map<Id, MenuItem>, id: Id) {
    id in menu && menu[id].isAvailable
  }

  /** The ids `findMany({ id: { in: ids }, isAvailable: true })` returns rows for. */
  function AvailableIds(items: seq<OrderItemInput>, menu: map<Id, MenuItem>): set<Id> {
    set id | id in RequestedIds(items) && Available(menu, id)
  }

  predicate Distinct<T(==)>(s: seq<T>) {
    forall i, j :: 0 <= i < j < |s| ==> s[i] != s[j]
  }

  lemma {:induction false} SubsetCard<T>(a: set<T>, b: set<T>)
    requires a <= b
    ensures |a| <= |b|
    ensures |a| == |b| ==> a == b
  {
    if b != {} {
      var x :| x in b;
      if x in a {
        SubsetCard(a - {x}, b - {x});
      } else {
        SubsetCard(a, b - {x});
      }
    }
  }

  lemma {:induction false} ElementsCard<T>(s: seq<T>)
    ensures |set x | x in s| <= |s|
    ensures |set x | x in s| == |s| <==> Distinct(s)
  {
    if s != [] {
      var rest := s[1..];
      ElementsCard(rest);
      assert (set x | x in s) == {s[0]} + (set x | x in rest);
      if s[0] in rest {
        var j :| 0 <= j < |rest| && rest[j] == s[0];
        assert s[0] == s[j + 1];
      } else {
        assert Distinct(s) <==> Distinct(rest) by {
          if Distinct(rest) {
            forall i, j | 0 <= i < j < |s| ensures s[i] != s[j] {
              if i > 0 {
                assert s[i] == rest[i - 1] && s[j] == rest[j - 1];
              } else {
                assert s[j] == rest[j - 1];
              }
            }
          }
          if Distinct(s) {
            forall i, j | 0 <= i < j < |rest| ensures rest[i] != rest[j] {
              assert rest[i] == s[i + 1] && rest[j] == s[j + 1];
            }
          }
        }
      }
    }
  }

  /** The count check `menuItems.length !== menuItemIds.length` passes exactly
      when every requested item exists and is available AND no item is
      requested on two lines. */
  lemma AvailableCountMeans(items: seq<OrderItemInput>, menu: map<Id, MenuItem>)
    ensures |AvailableIds(items, menu)| == |items| <==>
      (forall i :: 0 <= i < |items| ==> Available(menu, items[i].menuItemId))
      && Distinct(RequestedIds(items))
  {
    var ids := RequestedIds(items);
    var all := set x | x in ids;
    ElementsCard(ids);
    SubsetCard(AvailableIds(items, menu), all);
    if forall i :: 0 <= i < |items| ==> Available(menu, items[i].menuItemId) {
      assert AvailableIds(items, menu) == all;
    }
    if |AvailableIds(items, menu)| == |items| {
      forall i | 0 <= i < |items| ensures Available(menu, items[i].menuItemId) {
        assert ids[i] in all;
      }
    }
  }

  /** One priced line: the menu item's price is copied into the order. */
  function Line(item: OrderItemInput, m: MenuItem): OrderItem {
    OrderItem(item.menuItemId, item.quantity, m.price, item.notes)
  }

  predicate AllFound(items: seq<OrderItemInput>, fetched: map<Id, MenuItem>) {
    forall i :: 0 <= i < |items| ==> items[i].menuItemId in fetched
  }

  /** The lines of an order whose items were all fetched. */
  function Lines(items: seq<OrderItemInput>, fetched: map<Id, MenuItem>): (lines: seq<OrderItem>)
    requires AllFound(items, fetched)
    ensures |lines| == |items|
    ensures forall i :: 0 <= i < |items| ==> lines[i] == Line(items[i], fetched[items[i].menuItemId])
  {
    seq(|items|, i requires 0 <= i < |items| => Line(items[i], fetched[items[i].menuItemId]))
  }

  datatype Priced = Priced(lines: seq<OrderItem>, subtotal: Money)

  /** The `items.map` of createOrder: looks each item up among the fetched
      rows, prices it and adds it to the running total. */
  method PriceLines(items: seq<OrderItemInput>, fetched: map<Id, MenuItem>) returns (r: Result<Priced>)
    ensures r.Ok? <==> AllFound(items, fetched)
    ensures r.Ok? ==> r.value.lines == Lines(items, fetched) && r.value.subtotal == LineSum(r.value.lines)
    ensures r.Err? ==>
      exists i :: 0 <= i < |items| && items[i].menuItemId !in fetched
        && (forall j :: 0 <= j < i ==> items[j].menuItemId in fetched)
        && r.error == Error(Validation, "Menu item " + items[i].menuItemId + " not found")
  {
    var totalAmount := 0.0;
    var lines: seq<OrderItem> := [];
    var i := 0;
    while i < |items|
      invariant 0 <= i <= |items| && |lines| == i
      invariant forall j :: 0 <= j < i ==> items[j].menuItemId in fetched
      invariant forall j :: 0 <= j < i ==> lines[j] == Line(items[j], fetched[items[j].menuItemId])
      invariant totalAmount == LineSum(lines)
    {
      var item := items[i];
      if item.menuItemId !in fetched {
        return Fail(Validation, "Menu item " + item.menuItemId + " not found");
      }
      var line := Line(item, fetched[item.menuItemId]);
      assert (lines + [line])[..|lines|] == lines;
      totalAmount := totalAmount + LineAmount(line);
      lines := lines + [line];
      i := i + 1;
    }
    r := Ok(Priced(lines, totalAmount));
  }

  /** The fee createOrder adds: DEFAULT_DELIVERY_FEE for a delivery below
      FREE_DELIVERY_THRESHOLD, nothing otherwise. */
  function OrderFee(orderType: OrderType, subtotal: Money, cfg: FeeConfig): Money {
    if orderType == Delivery && subtotal < cfg.freeDeliveryThreshold then cfg.defaultDeliveryFee else 0.0
  }

  /** createOrder's fee is the payment service's fee for deliveries and none
      for pickups. */
  lemma OrderFeeAgreesWithPaymentService(orderType: OrderType, subtotal: Money, cfg: FeeConfig, address: Option<string>)
    ensures orderType == Delivery ==>
      OrderFee(orderType, subtotal, cfg) == Payment.CalculateDeliveryFee(subtotal, cfg, address)
    ensures orderType == Pickup ==> OrderFee(orderType, subtotal, cfg) == 0.0
  {
  }

  predicate MenuIdsWellFormed(items: seq<OrderItemInput>) {
    forall i :: 0 <= i < |items| ==> IsObjectId(items[i].menuItemId)
  }

  /** The row `prisma.order.create` is given: PENDING, the lines plus the fee
      as total, and a fee of zero stored as no fee. */
  function NewOrder(newId: Id, orderNumber: string, userId: Id, input: CreateOrderInput,
                    lines: seq<OrderItem>, fee: Money): Order {
    Order(newId, orderNumber, userId, input.orderType, Pending, LineSum(lines) + fee,
          if fee > 0.0 then Some(fee) else None,
          input.customerName, input.customerPhone, input.customerEmail,
          input.deliveryAddress, input.deliveryNotes, input.requestedTime,
          input.paymentMethod, None, None, lines)
  }

  /** What `createOrder(input)` writes, or the error it throws: the new order
      row (with the store-assigned id `newId`). `nowMs` and `randomText` feed
      the order number. */
  function PlaceOrder(ctx: Context, input: CreateOrderInput, cfg: FeeConfig, checks: Checks,
                      menu: map<Id, MenuItem>, orders: map<Id, Order>,
                      nowMs: nat, randomText: string, newId: Id): (r: Result<Order>)
  {
    var user :- RequireAuth(ctx);
    var _ :- ValidateInput(OrderInputErrors(input, checks), input);
    if !MenuIdsWellFormed(input.items) then Fail(Validation, "Invalid Menu item ID format")
    else PlaceAvailableItems(user.id, input, cfg, menu, orders, nowMs, randomText, newId)
  }

  /** The part of createOrder after the input checks: the availability count,
      the pricing, the fee and the write. */
  function PlaceAvailableItems(userId: Id, input: CreateOrderInput, cfg: FeeConfig,
                               menu: map<Id, MenuItem>, orders: map<Id, Order>,
                               nowMs: nat, randomText: string, newId: Id): (r: Result<Order>)
  {
    if |AvailableIds(input.items, menu)| != |input.items| then
      Fail(Validation, "One or more menu items are not available")
    else
      AvailableCountMeans(input.items, menu);
      var lines := Lines(input.items, menu);
      var fee := OrderFee(input.orderType, LineSum(lines), cfg);
      var orderNumber := GenerateOrderNumber(nowMs, randomText);
      if NumberTaken(orders, orderNumber) then Fail(Internal, "Unique constraint failed on orderNumber")
      else Ok(NewOrder(newId, orderNumber, userId, input, lines, fee))
  }

  /** When createOrder succeeds: an authenticated caller, a valid input, well
      formed ids of available items each requested once, and a fresh number. */
  lemma PlaceOrderAccepts(ctx: Context, input: CreateOrderInput, cfg: FeeConfig, checks: Checks,
                          menu: map<Id, MenuItem>, orders: map<Id, Order>,
                          nowMs: nat, randomText: string, newId: Id)
    ensures PlaceOrder(ctx, input, cfg, checks, menu, orders, nowMs, randomText, newId).Ok? <==>
      && RequireAuth(ctx).Ok?
      && OrderInputValid(input, checks)
      && MenuIdsWellFormed(input.items)
      && (forall i :: 0 <= i < |input.items| ==> Available(menu, input.items[i].menuItemId))
      && Distinct(RequestedIds(input.items))
      && !NumberTaken(orders, GenerateOrderNumber(nowMs, randomText))
  {
    OrderInputAccepted(input, checks);
    AvailableCountMeans(input.items, menu);
  }

  /** The errors of createOrder, in the order the resolver raises them. A
      second line for an item already ordered is refused as "not available". */
  lemma PlaceOrderErrors(ctx: Context, input: CreateOrderInput, cfg: FeeConfig, checks: Checks,
                         menu: map<Id, MenuItem>, orders: map<Id, Order>,
                         nowMs: nat, randomText: string, newId: Id)
    ensures var r := PlaceOrder(ctx, input, cfg, checks, menu, orders, nowMs, randomText, newId);
      && (RequireAuth(ctx).Err? ==> r == Fail(Authentication, "Authentication required"))
      && (RequireAuth(ctx).Ok? && !OrderInputValid(input, checks) ==>
            r == Fail(Validation, Join(OrderInputErrors(input, checks), ", ")))
      && (RequireAuth(ctx).Ok? && OrderInputValid(input, checks) && !MenuIdsWellFormed(input.items) ==>
            r == Fail(Validation, "Invalid Menu item ID format"))
      && (RequireAuth(ctx).Ok? && OrderInputValid(input, checks) && MenuIdsWellFormed(input.items)
          && (!Distinct(RequestedIds(input.items))
              || exists i :: 0 <= i < |input.items| && !Available(menu, input.items[i].menuItemId)) ==>
            r == Fail(Validation, "One or more menu items are not available"))
  {
    OrderInputAccepted(input, checks);
    AvailableCountMeans(input.items, menu);
  }

  /** The order createOrder writes: owned by the caller, PENDING, one line per
      requested item at the menu's price, and a total that is the lines plus
      the payment service's delivery fee (none for a pickup); a fee of zero
      is stored as no fee. */
  lemma PlacedOrderContents(ctx: Context, input: CreateOrderInput, cfg: FeeConfig, checks: Checks,
                            menu: map<Id, MenuItem>, orders: map<Id, Order>,
                            nowMs: nat, randomText: string, newId: Id)
    requires PlaceOrder(ctx, input, cfg, checks, menu, orders, nowMs, randomText, newId).Ok?
    ensures var o := PlaceOrder(ctx, input, cfg, checks, menu, orders, nowMs, randomText, newId).value;
      var fee := if input.orderType == Delivery
                 then Payment.CalculateDeliveryFee(LineSum(o.items), cfg, input.deliveryAddress) else 0.0;
      && o.id == newId && Some(o.userId) == (if ctx.user.Some? then Some(ctx.user.value.id) else None)
      && o.status == Pending && o.estimatedTime == None && o.deliveredAt == None
      && o.orderNumber == GenerateOrderNumber(nowMs, randomText)
      && o.orderType == input.orderType && o.paymentMethod == input.paymentMethod
      && o.customerName == input.customerName && o.customerEmail == input.customerEmail
      && o.customerPhone == input.customerPhone && o.deliveryAddress == input.deliveryAddress
      && o.deliveryNotes == input.deliveryNotes && o.requestedTime == input.requestedTime
      && |o.items| == |input.items|
      && (forall i :: 0 <= i < |input.items| ==>
            && o.items[i].menuItemId == input.items[i].menuItemId
            && o.items[i].quantity == input.items[i].quantity
            && o.items[i].notes == input.items[i].notes
            && Available(menu, input.items[i].menuItemId)
            && o.items[i].price == menu[input.items[i].menuItemId].price)
      && o.totalAmount == LineSum(o.items) + fee
      && o.deliveryFee == (if fee > 0.0 then Some(fee) else None)
  {
    AvailableCountMeans(input.items, menu);
    OrderFeeAgreesWithPaymentService(input.orderType, LineSum(PlaceOrder(ctx, input, cfg, checks, menu, orders, nowMs, randomText, newId).value.items), cfg, input.deliveryAddress);
  }

  /** createOrder keeps the order table consistent and its numbers unique,
      provided the configured fee is not negative. */
  lemma PlaceOrderKeepsInvariant(ctx: Context, input: CreateOrderInput, cfg: FeeConfig, checks: Checks,
                                 menu: map<Id, MenuItem>, orders: map<Id, Order>,
                                 nowMs: nat, randomText: string, newId: Id)
    requires OrdersConsistent(orders) && NumbersUnique(orders) && newId !in orders
    requires cfg.defaultDeliveryFee >= 0.0
    requires PlaceOrder(ctx, input, cfg, checks, menu, orders, nowMs, randomText, newId).Ok?
    ensures var o := PlaceOrder(ctx, input, cfg, checks, menu, orders, nowMs, randomText, newId).value;
      OrdersConsistent(orders[newId := o]) && NumbersUnique(orders[newId := o])
  {
    AvailableCountMeans(input.items, menu);
  }

  /** The `items.map` that checks every menu item id before any is fetched. */
  method CheckMenuItemIds(items: seq<OrderItemInput>) returns (r: Result<()>)
    ensures r.Ok? <==> MenuIdsWellFormed(items)
    ensures r.Err? ==> r.error == Error(Validation, "Invalid Menu item ID format")
  {
    var i := 0;
    while i < |items|
      invariant 0 <= i <= |items|
      invariant forall j :: 0 <= j < i ==> IsObjectId(items[j].menuItemId)
    {
      var check := ValidateObjectId(items[i].menuItemId, "Menu item ID");
      if check.Err? {
        return Err(check.error);
      }
      i := i + 1;
    }
    return Ok(());
  }

  /** `createOrder`: the caller and input checks, then the write. */
  method CreateOrder(db: Database, ctx: Context, input: CreateOrderInput, cfg: FeeConfig, checks: Checks,
                     nowMs: nat, randomText: string, newId: Id)
    returns (r: Result<Order>)
    requires newId !in db.orders
    modifies db`orders
    ensures r == PlaceOrder(ctx, input, cfg, checks, db.menuItems, old(db.orders), nowMs, randomText, newId)
    ensures r.Ok? ==> db.orders == old(db.orders)[newId := r.value]
    ensures r.Err? ==> db.orders == old(db.orders)
  {
    var auth := RequireAuth(ctx);
    if auth.Err? {
      return Err(auth.error);
    }
    var validated := ValidateInput(OrderInputErrors(input, checks), input);
    if validated.Err? {
      return Err(validated.error);
    }
    var idsChecked := CheckMenuItemIds(input.items);
    if idsChecked.Err? {
      return Err(idsChecked.error);
    }
    r := InsertOrder(db, auth.value.id, input, cfg, nowMs, randomText, newId);
  }

  /** The rest of createOrder: fetch the available items, price the lines,
      add the fee and create the row. */
  method InsertOrder(db: Database, userId: Id, input: CreateOrderInput, cfg: FeeConfig,
                     nowMs: nat, randomText: string, newId: Id)
    returns (r: Result<Order>)
    modifies db`orders
    ensures r == PlaceAvailableItems(userId, input, cfg, db.menuItems, old(db.orders), nowMs, randomText, newId)
    ensures r.Ok? ==> db.orders == old(db.orders)[newId := r.value]
    ensures r.Err? ==> db.orders == old(db.orders)
  {
    var ids := AvailableIds(input.items, db.menuItems);
    var fetched := map id | id in ids :: db.menuItems[id];
    assert fetched.Keys == ids;
    if |fetched.Keys| != |input.items| {
      return Fail(Validation, "One or more menu items are not available");
    }
    AvailableCountMeans(input.items, db.menuItems);
    var priced := PriceLines(input.items, fetched);
    if priced.Err? {
      // the count check has already found every item: "Menu item X not found" is unreachable
      assert false;
    }
    assert priced.value.lines == Lines(input.items, db.menuItems);
    var deliveryFee := 0.0;
    if input.orderType == Delivery {
      if priced.value.subtotal < cfg.freeDeliveryThreshold {
        deliveryFee := cfg.defaultDeliveryFee;
      }
    }
    var finalTotal := priced.value.subtotal + deliveryFee;
    var orderNumber := GenerateOrderNumber(nowMs, randomText);
    if NumberTaken(db.orders, orderNumber) {
      return Fail(Internal, "Unique constraint failed on orderNumber");
    }
    var order := NewOrder(newId, orderNumber, userId, input, priced.value.lines, deliveryFee);
    assert order.totalAmount == finalTotal;
    db.orders := db.orders[newId := order];
    r := Ok(order);
  }

  // ---------------------------------------------------------------- updateOrderStatus

  /** The order `updateOrderStatus(id, input)` writes, or the error it throws.
      `estimatedTime` is set only when given; `deliveredAt` is stamped with
      `now` whenever the new status is DELIVERED. */
  function StatusUpdate(ctx: Context, orders: map<Id, Order>, id: Id, status: OrderStatus,
                        estimatedTime: Option<Time>, now: Time): (r: Result<Order>)
    ensures r.Ok? <==> RequireAdmin(ctx).Ok? && IsObjectId(id) && id in orders
    ensures RequireAdmin(ctx).Err? ==> r.Err? && r.error == RequireAdmin(ctx).error
    ensures RequireAdmin(ctx).Ok? && !IsObjectId(id) ==> r == Fail(Validation, "Invalid Order ID format")
    ensures RequireAdmin(ctx).Ok? && IsObjectId(id) && id !in orders ==> r == Fail(NotFound, "Order not found")
    ensures r.Ok? ==>
      var o := orders[id];
      && r.value.status == status
      && r.value.estimatedTime == (if estimatedTime.Some? then estimatedTime else o.estimatedTime)
      && r.value.deliveredAt == (if status == Delivered then Some(now) else o.deliveredAt)
      && r.value == o.(status := r.value.status, estimatedTime := r.value.estimatedTime,
                       deliveredAt := r.value.deliveredAt)
  {
    var _ :- RequireAdmin(ctx);
    var _ :- ValidateObjectId(id, "Order ID");
    if id !in orders then Fail(NotFound, "Order not found")
    else
      var o := orders[id];
      var o1 := o.(status := status);
      var o2 := if estimatedTime.Some? then o1.(estimatedTime := estimatedTime) else o1;
      var o3 := if status == Delivered then o2.(deliveredAt := Some(now)) else o2;
      Ok(o3)
  }

  /** A status update leaves the table consistent and its numbers unique. */
  lemma StatusUpdateKeepsInvariant(ctx: Context, orders: map<Id, Order>, id: Id, status: OrderStatus,
                                   estimatedTime: Option<Time>, now: Time)
    requires OrdersConsistent(orders) && NumbersUnique(orders)
    requires StatusUpdate(ctx, orders, id, status, estimatedTime, now).Ok?
    ensures var o := StatusUpdate(ctx, orders, id, status, estimatedTime, now).value;
      OrdersConsistent(orders[id := o]) && NumbersUnique(orders[id := o])
  {
    var o := StatusUpdate(ctx, orders, id, status, estimatedTime, now).value;
    assert o.items == orders[id].items && o.totalAmount == orders[id].totalAmount;
    assert o.orderNumber == orders[id].orderNumber;
  }

  /** No transition is refused: an admin may move an order from any status to
      any status, a cancelled one included. */
  lemma StatusUpdateAnyTransition(ctx: Context, orders: map<Id, Order>, id: Id, status: OrderStatus,
                                  estimatedTime: Option<Time>, now: Time)
    requires RequireAdmin(ctx).Ok? && IsObjectId(id) && id in orders
    ensures StatusUpdate(ctx, orders, id, status, estimatedTime, now).Ok?
    ensures StatusUpdate(ctx, orders, id, status, estimatedTime, now).value.status == status
  {
  }

  /** `updateOrderStatus`: writes the updated row. */
  method UpdateOrderStatus(db: Database, ctx: Context, id: Id, status: OrderStatus,
                           estimatedTime: Option<Time>, now: Time)
    returns (r: Result<Order>)
    modifies db`orders
    ensures r == StatusUpdate(ctx, old(db.orders), id, status, estimatedTime, now)
    ensures db.orders == if r.Ok? then old(db.orders)[id := r.value] else old(db.orders)
  {
    r := StatusUpdate(ctx, db.orders, id, status, estimatedTime, now);
    if r.Ok? {
      db.orders := db.orders[id := r.value];
    }
  }

  // ---------------------------------------------------------------- cancelOrder

  predicate Final(s: OrderStatus) {
    s == Delivered || s == OrderStatus.Cancelled
  }

  /** The order `cancelOrder(id)` writes, or the error it throws. */
  function Cancellation(ctx: Context, orders: map<Id, Order>, id: Id): (r: Result<Order>)
    ensures r.Ok? <==>
      OrderById(ctx, orders, id).Ok? && !Final(orders[id].status)
    ensures r.Ok? ==> r.value == orders[id].(status := OrderStatus.Cancelled)
  {
    var user :- RequireAuth(ctx);
    var _ :- ValidateObjectId(id, "Order ID");
    if id !in orders then Fail(NotFound, "Order not found")
    else if !CanAccess(ctx, user, orders[id]) then Fail(Forbidden, "Access denied")
    else if Final(orders[id].status) then Fail(Validation, "Order cannot be cancelled")
    else Ok(orders[id].(status := OrderStatus.Cancelled))
  }

  /** cancelOrder fails exactly as order(id) does on the same id, and then
      refuses a delivered or cancelled order. */
  lemma CancellationErrors(ctx: Context, orders: map<Id, Order>, id: Id)
    ensures OrderById(ctx, orders, id).Err? ==>
      Cancellation(ctx, orders, id) == OrderById(ctx, orders, id)
    ensures OrderById(ctx, orders, id).Ok? && Final(orders[id].status) ==>
      Cancellation(ctx, orders, id) == Fail(Validation, "Order cannot be cancelled")
  {
  }

  /** Cancelling twice fails the second time. */
  lemma CancelTwiceFails(ctx: Context, orders: map<Id, Order>, id: Id)
    requires Cancellation(ctx, orders, id).Ok?
    ensures Cancellation(ctx, orders[id := Cancellation(ctx, orders, id).value], id)
      == Fail(Validation, "Order cannot be cancelled")
  {
  }

  /** A cancellation leaves the table consistent and its numbers unique. */
  lemma CancellationKeepsInvariant(ctx: Context, orders: map<Id, Order>, id: Id)
    requires OrdersConsistent(orders) && NumbersUnique(orders)
    requires Cancellation(ctx, orders, id).Ok?
    ensures var o := Cancellation(ctx, orders, id).value;
      OrdersConsistent(orders[id := o]) && NumbersUnique(orders[id := o])
  {
  }

  /** `cancelOrder`: writes the cancelled row. */
  method CancelOrder(db: Database, ctx: Context, id: Id) returns (r: Result<Order>)
    modifies db`orders
    ensures r == Cancellation(ctx, old(db.orders), id)
    ensures db.orders == if r.Ok? then old(db.orders)[id := r.value] else old(db.orders)
  {
    r := Cancellation(ctx, db.orders, id);
    if r.Ok? {
      db.orders := db.orders[id := r.value];
    }
  }

  // ---------------------------------------------------------------- receipts

  /** The receipt of a stored order splits its total back into the lines and
      the fee createOrder added. */
  lemma ReceiptOfStoredOrder(id: Id, o: Order, paymentIntentId: string, now: Time)
    requires OrderConsistent(id, o)
    ensures Payment.GenerateReceiptData(o, paymentIntentId, now).subtotal == LineSum(o.items)
    ensures Payment.GenerateReceiptData(o, paymentIntentId, now).deliveryFee == FeeCharged(o)
  {
  }
}
