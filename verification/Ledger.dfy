/**
 The order, stock and payment ledger: the stored documents, one step for every request that
 changes them, and runs of such steps.  Money, stock and quantities are exact numbers.

 A step is what a request leaves behind once it has been answered.  Whatever the service cannot
 decide itself (new document ids, the shipping fee, whether VNPay accepts a refund, in which order
 the lines of an order make progress) is part of the event.
 */
module Ledger {
  import opened Common

  type Id = nat

  // ---------- documents ----------

  datatype Cost = Cost(saleCost: real, discountPercentage: real)

  datatype Product = Product(currentCost: Id, costs: seq<Id>, options: seq<Id>, images: seq<string>, isDeleted: bool)

  datatype OrderItem = OrderItem(product: Id, option: Id, quantity: real, cost: Id)

  datatype OrderStatus = PENDING | PREPARING | TRANSPORTING | COMPLETED | CANCELING | CANCELED

  datatype TransactionStatus = SUCCESS | FAIL | PENDING | REFUNDED

  datatype OrderTransaction = OrderTransaction(amount: real, status: TransactionStatus, payDate: Option<nat>)

  datatype Order = Order(user: Id, items: seq<Id>, status: OrderStatus, totalCost: real, discountCost: real,
                         shippingCost: real, transaction: Option<Id>)

  /**
   The stored documents by kind.  An option is its stock, and its deletion mark is its membership in
   `deletedOptions`; a collection is the list of its products.
   */
  datatype Store = Store(
    options: map<Id, real>,
    deletedOptions: set<Id>,
    costs: map<Id, Cost>,
    products: map<Id, Product>,
    collections: map<Id, seq<Id>>,
    items: map<Id, OrderItem>,
    orders: map<Id, Order>,
    transactions: map<Id, OrderTransaction>)

  datatype CartItem = CartItem(product: Id, option: Id, quantity: real)

  /** A populated reference holds the selected fields only: an unselected field reads as undefined. */
  datatype ProductView = ProductView(id: Id, currentCost: Id, isDeleted: Option<bool>)
  datatype OptionView = OptionView(id: Id, stock: Option<real>)
  datatype CartView = CartView(product: Option<ProductView>, option: Option<OptionView>, quantity: real)

  datatype Refund = Refund(order: Id, amount: real)

  /**
   Everything the requests read or write; `views` is what the cart repository has cached, and `stocks`
   what the option repository has cached of stocks.
   */
  datatype World = World(docs: Store, cart: map<Id, CartItem>, views: map<Id, CartView>, stocks: map<Id, real>,
                         refunds: seq<Refund>)

  datatype ErrorMessage =
    | ORDER_UNKNOW_ERROR | PRODUCT_NOT_FOUND | PRODUCT_OPTION_NOT_FOUND | PRODUCT_SOLD_OUT
    | ORDER_NOT_FOUND | ORDER_CANT_CANCEL | FORBIDDEN | DELIVERY_SERVICE_UNAVAILABLE
    | CREATE_PAYMENT_TRANSACTION_FAILED | REFUND_FAILED
    | DUPLICATE_KEY | UPDATE_CONFLICT | SESSION_ENDED | TYPE_ERROR | INVALID_DATE
    | INSERT_FAILED | INTERRUPTED | CAST_ERROR

  datatype Reply = Accepted | Rejected(error: ErrorMessage)

  // ---------- sessions ----------

  const NO_WRITES := Store(map[], {}, map[], map[], map[], map[], map[], map[])

  /** Written documents take the place of stored ones. */
  function Over<V>(stored: map<Id, V>, written: map<Id, V>): (r: map<Id, V>)
    ensures written == map[] ==> r == stored
  {
    stored + written
  }

  /** Committing a session lays its writes over the stored documents; aborting it drops them. */
  function Committed(docs: Store, writes: Store): (r: Store)
    ensures writes.deletedOptions == {} ==> r.deletedOptions == docs.deletedOptions
  {
    Store(Over(docs.options, writes.options), docs.deletedOptions + writes.deletedOptions,
          Over(docs.costs, writes.costs), Over(docs.products, writes.products),
          Over(docs.collections, writes.collections), Over(docs.items, writes.items),
          Over(docs.orders, writes.orders), Over(docs.transactions, writes.transactions))
  }

  // ---------- createOrder ----------

  /** One entry of the payload: the cart item's id, and the id its order item will get. */
  datatype Line = Line(cartItem: Id, orderItem: Id)

  /** How far `createOrderItem` has come for one line, counted in awaited operations. */
  datatype Task =
    | Started
    | Found(item: OrderItem)
    | Reserved(item: OrderItem)
    | Unlisted(item: OrderItem)
    | Created(item: OrderItem)
    | Failed

  /** A createOrder request in progress: `error` is the first failure, after which the session is over. */
  datatype Progress = Progress(tasks: seq<Task>, writes: Store, cart: map<Id, CartItem>, views: map<Id, CartView>,
                               error: Option<ErrorMessage>)

  /** The cart item with `product` restricted to _id and currentCost, and `option` to _id. */
  function Populate(docs: Store, c: CartItem): CartView {
    CartView(
      if c.product in docs.products
      then Some(ProductView(c.product, docs.products[c.product].currentCost, None))
      else None,
      if c.option in docs.options then Some(OptionView(c.option, None)) else None,
      c.quantity)
  }

  /** The cart repository's read-through `find`. */
  function FindCartItem(docs: Store, cart: map<Id, CartItem>, views: map<Id, CartView>, id: Id)
    : (Option<CartView>, map<Id, CartView>)
  {
    if id in views then (Some(views[id]), views)
    else if id in cart then (Some(Populate(docs, cart[id])), views[id := Populate(docs, cart[id])])
    else (None, views)
  }

  /** The checks between the read and the first write; `undefined < n` is false. */
  function CheckCartItem(found: Option<CartView>): Result<OrderItem, ErrorMessage> {
    match found
    case None => Err(ORDER_UNKNOW_ERROR)
    case Some(v) =>
      if v.product.None? || v.product.value.isDeleted == Some(true) then Err(PRODUCT_NOT_FOUND)
      else if v.option.None? then Err(PRODUCT_OPTION_NOT_FOUND)
      else if v.option.value.stock.Some? && v.option.value.stock.value < v.quantity then Err(PRODUCT_SOLD_OUT)
      else Ok(OrderItem(v.product.value.id, v.option.value.id, v.quantity, v.product.value.currentCost))
  }

  /** `$inc` of a stock inside the session; an update that matches no document changes nothing. */
  function Reserve(docs: Store, writes: Store, item: OrderItem): Store {
    if item.option in writes.options then
      writes.(options := writes.options[item.option := writes.options[item.option] - item.quantity])
    else if item.option in docs.options then
      writes.(options := writes.options[item.option := docs.options[item.option] - item.quantity])
    else writes
  }

  function Fail(p: Progress, i: nat, e: ErrorMessage): Progress
    requires i < |p.tasks|
  {
    p.(tasks := p.tasks[i := Failed], writes := NO_WRITES,
       error := if p.error.Some? then p.error else Some(e))
  }

  /** Line i performs its next awaited operation. */
  function Advance(docs: Store, lines: seq<Line>, p: Progress, i: nat): (q: Progress)
    requires |p.tasks| == |lines|
    ensures |q.tasks| == |lines|
  {
    if i >= |lines| then p else
    match p.tasks[i]
    case Started =>
      var (found, views) := FindCartItem(docs, p.cart, p.views, lines[i].cartItem);
      (match CheckCartItem(found)
       case Ok(item) => p.(tasks := p.tasks[i := Found(item)], views := views)
       case Err(e) => Fail(p.(views := views), i, e))
    case Found(item) =>
      if p.error.Some? then Fail(p, i, SESSION_ENDED)
      else p.(tasks := p.tasks[i := Reserved(item)], writes := Reserve(docs, p.writes, item))
    case Reserved(item) =>
      p.(tasks := p.tasks[i := Unlisted(item)], cart := p.cart - {lines[i].cartItem},
         views := if lines[i].cartItem in p.cart then p.views - {lines[i].cartItem} else p.views)
    case Unlisted(item) =>
      if p.error.Some? then Fail(p, i, SESSION_ENDED)
      else if lines[i].orderItem in docs.items || lines[i].orderItem in p.writes.items then Fail(p, i, DUPLICATE_KEY)
      else p.(tasks := p.tasks[i := Created(item)],
              writes := p.writes.(items := p.writes.items[lines[i].orderItem := item]))
    case Created(_) => p
    case Failed => p
  }

  function Begin(w: World, lines: seq<Line>): Progress {
    Progress(seq(|lines|, _ => Started), NO_WRITES, w.cart, w.views, None)
  }

  /** The lines advance in the order the schedule names them. */
  function Interleave(docs: Store, lines: seq<Line>, p: Progress, schedule: seq<nat>): (q: Progress)
    requires |p.tasks| == |lines|
    ensures |q.tasks| == |lines|
  {
    if schedule == [] then p
    else Advance(docs, lines, Interleave(docs, lines, p, schedule[..|schedule| - 1]), schedule[|schedule| - 1])
  }

  datatype Totals = Totals(totalCost: real, discountCost: real)

  /** The discount on one piece. */
  function Discount(c: Cost): real { c.saleCost * c.discountPercentage / 100.0 }

  /** The reducer of calculateTotalCost. */
  function AddItem(acc: Totals, cost: Cost, quantity: real): Totals {
    var discountCost := Discount(cost);
    var itemTotal := (cost.saleCost - discountCost) * quantity;
    Totals(acc.totalCost + itemTotal, acc.discountCost + discountCost * quantity)
  }

  ghost predicate Priced(items: seq<OrderItem>, costs: map<Id, Cost>) {
    forall i :: 0 <= i < |items| ==> items[i].cost in costs
  }

  function CalculateTotalCost(items: seq<OrderItem>, costs: map<Id, Cost>): Totals
    requires Priced(items, costs)
  {
    if items == [] then Totals(0.0, 0.0) else
    var current := items[|items| - 1];
    AddItem(CalculateTotalCost(items[..|items| - 1], costs), costs[current.cost], current.quantity)
  }

  predicate AllCreated(tasks: seq<Task>) { forall i :: 0 <= i < |tasks| ==> tasks[i].Created? }

  function ItemsOf(tasks: seq<Task>): seq<OrderItem>
    requires AllCreated(tasks)
  {
    seq(|tasks|, i requires 0 <= i < |tasks| => tasks[i].item)
  }

  function ItemIds(lines: seq<Line>): seq<Id> { seq(|lines|, i requires 0 <= i < |lines| => lines[i].orderItem) }

  /** What follows `Promise.all`: totals, the order (inserted outside the session), the commit. */
  function FinishOrder(docs: Store, lines: seq<Line>, p: Progress, orderId: Id, user: Id, insertOk: bool)
    : Result<Store, ErrorMessage>
  {
    if p.error.Some? then Err(p.error.value)
    else if !AllCreated(p.tasks) then Err(INTERRUPTED)
    else if exists i :: 0 <= i < |p.tasks| && p.tasks[i].item.cost !in docs.costs then Err(TYPE_ERROR)
    else if orderId in docs.orders then Err(DUPLICATE_KEY)
    else if !insertOk then Err(INSERT_FAILED)
    else
      var t := CalculateTotalCost(ItemsOf(p.tasks), docs.costs);
      var order := Order(user, ItemIds(lines), OrderStatus.PENDING, t.totalCost, t.discountCost, 0.0, None);
      Ok(Committed(docs.(orders := docs.orders[orderId := order]), p.writes))
  }

  /** createOrder: the cart and its cache change even when the session is aborted. */
  function CreateOrderStep(w: World, orderId: Id, user: Id, lines: seq<Line>, schedule: seq<nat>, insertOk: bool)
    : (World, Reply)
  {
    var p := Interleave(w.docs, lines, Begin(w, lines), schedule);
    match FinishOrder(w.docs, lines, p, orderId, user, insertOk)
    case Ok(docs) => (w.(docs := docs, cart := p.cart, views := p.views), Accepted)
    case Err(e) => (w.(cart := p.cart, views := p.views), Rejected(e))
  }

  // ---------- the cart ----------

  /** What is asked to go into the cart; the quantity may be left out. */
  datatype CartPayload = CartPayload(product: Id, option: Id, quantity: Option<real>)

  /** The stored item; the schema's default quantity is 1. */
  function NewCartItem(c: CartPayload): CartItem {
    CartItem(c.product, c.option, if c.quantity.Some? then c.quantity.value else 1.0)
  }

  /**
   addCartItem: a quantity, if there is one, is compared with the stock as the option repository's
   read-through `find` shows it.
   */
  function AddCartItemStep(w: World, id: Id, c: CartPayload): (World, Reply) {
    var stocks := if c.option in w.docs.options && c.option !in w.stocks
                  then w.stocks[c.option := w.docs.options[c.option]] else w.stocks;
    var w' := w.(stocks := stocks);
    if c.product !in w.docs.products || c.option !in stocks then (w', Rejected(PRODUCT_OPTION_NOT_FOUND))
    else if c.quantity.Some? && stocks[c.option] < c.quantity.value then (w', Rejected(PRODUCT_SOLD_OUT))
    else if id in w.cart then (w', Rejected(DUPLICATE_KEY))
    else (w'.(cart := w.cart[id := NewCartItem(c)]), Accepted)
  }

  // ---------- the other requests ----------

  /** processOrder: price the shipping, create the transaction, link it, and build the payment URL. */
  function ProcessOrderStep(w: World, orderId: Id, txnId: Id, fee: Option<real>, vnpay: bool, urlOk: bool)
    : (World, Reply)
  {
    if orderId !in w.docs.orders then (w, Rejected(ORDER_NOT_FOUND))
    else if fee.None? then (w, Rejected(DELIVERY_SERVICE_UNAVAILABLE))
    else if txnId in w.docs.transactions then (w, Rejected(DUPLICATE_KEY))
    else if vnpay && !urlOk then (w, Rejected(CREATE_PAYMENT_TRANSACTION_FAILED))
    else
      var order := w.docs.orders[orderId];
      var amount := order.totalCost + fee.value - order.discountCost;
      (w.(docs := w.docs.(
            transactions := w.docs.transactions[txnId := OrderTransaction(amount, TransactionStatus.PENDING, None)],
            orders := w.docs.orders[orderId := order.(shippingCost := fee.value, transaction := Some(txnId))])),
       Accepted)
  }

  /** orderTransactionCallback: a successful payment prepares the order whatever its status was. */
  function CallbackStep(w: World, orderId: Id, payDate: nat, success: bool): (World, Reply) {
    if orderId !in w.docs.orders then (w, Rejected(ORDER_NOT_FOUND)) else
    var order := w.docs.orders[orderId];
    if order.transaction.None? then (w, Rejected(TYPE_ERROR)) else
    var t := order.transaction.value;
    var transactions :=
      if t in w.docs.transactions
      then w.docs.transactions[t := w.docs.transactions[t].(status := if success then SUCCESS else FAIL,
                                                            payDate := Some(payDate))]
      else w.docs.transactions;
    var orders := if success then w.docs.orders[orderId := order.(status := PREPARING)] else w.docs.orders;
    (w.(docs := w.docs.(transactions := transactions, orders := orders)), Accepted)
  }

  predicate IsCanBeCanceledStatus(s: OrderStatus) { s !in [TRANSPORTING, CANCELED, COMPLETED] }

  function RequestCancelStep(w: World, orderId: Id, user: Id): (World, Reply) {
    if orderId !in w.docs.orders then (w, Rejected(TYPE_ERROR)) else
    var order := w.docs.orders[orderId];
    if order.user != user then (w, Rejected(FORBIDDEN))
    else if !IsCanBeCanceledStatus(order.status) then (w, Rejected(ORDER_CANT_CANCEL))
    else (w.(docs := w.docs.(orders := w.docs.orders[orderId := order.(status := CANCELING)])), Accepted)
  }

  /** cancelOrder: the refund names the linked transaction; a transaction without a pay date cannot be refunded. */
  function CancelStep(w: World, orderId: Id, accept: bool, refundOk: bool): (World, Reply) {
    if orderId !in w.docs.orders then (w, Rejected(ORDER_NOT_FOUND)) else
    var order := w.docs.orders[orderId];
    if !IsCanBeCanceledStatus(order.status) then (w, Rejected(ORDER_CANT_CANCEL))
    else if !accept then (w, Accepted)
    else if order.transaction.None? || order.transaction.value !in w.docs.transactions then (w, Rejected(TYPE_ERROR))
    else if w.docs.transactions[order.transaction.value].payDate.None? then (w, Rejected(INVALID_DATE))
    else if !refundOk then (w, Rejected(REFUND_FAILED))
    else
      (w.(docs := w.docs.(orders := w.docs.orders[orderId := order.(status := CANCELED)]),
          refunds := w.refunds + [Refund(orderId, w.docs.transactions[order.transaction.value].amount)]),
       Accepted)
  }

  /** Insertion of new option documents, refused as a whole when an id is taken. */
  function InsertOptions(options: map<Id, real>, added: seq<(Id, real)>): Result<map<Id, real>, ErrorMessage>
    decreases |added|
  {
    if added == [] then Ok(options)
    else if added[0].0 in options then Err(DUPLICATE_KEY)
    else InsertOptions(options[added[0].0 := added[0].1], added[1..])
  }

  /** updateOptions: each edit sets the stock of one option, or leaves the stock alone. */
  function EditStocks(options: map<Id, real>, edits: seq<(Id, Option<real>)>): map<Id, real>
    decreases |edits|
  {
    if edits == [] then options
    else if edits[0].0 in options && edits[0].1.Some?
    then EditStocks(options[edits[0].0 := edits[0].1.value], edits[1..])
    else EditStocks(options, edits[1..])
  }

  function OptionIds(added: seq<(Id, real)>): seq<Id> { seq(|added|, i requires 0 <= i < |added| => added[i].0) }

  /** createProduct: the last write of the session appends the product to its collection, if there is one. */
  function CreateProductStep(w: World, productId: Id, costId: Id, cost: Cost, options: seq<(Id, real)>,
                             images: seq<string>, collection: Option<Id>): (World, Reply)
  {
    if costId in w.docs.costs then (w, Rejected(DUPLICATE_KEY)) else
    match InsertOptions(w.docs.options, options)
    case Err(e) => (w, Rejected(e))
    case Ok(inserted) =>
      if productId in w.docs.products then (w, Rejected(DUPLICATE_KEY))
      else if collection.None? then (w, Rejected(CAST_ERROR)) else
      var product := Product(costId, [costId], OptionIds(options), images, false);
      var c, collections := collection.value, w.docs.collections;
      (w.(docs := w.docs.(costs := w.docs.costs[costId := cost], options := inserted,
                          products := w.docs.products[productId := product],
                          collections := if c in collections then collections[c := collections[c] + [productId]]
                                         else collections)), Accepted)
  }

  /** `deleteOptions` holds the well-formed ids of the payload's list; the others are passed over. */
  datatype ProductUpdate = ProductUpdate(newCost: Option<(Id, Cost)>, newOptions: Option<seq<(Id, real)>>,
                                         updateOptions: seq<(Id, Option<real>)>, deleteOptions: seq<Id>,
                                         newImages: Option<seq<string>>, deleteImages: Option<seq<string>>)

  function Without(images: seq<string>, gone: seq<string>): seq<string> {
    if images == [] then []
    else (if images[0] in gone then [] else [images[0]]) + Without(images[1..], gone)
  }

  function UpdatedProduct(p: Product, u: ProductUpdate): Product {
    Product(
      if u.newCost.Some? then u.newCost.value.0 else p.currentCost,
      if u.newCost.Some? then p.costs + [u.newCost.value.0] else p.costs,
      if u.newOptions.Some? then p.options + OptionIds(u.newOptions.value) else p.options,
      if u.newImages.Some? then p.images + u.newImages.value
      else if u.deleteImages.Some? then Without(p.images, u.deleteImages.value)
      else p.images,
      p.isDeleted)
  }

  /** The marks `safeDelete` sets, outside the session: an id without a stored option sets none. */
  function Marked(docs: Store, ids: seq<Id>): Store {
    docs.(deletedOptions := docs.deletedOptions + set id | id in ids && id in docs.options)
  }

  function EditedIds(u: ProductUpdate): set<Id> {
    (set edit | edit in u.updateOptions :: edit.0) + (set id | id in u.deleteOptions)
  }

  /** What the session of updateProduct commits: pushing and pulling images at once is a conflict. */
  function UpdatedDocs(docs: Store, productId: Id, u: ProductUpdate): Result<Store, ErrorMessage>
    requires productId in docs.products
  {
    if u.newCost.Some? && u.newCost.value.0 in docs.costs then Err(DUPLICATE_KEY) else
    match InsertOptions(docs.options, if u.newOptions.Some? then u.newOptions.value else [])
    case Err(e) => Err(e)
    case Ok(inserted) =>
      if u.newImages.Some? && u.deleteImages.Some? then Err(UPDATE_CONFLICT) else
      Ok(docs.(
           costs := if u.newCost.Some? then docs.costs[u.newCost.value.0 := u.newCost.value.1] else docs.costs,
           options := EditStocks(inserted, u.updateOptions),
           products := docs.products[productId := UpdatedProduct(docs.products[productId], u)]))
  }

  /** updateProduct: once the product is found, options are marked and their cached stocks dropped in any case. */
  function UpdateProductStep(w: World, productId: Id, u: ProductUpdate): (World, Reply) {
    if productId !in w.docs.products then (w, Rejected(PRODUCT_NOT_FOUND)) else
    var w' := w.(docs := Marked(w.docs, u.deleteOptions), stocks := w.stocks - EditedIds(u));
    match UpdatedDocs(w'.docs, productId, u)
    case Err(e) => (w', Rejected(e))
    case Ok(docs) => (w'.(docs := docs), Accepted)
  }

  function SafeDeleteProductStep(w: World, productId: Id): (World, Reply) {
    if productId !in w.docs.products then (w, Rejected(PRODUCT_NOT_FOUND))
    else (w.(docs := w.docs.(products := w.docs.products[productId := w.docs.products[productId].(isDeleted := true)])),
          Accepted)
  }

  // ---------- runs ----------

  datatype Event =
    | AddCartItem(id: Id, payload: CartPayload)
    | RemoveCartItem(id: Id)
    | ForgetView(id: Id)
    | ForgetStock(id: Id)
    | CreateCollection(id: Id)
    | CreateProduct(id: Id, costId: Id, cost: Cost, options: seq<(Id, real)>, images: seq<string>,
                    collection: Option<Id>)
    | UpdateProduct(id: Id, update: ProductUpdate)
    | SafeDeleteProduct(id: Id)
    | CreateOrder(id: Id, user: Id, lines: seq<Line>, schedule: seq<nat>, insertOk: bool)
    | ProcessOrder(id: Id, txnId: Id, fee: Option<real>, vnpay: bool, urlOk: bool)
    | PaymentCallback(id: Id, payDate: nat, success: bool)
    | RequestCancel(id: Id, user: Id)
    | CancelOrder(id: Id, accept: bool, refundOk: bool)

  function Step(w: World, e: Event): (World, Reply) {
    match e
    case AddCartItem(id, c) => AddCartItemStep(w, id, c)
    case RemoveCartItem(id) =>
      (w.(cart := w.cart - {id}, views := if id in w.cart then w.views - {id} else w.views), Accepted)
    case ForgetView(id) => (w.(views := w.views - {id}), Accepted)
    case ForgetStock(id) => (w.(stocks := w.stocks - {id}), Accepted)
    case CreateCollection(id) =>
      if id in w.docs.collections then (w, Rejected(DUPLICATE_KEY))
      else (w.(docs := w.docs.(collections := w.docs.collections[id := []])), Accepted)
    case CreateProduct(id, costId, cost, options, images, collection) =>
      CreateProductStep(w, id, costId, cost, options, images, collection)
    case UpdateProduct(id, u) => UpdateProductStep(w, id, u)
    case SafeDeleteProduct(id) => SafeDeleteProductStep(w, id)
    case CreateOrder(id, user, lines, schedule, insertOk) => CreateOrderStep(w, id, user, lines, schedule, insertOk)
    case ProcessOrder(id, txnId, fee, vnpay, urlOk) => ProcessOrderStep(w, id, txnId, fee, vnpay, urlOk)
    case PaymentCallback(id, payDate, success) => CallbackStep(w, id, payDate, success)
    case RequestCancel(id, user) => RequestCancelStep(w, id, user)
    case CancelOrder(id, accept, refundOk) => CancelStep(w, id, accept, refundOk)
  }

  /** The world after the events, handled one at a time. */
  function Run(w: World, events: seq<Event>): World {
    if events == [] then w else Step(Run(w, events[..|events| - 1]), events[|events| - 1]).0
  }

  const EMPTY := World(NO_WRITES, map[], map[], map[], [])
}
