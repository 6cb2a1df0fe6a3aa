/**
 The services that change the ledger, as objects that update their documents in place.  A request
 either commits its session or aborts it; each method is proved to leave the world of the
 corresponding `Ledger` step.
 */
module OrderService {
  import opened Common
  import opened Ledger

  /** The document store with at most one open session, whose writes stay apart until the commit. */
  class Database {
    var docs: Store
    var writes: Store
    var open: bool

    constructor (docs: Store)
      ensures this.docs == docs && !open
    {
      this.docs, writes, open := docs, NO_WRITES, false;
    }

    method StartTransaction()
      requires !open
      modifies this
      ensures open && writes == NO_WRITES && docs == old(docs)
    {
      open, writes := true, NO_WRITES;
    }

    method CommitTransaction()
      requires open
      modifies this
      ensures !open && docs == Committed(old(docs), old(writes))
    {
      docs, open := Committed(docs, writes), false;
    }

    method AbortTransaction()
      requires open
      modifies this
      ensures !open && docs == old(docs)
    {
      open := false;
    }
  }

  /** A collection in which a session wrote one document. */
  lemma CommitOne<V>(stored: map<Id, V>, k: Id, v: V)
    ensures Over(stored, map[k := v]) == stored[k := v]
  {
  }

  class OrderService {
    const db: Database
    var cart: map<Id, CartItem>
    var views: map<Id, CartView>
    var stocks: map<Id, real>
    var refunds: seq<Refund>

    constructor (db: Database)
      ensures this.db == db && cart == map[] && views == map[] && stocks == map[] && refunds == []
    {
      this.db, cart, views, stocks, refunds := db, map[], map[], map[], [];
    }

    ghost function State(): World
      reads this, db
    {
      World(db.docs, cart, views, stocks, refunds)
    }

    /** The cart repository's read-through lookup. */
    method FindCartItem(id: Id) returns (found: Option<CartView>)
      modifies this`views
      ensures (found, views) == Ledger.FindCartItem(db.docs, cart, old(views), id)
    {
      if id in views {
        return Some(views[id]);
      }
      if id !in cart {
        return None;
      }
      var view := Populate(db.docs, cart[id]);
      views := views[id := view];
      found := Some(view);
    }

    method DeleteCartItem(id: Id)
      modifies this`cart, this`views
      ensures cart == old(cart) - {id}
      ensures views == if id in old(cart) then old(views) - {id} else old(views)
    {
      if id in cart {
        cart := cart - {id};
        views := views - {id};
      }
    }

    /** The next awaited operation of `createOrderItem` for line i; a failure ends the session. */
    method AdvanceLine(lines: seq<Line>, tasks: seq<Task>, error: Option<ErrorMessage>, i: nat)
      returns (tasks': seq<Task>, error': Option<ErrorMessage>)
      requires |tasks| == |lines|
      modifies this`cart, this`views, db`writes
      ensures |tasks'| == |lines|
      ensures Progress(tasks', db.writes, cart, views, error') ==
              Advance(db.docs, lines, Progress(tasks, old(db.writes), old(cart), old(views), error), i)
    {
      tasks', error' := tasks, error;
      if i >= |lines| {
        return;
      }
      var failure: Option<ErrorMessage> := None;
      match tasks[i] {
        case Started =>
          var found := FindCartItem(lines[i].cartItem);
          match CheckCartItem(found) {
            case Ok(item) => tasks' := tasks[i := Found(item)];
            case Err(e) => failure := Some(e);
          }
        case Found(item) =>
          if error.Some? {
            failure := Some(SESSION_ENDED);
          } else {
            if item.option in db.writes.options {
              var stock := db.writes.options[item.option] - item.quantity;
              db.writes := db.writes.(options := db.writes.options[item.option := stock]);
            } else if item.option in db.docs.options {
              var stock := db.docs.options[item.option] - item.quantity;
              db.writes := db.writes.(options := db.writes.options[item.option := stock]);
            }
            tasks' := tasks[i := Reserved(item)];
          }
        case Reserved(item) =>
          DeleteCartItem(lines[i].cartItem);
          tasks' := tasks[i := Unlisted(item)];
        case Unlisted(item) =>
          var id := lines[i].orderItem;
          if error.Some? {
            failure := Some(SESSION_ENDED);
          } else if id in db.docs.items || id in db.writes.items {
            failure := Some(DUPLICATE_KEY);
          } else {
            db.writes := db.writes.(items := db.writes.items[id := item]);
            tasks' := tasks[i := Created(item)];
          }
        case Created(_) =>
        case Failed =>
      }
      if failure.Some? {
        tasks' := tasks[i := Failed];
        db.writes := NO_WRITES;
        if error.None? {
          error' := failure;
        }
      }
    }

    method CreateOrder(orderId: Id, user: Id, lines: seq<Line>, schedule: seq<nat>, insertOk: bool)
      returns (reply: Reply)
      requires !db.open
      modifies this, db
      ensures !db.open
      ensures (State(), reply) == CreateOrderStep(old(State()), orderId, user, lines, schedule, insertOk)
    {
      ghost var w := State();
      db.StartTransaction();
      var tasks: seq<Task> := seq(|lines|, _ => Started);
      var error: Option<ErrorMessage> := None;
      for k := 0 to |schedule|
        invariant db.docs == w.docs && db.open && stocks == w.stocks && refunds == w.refunds && |tasks| == |lines|
        invariant Progress(tasks, db.writes, cart, views, error) ==
                  Interleave(w.docs, lines, Begin(w, lines), schedule[..k])
      {
        tasks, error := AdvanceLine(lines, tasks, error, schedule[k]);
        assert schedule[..k + 1][..k] == schedule[..k];
      }
      assert schedule[..|schedule|] == schedule;
      if error.Some? {
        db.AbortTransaction();
        return Rejected(error.value);
      }
      if !AllCreated(tasks) {
        db.AbortTransaction();
        return Rejected(INTERRUPTED);
      }
      if exists i :: 0 <= i < |tasks| && tasks[i].item.cost !in db.docs.costs {
        db.AbortTransaction();
        return Rejected(TYPE_ERROR);
      }
      var totals := CalculateTotalCost(ItemsOf(tasks), db.docs.costs);
      if orderId in db.docs.orders {
        db.AbortTransaction();
        return Rejected(DUPLICATE_KEY);
      }
      if !insertOk {
        db.AbortTransaction();
        return Rejected(INSERT_FAILED);
      }
      var order := Order(user, ItemIds(lines), OrderStatus.PENDING, totals.totalCost, totals.discountCost, 0.0, None);
      db.docs := db.docs.(orders := db.docs.orders[orderId := order]);
      db.CommitTransaction();
      reply := Accepted;
    }

    method ProcessOrder(orderId: Id, txnId: Id, fee: Option<real>, vnpay: bool, urlOk: bool) returns (reply: Reply)
      requires !db.open
      modifies this, db
      ensures !db.open
      ensures (State(), reply) == ProcessOrderStep(old(State()), orderId, txnId, fee, vnpay, urlOk)
    {
      db.StartTransaction();
      if orderId !in db.docs.orders {
        db.AbortTransaction();
        return Rejected(ORDER_NOT_FOUND);
      }
      var existedOrder := db.docs.orders[orderId];
      if fee.None? {
        db.AbortTransaction();
        return Rejected(DELIVERY_SERVICE_UNAVAILABLE);
      }
      var amount := existedOrder.totalCost + fee.value - existedOrder.discountCost;
      if txnId in db.docs.transactions {
        db.AbortTransaction();
        return Rejected(DUPLICATE_KEY);
      }
      db.writes := db.writes.(transactions := map[txnId := OrderTransaction(amount, TransactionStatus.PENDING, None)]);
      var order := existedOrder.(shippingCost := fee.value, transaction := Some(txnId));
      db.writes := db.writes.(orders := map[orderId := order]);
      if vnpay && !urlOk {
        db.AbortTransaction();
        return Rejected(CREATE_PAYMENT_TRANSACTION_FAILED);
      }
      CommitOne(db.docs.transactions, txnId, db.writes.transactions[txnId]);
      CommitOne(db.docs.orders, orderId, order);
      db.CommitTransaction();
      reply := Accepted;
    }

    method OrderTransactionCallback(orderId: Id, payDate: nat, success: bool) returns (reply: Reply)
      modifies this, db`docs
      ensures (State(), reply) == CallbackStep(old(State()), orderId, payDate, success)
    {
      if orderId !in db.docs.orders {
        return Rejected(ORDER_NOT_FOUND);
      }
      var order := db.docs.orders[orderId];
      if order.transaction.None? {
        return Rejected(TYPE_ERROR);
      }
      var t := order.transaction.value;
      if t in db.docs.transactions {
        var txn := db.docs.transactions[t].(status := if success then SUCCESS else FAIL, payDate := Some(payDate));
        db.docs := db.docs.(transactions := db.docs.transactions[t := txn]);
      }
      if success {
        db.docs := db.docs.(orders := db.docs.orders[orderId := order.(status := PREPARING)]);
      }
      reply := Accepted;
    }

    method RequestCancelOrder(orderId: Id, user: Id) returns (reply: Reply)
      modifies this, db`docs
      ensures (State(), reply) == RequestCancelStep(old(State()), orderId, user)
    {
      if orderId !in db.docs.orders {
        return Rejected(TYPE_ERROR);
      }
      var order := db.docs.orders[orderId];
      if order.user != user {
        return Rejected(FORBIDDEN);
      }
      if !IsCanBeCanceledStatus(order.status) {
        return Rejected(ORDER_CANT_CANCEL);
      }
      db.docs := db.docs.(orders := db.docs.orders[orderId := order.(status := CANCELING)]);
      reply := Accepted;
    }

    /** The status is written in the session before the refund is asked for, and undone when it fails. */
    method CancelOrder(orderId: Id, accept: bool, refundOk: bool) returns (reply: Reply)
      requires !db.open
      modifies this, db
      ensures !db.open
      ensures (State(), reply) == CancelStep(old(State()), orderId, accept, refundOk)
    {
      if orderId !in db.docs.orders {
        return Rejected(ORDER_NOT_FOUND);
      }
      var order := db.docs.orders[orderId];
      if !IsCanBeCanceledStatus(order.status) {
        return Rejected(ORDER_CANT_CANCEL);
      }
      db.StartTransaction();
      if accept {
        db.writes := db.writes.(orders := map[orderId := order.(status := CANCELED)]);
        if order.transaction.None? || order.transaction.value !in db.docs.transactions {
          db.AbortTransaction();
          return Rejected(TYPE_ERROR);
        }
        var transaction := db.docs.transactions[order.transaction.value];
        if transaction.payDate.None? {
          db.AbortTransaction();
          return Rejected(INVALID_DATE);
        }
        if !refundOk {
          db.AbortTransaction();
          return Rejected(REFUND_FAILED);
        }
        refunds := refunds + [Refund(orderId, transaction.amount)];
        CommitOne(db.docs.orders, orderId, order.(status := CANCELED));
      }
      db.CommitTransaction();
      reply := Accepted;
    }

    // ---------- the product service's requests on the same store ----------

    /** Inserts option documents through the session, one after the other. */
    method CreateOptions(added: seq<(Id, real)>) returns (error: Option<ErrorMessage>)
      modifies db`writes
      ensures db.writes == old(db.writes).(options := db.writes.options)
      ensures var inserted := InsertOptions(db.docs.options + old(db.writes.options), added);
              if error.Some? then inserted == Err(error.value)
              else inserted == Ok(db.docs.options + db.writes.options)
    {
      ghost var before := db.docs.options + db.writes.options;
      for i := 0 to |added|
        invariant db.writes == old(db.writes).(options := db.writes.options)
        invariant InsertOptions(before, added) == InsertOptions(db.docs.options + db.writes.options, added[i..])
      {
        var (id, stock) := added[i];
        if id in db.docs.options || id in db.writes.options {
          return Some(DUPLICATE_KEY);
        }
        ghost var seen := db.docs.options + db.writes.options;
        db.writes := db.writes.(options := db.writes.options[id := stock]);
        assert db.docs.options + db.writes.options == seen[id := stock];
      }
      error := None;
    }

    method CreateProduct(productId: Id, costId: Id, cost: Cost, options: seq<(Id, real)>, images: seq<string>,
                         collection: Option<Id>) returns (reply: Reply)
      requires !db.open
      modifies this, db
      ensures !db.open
      ensures (State(), reply) == CreateProductStep(old(State()), productId, costId, cost, options, images,
                                                      collection)
    {
      ghost var docs := db.docs;
      db.StartTransaction();
      if costId in db.docs.costs {
        db.AbortTransaction();
        return Rejected(DUPLICATE_KEY);
      }
      db.writes := db.writes.(costs := map[costId := cost]);
      assert docs.options + map[] == docs.options;
      var error := CreateOptions(options);
      if error.Some? {
        db.AbortTransaction();
        return Rejected(error.value);
      }
      if productId in db.docs.products {
        db.AbortTransaction();
        return Rejected(DUPLICATE_KEY);
      }
      var product := Product(costId, [costId], OptionIds(options), images, false);
      db.writes := db.writes.(products := map[productId := product]);
      if collection.None? {
        db.AbortTransaction();
        return Rejected(CAST_ERROR);
      }
      var c := collection.value;
      if c in db.docs.collections {
        db.writes := db.writes.(collections := map[c := db.docs.collections[c] + [productId]]);
        CommitOne(db.docs.collections, c, db.docs.collections[c] + [productId]);
      }
      CommitOne(db.docs.products, productId, product);
      CommitOne(db.docs.costs, costId, cost);
      db.CommitTransaction();
      reply := Accepted;
    }

    /** Sets the stocks named by the edits through the session. */
    method UpdateOptions(edits: seq<(Id, Option<real>)>)
      modifies db`writes
      ensures db.writes == old(db.writes).(options := db.writes.options)
      ensures db.docs.options + db.writes.options == EditStocks(db.docs.options + old(db.writes.options), edits)
    {
      ghost var before := db.docs.options + db.writes.options;
      for i := 0 to |edits|
        invariant db.writes == old(db.writes).(options := db.writes.options)
        invariant EditStocks(before, edits) == EditStocks(db.docs.options + db.writes.options, edits[i..])
      {
        var (id, stock) := edits[i];
        ghost var seen := db.docs.options + db.writes.options;
        if (id in db.docs.options || id in db.writes.options) && stock.Some? {
          db.writes := db.writes.(options := db.writes.options[id := stock.value]);
          assert db.docs.options + db.writes.options == seen[id := stock.value];
        }
      }
    }

    /** `safeDelete` of each id, outside the session. */
    method SafeDeleteOptions(ids: seq<Id>)
      modifies this`stocks, db`docs
      ensures db.docs == Marked(old(db.docs), ids) && stocks == old(stocks) - (set id | id in ids)
    {
      for i := 0 to |ids|
        invariant db.docs == Marked(old(db.docs), ids[..i]) && stocks == old(stocks) - (set id | id in ids[..i])
      {
        assert ids[..i + 1] == ids[..i] + [ids[i]];
        if ids[i] in db.docs.options {
          db.docs := db.docs.(deletedOptions := db.docs.deletedOptions + {ids[i]});
        }
        stocks := stocks - {ids[i]};
      }
      assert ids[..|ids|] == ids;
    }

    /** Starts the parallel calls of updateProduct one after the other; the first failure is reported. */
    method StartCalls(u: ProductUpdate) returns (error: Option<ErrorMessage>)
      requires db.writes == NO_WRITES
      modifies this`stocks, db`docs, db`writes
      ensures db.docs == Marked(old(db.docs), u.deleteOptions) && stocks == old(stocks) - EditedIds(u)
      ensures db.writes == NO_WRITES.(options := db.writes.options, costs := db.writes.costs)
      ensures var inserted := InsertOptions(db.docs.options, if u.newOptions.Some? then u.newOptions.value else []);
              var taken := u.newCost.Some? && u.newCost.value.0 in db.docs.costs;
              if error.Some? then (if taken then error.value == DUPLICATE_KEY else inserted == Err(error.value))
              else
                && !taken && inserted.Ok?
                && db.docs.options + db.writes.options == EditStocks(inserted.value, u.updateOptions)
                && db.writes.costs == if u.newCost.Some? then map[u.newCost.value.0 := u.newCost.value.1] else map[]
    {
      error := None;
      if u.newCost.Some? {
        if u.newCost.value.0 in db.docs.costs {
          error := Some(DUPLICATE_KEY);
        } else {
          db.writes := db.writes.(costs := map[u.newCost.value.0 := u.newCost.value.1]);
        }
      }
      assert Over(db.docs.options, db.writes.options) == db.docs.options;
      if u.newOptions.Some? {
        var failure := CreateOptions(u.newOptions.value);
        error := if error.Some? then error else failure;
      }
      UpdateOptions(u.updateOptions);
      stocks := stocks - set edit | edit in u.updateOptions :: edit.0;
      SafeDeleteOptions(u.deleteOptions);
      assert stocks == old(stocks) - EditedIds(u);
    }

    /** The deletion marks are set even when another call or the final update fails. */
    method UpdateProduct(productId: Id, u: ProductUpdate) returns (reply: Reply)
      requires !db.open
      modifies this, db
      ensures !db.open
      ensures (State(), reply) == UpdateProductStep(old(State()), productId, u)
    {
      db.StartTransaction();
      if productId !in db.docs.products {
        db.AbortTransaction();
        return Rejected(PRODUCT_NOT_FOUND);
      }
      var error := StartCalls(u);
      if error.Some? {
        db.AbortTransaction();
        return Rejected(error.value);
      }
      if u.newImages.Some? && u.deleteImages.Some? {
        db.AbortTransaction();
        return Rejected(UPDATE_CONFLICT);
      }
      var product := UpdatedProduct(db.docs.products[productId], u);
      db.writes := db.writes.(products := map[productId := product]);
      CommitOne(db.docs.products, productId, product);
      if u.newCost.Some? {
        CommitOne(db.docs.costs, u.newCost.value.0, u.newCost.value.1);
      }
      db.CommitTransaction();
      reply := Accepted;
    }

    // ---------- the cart service's request ----------

    method AddCartItem(id: Id, c: CartPayload) returns (reply: Reply)
      modifies this`cart, this`stocks
      ensures (State(), reply) == AddCartItemStep(old(State()), id, c)
    {
      var stock: Option<real> := None;
      if c.option in stocks {
        stock := Some(stocks[c.option]);
      } else if c.option in db.docs.options {
        stock := Some(db.docs.options[c.option]);
        stocks := stocks[c.option := stock.value];
      }
      if c.product !in db.docs.products || stock.None? {
        return Rejected(PRODUCT_OPTION_NOT_FOUND);
      }
      if c.quantity.Some? && stock.value < c.quantity.value {
        return Rejected(PRODUCT_SOLD_OUT);
      }
      if id in cart {
        return Rejected(DUPLICATE_KEY);
      }
      cart := cart[id := NewCartItem(c)];
      reply := Accepted;
    }
  }
}
