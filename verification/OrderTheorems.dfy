/**
 What every reachable ledger satisfies: orders keep the totals of the prices they were made at, the
 linked transaction carries the amount of its order, and refunds are bounded by payments.
 */
module OrderTheorems {
  import opened Common
  import opened Ledger
  import opened StockTheorems

  // ---------- invariants ----------

  /** Costs are append-only per product, and the current one is the last. */
  ghost predicate CostsOfProducts(docs: Store) {
    forall p :: p in docs.products ==>
      var costs := docs.products[p].costs;
      && |costs| > 0 && docs.products[p].currentCost == costs[|costs| - 1]
      && forall i :: 0 <= i < |costs| ==> costs[i] in docs.costs
  }

  /** The cost was, at some time, the current cost of the product. */
  ghost predicate PricedBy(docs: Store, product: Id, cost: Id) {
    product in docs.products && cost in docs.products[product].costs
  }

  ghost predicate ItemsPriced(docs: Store) {
    forall k :: k in docs.items ==> PricedBy(docs, docs.items[k].product, docs.items[k].cost)
  }

  ghost predicate ViewsPriced(docs: Store, views: map<Id, CartView>) {
    forall k :: k in views && views[k].product.Some? ==>
      PricedBy(docs, views[k].product.value.id, views[k].product.value.currentCost)
  }

  ghost predicate Stored(docs: Store, ids: seq<Id>) {
    forall i :: 0 <= i < |ids| ==> ids[i] in docs.items
  }

  ghost function StoredItems(docs: Store, ids: seq<Id>): seq<OrderItem>
    requires Stored(docs, ids)
  {
    seq(|ids|, i requires 0 <= i < |ids| => docs.items[ids[i]])
  }

  /** The order's totals are those of its stored items at their stored costs. */
  ghost predicate TotalsCorrect(docs: Store, order: Order) {
    && Stored(docs, order.items)
    && Priced(StoredItems(docs, order.items), docs.costs)
    && CalculateTotalCost(StoredItems(docs, order.items), docs.costs) == Totals(order.totalCost, order.discountCost)
  }

  ghost predicate AllTotalsCorrect(docs: Store) {
    forall k :: k in docs.orders ==> TotalsCorrect(docs, docs.orders[k])
  }

  ghost predicate AmountCorrect(docs: Store, order: Order) {
    order.transaction.Some? ==>
      && order.transaction.value in docs.transactions
      && docs.transactions[order.transaction.value].amount == order.totalCost + order.shippingCost - order.discountCost
  }

  ghost predicate AllAmountsCorrect(docs: Store) {
    forall k :: k in docs.orders ==> AmountCorrect(docs, docs.orders[k])
  }

  ghost predicate Inv(w: World) {
    && CostsOfProducts(w.docs) && ItemsPriced(w.docs) && ViewsPriced(w.docs, w.views)
    && AllTotalsCorrect(w.docs) && AllAmountsCorrect(w.docs)
  }

  // ---------- growth: documents that totals depend on are never changed or removed ----------

  ghost predicate Grows(docs: Store, later: Store) {
    && (forall k :: k in docs.costs ==> k in later.costs && later.costs[k] == docs.costs[k])
    && (forall k :: k in docs.items ==> k in later.items && later.items[k] == docs.items[k])
    && (forall k :: k in docs.products ==> k in later.products && docs.products[k].costs <= later.products[k].costs)
  }

  lemma {:induction false} TotalsAgree(items: seq<OrderItem>, costs: map<Id, Cost>, more: map<Id, Cost>)
    requires Priced(items, costs)
    requires forall k :: k in costs ==> k in more && more[k] == costs[k]
    ensures Priced(items, more) && CalculateTotalCost(items, more) == CalculateTotalCost(items, costs)
  {
    if items != [] {
      TotalsAgree(items[..|items| - 1], costs, more);
    }
  }

  lemma TotalsSurvive(docs: Store, later: Store, order: Order)
    requires Grows(docs, later) && TotalsCorrect(docs, order)
    ensures TotalsCorrect(later, order)
  {
    assert StoredItems(later, order.items) == StoredItems(docs, order.items);
    TotalsAgree(StoredItems(docs, order.items), docs.costs, later.costs);
  }

  lemma PricesSurvive(docs: Store, later: Store, product: Id, cost: Id)
    requires Grows(docs, later) && PricedBy(docs, product, cost)
    ensures PricedBy(later, product, cost)
  {
    var costs, more := docs.products[product].costs, later.products[product].costs;
    var i :| 0 <= i < |costs| && costs[i] == cost;
    assert more[i] == cost;
  }

  // ---------- createOrder ----------

  /** Lines in progress carry prices of their products, and the session's items are the created lines'. */
  ghost predicate TaskPriced(docs: Store, t: Task) {
    t.Started? || t.Failed? || PricedBy(docs, t.item.product, t.item.cost)
  }

  ghost predicate InProgress(docs: Store, lines: seq<Line>, p: Progress) {
    && |p.tasks| == |lines|
    && ViewsPriced(docs, p.views)
    && OrderWrites(docs, p.writes)
    && (forall i :: 0 <= i < |lines| ==> TaskPriced(docs, p.tasks[i]))
    && (forall k :: k in p.writes.items ==> PricedBy(docs, p.writes.items[k].product, p.writes.items[k].cost))
    && (p.error.None? ==> forall i :: 0 <= i < |lines| && p.tasks[i].Created? ==>
          lines[i].orderItem in p.writes.items && p.writes.items[lines[i].orderItem] == p.tasks[i].item)
  }

  lemma FoundIsPriced(docs: Store, p: Progress, id: Id)
    requires CostsOfProducts(docs) && ViewsPriced(docs, p.views)
    ensures var (found, views) := FindCartItem(docs, p.cart, p.views, id);
            && ViewsPriced(docs, views)
            && (CheckCartItem(found).Ok? ==>
                  PricedBy(docs, CheckCartItem(found).value.product, CheckCartItem(found).value.cost))
  {
  }

  lemma CreateInProgress(docs: Store, lines: seq<Line>, p: Progress, i: nat)
    requires InProgress(docs, lines, p) && i < |lines| && p.tasks[i].Unlisted? && p.error.None?
    requires lines[i].orderItem !in docs.items && lines[i].orderItem !in p.writes.items
    ensures InProgress(docs, lines, Advance(docs, lines, p, i))
  {
    var q := Advance(docs, lines, p, i);
    var k, item := lines[i].orderItem, p.tasks[i].item;
    assert TaskPriced(docs, p.tasks[i]);
    assert q.tasks == p.tasks[i := Created(item)] && q.views == p.views && q.error == p.error;
    assert q.writes == p.writes.(items := p.writes.items[k := item]);
    InsertKeepsBalance(docs, p.writes, k, item, item.option);
    forall j | 0 <= j < |lines| && q.tasks[j].Created?
      ensures lines[j].orderItem in q.writes.items && q.writes.items[lines[j].orderItem] == q.tasks[j].item
    {
      assert j == i || p.tasks[j].Created?;
    }
  }

  lemma FailInProgress(docs: Store, lines: seq<Line>, p: Progress, i: nat, e: ErrorMessage)
    requires InProgress(docs, lines, p) && i < |lines|
    ensures InProgress(docs, lines, Fail(p, i, e))
  {
  }

  /** Moving one line on, with the same order items in the session. */
  lemma MoveInProgress(docs: Store, lines: seq<Line>, p: Progress, q: Progress, i: nat, t: Task)
    requires InProgress(docs, lines, p) && i < |lines| && q.tasks == p.tasks[i := t] && q.error == p.error
    requires TaskPriced(docs, t) && !t.Created?
    requires ViewsPriced(docs, q.views) && OrderWrites(docs, q.writes) && q.writes.items == p.writes.items
    ensures InProgress(docs, lines, q)
  {
    assert forall j :: 0 <= j < |lines| && j != i ==> q.tasks[j] == p.tasks[j];
  }

  lemma AdvanceInProgress(docs: Store, lines: seq<Line>, p: Progress, i: nat)
    requires CostsOfProducts(docs) && InProgress(docs, lines, p)
    ensures InProgress(docs, lines, Advance(docs, lines, p, i))
  {
    if i < |lines| {
      assert TaskPriced(docs, p.tasks[i]);
      var q := Advance(docs, lines, p, i);
      match p.tasks[i]
      case Started =>
        FoundIsPriced(docs, p, lines[i].cartItem);
        var (found, views) := FindCartItem(docs, p.cart, p.views, lines[i].cartItem);
        match CheckCartItem(found) {
          case Ok(item) => MoveInProgress(docs, lines, p, q, i, Found(item));
          case Err(e) => FailInProgress(docs, lines, p.(views := views), i, e);
        }
      case Found(item) =>
        if p.error.Some? {
          FailInProgress(docs, lines, p, i, SESSION_ENDED);
        } else {
          ReserveKeepsBalance(docs, p.writes, item, item.option);
          MoveInProgress(docs, lines, p, q, i, Reserved(item));
        }
      case Reserved(item) => MoveInProgress(docs, lines, p, q, i, Unlisted(item));
      case Unlisted(item) =>
        if p.error.Some? {
          FailInProgress(docs, lines, p, i, SESSION_ENDED);
        } else if lines[i].orderItem in docs.items || lines[i].orderItem in p.writes.items {
          FailInProgress(docs, lines, p, i, DUPLICATE_KEY);
        } else {
          CreateInProgress(docs, lines, p, i);
        }
      case _ =>
    }
  }

  lemma {:induction false} InterleaveInProgress(docs: Store, lines: seq<Line>, p: Progress, schedule: seq<nat>)
    requires CostsOfProducts(docs) && InProgress(docs, lines, p)
    ensures InProgress(docs, lines, Interleave(docs, lines, p, schedule))
  {
    if schedule != [] {
      var n := |schedule| - 1;
      InterleaveInProgress(docs, lines, p, schedule[..n]);
      AdvanceInProgress(docs, lines, Interleave(docs, lines, p, schedule[..n]), schedule[n]);
    }
  }

  /** The committed order, and what a commit leaves of the other collections. */
  lemma FinishShape(docs: Store, lines: seq<Line>, p: Progress, id: Id, user: Id)
    requires OrderWrites(docs, p.writes) && FinishOrder(docs, lines, p, id, user, true).Ok?
    ensures AllCreated(p.tasks) && Priced(ItemsOf(p.tasks), docs.costs) && id !in docs.orders
    ensures var after := FinishOrder(docs, lines, p, id, user, true).value;
            var t := CalculateTotalCost(ItemsOf(p.tasks), docs.costs);
            && after.items == docs.items + p.writes.items
            && after.orders == docs.orders[id := Order(user, ItemIds(lines), OrderStatus.PENDING, t.totalCost,
                                                       t.discountCost, 0.0, None)]
            && after.costs == docs.costs && after.products == docs.products && after.transactions == docs.transactions
  {
  }

  lemma FinishKeepsInv(w: World, lines: seq<Line>, p: Progress, id: Id, user: Id)
    requires Inv(w) && InProgress(w.docs, lines, p)
    requires FinishOrder(w.docs, lines, p, id, user, true).Ok?
    ensures Inv(w.(docs := FinishOrder(w.docs, lines, p, id, user, true).value, cart := p.cart, views := p.views))
    ensures Grows(w.docs, FinishOrder(w.docs, lines, p, id, user, true).value)
  {
    FinishShape(w.docs, lines, p, id, user);
    NewOrderKeepsInv(w, FinishOrder(w.docs, lines, p, id, user, true).value, lines, p, id);
  }

  /** Items of the session next to those stored before. */
  lemma MoreItems(docs: Store, later: Store, lines: seq<Line>, p: Progress)
    requires CostsOfProducts(docs) && ItemsPriced(docs) && InProgress(docs, lines, p)
    requires later.items == docs.items + p.writes.items
    requires later.costs == docs.costs && later.products == docs.products
    ensures CostsOfProducts(later) && ItemsPriced(later) && ViewsPriced(later, p.views) && Grows(docs, later)
  {
    forall k | k in later.items
      ensures PricedBy(later, later.items[k].product, later.items[k].cost)
    {
      if k in p.writes.items {
        assert PricedBy(docs, p.writes.items[k].product, p.writes.items[k].cost);
      } else {
        assert PricedBy(docs, docs.items[k].product, docs.items[k].cost);
      }
    }
  }

  lemma NewOrderKeepsInv(w: World, docs: Store, lines: seq<Line>, p: Progress, id: Id)
    requires Inv(w) && InProgress(w.docs, lines, p) && AllCreated(p.tasks) && p.error.None?
    requires Priced(ItemsOf(p.tasks), w.docs.costs) && id !in w.docs.orders && id in docs.orders
    requires docs.items == w.docs.items + p.writes.items && docs.costs == w.docs.costs
    requires docs.products == w.docs.products && docs.transactions == w.docs.transactions
    requires docs.orders == w.docs.orders[id := docs.orders[id]]
    requires docs.orders[id].items == ItemIds(lines) && docs.orders[id].transaction.None?
    requires CalculateTotalCost(ItemsOf(p.tasks), docs.costs) ==
             Totals(docs.orders[id].totalCost, docs.orders[id].discountCost)
    ensures Inv(w.(docs := docs, cart := p.cart, views := p.views)) && Grows(w.docs, docs)
  {
    MoreItems(w.docs, docs, lines, p);
    forall k | k in docs.orders
      ensures TotalsCorrect(docs, docs.orders[k]) && AmountCorrect(docs, docs.orders[k])
    {
      if k == id {
        NewTotals(docs, lines, p);
      } else {
        assert TotalsCorrect(w.docs, w.docs.orders[k]) && AmountCorrect(w.docs, w.docs.orders[k]);
        TotalsSurvive(w.docs, docs, docs.orders[k]);
      }
    }
  }

  lemma NewTotals(docs: Store, lines: seq<Line>, p: Progress)
    requires |p.tasks| == |lines| && AllCreated(p.tasks)
    requires forall i :: 0 <= i < |lines| ==>
               lines[i].orderItem in docs.items && docs.items[lines[i].orderItem] == p.tasks[i].item
    ensures Stored(docs, ItemIds(lines)) && StoredItems(docs, ItemIds(lines)) == ItemsOf(p.tasks)
  {
  }

  lemma CreateShape(w: World, id: Id, user: Id, lines: seq<Line>, schedule: seq<nat>, insertOk: bool)
    ensures var p := Interleave(w.docs, lines, Begin(w, lines), schedule);
            var finished := FinishOrder(w.docs, lines, p, id, user, insertOk);
            && (finished.Ok? ==> finished == FinishOrder(w.docs, lines, p, id, user, true))
            && CreateOrderStep(w, id, user, lines, schedule, insertOk).0
               == w.(docs := if finished.Ok? then finished.value else w.docs, cart := p.cart, views := p.views)
  {
  }

  lemma ViewsKeepInv(w: World, cart: map<Id, CartItem>, views: map<Id, CartView>)
    requires Inv(w) && ViewsPriced(w.docs, views)
    ensures Inv(w.(cart := cart, views := views)) && Grows(w.docs, w.docs)
  {
  }

  lemma CreateOrderKeepsInv(w: World, id: Id, user: Id, lines: seq<Line>, schedule: seq<nat>, insertOk: bool)
    requires Inv(w)
    ensures var w' := CreateOrderStep(w, id, user, lines, schedule, insertOk).0; Inv(w') && Grows(w.docs, w'.docs)
  {
    CreateShape(w, id, user, lines, schedule, insertOk);
    BeginInProgress(w, lines);
    InterleaveInProgress(w.docs, lines, Begin(w, lines), schedule);
    var p := Interleave(w.docs, lines, Begin(w, lines), schedule);
    if FinishOrder(w.docs, lines, p, id, user, insertOk).Ok? {
      FinishKeepsInv(w, lines, p, id, user);
    } else {
      ViewsKeepInv(w, p.cart, p.views);
    }
  }

  lemma BeginInProgress(w: World, lines: seq<Line>)
    requires ViewsPriced(w.docs, w.views)
    ensures InProgress(w.docs, lines, Begin(w, lines))
  {
  }

  // ---------- every other request ----------

  /** A step that only adds costs, and appends to or creates products, keeps the invariant. */
  lemma CatalogueKeepsInv(w: World, docs: Store)
    requires Inv(w) && Grows(w.docs, docs) && CostsOfProducts(docs)
    requires docs.items == w.docs.items && docs.orders == w.docs.orders && docs.transactions == w.docs.transactions
    ensures Inv(w.(docs := docs))
  {
    forall k | k in docs.orders
      ensures TotalsCorrect(docs, docs.orders[k]) && AmountCorrect(docs, docs.orders[k])
    {
      assert TotalsCorrect(w.docs, w.docs.orders[k]) && AmountCorrect(w.docs, w.docs.orders[k]);
      TotalsSurvive(w.docs, docs, docs.orders[k]);
    }
    forall k | k in docs.items
      ensures PricedBy(docs, docs.items[k].product, docs.items[k].cost)
    {
      PricesSurvive(w.docs, docs, docs.items[k].product, docs.items[k].cost);
    }
    forall k | k in w.views && w.views[k].product.Some?
      ensures PricedBy(docs, w.views[k].product.value.id, w.views[k].product.value.currentCost)
    {
      PricesSurvive(w.docs, docs, w.views[k].product.value.id, w.views[k].product.value.currentCost);
    }
  }

  /** Relinking, paying, preparing or cancelling an order changes neither its items nor its totals. */
  lemma OrderEditKeepsInv(w: World, docs: Store, id: Id, refunds: seq<Refund>)
    requires Inv(w) && id in w.docs.orders
    requires docs == w.docs.(orders := docs.orders, transactions := docs.transactions)
    requires docs.orders.Keys == w.docs.orders.Keys
    requires forall k :: k in docs.orders && k != id ==> docs.orders[k] == w.docs.orders[k]
    requires docs.orders[id].items == w.docs.orders[id].items
    requires docs.orders[id].totalCost == w.docs.orders[id].totalCost
    requires docs.orders[id].discountCost == w.docs.orders[id].discountCost
    requires AmountCorrect(docs, docs.orders[id])
    requires forall t :: t in w.docs.transactions ==>
               t in docs.transactions && docs.transactions[t].amount == w.docs.transactions[t].amount
    ensures Inv(w.(docs := docs, refunds := refunds))
  {
    forall k | k in docs.orders
      ensures TotalsCorrect(docs, docs.orders[k]) && AmountCorrect(docs, docs.orders[k])
    {
      assert TotalsCorrect(w.docs, w.docs.orders[k]) && AmountCorrect(w.docs, w.docs.orders[k]);
      assert StoredItems(docs, docs.orders[k].items) == StoredItems(w.docs, w.docs.orders[k].items);
    }
  }

  /** Storing one product whose history extends the one it had, together with the costs it names. */
  lemma StoreProductKeepsInv(w: World, docs: Store, id: Id, product: Product)
    requires Inv(w)
    requires docs.products == w.docs.products[id := product]
    requires docs.items == w.docs.items && docs.orders == w.docs.orders && docs.transactions == w.docs.transactions
    requires forall k :: k in w.docs.costs ==> k in docs.costs && docs.costs[k] == w.docs.costs[k]
    requires id in w.docs.products ==> w.docs.products[id].costs <= product.costs
    requires |product.costs| > 0 && product.currentCost == product.costs[|product.costs| - 1]
    requires forall i :: 0 <= i < |product.costs| ==> product.costs[i] in docs.costs
    ensures Inv(w.(docs := docs)) && Grows(w.docs, docs)
  {
    CatalogueKeepsInv(w, docs);
  }

  lemma CreateProductKeepsInv(w: World, id: Id, costId: Id, cost: Cost, options: seq<(Id, real)>, images: seq<string>,
                               collection: Option<Id>)
    requires Inv(w)
    ensures var w' := CreateProductStep(w, id, costId, cost, options, images, collection).0;
            Inv(w') && Grows(w.docs, w'.docs)
  {
    var docs := CreateProductStep(w, id, costId, cost, options, images, collection).0.docs;
    if docs != w.docs {
      var product := Product(costId, [costId], OptionIds(options), images, false);
      assert docs.products == w.docs.products[id := product];
      assert docs.costs == w.docs.costs[costId := cost];
      StoreProductKeepsInv(w, docs, id, product);
    }
  }

  /** A new price is appended to the history and becomes the current one; older prices stay as they were. */
  lemma HistoryExtends(p: Product, u: ProductUpdate)
    requires |p.costs| > 0 && p.currentCost == p.costs[|p.costs| - 1]
    ensures var q := UpdatedProduct(p, u);
            && p.costs <= q.costs && q.currentCost == q.costs[|q.costs| - 1]
            && forall i :: |p.costs| <= i < |q.costs| ==> u.newCost.Some? && q.costs[i] == u.newCost.value.0
  {
  }

  /** What the session of an update leaves of the catalogue. */
  lemma UpdatedShape(docs: Store, id: Id, u: ProductUpdate)
    requires id in docs.products && UpdatedDocs(docs, id, u).Ok?
    ensures var later := UpdatedDocs(docs, id, u).value;
            && later == docs.(options := later.options, costs := later.costs,
                              products := docs.products[id := UpdatedProduct(docs.products[id], u)])
            && later.costs == (if u.newCost.Some? then docs.costs[u.newCost.value.0 := u.newCost.value.1]
                               else docs.costs)
            && (u.newCost.Some? ==> u.newCost.value.0 !in docs.costs)
  {
  }

  lemma UpdatedKeepsInv(w: World, id: Id, u: ProductUpdate)
    requires Inv(w) && id in w.docs.products && UpdatedDocs(w.docs, id, u).Ok?
    ensures var docs := UpdatedDocs(w.docs, id, u).value; Inv(w.(docs := docs)) && Grows(w.docs, docs)
  {
    UpdatedShape(w.docs, id, u);
    var docs := UpdatedDocs(w.docs, id, u).value;
    var p, product := w.docs.products[id], UpdatedProduct(w.docs.products[id], u);
    HistoryExtends(p, u);
    forall i | 0 <= i < |product.costs|
      ensures product.costs[i] in docs.costs
    {
      if i < |p.costs| { assert product.costs[i] == p.costs[i]; }
    }
    StoreProductKeepsInv(w, docs, id, product);
  }

  lemma MarkedKeepsInv(w: World, ids: seq<Id>)
    requires Inv(w)
    ensures Inv(w.(docs := Marked(w.docs, ids))) && Grows(w.docs, Marked(w.docs, ids))
  {
    CatalogueKeepsInv(w, Marked(w.docs, ids));
  }

  lemma GrowsOn(a: Store, b: Store, c: Store)
    requires Grows(a, b) && Grows(b, c)
    ensures Grows(a, c)
  {
  }

  /** Through every update, refused ones included: costs are append-only and the current one is the last. */
  lemma UpdateProductKeepsInv(w: World, id: Id, u: ProductUpdate)
    requires Inv(w)
    ensures var w' := UpdateProductStep(w, id, u).0; Inv(w') && Grows(w.docs, w'.docs)
  {
    if id in w.docs.products {
      var docs := Marked(w.docs, u.deleteOptions);
      MarkedKeepsInv(w, u.deleteOptions);
      if UpdatedDocs(docs, id, u).Ok? {
        UpdatedKeepsInv(w.(docs := docs), id, u);
        GrowsOn(w.docs, docs, UpdatedDocs(docs, id, u).value);
      }
    }
  }

  lemma SafeDeleteKeepsInv(w: World, id: Id)
    requires Inv(w)
    ensures var w' := SafeDeleteProductStep(w, id).0; Inv(w') && Grows(w.docs, w'.docs)
  {
    if id in w.docs.products {
      StoreProductKeepsInv(w, SafeDeleteProductStep(w, id).0.docs, id, w.docs.products[id].(isDeleted := true));
    }
  }

  lemma ProcessShape(w: World, id: Id, txnId: Id, fee: Option<real>, vnpay: bool, urlOk: bool)
    requires ProcessOrderStep(w, id, txnId, fee, vnpay, urlOk).1 == Accepted
    ensures id in w.docs.orders && fee.Some? && txnId !in w.docs.transactions
    ensures var order := w.docs.orders[id];
            var amount := order.totalCost + fee.value - order.discountCost;
            var txn := OrderTransaction(amount, TransactionStatus.PENDING, None);
            ProcessOrderStep(w, id, txnId, fee, vnpay, urlOk).0
            == w.(docs := w.docs.(
                    transactions := w.docs.transactions[txnId := txn],
                    orders := w.docs.orders[id := order.(shippingCost := fee.value, transaction := Some(txnId))]))
  {
  }

  lemma ProcessOrderKeepsInv(w: World, id: Id, txnId: Id, fee: Option<real>, vnpay: bool, urlOk: bool)
    requires Inv(w)
    ensures var w' := ProcessOrderStep(w, id, txnId, fee, vnpay, urlOk).0; Inv(w') && Grows(w.docs, w'.docs)
  {
    if ProcessOrderStep(w, id, txnId, fee, vnpay, urlOk).1 == Accepted {
      ProcessShape(w, id, txnId, fee, vnpay, urlOk);
      OrderEditKeepsInv(w, ProcessOrderStep(w, id, txnId, fee, vnpay, urlOk).0.docs, id, w.refunds);
    }
  }

  lemma CallbackKeepsInv(w: World, id: Id, payDate: nat, success: bool)
    requires Inv(w)
    ensures var w' := CallbackStep(w, id, payDate, success).0; Inv(w') && Grows(w.docs, w'.docs)
  {
    var w' := CallbackStep(w, id, payDate, success).0;
    if w' != w {
      var order := w.docs.orders[id];
      assert AmountCorrect(w.docs, order);
      var docs := w'.docs;
      assert w' == w.(docs := docs);
      OrderEditKeepsInv(w, docs, id, w.refunds);
    }
  }

  lemma RequestCancelKeepsInv(w: World, id: Id, user: Id)
    requires Inv(w)
    ensures var w' := RequestCancelStep(w, id, user).0; Inv(w') && Grows(w.docs, w'.docs)
  {
    var w' := RequestCancelStep(w, id, user).0;
    if w' != w {
      var order := w.docs.orders[id];
      assert AmountCorrect(w.docs, order);
      var docs := w.docs.(orders := w.docs.orders[id := order.(status := CANCELING)]);
      assert w' == w.(docs := docs);
      OrderEditKeepsInv(w, docs, id, w.refunds);
    }
  }

  lemma CancelKeepsInv(w: World, id: Id, accept: bool, refundOk: bool)
    requires Inv(w)
    ensures var w' := CancelStep(w, id, accept, refundOk).0; Inv(w') && Grows(w.docs, w'.docs)
  {
    var w' := CancelStep(w, id, accept, refundOk).0;
    if w' != w {
      var order := w.docs.orders[id];
      assert AmountCorrect(w.docs, order);
      var docs := w.docs.(orders := w.docs.orders[id := order.(status := CANCELED)]);
      assert w' == w.(docs := docs, refunds := w'.refunds);
      OrderEditKeepsInv(w, docs, id, w'.refunds);
    }
  }

  lemma CreateCollectionKeepsInv(w: World, e: Event)
    requires e.CreateCollection? && Inv(w)
    ensures Inv(Step(w, e).0) && Grows(w.docs, Step(w, e).0.docs)
  {
    var docs := w.docs.(collections := w.docs.collections[e.id := []]);
    CatalogueKeepsInv(w, docs);
  }

  predicate IsCatalogueRequest(e: Event) {
    e.CreateCollection? || e.CreateProduct? || e.UpdateProduct? || e.SafeDeleteProduct?
  }

  lemma CatalogueStepKeepsInv(w: World, e: Event)
    requires Inv(w) && IsCatalogueRequest(e)
    ensures Inv(Step(w, e).0) && Grows(w.docs, Step(w, e).0.docs)
  {
    if e.CreateCollection? {
      CreateCollectionKeepsInv(w, e);
    } else if e.CreateProduct? {
      CreateProductKeepsInv(w, e.id, e.costId, e.cost, e.options, e.images, e.collection);
    } else if e.UpdateProduct? {
      UpdateProductKeepsInv(w, e.id, e.update);
    } else {
      SafeDeleteKeepsInv(w, e.id);
    }
  }

  lemma PaymentStepKeepsInv(w: World, e: Event)
    requires Inv(w) && (e.ProcessOrder? || e.PaymentCallback?)
    ensures Inv(Step(w, e).0) && Grows(w.docs, Step(w, e).0.docs)
  {
    if e.ProcessOrder? {
      ProcessOrderKeepsInv(w, e.id, e.txnId, e.fee, e.vnpay, e.urlOk);
      assert Step(w, e) == ProcessOrderStep(w, e.id, e.txnId, e.fee, e.vnpay, e.urlOk);
    } else {
      CallbackKeepsInv(w, e.id, e.payDate, e.success);
      assert Step(w, e) == CallbackStep(w, e.id, e.payDate, e.success);
    }
  }

  lemma CancellingStepKeepsInv(w: World, e: Event)
    requires Inv(w) && (e.RequestCancel? || e.CancelOrder?)
    ensures Inv(Step(w, e).0) && Grows(w.docs, Step(w, e).0.docs)
  {
    if e.RequestCancel? {
      RequestCancelKeepsInv(w, e.id, e.user);
      assert Step(w, e) == RequestCancelStep(w, e.id, e.user);
    } else {
      CancelKeepsInv(w, e.id, e.accept, e.refundOk);
      assert Step(w, e) == CancelStep(w, e.id, e.accept, e.refundOk);
    }
  }

  lemma CartStepKeepsInv(w: World, e: Event)
    requires Inv(w) && (e.AddCartItem? || e.RemoveCartItem? || e.ForgetView? || e.ForgetStock?)
    ensures Inv(Step(w, e).0) && Grows(w.docs, Step(w, e).0.docs)
  {
    assert Step(w, e).0.docs == w.docs;
  }

  lemma StepKeepsInv(w: World, e: Event)
    requires Inv(w)
    ensures Inv(Step(w, e).0) && Grows(w.docs, Step(w, e).0.docs)
  {
    if e.CreateOrder? {
      CreateOrderKeepsInv(w, e.id, e.user, e.lines, e.schedule, e.insertOk);
    } else if IsCatalogueRequest(e) {
      CatalogueStepKeepsInv(w, e);
    } else if e.AddCartItem? || e.RemoveCartItem? || e.ForgetView? || e.ForgetStock? {
      CartStepKeepsInv(w, e);
    } else if e.ProcessOrder? || e.PaymentCallback? {
      PaymentStepKeepsInv(w, e);
    } else {
      CancellingStepKeepsInv(w, e);
    }
  }

  lemma {:induction false} RunKeepsInv(w: World, events: seq<Event>)
    requires Inv(w)
    ensures Inv(Run(w, events)) && Grows(w.docs, Run(w, events).docs)
  {
    if events != [] {
      var n := |events| - 1;
      RunKeepsInv(w, events[..n]);
      StepKeepsInv(Run(w, events[..n]), events[n]);
    }
  }

  lemma ReachableInv(events: seq<Event>)
    ensures Inv(Run(EMPTY, events))
  {
    RunKeepsInv(EMPTY, events);
  }

  // ---------- prices ----------

  /** Orders stay stored, with the items and totals they were created with. */
  ghost predicate OrdersKept(docs: Store, later: Store) {
    forall k :: k in docs.orders ==>
      && k in later.orders && later.orders[k].items == docs.orders[k].items
      && later.orders[k].totalCost == docs.orders[k].totalCost
      && later.orders[k].discountCost == docs.orders[k].discountCost
  }

  /** createOrder adds at most one order, which is pending; the others stay. */
  lemma OrdersAfterCreate(w: World, e: Event)
    requires e.CreateOrder?
    ensures var orders := Step(w, e).0.docs.orders;
            && Step(w, e).0.docs.transactions == w.docs.transactions
            && (orders == w.docs.orders ||
                (e.id !in w.docs.orders && e.id in orders && orders[e.id].status == OrderStatus.PENDING &&
                 orders[e.id].transaction.None? && orders == w.docs.orders[e.id := orders[e.id]]))
  {
    SessionWrites(w, e.lines, e.schedule);
    var p := Interleave(w.docs, e.lines, Begin(w, e.lines), e.schedule);
    if FinishOrder(w.docs, e.lines, p, e.id, e.user, e.insertOk).Ok? {
      FinishShape(w.docs, e.lines, p, e.id, e.user);
    }
  }

  ghost predicate OrdersUntouched(w: World, w': World) {
    w'.docs.orders == w.docs.orders && w'.docs.transactions == w.docs.transactions && w'.refunds == w.refunds
  }

  lemma CartLeavesOrders(w: World, e: Event)
    requires e.AddCartItem? || e.RemoveCartItem? || e.ForgetView? || e.ForgetStock?
    ensures OrdersUntouched(w, Step(w, e).0)
  {
  }

  lemma UpdateLeavesOrders(w: World, id: Id, u: ProductUpdate)
    ensures OrdersUntouched(w, UpdateProductStep(w, id, u).0)
  {
    if id in w.docs.products && UpdatedDocs(Marked(w.docs, u.deleteOptions), id, u).Ok? {
      UpdatedShape(Marked(w.docs, u.deleteOptions), id, u);
    }
  }

  lemma CreateProductShape(w: World, e: Event)
    requires e.CreateProduct?
    ensures var (w', reply) := Step(w, e);
            && (reply == Accepted <==>
                  && e.costId !in w.docs.costs && e.id !in w.docs.products && e.collection.Some?
                  && InsertOptions(w.docs.options, e.options).Ok?)
            && (reply != Accepted ==> w' == w)
            && (reply == Accepted ==>
                  var c, collections := e.collection.value, w.docs.collections;
                  w' == w.(docs := w.docs.(
                             costs := w.docs.costs[e.costId := e.cost],
                             options := InsertOptions(w.docs.options, e.options).value,
                             products := w.docs.products[e.id := Product(e.costId, [e.costId], OptionIds(e.options),
                                                                         e.images, false)],
                             collections := if c in collections then collections[c := collections[c] + [e.id]]
                                            else collections)))
  {
  }

  lemma CreateProductLeavesOrders(w: World, e: Event)
    requires e.CreateProduct?
    ensures OrdersUntouched(w, Step(w, e).0)
  {
    CreateProductShape(w, e);
  }

  lemma CatalogueLeavesOrders(w: World, e: Event)
    requires IsCatalogueRequest(e)
    ensures OrdersUntouched(w, Step(w, e).0)
  {
    if e.UpdateProduct? {
      UpdateLeavesOrders(w, e.id, e.update);
    } else if e.CreateProduct? {
      CreateProductLeavesOrders(w, e);
    }
  }

  lemma OthersLeaveOrders(w: World, e: Event)
    requires !IsOrderRequest(e)
    ensures OrdersUntouched(w, Step(w, e).0)
  {
    if IsCatalogueRequest(e) { CatalogueLeavesOrders(w, e); } else { CartLeavesOrders(w, e); }
  }

  lemma StepKeepsOrders(w: World, e: Event)
    ensures OrdersKept(w.docs, Step(w, e).0.docs)
  {
    if !IsOrderRequest(e) {
      OthersLeaveOrders(w, e);
    } else if e.CreateOrder? {
      OrdersAfterCreate(w, e);
    } else {
      LaterRequestEditsOrder(w, e);
    }
  }

  lemma {:induction false} RunKeepsOrders(w: World, events: seq<Event>)
    ensures OrdersKept(w.docs, Run(w, events).docs)
  {
    if events != [] {
      var n := |events| - 1;
      RunKeepsOrders(w, events[..n]);
      StepKeepsOrders(Run(w, events[..n]), events[n]);
    }
  }

  /**
   However prices change later, an order of a reachable state keeps its totals, and recomputing
   them from its stored items and their cost records gives the same numbers again.
   */
  lemma PriceChangeIndependence(before: seq<Event>, after: seq<Event>, id: Id)
    requires id in Run(EMPTY, before).docs.orders
    ensures var docs, later := Run(EMPTY, before).docs, Run(Run(EMPTY, before), after).docs;
            && id in later.orders
            && var order := docs.orders[id];
            && Stored(docs, order.items) && Stored(later, order.items)
            && Priced(StoredItems(docs, order.items), docs.costs)
            && Priced(StoredItems(later, order.items), later.costs)
            && later.orders[id].items == order.items
            && CalculateTotalCost(StoredItems(later, order.items), later.costs)
               == Totals(later.orders[id].totalCost, later.orders[id].discountCost)
               == Totals(order.totalCost, order.discountCost)
               == CalculateTotalCost(StoredItems(docs, order.items), docs.costs)
  {
    ReachableInv(before);
    var w := Run(EMPTY, before);
    RunKeepsInv(w, after);
    RunKeepsOrders(w, after);
    assert TotalsCorrect(w.docs, w.docs.orders[id]);
    assert TotalsCorrect(Run(w, after).docs, Run(w, after).docs.orders[id]);
  }

  /** An order item is charged at a price its product has or once had, and that record never changes. */
  lemma ItemPriceIsHistoric(before: seq<Event>, after: seq<Event>, k: Id)
    requires k in Run(EMPTY, before).docs.items
    ensures var docs, later := Run(EMPTY, before).docs, Run(Run(EMPTY, before), after).docs;
            && k in later.items && later.items[k] == docs.items[k]
            && PricedBy(docs, docs.items[k].product, docs.items[k].cost)
            && docs.items[k].cost in docs.costs && docs.items[k].cost in later.costs
            && later.costs[docs.items[k].cost] == docs.costs[docs.items[k].cost]
  {
    ReachableInv(before);
    RunKeepsInv(Run(EMPTY, before), after);
    var docs := Run(EMPTY, before).docs;
    assert PricedBy(docs, docs.items[k].product, docs.items[k].cost);
  }

  // ---------- amounts ----------

  /** The undiscounted price of the items. */
  ghost function Gross(items: seq<OrderItem>, costs: map<Id, Cost>): real
    requires Priced(items, costs)
  {
    if items == [] then 0.0 else
    Gross(items[..|items| - 1], costs) + costs[items[|items| - 1].cost].saleCost * items[|items| - 1].quantity
  }

  lemma {:induction false} TotalsSplitGross(items: seq<OrderItem>, costs: map<Id, Cost>)
    requires Priced(items, costs)
    ensures CalculateTotalCost(items, costs).totalCost + CalculateTotalCost(items, costs).discountCost
            == Gross(items, costs)
  {
    if items != [] {
      var n := |items| - 1;
      TotalsSplitGross(items[..n], costs);
      var q, c := items[n].quantity, costs[items[n].cost];
      assert CalculateTotalCost(items, costs) == AddItem(CalculateTotalCost(items[..n], costs), c, q);
      assert (c.saleCost - Discount(c)) * q + Discount(c) * q == c.saleCost * q;
    }
  }

  lemma AddItemShift(x: Totals, y: Totals, c: Cost, q: real)
    ensures AddItem(Totals(x.totalCost + y.totalCost, x.discountCost + y.discountCost), c, q)
            == Totals(x.totalCost + AddItem(y, c, q).totalCost, x.discountCost + AddItem(y, c, q).discountCost)
  {
  }

  /** Totals add up item by item; with one item they are given by its own discount. */
  lemma {:induction false} TotalsAdd(a: seq<OrderItem>, b: seq<OrderItem>, costs: map<Id, Cost>)
    requires Priced(a, costs) && Priced(b, costs)
    ensures Priced(a + b, costs)
    ensures CalculateTotalCost(a + b, costs).totalCost
            == CalculateTotalCost(a, costs).totalCost + CalculateTotalCost(b, costs).totalCost
    ensures CalculateTotalCost(a + b, costs).discountCost
            == CalculateTotalCost(a, costs).discountCost + CalculateTotalCost(b, costs).discountCost
  {
    if b == [] {
      assert a + b == a;
    } else {
      var n := |b| - 1;
      TotalsAdd(a, b[..n], costs);
      assert (a + b)[..|a| + n] == a + b[..n] && (a + b)[|a| + n] == b[n];
      AddItemShift(CalculateTotalCost(a, costs), CalculateTotalCost(b[..n], costs), costs[b[n].cost], b[n].quantity);
    }
  }

  /** With one discount percentage d throughout, d percent of the gross price is taken off. */
  lemma {:induction false} UniformDiscount(items: seq<OrderItem>, costs: map<Id, Cost>, d: real)
    requires Priced(items, costs)
    requires forall i :: 0 <= i < |items| ==> costs[items[i].cost].discountPercentage == d
    ensures 100.0 * CalculateTotalCost(items, costs).discountCost == d * Gross(items, costs)
  {
    if items != [] {
      var n := |items| - 1;
      UniformDiscount(items[..n], costs, d);
      var c, q := costs[items[n].cost], items[n].quantity;
      assert 100.0 * Discount(c) == c.saleCost * d;
      assert 100.0 * (Discount(c) * q) == (100.0 * Discount(c)) * q == d * (c.saleCost * q);
      assert d * Gross(items, costs) == d * Gross(items[..n], costs) + d * (c.saleCost * q);
    }
  }

  /** Prices and quantities are not negative, and no discount is above half the price. */
  ghost predicate ModeratelyDiscounted(items: seq<OrderItem>, costs: map<Id, Cost>)
    requires Priced(items, costs)
  {
    forall i :: 0 <= i < |items| ==>
      && items[i].quantity >= 0.0 && costs[items[i].cost].saleCost >= 0.0
      && costs[items[i].cost].discountPercentage <= 50.0
  }

  lemma DiscountAtMostRest(c: Cost, q: real)
    requires q >= 0.0 && c.saleCost >= 0.0 && c.discountPercentage <= 50.0
    ensures Discount(c) * q <= (c.saleCost - Discount(c)) * q
  {
    var product := c.saleCost * c.discountPercentage;
    assert product <= c.saleCost * 50.0;
    assert Discount(c) == product / 100.0;
    assert c.saleCost - 2.0 * Discount(c) >= 0.0;
    assert (c.saleCost - 2.0 * Discount(c)) * q >= 0.0;
    assert (c.saleCost - Discount(c)) * q - Discount(c) * q == (c.saleCost - 2.0 * Discount(c)) * q;
  }

  lemma AddItemKeepsOrder(acc: Totals, c: Cost, q: real)
    requires acc.discountCost <= acc.totalCost
    requires q >= 0.0 && c.saleCost >= 0.0 && c.discountPercentage <= 50.0
    ensures AddItem(acc, c, q).discountCost <= AddItem(acc, c, q).totalCost
  {
    DiscountAtMostRest(c, q);
  }

  lemma {:induction false} DiscountAtMostTotal(items: seq<OrderItem>, costs: map<Id, Cost>)
    requires Priced(items, costs) && ModeratelyDiscounted(items, costs)
    ensures CalculateTotalCost(items, costs).discountCost <= CalculateTotalCost(items, costs).totalCost
  {
    if items != [] {
      var n := |items| - 1;
      assert ModeratelyDiscounted(items[..n], costs);
      DiscountAtMostTotal(items[..n], costs);
      AddItemKeepsOrder(CalculateTotalCost(items[..n], costs), costs[items[n].cost], items[n].quantity);
    }
  }

  /**
   The transaction linked to an order of any reachable state: its amount takes the discount off
   twice, because the total is net of it already.
   */
  lemma LinkedAmount(events: seq<Event>, id: Id)
    requires id in Run(EMPTY, events).docs.orders && Run(EMPTY, events).docs.orders[id].transaction.Some?
    ensures var docs := Run(EMPTY, events).docs;
            var order := docs.orders[id];
            && order.transaction.value in docs.transactions
            && var amount := docs.transactions[order.transaction.value].amount;
            && amount == order.totalCost + order.shippingCost - order.discountCost
            && Stored(docs, order.items) && Priced(StoredItems(docs, order.items), docs.costs)
            && amount == Gross(StoredItems(docs, order.items), docs.costs) + order.shippingCost
                         - 2.0 * order.discountCost
            && (amount >= order.shippingCost <==>
                  2.0 * order.discountCost <= Gross(StoredItems(docs, order.items), docs.costs))
            && (ModeratelyDiscounted(StoredItems(docs, order.items), docs.costs) ==> amount >= order.shippingCost)
  {
    ReachableInv(events);
    var docs := Run(EMPTY, events).docs;
    var order := docs.orders[id];
    assert TotalsCorrect(docs, order) && AmountCorrect(docs, order);
    var items := StoredItems(docs, order.items);
    TotalsSplitGross(items, docs.costs);
    if ModeratelyDiscounted(items, docs.costs) {
      DiscountAtMostTotal(items, docs.costs);
    }
  }
}
