/**
 One run from the empty shop that shows three things the code does not prevent: an order for more than is
 in stock, an amount below the shipping cost, and two refunds of one order.
 */
module ExampleRun {
  import opened Common
  import opened Ledger
  import opened StockTheorems
  import opened OrderTheorems
  import opened CartOrders
  import opened OrderAcceptance
  import opened Catalogue
  import opened RefundTheorems

  lemma RunOne(w: World, events: seq<Event>, e: Event)
    ensures Run(w, events + [e]) == Step(Run(w, events), e).0
  {
    assert (events + [e])[..|events|] == events;
  }

  lemma RunOrder(w: World, events: seq<Event>, id: Id, user: Id, lines: seq<Line>, schedule: seq<nat>)
    ensures Step(w, CreateOrder(id, user, lines, schedule, true)) == CreateOrderStep(w, id, user, lines, schedule, true)
    ensures w == Run(EMPTY, events) ==>
              Run(EMPTY, events + [CreateOrder(id, user, lines, schedule, true)])
              == CreateOrderStep(w, id, user, lines, schedule, true).0
  {
    RunOne(EMPTY, events, CreateOrder(id, user, lines, schedule, true));
  }

  lemma RunProcess(events: seq<Event>, w: World, id: Id, txnId: Id, fee: Option<real>, vnpay: bool, urlOk: bool)
    requires w == Run(EMPTY, events)
    ensures Run(EMPTY, events + [ProcessOrder(id, txnId, fee, vnpay, urlOk)])
            == ProcessOrderStep(w, id, txnId, fee, vnpay, urlOk).0
  {
    RunOne(EMPTY, events, ProcessOrder(id, txnId, fee, vnpay, urlOk));
  }

  // ---------- an order of one line ----------

  lemma InterleaveOne(docs: Store, lines: seq<Line>, p: Progress, schedule: seq<nat>, i: nat)
    requires |p.tasks| == |lines|
    ensures Interleave(docs, lines, p, schedule + [i]) == Advance(docs, lines, Interleave(docs, lines, p, schedule), i)
  {
    assert (schedule + [i])[..|schedule|] == schedule;
  }

  lemma FourSteps(docs: Store, lines: seq<Line>, p: Progress)
    requires |p.tasks| == |lines|
    ensures Interleave(docs, lines, p, [0, 0, 0, 0])
            == Advance(docs, lines, Advance(docs, lines, Advance(docs, lines, Advance(docs, lines, p, 0), 0), 0), 0)
  {
    InterleaveOne(docs, lines, p, [], 0);
    InterleaveOne(docs, lines, p, [0], 0);
    InterleaveOne(docs, lines, p, [0, 0], 0);
    InterleaveOne(docs, lines, p, [0, 0, 0], 0);
    assert [0, 0, 0] + [0] == [0, 0, 0, 0] && [0, 0] + [0] == [0, 0, 0] && [0] + [0] == [0, 0] && [] + [0] == [0];
  }

  /** The only line of an order at one of its stages. */
  function At(t: Task, writes: Store, cart: map<Id, CartItem>, views: map<Id, CartView>): Progress {
    Progress([t], writes, cart, views, None)
  }

  /** A cart item that is not cached and whose product and option are stored. */
  ghost predicate Orderable(w: World, line: Line) {
    && line.cartItem in w.cart && line.cartItem !in w.views
    && w.cart[line.cartItem].product in w.docs.products && w.cart[line.cartItem].option in w.docs.options
    && w.docs.products[w.cart[line.cartItem].product].currentCost in w.docs.costs
    && line.orderItem !in w.docs.items
  }

  function ItemFor(w: World, line: Line): OrderItem
    requires Orderable(w, line)
  {
    var c := w.cart[line.cartItem];
    OrderItem(c.product, c.option, c.quantity, w.docs.products[c.product].currentCost)
  }

  function TakenFor(w: World, line: Line): Store
    requires Orderable(w, line)
  {
    var item := ItemFor(w, line);
    NO_WRITES.(options := map[item.option := w.docs.options[item.option] - item.quantity])
  }

  lemma FirstTwo(w: World, line: Line)
    requires Orderable(w, line)
    ensures var views := w.views[line.cartItem := Populate(w.docs, w.cart[line.cartItem])];
            var item := ItemFor(w, line);
            && Advance(w.docs, [line], Begin(w, [line]), 0) == At(Found(item), NO_WRITES, w.cart, views)
            && Advance(w.docs, [line], At(Found(item), NO_WRITES, w.cart, views), 0)
               == At(Reserved(item), TakenFor(w, line), w.cart, views)
  {
    assert Begin(w, [line]) == At(Started, NO_WRITES, w.cart, w.views);
    assert NO_WRITES.options == map[];
  }

  lemma LastTwo(w: World, line: Line)
    requires Orderable(w, line)
    ensures var views := w.views[line.cartItem := Populate(w.docs, w.cart[line.cartItem])];
            var item, cart, taken := ItemFor(w, line), w.cart - {line.cartItem}, TakenFor(w, line);
            && Advance(w.docs, [line], At(Reserved(item), taken, w.cart, views), 0)
               == At(Unlisted(item), taken, cart, w.views)
            && Advance(w.docs, [line], At(Unlisted(item), taken, cart, w.views), 0)
               == At(Created(item), taken.(items := map[line.orderItem := item]), cart, w.views)
  {
    var views := w.views[line.cartItem := Populate(w.docs, w.cart[line.cartItem])];
    assert views - {line.cartItem} == w.views;
  }

  lemma OneLineThrough(w: World, line: Line)
    requires Orderable(w, line)
    ensures Interleave(w.docs, [line], Begin(w, [line]), [0, 0, 0, 0])
            == At(Created(ItemFor(w, line)), TakenFor(w, line).(items := map[line.orderItem := ItemFor(w, line)]),
                  w.cart - {line.cartItem}, w.views)
  {
    FourSteps(w.docs, [line], Begin(w, [line]));
    FirstTwo(w, line);
    LastTwo(w, line);
  }

  lemma TotalOfOne(item: OrderItem, costs: map<Id, Cost>)
    requires item.cost in costs
    ensures CalculateTotalCost([item], costs) == AddItem(Totals(0.0, 0.0), costs[item.cost], item.quantity)
  {
    assert [item][..0] == [];
  }

  /** An order of one line that nothing interrupts. */
  lemma OneLineOrder(w: World, id: Id, user: Id, line: Line)
    requires Orderable(w, line) && id !in w.docs.orders
    ensures var item := ItemFor(w, line);
            var t := AddItem(Totals(0.0, 0.0), w.docs.costs[item.cost], item.quantity);
            var left := w.docs.options[item.option] - item.quantity;
            var order := Order(user, [line.orderItem], OrderStatus.PENDING, t.totalCost, t.discountCost, 0.0, None);
            CreateOrderStep(w, id, user, [line], [0, 0, 0, 0], true)
            == (w.(docs := w.docs.(options := w.docs.options[item.option := left],
                                   items := w.docs.items[line.orderItem := item],
                                   orders := w.docs.orders[id := order]),
                   cart := w.cart - {line.cartItem}), Accepted)
  {
    OneLineThrough(w, line);
    var item := ItemFor(w, line);
    var p := Interleave(w.docs, [line], Begin(w, [line]), [0, 0, 0, 0]);
    assert AllCreated(p.tasks) && ItemsOf(p.tasks) == [item] && ItemIds([line]) == [line.orderItem];
    TotalOfOne(item, w.docs.costs);
    var options, items := w.docs.options, w.docs.items;
    assert Over(options, p.writes.options) == options[item.option := options[item.option] - item.quantity];
    assert Over(items, p.writes.items) == items[line.orderItem := item];
  }

  // ---------- the run ----------

  const PRICE := Cost(10.0, 60.0)
  const RESTOCK := ProductUpdate(None, None, [(1, Some(1.0))], [], None, None)

  /** A product at a discount of 60 percent; two pieces go into the cart, and one is left when they are ordered. */
  const OPENING := [CreateProduct(3, 2, PRICE, [(1, 5.0)], [], Some(8))]
                   + [AddCartItem(4, CartPayload(3, 1, Some(2.0)))]
                   + [UpdateProduct(3, RESTOCK)]
  const ORDERED := OPENING + [CreateOrder(6, 7, [Line(4, 5)], [0, 0, 0, 0], true)]
  const PROCESSED := ORDERED + [ProcessOrder(6, 9, Some(10.0), true, true)]
  const PAID := PROCESSED + [PaymentCallback(6, 20, true)]
  const CANCELLED := PAID + [CancelOrder(6, true, true)]
  const REVIVED := CANCELLED + [PaymentCallback(6, 30, true)]
  const TWICE := REVIVED + [CancelOrder(6, true, true)]

  const SHOP := NO_WRITES.(options := map[1 := 5.0], costs := map[2 := PRICE],
                           products := map[3 := Product(2, [2], [1], [], false)])

  lemma Opened()
    ensures Step(EMPTY, CreateProduct(3, 2, PRICE, [(1, 5.0)], [], Some(8))) == (EMPTY.(docs := SHOP), Accepted)
  {
    assert InsertOptions(map[], [(1, 5.0)]) == InsertOptions(map[1 := 5.0], []) == Ok(map[1 := 5.0]);
    assert OptionIds([(1, 5.0)]) == [1];
  }

  lemma Added()
    ensures Step(EMPTY.(docs := SHOP), AddCartItem(4, CartPayload(3, 1, Some(2.0))))
            == (EMPTY.(docs := SHOP, cart := map[4 := CartItem(3, 1, 2.0)], stocks := map[1 := 5.0]), Accepted)
  {
  }

  const OPEN := EMPTY.(docs := SHOP.(options := map[1 := 1.0]), cart := map[4 := CartItem(3, 1, 2.0)])

  lemma Restocked()
    ensures Step(EMPTY.(docs := SHOP, cart := map[4 := CartItem(3, 1, 2.0)], stocks := map[1 := 5.0]),
                 UpdateProduct(3, RESTOCK)) == (OPEN, Accepted)
  {
    assert Marked(SHOP, []).deletedOptions == {};
    assert (1, Some(1.0)) in RESTOCK.updateOptions;
    assert EditedIds(RESTOCK) == {1};
    assert map[1 := 5.0] - {1} == map[];
    assert EditStocks(map[1 := 5.0], RESTOCK.updateOptions) == EditStocks(map[1 := 1.0], []) == map[1 := 1.0];
    var p := SHOP.products[3];
    assert UpdatedProduct(p, RESTOCK) == p;
    assert SHOP.products[3 := p] == SHOP.products;
  }

  lemma AfterOpening()
    ensures Run(EMPTY, OPENING) == OPEN
  {
    var first := [CreateProduct(3, 2, PRICE, [(1, 5.0)], [], Some(8))];
    var second := first + [AddCartItem(4, CartPayload(3, 1, Some(2.0)))];
    RunOne(EMPTY, [], first[0]);
    assert [] + first == first;
    RunOne(EMPTY, first, AddCartItem(4, CartPayload(3, 1, Some(2.0))));
    RunOne(EMPTY, second, UpdateProduct(3, RESTOCK));
    Opened();
    Added();
    Restocked();
  }

  const BOUGHT := Order(7, [5], OrderStatus.PENDING, 8.0, 12.0, 0.0, None)
  const SOLD := OPEN.(docs := OPEN.docs.(options := map[1 := -1.0], items := map[5 := OrderItem(3, 1, 2.0, 2)],
                                         orders := map[6 := BOUGHT]), cart := map[])

  lemma OrderedAtOnce()
    ensures CreateOrderStep(OPEN, 6, 7, [Line(4, 5)], [0, 0, 0, 0], true) == (SOLD, Accepted)
  {
    OneLineOrder(OPEN, 6, 7, Line(4, 5));
    assert AddItem(Totals(0.0, 0.0), PRICE, 2.0) == Totals(8.0, 12.0);
    assert ItemFor(OPEN, Line(4, 5)) == OrderItem(3, 1, 2.0, 2);
    assert OPEN.cart - {4} == map[];
    assert OPEN.docs.options[1 := -1.0] == map[1 := -1.0];
  }

  lemma AfterOrder()
    ensures Run(EMPTY, ORDERED) == SOLD
  {
    AfterOpening();
    OrderedAtOnce();
    RunOrder(OPEN, OPENING, 6, 7, [Line(4, 5)], [0, 0, 0, 0]);
  }

  /** In a run from the empty shop, two pieces are accepted with one in stock, and the stock is -1. */
  lemma OversellingExample()
    ensures var w := Run(EMPTY, OPENING);
            var (w', reply) := Step(w, CreateOrder(6, 7, [Line(4, 5)], [0, 0, 0, 0], true));
            && w.docs.options == map[1 := 1.0] && Requested(w, [Line(4, 5)], 1) == 2.0
            && reply == Accepted && w'.docs.options == map[1 := -1.0]
  {
    AfterOpening();
    OrderedAtOnce();
    RunOrder(OPEN, OPENING, 6, 7, [Line(4, 5)], [0, 0, 0, 0]);
    AskedForTwo(Line(4, 5));
  }

  lemma AskedForTwo(line: Line)
    requires line.cartItem == 4
    ensures Requested(OPEN, [line], 1) == 2.0
  {
    assert [line][..0] == [];
    assert Requested(OPEN, [], 1) == 0.0;
  }

  /** The order after processing, with the state of its payment. */
  function Linked(status: OrderStatus, txn: OrderTransaction, refunds: seq<Refund>): World {
    var order := BOUGHT.(status := status, shippingCost := 10.0, transaction := Some(9));
    SOLD.(docs := SOLD.docs.(orders := map[6 := order],
                             transactions := map[9 := txn]), refunds := refunds)
  }

  const UNPAID := OrderTransaction(6.0, TransactionStatus.PENDING, None)

  lemma Processed()
    ensures ProcessOrderStep(SOLD, 6, 9, Some(10.0), true, true) == (Linked(OrderStatus.PENDING, UNPAID, []), Accepted)
  {
    assert SOLD.docs.orders[6] == BOUGHT && SOLD.docs.transactions == map[];
    var order := BOUGHT.(shippingCost := 10.0, transaction := Some(9));
    assert SOLD.docs.orders[6 := order] == map[6 := order];
  }

  lemma AfterProcessing()
    ensures Run(EMPTY, PROCESSED) == Linked(OrderStatus.PENDING, UNPAID, [])
  {
    AfterOrder();
    RunProcess(ORDERED, SOLD, 6, 9, Some(10.0), true, true);
    Processed();
  }

  /** The discount of 12 is taken off twice: with a shipping cost of 10, the amount to pay is 6. */
  lemma UnderpaidExample()
    ensures var docs := Run(EMPTY, PROCESSED).docs;
            && 6 in docs.orders && docs.orders[6].transaction == Some(9) && 9 in docs.transactions
            && docs.orders[6].totalCost == 8.0 && docs.orders[6].discountCost == 12.0
            && docs.transactions[9].amount == 6.0 < docs.orders[6].shippingCost == 10.0
  {
    AfterProcessing();
  }

  lemma PaidAgain(status: OrderStatus, txn: OrderTransaction, refunds: seq<Refund>, payDate: nat)
    requires txn.amount == 6.0
    ensures Step(Linked(status, txn, refunds), PaymentCallback(6, payDate, true))
            == (Linked(PREPARING, OrderTransaction(6.0, SUCCESS, Some(payDate)), refunds), Accepted)
  {
    var w := Linked(status, txn, refunds);
    var w' := Linked(PREPARING, OrderTransaction(6.0, SUCCESS, Some(payDate)), refunds);
    assert w.docs.transactions[9 := w'.docs.transactions[9]] == w'.docs.transactions;
    assert w.docs.orders[6 := w'.docs.orders[6]] == w'.docs.orders;
  }

  lemma CancelledAgain(payDate: nat, refunds: seq<Refund>)
    ensures Step(Linked(PREPARING, OrderTransaction(6.0, SUCCESS, Some(payDate)), refunds), CancelOrder(6, true, true))
            == (Linked(CANCELED, OrderTransaction(6.0, SUCCESS, Some(payDate)), refunds + [Refund(6, 6.0)]), Accepted)
  {
    var txn := OrderTransaction(6.0, SUCCESS, Some(payDate));
    var w, w' := Linked(PREPARING, txn, refunds), Linked(CANCELED, txn, refunds + [Refund(6, 6.0)]);
    assert w.docs.orders[6 := w'.docs.orders[6]] == w'.docs.orders;
  }

  /**
   CANCELED is not final: after the second payment report the cancelled order is being prepared, and it can
   be cancelled and refunded again, from the empty shop on.
   */
  lemma RefundedTwice()
    ensures var cancelled, revived, again := Run(EMPTY, CANCELLED), Run(EMPTY, REVIVED), Run(EMPTY, TWICE);
            && Canceled(cancelled, 6) && cancelled.refunds == [Refund(6, 6.0)]
            && 6 in revived.docs.orders && revived.docs.orders[6].status == PREPARING
            && Canceled(again, 6) && again.refunds == [Refund(6, 6.0), Refund(6, 6.0)]
  {
    AfterProcessing();
    RunOne(EMPTY, PROCESSED, PaymentCallback(6, 20, true));
    PaidAgain(OrderStatus.PENDING, UNPAID, [], 20);
    RunOne(EMPTY, PAID, CancelOrder(6, true, true));
    CancelledAgain(20, []);
    RunOne(EMPTY, CANCELLED, PaymentCallback(6, 30, true));
    PaidAgain(CANCELED, OrderTransaction(6.0, SUCCESS, Some(20)), [Refund(6, 6.0)], 30);
    RunOne(EMPTY, REVIVED, CancelOrder(6, true, true));
    CancelledAgain(30, [Refund(6, 6.0)]);
  }

  /** Before a payment is reported, an order cannot be cancelled: its transaction has no pay date. */
  lemma UnpaidNotCancelled()
    ensures Step(Run(EMPTY, PROCESSED), CancelOrder(6, true, true)) == (Run(EMPTY, PROCESSED), Rejected(INVALID_DATE))
  {
    AfterProcessing();
  }

  const FAILED := PROCESSED + [PaymentCallback(6, 20, false)]
  const UNEARNED := FAILED + [CancelOrder(6, true, true)]

  lemma FailedReport()
    ensures Step(Linked(OrderStatus.PENDING, UNPAID, []), PaymentCallback(6, 20, false))
            == (Linked(OrderStatus.PENDING, OrderTransaction(6.0, FAIL, Some(20)), []), Accepted)
  {
    var w := Linked(OrderStatus.PENDING, UNPAID, []);
    var txn := OrderTransaction(6.0, FAIL, Some(20));
    assert w.docs.transactions[9 := txn] == map[9 := txn];
  }

  lemma CancelledUnpaid()
    ensures Step(Linked(OrderStatus.PENDING, OrderTransaction(6.0, FAIL, Some(20)), []), CancelOrder(6, true, true))
            == (Linked(CANCELED, OrderTransaction(6.0, FAIL, Some(20)), [Refund(6, 6.0)]), Accepted)
  {
    var txn := OrderTransaction(6.0, FAIL, Some(20));
    var w, w' := Linked(OrderStatus.PENDING, txn, []), Linked(CANCELED, txn, [Refund(6, 6.0)]);
    assert w.docs.orders[6 := w'.docs.orders[6]] == w'.docs.orders;
    assert [] + [Refund(6, 6.0)] == [Refund(6, 6.0)];
  }

  lemma PaymentsOne(events: seq<Event>, e: Event, id: Id)
    ensures Payments(events + [e], id) == Payments(events, id) + if Pays(e, id) then 1 else 0
  {
    assert (events + [e])[..|events|] == events;
  }

  /** A report of a failed payment sets the pay date too: an order nobody paid is cancelled and refunded. */
  lemma RefundedUnpaid()
    ensures Run(EMPTY, UNEARNED).refunds == [Refund(6, 6.0)] && Payments(UNEARNED, 6) == 0
  {
    AfterProcessing();
    RunOne(EMPTY, PROCESSED, PaymentCallback(6, 20, false));
    FailedReport();
    RunOne(EMPTY, FAILED, CancelOrder(6, true, true));
    CancelledUnpaid();
    NoPayments();
  }

  lemma NoPayments()
    ensures Payments(UNEARNED, 6) == 0
  {
    var restocking := [AddCartItem(4, CartPayload(3, 1, Some(2.0)))];
    var first := [CreateProduct(3, 2, PRICE, [(1, 5.0)], [], Some(8))];
    PaymentsOne([], first[0], 6);
    assert [] + first == first;
    PaymentsOne(first, restocking[0], 6);
    PaymentsOne(first + restocking, UpdateProduct(3, RESTOCK), 6);
    PaymentsOne(OPENING, CreateOrder(6, 7, [Line(4, 5)], [0, 0, 0, 0], true), 6);
    PaymentsOne(ORDERED, ProcessOrder(6, 9, Some(10.0), true, true), 6);
    PaymentsOne(PROCESSED, PaymentCallback(6, 20, false), 6);
    PaymentsOne(FAILED, CancelOrder(6, true, true), 6);
  }

  // ---------- an old price ----------

  const NEW_PRICE := Cost(20.0, 0.0)
  const REPRICE := ProductUpdate(Some((12, NEW_PRICE)), None, [], [], None, None)

  /** An order that fails on its second line, after the first line has read its cart item; then a new price. */
  const ATTEMPT := CreateOrder(6, 7, [Line(4, 5), Line(99, 15)], [0, 1], true)
  const REPRICED := OPENING + [ATTEMPT] + [UpdateProduct(3, REPRICE)]

  const SEEN := CartView(Some(ProductView(3, 2, None)), Some(OptionView(1, None)), 2.0)

  lemma TwoSteps(docs: Store, lines: seq<Line>, p: Progress)
    requires |p.tasks| == |lines|
    ensures Interleave(docs, lines, p, [0, 1]) == Advance(docs, lines, Advance(docs, lines, p, 0), 1)
  {
    InterleaveOne(docs, lines, p, [], 0);
    InterleaveOne(docs, lines, p, [0], 1);
    assert [0] + [1] == [0, 1] && [] + [0] == [0];
  }

  lemma Attempted(lines: seq<Line>)
    requires lines == [Line(4, 5), Line(99, 15)]
    ensures var p := Interleave(OPEN.docs, lines, Begin(OPEN, lines), [0, 1]);
            p.error == Some(ORDER_UNKNOW_ERROR) && p.cart == OPEN.cart && p.views == map[4 := SEEN]
  {
    TwoSteps(OPEN.docs, lines, Begin(OPEN, lines));
    var p := Advance(OPEN.docs, lines, Begin(OPEN, lines), 0);
    assert Populate(OPEN.docs, OPEN.cart[4]) == SEEN;
    assert p.views == map[4 := SEEN] && p.cart == OPEN.cart && p.error.None?;
    assert p.tasks[1] == Started;
  }

  const CACHED := OPEN.(views := map[4 := SEEN])

  lemma AfterAttempt()
    ensures Run(EMPTY, OPENING + [ATTEMPT]) == CACHED
  {
    AfterOpening();
    Attempted([Line(4, 5), Line(99, 15)]);
    RunOrder(OPEN, OPENING, 6, 7, [Line(4, 5), Line(99, 15)], [0, 1]);
    RefusedKeepsDocs(OPEN, 6, 7, [Line(4, 5), Line(99, 15)], [0, 1]);
  }

  lemma RefusedKeepsDocs(w: World, id: Id, user: Id, lines: seq<Line>, schedule: seq<nat>)
    requires Interleave(w.docs, lines, Begin(w, lines), schedule).error.Some?
    ensures var p := Interleave(w.docs, lines, Begin(w, lines), schedule);
            CreateOrderStep(w, id, user, lines, schedule, true).0 == w.(cart := p.cart, views := p.views)
  {
  }

  lemma AfterReprice()
    ensures var w := Run(EMPTY, REPRICED);
            && w.views == map[4 := SEEN] && w.cart == OPEN.cart && w.docs.items == map[] && w.docs.orders == map[]
            && 3 in w.docs.products && w.docs.products[3].currentCost == 12
            && 12 in w.docs.costs && w.docs.costs[12] == NEW_PRICE
  {
    AfterAttempt();
    RunOne(EMPTY, OPENING + [ATTEMPT], UpdateProduct(3, REPRICE));
    UpdateProductExactly(CACHED, 3, REPRICE);
    UpdateKeepsRest(CACHED, 3, REPRICE);
  }

  lemma UpdateKeepsRest(w: World, id: Id, u: ProductUpdate)
    ensures var w' := UpdateProductStep(w, id, u).0;
            && w'.views == w.views && w'.cart == w.cart && w'.docs.items == w.docs.items
            && w'.docs.orders == w.docs.orders
  {
    if id in w.docs.products && UpdatedDocs(Marked(w.docs, u.deleteOptions), id, u).Ok? {
      UpdatedShape(Marked(w.docs, u.deleteOptions), id, u);
    }
  }

  lemma FourTurns()
    ensures Turns([0, 0, 0, 0], 0) == 4
  {
    assert [0, 0, 0, 0][..3] == [0, 0, 0] && [0, 0, 0][..2] == [0, 0] && [0, 0][..1] == [0] && [0][..0] == [];
    assert Turns([0], 0) == 1 && Turns([0, 0], 0) == 2 && Turns([0, 0, 0], 0) == 3;
  }

  /** What createOrder has read of a cart item stays cached: after a new price, the order is charged the old one. */
  lemma OldPriceCharged()
    ensures var w := Run(EMPTY, REPRICED);
            var (w', reply) := Step(w, CreateOrder(6, 7, [Line(4, 5)], [0, 0, 0, 0], true));
            && 3 in w.docs.products && w.docs.products[3].currentCost == 12
            && reply == Accepted && 5 in w'.docs.items && w'.docs.items[5].cost == 2
  {
    var w := Run(EMPTY, REPRICED);
    AfterReprice();
    FourTurns();
    OrderAcceptedExactly(REPRICED, 6, 7, [Line(4, 5)], [0, 0, 0, 0], true);
    ChargedAsSeen(REPRICED, 6, 7, Line(4, 5), [0, 0, 0, 0]);
  }

  lemma ChargedAsSeen(events: seq<Event>, id: Id, user: Id, line: Line, schedule: seq<nat>)
    requires Step(Run(EMPTY, events), CreateOrder(id, user, [line], schedule, true)).1 == Accepted
    requires line.cartItem in Run(EMPTY, events).views
    ensures var w := Run(EMPTY, events);
            var w' := Step(w, CreateOrder(id, user, [line], schedule, true)).0;
            && line.orderItem in w'.docs.items && w.views[line.cartItem].product.Some?
            && w'.docs.items[line.orderItem].cost == w.views[line.cartItem].product.value.currentCost
  {
    var w, lines := Run(EMPTY, events), [line];
    ReachableInv(events);
    OrderIsTheCart(w, id, user, lines, schedule, true);
    var w' := CreateOrderStep(w, id, user, lines, schedule, true).0;
    assert lines[0] == line;
    assert lines[0].orderItem in w'.docs.items && Bought(w, lines[0].cartItem, w'.docs.items[lines[0].orderItem]);
  }
}
