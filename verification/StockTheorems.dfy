/** Conservation of stock: what leaves an option's stock is exactly what committed order items hold. */
module StockTheorems {
  import opened Common
  import opened Ledger

  // ---------- sums ----------

  function Part(item: OrderItem, o: Id): real { if item.option == o then item.quantity else 0.0 }

  /** The quantity of option o in all order items of a collection. */
  ghost function Sold(items: map<Id, OrderItem>, o: Id): real
    decreases items.Keys
  {
    if items == map[] then 0.0 else
    var k :| k in items;
    assert (items - {k}).Keys < items.Keys;
    Part(items[k], o) + Sold(items - {k}, o)
  }

  lemma {:induction false} SoldRemove(items: map<Id, OrderItem>, k: Id, o: Id)
    requires k in items
    ensures Sold(items, o) == Part(items[k], o) + Sold(items - {k}, o)
    decreases items.Keys
  {
    var j :| j in items && Sold(items, o) == Part(items[j], o) + Sold(items - {j}, o);
    if j != k {
      SoldRemove(items - {j}, k, o);
      SoldRemove(items - {k}, j, o);
      assert items - {j} - {k} == items - {k} - {j};
    }
  }

  lemma SoldInsert(items: map<Id, OrderItem>, k: Id, item: OrderItem, o: Id)
    requires k !in items
    ensures Sold(items[k := item], o) == Sold(items, o) + Part(item, o)
  {
    SoldRemove(items[k := item], k, o);
    assert items[k := item] - {k} == items;
  }

  lemma {:induction false} SoldUnion(a: map<Id, OrderItem>, b: map<Id, OrderItem>, o: Id)
    requires a.Keys !! b.Keys
    ensures Sold(a + b, o) == Sold(a, o) + Sold(b, o)
    decreases b.Keys
  {
    if b == map[] {
      assert a + b == a;
    } else {
      var k :| k in b;
      SoldRemove(b, k, o);
      SoldUnion(a, b - {k}, o);
      SoldInsert(a + (b - {k}), k, b[k], o);
      assert (a + (b - {k}))[k := b[k]] == a + b;
    }
  }

  /** The quantity of option o a line has taken from the stock without having an order item yet. */
  function Held(t: Task, o: Id): real {
    match t
    case Reserved(item) => Part(item, o)
    case Unlisted(item) => Part(item, o)
    case _ => 0.0
  }

  function InFlight(tasks: seq<Task>, o: Id): real {
    if tasks == [] then 0.0 else InFlight(tasks[..|tasks| - 1], o) + Held(tasks[|tasks| - 1], o)
  }

  lemma {:induction false} InFlightUpdate(tasks: seq<Task>, i: nat, t: Task, o: Id)
    requires i < |tasks|
    ensures InFlight(tasks[i := t], o) == InFlight(tasks, o) - Held(tasks[i], o) + Held(t, o)
  {
    var n := |tasks| - 1;
    if i == n {
      assert tasks[i := t][..n] == tasks[..n];
    } else {
      InFlightUpdate(tasks[..n], i, t, o);
      assert tasks[i := t][..n] == tasks[..n][i := t];
    }
  }

  lemma {:induction false} NothingHeld(tasks: seq<Task>, o: Id)
    requires forall i :: 0 <= i < |tasks| ==> tasks[i].Started? || tasks[i].Created?
    ensures InFlight(tasks, o) == 0.0
  {
    if tasks != [] {
      NothingHeld(tasks[..|tasks| - 1], o);
    }
  }

  // ---------- one createOrder request ----------

  /** The stock of o as the session sees it. */
  function SessionStock(docs: Store, writes: Store, o: Id): real
    requires o in docs.options
  {
    if o in writes.options then writes.options[o] else docs.options[o]
  }

  /** A createOrder session writes existing stocks and new order items, nothing else. */
  ghost predicate OrderWrites(docs: Store, writes: Store) {
    && writes.options.Keys <= docs.options.Keys
    && writes.items.Keys !! docs.items.Keys
    && writes == NO_WRITES.(options := writes.options, items := writes.items)
  }

  /** Taken from the stock = held by lines in progress + in the session's order items. */
  ghost predicate Balanced(docs: Store, p: Progress, o: Id) {
    && OrderWrites(docs, p.writes)
    && (p.error.None? && o in docs.options ==>
          SessionStock(docs, p.writes, o) + InFlight(p.tasks, o) + Sold(p.writes.items, o) == docs.options[o])
  }

  lemma ReserveKeepsBalance(docs: Store, writes: Store, item: OrderItem, o: Id)
    requires OrderWrites(docs, writes)
    ensures OrderWrites(docs, Reserve(docs, writes, item)) && Reserve(docs, writes, item).items == writes.items
    ensures o in docs.options ==>
              SessionStock(docs, Reserve(docs, writes, item), o) == SessionStock(docs, writes, o) - Part(item, o)
  {
  }

  lemma InsertKeepsBalance(docs: Store, writes: Store, k: Id, item: OrderItem, o: Id)
    requires OrderWrites(docs, writes) && k !in docs.items && k !in writes.items
    ensures var w := writes.(items := writes.items[k := item]);
            OrderWrites(docs, w) && w.options == writes.options &&
            Sold(w.items, o) == Sold(writes.items, o) + Part(item, o)
  {
    SoldInsert(writes.items, k, item, o);
  }

  /** A line moves on without a failure. */
  ghost predicate Moves(p: Progress, q: Progress, i: nat) {
    i < |p.tasks| == |q.tasks| && q.tasks == p.tasks[i := q.tasks[i]] && p.error.None? && q.error.None?
  }

  lemma FoundMoves(docs: Store, lines: seq<Line>, p: Progress, i: nat)
    requires |p.tasks| == |lines| && i < |lines| && p.tasks[i].Found? && Advance(docs, lines, p, i).error.None?
    ensures var q, item := Advance(docs, lines, p, i), p.tasks[i].item;
            Moves(p, q, i) && q.tasks[i] == Reserved(item) && q.writes == Reserve(docs, p.writes, item)
  {
  }

  lemma UnlistedMoves(docs: Store, lines: seq<Line>, p: Progress, i: nat)
    requires |p.tasks| == |lines| && i < |lines| && p.tasks[i].Unlisted? && Advance(docs, lines, p, i).error.None?
    ensures var q, item, k := Advance(docs, lines, p, i), p.tasks[i].item, lines[i].orderItem;
            && Moves(p, q, i) && q.tasks[i] == Created(item)
            && k !in docs.items && k !in p.writes.items
            && q.writes == p.writes.(items := p.writes.items[k := item])
  {
  }

  lemma OtherMoves(docs: Store, lines: seq<Line>, p: Progress, i: nat)
    requires |p.tasks| == |lines| && i < |lines| && !p.tasks[i].Found? && !p.tasks[i].Unlisted?
    requires Advance(docs, lines, p, i).error.None?
    ensures var q := Advance(docs, lines, p, i);
            && Moves(p, q, i) && q.writes == p.writes && (q.tasks[i].Created? ==> q.tasks[i] == p.tasks[i])
            && forall o :: Held(q.tasks[i], o) == Held(p.tasks[i], o)
  {
  }

  lemma FailureDropsWrites(docs: Store, lines: seq<Line>, p: Progress, i: nat)
    requires |p.tasks| == |lines| && OrderWrites(docs, p.writes) && Advance(docs, lines, p, i).error.Some?
    ensures OrderWrites(docs, Advance(docs, lines, p, i).writes)
  {
  }

  lemma AdvanceKeepsBalance(docs: Store, lines: seq<Line>, p: Progress, i: nat, o: Id)
    requires |p.tasks| == |lines| && Balanced(docs, p, o)
    ensures Balanced(docs, Advance(docs, lines, p, i), o)
  {
    var q := Advance(docs, lines, p, i);
    if q.error.Some? {
      FailureDropsWrites(docs, lines, p, i);
    } else if i < |lines| {
      InFlightUpdate(p.tasks, i, q.tasks[i], o);
      match p.tasks[i]
      case Found(item) =>
        FoundMoves(docs, lines, p, i);
        ReserveKeepsBalance(docs, p.writes, item, o);
      case Unlisted(item) =>
        UnlistedMoves(docs, lines, p, i);
        InsertKeepsBalance(docs, p.writes, lines[i].orderItem, item, o);
      case _ =>
        OtherMoves(docs, lines, p, i);
    }
  }

  lemma {:induction false} InterleaveKeepsBalance(docs: Store, lines: seq<Line>, p: Progress, schedule: seq<nat>, o: Id)
    requires |p.tasks| == |lines| && Balanced(docs, p, o)
    ensures Balanced(docs, Interleave(docs, lines, p, schedule), o)
  {
    if schedule != [] {
      var n := |schedule| - 1;
      InterleaveKeepsBalance(docs, lines, p, schedule[..n], o);
      AdvanceKeepsBalance(docs, lines, Interleave(docs, lines, p, schedule[..n]), schedule[n], o);
    }
  }

  /** What the account of option o amounts to: its stock and all that committed order items hold of it. */
  ghost function Account(w: World, o: Id): real
    requires o in w.docs.options
  {
    w.docs.options[o] + Sold(w.docs.items, o)
  }

  /**
   Whatever the interleaving of the lines and however far they come, an answered createOrder moves
   stock into order items and creates or loses none.
   */
  lemma CreateOrderConserves(w: World, id: Id, user: Id, lines: seq<Line>, schedule: seq<nat>, insertOk: bool, o: Id)
    requires o in w.docs.options
    ensures var w' := CreateOrderStep(w, id, user, lines, schedule, insertOk).0;
            o in w'.docs.options && Account(w', o) == Account(w, o)
  {
    var start := Begin(w, lines);
    NothingHeld(start.tasks, o);
    InterleaveKeepsBalance(w.docs, lines, start, schedule, o);
    var p := Interleave(w.docs, lines, start, schedule);
    if FinishOrder(w.docs, lines, p, id, user, insertOk).Ok? {
      NothingHeld(p.tasks, o);
      SoldUnion(w.docs.items, p.writes.items, o);
    }
  }

  /** A createOrder session, wherever it stands, has written stocks and new order items only. */
  lemma SessionWrites(w: World, lines: seq<Line>, schedule: seq<nat>)
    ensures OrderWrites(w.docs, Interleave(w.docs, lines, Begin(w, lines), schedule).writes)
  {
    NothingHeld(Begin(w, lines).tasks, 0);
    InterleaveKeepsBalance(w.docs, lines, Begin(w, lines), schedule, 0);
  }

  // ---------- runs ----------

  /** The events by which an administrator overwrites the stock of o. */
  predicate SetsStock(e: Event, o: Id) {
    e.UpdateProduct? && exists i :: 0 <= i < |e.update.updateOptions| &&
                                    e.update.updateOptions[i].0 == o && e.update.updateOptions[i].1.Some?
  }

  lemma {:induction false} InsertOptionsKeeps(options: map<Id, real>, added: seq<(Id, real)>, o: Id)
    requires o in options && InsertOptions(options, added).Ok?
    ensures o in InsertOptions(options, added).value && InsertOptions(options, added).value[o] == options[o]
    decreases |added|
  {
    if added != [] {
      InsertOptionsKeeps(options[added[0].0 := added[0].1], added[1..], o);
    }
  }

  lemma {:induction false} EditStocksKeeps(options: map<Id, real>, edits: seq<(Id, Option<real>)>, o: Id)
    requires o in options
    requires forall i :: 0 <= i < |edits| && edits[i].1.Some? ==> edits[i].0 != o
    ensures o in EditStocks(options, edits) && EditStocks(options, edits)[o] == options[o]
    decreases |edits|
  {
    if edits != [] {
      assert edits[0].1.Some? ==> edits[0].0 != o;
      if edits[0].0 in options && edits[0].1.Some? {
        EditStocksKeeps(options[edits[0].0 := edits[0].1.value], edits[1..], o);
      } else {
        EditStocksKeeps(options, edits[1..], o);
      }
    }
  }

  lemma UpdatedDocsConserve(docs: Store, id: Id, u: ProductUpdate, o: Id)
    requires id in docs.products && UpdatedDocs(docs, id, u).Ok? && o in docs.options
    requires forall i :: 0 <= i < |u.updateOptions| && u.updateOptions[i].1.Some? ==> u.updateOptions[i].0 != o
    ensures var later := UpdatedDocs(docs, id, u).value;
            o in later.options && later.options[o] == docs.options[o] && later.items == docs.items
  {
    var added := if u.newOptions.Some? then u.newOptions.value else [];
    InsertOptionsKeeps(docs.options, added, o);
    EditStocksKeeps(InsertOptions(docs.options, added).value, u.updateOptions, o);
  }

  lemma CatalogueConserves(w: World, e: Event, o: Id)
    requires (e.CreateProduct? || e.UpdateProduct?) && o in w.docs.options && !SetsStock(e, o)
    ensures o in Step(w, e).0.docs.options && Account(Step(w, e).0, o) == Account(w, o)
  {
    if e.CreateProduct? {
      if InsertOptions(w.docs.options, e.options).Ok? { InsertOptionsKeeps(w.docs.options, e.options, o); }
    } else if e.id in w.docs.products {
      var docs := Marked(w.docs, e.update.deleteOptions);
      if UpdatedDocs(docs, e.id, e.update).Ok? { UpdatedDocsConserve(docs, e.id, e.update, o); }
    }
  }

  predicate IsOrderRequest(e: Event) {
    e.CreateOrder? || e.ProcessOrder? || e.PaymentCallback? || e.RequestCancel? || e.CancelOrder?
  }

  /** At most the one order, its transactions and the refunds change; the order keeps its items and totals. */
  ghost predicate EditsOrder(w: World, w': World, id: Id) {
    && w' == w.(docs := w.docs.(orders := w'.docs.orders, transactions := w'.docs.transactions), refunds := w'.refunds)
    && (w'.docs.orders == w.docs.orders ||
        (id in w.docs.orders && id in w'.docs.orders && w'.docs.orders == w.docs.orders[id := w'.docs.orders[id]]
         && var o, o' := w.docs.orders[id], w'.docs.orders[id];
         o'.items == o.items && o'.totalCost == o.totalCost && o'.discountCost == o.discountCost))
  }

  lemma ProcessEditsOrder(w: World, id: Id, txnId: Id, fee: Option<real>, vnpay: bool, urlOk: bool)
    ensures EditsOrder(w, ProcessOrderStep(w, id, txnId, fee, vnpay, urlOk).0, id)
  {
  }

  lemma CallbackEditsOrder(w: World, id: Id, payDate: nat, success: bool)
    ensures EditsOrder(w, CallbackStep(w, id, payDate, success).0, id)
  {
  }

  lemma RequestCancelEditsOrder(w: World, id: Id, user: Id)
    ensures EditsOrder(w, RequestCancelStep(w, id, user).0, id)
  {
  }

  lemma CancelEditsOrder(w: World, id: Id, accept: bool, refundOk: bool)
    ensures EditsOrder(w, CancelStep(w, id, accept, refundOk).0, id)
  {
  }

  lemma LaterRequestEditsOrder(w: World, e: Event)
    requires IsOrderRequest(e) && !e.CreateOrder?
    ensures EditsOrder(w, Step(w, e).0, e.id)
  {
    match e
    case ProcessOrder(id, txnId, fee, vnpay, urlOk) => ProcessEditsOrder(w, id, txnId, fee, vnpay, urlOk);
    case PaymentCallback(id, payDate, success) => CallbackEditsOrder(w, id, payDate, success);
    case RequestCancel(id, user) => RequestCancelEditsOrder(w, id, user);
    case CancelOrder(id, accept, refundOk) => CancelEditsOrder(w, id, accept, refundOk);
  }

  lemma OthersLeaveStock(w: World, e: Event)
    requires !IsOrderRequest(e) && !e.CreateProduct? && !e.UpdateProduct?
    ensures Step(w, e).0.docs.options == w.docs.options && Step(w, e).0.docs.items == w.docs.items
  {
  }

  lemma StepConserves(w: World, e: Event, o: Id)
    requires o in w.docs.options && !SetsStock(e, o)
    ensures o in Step(w, e).0.docs.options && Account(Step(w, e).0, o) == Account(w, o)
  {
    if e.CreateOrder? {
      CreateOrderConserves(w, e.id, e.user, e.lines, e.schedule, e.insertOk, o);
    } else if e.CreateProduct? || e.UpdateProduct? {
      CatalogueConserves(w, e, o);
    } else if IsOrderRequest(e) {
      LaterRequestEditsOrder(w, e);
    } else {
      OthersLeaveStock(w, e);
    }
  }

  /** Stock conservation over every run in which nobody overwrites the stock by hand. */
  lemma {:induction false} StockConservation(w: World, events: seq<Event>, o: Id)
    requires o in w.docs.options
    requires forall i :: 0 <= i < |events| ==> !SetsStock(events[i], o)
    ensures o in Run(w, events).docs.options && Account(Run(w, events), o) == Account(w, o)
  {
    if events != [] {
      var n := |events| - 1;
      StockConservation(w, events[..n], o);
      StepConserves(Run(w, events[..n]), events[n], o);
    }
  }

  // ---------- the sold-out test ----------

  /** No view in the cart cache carries a stock or a deletion mark: neither is selected. */
  ghost predicate Unselected(views: map<Id, CartView>) {
    forall k :: k in views ==>
      && (views[k].product.Some? ==> views[k].product.value.isDeleted.None?)
      && (views[k].option.Some? ==> views[k].option.value.stock.None?)
  }

  lemma AdvanceNeverSoldOut(docs: Store, lines: seq<Line>, p: Progress, i: nat)
    requires |p.tasks| == |lines| && Unselected(p.views) && p.error != Some(PRODUCT_SOLD_OUT)
    ensures var q := Advance(docs, lines, p, i); Unselected(q.views) && q.error != Some(PRODUCT_SOLD_OUT)
  {
  }

  lemma {:induction false} InterleaveNeverSoldOut(docs: Store, lines: seq<Line>, p: Progress, schedule: seq<nat>)
    requires |p.tasks| == |lines| && Unselected(p.views) && p.error != Some(PRODUCT_SOLD_OUT)
    ensures var q := Interleave(docs, lines, p, schedule); Unselected(q.views) && q.error != Some(PRODUCT_SOLD_OUT)
  {
    if schedule != [] {
      var n := |schedule| - 1;
      InterleaveNeverSoldOut(docs, lines, p, schedule[..n]);
      AdvanceNeverSoldOut(docs, lines, Interleave(docs, lines, p, schedule[..n]), schedule[n]);
    }
  }

  lemma OthersKeepViews(w: World, e: Event)
    requires !e.CreateOrder?
    ensures forall k :: k in Step(w, e).0.views ==> k in w.views && Step(w, e).0.views[k] == w.views[k]
  {
  }

  lemma {:induction false} ViewsStayUnselected(events: seq<Event>)
    ensures Unselected(Run(EMPTY, events).views)
  {
    if events != [] {
      var n := |events| - 1;
      ViewsStayUnselected(events[..n]);
      var w, e := Run(EMPTY, events[..n]), events[n];
      if e.CreateOrder? {
        InterleaveNeverSoldOut(w.docs, e.lines, Begin(w, e.lines), e.schedule);
      } else {
        OthersKeepViews(w, e);
      }
    }
  }

  /** Because of the selection, the sold-out test of createOrder never fires in any reachable state. */
  lemma SoldOutNeverReported(events: seq<Event>, e: Event)
    requires e.CreateOrder?
    ensures Step(Run(EMPTY, events), e).1 != Rejected(PRODUCT_SOLD_OUT)
  {
    var w := Run(EMPTY, events);
    ViewsStayUnselected(events);
    InterleaveNeverSoldOut(w.docs, e.lines, Begin(w, e.lines), e.schedule);
  }

  /** Without a quantity, an item goes into the cart whatever is in stock, and counts as one piece. */
  lemma AbsentQuantityUnchecked(w: World, id: Id, product: Id, option: Id)
    requires product in w.docs.products && option in w.docs.options && id !in w.cart
    ensures var (w', reply) := Step(w, AddCartItem(id, CartPayload(product, option, None)));
            reply == Accepted && w'.cart == w.cart[id := CartItem(product, option, 1.0)]
  {
  }
}
