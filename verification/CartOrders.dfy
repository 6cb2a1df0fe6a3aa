/**
 What an accepted order contains: exactly what its lines showed of the cart when the request began,
 however they interleave; and what that does to the stock.
 */
module CartOrders {
  import opened Common
  import opened Ledger
  import opened StockTheorems
  import opened OrderTheorems

  // ---------- what the lines ask for ----------

  /** What createOrder sees of a cart item: the cached view, or else the item populated now. */
  function ViewOf(w: World, id: Id): Option<CartView> {
    if id in w.views then Some(w.views[id])
    else if id in w.cart then Some(Populate(w.docs, w.cart[id]))
    else None
  }

  /** The order item has the product, option, quantity and cost that the cart item shows. */
  ghost predicate Bought(w: World, id: Id, item: OrderItem) {
    && ViewOf(w, id).Some?
    && var v := ViewOf(w, id).value;
    && v.product.Some? && item.product == v.product.value.id && item.cost == v.product.value.currentCost
    && v.option.Some? && item.option == v.option.value.id
    && item.quantity == v.quantity
  }

  /** The quantity of option o that the lines ask for. */
  function Requested(w: World, lines: seq<Line>, o: Id): real {
    if lines == [] then 0.0 else
    var v := ViewOf(w, lines[|lines| - 1].cartItem);
    Requested(w, lines[..|lines| - 1], o)
    + if v.Some? && v.value.option.Some? && v.value.option.value.id == o then v.value.quantity else 0.0
  }

  // ---------- every line works on its own cart item ----------

  ghost predicate Gone(t: Task) { t.Unlisted? || t.Created? }

  /** The cart loses the items of lines only, and what is cached of an item goes with it. */
  ghost predicate FromCart(w: World, lines: seq<Line>, p: Progress) {
    && |p.tasks| == |lines|
    && (forall k :: k in p.cart ==> k in w.cart && p.cart[k] == w.cart[k])
    && (forall k :: k in w.cart && k !in p.cart ==> exists i :: 0 <= i < |lines| && lines[i].cartItem == k)
    && (forall k :: k in p.views ==> ViewOf(w, k) == Some(p.views[k]))
    && (forall k :: k in p.cart && k !in p.views ==> k !in w.views)
    && (forall i :: 0 <= i < |lines| && !p.tasks[i].Started? && !p.tasks[i].Failed? ==>
          Bought(w, lines[i].cartItem, p.tasks[i].item))
    && (forall i :: 0 <= i < |lines| && Gone(p.tasks[i]) ==> lines[i].cartItem !in p.cart)
  }

  lemma FoundIsBought(w: World, lines: seq<Line>, p: Progress, id: Id)
    requires FromCart(w, lines, p)
    ensures var (found, views) := FindCartItem(w.docs, p.cart, p.views, id);
            && (forall k :: k in views ==> ViewOf(w, k) == Some(views[k]))
            && (forall k :: k in p.cart && k !in views ==> k !in w.views)
            && (CheckCartItem(found).Ok? ==> Bought(w, id, CheckCartItem(found).value))
  {
    var (found, views) := FindCartItem(w.docs, p.cart, p.views, id);
    if found.Some? {
      assert ViewOf(w, id) == found;
    }
  }

  /** A line that moves on, fails, or reads its cart item, with the cart as it was. */
  lemma MoveFromCart(w: World, lines: seq<Line>, p: Progress, q: Progress, i: nat)
    requires FromCart(w, lines, p) && i < |lines| == |q.tasks|
    requires q.cart == p.cart && q.tasks == p.tasks[i := q.tasks[i]]
    requires forall k :: k in q.views ==> ViewOf(w, k) == Some(q.views[k])
    requires forall k :: k in q.cart && k !in q.views ==> k !in w.views
    requires q.tasks[i].Failed? || (!q.tasks[i].Started? && Bought(w, lines[i].cartItem, q.tasks[i].item))
    requires Gone(q.tasks[i]) ==> Gone(p.tasks[i])
    ensures FromCart(w, lines, q)
  {
    assert forall j :: 0 <= j < |lines| && j != i ==> q.tasks[j] == p.tasks[j];
  }

  lemma UnlistFromCart(w: World, lines: seq<Line>, p: Progress, i: nat)
    requires FromCart(w, lines, p) && i < |lines| && p.tasks[i].Reserved?
    ensures FromCart(w, lines, Advance(w.docs, lines, p, i))
  {
    var q := Advance(w.docs, lines, p, i);
    assert q.cart == p.cart - {lines[i].cartItem} && q.tasks == p.tasks[i := Unlisted(p.tasks[i].item)];
    assert forall j :: 0 <= j < |lines| && j != i ==> q.tasks[j] == p.tasks[j];
    assert forall k :: k in q.views ==> k in p.views && q.views[k] == p.views[k];
  }

  lemma StartFromCart(w: World, lines: seq<Line>, p: Progress, i: nat)
    requires FromCart(w, lines, p) && i < |lines| && p.tasks[i].Started?
    ensures FromCart(w, lines, Advance(w.docs, lines, p, i))
  {
    FoundIsBought(w, lines, p, lines[i].cartItem);
    MoveFromCart(w, lines, p, Advance(w.docs, lines, p, i), i);
  }

  lemma ReserveFromCart(w: World, lines: seq<Line>, p: Progress, i: nat)
    requires FromCart(w, lines, p) && i < |lines| && p.tasks[i].Found?
    ensures FromCart(w, lines, Advance(w.docs, lines, p, i))
  {
    var q := Advance(w.docs, lines, p, i);
    assert q.views == p.views && (q.tasks[i] == Failed || q.tasks[i] == Reserved(p.tasks[i].item));
    MoveFromCart(w, lines, p, q, i);
  }

  lemma InsertShape(docs: Store, lines: seq<Line>, p: Progress, i: nat)
    requires |p.tasks| == |lines| && i < |lines| && p.tasks[i].Unlisted?
    ensures var q := Advance(docs, lines, p, i);
            && q.views == p.views && q.cart == p.cart && q.tasks == p.tasks[i := q.tasks[i]]
            && (q.tasks[i] == Failed || q.tasks[i] == Created(p.tasks[i].item))
  {
  }

  lemma InsertFromCart(w: World, lines: seq<Line>, p: Progress, i: nat)
    requires FromCart(w, lines, p) && i < |lines| && p.tasks[i].Unlisted?
    ensures FromCart(w, lines, Advance(w.docs, lines, p, i))
  {
    var q := Advance(w.docs, lines, p, i);
    InsertShape(w.docs, lines, p, i);
    MoveFromCart(w, lines, p, q, i);
  }

  lemma AdvanceFromCart(w: World, lines: seq<Line>, p: Progress, i: nat)
    requires FromCart(w, lines, p)
    ensures FromCart(w, lines, Advance(w.docs, lines, p, i))
  {
    if i < |lines| {
      match p.tasks[i]
      case Started => StartFromCart(w, lines, p, i);
      case Reserved(_) => UnlistFromCart(w, lines, p, i);
      case Found(_) => ReserveFromCart(w, lines, p, i);
      case Unlisted(_) => InsertFromCart(w, lines, p, i);
      case Created(_) => assert Advance(w.docs, lines, p, i) == p;
      case Failed => assert Advance(w.docs, lines, p, i) == p;
    }
  }

  lemma {:induction false} InterleaveFromCart(w: World, lines: seq<Line>, p: Progress, schedule: seq<nat>)
    requires FromCart(w, lines, p)
    ensures FromCart(w, lines, Interleave(w.docs, lines, p, schedule))
  {
    if schedule != [] {
      var n := |schedule| - 1;
      InterleaveFromCart(w, lines, p, schedule[..n]);
      AdvanceFromCart(w, lines, Interleave(w.docs, lines, p, schedule[..n]), schedule[n]);
    }
  }

  lemma FinishContents(docs: Store, lines: seq<Line>, p: Progress, id: Id, user: Id)
    requires InProgress(docs, lines, p) && FinishOrder(docs, lines, p, id, user, true).Ok?
    ensures AllCreated(p.tasks)
    ensures var after := FinishOrder(docs, lines, p, id, user, true).value;
            && id in after.orders && after.orders[id].items == ItemIds(lines)
            && after.orders[id].user == user && after.orders[id].status == OrderStatus.PENDING
            && forall i :: 0 <= i < |lines| ==>
                 lines[i].orderItem in after.items && after.items[lines[i].orderItem] == p.tasks[i].item
  {
    FinishShape(docs, lines, p, id, user);
  }

  lemma CartAfterwards(w: World, lines: seq<Line>, p: Progress)
    requires FromCart(w, lines, p) && AllCreated(p.tasks)
    ensures forall k :: k in p.cart <==> k in w.cart && forall i :: 0 <= i < |lines| ==> lines[i].cartItem != k
    ensures forall i :: 0 <= i < |lines| ==> Bought(w, lines[i].cartItem, p.tasks[i].item)
  {
    assert forall i :: 0 <= i < |lines| ==> Gone(p.tasks[i]);
  }

  /**
   The committed order is the cart: one order item per line and in the order of the lines, each with the
   product, option, quantity and cost its cart item showed; and exactly the lines' items have left the cart.
   */
  ghost predicate IsCartOrder(w: World, id: Id, user: Id, lines: seq<Line>, docs: Store, cart: map<Id, CartItem>) {
    && id in docs.orders && docs.orders[id].items == ItemIds(lines)
    && docs.orders[id].user == user && docs.orders[id].status == OrderStatus.PENDING
    && (forall i :: 0 <= i < |lines| ==>
          lines[i].orderItem in docs.items && Bought(w, lines[i].cartItem, docs.items[lines[i].orderItem]))
    && (forall k :: k in cart <==> k in w.cart && forall i :: 0 <= i < |lines| ==> lines[i].cartItem != k)
  }

  lemma CommittedIsTheCart(w: World, id: Id, user: Id, lines: seq<Line>, p: Progress)
    requires InProgress(w.docs, lines, p) && FromCart(w, lines, p)
    requires FinishOrder(w.docs, lines, p, id, user, true).Ok?
    ensures IsCartOrder(w, id, user, lines, FinishOrder(w.docs, lines, p, id, user, true).value, p.cart)
  {
    FinishContents(w.docs, lines, p, id, user);
    CartAfterwards(w, lines, p);
  }

  lemma AcceptedIsFinished(w: World, id: Id, user: Id, lines: seq<Line>, schedule: seq<nat>, insertOk: bool)
    requires CreateOrderStep(w, id, user, lines, schedule, insertOk).1 == Accepted
    ensures var p := Interleave(w.docs, lines, Begin(w, lines), schedule);
            && FinishOrder(w.docs, lines, p, id, user, true).Ok?
            && CreateOrderStep(w, id, user, lines, schedule, insertOk).0
               == w.(docs := FinishOrder(w.docs, lines, p, id, user, true).value, cart := p.cart, views := p.views)
  {
  }

  /** Every accepted createOrder commits the cart's order, however its lines interleave. */
  lemma OrderIsTheCart(w: World, id: Id, user: Id, lines: seq<Line>, schedule: seq<nat>, insertOk: bool)
    requires Inv(w) && CreateOrderStep(w, id, user, lines, schedule, insertOk).1 == Accepted
    ensures var w' := CreateOrderStep(w, id, user, lines, schedule, insertOk).0;
            IsCartOrder(w, id, user, lines, w'.docs, w'.cart)
  {
    InterleaveFromCart(w, lines, Begin(w, lines), schedule);
    InterleaveInProgress(w.docs, lines, Begin(w, lines), schedule);
    AcceptedIsFinished(w, id, user, lines, schedule, insertOk);
    CommittedIsTheCart(w, id, user, lines, Interleave(w.docs, lines, Begin(w, lines), schedule));
  }

  // ---------- stock ----------

  /** The quantity of option o in the order item a line has created. */
  function Listed(t: Task, o: Id): real { if t.Created? then Part(t.item, o) else 0.0 }

  function AllListed(tasks: seq<Task>, o: Id): real {
    if tasks == [] then 0.0 else AllListed(tasks[..|tasks| - 1], o) + Listed(tasks[|tasks| - 1], o)
  }

  lemma {:induction false} AllListedUpdate(tasks: seq<Task>, i: nat, t: Task, o: Id)
    requires i < |tasks|
    ensures AllListed(tasks[i := t], o) == AllListed(tasks, o) - Listed(tasks[i], o) + Listed(t, o)
  {
    var n := |tasks| - 1;
    if i == n {
      assert tasks[i := t][..n] == tasks[..n];
    } else {
      AllListedUpdate(tasks[..n], i, t, o);
      assert tasks[i := t][..n] == tasks[..n][i := t];
    }
  }

  /** The session's order items are those of the created lines, each counted once. */
  ghost predicate Recorded(docs: Store, p: Progress, o: Id) {
    && OrderWrites(docs, p.writes)
    && (p.error.None? ==> AllListed(p.tasks, o) == Sold(p.writes.items, o))
  }

  lemma AdvanceKeepsRecorded(docs: Store, lines: seq<Line>, p: Progress, i: nat, o: Id)
    requires |p.tasks| == |lines| && Recorded(docs, p, o)
    ensures Recorded(docs, Advance(docs, lines, p, i), o)
  {
    var q := Advance(docs, lines, p, i);
    if q.error.Some? {
      FailureDropsWrites(docs, lines, p, i);
    } else if i < |lines| {
      AllListedUpdate(p.tasks, i, q.tasks[i], o);
      match p.tasks[i]
      case Found(item) =>
        FoundMoves(docs, lines, p, i);
        ReserveKeepsBalance(docs, p.writes, item, o);
      case Unlisted(item) =>
        UnlistedMoves(docs, lines, p, i);
        InsertKeepsBalance(docs, p.writes, lines[i].orderItem, item, o);
      case _ =>
        OtherMoves(docs, lines, p, i);
    }
  }

  lemma {:induction false} InterleaveKeepsRecorded(docs: Store, lines: seq<Line>, p: Progress, schedule: seq<nat>,
                                                     o: Id)
    requires |p.tasks| == |lines| && Recorded(docs, p, o)
    ensures Recorded(docs, Interleave(docs, lines, p, schedule), o)
  {
    if schedule != [] {
      var n := |schedule| - 1;
      InterleaveKeepsRecorded(docs, lines, p, schedule[..n], o);
      AdvanceKeepsRecorded(docs, lines, Interleave(docs, lines, p, schedule[..n]), schedule[n], o);
    }
  }

  lemma {:induction false} NothingListed(tasks: seq<Task>, o: Id)
    requires forall i :: 0 <= i < |tasks| ==> tasks[i].Started?
    ensures AllListed(tasks, o) == 0.0
  {
    if tasks != [] {
      NothingListed(tasks[..|tasks| - 1], o);
    }
  }

  lemma {:induction false} ListedIsRequested(w: World, lines: seq<Line>, tasks: seq<Task>, o: Id)
    requires |tasks| == |lines| && AllCreated(tasks)
    requires forall i :: 0 <= i < |lines| ==> Bought(w, lines[i].cartItem, tasks[i].item)
    ensures AllListed(tasks, o) == Requested(w, lines, o)
  {
    if lines != [] {
      var n := |lines| - 1;
      assert Bought(w, lines[n].cartItem, tasks[n].item);
      ListedIsRequested(w, lines[..n], tasks[..n], o);
    }
  }

  lemma CommittedStock(docs: Store, lines: seq<Line>, p: Progress, id: Id, user: Id, o: Id)
    requires OrderWrites(docs, p.writes) && FinishOrder(docs, lines, p, id, user, true).Ok? && o in docs.options
    ensures var options := FinishOrder(docs, lines, p, id, user, true).value.options;
            o in options && options[o] == SessionStock(docs, p.writes, o)
  {
  }

  /** Once all lines are through, the session holds as much of o in order items as the lines asked for. */
  lemma SoldIsRequested(w: World, lines: seq<Line>, schedule: seq<nat>, o: Id)
    requires var p := Interleave(w.docs, lines, Begin(w, lines), schedule); p.error.None? && AllCreated(p.tasks)
    ensures Sold(Interleave(w.docs, lines, Begin(w, lines), schedule).writes.items, o) == Requested(w, lines, o)
  {
    var start, p := Begin(w, lines), Interleave(w.docs, lines, Begin(w, lines), schedule);
    NothingListed(start.tasks, o);
    InterleaveKeepsRecorded(w.docs, lines, start, schedule, o);
    InterleaveFromCart(w, lines, start, schedule);
    CartAfterwards(w, lines, p);
    ListedIsRequested(w, lines, p.tasks, o);
  }

  /** Once all lines are through, what the session holds of o has left the stock. */
  lemma TakenIsSold(w: World, lines: seq<Line>, schedule: seq<nat>, o: Id)
    requires var p := Interleave(w.docs, lines, Begin(w, lines), schedule); p.error.None? && AllCreated(p.tasks)
    requires o in w.docs.options
    ensures var writes := Interleave(w.docs, lines, Begin(w, lines), schedule).writes;
            && OrderWrites(w.docs, writes)
            && SessionStock(w.docs, writes, o) + Sold(writes.items, o) == w.docs.options[o]
  {
    NothingHeld(Begin(w, lines).tasks, o);
    InterleaveKeepsBalance(w.docs, lines, Begin(w, lines), schedule, o);
    NothingHeld(Interleave(w.docs, lines, Begin(w, lines), schedule).tasks, o);
  }

  /**
   An accepted order lowers the stock of every option by what its lines asked for before it began; so
   the stock is not negative afterwards exactly when no more than that was asked for.
   */
  lemma NonNegativeExactlyWhenInStock(w: World, id: Id, user: Id, lines: seq<Line>, schedule: seq<nat>, insertOk: bool,
                                      o: Id)
    requires o in w.docs.options && CreateOrderStep(w, id, user, lines, schedule, insertOk).1 == Accepted
    ensures var options := CreateOrderStep(w, id, user, lines, schedule, insertOk).0.docs.options;
            && o in options && options[o] == w.docs.options[o] - Requested(w, lines, o)
            && (options[o] >= 0.0 <==> Requested(w, lines, o) <= w.docs.options[o])
  {
    AcceptedIsFinished(w, id, user, lines, schedule, insertOk);
    SoldIsRequested(w, lines, schedule, o);
    TakenIsSold(w, lines, schedule, o);
    CommittedStock(w.docs, lines, Interleave(w.docs, lines, Begin(w, lines), schedule), id, user, o);
  }
}
