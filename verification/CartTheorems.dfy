/** What the cart shows in every reachable world: its items, of products and options that are stored. */
module CartTheorems {
  import opened Common
  import opened Ledger
  import opened StockTheorems
  import opened OrderTheorems
  import opened CartOrders

  ghost predicate ItemStored(docs: Store, c: CartItem) { c.product in docs.products && c.option in docs.options }

  /** A view shows the cart item, at a price that may have been replaced since. */
  ghost predicate Shows(v: CartView, c: CartItem) {
    && v.product.Some? && v.product.value.id == c.product
    && v.option.Some? && v.option.value.id == c.option
    && v.quantity == c.quantity
  }

  ghost predicate ViewsShow(cart: map<Id, CartItem>, views: map<Id, CartView>) {
    forall k :: k in views ==> k in cart && Shows(views[k], cart[k])
  }

  ghost predicate CartOk(w: World) {
    && (forall k :: k in w.cart ==> ItemStored(w.docs, w.cart[k]))
    && ViewsShow(w.cart, w.views)
    && w.stocks.Keys <= w.docs.options.Keys
  }

  // ---------- options are never removed ----------

  lemma {:induction false} InsertOptionsKeys(options: map<Id, real>, added: seq<(Id, real)>)
    requires InsertOptions(options, added).Ok?
    ensures options.Keys <= InsertOptions(options, added).value.Keys
    decreases |added|
  {
    if added != [] {
      InsertOptionsKeys(options[added[0].0 := added[0].1], added[1..]);
    }
  }

  lemma {:induction false} EditStocksKeys(options: map<Id, real>, edits: seq<(Id, Option<real>)>)
    ensures EditStocks(options, edits).Keys == options.Keys
    decreases |edits|
  {
    if edits != [] {
      if edits[0].0 in options && edits[0].1.Some? {
        assert options[edits[0].0 := edits[0].1.value].Keys == options.Keys;
        EditStocksKeys(options[edits[0].0 := edits[0].1.value], edits[1..]);
      } else {
        EditStocksKeys(options, edits[1..]);
      }
    }
  }

  ghost predicate CatalogueGrows(docs: Store, later: Store) {
    docs.products.Keys <= later.products.Keys && docs.options.Keys <= later.options.Keys
  }

  lemma UpdateGrows(docs: Store, id: Id, u: ProductUpdate)
    requires id in docs.products && UpdatedDocs(docs, id, u).Ok?
    ensures CatalogueGrows(docs, UpdatedDocs(docs, id, u).value)
  {
    var added := if u.newOptions.Some? then u.newOptions.value else [];
    InsertOptionsKeys(docs.options, added);
    EditStocksKeys(InsertOptions(docs.options, added).value, u.updateOptions);
    UpdatedShape(docs, id, u);
  }

  lemma UpdateKeepsCart(w: World, id: Id, u: ProductUpdate)
    requires CartOk(w)
    ensures CartOk(UpdateProductStep(w, id, u).0)
  {
    if id in w.docs.products {
      var docs := Marked(w.docs, u.deleteOptions);
      if UpdatedDocs(docs, id, u).Ok? { UpdateGrows(docs, id, u); }
    }
  }

  lemma CreateProductKeepsCart(w: World, e: Event)
    requires e.CreateProduct? && CartOk(w)
    ensures CartOk(Step(w, e).0)
  {
    if InsertOptions(w.docs.options, e.options).Ok? { InsertOptionsKeys(w.docs.options, e.options); }
  }

  // ---------- createOrder ----------

  lemma AdvanceShows(docs: Store, lines: seq<Line>, p: Progress, i: nat)
    requires |p.tasks| == |lines| && ViewsShow(p.cart, p.views)
    requires forall k :: k in p.cart ==> ItemStored(docs, p.cart[k])
    ensures var q := Advance(docs, lines, p, i);
            ViewsShow(q.cart, q.views) && forall k :: k in q.cart ==> k in p.cart && q.cart[k] == p.cart[k]
  {
  }

  lemma {:induction false} InterleaveShows(docs: Store, lines: seq<Line>, p: Progress, schedule: seq<nat>)
    requires |p.tasks| == |lines| && ViewsShow(p.cart, p.views)
    requires forall k :: k in p.cart ==> ItemStored(docs, p.cart[k])
    ensures var q := Interleave(docs, lines, p, schedule);
            ViewsShow(q.cart, q.views) && forall k :: k in q.cart ==> k in p.cart && q.cart[k] == p.cart[k]
  {
    if schedule != [] {
      var n := |schedule| - 1;
      InterleaveShows(docs, lines, p, schedule[..n]);
      AdvanceShows(docs, lines, Interleave(docs, lines, p, schedule[..n]), schedule[n]);
    }
  }

  lemma FinishGrows(docs: Store, lines: seq<Line>, p: Progress, id: Id, user: Id, insertOk: bool)
    requires FinishOrder(docs, lines, p, id, user, insertOk).Ok?
    ensures CatalogueGrows(docs, FinishOrder(docs, lines, p, id, user, insertOk).value)
  {
  }

  lemma CreateOrderKeepsCart(w: World, id: Id, user: Id, lines: seq<Line>, schedule: seq<nat>, insertOk: bool)
    requires CartOk(w)
    ensures CartOk(CreateOrderStep(w, id, user, lines, schedule, insertOk).0)
  {
    var p := Interleave(w.docs, lines, Begin(w, lines), schedule);
    InterleaveShows(w.docs, lines, Begin(w, lines), schedule);
    CreateShape(w, id, user, lines, schedule, insertOk);
    if FinishOrder(w.docs, lines, p, id, user, insertOk).Ok? { FinishGrows(w.docs, lines, p, id, user, insertOk); }
  }

  // ---------- all requests ----------

  lemma OthersKeepCart(w: World, e: Event)
    requires CartOk(w) && (e.AddCartItem? || e.RemoveCartItem? || e.ForgetView? || e.ForgetStock?
                           || e.SafeDeleteProduct? || e.CreateCollection?)
    ensures CartOk(Step(w, e).0)
  {
  }

  lemma StepKeepsCart(w: World, e: Event)
    requires CartOk(w)
    ensures CartOk(Step(w, e).0)
  {
    if e.CreateOrder? {
      CreateOrderKeepsCart(w, e.id, e.user, e.lines, e.schedule, e.insertOk);
    } else if IsOrderRequest(e) {
      LaterRequestEditsOrder(w, e);
    } else if e.UpdateProduct? {
      UpdateKeepsCart(w, e.id, e.update);
    } else if e.CreateProduct? {
      CreateProductKeepsCart(w, e);
    } else {
      OthersKeepCart(w, e);
    }
  }

  lemma {:induction false} ReachableCart(events: seq<Event>)
    ensures CartOk(Run(EMPTY, events))
  {
    if events != [] {
      var n := |events| - 1;
      ReachableCart(events[..n]);
      StepKeepsCart(Run(EMPTY, events[..n]), events[n]);
    }
  }

  /**
   In every reachable world createOrder sees exactly the items that are in the cart, with their product,
   option and quantity, and a price the product has or had; the price it has, unless the view is cached.
   */
  lemma CartIsSeen(events: seq<Event>, id: Id)
    ensures var w := Run(EMPTY, events);
            && (ViewOf(w, id).Some? <==> id in w.cart)
            && (id in w.cart ==>
                  && Shows(ViewOf(w, id).value, w.cart[id]) && ItemStored(w.docs, w.cart[id])
                  && ViewOf(w, id).value.product.value.currentCost in w.docs.products[w.cart[id].product].costs
                  && (id !in w.views ==> ViewOf(w, id).value.product.value.currentCost
                                         == w.docs.products[w.cart[id].product].currentCost))
  {
    var w := Run(EMPTY, events);
    ReachableCart(events);
    ReachableInv(events);
    if id in w.cart {
      assert ItemStored(w.docs, w.cart[id]);
      if id in w.views {
        assert Shows(w.views[id], w.cart[id]);
        assert PricedBy(w.docs, w.views[id].product.value.id, w.views[id].product.value.currentCost);
      } else {
        var costs := w.docs.products[w.cart[id].product].costs;
        assert costs[|costs| - 1] in costs;
      }
    }
  }

  /** So an accepted order has, for every line, the product, option and quantity of the line's cart item. */
  lemma OrderHasTheCart(events: seq<Event>, id: Id, user: Id, lines: seq<Line>, schedule: seq<nat>, insertOk: bool)
    requires Step(Run(EMPTY, events), CreateOrder(id, user, lines, schedule, insertOk)).1 == Accepted
    ensures var w := Run(EMPTY, events);
            var w' := Step(w, CreateOrder(id, user, lines, schedule, insertOk)).0;
            && id in w'.docs.orders && w'.docs.orders[id].user == user
            && |w'.docs.orders[id].items| == |lines|
            && forall i :: 0 <= i < |lines| ==> HasItem(w, w', lines[i], w'.docs.orders[id].items[i])
  {
    var w := Run(EMPTY, events);
    ReachableInv(events);
    OrderIsTheCart(w, id, user, lines, schedule, insertOk);
    var w' := CreateOrderStep(w, id, user, lines, schedule, insertOk).0;
    assert Step(w, CreateOrder(id, user, lines, schedule, insertOk)).0 == w';
    forall i | 0 <= i < |lines| ensures HasItem(w, w', lines[i], w'.docs.orders[id].items[i]) {
      CartIsSeen(events, lines[i].cartItem);
      assert Bought(w, lines[i].cartItem, w'.docs.items[lines[i].orderItem]);
    }
  }

  /** The order item of a line: what the cart item was, at a price the product has or had; the cart item is gone. */
  ghost predicate HasItem(w: World, w': World, line: Line, k: Id) {
    && k == line.orderItem && k in w'.docs.items && line.cartItem in w.cart && line.cartItem !in w'.cart
    && w'.docs.items[k].product == w.cart[line.cartItem].product
    && w'.docs.items[k].option == w.cart[line.cartItem].option
    && w'.docs.items[k].quantity == w.cart[line.cartItem].quantity
    && w.cart[line.cartItem].product in w.docs.products
    && w'.docs.items[k].cost in w.docs.products[w.cart[line.cartItem].product].costs
    && (line.cartItem !in w.views ==>
          w'.docs.items[k].cost == w.docs.products[w.cart[line.cartItem].product].currentCost)
  }
}
