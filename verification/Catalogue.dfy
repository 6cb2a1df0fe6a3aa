/**
 What the requests about products and the cart do, told document by document: when they are accepted, and
 what is stored afterwards.
 */
module Catalogue {
  import opened Common
  import opened Ledger
  import opened StockTheorems
  import opened OrderTheorems
  import opened CartTheorems

  // ---------- new options ----------

  /** The ids of new options are free and differ. */
  ghost predicate OptionsFree(options: map<Id, real>, added: seq<(Id, real)>) {
    && (forall i :: 0 <= i < |added| ==> added[i].0 !in options)
    && (forall i, j :: 0 <= i < j < |added| ==> added[i].0 != added[j].0)
  }

  /** All options from before, and the new ones with their stocks. */
  ghost predicate OptionsAdded(options: map<Id, real>, added: seq<(Id, real)>, later: map<Id, real>) {
    && (forall o :: o in options ==> o in later && later[o] == options[o])
    && (forall i :: 0 <= i < |added| ==> added[i].0 in later && later[added[i].0] == added[i].1)
    && (forall o :: o in later ==> o in options || exists i :: 0 <= i < |added| && added[i].0 == o)
  }

  lemma {:induction false} InsertOptionsExactly(options: map<Id, real>, added: seq<(Id, real)>)
    ensures InsertOptions(options, added).Ok? <==> OptionsFree(options, added)
    ensures InsertOptions(options, added).Ok? ==> OptionsAdded(options, added, InsertOptions(options, added).value)
    decreases |added|
  {
    if added != [] && added[0].0 !in options {
      var more, rest := options[added[0].0 := added[0].1], added[1..];
      InsertOptionsExactly(more, rest);
      FreeFirst(options, added);
      if InsertOptions(options, added).Ok? {
        AddedFirst(options, added, InsertOptions(options, added).value);
      }
    }
  }

  lemma FreeFirst(options: map<Id, real>, added: seq<(Id, real)>)
    requires added != [] && added[0].0 !in options
    ensures OptionsFree(options, added) <==> OptionsFree(options[added[0].0 := added[0].1], added[1..])
  {
    var more, rest := options[added[0].0 := added[0].1], added[1..];
    if OptionsFree(more, rest) {
      forall i, j | 0 <= i < j < |added| ensures added[i].0 != added[j].0 {
        assert added[j] == rest[j - 1];
        if i > 0 { assert added[i] == rest[i - 1]; }
      }
      forall i | 0 <= i < |added| ensures added[i].0 !in options {
        if i > 0 { assert added[i] == rest[i - 1]; }
      }
    }
  }

  lemma AddedFirst(options: map<Id, real>, added: seq<(Id, real)>, later: map<Id, real>)
    requires added != [] && added[0].0 !in options
    requires OptionsAdded(options[added[0].0 := added[0].1], added[1..], later)
    ensures OptionsAdded(options, added, later)
  {
    var more, rest := options[added[0].0 := added[0].1], added[1..];
    assert added[0].0 in more;
    forall i | 0 <= i < |added| ensures added[i].0 in later && later[added[i].0] == added[i].1 {
      if i > 0 { assert added[i] == rest[i - 1]; }
    }
    forall o | o in later ensures o in options || exists i :: 0 <= i < |added| && added[i].0 == o {
      if o !in more {
        var i :| 0 <= i < |rest| && rest[i].0 == o;
        assert added[i + 1].0 == o;
      } else if o !in options {
        assert added[0].0 == o;
      }
    }
  }

  // ---------- edited stocks ----------

  /** The entry at position i is the last one that sets the stock of o. */
  ghost predicate SetsLast(edits: seq<(Id, Option<real>)>, o: Id, i: nat) {
    && i < |edits| && edits[i].0 == o && edits[i].1.Some?
    && forall j :: i < j < |edits| && edits[j].0 == o ==> edits[j].1.None?
  }

  ghost predicate SetsNone(edits: seq<(Id, Option<real>)>, o: Id) {
    forall j :: 0 <= j < |edits| && edits[j].0 == o ==> edits[j].1.None?
  }

  /** Each option ends with the stock that was set for it last, or keeps what it had. */
  lemma {:induction false} EditStocksExactly(options: map<Id, real>, edits: seq<(Id, Option<real>)>, o: Id)
    requires o in options
    ensures o in EditStocks(options, edits)
    ensures SetsNone(edits, o) ==> EditStocks(options, edits)[o] == options[o]
    ensures forall i: nat :: SetsLast(edits, o, i) ==> EditStocks(options, edits)[o] == edits[i].1.value
    decreases |edits|
  {
    if edits != [] {
      var rest := edits[1..];
      var more := if edits[0].0 in options && edits[0].1.Some? then options[edits[0].0 := edits[0].1.value]
                  else options;
      EditStocksExactly(more, rest, o);
      forall i: nat | SetsLast(edits, o, i) ensures EditStocks(options, edits)[o] == edits[i].1.value {
        if i > 0 {
          assert SetsLast(rest, o, i - 1);
        } else {
          forall j | 0 <= j < |rest| && rest[j].0 == o ensures rest[j].1.None? { assert rest[j] == edits[j + 1]; }
          assert SetsNone(rest, o);
        }
      }
      if SetsNone(edits, o) {
        forall j | 0 <= j < |rest| && rest[j].0 == o ensures rest[j].1.None? { assert rest[j] == edits[j + 1]; }
        assert edits[0].0 == o ==> edits[0].1.None?;
      }
    }
  }

  // ---------- images ----------

  /** Removing images takes every occurrence of a named one and nothing else. */
  lemma {:induction false} WithoutExactly(images: seq<string>, gone: seq<string>, x: string)
    ensures multiset(Without(images, gone))[x] == if x in gone then 0 else multiset(images)[x]
  {
    if images != [] {
      WithoutExactly(images[1..], gone, x);
      assert images == [images[0]] + images[1..];
    }
  }

  // ---------- products ----------

  /** What createProduct stores: its cost, its options, the product with both, and its place in the collection. */
  ghost predicate ProductStored(docs: Store, later: Store, e: Event)
    requires e.CreateProduct? && e.collection.Some?
  {
    && e.costId in later.costs && later.costs[e.costId] == e.cost
    && OptionsAdded(docs.options, e.options, later.options)
    && e.id in later.products
    && var p := later.products[e.id];
    && p.currentCost == e.costId && p.costs == [e.costId] && p.images == e.images && !p.isDeleted
    && |p.options| == |e.options| && (forall i :: 0 <= i < |e.options| ==> p.options[i] == e.options[i].0)
    && (forall k :: k in docs.collections ==>
          && k in later.collections
          && later.collections[k] == docs.collections[k] + if k == e.collection.value then [e.id] else [])
    && later.collections.Keys == docs.collections.Keys
    && (forall k :: k in docs.costs ==> k in later.costs && later.costs[k] == docs.costs[k])
    && (forall k :: k in docs.products ==> k in later.products && later.products[k] == docs.products[k])
  }

  /** createProduct, exactly: when it is accepted, and what is then stored; otherwise nothing changes. */
  lemma CreateProductExactly(w: World, e: Event)
    requires e.CreateProduct?
    ensures var (w', reply) := Step(w, e);
            && (reply == Accepted <==>
                  && e.costId !in w.docs.costs && e.id !in w.docs.products && e.collection.Some?
                  && OptionsFree(w.docs.options, e.options))
            && (reply == Accepted ==> ProductStored(w.docs, w'.docs, e))
            && (reply != Accepted ==> w' == w)
  {
    InsertOptionsExactly(w.docs.options, e.options);
    CreateProductShape(w, e);
  }

  ghost predicate NewOptionsFree(docs: Store, u: ProductUpdate) {
    u.newOptions.Some? ==> OptionsFree(docs.options, u.newOptions.value)
  }

  /** The stock of an option after an update: set last by it, or given to it as a new option, or as before. */
  ghost predicate StockUpdated(docs: Store, later: Store, u: ProductUpdate, o: Id) {
    && (o in docs.options ==> o in later.options)
    && (forall i: nat :: o in later.options && SetsLast(u.updateOptions, o, i) ==>
          later.options[o] == u.updateOptions[i].1.value)
    && (o in docs.options && SetsNone(u.updateOptions, o) ==> later.options[o] == docs.options[o])
    && (o in later.options && o !in docs.options ==> u.newOptions.Some?)
    && (u.newOptions.Some? ==> forall i :: 0 <= i < |u.newOptions.value| && u.newOptions.value[i].0 == o ==>
          o in later.options && (SetsNone(u.updateOptions, o) ==> later.options[o] == u.newOptions.value[i].1))
  }

  /** The product after an update: the new price comes last and is current, the new options come last. */
  ghost predicate ProductUpdated(p: Product, q: Product, u: ProductUpdate) {
    && q.isDeleted == p.isDeleted
    && (u.newCost.None? ==> q.costs == p.costs && q.currentCost == p.currentCost)
    && (u.newCost.Some? ==> q.costs == p.costs + [u.newCost.value.0] && q.currentCost == u.newCost.value.0)
    && (u.newOptions.None? ==> q.options == p.options)
    && (u.newOptions.Some? ==>
          && |q.options| == |p.options| + |u.newOptions.value|
          && (forall i :: 0 <= i < |p.options| ==> q.options[i] == p.options[i])
          && (forall i :: 0 <= i < |u.newOptions.value| ==>
                q.options[|p.options| + i] == u.newOptions.value[i].0))
    && (u.newImages.Some? ==> q.images == p.images + u.newImages.value)
    && (u.newImages.None? && u.deleteImages.None? ==> q.images == p.images)
    && (u.newImages.None? && u.deleteImages.Some? ==>
          forall x :: multiset(q.images)[x] == if x in u.deleteImages.value then 0 else multiset(p.images)[x])
  }

  lemma UpdatedProductExactly(p: Product, u: ProductUpdate)
    requires !(u.newImages.Some? && u.deleteImages.Some?)
    ensures ProductUpdated(p, UpdatedProduct(p, u), u)
  {
    if u.deleteImages.Some? {
      forall x {
        WithoutExactly(p.images, u.deleteImages.value, x);
      }
    }
  }

  lemma StockUpdatedExactly(docs: Store, id: Id, u: ProductUpdate, o: Id)
    requires id in docs.products && UpdatedDocs(docs, id, u).Ok?
    ensures StockUpdated(docs, UpdatedDocs(docs, id, u).value, u, o)
  {
    var added := if u.newOptions.Some? then u.newOptions.value else [];
    var inserted := InsertOptions(docs.options, added).value;
    InsertOptionsExactly(docs.options, added);
    EditStocksKeys(inserted, u.updateOptions);
    if o in inserted { EditStocksExactly(inserted, u.updateOptions, o); }
    UpdatedShape(docs, id, u);
  }

  lemma UpdateAnswer(w: World, id: Id, u: ProductUpdate)
    ensures UpdateProductStep(w, id, u).1 == Accepted <==>
              && id in w.docs.products
              && (u.newCost.Some? ==> u.newCost.value.0 !in w.docs.costs)
              && NewOptionsFree(w.docs, u)
              && !(u.newImages.Some? && u.deleteImages.Some?)
  {
    InsertOptionsExactly(w.docs.options, if u.newOptions.Some? then u.newOptions.value else []);
  }

  /**
   updateProduct, exactly: when it is accepted, and then the product, every option's stock and the prices;
   the cached stocks of all options it names are dropped, and the named stored options marked, in any case.
   */
  lemma UpdateProductExactly(w: World, id: Id, u: ProductUpdate)
    ensures var (w', reply) := UpdateProductStep(w, id, u);
            && (reply == Accepted <==>
                  && id in w.docs.products
                  && (u.newCost.Some? ==> u.newCost.value.0 !in w.docs.costs)
                  && NewOptionsFree(w.docs, u)
                  && !(u.newImages.Some? && u.deleteImages.Some?))
            && (reply == Accepted ==>
                  && id in w'.docs.products && ProductUpdated(w.docs.products[id], w'.docs.products[id], u)
                  && (forall o :: StockUpdated(w.docs, w'.docs, u, o))
                  && (u.newCost.Some? ==>
                        u.newCost.value.0 in w'.docs.costs && w'.docs.costs[u.newCost.value.0] == u.newCost.value.1)
                  && (forall k :: k != id && k in w.docs.products ==>
                        k in w'.docs.products && w'.docs.products[k] == w.docs.products[k]))
            && (id in w.docs.products ==>
                  && (forall o :: o in w'.docs.deletedOptions <==>
                        o in w.docs.deletedOptions || (o in w.docs.options && o in u.deleteOptions))
                  && (forall o :: o in w'.stocks <==> o in w.stocks && !Names(u, o)))
  {
    UpdateAnswer(w, id, u);
    if id in w.docs.products {
      NamesExactly(u);
      var docs := Marked(w.docs, u.deleteOptions);
      if UpdatedDocs(docs, id, u).Ok? {
        UpdatedShape(docs, id, u);
        UpdatedProductExactly(docs.products[id], u);
        forall o ensures StockUpdated(w.docs, UpdatedDocs(docs, id, u).value, u, o) {
          StockUpdatedExactly(docs, id, u, o);
        }
      }
    }
  }

  /** The update edits the option, or deletes it. */
  ghost predicate Names(u: ProductUpdate, o: Id) {
    (exists i :: 0 <= i < |u.updateOptions| && u.updateOptions[i].0 == o) || o in u.deleteOptions
  }

  lemma NamesExactly(u: ProductUpdate)
    ensures forall o :: o in EditedIds(u) <==> Names(u, o)
  {
    forall o ensures o in EditedIds(u) <==> Names(u, o) {
      if i :| 0 <= i < |u.updateOptions| && u.updateOptions[i].0 == o {
        assert u.updateOptions[i] in u.updateOptions;
      }
    }
  }

  lemma SafeDeleteExactly(w: World, id: Id)
    ensures var (w', reply) := SafeDeleteProductStep(w, id);
            && (reply == Accepted <==> id in w.docs.products)
            && w'.docs.products.Keys == w.docs.products.Keys
            && (forall k :: k in w.docs.products ==>
                  w'.docs.products[k] == if k == id then w.docs.products[k].(isDeleted := true) else w.docs.products[k])
  {
  }

  // ---------- the cart ----------

  /** The stock addCartItem is shown: the cached one, or else the stored one. */
  function ShownStock(w: World, o: Id): Option<real> {
    if o in w.stocks then Some(w.stocks[o]) else if o in w.docs.options then Some(w.docs.options[o]) else None
  }

  /**
   addCartItem, exactly: the last pieces shown can be taken, more than that cannot; the item has the
   quantity asked for, or one piece.
   */
  lemma AddCartItemExactly(w: World, id: Id, c: CartPayload)
    ensures var (w', reply) := Step(w, AddCartItem(id, c));
            && (reply == Accepted <==>
                  && c.product in w.docs.products && ShownStock(w, c.option).Some? && id !in w.cart
                  && (c.quantity.Some? ==> c.quantity.value <= ShownStock(w, c.option).value))
            && (if c.product !in w.docs.products || ShownStock(w, c.option).None?
                then reply == Rejected(PRODUCT_OPTION_NOT_FOUND)
                else c.quantity.Some? && c.quantity.value > ShownStock(w, c.option).value ==>
                       reply == Rejected(PRODUCT_SOLD_OUT))
            && w'.docs == w.docs && w'.views == w.views
            && (forall o :: ShownStock(w', o) == ShownStock(w, o))
            && (c.option in w.docs.options ==> c.option in w'.stocks)
            && w'.cart == if reply != Accepted then w.cart
                          else w.cart[id := CartItem(c.product, c.option,
                                                     if c.quantity.Some? then c.quantity.value else 1.0)]
  {
  }

  /** Removing a cart item takes it, and what is cached of it, and nothing else. */
  lemma RemoveCartItemExactly(w: World, id: Id)
    ensures var w' := Step(w, RemoveCartItem(id)).0;
            && id !in w'.cart && (id in w.cart ==> id !in w'.views) && w'.docs == w.docs
            && (forall k :: k != id ==> (k in w'.cart <==> k in w.cart) && (k in w.cart ==> w'.cart[k] == w.cart[k]))
            && (forall k :: k != id ==>
                  (k in w'.views <==> k in w.views) && (k in w.views ==> w'.views[k] == w.views[k]))
  {
  }
}
