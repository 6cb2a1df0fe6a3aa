/** What refused requests leave behind, and when orders are cancelled, refunded and revived. */
module RefundTheorems {
  import opened Common
  import opened Ledger
  import opened StockTheorems
  import opened OrderTheorems

  // ---------- refused requests ----------

  /** Every id the update asks to delete that names a stored option is marked already. */
  predicate NothingToMark(docs: Store, u: ProductUpdate) {
    forall id :: id in u.deleteOptions && id in docs.options ==> id in docs.deletedOptions
  }

  lemma MarksExactly(docs: Store, u: ProductUpdate)
    ensures Marked(docs, u.deleteOptions) == docs <==> NothingToMark(docs, u)
    ensures docs.deletedOptions <= Marked(docs, u.deleteOptions).deletedOptions
  {
    if NothingToMark(docs, u) {
      assert Marked(docs, u.deleteOptions).deletedOptions == docs.deletedOptions;
    } else {
      var id :| id in u.deleteOptions && id in docs.options && id !in docs.deletedOptions;
      assert id in Marked(docs, u.deleteOptions).deletedOptions;
    }
  }

  /**
   A refused request reaches no refund and stores no document, with one exception: a refused updateProduct
   still marks options as deleted, because it does so outside its session.  It leaves everything stored
   as it was exactly when it was refused for want of the product, or there was no option left to mark.
   */
  lemma RefusedLeavesDocuments(w: World, e: Event)
    requires Step(w, e).1.Rejected?
    ensures var w' := Step(w, e).0;
            && w'.refunds == w.refunds
            && w'.docs == w.docs.(deletedOptions := w'.docs.deletedOptions)
            && w.docs.deletedOptions <= w'.docs.deletedOptions
            && (w'.docs == w.docs <==>
                  e.UpdateProduct? && e.id in w.docs.products ==> NothingToMark(w.docs, e.update))
            && (!e.CreateOrder? && !e.AddCartItem? && !e.UpdateProduct? ==> w' == w)
  {
    if e.UpdateProduct? {
      MarksExactly(w.docs, e.update);
    } else if IsOrderRequest(e) && !e.CreateOrder? {
      RefusedOrderRequest(w, e);
    }
  }

  lemma RefusedOrderRequest(w: World, e: Event)
    requires IsOrderRequest(e) && !e.CreateOrder? && Step(w, e).1.Rejected?
    ensures Step(w, e).0 == w
  {
  }

  const STOCKED := [CreateProduct(3, 2, Cost(10.0, 0.0), [(1, 5.0)], [], Some(8))]
  const CONFLICT := ProductUpdate(None, None, [], [1], Some(["a.png"]), Some(["b.png"]))

  /** Adding and removing images at once is refused, but the option named for deletion is gone. */
  lemma RefusedUpdateMarks()
    ensures var w := Run(EMPTY, STOCKED);
            var (w', reply) := Step(w, UpdateProduct(3, CONFLICT));
            && reply == Rejected(UPDATE_CONFLICT) && 1 in w.docs.options
            && 1 !in w.docs.deletedOptions && 1 in w'.docs.deletedOptions
  {
    assert STOCKED[..0] == [];
    var e := STOCKED[0];
    assert Run(EMPTY, STOCKED) == Step(EMPTY, e).0;
    assert InsertOptions(map[], [(1, 5.0)]) == InsertOptions(map[1 := 5.0], []) == Ok(map[1 := 5.0]);
    var docs := Step(EMPTY, e).0.docs;
    assert docs.options == map[1 := 5.0] && 3 in docs.products && docs.deletedOptions == {};
    assert 1 in CONFLICT.deleteOptions;
  }

  // ---------- leaving CANCELED ----------

  ghost predicate Canceled(w: World, id: Id) { id in w.docs.orders && w.docs.orders[id].status == CANCELED }

  lemma ProcessKeepsStatus(w: World, e: Event, id: Id)
    requires e.ProcessOrder? && id in w.docs.orders
    ensures id in Step(w, e).0.docs.orders && Step(w, e).0.docs.orders[id].status == w.docs.orders[id].status
  {
  }

  /** A cancelled order leaves that status exactly by a successful payment of its transaction, for PREPARING. */
  lemma CanceledLeftExactly(w: World, e: Event, id: Id)
    requires Canceled(w, id)
    ensures id in Step(w, e).0.docs.orders
    ensures var status := Step(w, e).0.docs.orders[id].status;
            && (status != CANCELED <==>
                  e.PaymentCallback? && e.id == id && e.success && w.docs.orders[id].transaction.Some?)
            && (status != CANCELED ==> status == PREPARING)
  {
    if !IsOrderRequest(e) {
      OthersLeaveOrders(w, e);
    } else if e.CreateOrder? {
      OrdersAfterCreate(w, e);
    } else if e.ProcessOrder? {
      ProcessKeepsStatus(w, e, id);
    }
  }

  // ---------- refunds over runs ----------

  /** The refunds VNPay accepted for an order. */
  function Refunds(log: seq<Refund>, id: Id): nat {
    if log == [] then 0 else Refunds(log[..|log| - 1], id) + if log[|log| - 1].order == id then 1 else 0
  }

  predicate Pays(e: Event, id: Id) { e.PaymentCallback? && e.id == id && e.success }

  /** The successful payments VNPay reported for an order. */
  function Payments(events: seq<Event>, id: Id): nat {
    if events == [] then 0 else
    Payments(events[..|events| - 1], id) + if Pays(events[|events| - 1], id) then 1 else 0
  }

  /** Those among them that reached the order after it had been cancelled. */
  ghost function LatePayments(events: seq<Event>, id: Id): (n: nat)
    ensures n <= Payments(events, id)
  {
    if events == [] then 0 else
    var before := events[..|events| - 1];
    LatePayments(before, id) + if Pays(events[|events| - 1], id) && Canceled(Run(EMPTY, before), id) then 1 else 0
  }

  /** Only an order with a transaction is cancelled. */
  ghost predicate CanceledAreLinked(w: World) {
    forall id :: Canceled(w, id) ==> w.docs.orders[id].transaction.Some?
  }

  function Indicator(b: bool): nat { if b then 1 else 0 }

  /** What one step does to the refunds and the cancellation of an order. */
  ghost predicate RefundStep(w: World, e: Event, id: Id) {
    var w' := Step(w, e).0;
    && (Canceled(w', id) ==> w'.docs.orders[id].transaction.Some?)
    && Refunds(w'.refunds, id) + Indicator(Canceled(w, id))
       == Refunds(w.refunds, id) + Indicator(Canceled(w', id)) + Indicator(Pays(e, id) && Canceled(w, id))
  }

  lemma CancelRefunds(w: World, e: Event, id: Id)
    requires e.CancelOrder? && CanceledAreLinked(w)
    ensures RefundStep(w, e, id)
  {
    assert Canceled(w, id) ==> w.docs.orders[id].transaction.Some?;
    var w' := Step(w, e).0;
    if w' != w {
      var n := |w.refunds|;
      assert w'.refunds[..n] == w.refunds && |w'.refunds| == n + 1;
    }
  }

  lemma CallbackRefunds(w: World, e: Event, id: Id)
    requires e.PaymentCallback? && (Canceled(w, id) ==> w.docs.orders[id].transaction.Some?)
    ensures RefundStep(w, e, id)
  {
  }

  lemma RequestCancelRefunds(w: World, e: Event, id: Id)
    requires e.RequestCancel? && (Canceled(w, id) ==> w.docs.orders[id].transaction.Some?)
    ensures RefundStep(w, e, id)
  {
  }

  lemma StepRefunds(w: World, e: Event, id: Id)
    requires CanceledAreLinked(w)
    ensures RefundStep(w, e, id)
  {
    assert Canceled(w, id) ==> w.docs.orders[id].transaction.Some?;
    if !IsOrderRequest(e) {
      OthersLeaveOrders(w, e);
    } else if e.CreateOrder? {
      OrdersAfterCreate(w, e);
    } else if e.CancelOrder? {
      CancelRefunds(w, e, id);
    } else if e.ProcessOrder? {
      if id in w.docs.orders { ProcessKeepsStatus(w, e, id); }
    } else if e.PaymentCallback? {
      CallbackRefunds(w, e, id);
    } else {
      RequestCancelRefunds(w, e, id);
    }
  }

  lemma StepKeepsLinked(w: World, e: Event)
    requires CanceledAreLinked(w)
    ensures CanceledAreLinked(Step(w, e).0)
  {
    var w' := Step(w, e).0;
    forall id | Canceled(w', id) ensures w'.docs.orders[id].transaction.Some? {
      StepRefunds(w, e, id);
    }
  }

  lemma {:induction false} ReachableLinked(events: seq<Event>)
    ensures CanceledAreLinked(Run(EMPTY, events))
  {
    if events != [] {
      ReachableLinked(events[..|events| - 1]);
      StepKeepsLinked(Run(EMPTY, events[..|events| - 1]), events[|events| - 1]);
    }
  }

  /**
   Refunds over every run, exactly: one for each time the order was cancelled, that is one for every late
   payment that revived it and one if it is cancelled now.  So there are at most as many as successful
   payments, plus one if it is cancelled; not more than payments exactly when it is not cancelled or was paid
   in time at least once; and no order is cancelled without a refund.
   */
  lemma {:induction false} RefundsExactly(events: seq<Event>, id: Id)
    ensures var w := Run(EMPTY, events);
            && Refunds(w.refunds, id) == LatePayments(events, id) + Indicator(Canceled(w, id))
            && Refunds(w.refunds, id) <= Payments(events, id) + Indicator(Canceled(w, id))
            && (Refunds(w.refunds, id) <= Payments(events, id) <==>
                  !Canceled(w, id) || LatePayments(events, id) < Payments(events, id))
            && (Canceled(w, id) ==> Refunds(w.refunds, id) >= 1)
  {
    if events != [] {
      var n := |events| - 1;
      RefundsExactly(events[..n], id);
      ReachableLinked(events[..n]);
      StepRefunds(Run(EMPTY, events[..n]), events[n], id);
    }
  }
}
