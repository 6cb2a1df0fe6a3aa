/** When a cancellation is accepted, over all runs, and what it refunds. */
module Cancellations {
  import opened Common
  import opened Ledger
  import opened StockTheorems
  import opened OrderTheorems

  // ---------- reported payments ----------

  predicate Processes(w: World, e: Event, id: Id) { e.ProcessOrder? && e.id == id && Step(w, e).1 == Accepted }

  predicate Reports(w: World, e: Event, id: Id) { e.PaymentCallback? && e.id == id && Step(w, e).1 == Accepted }

  /** A payment of the order was reported, with success or not, since the order was processed last. */
  predicate Dated(events: seq<Event>, id: Id) {
    events != [] &&
    var before, e := events[..|events| - 1], events[|events| - 1];
    !Processes(Run(EMPTY, before), e, id) && (Reports(Run(EMPTY, before), e, id) || Dated(before, id))
  }

  /** The transaction linked to the order has a pay date. */
  ghost predicate HasDate(docs: Store, id: Id) {
    && id in docs.orders && docs.orders[id].transaction.Some?
    && docs.orders[id].transaction.value in docs.transactions
    && docs.transactions[docs.orders[id].transaction.value].payDate.Some?
  }

  ghost predicate LinkStored(docs: Store, id: Id) {
    id in docs.orders && docs.orders[id].transaction.Some? ==>
      docs.orders[id].transaction.value in docs.transactions
  }

  ghost predicate LinksDiffer(docs: Store, j: Id, k: Id) {
    j in docs.orders && k in docs.orders && j != k && docs.orders[j].transaction.Some? ==>
      docs.orders[j].transaction != docs.orders[k].transaction
  }

  /** Linked transactions are stored, and no two orders share one. */
  ghost predicate LinksOk(docs: Store) {
    && (forall id :: LinkStored(docs, id))
    && (forall j, k :: LinksDiffer(docs, j, k))
  }

  /** What one step does to the links and to the pay date of an order. */
  ghost predicate DateStep(w: World, e: Event, id: Id) {
    && LinksOk(Step(w, e).0.docs)
    && (HasDate(Step(w, e).0.docs, id) <==>
          !Processes(w, e, id) && (Reports(w, e, id) || HasDate(w.docs, id)))
  }

  lemma SameLinks(docs: Store, later: Store)
    requires LinksOk(docs) && docs.transactions.Keys <= later.transactions.Keys
    requires forall k :: k in later.orders ==>
               later.orders[k].transaction.None? ||
               (k in docs.orders && later.orders[k].transaction == docs.orders[k].transaction)
    ensures LinksOk(later)
  {
    forall k ensures LinkStored(later, k) { assert LinkStored(docs, k); }
    forall j, k ensures LinksDiffer(later, j, k) { assert LinksDiffer(docs, j, k); }
  }

  lemma CreateDates(w: World, e: Event, id: Id)
    requires e.CreateOrder? && LinksOk(w.docs)
    ensures DateStep(w, e, id)
  {
    OrdersAfterCreate(w, e);
    SameLinks(w.docs, Step(w, e).0.docs);
  }

  lemma ProcessDates(w: World, e: Event, id: Id)
    requires e.ProcessOrder? && LinksOk(w.docs)
    ensures DateStep(w, e, id)
  {
    var docs, later := w.docs, Step(w, e).0.docs;
    if Step(w, e).1 == Accepted {
      assert later.orders == docs.orders[e.id := later.orders[e.id]];
      assert later.orders[e.id].transaction == Some(e.txnId) && e.txnId !in docs.transactions;
      assert later.transactions == docs.transactions[e.txnId := later.transactions[e.txnId]];
      forall k ensures LinkStored(later, k) { assert LinkStored(docs, k); }
      forall j, k ensures LinksDiffer(later, j, k) {
        assert LinksDiffer(docs, j, k) && LinkStored(docs, j) && LinkStored(docs, k);
      }
      assert LinkStored(docs, id);
    }
  }

  lemma CallbackDates(w: World, e: Event, id: Id)
    requires e.PaymentCallback? && LinksOk(w.docs)
    ensures DateStep(w, e, id)
  {
    SameLinks(w.docs, Step(w, e).0.docs);
    assert LinkStored(w.docs, e.id) && LinksDiffer(w.docs, e.id, id);
  }

  lemma RequestCancelDates(w: World, e: Event, id: Id)
    requires e.RequestCancel? && LinksOk(w.docs)
    ensures DateStep(w, e, id)
  {
    SameLinks(w.docs, Step(w, e).0.docs);
  }

  lemma CancelDates(w: World, e: Event, id: Id)
    requires e.CancelOrder? && LinksOk(w.docs)
    ensures DateStep(w, e, id)
  {
    SameLinks(w.docs, Step(w, e).0.docs);
  }

  lemma OtherDates(w: World, e: Event, id: Id)
    requires !IsOrderRequest(e) && LinksOk(w.docs)
    ensures DateStep(w, e, id)
  {
    OthersLeaveOrders(w, e);
    SameLinks(w.docs, Step(w, e).0.docs);
  }

  lemma StepDates(w: World, e: Event, id: Id)
    requires LinksOk(w.docs)
    ensures DateStep(w, e, id)
  {
    if !IsOrderRequest(e) {
      OtherDates(w, e, id);
    } else if e.CreateOrder? {
      CreateDates(w, e, id);
    } else if e.ProcessOrder? {
      ProcessDates(w, e, id);
    } else if e.PaymentCallback? {
      CallbackDates(w, e, id);
    } else if e.RequestCancel? {
      RequestCancelDates(w, e, id);
    } else {
      CancelDates(w, e, id);
    }
  }

  /** In every run the linked transaction has a pay date exactly when a payment was reported for it. */
  lemma {:induction false} DatedExactly(events: seq<Event>, id: Id)
    ensures LinksOk(Run(EMPTY, events).docs)
    ensures HasDate(Run(EMPTY, events).docs, id) <==> Dated(events, id)
  {
    if events != [] {
      var n := |events| - 1;
      DatedExactly(events[..n], id);
      StepDates(Run(EMPTY, events[..n]), events[n], id);
    }
  }

  // ---------- cancellations ----------

  /** The order waits for its payment, is being prepared, or its cancellation has been asked for. */
  ghost predicate Cancellable(docs: Store, id: Id) {
    && id in docs.orders
    && var status := docs.orders[id].status;
    status == OrderStatus.PENDING || status == PREPARING || status == CANCELING
  }

  lemma CancelStepExactly(w: World, id: Id, accept: bool, refundOk: bool)
    ensures var (w', reply) := CancelStep(w, id, accept, refundOk);
            && (id !in w.docs.orders ==> reply == Rejected(ORDER_NOT_FOUND))
            && (id in w.docs.orders && !Cancellable(w.docs, id) ==> reply == Rejected(ORDER_CANT_CANCEL))
            && (reply == Accepted <==> Cancellable(w.docs, id) && (accept ==> HasDate(w.docs, id) && refundOk))
            && (reply != Accepted || !accept ==> w' == w)
            && (reply == Accepted && accept ==>
                  && w'.refunds == w.refunds +
                       [Refund(id, w.docs.transactions[w.docs.orders[id].transaction.value].amount)]
                  && id in w'.docs.orders && w'.docs.orders[id].status == CANCELED)
  {
  }

  /**
   In every run a cancellation is accepted exactly when the status of the order allows it and, unless the
   cancellation is declined, a payment was reported since the order was processed last and VNPay takes
   the refund.  Without a report the transaction has no pay date, and the refund cannot be asked for.
   */
  lemma CancelAcceptedExactly(events: seq<Event>, id: Id, accept: bool, refundOk: bool)
    ensures var w := Run(EMPTY, events);
            Step(w, CancelOrder(id, accept, refundOk)).1 == Accepted <==>
              Cancellable(w.docs, id) && (accept ==> Dated(events, id) && refundOk)
  {
    DatedExactly(events, id);
    CancelStepExactly(Run(EMPTY, events), id, accept, refundOk);
  }

  /** A requested cancellation of an order whose payment was reported goes through, when VNPay takes the refund. */
  lemma RequestedIsCancelled(events: seq<Event>, id: Id, user: Id)
    requires Step(Run(EMPTY, events), RequestCancel(id, user)).1 == Accepted && Dated(events, id)
    ensures var requested := events + [RequestCancel(id, user)];
            && id in Run(EMPTY, requested).docs.orders
            && Run(EMPTY, requested).docs.orders[id].status == CANCELING
            && Step(Run(EMPTY, requested), CancelOrder(id, true, true)).1 == Accepted
  {
    var requested := events + [RequestCancel(id, user)];
    assert requested[..|events|] == events;
    assert Run(EMPTY, requested) == RequestCancelStep(Run(EMPTY, events), id, user).0;
    CancelAcceptedExactly(requested, id, true, true);
  }

  lemma OnlyCancellationsRefund(w: World, e: Event)
    requires !e.CancelOrder?
    ensures Step(w, e).0.refunds == w.refunds
  {
    if !IsOrderRequest(e) { OthersLeaveOrders(w, e); }
  }

  /** What a refund pays: the amount linked to the order, which is what the order comes to. */
  ghost predicate RefundsLinked(w: World, w': World, id: Id) {
    && id in w.docs.orders && id in w'.docs.orders
    && var order := w.docs.orders[id];
    && order.transaction.Some? && order.transaction.value in w.docs.transactions
    && var amount := w.docs.transactions[order.transaction.value].amount;
    && amount == order.totalCost + order.shippingCost - order.discountCost
    && w'.refunds == w.refunds + [Refund(id, amount)]
    && w'.docs.orders[id].status == CANCELED
  }

  /**
   In every run a step adds a refund exactly when it is a cancellation that goes through: accepted by the
   administrator and by VNPay, of an order whose status allows it and whose payment was reported since
   it was processed last.  The refund is the amount linked just before; without a refund a cancellation
   changes nothing.
   */
  lemma RefundIsLinkedAmount(events: seq<Event>, e: Event)
    ensures var w := Run(EMPTY, events);
            var w' := Step(w, e).0;
            && (w'.refunds != w.refunds <==>
                  e.CancelOrder? && e.accept && e.refundOk && Cancellable(w.docs, e.id) && Dated(events, e.id))
            && (w'.refunds != w.refunds ==> RefundsLinked(w, w', e.id))
            && (w'.refunds == w.refunds && e.CancelOrder? ==> w' == w)
  {
    if e.CancelOrder? {
      CancelRefunds(events, e.id, e.accept, e.refundOk);
    } else {
      OnlyCancellationsRefund(Run(EMPTY, events), e);
    }
  }

  lemma CancelRefunds(events: seq<Event>, id: Id, accept: bool, refundOk: bool)
    ensures var w := Run(EMPTY, events);
            var w' := CancelStep(w, id, accept, refundOk).0;
            && (w'.refunds != w.refunds <==> accept && refundOk && Cancellable(w.docs, id) && Dated(events, id))
            && (w'.refunds != w.refunds ==> RefundsLinked(w, w', id))
            && (w'.refunds == w.refunds ==> w' == w)
  {
    var w := Run(EMPTY, events);
    DatedExactly(events, id);
    CancelStepExactly(w, id, accept, refundOk);
    ReachableInv(events);
    if id in w.docs.orders { assert AmountCorrect(w.docs, w.docs.orders[id]); }
  }
}
