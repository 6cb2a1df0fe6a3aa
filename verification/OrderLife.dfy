/**
 The life of an order, told by the accepted requests alone: its status, what it costs to ship, and the
 state of its payment.  Every run leaves exactly what the story says.
 */
module OrderLife {
  import opened Common
  import opened Ledger
  import opened StockTheorems
  import opened OrderTheorems
  import opened Cancellations

  // ---------- the story ----------

  /** The payment of an order: its transaction, what VNPay said of it last, and when. */
  datatype Payment = Payment(txnId: Id, status: TransactionStatus, payDate: Option<nat>)

  datatype Life = Life(user: Id, items: seq<Id>, status: OrderStatus, shippingCost: real, payment: Option<Payment>)

  /** What an accepted request about the order makes of its life. */
  function Next(life: Option<Life>, e: Event): Option<Life> {
    match e
    case CreateOrder(_, user, lines, _, _) =>
      Some(Life(user, seq(|lines|, i requires 0 <= i < |lines| => lines[i].orderItem), OrderStatus.PENDING, 0.0, None))
    case ProcessOrder(_, txnId, Some(fee), _, _) =>
      if life.None? then None else
      Some(life.value.(shippingCost := fee, payment := Some(Payment(txnId, TransactionStatus.PENDING, None))))
    case PaymentCallback(_, payDate, success) =>
      if life.None? || life.value.payment.None? then life else
      var paid := life.value.payment.value.(status := if success then SUCCESS else FAIL, payDate := Some(payDate));
      Some(life.value.(payment := Some(paid), status := if success then PREPARING else life.value.status))
    case RequestCancel(_, _) => if life.None? then None else Some(life.value.(status := CANCELING))
    case CancelOrder(_, accept, _) =>
      if life.None? || !accept then life else Some(life.value.(status := CANCELED))
    case _ => life
  }

  /** The life of an order after one more request. */
  function Told(life: Option<Life>, e: Event, accepted: bool, id: Id): Option<Life> {
    if IsOrderRequest(e) && e.id == id && accepted then Next(life, e) else life
  }

  function LifeOf(events: seq<Event>, id: Id): Option<Life> {
    if events == [] then None else
    var before, e := events[..|events| - 1], events[|events| - 1];
    Told(LifeOf(before, id), e, Step(Run(EMPTY, before), e).1 == Accepted, id)
  }

  // ---------- the run follows the story ----------

  ghost predicate Follows(docs: Store, id: Id, life: Option<Life>) {
    && (id in docs.orders <==> life.Some?)
    && (life.Some? ==>
          var order, l := docs.orders[id], life.value;
          && order.user == l.user && order.items == l.items && order.status == l.status
          && order.shippingCost == l.shippingCost
          && (order.transaction.Some? <==> l.payment.Some?)
          && (l.payment.Some? ==> PaymentFollows(docs, order, l.payment.value)))
  }

  ghost predicate PaymentFollows(docs: Store, order: Order, p: Payment) {
    && order.transaction == Some(p.txnId) && p.txnId in docs.transactions
    && docs.transactions[p.txnId].status == p.status && docs.transactions[p.txnId].payDate == p.payDate
  }

  lemma CreateFollows(w: World, e: Event, id: Id, life: Option<Life>)
    requires e.CreateOrder? && Follows(w.docs, id, life)
    ensures Follows(Step(w, e).0.docs, id, Told(life, e, Step(w, e).1 == Accepted, id))
  {
    OrdersAfterCreate(w, e);
    if Step(w, e).1 == Accepted {
      CreatedOrder(w, e.id, e.user, e.lines, e.schedule, e.insertOk);
    } else {
      RefusedOrder(w, e.id, e.user, e.lines, e.schedule, e.insertOk);
    }
  }

  lemma CreatedOrder(w: World, id: Id, user: Id, lines: seq<Line>, schedule: seq<nat>, insertOk: bool)
    requires CreateOrderStep(w, id, user, lines, schedule, insertOk).1 == Accepted
    ensures var docs := CreateOrderStep(w, id, user, lines, schedule, insertOk).0.docs;
            && id !in w.docs.orders && id in docs.orders && docs.orders == w.docs.orders[id := docs.orders[id]]
            && docs.orders[id].user == user && docs.orders[id].shippingCost == 0.0
            && docs.orders[id].items == ItemIds(lines)
            && docs.orders[id].status == OrderStatus.PENDING && docs.orders[id].transaction.None?
            && docs.transactions == w.docs.transactions
  {
    SessionWrites(w, lines, schedule);
    FinishShape(w.docs, lines, Interleave(w.docs, lines, Begin(w, lines), schedule), id, user);
  }

  lemma RefusedOrder(w: World, id: Id, user: Id, lines: seq<Line>, schedule: seq<nat>, insertOk: bool)
    requires CreateOrderStep(w, id, user, lines, schedule, insertOk).1 != Accepted
    ensures CreateOrderStep(w, id, user, lines, schedule, insertOk).0.docs == w.docs
  {
  }

  lemma ProcessFollows(w: World, e: Event, id: Id, life: Option<Life>)
    requires e.ProcessOrder? && Follows(w.docs, id, life)
    ensures Follows(Step(w, e).0.docs, id, Told(life, e, Step(w, e).1 == Accepted, id))
  {
    if Step(w, e).1 == Accepted { ProcessShape(w, e.id, e.txnId, e.fee, e.vnpay, e.urlOk); }
  }

  lemma CallbackShape(w: World, id: Id, payDate: nat, success: bool)
    requires CallbackStep(w, id, payDate, success).1 == Accepted && LinkStored(w.docs, id)
    ensures id in w.docs.orders && w.docs.orders[id].transaction.Some?
    ensures var order, t := w.docs.orders[id], w.docs.orders[id].transaction.value;
            var docs := CallbackStep(w, id, payDate, success).0.docs;
            && t in w.docs.transactions
            && docs.transactions == w.docs.transactions[t := w.docs.transactions[t].(
                 status := if success then SUCCESS else FAIL, payDate := Some(payDate))]
            && docs.orders == w.docs.orders[id := order.(status := if success then PREPARING else order.status)]
  {
  }

  lemma CallbackFollows(w: World, e: Event, id: Id, life: Option<Life>)
    requires e.PaymentCallback? && Follows(w.docs, id, life) && LinksOk(w.docs)
    ensures Follows(Step(w, e).0.docs, id, Told(life, e, Step(w, e).1 == Accepted, id))
  {
    if Step(w, e).1 == Accepted {
      assert LinkStored(w.docs, e.id) && LinksDiffer(w.docs, e.id, id);
      CallbackShape(w, e.id, e.payDate, e.success);
    } else {
      assert Step(w, e).0 == w;
    }
  }

  lemma RequestCancelFollows(w: World, e: Event, id: Id, life: Option<Life>)
    requires e.RequestCancel? && Follows(w.docs, id, life)
    ensures Follows(Step(w, e).0.docs, id, Told(life, e, Step(w, e).1 == Accepted, id))
  {
  }

  lemma CancelShape(w: World, id: Id, accept: bool, refundOk: bool)
    ensures var (w', reply) := CancelStep(w, id, accept, refundOk);
            && w'.docs.transactions == w.docs.transactions
            && w'.docs.orders == if reply == Accepted && accept && id in w.docs.orders
                                 then w.docs.orders[id := w.docs.orders[id].(status := CANCELED)] else w.docs.orders
  {
  }

  lemma CancelFollows(w: World, e: Event, id: Id, life: Option<Life>)
    requires e.CancelOrder? && Follows(w.docs, id, life)
    ensures Follows(Step(w, e).0.docs, id, Told(life, e, Step(w, e).1 == Accepted, id))
  {
    CancelShape(w, e.id, e.accept, e.refundOk);
  }

  lemma StepFollows(w: World, e: Event, id: Id, life: Option<Life>)
    requires Follows(w.docs, id, life) && LinksOk(w.docs)
    ensures Follows(Step(w, e).0.docs, id, Told(life, e, Step(w, e).1 == Accepted, id))
  {
    if !IsOrderRequest(e) {
      OthersLeaveOrders(w, e);
    } else if e.CreateOrder? {
      CreateFollows(w, e, id, life);
    } else if e.ProcessOrder? {
      ProcessFollows(w, e, id, life);
    } else if e.PaymentCallback? {
      CallbackFollows(w, e, id, life);
    } else if e.RequestCancel? {
      RequestCancelFollows(w, e, id, life);
    } else {
      CancelFollows(w, e, id, life);
    }
  }

  /**
   In every run the stored order is what its accepted requests tell: who created it with which items, what
   became of it last, what it was processed with last, and what was reported of its payment since.
   */
  lemma {:induction false} LifeIsLived(events: seq<Event>, id: Id)
    ensures Follows(Run(EMPTY, events).docs, id, LifeOf(events, id))
  {
    if events != [] {
      var n := |events| - 1;
      LifeIsLived(events[..n], id);
      DatedExactly(events[..n], id);
      StepFollows(Run(EMPTY, events[..n]), events[n], id, LifeOf(events[..n], id));
    }
  }

  // ---------- which requests are accepted ----------

  predicate IsOpen(s: OrderStatus) { s == OrderStatus.PENDING || s == PREPARING || s == CANCELING }

  /** An order is processed when it exists, the shipping fee is known, and the payment URL can be made. */
  lemma ProcessAnswered(events: seq<Event>, id: Id, txnId: Id, fee: Option<real>, vnpay: bool, urlOk: bool)
    ensures var w := Run(EMPTY, events);
            var (w', reply) := Step(w, ProcessOrder(id, txnId, fee, vnpay, urlOk));
            && (reply == Accepted <==>
                  LifeOf(events, id).Some? && fee.Some? && txnId !in w.docs.transactions && (vnpay ==> urlOk))
            && (LifeOf(events, id).None? ==> reply == Rejected(ORDER_NOT_FOUND))
            && (reply.Rejected? ==> w' == w)
  {
    LifeIsLived(events, id);
  }

  /** A report is taken when the order has been processed, in whatever status it is. */
  lemma CallbackAnswered(events: seq<Event>, id: Id, payDate: nat, success: bool)
    ensures var w := Run(EMPTY, events);
            var (w', reply) := Step(w, PaymentCallback(id, payDate, success));
            && (reply == Accepted <==> LifeOf(events, id).Some? && LifeOf(events, id).value.payment.Some?)
            && (LifeOf(events, id).None? ==> reply == Rejected(ORDER_NOT_FOUND))
            && (reply.Rejected? ==> w' == w)
  {
    LifeIsLived(events, id);
  }

  lemma RequestCancelExactly(w: World, id: Id, user: Id)
    ensures var (w', reply) := RequestCancelStep(w, id, user);
            && (reply == Accepted <==>
                  id in w.docs.orders && w.docs.orders[id].user == user && IsOpen(w.docs.orders[id].status))
            && (id in w.docs.orders && w.docs.orders[id].user != user ==> reply == Rejected(FORBIDDEN))
            && (id in w.docs.orders && w.docs.orders[id].user == user && !IsOpen(w.docs.orders[id].status) ==>
                  reply == Rejected(ORDER_CANT_CANCEL))
            && (reply.Rejected? ==> w' == w)
  {
  }

  /** The owner can ask to cancel an order that is neither on its way, nor completed, nor cancelled. */
  lemma RequestCancelAnswered(events: seq<Event>, id: Id, user: Id)
    ensures var w := Run(EMPTY, events);
            var (w', reply) := Step(w, RequestCancel(id, user));
            var life := LifeOf(events, id);
            && (reply == Accepted <==> life.Some? && life.value.user == user && IsOpen(life.value.status))
            && (life.Some? && life.value.user != user ==> reply == Rejected(FORBIDDEN))
            && (life.Some? && life.value.user == user && !IsOpen(life.value.status) ==>
                  reply == Rejected(ORDER_CANT_CANCEL))
            && (reply.Rejected? ==> w' == w)
  {
    LifeIsLived(events, id);
    RequestCancelExactly(Run(EMPTY, events), id, user);
  }

  /** A cancellation is taken in the same statuses; with a refund, it needs a reported payment and VNPay. */
  lemma CancelAnswered(events: seq<Event>, id: Id, accept: bool, refundOk: bool)
    ensures var reply := Step(Run(EMPTY, events), CancelOrder(id, accept, refundOk)).1;
            var life := LifeOf(events, id);
            && (reply == Accepted <==>
                  && life.Some? && IsOpen(life.value.status)
                  && (accept ==> life.value.payment.Some? && life.value.payment.value.payDate.Some? && refundOk))
            && (life.None? ==> reply == Rejected(ORDER_NOT_FOUND))
            && (life.Some? && !IsOpen(life.value.status) ==> reply == Rejected(ORDER_CANT_CANCEL))
  {
    LifeIsLived(events, id);
    CancelStepExactly(Run(EMPTY, events), id, accept, refundOk);
  }
}
