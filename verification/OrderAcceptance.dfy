/** When an order is accepted, and why it is refused, in terms of what the request found when it began. */
module OrderAcceptance {
  import opened Common
  import opened Ledger
  import opened StockTheorems
  import opened OrderTheorems
  import opened CartOrders
  import opened CartTheorems

  // ---------- what the request finds ----------

  /** The lines name different cart items, and their order items get different ids. */
  ghost predicate LinesDiffer(lines: seq<Line>) {
    forall i, j :: 0 <= i < j < |lines| ==>
      lines[i].cartItem != lines[j].cartItem && lines[i].orderItem != lines[j].orderItem
  }

  /** The cart item can be seen, and shows a product and an option. */
  predicate IsComplete(v: Option<CartView>) { v.Some? && v.value.product.Some? && v.value.option.Some? }

  /** Nothing is wrong with any line. */
  ghost predicate LinesOrderable(w: World, lines: seq<Line>) {
    forall i :: 0 <= i < |lines| ==> IsComplete(ViewOf(w, lines[i].cartItem)) && lines[i].orderItem !in w.docs.items
  }

  /** What is wrong with a line, for each message a line can be refused with. */
  ghost predicate Explains(w: World, line: Line, e: ErrorMessage) {
    var v := ViewOf(w, line.cartItem);
    match e
    case ORDER_UNKNOW_ERROR => v.None?
    case PRODUCT_NOT_FOUND => v.Some? && v.value.product.None?
    case PRODUCT_OPTION_NOT_FOUND => v.Some? && v.value.product.Some? && v.value.option.None?
    case DUPLICATE_KEY => line.orderItem in w.docs.items
    case _ => false
  }

  ghost predicate HasCause(w: World, lines: seq<Line>, e: ErrorMessage) {
    exists i :: 0 <= i < |lines| && Explains(w, lines[i], e)
  }

  /** How often the schedule names a line. */
  function Turns(schedule: seq<nat>, i: nat): nat {
    if schedule == [] then 0
    else Turns(schedule[..|schedule| - 1], i) + if schedule[|schedule| - 1] == i then 1 else 0
  }

  // ---------- no line disturbs another ----------

  ghost predicate Undisturbed(w: World, p: Progress, id: Id) {
    (id in w.cart ==> id in p.cart) && (id in w.views ==> id in p.views)
  }

  /** The order items of the session are those of created lines. */
  ghost predicate ItemsOfLines(lines: seq<Line>, p: Progress)
    requires |p.tasks| == |lines|
  {
    forall k :: k in p.writes.items ==> CreatedFor(lines, p, k)
  }

  ghost predicate CreatedFor(lines: seq<Line>, p: Progress, k: Id)
    requires |p.tasks| == |lines|
  {
    exists j :: 0 <= j < |lines| && p.tasks[j].Created? && lines[j].orderItem == k
  }

  ghost predicate OnTrack(w: World, lines: seq<Line>, p: Progress) {
    && FromCart(w, lines, p) && Unselected(p.views) && ItemsOfLines(lines, p)
    && (forall i :: 0 <= i < |lines| && p.tasks[i].Started? ==> Undisturbed(w, p, lines[i].cartItem))
    && (p.error.Some? ==> HasCause(w, lines, p.error.value))
  }

  lemma SeesItsView(w: World, lines: seq<Line>, p: Progress, i: nat)
    requires OnTrack(w, lines, p) && i < |lines| && p.tasks[i].Started?
    ensures FindCartItem(w.docs, p.cart, p.views, lines[i].cartItem).0 == ViewOf(w, lines[i].cartItem)
  {
    var id := lines[i].cartItem;
    assert Undisturbed(w, p, id);
    if id in p.views { assert ViewOf(w, id) == Some(p.views[id]); }
  }

  lemma ViewIsUnselected(w: World, lines: seq<Line>, p: Progress, i: nat)
    requires OnTrack(w, lines, p) && i < |lines| && p.tasks[i].Started?
    ensures var (found, views) := FindCartItem(w.docs, p.cart, p.views, lines[i].cartItem);
            && Unselected(views)
            && (CheckCartItem(found).Ok? <==> IsComplete(found))
            && (CheckCartItem(found).Err? ==> Explains(w, lines[i], CheckCartItem(found).error))
  {
    SeesItsView(w, lines, p, i);
  }

  /** The parts of the track that a step of line i can leave as they were. */
  lemma StaysOnTrack(w: World, lines: seq<Line>, p: Progress, q: Progress, i: nat)
    requires OnTrack(w, lines, p) && FromCart(w, lines, q) && i < |lines| && LinesDiffer(lines)
    requires q.tasks == p.tasks[i := q.tasks[i]] && !q.tasks[i].Started?
    requires q.cart == p.cart || q.cart == p.cart - {lines[i].cartItem}
    requires forall k :: k in p.views && k != lines[i].cartItem ==> k in q.views
    requires Unselected(q.views)
    requires forall k :: k in q.writes.items ==> CreatedFor(lines, q, k)
    requires q.error.Some? ==> HasCause(w, lines, q.error.value)
    ensures OnTrack(w, lines, q)
  {
    forall j | 0 <= j < |lines| && q.tasks[j].Started?
      ensures Undisturbed(w, q, lines[j].cartItem)
    {
      assert j != i && p.tasks[j].Started?;
      assert lines[j].cartItem != lines[i].cartItem;
      assert Undisturbed(w, p, lines[j].cartItem);
    }
  }

  lemma StillCreated(lines: seq<Line>, p: Progress, q: Progress, i: nat, k: Id)
    requires |p.tasks| == |lines| == |q.tasks| && i < |lines| && q.tasks == p.tasks[i := q.tasks[i]]
    requires CreatedFor(lines, p, k) && !p.tasks[i].Created?
    ensures CreatedFor(lines, q, k)
  {
    var j :| 0 <= j < |lines| && p.tasks[j].Created? && lines[j].orderItem == k;
    assert j != i && q.tasks[j].Created?;
  }

  lemma StartOnTrack(w: World, lines: seq<Line>, p: Progress, i: nat)
    requires OnTrack(w, lines, p) && LinesDiffer(lines) && i < |lines| && p.tasks[i].Started?
    ensures OnTrack(w, lines, Advance(w.docs, lines, p, i))
  {
    var q := Advance(w.docs, lines, p, i);
    StartFromCart(w, lines, p, i);
    ViewIsUnselected(w, lines, p, i);
    forall k | k in q.writes.items ensures CreatedFor(lines, q, k) { StillCreated(lines, p, q, i, k); }
    StaysOnTrack(w, lines, p, q, i);
  }

  lemma ReserveOnTrack(w: World, lines: seq<Line>, p: Progress, i: nat)
    requires OnTrack(w, lines, p) && LinesDiffer(lines) && i < |lines| && p.tasks[i].Found?
    ensures OnTrack(w, lines, Advance(w.docs, lines, p, i))
  {
    var q := Advance(w.docs, lines, p, i);
    ReserveFromCart(w, lines, p, i);
    forall k | k in q.writes.items ensures CreatedFor(lines, q, k) { StillCreated(lines, p, q, i, k); }
    StaysOnTrack(w, lines, p, q, i);
  }

  lemma UnlistOnTrack(w: World, lines: seq<Line>, p: Progress, i: nat)
    requires OnTrack(w, lines, p) && LinesDiffer(lines) && i < |lines| && p.tasks[i].Reserved?
    ensures OnTrack(w, lines, Advance(w.docs, lines, p, i))
  {
    var q := Advance(w.docs, lines, p, i);
    UnlistFromCart(w, lines, p, i);
    forall k | k in q.writes.items ensures CreatedFor(lines, q, k) { StillCreated(lines, p, q, i, k); }
    StaysOnTrack(w, lines, p, q, i);
  }

  /** The id of a line that is about to be created is not in the session yet. */
  lemma IdIsFree(lines: seq<Line>, p: Progress, i: nat)
    requires |p.tasks| == |lines| && LinesDiffer(lines) && ItemsOfLines(lines, p)
    requires i < |lines| && !p.tasks[i].Created?
    ensures lines[i].orderItem !in p.writes.items
  {
  }

  lemma InsertOnTrack(w: World, lines: seq<Line>, p: Progress, i: nat)
    requires OnTrack(w, lines, p) && LinesDiffer(lines) && i < |lines| && p.tasks[i].Unlisted?
    ensures OnTrack(w, lines, Advance(w.docs, lines, p, i))
  {
    var q := Advance(w.docs, lines, p, i);
    InsertFromCart(w, lines, p, i);
    InsertShape(w.docs, lines, p, i);
    IdIsFree(lines, p, i);
    if q.error.None? { assert CreatedFor(lines, q, lines[i].orderItem); }
    forall k | k in q.writes.items ensures CreatedFor(lines, q, k) {
      if k in p.writes.items { StillCreated(lines, p, q, i, k); }
    }
    if p.error.None? && q.error.Some? { assert Explains(w, lines[i], DUPLICATE_KEY); }
    StaysOnTrack(w, lines, p, q, i);
  }

  lemma AdvanceOnTrack(w: World, lines: seq<Line>, p: Progress, i: nat)
    requires OnTrack(w, lines, p) && LinesDiffer(lines)
    ensures OnTrack(w, lines, Advance(w.docs, lines, p, i))
  {
    if i < |lines| {
      match p.tasks[i]
      case Started => StartOnTrack(w, lines, p, i);
      case Found(_) => ReserveOnTrack(w, lines, p, i);
      case Reserved(_) => UnlistOnTrack(w, lines, p, i);
      case Unlisted(_) => InsertOnTrack(w, lines, p, i);
      case Created(_) => assert Advance(w.docs, lines, p, i) == p;
      case Failed => assert Advance(w.docs, lines, p, i) == p;
    }
  }

  lemma {:induction false} InterleaveOnTrack(w: World, lines: seq<Line>, p: Progress, schedule: seq<nat>)
    requires OnTrack(w, lines, p) && LinesDiffer(lines)
    ensures OnTrack(w, lines, Interleave(w.docs, lines, p, schedule))
  {
    if schedule != [] {
      var n := |schedule| - 1;
      InterleaveOnTrack(w, lines, p, schedule[..n]);
      AdvanceOnTrack(w, lines, Interleave(w.docs, lines, p, schedule[..n]), schedule[n]);
    }
  }

  // ---------- four turns complete a line ----------

  function Stage(t: Task): nat {
    match t
    case Started => 0
    case Found(_) => 1
    case Reserved(_) => 2
    case Unlisted(_) => 3
    case Created(_) => 4
    case Failed => 0
  }

  function AtMostFour(n: nat): nat { if n < 4 then n else 4 }

  ghost predicate Staged(lines: seq<Line>, p: Progress, schedule: seq<nat>) {
    && |p.tasks| == |lines|
    && forall i :: 0 <= i < |lines| ==> !p.tasks[i].Failed? && Stage(p.tasks[i]) == AtMostFour(Turns(schedule, i))
  }

  lemma AdvanceStage(docs: Store, lines: seq<Line>, p: Progress, i: nat)
    requires |p.tasks| == |lines| && Advance(docs, lines, p, i).error.None?
    ensures var q := Advance(docs, lines, p, i);
            && p.error.None?
            && (i >= |lines| ==> q == p)
            && (i < |lines| && !p.tasks[i].Failed? ==>
                  q.tasks == p.tasks[i := q.tasks[i]] && !q.tasks[i].Failed?
                  && Stage(q.tasks[i]) == AtMostFour(Stage(p.tasks[i]) + 1))
  {
  }

  lemma TurnsNext(schedule: seq<nat>, i: nat)
    requires schedule != []
    ensures var n := |schedule| - 1;
            Turns(schedule, i) == Turns(schedule[..n], i) + if schedule[n] == i then 1 else 0
  {
  }

  lemma {:induction false} InterleaveStages(docs: Store, lines: seq<Line>, p: Progress, schedule: seq<nat>)
    requires |p.tasks| == |lines| && forall i :: 0 <= i < |lines| ==> p.tasks[i].Started?
    requires Interleave(docs, lines, p, schedule).error.None?
    ensures Staged(lines, Interleave(docs, lines, p, schedule), schedule)
  {
    if schedule != [] {
      var n := |schedule| - 1;
      var before := Interleave(docs, lines, p, schedule[..n]);
      AdvanceStage(docs, lines, before, schedule[n]);
      InterleaveStages(docs, lines, p, schedule[..n]);
      forall i | 0 <= i < |lines|
        ensures var q := Interleave(docs, lines, p, schedule);
                !q.tasks[i].Failed? && Stage(q.tasks[i]) == AtMostFour(Turns(schedule, i))
      {
        TurnsNext(schedule, i);
      }
    }
  }

  // ---------- the answer ----------

  lemma BeginOnTrack(w: World, lines: seq<Line>)
    requires Unselected(w.views)
    ensures OnTrack(w, lines, Begin(w, lines))
  {
  }

  lemma NoCause(w: World, lines: seq<Line>, e: ErrorMessage)
    requires LinesOrderable(w, lines)
    ensures !HasCause(w, lines, e)
  {
  }

  /** How the lines stand when each has had its four turns. */
  lemma LinesThrough(events: seq<Event>, lines: seq<Line>, schedule: seq<nat>)
    requires LinesDiffer(lines) && forall i :: 0 <= i < |lines| ==> Turns(schedule, i) >= 4
    ensures var w := Run(EMPTY, events);
            var p := Interleave(w.docs, lines, Begin(w, lines), schedule);
            && InProgress(w.docs, lines, p) && OnTrack(w, lines, p)
            && (p.error.None? ==> AllCreated(p.tasks))
            && (LinesOrderable(w, lines) <==> p.error.None?)
  {
    var w := Run(EMPTY, events);
    var p := Interleave(w.docs, lines, Begin(w, lines), schedule);
    ReachableInv(events);
    ViewsStayUnselected(events);
    BeginInProgress(w, lines);
    InterleaveInProgress(w.docs, lines, Begin(w, lines), schedule);
    BeginOnTrack(w, lines);
    InterleaveOnTrack(w, lines, Begin(w, lines), schedule);
    if p.error.None? {
      InterleaveStages(w.docs, lines, Begin(w, lines), schedule);
      ThroughIsOrderable(w, lines, p);
    } else if LinesOrderable(w, lines) {
      NoCause(w, lines, p.error.value);
    }
  }

  lemma ThroughIsOrderable(w: World, lines: seq<Line>, p: Progress)
    requires InProgress(w.docs, lines, p) && FromCart(w, lines, p) && p.error.None?
    requires forall i :: 0 <= i < |lines| ==> p.tasks[i].Created?
    ensures LinesOrderable(w, lines)
  {
    forall i | 0 <= i < |lines|
      ensures IsComplete(ViewOf(w, lines[i].cartItem)) && lines[i].orderItem !in w.docs.items
    {
      assert Bought(w, lines[i].cartItem, p.tasks[i].item);
      assert lines[i].orderItem in p.writes.items;
    }
  }

  lemma CreatedArePriced(docs: Store, lines: seq<Line>, p: Progress)
    requires CostsOfProducts(docs) && InProgress(docs, lines, p) && AllCreated(p.tasks)
    ensures forall i :: 0 <= i < |p.tasks| ==> p.tasks[i].item.cost in docs.costs
  {
    forall i | 0 <= i < |p.tasks| ensures p.tasks[i].item.cost in docs.costs {
      assert TaskPriced(docs, p.tasks[i]);
    }
  }

  lemma FinishExactly(docs: Store, lines: seq<Line>, p: Progress, id: Id, user: Id, insertOk: bool)
    requires p.error.None? ==>
               AllCreated(p.tasks) && forall i :: 0 <= i < |p.tasks| ==> p.tasks[i].item.cost in docs.costs
    ensures var finished := FinishOrder(docs, lines, p, id, user, insertOk);
            && (finished.Ok? <==> p.error.None? && id !in docs.orders && insertOk)
            && (p.error.Some? ==> finished == Err(p.error.value))
            && (p.error.None? && id in docs.orders ==> finished == Err(DUPLICATE_KEY))
            && (p.error.None? && id !in docs.orders && !insertOk ==> finished == Err(INSERT_FAILED))
  {
  }

  lemma OrderAnswered(events: seq<Event>, id: Id, user: Id, lines: seq<Line>, schedule: seq<nat>, insertOk: bool)
    requires LinesDiffer(lines) && forall i :: 0 <= i < |lines| ==> Turns(schedule, i) >= 4
    ensures var w := Run(EMPTY, events);
            var reply := Step(w, CreateOrder(id, user, lines, schedule, insertOk)).1;
            && (reply == Accepted <==> LinesOrderable(w, lines) && id !in w.docs.orders && insertOk)
            && (reply.Rejected? ==>
                  || HasCause(w, lines, reply.error)
                  || (LinesOrderable(w, lines) && id in w.docs.orders && reply.error == DUPLICATE_KEY)
                  || (LinesOrderable(w, lines) && id !in w.docs.orders && !insertOk && reply.error == INSERT_FAILED))
  {
    var w := Run(EMPTY, events);
    var p := Interleave(w.docs, lines, Begin(w, lines), schedule);
    LinesThrough(events, lines, schedule);
    ReachableInv(events);
    if p.error.None? { CreatedArePriced(w.docs, lines, p); }
    FinishExactly(w.docs, lines, p, id, user, insertOk);
    CreateReply(w, id, user, lines, schedule, insertOk);
  }

  lemma CreateReply(w: World, id: Id, user: Id, lines: seq<Line>, schedule: seq<nat>, insertOk: bool)
    ensures var p := Interleave(w.docs, lines, Begin(w, lines), schedule);
            Step(w, CreateOrder(id, user, lines, schedule, insertOk)).1
            == match FinishOrder(w.docs, lines, p, id, user, insertOk) case Ok(_) => Accepted case Err(e) => Rejected(e)
  {
  }

  /** Every cart item named is in the cart. */
  ghost predicate AllInCart(w: World, lines: seq<Line>) {
    forall i :: 0 <= i < |lines| ==> lines[i].cartItem in w.cart
  }

  ghost predicate AllIdsFree(w: World, lines: seq<Line>) {
    forall i :: 0 <= i < |lines| ==> lines[i].orderItem !in w.docs.items
  }

  lemma OrderableInCart(events: seq<Event>, lines: seq<Line>)
    ensures var w := Run(EMPTY, events); LinesOrderable(w, lines) <==> AllInCart(w, lines) && AllIdsFree(w, lines)
  {
    var w := Run(EMPTY, events);
    forall i | 0 <= i < |lines|
      ensures IsComplete(ViewOf(w, lines[i].cartItem)) <==> lines[i].cartItem in w.cart
    {
      CartIsSeen(events, lines[i].cartItem);
    }
  }

  lemma CauseInCart(events: seq<Event>, lines: seq<Line>, e: ErrorMessage)
    requires HasCause(Run(EMPTY, events), lines, e)
    ensures var w := Run(EMPTY, events);
            (e == ORDER_UNKNOW_ERROR && !AllInCart(w, lines)) || (e == DUPLICATE_KEY && !AllIdsFree(w, lines))
  {
    var w := Run(EMPTY, events);
    var i :| 0 <= i < |lines| && Explains(w, lines[i], e);
    CartIsSeen(events, lines[i].cartItem);
  }

  /**
   In every reachable world, for lines with different cart items and new ids, and for every schedule that
   lets each line finish: the order is accepted exactly when all its cart items are in the cart, no id is
   taken, and the order can be inserted.  A refusal names what is wrong.
   */
  lemma OrderAcceptedExactly(events: seq<Event>, id: Id, user: Id, lines: seq<Line>, schedule: seq<nat>, insertOk: bool)
    requires LinesDiffer(lines) && forall i :: 0 <= i < |lines| ==> Turns(schedule, i) >= 4
    ensures var w := Run(EMPTY, events);
            var reply := Step(w, CreateOrder(id, user, lines, schedule, insertOk)).1;
            && (reply == Accepted <==>
                  AllInCart(w, lines) && AllIdsFree(w, lines) && id !in w.docs.orders && insertOk)
            && (reply.Rejected? ==>
                  || (reply.error == ORDER_UNKNOW_ERROR && !AllInCart(w, lines))
                  || (reply.error == DUPLICATE_KEY && (!AllIdsFree(w, lines) || id in w.docs.orders))
                  || (reply.error == INSERT_FAILED && !insertOk))
  {
    var reply := Step(Run(EMPTY, events), CreateOrder(id, user, lines, schedule, insertOk)).1;
    OrderAnswered(events, id, user, lines, schedule, insertOk);
    OrderableInCart(events, lines);
    if reply.Rejected? && HasCause(Run(EMPTY, events), lines, reply.error) {
      CauseInCart(events, lines, reply.error);
    }
  }

  /**
   The cart is emptied of the lines' items whether or not the order goes through afterwards: they are deleted
   outside the session.
   */
  lemma CartEmptiedAnyway(events: seq<Event>, id: Id, user: Id, lines: seq<Line>, schedule: seq<nat>, insertOk: bool)
    requires LinesDiffer(lines) && forall i :: 0 <= i < |lines| ==> Turns(schedule, i) >= 4
    requires AllInCart(Run(EMPTY, events), lines) && AllIdsFree(Run(EMPTY, events), lines)
    ensures var w := Run(EMPTY, events);
            var cart := Step(w, CreateOrder(id, user, lines, schedule, insertOk)).0.cart;
            && (forall k :: k in cart <==> k in w.cart && forall i :: 0 <= i < |lines| ==> lines[i].cartItem != k)
            && (forall k :: k in cart ==> cart[k] == w.cart[k])
  {
    var w := Run(EMPTY, events);
    LinesThrough(events, lines, schedule);
    OrderableInCart(events, lines);
    CartAfterwards(w, lines, Interleave(w.docs, lines, Begin(w, lines), schedule));
    CreateCart(w, id, user, lines, schedule, insertOk);
  }

  lemma CreateCart(w: World, id: Id, user: Id, lines: seq<Line>, schedule: seq<nat>, insertOk: bool)
    ensures Step(w, CreateOrder(id, user, lines, schedule, insertOk)).0.cart
            == Interleave(w.docs, lines, Begin(w, lines), schedule).cart
  {
  }
}
