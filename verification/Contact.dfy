/** The two cursor-driven listings of the contact service, and the walks that follow their cursors. */
module Contact {
  import opened Common

  datatype Page<T> = Page(nextCursor: Option<Positive>, data: seq<T>)

  // ---------- messages of a room ----------

  /**
   getRoomMessages: `listed` counts the ids in the room document, `messages` are the stored messages among
   them, oldest first.  Page 1 is the newest.
   */
  function GetRoomMessages<T>(listed: nat, messages: seq<T>, page: Positive, limit: Positive): Page<T> {
    var skip := listed - page * limit;
    var pages := |messages| / limit;
    Page(if page < pages then Some(page + 1) else None, Window(messages, if skip >= 0 then skip else 0, limit))
  }

  /** All data of the pages reached from `page` on, put in the order of the messages. */
  function WalkMessages<T>(listed: nat, messages: seq<T>, page: Positive, limit: Positive): seq<T>
    decreases if page < |messages| / limit then |messages| / limit - page else 0
  {
    var p := GetRoomMessages(listed, messages, page, limit);
    if p.nextCursor.None? then p.data
    else WalkMessages(listed, messages, p.nextCursor.value, limit) + p.data
  }

  lemma PagesFit(count: nat, limit: Positive, page: Positive)
    requires page <= count / limit
    ensures page * limit <= count
  {
    MulMonotone(page, count / limit, limit);
    assert count == count / limit * limit + count % limit;
  }

  function Clip(i: int, n: nat): nat { if i < 0 then 0 else if i > n then n else i }

  /** The position of the oldest of n messages on the newest `pages` pages. */
  function Oldest(listed: nat, pages: nat, limit: Positive, n: nat): nat { Clip(listed - pages * limit, n) }

  lemma OlderPages(listed: nat, p: nat, q: nat, limit: Positive, n: nat)
    requires p <= q
    ensures Oldest(listed, q, limit, n) <= Oldest(listed, p, limit, n) <= n
  {
    MulMonotone(p, q, limit);
  }

  /** A visited page is the window of `limit` listed ids that ends `page - 1` windows before the newest. */
  lemma PageIsWindow<T>(listed: nat, messages: seq<T>, page: Positive, limit: Positive)
    requires |messages| <= listed && page <= |messages| / limit
    ensures Oldest(listed, page, limit, |messages|) <= Oldest(listed, page - 1, limit, |messages|)
    ensures GetRoomMessages(listed, messages, page, limit).data
            == messages[Oldest(listed, page, limit, |messages|)..Oldest(listed, page - 1, limit, |messages|)]
  {
    assert page * limit == (page - 1) * limit + limit;
    PagesFit(|messages|, limit, page);
  }

  lemma Glue<T>(s: seq<T>, a: nat, b: nat, c: nat)
    requires a <= b <= c <= |s|
    ensures s[a..b] + s[b..c] == s[a..c]
  {
  }

  lemma {:induction false} WalkFrom<T>(listed: nat, messages: seq<T>, page: Positive, limit: Positive)
    requires |messages| <= listed && page <= |messages| / limit
    ensures Oldest(listed, |messages| / limit, limit, |messages|) <= Oldest(listed, page - 1, limit, |messages|)
    ensures WalkMessages(listed, messages, page, limit)
            == messages[Oldest(listed, |messages| / limit, limit, |messages|)
                        ..Oldest(listed, page - 1, limit, |messages|)]
    decreases |messages| / limit - page
  {
    var n, last := |messages|, |messages| / limit;
    PageIsWindow(listed, messages, page, limit);
    if page < last {
      WalkFrom(listed, messages, page + 1, limit);
      OlderPages(listed, page, last, limit, n);
      Glue(messages, Oldest(listed, last, limit, n), Oldest(listed, page, limit, n),
           Oldest(listed, page - 1, limit, n));
    }
  }

  /** The number of pages a walk visits: at least one. */
  function Visited(count: nat, limit: Positive): Positive { if count < limit then 1 else count / limit }

  lemma VisitedIs(count: nat, limit: Positive)
    ensures count < limit ==> count / limit == 0
    ensures count >= limit ==> count / limit >= 1
  {
    assert count == count / limit * limit + count % limit;
  }

  lemma WalkFromFirst<T>(listed: nat, messages: seq<T>, limit: Positive)
    requires |messages| <= listed
    ensures WalkMessages(listed, messages, 1, limit)
            == messages[Oldest(listed, Visited(|messages|, limit), limit, |messages|)..]
  {
    VisitedIs(|messages|, limit);
    if |messages| >= limit {
      WalkFrom(listed, messages, 1, limit);
    }
  }

  lemma SuffixIsAll<T>(s: seq<T>, i: int)
    ensures s[Clip(i, |s|)..] == s <==> s == [] || i <= 0
  {
    assert |s[Clip(i, |s|)..]| == |s| - Clip(i, |s|);
  }

  /**
   Following nextCursor from page 1 in a room that lists `listed` ids, some of them perhaps without a stored
   message: the windows are counted from the listed ids, so the walk yields the messages from that
   position on, each once and in order, and it is complete exactly when the visited pages hold all listed ids.
   */
  lemma WalkWithDanglingIds<T>(listed: nat, messages: seq<T>, limit: Positive)
    requires |messages| <= listed
    ensures var n := |messages|;
            var walked := WalkMessages(listed, messages, 1, limit);
            && walked == messages[Clip(listed - Visited(n, limit) * limit, n)..]
            && (walked == messages <==> messages == [] || listed <= Visited(n, limit) * limit)
  {
    WalkFromFirst(listed, messages, limit);
    SuffixIsAll(messages, listed - Visited(|messages|, limit) * limit);
  }

  /** With a stored message for every id: the newest floor(n / limit) * limit, or all when fewer than `limit`. */
  lemma WalkCoversNewest<T>(messages: seq<T>, limit: Positive)
    ensures var n := |messages|;
            WalkMessages(n, messages, 1, limit) == if n >= limit then messages[n - n / limit * limit..] else messages
  {
    var n := |messages|;
    WalkFromFirst(n, messages, limit);
    if n >= limit { PagesFit(n, limit, n / limit); }
  }

  lemma Divides(n: nat, k: nat, limit: Positive, r: nat)
    requires n == k * limit + r
    ensures n <= k * limit <==> r == 0
  {
  }

  lemma VisitedHolds(n: nat, limit: Positive)
    ensures n <= Visited(n, limit) * limit <==> n < limit || n % limit == 0
  {
    if n >= limit {
      Divides(n, n / limit, limit, n % limit);
    }
  }

  /** Then the walk is complete exactly when the page size divides the number of messages, or exceeds it. */
  lemma WalkCompleteExactly<T>(messages: seq<T>, limit: Positive)
    ensures WalkMessages(|messages|, messages, 1, limit) == messages
            <==> |messages| < limit || |messages| % limit == 0
  {
    WalkWithDanglingIds(|messages|, messages, limit);
    VisitedHolds(|messages|, limit);
  }

  // ---------- rooms ----------

  datatype Room<M> = Room(email: string, messages: seq<M>)

  /** A room as it is sent: its loaded messages, newest first in the query, turned round. */
  function Turned<M>(r: Room<M>): Room<M> { r.(messages := Reversed(r.messages)) }

  function TurnedAll<M>(rooms: seq<Room<M>>): seq<Room<M>> {
    seq(|rooms|, i requires 0 <= i < |rooms| => Turned(rooms[i]))
  }

  /** The cursor test: `page < total / limit`, a quotient of real numbers. */
  predicate HasNext(page: Positive, total: nat, limit: Positive) { page as real < total as real / limit as real }

  /** `Array.prototype.reverse` on the messages of one room. */
  method ReverseInPlace<M>(a: array<M>)
    modifies a
    ensures a[..] == Reversed(old(a[..]))
  {
    var n := a.Length;
    for i := 0 to n / 2
      invariant forall k :: 0 <= k < i ==> a[k] == old(a[n - 1 - k]) && a[n - 1 - k] == old(a[k])
      invariant forall k :: i <= k < n - i ==> a[k] == old(a[k])
    {
      a[i], a[n - 1 - i] := a[n - 1 - i], a[i];
    }
  }

  /** getChatRooms over the non-empty rooms of the query; `total` counts all rooms. */
  method GetChatRooms<M>(rooms: seq<Room<M>>, total: nat, page: Positive, limit: Positive)
    returns (response: Page<Room<M>>)
    ensures response == ChatRoomsPage(rooms, total, page, limit)
  {
    var data := Window(rooms, (page - 1) * limit, limit);
    var found := data;
    for i := 0 to |data|
      invariant |data| == |found|
      invariant forall k :: 0 <= k < i ==> data[k] == Turned(found[k])
      invariant forall k :: i <= k < |found| ==> data[k] == found[k]
    {
      var list := new M[|data[i].messages|](k requires 0 <= k < |data[i].messages| => data[i].messages[k]);
      assert list[..] == data[i].messages;
      ReverseInPlace(list);
      data := data[i := data[i].(messages := list[..])];
    }
    assert data == TurnedAll(found);
    var pages := total as real / limit as real;
    response := Page(if page as real < pages then Some(page + 1) else None, data);
  }

  function ChatRoomsPage<M>(rooms: seq<Room<M>>, total: nat, page: Positive, limit: Positive): Page<Room<M>> {
    Page(if HasNext(page, total, limit) then Some(page + 1) else None,
         TurnedAll(Window(rooms, (page - 1) * limit, limit)))
  }

  lemma {:induction false} RealProduct(a: nat, b: nat)
    ensures (a * b) as real == a as real * b as real
  {
    if a > 0 {
      RealProduct(a - 1, b);
      assert a * b == (a - 1) * b + b;
      assert a as real == (a - 1) as real + 1.0;
      assert a as real * b as real == (a - 1) as real * b as real + b as real;
    }
  }

  lemma QuotientAbove(p: real, t: real, l: real)
    requires l > 0.0
    ensures p < t / l <==> p * l < t
  {
    var q := t / l;
    assert q * l == t;
    if p < q { assert (q - p) * l > 0.0; }
    if q <= p { assert (p - q) * l >= 0.0; }
  }

  lemma HasNextIs(page: Positive, total: nat, limit: Positive)
    ensures HasNext(page, total, limit) <==> page * limit < total
  {
    RealProduct(page, limit);
    QuotientAbove(page as real, total as real, limit as real);
  }

  /** The unrounded quotient makes no difference: there is a next page exactly below the rounded-up number of pages. */
  lemma CursorRounds(page: Positive, total: nat, limit: Positive)
    ensures HasNext(page, total, limit) <==> page < (total + limit - 1) / limit
  {
    HasNextIs(page, total, limit);
    var c := (total + limit - 1) / limit;
    assert total + limit - 1 == c * limit + (total + limit - 1) % limit;
    if page < c {
      MulMonotone(page + 1, c, limit);
      assert (page + 1) * limit == page * limit + limit;
    } else {
      MulMonotone(c, page, limit);
    }
  }

  function WalkRooms<M>(rooms: seq<Room<M>>, total: nat, page: Positive, limit: Positive): seq<Room<M>>
    decreases if page * limit < total then total - page * limit else 0
  {
    HasNextIs(page, total, limit);
    assert (page + 1) * limit == page * limit + limit;
    var p := ChatRoomsPage(rooms, total, page, limit);
    if p.nextCursor.None? then p.data else p.data + WalkRooms(rooms, total, p.nextCursor.value, limit)
  }

  function TurnedFrom<M>(rooms: seq<Room<M>>, skip: nat): seq<Room<M>> {
    if skip <= |rooms| then TurnedAll(rooms[skip..]) else []
  }

  lemma TurnedSplits<M>(rooms: seq<Room<M>>, skip: nat, limit: Positive)
    ensures TurnedFrom(rooms, skip) == TurnedAll(Window(rooms, skip, limit)) + TurnedFrom(rooms, skip + limit)
  {
  }

  lemma {:induction false} WalkRoomsFrom<M>(rooms: seq<Room<M>>, total: nat, page: Positive, limit: Positive)
    requires |rooms| <= total
    ensures WalkRooms(rooms, total, page, limit) == TurnedFrom(rooms, (page - 1) * limit)
    decreases if page * limit < total then total - page * limit else 0
  {
    var skip := (page - 1) * limit;
    HasNextIs(page, total, limit);
    assert page * limit == skip + limit && (page + 1) * limit == skip + limit + limit;
    TurnedSplits(rooms, skip, limit);
    assert WalkRooms(rooms, total, page, limit)
           == TurnedAll(Window(rooms, skip, limit))
              + (if skip + limit < total then WalkRooms(rooms, total, page + 1, limit) else []);
    if HasNext(page, total, limit) {
      WalkRoomsFrom(rooms, total, page + 1, limit);
    }
  }

  /** Following nextCursor from page 1 ends, and yields every room once and in order, with its messages in reverse. */
  lemma WalkYieldsAllRooms<M>(rooms: seq<Room<M>>, total: nat, limit: Positive)
    requires |rooms| <= total
    ensures var walked := WalkRooms(rooms, total, 1, limit);
            && |walked| == |rooms|
            && forall i :: 0 <= i < |rooms| ==>
                 && walked[i].email == rooms[i].email && |walked[i].messages| == |rooms[i].messages|
                 && forall k :: 0 <= k < |rooms[i].messages| ==>
                      walked[i].messages[k] == rooms[i].messages[|rooms[i].messages| - 1 - k]
  {
    WalkRoomsFrom(rooms, total, 1, limit);
    assert WalkRooms(rooms, total, 1, limit) == TurnedAll(rooms);
  }
}
