/**
 The chat gateway: a map from clients to the room they joined last, next to the room membership that
 the socket server keeps.  Events of the socket server are handled one at a time.
 */
module ChatGateway {
  import opened Common

  const ADMIN_ROOM := "admin"

  /** Socket ids are made by the server; none is the name of the admin room. */
  type ClientId = s: string | s != ADMIN_ROOM witness ""

  datatype Role = ADMIN | CUSTOMER

  datatype Message = Message(client: ClientId, from: Role, text: string)

  /** Connected clients' rooms, the sockets' rooms, the stored chat rooms, and the notices of new rooms. */
  datatype World = World(connectedClients: map<ClientId, string>, sockets: map<ClientId, set<string>>,
                         rooms: map<string, seq<Message>>, notices: seq<string>)

  /** The entry of a client, unless it is missing or the empty string. */
  function RoomOf(w: World, c: ClientId): Option<string> {
    if c in w.connectedClients && w.connectedClients[c] != "" then Some(w.connectedClients[c]) else None
  }

  predicate InAdminRoom(w: World, c: ClientId) { c in w.sockets && ADMIN_ROOM in w.sockets[c] }

  /** The entry first, the room's sockets second. */
  predicate IsClientInAdminRoom(w: World, c: ClientId) {
    RoomOf(w, c) == Some(ADMIN_ROOM) || InAdminRoom(w, c)
  }

  // ---------- events ----------

  /** A new socket is in the room of its own id. */
  function ConnectStep(w: World, c: ClientId): World {
    if c in w.sockets || c in w.connectedClients then w else w.(sockets := w.sockets[c := {c}])
  }

  function DisconnectStep(w: World, c: ClientId): World {
    w.(sockets := w.sockets - {c},
       connectedClients := if RoomOf(w, c).Some? then w.connectedClients - {c} else w.connectedClients)
  }

  function JoinAdminStep(w: World, c: ClientId): World
    requires c in w.sockets
  {
    w.(sockets := w.sockets[c := w.sockets[c] + {ADMIN_ROOM}], connectedClients := w.connectedClients[c := ADMIN_ROOM])
  }

  /** Joining a room leaves the one joined before; a room that is not stored cannot be joined. */
  function JoinStep(w: World, c: ClientId, email: string): World
    requires c in w.sockets
  {
    if email !in w.rooms then w else
    var previous := RoomOf(w, c);
    var left := if previous.Some? then w.sockets[c] - {previous.value} else w.sockets[c];
    w.(sockets := w.sockets[c := left + {email}], connectedClients := w.connectedClients[c := email])
  }

  /** A customer may write to the room joined last only; the answer is the stored message, if one is stored. */
  function SendStep(w: World, c: ClientId, email: string, text: string, createOk: bool): (World, Option<Message>) {
    var role := if IsClientInAdminRoom(w, c) then ADMIN else CUSTOMER;
    if role == CUSTOMER && RoomOf(w, c) != Some(email) then (w, None)
    else if email !in w.rooms then (w, None)
    else
      var notified := if w.rooms[email] == [] then w.(notices := w.notices + [email]) else w;
      if !createOk then (notified, None) else
      var message := Message(c, role, text);
      (notified.(rooms := w.rooms[email := w.rooms[email] + [message]]), Some(message))
  }

  datatype Event =
    | OpenRoom(email: string)
    | Connect(client: ClientId)
    | Disconnect(client: ClientId)
    | JoinAdmin(client: ClientId)
    | Join(client: ClientId, email: string)
    | Send(client: ClientId, email: string, text: string, createOk: bool)

  /** Events reach the gateway from connected sockets only. */
  function Step(w: World, e: Event): World {
    match e
    case OpenRoom(email) => if email in w.rooms then w else w.(rooms := w.rooms[email := []])
    case Connect(c) => ConnectStep(w, c)
    case Disconnect(c) => if c in w.sockets then DisconnectStep(w, c) else w
    case JoinAdmin(c) => if c in w.sockets then JoinAdminStep(w, c) else w
    case Join(c, email) => if c in w.sockets then JoinStep(w, c, email) else w
    case Send(c, email, text, ok) => if c in w.sockets then SendStep(w, c, email, text, ok).0 else w
  }

  function Run(events: seq<Event>): World {
    if events == [] then World(map[], map[], map[], [])
    else Step(Run(events[..|events| - 1]), events[|events| - 1])
  }

  // ---------- the gateway ----------

  class ChatGateway {
    var connectedClients: map<ClientId, string>
    var sockets: map<ClientId, set<string>>
    var rooms: map<string, seq<Message>>
    var notices: seq<string>

    constructor ()
      ensures State() == Run([])
    {
      connectedClients, sockets, rooms, notices := map[], map[], map[], [];
    }

    ghost function State(): World
      reads this
    {
      World(connectedClients, sockets, rooms, notices)
    }

    method HandleDisconnect(c: ClientId)
      modifies this
      ensures State() == DisconnectStep(old(State()), c)
    {
      sockets := sockets - {c};
      if c in connectedClients && connectedClients[c] != "" {
        connectedClients := connectedClients - {c};
      }
    }

    method OnJoinAdminRoom(c: ClientId)
      requires c in sockets
      modifies this
      ensures State() == JoinAdminStep(old(State()), c)
    {
      sockets := sockets[c := sockets[c] + {ADMIN_ROOM}];
      connectedClients := connectedClients[c := ADMIN_ROOM];
    }

    method OnJoinRoom(c: ClientId, email: string)
      requires c in sockets
      modifies this
      ensures State() == JoinStep(old(State()), c, email)
    {
      if email !in rooms {
        return;
      }
      if c in connectedClients && connectedClients[c] != "" {
        sockets := sockets[c := sockets[c] - {connectedClients[c]}];
      }
      sockets := sockets[c := sockets[c] + {email}];
      connectedClients := connectedClients[c := email];
    }

    method IsInAdminRoom(c: ClientId) returns (answer: bool)
      ensures answer == IsClientInAdminRoom(State(), c)
    {
      if c in connectedClients && connectedClients[c] == ADMIN_ROOM {
        return true;
      }
      var clientsInAdminRoom := set s | s in sockets && ADMIN_ROOM in sockets[s];
      answer := c in clientsInAdminRoom;
    }

    method OnSendMessage(c: ClientId, email: string, text: string, createOk: bool) returns (stored: Option<Message>)
      requires c in sockets
      modifies this
      ensures (State(), stored) == SendStep(old(State()), c, email, text, createOk)
    {
      stored := None;
      var isClientInAdminRoom := IsInAdminRoom(c);
      var role := if isClientInAdminRoom then ADMIN else CUSTOMER;
      if role == CUSTOMER {
        if c !in connectedClients || connectedClients[c] == "" || connectedClients[c] != email {
          return;
        }
      }
      if email !in rooms {
        return;
      }
      if |rooms[email]| <= 0 {
        notices := notices + [email];
      }
      if !createOk {
        return;
      }
      var message := Message(c, role, text);
      rooms := rooms[email := rooms[email] + [message]];
      stored := Some(message);
    }
  }

  // ---------- what every run keeps ----------

  /** The two representations agree on a connected client. */
  ghost predicate Consistent(w: World, c: ClientId) {
    c in w.sockets ==>
      && (c in w.connectedClients ==> w.connectedClients[c] in w.sockets[c])
      && (ADMIN_ROOM in w.sockets[c] <==> c in w.connectedClients && w.connectedClients[c] == ADMIN_ROOM)
  }

  /** Every room with a message in it was announced to the administrators. */
  ghost predicate Announced(w: World) {
    forall email :: email in w.rooms && w.rooms[email] != [] ==> email in w.notices
  }

  lemma StepKeepsConsistent(w: World, e: Event, c: ClientId)
    requires Consistent(w, c)
    ensures Consistent(Step(w, e), c)
  {
    match e
    case Send(_, _, _, _) =>
      assert Step(w, e).sockets == w.sockets && Step(w, e).connectedClients == w.connectedClients;
    case _ =>
  }

  lemma StepKeepsAnnounced(w: World, e: Event)
    requires Announced(w)
    ensures Announced(Step(w, e))
  {
  }

  lemma {:induction false} MembershipConsistent(events: seq<Event>, c: ClientId)
    ensures Consistent(Run(events), c)
  {
    if events != [] {
      var n := |events| - 1;
      MembershipConsistent(events[..n], c);
      StepKeepsConsistent(Run(events[..n]), events[n], c);
    }
  }

  lemma {:induction false} NewRoomsAnnounced(events: seq<Event>)
    ensures Announced(Run(events))
  {
    if events != [] {
      var n := |events| - 1;
      NewRoomsAnnounced(events[..n]);
      StepKeepsAnnounced(Run(events[..n]), events[n]);
    }
  }

  /** In every reachable state the two tests of isClientInAdminRoom agree for a connected client. */
  lemma TestsAgree(events: seq<Event>, c: ClientId)
    requires c in Run(events).sockets
    ensures var w := Run(events);
            && (RoomOf(w, c) == Some(ADMIN_ROOM) <==> InAdminRoom(w, c))
            && (IsClientInAdminRoom(w, c) <==> InAdminRoom(w, c))
  {
    MembershipConsistent(events, c);
  }

  /**
   A message is stored exactly when it can be, the room exists, and the sender is in the admin room or joined
   that room last; as the administrators' exactly when the sender is in the admin room.  A customer's goes to
   a room the sender's socket is in.  The first message to an empty room announces it.
   */
  lemma StampsAreTrue(events: seq<Event>, c: ClientId, email: string, text: string, createOk: bool)
    requires c in Run(events).sockets
    ensures var w := Run(events);
            var (w', stored) := SendStep(w, c, email, text, createOk);
            var allowed := email in w.rooms && (InAdminRoom(w, c) || RoomOf(w, c) == Some(email));
            && (stored.Some? <==> allowed && createOk)
            && (stored.None? ==> w'.rooms == w.rooms)
            && (stored.Some? ==>
                  && w'.rooms == w.rooms[email := w.rooms[email] + [stored.value]]
                  && stored.value.client == c && stored.value.text == text
                  && (stored.value.from == ADMIN <==> InAdminRoom(w, c))
                  && (stored.value.from == CUSTOMER ==> email in w.sockets[c]))
            && w'.notices == w.notices + (if allowed && w.rooms[email] == [] then [email] else [])
            && w'.sockets == w.sockets && w'.connectedClients == w.connectedClients
  {
    MembershipConsistent(events, c);
  }

  // ---------- where a client is ----------

  /** The event takes the client into the room: the administrators', or a stored one. */
  predicate Joins(w: World, e: Event, c: ClientId, r: string) {
    c in w.sockets && ((e == JoinAdmin(c) && r == ADMIN_ROOM) || (e == Join(c, r) && r in w.rooms))
  }

  /** The event takes the client out of the room: the socket goes, or joins another one from there. */
  predicate LeavesRoom(w: World, e: Event, c: ClientId, r: string) {
    e == Disconnect(c) || (e.Join? && e.client == c && e.email in w.rooms && e.email != r && RoomOf(w, c) == Some(r))
  }

  /** The client joined the room at position i, and has not left it since. */
  ghost predicate MemberSince(events: seq<Event>, c: ClientId, r: string, i: nat) {
    && i < |events| && Joins(Run(events[..i]), events[i], c, r)
    && forall j :: i < j < |events| ==> !LeavesRoom(Run(events[..j]), events[j], c, r)
  }

  ghost predicate IsMember(events: seq<Event>, c: ClientId, r: string) { exists i: nat :: MemberSince(events, c, r, i) }

  lemma StillMember(events: seq<Event>, c: ClientId, r: string, i: nat)
    requires i < |events| - 1
    ensures var n := |events| - 1;
            MemberSince(events, c, r, i) <==>
              MemberSince(events[..n], c, r, i) && !LeavesRoom(Run(events[..n]), events[n], c, r)
  {
    var n := |events| - 1;
    assert forall j :: 0 <= j < n ==> events[..n][..j] == events[..j] && events[..n][j] == events[j];
  }

  lemma MemberNext(events: seq<Event>, c: ClientId, r: string)
    requires events != []
    ensures var n := |events| - 1;
            var w, e := Run(events[..n]), events[n];
            IsMember(events, c, r) <==> Joins(w, e, c, r) || (IsMember(events[..n], c, r) && !LeavesRoom(w, e, c, r))
  {
    var n := |events| - 1;
    if IsMember(events, c, r) {
      var i: nat :| MemberSince(events, c, r, i);
      if i < n { StillMember(events, c, r, i); }
    }
    if Joins(Run(events[..n]), events[n], c, r) { assert MemberSince(events, c, r, n); }
    if IsMember(events[..n], c, r) && !LeavesRoom(Run(events[..n]), events[n], c, r) {
      var i: nat :| MemberSince(events[..n], c, r, i);
      StillMember(events, c, r, i);
    }
  }

  ghost predicate InRoom(w: World, c: ClientId, r: string) { c in w.sockets && r in w.sockets[c] }

  lemma StepInRoom(w: World, e: Event, c: ClientId, r: string)
    requires r != c
    ensures InRoom(Step(w, e), c, r) <==> Joins(w, e, c, r) || (InRoom(w, c, r) && !LeavesRoom(w, e, c, r))
  {
  }

  /** In every run a socket is in exactly the rooms that its client joined and has not left since. */
  lemma {:induction false} RoomsAreJoined(events: seq<Event>, c: ClientId, r: string)
    requires r != c
    ensures InRoom(Run(events), c, r) <==> IsMember(events, c, r)
  {
    if events != [] {
      var n := |events| - 1;
      RoomsAreJoined(events[..n], c, r);
      StepInRoom(Run(events[..n]), events[n], c, r);
      MemberNext(events, c, r);
    }
  }

  /** The room a connected client joined last. */
  function LastJoined(events: seq<Event>, c: ClientId): Option<string> {
    if events == [] then None else
    var before, e := events[..|events| - 1], events[|events| - 1];
    if e == Disconnect(c) then None
    else if e == JoinAdmin(c) && c in Run(before).sockets then Some(ADMIN_ROOM)
    else if e.Join? && e.client == c && c in Run(before).sockets && e.email in Run(before).rooms then Some(e.email)
    else LastJoined(before, c)
  }

  /** In every run the entry of a connected client is the room it joined last. */
  lemma {:induction false} EntryIsLastJoin(events: seq<Event>, c: ClientId)
    ensures var w := Run(events);
            if c in w.sockets
            then LastJoined(events, c) == if c in w.connectedClients then Some(w.connectedClients[c]) else None
            else LastJoined(events, c) == None
  {
    if events != [] {
      EntryIsLastJoin(events[..|events| - 1], c);
      StepEntry(Run(events[..|events| - 1]), events[|events| - 1], c, LastJoined(events[..|events| - 1], c));
    }
  }

  lemma StepEntry(w: World, e: Event, c: ClientId, last: Option<string>)
    requires if c in w.sockets then last == if c in w.connectedClients then Some(w.connectedClients[c]) else None
             else last == None
    ensures var w' := Step(w, e);
            var next := if e == Disconnect(c) then None
                        else if e == JoinAdmin(c) && c in w.sockets then Some(ADMIN_ROOM)
                        else if e.Join? && e.client == c && c in w.sockets && e.email in w.rooms then Some(e.email)
                        else last;
            if c in w'.sockets then next == if c in w'.connectedClients then Some(w'.connectedClients[c]) else None
            else next == None
  {
  }

  /** In every run the stored rooms are those that were opened. */
  lemma {:induction false} RoomsAreOpened(events: seq<Event>, email: string)
    ensures email in Run(events).rooms <==> OpenRoom(email) in events
  {
    if events != [] {
      var n := |events| - 1;
      RoomsAreOpened(events[..n], email);
      assert events == events[..n] + [events[n]];
    }
  }

  // ---------- who is stamped as an administrator ----------

  /** No chat room is called like the room of the administrators. */
  ghost predicate NoAdminRoom(events: seq<Event>) {
    forall i :: 0 <= i < |events| ==> events[i] != OpenRoom(ADMIN_ROOM)
  }

  /** The event takes a client out of the room joined before: the socket goes, or joins a stored room. */
  predicate Leaves(w: World, e: Event, c: ClientId) {
    e == Disconnect(c) || (e.Join? && e.client == c && e.email in w.rooms)
  }

  /** At position i the client came in as an administrator, which takes the right to, and has stayed since. */
  ghost predicate AdminSince(events: seq<Event>, c: ClientId, i: nat) {
    && i < |events| && events[i] == JoinAdmin(c) && c in Run(events[..i]).sockets
    && forall j :: i < j < |events| ==> !Leaves(Run(events[..j]), events[j], c)
  }

  ghost predicate CameAsAdmin(events: seq<Event>, c: ClientId) { exists i: nat :: AdminSince(events, c, i) }

  lemma RoomsNamed(events: seq<Event>)
    requires NoAdminRoom(events)
    ensures ADMIN_ROOM !in Run(events).rooms
  {
    if events != [] {
      var n := |events| - 1;
      assert NoAdminRoom(events[..n]);
      RoomsNamed(events[..n]);
      assert events[n] != OpenRoom(ADMIN_ROOM);
    }
  }

  lemma StillSince(events: seq<Event>, c: ClientId, i: nat)
    requires i < |events| - 1
    ensures var n := |events| - 1;
            AdminSince(events, c, i) <==> AdminSince(events[..n], c, i) && !Leaves(Run(events[..n]), events[n], c)
  {
    var n := |events| - 1;
    assert forall j :: 0 <= j < n ==> events[..n][..j] == events[..j] && events[..n][j] == events[j];
  }

  /** One event more: the client comes in now, or was in before and does not leave. */
  lemma CameAsAdminNext(events: seq<Event>, c: ClientId)
    requires events != []
    ensures var n := |events| - 1;
            var w, e := Run(events[..n]), events[n];
            CameAsAdmin(events, c) <==>
              (e == JoinAdmin(c) && c in w.sockets) || (CameAsAdmin(events[..n], c) && !Leaves(w, e, c))
  {
    var n := |events| - 1;
    if CameAsAdmin(events, c) {
      var i: nat :| AdminSince(events, c, i);
      if i < n { StillSince(events, c, i); }
    }
    if events[n] == JoinAdmin(c) && c in Run(events[..n]).sockets { assert AdminSince(events, c, n); }
    if CameAsAdmin(events[..n], c) && !Leaves(Run(events[..n]), events[n], c) {
      var i: nat :| AdminSince(events[..n], c, i);
      StillSince(events, c, i);
    }
  }

  lemma StepInAdminRoom(w: World, e: Event, c: ClientId)
    requires Consistent(w, c) && ADMIN_ROOM !in w.rooms
    ensures InAdminRoom(Step(w, e), c) <==>
              (e == JoinAdmin(c) && c in w.sockets) || (InAdminRoom(w, c) && !Leaves(w, e, c))
  {
  }

  /** A socket is in the room of the administrators exactly when it came in as one and has not left since. */
  lemma {:induction false} AdminsCameAsAdmins(events: seq<Event>, c: ClientId)
    requires NoAdminRoom(events)
    ensures InAdminRoom(Run(events), c) <==> CameAsAdmin(events, c)
  {
    if events != [] {
      var n := |events| - 1;
      assert NoAdminRoom(events[..n]);
      AdminsCameAsAdmins(events[..n], c);
      MembershipConsistent(events[..n], c);
      RoomsNamed(events[..n]);
      StepInAdminRoom(Run(events[..n]), events[n], c);
      CameAsAdminNext(events, c);
    }
  }

  /**
   As long as no chat room is called `admin`, a message is stored as the administrators' exactly when its
   sender came in through the guarded event and has not left since.
   */
  lemma StampsAreEarned(events: seq<Event>, c: ClientId, email: string, text: string, createOk: bool)
    requires NoAdminRoom(events) && c in Run(events).sockets
    ensures var stored := SendStep(Run(events), c, email, text, createOk).1;
            stored.Some? ==> (stored.value.from == ADMIN <==> CameAsAdmin(events, c))
  {
    StampsAreTrue(events, c, email, text, createOk);
    AdminsCameAsAdmins(events, c);
  }
}
