/** The real-time side of the backend (backend/server.js): the handshake
    that binds an optional identity to a connection, the private room of an
    authenticated connection, the owner-or-member gated `joinProject`, the
    unconditional `leaveProject`, and delivery of room events emitted by the
    task routes. */
module SocketServer {
  import opened Js
  import opened ProjectAccess
  import TaskRoutes

  type ConnId = nat

  /** A socket.io room is whatever value was passed to `join`/`leave`; the
      server's own joins always pass strings. */
  type Room = WireValue

  /** `user:<id>`, the private room of an authenticated connection. */
  function PrivateRoom(uid: string): Room
  {
    Str("user:" + uid)
  }

  /** What a connection receives. */
  datatype ServerEvent = AccessDenied(projectId: WireValue) | RoomEvent(event: TaskRoutes.TaskEvent)

  /** The outcome of `Project.findOne({ _id: projectId, $or: [{ owner }, { members }] })`:
      a project, none, or an exception. */
  datatype Lookup = Found | NotFound | LookupFailed

  /** The `io.use` middleware. `token` is `handshake.auth.token` ("" when
      absent), `secret` is `JWT_SECRET` ("" when unset), and `verify` is
      `jwt.verify` followed by `String(decoded.id)`, `None` when it throws.
      The result is the bound user id, "" for an anonymous connection; the
      middleware never refuses a connection. */
  function Handshake(token: string, secret: string, verify: (string, string) -> Option<string>): (uid: string)
    ensures token == "" || secret == "" ==> uid == ""
    ensures token != "" && secret != "" && verify(token, secret).None? ==> uid == ""
    ensures token != "" && secret != "" && verify(token, secret).Some? ==> uid == verify(token, secret).value
  {
    if token == "" || secret == "" then ""
    else
      match verify(token, secret)
      case None => ""
      case Some(id) => id
  }

  /** The database side of the join query: ids are stored raw, and the
      query matches an owner equal to the user or a `members` array that
      contains the user. A project id that is not a string cannot be cast
      to an ObjectId, so the query throws. */
  function StoreLookup(store: map<string, Project>, projectId: WireValue, uid: string): (r: Lookup)
    ensures r == Found ==> projectId.Str? && projectId.s in store
  {
    if !projectId.Str? then LookupFailed
    else if projectId.s !in store then NotFound
    else
      var p := store[projectId.s];
      if p.owner == Raw(uid) || Raw(uid) in p.members then Found else NotFound
  }

  /** A project whose references are all stored raw. */
  predicate StoredRaw(p: Project)
  {
    p.owner.Raw? && forall i :: 0 <= i < |p.members| ==> p.members[i].Raw?
  }

  /** On stored records the join query agrees with `isMember`. */
  lemma StoreLookupIsMembership(store: map<string, Project>, projectId: WireValue, uid: string)
    requires uid != ""
    requires forall k :: k in store ==> StoredRaw(store[k])
    ensures StoreLookup(store, projectId, uid) == Found <==>
      projectId.Str? && projectId.s in store && IsMember(Some(store[projectId.s]), uid)
  {
    if projectId.Str? && projectId.s in store {
      var p := store[projectId.s];
      assert StoredRaw(p);
      if IsMember(Some(p), uid) && p.owner != Raw(uid) {
        var i :| 0 <= i < |p.members| && ToIdString(p.members[i]) == uid;
        assert p.members[i] == Raw(uid);
      }
      if Raw(uid) in p.members {
        var i :| 0 <= i < |p.members| && p.members[i] == Raw(uid);
        assert ToIdString(p.members[i]) == uid;
      }
    }
  }

  /** The events a connection whose rooms are `joined` receives from the
      emits `emits`, in emission order. */
  function Delivered(emits: seq<TaskRoutes.Emit>, joined: set<Room>): (r: seq<ServerEvent>)
    ensures |r| <= |emits|
  {
    if emits == [] then []
    else
      var last := emits[|emits| - 1];
      Delivered(emits[..|emits| - 1], joined) + (if Str(last.room) in joined then [RoomEvent(last.event)] else [])
  }

  /** Delivering one more emit appends to what each connection got. */
  lemma DeliveredStep(emits: seq<TaskRoutes.Emit>, i: nat)
    requires i < |emits|
    ensures forall joined ::
              Delivered(emits[..i + 1], joined)
              == Delivered(emits[..i], joined) + (if Str(emits[i].room) in joined then [RoomEvent(emits[i].event)] else [])
  {
    assert emits[..i + 1][..i] == emits[..i];
  }

  /** A connection in none of the emits' rooms receives nothing. */
  lemma {:induction false} DeliveredOutsideRoom(emits: seq<TaskRoutes.Emit>, joined: set<Room>)
    requires forall k :: 0 <= k < |emits| ==> Str(emits[k].room) !in joined
    ensures Delivered(emits, joined) == []
  {
    if emits != [] {
      DeliveredOutsideRoom(emits[..|emits| - 1], joined);
    }
  }

  /** A connection in every emit's room receives every event, once and in order. */
  lemma {:induction false} DeliveredInsideRoom(emits: seq<TaskRoutes.Emit>, joined: set<Room>)
    requires forall k :: 0 <= k < |emits| ==> Str(emits[k].room) in joined
    ensures |Delivered(emits, joined)| == |emits|
    ensures forall k :: 0 <= k < |emits| ==> Delivered(emits, joined)[k] == RoomEvent(emits[k].event)
  {
    if emits != [] {
      DeliveredInsideRoom(emits[..|emits| - 1], joined);
    }
  }

  class Server {
    /** `socket.userId` per live connection, "" when anonymous. */
    var userOf: map<ConnId, string>
    /** The rooms each live connection is in. */
    var rooms: map<ConnId, set<Room>>
    /** What each live connection has been sent, oldest first. */
    var inbox: map<ConnId, seq<ServerEvent>>
    /** The (connection, room) pairs the project lookup has granted. */
    ghost var grants: set<(ConnId, Room)>

    /** Every live connection is known to all three maps; an anonymous one
        is in no room; a room is the connection's private room or one its
        lookup granted; and every room name is a string. */
    ghost predicate Valid()
      reads this
    {
      && rooms.Keys == userOf.Keys
      && inbox.Keys == userOf.Keys
      && (forall c :: c in rooms && userOf[c] == "" ==> rooms[c] == {})
      && (forall c, r :: c in rooms && r in rooms[c] ==>
            r.Str? && (r == PrivateRoom(userOf[c]) || (c, r) in grants))
    }

    constructor ()
      ensures Valid()
      ensures userOf == map[] && rooms == map[] && inbox == map[] && grants == {}
    {
      userOf, rooms, inbox := map[], map[], map[];
      grants := {};
    }

    /** The `connection` handler: an authenticated connection joins
        `user:<id>`, an anonymous one joins nothing. The default room that
        socket.io gives each socket under its own id receives no emits and
        is not kept in `rooms`. */
    method Connect(c: ConnId, uid: string)
      requires Valid() && c !in userOf
      modifies this
      ensures Valid()
      ensures userOf == old(userOf)[c := uid]
      ensures rooms == old(rooms)[c := if uid != "" then {PrivateRoom(uid)} else {}]
      ensures inbox == old(inbox)[c := []]
      ensures grants == old(grants)
    {
      userOf := userOf[c := uid];
      rooms := rooms[c := if uid != "" then {PrivateRoom(uid)} else {}];
      inbox := inbox[c := []];
    }

    /** `socket.on("joinProject")`. A falsy id or an anonymous connection is
        ignored; otherwise the room `String(projectId)` is joined when the
        lookup finds the project, and on a miss or an exception
        `project:access_denied` goes to this connection alone. */
    method JoinProject(c: ConnId, projectId: WireValue, lookup: (WireValue, string) -> Lookup)
      requires Valid() && c in userOf
      modifies this
      ensures Valid()
      ensures userOf == old(userOf)
      ensures !Truthy(projectId) || userOf[c] == "" ==>
        rooms == old(rooms) && inbox == old(inbox) && grants == old(grants)
      ensures Truthy(projectId) && userOf[c] != "" && lookup(projectId, userOf[c]) == Found ==>
        rooms == old(rooms)[c := old(rooms)[c] + {Str(ToJsString(projectId))}] && inbox == old(inbox)
        && grants == old(grants) + {(c, Str(ToJsString(projectId)))}
      ensures Truthy(projectId) && userOf[c] != "" && lookup(projectId, userOf[c]) != Found ==>
        rooms == old(rooms) && inbox == old(inbox)[c := old(inbox)[c] + [AccessDenied(projectId)]]
        && grants == old(grants)
    {
      var uid := userOf[c];
      if !Truthy(projectId) || uid == "" {
        return;
      }
      var answer := lookup(projectId, uid);
      if answer == Found {
        var room := Str(ToJsString(projectId));
        rooms := rooms[c := rooms[c] + {room}];
        grants := grants + {(c, room)};
      } else {
        inbox := inbox[c := inbox[c] + [AccessDenied(projectId)]];
      }
    }

    /** `socket.on("leaveProject")`: leaves the room named by the raw value,
        with no authorization check. */
    method LeaveProject(c: ConnId, projectId: WireValue)
      requires Valid() && c in userOf
      modifies this
      ensures Valid()
      ensures userOf == old(userOf) && inbox == old(inbox) && grants == old(grants)
      ensures rooms == if Truthy(projectId) then old(rooms)[c := old(rooms)[c] - {projectId}] else old(rooms)
    {
      if Truthy(projectId) {
        rooms := rooms[c := rooms[c] - {projectId}];
      }
    }

    /** `io.to(room).emit(event)`: every connection in the room receives the
        event once; no other connection receives anything. */
    method Publish(e: TaskRoutes.Emit)
      requires Valid()
      modifies this
      ensures Valid()
      ensures userOf == old(userOf) && rooms == old(rooms)
      ensures inbox.Keys == old(inbox).Keys
      ensures forall c :: c in inbox ==>
        inbox[c] == old(inbox)[c] + (if Str(e.room) in rooms[c] then [RoomEvent(e.event)] else [])
    {
      inbox := map c | c in inbox :: inbox[c] + (if Str(e.room) in rooms[c] then [RoomEvent(e.event)] else []);
    }

    /** The emits of one route, in order. */
    method Broadcast(emits: seq<TaskRoutes.Emit>)
      requires Valid()
      modifies this
      ensures Valid()
      ensures userOf == old(userOf) && rooms == old(rooms)
      ensures inbox.Keys == old(inbox).Keys
      ensures forall c :: c in inbox ==> inbox[c] == old(inbox)[c] + Delivered(emits, rooms[c])
    {
      var i := 0;
      while i < |emits|
        invariant 0 <= i <= |emits|
        invariant Valid()
        invariant userOf == old(userOf) && rooms == old(rooms)
        invariant inbox.Keys == old(inbox).Keys
        invariant forall c :: c in inbox ==> inbox[c] == old(inbox)[c] + Delivered(emits[..i], rooms[c])
      {
        DeliveredStep(emits, i);
        Publish(emits[i]);
        i := i + 1;
      }
      assert emits[..i] == emits;
    }
  }

  /** A task event published to a project room reaches the connection that
      joined it and no other. */
  method PublishReachesOnlyRoom(ev: TaskRoutes.TaskEvent) returns (member: seq<ServerEvent>, outsider: seq<ServerEvent>)
    ensures member == [RoomEvent(ev)] && outsider == []
  {
    var s := new Server();
    s.Connect(1, "alice");
    s.Connect(2, "carol");
    var store := map["p1" := Project("p1", Raw("alice"), [], [])];
    assert StoreLookup(store, Str("p1"), "alice") == Found;
    s.JoinProject(1, Str("p1"), (pid: WireValue, uid: string) => StoreLookup(store, pid, uid));
    assert Str("p1") !in s.rooms[2];
    s.Publish(TaskRoutes.Emit("p1", ev));
    member, outsider := s.inbox[1], s.inbox[2];
  }

  /** A join by a user who neither owns nor belongs to the project is
      refused: the requester alone is notified and no room is joined. */
  method DeniedJoinOnlyNotifies() returns (joined: set<Room>, requester: seq<ServerEvent>, other: seq<ServerEvent>)
    ensures joined == {PrivateRoom("carol")}
    ensures requester == [AccessDenied(Str("p1"))] && other == []
  {
    var s := new Server();
    s.Connect(1, "carol");
    s.Connect(2, "alice");
    var store := map["p1" := Project("p1", Raw("alice"), [Raw("bob")], [])];
    assert StoreLookup(store, Str("p1"), "carol") == NotFound;
    s.JoinProject(1, Str("p1"), (pid: WireValue, uid: string) => StoreLookup(store, pid, uid));
    joined, requester, other := s.rooms[1], s.inbox[1], s.inbox[2];
  }

  /** Join names the room `String(projectId)` while leave uses the raw
      value; the two agree for every id the project query can find, since
      only a string id passes it. */
  lemma FoundRoomIsRawId(store: map<string, Project>, projectId: WireValue, uid: string)
    requires StoreLookup(store, projectId, uid) == Found
    ensures projectId.Str? && Str(ToJsString(projectId)) == projectId
  {
  }

  /** Under the project query, a numeric id never joins a room: a non-zero
      one is refused with `project:access_denied`, a zero one is ignored as
      falsy, and leaving it afterwards changes nothing. */
  method NumericIdIsRefused(store: map<string, Project>, n: int)
    returns (joined: set<Room>, requester: seq<ServerEvent>)
    ensures joined == {PrivateRoom("alice")}
    ensures requester == if n != 0 then [AccessDenied(Num(n))] else []
  {
    var s := new Server();
    s.Connect(1, "alice");
    s.JoinProject(1, Num(n), (pid: WireValue, uid: string) => StoreLookup(store, pid, uid));
    s.LeaveProject(1, Num(n));
    joined, requester := s.rooms[1], s.inbox[1];
  }
}
