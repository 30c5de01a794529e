/**
 Room lifecycle in the connector's SQL storage (packages/media_connector/src/sql_storage.rs): rooms,
 peers and peer sessions are table rows; a room whose last peer left is destroyed after a delay;
 hooks tell listeners when rooms start and stop.

 Each table is a map from primary key to row, and each query an atomic operation on it.  A query for
 one row may return any matching row, so the rows found are parameters (`Picks`) constrained only by
 the query.
 */
module RoomStorage {
  import opened Options
  import opened Sequences

  datatype Room = Room(app: string, name: string, createdAt: nat, lastPeerLeavedAt: Option<nat>, destroyedAt: Option<nat>)
  datatype Peer = Peer(room: nat, name: string, createdAt: nat)
  datatype PeerSession = PeerSession(peer: nat, room: nat, session: nat, createdAt: nat, joinedAt: nat, leavedAt: Option<nat>)

  datatype HookKind = Started | PeerJoined(peer: string) | PeerLeaved(peer: string) | AllPeersLeaved | Stopped
  datatype Hook = Hook(app: string, room: string, ts: nat, kind: HookKind)

  /** The tables, the next value of each primary key, and every hook event fired so far. */
  datatype Tables = Tables(
    rooms: map<nat, Room>,
    peers: map<nat, Peer>,
    sessions: map<nat, PeerSession>,
    nextRoom: nat,
    nextPeer: nat,
    nextSession: nat,
    hooks: seq<Hook>)

  const EMPTY := Tables(map[], map[], map[], 0, 0, 0, [])

  /** How many rooms one tick may destroy. */
  const DESTROY_LIMIT: nat := 100

  // ---------------------------------------------------------------- queries

  function LiveRooms(rooms: map<nat, Room>, app: string, name: string): set<nat> {
    set r | r in rooms && rooms[r].app == app && rooms[r].name == name && rooms[r].destroyedAt.None?
  }

  function PeersNamed(peers: map<nat, Peer>, room: nat, name: string): set<nat> {
    set p | p in peers && peers[p].room == room && peers[p].name == name
  }

  function SessionsOf(sessions: map<nat, PeerSession>, peer: nat, session: nat): set<nat> {
    set x | x in sessions && sessions[x].peer == peer && sessions[x].session == session
  }

  function OpenSessionsOf(sessions: map<nat, PeerSession>, peer: nat, session: nat): set<nat> {
    set x | x in sessions && sessions[x].peer == peer && sessions[x].session == session && sessions[x].leavedAt.None?
  }

  /** Open sessions of a room, found through the peers of the room. */
  function Online(sessions: map<nat, PeerSession>, peers: map<nat, Peer>, room: nat): set<nat> {
    set x | x in sessions && sessions[x].leavedAt.None? && sessions[x].peer in peers && peers[sessions[x].peer].room == room
  }

  /** Undestroyed rooms left empty for at least `delay`. */
  function Expired(rooms: map<nat, Room>, now: nat, delay: nat): set<nat> {
    set r | r in rooms && rooms[r].destroyedAt.None? && rooms[r].lastPeerLeavedAt.Some?
         && rooms[r].lastPeerLeavedAt.value + delay <= now
  }

  /** A query for one row: some matching row, or nothing if there is none. */
  predicate IsOne(matching: set<nat>, pick: Option<nat>) {
    if pick.Some? then pick.value in matching else matching == {}
  }

  /** A query for at most `limit` rows: distinct matching rows, all of them if there are no more than `limit`. */
  ghost predicate IsSome(matching: set<nat>, limit: nat, rows: seq<nat>) {
    && (forall x :: x in rows ==> x in matching)
    && NoRepeat(rows)
    && |rows| <= limit
    && (|rows| < limit ==> forall x :: x in matching ==> x in rows)
  }

  // ---------------------------------------------------------------- updates

  function Fire(t: Tables, h: Hook): Tables {
    t.(hooks := t.hooks + [h])
  }

  /** The room's undestroyed row with its timer cleared, or a new row and a Started hook. */
  function UpsertRoom(t: Tables, now: nat, ts: nat, app: string, name: string, pick: Option<nat>): (r: (Tables, nat))
    requires IsOne(LiveRooms(t.rooms, app, name), pick)
    ensures r.1 in r.0.rooms
  {
    if pick.Some? then
      (t.(rooms := t.rooms[pick.value := t.rooms[pick.value].(lastPeerLeavedAt := None)]), pick.value)
    else
      (Fire(t, Hook(app, name, ts, Started)).(
         rooms := t.rooms[t.nextRoom := Room(app, name, now, None, None)], nextRoom := t.nextRoom + 1),
       t.nextRoom)
  }

  function UpsertPeer(t: Tables, now: nat, room: nat, name: string, pick: Option<nat>): (r: (Tables, nat))
    requires IsOne(PeersNamed(t.peers, room, name), pick)
    ensures r.1 in r.0.peers && r.0 == t.(peers := r.0.peers, nextPeer := r.0.nextPeer)
  {
    if pick.Some? then (t, pick.value)
    else (t.(peers := t.peers[t.nextPeer := Peer(room, name, now)], nextPeer := t.nextPeer + 1), t.nextPeer)
  }

  /** A session row is added unless an open one exists. */
  function UpsertPeerSession(t: Tables, now: nat, ts: nat, room: nat, peer: nat, session: nat): Tables {
    if OpenSessionsOf(t.sessions, peer, session) != {} then t
    else
      t.(sessions := t.sessions[t.nextSession := PeerSession(peer, room, session, now, ts, None)],
         nextSession := t.nextSession + 1)
  }

  function CloseSession(t: Tables, ts: nat, pick: Option<nat>): Tables
    requires pick.Some? ==> pick.value in t.sessions
  {
    if pick.None? then t
    else t.(sessions := t.sessions[pick.value := t.sessions[pick.value].(leavedAt := Some(ts))])
  }

  /** If nobody is left, start the room's timer and say so. */
  function NoteIfEmpty(t: Tables, now: nat, ts: nat, app: string, name: string, room: nat): Tables
    requires room in t.rooms
  {
    if Online(t.sessions, t.peers, room) != {} then t
    else
      Fire(t, Hook(app, name, ts, AllPeersLeaved)).(
        rooms := t.rooms[room := t.rooms[room].(lastPeerLeavedAt := Some(now))])
  }

  function DestroyRoom(t: Tables, now: nat, room: nat): Tables
    requires room in t.rooms
  {
    Fire(t, Hook(t.rooms[room].app, t.rooms[room].name, now, Stopped)).(
      rooms := t.rooms[room := t.rooms[room].(destroyedAt := Some(now))])
  }

  // ---------------------------------------------------------------- events

  /** The rows the queries of one event return. */
  datatype Picks = Picks(room: Option<nat>, peer: Option<nat>, session: Option<nat>)

  /** Who does what in which room: `now` is the storage's clock, `ts` the sender's. */
  datatype Who = Who(now: nat, ts: nat, app: string, room: string, peer: string, session: nat)

  /** The room and the peer of the event are rows that its queries may find. */
  predicate EnterFits(t: Tables, w: Who, p: Picks) {
    && IsOne(LiveRooms(t.rooms, w.app, w.room), p.room)
    && IsOne(PeersNamed(t.peers, UpsertRoom(t, w.now, w.ts, w.app, w.room, p.room).1, w.peer), p.peer)
  }

  /** The room and the peer of the event exist from here on. */
  function Enter(t: Tables, w: Who, p: Picks): (Tables, nat, nat)
    requires EnterFits(t, w, p)
  {
    var (t1, room) := UpsertRoom(t, w.now, w.ts, w.app, w.room, p.room);
    var (t2, peer) := UpsertPeer(t1, w.now, room, w.peer, p.peer);
    (t2, room, peer)
  }

  predicate LeaveFits(t: Tables, w: Who, p: Picks) {
    EnterFits(t, w, p) && IsOne(SessionsOf(t.sessions, Enter(t, w, p).2, w.session), p.session)
  }

  function Join(t: Tables, w: Who, p: Picks): Tables
    requires EnterFits(t, w, p)
  {
    var (t1, room, peer) := Enter(t, w, p);
    Fire(UpsertPeerSession(t1, w.now, w.ts, room, peer, w.session), Hook(w.app, w.room, w.ts, PeerJoined(w.peer)))
  }

  /** Any row of the peer and session is closed, whether or not it is the open one. */
  function Leave(t: Tables, w: Who, p: Picks): Tables
    requires LeaveFits(t, w, p)
  {
    var (t1, room, peer) := Enter(Fire(t, Hook(w.app, w.room, w.ts, PeerLeaved(w.peer))), w, p);
    NoteIfEmpty(CloseSession(t1, w.ts, p.session), w.now, w.ts, w.app, w.room, room)
  }

  function DestroyAll(t: Tables, now: nat, rooms: seq<nat>): (r: Tables)
    requires forall x :: x in rooms ==> x in t.rooms
    ensures r.rooms.Keys == t.rooms.Keys
  {
    if rooms == [] then t
    else DestroyRoom(DestroyAll(t, now, rooms[..|rooms| - 1]), now, rooms[|rooms| - 1])
  }

  // ---------------------------------------------------------------- the storage

  class ConnectorSqlStorage {
    const roomDestroyAfterMs: nat
    var rooms: map<nat, Room>
    var peers: map<nat, Peer>
    var sessions: map<nat, PeerSession>
    var nextRoom: nat
    var nextPeer: nat
    var nextSession: nat
    var hookEvents: seq<Hook>

    ghost function View(): Tables
      reads this
    {
      Tables(rooms, peers, sessions, nextRoom, nextPeer, nextSession, hookEvents)
    }

    constructor (roomDestroyAfterMs: nat)
      ensures View() == EMPTY && this.roomDestroyAfterMs == roomDestroyAfterMs
    {
      this.roomDestroyAfterMs := roomDestroyAfterMs;
      rooms, peers, sessions := map[], map[], map[];
      nextRoom, nextPeer, nextSession := 0, 0, 0;
      hookEvents := [];
    }

    static method SelectOne(matching: set<nat>) returns (r: Option<nat>)
      ensures IsOne(matching, r)
    {
      if matching == {} {
        return None;
      }
      var x :| x in matching;
      return Some(x);
    }

    static method SelectSome(matching: set<nat>, limit: nat) returns (rows: seq<nat>)
      ensures IsSome(matching, limit, rows)
    {
      rows := [];
      var rest := matching;
      while rest != {} && |rows| < limit
        invariant forall x :: x in matching <==> x in rows || x in rest
        invariant forall x :: x in rows ==> x !in rest
        invariant NoRepeat(rows)
        invariant |rows| <= limit
        decreases rest
      {
        var x :| x in rest;
        NoRepeatAppend(rows, x);
        rows := rows + [x];
        rest := rest - {x};
      }
    }

    method UpsertRoomRow(now: nat, ts: nat, app: string, name: string) returns (room: nat, ghost pick: Option<nat>)
      modifies this
      ensures IsOne(LiveRooms(old(rooms), app, name), pick)
      ensures (View(), room) == UpsertRoom(old(View()), now, ts, app, name, pick)
    {
      var row := SelectOne(LiveRooms(rooms, app, name));
      pick := row;
      if row.Some? {
        room := row.value;
        var info := rooms[room];
        rooms := rooms[room := info.(lastPeerLeavedAt := None)];
      } else {
        hookEvents := hookEvents + [Hook(app, name, ts, Started)];
        room := nextRoom;
        rooms := rooms[room := Room(app, name, now, None, None)];
        nextRoom := nextRoom + 1;
      }
    }

    method UpsertPeerRow(now: nat, room: nat, name: string) returns (peer: nat, ghost pick: Option<nat>)
      modifies this
      ensures IsOne(PeersNamed(old(peers), room, name), pick)
      ensures (View(), peer) == UpsertPeer(old(View()), now, room, name, pick)
    {
      var row := SelectOne(PeersNamed(peers, room, name));
      pick := row;
      if row.Some? {
        peer := row.value;
      } else {
        peer := nextPeer;
        peers := peers[peer := Peer(room, name, now)];
        nextPeer := nextPeer + 1;
      }
    }

    method OnJoin(w: Who) returns (ghost p: Picks)
      modifies this
      ensures EnterFits(old(View()), w, p) && View() == Join(old(View()), w, p)
    {
      var room, pickedRoom := UpsertRoomRow(w.now, w.ts, w.app, w.room);
      var peer, pickedPeer := UpsertPeerRow(w.now, room, w.peer);
      p := Picks(pickedRoom, pickedPeer, None);
      var open := SelectOne(OpenSessionsOf(sessions, peer, w.session));
      if open.None? {
        sessions := sessions[nextSession := PeerSession(peer, room, w.session, w.now, w.ts, None)];
        nextSession := nextSession + 1;
      }
      hookEvents := hookEvents + [Hook(w.app, w.room, w.ts, PeerJoined(w.peer))];
    }

    method OnLeave(w: Who) returns (ghost p: Picks)
      modifies this
      ensures LeaveFits(old(View()), w, p) && View() == Leave(old(View()), w, p)
    {
      hookEvents := hookEvents + [Hook(w.app, w.room, w.ts, PeerLeaved(w.peer))];
      var room, pickedRoom := UpsertRoomRow(w.now, w.ts, w.app, w.room);
      var peer, pickedPeer := UpsertPeerRow(w.now, room, w.peer);
      var row := SelectOne(SessionsOf(sessions, peer, w.session));
      p := Picks(pickedRoom, pickedPeer, row);
      if row.Some? {
        var model := sessions[row.value];
        sessions := sessions[row.value := model.(leavedAt := Some(w.ts))];
      }
      if |Online(sessions, peers, room)| == 0 {
        var row := rooms[room];
        rooms := rooms[room := row.(lastPeerLeavedAt := Some(w.now))];
        hookEvents := hookEvents + [Hook(w.app, w.room, w.ts, AllPeersLeaved)];
      }
    }

    /** The clock is past the delay: the source subtracts one from the other. */
    method CloseExitedRooms(now: nat) returns (ghost rows: seq<nat>)
      requires now >= roomDestroyAfterMs
      modifies this
      ensures IsSome(Expired(old(rooms), now, roomDestroyAfterMs), DESTROY_LIMIT, rows)
      ensures forall x :: x in rows ==> x in old(rooms)
      ensures View() == DestroyAll(old(View()), now, rows)
    {
      var wait := SelectSome(Expired(rooms, now, roomDestroyAfterMs), DESTROY_LIMIT);
      rows := wait;
      var i := 0;
      while i < |wait|
        invariant 0 <= i <= |wait|
        invariant forall x :: x in wait ==> x in old(rooms)
        invariant View() == DestroyAll(old(View()), now, wait[..i])
      {
        var room := rooms[wait[i]];
        assert wait[..i + 1][..i] == wait[..i];
        rooms := rooms[wait[i] := room.(destroyedAt := Some(now))];
        hookEvents := hookEvents + [Hook(room.app, room.name, now, Stopped)];
        i := i + 1;
      }
      assert wait[..i] == wait;
    }

    method PopHookEvent() returns (h: Option<Hook>)
      modifies this`hookEvents
      ensures if old(hookEvents) == [] then h == None && hookEvents == []
              else h == Some(old(hookEvents)[0]) && hookEvents == old(hookEvents)[1..]
    {
      if hookEvents == [] {
        return None;
      }
      h := Some(hookEvents[0]);
      hookEvents := hookEvents[1..];
    }
  }
}
