/**
 What events do to the room storage, said of the events: which rooms a tick destroys, and which hooks
 are fired, each exactly as often as its cause.
 */
module RoomStorageEvents {
  import opened Options
  import opened Sequences
  import opened RoomStorage
  import opened RoomStorageRuns

  // ---------------------------------------------------------------- when a room is due

  /** When a peer last left the room, as the leave events tell. */
  ghost function LastLeave(delay: nat, events: seq<Event>, r: nat): Option<nat> {
    if events == [] then None
    else
      var init, e := events[..|events| - 1], events[|events| - 1];
      if e.Left? && LeavesRoom(After(delay, init), e, r, e.w.now) then Some(e.w.now) else LastLeave(delay, init, r)
  }

  /** The timer of an empty room says when a peer last left it. */
  lemma {:induction false} TimerIsLastLeave(delay: nat, events: seq<Event>, r: nat)
    requires LegalRun(delay, events) && IsLive(After(delay, events), r) && Vacant(After(delay, events), r)
    ensures LastLeave(delay, events, r).Some? && After(delay, events).rooms[r].lastPeerLeavedAt == LastLeave(delay, events, r)
  {
    var n := |events| - 1;
    var t, e := After(delay, events[..n]), events[n];
    RunGood(delay, events[..n]);
    if e.Left? && LeavesRoom(t, e, r, e.w.now) {
      LeftNow(t, e.w, e.p, r);
    } else {
      UntouchedRoom(delay, t, e, r);
      TimerIsLastLeave(delay, events[..n], r);
    }
  }

  lemma LeftNow(t: Tables, w: Who, p: Picks, r: nat)
    requires Structure(t) && LeaveFits(t, w, p) && Enter(t, w, p).1 == r && Vacant(Leave(t, w, p), r)
    ensures r in Leave(t, w, p).rooms && Leave(t, w, p).rooms[r].lastPeerLeavedAt == Some(w.now)
  {
    LeaveShape(t, w, p);
  }

  /** A room that is empty after an event that is not a leave from it was the same before. */
  lemma UntouchedRoom(delay: nat, t: Tables, e: Event, r: nat)
    requires Good(t) && Legal(delay, t, e) && IsLive(Next(delay, t, e), r) && Vacant(Next(delay, t, e), r)
    requires !(e.Left? && LeavesRoom(t, e, r, e.w.now))
    ensures IsLive(t, r) && Vacant(t, r) && Next(delay, t, e).rooms[r] == t.rooms[r]
  {
    match e
    case Joined(w, p) => JoinShape(t, w, p);
    case Left(w, p) => LeaveShape(t, w, p);
    case Ticked(now, rows) => DestroyAllShape(t, now, rows);
  }

  /** Undestroyed, with no open session, and last left at least the delay ago. */
  ghost predicate Due(delay: nat, events: seq<Event>, now: nat, r: nat) {
    var t := After(delay, events);
    && IsLive(t, r) && Vacant(t, r)
    && LastLeave(delay, events, r).Some? && LastLeave(delay, events, r).value + delay <= now
  }

  ghost function DueRooms(delay: nat, events: seq<Event>, now: nat): set<nat> {
    set r | r in After(delay, events).rooms && Due(delay, events, now, r)
  }

  lemma DueIsExpired(delay: nat, events: seq<Event>, now: nat, r: nat)
    requires LegalRun(delay, events)
    ensures r in Expired(After(delay, events).rooms, now, delay) <==> Due(delay, events, now, r)
  {
    RunGood(delay, events);
    var t := After(delay, events);
    if IsLive(t, r) {
      assert TimerRight(t, r);
      if Vacant(t, r) { TimerIsLastLeave(delay, events, r); }
    }
  }

  lemma DueAreExpired(delay: nat, events: seq<Event>, now: nat)
    requires LegalRun(delay, events)
    ensures DueRooms(delay, events, now) == Expired(After(delay, events).rooms, now, delay)
  {
    forall r
      ensures r in DueRooms(delay, events, now) <==> r in Expired(After(delay, events).rooms, now, delay)
    {
      DueIsExpired(delay, events, now, r);
    }
  }

  /** A query that is not cut off by its limit returns every matching row. */
  lemma AllReturned(matching: set<nat>, limit: nat, rows: seq<nat>, x: nat)
    requires IsSome(matching, limit, rows) && |matching| <= limit && x in matching
    ensures x in rows
  {
    if x !in rows {
      var found := set y | y in rows;
      NoRepeatSize(rows, found);
      assert found <= matching - {x};
      SmallerSet(found, matching - {x});
    }
  }

  lemma {:induction false} SmallerSet(a: set<nat>, b: set<nat>)
    requires a <= b
    ensures |a| <= |b|
  {
    if a != {} {
      var x :| x in a;
      SmallerSet(a - {x}, b - {x});
    }
  }

  lemma TickShape(delay: nat, events: seq<Event>, now: nat, rows: seq<nat>, all: seq<Event>)
    requires all == events + [Ticked(now, rows)] && LegalRun(delay, all)
    ensures LegalRun(delay, events) && IsSome(DueRooms(delay, events, now), DESTROY_LIMIT, rows)
    ensures forall x :: x in rows ==> IsLive(After(delay, events), x)
    ensures After(delay, all) == DestroyAll(After(delay, events), now, rows)
  {
    assert all[..|events|] == events;
    DueAreExpired(delay, events, now);
  }

  /**
   A tick destroys a room only if it is due, and if no more than a hundred rooms are due it destroys
   exactly those.
   */
  lemma TickDestroysIff(delay: nat, events: seq<Event>, now: nat, rows: seq<nat>, r: nat)
    requires LegalRun(delay, events + [Ticked(now, rows)]) && IsLive(After(delay, events), r)
    ensures var after := After(delay, events + [Ticked(now, rows)]);
      && (!IsLive(after, r) ==> Due(delay, events, now, r))
      && (|DueRooms(delay, events, now)| <= DESTROY_LIMIT ==> (!IsLive(after, r) <==> Due(delay, events, now, r)))
  {
    var all := events + [Ticked(now, rows)];
    TickShape(delay, events, now, rows, all);
    DestroyAllShape(After(delay, events), now, rows);
    assert !IsLive(After(delay, all), r) <==> r in rows;
    if r in rows {
      assert r in DueRooms(delay, events, now);
    } else if Due(delay, events, now, r) && |DueRooms(delay, events, now)| <= DESTROY_LIMIT {
      AllReturned(DueRooms(delay, events, now), DESTROY_LIMIT, rows, r);
    }
  }

  // ---------------------------------------------------------------- which hooks are fired

  function HookCount(hooks: seq<Hook>, h: Hook): nat {
    if hooks == [] then 0
    else HookCount(hooks[..|hooks| - 1], h) + if hooks[|hooks| - 1] == h then 1 else 0
  }

  function One(b: bool): nat {
    if b then 1 else 0
  }

  lemma CountFired(hooks: seq<Hook>, x: Hook, h: Hook)
    ensures HookCount(hooks + [x], h) == HookCount(hooks, h) + One(x == h)
  {
    assert (hooks + [x])[..|hooks|] == hooks;
  }

  /** How many of the rooms that a tick destroys are announced by the hook. */
  function StoppedRows(rooms: map<nat, Room>, now: nat, rows: seq<nat>, h: Hook): nat
    requires forall x :: x in rows ==> x in rooms
  {
    if rows == [] then 0
    else
      var x := rows[|rows| - 1];
      StoppedRows(rooms, now, rows[..|rows| - 1], h) + One(h == Hook(rooms[x].app, rooms[x].name, now, Stopped))
  }

  /**
   How often an event causes a hook: Started if no undestroyed room has the name, PeerJoined for a join,
   PeerLeaved for a leave, AllPeersLeaved for a leave after which nobody is left, and Stopped for each
   room that a tick destroys.
   */
  ghost function Causes(delay: nat, t: Tables, e: Event, h: Hook): nat
    requires Legal(delay, t, e)
  {
    match e
    case Joined(w, p) =>
      One(LiveRooms(t.rooms, w.app, w.room) == {} && h == Hook(w.app, w.room, w.ts, Started))
      + One(h == Hook(w.app, w.room, w.ts, PeerJoined(w.peer)))
    case Left(w, p) =>
      One(h == Hook(w.app, w.room, w.ts, PeerLeaved(w.peer)))
      + One(LiveRooms(t.rooms, w.app, w.room) == {} && h == Hook(w.app, w.room, w.ts, Started))
      + One(Vacant(Leave(t, w, p), Enter(t, w, p).1) && h == Hook(w.app, w.room, w.ts, AllPeersLeaved))
    case Ticked(now, rows) => StoppedRows(t.rooms, now, rows, h)
  }

  ghost function Caused(delay: nat, events: seq<Event>, h: Hook): nat
    requires LegalRun(delay, events)
  {
    if events == [] then 0
    else
      var init := events[..|events| - 1];
      Caused(delay, init, h) + Causes(delay, After(delay, init), events[|events| - 1], h)
  }

  lemma EnterFires(t: Tables, w: Who, p: Picks, h: Hook)
    requires EnterFits(t, w, p)
    ensures HookCount(Enter(t, w, p).0.hooks, h)
         == HookCount(t.hooks, h) + One(LiveRooms(t.rooms, w.app, w.room) == {} && h == Hook(w.app, w.room, w.ts, Started))
  {
    CountFired(t.hooks, Hook(w.app, w.room, w.ts, Started), h);
  }

  lemma JoinFires(delay: nat, t: Tables, w: Who, p: Picks, h: Hook)
    requires EnterFits(t, w, p)
    ensures HookCount(Join(t, w, p).hooks, h) == HookCount(t.hooks, h) + Causes(delay, t, Joined(w, p), h)
  {
    EnterFires(t, w, p, h);
    CountFired(Enter(t, w, p).0.hooks, Hook(w.app, w.room, w.ts, PeerJoined(w.peer)), h);
  }

  lemma ClosedFires(t: Tables, w: Who, p: Picks, h: Hook)
    requires LeaveFits(t, w, p)
    ensures HookCount(Closed(t, w, p).hooks, h) == HookCount(t.hooks, h)
      + One(h == Hook(w.app, w.room, w.ts, PeerLeaved(w.peer)))
      + One(LiveRooms(t.rooms, w.app, w.room) == {} && h == Hook(w.app, w.room, w.ts, Started))
  {
    var left := Hook(w.app, w.room, w.ts, PeerLeaved(w.peer));
    CountFired(t.hooks, left, h);
    EnterFires(Fire(t, left), w, p, h);
  }

  lemma NoteFires(t: Tables, w: Who, room: nat, h: Hook)
    requires room in t.rooms
    ensures var t' := NoteIfEmpty(t, w.now, w.ts, w.app, w.room, room);
      && (Vacant(t', room) <==> Vacant(t, room))
      && HookCount(t'.hooks, h) == HookCount(t.hooks, h) + One(Vacant(t', room) && h == Hook(w.app, w.room, w.ts, AllPeersLeaved))
  {
    CountFired(t.hooks, Hook(w.app, w.room, w.ts, AllPeersLeaved), h);
  }

  lemma LeaveFires(delay: nat, t: Tables, w: Who, p: Picks, h: Hook)
    requires Structure(t) && LeaveFits(t, w, p)
    ensures HookCount(Leave(t, w, p).hooks, h) == HookCount(t.hooks, h) + Causes(delay, t, Left(w, p), h)
  {
    var t2, room := Closed(t, w, p), Enter(t, w, p).1;
    ClosedShape(t, w, p);
    ClosedFires(t, w, p, h);
    NoteFires(t2, w, room, h);
    assert Leave(t, w, p) == NoteIfEmpty(t2, w.now, w.ts, w.app, w.room, room);
  }

  lemma {:induction false} DestroyFires(t: Tables, now: nat, rows: seq<nat>, h: Hook)
    requires forall x :: x in rows ==> x in t.rooms
    ensures HookCount(DestroyAll(t, now, rows).hooks, h) == HookCount(t.hooks, h) + StoppedRows(t.rooms, now, rows, h)
  {
    if rows != [] {
      var n := |rows| - 1;
      DestroyFires(t, now, rows[..n], h);
      DestroyAllShape(t, now, rows[..n]);
      var t1 := DestroyAll(t, now, rows[..n]);
      CountFired(t1.hooks, Hook(t1.rooms[rows[n]].app, t1.rooms[rows[n]].name, now, Stopped), h);
    }
  }

  /** Over every run each hook is fired exactly as often as it is caused. */
  lemma {:induction false} HooksConserved(delay: nat, events: seq<Event>, h: Hook)
    requires LegalRun(delay, events)
    ensures HookCount(After(delay, events).hooks, h) == Caused(delay, events, h)
  {
    if events != [] {
      var n := |events| - 1;
      var t := After(delay, events[..n]);
      HooksConserved(delay, events[..n], h);
      RunGood(delay, events[..n]);
      match events[n]
      case Joined(w, p) => JoinFires(delay, t, w, p, h);
      case Left(w, p) => LeaveFires(delay, t, w, p, h);
      case Ticked(now, rows) => DestroyFires(t, now, rows, h);
    }
  }

  /** A room destroyed by a tick is announced once, and no other room of its name is. */
  lemma {:induction false} StoppedOnce(t: Tables, now: nat, rows: seq<nat>, r: nat)
    requires UniqueNames(t) && NoRepeat(rows) && IsLive(t, r) && forall x :: x in rows ==> IsLive(t, x)
    ensures StoppedRows(t.rooms, now, rows, Hook(t.rooms[r].app, t.rooms[r].name, now, Stopped)) == One(r in rows)
  {
    if rows != [] {
      var n := |rows| - 1;
      assert rows == rows[..n] + [rows[n]];
      NoRepeatPrefix(rows, n);
      NoRepeatAppend(rows[..n], rows[n]);
      StoppedOnce(t, now, rows[..n], r);
    }
  }

  /** With a tick, the Stopped hook of a room is fired once if the tick destroys it and not otherwise. */
  lemma TickAnnounces(delay: nat, events: seq<Event>, now: nat, rows: seq<nat>, r: nat)
    requires LegalRun(delay, events + [Ticked(now, rows)]) && IsLive(After(delay, events), r)
    ensures var before, after := After(delay, events), After(delay, events + [Ticked(now, rows)]);
      var h := Hook(before.rooms[r].app, before.rooms[r].name, now, Stopped);
      HookCount(after.hooks, h) == HookCount(before.hooks, h) + One(!IsLive(after, r))
  {
    var all := events + [Ticked(now, rows)];
    TickShape(delay, events, now, rows, all);
    RunGood(delay, events);
    var t := After(delay, events);
    DestroyFires(t, now, rows, Hook(t.rooms[r].app, t.rooms[r].name, now, Stopped));
    DestroyAllShape(t, now, rows);
    StoppedOnce(t, now, rows, r);
  }

  // ---------------------------------------------------------------- what a join leaves behind

  /** After a join the peer has an open session with that number, in the undestroyed room of that name. */
  lemma JoinOpens(t: Tables, w: Who, p: Picks) returns (r: nat, peer: nat, x: nat)
    requires Structure(t) && EnterFits(t, w, p)
    ensures var t' := Join(t, w, p);
      && r in LiveRooms(t'.rooms, w.app, w.room)
      && peer in PeersNamed(t'.peers, r, w.peer)
      && x in OpenSessionsOf(t'.sessions, peer, w.session)
  {
    Entered(t, w, p);
    var (t1, room, who) := Enter(t, w, p);
    PeerIsNamed(t, w, p);
    r, peer := room, who;
    if OpenSessionsOf(t1.sessions, who, w.session) == {} {
      x := t1.nextSession;
    } else {
      x :| x in OpenSessionsOf(t1.sessions, who, w.session);
    }
  }

  lemma PeerIsNamed(t: Tables, w: Who, p: Picks)
    requires EnterFits(t, w, p)
    ensures var (t1, room, peer) := Enter(t, w, p); peer in PeersNamed(t1.peers, room, w.peer)
  {
  }

  // ---------------------------------------------------------------- where the rows come from

  /** Row `x` is of this session, and of this peer in this room, which is also the room noted in the row. */
  predicate RowOf(t: Tables, x: nat, w: Who) {
    && x in t.sessions
    && var row := t.sessions[x];
       && row.session == w.session
       && row.peer in t.peers && t.peers[row.peer].name == w.peer && t.peers[row.peer].room == row.room
       && row.room in t.rooms && t.rooms[row.room].name == w.room && t.rooms[row.room].app == w.app
  }

  predicate MadeBy(t: Tables, x: nat, w: Who) {
    RowOf(t, x, w) && t.sessions[x].joinedAt == w.ts && t.sessions[x].createdAt == w.now
  }

  predicate ClosedBy(t: Tables, x: nat, w: Who) {
    RowOf(t, x, w) && t.sessions[x].leavedAt == Some(w.ts)
  }

  /** Peers are never changed, rooms keep their names, and sessions all but the time they were left. */
  ghost predicate NamesKept(t: Tables, t': Tables) {
    && (forall p :: p in t.peers ==> p in t'.peers && t'.peers[p] == t.peers[p])
    && (forall r :: r in t.rooms ==> r in t'.rooms && t'.rooms[r].app == t.rooms[r].app && t'.rooms[r].name == t.rooms[r].name)
    && (forall x :: x in t.sessions ==> x in t'.sessions && t'.sessions[x].(leavedAt := None) == t.sessions[x].(leavedAt := None))
  }

  lemma NamesKeptTwice(t: Tables, t1: Tables, t2: Tables)
    requires NamesKept(t, t1) && NamesKept(t1, t2)
    ensures NamesKept(t, t2)
  {
  }

  lemma RoomKeepsNames(t: Tables, w: Who, pick: Option<nat>)
    requires Structure(t) && IsOne(LiveRooms(t.rooms, w.app, w.room), pick)
    ensures var (t1, room) := UpsertRoom(t, w.now, w.ts, w.app, w.room, pick);
      && NamesKept(t, t1) && t1.sessions == t.sessions && t1.peers == t.peers && t1.nextPeer == t.nextPeer
      && room in t1.rooms && t1.rooms[room].app == w.app && t1.rooms[room].name == w.room
  {
  }

  lemma PeerKeepsNames(t: Tables, now: nat, room: nat, name: string, pick: Option<nat>)
    requires t.nextPeer !in t.peers && IsOne(PeersNamed(t.peers, room, name), pick)
    ensures var (t1, peer) := UpsertPeer(t, now, room, name, pick);
      && NamesKept(t, t1) && t1.sessions == t.sessions && t1.rooms == t.rooms
      && t1.peers[peer].name == name && t1.peers[peer].room == room
  {
  }

  lemma EnterKeepsNames(t: Tables, w: Who, p: Picks)
    requires Structure(t) && EnterFits(t, w, p)
    ensures var (t1, room, peer) := Enter(t, w, p);
      && NamesKept(t, t1) && t1.sessions == t.sessions
      && room in t1.rooms && t1.rooms[room].app == w.app && t1.rooms[room].name == w.room
      && peer in t1.peers && t1.peers[peer].name == w.peer && t1.peers[peer].room == room
  {
    var (t1, room) := UpsertRoom(t, w.now, w.ts, w.app, w.room, p.room);
    RoomKeepsNames(t, w, p.room);
    PeerKeepsNames(t1, w.now, room, w.peer, p.peer);
    NamesKeptTwice(t, t1, Enter(t, w, p).0);
  }

  lemma SessionRows(t: Tables, w: Who, room: nat, peer: nat)
    requires t.nextSession !in t.sessions
    requires room in t.rooms && t.rooms[room].app == w.app && t.rooms[room].name == w.room
    requires peer in t.peers && t.peers[peer].name == w.peer && t.peers[peer].room == room
    ensures var t' := UpsertPeerSession(t, w.now, w.ts, room, peer, w.session);
      && NamesKept(t, t')
      && forall x :: x in t'.sessions ==>
           if x in t.sessions then t'.sessions[x] == t.sessions[x] else MadeBy(t', x, w) && t'.sessions[x].leavedAt.None?
  {
  }

  /** A join adds at most one row, its own. */
  lemma JoinRows(t: Tables, w: Who, p: Picks)
    requires Structure(t) && EnterFits(t, w, p)
    ensures var t' := Join(t, w, p);
      && NamesKept(t, t')
      && forall x :: x in t'.sessions ==>
           if x in t.sessions then t'.sessions[x] == t.sessions[x] else MadeBy(t', x, w) && t'.sessions[x].leavedAt.None?
  {
    EnterKeepsNames(t, w, p);
    Entered(t, w, p);
    var (t1, room, peer) := Enter(t, w, p);
    var t2 := UpsertPeerSession(t1, w.now, w.ts, room, peer, w.session);
    SessionRows(t1, w, room, peer);
    NamesKeptTwice(t, t1, t2);
    assert Join(t, w, p) == t2.(hooks := Join(t, w, p).hooks);
  }

  /** Who left does not matter for what is entered. */
  lemma FiredEnter(t: Tables, h: Hook, w: Who, p: Picks)
    requires EnterFits(t, w, p)
    ensures EnterFits(Fire(t, h), w, p)
    ensures var (t1, room, peer) := Enter(t, w, p);
      var (f1, room', peer') := Enter(Fire(t, h), w, p);
      f1.(hooks := t1.hooks) == t1 && room' == room && peer' == peer
  {
  }

  lemma NotedParts(t: Tables, w: Who, room: nat)
    requires room in t.rooms
    ensures var t' := NoteIfEmpty(t, w.now, w.ts, w.app, w.room, room);
      t'.peers == t.peers && t'.sessions == t.sessions && NamesKept(t, t')
  {
  }

  lemma LeaveParts(t: Tables, w: Who, p: Picks, t1: Tables, t2: Tables)
    requires Structure(t) && LeaveFits(t, w, p) && t1 == Enter(t, w, p).0 && t2 == CloseSession(t1, w.ts, p.session)
    ensures NamesKept(t1, t2) && NamesKept(t2, Leave(t, w, p)) && Leave(t, w, p).sessions == t2.sessions
  {
    var h, room := Hook(w.app, w.room, w.ts, PeerLeaved(w.peer)), Enter(t, w, p).1;
    FiredEnter(t, h, w, p);
    Entered(t, w, p);
    var closed := CloseSession(Enter(Fire(t, h), w, p).0, w.ts, p.session);
    NotedParts(closed, w, room);
  }

  /** A leave adds no row, and closes at most one, its own. */
  lemma LeaveRows(t: Tables, w: Who, p: Picks)
    requires Structure(t) && LeaveFits(t, w, p)
    ensures var t' := Leave(t, w, p);
      && NamesKept(t, t') && t'.sessions.Keys == t.sessions.Keys
      && forall x :: x in t'.sessions && p.session != Some(x) ==> t'.sessions[x] == t.sessions[x]
  {
    var t1 := Enter(t, w, p).0;
    var t2 := CloseSession(t1, w.ts, p.session);
    EnterKeepsNames(t, w, p);
    LeaveParts(t, w, p, t1, t2);
    NamesKeptTwice(t, t1, t2);
    NamesKeptTwice(t, t2, Leave(t, w, p));
  }

  lemma LeaveCloses(t: Tables, w: Who, p: Picks, x: nat, told: Who)
    requires Structure(t) && LeaveFits(t, w, p) && p.session == Some(x) && RowOf(t, x, told)
    ensures ClosedBy(Leave(t, w, p), x, w)
  {
    var t1 := Enter(t, w, p).0;
    var t2 := CloseSession(t1, w.ts, p.session);
    EnterKeepsNames(t, w, p);
    LeaveParts(t, w, p, t1, t2);
    assert RowOf(t1, x, w);
    StillRowOf(t1, t2, x, w);
    StillRowOf(t2, Leave(t, w, p), x, w);
  }

  lemma TickRows(t: Tables, now: nat, rows: seq<nat>)
    requires forall x :: x in rows ==> x in t.rooms
    ensures NamesKept(t, DestroyAll(t, now, rows)) && DestroyAll(t, now, rows).sessions == t.sessions
  {
    DestroyAllShape(t, now, rows);
  }

  lemma StillRowOf(t: Tables, t': Tables, x: nat, w: Who)
    requires NamesKept(t, t') && RowOf(t, x, w)
    ensures RowOf(t', x, w)
  {
  }

  /**
   In every run each session row tells of a join: its session, its peer, its room, and both times.
   If it is closed, a later leave of the same peer and session said so, at the time in the row.
   */
  lemma {:induction false} SessionTold(delay: nat, events: seq<Event>, x: nat) returns (i: nat, j: nat)
    requires LegalRun(delay, events) && x in After(delay, events).sessions
    ensures i < |events| && events[i].Joined? && MadeBy(After(delay, events), x, events[i].w)
    ensures After(delay, events).sessions[x].leavedAt.Some? ==>
      i < j < |events| && events[j].Left? && ClosedBy(After(delay, events), x, events[j].w)
  {
    var n := |events| - 1;
    var init, e := events[..n], events[n];
    var t, t' := After(delay, init), After(delay, events);
    RunGood(delay, init);
    if x !in t.sessions {
      i, j := n, n;
      NewRow(delay, t, e, x);
    } else {
      i, j := SessionTold(delay, init, x);
      OldRow(delay, t, e, x, events[i].w);
      StillRowOf(t, t', x, events[i].w);
      if t'.sessions[x] != t.sessions[x] {
        j := n;
      } else if t.sessions[x].leavedAt.Some? {
        StillRowOf(t, t', x, events[j].w);
      }
    }
  }

  lemma NewRow(delay: nat, t: Tables, e: Event, x: nat)
    requires Structure(t) && Legal(delay, t, e) && x !in t.sessions && x in Next(delay, t, e).sessions
    ensures e.Joined? && MadeBy(Next(delay, t, e), x, e.w) && Next(delay, t, e).sessions[x].leavedAt.None?
  {
    match e
    case Joined(w, p) => JoinRows(t, w, p);
    case Left(w, p) => LeaveRows(t, w, p);
    case Ticked(now, rows) => TickRows(t, now, rows);
  }

  /** A row that is there stays, and only a leave of its own peer and session changes it. */
  lemma OldRow(delay: nat, t: Tables, e: Event, x: nat, told: Who)
    requires Structure(t) && Legal(delay, t, e) && RowOf(t, x, told)
    ensures var t' := Next(delay, t, e);
      && NamesKept(t, t')
      && (t'.sessions[x] == t.sessions[x] || (e.Left? && ClosedBy(t', x, e.w)))
  {
    match e
    case Joined(w, p) => JoinRows(t, w, p);
    case Left(w, p) =>
      LeaveRows(t, w, p);
      if p.session == Some(x) { LeaveCloses(t, w, p, x, told); }
    case Ticked(now, rows) => TickRows(t, now, rows);
  }
}
