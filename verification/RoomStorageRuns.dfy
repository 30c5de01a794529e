/**
 Whole runs of the room storage: when a room's timer runs, when it may be destroyed, and what the
 listeners of its hooks see.
 */
module RoomStorageRuns {
  import opened Options
  import opened RoomStorage

  datatype Event = Joined(w: Who, p: Picks) | Left(w: Who, p: Picks) | Ticked(now: nat, rows: seq<nat>)

  /** The event's queries return rows they may return; a tick comes when the clock is past the delay. */
  ghost predicate Legal(delay: nat, t: Tables, e: Event) {
    match e
    case Joined(w, p) => EnterFits(t, w, p)
    case Left(w, p) => LeaveFits(t, w, p)
    case Ticked(now, rows) => now >= delay && IsSome(Expired(t.rooms, now, delay), DESTROY_LIMIT, rows)
  }

  ghost function Next(delay: nat, t: Tables, e: Event): Tables
    requires Legal(delay, t, e)
  {
    match e
    case Joined(w, p) => Join(t, w, p)
    case Left(w, p) => Leave(t, w, p)
    case Ticked(now, rows) => DestroyAll(t, now, rows)
  }

  // ---------------------------------------------------------------- the invariant

  predicate IsLive(t: Tables, r: nat) {
    r in t.rooms && t.rooms[r].destroyedAt.None?
  }

  predicate Vacant(t: Tables, r: nat) {
    Online(t.sessions, t.peers, r) == {}
  }

  /** Keys are below the next one, references lead to rows, and live rooms have distinct names. */
  ghost predicate Structure(t: Tables) {
    && (forall r :: r in t.rooms ==> r < t.nextRoom)
    && (forall p :: p in t.peers ==> p < t.nextPeer && t.peers[p].room in t.rooms)
    && (forall x :: x in t.sessions ==> x < t.nextSession && t.sessions[x].peer in t.peers)
    && UniqueNames(t)
  }

  ghost predicate UniqueNames(t: Tables) {
    forall r, q :: IsLive(t, r) && IsLive(t, q) && t.rooms[r].app == t.rooms[q].app && t.rooms[r].name == t.rooms[q].name ==> r == q
  }

  /** The timer runs exactly while an undestroyed room is empty, and a destroyed room is empty. */
  ghost predicate TimerRight(t: Tables, r: nat)
    requires r in t.rooms
  {
    if t.rooms[r].destroyedAt.Some? then Vacant(t, r)
    else t.rooms[r].lastPeerLeavedAt.Some? <==> Vacant(t, r)
  }

  ghost predicate TimersRight(t: Tables) {
    forall r :: r in t.rooms ==> TimerRight(t, r)
  }

  ghost predicate Good(t: Tables) {
    Structure(t) && TimersRight(t)
  }

  // ---------------------------------------------------------------- entering a room

  /** Everything but one room, and who is online anywhere, is as before. */
  ghost predicate OthersSame(t: Tables, t': Tables, room: nat) {
    && (forall r :: r in t.rooms ==> r in t'.rooms)
    && (forall r :: r in t'.rooms && r != room ==> r in t.rooms && t'.rooms[r] == t.rooms[r])
    && (forall r :: r != room ==> Online(t'.sessions, t'.peers, r) == Online(t.sessions, t.peers, r))
  }

  lemma RoomEntered(t: Tables, w: Who, pick: Option<nat>)
    requires Structure(t) && IsOne(LiveRooms(t.rooms, w.app, w.room), pick)
    ensures var (t1, room) := UpsertRoom(t, w.now, w.ts, w.app, w.room, pick);
      && Structure(t1) && OthersSame(t, t1, room)
      && t1.peers == t.peers && t1.sessions == t.sessions
      && IsLive(t1, room) && t1.rooms[room].lastPeerLeavedAt.None?
      && t1.rooms[room].app == w.app && t1.rooms[room].name == w.room
      && (pick.None? ==> room !in t.rooms)
      && (pick.Some? ==> IsLive(t, room))
  {
    var (t1, room) := UpsertRoom(t, w.now, w.ts, w.app, w.room, pick);
    assert forall r :: IsLive(t, r) && t.rooms[r].app == w.app && t.rooms[r].name == w.room ==>
                         r in LiveRooms(t.rooms, w.app, w.room);
  }

  lemma PeerEntered(t: Tables, now: nat, room: nat, name: string, pick: Option<nat>)
    requires Structure(t) && room in t.rooms && IsOne(PeersNamed(t.peers, room, name), pick)
    ensures var (t1, peer) := UpsertPeer(t, now, room, name, pick);
      && Structure(t1)
      && t1.rooms == t.rooms && t1.sessions == t.sessions
      && peer in t1.peers && t1.peers[peer].room == room
      && (forall r :: Online(t1.sessions, t1.peers, r) == Online(t.sessions, t.peers, r))
  {
    var (t1, peer) := UpsertPeer(t, now, room, name, pick);
    forall r ensures Online(t1.sessions, t1.peers, r) == Online(t.sessions, t.peers, r) {
      assert forall x :: x in t.sessions ==> t.sessions[x].peer != t.nextPeer;
    }
  }

  lemma Entered(t: Tables, w: Who, p: Picks)
    requires Structure(t) && EnterFits(t, w, p)
    ensures var (t1, room, peer) := Enter(t, w, p);
      && Structure(t1) && OthersSame(t, t1, room)
      && t1.sessions == t.sessions
      && IsLive(t1, room) && t1.rooms[room].lastPeerLeavedAt.None?
      && t1.rooms[room].app == w.app && t1.rooms[room].name == w.room
      && peer in t1.peers && t1.peers[peer].room == room
      && (p.room.None? ==> room !in t.rooms)
      && (p.room.Some? ==> IsLive(t, room) && p.room.value == room)
  {
    RoomEntered(t, w, p.room);
    var (t1, room) := UpsertRoom(t, w.now, w.ts, w.app, w.room, p.room);
    PeerEntered(t1, w.now, room, w.peer, p.peer);
  }

  // ---------------------------------------------------------------- steps keep the invariant

  lemma Finish(t: Tables, t': Tables, room: nat)
    requires TimersRight(t) && OthersSame(t, t', room) && room in t'.rooms && TimerRight(t', room)
    ensures TimersRight(t')
  {
    forall r | r in t'.rooms ensures TimerRight(t', r) {
      if r != room {
        assert TimerRight(t, r);
      }
    }
  }

  lemma SessionOpened(t: Tables, now: nat, ts: nat, room: nat, peer: nat, session: nat)
    requires Structure(t) && peer in t.peers && t.peers[peer].room == room
    ensures var t' := UpsertPeerSession(t, now, ts, room, peer, session);
      && Structure(t') && t'.rooms == t.rooms && t'.peers == t.peers
      && !Vacant(t', room)
      && (forall r :: r != room ==> Online(t'.sessions, t'.peers, r) == Online(t.sessions, t.peers, r))
  {
    var t' := UpsertPeerSession(t, now, ts, room, peer, session);
    if OpenSessionsOf(t.sessions, peer, session) == {} {
      assert t.nextSession in Online(t'.sessions, t'.peers, room);
    } else {
      var x :| x in OpenSessionsOf(t.sessions, peer, session);
      assert x in Online(t'.sessions, t'.peers, room);
    }
  }

  lemma JoinShape(t: Tables, w: Who, p: Picks)
    requires Structure(t) && EnterFits(t, w, p)
    ensures var t', room := Join(t, w, p), Enter(t, w, p).1;
      && Structure(t') && OthersSame(t, t', room)
      && IsLive(t', room) && t'.rooms[room].lastPeerLeavedAt.None? && !Vacant(t', room)
  {
    Entered(t, w, p);
    var (t1, room, peer) := Enter(t, w, p);
    SessionOpened(t1, w.now, w.ts, room, peer, w.session);
    var t2 := UpsertPeerSession(t1, w.now, w.ts, room, peer, w.session);
    assert Join(t, w, p) == t2.(hooks := Join(t, w, p).hooks);
  }

  lemma JoinGood(t: Tables, w: Who, p: Picks)
    requires Good(t) && EnterFits(t, w, p)
    ensures Good(Join(t, w, p))
  {
    JoinShape(t, w, p);
    Finish(t, Join(t, w, p), Enter(t, w, p).1);
  }

  lemma SessionClosed(t: Tables, ts: nat, room: nat, peer: nat, session: nat, pick: Option<nat>)
    requires Structure(t) && peer in t.peers && t.peers[peer].room == room
    requires IsOne(SessionsOf(t.sessions, peer, session), pick)
    ensures var t' := CloseSession(t, ts, pick);
      && Structure(t') && t'.rooms == t.rooms && t'.peers == t.peers
      && (forall r :: r != room ==> Online(t'.sessions, t'.peers, r) == Online(t.sessions, t.peers, r))
  {
  }

  lemma NotedShape(t: Tables, w: Who, room: nat)
    requires Structure(t) && IsLive(t, room) && t.rooms[room].lastPeerLeavedAt.None?
    ensures var t' := NoteIfEmpty(t, w.now, w.ts, w.app, w.room, room);
      && Structure(t') && OthersSame(t, t', room)
      && t'.sessions == t.sessions && t'.peers == t.peers
      && IsLive(t', room) && TimerRight(t', room)
      && (t'.rooms[room].lastPeerLeavedAt.Some? ==> t'.rooms[room].lastPeerLeavedAt.value == w.now)
  {
  }

  lemma SameTwice(t: Tables, t1: Tables, t2: Tables, room: nat)
    requires OthersSame(t, t1, room) && OthersSame(t1, t2, room)
    ensures OthersSame(t, t2, room)
  {
  }

  /** The tables after the room was entered and the session closed, before the room is looked at. */
  function Closed(t: Tables, w: Who, p: Picks): Tables
    requires LeaveFits(t, w, p)
  {
    CloseSession(Enter(Fire(t, Hook(w.app, w.room, w.ts, PeerLeaved(w.peer))), w, p).0, w.ts, p.session)
  }

  lemma ClosedShape(t: Tables, w: Who, p: Picks)
    requires Structure(t) && LeaveFits(t, w, p)
    ensures var t2, room := Closed(t, w, p), Enter(t, w, p).1;
      && Structure(t2) && OthersSame(t, t2, room)
      && IsLive(t2, room) && t2.rooms[room].lastPeerLeavedAt.None?
  {
    var t0 := Fire(t, Hook(w.app, w.room, w.ts, PeerLeaved(w.peer)));
    Entered(t0, w, p);
    var (t1, room, peer) := Enter(t0, w, p);
    SessionClosed(t1, w.ts, room, peer, w.session, p.session);
  }

  lemma LeaveShape(t: Tables, w: Who, p: Picks)
    requires Structure(t) && LeaveFits(t, w, p)
    ensures var t', room := Leave(t, w, p), Enter(t, w, p).1;
      && Structure(t') && OthersSame(t, t', room)
      && IsLive(t', room) && TimerRight(t', room)
      && (t'.rooms[room].lastPeerLeavedAt.Some? ==> t'.rooms[room].lastPeerLeavedAt.value == w.now)
  {
    var t2, room := Closed(t, w, p), Enter(t, w, p).1;
    ClosedShape(t, w, p);
    NotedShape(t2, w, room);
    assert Leave(t, w, p) == NoteIfEmpty(t2, w.now, w.ts, w.app, w.room, room);
    SameTwice(t, t2, Leave(t, w, p), room);
  }

  lemma LeaveGood(t: Tables, w: Who, p: Picks)
    requires Good(t) && LeaveFits(t, w, p)
    ensures Good(Leave(t, w, p))
  {
    LeaveShape(t, w, p);
    Finish(t, Leave(t, w, p), Enter(t, w, p).1);
  }

  lemma {:induction false} DestroyAllShape(t: Tables, now: nat, rows: seq<nat>)
    requires forall x :: x in rows ==> x in t.rooms
    ensures var t' := DestroyAll(t, now, rows);
      && t' == t.(rooms := t'.rooms, hooks := t'.hooks)
      && t'.rooms.Keys == t.rooms.Keys
      && (forall r :: r in t.rooms ==>
            t'.rooms[r] == if r in rows then t.rooms[r].(destroyedAt := Some(now)) else t.rooms[r])
  {
    if rows != [] {
      DestroyAllShape(t, now, rows[..|rows| - 1]);
      assert rows == rows[..|rows| - 1] + [rows[|rows| - 1]];
    }
  }

  lemma TickGood(delay: nat, t: Tables, now: nat, rows: seq<nat>)
    requires Good(t) && Legal(delay, t, Ticked(now, rows))
    ensures Good(DestroyAll(t, now, rows))
  {
    DestroyAllShape(t, now, rows);
    var t' := DestroyAll(t, now, rows);
    forall r | r in t'.rooms ensures TimerRight(t', r) {
      assert TimerRight(t, r);
    }
    assert forall r :: IsLive(t', r) ==> IsLive(t, r);
  }

  lemma NextGood(delay: nat, t: Tables, e: Event)
    requires Good(t) && Legal(delay, t, e)
    ensures Good(Next(delay, t, e))
  {
    match e
    case Joined(w, p) => JoinGood(t, w, p);
    case Left(w, p) => LeaveGood(t, w, p);
    case Ticked(now, rows) => TickGood(delay, t, now, rows);
  }

  // ---------------------------------------------------------------- runs

  ghost function After(delay: nat, events: seq<Event>): Tables {
    if events == [] then EMPTY
    else
      var t, e := After(delay, events[..|events| - 1]), events[|events| - 1];
      if Legal(delay, t, e) then Next(delay, t, e) else t
  }

  ghost predicate LegalRun(delay: nat, events: seq<Event>) {
    |events| > 0 ==>
      && LegalRun(delay, events[..|events| - 1])
      && Legal(delay, After(delay, events[..|events| - 1]), events[|events| - 1])
  }

  /**
   At every event boundary of every run: at most one undestroyed row per room name, and the timer of
   an undestroyed room is set exactly when it has no open session.
   */
  lemma {:induction false} RunGood(delay: nat, events: seq<Event>)
    requires LegalRun(delay, events)
    ensures Good(After(delay, events))
  {
    if events != [] {
      var n := |events| - 1;
      RunGood(delay, events[..n]);
      NextGood(delay, After(delay, events[..n]), events[n]);
    }
  }

  lemma {:induction false} PrefixLegal(delay: nat, events: seq<Event>, n: nat)
    requires LegalRun(delay, events) && n <= |events|
    ensures LegalRun(delay, events[..n])
  {
    if n == |events| {
      assert events[..n] == events;
    } else {
      PrefixLegal(delay, events[..|events| - 1], n);
      assert events[..|events| - 1][..n] == events[..n];
    }
  }

  // ---------------------------------------------------------------- the delay before a room is destroyed

  /** Some peer left the room at time `since`, and at no event boundary from then on was a session of the room open. */
  ghost predicate EmptySince(delay: nat, events: seq<Event>, r: nat, since: nat) {
    exists i :: 0 <= i < |events| && EmptyFrom(delay, events, r, since, i)
  }

  /** The `i`-th event is a leave from the room. */
  ghost predicate LeftRoomAt(delay: nat, events: seq<Event>, r: nat, since: nat, i: nat)
    requires i < |events|
  {
    LeavesRoom(After(delay, events[..i]), events[i], r, since)
  }

  predicate LeavesRoom(t: Tables, e: Event, r: nat, since: nat) {
    e.Left? && e.w.now == since && EnterFits(t, e.w, e.p) && Enter(t, e.w, e.p).1 == r
  }

  /** After the first `j` events the room exists and is empty. */
  ghost predicate EmptyAt(delay: nat, events: seq<Event>, r: nat, j: nat)
    requires j <= |events|
  {
    EmptyIn(After(delay, events[..j]), r)
  }

  predicate EmptyIn(t: Tables, r: nat) {
    r in t.rooms && Vacant(t, r)
  }

  ghost predicate EmptyFrom(delay: nat, events: seq<Event>, r: nat, since: nat, i: nat)
    requires i < |events|
  {
    && LeftRoomAt(delay, events, r, since, i)
    && forall j :: i < j <= |events| ==> EmptyAt(delay, events, r, j)
  }

  /** A running timer was set by this event, or was running before it. */
  lemma TimerOrigin(delay: nat, t: Tables, e: Event, r: nat, since: nat)
    requires Good(t) && Legal(delay, t, e)
    requires IsLive(Next(delay, t, e), r) && Next(delay, t, e).rooms[r].lastPeerLeavedAt == Some(since)
    ensures LeavesRoom(t, e, r, since) || (IsLive(t, r) && t.rooms[r].lastPeerLeavedAt == Some(since))
  {
    match e
    case Joined(w, p) => JoinShape(t, w, p);
    case Left(w, p) => LeaveShape(t, w, p);
    case Ticked(now, rows) => DestroyAllShape(t, now, rows);
  }

  lemma TimerCases(delay: nat, events: seq<Event>, r: nat, since: nat)
    requires LegalRun(delay, events)
    requires IsLive(After(delay, events), r) && After(delay, events).rooms[r].lastPeerLeavedAt == Some(since)
    ensures events != [] && Vacant(After(delay, events), r)
    ensures var t, e := After(delay, events[..|events| - 1]), events[|events| - 1];
      LeavesRoom(t, e, r, since) || (IsLive(t, r) && t.rooms[r].lastPeerLeavedAt == Some(since))
  {
    var n := |events| - 1;
    RunGood(delay, events);
    RunGood(delay, events[..n]);
    assert TimerRight(After(delay, events), r);
    TimerOrigin(delay, After(delay, events[..n]), events[n], r, since);
  }

  lemma {:induction false} TimerMeans(delay: nat, events: seq<Event>, r: nat, since: nat)
    requires LegalRun(delay, events)
    requires IsLive(After(delay, events), r) && After(delay, events).rooms[r].lastPeerLeavedAt == Some(since)
    ensures EmptySince(delay, events, r, since)
  {
    TimerCases(delay, events, r, since);
    var n := |events| - 1;
    if LeavesRoom(After(delay, events[..n]), events[n], r, since) {
      EmptyNow(delay, events, r);
      JustEmpty(delay, events, r, since, n);
    } else {
      TimerMeans(delay, events[..n], r, since);
      StillEmpty(delay, events, r, since);
    }
  }

  lemma EmptyNow(delay: nat, events: seq<Event>, r: nat)
    requires EmptyIn(After(delay, events), r)
    ensures EmptyAt(delay, events, r, |events|)
  {
    assert events[..|events|] == events;
  }

  lemma JustEmpty(delay: nat, events: seq<Event>, r: nat, since: nat, n: nat)
    requires |events| == n + 1 && LeftRoomAt(delay, events, r, since, n) && EmptyAt(delay, events, r, |events|)
    ensures EmptySince(delay, events, r, since)
  {
    assert EmptyFrom(delay, events, r, since, n);
  }

  lemma SameBefore(delay: nat, events: seq<Event>, r: nat, since: nat, i: nat)
    requires i < |events|
    ensures var init := events[..|events| - 1];
      && EmptyAt(delay, init, r, i) == EmptyAt(delay, events, r, i)
      && (i < |init| ==> LeftRoomAt(delay, init, r, since, i) == LeftRoomAt(delay, events, r, since, i))
  {
    assert events[..|events| - 1][..i] == events[..i];
  }

  lemma StillEmpty(delay: nat, events: seq<Event>, r: nat, since: nat)
    requires events != [] && EmptySince(delay, events[..|events| - 1], r, since)
    requires EmptyIn(After(delay, events), r)
    ensures EmptySince(delay, events, r, since)
  {
    var n := |events| - 1;
    var init := events[..n];
    var i :| 0 <= i < n && EmptyFrom(delay, init, r, since, i);
    SameBefore(delay, events, r, since, i);
    forall j | i < j <= |events|
      ensures EmptyAt(delay, events, r, j)
    {
      if j <= n {
        assert EmptyAt(delay, init, r, j);
        SameBefore(delay, events, r, since, j);
      } else {
        assert events[..j] == events;
      }
    }
    assert EmptyFrom(delay, events, r, since, i);
  }

  /**
   A room stops being live only by a tick, at least `delay` after its last peer left, and with no
   open session at any time in between.
   */
  lemma DestroyedOnlyAfterDelay(delay: nat, events: seq<Event>, r: nat)
    requires LegalRun(delay, events) && events != []
    requires IsLive(After(delay, events[..|events| - 1]), r) && !IsLive(After(delay, events), r)
    ensures events[|events| - 1].Ticked?
    ensures var init, e := events[..|events| - 1], events[|events| - 1];
      exists since: nat :: EmptySince(delay, init, r, since) && since + delay <= e.now
  {
    var n := |events| - 1;
    var t, e := After(delay, events[..n]), events[n];
    RunGood(delay, events[..n]);
    match e
    case Joined(w, p) => JoinShape(t, w, p);
    case Left(w, p) => LeaveShape(t, w, p);
    case Ticked(now, rows) =>
      DestroyAllShape(t, now, rows);
      assert r in Expired(t.rooms, now, delay);
      TimerMeans(delay, events[..n], r, t.rooms[r].lastPeerLeavedAt.value);
  }

  lemma DestroyedNext(delay: nat, t: Tables, e: Event, r: nat)
    requires Good(t) && Legal(delay, t, e) && r in t.rooms && t.rooms[r].destroyedAt.Some?
    ensures r in Next(delay, t, e).rooms && Next(delay, t, e).rooms[r].destroyedAt.Some?
  {
    match e
    case Joined(w, p) => JoinShape(t, w, p); Entered(t, w, p);
    case Left(w, p) => LeaveShape(t, w, p); Entered(t, w, p);
    case Ticked(now, rows) => DestroyAllShape(t, now, rows);
  }

  /** Once destroyed, a row stays destroyed and never has an open session again. */
  lemma {:induction false} DestroyedForever(delay: nat, events: seq<Event>, i: nat, r: nat)
    requires LegalRun(delay, events) && i <= |events|
    requires r in After(delay, events[..i]).rooms && After(delay, events[..i]).rooms[r].destroyedAt.Some?
    ensures var t := After(delay, events);
      r in t.rooms && t.rooms[r].destroyedAt.Some? && Vacant(t, r)
  {
    RunGood(delay, events);
    if i == |events| {
      assert events[..i] == events;
    } else {
      var n := |events| - 1;
      assert events[..n][..i] == events[..i];
      DestroyedForever(delay, events[..n], i, r);
      RunGood(delay, events[..n]);
      DestroyedNext(delay, After(delay, events[..n]), events[n], r);
    }
    assert TimerRight(After(delay, events), r);
  }
}
