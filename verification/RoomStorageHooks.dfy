/**
 What a listener of the room hooks can rely on, and what a leave cannot be relied on to do.
 */
module RoomStorageHooks {
  import opened Options
  import opened Sequences
  import opened RoomStorage
  import opened RoomStorageRuns

  /**
   A listener following one room name: `Some(true)` between a Started and the next Stopped,
   `Some(false)` outside, and `None` for ever once the two do not alternate, Started first.
   */
  ghost function Running(hooks: seq<Hook>, app: string, name: string): Option<bool> {
    if hooks == [] then Some(false)
    else
      var before, h := Running(hooks[..|hooks| - 1], app, name), hooks[|hooks| - 1];
      if h.app != app || h.room != name then before
      else
        match h.kind
        case Started => if before == Some(false) then Some(true) else None
        case Stopped => if before == Some(true) then Some(false) else None
        case _ => before
  }

  /** Every listener believes a room runs exactly when an undestroyed row for it exists. */
  ghost predicate HooksRight(t: Tables) {
    forall app, name :: Running(t.hooks, app, name) == Some(LiveRooms(t.rooms, app, name) != {})
  }

  lemma FireRight(t: Tables, h: Hook)
    requires HooksRight(t) && !h.kind.Started? && !h.kind.Stopped?
    ensures HooksRight(Fire(t, h))
  {
    assert (t.hooks + [h])[..|t.hooks|] == t.hooks;
  }

  /** Changing a timer changes nothing a listener sees. */
  lemma TimerChangeRight(t: Tables, t': Tables, room: nat, leavedAt: Option<nat>)
    requires HooksRight(t) && room in t.rooms && t'.hooks == t.hooks
    requires t'.rooms == t.rooms[room := t.rooms[room].(lastPeerLeavedAt := leavedAt)]
    ensures HooksRight(t')
  {
    forall app, name ensures Running(t'.hooks, app, name) == Some(LiveRooms(t'.rooms, app, name) != {}) {
      assert LiveRooms(t'.rooms, app, name) == LiveRooms(t.rooms, app, name);
    }
  }

  lemma UpsertRight(t: Tables, now: nat, ts: nat, app: string, name: string, pick: Option<nat>)
    requires HooksRight(t) && Structure(t) && IsOne(LiveRooms(t.rooms, app, name), pick)
    ensures HooksRight(UpsertRoom(t, now, ts, app, name, pick).0)
  {
    var t' := UpsertRoom(t, now, ts, app, name, pick).0;
    if pick.Some? {
      TimerChangeRight(t, t', pick.value, None);
    } else {
      assert t'.hooks[..|t.hooks|] == t.hooks;
      forall a, n ensures Running(t'.hooks, a, n) == Some(LiveRooms(t'.rooms, a, n) != {}) {
        if a == app && n == name {
          assert t.nextRoom in LiveRooms(t'.rooms, a, n);
        } else {
          assert LiveRooms(t'.rooms, a, n) == LiveRooms(t.rooms, a, n);
        }
      }
    }
  }

  lemma JoinRight(t: Tables, w: Who, p: Picks)
    requires HooksRight(t) && Structure(t) && EnterFits(t, w, p)
    ensures HooksRight(Join(t, w, p))
  {
    UpsertRight(t, w.now, w.ts, w.app, w.room, p.room);
    var (t1, room, peer) := Enter(t, w, p);
    FireRight(UpsertPeerSession(t1, w.now, w.ts, room, peer, w.session), Hook(w.app, w.room, w.ts, PeerJoined(w.peer)));
  }

  lemma ClosedRight(t: Tables, w: Who, p: Picks)
    requires HooksRight(t) && Structure(t) && LeaveFits(t, w, p)
    ensures HooksRight(Closed(t, w, p)) && Enter(t, w, p).1 in Closed(t, w, p).rooms
  {
    var t0 := Fire(t, Hook(w.app, w.room, w.ts, PeerLeaved(w.peer)));
    FireRight(t, Hook(w.app, w.room, w.ts, PeerLeaved(w.peer)));
    UpsertRight(t0, w.now, w.ts, w.app, w.room, p.room);
  }

  lemma NotedRight(t: Tables, w: Who, room: nat)
    requires HooksRight(t) && room in t.rooms
    ensures HooksRight(NoteIfEmpty(t, w.now, w.ts, w.app, w.room, room))
  {
    var t' := Fire(t, Hook(w.app, w.room, w.ts, AllPeersLeaved));
    FireRight(t, Hook(w.app, w.room, w.ts, AllPeersLeaved));
    if Vacant(t, room) {
      TimerChangeRight(t', NoteIfEmpty(t, w.now, w.ts, w.app, w.room, room), room, Some(w.now));
    }
  }

  lemma LeaveRight(t: Tables, w: Who, p: Picks)
    requires HooksRight(t) && Structure(t) && LeaveFits(t, w, p)
    ensures HooksRight(Leave(t, w, p))
  {
    ClosedRight(t, w, p);
    NotedRight(Closed(t, w, p), w, Enter(t, w, p).1);
  }

  lemma DestroyRight(t: Tables, now: nat, room: nat)
    requires HooksRight(t) && UniqueNames(t) && IsLive(t, room)
    ensures HooksRight(DestroyRoom(t, now, room))
  {
    var t' := DestroyRoom(t, now, room);
    var app, name := t.rooms[room].app, t.rooms[room].name;
    assert t'.hooks[..|t.hooks|] == t.hooks;
    assert room in LiveRooms(t.rooms, app, name);
    forall a, n ensures Running(t'.hooks, a, n) == Some(LiveRooms(t'.rooms, a, n) != {}) {
      if a == app && n == name {
        assert forall r :: r in LiveRooms(t.rooms, a, n) ==> IsLive(t, r);
        assert LiveRooms(t'.rooms, a, n) == {};
      } else {
        assert LiveRooms(t'.rooms, a, n) == LiveRooms(t.rooms, a, n);
      }
    }
  }

  lemma {:induction false} DestroyAllRight(t: Tables, now: nat, rows: seq<nat>)
    requires HooksRight(t) && UniqueNames(t) && NoRepeat(rows) && forall r :: r in rows ==> IsLive(t, r)
    ensures HooksRight(DestroyAll(t, now, rows))
  {
    if rows != [] {
      var n := |rows| - 1;
      var init, last := rows[..n], rows[n];
      assert rows == init + [last] && last in rows;
      assert forall r :: r in init ==> r in rows;
      NoRepeatPrefix(rows, n);
      NoRepeatAppend(init, last);
      DestroyAllRight(t, now, init);
      DestroyAllShape(t, now, init);
      var t1 := DestroyAll(t, now, init);
      assert forall r :: IsLive(t1, r) ==> IsLive(t, r);
      DestroyRight(t1, now, last);
    }
  }

  /** In every run the Started and Stopped hooks of each room name strictly alternate, beginning with Started. */
  lemma {:induction false} HooksAlternate(delay: nat, events: seq<Event>)
    requires LegalRun(delay, events)
    ensures HooksRight(After(delay, events))
  {
    if events != [] {
      var n := |events| - 1;
      HooksAlternate(delay, events[..n]);
      RunGood(delay, events[..n]);
      var t := After(delay, events[..n]);
      match events[n]
      case Joined(w, p) => JoinRight(t, w, p);
      case Left(w, p) => LeaveRight(t, w, p);
      case Ticked(now, rows) =>
        assert forall r :: r in rows ==> r in Expired(t.rooms, now, delay);
        DestroyAllRight(t, now, rows);
    }
  }

  // ---------------------------------------------------------------- a leave that does not close the open session

  /** At most one session of a peer with a given number is open: joins never open a second. */
  ghost predicate OneOpen(t: Tables, peer: nat, session: nat) {
    forall x, y :: x in OpenSessionsOf(t.sessions, peer, session) && y in OpenSessionsOf(t.sessions, peer, session) ==> x == y
  }

  lemma {:induction false} RunOneOpen(delay: nat, events: seq<Event>, peer: nat, session: nat)
    requires LegalRun(delay, events)
    ensures OneOpen(After(delay, events), peer, session)
  {
    if events != [] {
      var n := |events| - 1;
      RunOneOpen(delay, events[..n], peer, session);
      var t := After(delay, events[..n]);
      match events[n]
      case Joined(w, p) => JoinOneOpen(t, w, p, peer, session);
      case Left(w, p) =>
        LeaveSessions(t, w, p, p.session);
        assert p == p.(session := p.session);
        assert OpenSessionsOf(Leave(t, w, p).sessions, peer, session) <= OpenSessionsOf(t.sessions, peer, session);
      case Ticked(now, rows) => DestroyAllShape(t, now, rows);
    }
  }

  lemma JoinOneOpen(t: Tables, w: Who, p: Picks, peer: nat, session: nat)
    requires EnterFits(t, w, p) && OneOpen(t, peer, session)
    ensures OneOpen(Join(t, w, p), peer, session)
  {
    var (t1, room, joining) := Enter(t, w, p);
    var before, after := OpenSessionsOf(t.sessions, peer, session), OpenSessionsOf(Join(t, w, p).sessions, peer, session);
    if peer == joining && session == w.session {
      assert before == {} ==> after <= {t.nextSession};
    } else {
      assert after <= before;
    }
  }

  /**
   After a leave the peer's session is closed, whichever row the query finds, exactly when it was not
   open or the peer never left before in the same session.  Otherwise the row left earlier may be
   found and marked again, and the open one stays open.
   */
  lemma LeaveClosesIff(t: Tables, w: Who, p: Picks)
    requires EnterFits(t, w, p) && OneOpen(t, Enter(t, w, p).2, w.session)
    ensures var peer := Enter(t, w, p).2;
      (forall pick :: LeaveFits(t, w, p.(session := pick)) ==>
         OpenSessionsOf(Leave(t, w, p.(session := pick)).sessions, peer, w.session) == {})
      <==>
      (OpenSessionsOf(t.sessions, peer, w.session) == {}
       || SessionsOf(t.sessions, peer, w.session) == OpenSessionsOf(t.sessions, peer, w.session))
  {
    var peer := Enter(t, w, p).2;
    var open, all := OpenSessionsOf(t.sessions, peer, w.session), SessionsOf(t.sessions, peer, w.session);
    if open == {} || all == open {
      forall pick | LeaveFits(t, w, p.(session := pick))
        ensures OpenSessionsOf(Leave(t, w, p.(session := pick)).sessions, peer, w.session) == {}
      {
        LeaveSessions(t, w, p, pick);
        OnlyPickedCloses(t, peer, w.session, w.ts, pick);
      }
    } else {
      var x :| x in open;
      assert open <= all;
      assert (forall c :: c in all ==> c in open) ==> all == open;
      var c :| c in all && c !in open;
      assert LeaveFits(t, w, p.(session := Some(c)));
      LeaveSessions(t, w, p, Some(c));
      assert x in OpenSessionsOf(Leave(t, w, p.(session := Some(c))).sessions, peer, w.session);
    }
  }

  lemma OnlyPickedCloses(t: Tables, peer: nat, session: nat, ts: nat, pick: Option<nat>)
    requires OneOpen(t, peer, session) && IsOne(SessionsOf(t.sessions, peer, session), pick)
    requires || OpenSessionsOf(t.sessions, peer, session) == {}
             || SessionsOf(t.sessions, peer, session) == OpenSessionsOf(t.sessions, peer, session)
    ensures OpenSessionsOf(CloseSession(t, ts, pick).sessions, peer, session) == {}
  {
    var open, after := OpenSessionsOf(t.sessions, peer, session), OpenSessionsOf(CloseSession(t, ts, pick).sessions, peer, session);
    assert after <= open;
    assert pick.Some? ==> pick.value !in after;
  }

  lemma LeaveSessions(t: Tables, w: Who, p: Picks, pick: Option<nat>)
    requires LeaveFits(t, w, p.(session := pick))
    ensures Leave(t, w, p.(session := pick)).sessions
         == if pick.None? then t.sessions else t.sessions[pick.value := t.sessions[pick.value].(leavedAt := Some(w.ts))]
  {
  }

  // ---------------------------------------------------------------- a session that leaks

  predicate IsOpen(t: Tables, x: nat) {
    x in t.sessions && t.sessions[x].leavedAt.None?
  }

  /** Only a leave that picks the row closes it. */
  lemma StaysOpen(delay: nat, t: Tables, e: Event, x: nat)
    requires Structure(t) && Legal(delay, t, e) && IsOpen(t, x) && !(e.Left? && e.p.session == Some(x))
    ensures IsOpen(Next(delay, t, e), x)
  {
    match e
    case Joined(w, p) =>
    case Left(w, p) =>
      LeaveSessions(t, w, p, p.session);
      assert p == p.(session := p.session);
    case Ticked(now, rows) => DestroyAllShape(t, now, rows);
  }

  lemma OpenKeepsRoom(t: Tables, x: nat)
    requires Good(t) && IsOpen(t, x)
    ensures var r := t.peers[t.sessions[x].peer].room; IsLive(t, r) && t.rooms[r].lastPeerLeavedAt.None?
  {
    var r := t.peers[t.sessions[x].peer].room;
    assert x in Online(t.sessions, t.peers, r);
    assert TimerRight(t, r);
  }

  lemma LastEvent(delay: nat, init: seq<Event>, e: Event, all: seq<Event>)
    requires all == init + [e] && LegalRun(delay, all)
    ensures LegalRun(delay, init) && Legal(delay, After(delay, init), e) && After(delay, all) == Next(delay, After(delay, init), e)
  {
    assert all[..|all| - 1] == init;
  }

  lemma {:induction false} OpenForever(delay: nat, events: seq<Event>, more: seq<Event>, x: nat)
    requires LegalRun(delay, events + more) && IsOpen(After(delay, events), x)
    requires forall e <- more :: !(e.Left? && e.p.session == Some(x))
    ensures IsOpen(After(delay, events + more), x)
  {
    var all := events + more;
    if more == [] {
      assert all == events;
    } else {
      var n := |more| - 1;
      var init := events + more[..n];
      assert more[n] in more;
      LastEvent(delay, init, more[n], all);
      OpenForever(delay, events, more[..n], x);
      RunGood(delay, init);
      StaysOpen(delay, After(delay, init), more[n], x);
    }
  }

  /**
   As long as no leave picks an open row it stays open, whatever else happens: the timer of its room
   never starts and the room is never destroyed.
   */
  lemma LeakedForever(delay: nat, events: seq<Event>, more: seq<Event>, x: nat)
    requires LegalRun(delay, events + more) && IsOpen(After(delay, events), x)
    requires forall e <- more :: !(e.Left? && e.p.session == Some(x))
    ensures var t := After(delay, events + more);
      && IsOpen(t, x) && t.sessions[x].peer in t.peers
      && var r := t.peers[t.sessions[x].peer].room; IsLive(t, r) && t.rooms[r].lastPeerLeavedAt.None?
  {
    OpenForever(delay, events, more, x);
    RunGood(delay, events + more);
    OpenKeepsRoom(After(delay, events + more), x);
  }

  /** One room, one peer and the given sessions. */
  predicate Holding(t: Tables, w: Who, leavedAt: Option<nat>, sessions: map<nat, PeerSession>) {
    && t.rooms == map[0 := Room(w.app, w.room, w.now, leavedAt, None)]
    && t.peers == map[0 := Peer(0, w.peer, w.now)]
    && t.sessions == sessions && t.nextRoom == 1 && t.nextPeer == 1 && t.nextSession == |sessions|
  }

  function RowOf(w: Who, leavedAt: Option<nat>): PeerSession {
    PeerSession(0, 0, w.session, w.now, w.ts, leavedAt)
  }

  lemma FirstJoin(w: Who)
    ensures var p := Picks(None, None, None);
      EnterFits(EMPTY, w, p) && Holding(Join(EMPTY, w, p), w, None, map[0 := RowOf(w, None)])
  {
    var p := Picks(None, None, None);
    assert LiveRooms(EMPTY.rooms, w.app, w.room) == {};
    assert PeersNamed(EMPTY.peers, 0, w.peer) == {};
    assert OpenSessionsOf(EMPTY.sessions, 0, w.session) == {};
  }

  /** With the one room and peer in place, events find them. */
  lemma FindsBoth(t: Tables, w: Who, leavedAt: Option<nat>, sessions: map<nat, PeerSession>, session: Option<nat>)
    requires Holding(t, w, leavedAt, sessions)
    ensures var p := Picks(Some(0), Some(0), session);
      EnterFits(t, w, p) && Enter(t, w, p) == (t.(rooms := t.rooms[0 := t.rooms[0].(lastPeerLeavedAt := None)]), 0, 0)
  {
    assert 0 in LiveRooms(t.rooms, w.app, w.room);
    assert 0 in PeersNamed(t.peers, 0, w.peer);
  }

  lemma FirstLeave(t: Tables, w: Who)
    requires Holding(t, w, None, map[0 := RowOf(w, None)])
    ensures var p := Picks(Some(0), Some(0), Some(0));
      LeaveFits(t, w, p) && Holding(Leave(t, w, p), w, Some(w.now), map[0 := RowOf(w, Some(w.ts))])
  {
    var p := Picks(Some(0), Some(0), Some(0));
    FindsBoth(t, w, None, t.sessions, Some(0));
    FindsBoth(Fire(t, Hook(w.app, w.room, w.ts, PeerLeaved(w.peer))), w, None, t.sessions, Some(0));
    assert 0 in SessionsOf(t.sessions, 0, w.session);
    var closed := map[0 := RowOf(w, Some(w.ts))];
    assert t.sessions[0 := t.sessions[0].(leavedAt := Some(w.ts))] == closed;
    assert Online(closed, t.peers, 0) == {};
  }

  lemma SecondJoin(t: Tables, w: Who)
    requires Holding(t, w, Some(w.now), map[0 := RowOf(w, Some(w.ts))])
    ensures var p := Picks(Some(0), Some(0), None);
      EnterFits(t, w, p) && Holding(Join(t, w, p), w, None, map[0 := RowOf(w, Some(w.ts)), 1 := RowOf(w, None)])
  {
    FindsBoth(t, w, Some(w.now), t.sessions, None);
    assert OpenSessionsOf(t.sessions, 0, w.session) == {};
    assert t.sessions[1 := RowOf(w, None)] == map[0 := RowOf(w, Some(w.ts)), 1 := RowOf(w, None)];
  }

  lemma SecondLeave(t: Tables, w: Who)
    requires Holding(t, w, None, map[0 := RowOf(w, Some(w.ts)), 1 := RowOf(w, None)])
    ensures var p := Picks(Some(0), Some(0), Some(0));
      LeaveFits(t, w, p) && Holding(Leave(t, w, p), w, None, t.sessions)
  {
    var p := Picks(Some(0), Some(0), Some(0));
    FindsBoth(t, w, None, t.sessions, Some(0));
    FindsBoth(Fire(t, Hook(w.app, w.room, w.ts, PeerLeaved(w.peer))), w, None, t.sessions, Some(0));
    assert 0 in SessionsOf(t.sessions, 0, w.session);
    assert t.sessions[0 := t.sessions[0].(leavedAt := Some(w.ts))] == t.sessions;
    assert 1 in Online(t.sessions, t.peers, 0);
  }

  lemma OneEvent(delay: nat, events: seq<Event>, e: Event, longer: seq<Event>)
    requires longer == events + [e] && LegalRun(delay, events) && Legal(delay, After(delay, events), e)
    ensures LegalRun(delay, longer) && After(delay, longer) == Next(delay, After(delay, events), e)
  {
    assert longer[..|longer| - 1] == events;
  }

  /** After the first join and leave. */
  lemma LeftOnce(delay: nat, w: Who, events: seq<Event>)
    requires events == [Joined(w, Picks(None, None, None)), Left(w, Picks(Some(0), Some(0), Some(0)))]
    ensures LegalRun(delay, events) && Holding(After(delay, events), w, Some(w.now), map[0 := RowOf(w, Some(w.ts))])
  {
    JoinedOnce(delay, w, events[..1]);
    FirstLeave(After(delay, events[..1]), w);
    OneEvent(delay, events[..1], events[1], events);
  }

  lemma JoinedOnce(delay: nat, w: Who, events: seq<Event>)
    requires events == [Joined(w, Picks(None, None, None))]
    ensures LegalRun(delay, events) && Holding(After(delay, events), w, None, map[0 := RowOf(w, None)])
  {
    var none: seq<Event> := [];
    assert After(delay, none) == EMPTY;
    FirstJoin(w);
    OneEvent(delay, none, events[0], events);
  }

  /** After joining again. */
  lemma JoinedTwice(delay: nat, w: Who, events: seq<Event>)
    requires events == [Joined(w, Picks(None, None, None)), Left(w, Picks(Some(0), Some(0), Some(0))),
                        Joined(w, Picks(Some(0), Some(0), None))]
    ensures LegalRun(delay, events)
    ensures Holding(After(delay, events), w, None, map[0 := RowOf(w, Some(w.ts)), 1 := RowOf(w, None)])
  {
    LeftOnce(delay, w, events[..2]);
    SecondJoin(After(delay, events[..2]), w);
    OneEvent(delay, events[..2], events[2], events);
  }

  /**
   A peer that joins, leaves, joins again and leaves in one session, where the last leave finds the row
   closed before: the room ends with an open session and no timer.
   */
  lemma RejoinLeaks(delay: nat, w: Who, events: seq<Event>)
    requires events == [Joined(w, Picks(None, None, None)), Left(w, Picks(Some(0), Some(0), Some(0))),
                        Joined(w, Picks(Some(0), Some(0), None)), Left(w, Picks(Some(0), Some(0), Some(0)))]
    ensures LegalRun(delay, events) && IsOpen(After(delay, events), 1)
    ensures IsLive(After(delay, events), 0) && After(delay, events).rooms[0].lastPeerLeavedAt.None?
  {
    JoinedTwice(delay, w, events[..3]);
    SecondLeave(After(delay, events[..3]), w);
    OneEvent(delay, events[..3], events[3], events);
  }
}
