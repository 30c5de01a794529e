/**
 From the endpoint to the recorder: what an endpoint's record events mean for the recorded files
 (packages/media_record/src/lib.rs:103-108 hands each event on to the session's recorder).
 */
module EndpointRecording {
  import opened Options
  import EP = Endpoint
  import ER = EndpointRuns
  import opened SessionRecords
  import opened SessionRecordRuns

  function EventOf(app: string, record: EP.Record): Event {
    match record
    case RecordJoin(room, peer) => JoinRoom(app, room, peer)
    case RecordLeave => LeaveRoom
    case RecordDisconnected => Disconnected
    case RecordTrack => Track("")
  }

  /** The record events among the outputs of an endpoint. */
  function RecordsOf(app: string, outs: seq<EP.Output>): seq<Event> {
    if outs == [] then []
    else
      var o := outs[|outs| - 1];
      RecordsOf(app, outs[..|outs| - 1]) + (if o.RecordEvent? then [EventOf(app, o.record)] else [])
  }

  /** The events the recorder was given, whatever the times, with ticks anywhere between. */
  function EventsOf(steps: seq<Step>): seq<Event> {
    if steps == [] then []
    else
      var step := steps[|steps| - 1];
      EventsOf(steps[..|steps| - 1]) + (if step.Pushed? then [step.event] else [])
  }

  datatype Gate = Idle | InRoom | Bad

  function Pass(g: Gate, event: Event): Gate {
    match event
    case JoinRoom(_, _, _) => if g == Idle then InRoom else Bad
    case LeaveRoom => if g == InRoom then Idle else Bad
    case Disconnected => g
    case Track(_) => if g == InRoom then InRoom else Bad
  }

  /** Joins and leaves alternate, and tracks are recorded only in between. */
  function PassAll(events: seq<Event>): Gate {
    if events == [] then Idle else Pass(PassAll(events[..|events| - 1]), events[|events| - 1])
  }

  lemma PassOne(events: seq<Event>, event: Event)
    ensures PassAll(events + [event]) == Pass(PassAll(events), event)
  {
    assert (events + [event])[..|events|] == events;
  }

  // ---------------------------------------------------------------- the recorder's side

  lemma PassStep(steps: seq<Step>)
    requires steps != []
    ensures var before, step := PassAll(EventsOf(steps[..|steps| - 1])), steps[|steps| - 1];
      PassAll(EventsOf(steps)) == if step.Pushed? then Pass(before, step.event) else before
  {
    var before, step := EventsOf(steps[..|steps| - 1]), steps[|steps| - 1];
    if step.Pushed? {
      PassOne(before, step.event);
    } else {
      assert before + [] == before;
    }
  }

  lemma {:induction false} GateSettles(steps: seq<Step>)
    requires PassAll(EventsOf(steps)) != Bad
    ensures LeavesFirst(steps)
    ensures Unsettled(steps) ==> PassAll(EventsOf(steps)) == InRoom
  {
    if steps != [] {
      PassStep(steps);
      GateSettles(steps[..|steps| - 1]);
    }
  }

  // ---------------------------------------------------------------- the endpoint's side

  /** No track is recorded while the endpoint is outside every room. */
  predicate TracksInside(c: EP.Config, outs: seq<EP.Output>) {
    if outs == [] then true
    else
      var before := outs[..|outs| - 1];
      var b := ER.ConsumeAll(c, ER.OUTSIDE, before);
      TracksInside(c, before)
      && (outs[|outs| - 1] == EP.RecordEvent(EP.RecordTrack) ==> b.Brackets? && b.recorder.Some?)
  }

  function GateOf(b: ER.Brackets): Gate {
    if b.Broken? then Bad else if b.recorder.Some? then InRoom else Idle
  }

  lemma GateStep(app: string, c: EP.Config, b: ER.Brackets, o: EP.Output)
    requires !ER.Consume(c, b, o).Broken?
    requires o == EP.RecordEvent(EP.RecordTrack) ==> b.Brackets? && b.recorder.Some?
    ensures GateOf(ER.Consume(c, b, o)) == if o.RecordEvent? then Pass(GateOf(b), EventOf(app, o.record)) else GateOf(b)
  {
  }

  lemma {:induction false} EndpointGate(app: string, c: EP.Config, outs: seq<EP.Output>)
    requires TracksInside(c, outs) && !ER.ConsumeAll(c, ER.OUTSIDE, outs).Broken?
    ensures PassAll(RecordsOf(app, outs)) == GateOf(ER.ConsumeAll(c, ER.OUTSIDE, outs))
  {
    if outs != [] {
      var before, o := outs[..|outs| - 1], outs[|outs| - 1];
      EndpointGate(app, c, before);
      GateStep(app, c, ER.ConsumeAll(c, ER.OUTSIDE, before), o);
      RecordsSnoc(app, outs);
    }
  }

  lemma RecordsSnoc(app: string, outs: seq<EP.Output>)
    requires outs != []
    ensures var before, o := RecordsOf(app, outs[..|outs| - 1]), outs[|outs| - 1];
      PassAll(RecordsOf(app, outs)) == if o.RecordEvent? then Pass(PassAll(before), EventOf(app, o.record)) else PassAll(before)
  {
    var before, o := RecordsOf(app, outs[..|outs| - 1]), outs[|outs| - 1];
    if o.RecordEvent? {
      PassOne(before, EventOf(app, o.record));
    } else {
      assert before + [] == before;
    }
  }

  // ---------------------------------------------------------------- together

  /**
   Whatever an endpoint does, and whenever the recorder gets its events and ticks: as long as no
   track is recorded outside a room, a stay that has ended is recorded completely if and only if no
   row of it came after a disconnect; and so is every stay once the endpoint is out of its room.
   */
  lemma RecordingComplete(app: string, c: EP.Config, moves: seq<ER.Step>, session: nat, steps: seq<Step>)
    requires ER.Run(c, moves).Some? && TracksInside(c, ER.Run(c, moves).value.queue)
    requires EventsOf(steps) == RecordsOf(app, ER.Run(c, moves).value.queue)
    ensures var blocks := Run(session, steps).1.blocks; blocks != [] ==> CompleteIffNoneLate(blocks[..|blocks| - 1])
    ensures ER.Run(c, moves).value.joined.None? ==> CompleteIffNoneLate(Run(session, steps).1.blocks)
  {
    var e := ER.Run(c, moves).value;
    ER.RunBracketed(c, moves);
    EndpointGate(app, c, e.queue);
    GateSettles(steps);
    EndedStaysComplete(session, steps);
    if e.joined.None? { NothingLost(session, steps); }
  }

  /** `late` is what its name says: a row comes late exactly if it is offered when the session is not live. */
  lemma RowIsLateIff(session: nat, steps: seq<Step>, row: Step)
    requires row.Pushed? && row.event.Track? && Run(session, steps).1.blocks != []
    ensures var before, after := Run(session, steps).1, Run(session, steps + [row]).1;
      var n := |before.blocks| - 1;
      && |after.blocks| == n + 1 && after.blocks[n].offered == before.blocks[n].offered + [Row(row.ts, row.event)]
      && after.blocks[n].late == before.blocks[n].late + (if PhaseOf(steps) == Live then [] else [Row(row.ts, row.event)])
  {
    RunOne(session, steps, row, steps + [row]);
    PhaseIs(session, steps);
  }

  lemma RunOne(session: nat, steps: seq<Step>, step: Step, longer: seq<Step>)
    requires longer == steps + [step]
    ensures var (s, log) := Run(session, steps);
      var (s1, out) := Apply(session, s, step);
      Run(session, longer) == (s1, Note(log, step, out))
  {
    assert longer[..|longer| - 1] == steps;
  }

  // ---------------------------------------------------------------- both conditions are needed

  /** The recorder after a room was joined at time zero. */
  lemma JoinedRun(session: nat, row: Row, steps: seq<Step>)
    requires row.event.JoinRoom? && steps == [Pushed(0, row.ts, row.event)]
    ensures var e := row.event;
      Run(session, steps) == (Joined(row), Log([Block(e.app, e.room, e.peer, [row], [], [])], Live))
  {
    assert Run(session, []) == (INITIAL, Log([], Fresh));
    assert [] + steps == steps;
    RunOne(session, [], steps[0], steps);
    var e := row.event;
    var b := Block(e.app, e.room, e.peer, [row], [], []);
    assert [] + [b] == [b];
  }

  /**
   A media packet that arrives between leaving a room and joining the next is taken for the room that
   was left, and is then in no file.
   */
  lemma StrayMediaLost(session: nat, row: Row, steps: seq<Step>)
    requires row.event.JoinRoom?
    requires var join := Pushed(0, row.ts, row.event); steps == [join, Pushed(0, 0, LeaveRoom), Pushed(0, 0, Track("")), join]
    ensures var blocks := Run(session, steps).1.blocks;
      |blocks| == 2 && blocks[0].late == [] && blocks[0].offered == [row, Row(0, Track(""))] && RowsOf(blocks[0].chunks) == [row]
  {
    StrayRun(session, row, steps[..3]);
    RunOne(session, steps[..3], steps[3], steps);
    OneFile(ChunkOf(session, Joined(row).room.value, [row]));
  }

  /** The recorder after a room was joined and left, and one more row. */
  lemma StrayRun(session: nat, row: Row, steps: seq<Step>)
    requires row.event.JoinRoom?
    requires steps == [Pushed(0, row.ts, row.event), Pushed(0, 0, LeaveRoom), Pushed(0, 0, Track(""))]
    ensures var r := Joined(row).room.value;
      var stray := Row(0, Track(""));
      Run(session, steps) == (State(Some(r.(index := 1, queue := Some([stray]))), false),
                              Log([Block(r.app, r.room, r.peer, [row, stray], [], [ChunkOf(session, r, [row])])], Live))
  {
    var r := Joined(row).room.value;
    LeftRun(session, row, steps[..2]);
    RunOne(session, steps[..2], steps[2], steps);
    StrayTaken(session, r.(index := 1, queue := None));
    StrayNoted(Block(r.app, r.room, r.peer, [row], [], [ChunkOf(session, r, [row])]), row);
  }

  lemma StrayTaken(session: nat, r: RoomState)
    requires r.queue == None
    ensures Apply(session, State(Some(r), false), Pushed(0, 0, Track("")))
         == (State(Some(r.(queue := Some([Row(0, Track(""))]))), false), None)
  {
    assert [] + [Row(0, Track(""))] == [Row(0, Track(""))];
    assert Elapsed(0, 0) == 0;
  }

  lemma StrayNoted(b: Block, row: Row)
    requires b.offered == [row]
    ensures Note(Log([b], Live), Pushed(0, 0, Track("")), None) == Log([b.(offered := [row, Row(0, Track(""))])], Live)
  {
    var b' := b.(offered := [row, Row(0, Track(""))]);
    assert [row] + [Row(0, Track(""))] == [row, Row(0, Track(""))];
    assert [b][..0] + [b'] == [b'];
  }

  /** The recorder after a room was joined and left. */
  lemma LeftRun(session: nat, row: Row, steps: seq<Step>)
    requires row.event.JoinRoom? && steps == [Pushed(0, row.ts, row.event), Pushed(0, 0, LeaveRoom)]
    ensures var r := Joined(row).room.value;
      Run(session, steps) == (State(Some(r.(index := 1, queue := None)), false),
                              Log([Block(r.app, r.room, r.peer, [row], [], [ChunkOf(session, r, [row])])], Live))
  {
    var r := Joined(row).room.value;
    var chunk := ChunkOf(session, r, [row]);
    var b0 := Block(r.app, r.room, r.peer, [row], [], []);
    var b1 := b0.(chunks := [chunk]);
    JoinedRun(session, row, steps[..1]);
    RunOne(session, steps[..1], steps[1], steps);
    assert [b0][..0] + [b1] == [b1] && [] + [chunk] == [chunk];
  }

  lemma OneFile(chunk: ChunkFile)
    ensures RowsOf([chunk]) == chunk.rows
  {
    assert [chunk][..0] == [];
    assert RowsOf([]) == [];
  }

  /** One more output, for the recorder's events, the tracks and the brackets. */
  lemma OneMore(a: string, c: EP.Config, outs: seq<EP.Output>, o: EP.Output, longer: seq<EP.Output>)
    requires longer == outs + [o]
    ensures RecordsOf(a, longer) == RecordsOf(a, outs) + if o.RecordEvent? then [EventOf(a, o.record)] else []
    ensures var b := ER.ConsumeAll(c, ER.OUTSIDE, outs);
      && ER.ConsumeAll(c, ER.OUTSIDE, longer) == ER.Consume(c, b, o)
      && (TracksInside(c, longer) <==>
            TracksInside(c, outs) && (o == EP.RecordEvent(EP.RecordTrack) ==> b.Brackets? && b.recorder.Some?))
  {
    assert longer[..|longer| - 1] == outs;
  }

  lemma {:induction false} RecordsAppend(a: string, s: seq<EP.Output>, t: seq<EP.Output>)
    ensures RecordsOf(a, s + t) == RecordsOf(a, s) + RecordsOf(a, t)
  {
    if t == [] {
      assert s + t == s;
    } else {
      var n := |t| - 1;
      RecordsAppend(a, s, t[..n]);
      assert (s + t)[..|s + t| - 1] == s + t[..n];
    }
  }

  /** Whatever the tracks emit while the recorder's bracket is open is inside it. */
  lemma {:induction false} TracksDrained(a: string, c: EP.Config, outs: seq<EP.Output>, drained: seq<EP.Output>)
    requires ER.AllFromTracks(drained) && TracksInside(c, outs)
    requires var b := ER.ConsumeAll(c, ER.OUTSIDE, outs); b.Brackets? && b.recorder.Some?
    ensures TracksInside(c, outs + drained)
  {
    if drained == [] {
      assert outs + drained == outs;
    } else {
      var n := |drained| - 1;
      TracksDrained(a, c, outs, drained[..n]);
      ER.ConsumeAppend(c, ER.OUTSIDE, outs, drained[..n]);
      ER.TracksPass(c, ER.ConsumeAll(c, ER.OUTSIDE, outs), drained[..n]);
      OneMore(a, c, outs + drained[..n], drained[n], outs + drained);
    }
  }

  /** Where the outputs of an endpoint stand: the brackets, and no track recorded outside. */
  predicate Standing(c: EP.Config, outs: seq<EP.Output>, b: ER.Brackets) {
    TracksInside(c, outs) && ER.ConsumeAll(c, ER.OUTSIDE, outs) == b
  }

  /** What an endpoint outputs when it is disconnected in a room: the disconnect comes before what the tracks emit. */
  lemma DisconnectOutputs(a: string, c: EP.Config, e: EP.State, drained: seq<EP.Output>)
    requires c.record && e.joined.Some? && !e.shutdown && Standing(c, e.queue, ER.Open(c, e.joined)) && ER.AllFromTracks(drained)
    ensures var e' := EP.OnState(c, e, EP.Disconnected, drained);
      TracksInside(c, e'.queue) && RecordsOf(a, e'.queue) == RecordsOf(a, e.queue) + [Disconnected] + (RecordsOf(a, drained) + [LeaveRoom])
  {
    var e' := EP.OnState(c, e, EP.Disconnected, drained);
    var j := e.joined.value;
    var q1 := e.queue + [EP.PeerEvent(EP.Transport(EP.Disconnected))];
    var q2 := q1 + [EP.RecordEvent(EP.RecordDisconnected)];
    OneMore(a, c, e.queue, EP.PeerEvent(EP.Transport(EP.Disconnected)), q1);
    OneMore(a, c, q1, EP.RecordEvent(EP.RecordDisconnected), q2);
    TracksDrained(a, c, q2, drained);
    RecordsAppend(a, q2, drained);
    LeaveMore(a, c, q2 + drained, j);
    assert e'.queue == q2 + drained + EP.LeaveOutputs(c, j);
    Regroup(RecordsOf(a, e.queue), RecordsOf(a, drained));
  }

  lemma Regroup(r: seq<Event>, d: seq<Event>)
    ensures r + [] + [Disconnected] + d + [LeaveRoom] == r + [Disconnected] + (d + [LeaveRoom])
  {
  }

  lemma LeaveMore(a: string, c: EP.Config, outs: seq<EP.Output>, j: EP.InRoom)
    requires c.record && TracksInside(c, outs)
    ensures TracksInside(c, outs + EP.LeaveOutputs(c, j))
    ensures RecordsOf(a, outs + EP.LeaveOutputs(c, j)) == RecordsOf(a, outs) + [LeaveRoom]
  {
    var q1 := outs + [EP.Cluster(j.hash, EP.Leave)];
    var q2 := q1 + [EP.RecordEvent(EP.RecordLeave)];
    var q3 := q2 + [EP.PeerEvent(EP.Left(j.room, j.peer))];
    OneMore(a, c, outs, EP.Cluster(j.hash, EP.Leave), q1);
    OneMore(a, c, q1, EP.RecordEvent(EP.RecordLeave), q2);
    OneMore(a, c, q2, EP.PeerEvent(EP.Left(j.room, j.peer)), q3);
    assert q3 == outs + EP.LeaveOutputs(c, j);
  }

  /** A recorder that was told of a join has noted a stay. */
  lemma {:induction false} InRoomHasBlock(session: nat, steps: seq<Step>)
    requires PassAll(EventsOf(steps)) == InRoom
    ensures Run(session, steps).1.blocks != []
  {
    var before, step := steps[..|steps| - 1], steps[|steps| - 1];
    PassStep(steps);
    if !(step.Pushed? && step.event.JoinRoom?) {
      InRoomHasBlock(session, before);
    }
  }

  function TrackCount(events: seq<Event>): nat {
    if events == [] then 0
    else TrackCount(events[..|events| - 1]) + if events[|events| - 1].Track? then 1 else 0
  }

  predicate TracksOrLeaves(events: seq<Event>) {
    forall e <- events :: e.Track? || e.LeaveRoom?
  }

  lemma SnocEqual<T>(s: seq<T>, x: T, t: seq<T>, y: T)
    requires s + [x] == t + [y]
    ensures s == t && x == y
  {
    assert s == (s + [x])[..|s|] && t == (t + [y])[..|t|];
    assert (s + [x])[|s|] == x && (t + [y])[|t|] == y;
  }

  lemma LeaveKeepsLate(session: nat, steps: seq<Step>, step: Step, longer: seq<Step>)
    requires longer == steps + [step] && (step.Ticked? || step.event.LeaveRoom? || step.event.Disconnected?)
    requires Run(session, steps).1.blocks != []
    ensures var before, after := Run(session, steps).1.blocks, Run(session, longer).1.blocks;
      |after| == |before| && after[|after| - 1].late == before[|before| - 1].late
  {
    RunOne(session, steps, step, longer);
  }

  lemma StaysDeaf(steps: seq<Step>, step: Step, longer: seq<Step>)
    requires longer == steps + [step] && (step.Ticked? || !step.event.JoinRoom?)
    requires PhaseOf(steps) != Live || (step.Pushed? && step.event.Disconnected?)
    ensures PhaseOf(longer) != Live
  {
    assert longer[..|steps|] == steps;
  }

  /** How many rows of the last stay came late. */
  ghost predicate LateAtLeast(session: nat, steps: seq<Step>, n: nat) {
    var blocks := Run(session, steps).1.blocks;
    blocks != [] && |blocks[|blocks| - 1].late| >= n && PhaseOf(steps) != Live
  }

  lemma LateTick(session: nat, steps: seq<Step>, n: nat)
    requires steps != [] && steps[|steps| - 1].Ticked? && LateAtLeast(session, steps[..|steps| - 1], n)
    ensures LateAtLeast(session, steps, n)
  {
    var init := steps[..|steps| - 1];
    assert init + [steps[|init|]] == steps;
    LeaveKeepsLate(session, init, steps[|init|], steps);
    StaysDeaf(init, steps[|init|], steps);
  }

  lemma LateLeave(session: nat, steps: seq<Step>, n: nat)
    requires steps != [] && steps[|steps| - 1].Pushed? && steps[|steps| - 1].event.LeaveRoom?
    requires LateAtLeast(session, steps[..|steps| - 1], n)
    ensures LateAtLeast(session, steps, n)
  {
    var init := steps[..|steps| - 1];
    assert init + [steps[|init|]] == steps;
    LeaveKeepsLate(session, init, steps[|init|], steps);
    StaysDeaf(init, steps[|init|], steps);
  }

  lemma LateTrack(session: nat, steps: seq<Step>, n: nat)
    requires steps != [] && steps[|steps| - 1].Pushed? && steps[|steps| - 1].event.Track?
    requires LateAtLeast(session, steps[..|steps| - 1], n)
    ensures LateAtLeast(session, steps, n + 1)
  {
    var init := steps[..|steps| - 1];
    assert init + [steps[|init|]] == steps;
    RowIsLateIff(session, init, steps[|init|]);
    StaysDeaf(init, steps[|init|], steps);
  }

  lemma LateDisconnect(session: nat, steps: seq<Step>)
    requires steps != [] && steps[|steps| - 1].Pushed? && steps[|steps| - 1].event.Disconnected?
    requires PassAll(EventsOf(steps[..|steps| - 1])) == InRoom
    ensures LateAtLeast(session, steps, 0)
  {
    var init := steps[..|steps| - 1];
    assert init + [steps[|init|]] == steps;
    InRoomHasBlock(session, init);
    LeaveKeepsLate(session, init, steps[|init|], steps);
    StaysDeaf(init, steps[|init|], steps);
  }

  /** Every row between a disconnect in a room and the next join comes late, whenever the service ticks. */
  lemma {:induction false} LateRows(session: nat, steps: seq<Step>, before: seq<Event>, tail: seq<Event>)
    requires EventsOf(steps) == before + [Disconnected] + tail && PassAll(before) == InRoom && TracksOrLeaves(tail)
    ensures LateAtLeast(session, steps, TrackCount(tail))
  {
    var n := |steps| - 1;
    var init, step := steps[..n], steps[n];
    if step.Ticked? {
      assert EventsOf(init) + [] == EventsOf(init);
      LateRows(session, init, before, tail);
      LateTick(session, steps, TrackCount(tail));
    } else if tail == [] {
      assert before + [Disconnected] + tail == before + [Disconnected];
      SnocEqual(EventsOf(init), step.event, before, Disconnected);
      LateDisconnect(session, steps);
    } else {
      var m := |tail| - 1;
      assert before + [Disconnected] + tail == before + [Disconnected] + tail[..m] + [tail[m]];
      SnocEqual(EventsOf(init), step.event, before + [Disconnected] + tail[..m], tail[m]);
      LateRows(session, init, before, tail[..m]);
      assert tail[m] in tail;
      if step.event.Track? {
        LateTrack(session, steps, TrackCount(tail[..m]));
      } else {
        LateLeave(session, steps, TrackCount(tail[..m]));
      }
    }
  }

  lemma OneRow(events: seq<Event>, longer: seq<Event>)
    requires TracksOrLeaves(events) && longer == events + [Track("")]
    ensures TracksOrLeaves(longer) && TrackCount(longer) == TrackCount(events) + 1
  {
    TrackCountOne(events, Track(""));
  }

  lemma LastDrained(a: string, drained: seq<EP.Output>)
    requires drained != [] && EP.FromTrack(drained[|drained| - 1])
    ensures var n := |drained| - 1;
      RecordsOf(a, drained) == if drained[n].RecordEvent? then RecordsOf(a, drained[..n]) + [Track("")] else RecordsOf(a, drained[..n])
  {
    var n := |drained| - 1;
    if !drained[n].RecordEvent? { assert RecordsOf(a, drained[..n]) + [] == RecordsOf(a, drained[..n]); }
  }

  /** What tracks emit is recorded as rows, one for each that they record. */
  lemma {:induction false} DrainedRows(a: string, drained: seq<EP.Output>)
    requires ER.AllFromTracks(drained)
    ensures TracksOrLeaves(RecordsOf(a, drained))
    ensures EP.RecordEvent(EP.RecordTrack) in drained ==> TrackCount(RecordsOf(a, drained)) > 0
  {
    if drained != [] {
      var n := |drained| - 1;
      var init := drained[..n];
      assert drained == init + [drained[n]];
      assert EP.FromTrack(drained[n]);
      DrainedRows(a, init);
      LastDrained(a, drained);
      if drained[n].RecordEvent? { OneRow(RecordsOf(a, init), RecordsOf(a, drained)); }
    }
  }

  lemma TrackCountOne(events: seq<Event>, event: Event)
    ensures TrackCount(events + [event]) == TrackCount(events) + if event.Track? then 1 else 0
  {
    assert (events + [event])[..|events|] == events;
  }

  /**
   Every endpoint that is disconnected while in a room with recorded tracks loses rows: it tells the
   recorder of the disconnect before the tracks stop, so that whatever rows they then emit come late,
   and the stay is not complete although no track was recorded outside a room.
   */
  lemma DisconnectLosesRow(a: string, c: EP.Config, moves: seq<ER.Step>, drained: seq<EP.Output>, session: nat, steps: seq<Step>)
    requires c.record && ER.Run(c, moves).Some? && TracksInside(c, ER.Run(c, moves).value.queue)
    requires ER.Run(c, moves).value.joined.Some? && !ER.Run(c, moves).value.shutdown
    requires ER.AllFromTracks(drained) && EP.RecordEvent(EP.RecordTrack) in drained
    requires EventsOf(steps) == RecordsOf(a, EP.OnState(c, ER.Run(c, moves).value, EP.Disconnected, drained).queue)
    ensures var after := EP.OnState(c, ER.Run(c, moves).value, EP.Disconnected, drained);
      && ER.Run(c, moves + [ER.Moved(EP.Disconnected, drained)]) == Some(after)
      && after.joined.None? && TracksInside(c, after.queue)
    ensures var blocks := Run(session, steps).1.blocks;
      blocks != [] && blocks[|blocks| - 1].late != [] && !Complete(blocks[|blocks| - 1])
  {
    var e := ER.Run(c, moves).value;
    var before, tail := RecordsOf(a, e.queue), RecordsOf(a, drained) + [LeaveRoom];
    DisconnectMove(a, c, moves, drained);
    EndpointGate(a, c, e.queue);
    DrainedRows(a, drained);
    TrackCountOne(RecordsOf(a, drained), LeaveRoom);
    LateRows(session, steps, before, tail);
    RunAgrees(session, steps);
    var blocks := Run(session, steps).1.blocks;
    CompleteIff(blocks[|blocks| - 1], Pending(Run(session, steps).0));
  }

  lemma DisconnectMove(a: string, c: EP.Config, moves: seq<ER.Step>, drained: seq<EP.Output>)
    requires c.record && ER.Run(c, moves).Some? && TracksInside(c, ER.Run(c, moves).value.queue)
    requires ER.Run(c, moves).value.joined.Some? && !ER.Run(c, moves).value.shutdown && ER.AllFromTracks(drained)
    ensures var e := ER.Run(c, moves).value;
      var after := EP.OnState(c, e, EP.Disconnected, drained);
      && !ER.ConsumeAll(c, ER.OUTSIDE, e.queue).Broken? && GateOf(ER.ConsumeAll(c, ER.OUTSIDE, e.queue)) == InRoom
      && ER.Run(c, moves + [ER.Moved(EP.Disconnected, drained)]) == Some(after)
      && after.joined.None? && TracksInside(c, after.queue)
      && RecordsOf(a, after.queue) == RecordsOf(a, e.queue) + [Disconnected] + (RecordsOf(a, drained) + [LeaveRoom])
  {
    var last := ER.Moved(EP.Disconnected, drained);
    assert (moves + [last])[..|moves|] == moves;
    ER.RunBracketed(c, moves);
    DisconnectOutputs(a, c, ER.Run(c, moves).value, drained);
  }

  /** Such endpoints exist: one that joined a room right after its transport appeared. */
  lemma RecordedRoomReachable(a: string, c: EP.Config, room: string, peer: string, moves: seq<ER.Step>)
    requires c.record && moves == [ER.Moved(EP.New, []), ER.Rpc(0, EP.ReqJoin(room, peer, None), [])]
    ensures ER.Run(c, moves).Some? && TracksInside(c, ER.Run(c, moves).value.queue)
    ensures ER.Run(c, moves).value.joined.Some? && !ER.Run(c, moves).value.shutdown
    ensures RecordsOf(a, ER.Run(c, moves).value.queue) == [JoinRoom(a, room, peer)]
  {
    var m1 := moves[..1];
    assert m1[..0] == [];
    assert ER.Run(c, []) == Some(EP.INITIAL);
    assert ER.Run(c, m1) == Some(EP.INITIAL.(state := Some(EP.New)));
    var j := EP.InRoom(c.hash(room), room, peer, None);
    var q1 := [EP.RpcRes(0, EP.Ok)];
    var q2 := q1 + [EP.Cluster(j.hash, EP.Join(peer, None))];
    var q3 := q2 + [EP.RecordEvent(EP.RecordJoin(room, peer))];
    var q4 := q3 + [EP.PeerEvent(EP.Joined(room, peer))];
    OneMore(a, c, [], q1[0], q1);
    OneMore(a, c, q1, EP.Cluster(j.hash, EP.Join(peer, None)), q2);
    OneMore(a, c, q2, EP.RecordEvent(EP.RecordJoin(room, peer)), q3);
    OneMore(a, c, q3, EP.PeerEvent(EP.Joined(room, peer)), q4);
    assert ER.Run(c, moves).value.queue == q4;
  }
}
