/**
 Whole runs of the endpoint: its outputs are well bracketed, and every request is accounted for.

 A consumer that only sees the outputs is written down as an automaton (`Consume`) with three
 brackets: the cluster's room, the peer events' room and, when recording, the recorder's room.
 Any output out of place makes it fail for good.
 */
module EndpointRuns {
  import opened Options
  import opened Endpoint

  // ---------------------------------------------------------------- runs

  datatype Step =
    | Rpc(reqId: nat, req: Request, drained: seq<Output>)
    | Moved(next: TransportState, drained: seq<Output>)
    | Stopped(drained: seq<Output>)
    | Tracks(outs: seq<Output>)

  predicate AllFromTracks(outs: seq<Output>) {
    forall o <- outs :: FromTrack(o)
  }

  function Drained(s: Step): seq<Output> {
    match s
    case Rpc(_, _, d) => d
    case Moved(_, d) => d
    case Stopped(d) => d
    case Tracks(d) => d
  }

  predicate Allowed(e: State, s: Step) {
    AllFromTracks(Drained(s)) && (s.Moved? ==> StateExpected(e, s.next))
  }

  function Apply(c: Config, e: State, s: Step): State
    requires Allowed(e, s)
  {
    match s
    case Rpc(reqId, req, drained) => OnRpc(c, e, reqId, req, drained)
    case Moved(next, drained) => OnState(c, e, next, drained)
    case Stopped(drained) => OnShutdown(c, e, drained)
    case Tracks(outs) => Emit(e, outs)
  }

  /** `Some` of the state after the steps, `None` if some step is not allowed where it happens. */
  function Run(c: Config, steps: seq<Step>): Option<State> {
    if steps == [] then Some(INITIAL)
    else
      var before := Run(c, steps[..|steps| - 1]);
      var s := steps[|steps| - 1];
      if before.None? || !Allowed(before.value, s) then None else Some(Apply(c, before.value, s))
  }

  // ---------------------------------------------------------------- the consumer of the outputs

  datatype Room = Room(hash: nat, peer: string, mixer: Option<MixerMode>)
  datatype Member = Member(room: string, peer: string)

  datatype Brackets =
    | Broken
    | Brackets(cluster: Option<Room>, events: Option<Member>, recorder: Option<Member>)

  const OUTSIDE := Brackets(None, None, None)

  predicate OpenFor(b: Option<Room>, room: nat) {
    b.Some? && b.value.hash == room
  }

  /** The cluster bracket after a control, or `None` if the control is out of place. */
  function ConsumeControl(b: Option<Room>, room: nat, control: Control): Option<Option<Room>> {
    match control
    case Join(peer, mixer) => if b.None? then Some(Some(Room(room, peer, mixer))) else None
    case TrackControl => Some(b)
    case Leave => if OpenFor(b, room) then Some(None) else None
    case SubscribePeer(_) => if OpenFor(b, room) then Some(b) else None
    case UnsubscribePeer(_) => if OpenFor(b, room) then Some(b) else None
    case MixerAttach(_) => if OpenFor(b, room) && b.value.mixer == Some(Manual) then Some(b) else None
    case MixerDetach(_) => if OpenFor(b, room) && b.value.mixer == Some(Manual) then Some(b) else None
    case Channel(_, op, from) =>
      if OpenFor(b, room) && from == (if op.PublishData? then Some(b.value.peer) else None) then Some(b) else None
  }

  function ConsumeEvent(b: Option<Member>, event: Lifecycle): Option<Option<Member>> {
    match event
    case Joined(room, peer) => if b.None? then Some(Some(Member(room, peer))) else None
    case Left(room, peer) => if b == Some(Member(room, peer)) then Some(None) else None
    case _ => Some(b)
  }

  function ConsumeRecord(c: Config, b: Option<Member>, record: Record): Option<Option<Member>> {
    match record
    case RecordJoin(room, peer) => if c.record && b.None? then Some(Some(Member(room, peer))) else None
    case RecordLeave => if b.Some? then Some(None) else None
    case RecordDisconnected => if c.record then Some(b) else None
    case RecordTrack => Some(b)
  }

  function Consume(c: Config, b: Brackets, o: Output): Brackets {
    if b.Broken? then Broken
    else match o
      case Cluster(room, control) =>
        var r := ConsumeControl(b.cluster, room, control);
        if r.None? then Broken else b.(cluster := r.value)
      case PeerEvent(event) =>
        var r := ConsumeEvent(b.events, event);
        if r.None? then Broken else b.(events := r.value)
      case RecordEvent(record) =>
        var r := ConsumeRecord(c, b.recorder, record);
        if r.None? then Broken else b.(recorder := r.value)
      case _ => b
  }

  function ConsumeAll(c: Config, b: Brackets, outs: seq<Output>): Brackets {
    if outs == [] then b
    else Consume(c, ConsumeAll(c, b, outs[..|outs| - 1]), outs[|outs| - 1])
  }

  /** The brackets that must be open when the endpoint has joined `joined`. */
  function Open(c: Config, joined: Option<InRoom>): Brackets {
    match joined
    case None => OUTSIDE
    case Some(j) =>
      Brackets(Some(Room(j.hash, j.peer, j.mixer)), Some(Member(j.room, j.peer)),
               if c.record then Some(Member(j.room, j.peer)) else None)
  }

  lemma {:induction false} ConsumeAppend(c: Config, b: Brackets, s: seq<Output>, t: seq<Output>)
    ensures ConsumeAll(c, b, s + t) == ConsumeAll(c, ConsumeAll(c, b, s), t)
  {
    if t == [] {
      assert s + t == s;
    } else {
      assert (s + t)[..|s + t| - 1] == s + t[..|t| - 1];
      ConsumeAppend(c, b, s, t[..|t| - 1]);
    }
  }

  lemma {:induction false} TracksPass(c: Config, b: Brackets, outs: seq<Output>)
    requires AllFromTracks(outs)
    ensures ConsumeAll(c, b, outs) == b
  {
    if outs != [] {
      TracksPass(c, b, outs[..|outs| - 1]);
      assert FromTrack(outs[|outs| - 1]);
    }
  }

  /** What consuming one, then two outputs means. */
  lemma ConsumeOne(c: Config, b: Brackets, o: Output)
    ensures ConsumeAll(c, b, [o]) == Consume(c, b, o)
  {
    assert [o][..0] == [];
    assert ConsumeAll(c, b, []) == b;
  }

  lemma ConsumeTwo(c: Config, b: Brackets, o: Output, p: Output)
    ensures ConsumeAll(c, b, [o, p]) == Consume(c, Consume(c, b, o), p)
  {
    assert [o, p] == [o] + [p];
    ConsumeAppend(c, b, [o], [p]);
    ConsumeOne(c, b, o);
    ConsumeOne(c, Consume(c, b, o), p);
  }

  lemma LeaveCloses(c: Config, j: InRoom)
    ensures ConsumeAll(c, Open(c, Some(j)), LeaveOutputs(c, j)) == OUTSIDE
  {
    Triple(c, Open(c, Some(j)), Cluster(j.hash, Leave), RecordEvent(RecordLeave), PeerEvent(Left(j.room, j.peer)));
  }

  lemma JoinOpens(c: Config, j: InRoom)
    ensures ConsumeAll(c, OUTSIDE, JoinOutputs(c, j)) == Open(c, Some(j))
  {
    Triple(c, OUTSIDE, Cluster(j.hash, Join(j.peer, j.mixer)), RecordEvent(RecordJoin(j.room, j.peer)), PeerEvent(Joined(j.room, j.peer)));
  }

  /** A control, a record event if recording, and a peer event. */
  lemma Triple(c: Config, b: Brackets, o: Output, r: Output, p: Output)
    ensures ConsumeAll(c, b, [o] + (if c.record then [r] else []) + [p])
         == var b1 := Consume(c, b, o);
            Consume(c, if c.record then Consume(c, b1, r) else b1, p)
  {
    if c.record {
      assert [o] + [r] + [p] == [o, r] + [p];
      ConsumeAppend(c, b, [o, r], [p]);
      ConsumeTwo(c, b, o, r);
      ConsumeOne(c, Consume(c, Consume(c, b, o), r), p);
    } else {
      assert [o] + [] + [p] == [o, p];
      ConsumeTwo(c, b, o, p);
    }
  }

  // ---------------------------------------------------------------- every operation keeps the brackets

  /** The consumer is exactly where the endpoint says it is. */
  predicate Bracketed(c: Config, e: State) {
    ConsumeAll(c, OUTSIDE, e.queue) == Open(c, e.joined)
  }

  lemma EmitNeutral(c: Config, e: State, o: Output)
    requires Bracketed(c, e) && Consume(c, Open(c, e.joined), o) == Open(c, e.joined)
    ensures Bracketed(c, Emit(e, [o]))
  {
    ConsumeAppend(c, OUTSIDE, e.queue, [o]);
    ConsumeOne(c, Open(c, e.joined), o);
  }

  lemma EmitTracks(c: Config, e: State, outs: seq<Output>)
    requires Bracketed(c, e) && AllFromTracks(outs)
    ensures Bracketed(c, Emit(e, outs))
  {
    ConsumeAppend(c, OUTSIDE, e.queue, outs);
    TracksPass(c, Open(c, e.joined), outs);
  }

  lemma EmitLeave(c: Config, e: State)
    requires Bracketed(c, e) && e.joined.Some?
    ensures Bracketed(c, Emit(e, LeaveOutputs(c, e.joined.value)).(joined := None))
  {
    ConsumeAppend(c, OUTSIDE, e.queue, LeaveOutputs(c, e.joined.value));
    LeaveCloses(c, e.joined.value);
  }

  lemma EmitJoin(c: Config, e: State, j: InRoom)
    requires Bracketed(c, e) && e.joined.None?
    ensures Bracketed(c, Emit(e, JoinOutputs(c, j)).(joined := Some(j)))
  {
    ConsumeAppend(c, OUTSIDE, e.queue, JoinOutputs(c, j));
    JoinOpens(c, j);
  }

  lemma LeaveRoomKeeps(c: Config, e: State, drained: seq<Output>)
    requires Bracketed(c, e) && AllFromTracks(drained)
    ensures Bracketed(c, LeaveRoom(c, e, drained))
  {
    if e.joined.Some? {
      EmitTracks(c, e, drained);
      EmitLeave(c, Emit(e, drained));
      assert e.queue + drained + LeaveOutputs(c, e.joined.value) == e.queue + (drained + LeaveOutputs(c, e.joined.value));
    }
  }

  lemma JoinRoomKeeps(c: Config, e: State, w: WaitJoin, drained: seq<Output>)
    requires Bracketed(c, e) && AllFromTracks(drained)
    ensures Bracketed(c, JoinRoom(c, e, w, drained))
  {
    EmitNeutral(c, e, RpcRes(w.reqId, Ok));
    LeaveRoomKeeps(c, Emit(e, [RpcRes(w.reqId, Ok)]), drained);
    EmitJoin(c, LeaveRoom(c, Emit(e, [RpcRes(w.reqId, Ok)]), drained), InRoom(c.hash(w.room), w.room, w.peer, w.mixer));
  }

  lemma ShutdownKeeps(c: Config, e: State, drained: seq<Output>)
    requires Bracketed(c, e) && AllFromTracks(drained)
    ensures Bracketed(c, OnShutdown(c, e, drained))
  {
    if !e.shutdown {
      var e1 := Emit(e.(shutdown := true), drained);
      EmitTracks(c, e.(shutdown := true), drained);
      if e1.joined.Some? { EmitLeave(c, e1); }
    }
  }

  lemma ForwardKeeps(c: Config, e: State, reqId: nat, control: Control)
    requires Bracketed(c, e)
    requires e.joined.Some? ==> ConsumeControl(Open(c, e.joined).cluster, e.joined.value.hash, control) == Some(Open(c, e.joined).cluster)
    ensures Bracketed(c, InRoomOnly(e, reqId, control))
  {
    if e.joined.None? {
      EmitNeutral(c, e, RpcRes(reqId, NotInRoom));
    } else {
      var o, p := RpcRes(reqId, Ok), Cluster(e.joined.value.hash, control);
      ConsumeAppend(c, OUTSIDE, e.queue, [o, p]);
      ConsumeTwo(c, Open(c, e.joined), o, p);
    }
  }

  lemma RpcKeeps(c: Config, e: State, reqId: nat, req: Request, drained: seq<Output>)
    requires Bracketed(c, e) && AllFromTracks(drained)
    ensures Bracketed(c, OnRpc(c, e, reqId, req, drained))
  {
    match req
    case ReqJoin(room, peer, mixer) => JoinRoomKeeps(c, e, WaitJoin(reqId, room, peer, mixer), drained);
    case ReqLeave =>
      EmitNeutral(c, e, RpcRes(reqId, Ok));
      LeaveRoomKeeps(c, Emit(e, [RpcRes(reqId, Ok)]), drained);
    case ReqSubscribePeer(peer) => ForwardKeeps(c, e, reqId, SubscribePeer(peer));
    case ReqUnsubscribePeer(peer) => ForwardKeeps(c, e, reqId, UnsubscribePeer(peer));
    case ReqTrack =>
    case ReqMixerAttach(sources) =>
      EmitNeutral(c, e, RpcRes(reqId, WrongMixerMode));
      if e.joined.Some? && e.joined.value.mixer == Some(Manual) { ForwardKeeps(c, e, reqId, MixerAttach(sources)); }
    case ReqMixerDetach(sources) =>
      EmitNeutral(c, e, RpcRes(reqId, WrongMixerMode));
      if e.joined.Some? && e.joined.value.mixer == Some(Manual) { ForwardKeeps(c, e, reqId, MixerDetach(sources)); }
    case ReqChannel(name, op) =>
      ForwardKeeps(c, e, reqId, Channel(name, op, if op.PublishData? && e.joined.Some? then Some(e.joined.value.peer) else None));
  }

  lemma StateKeeps(c: Config, e: State, next: TransportState, drained: seq<Output>)
    requires Bracketed(c, e) && AllFromTracks(drained) && StateExpected(e, next)
    ensures Bracketed(c, OnState(c, e, next, drained))
  {
    if !next.New? {
      var o := PeerEvent(if next.Connected? && e.state.value.Reconnecting? then Reconnected else Transport(next));
      var e1 := Emit(e.(state := Some(next)), [o]);
      EmitNeutral(c, e.(state := Some(next)), o);
      match next
      case ConnectError => ShutdownKeeps(c, e1, drained);
      case Connected =>
        if e.waitJoin.Some? { JoinRoomKeeps(c, e1.(waitJoin := None), e.waitJoin.value, drained); }
      case Disconnected =>
        if c.record { EmitNeutral(c, e1, RecordEvent(RecordDisconnected)); }
        ShutdownKeeps(c, if c.record then Emit(e1, [RecordEvent(RecordDisconnected)]) else e1, drained);
      case _ =>
    }
  }

  /** In every run the outputs are well bracketed, and the open brackets are the joined room's. */
  lemma {:induction false} RunBracketed(c: Config, steps: seq<Step>)
    requires Run(c, steps).Some?
    ensures ConsumeAll(c, OUTSIDE, Run(c, steps).value.queue) == Open(c, Run(c, steps).value.joined)
    ensures !ConsumeAll(c, OUTSIDE, Run(c, steps).value.queue).Broken?
  {
    if steps != [] {
      var e := Run(c, steps[..|steps| - 1]).value;
      RunBracketed(c, steps[..|steps| - 1]);
      match steps[|steps| - 1]
      case Rpc(reqId, req, drained) => RpcKeeps(c, e, reqId, req, drained);
      case Moved(next, drained) => StateKeeps(c, e, next, drained);
      case Stopped(drained) => ShutdownKeeps(c, e, drained);
      case Tracks(outs) => EmitTracks(c, e, outs);
    }
  }

  // ---------------------------------------------------------------- the brackets, by position

  predicate Boundary(o: Output) {
    o.Cluster? && (o.control.Join? || o.control.Leave?)
  }

  /** `queue[k]` opens the room that is still open just before position `i`. */
  predicate OpensAt(queue: seq<Output>, k: nat, i: nat)
    requires k < i <= |queue|
  {
    queue[k].Cluster? && queue[k].control.Join? && forall m :: k < m < i ==> !Boundary(queue[m])
  }

  /** The room that the consumer sees open was opened by one Join, with no Join or Leave since. */
  lemma {:induction false} OpenedAt(c: Config, queue: seq<Output>) returns (k: nat)
    requires var b := ConsumeAll(c, OUTSIDE, queue); b.Brackets? && b.cluster.Some?
    ensures k < |queue| && OpensAt(queue, k, |queue|)
    ensures var r := ConsumeAll(c, OUTSIDE, queue).cluster.value;
            queue[k] == Cluster(r.hash, Join(r.peer, r.mixer))
  {
    var n := |queue| - 1;
    if Boundary(queue[n]) {
      k := n;
    } else {
      k := OpenedAt(c, queue[..n]);
    }
  }

  lemma {:induction false} PrefixUnbroken(c: Config, queue: seq<Output>, i: nat)
    requires i <= |queue| && !ConsumeAll(c, OUTSIDE, queue).Broken?
    ensures !ConsumeAll(c, OUTSIDE, queue[..i]).Broken?
  {
    if i < |queue| {
      assert queue[..|queue| - 1][..i] == queue[..i];
      PrefixUnbroken(c, queue[..|queue| - 1], i);
    } else {
      assert queue[..i] == queue;
    }
  }

  /**
   Every room control in the output of a run lies inside the block of its own room: some earlier
   Join carries the same hash, no Join or Leave comes between, and published data carries the peer
   of that Join.  For a Leave this says that it closes the Join with its hash.
   */
  lemma ControlInsideOwnRoom(c: Config, steps: seq<Step>, i: nat) returns (k: nat)
    requires Run(c, steps).Some? && i < |Run(c, steps).value.queue|
    requires var o := Run(c, steps).value.queue[i]; o.Cluster? && !o.control.Join? && !o.control.TrackControl?
    ensures var q := Run(c, steps).value.queue; k < i && OpensAt(q, k, i) && q[k].room == q[i].room
    ensures var q := Run(c, steps).value.queue;
      q[i].control.Channel? && q[i].control.op.PublishData? ==> q[i].control.from == Some(q[k].control.peer)
    ensures var q := Run(c, steps).value.queue;
      q[i].control.MixerAttach? || q[i].control.MixerDetach? ==> q[k].control.mixer == Some(Manual)
  {
    var q := Run(c, steps).value.queue;
    RunBracketed(c, steps);
    PrefixUnbroken(c, q, i + 1);
    PrefixUnbroken(c, q, i);
    assert q[..i + 1][..i] == q[..i];
    k := OpenedAt(c, q[..i]);
    assert q[..i][k] == q[k];
    assert forall m :: k < m < i ==> q[..i][m] == q[m];
  }

  /** A Join is never emitted while a room is open: all Joins before it are followed by a Leave. */
  lemma JoinsApart(c: Config, steps: seq<Step>, k: nat, i: nat)
    requires Run(c, steps).Some? && k < i < |Run(c, steps).value.queue|
    requires var q := Run(c, steps).value.queue; q[k].Cluster? && q[k].control.Join? && q[i].Cluster? && q[i].control.Join?
    ensures var q := Run(c, steps).value.queue;
      exists m :: k < m < i && q[m].Cluster? && q[m].control.Leave? && q[m].room == q[k].room
  {
    var q := Run(c, steps).value.queue;
    RunBracketed(c, steps);
    PrefixUnbroken(c, q, i + 1);
    PrefixUnbroken(c, q, i);
    assert q[..i + 1][..i] == q[..i];
    var m := ClosedAfter(c, q[..i], k);
    assert q[..i][m] == q[m];
  }

  lemma {:induction false} ClosedAfter(c: Config, queue: seq<Output>, k: nat) returns (m: nat)
    requires k < |queue| && queue[k].Cluster? && queue[k].control.Join?
    requires var b := ConsumeAll(c, OUTSIDE, queue); b.Brackets? && b.cluster.None?
    ensures k < m < |queue| && queue[m].Cluster? && queue[m].control.Leave? && queue[m].room == queue[k].room
  {
    var n := |queue| - 1;
    var b := ConsumeAll(c, OUTSIDE, queue[..n]);
    if b.cluster.None? {
      m := ClosedAfter(c, queue[..n], k);
    } else {
      var j := OpenedAt(c, queue[..n]);
      if j == k {
        m := n;
      } else {
        PrefixUnbroken(c, queue, j);
        PrefixUnbroken(c, queue, j + 1);
        assert queue[..j + 1][..j] == queue[..j];
        m := ClosedAfter(c, queue[..j], k);
      }
    }
  }

  // ---------------------------------------------------------------- when the room is really left

  /** The step makes the endpoint join a room at once. */
  predicate Joins(e: State, s: Step) {
    || (s.Rpc? && s.req.ReqJoin? && e.state.Some? && !e.state.value.Connecting?)
    || (s.Moved? && s.next.Connected? && e.waitJoin.Some?)
  }

  /** The step leaves the room at once: a leave request that finds no join waiting. */
  predicate Leaves(e: State, s: Step) {
    s.Rpc? && s.req.ReqLeave? && e.waitJoin.None?
  }

  /** A shut-down endpoint moves in and out of rooms by these steps only; another shutdown is not one of them. */
  lemma ShutMovesIff(c: Config, e: State, s: Step)
    requires Allowed(e, s) && e.shutdown
    ensures Apply(c, e, s).shutdown
    ensures Apply(c, e, s).joined.Some? <==> Joins(e, s) || (e.joined.Some? && !Leaves(e, s))
  {
  }

  lemma ShutdownLeaves(c: Config, e: State, s: Step)
    requires Allowed(e, s) && !e.shutdown && Apply(c, e, s).shutdown
    ensures Apply(c, e, s).joined.None?
  {
  }

  lemma {:induction false} ShutBefore(c: Config, steps: seq<Step>, i: nat)
    requires Run(c, steps).Some? && i <= |steps|
    ensures Run(c, steps[..i]).Some?
    ensures Run(c, steps[..i]).value.shutdown ==> Run(c, steps).value.shutdown
  {
    if i < |steps| {
      var n := |steps| - 1;
      assert steps[..n][..i] == steps[..i];
      ShutBefore(c, steps[..n], i);
      if Run(c, steps[..n]).value.shutdown { ShutMovesIff(c, Run(c, steps[..n]).value, steps[n]); }
    } else {
      assert steps[..i] == steps;
    }
  }

  /** Already shut down, the endpoint joins a room at step `i`. */
  predicate JoinsShutAt(c: Config, steps: seq<Step>, i: nat)
    requires i < |steps|
  {
    var e := Run(c, steps[..i]);
    e.Some? && e.value.shutdown && Joins(e.value, steps[i])
  }

  predicate LeavesAt(c: Config, steps: seq<Step>, k: nat)
    requires k < |steps|
  {
    var e := Run(c, steps[..k]);
    e.Some? && Leaves(e.value, steps[k])
  }

  /** It joins at step `i` and does not leave after that. */
  predicate JoinedSince(c: Config, steps: seq<Step>, i: nat)
    requires i < |steps|
  {
    JoinsShutAt(c, steps, i) && forall k: nat :: i < k < |steps| ==> !LeavesAt(c, steps, k)
  }

  lemma SameAt(c: Config, steps: seq<Step>, k: nat)
    requires k < |steps| - 1
    ensures JoinsShutAt(c, steps[..|steps| - 1], k) == JoinsShutAt(c, steps, k)
    ensures LeavesAt(c, steps[..|steps| - 1], k) == LeavesAt(c, steps, k)
  {
    assert steps[..|steps| - 1][..k] == steps[..k];
  }

  /** One more step, unless it leaves. */
  lemma JoinedLonger(c: Config, steps: seq<Step>, i: nat)
    requires i < |steps| - 1
    ensures JoinedSince(c, steps, i) <==> JoinedSince(c, steps[..|steps| - 1], i) && !LeavesAt(c, steps, |steps| - 1)
  {
    var init := steps[..|steps| - 1];
    SameAt(c, steps, i);
    if JoinedSince(c, steps, i) {
      forall k: nat | i < k < |init|
        ensures !LeavesAt(c, init, k)
      {
        SameAt(c, steps, k);
        assert !LeavesAt(c, steps, k);
      }
      assert !LeavesAt(c, steps, |init|);
    }
    if JoinedSince(c, init, i) && !LeavesAt(c, steps, |init|) {
      forall k: nat | i < k < |steps|
        ensures !LeavesAt(c, steps, k)
      {
        if k < |init| {
          SameAt(c, steps, k);
          assert !LeavesAt(c, init, k);
        }
      }
    }
  }

  lemma NotYetShut(c: Config, steps: seq<Step>, i: nat)
    requires Run(c, steps).Some? && i < |steps| && !Run(c, steps[..|steps| - 1]).value.shutdown
    ensures !JoinedSince(c, steps, i)
  {
    var init := steps[..|steps| - 1];
    ShutBefore(c, init, i);
    assert init[..i] == steps[..i];
  }

  /** Some step joined for good. */
  ghost predicate JoinedForGood(c: Config, steps: seq<Step>) {
    exists i: nat :: i < |steps| && JoinedSince(c, steps, i)
  }

  lemma JoinedForGoodStep(c: Config, steps: seq<Step>)
    requires steps != []
    ensures var n := |steps| - 1;
      JoinedForGood(c, steps) <==> JoinsShutAt(c, steps, n) || (JoinedForGood(c, steps[..n]) && !LeavesAt(c, steps, n))
  {
    var n := |steps| - 1;
    if i: nat :| i < n && JoinedSince(c, steps, i) { JoinedLonger(c, steps, i); }
    if i: nat :| i < n && JoinedSince(c, steps[..n], i) { JoinedLonger(c, steps, i); }
    assert JoinedSince(c, steps, n) <==> JoinsShutAt(c, steps, n);
  }

  /**
   An endpoint that was shut down is in a room if and only if it joined one after that and no leave
   request has taken it out since.  Further shutdowns make no difference.
   */
  lemma {:induction false} InRoomAfterShutdownIff(c: Config, steps: seq<Step>)
    requires Run(c, steps).Some? && Run(c, steps).value.shutdown
    ensures Run(c, steps).value.joined.Some? <==> exists i: nat :: i < |steps| && JoinedSince(c, steps, i)
  {
    var n := |steps| - 1;
    var e := Run(c, steps[..n]).value;
    if !e.shutdown {
      ShutdownLeaves(c, e, steps[n]);
      forall i: nat | i < |steps|
        ensures !JoinedSince(c, steps, i)
      {
        NotYetShut(c, steps, i);
      }
    } else {
      InRoomAfterShutdownIff(c, steps[..n]);
      ShutMovesIff(c, e, steps[n]);
      JoinedForGoodStep(c, steps);
      assert JoinedForGood(c, steps) <==> exists i: nat :: i < |steps| && JoinedSince(c, steps, i);
    }
  }

  /** Such a join is possible: a run that ends shut down, shut down again, and in a room. */
  lemma JoinAfterShutdownStays(c: Config, room: string, peer: string, steps: seq<Step>)
    requires steps == [Moved(Connecting, []), Moved(Disconnected, []), Rpc(0, ReqJoin(room, peer, None), []), Stopped([])]
    ensures var run := Run(c, steps);
      run.Some? && run.value.shutdown && run.value.joined == Some(InRoom(c.hash(room), room, peer, None))
  {
    var s1, s2, s3 := steps[..1], steps[..2], steps[..3];
    assert Run(c, []) == Some(INITIAL);
    assert s1[..0] == [] && s2[..1] == s1 && s3[..2] == s2;
    assert Run(c, s1).Some? && Run(c, s1).value.joined.None? && Run(c, s1).value.waitJoin.None?;
    assert Run(c, s2).Some? && Run(c, s2).value.shutdown && Run(c, s2).value.state == Some(Disconnected);
    assert Run(c, s3).Some? && Run(c, s3).value.shutdown;
  }

  /** A leave request leaves the room unless it finds a join still waiting, which is all it then cancels. */
  lemma LeaveLeavesIff(c: Config, e: State, reqId: nat, drained: seq<Output>)
    ensures OnRpc(c, e, reqId, ReqLeave, drained).joined.None? <==> !(e.waitJoin.Some? && e.joined.Some?)
    ensures OnRpc(c, e, reqId, ReqLeave, drained).waitJoin.None?
  {
  }

  /** That happens: a join waits, the connection fails, a second join succeeds, and then a leave only cancels the first. */
  lemma LeaveCancelsOldJoin(c: Config, room: string, peer: string, steps: seq<Step>)
    requires steps == [Rpc(0, ReqJoin(room, peer, None), []), Moved(Connecting, []), Moved(ConnectError, []),
                       Rpc(1, ReqJoin(room, peer, None), []), Rpc(2, ReqLeave, [])]
    ensures var run := Run(c, steps);
      run.Some? && run.value.waitJoin.None? && run.value.joined == Some(InRoom(c.hash(room), room, peer, None))
  {
    var s1, s2, s3, s4 := steps[..1], steps[..2], steps[..3], steps[..4];
    var w := Some(WaitJoin(0, room, peer, None));
    assert Run(c, []) == Some(INITIAL);
    assert s1[..0] == [] && s2[..1] == s1 && s3[..2] == s2 && s4[..3] == s3;
    assert Run(c, s1).Some? && Run(c, s1).value.waitJoin == w && Run(c, s1).value.joined.None?;
    assert Run(c, s2).Some? && Run(c, s2).value.waitJoin == w && Run(c, s2).value.state == Some(Connecting) && Run(c, s2).value.joined.None?;
    assert Run(c, s3).Some? && Run(c, s3).value.waitJoin == w && Run(c, s3).value.state == Some(ConnectError) && Run(c, s3).value.joined.None?;
    assert Run(c, s4).Some? && Run(c, s4).value.waitJoin == w && Run(c, s4).value.joined == Some(InRoom(c.hash(room), room, peer, None));
  }

  // ---------------------------------------------------------------- every request is accounted for

  function Requested(x: nat, steps: seq<Step>): nat {
    if steps == [] then 0
    else
      var s := steps[|steps| - 1];
      Requested(x, steps[..|steps| - 1]) + (if s.Rpc? && !s.req.ReqTrack? && s.reqId == x then 1 else 0)
  }

  function Answered(x: nat, outs: seq<Output>): nat {
    if outs == [] then 0
    else
      var o := outs[|outs| - 1];
      Answered(x, outs[..|outs| - 1]) + (if o.RpcRes? && o.reqId == x then 1 else 0)
  }

  function Waiting(x: nat, e: State): nat {
    if e.waitJoin.Some? && e.waitJoin.value.reqId == x then 1 else 0
  }

  /** A waiting join that a newer waiting join replaces, or that a leave request cancels, is forgotten. */
  function Forgets(x: nat, e: State, s: Step): nat {
    if s.Rpc? && ((s.req.ReqJoin? && (e.state.None? || e.state.value.Connecting?)) || s.req.ReqLeave?) then Waiting(x, e)
    else 0
  }

  function Forgotten(x: nat, c: Config, steps: seq<Step>): nat {
    if steps == [] then 0
    else
      var before := Run(c, steps[..|steps| - 1]);
      Forgotten(x, c, steps[..|steps| - 1])
      + (if before.Some? then Forgets(x, before.value, steps[|steps| - 1]) else 0)
  }

  predicate Silent(outs: seq<Output>) {
    forall o <- outs :: !o.RpcRes?
  }

  lemma {:induction false} SilentAnswersNone(x: nat, s: seq<Output>, t: seq<Output>)
    requires Silent(t)
    ensures Answered(x, s + t) == Answered(x, s)
  {
    if t == [] {
      assert s + t == s;
    } else {
      assert (s + t)[..|s + t| - 1] == s + t[..|t| - 1];
      SilentAnswersNone(x, s, t[..|t| - 1]);
    }
  }

  lemma AnswersOne(x: nat, s: seq<Output>, o: Output)
    ensures Answered(x, s + [o]) == Answered(x, s) + (if o.RpcRes? && o.reqId == x then 1 else 0)
  {
    assert (s + [o])[..|s|] == s;
  }

  lemma LeaveSilent(x: nat, c: Config, e: State, drained: seq<Output>)
    requires AllFromTracks(drained)
    ensures Answered(x, LeaveRoom(c, e, drained).queue) == Answered(x, e.queue)
  {
    if e.joined.Some? {
      SilentAnswersNone(x, e.queue, drained + LeaveOutputs(c, e.joined.value));
    }
  }

  lemma JoinAnswersOne(x: nat, c: Config, e: State, w: WaitJoin, drained: seq<Output>)
    requires AllFromTracks(drained)
    ensures Answered(x, JoinRoom(c, e, w, drained).queue) == Answered(x, e.queue) + (if w.reqId == x then 1 else 0)
  {
    var e0 := Emit(e, [RpcRes(w.reqId, Ok)]);
    AnswersOne(x, e.queue, RpcRes(w.reqId, Ok));
    LeaveSilent(x, c, e0, drained);
    SilentAnswersNone(x, LeaveRoom(c, e0, drained).queue, JoinOutputs(c, InRoom(c.hash(w.room), w.room, w.peer, w.mixer)));
  }

  lemma ShutdownSilent(x: nat, c: Config, e: State, drained: seq<Output>)
    requires AllFromTracks(drained)
    ensures Answered(x, OnShutdown(c, e, drained).queue) == Answered(x, e.queue)
  {
    if !e.shutdown {
      SilentAnswersNone(x, e.queue, drained);
      if e.joined.Some? { SilentAnswersNone(x, e.queue + drained, LeaveOutputs(c, e.joined.value)); }
    }
  }

  lemma AnswersThen(x: nat, s: seq<Output>, reqId: nat, o: Output)
    requires !o.RpcRes?
    ensures Answered(x, s + [RpcRes(reqId, Ok), o]) == Answered(x, s) + (if reqId == x then 1 else 0)
  {
    var s1 := s + [RpcRes(reqId, Ok)];
    AnswersOne(x, s, RpcRes(reqId, Ok));
    AnswersOne(x, s1, o);
    assert s + [RpcRes(reqId, Ok), o] == s1 + [o];
  }

  lemma ForwardAnswersOne(x: nat, e: State, reqId: nat, control: Control)
    ensures Answered(x, InRoomOnly(e, reqId, control).queue) == Answered(x, e.queue) + (if reqId == x then 1 else 0)
  {
    if e.joined.None? {
      AnswersOne(x, e.queue, RpcRes(reqId, NotInRoom));
    } else {
      AnswersThen(x, e.queue, reqId, Cluster(e.joined.value.hash, control));
    }
  }

  lemma JoinAccounts(x: nat, c: Config, e: State, w: WaitJoin, drained: seq<Output>)
    requires AllFromTracks(drained)
    ensures var req := ReqJoin(w.room, w.peer, w.mixer);
      var e' := OnRpc(c, e, w.reqId, req, drained);
      Answered(x, e'.queue) + Waiting(x, e') + Forgets(x, e, Rpc(w.reqId, req, drained))
      == Answered(x, e.queue) + Waiting(x, e) + (if w.reqId == x then 1 else 0)
  {
    JoinAnswersOne(x, c, e, w, drained);
  }

  lemma LeaveAccounts(x: nat, c: Config, e: State, reqId: nat, drained: seq<Output>)
    requires AllFromTracks(drained)
    ensures var e' := OnRpc(c, e, reqId, ReqLeave, drained);
      Answered(x, e'.queue) + Waiting(x, e') + Forgets(x, e, Rpc(reqId, ReqLeave, drained))
      == Answered(x, e.queue) + Waiting(x, e) + (if reqId == x then 1 else 0)
  {
    AnswersOne(x, e.queue, RpcRes(reqId, Ok));
    LeaveSilent(x, c, Emit(e, [RpcRes(reqId, Ok)]), drained);
  }

  lemma OtherAnswersOne(x: nat, c: Config, e: State, reqId: nat, req: Request, drained: seq<Output>)
    requires !req.ReqJoin? && !req.ReqLeave? && !req.ReqTrack?
    ensures Answered(x, OnRpc(c, e, reqId, req, drained).queue) == Answered(x, e.queue) + (if reqId == x then 1 else 0)
    ensures OnRpc(c, e, reqId, req, drained).waitJoin == e.waitJoin
  {
    match req
    case ReqSubscribePeer(peer) => ForwardAnswersOne(x, e, reqId, SubscribePeer(peer));
    case ReqUnsubscribePeer(peer) => ForwardAnswersOne(x, e, reqId, UnsubscribePeer(peer));
    case ReqMixerAttach(sources) =>
      AnswersOne(x, e.queue, RpcRes(reqId, WrongMixerMode));
      ForwardAnswersOne(x, e, reqId, MixerAttach(sources));
    case ReqMixerDetach(sources) =>
      AnswersOne(x, e.queue, RpcRes(reqId, WrongMixerMode));
      ForwardAnswersOne(x, e, reqId, MixerDetach(sources));
    case ReqChannel(name, op) =>
      ForwardAnswersOne(x, e, reqId, Channel(name, op, if op.PublishData? && e.joined.Some? then Some(e.joined.value.peer) else None));
  }

  /** One request: it is answered or waits, and what it forgets was waiting. */
  lemma RpcAccounts(x: nat, c: Config, e: State, reqId: nat, req: Request, drained: seq<Output>)
    requires AllFromTracks(drained)
    ensures var e' := OnRpc(c, e, reqId, req, drained);
      Answered(x, e'.queue) + Waiting(x, e') + Forgets(x, e, Rpc(reqId, req, drained))
      == Answered(x, e.queue) + Waiting(x, e) + (if !req.ReqTrack? && reqId == x then 1 else 0)
  {
    match req
    case ReqJoin(room, peer, mixer) => JoinAccounts(x, c, e, WaitJoin(reqId, room, peer, mixer), drained);
    case ReqLeave => LeaveAccounts(x, c, e, reqId, drained);
    case ReqTrack =>
    case _ => OtherAnswersOne(x, c, e, reqId, req, drained);
  }

  lemma DisconnectSilent(x: nat, c: Config, e: State, drained: seq<Output>)
    requires AllFromTracks(drained)
    ensures Answered(x, OnShutdown(c, if c.record then Emit(e, [RecordEvent(RecordDisconnected)]) else e, drained).queue) == Answered(x, e.queue)
  {
    AnswersOne(x, e.queue, RecordEvent(RecordDisconnected));
    ShutdownSilent(x, c, if c.record then Emit(e, [RecordEvent(RecordDisconnected)]) else e, drained);
  }

  /** A state change answers nothing but the join that was waiting for a connection. */
  lemma StateAnswers(x: nat, c: Config, e: State, next: TransportState, drained: seq<Output>, e1: State)
    requires AllFromTracks(drained) && StateExpected(e, next) && !next.New?
    requires e1 == Emit(e.(state := Some(next)), [PeerEvent(if next.Connected? && e.state.value.Reconnecting? then Reconnected else Transport(next))])
    ensures Answered(x, OnState(c, e, next, drained).queue) == Answered(x, e1.queue) + (if next.Connected? then Waiting(x, e) else 0)
    ensures OnState(c, e, next, drained).waitJoin == if next.Connected? then None else e.waitJoin
  {
    match next
    case ConnectError => ShutdownSilent(x, c, e1, drained);
    case Connected =>
      if e.waitJoin.Some? { JoinAnswersOne(x, c, e1.(waitJoin := None), e.waitJoin.value, drained); }
    case Disconnected => DisconnectSilent(x, c, e1, drained);
    case _ =>
  }

  lemma StateAccounts(x: nat, c: Config, e: State, next: TransportState, drained: seq<Output>)
    requires AllFromTracks(drained) && StateExpected(e, next)
    ensures var e' := OnState(c, e, next, drained); Answered(x, e'.queue) + Waiting(x, e') == Answered(x, e.queue) + Waiting(x, e)
  {
    if !next.New? {
      var o := PeerEvent(if next.Connected? && e.state.value.Reconnecting? then Reconnected else Transport(next));
      AnswersOne(x, e.queue, o);
      StateAnswers(x, c, e, next, drained, Emit(e.(state := Some(next)), [o]));
    }
  }

  /**
   Conservation: over every run a request id is answered, waits to join, or is a forgotten join,
   together exactly as often as it was requested.
   */
  lemma {:induction false} RequestsConserved(x: nat, c: Config, steps: seq<Step>)
    requires Run(c, steps).Some?
    ensures var e := Run(c, steps).value; Requested(x, steps) == Answered(x, e.queue) + Waiting(x, e) + Forgotten(x, c, steps)
  {
    if steps != [] {
      var e := Run(c, steps[..|steps| - 1]).value;
      RequestsConserved(x, c, steps[..|steps| - 1]);
      match steps[|steps| - 1]
      case Rpc(reqId, req, drained) => RpcAccounts(x, c, e, reqId, req, drained);
      case Moved(next, drained) => StateAccounts(x, c, e, next, drained);
      case Stopped(drained) => ShutdownSilent(x, c, e, drained);
      case Tracks(outs) => SilentAnswersNone(x, e.queue, outs);
    }
  }
}
