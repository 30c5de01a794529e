/**
 Every output of an endpoint has its cause, and every cause its output, over whole runs.

 Where the endpoint stands is told from the history alone: the last transport state, the join that
 waits, the join that was carried out last and not left since.  Then each output is traced back to
 the steps that must have caused it, and counted.
 */
module EndpointOutputs {
  import opened Options
  import opened Endpoint
  import opened EndpointRuns

  // ---------------------------------------------------------------- the history

  /** The last transport state, the join that waits, the join the endpoint is in, and whether it was ever stopped. */
  datatype History = History(last: Option<TransportState>, waits: Option<WaitJoin>, room: Option<WaitJoin>, shut: bool)

  const BEGINNING := History(None, None, None, false)

  /** Joins wait before the first report and while connecting. */
  predicate JoinsWait(h: History) {
    h.last == None || h.last == Some(Connecting)
  }

  /** The last join that had to wait, until a leave request cancels it or a connection serves it. */
  function WaitsAfter(h: History, s: Step): Option<WaitJoin> {
    match s
    case Rpc(id, ReqJoin(room, peer, mixer), _) => if JoinsWait(h) then Some(WaitJoin(id, room, peer, mixer)) else h.waits
    case Rpc(_, ReqLeave, _) => None
    case Moved(Connected, _) => None
    case _ => h.waits
  }

  predicate Stops(s: Step) {
    s.Stopped? || (s.Moved? && (s.next.ConnectError? || s.next.Disconnected?))
  }

  /** The join that a step carries out. */
  function JoinBy(h: History, s: Step): Option<WaitJoin> {
    match s
    case Rpc(id, ReqJoin(room, peer, mixer), _) => if JoinsWait(h) then None else Some(WaitJoin(id, room, peer, mixer))
    case Moved(Connected, _) => h.waits
    case _ => None
  }

  /** The step takes the endpoint out of any room it is in: a join, a leave that finds no join waiting, the first stop. */
  predicate Ends(h: History, s: Step) {
    JoinBy(h, s).Some? || (s.Rpc? && s.req.ReqLeave? && h.waits.None?) || (Stops(s) && !h.shut)
  }

  function Extend(h: History, s: Step): History {
    History(
      if s.Moved? then Some(s.next) else h.last,
      WaitsAfter(h, s),
      if Ends(h, s) then JoinBy(h, s) else h.room,
      h.shut || Stops(s))
  }

  function HistoryOf(steps: seq<Step>): History {
    if steps == [] then BEGINNING else Extend(HistoryOf(steps[..|steps| - 1]), steps[|steps| - 1])
  }

  function Placed(c: Config, w: Option<WaitJoin>): Option<InRoom> {
    match w
    case None => None
    case Some(w) => Some(InRoom(c.hash(w.room), w.room, w.peer, w.mixer))
  }

  predicate At(c: Config, h: History, e: State) {
    e.state == h.last && e.waitJoin == h.waits && e.shutdown == h.shut && e.joined == Placed(c, h.room)
  }

  lemma RpcMoves(c: Config, h: History, e: State, s: Step)
    requires At(c, h, e) && s.Rpc?
    ensures At(c, Extend(h, s), OnRpc(c, e, s.reqId, s.req, s.drained))
  {
  }

  lemma StateMoves(c: Config, h: History, e: State, s: Step)
    requires At(c, h, e) && s.Moved? && StateExpected(e, s.next)
    ensures At(c, Extend(h, s), OnState(c, e, s.next, s.drained))
  {
  }

  /** In every run the endpoint stands where its history says. */
  lemma {:induction false} StandsByHistory(c: Config, steps: seq<Step>)
    requires Run(c, steps).Some?
    ensures var e, h := Run(c, steps).value, HistoryOf(steps);
      e.state == h.last && e.waitJoin == h.waits && e.shutdown == h.shut && e.joined == Placed(c, h.room)
  {
    if steps != [] {
      var init, s := steps[..|steps| - 1], steps[|steps| - 1];
      StandsByHistory(c, init);
      var e, h := Run(c, init).value, HistoryOf(init);
      match s
      case Rpc(_, _, _) => RpcMoves(c, h, e, s);
      case Moved(_, _) => StateMoves(c, h, e, s);
      case Stopped(_) =>
      case Tracks(_) =>
    }
  }

  // ---------------------------------------------------------------- from an output to its causes

  /** What a request is told by an endpoint that is in `room`. */
  function ReplyTo(room: Option<WaitJoin>, req: Request): Reply {
    if req.ReqLeave? then Ok
    else if req.ReqMixerAttach? || req.ReqMixerDetach? then
      if room.Some? && room.value.mixer == Some(Manual) then Ok else WrongMixerMode
    else if room.Some? then Ok
    else NotInRoom
  }

  /** The request that room control `control` must come from, in the room joined by `w`. */
  predicate AsksFor(w: WaitJoin, req: Request, control: Control) {
    match control
    case SubscribePeer(peer) => req == ReqSubscribePeer(peer)
    case UnsubscribePeer(peer) => req == ReqUnsubscribePeer(peer)
    case MixerAttach(sources) => req == ReqMixerAttach(sources) && w.mixer == Some(Manual)
    case MixerDetach(sources) => req == ReqMixerDetach(sources) && w.mixer == Some(Manual)
    case Channel(name, op, from) => req == ReqChannel(name, op) && from == (if op.PublishData? then Some(w.peer) else None)
    case _ => false
  }

  predicate CausesControl(c: Config, h: History, s: Step, hash: nat, control: Control) {
    match control
    case Join(peer, mixer) =>
      var w := JoinBy(h, s);
      w.Some? && hash == c.hash(w.value.room) && peer == w.value.peer && mixer == w.value.mixer
    case TrackControl => false
    case Leave => h.room.Some? && hash == c.hash(h.room.value.room) && Ends(h, s)
    case _ =>
      h.room.Some? && hash == c.hash(h.room.value.room) && s.Rpc? && AsksFor(h.room.value, s.req, control)
  }

  predicate CausesEvent(h: History, s: Step, event: Lifecycle) {
    match event
    case Joined(room, peer) => var w := JoinBy(h, s); w.Some? && room == w.value.room && peer == w.value.peer
    case Left(room, peer) =>
      var w := h.room; w.Some? && room == w.value.room && peer == w.value.peer && Ends(h, s)
    case Transport(state) =>
      s.Moved? && s.next == state && !state.New? && !(state.Connected? && h.last == Some(Reconnecting))
    case Reconnected => s.Moved? && s.next.Connected? && h.last == Some(Reconnecting)
    case TrackEvent => false
  }

  predicate CausesRecord(c: Config, h: History, s: Step, record: Record) {
    c.record && match record
      case RecordJoin(room, peer) => var w := JoinBy(h, s); w.Some? && room == w.value.room && peer == w.value.peer
      case RecordLeave => h.room.Some? && Ends(h, s)
      case RecordDisconnected => s.Moved? && s.next.Disconnected?
      case RecordTrack => false
  }

  /** A join is told when it is carried out, any other request at once; track requests are the tracks'. */
  predicate CausesReply(h: History, s: Step, id: nat, reply: Reply) {
    || (JoinBy(h, s).Some? && id == JoinBy(h, s).value.reqId && reply == Ok)
    || (s.Rpc? && !s.req.ReqJoin? && !s.req.ReqTrack? && id == s.reqId && reply == ReplyTo(h.room, s.req))
  }

  /** After history `h`, step `s` must put out `o`. */
  predicate Causes(c: Config, h: History, s: Step, o: Output) {
    match o
    case Cluster(hash, control) => CausesControl(c, h, s, hash, control)
    case PeerEvent(event) => CausesEvent(h, s, event)
    case RecordEvent(record) => CausesRecord(c, h, s, record)
    case RpcRes(id, reply) => CausesReply(h, s, id, reply)
    case _ => false
  }

  /** The steps at which the tracks' outputs are passed on. */
  predicate Drains(h: History, s: Step) {
    s.Tracks? || (Stops(s) && !h.shut) || (h.room.Some? && Ends(h, s))
  }

  function One(b: bool): nat {
    if b then 1 else 0
  }

  function Count(outs: seq<Output>, o: Output): nat {
    if outs == [] then 0 else Count(outs[..|outs| - 1], o) + One(outs[|outs| - 1] == o)
  }

  /** How often a run must put out `o`. */
  function Caused(c: Config, steps: seq<Step>, o: Output): nat {
    if steps == [] then 0
    else
      var init, s := steps[..|steps| - 1], steps[|steps| - 1];
      Caused(c, init, o) + One(Causes(c, HistoryOf(init), s, o)) + if Drains(HistoryOf(init), s) then Count(Drained(s), o) else 0
  }

  // ---------------------------------------------------------------- counting the outputs of each operation

  lemma {:induction false} CountAppend(s: seq<Output>, t: seq<Output>, o: Output)
    ensures Count(s + t, o) == Count(s, o) + Count(t, o)
  {
    if t == [] {
      assert s + t == s;
    } else {
      assert (s + t)[..|s + t| - 1] == s + t[..|t| - 1];
      CountAppend(s, t[..|t| - 1], o);
    }
  }

  lemma CountOne(p: Output, o: Output)
    ensures Count([p], o) == One(p == o)
  {
    assert [p][..0] == [];
    assert Count([], o) == 0;
  }

  lemma CountPush(s: seq<Output>, p: Output, o: Output)
    ensures Count(s + [p], o) == Count(s, o) + One(p == o)
  {
    CountAppend(s, [p], o);
    CountOne(p, o);
  }

  lemma CountTriple(record: bool, p: Output, q: Output, r: Output, o: Output)
    ensures Count([p] + (if record then [q] else []) + [r], o) == One(p == o) + One(record && q == o) + One(r == o)
  {
    CountOne(p, o);
    if record { CountPush([p], q, o); } else { assert [p] + [] == [p]; }
    CountPush([p] + (if record then [q] else []), r, o);
  }

  /** The outputs that tell of a leave, and of a join. */
  function LeaveCount(c: Config, j: InRoom, o: Output): nat {
    One(Cluster(j.hash, Leave) == o) + One(c.record && RecordEvent(RecordLeave) == o) + One(PeerEvent(Left(j.room, j.peer)) == o)
  }

  function JoinCount(c: Config, j: InRoom, o: Output): nat {
    One(Cluster(j.hash, Join(j.peer, j.mixer)) == o) + One(c.record && RecordEvent(RecordJoin(j.room, j.peer)) == o)
    + One(PeerEvent(Joined(j.room, j.peer)) == o)
  }

  function LeftCount(c: Config, joined: Option<InRoom>, drained: seq<Output>, o: Output): nat {
    if joined.None? then 0 else Count(drained, o) + LeaveCount(c, joined.value, o)
  }

  lemma LeaveRoomCounts(c: Config, e: State, drained: seq<Output>, o: Output)
    ensures Count(LeaveRoom(c, e, drained).queue, o) == Count(e.queue, o) + LeftCount(c, e.joined, drained, o)
  {
    if e.joined.Some? {
      var j := e.joined.value;
      CountAppend(e.queue, drained + LeaveOutputs(c, j), o);
      CountAppend(drained, LeaveOutputs(c, j), o);
      CountTriple(c.record, Cluster(j.hash, Leave), RecordEvent(RecordLeave), PeerEvent(Left(j.room, j.peer)), o);
    }
  }

  lemma JoinRoomCounts(c: Config, e: State, w: WaitJoin, drained: seq<Output>, o: Output)
    ensures Count(JoinRoom(c, e, w, drained).queue, o)
      == Count(e.queue, o) + One(RpcRes(w.reqId, Ok) == o) + LeftCount(c, e.joined, drained, o)
       + JoinCount(c, InRoom(c.hash(w.room), w.room, w.peer, w.mixer), o)
  {
    var j := InRoom(c.hash(w.room), w.room, w.peer, w.mixer);
    var e0 := Emit(e, [RpcRes(w.reqId, Ok)]);
    CountPush(e.queue, RpcRes(w.reqId, Ok), o);
    LeaveRoomCounts(c, e0, drained, o);
    CountAppend(LeaveRoom(c, e0, drained).queue, JoinOutputs(c, j), o);
    CountTriple(c.record, Cluster(j.hash, Join(j.peer, j.mixer)), RecordEvent(RecordJoin(j.room, j.peer)), PeerEvent(Joined(j.room, j.peer)), o);
  }

  lemma ShutdownCounts(c: Config, e: State, drained: seq<Output>, o: Output)
    ensures Count(OnShutdown(c, e, drained).queue, o)
      == Count(e.queue, o)
       + (if e.shutdown then 0 else Count(drained, o) + if e.joined.None? then 0 else LeaveCount(c, e.joined.value, o))
  {
    if !e.shutdown {
      CountAppend(e.queue, drained, o);
      if e.joined.Some? {
        var j := e.joined.value;
        CountAppend(e.queue + drained, LeaveOutputs(c, j), o);
        CountTriple(c.record, Cluster(j.hash, Leave), RecordEvent(RecordLeave), PeerEvent(Left(j.room, j.peer)), o);
      }
    }
  }

  lemma ForwardCounts(e: State, id: nat, control: Control, o: Output)
    ensures Count(InRoomOnly(e, id, control).queue, o)
      == Count(e.queue, o)
       + if e.joined.None? then One(RpcRes(id, NotInRoom) == o)
         else One(RpcRes(id, Ok) == o) + One(Cluster(e.joined.value.hash, control) == o)
  {
    if e.joined.None? {
      CountPush(e.queue, RpcRes(id, NotInRoom), o);
    } else {
      var p, q := RpcRes(id, Ok), Cluster(e.joined.value.hash, control);
      CountPush(e.queue, p, o);
      CountPush(e.queue + [p], q, o);
      assert e.queue + [p] + [q] == e.queue + [p, q];
    }
  }

  /** What a step adds to the count of `o`. */
  function Added(c: Config, h: History, s: Step, o: Output): nat {
    One(Causes(c, h, s, o)) + if Drains(h, s) then Count(Drained(s), o) else 0
  }

  // ---------------------------------------------------------------- the causes, step by step

  function Exits(c: Config, room: Option<WaitJoin>, o: Output): nat {
    match Placed(c, room)
    case None => 0
    case Some(j) => LeaveCount(c, j, o)
  }

  function Enters(c: Config, w: WaitJoin, o: Output): nat {
    One(RpcRes(w.reqId, Ok) == o) + JoinCount(c, InRoom(c.hash(w.room), w.room, w.peer, w.mixer), o)
  }

  function Report(h: History, next: TransportState): Output {
    PeerEvent(if next.Connected? && h.last == Some(Reconnecting) then Reconnected else Transport(next))
  }

  lemma JoinRequestCauses(c: Config, h: History, s: Step, w: WaitJoin, o: Output)
    requires s.Rpc? && s.req.ReqJoin? && JoinBy(h, s) == Some(w)
    ensures One(Causes(c, h, s, o)) == Exits(c, h.room, o) + Enters(c, w, o)
  {
    match o
    case Cluster(_, _) =>
    case PeerEvent(_) =>
    case RecordEvent(_) =>
    case RpcRes(_, _) =>
    case _ =>
  }

  lemma ConnectedCauses(c: Config, h: History, s: Step, o: Output)
    requires s.Moved? && s.next.Connected?
    ensures One(Causes(c, h, s, o))
      == One(Report(h, Connected) == o) + if h.waits.None? then 0 else Exits(c, h.room, o) + Enters(c, h.waits.value, o)
  {
    match o
    case Cluster(_, _) =>
    case PeerEvent(_) =>
    case RecordEvent(_) =>
    case RpcRes(_, _) =>
    case _ =>
  }

  lemma LeaveRequestCauses(c: Config, h: History, s: Step, o: Output)
    requires s.Rpc? && s.req.ReqLeave?
    ensures One(Causes(c, h, s, o)) == One(RpcRes(s.reqId, Ok) == o) + if h.waits.Some? then 0 else Exits(c, h.room, o)
  {
    match o
    case Cluster(_, _) =>
    case PeerEvent(_) =>
    case RecordEvent(_) =>
    case RpcRes(_, _) =>
    case _ =>
  }

  lemma StopCauses(c: Config, h: History, s: Step, o: Output)
    requires Stops(s)
    ensures One(Causes(c, h, s, o))
      == (if s.Moved? then One(Report(h, s.next) == o) else 0)
       + One(c.record && s.Moved? && s.next.Disconnected? && RecordEvent(RecordDisconnected) == o)
       + (if h.shut then 0 else Exits(c, h.room, o))
  {
    match o
    case Cluster(_, _) =>
    case PeerEvent(_) =>
    case RecordEvent(_) =>
    case RpcRes(_, _) =>
    case _ =>
  }

  /** The requests that are only passed on, the control each asks for, and where it is refused. */
  predicate Forwards(req: Request) {
    !req.ReqJoin? && !req.ReqLeave? && !req.ReqTrack?
  }

  function ControlOf(w: WaitJoin, req: Request): Control
    requires Forwards(req)
  {
    match req
    case ReqSubscribePeer(peer) => SubscribePeer(peer)
    case ReqUnsubscribePeer(peer) => UnsubscribePeer(peer)
    case ReqMixerAttach(sources) => MixerAttach(sources)
    case ReqMixerDetach(sources) => MixerDetach(sources)
    case ReqChannel(name, op) => Channel(name, op, if op.PublishData? then Some(w.peer) else None)
  }

  lemma AsksForControlOf(w: WaitJoin, req: Request, control: Control)
    requires Forwards(req)
    ensures AsksFor(w, req, control) <==> ControlOf(w, req) == control && ReplyTo(Some(w), req) == Ok
  {
  }

  lemma ForwardCauses(c: Config, h: History, s: Step, o: Output)
    requires s.Rpc? && Forwards(s.req)
    ensures One(Causes(c, h, s, o))
      == One(RpcRes(s.reqId, ReplyTo(h.room, s.req)) == o)
       + if ReplyTo(h.room, s.req) == Ok then One(Cluster(c.hash(h.room.value.room), ControlOf(h.room.value, s.req)) == o) else 0
  {
    match o
    case Cluster(_, control) => if h.room.Some? { AsksForControlOf(h.room.value, s.req, control); }
    case PeerEvent(_) =>
    case RecordEvent(_) =>
    case RpcRes(_, _) =>
    case _ =>
  }

  // ---------------------------------------------------------------- each step puts out what it causes

  lemma JoinRequestAdds(c: Config, h: History, e: State, s: Step, o: Output)
    requires At(c, h, e) && s.Rpc? && s.req.ReqJoin?
    ensures Count(OnRpc(c, e, s.reqId, s.req, s.drained).queue, o) == Count(e.queue, o)
      + if JoinsWait(h) then 0
        else (if h.room.None? then 0 else Count(s.drained, o)) + Exits(c, h.room, o) + Enters(c, WaitJoin(s.reqId, s.req.room, s.req.peer, s.req.mixer), o)
  {
    if !JoinsWait(h) { JoinRoomCounts(c, e, WaitJoin(s.reqId, s.req.room, s.req.peer, s.req.mixer), s.drained, o); }
  }

  lemma LeaveRequestAdds(c: Config, h: History, e: State, s: Step, o: Output)
    requires At(c, h, e) && s.Rpc? && s.req.ReqLeave?
    ensures Count(OnRpc(c, e, s.reqId, s.req, s.drained).queue, o) == Count(e.queue, o)
      + One(RpcRes(s.reqId, Ok) == o)
      + if h.waits.Some? || h.room.None? then 0 else Count(s.drained, o) + Exits(c, h.room, o)
  {
    CountPush(e.queue, RpcRes(s.reqId, Ok), o);
    LeaveRoomCounts(c, Emit(e, [RpcRes(s.reqId, Ok)]), s.drained, o);
  }

  lemma ForwardIs(c: Config, h: History, e: State, s: Step)
    requires At(c, h, e) && s.Rpc? && Forwards(s.req)
    ensures var reply := ReplyTo(h.room, s.req);
      OnRpc(c, e, s.reqId, s.req, s.drained)
      == if reply == Ok then InRoomOnly(e, s.reqId, ControlOf(h.room.value, s.req)) else Emit(e, [RpcRes(s.reqId, reply)])
  {
  }

  lemma ForwardAdds(c: Config, h: History, e: State, s: Step, e': State, o: Output)
    requires At(c, h, e) && s.Rpc? && Forwards(s.req) && e' == OnRpc(c, e, s.reqId, s.req, s.drained)
    ensures Count(e'.queue, o) == Count(e.queue, o)
      + One(RpcRes(s.reqId, ReplyTo(h.room, s.req)) == o)
      + if ReplyTo(h.room, s.req) == Ok then One(Cluster(c.hash(h.room.value.room), ControlOf(h.room.value, s.req)) == o) else 0
  {
    ForwardIs(c, h, e, s);
    if ReplyTo(h.room, s.req) == Ok {
      ForwardCounts(e, s.reqId, ControlOf(h.room.value, s.req), o);
    } else {
      CountPush(e.queue, RpcRes(s.reqId, ReplyTo(h.room, s.req)), o);
    }
  }

  lemma ConnectedIs(c: Config, h: History, e: State, s: Step, e1: State)
    requires At(c, h, e) && s.Moved? && s.next.Connected? && e.state.Some?
    requires e1 == Emit(e.(state := Some(Connected), waitJoin := None), [Report(h, Connected)])
    ensures OnState(c, e, s.next, s.drained) == if h.waits.None? then e1 else JoinRoom(c, e1, h.waits.value, s.drained)
  {
  }

  lemma ConnectedAdds(c: Config, h: History, e: State, s: Step, e': State, o: Output)
    requires At(c, h, e) && s.Moved? && s.next.Connected? && e.state.Some? && e' == OnState(c, e, s.next, s.drained)
    ensures Count(e'.queue, o) == Count(e.queue, o)
      + One(Report(h, Connected) == o)
      + if h.waits.None? then 0
        else (if h.room.None? then 0 else Count(s.drained, o)) + Exits(c, h.room, o) + Enters(c, h.waits.value, o)
  {
    var e1 := Emit(e.(state := Some(Connected), waitJoin := None), [Report(h, Connected)]);
    ConnectedIs(c, h, e, s, e1);
    CountPush(e.queue, Report(h, Connected), o);
    if h.waits.Some? { JoinRoomCounts(c, e1, h.waits.value, s.drained, o); }
  }

  lemma StopAdds(c: Config, h: History, e: State, s: Step, o: Output)
    requires At(c, h, e) && Stops(s) && Allowed(e, s)
    ensures Count(Apply(c, e, s).queue, o) == Count(e.queue, o)
      + (if s.Moved? then One(Report(h, s.next) == o) else 0)
      + One(c.record && s.Moved? && s.next.Disconnected? && RecordEvent(RecordDisconnected) == o)
      + (if h.shut then 0 else Count(Drained(s), o) + Exits(c, h.room, o))
  {
    if s.Moved? {
      var e1 := Emit(e.(state := Some(s.next)), [Report(h, s.next)]);
      CountPush(e.queue, Report(h, s.next), o);
      CountPush(e1.queue, RecordEvent(RecordDisconnected), o);
      ShutdownCounts(c, if c.record && s.next.Disconnected? then Emit(e1, [RecordEvent(RecordDisconnected)]) else e1, s.drained, o);
    } else {
      ShutdownCounts(c, e, s.drained, o);
    }
  }

  /** The moves that only report the new state, if that. */
  predicate OnlyReports(s: Step) {
    s.Moved? && (s.next.New? || s.next.Connecting? || s.next.Reconnecting?)
  }

  lemma ReportCauses(c: Config, h: History, s: Step, o: Output)
    requires OnlyReports(s)
    ensures One(Causes(c, h, s, o)) == if s.next.New? then 0 else One(Report(h, s.next) == o)
    ensures !Drains(h, s)
  {
    match o
    case Cluster(_, _) =>
    case PeerEvent(_) =>
    case RecordEvent(_) =>
    case RpcRes(_, _) =>
    case _ =>
  }

  lemma ReportAdds(c: Config, h: History, e: State, s: Step, o: Output)
    requires At(c, h, e) && OnlyReports(s)
    ensures Count(OnState(c, e, s.next, s.drained).queue, o) == Count(e.queue, o) + if s.next.New? then 0 else One(Report(h, s.next) == o)
  {
    CountPush(e.queue, Report(h, s.next), o);
  }

  lemma TracksCause(c: Config, h: History, s: Step, o: Output)
    requires s.Tracks? || (s.Rpc? && s.req.ReqTrack?)
    ensures !Causes(c, h, s, o) && (Drains(h, s) <==> s.Tracks?)
  {
  }

  lemma RpcAdds(c: Config, h: History, e: State, s: Step, o: Output)
    requires At(c, h, e) && s.Rpc? && !s.req.ReqTrack?
    ensures Count(OnRpc(c, e, s.reqId, s.req, s.drained).queue, o) == Count(e.queue, o) + Added(c, h, s, o)
  {
    if s.req.ReqJoin? {
      JoinRequestAdds(c, h, e, s, o);
      if !JoinsWait(h) { JoinRequestCauses(c, h, s, WaitJoin(s.reqId, s.req.room, s.req.peer, s.req.mixer), o); }
    } else if s.req.ReqLeave? {
      LeaveRequestAdds(c, h, e, s, o);
      LeaveRequestCauses(c, h, s, o);
    } else {
      ForwardAdds(c, h, e, s, OnRpc(c, e, s.reqId, s.req, s.drained), o);
      ForwardCauses(c, h, s, o);
    }
  }

  lemma StepAdds(c: Config, h: History, e: State, s: Step, o: Output)
    requires At(c, h, e) && Allowed(e, s)
    ensures Count(Apply(c, e, s).queue, o) == Count(e.queue, o) + Added(c, h, s, o)
  {
    if s.Rpc? && !s.req.ReqTrack? {
      RpcAdds(c, h, e, s, o);
    } else if Stops(s) {
      StopAdds(c, h, e, s, o);
      StopCauses(c, h, s, o);
    } else if s.Moved? && s.next.Connected? {
      ConnectedAdds(c, h, e, s, OnState(c, e, s.next, s.drained), o);
      ConnectedCauses(c, h, s, o);
    } else if s.Moved? {
      ReportAdds(c, h, e, s, o);
      ReportCauses(c, h, s, o);
    } else {
      TracksCause(c, h, s, o);
      if s.Tracks? { CountAppend(e.queue, s.outs, o); }
    }
  }

  /**
   Conservation of every output, over every run: an output is in the queue exactly as often as steps
   of the run caused it.
   */
  lemma {:induction false} OutputsConserved(c: Config, steps: seq<Step>, o: Output)
    requires Run(c, steps).Some?
    ensures Count(Run(c, steps).value.queue, o) == Caused(c, steps, o)
  {
    if steps != [] {
      var init, s := steps[..|steps| - 1], steps[|steps| - 1];
      OutputsConserved(c, init, o);
      StandsByHistory(c, init);
      StepAdds(c, HistoryOf(init), Run(c, init).value, s, o);
    }
  }

  // ---------------------------------------------------------------- controls and replies of requests

  /** How many requests of a run asked for `control` in a room with this hash. */
  function AskedFor(c: Config, steps: seq<Step>, hash: nat, control: Control): nat {
    if steps == [] then 0
    else
      var init, s := steps[..|steps| - 1], steps[|steps| - 1];
      var room := HistoryOf(init).room;
      AskedFor(c, init, hash, control)
      + One(room.Some? && c.hash(room.value.room) == hash && s.Rpc? && AsksFor(room.value, s.req, control))
  }

  /** How many joins carried out, and how many other requests, have this id and are to be told `reply`. */
  function ToldBy(steps: seq<Step>, id: nat, reply: Reply): nat {
    if steps == [] then 0
    else
      var init, s := steps[..|steps| - 1], steps[|steps| - 1];
      ToldBy(init, id, reply) + One(CausesReply(HistoryOf(init), s, id, reply))
  }

  predicate OfRequest(control: Control) {
    !control.Join? && !control.Leave? && !control.TrackControl?
  }

  lemma {:induction false} NoneDrained(outs: seq<Output>, o: Output)
    requires AllFromTracks(outs) && !FromTrack(o)
    ensures Count(outs, o) == 0
  {
    if outs != [] {
      assert FromTrack(outs[|outs| - 1]);
      NoneDrained(outs[..|outs| - 1], o);
    }
  }

  lemma {:induction false} CausedByRequests(c: Config, steps: seq<Step>, hash: nat, control: Control)
    requires Run(c, steps).Some? && OfRequest(control)
    ensures Caused(c, steps, Cluster(hash, control)) == AskedFor(c, steps, hash, control)
  {
    if steps != [] {
      CausedByRequests(c, steps[..|steps| - 1], hash, control);
      NoneDrained(Drained(steps[|steps| - 1]), Cluster(hash, control));
    }
  }

  lemma {:induction false} CausedReplies(c: Config, steps: seq<Step>, id: nat, reply: Reply)
    requires Run(c, steps).Some?
    ensures Caused(c, steps, RpcRes(id, reply)) == ToldBy(steps, id, reply)
  {
    if steps != [] {
      CausedReplies(c, steps[..|steps| - 1], id, reply);
      NoneDrained(Drained(steps[|steps| - 1]), RpcRes(id, reply));
    }
  }

  /**
   In every run the control of a request is passed on exactly as often as that very request, with
   the same argument, was made in that room; for the mixer, in manual mode.
   */
  lemma ControlsConserved(c: Config, steps: seq<Step>, hash: nat, control: Control)
    requires Run(c, steps).Some? && OfRequest(control)
    ensures Count(Run(c, steps).value.queue, Cluster(hash, control)) == AskedFor(c, steps, hash, control)
  {
    OutputsConserved(c, steps, Cluster(hash, control));
    CausedByRequests(c, steps, hash, control);
  }

  /**
   In every run a request is told `Ok` exactly if it was carried out: a join when it is, a leave
   always, any other request in a room, in manual mode for the mixer.  Otherwise it is told the
   error of its kind.
   */
  lemma RepliesConserved(c: Config, steps: seq<Step>, id: nat, reply: Reply)
    requires Run(c, steps).Some?
    ensures Count(Run(c, steps).value.queue, RpcRes(id, reply)) == ToldBy(steps, id, reply)
  {
    OutputsConserved(c, steps, RpcRes(id, reply));
    CausedReplies(c, steps, id, reply);
  }
}
