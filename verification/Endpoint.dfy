/**
 The join and leave state machine of an endpoint (packages/media_core/src/endpoint/internal.rs).

 Tracks are abstract emitters: what they hand over when the endpoint drains them is a parameter,
 restricted only to the kinds of output a track can have.  Times, metadata and addresses are left
 out, and the room hash is a function of the room.
 */
module Endpoint {
  import opened Options

  datatype MixerMode = Auto | Manual

  datatype ChannelOp = Subscribe | Unsubscribe | StartPublish | StopPublish | PublishData(data: string)

  datatype Request =
    | ReqJoin(room: string, peer: string, mixer: Option<MixerMode>)
    | ReqLeave
    | ReqSubscribePeer(peer: string)
    | ReqUnsubscribePeer(peer: string)
    | ReqTrack
    | ReqMixerAttach(sources: seq<string>)
    | ReqMixerDetach(sources: seq<string>)
    | ReqChannel(name: string, op: ChannelOp)

  datatype TransportState = New | Connecting | ConnectError | Connected | Reconnecting | Disconnected

  datatype Control =
    | Join(peer: string, mixer: Option<MixerMode>)
    | Leave
    | SubscribePeer(peer: string)
    | UnsubscribePeer(peer: string)
    | MixerAttach(sources: seq<string>)
    | MixerDetach(sources: seq<string>)
    | Channel(name: string, op: ChannelOp, from: Option<string>)
    | TrackControl

  datatype Lifecycle = Joined(room: string, peer: string) | Left(room: string, peer: string) | Transport(state: TransportState) | Reconnected | TrackEvent
  datatype Record = RecordJoin(room: string, peer: string) | RecordLeave | RecordDisconnected | RecordTrack

  datatype Reply = Ok | NotInRoom | WrongMixerMode

  datatype Output =
    | Event
    | PeerEvent(event: Lifecycle)
    | RecordEvent(record: Record)
    | RpcRes(reqId: nat, reply: Reply)
    | TrackRes(reqId: nat)
    | Cluster(room: nat, control: Control)

  /** What a track can emit. */
  predicate FromTrack(o: Output) {
    match o
    case Event => true
    case PeerEvent(event) => event.TrackEvent?
    case RecordEvent(record) => record.RecordTrack?
    case RpcRes(_, _) => false
    case TrackRes(_) => true
    case Cluster(_, control) => control.TrackControl?
  }

  datatype Config = Config(record: bool, hash: string -> nat)

  datatype InRoom = InRoom(hash: nat, room: string, peer: string, mixer: Option<MixerMode>)
  datatype WaitJoin = WaitJoin(reqId: nat, room: string, peer: string, mixer: Option<MixerMode>)

  /** The fields of an endpoint, with everything it has output so far. */
  datatype State = State(
    state: Option<TransportState>,
    waitJoin: Option<WaitJoin>,
    joined: Option<InRoom>,
    shutdown: bool,
    queue: seq<Output>)

  const INITIAL := State(None, None, None, false, [])

  function Emit(e: State, outs: seq<Output>): State {
    e.(queue := e.queue + outs)
  }

  function LeaveOutputs(c: Config, j: InRoom): seq<Output> {
    [Cluster(j.hash, Leave)] + (if c.record then [RecordEvent(RecordLeave)] else []) + [PeerEvent(Left(j.room, j.peer))]
  }

  function JoinOutputs(c: Config, j: InRoom): seq<Output> {
    [Cluster(j.hash, Join(j.peer, j.mixer))]
    + (if c.record then [RecordEvent(RecordJoin(j.room, j.peer))] else [])
    + [PeerEvent(Joined(j.room, j.peer))]
  }

  /** Drain the tracks, then leave; nothing if not in a room. */
  function LeaveRoom(c: Config, e: State, drained: seq<Output>): State {
    if e.joined.None? then e
    else Emit(e, drained + LeaveOutputs(c, e.joined.value)).(joined := None)
  }

  function JoinRoom(c: Config, e: State, w: WaitJoin, drained: seq<Output>): State {
    var j := InRoom(c.hash(w.room), w.room, w.peer, w.mixer);
    var e1 := LeaveRoom(c, Emit(e, [RpcRes(w.reqId, Ok)]), drained);
    Emit(e1, JoinOutputs(c, j)).(joined := Some(j))
  }

  /** The first shutdown drains the tracks and leaves the room; later ones do nothing. */
  function OnShutdown(c: Config, e: State, drained: seq<Output>): State {
    if e.shutdown then e
    else
      var e1 := Emit(e.(shutdown := true), drained);
      if e1.joined.None? then e1 else Emit(e1, LeaveOutputs(c, e1.joined.value)).(joined := None)
  }

  /** Answer, and pass the control on, if in a room; else answer with an error. */
  function InRoomOnly(e: State, reqId: nat, control: Control): State {
    if e.joined.None? then Emit(e, [RpcRes(reqId, NotInRoom)])
    else Emit(e, [RpcRes(reqId, Ok), Cluster(e.joined.value.hash, control)])
  }

  function OnRpc(c: Config, e: State, reqId: nat, req: Request, drained: seq<Output>): State {
    match req
    case ReqJoin(room, peer, mixer) =>
      if e.state.None? || e.state.value.Connecting? then e.(waitJoin := Some(WaitJoin(reqId, room, peer, mixer)))
      else JoinRoom(c, e, WaitJoin(reqId, room, peer, mixer), drained)
    case ReqLeave =>
      var e1 := Emit(e, [RpcRes(reqId, Ok)]);
      if e.waitJoin.Some? then e1.(waitJoin := None) else LeaveRoom(c, e1, drained)
    case ReqSubscribePeer(peer) => InRoomOnly(e, reqId, SubscribePeer(peer))
    case ReqUnsubscribePeer(peer) => InRoomOnly(e, reqId, UnsubscribePeer(peer))
    case ReqTrack => e
    case ReqMixerAttach(sources) =>
      if e.joined.Some? && e.joined.value.mixer == Some(Manual) then InRoomOnly(e, reqId, MixerAttach(sources))
      else Emit(e, [RpcRes(reqId, WrongMixerMode)])
    case ReqMixerDetach(sources) =>
      if e.joined.Some? && e.joined.value.mixer == Some(Manual) then InRoomOnly(e, reqId, MixerDetach(sources))
      else Emit(e, [RpcRes(reqId, WrongMixerMode)])
    case ReqChannel(name, op) =>
      InRoomOnly(e, reqId, Channel(name, op, if op.PublishData? && e.joined.Some? then Some(e.joined.value.peer) else None))
  }

  /** A connection result is reported only after some earlier state. */
  predicate StateExpected(e: State, next: TransportState) {
    next.Connected? || next.ConnectError? ==> e.state.Some?
  }

  function OnState(c: Config, e: State, next: TransportState, drained: seq<Output>): State
    requires StateExpected(e, next)
  {
    var e0 := e.(state := Some(next));
    if next.New? then e0
    else
      var e1 := Emit(e0, [PeerEvent(if next.Connected? && e.state.value.Reconnecting? then Reconnected else Transport(next))]);
      match next
      case ConnectError => OnShutdown(c, e1, drained)
      case Connected =>
        if e.waitJoin.None? then e1 else JoinRoom(c, e1.(waitJoin := None), e.waitJoin.value, drained)
      case Disconnected =>
        OnShutdown(c, if c.record then Emit(e1, [RecordEvent(RecordDisconnected)]) else e1, drained)
      case _ => e1
  }

  // ---------------------------------------------------------------- the endpoint as an object

  class EndpointInternal {
    const cfg: Config
    var state: Option<TransportState>
    var waitJoin: Option<WaitJoin>
    var joined: Option<InRoom>
    var shutdown: bool
    var queue: seq<Output>

    ghost function View(): State
      reads this
    {
      State(state, waitJoin, joined, shutdown, queue)
    }

    constructor (cfg: Config)
      ensures View() == INITIAL && this.cfg == cfg
    {
      this.cfg := cfg;
      state, waitJoin, joined, shutdown, queue := None, None, None, false, [];
    }

    method Drain(tracks: seq<Output>)
      modifies this`queue
      ensures queue == old(queue) + tracks
    {
      for i := 0 to |tracks|
        invariant queue == old(queue) + tracks[..i]
      {
        queue := queue + [tracks[i]];
      }
    }

    method PushLeave(j: InRoom)
      modifies this`queue
      ensures queue == old(queue) + LeaveOutputs(cfg, j)
    {
      queue := queue + [Cluster(j.hash, Leave)];
      if cfg.record {
        queue := queue + [RecordEvent(RecordLeave)];
      }
      queue := queue + [PeerEvent(Left(j.room, j.peer))];
    }

    method LeaveCurrent(tracks: seq<Output>)
      modifies this
      ensures View() == LeaveRoom(cfg, old(View()), tracks)
    {
      if joined.Some? {
        var j := joined.value;
        joined := None;
        Drain(tracks);
        PushLeave(j);
      }
    }

    method JoinNew(w: WaitJoin, tracks: seq<Output>)
      modifies this
      ensures View() == JoinRoom(cfg, old(View()), w, tracks)
    {
      var j := InRoom(cfg.hash(w.room), w.room, w.peer, w.mixer);
      queue := queue + [RpcRes(w.reqId, Ok)];
      LeaveCurrent(tracks);
      joined := Some(j);
      ghost var before := queue;
      queue := queue + [Cluster(j.hash, Join(j.peer, j.mixer))];
      if cfg.record {
        queue := queue + [RecordEvent(RecordJoin(j.room, j.peer))];
      }
      queue := queue + [PeerEvent(Joined(j.room, j.peer))];
      assert queue == before + JoinOutputs(cfg, j);
    }

    method Shutdown(tracks: seq<Output>)
      modifies this
      ensures View() == OnShutdown(cfg, old(View()), tracks)
    {
      if shutdown {
        return;
      }
      shutdown := true;
      Drain(tracks);
      if joined.Some? {
        var j := joined.value;
        joined := None;
        PushLeave(j);
      }
    }

    method Rpc(reqId: nat, req: Request, tracks: seq<Output>)
      modifies this
      ensures View() == OnRpc(cfg, old(View()), reqId, req, tracks)
    {
      match req {
        case ReqJoin(room, peer, mixer) =>
          if state.None? || state.value.Connecting? {
            waitJoin := Some(WaitJoin(reqId, room, peer, mixer));
          } else {
            JoinNew(WaitJoin(reqId, room, peer, mixer), tracks);
          }
        case ReqLeave =>
          queue := queue + [RpcRes(reqId, Ok)];
          if waitJoin.Some? {
            waitJoin := None;
          } else {
            LeaveCurrent(tracks);
          }
        case ReqSubscribePeer(peer) => Forward(reqId, SubscribePeer(peer));
        case ReqUnsubscribePeer(peer) => Forward(reqId, UnsubscribePeer(peer));
        case ReqTrack =>
        case ReqMixerAttach(sources) =>
          if joined.Some? && joined.value.mixer == Some(Manual) {
            Forward(reqId, MixerAttach(sources));
          } else {
            queue := queue + [RpcRes(reqId, WrongMixerMode)];
          }
        case ReqMixerDetach(sources) =>
          if joined.Some? && joined.value.mixer == Some(Manual) {
            Forward(reqId, MixerDetach(sources));
          } else {
            queue := queue + [RpcRes(reqId, WrongMixerMode)];
          }
        case ReqChannel(name, op) =>
          Forward(reqId, Channel(name, op, if op.PublishData? && joined.Some? then Some(joined.value.peer) else None));
      }
    }

    method Forward(reqId: nat, control: Control)
      modifies this`queue
      ensures View() == InRoomOnly(old(View()), reqId, control)
    {
      if joined.Some? {
        queue := queue + [RpcRes(reqId, Ok), Cluster(joined.value.hash, control)];
      } else {
        queue := queue + [RpcRes(reqId, NotInRoom)];
      }
    }

    method StateChanged(next: TransportState, tracks: seq<Output>)
      requires StateExpected(View(), next)
      modifies this
      ensures View() == OnState(cfg, old(View()), next, tracks)
    {
      var previous := state;
      state := Some(next);
      match next {
        case New =>
        case ConnectError =>
          queue := queue + [PeerEvent(Transport(ConnectError))];
          Shutdown(tracks);
        case Connected =>
          if previous.value.Reconnecting? {
            queue := queue + [PeerEvent(Reconnected)];
          } else {
            queue := queue + [PeerEvent(Transport(Connected))];
          }
          if waitJoin.Some? {
            var w := waitJoin.value;
            waitJoin := None;
            JoinNew(w, tracks);
          }
        case Disconnected =>
          queue := queue + [PeerEvent(Transport(Disconnected))];
          if cfg.record {
            queue := queue + [RecordEvent(RecordDisconnected)];
          }
          Shutdown(tracks);
        case Connecting => queue := queue + [PeerEvent(Transport(Connecting))];
        case Reconnecting => queue := queue + [PeerEvent(Transport(Reconnecting))];
      }
    }
  }
}
