/**
 The two ends of the connector protocol: the agent service that numbers, sends and re-sends requests
 (packages/media_connector/src/agent_service.rs) and the handler service that passes each request on
 once and sends replies back (packages/media_connector/src/handler_service.rs).

 Actors and nodes are handles and message bodies are opaque; a message that does not decode is `None`.
 */
module Connector {
  import opened Options
  import opened MsgQueue
  import Runs = MsgQueueRuns
  import Lru

  type Actor = nat
  type NodeId = nat
  type Body = string

  const MAX_INFLIGHT: nat := 1024
  const LRU_SIZE: nat := 10000

  /** A request on the wire; its body may be missing. */
  type Wire = Request<Option<Body>>

  datatype Response = Response(reqId: nat, body: Option<Body>)

  // ---------------------------------------------------------------- agent

  datatype AgentOut =
    | Listen
    | Stats(to: Actor, queue: nat, inflight: nat, acked: nat)
    | Answer(to: Actor, body: Body)
    | SendRequest(msg: Wire)

  datatype Agent = Agent(
    reqIdSeed: nat,
    reqData: map<nat, Actor>,
    subscriber: Option<Actor>,
    msgQueue: Queue<Option<Body>>,
    queue: seq<AgentOut>)

  const NEW_AGENT := Agent(0, map[], None, Queue([], map[], [], 0), [Listen])

  function OnRequest(a: Agent, owner: Actor, ts: nat, body: Body): Agent {
    a.(reqIdSeed := a.reqIdSeed + 1,
       reqData := a.reqData[a.reqIdSeed := owner],
       msgQueue := Push(a.msgQueue, Request(a.reqIdSeed, ts, Some(body))))
  }

  /** A response frees the request and goes to its owner; one for an unknown request is ignored. */
  function OnResponse(a: Agent, msg: Option<Response>): Agent {
    if msg.None? || msg.value.reqId !in a.reqData then a
    else
      var id := msg.value.reqId;
      var freed := a.(reqData := a.reqData - {id}, msgQueue := OnAck(a.msgQueue, id));
      if msg.value.body.None? then freed
      else freed.(queue := a.queue + [Answer(a.reqData[id], msg.value.body.value)])
  }

  function OnAgentTick(a: Agent): Agent {
    if a.subscriber.None? then a
    else
      var q := a.msgQueue;
      a.(queue := a.queue + [Stats(a.subscriber.value, |q.queue|, |q.inflight|, q.acked)])
  }

  /** Queued outputs first, then the send queue. */
  function AgentPop(a: Agent, now: nat): (Agent, Option<AgentOut>)
    requires ValidBuckets(a.msgQueue.inflightTs)
  {
    if a.queue != [] then (a.(queue := a.queue[1..]), Some(a.queue[0]))
    else
      var (q, m) := Pop(MAX_INFLIGHT, a.msgQueue, now);
      (a.(msgQueue := q), if m.None? then None else Some(SendRequest(m.value)))
  }

  class ConnectorAgentService {
    var reqIdSeed: nat
    var reqData: map<nat, Actor>
    var subscriber: Option<Actor>
    const msgQueue: MessageQueue<Option<Body>>
    var queue: seq<AgentOut>

    ghost function View(): Agent
      reads this, msgQueue
    {
      Agent(reqIdSeed, reqData, subscriber, msgQueue.View(), queue)
    }

    ghost predicate Valid()
      reads this, msgQueue
    {
      msgQueue.Valid() && msgQueue.maxInflight == MAX_INFLIGHT
    }

    constructor ()
      ensures Valid() && View() == NEW_AGENT && fresh(msgQueue)
    {
      reqIdSeed, reqData, subscriber, queue := 0, map[], None, [Listen];
      msgQueue := new MessageQueue(MAX_INFLIGHT);
    }

    method ControlSub(owner: Actor)
      requires Valid()
      modifies this
      ensures Valid() && View() == old(View()).(subscriber := Some(owner))
    {
      subscriber := Some(owner);
    }

    method ControlRequest(owner: Actor, ts: nat, body: Body)
      requires Valid()
      modifies this, msgQueue
      ensures Valid() && View() == OnRequest(old(View()), owner, ts, body)
    {
      var reqId := reqIdSeed;
      reqIdSeed := reqIdSeed + 1;
      reqData := reqData[reqId := owner];
      msgQueue.PushBack(Request(reqId, ts, Some(body)));
    }

    method DataRecv(msg: Option<Response>)
      requires Valid()
      modifies this, msgQueue
      ensures Valid() && View() == OnResponse(old(View()), msg)
    {
      if msg.Some? && msg.value.reqId in reqData {
        var actor := reqData[msg.value.reqId];
        reqData := reqData - {msg.value.reqId};
        msgQueue.Ack(msg.value.reqId);
        if msg.value.body.Some? {
          queue := queue + [Answer(actor, msg.value.body.value)];
        }
      }
    }

    method Tick()
      requires Valid()
      modifies this
      ensures Valid() && View() == OnAgentTick(old(View()))
    {
      if subscriber.Some? {
        queue := queue + [Stats(subscriber.value, |msgQueue.queue|, |msgQueue.inflight|, msgQueue.acked)];
      }
    }

    method PopOutput(now: nat) returns (r: Option<AgentOut>)
      requires Valid()
      modifies this, msgQueue
      ensures Valid() && (View(), r) == AgentPop(old(View()), now)
    {
      if queue != [] {
        r := Some(queue[0]);
        queue := queue[1..];
      } else {
        var m := msgQueue.PopNext(now);
        if m.None? {
          return None;
        }
        return Some(SendRequest(m.value));
      }
    }
  }

  // ---------------------------------------------------------------- handler

  /** What identifies a request to the duplicate filter. */
  datatype Key = Key(source: NodeId, ts: nat, reqId: nat)

  datatype HandlerOut =
    | HandlerListen
    | Deliver(to: Actor, key: Key, body: Body)
    | SendReply(node: NodeId, msg: Response)

  datatype Handler = Handler(lru: seq<Key>, subscriber: Option<Actor>, queue: seq<HandlerOut>)

  const NEW_HANDLER := Handler([], None, [HandlerListen])

  function OnReply(h: Handler, source: NodeId, reqId: nat, body: Body): Handler {
    h.(queue := h.queue + [SendReply(source, Response(reqId, Some(body)))])
  }

  /** A request with a source is remembered; unless it is a duplicate it goes to the subscriber, if there is one. */
  function OnWire(h: Handler, source: Option<NodeId>, msg: Option<Wire>): Handler {
    if msg.None? || source.None? then h
    else
      var key := Key(source.value, msg.value.ts, msg.value.reqId);
      var seen := h.(lru := Lru.Put(LRU_SIZE, h.lru, key));
      if key !in h.lru && msg.value.payload.Some? && h.subscriber.Some? then
        seen.(queue := h.queue + [Deliver(h.subscriber.value, key, msg.value.payload.value)])
      else seen
  }

  class ConnectorHandlerService {
    var lru: seq<Key>
    var subscriber: Option<Actor>
    var queue: seq<HandlerOut>

    ghost function View(): Handler
      reads this
    {
      Handler(lru, subscriber, queue)
    }

    constructor ()
      ensures View() == NEW_HANDLER
    {
      lru, subscriber, queue := [], None, [HandlerListen];
    }

    method ControlSub(owner: Actor)
      modifies this
      ensures View() == old(View()).(subscriber := Some(owner))
    {
      subscriber := Some(owner);
    }

    method ControlRes(source: NodeId, reqId: nat, body: Body)
      modifies this
      ensures View() == OnReply(old(View()), source, reqId, body)
    {
      queue := queue + [SendReply(source, Response(reqId, Some(body)))];
    }

    method DataRecv(source: Option<NodeId>, msg: Option<Wire>)
      modifies this
      ensures View() == OnWire(old(View()), source, msg)
    {
      if msg.Some? {
        if source.Some? {
          var key := Key(source.value, msg.value.ts, msg.value.reqId);
          var duplicate := key in lru;
          lru := Lru.Put(LRU_SIZE, lru, key);
          if duplicate {
            return;
          }
          if msg.value.payload.Some? {
            if subscriber.Some? {
              queue := queue + [Deliver(subscriber.value, key, msg.value.payload.value)];
            }
          }
        }
      }
    }

    method PopOutput() returns (r: Option<HandlerOut>)
      modifies this
      ensures if old(queue) == [] then r == None && View() == old(View())
              else r == Some(old(queue)[0]) && View() == old(View()).(queue := old(queue)[1..])
    {
      if queue == [] {
        return None;
      }
      r := Some(queue[0]);
      queue := queue[1..];
    }
  }

  // ---------------------------------------------------------------- a response nobody should have sent

  /**
   After a response the request is gone from the send queue exactly when it was not still waiting
   there: an answer that arrives before the request was ever sent leaves it to be sent later.
   */
  lemma AnswerClearsIff(a: Agent, log: Runs.Log<Option<Body>>, msg: Response)
    requires Runs.Tracked(MAX_INFLIGHT, a.msgQueue, log) && msg.reqId in a.reqData
    ensures var q := OnResponse(a, Some(msg)).msgQueue;
      && msg.reqId !in OnResponse(a, Some(msg)).reqData
      && (msg.reqId !in q.inflight && msg.reqId !in Runs.Ids(q.queue) <==> msg.reqId !in Runs.Ids(a.msgQueue.queue))
  {
  }
}
