/**
 Safety of the connector protocol: one agent at node `ME`, the handler, and a network that may lose,
 duplicate, delay and reorder everything, in any interleaving with traffic from other nodes.

 The network is the set of all messages ever sent; any of them may be delivered any number of times.
 The application behind the handler replies only to requests it was given, as often as it likes.
 */
module ConnectorSafety {
  import opened Options
  import opened MsgQueue
  import opened MsgQueueRuns
  import opened Connector
  import opened Sequences
  import Lru

  const ME: NodeId := 1

  /**
   The two services and the network, with what an observer has noted so far: the log of the send
   queue, the keys of all requests that arrived, the requests handed to the subscriber and the ids
   whose answer was handed to their owner.
   */
  datatype System = System(
    agent: Agent,
    handler: Handler,
    requests: set<Wire>,
    replies: set<Response>,
    log: Log<Option<Body>>,
    arrivals: seq<Key>,
    delivered: seq<Key>,
    answered: seq<nat>)

  datatype Step =
    | Ask(owner: Actor, ts: nat, body: Body)
    | AgentSub(owner: Actor)
    | AgentTick
    | AgentOutput(now: nat)
    | AgentRecv(response: Option<Response>)
    | HandlerSub(owner: Actor)
    | HandlerRecv(source: Option<NodeId>, wire: Option<Wire>)
    | HandlerOutput
    | AppReply(node: NodeId, reqId: nat, body: Body)

  const START := System(NEW_AGENT, NEW_HANDLER, {}, {}, Log([], map[], {}), [], [], [])

  /** The network delivers only what was sent, and the application replies to this agent only what it was asked. */
  ghost predicate Legal(s: System, step: Step) {
    match step
    case AgentRecv(response) => response.Some? ==> response.value in s.replies
    case HandlerRecv(source, wire) => source == Some(ME) && wire.Some? ==> wire.value in s.requests
    case AppReply(node, reqId, _) => node == ME ==> exists k :: k in s.delivered && k.source == ME && k.reqId == reqId
    case _ => true
  }

  function Next(s: System, step: Step): System
    requires ValidBuckets(s.agent.msgQueue.inflightTs)
  {
    match step
    case Ask(owner, ts, body) =>
      s.(agent := OnRequest(s.agent, owner, ts, body),
         log := Observe(s.log, Pushed(Request(s.agent.reqIdSeed, ts, Some(body))), None))
    case AgentSub(owner) => s.(agent := s.agent.(subscriber := Some(owner)))
    case AgentTick => s.(agent := OnAgentTick(s.agent))
    case AgentOutput(now) =>
      var (agent, out) := AgentPop(s.agent, now);
      if s.agent.queue != [] then s.(agent := agent)
      else if out.None? then s.(agent := agent)
      else s.(agent := agent, requests := s.requests + {out.value.msg}, log := Observe(s.log, Popped(now), Some(out.value.msg)))
    case AgentRecv(response) =>
      if response.None? || response.value.reqId !in s.agent.reqData then s.(agent := OnResponse(s.agent, response))
      else
        s.(agent := OnResponse(s.agent, response),
           log := Observe(s.log, Acked(response.value.reqId), None),
           answered := if response.value.body.Some? then s.answered + [response.value.reqId] else s.answered)
    case HandlerSub(owner) => s.(handler := s.handler.(subscriber := Some(owner)))
    case HandlerRecv(source, wire) =>
      if source.None? || wire.None? then s.(handler := OnWire(s.handler, source, wire))
      else
        var key := Key(source.value, wire.value.ts, wire.value.reqId);
        s.(handler := OnWire(s.handler, source, wire),
           arrivals := s.arrivals + [key],
           delivered := if |OnWire(s.handler, source, wire).queue| > |s.handler.queue| then s.delivered + [key] else s.delivered)
    case HandlerOutput =>
      if s.handler.queue == [] then s
      else
        var out := s.handler.queue[0];
        s.(handler := s.handler.(queue := s.handler.queue[1..]),
           replies := if out.SendReply? && out.node == ME then s.replies + {out.msg} else s.replies)
    case AppReply(node, reqId, body) => s.(handler := OnReply(s.handler, node, reqId, body))
  }

  // ---------------------------------------------------------------- the invariant

  /** The owners kept are those of the requests asked and not yet answered. */
  ghost predicate Responsible(reqData: map<nat, Actor>, seed: nat, asked: set<nat>, acked: set<nat>) {
    && (forall id :: id in asked ==> id < seed)
    && (forall id :: id in reqData <==> id in asked && id !in acked)
  }

  ghost predicate Owned(s: System) {
    && Tracked(MAX_INFLIGHT, s.agent.msgQueue, s.log)
    && Responsible(s.agent.reqData, s.agent.reqIdSeed, Ids(s.log.pushed), s.log.acked)
  }

  /** Whatever is under way for an id of this agent proves that the id was sent. */
  ghost predicate OnlySent(s: System) {
    && (forall m :: m in s.requests ==> m.reqId in s.log.sent)
    && (forall k :: k in s.delivered && k.source == ME ==> k.reqId in s.log.sent)
    && (forall o :: o in s.handler.queue && o.SendReply? && o.node == ME ==> o.msg.reqId in s.log.sent)
    && (forall r :: r in s.replies ==> r.reqId in s.log.sent)
  }

  ghost predicate AnsweredOnce(s: System) {
    && (forall id :: id in s.answered ==> id in s.log.acked)
    && NoRepeat(s.answered)
  }

  ghost function Count(keys: seq<Key>, k: Key): nat {
    if keys == [] then 0 else Count(keys[..|keys| - 1], k) + if keys[|keys| - 1] == k then 1 else 0
  }

  ghost predicate Filtered(s: System) {
    && s.handler.lru == Lru.Cache(LRU_SIZE, s.arrivals)
    && forall k :: Count(s.delivered, k) <= Lru.Misses(LRU_SIZE, s.arrivals, k)
  }

  /** What holds besides `Owned`. */
  ghost predicate Consistent(s: System) {
    OnlySent(s) && AnsweredOnce(s) && Filtered(s)
  }

  // ---------------------------------------------------------------- steps keep it

  lemma AskOwned(s: System, owner: Actor, ts: nat, body: Body)
    requires Owned(s)
    ensures Owned(Next(s, Ask(owner, ts, body)))
  {
    var m := Request(s.agent.reqIdSeed, ts, Some(body));
    PushTracked(MAX_INFLIGHT, s.agent.msgQueue, s.log, m);
    IdsPush(s.log.pushed, m);
  }

  lemma IdsPush<P>(pushed: seq<Request<P>>, m: Request<P>)
    ensures forall id :: id in Ids(pushed + [m]) <==> id in Ids(pushed) || id == m.reqId
  {
    var all := pushed + [m];
    forall id | id in Ids(pushed) ensures id in Ids(all) {
      var i :| 0 <= i < |pushed| && pushed[i].reqId == id;
      assert all[i].reqId == id;
    }
    assert all[|pushed|].reqId == m.reqId;
  }

  lemma SentArePushed(s: System)
    requires Owned(s)
    ensures forall id :: id in s.log.sent ==> id in Ids(s.log.pushed)
  {
    var k := |s.log.sent|;
    forall id | id in s.log.sent ensures id in Ids(s.log.pushed) {
      var i :| 0 <= i < k && s.log.pushed[..k][i].reqId == id;
      assert s.log.pushed[i].reqId == id;
    }
  }

  /** What the agent sends was asked for and is not answered. */
  lemma SendsUnanswered(s: System, now: nat)
    requires Owned(s) && s.agent.queue == []
    ensures var (agent, out) := AgentPop(s.agent, now);
      out.Some? ==> out.value.SendRequest? && out.value.msg.reqId !in s.log.acked
  {
    PopSchedules(MAX_INFLIGHT, s.agent.msgQueue, s.log, now);
    var out := Pop(MAX_INFLIGHT, s.agent.msgQueue, now).1;
    if out.Some? && !SomeDue(s.agent.msgQueue, s.log, now) {
      OnlyAt(s.log.pushed, |s.log.sent|, |s.log.sent|);
    }
  }

  lemma OutputTracked(s: System, now: nat)
    requires Tracked(MAX_INFLIGHT, s.agent.msgQueue, s.log)
    ensures Tracked(MAX_INFLIGHT, Next(s, AgentOutput(now)).agent.msgQueue, Next(s, AgentOutput(now)).log)
  {
    OutputShape(s, now);
    if s.agent.queue == [] {
      PopTracked(MAX_INFLIGHT, s.agent.msgQueue, s.log, now);
    }
  }

  lemma OutputShape(s: System, now: nat)
    requires ValidBuckets(s.agent.msgQueue.inflightTs)
    ensures var s' := Next(s, AgentOutput(now));
      if s.agent.queue != [] then s'.agent.msgQueue == s.agent.msgQueue && s'.log == s.log
      else
        var (q, out) := Pop(MAX_INFLIGHT, s.agent.msgQueue, now);
        s'.agent.msgQueue == q && s'.log == Observe(s.log, Popped(now), out)
  {
  }

  lemma OutputSame(s: System, now: nat)
    requires ValidBuckets(s.agent.msgQueue.inflightTs)
    ensures var s' := Next(s, AgentOutput(now));
      && s'.agent.reqData == s.agent.reqData && s'.agent.reqIdSeed == s.agent.reqIdSeed
      && s'.log.pushed == s.log.pushed && s'.log.acked == s.log.acked
  {
  }

  lemma OutputOwned(s: System, now: nat)
    requires Owned(s)
    ensures Owned(Next(s, AgentOutput(now)))
  {
    OutputTracked(s, now);
    OutputSame(s, now);
  }

  /** Sending one more request, again or for the first time. */
  lemma SentGrows(s: System, s': System, m: Wire, now: nat)
    requires Consistent(s)
    requires s' == s.(agent := s'.agent, requests := s.requests + {m}, log := s.log.(sent := s.log.sent[m.reqId := now]))
    ensures Consistent(s')
  {
  }

  lemma OutputConsistent(s: System, now: nat)
    requires ValidBuckets(s.agent.msgQueue.inflightTs) && Consistent(s)
    ensures Consistent(Next(s, AgentOutput(now)))
  {
    if s.agent.queue == [] {
      var m := Pop(MAX_INFLIGHT, s.agent.msgQueue, now).1;
      if m.Some? {
        SentGrows(s, Next(s, AgentOutput(now)), m.value, now);
      }
    }
  }

  lemma RecvTracked(s: System, response: Response)
    requires Tracked(MAX_INFLIGHT, s.agent.msgQueue, s.log) && response.reqId in s.agent.reqData
    ensures var s' := Next(s, AgentRecv(Some(response)));
      Tracked(MAX_INFLIGHT, s'.agent.msgQueue, s'.log)
  {
    RecvShape(s, response);
    AckTracked(MAX_INFLIGHT, s.agent.msgQueue, s.log, response.reqId);
  }

  lemma RecvShape(s: System, response: Response)
    requires ValidBuckets(s.agent.msgQueue.inflightTs) && response.reqId in s.agent.reqData
    ensures var s' := Next(s, AgentRecv(Some(response)));
      && s'.agent.msgQueue == OnAck(s.agent.msgQueue, response.reqId)
      && s'.log == Observe(s.log, Acked(response.reqId), None)
  {
  }

  lemma RecvResponsible(s: System, response: Response)
    requires ValidBuckets(s.agent.msgQueue.inflightTs)
    requires Responsible(s.agent.reqData, s.agent.reqIdSeed, Ids(s.log.pushed), s.log.acked)
    requires response.reqId in s.agent.reqData && response.reqId in s.log.sent
    ensures var s' := Next(s, AgentRecv(Some(response)));
      Responsible(s'.agent.reqData, s'.agent.reqIdSeed, Ids(s'.log.pushed), s'.log.acked)
  {
  }

  lemma RecvOwned(s: System, response: Response)
    requires Owned(s) && response.reqId in s.agent.reqData && response.reqId in s.log.sent
    ensures Owned(Next(s, AgentRecv(Some(response))))
  {
    RecvTracked(s, response);
    RecvResponsible(s, response);
  }

  /** One more answer, to an id never answered before. */
  lemma AnsweredGrows(s: System, s': System, response: Response)
    requires Consistent(s) && response.reqId !in s.log.acked
    requires s' == s.(agent := s'.agent, log := s.log.(acked := s.log.acked + {response.reqId}), answered := s'.answered)
    requires s'.answered == if response.body.Some? then s.answered + [response.reqId] else s.answered
    ensures Consistent(s')
  {
    NoRepeatAppend(s.answered, response.reqId);
  }

  lemma RecvConsistent(s: System, response: Option<Response>)
    requires ValidBuckets(s.agent.msgQueue.inflightTs) && Consistent(s) && Legal(s, AgentRecv(response))
    requires Responsible(s.agent.reqData, s.agent.reqIdSeed, Ids(s.log.pushed), s.log.acked)
    ensures Consistent(Next(s, AgentRecv(response)))
  {
    if response.Some? && response.value.reqId in s.agent.reqData {
      AnsweredGrows(s, Next(s, AgentRecv(response)), response.value);
    }
  }

  lemma CountPush(keys: seq<Key>, key: Key, k: Key)
    ensures Count(keys + [key], k) == Count(keys, k) + if key == k then 1 else 0
  {
    assert (keys + [key])[..|keys|] == keys;
  }

  lemma ArriveFiltered(s: System, source: NodeId, wire: Wire)
    requires Filtered(s)
    ensures Filtered(Next'(s, source, wire))
  {
    var key := Key(source, wire.ts, wire.reqId);
    var s' := Next'(s, source, wire);
    assert s'.arrivals[..|s.arrivals|] == s.arrivals;
    forall k ensures Count(s'.delivered, k) <= Lru.Misses(LRU_SIZE, s'.arrivals, k) {
      CountPush(s.delivered, key, k);
    }
  }

  /** The arrival of a request that decodes and has a source. */
  ghost function Next'(s: System, source: NodeId, wire: Wire): System {
    var h := OnWire(s.handler, Some(source), Some(wire));
    var key := Key(source, wire.ts, wire.reqId);
    s.(handler := h,
       arrivals := s.arrivals + [key],
       delivered := if |h.queue| > |s.handler.queue| then s.delivered + [key] else s.delivered)
  }

  lemma WireConsistent(s: System, source: NodeId, wire: Wire)
    requires Consistent(s) && (source == ME ==> wire in s.requests)
    ensures Consistent(Next'(s, source, wire))
  {
    ArriveFiltered(s, source, wire);
  }

  lemma HandlerConsistent(s: System, step: Step)
    requires ValidBuckets(s.agent.msgQueue.inflightTs) && Consistent(s) && Legal(s, step)
    requires step.HandlerSub? || step.HandlerRecv? || step.HandlerOutput? || step.AppReply?
    ensures Consistent(Next(s, step))
  {
    match step
    case HandlerSub(_) =>
    case HandlerRecv(source, wire) =>
      if source.Some? && wire.Some? {
        WireConsistent(s, source.value, wire.value);
        assert Next(s, step) == Next'(s, source.value, wire.value);
      }
    case HandlerOutput =>
      assert s.handler.queue != [] ==> s.handler.queue[0] in s.handler.queue;
    case AppReply(_, _, _) =>
  }

  lemma NextConsistent(s: System, step: Step)
    requires ValidBuckets(s.agent.msgQueue.inflightTs) && Consistent(s) && Legal(s, step)
    requires Responsible(s.agent.reqData, s.agent.reqIdSeed, Ids(s.log.pushed), s.log.acked)
    ensures Consistent(Next(s, step))
  {
    match step
    case Ask(_, _, _) =>
    case AgentSub(_) =>
    case AgentTick =>
    case AgentOutput(now) => OutputConsistent(s, now);
    case AgentRecv(response) => RecvConsistent(s, response);
    case _ => HandlerConsistent(s, step);
  }

  lemma NextOwned(s: System, step: Step)
    requires Owned(s) && OnlySent(s) && Legal(s, step)
    ensures Owned(Next(s, step))
  {
    match step
    case Ask(owner, ts, body) => AskOwned(s, owner, ts, body);
    case AgentOutput(now) => OutputOwned(s, now);
    case AgentRecv(response) =>
      if response.Some? && response.value.reqId in s.agent.reqData {
        RecvOwned(s, response.value);
      }
    case _ =>
  }

  // ---------------------------------------------------------------- every run

  lemma NextValid(s: System, step: Step)
    requires ValidBuckets(s.agent.msgQueue.inflightTs)
    ensures ValidBuckets(Next(s, step).agent.msgQueue.inflightTs)
  {
    if step.AgentOutput? {
      StepValid(MAX_INFLIGHT, s.agent.msgQueue, Popped(step.now));
    }
  }

  /** The state after a run. */
  function After(steps: seq<Step>): (s: System)
    ensures ValidBuckets(s.agent.msgQueue.inflightTs)
  {
    if steps == [] then START
    else
      var n := |steps| - 1;
      NextValid(After(steps[..n]), steps[n]);
      Next(After(steps[..n]), steps[n])
  }

  ghost predicate LegalRun(steps: seq<Step>) {
    forall i: nat :: i < |steps| ==> LegalAt(steps, i)
  }

  ghost predicate LegalAt(steps: seq<Step>, i: nat)
    requires i < |steps|
  {
    Legal(After(steps[..i]), steps[i])
  }

  lemma LegalPrefix(steps: seq<Step>, n: nat)
    requires LegalRun(steps) && n <= |steps|
    ensures LegalRun(steps[..n])
  {
    forall i: nat | i < n
      ensures LegalAt(steps[..n], i)
    {
      assert LegalAt(steps, i);
      assert steps[..n][..i] == steps[..i];
    }
  }

  lemma {:induction false} RunSafe(steps: seq<Step>)
    requires LegalRun(steps)
    ensures Owned(After(steps)) && Consistent(After(steps))
  {
    if steps == [] {
      StartSafe();
    } else {
      var n := |steps| - 1;
      LegalPrefix(steps, n);
      assert LegalAt(steps, n);
      RunSafe(steps[..n]);
      NextOwned(After(steps[..n]), steps[n]);
      NextConsistent(After(steps[..n]), steps[n]);
    }
  }

  lemma StartSafe()
    ensures Owned(START) && Consistent(START)
  {
    assert START.log.sent.Keys == Ids(START.log.pushed[..0]);
  }

  /** In every run the agent owns exactly the requests that wait or are in flight. */
  lemma OwnedAreQueued(steps: seq<Step>, id: nat)
    requires LegalRun(steps)
    ensures var a := After(steps).agent;
      && (id in a.reqData <==> id in Ids(a.msgQueue.queue) || id in a.msgQueue.inflight)
      && !(id in Ids(a.msgQueue.queue) && id in a.msgQueue.inflight)
  {
    RunSafe(steps);
    var s := After(steps);
    var pushed, k := s.log.pushed, |s.log.sent|;
    SentArePushed(s);
    if id in Ids(pushed) {
      var i :| 0 <= i < |pushed| && pushed[i].reqId == id;
      Partition(MAX_INFLIGHT, s.agent.msgQueue, s.log, i);
      OnlyAt(pushed, k, i);
      WaitingIds(pushed, k, i);
    } else {
      assert forall j :: 0 <= j < |pushed[k..]| ==> pushed[k..][j] == pushed[k + j];
    }
  }

  lemma WaitingIds<P>(pushed: seq<Request<P>>, k: nat, i: nat)
    requires DistinctIds(pushed) && k <= |pushed| && i < |pushed|
    ensures pushed[i].reqId in Ids(pushed[k..]) <==> i >= k
  {
    var rest := pushed[k..];
    if i >= k {
      assert rest[i - k].reqId == pushed[i].reqId;
    } else if pushed[i].reqId in Ids(rest) {
      var j :| 0 <= j < |rest| && rest[j].reqId == pushed[i].reqId;
      DistinctPair(pushed, i, k + j);
    }
  }

  /** In every run no request is answered twice, and none is sent after its answer. */
  lemma AnsweredOnceNeverResent(steps: seq<Step>, now: nat)
    requires LegalRun(steps)
    ensures var s := After(steps);
      && (forall i, j :: 0 <= i < j < |s.answered| ==> s.answered[i] != s.answered[j])
      && (var out := AgentPop(s.agent, now).1;
          s.agent.queue == [] && out.Some? ==> out.value.SendRequest? && out.value.msg.reqId !in s.answered)
  {
    RunSafe(steps);
    var s := After(steps);
    forall i, j | 0 <= i < j < |s.answered| ensures s.answered[i] != s.answered[j] {
      NoRepeatPair(s.answered, i, j);
    }
    if s.agent.queue == [] {
      SendsUnanswered(s, now);
    }
  }

  /**
   In every run a request reaches the subscriber at most once, as long as fewer than 10000 distinct
   other requests arrive between its consecutive arrivals.
   */
  lemma DeliveredAtMostOnce(steps: seq<Step>, k: Key)
    requires LegalRun(steps)
    requires Lru.Spaced(LRU_SIZE, After(steps).arrivals, k)
    ensures Count(After(steps).delivered, k) <= 1
  {
    RunSafe(steps);
    Lru.AtMostOneMissIff(LRU_SIZE, After(steps).arrivals, k);
  }

  /** Without that spacing it is not so: a key pushed out of the cache is delivered again. */
  lemma EvictedIsDeliveredAgain(h: Handler, arrivals: seq<Key>, source: NodeId, wire: Wire)
    requires h.lru == Lru.Cache(LRU_SIZE, arrivals) && h.subscriber.Some? && wire.payload.Some?
    ensures var key := Key(source, wire.ts, wire.reqId);
      (OnWire(h, Some(source), Some(wire)).queue == h.queue + [Deliver(h.subscriber.value, key, wire.payload.value)])
      <==> !(Lru.Since(arrivals, key).Some? && |Lru.Since(arrivals, key).value| < LRU_SIZE)
  {
    Lru.HitIff(LRU_SIZE, arrivals, Key(source, wire.ts, wire.reqId));
  }

  /** Every request that arrives has a body and finds a subscriber. */
  ghost predicate Attended(steps: seq<Step>) {
    forall i: nat :: i < |steps| ==> AttendedAt(steps, i)
  }

  predicate AttendedAt(steps: seq<Step>, i: nat)
    requires i < |steps|
  {
    steps[i].HandlerRecv? && steps[i].source.Some? && steps[i].wire.Some? ==>
      After(steps[..i]).handler.subscriber.Some? && steps[i].wire.value.payload.Some?
  }

  /** Such an arrival is delivered exactly if its key is not cached. */
  lemma ArriveCounts(s: System, source: NodeId, wire: Wire, k: Key)
    requires s.handler.subscriber.Some? && wire.payload.Some? && s.handler.lru == Lru.Cache(LRU_SIZE, s.arrivals)
    requires Count(s.delivered, k) == Lru.Misses(LRU_SIZE, s.arrivals, k)
    ensures var s' := Next'(s, source, wire);
      Count(s'.delivered, k) == Lru.Misses(LRU_SIZE, s'.arrivals, k) && s'.handler.lru == Lru.Cache(LRU_SIZE, s'.arrivals)
  {
    var key := Key(source, wire.ts, wire.reqId);
    var s' := Next'(s, source, wire);
    assert s'.arrivals[..|s.arrivals|] == s.arrivals;
    CountPush(s.delivered, key, k);
  }

  lemma OtherSame(s: System, step: Step)
    requires ValidBuckets(s.agent.msgQueue.inflightTs)
    requires !(step.HandlerRecv? && step.source.Some? && step.wire.Some?)
    ensures var s' := Next(s, step);
      s'.delivered == s.delivered && s'.arrivals == s.arrivals && s'.handler.lru == s.handler.lru
  {
  }

  /** One step of such a run. */
  lemma MissesStep(s: System, step: Step, k: Key)
    requires ValidBuckets(s.agent.msgQueue.inflightTs) && s.handler.lru == Lru.Cache(LRU_SIZE, s.arrivals)
    requires Count(s.delivered, k) == Lru.Misses(LRU_SIZE, s.arrivals, k)
    requires step.HandlerRecv? && step.source.Some? && step.wire.Some? ==>
               s.handler.subscriber.Some? && step.wire.value.payload.Some?
    ensures var s' := Next(s, step);
      && s'.handler.lru == Lru.Cache(LRU_SIZE, s'.arrivals)
      && Count(s'.delivered, k) == Lru.Misses(LRU_SIZE, s'.arrivals, k)
  {
    if step.HandlerRecv? && step.source.Some? && step.wire.Some? {
      ArriveCounts(s, step.source.value, step.wire.value, k);
      assert Next(s, step) == Next'(s, step.source.value, step.wire.value);
    } else {
      OtherSame(s, step);
    }
  }

  lemma {:induction false} DeliveredAreMisses(steps: seq<Step>, k: Key)
    requires Attended(steps)
    ensures var s := After(steps);
      && s.handler.lru == Lru.Cache(LRU_SIZE, s.arrivals)
      && Count(s.delivered, k) == Lru.Misses(LRU_SIZE, s.arrivals, k)
  {
    if steps != [] {
      var n := |steps| - 1;
      var init, step := steps[..n], steps[n];
      AttendedPrefix(steps, n);
      assert AttendedAt(steps, n);
      DeliveredAreMisses(init, k);
      MissesStep(After(init), step, k);
    }
  }

  lemma AttendedPrefix(steps: seq<Step>, n: nat)
    requires Attended(steps) && n <= |steps|
    ensures Attended(steps[..n])
  {
    forall i: nat | i < n
      ensures AttendedAt(steps[..n], i)
    {
      assert AttendedAt(steps, i);
      assert steps[..n][..i] == steps[..i];
    }
  }

  /**
   In every run in which requests have bodies and find a subscriber, a request reaches the subscriber at
   most once if and only if fewer than 10000 distinct other requests arrive between its consecutive
   arrivals.
   */
  lemma DeliveredOnceIff(steps: seq<Step>, k: Key)
    requires Attended(steps)
    ensures Count(After(steps).delivered, k) <= 1 <==> Lru.Spaced(LRU_SIZE, After(steps).arrivals, k)
  {
    DeliveredAreMisses(steps, k);
    Lru.AtMostOneMissIff(LRU_SIZE, After(steps).arrivals, k);
  }

  // ---------------------------------------------------------------- a run that delivers a request twice

  const OTHER: NodeId := 2

  function Arrival(id: nat): Step {
    HandlerRecv(Some(OTHER), Some(Request(id, 0, Some("join"))))
  }

  /** A subscriber, then the requests `0, ..., n - 1` of another node. */
  function Flood(n: nat): (steps: seq<Step>)
    ensures |steps| == n + 1
  {
    if n == 0 then [HandlerSub(0)] else Flood(n - 1) + [Arrival(n - 1)]
  }

  function KeyOf(id: nat): Key {
    Key(OTHER, 0, id)
  }

  lemma FloodStep(n: nat)
    requires n > 0
    ensures var before, after := After(Flood(n - 1)), After(Flood(n));
      after.arrivals == before.arrivals + [KeyOf(n - 1)] && after.handler.subscriber == before.handler.subscriber
  {
    OneStep(Flood(n - 1), n - 1, Flood(n));
  }

  lemma OneStep(steps: seq<Step>, id: nat, longer: seq<Step>)
    requires longer == steps + [Arrival(id)]
    ensures var before, after := After(steps), After(longer);
      after.arrivals == before.arrivals + [KeyOf(id)] && after.handler.subscriber == before.handler.subscriber
  {
    assert longer[..|steps|] == steps;
    OneArrival(After(steps), id);
  }

  lemma FloodStarts()
    ensures After(Flood(0)).handler.subscriber.Some? && After(Flood(0)).arrivals == []
  {
    assert Flood(0)[..0] == [];
    assert After([]) == START;
  }

  lemma OneArrival(s: System, id: nat)
    requires ValidBuckets(s.agent.msgQueue.inflightTs)
    ensures var s' := Next(s, Arrival(id));
      s'.arrivals == s.arrivals + [KeyOf(id)] && s'.handler.subscriber == s.handler.subscriber
  {
  }

  lemma {:induction false} FloodSubscribed(n: nat)
    ensures After(Flood(n)).handler.subscriber.Some?
  {
    if n == 0 {
      FloodStarts();
    } else {
      FloodSubscribed(n - 1);
      FloodStep(n);
    }
  }

  /** The whole run: the flood, and the first request once more. */
  function Twice(): (steps: seq<Step>)
    ensures |steps| == LRU_SIZE + 3
  {
    Flood(LRU_SIZE + 1) + [Arrival(0)]
  }

  lemma {:induction false} FloodAttended(n: nat)
    ensures Attended(Flood(n)) && LegalRun(Flood(n))
  {
    if n == 0 {
      Subscribed(Flood(0));
    } else {
      FloodAttended(n - 1);
      FloodSubscribed(n - 1);
      OneMoreStep(Flood(n - 1), Arrival(n - 1), Flood(n));
    }
  }

  lemma Subscribed(steps: seq<Step>)
    requires steps == [HandlerSub(0)]
    ensures Attended(steps) && LegalRun(steps)
  {
    forall i: nat | i < 1
      ensures AttendedAt(steps, i) && LegalAt(steps, i)
    {
      assert steps[i] == HandlerSub(0);
    }
  }

  lemma OneMoreStep(steps: seq<Step>, step: Step, longer: seq<Step>)
    requires longer == steps + [step] && Attended(steps) && LegalRun(steps)
    requires step.HandlerRecv? && step.source == Some(OTHER) && step.wire.Some? && step.wire.value.payload.Some?
    requires After(steps).handler.subscriber.Some?
    ensures Attended(longer) && LegalRun(longer)
  {
    forall i: nat | i < |longer|
      ensures AttendedAt(longer, i) && LegalAt(longer, i)
    {
      assert longer[..i] == steps[..i];
      if i < |steps| {
        assert AttendedAt(steps, i) && LegalAt(steps, i);
      } else {
        assert steps[..i] == steps;
      }
    }
  }

  function Keys(n: nat): (keys: seq<Key>)
    ensures |keys| == n
  {
    if n == 0 then [] else Keys(n - 1) + [KeyOf(n - 1)]
  }

  lemma {:induction false} FloodArrivals(n: nat)
    ensures After(Flood(n)).arrivals == Keys(n)
  {
    if n == 0 {
      FloodStarts();
    } else {
      FloodArrivals(n - 1);
      FloodStep(n);
    }
  }

  /** All but the first of the keys came since the first. */
  lemma {:induction false} SinceFirst(n: nat) returns (others: set<Key>)
    requires n > 0
    ensures Lru.Since(Keys(n), KeyOf(0)) == Some(others)
    ensures |others| == n - 1 && forall k :: k in others ==> k.reqId < n
  {
    assert Keys(n)[..n - 1] == Keys(n - 1) && Keys(n)[n - 1] == KeyOf(n - 1);
    if n == 1 {
      others := {};
    } else {
      var some := SinceFirst(n - 1);
      others := some + {KeyOf(n - 1)};
      assert KeyOf(n - 1) !in some;
    }
  }

  /** A legal run in which every request has a body and finds a subscriber, and one is delivered twice. */
  lemma EvictedTwice()
    ensures LegalRun(Twice()) && Attended(Twice())
    ensures Count(After(Twice()).delivered, KeyOf(0)) > 1
  {
    var n := LRU_SIZE + 1;
    FloodAttended(n);
    FloodSubscribed(n);
    OneMoreStep(Flood(n), Arrival(0), Twice());
    DeliveredOnceIff(Twice(), KeyOf(0));
    OneStep(Flood(n), 0, Twice());
    FloodArrivals(n);
    var others := SinceFirst(n);
    NotSpaced(After(Flood(n)).arrivals, KeyOf(0), others, After(Twice()).arrivals);
  }

  lemma NotSpaced(arrivals: seq<Key>, k: Key, others: set<Key>, longer: seq<Key>)
    requires longer == arrivals + [k] && Lru.Since(arrivals, k) == Some(others) && |others| >= LRU_SIZE
    ensures !Lru.Spaced(LRU_SIZE, longer, k)
  {
    assert longer[..|arrivals|] == arrivals;
  }

  /**
   That responses answer only requests that were sent is needed: a stray response to a request
   still waiting gives its owner an answer, and the request is sent all the same.
   */
  lemma StrayAnswerStillSent()
    ensures exists a: Agent, body: Body ::
      && a == OnResponse(OnRequest(NEW_AGENT.(queue := []), 7, 0, body), Some(Response(0, Some(body))))
      && a.queue == [Answer(7, body)] && 0 !in a.reqData
      && AgentPop(a.(queue := []), 0).1 == Some(SendRequest(Request(0, 0, Some(body))))
  {
    var body: Body := "join";
    var asked := OnRequest(NEW_AGENT.(queue := []), 7, 0, body);
    var a := OnResponse(asked, Some(Response(0, Some(body))));
    assert a.msgQueue == asked.msgQueue;
    assert a.msgQueue.queue == [Request(0, 0, Some(body))];
    assert AgentPop(a.(queue := []), 0).1 == Some(SendRequest(Request(0, 0, Some(body))));
  }
}
