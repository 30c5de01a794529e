/**
 What the connector protocol carries: every answer goes to the actor that asked, with a body that the
 application replied to that very request; and the application is handed what was asked.

 The observer notes for each request id who asked and what, what the application replied to this
 agent, and what the two services have put out.
 */
module ConnectorAnswers {
  import opened Options
  import opened MsgQueue
  import opened MsgQueueRuns
  import opened Connector
  import opened ConnectorSafety

  datatype Question = Question(owner: Actor, ts: nat, body: Body)

  datatype Notes = Notes(asked: map<nat, Question>, said: set<Response>, given: seq<AgentOut>, handed: seq<HandlerOut>)

  function Note(n: Notes, s: System, step: Step): Notes {
    match step
    case Ask(owner, ts, body) => n.(asked := n.asked[s.agent.reqIdSeed := Question(owner, ts, body)])
    case AppReply(node, reqId, body) => if node == ME then n.(said := n.said + {Response(reqId, Some(body))}) else n
    case AgentOutput(_) =>
      if s.agent.queue != [] && s.agent.queue[0].Answer? then n.(given := n.given + [s.agent.queue[0]]) else n
    case HandlerOutput =>
      if s.handler.queue != [] then n.(handed := n.handed + [s.handler.queue[0]]) else n
    case _ => n
  }

  function Noted(steps: seq<Step>): Notes {
    if steps == [] then Notes(map[], {}, [], [])
    else Note(Noted(steps[..|steps| - 1]), After(steps[..|steps| - 1]), steps[|steps| - 1])
  }

  // ---------------------------------------------------------------- answers

  /** The answers among the outputs of the agent, in order. */
  function AnswersIn(queue: seq<AgentOut>): seq<AgentOut> {
    if queue == [] then []
    else AnswersIn(queue[..|queue| - 1]) + if queue[|queue| - 1].Answer? then [queue[|queue| - 1]] else []
  }

  lemma AnswersPush(queue: seq<AgentOut>, o: AgentOut)
    ensures AnswersIn(queue + [o]) == AnswersIn(queue) + if o.Answer? then [o] else []
  {
    assert (queue + [o])[..|queue|] == queue;
  }

  lemma {:induction false} AnswersPop(queue: seq<AgentOut>)
    requires queue != []
    ensures AnswersIn(queue) == (if queue[0].Answer? then [queue[0]] else []) + AnswersIn(queue[1..])
  {
    var n := |queue| - 1;
    if n == 0 {
      assert queue[..0] == [] && queue[1..] == [];
    } else {
      AnswersPop(queue[..n]);
      assert queue[..n][1..] == queue[1..][..n - 1];
      assert queue[1..][n - 1] == queue[n];
    }
  }

  /** Every answer there ever was: those put out and those still queued. */
  function AllAnswers(n: Notes, s: System): seq<AgentOut> {
    n.given + AnswersIn(s.agent.queue)
  }

  /** An answer to a request, as it should be. */
  predicate Rightful(n: Notes, id: nat, o: AgentOut) {
    && o.Answer? && id in n.asked && o.to == n.asked[id].owner
    && Response(id, Some(o.body)) in n.said
  }

  /** The answers are those to the answered requests, in order. */
  ghost predicate Paid(n: Notes, answers: seq<AgentOut>, answered: seq<nat>) {
    |answers| == |answered| && forall k: nat :: k < |answered| ==> Rightful(n, answered[k], answers[k])
  }

  /** The owners kept are those noted; ids are given out in order. */
  ghost predicate Owns(n: Notes, a: Agent) {
    && (forall id :: id in a.reqData ==> id in n.asked && a.reqData[id] == n.asked[id].owner)
    && (forall id :: id in n.asked ==> id < a.reqIdSeed)
  }

  /** The network carries to this agent only what the application said. */
  ghost predicate Spoken(n: Notes, s: System) {
    && (forall r :: r in s.replies ==> r in n.said)
    && (forall o :: o in s.handler.queue && o.SendReply? && o.node == ME ==> o.msg in n.said)
  }

  ghost predicate Honest(n: Notes, s: System) {
    Paid(n, AllAnswers(n, s), s.answered) && Owns(n, s.agent) && Spoken(n, s)
  }

  /** Notes only grow, so that what was rightful stays so. */
  lemma StillPaid(n: Notes, n': Notes, answers: seq<AgentOut>, answered: seq<nat>)
    requires Paid(n, answers, answered) && n.said <= n'.said
    requires forall id :: id in n.asked ==> id in n'.asked && n'.asked[id] == n.asked[id]
    ensures Paid(n', answers, answered)
  {
    forall k: nat | k < |answered|
      ensures Rightful(n', answered[k], answers[k])
    {
      assert Rightful(n, answered[k], answers[k]);
    }
  }

  lemma OneMorePaid(n: Notes, answers: seq<AgentOut>, answered: seq<nat>, id: nat, o: AgentOut)
    requires Paid(n, answers, answered) && Rightful(n, id, o)
    ensures Paid(n, answers + [o], answered + [id])
  {
  }

  lemma AskHonest(n: Notes, s: System, owner: Actor, ts: nat, body: Body)
    requires ValidBuckets(s.agent.msgQueue.inflightTs) && Honest(n, s)
    ensures Honest(Note(n, s, Ask(owner, ts, body)), Next(s, Ask(owner, ts, body)))
  {
    var n' := Note(n, s, Ask(owner, ts, body));
    StillPaid(n, n', AllAnswers(n, s), s.answered);
  }

  lemma OutputHonest(n: Notes, s: System, now: nat)
    requires ValidBuckets(s.agent.msgQueue.inflightTs) && Honest(n, s)
    ensures Honest(Note(n, s, AgentOutput(now)), Next(s, AgentOutput(now)))
  {
    var n', s' := Note(n, s, AgentOutput(now)), Next(s, AgentOutput(now));
    if s.agent.queue != [] {
      AnswersPop(s.agent.queue);
      assert AllAnswers(n', s') == AllAnswers(n, s);
      StillPaid(n, n', AllAnswers(n, s), s.answered);
    }
  }

  /** The response gives its owner an answer. */
  predicate Answering(s: System, response: Option<Response>) {
    response.Some? && response.value.reqId in s.agent.reqData && response.value.body.Some?
  }

  lemma RecvEffect(s: System, response: Option<Response>)
    requires ValidBuckets(s.agent.msgQueue.inflightTs)
    ensures var s' := Next(s, AgentRecv(response));
      && s'.handler == s.handler && s'.replies == s.replies && s'.agent.reqIdSeed == s.agent.reqIdSeed
      && (forall id :: id in s'.agent.reqData ==> id in s.agent.reqData && s'.agent.reqData[id] == s.agent.reqData[id])
      && (if Answering(s, response) then
            var id := response.value.reqId;
            && s'.agent.queue == s.agent.queue + [Answer(s.agent.reqData[id], response.value.body.value)]
            && s'.answered == s.answered + [id]
          else s'.agent.queue == s.agent.queue && s'.answered == s.answered)
  {
  }

  lemma RecvHonest(n: Notes, s: System, response: Option<Response>)
    requires ValidBuckets(s.agent.msgQueue.inflightTs) && Honest(n, s) && Legal(s, AgentRecv(response))
    ensures Honest(n, Next(s, AgentRecv(response)))
  {
    RecvEffect(s, response);
    if Answering(s, response) {
      var id, body := response.value.reqId, response.value.body.value;
      AnswerPaid(n, s, id, body);
    }
  }

  lemma AnswerPaid(n: Notes, s: System, id: nat, body: Body)
    requires Paid(n, AllAnswers(n, s), s.answered) && Owns(n, s.agent) && Spoken(n, s)
    requires id in s.agent.reqData && Response(id, Some(body)) in s.replies
    ensures Paid(n, n.given + AnswersIn(s.agent.queue + [Answer(s.agent.reqData[id], body)]), s.answered + [id])
  {
    var o := Answer(s.agent.reqData[id], body);
    AnswersPush(s.agent.queue, o);
    OneMorePaid(n, AllAnswers(n, s), s.answered, id, o);
    assert AllAnswers(n, s) + [o] == n.given + (AnswersIn(s.agent.queue) + [o]);
  }

  lemma TickHonest(n: Notes, s: System)
    requires ValidBuckets(s.agent.msgQueue.inflightTs) && Honest(n, s)
    ensures Honest(n, Next(s, AgentTick))
  {
    if s.agent.subscriber.Some? {
      var q := s.agent.msgQueue;
      AnswersPush(s.agent.queue, Stats(s.agent.subscriber.value, |q.queue|, |q.inflight|, q.acked));
      assert AnswersIn(s.agent.queue) + [] == AnswersIn(s.agent.queue);
    }
  }

  lemma HandlerHonest(n: Notes, s: System, step: Step)
    requires ValidBuckets(s.agent.msgQueue.inflightTs) && Honest(n, s)
    requires step.HandlerSub? || step.HandlerRecv? || step.HandlerOutput? || step.AppReply?
    ensures Honest(Note(n, s, step), Next(s, step))
  {
    var n', s' := Note(n, s, step), Next(s, step);
    assert s'.agent == s.agent && s'.answered == s.answered && n'.given == n.given && n'.asked == n.asked;
    StillPaid(n, n', AllAnswers(n, s), s.answered);
    HandlerSpoken(n, s, step);
  }

  lemma HandlerSpoken(n: Notes, s: System, step: Step)
    requires ValidBuckets(s.agent.msgQueue.inflightTs) && Spoken(n, s)
    requires step.HandlerSub? || step.HandlerRecv? || step.HandlerOutput? || step.AppReply?
    ensures Spoken(Note(n, s, step), Next(s, step))
  {
    match step
    case HandlerSub(_) =>
    case HandlerRecv(_, _) =>
    case HandlerOutput => assert s.handler.queue != [] ==> s.handler.queue[0] in s.handler.queue;
    case AppReply(_, _, _) =>
  }

  lemma StepHonest(n: Notes, s: System, step: Step)
    requires ValidBuckets(s.agent.msgQueue.inflightTs) && Honest(n, s) && Legal(s, step)
    ensures Honest(Note(n, s, step), Next(s, step))
  {
    match step
    case Ask(owner, ts, body) => AskHonest(n, s, owner, ts, body);
    case AgentSub(_) =>
    case AgentTick => TickHonest(n, s);
    case AgentOutput(now) => OutputHonest(n, s, now);
    case AgentRecv(response) => RecvHonest(n, s, response);
    case _ => HandlerHonest(n, s, step);
  }

  lemma {:induction false} RunHonest(steps: seq<Step>)
    requires LegalRun(steps)
    ensures Honest(Noted(steps), After(steps))
  {
    if steps == [] {
      assert AnswersIn([]) == [];
      assert AnswersIn(START.agent.queue[..0]) == [];
    } else {
      var k := |steps| - 1;
      LegalPrefix(steps, k);
      assert LegalAt(steps, k);
      RunHonest(steps[..k]);
      StepHonest(Noted(steps[..k]), After(steps[..k]), steps[k]);
    }
  }

  /**
   In every run there is exactly one answer for each answered request, in that order; it goes to the
   actor that asked, and its body is one that the application replied to that request.
   */
  lemma AnswersGoToOwners(steps: seq<Step>, k: nat)
    requires LegalRun(steps) && k < |After(steps).answered|
    ensures var n, s := Noted(steps), After(steps);
      && |AllAnswers(n, s)| == |s.answered| && s.answered[k] in n.asked
      && exists body :: AllAnswers(n, s)[k] == Answer(n.asked[s.answered[k]].owner, body)
                        && Response(s.answered[k], Some(body)) in n.said
  {
    RunHonest(steps);
    var n, s := Noted(steps), After(steps);
    assert Rightful(n, s.answered[k], AllAnswers(n, s)[k]);
    assert AllAnswers(n, s)[k] == Answer(n.asked[s.answered[k]].owner, AllAnswers(n, s)[k].body);
  }

  // ---------------------------------------------------------------- questions

  /** The request as it was asked. */
  predicate AsAsked(n: Notes, m: Wire) {
    m.reqId in n.asked && m == Request(m.reqId, n.asked[m.reqId].ts, Some(n.asked[m.reqId].body))
  }

  /** What is handed on for a request of this agent is what was asked. */
  predicate HandedAsAsked(n: Notes, o: HandlerOut) {
    o.Deliver? && o.key.source == ME ==>
      o.key.reqId in n.asked && o.key.ts == n.asked[o.key.reqId].ts && o.body == n.asked[o.key.reqId].body
  }

  ghost predicate Faithful(n: Notes, s: System) {
    && (forall m :: m in s.log.pushed ==> AsAsked(n, m))
    && (forall m :: m in s.requests ==> AsAsked(n, m))
    && (forall o :: o in s.handler.queue ==> HandedAsAsked(n, o))
    && (forall o :: o in n.handed ==> HandedAsAsked(n, o))
    && (forall id :: id in n.asked ==> id < s.agent.reqIdSeed)
  }

  lemma AskFaithful(n: Notes, s: System, owner: Actor, ts: nat, body: Body)
    requires ValidBuckets(s.agent.msgQueue.inflightTs) && Faithful(n, s)
    ensures Faithful(Note(n, s, Ask(owner, ts, body)), Next(s, Ask(owner, ts, body)))
  {
    var n' := Note(n, s, Ask(owner, ts, body));
    assert forall m :: AsAsked(n, m) ==> AsAsked(n', m);
    assert forall o :: HandedAsAsked(n, o) ==> HandedAsAsked(n', o);
  }

  lemma SendsPushed(s: System, now: nat)
    requires Tracked(MAX_INFLIGHT, s.agent.msgQueue, s.log)
    ensures var m := Pop(MAX_INFLIGHT, s.agent.msgQueue, now).1; m.Some? ==> m.value in s.log.pushed
  {
    PopSchedules(MAX_INFLIGHT, s.agent.msgQueue, s.log, now);
  }

  lemma OutputFaithful(n: Notes, s: System, now: nat)
    requires Tracked(MAX_INFLIGHT, s.agent.msgQueue, s.log) && Faithful(n, s)
    ensures Faithful(Note(n, s, AgentOutput(now)), Next(s, AgentOutput(now)))
  {
    SendsPushed(s, now);
    var n' := Note(n, s, AgentOutput(now));
    assert n' == n.(given := n'.given);
    assert forall m :: AsAsked(n, m) ==> AsAsked(n', m);
    assert forall o :: HandedAsAsked(n, o) ==> HandedAsAsked(n', o);
    OutputRequests(s, now);
  }

  lemma OutputRequests(s: System, now: nat)
    requires ValidBuckets(s.agent.msgQueue.inflightTs)
    ensures var s', m := Next(s, AgentOutput(now)), Pop(MAX_INFLIGHT, s.agent.msgQueue, now).1;
      && s'.log.pushed == s.log.pushed && s'.handler == s.handler && s'.agent.reqIdSeed == s.agent.reqIdSeed
      && s'.requests == if s.agent.queue == [] && m.Some? then s.requests + {m.value} else s.requests
  {
  }

  lemma WireFaithful(n: Notes, s: System, source: Option<NodeId>, wire: Option<Wire>)
    requires ValidBuckets(s.agent.msgQueue.inflightTs) && Faithful(n, s) && Legal(s, HandlerRecv(source, wire))
    ensures Faithful(n, Next(s, HandlerRecv(source, wire)))
  {
  }

  lemma HandFaithful(n: Notes, s: System)
    requires ValidBuckets(s.agent.msgQueue.inflightTs) && Faithful(n, s)
    ensures Faithful(Note(n, s, HandlerOutput), Next(s, HandlerOutput))
  {
    var n' := Note(n, s, HandlerOutput);
    assert forall m :: AsAsked(n, m) ==> AsAsked(n', m);
    assert forall o :: HandedAsAsked(n, o) ==> HandedAsAsked(n', o);
    if s.handler.queue != [] { assert s.handler.queue[0] in s.handler.queue; }
  }

  lemma ReplyFaithful(n: Notes, s: System, node: NodeId, reqId: nat, body: Body)
    requires ValidBuckets(s.agent.msgQueue.inflightTs) && Faithful(n, s)
    ensures Faithful(Note(n, s, AppReply(node, reqId, body)), Next(s, AppReply(node, reqId, body)))
  {
    var n' := Note(n, s, AppReply(node, reqId, body));
    assert forall m :: AsAsked(n, m) ==> AsAsked(n', m);
    assert forall o :: HandedAsAsked(n, o) ==> HandedAsAsked(n', o);
  }

  lemma StepFaithful(n: Notes, s: System, step: Step)
    requires Tracked(MAX_INFLIGHT, s.agent.msgQueue, s.log) && Faithful(n, s) && Legal(s, step)
    ensures Faithful(Note(n, s, step), Next(s, step))
  {
    match step
    case Ask(owner, ts, body) => AskFaithful(n, s, owner, ts, body);
    case AgentSub(_) =>
    case AgentTick =>
    case AgentOutput(now) => OutputFaithful(n, s, now);
    case AgentRecv(_) =>
    case HandlerSub(_) =>
    case HandlerRecv(source, wire) => WireFaithful(n, s, source, wire);
    case HandlerOutput => HandFaithful(n, s);
    case AppReply(node, reqId, body) => ReplyFaithful(n, s, node, reqId, body);
  }

  lemma {:induction false} RunFaithful(steps: seq<Step>)
    requires LegalRun(steps)
    ensures Faithful(Noted(steps), After(steps))
  {
    if steps != [] {
      var k := |steps| - 1;
      LegalPrefix(steps, k);
      assert LegalAt(steps, k);
      RunSafe(steps[..k]);
      RunFaithful(steps[..k]);
      StepFaithful(Noted(steps[..k]), After(steps[..k]), steps[k]);
    }
  }

  /** In every run what the subscriber is handed for a request of this agent is what was asked under that id. */
  lemma HandedIsAsked(steps: seq<Step>, o: HandlerOut)
    requires LegalRun(steps) && o in Noted(steps).handed && o.Deliver? && o.key.source == ME
    ensures var n := Noted(steps);
      o.key.reqId in n.asked && o.key.ts == n.asked[o.key.reqId].ts && o.body == n.asked[o.key.reqId].body
  {
    RunFaithful(steps);
    assert HandedAsAsked(Noted(steps), o);
  }

  // ---------------------------------------------------------------- replies

  function CountOut(outs: seq<HandlerOut>, o: HandlerOut): nat {
    if outs == [] then 0 else CountOut(outs[..|outs| - 1], o) + if outs[|outs| - 1] == o then 1 else 0
  }

  lemma CountOutPush(outs: seq<HandlerOut>, x: HandlerOut, o: HandlerOut)
    ensures CountOut(outs + [x], o) == CountOut(outs, o) + if x == o then 1 else 0
  {
    assert (outs + [x])[..|outs|] == outs;
  }

  /** How often the application replied so. */
  function Replied(steps: seq<Step>, node: NodeId, reqId: nat, body: Body): nat {
    if steps == [] then 0
    else Replied(steps[..|steps| - 1], node, reqId, body) + if steps[|steps| - 1] == AppReply(node, reqId, body) then 1 else 0
  }

  lemma ReplyStep(n: Notes, s: System, step: Step, node: NodeId, reqId: nat, body: Body)
    requires ValidBuckets(s.agent.msgQueue.inflightTs)
    ensures var o := SendReply(node, Response(reqId, Some(body)));
      CountOut(Note(n, s, step).handed + Next(s, step).handler.queue, o)
      == CountOut(n.handed + s.handler.queue, o) + if step == AppReply(node, reqId, body) then 1 else 0
  {
    var o := SendReply(node, Response(reqId, Some(body)));
    var before, after := n.handed + s.handler.queue, Note(n, s, step).handed + Next(s, step).handler.queue;
    match step
    case HandlerOutput => assert after == before;
    case AppReply(node', reqId', body') =>
      assert after == before + [SendReply(node', Response(reqId', Some(body')))];
      CountOutPush(before, SendReply(node', Response(reqId', Some(body'))), o);
    case HandlerRecv(source, wire) => WireQueue(s, source, wire, n.handed, o);
    case _ => assert after == before;
  }

  lemma WireQueue(s: System, source: Option<NodeId>, wire: Option<Wire>, handed: seq<HandlerOut>, o: HandlerOut)
    requires ValidBuckets(s.agent.msgQueue.inflightTs) && o.SendReply?
    ensures CountOut(handed + Next(s, HandlerRecv(source, wire)).handler.queue, o) == CountOut(handed + s.handler.queue, o)
  {
    var queue, queue' := s.handler.queue, Next(s, HandlerRecv(source, wire)).handler.queue;
    if queue' != queue {
      var x := queue'[|queue|];
      assert queue' == queue + [x] && x.Deliver?;
      CountOutPush(handed + queue, x, o);
      assert handed + queue' == handed + queue + [x];
    }
  }

  /** In every run each reply of the application is sent once, to the node it was meant for. */
  lemma {:induction false} RepliesConserved(steps: seq<Step>, node: NodeId, reqId: nat, body: Body)
    ensures CountOut(Noted(steps).handed + After(steps).handler.queue, SendReply(node, Response(reqId, Some(body))))
         == Replied(steps, node, reqId, body)
  {
    if steps == [] {
      var outs := Noted(steps).handed + After(steps).handler.queue;
      assert outs == [HandlerListen];
      assert outs[..0] == [];
    } else {
      var k := |steps| - 1;
      RepliesConserved(steps[..k], node, reqId, body);
      ReplyStep(Noted(steps[..k]), After(steps[..k]), steps[k], node, reqId, body);
    }
  }

  // ---------------------------------------------------------------- statistics

  lemma KeysSize<V>(m: map<nat, V>)
    ensures |m| == |m.Keys|
  {
  }

  lemma FlyingCount<P>(max: nat, inflight: map<nat, Request<P>>, log: Log<P>)
    requires InFlight(max, inflight, log) && log.acked <= log.sent.Keys
    ensures |log.sent| == |log.acked| + |inflight|
  {
    assert inflight.Keys == log.sent.Keys - log.acked;
    KeysSize(inflight);
    KeysSize(log.sent);
    DifferenceSize(log.sent.Keys, log.acked);
  }

  lemma TrackedCounts<P>(max: nat, q: Queue<P>, log: Log<P>)
    requires Tracked(max, q, log)
    ensures |log.pushed| == |log.sent| + |q.queue| && |log.sent| == |log.acked| + |q.inflight| && q.acked == |log.acked|
  {
    FlyingCount(max, q.inflight, log);
  }

  /** In every run the statistics a tick reports count the requests waiting, sent and not answered, and answered. */
  lemma StatsCount(steps: seq<Step>) returns (waiting: nat, flying: nat)
    requires LegalRun(steps) && After(steps).agent.subscriber.Some?
    ensures var s := After(steps);
      && |s.log.pushed| == |s.log.sent| + waiting && |s.log.sent| == |s.log.acked| + flying
      && OnAgentTick(s.agent).queue == s.agent.queue + [Stats(s.agent.subscriber.value, waiting, flying, |s.log.acked|)]
  {
    RunSafe(steps);
    var s := After(steps);
    TrackedCounts(MAX_INFLIGHT, s.agent.msgQueue, s.log);
    waiting, flying := |s.agent.msgQueue.queue|, |s.agent.msgQueue.inflight|;
  }

  lemma {:induction false} DifferenceSize(a: set<nat>, b: set<nat>)
    requires b <= a
    ensures |a - b| == |a| - |b|
  {
    if b != {} {
      var x :| x in b;
      DifferenceSize(a - {x}, b - {x});
      assert a - b == (a - {x}) - (b - {x});
    } else {
      assert a - b == a;
    }
  }
}
