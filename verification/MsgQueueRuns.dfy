/**
 Whole runs of the send queue, against what an observer can log.
 */
module MsgQueueRuns {
  import opened Options
  import opened MsgQueue

  datatype Event<P> = Pushed(m: Request<P>) | Acked(id: nat) | Popped(now: nat)

  /** `pushed`: every message, in order; `sent`: when each id was last returned by `pop`; `acked`: ids acknowledged since. */
  datatype Log<P> = Log(pushed: seq<Request<P>>, sent: map<nat, nat>, acked: set<nat>)

  function Observe<P>(log: Log<P>, e: Event<P>, out: Option<Request<P>>): Log<P> {
    match e
    case Pushed(m) => log.(pushed := log.pushed + [m])
    case Acked(id) => if id in log.sent then log.(acked := log.acked + {id}) else log
    case Popped(now) => if out.Some? then log.(sent := log.sent[out.value.reqId := now]) else log
  }

  function Step<P>(max: nat, q: Queue<P>, e: Event<P>): (Queue<P>, Option<Request<P>>)
    requires ValidBuckets(q.inflightTs)
  {
    match e
    case Pushed(m) => (Push(q, m), None)
    case Acked(id) => (OnAck(q, id), None)
    case Popped(now) => Pop(max, q, now)
  }

  function Ids<P>(s: seq<Request<P>>): set<nat> {
    set i | 0 <= i < |s| :: s[i].reqId
  }

  /** No id occurs twice: each is absent from those before it. */
  ghost predicate DistinctIds<P>(s: seq<Request<P>>) {
    |s| > 0 ==> DistinctIds(s[..|s| - 1]) && s[|s| - 1].reqId !in Ids(s[..|s| - 1])
  }

  lemma {:induction false} DistinctAt<P>(s: seq<Request<P>>, k: nat)
    requires DistinctIds(s) && k < |s|
    ensures s[k].reqId !in Ids(s[..k])
  {
    if k < |s| - 1 {
      DistinctAt(s[..|s| - 1], k);
      assert s[..|s| - 1][..k] == s[..k];
    }
  }

  lemma DistinctPair<P>(s: seq<Request<P>>, i: nat, j: nat)
    requires DistinctIds(s) && i < j < |s|
    ensures s[i].reqId != s[j].reqId
  {
    DistinctAt(s, j);
    assert s[..j][i] == s[i];
  }

  /** Every pair in the buckets is the last send of its id, once; and every id in flight has one. */
  ghost predicate Placed(sends: multiset<(nat, nat)>, sent: map<nat, nat>, live: set<nat>) {
    && (forall p {:trigger sends[p]} :: p in sends ==> sends[p] == 1 && p.1 in sent && sent[p.1] == p.0)
    && (forall id {:trigger id in live} :: id in live ==> id in sent && (sent[id], id) in sends)
  }

  /** What is waiting is what was pushed and never sent, in that order. */
  ghost predicate Ordered<P>(q: Queue<P>, log: Log<P>) {
    && DistinctIds(log.pushed)
    && |log.sent| <= |log.pushed|
    && log.sent.Keys == Ids(log.pushed[..|log.sent|])
    && q.queue == log.pushed[|log.sent|..]
    && log.acked <= log.sent.Keys
    && q.acked == |log.acked|
  }

  /** What is in flight is what was sent and not acknowledged. */
  ghost predicate InFlight<P>(max: nat, inflight: map<nat, Request<P>>, log: Log<P>) {
    && (forall id :: id in inflight <==> id in log.sent && id !in log.acked)
    && (forall id :: id in inflight ==> inflight[id] in log.pushed && inflight[id].reqId == id)
    && |inflight| <= max
  }

  /** And the buckets say when it was last sent. */
  ghost predicate Flying<P>(max: nat, q: Queue<P>, log: Log<P>) {
    && ValidBuckets(q.inflightTs)
    && InFlight(max, q.inflight, log)
    && Placed(Sends(q.inflightTs), log.sent, q.inflight.Keys)
  }

  /** The queue's tables say exactly what the log says. */
  ghost predicate Tracked<P>(max: nat, q: Queue<P>, log: Log<P>) {
    Ordered(q, log) && Flying(max, q, log)
  }

  lemma OnlyAt<P>(s: seq<Request<P>>, k: nat, i: nat)
    requires DistinctIds(s) && i < |s| && k <= |s|
    ensures s[i].reqId in Ids(s[..k]) <==> i < k
    ensures s[i] in s[k..] <==> i >= k
  {
    var m := s[i];
    forall j | 0 <= j < |s| && j != i ensures s[j].reqId != m.reqId {
      if j < i { DistinctPair(s, j, i); } else { DistinctPair(s, i, j); }
    }
    if i < k {
      assert s[..k][i] == m;
    } else {
      assert s[k..][i - k] == m;
    }
  }

  /** Every message pushed is waiting, in flight or acknowledged, and only one of them. */
  lemma Partition<P>(max: nat, q: Queue<P>, log: Log<P>, i: nat)
    requires Tracked(max, q, log) && i < |log.pushed|
    ensures var m := log.pushed[i];
      && (m in q.queue <==> i >= |log.sent|)
      && (m.reqId in q.inflight <==> i < |log.sent| && m.reqId !in log.acked)
      && (m.reqId in log.acked ==> i < |log.sent|)
  {
    OnlyAt(log.pushed, |log.sent|, i);
  }

  // ---------------------------------------------------------------- pop

  lemma PlacedRetry(
      before: multiset<(nat, nat)>, after: multiset<(nat, nat)>, sent: map<nat, nat>, live: set<nat>,
      t: nat, id: nat, now: nat)
    requires Placed(before, sent, live) && id in live && (t, id) in before
    requires KeepsLive(before, after + multiset{(t, id)}, live)
    ensures Placed(after + multiset{(now, id)}, sent[id := now], live)
  {
    assert sent[id] == t && before[(t, id)] == 1;
    forall p | p in after ensures after[p] == 1 && p.1 != id && p in before {
      assert (after + multiset{(t, id)})[p] <= before[p];
    }
    forall j | j in live && j != id ensures (sent[j], j) in after {
      assert (after + multiset{(t, id)})[(sent[j], j)] == before[(sent[j], j)];
    }
  }

  lemma PlacedKept(before: multiset<(nat, nat)>, after: multiset<(nat, nat)>, sent: map<nat, nat>, live: set<nat>)
    requires Placed(before, sent, live) && KeepsLive(before, after, live)
    ensures Placed(after, sent, live)
  {
    forall p | p in after ensures after[p] == 1 && p in before {
      assert after[p] <= before[p];
    }
    forall j | j in live ensures (sent[j], j) in after {
      assert after[(sent[j], j)] == before[(sent[j], j)];
    }
  }

  lemma PlacedNew(
      sends: multiset<(nat, nat)>, sent: map<nat, nat>, live: set<nat>, id: nat, now: nat,
      sends': multiset<(nat, nat)>, live': set<nat>)
    requires Placed(sends, sent, live) && id !in sent
    requires sends' == sends + multiset{(now, id)} && forall j :: j in live' ==> j in live || j == id
    ensures Placed(sends', sent[id := now], live')
  {
  }

  predicate Due(sent: map<nat, nat>, id: nat, now: nat) {
    id in sent && sent[id] + RESEND_AFTER_MS <= now
  }

  lemma MapPut<V>(m: map<nat, V>, k: nat, v: V)
    ensures |m[k := v]| == if k in m then |m| else |m| + 1
  {
    assert m[k := v].Keys == m.Keys + {k};
    assert |m| == |m.Keys| && |m[k := v]| == |m[k := v].Keys|;
    assert k in m ==> m.Keys + {k} == m.Keys;
  }

  lemma MapPutKeys<V>(m: map<nat, V>, k: nat, v: V)
    ensures m[k := v].Keys == m.Keys + {k}
    ensures |m[k := v]| == if k in m then |m| else |m| + 1
  {
    MapPut(m, k, v);
  }

  lemma MapDel<V>(m: map<nat, V>, k: nat)
    requires k in m
    ensures |m - {k}| == |m| - 1
  {
    assert (m - {k}).Keys == m.Keys - {k};
    assert |m| == |m.Keys| && |m - {k}| == |(m - {k}).Keys|;
  }

  /** What a retry moves between buckets. */
  lemma RetryPlaced(b: seq<Bucket>, live: set<nat>, sent: map<nat, nat>, now: nat)
    requires ValidBuckets(b) && Placed(Sends(b), sent, live)
    requires PopRetry(b, live, now).1.Some?
    ensures var (b', r) := PopRetry(b, live, now);
      && ValidBuckets(AddSent(b', now, r.value))
      && Placed(Sends(AddSent(b', now, r.value)), sent[r.value := now], live)
      && Due(sent, r.value, now)
      && (forall id :: id in live ==> sent[r.value] <= sent[id])
  {
    var t := RetryFinds(b, live, now);
    var (b', r) := PopRetry(b, live, now);
    AddSentValid(b', now, r.value);
    AddSentSends(b', now, r.value);
    PlacedRetry(Sends(b), Sends(b'), sent, live, t, r.value, now);
    forall j | j in live ensures t <= sent[j] {
      assert (sent[j], j) in Sends(b);
    }
  }

  lemma PopRetried<P>(max: nat, q: Queue<P>, log: Log<P>, now: nat)
    requires Tracked(max, q, log)
    requires PopRetry(q.inflightTs, q.inflight.Keys, now).1.Some?
    ensures var (q', out) := Pop(max, q, now);
      && out.Some? && Tracked(max, q', Observe(log, Popped(now), out))
      && out.value.reqId in q.inflight && out.value == q.inflight[out.value.reqId]
      && Due(log.sent, out.value.reqId, now)
      && (forall id :: id in q.inflight ==> log.sent[out.value.reqId] <= log.sent[id])
  {
    RetryPlaced(q.inflightTs, q.inflight.Keys, log.sent, now);
    MapPut(log.sent, PopRetry(q.inflightTs, q.inflight.Keys, now).1.value, now);
    assert log.sent[PopRetry(q.inflightTs, q.inflight.Keys, now).1.value := now].Keys == log.sent.Keys;
  }

  lemma NothingDue<P>(max: nat, q: Queue<P>, log: Log<P>, now: nat)
    requires Tracked(max, q, log)
    requires PopRetry(q.inflightTs, q.inflight.Keys, now).1.None?
    ensures var b := PopRetry(q.inflightTs, q.inflight.Keys, now).0;
      && Tracked(max, q.(inflightTs := b), log)
      && forall id :: id in q.inflight ==> !Due(log.sent, id, now)
  {
    var live := q.inflight.Keys;
    var _ := RetryFinds(q.inflightTs, live, now);
    PlacedKept(Sends(q.inflightTs), Sends(PopRetry(q.inflightTs, live, now).0), log.sent, live);
    forall id | id in q.inflight ensures !Due(log.sent, id, now) {
      assert (log.sent[id], id) in Sends(q.inflightTs);
    }
  }

  lemma SendPlaced(b: seq<Bucket>, live: set<nat>, sent: map<nat, nat>, id: nat, now: nat, live': set<nat>)
    requires ValidBuckets(b) && Placed(Sends(b), sent, live) && id !in sent
    requires forall j :: j in live' ==> j in live || j == id
    ensures ValidBuckets(AddSent(b, now, id))
    ensures Placed(Sends(AddSent(b, now, id)), sent[id := now], live')
  {
    AddSentValid(b, now, id);
    AddSentSends(b, now, id);
    PlacedNew(Sends(b), sent, live, id, now, Sends(AddSent(b, now, id)), live');
  }

  function Send<P>(q: Queue<P>, now: nat): Queue<P>
    requires q.queue != []
  {
    var m := q.queue[0];
    q.(inflightTs := AddSent(q.inflightTs, now, m.reqId), inflight := q.inflight[m.reqId := m], queue := q.queue[1..])
  }

  lemma SendOrdered<P>(q: Queue<P>, log: Log<P>, now: nat)
    requires Ordered(q, log) && q.queue != []
    ensures q.queue[0] in log.pushed && q.queue[0].reqId !in log.sent
    ensures Ordered(Send(q, now), log.(sent := log.sent[q.queue[0].reqId := now]))
  {
    var m, k := q.queue[0], |log.sent|;
    assert m == log.pushed[k];
    FreshId(log.pushed, k);
    MapPutKeys(log.sent, m.reqId, now);
    NextWaiting(log.pushed, k);
  }

  lemma NextWaiting<P>(pushed: seq<Request<P>>, k: nat)
    requires k < |pushed|
    ensures pushed[k..][1..] == pushed[k + 1..]
  {
  }

  lemma SendInFlight<P>(max: nat, inflight: map<nat, Request<P>>, log: Log<P>, m: Request<P>, now: nat)
    requires InFlight(max, inflight, log) && |inflight| < max
    requires m in log.pushed && m.reqId !in log.sent && log.acked <= log.sent.Keys
    ensures InFlight(max, inflight[m.reqId := m], log.(sent := log.sent[m.reqId := now]))
  {
    MapPut(inflight, m.reqId, m);
  }

  lemma SendFlying<P>(max: nat, q: Queue<P>, log: Log<P>, now: nat)
    requires Flying(max, q, log) && q.queue != [] && |q.inflight| < max
    requires q.queue[0] in log.pushed && q.queue[0].reqId !in log.sent && log.acked <= log.sent.Keys
    ensures Flying(max, Send(q, now), log.(sent := log.sent[q.queue[0].reqId := now]))
  {
    var m := q.queue[0];
    SendInFlight(max, q.inflight, log, m, now);
    SendPlaced(q.inflightTs, q.inflight.Keys, log.sent, m.reqId, now, Send(q, now).inflight.Keys);
  }

  lemma FreshId<P>(pushed: seq<Request<P>>, k: nat)
    requires DistinctIds(pushed) && k < |pushed|
    ensures pushed[k].reqId !in Ids(pushed[..k])
    ensures Ids(pushed[..k + 1]) == Ids(pushed[..k]) + {pushed[k].reqId}
  {
    DistinctAt(pushed, k);
    var a, b := pushed[..k], pushed[..k + 1];
    assert forall i :: 0 <= i < k ==> a[i] == pushed[i] && b[i] == pushed[i];
    forall x | x in Ids(b) ensures x in Ids(a) + {pushed[k].reqId} {
      var i :| 0 <= i < |b| && b[i].reqId == x;
      assert i < k ==> a[i].reqId == x;
    }
    forall x | x in Ids(a) + {pushed[k].reqId} ensures x in Ids(b) {
      if x in Ids(a) {
        var i :| 0 <= i < |a| && a[i].reqId == x;
        assert b[i].reqId == x;
      } else {
        assert b[k].reqId == x;
      }
    }
  }

  lemma PopTracked<P>(max: nat, q: Queue<P>, log: Log<P>, now: nat)
    requires Tracked(max, q, log)
    ensures Tracked(max, Pop(max, q, now).0, Observe(log, Popped(now), Pop(max, q, now).1))
  {
    var (b, r) := PopRetry(q.inflightTs, q.inflight.Keys, now);
    if r.Some? {
      PopRetried(max, q, log, now);
    } else {
      NothingDue(max, q, log, now);
      var q1 := q.(inflightTs := b);
      if |q.inflight| < max && q.queue != [] {
        SendTracked(max, q1, log, now);
        assert Pop(max, q, now) == (Send(q1, now), Some(q.queue[0]));
      }
    }
  }

  lemma SendTracked<P>(max: nat, q: Queue<P>, log: Log<P>, now: nat)
    requires Tracked(max, q, log) && q.queue != [] && |q.inflight| < max
    ensures Tracked(max, Send(q, now), log.(sent := log.sent[q.queue[0].reqId := now]))
  {
    SendOrdered(q, log, now);
    SendFlying(max, q, log, now);
  }

  ghost predicate SomeDue<P>(q: Queue<P>, log: Log<P>, now: nat) {
    exists id :: id in q.inflight && Due(log.sent, id, now)
  }

  /**
   Which message `pop` returns.  A message in flight that was sent longest ago, once a second has
   passed; else the next message never sent, in the order pushed, while the window is not full; and
   nothing only when neither exists.
   */
  lemma PopSchedules<P>(max: nat, q: Queue<P>, log: Log<P>, now: nat)
    requires Tracked(max, q, log)
    ensures match Pop(max, q, now).1
      case None => !SomeDue(q, log, now) && (q.queue == [] || |q.inflight| == max)
      case Some(m) =>
        if SomeDue(q, log, now) then
          && m.reqId in q.inflight && m == q.inflight[m.reqId]
          && Due(log.sent, m.reqId, now)
          && (forall id :: id in q.inflight ==> log.sent[m.reqId] <= log.sent[id])
        else
          && |q.inflight| < max && |log.sent| < |log.pushed|
          && m == log.pushed[|log.sent|]
  {
    if PopRetry(q.inflightTs, q.inflight.Keys, now).1.Some? {
      PopRetried(max, q, log, now);
    } else {
      NothingDue(max, q, log, now);
    }
  }

  // ---------------------------------------------------------------- runs

  datatype Run<P> = Run(q: Queue<P>, log: Log<P>)

  /** Push, acknowledge and pop in any order; ids of pushed messages are fresh. */
  ghost predicate FreshPushes<P>(events: seq<Event<P>>) {
    forall i, j :: 0 <= i < j < |events| && events[i].Pushed? && events[j].Pushed? ==> events[i].m.reqId != events[j].m.reqId
  }

  function Play<P>(max: nat, events: seq<Event<P>>): (r: Run<P>)
    ensures ValidBuckets(r.q.inflightTs)
  {
    if events == [] then Run(Queue([], map[], [], 0), Log([], map[], {}))
    else
      var n := |events| - 1;
      var r := Play(max, events[..n]);
      var (q, out) := Step(max, r.q, events[n]);
      StepValid(max, r.q, events[n]);
      Run(q, Observe(r.log, events[n], out))
  }

  lemma StepValid<P>(max: nat, q: Queue<P>, e: Event<P>)
    requires ValidBuckets(q.inflightTs)
    ensures ValidBuckets(Step(max, q, e).0.inflightTs)
  {
    if e.Popped? {
      var _ := RetryFinds(q.inflightTs, q.inflight.Keys, e.now);
      var (b, r) := PopRetry(q.inflightTs, q.inflight.Keys, e.now);
      if r.Some? {
        AddSentValid(b, e.now, r.value);
      } else if q.queue != [] {
        AddSentValid(b, e.now, q.queue[0].reqId);
      }
    }
  }

  lemma AckTracked<P>(max: nat, q: Queue<P>, log: Log<P>, id: nat)
    requires Tracked(max, q, log)
    ensures Tracked(max, OnAck(q, id), Observe(log, Acked(id), None))
  {
    if id in q.inflight {
      MapDel(q.inflight, id);
    } else if id in log.sent {
      assert log.acked + {id} == log.acked;
    }
  }

  lemma PushTracked<P>(max: nat, q: Queue<P>, log: Log<P>, m: Request<P>)
    requires Tracked(max, q, log) && m.reqId !in Ids(log.pushed)
    ensures Tracked(max, Push(q, m), Observe(log, Pushed(m), None))
  {
    var pushed', k := log.pushed + [m], |log.sent|;
    assert pushed'[..k] == log.pushed[..k] && pushed'[k..] == log.pushed[k..] + [m];
    assert pushed'[..|pushed'| - 1] == log.pushed;
  }

  /** The ids logged as pushed come from push events. */
  lemma {:induction false} PushedIds<P>(max: nat, events: seq<Event<P>>, id: nat)
    requires id in Ids(Play(max, events).log.pushed)
    ensures exists i :: 0 <= i < |events| && events[i].Pushed? && events[i].m.reqId == id
  {
    if events != [] {
      var n := |events| - 1;
      var before, after := Play(max, events[..n]).log.pushed, Play(max, events).log.pushed;
      var i :| 0 <= i < |after| && after[i].reqId == id;
      if i < |before| {
        assert before[i] == after[i];
        PushedIds(max, events[..n], id);
        var j :| 0 <= j < n && events[..n][j].Pushed? && events[..n][j].m.reqId == id;
        assert events[j] == events[..n][j];
      } else {
        assert events[n].Pushed? && events[n].m.reqId == id;
      }
    }
  }

  lemma StillFresh<P>(max: nat, events: seq<Event<P>>)
    requires FreshPushes(events) && events != [] && events[|events| - 1].Pushed?
    ensures events[|events| - 1].m.reqId !in Ids(Play(max, events[..|events| - 1]).log.pushed)
  {
    var init, id := events[..|events| - 1], events[|events| - 1].m.reqId;
    assert forall i :: 0 <= i < |init| && init[i].Pushed? ==> events[i] == init[i];
    if id in Ids(Play(max, init).log.pushed) {
      PushedIds(max, init, id);
    }
  }

  /** After every run with fresh ids the queue's tables agree with the log. */
  lemma {:induction false} RunKeeps<P>(max: nat, events: seq<Event<P>>)
    requires FreshPushes(events)
    ensures Tracked(max, Play(max, events).q, Play(max, events).log)
  {
    if events != [] {
      var n := |events| - 1;
      var e, init := events[n], events[..n];
      RunKeeps(max, init);
      var r := Play(max, init);
      match e
      case Pushed(m) =>
        StillFresh(max, events);
        PushTracked(max, r.q, r.log, m);
      case Acked(id) => AckTracked(max, r.q, r.log, id);
      case Popped(now) => PopTracked(max, r.q, r.log, now);
    }
  }

  // ---------------------------------------------------------------- popping at one time ends

  ghost function DueIds<P>(q: Queue<P>, log: Log<P>, now: nat): set<nat> {
    set id | id in q.inflight && Due(log.sent, id, now)
  }

  /** What is left to send at time `now`. */
  ghost function Backlog<P>(q: Queue<P>, log: Log<P>, now: nat): nat {
    |DueIds(q, log, now)| + |q.queue|
  }

  lemma RetryShrinks<P>(q: Queue<P>, log: Log<P>, id: nat, now: nat, b: seq<Bucket>)
    requires id in q.inflight && Due(log.sent, id, now)
    ensures Backlog(q.(inflightTs := b), log.(sent := log.sent[id := now]), now) == Backlog(q, log, now) - 1
  {
    var due := DueIds(q, log, now);
    assert DueIds(q.(inflightTs := b), log.(sent := log.sent[id := now]), now) == due - {id};
    assert id in due;
  }

  lemma SendShrinks<P>(q: Queue<P>, q': Queue<P>, log: Log<P>, id: nat, now: nat)
    requires forall j :: j in q.inflight ==> !Due(log.sent, j, now)
    requires q'.inflight.Keys == q.inflight.Keys + {id}
    requires |q'.queue| == |q.queue| - 1
    ensures Backlog(q', log.(sent := log.sent[id := now]), now) == Backlog(q, log, now) - 1
  {
    assert DueIds(q, log, now) == {};
    assert DueIds(q', log.(sent := log.sent[id := now]), now) == {};
  }

  lemma PopShrinks<P>(max: nat, q: Queue<P>, log: Log<P>, now: nat)
    requires Tracked(max, q, log) && Pop(max, q, now).1.Some?
    ensures var (q', out) := Pop(max, q, now);
      Backlog(q', Observe(log, Popped(now), out), now) == Backlog(q, log, now) - 1
  {
    var (b, r) := PopRetry(q.inflightTs, q.inflight.Keys, now);
    if r.Some? {
      RetryPlaced(q.inflightTs, q.inflight.Keys, log.sent, now);
      RetryShrinks(q, log, r.value, now, AddSent(b, now, r.value));
      assert q.inflight[r.value].reqId == r.value;
    } else {
      NothingDue(max, q, log, now);
      MapPutKeys(q.inflight, q.queue[0].reqId, q.queue[0]);
      SendShrinks(q, Pop(max, q, now).0, log, q.queue[0].reqId, now);
    }
  }

  /** `pop` at time `now` takes the queue from `q` to `q'` and returns `m`. */
  ghost predicate Returns<P>(max: nat, q: Queue<P>, now: nat, m: Request<P>, q': Queue<P>) {
    ValidBuckets(q.inflightTs) && Pop(max, q, now) == (q', Some(m))
  }

  lemma PopOne<P>(max: nat, q: Queue<P>, log: Log<P>, now: nat, m: Request<P>, q': Queue<P>) returns (log': Log<P>)
    requires Tracked(max, q, log) && Returns(max, q, now, m, q')
    ensures Tracked(max, q', log')
    ensures Backlog(q', log', now) == Backlog(q, log, now) - 1
  {
    log' := Observe(log, Popped(now), Some(m));
    PopTracked(max, q, log, now);
    PopShrinks(max, q, log, now);
  }

  /** However often it is called, `pop` at one time returns no more messages than were due or waiting. */
  lemma {:induction false} DrainBound<P>(max: nat, qs: seq<Queue<P>>, ms: seq<Request<P>>, log: Log<P>, now: nat)
    requires |qs| == |ms| + 1 && Tracked(max, qs[0], log)
    requires forall i :: 0 <= i < |ms| ==> Returns(max, qs[i], now, ms[i], qs[i + 1])
    ensures |ms| <= Backlog(qs[0], log, now)
    decreases |ms|
  {
    if ms != [] {
      var log' := PopOne(max, qs[0], log, now, ms[0], qs[1]);
      DrainBound(max, qs[1..], ms[1..], log', now);
    }
  }

  // ---------------------------------------------------------------- what is sent after it was answered

  predicate Returned<P>(out: Option<Request<P>>, id: nat) {
    out.Some? && out.value.reqId == id
  }

  /** What the last event of a run returns. */
  function LastOut<P>(max: nat, events: seq<Event<P>>): Option<Request<P>>
    requires events != []
  {
    Step(max, Play(max, events[..|events| - 1]).q, events[|events| - 1]).1
  }

  /** The message is sent by some event after the first `n`. */
  predicate SentSince<P>(max: nat, events: seq<Event<P>>, n: nat, id: nat) {
    |events| > n && (SentSince(max, events[..|events| - 1], n, id) || Returned(LastOut(max, events), id))
  }

  /** What a pop does to the waiting and flying ids: it moves the one it returns. */
  lemma PopIds<P>(max: nat, q: Queue<P>, log: Log<P>, now: nat, id: nat)
    requires Tracked(max, q, log) && id !in q.inflight
    ensures var (q', out) := Pop(max, q, now);
      && (Returned(out, id) ==> id in Ids(q.queue))
      && (!Returned(out, id) ==> id !in q'.inflight && (id in Ids(q'.queue) <==> id in Ids(q.queue)))
  {
    PopSchedules(max, q, log, now);
    var (q', out) := Pop(max, q, now);
    if out.Some? && out.value.reqId !in q.inflight {
      assert out.value == q.queue[0];
      TailIds(q.queue);
    }
    if PopRetry(q.inflightTs, q.inflight.Keys, now).1.Some? {
      PopRetried(max, q, log, now);
    } else if q.queue != [] {
      TailIds(q.queue);
    }
  }

  lemma TailIds<P>(s: seq<Request<P>>)
    requires s != []
    ensures forall id :: id in Ids(s) <==> id == s[0].reqId || id in Ids(s[1..])
  {
    forall id | id in Ids(s)
      ensures id == s[0].reqId || id in Ids(s[1..])
    {
      var i :| 0 <= i < |s| && s[i].reqId == id;
      if i > 0 { assert s[1..][i - 1].reqId == id; }
    }
    forall id | id in Ids(s[1..])
      ensures id in Ids(s)
    {
      var i :| 0 <= i < |s[1..]| && s[1..][i].reqId == id;
      assert s[i + 1].reqId == id;
    }
  }

  lemma PushIds<P>(s: seq<Request<P>>, m: Request<P>, id: nat)
    requires id != m.reqId
    ensures id in Ids(s + [m]) <==> id in Ids(s)
  {
    var all := s + [m];
    if id in Ids(s) {
      var i :| 0 <= i < |s| && s[i].reqId == id;
      assert all[i].reqId == id;
    }
  }

  /** A pushed id that is not in flight is returned only if it waits, and waits until it is returned. */
  lemma StepIds<P>(max: nat, q: Queue<P>, log: Log<P>, e: Event<P>, id: nat)
    requires Tracked(max, q, log) && id !in q.inflight && (e.Pushed? ==> e.m.reqId != id)
    ensures var (q', out) := Step(max, q, e);
      && (Returned(out, id) ==> id in Ids(q.queue))
      && (!Returned(out, id) ==> id !in q'.inflight && (id in Ids(q'.queue) <==> id in Ids(q.queue)))
  {
    match e
    case Pushed(m) => PushIds(q.queue, m, id);
    case Acked(_) =>
    case Popped(now) => PopIds(max, q, log, now, id);
  }

  lemma {:induction false} PushedStays<P>(max: nat, events: seq<Event<P>>, n: nat, id: nat)
    requires n <= |events| && id in Ids(Play(max, events[..n]).log.pushed)
    ensures id in Ids(Play(max, events).log.pushed)
  {
    if n < |events| {
      var init := events[..|events| - 1];
      assert init[..n] == events[..n];
      PushedStays(max, init, n, id);
      var before, after := Play(max, init).log.pushed, Play(max, events).log.pushed;
      var i :| 0 <= i < |before| && before[i].reqId == id;
      assert after[i].reqId == id;
    } else {
      assert events[..n] == events;
    }
  }

  lemma FreshPrefix<P>(events: seq<Event<P>>, n: nat)
    requires FreshPushes(events) && n <= |events|
    ensures FreshPushes(events[..n])
  {
  }

  lemma NotPushedAgain<P>(max: nat, events: seq<Event<P>>, n: nat, id: nat)
    requires FreshPushes(events) && n < |events| && id in Ids(Play(max, events[..n]).log.pushed)
    ensures events[|events| - 1].Pushed? ==> events[|events| - 1].m.reqId != id
  {
    var init := events[..|events| - 1];
    assert init[..n] == events[..n];
    PushedStays(max, init, n, id);
    if events[|events| - 1].Pushed? { StillFresh(max, events); }
  }

  /** The last event of a run, for an id not in flight before it. */
  lemma LastEvent<P>(max: nat, events: seq<Event<P>>, id: nat)
    requires FreshPushes(events) && events != [] && (events[|events| - 1].Pushed? ==> events[|events| - 1].m.reqId != id)
    requires id !in Play(max, events[..|events| - 1]).q.inflight
    ensures var q, q' := Play(max, events[..|events| - 1]).q, Play(max, events).q;
      && (Returned(LastOut(max, events), id) ==> id in Ids(q.queue))
      && (!Returned(LastOut(max, events), id) ==> id !in q'.inflight && (id in Ids(q'.queue) <==> id in Ids(q.queue)))
  {
    var init, e := events[..|events| - 1], events[|events| - 1];
    FreshPrefix(events, |events| - 1);
    RunKeeps(max, init);
    StepIds(max, Play(max, init).q, Play(max, init).log, e, id);
  }

  /**
   A message that is not in flight, such as one just answered, is sent later only if it was still
   waiting; and if it was, it waits until it is sent.  So an answer stops a request exactly if it comes
   after the request was first sent.
   */
  lemma {:induction false} SentLaterIff<P>(max: nat, events: seq<Event<P>>, n: nat, id: nat)
    requires FreshPushes(events) && n <= |events|
    requires id in Ids(Play(max, events[..n]).log.pushed) && id !in Play(max, events[..n]).q.inflight
    ensures SentSince(max, events, n, id) ==> id in Ids(Play(max, events[..n]).q.queue)
    ensures !SentSince(max, events, n, id) ==>
      && id !in Play(max, events).q.inflight
      && (id in Ids(Play(max, events).q.queue) <==> id in Ids(Play(max, events[..n]).q.queue))
  {
    if n == |events| {
      assert events[..n] == events;
    } else {
      var init := events[..|events| - 1];
      assert init[..n] == events[..n];
      FreshPrefix(events, |events| - 1);
      SentLaterIff(max, init, n, id);
      if !SentSince(max, init, n, id) {
        NotPushedAgain(max, events, n, id);
        LastEvent(max, events, id);
      }
    }
  }
}
