/**
 The connector agent's send queue: a bounded window of messages in flight, each re-sent every
 second until it is acknowledged (packages/media_connector/src/msg_queue.rs).

 A `Log` records what an observer sees of a run: what was pushed, when each message was last sent
 and which were acknowledged.  `RunKeeps` ties the queue's four tables to that log after every run;
 `PopSchedules` then says which message each `pop` must return, and `DrainBound` that popping at
 one time ends.
 */
module MsgQueue {
  import opened Options

  const RESEND_AFTER_MS: nat := 1000

  datatype Request<P> = Request(reqId: nat, ts: nat, payload: P)

  /** The ids sent at one time, in the order they were sent. */
  datatype Bucket = Bucket(at: nat, ids: seq<nat>)

  /** `inflightTs` is an ordered map: buckets in increasing order of time. */
  datatype Queue<P> = Queue(
    inflightTs: seq<Bucket>,
    inflight: map<nat, Request<P>>,
    queue: seq<Request<P>>,
    acked: nat)

  ghost predicate ValidBuckets(b: seq<Bucket>) {
    && (forall i, j :: 0 <= i < j < |b| ==> b[i].at < b[j].at)
    && (forall i :: 0 <= i < |b| ==> b[i].ids != [])
  }

  /** Append an id to the bucket of time `now`, creating it in place if it is missing. */
  function AddSent(b: seq<Bucket>, now: nat, id: nat): seq<Bucket> {
    if b == [] || now < b[0].at then [Bucket(now, [id])] + b
    else if b[0].at == now then [Bucket(now, b[0].ids + [id])] + b[1..]
    else [b[0]] + AddSent(b[1..], now, id)
  }

  /** Take the last id off the first bucket, and the bucket too if that empties it. */
  function DropLast(b: seq<Bucket>): seq<Bucket>
    requires b != [] && b[0].ids != []
  {
    var ids := b[0].ids;
    if |ids| == 1 then b[1..] else [Bucket(b[0].at, ids[..|ids| - 1])] + b[1..]
  }

  ghost function Size(b: seq<Bucket>): nat {
    if b == [] then 0 else |b[0].ids| + Size(b[1..])
  }

  lemma DropLastSmaller(b: seq<Bucket>)
    requires b != [] && ValidBuckets(b)
    ensures Size(DropLast(b)) < Size(b) && ValidBuckets(DropLast(b))
  {
    var d := DropLast(b);
    if |b[0].ids| > 1 {
      assert d[1..] == b[1..];
    }
  }

  /** Discard ids of the expired buckets until one is found that is still in flight. */
  function PopRetry(b: seq<Bucket>, live: set<nat>, now: nat): (r: (seq<Bucket>, Option<nat>))
    requires ValidBuckets(b)
    ensures r.1.Some? ==> r.1.value in live
    decreases Size(b)
  {
    if b == [] || b[0].at + RESEND_AFTER_MS > now then (b, None)
    else
      var id := b[0].ids[|b[0].ids| - 1];
      DropLastSmaller(b);
      if id in live then (DropLast(b), Some(id)) else PopRetry(DropLast(b), live, now)
  }

  function Push<P>(q: Queue<P>, m: Request<P>): Queue<P> {
    q.(queue := q.queue + [m])
  }

  function OnAck<P>(q: Queue<P>, id: nat): Queue<P> {
    if id in q.inflight then q.(inflight := q.inflight - {id}, acked := q.acked + 1) else q
  }

  function Pop<P>(max: nat, q: Queue<P>, now: nat): (Queue<P>, Option<Request<P>>)
    requires ValidBuckets(q.inflightTs)
  {
    var (buckets, retry) := PopRetry(q.inflightTs, q.inflight.Keys, now);
    if retry.Some? then
      (q.(inflightTs := AddSent(buckets, now, retry.value)), Some(q.inflight[retry.value]))
    else if |q.inflight| < max && q.queue != [] then
      var m := q.queue[0];
      (q.(inflightTs := AddSent(buckets, now, m.reqId), inflight := q.inflight[m.reqId := m], queue := q.queue[1..]), Some(m))
    else
      (q.(inflightTs := buckets), None)
  }

  class MessageQueue<P> {
    const maxInflight: nat
    var inflightTs: seq<Bucket>
    var inflight: map<nat, Request<P>>
    var queue: seq<Request<P>>
    var acked: nat

    ghost function View(): Queue<P>
      reads this
    {
      Queue(inflightTs, inflight, queue, acked)
    }

    /** No bucket is empty and they are in order of time, so neither `expect` of the source can fail. */
    ghost predicate Valid()
      reads this
    {
      ValidBuckets(inflightTs)
    }

    constructor (maxInflight: nat)
      ensures Valid() && View() == Queue([], map[], [], 0) && this.maxInflight == maxInflight
    {
      this.maxInflight := maxInflight;
      inflightTs, inflight, queue, acked := [], map[], [], 0;
    }

    method PushBack(m: Request<P>)
      requires Valid()
      modifies this
      ensures Valid() && View() == Push(old(View()), m)
    {
      queue := queue + [m];
    }

    method Ack(id: nat)
      requires Valid()
      modifies this
      ensures Valid() && View() == OnAck(old(View()), id)
    {
      if id in inflight {
        inflight := inflight - {id};
        acked := acked + 1;
      }
    }

    method PopRetryMsgId(now: nat) returns (r: Option<nat>)
      requires Valid()
      modifies this`inflightTs
      ensures Valid()
      ensures (inflightTs, r) == PopRetry(old(inflightTs), inflight.Keys, now)
    {
      while true
        invariant Valid()
        invariant PopRetry(inflightTs, inflight.Keys, now) == PopRetry(old(inflightTs), inflight.Keys, now)
        decreases Size(inflightTs)
      {
        if inflightTs == [] {
          return None;
        }
        var entry := inflightTs[0];
        if entry.at + RESEND_AFTER_MS <= now {
          var id := entry.ids[|entry.ids| - 1];
          DropLastSmaller(inflightTs);
          if |entry.ids| == 1 {
            inflightTs := inflightTs[1..];
          } else {
            inflightTs := [Bucket(entry.at, entry.ids[..|entry.ids| - 1])] + inflightTs[1..];
          }
          if id in inflight {
            return Some(id);
          }
        } else {
          return None;
        }
      }
    }

    method PopNext(now: nat) returns (r: Option<Request<P>>)
      requires Valid()
      modifies this
      ensures Valid() && (View(), r) == Pop(maxInflight, old(View()), now)
    {
      var retry := PopRetryMsgId(now);
      if retry.Some? {
        AddSentValid(inflightTs, now, retry.value);
        inflightTs := AddSent(inflightTs, now, retry.value);
        return Some(inflight[retry.value]);
      }
      if |inflight| < maxInflight {
        if queue == [] {
          return None;
        }
        var m := queue[0];
        queue := queue[1..];
        AddSentValid(inflightTs, now, m.reqId);
        inflightTs := AddSent(inflightTs, now, m.reqId);
        inflight := inflight[m.reqId := m];
        return Some(m);
      } else {
        return None;
      }
    }
  }

  // ---------------------------------------------------------------- what the buckets hold

  /** Every (time, id) pair in the buckets. */
  ghost function Sends(b: seq<Bucket>): multiset<(nat, nat)> {
    if b == [] then multiset{} else Tagged(b[0].at, b[0].ids) + Sends(b[1..])
  }

  ghost function Tagged(at: nat, ids: seq<nat>): multiset<(nat, nat)> {
    if ids == [] then multiset{} else Tagged(at, ids[..|ids| - 1]) + multiset{(at, ids[|ids| - 1])}
  }

  lemma {:induction false} TaggedAt(at: nat, ids: seq<nat>)
    ensures forall p :: p in Tagged(at, ids) ==> p.0 == at
  {
    if ids != [] {
      TaggedAt(at, ids[..|ids| - 1]);
    }
  }

  lemma {:induction false} AddSentValid(b: seq<Bucket>, now: nat, id: nat)
    requires ValidBuckets(b)
    ensures ValidBuckets(AddSent(b, now, id))
    ensures forall i :: 0 <= i < |AddSent(b, now, id)| ==> AddSent(b, now, id)[i].at >= now || (b != [] && AddSent(b, now, id)[i].at >= b[0].at)
  {
    if !(b == [] || now <= b[0].at) {
      AddSentValid(b[1..], now, id);
      var rest := AddSent(b[1..], now, id);
      assert b[1..] != [] ==> b[1..][0] == b[1];
      assert AddSent(b, now, id)[1..] == rest;
    }
  }

  lemma {:induction false} AddSentSends(b: seq<Bucket>, now: nat, id: nat)
    ensures Sends(AddSent(b, now, id)) == Sends(b) + multiset{(now, id)}
  {
    var r := AddSent(b, now, id);
    if b == [] || now < b[0].at {
      assert r[1..] == b && [id][..0] == [];
      assert Tagged(now, [id]) == multiset{(now, id)};
    } else if b[0].at == now {
      assert r[1..] == b[1..] && (b[0].ids + [id])[..|b[0].ids|] == b[0].ids;
    } else {
      AddSentSends(b[1..], now, id);
      assert r[1..] == AddSent(b[1..], now, id);
    }
  }

  lemma DropLastSends(b: seq<Bucket>)
    requires b != [] && ValidBuckets(b)
    ensures Sends(b) == Sends(DropLast(b)) + multiset{(b[0].at, b[0].ids[|b[0].ids| - 1])}
  {
    var ids, d := b[0].ids, DropLast(b);
    if |ids| == 1 {
      assert Tagged(b[0].at, ids[..0]) == multiset{};
    } else {
      assert d[1..] == b[1..];
    }
  }

  lemma {:induction false} FirstIsEarliest(b: seq<Bucket>, p: (nat, nat))
    requires ValidBuckets(b) && p in Sends(b)
    ensures b != [] && b[0].at <= p.0
  {
    TaggedAt(b[0].at, b[0].ids);
    if p in Sends(b[1..]) {
      FirstIsEarliest(b[1..], p);
    }
  }

  /** `rest` is what is left of `all` after losing only pairs of ids that are no longer in flight. */
  ghost predicate KeepsLive(all: multiset<(nat, nat)>, rest: multiset<(nat, nat)>, live: set<nat>) {
    && rest <= all
    && forall p :: p in all && p.1 in live ==> rest[p] == all[p]
  }

  /** Which id a retry finds: one of those sent longest ago, at time `t`, and due; or none is due. */
  lemma {:induction false} RetryFinds(b: seq<Bucket>, live: set<nat>, now: nat) returns (t: nat)
    requires ValidBuckets(b)
    ensures ValidBuckets(PopRetry(b, live, now).0)
    ensures var (b', r) := PopRetry(b, live, now);
      match r
      case None =>
        && KeepsLive(Sends(b), Sends(b'), live)
        && forall p :: p in Sends(b) && p.1 in live ==> p.0 + RESEND_AFTER_MS > now
      case Some(id) =>
        && t + RESEND_AFTER_MS <= now && (t, id) in Sends(b)
        && KeepsLive(Sends(b), Sends(b') + multiset{(t, id)}, live)
        && forall p :: p in Sends(b) && p.1 in live ==> t <= p.0
    decreases Size(b)
  {
    forall p | p in Sends(b) ensures b != [] && b[0].at <= p.0 {
      FirstIsEarliest(b, p);
    }
    t := 0;
    if b != [] && b[0].at + RESEND_AFTER_MS <= now {
      var id := b[0].ids[|b[0].ids| - 1];
      DropLastSmaller(b);
      DropLastSends(b);
      if id in live {
        t := b[0].at;
      } else {
        t := RetryFinds(DropLast(b), live, now);
        DropDead(Sends(b), Sends(DropLast(b)), (b[0].at, id), live);
      }
    }
  }

  /** Losing the pair of an id that is no longer in flight loses nothing that matters. */
  lemma DropDead(all: multiset<(nat, nat)>, some: multiset<(nat, nat)>, p: (nat, nat), live: set<nat>)
    requires all == some + multiset{p} && p.1 !in live
    ensures forall rest :: KeepsLive(some, rest, live) ==> KeepsLive(all, rest, live)
    ensures forall q :: q in all && q.1 in live ==> q in some
  {
  }
}
