/**
 In-order streams: the rewriter refines a counter that never wraps.

 The reference `Counter` works on unbounded numbers and keeps no set of drops, no base and no
 cycle count: every forwarded input advances the last output by the distance travelled since the
 last forwarded input, less the drops on the way, plus any offset.  `RefinesCounter` says the
 rewriter outputs exactly that number modulo `max`, over any run with any number of wraps,
 truncations of the drop set and splices.

 Inputs may repeat: all packets of a frame carry one picture id.  A repeated input changes nothing,
 except that a dropped input on which the numbers wrapped is not recognised when it comes again: it
 is counted as one more drop, or forwarded.  `RepeatIff` says exactly when the outputs suffer.
 */
module SeqRewriteInOrder {
  import opened Options
  import opened ModularArithmetic
  import opened SeqRewrite
  import opened Sequences

  /**
   `last`: last output of the stream; `kept`: the output a splice continues from; `pending`: advance
   owed to the next output; `prev`: last input of the current stream, if it has begun; `gen`: last
   forwarded input (or the one before the stream).
   */
  datatype Counter = Counter(last: int, kept: int, pending: int, prev: Option<int>, gen: int)

  function Begin(c: Counter, t: int): Counter {
    if c.prev.None? then c.(prev := Some(t - 1), gen := t - 1) else c
  }

  /** An output is kept unless it is half a cycle or more ahead of the one kept before. */
  function KeepOutput(max: nat, kept: int, out: int): int
    requires max > 0
  {
    if (out - kept) % max < max / 2 then out else kept
  }

  /** The numbers have wrapped since the last forwarded input. */
  predicate Wrapped(max: nat, c: Counter)
    requires max > 0
  {
    c.prev.Some? && c.gen % max + (c.prev.value - c.gen) >= max
  }

  /** The input is the one just dropped. */
  predicate DropAgain(c: Counter, t: int) {
    c.prev == Some(t) && c.gen < t
  }

  /** The input is the one just dropped, and is recognised. */
  predicate Known(max: nat, c: Counter, t: int)
    requires max > 0
  {
    DropAgain(c, t) && !Wrapped(max, c)
  }

  function Count(max: nat, c: Counter, call: Call): (Counter, Option<int>)
    requires max > 0
  {
    match call
    case Reinit => (if c.prev.None? then c else c.(last := c.kept, pending := 0, prev := None), None)
    case Offset(offset) => (c.(pending := c.pending + offset), None)
    case Drop(t) =>
      var b := Begin(c, t);
      if Known(max, b, t) || t == b.gen then (b, None)
      else (b.(pending := b.pending + t - b.prev.value - 1, prev := Some(t)), None)
    case Forward(t) =>
      var b := Begin(c, t);
      if Known(max, b, t) then (b, None)
      else
        var out := b.last + b.pending + t - b.prev.value;
        (Counter(out, KeepOutput(max, c.kept, out), 0, Some(t), t), Some(out))
  }

  /** Inputs come in order, each less than half a cycle ahead of the last forwarded one; they may repeat. */
  predicate Legal(max: nat, c: Counter, call: Call) {
    match call
    case Reinit => true
    case Offset(_) => true
    case Drop(t) => var b := Begin(c, t); b.prev.value <= t < b.gen + max / 2
    case Forward(t) => var b := Begin(c, t); b.prev.value <= t < b.gen + max / 2
  }

  function CountAll(max: nat, c: Counter, calls: seq<Call>): Counter
    requires max > 0
  {
    if calls == [] then c else Count(max, CountAll(max, c, calls[..|calls| - 1]), calls[|calls| - 1]).0
  }

  /** What the counter owes for the `i`-th call. */
  function OutAt(max: nat, c: Counter, calls: seq<Call>, i: nat): Option<int>
    requires max > 0 && i < |calls|
  {
    Count(max, CountAll(max, c, calls[..i]), calls[i]).1
  }

  ghost predicate LegalRun(max: nat, c: Counter, calls: seq<Call>)
    requires max > 0
  {
    forall i: nat :: i < |calls| ==> LegalAt(max, c, calls, i)
  }

  predicate LegalAt(max: nat, c: Counter, calls: seq<Call>, i: nat)
    requires max > 0 && i < |calls|
  {
    Legal(max, CountAll(max, c, calls[..i]), calls[i])
  }

  lemma LegalPrefix(max: nat, c: Counter, calls: seq<Call>, n: nat)
    requires max > 0 && n <= |calls| && LegalRun(max, c, calls)
    ensures LegalRun(max, c, calls[..n])
  {
    forall i: nat | i < n
      ensures LegalAt(max, c, calls[..n], i)
    {
      assert LegalAt(max, c, calls, i);
      assert calls[..n][..i] == calls[..i];
    }
  }

  // ---------------------------------------------------------------- the refinement relation

  function PendingOffset(s: State): nat {
    if s.reinitOffset.Some? then s.reinitOffset.value else 0
  }

  /** The next output for an input `t` will be `t + base - |dropped|`, which must be what the counter owes. */
  ghost predicate Refines(max: nat, s: State, c: Counter) {
    && Valid(max, s)
    && s.maxOutput == c.kept % max
    && s.reinit == c.prev.None?
    && (s.reinit ==> c.pending == PendingOffset(s) && c.last == c.kept)
    && (!s.reinit ==>
          && s.reinitOffset.None?
          && s.maxInput == c.gen % max
          && c.gen <= c.prev.value < c.gen + max / 2
          && Cong(max, s.base - |s.dropped|, c.last + c.pending - c.prev.value)
          && DropsBehind(max, s, c.gen, c.prev.value)
          && (c.gen < c.prev.value && !Wrapped(max, c) ==> s.seqDelta + s.maxInput + (c.prev.value - c.gen) in s.dropped))
  }

  /** Every recorded drop is below the extended number of any later input, and of the last one if that was forwarded. */
  ghost predicate DropsBehind(max: nat, s: State, gen: int, prev: int)
    requires max > 0
  {
    forall d :: d in s.dropped ==>
      if prev == gen then d < s.seqDelta + s.maxInput
      else if s.maxInput + (prev - gen) < max then d <= s.seqDelta + s.maxInput + (prev - gen)
      else d < s.seqDelta + max
  }

  /** Synchronising just below an input makes its output follow the last one. */
  lemma SyncBase(max: nat, last: int, t: nat)
    requires max > 1
    ensures var value := WrappingSub(max, t % max, 1);
      value == (t - 1) % max && Cong(max, WrappingSub(max, last % max, value), last - (t - 1))
  {
    var value := WrappingSub(max, t % max, 1);
    ModCong(max, t);
    CongIntro(max, value, t % max - 1, if t % max >= 1 then 0 else 1);
    CongRefl(max, 1);
    CongSum(max, t % max, t, 1, 1);
    CongTrans(max, value, t % max - 1, t - 1);
    CongMod(max, value, t - 1);
    SyncedBase(max, last, value, t - 1);
  }

  lemma SyncedBase(max: nat, last: int, value: nat, before: int)
    requires value < max && Cong(max, value, before)
    ensures Cong(max, WrappingSub(max, last % max, value), last - before)
  {
    var out := last % max;
    ModCong(max, last);
    var base := WrappingSub(max, out, value);
    CongIntro(max, base, out - value, if out >= value then 0 else 1);
    CongSum(max, out, last, value, before);
    CongTrans(max, base, out - value, last - before);
  }

  lemma OffsetBase(max: nat, base: int, net: int, offset: int)
    requires max > 0 && Cong(max, base, net)
    ensures Cong(max, (base + offset) % max, net + offset)
  {
    CongRefl(max, offset);
    CongSum(max, base, net, offset, offset);
    ModCong(max, base + offset);
    CongTrans(max, (base + offset) % max, base + offset, net + offset);
  }

  lemma SettleRefines(max: nat, s: State, c: Counter, t: nat)
    requires Refines(max, s, c)
    ensures Refines(max, Settle(max, s, t % max), Begin(c, t))
    ensures !Settle(max, s, t % max).reinit
  {
    if s.reinit {
      SyncBase(max, c.last, t);
      var base := WrappingSub(max, s.maxOutput, WrappingSub(max, t % max, 1));
      OffsetBase(max, base, c.last - (t - 1), c.pending);
      assert c.last - (t - 1) + c.pending == c.last + c.pending - (t - 1);
    }
  }

  /** The extended number of the next input, and that no recorded drop reaches it. */
  lemma ExtendedIsAbove(max: nat, s: State, c: Counter, t: nat)
    requires Refines(max, s, c) && !s.reinit
    requires c.prev.value <= t < c.gen + max / 2 && !Known(max, c, t)
    ensures var delta := ExtendedDelta(max, s, t % max);
      && (forall d :: d in s.dropped ==> d < delta + t % max)
      && delta == (if s.maxInput + (t - c.gen) < max then s.seqDelta else s.seqDelta + max)
    ensures t > c.gen ==> IsSeqHigherThan(max, t % max, s.maxInput)
    ensures WrappingSub(max, t % max, s.maxInput) == t - c.gen
  {
    ModAhead(max, c.gen, t);
  }

  /** An input just dropped is found again, unless the numbers have wrapped. */
  lemma KnownIsDropped(max: nat, s: State, c: Counter, t: nat)
    requires Refines(max, s, c) && !s.reinit && t < c.gen + max / 2 && Known(max, c, t)
    ensures ExtendedDelta(max, s, t % max) == s.seqDelta && s.seqDelta + t % max in s.dropped
    ensures IsSeqHigherThan(max, t % max, s.maxInput)
  {
    ModAhead(max, c.gen, t);
  }

  lemma AllBelow(s: seq<nat>, x: nat)
    requires Increasing(s) && forall d :: d in s ==> d < x
    ensures CountBelow(s, x) == |s| && x !in s
  {
    assert forall i :: 0 <= i < |s| ==> s[i] in s;
  }

  /** Folding the oldest drop into the base changes no later output. */
  lemma TruncateKeepsNet(max: nat, s: State)
    requires Valid(max, s.(dropped := [])) && |s.dropped| <= DROPPED_LIMIT + 1 && Increasing(s.dropped)
    ensures var r := Truncate(max, s);
      && Cong(max, r.base - |r.dropped|, s.base - |s.dropped|)
      && r == s.(base := r.base, dropped := r.dropped)
      && (forall d :: d in r.dropped ==> d in s.dropped)
      && (forall x :: x in s.dropped && (forall d :: d in s.dropped ==> d <= x) ==> x in r.dropped)
  {
    var r := Truncate(max, s);
    forall x | x in s.dropped && (forall d :: d in s.dropped ==> d <= x)
      ensures x in r.dropped
    {
      if |s.dropped| > DROPPED_LIMIT {
        assert s.dropped[0] < s.dropped[1] && s.dropped[1] in s.dropped;
        var i :| 0 <= i < |s.dropped| && s.dropped[i] == x;
        assert r.dropped[i - 1] == x;
      }
    }
    CongIntro(max, r.base - |r.dropped|, s.base - |s.dropped|,
              if |s.dropped| > DROPPED_LIMIT && s.base < |s.dropped| - DROPPED_LIMIT then 1 else 0);
  }

  /** The input is recorded: one more drop, above all the others. */
  lemma MarkRefines(max: nat, s: State, c: Counter, t: nat)
    requires Refines(max, s, c) && !s.reinit
    requires c.prev.value <= t < c.gen + max / 2 && c.gen < t && !Known(max, c, t)
    ensures var x := ExtendedDelta(max, s, t % max) + t % max;
      var r := Mark(max, Arrive(max, s, t % max), t % max);
      && r == s.(seqDelta := r.seqDelta, dropped := r.dropped)
      && r.seqDelta == ExtendedDelta(max, s, t % max)
      && |r.dropped| == |s.dropped| + 1
      && x in r.dropped && (forall d :: d in r.dropped ==> d <= x)
  {
    ExtendedIsAbove(max, s, c, t);
    AllBelow(s.dropped, ExtendedDelta(max, s, t % max) + t % max);
  }

  lemma OneLess(max: nat, after: int, before: int, goal: int)
    requires max > 0 && Cong(max, before, goal) && Cong(max, after, before - 1)
    ensures Cong(max, after, goal - 1)
  {
    CongRefl(max, 1);
    CongSum(max, before, goal, 1, 1);
    CongTrans(max, after, before - 1, goal - 1);
  }

  /** The drop just recorded is the highest, and is found again unless the numbers have wrapped. */
  lemma NewDropBehind(max: nat, s: State, c: Counter, t: nat, r: State)
    requires Refines(max, s, c) && !s.reinit
    requires c.prev.value <= t < c.gen + max / 2 && c.gen < t && !Known(max, c, t)
    requires r.maxInput == s.maxInput && r.seqDelta == ExtendedDelta(max, s, t % max)
    requires r.seqDelta + t % max in r.dropped && forall d :: d in r.dropped ==> d <= r.seqDelta + t % max
    ensures DropsBehind(max, r, c.gen, t)
    ensures c.gen % max + (t - c.gen) < max ==> r.seqDelta + r.maxInput + (t - c.gen) in r.dropped
  {
    ExtendedIsAbove(max, s, c, t);
    ModAhead(max, c.gen, t);
  }

  /** The state after a new drop. */
  lemma NewDropState(max: nat, s: State, c: Counter, t: nat)
    requires Refines(max, s, c) && !s.reinit
    requires c.prev.value <= t < c.gen + max / 2 && c.gen < t && !Known(max, c, t)
    ensures var r := DropValue(max, s, t % max);
      && r == s.(base := r.base, seqDelta := ExtendedDelta(max, s, t % max), dropped := r.dropped)
      && Cong(max, r.base - |r.dropped|, s.base - |s.dropped| - 1)
      && r.seqDelta + t % max in r.dropped && (forall d :: d in r.dropped ==> d <= r.seqDelta + t % max)
  {
    MarkRefines(max, s, c, t);
    var m := Mark(max, Arrive(max, s, t % max), t % max);
    TruncateKeepsNet(max, m);
    assert m.base - |m.dropped| == s.base - |s.dropped| - 1;
  }

  lemma NewDropRefines(max: nat, s: State, c: Counter, t: nat)
    requires Refines(max, s, c) && !s.reinit && Legal(max, c, Drop(t)) && c.gen < t && !Known(max, c, t)
    ensures Refines(max, DropValue(max, s, t % max), Count(max, c, Drop(t)).0)
  {
    NewDropState(max, s, c, t);
    var r := DropValue(max, s, t % max);
    NewDropBehind(max, s, c, t, r);
    var goal := c.last + c.pending - c.prev.value;
    OneLess(max, r.base - |r.dropped|, s.base - |s.dropped|, goal);
    assert goal - 1 == c.last + (c.pending + t - c.prev.value - 1) - t;
  }

  /** Dropping again what was forwarded or is known as dropped changes nothing. */
  lemma OldDropSame(max: nat, s: State, c: Counter, t: nat)
    requires Refines(max, s, c) && !s.reinit && Legal(max, c, Drop(t)) && (t == c.gen || Known(max, c, t))
    ensures DropValue(max, s, t % max) == s
  {
    if t == c.gen {
      assert Arrive(max, s, t % max) == s;
    } else {
      KnownIsDropped(max, s, c, t);
      assert Arrive(max, s, t % max) == s;
      assert Mark(max, s, t % max) == s;
    }
  }

  lemma DropRefines(max: nat, s: State, c: Counter, t: nat)
    requires Refines(max, s, c) && !s.reinit && Legal(max, c, Drop(t))
    ensures Refines(max, DropValue(max, s, t % max), Count(max, c, Drop(t)).0)
  {
    if t == c.gen || Known(max, c, t) {
      OldDropSame(max, s, c, t);
    } else {
      NewDropRefines(max, s, c, t);
    }
  }

  /** The output the counter owes. */
  lemma ShiftedOwed(max: nat, s: State, net: int, t: nat)
    requires Valid(max, s) && Cong(max, s.base - |s.dropped|, net)
    requires CountBelow(s.dropped, s.seqDelta + t % max) == |s.dropped|
    ensures Shifted(max, s, t % max) == (net + t) % max
  {
    var n := |s.dropped|;
    var shifted := WrappingSub(max, s.base, n);
    CongIntro(max, shifted, s.base - n, if s.base >= n then 0 else 1);
    CongTrans(max, shifted, s.base - n, net);
    ModCong(max, t);
    CongSum(max, t % max, t, shifted, net);
    ModCong(max, t % max + shifted);
    CongTrans(max, (t % max + shifted) % max, t % max + shifted, t + net);
    CongMod(max, (t % max + shifted) % max, net + t);
  }

  /** Distances between remainders are remainders of distances. */
  lemma WrappedDistance(max: nat, a: int, b: int)
    requires max > 0
    ensures WrappingSub(max, a % max, b % max) == (a - b) % max
  {
    var x, y := a % max, b % max;
    ModCong(max, a);
    ModCong(max, b);
    var d := WrappingSub(max, x, y);
    CongIntro(max, d, x - y, if x >= y then 0 else 1);
    CongSum(max, x, a, y, b);
    CongTrans(max, d, x - y, a - b);
    CongMod(max, d, a - b);
  }

  /** The output of the next forwarded input is the one the counter owes. */
  lemma ForwardOutput(max: nat, s: State, c: Counter, t: nat)
    requires Refines(max, s, c) && !s.reinit && Legal(max, c, Forward(t)) && !Known(max, c, t)
    ensures var out := c.last + c.pending + t - c.prev.value;
      var a := s.(seqDelta := ExtendedDelta(max, s, t % max));
      Generate(max, s, t % max) == (Keep(max, a, t % max, out % max), Some(out % max))
  {
    ExtendedIsAbove(max, s, c, t);
    var a := Arrive(max, s, t % max);
    AllBelow(s.dropped, a.seqDelta + t % max);
    ShiftedOwed(max, a, c.last + c.pending - c.prev.value, t);
    assert c.last + c.pending - c.prev.value + t == c.last + c.pending + t - c.prev.value;
  }

  /** Of the outputs, the rewriter keeps the ones that the counter keeps. */
  lemma KeepRefines(max: nat, s: State, c: Counter, t: nat, out: int)
    requires Valid(max, s) && s.maxOutput == c.kept % max && WrappingSub(max, t % max, s.maxInput) < max / 2
    ensures Keep(max, s, t % max, out % max)
         == s.(maxInput := t % max, maxOutput := KeepOutput(max, c.kept, out) % max)
  {
    WrappedDistance(max, out, c.kept);
  }

  lemma NewForwardRefines(max: nat, s: State, c: Counter, t: nat)
    requires Refines(max, s, c) && !s.reinit && Legal(max, c, Forward(t)) && !Known(max, c, t)
    ensures Refines(max, Generate(max, s, t % max).0, Count(max, c, Forward(t)).0)
    ensures Generate(max, s, t % max).1 == Some(Count(max, c, Forward(t)).1.value % max)
  {
    ForwardOutput(max, s, c, t);
    ExtendedIsAbove(max, s, c, t);
    var out := c.last + c.pending + t - c.prev.value;
    var a := s.(seqDelta := ExtendedDelta(max, s, t % max));
    KeepRefines(max, a, c, t, out);
    assert c.last + c.pending - c.prev.value == out + 0 - t;
  }

  /** The counter's output modulo `max`. */
  function Owed(max: nat, out: Option<int>): Option<nat>
    requires max > 0
  {
    if out.Some? then Some(out.value % max) else None
  }

  lemma ForwardRefines(max: nat, s: State, c: Counter, t: nat)
    requires Refines(max, s, c) && !s.reinit && Legal(max, c, Forward(t))
    ensures Refines(max, Generate(max, s, t % max).0, Count(max, c, Forward(t)).0)
    ensures Generate(max, s, t % max).1 == Owed(max, Count(max, c, Forward(t)).1)
  {
    if Known(max, c, t) {
      KnownIsDropped(max, s, c, t);
      assert Arrive(max, s, t % max) == s;
    } else {
      NewForwardRefines(max, s, c, t);
    }
  }

  lemma OffsetRefines(max: nat, s: State, c: Counter, offset: nat)
    requires Refines(max, s, c)
    ensures Refines(max, AddOffset(max, s, offset), Count(max, c, Offset(offset)).0)
  {
    if !s.reinit {
      ModCong(max, s.base + offset);
      var goal := c.last + c.pending - c.prev.value;
      CongRefl(max, offset);
      CongRefl(max, |s.dropped|);
      CongSum(max, s.base - |s.dropped|, goal, offset, offset);
      CongSum(max, (s.base + offset) % max, s.base + offset, |s.dropped|, |s.dropped|);
      CongTrans(max, (s.base + offset) % max - |s.dropped|, s.base - |s.dropped| + offset, goal + offset);
    }
  }

  lemma SettledFirst(max: nat, s: State, input: nat)
    requires Valid(max, s) && input < max
    ensures DropValue(max, s, input) == DropValue(max, Settle(max, s, input), input)
    ensures Generate(max, s, input) == Generate(max, Settle(max, s, input), input)
  {
  }

  lemma BegunFirst(max: nat, c: Counter, call: Call)
    requires max > 0 && (call.Drop? || call.Forward?)
    ensures Count(max, c, call) == Count(max, Begin(c, call.t), call)
    ensures Legal(max, c, call) == Legal(max, Begin(c, call.t), call)
  {
  }

  lemma ApplyRefines(max: nat, s: State, c: Counter, call: Call)
    requires Refines(max, s, c) && Legal(max, c, call)
    ensures Refines(max, Apply(max, s, call).0, Count(max, c, call).0)
    ensures Apply(max, s, call).1 == Owed(max, Count(max, c, call).1)
  {
    match call
    case Reinit =>
    case Offset(offset) => OffsetRefines(max, s, c, offset);
    case Drop(t) =>
      SettledFirst(max, s, t % max);
      BegunFirst(max, c, call);
      SettleRefines(max, s, c, t);
      DropRefines(max, Settle(max, s, t % max), Begin(c, t), t);
    case Forward(t) =>
      SettledFirst(max, s, t % max);
      BegunFirst(max, c, call);
      SettleRefines(max, s, c, t);
      ForwardRefines(max, Settle(max, s, t % max), Begin(c, t), t);
  }

  lemma {:induction false} RunRefines(max: nat, s: State, c: Counter, calls: seq<Call>)
    requires Refines(max, s, c) && LegalRun(max, c, calls)
    ensures Refines(max, After(max, s, calls), CountAll(max, c, calls))
  {
    if calls != [] {
      var init := calls[..|calls| - 1];
      LegalPrefix(max, c, calls, |init|);
      assert LegalAt(max, c, calls, |init|);
      RunRefines(max, s, c, init);
      ApplyRefines(max, After(max, s, init), CountAll(max, c, init), calls[|init|]);
    }
  }

  /** The counter a freshly reinitialised rewriter starts from. */
  function Start(s: State): Counter {
    Counter(s.maxOutput, s.maxOutput, PendingOffset(s), None, 0)
  }

  /** Every output of every in-order run is the counter's output modulo `max`. */
  lemma RefinesCounter(max: nat, s: State, calls: seq<Call>, i: nat)
    requires Valid(max, s) && s.reinit
    requires LegalRun(max, Start(s), calls) && i < |calls|
    ensures Output(max, s, calls, i) == Owed(max, OutAt(max, Start(s), calls, i))
  {
    SmallMod(max, s.maxOutput);
    assert Refines(max, s, Start(s));
    var init := calls[..i];
    LegalPrefix(max, Start(s), calls, i);
    assert LegalAt(max, Start(s), calls, i);
    RunRefines(max, s, Start(s), init);
    ApplyRefines(max, After(max, s, init), CountAll(max, Start(s), init), calls[i]);
  }

  // ---------------------------------------------------------------- what the counter means

  /** The drop is counted: it is neither of a forwarded input nor of one known as dropped. */
  predicate Counts(max: nat, c: Counter, call: Call)
    requires max > 0
  {
    call.Drop? && var b := Begin(c, call.t); !Known(max, b, call.t) && call.t != b.gen
  }

  /** The drops counted by the calls from `from` on. */
  function Drops(max: nat, c: Counter, calls: seq<Call>, from: nat): nat
    requires max > 0
  {
    if |calls| <= from then 0
    else
      var init := calls[..|calls| - 1];
      Drops(max, c, init, from) + if Counts(max, CountAll(max, c, init), calls[|calls| - 1]) then 1 else 0
  }

  /** The call belongs to the stream and gives no output: a drop, or a forward that finds its input dropped. */
  predicate Silent(max: nat, c: Counter, calls: seq<Call>, k: nat)
    requires max > 0 && k < |calls|
  {
    (calls[k].Drop? || calls[k].Forward?) && OutAt(max, c, calls, k).None?
  }

  /**
   Between two forwarded inputs of one stream with nothing forwarded between, the outputs differ
   modulo `max` by the distance of the inputs less the number of drops counted.
   */
  lemma ConsecutiveOutputs(max: nat, s: State, calls: seq<Call>, i: nat, j: nat)
    requires Valid(max, s) && s.reinit && LegalRun(max, Start(s), calls)
    requires i < j < |calls| && calls[i].Forward? && calls[j].Forward?
    requires Output(max, s, calls, i).Some? && Output(max, s, calls, j).Some?
    requires forall k :: i < k < j ==> Silent(max, Start(s), calls, k)
    ensures Output(max, s, calls, j).value ==
            (Output(max, s, calls, i).value + (calls[j].t - calls[i].t) - Drops(max, Start(s), calls[..j], i + 1)) % max
  {
    RefinesCounter(max, s, calls, i);
    RefinesCounter(max, s, calls, j);
    ConsecutiveCounts(max, Start(s), calls, i, j);
    StepMod(max, OutAt(max, Start(s), calls, i).value, OutAt(max, Start(s), calls, j).value,
            calls[j].t - calls[i].t, Drops(max, Start(s), calls[..j], i + 1));
  }

  lemma StepMod(max: nat, out: int, next: int, distance: int, drops: int)
    requires max > 0 && next == out + (distance - drops)
    ensures next % max == (out % max + distance - drops) % max
  {
    ModOfSum(max, out, distance - drops);
    assert out % max + (distance - drops) == out % max + distance - drops;
  }

  lemma ConsecutiveCounts(max: nat, c: Counter, calls: seq<Call>, i: nat, j: nat)
    requires max > 0 && i < j < |calls| && calls[i].Forward? && calls[j].Forward?
    requires OutAt(max, c, calls, i).Some? && OutAt(max, c, calls, j).Some?
    requires forall k :: i < k < j ==> Silent(max, c, calls, k)
    ensures OutAt(max, c, calls, j).value
         == OutAt(max, c, calls, i).value + ((calls[j].t - calls[i].t) - Drops(max, c, calls[..j], i + 1))
  {
    CountBetween(max, c, calls, i, j);
  }

  lemma {:induction false} CountBetween(max: nat, c: Counter, calls: seq<Call>, i: nat, j: nat)
    requires max > 0 && i < j <= |calls| && calls[i].Forward? && OutAt(max, c, calls, i).Some?
    requires forall k :: i < k < j ==> Silent(max, c, calls, k)
    ensures var here := CountAll(max, c, calls[..j]);
      && here.prev.Some?
      && here.last == OutAt(max, c, calls, i).value
      && here.pending == here.prev.value - calls[i].t - Drops(max, c, calls[..j], i + 1)
  {
    assert calls[..j][..j - 1] == calls[..j - 1];
    if j > i + 1 {
      CountBetween(max, c, calls, i, j - 1);
      assert Silent(max, c, calls, j - 1);
    }
  }

  // ---------------------------------------------------------------- splices

  function Offsets(calls: seq<Call>): nat {
    if calls == [] then 0
    else Offsets(calls[..|calls| - 1]) + if calls[|calls| - 1].Offset? then calls[|calls| - 1].offset else 0
  }

  /** Drops and offsets after the last output of a stream change neither it nor what is kept. */
  lemma {:induction false} CountUntilReinit(max: nat, c: Counter, calls: seq<Call>, j: nat, r: nat)
    requires max > 0 && j < r <= |calls| && calls[j].Forward? && OutAt(max, c, calls, j).Some?
    requires forall k :: j < k < r ==> Silent(max, c, calls, k) || calls[k].Offset?
    ensures var at, here := CountAll(max, c, calls[..j + 1]), CountAll(max, c, calls[..r]);
      here.prev.Some? && here.last == at.last && here.kept == at.kept
  {
    assert calls[..r][..r - 1] == calls[..r - 1];
    if r > j + 1 {
      CountUntilReinit(max, c, calls, j, r - 1);
      assert Silent(max, c, calls, r - 1) || calls[r - 1].Offset?;
    }
  }

  /** A reinit in a stream goes back to the kept output; offsets after it add up. */
  lemma {:induction false} CountSinceReinit(max: nat, c: Counter, calls: seq<Call>, r: nat, i: nat)
    requires max > 0 && r < i <= |calls| && calls[r].Reinit? && CountAll(max, c, calls[..r]).prev.Some?
    requires forall k :: r < k < i ==> calls[k].Offset?
    ensures var before, here := CountAll(max, c, calls[..r]), CountAll(max, c, calls[..i]);
      here.prev.None? && here.last == before.kept && here.pending == Offsets(calls[r + 1..i])
  {
    assert calls[..i][..i - 1] == calls[..i - 1];
    if i == r + 1 {
      assert calls[r + 1..i] == [];
    } else {
      CountSinceReinit(max, c, calls, r, i - 1);
      SliceInit(calls, r + 1, i);
    }
  }

  lemma NoDistance(max: nat, a: int, b: int)
    requires max > 0 && Cong(max, a, b)
    ensures (b - a) % max == 0
  {
    CongRefl(max, a);
    CongSum(max, a, b, a, a);
    assert a - a == 0;
    CongMod(max, 0, b - a);
  }

  /** An output that is not kept is not congruent to the one that is. */
  lemma KeptIsLast(max: nat, kept: int, out: int)
    requires max > 2
    ensures Cong(max, KeepOutput(max, kept, out), out) <==> KeepOutput(max, kept, out) == out
  {
    CongRefl(max, out);
    if Cong(max, kept, out) {
      NoDistance(max, kept, out);
    }
  }

  /** The calls from the output of the `j`-th to the first output after a reinit. */
  ghost predicate Splice(max: nat, c: Counter, calls: seq<Call>, j: nat, r: nat, i: nat)
    requires max > 0
  {
    && j < r < i < |calls| && calls[j].Forward? && calls[r].Reinit? && calls[i].Forward?
    && OutAt(max, c, calls, j).Some?
    && (forall k :: j < k < r ==> Silent(max, c, calls, k) || calls[k].Offset?)
    && (forall k :: r < k < i ==> calls[k].Offset?)
  }

  /** The `j`-th output of the run is kept, so that a splice can continue from it. */
  predicate KeptAt(max: nat, s: State, calls: seq<Call>, j: nat)
    requires max > 0 && j < |calls|
  {
    var c := CountAll(max, Start(s), calls[..j + 1]);
    c.kept == c.last
  }

  lemma SpliceCounts(max: nat, c: Counter, calls: seq<Call>, j: nat, r: nat, i: nat)
    requires max > 0 && Splice(max, c, calls, j, r, i)
    ensures var at := CountAll(max, c, calls[..j + 1]);
      && OutAt(max, c, calls, j) == Some(at.last)
      && OutAt(max, c, calls, i) == Some(at.kept + 1 + Offsets(calls[r + 1..i]))
  {
    assert calls[..j + 1][..j] == calls[..j];
    CountUntilReinit(max, c, calls, j, r);
    CountSinceReinit(max, c, calls, r, i);
  }

  lemma ForwardKept(max: nat, c: Counter, calls: seq<Call>, j: nat)
    requires max > 2 && j < |calls| && calls[j].Forward? && OutAt(max, c, calls, j).Some?
    ensures var at := CountAll(max, c, calls[..j + 1]); Cong(max, at.kept, at.last) <==> at.kept == at.last
  {
    var before := CountAll(max, c, calls[..j]);
    assert calls[..j + 1][..j] == calls[..j];
    KeptIsLast(max, before.kept, Count(max, before, calls[j]).1.value);
  }

  /** Equal outputs after equal steps mean congruent outputs before. */
  lemma SameStep(max: nat, kept: int, last: int, step: int)
    requires max > 0
    ensures (kept + step) % max == (last % max + step) % max <==> Cong(max, kept, last)
  {
    ModOfSum(max, last, step);
    CongRefl(max, step);
    ModCong(max, kept + step);
    ModCong(max, last + step);
    if (kept + step) % max == (last + step) % max {
      CongSym(max, (kept + step) % max, kept + step);
      CongTrans(max, kept + step, (kept + step) % max, last + step);
      CongSum(max, kept + step, last + step, step, step);
      assert kept + step - step == kept && last + step - step == last;
    }
    if Cong(max, kept, last) {
      CongSum(max, kept, last, step, step);
      CongTrans(max, (kept + step) % max, kept + step, last + step);
      CongMod(max, (kept + step) % max, last + step);
    }
  }

  /**
   In every in-order run, a splice continues from the last output, plus one and the offset given
   with the reinit, if and only if that output was kept.
   */
  lemma SpliceContinuesIff(max: nat, s: State, calls: seq<Call>, j: nat, r: nat, i: nat)
    requires Valid(max, s) && s.reinit && LegalRun(max, Start(s), calls) && Splice(max, Start(s), calls, j, r, i)
    ensures Output(max, s, calls, j).Some? && Output(max, s, calls, i).Some?
    ensures Output(max, s, calls, i).value == (Output(max, s, calls, j).value + 1 + Offsets(calls[r + 1..i])) % max
            <==> KeptAt(max, s, calls, j)
  {
    SpliceOutputs(max, s, calls, j, r, i);
    var at := CountAll(max, Start(s), calls[..j + 1]);
    ForwardKept(max, Start(s), calls, j);
    SameOffset(max, at.kept, at.last, Offsets(calls[r + 1..i]));
  }

  lemma SameOffset(max: nat, kept: int, last: int, offset: int)
    requires max > 0
    ensures (kept + (1 + offset)) % max == (last % max + 1 + offset) % max <==> Cong(max, kept, last)
  {
    SameStep(max, kept, last, 1 + offset);
    assert last % max + (1 + offset) == last % max + 1 + offset;
  }

  lemma SpliceOutputs(max: nat, s: State, calls: seq<Call>, j: nat, r: nat, i: nat)
    requires Valid(max, s) && s.reinit && LegalRun(max, Start(s), calls) && Splice(max, Start(s), calls, j, r, i)
    ensures var at := CountAll(max, Start(s), calls[..j + 1]);
      && Output(max, s, calls, j) == Some(at.last % max)
      && Output(max, s, calls, i) == Some((at.kept + (1 + Offsets(calls[r + 1..i]))) % max)
  {
    RefinesCounter(max, s, calls, j);
    RefinesCounter(max, s, calls, i);
    SpliceCounts(max, Start(s), calls, j, r, i);
    var kept := CountAll(max, Start(s), calls[..j + 1]).kept;
    assert kept + 1 + Offsets(calls[r + 1..i]) == kept + (1 + Offsets(calls[r + 1..i]));
  }

  /**
   That the last output advanced by one only is not enough: an offset of half a cycle earlier in the
   stream leaves its outputs unkept, and the splice goes back to before it.
   */
  lemma SpliceGoesBack(max: nat, calls: seq<Call>)
    requires max > DROPPED_LIMIT + 1
    requires calls == [Forward(1), Offset(max / 2), Forward(2), Forward(3), Reinit, Forward(9)]
    ensures var s := INITIAL.(reinit := true);
      && Output(max, s, calls, 2) == Some(max / 2 + 2)
      && Output(max, s, calls, 3) == Some(max / 2 + 3)
      && Output(max, s, calls, 5) == Some(2)
  {
    var s := INITIAL.(reinit := true);
    var c := Start(s);
    var c1 := Counter(1, 1, 0, Some(1), 1);
    var c2 := c1.(pending := max / 2);
    var c3 := Counter(max / 2 + 2, 1, 0, Some(2), 2);
    var c4 := Counter(max / 2 + 3, 1, 0, Some(3), 3);
    var c5 := c4.(last := 1, prev := None);
    SmallMod(max, 1);
    SmallMod(max, 2);
    SmallMod(max, max / 2 + 1);
    SmallMod(max, max / 2 + 2);
    SmallMod(max, max / 2 + 3);
    SmallMod(max, 1 - 0);
    NextCount(max, c, calls, 0, c, c1);
    NextCount(max, c, calls, 1, c1, c2);
    NextCount(max, c, calls, 2, c2, c3);
    NextCount(max, c, calls, 3, c3, c4);
    NextCount(max, c, calls, 4, c4, c5);
    assert calls[..0] == [];
    assert LegalRun(max, c, calls);
    RefinesCounter(max, s, calls, 2);
    RefinesCounter(max, s, calls, 3);
    RefinesCounter(max, s, calls, 5);
  }

  lemma NextCount(max: nat, c: Counter, calls: seq<Call>, i: nat, before: Counter, after: Counter)
    requires max > 0 && i < |calls| && CountAll(max, c, calls[..i]) == before && Count(max, before, calls[i]).0 == after
    ensures CountAll(max, c, calls[..i + 1]) == after
  {
    assert calls[..i + 1][..i] == calls[..i];
  }

  /** Each output is less than half a cycle ahead of the one before, counting what is owed. */
  ghost predicate Steady(max: nat, c: Counter, calls: seq<Call>)
    requires max > 0
  {
    forall i :: 0 <= i < |calls| && calls[i].Forward? ==>
      var b := Begin(CountAll(max, c, calls[..i]), calls[i].t);
      0 <= b.pending + calls[i].t - b.prev.value < max / 2
  }

  /** While outputs advance by less than half a cycle each, all are kept and every splice continues. */
  lemma {:induction false} SteadyKeepsAll(max: nat, c: Counter, calls: seq<Call>)
    requires max > 0 && Steady(max, c, calls) && c.kept == c.last
    ensures var here := CountAll(max, c, calls); here.kept == here.last
  {
    if calls != [] {
      var n := |calls| - 1;
      var init := calls[..n];
      forall i | 0 <= i < |init| && init[i].Forward?
        ensures var b := Begin(CountAll(max, c, init[..i]), init[i].t); 0 <= b.pending + init[i].t - b.prev.value < max / 2
      {
        assert init[..i] == calls[..i];
      }
      SteadyKeepsAll(max, c, init);
      if calls[n].Forward? {
        var b := Begin(CountAll(max, c, init), calls[n].t);
        SmallMod(max, b.pending + calls[n].t - b.prev.value);
      }
    }
  }

  /** The first output of a stream continues from the largest output, plus the offset. */
  lemma FirstOutput(max: nat, s: State, t: nat)
    requires Valid(max, s) && s.reinit
    ensures var (s', out) := Generate(max, s, t % max);
      && out == Some((s.maxOutput + 1 + PendingOffset(s)) % max)
      && !s'.reinit && s'.reinitOffset == None
      && s'.maxOutput == if WrappingSub(max, out.value, s.maxOutput) < max / 2 then out.value else s.maxOutput
  {
    SmallMod(max, s.maxOutput);
    var c := Start(s);
    assert Refines(max, s, c);
    SettleRefines(max, s, c, t);
    var s1 := Settle(max, s, t % max);
    assert s1.dropped == [] && s1.maxOutput == s.maxOutput && s1.reinitOffset == None;
    var a := Arrive(max, s, t % max);
    assert a == s1.(seqDelta := a.seqDelta);
    ShiftedOwed(max, a, c.last + c.pending - (t - 1), t);
  }
}
