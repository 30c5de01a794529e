/**
 Packets out of order inside half a cycle: the rewriter applies one fixed map.

 For any arrival order of forwarded and dropped inputs inside a window that does not wrap, every
 forwarded input gets the output `Renumber` assigns it with the drops recorded over the whole run,
 whenever it arrives and however often, and a recorded drop is never forwarded.  `FixedMapIff`
 says exactly for which first call this holds: it fails when the stream begins with a drop at the
 very bottom of the window.
 */
module SeqRewriteReordered {
  import opened Options
  import opened ModularArithmetic
  import opened SeqRewrite
  import InOrder = SeqRewriteInOrder

  /** `drops`: inputs recorded as dropped; `top`: the largest input forwarded so far. */
  datatype Record = Record(drops: set<nat>, top: int)

  /** A drop is recorded when no input at or above it has been forwarded. */
  function Note(r: Record, c: Call): Record {
    match c
    case Forward(t) => if t in r.drops || t <= r.top then r else r.(top := t)
    case Drop(t) => if t > r.top then r.(drops := r.drops + {t}) else r
    case _ => r
  }

  function Noted(anchor: int, calls: seq<Call>): Record {
    if calls == [] then Record({}, anchor) else Note(Noted(anchor, calls[..|calls| - 1]), calls[|calls| - 1])
  }

  function Below(drops: set<nat>, x: nat): set<nat> {
    set d | d in drops && d < x
  }

  /** The output, before wrapping, of input `x` in a stream whose input `anchor` stands for output `start`. */
  function Renumber(start: int, anchor: int, drops: set<nat>, x: nat): int {
    start + (x - anchor) - |Below(drops, x)|
  }

  predicate InWindow(max: nat, lo: nat, calls: seq<Call>) {
    && lo + max / 2 <= max
    && forall c :: c in calls ==> (c.Drop? || c.Forward?) && lo <= c.t < lo + max / 2
  }

  function StartOutput(s: State): nat {
    s.maxOutput + InOrder.PendingOffset(s)
  }

  /** One map, fixed over the whole run, gives every output. */
  ghost predicate FixedMap(max: nat, s: State, calls: seq<Call>)
    requires Valid(max, s) && calls != [] && (calls[0].Drop? || calls[0].Forward?)
  {
    var anchor := calls[0].t - 1;
    var drops := Noted(anchor, calls).drops;
    forall i :: 0 <= i < |calls| && calls[i].Forward? ==>
      Output(max, s, calls, i) ==
        if calls[i].t in drops then None else Some(Renumber(StartOutput(s), anchor, drops, calls[i].t) % max)
  }

  // ---------------------------------------------------------------- the map itself

  lemma {:induction false} IntervalSize(lo: nat, hi: nat, s: set<nat>)
    requires lo <= hi && forall d :: d in s ==> lo <= d < hi
    ensures |s| <= hi - lo
  {
    if lo == hi {
      assert s == {};
    } else {
      var s' := s - {hi - 1};
      IntervalSize(lo, hi - 1, s');
      assert s <= s' + {hi - 1};
      assert |s| <= |s' + {hi - 1}| by { SubsetSize(s, s' + {hi - 1}); }
    }
  }

  lemma {:induction false} SubsetSize(a: set<nat>, b: set<nat>)
    requires a <= b
    ensures |a| <= |b|
  {
    if a != {} {
      var x :| x in a;
      SubsetSize(a - {x}, b - {x});
    }
  }

  /** The output gap is the input gap less the recorded drops between, and forwarded inputs keep their order. */
  lemma RenumberGap(start: int, anchor: int, drops: set<nat>, x: nat, y: nat)
    requires x < y && x !in drops && y !in drops
    ensures var between := set d | d in drops && x < d < y;
      && Renumber(start, anchor, drops, y) - Renumber(start, anchor, drops, x) == (y - x) - |between|
      && Renumber(start, anchor, drops, x) < Renumber(start, anchor, drops, y)
  {
    var between := set d | d in drops && x < d < y;
    assert Below(drops, y) == Below(drops, x) + between;
    assert Below(drops, x) !! between;
    IntervalSize(x + 1, y, between);
  }

  // ---------------------------------------------------------------- counting recorded drops

  /** The number `d`, shifted by the cycle count, is among the first `n` of the list. */
  ghost predicate Among(list: seq<nat>, n: nat, delta: nat, d: nat)
    requires n <= |list|
  {
    exists i :: 0 <= i < n && list[i] == d + delta
  }

  /** The sorted list holds exactly the recorded drops, shifted by the cycle count. */
  ghost predicate Holds(list: seq<nat>, delta: nat, drops: set<nat>) {
    && Increasing(list)
    && (forall i :: 0 <= i < |list| ==> list[i] >= delta)
    && (forall d: nat :: d in drops <==> Among(list, |list|, delta, d))
  }

  lemma {:induction false} BelowLater(list: seq<nat>, n: nat)
    requires Increasing(list) && n < |list|
    ensures forall i :: 0 <= i < n ==> list[i] < list[n]
  {
    if n > 0 {
      FirstIsLeast(list);
      BelowLater(list[1..], n - 1);
      assert forall i :: 0 < i <= n ==> list[i] == list[1..][i - 1];
    }
  }

  lemma {:induction false} AmongSize(list: seq<nat>, n: nat, delta: nat, s: set<nat>)
    requires Increasing(list) && n <= |list|
    requires forall i :: 0 <= i < |list| ==> list[i] >= delta
    requires forall d: nat :: d in s <==> Among(list, n, delta, d)
    ensures |s| == n
  {
    if n == 0 {
      assert s == {};
    } else {
      var last := list[n - 1] - delta;
      assert Among(list, n, delta, last);
      BelowLater(list, n - 1);
      var s' := s - {last};
      forall d: nat ensures d in s' <==> Among(list, n - 1, delta, d) {
        if d in s' {
          assert Among(list, n, delta, d);
        }
        if Among(list, n - 1, delta, d) {
          assert Among(list, n, delta, d);
        }
      }
      AmongSize(list, n - 1, delta, s');
    }
  }

  lemma CountIsCard(list: seq<nat>, delta: nat, drops: set<nat>, x: nat)
    requires Holds(list, delta, drops)
    ensures CountBelow(list, x + delta) == |Below(drops, x)|
    ensures |list| == |drops|
  {
    var n := CountBelow(list, x + delta);
    AmongSize(list, |list|, delta, drops);
    forall d: nat ensures d in Below(drops, x) <==> Among(list, n, delta, d) {
      if Among(list, n, delta, d) {
        assert Among(list, |list|, delta, d);
      }
    }
    AmongSize(list, n, delta, Below(drops, x));
  }

  // ---------------------------------------------------------------- the invariant

  ghost predicate Follows(max: nat, lo: nat, s: State, r: Record, anchor: int, start: int) {
    && Valid(max, s) && !s.reinit
    && lo + max / 2 <= max
    && lo <= r.top < lo + max / 2 && s.maxInput == r.top
    && (forall d :: d in r.drops ==> lo <= d < lo + max / 2)
    && Holds(s.dropped, s.seqDelta, r.drops)
    && Cong(max, s.base, start - anchor)
  }

  /** The output computed from the wrapped base is the unwrapped one modulo `max`. */
  lemma ShiftedOutput(max: nat, base: nat, net: int, n: nat, t: nat)
    requires base < max && n < max && Cong(max, base, net)
    ensures WrappingAdd(max, t, WrappingSub(max, base, n)) == (t + net - n) % max
  {
    var shifted := WrappingSub(max, base, n);
    CongIntro(max, shifted, base - n, if base >= n then 0 else 1);
    CongRefl(max, n);
    CongSum(max, base, net, n, n);
    CongTrans(max, shifted, base - n, net - n);
    CongRefl(max, t);
    CongSum(max, t, t, shifted, net - n);
    ModCong(max, t + shifted);
    CongTrans(max, (t + shifted) % max, t + shifted, t + (net - n));
    CongMod(max, (t + shifted) % max, t + (net - n));
  }

  /** Inside the window nothing wraps, so the comparisons modulo `max` are plain ones. */
  lemma WindowComparisons(max: nat, lo: nat, s: State, t: nat)
    requires Valid(max, s) && lo + max / 2 <= max
    requires lo <= s.maxInput < lo + max / 2 && lo <= t < lo + max / 2
    ensures ExtendedDelta(max, s, t) == s.seqDelta
    ensures IsSeqHigherThan(max, t, s.maxInput) <==> t > s.maxInput
    ensures WrappingSub(max, t, s.maxInput) < max / 2 <==> t >= s.maxInput
  {
  }

  lemma GenerateInWindow(max: nat, lo: nat, s: State, t: nat)
    requires Valid(max, s) && !s.reinit && lo + max / 2 <= max
    requires lo <= s.maxInput < lo + max / 2 && lo <= t < lo + max / 2
    ensures var (s', out) := Generate(max, s, t);
      if s.seqDelta + t in s.dropped then s' == s && out == None
      else
        && s' == s.(maxInput := if t > s.maxInput then t else s.maxInput, maxOutput := s'.maxOutput)
        && out == Some(Shifted(max, s, t))
  {
    WindowComparisons(max, lo, s, t);
    assert Arrive(max, s, t) == s;
  }

  lemma DropInWindow(max: nat, lo: nat, s: State, t: nat)
    requires Valid(max, s) && !s.reinit && lo + max / 2 <= max
    requires lo <= s.maxInput < lo + max / 2 && lo <= t < lo + max / 2
    ensures Arrive(max, s, t) == s
    ensures t <= s.maxInput ==> Mark(max, s, t) == s
  {
    WindowComparisons(max, lo, s, t);
  }

  lemma DropPlain(max: nat, s: State, t: nat)
    requires Valid(max, s) && t < max && Arrive(max, s, t) == s
    requires |Mark(max, s, t).dropped| <= DROPPED_LIMIT
    ensures DropValue(max, s, t) == Mark(max, s, t)
  {
  }

  /** An input that is not dropped gets its place in the renumbering. */
  lemma ShiftedRenumbers(max: nat, s: State, drops: set<nat>, anchor: int, start: int, t: nat)
    requires Valid(max, s) && Holds(s.dropped, s.seqDelta, drops) && Cong(max, s.base, start - anchor)
    ensures Shifted(max, s, t) == Renumber(start, anchor, drops, t) % max
  {
    CountIsCard(s.dropped, s.seqDelta, drops, t);
    ShiftedOutput(max, s.base, start - anchor, |Below(drops, t)|, t);
    assert t + (start - anchor) - |Below(drops, t)| == Renumber(start, anchor, drops, t);
  }

  lemma HeldDrop(list: seq<nat>, delta: nat, drops: set<nat>, t: nat)
    requires Holds(list, delta, drops)
    ensures t in drops <==> delta + t in list
  {
    assert t in drops <==> Among(list, |list|, delta, t);
  }

  lemma ForwardFollows(max: nat, lo: nat, s: State, r: Record, anchor: int, start: int, t: nat)
    requires Follows(max, lo, s, r, anchor, start) && lo <= t < lo + max / 2
    ensures Follows(max, lo, Generate(max, s, t).0, Note(r, Forward(t)), anchor, start)
    ensures Generate(max, s, t).1 ==
            if t in r.drops then None else Some(Renumber(start, anchor, r.drops, t) % max)
  {
    HeldDrop(s.dropped, s.seqDelta, r.drops, t);
    ShiftedRenumbers(max, s, r.drops, anchor, start, t);
    GenerateInWindow(max, lo, s, t);
  }

  lemma GrownHolds(list: seq<nat>, grown: seq<nat>, delta: nat, drops: set<nat>, t: nat, drops': set<nat>)
    requires Holds(list, delta, drops) && drops' == drops + {t}
    requires Increasing(grown) && forall y :: y in grown <==> y == delta + t || y in list
    ensures Holds(grown, delta, drops')
  {
    forall i | 0 <= i < |grown| ensures grown[i] >= delta {
      assert grown[i] in grown;
    }
    forall d: nat ensures d in drops' <==> Among(grown, |grown|, delta, d) {
      assert Among(grown, |grown|, delta, d) <==> d + delta in grown;
      assert Among(list, |list|, delta, d) <==> d + delta in list;
    }
  }

  lemma GrownFollows(
      max: nat, lo: nat, s: State, r: Record, anchor: int, start: int, t: nat, grown: seq<nat>, drops': set<nat>)
    requires Follows(max, lo, s, r, anchor, start) && lo <= t < lo + max / 2
    requires drops' == r.drops + {t} && |drops'| <= DROPPED_LIMIT
    requires Increasing(grown) && forall y :: y in grown <==> y == s.seqDelta + t || y in s.dropped
    ensures Follows(max, lo, s.(dropped := grown), r.(drops := drops'), anchor, start)
  {
    GrownHolds(s.dropped, grown, s.seqDelta, r.drops, t, drops');
    CountIsCard(grown, s.seqDelta, drops', 0);
  }

  lemma DropFollows(max: nat, lo: nat, s: State, r: Record, anchor: int, start: int, t: nat)
    requires Follows(max, lo, s, r, anchor, start) && lo <= t < lo + max / 2
    requires |Note(r, Drop(t)).drops| <= DROPPED_LIMIT
    ensures Follows(max, lo, DropValue(max, s, t), Note(r, Drop(t)), anchor, start)
  {
    WindowComparisons(max, lo, s, t);
    if t > r.top {
      GrownFollows(max, lo, s, r, anchor, start, t, Mark(max, s, t).dropped, Note(r, Drop(t)).drops);
    }
    DropInWindow(max, lo, s, t);
    DropPlain(max, s, t);
  }

  /** The first call of a stream, unless it is a drop at the bottom of the window. */
  predicate Anchored(lo: nat, c: Call) {
    c.Forward? || (c.Drop? && lo < c.t)
  }

  /** The state after the first call of a stream. */
  lemma FirstState(max: nat, s: State, c: Call)
    requires Valid(max, s) && s.reinit
    requires (c.Forward? || (c.Drop? && 0 < c.t)) && c.t < max
    ensures var s' := Apply(max, s, c).0;
      && !s'.reinit
      && Cong(max, s'.base, StartOutput(s) - (c.t - 1))
      && s'.maxInput == (if c.Forward? then c.t else c.t - 1)
      && (c.Drop? ==> s'.seqDelta == 0)
      && s'.dropped == if c.Forward? then [] else [c.t]
  {
    var t := c.t;
    SmallMod(max, t);
    SmallMod(max, s.maxOutput);
    var k := InOrder.Start(s);
    assert InOrder.Refines(max, s, k);
    InOrder.SettleRefines(max, s, k, t);
    InOrder.SettledFirst(max, s, t);
    var s1 := Settle(max, s, t);
    assert s1.dropped == [] && s1.maxInput == WrappingSub(max, t, 1);
    assert Cong(max, s1.base, StartOutput(s) - (c.t - 1));
  }

  lemma HoldsNone(delta: nat)
    ensures Holds([], delta, {})
  {
  }

  lemma HoldsOne(t: nat)
    ensures Holds([t], 0, {t})
  {
    var list := [t];
    assert list[0] == t + 0;
    assert Among(list, 1, 0, t);
  }

  lemma FirstOutputRenumbers(max: nat, s: State, c: Call)
    requires Valid(max, s) && s.reinit && c.Forward? && c.t < max
    ensures Apply(max, s, c).1 == Some(Renumber(StartOutput(s), c.t - 1, {}, c.t) % max)
  {
    InOrder.FirstOutput(max, s, c.t);
    SmallMod(max, c.t);
    assert Below({}, c.t) == {};
  }

  lemma FirstFollows(max: nat, lo: nat, s: State, c: Call)
    requires Valid(max, s) && s.reinit
    requires Anchored(lo, c) && lo <= c.t < lo + max / 2 <= max
    ensures Follows(max, lo, Apply(max, s, c).0, Note(Record({}, c.t - 1), c), c.t - 1, StartOutput(s))
    ensures c.Forward? ==> Apply(max, s, c).1 == Some(Renumber(StartOutput(s), c.t - 1, {}, c.t) % max)
  {
    FirstState(max, s, c);
    if c.Forward? {
      FirstOutputRenumbers(max, s, c);
      HoldsNone(Apply(max, s, c).0.seqDelta);
    } else {
      HoldsOne(c.t);
      assert {} + {c.t} == {c.t};
    }
  }

  /** Recorded drops are never forgotten. */
  lemma {:induction false} NotedGrows(anchor: int, calls: seq<Call>, all: seq<Call>)
    requires calls <= all
    ensures Noted(anchor, calls).drops <= Noted(anchor, all).drops
  {
    if |calls| < |all| {
      NotedGrows(anchor, calls, all[..|all| - 1]);
    } else {
      assert calls == all;
    }
  }

  lemma NotedFew(anchor: int, calls: seq<Call>, all: seq<Call>)
    requires calls <= all && |Noted(anchor, all).drops| <= DROPPED_LIMIT
    ensures |Noted(anchor, calls).drops| <= DROPPED_LIMIT
  {
    NotedGrows(anchor, calls, all);
    SubsetSize(Noted(anchor, calls).drops, Noted(anchor, all).drops);
  }

  lemma StepFollows(max: nat, lo: nat, s: State, r: Record, anchor: int, start: int, c: Call)
    requires Follows(max, lo, s, r, anchor, start)
    requires (c.Drop? || c.Forward?) && lo <= c.t < lo + max / 2
    requires |Note(r, c).drops| <= DROPPED_LIMIT
    ensures Follows(max, lo, Apply(max, s, c).0, Note(r, c), anchor, start)
    ensures c.Forward? ==>
              Apply(max, s, c).1 == if c.t in r.drops then None else Some(Renumber(start, anchor, r.drops, c.t) % max)
  {
    SmallMod(max, c.t);
    if c.Forward? {
      ForwardFollows(max, lo, s, r, anchor, start, c.t);
    } else {
      DropFollows(max, lo, s, r, anchor, start, c.t);
    }
  }

  lemma LastCall(max: nat, s: State, anchor: int, calls: seq<Call>)
    requires Valid(max, s) && calls != []
    ensures var init, c := calls[..|calls| - 1], calls[|calls| - 1];
      && After(max, s, calls) == Apply(max, After(max, s, init), c).0
      && Noted(anchor, calls) == Note(Noted(anchor, init), c)
  {
  }

  /** One more call. */
  lemma NextFollows(max: nat, lo: nat, s: State, calls: seq<Call>, anchor: int, start: int)
    requires Valid(max, s) && calls != []
    requires var init := calls[..|calls| - 1]; Follows(max, lo, After(max, s, init), Noted(anchor, init), anchor, start)
    requires var c := calls[|calls| - 1]; (c.Drop? || c.Forward?) && lo <= c.t < lo + max / 2
    requires |Noted(anchor, calls).drops| <= DROPPED_LIMIT
    ensures Follows(max, lo, After(max, s, calls), Noted(anchor, calls), anchor, start)
  {
    var init, c := calls[..|calls| - 1], calls[|calls| - 1];
    LastCall(max, s, anchor, calls);
    StepFollows(max, lo, After(max, s, init), Noted(anchor, init), anchor, start, c);
  }

  lemma OneFollows(max: nat, lo: nat, s: State, calls: seq<Call>)
    requires Valid(max, s) && s.reinit && |calls| == 1
    requires Anchored(lo, calls[0]) && lo <= calls[0].t < lo + max / 2 <= max
    ensures Follows(max, lo, After(max, s, calls), Noted(calls[0].t - 1, calls), calls[0].t - 1, StartOutput(s))
  {
    var c := calls[0];
    assert calls[..0] == [];
    LastCall(max, s, c.t - 1, calls);
    assert Noted(c.t - 1, []) == Record({}, c.t - 1);
    assert After(max, s, []) == s;
    FirstFollows(max, lo, s, c);
  }

  lemma {:induction false} RunFollows(max: nat, lo: nat, s: State, calls: seq<Call>, all: seq<Call>)
    requires Valid(max, s) && s.reinit
    requires calls != [] && calls <= all && InWindow(max, lo, all) && Anchored(lo, all[0])
    requires |Noted(all[0].t - 1, all).drops| <= DROPPED_LIMIT
    ensures Follows(max, lo, After(max, s, calls), Noted(all[0].t - 1, calls), all[0].t - 1, StartOutput(s))
  {
    var n := |calls| - 1;
    assert all[n] in all && all[n] == calls[n];
    if n == 0 {
      OneFollows(max, lo, s, calls);
    } else {
      RunFollows(max, lo, s, calls[..n], all);
      NotedFew(all[0].t - 1, calls, all);
      NextFollows(max, lo, s, calls, all[0].t - 1, StartOutput(s));
    }
  }

  /** What the `i`-th call returns depends on the drops recorded before it only. */
  lemma OutputThen(max: nat, lo: nat, s: State, calls: seq<Call>, i: nat)
    requires Valid(max, s) && s.reinit
    requires i < |calls| && InWindow(max, lo, calls) && Anchored(lo, calls[0]) && calls[i].Forward?
    requires |Noted(calls[0].t - 1, calls).drops| <= DROPPED_LIMIT
    ensures var drops := Noted(calls[0].t - 1, calls[..i]).drops;
      Output(max, s, calls, i) ==
        if calls[i].t in drops then None else Some(Renumber(StartOutput(s), calls[0].t - 1, drops, calls[i].t) % max)
  {
    var init := calls[..i];
    var c := calls[i];
    assert c in calls;
    SmallMod(max, c.t);
    if i == 0 {
      FirstFollows(max, lo, s, c);
    } else {
      RunFollows(max, lo, s, init, calls);
      ForwardFollows(max, lo, After(max, s, init), Noted(calls[0].t - 1, init), calls[0].t - 1, StartOutput(s), c.t);
    }
  }

  /** Drops recorded after the `i`-th call lie above the input it forwarded. */
  lemma {:induction false} LaterDropsAbove(anchor: int, calls: seq<Call>, i: nat)
    requires i < |calls| && calls[i].Forward?
    ensures var t := calls[i].t;
      var before, after := Noted(anchor, calls[..i]), Noted(anchor, calls);
      && (t in after.drops <==> t in before.drops)
      && (t !in before.drops ==> t <= after.top && Below(after.drops, t) == Below(before.drops, t))
  {
    var n := |calls| - 1;
    if i < n {
      LaterDropsAbove(anchor, calls[..n], i);
      assert calls[..n][..i] == calls[..i];
    }
  }

  lemma AnchoredFixedMap(max: nat, lo: nat, s: State, calls: seq<Call>)
    requires Valid(max, s) && s.reinit
    requires calls != [] && InWindow(max, lo, calls) && Anchored(lo, calls[0])
    requires |Noted(calls[0].t - 1, calls).drops| <= DROPPED_LIMIT
    ensures FixedMap(max, s, calls)
  {
    forall i | 0 <= i < |calls| && calls[i].Forward?
      ensures var drops := Noted(calls[0].t - 1, calls).drops;
        Output(max, s, calls, i) ==
          if calls[i].t in drops then None else Some(Renumber(StartOutput(s), calls[0].t - 1, drops, calls[i].t) % max)
    {
      OutputThen(max, lo, s, calls, i);
      LaterDropsAbove(calls[0].t - 1, calls, i);
    }
  }

  // ---------------------------------------------------------------- a stream that begins with a drop at the bottom

  /** At the start of the number range each call before the first forwarded input counts a new cycle. */
  lemma DropZeroStates(max: nat)
    requires max > DROPPED_LIMIT + 1
    ensures var s1 := DropValue(max, INITIAL.(reinit := true), 0);
      var s2 := Generate(max, s1, 1).0;
      && s2.maxInput == 1 && s2.seqDelta == max + max && s2.dropped == [max] && !s2.reinit
      && Generate(max, s2, 0).1.Some?
  {
    var s := INITIAL.(reinit := true);
    assert Settle(max, s, 0) == State(1, 0, max - 1, 0, [], false, None);
    var s1 := DropValue(max, s, 0);
    assert s1 == State(1, 0, max - 1, max, [max], false, None);
    var s2 := Generate(max, s1, 1).0;
    assert ExtendedDelta(max, s1, 1) == max + max;
    assert ExtendedDelta(max, s2, 0) == max + max;
  }

  lemma NotedThree(anchor: int, calls: seq<Call>)
    requires |calls| == 3
    ensures Noted(anchor, calls) == Note(Note(Note(Record({}, anchor), calls[0]), calls[1]), calls[2])
  {
    var c1, c2 := calls[..1], calls[..2];
    assert c1[..0] == [] && c2[..1] == c1;
    assert Noted(anchor, c1) == Note(Record({}, anchor), calls[0]);
    assert Noted(anchor, c2) == Note(Noted(anchor, c1), calls[1]);
  }

  /** At the start of the number range: the dropped input 0 is forwarded when it comes back. */
  lemma DropZeroForwarded(max: nat, calls: seq<Call>)
    requires max > DROPPED_LIMIT + 1 && calls == [Drop(0), Forward(1), Forward(0)]
    ensures Output(max, INITIAL.(reinit := true), calls, 2).Some?
    ensures 0 in Noted(-1, calls).drops
  {
    SmallMod(max, 0);
    SmallMod(max, 1);
    Unroll(max, INITIAL.(reinit := true), calls);
    DropZeroStates(max);
    NotedThree(-1, calls);
  }

  /** Half a cycle past the largest input, the largest input is not advanced. */
  lemma ForwardBeyond(max: nat, s: State, y: nat)
    requires Valid(max, s) && !s.reinit && s.seqDelta == 0
    requires y == s.maxInput + max / 2 < max
    requires forall i :: 0 <= i < |s.dropped| ==> s.dropped[i] < y
    ensures Generate(max, s, y).1 == Some(WrappingAdd(max, y, WrappingSub(max, s.base, |s.dropped|)))
    ensures Generate(max, s, y).0 == s.(maxOutput := Generate(max, s, y).0.maxOutput)
  {
    assert ExtendedDelta(max, s, y) == 0;
    CountUnique(s.dropped, y, |s.dropped|);
  }

  lemma DropNext(max: nat, s: State, lo: nat)
    requires Valid(max, s) && !s.reinit && s.seqDelta == 0 && lo + 1 < max
    requires s.maxInput + 1 == lo && s.dropped == [lo]
    ensures DropValue(max, s, lo + 1) == s.(dropped := [lo, lo + 1])
  {
    assert ExtendedDelta(max, s, lo + 1) == 0;
    CountUnique([lo], lo + 1, 1);
    assert Insert([lo], lo + 1) == [lo, lo + 1];
  }

  /** The four states of that run. */
  lemma DropBottomStates(max: nat, lo: nat, y: nat)
    requires max > DROPPED_LIMIT + 1 && 0 < lo && lo + max / 2 <= max && y == lo - 1 + max / 2
    ensures var s1 := DropValue(max, INITIAL.(reinit := true), lo);
      var (s2, first) := Generate(max, s1, y);
      var s3 := DropValue(max, s2, lo + 1);
      && first == Some(WrappingAdd(max, y, WrappingSub(max, s1.base, 1)))
      && Generate(max, s3, y).1 == Some(WrappingAdd(max, y, WrappingSub(max, s1.base, 2)))
  {
    SmallMod(max, lo);
    FirstState(max, INITIAL.(reinit := true), Drop(lo));
    var s1 := DropValue(max, INITIAL.(reinit := true), lo);
    ForwardBeyond(max, s1, y);
    var s2 := Generate(max, s1, y).0;
    DropNext(max, s2, lo);
    ForwardBeyond(max, s2.(dropped := [lo, lo + 1]), y);
  }

  lemma ShiftsDiffer(max: nat, base: nat, y: nat)
    requires base < max && max > 2
    ensures WrappingAdd(max, y, WrappingSub(max, base, 1)) != WrappingAdd(max, y, WrappingSub(max, base, 2))
  {
    CongRefl(max, base);
    ShiftedOutput(max, base, base, 1, y);
    ShiftedOutput(max, base, base, 2, y);
    ModAhead(max, y + base - 2, y + base - 1);
  }

  /** Above it: an input half a cycle past the sync point is renumbered by a drop recorded after it was forwarded. */
  lemma DropBottomRenumbers(max: nat, lo: nat, y: nat, calls: seq<Call>)
    requires max > DROPPED_LIMIT + 1 && 0 < lo && lo + max / 2 <= max && y == lo - 1 + max / 2
    requires calls == [Drop(lo), Forward(y), Drop(lo + 1), Forward(y)]
    ensures Output(max, INITIAL.(reinit := true), calls, 1) != Output(max, INITIAL.(reinit := true), calls, 3)
  {
    SmallMod(max, lo);
    SmallMod(max, lo + 1);
    SmallMod(max, y);
    Unroll(max, INITIAL.(reinit := true), calls);
    DropBottomStates(max, lo, y);
    ShiftsDiffer(max, DropValue(max, INITIAL.(reinit := true), lo).base, y);
  }

  lemma OneMap(max: nat, s: State, calls: seq<Call>, i: nat, j: nat)
    requires Valid(max, s) && calls != [] && (calls[0].Drop? || calls[0].Forward?) && FixedMap(max, s, calls)
    requires i < |calls| && j < |calls| && calls[i].Forward? && calls[i] == calls[j]
    ensures Output(max, s, calls, i) == Output(max, s, calls, j)
    ensures calls[i].t in Noted(calls[0].t - 1, calls).drops ==> Output(max, s, calls, i) == None
  {
  }

  lemma {:induction false} CountUnique(list: seq<nat>, x: nat, n: nat)
    requires Increasing(list) && n <= |list|
    requires forall i :: 0 <= i < |list| ==> (list[i] < x <==> i < n)
    ensures CountBelow(list, x) == n
  {
    if n > 0 {
      CountUnique(list[1..], x, n - 1);
    }
  }

  ghost predicate Qualifies(max: nat, lo: nat, c: Call, s: State, calls: seq<Call>) {
    && Valid(max, s) && s.reinit
    && calls != [] && calls[0] == c && InWindow(max, lo, calls)
    && |Noted(c.t - 1, calls).drops| <= DROPPED_LIMIT
  }

  /** A drop recorded by the end of the run but forwarded somewhere in it. */
  lemma ForwardedDrop(max: nat, s: State, calls: seq<Call>, i: nat)
    requires Valid(max, s) && i < |calls| && (calls[0].Drop? || calls[0].Forward?) && calls[i].Forward?
    requires Output(max, s, calls, i).Some? && calls[i].t in Noted(calls[0].t - 1, calls).drops
    ensures !FixedMap(max, s, calls)
  {
    if FixedMap(max, s, calls) {
      OneMap(max, s, calls, i, i);
    }
  }

  /** One input forwarded twice with different outputs. */
  lemma TwoOutputs(max: nat, s: State, calls: seq<Call>, i: nat, j: nat)
    requires Valid(max, s) && i < |calls| && j < |calls| && (calls[0].Drop? || calls[0].Forward?)
    requires calls[i].Forward? && calls[i] == calls[j] && Output(max, s, calls, i) != Output(max, s, calls, j)
    ensures !FixedMap(max, s, calls)
  {
    if FixedMap(max, s, calls) {
      OneMap(max, s, calls, i, j);
    }
  }

  lemma NotAnchored(max: nat, lo: nat, c: Call) returns (calls: seq<Call>)
    requires max > DROPPED_LIMIT + 1 && InWindow(max, lo, [c]) && !Anchored(lo, c)
    ensures Qualifies(max, lo, c, INITIAL.(reinit := true), calls)
    ensures !FixedMap(max, INITIAL.(reinit := true), calls)
  {
    assert c in [c];
    if lo == 0 {
      calls := [Drop(0), Forward(1), Forward(0)];
      SmallRun(max, lo, c, calls);
      DropZeroForwarded(max, calls);
      ForwardedDrop(max, INITIAL.(reinit := true), calls, 2);
    } else {
      var y := lo - 1 + max / 2;
      calls := [Drop(lo), Forward(y), Drop(lo + 1), Forward(y)];
      SmallRun(max, lo, c, calls);
      DropBottomRenumbers(max, lo, y, calls);
      TwoOutputs(max, INITIAL.(reinit := true), calls, 1, 3);
    }
  }

  /** For which first call `c` all runs inside the window follow one fixed map. */
  lemma FixedMapIff(max: nat, lo: nat, c: Call)
    requires max > DROPPED_LIMIT + 1 && InWindow(max, lo, [c])
    ensures (forall s, calls :: Qualifies(max, lo, c, s, calls) ==> FixedMap(max, s, calls)) <==> Anchored(lo, c)
  {
    if Anchored(lo, c) {
      forall s, calls | Qualifies(max, lo, c, s, calls) ensures FixedMap(max, s, calls) {
        AnchoredFixedMap(max, lo, s, calls);
      }
    } else {
      var _ := NotAnchored(max, lo, c);
    }
  }

  lemma SmallRun(max: nat, lo: nat, c: Call, calls: seq<Call>)
    requires max > DROPPED_LIMIT + 1 && InWindow(max, lo, calls)
    requires 3 <= |calls| <= 4 && calls[0] == c
    ensures Qualifies(max, lo, c, INITIAL.(reinit := true), calls)
  {
    NotedSize(c.t - 1, calls);
  }

  lemma {:induction false} NotedSize(anchor: int, calls: seq<Call>)
    ensures |Noted(anchor, calls).drops| <= |calls|
  {
    if calls != [] {
      NotedSize(anchor, calls[..|calls| - 1]);
    }
  }
}
