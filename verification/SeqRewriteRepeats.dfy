/**
 Repeated inputs.  All packets of a video frame carry one picture id, so an in-order stream repeats
 its inputs; a repeated input should change nothing.  `RepeatIff` says exactly when that is so: an
 input that was dropped after the numbers wrapped must not come again before the next forwarded one.
 */
module SeqRewriteRepeats {
  import opened Options
  import opened ModularArithmetic
  import opened SeqRewrite
  import opened SeqRewriteInOrder

  /** The counter that knows every repeated input. */
  function IdealCount(max: nat, c: Counter, call: Call): (Counter, Option<int>)
    requires max > 0
  {
    if (call.Drop? && c.prev == Some(call.t)) || (call.Forward? && DropAgain(c, call.t)) then (c, None)
    else
      match call
      case Reinit => (if c.prev.None? then c else c.(last := c.kept, pending := 0, prev := None), None)
      case Offset(offset) => (c.(pending := c.pending + offset), None)
      case Drop(t) =>
        var b := Begin(c, t);
        (b.(pending := b.pending + t - b.prev.value - 1, prev := Some(t)), None)
      case Forward(t) =>
        var b := Begin(c, t);
        var out := b.last + b.pending + t - b.prev.value;
        (Counter(out, KeepOutput(max, c.kept, out), 0, Some(t), t), Some(out))
  }

  function IdealAll(max: nat, c: Counter, calls: seq<Call>): Counter
    requires max > 0
  {
    if calls == [] then c else IdealCount(max, IdealAll(max, c, calls[..|calls| - 1]), calls[|calls| - 1]).0
  }

  function IdealOut(max: nat, c: Counter, calls: seq<Call>, i: nat): Option<int>
    requires max > 0 && i < |calls|
  {
    IdealCount(max, IdealAll(max, c, calls[..i]), calls[i]).1
  }

  /** The call repeats an input that was dropped past a wrap of the last forwarded one. */
  predicate Missed(max: nat, c: Counter, call: Call)
    requires max > 0
  {
    (call.Drop? || call.Forward?) && DropAgain(c, call.t) && Wrapped(max, c)
  }

  ghost predicate NoneMissed(max: nat, c: Counter, calls: seq<Call>)
    requires max > 0
  {
    forall i: nat :: i < |calls| ==> !MissedAt(max, c, calls, i)
  }

  predicate MissedAt(max: nat, c: Counter, calls: seq<Call>, i: nat)
    requires max > 0 && i < |calls|
  {
    Missed(max, CountAll(max, c, calls[..i]), calls[i])
  }

  // ---------------------------------------------------------------- without a missed repeat

  predicate Ordered(c: Counter) {
    c.prev.Some? ==> c.gen <= c.prev.value
  }

  lemma SameUnlessMissed(max: nat, c: Counter, call: Call)
    requires max > 0 && Ordered(c) && Legal(max, c, call) && !Missed(max, c, call)
    ensures Count(max, c, call) == IdealCount(max, c, call)
  {
  }

  lemma StaysOrdered(max: nat, c: Counter, call: Call)
    requires max > 0 && Ordered(c) && Legal(max, c, call)
    ensures Ordered(Count(max, c, call).0)
  {
  }

  lemma MissedPrefix(max: nat, c: Counter, calls: seq<Call>, n: nat)
    requires max > 0 && n <= |calls| && NoneMissed(max, c, calls)
    ensures NoneMissed(max, c, calls[..n])
  {
    forall i: nat | i < n
      ensures !MissedAt(max, c, calls[..n], i)
    {
      assert !MissedAt(max, c, calls, i);
      assert calls[..n][..i] == calls[..i];
    }
  }

  lemma {:induction false} RunOrdered(max: nat, c: Counter, calls: seq<Call>)
    requires max > 0 && Ordered(c) && LegalRun(max, c, calls)
    ensures Ordered(CountAll(max, c, calls))
  {
    if calls != [] {
      var n := |calls| - 1;
      LegalPrefix(max, c, calls, n);
      assert LegalAt(max, c, calls, n);
      RunOrdered(max, c, calls[..n]);
      StaysOrdered(max, CountAll(max, c, calls[..n]), calls[n]);
    }
  }

  lemma {:induction false} IdealIsCount(max: nat, c: Counter, calls: seq<Call>)
    requires max > 0 && Ordered(c) && LegalRun(max, c, calls) && NoneMissed(max, c, calls)
    ensures IdealAll(max, c, calls) == CountAll(max, c, calls)
  {
    if calls != [] {
      var n := |calls| - 1;
      LegalPrefix(max, c, calls, n);
      MissedPrefix(max, c, calls, n);
      assert LegalAt(max, c, calls, n) && !MissedAt(max, c, calls, n);
      IdealIsCount(max, c, calls[..n]);
      RunOrdered(max, c, calls[..n]);
      SameUnlessMissed(max, CountAll(max, c, calls[..n]), calls[n]);
    }
  }

  /** The output is that of the counter which knows every repeated input. */
  predicate Right(max: nat, s: State, calls: seq<Call>, i: nat)
    requires Valid(max, s) && i < |calls|
  {
    Output(max, s, calls, i) == Owed(max, IdealOut(max, Start(s), calls, i))
  }

  lemma RightAt(max: nat, s: State, calls: seq<Call>, i: nat)
    requires Valid(max, s) && s.reinit && LegalRun(max, Start(s), calls) && i < |calls|
    requires NoneMissed(max, Start(s), calls[..i])
    ensures Right(max, s, calls, i) <==> Owed(max, OutAt(max, Start(s), calls, i)) == Owed(max, IdealCount(max, CountAll(max, Start(s), calls[..i]), calls[i]).1)
  {
    RefinesCounter(max, s, calls, i);
    LegalPrefix(max, Start(s), calls, i);
    IdealIsCount(max, Start(s), calls[..i]);
  }

  /** In every in-order run with no missed repeat, repeated inputs change nothing. */
  lemma RepeatsHarmless(max: nat, s: State, calls: seq<Call>, i: nat)
    requires Valid(max, s) && s.reinit && LegalRun(max, Start(s), calls) && NoneMissed(max, Start(s), calls) && i < |calls|
    ensures Right(max, s, calls, i)
  {
    LegalPrefix(max, Start(s), calls, i);
    MissedPrefix(max, Start(s), calls, i);
    assert LegalAt(max, Start(s), calls, i) && !MissedAt(max, Start(s), calls, i);
    RightAt(max, s, calls, i);
    RunOrdered(max, Start(s), calls[..i]);
    SameUnlessMissed(max, CountAll(max, Start(s), calls[..i]), calls[i]);
  }

  // ---------------------------------------------------------------- with one

  /** A new input that may come next. */
  predicate MayFollow(max: nat, c: Counter, u: nat) {
    Legal(max, c, Forward(u)) && c.prev != Some(u)
  }

  /** A missed repeat is forwarded, although it was dropped. */
  lemma MissedForward(max: nat, c: Counter, t: nat)
    requires max > 0 && Missed(max, c, Forward(t))
    ensures Count(max, c, Forward(t)).1.Some? && IdealCount(max, c, Forward(t)).1.None?
  {
  }

  /** Or it is counted as one more drop, and what is forwarded next comes out one too low. */
  lemma MissedDrop(max: nat, c: Counter, t: nat, u: nat)
    requires max > 1 && Missed(max, c, Drop(t)) && u > t
    ensures var a, b := Count(max, Count(max, c, Drop(t)).0, Forward(u)).1, IdealCount(max, IdealCount(max, c, Drop(t)).0, Forward(u)).1;
      a.Some? && b.Some? && a.value == b.value - 1 && Owed(max, a) != Owed(max, b)
  {
    var out := IdealCount(max, IdealCount(max, c, Drop(t)).0, Forward(u)).1.value;
    ModAhead(max, out - 1, out);
  }

  /** The calls and one more. */
  lemma LegalMore(max: nat, c: Counter, calls: seq<Call>, call: Call, longer: seq<Call>)
    requires max > 0 && longer == calls + [call]
    ensures CountAll(max, c, longer) == Count(max, CountAll(max, c, calls), call).0
    ensures IdealAll(max, c, longer) == IdealCount(max, IdealAll(max, c, calls), call).0
    ensures OutAt(max, c, longer, |calls|) == Count(max, CountAll(max, c, calls), call).1
    ensures IdealOut(max, c, longer, |calls|) == IdealCount(max, IdealAll(max, c, calls), call).1
  {
    assert longer[..|calls|] == calls;
  }

  lemma LegalLonger(max: nat, c: Counter, calls: seq<Call>, call: Call, longer: seq<Call>)
    requires max > 0 && longer == calls + [call]
    requires LegalRun(max, c, calls) && Legal(max, CountAll(max, c, calls), call)
    ensures LegalRun(max, c, longer)
  {
    forall i: nat | i < |longer|
      ensures LegalAt(max, c, longer, i)
    {
      assert longer[..i] == calls[..i];
      if i < |calls| { assert LegalAt(max, c, calls, i); } else { assert calls[..i] == calls; }
    }
  }

  lemma MissedLonger(max: nat, c: Counter, calls: seq<Call>, call: Call, longer: seq<Call>)
    requires max > 0 && longer == calls + [call]
    requires NoneMissed(max, c, calls) && !Missed(max, CountAll(max, c, calls), call)
    ensures NoneMissed(max, c, longer)
  {
    forall i: nat | i < |longer|
      ensures !MissedAt(max, c, longer, i)
    {
      assert longer[..i] == calls[..i];
      if i < |calls| { assert !MissedAt(max, c, calls, i); } else { assert calls[..i] == calls; }
    }
  }

  /** All that the call itself and the next new input give is right. */
  ghost predicate RightAfter(max: nat, s: State, calls: seq<Call>, call: Call)
    requires Valid(max, s)
  {
    && Right(max, s, calls + [call], |calls|)
    && forall u: nat :: MayFollow(max, CountAll(max, Start(s), calls + [call]), u) ==>
         Right(max, s, calls + [call] + [Forward(u)], |calls| + 1)
  }

  /** A missed drop after which no new input can come in order does no harm. */
  predicate Last(max: nat, c: Counter, call: Call) {
    call.Drop? && call.t + 1 >= c.gen + max / 2
  }

  lemma RightIfNotMissed(max: nat, s: State, calls: seq<Call>, call: Call)
    requires Valid(max, s) && s.reinit && LegalRun(max, Start(s), calls + [call])
    requires NoneMissed(max, Start(s), calls + [call])
    ensures RightAfter(max, s, calls, call)
  {
    var c := Start(s);
    var longer := calls + [call];
    RepeatsHarmless(max, s, longer, |calls|);
    forall u: nat | MayFollow(max, CountAll(max, c, longer), u)
      ensures Right(max, s, longer + [Forward(u)], |calls| + 1)
    {
      LegalLonger(max, c, longer, Forward(u), longer + [Forward(u)]);
      MissedLonger(max, c, longer, Forward(u), longer + [Forward(u)]);
      RepeatsHarmless(max, s, longer + [Forward(u)], |calls| + 1);
    }
  }

  lemma DropIsSilent(max: nat, s: State, calls: seq<Call>, t: nat)
    requires Valid(max, s)
    ensures Right(max, s, calls + [Drop(t)], |calls|)
  {
    var longer := calls + [Drop(t)];
    assert longer[|calls|] == Drop(t);
    assert Output(max, s, longer, |calls|) == None;
    assert IdealOut(max, Start(s), longer, |calls|) == None;
  }

  lemma LastNoFollow(max: nat, c: Counter, call: Call, u: nat)
    requires max > 0 && Missed(max, c, call) && Last(max, c, call)
    ensures !MayFollow(max, Count(max, c, call).0, u)
  {
  }

  lemma RightIfLast(max: nat, s: State, calls: seq<Call>, call: Call)
    requires Valid(max, s)
    requires Missed(max, CountAll(max, Start(s), calls), call) && Last(max, CountAll(max, Start(s), calls), call)
    ensures RightAfter(max, s, calls, call)
  {
    var c := Start(s);
    DropIsSilent(max, s, calls, call.t);
    CountMore(max, c, calls, call, calls + [call]);
    forall u: nat
      ensures !MayFollow(max, CountAll(max, c, calls + [call]), u)
    {
      LastNoFollow(max, CountAll(max, c, calls), call, u);
    }
  }

  lemma CountMore(max: nat, c: Counter, calls: seq<Call>, call: Call, longer: seq<Call>)
    requires max > 0 && longer == calls + [call]
    ensures CountAll(max, c, longer) == Count(max, CountAll(max, c, calls), call).0
  {
    assert longer[..|calls|] == calls;
  }

  lemma WrongForward(max: nat, s: State, calls: seq<Call>, t: nat, longer: seq<Call>)
    requires Valid(max, s) && s.reinit && longer == calls + [Forward(t)] && LegalRun(max, Start(s), longer)
    requires NoneMissed(max, Start(s), calls) && Missed(max, CountAll(max, Start(s), calls), Forward(t))
    ensures !Right(max, s, longer, |calls|)
  {
    assert longer[..|calls|] == calls;
    RightAt(max, s, longer, |calls|);
    MissedForward(max, CountAll(max, Start(s), calls), t);
  }

  /** The drop and the next input, as both counters see them. */
  lemma TwoMore(max: nat, c: Counter, calls: seq<Call>, t: nat, u: nat, longer: seq<Call>, more: seq<Call>)
    requires max > 0 && Ordered(c) && LegalRun(max, c, calls) && NoneMissed(max, c, calls)
    requires longer == calls + [Drop(t)] && more == longer + [Forward(u)]
    ensures var here := CountAll(max, c, calls);
      && OutAt(max, c, more, |calls| + 1) == Count(max, Count(max, here, Drop(t)).0, Forward(u)).1
      && IdealOut(max, c, more, |calls| + 1) == IdealCount(max, IdealCount(max, here, Drop(t)).0, Forward(u)).1
  {
    IdealIsCount(max, c, calls);
    LegalMore(max, c, calls, Drop(t), longer);
    LegalMore(max, c, longer, Forward(u), more);
  }

  lemma WrongAfterDrop(max: nat, s: State, calls: seq<Call>, t: nat, u: nat, longer: seq<Call>, more: seq<Call>)
    requires Valid(max, s) && s.reinit && longer == calls + [Drop(t)] && more == longer + [Forward(u)]
    requires LegalRun(max, Start(s), calls) && LegalRun(max, Start(s), more)
    requires NoneMissed(max, Start(s), calls) && Missed(max, CountAll(max, Start(s), calls), Drop(t)) && u > t
    ensures !Right(max, s, more, |calls| + 1)
  {
    TwoMore(max, Start(s), calls, t, u, longer, more);
    MissedDrop(max, CountAll(max, Start(s), calls), t, u);
    RefinesCounter(max, s, more, |calls| + 1);
  }

  lemma MissedMayFollow(max: nat, c: Counter, t: nat)
    requires max > 0 && Missed(max, c, Drop(t)) && !Last(max, c, Drop(t))
    ensures MayFollow(max, Count(max, c, Drop(t)).0, t + 1)
  {
  }

  lemma WrongIfMissed(max: nat, s: State, calls: seq<Call>, call: Call)
    requires Valid(max, s) && s.reinit && LegalRun(max, Start(s), calls) && LegalRun(max, Start(s), calls + [call])
    requires NoneMissed(max, Start(s), calls)
    requires Missed(max, CountAll(max, Start(s), calls), call) && !Last(max, CountAll(max, Start(s), calls), call)
    ensures !RightAfter(max, s, calls, call)
  {
    var c := Start(s);
    var longer := calls + [call];
    if call.Forward? {
      WrongForward(max, s, calls, call.t, longer);
    } else {
      var u := call.t + 1;
      CountMore(max, c, calls, call, longer);
      MissedMayFollow(max, CountAll(max, c, calls), call.t);
      LegalLonger(max, c, longer, Forward(u), longer + [Forward(u)]);
      WrongAfterDrop(max, s, calls, call.t, u, longer, longer + [Forward(u)]);
    }
  }

  /**
   After any in-order run without a missed repeat: the next call's own output, and that of every new
   input that may be forwarded after it, are right if and only if the call does not repeat an input
   dropped past a wrap, or is a drop after which no new input can come in order.
   */
  lemma RepeatIff(max: nat, s: State, calls: seq<Call>, call: Call)
    requires Valid(max, s) && s.reinit && LegalRun(max, Start(s), calls + [call]) && NoneMissed(max, Start(s), calls)
    ensures RightAfter(max, s, calls, call)
       <==> !Missed(max, CountAll(max, Start(s), calls), call) || Last(max, CountAll(max, Start(s), calls), call)
  {
    var c := Start(s);
    LegalPrefix(max, c, calls + [call], |calls|);
    assert (calls + [call])[..|calls|] == calls;
    if !Missed(max, CountAll(max, c, calls), call) {
      MissedLonger(max, c, calls, call, calls + [call]);
      RightIfNotMissed(max, s, calls, call);
    } else if Last(max, CountAll(max, c, calls), call) {
      RightIfLast(max, s, calls, call);
    } else {
      WrongIfMissed(max, s, calls, call);
    }
  }

  // ---------------------------------------------------------------- the failure, for every max

  /** Two frames get one number: the drop of a frame of two packets just past the wrap is counted twice. */
  lemma TwoFramesOneNumber(max: nat, calls: seq<Call>)
    requires max > DROPPED_LIMIT + 1
    requires calls == [Forward(max - 1), Drop(max), Drop(max), Forward(max + 1)]
    ensures var s := INITIAL.(reinit := true);
      Output(max, s, calls, 0) == Some(1) && Output(max, s, calls, 3) == Some(1)
  {
    var s := INITIAL.(reinit := true);
    var c := Start(s);
    var c1 := Counter(1, 1, 0, Some(max - 1), max - 1);
    var c2 := c1.(prev := Some(max));
    var c3 := c2.(pending := -1);
    SmallMod(max, 1);
    SmallMod(max, max - 1);
    assert calls[..0] == [];
    NextCount(max, c, calls, 0, c, c1);
    NextCount(max, c, calls, 1, c1, c2);
    NextCount(max, c, calls, 2, c2, c3);
    assert LegalRun(max, c, calls);
    RefinesCounter(max, s, calls, 0);
    RefinesCounter(max, s, calls, 3);
  }

  /** And a dropped frame whose second packet is forwarded gets the number of the frame before. */
  lemma DroppedFrameForwarded(max: nat, calls: seq<Call>)
    requires max > DROPPED_LIMIT + 1 && calls == [Forward(max - 1), Drop(max), Forward(max)]
    ensures var s := INITIAL.(reinit := true);
      Output(max, s, calls, 0) == Some(1) && Output(max, s, calls, 2) == Some(1)
  {
    var s := INITIAL.(reinit := true);
    var c := Start(s);
    var c1 := Counter(1, 1, 0, Some(max - 1), max - 1);
    var c2 := c1.(prev := Some(max));
    SmallMod(max, 1);
    SmallMod(max, max - 1);
    assert calls[..0] == [];
    NextCount(max, c, calls, 0, c, c1);
    NextCount(max, c, calls, 1, c1, c2);
    assert LegalRun(max, c, calls);
    RefinesCounter(max, s, calls, 0);
    RefinesCounter(max, s, calls, 2);
  }

  // ---------------------------------------------------------------- what is counted

  /** The inputs above `above` that the calls from `from` on drop. */
  function DropSet(calls: seq<Call>, from: nat, above: int): set<int> {
    if |calls| <= from then {}
    else
      var last := calls[|calls| - 1];
      DropSet(calls[..|calls| - 1], from, above) + (if last.Drop? && last.t > above then {last.t} else {})
  }

  /** The drops counted since an input was forwarded are the distinct inputs dropped above it. */
  ghost predicate Distinct(max: nat, c: Counter, calls: seq<Call>, i: nat, t: int)
    requires max > 0 && i < |calls|
  {
    var here, drops := CountAll(max, c, calls), DropSet(calls, i + 1, t);
    && here.gen == t && here.prev.Some? && t <= here.prev.value
    && |drops| == Drops(max, c, calls, i + 1)
    && (forall d :: d in drops ==> t < d <= here.prev.value)
    && (t < here.prev.value ==> here.prev.value in drops)
  }

  /** What one call does to the counter while nothing is forwarded. */
  lemma SilentStep(max: nat, c: Counter, call: Call)
    requires max > 0 && c.prev.Some? && c.gen <= c.prev.value && Legal(max, c, call) && !Missed(max, c, call)
    requires call.Drop? || (call.Forward? && Count(max, c, call).1.None?)
    ensures var c' := Count(max, c, call).0;
      && c'.gen == c.gen
      && (if Counts(max, c, call) then c.prev.value < call.t && c'.prev == Some(call.t)
          else c' == c && (call.Drop? ==> call.t == c.prev.value))
  {
  }

  lemma SetGrows(before: set<int>, after: set<int>, t: int)
    requires after == before + {t} && t !in before
    ensures |after| == |before| + 1
  {
  }

  lemma DistinctStep(max: nat, c: Counter, calls: seq<Call>, i: nat, t: int)
    requires max > 0 && i + 1 < |calls| && Distinct(max, c, calls[..|calls| - 1], i, t)
    requires var here, call := CountAll(max, c, calls[..|calls| - 1]), calls[|calls| - 1];
      Legal(max, here, call) && !Missed(max, here, call) && (call.Drop? || (call.Forward? && Count(max, here, call).1.None?))
    ensures Distinct(max, c, calls, i, t)
  {
    var init, call := calls[..|calls| - 1], calls[|calls| - 1];
    var here := CountAll(max, c, init);
    SilentStep(max, here, call);
    DropSetStep(calls, i + 1, t, here.prev.value, Counts(max, here, call));
  }

  lemma DropSetStep(calls: seq<Call>, from: nat, above: int, prev: int, counts: bool)
    requires |calls| > from && above <= prev
    requires var before := DropSet(calls[..|calls| - 1], from, above);
      (forall d :: d in before ==> above < d <= prev) && (above < prev ==> prev in before)
    requires var call := calls[|calls| - 1];
      if counts then call.Drop? && prev < call.t else call.Drop? ==> call.t == prev
    ensures var before, after := DropSet(calls[..|calls| - 1], from, above), DropSet(calls, from, above);
      && after == (if counts then before + {calls[|calls| - 1].t as int} else before)
      && |after| == |before| + (if counts then 1 else 0)
  {
    var before, call := DropSet(calls[..|calls| - 1], from, above), calls[|calls| - 1];
    if counts {
      SetGrows(before, DropSet(calls, from, above), call.t);
    } else {
      assert before + {} == before;
      assert call.Drop? && call.t > above ==> before + {call.t as int} == before;
    }
  }

  lemma DistinctFirst(max: nat, c: Counter, calls: seq<Call>)
    requires max > 0 && calls != [] && calls[|calls| - 1].Forward? && OutAt(max, c, calls, |calls| - 1).Some?
    ensures Distinct(max, c, calls, |calls| - 1, calls[|calls| - 1].t)
  {
    assert DropSet(calls, |calls|, calls[|calls| - 1].t) == {};
  }

  /** The facts about one call of a run. */
  lemma CallAt(max: nat, c: Counter, calls: seq<Call>, k: nat)
    requires max > 0 && LegalRun(max, c, calls) && NoneMissed(max, c, calls) && k < |calls|
    ensures var here := CountAll(max, c, calls[..k]); Legal(max, here, calls[k]) && !Missed(max, here, calls[k])
  {
    assert LegalAt(max, c, calls, k) && !MissedAt(max, c, calls, k);
  }

  lemma {:induction false} DropsAreDistinct(max: nat, c: Counter, calls: seq<Call>, i: nat, j: nat)
    requires max > 0 && LegalRun(max, c, calls) && NoneMissed(max, c, calls)
    requires i < j <= |calls| && calls[i].Forward? && OutAt(max, c, calls, i).Some?
    requires forall k :: i < k < j ==> Silent(max, c, calls, k)
    ensures Distinct(max, c, calls[..j], i, calls[i].t)
  {
    assert calls[..j][..j - 1] == calls[..j - 1];
    if j == i + 1 {
      DistinctFirst(max, c, calls[..j]);
    } else {
      DropsAreDistinct(max, c, calls, i, j - 1);
      assert Silent(max, c, calls, j - 1);
      CallAt(max, c, calls, j - 1);
      DistinctStep(max, c, calls[..j], i, calls[i].t);
    }
  }

  lemma DistinctSize(max: nat, c: Counter, calls: seq<Call>, i: nat, j: nat)
    requires max > 0 && LegalRun(max, c, calls) && NoneMissed(max, c, calls)
    requires i < j <= |calls| && calls[i].Forward? && OutAt(max, c, calls, i).Some?
    requires forall k :: i < k < j ==> Silent(max, c, calls, k)
    ensures |DropSet(calls[..j], i + 1, calls[i].t)| == Drops(max, c, calls[..j], i + 1)
  {
    DropsAreDistinct(max, c, calls, i, j);
  }

  /**
   With no missed repeat, two forwarded inputs with nothing forwarded between give outputs that
   differ modulo `max` by the distance of the inputs less the number of distinct inputs dropped
   between them, however often each was repeated.
   */
  lemma OutputsSkipDistinctDrops(max: nat, s: State, calls: seq<Call>, i: nat, j: nat)
    requires Valid(max, s) && s.reinit && LegalRun(max, Start(s), calls) && NoneMissed(max, Start(s), calls)
    requires i < j < |calls| && calls[i].Forward? && calls[j].Forward?
    requires Output(max, s, calls, i).Some? && Output(max, s, calls, j).Some?
    requires forall k :: i < k < j ==> Silent(max, Start(s), calls, k)
    ensures Output(max, s, calls, j).value ==
            (Output(max, s, calls, i).value + (calls[j].t - calls[i].t) - |DropSet(calls[..j], i + 1, calls[i].t)|) % max
  {
    RefinesCounter(max, s, calls, i);
    RefinesCounter(max, s, calls, j);
    SkipDistinct(max, Start(s), calls, i, j);
    StepMod(max, OutAt(max, Start(s), calls, i).value, OutAt(max, Start(s), calls, j).value,
            calls[j].t - calls[i].t, |DropSet(calls[..j], i + 1, calls[i].t)|);
  }

  lemma SkipDistinct(max: nat, c: Counter, calls: seq<Call>, i: nat, j: nat)
    requires max > 0 && LegalRun(max, c, calls) && NoneMissed(max, c, calls)
    requires i < j < |calls| && calls[i].Forward? && calls[j].Forward?
    requires OutAt(max, c, calls, i).Some? && OutAt(max, c, calls, j).Some?
    requires forall k :: i < k < j ==> Silent(max, c, calls, k)
    ensures OutAt(max, c, calls, j).value
         == OutAt(max, c, calls, i).value + ((calls[j].t - calls[i].t) - |DropSet(calls[..j], i + 1, calls[i].t)|)
  {
    DistinctSize(max, c, calls, i, j);
    ConsecutiveCounts(max, c, calls, i, j);
  }
}
