/**
 Renumbering of RTP sequence numbers modulo MAX while some packets are dropped and new
 streams are spliced in (packages/media_utils/src/seq_rewrite.rs).

 `State` and the functions on it specify the class `Rewriter`, which updates its fields in
 place as the source does.  What the source promises about whole runs is proved in
 `SeqRewriteInOrder` and `SeqRewriteReordered`.
 */
module SeqRewrite {
  import opened Options

  /** More recorded drops than this are folded into the base. */
  const DROPPED_LIMIT: nat := 1000

  datatype State = State(
    base: nat,
    maxOutput: nat,
    maxInput: nat,
    seqDelta: nat,
    dropped: seq<nat>,
    reinit: bool,
    reinitOffset: Option<nat>)

  const INITIAL := State(0, 0, 0, 0, [], false, None)

  predicate Increasing(s: seq<nat>) {
    |s| >= 2 ==> s[0] < s[1] && Increasing(s[1..])
  }

  lemma {:induction false} FirstIsLeast(s: seq<nat>)
    requires Increasing(s)
    ensures forall i :: 0 < i < |s| ==> s[0] < s[i]
  {
    if |s| >= 2 {
      FirstIsLeast(s[1..]);
      assert forall i :: 1 < i < |s| ==> s[i] == s[1..][i - 1];
    }
  }

  /** What every call keeps; the bound on `max` is what keeps the source's assertions from failing. */
  predicate Valid(max: nat, s: State) {
    && max > DROPPED_LIMIT + 1
    && s.base < max && s.maxOutput < max && s.maxInput < max
    && Increasing(s.dropped) && |s.dropped| <= DROPPED_LIMIT
  }

  function WrappingSub(max: nat, a: nat, b: nat): (r: nat)
    requires a < max && b < max
    ensures r < max
  {
    if a >= b then a - b else a + max - b
  }

  function WrappingAdd(max: nat, a: nat, b: nat): (r: nat)
    requires max > 0
    ensures r < max
  {
    (a + b) % max
  }

  predicate IsSeqHigherThan(max: nat, lhs: nat, rhs: nat) {
    (lhs > rhs && lhs - rhs <= max / 2) || (rhs > lhs && rhs - lhs > max / 2)
  }

  /** Where a binary search for the absent `x` ends: the number of smaller elements. */
  function CountBelow(s: seq<nat>, x: nat): (n: nat)
    requires Increasing(s)
    ensures n <= |s|
    ensures forall i :: 0 <= i < |s| ==> (s[i] < x <==> i < n)
  {
    if s == [] then 0
    else if s[0] >= x then
      FirstIsLeast(s);
      0
    else
      assert forall i :: 0 < i < |s| ==> s[i] == s[1..][i - 1];
      1 + CountBelow(s[1..], x)
  }

  /** Insertion into the sorted set. */
  function Insert(s: seq<nat>, x: nat): (r: seq<nat>)
    requires Increasing(s)
    ensures Increasing(r) && |r| == if x in s then |s| else |s| + 1
    ensures forall y :: y in r <==> y == x || y in s
    ensures s != [] && s[0] < x ==> r[0] == s[0]
    ensures x in s ==> r == s
  {
    if s == [] || x < s[0] then
      FirstIsLeast(s);
      assert ([x] + s)[1..] == s;
      [x] + s
    else if x == s[0] then s
    else
      var rest := Insert(s[1..], x);
      var r := [s[0]] + rest;
      assert s == [s[0]] + s[1..] && r[1..] == rest;
      assert |s| >= 2 ==> s[1..][0] == s[1];
      r
  }

  function Sync(max: nat, s: State, value: nat): (r: State)
    requires Valid(max, s) && value < max
    ensures Valid(max, r)
  {
    s.(base := WrappingSub(max, s.maxOutput, value), maxInput := value, seqDelta := 0, dropped := [])
  }

  function AddOffset(max: nat, s: State, offset: nat): (r: State)
    requires Valid(max, s)
    ensures Valid(max, r)
  {
    if s.reinit then
      s.(reinitOffset := Some(offset + if s.reinitOffset.Some? then s.reinitOffset.value else 0))
    else
      s.(base := WrappingAdd(max, s.base, offset))
  }

  /** A pending reinit makes the next input the start of a new stream. */
  function Settle(max: nat, s: State, input: nat): (r: State)
    requires Valid(max, s) && input < max
    ensures Valid(max, r) && !r.reinit
  {
    if !s.reinit then s
    else
      var synced := Sync(max, s.(reinit := false), WrappingSub(max, input, 1));
      if synced.reinitOffset.None? then synced
      else AddOffset(max, synced.(reinitOffset := None), synced.reinitOffset.value)
  }

  /** The cycle counter after seeing `value`. */
  function ExtendedDelta(max: nat, s: State, value: nat): nat {
    if value < s.maxInput && s.maxInput - value > max / 2 then s.seqDelta + max else s.seqDelta
  }

  /** The state in which an input is looked up: its stream begun and its cycle counted. */
  function Arrive(max: nat, s: State, input: nat): (r: State)
    requires Valid(max, s) && input < max
    ensures Valid(max, r) && !r.reinit
  {
    var s1 := Settle(max, s, input);
    s1.(seqDelta := ExtendedDelta(max, s1, input))
  }

  /** Record the input as dropped if it is higher than every input forwarded. */
  function Mark(max: nat, s: State, input: nat): (r: State)
    requires Valid(max, s)
    ensures |r.dropped| <= DROPPED_LIMIT + 1 && Increasing(r.dropped) && r == s.(dropped := r.dropped)
  {
    if IsSeqHigherThan(max, input, s.maxInput) then s.(dropped := Insert(s.dropped, s.seqDelta + input)) else s
  }

  /** Beyond the limit the oldest drop is folded into the base. */
  function Truncate(max: nat, s: State): (r: State)
    requires Valid(max, s.(dropped := [])) && |s.dropped| <= DROPPED_LIMIT + 1 && Increasing(s.dropped)
    ensures Valid(max, r)
  {
    if |s.dropped| > DROPPED_LIMIT then
      var excess := |s.dropped| - DROPPED_LIMIT;
      s.(dropped := s.dropped[excess..], base := WrappingSub(max, s.base, excess))
    else s
  }

  function DropValue(max: nat, s: State, input: nat): (r: State)
    requires Valid(max, s) && input < max
    ensures Valid(max, r)
  {
    Truncate(max, Mark(max, Arrive(max, s, input), input))
  }

  /** The output of an input that is not dropped: shifted by the base, less the drops below it. */
  function Shifted(max: nat, s: State, input: nat): (output: nat)
    requires Valid(max, s)
    ensures output < max
  {
    WrappingAdd(max, input, WrappingSub(max, s.base, CountBelow(s.dropped, s.seqDelta + input)))
  }

  /** Keep the largest input and output seen, unless half a cycle or more ahead. */
  function Keep(max: nat, s: State, input: nat, output: nat): (r: State)
    requires Valid(max, s) && input < max && output < max
    ensures Valid(max, r)
  {
    s.(maxInput := if WrappingSub(max, input, s.maxInput) < max / 2 then input else s.maxInput,
       maxOutput := if WrappingSub(max, output, s.maxOutput) < max / 2 then output else s.maxOutput)
  }

  function Generate(max: nat, s: State, input: nat): (r: (State, Option<nat>))
    requires Valid(max, s) && input < max
    ensures Valid(max, r.0)
  {
    var s1 := Arrive(max, s, input);
    if s1.seqDelta + input in s1.dropped then (s1, None)
    else
      var output := Shifted(max, s1, input);
      (Keep(max, s1, input, output), Some(output))
  }

  class Rewriter {
    const max: nat
    var base: nat
    var maxOutput: nat
    var maxInput: nat
    var seqDelta: nat
    var dropped: seq<nat>
    var reinit: bool
    var reinitOffset: Option<nat>

    ghost function View(): State
      reads this
    {
      State(base, maxOutput, maxInput, seqDelta, dropped, reinit, reinitOffset)
    }

    constructor (max: nat)
      ensures this.max == max && View() == INITIAL
    {
      this.max := max;
      base, maxOutput, maxInput, seqDelta, dropped := 0, 0, 0, 0, [];
      reinit, reinitOffset := false, None;
    }

    method Reinit()
      modifies this
      ensures View() == old(View()).(reinit := true)
    {
      reinit := true;
    }

    method Offset(offset: nat)
      requires Valid(max, View())
      modifies this
      ensures View() == AddOffset(max, old(View()), offset)
    {
      if reinit {
        reinitOffset := Some(offset + if reinitOffset.Some? then reinitOffset.value else 0);
      } else {
        base := WrappingAdd(max, base, offset);
      }
    }

    method SettleReinit(input: nat)
      requires Valid(max, View()) && input < max
      modifies this
      ensures View() == Settle(max, old(View()), input)
    {
      if reinit {
        reinit := false;
        var value := WrappingSub(max, input, 1);
        base := WrappingSub(max, maxOutput, value);
        maxInput := value;
        seqDelta := 0;
        dropped := [];
        if reinitOffset.Some? {
          var offset := reinitOffset.value;
          reinitOffset := None;
          Offset(offset);
        }
      }
    }

    method ExtendedSeq(value: nat) returns (extended: nat)
      modifies this`seqDelta
      ensures seqDelta == ExtendedDelta(max, old(View()), value) && extended == seqDelta + value
    {
      if value < maxInput && maxInput - value > max / 2 {
        seqDelta := seqDelta + max;
      }
      extended := seqDelta + value;
    }

    method DropInput(input: nat)
      requires Valid(max, View()) && input < max
      modifies this
      ensures View() == DropValue(max, old(View()), input)
    {
      SettleReinit(input);
      var extended := ExtendedSeq(input);
      assert View() == Arrive(max, old(View()), input);
      if IsSeqHigherThan(max, input, maxInput) {
        dropped := Insert(dropped, extended);
      }
      assert View() == Mark(max, Arrive(max, old(View()), input), input);
      if |dropped| > DROPPED_LIMIT {
        var excess := |dropped| - DROPPED_LIMIT;
        dropped := dropped[excess..];
        base := WrappingSub(max, base, excess);
      }
    }

    method GenerateOutput(input: nat) returns (r: Option<nat>)
      requires Valid(max, View()) && input < max
      modifies this
      ensures (View(), r) == Generate(max, old(View()), input)
    {
      SettleReinit(input);
      var extended := ExtendedSeq(input);
      assert View() == Arrive(max, old(View()), input);
      var shifted := base;
      if dropped != [] {
        if extended in dropped {
          return None;
        }
        shifted := WrappingSub(max, base, CountBelow(dropped, extended));
      }
      var output := WrappingAdd(max, input, shifted);
      assert output == Shifted(max, View(), input);
      var idelta := WrappingSub(max, input, maxInput);
      var odelta := WrappingSub(max, output, maxOutput);
      if idelta < max / 2 {
        maxInput := input;
      }
      if odelta < max / 2 {
        maxOutput := output;
      }
      return Some(output);
    }
  }

  // ---------------------------------------------------------------- runs

  /** A call on the rewriter.  Inputs are true numbers; the rewriter sees their remainder by `max`. */
  datatype Call = Reinit | Offset(offset: nat) | Drop(t: nat) | Forward(t: nat)

  function Apply(max: nat, s: State, c: Call): (r: (State, Option<nat>))
    requires Valid(max, s)
    ensures Valid(max, r.0)
  {
    match c
    case Reinit => (s.(reinit := true), None)
    case Offset(offset) => (AddOffset(max, s, offset), None)
    case Drop(t) => (DropValue(max, s, t % max), None)
    case Forward(t) => Generate(max, s, t % max)
  }

  function After(max: nat, s: State, calls: seq<Call>): (r: State)
    requires Valid(max, s)
    ensures Valid(max, r)
  {
    if calls == [] then s else Apply(max, After(max, s, calls[..|calls| - 1]), calls[|calls| - 1]).0
  }

  /** What the `i`-th call of the run returns. */
  function Output(max: nat, s: State, calls: seq<Call>, i: nat): Option<nat>
    requires Valid(max, s) && i < |calls|
  {
    Apply(max, After(max, s, calls[..i]), calls[i]).1
  }

  /** A run of up to four calls, unrolled. */
  lemma Unroll(max: nat, s: State, calls: seq<Call>)
    requires Valid(max, s) && 3 <= |calls| <= 4
    ensures var s1 := Apply(max, s, calls[0]).0;
      var s2 := Apply(max, s1, calls[1]).0;
      var s3 := Apply(max, s2, calls[2]).0;
      && Output(max, s, calls, 0) == Apply(max, s, calls[0]).1
      && Output(max, s, calls, 1) == Apply(max, s1, calls[1]).1
      && Output(max, s, calls, 2) == Apply(max, s2, calls[2]).1
      && (|calls| == 4 ==> Output(max, s, calls, 3) == Apply(max, s3, calls[3]).1)
  {
    assert calls[..0] == [] && calls[..1][..0] == [] && calls[..2][..1] == calls[..1] && calls[..3][..2] == calls[..2];
    assert After(max, s, calls[..1]) == Apply(max, s, calls[0]).0;
    assert After(max, s, calls[..2]) == Apply(max, After(max, s, calls[..1]), calls[1]).0;
    assert After(max, s, calls[..3]) == Apply(max, After(max, s, calls[..2]), calls[2]).0;
  }
}
