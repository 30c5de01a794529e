/**
 Recovery of a 64-bit RTP sequence number from its low 16 bits
 (packages/media_utils/src/seq_extend.rs).

 The main result, `RecoversIff`, says exactly how much reordering the extender
 tolerates: if every packet lies at most `back` below and at most `ahead` above the
 highest number seen so far, all numbers are recovered in every such run if and only
 if `back + ahead` is less than half a cycle, or equal to it with `ahead` zero.
 */
module SeqExtend {
  import opened Options

  const RTP_SEQ_CYCLE: nat := 65536
  const RTP_SEQ_HALF_CYCLE: nat := 32768

  type Low16 = x: nat | x < 65536

  datatype State = State(lastSeq: Option<Low16>, seqDelta: nat)

  const INITIAL := State(None, 0)

  /** One call of `generate`: the state afterwards and the value returned. */
  function Next(s: State, value: Low16): (State, Option<nat>) {
    match s.lastSeq
    case None => (s.(lastSeq := Some(value)), Some(value))
    case Some(last) =>
      if value > last && value - last > RTP_SEQ_HALF_CYCLE then
        (s, if value + s.seqDelta > RTP_SEQ_CYCLE then Some(value + s.seqDelta - RTP_SEQ_CYCLE) else None)
      else
        var delta := if value < last && last - value > RTP_SEQ_HALF_CYCLE then s.seqDelta + RTP_SEQ_CYCLE else s.seqDelta;
        (State(Some(value), delta), Some(value + delta))
  }

  class RtpSeqExtend {
    var lastSeq: Option<Low16>
    var seqDelta: nat

    ghost function View(): State
      reads this
    {
      State(lastSeq, seqDelta)
    }

    constructor ()
      ensures View() == INITIAL
    {
      lastSeq, seqDelta := None, 0;
    }

    method Generate(value: Low16) returns (r: Option<nat>)
      modifies this
      ensures (View(), r) == Next(old(View()), value)
    {
      if lastSeq.Some? {
        var last := lastSeq.value;
        if value > last && value - last > RTP_SEQ_HALF_CYCLE {
          if value + seqDelta > RTP_SEQ_CYCLE {
            return Some(value + seqDelta - RTP_SEQ_CYCLE);
          } else {
            return None;
          }
        }
        if value < last && last - value > RTP_SEQ_HALF_CYCLE {
          seqDelta := seqDelta + RTP_SEQ_CYCLE;
        }
        lastSeq := Some(value);
        return Some(value + seqDelta);
      } else {
        lastSeq := Some(value);
        return Some(value);
      }
    }
  }

  // ---------------------------------------------------------------- runs

  /** The state after feeding the low bits of the true numbers `ts`, in order. */
  function After(ts: seq<nat>): State {
    if ts == [] then INITIAL else Next(After(ts[..|ts| - 1]), ts[|ts| - 1] % RTP_SEQ_CYCLE).0
  }

  /** What `generate` returns for the last of the true numbers `ts`. */
  function LastOutput(ts: seq<nat>): Option<nat>
    requires ts != []
  {
    Next(After(ts[..|ts| - 1]), ts[|ts| - 1] % RTP_SEQ_CYCLE).1
  }

  function Highest(ts: seq<nat>): nat
    requires ts != []
  {
    if |ts| == 1 then ts[0]
    else
      var h := Highest(ts[..|ts| - 1]);
      if ts[|ts| - 1] > h then ts[|ts| - 1] else h
  }

  /** The first number is in the first cycle; each later one is near the highest before it. */
  ghost predicate InWindow(ts: seq<nat>, back: nat, ahead: nat) {
    |ts| > 0 ==>
      && InWindow(ts[..|ts| - 1], back, ahead)
      && var t := ts[|ts| - 1];
         if |ts| == 1 then t < RTP_SEQ_CYCLE
         else
           var h := Highest(ts[..|ts| - 1]);
           h - back <= t <= h + ahead
  }

  /** Every call of the run returns the true number. */
  ghost predicate Recovered(ts: seq<nat>) {
    forall n :: 1 <= n <= |ts| ==> LastOutput(ts[..n]) == Some(ts[n - 1])
  }

  /** The extender remembers some true number at most `back` below the highest one. */
  ghost predicate Tracks(s: State, h: nat, back: nat, last: nat) {
    && h - back <= last <= h
    && s.lastSeq == Some(last % RTP_SEQ_CYCLE)
    && s.seqDelta == last - last % RTP_SEQ_CYCLE
  }

  /** One step decodes every number less than half a cycle away from the remembered one. */
  lemma NextDecodes(s: State, h: nat, back: nat, last: nat, t: nat)
    requires Tracks(s, h, back, last)
    requires t < last + RTP_SEQ_HALF_CYCLE && last < t + RTP_SEQ_HALF_CYCLE
    ensures Next(s, t % RTP_SEQ_CYCLE).1 == Some(t)
    ensures var s' := Next(s, t % RTP_SEQ_CYCLE).0;
      if t / RTP_SEQ_CYCLE < last / RTP_SEQ_CYCLE then s' == s
      else s' == State(Some(t % RTP_SEQ_CYCLE), t - t % RTP_SEQ_CYCLE)
  {
    var ct, cl := t / RTP_SEQ_CYCLE, last / RTP_SEQ_CYCLE;
    assert t == ct * RTP_SEQ_CYCLE + t % RTP_SEQ_CYCLE;
    assert last == cl * RTP_SEQ_CYCLE + last % RTP_SEQ_CYCLE;
    assert cl - 1 <= ct <= cl + 1;
  }

  lemma {:induction false} RunTracks(ts: seq<nat>, back: nat, ahead: nat) returns (last: nat)
    requires ts != []
    requires InWindow(ts, back, ahead)
    requires back + ahead < RTP_SEQ_HALF_CYCLE
    ensures Tracks(After(ts), Highest(ts), back, last)
    ensures LastOutput(ts) == Some(ts[|ts| - 1])
  {
    var t := ts[|ts| - 1];
    if |ts| == 1 {
      assert ts[..0] == [];
      last := t;
    } else {
      var init := ts[..|ts| - 1];
      var l := RunTracks(init, back, ahead);
      NextDecodes(After(init), Highest(init), back, l, t);
      last := if t / RTP_SEQ_CYCLE < l / RTP_SEQ_CYCLE then l else t;
    }
  }

  lemma {:induction false} PrefixInWindow(ts: seq<nat>, n: nat, back: nat, ahead: nat)
    requires n <= |ts| && InWindow(ts, back, ahead)
    ensures InWindow(ts[..n], back, ahead)
  {
    if n == |ts| {
      assert ts[..n] == ts;
    } else {
      PrefixInWindow(ts[..|ts| - 1], n, back, ahead);
      assert ts[..|ts| - 1][..n] == ts[..n];
    }
  }

  lemma WindowRecovers(ts: seq<nat>, back: nat, ahead: nat)
    requires InWindow(ts, back, ahead) && back + ahead < RTP_SEQ_HALF_CYCLE
    ensures Recovered(ts)
  {
    forall n | 1 <= n <= |ts| ensures LastOutput(ts[..n]) == Some(ts[n - 1]) {
      PrefixInWindow(ts, n, back, ahead);
      var _ := RunTracks(ts[..n], back, ahead);
    }
  }

  /** A late packet followed by one exactly half a cycle ahead of it is decoded one cycle too low. */
  lemma HalfCycleJumpLost(late: nat)
    requires RTP_SEQ_HALF_CYCLE <= late < RTP_SEQ_CYCLE
    ensures !Recovered([65535, late, late + RTP_SEQ_HALF_CYCLE])
  {
    var ts := [65535, late, late + RTP_SEQ_HALF_CYCLE];
    assert ts[..0] == [] && ts[..1][..0] == [] && ts[..2][..1] == ts[..1] && ts[..3][..2] == ts[..2];
    assert After(ts[..1]) == State(Some(65535), 0);
    assert ts[..2][1] == late;
    assert After(ts[..2]) == Next(After(ts[..1]), late % RTP_SEQ_CYCLE).0 == State(Some(late), 0);
    assert ts[..3][2] == late + RTP_SEQ_HALF_CYCLE;
    assert (late + RTP_SEQ_HALF_CYCLE) % RTP_SEQ_CYCLE == late - RTP_SEQ_HALF_CYCLE;
    assert LastOutput(ts[..3]) == Some(late - RTP_SEQ_HALF_CYCLE);
  }

  /** When nothing ever comes after the first packet, all stay in the first cycle and half a cycle back is still fine. */
  lemma {:induction false} FlatRun(ts: seq<nat>, back: nat)
    requires ts != [] && InWindow(ts, back, 0) && back <= RTP_SEQ_HALF_CYCLE
    ensures Highest(ts) == ts[0] < RTP_SEQ_CYCLE && ts[0] - back <= ts[|ts| - 1] <= ts[0]
    ensures After(ts) == State(Some(ts[|ts| - 1]), 0) && LastOutput(ts) == Some(ts[|ts| - 1])
  {
    var n := |ts| - 1;
    if n == 0 {
      assert ts[..0] == [];
    } else {
      FlatRun(ts[..n], back);
      assert ts[n] % RTP_SEQ_CYCLE == ts[n];
    }
  }

  lemma FlatRecovers(ts: seq<nat>, back: nat)
    requires InWindow(ts, back, 0) && back <= RTP_SEQ_HALF_CYCLE
    ensures Recovered(ts)
  {
    forall n | 1 <= n <= |ts|
      ensures LastOutput(ts[..n]) == Some(ts[n - 1])
    {
      PrefixInWindow(ts, n, back, 0);
      FlatRun(ts[..n], back);
    }
  }

  /** A packet more than half a cycle late is decoded one cycle too high. */
  lemma TooLateLost(ts: seq<nat>)
    requires ts == [65535, 32766]
    ensures !Recovered(ts)
  {
    assert ts[..1][..0] == [] && ts[..2][..1] == ts[..1];
    assert After(ts[..1]) == State(Some(65535), 0);
    assert LastOutput(ts[..2]) == Some(32766 + RTP_SEQ_CYCLE);
  }

  /** Such a packet is in the window. */
  lemma TooLateInWindow(ts: seq<nat>, back: nat, ahead: nat)
    requires ts == [65535, 32766] && back > RTP_SEQ_HALF_CYCLE
    ensures InWindow(ts, back, ahead)
  {
    assert ts[..1][..0] == [];
    assert Highest(ts[..1]) == 65535;
    assert InWindow(ts[..1], back, ahead);
  }

  lemma HalfCycleInWindow(ts: seq<nat>, late: nat, back: nat, ahead: nat)
    requires ts == [65535, late, late + RTP_SEQ_HALF_CYCLE] && RTP_SEQ_HALF_CYCLE <= late < RTP_SEQ_CYCLE
    requires 65535 - back <= late && late + RTP_SEQ_HALF_CYCLE <= 65535 + ahead
    ensures InWindow(ts, back, ahead)
  {
    assert ts[..1][..0] == [] && ts[..2][..1] == ts[..1];
    assert Highest(ts[..1]) == 65535;
    assert InWindow(ts[..1], back, ahead);
    assert ts[..2][1] == late;
    assert InWindow(ts[..2], back, ahead) && Highest(ts[..2]) == 65535;
  }

  /** A run in the window that is not recovered. */
  lemma WindowTooWide(back: nat, ahead: nat) returns (ts: seq<nat>)
    requires back + ahead >= RTP_SEQ_HALF_CYCLE && !(ahead == 0 && back == RTP_SEQ_HALF_CYCLE)
    ensures InWindow(ts, back, ahead) && !Recovered(ts)
  {
    if ahead == 0 {
      ts := [65535, 32766];
      TooLateInWindow(ts, back, ahead);
      TooLateLost(ts);
    } else {
      var b := if back < RTP_SEQ_HALF_CYCLE then back else RTP_SEQ_HALF_CYCLE - 1;
      ts := [65535, 65535 - b, 65535 - b + RTP_SEQ_HALF_CYCLE];
      HalfCycleInWindow(ts, 65535 - b, back, ahead);
      HalfCycleJumpLost(65535 - b);
    }
  }

  /** How much reordering is tolerated, exactly. */
  lemma RecoversIff(back: nat, ahead: nat)
    ensures (forall ts: seq<nat> :: InWindow(ts, back, ahead) ==> Recovered(ts))
       <==> back + ahead < RTP_SEQ_HALF_CYCLE || (ahead == 0 && back == RTP_SEQ_HALF_CYCLE)
  {
    if back + ahead < RTP_SEQ_HALF_CYCLE || (ahead == 0 && back == RTP_SEQ_HALF_CYCLE) {
      forall ts: seq<nat> | InWindow(ts, back, ahead)
        ensures Recovered(ts)
      {
        if ahead == 0 {
          FlatRecovers(ts, back);
        } else {
          WindowRecovers(ts, back, ahead);
        }
      }
    } else {
      var _ := WindowTooWide(back, ahead);
    }
  }
}
