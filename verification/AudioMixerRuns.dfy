/**
 The mixer as an object updated in place, and what holds over whole runs of it.
 */
module AudioMixerRuns {
  import opened Options
  import opened AudioMixer

  class Allocator {
    var len: nat
    var order: seq<Source>
    var sources: map<Source, SourceState>
    var outputs: seq<Option<OutputSlot>>

    ghost function View(): Mixer
      reads this
    {
      Mixer(len, order, sources, outputs)
    }

    ghost predicate Valid()
      reads this
    {
      Linked(View()) && Listed(View())
    }

    constructor (output: nat)
      ensures Valid() && View() == Empty(output)
    {
      len, order, sources := 0, [], map[];
      outputs := seq(output, _ => None);
      new;
      NoneFilled(outputs);
    }

    method FindEmptySlot() returns (r: Option<nat>)
      ensures r == FirstEmpty(outputs)
    {
      for i := 0 to |outputs|
        invariant FirstEmpty(outputs[..i]).None?
      {
        assert outputs[..i + 1][..i] == outputs[..i];
        if outputs[i].None? {
          EmptyFound(outputs, i);
          return Some(i);
        }
      }
      assert outputs[..|outputs|] == outputs;
      return None;
    }

    method LowestSlot() returns (lowest: Option<nat>)
      ensures lowest == Lowest(outputs)
    {
      lowest := None;
      for i := 0 to |outputs|
        invariant lowest == Lowest(outputs[..i])
      {
        assert outputs[..i + 1][..i] == outputs[..i];
        if outputs[i].Some? {
          if lowest.Some? {
            if outputs[i].value.audioLevel <= outputs[lowest.value].value.audioLevel {
              lowest := Some(i);
            }
          } else {
            lowest := Some(i);
          }
        }
      }
      assert outputs[..|outputs|] == outputs;
    }

    method PacketUnchecked(now: nat, source: Source, audioLevel: Option<int>) returns (r: Option<(nat, bool)>)
      requires SearchesAgree(View()) && (|outputs| > 0 || source !in sources)
      modifies this
      ensures (View(), r) == OnPkt(old(View()), now, source, audioLevel)
    {
      var level := if audioLevel.Some? then audioLevel.value else SILENT_LEVEL;
      if source in sources {
        var s := sources[source];
        sources := sources[source := SourceState(now, s.slot)];
        if s.slot.Some? {
          return Some((s.slot.value, false));
        } else if len < |outputs| {
          var slot := FindEmptySlot();
          sources := sources[source := SourceState(now, slot)];
          assert sources == old(sources)[source := SourceState(now, slot)];
          outputs := outputs[slot.value := Some(OutputSlot(level, source))];
          len := len + 1;
          return Some((slot.value, true));
        } else {
          var lowest := LowestSlot();
          var loser := outputs[lowest.value].value;
          if loser.source != source && level >= loser.audioLevel + SWITCH_AUDIO_THRESHOLD {
            sources := sources[source := SourceState(now, lowest)];
            assert sources == old(sources)[source := SourceState(now, lowest)];
            sources := sources[loser.source := sources[loser.source].(slot := None)];
            outputs := outputs[lowest.value := Some(OutputSlot(level, source))];
            return Some((lowest.value, true));
          } else {
            return None;
          }
        }
      } else {
        var slot := FindEmptySlot();
        order := order + [source];
        if slot.Some? {
          sources := sources[source := SourceState(now, slot)];
          outputs := outputs[slot.value := Some(OutputSlot(level, source))];
          len := len + 1;
          return Some((slot.value, true));
        } else {
          sources := sources[source := SourceState(now, None)];
          return None;
        }
      }
    }

    /** With no slots at all a second packet of a source would find nothing to push out. */
    method Packet(now: nat, source: Source, audioLevel: Option<int>) returns (r: Option<(nat, bool)>)
      requires Valid() && (|outputs| > 0 || source !in sources)
      modifies this
      ensures Valid() && (View(), r) == OnPkt(old(View()), now, source, audioLevel)
    {
      LinkedSearchesAgree(View());
      PktLinked(View(), now, source, audioLevel);
      PktListed(View(), now, source, audioLevel);
      r := PacketUnchecked(now, source, audioLevel);
    }

    method Expire(now: nat, source: Source) returns (cleared: seq<nat>)
      requires Linked(View())
      modifies this
      ensures (View(), cleared) == ExpireOne(old(View()), now, source)
    {
      cleared := [];
      if source in sources {
        var v := sources[source];
        if v.lastChangedAt + AUDIO_SLOT_TIMEOUT <= now {
          sources := sources - {source};
          if v.slot.Some? {
            FilledPositive(outputs, v.slot.value);
            outputs := outputs[v.slot.value := None];
            len := len - 1;
            cleared := [v.slot.value];
          }
        }
      }
    }

    method ExpireAll(now: nat) returns (cleared: seq<nat>)
      requires Linked(View())
      modifies this
      ensures (View(), cleared) == Sweep(old(View()), now, old(order))
    {
      var keys := order;
      cleared := [];
      for i := 0 to |keys|
        invariant Linked(View())
        invariant (View(), cleared) == Sweep(old(View()), now, keys[..i])
      {
        ExpireLinked(View(), now, keys[i]);
        assert keys[..i + 1][..i] == keys[..i];
        var more := Expire(now, keys[i]);
        cleared := cleared + more;
      }
      assert keys[..|keys|] == keys;
    }

    method Tick(now: nat) returns (clear: Option<seq<nat>>)
      requires Valid()
      modifies this
      ensures Valid() && View() == OnTick(old(View()), now).0
      ensures clear == var cleared := OnTick(old(View()), now).1; if cleared == [] then None else Some(cleared)
    {
      TickKeeps(View(), now);
      SweepKeeps(View(), now, order);
      var cleared := ExpireAll(now);
      order := Retained(order, sources);
      if cleared == [] {
        return None;
      } else {
        return Some(cleared);
      }
    }
  }

  function Empty(output: nat): Mixer {
    Mixer(0, [], map[], seq(output, _ => None))
  }

  lemma {:induction false} EmptyFound(outputs: seq<Option<OutputSlot>>, i: nat)
    requires i < |outputs| && FirstEmpty(outputs[..i]).None? && outputs[i].None?
    ensures FirstEmpty(outputs) == Some(i)
  {
    assert forall j :: 0 <= j < i ==> outputs[..i][j] == outputs[j];
  }

  // ---------------------------------------------------------------- runs

  datatype Event = Pkt(now: nat, source: Source, level: Option<int>) | TickAt(now: nat)

  function Next(m: Mixer, e: Event): Mixer {
    match e
    case Pkt(now, source, level) => OnPkt(m, now, source, level).0
    case TickAt(now) => OnTick(m, now).0
  }

  function After(output: nat, events: seq<Event>): Mixer {
    if events == [] then Empty(output) else Next(After(output, events[..|events| - 1]), events[|events| - 1])
  }

  /** When the last packet of a source came. */
  function Heard(events: seq<Event>, s: Source): Option<nat> {
    if events == [] then None
    else
      var e := events[|events| - 1];
      if e.Pkt? && e.source == s then Some(e.now) else Heard(events[..|events| - 1], s)
  }

  lemma PktHeard(m: Mixer, now: nat, source: Source, level: Option<int>)
    ensures var m' := OnPkt(m, now, source, level).0;
      && (forall s :: s in m'.sources ==> s in m.sources || s == source)
      && (forall s :: s in m'.sources && s != source ==> m'.sources[s].lastChangedAt == m.sources[s].lastChangedAt)
      && source in m'.sources && m'.sources[source].lastChangedAt == now
      && |m'.outputs| == |m.outputs|
  {
  }

  /** After every run the tables agree and a source's time is that of its last packet. */
  lemma {:induction false} RunKeeps(output: nat, events: seq<Event>)
    ensures var m := After(output, events);
      && Linked(m) && Listed(m) && |m.outputs| == output
      && (forall s :: s in m.sources ==> Heard(events, s) == Some(m.sources[s].lastChangedAt))
  {
    if events == [] {
      NoneFilled(Empty(output).outputs);
    } else {
      var n := |events| - 1;
      RunKeeps(output, events[..n]);
      var m := After(output, events[..n]);
      match events[n]
      case Pkt(now, source, level) =>
        PktLinked(m, now, source, level);
        PktListed(m, now, source, level);
        PktHeard(m, now, source, level);
      case TickAt(now) => TickKeeps(m, now);
    }
  }

  /** Right after a tick every slot is held by a source whose last packet came less than a second ago. */
  lemma HoldersRecentAfterTick(output: nat, events: seq<Event>, now: nat, i: nat, s: Source)
    requires Holds(After(output, events + [TickAt(now)]), i, s)
    ensures Heard(events, s).Some? && Heard(events, s).value + AUDIO_SLOT_TIMEOUT > now
  {
    RunKeeps(output, events);
    var m := After(output, events);
    assert (events + [TickAt(now)])[..|events|] == events;
    TickKeeps(m, now);
  }

  // ---------------------------------------------------------------- the event stream

  function Holders(m: Mixer): (r: seq<Option<Source>>)
    ensures |r| == |m.outputs|
  {
    seq(|m.outputs|, i requires 0 <= i < |m.outputs| => if m.outputs[i].Some? then Some(m.outputs[i].value.source) else None)
  }

  function Clear(view: seq<Option<Source>>, slots: seq<nat>): (r: seq<Option<Source>>)
    ensures |r| == |view|
  {
    if slots == [] then view
    else
      var v := Clear(view, slots[..|slots| - 1]);
      if slots[|slots| - 1] < |v| then v[slots[|slots| - 1] := None] else v
  }

  /** A listener that sees only which slots a packet newly took and which a tick cleared. */
  function Listen(output: nat, events: seq<Event>): (view: seq<Option<Source>>)
    ensures |view| == output
  {
    if events == [] then seq(output, _ => None)
    else
      var n := |events| - 1;
      var view, m := Listen(output, events[..n]), After(output, events[..n]);
      match events[n]
      case Pkt(now, source, level) =>
        var r := OnPkt(m, now, source, level).1;
        if r.Some? && r.value.1 && r.value.0 < |view| then view[r.value.0 := Some(source)] else view
      case TickAt(now) => Clear(view, OnTick(m, now).1)
  }

  lemma PktHolders(m: Mixer, now: nat, source: Source, level: Option<int>)
    requires Linked(m)
    ensures var (m', r) := OnPkt(m, now, source, level);
      if r.Some? && r.value.1 then r.value.0 < |m.outputs| && Holders(m') == Holders(m)[r.value.0 := Some(source)]
      else Holders(m') == Holders(m)
  {
  }

  lemma ExpireHolders(m: Mixer, now: nat, source: Source)
    requires Linked(m)
    ensures var (m', more) := ExpireOne(m, now, source);
      |more| <= 1 && Holders(m') == (if more == [] then Holders(m) else Holders(m)[more[0] := None])
      && (more != [] ==> more[0] < |m.outputs|)
  {
  }

  lemma ClearOne(view: seq<Option<Source>>, slots: seq<nat>, more: seq<nat>)
    requires |more| <= 1 && (more != [] ==> more[0] < |view|)
    ensures Clear(view, slots + more) == (if more == [] then Clear(view, slots) else Clear(view, slots)[more[0] := None])
  {
    if more == [] {
      assert slots + more == slots;
    } else {
      assert (slots + more)[..|slots|] == slots;
    }
  }

  lemma {:induction false} SweepHolders(m: Mixer, now: nat, keys: seq<Source>)
    requires Linked(m)
    ensures Holders(Sweep(m, now, keys).0) == Clear(Holders(m), Sweep(m, now, keys).1)
  {
    if keys != [] {
      var n := |keys| - 1;
      SweepHolders(m, now, keys[..n]);
      SweepKeeps(m, now, keys[..n]);
      var (m1, cleared) := Sweep(m, now, keys[..n]);
      ExpireHolders(m1, now, keys[n]);
      ClearOne(Holders(m), cleared, ExpireOne(m1, now, keys[n]).1);
    }
  }

  /** In every run the listener knows which source each slot holds. */
  lemma {:induction false} ListenerKnows(output: nat, events: seq<Event>)
    ensures Listen(output, events) == Holders(After(output, events))
  {
    if events != [] {
      var n := |events| - 1;
      ListenerKnows(output, events[..n]);
      RunKeeps(output, events[..n]);
      var m := After(output, events[..n]);
      match events[n]
      case Pkt(now, source, level) => PktHolders(m, now, source, level);
      case TickAt(now) =>
        SweepHolders(m, now, m.order);
        assert Holders(OnTick(m, now).0) == Holders(Sweep(m, now, m.order).0);
    }
  }

  /**
   A source loses its slot only when it timed out, or when its recorded level is the lowest of a full
   mixer and a packet at least 30 louder comes from another source.
   */
  lemma LosesSlotOnly(m: Mixer, e: Event, i: nat, s: Source)
    requires Linked(m) && Listed(m) && Holds(m, i, s) && !Holds(Next(m, e), i, s)
    ensures match e
      case TickAt(now) => m.sources[s].lastChangedAt + AUDIO_SLOT_TIMEOUT <= now
      case Pkt(now, source, level) =>
        && source != s && Level(level) >= m.outputs[i].value.audioLevel + SWITCH_AUDIO_THRESHOLD
        && (forall j :: 0 <= j < |m.outputs| ==>
              m.outputs[j].Some? && m.outputs[i].value.audioLevel <= m.outputs[j].value.audioLevel)
  {
    match e
    case TickAt(now) =>
      TickKeeps(m, now);
      assert s in m.sources && m.sources[s].slot == Some(i);
    case Pkt(now, source, level) =>
      LinkedSearchesAgree(m);
  }

  // ---------------------------------------------------------------- what a packet is answered

  ghost predicate HoldsSome(m: Mixer, s: Source) {
    exists i: nat :: Holds(m, i, s)
  }

  lemma HoldsItsSlot(m: Mixer, s: Source)
    requires Linked(m)
    ensures HoldsSome(m, s) <==> s in m.sources && m.sources[s].slot.Some?
    ensures s in m.sources && m.sources[s].slot.Some? ==> Holds(m, m.sources[s].slot.value, s)
    ensures forall i: nat, j: nat :: Holds(m, i, s) && Holds(m, j, s) ==> i == j
  {
  }

  /**
   The answer to a packet: a slot exactly if the source holds one afterwards, and then that slot; the
   flag is set exactly if it did not hold it before.
   */
  lemma AnswerIsHeldSlot(m: Mixer, now: nat, source: Source, level: Option<int>)
    requires Linked(m)
    ensures var (m', r) := OnPkt(m, now, source, level);
      && (r.Some? <==> HoldsSome(m', source))
      && (r.Some? ==> Holds(m', r.value.0, source) && (r.value.1 <==> !Holds(m, r.value.0, source)))
  {
    var (m', r) := OnPkt(m, now, source, level);
    PktLinked(m, now, source, level);
    HoldsItsSlot(m, source);
    HoldsItsSlot(m', source);
  }

  /** A quietest holder of a full mixer that the packet beats. */
  predicate Beaten(m: Mixer, i: nat, level: int) {
    && i < |m.outputs| && m.outputs[i].Some? && level >= m.outputs[i].value.audioLevel + SWITCH_AUDIO_THRESHOLD
    && forall j :: 0 <= j < |m.outputs| ==>
         m.outputs[j].Some? && m.outputs[i].value.audioLevel <= m.outputs[j].value.audioLevel
  }

  predicate IsFirstEmpty(m: Mixer, i: nat) {
    i < |m.outputs| && m.outputs[i].None? && forall j :: 0 <= j < i ==> m.outputs[j].Some?
  }

  /**
   When a source without a slot gets one: exactly if a slot is empty, and then the first empty one; or
   if the mixer is full, the source is known and its packet is at least 30 above the lowest level, and
   then a slot of that level.  The level of the packet is recorded with the slot, and no other slot
   changes.
   */
  lemma GetsSlotIff(m: Mixer, now: nat, source: Source, level: Option<int>)
    requires Linked(m) && !HoldsSome(m, source)
    ensures var (m', r) := OnPkt(m, now, source, level);
      && (r.Some? <==> (exists i: nat :: IsFirstEmpty(m, i)) || (source in m.sources && exists i: nat :: Beaten(m, i, Level(level))))
      && (r.Some? ==> IsFirstEmpty(m, r.value.0) || Beaten(m, r.value.0, Level(level)))
      && (r.Some? ==> m'.outputs == m.outputs[r.value.0 := Some(OutputSlot(Level(level), source))])
      && (r.None? ==> m'.outputs == m.outputs)
  {
    HoldsItsSlot(m, source);
    LinkedSearchesAgree(m);
    var empty := FirstEmpty(m.outputs);
    if empty.Some? {
      assert IsFirstEmpty(m, empty.value);
    } else {
      FullMixer(m, source, Level(level));
    }
  }

  lemma FullMixer(m: Mixer, source: Source, level: int)
    requires Linked(m) && !HoldsSome(m, source) && FirstEmpty(m.outputs).None? && SearchesAgree(m)
    ensures forall i: nat :: !IsFirstEmpty(m, i)
    ensures Beats(m, source, level) <==> exists i: nat :: Beaten(m, i, level)
    ensures Beats(m, source, level) ==> Beaten(m, Lowest(m.outputs).value, level)
  {
    var lowest := Lowest(m.outputs);
    if lowest.Some? {
      assert !Holds(m, lowest.value, source);
      assert Beats(m, source, level) <==> level >= m.outputs[lowest.value].value.audioLevel + SWITCH_AUDIO_THRESHOLD;
      if Beats(m, source, level) {
        assert Beaten(m, lowest.value, level);
      }
      if i: nat :| Beaten(m, i, level) {
        assert m.outputs[i].value.audioLevel <= m.outputs[lowest.value].value.audioLevel;
      }
    }
  }

  /** A packet of a source that holds a slot changes no slot, nor the level recorded there. */
  lemma HolderKeepsSlots(m: Mixer, now: nat, source: Source, level: Option<int>)
    requires Linked(m) && HoldsSome(m, source)
    ensures OnPkt(m, now, source, level).0.outputs == m.outputs
  {
    HoldsItsSlot(m, source);
  }

  /** Both over runs: in every run each packet is answered with the slot its source holds afterwards, if any. */
  lemma AnswersInRuns(output: nat, events: seq<Event>, now: nat, source: Source, level: Option<int>)
    ensures var after := After(output, events + [Pkt(now, source, level)]);
      var r := OnPkt(After(output, events), now, source, level).1;
      && (r.Some? <==> HoldsSome(after, source))
      && (r.Some? ==> Holds(after, r.value.0, source) && (r.value.1 <==> !Holds(After(output, events), r.value.0, source)))
  {
    assert (events + [Pkt(now, source, level)])[..|events|] == events;
    RunKeeps(output, events);
    AnswerIsHeldSlot(After(output, events), now, source, level);
  }
}
