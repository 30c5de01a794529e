/**
 The audio mixer's slot allocator (packages/audio_mixer/src/lib.rs): a fixed number of output slots,
 each pinned to one source, with two cross-linked tables and a cached count.

 Sources are handles and times are milliseconds.
 */
module AudioMixer {
  import opened Options
  import opened Sequences

  const SILENT_LEVEL: int := -127
  const SWITCH_AUDIO_THRESHOLD: int := 30
  const AUDIO_SLOT_TIMEOUT: nat := 1000

  type Source = nat

  datatype SourceState = SourceState(lastChangedAt: nat, slot: Option<nat>)
  datatype OutputSlot = OutputSlot(audioLevel: int, source: Source)

  /** `order` lists the keys of `sources` in the order they were inserted. */
  datatype Mixer = Mixer(
    len: nat,
    order: seq<Source>,
    sources: map<Source, SourceState>,
    outputs: seq<Option<OutputSlot>>)

  // ---------------------------------------------------------------- searching slots

  /** The first empty slot. */
  function FirstEmpty(outputs: seq<Option<OutputSlot>>): (r: Option<nat>)
    ensures r.Some? ==> r.value < |outputs| && outputs[r.value].None?
    ensures r.Some? ==> forall i :: 0 <= i < r.value ==> outputs[i].Some?
    ensures r.None? ==> forall i :: 0 <= i < |outputs| ==> outputs[i].Some?
  {
    if outputs == [] then None
    else
      var n := |outputs| - 1;
      var before := FirstEmpty(outputs[..n]);
      assert forall i :: 0 <= i < n ==> outputs[..n][i] == outputs[i];
      if before.Some? then before else if outputs[n].None? then Some(n) else None
  }

  function Filled(outputs: seq<Option<OutputSlot>>): (n: nat)
    ensures n <= |outputs|
  {
    if outputs == [] then 0
    else Filled(outputs[..|outputs| - 1]) + if outputs[|outputs| - 1].Some? then 1 else 0
  }

  /** The last of the filled slots with the lowest level. */
  function Lowest(outputs: seq<Option<OutputSlot>>): (r: Option<nat>)
    ensures r.Some? ==> r.value < |outputs| && outputs[r.value].Some?
    ensures r.Some? ==> forall i :: 0 <= i < |outputs| && outputs[i].Some? ==>
      outputs[r.value].value.audioLevel <= outputs[i].value.audioLevel
    ensures r.None? ==> forall i :: 0 <= i < |outputs| ==> outputs[i].None?
  {
    if outputs == [] then None
    else
      var n := |outputs| - 1;
      var before := Lowest(outputs[..n]);
      assert forall i :: 0 <= i < n ==> outputs[..n][i] == outputs[i];
      if outputs[n].None? then before
      else if before.Some? && outputs[n].value.audioLevel > outputs[before.value].value.audioLevel then before
      else Some(n)
  }

  // ---------------------------------------------------------------- packets and ticks

  function Pin(m: Mixer, now: nat, source: Source, slot: nat, level: int): Mixer
    requires slot < |m.outputs|
  {
    m.(sources := m.sources[source := SourceState(now, Some(slot))],
       outputs := m.outputs[slot := Some(OutputSlot(level, source))])
  }

  function TakeEmpty(m: Mixer, now: nat, source: Source, slot: nat, level: int): Mixer
    requires slot < |m.outputs|
  {
    Pin(m, now, source, slot, level).(len := m.len + 1, order := if source in m.sources then m.order else m.order + [source])
  }

  /** Give a filled slot to another source; its holder stays known, without a slot. */
  function PushOut(m: Mixer, now: nat, source: Source, slot: nat, level: int): Mixer
    requires Loser(m, slot)
  {
    var loser := m.outputs[slot].value.source;
    var pinned := Pin(m, now, source, slot, level);
    pinned.(sources := pinned.sources[loser := m.sources[loser].(slot := None)])
  }

  /** A slot whose holder can be pushed out. */
  predicate Loser(m: Mixer, slot: nat) {
    slot < |m.outputs| && m.outputs[slot].Some? && m.outputs[slot].value.source in m.sources
  }

  function Touch(m: Mixer, now: nat, source: Source): Mixer
    requires source in m.sources
  {
    m.(sources := m.sources[source := SourceState(now, m.sources[source].slot)])
  }

  /** What a packet does: keep its slot, take an empty one, or push out the quietest source if 30 louder. */
  function OnPkt(m: Mixer, now: nat, source: Source, audioLevel: Option<int>): (Mixer, Option<(nat, bool)>) {
    var level := Level(audioLevel);
    var empty := FirstEmpty(m.outputs);
    if source !in m.sources then
      if empty.Some? then (TakeEmpty(m, now, source, empty.value, level), Some((empty.value, true)))
      else (m.(sources := m.sources[source := SourceState(now, None)], order := m.order + [source]), None)
    else if m.sources[source].slot.Some? then (Touch(m, now, source), Some((m.sources[source].slot.value, false)))
    else if m.len < |m.outputs| && empty.Some? then
      (TakeEmpty(m, now, source, empty.value, level), Some((empty.value, true)))
    else if Beats(m, source, level) then
      var slot := Lowest(m.outputs).value;
      (PushOut(m, now, source, slot, level), Some((slot, true)))
    else (Touch(m, now, source), None)
  }

  function Level(audioLevel: Option<int>): int {
    if audioLevel.Some? then audioLevel.value else SILENT_LEVEL
  }

  /** No slot is free, and the packet is enough louder than the quietest holder. */
  predicate Beats(m: Mixer, source: Source, level: int) {
    && m.len >= |m.outputs|
    && var lowest := Lowest(m.outputs);
       && lowest.Some? && Loser(m, lowest.value)
       && m.outputs[lowest.value].value.source != source
       && level >= m.outputs[lowest.value].value.audioLevel + SWITCH_AUDIO_THRESHOLD
  }

  /** Drop one source if it timed out, and clear its slot. */
  function ExpireOne(m: Mixer, now: nat, source: Source): (Mixer, seq<nat>) {
    if source !in m.sources || m.sources[source].lastChangedAt + AUDIO_SLOT_TIMEOUT > now then (m, [])
    else
      var slot := m.sources[source].slot;
      var gone := m.(sources := m.sources - {source});
      if slot.Some? && slot.value < |m.outputs| && m.len > 0 then
        (gone.(outputs := m.outputs[slot.value := None], len := m.len - 1), [slot.value])
      else (gone, [])
  }

  function Sweep(m: Mixer, now: nat, keys: seq<Source>): (Mixer, seq<nat>) {
    if keys == [] then (m, [])
    else
      var (m1, cleared) := Sweep(m, now, keys[..|keys| - 1]);
      var (m2, more) := ExpireOne(m1, now, keys[|keys| - 1]);
      (m2, cleared + more)
  }

  function Retained(order: seq<Source>, sources: map<Source, SourceState>): seq<Source> {
    if order == [] then []
    else Retained(order[..|order| - 1], sources) + if order[|order| - 1] in sources then [order[|order| - 1]] else []
  }

  /** The state after a tick and the slots it cleared. */
  function OnTick(m: Mixer, now: nat): (Mixer, seq<nat>) {
    var (m1, cleared) := Sweep(m, now, m.order);
    (m1.(order := Retained(m.order, m1.sources)), cleared)
  }

  // ---------------------------------------------------------------- the invariant

  /** Source `s` holds slot `i`, according to the outputs. */
  predicate Holds(m: Mixer, i: nat, s: Source) {
    i < |m.outputs| && m.outputs[i].Some? && m.outputs[i].value.source == s
  }

  /** The two tables say the same, and the count is the number of filled slots. */
  ghost predicate Linked(m: Mixer) {
    && (forall i :: 0 <= i < |m.outputs| && m.outputs[i].Some? ==>
          var s := m.outputs[i].value.source; s in m.sources && m.sources[s].slot == Some(i))
    && (forall s :: s in m.sources && m.sources[s].slot.Some? ==> Holds(m, m.sources[s].slot.value, s))
    && m.len == Filled(m.outputs)
  }

  ghost predicate Listed(m: Mixer) {
    NoRepeat(m.order) && forall s :: s in m.order <==> s in m.sources
  }

  lemma {:induction false} FullIff(outputs: seq<Option<OutputSlot>>)
    ensures Filled(outputs) == |outputs| <==> FirstEmpty(outputs).None?
  {
    if outputs != [] {
      FullIff(outputs[..|outputs| - 1]);
    }
  }

  lemma {:induction false} FilledUpdate(outputs: seq<Option<OutputSlot>>, i: nat, x: Option<OutputSlot>)
    requires i < |outputs|
    ensures Filled(outputs[i := x]) == Filled(outputs) - (if outputs[i].Some? then 1 else 0) + (if x.Some? then 1 else 0)
  {
    var n := |outputs| - 1;
    var after := outputs[i := x];
    if i == n {
      assert after[..n] == outputs[..n];
    } else {
      FilledUpdate(outputs[..n], i, x);
      assert after[..n] == outputs[..n][i := x];
    }
  }

  lemma NoneFilled(outputs: seq<Option<OutputSlot>>)
    requires forall i :: 0 <= i < |outputs| ==> outputs[i].None?
    ensures Filled(outputs) == 0
  {
    if outputs != [] {
      NoneFilled(outputs[..|outputs| - 1]);
    }
  }

  /** The cached count answers as the scan does, and when no slot is free there is a quietest holder to push out. */
  ghost predicate SearchesAgree(m: Mixer) {
    && (m.len < |m.outputs| <==> FirstEmpty(m.outputs).Some?)
    && (m.len >= |m.outputs| > 0 ==> Lowest(m.outputs).Some? && Loser(m, Lowest(m.outputs).value))
  }

  /** So none of the source's `expect`s can fail. */
  lemma LinkedSearchesAgree(m: Mixer)
    requires Linked(m)
    ensures SearchesAgree(m)
  {
    FullIff(m.outputs);
    if Lowest(m.outputs).None? {
      NoneFilled(m.outputs);
    }
  }

  // ---------------------------------------------------------------- every call keeps it

  lemma TakeEmptyLinked(m: Mixer, now: nat, source: Source, slot: nat, level: int)
    requires Linked(m) && slot < |m.outputs| && m.outputs[slot].None?
    requires source in m.sources ==> m.sources[source].slot.None?
    ensures Linked(TakeEmpty(m, now, source, slot, level))
  {
    FilledUpdate(m.outputs, slot, Some(OutputSlot(level, source)));
  }

  lemma PushOutLinked(m: Mixer, now: nat, source: Source, slot: nat, level: int)
    requires Linked(m) && Loser(m, slot)
    requires source in m.sources && m.sources[source].slot.None?
    ensures Linked(PushOut(m, now, source, slot, level))
  {
    FilledUpdate(m.outputs, slot, Some(OutputSlot(level, source)));
  }

  lemma TouchLinked(m: Mixer, now: nat, source: Source)
    requires Linked(m) && source in m.sources
    ensures Linked(Touch(m, now, source))
  {
  }

  lemma PktLinked(m: Mixer, now: nat, source: Source, level: Option<int>)
    requires Linked(m)
    ensures Linked(OnPkt(m, now, source, level).0)
  {
    var empty := FirstEmpty(m.outputs);
    if source !in m.sources {
      if empty.Some? {
        TakeEmptyLinked(m, now, source, empty.value, Level(level));
      }
    } else if m.sources[source].slot.Some? {
      TouchLinked(m, now, source);
    } else if m.len < |m.outputs| && empty.Some? {
      TakeEmptyLinked(m, now, source, empty.value, Level(level));
    } else if Beats(m, source, Level(level)) {
      PushOutLinked(m, now, source, Lowest(m.outputs).value, Level(level));
    } else {
      TouchLinked(m, now, source);
    }
  }

  lemma PktListed(m: Mixer, now: nat, source: Source, level: Option<int>)
    requires Listed(m)
    ensures Listed(OnPkt(m, now, source, level).0)
  {
    NoRepeatAppend(m.order, source);
  }

  lemma ExpireLinked(m: Mixer, now: nat, source: Source)
    requires Linked(m)
    ensures Linked(ExpireOne(m, now, source).0)
  {
    if source in m.sources && m.sources[source].slot.Some? {
      var slot := m.sources[source].slot.value;
      assert Holds(m, slot, source);
      FilledUpdate(m.outputs, slot, None);
      FilledPositive(m.outputs, slot);
    }
  }

  lemma {:induction false} FilledPositive(outputs: seq<Option<OutputSlot>>, i: nat)
    requires i < |outputs| && outputs[i].Some?
    ensures Filled(outputs) > 0
  {
    var n := |outputs| - 1;
    if i < n {
      FilledPositive(outputs[..n], i);
    }
  }

  /** What a sweep leaves: the sources not swept or heard of recently, unchanged. */
  lemma {:induction false} SweepKeeps(m: Mixer, now: nat, keys: seq<Source>)
    requires Linked(m)
    ensures var m' := Sweep(m, now, keys).0;
      && Linked(m') && m'.order == m.order && |m'.outputs| == |m.outputs|
      && (forall s :: s in m'.sources <==> s in m.sources && (s in keys ==> m.sources[s].lastChangedAt + AUDIO_SLOT_TIMEOUT > now))
      && (forall s :: s in m'.sources ==> m'.sources[s] == m.sources[s])
  {
    if keys != [] {
      var n := |keys| - 1;
      SweepKeeps(m, now, keys[..n]);
      ExpireLinked(Sweep(m, now, keys[..n]).0, now, keys[n]);
      assert keys == keys[..n] + [keys[n]];
    }
  }

  lemma {:induction false} RetainedListed(order: seq<Source>, sources: map<Source, SourceState>)
    requires NoRepeat(order)
    ensures NoRepeat(Retained(order, sources))
    ensures forall s :: s in Retained(order, sources) <==> s in order && s in sources
  {
    if order != [] {
      var n := |order| - 1;
      assert order == order[..n] + [order[n]];
      NoRepeatPrefix(order, n);
      NoRepeatAppend(order[..n], order[n]);
      RetainedListed(order[..n], sources);
      NoRepeatAppend(Retained(order[..n], sources), order[n]);
      assert Retained(order[..n], sources) + [] == Retained(order[..n], sources);
    }
  }

  /** After a tick the tables agree, and exactly the sources heard of less than a second ago are left. */
  lemma TickKeeps(m: Mixer, now: nat)
    requires Linked(m) && Listed(m)
    ensures var m' := OnTick(m, now).0;
      && Linked(m') && Listed(m') && |m'.outputs| == |m.outputs|
      && (forall s :: s in m'.sources <==> s in m.sources && m.sources[s].lastChangedAt + AUDIO_SLOT_TIMEOUT > now)
      && (forall s :: s in m'.sources ==> m'.sources[s] == m.sources[s])
  {
    SweepKeeps(m, now, m.order);
    RetainedListed(m.order, Sweep(m, now, m.order).0.sources);
  }
}
