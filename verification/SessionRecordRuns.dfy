/**
 Whole recordings: an observer that sees only the events offered, the ticks and the files (`Log`)
 finds in the files of each stay in a room the rows offered for it, once each and in order, numbered
 from zero.  What can be missing is exactly known: rows offered after the session was disconnected,
 and rows still pending when the next room is joined.

 A session is kept by the record service, which forgets it at the first tick after it was closed; an
 event that comes later starts a new one (packages/media_record/src/lib.rs:74-81, 103-108).
 */
module SessionRecordRuns {
  import opened Options
  import opened MemoryFiles
  import opened Framing
  import opened FramingRuns
  import opened SessionRecords

  datatype Step = Pushed(now: nat, ts: nat, event: Event) | Ticked(now: nat)

  /** A tick of the service cuts a file that is due, and forgets a closed session. */
  function Apply(session: nat, s: State, step: Step): (State, Option<ChunkFile>) {
    match step
    case Pushed(now, ts, event) => Push(session, s, now, ts, event)
    case Ticked(now) =>
      var (s1, out) := PopFile(session, s, now, false);
      (if s1.closed then INITIAL else s1, out)
  }

  // ---------------------------------------------------------------- the observer

  /** `Fresh`: no room was joined yet; `Live`: rows are taken; `Deaf`: disconnected and not yet forgotten. */
  datatype Phase = Fresh | Live | Deaf

  function NextPhase(phase: Phase, step: Step): Phase {
    match step
    case Ticked(_) => if phase == Deaf then Fresh else phase
    case Pushed(_, _, JoinRoom(_, _, _)) => if phase == Deaf then Deaf else Live
    case Pushed(_, _, Disconnected) => Deaf
    case Pushed(_, _, _) => phase
  }

  /**
   One stay in a room: every row offered from its join to the next, those of them offered after the
   session was disconnected, and the files that came out.
   */
  datatype Block = Block(app: string, room: string, peer: string, offered: seq<Row>, late: seq<Row>, chunks: seq<ChunkFile>)
  datatype Log = Log(blocks: seq<Block>, phase: Phase)

  function NoteRow(log: Log, row: Row): Log {
    if log.blocks == [] then log
    else
      var n := |log.blocks| - 1;
      var b := log.blocks[n];
      var late := if log.phase == Live then b.late else b.late + [row];
      log.(blocks := log.blocks[..n] + [b.(offered := b.offered + [row], late := late)])
  }

  function NoteFile(log: Log, chunk: ChunkFile): Log {
    if log.blocks == [] then log
    else
      var n := |log.blocks| - 1;
      log.(blocks := log.blocks[..n] + [log.blocks[n].(chunks := log.blocks[n].chunks + [chunk])])
  }

  function NoteJoin(log: Log, row: Row): Log
    requires row.event.JoinRoom?
  {
    var e := row.event;
    log.(blocks := log.blocks + [Block(e.app, e.room, e.peer, [row], if log.phase == Deaf then [row] else [], [])])
  }

  function NoteEvent(log: Log, step: Step): Log {
    var noted :=
      if step.Pushed? && step.event.JoinRoom? then NoteJoin(log, Row(step.ts, step.event))
      else if step.Pushed? && step.event.Track? then NoteRow(log, Row(step.ts, step.event))
      else log;
    noted.(phase := NextPhase(log.phase, step))
  }

  function Note(log: Log, step: Step, out: Option<ChunkFile>): Log {
    var noted := NoteEvent(log, step);
    if out.Some? then NoteFile(noted, out.value) else noted
  }

  function Run(session: nat, steps: seq<Step>): (State, Log) {
    if steps == [] then (INITIAL, Log([], Fresh))
    else
      var (s, log) := Run(session, steps[..|steps| - 1]);
      var (s1, out) := Apply(session, s, steps[|steps| - 1]);
      (s1, Note(log, steps[|steps| - 1], out))
  }

  // ---------------------------------------------------------------- conservation

  function RowsOf(chunks: seq<ChunkFile>): seq<Row> {
    if chunks == [] then [] else RowsOf(chunks[..|chunks| - 1]) + chunks[|chunks| - 1].rows
  }

  /** The request announces this room's `i`-th file, with the times of its first and last row. */
  predicate WellCut(session: nat, b: Block, i: nat)
    requires i < |b.chunks|
  {
    var rows := b.chunks[i].rows;
    rows != [] && b.chunks[i].req == Req(b.app, b.room, b.peer, session, i, rows[0].ts, rows[|rows| - 1].ts)
  }

  predicate AllWellCut(session: nat, b: Block) {
    forall i: nat :: i < |b.chunks| ==> WellCut(session, b, i)
  }

  /** Every row offered is in a file, is the `lost` one, or came late. */
  predicate Accounted(b: Block, lost: seq<Row>) {
    b.offered == RowsOf(b.chunks) + lost + b.late
  }

  predicate Complete(b: Block) {
    RowsOf(b.chunks) == b.offered
  }

  /** The stay that has ended: its files hold a beginning of what was offered. */
  ghost predicate Ended(session: nat, b: Block) {
    AllWellCut(session, b) && exists lost :: Accounted(b, lost)
  }

  ghost predicate AllEnded(session: nat, blocks: seq<Block>) {
    forall b <- blocks :: Ended(session, b)
  }

  predicate Named(r: RoomState, b: Block) {
    b.app == r.app && b.room == r.room && b.peer == r.peer && r.index == |b.chunks|
  }

  /** The recorder is in the phase that the observer noted. */
  predicate InPhase(s: State, phase: Phase) {
    match phase
    case Fresh => s == INITIAL
    case Live => !s.closed && s.room.Some?
    case Deaf => s.closed && Pending(s) == []
  }

  ghost predicate Agrees(session: nat, s: State, log: Log) {
    && InPhase(s, log.phase)
    && (log.blocks != [] ==>
          var b := log.blocks[|log.blocks| - 1];
          && AllWellCut(session, b) && Accounted(b, Pending(s))
          && (log.phase == Live ==> Named(s.room.value, b) && b.late == [])
          && AllEnded(session, log.blocks[..|log.blocks| - 1]))
    && (log.phase == Live ==> log.blocks != [])
  }

  lemma PopBlock(session: nat, r: RoomState, pending: seq<Row>, b: Block)
    requires AllWellCut(session, b) && Accounted(b, pending) && Named(r, b) && pending != []
    ensures var b' := b.(chunks := b.chunks + [ChunkOf(session, r, pending)]);
      AllWellCut(session, b') && Accounted(b', []) && Named(r.(queue := None, index := r.index + 1), b')
  {
    var b' := b.(chunks := b.chunks + [ChunkOf(session, r, pending)]);
    assert b'.chunks[..|b.chunks|] == b.chunks;
    forall i: nat | i < |b'.chunks|
      ensures WellCut(session, b', i)
    {
      if i < |b.chunks| { assert WellCut(session, b, i); }
    }
  }

  /** Cutting a file in a live session, whether or not it is being closed. */
  lemma PopAgrees(session: nat, s: State, log: Log, now: nat, force: bool)
    requires Agrees(session, s, log)
    ensures var (s1, out) := PopFile(session, s, now, force);
            Agrees(session, s1, if out.Some? then NoteFile(log, out.value) else log)
    ensures force ==> Pending(PopFile(session, s, now, force).0) == []
  {
    var queue := Pending(s);
    if queue != [] && Due(queue, now, force) {
      var n := |log.blocks| - 1;
      PopBlock(session, s.room.value, queue, log.blocks[n]);
      var log' := NoteFile(log, ChunkOf(session, s.room.value, queue));
      assert log'.blocks[..n] == log.blocks[..n];
    }
  }

  lemma RowBlock(session: nat, b: Block, pending: seq<Row>, row: Row)
    requires AllWellCut(session, b) && Accounted(b, pending)
    ensures var b' := b.(offered := b.offered + [row], late := b.late + [row]);
            AllWellCut(session, b') && Accounted(b', pending)
    ensures b.late == [] ==>
              var b' := b.(offered := b.offered + [row]); AllWellCut(session, b') && Accounted(b', pending + [row])
  {
    forall i: nat | i < |b.chunks|
      ensures WellCut(session, b.(offered := b.offered + [row], late := b.late + [row]), i)
      ensures WellCut(session, b.(offered := b.offered + [row]), i)
    {
      assert WellCut(session, b, i);
    }
  }

  /** A row in a live session is taken. */
  lemma RowTaken(session: nat, s: State, log: Log, row: Row)
    requires Agrees(session, s, log) && log.phase == Live
    ensures Agrees(session, s.(room := Some(s.room.value.(queue := Some(Pending(s) + [row])))), NoteRow(log, row))
  {
    var n := |log.blocks| - 1;
    RowBlock(session, log.blocks[n], Pending(s), row);
    assert NoteRow(log, row).blocks[..n] == log.blocks[..n];
  }

  /** A row in any other session is late. */
  lemma RowLate(session: nat, s: State, log: Log, row: Row)
    requires Agrees(session, s, log) && log.phase != Live
    ensures Agrees(session, s, NoteRow(log, row))
  {
    if log.blocks != [] {
      var n := |log.blocks| - 1;
      RowBlock(session, log.blocks[n], Pending(s), row);
      assert NoteRow(log, row).blocks[..n] == log.blocks[..n];
    }
  }

  /** When the next room is joined, all stays before have ended. */
  lemma LastEnds(session: nat, s: State, log: Log)
    requires Agrees(session, s, log)
    ensures AllEnded(session, log.blocks)
  {
    var n := |log.blocks|;
    if n > 0 {
      assert Ended(session, log.blocks[n - 1]);
      forall b | b in log.blocks
        ensures Ended(session, b)
      {
        var i :| 0 <= i < n && log.blocks[i] == b;
        if i < n - 1 { assert b == log.blocks[..n - 1][i]; }
      }
    }
  }

  function Joined(row: Row): State
    requires row.event.JoinRoom?
  {
    State(Some(RoomState(0, row.event.app, row.event.room, row.event.peer, Some([row]))), false)
  }

  lemma JoinAgrees(session: nat, s: State, log: Log, row: Row)
    requires Agrees(session, s, log) && row.event.JoinRoom?
    ensures if log.phase == Deaf then Agrees(session, s, NoteJoin(log, row))
            else Agrees(session, Joined(row), NoteJoin(log, row).(phase := Live))
  {
    LastEnds(session, s, log);
    var n := |log.blocks|;
    assert NoteJoin(log, row).blocks[..n] == log.blocks;
    assert RowsOf([]) == [];
    assert [] + [row] + [] == [row] && [] + [] + [row] == [row];
  }

  /** A disconnected session has nothing pending. */
  lemma CloseAgrees(session: nat, s: State, log: Log)
    requires Agrees(session, s, log) && Pending(s) == []
    ensures Agrees(session, s.(closed := true), log.(phase := Deaf))
    ensures Agrees(session, INITIAL, log.(phase := Fresh))
  {
  }

  lemma ForcedClosed(session: nat, s: State, now: nat)
    ensures var (s1, out) := PopFile(session, s, now, true);
            PopFile(session, s.(closed := true), now, true) == (s1.(closed := true), out)
  {
  }

  lemma NoteFileOf(log: Log, chunk: ChunkFile, phase: Phase)
    ensures NoteFile(log.(phase := phase), chunk) == NoteFile(log, chunk).(phase := phase)
  {
  }

  lemma DisconnectAgrees(session: nat, s: State, log: Log, now: nat)
    requires Agrees(session, s, log)
    ensures var (s1, out) := PopFile(session, s.(closed := true), now, true);
            Agrees(session, s1, if out.Some? then NoteFile(log.(phase := Deaf), out.value) else log.(phase := Deaf))
  {
    var (s1, out) := PopFile(session, s, now, true);
    PopAgrees(session, s, log, now, true);
    ForcedClosed(session, s, now);
    if out.Some? {
      NoteFileOf(log, out.value, Deaf);
      CloseAgrees(session, s1, NoteFile(log, out.value));
    } else {
      CloseAgrees(session, s1, log);
    }
  }

  lemma TickAgrees(session: nat, s: State, log: Log, now: nat)
    requires Agrees(session, s, log)
    ensures var (s1, out) := Apply(session, s, Ticked(now)); Agrees(session, s1, Note(log, Ticked(now), out))
  {
    PopAgrees(session, s, log, now, false);
    if log.phase == Deaf { CloseAgrees(session, s, log); }
  }

  lemma LiveRowAgrees(session: nat, s: State, log: Log, now: nat, row: Row)
    requires Agrees(session, s, log) && log.phase == Live
    ensures var (s1, out) := PopFile(session, s.(room := Some(s.room.value.(queue := Some(Pending(s) + [row])))), now, false);
            Agrees(session, s1, if out.Some? then NoteFile(NoteRow(log, row), out.value) else NoteRow(log, row))
  {
    RowTaken(session, s, log, row);
    PopAgrees(session, s.(room := Some(s.room.value.(queue := Some(Pending(s) + [row])))), NoteRow(log, row), now, false);
  }

  lemma PushAgrees(session: nat, s: State, log: Log, now: nat, ts: nat, event: Event)
    requires Agrees(session, s, log)
    ensures var (s1, out) := Push(session, s, now, ts, event); Agrees(session, s1, Note(log, Pushed(now, ts, event), out))
  {
    var row := Row(ts, event);
    match event
    case JoinRoom(_, _, _) => JoinAgrees(session, s, log, row);
    case LeaveRoom => PopAgrees(session, s, log, now, true);
    case Disconnected => DisconnectAgrees(session, s, log, now);
    case Track(_) =>
      if log.phase == Live {
        LiveRowAgrees(session, s, log, now, row);
      } else {
        RowLate(session, s, log, row);
      }
  }

  lemma {:induction false} RunAgrees(session: nat, steps: seq<Step>)
    ensures Agrees(session, Run(session, steps).0, Run(session, steps).1)
  {
    if steps != [] {
      var n := |steps| - 1;
      var (s, log) := Run(session, steps[..n]);
      RunAgrees(session, steps[..n]);
      match steps[n]
      case Ticked(now) => TickAgrees(session, s, log, now);
      case Pushed(now, ts, event) => PushAgrees(session, s, log, now, ts, event);
    }
  }

  /**
   Conservation, for every run and every clock: the files of each stay hold a beginning of the rows
   offered for it, in order and each once, and are numbered 0, 1, 2, ...; the rest was lost when the
   next room was joined or came late.  For the last stay what is missing is exactly what is pending
   and what came late.
   */
  lemma RunConserves(session: nat, steps: seq<Step>)
    ensures var (s, log) := Run(session, steps);
      && AllEnded(session, log.blocks)
      && (log.blocks == [] ==> Pending(s) == [])
      && (log.blocks != [] ==>
            var b := log.blocks[|log.blocks| - 1]; b.offered == RowsOf(b.chunks) + Pending(s) + b.late)
  {
    RunAgrees(session, steps);
    var (s, log) := Run(session, steps);
    LastEnds(session, s, log);
  }

  // ---------------------------------------------------------------- when rows are lost

  lemma CompleteIff(b: Block, lost: seq<Row>)
    requires Accounted(b, lost)
    ensures Complete(b) <==> lost == [] && b.late == []
  {
    assert |b.offered| == |RowsOf(b.chunks)| + |lost| + |b.late|;
  }

  /** Joining a room ends the stay before it, which is complete exactly if nothing was pending and nothing came late. */
  lemma JoinLosesIff(session: nat, steps: seq<Step>, join: Step)
    requires join.Pushed? && join.event.JoinRoom? && Run(session, steps).1.blocks != []
    ensures var (s, log) := Run(session, steps);
      var after, n := Run(session, steps + [join]).1, |log.blocks|;
      && |after.blocks| == n + 1 && after.blocks[n - 1] == log.blocks[n - 1]
      && (Complete(after.blocks[n - 1]) <==> Pending(s) == [] && log.blocks[n - 1].late == [])
  {
    RunAgrees(session, steps);
    var (s, log) := Run(session, steps);
    CompleteIff(log.blocks[|log.blocks| - 1], Pending(s));
    assert (steps + [join])[..|steps|] == steps;
    JoinCutsNothing(session, s, log, join);
  }

  lemma JoinCutsNothing(session: nat, s: State, log: Log, join: Step)
    requires Agrees(session, s, log) && join.Pushed? && join.event.JoinRoom?
    ensures Apply(session, s, join).1 == None
  {
  }

  function PhaseOf(steps: seq<Step>): Phase {
    if steps == [] then Fresh else NextPhase(PhaseOf(steps[..|steps| - 1]), steps[|steps| - 1])
  }

  lemma {:induction false} PhaseIs(session: nat, steps: seq<Step>)
    ensures Run(session, steps).1.phase == PhaseOf(steps)
  {
    if steps != [] {
      PhaseIs(session, steps[..|steps| - 1]);
    }
  }

  /** A row was taken since the last leave, as the events and ticks alone tell. */
  predicate Unsettled(steps: seq<Step>) {
    if steps == [] then false
    else
      var before, step := steps[..|steps| - 1], steps[|steps| - 1];
      match step
      case Ticked(_) => Unsettled(before)
      case Pushed(_, _, JoinRoom(_, _, _)) => PhaseOf(before) != Deaf
      case Pushed(_, _, Track(_)) => PhaseOf(before) == Live
      case Pushed(_, _, _) => false
  }

  /** Every join of a room comes after the leave from the room before. */
  predicate LeavesFirst(steps: seq<Step>) {
    if steps == [] then true
    else
      var before, step := steps[..|steps| - 1], steps[|steps| - 1];
      LeavesFirst(before) && (step.Pushed? && step.event.JoinRoom? ==> !Unsettled(before))
  }

  /** Leaving, or being deaf, leaves nothing pending. */
  lemma PushEmpties(session: nat, s: State, now: nat, ts: nat, event: Event, phase: Phase)
    requires InPhase(s, phase)
    requires event.LeaveRoom? || event.Disconnected? || (event.JoinRoom? && phase == Deaf) || (event.Track? && phase != Live)
    ensures Pending(Push(session, s, now, ts, event).0) == []
  {
  }

  lemma TickEmpties(session: nat, s: State, now: nat)
    requires Pending(s) == []
    ensures Pending(Apply(session, s, Ticked(now)).0) == []
  {
  }

  lemma {:induction false} SettledIsEmpty(session: nat, steps: seq<Step>)
    requires !Unsettled(steps)
    ensures Pending(Run(session, steps).0) == []
  {
    if steps != [] {
      var before := steps[..|steps| - 1];
      var s := Run(session, before).0;
      match steps[|steps| - 1]
      case Ticked(now) =>
        SettledIsEmpty(session, before);
        TickEmpties(session, s, now);
      case Pushed(now, ts, event) =>
        RunAgrees(session, before);
        PhaseIs(session, before);
        PushEmpties(session, s, now, ts, event, PhaseOf(before));
    }
  }

  /** The files hold everything offered but what came late. */
  predicate AllButLate(blocks: seq<Block>) {
    forall b <- blocks :: Accounted(b, [])
  }

  lemma AllButLateAppend(blocks: seq<Block>, n: nat)
    requires n < |blocks| && AllButLate(blocks[..n]) && Accounted(blocks[n], [])
    ensures AllButLate(blocks[..n + 1])
  {
    assert blocks[..n + 1] == blocks[..n] + [blocks[n]];
  }

  /** Only a join starts a new stay; every other step leaves the stays before the last alone. */
  lemma StaysSame(session: nat, s: State, log: Log, step: Step)
    requires !(step.Pushed? && step.event.JoinRoom?)
    ensures var after := Note(log, step, Apply(session, s, step).1);
      |after.blocks| == |log.blocks| && (log.blocks != [] ==> after.blocks[..|log.blocks| - 1] == log.blocks[..|log.blocks| - 1])
  {
  }

  lemma {:induction false} EndedStaysExact(session: nat, steps: seq<Step>)
    requires LeavesFirst(steps)
    ensures var log := Run(session, steps).1; log.blocks != [] ==> AllButLate(log.blocks[..|log.blocks| - 1])
  {
    if steps != [] {
      var n := |steps| - 1;
      var before, step := steps[..n], steps[n];
      var (s, log) := Run(session, before);
      EndedStaysExact(session, before);
      RunAgrees(session, before);
      if step.Pushed? && step.event.JoinRoom? {
        SettledIsEmpty(session, before);
        JoinCutsNothing(session, s, log, step);
        var after := Run(session, steps).1;
        assert after.blocks[..|log.blocks|] == log.blocks;
        if log.blocks != [] {
          var m := |log.blocks| - 1;
          AllButLateAppend(log.blocks, m);
          assert log.blocks[..m + 1] == log.blocks;
        }
      } else {
        StaysSame(session, s, log, step);
      }
    }
  }

  predicate CompleteIffNoneLate(blocks: seq<Block>) {
    forall b <- blocks :: Complete(b) <==> b.late == []
  }

  lemma NoneLate(blocks: seq<Block>)
    requires AllButLate(blocks)
    ensures CompleteIffNoneLate(blocks)
  {
    forall b | b in blocks
      ensures Complete(b) <==> b.late == []
    {
      CompleteIff(b, []);
    }
  }

  /** With every join after a leave, a stay that has ended is complete if and only if no row of it came late. */
  lemma EndedStaysComplete(session: nat, steps: seq<Step>)
    requires LeavesFirst(steps)
    ensures var log := Run(session, steps).1; log.blocks != [] ==> CompleteIffNoneLate(log.blocks[..|log.blocks| - 1])
  {
    EndedStaysExact(session, steps);
    var log := Run(session, steps).1;
    if log.blocks != [] { NoneLate(log.blocks[..|log.blocks| - 1]); }
  }

  /** And once the last room is left too, this holds of all stays. */
  lemma NothingLost(session: nat, steps: seq<Step>)
    requires LeavesFirst(steps) && !Unsettled(steps)
    ensures CompleteIffNoneLate(Run(session, steps).1.blocks)
  {
    EndedStaysExact(session, steps);
    SettledIsEmpty(session, steps);
    RunAgrees(session, steps);
    var (s, log) := Run(session, steps);
    if log.blocks != [] {
      var n := |log.blocks| - 1;
      AllButLateAppend(log.blocks, n);
      assert log.blocks[..n + 1] == log.blocks;
      NoneLate(log.blocks);
    }
  }

  // ---------------------------------------------------------------- the files read back

  /** All rows that readers get from the bytes of the files, after their headers. */
  function ReadBack(headers: Codec<Header>, codec: Codec<Row>, chunks: seq<ChunkFile>): seq<Row> {
    if chunks == [] then []
    else
      var bytes := FileBytes(headers, codec, chunks[|chunks| - 1]);
      ReadBack(headers, codec, chunks[..|chunks| - 1]) + Drain(codec, Rest(Parse(bytes))).0
  }

  lemma FileReadsBack(headers: Codec<Header>, codec: Codec<Row>, chunk: ChunkFile)
    requires Fits(headers, HeaderOf(chunk.req)) && AllFit(codec, chunk.rows)
    ensures Drain(codec, Rest(Parse(FileBytes(headers, codec, chunk)))) == (chunk.rows, End)
  {
    var rows := chunk.rows;
    var bytes := EncodeRows(codec, rows);
    HeaderFirst(headers, codec, HeaderOf(chunk.req), rows);
    assert rows[..|rows|] == rows;
    assert bytes[..|bytes|] == bytes;
    CutReadsCompleteRows(codec, rows, |bytes|, |rows|);
  }

  /** End to end: reading the files of a stay gives back the rows they hold. */
  lemma {:induction false} FilesReadBack(headers: Codec<Header>, codec: Codec<Row>, chunks: seq<ChunkFile>)
    requires forall chunk <- chunks :: Fits(headers, HeaderOf(chunk.req))
    requires AllFit(codec, RowsOf(chunks))
    ensures ReadBack(headers, codec, chunks) == RowsOf(chunks)
  {
    if chunks != [] {
      var n := |chunks| - 1;
      FilesReadBack(headers, codec, chunks[..n]);
      FileReadsBack(headers, codec, chunks[n]);
    }
  }

  /**
   The header that a reader gets from the `i`-th file of stay `k` of a run names the room and peer of
   the stay, the session, and the times of the first and last row in the file.
   */
  lemma HeaderReadsBack(session: nat, steps: seq<Step>, headers: Codec<Header>, codec: Codec<Row>, k: nat, i: nat)
    requires k < |Run(session, steps).1.blocks| && i < |Run(session, steps).1.blocks[k].chunks|
    requires Fits(headers, HeaderOf(Run(session, steps).1.blocks[k].chunks[i].req))
    ensures var b := Run(session, steps).1.blocks[k];
      var rows := b.chunks[i].rows;
      && rows != []
      && TakeRow(headers, FileBytes(headers, codec, b.chunks[i]))
         == Next(Header(b.room, b.peer, session, rows[0].ts, rows[|rows| - 1].ts))
  {
    RunConserves(session, steps);
    var b := Run(session, steps).1.blocks[k];
    assert Ended(session, b);
    assert WellCut(session, b, i);
    HeaderFirst(headers, codec, HeaderOf(b.chunks[i].req), b.chunks[i].rows);
  }

  // ---------------------------------------------------------------- the length of a file

  function LatestTs(steps: seq<Step>): nat {
    if steps == [] then 0
    else if steps[|steps| - 1].Pushed? then steps[|steps| - 1].ts
    else LatestTs(steps[..|steps| - 1])
  }

  /** The events come in the order of their times. */
  predicate InOrder(steps: seq<Step>) {
    if steps == [] then true
    else
      var step := steps[|steps| - 1];
      InOrder(steps[..|steps| - 1]) && (step.Pushed? ==> LatestTs(steps[..|steps| - 1]) <= step.ts < TIME_RANGE)
  }

  /** All rows lie within less than a minute of the first. */
  predicate Short(rows: seq<Row>) {
    forall i :: 0 <= i < |rows| ==> rows[0].ts <= rows[i].ts < rows[0].ts + MAX_FILE_LEN_MS
  }

  predicate NotAfter(rows: seq<Row>, ts: nat) {
    forall i :: 0 <= i < |rows| ==> rows[i].ts <= ts
  }

  predicate ShortChunk(chunk: ChunkFile) {
    chunk.rows != [] && Short(chunk.rows[..|chunk.rows| - 1])
  }

  predicate Held(s: State, latest: nat) {
    Short(Pending(s)) && NotAfter(Pending(s), latest)
  }

  lemma PopShort(session: nat, s: State, now: nat, force: bool, latest: nat)
    requires Held(s, latest)
    ensures Held(PopFile(session, s, now, force).0, latest)
    ensures PopFile(session, s, now, force).1.Some? ==> ShortChunk(PopFile(session, s, now, force).1.value)
  {
  }

  lemma RowShort(session: nat, s: State, row: Row, now: nat, latest: nat)
    requires Held(s, latest) && latest <= row.ts < TIME_RANGE && s.room.Some?
    ensures var s1 := s.(room := Some(s.room.value.(queue := Some(Pending(s) + [row]))));
      var (s2, out) := PopFile(session, s1, now, false);
      Held(s2, row.ts) && (out.Some? ==> ShortChunk(out.value))
  {
    var rows := Pending(s) + [row];
    assert rows[..|rows| - 1] == Pending(s);
    assert rows[0].ts <= row.ts;
    assert Elapsed(rows[0].ts, row.ts) == row.ts - rows[0].ts;
  }

  lemma StepShort(session: nat, s: State, step: Step, latest: nat)
    requires Held(s, latest) && (step.Pushed? ==> latest <= step.ts < TIME_RANGE)
    ensures var (s1, out) := Apply(session, s, step);
      Held(s1, if step.Pushed? then step.ts else latest) && (out.Some? ==> ShortChunk(out.value))
  {
    match step
    case Ticked(now) => PopShort(session, s, now, false, latest);
    case Pushed(now, ts, event) =>
      if s.closed {
        PopShort(session, s, now, true, ts);
      } else {
        match event
        case JoinRoom(_, _, _) =>
        case LeaveRoom => PopShort(session, s, now, true, ts);
        case Disconnected => PopShort(session, s.(closed := true), now, true, ts);
        case Track(_) =>
          if s.room.Some? { RowShort(session, s, Row(ts, event), now, latest); }
      }
  }

  /** The files of a run in the order they come out. */
  function Files(session: nat, steps: seq<Step>): seq<ChunkFile> {
    if steps == [] then []
    else
      var out := Apply(session, Run(session, steps[..|steps| - 1]).0, steps[|steps| - 1]).1;
      Files(session, steps[..|steps| - 1]) + (if out.Some? then [out.value] else [])
  }

  /** With events in order, every file without its last row spans less than a minute, and so do the pending rows. */
  lemma {:induction false} RunShort(session: nat, steps: seq<Step>)
    requires InOrder(steps)
    ensures forall chunk <- Files(session, steps) :: ShortChunk(chunk)
    ensures Short(Pending(Run(session, steps).0)) && NotAfter(Pending(Run(session, steps).0), LatestTs(steps))
  {
    if steps != [] {
      var before := steps[..|steps| - 1];
      RunShort(session, before);
      StepShort(session, Run(session, before).0, steps[|steps| - 1], LatestTs(before));
    }
  }

  /** After a tick the newest pending row is less than a minute old, and every one less than two. */
  lemma FreshAfterTick(session: nat, steps: seq<Step>, now: nat)
    requires InOrder(steps) && LatestTs(steps) <= now < TIME_RANGE
    ensures var pending := Pending(Run(session, steps + [Ticked(now)]).0);
      && (pending != [] ==> now - pending[|pending| - 1].ts < MAX_FILE_LEN_MS)
      && forall i :: 0 <= i < |pending| ==> now - pending[i].ts < 2 * MAX_FILE_LEN_MS
  {
    RunShort(session, steps);
    assert (steps + [Ticked(now)])[..|steps|] == steps;
    var pending := Pending(Run(session, steps).0);
    if pending != [] {
      var to := pending[|pending| - 1].ts;
      assert to <= now;
      assert Elapsed(to, now) == now - to;
    }
  }

  // ---------------------------------------------------------------- when a file is cut

  /** The rows that a step finds unwritten: what was pending, and its own row if it is taken. */
  function Unwritten(session: nat, steps: seq<Step>, step: Step): seq<Row> {
    var pending := Pending(Run(session, steps).0);
    if step.Pushed? && step.event.Track? && PhaseOf(steps) == Live then pending + [Row(step.ts, step.event)] else pending
  }

  /** A minute between the first row and the last, or between the last row and now. */
  predicate MinutePassed(rows: seq<Row>, now: nat)
    requires rows != []
  {
    var last := rows[|rows| - 1].ts;
    last - rows[0].ts >= MAX_FILE_LEN_MS || now - last >= MAX_FILE_LEN_MS
  }

  /** The step comes in order, with a clock that is not behind the events. */
  predicate Timely(steps: seq<Step>, step: Step) {
    match step
    case Ticked(now) => LatestTs(steps) <= now < TIME_RANGE
    case Pushed(now, ts, _) => LatestTs(steps) <= ts <= now < TIME_RANGE
  }

  lemma DueIff(rows: seq<Row>, now: nat, force: bool)
    requires rows != [] && rows[0].ts <= rows[|rows| - 1].ts <= now < TIME_RANGE
    ensures Due(rows, now, force) <==> force || MinutePassed(rows, now)
  {
    var from, to := rows[0].ts, rows[|rows| - 1].ts;
    assert Elapsed(from, to) == to - from && Elapsed(to, now) == now - to;
  }

  lemma UnwrittenInOrder(session: nat, steps: seq<Step>, step: Step)
    requires InOrder(steps) && Timely(steps, step)
    ensures var rows := Unwritten(session, steps, step);
      rows != [] ==> rows[0].ts <= rows[|rows| - 1].ts <= step.now
  {
    RunShort(session, steps);
  }

  /** The file that a step cuts holds all that is unwritten. */
  lemma CutsAll(session: nat, s: State, log: Log, step: Step, rows: seq<Row>)
    requires Agrees(session, s, log)
    requires rows == if step.Pushed? && step.event.Track? && log.phase == Live then Pending(s) + [Row(step.ts, step.event)] else Pending(s)
    ensures var out := Apply(session, s, step).1;
      && (out.Some? <==> rows != [] && !(step.Pushed? && step.event.JoinRoom?)
                         && Due(rows, step.now, step.Pushed? && !step.event.Track?))
      && (out.Some? ==> out.value.rows == rows)
  {
  }

  /**
   A step cuts a file exactly if it is not a join, some row is unwritten, and either the room is left
   or the session disconnected, or a minute has passed.  The file then holds every unwritten row.
   */
  lemma CutIff(session: nat, steps: seq<Step>, step: Step)
    requires InOrder(steps) && Timely(steps, step)
    ensures var rows := Unwritten(session, steps, step);
      var out := Apply(session, Run(session, steps).0, step).1;
      && (out.Some? <==>
            && rows != [] && !(step.Pushed? && step.event.JoinRoom?)
            && ((step.Pushed? && (step.event.LeaveRoom? || step.event.Disconnected?)) || MinutePassed(rows, step.now)))
      && (out.Some? ==> out.value.rows == rows)
  {
    var (s, log) := Run(session, steps);
    var rows := Unwritten(session, steps, step);
    RunAgrees(session, steps);
    PhaseIs(session, steps);
    CutsAll(session, s, log, step, rows);
    UnwrittenInOrder(session, steps, step);
    if rows != [] { DueIff(rows, step.now, step.Pushed? && !step.event.Track?); }
  }
}
