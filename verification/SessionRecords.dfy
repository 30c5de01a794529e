/**
 Cutting the recording of a session into chunk files (packages/media_record/src/session.rs).

 Times are unsigned 64-bit values, and their differences wrap around as in a release build.
 */
module SessionRecords {
  import opened Options
  import opened MemoryFiles
  import opened Framing
  import opened RecordChunks

  const MAX_FILE_LEN_MS: nat := 60_000
  const TIME_RANGE: nat := 0x1_0000_0000_0000_0000

  datatype Event =
    | JoinRoom(app: string, room: string, peer: string)
    | LeaveRoom
    | Disconnected
    | Track(payload: string)

  datatype Row = Row(ts: nat, event: Event)
  datatype Header = Header(room: string, peer: string, session: nat, startTs: nat, endTs: nat)
  datatype Req = Req(app: string, room: string, peer: string, session: nat, index: nat, fromTs: nat, toTs: nat)

  datatype RoomState = RoomState(index: nat, app: string, room: string, peer: string, queue: Option<seq<Row>>)
  datatype State = State(room: Option<RoomState>, closed: bool)

  const INITIAL := State(None, false)

  /** A chunk file by the request that announces it and the rows it holds. */
  datatype ChunkFile = ChunkFile(req: Req, rows: seq<Row>)

  function Elapsed(from: nat, to: nat): nat {
    (to - from) % TIME_RANGE
  }

  function Pending(s: State): seq<Row> {
    if s.room.Some? && s.room.value.queue.Some? then s.room.value.queue.value else []
  }

  predicate Due(queue: seq<Row>, now: nat, force: bool)
    requires queue != []
  {
    var from, to := queue[0].ts, queue[|queue| - 1].ts;
    force || Elapsed(from, to) >= MAX_FILE_LEN_MS || Elapsed(to, now) >= MAX_FILE_LEN_MS
  }

  function ChunkOf(session: nat, r: RoomState, queue: seq<Row>): ChunkFile
    requires queue != []
  {
    ChunkFile(Req(r.app, r.room, r.peer, session, r.index, queue[0].ts, queue[|queue| - 1].ts), queue)
  }

  function PopFile(session: nat, s: State, now: nat, force: bool): (State, Option<ChunkFile>) {
    var queue := Pending(s);
    if queue == [] || !Due(queue, now, force) then (s, None)
    else
      var r := s.room.value;
      (s.(room := Some(r.(queue := None, index := r.index + 1))), Some(ChunkOf(session, r, queue)))
  }

  function Push(session: nat, s: State, now: nat, ts: nat, event: Event): (State, Option<ChunkFile>) {
    if s.closed then PopFile(session, s, now, true)
    else match event
      case JoinRoom(app, room, peer) => (s.(room := Some(RoomState(0, app, room, peer, Some([Row(ts, event)])))), None)
      case LeaveRoom => PopFile(session, s, now, true)
      case Disconnected => PopFile(session, s.(closed := true), now, true)
      case Track(_) =>
        if s.room.None? then (s, None)
        else PopFile(session, s.(room := Some(s.room.value.(queue := Some(Pending(s) + [Row(ts, event)])))), now, false)
  }

  // ---------------------------------------------------------------- the session as an object

  /** The row has a 64-bit time, and fits into the buffer behind its length. */
  predicate RowFits(rows: Codec<Row>, row: Row) {
    row.ts < TIME_RANGE && |rows.encode(row)| + 4 <= BUF_LEN
  }

  /** Whatever its 64-bit times, a header with these names fits. */
  ghost predicate NamesFit(headers: Codec<Header>, room: string, peer: string, session: nat) {
    forall from: nat, to: nat :: from < TIME_RANGE && to < TIME_RANGE ==>
      |headers.encode(Header(room, peer, session, from, to))| + 4 <= BUF_LEN
  }

  function HeaderOf(req: Req): Header {
    Header(req.room, req.peer, req.session, req.fromTs, req.toTs)
  }

  /** The bytes of a chunk file. */
  function FileBytes(headers: Codec<Header>, rows: Codec<Row>, chunk: ChunkFile): seq<Byte> {
    Frame(headers.encode(HeaderOf(chunk.req))) + EncodeRows(rows, chunk.rows)
  }

  datatype Closed = Closed(req: Req, file: MemoryFile)

  class SessionRecord {
    const session: nat
    const headers: Codec<Header>
    const rows: Codec<Row>
    var room: Option<RoomState>
    var closed: bool

    ghost function View(): State
      reads this
    {
      State(room, closed)
    }

    /** Everything held fits into the writer's buffer. */
    ghost predicate Valid()
      reads this
    {
      && (forall row <- Pending(View()) :: RowFits(rows, row))
      && (room.Some? ==> NamesFit(headers, room.value.room, room.value.peer, session))
    }

    /** `out` is the file of `chunk`, ready to be read from its start. */
    ghost predicate IsFileOf(out: Option<Closed>, chunk: Option<ChunkFile>)
      reads this, if out.Some? then {out.value.file} else {}
    {
      && (out.Some? <==> chunk.Some?)
      && (out.Some? ==>
            && out.value.req == chunk.value.req
            && out.value.file.Valid() && Gapless(out.value.file.chunks)
            && out.value.file.Contents() == FileBytes(headers, rows, chunk.value))
    }

    constructor (session: nat, headers: Codec<Header>, rows: Codec<Row>)
      ensures Valid() && View() == INITIAL
      ensures this.session == session && this.headers == headers && this.rows == rows
    {
      this.session, this.headers, this.rows := session, headers, rows;
      room, closed := None, false;
    }

    method CutFile(now: nat, force: bool) returns (out: Option<Closed>)
      requires Valid()
      modifies this
      ensures Valid() && View() == PopFile(session, old(View()), now, force).0
      ensures IsFileOf(out, PopFile(session, old(View()), now, force).1)
      ensures out.Some? ==> fresh(out.value.file)
    {
      if room.None? || room.value.queue.None? || room.value.queue.value == [] {
        return None;
      }
      var r := room.value;
      var queue := r.queue.value;
      var from, to := queue[0].ts, queue[|queue| - 1].ts;
      if !(force || Elapsed(from, to) >= MAX_FILE_LEN_MS || Elapsed(to, now) >= MAX_FILE_LEN_MS) {
        return None;
      }
      assert forall row <- queue :: RowFits(rows, row);
      assert RowFits(rows, queue[0]) && RowFits(rows, queue[|queue| - 1]);
      var file := WriteChunk(headers, rows, Header(r.room, r.peer, session, from, to), queue);
      room := Some(r.(queue := None, index := r.index + 1));
      out := Some(Closed(Req(r.app, r.room, r.peer, session, r.index, from, to), file));
    }

    method PushEvent(now: nat, ts: nat, event: Event) returns (out: Option<Closed>)
      requires Valid() && RowFits(rows, Row(ts, event))
      requires event.JoinRoom? ==> NamesFit(headers, event.room, event.peer, session)
      modifies this
      ensures Valid() && View() == Push(session, old(View()), now, ts, event).0
      ensures IsFileOf(out, Push(session, old(View()), now, ts, event).1)
    {
      if closed {
        out := CutFile(now, true);
        return;
      }
      match event {
        case JoinRoom(app, name, peer) =>
          room := Some(RoomState(0, app, name, peer, Some([Row(ts, event)])));
          out := None;
        case LeaveRoom =>
          out := CutFile(now, true);
        case Disconnected =>
          closed := true;
          out := CutFile(now, true);
        case Track(_) =>
          if room.None? {
            return None;
          }
          if room.value.queue.Some? {
            room := Some(room.value.(queue := Some(room.value.queue.value + [Row(ts, event)])));
          } else {
            room := Some(room.value.(queue := Some([Row(ts, event)])));
          }
          assert [] + [Row(ts, event)] == [Row(ts, event)];
          assert View() == old(View()).(room := Some(old(room).value.(queue := Some(Pending(old(View())) + [Row(ts, event)]))));
          out := CutFile(now, false);
      }
    }

    method TickAt(now: nat) returns (out: Option<Closed>)
      requires Valid()
      modifies this
      ensures Valid() && View() == PopFile(session, old(View()), now, false).0
      ensures IsFileOf(out, PopFile(session, old(View()), now, false).1)
    {
      out := CutFile(now, false);
    }
  }
}
