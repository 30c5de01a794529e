/**
 Reading a session back from its chunk files (packages/media_record/src/raw_record/session_reader.rs),
 as the composer does: it peeks, and then pops and peeks in turn until a pop gives nothing.

 Files are given as the bytes they hold, in the order in which they are read; how they are listed and
 fetched is not part of this model.
 */
module SessionReading {
  import opened Options
  import opened MemoryFiles
  import opened Framing
  import opened FramingRuns

  datatype Session<T> = Session(files: seq<seq<Byte>>, current: Option<Reading<T>>)

  predicate HeaderReads<H>(headers: Codec<H>, file: seq<Byte>) {
    TakeRow(headers, file).Next?
  }

  /** Open the next file if none is open.  A file whose header does not read is gone, and the call fails. */
  function NextChunk<H, T>(headers: Codec<H>, s: Session<T>): (Session<T>, bool) {
    if s.current.Some? then (s, true)
    else if s.files == [] then (s, false)
    else if HeaderReads(headers, s.files[0]) then (Session(s.files[1..], Some(Reading(Rest(Parse(s.files[0])), None))), true)
    else (s.(files := s.files[1..]), false)
  }

  function Left<T>(s: Session<T>): nat {
    2 * |s.files| + if s.current.Some? then 1 else 0
  }

  /** The time of the next row.  A file that has no further row, or fails, is left for the next. */
  function SessionPeek<H, T>(headers: Codec<H>, c: Codec<T>, ts: T -> nat, s: Session<T>): (Session<T>, Option<nat>)
    decreases Left(s)
  {
    var (s1, ok) := NextChunk(headers, s);
    if !ok then (s1, None)
    else
      var (r, out) := PeekTs(c, ts, s1.current.value);
      if out.Some? then (s1.(current := Some(r)), out) else SessionPeek(headers, c, ts, s1.(current := None))
  }

  /** The next row.  A file that ends is left for the next, but one that fails ends the session. */
  function SessionPop<H, T>(headers: Codec<H>, c: Codec<T>, s: Session<T>): (Session<T>, Option<T>)
    decreases Left(s)
  {
    var (s1, ok) := NextChunk(headers, s);
    if !ok then (s1, None)
    else
      var (r, out) := Pop(c, s1.current.value);
      match out
      case Next(row) => (s1.(current := Some(r)), Some(row))
      case Failed => (s1.(current := Some(r)), None)
      case End => SessionPop(headers, c, s1.(current := None))
  }

  /** From here on pops give exactly `rows`, each followed by a peek that tells the time of the next, and then nothing. */
  ghost predicate Gives<H, T>(headers: Codec<H>, c: Codec<T>, ts: T -> nat, s: Session<T>, rows: seq<T>)
    decreases |rows|
  {
    var (s1, out) := SessionPop(headers, c, s);
    if rows == [] then out.None?
    else
      var (s2, next) := SessionPeek(headers, c, ts, s1);
      && out == Some(rows[0])
      && next == (if |rows| > 1 then Some(ts(rows[1])) else None)
      && Gives(headers, c, ts, s2, rows[1..])
  }

  // ---------------------------------------------------------------- what a session gives

  /** The complete rows of a file, behind its header. */
  function RowsIn<T>(c: Codec<T>, file: seq<Byte>): seq<T> {
    Drain(c, Rest(Parse(file))).0
  }

  function RowsInAll<T>(c: Codec<T>, files: seq<seq<Byte>>): seq<T> {
    if files == [] then [] else RowsIn(c, files[0]) + RowsInAll(c, files[1..])
  }

  ghost predicate HeadersRead<H>(headers: Codec<H>, files: seq<seq<Byte>>) {
    forall file <- files :: HeaderReads(headers, file)
  }

  /** The session has been peeked at, and `rows` are still to come. */
  ghost predicate Stands<T>(c: Codec<T>, s: Session<T>, rows: seq<T>) {
    if rows == [] then s == Session([], None)
    else
      && s.current.Some? && s.current.value.peek == Some(rows[0])
      && rows[1..] == Drain(c, s.current.value.rest).0 + RowsInAll(c, s.files)
  }

  /** The rows of an open file that nothing was taken from ahead of time. */
  function Open<T>(c: Codec<T>, s: Session<T>): seq<T> {
    (if s.current.Some? then Drain(c, s.current.value.rest).0 else []) + RowsInAll(c, s.files)
  }

  ghost predicate Plain<T>(s: Session<T>) {
    s.current.Some? ==> s.current.value.peek.None?
  }

  lemma PeekedRow<T>(c: Codec<T>, ts: T -> nat, r: Reading<T>)
    requires r.peek.None?
    ensures var (r1, out) := PeekTs(c, ts, r);
      var rows := Drain(c, r.rest).0;
      if rows == [] then out.None?
      else out == Some(ts(rows[0])) && r1.peek == Some(rows[0]) && Drain(c, r1.rest).0 == rows[1..]
  {
  }

  lemma {:induction false} PeekFinds<H, T>(headers: Codec<H>, c: Codec<T>, ts: T -> nat, s: Session<T>)
    requires Plain(s) && HeadersRead(headers, s.files)
    ensures var (s', out) := SessionPeek(headers, c, ts, s);
      && Stands(c, s', Open(c, s)) && HeadersRead(headers, s'.files)
      && out == (if Open(c, s) == [] then None else Some(ts(Open(c, s)[0])))
    decreases Left(s)
  {
    if s.current.Some? {
      PeekOpen(headers, c, ts, s);
    } else if s.files != [] {
      var s1 := Session(s.files[1..], Some(Reading(Rest(Parse(s.files[0])), None)));
      assert HeaderReads(headers, s.files[0]);
      assert Open(c, s) == Open(c, s1);
      PeekOpen(headers, c, ts, s1);
    }
  }

  lemma {:induction false} PeekOpen<H, T>(headers: Codec<H>, c: Codec<T>, ts: T -> nat, s: Session<T>)
    requires s.current.Some? && Plain(s) && HeadersRead(headers, s.files)
    ensures var (s', out) := SessionPeek(headers, c, ts, s);
      && Stands(c, s', Open(c, s)) && HeadersRead(headers, s'.files)
      && out == (if Open(c, s) == [] then None else Some(ts(Open(c, s)[0])))
    decreases Left(s), 0
  {
    if Drain(c, s.current.value.rest).0 == [] {
      PeekMovesOn(headers, c, ts, s);
      PeekFinds(headers, c, ts, s.(current := None));
    } else {
      PeekStays(headers, c, ts, s);
    }
  }

  lemma PeekMovesOn<H, T>(headers: Codec<H>, c: Codec<T>, ts: T -> nat, s: Session<T>)
    requires s.current.Some? && Plain(s) && Drain(c, s.current.value.rest).0 == []
    ensures SessionPeek(headers, c, ts, s) == SessionPeek(headers, c, ts, s.(current := None))
    ensures Open(c, s.(current := None)) == Open(c, s)
  {
    PeekedRow(c, ts, s.current.value);
  }

  lemma PeekStays<H, T>(headers: Codec<H>, c: Codec<T>, ts: T -> nat, s: Session<T>)
    requires s.current.Some? && Plain(s) && Drain(c, s.current.value.rest).0 != []
    ensures var (s', out) := SessionPeek(headers, c, ts, s);
      Stands(c, s', Open(c, s)) && s'.files == s.files && Open(c, s) != [] && out == Some(ts(Open(c, s)[0]))
  {
    var rows := Drain(c, s.current.value.rest).0;
    PeekedRow(c, ts, s.current.value);
    TailOf(rows, RowsInAll(c, s.files));
  }

  lemma TailOf<T>(a: seq<T>, b: seq<T>)
    requires a != []
    ensures (a + b)[0] == a[0] && (a + b)[1..] == a[1..] + b
  {
  }

  lemma {:induction false} StandsGives<H, T>(headers: Codec<H>, c: Codec<T>, ts: T -> nat, s: Session<T>, rows: seq<T>)
    requires Stands(c, s, rows) && HeadersRead(headers, s.files)
    ensures Gives(headers, c, ts, s, rows)
    decreases |rows|
  {
    if rows != [] {
      var s1 := s.(current := Some(s.current.value.(peek := None)));
      assert SessionPop(headers, c, s) == (s1, Some(rows[0]));
      assert Open(c, s1) == rows[1..];
      PeekFinds(headers, c, ts, s1);
      StandsGives(headers, c, ts, SessionPeek(headers, c, ts, s1).0, rows[1..]);
    }
  }

  /**
   With readable headers, a session gives exactly the complete rows of all its files in order, each
   once, even if files are cut short: the peek before each pop has already moved on to the next file.
   */
  lemma SessionGivesCompleteRows<H, T>(headers: Codec<H>, c: Codec<T>, ts: T -> nat, files: seq<seq<Byte>>)
    requires HeadersRead(headers, files)
    ensures var rows := RowsInAll(c, files);
      var (s, first) := SessionPeek(headers, c, ts, Session(files, None));
      first == (if rows == [] then None else Some(ts(rows[0]))) && Gives(headers, c, ts, s, rows)
  {
    var s := Session(files, None);
    assert Open(c, s) == RowsInAll(c, files);
    PeekFinds(headers, c, ts, s);
    StandsGives(headers, c, ts, SessionPeek(headers, c, ts, s).0, RowsInAll(c, files));
  }

  /** A session whose first file has no readable header seems empty at the first peek, whatever follows. */
  lemma BadFirstHeader<H, T>(headers: Codec<H>, c: Codec<T>, ts: T -> nat, files: seq<seq<Byte>>)
    requires files != [] && !HeaderReads(headers, files[0])
    ensures SessionPeek(headers, c, ts, Session(files, None)).1 == None
  {
  }

  /** Without the peek a file that is cut within a row would end the session. */
  lemma PopEndsAtCut<H, T>(headers: Codec<H>, c: Codec<T>, s: Session<T>)
    requires s.current.Some? && s.current.value.peek.None? && Drain(c, s.current.value.rest) == ([], Failed)
    ensures SessionPop(headers, c, s).1 == None
  {
  }
}
