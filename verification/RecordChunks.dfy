/**
 The chunk writer and the chunk reader as objects (packages/media_record/src/raw_record/
 chunk_writer.rs and chunk_reader.rs), each proved against the framing on byte strings.

 The reader's source is any sequence of nonempty pieces, so nothing depends on how it is split.
 */
module RecordChunks {
  import opened Options
  import opened MemoryFiles
  import opened Framing

  class RecordChunkWriter<H, R> {
    const buf: array<Byte>
    const file: MemoryFile
    const headers: Codec<H>
    const rows: Codec<R>

    ghost predicate Valid()
      reads this, file
    {
      buf.Length == BUF_LEN && file.Valid() && Gapless(file.chunks)
    }

    ghost function Contents(): seq<Byte>
      requires Valid()
      reads this, file
    {
      file.Contents()
    }

    /** Writes the header.  A header that does not fit into the buffer is a fault of the caller. */
    constructor (headers: Codec<H>, rows: Codec<R>, header: H)
      requires |headers.encode(header)| + 4 <= BUF_LEN
      ensures Valid() && fresh(buf) && fresh(file)
      ensures this.headers == headers && this.rows == rows
      ensures Contents() == Frame(headers.encode(header))
    {
      var b := new Byte[BUF_LEN](_ => 0);
      var f := new MemoryFile();
      var bytes := headers.encode(header);
      WriteFrame(b, f, bytes);
      this.headers, this.rows := headers, rows;
      buf, file := b, f;
    }

    method Push(row: R)
      requires Valid() && |rows.encode(row)| + 4 <= BUF_LEN
      modifies buf, file
      ensures Valid() && Contents() == old(Contents()) + Frame(rows.encode(row))
    {
      WriteFrame(buf, file, rows.encode(row));
    }
  }

  /** Lay the length and the body out in the buffer, then append that part of it to the file. */
  method WriteFrame(buf: array<Byte>, file: MemoryFile, body: seq<Byte>)
    requires buf.Length == BUF_LEN && |body| + 4 <= BUF_LEN
    requires file.Valid() && Gapless(file.chunks)
    modifies buf, file
    ensures file.Valid() && Gapless(file.chunks)
    ensures file.Contents() == old(file.Contents()) + Frame(body)
  {
    Put(buf, 4, body);
    Put(buf, 0, ToBytes(|body|, 4));
    assert buf[..4 + |body|] == Frame(body);
    file.Write(buf[..4 + |body|]);
  }

  /** All rows of a chunk in one go, as when a file is cut. */
  method WriteChunk<H, R>(headers: Codec<H>, codec: Codec<R>, header: H, queue: seq<R>) returns (file: MemoryFile)
    requires |headers.encode(header)| + 4 <= BUF_LEN
    requires forall row <- queue :: |codec.encode(row)| + 4 <= BUF_LEN
    ensures fresh(file) && file.Valid() && Gapless(file.chunks)
    ensures file.Contents() == Frame(headers.encode(header)) + EncodeRows(codec, queue)
  {
    var writer := new RecordChunkWriter(headers, codec, header);
    for i := 0 to |queue|
      invariant writer.Valid() && fresh(writer.buf) && fresh(writer.file) && writer.rows == codec
      invariant writer.Contents() == Frame(headers.encode(header)) + EncodeRows(codec, queue[..i])
    {
      writer.Push(queue[i]);
      EncodeNext(codec, queue, i);
      Rejoin(Frame(headers.encode(header)), EncodeRows(codec, queue[..i + 1]),
             EncodeRows(codec, queue[..i]), Frame(codec.encode(queue[i])));
    }
    assert queue[..|queue|] == queue;
    file := writer.file;
  }

  lemma {:induction false} EncodeSnoc<R>(c: Codec<R>, rows: seq<R>, row: R)
    ensures EncodeRows(c, rows + [row]) == EncodeRows(c, rows) + Frame(c.encode(row))
  {
    if rows == [] {
      assert [row][1..] == [];
      assert EncodeRows(c, []) == [];
    } else {
      assert (rows + [row])[1..] == rows[1..] + [row];
      EncodeSnoc(c, rows[1..], row);
    }
  }

  lemma EncodeNext<R>(c: Codec<R>, rows: seq<R>, i: nat)
    requires i < |rows|
    ensures EncodeRows(c, rows[..i + 1]) == EncodeRows(c, rows[..i]) + Frame(c.encode(rows[i]))
  {
    assert rows[..i + 1] == rows[..i] + [rows[i]];
    EncodeSnoc(c, rows[..i], rows[i]);
  }

  class RecordChunkReader<H, R> {
    const source: MemoryFile
    const buf: array<Byte>
    const headers: Codec<H>
    const rows: Codec<R>
    const ts: R -> nat
    var header: Option<H>
    var peek: Option<R>

    ghost predicate Valid()
      reads this, source
    {
      buf.Length == BUF_LEN && source.Valid() && Gapless(source.chunks)
    }

    ghost function View(): Reading<R>
      requires Valid()
      reads this, source
    {
      Reading(source.Contents(), peek)
    }

    constructor (source: MemoryFile, headers: Codec<H>, rows: Codec<R>, ts: R -> nat)
      requires source.Valid() && Gapless(source.chunks)
      ensures Valid() && fresh(buf) && this.source == source
      ensures this.headers == headers && this.rows == rows && this.ts == ts
      ensures header == None && peek == None
    {
      this.source, this.headers, this.rows, this.ts := source, headers, rows, ts;
      buf := new Byte[BUF_LEN](_ => 0);
      header, peek := None, None;
    }

    /** Read the header's frame; `false` on any failure. */
    method Connect() returns (ok: bool)
      requires Valid()
      modifies this, source, buf
      ensures Valid() && peek == old(peek)
      ensures source.Contents() == Rest(Parse(old(source.Contents())))
      ensures ok <==> TakeRow(headers, old(source.Contents())).Next?
      ensures header == if ok then Some(TakeRow(headers, old(source.Contents())).row) else old(header)
    {
      var out := NextFrame(headers);
      if out.Next? {
        header := Some(out.row);
      }
      ok := out.Next?;
    }

    /** One frame: the length, then the body if it fits into the buffer, then its value. */
    method NextFrame<T>(codec: Codec<T>) returns (out: Popped<T>)
      requires Valid()
      modifies source, buf
      ensures Valid()
      ensures source.Contents() == Rest(Parse(old(source.Contents())))
      ensures out == TakeRow(codec, old(source.Contents()))
    {
      ghost var bytes := source.Contents();
      var prefix := new Byte[4](_ => 0);
      var ok := ReadExact(source, prefix, 0, 4);
      if !ok {
        return End;
      }
      ghost var body := source.Contents();
      assert bytes == prefix[..] + body;
      assert bytes[..4] == prefix[..];
      assert bytes[4..] == body;
      var n := FromBytes(prefix[..]);
      if n > BUF_LEN {
        return Failed;
      }
      ok := ReadUtilFull(n);
      if !ok {
        return Failed;
      }
      assert body[..n] == buf[..n];
      assert bytes[4..4 + n] == buf[..n];
      assert bytes[4 + n..] == source.Contents();
      var value := codec.decode(buf[..n]);
      out := if value.Some? then Next(value.value) else Failed;
    }

    /** Fill the first `n` places of the buffer. */
    method ReadUtilFull(n: nat) returns (ok: bool)
      requires Valid() && n <= BUF_LEN
      modifies source, buf
      ensures Valid() && (ok <==> n <= |old(source.Contents())|)
      ensures if ok then old(source.Contents()) == buf[..n] + source.Contents() else source.Contents() == []
    {
      var at := 0;
      while at < n
        invariant 0 <= at <= n && Valid()
        invariant old(source.Contents()) == buf[..at] + source.Contents()
      {
        ghost var before, rest := buf[..at], source.Contents();
        ok := ReadExact(source, buf, at, n);
        assert |before| == at && |old(source.Contents())| == at + |rest|;
        if !ok {
          return;
        }
        Rejoin(before, rest, buf[at..n], source.Contents());
        assert buf[..n] == before + buf[at..n];
        at := n;
      }
      ok := true;
    }

    method PopRow() returns (out: Popped<R>)
      requires Valid()
      modifies this, source, buf
      ensures Valid() && header == old(header)
      ensures (View(), out) == Pop(rows, old(View()))
    {
      if peek.Some? {
        out := Next(peek.value);
        peek := None;
        return;
      }
      out := NextFrame(rows);
    }

    method PeekNextTs() returns (out: Option<nat>)
      requires Valid()
      modifies this, source, buf
      ensures Valid() && header == old(header)
      ensures (View(), out) == PeekTs(rows, ts, old(View()))
    {
      if peek.None? {
        var next := PopRow();
        if !next.Next? {
          return None;
        }
        peek := Some(next.row);
      }
      out := Some(ts(peek.value));
    }
  }
}
