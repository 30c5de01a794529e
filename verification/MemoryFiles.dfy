/**
 The in-memory file of the recorder (packages/media_record/src/storage/memory.rs): writes append
 whole chunks, and a read takes from the first chunk only, as much of it as is asked for.

 Since a read never crosses a chunk, the chunks also describe how any other byte source splits what
 it delivers: a source that answers successive reads with pieces of any nonzero sizes is a file
 with exactly those pieces as chunks.
 */
module MemoryFiles {
  type Byte = b: nat | b < 256

  datatype Chunk = Chunk(used: nat, data: seq<Byte>)

  predicate Sound(chunks: seq<Chunk>) {
    forall c <- chunks :: c.used <= |c.data|
  }

  /** No chunk is used up, so a read of a nonzero size gets something unless the file is at its end. */
  predicate Gapless(chunks: seq<Chunk>) {
    forall c <- chunks :: c.used < |c.data|
  }

  /** The bytes still to be read. */
  function Unread(chunks: seq<Chunk>): seq<Byte>
    requires Sound(chunks)
  {
    if chunks == [] then [] else chunks[0].data[chunks[0].used..] + Unread(chunks[1..])
  }

  lemma {:induction false} UnreadAppend(chunks: seq<Chunk>, data: seq<Byte>)
    requires Sound(chunks)
    ensures Sound(chunks + [Chunk(0, data)])
    ensures Unread(chunks + [Chunk(0, data)]) == Unread(chunks) + data
  {
    if chunks == [] {
      assert Unread(([Chunk(0, data)])[1..]) == [];
    } else {
      UnreadAppend(chunks[1..], data);
      assert (chunks + [Chunk(0, data)])[1..] == chunks[1..] + [Chunk(0, data)];
    }
  }

  class MemoryFile {
    var chunks: seq<Chunk>
    var len: nat

    /** `len` counts the unread bytes. */
    ghost predicate Valid()
      reads this
    {
      Sound(chunks) && len == |Unread(chunks)|
    }

    ghost function Contents(): seq<Byte>
      requires Valid()
      reads this
    {
      Unread(chunks)
    }

    constructor ()
      ensures Valid() && chunks == [] && Contents() == []
    {
      chunks, len := [], 0;
    }

    method Write(buf: seq<Byte>)
      requires Valid()
      modifies this
      ensures Valid() && Contents() == old(Contents()) + buf
      ensures chunks == old(chunks) + [Chunk(0, buf)]
    {
      UnreadAppend(chunks, buf);
      chunks := chunks + [Chunk(0, buf)];
      len := len + |buf|;
    }

    /** Read at most `want` bytes: the longest run at the front that lies within one chunk. */
    method Read(want: nat) returns (got: seq<Byte>)
      requires Valid()
      modifies this
      ensures Valid() && old(Contents()) == got + Contents()
      ensures |got| <= want
      ensures old(Gapless(chunks)) ==> Gapless(chunks) && (got == [] <==> want == 0 || old(Contents()) == [])
    {
      got := [];
      if chunks != [] {
        var used, data := chunks[0].used, chunks[0].data;
        var n := if want < |data| - used then want else |data| - used;
        got := data[used..used + n];
        assert data[used..] == got + data[used + n..];
        if used + n == |data| {
          chunks := chunks[1..];
        } else {
          chunks := [Chunk(used + n, data)] + chunks[1..];
        }
        len := len - n;
      }
    }
  }

  /**
   Fill `buf[from..to]`, reading as often as needed.  A read that gets nothing ends it without
   success; what was read until then is lost.
   */
  method ReadExact(file: MemoryFile, buf: array<Byte>, from: nat, to: nat) returns (ok: bool)
    requires file.Valid() && from <= to <= buf.Length
    modifies file, buf
    ensures file.Valid()
    ensures buf[..from] == old(buf[..from]) && buf[to..] == old(buf[to..])
    ensures ok ==> old(file.Contents()) == buf[from..to] + file.Contents()
    ensures old(Gapless(file.chunks)) ==>
      && Gapless(file.chunks)
      && (ok <==> to - from <= |old(file.Contents())|)
      && (!ok ==> file.Contents() == [])
  {
    var at := from;
    ghost var start, all := buf[..], file.Contents();
    while at < to
      invariant from <= at <= to && file.Valid()
      invariant Filled(start, buf[..], from, at, to)
      invariant all == buf[..][from..at] + file.Contents()
      invariant old(Gapless(file.chunks)) ==> Gapless(file.chunks)
    {
      ghost var before, rest := buf[..], file.Contents();
      var n := ReadPiece(file, buf, at, to);
      if n == 0 {
        assert buf[..from] == buf[..][..from] && buf[to..] == buf[..][to..];
        return false;
      }
      FilledMore(start, before, buf[..], from, at, n, to);
      Rejoin(before[from..at], rest, buf[..][at..at + n], file.Contents());
      at := at + n;
    }
    assert buf[..from] == buf[..][..from] && buf[to..] == buf[..][to..] && buf[from..to] == buf[..][from..to];
    ok := true;
  }

  /** Nothing outside `from..to` has changed, nor anything from `at` on. */
  ghost predicate Filled(start: seq<Byte>, now: seq<Byte>, from: nat, at: nat, to: nat)
    requires from <= at <= to <= |start|
  {
    |now| == |start| && now[..from] == start[..from] && now[at..] == start[at..]
  }

  lemma FilledMore(start: seq<Byte>, before: seq<Byte>, now: seq<Byte>, from: nat, at: nat, n: nat, to: nat)
    requires from <= at <= at + n <= to <= |start|
    requires Filled(start, before, from, at, to)
    requires |now| == |before| && now[..at] == before[..at] && now[at + n..] == before[at + n..]
    ensures Filled(start, now, from, at + n, to)
    ensures now[from..at + n] == before[from..at] + now[at..at + n]
  {
    assert now[..from] == now[..at][..from] && before[..from] == before[..at][..from];
    assert before[at + n..] == before[at..][n..] && start[at + n..] == start[at..][n..];
    assert now[from..at] == now[..at][from..] && before[from..at] == before[..at][from..];
  }

  /** One read into the buffer, of at most the rest of its range. */
  method ReadPiece(file: MemoryFile, buf: array<Byte>, at: nat, to: nat) returns (n: nat)
    requires file.Valid() && at < to <= buf.Length
    modifies file, buf
    ensures file.Valid() && at + n <= to
    ensures buf[..][..at] == old(buf[..][..at]) && buf[..][at + n..] == old(buf[..])[at + n..]
    ensures old(file.Contents()) == buf[..][at..at + n] + file.Contents()
    ensures old(Gapless(file.chunks)) ==> Gapless(file.chunks) && (n == 0 <==> old(file.Contents()) == [])
  {
    var got := file.Read(to - at);
    n := |got|;
    Put(buf, at, got);
  }

  lemma Rejoin(a: seq<Byte>, b: seq<Byte>, b1: seq<Byte>, b2: seq<Byte>)
    requires b == b1 + b2
    ensures a + b == (a + b1) + b2
  {
  }

  /** Overwrite part of the buffer. */
  method Put(buf: array<Byte>, at: nat, bytes: seq<Byte>)
    requires at + |bytes| <= buf.Length
    modifies buf
    ensures buf[..] == old(buf[..at]) + bytes + old(buf[at + |bytes|..])
    ensures buf[..at] == old(buf[..at]) && buf[at..at + |bytes|] == bytes
    ensures buf[at + |bytes|..] == old(buf[at + |bytes|..])
  {
    for i := 0 to |bytes|
      invariant buf[..at] == old(buf[..at]) && buf[at..at + i] == bytes[..i]
      invariant buf[at + i..] == old(buf[at + i..])
    {
      buf[at + i] := bytes[i];
    }
  }
}
