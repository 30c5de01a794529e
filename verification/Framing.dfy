/**
 Length-prefixed framing of recorded sessions, on byte strings: what
 packages/media_record/src/raw_record/chunk_writer.rs lays out and chunk_reader.rs takes apart.

 The serialisation of a header or a row is a parameter: `encode` gives its bytes and `decode` may
 refuse a byte string.
 */
module Framing {
  import opened Options
  import opened MemoryFiles

  const BUF_LEN: nat := 1500

  datatype Codec<!T> = Codec(encode: T -> seq<Byte>, decode: seq<Byte> -> Option<T>)

  /** The value fits into the buffer behind its length, and decodes to itself. */
  ghost predicate Fits<T>(c: Codec<T>, x: T) {
    |c.encode(x)| + 4 <= BUF_LEN && c.decode(c.encode(x)) == Some(x)
  }

  ghost predicate AllFit<T>(c: Codec<T>, xs: seq<T>) {
    forall x <- xs :: Fits(c, x)
  }

  // ---------------------------------------------------------------- lengths, most significant byte first

  function ToBytes(n: nat, width: nat): (r: seq<Byte>)
    ensures |r| == width
  {
    if width == 0 then [] else ToBytes(n / 256, width - 1) + [n % 256]
  }

  function FromBytes(b: seq<Byte>): nat {
    if b == [] then 0 else FromBytes(b[..|b| - 1]) * 256 + b[|b| - 1]
  }

  function Power256(k: nat): nat {
    if k == 0 then 1 else 256 * Power256(k - 1)
  }

  lemma {:induction false} FromToBytes(n: nat, width: nat)
    requires n < Power256(width)
    ensures FromBytes(ToBytes(n, width)) == n
  {
    if width > 0 {
      FromToBytes(n / 256, width - 1);
      assert ToBytes(n, width)[..width - 1] == ToBytes(n / 256, width - 1);
    }
  }

  lemma {:induction false} ToFromBytes(b: seq<Byte>)
    ensures ToBytes(FromBytes(b), |b|) == b
  {
    if b != [] {
      var k := |b| - 1;
      ToFromBytes(b[..k]);
      assert FromBytes(b) / 256 == FromBytes(b[..k]);
      assert FromBytes(b) % 256 == b[k];
    }
  }

  lemma LengthRoundTrip(n: nat)
    requires n <= BUF_LEN
    ensures FromBytes(ToBytes(n, 4)) == n
  {
    assert Power256(2) == 65536;
    assert Power256(4) >= Power256(2);
    FromToBytes(n, 4);
  }

  // ---------------------------------------------------------------- writing

  function Frame(body: seq<Byte>): seq<Byte> {
    ToBytes(|body|, 4) + body
  }

  function EncodeRows<T>(c: Codec<T>, rows: seq<T>): seq<Byte> {
    if rows == [] then [] else Frame(c.encode(rows[0])) + EncodeRows(c, rows[1..])
  }

  // ---------------------------------------------------------------- reading

  /** What reading one frame leaves behind. */
  datatype Parsed =
    | NoLength                                      // the end came before or within the length
    | TooLong(rest: seq<Byte>)                      // the length is larger than the buffer
    | Cut                                           // the end came within the body
    | Whole(body: seq<Byte>, rest: seq<Byte>)

  function Parse(bytes: seq<Byte>): Parsed {
    if |bytes| < 4 then NoLength
    else
      var n := FromBytes(bytes[..4]);
      if n > BUF_LEN then TooLong(bytes[4..])
      else if |bytes| - 4 < n then Cut
      else Whole(bytes[4..4 + n], bytes[4 + n..])
  }

  function Rest(p: Parsed): seq<Byte> {
    match p
    case NoLength => []
    case TooLong(rest) => rest
    case Cut => []
    case Whole(_, rest) => rest
  }

  datatype Popped<T> = Next(row: T) | End | Failed

  /** A reader after its header: the bytes not yet read, and a row taken ahead of time. */
  datatype Reading<T> = Reading(rest: seq<Byte>, peek: Option<T>)

  /** What the next unread frame gives. */
  function TakeRow<T>(c: Codec<T>, bytes: seq<Byte>): Popped<T> {
    match Parse(bytes)
    case NoLength => End
    case TooLong(_) => Failed
    case Cut => Failed
    case Whole(body, _) =>
      var row := c.decode(body);
      if row.Some? then Next(row.value) else Failed
  }

  function Pop<T>(c: Codec<T>, r: Reading<T>): (Reading<T>, Popped<T>) {
    if r.peek.Some? then (r.(peek := None), Next(r.peek.value))
    else (r.(rest := Rest(Parse(r.rest))), TakeRow(c, r.rest))
  }

  /** The time of the next row, which is then kept for the next pop. */
  function PeekTs<T>(c: Codec<T>, ts: T -> nat, r: Reading<T>): (Reading<T>, Option<nat>) {
    if r.peek.Some? then (r, Some(ts(r.peek.value)))
    else
      var (r1, out) := Pop(c, r);
      if out.Next? then (r1.(peek := Some(out.row)), Some(ts(out.row))) else (r1, None)
  }
}
