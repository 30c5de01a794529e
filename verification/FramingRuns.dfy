/**
 What a reader gets from a recorded chunk: everything that was written, in any interleaving of
 peeks and pops; and, from a file that was cut short anywhere, exactly the rows that are complete.
 */
module FramingRuns {
  import opened Options
  import opened MemoryFiles
  import opened Framing

  // ---------------------------------------------------------------- one frame

  lemma ParseFrame(body: seq<Byte>, rest: seq<Byte>)
    requires |body| <= BUF_LEN
    ensures Parse(Frame(body) + rest) == Whole(body, rest)
  {
    var bytes := Frame(body) + rest;
    assert bytes[..4] == ToBytes(|body|, 4);
    LengthRoundTrip(|body|);
    assert bytes[4..4 + |body|] == body;
    assert bytes[4 + |body|..] == rest;
  }

  /** The first frame of a chunk gives back its header, and leaves the rows. */
  lemma HeaderFirst<H, R>(headers: Codec<H>, codec: Codec<R>, header: H, rows: seq<R>)
    requires Fits(headers, header)
    ensures var bytes := Frame(headers.encode(header)) + EncodeRows(codec, rows);
            TakeRow(headers, bytes) == Next(header) && Rest(Parse(bytes)) == EncodeRows(codec, rows)
  {
    ParseFrame(headers.encode(header), EncodeRows(codec, rows));
  }

  // ---------------------------------------------------------------- round trip under peeks and pops

  datatype Ask = AskPop | AskPeek
  datatype Answer<T> = GotRow(row: Popped<T>) | GotTs(ts: Option<nat>)

  /** The answers of the reader. */
  function Answers<T>(c: Codec<T>, ts: T -> nat, r: Reading<T>, asks: seq<Ask>): seq<Answer<T>>
    decreases |asks|
  {
    if asks == [] then []
    else if asks[0].AskPop? then
      var (r1, out) := Pop(c, r);
      [GotRow(out)] + Answers(c, ts, r1, asks[1..])
    else
      var (r1, out) := PeekTs(c, ts, r);
      [GotTs(out)] + Answers(c, ts, r1, asks[1..])
  }

  /** The answers of a plain cursor over the rows: a pop moves on, a peek does not. */
  function CursorAnswers<T>(ts: T -> nat, rows: seq<T>, asks: seq<Ask>): seq<Answer<T>> {
    if asks == [] then []
    else if asks[0].AskPop? then
      if rows == [] then [GotRow(End)] + CursorAnswers(ts, rows, asks[1..])
      else [GotRow(Next(rows[0]))] + CursorAnswers(ts, rows[1..], asks[1..])
    else [GotTs(if rows == [] then None else Some(ts(rows[0])))] + CursorAnswers(ts, rows, asks[1..])
  }

  /** The reader stands before `rows`, the first of which it may have taken already. */
  ghost predicate Before<T>(c: Codec<T>, r: Reading<T>, rows: seq<T>) {
    match r.peek
    case None => r.rest == EncodeRows(c, rows)
    case Some(row) => rows != [] && row == rows[0] && r.rest == EncodeRows(c, rows[1..])
  }

  lemma FirstRow<T>(c: Codec<T>, rows: seq<T>)
    requires AllFit(c, rows)
    ensures rows == [] ==> TakeRow(c, EncodeRows(c, rows)) == End && Rest(Parse(EncodeRows(c, rows))) == []
    ensures rows != [] ==> TakeRow(c, EncodeRows(c, rows)) == Next(rows[0])
    ensures rows != [] ==> Rest(Parse(EncodeRows(c, rows))) == EncodeRows(c, rows[1..])
  {
    if rows != [] {
      assert Fits(c, rows[0]);
      ParseFrame(c.encode(rows[0]), EncodeRows(c, rows[1..]));
    }
  }

  lemma {:induction false} ReaderIsCursor<T>(c: Codec<T>, ts: T -> nat, r: Reading<T>, rows: seq<T>, asks: seq<Ask>)
    requires AllFit(c, rows) && Before(c, r, rows)
    ensures Answers(c, ts, r, asks) == CursorAnswers(ts, rows, asks)
    decreases |asks|
  {
    if asks != [] {
      FirstRow(c, rows);
      if asks[0].AskPop? {
        ReaderIsCursor(c, ts, Pop(c, r).0, if rows == [] then [] else rows[1..], asks[1..]);
      } else {
        ReaderIsCursor(c, ts, PeekTs(c, ts, r).0, rows, asks[1..]);
      }
    }
  }

  /** Round trip: a reader behind the header answers like a cursor over the rows that were written. */
  lemma ReadsBack<T>(c: Codec<T>, ts: T -> nat, rows: seq<T>, asks: seq<Ask>)
    requires AllFit(c, rows)
    ensures Answers(c, ts, Reading(EncodeRows(c, rows), None), asks) == CursorAnswers(ts, rows, asks)
  {
    ReaderIsCursor(c, ts, Reading(EncodeRows(c, rows), None), rows, asks);
  }

  // ---------------------------------------------------------------- files cut short

  /** Pop until there is no row: the rows, and whether it ended or failed. */
  function Drain<T>(c: Codec<T>, bytes: seq<Byte>): (seq<T>, Popped<T>)
    decreases |bytes|
  {
    var out := TakeRow(c, bytes);
    if !out.Next? then ([], out)
    else
      var (rows, last) := Drain(c, Rest(Parse(bytes)));
      ([out.row] + rows, last)
  }

  lemma {:induction false} EncodeSplit<T>(c: Codec<T>, rows: seq<T>, more: seq<T>)
    ensures EncodeRows(c, rows + more) == EncodeRows(c, rows) + EncodeRows(c, more)
  {
    if rows == [] {
      assert rows + more == more;
    } else {
      assert (rows + more)[1..] == rows[1..] + more;
      EncodeSplit(c, rows[1..], more);
    }
  }

  lemma DrainOne<T>(c: Codec<T>, x: T, tail: seq<Byte>, rows: seq<T>, last: Popped<T>)
    requires Fits(c, x) && Drain(c, tail) == (rows, last)
    ensures Drain(c, Frame(c.encode(x)) + tail) == ([x] + rows, last)
  {
    ParseFrame(c.encode(x), tail);
  }

  /** Whole frames are read before whatever follows them. */
  lemma {:induction false} DrainFrames<T>(c: Codec<T>, rows: seq<T>, rest: seq<Byte>, left: seq<T>, last: Popped<T>)
    requires AllFit(c, rows) && Drain(c, rest) == (left, last)
    ensures Drain(c, EncodeRows(c, rows) + rest) == (rows + left, last)
  {
    if rows == [] {
      NoFrames(c, rows, rest, left);
    } else {
      DrainFrames(c, rows[1..], rest, left, last);
      assert Fits(c, rows[0]);
      DrainCons(c, rows, rest, left, last);
    }
  }

  lemma NoFrames<T>(c: Codec<T>, rows: seq<T>, rest: seq<Byte>, left: seq<T>)
    requires rows == []
    ensures EncodeRows(c, rows) + rest == rest && rows + left == left
  {
  }

  lemma DrainCons<T>(c: Codec<T>, rows: seq<T>, rest: seq<Byte>, left: seq<T>, last: Popped<T>)
    requires rows != [] && Fits(c, rows[0])
    requires Drain(c, EncodeRows(c, rows[1..]) + rest) == (rows[1..] + left, last)
    ensures Drain(c, EncodeRows(c, rows) + rest) == (rows + left, last)
  {
    DrainOne(c, rows[0], EncodeRows(c, rows[1..]) + rest, rows[1..] + left, last);
    EncodeFirst(c, rows, rest);
    Cons(rows, left);
  }

  lemma Cons<T>(s: seq<T>, t: seq<T>)
    requires s != []
    ensures [s[0]] + (s[1..] + t) == s + t
  {
  }

  lemma EncodeFirst<T>(c: Codec<T>, rows: seq<T>, rest: seq<Byte>)
    requires rows != []
    ensures EncodeRows(c, rows) + rest == Frame(c.encode(rows[0])) + (EncodeRows(c, rows[1..]) + rest)
  {
  }

  /** A frame cut within its length reads as the end, cut within its body as a failure. */
  lemma CutFrame<T>(c: Codec<T>, body: seq<Byte>, t: nat)
    requires |body| <= BUF_LEN && t < |Frame(body)|
    ensures Drain(c, Frame(body)[..t]) == ([], if t < 4 then End else Failed)
  {
    if t >= 4 {
      assert Frame(body)[..t][..4] == ToBytes(|body|, 4);
      LengthRoundTrip(|body|);
    }
  }

  /**
   A chunk cut after any `t` bytes: with `k` the number of frames that are complete, exactly the
   first `k` rows are read.  What follows reads as the end of the file if fewer than four bytes of
   the next frame are left, and as a failure otherwise.
   */
  lemma CutReadsCompleteRows<T>(c: Codec<T>, rows: seq<T>, t: nat, k: nat)
    requires AllFit(c, rows) && t <= |EncodeRows(c, rows)|
    requires k <= |rows| && |EncodeRows(c, rows[..k])| <= t
    requires k < |rows| ==> t < |EncodeRows(c, rows[..k + 1])|
    ensures Drain(c, EncodeRows(c, rows)[..t]) == (rows[..k], if t < |EncodeRows(c, rows[..k])| + 4 then End else Failed)
  {
    var n := CutAt(c, rows, t, k);
    var left := EncodeRows(c, rows[k..])[..n];
    if k < |rows| {
      NextFrameLength(c, rows, k);
      assert Fits(c, rows[k]);
      CutFirst(c, rows[k..], n);
    } else {
      assert left == [];
    }
    DrainFrames(c, rows[..k], left, [], if n < 4 then End else Failed);
    assert rows[..k] + [] == rows[..k];
  }

  /** Where the cut falls within the frames from the `k`-th on. */
  lemma CutAt<T>(c: Codec<T>, rows: seq<T>, t: nat, k: nat) returns (n: nat)
    requires t <= |EncodeRows(c, rows)| && k <= |rows| && |EncodeRows(c, rows[..k])| <= t
    ensures n == t - |EncodeRows(c, rows[..k])| && n <= |EncodeRows(c, rows[k..])|
    ensures EncodeRows(c, rows)[..t] == EncodeRows(c, rows[..k]) + EncodeRows(c, rows[k..])[..n]
  {
    n := t - |EncodeRows(c, rows[..k])|;
    assert rows == rows[..k] + rows[k..];
    EncodeSplit(c, rows[..k], rows[k..]);
  }

  lemma CutFirst<T>(c: Codec<T>, rows: seq<T>, n: nat)
    requires rows != [] && Fits(c, rows[0]) && n < |Frame(c.encode(rows[0]))|
    ensures n <= |EncodeRows(c, rows)| && Drain(c, EncodeRows(c, rows)[..n]) == ([], if n < 4 then End else Failed)
  {
    var f := Frame(c.encode(rows[0]));
    assert EncodeRows(c, rows)[..n] == f[..n];
    CutFrame(c, c.encode(rows[0]), n);
  }

  lemma NextFrameLength<T>(c: Codec<T>, rows: seq<T>, k: nat)
    requires k < |rows|
    ensures |EncodeRows(c, rows[..k + 1])| == |EncodeRows(c, rows[..k])| + |Frame(c.encode(rows[k]))|
  {
    var one := [rows[k]];
    assert rows[..k + 1] == rows[..k] + one;
    EncodeSplit(c, rows[..k], one);
    assert one[1..] == [];
    assert EncodeRows(c, one[1..]) == [];
  }

  // ---------------------------------------------------------------- which byte strings read cleanly

  /** The bodies of the whole frames at the front of a byte string. */
  function Bodies(bytes: seq<Byte>): seq<seq<Byte>>
    decreases |bytes|
  {
    match Parse(bytes)
    case Whole(body, rest) => [body] + Bodies(rest)
    case _ => []
  }

  function Frames(bodies: seq<seq<Byte>>): seq<Byte> {
    if bodies == [] then [] else Frame(bodies[0]) + Frames(bodies[1..])
  }

  function Decoded<T>(c: Codec<T>, bodies: seq<seq<Byte>>): Option<seq<T>> {
    if bodies == [] then Some([])
    else
      var row, more := c.decode(bodies[0]), Decoded(c, bodies[1..]);
      if row.Some? && more.Some? then Some([row.value] + more.value) else None
  }

  /** The byte string is made of frames, with at most three bytes behind them. */
  predicate WholeFrames(bytes: seq<Byte>) {
    Frames(Bodies(bytes)) <= bytes && |bytes| < |Frames(Bodies(bytes))| + 4
  }

  lemma FrameOf(bytes: seq<Byte>)
    requires Parse(bytes).Whole?
    ensures bytes == Frame(Parse(bytes).body) + Parse(bytes).rest && |Parse(bytes).body| <= BUF_LEN
  {
    var p := Parse(bytes);
    ToFromBytes(bytes[..4]);
    assert bytes[..4 + |p.body|] == Frame(p.body);
  }

  lemma PrefixBehind(f: seq<Byte>, a: seq<Byte>, b: seq<Byte>)
    ensures f + a <= f + b <==> a <= b
  {
    if f + a <= f + b {
      assert a == (f + a)[|f|..];
      assert b[..|a|] == (f + b)[|f|..|f| + |a|];
    }
  }

  lemma FramesCons(body: seq<Byte>, more: seq<seq<Byte>>)
    ensures Frames([body] + more) == Frame(body) + Frames(more)
  {
    assert ([body] + more)[1..] == more;
  }

  lemma BodiesOf(bytes: seq<Byte>)
    requires Parse(bytes).Whole?
    ensures var p := Parse(bytes);
      Bodies(bytes) == [p.body] + Bodies(p.rest) && (WholeFrames(bytes) <==> WholeFrames(p.rest))
  {
    var p := Parse(bytes);
    FrameOf(bytes);
    FramesCons(p.body, Bodies(p.rest));
    PrefixBehind(Frame(p.body), Frames(Bodies(p.rest)), p.rest);
  }

  lemma DecodedCons<T>(c: Codec<T>, body: seq<Byte>, more: seq<seq<Byte>>)
    ensures Decoded(c, [body] + more)
         == if c.decode(body).Some? && Decoded(c, more).Some? then Some([c.decode(body).value] + Decoded(c, more).value) else None
  {
    assert ([body] + more)[1..] == more;
  }

  lemma NoBodies(bytes: seq<Byte>)
    requires !Parse(bytes).Whole?
    ensures Bodies(bytes) == [] && (WholeFrames(bytes) <==> Parse(bytes).NoLength?)
  {
  }

  /**
   For every codec: a byte string is read to its end without a failure if and only if it is made of
   whole frames whose bodies all decode, with at most three bytes behind them; and the rows read are
   what the bodies decode to.
   */
  lemma {:induction false} CleanReadIff<T>(c: Codec<T>, bytes: seq<Byte>)
    ensures Drain(c, bytes).1 == End <==> WholeFrames(bytes) && Decoded(c, Bodies(bytes)).Some?
    ensures Drain(c, bytes).1 == End ==> Decoded(c, Bodies(bytes)) == Some(Drain(c, bytes).0)
    decreases |bytes|
  {
    var p := Parse(bytes);
    if p.Whole? {
      CleanReadIff(c, p.rest);
      BodiesOf(bytes);
      DecodedCons(c, p.body, Bodies(p.rest));
    } else {
      NoBodies(bytes);
    }
  }

  /** Each body is the encoding of its row. */
  ghost predicate Encodes<T>(c: Codec<T>, bodies: seq<seq<Byte>>, rows: seq<T>) {
    |bodies| == |rows| && forall i :: 0 <= i < |rows| ==> bodies[i] == c.encode(rows[i])
  }

  lemma {:induction false} FramesAreRows<T>(c: Codec<T>, bodies: seq<seq<Byte>>, rows: seq<T>)
    requires Encodes(c, bodies, rows)
    ensures Frames(bodies) == EncodeRows(c, rows)
  {
    if rows != [] {
      FramesAreRows(c, bodies[1..], rows[1..]);
    }
  }

  /** Frames that begin alike are alike. */
  lemma SameFirst(a: seq<Byte>, more: seq<Byte>, b: seq<Byte>, other: seq<Byte>)
    requires |a| <= BUF_LEN && |b| <= BUF_LEN && Frame(a) + more == Frame(b) + other
    ensures a == b && more == other
  {
    ParseFrame(a, more);
    ParseFrame(b, other);
  }

  predicate AllShort(bodies: seq<seq<Byte>>) {
    forall b <- bodies :: |b| <= BUF_LEN
  }

  lemma {:induction false} RowsAreFrames<T>(c: Codec<T>, bodies: seq<seq<Byte>>, rows: seq<T>, tail: seq<Byte>, other: seq<Byte>)
    requires |bodies| == |rows| && AllShort(bodies) && forall x <- rows :: |c.encode(x)| <= BUF_LEN
    requires Frames(bodies) + tail == EncodeRows(c, rows) + other
    ensures Encodes(c, bodies, rows)
  {
    if rows != [] {
      FirstIsFrame(c, bodies, rows, tail, other);
      RowsAreFrames(c, bodies[1..], rows[1..], tail, other);
      EncodesCons(c, bodies, rows);
    }
  }

  lemma FramesFirst(bodies: seq<seq<Byte>>, tail: seq<Byte>)
    requires bodies != []
    ensures Frames(bodies) + tail == Frame(bodies[0]) + (Frames(bodies[1..]) + tail)
  {
  }

  lemma FirstIsFrame<T>(c: Codec<T>, bodies: seq<seq<Byte>>, rows: seq<T>, tail: seq<Byte>, other: seq<Byte>)
    requires rows != [] && bodies != [] && |bodies[0]| <= BUF_LEN && |c.encode(rows[0])| <= BUF_LEN
    requires Frames(bodies) + tail == EncodeRows(c, rows) + other
    ensures bodies[0] == c.encode(rows[0]) && Frames(bodies[1..]) + tail == EncodeRows(c, rows[1..]) + other
  {
    var a, b := bodies[0], c.encode(rows[0]);
    FramesFirst(bodies, tail);
    EncodeFirst(c, rows, other);
    SameFirst(a, Frames(bodies[1..]) + tail, b, EncodeRows(c, rows[1..]) + other);
  }

  lemma EncodesCons<T>(c: Codec<T>, bodies: seq<seq<Byte>>, rows: seq<T>)
    requires rows != [] && bodies != [] && bodies[0] == c.encode(rows[0]) && Encodes(c, bodies[1..], rows[1..])
    ensures Encodes(c, bodies, rows)
  {
    forall i | 0 <= i < |rows|
      ensures bodies[i] == c.encode(rows[i])
    {
      if i > 0 { assert bodies[1..][i - 1] == c.encode(rows[1..][i - 1]); }
    }
  }

  lemma {:induction false} BodiesShort(bytes: seq<Byte>)
    ensures AllShort(Bodies(bytes))
    decreases |bytes|
  {
    if Parse(bytes).Whole? {
      BodiesShort(Parse(bytes).rest);
    }
  }

  lemma {:induction false} DecodedLength<T>(c: Codec<T>, bodies: seq<seq<Byte>>)
    requires Decoded(c, bodies).Some?
    ensures |Decoded(c, bodies).value| == |bodies|
  {
    if bodies != [] { DecodedLength(c, bodies[1..]); }
  }

  /**
   What was read without a failure is what a writer would have written for the rows it gave, up to
   three stray bytes, if and only if each body is the encoding of its row.
   */
  lemma CleanReadIsEncodingIff<T>(c: Codec<T>, bytes: seq<Byte>)
    requires Drain(c, bytes).1 == End && forall x <- Drain(c, bytes).0 :: |c.encode(x)| <= BUF_LEN
    ensures var rows := Drain(c, bytes).0;
      EncodeRows(c, rows) <= bytes && |bytes| < |EncodeRows(c, rows)| + 4 <==> Encodes(c, Bodies(bytes), rows)
  {
    var rows, bodies := Drain(c, bytes).0, Bodies(bytes);
    CleanReadIff(c, bytes);
    DecodedLength(c, bodies);
    BodiesShort(bytes);
    EncodingIff(c, bytes, bodies, rows);
  }

  lemma EncodingIff<T>(c: Codec<T>, bytes: seq<Byte>, bodies: seq<seq<Byte>>, rows: seq<T>)
    requires Frames(bodies) <= bytes && |bytes| < |Frames(bodies)| + 4
    requires |bodies| == |rows| && AllShort(bodies) && forall x <- rows :: |c.encode(x)| <= BUF_LEN
    ensures EncodeRows(c, rows) <= bytes && |bytes| < |EncodeRows(c, rows)| + 4 <==> Encodes(c, bodies, rows)
  {
    if Encodes(c, bodies, rows) {
      FramesAreRows(c, bodies, rows);
    }
    if EncodeRows(c, rows) <= bytes {
      var f, e := Frames(bodies), EncodeRows(c, rows);
      assert f + bytes[|f|..] == bytes == e + bytes[|e|..];
      RowsAreFrames(c, bodies, rows, bytes[|f|..], bytes[|e|..]);
    }
  }

  /** A decoder that ignores what follows the value, as the serialiser of the recorder does. */
  function Lenient(): Codec<Byte> {
    Codec((b: Byte) => [b], (s: seq<Byte>) => if s == [] then None else Some(s[0]))
  }

  /** With such a decoder a frame with a byte behind its row reads cleanly, and is not what a writer writes. */
  lemma TrailingByteRead(bytes: seq<Byte>, rows: seq<Byte>)
    requires bytes == Frame([7, 9]) && rows == [7]
    ensures forall b :: Fits(Lenient(), b)
    ensures Drain(Lenient(), bytes) == (rows, End) && !(EncodeRows(Lenient(), rows) <= bytes)
  {
    var c := Lenient();
    var body: seq<Byte> := [7, 9];
    ParseFrame(body, []);
    assert bytes + [] == bytes;
    assert c.decode(body) == Some(body[0]);
    assert TakeRow(c, bytes) == Next(7) && Rest(Parse(bytes)) == [];
    assert Drain(c, []) == ([], End);
    assert [7] + [] == rows;
    LenientFrame(rows);
    LengthRoundTrip(1);
    LengthRoundTrip(2);
    var one: seq<Byte> := [7];
    assert Frame(one)[..4] == ToBytes(1, 4) && bytes[..4] == ToBytes(2, 4);
  }

  lemma LenientFrame(rows: seq<Byte>)
    requires rows == [7]
    ensures EncodeRows(Lenient(), rows) == Frame([7])
  {
    assert rows[1..] == [];
    assert EncodeRows(Lenient(), rows[1..]) == [];
    assert Lenient().encode(7) == [7];
  }
}
