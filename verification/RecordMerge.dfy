/**
 The merge loop of the composer (packages/media_record/src/convert/composer.rs:142-211): it takes
 the next row of the session on top of the heap, or takes the session off once it has none.

 What is done with a row is not part of this model; the rows are collected in the order in which
 they are processed, each with its session.
 */
module RecordMerge {
  import opened SessionHeap

  datatype Taken = Taken(id: nat, row: Row)

  predicate Sorted(rows: seq<Row>) {
    forall i, j :: 0 <= i < j < |rows| ==> rows[i].ts <= rows[j].ts
  }

  predicate SortedTaken(out: seq<Taken>) {
    forall i, j :: 0 <= i < j < |out| ==> out[i].row.ts <= out[j].row.ts
  }

  /** The rows taken from one session, in order. */
  function Project(out: seq<Taken>, id: nat): seq<Row> {
    if out == [] then []
    else
      var t := out[|out| - 1];
      Project(out[..|out| - 1], id) + (if t.id == id then [t.row] else [])
  }

  // ---------------------------------------------------------------- one step

  /** The session after its first row was taken. */
  function Advance(s: Session): Session
    requires s.rows != []
  {
    Session(s.id, s.rows[1..], if |s.rows| > 1 then s.rows[1].ts else s.rows[0].ts)
  }

  predicate Fronted(s: Session) {
    s.rows != [] ==> s.frontTs == s.rows[0].ts
  }

  function Ids(h: Heap): set<nat> {
    set s <- h :: s.id
  }

  /** No session is in the heap twice. */
  predicate Distinct(h: Heap) {
    |Ids(h)| == |h|
  }

  /** A session of the heap still has exactly the rows not yet taken from it. */
  predicate Tracks(input: seq<seq<Row>>, out: seq<Taken>, s: Session) {
    s.id < |input| && Fronted(s) && input[s.id] == Project(out, s.id) + s.rows
  }

  predicate AllTracked(input: seq<seq<Row>>, out: seq<Taken>, sessions: set<Session>) {
    forall s <- sessions :: Tracks(input, out, s)
  }

  /** Whatever is not in the heap has been taken completely. */
  predicate RestDone(input: seq<seq<Row>>, out: seq<Taken>, ids: set<nat>) {
    forall j: nat :: j < |input| && j !in ids ==> Project(out, j) == input[j]
  }

  predicate KnownIds(input: seq<seq<Row>>, out: seq<Taken>) {
    forall t <- out :: t.id < |input|
  }

  /** Nothing in the heap comes before what was taken last. */
  predicate Ahead(out: seq<Taken>, sessions: set<Session>) {
    out != [] ==> forall s <- sessions :: out[|out| - 1].row.ts <= s.frontTs
  }

  predicate Good(input: seq<seq<Row>>, h: Heap, out: seq<Taken>) {
    && IsHeap(h) && Distinct(h)
    && AllTracked(input, out, Elements(h))
    && RestDone(input, out, Ids(h))
    && KnownIds(input, out)
  }

  lemma IdsOfElements(h: Heap)
    ensures Ids(h) == set s <- Elements(h) :: s.id
  {
  }

  lemma IdsSize(h: Heap)
    ensures |Ids(h)| <= |h|
  {
    if h != [] {
      assert h == [h[0]] + h[1..];
      assert Ids(h) == {h[0].id} + Ids(h[1..]);
      IdsSize(h[1..]);
    }
  }

  /** The other sessions have other ids. */
  lemma TopApart(h: Heap)
    requires Distinct(h) && h != []
    ensures h[0].id !in Ids(h[1..]) && Distinct(h[1..]) && Ids(h) == Ids(h[1..]) + {h[0].id}
  {
    assert h == [h[0]] + h[1..];
    assert Ids(h) == {h[0].id} + Ids(h[1..]);
    IdsSize(h[1..]);
  }

  lemma ProjectTake(out: seq<Taken>, t: Taken, id: nat)
    ensures Project(out + [t], id) == Project(out, id) + (if t.id == id then [t.row] else [])
  {
    assert (out + [t])[..|out|] == out;
  }

  /** Taking a row keeps the bookkeeping of the session it came from and of every other one. */
  lemma TakeTracks(input: seq<seq<Row>>, out: seq<Taken>, s: Session)
    requires Tracks(input, out, s) && s.rows != []
    ensures Tracks(input, out + [Taken(s.id, s.rows[0])], Advance(s))
  {
    ProjectTake(out, Taken(s.id, s.rows[0]), s.id);
    assert s.rows == [s.rows[0]] + s.rows[1..];
  }

  lemma TakeOthers(input: seq<seq<Row>>, out: seq<Taken>, t: Taken, h: Heap)
    requires AllTracked(input, out, Elements(h)) && t.id !in Ids(h)
    ensures AllTracked(input, out + [t], Elements(h))
  {
    forall s | s in Elements(h)
      ensures Tracks(input, out + [t], s)
    {
      ProjectTake(out, t, s.id);
      assert s.id in Ids(h);
    }
  }

  lemma TakeDone(input: seq<seq<Row>>, out: seq<Taken>, t: Taken, ids: set<nat>)
    requires RestDone(input, out, ids) && t.id in ids
    ensures RestDone(input, out + [t], ids)
  {
    forall j: nat | j < |input| && j !in ids
      ensures Project(out + [t], j) == input[j]
    {
      ProjectTake(out, t, j);
    }
  }

  function AfterTake(h: Heap): Heap
    requires h != [] && h[0].rows != []
  {
    SiftDown(h[0 := Advance(h[0])], 0)
  }

  lemma TakeGood(input: seq<seq<Row>>, h: Heap, out: seq<Taken>)
    requires Good(input, h, out) && h != [] && h[0].rows != []
    ensures Good(input, AfterTake(h), out + [Taken(h[0].id, h[0].rows[0])])
  {
    var t, s := Taken(h[0].id, h[0].rows[0]), h[0];
    var h' := AfterTake(h);
    ReplaceTopIsHeap(h, Advance(s));
    TopApart(h);
    IdsOfElements(h');
    IdsOfElements(h[1..]);
    assert Ids(h') == Ids(h);
    assert s in Elements(h);
    TakeTracks(input, out, s);
    assert AllTracked(input, out, Elements(h[1..]));
    TakeOthers(input, out, t, h[1..]);
    TakeDone(input, out, t, Ids(h));
  }

  lemma DropGood(input: seq<seq<Row>>, h: Heap, out: seq<Taken>)
    requires Good(input, h, out) && h != [] && h[0].rows == []
    ensures Good(input, PopHeap(h), out)
  {
    var h' := PopHeap(h);
    PopIsHeap(h);
    TopApart(h);
    IdsOfElements(h');
    IdsOfElements(h[1..]);
    assert h[0] in Elements(h);
    assert Tracks(input, out, h[0]);
    assert Project(out, h[0].id) == input[h[0].id];
  }

  // ---------------------------------------------------------------- order

  lemma TakeAhead(input: seq<seq<Row>>, h: Heap, out: seq<Taken>)
    requires Good(input, h, out) && h != [] && h[0].rows != []
    requires AllSorted(input) && SortedTaken(out) && Ahead(out, Elements(h))
    ensures var t := Taken(h[0].id, h[0].rows[0]);
      SortedTaken(out + [t]) && Ahead(out + [t], Elements(AfterTake(h)))
  {
    var s := h[0];
    assert s in Elements(h) && Tracks(input, out, s);
    NextLater(input, out, s);
    ReplaceTopIsHeap(h, Advance(s));
    forall x | x in Elements(h[1..])
      ensures s.rows[0].ts <= x.frontTs
    {
      var k :| 0 <= k < |h[1..]| && h[1..][k] == x;
      TopIsLeast(h, k + 1);
    }
  }

  lemma NextLater(input: seq<seq<Row>>, out: seq<Taken>, s: Session)
    requires Tracks(input, out, s) && s.rows != [] && Sorted(input[s.id])
    ensures s.rows[0].ts <= Advance(s).frontTs
  {
    var n := |Project(out, s.id)|;
    assert input[s.id][n] == s.rows[0];
    if |s.rows| > 1 { assert input[s.id][n + 1] == s.rows[1]; }
  }

  /** Each row taken from a session has a place in the output, and the places are in order. */
  lemma {:induction false} ProjectPlaces(out: seq<Taken>, id: nat, k: nat) returns (i: nat)
    requires k < |Project(out, id)|
    ensures i < |out| && out[i] == Taken(id, Project(out, id)[k]) && Project(out[..i], id) == Project(out, id)[..k]
  {
    var n := |out| - 1;
    if k < |Project(out[..n], id)| {
      i := ProjectPlaces(out[..n], id, k);
      assert out[..n][..i] == out[..i];
    } else {
      i := n;
    }
  }

  lemma {:induction false} ProjectGrows(out: seq<Taken>, id: nat, i: nat)
    requires i <= |out|
    ensures |Project(out[..i], id)| <= |Project(out, id)|
  {
    if i < |out| {
      assert out[..|out| - 1][..i] == out[..i];
      ProjectGrows(out[..|out| - 1], id, i);
    } else {
      assert out[..i] == out;
    }
  }

  lemma ProjectGrowsTo(out: seq<Taken>, id: nat, j: nat, i: nat)
    requires j <= i <= |out|
    ensures |Project(out[..j], id)| <= |Project(out[..i], id)|
  {
    ProjectGrows(out[..i], id, j);
    assert out[..i][..j] == out[..j];
  }

  lemma ProjectSorted(out: seq<Taken>, id: nat)
    requires SortedTaken(out)
    ensures Sorted(Project(out, id))
  {
    var p := Project(out, id);
    forall a, b | 0 <= a < b < |p|
      ensures p[a].ts <= p[b].ts
    {
      var i := ProjectPlaces(out, id, a);
      var j := ProjectPlaces(out, id, b);
      if j < i {
        ProjectGrowsTo(out, id, j, i);
        assert false;
      }
    }
  }

  // ---------------------------------------------------------------- counting

  function Total(input: seq<seq<Row>>): nat {
    if input == [] then 0 else Total(input[..|input| - 1]) + |input[|input| - 1]|
  }

  function CountUpTo(out: seq<Taken>, n: nat): nat {
    if n == 0 then 0 else CountUpTo(out, n - 1) + |Project(out, n - 1)|
  }

  lemma {:induction false} CountTake(out: seq<Taken>, t: Taken, n: nat)
    ensures CountUpTo(out + [t], n) == CountUpTo(out, n) + (if t.id < n then 1 else 0)
  {
    if n > 0 {
      CountTake(out, t, n - 1);
      ProjectTake(out, t, n - 1);
    }
  }

  lemma {:induction false} CountNone(n: nat)
    ensures CountUpTo([], n) == 0
  {
    if n > 0 { CountNone(n - 1); }
  }

  lemma {:induction false} CountAll(input: seq<seq<Row>>, out: seq<Taken>)
    requires KnownIds(input, out)
    ensures CountUpTo(out, |input|) == |out|
  {
    if out == [] {
      CountNone(|input|);
    } else {
      var n := |out| - 1;
      assert out == out[..n] + [out[n]];
      CountAll(input, out[..n]);
      CountTake(out[..n], out[n], |input|);
    }
  }

  lemma {:induction false} CountBounded(input: seq<seq<Row>>, out: seq<Taken>, n: nat)
    requires n <= |input| && forall j: nat :: j < n ==> |Project(out, j)| <= |input[j]|
    ensures CountUpTo(out, n) <= Total(input[..n])
  {
    if n > 0 {
      assert input[..n][..n - 1] == input[..n - 1];
      CountBounded(input, out, n - 1);
    }
  }

  /** No more rows are taken than there are. */
  lemma TakenBounded(input: seq<seq<Row>>, h: Heap, out: seq<Taken>)
    requires Good(input, h, out)
    ensures |out| <= Total(input)
  {
    forall j: nat | j < |input|
      ensures |Project(out, j)| <= |input[j]|
    {
      if j in Ids(h) {
        var s :| s in h && s.id == j;
        assert s in Elements(h) && Tracks(input, out, s);
      }
    }
    CountAll(input, out);
    CountBounded(input, out, |input|);
    assert input[..|input|] == input;
  }

  // ---------------------------------------------------------------- the loop

  /** Which sessions enter the heap: those that have a row. */
  predicate Loaded(input: seq<seq<Row>>, h: Heap, n: nat)
    requires n <= |input|
  {
    && IsHeap(h) && Distinct(h)
    && (forall s <- Elements(h) :: s.id < n && Fronted(s) && s.rows == input[s.id])
    && (forall j: nat :: j < n && j !in Ids(h) ==> input[j] == [])
  }

  lemma LoadNext(input: seq<seq<Row>>, h: Heap, n: nat)
    requires n < |input| && Loaded(input, h, n) && input[n] != []
    ensures Loaded(input, PushHeap(h, Session(n, input[n], input[n][0].ts)), n + 1)
  {
    var s := Session(n, input[n], input[n][0].ts);
    var h' := PushHeap(h, s);
    PushIsHeap(h, s);
    IdsOfElements(h);
    IdsOfElements(h');
    assert Ids(h') == Ids(h) + {n};
    assert n !in Ids(h);
  }

  lemma LoadedGood(input: seq<seq<Row>>, h: Heap)
    requires Loaded(input, h, |input|)
    ensures Good(input, h, [])
  {
    forall s | s in Elements(h)
      ensures Tracks(input, [], s)
    {
      assert Project([], s.id) + s.rows == s.rows;
    }
  }

  method Load(input: seq<seq<Row>>) returns (h: Heap)
    ensures Loaded(input, h, |input|)
  {
    h := [];
    for n := 0 to |input|
      invariant Loaded(input, h, n)
    {
      if input[n] != [] {
        LoadNext(input, h, n);
        h := PushHeap(h, Session(n, input[n], input[n][0].ts));
      }
    }
  }

  predicate AllSorted(input: seq<seq<Row>>) {
    forall j: nat :: j < |input| ==> Sorted(input[j])
  }

  /** What the loop keeps. */
  predicate Merging(input: seq<seq<Row>>, h: Heap, out: seq<Taken>) {
    && Good(input, h, out) && |out| <= Total(input)
    && (AllSorted(input) ==> SortedTaken(out) && Ahead(out, Elements(h)))
  }

  lemma StartMerging(input: seq<seq<Row>>, h: Heap)
    requires Loaded(input, h, |input|)
    ensures Merging(input, h, [])
  {
    LoadedGood(input, h);
    TakenBounded(input, h, []);
  }

  lemma TakeMerging(input: seq<seq<Row>>, h: Heap, out: seq<Taken>)
    requires Merging(input, h, out) && h != [] && h[0].rows != []
    ensures Merging(input, AfterTake(h), out + [Taken(h[0].id, h[0].rows[0])])
  {
    TakeGood(input, h, out);
    TakenBounded(input, AfterTake(h), out + [Taken(h[0].id, h[0].rows[0])]);
    if AllSorted(input) { TakeAhead(input, h, out); }
  }

  lemma DropMerging(input: seq<seq<Row>>, h: Heap, out: seq<Taken>)
    requires Merging(input, h, out) && h != [] && h[0].rows == []
    ensures Merging(input, PopHeap(h), out) && |PopHeap(h)| < |h|
  {
    DropGood(input, h, out);
    PopIsHeap(h);
  }

  lemma Merged(input: seq<seq<Row>>, out: seq<Taken>)
    requires Merging(input, [], out)
    ensures AllOnce(input, out) && |out| == Total(input)
    ensures SortedTaken(out) <==> AllSorted(input)
  {
    AllTaken(input, out);
    if SortedTaken(out) {
      forall j: nat | j < |input|
        ensures Sorted(input[j])
      {
        ProjectSorted(out, j);
        assert Project(out, j) == input[j];
      }
    }
  }

  /** Every row of every session, once and in the session's order. */
  predicate AllOnce(input: seq<seq<Row>>, out: seq<Taken>) {
    KnownIds(input, out) && forall j: nat :: j < |input| ==> Project(out, j) == input[j]
  }

  /**
   Every row of every session is processed exactly once, in its session's order; and the whole is
   in the order of time if and only if every session is.
   */
  method Compose(input: seq<seq<Row>>) returns (out: seq<Taken>)
    ensures AllOnce(input, out) && |out| == Total(input)
    ensures SortedTaken(out) <==> AllSorted(input)
  {
    var h := Load(input);
    StartMerging(input, h);
    out := [];
    while h != []
      invariant Merging(input, h, out)
      decreases Total(input) - |out|, |h|
    {
      var top := h[0];
      if top.rows != [] {
        TakeMerging(input, h, out);
        h := SiftDown(h[0 := Advance(top)], 0);
        out := out + [Taken(top.id, top.rows[0])];
      } else {
        SiftDownStays(h);
        h := SiftDown(h, 0);
        DropMerging(input, h, out);
        h := PopHeap(h);
      }
    }
    Merged(input, out);
  }

  lemma {:induction false} CountSame(input: seq<seq<Row>>, out: seq<Taken>, n: nat)
    requires n <= |input| && forall j: nat :: j < n ==> Project(out, j) == input[j]
    ensures CountUpTo(out, n) == Total(input[..n])
  {
    if n > 0 {
      assert input[..n][..n - 1] == input[..n - 1];
      CountSame(input, out, n - 1);
    }
  }

  lemma AllTaken(input: seq<seq<Row>>, out: seq<Taken>)
    requires Good(input, [], out)
    ensures forall j: nat :: j < |input| ==> Project(out, j) == input[j]
    ensures |out| == Total(input)
  {
    assert Ids([]) == {};
    CountAll(input, out);
    CountSame(input, out, |input|);
    assert input[..|input|] == input;
  }
}
