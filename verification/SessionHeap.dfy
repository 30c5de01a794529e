/**
 The heap of sessions behind the composer (packages/media_record/src/convert/composer.rs), least
 front time at the top.  The operations are those of the standard library's binary heap: `SiftDown`
 restores it after its top was changed in place, `PushHeap` and `PopHeap` add and take off.
 */
module SessionHeap {
  datatype Row = Row(ts: nat, event: string)

  /** A session with the rows it has left.  `frontTs` is the time of the next one, or of the last one taken. */
  datatype Session = Session(id: nat, rows: seq<Row>, frontTs: nat)

  type Heap = seq<Session>

  function Parent(k: int): int
    requires k > 0
  {
    (k - 1) / 2
  }

  /** The parent of `k` comes no later than `k`. */
  predicate EdgeOk(h: Heap, k: nat)
    requires 0 < k < |h|
  {
    h[Parent(k)].frontTs <= h[k].frontTs
  }

  predicate IsHeap(h: Heap) {
    forall k: nat :: 0 < k < |h| ==> EdgeOk(h, k)
  }

  /** A heap but for the edges at `i`, and still one if `i` were taken out. */
  predicate HeapAround(h: Heap, i: nat)
    requires i < |h|
  {
    && (forall k: nat :: 0 < k < |h| && k != i && Parent(k) != i ==> EdgeOk(h, k))
    && (i > 0 ==> forall k: nat :: 0 < k < |h| && Parent(k) == i ==> h[Parent(i)].frontTs <= h[k].frontTs)
  }

  predicate AboveOk(h: Heap, i: nat)
    requires i < |h|
  {
    i > 0 ==> EdgeOk(h, i)
  }

  predicate BelowOk(h: Heap, i: nat)
    requires i < |h|
  {
    forall k: nat :: 0 < k < |h| && Parent(k) == i ==> EdgeOk(h, k)
  }

  function Elements(h: Heap): set<Session> {
    set s <- h
  }

  function Swap(h: Heap, i: nat, j: nat): (r: Heap)
    requires i < |h| && j < |h|
    ensures |r| == |h|
  {
    h[i := h[j]][j := h[i]]
  }

  lemma SwapElements(h: Heap, i: nat, j: nat)
    requires i < |h| && j < |h|
    ensures Elements(Swap(h, i, j)) == Elements(h)
  {
    var r := Swap(h, i, j);
    forall s | s in Elements(h)
      ensures s in Elements(r)
    {
      var k :| 0 <= k < |h| && h[k] == s;
      assert r[if k == i then j else if k == j then i else k] == s;
    }
  }

  /** The child that comes first; the right one of two equal ones. */
  function FirstChild(h: Heap, i: nat): (c: nat)
    requires 2 * i + 1 < |h|
    ensures i < c < |h| && Parent(c) == i
    ensures forall k: nat :: 0 < k < |h| && Parent(k) == i ==> h[c].frontTs <= h[k].frontTs
  {
    var l := 2 * i + 1;
    assert forall k: nat :: 0 < k && Parent(k) == i ==> k == l || k == l + 1;
    if l + 1 < |h| && h[l + 1].frontTs <= h[l].frontTs then l + 1 else l
  }

  function SiftDown(h: Heap, i: nat): (r: Heap)
    requires i < |h|
    ensures |r| == |h|
    decreases |h| - i
  {
    if 2 * i + 1 >= |h| then h
    else
      var c := FirstChild(h, i);
      if h[i].frontTs <= h[c].frontTs then h else SiftDown(Swap(h, i, c), c)
  }

  function SiftUp(h: Heap, i: nat): (r: Heap)
    requires i < |h|
    ensures |r| == |h|
    decreases i
  {
    if i == 0 || h[Parent(i)].frontTs <= h[i].frontTs then h else SiftUp(Swap(h, i, Parent(i)), Parent(i))
  }

  /** Down to a leaf along the first children, and from there up to its place. */
  function SiftDownToBottom(h: Heap, i: nat): (r: Heap)
    requires i < |h|
    ensures |r| == |h|
    decreases |h| - i
  {
    if 2 * i + 1 >= |h| then SiftUp(h, i) else SiftDownToBottom(Swap(h, i, FirstChild(h, i)), FirstChild(h, i))
  }

  function PushHeap(h: Heap, s: Session): Heap {
    SiftUp(h + [s], |h|)
  }

  /** Without the top: the last entry takes its place. */
  function PopHeap(h: Heap): Heap
    requires h != []
  {
    var n := |h| - 1;
    if n == 0 then [] else SiftDownToBottom(h[..n][0 := h[n]], 0)
  }

  // ---------------------------------------------------------------- they keep the heap and its entries

  /** The hole moves down: its first child takes its place. */
  lemma MoveDown(h: Heap, i: nat)
    requires 2 * i + 1 < |h| && HeapAround(h, i)
    ensures var c := FirstChild(h, i); HeapAround(Swap(h, i, c), c)
    ensures var c := FirstChild(h, i); h[c].frontTs <= h[i].frontTs ==> AboveOk(Swap(h, i, c), c)
  {
    var c := FirstChild(h, i);
    var r := Swap(h, i, c);
    forall k: nat | 0 < k < |r| && k != c && Parent(k) != c
      ensures EdgeOk(r, k)
    {
      if k != i && Parent(k) != i { assert EdgeOk(h, k); }
    }
    forall k: nat | 0 < k < |r| && Parent(k) == c
      ensures r[Parent(c)].frontTs <= r[k].frontTs
    {
      assert k != i;
      assert EdgeOk(h, k);
    }
  }

  lemma {:induction false} SiftDownHeap(h: Heap, i: nat)
    requires i < |h| && HeapAround(h, i) && AboveOk(h, i)
    ensures IsHeap(SiftDown(h, i)) && Elements(SiftDown(h, i)) == Elements(h)
    decreases |h| - i
  {
    if 2 * i + 1 >= |h| {
      BottomBelow(h, i);
      Mended(h, i);
    } else {
      var c := FirstChild(h, i);
      if h[i].frontTs <= h[c].frontTs {
        Mended(h, i);
      } else {
        MoveDown(h, i);
        SwapElements(h, i, c);
        SiftDownHeap(Swap(h, i, c), c);
      }
    }
  }

  lemma BottomBelow(h: Heap, i: nat)
    requires i < |h| <= 2 * i + 1
    ensures BelowOk(h, i)
  {
  }

  lemma Mended(h: Heap, i: nat)
    requires i < |h| && HeapAround(h, i) && AboveOk(h, i) && BelowOk(h, i)
    ensures IsHeap(h)
  {
  }

  lemma {:induction false} SiftUpHeap(h: Heap, i: nat)
    requires i < |h| && HeapAround(h, i) && BelowOk(h, i)
    ensures IsHeap(SiftUp(h, i)) && Elements(SiftUp(h, i)) == Elements(h)
    decreases i
  {
    if i == 0 || h[Parent(i)].frontTs <= h[i].frontTs {
      Mended(h, i);
    } else {
      MoveUp(h, i);
      SwapElements(h, i, Parent(i));
      SiftUpHeap(Swap(h, i, Parent(i)), Parent(i));
    }
  }

  lemma MoveUp(h: Heap, i: nat)
    requires 0 < i < |h| && HeapAround(h, i) && BelowOk(h, i) && h[i].frontTs <= h[Parent(i)].frontTs
    ensures var p := Parent(i); HeapAround(Swap(h, i, p), p) && BelowOk(Swap(h, i, p), p)
  {
    var p := Parent(i);
    var r := Swap(h, i, p);
    forall k: nat | 0 < k < |r| && k != p && Parent(k) != p
      ensures EdgeOk(r, k)
    {
      if Parent(k) != i { assert EdgeOk(h, k); }
    }
    forall k: nat | 0 < k < |r| && Parent(k) == p
      ensures EdgeOk(r, k)
      ensures p > 0 ==> r[Parent(p)].frontTs <= r[k].frontTs
    {
      if p > 0 { assert EdgeOk(h, p); }
      if k != i { assert EdgeOk(h, k); }
    }
  }

  lemma {:induction false} SiftDownToBottomHeap(h: Heap, i: nat)
    requires i < |h| && HeapAround(h, i)
    ensures IsHeap(SiftDownToBottom(h, i)) && Elements(SiftDownToBottom(h, i)) == Elements(h)
    decreases |h| - i
  {
    if 2 * i + 1 >= |h| {
      BottomBelow(h, i);
      SiftUpHeap(h, i);
    } else {
      MoveDown(h, i);
      SwapElements(h, i, FirstChild(h, i));
      SiftDownToBottomHeap(Swap(h, i, FirstChild(h, i)), FirstChild(h, i));
    }
  }

  lemma PushIsHeap(h: Heap, s: Session)
    requires IsHeap(h)
    ensures IsHeap(PushHeap(h, s)) && |PushHeap(h, s)| == |h| + 1
    ensures Elements(PushHeap(h, s)) == Elements(h) + {s}
  {
    var r := h + [s];
    forall k: nat | 0 < k < |r| && k != |h| && Parent(k) != |h|
      ensures EdgeOk(r, k)
    {
      assert EdgeOk(h, k);
    }
    assert Elements(r) == Elements(h) + {s};
    SiftUpHeap(r, |h|);
  }

  /** Changing the top in place and sifting it down keeps the heap. */
  lemma ReplaceTopIsHeap(h: Heap, s: Session)
    requires IsHeap(h) && h != []
    ensures IsHeap(SiftDown(h[0 := s], 0)) && Elements(SiftDown(h[0 := s], 0)) == Elements(h[1..]) + {s}
  {
    var r := h[0 := s];
    AroundTop(h, s);
    SiftDownHeap(r, 0);
    assert r == [s] + h[1..];
  }

  lemma AroundTop(h: Heap, s: Session)
    requires IsHeap(h) && h != []
    ensures HeapAround(h[0 := s], 0)
  {
    forall k: nat | 0 < k < |h| && Parent(k) != 0
      ensures EdgeOk(h[0 := s], k)
    {
      assert EdgeOk(h, k);
    }
  }

  lemma PrefixIsHeap(h: Heap, n: nat)
    requires IsHeap(h) && n <= |h|
    ensures IsHeap(h[..n])
  {
    forall k: nat | 0 < k < n
      ensures EdgeOk(h[..n], k)
    {
      assert EdgeOk(h, k);
    }
  }

  lemma LastOnTop(h: Heap)
    requires |h| > 1
    ensures var n := |h| - 1; Elements(h[..n][0 := h[n]]) == Elements(h[1..])
  {
    var n := |h| - 1;
    assert h[..n][0 := h[n]] == [h[n]] + h[1..n];
    assert h[1..] == h[1..n] + [h[n]];
  }

  lemma PopIsHeap(h: Heap)
    requires IsHeap(h) && h != []
    ensures IsHeap(PopHeap(h)) && |PopHeap(h)| == |h| - 1 && Elements(PopHeap(h)) == Elements(h[1..])
  {
    var n := |h| - 1;
    if n > 0 {
      PrefixIsHeap(h, n);
      AroundTop(h[..n], h[n]);
      SiftDownToBottomHeap(h[..n][0 := h[n]], 0);
      LastOnTop(h);
    }
  }

  /** An unchanged top stays on top, so that the entry that is popped next is the one that was looked at. */
  lemma SiftDownStays(h: Heap)
    requires IsHeap(h) && h != []
    ensures SiftDown(h, 0) == h
  {
    if 1 < |h| {
      assert EdgeOk(h, FirstChild(h, 0));
    }
  }

  /** The top has the least front time. */
  lemma {:induction false} TopIsLeast(h: Heap, k: nat)
    requires IsHeap(h) && k < |h|
    ensures h[0].frontTs <= h[k].frontTs
  {
    if k > 0 {
      TopIsLeast(h, Parent(k));
      assert EdgeOk(h, k);
    }
  }
}
