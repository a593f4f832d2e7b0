/** Detection post-processing of src/ai/yolov8/cpp/postprocess.cpp: greedy non-maximum suppression per
    class over the sorted order, and the bounded list of results. Scores and boxes are reals. */
module PostProcess {
  import opened LockstepSort

  function Max(a: real, b: real): real { if a < b then b else a }

  function Min(a: real, b: real): real { if a < b then a else b }

  function CalculateOverlap(xmin0: real, ymin0: real, xmax0: real, ymax0: real,
                            xmin1: real, ymin1: real, xmax1: real, ymax1: real): real
  {
    var w := Max(0.0, Min(xmax0, xmax1) - Max(xmin0, xmin1) + 1.0);
    var h := Max(0.0, Min(ymax0, ymax1) - Max(ymin0, ymin1) + 1.0);
    var i := w * h;
    var u := (xmax0 - xmin0 + 1.0) * (ymax0 - ymin0 + 1.0) + (xmax1 - xmin1 + 1.0) * (ymax1 - ymin1 + 1.0) - i;
    if u <= 0.0 then 0.0 else i / u
  }

  /** The overlap of boxes n and m of the flat list of (x, y, width, height). */
  function Overlap(boxes: seq<real>, n: nat, m: nat): real
    requires 4 * n + 3 < |boxes| && 4 * m + 3 < |boxes|
  {
    CalculateOverlap(
      boxes[n * 4 + 0], boxes[n * 4 + 1],
      boxes[n * 4 + 0] + boxes[n * 4 + 2], boxes[n * 4 + 1] + boxes[n * 4 + 3],
      boxes[m * 4 + 0], boxes[m * 4 + 1],
      boxes[m * 4 + 0] + boxes[m * 4 + 2], boxes[m * 4 + 1] + boxes[m * 4 + 3])
  }

  // -------------------------------------------------------------------------- what an overlap is

  /** The pixels of a rectangle whose corners belong to it. */
  ghost function Pixels(x1: int, y1: int, x2: int, y2: int): set<(int, int)> {
    set i, j | x1 <= i <= x2 && y1 <= j <= y2 :: (i, j)
  }

  ghost function Extent(a: int, b: int): nat { if a <= b then b - a + 1 else 0 }

  lemma {:induction false} ColumnCount(x: int, y1: int, y2: int)
    ensures |Pixels(x, y1, x, y2)| == Extent(y1, y2)
    decreases Extent(y1, y2)
  {
    if y1 <= y2 {
      ColumnCount(x, y1, y2 - 1);
      assert Pixels(x, y1, x, y2) == Pixels(x, y1, x, y2 - 1) + {(x, y2)};
    } else {
      assert Pixels(x, y1, x, y2) == {};
    }
  }

  lemma {:induction false} PixelCount(x1: int, y1: int, x2: int, y2: int)
    ensures |Pixels(x1, y1, x2, y2)| == Extent(x1, x2) * Extent(y1, y2)
    decreases Extent(x1, x2)
  {
    if x1 <= x2 {
      PixelCount(x1, y1, x2 - 1, y2);
      ColumnCount(x2, y1, y2);
      var before, last := Pixels(x1, y1, x2 - 1, y2), Pixels(x2, y1, x2, y2);
      assert Pixels(x1, y1, x2, y2) == before + last && before !! last;
      OneMoreColumn(Extent(x1, x2 - 1), Extent(y1, y2));
    } else {
      assert Pixels(x1, y1, x2, y2) == {};
    }
  }

  lemma OneMoreColumn(columns: nat, rows: nat)
    ensures columns * rows + rows == (columns + 1) * rows
  {
  }

  ghost predicate IsWhole(x: real) { x == x.Floor as real }

  /** The four numbers of box n are whole. */
  ghost predicate IsWholeBox(boxes: seq<real>, n: nat)
    requires 4 * n + 3 < |boxes|
  {
    IsWhole(boxes[4 * n]) && IsWhole(boxes[4 * n + 1]) && IsWhole(boxes[4 * n + 2]) && IsWhole(boxes[4 * n + 3])
  }

  /** The pixels of box n, from its left top corner (x, y) to (x + width, y + height). */
  ghost function PixelsOf(boxes: seq<real>, n: nat): set<(int, int)>
    requires 4 * n + 3 < |boxes|
  {
    var x, y, width, height := boxes[4 * n].Floor, boxes[4 * n + 1].Floor, boxes[4 * n + 2].Floor, boxes[4 * n + 3].Floor;
    Pixels(x, y, x + width, y + height)
  }

  /** For all boxes of whole numbers the overlap is the share of the pixels of either box that are pixels of
      both. */
  lemma OverlapIsPixelShare(boxes: seq<real>, n: nat, m: nat)
    requires 4 * n + 3 < |boxes| && 4 * m + 3 < |boxes| && IsWholeBox(boxes, n) && IsWholeBox(boxes, m)
    ensures Overlap(boxes, n, m) * |PixelsOf(boxes, n) + PixelsOf(boxes, m)| as real
      == |PixelsOf(boxes, n) * PixelsOf(boxes, m)| as real
  {
    hide CalculateOverlap, Pixels;
    var x0, y0, w0, h0 := boxes[4 * n].Floor, boxes[4 * n + 1].Floor, boxes[4 * n + 2].Floor, boxes[4 * n + 3].Floor;
    var x1, y1, w1, h1 := boxes[4 * m].Floor, boxes[4 * m + 1].Floor, boxes[4 * m + 2].Floor, boxes[4 * m + 3].Floor;
    ShareOfCorners(x0, y0, x0 + w0, y0 + h0, x1, y1, x1 + w1, y1 + h1);
  }

  lemma ShareOfCorners(x0: int, y0: int, r0: int, b0: int, x1: int, y1: int, r1: int, b1: int)
    ensures var a, b := Pixels(x0, y0, r0, b0), Pixels(x1, y1, r1, b1);
      CalculateOverlap(x0 as real, y0 as real, r0 as real, b0 as real, x1 as real, y1 as real, r1 as real, b1 as real)
        * |a + b| as real == |a * b| as real
  {
    hide CalculateOverlap, Pixels, Extent, Later, Earlier;
    var a, b := Pixels(x0, y0, r0, b0), Pixels(x1, y1, r1, b1);
    PixelCount(x0, y0, r0, b0);
    PixelCount(x1, y1, r1, b1);
    CommonPixels(x0, y0, r0, b0, x1, y1, r1, b1);
    OverlapOfCorners(x0, y0, r0, b0, x1, y1, r1, b1);
    assert |a + b| == |a| + |b| - |a * b|;
  }

  /** First of the common columns or rows, and last. */
  ghost function Later(a: int, b: int): int { if a > b then a else b }

  ghost function Earlier(a: int, b: int): int { if a < b then a else b }

  lemma CommonPixels(x0: int, y0: int, r0: int, b0: int, x1: int, y1: int, r1: int, b1: int)
    ensures |Pixels(x0, y0, r0, b0) * Pixels(x1, y1, r1, b1)|
      == Extent(Later(x0, x1), Earlier(r0, r1)) * Extent(Later(y0, y1), Earlier(b0, b1))
  {
    var x, y, r, b := Later(x0, x1), Later(y0, y1), Earlier(r0, r1), Earlier(b0, b1);
    forall i, j
      ensures (i, j) in Pixels(x, y, r, b) <==> (i, j) in Pixels(x0, y0, r0, b0) && (i, j) in Pixels(x1, y1, r1, b1)
    {
    }
    hide Pixels, Extent, Later, Earlier;
    assert Pixels(x0, y0, r0, b0) * Pixels(x1, y1, r1, b1) == Pixels(x, y, r, b) by {
      forall p: (int, int)
        ensures p in Pixels(x, y, r, b) <==> p in Pixels(x0, y0, r0, b0) && p in Pixels(x1, y1, r1, b1)
      {
        assert p == (p.0, p.1);
      }
    }
    PixelCount(Later(x0, x1), Later(y0, y1), Earlier(r0, r1), Earlier(b0, b1));
  }

  /** The common columns or rows, in whole numbers and in reals. */
  lemma CommonExtent(first0: int, last0: int, first1: int, last1: int)
    ensures var w := Extent(Later(first0, first1), Earlier(last0, last1));
      && Max(0.0, Min(last0 as real, last1 as real) - Max(first0 as real, first1 as real) + 1.0) == w as real
      && (w > 0 ==>
            && Extent(first0, last0) as real == last0 as real - first0 as real + 1.0
            && Extent(first1, last1) as real == last1 as real - first1 as real + 1.0
            && w <= Extent(first0, last0) && w <= Extent(first1, last1))
  {
  }

  lemma OverlapOfCorners(x0: int, y0: int, r0: int, b0: int, x1: int, y1: int, r1: int, b1: int)
    ensures var i := Extent(Later(x0, x1), Earlier(r0, r1)) * Extent(Later(y0, y1), Earlier(b0, b1));
      var u := Extent(x0, r0) * Extent(y0, b0) + Extent(x1, r1) * Extent(y1, b1) - i;
      CalculateOverlap(x0 as real, y0 as real, r0 as real, b0 as real, x1 as real, y1 as real, r1 as real, b1 as real)
        * u as real == i as real
  {
    var w, h := Extent(Later(x0, x1), Earlier(r0, r1)), Extent(Later(y0, y1), Earlier(b0, b1));
    var w0, h0, w1, h1 := Extent(x0, r0), Extent(y0, b0), Extent(x1, r1), Extent(y1, b1);
    CommonExtent(x0, r0, x1, r1);
    CommonExtent(y0, b0, y1, b1);
    hide CalculateOverlap, Max, Min, Later, Earlier, Extent;
    if w > 0 && h > 0 {
      OverlapOfAreas(x0 as real, y0 as real, r0 as real, b0 as real, x1 as real, y1 as real, r1 as real, b1 as real,
                     w as real, h as real, w0 as real, h0 as real, w1 as real, h1 as real);
      ShareOfAreas(w, h, w0, h0, w1, h1);
    } else {
      NoOverlap(x0 as real, y0 as real, r0 as real, b0 as real, x1 as real, y1 as real, r1 as real, b1 as real);
      NoArea(w, h);
    }
  }

  lemma OverlapOfAreas(x0: real, y0: real, r0: real, b0: real, x1: real, y1: real, r1: real, b1: real,
                       w: real, h: real, w0: real, h0: real, w1: real, h1: real)
    requires w == Max(0.0, Min(r0, r1) - Max(x0, x1) + 1.0) && h == Max(0.0, Min(b0, b1) - Max(y0, y1) + 1.0)
    requires w0 == r0 - x0 + 1.0 && h0 == b0 - y0 + 1.0 && w1 == r1 - x1 + 1.0 && h1 == b1 - y1 + 1.0
    ensures var u := w0 * h0 + w1 * h1 - w * h;
      CalculateOverlap(x0, y0, r0, b0, x1, y1, r1, b1) == if u <= 0.0 then 0.0 else w * h / u
  {
    hide CalculateOverlap, Max, Min;
    SameProduct(w0, h0, r0 - x0 + 1.0, b0 - y0 + 1.0);
    SameProduct(w1, h1, r1 - x1 + 1.0, b1 - y1 + 1.0);
    SameProduct(w, h, Max(0.0, Min(r0, r1) - Max(x0, x1) + 1.0), Max(0.0, Min(b0, b1) - Max(y0, y1) + 1.0));
    OverlapFormula(x0, y0, r0, b0, x1, y1, r1, b1, w * h, w0 * h0, w1 * h1);
  }

  lemma OverlapFormula(x0: real, y0: real, r0: real, b0: real, x1: real, y1: real, r1: real, b1: real,
                       i: real, a: real, b: real)
    requires i == Max(0.0, Min(r0, r1) - Max(x0, x1) + 1.0) * Max(0.0, Min(b0, b1) - Max(y0, y1) + 1.0)
    requires a == (r0 - x0 + 1.0) * (b0 - y0 + 1.0) && b == (r1 - x1 + 1.0) * (b1 - y1 + 1.0)
    ensures CalculateOverlap(x0, y0, r0, b0, x1, y1, r1, b1) == if a + b - i <= 0.0 then 0.0 else i / (a + b - i)
  {
    hide Max, Min;
  }

  lemma SameProduct(a: real, b: real, c: real, d: real)
    requires a == c && b == d
    ensures a * b == c * d
  {
  }

  lemma NoOverlap(x0: real, y0: real, r0: real, b0: real, x1: real, y1: real, r1: real, b1: real)
    requires Max(0.0, Min(r0, r1) - Max(x0, x1) + 1.0) == 0.0 || Max(0.0, Min(b0, b1) - Max(y0, y1) + 1.0) == 0.0
    ensures CalculateOverlap(x0, y0, r0, b0, x1, y1, r1, b1) == 0.0
  {
    var w, h := Max(0.0, Min(r0, r1) - Max(x0, x1) + 1.0), Max(0.0, Min(b0, b1) - Max(y0, y1) + 1.0);
    assert w * h == 0.0;
    var u := (r0 - x0 + 1.0) * (b0 - y0 + 1.0) + (r1 - x1 + 1.0) * (b1 - y1 + 1.0) - w * h;
    if u > 0.0 {
      Ratio(w * h, u);
    }
  }

  lemma ShareOfAreas(w: nat, h: nat, w0: nat, h0: nat, w1: nat, h1: nat)
    requires 0 < w <= w0 && 0 < h <= h0 && w <= w1 && h <= h1
    ensures var i, u := w as real * h as real, w0 as real * h0 as real + w1 as real * h1 as real - w as real * h as real;
      u > 0.0 && i / u * (w0 * h0 + w1 * h1 - w * h) as real == (w * h) as real
  {
    AreaOf(w, h);
    AreaOf(w0, h0);
    AreaOf(w1, h1);
    Grows(w, w0, h, h0);
    Grows(w, w1, h, h1);
    Ratio((w * h) as real, (w0 * h0 + w1 * h1 - w * h) as real);
  }

  lemma NoArea(w: nat, h: nat)
    requires w == 0 || h == 0
    ensures w * h == 0
  {
  }

  lemma Ratio(i: real, u: real)
    requires u > 0.0
    ensures i / u * u == i && (i == 0.0 ==> i / u == 0.0)
  {
  }

  lemma AreaOf(a: nat, b: nat)
    ensures (a * b) as real == a as real * b as real
  {
  }

  lemma Grows(a: nat, b: nat, c: nat, d: nat)
    requires a <= b && c <= d && a > 0 && c > 0
    ensures 0 < a * c <= b * d
  {
    assert a * c <= b * c <= b * d;
  }

  /** The point lies in box n, whose last pixels are one wide and one high. */
  ghost predicate InBox(boxes: seq<real>, n: nat, px: real, py: real)
    requires 4 * n + 3 < |boxes|
  {
    && boxes[4 * n] <= px < boxes[4 * n] + boxes[4 * n + 2] + 1.0
    && boxes[4 * n + 1] <= py < boxes[4 * n + 1] + boxes[4 * n + 3] + 1.0
  }

  /** For all real boxes: the overlap lies between 0 and 1, is positive exactly for boxes that share a point,
      does not depend on their order, and is 1 for a box with itself. */
  lemma OverlapLaws(boxes: seq<real>, n: nat, m: nat)
    requires 4 * n + 3 < |boxes| && 4 * m + 3 < |boxes|
    ensures 0.0 <= Overlap(boxes, n, m) == Overlap(boxes, m, n) <= 1.0
    ensures Overlap(boxes, n, m) > 0.0 <==> exists px, py :: InBox(boxes, n, px, py) && InBox(boxes, m, px, py)
    ensures boxes[4 * n + 2] > -1.0 && boxes[4 * n + 3] > -1.0 ==> Overlap(boxes, n, n) == 1.0
  {
    var x0, y0, x1, y1 := boxes[4 * n], boxes[4 * n + 1], boxes[4 * m], boxes[4 * m + 1];
    var r0, b0, r1, b1 := x0 + boxes[4 * n + 2], y0 + boxes[4 * n + 3], x1 + boxes[4 * m + 2], y1 + boxes[4 * m + 3];
    assert Overlap(boxes, n, m) == CalculateOverlap(x0, y0, r0, b0, x1, y1, r1, b1);
    assert Overlap(boxes, m, n) == CalculateOverlap(x1, y1, r1, b1, x0, y0, r0, b0);
    assert Overlap(boxes, n, n) == CalculateOverlap(x0, y0, r0, b0, x0, y0, r0, b0);
    hide Overlap, CalculateOverlap;
    LawsOfCorners(x0, y0, r0, b0, x1, y1, r1, b1);
    LawsOfCorners(x1, y1, r1, b1, x0, y0, r0, b0);
    LawsOfCorners(x0, y0, r0, b0, x0, y0, r0, b0);
    if Max(x0, x1) < Min(r0, r1) + 1.0 && Max(y0, y1) < Min(b0, b1) + 1.0 {
      assert InBox(boxes, n, Max(x0, x1), Max(y0, y1)) && InBox(boxes, m, Max(x0, x1), Max(y0, y1));
    }
  }

  lemma LawsOfCorners(x0: real, y0: real, r0: real, b0: real, x1: real, y1: real, r1: real, b1: real)
    ensures var overlap := CalculateOverlap(x0, y0, r0, b0, x1, y1, r1, b1);
      && 0.0 <= overlap <= 1.0 && overlap == CalculateOverlap(x1, y1, r1, b1, x0, y0, r0, b0)
      && (overlap > 0.0 <==> Max(x0, x1) < Min(r0, r1) + 1.0 && Max(y0, y1) < Min(b0, b1) + 1.0)
      && (x0 == x1 < r0 + 1.0 == r1 + 1.0 && y0 == y1 < b0 + 1.0 == b1 + 1.0 ==> overlap == 1.0)
  {
    var w, h := Max(0.0, Min(r0, r1) - Max(x0, x1) + 1.0), Max(0.0, Min(b0, b1) - Max(y0, y1) + 1.0);
    var w0, h0, w1, h1 := r0 - x0 + 1.0, b0 - y0 + 1.0, r1 - x1 + 1.0, b1 - y1 + 1.0;
    OverlapOfAreas(x0, y0, r0, b0, x1, y1, r1, b1, w, h, w0, h0, w1, h1);
    OverlapOfAreas(x1, y1, r1, b1, x0, y0, r0, b0, w, h, w1, h1, w0, h0);
    if w > 0.0 && h > 0.0 {
      assert w <= w0 && w <= w1 && h <= h0 && h <= h1;
      hide CalculateOverlap, Max, Min;
      ProductGrows(w, w0, h, h0);
      ProductGrows(w, w1, h, h1);
      ShareIsProper(w * h, w0 * h0 + w1 * h1 - w * h);
    } else {
      NoOverlap(x0, y0, r0, b0, x1, y1, r1, b1);
      NoOverlap(x1, y1, r1, b1, x0, y0, r0, b0);
    }
  }

  lemma ProductGrows(a: real, b: real, c: real, d: real)
    requires 0.0 < a <= b && 0.0 < c <= d
    ensures 0.0 < a * c <= b * d
  {
    assert a * c <= b * c <= b * d;
  }

  lemma ShareIsProper(i: real, u: real)
    requires 0.0 < i <= u
    ensures 0.0 < i / u <= 1.0 && (i == u ==> i / u == 1.0)
  {
  }

  /** What one call sees: the boxes, their classes and the threshold. */
  datatype Scene = Scene(boxes: seq<real>, classes: seq<int>, threshold: real) {
    predicate Valid() {
      |boxes| == 4 * |classes|
    }

    /** An order array: entries are box numbers, -1 marks a removed one. */
    predicate IsOrder(order: seq<int>) {
      forall k | 0 <= k < |order| :: order[k] == -1 || 0 <= order[k] < |classes|
    }

    function ClassSet(): set<int> {
      set c | c in classes
    }

    predicate OfClass(order: seq<int>, k: nat, c: int)
      requires k < |order|
    {
      0 <= order[k] < |classes| && classes[order[k]] == c
    }

    /** Position j could remove position k: both live, same class, overlapping above the threshold. */
    predicate Beats(order: seq<int>, j: nat, k: nat)
      requires Valid() && j < |order| && k < |order|
    {
      && 0 <= order[j] < |classes| && 0 <= order[k] < |classes|
      && classes[order[j]] == classes[order[k]]
      && Overlap(boxes, order[j], order[k]) > threshold
    }

    /** The greedy set: a box survives iff no surviving box before it beats it. */
    ghost predicate Survives(order: seq<int>, k: nat)
      requires Valid() && k < |order|
    {
      order[k] != -1 && forall j | 0 <= j < k && Beats(order, j, k) :: !Survives(order, j)
    }

    /** Position k is removed by a survivor before position i. */
    ghost predicate Removed(order: seq<int>, k: nat, i: nat)
      requires Valid() && k < |order| && i <= |order|
    {
      exists j | 0 <= j < i && j < k :: Survives(order, j) && Beats(order, j, k)
    }

    /** The order after the pass for class c has handled the suppressors before position i. */
    ghost predicate Passed(before: seq<int>, after: seq<int>, c: int, i: nat)
      requires Valid() && i <= |before|
    {
      && |after| == |before|
      && forall k | 0 <= k < |before| ::
           after[k] == if OfClass(before, k, c) && Removed(before, k, i) then -1 else before[k]
    }
  }

  lemma SurvivesUnlessRemoved(s: Scene, order: seq<int>, k: nat)
    requires s.Valid() && k < |order|
    ensures s.Survives(order, k) <==> order[k] != -1 && !s.Removed(order, k, k)
  {
  }

  lemma RemovedOneMore(s: Scene, order: seq<int>, k: nat, i: nat)
    requires s.Valid() && k < |order| && i < |order|
    ensures s.Removed(order, k, i + 1)
       <==> s.Removed(order, k, i) || (i < k && s.Survives(order, i) && s.Beats(order, i, k))
  {
  }

  /** The inner loop: the box at position i, which is still there, removes those after it that it beats. */
  method Suppress(s: Scene, order: array<int>, filterId: int, i: nat, ghost start: seq<int>)
    requires s.Valid() && s.IsOrder(start) && i < |start| == order.Length && s.Passed(start, order[..], filterId, i)
    requires order[i] != -1 && s.OfClass(order[..], i, filterId)
    modifies order
    ensures s.Passed(start, order[..], filterId, i + 1)
  {
    var n := order[i];
    RemovedBy(s, start, order[..], filterId, i);
    hide Scene.Removed, Scene.Survives, Overlap;
    for j := i + 1 to order.Length
      invariant forall k | 0 <= k < order.Length ::
        order[k]
          == if s.OfClass(start, k, filterId) && s.Removed(start, k, if k < j then i + 1 else i) then -1 else start[k]
    {
      var m := order[j];
      if m == -1 || s.classes[m] != filterId {
        continue;
      }
      if Overlap(s.boxes, n, m) > s.threshold {
        order[j] := -1;
      }
    }
  }

  /** What the box at position i, still there after the boxes before it, adds to the removed ones. */
  lemma RemovedBy(s: Scene, start: seq<int>, order: seq<int>, filterId: int, i: nat)
    requires s.Valid() && s.IsOrder(start) && i < |start| && s.Passed(start, order, filterId, i)
    requires order[i] != -1 && s.OfClass(order, i, filterId)
    ensures order[i] == start[i]
    ensures forall k | 0 <= k < |start| ::
      s.Removed(start, k, i + 1) <==> s.Removed(start, k, i) || (i < k && s.Beats(start, i, k))
  {
    SurvivesUnlessRemoved(s, start, i);
    hide Scene.Removed, Scene.Survives, Overlap;
    forall k | 0 <= k < |start|
      ensures s.Removed(start, k, i + 1) <==> s.Removed(start, k, i) || (i < k && s.Beats(start, i, k))
    {
      RemovedOneMore(s, start, k, i);
    }
  }

  /** A box that is gone, or of another class, removes nothing of this class. */
  lemma NothingRemovedBy(s: Scene, start: seq<int>, order: seq<int>, filterId: int, i: nat)
    requires s.Valid() && s.IsOrder(start) && i < |start| && s.Passed(start, order, filterId, i)
    requires order[i] == -1 || !s.OfClass(order, i, filterId)
    ensures s.Passed(start, order, filterId, i + 1)
  {
    SurvivesUnlessRemoved(s, start, i);
    hide Scene.Removed, Scene.Survives, Overlap;
    forall k | 0 <= k < |start| && s.OfClass(start, k, filterId)
      ensures s.Removed(start, k, i + 1) <==> s.Removed(start, k, i)
    {
      RemovedOneMore(s, start, k, i);
    }
  }

  /** One class of greedy suppression, in place. */
  method Nms(s: Scene, order: array<int>, filterId: int)
    requires s.Valid() && s.IsOrder(order[..])
    modifies order
    ensures s.Passed(old(order[..]), order[..], filterId, order.Length)
  {
    ghost var start := order[..];
    for i := 0 to order.Length
      invariant s.Passed(start, order[..], filterId, i)
    {
      hide Scene.Removed, Scene.Survives, Overlap;
      var n := order[i];
      if n == -1 || s.classes[n] != filterId {
        NothingRemovedBy(s, start, order[..], filterId, i);
        continue;
      }
      Suppress(s, order, filterId, i, start);
    }
  }

  /** Survival at k depends only on the entries of k's class. */
  lemma {:induction false} SurvivesWithinClass(s: Scene, a: seq<int>, b: seq<int>, c: int, k: nat)
    requires s.Valid() && |a| == |b| && k < |a|
    requires s.OfClass(a, k, c)
    requires forall i | 0 <= i < |a| && (s.OfClass(a, i, c) || s.OfClass(b, i, c)) :: a[i] == b[i]
    ensures s.Survives(a, k) <==> s.Survives(b, k)
  {
    assert a[k] == b[k];
    forall j | 0 <= j < k
      ensures s.Beats(a, j, k) <==> s.Beats(b, j, k)
      ensures s.Beats(a, j, k) ==> (s.Survives(a, j) <==> s.Survives(b, j))
    {
      if s.Beats(a, j, k) {
        assert s.OfClass(a, j, c);
        SurvivesWithinClass(s, a, b, c, j);
      }
      if s.Beats(b, j, k) {
        assert s.OfClass(b, j, c);
      }
    }
  }

  /** now is start with the non-survivors of the classes in done removed. */
  ghost predicate Cleaned(s: Scene, start: seq<int>, now: seq<int>, done: set<int>)
    requires s.Valid() && s.IsOrder(start)
  {
    && |now| == |start|
    && forall k | 0 <= k < |start| ::
         now[k] == if start[k] != -1 && s.classes[start[k]] in done && !s.Survives(start, k) then -1 else start[k]
  }

  lemma OneMoreClass(s: Scene, start: seq<int>, now: seq<int>, next: seq<int>, done: set<int>, c: int)
    requires s.Valid() && s.IsOrder(start) && s.IsOrder(now)
    requires Cleaned(s, start, now, done) && c !in done
    requires s.Passed(now, next, c, |now|)
    ensures Cleaned(s, start, next, done + {c})
  {
    forall i | 0 <= i < |start| && (s.OfClass(now, i, c) || s.OfClass(start, i, c)) ensures now[i] == start[i] {
    }
    forall k | 0 <= k < |start|
      ensures next[k] == if start[k] != -1 && s.classes[start[k]] in done + {c} && !s.Survives(start, k) then -1
                         else start[k]
    {
      if s.OfClass(now, k, c) {
        SurvivesWithinClass(s, now, start, c, k);
        SurvivesUnlessRemoved(s, now, k);
        assert s.Removed(now, k, |now|) <==> s.Removed(now, k, k);
      }
    }
  }

  lemma EmptyOrInhabited(s: set<int>)
    ensures s == {} || exists x :: x in s
  {
    if forall x :: x !in s {
      assert s == {};
    }
  }

  /** Suppression over all the classes present, in whatever order they come, leaves the greedy set. */
  method NmsAllClasses(s: Scene, order: array<int>)
    requires s.Valid() && s.IsOrder(order[..])
    modifies order
    ensures forall k | 0 <= k < order.Length ::
      order[k] == if s.Survives(old(order[..]), k) then old(order[k]) else -1
  {
    ghost var start := order[..];
    ghost var done: set<int> := {};
    var classSet := s.ClassSet();
    while classSet != {}
      invariant s.IsOrder(order[..]) && Cleaned(s, start, order[..], done)
      invariant done !! classSet && s.ClassSet() <= done + classSet
      decreases |classSet|
    {
      EmptyOrInhabited(classSet);
      var c :| c in classSet;
      ghost var now := order[..];
      Nms(s, order, c);
      OneMoreClass(s, start, now, order[..], done, c);
      classSet := classSet - {c};
      done := done + {c};
    }
  }

  // ------------------------------------------------------------------------------------ results

  const OBJ_NUMB_MAX_SIZE: nat := 128

  datatype LetterBox = LetterBox(xPad: real, yPad: real, scale: real)

  datatype Detection = Detection(left: int, top: int, right: int, bottom: int, prop: real, clsId: int)

  /** Conversion of a float to an int in C: towards zero. */
  function Trunc(x: real): int { if x < 0.0 then -(-x).Floor else x.Floor }

  function Clamp(val: real, min: int, max: int): int {
    if val > min as real then if val < max as real then Trunc(val) else max else min
  }

  function Scaled(val: real, max: int, box: LetterBox): int
    requires box.scale != 0.0
  {
    Trunc(Clamp(val, 0, max) as real / box.scale)
  }

  /** The result for box n with confidence prop. */
  function DetectionOf(s: Scene, box: LetterBox, width: int, height: int, n: nat, prop: real): Detection
    requires s.Valid() && n < |s.classes| && box.scale != 0.0
  {
    var x1, y1 := s.boxes[n * 4 + 0] - box.xPad, s.boxes[n * 4 + 1] - box.yPad;
    var x2, y2 := x1 + s.boxes[n * 4 + 2], y1 + s.boxes[n * 4 + 3];
    Detection(Scaled(x1, width, box), Scaled(y1, height, box), Scaled(x2, width, box), Scaled(y2, height, box),
              prop, s.classes[n])
  }

  /** Coordinates land in the frame: 0 up to the model size divided by the scale, left of right. */
  lemma ScaledStaysInFrame(a: real, b: real, max: int, box: LetterBox)
    requires a <= b && 0 <= max && box.scale > 0.0
    ensures 0 <= Scaled(a, max, box) <= Scaled(b, max, box) <= Trunc(max as real / box.scale)
  {
    var ca, cb := Clamp(a, 0, max), Clamp(b, 0, max);
    assert 0 <= ca <= cb <= max;
    DivisionIsMonotone(0.0, ca as real, box.scale);
    DivisionIsMonotone(ca as real, cb as real, box.scale);
    DivisionIsMonotone(cb as real, max as real, box.scale);
  }

  /** Coordinate c of the picture comes from v in the model input: outside it is the edge, inside it is v divided
      by the scale, short by less than one and less than one input pixel. */
  ghost predicate IsScaledFrom(c: int, v: real, max: int, scale: real) {
    if v <= 0.0 then c == 0
    else if v >= max as real then c as real * scale <= max as real < (c as real + 1.0) * scale
    else c as real * scale <= v < (c as real + 1.0) * scale + 1.0
  }

  /** Which coordinate of a result is which: from the left top corner of the box, moved by the padding, and from
      the corner that lies its width and height further on. */
  lemma DetectionCorners(s: Scene, box: LetterBox, width: nat, height: nat, n: nat, prop: real)
    requires s.Valid() && n < |s.classes| && box.scale > 0.0
    ensures var d := DetectionOf(s, box, width, height, n, prop);
      var x, y := s.boxes[4 * n] - box.xPad, s.boxes[4 * n + 1] - box.yPad;
      && IsScaledFrom(d.left, x, width, box.scale) && IsScaledFrom(d.top, y, height, box.scale)
      && IsScaledFrom(d.right, x + s.boxes[4 * n + 2], width, box.scale)
      && IsScaledFrom(d.bottom, y + s.boxes[4 * n + 3], height, box.scale)
      && d.prop == prop && d.clsId == s.classes[n]
  {
    hide Scaled, IsScaledFrom;
    var x, y := s.boxes[4 * n] - box.xPad, s.boxes[4 * n + 1] - box.yPad;
    ScaledIs(x, width, box);
    ScaledIs(y, height, box);
    ScaledIs(x + s.boxes[4 * n + 2], width, box);
    ScaledIs(y + s.boxes[4 * n + 3], height, box);
  }

  lemma ScaledIs(v: real, max: nat, box: LetterBox)
    requires box.scale > 0.0
    ensures IsScaledFrom(Scaled(v, max, box), v, max, box.scale)
  {
    var c := Clamp(v, 0, max);
    assert 0 <= c && (v > 0.0 && v < max as real ==> c as real <= v < c as real + 1.0);
    Quotient(c as real, box.scale);
  }

  lemma Multiplied(a: real, b: real, scale: real)
    requires a <= b && scale > 0.0
    ensures a * scale <= b * scale && (a < b ==> a * scale < b * scale)
  {
    assert (b - a) * scale == b * scale - a * scale;
    if a < b {
      assert (b - a) * scale > 0.0;
    }
  }

  lemma QuotientBound(c: real, scale: real, k: real)
    requires scale > 0.0
    ensures if c / scale < k then c < k * scale else k * scale <= c
  {
    var x := c / scale;
    assert x * scale == c;
    if x < k {
      Multiplied(x, k, scale);
    } else {
      Multiplied(k, x, scale);
    }
  }

  lemma Quotient(c: real, scale: real)
    requires c >= 0.0 && scale > 0.0
    ensures var q := (c / scale).Floor;
      0 <= q && q as real * scale <= c < (q as real + 1.0) * scale && (c == 0.0 ==> q == 0)
  {
    var low := (c / scale).Floor as real;
    QuotientBound(c, scale, low);
    QuotientBound(c, scale, low + 1.0);
    assert c / scale >= 0.0;
  }

  lemma DivisionIsMonotone(x: real, y: real, scale: real)
    requires x <= y && scale > 0.0
    ensures x / scale <= y / scale
  {
  }

  /** The live positions of an order before position n, in order. */
  ghost function Live(order: seq<int>, n: nat): (kept: seq<nat>)
    requires n <= |order|
    ensures forall r | 0 <= r < |kept| :: kept[r] < n && order[kept[r]] != -1
    ensures forall r, t | 0 <= r < t < |kept| :: kept[r] < kept[t]
    ensures forall k | 0 <= k < n && order[k] != -1 :: k in kept
  {
    if n == 0 then [] else Live(order, n - 1) + if order[n - 1] == -1 then [] else [n - 1]
  }

  function AtMostMax(n: nat): nat {
    if n <= OBJ_NUMB_MAX_SIZE then n else OBJ_NUMB_MAX_SIZE
  }

  lemma NothingLiveYet(order: seq<int>)
    ensures Live(order, 0) == []
  {
  }

  lemma LiveOneMore(order: seq<int>, n: nat)
    requires n < |order|
    ensures Live(order, n + 1) == Live(order, n) + if order[n] == -1 then [] else [n]
  {
  }

  /** The closing loop of post_process: the first 128 live positions, each with its own box. */
  method Emit(s: Scene, objProbs: array<real>, order: array<int>, box: LetterBox, width: int, height: int)
    returns (results: seq<Detection>)
    requires s.Valid() && s.IsOrder(order[..]) && box.scale != 0.0
    requires objProbs.Length == order.Length
    ensures |results| == AtMostMax(|Live(order[..], order.Length)|)
    ensures forall r | 0 <= r < |results| ::
      var k := Live(order[..], order.Length)[r];
      results[r] == DetectionOf(s, box, width, height, order[k], objProbs[k])
  {
    hide DetectionOf, Live;
    results := [];
    ghost var live := [];
    NothingLiveYet(order[..]);
    for i := 0 to order.Length
      invariant live == Live(order[..], i) && |results| == AtMostMax(|live|)
      invariant forall r | 0 <= r < |results| ::
        results[r] == DetectionOf(s, box, width, height, order[live[r]], objProbs[live[r]])
    {
      LiveOneMore(order[..], i);
      live := Live(order[..], i + 1);
      if order[i] == -1 || |results| >= OBJ_NUMB_MAX_SIZE {
        continue;
      }
      var n := order[i];
      results := results + [DetectionOf(s, box, width, height, n, objProbs[i])];
    }
  }

  /** What post_process promises of its results; picks[r] is the box result r describes. */
  ghost predicate IsAnswer(s: Scene, scores: seq<real>, box: LetterBox, width: int, height: int,
                           results: seq<Detection>, picks: seq<int>)
    requires s.Valid() && |scores| == |s.classes| && box.scale != 0.0
  {
    && |results| == |picks| <= 128
    && (forall r | 0 <= r < |picks| :: 0 <= picks[r] < |scores|)
    && (forall r, t | 0 <= r < t < |picks| :: picks[r] != picks[t] && results[r].prop >= results[t].prop)
    && (forall r | 0 <= r < |picks| ::
          results[r] == DetectionOf(s, box, width, height, picks[r], scores[picks[r]]))
    && (forall r, t | 0 <= r < t < |picks| && s.classes[picks[r]] == s.classes[picks[t]] ::
          Overlap(s.boxes, picks[r], picks[t]) <= s.threshold)
    && (forall n | 0 <= n < |scores| && n !in picks :: Explained(s, scores, picks, n))
  }

  /** Why box n is missing: a listed box of its class, scored no lower, overlaps it; or the list is full
      and nothing in it is scored lower. */
  ghost predicate Explained(s: Scene, scores: seq<real>, picks: seq<int>, n: nat)
    requires s.Valid() && |scores| == |s.classes| && n < |scores|
    requires forall r | 0 <= r < |picks| :: 0 <= picks[r] < |scores|
  {
    || (exists r | 0 <= r < |picks| ::
          && s.classes[picks[r]] == s.classes[n] && scores[picks[r]] >= scores[n]
          && Overlap(s.boxes, picks[r], n) > s.threshold)
    || (|picks| == 128 && forall r | 0 <= r < |picks| :: scores[picks[r]] >= scores[n])
  }

  /** The facts the stages leave behind: a sorted order and its greedy set. */
  ghost predicate Stages(s: Scene, scores: seq<real>, probs: seq<real>, start: seq<int>, after: seq<int>)
    requires s.Valid() && |scores| == |s.classes|
  {
    && IsSorted(scores, probs, start)
    && |after| == |start|
    && (forall k | 0 <= k < |scores| :: after[k] == if s.Survives(start, k) then start[k] else -1)
  }

  ghost function Picks(after: seq<int>): seq<int> {
    var live := Live(after, |after|);
    seq(AtMostMax(|live|), r requires 0 <= r < AtMostMax(|live|) => after[live[r]])
  }

  lemma PicksAreSeparate(s: Scene, scores: seq<real>, probs: seq<real>, start: seq<int>, after: seq<int>, r: nat, t: nat)
    requires s.Valid() && |scores| == |s.classes| && Stages(s, scores, probs, start, after)
    requires r < t < |Picks(after)|
    ensures 0 <= Picks(after)[r] < |scores| && 0 <= Picks(after)[t] < |scores|
    ensures Picks(after)[r] != Picks(after)[t] && scores[Picks(after)[r]] >= scores[Picks(after)[t]]
    ensures s.classes[Picks(after)[r]] == s.classes[Picks(after)[t]] ==>
      Overlap(s.boxes, Picks(after)[r], Picks(after)[t]) <= s.threshold
  {
    hide Overlap;
    var live := Live(after, |after|);
    var k, l := live[r], live[t];
    assert s.Survives(start, k) && s.Survives(start, l);
    assert !s.Beats(start, k, l);
  }

  /** Every position has a survivor that accounts for it: itself, or an earlier one that beats it. */
  lemma SuppressorOf(s: Scene, start: seq<int>, k: nat) returns (j: nat)
    requires s.Valid() && k < |start| && start[k] != -1
    ensures j <= k && s.Survives(start, j) && (j == k || s.Beats(start, j, k))
  {
    hide Overlap;
    j := k;
    if !s.Survives(start, k) {
      j :| 0 <= j < k && s.Beats(start, j, k) && s.Survives(start, j);
    }
  }

  lemma MissingIsExplained(s: Scene, scores: seq<real>, probs: seq<real>, start: seq<int>, after: seq<int>, n: nat)
    requires s.Valid() && |scores| == |s.classes| && Stages(s, scores, probs, start, after)
    requires n < |scores| && n !in Picks(after)
    requires forall r | 0 <= r < |Picks(after)| :: 0 <= Picks(after)[r] < |scores|
    ensures Explained(s, scores, Picks(after), n)
  {
    hide Overlap, Live, Scene.Survives;
    var live, picks := Live(after, |after|), Picks(after);
    assert n as int in start;
    var k :| 0 <= k < |start| && start[k] == n;
    var j := SuppressorOf(s, start, k);
    assert after[j] == start[j];
    var rank :| 0 <= rank < |live| && live[rank] == j;
    if rank < |picks| {
      assert picks[rank] == start[j];
      assert probs[j] >= probs[k];
    } else {
      forall r | 0 <= r < |picks| ensures scores[picks[r]] >= scores[n] {
        assert live[r] < live[rank];
        assert probs[live[r]] >= probs[k];
      }
    }
  }

  /** Scores copied beside the identity index array, then sorted. */
  method SortByScore(scores: seq<real>) returns (objProbs: array<real>, indexArray: array<int>)
    requires scores != []
    ensures fresh(objProbs) && fresh(indexArray)
    ensures IsSorted(scores, objProbs[..], indexArray[..])
  {
    var validCount := |scores|;
    objProbs := new real[validCount](i requires 0 <= i < validCount => scores[i]);
    indexArray := new int[validCount];
    for i := 0 to validCount
      invariant objProbs[..] == scores
      invariant forall k | 0 <= k < i :: indexArray[k] == k
    {
      indexArray[i] := i;
    }
    assert objProbs[..] == scores && indexArray[..] == seq(validCount, i => i);
    hide Rearranged, Descending, IsSorted, Pairs;
    QuickSortIndiceInverse(objProbs, 0, validCount - 1, indexArray);
    SortedFromIdentity(scores, objProbs[..], indexArray[..]);
  }

  lemma PicksAreBoxes(s: Scene, scores: seq<real>, probs: seq<real>, start: seq<int>, after: seq<int>)
    requires s.Valid() && |scores| == |s.classes| && Stages(s, scores, probs, start, after)
    ensures |Picks(after)| <= |Live(after, |after|)|
    ensures forall r | 0 <= r < |Picks(after)| ::
      var k := Live(after, |after|)[r];
      0 <= Picks(after)[r] < |scores| && Picks(after)[r] == after[k] && scores[after[k]] == probs[k]
  {
    hide Scene.Survives, Overlap;
    var picks, live := Picks(after), Live(after, |after|);
    forall r | 0 <= r < |picks|
      ensures 0 <= picks[r] < |scores| && picks[r] == after[live[r]] && scores[after[live[r]]] == probs[live[r]]
    {
      assert picks[r] == after[live[r]] == start[live[r]];
    }
  }

  lemma StagesAnswer(s: Scene, scores: seq<real>, probs: seq<real>, start: seq<int>, after: seq<int>,
                     box: LetterBox, width: int, height: int, results: seq<Detection>)
    requires s.Valid() && |scores| == |s.classes| && box.scale != 0.0
    requires Stages(s, scores, probs, start, after)
    requires |results| == |Picks(after)|
    requires forall r | 0 <= r < |results| ::
      var k := Live(after, |after|)[r];
      results[r] == DetectionOf(s, box, width, height, after[k], probs[k])
    ensures IsAnswer(s, scores, box, width, height, results, Picks(after))
  {
    PicksAreBoxes(s, scores, probs, start, after);
    hide Overlap, Explained, Scene.Survives, Scaled, Picks, Live, Stages;
    var picks := Picks(after);
    forall r | 0 <= r < |picks|
      ensures 0 <= picks[r] < |scores|
      ensures results[r] == DetectionOf(s, box, width, height, picks[r], scores[picks[r]])
      ensures results[r].prop == scores[picks[r]]
    {
    }
    forall r, t | 0 <= r < t < |picks|
      ensures picks[r] != picks[t] && scores[picks[r]] >= scores[picks[t]]
      ensures s.classes[picks[r]] == s.classes[picks[t]] ==> Overlap(s.boxes, picks[r], picks[t]) <= s.threshold
    {
      PicksAreSeparate(s, scores, probs, start, after, r, t);
    }
    forall n | 0 <= n < |scores| && n !in picks ensures Explained(s, scores, picks, n) {
      MissingIsExplained(s, scores, probs, start, after, n);
    }
  }

  /** The tail of post_process, from the collected boxes to the result list. */
  method PostProcess(s: Scene, scores: seq<real>, box: LetterBox, width: int, height: int)
    returns (results: seq<Detection>)
    requires s.Valid() && |scores| == |s.classes| && box.scale != 0.0
    ensures exists picks :: IsAnswer(s, scores, box, width, height, results, picks)
  {
    if |scores| <= 0 {
      assert IsAnswer(s, scores, box, width, height, [], []);
      return [];
    }
    hide DetectionOf, Overlap, Live, IsAnswer;
    var objProbs, indexArray := SortByScore(scores);
    ghost var start := indexArray[..];
    NmsAllClasses(s, indexArray);
    results := Emit(s, objProbs, indexArray, box, width, height);
    StagesAnswer(s, scores, objProbs[..], start, indexArray[..], box, width, height, results);
  }
}
