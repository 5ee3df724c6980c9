/** Properties of the scanline filler: the shape of one row, the walk over
    the rows of a half, row order, the zero-height and zero-delta guards,
    and the texel addressing. */
module RasterizerFacts {
  import opened Painting
  import opened Textures
  import opened Rasterizer

  /** The sum of n increments d. */
  function Steps(d: real, n: nat): real
  {
    if n == 0 then 0.0 else Steps(d, n - 1) + d
  }

  /** n increments d add up to n * d. */
  lemma {:induction false} StepsProduct(d: real, n: nat)
    ensures Steps(d, n) == n as real * d
  {
    if n > 0 {
      StepsProduct(d, n - 1);
    }
  }

  /** The walk's values after n steps from w. */
  function Jump(w: Walk, left: EdgeStep, rdx: real, n: nat): Walk
  {
    Walk(w.y + n as real, w.xl + Steps(left.dx, n), w.xr + Steps(rdx, n),
         w.zp + Steps(left.dz, n), w.up + Steps(left.du, n), w.vp + Steps(left.dv, n))
  }

  lemma CeilShift(r: real)
    ensures Ceil(r - 1.0) == Ceil(r) - 1
  {
  }

  lemma TruncMonotone(a: real, b: real)
    requires a <= b
    ensures Trunc(a) <= Trunc(b)
  {
  }

  lemma TruncBelowCeil(r: real)
    ensures Trunc(r) <= Ceil(r)
  {
  }

  /** A run of k + 1 per-column steps from z reaches z + (k + 1) * d. */
  lemma StepSum(z: real, d: real, k: int)
    ensures (z + d) + k as real * d == z + (k + 1) as real * d
  {
  }

  /** The span from x to xEnd holds the consecutive columns x, x+1, ..,
      xEnd-1 of one row, and the k-th of them (counting from 0) has added the
      per-column increments k + 1 times. */
  lemma {:induction false} SpanShape(x: int, xEnd: int, row: int, z: real, u: real, v: real, col: ColumnStep)
    ensures |Span(x, xEnd, row, z, u, v, col)| == if x < xEnd then xEnd - x else 0
    ensures forall k :: 0 <= k < |Span(x, xEnd, row, z, u, v, col)| ==>
      Span(x, xEnd, row, z, u, v, col)[k]
        == Fragment(x + k, row, z + (k + 1) as real * col.dz, u + (k + 1) as real * col.du,
                    v + (k + 1) as real * col.dv)
    decreases xEnd - x
  {
    if x < xEnd {
      var z', u', v' := z + col.dz, u + col.du, v + col.dv;
      var s := Span(x, xEnd, row, z, u, v, col);
      var t := Span(x + 1, xEnd, row, z', u', v', col);
      SpanShape(x + 1, xEnd, row, z', u', v', col);
      assert s == [Fragment(x, row, z', u', v')] + t;
      forall k | 0 <= k < |s|
        ensures s[k] == Fragment(x + k, row, z + (k + 1) as real * col.dz, u + (k + 1) as real * col.du,
                                 v + (k + 1) as real * col.dv)
      {
        if k > 0 {
          assert s[k] == t[k - 1];
          StepSum(z, col.dz, k);
          StepSum(u, col.du, k);
          StepSum(v, col.dv, k);
        }
      }
    }
  }

  /** A lower-half row (and an upper-half row whose left edge is left of
      its right edge) is filled at exactly the integer columns x with
      xl <= x < xr, each once and from left to right (the column before
      the first is left of xl, the column after the last is not left of
      xr); pixel k of the row
      has its depth and texture coordinates stepped k + 1 times from the
      left-edge values. An inverted lower-half row is empty. */
  lemma LowerRowColumns(row: int, n: Walk, col: ColumnStep)
    ensures var r := RowSpan(row, n, col, false);
      && |r| == (if n.xl < n.xr then Ceil(n.xr) - Ceil(n.xl) else 0)
      && (forall k :: 0 <= k < |r| ==>
            && r[k].y == row && r[k].x == Ceil(n.xl) + k
            && n.xl <= r[k].x as real < n.xr
            && r[k].z == n.zp + (k + 1) as real * col.dz
            && r[k].u == n.up + (k + 1) as real * col.du
            && r[k].v == n.vp + (k + 1) as real * col.dv)
      && (n.xl < n.xr ==> (Ceil(n.xl) - 1) as real < n.xl && n.xr <= (Ceil(n.xl) + |r|) as real)
  {
    SpanShape(Ceil(n.xl), Ceil(n.xr), row, n.zp, n.up, n.vp, col);
  }

  /** An upper-half row whose left edge is at or right of its right edge
      is filled from the right edge's ceiling up to, not including, the
      truncated left edge. */
  lemma UpperInvertedRowColumns(row: int, n: Walk, col: ColumnStep)
    requires n.xr <= n.xl
    ensures var r := RowSpan(row, n, col, true);
      && |r| == (if Ceil(n.xr) < Trunc(n.xl) then Trunc(n.xl) - Ceil(n.xr) else 0)
      && (forall k :: 0 <= k < |r| ==>
            && r[k].y == row && r[k].x == Ceil(n.xr) + k
            && n.xr <= r[k].x as real && r[k].x < Trunc(n.xl)
            && r[k].z == n.zp + (k + 1) as real * col.dz
            && r[k].u == n.up + (k + 1) as real * col.du
            && r[k].v == n.vp + (k + 1) as real * col.dv)
  {
    SpanShape(Ceil(n.xr), Trunc(n.xl), row, n.zp, n.up, n.vp, col);
  }

  /** Every pixel of a row lies in that row. */
  lemma RowSpanInRow(row: int, n: Walk, col: ColumnStep, upper: bool)
    ensures forall k :: 0 <= k < |RowSpan(row, n, col, upper)| ==> RowSpan(row, n, col, upper)[k].y == row
  {
    SpanShape(SpanStart(n, upper), SpanEnd(n, upper), row, n.zp, n.up, n.vp, col);
  }

  lemma RowCountStep(y: real, yEnd: real)
    requires y < yEnd
    ensures RowCount(y, yEnd) >= 1
    ensures RowCount(y + 1.0, yEnd) == RowCount(y, yEnd) - 1
  {
    CeilShift(yEnd - y);
  }

  /** Adding one increment to the first step's value and k - 1 further ones
      gives the value after k steps. */
  lemma {:induction false} StepsShift(z: real, d: real, k: nat)
    requires k >= 1
    ensures (z + d) + Steps(d, k - 1) == z + Steps(d, k)
  {
    if k > 1 {
      StepsShift(z, d, k - 1);
    }
  }

  /** One row's step followed by k - 1 more is k steps. */
  lemma JumpStep(w: Walk, left: EdgeStep, rdx: real, k: nat)
    requires k >= 1
    ensures Jump(Advance(w, left, rdx), left, rdx, k - 1) == Jump(w, left, rdx, k)
  {
    StepsShift(w.xl, left.dx, k);
    StepsShift(w.xr, rdx, k);
    StepsShift(w.zp, left.dz, k);
    StepsShift(w.up, left.du, k);
    StepsShift(w.vp, left.dv, k);
  }

  /** The walk runs RowCount(y, yEnd) rows, each adding one to y and the
      increments to the edges and the left-edge values. */
  lemma {:induction false} RowsEndState(w: Walk, left: EdgeStep, rdx: real, yEnd: real)
    ensures RowsEnd(w, left, rdx, yEnd) == Jump(w, left, rdx, RowCount(w.y, yEnd))
    decreases Ceil(yEnd - w.y)
  {
    if w.y < yEnd {
      var n := Advance(w, left, rdx);
      RowsEndState(n, left, rdx, yEnd);
      RowCountStep(w.y, yEnd);
      var k := RowCount(w.y, yEnd);
      JumpStep(w, left, rdx, k);
    } else {
      assert Jump(w, left, rdx, 0) == w;
    }
  }

  /** The walk stops with y >= yEnd, less than one row past yEnd when it
      ran at all, and leaves a walk that starts at or below yEnd as it is. */
  lemma {:induction false} RowsEndStops(w: Walk, left: EdgeStep, rdx: real, yEnd: real)
    ensures RowsEnd(w, left, rdx, yEnd).y >= yEnd
    ensures w.y < yEnd ==> RowsEnd(w, left, rdx, yEnd).y < yEnd + 1.0
    ensures w.y >= yEnd ==> RowsEnd(w, left, rdx, yEnd) == w
    decreases Ceil(yEnd - w.y)
  {
    if w.y < yEnd {
      RowsEndStops(Advance(w, left, rdx), left, rdx, yEnd);
    }
  }

  /** The rows of a half come out top to bottom: the row numbers never
      decrease, and lie between the truncated start row and the truncated
      last row walked. */
  lemma {:induction false} RowsOrdered(w: Walk, left: EdgeStep, rdx: real, col: ColumnStep, yEnd: real, upper: bool)
    ensures forall i :: 0 <= i < |Rows(w, left, rdx, col, yEnd, upper)| ==>
      Trunc(w.y) <= Rows(w, left, rdx, col, yEnd, upper)[i].y <= Trunc(RowsEnd(w, left, rdx, yEnd).y - 1.0)
    ensures forall i, j :: 0 <= i <= j < |Rows(w, left, rdx, col, yEnd, upper)| ==>
      Rows(w, left, rdx, col, yEnd, upper)[i].y <= Rows(w, left, rdx, col, yEnd, upper)[j].y
    decreases Ceil(yEnd - w.y)
  {
    if w.y < yEnd {
      var n := Advance(w, left, rdx);
      var row := RowSpan(Trunc(w.y), n, col, upper);
      var rest := Rows(n, left, rdx, col, yEnd, upper);
      var e := RowsEnd(w, left, rdx, yEnd);
      assert Rows(w, left, rdx, col, yEnd, upper) == row + rest;
      assert e == RowsEnd(n, left, rdx, yEnd);
      RowsOrdered(n, left, rdx, col, yEnd, upper);
      RowSpanInRow(Trunc(w.y), n, col, upper);
      RowsEndStops(n, left, rdx, yEnd);
      TruncMonotone(w.y, n.y);
      TruncMonotone(w.y, e.y - 1.0);
      var r := row + rest;
      forall i | 0 <= i < |r|
        ensures Trunc(w.y) <= r[i].y <= Trunc(e.y - 1.0)
      {
        if i < |row| {
          assert r[i] == row[i];
          assert row[i].y == Trunc(w.y);
        } else {
          assert r[i] == rest[i - |row|];
          assert Trunc(n.y) <= rest[i - |row|].y;
          assert rest[i - |row|].y <= Trunc(e.y - 1.0);
        }
      }
      forall i, j | 0 <= i <= j < |r|
        ensures r[i].y <= r[j].y
      {
        if j < |row| {
          assert r[i] == row[i] && r[j] == row[j];
        } else if i >= |row| {
          assert r[i] == rest[i - |row|] && r[j] == rest[j - |row|];
        } else {
          assert r[i] == row[i] && r[j] == rest[j - |row|];
        }
      }
    }
  }

  /** All pixels of a triangle come out in nondecreasing row order: the
      lower half starts on or below the last row of the upper half. */
  lemma FragmentsOrdered(v1: Vertex, v2: Vertex, v3: Vertex, tw: int, th: int)
    ensures forall i, j :: 0 <= i <= j < |Fragments(v1, v2, v3, tw, th)| ==>
      Fragments(v1, v2, v3, tw, th)[i].y <= Fragments(v1, v2, v3, tw, th)[j].y
  {
    var (a, b, c) := SortByY(v1, v2, v3);
    if Trunc(a.y) != Trunc(c.y) {
      var s := Prepare(a, b, c, tw, th);
      var (l1, r1) := UpperEdges(s.e21, s.e31);
      var (l2, r2) := LowerEdges(s.e31, s.e32);
      var start := Start(a, tw, th);
      var e := UpperEnd(a, b, c, tw, th);
      var top: seq<Fragment>, bottom: seq<Fragment> := UpperRows(a, b, c, tw, th), LowerRows(a, b, c, tw, th);
      assert e == RowsEnd(start, l1, r1.dx, b.y);
      assert top == Rows(start, l1, r1.dx, s.col, b.y, true);
      assert bottom == Rows(e, l2, r2.dx, s.col, c.y, false);
      RowsOrdered(start, l1, r1.dx, s.col, b.y, true);
      RowsOrdered(e, l2, r2.dx, s.col, c.y, false);
      TruncMonotone(e.y - 1.0, e.y);
      assert Fragments(v1, v2, v3, tw, th) == top + bottom;
      forall i, j | 0 <= i <= j < |top + bottom|
        ensures (top + bottom)[i].y <= (top + bottom)[j].y
      {
        if j < |top| {
          assert (top + bottom)[i] == top[i] && (top + bottom)[j] == top[j];
        } else if i >= |top| {
          assert (top + bottom)[i] == bottom[i - |top|] && (top + bottom)[j] == bottom[j - |top|];
        } else {
          assert (top + bottom)[i] == top[i] && (top + bottom)[j] == bottom[j - |top|];
        }
      }
    }
  }

  /** main.cpp:49 and main.cpp:60: a triangle whose top and bottom truncate to the same
      row emits nothing; any other has a positive height, so the long
      edge's row count is at least one and its reciprocal is defined. */
  lemma HeightGuard(v1: Vertex, v2: Vertex, v3: Vertex, tw: int, th: int)
    ensures var (a, b, c) := SortByY(v1, v2, v3);
      && (Trunc(a.y) == Trunc(c.y) ==> Fragments(v1, v2, v3, tw, th) == [])
      && (Trunc(a.y) != Trunc(c.y) ==> a.y < c.y && Ceil(c.y - a.y) >= 1)
  {
  }

  /** main.cpp:59 and main.cpp:61: when a half's row count is zero that half emits
      nothing, so the value standing for the reciprocal of zero never
      reaches a pixel. */
  lemma ZeroRowCountHalvesEmpty(a: Vertex, b: Vertex, c: Vertex, tw: int, th: int)
    requires a.y <= b.y <= c.y && a.y < c.y
    ensures Ceil(b.y - a.y) == 0 ==> UpperRows(a, b, c, tw, th) == []
    ensures Ceil(c.y - b.y) == 0 ==> LowerRows(a, b, c, tw, th) == []
    ensures Ceil(b.y - a.y) == 0 ==> UpperEnd(a, b, c, tw, th) == Start(a, tw, th)
  {
    var s := Prepare(a, b, c, tw, th);
    var (l1, r1) := UpperEdges(s.e21, s.e31);
    RowsEndStops(Start(a, tw, th), l1, r1.dx, b.y);
  }

  /** While the left edge starts at or left of the right edge and moves
      right no faster, every row of the upper half is filled by the
      lower-half rule: the inverted branch of main.cpp:125-133 emits nothing. */
  lemma {:induction false} UpperRowsNeverInverted(w: Walk, left: EdgeStep, rdx: real, col: ColumnStep, yEnd: real)
    requires w.xl <= w.xr && left.dx <= rdx
    ensures Rows(w, left, rdx, col, yEnd, true) == Rows(w, left, rdx, col, yEnd, false)
    decreases Ceil(yEnd - w.y)
  {
    if w.y < yEnd {
      var n := Advance(w, left, rdx);
      UpperRowsNeverInverted(n, left, rdx, col, yEnd);
      if n.xl >= n.xr {
        TruncBelowCeil(n.xl);
        assert RowSpan(Trunc(w.y), n, col, true) == [];
      }
      assert RowSpan(Trunc(w.y), n, col, true) == RowSpan(Trunc(w.y), n, col, false);
    }
  }

  /** Both edges of the upper half start at the top vertex and the edge
      roles put the smaller slope on the left, so in exact arithmetic the
      upper half never takes its inverted branch. */
  lemma UpperHalfUsesLowerRule(a: Vertex, b: Vertex, c: Vertex, tw: int, th: int)
    requires a.y < c.y
    ensures var s := Prepare(a, b, c, tw, th);
      var (l1, r1) := UpperEdges(s.e21, s.e31);
      UpperRows(a, b, c, tw, th) == Rows(Start(a, tw, th), l1, r1.dx, s.col, b.y, false)
  {
    var s := Prepare(a, b, c, tw, th);
    var (l1, r1) := UpperEdges(s.e21, s.e31);
    UpperRowsNeverInverted(Start(a, tw, th), l1, r1.dx, s.col, b.y);
  }

  /** Texel addressing against the texture's own layout: the buffer entry a
      fragment reads is the one `Texture.Draw` shows at column
      `(int)u`, row `(int)v` exactly when the texture is 256 wide (or the
      row is 0), since the filler always uses a row stride of 256. */
  lemma TexelMatchesImage(f: Fragment, data: seq<Rgb>, w: int, h: int)
    requires 0 <= Trunc(f.u) < w && 0 <= Trunc(f.v) < h && h * w <= |data|
    ensures TexelIndex(f) == Trunc(f.u) + Trunc(f.v) * w <==> w == 256 || Trunc(f.v) == 0
    ensures w == 256 ==>
      && Trunc(f.v) * w + Trunc(f.u) < |Image(data, w, h)| && TexelIndex(f) < |data|
      && Image(data, w, h)[Trunc(f.v) * w + Trunc(f.u)] == Pixel(Trunc(f.u), Trunc(f.v), data[TexelIndex(f)])
  {
    var tu, tv := Trunc(f.u), Trunc(f.v);
    StrideAgrees(tv, w);
    ImageAt(data, w, h, tu, tv);
    ImageLength(data, w, h);
  }

  /** A row stride of 256 and one of w reach the same row start exactly
      when w is 256 or the row is 0. */
  lemma StrideAgrees(y: int, w: int)
    ensures y * 256 == y * w <==> w == 256 || y == 0
  {
    assert y * 256 - y * w == y * (256 - w);
    if y != 0 && w != 256 {
      assert y * (256 - w) != 0;
    }
  }

  /** The walk's final values in closed form: after RowCount(y, yEnd) rows
      y has risen by that many rows and every running value has added its
      increment that many times. */
  lemma RowsEndLinear(w: Walk, left: EdgeStep, rdx: real, yEnd: real)
    ensures RowsEnd(w, left, rdx, yEnd).y == w.y + RowCount(w.y, yEnd) as real
    ensures RowsEnd(w, left, rdx, yEnd).xl == w.xl + RowCount(w.y, yEnd) as real * left.dx
    ensures RowsEnd(w, left, rdx, yEnd).xr == w.xr + RowCount(w.y, yEnd) as real * rdx
    ensures RowsEnd(w, left, rdx, yEnd).zp == w.zp + RowCount(w.y, yEnd) as real * left.dz
    ensures RowsEnd(w, left, rdx, yEnd).up == w.up + RowCount(w.y, yEnd) as real * left.du
    ensures RowsEnd(w, left, rdx, yEnd).vp == w.vp + RowCount(w.y, yEnd) as real * left.dv
  {
    var k := RowCount(w.y, yEnd);
    RowsEndState(w, left, rdx, yEnd);
    StepsProduct(left.dx, k);
    StepsProduct(rdx, k);
    StepsProduct(left.dz, k);
    StepsProduct(left.du, k);
    StepsProduct(left.dv, k);
  }

  /** n steps of one n-th of the way from x0 to x1 reach x1. */
  lemma WholeEdge(x0: real, x1: real, d: real, n: int)
    requires n >= 1 && d == (x1 - x0) * (1.0 / n as real)
    ensures x0 + Steps(d, n) == x1
  {
    var r := n as real;
    StepsProduct(d, n);
    assert r * (1.0 / r) == 1.0;
    assert r * ((x1 - x0) * (1.0 / r)) == (x1 - x0) * (r * (1.0 / r));
  }

  /** The same for values scaled by k, as the texture coordinates are. */
  lemma WholeEdgeScaled(x0: real, x1: real, k: real, d: real, n: int)
    requires n >= 1 && d == (x1 - x0) * (1.0 / n as real) * k
    ensures x0 * k + Steps(d, n) == x1 * k
  {
    var r := n as real;
    StepsProduct(d, n);
    assert r * (1.0 / r) == 1.0;
    assert r * ((x1 - x0) * (1.0 / r) * k) == (x1 - x0) * k * (r * (1.0 / r));
  }

  /** main.cpp:59-86: the increments of an edge split over n rows, taken n
      times from the start vertex's values, give the end vertex's x, depth
      and texture position. */
  lemma EdgeReachesEnd(a: Vertex, b: Vertex, n: int, tw: int, th: int)
    requires n >= 1
    ensures var e := EdgeSteps(a, b, 1.0 / n as real, tw, th);
      && a.x + Steps(e.dx, n) == b.x && a.z + Steps(e.dz, n) == b.z
      && a.u * ((tw - 1) as real) + Steps(e.du, n) == b.u * ((tw - 1) as real)
      && a.v * ((th - 1) as real) + Steps(e.dv, n) == b.v * ((th - 1) as real)
  {
    var e := EdgeSteps(a, b, 1.0 / n as real, tw, th);
    WholeEdge(a.x, b.x, e.dx, n);
    WholeEdge(a.z, b.z, e.dz, n);
    WholeEdgeScaled(a.u, b.u, (tw - 1) as real, e.du, n);
    WholeEdgeScaled(a.v, b.v, (th - 1) as real, e.dv, n);
  }

  /** On the plane through (x1, 0, z1), (x2, h21, z2), (x3, h31, z3):
      going down the edge from the first point to the third for h21 rows
      and then across with the x gradient g reaches the second point's
      value. */
  predicate AcrossReaches(x1: real, x2: real, x3: real, z1: real, z2: real, z3: real, h21: real, h31: real, g: real)
    requires h31 != 0.0
  {
    z1 + (z3 - z1) * h21 / h31 + g * (x2 - (x1 + (x3 - x1) * h21 / h31)) == z2
  }

  /** Any g that solves the elimination of the row gradient (g * D == N)
      goes across to the second point. */
  lemma AcrossToMiddle(x1: real, x2: real, x3: real, z1: real, z2: real, z3: real, h21: real, h31: real, g: real)
    requires h31 != 0.0
    requires g * ((x3 - x1) * h21 + (x1 - x2) * h31) == (z3 - z1) * h21 + (z1 - z2) * h31
    ensures AcrossReaches(x1, x2, x3, z1, z2, z3, h21, h31, g)
  {
    var m := h21 / h31;
    var dx, dz := (x3 - x1) * m - (x2 - x1), (z3 - z1) * m - (z2 - z1);
    assert h31 * m == h21;
    assert (x3 - x1) * h21 + (x1 - x2) * h31 == h31 * dx;
    assert (z3 - z1) * h21 + (z1 - z2) * h31 == h31 * dz;
    assert h31 * (g * dx) == h31 * dz;
    assert g * dx == dz;
  }

  /** The increment g of main.cpp:74-80, with dX the reciprocal of the
      denominator, is such a gradient. */
  lemma GradientAcross(x1: real, x2: real, x3: real, z1: real, z2: real, z3: real,
                       h21: real, h31: real, dn: real, g: real)
    requires h31 != 0.0 && dn != 0.0 && dn == (x3 - x1) * h21 + (x1 - x2) * h31
    requires g == ColumnGradient(z1, z2, z3, h21, h31, Recip(dn))
    ensures AcrossReaches(x1, x2, x3, z1, z2, z3, h21, h31, g)
  {
    var nm := (z3 - z1) * h21 + (z1 - z2) * h31;
    assert g == nm * (1.0 / dn);
    assert (1.0 / dn) * dn == 1.0;
    assert g * dn == nm * ((1.0 / dn) * dn);
    AcrossToMiddle(x1, x2, x3, z1, z2, z3, h21, h31, g);
  }

  /** Scaled by the texture size k as in main.cpp:80 and main.cpp:86, it is such a
      gradient for the scaled values. */
  lemma GradientAcrossScaled(x1: real, x2: real, x3: real, z1: real, z2: real, z3: real,
                             h21: real, h31: real, dn: real, k: real, g: real)
    requires h31 != 0.0 && dn != 0.0 && dn == (x3 - x1) * h21 + (x1 - x2) * h31
    requires g == ColumnGradient(z1, z2, z3, h21, h31, Recip(dn)) * k
    ensures AcrossReaches(x1, x2, x3, z1 * k, z2 * k, z3 * k, h21, h31, g)
  {
    var nm := (z3 - z1) * h21 + (z1 - z2) * h31;
    assert g == nm * (1.0 / dn) * k;
    assert (1.0 / dn) * dn == 1.0;
    assert g * dn == nm * k * ((1.0 / dn) * dn);
    assert nm * k == (z3 * k - z1 * k) * h21 + (z1 * k - z2 * k) * h31;
    AcrossToMiddle(x1, x2, x3, z1 * k, z2 * k, z3 * k, h21, h31, g);
  }

  /** main.cpp:68-80 against main.cpp:113-126: the depth increment per column
      is the x gradient of the plane through the three vertices placed
      ceil(V2.y - V1.y) and ceil(V3.y - V1.y) rows below V1, so going from
      V1 down the long edge to V2's row and then across it reaches V2's
      depth. */
  lemma ColumnDepthReachesMiddle(a: Vertex, b: Vertex, c: Vertex, tw: int, th: int)
    requires a.y < c.y && ColumnDenominator(a, b, c) != 0.0
    ensures Ceil(c.y - a.y) as real != 0.0
    ensures AcrossReaches(a.x, b.x, c.x, a.z, b.z, c.z, Ceil(b.y - a.y) as real, Ceil(c.y - a.y) as real,
                          ColumnSteps(a, b, c, tw, th).dz)
  {
    GradientAcross(a.x, b.x, c.x, a.z, b.z, c.z, Ceil(b.y - a.y) as real, Ceil(c.y - a.y) as real,
                   ColumnDenominator(a, b, c), ColumnSteps(a, b, c, tw, th).dz);
  }

  /** The same for the u increment of main.cpp:80 and u scaled by the texture
      width less one. */
  lemma ColumnUReachesMiddle(a: Vertex, b: Vertex, c: Vertex, tw: int, th: int)
    requires a.y < c.y && ColumnDenominator(a, b, c) != 0.0
    ensures Ceil(c.y - a.y) as real != 0.0
    ensures var ku := (tw - 1) as real;
      AcrossReaches(a.x, b.x, c.x, a.u * ku, b.u * ku, c.u * ku, Ceil(b.y - a.y) as real, Ceil(c.y - a.y) as real,
                    ColumnSteps(a, b, c, tw, th).du)
  {
    GradientAcrossScaled(a.x, b.x, c.x, a.u, b.u, c.u, Ceil(b.y - a.y) as real, Ceil(c.y - a.y) as real,
                         ColumnDenominator(a, b, c), (tw - 1) as real, ColumnSteps(a, b, c, tw, th).du);
  }

  /** The same for the v increment of main.cpp:86 and v scaled by the texture
      height less one. */
  lemma ColumnVReachesMiddle(a: Vertex, b: Vertex, c: Vertex, tw: int, th: int)
    requires a.y < c.y && ColumnDenominator(a, b, c) != 0.0
    ensures Ceil(c.y - a.y) as real != 0.0
    ensures var kv := (th - 1) as real;
      AcrossReaches(a.x, b.x, c.x, a.v * kv, b.v * kv, c.v * kv, Ceil(b.y - a.y) as real, Ceil(c.y - a.y) as real,
                    ColumnSteps(a, b, c, tw, th).dv)
  {
    GradientAcrossScaled(a.x, b.x, c.x, a.v, b.v, c.v, Ceil(b.y - a.y) as real, Ceil(c.y - a.y) as real,
                         ColumnDenominator(a, b, c), (th - 1) as real, ColumnSteps(a, b, c, tw, th).dv);
  }

  /** main.cpp:59-66 and main.cpp:90-96 against main.cpp:105-135: an upper half that runs
      walks its short edge for exactly ceil(V2.y - V1.y) rows, so that
      walker ends on the middle vertex. Unswapped it is the left walker,
      whose depth and texture values then are the middle vertex's too. */
  lemma UpperEdgeReachesMiddle(a: Vertex, b: Vertex, c: Vertex, tw: int, th: int)
    requires a.y < b.y <= c.y
    ensures var s := Prepare(a, b, c, tw, th);
      var e := UpperEnd(a, b, c, tw, th);
      && (s.e21.dx <= s.e31.dx ==>
            e.xl == b.x && e.zp == b.z && e.up == b.u * ((tw - 1) as real) && e.vp == b.v * ((th - 1) as real))
      && (s.e31.dx < s.e21.dx ==> e.xr == b.x)
  {
    var s := Prepare(a, b, c, tw, th);
    assert s.e21 == EdgeSteps(a, b, 1.0 / Ceil(b.y - a.y) as real, tw, th);
    if s.e21.dx <= s.e31.dx {
      LeftWalkerReachesEnd(a, b, s.e31.dx, tw, th);
    } else {
      RightWalkerReachesEnd(a, b, s.e31, tw, th);
    }
  }

  /** A left walker that starts at a and steps along the edge from a to b
      reaches b's x, depth and texture position on b's row. */
  lemma LeftWalkerReachesEnd(a: Vertex, b: Vertex, rdx: real, tw: int, th: int)
    requires a.y < b.y
    ensures var e := RowsEnd(Start(a, tw, th), EdgeSteps(a, b, 1.0 / Ceil(b.y - a.y) as real, tw, th), rdx, b.y);
      e.xl == b.x && e.zp == b.z && e.up == b.u * ((tw - 1) as real) && e.vp == b.v * ((th - 1) as real)
  {
    var left := EdgeSteps(a, b, 1.0 / Ceil(b.y - a.y) as real, tw, th);
    var w := Start(a, tw, th);
    var n := Ceil(b.y - a.y);
    assert RowCount(w.y, b.y) == n && n >= 1;
    RowsEndState(w, left, rdx, b.y);
    EdgeReachesEnd(a, b, n, tw, th);
  }

  /** A right walker that starts at a and steps along the edge from a to b
      reaches b's x on b's row. */
  lemma RightWalkerReachesEnd(a: Vertex, b: Vertex, left: EdgeStep, tw: int, th: int)
    requires a.y < b.y
    ensures RowsEnd(Start(a, tw, th), left, EdgeSteps(a, b, 1.0 / Ceil(b.y - a.y) as real, tw, th).dx, b.y).xr == b.x
  {
    var rdx := EdgeSteps(a, b, 1.0 / Ceil(b.y - a.y) as real, tw, th).dx;
    var w := Start(a, tw, th);
    var n := Ceil(b.y - a.y);
    assert RowCount(w.y, b.y) == n && n >= 1;
    RowsEndState(w, left, rdx, b.y);
    EdgeReachesEnd(a, b, n, tw, th);
  }

  /** Rows whose left walker starts at or right of the right walker and
      moves right at least as fast are all empty under the plain rule. */
  lemma {:induction false} InvertedRowsEmpty(w: Walk, left: EdgeStep, rdx: real, col: ColumnStep, yEnd: real)
    requires w.xr <= w.xl && rdx <= left.dx
    ensures Rows(w, left, rdx, col, yEnd, false) == []
    decreases Ceil(yEnd - w.y)
  {
    if w.y < yEnd {
      var n := Advance(w, left, rdx);
      InvertedRowsEmpty(n, left, rdx, col, yEnd);
      LowerRowColumns(Trunc(w.y), n, col);
    }
  }

  /** As written, a triangle with a flat top draws nothing: the upper half
      runs no rows, so both walkers are still on the top vertex when the
      lower half starts, and there the left walker's slope is at least the
      right walker's (main.cpp:90-91, 105, 138-143 and 157). */
  lemma FlatTopEmitsNothing(a: Vertex, b: Vertex, c: Vertex, tw: int, th: int)
    requires a.y == b.y < c.y
    ensures Scan(a, b, c, tw, th) == []
  {
    var s := Prepare(a, b, c, tw, th);
    var (l2, r2) := LowerEdges(s.e31, s.e32);
    assert UpperRows(a, b, c, tw, th) == [];
    assert UpperEnd(a, b, c, tw, th) == Start(a, tw, th);
    InvertedRowsEmpty(Start(a, tw, th), l2, r2.dx, s.col, c.y);
  }

  /** The triangle (0, 0), (10, 0), (5, 10) is ten rows high, passes the
      height check, and draws no pixel. */
  lemma FlatTopExample(tw: int, th: int)
    ensures var (a, b, c) := (Vertex(0.0, 0.0, 0.0, 0.0, 0.0), Vertex(10.0, 0.0, 0.0, 1.0, 0.0),
                              Vertex(5.0, 10.0, 0.0, 0.5, 1.0));
      && Trunc(a.y) != Trunc(c.y) && Ceil(c.y - a.y) == 10
      && Fragments(a, b, c, tw, th) == []
  {
    var (a, b, c) := (Vertex(0.0, 0.0, 0.0, 0.0, 0.0), Vertex(10.0, 0.0, 0.0, 1.0, 0.0),
                      Vertex(5.0, 10.0, 0.0, 0.5, 1.0));
    assert SortByY(a, b, c) == (a, b, c);
    FlatTopEmitsNothing(a, b, c, tw, th);
  }

  /** The lower half's start with the short-edge walker on the middle
      vertex, as the upper half leaves it whenever it runs
      (`UpperEdgeReachesMiddle`): for a flat top the walker that would
      have come down the top edge is placed at V2 directly. */
  function FixedLowerStart(a: Vertex, b: Vertex, c: Vertex, tw: int, th: int): Walk
    requires a.y < c.y
  {
    var s := Prepare(a, b, c, tw, th);
    var e := UpperEnd(a, b, c, tw, th);
    if Ceil(b.y - a.y) != 0 then e
    else if s.e32.dx < s.e31.dx then e.(xr := b.x)
    else e.(xl := b.x, zp := b.z, up := b.u * ((tw - 1) as real), vp := b.v * ((th - 1) as real))
  }

  /** The pixels of a sorted triangle with the lower half started from
      `FixedLowerStart`. */
  function FixedScan(a: Vertex, b: Vertex, c: Vertex, tw: int, th: int): seq<Fragment>
    requires a.y < c.y
  {
    var s := Prepare(a, b, c, tw, th);
    var (l2, r2) := LowerEdges(s.e31, s.e32);
    UpperRows(a, b, c, tw, th) + Rows(FixedLowerStart(a, b, c, tw, th), l2, r2.dx, s.col, c.y, false)
  }

  /** The correction changes nothing for a triangle whose top is not
      flat: its pixels are exactly those the code as written draws. */
  lemma FixedScanAgrees(a: Vertex, b: Vertex, c: Vertex, tw: int, th: int)
    requires a.y < b.y <= c.y
    ensures FixedScan(a, b, c, tw, th) == Scan(a, b, c, tw, th)
  {
    assert Ceil(b.y - a.y) != 0;
  }

  /** With the corrected start, the lower half of a flat-topped triangle
      has its walkers start on the two top vertices and reach the bottom
      vertex together: each walks one of the two edges down to V3. */
  lemma FixedFlatTopWalkersMeet(a: Vertex, b: Vertex, c: Vertex, tw: int, th: int)
    requires a.y == b.y < c.y
    ensures var s := Prepare(a, b, c, tw, th);
      var (l2, r2) := LowerEdges(s.e31, s.e32);
      var w := FixedLowerStart(a, b, c, tw, th);
      && {w.xl, w.xr} == {a.x, b.x}
      && RowsEnd(w, l2, r2.dx, c.y).xl == c.x && RowsEnd(w, l2, r2.dx, c.y).xr == c.x
  {
    var s := Prepare(a, b, c, tw, th);
    var (l2, r2) := LowerEdges(s.e31, s.e32);
    var w := FixedLowerStart(a, b, c, tw, th);
    var n := Ceil(c.y - a.y);
    assert Ceil(b.y - a.y) == 0 && Ceil(c.y - b.y) == n && n >= 1;
    assert UpperEnd(a, b, c, tw, th) == Start(a, tw, th);
    assert s.e31 == EdgeSteps(a, c, 1.0 / n as real, tw, th);
    assert s.e32 == EdgeSteps(b, c, 1.0 / n as real, tw, th);
    assert RowCount(w.y, c.y) == n;
    RowsEndState(w, l2, r2.dx, c.y);
    EdgeReachesEnd(a, c, n, tw, th);
    EdgeReachesEnd(b, c, n, tw, th);
  }

  /** On the example triangle the corrected lower half draws at least the
      nine pixels of its first row. */
  lemma FixedFlatTopExample(tw: int, th: int)
    ensures |FixedScan(Vertex(0.0, 0.0, 0.0, 0.0, 0.0), Vertex(10.0, 0.0, 0.0, 1.0, 0.0),
                       Vertex(5.0, 10.0, 0.0, 0.5, 1.0), tw, th)| >= 9
  {
    var (a, b, c) := (Vertex(0.0, 0.0, 0.0, 0.0, 0.0), Vertex(10.0, 0.0, 0.0, 1.0, 0.0),
                      Vertex(5.0, 10.0, 0.0, 0.5, 1.0));
    var s := Prepare(a, b, c, tw, th);
    var (l2, r2) := LowerEdges(s.e31, s.e32);
    assert s.e31.dx == 0.5 && s.e32.dx == -0.5;
    var w := FixedLowerStart(a, b, c, tw, th);
    assert w.y == 0.0 && w.xl == 0.0 && w.xr == 10.0;
    var n := Advance(w, l2, r2.dx);
    assert n.xl == 0.5 && n.xr == 9.5;
    assert Ceil(0.5) == 1 && Ceil(9.5) == 10;
    LowerRowColumns(Trunc(w.y), n, s.col);
    assert Rows(w, l2, r2.dx, s.col, c.y, false)
      == RowSpan(Trunc(w.y), n, s.col, false) + Rows(n, l2, r2.dx, s.col, c.y, false);
  }
}
