/** The scanline triangle filler: vertex sort, zero-height exit, edge and
    column increments, edge roles, and the row and column walks of both
    halves. Coordinates are real numbers: float rounding is not modelled. */
module Rasterizer {
  import opened Painting
  import opened Textures

  const WindowWidth: int := 800
  const WindowHeight: int := 600

  /** A vertex: screen position, depth and texture coordinates. */
  datatype Vertex = Vertex(x: real, y: real, z: real, u: real, v: real)

  /** One pixel the filler produces, before its texel is looked up:
      integer position and the interpolated depth and texture coordinates. */
  datatype Fragment = Fragment(x: int, y: int, z: real, u: real, v: real)

  /** Per-scanline increments while walking one edge: x, depth, and the
      texture coordinates already scaled to texels. */
  datatype EdgeStep = EdgeStep(dx: real, dz: real, du: real, dv: real)

  /** Per-column increments of depth and texture coordinates along a span. */
  datatype ColumnStep = ColumnStep(dz: real, du: real, dv: real)

  /** The increments of the three edges (top-middle, top-bottom,
      middle-bottom) and the per-column increments. */
  datatype Setup = Setup(e21: EdgeStep, e31: EdgeStep, e32: EdgeStep, col: ColumnStep)

  /** The running values of the scanline walk: the current row `y`, the two
      edge positions, and depth and texture coordinates on the left edge. */
  datatype Walk = Walk(y: real, xl: real, xr: real, zp: real, up: real, vp: real)

  /** `ceil` of C, as an integer. */
  function Ceil(r: real): (c: int)
    ensures r <= c as real < r + 1.0
  {
    -((-r).Floor)
  }

  /** The `(int)` cast of C: truncation toward zero. */
  function Trunc(r: real): (t: int)
    ensures 0.0 <= r ==> 0 <= t && t as real <= r < t as real + 1.0
    ensures r < 0.0 ==> t <= 0 && t as real - 1.0 < r <= t as real
  {
    if r < 0.0 then -((-r).Floor) else r.Floor
  }

  /** 1 / d, with 0 standing for the infinity that float division by zero
      gives; where it is used, a zero `d` never reaches an emitted pixel. */
  function Recip(d: real): real
  {
    if d == 0.0 then 0.0 else 1.0 / d
  }

  /** `swap_data`: the two values change places. */
  method Swap<T>(x: T, y: T) returns (x': T, y': T)
    ensures x' == y && y' == x
  {
    var temp := x;
    x' := y;
    y' := temp;
  }

  /** The three compare-and-swaps that order the vertices by y. */
  function SortByY(v1: Vertex, v2: Vertex, v3: Vertex): (r: (Vertex, Vertex, Vertex))
    ensures r.0.y <= r.1.y <= r.2.y
    ensures multiset{r.0, r.1, r.2} == multiset{v1, v2, v3}
  {
    var (a, b) := Order(v1, v2);
    var (a', c) := Order(a, v3);
    var (b', c') := Order(b, c);
    (a', b', c')
  }

  /** One compare-and-swap of the sort: the pair by ascending y, unchanged
      when already in order. */
  function Order(p: Vertex, q: Vertex): (r: (Vertex, Vertex))
    ensures r.0.y <= r.1.y
    ensures r == (p, q) || r == (q, p)
    ensures p.y <= q.y ==> r == (p, q)
  {
    if p.y > q.y then (q, p) else (p, q)
  }

  /** The increments along the edge from `a` to `b`, given the reciprocal
      of its row count. */
  function EdgeSteps(a: Vertex, b: Vertex, inv: real, tw: int, th: int): EdgeStep
  {
    EdgeStep((b.x - a.x) * inv, (b.z - a.z) * inv,
             (b.u - a.u) * inv * ((tw - 1) as real), (b.v - a.v) * inv * ((th - 1) as real))
  }

  /** The denominator of the per-column increments. */
  function ColumnDenominator(a: Vertex, b: Vertex, c: Vertex): real
  {
    (c.x - a.x) * (Ceil(b.y - a.y) as real) + (a.x - b.x) * (Ceil(c.y - a.y) as real)
  }

  /** One per-column increment before texture scaling: the value's spread
      p1, p2, p3 over the vertices weighed by the row counts h21 and h31,
      times dX. */
  function ColumnGradient(p1: real, p2: real, p3: real, h21: real, h31: real, dX: real): real
  {
    ((p3 - p1) * h21 + (p1 - p2) * h31) * dX
  }

  function ColumnSteps(a: Vertex, b: Vertex, c: Vertex, tw: int, th: int): ColumnStep
  {
    var h21 := Ceil(b.y - a.y) as real;
    var h31 := Ceil(c.y - a.y) as real;
    var dX := Recip(ColumnDenominator(a, b, c));
    ColumnStep(ColumnGradient(a.z, b.z, c.z, h21, h31, dX),
               ColumnGradient(a.u, b.u, c.u, h21, h31, dX) * ((tw - 1) as real),
               ColumnGradient(a.v, b.v, c.v, h21, h31, dX) * ((th - 1) as real))
  }

  /** All increments of a triangle sorted by y, with a non-zero height. */
  function Prepare(a: Vertex, b: Vertex, c: Vertex, tw: int, th: int): Setup
    requires a.y < c.y
  {
    Setup(EdgeSteps(a, b, Recip(Ceil(b.y - a.y) as real), tw, th),
          EdgeSteps(a, c, 1.0 / (Ceil(c.y - a.y) as real), tw, th),
          EdgeSteps(b, c, Recip(Ceil(c.y - b.y) as real), tw, th),
          ColumnSteps(a, b, c, tw, th))
  }

  /** Edge roles in the upper half: (left, right). The left edge is the one
      with the smaller x slope, and it keeps its own depth and texture
      increments. */
  function UpperEdges(e21: EdgeStep, e31: EdgeStep): (r: (EdgeStep, EdgeStep))
    ensures r.0.dx <= r.1.dx
    ensures r == (e21, e31) || r == (e31, e21)
    ensures e21.dx <= e31.dx ==> r == (e21, e31)
  {
    if e21.dx > e31.dx then (e31, e21) else (e21, e31)
  }

  /** Edge roles in the lower half: (left, right). The right edge is the one
      with the smaller x slope, and the left edge keeps its own depth and
      texture increments. */
  function LowerEdges(e31: EdgeStep, e32: EdgeStep): (r: (EdgeStep, EdgeStep))
    ensures r.1.dx <= r.0.dx
    ensures r == (e32, e31) || r == (e31, e32)
    ensures e31.dx <= e32.dx ==> r == (e32, e31)
  {
    if e32.dx < e31.dx then (e31, e32) else (e32, e31)
  }

  /** One scanline step: both edges and the left-edge values advance, and
      the row moves down by one. */
  function Advance(w: Walk, left: EdgeStep, rdx: real): Walk
  {
    Walk(w.y + 1.0, w.xl + left.dx, w.xr + rdx, w.zp + left.dz, w.up + left.du, w.vp + left.dv)
  }

  /** The pixels x, x+1, .., xEnd-1 of one row; each adds the per-column
      increments before it is emitted. */
  function Span(x: int, xEnd: int, row: int, z: real, u: real, v: real, col: ColumnStep): seq<Fragment>
    decreases xEnd - x
  {
    if x < xEnd then
      [Fragment(x, row, z + col.dz, u + col.du, v + col.dv)]
        + Span(x + 1, xEnd, row, z + col.dz, u + col.du, v + col.dv, col)
    else []
  }

  /** The span of one row after the edges have advanced to `n`. In the upper
      half an inverted span runs from the right edge to the truncated left
      edge; in the lower half it is always from the left edge to the right. */
  function RowSpan(row: int, n: Walk, col: ColumnStep, upper: bool): seq<Fragment>
  {
    Span(SpanStart(n, upper), SpanEnd(n, upper), row, n.zp, n.up, n.vp, col)
  }

  /** The first column of a row's span. */
  function SpanStart(n: Walk, upper: bool): int
  {
    if !upper || n.xl < n.xr then Ceil(n.xl) else Ceil(n.xr)
  }

  /** The column just past a row's span. */
  function SpanEnd(n: Walk, upper: bool): int
  {
    if !upper || n.xl < n.xr then Ceil(n.xr) else Trunc(n.xl)
  }

  /** The pixels of the rows walked while y < yEnd. */
  function Rows(w: Walk, left: EdgeStep, rdx: real, col: ColumnStep, yEnd: real, upper: bool): seq<Fragment>
    decreases Ceil(yEnd - w.y)
  {
    if w.y < yEnd then
      var n := Advance(w, left, rdx);
      RowSpan(Trunc(w.y), n, col, upper) + Rows(n, left, rdx, col, yEnd, upper)
    else []
  }

  /** The walk's values once y < yEnd fails. */
  function RowsEnd(w: Walk, left: EdgeStep, rdx: real, yEnd: real): Walk
    decreases Ceil(yEnd - w.y)
  {
    if w.y < yEnd then RowsEnd(Advance(w, left, rdx), left, rdx, yEnd) else w
  }

  /** The number of rows a walk from y takes to reach yEnd. */
  function RowCount(y: real, yEnd: real): int
  {
    if y < yEnd then Ceil(yEnd - y) else 0
  }

  /** The walk's values at the top vertex. */
  function Start(a: Vertex, tw: int, th: int): Walk
  {
    Walk(a.y, a.x, a.x, a.z, a.u * ((tw - 1) as real), a.v * ((th - 1) as real))
  }

  /** The upper half of a sorted triangle with non-zero height: the rows
      from a down to b, with the edge roles of main.cpp:98-103. */
  function UpperRows(a: Vertex, b: Vertex, c: Vertex, tw: int, th: int): seq<Fragment>
    requires a.y < c.y
  {
    var s := Prepare(a, b, c, tw, th);
    var (l1, r1) := UpperEdges(s.e21, s.e31);
    Rows(Start(a, tw, th), l1, r1.dx, s.col, b.y, true)
  }

  /** The walk's values when the upper half is done. */
  function UpperEnd(a: Vertex, b: Vertex, c: Vertex, tw: int, th: int): Walk
    requires a.y < c.y
  {
    var s := Prepare(a, b, c, tw, th);
    var (l1, r1) := UpperEdges(s.e21, s.e31);
    RowsEnd(Start(a, tw, th), l1, r1.dx, b.y)
  }

  /** The lower half: the walk continues from where the upper half ended
      down to c, with the edge roles of main.cpp:137-143. */
  function LowerRows(a: Vertex, b: Vertex, c: Vertex, tw: int, th: int): seq<Fragment>
    requires a.y < c.y
  {
    var s := Prepare(a, b, c, tw, th);
    var (l2, r2) := LowerEdges(s.e31, s.e32);
    Rows(UpperEnd(a, b, c, tw, th), l2, r2.dx, s.col, c.y, false)
  }

  /** The pixels of a sorted triangle with non-zero height. */
  function Scan(a: Vertex, b: Vertex, c: Vertex, tw: int, th: int): seq<Fragment>
    requires a.y < c.y
  {
    UpperRows(a, b, c, tw, th) + LowerRows(a, b, c, tw, th)
  }

  /** Every pixel the filler emits for a triangle, in emission order. */
  function Fragments(v1: Vertex, v2: Vertex, v3: Vertex, tw: int, th: int): seq<Fragment>
  {
    var (a, b, c) := SortByY(v1, v2, v3);
    if Trunc(a.y) == Trunc(c.y) then [] else Scan(a, b, c, tw, th)
  }

  /** The texel a fragment reads: the row stride is 256 whatever the
      texture's width. */
  function TexelIndex(f: Fragment): int
  {
    Trunc(f.u) + Trunc(f.v) * 256
  }

  /** The fragment's texel lies inside the texture's buffer. */
  predicate InTexture(f: Fragment, data: Option<seq<Rgb>>)
  {
    data.Some? && 0 <= TexelIndex(f) < |data.value|
  }

  /** Every fragment reads a texel inside the texture's buffer. */
  predicate Sampled(fs: seq<Fragment>, data: Option<seq<Rgb>>)
  {
    forall i :: 0 <= i < |fs| ==> InTexture(fs[i], data)
  }

  /** The pixel drawn for a fragment: at its position, in the colour of its
      texel. A texel outside the buffer is a read the source leaves
      undefined; `Drawable` rules it out, and the colour 0 stands for it. */
  function Shade(f: Fragment, data: Option<seq<Rgb>>): Pixel
  {
    var i := TexelIndex(f);
    Pixel(f.x, f.y, if data.Some? && 0 <= i < |data.value| then data.value[i] else 0)
  }

  /** The pixels drawn for the fragments, in order. */
  function Render(fs: seq<Fragment>, data: Option<seq<Rgb>>): seq<Pixel>
  {
    seq(|fs|, i requires 0 <= i < |fs| => Shade(fs[i], data))
  }

  /** What the filler needs of its caller: every emitted pixel reads inside
      the texture, and a triangle that emits anything has a non-zero
      per-column denominator (otherwise the texture coordinates would be
      infinite or not a number when cast to int). */
  predicate Drawable(v1: Vertex, v2: Vertex, v3: Vertex, data: Option<seq<Rgb>>, tw: int, th: int)
  {
    var fs := Fragments(v1, v2, v3, tw, th);
    var (a, b, c) := SortByY(v1, v2, v3);
    (|fs| > 0 ==> ColumnDenominator(a, b, c) != 0.0) && Sampled(fs, data)
  }

  /** `putPixel`: one point in one colour. */
  method PutPixel(x: int, y: int, colour: Rgb, painter: Painter)
    modifies painter
    ensures painter.drawn == old(painter.drawn) + [Pixel(x, y, colour)]
  {
    painter.DrawPoint(x, y, colour);
  }

  /** The inner loop: emits the pixels xStart .. xEnd-1 of one row. */
  method FillSpan(xStart: int, xEnd: int, row: int, zRun: real, uRun: real, vRun: real,
                  col: ColumnStep, data: Option<seq<Rgb>>, painter: Painter)
    requires Sampled(Span(xStart, xEnd, row, zRun, uRun, vRun, col), data)
    modifies painter
    ensures painter.drawn == old(painter.drawn) + Render(Span(xStart, xEnd, row, zRun, uRun, vRun, col), data)
  {
    ghost var all := Span(xStart, xEnd, row, zRun, uRun, vRun, col);
    var z, u, v := zRun, uRun, vRun;
    var x := xStart;
    while x < xEnd
      invariant Sampled(Span(x, xEnd, row, z, u, v, col), data)
      invariant painter.drawn + Render(Span(x, xEnd, row, z, u, v, col), data)
        == old(painter.drawn) + Render(all, data)
      decreases xEnd - x
    {
      ghost var rest := Span(x, xEnd, row, z, u, v, col);
      z := z + col.dz;
      u := u + col.du;
      v := v + col.dv;
      ghost var f := Fragment(x, row, z, u, v);
      assert rest == [f] + Span(x + 1, xEnd, row, z, u, v, col) && rest[0] == f;
      assert InTexture(f, data);
      SampledAppend([f], Span(x + 1, xEnd, row, z, u, v, col), data);
      RenderAppend([f], Span(x + 1, xEnd, row, z, u, v, col), data);
      PutPixel(x, row, data.value[Trunc(u) + Trunc(v) * 256], painter);
      x := x + 1;
    }
  }

  /** A sampled sequence splits into sampled parts, and drawing it draws the
      parts one after the other. */
  lemma RenderAppend(fs: seq<Fragment>, gs: seq<Fragment>, data: Option<seq<Rgb>>)
    ensures Render(fs + gs, data) == Render(fs, data) + Render(gs, data)
  {
    var r, p, q := Render(fs + gs, data), Render(fs, data), Render(gs, data);
    assert |r| == |p + q|;
    forall i | 0 <= i < |r|
      ensures r[i] == (p + q)[i]
    {
      if i < |fs| {
        assert (fs + gs)[i] == fs[i];
      } else {
        assert (fs + gs)[i] == gs[i - |fs|];
      }
    }
  }

  /** The texels of a concatenation are in bounds exactly when those of
      both parts are. */
  lemma SampledAppend(fs: seq<Fragment>, gs: seq<Fragment>, data: Option<seq<Rgb>>)
    ensures Sampled(fs + gs, data) <==> Sampled(fs, data) && Sampled(gs, data)
  {
    if Sampled(fs + gs, data) {
      forall i | 0 <= i < |fs|
        ensures InTexture(fs[i], data)
      {
        assert (fs + gs)[i] == fs[i];
      }
      forall i | 0 <= i < |gs|
        ensures InTexture(gs[i], data)
      {
        assert (fs + gs)[|fs| + i] == gs[i];
      }
    }
    if Sampled(fs, data) && Sampled(gs, data) {
      forall i | 0 <= i < |fs + gs|
        ensures InTexture((fs + gs)[i], data)
      {
        if i < |fs| {
          assert (fs + gs)[i] == fs[i];
        } else {
          assert (fs + gs)[i] == gs[i - |fs|];
        }
      }
    }
  }

  /** One step of the row walk, for a walk whose pixels all read inside
      the texture: the current row's span is drawn first, then the rest,
      and the walk ends where the rest of it ends. */
  lemma RowsStepRender(w: Walk, left: EdgeStep, rdx: real, col: ColumnStep, yEnd: real, upper: bool,
                       data: Option<seq<Rgb>>)
    requires w.y < yEnd
    requires Sampled(Rows(w, left, rdx, col, yEnd, upper), data)
    ensures Sampled(RowSpan(Trunc(w.y), Advance(w, left, rdx), col, upper), data)
    ensures Sampled(Rows(Advance(w, left, rdx), left, rdx, col, yEnd, upper), data)
    ensures Render(Rows(w, left, rdx, col, yEnd, upper), data)
      == Render(RowSpan(Trunc(w.y), Advance(w, left, rdx), col, upper), data)
         + Render(Rows(Advance(w, left, rdx), left, rdx, col, yEnd, upper), data)
    ensures RowsEnd(w, left, rdx, yEnd) == RowsEnd(Advance(w, left, rdx), left, rdx, yEnd)
  {
    var n := Advance(w, left, rdx);
    SampledAppend(RowSpan(Trunc(w.y), n, col, upper), Rows(n, left, rdx, col, yEnd, upper), data);
    RenderAppend(RowSpan(Trunc(w.y), n, col, upper), Rows(n, left, rdx, col, yEnd, upper), data);
  }

  /** main.cpp:39-47: orders the vertices by y with three compare-and-swaps. */
  method SortVertices(v1: Vertex, v2: Vertex, v3: Vertex) returns (s1: Vertex, s2: Vertex, s3: Vertex)
    ensures (s1, s2, s3) == SortByY(v1, v2, v3)
  {
    s1, s2, s3 := v1, v2, v3;
    if s1.y > s2.y {
      s1, s2 := Swap(s1, s2);
    }
    assert (s1, s2) == Order(v1, v2);
    ghost var b := s2;
    if s1.y > s3.y {
      s1, s3 := Swap(s1, s3);
    }
    assert (s1, s3) == Order(Order(v1, v2).0, v3);
    if s2.y > s3.y {
      s2, s3 := Swap(s2, s3);
    }
    assert (s2, s3) == Order(b, Order(Order(v1, v2).0, v3).1);
  }

  /** main.cpp:98-103: when the top-middle slope exceeds the long-edge slope
      the two slopes change places and the left edge takes the long edge's
      depth and texture increments. Returns the left edge and the right
      edge's slope. */
  method OrderUpperEdges(e21: EdgeStep, e31: EdgeStep) returns (left: EdgeStep, dXdY31: real)
    ensures left == UpperEdges(e21, e31).0 && dXdY31 == UpperEdges(e21, e31).1.dx
  {
    var dXdY21, dZdY21, dUdY21, dVdY21 := e21.dx, e21.dz, e21.du, e21.dv;
    dXdY31 := e31.dx;
    if dXdY21 > dXdY31 {
      dXdY21, dXdY31 := Swap(dXdY21, dXdY31);
      dZdY21 := e31.dz;
      dUdY21 := e31.du;
      dVdY21 := e31.dv;
    }
    left := EdgeStep(dXdY21, dZdY21, dUdY21, dVdY21);
  }

  /** main.cpp:138-143: when the middle-bottom slope is below the long-edge
      slope the two slopes change places and the left edge takes the long
      edge's depth and texture increments. Returns the left edge and the
      right edge's slope. */
  method OrderLowerEdges(e31: EdgeStep, e32: EdgeStep) returns (left: EdgeStep, dXdY31: real)
    ensures left == LowerEdges(e31, e32).0 && dXdY31 == LowerEdges(e31, e32).1.dx
  {
    var dXdY32, dZdY32, dUdY32, dVdY32 := e32.dx, e32.dz, e32.du, e32.dv;
    dXdY31 := e31.dx;
    if dXdY32 < dXdY31 {
      dXdY31, dXdY32 := Swap(dXdY31, dXdY32);
      dZdY32 := e31.dz;
      dUdY32 := e31.du;
      dVdY32 := e31.dv;
    }
    left := EdgeStep(dXdY32, dZdY32, dUdY32, dVdY32);
  }

  /** `drawTriangle`: sorts the vertices, skips a triangle of zero height,
      computes the increments, chooses the edge roles once per half and
      walks the rows of both halves, emitting the texel of every pixel. */
  method DrawTriangle(v1: Vertex, v2: Vertex, v3: Vertex, texture: Texture, painter: Painter)
    requires Drawable(v1, v2, v3, texture.data, texture.width, texture.height)
    modifies painter
    ensures painter.drawn == old(painter.drawn) + Render(Fragments(v1, v2, v3, texture.width, texture.height), texture.data)
  {
    var s1, s2, s3 := SortVertices(v1, v2, v3);
    if Trunc(s1.y) == Trunc(s3.y) {
      return;
    }

    var tw, th := texture.width, texture.height;
    var dY21 := Recip(Ceil(s2.y - s1.y) as real);
    var dY31 := 1.0 / (Ceil(s3.y - s1.y) as real);
    var dY32 := Recip(Ceil(s3.y - s2.y) as real);

    // main.cpp:63-86: the per-row increments of each edge, and the per-column ones
    var e21 := EdgeSteps(s1, s2, dY21, tw, th);
    var e31 := EdgeSteps(s1, s3, dY31, tw, th);
    var e32 := EdgeSteps(s2, s3, dY32, tw, th);
    var dXdY31tmp := e31.dx;
    var col := ColumnSteps(s1, s2, s3, tw, th);
    assert Prepare(s1, s2, s3, tw, th) == Setup(e21, e31, e32, col);

    ghost var top, bottom := UpperRows(s1, s2, s3, tw, th), LowerRows(s1, s2, s3, tw, th);
    assert Fragments(v1, v2, v3, tw, th) == top + bottom;
    SampledAppend(top, bottom, texture.data);
    RenderAppend(top, bottom, texture.data);

    var walk := Start(s1, tw, th);
    var left, dXdY31 := OrderUpperEdges(e21, e31);
    walk := UpperHalf(walk, left, dXdY31, col, s2.y, texture.data, painter);
    assert walk == UpperEnd(s1, s2, s3, tw, th);
    assert painter.drawn == old(painter.drawn) + Render(top, texture.data);

    dXdY31 := dXdY31tmp;
    assert e31.(dx := dXdY31) == e31;
    left, dXdY31 := OrderLowerEdges(e31.(dx := dXdY31), e32);
    walk := LowerHalf(walk, left, dXdY31, col, s3.y, texture.data, painter);
    assert painter.drawn == old(painter.drawn) + Render(top, texture.data) + Render(bottom, texture.data);
  }

  /** The upper-half loop, main.cpp:105-134: walks the rows while y < yEnd.
      Returns the walk's final values. */
  method UpperHalf(w0: Walk, left: EdgeStep, rdx: real, col: ColumnStep, yEnd: real,
                   data: Option<seq<Rgb>>, painter: Painter)
    returns (w: Walk)
    requires Sampled(Rows(w0, left, rdx, col, yEnd, true), data)
    modifies painter
    ensures w == RowsEnd(w0, left, rdx, yEnd)
    ensures painter.drawn == old(painter.drawn) + Render(Rows(w0, left, rdx, col, yEnd, true), data)
  {
    ghost var all := Rows(w0, left, rdx, col, yEnd, true);
    w := w0;
    while w.y < yEnd
      invariant Sampled(Rows(w, left, rdx, col, yEnd, true), data)
      invariant painter.drawn + Render(Rows(w, left, rdx, col, yEnd, true), data)
        == old(painter.drawn) + Render(all, data)
      invariant RowsEnd(w0, left, rdx, yEnd) == RowsEnd(w, left, rdx, yEnd)
      decreases Ceil(yEnd - w.y)
    {
      RowsStepRender(w, left, rdx, col, yEnd, true, data);
      w := UpperRow(w, left, rdx, col, data, painter);
    }
  }

  /** One pass of the upper-half loop body, main.cpp:106-133: both edges and
      the left-edge values advance, then the row is filled from the left
      edge to the right edge, or, when the left edge is not left of the
      right edge, from the right edge to the truncated left edge. */
  method UpperRow(w: Walk, left: EdgeStep, rdx: real, col: ColumnStep,
                  data: Option<seq<Rgb>>, painter: Painter)
    returns (n: Walk)
    requires Sampled(RowSpan(Trunc(w.y), Advance(w, left, rdx), col, true), data)
    modifies painter
    ensures n == Advance(w, left, rdx)
    ensures painter.drawn == old(painter.drawn) + Render(RowSpan(Trunc(w.y), n, col, true), data)
  {
    var y, xLeft, xRight, zp, up, vp := w.y, w.xl, w.xr, w.zp, w.up, w.vp;
    xLeft := xLeft + left.dx;
    xRight := xRight + rdx;
    var xEnd := Ceil(xRight);
    zp := zp + left.dz;
    up := up + left.du;
    vp := vp + left.dv;
    if xLeft < xRight {
      FillSpan(Ceil(xLeft), xEnd, Trunc(y), zp, up, vp, col, data, painter);
    } else {
      xEnd := Trunc(xLeft);
      FillSpan(Ceil(xRight), xEnd, Trunc(y), zp, up, vp, col, data, painter);
    }
    y := y + 1.0;
    n := Walk(y, xLeft, xRight, zp, up, vp);
  }

  /** The lower-half loop, main.cpp:145-164: as the upper one, but every row is
      filled from the left edge to the right edge, so an inverted row is
      empty. */
  method LowerHalf(w0: Walk, left: EdgeStep, rdx: real, col: ColumnStep, yEnd: real,
                   data: Option<seq<Rgb>>, painter: Painter)
    returns (w: Walk)
    requires Sampled(Rows(w0, left, rdx, col, yEnd, false), data)
    modifies painter
    ensures w == RowsEnd(w0, left, rdx, yEnd)
    ensures painter.drawn == old(painter.drawn) + Render(Rows(w0, left, rdx, col, yEnd, false), data)
  {
    ghost var all := Rows(w0, left, rdx, col, yEnd, false);
    w := w0;
    while w.y < yEnd
      invariant Sampled(Rows(w, left, rdx, col, yEnd, false), data)
      invariant painter.drawn + Render(Rows(w, left, rdx, col, yEnd, false), data)
        == old(painter.drawn) + Render(all, data)
      invariant RowsEnd(w0, left, rdx, yEnd) == RowsEnd(w, left, rdx, yEnd)
      decreases Ceil(yEnd - w.y)
    {
      RowsStepRender(w, left, rdx, col, yEnd, false, data);
      w := LowerRow(w, left, rdx, col, data, painter);
    }
  }

  /** One pass of the lower-half loop body, main.cpp:146-163: both edges and
      the left-edge values advance, then the row is filled from the left
      edge to the right edge. */
  method LowerRow(w: Walk, left: EdgeStep, rdx: real, col: ColumnStep,
                  data: Option<seq<Rgb>>, painter: Painter)
    returns (n: Walk)
    requires Sampled(RowSpan(Trunc(w.y), Advance(w, left, rdx), col, false), data)
    modifies painter
    ensures n == Advance(w, left, rdx)
    ensures painter.drawn == old(painter.drawn) + Render(RowSpan(Trunc(w.y), n, col, false), data)
  {
    var y, xLeft, xRight, zp, up, vp := w.y, w.xl, w.xr, w.zp, w.up, w.vp;
    xLeft := xLeft + left.dx;
    xRight := xRight + rdx;
    var xEnd := Ceil(xRight);
    zp := zp + left.dz;
    up := up + left.du;
    vp := vp + left.dv;
    FillSpan(Ceil(xLeft), xEnd, Trunc(y), zp, up, vp, col, data, painter);
    y := y + 1.0;
    n := Walk(y, xLeft, xRight, zp, up, vp);
  }
}
