/** The demo scene: two textured triangles sharing an edge, a texture drawn
    once at start-up, and a timer that on every tick turns both triangles
    about the origin and draws them centred in the window. */
module Scene {
  import opened Painting
  import opened Textures
  import opened Rasterizer

  /** The first triangle, as placed in the scene before any turn. */
  const A: Vertex := Vertex(40.0, 10.0, 0.0, 0.0, 0.0)
  const B: Vertex := Vertex(290.0, 220.0, 0.0, 1.0, 1.0)
  const C: Vertex := Vertex(80.0, 280.0, 0.0, 0.0, 1.0)

  /** The second triangle; its first two corners coincide with A and B. */
  const D: Vertex := Vertex(40.0, 10.0, 0.0, 0.0, 0.0)
  const E: Vertex := Vertex(290.0, 220.0, 0.0, 1.0, 1.0)
  const F: Vertex := Vertex(270.0, -10.0, 0.0, 1.0, 0.0)

  /** The window centre, where the scene's origin is drawn. */
  const CentreX: real := (WindowWidth / 2) as real
  const CentreY: real := (WindowHeight / 2) as real

  /** A vertex turned about the origin by the angle whose cosine is c and
      whose sine is s, then moved to the window centre. Only the position
      changes. */
  function Rotate(p: Vertex, c: real, s: real): (r: Vertex)
    ensures r.z == p.z && r.u == p.u && r.v == p.v
  {
    p.(x := CentreX + p.x * c - p.y * s, y := CentreY + p.x * s + p.y * c)
  }

  /** The inverse transform: back from the window centre, then turned by the
      opposite angle. */
  function Unrotate(q: Vertex, c: real, s: real): Vertex
  {
    var dx, dy := q.x - CentreX, q.y - CentreY;
    q.(x := dx * c + dy * s, y := dy * c - dx * s)
  }

  /** For a genuine angle (c * c + s * s == 1), turning back undoes the
      per-frame transform, so no two vertices land on the same screen
      position. */
  lemma RotateRoundTrip(p: Vertex, c: real, s: real)
    requires c * c + s * s == 1.0
    ensures Unrotate(Rotate(p, c, s), c, s) == p
  {
    var q := Rotate(p, c, s);
    var dx, dy := q.x - CentreX, q.y - CentreY;
    assert dx == p.x * c - p.y * s && dy == p.x * s + p.y * c;
    calc {
      dx * c + dy * s;
      (p.x * c - p.y * s) * c + (p.x * s + p.y * c) * s;
      p.x * (c * c + s * s);
      p.x;
    }
    calc {
      dy * c - dx * s;
      (p.x * s + p.y * c) * c - (p.x * c - p.y * s) * s;
      p.y * (c * c + s * s);
      p.y;
    }
  }

  /** Turning the offset (dx, dy) scales its squared length by c * c + s * s. */
  lemma TurnedLength(dx: real, dy: real, c: real, s: real)
    ensures (dx * c - dy * s) * (dx * c - dy * s) + (dx * s + dy * c) * (dx * s + dy * c)
      == (dx * dx + dy * dy) * (c * c + s * s)
  {
  }

  /** For a genuine angle, a vertex keeps its distance from the origin: it
      ends up as far from the window centre. */
  lemma RotationKeepsRadius(p: Vertex, c: real, s: real)
    requires c * c + s * s == 1.0
    ensures var r := Rotate(p, c, s);
      (r.x - CentreX) * (r.x - CentreX) + (r.y - CentreY) * (r.y - CentreY) == p.x * p.x + p.y * p.y
  {
    TurnedLength(p.x, p.y, c, s);
  }

  /** For a genuine angle, the transform is rigid: two vertices keep their
      distance, so each triangle keeps its shape from frame to frame. */
  lemma RotationKeepsDistance(p: Vertex, q: Vertex, c: real, s: real)
    requires c * c + s * s == 1.0
    ensures var (rp, rq) := (Rotate(p, c, s), Rotate(q, c, s));
      (rp.x - rq.x) * (rp.x - rq.x) + (rp.y - rq.y) * (rp.y - rq.y)
        == (p.x - q.x) * (p.x - q.x) + (p.y - q.y) * (p.y - q.y)
  {
    var rp, rq := Rotate(p, c, s), Rotate(q, c, s);
    var dx, dy := p.x - q.x, p.y - q.y;
    assert dx * c == p.x * c - q.x * c && dy * s == p.y * s - q.y * s;
    assert dx * s == p.x * s - q.x * s && dy * c == p.y * c - q.y * c;
    assert rp.x - rq.x == dx * c - dy * s && rp.y - rq.y == dx * s + dy * c;
    TurnedLength(dx, dy, c, s);
  }

  /** What the timer callback works on: the two triangles, which it only
      reads, and the frame counter, which it advances after each frame. */
  class Animation {
    const a: Vertex
    const b: Vertex
    const c: Vertex
    const d: Vertex
    const e: Vertex
    const f: Vertex
    var step: int

    /** The scene as set up before the timer starts: the two triangles in
        their initial places and the counter at zero. */
    constructor ()
      ensures a == A && b == B && c == C && d == D && e == E && f == F
      ensures step == 0
    {
      a, b, c, d, e, f := A, B, C, D, E, F;
      step := 0;
    }

    /** One timer tick: transformed copies of both triangles, turned by the
        angle with cosine cos and sine sin, are drawn, first a b c, then
        d e f; the triangles themselves stay as they are and the counter
        moves on by one. */
    method Tick(cos: real, sin: real, texture: Texture, painter: Painter)
      requires Drawable(Rotate(a, cos, sin), Rotate(b, cos, sin), Rotate(c, cos, sin), texture.data, texture.width, texture.height)
      requires Drawable(Rotate(d, cos, sin), Rotate(e, cos, sin), Rotate(f, cos, sin), texture.data, texture.width, texture.height)
      modifies this, painter
      ensures step == old(step) + 1
      ensures painter.drawn == old(painter.drawn)
        + Render(Fragments(Rotate(a, cos, sin), Rotate(b, cos, sin), Rotate(c, cos, sin), texture.width, texture.height), texture.data)
        + Render(Fragments(Rotate(d, cos, sin), Rotate(e, cos, sin), Rotate(f, cos, sin), texture.width, texture.height), texture.data)
    {
      var aPrim, bPrim, cPrim := Rotate(a, cos, sin), Rotate(b, cos, sin), Rotate(c, cos, sin);
      var dPrim, ePrim, fPrim := Rotate(d, cos, sin), Rotate(e, cos, sin), Rotate(f, cos, sin);
      DrawTriangle(aPrim, bPrim, cPrim, texture, painter);
      DrawTriangle(dPrim, ePrim, fPrim, texture, painter);
      step := step + 1;
    }
  }

  /** Start-up: a fresh texture is loaded from the bitmap loader's results
      and, only when the load produced pixels, drawn once; a failed load
      leaves the texture empty and draws nothing. */
  method Startup(painter: Painter, loaded: Option<seq<Rgb>>, loadedWidth: int, loadedHeight: int)
    returns (texture: Texture)
    requires loaded.Some? && loadedWidth > 0 && loadedHeight > 0 ==> loadedHeight * loadedWidth <= |loaded.value|
    modifies painter
    ensures fresh(texture)
    ensures texture.data == loaded && texture.width == loadedWidth && texture.height == loadedHeight
    ensures loaded.None? ==> painter.drawn == old(painter.drawn)
    ensures loaded.Some? ==> painter.drawn == old(painter.drawn) + Image(loaded.value, loadedWidth, loadedHeight)
  {
    texture := new Texture();
    var ok := texture.LoadFromBitmap(loaded, loadedWidth, loadedHeight);
    if ok != 0 {
      texture.Draw(painter);
    }
  }
}
