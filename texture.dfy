/** A texture: a row-major buffer of colour words with its width and height,
    drawn point by point onto a painter, and loaded from a bitmap file by an
    external loader. */
module Textures {
  import opened Painting

  /** A value that may be absent, as a buffer address may be null. */
  datatype Option<T> = None | Some(value: T)

  /** The first `n` points of row `y` of a `w`-wide image: point x of the
      row shows `data[x + y * w]`. */
  function RowUpTo(data: seq<Rgb>, w: int, y: int, n: nat): seq<Pixel>
    requires n == 0 || (0 <= y && n <= w && (y + 1) * w <= |data|)
  {
    if n == 0 then []
    else RowUpTo(data, w, y, n - 1) + [Pixel(n - 1, y, data[n - 1 + y * w])]
  }

  /** The points of rows 0 .. h-1 of a `w`-wide image, top row first and
      each row from left to right; a non-positive width gives empty rows. */
  function Image(data: seq<Rgb>, w: int, h: int): seq<Pixel>
    requires w <= 0 || h <= 0 || h * w <= |data|
    decreases h
  {
    if h <= 0 then []
    else
      MulSucc(h - 1, w);
      Image(data, w, h - 1) + RowUpTo(data, w, h - 1, if w > 0 then w else 0)
  }

  class Texture {
    var data: Option<seq<Rgb>>
    var width: int
    var height: int

    /** A fresh texture is empty: no pixels and zero size. */
    constructor ()
      ensures width == 0 && height == 0 && data == None
    {
      width := 0;
      height := 0;
      data := None;
    }

    /** The pixel buffer, when present, holds every point of the image. */
    predicate Covers()
      reads this
    {
      data.Some? && width > 0 && height > 0 ==> height * width <= |data.value|
    }

    /** Draws every point of the texture at its own coordinates, rows in
        order; a texture without pixels draws nothing. */
    method Draw(painter: Painter)
      requires Covers()
      modifies painter
      ensures data.None? ==> painter.drawn == old(painter.drawn)
      ensures data.Some? ==> painter.drawn == old(painter.drawn) + Image(data.value, width, height)
    {
      if data.None? {
        return;
      }
      var pixels := data.value;
      var offset := 0;
      var y := 0;
      while y < height
        invariant 0 <= y && (y <= height || y == 0)
        invariant offset == y * width
        invariant width <= 0 || y <= 0 || y * width <= |pixels|
        invariant painter.drawn == old(painter.drawn) + Image(pixels, width, y)
      {
        MulSucc(y, width);
        if width > 0 {
          MulMonotone(y + 1, height, width);
        }
        DrawRow(pixels, y, offset, painter);
        offset := offset + width;
        y := y + 1;
      }
    }

    /** The inner loop of `draw`: the points of row y from left to right,
        in the colours that start at `offset` in the buffer. */
    method DrawRow(pixels: seq<Rgb>, y: int, offset: int, painter: Painter)
      requires 0 <= y && offset == y * width
      requires width > 0 ==> (y + 1) * width <= |pixels|
      modifies painter
      ensures painter.drawn == old(painter.drawn) + RowUpTo(pixels, width, y, if width > 0 then width else 0)
    {
      MulSucc(y, width);
      var x := 0;
      while x < width
        invariant 0 <= x && (x <= width || x == 0)
        invariant painter.drawn == old(painter.drawn) + RowUpTo(pixels, width, y, x)
      {
        painter.DrawPoint(x, y, pixels[x + offset]);
        x := x + 1;
      }
    }

    /** Stores what the bitmap loader produced and reports whether it
        produced a pixel buffer. The loader writes the width and the height
        through references and returns the buffer, or null on failure;
        `loaded`, `loadedWidth` and `loadedHeight` are those three results. */
    method LoadFromBitmap(loaded: Option<seq<Rgb>>, loadedWidth: int, loadedHeight: int) returns (ok: int)
      modifies this
      ensures data == loaded && width == loadedWidth && height == loadedHeight
      ensures ok == 1 <==> loaded.Some?
      ensures ok == 0 <==> loaded.None?
    {
      data, width, height := loaded, loadedWidth, loadedHeight;
      if data.Some? {
        return 1;
      }
      return 0;
    }
  }

  lemma MulMonotone(a: int, b: int, c: int)
    requires a <= b && 0 <= c
    ensures a * c <= b * c
  {
  }

  lemma MulSucc(a: int, b: int)
    ensures (a + 1) * b == a * b + b
  {
  }

  lemma {:induction false} RowUpToLength(data: seq<Rgb>, w: int, y: int, n: nat)
    requires n == 0 || (0 <= y && n <= w && (y + 1) * w <= |data|)
    ensures |RowUpTo(data, w, y, n)| == n
  {
    if n > 0 {
      RowUpToLength(data, w, y, n - 1);
    }
  }

  lemma {:induction false} RowUpToAt(data: seq<Rgb>, w: int, y: int, n: nat, x: int)
    requires n == 0 || (0 <= y && n <= w && (y + 1) * w <= |data|)
    requires 0 <= x < n
    ensures |RowUpTo(data, w, y, n)| == n
    ensures RowUpTo(data, w, y, n)[x] == Pixel(x, y, data[x + y * w])
  {
    RowUpToLength(data, w, y, n);
    if x < n - 1 {
      RowUpToAt(data, w, y, n - 1, x);
    }
  }

  /** Drawing a w-by-h texture plots exactly w * h points. */
  lemma {:induction false} ImageLength(data: seq<Rgb>, w: int, h: int)
    requires w <= 0 || h <= 0 || h * w <= |data|
    ensures |Image(data, w, h)| == if w > 0 && h > 0 then h * w else 0
    decreases h
  {
    if h > 0 {
      MulSucc(h - 1, w);
      ImageLength(data, w, h - 1);
      RowUpToLength(data, w, h - 1, if w > 0 then w else 0);
    }
  }

  /** The point (x, y) is plotted as number y * w + x, in colour
      data[x + y * w]: rows are drawn in order and a row starts at offset
      y * w of the buffer. */
  lemma {:induction false} ImageAt(data: seq<Rgb>, w: int, h: int, x: int, y: int)
    requires 0 <= x < w && 0 <= y < h && h * w <= |data|
    ensures y * w + x < |Image(data, w, h)|
    ensures Image(data, w, h)[y * w + x] == Pixel(x, y, data[x + y * w])
    decreases h
  {
    MulSucc(h - 1, w);
    ImageLength(data, w, h - 1);
    ImageLength(data, w, h);
    if y == h - 1 {
      RowUpToAt(data, w, h - 1, w, x);
      assert |Image(data, w, h - 1)| == y * w;
    } else {
      ImageAt(data, w, h - 1, x, y);
      MulMonotone(y + 1, h - 1, w);
      MulSucc(y, w);
    }
  }

  /** Point number i lies inside the texture, at column i % w of row i / w,
      and shows data[i]. */
  lemma {:induction false} ImagePosition(data: seq<Rgb>, w: int, h: int, i: int)
    requires w <= 0 || h <= 0 || h * w <= |data|
    requires 0 <= i < |Image(data, w, h)|
    ensures var p := Image(data, w, h)[i];
      0 <= p.x < w && 0 <= p.y < h && i == p.y * w + p.x && i < |data| && p.colour == data[i]
    decreases h
  {
    MulSucc(h - 1, w);
    ImageLength(data, w, h - 1);
    if i < |Image(data, w, h - 1)| {
      ImagePosition(data, w, h - 1, i);
    } else {
      var x := i - |Image(data, w, h - 1)|;
      RowUpToLength(data, w, h - 1, if w > 0 then w else 0);
      RowUpToAt(data, w, h - 1, w, x);
    }
  }

  /** Every point of the texture's rectangle is plotted exactly once. */
  lemma ImageCoversOnce(data: seq<Rgb>, w: int, h: int, x: int, y: int)
    requires 0 <= x < w && 0 <= y < h && h * w <= |data|
    ensures exists i :: 0 <= i < |Image(data, w, h)| && Image(data, w, h)[i].x == x && Image(data, w, h)[i].y == y
    ensures forall i :: 0 <= i < |Image(data, w, h)| && Image(data, w, h)[i].x == x && Image(data, w, h)[i].y == y ==> i == y * w + x
  {
    ImageAt(data, w, h, x, y);
    forall i | 0 <= i < |Image(data, w, h)| && Image(data, w, h)[i].x == x && Image(data, w, h)[i].y == y
      ensures i == y * w + x
    {
      ImagePosition(data, w, h, i);
    }
  }
}
