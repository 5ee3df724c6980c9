/** The drawing surface the renderer writes to: a packed 32-bit colour value,
    one plotted point, and the painter that records every point it is asked
    to plot, in call order. */
module Painting {

  /** A packed 32-bit colour word (QRgb is an unsigned 32-bit integer).
      The painter plots it opaque: its top (alpha) byte is not shown. */
  newtype Rgb = c: int | 0 <= c < 0x1_0000_0000

  /** One point plotted at integer coordinates in one colour. */
  datatype Pixel = Pixel(x: int, y: int, colour: Rgb)

  /** The painter is an append-only sink: setting the pen and drawing a point
      adds one Pixel to the end of `drawn`. */
  class Painter {
    var drawn: seq<Pixel>

    constructor ()
      ensures drawn == []
    {
      drawn := [];
    }

    /** Sets the pen to `colour` and draws the point (x, y). */
    method DrawPoint(x: int, y: int, colour: Rgb)
      modifies this
      ensures drawn == old(drawn) + [Pixel(x, y, colour)]
    {
      drawn := drawn + [Pixel(x, y, colour)];
    }
  }
}
