/** The viewport chosen when the drawing surface changes size: the centred
    half-size rectangle of the surface, computed with 32-bit integer division. */
module Surface {

  datatype Viewport = Viewport(x: int, y: int, width: int, height: int)

  /** Integer division as the source language does it on Int: the quotient is
      truncated toward zero (Dafny's own `/` is Euclidean). */
  function TruncDiv(a: int, d: int): (q: int)
    requires d > 0
    ensures a >= 0 ==> 0 <= a - d * q < d
    ensures a < 0 ==> -d < a - d * q <= 0
  {
    if a >= 0 then a / d else -((-a) / d)
  }

  /** The viewport for a surface of `width` x `height` pixels: origin at a
      quarter of each dimension, size half of each dimension. */
  function CenteredViewport(width: int, height: int): (v: Viewport)
    ensures width >= 0 ==> 0 <= v.x && v.x + v.width <= width
    ensures width >= 0 ==> v.x <= width - (v.x + v.width) <= v.x + 2
    ensures width >= 0 ==> 2 * v.width <= width < 2 * v.width + 2
    ensures height >= 0 ==> 0 <= v.y && v.y + v.height <= height
    ensures height >= 0 ==> v.y <= height - (v.y + v.height) <= v.y + 2
    ensures height >= 0 ==> 2 * v.height <= height < 2 * v.height + 2
  {
    Viewport(TruncDiv(width, 4), TruncDiv(height, 4), TruncDiv(width, 2), TruncDiv(height, 2))
  }

  /** An 800 x 600 surface gets the viewport at (200, 150) of size 400 x 300. */
  lemma CenteredViewportExample()
    ensures CenteredViewport(800, 600) == Viewport(200, 150, 400, 300)
  {
  }

  /** A negative dimension divides toward zero, as on the source platform:
      -5 / 4 is -1, where Euclidean division would give -2. */
  lemma TruncDivNegative()
    ensures TruncDiv(-5, 4) == -1 && TruncDiv(-5, 2) == -2
  {
  }
}
