/** Integer helpers shared by the window model: the editor's SI unit
    (1/PIXEL of a screen pixel), C++ truncating division, and the rule that
    keeps a window on screen. */
module Geometry {

  /** Number of SI units in one screen pixel. */
  const PIXEL: int := 256

  /** C++ integer division `a / b` for a positive divisor: it truncates toward
      zero, whereas Dafny's `/` on `int` rounds toward minus infinity. */
  function TruncDiv(a: int, b: int): (q: int)
    requires b > 0
    ensures a >= 0 ==> q >= 0
    ensures a <= 0 ==> q <= 0
  {
    if a >= 0 then a / b else -((-a) / b)
  }

  /** The quotient keeps the sign of `a` and its magnitude is rounded down,
      so the product `q * b` lies between zero and `a`. */
  lemma TruncDivBounds(a: int, b: int)
    requires b > 0
    ensures var q := TruncDiv(a, b);
      && (a >= 0 ==> 0 <= q && q * b <= a < q * b + b)
      && (a < 0 ==> q <= 0 && q * b - b < a <= q * b)
  {
  }

  /** Truncation is symmetric around zero, so `-y / PIXEL` in the source
      (which parses as `(-y) / PIXEL`) is also `-(y / PIXEL)`. */
  lemma TruncDivNegate(a: int, b: int)
    requires b > 0
    ensures TruncDiv(-a, b) == -TruncDiv(a, b)
  {
    if a < 0 {
      assert -a > 0;
      assert TruncDiv(-a, b) == (-a) / b;
      assert TruncDiv(a, b) == -((-a) / b);
    }
  }

  /** The clamp applied to a window coordinate: first pull the far edge back
      onto the screen, then make the near edge non-negative. */
  function Clamp(x: int, size: int, screen: int): (r: int)
    ensures r >= 0
    ensures size <= screen ==> r + size <= screen
    ensures 0 <= x && x + size <= screen ==> r == x
    ensures size <= screen && x + size > screen ==> r == screen - size
    ensures size > screen ==> r == 0
    ensures r == 0 || r <= x
  {
    var pulled := if x + size > screen then screen - size else x;
    if pulled < 0 then 0 else pulled
  }

  /** Clamping a coordinate that is already valid is the identity, so
      clamping twice is the same as clamping once. */
  lemma ClampIdempotent(x: int, size: int, screen: int)
    ensures Clamp(Clamp(x, size, screen), size, screen) == Clamp(x, size, screen)
  {
  }
}
