/** Conversion of the renderer's premultiplied RGBA samples into the straight
    RGBA buffer handed to the screen. */
module Pixels {

  type byte = x: int | 0 <= x < 256

  /** One colour channel `c` of a pixel with alpha `a`, un-premultiplied as
      `c * 255 / a` in unsigned arithmetic and then stored into a byte, which
      keeps the low eight bits. A transparent pixel gives 0. */
  function Unpremultiply(c: byte, a: byte): (v: byte)
    ensures a == 0 ==> v == 0
    ensures 0 < a && c <= a ==> v == c * 255 / a
  {
    if a == 0 then 0
    else
      // Both branches compute the same byte; the first only hosts the
      // proof that for `c <= a` the quotient fits in a byte.
      if c <= a then QuotientAtMost255(c * 255, a); QuotientBounds(c * 255, a); (c * 255 / a) % 256
      else (c * 255 / a) % 256
  }

  /** Dividing a numerator of at most `255 * a` by `a` gives at most 255. */
  lemma QuotientAtMost255(n: int, a: int)
    requires a > 0 && 0 <= n <= 255 * a
    ensures n / a <= 255
  {
  }

  /** Euclidean division of a non-negative numerator: the quotient is
      non-negative and `q * a <= n < q * a + a`. */
  lemma QuotientBounds(n: int, a: int)
    requires a > 0 && n >= 0
    ensures n / a >= 0 && (n / a) * a <= n < (n / a) * a + a
  {
  }

  /** For a premultiplied channel (`c <= a`) the byte store loses nothing:
      the result is the largest `v` with `v * a <= c * 255`. */
  lemma UnpremultiplyInRange(c: byte, a: byte)
    requires 0 < a && c <= a
    ensures Unpremultiply(c, a) == c * 255 / a
    ensures Unpremultiply(c, a) * a <= c * 255 < (Unpremultiply(c, a) + 1) * a
  {
    var n := c * 255;
    var q := n / a;
    QuotientAtMost255(n, a);
    QuotientBounds(n, a);
    assert (q + 1) * a == q * a + a;
    assert Unpremultiply(c, a) == q % 256 == q;
  }

  /** Byte `i` of the output for the samples `s` (four bytes per pixel,
      alpha last): the alpha byte is copied, the colour bytes are
      un-premultiplied by their pixel's alpha. */
  function UnpremultipliedAt(s: seq<byte>, i: nat): (v: byte)
    requires |s| % 4 == 0 && i < |s|
    ensures i % 4 == 3 ==> v == s[i]
    ensures s[i / 4 * 4 + 3] == 0 ==> v == 0
    ensures i % 4 != 3 && 0 < s[i / 4 * 4 + 3] && s[i] <= s[i / 4 * 4 + 3] ==>
      v == s[i] as int * 255 / s[i / 4 * 4 + 3] as int
  {
    var alpha := s[i / 4 * 4 + 3];
    if i % 4 == 3 then alpha else Unpremultiply(s[i], alpha)
  }

  /** Pixel `k` of the output keeps the alpha of pixel `k` of the input. */
  lemma {:induction false} AlphaPreserved(s: seq<byte>, k: nat)
    requires |s| % 4 == 0 && 4 * k < |s|
    ensures UnpremultipliedAt(s, 4 * k + 3) == s[4 * k + 3]
  {
    assert (4 * k + 3) / 4 == k && (4 * k + 3) % 4 == 3;
  }

  /** A fully transparent input pixel becomes four zero bytes. */
  lemma {:induction false} TransparentPixel(s: seq<byte>, k: nat, j: nat)
    requires |s| % 4 == 0 && 4 * k < |s| && j < 4
    requires s[4 * k + 3] == 0
    ensures UnpremultipliedAt(s, 4 * k + j) == 0
  {
    assert (4 * k + j) / 4 == k;
  }

  /** A colour byte of a visible premultiplied pixel is `c * 255 / a`. */
  lemma {:induction false} ColourChannel(s: seq<byte>, k: nat, j: nat)
    requires |s| % 4 == 0 && 4 * k < |s| && j < 3
    requires s[4 * k + 3] != 0 && s[4 * k + j] <= s[4 * k + 3]
    ensures UnpremultipliedAt(s, 4 * k + j) == (s[4 * k + j] as int) * 255 / (s[4 * k + 3] as int)
  {
    assert (4 * k + j) / 4 == k && (4 * k + j) % 4 == j;
    UnpremultiplyInRange(s[4 * k + j], s[4 * k + 3]);
  }

  /** The number of pixels in `rows` rows of `w` pixels, counted row by row
      as the conversion loop does. */
  function Rows(rows: nat, w: nat): nat {
    if rows == 0 then 0 else Rows(rows - 1, w) + w
  }

  /** Counting row by row gives the area. */
  lemma {:induction false} RowsIsProduct(rows: nat, w: nat)
    ensures Rows(rows, w) == w * rows
  {
    if rows > 0 {
      RowsIsProduct(rows - 1, w);
      assert w * (rows - 1) + w == w * rows;
    }
  }

  /** More rows hold at least as many pixels. */
  lemma {:induction false} RowsMonotone(a: nat, b: nat, w: nat)
    requires a <= b
    ensures Rows(a, w) <= Rows(b, w)
    decreases b
  {
    if a < b {
      RowsMonotone(a, b - 1, w);
    }
  }

  /** The four bytes from a pixel boundary `p` all belong to the pixel at `p`. */
  lemma PixelOffsets(p: nat)
    requires p % 4 == 0
    ensures p / 4 * 4 == p && (p + 1) / 4 * 4 == p && (p + 2) / 4 * 4 == p && (p + 3) / 4 * 4 == p
    ensures p % 4 == 0 && (p + 1) % 4 == 1 && (p + 2) % 4 == 2 && (p + 3) % 4 == 3
  {
  }

  /** Converts the pixel at byte offset `p`, extending the converted prefix
      of `pixels` by four bytes. */
  method ConvertPixel(samples: seq<byte>, pixels: array<byte>, p: nat)
    requires |samples| == pixels.Length && |samples| % 4 == 0
    requires p % 4 == 0 && p + 4 <= pixels.Length
    requires forall i :: 0 <= i < p ==> pixels[i] == UnpremultipliedAt(samples, i)
    modifies pixels
    ensures forall i :: 0 <= i < p + 4 ==> pixels[i] == UnpremultipliedAt(samples, i)
  {
    PixelOffsets(p);
    var a := samples[p + 3];
    if a != 0 {
      pixels[p] := Unpremultiply(samples[p], a);
      pixels[p + 1] := Unpremultiply(samples[p + 1], a);
      pixels[p + 2] := Unpremultiply(samples[p + 2], a);
      pixels[p + 3] := a;
    } else {
      pixels[p], pixels[p + 1], pixels[p + 2], pixels[p + 3] := 0, 0, 0, 0;
    }
    assert pixels[p] == UnpremultipliedAt(samples, p);
    assert pixels[p + 1] == UnpremultipliedAt(samples, p + 1);
    assert pixels[p + 2] == UnpremultipliedAt(samples, p + 2);
    assert pixels[p + 3] == UnpremultipliedAt(samples, p + 3);
  }

  /** Builds the `w * h * 4` output buffer from the `w * h` pixels of
      `samples`, walking rows and columns with countdown loops. The output
      offset and the sample offset move together, four bytes per pixel, so
      one offset `p` stands for both. */
  method GetBackingStore(samples: seq<byte>, w: nat, h: nat) returns (pixels: array<byte>)
    requires |samples| == w * h * 4
    ensures fresh(pixels) && pixels.Length == w * h * 4
    ensures forall i :: 0 <= i < pixels.Length ==> pixels[i] == UnpremultipliedAt(samples, i)
  {
    RowsIsProduct(h, w);
    ghost var total := Rows(h, w);
    pixels := new byte[w * h * 4];
    assert pixels.Length == 4 * total;
    var p := 0;
    ghost var done := 0;
    var y := h;
    while y != 0
      invariant 0 <= y <= h
      invariant done == Rows(h - y, w) && p == 4 * done && done <= total
      invariant forall i :: 0 <= i < p ==> pixels[i] == UnpremultipliedAt(samples, i)
    {
      RowsMonotone(h - y + 1, h, w);
      ghost var rowEnd := Rows(h - y + 1, w);
      assert rowEnd == done + w && rowEnd <= total;
      var x := w;
      while x != 0
        invariant 0 <= x <= w
        invariant done + x == rowEnd && p == 4 * done
        invariant forall i :: 0 <= i < p ==> pixels[i] == UnpremultipliedAt(samples, i)
      {
        ConvertPixel(samples, pixels, p);
        p, done := p + 4, done + 1;
        x := x - 1;
      }
      y := y - 1;
    }
  }
}
