/** Dirty-region bookkeeping: the list of rectangles of the backing store
    that still have to be repainted. */
module Regions {

  /** A rectangle of pixels `[x1, x2) x [y1, y2)`. */
  datatype Rect = Rect(x1: int, y1: int, x2: int, y2: int)

  predicate Contains(r: Rect, x: int, y: int) {
    r.x1 <= x < r.x2 && r.y1 <= y < r.y2
  }

  /** The point `(x, y)` lies in one of the rectangles of `rs`. */
  predicate Covers(rs: seq<Rect>, x: int, y: int) {
    exists i :: 0 <= i < |rs| && Contains(rs[i], x, y)
  }

  /** `rs | rectangles (r)`: the region list extended by `r`. */
  function AddRegion(rs: seq<Rect>, r: Rect): (u: seq<Rect>)
    ensures u != []
    ensures r in u
    ensures forall q :: q in rs ==> q in u
  {
    rs + [r]
  }

  /** Adding a rectangle covers exactly the old points and those of `r`. */
  lemma AddRegionCovers(rs: seq<Rect>, r: Rect, x: int, y: int)
    ensures Covers(AddRegion(rs, r), x, y) <==> Covers(rs, x, y) || Contains(r, x, y)
  {
    var u := AddRegion(rs, r);
    if Covers(u, x, y) {
      var i :| 0 <= i < |u| && Contains(u[i], x, y);
      if i < |rs| { assert Contains(rs[i], x, y); }
    }
    if Covers(rs, x, y) {
      var i :| 0 <= i < |rs| && Contains(rs[i], x, y);
      assert u[i] == rs[i];
    }
    if Contains(r, x, y) {
      assert u[|rs|] == r;
    }
  }

  /** The strips newly exposed when the backing store grows from
      `oldW x oldH` to `newW x newH`: one to the right if it got wider, one at
      the bottom if it got taller. */
  function ExposedStrips(oldW: int, oldH: int, newW: int, newH: int): (strips: seq<Rect>)
    ensures |strips| == (if newW > oldW then 1 else 0) + (if newH > oldH then 1 else 0)
    ensures newW > oldW ==> Rect(oldW, 0, newW, newH) in strips
    ensures newH > oldH ==> Rect(0, oldH, newW, newH) in strips
  {
    var wider := if newW > oldW then [Rect(oldW, 0, newW, newH)] else [];
    var taller := if newH > oldH then [Rect(0, oldH, newW, newH)] else [];
    wider + taller
  }

  /** The strips cover exactly the pixels of the new backing store that the
      old one did not have: nothing exposed is left unpainted and nothing
      already painted is invalidated. */
  lemma ExposedStripsCoverNewArea(oldW: int, oldH: int, newW: int, newH: int, x: int, y: int)
    requires 0 <= oldW && 0 <= oldH
    ensures Covers(ExposedStrips(oldW, oldH, newW, newH), x, y)
        <==> (0 <= x < newW && 0 <= y < newH && !(x < oldW && y < oldH))
  {
    var strips := ExposedStrips(oldW, oldH, newW, newH);
    var wider := Rect(oldW, 0, newW, newH);
    var taller := Rect(0, oldH, newW, newH);
    if 0 <= x < newW && 0 <= y < newH && !(x < oldW && y < oldH) {
      if x >= oldW {
        assert strips[0] == wider && Contains(wider, x, y);
      } else {
        assert strips[|strips| - 1] == taller && Contains(taller, x, y);
      }
    }
    if Covers(strips, x, y) {
      var i :| 0 <= i < |strips| && Contains(strips[i], x, y);
      assert strips[i] == wider || strips[i] == taller;
    }
  }

  /** The rectangles the drain loop keeps: walking `rs` front to back, the
      `i`-th rectangle is kept when the `i`-th interrupt check fired, and
      each kept one is pushed on the front of the result. */
  function Retained(rs: seq<Rect>, fired: nat -> bool): (kept: seq<Rect>)
    ensures |kept| <= |rs|
    ensures forall r :: r in kept ==> r in rs
    decreases |rs|
  {
    if |rs| == 0 then []
    else
      var last := |rs| - 1;
      (if fired(last) then [rs[last]] else []) + Retained(rs[..last], fired)
  }

  /** A rectangle survives the drain if and only if it was being repainted
      when an interrupt check fired. */
  lemma {:induction false} RetainedMembers(rs: seq<Rect>, fired: nat -> bool, r: Rect)
    ensures r in Retained(rs, fired) <==> exists i :: 0 <= i < |rs| && fired(i) && rs[i] == r
    decreases |rs|
  {
    if |rs| > 0 {
      var last := |rs| - 1;
      var front := rs[..last];
      RetainedMembers(front, fired, r);
      if exists i :: 0 <= i < |rs| && fired(i) && rs[i] == r {
        var i :| 0 <= i < |rs| && fired(i) && rs[i] == r;
        if i < last { assert front[i] == r; }
      }
      if exists i :: 0 <= i < |front| && fired(i) && front[i] == r {
        var i :| 0 <= i < |front| && fired(i) && front[i] == r;
        assert rs[i] == r;
      }
    }
  }

  /** The drain keeps nothing when no interrupt check fired. */
  lemma {:induction false} RetainedNoneFired(rs: seq<Rect>, fired: nat -> bool)
    ensures (forall i :: 0 <= i < |rs| ==> !fired(i)) ==> Retained(rs, fired) == []
    decreases |rs|
  {
    if |rs| > 0 {
      RetainedNoneFired(rs[..|rs| - 1], fired);
    }
  }
}
