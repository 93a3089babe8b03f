/**
 Cutting an outline down to the part inside a rectangle, one side after another. The cut outline has edges
 along the rectangle's border that the original does not have; for every position it still answers the
 point-in-ring test as the original does, within the rectangle, and never claims anything outside it.
 */
module Clipping {
  import opened Rings
  import opened Seqs

  /** A side of the window: what is at least, or at most, so far east or north. */
  datatype Side = AtLeastX(bound: real) | AtMostX(bound: real) | AtLeastY(bound: real) | AtMostY(bound: real)

  predicate Keeps(s: Side, p: Point)
  {
    match s
    case AtLeastX(b) => p.x >= b
    case AtMostX(b) => p.x <= b
    case AtLeastY(b) => p.y >= b
    case AtMostY(b) => p.y <= b
  }

  /** Outside, or on the border. */
  predicate Beyond(s: Side, p: Point)
  {
    match s
    case AtLeastX(b) => p.x <= b
    case AtMostX(b) => p.x >= b
    case AtLeastY(b) => p.y <= b
    case AtMostY(b) => p.y >= b
  }

  /** How much of the way from `p` to `q` lies before the border. */
  function Fraction(s: Side, p: Point, q: Point): (t: real)
    requires Keeps(s, p) != Keeps(s, q)
  {
    if s.AtLeastX? || s.AtMostX? then (s.bound - p.x) / (q.x - p.x) else (s.bound - p.y) / (q.y - p.y)
  }

  /** `cross`: where the edge from `p` to `q` meets the border. */
  function Cut(s: Side, p: Point, q: Point): (c: Point)
    requires Keeps(s, p) != Keeps(s, q)
  {
    var t := Fraction(s, p, q);
    if s.AtLeastX? || s.AtMostX? then Point(s.bound, p.y + t * (q.y - p.y))
    else Point(p.x + t * (q.x - p.x), s.bound)
  }

  /** What the edge from `p` to `q` adds to the cut ring. */
  function Piece(s: Side, p: Point, q: Point): (out: seq<Point>)
  {
    if Keeps(s, q) then
      if Keeps(s, p) then [q] else [Cut(s, p, q), q]
    else
      if Keeps(s, p) then [Cut(s, p, q)] else []
  }

  function Clip(s: Side, p: Point, pts: seq<Point>): (out: seq<Point>)
    decreases |pts|
  {
    if pts == [] then [] else Piece(s, p, pts[0]) + Clip(s, pts[0], pts[1..])
  }

  function Clipped(s: Side, ring: Ring): (out: Ring)
  {
    if ring == [] then [] else Clip(s, ring[|ring| - 1], ring)
  }

  // --------------------------------------------------- an edge cut in two

  lemma Cancel(s: real, a: real, n: real, d: real)
    requires s != 0.0 && d != 0.0
    ensures s * d != 0.0 && (s * a) * n / (s * d) == a * n / d
  {
    var x := a * n / d;
    assert x * d == a * n;
    assert (s * a) * n == s * (a * n) == s * (x * d) == x * (s * d);
  }

  /** Points on a common line with `q` meet a latitude in the same place. */
  lemma SameLine(lat: real, c: Point, p: Point, q: Point, s: real)
    requires p.y != q.y && c.y != q.y
    requires c.x - q.x == s * (p.x - q.x) && c.y - q.y == s * (p.y - q.y)
    ensures MeetsAt(lat, c, q) == MeetsAt(lat, p, q)
  {
    Cancel(s, p.x - q.x, lat - q.y, p.y - q.y);
  }

  /** `c` divides the edge from `p` to `q`. */
  predicate Divides(c: Point, p: Point, q: Point, t: real)
  {
    0.0 <= t <= 1.0 && c.x - p.x == t * (q.x - p.x) && c.y - p.y == t * (q.y - p.y)
  }

  lemma DividesBetween(c: Point, p: Point, q: Point, t: real)
    requires Divides(c, p, q, t)
    ensures p.x <= c.x <= q.x || q.x <= c.x <= p.x
    ensures p.y <= c.y <= q.y || q.y <= c.y <= p.y
  {
    PartBetween(p.x, q.x, c.x, t);
    PartBetween(p.y, q.y, c.y, t);
  }

  lemma PartOf(a: real, d: real, c: real, t: real)
    requires 0.0 <= t <= 1.0 && c - a == t * d
    ensures a <= c <= a + d || a + d <= c <= a
  {
    Part(d, t);
    assert t * d == d * t;
  }

  lemma PartBetween(a: real, b: real, c: real, t: real)
    requires 0.0 <= t <= 1.0 && c - a == t * (b - a)
    ensures a <= c <= b || b <= c <= a
  {
    PartOf(a, b - a, c, t);
  }

  lemma DividesBack(c: Point, p: Point, q: Point, t: real)
    requires Divides(c, p, q, t)
    ensures Divides(c, q, p, 1.0 - t)
  {
    OneMinus(t, q.x - p.x);
    OneMinus(t, q.y - p.y);
  }

  lemma OneMinus(t: real, a: real)
    ensures (1.0 - t) * (-a) == t * a - a
  {
  }

  /** An edge crosses the ray as often as its two parts together. */
  lemma CrossesDivided(at: Point, c: Point, p: Point, q: Point, t: real)
    requires Divides(c, p, q, t)
    ensures Crosses(at, p, q) == (Crosses(at, p, c) != Crosses(at, c, q))
  {
    DividesBetween(c, p, q, t);
    if Straddles(at.y, p, q) {
      if Straddles(at.y, p, c) {
        SameLine(at.y, c, q, p, t);
        MeetsEitherWay(at.y, p, c);
        MeetsEitherWay(at.y, p, q);
      } else {
        DividesBack(c, p, q, t);
        SameLine(at.y, c, p, q, 1.0 - t);
      }
    }
  }

  /** The cut lies on the edge and on the border. */
  lemma CutDivides(s: Side, p: Point, q: Point)
    requires Keeps(s, p) != Keeps(s, q)
    ensures Divides(Cut(s, p, q), p, q, Fraction(s, p, q))
    ensures Keeps(s, Cut(s, p, q)) && Beyond(s, Cut(s, p, q))
  {
    if s.AtLeastX? || s.AtMostX? {
      Share(s.bound - p.x, q.x - p.x);
    } else {
      Share(s.bound - p.y, q.y - p.y);
    }
  }

  // ------------------------------------------------ crossings beyond the border

  /** A position at which cutting along this side must not be noticed. */
  predicate Sees(s: Side, at: Point)
  {
    match s
    case AtLeastX(b) => at.x >= b
    case AtMostX(b) => at.x < b
    case AtLeastY(b) => at.y >= b
    case AtMostY(b) => at.y < b
  }

  /** Beyond the border only the eastern side is in the way of the ray, and there every straddling edge. */
  predicate Hidden(s: Side, at: Point, p: Point, q: Point)
  {
    s.AtMostX? && Straddles(at.y, p, q)
  }

  lemma CrossesBeyond(s: Side, at: Point, p: Point, q: Point)
    requires Sees(s, at) && Beyond(s, p) && Beyond(s, q)
    ensures Crosses(at, p, q) == Hidden(s, at, p, q)
  {
    if Straddles(at.y, p, q) {
      MeetsBetween(at.y, p, q);
    }
  }

  /** The edge into or out of the window: its part inside, and what is hidden. */
  lemma CrossesBorder(s: Side, at: Point, p: Point, q: Point)
    requires Sees(s, at) && Keeps(s, p) != Keeps(s, q)
    ensures var c := Cut(s, p, q);
            Crosses(at, p, q) == if Keeps(s, p) then Crosses(at, p, c) != Hidden(s, at, c, q)
                                 else Hidden(s, at, p, c) != Crosses(at, c, q)
  {
    var c := Cut(s, p, q);
    CutDivides(s, p, q);
    CrossesDivided(at, c, p, q, Fraction(s, p, q));
    if Keeps(s, p) {
      CrossesBeyond(s, at, c, q);
    } else {
      CrossesBeyond(s, at, p, c);
    }
  }

  // ------------------------------------------------------------ a path cut

  /** Where the cut path stands while the original is at `p`: there too, or somewhere beyond. */
  predicate Anchor(s: Side, p: Point, e: Point)
  {
    if Keeps(s, p) then e == p else Beyond(s, e)
  }

  lemma {:induction false} ClipEnds(s: Side, p: Point, e: Point, pts: seq<Point>)
    requires Anchor(s, p, e)
    ensures Anchor(s, End(p, pts), End(e, Clip(s, p, pts)))
    decreases |pts|
  {
    if pts != [] {
      var q, piece, more := pts[0], Piece(s, p, pts[0]), Clip(s, pts[0], pts[1..]);
      if Keeps(s, p) != Keeps(s, q) {
        CutDivides(s, p, q);
      }
      ClipEnds(s, q, End(e, piece), pts[1..]);
      EndConcat(e, piece, more);
    }
  }

  lemma EndConcat(e: Point, a: seq<Point>, b: seq<Point>)
    ensures End(e, a + b) == End(End(e, a), b)
  {
  }

  /** One edge: the cut path makes the same crossings, up to what is hidden on the way. */
  lemma PieceOdd(s: Side, at: Point, p: Point, e: Point, q: Point)
    requires Sees(s, at) && Anchor(s, p, e)
    ensures var f := End(e, Piece(s, p, q));
            Anchor(s, q, f)
            && Crosses(at, p, q)
               == (Hidden(s, at, p, e) != (Odd(at, e, Piece(s, p, q)) != Hidden(s, at, f, q)))
  {
    if Keeps(s, p) != Keeps(s, q) {
      var c := Cut(s, p, q);
      CutDivides(s, p, q);
      CrossesBorder(s, at, p, q);
      OneEdge(at, e, c);
      if Keeps(s, q) {
        CrossesBeyond(s, at, e, c);
        OneEdge(at, c, q);
        assert [c, q][1..] == [q];
      }
    } else if Keeps(s, q) {
      OneEdge(at, e, q);
    } else {
      CrossesBeyond(s, at, p, q);
    }
  }

  lemma {:induction false} ClipOdd(s: Side, at: Point, p: Point, e: Point, pts: seq<Point>)
    requires Sees(s, at) && Anchor(s, p, e)
    ensures var out := Clip(s, p, pts);
            Odd(at, p, pts) == (Hidden(s, at, p, e) != (Odd(at, e, out) != Hidden(s, at, End(e, out), End(p, pts))))
    decreases |pts|
  {
    if pts != [] {
      var q, piece, more := pts[0], Piece(s, p, pts[0]), Clip(s, pts[0], pts[1..]);
      var f := End(e, piece);
      PieceOdd(s, at, p, e, q);
      ClipOdd(s, at, q, f, pts[1..]);
      OddConcat(at, e, piece, more);
      EndConcat(e, piece, more);
    }
  }

  /** Cutting along one side is not noticed at any position that the side keeps. */
  lemma ClippedInside(s: Side, at: Point, ring: Ring)
    requires Sees(s, at)
    ensures Inside(at, Clipped(s, ring)) == Inside(at, ring)
  {
    if ring != [] {
      var last, out := ring[|ring| - 1], Clipped(s, ring);
      var e := if Keeps(s, last) || out == [] then last else out[|out| - 1];
      ClipEnds(s, last, last, ring);
      ClipOdd(s, at, last, e, ring);
    }
  }

  // ---------------------------------------------------------- the whole window

  predicate AllKept(s: Side, pts: seq<Point>)
  {
    forall p :: p in pts ==> Keeps(s, p)
  }

  /** Everything that is left lies on the kept side, and a side cut before is not undone. */
  lemma {:induction false} ClipKeeps(s: Side, r: Side, p: Point, pts: seq<Point>)
    requires r == s || (Keeps(r, p) && AllKept(r, pts))
    ensures AllKept(r, Clip(s, p, pts))
    decreases |pts|
  {
    if pts != [] {
      var q := pts[0];
      assert q in pts && forall v :: v in pts[1..] ==> v in pts;
      ClipKeeps(s, r, q, pts[1..]);
      if Keeps(s, p) != Keeps(s, q) {
        CutDivides(s, p, q);
        DividesBetween(Cut(s, p, q), p, q, Fraction(s, p, q));
      }
    }
  }

  lemma ClippedKeeps(s: Side, r: Side, ring: Ring)
    requires r == s || AllKept(r, ring)
    ensures AllKept(r, Clipped(s, ring))
  {
    if ring != [] {
      assert ring[|ring| - 1] in ring;
      ClipKeeps(s, r, ring[|ring| - 1], ring);
    }
  }

  function West(b: Box): (s: Side) { AtLeastX(b.minX) }

  function East(b: Box): (s: Side) { AtMostX(b.maxX) }

  function South(b: Box): (s: Side) { AtLeastY(b.minY) }

  function North(b: Box): (s: Side) { AtMostY(b.maxY) }

  /** Cut along all four sides, and closed again. */
  function ClippedToBox(b: Box, ring: Ring): (out: Ring)
  {
    Closed(Clipped(North(b), Clipped(South(b), Clipped(East(b), Clipped(West(b), ring)))))
  }

  function Closed(ring: Ring): (out: Ring)
  {
    if ring != [] && ring[0] != ring[|ring| - 1] then ring + [ring[0]] else ring
  }

  lemma ClippedInBox(b: Box, ring: Ring)
    ensures Boxes(b, ClippedToBox(b, ring))
  {
    var west := Clipped(West(b), ring);
    var east := Clipped(East(b), west);
    var south := Clipped(South(b), east);
    var north := Clipped(North(b), south);
    ClippedKeeps(West(b), West(b), ring);
    ClippedKeeps(East(b), West(b), west);
    ClippedKeeps(East(b), East(b), west);
    ClippedKeeps(South(b), West(b), east);
    ClippedKeeps(South(b), East(b), east);
    ClippedKeeps(South(b), South(b), east);
    ClippedKeeps(North(b), West(b), south);
    ClippedKeeps(North(b), East(b), south);
    ClippedKeeps(North(b), South(b), south);
    ClippedKeeps(North(b), North(b), south);
    forall p | p in north
      ensures InBox(b, p)
    {
      assert Keeps(West(b), p) && Keeps(East(b), p) && Keeps(South(b), p) && Keeps(North(b), p);
    }
  }

  /** On the eastern and the northern border itself, nothing lies in the way of the ray. */
  lemma {:induction false} NothingAhead(at: Point, b: Box, p: Point, pts: seq<Point>)
    requires InBox(b, p) && Boxes(b, pts) && (at.x >= b.maxX || at.y >= b.maxY)
    ensures !Odd(at, p, pts)
    decreases |pts|
  {
    if pts != [] {
      var q := pts[0];
      assert q in pts && forall v :: v in pts[1..] ==> v in pts;
      NothingAhead(at, b, q, pts[1..]);
      if Straddles(at.y, p, q) {
        MeetsBetween(at.y, p, q);
      }
    }
  }

  /** West and south border included, east and north border not. */
  predicate InWindow(b: Box, at: Point)
  {
    b.minX <= at.x < b.maxX && b.minY <= at.y < b.maxY
  }

  /** A position is inside the cut outline exactly when it is inside the original and in the window. */
  lemma ClippingKeepsInside(b: Box, at: Point, ring: Ring)
    ensures Inside(at, ClippedToBox(b, ring)) <==> Inside(at, ring) && InWindow(b, at)
  {
    var out := ClippedToBox(b, ring);
    ClippedInBox(b, ring);
    if InWindow(b, at) {
      var west := Clipped(West(b), ring);
      var east := Clipped(East(b), west);
      var south := Clipped(South(b), east);
      ClippedInside(West(b), at, ring);
      ClippedInside(East(b), at, west);
      ClippedInside(South(b), at, east);
      ClippedInside(North(b), at, south);
      var north := Clipped(North(b), south);
      if north != [] {
        ClosingKeeps(at, north);
      }
    } else if !InBox(b, at) {
      OutsideBoxOutsideRing(at, b, out);
    } else if out != [] {
      assert out[|out| - 1] in out;
      NothingAhead(at, b, out[|out| - 1], out);
    }
  }

  // ----------------------------------------------------------- `clip_to_region`

  /** One side of the window. */
  method ClipSide(s: Side, ring: Ring) returns (out: Ring)
    ensures out == Clipped(s, ring)
  {
    out := [];
    if ring == [] {
      return;
    }
    var prev := ring[|ring| - 1];
    var i := 0;
    while i < |ring|
      invariant i <= |ring|
      invariant Clipped(s, ring) == out + Clip(s, prev, ring[i..])
    {
      var cur := ring[i];
      Assoc(out, Piece(s, prev, cur), Clip(s, cur, ring[i + 1..]));
      out := AddPiece(s, prev, cur, out);
      prev := cur;
      i := i + 1;
    }
    Empty(out);
  }

  method AddPiece(s: Side, prev: Point, cur: Point, given: seq<Point>) returns (out: seq<Point>)
    ensures out == given + Piece(s, prev, cur)
  {
    out := given;
    if Keeps(s, cur) {
      if !Keeps(s, prev) {
        out := out + [Cut(s, prev, cur)];
      }
      out := out + [cur];
    } else if Keeps(s, prev) {
      out := out + [Cut(s, prev, cur)];
    }
  }

  method ClipToRegion(b: Box, ring: Ring) returns (out: Ring)
    ensures out == ClippedToBox(b, ring)
    ensures forall at :: Inside(at, out) <==> Inside(at, ring) && InWindow(b, at)
  {
    forall at
      ensures Inside(at, ClippedToBox(b, ring)) <==> Inside(at, ring) && InWindow(b, at)
    {
      ClippingKeepsInside(b, at, ring);
    }
    var sides := [West(b), East(b), South(b), North(b)];
    FourSides(b, ring);
    out := ring;
    var i := 0;
    while i < 4
      invariant i <= 4
      invariant Closed(ClippedAll(sides[i..], out)) == ClippedToBox(b, ring)
    {
      if out == [] {
        NothingLeftOf(sides[i..]);
        return [];
      }
      assert sides[i..][1..] == sides[i + 1..];
      out := ClipSide(sides[i], out);
      i := i + 1;
    }
    if out != [] && out[0] != out[|out| - 1] {
      out := out + [out[0]];
    }
  }

  function ClippedAll(sides: seq<Side>, ring: Ring): (out: Ring)
  {
    if sides == [] then ring else ClippedAll(sides[1..], Clipped(sides[0], ring))
  }

  lemma {:induction false} NothingLeftOf(sides: seq<Side>)
    ensures ClippedAll(sides, []) == []
  {
    if sides != [] {
      NothingLeftOf(sides[1..]);
    }
  }

  lemma FourSides(b: Box, ring: Ring)
    ensures ClippedToBox(b, ring) == Closed(ClippedAll([West(b), East(b), South(b), North(b)], ring))
  {
    var sides := [West(b), East(b), South(b), North(b)];
    var west := Clipped(West(b), ring);
    var east := Clipped(East(b), west);
    var south := Clipped(South(b), east);
    assert sides[1..] == [East(b), South(b), North(b)];
    assert [East(b), South(b), North(b)][1..] == [South(b), North(b)];
    assert [South(b), North(b)][1..] == [North(b)];
    assert [North(b)][1..] == [];
    assert ClippedAll([North(b)], south) == Clipped(North(b), south);
    assert ClippedAll([South(b), North(b)], east) == Clipped(North(b), south);
    assert ClippedAll([East(b), South(b), North(b)], west) == Clipped(North(b), south);
  }
}
