/**
 Even-odd ray casting: is a position inside a ring of vertices? The answer is the parity of the number of
 edges that a ray to the east crosses. Every theorem about it is a theorem about parities of paths.
 */
module Rings {
  import opened Seqs

  /** Longitude and latitude, in degrees. */
  datatype Point = Point(x: real, y: real)

  type Ring = seq<Point>

  // ------------------------------------------------------------------- edges

  /** The edge passes the position's latitude; an end on that latitude counts as below. */
  predicate Straddles(lat: real, p: Point, q: Point)
  {
    (p.y > lat) != (q.y > lat)
  }

  /** Where an edge that straddles meets the latitude, as the code computes it from `q`. */
  function MeetsAt(lat: real, p: Point, q: Point): (x: real)
    requires p.y != q.y
  {
    (p.x - q.x) * (lat - q.y) / (p.y - q.y) + q.x
  }

  predicate Crosses(at: Point, p: Point, q: Point)
  {
    Straddles(at.y, p, q) && at.x < MeetsAt(at.y, p, q)
  }

  lemma LeFromMul(a: real, b: real, c: real)
    requires a * c <= b * c && c > 0.0
    ensures a <= b
  {
    if b < a {
      MulMonotone(b, a, c);
    }
  }

  lemma SharePositive(n: real, d: real)
    requires 0.0 <= n <= d && d > 0.0
    ensures 0.0 <= n / d <= 1.0
  {
    assert n / d * d == n;
    LeFromMul(0.0, n / d, d);
    LeFromMul(n / d, 1.0, d);
  }

  lemma Share(n: real, d: real)
    requires d != 0.0 && (0.0 <= n <= d || d <= n <= 0.0)
    ensures 0.0 <= n / d <= 1.0
  {
    if d > 0.0 {
      SharePositive(n, d);
    } else {
      SharePositive(-n, -d);
      assert n / d == (-n) / (-d);
    }
  }

  lemma MulMonotone(a: real, b: real, c: real)
    requires a < b && c > 0.0
    ensures a * c < b * c
  {
  }

  lemma Part(a: real, t: real)
    requires 0.0 <= t <= 1.0
    ensures if a >= 0.0 then 0.0 <= a * t <= a else a <= a * t <= 0.0
  {
  }

  lemma MeetsByShare(lat: real, p: Point, q: Point)
    requires p.y != q.y
    ensures MeetsAt(lat, p, q) == (p.x - q.x) * ((lat - q.y) / (p.y - q.y)) + q.x
  {
  }

  /** An edge meets the latitude between its ends. */
  lemma MeetsBetween(lat: real, p: Point, q: Point)
    requires Straddles(lat, p, q)
    ensures p.x <= MeetsAt(lat, p, q) <= q.x || q.x <= MeetsAt(lat, p, q) <= p.x
  {
    MeetsByShare(lat, p, q);
    Share(lat - q.y, p.y - q.y);
    Part(p.x - q.x, (lat - q.y) / (p.y - q.y));
  }

  /** It does not matter from which end the edge is drawn. */
  lemma MeetsEitherWay(lat: real, p: Point, q: Point)
    requires p.y != q.y
    ensures MeetsAt(lat, p, q) == MeetsAt(lat, q, p)
  {
    var d, a := q.y - p.y, q.x - p.x;
    var s, t := (lat - p.y) / d, (lat - q.y) / (p.y - q.y);
    MeetsByShare(lat, p, q);
    MeetsByShare(lat, q, p);
    SharesAddUp(lat - p.y, lat - q.y, d);
    assert (p.x - q.x) * t == (p.x - q.x) * (1.0 - s);
    assert a * s + (p.x - q.x) * (1.0 - s) == a * s - a * (1.0 - s);
  }

  lemma SharesAddUp(m: real, n: real, d: real)
    requires d != 0.0 && m - n == d
    ensures n / (-d) == 1.0 - m / d
  {
    assert n / (-d) == -(n / d);
    assert m / d - n / d == (m - n) / d == 1.0;
  }

  lemma CrossesEitherWay(at: Point, p: Point, q: Point)
    ensures Crosses(at, p, q) == Crosses(at, q, p)
  {
    if Straddles(at.y, p, q) {
      MeetsEitherWay(at.y, p, q);
    }
  }

  // -------------------------------------------------------------- open paths

  /** Whether a path from `p` through `pts` crosses the ray an odd number of times. */
  predicate Odd(at: Point, p: Point, pts: seq<Point>)
    decreases |pts|
  {
    pts != [] && (Crosses(at, p, pts[0]) != Odd(at, pts[0], pts[1..]))
  }

  /** Where such a path ends. */
  function End(p: Point, pts: seq<Point>): (q: Point)
  {
    if pts == [] then p else pts[|pts| - 1]
  }

  lemma {:induction false} OddConcat(at: Point, p: Point, a: seq<Point>, b: seq<Point>)
    ensures Odd(at, p, a + b) == (Odd(at, p, a) != Odd(at, End(p, a), b))
    decreases |a|
  {
    if a == [] {
      Empty(b);
    } else {
      ConsConcat(a, b);
      OddConcat(at, a[0], a[1..], b);
    }
  }

  /** Whether a path straddles a latitude an odd number of times. */
  predicate StraddlesOddly(lat: real, p: Point, pts: seq<Point>)
    decreases |pts|
  {
    pts != [] && (Straddles(lat, p, pts[0]) != StraddlesOddly(lat, pts[0], pts[1..]))
  }

  /** Straddling an odd number of times is ending up on the other side; a closed path never does. */
  lemma {:induction false} StraddlesIffSidesDiffer(lat: real, p: Point, pts: seq<Point>)
    ensures StraddlesOddly(lat, p, pts) == Straddles(lat, p, End(p, pts))
    decreases |pts|
  {
    if pts != [] {
      StraddlesIffSidesDiffer(lat, pts[0], pts[1..]);
    }
  }

  // ------------------------------------------------------------------- rings

  /** The position is inside the ring: the closed path through its vertices crosses the ray an odd number of times. */
  predicate Inside(at: Point, ring: Ring)
  {
    ring != [] && Odd(at, ring[|ring| - 1], ring)
  }

  /** `_point_in_ring` */
  method PointInRing(at: Point, ring: Ring) returns (inside: bool)
    ensures inside == Inside(at, ring)
  {
    inside := false;
    var n := |ring|;
    var j := n - 1;
    var i := 0;
    while i < n
      invariant 0 <= i <= n && (n > 0 ==> j == if i == 0 then n - 1 else i - 1)
      invariant n == 0 ==> !inside
      invariant n > 0 ==> Inside(at, ring) == (inside != Odd(at, ring[j], ring[i..]))
    {
      var p, q := ring[j], ring[i];
      if (q.y > at.y) != (p.y > at.y) {
        if at.x < MeetsAt(at.y, p, q) {
          inside := !inside;
        }
      }
      j := i;
      i := i + 1;
    }
    assert ring[n..] == [];
  }

  // ------------------------------------------- the same outline drawn differently

  /** It does not matter at which vertex a ring starts. */
  lemma RotationKeeps(at: Point, a: Ring, b: Ring)
    ensures Inside(at, a + b) == Inside(at, b + a)
  {
    if a == [] || b == [] {
      Empty(a);
      Empty(b);
    } else {
      OddConcat(at, b[|b| - 1], a, b);
      OddConcat(at, a[|a| - 1], b, a);
    }
  }

  function Reversed(s: seq<Point>): (r: seq<Point>)
    ensures |r| == |s|
  {
    if s == [] then [] else Reversed(s[1..]) + [s[0]]
  }

  /** A path walked backwards: from its end, through its vertices, to where it started. */
  lemma {:induction false} OddBackwards(at: Point, p: Point, pts: seq<Point>)
    requires pts != []
    ensures Reversed(pts)[0] == End(p, pts)
    ensures Odd(at, End(p, pts), Reversed(pts)[1..] + [p]) == Odd(at, p, pts)
    decreases |pts|
  {
    var q, more := pts[0], pts[1..];
    CrossesEitherWay(at, p, q);
    if more == [] {
      assert Reversed(pts) == [q];
      assert Reversed(pts)[1..] + [p] == [p];
      assert Odd(at, q, [p]) == (Crosses(at, q, p) != Odd(at, p, [p][1..]));
    } else {
      OddBackwards(at, q, more);
      ConsConcat(Reversed(more), [q]);
      OddConcat(at, End(q, more), Reversed(more)[1..] + [q], [p]);
      assert Odd(at, q, [p]) == (Crosses(at, q, p) != Odd(at, p, [p][1..]));
    }
  }

  /** It does not matter which way round a ring is drawn. */
  lemma ReversalKeeps(at: Point, ring: Ring)
    ensures Inside(at, Reversed(ring)) == Inside(at, ring)
  {
    if ring != [] {
      var last := ring[|ring| - 1];
      var r := Reversed(ring);
      OddBackwards(at, last, ring);
      assert r == [r[0]] + r[1..];
      // The backward path from `last` ends in `last`; as a ring, the reversed one starts there.
      ReversedEnds(ring);
      OddConcat(at, last, r[1..], [last]);
      OddConcat(at, ring[0], [last], r[1..]);
      assert Odd(at, ring[0], [last]) == (Crosses(at, ring[0], last) != Odd(at, last, [last][1..]));
      CrossesEitherWay(at, ring[0], last);
    }
  }

  lemma {:induction false} ReversedEnds(s: seq<Point>)
    requires s != []
    ensures Reversed(s)[0] == s[|s| - 1] && Reversed(s)[|s| - 1] == s[0]
  {
    if |s| > 1 {
      ReversedEnds(s[1..]);
    }
  }

  /** A ring may or may not repeat its first vertex at the end. */
  lemma ClosingKeeps(at: Point, ring: Ring)
    requires ring != []
    ensures Inside(at, ring + [ring[0]]) == Inside(at, ring)
  {
    var closed := ring + [ring[0]];
    assert closed[1..] == ring[1..] + [ring[0]];
    OddConcat(at, ring[0], ring[1..], [ring[0]]);
    var last := ring[|ring| - 1];
    assert Odd(at, last, [ring[0]]) == (Crosses(at, last, ring[0]) != Odd(at, ring[0], [ring[0]][1..]));
    assert End(ring[0], ring[1..]) == last;
  }

  /**
   A ring cut along the chord from `p` to `q` falls into two; the position is inside the whole when it is
   inside just one of them.
   */
  lemma ChordCuts(at: Point, p: Point, a: seq<Point>, q: Point, b: seq<Point>)
    ensures Inside(at, [p] + a + [q] + b) == (Inside(at, [p] + a + [q]) != Inside(at, [q] + b + [p]))
  {
    RingFrom(at, p, a + [q] + b);
    RingFrom(at, p, a + [q]);
    RingFrom(at, q, b + [p]);
    assert [p] + a + [q] + b == [p] + (a + [q] + b);
    assert [p] + a + [q] == [p] + (a + [q]);
    assert [q] + b + [p] == [q] + (b + [p]);
    OddConcat(at, p, a + [q], b);
    OddConcat(at, q, b, [p]);
    assert a + [q] + b + [p] == a + [q] + (b + [p]);
    OddConcat(at, p, a + [q], b + [p]);
    OddConcat(at, p, a + [q], [p]);
    OneEdge(at, q, p);
    OneEdge(at, p, q);
    OddConcat(at, q, b + [p], [q]);
    CrossesEitherWay(at, p, q);
  }

  lemma OneEdge(at: Point, p: Point, q: Point)
    ensures Odd(at, p, [q]) == Crosses(at, p, q)
  {
    assert [q][1..] == [];
  }

  /** A ring as the path that starts at its first vertex and comes back to it. */
  lemma RingFrom(at: Point, p: Point, pts: seq<Point>)
    ensures Inside(at, [p] + pts) == Odd(at, p, pts + [p])
  {
    Cons(p, pts);
    OddConcat(at, p, pts, [p]);
    OneEdge(at, End(p, pts), p);
    assert ([p] + pts)[|pts|] == End(p, pts);
  }

  // ------------------------------------------------------------ bounding box

  datatype Box = Box(minX: real, minY: real, maxX: real, maxY: real)

  predicate InBox(b: Box, p: Point)
  {
    b.minX <= p.x <= b.maxX && b.minY <= p.y <= b.maxY
  }

  predicate Boxes(b: Box, pts: seq<Point>)
  {
    forall p :: p in pts ==> InBox(b, p)
  }

  /** Seen from the left of the box every edge that straddles is crossed; from anywhere else outside it, none is. */
  lemma {:induction false} FromOutside(at: Point, b: Box, p: Point, pts: seq<Point>)
    requires InBox(b, p) && Boxes(b, pts) && !InBox(b, at)
    ensures Odd(at, p, pts) ==
      (b.minY <= at.y <= b.maxY && at.x < b.minX && StraddlesOddly(at.y, p, pts))
    decreases |pts|
  {
    if pts != [] {
      var q := pts[0];
      assert q in pts;
      assert forall r :: r in pts[1..] ==> r in pts;
      FromOutside(at, b, q, pts[1..]);
      if Straddles(at.y, p, q) {
        MeetsBetween(at.y, p, q);
      }
    }
  }

  /** No position outside the box of a ring is inside the ring: the parity argument behind the fast path. */
  lemma OutsideBoxOutsideRing(at: Point, b: Box, ring: Ring)
    requires Boxes(b, ring) && !InBox(b, at)
    ensures !Inside(at, ring)
  {
    if ring != [] {
      var last := ring[|ring| - 1];
      assert last in ring;
      FromOutside(at, b, last, ring);
      StraddlesIffSidesDiffer(at.y, last, ring);
    }
  }
}
