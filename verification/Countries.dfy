/**
 Which country a position is in, from outlines stored as integer deltas. The bounding box that spares most
 of the work never changes the answer, for any file the build tool writes.
 */
module Countries {
  import opened Rings
  import opened Seqs
  import opened Wrappers

  /** A vertex in units of 1/scale degrees. */
  datatype Vertex = Vertex(lon: int, lat: int)

  datatype DecodeError = IndexError | ZeroDivision

  // --------------------------------------------------- the flat form of a ring

  function Steps(from: Vertex, ring: seq<Vertex>): (flat: seq<int>)
    ensures |flat| == 2 * |ring|
    decreases |ring|
  {
    if ring == [] then []
    else [ring[0].lon - from.lon, ring[0].lat - from.lat] + Steps(ring[0], ring[1..])
  }

  /** `encode_ring`: the first vertex, then the way from each to the next. */
  function Encoded(ring: seq<Vertex>): (flat: seq<int>)
    requires ring != []
  {
    [ring[0].lon, ring[0].lat] + Steps(ring[0], ring[1..])
  }

  function Walked(from: Vertex, flat: seq<int>): (ring: seq<Vertex>)
    requires |flat| % 2 == 0
    decreases |flat|
  {
    if flat == [] then []
    else
      var v := Vertex(from.lon + flat[0], from.lat + flat[1]);
      [v] + Walked(v, flat[2..])
  }

  predicate WellFormed(flat: seq<int>)
  {
    |flat| >= 2 && |flat| % 2 == 0
  }

  /** The vertices a flat ring stands for. */
  function Vertices(flat: seq<int>): (ring: seq<Vertex>)
    requires WellFormed(flat)
  {
    var first := Vertex(flat[0], flat[1]);
    [first] + Walked(first, flat[2..])
  }

  lemma {:induction false} WalkedSteps(from: Vertex, ring: seq<Vertex>)
    ensures Walked(from, Steps(from, ring)) == ring
    decreases |ring|
  {
    if ring != [] {
      var flat, more := Steps(from, ring), Steps(ring[0], ring[1..]);
      assert flat[2..] == more;
      WalkedSteps(ring[0], ring[1..]);
      assert ring == [ring[0]] + ring[1..];
    }
  }

  /** Decoding an encoded ring gives its vertices back. */
  lemma EncodeDecode(ring: seq<Vertex>)
    requires ring != []
    ensures Vertices(Encoded(ring)) == ring
  {
    assert Encoded(ring)[2..] == Steps(ring[0], ring[1..]);
    WalkedSteps(ring[0], ring[1..]);
    assert ring == [ring[0]] + ring[1..];
  }

  lemma {:induction false} StepsWalked(from: Vertex, flat: seq<int>)
    requires |flat| % 2 == 0
    ensures Steps(from, Walked(from, flat)) == flat
    decreases |flat|
  {
    if flat != [] {
      var v := Vertex(from.lon + flat[0], from.lat + flat[1]);
      Cons(v, Walked(v, flat[2..]));
      StepsWalked(v, flat[2..]);
      assert flat == [flat[0], flat[1]] + flat[2..];
    }
  }

  /** Every well-formed array is the encoding of the ring it stands for. */
  lemma DecodeEncode(flat: seq<int>)
    requires WellFormed(flat)
    ensures Encoded(Vertices(flat)) == flat
  {
    var first := Vertex(flat[0], flat[1]);
    Cons(first, Walked(first, flat[2..]));
    StepsWalked(first, flat[2..]);
    assert flat == [flat[0], flat[1]] + flat[2..];
  }

  function Degrees(v: Vertex, scale: int): (p: Point)
    requires scale != 0
  {
    Point(v.lon as real / scale as real, v.lat as real / scale as real)
  }

  function InDegrees(ring: seq<Vertex>, scale: int): (r: Ring)
    requires scale != 0
  {
    seq(|ring|, i requires 0 <= i < |ring| => Degrees(ring[i], scale))
  }

  /** `_decode_ring` */
  method DecodeRing(flat: seq<int>, scale: int) returns (r: Result<Ring, DecodeError>)
    ensures WellFormed(flat) && scale != 0 ==> r == Success(InDegrees(Vertices(flat), scale))
    ensures |flat| < 2 ==> r == Failure(IndexError)
    ensures |flat| >= 2 && scale == 0 ==> r == Failure(ZeroDivision)
    ensures |flat| % 2 == 1 && scale != 0 ==> r == Failure(IndexError)
  {
    if |flat| < 2 {
      return Failure(IndexError);
    }
    var lon, lat := flat[0], flat[1];
    if scale == 0 {
      return Failure(ZeroDivision);
    }
    ghost var ring, rest := [Vertex(lon, lat)], flat[2..];
    var points := [Degrees(Vertex(lon, lat), scale)];
    var i := 2;
    while i < |flat|
      invariant 2 <= i <= |flat| && rest == flat[i..]
      invariant |rest| % 2 == |flat| % 2
      invariant points == InDegrees(ring, scale)
      invariant |flat| % 2 == 0 ==> Vertices(flat) == ring + Walked(Vertex(lon, lat), rest)
    {
      if i + 1 >= |flat| {
        return Failure(IndexError);
      }
      lon := lon + flat[i];
      lat := lat + flat[i + 1];
      rest := rest[2..];
      Assoc(ring, [Vertex(lon, lat)], if |flat| % 2 == 0 then Walked(Vertex(lon, lat), rest) else []);
      ring := ring + [Vertex(lon, lat)];
      points := points + [Degrees(Vertex(lon, lat), scale)];
      i := i + 2;
    }
    Empty(ring);
    return Success(points);
  }

  // --------------------------------------------------------------- the lookup

  /** The outline of a piece of land, and of what is cut out of it. */
  datatype Polygon = Polygon(exterior: Ring, holes: seq<Ring>)

  datatype Country = Country(code: string, box: Box, polygons: seq<Polygon>)

  predicate InHole(at: Point, holes: seq<Ring>)
  {
    exists h :: h in holes && Inside(at, h)
  }

  predicate Holds(at: Point, g: Polygon)
  {
    Inside(at, g.exterior) && !InHole(at, g.holes)
  }

  predicate AnyHolds(at: Point, polygons: seq<Polygon>)
  {
    exists g :: g in polygons && Holds(at, g)
  }

  /** The first country of which some polygon holds the position. */
  function Located(at: Point, index: seq<Country>): (code: Option<string>)
  {
    if index == [] then None
    else if AnyHolds(at, index[0].polygons) then Some(index[0].code)
    else Located(at, index[1..])
  }

  /** The same, among the countries whose box holds the position. */
  function LocatedInBox(at: Point, index: seq<Country>): (code: Option<string>)
  {
    if index == [] then None
    else if InBox(index[0].box, at) && AnyHolds(at, index[0].polygons) then Some(index[0].code)
    else LocatedInBox(at, index[1..])
  }

  /** The box holds the outline of every polygon. */
  predicate BoxFits(c: Country)
  {
    forall g :: g in c.polygons ==> Boxes(c.box, g.exterior)
  }

  /** Where the boxes fit, leaving a country out by its box never changes the answer. */
  lemma {:induction false} FastPath(at: Point, index: seq<Country>)
    requires forall c :: c in index ==> BoxFits(c)
    ensures LocatedInBox(at, index) == Located(at, index)
  {
    if index != [] {
      var c := index[0];
      assert c in index && forall d :: d in index[1..] ==> d in index;
      FastPath(at, index[1..]);
      if AnyHolds(at, c.polygons) {
        var g :| g in c.polygons && Holds(at, g);
        if !InBox(c.box, at) {
          OutsideBoxOutsideRing(at, c.box, g.exterior);
        }
      }
    }
  }

  method AnyHole(at: Point, holes: seq<Ring>) returns (found: bool)
    ensures found == InHole(at, holes)
  {
    var i := 0;
    while i < |holes|
      invariant i <= |holes| && forall k :: 0 <= k < i ==> !Inside(at, holes[k])
    {
      var inside := PointInRing(at, holes[i]);
      if inside {
        return true;
      }
      i := i + 1;
    }
    return false;
  }

  /** The polygons of one country. */
  method Claims(at: Point, polygons: seq<Polygon>) returns (found: bool)
    ensures found == AnyHolds(at, polygons)
  {
    var i := 0;
    while i < |polygons|
      invariant i <= |polygons| && forall k :: 0 <= k < i ==> !Holds(at, polygons[k])
    {
      var g := polygons[i];
      i := i + 1;
      var inside := PointInRing(at, g.exterior);
      if !inside {
        continue;
      }
      var hole := AnyHole(at, g.holes);
      if hole {
        continue;
      }
      assert g in polygons;
      return true;
    }
    return false;
  }

  /** `lookup`; a coordinate that is not a number has no country. */
  method Lookup(lat: Option<real>, lon: Option<real>, index: seq<Country>) returns (code: Option<string>)
    ensures lat.None? || lon.None? ==> code == None
    ensures lat.Some? && lon.Some? ==> code == LocatedInBox(Point(lon.value, lat.value), index)
  {
    if lat.None? || lon.None? {
      return None;
    }
    var at := Point(lon.value, lat.value);
    var i := 0;
    while i < |index|
      invariant i <= |index|
      invariant LocatedInBox(at, index) == LocatedInBox(at, index[i..])
    {
      var c := index[i];
      assert index[i..][1..] == index[i + 1..];
      i := i + 1;
      if !InBox(c.box, at) {
        continue;
      }
      var claims := Claims(at, c.polygons);
      if claims {
        return Some(c.code);
      }
    }
    return None;
  }

  // ---------------------------------------------------------- building the file

  datatype Bounds = Bounds(minLon: int, minLat: int, maxLon: int, maxLat: int)

  /** A polygon as the build tool has it: rings of vertices, the outline first. */
  type Outline = g: seq<seq<Vertex>> | g != [] && forall i :: 0 <= i < |g| ==> g[i] != [] witness [[Vertex(0, 0)]]

  predicate Within(b: Bounds, v: Vertex)
  {
    b.minLon <= v.lon <= b.maxLon && b.minLat <= v.lat <= b.maxLat
  }

  function Wider(b: Bounds, v: Vertex): (c: Bounds)
  {
    Bounds(if v.lon < b.minLon then v.lon else b.minLon, if v.lat < b.minLat then v.lat else b.minLat,
           if v.lon > b.maxLon then v.lon else b.maxLon, if v.lat > b.maxLat then v.lat else b.maxLat)
  }

  function Tight(b: Bounds, vs: seq<Vertex>): (c: Bounds)
    decreases |vs|
  {
    if vs == [] then b else Tight(Wider(b, vs[0]), vs[1..])
  }

  lemma {:induction false} TightHolds(b: Bounds, vs: seq<Vertex>, v: Vertex)
    requires Within(b, v) || v in vs
    ensures Within(Tight(b, vs), v)
    decreases |vs|
  {
    if vs != [] {
      TightHolds(Wider(b, vs[0]), vs[1..], v);
    }
  }

  /** Every vertex of every outline. */
  function Outer(polygons: seq<Outline>): (vs: seq<Vertex>)
  {
    if polygons == [] then [] else polygons[0][0] + Outer(polygons[1..])
  }

  lemma {:induction false} OuterHas(polygons: seq<Outline>, g: Outline, v: Vertex)
    requires g in polygons && v in g[0]
    ensures v in Outer(polygons)
  {
    if polygons[0] != g {
      OuterHas(polygons[1..], g, v);
    }
  }

  /** The smallest and the largest of the coordinates. */
  function BoundsOf(polygons: seq<Outline>): (b: Bounds)
    requires polygons != []
  {
    var vs := Outer(polygons);
    Tight(Bounds(vs[0].lon, vs[0].lat, vs[0].lon, vs[0].lat), vs)
  }

  /** What the file holds for a country. */
  datatype Entry = Entry(code: string, bounds: Bounds, polygons: seq<seq<seq<int>>>)

  function FlatRings(g: seq<seq<Vertex>>): (rings: seq<seq<int>>)
    requires forall i :: 0 <= i < |g| ==> g[i] != []
  {
    seq(|g|, i requires 0 <= i < |g| => Encoded(g[i]))
  }

  function Built(code: string, polygons: seq<Outline>): (e: Entry)
    requires polygons != []
  {
    Entry(code, BoundsOf(polygons), seq(|polygons|, i requires 0 <= i < |polygons| => FlatRings(polygons[i])))
  }

  predicate AllWellFormed(g: seq<seq<int>>)
  {
    g != [] && forall i :: 0 <= i < |g| ==> WellFormed(g[i])
  }

  predicate Readable(e: Entry)
  {
    forall i :: 0 <= i < |e.polygons| ==> AllWellFormed(e.polygons[i])
  }

  function LoadPolygon(g: seq<seq<int>>, scale: int): (p: Polygon)
    requires scale != 0 && AllWellFormed(g)
  {
    Polygon(InDegrees(Vertices(g[0]), scale),
            seq(|g| - 1, i requires 0 <= i < |g| - 1 => InDegrees(Vertices(g[i + 1]), scale)))
  }

  /** What `_load` makes of an entry. */
  function Loaded(e: Entry, scale: int): (c: Country)
    requires scale != 0 && Readable(e)
  {
    var s := scale as real;
    Country(e.code,
            Box(e.bounds.minLon as real / s, e.bounds.minLat as real / s,
                e.bounds.maxLon as real / s, e.bounds.maxLat as real / s),
            seq(|e.polygons|, i requires 0 <= i < |e.polygons| => LoadPolygon(e.polygons[i], scale)))
  }

  lemma DivideMonotone(a: int, b: int, scale: int)
    requires a <= b && scale > 0
    ensures a as real / scale as real <= b as real / scale as real
  {
    var s, x, y := scale as real, a as real, b as real;
    assert x / s * s == x && y / s * s == y;
    LeFromMul(x / s, y / s, s);
  }

  lemma DegreesInBox(b: Bounds, v: Vertex, scale: int)
    requires Within(b, v) && scale > 0
    ensures var s := scale as real;
            InBox(Box(b.minLon as real / s, b.minLat as real / s, b.maxLon as real / s, b.maxLat as real / s),
                  Degrees(v, scale))
  {
    DivideMonotone(b.minLon, v.lon, scale);
    DivideMonotone(v.lon, b.maxLon, scale);
    DivideMonotone(b.minLat, v.lat, scale);
    DivideMonotone(v.lat, b.maxLat, scale);
  }

  lemma BuiltReadable(code: string, polygons: seq<Outline>)
    requires polygons != []
    ensures Readable(Built(code, polygons))
  {
  }

  /** The box in the file fits the outlines in the file. */
  lemma BuiltBoxFits(code: string, polygons: seq<Outline>, scale: int)
    requires polygons != [] && scale > 0
    ensures Readable(Built(code, polygons)) && BoxFits(Loaded(Built(code, polygons), scale))
  {
    BuiltReadable(code, polygons);
    var e := Built(code, polygons);
    var c := Loaded(e, scale);
    forall i | 0 <= i < |polygons|
      ensures Boxes(c.box, c.polygons[i].exterior)
    {
      var g := polygons[i];
      EncodeDecode(g[0]);
      assert c.polygons[i].exterior == InDegrees(g[0], scale);
      forall k | 0 <= k < |g[0]|
        ensures InBox(c.box, Degrees(g[0][k], scale))
      {
        var vs := Outer(polygons);
        OuterHas(polygons, g, g[0][k]);
        TightHolds(Bounds(vs[0].lon, vs[0].lat, vs[0].lon, vs[0].lat), vs, g[0][k]);
        DegreesInBox(e.bounds, g[0][k], scale);
      }
    }
  }

  /** For every file the build tool writes, the lookup with boxes is the lookup without. */
  lemma BuiltFileFast(at: Point, index: seq<Country>, scale: int)
    requires scale > 0
    requires forall c :: c in index ==>
      exists code: string, polygons: seq<Outline> :: polygons != [] && Readable(Built(code, polygons))
        && c == Loaded(Built(code, polygons), scale)
    ensures LocatedInBox(at, index) == Located(at, index)
  {
    forall c | c in index
      ensures BoxFits(c)
    {
      var code: string, polygons: seq<Outline> :| polygons != [] && Readable(Built(code, polygons))
        && c == Loaded(Built(code, polygons), scale);
      BuiltBoxFits(code, polygons, scale);
    }
    FastPath(at, index);
  }
}
