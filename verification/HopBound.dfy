/**
 How many radio links at most separate a node named in a packet from the observer that heard it, and
 why that bound is right: on a FLOOD the path is the route already travelled, on a DIRECT the route
 still to travel.
 */
module HopBound {
  import opened Wrappers

  predicate EndsWith(s: string, tail: string)
  {
    |tail| <= |s| && s[|s| - |tail|..] == tail
  }

  /** What a route says about the path; a name cannot end in both words. */
  datatype Kind = Flooding | SourceRouted | Unsaid

  function KindOf(route: string): (k: Kind)
  {
    if EndsWith(route, "FLOOD") then Flooding else if EndsWith(route, "DIRECT") then SourceRouted else Unsaid
  }

  datatype Role = Source | Destination | Hop(index: int)

  /** `radio_hop_bound`: none means that the frame says nothing about this node. */
  function RadioHopBound(role: Role, route: Option<string>, pathLen: Option<int>): (b: Option<nat>)
  {
    if route.None? || route.value == "" || pathLen.None? || pathLen.value < 0 then None
    else
      var n, kind := pathLen.value, KindOf(route.value);
      match role
      case Source => if kind.Flooding? then Some(n + 1) else None
      case Destination => if kind.SourceRouted? then Some(n + 2) else None
      case Hop(i) =>
        if !(0 <= i < n) then None
        else match kind
             case Flooding => Some(n - i)
             case SourceRouted => Some(i + 2)
             case Unsaid => None
  }

  // ------------------------------------------------------------- the journeys

  type Node = nat
  type Distance = (Node, Node) -> real

  predicate Symmetric(d: Distance, x: Node, y: Node)
  {
    d(x, y) == d(y, x)
  }

  predicate Triangle(d: Distance, x: Node, y: Node, z: Node)
  {
    d(x, z) <= d(x, y) + d(y, z)
  }

  ghost predicate IsMetric(d: Distance)
  {
    && (forall x :: d(x, x) == 0.0)
    && (forall x, y :: Symmetric(d, x, y))
    && (forall x, y, z :: Triangle(d, x, y, z))
  }

  /** One radio link: the receiver is within range of the sender. */
  predicate Link(d: Distance, range: real, a: Node, b: Node)
  {
    d(a, b) <= range
  }

  /** A flooded packet on the air: every forwarder appended itself. */
  datatype Flood = Flood(src: Node, path: seq<Node>)

  function FloodSender(p: Flood): (n: Node)
  {
    if p.path == [] then p.src else p.path[|p.path| - 1]
  }

  /** Every way a flooded packet can come to be on the air: sent by its source, or heard and passed on. */
  ghost predicate FloodOnAir(d: Distance, range: real, p: Flood)
    decreases |p.path|
  {
    p.path == [] ||
    (var before := Flood(p.src, p.path[..|p.path| - 1]);
     FloodOnAir(d, range, before) && Link(d, range, FloodSender(before), FloodSender(p)))
  }

  /** A source-routed packet on the air: whoever sends it has taken itself off the route. */
  datatype Direct = Direct(sender: Node, path: seq<Node>, dest: Node)

  /** The first node of the remaining route takes itself off and passes the packet on. */
  function Forward(p: Direct): (q: Direct)
    requires p.path != []
  {
    Direct(p.path[0], p.path[1..], p.dest)
  }

  /** The packet after `k` forwarders. */
  function Routed(p: Direct, k: nat): (q: Direct)
    requires k <= |p.path|
    ensures |q.path| == |p.path| - k
  {
    if k == 0 then p else Forward(Routed(p, k - 1))
  }

  // --------------------------------------------------------------- the walks

  /** A chain of nodes, each within range of the next. */
  ghost predicate Walk(d: Distance, range: real, chain: seq<Node>)
  {
    forall i, j :: 0 <= i < j < |chain| && j == i + 1 ==> Link(d, range, chain[i], chain[j])
  }

  /** Along a walk, two nodes are no further apart than the number of links between them allows. */
  lemma {:induction false} WalkDistance(d: Distance, range: real, chain: seq<Node>, i: nat, j: nat)
    requires IsMetric(d) && Walk(d, range, chain) && i <= j < |chain|
    ensures d(chain[i], chain[j]) <= (j - i) as real * range
    decreases j - i
  {
    if i < j {
      WalkDistance(d, range, chain, i, j - 1);
      assert Link(d, range, chain[j - 1], chain[j]);
      assert Triangle(d, chain[i], chain[j - 1], chain[j]);
      assert (j - i) as real * range == (j - 1 - i) as real * range + range;
    }
  }

  /** The source and the path of a flooded packet, as a chain. */
  function FloodChain(p: Flood): (chain: seq<Node>)
    ensures chain != [] && chain[|chain| - 1] == FloodSender(p)
  {
    [p.src] + p.path
  }

  lemma {:induction false} FloodWalk(d: Distance, range: real, p: Flood)
    requires FloodOnAir(d, range, p)
    ensures Walk(d, range, FloodChain(p))
    decreases |p.path|
  {
    if p.path != [] {
      var before := Flood(p.src, p.path[..|p.path| - 1]);
      FloodWalk(d, range, before);
      assert FloodChain(p) == FloodChain(before) + [FloodSender(p)];
    }
  }

  /** The sender, the rest of the route and the destination, as a chain. */
  function RouteChain(p: Direct): (chain: seq<Node>)
  {
    [p.sender] + (p.path + [p.dest])
  }

  /** A packet that keeps to a route of links within range still has such a route ahead after any forwarding. */
  lemma {:induction false} RouteWalk(d: Distance, range: real, p: Direct, k: nat)
    requires k <= |p.path| && Walk(d, range, RouteChain(p))
    ensures Walk(d, range, RouteChain(Routed(p, k)))
  {
    if k > 0 {
      RouteWalk(d, range, p, k - 1);
      var q := Routed(p, k - 1);
      assert RouteChain(Forward(q)) == RouteChain(q)[1..];
    }
  }

  // -------------------------------------------------------------- the bounds

  /** Where on the chain of a flood the named node is, if the frame tells. */
  function NamedInFlood(p: Flood, role: Role): (i: Option<nat>)
  {
    match role
    case Source => Some(0)
    case Destination => None
    case Hop(k) => if 0 <= k < |p.path| then Some(k + 1) else None
  }

  /** On a flood there is a bound exactly when the path names the node: its number of links to the observer. */
  lemma FloodLinks(d: Distance, range: real, p: Flood, observer: Node, role: Role, route: string)
    requires KindOf(route) == Flooding
    requires FloodOnAir(d, range, p) && Link(d, range, FloodSender(p), observer)
    ensures var b := RadioHopBound(role, Some(route), Some(|p.path|));
            var chain := FloodChain(p) + [observer];
            var i := NamedInFlood(p, role);
            && Walk(d, range, chain)
            && (b.Some? <==> i.Some?)
            && (b.Some? ==> b.value == |chain| - 1 - i.value)
  {
    FloodWalk(d, range, p);
  }

  /**
   The bound on a flood is the real number of links from the named node to the observer along the
   transmissions that brought the packet there; so the node is no further away than that many ranges.
   */
  lemma FloodBound(d: Distance, range: real, p: Flood, observer: Node, role: Role, route: string)
    requires IsMetric(d) && KindOf(route) == Flooding
    requires FloodOnAir(d, range, p) && Link(d, range, FloodSender(p), observer)
    requires NamedInFlood(p, role).Some?
    ensures var b := RadioHopBound(role, Some(route), Some(|p.path|));
            b.Some? && d(FloodChain(p)[NamedInFlood(p, role).value], observer) <= b.value as real * range
  {
    FloodLinks(d, range, p, observer, role, route);
    var chain, i := FloodChain(p) + [observer], NamedInFlood(p, role).value;
    WalkDistance(d, range, chain, i, |chain| - 1);
  }

  /** Where on the chain ahead of a source-routed packet the named node is, counted from the observer. */
  function NamedInDirect(p: Direct, role: Role): (i: Option<nat>)
  {
    match role
    case Source => None
    case Destination => Some(|p.path| + 2)
    case Hop(k) => if 0 <= k < |p.path| then Some(k + 2) else None
  }

  /**
   On a direct packet the bound counts forwards, wherever on its route the packet is heard: one link back
   to its sender, and from there along the rest of the route.
   */
  lemma DirectLinks(d: Distance, range: real, origin: Direct, k: nat, observer: Node, role: Role, route: string)
    requires KindOf(route) == SourceRouted && k <= |origin.path|
    requires Walk(d, range, RouteChain(origin)) && Link(d, range, observer, Routed(origin, k).sender)
    ensures var p := Routed(origin, k);
            var b := RadioHopBound(role, Some(route), Some(|p.path|));
            var i := NamedInDirect(p, role);
            && Walk(d, range, [observer] + RouteChain(p))
            && (b.Some? <==> i.Some?)
            && (b.Some? ==> b.value == i.value)
  {
    RouteWalk(d, range, origin, k);
  }

  /** So the named node is no further from the observer than the bound's number of ranges. */
  lemma DirectBound(d: Distance, range: real, origin: Direct, k: nat, observer: Node, role: Role, route: string)
    requires IsMetric(d) && KindOf(route) == SourceRouted && k <= |origin.path|
    requires Walk(d, range, RouteChain(origin)) && Link(d, range, observer, Routed(origin, k).sender)
    requires NamedInDirect(Routed(origin, k), role).Some?
    ensures var p := Routed(origin, k);
            var b := RadioHopBound(role, Some(route), Some(|p.path|));
            var named := ([observer] + RouteChain(p))[NamedInDirect(p, role).value];
            b.Some? && d(named, observer) <= b.value as real * range
  {
    DirectLinks(d, range, origin, k, observer, role, route);
    var p := Routed(origin, k);
    var chain, i := [observer] + RouteChain(p), NamedInDirect(p, role).value;
    WalkDistance(d, range, chain, 0, i);
    assert Symmetric(d, chain[i], observer);
  }
}
