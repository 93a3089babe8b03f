/**
 Why excluding by distance is safe: whatever journey a packet made, the node it really names lies within
 the bound, so weighing never drops it, as long as its position and the observer's are where they say.
 */
module Exclusion {
  import opened Wrappers
  import opened HopBound
  import opened Candidates

  /** The observer's distance function agrees with the metric on nodes that are where their position says. */
  ghost predicate TruePlaces(d: HopBound.Distance, o: Observer, here: Node, c: Candidate, there: Node)
  {
    o.position.Some? && c.lat.Some? && c.lon.Some? ==>
      o.distance(o.position.value, (c.lat.value, c.lon.value)) == d(there, here)
  }

  lemma WithinBoundStays(d: HopBound.Distance, o: Observer, here: Node, cs: seq<Candidate>, c: Candidate, there: Node)
    requires c in cs && TruePlaces(d, o, here, c, there)
    requires o.bound.Some? ==> d(there, here) <= o.bound.value as real * MAX_RADIO_HOP_KM
    ensures c in Kept(o, cs) && c !in Gone(o, cs)
  {
    DroppedAreOutOfRange(o, cs, c);
    assert o.bound.Some? ==> o.bound.value as real * MAX_RADIO_HOP_KM >= 0.0;
  }

  /** A flooded packet, heard anywhere on its way: the source and every forwarder survive the weighing. */
  lemma FloodNeverDropsTrueNode(d: HopBound.Distance, p: Flood, here: Node, role: Role, route: string,
                                o: Observer, cs: seq<Candidate>, c: Candidate)
    requires IsMetric(d) && KindOf(route) == Flooding
    requires FloodOnAir(d, MAX_RADIO_HOP_KM, p) && Link(d, MAX_RADIO_HOP_KM, FloodSender(p), here)
    requires NamedInFlood(p, role).Some?
    requires o.bound == RadioHopBound(role, Some(route), Some(|p.path|))
    requires c in cs && TruePlaces(d, o, here, c, FloodChain(p)[NamedInFlood(p, role).value])
    ensures c in Kept(o, cs) && c !in Gone(o, cs)
  {
    FloodBound(d, MAX_RADIO_HOP_KM, p, here, role, route);
    WithinBoundStays(d, o, here, cs, c, FloodChain(p)[NamedInFlood(p, role).value]);
  }

  /** A source-routed packet, heard anywhere on its way: the destination and every hop ahead survive. */
  lemma DirectNeverDropsTrueNode(d: HopBound.Distance, origin: Direct, k: nat, here: Node, role: Role, route: string,
                                 o: Observer, cs: seq<Candidate>, c: Candidate)
    requires IsMetric(d) && KindOf(route) == SourceRouted && k <= |origin.path|
    requires Walk(d, MAX_RADIO_HOP_KM, RouteChain(origin)) && Link(d, MAX_RADIO_HOP_KM, here, Routed(origin, k).sender)
    requires NamedInDirect(Routed(origin, k), role).Some?
    requires o.bound == RadioHopBound(role, Some(route), Some(|Routed(origin, k).path|))
    requires c in cs
    requires TruePlaces(d, o, here, c, ([here] + RouteChain(Routed(origin, k)))[NamedInDirect(Routed(origin, k), role).value])
    ensures c in Kept(o, cs) && c !in Gone(o, cs)
  {
    DirectBound(d, MAX_RADIO_HOP_KM, origin, k, here, role, route);
    WithinBoundStays(d, o, here, cs, c, ([here] + RouteChain(Routed(origin, k)))[NamedInDirect(Routed(origin, k), role).value]);
  }

  /** A frame that gives no bound drops nobody. */
  lemma {:induction false} NoBoundDropsNobody(o: Observer, cs: seq<Candidate>)
    requires o.bound.None?
    ensures Gone(o, cs) == [] && Kept(o, cs) == cs
  {
    if cs != [] {
      NoBoundDropsNobody(o, cs[1..]);
    }
  }
}
