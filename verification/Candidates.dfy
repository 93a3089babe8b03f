/**
 Weighing the nodes an address hash may stand for: what the frame places out of range is dropped, the
 rest is ranked on three coarse signals, and a leader is named only if a signal separates the top two.

 Distances come from an abstract function of two positions; ages are whole seconds.
 */
module Candidates {
  import opened Wrappers
  import opened Seqs
  import Bags
  import Text

  const MAX_RADIO_HOP_KM: real := 120.0
  const HEARD_TIER_LOCAL := 2
  const HEARD_TIER_NEARBY := 4
  const TIER_UNHEARD: nat := 3
  const DISTANCE_BANDS_KM: seq<real> := [25.0, 75.0, 200.0]
  const RECENCY_BANDS_S: seq<real> := [86400.0, 604800.0, 2592000.0]

  /** When a node was last seen: never, a stamp that does not parse, or a time in seconds. */
  datatype Seen = Never | Garbled | At(t: int)

  datatype Candidate = Candidate(prefix: string, name: string, lat: Option<real>, lon: Option<real>,
                                 nodeType: Option<string>, updated: Seen)

  datatype Heard = Heard(hops: Option<int>, seen: Seen)

  type Position = (real, real)

  /** What this observer brings to the weighing of one field of one frame. */
  datatype Observer = Observer(evidence: map<string, Heard>, own: Option<string>, position: Option<Position>,
                               bound: Option<nat>, now: int, distance: (Position, Position) -> real)

  datatype Entry = Entry(prefix: string, name: string, lat: Option<real>, lon: Option<real>,
                         nodeType: Option<string>, hops: Option<int>, km: Option<real>, seen: Seen)

  datatype Key = Key(tier: nat, band: nat, age: nat, name: string)
  datatype Scored = Scored(key: Key, entry: Entry)

  datatype Signal = Hops | DistanceKm | Recency
  datatype Standing = Unknown | KnownOne | Likely | Ambiguous
  datatype Verdict = Verdict(state: Standing, matches: seq<Entry>, dropped: seq<Entry>, lead: Option<Signal>)

  // -------------------------------------------------------------- the signals

  function HeardTier(hops: Option<int>): (t: nat)
    ensures t <= TIER_UNHEARD
  {
    if hops.None? then TIER_UNHEARD
    else if hops.value < HEARD_TIER_LOCAL then 0
    else if hops.value < HEARD_TIER_NEARBY then 1
    else 2
  }

  /** `_band`: the first band whose edge the value is under; unknown is worse than every band. */
  function Band(value: Option<real>, edges: seq<real>): (b: nat)
    ensures value.None? ==> b == |edges| + 1
    ensures value.Some? ==> b <= |edges| && (b < |edges| ==> value.value < edges[b])
                            && forall i :: 0 <= i < b ==> value.value >= edges[i]
  {
    if value.None? then |edges| + 1
    else if edges == [] || value.value < edges[0] then 0
    else 1 + Band(value, edges[1..])
  }

  function AgeBand(seen: Seen, now: int): (b: nat)
  {
    if !seen.At? then |RECENCY_BANDS_S| + 1
    else Band(Some(if now < seen.t then 0.0 else (now - seen.t) as real), RECENCY_BANDS_S)
  }

  // ---------------------------------------------------------- one candidate

  function First6(s: string): (p: string)
  {
    if |s| > 6 then s[..6] else s
  }

  /** `(observer6 or "")[:6].lower() or None`. */
  function Own6(o: Observer): (p: Option<string>)
  {
    if o.own.None? || o.own.value == "" then None else Some(Text.Lower(First6(o.own.value)))
  }

  predicate IsObserver(o: Observer, c: Candidate)
  {
    Own6(o) == Some(First6(Text.Lower(c.prefix)))
  }

  function HeardOf(o: Observer, c: Candidate): (h: Heard)
  {
    var p := First6(Text.Lower(c.prefix));
    if p in o.evidence then o.evidence[p] else Heard(None, Never)
  }

  function Kilometres(o: Observer, c: Candidate): (km: Option<real>)
  {
    if IsObserver(o, c) then Some(0.0)
    else if o.position.Some? && c.lat.Some? && c.lon.Some?
    then Some(o.distance(o.position.value, (c.lat.value, c.lon.value)))
    else None
  }

  function HopsOf(o: Observer, c: Candidate): (h: Option<int>)
  {
    if IsObserver(o, c) then Some(0) else HeardOf(o, c).hops
  }

  function EntryOf(o: Observer, c: Candidate): (e: Entry)
  {
    var h := HeardOf(o, c);
    Entry(Text.Lower(c.prefix), c.name, c.lat, c.lon, c.nodeType, HopsOf(o, c), Kilometres(o, c),
          if h.seen.Never? then c.updated else h.seen)
  }

  function KeyOf(o: Observer, c: Candidate): (k: Key)
  {
    var e := EntryOf(o, c);
    Key(HeardTier(e.hops), Band(e.km, DISTANCE_BANDS_KM), AgeBand(e.seen, o.now),
        Text.Lower(if c.name != "" then c.name else e.prefix))
  }

  /** The only way out: a bound, a distance beyond it, and no measurement that says otherwise. */
  predicate OutOfRange(o: Observer, c: Candidate)
  {
    var e := EntryOf(o, c);
    && o.bound.Some? && o.bound.value != 0
    && e.km.Some? && e.km.value > o.bound.value as real * MAX_RADIO_HOP_KM
    && (e.hops.None? || e.hops.value > o.bound.value)
  }

  function ScoredOf(o: Observer, c: Candidate): (s: Scored)
  {
    Scored(KeyOf(o, c), EntryOf(o, c))
  }

  // -------------------------------------------------------------- the ranking

  /** The evidence bands in their order of priority; the name only breaks ties. */
  predicate EvidenceLess(a: Key, b: Key)
  {
    a.tier < b.tier || (a.tier == b.tier && (a.band < b.band || (a.band == b.band && a.age < b.age)))
  }

  predicate SameEvidence(a: Key, b: Key)
  {
    a.tier == b.tier && a.band == b.band && a.age == b.age
  }

  predicate KeyLeq(a: Key, b: Key)
  {
    EvidenceLess(a, b) || (SameEvidence(a, b) && Text.Leq(a.name, b.name))
  }

  /** `list.sort` by key, which is stable: an entry goes in front of the first one that is not before it. */
  function Insert(x: Scored, ss: seq<Scored>): (r: seq<Scored>)
    ensures multiset(r) == multiset{x} + multiset(ss)
  {
    if ss == [] || KeyLeq(x.key, ss[0].key) then [x] + ss
    else
      assert ss == [ss[0]] + ss[1..];
      [ss[0]] + Insert(x, ss[1..])
  }

  function Sort(ss: seq<Scored>): (r: seq<Scored>)
    ensures multiset(r) == multiset(ss)
  {
    if ss == [] then []
    else
      assert ss == [ss[0]] + ss[1..];
      Insert(ss[0], Sort(ss[1..]))
  }

  ghost predicate Sorted(ss: seq<Scored>)
  {
    forall i, j :: 0 <= i < j < |ss| ==> KeyLeq(ss[i].key, ss[j].key)
  }

  /** The first signal on which two keys differ. */
  function Difference(a: Key, b: Key): (s: Option<Signal>)
  {
    if a.tier != b.tier then Some(Hops)
    else if a.band != b.band then Some(DistanceKm)
    else if a.age != b.age then Some(Recency)
    else None
  }

  function Entries(ss: seq<Scored>): (es: seq<Entry>)
    ensures |es| == |ss|
  {
    if ss == [] then [] else [ss[0].entry] + Entries(ss[1..])
  }

  function Keys(ss: seq<Scored>): (ks: seq<Key>)
    ensures |ks| == |ss|
    ensures forall i :: 0 <= i < |ss| ==> ks[i] == ss[i].key
  {
    if ss == [] then [] else [ss[0].key] + Keys(ss[1..])
  }

  /** The candidates that stay, and those that go, each in the order of the input. */
  function Kept(o: Observer, cs: seq<Candidate>): (r: seq<Candidate>)
  {
    if cs == [] then [] else (if OutOfRange(o, cs[0]) then [] else [cs[0]]) + Kept(o, cs[1..])
  }

  function Gone(o: Observer, cs: seq<Candidate>): (r: seq<Candidate>)
  {
    if cs == [] then [] else (if OutOfRange(o, cs[0]) then [cs[0]] else []) + Gone(o, cs[1..])
  }

  function ScoreAll(o: Observer, cs: seq<Candidate>): (ss: seq<Scored>)
  {
    if cs == [] then [] else [ScoredOf(o, cs[0])] + ScoreAll(o, cs[1..])
  }

  function EntryAll(o: Observer, cs: seq<Candidate>): (es: seq<Entry>)
  {
    if cs == [] then [] else [EntryOf(o, cs[0])] + EntryAll(o, cs[1..])
  }

  function Ranked(o: Observer, cs: seq<Candidate>): (ss: seq<Scored>)
  {
    Sort(ScoreAll(o, Kept(o, cs)))
  }

  function StandingOf(ss: seq<Scored>): (s: (Standing, Option<Signal>))
  {
    if ss == [] then (Unknown, None)
    else if |ss| == 1 then (KnownOne, None)
    else
      var lead := Difference(ss[0].key, ss[1].key);
      (if lead.Some? then Likely else Ambiguous, lead)
  }

  function Weighed(o: Observer, cs: seq<Candidate>): (v: Verdict)
  {
    var ss := Ranked(o, cs);
    var (state, lead) := StandingOf(ss);
    Verdict(state, Entries(ss), EntryAll(o, Gone(o, cs)), lead)
  }

  /** `weigh`: exclusion in a loop over the candidates, then the sort and the comparison of the top two. */
  method Weigh(o: Observer, cs: seq<Candidate>) returns (v: Verdict)
    ensures v == Weighed(o, cs)
  {
    var scored: seq<Scored>, dropped: seq<Entry> := [], [];
    ghost var goal := (ScoreAll(o, Kept(o, cs)), EntryAll(o, Gone(o, cs)));
    Empty(goal.0);
    Empty(goal.1);
    var i := 0;
    while i < |cs|
      invariant 0 <= i <= |cs|
      invariant goal == (scored + ScoreAll(o, Kept(o, cs[i..])), dropped + EntryAll(o, Gone(o, cs[i..])))
    {
      var c := cs[i];
      assert cs[i..][1..] == cs[i + 1..];
      WeighTurn(o, cs[i..], scored, dropped);
      if OutOfRange(o, c) {
        dropped := dropped + [EntryOf(o, c)];
      } else {
        scored := scored + [ScoredOf(o, c)];
      }
      i := i + 1;
    }
    Empty(scored);
    Empty(dropped);
    scored := Sort(scored);
    var (state, lead) := StandingOf(scored);
    v := Verdict(state, Entries(scored), dropped, lead);
  }

  lemma WeighTurn(o: Observer, cs: seq<Candidate>, scored: seq<Scored>, dropped: seq<Entry>)
    requires cs != []
    ensures scored + ScoreAll(o, Kept(o, cs))
         == (if OutOfRange(o, cs[0]) then scored else scored + [ScoredOf(o, cs[0])]) + ScoreAll(o, Kept(o, cs[1..]))
    ensures dropped + EntryAll(o, Gone(o, cs))
         == (if OutOfRange(o, cs[0]) then dropped + [EntryOf(o, cs[0])] else dropped) + EntryAll(o, Gone(o, cs[1..]))
  {
    var kept, gone := Kept(o, cs[1..]), Gone(o, cs[1..]);
    if OutOfRange(o, cs[0]) {
      Empty(kept);
      Cons(cs[0], gone);
      Assoc(dropped, [EntryOf(o, cs[0])], EntryAll(o, gone));
    } else {
      Empty(gone);
      Cons(cs[0], kept);
      Assoc(scored, [ScoredOf(o, cs[0])], ScoreAll(o, kept));
    }
  }

  // ----------------------------------------------------------- order of keys

  lemma KeyTotal(a: Key, b: Key)
    ensures KeyLeq(a, b) || KeyLeq(b, a)
  {
    Text.LeqTotal(a.name, b.name);
  }

  lemma KeyTransitive(a: Key, b: Key, c: Key)
    requires KeyLeq(a, b) && KeyLeq(b, c)
    ensures KeyLeq(a, c)
  {
    if SameEvidence(a, b) && SameEvidence(b, c) {
      Text.LeqTransitive(a.name, b.name, c.name);
    }
  }

  lemma KeyAntisymmetric(a: Key, b: Key)
    requires KeyLeq(a, b) && KeyLeq(b, a)
    ensures a == b
  {
    Text.LeqAntisymmetric(a.name, b.name);
  }

  lemma {:induction false} InsertSorted(x: Scored, ss: seq<Scored>)
    requires Sorted(ss)
    ensures Sorted(Insert(x, ss))
  {
    if ss == [] {
    } else if KeyLeq(x.key, ss[0].key) {
      forall i | 0 <= i < |ss| ensures KeyLeq(x.key, ss[i].key) {
        if i > 0 {
          KeyTransitive(x.key, ss[0].key, ss[i].key);
        }
      }
    } else {
      KeyTotal(x.key, ss[0].key);
      InsertSorted(x, ss[1..]);
      var r := Insert(x, ss[1..]);
      forall i | 0 <= i < |r| ensures KeyLeq(ss[0].key, r[i].key) {
        assert r[i] in multiset(r);
        assert r[i] == x || r[i] in ss[1..];
      }
    }
  }

  lemma {:induction false} SortSorted(ss: seq<Scored>)
    ensures Sorted(Sort(ss))
  {
    if ss != [] {
      SortSorted(ss[1..]);
      InsertSorted(ss[0], Sort(ss[1..]));
    }
  }

  // ----------------------------------------------------------- honest ranking

  /** What it means to be ahead on a signal: better there, and level on everything before it. */
  predicate AheadOn(signal: Signal, a: Key, b: Key)
  {
    match signal
    case Hops => a.tier < b.tier
    case DistanceKm => a.tier == b.tier && a.band < b.band
    case Recency => a.tier == b.tier && a.band == b.band && a.age < b.age
  }

  /**
   A leader is named exactly when several stand and the top two differ on a band. It then beats every
   other candidate on the evidence alone, and the named signal is the first on which it beats the second;
   when none is named, the second has the very same evidence.
   */
  lemma LeadIsEarned(o: Observer, cs: seq<Candidate>)
    ensures var ss, v := Ranked(o, cs), Weighed(o, cs);
            && |v.matches| == |ss|
            && (v.state == Unknown <==> |ss| == 0)
            && (v.state == KnownOne <==> |ss| == 1)
            && (v.state == Likely <==> |ss| >= 2 && !SameEvidence(ss[0].key, ss[1].key))
            && (v.lead.Some? <==> v.state == Likely)
            && (v.lead.Some? ==> AheadOn(v.lead.value, ss[0].key, ss[1].key)
                                 && forall i :: 1 <= i < |ss| ==> EvidenceLess(ss[0].key, ss[i].key))
  {
    var ss := Ranked(o, cs);
    SortSorted(ScoreAll(o, Kept(o, cs)));
    if |ss| >= 2 && !SameEvidence(ss[0].key, ss[1].key) {
      LeaderBeatsAll(ss);
    }
  }

  lemma LeaderBeatsAll(ss: seq<Scored>)
    requires Sorted(ss) && |ss| >= 2 && !SameEvidence(ss[0].key, ss[1].key)
    ensures forall i :: 1 <= i < |ss| ==> EvidenceLess(ss[0].key, ss[i].key)
    ensures AheadOn(Difference(ss[0].key, ss[1].key).value, ss[0].key, ss[1].key)
  {
    assert KeyLeq(ss[0].key, ss[1].key);
    forall i | 1 <= i < |ss| ensures EvidenceLess(ss[0].key, ss[i].key) {
      if i > 1 {
        assert KeyLeq(ss[1].key, ss[i].key);
      }
    }
  }

  // -------------------------------------------------- independence of order

  /** What each candidate contributes to the keys, to the matches and to the dropped. */
  function KeyShare(o: Observer): (f: Candidate -> multiset<Key>)
  {
    c => if OutOfRange(o, c) then multiset{} else multiset{KeyOf(o, c)}
  }

  function MatchShare(o: Observer): (f: Candidate -> multiset<Entry>)
  {
    c => if OutOfRange(o, c) then multiset{} else multiset{EntryOf(o, c)}
  }

  function DropShare(o: Observer): (f: Candidate -> multiset<Entry>)
  {
    c => if OutOfRange(o, c) then multiset{EntryOf(o, c)} else multiset{}
  }

  lemma {:induction false} KeyShares(o: Observer, cs: seq<Candidate>)
    ensures multiset(Keys(ScoreAll(o, Kept(o, cs)))) == Bags.Bag(KeyShare(o), cs)
  {
    if cs != [] {
      var kept := Kept(o, cs[1..]);
      KeyShares(o, cs[1..]);
      if OutOfRange(o, cs[0]) {
        Empty(kept);
      } else {
        Cons(cs[0], kept);
        Cons(ScoredOf(o, cs[0]), ScoreAll(o, kept));
      }
    }
  }

  lemma {:induction false} MatchShares(o: Observer, cs: seq<Candidate>)
    ensures multiset(EntryAll(o, Kept(o, cs))) == Bags.Bag(MatchShare(o), cs)
  {
    if cs != [] {
      var kept := Kept(o, cs[1..]);
      MatchShares(o, cs[1..]);
      if OutOfRange(o, cs[0]) {
        Empty(kept);
      } else {
        Cons(cs[0], kept);
      }
    }
  }

  lemma {:induction false} DropShares(o: Observer, cs: seq<Candidate>)
    ensures multiset(EntryAll(o, Gone(o, cs))) == Bags.Bag(DropShare(o), cs)
  {
    if cs != [] {
      var gone := Gone(o, cs[1..]);
      DropShares(o, cs[1..]);
      if OutOfRange(o, cs[0]) {
        Cons(cs[0], gone);
      } else {
        Empty(gone);
      }
    }
  }

  lemma {:induction false} InsertKeys(x: Scored, ss: seq<Scored>)
    ensures multiset(Keys(Insert(x, ss))) == multiset(Keys(ss)) + multiset{x.key}
  {
    if ss == [] || KeyLeq(x.key, ss[0].key) {
      Cons(x, ss);
    } else {
      InsertKeys(x, ss[1..]);
      Cons(ss[0], Insert(x, ss[1..]));
    }
  }

  lemma {:induction false} InsertEntries(x: Scored, ss: seq<Scored>)
    ensures multiset(Entries(Insert(x, ss))) == multiset(Entries(ss)) + multiset{x.entry}
  {
    if ss == [] || KeyLeq(x.key, ss[0].key) {
      Cons(x, ss);
    } else {
      InsertEntries(x, ss[1..]);
      Cons(ss[0], Insert(x, ss[1..]));
    }
  }

  lemma {:induction false} SortKeys(ss: seq<Scored>)
    ensures multiset(Keys(Sort(ss))) == multiset(Keys(ss))
  {
    if ss != [] {
      SortKeys(ss[1..]);
      InsertKeys(ss[0], Sort(ss[1..]));
    }
  }

  lemma {:induction false} SortEntries(ss: seq<Scored>)
    ensures multiset(Entries(Sort(ss))) == multiset(Entries(ss))
  {
    if ss != [] {
      SortEntries(ss[1..]);
      InsertEntries(ss[0], Sort(ss[1..]));
    }
  }

  ghost predicate KeysSorted(ks: seq<Key>)
  {
    forall i, j :: 0 <= i < j < |ks| ==> KeyLeq(ks[i], ks[j])
  }

  /** Sorted keys with the same contents are the same keys. */
  lemma {:induction false} SortedUnique(a: seq<Key>, b: seq<Key>)
    requires KeysSorted(a) && KeysSorted(b) && multiset(a) == multiset(b)
    ensures a == b
  {
    assert |multiset(a)| == |multiset(b)|;
    if a != [] {
      FirstLeast(a, b);
      FirstLeast(b, a);
      KeyAntisymmetric(a[0], b[0]);
      SortedTail(a);
      SortedTail(b);
      SortedUnique(a[1..], b[1..]);
    }
  }

  lemma SortedTail(a: seq<Key>)
    requires KeysSorted(a) && a != []
    ensures KeysSorted(a[1..]) && a == [a[0]] + a[1..] && multiset(a[1..]) == multiset(a) - multiset{a[0]}
  {
    assert a == [a[0]] + a[1..];
  }

  lemma FirstLeast(a: seq<Key>, b: seq<Key>)
    requires KeysSorted(a) && a != [] && b != [] && multiset(a) == multiset(b)
    ensures KeyLeq(a[0], b[0])
  {
    assert b[0] in multiset(a);
    var j :| 0 <= j < |a| && a[j] == b[0];
    KeyTotal(a[0], a[0]);
  }

  /** The order in which the candidates come says nothing: state, lead and both lists stay the same. */
  lemma OrderIrrelevant(o: Observer, cs: seq<Candidate>, ds: seq<Candidate>)
    requires multiset(cs) == multiset(ds)
    ensures var v, w := Weighed(o, cs), Weighed(o, ds);
            && v.state == w.state && v.lead == w.lead
            && multiset(v.matches) == multiset(w.matches)
            && multiset(v.dropped) == multiset(w.dropped)
  {
    SameKeys(o, cs, ds);
    SameStanding(Ranked(o, cs), Ranked(o, ds));
    SameMatches(o, cs, ds);
    Bags.BagPermuted(DropShare(o), cs, ds);
    DropShares(o, cs);
    DropShares(o, ds);
  }

  lemma SameStanding(ss: seq<Scored>, tt: seq<Scored>)
    requires Keys(ss) == Keys(tt)
    ensures StandingOf(ss) == StandingOf(tt)
  {
    assert |Keys(ss)| == |Keys(tt)|;
    assert forall i :: 0 <= i < |ss| ==> Keys(ss)[i] == ss[i].key && Keys(tt)[i] == tt[i].key;
  }

  lemma SameKeys(o: Observer, cs: seq<Candidate>, ds: seq<Candidate>)
    requires multiset(cs) == multiset(ds)
    ensures Keys(Ranked(o, cs)) == Keys(Ranked(o, ds))
  {
    var s, t := ScoreAll(o, Kept(o, cs)), ScoreAll(o, Kept(o, ds));
    Bags.BagPermuted(KeyShare(o), cs, ds);
    KeyShares(o, cs);
    KeyShares(o, ds);
    SortKeys(s);
    SortKeys(t);
    SortSorted(s);
    SortSorted(t);
    SortedUnique(Keys(Sort(s)), Keys(Sort(t)));
  }

  lemma SameMatches(o: Observer, cs: seq<Candidate>, ds: seq<Candidate>)
    requires multiset(cs) == multiset(ds)
    ensures multiset(Entries(Ranked(o, cs))) == multiset(Entries(Ranked(o, ds)))
  {
    Bags.BagPermuted(MatchShare(o), cs, ds);
    MatchShares(o, cs);
    MatchShares(o, ds);
    RankedEntries(o, cs);
    RankedEntries(o, ds);
  }

  // --------------------------------------------------------------- exclusion

  /** Kept and dropped partition the candidates: nothing is lost, nothing appears. */
  lemma {:induction false} Partition(o: Observer, cs: seq<Candidate>)
    ensures multiset(Kept(o, cs)) + multiset(Gone(o, cs)) == multiset(cs)
  {
    if cs != [] {
      assert cs == [cs[0]] + cs[1..];
      Partition(o, cs[1..]);
    }
  }

  /** Who is dropped: exactly the candidates out of range. */
  lemma {:induction false} DroppedAreOutOfRange(o: Observer, cs: seq<Candidate>, c: Candidate)
    ensures c in Gone(o, cs) <==> c in cs && OutOfRange(o, c)
    ensures c in Kept(o, cs) <==> c in cs && !OutOfRange(o, c)
  {
    if cs != [] {
      assert cs == [cs[0]] + cs[1..];
      DroppedAreOutOfRange(o, cs[1..], c);
    }
  }

  lemma {:induction false} EntriesOfScores(o: Observer, cs: seq<Candidate>)
    ensures Entries(ScoreAll(o, cs)) == EntryAll(o, cs)
  {
    if cs != [] {
      Cons(ScoredOf(o, cs[0]), ScoreAll(o, cs[1..]));
      EntriesOfScores(o, cs[1..]);
    }
  }

  lemma RankedEntries(o: Observer, cs: seq<Candidate>)
    ensures multiset(Entries(Ranked(o, cs))) == multiset(EntryAll(o, Kept(o, cs)))
  {
    SortEntries(ScoreAll(o, Kept(o, cs)));
    EntriesOfScores(o, Kept(o, cs));
  }

  /** The verdict lists every candidate's entry once: among the matches, or among the dropped. */
  lemma VerdictPartition(o: Observer, cs: seq<Candidate>)
    ensures var v := Weighed(o, cs);
            && multiset(v.matches) == multiset(EntryAll(o, Kept(o, cs)))
            && v.dropped == EntryAll(o, Gone(o, cs))
            && multiset(Kept(o, cs)) + multiset(Gone(o, cs)) == multiset(cs)
  {
    RankedEntries(o, cs);
    Partition(o, cs);
  }

  /** A measurement beats the threshold: who was heard within the bound stays, and so does the observer. */
  lemma MeasuredStays(o: Observer, c: Candidate)
    requires IsObserver(o, c) || (o.bound.Some? && HopsOf(o, c).Some? && HopsOf(o, c).value <= o.bound.value)
    ensures !OutOfRange(o, c)
  {
  }
}
