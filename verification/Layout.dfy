/**
 The order of the blocks on a node page: what an administrator once stored, with every block that came
 later put where the default order wants it.
 */
module Layout {
  import opened Seqs
  import opened Wrappers

  datatype Block = Block(key: string, visible: bool)

  /** An element of the stored JSON: an object, or something that is not one. */
  datatype Item = Entry(key: string, visible: bool) | NotAnObject

  const DEFAULT_LAYOUT: seq<Block> :=
    [Block("status", true), Block("battery", true), Block("channels", true), Block("messages", true),
     Block("airtime", true), Block("filter", true), Block("other", true), Block("charts", true),
     Block("map", true), Block("neighbors", true)]

  predicate Distinct(l: seq<Block>)
  {
    forall i, j :: 0 <= i < j < |l| ==> l[i].key != l[j].key
  }

  lemma DefaultsDistinct()
    ensures Distinct(DEFAULT_LAYOUT)
  {
  }

  predicate Has(l: seq<Block>, key: string)
  {
    exists i :: 0 <= i < |l| && l[i].key == key
  }

  predicate AllKnown(d: seq<Block>, l: seq<Block>)
  {
    forall i :: 0 <= i < |l| ==> Has(d, l[i].key)
  }

  /** Where a block comes in the default order. */
  function Place(d: seq<Block>, key: string): (p: nat)
    requires Has(d, key)
    ensures p < |d| && d[p].key == key
  {
    if d[0].key == key then 0 else
      assert Has(d[1..], key) by {
        var i :| 0 <= i < |d| && d[i].key == key;
        assert d[1..][i - 1].key == key;
      }
      1 + Place(d[1..], key)
  }

  // ---------------------------------------------------------- what was stored

  /** The known blocks among the items, each where it comes first. */
  function Kept(d: seq<Block>, items: seq<Item>): (l: seq<Block>)
    ensures Distinct(l) && AllKnown(d, l)
    decreases |items|
  {
    if items == [] then []
    else
      var l := Kept(d, items[..|items| - 1]);
      var item := items[|items| - 1];
      if item.Entry? && Has(d, item.key) && !Has(l, item.key) then l + [Block(item.key, item.visible)] else l
  }

  /** One element that is not an object and nothing of the whole counts. */
  function Stored(d: seq<Block>, raw: Option<seq<Item>>): (l: seq<Block>)
  {
    if raw.None? || NotAnObject in raw.value then [] else Kept(d, raw.value)
  }

  // ------------------------------------------------------- what came later

  /** The first block that belongs after place `p`, or the end. */
  function FirstLater(d: seq<Block>, l: seq<Block>, p: nat): (i: nat)
    requires AllKnown(d, l)
    ensures i <= |l|
    ensures forall j :: 0 <= j < i ==> Place(d, l[j].key) <= p
    ensures i < |l| ==> Place(d, l[i].key) > p
  {
    if l == [] || Place(d, l[0].key) > p then 0 else 1 + FirstLater(d, l[1..], p)
  }

  function Insert<T>(l: seq<T>, i: nat, b: T): (m: seq<T>)
    requires i <= |l|
  {
    l[..i] + [b] + l[i..]
  }

  /** The missing blocks of `d[p..]`, one after another. */
  function Filled(d: seq<Block>, l: seq<Block>, p: nat): (m: seq<Block>)
    requires AllKnown(d, l) && p <= |d|
    decreases |d| - p
  {
    if p == |d| then l
    else if Has(l, d[p].key) then Filled(d, l, p + 1)
    else
      assert Has(d, d[p].key);
      InsertKnown(d, l, FirstLater(d, l, p), d[p]);
      Filled(d, Insert(l, FirstLater(d, l, p), d[p]), p + 1)
  }

  function Merged(d: seq<Block>, raw: Option<seq<Item>>): (l: seq<Block>)
  {
    Filled(d, Stored(d, raw), 0)
  }

  // -------------------------------------------------------------- the theorems

  /** The blocks of `l` that are among `s`. */
  function Only(l: seq<Block>, s: seq<Block>): (m: seq<Block>)
  {
    if l == [] then [] else (if Has(s, l[0].key) then [l[0]] else []) + Only(l[1..], s)
  }

  function Places(d: seq<Block>, l: seq<Block>): (ps: seq<nat>)
    requires AllKnown(d, l)
  {
    seq(|l|, i requires 0 <= i < |l| => Place(d, l[i].key))
  }

  /** Everything before it belongs before it, and what follows it belongs after it. */
  predicate Seated(ps: seq<nat>, q: nat)
    requires q < |ps|
  {
    (forall i :: 0 <= i < q ==> ps[i] < ps[q]) && (q + 1 < |ps| ==> ps[q] < ps[q + 1])
  }

  predicate HasAll(l: seq<Block>, d: seq<Block>)
  {
    forall i :: 0 <= i < |d| ==> Has(l, d[i].key)
  }

  /** What was not stored is as in the default, among its first `p` blocks, and seated. */
  predicate RestSeated(d: seq<Block>, s: seq<Block>, l: seq<Block>, p: nat)
    requires AllKnown(d, l) && p <= |d|
  {
    forall q :: 0 <= q < |l| && !Has(s, l[q].key) ==> l[q] in d[..p] && Seated(Places(d, l), q)
  }

  /** What holds of the layout when the first `p` blocks are all in. */
  predicate Good(d: seq<Block>, s: seq<Block>, l: seq<Block>, p: nat)
    requires p <= |d|
  {
    Distinct(l) && AllKnown(d, l) && HasAll(l, d[..p]) && Only(l, s) == s && RestSeated(d, s, l, p)
  }

  lemma {:induction false} OnlyConcat(a: seq<Block>, b: seq<Block>, s: seq<Block>)
    ensures Only(a + b, s) == Only(a, s) + Only(b, s)
  {
    if a == [] {
      Empty(b);
      Empty(Only(b, s));
    } else {
      ConsConcat(a, b);
      OnlyConcat(a[1..], b, s);
      Assoc(if Has(s, a[0].key) then [a[0]] else [], Only(a[1..], s), Only(b, s));
    }
  }

  lemma {:induction false} OnlyAll(l: seq<Block>, s: seq<Block>)
    requires forall i :: 0 <= i < |l| ==> Has(s, l[i].key)
    ensures Only(l, s) == l
  {
    if l != [] {
      OnlyAll(l[1..], s);
      assert l == [l[0]] + l[1..];
    }
  }

  lemma OnlyInsert(l: seq<Block>, i: nat, b: Block, s: seq<Block>)
    requires i <= |l| && !Has(s, b.key)
    ensures Only(Insert(l, i, b), s) == Only(l, s)
  {
    var before, after := l[..i], l[i..];
    OnlyConcat(before + [b], after, s);
    OnlyConcat(before, [b], s);
    Empty(Only(before, s));
    OnlyConcat(before, after, s);
    assert l == before + after;
  }

  // ------------------------------------------------------- one block comes in

  lemma InsertAt<T>(l: seq<T>, i: nat, b: T, j: nat)
    requires i <= |l| && j <= |l|
    ensures Insert(l, i, b)[j] == if j < i then l[j] else if j == i then b else l[j - 1]
  {
  }

  lemma InsertHas(l: seq<Block>, i: nat, b: Block, key: string)
    requires i <= |l|
    ensures Has(Insert(l, i, b), key) <==> key == b.key || Has(l, key)
  {
    var m := Insert(l, i, b);
    InsertAt(l, i, b, i);
    if Has(l, key) {
      var j :| 0 <= j < |l| && l[j].key == key;
      InsertAt(l, i, b, if j < i then j else j + 1);
    }
    if Has(m, key) {
      var j :| 0 <= j < |m| && m[j].key == key;
      InsertAt(l, i, b, j);
    }
  }

  lemma InsertDistinct(l: seq<Block>, i: nat, b: Block)
    requires Distinct(l) && i <= |l| && !Has(l, b.key)
    ensures Distinct(Insert(l, i, b))
  {
    var m := Insert(l, i, b);
    forall j, k | 0 <= j < k < |m|
      ensures m[j].key != m[k].key
    {
      InsertAt(l, i, b, j);
      InsertAt(l, i, b, k);
    }
  }

  lemma InsertKnown(d: seq<Block>, l: seq<Block>, i: nat, b: Block)
    requires AllKnown(d, l) && i <= |l| && Has(d, b.key)
    ensures AllKnown(d, Insert(l, i, b))
    ensures Places(d, Insert(l, i, b)) == Insert(Places(d, l), i, Place(d, b.key))
  {
    var m, p := Insert(l, i, b), Place(d, b.key);
    forall j | 0 <= j < |m|
      ensures Has(d, m[j].key) && Place(d, m[j].key) == Insert(Places(d, l), i, p)[j]
    {
      InsertAt(l, i, b, j);
      InsertAt(Places(d, l), i, p, j);
    }
  }

  /** The newcomer is seated, and so is everyone who was and belongs before it. */
  lemma InsertSeated(ps: seq<nat>, i: nat, x: nat, q: nat)
    requires i <= |ps| && (forall j :: 0 <= j < i ==> ps[j] < x) && (i < |ps| ==> x < ps[i])
    requires q == i || (q < i && Seated(ps, q))
    ensures Seated(Insert(ps, i, x), q)
  {
    var m := Insert(ps, i, x);
    InsertAt(ps, i, x, q);
    if q + 1 < |m| {
      InsertAt(ps, i, x, q + 1);
    }
    forall j | 0 <= j < q
      ensures m[j] < m[q]
    {
      InsertAt(ps, i, x, j);
    }
  }

  lemma EarlierPlace(d: seq<Block>, b: Block, p: nat)
    requires Distinct(d) && p <= |d| && b in d[..p]
    ensures b in d && Has(d, b.key) && Place(d, b.key) < p
  {
    var i :| 0 <= i < p && d[..p][i] == b;
  }

  lemma NotHere(d: seq<Block>, l: seq<Block>, p: nat, j: nat)
    requires AllKnown(d, l) && p < |d| && !Has(l, d[p].key) && j < |l|
    ensures Place(d, l[j].key) != p
  {
  }

  /** Where the missing block `d[p]` goes: the places before are lower, and the next one is higher. */
  lemma LaterPlaces(d: seq<Block>, l: seq<Block>, p: nat)
    requires p < |d| && AllKnown(d, l) && !Has(l, d[p].key)
    ensures var i, ps := FirstLater(d, l, p), Places(d, l);
            (forall j :: 0 <= j < i ==> ps[j] < p) && (i < |ps| ==> p < ps[i])
  {
    var i, ps := FirstLater(d, l, p), Places(d, l);
    forall j | 0 <= j < i
      ensures ps[j] < p
    {
      NotHere(d, l, p, j);
    }
  }

  lemma SeatedBefore(ps: seq<nat>, i: nat, x: nat, q: nat)
    requires q < |ps| && Seated(ps, q) && ps[q] < x && i <= |ps| && (i < |ps| ==> x < ps[i])
    ensures q < i
  {
  }

  /** Blocks that came in before `d[p]` sit before it. */
  lemma CameBefore(d: seq<Block>, s: seq<Block>, l: seq<Block>, p: nat, q: nat)
    requires Distinct(d) && p < |d| && AllKnown(d, l) && RestSeated(d, s, l, p) && q < |l| && !Has(s, l[q].key)
    ensures q < FirstLater(d, l, p) && l[q] in d[..p + 1] && Seated(Places(d, l), q)
  {
    var i, ps := FirstLater(d, l, p), Places(d, l);
    assert l[q] in d[..p] && Seated(ps, q);
    EarlierPlace(d, l[q], p);
    assert d[..p] <= d[..p + 1];
    SeatedBefore(ps, i, p, q);
  }

  lemma StepSeated(d: seq<Block>, s: seq<Block>, l: seq<Block>, p: nat, q: nat)
    requires Distinct(d) && p < |d| && AllKnown(d, l) && RestSeated(d, s, l, p) && !Has(l, d[p].key) && q <= |l|
    requires !Has(s, Insert(l, FirstLater(d, l, p), d[p])[q].key)
    ensures var i := FirstLater(d, l, p);
            Insert(l, i, d[p])[q] in d[..p + 1] && Seated(Insert(Places(d, l), i, p), q)
  {
    var i := FirstLater(d, l, p);
    InsertAt(l, i, d[p], q);
    LaterPlaces(d, l, p);
    if q == i {
      assert d[..p + 1][p] == d[p];
    } else {
      CameBefore(d, s, l, p, if q < i then q else q - 1);
    }
    InsertSeated(Places(d, l), i, p, q);
  }

  lemma StepHas(d: seq<Block>, l: seq<Block>, i: nat, p: nat)
    requires p < |d| && HasAll(l, d[..p]) && i <= |l|
    ensures HasAll(Insert(l, i, d[p]), d[..p + 1])
  {
    forall j | 0 <= j < p + 1
      ensures Has(Insert(l, i, d[p]), d[j].key)
    {
      assert j < p ==> d[..p][j] == d[j];
      InsertHas(l, i, d[p], d[j].key);
    }
  }

  lemma StepRest(d: seq<Block>, s: seq<Block>, l: seq<Block>, p: nat)
    requires Distinct(d) && p < |d| && AllKnown(d, l) && RestSeated(d, s, l, p) && !Has(l, d[p].key)
    requires Has(d, d[p].key) && Place(d, d[p].key) == p
    ensures AllKnown(d, Insert(l, FirstLater(d, l, p), d[p]))
    ensures RestSeated(d, s, Insert(l, FirstLater(d, l, p), d[p]), p + 1)
  {
    var i := FirstLater(d, l, p);
    var m := Insert(l, i, d[p]);
    InsertKnown(d, l, i, d[p]);
    forall q | 0 <= q < |m| && !Has(s, m[q].key)
      ensures m[q] in d[..p + 1] && Seated(Places(d, m), q)
    {
      StepSeated(d, s, l, p, q);
    }
  }

  lemma GoodStep(d: seq<Block>, s: seq<Block>, l: seq<Block>, p: nat)
    requires Distinct(d) && p < |d| && Good(d, s, l, p) && HasAll(l, s) && !Has(l, d[p].key)
    ensures Good(d, s, Insert(l, FirstLater(d, l, p), d[p]), p + 1)
    ensures HasAll(Insert(l, FirstLater(d, l, p), d[p]), s)
  {
    var i := FirstLater(d, l, p);
    InsertDistinct(l, i, d[p]);
    StepHas(d, l, i, p);
    StepRest(d, s, l, p);
    OnlyInsert(l, i, d[p], s);
    forall j | 0 <= j < |s|
      ensures Has(Insert(l, i, d[p]), s[j].key)
    {
      InsertHas(l, i, d[p], s[j].key);
    }
  }

  lemma GoodPast(d: seq<Block>, s: seq<Block>, l: seq<Block>, p: nat)
    requires p < |d| && Good(d, s, l, p) && Has(l, d[p].key)
    ensures Good(d, s, l, p + 1)
  {
    assert d[..p + 1] == d[..p] + [d[p]];
  }

  lemma {:induction false} FilledGood(d: seq<Block>, s: seq<Block>, l: seq<Block>, p: nat)
    requires Distinct(d) && p <= |d| && Good(d, s, l, p) && HasAll(l, s)
    ensures Good(d, s, Filled(d, l, p), |d|)
    decreases |d| - p
  {
    if p < |d| {
      if Has(l, d[p].key) {
        GoodPast(d, s, l, p);
        FilledGood(d, s, l, p + 1);
      } else {
        GoodStep(d, s, l, p);
        FilledGood(d, s, Insert(l, FirstLater(d, l, p), d[p]), p + 1);
      }
    }
  }

  /**
   The page has every block exactly once: those that were stored keep their order and visibility, every
   other one is as in the default and stands where the default order wants it.
   */
  lemma EveryBlockSeated(d: seq<Block>, raw: Option<seq<Item>>)
    requires Distinct(d)
    ensures var s, l := Stored(d, raw), Merged(d, raw);
            Distinct(l) && AllKnown(d, l) && HasAll(l, d) && Only(l, s) == s && RestSeated(d, s, l, |d|)
  {
    var s := Stored(d, raw);
    OnlyAll(s, s);
    assert d[..0] == [] && d[..|d|] == d;
    FilledGood(d, s, s, 0);
  }

  // ------------------------------------------------------------ idempotence

  /** A layout as items of JSON again. */
  function Saved(l: seq<Block>): (items: seq<Item>)
    ensures |items| == |l|
  {
    seq(|l|, i requires 0 <= i < |l| => Entry(l[i].key, l[i].visible))
  }

  lemma {:induction false} KeptSaved(d: seq<Block>, l: seq<Block>)
    requires Distinct(l) && AllKnown(d, l)
    ensures Kept(d, Saved(l)) == l
    decreases |l|
  {
    if l != [] {
      var n := |l| - 1;
      assert Saved(l)[..n] == Saved(l[..n]);
      KeptSaved(d, l[..n]);
      assert l == l[..n] + [l[n]];
    }
  }

  lemma {:induction false} NothingMissing(d: seq<Block>, l: seq<Block>, p: nat)
    requires AllKnown(d, l) && p <= |d| && HasAll(l, d)
    ensures Filled(d, l, p) == l
    decreases |d| - p
  {
    if p < |d| {
      NothingMissing(d, l, p + 1);
    }
  }

  /** Storing what the page shows and reading it back shows the same page. */
  lemma MergedIdempotent(d: seq<Block>, raw: Option<seq<Item>>)
    requires Distinct(d)
    ensures Merged(d, Some(Saved(Merged(d, raw)))) == Merged(d, raw)
  {
    var l := Merged(d, raw);
    EveryBlockSeated(d, raw);
    KeptSaved(d, l);
    NothingMissing(d, l, 0);
  }

  // ------------------------------------------------------- the default order

  predicate Increasing(ps: seq<nat>)
  {
    forall i, j :: 0 <= i < j < |ps| ==> ps[i] < ps[j]
  }

  lemma InsertIncreasing(ps: seq<nat>, i: nat, x: nat)
    requires Increasing(ps) && i <= |ps| && (forall j :: 0 <= j < i ==> ps[j] < x) && (i < |ps| ==> x < ps[i])
    ensures Increasing(Insert(ps, i, x))
  {
    var m := Insert(ps, i, x);
    forall j, k | 0 <= j < k < |m|
      ensures m[j] < m[k]
    {
      InsertAt(ps, i, x, j);
      InsertAt(ps, i, x, k);
    }
  }

  lemma StepIncreasing(d: seq<Block>, l: seq<Block>, p: nat)
    requires Distinct(d) && p < |d| && AllKnown(d, l) && Increasing(Places(d, l)) && !Has(l, d[p].key)
    ensures var m := Insert(l, FirstLater(d, l, p), d[p]); AllKnown(d, m) && Increasing(Places(d, m))
  {
    var i := FirstLater(d, l, p);
    LaterPlaces(d, l, p);
    InsertKnown(d, l, i, d[p]);
    InsertIncreasing(Places(d, l), i, p);
  }

  lemma {:induction false} FilledIncreasing(d: seq<Block>, l: seq<Block>, p: nat)
    requires Distinct(d) && p <= |d| && AllKnown(d, l) && Increasing(Places(d, l))
    ensures AllKnown(d, Filled(d, l, p)) && Increasing(Places(d, Filled(d, l, p)))
    decreases |d| - p
  {
    if p < |d| {
      if Has(l, d[p].key) {
        FilledIncreasing(d, l, p + 1);
      } else {
        StepIncreasing(d, l, p);
        FilledIncreasing(d, Insert(l, FirstLater(d, l, p), d[p]), p + 1);
      }
    }
  }

  lemma {:induction false} OnlyFrom(l: seq<Block>, s: seq<Block>)
    ensures forall b :: b in Only(l, s) ==> b in l
  {
    if l != [] {
      OnlyFrom(l[1..], s);
    }
  }

  lemma IncreasingCons(x: nat, ps: seq<nat>)
    ensures Increasing([x] + ps) <==> Increasing(ps) && forall i :: 0 <= i < |ps| ==> x < ps[i]
  {
    var m := [x] + ps;
    if Increasing(m) {
      forall i | 0 <= i < |ps|
        ensures x < ps[i]
      {
        assert m[0] < m[i + 1];
      }
      forall i, j | 0 <= i < j < |ps|
        ensures ps[i] < ps[j]
      {
        assert m[i + 1] < m[j + 1];
      }
    }
  }

  lemma PlacesCons(d: seq<Block>, b: Block, l: seq<Block>)
    requires Has(d, b.key) && AllKnown(d, l)
    ensures AllKnown(d, [b] + l) && Places(d, [b] + l) == [Place(d, b.key)] + Places(d, l)
  {
  }

  lemma {:induction false} OnlyIncreasing(d: seq<Block>, l: seq<Block>, s: seq<Block>)
    requires AllKnown(d, l) && Increasing(Places(d, l))
    ensures AllKnown(d, Only(l, s)) && Increasing(Places(d, Only(l, s)))
  {
    if l != [] {
      var b, tail := l[0], l[1..];
      assert l == [b] + tail;
      PlacesCons(d, b, tail);
      IncreasingCons(Place(d, b.key), Places(d, tail));
      OnlyIncreasing(d, tail, s);
      if Has(s, b.key) {
        AboveAll(d, tail, s, Place(d, b.key));
        PlacesCons(d, b, Only(tail, s));
        IncreasingCons(Place(d, b.key), Places(d, Only(tail, s)));
      } else {
        Empty(Only(tail, s));
      }
    }
  }

  lemma AboveAll(d: seq<Block>, l: seq<Block>, s: seq<Block>, x: nat)
    requires AllKnown(d, l) && AllKnown(d, Only(l, s))
    requires forall i :: 0 <= i < |l| ==> x < Places(d, l)[i]
    ensures forall i :: 0 <= i < |Only(l, s)| ==> x < Places(d, Only(l, s))[i]
  {
    OnlyFrom(l, s);
    var m := Only(l, s);
    forall i | 0 <= i < |m|
      ensures x < Places(d, m)[i]
    {
      assert m[i] in m;
      var k :| 0 <= k < |l| && l[k] == m[i];
      assert Places(d, l)[k] == Places(d, m)[i];
    }
  }

  /** As many increasing places as there are places: every one of them, in order. */
  lemma {:induction false} AllPlaces(ps: seq<nat>, n: nat, k: nat)
    requires Increasing(ps) && |ps| == n && (forall i :: 0 <= i < n ==> ps[i] < n) && k < n
    ensures ps[k] == k
  {
    AtLeast(ps, k);
    AtMost(ps, n, k);
  }

  lemma {:induction false} AtLeast(ps: seq<nat>, k: nat)
    requires Increasing(ps) && k < |ps|
    ensures ps[k] >= k
  {
    if k > 0 {
      AtLeast(ps, k - 1);
    }
  }

  lemma {:induction false} AtMost(ps: seq<nat>, n: nat, k: nat)
    requires Increasing(ps) && |ps| == n && (forall i :: 0 <= i < n ==> ps[i] < n) && k < n
    ensures ps[k] <= k
    decreases n - k
  {
    if k + 1 < n {
      AtMost(ps, n, k + 1);
    }
  }

  /** The page is in the default order exactly when the stored blocks are. */
  lemma DefaultOrderIff(d: seq<Block>, raw: Option<seq<Item>>)
    requires Distinct(d)
    ensures AllKnown(d, Merged(d, raw))
    ensures Increasing(Places(d, Merged(d, raw))) <==> Increasing(Places(d, Stored(d, raw)))
  {
    EveryBlockSeated(d, raw);
    var s, l := Stored(d, raw), Merged(d, raw);
    if Increasing(Places(d, s)) {
      FilledIncreasing(d, s, 0);
    }
    if Increasing(Places(d, l)) {
      OnlyIncreasing(d, l, s);
    }
  }

  /** In particular it then shows the same keys as the default, one for one. */
  lemma DefaultOrderKeys(d: seq<Block>, raw: Option<seq<Item>>)
    requires Distinct(d) && Increasing(Places(d, Stored(d, raw)))
    ensures |Merged(d, raw)| == |d| && forall k :: 0 <= k < |d| ==> Merged(d, raw)[k].key == d[k].key
  {
    var l := Merged(d, raw);
    DefaultOrderIff(d, raw);
    EveryBlockSeated(d, raw);
    var ps := Places(d, l);
    SameSize(d, l);
    forall k | 0 <= k < |d|
      ensures l[k].key == d[k].key
    {
      AllPlaces(ps, |d|, k);
    }
  }

  /** Two lists of distinct blocks with the same keys are equally long. */
  lemma SameSize(d: seq<Block>, l: seq<Block>)
    requires Distinct(d) && Distinct(l) && AllKnown(d, l) && HasAll(l, d)
    ensures |l| == |d|
  {
    Fewer(d, l);
    Fewer(l, d);
  }

  lemma {:induction false} Fewer(d: seq<Block>, l: seq<Block>)
    requires Distinct(l) && AllKnown(d, l)
    ensures |l| <= |d|
    decreases |l|
  {
    if l != [] {
      var p := Place(d, l[0].key);
      var rest := d[..p] + d[p + 1..];
      forall i | 0 <= i < |l[1..]|
        ensures Has(rest, l[1..][i].key)
      {
        var k := l[1..][i].key;
        assert k == l[i + 1].key != l[0].key;
        var j :| 0 <= j < |d| && d[j].key == k;
        assert rest[if j < p then j else j - 1].key == k;
      }
      Fewer(rest, l[1..]);
    }
  }

  // ---------------------------------------------------------- `parse_layout`

  /** One element of the stored JSON after another; the first that is not an object ends it. */
  method ParseStored(d: seq<Block>, items: seq<Item>) returns (layout: seq<Block>)
    ensures layout == Stored(d, Some(items))
  {
    layout := [];
    var i := 0;
    while i < |items|
      invariant i <= |items| && NotAnObject !in items[..i]
      invariant layout == Kept(d, items[..i])
    {
      var item := items[i];
      if item.NotAnObject? {
        return [];
      }
      assert items[..i + 1][..i] == items[..i];
      if Has(d, item.key) && !Has(layout, item.key) {
        layout := layout + [Block(item.key, item.visible)];
      }
      i := i + 1;
    }
    assert items[..|items|] == items;
  }

  /** Every missing block of the default, where the default order wants it. */
  method Fill(d: seq<Block>, stored: seq<Block>) returns (layout: seq<Block>)
    requires AllKnown(d, stored)
    ensures layout == Filled(d, stored, 0)
  {
    layout := stored;
    var index := 0;
    while index < |d|
      invariant index <= |d| && AllKnown(d, layout)
      invariant Filled(d, layout, index) == Filled(d, stored, 0)
    {
      var block := d[index];
      if !Has(layout, block.key) {
        assert Has(d, block.key);
        var place := FirstLater(d, layout, index);
        InsertKnown(d, layout, place, block);
        layout := Insert(layout, place, block);
      }
      index := index + 1;
    }
  }

  method ParseLayout(raw: Option<seq<Item>>) returns (layout: seq<Block>)
    ensures layout == Merged(DEFAULT_LAYOUT, raw)
  {
    layout := [];
    if raw.Some? {
      layout := ParseStored(DEFAULT_LAYOUT, raw.value);
    }
    layout := Fill(DEFAULT_LAYOUT, layout);
  }
}
