/**
 Home Assistant discovery: every entity of a node and every companion tracker is a retained config message
 on the broker. Three memories have to agree about which messages there are: a cache of what was published
 last (lost at a restart), a ledger in the settings (kept), and the broker itself.

 A node and a companion have their own cache and their own kind of settings row; their keys cannot meet,
 so here they are one cache and one ledger, by owner.
 */
module HaDiscovery {
  import opened Wrappers

  datatype Owner = Node(name: string) | Companion(prefix: string)

  /** An entity: of a node by its key; a companion has only one. */
  datatype Oid = Oid(owner: Owner, key: string)

  /** The topic a config message is retained on. */
  datatype Topic = Topic(component: string, oid: Oid)

  /** What an owner should have, by topic; as canonical JSON it is also the signature in the cache. */
  type Desired = map<Topic, string>

  /** What the ledger remembers of an owner: its entities, with their components. */
  type Row = set<Topic>

  const TRACKER := "device_tracker"

  datatype State = State(sigs: map<Owner, Desired>, ledger: map<Owner, Row>, retained: map<Topic, string>,
                         availability: map<Owner, bool>, configMsgs: nat, removed: nat)

  const EMPTY: State := State(map[], map[], map[], map[], 0, 0)

  /** An owner as a round finds it: what it should have, and whether it has been silent too long. */
  datatype View = View(owner: Owner, desired: Desired, stale: bool)

  // ---------------------------------------------------------- one operation

  function RowOf(s: State, o: Owner): (r: Row)
  {
    if o in s.ledger then s.ledger[o] else {}
  }

  predicate HasEntity(d: Desired, oid: Oid)
  {
    exists t :: t in d && t.oid == oid
  }

  /** Entities of a node that were published before and are no longer wanted. */
  function Dropped(r: Row, d: Desired): (gone: Row)
  {
    set t | t in r && !HasEntity(d, t.oid)
  }

  /** Only a node has entities that can be dropped one by one. */
  function Leaving(o: Owner, r: Row, d: Desired): (gone: Row)
  {
    if o.Node? then Dropped(r, d) else {}
  }

  /** The config part of `_publish_node` and `_publish_companion`; `up` is whether the broker takes messages. */
  function AfterConfig(s: State, up: bool, o: Owner, d: Desired): (t: State)
  {
    if o in s.sigs && s.sigs[o] == d then s
    else
      var gone := Leaving(o, RowOf(s, o), d);
      var noted := s.(sigs := s.sigs[o := d], ledger := s.ledger[o := d.Keys]);
      if up then
        noted.(retained := s.retained + d - gone, configMsgs := s.configMsgs + |d|, removed := s.removed + |gone|)
      else noted
  }

  function AfterPublish(s: State, up: bool, o: Owner, d: Desired, online: bool): (t: State)
  {
    var c := AfterConfig(s, up, o, d);
    if up then c.(availability := c.availability[o := online]) else c
  }

  /** What `forget_node` and `_forget_companion` clear. */
  function Cleared(s: State, o: Owner): (r: Row)
  {
    if o.Node? then RowOf(s, o) else {Topic(TRACKER, Oid(o, ""))}
  }

  /** A node's row is emptied, a companion's is deleted. */
  function AfterForget(s: State, up: bool, o: Owner): (t: State)
  {
    var noted := s.(sigs := s.sigs - {o}, ledger := if o.Node? then s.ledger[o := {}] else s.ledger - {o});
    if up then
      noted.(retained := s.retained - Cleared(s, o), removed := s.removed + |Cleared(s, o)|,
             availability := s.availability[o := false])
    else noted
  }

  // -------------------------------------------------------------- a round

  function AfterViews(s: State, up: bool, views: seq<View>): (t: State)
    decreases |views|
  {
    if views == [] then s
    else AfterViews(AfterPublish(s, up, views[0].owner, views[0].desired, !views[0].stale), up, views[1..])
  }

  predicate Listed(o: Owner, views: seq<View>)
  {
    exists i :: 0 <= i < |views| && views[i].owner == o
  }

  function AfterCleanup(s: State, up: bool, rows: seq<Owner>, views: seq<View>): (t: State)
    decreases |rows|
  {
    if rows == [] then s
    else AfterCleanup(if Listed(rows[0], views) then s else AfterForget(s, up, rows[0]), up, rows[1..], views)
  }

  /** The settings rows of nodes, or those of companions. */
  function Rows(s: State, nodes: bool): (os: set<Owner>)
  {
    set o | o in s.ledger && o.Node? == nodes
  }

  /** In which order the database returns a set of rows. */
  type Order = set<Owner> -> seq<Owner>

  ghost predicate Lists(order: Order)
  {
    && (forall os, o :: o in order(os) <==> o in os)
    && (forall os, i, j :: 0 <= i < j < |order(os)| ==> order(os)[i] != order(os)[j])
  }

  function AfterHalf(s: State, up: bool, views: seq<View>, nodes: bool, order: Order): (t: State)
  {
    var v := AfterViews(s, up, views);
    AfterCleanup(v, up, order(Rows(v, nodes)), views)
  }

  /** `_sweep`: the nodes, then the companions. */
  function AfterSweep(s: State, up: bool, nodes: seq<View>, companions: seq<View>, order: Order): (t: State)
  {
    AfterHalf(AfterHalf(s, up, nodes, true, order), up, companions, false, order)
  }

  // ----------------------------------------------------------- agreement

  /** The component of an entity follows from its key. */
  type Kinds = Oid -> string

  /** Recorded entities belong to their owner, with the component of their kind. */
  predicate ProperRow(kind: Kinds, o: Owner, r: Row)
  {
    && (forall t :: t in r ==> t.oid.owner == o && t.component == kind(t.oid))
    && (o.Companion? ==> r == {Topic(TRACKER, Oid(o, ""))})
  }

  predicate Proper(kind: Kinds, o: Owner, d: Desired)
  {
    ProperRow(kind, o, d.Keys)
  }

  predicate Recorded(s: State, t: Topic)
  {
    t in RowOf(s, t.oid.owner)
  }

  /** The broker holds the configs of `d`, and the ledger knows. */
  predicate Holds(s: State, o: Owner, d: Desired)
  {
    o in s.ledger && s.ledger[o] == d.Keys && forall t :: t in d ==> t in s.retained && s.retained[t] == d[t]
  }

  ghost predicate LedgerIsLive(s: State)
  {
    forall t :: t in s.retained <==> Recorded(s, t)
  }

  predicate CacheIsTrue(s: State)
  {
    forall o :: o in s.sigs ==> Holds(s, o, s.sigs[o])
  }

  predicate RowsProper(kind: Kinds, s: State)
  {
    forall o :: o in s.ledger ==> ProperRow(kind, o, s.ledger[o])
  }

  /** The three memories agree. */
  ghost predicate Agrees(kind: Kinds, s: State)
  {
    RowsProper(kind, s) && LedgerIsLive(s) && CacheIsTrue(s)
  }

  /** Its own topics: what was recorded or is new, less what leaves, is what is recorded now. */
  lemma RowTurns(kind: Kinds, o: Owner, r: Row, d: Desired, t: Topic)
    requires (ProperRow(kind, o, r) || r == {}) && Proper(kind, o, d)
    ensures (t in r || t in d) && t !in Leaving(o, r, d) <==> t in d
  {
    if t in r && HasEntity(d, t.oid) {
      var u :| u in d && u.oid == t.oid;
      assert u.component == kind(u.oid) == t.component;
    }
  }

  /** A topic of another owner is not touched. */
  lemma ForeignTopic(kind: Kinds, o: Owner, r: Row, d: Desired, t: Topic)
    requires (ProperRow(kind, o, r) || r == {}) && Proper(kind, o, d) && t.oid.owner != o
    ensures t !in d && t !in Leaving(o, r, d)
  {
  }

  lemma ConfigLive(kind: Kinds, s: State, o: Owner, d: Desired, t: Topic)
    requires RowsProper(kind, s) && (t in s.retained <==> Recorded(s, t))
    requires Proper(kind, o, d) && !(o in s.sigs && s.sigs[o] == d)
    ensures var u := AfterConfig(s, true, o, d); t in u.retained <==> Recorded(u, t)
  {
    if t.oid.owner == o {
      RowTurns(kind, o, RowOf(s, o), d, t);
    } else {
      ForeignTopic(kind, o, RowOf(s, o), d, t);
    }
  }

  lemma ConfigOthers(kind: Kinds, s: State, o: Owner, d: Desired, p: Owner, e: Desired)
    requires RowsProper(kind, s) && Proper(kind, o, d) && !(o in s.sigs && s.sigs[o] == d)
    requires p != o && Holds(s, p, e)
    ensures Holds(AfterConfig(s, true, o, d), p, e)
  {
    forall t | t in e
      ensures t !in d && t !in Leaving(o, RowOf(s, o), d)
    {
      assert t in s.ledger[p] && ProperRow(kind, p, s.ledger[p]);
      ForeignTopic(kind, o, RowOf(s, o), d, t);
    }
  }

  lemma ConfigOwn(s: State, o: Owner, d: Desired)
    requires !(o in s.sigs && s.sigs[o] == d)
    ensures Holds(AfterConfig(s, true, o, d), o, d)
  {
  }

  lemma ConfigAllLive(kind: Kinds, s: State, o: Owner, d: Desired)
    requires Agrees(kind, s) && Proper(kind, o, d) && !(o in s.sigs && s.sigs[o] == d)
    ensures LedgerIsLive(AfterConfig(s, true, o, d))
  {
    var u := AfterConfig(s, true, o, d);
    forall t
      ensures t in u.retained <==> Recorded(u, t)
    {
      LiveAt(s, t);
      ConfigLive(kind, s, o, d, t);
    }
  }

  lemma ConfigAllTrue(kind: Kinds, s: State, o: Owner, d: Desired)
    requires RowsProper(kind, s) && CacheIsTrue(s) && Proper(kind, o, d) && !(o in s.sigs && s.sigs[o] == d)
    ensures CacheIsTrue(AfterConfig(s, true, o, d))
  {
    var u := AfterConfig(s, true, o, d);
    ConfigOwn(s, o, d);
    forall p | p in u.sigs
      ensures Holds(u, p, u.sigs[p])
    {
      if p != o {
        assert Holds(s, p, s.sigs[p]);
        ConfigOthers(kind, s, o, d, p, s.sigs[p]);
      }
    }
  }

  lemma LiveAt(s: State, t: Topic)
    requires LedgerIsLive(s)
    ensures t in s.retained <==> Recorded(s, t)
  {
  }

  lemma CachedHolds(s: State, o: Owner, d: Desired)
    requires CacheIsTrue(s) && o in s.sigs && s.sigs[o] == d
    ensures Holds(s, o, d)
  {
    assert Holds(s, o, s.sigs[o]);
  }

  lemma ConfigAgrees(kind: Kinds, s: State, o: Owner, d: Desired)
    requires Agrees(kind, s) && Proper(kind, o, d)
    ensures Agrees(kind, AfterConfig(s, true, o, d)) && Holds(AfterConfig(s, true, o, d), o, d)
  {
    if o in s.sigs && s.sigs[o] == d {
      CachedHolds(s, o, d);
    } else {
      ConfigAllLive(kind, s, o, d);
      ConfigAllTrue(kind, s, o, d);
      ConfigOwn(s, o, d);
    }
  }

  /** Availability plays no part in it. */
  lemma SameConfigs(kind: Kinds, s: State, t: State)
    requires Agrees(kind, s) && t == s.(availability := t.availability)
    ensures Agrees(kind, t)
  {
    forall topic
      ensures topic in t.retained <==> Recorded(t, topic)
    {
      LiveAt(s, topic);
    }
    forall o | o in t.sigs
      ensures Holds(t, o, t.sigs[o])
    {
      assert Holds(s, o, s.sigs[o]);
    }
  }

  /** Publishing keeps the three memories in agreement. */
  lemma PublishAgrees(kind: Kinds, s: State, o: Owner, d: Desired, online: bool)
    requires Agrees(kind, s) && Proper(kind, o, d)
    ensures Agrees(kind, AfterPublish(s, true, o, d, online))
  {
    ConfigAgrees(kind, s, o, d);
    SameConfigs(kind, AfterConfig(s, true, o, d), AfterPublish(s, true, o, d, online));
  }

  lemma PublishCaches(s: State, up: bool, o: Owner, d: Desired, online: bool)
    ensures Cached(AfterPublish(s, up, o, d, online), o, d)
  {
  }

  // ------------------------------------------------------------- forgetting

  lemma ForgetLive(kind: Kinds, s: State, o: Owner, t: Topic)
    requires RowsProper(kind, s) && o in s.ledger && (t in s.retained <==> Recorded(s, t))
    ensures var u := AfterForget(s, true, o); t in u.retained <==> Recorded(u, t)
  {
    assert ProperRow(kind, o, s.ledger[o]);
  }

  lemma ForgetOthers(kind: Kinds, s: State, o: Owner, p: Owner, e: Desired)
    requires RowsProper(kind, s) && o in s.ledger && p != o && Holds(s, p, e)
    ensures Holds(AfterForget(s, true, o), p, e)
  {
    assert ProperRow(kind, o, s.ledger[o]) && ProperRow(kind, p, s.ledger[p]);
    forall t | t in e
      ensures t !in Cleared(s, o)
    {
      assert t in s.ledger[p];
    }
  }

  /** Forgetting an owner keeps them in agreement, too. */
  lemma ForgetAgrees(kind: Kinds, s: State, o: Owner)
    requires Agrees(kind, s) && o in s.ledger
    ensures Agrees(kind, AfterForget(s, true, o))
  {
    var u := AfterForget(s, true, o);
    forall t
      ensures t in u.retained <==> Recorded(u, t)
    {
      ForgetLive(kind, s, o, t);
    }
    forall p | p in u.sigs
      ensures Holds(u, p, u.sigs[p])
    {
      ForgetOthers(kind, s, o, p, s.sigs[p]);
    }
    forall p | p in u.ledger
      ensures ProperRow(kind, p, u.ledger[p])
    {
      assert p != o ==> ProperRow(kind, p, s.ledger[p]);
    }
  }

  // ------------------------------------------------------------- whole rounds

  predicate DistinctOwners(views: seq<View>)
  {
    forall i, j :: 0 <= i < j < |views| ==> views[i].owner != views[j].owner
  }

  predicate AllProper(kind: Kinds, views: seq<View>)
  {
    forall i :: 0 <= i < |views| ==> Proper(kind, views[i].owner, views[i].desired)
  }

  /** One half of a round: the nodes in scope, or the companions that opted in; no two with the same key. */
  predicate ProperViews(kind: Kinds, views: seq<View>, nodes: bool)
  {
    DistinctOwners(views) && AllProper(kind, views) && forall i :: 0 <= i < |views| ==> views[i].owner.Node? == nodes
  }

  /** The cache has it, and by agreement so have the ledger and the broker. */
  predicate Cached(s: State, o: Owner, d: Desired)
  {
    o in s.sigs && s.sigs[o] == d
  }

  predicate Shown(s: State, views: seq<View>)
  {
    forall i :: 0 <= i < |views| ==> Cached(s, views[i].owner, views[i].desired)
  }

  /** Nothing of this half is left but what is listed. */
  predicate Tidy(s: State, views: seq<View>, nodes: bool)
  {
    forall o :: o in s.ledger && o.Node? == nodes && !Listed(o, views) ==> s.ledger[o] == {}
  }

  function Find<V>(m: map<Owner, V>, o: Owner): (v: Option<V>)
  {
    if o in m then Some(m[o]) else None
  }

  /** Everything about the owners not concerned is as it was. */
  predicate Untouched(s: State, t: State, o: Owner)
  {
    Find(s.sigs, o) == Find(t.sigs, o) && Find(s.ledger, o) == Find(t.ledger, o)
    && Find(s.availability, o) == Find(t.availability, o)
  }

  lemma ConfigTouches(s: State, up: bool, o: Owner, d: Desired, p: Owner)
    requires p != o
    ensures Untouched(s, AfterConfig(s, up, o, d), p)
  {
    var noted := s.(sigs := s.sigs[o := d], ledger := s.ledger[o := d.Keys]);
    assert Untouched(s, noted, p);
  }

  lemma PublishTouches(s: State, up: bool, o: Owner, d: Desired, online: bool, p: Owner)
    requires p != o
    ensures Untouched(s, AfterPublish(s, up, o, d, online), p)
  {
    ConfigTouches(s, up, o, d, p);
  }

  lemma ForgetTouches(s: State, up: bool, o: Owner, p: Owner)
    requires p != o
    ensures Untouched(s, AfterForget(s, up, o), p)
  {
  }

  lemma {:induction false} ViewsTouch(s: State, up: bool, views: seq<View>, p: Owner)
    requires !Listed(p, views)
    ensures Untouched(s, AfterViews(s, up, views), p)
    decreases |views|
  {
    if views != [] {
      var v := views[0];
      assert v.owner != p;
      PublishTouches(s, up, v.owner, v.desired, !v.stale, p);
      ViewsTouch(AfterPublish(s, up, v.owner, v.desired, !v.stale), up, views[1..], p);
    }
  }

  lemma FirstNotAgain(views: seq<View>)
    requires DistinctOwners(views) && views != []
    ensures !Listed(views[0].owner, views[1..]) && DistinctOwners(views[1..])
  {
    forall i | 0 <= i < |views[1..]|
      ensures views[1..][i].owner != views[0].owner
    {
      assert views[1..][i] == views[i + 1];
    }
  }

  /** Visiting every view keeps them in agreement. */
  lemma {:induction false} ViewsAgree(kind: Kinds, s: State, views: seq<View>)
    requires Agrees(kind, s) && AllProper(kind, views)
    ensures Agrees(kind, AfterViews(s, true, views))
    decreases |views|
  {
    if views != [] {
      var v := views[0];
      PublishAgrees(kind, s, v.owner, v.desired, !v.stale);
      ViewsAgree(kind, AfterPublish(s, true, v.owner, v.desired, !v.stale), views[1..]);
    }
  }

  /** Visiting every view shows every view. */
  lemma {:induction false} ViewsShow(s: State, up: bool, views: seq<View>)
    requires DistinctOwners(views)
    ensures Shown(AfterViews(s, up, views), views)
    decreases |views|
  {
    if views != [] {
      var v, more := views[0], views[1..];
      var t := AfterPublish(s, up, v.owner, v.desired, !v.stale);
      PublishCaches(s, up, v.owner, v.desired, !v.stale);
      FirstNotAgain(views);
      ViewsShow(t, up, more);
      ViewsTouch(t, up, more, v.owner);
      ShownCons(AfterViews(t, up, more), views);
    }
  }

  lemma ShownCons(s: State, views: seq<View>)
    requires views != [] && Cached(s, views[0].owner, views[0].desired) && Shown(s, views[1..])
    ensures Shown(s, views)
  {
    forall i | 0 <= i < |views|
      ensures Cached(s, views[i].owner, views[i].desired)
    {
      if i > 0 {
        assert views[1..][i - 1] == views[i];
      }
    }
  }

  /** The rows still to be looked at are rows of the ledger, each once. */
  predicate RowsLeft(s: State, rows: seq<Owner>)
  {
    (forall o :: o in rows ==> o in s.ledger) && (forall i, j :: 0 <= i < j < |rows| ==> rows[i] != rows[j])
  }

  lemma {:induction false} CleanupTouches(s: State, up: bool, rows: seq<Owner>, views: seq<View>, p: Owner)
    requires Listed(p, views) || p !in rows
    ensures Untouched(s, AfterCleanup(s, up, rows, views), p)
    decreases |rows|
  {
    if rows != [] {
      var t := if Listed(rows[0], views) then s else AfterForget(s, up, rows[0]);
      if t != s {
        assert rows[0] != p;
        ForgetTouches(s, up, rows[0], p);
      }
      CleanupTouches(t, up, rows[1..], views, p);
    }
  }

  lemma RowsStep(s: State, up: bool, rows: seq<Owner>)
    requires RowsLeft(s, rows) && rows != []
    ensures RowsLeft(s, rows[1..]) && RowsLeft(AfterForget(s, up, rows[0]), rows[1..]) && rows[0] !in rows[1..]
  {
    forall i | 0 <= i < |rows[1..]|
      ensures rows[1..][i] in s.ledger && rows[1..][i] != rows[0]
    {
      assert rows[1..][i] == rows[i + 1];
    }
  }

  lemma {:induction false} CleanupAgrees(kind: Kinds, s: State, rows: seq<Owner>, views: seq<View>)
    requires Agrees(kind, s) && RowsLeft(s, rows)
    ensures Agrees(kind, AfterCleanup(s, true, rows, views))
    decreases |rows|
  {
    if rows != [] {
      RowsStep(s, true, rows);
      if Listed(rows[0], views) {
        CleanupAgrees(kind, s, rows[1..], views);
      } else {
        ForgetAgrees(kind, s, rows[0]);
        CleanupAgrees(kind, AfterForget(s, true, rows[0]), rows[1..], views);
      }
    }
  }

  /** A row that is not listed has nothing left. */
  lemma {:induction false} CleanupTidies(s: State, up: bool, rows: seq<Owner>, views: seq<View>, o: Owner)
    requires RowsLeft(s, rows) && !Listed(o, views) && o in rows
    ensures var t := AfterCleanup(s, up, rows, views); o in t.ledger ==> t.ledger[o] == {}
    decreases |rows|
  {
    RowsStep(s, up, rows);
    if rows[0] == o {
      CleanupTouches(AfterForget(s, up, o), up, rows[1..], views, o);
    } else if Listed(rows[0], views) {
      CleanupTidies(s, up, rows[1..], views, o);
    } else {
      CleanupTidies(AfterForget(s, up, rows[0]), up, rows[1..], views, o);
    }
  }

  lemma OrderedRows(s: State, nodes: bool, order: Order)
    requires Lists(order)
    ensures var rows := order(Rows(s, nodes));
            RowsLeft(s, rows) && forall o :: o in rows <==> o in s.ledger && o.Node? == nodes
  {
  }

  /** One half of a round keeps them in agreement. */
  lemma HalfAgrees(kind: Kinds, s: State, views: seq<View>, nodes: bool, order: Order)
    requires Agrees(kind, s) && ProperViews(kind, views, nodes) && Lists(order)
    ensures Agrees(kind, AfterHalf(s, true, views, nodes, order))
  {
    var v := AfterViews(s, true, views);
    ViewsAgree(kind, s, views);
    OrderedRows(v, nodes, order);
    CleanupAgrees(kind, v, order(Rows(v, nodes)), views);
  }

  /** One half of a round: every view shown, nothing else left, whatever reaches the broker. */
  lemma HalfShows(s: State, up: bool, views: seq<View>, nodes: bool, order: Order)
    requires DistinctOwners(views) && Lists(order)
    ensures var u := AfterHalf(s, up, views, nodes, order); Shown(u, views) && Tidy(u, views, nodes)
  {
    var v := AfterViews(s, up, views);
    var rows := order(Rows(v, nodes));
    var u := AfterCleanup(v, up, rows, views);
    ViewsShow(s, up, views);
    OrderedRows(v, nodes, order);
    forall i | 0 <= i < |views|
      ensures Cached(u, views[i].owner, views[i].desired)
    {
      assert Cached(v, views[i].owner, views[i].desired);
      CleanupTouches(v, up, rows, views, views[i].owner);
    }
    forall o | o in u.ledger && o.Node? == nodes && !Listed(o, views)
      ensures u.ledger[o] == {}
    {
      if o in rows {
        CleanupTidies(v, up, rows, views, o);
      } else {
        CleanupTouches(v, up, rows, views, o);
      }
    }
  }

  lemma HalfTouches(s: State, up: bool, views: seq<View>, nodes: bool, order: Order, o: Owner)
    requires Lists(order) && o.Node? != nodes && forall i :: 0 <= i < |views| ==> views[i].owner.Node? == nodes
    ensures Untouched(s, AfterHalf(s, up, views, nodes, order), o)
  {
    var v := AfterViews(s, up, views);
    ViewsTouch(s, up, views, o);
    OrderedRows(v, nodes, order);
    CleanupTouches(v, up, order(Rows(v, nodes)), views, o);
  }

  /** What a round leaves behind: every view cached, and nothing else recorded. */
  predicate Done(s: State, nodes: seq<View>, companions: seq<View>)
  {
    Shown(s, nodes) && Tidy(s, nodes, true) && Shown(s, companions) && Tidy(s, companions, false)
  }

  ghost predicate Settled(kind: Kinds, s: State, nodes: seq<View>, companions: seq<View>)
  {
    Agrees(kind, s) && Done(s, nodes, companions)
  }

  /** A round gets that far whatever state it starts from, and whatever reaches the broker. */
  lemma SweepShows(kind: Kinds, s: State, up: bool, nodes: seq<View>, companions: seq<View>, order: Order)
    requires Lists(order) && ProperViews(kind, nodes, true) && ProperViews(kind, companions, false)
    ensures Done(AfterSweep(s, up, nodes, companions, order), nodes, companions)
  {
    var h := AfterHalf(s, up, nodes, true, order);
    var u := AfterHalf(h, up, companions, false, order);
    HalfShows(s, up, nodes, true, order);
    HalfShows(h, up, companions, false, order);
    forall o: Owner | o.Node?
      ensures Untouched(h, u, o)
    {
      HalfTouches(h, up, companions, false, order, o);
    }
    forall i | 0 <= i < |nodes|
      ensures Cached(u, nodes[i].owner, nodes[i].desired)
    {
      assert Cached(h, nodes[i].owner, nodes[i].desired);
    }
    forall o | o in u.ledger && o.Node? && !Listed(o, nodes)
      ensures u.ledger[o] == {}
    {
      assert Untouched(h, u, o);
    }
  }

  lemma SweepSettles(kind: Kinds, s: State, nodes: seq<View>, companions: seq<View>, order: Order)
    requires Agrees(kind, s) && Lists(order)
    requires ProperViews(kind, nodes, true) && ProperViews(kind, companions, false)
    ensures Settled(kind, AfterSweep(s, true, nodes, companions, order), nodes, companions)
  {
    HalfAgrees(kind, s, nodes, true, order);
    HalfAgrees(kind, AfterHalf(s, true, nodes, true, order), companions, false, order);
    SweepShows(kind, s, true, nodes, companions, order);
  }

  /** The config message that some view wants on a topic. */
  ghost predicate Wants(views: seq<View>, t: Topic, body: string)
  {
    exists i :: 0 <= i < |views| && t in views[i].desired && views[i].desired[t] == body
  }

  /** When settled, the broker retains exactly the wanted configs: no ghost, none missing, none out of date. */
  lemma SettledIsExact(kind: Kinds, s: State, nodes: seq<View>, companions: seq<View>, t: Topic, body: string)
    requires Settled(kind, s, nodes, companions)
    requires ProperViews(kind, nodes, true) && ProperViews(kind, companions, false)
    ensures t in s.retained && s.retained[t] == body <==> Wants(nodes, t, body) || Wants(companions, t, body)
  {
    if Wants(nodes, t, body) {
      WantedIsRetained(s, nodes, t, body);
    }
    if Wants(companions, t, body) {
      WantedIsRetained(s, companions, t, body);
    }
    if t in s.retained && s.retained[t] == body {
      RetainedIsWanted(kind, s, if t.oid.owner.Node? then nodes else companions, t.oid.owner.Node?, t);
    }
  }

  lemma WantedIsRetained(s: State, views: seq<View>, t: Topic, body: string)
    requires CacheIsTrue(s) && Shown(s, views) && Wants(views, t, body)
    ensures t in s.retained && s.retained[t] == body
  {
    var i :| 0 <= i < |views| && t in views[i].desired && views[i].desired[t] == body;
    assert Cached(s, views[i].owner, views[i].desired);
    assert Holds(s, views[i].owner, views[i].desired);
  }

  lemma RetainedIsWanted(kind: Kinds, s: State, views: seq<View>, nodes: bool, t: Topic)
    requires Agrees(kind, s) && Shown(s, views) && Tidy(s, views, nodes)
    requires t in s.retained && t.oid.owner.Node? == nodes
    ensures Wants(views, t, s.retained[t])
  {
    var o := t.oid.owner;
    assert Recorded(s, t);
    assert Listed(o, views);
    var i :| 0 <= i < |views| && views[i].owner == o;
    assert Cached(s, o, views[i].desired);
    assert Holds(s, o, views[i].desired);
  }

  // ------------------------------------------------------------ a second round

  /** No config message was sent, neither a new one nor an empty one. */
  predicate Silent(s: State, t: State)
  {
    s.retained == t.retained && s.configMsgs == t.configMsgs && s.removed == t.removed && s.ledger == t.ledger
  }

  lemma {:induction false} ShownIsSilent(s: State, up: bool, views: seq<View>)
    requires Shown(s, views)
    ensures var t := AfterViews(s, up, views); Silent(s, t) && s.sigs == t.sigs
    decreases |views|
  {
    if views != [] {
      var v := views[0];
      assert Cached(s, v.owner, v.desired);
      var t := AfterPublish(s, up, v.owner, v.desired, !v.stale);
      assert Shown(t, views[1..]) by {
        forall i | 0 <= i < |views[1..]|
          ensures Cached(t, views[1..][i].owner, views[1..][i].desired)
        {
          assert Cached(s, views[i + 1].owner, views[i + 1].desired);
        }
      }
      ShownIsSilent(t, up, views[1..]);
    }
  }

  lemma {:induction false} CleanupSilent(s: State, rows: seq<Owner>, views: seq<View>)
    requires forall o :: o in rows && !Listed(o, views) ==> o.Node? && o in s.ledger && s.ledger[o] == {}
    ensures Silent(s, AfterCleanup(s, true, rows, views))
    decreases |rows|
  {
    if rows != [] {
      assert forall o :: o in rows[1..] ==> o in rows;
      if Listed(rows[0], views) {
        CleanupSilent(s, rows[1..], views);
      } else {
        CleanupSilent(AfterForget(s, true, rows[0]), rows[1..], views);
      }
    }
  }

  lemma TidyRow(kind: Kinds, s: State, views: seq<View>, nodes: bool, o: Owner)
    requires RowsProper(kind, s) && Tidy(s, views, nodes) && o in s.ledger && o.Node? == nodes && !Listed(o, views)
    ensures o.Node? && s.ledger[o] == {}
  {
    assert s.ledger[o] == {} && ProperRow(kind, o, s.ledger[o]);
  }

  lemma HalfSilent(kind: Kinds, s: State, views: seq<View>, nodes: bool, order: Order)
    requires RowsProper(kind, s) && Shown(s, views) && Tidy(s, views, nodes) && Lists(order)
    ensures Silent(s, AfterHalf(s, true, views, nodes, order))
  {
    var v := AfterViews(s, true, views);
    ShownIsSilent(s, true, views);
    OrderedRows(v, nodes, order);
    var rows := order(Rows(v, nodes));
    forall o | o in rows && !Listed(o, views)
      ensures o.Node? && o in v.ledger && v.ledger[o] == {}
    {
      TidyRow(kind, s, views, nodes, o);
    }
    CleanupSilent(v, rows, views);
  }

  /** A second round over unchanged data sends no config message at all. */
  lemma SecondSweepSilent(kind: Kinds, s: State, nodes: seq<View>, companions: seq<View>, order: Order)
    requires Agrees(kind, s) && Lists(order)
    requires ProperViews(kind, nodes, true) && ProperViews(kind, companions, false)
    ensures var t := AfterSweep(s, true, nodes, companions, order);
            Silent(t, AfterSweep(t, true, nodes, companions, order))
  {
    var t := AfterSweep(s, true, nodes, companions, order);
    SweepSettles(kind, s, nodes, companions, order);
    HalfSilent(kind, t, nodes, true, order);
    var h := AfterHalf(t, true, nodes, true, order);
    HalfAgrees(kind, t, nodes, true, order);
    forall i | 0 <= i < |companions|
      ensures Cached(h, companions[i].owner, companions[i].desired)
    {
      HalfTouches(t, true, nodes, true, order, companions[i].owner);
      assert Cached(t, companions[i].owner, companions[i].desired);
    }
    HalfSilent(kind, h, companions, false, order);
  }

  // -------------------------------------------------------------- every run

  /** A fresh measurement of a node in scope, a round, or a restart, which loses the cache and the counters. */
  datatype Action = Ingest(view: View) | Sweep(nodes: seq<View>, companions: seq<View>, order: Order) | Restart

  ghost predicate ProperAction(kind: Kinds, a: Action)
  {
    match a
    case Ingest(v) => v.owner.Node? && Proper(kind, v.owner, v.desired)
    case Sweep(nodes, companions, order) =>
      ProperViews(kind, nodes, true) && ProperViews(kind, companions, false) && Lists(order)
    case Restart => true
  }

  ghost predicate AllActionsProper(kind: Kinds, actions: seq<Action>)
  {
    forall i :: 0 <= i < |actions| ==> ProperAction(kind, actions[i])
  }

  function AfterRestart(s: State): (t: State)
  {
    s.(sigs := map[], configMsgs := 0, removed := 0)
  }

  function After(s: State, a: Action): (t: State)
  {
    match a
    case Ingest(v) => AfterPublish(s, true, v.owner, v.desired, true)
    case Sweep(nodes, companions, order) => AfterSweep(s, true, nodes, companions, order)
    case Restart => AfterRestart(s)
  }

  function Run(s: State, actions: seq<Action>): (t: State)
    decreases |actions|
  {
    if actions == [] then s else Run(After(s, actions[0]), actions[1..])
  }

  lemma RestartAgrees(kind: Kinds, s: State)
    requires Agrees(kind, s)
    ensures Agrees(kind, AfterRestart(s))
  {
    forall t
      ensures t in s.retained <==> Recorded(AfterRestart(s), t)
    {
      assert t in s.retained <==> Recorded(s, t);
    }
  }

  lemma ActionAgrees(kind: Kinds, s: State, a: Action)
    requires Agrees(kind, s) && ProperAction(kind, a)
    ensures Agrees(kind, After(s, a))
  {
    match a
    case Ingest(v) => PublishAgrees(kind, s, v.owner, v.desired, true);
    case Sweep(nodes, companions, order) => SweepSettles(kind, s, nodes, companions, order);
    case Restart => RestartAgrees(kind, s);
  }

  /**
   Whatever the order of measurements, rounds with whatever scope and opt-ins, and restarts: the ledger is
   what is live on the broker, and what is cached is there.
   */
  lemma {:induction false} EveryRunAgrees(kind: Kinds, s: State, actions: seq<Action>)
    requires Agrees(kind, s) && AllActionsProper(kind, actions)
    ensures Agrees(kind, Run(s, actions))
    decreases |actions|
  {
    if actions != [] {
      ActionAgrees(kind, s, actions[0]);
      EveryRunAgrees(kind, After(s, actions[0]), actions[1..]);
    }
  }

  /** After any run, a round leaves the broker with exactly what is desired. */
  lemma RoundAfterRunExact(kind: Kinds, actions: seq<Action>, nodes: seq<View>, companions: seq<View>, order: Order,
                           t: Topic, body: string)
    requires Lists(order) && AllActionsProper(kind, actions)
    requires ProperViews(kind, nodes, true) && ProperViews(kind, companions, false)
    ensures var u := AfterSweep(Run(EMPTY, actions), true, nodes, companions, order);
            t in u.retained && u.retained[t] == body <==> Wants(nodes, t, body) || Wants(companions, t, body)
  {
    EveryRunAgrees(kind, EMPTY, actions);
    var s := Run(EMPTY, actions);
    SweepSettles(kind, s, nodes, companions, order);
    SettledIsExact(kind, AfterSweep(s, true, nodes, companions, order), nodes, companions, t, body);
  }

  // ------------------------------------------- when the broker does not listen

  /** Nothing of `d` is missing on the broker, and nothing has to be cleared. */
  predicate NothingToWrite(s: State, o: Owner, d: Desired)
  {
    Leaving(o, RowOf(s, o), d) == {} && forall t :: t in d ==> t in s.retained && s.retained[t] == d[t]
  }

  lemma CachedNothing(s: State, o: Owner, d: Desired)
    requires CacheIsTrue(s) && Cached(s, o, d)
    ensures NothingToWrite(s, o, d)
  {
    CachedHolds(s, o, d);
  }

  lemma SameRow(kind: Kinds, s: State, o: Owner, d: Desired)
    requires Agrees(kind, s) && Proper(kind, o, d) && NothingToWrite(s, o, d)
    ensures RowOf(s, o) == d.Keys
  {
    forall t
      ensures t in RowOf(s, o) <==> t in d
    {
      RowTurns(kind, o, RowOf(s, o), d, t);
      LiveAt(s, t);
    }
  }

  lemma UnsentAgrees(kind: Kinds, s: State, o: Owner, d: Desired)
    requires Agrees(kind, s) && Proper(kind, o, d) && !Cached(s, o, d) && NothingToWrite(s, o, d)
    ensures Agrees(kind, AfterConfig(s, false, o, d))
  {
    var u := AfterConfig(s, false, o, d);
    SameRow(kind, s, o, d);
    UnsentLive(s, o, d);
    forall p | p in u.sigs
      ensures Holds(u, p, u.sigs[p])
    {
      if p != o {
        UnsentOthers(s, o, d, p, s.sigs[p]);
      }
    }
  }

  lemma UnsentLive(s: State, o: Owner, d: Desired)
    requires LedgerIsLive(s) && RowOf(s, o) == d.Keys
    ensures LedgerIsLive(AfterConfig(s, false, o, d))
  {
    var u := AfterConfig(s, false, o, d);
    forall t
      ensures t in u.retained <==> Recorded(u, t)
    {
      LiveAt(s, t);
    }
  }

  lemma UnsentOthers(s: State, o: Owner, d: Desired, p: Owner, e: Desired)
    requires p != o && Holds(s, p, e)
    ensures Holds(AfterConfig(s, false, o, d), p, e)
  {
  }

  lemma UnsentNothing(kind: Kinds, s: State, o: Owner, d: Desired)
    requires Agrees(kind, s) && Proper(kind, o, d) && !Cached(s, o, d)
    requires Agrees(kind, AfterConfig(s, false, o, d))
    ensures NothingToWrite(s, o, d)
  {
    var u := AfterConfig(s, false, o, d);
    CachedHolds(u, o, d);
    forall t | t in RowOf(s, o)
      ensures t in d
    {
      LiveAt(s, t);
      LiveAt(u, t);
    }
  }

  /**
   A publish while the broker is away is noted as done all the same. The three memories still agree
   afterwards exactly when there was nothing to write in the first place.
   */
  lemma UnsentStillNoted(kind: Kinds, s: State, o: Owner, d: Desired)
    requires Agrees(kind, s) && Proper(kind, o, d)
    ensures Cached(AfterConfig(s, false, o, d), o, d)
    ensures Agrees(kind, AfterConfig(s, false, o, d)) <==> NothingToWrite(s, o, d)
  {
    if Cached(s, o, d) {
      CachedNothing(s, o, d);
    } else {
      UnsentIff(kind, s, o, d);
    }
  }

  lemma UnsentIff(kind: Kinds, s: State, o: Owner, d: Desired)
    requires Agrees(kind, s) && Proper(kind, o, d) && !Cached(s, o, d)
    ensures Agrees(kind, AfterConfig(s, false, o, d)) <==> NothingToWrite(s, o, d)
  {
    if NothingToWrite(s, o, d) {
      UnsentAgrees(kind, s, o, d);
    }
    if Agrees(kind, AfterConfig(s, false, o, d)) {
      UnsentNothing(kind, s, o, d);
    }
  }
}
