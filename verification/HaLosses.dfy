/**
 What the three memories of `HaDiscovery` are worth when messages to the broker are lost, and when a new
 version of the software gives an entity another component: which topics stay behind, and for how long.
 */
module HaLosses {
  import opened HaDiscovery

  // ------------------------------------------------------- topics left behind

  /** Live on the broker, and nobody remembers. */
  predicate Lost(s: State, t: Topic)
  {
    t in s.retained && !Recorded(s, t)
  }

  predicate Owned(o: Owner, r: Row)
  {
    forall t :: t in r ==> t.oid.owner == o
  }

  /** Every row names entities of its owner only. */
  predicate RowsOwned(s: State)
  {
    forall o :: o in s.ledger ==> Owned(o, s.ledger[o])
  }

  /** The view asks for its owner's entities only, and not for `oid`. */
  predicate Spares(v: View, oid: Oid)
  {
    Owned(v.owner, v.desired.Keys) && !HasEntity(v.desired, oid)
  }

  lemma ConfigKeepsOwned(s: State, o: Owner, d: Desired)
    requires RowsOwned(s) && Owned(o, d.Keys)
    ensures RowsOwned(AfterConfig(s, true, o, d))
  {
  }

  lemma NotNoted(s: State, o: Owner, d: Desired, t: Topic)
    requires !Recorded(s, t) && t !in d
    ensures !Recorded(AfterConfig(s, true, o, d), t)
  {
  }

  lemma ConfigKeepsLost(s: State, o: Owner, d: Desired, t: Topic)
    requires Lost(s, t) && Owned(o, RowOf(s, o)) && !HasEntity(d, t.oid)
    ensures Lost(AfterConfig(s, true, o, d), t)
  {
    assert t !in d && t !in RowOf(s, o);
    NotNoted(s, o, d, t);
  }

  lemma AvailabilityAside(s: State, u: State, t: Topic)
    requires RowsOwned(s) && u == s.(availability := u.availability)
    ensures RowsOwned(u) && (Lost(s, t) <==> Lost(u, t))
  {
  }

  lemma PublishKeepsLost(s: State, v: View, t: Topic)
    requires RowsOwned(s) && Lost(s, t) && t.oid.owner.Node? && Spares(v, t.oid)
    ensures var u := AfterPublish(s, true, v.owner, v.desired, !v.stale); RowsOwned(u) && Lost(u, t)
  {
    ConfigKeepsOwned(s, v.owner, v.desired);
    ConfigKeepsLost(s, v.owner, v.desired, t);
    AvailabilityAside(AfterConfig(s, true, v.owner, v.desired),
                      AfterPublish(s, true, v.owner, v.desired, !v.stale), t);
  }

  lemma {:induction false} ViewsKeepLost(s: State, views: seq<View>, t: Topic)
    requires RowsOwned(s) && Lost(s, t) && t.oid.owner.Node?
    requires forall i :: 0 <= i < |views| ==> Spares(views[i], t.oid)
    ensures RowsOwned(AfterViews(s, true, views)) && Lost(AfterViews(s, true, views), t)
    decreases |views|
  {
    if views != [] {
      PublishKeepsLost(s, views[0], t);
      ViewsKeepLost(AfterPublish(s, true, views[0].owner, views[0].desired, !views[0].stale), views[1..], t);
    }
  }

  lemma {:induction false} CleanupKeepsLost(s: State, rows: seq<Owner>, views: seq<View>, t: Topic)
    requires RowsOwned(s) && Lost(s, t) && t.oid.owner.Node?
    ensures RowsOwned(AfterCleanup(s, true, rows, views)) && Lost(AfterCleanup(s, true, rows, views), t)
    decreases |rows|
  {
    if rows != [] {
      if Listed(rows[0], views) {
        CleanupKeepsLost(s, rows[1..], views, t);
      } else {
        CleanupKeepsLost(AfterForget(s, true, rows[0]), rows[1..], views, t);
      }
    }
  }

  predicate AllSpare(views: seq<View>, oid: Oid)
  {
    forall i :: 0 <= i < |views| ==> Spares(views[i], oid)
  }

  lemma HalfKeepsLost(s: State, views: seq<View>, nodes: bool, order: Order, t: Topic)
    requires RowsOwned(s) && Lost(s, t) && t.oid.owner.Node? && AllSpare(views, t.oid)
    ensures RowsOwned(AfterHalf(s, true, views, nodes, order)) && Lost(AfterHalf(s, true, views, nodes, order), t)
  {
    ViewsKeepLost(s, views, t);
    var v := AfterViews(s, true, views);
    CleanupKeepsLost(v, order(Rows(v, nodes)), views, t);
  }

  /** The action asks for entities of their owners only, and not for `oid`. */
  predicate ActionSpares(a: Action, oid: Oid)
  {
    match a
    case Ingest(v) => Spares(v, oid)
    case Sweep(nodes, companions, _) => AllSpare(nodes, oid) && AllSpare(companions, oid)
    case Restart => true
  }

  /**
   A topic that was left behind stays on the broker, recorded nowhere, for as long as no measurement and no
   round asks for its entity again: through rounds with whatever scope, forgetting its node, and restarts.
   */
  lemma {:induction false} LostWhileUnwanted(s: State, actions: seq<Action>, t: Topic)
    requires RowsOwned(s) && Lost(s, t) && t.oid.owner.Node?
    requires forall i :: 0 <= i < |actions| ==> ActionSpares(actions[i], t.oid)
    ensures Lost(Run(s, actions), t)
    decreases |actions|
  {
    if actions != [] {
      match actions[0] {
        case Ingest(v) => PublishKeepsLost(s, v.(stale := false), t);
        case Sweep(nodes, companions, order) =>
          HalfKeepsLost(s, nodes, true, order, t);
          HalfKeepsLost(AfterHalf(s, true, nodes, true, order), companions, false, order, t);
        case Restart =>
      }
      LostWhileUnwanted(After(s, actions[0]), actions[1..], t);
    }
  }

  lemma NotAskedFor(s: State, o: Owner, d: Desired, t: Topic)
    requires o.Node? && t in RowOf(s, o) && !HasEntity(d, t.oid) && !Cached(s, o, d)
    ensures t !in AfterConfig(s, true, o, d).retained
  {
  }

  /** Asking for it again records it, and asking for its node without it then clears it. */
  lemma WantedAgainRecovers(s: State, o: Owner, with: Desired, without: Desired, t: Topic)
    requires o.Node? && t.oid.owner == o && t in with && !HasEntity(without, t.oid)
    requires !Cached(s, o, with)
    ensures var u := AfterConfig(s, true, o, with);
            t in u.retained && Recorded(u, t) && t !in AfterConfig(u, true, o, without).retained
  {
    assert t !in without;
    NotAskedFor(AfterConfig(s, true, o, with), o, without, t);
  }

  // ------------------------------------------------------------- lost messages

  /** What is left after a publish that was lost, a restart, and the same publish again. */
  lemma Resent(s: State, o: Owner, d: Desired)
    requires !Cached(s, o, d)
    ensures var u := AfterConfig(AfterRestart(AfterConfig(s, false, o, d)), true, o, d);
            u.retained == s.retained + d && u.ledger == s.ledger[o := d.Keys] && u.sigs == map[o := d]
  {
    var v := AfterRestart(AfterConfig(s, false, o, d));
    assert v.ledger == s.ledger[o := d.Keys] && v.retained == s.retained && v.sigs == map[];
    assert RowOf(v, o) == d.Keys;
    Restored(v, o, d);
  }

  /** Writing what the row already says, with an empty cache. */
  lemma Restored(v: State, o: Owner, d: Desired)
    requires v.sigs == map[] && o in v.ledger && v.ledger[o] == d.Keys
    ensures var u := AfterConfig(v, true, o, d);
            u.retained == v.retained + d && u.ledger == v.ledger && u.sigs == map[o := d]
  {
    assert Leaving(o, d.Keys, d) == {};
    MinusNothing(v.retained + d);
  }

  lemma MinusNothing(r: map<Topic, string>)
    ensures r - {} == r
  {
  }

  lemma NothingLeaves(s: State, o: Owner, d: Desired)
    requires Leaving(o, RowOf(s, o), d) == {}
    ensures var u := AfterConfig(AfterRestart(s), true, o, d);
            u.retained == s.retained + d && u.ledger == s.ledger[o := d.Keys] && u.sigs == map[o := d]
  {
    MinusNothing(s.retained + d);
  }

  lemma SameMemories(kind: Kinds, s: State, t: State)
    requires Agrees(kind, s) && s.retained == t.retained && s.ledger == t.ledger && s.sigs == t.sigs
    ensures Agrees(kind, t)
  {
    forall topic
      ensures topic in t.retained <==> Recorded(t, topic)
    {
      LiveAt(s, topic);
    }
    forall o | o in t.sigs
      ensures Holds(t, o, t.sigs[o])
    {
      CachedHolds(s, o, t.sigs[o]);
    }
  }

  /**
   A publish that never reached the broker, a restart, and the same publish again: the three memories agree
   if and only if no entity had been dropped. Lost configs are made good by the restart; lost removals are not.
   */
  lemma RestartRepairsIff(kind: Kinds, s: State, o: Owner, d: Desired)
    requires Agrees(kind, s) && Proper(kind, o, d) && !Cached(s, o, d)
    ensures Agrees(kind, AfterConfig(AfterRestart(AfterConfig(s, false, o, d)), true, o, d))
       <==> Leaving(o, RowOf(s, o), d) == {}
  {
    var u := AfterConfig(AfterRestart(AfterConfig(s, false, o, d)), true, o, d);
    Resent(s, o, d);
    if Leaving(o, RowOf(s, o), d) == {} {
      RestartAgrees(kind, s);
      ConfigAgrees(kind, AfterRestart(s), o, d);
      NothingLeaves(s, o, d);
      SameMemories(kind, AfterConfig(AfterRestart(s), true, o, d), u);
    } else {
      var t :| t in Leaving(o, RowOf(s, o), d);
      DroppedOwned(kind, s, o, d, t);
      assert !Recorded(u, t);
    }
  }

  lemma DroppedOwned(kind: Kinds, s: State, o: Owner, d: Desired, t: Topic)
    requires Agrees(kind, s) && t in Leaving(o, RowOf(s, o), d)
    ensures o.Node? && t.oid.owner == o && t in s.retained && t !in d
  {
    assert ProperRow(kind, o, s.ledger[o]);
    LiveAt(s, t);
  }

  /**
   A removal that was lost leaves its topic behind: through restarts and whatever else happens, until
   somebody wants the entity again.
   */
  lemma LostRemovalStays(kind: Kinds, s: State, o: Owner, d: Desired, t: Topic, actions: seq<Action>)
    requires Agrees(kind, s) && Proper(kind, o, d) && !Cached(s, o, d) && t in Leaving(o, RowOf(s, o), d)
    requires forall i :: 0 <= i < |actions| ==> ActionSpares(actions[i], t.oid)
    ensures Lost(Run(AfterConfig(s, false, o, d), actions), t)
  {
    DroppedOwned(kind, s, o, d, t);
    UnsentOwned(kind, s, o, d);
    LostWhileUnwanted(AfterConfig(s, false, o, d), actions, t);
  }

  lemma UnsentOwned(kind: Kinds, s: State, o: Owner, d: Desired)
    requires RowsProper(kind, s) && Proper(kind, o, d)
    ensures RowsOwned(AfterConfig(s, false, o, d))
  {
    var u := AfterConfig(s, false, o, d);
    forall p | p in u.ledger
      ensures Owned(p, u.ledger[p])
    {
      assert p != o ==> ProperRow(kind, p, s.ledger[p]);
    }
  }

  function Heard(d: Desired, heard: set<Topic>): (sent: Desired)
  {
    map t | t in d && t in heard :: d[t]
  }

  /** The publish is noted as a whole, and the broker hears `sent` and the removal of `gone`. */
  function Noted(s: State, o: Owner, d: Desired, sent: Desired, gone: Row): (t: State)
  {
    s.(sigs := s.sigs[o := d], ledger := s.ledger[o := d.Keys], retained := s.retained + sent - gone,
       configMsgs := s.configMsgs + |sent|, removed := s.removed + |gone|)
  }

  /** The config part of a publish of which the broker hears only some messages. */
  function AfterSome(s: State, heard: set<Topic>, o: Owner, d: Desired): (t: State)
  {
    if Cached(s, o, d) then s else Noted(s, o, d, Heard(d, heard), Leaving(o, RowOf(s, o), d) * heard)
  }

  lemma HeardWhole(d: Desired, gone: Row, heard: set<Topic>)
    requires d.Keys + gone <= heard
    ensures Heard(d, heard) == d && gone * heard == gone
  {
  }

  lemma HeardNone(r: map<Topic, string>, d: Desired, gone: Row)
    ensures Heard(d, {}) == map[] && gone * {} == {} && r + Heard(d, {}) - gone * {} == r
    ensures |Heard(d, {})| == 0 && |gone * {}| == 0
  {
  }

  /** Hearing everything and hearing nothing are the two cases of `AfterConfig`. */
  lemma HeardAll(s: State, o: Owner, d: Desired, heard: set<Topic>)
    requires d.Keys + Leaving(o, RowOf(s, o), d) <= heard
    ensures AfterSome(s, heard, o, d) == AfterConfig(s, true, o, d)
  {
    if !Cached(s, o, d) {
      HeardWhole(d, Leaving(o, RowOf(s, o), d), heard);
      NotedWhole(s, o, d);
    }
  }

  lemma NotedWhole(s: State, o: Owner, d: Desired)
    requires !Cached(s, o, d)
    ensures Noted(s, o, d, d, Leaving(o, RowOf(s, o), d)) == AfterConfig(s, true, o, d)
  {
  }

  lemma HeardNothing(s: State, o: Owner, d: Desired)
    ensures AfterSome(s, {}, o, d) == AfterConfig(s, false, o, d)
  {
    if !Cached(s, o, d) {
      HeardNone(s.retained, d, Leaving(o, RowOf(s, o), d));
    }
  }

  /** Recorded, but missing on the broker or out of date there. */
  predicate Outdated(u: State, d: Desired, t: Topic)
  {
    t in d && Recorded(u, t) && !(t in u.retained && u.retained[t] == d[t])
  }

  lemma SomeAt(s: State, heard: set<Topic>, o: Owner, d: Desired, t: Topic)
    requires !Cached(s, o, d)
    ensures var r, gone := AfterSome(s, heard, o, d).retained, Leaving(o, RowOf(s, o), d);
            && (t in r <==> (t in s.retained || (t in d && t in heard)) && !(t in gone && t in heard))
            && (t in r ==> r[t] == if t in d && t in heard then d[t] else s.retained[t])
  {
  }

  lemma RecordedAfter(s: State, heard: set<Topic>, o: Owner, d: Desired, t: Topic)
    requires !Cached(s, o, d)
    ensures Recorded(AfterSome(s, heard, o, d), t) <==> if t.oid.owner == o then t in d else Recorded(s, t)
  {
  }

  /**
   When single messages are lost: a topic is left behind exactly by a lost removal, and a config is missing or
   out of date exactly by a lost config, unless the broker had it anyway.
   */
  lemma LostMessages(kind: Kinds, s: State, heard: set<Topic>, o: Owner, d: Desired, t: Topic)
    requires Agrees(kind, s) && Proper(kind, o, d) && !Cached(s, o, d)
    ensures Lost(AfterSome(s, heard, o, d), t) <==> t in Leaving(o, RowOf(s, o), d) && t !in heard
    ensures Outdated(AfterSome(s, heard, o, d), d, t)
       <==> t in d && t !in heard && !(t in s.retained && s.retained[t] == d[t])
  {
    LiveAt(s, t);
    SomeAt(s, heard, o, d, t);
    RecordedAfter(s, heard, o, d, t);
    if t.oid.owner == o {
      RowTurns(kind, o, RowOf(s, o), d, t);
    } else {
      ForeignTopic(kind, o, RowOf(s, o), d, t);
    }
    if t in d {
      RowTurns(kind, o, RowOf(s, o), d, t);
    }
  }

  // ------------------------------------------------------------- a new version

  /** No entity of the view is still recorded under another component than it has now. */
  predicate KeepsComponents(s: State, v: View, next: Kinds)
  {
    forall t :: t in RowOf(s, v.owner) && HasEntity(v.desired, t.oid) ==> t.component == next(t.oid)
  }

  predicate AllKeepComponents(s: State, views: seq<View>, next: Kinds)
  {
    forall i :: 0 <= i < |views| ==> KeepsComponents(s, views[i], next)
  }

  predicate WantedBy(views: seq<View>, oid: Oid)
  {
    exists i :: 0 <= i < |views| && HasEntity(views[i].desired, oid)
  }

  /** The kinds by which the old rows and the new round can both be read. */
  ghost function Bridged(kind: Kinds, next: Kinds, views: seq<View>): (k: Kinds)
  {
    oid => if WantedBy(views, oid) then next(oid) else kind(oid)
  }

  lemma ProperBridged(kind: Kinds, next: Kinds, views: seq<View>, i: nat)
    requires i < |views| && Proper(next, views[i].owner, views[i].desired)
    ensures Proper(Bridged(kind, next, views), views[i].owner, views[i].desired)
  {
    forall t | t in views[i].desired
      ensures WantedBy(views, t.oid)
    {
      assert HasEntity(views[i].desired, t.oid);
    }
  }

  lemma RowsBridged(kind: Kinds, next: Kinds, s: State, views: seq<View>)
    requires RowsProper(kind, s) && AllKeepComponents(s, views, next) && AllProper(next, views)
    ensures RowsProper(Bridged(kind, next, views), s)
  {
    forall o | o in s.ledger
      ensures ProperRow(Bridged(kind, next, views), o, s.ledger[o])
    {
      assert ProperRow(kind, o, s.ledger[o]);
      forall t | t in s.ledger[o]
        ensures t.component == Bridged(kind, next, views)(t.oid)
      {
        if WantedBy(views, t.oid) {
          var i :| 0 <= i < |views| && HasEntity(views[i].desired, t.oid);
          assert Proper(next, views[i].owner, views[i].desired) && KeepsComponents(s, views[i], next);
          assert views[i].owner == o;
        }
      }
    }
  }

  /** Where every component is kept, the first round of the new version settles like any other. */
  lemma BridgedRound(kind: Kinds, next: Kinds, s: State, nodes: seq<View>, companions: seq<View>, order: Order)
    requires Agrees(kind, s) && Lists(order) && AllKeepComponents(s, nodes, next)
    requires ProperViews(next, nodes, true) && ProperViews(next, companions, false)
    ensures Settled(Bridged(kind, next, nodes + companions),
                    AfterSweep(AfterRestart(s), true, nodes, companions, order), nodes, companions)
  {
    var views := nodes + companions;
    var k := Bridged(kind, next, views);
    CompanionsKeep(kind, next, s, companions);
    RowsBridged(kind, next, s, views);
    RestartAgrees(kind, s);
    forall i | 0 <= i < |views|
      ensures Proper(k, views[i].owner, views[i].desired)
    {
      ProperBridged(kind, next, views, i);
    }
    assert forall i :: 0 <= i < |nodes| ==> nodes[i] == views[i];
    assert forall i :: 0 <= i < |companions| ==> companions[i] == views[|nodes| + i];
    SweepSettles(k, AfterRestart(s), nodes, companions, order);
  }

  /** A companion's entity is a tracker in every version. */
  lemma CompanionsKeep(kind: Kinds, next: Kinds, s: State, companions: seq<View>)
    requires RowsProper(kind, s) && ProperViews(next, companions, false)
    ensures AllKeepComponents(s, companions, next)
  {
    forall i, t | 0 <= i < |companions| && t in RowOf(s, companions[i].owner)
      && HasEntity(companions[i].desired, t.oid)
      ensures t.component == next(t.oid)
    {
      assert ProperRow(kind, companions[i].owner, s.ledger[companions[i].owner]);
      assert Proper(next, companions[i].owner, companions[i].desired);
    }
  }

  // The other direction: an entity that has changed its component leaves the old topic behind.

  lemma ChangedIsLost(s: State, o: Owner, d: Desired, t: Topic)
    requires !Cached(s, o, d) && t.oid.owner == o && t in s.retained && HasEntity(d, t.oid) && t !in d
    ensures Lost(AfterConfig(s, true, o, d), t)
  {
  }

  lemma ForeignKept(s: State, v: View, t: Topic)
    requires RowsOwned(s) && Owned(v.owner, v.desired.Keys) && v.owner != t.oid.owner && t in s.retained
    ensures var u := AfterPublish(s, true, v.owner, v.desired, !v.stale); RowsOwned(u) && t in u.retained
  {
    ConfigKeepsOwned(s, v.owner, v.desired);
    assert t !in RowOf(s, v.owner);
  }

  predicate AllOwned(views: seq<View>)
  {
    forall j :: 0 <= j < |views| ==> Owned(views[j].owner, views[j].desired.Keys)
  }

  /** View `i` asks for the entity of `t`, but not on topic `t`; no other view has to do with its owner. */
  lemma {:induction false} ViewsLose(s: State, views: seq<View>, i: nat, t: Topic)
    requires RowsOwned(s) && DistinctOwners(views) && i < |views|
    requires AllOwned(views)
    requires views[i].owner == t.oid.owner && t.oid.owner.Node?
    requires t in s.retained && HasEntity(views[i].desired, t.oid) && t !in views[i].desired
    requires t.oid.owner !in s.sigs
    ensures RowsOwned(AfterViews(s, true, views)) && Lost(AfterViews(s, true, views), t)
    decreases |views|
  {
    var v := views[0];
    var u := AfterPublish(s, true, v.owner, v.desired, !v.stale);
    FirstNotAgain(views);
    if i == 0 {
      FirstLoses(s, v, t);
      OthersSpare(views, t.oid);
      ViewsKeepLost(u, views[1..], t);
    } else {
      assert views[1..][i - 1] == views[i];
      FirstPasses(s, v, t);
      ViewsLose(u, views[1..], i - 1, t);
    }
  }

  lemma FirstLoses(s: State, v: View, t: Topic)
    requires RowsOwned(s) && Owned(v.owner, v.desired.Keys) && v.owner == t.oid.owner && v.owner !in s.sigs
    requires t in s.retained && HasEntity(v.desired, t.oid) && t !in v.desired
    ensures var u := AfterPublish(s, true, v.owner, v.desired, !v.stale); RowsOwned(u) && Lost(u, t)
  {
    ChangedIsLost(s, v.owner, v.desired, t);
    ConfigKeepsOwned(s, v.owner, v.desired);
    AvailabilityAside(AfterConfig(s, true, v.owner, v.desired),
                      AfterPublish(s, true, v.owner, v.desired, !v.stale), t);
  }

  lemma FirstPasses(s: State, v: View, t: Topic)
    requires RowsOwned(s) && Owned(v.owner, v.desired.Keys) && v.owner != t.oid.owner && t in s.retained
    requires t.oid.owner !in s.sigs
    ensures var u := AfterPublish(s, true, v.owner, v.desired, !v.stale);
            RowsOwned(u) && t in u.retained && t.oid.owner !in u.sigs
  {
    ForeignKept(s, v, t);
    PublishTouches(s, true, v.owner, v.desired, !v.stale, t.oid.owner);
  }

  lemma OthersSpare(views: seq<View>, oid: Oid)
    requires views != [] && !Listed(views[0].owner, views[1..]) && views[0].owner == oid.owner
    requires AllOwned(views)
    ensures forall j :: 0 <= j < |views[1..]| ==> Spares(views[1..][j], oid)
  {
    forall j | 0 <= j < |views[1..]|
      ensures Spares(views[1..][j], oid)
    {
      assert views[1..][j] == views[j + 1] && views[1..][j].owner != oid.owner;
    }
  }

  lemma ChangedInView(kind: Kinds, next: Kinds, s: State, v: View) returns (t: Topic)
    requires Agrees(kind, s) && Proper(next, v.owner, v.desired) && !KeepsComponents(s, v, next)
    ensures t.oid.owner == v.owner && t in s.retained && HasEntity(v.desired, t.oid) && t !in v.desired
  {
    t :| t in RowOf(s, v.owner) && HasEntity(v.desired, t.oid) && t.component != next(t.oid);
    assert ProperRow(kind, v.owner, s.ledger[v.owner]);
    LiveAt(s, t);
  }

  lemma NodesHalfLoses(s: State, nodes: seq<View>, order: Order, i: nat, t: Topic)
    requires RowsOwned(s) && s.sigs == map[] && DistinctOwners(nodes) && AllOwned(nodes) && i < |nodes|
    requires nodes[i].owner == t.oid.owner && t.oid.owner.Node?
    requires t in s.retained && HasEntity(nodes[i].desired, t.oid) && t !in nodes[i].desired
    ensures var h := AfterHalf(s, true, nodes, true, order); RowsOwned(h) && Lost(h, t)
  {
    ViewsLose(s, nodes, i, t);
    var v := AfterViews(s, true, nodes);
    CleanupKeepsLost(v, order(Rows(v, true)), nodes, t);
  }

  lemma SweepLoses(s: State, nodes: seq<View>, companions: seq<View>, order: Order, i: nat, t: Topic)
    requires RowsOwned(s) && s.sigs == map[] && DistinctOwners(nodes) && AllOwned(nodes) && i < |nodes|
    requires nodes[i].owner == t.oid.owner && t.oid.owner.Node?
    requires t in s.retained && HasEntity(nodes[i].desired, t.oid) && t !in nodes[i].desired
    requires AllSpare(companions, t.oid)
    ensures Lost(AfterSweep(s, true, nodes, companions, order), t)
  {
    NodesHalfLoses(s, nodes, order, i, t);
    HalfKeepsLost(AfterHalf(s, true, nodes, true, order), companions, false, order, t);
  }

  lemma ChangedComponentLost(kind: Kinds, next: Kinds, s: State, nodes: seq<View>, companions: seq<View>, order: Order,
                             i: nat)
    requires Agrees(kind, s) && ProperViews(next, nodes, true) && ProperViews(next, companions, false)
    requires i < |nodes| && !KeepsComponents(s, nodes[i], next)
    ensures !LedgerIsLive(AfterSweep(AfterRestart(s), true, nodes, companions, order))
  {
    var t := ChangedInView(kind, next, s, nodes[i]);
    SweepLoses(AfterRestart(s), nodes, companions, order, i, t);
  }

  /**
   A new version of the software, under which an entity may have another component, starts after any run of
   the old one. After its first round the ledger is what is live if and only if no wanted entity is still
   recorded under another component than it has now; otherwise its old topic is left behind.
   */
  lemma UpgradeLiveIff(kind: Kinds, next: Kinds, actions: seq<Action>, nodes: seq<View>, companions: seq<View>,
                       order: Order)
    requires AllActionsProper(kind, actions) && Lists(order)
    requires ProperViews(next, nodes, true) && ProperViews(next, companions, false)
    ensures var s := Run(EMPTY, actions);
            LedgerIsLive(AfterSweep(AfterRestart(s), true, nodes, companions, order))
            <==> AllKeepComponents(s, nodes, next)
  {
    var s := Run(EMPTY, actions);
    EveryRunAgrees(kind, EMPTY, actions);
    if AllKeepComponents(s, nodes, next) {
      BridgedRound(kind, next, s, nodes, companions, order);
    } else {
      var i :| 0 <= i < |nodes| && !KeepsComponents(s, nodes[i], next);
      ChangedComponentLost(kind, next, s, nodes, companions, order, i);
    }
  }
}
