/**
 The publisher itself: the loops over entities, rows and views that write, clear and remember, each shown
 to do what `HaDiscovery` says one operation does; and the object ids, which no two entities share.
 */
module HaBridge {
  import opened HaDiscovery
  import opened Wrappers

  // ---------------------------------------------------------------- object ids

  predicate IsHex(c: char)
  {
    '0' <= c <= '9' || 'a' <= c <= 'f'
  }

  predicate AllHex(s: string)
  {
    forall i :: 0 <= i < |s| ==> IsHex(s[i])
  }

  /** Node keys and companion prefixes are lower-case hex. */
  predicate HexOwner(o: Owner)
  {
    var name := if o.Node? then o.name else o.prefix;
    name != "" && AllHex(name)
  }

  /** `_object_id` and `_companion_object_id` */
  function ObjectId(oid: Oid): (s: string)
  {
    match oid.owner
    case Node(name) => "meshmanager_" + name + "_" + oid.key
    case Companion(prefix) => "meshmanager_companion_" + prefix
  }

  lemma UnderscoreLater(a: string, b: string, x: string, y: string)
    requires a + "_" + b == x + "_" + y && AllHex(x)
    ensures |x| <= |a|
  {
    var s := x + "_" + y;
    assert s == a + "_" + b;
    assert s[|a|] == '_';
    assert !IsHex('_');
    assert forall i :: 0 <= i < |x| ==> s[i] == x[i];
  }

  lemma FirstUnderscore(a: string, b: string, x: string, y: string)
    requires a + "_" + b == x + "_" + y && AllHex(a) && AllHex(x)
    ensures a == x && b == y
  {
    UnderscoreLater(a, b, x, y);
    UnderscoreLater(x, y, a, b);
    var s := a + "_" + b;
    assert s[..|a|] == a && s[..|x|] == x;
    assert s[|a| + 1..] == b && s[|x| + 1..] == y;
  }

  /** Two entities with one object id are one entity: nodes and companions cannot meet, nor can two nodes' keys. */
  lemma ObjectIdsApart(p: Oid, q: Oid)
    requires HexOwner(p.owner) && HexOwner(q.owner) && ObjectId(p) == ObjectId(q)
    requires p.owner.Companion? ==> p.key == ""
    requires q.owner.Companion? ==> q.key == ""
    ensures p == q
  {
    var head := "meshmanager_";
    var companion := "companion_";
    match (p.owner, q.owner) {
      case (Node(a), Node(x)) =>
        assert ObjectId(p) == head + (a + "_" + p.key) && ObjectId(q) == head + (x + "_" + q.key);
        SameRest(head, a + "_" + p.key, x + "_" + q.key);
        FirstUnderscore(a, p.key, x, q.key);
      case (Companion(a), Companion(x)) =>
        SameRest("meshmanager_companion_", a, x);
      case (Node(a), Companion(x)) =>
        NodeIsNoCompanion(p, q);
      case (Companion(a), Node(x)) =>
        NodeIsNoCompanion(q, p);
    }
  }

  lemma SameRest(head: string, a: string, b: string)
    requires head + a == head + b
    ensures a == b
  {
    assert (head + a)[|head|..] == a && (head + b)[|head|..] == b;
  }

  lemma NodeIsNoCompanion(p: Oid, q: Oid)
    requires HexOwner(p.owner) && p.owner.Node? && q.owner.Companion?
    ensures ObjectId(p) != ObjectId(q)
  {
    var a := p.owner.name;
    var n, c := ObjectId(p), ObjectId(q);
    assert c == "meshmanager_companion_" + q.owner.prefix;
    assert c[12] == 'c' && c[13] == 'o';
    assert n == "meshmanager_" + a + ("_" + p.key);
    if |a| == 1 {
      assert n[13] == '_';
    } else {
      assert n[13] == a[1];
      assert IsHex(a[1]);
    }
  }

  // -------------------------------------------------------------- availability

  lemma {:induction false} ViewsAvailable(s: State, views: seq<View>, i: nat)
    requires DistinctOwners(views) && i < |views|
    ensures Find(AfterViews(s, true, views).availability, views[i].owner) == Some(!views[i].stale)
    decreases |views|
  {
    var v := views[0];
    var t := AfterPublish(s, true, v.owner, v.desired, !v.stale);
    FirstNotAgain(views);
    if i == 0 {
      ViewsTouch(t, true, views[1..], v.owner);
    } else {
      assert views[1..][i - 1] == views[i];
      ViewsAvailable(t, views[1..], i - 1);
    }
  }

  /** After a round a node that is listed is online exactly when it has not been silent too long. */
  lemma ListedAvailability(kind: Kinds, s: State, nodes: seq<View>, companions: seq<View>, order: Order, i: nat)
    requires ProperViews(kind, nodes, true) && ProperViews(kind, companions, false) && Lists(order) && i < |nodes|
    ensures var t := AfterSweep(s, true, nodes, companions, order);
            nodes[i].owner in t.availability && t.availability[nodes[i].owner] == !nodes[i].stale
  {
    var o := nodes[i].owner;
    var v := AfterViews(s, true, nodes);
    ViewsAvailable(s, nodes, i);
    CleanupTouches(v, true, order(Rows(v, true)), nodes, o);
    HalfTouches(AfterHalf(s, true, nodes, true, order), true, companions, false, order, o);
  }

  lemma {:induction false} CleanupOffline(s: State, rows: seq<Owner>, views: seq<View>, o: Owner)
    requires RowsLeft(s, rows) && !Listed(o, views) && o in rows
    ensures var t := AfterCleanup(s, true, rows, views); o in t.availability && !t.availability[o]
    decreases |rows|
  {
    RowsStep(s, true, rows);
    if rows[0] == o {
      CleanupTouches(AfterForget(s, true, o), true, rows[1..], views, o);
    } else if Listed(rows[0], views) {
      CleanupOffline(s, rows[1..], views, o);
    } else {
      CleanupOffline(AfterForget(s, true, rows[0]), rows[1..], views, o);
    }
  }

  /** A node that was ever recorded and is no longer in scope is offline after the round. */
  lemma OutOfScopeOffline(kind: Kinds, s: State, nodes: seq<View>, companions: seq<View>, order: Order, o: Owner)
    requires ProperViews(kind, nodes, true) && ProperViews(kind, companions, false) && Lists(order)
    requires o.Node? && o in s.ledger && !Listed(o, nodes)
    ensures var t := AfterSweep(s, true, nodes, companions, order); o in t.availability && !t.availability[o]
  {
    var v := AfterViews(s, true, nodes);
    ViewsTouch(s, true, nodes, o);
    OrderedRows(v, true, order);
    CleanupOffline(v, order(Rows(v, true)), nodes, o);
    HalfTouches(AfterHalf(s, true, nodes, true, order), true, companions, false, order, o);
  }

  // ------------------------------------------------------------ loops over maps

  function Only(d: Desired, left: set<Topic>): (r: Desired)
  {
    map t | t in d && t in left :: d[t]
  }

  /** One more config message written: the rest of `d` is still to come. */
  lemma PutTurn(r: map<Topic, string>, d: Desired, left: set<Topic>, t: Topic)
    requires t in left && t in d
    ensures r + Only(d, left) == r[t := d[t]] + Only(d, left - {t})
  {
  }

  /** One more entity of the old row looked at. */
  lemma DroppedTurn(d: Desired, left: Row, t: Topic)
    requires t in left
    ensures Dropped(left - {t}, d) == Dropped(left, d) - {t}
    ensures t in Dropped(left, d) <==> !HasEntity(d, t.oid)
  {
  }

  /** The fields that a publish that writes has to change, and how. */
  lemma NotedAs(s: State, up: bool, o: Owner, d: Desired, gone: Row, t: State)
    requires !Cached(s, o, d) && gone == Leaving(o, RowOf(s, o), d)
    requires t.sigs == s.sigs[o := d] && t.ledger == s.ledger[o := d.Keys] && t.availability == s.availability
    requires t.retained == if up then s.retained + d - gone else s.retained
    requires t.configMsgs == s.configMsgs + (if up then |d| else 0)
    requires t.removed == s.removed + (if up then |gone| else 0)
    ensures t == AfterConfig(s, up, o, d)
  {
  }

  lemma OfflineAfterAll(s: State, up: bool, o: Owner, d: Desired)
    ensures var t := AfterPublish(s, up, o, d, true);
            AfterPublish(s, up, o, d, false)
            == if up then t.(availability := t.availability[o := false]) else t
  {
    var c := AfterConfig(s, up, o, d);
    assert c.availability[o := true][o := false] == c.availability[o := false];
  }

  // ----------------------------------------------------------------- the bridge

  class Bridge {
    var sigs: map<Owner, Desired>
    var ledger: map<Owner, Row>
    var retained: map<Topic, string>
    var availability: map<Owner, bool>
    var configMsgs: nat
    var removed: nat

    ghost function Now(): (s: State)
      reads this
    {
      State(sigs, ledger, retained, availability, configMsgs, removed)
    }

    constructor ()
      ensures Now() == EMPTY
    {
      sigs, ledger, retained, availability, configMsgs, removed := map[], map[], map[], map[], 0, 0;
    }

    /** `_publish` of a config message. */
    method Put(up: bool, t: Topic, body: string)
      modifies `retained, `configMsgs
      ensures retained == if up then old(retained)[t := body] else old(retained)
      ensures configMsgs == old(configMsgs) + (if up then 1 else 0)
    {
      if up {
        retained := retained[t := body];
        configMsgs := configMsgs + 1;
      }
    }

    /** `_publish` of an empty retained message: the broker drops the topic. */
    method Clear(up: bool, t: Topic)
      modifies `retained, `removed
      ensures retained == if up then old(retained) - {t} else old(retained)
      ensures removed == old(removed) + (if up then 1 else 0)
    {
      if up {
        retained := retained - {t};
        removed := removed + 1;
      }
    }

    method SetAvailability(up: bool, o: Owner, online: bool)
      modifies `availability
      ensures availability == if up then old(availability)[o := online] else old(availability)
    {
      if up {
        availability := availability[o := online];
      }
    }

    method PutAll(up: bool, d: Desired)
      modifies `retained, `configMsgs
      ensures retained == if up then old(retained) + d else old(retained)
      ensures configMsgs == old(configMsgs) + (if up then |d| else 0)
    {
      var left := d.Keys;
      while left != {}
        invariant left <= d.Keys
        invariant if up then old(retained) + d == retained + Only(d, left) else retained == old(retained)
        invariant configMsgs == old(configMsgs) + (if up then |d| - |left| else 0)
        decreases |left|
      {
        var t :| t in left;
        PutTurn(retained, d, left, t);
        Put(up, t, d[t]);
        left := left - {t};
      }
    }

    /** The empty messages for what is no longer wanted. */
    method ClearDropped(up: bool, r: Row, d: Desired)
      modifies `retained, `removed
      ensures retained == if up then old(retained) - Dropped(r, d) else old(retained)
      ensures removed == old(removed) + (if up then |Dropped(r, d)| else 0)
    {
      var left := r;
      while left != {}
        invariant left <= r
        invariant if up then old(retained) - Dropped(r, d) == retained - Dropped(left, d) else retained == old(retained)
        invariant removed == old(removed) + (if up then |Dropped(r, d)| - |Dropped(left, d)| else 0)
        decreases |left|
      {
        var t :| t in left;
        DroppedTurn(d, left, t);
        if !HasEntity(d, t.oid) {
          Clear(up, t);
        }
        left := left - {t};
      }
    }

    /** `_forget_removed` */
    method ForgetRemoved(up: bool, o: Owner, d: Desired)
      modifies `retained, `removed, `ledger
      ensures var gone := Dropped(if o in old(ledger) then old(ledger)[o] else {}, d);
              retained == (if up then old(retained) - gone else old(retained))
              && removed == old(removed) + (if up then |gone| else 0)
      ensures ledger == old(ledger)[o := d.Keys]
    {
      ClearDropped(up, if o in ledger then ledger[o] else {}, d);
      ledger := ledger[o := d.Keys];
    }

    /** The config part of `_publish_node`. */
    method WriteNode(up: bool, o: Owner, d: Desired)
      requires o.Node?
      modifies `sigs, `ledger, `retained, `configMsgs, `removed
      ensures Now() == AfterConfig(old(Now()), up, o, d)
    {
      if !(o in sigs && sigs[o] == d) {
        ghost var was := Now();
        PutAll(up, d);
        sigs := sigs[o := d];
        ForgetRemoved(up, o, d);
        NotedAs(was, up, o, d, Leaving(o, RowOf(was, o), d), Now());
      }
    }

    /** `_publish_node` */
    method PublishNode(up: bool, o: Owner, d: Desired)
      requires o.Node?
      modifies this
      ensures Now() == AfterPublish(old(Now()), up, o, d, true)
    {
      WriteNode(up, o, d);
      SetAvailability(up, o, true);
    }

    method ClearAll(up: bool, r: Row)
      modifies `retained, `removed
      ensures retained == if up then old(retained) - r else old(retained)
      ensures removed == old(removed) + (if up then |r| else 0)
    {
      var left := r;
      while left != {}
        invariant left <= r
        invariant if up then old(retained) - r == retained - left else retained == old(retained)
        invariant removed == old(removed) + (if up then |r| - |left| else 0)
        decreases |left|
      {
        var t :| t in left;
        Clear(up, t);
        left := left - {t};
      }
    }

    /** `forget_node` */
    method ForgetNode(up: bool, o: Owner)
      requires o.Node?
      modifies this
      ensures Now() == AfterForget(old(Now()), up, o)
    {
      ClearAll(up, if o in ledger then ledger[o] else {});
      SetAvailability(up, o, false);
      ledger := ledger[o := {}];
      sigs := sigs - {o};
    }

    /** The config part of `_publish_companion`. */
    method WriteCompanion(up: bool, o: Owner, d: Desired)
      requires o.Companion?
      modifies `sigs, `ledger, `retained, `configMsgs
      ensures Now() == AfterConfig(old(Now()), up, o, d)
    {
      if !(o in sigs && sigs[o] == d) {
        ghost var was := Now();
        PutAll(up, d);
        sigs := sigs[o := d];
        ledger := ledger[o := d.Keys];
        assert retained - {} == retained;
        NotedAs(was, up, o, d, {}, Now());
      }
    }

    /** `_publish_companion` */
    method PublishCompanion(up: bool, o: Owner, d: Desired, stale: bool)
      requires o.Companion?
      modifies this
      ensures Now() == AfterPublish(old(Now()), up, o, d, !stale)
    {
      WriteCompanion(up, o, d);
      SetAvailability(up, o, !stale);
    }

    /** `_forget_companion` */
    method ForgetCompanion(up: bool, o: Owner)
      requires o.Companion?
      modifies this
      ensures Now() == AfterForget(old(Now()), up, o)
    {
      Clear(up, Topic(TRACKER, Oid(o, "")));
      SetAvailability(up, o, false);
      ledger := ledger - {o};
      sigs := sigs - {o};
    }

    /** One view of a round: a node that has been silent too long is set offline after all. */
    method Publish(up: bool, v: View)
      modifies this
      ensures Now() == AfterPublish(old(Now()), up, v.owner, v.desired, !v.stale)
    {
      if v.owner.Node? {
        PublishNode(up, v.owner, v.desired);
        if v.stale {
          SetAvailability(up, v.owner, false);
        }
        OfflineAfterAll(old(Now()), up, v.owner, v.desired);
      } else {
        PublishCompanion(up, v.owner, v.desired, v.stale);
      }
    }

    method Forget(up: bool, o: Owner)
      modifies this
      ensures Now() == AfterForget(old(Now()), up, o)
    {
      if o.Node? {
        ForgetNode(up, o);
      } else {
        ForgetCompanion(up, o);
      }
    }

    /** Everything that should be there. */
    method ShowViews(up: bool, views: seq<View>)
      modifies this
      ensures Now() == AfterViews(old(Now()), up, views)
    {
      var i := 0;
      while i < |views|
        invariant i <= |views|
        invariant AfterViews(old(Now()), up, views) == AfterViews(Now(), up, views[i..])
      {
        Publish(up, views[i]);
        i := i + 1;
      }
    }

    /** The rows of what should not be there. */
    method DropRows(up: bool, rows: seq<Owner>, views: seq<View>)
      modifies this
      ensures Now() == AfterCleanup(old(Now()), up, rows, views)
    {
      var i := 0;
      while i < |rows|
        invariant i <= |rows|
        invariant AfterCleanup(old(Now()), up, rows, views) == AfterCleanup(Now(), up, rows[i..], views)
      {
        CleanupTurn(Now(), up, rows, views, i);
        if !Listed(rows[i], views) {
          Forget(up, rows[i]);
        }
        i := i + 1;
      }
    }

    /** One half of `_sweep`: everything that should be there, then the rows of what should not. */
    method SweepHalf(up: bool, views: seq<View>, nodes: bool, order: Order)
      modifies this
      ensures Now() == AfterHalf(old(Now()), up, views, nodes, order)
    {
      ShowViews(up, views);
      var os := set o | o in ledger && o.Node? == nodes;
      assert os == Rows(Now(), nodes);
      DropRows(up, order(os), views);
    }

    /** `_sweep` */
    method Sweep(up: bool, nodes: seq<View>, companions: seq<View>, order: Order)
      modifies this
      ensures Now() == AfterSweep(old(Now()), up, nodes, companions, order)
    {
      SweepHalf(up, nodes, true, order);
      SweepHalf(up, companions, false, order);
    }

    /** The process starts again: the cache and the counters are gone, the settings and the broker are not. */
    method Restart()
      modifies this
      ensures Now() == AfterRestart(old(Now()))
    {
      sigs := map[];
      configMsgs, removed := 0, 0;
    }
  }

  lemma CleanupTurn(s: State, up: bool, rows: seq<Owner>, views: seq<View>, i: nat)
    requires i < |rows|
    ensures AfterCleanup(s, up, rows[i..], views)
         == AfterCleanup(if Listed(rows[i], views) then s else AfterForget(s, up, rows[i]), up, rows[i + 1..], views)
  {
    assert rows[i..][1..] == rows[i + 1..];
  }
}
