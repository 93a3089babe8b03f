/**
 What one round after a restart makes good, whatever was lost before: after any history in which each single
 message may or may not have reached the broker, exactly the topics whose removal was lost stay behind.
 */
module HaRepair {
  import opened HaDiscovery
  import opened HaLosses

  // ------------------------------------------------------- histories with losses

  /** What the publisher does, and which of its messages the broker hears. */
  datatype Lossy = Publish(view: View, heard: set<Topic>) | Forget(owner: Owner, heard: set<Topic>) | Restarted

  /** Forgetting an owner when only some of the removals are heard. */
  function ForgetSome(s: State, heard: set<Topic>, o: Owner): (t: State)
  {
    var gone := Cleared(s, o) * heard;
    s.(sigs := s.sigs - {o}, ledger := if o.Node? then s.ledger[o := {}] else s.ledger - {o},
       retained := s.retained - gone, removed := s.removed + |gone|)
  }

  function AfterLossy(s: State, a: Lossy): (t: State)
  {
    match a
    case Publish(v, heard) => AfterSome(s, heard, v.owner, v.desired)
    case Forget(o, heard) => ForgetSome(s, heard, o)
    case Restarted => AfterRestart(s)
  }

  function LossyRun(actions: seq<Lossy>): (s: State)
  {
    if actions == [] then EMPTY else AfterLossy(LossyRun(actions[..|actions| - 1]), actions[|actions| - 1])
  }

  predicate ProperLossy(kind: Kinds, a: Lossy)
  {
    a.Publish? ==> Proper(kind, a.view.owner, a.view.desired)
  }

  predicate AllProperLossy(kind: Kinds, actions: seq<Lossy>)
  {
    forall i :: 0 <= i < |actions| ==> ProperLossy(kind, actions[i])
  }

  lemma RowReplaced(kind: Kinds, s: State, t: State, o: Owner, r: Row)
    requires RowsProper(kind, s) && t.ledger == s.ledger[o := r] && ProperRow(kind, o, r)
    ensures RowsProper(kind, t)
  {
    forall p | p in t.ledger
      ensures ProperRow(kind, p, t.ledger[p])
    {
      assert p != o ==> ProperRow(kind, p, s.ledger[p]);
    }
  }

  lemma RowDeleted(kind: Kinds, s: State, t: State, o: Owner)
    requires RowsProper(kind, s) && t.ledger == s.ledger - {o}
    ensures RowsProper(kind, t)
  {
    forall p | p in t.ledger
      ensures ProperRow(kind, p, t.ledger[p])
    {
      assert ProperRow(kind, p, s.ledger[p]);
    }
  }

  lemma LossyProper(kind: Kinds, s: State, a: Lossy)
    requires RowsProper(kind, s) && ProperLossy(kind, a)
    ensures RowsProper(kind, AfterLossy(s, a))
  {
    match a
    case Publish(v, heard) =>
      if !Cached(s, v.owner, v.desired) {
        RowReplaced(kind, s, AfterLossy(s, a), v.owner, v.desired.Keys);
      }
    case Forget(o, heard) =>
      if o.Node? {
        RowReplaced(kind, s, AfterLossy(s, a), o, {});
      } else {
        RowDeleted(kind, s, AfterLossy(s, a), o);
      }
    case Restarted =>
  }

  lemma {:induction false} LossyRunProper(kind: Kinds, actions: seq<Lossy>)
    requires AllProperLossy(kind, actions)
    ensures RowsProper(kind, LossyRun(actions))
  {
    if actions != [] {
      LossyRunProper(kind, actions[..|actions| - 1]);
      LossyProper(kind, LossyRun(actions[..|actions| - 1]), actions[|actions| - 1]);
    }
  }

  /** The step owes the broker the removal of `t`, which is there. */
  predicate Removes(s: State, a: Lossy, t: Topic)
  {
    && t in s.retained
    && match a
       case Publish(v, _) => !Cached(s, v.owner, v.desired) && t in Leaving(v.owner, RowOf(s, v.owner), v.desired)
       case Forget(o, _) => t in Cleared(s, o)
       case Restarted => false
  }

  predicate Hears(a: Lossy, t: Topic)
  {
    !a.Restarted? && t in a.heard
  }

  /** The step asks for `t`. */
  predicate Asks(s: State, a: Lossy, t: Topic)
  {
    a.Publish? && !Cached(s, a.view.owner, a.view.desired) && t in a.view.desired
  }

  /** A step leaves a topic behind by losing its removal; otherwise one left behind stays, unless it is asked for. */
  lemma LostStep(kind: Kinds, s: State, a: Lossy, t: Topic)
    requires RowsProper(kind, s) && ProperLossy(kind, a)
    ensures Lost(AfterLossy(s, a), t)
       <==> if Removes(s, a, t) then !Hears(a, t) else Lost(s, t) && !Asks(s, a, t)
  {
    match a
    case Publish(v, heard) =>
      if !Cached(s, v.owner, v.desired) {
        SomeAt(s, heard, v.owner, v.desired, t);
        RecordedAfter(s, heard, v.owner, v.desired, t);
        if t.oid.owner == v.owner {
          RowTurns(kind, v.owner, RowOf(s, v.owner), v.desired, t);
        } else {
          ForeignTopic(kind, v.owner, RowOf(s, v.owner), v.desired, t);
        }
      }
    case Forget(o, heard) =>
      assert o in s.ledger ==> ProperRow(kind, o, s.ledger[o]);
    case Restarted =>
  }

  ghost predicate RemovalsHeard(actions: seq<Lossy>)
  {
    forall i, t :: 0 <= i < |actions| && Removes(LossyRun(actions[..i]), actions[i], t) ==> Hears(actions[i], t)
  }

  /** Where no removal was lost, nothing was left behind, however many configs were. */
  lemma {:induction false} NoGhosts(kind: Kinds, actions: seq<Lossy>, t: Topic)
    requires AllProperLossy(kind, actions) && RemovalsHeard(actions)
    ensures !Lost(LossyRun(actions), t)
  {
    if actions != [] {
      var n := |actions| - 1;
      assert forall i :: 0 <= i < n ==> actions[..n][..i] == actions[..i];
      NoGhosts(kind, actions[..n], t);
      LossyRunProper(kind, actions[..n]);
      LostStep(kind, LossyRun(actions[..n]), actions[n], t);
    }
  }

  // ------------------------------------------------------- a round from any state

  /** The rows name what they should, and what is cached is there; the broker may hold anything besides. */
  predicate Sane(kind: Kinds, s: State)
  {
    RowsProper(kind, s) && CacheIsTrue(s)
  }

  predicate LostAs(s: State, t: Topic, body: string)
  {
    Lost(s, t) && s.retained[t] == body
  }

  lemma WrittenAt(s: State, o: Owner, d: Desired, t: Topic)
    requires !Cached(s, o, d)
    ensures var r, gone := AfterConfig(s, true, o, d).retained, Leaving(o, RowOf(s, o), d);
            && (t in r <==> (t in s.retained || t in d) && t !in gone)
            && (t in r ==> r[t] == if t in d then d[t] else s.retained[t])
  {
  }

  lemma NotedAt(s: State, o: Owner, d: Desired, t: Topic)
    requires !Cached(s, o, d)
    ensures Recorded(AfterConfig(s, true, o, d), t) <==> if t.oid.owner == o then t in d else Recorded(s, t)
  {
  }

  lemma ConfigLost(kind: Kinds, s: State, o: Owner, d: Desired, t: Topic, body: string)
    requires RowsProper(kind, s) && Proper(kind, o, d) && !Cached(s, o, d)
    ensures LostAs(AfterConfig(s, true, o, d), t, body) <==> LostAs(s, t, body) && t !in d
  {
    WrittenAt(s, o, d, t);
    NotedAt(s, o, d, t);
    if t.oid.owner == o {
      RowTurns(kind, o, RowOf(s, o), d, t);
    } else {
      ForeignTopic(kind, o, RowOf(s, o), d, t);
    }
  }

  lemma ConfigSane(kind: Kinds, s: State, o: Owner, d: Desired, t: Topic, body: string)
    requires Sane(kind, s) && Proper(kind, o, d)
    ensures Sane(kind, AfterConfig(s, true, o, d))
    ensures LostAs(AfterConfig(s, true, o, d), t, body) <==> LostAs(s, t, body) && t !in d
  {
    if Cached(s, o, d) {
      CachedHolds(s, o, d);
      assert t in d ==> t.oid.owner == o;
    } else {
      ConfigAllTrue(kind, s, o, d);
      RowReplaced(kind, s, AfterConfig(s, true, o, d), o, d.Keys);
      ConfigLost(kind, s, o, d, t, body);
    }
  }

  lemma SameSane(kind: Kinds, s: State, u: State, t: Topic, body: string)
    requires Sane(kind, s) && u == s.(availability := u.availability)
    ensures Sane(kind, u) && (LostAs(u, t, body) <==> LostAs(s, t, body))
  {
    forall o | o in u.sigs
      ensures Holds(u, o, u.sigs[o])
    {
      assert Holds(s, o, s.sigs[o]);
    }
  }

  lemma PublishSane(kind: Kinds, s: State, v: View, t: Topic, body: string)
    requires Sane(kind, s) && Proper(kind, v.owner, v.desired)
    ensures var u := AfterPublish(s, true, v.owner, v.desired, !v.stale);
            Sane(kind, u) && (LostAs(u, t, body) <==> LostAs(s, t, body) && t !in v.desired)
  {
    ConfigSane(kind, s, v.owner, v.desired, t, body);
    SameSane(kind, AfterConfig(s, true, v.owner, v.desired),
             AfterPublish(s, true, v.owner, v.desired, !v.stale), t, body);
  }

  /** Some view asks for the topic. */
  predicate Asked(views: seq<View>, t: Topic)
  {
    exists i :: 0 <= i < |views| && t in views[i].desired
  }

  lemma AskedCons(views: seq<View>, t: Topic)
    requires views != []
    ensures Asked(views, t) <==> t in views[0].desired || Asked(views[1..], t)
  {
    if i :| 0 <= i < |views[1..]| && t in views[1..][i].desired {
      assert views[i + 1] == views[1..][i];
    }
    if i :| 0 <= i < |views| && t in views[i].desired {
      assert i > 0 ==> views[1..][i - 1] == views[i];
    }
  }

  lemma {:induction false} ViewsSane(kind: Kinds, s: State, views: seq<View>, t: Topic, body: string)
    requires Sane(kind, s) && AllProper(kind, views)
    ensures var u := AfterViews(s, true, views); Sane(kind, u) && (LostAs(u, t, body) <==> LostAs(s, t, body) && !Asked(views, t))
    decreases |views|
  {
    if views != [] {
      var v := views[0];
      assert AllProper(kind, views[1..]);
      PublishSane(kind, s, v, t, body);
      ViewsSane(kind, AfterPublish(s, true, v.owner, v.desired, !v.stale), views[1..], t, body);
      AskedCons(views, t);
    }
  }

  lemma {:induction false} CleanupSane(kind: Kinds, s: State, rows: seq<Owner>, views: seq<View>, t: Topic, body: string)
    requires Sane(kind, s) && RowsLeft(s, rows)
    ensures var u := AfterCleanup(s, true, rows, views); Sane(kind, u) && (LostAs(u, t, body) <==> LostAs(s, t, body))
    decreases |rows|
  {
    if rows != [] {
      RowsStep(s, true, rows);
      if Listed(rows[0], views) {
        CleanupSane(kind, s, rows[1..], views, t, body);
      } else {
        CleanupSane(kind, AfterForget(s, true, rows[0]), rows[1..], views, t, body);
      }
    }
  }

  lemma HalfSane(kind: Kinds, s: State, views: seq<View>, nodes: bool, order: Order, t: Topic, body: string)
    requires Sane(kind, s) && AllProper(kind, views) && Lists(order)
    ensures var u := AfterHalf(s, true, views, nodes, order);
            Sane(kind, u) && (LostAs(u, t, body) <==> LostAs(s, t, body) && !Asked(views, t))
  {
    var v := AfterViews(s, true, views);
    ViewsSane(kind, s, views, t, body);
    OrderedRows(v, nodes, order);
    CleanupSane(kind, v, order(Rows(v, nodes)), views, t, body);
  }

  lemma RecordedIsWanted(kind: Kinds, s: State, views: seq<View>, nodes: bool, t: Topic)
    requires Sane(kind, s) && Shown(s, views) && Tidy(s, views, nodes)
    requires Recorded(s, t) && t.oid.owner.Node? == nodes
    ensures t in s.retained && Wants(views, t, s.retained[t])
  {
    var o := t.oid.owner;
    assert Listed(o, views);
    var i :| 0 <= i < |views| && views[i].owner == o;
    assert Cached(s, o, views[i].desired);
    assert Holds(s, o, views[i].desired);
  }

  /**
   A round after a restart, from any state whose rows are proper, so whatever was lost: the broker then retains
   the wanted configs, and besides them exactly the topics left behind that nobody asked for in the round.
   */
  lemma RoundRepairs(kind: Kinds, s: State, nodes: seq<View>, companions: seq<View>, order: Order, t: Topic, body: string)
    requires RowsProper(kind, s) && Lists(order)
    requires ProperViews(kind, nodes, true) && ProperViews(kind, companions, false)
    ensures var u := AfterSweep(AfterRestart(s), true, nodes, companions, order);
            t in u.retained && u.retained[t] == body
            <==> Wants(nodes, t, body) || Wants(companions, t, body)
                 || (LostAs(s, t, body) && !Asked(nodes, t) && !Asked(companions, t))
  {
    var r := AfterRestart(s);
    var h := AfterHalf(r, true, nodes, true, order);
    var u := AfterHalf(h, true, companions, false, order);
    HalfSane(kind, r, nodes, true, order, t, body);
    HalfSane(kind, h, companions, false, order, t, body);
    SweepShows(kind, r, true, nodes, companions, order);
    if Wants(nodes, t, body) {
      WantedIsRetained(u, nodes, t, body);
    }
    if Wants(companions, t, body) {
      WantedIsRetained(u, companions, t, body);
    }
    if t in u.retained && Recorded(u, t) {
      RecordedIsWanted(kind, u, if t.oid.owner.Node? then nodes else companions, t.oid.owner.Node?, t);
    }
  }

  /**
   After any history with losses, a restart and a round: exactly what is wanted, and what was left behind. Where
   every removal was heard, exactly what is wanted.
   */
  lemma RoundAfterLosses(kind: Kinds, actions: seq<Lossy>, nodes: seq<View>, companions: seq<View>, order: Order,
                         t: Topic, body: string)
    requires AllProperLossy(kind, actions) && Lists(order)
    requires ProperViews(kind, nodes, true) && ProperViews(kind, companions, false)
    ensures var s := LossyRun(actions);
            var u := AfterSweep(AfterRestart(s), true, nodes, companions, order);
            var wanted := Wants(nodes, t, body) || Wants(companions, t, body);
            && (t in u.retained && u.retained[t] == body
                <==> wanted || (LostAs(s, t, body) && !Asked(nodes, t) && !Asked(companions, t)))
            && (RemovalsHeard(actions) ==> (t in u.retained && u.retained[t] == body <==> wanted))
  {
    LossyRunProper(kind, actions);
    RoundRepairs(kind, LossyRun(actions), nodes, companions, order, t, body);
    if RemovalsHeard(actions) {
      NoGhosts(kind, actions, t);
    }
  }
}
