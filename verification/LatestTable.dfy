/**
 Pruning a table of current values: `latest`, and in the same way `repeater_cli`. Orphans go, then what
 has died out at repeaters that are still alive, then whatever exceeds the limit per repeater, the
 longest not refreshed first.
 */
module LatestTable {
  import Text

  /** A row of the table; (repeater, name) is its primary key. */
  datatype Row = Row(rep: int, name: string, ts: int)

  type Rows = set<Row>

  ghost predicate Keyed(rows: Rows)
  {
    forall a, b :: a in rows && b in rows && a.rep == b.rep && a.name == b.name ==> a == b
  }

  function Of(rows: Rows, rep: int): (r: Rows)
  {
    set x | x in rows && x.rep == rep
  }

  /** The order of one repeater's rows: the most recent first, then by name. */
  predicate Before(a: Row, b: Row)
  {
    a.rep == b.rep && (a.ts > b.ts || (a.ts == b.ts && a.name != b.name && Text.Leq(a.name, b.name)))
  }

  /** `ROW_NUMBER() - 1` within the repeater's partition. */
  function Rank(rows: Rows, x: Row): (n: nat)
  {
    |set y | y in rows && Before(y, x)|
  }

  predicate Alive(rows: Rows, rep: int, staleBefore: int)
  {
    exists y :: y in rows && y.rep == rep && y.ts >= staleBefore
  }

  function Orphanless(rows: Rows, known: set<int>): (r: Rows)
  {
    set x | x in rows && x.rep in known
  }

  function Fresh(rows: Rows, staleBefore: int): (r: Rows)
  {
    set x | x in rows && !(x.ts < staleBefore && Alive(rows, x.rep, staleBefore))
  }

  function Capped(rows: Rows, cap: nat): (r: Rows)
  {
    set x | x in rows && Rank(rows, x) < cap
  }

  function Pruned(rows: Rows, known: set<int>, staleBefore: int, cap: nat): (r: Rows)
  {
    Capped(Fresh(Orphanless(rows, known), staleBefore), cap)
  }

  class Table {
    var rows: Rows

    constructor ()
      ensures rows == {}
    {
      rows := {};
    }

    /** `_prune_latest` with a limit of 1000 rows per repeater, `_prune_cli` with one of 200. */
    method Prune(known: set<int>, staleBefore: int, cap: nat) returns (gone: nat)
      modifies this
      ensures rows == Pruned(old(rows), known, staleBefore, cap)
      ensures gone == |old(rows)| - |rows|
    {
      var kept := Orphanless(rows, known);
      Fewer(kept, rows);
      gone := |rows| - |kept|;
      rows := kept;
      kept := Fresh(rows, staleBefore);
      Fewer(kept, rows);
      gone := gone + (|rows| - |kept|);
      rows := kept;
      kept := Capped(rows, cap);
      Fewer(kept, rows);
      gone := gone + (|rows| - |kept|);
      rows := kept;
    }
  }

  lemma Fewer(a: Rows, b: Rows)
    requires a <= b
    ensures |a| <= |b|
  {
    assert b == a + (b - a);
  }

  // --------------------------------------------------------------- the order

  lemma BeforeStrict(a: Row, b: Row)
    requires Before(a, b)
    ensures !Before(b, a) && a != b
  {
    if a.ts == b.ts && Text.Leq(b.name, a.name) {
      Text.LeqAntisymmetric(a.name, b.name);
    }
  }

  lemma BeforeTransitive(a: Row, b: Row, c: Row)
    requires Before(a, b) && Before(b, c)
    ensures Before(a, c)
  {
    if a.ts == b.ts == c.ts {
      Text.LeqTransitive(a.name, b.name, c.name);
      BeforeStrict(a, b);
      if a.name == c.name {
        BeforeStrict(b, c);
      }
    }
  }

  lemma BeforeTotal(rows: Rows, a: Row, b: Row)
    requires Keyed(rows) && a in rows && b in rows && a.rep == b.rep && a != b
    ensures Before(a, b) || Before(b, a)
  {
    Text.LeqTotal(a.name, b.name);
  }

  /** The last of a repeater's rows: every other one comes before it. */
  lemma {:induction false} LastExists(rows: Rows, some: Rows) returns (z: Row)
    requires Keyed(rows) && some <= rows && some != {}
    requires forall a, b :: a in some && b in some ==> a.rep == b.rep
    ensures z in some && forall y :: y in some && y != z ==> Before(y, z)
    decreases |some|
  {
    var x :| x in some;
    if some == {x} {
      return x;
    }
    var w := LastExists(rows, some - {x});
    BeforeTotal(rows, x, w);
    if Before(x, w) {
      return w;
    }
    z := x;
    forall y | y in some && y != z ensures Before(y, z) {
      if y != w {
        BeforeTransitive(y, w, x);
      }
    }
  }

  function Preceding(some: Rows, x: Row): (r: Rows)
  {
    set y | y in some && Before(y, x)
  }

  /** How many of one repeater's rows have a rank under the limit. */
  function Under(some: Rows, cap: nat): (r: Rows)
  {
    set x | x in some && |Preceding(some, x)| < cap
  }

  lemma LastRank(some: Rows, z: Row)
    requires z in some && forall y :: y in some && y != z ==> Before(y, z)
    ensures Preceding(some, z) == some - {z}
    ensures forall x :: x in some && x != z ==> Preceding(some, x) == Preceding(some - {z}, x)
  {
    forall y | y in some && y != z ensures !Before(z, y) {
      BeforeStrict(y, z);
    }
    if Before(z, z) {
      BeforeStrict(z, z);
    }
  }

  /** Exactly as many rows have a rank under the limit as the limit allows and there are. */
  lemma {:induction false} UnderCount(rows: Rows, some: Rows, cap: nat)
    requires Keyed(rows) && some <= rows
    requires forall a, b :: a in some && b in some ==> a.rep == b.rep
    ensures |Under(some, cap)| == if |some| < cap then |some| else cap
    decreases |some|
  {
    if some == {} {
      return;
    }
    var z := LastExists(rows, some);
    var rest := some - {z};
    UnderCount(rows, rest, cap);
    LastRank(some, z);
    assert Under(some, cap) - {z} == Under(rest, cap);
    assert z in Under(some, cap) <==> |rest| < cap;
    if z in Under(some, cap) {
      assert Under(some, cap) == Under(rest, cap) + {z};
    } else {
      assert Under(some, cap) == Under(rest, cap);
    }
  }

  lemma OwnRank(rows: Rows, rep: int, x: Row)
    requires x.rep == rep
    ensures Rank(rows, x) == |Preceding(Of(rows, rep), x)|
  {
    assert (set y | y in rows && Before(y, x)) == Preceding(Of(rows, rep), x);
  }

  // -------------------------------------------------------------- guarantees

  /** The limit holds for every repeater, and is met exactly: nothing goes that there is room for. */
  lemma CapExact(rows: Rows, cap: nat, rep: int)
    requires Keyed(rows)
    ensures |Of(Capped(rows, cap), rep)| == if |Of(rows, rep)| < cap then |Of(rows, rep)| else cap
  {
    var mine := Of(rows, rep);
    UnderCount(rows, mine, cap);
    forall x | x in mine ensures Rank(rows, x) == |Preceding(mine, x)| {
      OwnRank(rows, rep, x);
    }
    assert Of(Capped(rows, cap), rep) == Under(mine, cap);
  }

  /** The oldest go first: every row that stays comes before every row of its repeater that goes. */
  lemma CapOldestFirst(rows: Rows, cap: nat, keep: Row, drop: Row)
    requires Keyed(rows) && keep.rep == drop.rep
    requires keep in Capped(rows, cap) && drop in rows && drop !in Capped(rows, cap)
    ensures Before(keep, drop)
  {
    BeforeTotal(rows, keep, drop);
    if Before(drop, keep) {
      var a := set y | y in rows && Before(y, drop);
      var b := set y | y in rows && Before(y, keep);
      forall y | y in a ensures y in b {
        BeforeTransitive(y, drop, keep);
      }
      Fewer(a, b);
    }
  }

  /** A newest row among a repeater's rows. */
  lemma {:induction false} NewestExists(some: Rows) returns (x: Row)
    requires some != {}
    ensures x in some && forall y :: y in some ==> y.ts <= x.ts
    decreases |some|
  {
    x :| x in some;
    if some != {x} {
      var w := NewestExists(some - {x});
      if w.ts > x.ts {
        x := w;
      }
    }
  }

  /**
   Pruning keeps every known repeater within the limit, and yet keeps a newest row of each known
   repeater that had any, dead or alive.
   */
  lemma NewestSurvives(rows: Rows, known: set<int>, staleBefore: int, cap: nat, rep: int)
    requires Keyed(rows) && rep in known && Of(rows, rep) != {} && cap > 0
    ensures |Of(Pruned(rows, known, staleBefore, cap), rep)| <= cap
    ensures exists x :: x in Pruned(rows, known, staleBefore, cap) && x.rep == rep
                     && forall y :: y in rows && y.rep == rep ==> y.ts <= x.ts
  {
    var a := Orphanless(rows, known);
    var b := Fresh(a, staleBefore);
    CapExact(b, cap, rep);
    var top := NewestExists(Of(rows, rep));
    assert top in a;
    assert top in b by {
      if Alive(a, rep, staleBefore) {
        var y :| y in a && y.rep == rep && y.ts >= staleBefore;
        assert y in Of(rows, rep);
      }
    }
    var kept := Of(Capped(b, cap), rep);
    assert top in Of(b, rep);
    assert kept != {};
    var k :| k in kept;
    if top !in Capped(b, cap) {
      CapOldestFirst(b, cap, k, top);
      assert k in Of(rows, rep);
    }
  }

  /** Dying out touches only the living: a repeater with nothing fresh keeps all its rows until the limit. */
  lemma SilentUntouched(rows: Rows, staleBefore: int, rep: int)
    requires !Alive(rows, rep, staleBefore)
    ensures Of(Fresh(rows, staleBefore), rep) == Of(rows, rep)
  {
  }

  /** Pruning twice is pruning once. */
  lemma PruneSettles(rows: Rows, known: set<int>, staleBefore: int, cap: nat)
    requires Keyed(rows) && cap > 0
    ensures var once := Pruned(rows, known, staleBefore, cap);
            Pruned(once, known, staleBefore, cap) == once
  {
    var a := Orphanless(rows, known);
    var b := Fresh(a, staleBefore);
    var c := Capped(b, cap);
    assert Orphanless(c, known) == c;
    forall x | x in c && Alive(c, x.rep, staleBefore) ensures x.ts >= staleBefore {
      var y :| y in c && y.rep == x.rep && y.ts >= staleBefore;
      assert Alive(a, x.rep, staleBefore);
    }
    assert Fresh(c, staleBefore) == c;
    forall x | x in c ensures Rank(c, x) < cap {
      Fewer(set y | y in c && Before(y, x), set y | y in b && Before(y, x));
    }
    assert Capped(c, cap) == c;
  }
}
