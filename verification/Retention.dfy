/**
 The retention pass over the packets: by age, then by number of rows, then by bytes on disk, the last
 two strictly oldest first. Row ids only grow, so the table is a sequence in the order of its ids; the
 sizes on disk are measured outside this model and come in as numbers.
 */
module Retention {
  const PACKET_FIFO_FLOOR := 1000

  datatype Packet = Packet(id: nat, ts: int)

  predicate Sorted(ps: seq<Packet>)
  {
    forall i, j :: 0 <= i < j < |ps| ==> ps[i].id < ps[j].id
  }

  /** `DELETE FROM packets WHERE ts < cutoff` leaves these. */
  function YoungEnough(ps: seq<Packet>, cutoff: int): (r: seq<Packet>)
    ensures |r| <= |ps|
    ensures forall p :: p in r <==> p in ps && p.ts >= cutoff
  {
    if ps == [] then []
    else
      assert ps == [ps[0]] + ps[1..];
      (if ps[0].ts < cutoff then [] else [ps[0]]) + YoungEnough(ps[1..], cutoff)
  }

  /** `DELETE FROM packets WHERE id <= bound` leaves these. */
  function Above(ps: seq<Packet>, bound: nat): (r: seq<Packet>)
  {
    if ps == [] then [] else (if ps[0].id <= bound then [] else [ps[0]]) + Above(ps[1..], bound)
  }

  function Max(a: int, b: int): (m: int)
  {
    if a < b then b else a
  }

  function Min(a: int, b: int): (m: int)
  {
    if a < b then a else b
  }

  /** The newest `n` packets, or all of them. */
  function Newest(ps: seq<Packet>, n: nat): (r: seq<Packet>)
    ensures |r| == Min(|ps|, n)
  {
    if |ps| <= n then ps else ps[|ps| - n..]
  }

  /** How many rows the byte ceiling leaves room for, by the measured size of a row. */
  function ByteKeep(left: nat, excess: nat, perRow: real): (keep: int)
    requires perRow >= 1.0
  {
    Max(PACKET_FIFO_FLOOR, left - (excess as real / perRow).Floor - 1)
  }

  /** What one pass is given: the limits in force and the sizes measured before the byte stage. */
  datatype Limits = Limits(cutoff: int, maxRows: nat, bytes: nat, ceiling: nat, perRow: real)

  predicate Sensible(l: Limits)
  {
    l.maxRows >= PACKET_FIFO_FLOOR && l.perRow >= 1.0
  }

  datatype Report = Report(byAge: nat, byRows: nat, byBytes: nat, left: nat)

  /** The packets after a pass. */
  function Survivors(ps: seq<Packet>, l: Limits): (r: seq<Packet>)
    requires Sensible(l)
  {
    var rows := Newest(YoungEnough(ps, l.cutoff), l.maxRows);
    if l.bytes > l.ceiling && |rows| > PACKET_FIFO_FLOOR
    then Newest(rows, ByteKeep(|rows|, l.bytes - l.ceiling, l.perRow))
    else rows
  }

  // ------------------------------------------------------------- the deletes

  lemma {:induction false} YoungSorted(ps: seq<Packet>, cutoff: int)
    requires Sorted(ps)
    ensures Sorted(YoungEnough(ps, cutoff))
  {
    if ps != [] {
      YoungSorted(ps[1..], cutoff);
      forall p | p in YoungEnough(ps[1..], cutoff) ensures ps[0].id < p.id {
        var k :| 0 <= k < |ps[1..]| && ps[1..][k] == p;
        assert p == ps[k + 1];
      }
    }
  }

  lemma {:induction false} AboveAll(ps: seq<Packet>, bound: nat)
    requires forall p :: p in ps ==> p.id > bound
    ensures Above(ps, bound) == ps
  {
    if ps != [] {
      AboveAll(ps[1..], bound);
    }
  }

  /** Deleting everything up to the id of one row leaves exactly what stands behind that row. */
  lemma {:induction false} AboveIsSuffix(ps: seq<Packet>, i: nat)
    requires Sorted(ps) && i < |ps|
    ensures Above(ps, ps[i].id) == ps[i + 1..]
  {
    if i == 0 {
      AboveAll(ps[1..], ps[0].id);
    } else {
      assert ps[1..][i - 1] == ps[i];
      AboveIsSuffix(ps[1..], i - 1);
      assert ps[1..][i..] == ps[i + 1..];
    }
  }

  class Packets {
    var rows: seq<Packet>

    constructor ()
      ensures rows == []
    {
      rows := [];
    }

    /** `_trim_oldest_packets`: find the first row too many from the new end, delete it and all older ones. */
    method TrimOldest(keep: int) returns (gone: nat)
      requires Sorted(rows)
      modifies this
      ensures rows == Newest(old(rows), Max(PACKET_FIFO_FLOOR, keep))
      ensures gone == |old(rows)| - |rows|
    {
      var n: nat := Max(PACKET_FIFO_FLOOR, keep);
      if |rows| <= n {
        return 0;
      }
      var first := |rows| - 1 - n;
      AboveIsSuffix(rows, first);
      gone := |rows|;
      rows := Above(rows, rows[first].id);
      gone := gone - |rows|;
    }

    /** The packet stages of `prune`. */
    method Prune(l: Limits) returns (report: Report)
      requires Sorted(rows) && Sensible(l)
      modifies this
      ensures rows == Survivors(old(rows), l)
      ensures report.left == |rows|
      ensures report.byAge == |old(rows)| - |YoungEnough(old(rows), l.cutoff)|
      ensures report.byRows == |YoungEnough(old(rows), l.cutoff)| - Min(|YoungEnough(old(rows), l.cutoff)|, l.maxRows)
      ensures report.byAge + report.byRows + report.byBytes + report.left == |old(rows)|
    {
      YoungSorted(rows, l.cutoff);
      var before := |rows|;
      rows := YoungEnough(rows, l.cutoff);
      var byAge, byRows, byBytes := before - |rows|, 0, 0;
      var left := |rows|;
      if left > l.maxRows {
        byRows := TrimOldest(l.maxRows);
        left := |rows|;
      }
      if l.bytes > l.ceiling && left > PACKET_FIFO_FLOOR {
        var excess := l.bytes - l.ceiling;
        var keep := Max(PACKET_FIFO_FLOOR, left - (excess as real / l.perRow).Floor - 1);
        SuffixSorted(old(rows), l);
        byBytes := TrimOldest(keep);
        left := |rows|;
      }
      report := Report(byAge, byRows, byBytes, left);
    }

    lemma SuffixSorted(ps: seq<Packet>, l: Limits)
      requires Sorted(ps)
      ensures Sorted(Newest(YoungEnough(ps, l.cutoff), l.maxRows))
    {
      YoungSorted(ps, l.cutoff);
    }
  }

  // -------------------------------------------------------------- guarantees

  lemma NewestTwice(ps: seq<Packet>, m: nat, n: nat)
    ensures Newest(Newest(ps, m), n) == Newest(ps, Min(m, n))
  {
  }

  /** The newest rows are the ones with the highest ids. */
  lemma NewestAreHighest(ps: seq<Packet>, n: nat)
    requires Sorted(ps)
    ensures forall p, q :: p in Newest(ps, n) && q in ps && q !in Newest(ps, n) ==> q.id < p.id
  {
    var out := Newest(ps, n);
    var gone := |ps| - |out|;
    assert forall k :: gone <= k < |ps| ==> ps[k] == out[k - gone];
    forall p, q | p in out && q in ps && q !in out ensures q.id < p.id {
      var i :| 0 <= i < |out| && out[i] == p;
      var j :| 0 <= j < |ps| && ps[j] == q;
      assert ps[gone + i] == p;
    }
  }

  /** How many packets survive. */
  function Quota(n: nat, l: Limits): (k: nat)
    requires Sensible(l)
  {
    var rows := Min(n, l.maxRows);
    if l.bytes > l.ceiling && rows > PACKET_FIFO_FLOOR then
      QuotientFloor(l.bytes - l.ceiling, l.perRow);
      Min(rows, ByteKeep(rows, l.bytes - l.ceiling, l.perRow))
    else rows
  }

  /**
   Exact FIFO: of the packets that survive by age, the survivors of the whole pass are precisely those
   with the highest ids, at most the row limit of them, and never fewer than the floor if there were
   that many.
   */
  lemma ExactFifo(ps: seq<Packet>, l: Limits)
    requires Sorted(ps) && Sensible(l)
    ensures var young, out := YoungEnough(ps, l.cutoff), Survivors(ps, l);
            && |out| <= Min(|young|, l.maxRows)
            && |out| >= Min(|young|, PACKET_FIFO_FLOOR)
            && out == Newest(young, |out|)
            && forall p, q :: p in out && q in young && q !in out ==> q.id < p.id
  {
    var young, out := YoungEnough(ps, l.cutoff), Survivors(ps, l);
    YoungSorted(ps, l.cutoff);
    var k := Quota(|young|, l);
    var rows := Newest(young, l.maxRows);
    if l.bytes > l.ceiling && |rows| > PACKET_FIFO_FLOOR {
      NewestTwice(young, l.maxRows, ByteKeep(|rows|, l.bytes - l.ceiling, l.perRow));
    }
    assert out == Newest(young, k);
    NewestAreHighest(young, k);
  }

  /**
   The byte stage always makes progress: over the ceiling and above the floor it removes at least one
   row, and either as many as make up the excess by the measured row size, or all above the floor.
   */
  lemma BytesMakeProgress(ps: seq<Packet>, l: Limits)
    requires Sorted(ps) && Sensible(l) && l.bytes > l.ceiling
    requires Min(|YoungEnough(ps, l.cutoff)|, l.maxRows) > PACKET_FIFO_FLOOR
    ensures var left := Min(|YoungEnough(ps, l.cutoff)|, l.maxRows);
            var gone := left - |Survivors(ps, l)|;
            && gone >= 1
            && (gone as real * l.perRow > (l.bytes - l.ceiling) as real || |Survivors(ps, l)| == PACKET_FIFO_FLOOR)
  {
    var left := Min(|YoungEnough(ps, l.cutoff)|, l.maxRows);
    var excess := l.bytes - l.ceiling;
    QuotientFloor(excess, l.perRow);
    var n := (excess as real / l.perRow).Floor;
    if left - n - 1 >= PACKET_FIFO_FLOOR {
      assert left - |Survivors(ps, l)| == n + 1;
    }
  }

  lemma QuotientFloor(excess: nat, perRow: real)
    requires perRow >= 1.0
    ensures var n := (excess as real / perRow).Floor;
            n >= 0 && (n + 1) as real * perRow > excess as real
  {
    var q := excess as real / perRow;
    assert q * perRow == excess as real;
    assert (q.Floor + 1) as real > q;
    assert (q.Floor + 1) as real * perRow > q * perRow;
  }

  lemma {:induction false} YoungTwice(ps: seq<Packet>, cutoff: int)
    requires forall p :: p in ps ==> p.ts >= cutoff
    ensures YoungEnough(ps, cutoff) == ps
  {
    if ps != [] {
      assert ps[0] in ps;
      YoungTwice(ps[1..], cutoff);
    }
  }

  /** A second pass at the same moment, with the bytes under the ceiling by then, deletes nothing. */
  lemma PruneSettles(ps: seq<Packet>, l: Limits, again: Limits)
    requires Sorted(ps) && Sensible(l) && again == l.(bytes := again.bytes) && again.bytes <= l.ceiling
    ensures Survivors(Survivors(ps, l), again) == Survivors(ps, l)
  {
    ExactFifo(ps, l);
    var young, out := YoungEnough(ps, l.cutoff), Survivors(ps, l);
    forall p | p in out ensures p.ts >= l.cutoff {
      assert p in young;
    }
    YoungTwice(out, l.cutoff);
  }
}
