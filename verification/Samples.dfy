/**
 Storing a snapshot without a time-series store: `latest` always takes the new value, `samples` only
 one that changed or a heartbeat. A chart that holds the last sample loses nothing by it.

 Values are reals and time stamps seconds. How a text is read as a number is outside this model, so a
 text value carries the number it reads as, if any.
 */
module Samples {
  import opened Wrappers
  import opened Seqs
  import Battery

  datatype Raw = Flag(on: bool) | Number(value: real) | Words(text: string, parsed: Option<real>) | Null

  function ValueOf(raw: Raw): (v: Option<real>)
  {
    match raw
    case Flag(on) => Some(if on then 1.0 else 0.0)
    case Number(r) => Some(r)
    case Words(_, parsed) => parsed
    case Null => None
  }

  const VALUE_STR_MAX := 255

  function TextOf(raw: Raw): (t: Option<string>)
  {
    if raw.Words? && raw.parsed.None? then
      Some(if |raw.text| > VALUE_STR_MAX then raw.text[..VALUE_STR_MAX] else raw.text)
    else None
  }

  datatype Latest = Latest(ts: int, value: Option<real>, text: Option<string>)
  datatype Sample = Sample(ts: int, value: real)

  /** One metric of one repeater: its row in `latest`, and its rows in `samples` in the order of time. */
  datatype Series = Series(latest: Option<Latest>, samples: seq<Sample>)

  const EMPTY := Series(None, [])

  predicate Sorted(ss: seq<Sample>)
  {
    forall i, j :: 0 <= i < j < |ss| ==> ss[i].ts < ss[j].ts
  }

  /** `INSERT OR REPLACE` on the key (repeater, metric, ts). */
  function Insert(ss: seq<Sample>, s: Sample): (r: seq<Sample>)
    ensures r != [] && forall x :: x in r ==> x == s || x in ss
  {
    if ss == [] then [s]
    else if ss[0].ts < s.ts then
      assert ss == [ss[0]] + ss[1..];
      [ss[0]] + Insert(ss[1..], s)
    else if ss[0].ts == s.ts then [s] + ss[1..]
    else [s] + ss
  }

  /** Whether a numeric value becomes a sample. */
  predicate Stores(x: Series, ts: int, value: real, force: bool, heartbeat: int)
  {
    || force || x.latest.None? || x.latest.value.value != Some(value)
    || x.samples == [] || ts - x.samples[|x.samples| - 1].ts >= heartbeat
  }

  /** One reading of one metric; with a time-series store the samples are kept there instead. */
  function Taken(x: Series, ts: int, raw: Raw, force: bool, heartbeat: int, tsdb: bool): (y: Series)
  {
    var v := ValueOf(raw);
    var latest := Some(Latest(ts, v, TextOf(raw)));
    if v.Some? && !tsdb && Stores(x, ts, v.value, force, heartbeat)
    then Series(latest, Insert(x.samples, Sample(ts, v.value)))
    else Series(latest, x.samples)
  }

  // ------------------------------------------------------------------ a run

  datatype Reading = Reading(ts: int, raw: Raw, force: bool)

  function Run(rs: seq<Reading>, heartbeat: int): (x: Series)
  {
    if rs == [] then EMPTY
    else
      var r := rs[|rs| - 1];
      Taken(Run(rs[..|rs| - 1], heartbeat), r.ts, r.raw, r.force, heartbeat, false)
  }

  ghost predicate InOrder(rs: seq<Reading>)
  {
    forall i, j :: 0 <= i < j < |rs| ==> rs[i].ts <= rs[j].ts
  }

  ghost predicate StrictlyInOrder(rs: seq<Reading>)
  {
    forall i, j :: 0 <= i < j < |rs| ==> rs[i].ts < rs[j].ts
  }

  /** Everything numeric that was ingested, as it would be without thinning. */
  function Numeric(rs: seq<Reading>): (ss: seq<Sample>)
  {
    if rs == [] then []
    else
      var r := rs[|rs| - 1];
      Numeric(rs[..|rs| - 1]) + (if ValueOf(r.raw).Some? then [Sample(r.ts, ValueOf(r.raw).value)] else [])
  }

  /** What a chart shows at time `t`: the last value that is not later. */
  function Hold(ss: seq<Sample>, t: int): (v: Option<real>)
  {
    if ss == [] then None
    else if ss[|ss| - 1].ts <= t then Some(ss[|ss| - 1].value)
    else Hold(ss[..|ss| - 1], t)
  }

  /** The newest sample carries the latest value whenever that is a number, and is not newer than it. */
  predicate Carries(x: Series)
  {
    && Sorted(x.samples)
    && (x.samples != [] ==> x.latest.Some? && x.samples[|x.samples| - 1].ts <= x.latest.value.ts)
    && (x.latest.Some? && x.latest.value.value.Some? ==>
          x.samples != [] && x.samples[|x.samples| - 1].value == x.latest.value.value.value)
  }

  /** Inserting at the end of time: behind the last sample, or in its place. */
  lemma {:induction false} InsertLast(ss: seq<Sample>, s: Sample)
    requires Sorted(ss) && (ss != [] ==> ss[|ss| - 1].ts <= s.ts)
    ensures Insert(ss, s) == (if ss != [] && ss[|ss| - 1].ts == s.ts then ss[..|ss| - 1] else ss) + [s]
  {
    if |ss| > 0 && ss[0].ts < s.ts {
      InsertLast(ss[1..], s);
      assert ss == [ss[0]] + ss[1..];
    }
  }

  lemma TakenCarries(x: Series, ts: int, raw: Raw, force: bool, heartbeat: int)
    requires Carries(x) && (x.latest.Some? ==> x.latest.value.ts <= ts)
    ensures Carries(Taken(x, ts, raw, force, heartbeat, false))
  {
    var v := ValueOf(raw);
    if v.Some? && Stores(x, ts, v.value, force, heartbeat) {
      InsertLast(x.samples, Sample(ts, v.value));
    }
  }

  /** In every run with time stamps in order the newest sample carries the latest value. */
  lemma {:induction false} RunCarries(rs: seq<Reading>, heartbeat: int)
    requires InOrder(rs)
    ensures Carries(Run(rs, heartbeat))
    ensures rs != [] ==> Run(rs, heartbeat).latest.Some? && Run(rs, heartbeat).latest.value.ts == rs[|rs| - 1].ts
  {
    if rs != [] {
      RunCarries(rs[..|rs| - 1], heartbeat);
      var r := rs[|rs| - 1];
      TakenCarries(Run(rs[..|rs| - 1], heartbeat), r.ts, r.raw, r.force, heartbeat);
    }
  }

  lemma {:induction false} HoldBefore(ss: seq<Sample>, more: seq<Sample>, t: int)
    requires forall s :: s in more ==> s.ts > t
    ensures Hold(ss + more, t) == Hold(ss, t)
    decreases |more|
  {
    if more == [] {
      Empty(ss);
    } else {
      var last := more[|more| - 1];
      assert last in more;
      assert (ss + more)[..|ss + more| - 1] == ss + more[..|more| - 1];
      HoldBefore(ss, more[..|more| - 1], t);
    }
  }

  /** A sample at the end of time decides what is held from then on, and nothing before. */
  lemma InsertHolds(ss: seq<Sample>, s: Sample, t: int)
    requires Sorted(ss) && (ss != [] ==> ss[|ss| - 1].ts <= s.ts)
    ensures Hold(Insert(ss, s), t) == if s.ts <= t then Some(s.value) else Hold(ss, t)
  {
    InsertLast(ss, s);
    var keep := if ss != [] && ss[|ss| - 1].ts == s.ts then ss[..|ss| - 1] else ss;
    Snoc(keep, s);
    if s.ts > t {
      HoldBefore(keep, [s], t);
    }
  }

  /** Taking a reading at `ts` or later changes nothing of what the samples held before. */
  lemma TakenHolds(x: Series, ts: int, raw: Raw, force: bool, heartbeat: int, t: int)
    requires Carries(x) && (x.latest.Some? ==> x.latest.value.ts <= ts)
    ensures var y := Taken(x, ts, raw, force, heartbeat, false);
            Hold(y.samples, t) == if ValueOf(raw).Some? && ts <= t then ValueOf(raw) else Hold(x.samples, t)
  {
    var v := ValueOf(raw);
    if v.Some? && Stores(x, ts, v.value, force, heartbeat) {
      InsertHolds(x.samples, Sample(ts, v.value), t);
    }
  }

  /**
   Lossless thinning: at every moment, holding the last stored sample shows the same as holding the last
   of everything that was ever ingested.
   */
  lemma {:induction false} Lossless(rs: seq<Reading>, heartbeat: int, t: int)
    requires InOrder(rs)
    ensures Hold(Run(rs, heartbeat).samples, t) == Hold(Numeric(rs), t)
  {
    if rs != [] {
      var r, init := rs[|rs| - 1], rs[..|rs| - 1];
      Lossless(init, heartbeat, t);
      RunCarries(init, heartbeat);
      TakenHolds(Run(init, heartbeat), r.ts, r.raw, r.force, heartbeat, t);
      if ValueOf(r.raw).Some? {
        Snoc(Numeric(init), Sample(r.ts, ValueOf(r.raw).value));
      } else {
        Empty(Numeric(init));
      }
    }
  }

  // ------------------------------------------------------------- heartbeats

  /** Why two equal samples may follow each other closely: the later was forced, or there was a gap of numbers. */
  ghost predicate Excused(rs: seq<Reading>, from: int, to: int)
  {
    exists r :: r in rs && ((r.ts == to && r.force) || (from < r.ts < to && ValueOf(r.raw).None?))
  }

  ghost predicate Spaced(ss: seq<Sample>, rs: seq<Reading>, heartbeat: int)
  {
    forall i :: 0 <= i < |ss| - 1 && ss[i].value == ss[i + 1].value ==>
      ss[i + 1].ts - ss[i].ts >= heartbeat || Excused(rs, ss[i].ts, ss[i + 1].ts)
  }

  ghost predicate SampleOfReading(ss: seq<Sample>, rs: seq<Reading>)
  {
    forall s :: s in ss ==> exists r :: r in rs && r.ts == s.ts && ValueOf(r.raw) == Some(s.value)
  }

  /** Two equal samples in a row are a heartbeat apart, unless the later was forced or numbers were missing. */
  lemma {:induction false} HeartbeatsOnly(rs: seq<Reading>, heartbeat: int)
    requires StrictlyInOrder(rs)
    ensures Spaced(Run(rs, heartbeat).samples, rs, heartbeat)
    ensures SampleOfReading(Run(rs, heartbeat).samples, rs)
    ensures Run(rs, heartbeat).latest.Some? <==> rs != []
    ensures rs != [] ==> Run(rs, heartbeat).latest.value.value == ValueOf(rs[|rs| - 1].raw)
  {
    if rs != [] {
      var r, init := rs[|rs| - 1], rs[..|rs| - 1];
      HeartbeatsOnly(init, heartbeat);
      RunCarries(init, heartbeat);
      assert rs == init + [r];
      OneMoreSpaced(Run(init, heartbeat), init, r, heartbeat);
    }
  }

  /** The samples taken from readings before `r` are older than `r`. */
  lemma SamplesOlder(ss: seq<Sample>, init: seq<Reading>, r: Reading)
    requires StrictlyInOrder(init + [r]) && SampleOfReading(ss, init)
    ensures forall s :: s in ss ==> s.ts < r.ts
  {
    forall s | s in ss ensures s.ts < r.ts {
      var q :| q in init && q.ts == s.ts && ValueOf(q.raw) == Some(s.value);
      var k :| 0 <= k < |init| && init[k] == q;
      assert (init + [r])[k].ts < (init + [r])[|init|].ts;
    }
  }

  lemma MoreReadings(ss: seq<Sample>, init: seq<Reading>, r: Reading, heartbeat: int)
    requires Spaced(ss, init, heartbeat) && SampleOfReading(ss, init)
    ensures Spaced(ss, init + [r], heartbeat) && SampleOfReading(ss, init + [r])
  {
    assert forall q :: q in init ==> q in init + [r];
  }

  /** If a sample repeats the one before it too soon, the reading behind it was forced or followed a gap. */
  lemma RepeatExcused(x: Series, init: seq<Reading>, r: Reading, heartbeat: int)
    requires StrictlyInOrder(init + [r]) && Carries(x) && SampleOfReading(x.samples, init)
    requires init != [] && x.samples != [] && x.latest.Some?
    requires x.latest.value.ts == init[|init| - 1].ts && x.latest.value.value == ValueOf(init[|init| - 1].raw)
    requires ValueOf(r.raw) == Some(x.samples[|x.samples| - 1].value)
    requires Stores(x, r.ts, ValueOf(r.raw).value, r.force, heartbeat)
    ensures var last := x.samples[|x.samples| - 1];
            r.ts - last.ts >= heartbeat || Excused(init + [r], last.ts, r.ts)
  {
    var last, q := x.samples[|x.samples| - 1], init[|init| - 1];
    var rs := init + [r];
    if r.force {
      assert r in rs;
    } else if x.latest.value.value.None? {
      assert q in rs && rs[|init| - 1].ts < rs[|init|].ts;
      var p :| p in init && p.ts == last.ts && ValueOf(p.raw) == Some(last.value);
      var k :| 0 <= k < |init| && init[k] == p;
      assert rs[k].ts < rs[|init| - 1].ts;
    }
  }

  lemma OneMoreSpaced(x: Series, init: seq<Reading>, r: Reading, heartbeat: int)
    requires StrictlyInOrder(init + [r]) && Carries(x)
    requires Spaced(x.samples, init, heartbeat) && SampleOfReading(x.samples, init)
    requires x.latest.Some? <==> init != []
    requires init != [] ==> x.latest.value.ts == init[|init| - 1].ts && x.latest.value.value == ValueOf(init[|init| - 1].raw)
    ensures Spaced(Taken(x, r.ts, r.raw, r.force, heartbeat, false).samples, init + [r], heartbeat)
    ensures SampleOfReading(Taken(x, r.ts, r.raw, r.force, heartbeat, false).samples, init + [r])
  {
    var v := ValueOf(r.raw);
    MoreReadings(x.samples, init, r, heartbeat);
    SamplesOlder(x.samples, init, r);
    if v.Some? && Stores(x, r.ts, v.value, r.force, heartbeat) {
      var s := Sample(r.ts, v.value);
      if x.samples != [] {
        assert x.samples[|x.samples| - 1] in x.samples;
        if x.samples[|x.samples| - 1].value == v.value {
          RepeatExcused(x, init, r, heartbeat);
        }
      }
      InsertLast(x.samples, s);
      assert r in init + [r];
      Extended(x.samples, s, init + [r], heartbeat);
    }
  }

  lemma Extended(ss: seq<Sample>, s: Sample, rs: seq<Reading>, heartbeat: int)
    requires Spaced(ss, rs, heartbeat) && SampleOfReading(ss, rs)
    requires exists r :: r in rs && r.ts == s.ts && ValueOf(r.raw) == Some(s.value)
    requires ss != [] && ss[|ss| - 1].value == s.value ==>
      s.ts - ss[|ss| - 1].ts >= heartbeat || Excused(rs, ss[|ss| - 1].ts, s.ts)
    ensures Spaced(ss + [s], rs, heartbeat) && SampleOfReading(ss + [s], rs)
  {
  }

  // ------------------------------------------------------ stamps out of order

  /**
   When a single reading keeps the newest sample in step, stamps in any order: exactly when it is not
   older than the newest sample, or says the same.
   */
  lemma CarriesIff(x: Series, ts: int, raw: Raw, force: bool, heartbeat: int)
    requires Carries(x) && ValueOf(raw).Some? && x.samples != []
    ensures var y := Taken(x, ts, raw, force, heartbeat, false);
            var newest := x.samples[|x.samples| - 1];
            y.samples[|y.samples| - 1].value == ValueOf(raw).value
            <==> ts >= newest.ts || ValueOf(raw).value == newest.value
  {
    var v := ValueOf(raw).value;
    var newest := x.samples[|x.samples| - 1];
    if Stores(x, ts, v, force, heartbeat) {
      if ts >= newest.ts {
        InsertLast(x.samples, Sample(ts, v));
      } else {
        InsertEarlier(x.samples, Sample(ts, v));
      }
    }
  }

  /** Inserting before the newest sample leaves that the newest. */
  lemma {:induction false} InsertEarlier(ss: seq<Sample>, s: Sample)
    requires Sorted(ss) && ss != [] && s.ts < ss[|ss| - 1].ts
    ensures Insert(ss, s)[|Insert(ss, s)| - 1] == ss[|ss| - 1]
  {
    if ss[0].ts < s.ts {
      InsertEarlier(ss[1..], s);
    }
  }

  // ------------------------------------------------------------ a snapshot

  type Tables = map<(int, string), Series>

  function Get(tables: Tables, key: (int, string)): (x: Series)
  {
    if key in tables then tables[key] else EMPTY
  }

  /** Where there is a voltage, the percentage is worked out from it; with an unusable one there is none. */
  function WithPercentage(metrics: map<string, Raw>): (m: map<string, Raw>)
  {
    if "bat" !in metrics then metrics
    else
      var pct := Battery.Percentage(ValueOf(metrics["bat"]));
      if pct.Some? then metrics["battery_percentage" := Number(pct.value as real)]
      else metrics - {"battery_percentage"}
  }

  class Store {
    var tables: Tables

    constructor ()
      ensures tables == map[]
    {
      tables := map[];
    }

    /** The metrics of one message: each takes its reading, every other series stays as it is. */
    method Ingest(rep: int, ts: int, metrics: map<string, Raw>, force: bool, heartbeat: int, tsdb: bool)
      modifies this
      ensures var m := WithPercentage(metrics);
              forall k: (int, string) :: Get(tables, k) == if k.0 == rep && k.1 in m
                then Taken(Get(old(tables), k), ts, m[k.1], force, heartbeat, tsdb)
                else Get(old(tables), k)
    {
      var m := WithPercentage(metrics);
      var todo := m.Keys;
      while todo != {}
        invariant todo <= m.Keys
        invariant forall k: (int, string) :: Get(tables, k) == if k.0 == rep && k.1 in m && k.1 !in todo
                    then Taken(Get(old(tables), k), ts, m[k.1], force, heartbeat, tsdb)
                    else Get(old(tables), k)
      {
        var name :| name in todo;
        var x, value := Get(tables, (rep, name)), ValueOf(m[name]);
        var samples := x.samples;
        if value.Some? && !tsdb {
          var store := true;
          if !force && x.latest.Some? && x.latest.value.value == value {
            store := samples == [] || ts - samples[|samples| - 1].ts >= heartbeat;
          }
          if store {
            samples := Insert(samples, Sample(ts, value.value));
          }
        }
        tables := tables[(rep, name) := Series(Some(Latest(ts, value, TextOf(m[name]))), samples)];
        todo := todo - {name};
      }
    }
  }
}
