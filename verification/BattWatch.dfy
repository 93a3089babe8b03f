/**
 The battery watch: a level per node that goes down at the bare threshold and up only with a margin, and
 an alarm at every change of level. However the voltage moves, it cannot raise more alarms than the
 total movement pays for.
 */
module BattWatch {
  import opened Seqs
  import opened Wrappers
  import Alerts

  const WARN_DEFAULT := 3.50
  const CRIT_DEFAULT := 3.30
  const HYST := 0.08
  const MIN_USABLE := 2.0
  /** Six hours, in seconds. */
  const STALE := 21600

  datatype Level = Good | Low | Critical

  /** A stored threshold: absent, something that is not a number, or a number of volts. */
  datatype Setting = Absent | Unreadable | Volts(v: real)

  // -------------------------------------------------------------- thresholds

  function Threshold(s: Setting, standard: real): (v: real)
  {
    if s.Volts? && 0.5 <= s.v <= 30.0 then s.v else standard
  }

  /** `grenzen`: the warning threshold and the critical one, never the wrong way round. */
  function Thresholds(warn: Setting, crit: Setting): (t: (real, real))
    ensures 0.5 <= t.1 <= t.0 <= 30.0
    ensures {t.0, t.1} == {Threshold(warn, WARN_DEFAULT), Threshold(crit, CRIT_DEFAULT)}
  {
    var w, c := Threshold(warn, WARN_DEFAULT), Threshold(crit, CRIT_DEFAULT);
    if c > w then (c, w) else (w, c)
  }

  // ------------------------------------------------------------------ levels

  /** `_niveau` */
  function LevelAt(volt: real, last: Level, warn: real, crit: real): (l: Level)
  {
    if volt <= crit then Critical
    else if volt <= warn then
      if last == Critical && volt < crit + HYST then Critical else Low
    else if last != Good && volt < warn + HYST then last
    else Good
  }

  /** Seeing the same reading again changes nothing. */
  lemma RepeatIsQuiet(volt: real, last: Level, warn: real, crit: real)
    requires crit <= warn
    ensures var l := LevelAt(volt, last, warn, crit); LevelAt(volt, l, warn, crit) == l
  {
  }

  /**
   Two changes in a row, at `v` and then at `w`, are a margin apart, unless they are the two steps down
   from good over low to critical.
   */
  lemma ChangesApart(v: real, w: real, a: Level, warn: real, crit: real)
    requires crit <= warn
    ensures var b := LevelAt(v, a, warn, crit);
            var c := LevelAt(w, b, warn, crit);
            a != b && b != c ==> v - w >= HYST || w - v >= HYST || (a == Good && b == Low && c == Critical && w < v)
  {
  }

  /** How bad a level is. */
  function Rank(l: Level): (r: nat)
  {
    match l
    case Good => 0
    case Low => 1
    case Critical => 2
  }

  /**
   A higher voltage never means a worse level, except after a critical one: from just below the warning
   threshold the node is merely low, from just above it, it stays critical.
   */
  lemma MonotoneUnlessCritical(v: real, w: real, last: Level, warn: real, crit: real)
    requires crit <= warn && v <= w
    ensures Rank(LevelAt(w, last, warn, crit)) <= Rank(LevelAt(v, last, warn, crit))
       <==> !(last == Critical && crit + HYST <= v <= warn < w < warn + HYST)
  {
  }

  // -------------------------------------------------------------- whole runs

  function LevelAfter(last: Level, volts: seq<real>, warn: real, crit: real): (l: Level)
    decreases |volts|
  {
    if volts == [] then last else LevelAfter(LevelAt(volts[0], last, warn, crit), volts[1..], warn, crit)
  }

  /** How often the level changes over a run of readings. */
  function Changes(last: Level, volts: seq<real>, warn: real, crit: real): (n: nat)
    decreases |volts|
  {
    if volts == [] then 0
    else
      var l := LevelAt(volts[0], last, warn, crit);
      (if l != last then 1 else 0) + Changes(l, volts[1..], warn, crit)
  }

  function Distance(a: real, b: real): (d: real)
  {
    if a <= b then b - a else a - b
  }

  /** How far the voltage travels in all. */
  function Variation(volts: seq<real>): (v: real)
    decreases |volts|
  {
    if |volts| < 2 then 0.0 else Distance(volts[0], volts[1]) + Variation(volts[1..])
  }

  function Positive(x: real): (y: real)
  {
    if x > 0.0 then x else 0.0
  }

  function Max(x: real, y: real): (z: real)
  {
    if x >= y then x else y
  }

  /** What the next step down is worth when the voltage has just reached the warning threshold. */
  function StepDown(warn: real, crit: real): (c: real)
  {
    Positive(HYST - 1.5 * (warn - crit))
  }

  /**
   The changes still to come that the movement still to come does not pay for, in volts, when every
   volt pays for one and a half.
   */
  function Credit(l: Level, v: real, warn: real, crit: real): (c: real)
  {
    var up := HYST - 1.5 * (warn + HYST - v) + Positive(StepDown(warn, crit) - 0.5 * HYST);
    match l
    case Good => Positive(HYST + StepDown(warn, crit) - 1.5 * (v - warn))
    case Low => Max(Positive(HYST - 1.5 * (v - crit)), up)
    case Critical =>
      var back := if crit + HYST > warn then 0.0
                  else HYST - 1.5 * Max(crit + HYST - v, v - warn);
      Max(Positive(if back > HYST then HYST else back), up)
  }

  /** A level that a reading can have left the node at. */
  predicate Settled(l: Level, v: real, warn: real, crit: real)
  {
    LevelAt(v, l, warn, crit) == l
  }

  lemma OneReading(l: Level, v: real, w: real, warn: real, crit: real)
    requires crit <= warn && Settled(l, v, warn, crit)
    ensures var m := LevelAt(w, l, warn, crit);
            (if m != l then HYST else 0.0) + Credit(m, w, warn, crit) <= 1.5 * Distance(v, w) + Credit(l, v, warn, crit)
  {
  }

  lemma {:induction false} ChangesFrom(l: Level, volts: seq<real>, warn: real, crit: real)
    requires crit <= warn && volts != [] && Settled(l, volts[0], warn, crit)
    ensures Changes(l, volts[1..], warn, crit) as real * HYST <= 1.5 * Variation(volts) + Credit(l, volts[0], warn, crit)
    decreases |volts|
  {
    if |volts| > 1 {
      var m := LevelAt(volts[1], l, warn, crit);
      OneReading(l, volts[0], volts[1], warn, crit);
      RepeatIsQuiet(volts[1], l, warn, crit);
      ChangesFrom(m, volts[1..], warn, crit);
      assert volts[1..][1..] == volts[2..];
      assert Changes(l, volts[1..], warn, crit) == (if m != l then 1 else 0) + Changes(m, volts[2..], warn, crit);
    }
  }

  /** Whatever the level at the start: n changes of level take n * margin <= 3/2 * variation + 2 * margin. */
  lemma ChangesBounded(l: Level, volts: seq<real>, warn: real, crit: real)
    requires crit <= warn
    ensures Changes(l, volts, warn, crit) as real * HYST <= 1.5 * Variation(volts) + 2.0 * HYST
  {
    if volts != [] {
      var m := LevelAt(volts[0], l, warn, crit);
      RepeatIsQuiet(volts[0], l, warn, crit);
      ChangesFrom(m, volts, warn, crit);
    }
  }

  // -------------------------------------------------------------- one round

  datatype Reading = Reading(ts: Option<int>, volt: real)

  /** A row of `repeaters` with its latest battery reading, if it has one. */
  datatype Node = Node(id: nat, latest: Option<Reading>)

  datatype Severity = High | Mild

  /** An alarm, with what its text says: the voltage, and the threshold it has fallen to, if any. */
  datatype Alert = Alert(id: nat, level: Level, severity: Severity, volt: real, limit: Option<real>)

  /** A reading fresh enough and high enough to say something about the battery now. */
  predicate Usable(n: Node, now: int)
  {
    n.latest.Some? && n.latest.value.volt >= MIN_USABLE
    && n.latest.value.ts.Some? && now - n.latest.value.ts.value <= STALE
  }

  /** The remembered level; a node never seen before is fine. */
  function Remembered(state: map<nat, Level>, id: nat): (l: Level)
  {
    if id in state then state[id] else Good
  }

  function AlertFor(id: nat, l: Level, volt: real, warn: real, crit: real): (a: Alert)
  {
    match l
    case Good => Alert(id, l, Mild, volt, None)
    case Low => Alert(id, l, High, volt, Some(warn))
    case Critical => Alert(id, l, High, volt, Some(crit))
  }

  datatype Outcome = Outcome(state: map<nat, Level>, alerts: seq<Alert>)

  /** What one node adds to a round. */
  function Visit(o: Outcome, n: Node, now: int, warn: real, crit: real): (p: Outcome)
  {
    if !Usable(n, now) then o
    else
      var volt := n.latest.value.volt;
      var last := Remembered(o.state, n.id);
      var l := LevelAt(volt, last, warn, crit);
      if l == last then o else Outcome(o.state[n.id := l], o.alerts + [AlertFor(n.id, l, volt, warn, crit)])
  }

  function Round(o: Outcome, nodes: seq<Node>, now: int, warn: real, crit: real): (p: Outcome)
    decreases |nodes|
  {
    if nodes == [] then o else Round(Visit(o, nodes[0], now, warn, crit), nodes[1..], now, warn, crit)
  }

  /** `repeaters.id` is the primary key. */
  predicate DistinctIds(nodes: seq<Node>)
  {
    forall i, j :: 0 <= i < j < |nodes| ==> nodes[i].id != nodes[j].id
  }

  function AlertsOf(id: nat, alerts: seq<Alert>): (n: nat)
    decreases |alerts|
  {
    if alerts == [] then 0
    else AlertsOf(id, alerts[..|alerts| - 1]) + (if alerts[|alerts| - 1].id == id then 1 else 0)
  }

  lemma AlertsSnoc(id: nat, alerts: seq<Alert>, a: Alert)
    ensures AlertsOf(id, alerts + [a]) == AlertsOf(id, alerts) + (if a.id == id then 1 else 0)
  {
    Snoc(alerts, a);
  }

  lemma {:induction false} OthersLeaveAlone(o: Outcome, nodes: seq<Node>, now: int, warn: real, crit: real, id: nat)
    requires forall i :: 0 <= i < |nodes| ==> nodes[i].id != id
    ensures var p := Round(o, nodes, now, warn, crit);
            Remembered(p.state, id) == Remembered(o.state, id) && AlertsOf(id, p.alerts) == AlertsOf(id, o.alerts)
    decreases |nodes|
  {
    if nodes != [] {
      var p := Visit(o, nodes[0], now, warn, crit);
      if p != o {
        AlertsSnoc(id, o.alerts, p.alerts[|o.alerts|]);
      }
      OthersLeaveAlone(p, nodes[1..], now, warn, crit, id);
    }
  }

  /** The usable reading of one node in a round, as a run of at most one. */
  function ReadingOf(id: nat, nodes: seq<Node>, now: int): (volts: seq<real>)
  {
    if nodes == [] then []
    else if nodes[0].id == id && Usable(nodes[0], now) then [nodes[0].latest.value.volt]
    else ReadingOf(id, nodes[1..], now)
  }

  lemma {:induction false} NoReading(id: nat, nodes: seq<Node>, now: int)
    requires forall i :: 0 <= i < |nodes| ==> nodes[i].id != id
    ensures ReadingOf(id, nodes, now) == []
  {
    if nodes != [] {
      NoReading(id, nodes[1..], now);
    }
  }

  /** In one round a node's level and alarms follow from its own usable reading alone. */
  lemma {:induction false} RoundOfOne(o: Outcome, nodes: seq<Node>, now: int, warn: real, crit: real, id: nat)
    requires DistinctIds(nodes)
    ensures var p, volts := Round(o, nodes, now, warn, crit), ReadingOf(id, nodes, now);
            var last := Remembered(o.state, id);
            Remembered(p.state, id) == LevelAfter(last, volts, warn, crit)
            && AlertsOf(id, p.alerts) == AlertsOf(id, o.alerts) + Changes(last, volts, warn, crit)
    decreases |nodes|
  {
    if nodes != [] {
      var p := Visit(o, nodes[0], now, warn, crit);
      if p != o {
        AlertsSnoc(id, o.alerts, p.alerts[|o.alerts|]);
      }
      if nodes[0].id == id {
        OthersLeaveAlone(p, nodes[1..], now, warn, crit, id);
        NoReading(id, nodes[1..], now);
      } else {
        RoundOfOne(p, nodes[1..], now, warn, crit, id);
      }
    }
  }

  // ------------------------------------------------------------- many rounds

  /** The nodes as one round finds them, and when. */
  datatype Sighting = Sighting(nodes: seq<Node>, now: int)

  function Rounds(o: Outcome, rounds: seq<Sighting>, warn: real, crit: real): (p: Outcome)
    decreases |rounds|
  {
    if rounds == [] then o else Rounds(Round(o, rounds[0].nodes, rounds[0].now, warn, crit), rounds[1..], warn, crit)
  }

  /** Every usable reading of one node over many rounds. */
  function ReadingsOf(id: nat, rounds: seq<Sighting>): (volts: seq<real>)
  {
    if rounds == [] then [] else ReadingOf(id, rounds[0].nodes, rounds[0].now) + ReadingsOf(id, rounds[1..])
  }

  lemma {:induction false} ChangesConcat(l: Level, a: seq<real>, b: seq<real>, warn: real, crit: real)
    ensures Changes(l, a + b, warn, crit) == Changes(l, a, warn, crit) + Changes(LevelAfter(l, a, warn, crit), b, warn, crit)
    decreases |a|
  {
    if a == [] {
      Empty(b);
    } else {
      ConsConcat(a, b);
      ChangesConcat(LevelAt(a[0], l, warn, crit), a[1..], b, warn, crit);
    }
  }

  lemma {:induction false} AlertsAreChanges(o: Outcome, rounds: seq<Sighting>, warn: real, crit: real, id: nat)
    requires forall r :: r in rounds ==> DistinctIds(r.nodes)
    ensures AlertsOf(id, Rounds(o, rounds, warn, crit).alerts)
         == AlertsOf(id, o.alerts) + Changes(Remembered(o.state, id), ReadingsOf(id, rounds), warn, crit)
    decreases |rounds|
  {
    if rounds != [] {
      var r := rounds[0];
      RoundOfOne(o, r.nodes, r.now, warn, crit, id);
      AlertsAreChanges(Round(o, r.nodes, r.now, warn, crit), rounds[1..], warn, crit, id);
      ChangesConcat(Remembered(o.state, id), ReadingOf(id, r.nodes, r.now), ReadingsOf(id, rounds[1..]), warn, crit);
    }
  }

  /** However many rounds and whatever the other nodes do, a node's alarms are bounded by how far its voltage travelled. */
  lemma AlertsBounded(state: map<nat, Level>, rounds: seq<Sighting>, warn: real, crit: real, id: nat)
    requires crit <= warn
    requires forall r :: r in rounds ==> DistinctIds(r.nodes)
    ensures AlertsOf(id, Rounds(Outcome(state, []), rounds, warn, crit).alerts) as real * HYST
         <= 1.5 * Variation(ReadingsOf(id, rounds)) + 2.0 * HYST
  {
    AlertsAreChanges(Outcome(state, []), rounds, warn, crit, id);
    ChangesBounded(Remembered(state, id), ReadingsOf(id, rounds), warn, crit);
  }

  /** How many nodes have a usable reading. */
  function UsableIn(nodes: seq<Node>, now: int): (n: nat)
  {
    if nodes == [] then 0 else (if Usable(nodes[0], now) then 1 else 0) + UsableIn(nodes[1..], now)
  }

  // ---------------------------------------------------------- the alert table

  /** How an alarm is put into words. */
  type Words = Alert -> string

  /** The call of `add_alert`: no channel, and deliberately no kind. */
  function CallFor(a: Alert, now: int, say: Words): (c: Alerts.Call)
  {
    Alerts.Call(Some(a.id), say(a), "accu", now, None, Some(if a.severity.High? then "hoog" else "laag"), None)
  }

  /** The alert table after the alarms of one round. */
  function Told(rows: seq<Alerts.Alert>, alerts: seq<Alert>, now: int, say: Words): (r: seq<Alerts.Alert>)
    decreases |alerts|
  {
    if alerts == [] then rows
    else Alerts.After(Told(rows, alerts[..|alerts| - 1], now, say), CallFor(alerts[|alerts| - 1], now, say))
  }

  /** A row of the table that says the same about the same node in the same way. */
  predicate Says(r: Alerts.Alert, a: Alert, say: Words)
  {
    r.source == "accu" && r.node == Some(a.id) && r.text == Alerts.Take(Alerts.Text.Strip(say(a)), Alerts.TEXT_MAX)
  }

  /**
   When an alarm is kept: its text is not blank, and the same text about the node is not in the table with a
   stamp from the day on which the window starts, or later. Other alarms cannot swallow it.
   */
  lemma AlarmKeptIff(rows: seq<Alerts.Alert>, a: Alert, now: int, say: Words)
    ensures Alerts.Stores(rows, CallFor(a, now, say))
       <==> && Alerts.Text.Strip(say(a)) != ""
            && forall i :: 0 <= i < |rows| && Says(rows[i], a, say) ==>
                 Alerts.Apart(rows[i].ts, now, Alerts.ALERT_DEDUP_S)
  {
  }

  /** What the loop keeps between rounds: the levels in the settings, and the counters of the last round. */
  class Watch {
    var state: map<nat, Level>
    var alerts: seq<Alert>
    var checked: nat
    var written: nat

    constructor ()
      ensures state == map[] && alerts == []
    {
      state, alerts, checked, written := map[], [], 0, 0;
    }

    /**
     `run_once`. The alert table may take an alarm for a repetition; the level is remembered either way.
     */
    method RunOnce(nodes: seq<Node>, now: int, warnSetting: Setting, critSetting: Setting,
                   table: Alerts.Table, say: Words)
        returns (count: nat)
      modifies this, table
      ensures var (warn, crit) := Thresholds(warnSetting, critSetting);
              Outcome(state, alerts) == Round(Outcome(old(state), old(alerts)), nodes, now, warn, crit)
      ensures old(alerts) <= alerts
      ensures table.rows == Told(old(table.rows), alerts[|old(alerts)|..], now, say)
      ensures count == written == |table.rows| - |old(table.rows)|
      ensures checked == UsableIn(nodes, now)
    {
      var (warn, crit) := Thresholds(warnSetting, critSetting);
      var seen := 0;
      count := 0;
      ghost var news := [];
      var i := 0;
      while i < |nodes|
        invariant i <= |nodes| && seen + UsableIn(nodes[i..], now) == UsableIn(nodes, now)
        invariant Round(Outcome(old(state), old(alerts)), nodes, now, warn, crit)
               == Round(Outcome(state, alerts), nodes[i..], now, warn, crit)
        invariant alerts == old(alerts) + news
        invariant table.rows == Told(old(table.rows), news, now, say)
        invariant count == |table.rows| - |old(table.rows)|
      {
        var n := nodes[i];
        assert nodes[i..][1..] == nodes[i + 1..];
        i := i + 1;
        if n.latest.None? || n.latest.value.volt < MIN_USABLE {
          continue;
        }
        var volt := n.latest.value.volt;
        if n.latest.value.ts.None? || now - n.latest.value.ts.value > STALE {
          continue;
        }
        seen := seen + 1;
        var last := Remembered(state, n.id);
        var level := LevelAt(volt, last, warn, crit);
        if level == last {
          continue;
        }
        var alert := AlertFor(n.id, level, volt, warn, crit);
        Assoc(old(alerts), news, [alert]);
        news := news + [alert];
        alerts := alerts + [alert];
        var id := table.Add(CallFor(alert, now, say));
        if id > 0 {
          count := count + 1;
        }
        state := state[n.id := level];
      }
      checked, written := seen, count;
      assert alerts[|old(alerts)|..] == news;
    }
  }
}
