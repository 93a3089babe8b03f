/**
 The alerts table and its two deduplications: the same text along the same way, and the same event
 along another way. The order of the calls is the order of insertion; the time stamps they carry may
 come in any order.
 */
module Alerts {
  import opened Wrappers
  import opened Seqs
  import Text

  const ALERT_DEDUP_S := 300
  const ALERT_CROSS_DEDUP_S := 900
  const TEXT_MAX := 500
  const SOURCE_MAX := 16
  const DAY_S := 86400

  const KINDS: set<string> := {"neer", "op", "stil"}
  const SEVERITIES: set<string> := {"laag", "hoog"}

  datatype Alert = Alert(node: Option<int>, channel: Option<int>, text: string, severity: Option<string>,
                         ts: int, source: string, kind: Option<string>)

  /** What a caller passes; `ts` is in seconds. */
  datatype Call = Call(node: Option<int>, text: string, source: string, ts: int, channel: Option<int>,
                       severity: Option<string>, kind: Option<string>)

  // -------------------------------------------------------------- time as text

  /** A stored stamp as it sorts: the date, the letter `T`, the time of day. */
  function IsoText(t: int): (k: (int, char, int))
  {
    (t / DAY_S, 'T', t % DAY_S)
  }

  /** A stamp as `datetime()` writes it: the date, a blank, the time of day. */
  function SqlText(t: int): (k: (int, char, int))
  {
    (t / DAY_S, ' ', t % DAY_S)
  }

  predicate TextGeq(a: (int, char, int), b: (int, char, int))
  {
    a.0 > b.0 || (a.0 == b.0 && (a.1 > b.1 || (a.1 == b.1 && a.2 >= b.2)))
  }

  /** `ts >= datetime(?, '-w seconds')`: the comparison the queries make. */
  predicate InWindow(stored: int, ts: int, w: int)
  {
    TextGeq(IsoText(stored), SqlText(ts - w))
  }

  /**
   The window is by calendar day: a stored alert falls into it exactly when its date is not before the
   date of the window's start. So it always covers the seconds the constant promises, and up to a day more.
   */
  lemma WindowByDay(stored: int, ts: int, w: int)
    ensures InWindow(stored, ts, w) <==> stored / DAY_S >= (ts - w) / DAY_S
    ensures ts - stored <= w ==> InWindow(stored, ts, w)
    ensures ts - stored >= w + DAY_S ==> !InWindow(stored, ts, w)
  {
  }

  // ------------------------------------------------------------------ a call

  function Take(s: string, n: nat): (t: string)
  {
    if |s| > n then s[..n] else s
  }

  /** A word out of a fixed set, in any case and with blanks around it; anything else is none. */
  function Word(raw: Option<string>, allowed: set<string>): (w: Option<string>)
  {
    if raw.None? then None
    else
      var s := Text.Lower(Text.Strip(raw.value));
      if s in allowed then Some(s) else None
  }

  /** The row a call would leave behind, but with its source still whole; none for an empty text. */
  function Clean(c: Call): (a: Option<Alert>)
  {
    var text := Take(Text.Strip(c.text), TEXT_MAX);
    if text == "" then None
    else Some(Alert(c.node, c.channel, text, Word(c.severity, SEVERITIES), c.ts, c.source, Word(c.kind, KINDS)))
  }

  function UpToBlank(s: string): (t: string)
  {
    if s == [] || s[0] == ' ' then [] else [s[0]] + UpToBlank(s[1..])
  }

  function DropColons(s: string): (t: string)
  {
    if s != [] && s[|s| - 1] == ':' then DropColons(s[..|s| - 1]) else s
  }

  /** `_alert_dienst`: the service an alert is about, the first word of its text. */
  function Service(text: string): (s: string)
  {
    Text.Lower(DropColons(UpToBlank(Text.Strip(text))))
  }

  /** The same text, along the same way, from the same node (or both from an unknown one). */
  predicate SameText(r: Alert, a: Alert)
  {
    r.text == a.text && r.source == a.source && r.node == a.node
  }

  /** The same service: by channel if both know it, otherwise by the first word. */
  predicate SameService(r: Alert, a: Alert)
  {
    if r.channel.Some? && a.channel.Some? then r.channel == a.channel
    else Service(a.text) != "" && Service(r.text) == Service(a.text)
  }

  /** The same event: known node, known kind, same service. */
  predicate SameEvent(r: Alert, a: Alert)
  {
    r.node.Some? && r.node == a.node && r.kind.Some? && r.kind == a.kind && SameService(r, a)
  }

  predicate Repeats(rows: seq<Alert>, a: Alert)
  {
    exists i :: 0 <= i < |rows| && SameText(rows[i], a) && InWindow(rows[i].ts, a.ts, ALERT_DEDUP_S)
  }

  predicate Crosses(rows: seq<Alert>, a: Alert)
  {
    exists i :: 0 <= i < |rows| && SameEvent(rows[i], a) && InWindow(rows[i].ts, a.ts, ALERT_CROSS_DEDUP_S)
  }

  /** Whether a call leaves a row behind. */
  predicate Stores(rows: seq<Alert>, c: Call)
  {
    Clean(c).Some? && !Repeats(rows, Clean(c).value) && !Crosses(rows, Clean(c).value)
  }

  /** The row as it is stored, with its source cut to the column's width. */
  function Stored(a: Alert): (r: Alert)
  {
    a.(source := Take(a.source, SOURCE_MAX))
  }

  function After(rows: seq<Alert>, c: Call): (out: seq<Alert>)
  {
    if Stores(rows, c) then rows + [Stored(Clean(c).value)] else rows
  }

  /** A whole run of calls on an empty table. */
  function Run(calls: seq<Call>): (rows: seq<Alert>)
  {
    if calls == [] then [] else After(Run(calls[..|calls| - 1]), calls[|calls| - 1])
  }

  class Table {
    var rows: seq<Alert>

    constructor ()
      ensures rows == []
    {
      rows := [];
    }

    /** `add_alert`: the number of the new row, or 0 for a repetition or an empty text. */
    method Add(c: Call) returns (id: nat)
      modifies this
      ensures rows == After(old(rows), c)
      ensures id == if Stores(old(rows), c) then |rows| else 0
    {
      id := 0;
      var clean := Clean(c);
      if clean.None? {
        return;
      }
      var a := clean.value;
      if exists i :: 0 <= i < |rows| && SameText(rows[i], a) && InWindow(rows[i].ts, a.ts, ALERT_DEDUP_S) {
        return;
      }
      if a.kind.Some? && a.node.Some? {
        var service := Service(a.text);
        var i := 0;
        while i < |rows|
          invariant 0 <= i <= |rows|
          invariant rows == old(rows)
          invariant forall j :: 0 <= j < i ==> !(SameEvent(rows[j], a) && InWindow(rows[j].ts, a.ts, ALERT_CROSS_DEDUP_S))
        {
          var r := rows[i];
          i := i + 1;
          if r.node != a.node || r.kind != a.kind || !InWindow(r.ts, a.ts, ALERT_CROSS_DEDUP_S) {
            continue;
          }
          if a.channel.Some? && r.channel.Some? {
            if r.channel.value == a.channel.value {
              return;
            }
            continue;
          }
          if service != "" && Service(r.text) == service {
            return;
          }
        }
      }
      rows := rows + [Stored(a)];
      id := |rows|;
    }
  }

  // -------------------------------------------------------------- separation

  /** The earlier of two stamps lies on a day before the one on which the later one's window starts. */
  predicate Apart(earlier: int, later: int, w: int)
  {
    earlier / DAY_S < (later - w) / DAY_S
  }

  /** That is more than the window in seconds, and never the same day. */
  lemma ApartMeans(earlier: int, later: int, w: nat)
    ensures Apart(earlier, later, w) <==> !InWindow(earlier, later, w)
    ensures Apart(earlier, later, w) ==> later - earlier > w && earlier / DAY_S < later / DAY_S
  {
  }

  /** Rows with equal text, source and node: later rows are later by whole days and the window. */
  ghost predicate TextsApart(rows: seq<Alert>)
  {
    forall i, j :: 0 <= i < j < |rows| && SameText(rows[i], rows[j]) ==>
      Apart(rows[i].ts, rows[j].ts, ALERT_DEDUP_S)
  }

  /** Rows about the same event: later rows are later by whole days and the wider window. */
  ghost predicate EventsApart(rows: seq<Alert>)
  {
    forall i, j :: 0 <= i < j < |rows| && SameEvent(rows[i], rows[j]) ==>
      Apart(rows[i].ts, rows[j].ts, ALERT_CROSS_DEDUP_S)
  }

  /** Over any run whose sources fit the column, with time stamps in any order. */
  lemma {:induction false} RunTextsApart(calls: seq<Call>)
    requires forall c :: c in calls ==> |c.source| <= SOURCE_MAX
    ensures TextsApart(Run(calls))
  {
    if calls != [] {
      var c := calls[|calls| - 1];
      assert c in calls && calls == calls[..|calls| - 1] + [c];
      RunTextsApart(calls[..|calls| - 1]);
    }
  }

  /** Over any run at all, with time stamps in any order. */
  lemma {:induction false} RunEventsApart(calls: seq<Call>)
    ensures EventsApart(Run(calls))
  {
    if calls != [] {
      RunEventsApart(calls[..|calls| - 1]);
    }
  }

  /** What was stored stays as it was: a repetition changes nothing, not even the first time stamp. */
  lemma {:induction false} RunsGrow(calls: seq<Call>, n: nat)
    requires n <= |calls|
    ensures Run(calls[..n]) <= Run(calls)
    decreases |calls| - n
  {
    if n < |calls| {
      RunsGrow(calls, n + 1);
      assert calls[..n + 1][..n] == calls[..n];
    } else {
      assert calls[..n] == calls;
    }
  }

  ghost predicate SourcesCut(rows: seq<Alert>)
  {
    forall i :: 0 <= i < |rows| ==> |rows[i].source| <= SOURCE_MAX
  }

  lemma {:induction false} RunSourcesCut(calls: seq<Call>)
    ensures SourcesCut(Run(calls))
  {
    if calls != [] {
      RunSourcesCut(calls[..|calls| - 1]);
    }
  }

  /**
   When the first deduplication works: the query compares with the whole source, the column keeps only
   sixteen characters. A row just stored suppresses its verbatim repetition exactly when its source fits.
   */
  lemma VerbatimRepeatCaught(calls: seq<Call>, c: Call, again: Call)
    requires Stores(Run(calls), c)
    requires again == c.(ts := again.ts) && InWindow(c.ts, again.ts, ALERT_DEDUP_S)
    ensures Repeats(Run(calls + [c]), Clean(again).value) <==> |c.source| <= SOURCE_MAX
  {
    Snoc(calls, c);
    var rows := Run(calls);
    var out := Run(calls + [c]);
    assert out == rows + [Stored(Clean(c).value)];
    var a := Clean(again).value;
    RunSourcesCut(calls + [c]);
    if |c.source| <= SOURCE_MAX {
      assert SameText(out[|rows|], a) && InWindow(out[|rows|].ts, a.ts, ALERT_DEDUP_S);
    } else {
      assert forall i :: 0 <= i < |out| ==> |out[i].source| <= SOURCE_MAX;
    }
  }

  /**
   The separation of equal texts needs the bound on the source: for any alert of no known kind, storing
   it twice keeps equal texts apart exactly when its source fits.
   */
  lemma TwiceApartIffSourceFits(c: Call)
    requires Clean(c).Some? && Clean(c).value.kind.None?
    ensures TextsApart(Run([c] + [c])) <==> |c.source| <= SOURCE_MAX
  {
    var a := Clean(c).value;
    Snoc([c], c);
    Empty([c]);
    Snoc([], c);
    assert Run([]) == [];
    assert Stores([], c) && Run([c]) == [Stored(a)];
    ApartMeans(c.ts, c.ts, ALERT_DEDUP_S);
    VerbatimRepeatCaught([], c, c);
    if |c.source| > SOURCE_MAX {
      var out := Run([c] + [c]);
      assert out == [Stored(a)] + [Stored(a)];
      assert SameText(out[0], out[1]) && out[0].ts == out[1].ts;
    } else {
      assert Run([c] + [c]) == [Stored(a)];
    }
  }

  /**
   The window suppresses more than its constant says: a verbatim repetition 86399 seconds later, on the
   same day, is still taken for the first one.
   */
  lemma SuppressedAllDay(c: Call)
    requires Clean(c).Some? && |c.source| <= SOURCE_MAX && c.ts % DAY_S == 0
    ensures Run([c] + [c.(ts := c.ts + DAY_S - 1)]) == Run([c])
  {
    var again := c.(ts := c.ts + DAY_S - 1);
    Snoc([c], again);
    Snoc([], c);
    Empty([c]);
    assert Run([]) == [] && Stores([], c);
    WindowByDay(c.ts, again.ts, ALERT_DEDUP_S);
    VerbatimRepeatCaught([], c, again);
  }

  /** How many of three alerts know their channel. */
  function Known(a: bool, b: bool, c: bool): (n: nat)
  {
    (if a then 1 else 0) + (if b then 1 else 0) + (if c then 1 else 0)
  }

  /** "Same event" carries over from two pairs to the third for these alerts. */
  predicate Carries(a: Alert, b: Alert, c: Alert)
  {
    SameEvent(a, b) && SameEvent(b, c) ==> SameEvent(a, c)
  }

  predicate KnowChannels(x: Alert, y: Alert, z: Alert, a: bool, b: bool, c: bool)
  {
    x.channel.Some? == a && y.channel.Some? == b && z.channel.Some? == c
  }

  lemma OneWord(s: string)
    requires s == "x" || s == "y"
    ensures Service(s) == s
  {
    assert s[1..] == "" && s[..0] == "";
    assert Text.TrimLeft(s) == s && Text.TrimRight(s) == s;
    assert UpToBlank(s) == s && DropColons(s) == s;
  }

  /**
   "Same event" is transitive exactly when not just two of the three alerts know their channel: it holds for
   all alerts of the pattern then, and otherwise some alerts of the pattern spoil it.
   */
  lemma SameEventTransitiveIff(a: bool, b: bool, c: bool)
    ensures (forall x, y, z :: KnowChannels(x, y, z, a, b, c) ==> Carries(x, y, z)) <==> Known(a, b, c) != 2
  {
    if Known(a, b, c) == 2 {
      OneWord("x");
      OneWord("y");
      var on := Alert(Some(1), Some(1), "x", None, 0, "ip", Some("neer"));
      var off := on.(channel := None);
      // Alike by a channel both know, or else by the word: each only between some of them.
      var x := if a then on else off;
      var y := if !b then off else if a then on.(text := "y") else on;
      var z := if !c then off.(text := "y") else if b then on.(text := "y") else on.(channel := Some(2));
      assert KnowChannels(x, y, z, a, b, c) && !Carries(x, y, z);
    }
  }
}
