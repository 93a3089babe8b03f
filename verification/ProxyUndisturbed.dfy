/**
 What ties the methods of `ProxyServer` to the state machine of `ProxyRun`: a read or an admission with no
 other task in between is a run of the machine, made of that task's own actions, and what the class has
 written on its connections is what the machine says was sent on them.
 */
module ProxyUndisturbed {
  import opened Bytes
  import opened Wrappers
  import opened Deframer
  import opened Seqs
  import opened ProxyTraffic
  import opened ProxyFanout
  import opened ProxyRun
  import Server = ProxyServer

  /** The numbers under which the class knows the sessions and the node connections of the machine. */
  datatype Wiring = Wiring(clients: seq<nat>, nodes: seq<nat>)

  predicate Wired(s: Proxy, w: Wiring)
  {
    && |w.clients| == |s.fanout.inboxes| && |w.nodes| == |s.traffic.wires|
    && Distinct(w.clients) && Distinct(w.nodes)
    && forall i, j :: 0 <= i < |w.clients| && 0 <= j < |w.nodes| ==> w.clients[i] != w.nodes[j]
  }

  /** Everything written on the connections is what the machine has on record for them. */
  predicate Shows(log: seq<Server.Write>, s: Proxy, w: Wiring)
  {
    && Wired(s, w)
    && (forall c :: 0 <= c < |w.clients| ==>
          Server.SentTo(log, w.clients[c]) == DeliveredUnits(s.fanout.inboxes[c].got))
    && (forall k :: 0 <= k < |w.nodes| ==> Server.SentTo(log, w.nodes[k]) == Units(s.traffic.wires[k]))
  }

  // ------------------------------------------------------------------- runs

  lemma RunSnoc(cfg: Config, s: Proxy, run: seq<Action>, a: Action)
    ensures RunFrom(cfg, s, run + [a]) == Next(cfg, RunFrom(cfg, s, run), a)
  {
    Snoc(run, a);
  }

  lemma {:induction false} RunBoth(cfg: Config, s: Proxy, a: seq<Action>, b: seq<Action>)
    ensures RunFrom(cfg, s, a + b) == RunFrom(cfg, RunFrom(cfg, s, a), b)
    decreases |b|
  {
    if b == [] {
      Empty(a);
    } else {
      var front, last := b[..|b| - 1], b[|b| - 1];
      RunBoth(cfg, s, a, front);
      RunSnoc(cfg, s, a + front, last);
      RunSnoc(cfg, RunFrom(cfg, s, a), front, last);
      BothParts(a, front, last);
      assert b == front + [last];
    }
  }

  lemma BothParts(a: seq<Action>, front: seq<Action>, last: Action)
    ensures a + (front + [last]) == (a + front) + [last]
  {
  }

  lemma RunOne(cfg: Config, s: Proxy, a: Action)
    ensures RunFrom(cfg, s, [a]) == Next(cfg, s, a)
  {
    RunSnoc(cfg, s, [], a);
    Empty([a]);
  }

  lemma RunThen(cfg: Config, s: Proxy, a: Action, run: seq<Action>)
    ensures RunFrom(cfg, s, [a] + run) == RunFrom(cfg, Next(cfg, s, a), run)
  {
    RunBoth(cfg, s, [a], run);
    RunOne(cfg, s, a);
  }

  // -------------------------------------------------------------- one write

  lemma SentToOne(log: seq<Server.Write>, c: nat, u: Unit, d: nat)
    ensures Server.SentTo(log + [Server.Write(c, u)], d) == Server.SentTo(log, d) + (if c == d then [u] else [])
  {
    Server.SentToConcat(log, [Server.Write(c, u)], d);
  }

  lemma UnitsOne(sent: seq<Sent>, x: Sent)
    ensures Units(sent + [x]) == Units(sent) + [x.unit]
  {
  }

  /** A write to a client, and the machine's delivery to its session. */
  lemma ClientWrite(log: seq<Server.Write>, s: Proxy, t: Proxy, w: Wiring, c: nat, d: Delivery)
    requires Shows(log, s, w) && c < |w.clients|
    requires t.fanout.inboxes == Put(s.fanout, c, d).inboxes && t.traffic.wires == s.traffic.wires
    ensures Shows(log + [Server.Write(w.clients[c], d.unit)], t, w)
  {
    var more := log + [Server.Write(w.clients[c], d.unit)];
    BroadcastsAppend(s.fanout.inboxes[c].got, d);
    forall b | 0 <= b < |w.clients|
      ensures Server.SentTo(more, w.clients[b]) == DeliveredUnits(t.fanout.inboxes[b].got)
    {
      SentToOne(log, w.clients[c], d.unit, w.clients[b]);
    }
    forall k | 0 <= k < |w.nodes|
      ensures Server.SentTo(more, w.nodes[k]) == Units(t.traffic.wires[k])
    {
      SentToOne(log, w.clients[c], d.unit, w.nodes[k]);
    }
  }

  /** A write to a node connection. */
  lemma NodeWrite(log: seq<Server.Write>, s: Proxy, t: Proxy, w: Wiring, k: nat, x: Sent)
    requires Shows(log, s, w) && k < |w.nodes|
    requires t.traffic.wires == s.traffic.wires[k := s.traffic.wires[k] + [x]]
    requires t.fanout.inboxes == s.fanout.inboxes
    ensures Shows(log + [Server.Write(w.nodes[k], x.unit)], t, w)
  {
    var more := log + [Server.Write(w.nodes[k], x.unit)];
    UnitsOne(s.traffic.wires[k], x);
    forall c | 0 <= c < |w.clients|
      ensures Server.SentTo(more, w.clients[c]) == DeliveredUnits(t.fanout.inboxes[c].got)
    {
      SentToOne(log, w.nodes[k], x.unit, w.clients[c]);
    }
    forall j | 0 <= j < |w.nodes|
      ensures Server.SentTo(more, w.nodes[j]) == Units(t.traffic.wires[j])
    {
      SentToOne(log, w.nodes[k], x.unit, w.nodes[j]);
    }
  }

  // ---------------------------------------------------------- a session's read

  /** The session can go on: it is not waiting for the lock, and nobody holds it. */
  predicate Free(s: Proxy, c: nat)
  {
    CanRead(s.traffic, c) && s.lock.None?
  }

  /** The session's world as the class sees it. */
  function World(s: Proxy, w: Wiring, broken: set<nat>, c: nat): (r: Server.Session)
    requires Wired(s, w) && c < |w.clients|
  {
    Server.Session(w.clients[c], w.clients[c] in broken,
                   if s.up.Some? && w.nodes[s.up.value] !in broken then Some(w.nodes[s.up.value]) else None,
                   s.fanout.selfInfo)
  }

  /** Nothing but the session's own desk, what was sent, and the clock has changed. */
  predicate Aside(s: Proxy, t: Proxy, c: nat)
  {
    && Free(s, c) && Free(t, c)
    && t == s.(now := t.now, lastTx := t.lastTx, commandTimes := t.commandTimes, traffic := t.traffic, fanout := t.fanout)
    && t.fanout == s.fanout.(inboxes := t.fanout.inboxes)
    && |t.fanout.inboxes| == |s.fanout.inboxes| && |t.traffic.wires| == |s.traffic.wires|
    && |t.traffic.desks| == |s.traffic.desks|
    && forall d :: 0 <= d < |s.traffic.desks| && d != c ==> t.traffic.desks[d] == s.traffic.desks[d]
  }

  /** An action of session `c`, or the clock. */
  predicate OwnAction(a: Action, c: nat)
  {
    || a.Tick?
    || (a.Client? && match a.client
                     case ClientData(d, _) => d == c
                     case ClientTake(d, _) => d == c
                     case Acquire(d) => d == c
                     case WriteUp(_) => true
                     case _ => false)
  }

  predicate OwnActions(run: seq<Action>, c: nat)
  {
    forall i :: 0 <= i < |run| ==> OwnAction(run[i], c)
  }

  /** How long the pacing sleep is. */
  function Pause(cfg: Config, s: Proxy): (dt: nat)
  {
    if s.lastTx + cfg.minGap > s.now then s.lastTx + cfg.minGap - s.now else 0
  }

  /** What a session does for its next unit: answer it, drop it without a connection, or exchange it. */
  function Turn(cfg: Config, s: Proxy, c: nat, answers: bool, wrote: bool): (run: seq<Action>)
    ensures OwnActions(run, c)
  {
    if answers then [Action.Client(ClientTake(c, wrote))]
    else if s.up.None? then [Action.Client(ClientTake(c, true)), Action.Client(Acquire(c))]
    else [Action.Client(ClientTake(c, true)), Action.Client(Acquire(c)), Tick(Pause(cfg, s)), Action.Client(WriteUp(wrote))]
  }

  predicate HasUnit(s: Proxy, c: nat)
  {
    Free(s, c) && NextUnit(CLIENT_MARKER, s.traffic.desks[c].buf).Take?
  }

  lemma TurnAnswers(cfg: Config, s: Proxy, c: nat, wrote: bool)
    requires HasUnit(s, c)
    requires IsAppStart(NextUnit(CLIENT_MARKER, s.traffic.desks[c].buf).unit) && s.fanout.selfInfo.Some?
    ensures RunFrom(cfg, s, Turn(cfg, s, c, true, wrote))
         == s.(traffic := TakeUnit(s.traffic, c, true), fanout := if wrote then Answer(s.fanout, c) else s.fanout)
  {
    RunOne(cfg, s, Action.Client(ClientTake(c, wrote)));
  }

  predicate Passes(s: Proxy, c: nat)
    requires HasUnit(s, c)
  {
    !(IsAppStart(NextUnit(CLIENT_MARKER, s.traffic.desks[c].buf).unit) && s.fanout.selfInfo.Some?)
  }

  lemma TurnDrops(cfg: Config, s: Proxy, c: nat, wrote: bool)
    requires HasUnit(s, c) && Passes(s, c) && s.up.None?
    ensures RunFrom(cfg, s, Turn(cfg, s, c, false, wrote))
         == s.(traffic := Settle(TakeUnit(s.traffic, c, false), c, Dropped))
  {
    var take, acquire := Action.Client(ClientTake(c, true)), Action.Client(Acquire(c));
    assert [take, acquire] == [take] + [acquire];
    Takes(cfg, s, c);
    RunThen(cfg, s, take, [acquire]);
    RunOne(cfg, Next(cfg, s, take), acquire);
  }

  /** After the exchange of one unit. */
  function Exchanged(cfg: Config, s: Proxy, c: nat, wrote: bool): (t: State)
    requires HasUnit(s, c) && s.up.Some?
  {
    var taken := TakeUnit(s.traffic, c, false);
    var now := s.now + Pause(cfg, s);
    s.(now := now, lastTx := now, commandTimes := s.commandTimes + [now],
       traffic := if wrote then Write(taken, c, s.up.value) else Settle(taken, c, Dropped))
  }

  lemma Takes(cfg: Config, s: Proxy, c: nat)
    requires HasUnit(s, c) && Passes(s, c)
    ensures Next(cfg, s, Action.Client(ClientTake(c, true))) == s.(traffic := TakeUnit(s.traffic, c, false))
    ensures Waits(TakeUnit(s.traffic, c, false), c)
  {
  }

  /** Under the lock, with a connection: the pacing sleep and the write. */
  lemma Acquires(cfg: Config, s: Proxy, c: nat)
    requires Waits(s.traffic, c) && s.lock.None? && s.up.Some?
    ensures Next(cfg, s, Action.Client(Acquire(c))) == s.(lock := Some(Hold(c, s.up.value, s.lastTx + cfg.minGap)))
  {
  }

  /** The write when the sleep is over. */
  function Awake(s: Proxy, h: Hold, now: int, wrote: bool): (t: State)
    requires Waits(s.traffic, h.client) && h.conn < |s.traffic.wires|
  {
    s.(now := now, lock := None, lastTx := now, commandTimes := s.commandTimes + [now],
       traffic := if wrote then Write(s.traffic, h.client, h.conn) else Settle(s.traffic, h.client, Dropped))
  }

  lemma WritesUp(cfg: Config, s: Proxy, h: Hold, wrote: bool)
    requires s.lock == Some(h) && h.due <= s.now
    ensures Next(cfg, s, Action.Client(WriteUp(wrote))) == Awake(s, h, s.now, wrote)
  {
  }

  lemma Sleeps(cfg: Config, s: Proxy, h: Hold, wrote: bool)
    requires s.lock == Some(h) && h.due == s.lastTx + cfg.minGap
    ensures RunFrom(cfg, s, [Tick(Pause(cfg, s)), Action.Client(WriteUp(wrote))])
         == Awake(s, h, s.now + Pause(cfg, s), wrote)
  {
    var sleep, write := Tick(Pause(cfg, s)), Action.Client(WriteUp(wrote));
    assert [sleep, write] == [sleep] + [write];
    RunThen(cfg, s, sleep, [write]);
    RunOne(cfg, Next(cfg, s, sleep), write);
    WritesUp(cfg, Next(cfg, s, sleep), h, wrote);
  }

  /** The session in its pacing sleep, holding the lock. */
  function Held(cfg: Config, s: Proxy, c: nat): (b: State)
    requires HasUnit(s, c) && s.up.Some?
  {
    s.(traffic := TakeUnit(s.traffic, c, false), lock := Some(Hold(c, s.up.value, s.lastTx + cfg.minGap)))
  }

  lemma TakesAndAcquires(cfg: Config, s: Proxy, c: nat)
    requires HasUnit(s, c) && Passes(s, c) && s.up.Some?
    ensures Next(cfg, Next(cfg, s, Action.Client(ClientTake(c, true))), Action.Client(Acquire(c))) == Held(cfg, s, c)
    ensures Known(Held(cfg, s, c))
  {
    Takes(cfg, s, c);
    Acquires(cfg, Next(cfg, s, Action.Client(ClientTake(c, true))), c);
  }

  lemma RunTwo(cfg: Config, s: Proxy, a: Action, b: Action, rest: seq<Action>)
    ensures RunFrom(cfg, s, [a] + ([b] + rest)) == RunFrom(cfg, Next(cfg, Next(cfg, s, a), b), rest)
  {
    RunThen(cfg, s, a, [b] + rest);
    RunThen(cfg, Next(cfg, s, a), b, rest);
  }

  lemma SleepsAndWrites(cfg: Config, s: Proxy, c: nat, wrote: bool)
    requires HasUnit(s, c) && s.up.Some? && Known(Held(cfg, s, c))
    ensures RunFrom(cfg, Held(cfg, s, c), [Tick(Pause(cfg, s)), Action.Client(WriteUp(wrote))])
         == Exchanged(cfg, s, c, wrote)
  {
    var b := Held(cfg, s, c);
    assert Pause(cfg, b) == Pause(cfg, s);
    Sleeps(cfg, b, b.lock.value, wrote);
  }

  lemma FourSteps(a: Action, b: Action, c: Action, d: Action)
    ensures [a, b, c, d] == [a] + ([b] + [c, d])
  {
  }

  lemma TurnExchanges(cfg: Config, s: Proxy, c: nat, wrote: bool)
    requires HasUnit(s, c) && Passes(s, c) && s.up.Some?
    ensures RunFrom(cfg, s, Turn(cfg, s, c, false, wrote)) == Exchanged(cfg, s, c, wrote)
  {
    var sleep, write := Tick(Pause(cfg, s)), Action.Client(WriteUp(wrote));
    FourSteps(Action.Client(ClientTake(c, true)), Action.Client(Acquire(c)), sleep, write);
    RunTwo(cfg, s, Action.Client(ClientTake(c, true)), Action.Client(Acquire(c)), [sleep, write]);
    TakesAndAcquires(cfg, s, c);
    SleepsAndWrites(cfg, s, c, wrote);
  }

  /** Whether the write of a turn gets through. */
  function Works(s: Proxy, w: Wiring, broken: set<nat>, c: nat, answers: bool): (wrote: bool)
    requires Wired(s, w) && c < |w.clients|
  {
    if answers then w.clients[c] !in broken else s.up.Some? && w.nodes[s.up.value] !in broken
  }

  lemma TurnShows(cfg: Config, log: seq<Server.Write>, s: Proxy, w: Wiring, broken: set<nat>, c: nat)
    requires Shows(log, s, w) && HasUnit(s, c)
    ensures var n, p := NextUnit(CLIENT_MARKER, s.traffic.desks[c].buf), World(s, w, broken, c);
            var answers := Server.Answers(p, n.unit);
            var t := RunFrom(cfg, s, Turn(cfg, s, c, answers, Works(s, w, broken, c, answers)));
            && Aside(s, t, c) && t.traffic.desks[c].buf == n.rest
            && Shows(log + Server.Served1(p, n.unit), t, w)
  {
    var n, p := NextUnit(CLIENT_MARKER, s.traffic.desks[c].buf), World(s, w, broken, c);
    var answers := Server.Answers(p, n.unit);
    var wrote := Works(s, w, broken, c, answers);
    var t := RunFrom(cfg, s, Turn(cfg, s, c, answers, wrote));
    Empty(log);
    if answers {
      TurnAnswers(cfg, s, c, wrote);
      if wrote {
        ClientWrite(log, s, t, w, c, Reply(Frame(s.fanout.selfInfo.value)));
      }
    } else if s.up.None? {
      TurnDrops(cfg, s, c, wrote);
    } else {
      TurnExchanges(cfg, s, c, wrote);
      if wrote {
        NodeWrite(log, s, t, w, s.up.value, Sent(Sender.Client(c), n.unit));
      }
    }
  }

  lemma AsideTwice(s: Proxy, t: Proxy, u: Proxy, c: nat)
    requires Aside(s, t, c) && Aside(t, u, c)
    ensures Aside(s, u, c)
  {
  }

  lemma SameWorld(s: Proxy, t: Proxy, w: Wiring, broken: set<nat>, c: nat)
    requires Aside(s, t, c) && Wired(s, w)
    ensures Wired(t, w) && c < |w.clients| && World(t, w, broken, c) == World(s, w, broken, c)
  {
  }

  /** The inner loop of a session, left alone, is a run of the session's own actions. */
  lemma {:induction false} ServeIsRun(cfg: Config, log: seq<Server.Write>, s: Proxy, w: Wiring, broken: set<nat>, c: nat)
      returns (run: seq<Action>)
    requires Shows(log, s, w) && Free(s, c)
    ensures OwnActions(run, c)
    ensures var t, r := RunFrom(cfg, s, run), Server.Serve(World(s, w, broken, c), s.traffic.desks[c].buf);
            Aside(s, t, c) && t.traffic.desks[c].buf == r.rest && Shows(log + r.writes, t, w)
    decreases |s.traffic.desks[c].buf|
  {
    var n, p := NextUnit(CLIENT_MARKER, s.traffic.desks[c].buf), World(s, w, broken, c);
    if n.Wait? {
      run := [];
      Empty(log);
    } else {
      var answers := Server.Answers(p, n.unit);
      run := Turn(cfg, s, c, answers, Works(s, w, broken, c, answers));
      TurnShows(cfg, log, s, w, broken, c);
      if !(answers && p.broken) {
        var t := RunFrom(cfg, s, run);
        var more := log + Server.Served1(p, n.unit);
        SameWorld(s, t, w, broken, c);
        var rest := ServeIsRun(cfg, more, t, w, broken, c);
        RunBoth(cfg, s, run, rest);
        AsideTwice(s, t, RunFrom(cfg, t, rest), c);
        Assoc(log, Server.Served1(p, n.unit), Server.Serve(p, n.rest).writes);
        run := run + rest;
      } else {
        Empty(log);
      }
    }
  }

  /**
   `ClientRead` with nobody in between: its writes and what it leaves in the buffer are those of a run of the
   session's own actions, beginning with the read.
   */
  lemma ClientReadIsRun(cfg: Config, log: seq<Server.Write>, s: Proxy, w: Wiring, broken: set<nat>, c: nat,
                        data: seq<byte>) returns (run: seq<Action>)
    requires Shows(log, s, w) && Free(s, c) && data != []
    ensures OwnActions(run, c)
    ensures var t, r := RunFrom(cfg, s, run), Server.Serve(World(s, w, broken, c), s.traffic.desks[c].buf + data);
            && Free(t, c) && t.traffic.desks[c].buf == r.rest && Shows(log + r.writes, t, w)
            && t.lastSeen == (if c in s.fanout.slots then s.lastSeen[c := s.now] else s.lastSeen)
            && t.up == s.up && t.fanout == s.fanout.(inboxes := t.fanout.inboxes)
  {
    var read := Action.Client(ClientData(c, data));
    var t := Next(cfg, s, read);
    assert World(t, w, broken, c) == World(s, w, broken, c);
    run := ServeIsRun(cfg, log, t, w, broken, c);
    RunThen(cfg, s, read, run);
    run := [read] + run;
  }

  // ------------------------------------------------------------- broadcasts

  predicate Within(slots: seq<nat>, w: Wiring)
  {
    forall i :: 0 <= i < |slots| ==> slots[i] < |w.clients|
  }

  /** The connections of these sessions. */
  function Conns(w: Wiring, slots: seq<nat>): (cs: seq<nat>)
    requires Within(slots, w)
  {
    seq(|slots|, i requires 0 <= i < |slots| => w.clients[slots[i]])
  }

  lemma SlotsWithin(s: Proxy, w: Wiring)
    requires Wired(s, w)
    ensures Within(s.fanout.slots, w)
    ensures s.fanout.outbox.Some? ==> Within(s.fanout.outbox.value.pending, w)
  {
    var f := s.fanout;
    assert forall i :: 0 <= i < |f.slots| ==> f.slots[i] in f.slots;
    assert f.outbox.Some? ==>
      forall i :: 0 <= i < |f.outbox.value.pending| ==> f.outbox.value.pending[i] in f.outbox.value.pending;
  }

  /** The sessions among these whose connection is broken. */
  function BrokenOf(w: Wiring, broken: set<nat>, slots: seq<nat>): (gone: set<nat>)
    requires Within(slots, w)
  {
    set i | 0 <= i < |slots| && w.clients[slots[i]] in broken :: slots[i]
  }

  lemma BrokenTurn(w: Wiring, broken: set<nat>, slots: seq<nat>)
    requires Within(slots, w) && slots != []
    ensures Within(slots[1..], w)
    ensures BrokenOf(w, broken, slots)
         == (if w.clients[slots[0]] in broken then {slots[0]} else {}) + BrokenOf(w, broken, slots[1..])
  {
    forall c
      ensures c in BrokenOf(w, broken, slots)
         <==> (c == slots[0] && w.clients[c] in broken) || c in BrokenOf(w, broken, slots[1..])
    {
      if c in BrokenOf(w, broken, slots) {
        var i :| 0 <= i < |slots| && w.clients[slots[i]] in broken && slots[i] == c;
        assert i > 0 ==> slots[1..][i - 1] == c;
      }
      if c in BrokenOf(w, broken, slots[1..]) {
        var i :| 0 <= i < |slots[1..]| && w.clients[slots[1..][i]] in broken && slots[1..][i] == c;
        assert slots[i + 1] == c;
      }
    }
  }

  lemma ConnsTurn(w: Wiring, slots: seq<nat>)
    requires Within(slots, w) && slots != []
    ensures Within(slots[1..], w)
    ensures Conns(w, slots)[0] == w.clients[slots[0]] && Conns(w, slots)[1..] == Conns(w, slots[1..])
  {
  }

  lemma ConnsCons(w: Wiring, c: nat, slots: seq<nat>)
    requires Within(slots, w) && c < |w.clients|
    ensures Within([c] + slots, w) && Conns(w, [c] + slots) == [w.clients[c]] + Conns(w, slots)
  {
  }

  /** `gone` are those of the sessions whose connection is broken. */
  predicate Gone(w: Wiring, broken: set<nat>, slots: seq<nat>, gone: set<nat>)
    requires Within(slots, w)
  {
    forall i :: 0 <= i < |slots| ==> (slots[i] in gone <==> w.clients[slots[i]] in broken)
  }

  lemma GoneTurn(w: Wiring, broken: set<nat>, slots: seq<nat>, gone: set<nat>)
    requires Within(slots, w) && slots != [] && Gone(w, broken, slots, gone)
    ensures Within(slots[1..], w) && Gone(w, broken, slots[1..], gone)
    ensures slots[0] in gone <==> w.clients[slots[0]] in broken
  {
    assert forall i :: 0 <= i < |slots[1..]| ==> slots[1..][i] == slots[i + 1];
  }

  lemma {:induction false} ConnsWithout(w: Wiring, broken: set<nat>, slots: seq<nat>, gone: set<nat>)
    requires Within(slots, w) && Gone(w, broken, slots, gone)
    ensures Within(Without(slots, gone), w)
    ensures Conns(w, Without(slots, gone)) == Without(Conns(w, slots), broken)
  {
    if slots != [] {
      ConnsTurn(w, slots);
      GoneTurn(w, broken, slots, gone);
      ConnsWithout(w, broken, slots[1..], gone);
      var more := Without(slots[1..], gone);
      ConnsCons(w, slots[0], more);
      Empty(more);
      Empty(Conns(w, more));
    }
  }

  /** One client after the other. */
  function Deliveries(w: Wiring, broken: set<nat>, pending: seq<nat>): (run: seq<Action>)
    requires Within(pending, w)
    decreases |pending|
  {
    if pending == [] then []
    else
      var works := w.clients[pending[0]] !in broken;
      [Node(DeliverNext(works, !works))] + Deliveries(w, broken, pending[1..])
  }

  /** The machine with these deliveries done. */
  predicate Delivered(s: Proxy, t: Proxy, pending: seq<nat>, gone: set<nat>)
    requires s.fanout.outbox.Some?
  {
    var o := s.fanout.outbox.value;
    t == s.(fanout := s.fanout.(inboxes := t.fanout.inboxes,
                                outbox := Some(Outbox(o.unit, pending, o.dead + gone))))
  }

  lemma DeliverOne(cfg: Config, log: seq<Server.Write>, s: Proxy, w: Wiring, broken: set<nat>)
    requires Shows(log, s, w) && s.fanout.outbox.Some? && s.fanout.outbox.value.pending != []
    ensures var o := s.fanout.outbox.value;
            o.pending[0] < |w.clients| &&
            var conn := w.clients[o.pending[0]];
            var works := conn !in broken;
            var t := Next(cfg, s, Node(DeliverNext(works, !works)));
            && Delivered(s, t, o.pending[1..], if works then {} else {o.pending[0]})
            && Shows(if works then log + [Server.Write(conn, o.unit)] else log, t, w)
  {
    var o := s.fanout.outbox.value;
    var c := o.pending[0];
    assert c in o.pending;
    var works := w.clients[c] !in broken;
    var t := Next(cfg, s, Node(DeliverNext(works, !works)));
    if works {
      ClientWrite(log, s, t, w, c, Broadcast(o.unit));
      assert o.dead + {} == o.dead;
    }
  }

  lemma DeliveredTwice(s: Proxy, t: Proxy, u: Proxy, a: seq<nat>, b: seq<nat>, gone: set<nat>, more: set<nat>)
    requires s.fanout.outbox.Some? && t.fanout.outbox.Some?
    requires Delivered(s, t, a, gone) && Delivered(t, u, b, more)
    ensures Delivered(s, u, b, gone + more)
  {
    var dead := s.fanout.outbox.value.dead;
    assert dead + gone + more == dead + (gone + more);
  }

  lemma {:induction false} DeliverAll(cfg: Config, log: seq<Server.Write>, s: Proxy, w: Wiring, broken: set<nat>)
    requires Shows(log, s, w) && s.fanout.outbox.Some? && Within(s.fanout.outbox.value.pending, w)
    ensures var o := s.fanout.outbox.value;
            var t := RunFrom(cfg, s, Deliveries(w, broken, o.pending));
            && Delivered(s, t, [], BrokenOf(w, broken, o.pending))
            && Shows(Server.FanOut(Conns(w, o.pending), broken, o.unit, log), t, w)
    decreases |s.fanout.outbox.value.pending|
  {
    var o := s.fanout.outbox.value;
    if o.pending == [] {
      Empty(log);
      assert o.dead + BrokenOf(w, broken, o.pending) == o.dead;
    } else {
      var conn := w.clients[o.pending[0]];
      var works := conn !in broken;
      var first := Node(DeliverNext(works, !works));
      var t := Next(cfg, s, first);
      DeliverOne(cfg, log, s, w, broken);
      ConnsTurn(w, o.pending);
      BrokenTurn(w, broken, o.pending);
      var more := if works then log + [Server.Write(conn, o.unit)] else log;
      DeliverAll(cfg, more, t, w, broken);
      var rest := Deliveries(w, broken, o.pending[1..]);
      RunThen(cfg, s, first, rest);
      DeliveredTwice(s, t, RunFrom(cfg, t, rest), o.pending[1..], [], if works then {} else {o.pending[0]},
                     BrokenOf(w, broken, o.pending[1..]));
      Server.FanOutTurn(Conns(w, o.pending), broken, o.unit, log);
    }
  }

  lemma BrokenAreGone(w: Wiring, broken: set<nat>, slots: seq<nat>)
    requires Within(slots, w)
    ensures Gone(w, broken, slots, BrokenOf(w, broken, slots))
  {
  }

  // --------------------------------------------------------- the node's read

  /** The node's connection is there, and no broadcast is under way. */
  predicate Listens(s: Proxy)
  {
    s.up.Some? && CanReceive(s.fanout)
  }

  predicate NodeHasUnit(s: Proxy)
  {
    Listens(s) && NextUnit(NODE_MARKER, Last(s.fanout).buf).Take?
  }

  lemma Emits(cfg: Config, log: seq<Server.Write>, s: Proxy, w: Wiring)
    requires Shows(log, s, w) && NodeHasUnit(s)
    ensures var a := Next(cfg, s, Node(NodeUnit)); a == s.(fanout := Emit(s.fanout)) && Shows(log, a, w)
  {
  }

  /** The last client has had its turn: those that failed lose their slots. */
  lemma Finishes(cfg: Config, log: seq<Server.Write>, s: Proxy, w: Wiring)
    requires Shows(log, s, w) && s.fanout.outbox.Some? && s.fanout.outbox.value.pending == []
    ensures var t := Next(cfg, s, Node(FinishBroadcast));
            && t == s.(fanout := s.fanout.(slots := Without(s.fanout.slots, s.fanout.outbox.value.dead), outbox := None))
            && Shows(log, t, w)
  {
  }

  /** Taking one unit off the node's stream and handing it round. */
  function UnitRun(w: Wiring, broken: set<nat>, slots: seq<nat>): (run: seq<Action>)
    requires Within(slots, w)
  {
    [Node(NodeUnit)] + (Deliveries(w, broken, slots) + [Node(FinishBroadcast)])
  }

  /** What one unit leaves behind. */
  predicate Relayed1(s: Proxy, t: Proxy, w: Wiring, broken: set<nat>)
    requires NodeHasUnit(s) && Wired(s, w) && Wired(t, w)
  {
    SlotsWithin(s, w);
    SlotsWithin(t, w);
    var n := NextUnit(NODE_MARKER, Last(s.fanout).buf);
    && Listens(t) && Last(t.fanout).buf == n.rest
    && t == s.(fanout := t.fanout)
    && t.fanout.selfInfo == Server.Cached([n.unit], s.fanout.selfInfo)
    && Conns(w, t.fanout.slots) == Without(Conns(w, s.fanout.slots), broken)
  }

  lemma UnitShows(cfg: Config, log: seq<Server.Write>, s: Proxy, w: Wiring, broken: set<nat>)
    requires Shows(log, s, w) && NodeHasUnit(s) && Within(s.fanout.slots, w)
    ensures var n, live := NextUnit(NODE_MARKER, Last(s.fanout).buf), Without(Conns(w, s.fanout.slots), broken);
            var t := RunFrom(cfg, s, UnitRun(w, broken, s.fanout.slots));
            Shows(log + Server.Fan(live, n.unit), t, w) && Relayed1(s, t, w, broken)
  {
    var n, slots := NextUnit(NODE_MARKER, Last(s.fanout).buf), s.fanout.slots;
    var emit, finish, turns := Node(NodeUnit), Node(FinishBroadcast), Deliveries(w, broken, slots);
    var a := Next(cfg, s, emit);
    Emits(cfg, log, s, w);
    var b := RunFrom(cfg, a, turns);
    DeliverAll(cfg, log, a, w, broken);
    Finishes(cfg, log + Server.Fan(Without(Conns(w, slots), broken), n.unit), b, w);
    RunThen(cfg, s, emit, turns + [finish]);
    RunSnoc(cfg, a, turns, finish);
    BrokenAreGone(w, broken, slots);
    ConnsWithout(w, broken, slots, BrokenOf(w, broken, slots));
    assert {} + BrokenOf(w, broken, slots) == BrokenOf(w, broken, slots);
  }

  /** Broadcasting, and nothing else. */
  predicate Broadcasting(a: Action)
  {
    a.Node? && (a.node.NodeUnit? || a.node.DeliverNext? || a.node.FinishBroadcast?)
  }

  predicate AllBroadcasting(run: seq<Action>)
  {
    forall i :: 0 <= i < |run| ==> Broadcasting(run[i])
  }

  lemma {:induction false} UnitBroadcasting(w: Wiring, broken: set<nat>, pending: seq<nat>)
    requires Within(pending, w)
    ensures AllBroadcasting(Deliveries(w, broken, pending))
    decreases |pending|
  {
    if pending != [] {
      UnitBroadcasting(w, broken, pending[1..]);
    }
  }

  lemma UnitRunBroadcasting(w: Wiring, broken: set<nat>, slots: seq<nat>, rest: seq<Action>)
    requires Within(slots, w) && AllBroadcasting(rest)
    ensures AllBroadcasting(UnitRun(w, broken, slots) + rest)
  {
    UnitBroadcasting(w, broken, slots);
  }

  /** The machine's state after the loop over a buffer is what `Relay` says. */
  predicate RelayedAll(s: Proxy, t: Proxy, w: Wiring, live: seq<nat>, r: Server.Relayed)
    requires Listens(s) && Wired(s, w) && Wired(t, w)
  {
    SlotsWithin(s, w);
    SlotsWithin(t, w);
    && Listens(t) && t == s.(fanout := t.fanout)
    && Last(t.fanout).buf == r.rest && t.fanout.selfInfo == r.info
    && Conns(w, t.fanout.slots)
       == if NextUnit(NODE_MARKER, Last(s.fanout).buf).Wait? then Conns(w, s.fanout.slots) else live
  }

  lemma RelayedMore(s: Proxy, t: Proxy, u: Proxy, w: Wiring, broken: set<nat>, live: seq<nat>, r: Server.Relayed)
    requires NodeHasUnit(s) && Wired(s, w) && Wired(t, w) && Wired(u, w) && Relayed1(s, t, w, broken)
    requires Within(s.fanout.slots, w) && live == Without(Conns(w, s.fanout.slots), broken)
    requires Listens(t) && RelayedAll(t, u, w, live, r)
    ensures RelayedAll(s, u, w, live, r)
  {
  }

  /** One turn of the loop, and that there are as many clients to hand the next unit to. */
  lemma RelayStep(cfg: Config, log: seq<Server.Write>, s: Proxy, w: Wiring, broken: set<nat>, live: seq<nat>)
    requires Shows(log, s, w) && NodeHasUnit(s)
    requires Within(s.fanout.slots, w) && live == Without(Conns(w, s.fanout.slots), broken)
    ensures var n := NextUnit(NODE_MARKER, Last(s.fanout).buf);
            var t := RunFrom(cfg, s, UnitRun(w, broken, s.fanout.slots));
            && Shows(log + Server.Fan(live, n.unit), t, w) && Relayed1(s, t, w, broken)
            && Within(t.fanout.slots, w) && live == Without(Conns(w, t.fanout.slots), broken)
  {
    UnitShows(cfg, log, s, w, broken);
    SlotsWithin(RunFrom(cfg, s, UnitRun(w, broken, s.fanout.slots)), w);
    Server.WithoutNone(live, broken);
  }

  /** The upstream loop over a buffer, left alone, is a run of broadcasts. */
  lemma {:induction false} RelayIsRun(cfg: Config, log: seq<Server.Write>, s: Proxy, w: Wiring, broken: set<nat>,
                                      live: seq<nat>) returns (run: seq<Action>)
    requires Shows(log, s, w) && Listens(s)
    requires Within(s.fanout.slots, w) && live == Without(Conns(w, s.fanout.slots), broken)
    ensures AllBroadcasting(run)
    ensures var t, r := RunFrom(cfg, s, run), Server.Relay(live, Last(s.fanout).buf, log, s.fanout.selfInfo);
            Shows(r.log, t, w) && RelayedAll(s, t, w, live, r)
    decreases |Last(s.fanout).buf|
  {
    var n := NextUnit(NODE_MARKER, Last(s.fanout).buf);
    Server.RelayTurn(live, Last(s.fanout).buf, log, s.fanout.selfInfo);
    if n.Wait? {
      run := [];
    } else {
      var unit := UnitRun(w, broken, s.fanout.slots);
      var t := RunFrom(cfg, s, unit);
      RelayStep(cfg, log, s, w, broken, live);
      var more := log + Server.Fan(live, n.unit);
      var rest := RelayIsRun(cfg, more, t, w, broken, live);
      run := unit + rest;
      RunBoth(cfg, s, unit, rest);
      UnitRunBroadcasting(w, broken, s.fanout.slots, rest);
      RelayedMore(s, t, RunFrom(cfg, t, rest), w, broken, live,
                  Server.Relay(live, n.rest, more, t.fanout.selfInfo));
    }
  }

  /**
   `UpstreamRead` with nobody in between: its writes, the cached handshake, the slots and the bytes left over
   are those of a run that begins with the read and goes on with broadcasts.
   */
  lemma UpstreamReadIsRun(cfg: Config, log: seq<Server.Write>, s: Proxy, w: Wiring, broken: set<nat>, data: seq<byte>)
      returns (run: seq<Action>)
    requires Shows(log, s, w) && Listens(s) && data != []
    ensures run != [] && run[0] == Node(NodeData(data)) && AllBroadcasting(run[1..])
    ensures Within(s.fanout.slots, w)
    ensures var t, buf, cs := RunFrom(cfg, s, run), Last(s.fanout).buf + data, Conns(w, s.fanout.slots);
            var live := Without(cs, broken);
            var r := Server.Relay(live, buf, log, s.fanout.selfInfo);
            && Shows(r.log, t, w) && Listens(t) && Last(t.fanout).buf == r.rest && t.fanout.selfInfo == r.info
            && Within(t.fanout.slots, w)
            && Conns(w, t.fanout.slots) == if NextUnit(NODE_MARKER, buf).Wait? then cs else live
  {
    SlotsWithin(s, w);
    var read := Node(NodeData(data));
    var t := Next(cfg, s, read);
    assert t.fanout == Receive(s.fanout, data);
    run := RelayIsRun(cfg, log, t, w, broken, Without(Conns(w, s.fanout.slots), broken));
    RunThen(cfg, s, read, run);
    Cons(read, run);
    SlotsWithin(RunFrom(cfg, t, run), w);
    run := [read] + run;
  }

  // -------------------------------------------------------------- admission

  /** The class's times of last activity are the machine's. */
  predicate SameTimes(s: Proxy, w: Wiring, lastTx: map<nat, int>)
    requires Wired(s, w)
  {
    SlotsWithin(s, w);
    forall c :: c in s.fanout.slots ==> w.clients[c] in lastTx && lastTx[w.clients[c]] == s.lastSeen[c]
  }

  lemma SameIdle(s: Proxy, w: Wiring, lastTx: map<nat, int>, limit: int, i: nat)
    requires Wired(s, w) && SameTimes(s, w, lastTx) && i < |s.fanout.slots| && Within(s.fanout.slots, w)
    ensures s.fanout.slots[i] in IdleSlots(s, limit) <==> s.now - lastTx[Conns(w, s.fanout.slots)[i]] > limit
  {
    assert s.fanout.slots[i] in s.fanout.slots;
  }

  /** Somebody has a slot and has been silent for longer than the limit. */
  predicate SomeIdle(cs: seq<nat>, lastTx: map<nat, int>, now: int, limit: int)
    requires forall c :: c in cs ==> c in lastTx
  {
    exists c :: c in cs && now - lastTx[c] > limit
  }

  lemma IdleFound(s: Proxy, w: Wiring, lastTx: map<nat, int>, limit: int)
    requires Wired(s, w) && SameTimes(s, w, lastTx) && Within(s.fanout.slots, w)
    ensures var slots, cs := s.fanout.slots, Conns(w, s.fanout.slots);
            var i := FirstIdle(slots, IdleSlots(s, limit));
            && (forall c :: c in cs ==> c in lastTx)
            && (i < |slots| <==> SomeIdle(cs, lastTx, s.now, limit))
            && (i < |slots| ==> Server.FirstIdleGone(cs, lastTx, s.now, limit, cs[..i] + cs[i + 1..]))
  {
    var slots, cs := s.fanout.slots, Conns(w, s.fanout.slots);
    var i := FirstIdle(slots, IdleSlots(s, limit));
    forall j | 0 <= j < |slots|
      ensures cs[j] in lastTx && (slots[j] in IdleSlots(s, limit) <==> s.now - lastTx[cs[j]] > limit)
    {
      assert slots[j] in slots;
      SameIdle(s, w, lastTx, limit, j);
    }
    if i < |slots| {
      assert cs[i] in cs;
    }
  }

  lemma ConnsOfStay(w: Wiring, slots: seq<nat>, i: nat)
    requires Within(slots, w) && i < |slots|
    ensures Within(slots[..i] + slots[i + 1..], w)
    ensures Conns(w, slots[..i] + slots[i + 1..]) == Conns(w, slots)[..i] + Conns(w, slots)[i + 1..]
  {
  }

  lemma ConnsEnter(w: Wiring, stay: seq<nat>, conn: nat)
    requires Within(stay, w)
    ensures var v := w.(clients := w.clients + [conn]);
            Within(stay + [|w.clients|], v) && Conns(v, stay + [|w.clients|]) == Conns(w, stay) + [conn]
  {
  }

  /** `Admit` is the machine's admission: who enters, and whose slot goes. */
  lemma AdmitIsAccept(cfg: Config, s: Proxy, w: Wiring, conn: nat, allowed: bool, lastTx: map<nat, int>)
    requires Wired(s, w) && SameTimes(s, w, lastTx) && conn !in w.clients && conn !in w.nodes
    ensures Within(s.fanout.slots, w)
    ensures var t, v := Next(cfg, s, Action.Client(Accept(allowed))), w.(clients := w.clients + [conn]);
            var cs := Conns(w, s.fanout.slots);
            && (forall c :: c in cs ==> c in lastTx)
            && var entered := allowed && (|cs| < cfg.maxClients || SomeIdle(cs, lastTx, s.now, cfg.idleEvict));
            && (!entered ==> t == s)
            && (entered ==> Wired(t, v) && Within(t.fanout.slots, v) && t.lastSeen == s.lastSeen + [s.now])
            && (entered && |cs| < cfg.maxClients ==> Conns(v, t.fanout.slots) == cs + [conn])
            && (entered && |cs| >= cfg.maxClients ==>
                  exists stayed :: Server.FirstIdleGone(cs, lastTx, s.now, cfg.idleEvict, stayed)
                    && Conns(v, t.fanout.slots) == stayed + [conn])
  {
    SlotsWithin(s, w);
    IdleFound(s, w, lastTx, cfg.idleEvict);
    var slots := s.fanout.slots;
    if |slots| < cfg.maxClients {
      ConnsEnter(w, slots, conn);
    } else {
      var i := FirstIdle(slots, IdleSlots(s, cfg.idleEvict));
      if i < |slots| {
        ConnsOfStay(w, slots, i);
        ConnsEnter(w, slots[..i] + slots[i + 1..], conn);
      }
    }
  }
}
