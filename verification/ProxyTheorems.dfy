/**
 What every run of the proxy keeps, and what follows for the node and for the clients. Each action
 keeps each invariant from every state that satisfies it; the theorems at the end hold for every run,
 that is for every interleaving, from start-up.
 */
module ProxyTheorems {
  import opened Bytes
  import opened Wrappers
  import opened Deframer
  import opened ProxyTraffic
  import opened ProxyFanout
  import opened ProxyRun

  // ------------------------------------------------------------- each action

  lemma NodeTraffic(s: Proxy, a: NodeAction)
    requires TrafficInv(s.traffic)
    ensures TrafficInv(NextNode(s, a).traffic)
  {
    if NextNode(s, a).traffic != s.traffic {
      OpenKeeps(s.traffic);
    }
  }

  lemma CareTraffic(cfg: Config, s: Proxy, a: CareAction)
    requires TrafficInv(s.traffic)
    ensures TrafficInv(NextCare(cfg, s, a).traffic)
  {
    if NextCare(cfg, s, a).traffic != s.traffic {
      ConstantsAreFrames();
      InjectKeeps(s.traffic, s.up.value, if a.PingNode? then DEVICE_TIME else APP_START);
    }
  }

  lemma ClientTraffic(cfg: Config, s: Proxy, a: ClientAction)
    requires TrafficInv(s.traffic)
    ensures TrafficInv(NextClient(cfg, s, a).traffic)
  {
    var t := NextClient(cfg, s, a);
    if t.traffic != s.traffic {
      match a
      case Accept(_) => JoinKeeps(s.traffic);
      case ClientData(c, data) => ReadKeeps(s.traffic, c, data);
      case ClientTake(c, _) => TakeKeeps(s.traffic, c, true); TakeKeeps(s.traffic, c, false);
      case Acquire(c) => DropKeeps(s.traffic, c);
      case WriteUp(wrote) =>
        var h := s.lock.value;
        if wrote { WriteKeeps(s.traffic, h.client, h.conn); } else { DropKeeps(s.traffic, h.client); }
      case Hangup(c) => LeaveKeeps(s.traffic, c);
      case _ =>
    }
  }

  lemma NodeFanout(s: Proxy, a: NodeAction)
    requires FanoutInv(s.fanout)
    ensures FanoutInv(NextNode(s, a).fanout)
  {
    var t := NextNode(s, a);
    if t.fanout != s.fanout {
      match a
      case Connect => OpenInputKeeps(s.fanout);
      case NodeData(data) => ReceiveKeeps(s.fanout, data);
      case NodeUnit => EmitKeeps(s.fanout);
      case DeliverNext(wrote, failed) => DeliverKeeps(s.fanout, wrote, failed);
      case FinishBroadcast => EndKeeps(s.fanout);
      case _ =>
    }
  }

  lemma CareFanout(cfg: Config, s: Proxy, a: CareAction)
    ensures NextCare(cfg, s, a).fanout == s.fanout
  {
  }

  lemma ClientFanout(cfg: Config, s: Proxy, a: ClientAction)
    requires FanoutInv(s.fanout)
    ensures FanoutInv(NextClient(cfg, s, a).fanout)
  {
    var t := NextClient(cfg, s, a);
    if t.fanout != s.fanout {
      match a
      case Accept(_) => EnterKeeps(s.fanout, Room(cfg, s).value);
      case ClientTake(c, _) => AnswerKeeps(s.fanout, c);
      case _ => ShrinkKeeps(s.fanout, t.fanout.slots);
    }
  }

  lemma NodePaced(cfg: Config, s: Proxy, a: NodeAction)
    requires Paced(cfg, s)
    ensures Paced(cfg, NextNode(s, a))
  {
  }

  lemma CarePaced(cfg: Config, s: Proxy, a: CareAction)
    requires Paced(cfg, s)
    ensures Paced(cfg, NextCare(cfg, s, a))
  {
  }

  lemma WriteUpPaced(cfg: Config, s: Proxy, wrote: bool)
    requires Paced(cfg, s)
    ensures Paced(cfg, DoWriteUp(s, wrote))
  {
  }

  lemma ClientPaced(cfg: Config, s: Proxy, a: ClientAction)
    requires Paced(cfg, s)
    ensures Paced(cfg, NextClient(cfg, s, a))
  {
    if a.WriteUp? {
      WriteUpPaced(cfg, s, a.wrote);
    } else {
      assert NextClient(cfg, s, a).commandTimes == s.commandTimes && NextClient(cfg, s, a).lastTx == s.lastTx;
    }
  }

  lemma NodeGuarded(cfg: Config, s: Proxy, a: NodeAction)
    requires Guarded(s)
    ensures Guarded(NextNode(s, a))
  {
  }

  lemma WatchGuarded(s: Proxy, k: nat)
    requires Guarded(s)
    ensures Guarded(DoWatchFirst(s, k)) && Guarded(DoWatchSecond(s, k))
  {
  }

  lemma PingGuarded(cfg: Config, s: Proxy)
    requires Guarded(s)
    ensures Guarded(DoPingNode(s)) && Guarded(DoPingCheck(cfg, s))
  {
  }

  lemma CareGuarded(cfg: Config, s: Proxy, a: CareAction)
    requires Guarded(s)
    ensures Guarded(NextCare(cfg, s, a))
  {
    match a
    case WatchFirst(k) => WatchGuarded(s, k);
    case WatchSecond(k) => WatchGuarded(s, k);
    case _ => PingGuarded(cfg, s);
  }

  lemma ClientGuarded(cfg: Config, s: Proxy, a: ClientAction)
    requires Guarded(s)
    ensures Guarded(NextClient(cfg, s, a))
  {
  }

  lemma NodeSlots(cfg: Config, s: Proxy, a: NodeAction)
    requires SlotsBounded(cfg, s)
    ensures SlotsBounded(cfg, NextNode(s, a))
  {
  }

  lemma ClientSlots(cfg: Config, s: Proxy, a: ClientAction)
    requires SlotsBounded(cfg, s)
    ensures SlotsBounded(cfg, NextClient(cfg, s, a))
  {
  }

  // ---------------------------------------------------------------- every run

  ghost predicate Inv(cfg: Config, s: Proxy)
  {
    TrafficInv(s.traffic) && FanoutInv(s.fanout) && Paced(cfg, s) && Guarded(s) && SlotsBounded(cfg, s)
  }

  lemma StepKeeps(cfg: Config, s: Proxy, a: Action)
    requires Inv(cfg, s)
    ensures Inv(cfg, Next(cfg, s, a))
  {
    match a
    case Tick(_) =>
    case Node(n) =>
      NodeTraffic(s, n);
      NodeFanout(s, n);
      NodePaced(cfg, s, n);
      NodeGuarded(cfg, s, n);
      NodeSlots(cfg, s, n);
    case Care(n) =>
      CareTraffic(cfg, s, n);
      CareFanout(cfg, s, n);
      CarePaced(cfg, s, n);
      CareGuarded(cfg, s, n);
    case Client(c) =>
      ClientTraffic(cfg, s, c);
      ClientFanout(cfg, s, c);
      ClientPaced(cfg, s, c);
      ClientGuarded(cfg, s, c);
      ClientSlots(cfg, s, c);
  }

  lemma {:induction false} EveryRun(cfg: Config, run: seq<Action>)
    ensures Inv(cfg, Run(cfg, run))
    decreases |run|
  {
    if run != [] {
      EveryRun(cfg, run[..|run| - 1]);
      StepKeeps(cfg, Run(cfg, run[..|run| - 1]), run[|run| - 1]);
    }
  }

  /**
   No cross-client desync. In every interleaving, a node that deframes what reaches it over connection
   `k`, cut into reads in any way, gets exactly the frames the proxy wrote there, in that order; and
   each client's units are on the connection in the order that client sent them.
   */
  lemma NoDesync(cfg: Config, run: seq<Action>, k: nat, chunks: seq<seq<byte>>)
    requires k < |Run(cfg, run).traffic.wires|
    requires Concat(chunks) == Flatten(Units(Run(cfg, run).traffic.wires[k]))
    ensures var t := Run(cfg, run).traffic;
            var d := FeedAll(CLIENT_MARKER, [], chunks);
            && Frames(d.units) == Frames(Units(t.wires[k]))
            && |d.rest| < 3 && MarkerFree(CLIENT_MARKER, d.rest)
            && forall c :: 0 <= c < |t.desks| ==> SentBy(t.wires[k], c) == WrittenTo(t.desks[c].handled, k)
  {
    EveryRun(cfg, run);
    NodeRecovers(Run(cfg, run).traffic.wires[k], chunks);
  }

  /** No command is invented, split or reordered: the frames of a client's own stream, with their fates, in order. */
  lemma CommandsAccounted(cfg: Config, run: seq<Action>, c: nat)
    requires c < |Run(cfg, run).traffic.desks|
    ensures var d := Run(cfg, run).traffic.desks[c];
            && Flatten(Taken(d)) + d.buf == d.received
            && Parse(CLIENT_MARKER, d.received).frames == Frames(Taken(d)) + Parse(CLIENT_MARKER, d.buf).frames
  {
    EveryRun(cfg, run);
    ClientFrames(Run(cfg, run).traffic.desks[c]);
  }

  /**
   What client `c` makes of its stream: exactly the frames it was sent, and among them a gapless stretch of
   all broadcasts from its admission on. While it keeps its slot and no broadcast is under way, that stretch
   runs to the last broadcast.
   */
  ghost predicate Sees(f: Fanout, c: nat, chunks: seq<seq<byte>>)
    requires c < |f.inboxes|
  {
    var b, all := f.inboxes[c], AllEmitted(f.inputs);
    var d := FeedAll(NODE_MARKER, [], chunks);
    && Frames(d.units) == Frames(DeliveredUnits(b.got))
    && |d.rest| < 3 && MarkerFree(NODE_MARKER, d.rest)
    && b.joined + |Broadcasts(b.got)| <= |all|
    && Broadcasts(b.got) == all[b.joined..b.joined + |Broadcasts(b.got)|]
    && (c in f.slots && f.outbox.None? ==> Broadcasts(b.got) == all[b.joined..])
  }

  lemma FanoutSees(f: Fanout, c: nat, chunks: seq<seq<byte>>)
    requires FanoutInv(f) && c < |f.inboxes|
    requires Concat(chunks) == Flatten(DeliveredUnits(f.inboxes[c].got))
    ensures Sees(f, c, chunks)
  {
    assert f.inboxes[c] in f.inboxes;
    ClientRecovers(f.inboxes[c], AllEmitted(f.inputs), chunks);
    assert c in f.slots && f.outbox.None? ==> UpToDate(f, c);
  }

  /** No desync towards a client, in any interleaving, whenever it joined and however its stream is cut. */
  lemma ClientSees(cfg: Config, run: seq<Action>, c: nat, chunks: seq<seq<byte>>)
    requires c < |Run(cfg, run).fanout.inboxes|
    requires Concat(chunks) == Flatten(DeliveredUnits(Run(cfg, run).fanout.inboxes[c].got))
    ensures Sees(Run(cfg, run).fanout, c, chunks)
  {
    EveryRun(cfg, run);
    FanoutSees(Run(cfg, run).fanout, c, chunks);
  }

  /** What was broadcast from a node connection is what the node sent: its frames, in order, nothing else. */
  lemma ResponsesAccounted(cfg: Config, run: seq<Action>, k: nat)
    requires k < |Run(cfg, run).fanout.inputs|
    ensures var i := Run(cfg, run).fanout.inputs[k];
            && Flatten(i.emitted) + i.buf == i.received
            && Parse(NODE_MARKER, i.received).frames == Frames(i.emitted) + Parse(NODE_MARKER, i.buf).frames
  {
    EveryRun(cfg, run);
    var i := Run(cfg, run).fanout.inputs[k];
    assert InputAccounted(i);
    ParseUnits(NODE_MARKER, i.emitted, i.buf);
  }

  /** Pacing: any two client commands are written at least the configured gap apart, on whatever connections. */
  lemma CommandsPaced(cfg: Config, run: seq<Action>, i: nat, j: nat)
    requires i < j < |Run(cfg, run).commandTimes|
    requires cfg.minGap >= 0
    ensures Run(cfg, run).commandTimes[j] - Run(cfg, run).commandTimes[i] >= cfg.minGap
    decreases j
  {
    EveryRun(cfg, run);
    if i + 1 < j {
      CommandsPaced(cfg, run, i, j - 1);
    }
  }

  /** The slots never exceed the configured number, and a client never has two. */
  lemma SlotsWithinLimit(cfg: Config, run: seq<Action>)
    requires cfg.maxClients >= 0
    ensures |Run(cfg, run).fanout.slots| <= cfg.maxClients
    ensures Distinct(Run(cfg, run).fanout.slots)
  {
    EveryRun(cfg, run);
  }

  /** A watchdog closes no connection but its own, and that one only if it has delivered nothing at all. */
  lemma WatchdogSpares(cfg: Config, run: seq<Action>, k: nat, c: Close)
    requires k < |Run(cfg, run).guards|
    requires c in Run(cfg, run).guards[k].closes && c.closer.Watchdog?
    ensures c.closer.conn == k && c.heard == 0
  {
    EveryRun(cfg, run);
    assert WatchedOnly(Run(cfg, run).guards[k], k);
  }

  // ---------------------------------------------------- the cached handshake

  /** No session of `t` that was there in `s` has let a handshake past the cache since, and no new one has. */
  ghost predicate StartsKept(s: Traffic, t: Traffic)
  {
    && |s.desks| <= |t.desks|
    && (forall c :: 0 <= c < |t.desks| ==>
          PassedStarts(t.desks[c]) == if c < |s.desks| then PassedStarts(s.desks[c]) else [])
  }

  lemma TakeStarts(t: Traffic, c: nat, answered: bool)
    requires CanRead(t, c) && NextUnit(CLIENT_MARKER, t.desks[c].buf).Take?
    requires answered || !IsAppStart(NextUnit(CLIENT_MARKER, t.desks[c].buf).unit)
    ensures StartsKept(t, TakeUnit(t, c, answered))
  {
  }

  lemma SettleStarts(t: Traffic, c: nat, fate: Fate)
    requires Waits(t, c) && fate != Answered
    ensures StartsKept(t, Settle(t, c, fate))
  {
  }

  lemma NodeStarts(s: Proxy, a: NodeAction)
    requires s.fanout.selfInfo.Some?
    ensures StartsKept(s.traffic, NextNode(s, a).traffic) && NextNode(s, a).fanout.selfInfo.Some?
  {
    assert NextNode(s, a).traffic.desks == s.traffic.desks;
  }

  lemma CareStarts(cfg: Config, s: Proxy, a: CareAction)
    requires s.fanout.selfInfo.Some?
    ensures StartsKept(s.traffic, NextCare(cfg, s, a).traffic) && NextCare(cfg, s, a).fanout.selfInfo.Some?
  {
    assert NextCare(cfg, s, a).traffic.desks == s.traffic.desks;
  }

  lemma ClientStarts(cfg: Config, s: Proxy, a: ClientAction)
    requires s.fanout.selfInfo.Some?
    ensures StartsKept(s.traffic, NextClient(cfg, s, a).traffic) && NextClient(cfg, s, a).fanout.selfInfo.Some?
  {
    var t := NextClient(cfg, s, a);
    if t.traffic != s.traffic {
      match a
      case ClientTake(c, _) =>
        TakeStarts(s.traffic, c, IsAppStart(NextUnit(CLIENT_MARKER, s.traffic.desks[c].buf).unit));
      case Acquire(c) => SettleStarts(s.traffic, c, Dropped);
      case WriteUp(wrote) =>
        SettleStarts(s.traffic, s.lock.value.client, if wrote then Written(s.lock.value.conn) else Dropped);
      case _ =>
    }
  }

  /**
   Once the node's SELF_INFO is cached, whatever happens next, no handshake of any client gets past the
   cache any more: those already under way stay what they were, and no client adds one.
   */
  lemma {:induction false} HandshakesAnswered(cfg: Config, s: Proxy, run: seq<Action>)
    requires s.fanout.selfInfo.Some?
    ensures StartsKept(s.traffic, RunFrom(cfg, s, run).traffic) && RunFrom(cfg, s, run).fanout.selfInfo.Some?
    decreases |run|
  {
    if run != [] {
      var u := RunFrom(cfg, s, run[..|run| - 1]);
      HandshakesAnswered(cfg, s, run[..|run| - 1]);
      match run[|run| - 1]
      case Tick(_) =>
      case Node(a) => NodeStarts(u, a);
      case Care(a) => CareStarts(cfg, u, a);
      case Client(a) => ClientStarts(cfg, u, a);
    }
  }

  // ------------------------------------------------- what the keepalive may do

  lemma RunOneMore(cfg: Config, run: seq<Action>, a: Action)
    ensures Run(cfg, run + [a]) == Next(cfg, Run(cfg, run), a)
  {
    assert (run + [a])[..|run|] == run;
  }

  /**
   The keepalive's verdict, from any state: it closes a connection exactly when nothing came since the
   ping, it is the last silent round allowed, and that connection is the current one, pinged or not.
   */
  lemma KeepaliveVerdict(cfg: Config, s: Proxy, k: nat)
    requires k < |s.guards|
    ensures var t := Next(cfg, s, Care(PingCheck));
            && (t.guards[k].closes != s.guards[k].closes <==>
                && s.ping.Some? && s.lastRx <= s.ping.value.before
                && s.silent + 1 >= cfg.maxSilent && s.up == Some(k))
            && (t.guards[k].closes != s.guards[k].closes ==>
                t.guards[k].closes
                == s.guards[k].closes + [Close(Keepalive(s.ping.value.conn), |Last(s.fanout).received|)])
  {
    var t := Next(cfg, s, Care(PingCheck));
    if t.guards[k] != s.guards[k] {
      assert |t.guards[k].closes| == |s.guards[k].closes| + 1;
    }
  }

  /** Some step of the run opens a connection to the node. */
  predicate Opens(cfg: Config, s: Proxy, run: seq<Action>)
    decreases |run|
  {
    && run != []
    && var before, last := run[..|run| - 1], run[|run| - 1];
       Opens(cfg, s, before) || (last == Node(Connect) && RunFrom(cfg, s, before).up.None?)
  }

  lemma NodeOpens(s: Proxy, a: NodeAction)
    ensures |NextNode(s, a).guards| == |s.guards| + (if a.Connect? && s.up.None? then 1 else 0)
    ensures NextNode(s, a).ping == s.ping
  {
  }

  lemma CareOpens(cfg: Config, s: Proxy, a: CareAction)
    ensures |NextCare(cfg, s, a).guards| == |s.guards|
    ensures s.ping.Some? && !a.PingCheck? ==> NextCare(cfg, s, a).ping == s.ping
  {
  }

  lemma ClientOpens(cfg: Config, s: Proxy, a: ClientAction)
    ensures NextClient(cfg, s, a).guards == s.guards && NextClient(cfg, s, a).ping == s.ping
  {
  }

  /** What a step does to the connections, and to a ping under way. */
  lemma GuardsStep(cfg: Config, s: Proxy, a: Action)
    ensures |Next(cfg, s, a).guards| == |s.guards| + (if a == Node(Connect) && s.up.None? then 1 else 0)
    ensures s.ping.Some? && a != Care(PingCheck) ==> Next(cfg, s, a).ping == s.ping
  {
    match a
    case Tick(_) =>
    case Node(n) => NodeOpens(s, n);
    case Care(c) => CareOpens(cfg, s, c);
    case Client(c) => ClientOpens(cfg, s, c);
  }

  /** Connections are numbered as they open. */
  lemma {:induction false} OpensIffMore(cfg: Config, s: Proxy, run: seq<Action>)
    ensures |RunFrom(cfg, s, run).guards| >= |s.guards|
    ensures |RunFrom(cfg, s, run).guards| > |s.guards| <==> Opens(cfg, s, run)
    decreases |run|
  {
    if run != [] {
      var before := run[..|run| - 1];
      OpensIffMore(cfg, s, before);
      GuardsStep(cfg, RunFrom(cfg, s, before), run[|run| - 1]);
    }
  }

  lemma {:induction false} PingLasts(cfg: Config, s: Proxy, run: seq<Action>)
    requires s.ping.Some? && Care(PingCheck) !in run
    ensures RunFrom(cfg, s, run).ping == s.ping
    decreases |run|
  {
    if run != [] {
      var before := run[..|run| - 1];
      assert forall a :: a in before ==> a in run;
      PingLasts(cfg, s, before);
      GuardsStep(cfg, RunFrom(cfg, s, before), run[|run| - 1]);
    }
  }

  /**
   Whom the keepalive hits: from a ping to its verdict, whatever happens in between, a close falls on the
   pinged connection if and only if no connection was opened meanwhile; otherwise it falls on a newer one.
   */
  lemma KeepaliveHitsPingedIff(cfg: Config, s: Proxy, mid: seq<Action>, k: nat)
    requires s.up.Some? && s.lock.None? && s.ping.None? && Care(PingCheck) !in mid
    requires var t := RunFrom(cfg, Next(cfg, s, Care(PingNode)), mid);
             k < |t.guards| && Next(cfg, t, Care(PingCheck)).guards[k].closes != t.guards[k].closes
    ensures k == s.up.value <==> !Opens(cfg, Next(cfg, s, Care(PingNode)), mid)
    ensures k >= s.up.value
    ensures var t := RunFrom(cfg, Next(cfg, s, Care(PingNode)), mid);
            Next(cfg, t, Care(PingCheck)).guards[k].closes
            == t.guards[k].closes + [Close(Keepalive(s.up.value), |Last(t.fanout).received|)]
  {
    var pinged := Next(cfg, s, Care(PingNode));
    PingLasts(cfg, pinged, mid);
    OpensIffMore(cfg, pinged, mid);
    KeepaliveVerdict(cfg, RunFrom(cfg, pinged, mid), k);
  }

  /** A connected proxy on its first connection, to which the node has said nothing for `n` rounds. */
  predicate SilentSince(s: Proxy, n: nat)
  {
    && s.up == Some(0) && |s.guards| == 1 && s.guards[0].closes == [] && s.lock.None? && s.ping.None?
    && s.fanout.outbox.None? && s.lastRx == 0 && s.silent == n && Last(s.fanout).received == []
  }

  lemma {:induction false} SilentRounds(cfg: Config, n: nat) returns (run: seq<Action>)
    requires n == 0 || n < cfg.maxSilent
    ensures SilentSince(Run(cfg, run), n)
  {
    if n == 0 {
      run := [] + [Node(Connect)];
      RunOneMore(cfg, [], Node(Connect));
    } else {
      var r := SilentRounds(cfg, n - 1);
      run := r + [Care(PingNode)] + [Care(PingCheck)];
      RunOneMore(cfg, r, Care(PingNode));
      RunOneMore(cfg, r + [Care(PingNode)], Care(PingCheck));
    }
  }

  /** After a ping that is not answered the connection is lost and another one opened. */
  lemma TakenOver(cfg: Config, s: Proxy, n: nat)
    requires SilentSince(s, n)
    ensures var t := Next(cfg, Next(cfg, Next(cfg, s, Care(PingNode)), Node(Lose)), Node(Connect));
            && |t.guards| == 2 && t.guards[1].closes == [] && t.up == Some(1) && Last(t.fanout).received == []
            && t.ping == Some(Ping(0, 0)) && t.lastRx == 0 && t.silent == n
  {
  }

  /** Unlike the watchdog, the keepalive may close a connection newer than the one it pinged, whatever the settings. */
  lemma KeepaliveMayHitNewer(cfg: Config)
    ensures exists run :: |Run(cfg, run).guards| == 2 && Run(cfg, run).guards[1].closes == [Close(Keepalive(0), 0)]
  {
    var n := if cfg.maxSilent <= 1 then 0 else cfg.maxSilent - 1;
    var r1 := SilentRounds(cfg, n);
    var r2 := r1 + [Care(PingNode)];
    var r3 := r2 + [Node(Lose)];
    var r4 := r3 + [Node(Connect)];
    var r5 := r4 + [Care(PingCheck)];
    RunOneMore(cfg, r1, Care(PingNode));
    RunOneMore(cfg, r2, Node(Lose));
    RunOneMore(cfg, r3, Node(Connect));
    RunOneMore(cfg, r4, Care(PingCheck));
    TakenOver(cfg, Run(cfg, r1), n);
    var s4 := Run(cfg, r4);
    KeepaliveVerdict(cfg, s4, 1);
    assert |Run(cfg, r5).guards| == 2;
  }
}
