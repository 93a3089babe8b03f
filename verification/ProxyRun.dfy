/**
 The fan-out proxy as a state machine. Every action is one stretch of code between two awaits, so any
 interleaving of the tasks of the event loop is a sequence of these actions: the node connection
 coming and going, the upstream loop reading and broadcasting, the handshake watchdogs, the keepalive,
 and one session per client that reads, deframes, waits for the command lock and writes.

 Time is in integer units; the configuration comes from the environment.
 */
module ProxyRun {
  import opened Bytes
  import opened Wrappers
  import opened Deframer
  import opened ProxyTraffic
  import opened ProxyFanout

  datatype Config = Config(maxClients: int, idleEvict: int, minGap: int, maxSilent: int)

  /** Who closed a node connection, and how many bytes it had delivered by then. */
  datatype Closer = Watchdog(conn: nat) | Keepalive(pinged: nat)
  datatype Close = Close(closer: Closer, heard: nat)

  /** Where the watchdog of a connection is: before its second try, before its verdict, finished. */
  datatype Watch = Waiting | Retried | Done

  /** The watchdog of a node connection, and every close of that connection. */
  datatype Guard = Guard(watch: Watch, closes: seq<Close>)

  /** The command lock: the session holding it, the connection it took, and when its pacing sleep is over. */
  datatype Hold = Hold(client: nat, conn: nat, due: int)

  datatype Ping = Ping(conn: nat, before: int)

  datatype State = State(now: int, up: Option<nat>, traffic: Traffic, fanout: Fanout,
                         guards: seq<Guard>, lastSeen: seq<int>,
                         lock: Option<Hold>, lastTx: int, commandTimes: seq<int>,
                         alive: bool, lastRx: int, silent: int, ping: Option<Ping>)

  const INITIAL: State :=
    State(0, None, Traffic([], []), Fanout([], [], [], None, None), [], [], None, 0, [], false, 0, 0, None)

  /** Every number in the state names something that exists; the current connection is the newest one. */
  predicate Known(s: State)
  {
    && |s.traffic.wires| == |s.fanout.inputs| == |s.guards|
    && |s.traffic.desks| == |s.fanout.inboxes| == |s.lastSeen|
    && (s.up.Some? ==> s.up.value == |s.guards| - 1)
    && (s.lock.Some? ==> Waits(s.traffic, s.lock.value.client) && s.lock.value.conn < |s.guards|)
    && Sound(s.fanout)
    && (s.fanout.outbox.Some? ==> s.up.Some?)
  }

  type Proxy = s: State | Known(s) witness INITIAL

  datatype Action = Tick(dt: nat) | Node(node: NodeAction) | Care(care: CareAction) | Client(client: ClientAction)

  datatype NodeAction =
    | Connect
    | Lose
    | NodeData(data: seq<byte>)
    | NodeUnit
    | DeliverNext(wrote: bool, failed: bool)
    | FinishBroadcast

  datatype CareAction =
    | WatchFirst(conn: nat)
    | WatchSecond(conn: nat)
    | PingNode
    | PingCheck

  datatype ClientAction =
    | Accept(allowed: bool)
    | ClientData(session: nat, data: seq<byte>)
    | ClientTake(session: nat, wrote: bool)
    | Acquire(session: nat)
    | WriteUp(wrote: bool)
    | Hangup(session: nat)
    | ReapIdle
    | DropClients

  // ------------------------------------------------------------- the node side

  /** `_send_internal` on the current connection. */
  function SendInternal(s: Proxy, f: seq<byte>): (t: Proxy)
    requires s.up.Some?
  {
    s.(traffic := Inject(s.traffic, s.up.value, f), lastTx := s.now)
  }

  function DoConnect(s: Proxy): (t: Proxy)
  {
    if s.up.Some? then s
    else
      s.(up := Some(|s.guards|), traffic := Open(s.traffic), fanout := OpenInput(s.fanout),
         guards := s.guards + [Guard(Waiting, [])], alive := false, lastTx := s.now)
  }

  function DoNodeData(s: Proxy, data: seq<byte>): (t: Proxy)
  {
    if s.up.None? || data == [] || !CanReceive(s.fanout) then s
    else s.(fanout := Receive(s.fanout, data), alive := true, silent := 0, lastRx := s.now)
  }

  function DoNodeUnit(s: Proxy): (t: Proxy)
  {
    if s.up.None? || !CanReceive(s.fanout) || NextUnit(NODE_MARKER, Last(s.fanout).buf).Wait? then s
    else s.(fanout := Emit(s.fanout))
  }

  function DoDeliver(s: Proxy, wrote: bool, failed: bool): (t: Proxy)
  {
    if !CanDeliver(s.fanout) then s
    else
      var o := s.fanout.outbox.value;
      assert forall c :: c in o.pending[1..] ==> c in o.pending;
      s.(fanout := Deliver(s.fanout, wrote, failed))
  }

  function DoFinish(s: Proxy): (t: Proxy)
  {
    if s.fanout.outbox.None? || s.fanout.outbox.value.pending != [] then s
    else s.(fanout := EndBroadcast(s.fanout))
  }

  /** Half the timeout has passed: try the handshake once more, if this is still the connection to watch. */
  function DoWatchFirst(s: Proxy, k: nat): (t: Proxy)
  {
    if k >= |s.guards| || s.guards[k].watch != Waiting then s
    else if s.alive || s.up != Some(k) then s.(guards := s.guards[k := s.guards[k].(watch := Done)])
    else SendInternal(s, APP_START).(guards := s.guards[k := s.guards[k].(watch := Retried)])
  }

  /** The whole timeout has passed: close, if this is still the connection to watch. */
  function DoWatchSecond(s: Proxy, k: nat): (t: Proxy)
  {
    if k >= |s.guards| || s.guards[k].watch != Retried then s
    else
      var g := s.guards[k].(watch := Done);
      if s.alive || s.up != Some(k) then s.(guards := s.guards[k := g])
      else s.(guards := s.guards[k := g.(closes := g.closes + [Close(Watchdog(k), |Last(s.fanout).received|)])])
  }

  function DoPingNode(s: Proxy): (t: Proxy)
  {
    if s.up.None? || s.lock.Some? || s.ping.Some? then s
    else SendInternal(s, DEVICE_TIME).(ping := Some(Ping(s.up.value, s.lastRx)))
  }

  /** The keepalive's verdict falls on whatever connection is current by then. */
  function DoPingCheck(cfg: Config, s: Proxy): (t: Proxy)
  {
    if s.ping.None? then s
    else
      var p := s.ping.value;
      if s.lastRx > p.before then s.(ping := None)
      else if s.silent + 1 >= cfg.maxSilent && s.up.Some? then
        var g := s.guards[s.up.value];
        var c := Close(Keepalive(p.conn), |Last(s.fanout).received|);
        s.(guards := s.guards[s.up.value := g.(closes := g.closes + [c])], silent := 0, ping := None)
      else s.(silent := s.silent + 1, ping := None)
  }

  function NextNode(s: Proxy, a: NodeAction): (t: Proxy)
  {
    match a
    case Connect => DoConnect(s)
    case Lose => if s.fanout.outbox.Some? then s else s.(up := None)
    case NodeData(data) => DoNodeData(s, data)
    case NodeUnit => DoNodeUnit(s)
    case DeliverNext(wrote, failed) => DoDeliver(s, wrote, failed)
    case FinishBroadcast => DoFinish(s)
  }

  /** The watchdogs and the keepalive. */
  function NextCare(cfg: Config, s: Proxy, a: CareAction): (t: Proxy)
  {
    match a
    case WatchFirst(k) => DoWatchFirst(s, k)
    case WatchSecond(k) => DoWatchSecond(s, k)
    case PingNode => DoPingNode(s)
    case PingCheck => DoPingCheck(cfg, s)
  }

  // ----------------------------------------------------------- the client side

  predicate Idle(s: Proxy, c: nat, limit: int)
  {
    c < |s.lastSeen| && s.now - s.lastSeen[c] > limit
  }

  /** The slots of sessions that have been silent for longer than the limit. */
  function IdleSlots(s: Proxy, limit: int): (idle: set<nat>)
  {
    set c | c in s.fanout.slots && Idle(s, c, limit)
  }

  /** Which slots stay when a new client knocks: all of them, all but one idle one, or none may enter. */
  function Room(cfg: Config, s: Proxy): (stay: Option<seq<nat>>)
    ensures stay.Some? ==> Distinct(stay.value) && forall c :: c in stay.value ==> c in s.fanout.slots
  {
    var slots := s.fanout.slots;
    if |slots| < cfg.maxClients then Some(slots)
    else
      var i := FirstIdle(slots, IdleSlots(s, cfg.idleEvict));
      if i == |slots| then None else Some(slots[..i] + slots[i + 1..])
  }

  /** Admission: the allow-list, then a free slot, then the slot of the first idle session, else refusal. */
  function DoAccept(cfg: Config, s: Proxy, allowed: bool): (t: Proxy)
  {
    var room := Room(cfg, s);
    if !allowed || room.None? then s
    else
      var stay := room.value;
      assert forall i :: 0 <= i < |stay| ==> stay[i] in stay;
      s.(traffic := Join(s.traffic), fanout := Enter(s.fanout, stay), lastSeen := s.lastSeen + [s.now])
  }

  function DoClientData(s: Proxy, c: nat, data: seq<byte>): (t: Proxy)
  {
    if !CanRead(s.traffic, c) || data == [] then s
    else
      s.(traffic := Read(s.traffic, c, data),
         lastSeen := if c in s.fanout.slots then s.lastSeen[c := s.now] else s.lastSeen)
  }

  /** The session takes its next unit: a handshake is answered from the cache, the rest wants the lock. */
  function DoClientTake(s: Proxy, c: nat, wrote: bool): (t: Proxy)
  {
    if !CanRead(s.traffic, c) || NextUnit(CLIENT_MARKER, s.traffic.desks[c].buf).Wait? then s
    else if IsAppStart(NextUnit(CLIENT_MARKER, s.traffic.desks[c].buf).unit) && s.fanout.selfInfo.Some? then
      s.(traffic := TakeUnit(s.traffic, c, true), fanout := if wrote then Answer(s.fanout, c) else s.fanout)
    else s.(traffic := TakeUnit(s.traffic, c, false))
  }

  /** `_exchange`, first half: under the lock, take the current connection and work out the pacing sleep. */
  function DoAcquire(cfg: Config, s: Proxy, c: nat): (t: Proxy)
  {
    if !Waits(s.traffic, c) || s.lock.Some? then s
    else if s.up.None? then s.(traffic := Settle(s.traffic, c, Dropped))
    else s.(lock := Some(Hold(c, s.up.value, s.lastTx + cfg.minGap)))
  }

  /** `_exchange`, second half: after the sleep, write to the connection taken before it. */
  function DoWriteUp(s: Proxy, wrote: bool): (t: Proxy)
  {
    if s.lock.None? || s.now < s.lock.value.due then s
    else
      var h := s.lock.value;
      s.(lock := None, lastTx := s.now, commandTimes := s.commandTimes + [s.now],
         traffic := if wrote then Write(s.traffic, h.client, h.conn) else Settle(s.traffic, h.client, Dropped))
  }

  function DoHangup(s: Proxy, c: nat): (t: Proxy)
  {
    if c >= |s.lastSeen| || Waits(s.traffic, c) then s
    else s.(traffic := Leave(s.traffic, c), fanout := s.fanout.(slots := Without(s.fanout.slots, {c})))
  }

  function DoReapIdle(cfg: Config, s: Proxy): (t: Proxy)
  {
    if s.up.None? || s.lock.Some? then s
    else
      s.(fanout := s.fanout.(slots := Without(s.fanout.slots, IdleSlots(s, cfg.idleEvict * 3))))
  }

  function NextClient(cfg: Config, s: Proxy, a: ClientAction): (t: Proxy)
  {
    match a
    case Accept(allowed) => DoAccept(cfg, s, allowed)
    case ClientData(c, data) => DoClientData(s, c, data)
    case ClientTake(c, wrote) => DoClientTake(s, c, wrote)
    case Acquire(c) => DoAcquire(cfg, s, c)
    case WriteUp(wrote) => DoWriteUp(s, wrote)
    case Hangup(c) => DoHangup(s, c)
    case ReapIdle => DoReapIdle(cfg, s)
    case DropClients => s.(fanout := s.fanout.(slots := []))
  }

  function Next(cfg: Config, s: Proxy, a: Action): (t: Proxy)
  {
    match a
    case Tick(dt) => s.(now := s.now + dt)
    case Node(n) => NextNode(s, n)
    case Care(n) => NextCare(cfg, s, n)
    case Client(c) => NextClient(cfg, s, c)
  }

  /** A run: the actions in order, from a given state. */
  function RunFrom(cfg: Config, s: Proxy, run: seq<Action>): (t: Proxy)
  {
    if run == [] then s
    else Next(cfg, RunFrom(cfg, s, run[..|run| - 1]), run[|run| - 1])
  }

  function Run(cfg: Config, run: seq<Action>): (t: Proxy)
  {
    RunFrom(cfg, INITIAL, run)
  }

  // ------------------------------------------------------------- invariants

  /** Client commands are at least the configured gap apart, and the one in its sleep will be too. */
  ghost predicate Paced(cfg: Config, s: Proxy)
  {
    var ts := s.commandTimes;
    && (forall i :: 0 <= i < |ts| - 1 ==> ts[i + 1] - ts[i] >= cfg.minGap)
    && s.lastTx <= s.now
    && (ts != [] ==> ts[|ts| - 1] <= s.lastTx)
    && (ts != [] && s.lock.Some? ==> s.lock.value.due - ts[|ts| - 1] >= cfg.minGap)
  }

  ghost predicate SlotsBounded(cfg: Config, s: Proxy)
  {
    |s.fanout.slots| <= if cfg.maxClients < 0 then 0 else cfg.maxClients
  }

  /** A watchdog closes only the connection it was started for, and only while that has delivered nothing. */
  ghost predicate WatchedOnly(g: Guard, k: nat)
  {
    forall c :: c in g.closes && c.closer.Watchdog? ==> c == Close(Watchdog(k), 0)
  }

  ghost predicate Guarded(s: Proxy)
  {
    && (s.up.Some? && !s.alive ==> Last(s.fanout).received == [])
    && (forall k :: 0 <= k < |s.guards| ==> WatchedOnly(s.guards[k], k))
  }
}
