/**
 The methods of the proxy's class, with its fields updated in place: broadcasting with the removal of
 dead clients, the exchange with the node, admission, and the two reading loops. Each is proved against
 a function of its inputs and the old state, with no other task running in between; what may happen
 in between is the business of the state machine in ProxyRun, and ProxyUndisturbed ties the two.

 Connections are numbers. The writes on all of them are kept in `log` in the order they happen, and a
 write to one of the `broken` ones raises; both stand for the network.
 */
module ProxyServer {
  import opened Bytes
  import opened Seqs
  import opened Wrappers
  import opened Deframer
  import Traffic = ProxyTraffic
  import opened ProxyFanout

  datatype Write = Write(conn: nat, unit: Unit)

  /** What one connection was sent, in order. */
  function SentTo(log: seq<Write>, c: nat): (us: seq<Unit>)
  {
    if log == [] then []
    else (if log[0].conn == c then [log[0].unit] else []) + SentTo(log[1..], c)
  }

  lemma {:induction false} SentToConcat(a: seq<Write>, b: seq<Write>, c: nat)
    ensures SentTo(a + b, c) == SentTo(a, c) + SentTo(b, c)
  {
    if a == [] {
      Empty(b);
      Empty(SentTo(b, c));
    } else {
      ConsConcat(a, b);
      SentToConcat(a[1..], b, c);
      Assoc(if a[0].conn == c then [a[0].unit] else [], SentTo(a[1..], c), SentTo(b, c));
    }
  }

  // ------------------------------------------------------------ a session's read

  /** What a session does with its buffer: the writes, and what stays in the buffer. */
  datatype Served = Served(writes: seq<Write>, rest: seq<byte>)

  /** The world of a session: its own connection, the node's if it can be reached, and the cached handshake. */
  datatype Session = Session(own: nat, broken: bool, node: Option<nat>, info: Option<seq<byte>>)

  predicate Answers(s: Session, u: Unit)
  {
    s.info.Some? && Traffic.IsAppStart(u)
  }

  /** Where one unit goes. */
  function Served1(s: Session, u: Unit): (ws: seq<Write>)
  {
    if Answers(s, u) then (if s.broken then [] else [Write(s.own, Frame(s.info.value))])
    else if s.node.Some? then [Write(s.node.value, u)]
    else []
  }

  /** The session's loop as a function; an answer that cannot be written ends it with the frame gone. */
  function Serve(s: Session, buf: seq<byte>): (r: Served)
    decreases |buf|
  {
    match NextUnit(CLIENT_MARKER, buf)
    case Wait => Served([], buf)
    case Take(unit, rest) =>
      if Answers(s, unit) && s.broken then Served([], rest)
      else var r := Serve(s, rest); Served(Served1(s, unit) + r.writes, r.rest)
  }

  /** Where a session that has the log so far ends up with its buffer. */
  function Goal(s: Session, buf: seq<byte>, log: seq<Write>): (g: Served)
  {
    Served(log + Serve(s, buf).writes, Serve(s, buf).rest)
  }

  lemma GoalTurn(s: Session, buf: seq<byte>, log: seq<Write>)
    requires NextUnit(CLIENT_MARKER, buf).Take?
    ensures var n := NextUnit(CLIENT_MARKER, buf);
            var more := log + Served1(s, n.unit);
            Goal(s, buf, log) == if Answers(s, n.unit) && s.broken then Served(more, n.rest) else Goal(s, n.rest, more)
  {
    var n := NextUnit(CLIENT_MARKER, buf);
    Assoc(log, Served1(s, n.unit), Serve(s, n.rest).writes);
    Empty(log);
  }

  function Forwarded(us: seq<Unit>, s: Session): (r: seq<Unit>)
  {
    if us == [] then []
    else (if Answers(s, us[0]) then [] else [us[0]]) + Forwarded(us[1..], s)
  }

  /**
   On a working connection with the node up, the loop drains the buffer: the node gets every unit but
   the answered handshakes, in order, and the client one cached reply for each of those.
   */
  lemma {:induction false} ServeDrains(s: Session, buf: seq<byte>)
    requires !s.broken && s.node.Some? && s.node.value != s.own
    ensures var r, d := Serve(s, buf), Drain(CLIENT_MARKER, buf);
            && r.rest == d.rest
            && SentTo(r.writes, s.node.value) == Forwarded(d.units, s)
            && |SentTo(r.writes, s.own)| == |d.units| - |Forwarded(d.units, s)|
            && forall u :: u in SentTo(r.writes, s.own) ==> s.info.Some? && u == Frame(s.info.value)
    decreases |buf|
  {
    match NextUnit(CLIENT_MARKER, buf)
    case Wait =>
    case Take(unit, rest) =>
      ServeDrains(s, rest);
      var d, r := Drain(CLIENT_MARKER, rest), Serve(s, rest);
      Cons(unit, d.units);
      SentToConcat(Served1(s, unit), r.writes, s.node.value);
      SentToConcat(Served1(s, unit), r.writes, s.own);
  }

  // --------------------------------------------------------- the node's read

  /** One unit to each of these clients. */
  function Fan(clients: seq<nat>, u: Unit): (ws: seq<Write>)
  {
    if clients == [] then [] else [Write(clients[0], u)] + Fan(clients[1..], u)
  }

  /** Each of these units to each of these clients. */
  function FanAll(clients: seq<nat>, us: seq<Unit>): (ws: seq<Write>)
  {
    if us == [] then [] else Fan(clients, us[0]) + FanAll(clients, us[1..])
  }

  /** The SELF_INFO cached after a series of units: the last one among them, if any. */
  function Cached(us: seq<Unit>, info: Option<seq<byte>>): (r: Option<seq<byte>>)
  {
    if us == [] then info
    else Cached(us[1..], if IsSelfInfo(us[0]) then Some(us[0].bytes) else info)
  }

  /** What the upstream loop brings about: the writes, the cached SELF_INFO and the bytes left over. */
  datatype Relayed = Relayed(log: seq<Write>, info: Option<seq<byte>>, rest: seq<byte>)

  /** Where the upstream loop ends up from a buffer, a log and a cached SELF_INFO. */
  function Relay(live: seq<nat>, buf: seq<byte>, log: seq<Write>, info: Option<seq<byte>>): (r: Relayed)
  {
    var d := Drain(NODE_MARKER, buf);
    Relayed(log + FanAll(live, d.units), Cached(d.units, info), d.rest)
  }

  lemma RelayTurn(live: seq<nat>, buf: seq<byte>, log: seq<Write>, info: Option<seq<byte>>)
    ensures var n := NextUnit(NODE_MARKER, buf);
            Relay(live, buf, log, info)
            == if n.Wait? then Relayed(log, info, buf)
               else Relay(live, n.rest, log + Fan(live, n.unit), Cached([n.unit], info))
  {
    var n := NextUnit(NODE_MARKER, buf);
    if n.Wait? {
      Empty(log);
    } else {
      var d := Drain(NODE_MARKER, n.rest);
      Cons(n.unit, d.units);
      Assoc(log, Fan(live, n.unit), FanAll(live, d.units));
    }
  }

  lemma {:induction false} FanSentTo(clients: seq<nat>, u: Unit, c: nat)
    requires Distinct(clients)
    ensures SentTo(Fan(clients, u), c) == if c in clients then [u] else []
  {
    if clients != [] {
      assert clients == [clients[0]] + clients[1..];
      Cons(Write(clients[0], u), Fan(clients[1..], u));
      FanSentTo(clients[1..], u, c);
    }
  }

  /** Every client of a fan-out gets every unit exactly once and in order; nobody else gets anything. */
  lemma {:induction false} FanAllSentTo(clients: seq<nat>, us: seq<Unit>, c: nat)
    requires Distinct(clients)
    ensures SentTo(FanAll(clients, us), c) == if c in clients then us else []
  {
    if us != [] {
      FanSentTo(clients, us[0], c);
      FanAllSentTo(clients, us[1..], c);
      SentToConcat(Fan(clients, us[0]), FanAll(clients, us[1..]), c);
    }
  }

  lemma {:induction false} WithoutSame(s: seq<nat>, gone: set<nat>, more: set<nat>)
    requires forall c :: c in s ==> (c in gone <==> c in more)
    ensures Without(s, gone) == Without(s, more)
  {
    if s != [] {
      assert s == [s[0]] + s[1..];
      WithoutSame(s[1..], gone, more);
    }
  }

  lemma {:induction false} WithoutNone(s: seq<nat>, gone: set<nat>)
    requires forall c :: c in s ==> c !in gone
    ensures Without(s, gone) == s
  {
    if s != [] {
      WithoutNone(s[1..], gone);
    }
  }

  /** Where the writes of a broadcast end up with these clients still to come. */
  function FanOut(todo: seq<nat>, gone: set<nat>, u: Unit, log: seq<Write>): (r: seq<Write>)
  {
    log + Fan(Without(todo, gone), u)
  }

  lemma FanOutTurn(todo: seq<nat>, gone: set<nat>, u: Unit, log: seq<Write>)
    requires todo != []
    ensures FanOut(todo, gone, u, log)
         == FanOut(todo[1..], gone, u, if todo[0] in gone then log else log + [Write(todo[0], u)])
  {
    var more := Without(todo[1..], gone);
    if todo[0] in gone {
      Empty(more);
    } else {
      Cons(todo[0], more);
      Assoc(log, [Write(todo[0], u)], Fan(more, u));
    }
  }

  /** `stayed` is `clients` without the first one that has been idle too long. */
  ghost predicate FirstIdleGone(clients: seq<nat>, lastTx: map<nat, int>, now: int, idleEvict: int, stayed: seq<nat>)
  {
    exists i ::
      && 0 <= i < |clients| && clients[i] in lastTx && now - lastTx[clients[i]] > idleEvict
      && (forall j :: 0 <= j < i && clients[j] in lastTx ==> now - lastTx[clients[j]] <= idleEvict)
      && stayed == clients[..i] + clients[i + 1..]
  }

  class Server {
    var clients: seq<nat>
    var lastTx: map<nat, int>
    var up: Option<nat>
    var selfInfo: Option<seq<byte>>
    var lastUpstreamTx: int
    var log: seq<Write>
    var broken: set<nat>

    ghost predicate Valid()
      reads this
    {
      && Distinct(clients)
      && (forall c :: c in clients ==> c in lastTx)
      && (up.Some? ==> up.value !in clients)
    }

    constructor ()
      ensures Valid() && clients == [] && up == None && selfInfo == None && log == [] && broken == {}
    {
      clients, lastTx, up, selfInfo, lastUpstreamTx, log, broken := [], map[], None, None, 0, [], {};
    }

    /** Every client that takes a write gets the unit, once; the others lose their slot. */
    method Broadcast(u: Unit)
      requires Valid()
      modifies this`clients, this`log
      ensures Valid()
      ensures clients == Without(old(clients), broken)
      ensures log == old(log) + Fan(clients, u)
    {
      var dead := WriteToAll(u);
      WithoutSame(clients, dead, broken);
      clients := Without(clients, dead);
    }

    /** The writes of a broadcast; the clients on which a write raised are returned. */
    method WriteToAll(u: Unit) returns (dead: set<nat>)
      modifies this`log
      ensures forall c :: c in clients ==> (c in dead <==> c in broken)
      ensures log == old(log) + Fan(Without(clients, broken), u)
    {
      dead := {};
      ghost var goal := FanOut(clients, broken, u, log);
      var i := 0;
      while i < |clients|
        invariant 0 <= i <= |clients|
        invariant forall j :: 0 <= j < i && clients[j] in broken ==> clients[j] in dead
        invariant dead <= broken
        invariant goal == FanOut(clients[i..], broken, u, log)
      {
        var w := clients[i];
        assert clients[i..][1..] == clients[i + 1..];
        FanOutTurn(clients[i..], broken, u, log);
        if w in broken {
          dead := dead + {w};
        } else {
          log := log + [Write(w, u)];
        }
        i := i + 1;
      }
      Empty(log);
    }

    /** `dispatch` for a frame, a bare broadcast for junk. */
    method Dispatch(u: Unit)
      requires Valid()
      modifies this`clients, this`log, this`selfInfo
      ensures Valid()
      ensures selfInfo == Cached([u], old(selfInfo))
      ensures clients == Without(old(clients), broken)
      ensures log == old(log) + Fan(clients, u)
    {
      if IsSelfInfo(u) {
        selfInfo := Some(u.bytes);
      }
      Broadcast(u);
    }

    /** One read of the node: every unit taken off the buffer goes to every client that takes writes. */
    method UpstreamRead(buf: seq<byte>, data: seq<byte>) returns (rest: seq<byte>)
      requires Valid()
      modifies this`clients, this`log, this`selfInfo
      ensures Valid()
      ensures var live := Without(old(clients), broken);
              && Relayed(log, selfInfo, rest) == Relay(live, buf + data, old(log), old(selfInfo))
              && clients == if NextUnit(NODE_MARKER, buf + data).Wait? then old(clients) else live
    {
      rest := buf + data;
      ghost var live := Without(clients, broken);
      ghost var goal := Relay(live, rest, log, selfInfo);
      WithoutNone(live, broken);
      while true
        invariant Valid()
        invariant Without(clients, broken) == live
        invariant clients == (if rest == buf + data then old(clients) else live) && |rest| <= |buf + data|
        invariant goal == Relay(live, rest, log, selfInfo)
        decreases |rest|
      {
        RelayTurn(live, rest, log, selfInfo);
        var turn := NextUnit(NODE_MARKER, rest);
        if turn.Wait? {
          break;
        }
        rest := turn.rest;
        Dispatch(turn.unit);
      }
    }

    /** Pacing, then the write on the node connection, whatever comes of it. */
    method Exchange(u: Unit, now: int, minGap: int) returns (at: int)
      modifies this`lastUpstreamTx, this`log
      ensures up.None? ==> at == now && lastUpstreamTx == old(lastUpstreamTx)
      ensures up.Some? ==> now <= at == lastUpstreamTx && at - old(lastUpstreamTx) >= minGap
      ensures log == if up.Some? && up.value !in broken then old(log) + [Write(up.value, u)] else old(log)
    {
      at := now;
      if up.None? {
        return;
      }
      var gap := now - lastUpstreamTx;
      if gap < minGap {
        at := now + (minGap - gap);
      }
      lastUpstreamTx := at;
      if up.value !in broken {
        log := log + [Write(up.value, u)];
      }
    }

    /** The world of session `w` as it is now. */
    function World(w: nat): (s: Session)
      reads this
    {
      Session(w, w in broken, if up.Some? && up.value !in broken then up else None, selfInfo)
    }

    /** One read of a client: answer handshakes from the cache, exchange everything else with the node. */
    method ClientRead(w: nat, buf: seq<byte>, data: seq<byte>, now: int, minGap: int) returns (rest: seq<byte>)
      requires Valid()
      modifies this`lastTx, this`lastUpstreamTx, this`log
      ensures Valid()
      ensures lastTx == if w in clients then old(lastTx)[w := now] else old(lastTx)
      ensures var r := Serve(World(w), buf + data);
              rest == r.rest && log == old(log) + r.writes
    {
      if w in clients {
        lastTx := lastTx[w := now];
      }
      rest := ServeBuffer(w, buf + data, now, minGap);
    }

    /** One unit of a session; `stop` says that its answer could not be written. */
    method HandleUnit(w: nat, u: Unit, now: int, minGap: int) returns (at: int, stop: bool)
      modifies this`lastUpstreamTx, this`log
      ensures log == old(log) + Served1(World(w), u)
      ensures stop <==> Answers(World(w), u) && w in broken
    {
      at, stop := now, false;
      if Traffic.IsAppStart(u) && selfInfo.Some? {
        if w in broken {
          stop := true;
        } else {
          log := log + [Write(w, Frame(selfInfo.value))];
        }
      } else {
        at := Exchange(u, now, minGap);
      }
    }

    /** The inner loop of a session. */
    method ServeBuffer(w: nat, buf: seq<byte>, now: int, minGap: int) returns (rest: seq<byte>)
      modifies this`lastUpstreamTx, this`log
      ensures var r := Serve(World(w), buf);
              rest == r.rest && log == old(log) + r.writes
    {
      rest := buf;
      ghost var goal := Goal(World(w), buf, log);
      var clock, stop := now, false;
      while !stop
        invariant if stop then goal == Served(log, rest) else goal == Goal(World(w), rest, log)
        decreases |rest|, !stop
      {
        var turn := NextUnit(CLIENT_MARKER, rest);
        if turn.Wait? {
          break;
        }
        GoalTurn(World(w), rest, log);
        clock, stop := HandleUnit(w, turn.unit, clock, minGap);
        rest := turn.rest;
      }
    }

    /** A full house makes room by dropping the first client that has been idle too long, if there is one. */
    method MakeRoom(now: int, idleEvict: int) returns (room: bool)
      requires Valid()
      modifies this`clients
      ensures Valid() && forall c :: c in clients ==> c in old(clients)
      ensures room <==> exists c :: c in old(clients) && now - old(lastTx)[c] > idleEvict
      ensures !room ==> clients == old(clients)
      ensures room ==> FirstIdleGone(old(clients), lastTx, now, idleEvict, clients)
    {
      var idle := set c | c in clients && now - lastTx[c] > idleEvict;
      var i := FirstIdle(clients, idle);
      room := i < |clients|;
      if room {
        assert clients[i] in clients;
        clients := clients[..i] + clients[i + 1..];
      }
    }

    /** Admission of a connection that passed or failed the allow-list; a full house makes room for nobody active. */
    method Admit(w: nat, allowed: bool, now: int, maxClients: int, idleEvict: int) returns (entered: bool)
      requires Valid() && w !in clients && up != Some(w)
      modifies this`clients, this`lastTx
      ensures Valid()
      ensures entered <==> allowed && (|old(clients)| < maxClients
                                       || exists c :: c in old(clients) && now - old(lastTx)[c] > idleEvict)
      ensures entered ==> lastTx == old(lastTx)[w := now]
      ensures !entered ==> clients == old(clients) && lastTx == old(lastTx)
      ensures entered && |old(clients)| < maxClients ==> clients == old(clients) + [w]
      ensures entered && |old(clients)| >= maxClients ==>
                exists stayed :: FirstIdleGone(old(clients), old(lastTx), now, idleEvict, stayed)
                  && clients == stayed + [w]
    {
      entered := false;
      if !allowed {
        return;
      }
      if |clients| >= maxClients {
        var room := MakeRoom(now, idleEvict);
        if !room {
          return;
        }
      }
      clients := clients + [w];
      lastTx := lastTx[w := now];
      entered := true;
    }
  }
}
