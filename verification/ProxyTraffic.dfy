/**
 The command side of the proxy: the client sessions, what each of them sent and what became of it, and
 what ended up on each node connection. Connections and sessions are numbered as they appear.
 */
module ProxyTraffic {
  import opened Bytes
  import opened Wrappers
  import opened Deframer
  import opened Seqs

  const CMD_APP_START: byte := 0x01
  const CMD_GET_DEVICE_TIME: byte := 0x05

  /** The proxy's own handshake: "      mcproxy" behind the command byte and the version. */
  const APP_START: seq<byte> := EncodeFrame(CLIENT_MARKER,
    [CMD_APP_START, 0x03, 0x20, 0x20, 0x20, 0x20, 0x20, 0x20, 0x6D, 0x63, 0x70, 0x72, 0x6F, 0x78, 0x79])
  /** The keepalive. */
  const DEVICE_TIME: seq<byte> := EncodeFrame(CLIENT_MARKER, [CMD_GET_DEVICE_TIME])

  datatype Sender = Own | Client(id: nat)

  /** One write on a node connection. */
  datatype Sent = Sent(from: Sender, unit: Unit)

  /** What became of a unit a client sent: written to a node connection, answered from the cache, lost. */
  datatype Fate = Written(conn: nat) | Answered | Dropped
  datatype Handled = Handled(unit: Unit, fate: Fate)

  /** The reading side of a client session; `waiting` is the unit it wants the command lock for. */
  datatype Desk = Desk(buf: seq<byte>, received: seq<byte>, handled: seq<Handled>, waiting: Option<Unit>, open: bool)

  datatype Traffic = Traffic(wires: seq<seq<Sent>>, desks: seq<Desk>)

  predicate IsAppStart(u: Unit)
  {
    u.Frame? && |u.bytes| >= 4 && u.bytes[3] == CMD_APP_START
  }

  // ------------------------------------------------------------- operations

  /** A new node connection: the handshake is the first thing on it. */
  function Open(t: Traffic): (r: Traffic)
  {
    t.(wires := t.wires + [[Sent(Own, Frame(APP_START))]])
  }

  /** A frame of the proxy's own on connection `k`. */
  function Inject(t: Traffic, k: nat, f: seq<byte>): (r: Traffic)
    requires k < |t.wires|
  {
    t.(wires := t.wires[k := t.wires[k] + [Sent(Own, Frame(f))]])
  }

  function Join(t: Traffic): (r: Traffic)
  {
    t.(desks := t.desks + [Desk([], [], [], None, true)])
  }

  function Leave(t: Traffic, c: nat): (r: Traffic)
    requires c < |t.desks|
  {
    t.(desks := t.desks[c := t.desks[c].(open := false)])
  }

  predicate CanRead(t: Traffic, c: nat)
  {
    c < |t.desks| && t.desks[c].open && t.desks[c].waiting.None?
  }

  function Read(t: Traffic, c: nat, data: seq<byte>): (r: Traffic)
    requires CanRead(t, c)
  {
    var d := t.desks[c];
    t.(desks := t.desks[c := d.(buf := d.buf + data, received := d.received + data)])
  }

  /** The session's next unit: answered on the spot, or waiting for the lock. */
  function TakeUnit(t: Traffic, c: nat, answered: bool): (r: Traffic)
    requires CanRead(t, c) && NextUnit(CLIENT_MARKER, t.desks[c].buf).Take?
  {
    var d := t.desks[c];
    var n := NextUnit(CLIENT_MARKER, d.buf);
    t.(desks := t.desks[c := if answered then d.(buf := n.rest, handled := d.handled + [Handled(n.unit, Answered)])
                             else d.(buf := n.rest, waiting := Some(n.unit))])
  }

  predicate Waits(t: Traffic, c: nat)
  {
    c < |t.desks| && t.desks[c].waiting.Some?
  }

  function Settle(t: Traffic, c: nat, fate: Fate): (r: Traffic)
    requires Waits(t, c)
  {
    var d := t.desks[c];
    t.(desks := t.desks[c := d.(waiting := None, handled := d.handled + [Handled(d.waiting.value, fate)])])
  }

  /** The waiting unit of session `c` goes onto connection `k`. */
  function Write(t: Traffic, c: nat, k: nat): (r: Traffic)
    requires Waits(t, c) && k < |t.wires|
  {
    Settle(t, c, Written(k)).(wires := t.wires[k := t.wires[k] + [Sent(Client(c), t.desks[c].waiting.value)]])
  }

  // ------------------------------------------------------------- histories

  function Units(sent: seq<Sent>): (us: seq<Unit>)
  {
    seq(|sent|, i requires 0 <= i < |sent| => sent[i].unit)
  }

  /** The units one client got onto a node connection, in the order of that connection. */
  function SentBy(sent: seq<Sent>, c: nat): (us: seq<Unit>)
  {
    if sent == [] then []
    else
      var last := sent[|sent| - 1];
      SentBy(sent[..|sent| - 1], c) + (if last.from == Client(c) then [last.unit] else [])
  }

  /** The units of a client that went to connection `k`, in the order the client sent them. */
  function WrittenTo(handled: seq<Handled>, k: nat): (us: seq<Unit>)
  {
    if handled == [] then []
    else
      var last := handled[|handled| - 1];
      WrittenTo(handled[..|handled| - 1], k) + (if last.fate == Written(k) then [last.unit] else [])
  }

  function HandledUnits(handled: seq<Handled>): (us: seq<Unit>)
  {
    seq(|handled|, i requires 0 <= i < |handled| => handled[i].unit)
  }

  function WaitingUnits(d: Desk): (us: seq<Unit>)
  {
    if d.waiting.Some? then [d.waiting.value] else []
  }

  /** Everything the session's deframer has taken off its stream, in order. */
  function Taken(d: Desk): (us: seq<Unit>)
  {
    HandledUnits(d.handled) + WaitingUnits(d)
  }

  /** The handshakes of a session that went past the cache: towards the node, or lost on the way. */
  function PassedStarts(d: Desk): (us: seq<Unit>)
  {
    Starts(d.handled) + (if d.waiting.Some? && IsAppStart(d.waiting.value) then [d.waiting.value] else [])
  }

  function Starts(handled: seq<Handled>): (us: seq<Unit>)
  {
    if handled == [] then []
    else
      var last := handled[|handled| - 1];
      Starts(handled[..|handled| - 1])
      + (if IsAppStart(last.unit) && last.fate != Answered then [last.unit] else [])
  }

  // ------------------------------------------------------------- invariants

  ghost predicate Origins(t: Traffic)
  {
    && (forall k, x :: 0 <= k < |t.wires| && x in t.wires[k] && x.from.Client? ==> x.from.id < |t.desks|)
    && (forall c, h :: 0 <= c < |t.desks| && h in t.desks[c].handled && h.fate.Written? ==> h.fate.conn < |t.wires|)
  }

  ghost predicate Whole(sent: seq<Sent>)
  {
    forall x :: x in sent ==> WellFormed(CLIENT_MARKER, x.unit)
  }

  /** Whatever is on a node connection is a sequence of whole frames and marker-free junk. */
  ghost predicate WholeUnits(t: Traffic)
  {
    forall k :: 0 <= k < |t.wires| ==> Whole(t.wires[k])
  }

  /** Each connection carries each client's units in the order the client sent them. */
  ghost predicate InOrder(t: Traffic)
  {
    forall c, k :: 0 <= c < |t.desks| && 0 <= k < |t.wires| ==> SentBy(t.wires[k], c) == WrittenTo(t.desks[c].handled, k)
  }

  /** Every byte a client sent is in a unit with a known fate, in the unit it waits with, or still buffered. */
  ghost predicate DeskAccounted(d: Desk)
  {
    AllWellFormed(CLIENT_MARKER, Taken(d)) && Flatten(Taken(d)) + d.buf == d.received
  }

  ghost predicate Accounted(t: Traffic)
  {
    forall c :: 0 <= c < |t.desks| ==> DeskAccounted(t.desks[c])
  }

  ghost predicate TrafficInv(t: Traffic)
  {
    Origins(t) && WholeUnits(t) && InOrder(t) && Accounted(t)
  }

  // ----------------------------------------------------------------- proofs

  lemma ConstantsAreFrames()
    ensures IsFrame(CLIENT_MARKER, APP_START) && IsFrame(CLIENT_MARKER, DEVICE_TIME)
  {
  }

  lemma WrittenToAppend(hs: seq<Handled>, h: Handled, k: nat)
    ensures WrittenTo(hs + [h], k) == WrittenTo(hs, k) + (if h.fate == Written(k) then [h.unit] else [])
  {
    Snoc(hs, h);
  }

  lemma {:induction false} SentByStranger(sent: seq<Sent>, c: nat)
    requires forall x :: x in sent && x.from.Client? ==> x.from.id != c
    ensures SentBy(sent, c) == []
  {
    if sent != [] {
      SentByStranger(sent[..|sent| - 1], c);
      assert sent[|sent| - 1] in sent;
    }
  }

  lemma {:induction false} WrittenToStranger(hs: seq<Handled>, k: nat)
    requires forall h :: h in hs && h.fate.Written? ==> h.fate.conn != k
    ensures WrittenTo(hs, k) == []
  {
    if hs != [] {
      WrittenToStranger(hs[..|hs| - 1], k);
      assert hs[|hs| - 1] in hs;
    }
  }

  lemma OpenKeeps(t: Traffic)
    requires TrafficInv(t)
    ensures TrafficInv(Open(t))
  {
    ConstantsAreFrames();
    var r := Open(t);
    var k := |t.wires|;
    forall c | 0 <= c < |r.desks|
      ensures SentBy(r.wires[k], c) == WrittenTo(r.desks[c].handled, k)
    {
      SentByStranger(r.wires[k], c);
      WrittenToStranger(r.desks[c].handled, k);
    }
  }

  lemma InjectKeeps(t: Traffic, k: nat, f: seq<byte>)
    requires TrafficInv(t) && k < |t.wires| && IsFrame(CLIENT_MARKER, f)
    ensures TrafficInv(Inject(t, k, f))
  {
    var r := Inject(t, k, f);
    assert Whole(t.wires[k]);
    forall c | 0 <= c < |r.desks|
      ensures SentBy(r.wires[k], c) == SentBy(t.wires[k], c)
    {
      Empty(SentBy(t.wires[k], c));
    }
  }

  lemma JoinKeeps(t: Traffic)
    requires TrafficInv(t)
    ensures TrafficInv(Join(t))
  {
    var r := Join(t);
    var c := |t.desks|;
    forall k | 0 <= k < |r.wires|
      ensures SentBy(r.wires[k], c) == []
    {
      SentByStranger(r.wires[k], c);
    }
  }

  /** The effect of changing one desk without writing to a wire. */
  ghost predicate DeskStep(d: Desk, e: Desk)
  {
    && (forall h :: h in e.handled && h.fate.Written? ==> h in d.handled)
    && (forall k: nat :: WrittenTo(e.handled, k) == WrittenTo(d.handled, k))
    && (DeskAccounted(d) ==> DeskAccounted(e))
  }

  lemma DeskKeeps(t: Traffic, c: nat, e: Desk)
    requires TrafficInv(t) && c < |t.desks| && DeskStep(t.desks[c], e)
    ensures TrafficInv(t.(desks := t.desks[c := e]))
  {
  }

  lemma LeaveKeeps(t: Traffic, c: nat)
    requires TrafficInv(t) && c < |t.desks|
    ensures TrafficInv(Leave(t, c))
  {
    assert Taken(t.desks[c].(open := false)) == Taken(t.desks[c]);
    DeskKeeps(t, c, t.desks[c].(open := false));
  }

  lemma ReadKeeps(t: Traffic, c: nat, data: seq<byte>)
    requires TrafficInv(t) && CanRead(t, c)
    ensures TrafficInv(Read(t, c, data))
  {
    var d := t.desks[c];
    var e := Read(t, c, data).desks[c];
    assert Taken(e) == Taken(d);
    Assoc(Flatten(Taken(d)), d.buf, data);
    DeskKeeps(t, c, e);
  }

  lemma FlattenOne(us: seq<Unit>, u: Unit)
    ensures Flatten(us + [u]) == Flatten(us) + u.bytes
  {
    FlattenConcat(us, [u]);
    Cons(u, []);
    Empty(u.bytes);
  }

  lemma TakeAccounted(d: Desk, e: Desk, n: Turn)
    requires DeskAccounted(d) && n == NextUnit(CLIENT_MARKER, d.buf) && n.Take?
    requires Taken(e) == Taken(d) + [n.unit] && e.buf == n.rest && e.received == d.received
    ensures DeskAccounted(e)
  {
    FlattenOne(Taken(d), n.unit);
    Assoc(Flatten(Taken(d)), n.unit.bytes, n.rest);
  }

  lemma TakeKeeps(t: Traffic, c: nat, answered: bool)
    requires TrafficInv(t) && CanRead(t, c) && NextUnit(CLIENT_MARKER, t.desks[c].buf).Take?
    ensures TrafficInv(TakeUnit(t, c, answered))
  {
    var d, n := t.desks[c], NextUnit(CLIENT_MARKER, t.desks[c].buf);
    var e := TakeUnit(t, c, answered).desks[c];
    assert Taken(e) == Taken(d) + [n.unit];
    TakeAccounted(d, e, n);
    forall k: nat ensures WrittenTo(e.handled, k) == WrittenTo(d.handled, k) {
      WrittenToAppend(d.handled, Handled(n.unit, Answered), k);
    }
    DeskKeeps(t, c, e);
  }

  lemma DropKeeps(t: Traffic, c: nat)
    requires TrafficInv(t) && Waits(t, c)
    ensures TrafficInv(Settle(t, c, Dropped))
  {
    var d, e := t.desks[c], Settle(t, c, Dropped).desks[c];
    assert Taken(e) == Taken(d);
    forall k: nat ensures WrittenTo(e.handled, k) == WrittenTo(d.handled, k) {
      WrittenToAppend(d.handled, Handled(d.waiting.value, Dropped), k);
    }
    DeskKeeps(t, c, e);
  }

  lemma WriteKeeps(t: Traffic, c: nat, k: nat)
    requires TrafficInv(t) && Waits(t, c) && k < |t.wires|
    ensures TrafficInv(Write(t, c, k))
  {
    WriteAccounted(t, c, k);
    WriteInOrder(t, c, k);
  }

  lemma WriteAccounted(t: Traffic, c: nat, k: nat)
    requires TrafficInv(t) && Waits(t, c) && k < |t.wires|
    ensures Origins(Write(t, c, k)) && WholeUnits(Write(t, c, k)) && Accounted(Write(t, c, k))
  {
    var d := t.desks[c];
    var r := Write(t, c, k);
    assert Taken(r.desks[c]) == Taken(d);
    assert DeskAccounted(r.desks[c]);
    assert d.waiting.value in Taken(d) by {
      assert Taken(d)[|d.handled|] == d.waiting.value;
    }
    assert Whole(t.wires[k]);
  }

  lemma WriteInOrder(t: Traffic, c: nat, k: nat)
    requires InOrder(t) && Waits(t, c) && k < |t.wires|
    ensures InOrder(Write(t, c, k))
  {
    var d := t.desks[c];
    var r := Write(t, c, k);
    var u := d.waiting.value;
    forall b, j | 0 <= b < |r.desks| && 0 <= j < |r.wires|
      ensures SentBy(r.wires[j], b) == WrittenTo(r.desks[b].handled, j)
    {
      assert SentBy(t.wires[j], b) == WrittenTo(t.desks[b].handled, j);
      if j == k {
        Empty(SentBy(t.wires[k], b));
      }
      if b == c {
        WrittenToAppend(d.handled, Handled(u, Written(k)), j);
        Empty(WrittenTo(d.handled, j));
      }
    }
  }

  // ------------------------------------------------------------- consequences

  /**
   No desync on the node connection: a node that deframes the stream like the proxy does, however the
   stream reaches it, gets exactly the frames that were written, in the order they were written, with
   nothing left over but fewer than three bytes of junk.
   */
  lemma NodeRecovers(sent: seq<Sent>, chunks: seq<seq<byte>>)
    requires Whole(sent)
    requires Concat(chunks) == Flatten(Units(sent))
    ensures var d := FeedAll(CLIENT_MARKER, [], chunks);
            && Frames(d.units) == Frames(Units(sent))
            && |d.rest| < 3 && MarkerFree(CLIENT_MARKER, d.rest)
  {
    var us := Units(sent);
    assert AllWellFormed(CLIENT_MARKER, us);
    FeedAllFaithful(CLIENT_MARKER, [], chunks);
    ParseUnits(CLIENT_MARKER, us, []);
    Empty(Flatten(us));
    Empty(Frames(us));
    var rest := FeedAll(CLIENT_MARKER, [], chunks).rest;
    assert Leftover(CLIENT_MARKER, rest, []);
    assert rest[..|rest| - 0] == rest;
  }

  /** The frames of a client's own stream are those it has taken so far and those still in its buffer. */
  lemma ClientFrames(d: Desk)
    requires DeskAccounted(d)
    ensures Parse(CLIENT_MARKER, d.received).frames == Frames(Taken(d)) + Parse(CLIENT_MARKER, d.buf).frames
  {
    ParseUnits(CLIENT_MARKER, Taken(d), d.buf);
  }
}
