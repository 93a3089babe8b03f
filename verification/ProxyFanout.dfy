/**
 The response side of the proxy: what each node connection delivered, the broadcast under way, the
 client slots and what every client was sent. Connections and sessions are numbered as they appear.
 */
module ProxyFanout {
  import opened Bytes
  import opened Wrappers
  import opened Deframer
  import opened Seqs

  const PKT_SELF_INFO: byte := 0x05

  /** The reading side of a node connection. */
  datatype Input = Input(buf: seq<byte>, received: seq<byte>, emitted: seq<Unit>)

  datatype Delivery = Broadcast(unit: Unit) | Reply(unit: Unit)

  /** What a client was sent, and how much had been broadcast before it joined. */
  datatype Inbox = Inbox(got: seq<Delivery>, joined: nat)

  /** A broadcast under way over the clients that had a slot when it began. */
  datatype Outbox = Outbox(unit: Unit, pending: seq<nat>, dead: set<nat>)

  datatype Fanout = Fanout(inputs: seq<Input>, inboxes: seq<Inbox>, slots: seq<nat>, outbox: Option<Outbox>,
                           selfInfo: Option<seq<byte>>)

  /** Slots and pending turns name sessions that exist, each of them once. */
  predicate Sound(f: Fanout)
  {
    && (forall c :: c in f.slots ==> c < |f.inboxes|)
    && Distinct(f.slots)
    && (f.outbox.Some? ==> f.inputs != [] && Distinct(f.outbox.value.pending)
                           && forall c :: c in f.outbox.value.pending ==> c < |f.inboxes|)
  }

  predicate Distinct(s: seq<nat>)
  {
    forall i, j :: 0 <= i < j < |s| ==> s[i] != s[j]
  }

  // ------------------------------------------------------------- operations

  function OpenInput(f: Fanout): (g: Fanout)
  {
    f.(inputs := f.inputs + [Input([], [], [])])
  }

  predicate CanReceive(f: Fanout)
  {
    f.inputs != [] && f.outbox.None?
  }

  function Last(f: Fanout): (i: Input)
    requires f.inputs != []
  {
    f.inputs[|f.inputs| - 1]
  }

  function SetLast(f: Fanout, i: Input): (g: Fanout)
    requires f.inputs != []
  {
    f.(inputs := f.inputs[..|f.inputs| - 1] + [i])
  }

  function Receive(f: Fanout, data: seq<byte>): (g: Fanout)
    requires CanReceive(f)
  {
    SetLast(f, Last(f).(buf := Last(f).buf + data, received := Last(f).received + data))
  }

  predicate IsSelfInfo(u: Unit)
  {
    u.Frame? && |u.bytes| >= 4 && u.bytes[3] == PKT_SELF_INFO
  }

  /** `dispatch` caches a SELF_INFO frame; then the unit goes to the clients that have a slot now. */
  function Emit(f: Fanout): (g: Fanout)
    requires CanReceive(f) && NextUnit(NODE_MARKER, Last(f).buf).Take?
  {
    var n := NextUnit(NODE_MARKER, Last(f).buf);
    SetLast(f, Last(f).(buf := n.rest, emitted := Last(f).emitted + [n.unit]))
      .(outbox := Some(Outbox(n.unit, f.slots, {})),
        selfInfo := if IsSelfInfo(n.unit) then Some(n.unit.bytes) else f.selfInfo)
  }

  predicate CanDeliver(f: Fanout)
  {
    f.outbox.Some? && f.outbox.value.pending != [] && f.outbox.value.pending[0] < |f.inboxes|
  }

  function Put(f: Fanout, c: nat, d: Delivery): (g: Fanout)
    requires c < |f.inboxes|
  {
    f.(inboxes := f.inboxes[c := f.inboxes[c].(got := f.inboxes[c].got + [d])])
  }

  /** One client's turn in a broadcast; a write that fails may or may not have got through. */
  function Deliver(f: Fanout, wrote: bool, failed: bool): (g: Fanout)
    requires CanDeliver(f)
  {
    var o := f.outbox.value;
    var c := o.pending[0];
    (if wrote then Put(f, c, Broadcast(o.unit)) else f)
      .(outbox := Some(Outbox(o.unit, o.pending[1..], if failed || !wrote then o.dead + {c} else o.dead)))
  }

  /** The slots left after popping every session in `gone`. */
  function Without(slots: seq<nat>, gone: set<nat>): (r: seq<nat>)
    ensures forall c :: c in r <==> c in slots && c !in gone
    ensures |r| <= |slots|
    ensures Distinct(slots) ==> Distinct(r)
  {
    if slots == [] then []
    else
      assert slots == [slots[0]] + slots[1..];
      (if slots[0] in gone then [] else [slots[0]]) + Without(slots[1..], gone)
  }

  /** The position of the first slot in `idle`, or the number of slots. */
  function FirstIdle(slots: seq<nat>, idle: set<nat>): (i: nat)
    ensures i <= |slots|
    ensures i < |slots| ==> slots[i] in idle
    ensures forall j :: 0 <= j < i ==> slots[j] !in idle
  {
    if slots == [] || slots[0] in idle then 0 else 1 + FirstIdle(slots[1..], idle)
  }

  function EndBroadcast(f: Fanout): (g: Fanout)
    requires f.outbox.Some?
  {
    f.(slots := Without(f.slots, f.outbox.value.dead), outbox := None)
  }

  /** A new session takes a slot behind those that stay. */
  function Enter(f: Fanout, stay: seq<nat>): (g: Fanout)
  {
    f.(inboxes := f.inboxes + [Inbox([], |AllEmitted(f.inputs)|)], slots := stay + [|f.inboxes|])
  }

  /** The handshake answered from the cache. */
  function Answer(f: Fanout, c: nat): (g: Fanout)
    requires c < |f.inboxes| && f.selfInfo.Some?
  {
    Put(f, c, Reply(Frame(f.selfInfo.value)))
  }

  // ------------------------------------------------------------- histories

  function DeliveredUnits(got: seq<Delivery>): (us: seq<Unit>)
  {
    seq(|got|, i requires 0 <= i < |got| => got[i].unit)
  }

  /** What a client got from broadcasts, leaving out the handshake replies from the cache. */
  function Broadcasts(got: seq<Delivery>): (us: seq<Unit>)
  {
    if got == [] then []
    else
      var last := got[|got| - 1];
      Broadcasts(got[..|got| - 1]) + (if last.Broadcast? then [last.unit] else [])
  }

  /** Everything the proxy ever broadcast, over all node connections. */
  function AllEmitted(inputs: seq<Input>): (us: seq<Unit>)
  {
    if inputs == [] then [] else AllEmitted(inputs[..|inputs| - 1]) + inputs[|inputs| - 1].emitted
  }

  // ------------------------------------------------------------- invariants

  ghost predicate InputAccounted(i: Input)
  {
    AllWellFormed(NODE_MARKER, i.emitted) && Flatten(i.emitted) + i.buf == i.received
  }

  /** Every byte of a node connection is in a broadcast unit or still buffered. */
  ghost predicate NodeAccounted(f: Fanout)
  {
    forall i :: i in f.inputs ==> InputAccounted(i)
  }

  /** A client sees whole units only, and its broadcasts are a gapless stretch of all broadcasts. */
  ghost predicate Stretch(b: Inbox, all: seq<Unit>)
  {
    && AllWellFormed(NODE_MARKER, DeliveredUnits(b.got))
    && b.joined + |Broadcasts(b.got)| <= |all|
    && Broadcasts(b.got) == all[b.joined..b.joined + |Broadcasts(b.got)|]
  }

  ghost predicate Stretches(f: Fanout)
  {
    forall b :: b in f.inboxes ==> Stretch(b, AllEmitted(f.inputs))
  }

  /** How many broadcasts session `c` is still to get of those since it joined. */
  function Owed(f: Fanout, c: nat): (n: nat)
  {
    if f.outbox.Some? && c in f.outbox.value.pending then 1 else 0
  }

  ghost predicate UpToDate(f: Fanout, c: nat)
    requires c < |f.inboxes|
  {
    f.inboxes[c].joined + |Broadcasts(f.inboxes[c].got)| + Owed(f, c) == |AllEmitted(f.inputs)|
  }

  /** A client with a slot, unless a write to it just failed, has everything since it joined. */
  ghost predicate Complete(f: Fanout)
    requires Sound(f)
  {
    && (forall c :: c in f.slots && (f.outbox.Some? ==> c !in f.outbox.value.dead) ==> UpToDate(f, c))
    && (f.outbox.Some? ==>
          && (forall c :: c in f.outbox.value.pending ==> UpToDate(f, c))
          && WellFormed(NODE_MARKER, f.outbox.value.unit)
          && AllEmitted(f.inputs) != []
          && f.outbox.value.unit == AllEmitted(f.inputs)[|AllEmitted(f.inputs)| - 1])
  }

  ghost predicate FanoutInv(f: Fanout)
  {
    && Sound(f) && NodeAccounted(f) && Stretches(f) && Complete(f)
    && (f.selfInfo.Some? ==> IsFrame(NODE_MARKER, f.selfInfo.value))
  }

  // ----------------------------------------------------------------- proofs

  lemma BroadcastsAppend(got: seq<Delivery>, d: Delivery)
    ensures Broadcasts(got + [d]) == Broadcasts(got) + (if d.Broadcast? then [d.unit] else [])
    ensures DeliveredUnits(got + [d]) == DeliveredUnits(got) + [d.unit]
  {
    Snoc(got, d);
  }

  lemma AllEmittedLast(f: Fanout, i: Input)
    requires f.inputs != []
    ensures AllEmitted(SetLast(f, i).inputs) == AllEmitted(f.inputs[..|f.inputs| - 1]) + i.emitted
  {
    Snoc(f.inputs[..|f.inputs| - 1], i);
  }

  lemma OpenInputKeeps(f: Fanout)
    requires FanoutInv(f)
    ensures FanoutInv(OpenInput(f))
  {
    assert OpenInput(f).inputs[..|f.inputs|] == f.inputs;
    assert AllEmitted(OpenInput(f).inputs) == AllEmitted(f.inputs);
  }

  lemma ReceiveKeeps(f: Fanout, data: seq<byte>)
    requires FanoutInv(f) && CanReceive(f)
    ensures FanoutInv(Receive(f, data))
  {
    var i := Last(f);
    var j := i.(buf := i.buf + data, received := i.received + data);
    AllEmittedLast(f, j);
    assert InputAccounted(i);
    Assoc(Flatten(i.emitted), i.buf, data);
    assert AllEmitted(Receive(f, data).inputs) == AllEmitted(f.inputs);
  }

  lemma EmitInput(i: Input, n: Turn)
    requires InputAccounted(i) && n == NextUnit(NODE_MARKER, i.buf) && n.Take?
    ensures InputAccounted(i.(buf := n.rest, emitted := i.emitted + [n.unit]))
  {
    FlattenConcat(i.emitted, [n.unit]);
    Cons(n.unit, []);
    Empty(n.unit.bytes);
    Assoc(Flatten(i.emitted), n.unit.bytes, n.rest);
  }

  lemma EmitAll(f: Fanout)
    requires FanoutInv(f) && CanReceive(f) && NextUnit(NODE_MARKER, Last(f).buf).Take?
    ensures AllEmitted(Emit(f).inputs) == AllEmitted(f.inputs) + [NextUnit(NODE_MARKER, Last(f).buf).unit]
    ensures NodeAccounted(Emit(f))
  {
    var i, n := Last(f), NextUnit(NODE_MARKER, Last(f).buf);
    var j := i.(buf := n.rest, emitted := i.emitted + [n.unit]);
    AllEmittedLast(f, j);
    EmitInput(i, n);
    Assoc(AllEmitted(f.inputs[..|f.inputs| - 1]), i.emitted, [n.unit]);
  }

  lemma LongerStretch(b: Inbox, all: seq<Unit>, u: Unit)
    requires Stretch(b, all)
    ensures Stretch(b, all + [u])
  {
    var m := b.joined + |Broadcasts(b.got)|;
    assert (all + [u])[b.joined..m] == all[b.joined..m];
  }

  lemma EmitKeeps(f: Fanout)
    requires FanoutInv(f) && CanReceive(f) && NextUnit(NODE_MARKER, Last(f).buf).Take?
    ensures FanoutInv(Emit(f))
  {
    EmitAll(f);
    var n := NextUnit(NODE_MARKER, Last(f).buf);
    forall b | b in f.inboxes ensures Stretch(b, AllEmitted(f.inputs) + [n.unit]) {
      LongerStretch(b, AllEmitted(f.inputs), n.unit);
    }
  }

  lemma PutStretch(b: Inbox, d: Delivery, all: seq<Unit>)
    requires Stretch(b, all) && WellFormed(NODE_MARKER, d.unit)
    requires d.Broadcast? ==> b.joined + |Broadcasts(b.got)| < |all| && all[b.joined + |Broadcasts(b.got)|] == d.unit
    ensures Stretch(b.(got := b.got + [d]), all)
  {
    BroadcastsAppend(b.got, d);
    if d.Broadcast? {
      var m := b.joined + |Broadcasts(b.got)|;
      assert all[b.joined..m + 1] == all[b.joined..m] + [all[m]];
    }
  }

  /** One more delivery to a client, that fits its stretch. */
  lemma PutStretches(f: Fanout, c: nat, d: Delivery)
    requires Stretches(f) && c < |f.inboxes| && WellFormed(NODE_MARKER, d.unit)
    requires var b, all := f.inboxes[c], AllEmitted(f.inputs);
             d.Broadcast? ==> b.joined + |Broadcasts(b.got)| < |all| && all[b.joined + |Broadcasts(b.got)|] == d.unit
    ensures Stretches(Put(f, c, d))
  {
    assert f.inboxes[c] in f.inboxes;
    PutStretch(f.inboxes[c], d, AllEmitted(f.inputs));
  }

  lemma DeliverUpToDate(f: Fanout, wrote: bool, failed: bool, d: nat)
    requires Sound(f) && CanDeliver(f) && d < |f.inboxes| && UpToDate(f, d)
    requires d == f.outbox.value.pending[0] ==> wrote
    ensures UpToDate(Deliver(f, wrote, failed), d)
  {
    var o := f.outbox.value;
    var c := o.pending[0];
    assert o.pending == [c] + o.pending[1..] && c !in o.pending[1..];
    BroadcastsAppend(f.inboxes[c].got, Broadcast(o.unit));
  }

  lemma DeliverSound(f: Fanout, wrote: bool, failed: bool)
    requires Sound(f) && CanDeliver(f)
    ensures Sound(Deliver(f, wrote, failed))
  {
    assert forall d :: d in f.outbox.value.pending[1..] ==> d in f.outbox.value.pending;
  }

  lemma DeliverComplete(f: Fanout, wrote: bool, failed: bool)
    requires Sound(f) && Complete(f) && CanDeliver(f)
    ensures Sound(Deliver(f, wrote, failed)) && Complete(Deliver(f, wrote, failed))
  {
    var o := f.outbox.value;
    assert forall d :: d in o.pending[1..] ==> d in o.pending && d != o.pending[0];
    DeliverSound(f, wrote, failed);
    forall d: nat | d < |f.inboxes| && UpToDate(f, d) && (d == o.pending[0] ==> wrote)
      ensures UpToDate(Deliver(f, wrote, failed), d)
    {
      DeliverUpToDate(f, wrote, failed, d);
    }
  }

  lemma DeliverKeeps(f: Fanout, wrote: bool, failed: bool)
    requires FanoutInv(f) && CanDeliver(f)
    ensures FanoutInv(Deliver(f, wrote, failed))
  {
    var o := f.outbox.value;
    DeliverComplete(f, wrote, failed);
    if wrote {
      assert UpToDate(f, o.pending[0]);
      PutStretches(f, o.pending[0], Broadcast(o.unit));
    }
  }

  lemma EndKeeps(f: Fanout)
    requires FanoutInv(f) && f.outbox.Some? && f.outbox.value.pending == []
    ensures FanoutInv(EndBroadcast(f))
  {
    var g := EndBroadcast(f);
    forall c | c in g.slots ensures UpToDate(g, c) {
      assert UpToDate(f, c);
    }
  }

  lemma EnterKeeps(f: Fanout, stay: seq<nat>)
    requires FanoutInv(f) && Distinct(stay) && forall c :: c in stay ==> c in f.slots
    ensures FanoutInv(Enter(f, stay))
  {
    var g := Enter(f, stay);
    assert forall i :: 0 <= i < |stay| ==> stay[i] in stay;
    assert UpToDate(g, |f.inboxes|);
    forall c: nat | c < |f.inboxes| && UpToDate(f, c) ensures UpToDate(g, c) {
    }
  }

  lemma ShrinkKeeps(f: Fanout, stay: seq<nat>)
    requires FanoutInv(f) && Distinct(stay) && forall c :: c in stay ==> c in f.slots
    ensures FanoutInv(f.(slots := stay))
  {
    var g := f.(slots := stay);
    forall c: nat | c < |f.inboxes| && UpToDate(f, c) ensures UpToDate(g, c) {
    }
  }

  lemma AnswerUpToDate(f: Fanout, c: nat, b: nat)
    requires c < |f.inboxes| && f.selfInfo.Some? && b < |f.inboxes| && UpToDate(f, b)
    ensures UpToDate(Answer(f, c), b)
  {
    BroadcastsAppend(f.inboxes[c].got, Reply(Frame(f.selfInfo.value)));
  }

  lemma AnswerComplete(f: Fanout, c: nat)
    requires Sound(f) && Complete(f) && c < |f.inboxes| && f.selfInfo.Some?
    ensures Sound(Answer(f, c)) && Complete(Answer(f, c))
  {
    forall b: nat | b < |f.inboxes| && UpToDate(f, b)
      ensures UpToDate(Answer(f, c), b)
    {
      AnswerUpToDate(f, c, b);
    }
  }

  lemma AnswerKeeps(f: Fanout, c: nat)
    requires FanoutInv(f) && c < |f.inboxes| && f.selfInfo.Some?
    ensures FanoutInv(Answer(f, c))
  {
    AnswerComplete(f, c);
    PutStretches(f, c, Reply(Frame(f.selfInfo.value)));
  }

  // ------------------------------------------------------------- consequences

  /**
   No desync towards a client: whenever it joined, its stream starts on a unit boundary, and however the
   bytes reach it, deframing gives exactly the frames it was sent, in order.
   */
  lemma ClientRecovers(b: Inbox, all: seq<Unit>, chunks: seq<seq<byte>>)
    requires Stretch(b, all)
    requires Concat(chunks) == Flatten(DeliveredUnits(b.got))
    ensures var d := FeedAll(NODE_MARKER, [], chunks);
            && Frames(d.units) == Frames(DeliveredUnits(b.got))
            && |d.rest| < 3 && MarkerFree(NODE_MARKER, d.rest)
  {
    var us := DeliveredUnits(b.got);
    FeedAllFaithful(NODE_MARKER, [], chunks);
    ParseUnits(NODE_MARKER, us, []);
    Empty(Flatten(us));
    Empty(Frames(us));
    var rest := FeedAll(NODE_MARKER, [], chunks).rest;
    assert Leftover(NODE_MARKER, rest, []);
    assert rest[..|rest| - 0] == rest;
  }
}
