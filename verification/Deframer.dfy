/**
 The streaming deframer of the TCP fan-out proxy. Both directions use the same loop: a marker byte
 ('<' towards the node, '>' towards the clients), a little-endian 16-bit length and the payload.
 Bytes that do not start with the marker are passed on as junk up to the next marker.

 `Drain` is that loop as a function and `DeframeRead` the loop itself. `Parse` is an independent,
 byte-at-a-time reading of the same stream that drops junk; it says what the frames of a stream are
 without any buffer, and everything about chunking and interleaving is proved through it.
 */
module Deframer {
  import opened Bytes
  import opened Seqs

  /** '<' : client to node. */
  const CLIENT_MARKER: byte := 0x3C
  /** '>' : node to client. */
  const NODE_MARKER: byte := 0x3E

  /** What one turn of the loop takes off the buffer. */
  datatype Unit = Frame(bytes: seq<byte>) | Junk(bytes: seq<byte>)

  datatype Drained = Drained(units: seq<Unit>, rest: seq<byte>)

  datatype Parsed = Parsed(frames: seq<seq<byte>>, tail: seq<byte>)

  function Le16(lo: byte, hi: byte): (n: nat)
  {
    lo + 0x100 * hi
  }

  /** `frame`: the marker, the length in two bytes, the payload. */
  function EncodeFrame(marker: byte, payload: seq<byte>): (f: seq<byte>)
    requires |payload| < 0x1_0000
  {
    [marker, |payload| % 0x100, |payload| / 0x100] + payload
  }

  predicate MarkerFree(marker: byte, s: seq<byte>)
  {
    marker !in s
  }

  predicate IsFrame(marker: byte, s: seq<byte>)
  {
    |s| >= 3 && s[0] == marker && |s| == 3 + Le16(s[1], s[2])
  }

  /** A frame that has started but of which bytes are still to come (or nothing at all). */
  predicate IsPartial(marker: byte, s: seq<byte>)
  {
    s == [] || (s[0] == marker && (|s| < 3 || |s| < 3 + Le16(s[1], s[2])))
  }

  predicate WellFormed(marker: byte, u: Unit)
  {
    match u
    case Frame(bytes) => IsFrame(marker, bytes)
    case Junk(bytes) => bytes != [] && MarkerFree(marker, bytes)
  }

  predicate AllWellFormed(marker: byte, us: seq<Unit>)
  {
    forall u :: u in us ==> WellFormed(marker, u)
  }

  /** `buf.find(marker, from)`, with the length of the buffer standing in for "not found". */
  function FindFrom(buf: seq<byte>, marker: byte, from: nat): (i: nat)
    requires from <= |buf|
    ensures from <= i <= |buf|
    ensures marker !in buf[from..i]
    ensures i < |buf| ==> buf[i] == marker
    decreases |buf| - from
  {
    if from == |buf| || buf[from] == marker then from
    else
      var i := FindFrom(buf, marker, from + 1);
      assert buf[from..i] == [buf[from]] + buf[from + 1..i];
      i
  }

  /** The next unit on the buffer, and what is left behind it. */
  datatype Turn = Wait | Take(unit: Unit, rest: seq<byte>)

  function NextUnit(marker: byte, buf: seq<byte>): (t: Turn)
    ensures t.Take? ==> WellFormed(marker, t.unit) && t.unit.bytes + t.rest == buf && |t.rest| < |buf|
    ensures t.Wait? <==> (|buf| < 3 || (buf[0] == marker && |buf| < 3 + Le16(buf[1], buf[2])))
  {
    if |buf| < 3 then Wait
    else if buf[0] != marker then
      var cut := FindFrom(buf, marker, 1);
      assert buf[..cut] == [buf[0]] + buf[1..cut];
      Take(Junk(buf[..cut]), buf[cut..])
    else
      var ln := Le16(buf[1], buf[2]);
      if |buf| < 3 + ln then Wait
      else Take(Frame(buf[..3 + ln]), buf[3 + ln..])
  }

  /** The inner loop: units until the buffer holds no complete one. */
  function Drain(marker: byte, buf: seq<byte>): (d: Drained)
    decreases |buf|
  {
    match NextUnit(marker, buf)
    case Wait => Drained([], buf)
    case Take(unit, rest) =>
      var d := Drain(marker, rest);
      Drained([unit] + d.units, d.rest)
  }

  function FrameOf(u: Unit): (fs: seq<seq<byte>>)
  {
    if u.Frame? then [u.bytes] else []
  }

  function Frames(us: seq<Unit>): (fs: seq<seq<byte>>)
  {
    if us == [] then [] else FrameOf(us[0]) + Frames(us[1..])
  }

  function Flatten(us: seq<Unit>): (s: seq<byte>)
  {
    if us == [] then [] else us[0].bytes + Flatten(us[1..])
  }

  /** The frames of a byte stream, read without buffer, chunks or junk units. */
  function Parse(marker: byte, s: seq<byte>): (p: Parsed)
    decreases |s|
  {
    if s == [] then Parsed([], [])
    else if s[0] != marker then Parse(marker, s[1..])
    else if IsPartial(marker, s) then Parsed([], s)
    else
      var n := 3 + Le16(s[1], s[2]);
      var p := Parse(marker, s[n..]);
      Parsed([s[..n]] + p.frames, p.tail)
  }

  function Concat<T>(chunks: seq<seq<T>>): (s: seq<T>)
  {
    if chunks == [] then [] else chunks[0] + Concat(chunks[1..])
  }

  /** Every read of a connection in turn: what was left over before each one, and all units emitted. */
  function FeedAll(marker: byte, buf: seq<byte>, chunks: seq<seq<byte>>): (d: Drained)
    decreases |chunks|
  {
    if chunks == [] then Drained([], buf)
    else
      var d := Drain(marker, buf + chunks[0]);
      var e := FeedAll(marker, d.rest, chunks[1..]);
      Drained(d.units + e.units, e.rest)
  }

  // ---------------------------------------------------------------- one buffer

  /** Conservation and well-formedness: nothing is lost, every unit is a whole frame or free of markers. */
  lemma {:induction false} DrainConserves(marker: byte, buf: seq<byte>)
    ensures var d := Drain(marker, buf);
            && Flatten(d.units) + d.rest == buf
            && AllWellFormed(marker, d.units)
            && NextUnit(marker, d.rest).Wait?
    decreases |buf|
  {
    match NextUnit(marker, buf)
    case Wait =>
    case Take(unit, rest) =>
      DrainConserves(marker, rest);
      var d := Drain(marker, rest);
      Cons(unit, d.units);
      Assoc(unit.bytes, Flatten(d.units), d.rest);
  }

  lemma {:induction false} ParseSkipsJunk(marker: byte, junk: seq<byte>, s: seq<byte>)
    requires MarkerFree(marker, junk)
    ensures Parse(marker, junk + s) == Parse(marker, s)
  {
    if junk == [] {
      Empty(s);
    } else {
      ConsConcat(junk, s);
      assert junk[0] in junk;
      ParseSkipsJunk(marker, junk[1..], s);
    }
  }

  lemma ParseTakesFrame(marker: byte, f: seq<byte>, s: seq<byte>)
    requires IsFrame(marker, f)
    ensures Parse(marker, f + s) == Parsed([f] + Parse(marker, s).frames, Parse(marker, s).tail)
  {
    var t := f + s;
    assert t[0] == f[0] && t[1] == f[1] && t[2] == f[2];
    Split(f, s);
  }

  lemma ParseTakesUnit(marker: byte, u: Unit, s: seq<byte>)
    requires WellFormed(marker, u)
    ensures Parse(marker, u.bytes + s) == Parsed(FrameOf(u) + Parse(marker, s).frames, Parse(marker, s).tail)
  {
    match u
    case Frame(f) => ParseTakesFrame(marker, f, s);
    case Junk(j) => ParseSkipsJunk(marker, j, s);
  }

  /** Whatever whole units precede a stream, parsing recovers exactly their frames and then the rest. */
  lemma {:induction false} ParseUnits(marker: byte, us: seq<Unit>, s: seq<byte>)
    requires AllWellFormed(marker, us)
    ensures Parse(marker, Flatten(us) + s)
         == Parsed(Frames(us) + Parse(marker, s).frames, Parse(marker, s).tail)
  {
    if us == [] {
      Empty(s);
      Empty(Parse(marker, s).frames);
    } else {
      var u, more := us[0], us[1..];
      TailWellFormed(marker, us);
      ParseUnits(marker, more, s);
      Assoc(u.bytes, Flatten(more), s);
      ParseTakesUnit(marker, u, Flatten(more) + s);
      Assoc(FrameOf(u), Frames(more), Parse(marker, s).frames);
    }
  }

  lemma TailWellFormed(marker: byte, us: seq<Unit>)
    requires us != [] && AllWellFormed(marker, us)
    ensures WellFormed(marker, us[0]) && AllWellFormed(marker, us[1..])
  {
  }

  /** The buffered loop and the byte-at-a-time reading agree on the frames of any buffer. */
  lemma DrainParses(marker: byte, buf: seq<byte>)
    ensures var d := Drain(marker, buf);
            && Parse(marker, buf).frames == Frames(d.units)
            && Parse(marker, buf).tail == Parse(marker, d.rest).tail
            && Parse(marker, d.rest).frames == []
            && Leftover(marker, d.rest, Parse(marker, buf).tail)
  {
    DrainConserves(marker, buf);
    var d := Drain(marker, buf);
    ParseUnits(marker, d.units, d.rest);
    WaitingTail(marker, d.rest);
  }

  /** `rest` is `tail` behind at most two bytes, none of them the marker. */
  predicate Leftover(marker: byte, rest: seq<byte>, tail: seq<byte>)
  {
    && |tail| <= |rest| <= |tail| + 2
    && rest[|rest| - |tail|..] == tail
    && MarkerFree(marker, rest[..|rest| - |tail|])
    && IsPartial(marker, tail)
    && (tail != [] && tail != rest ==> |rest| < 3)
  }

  lemma WaitingTail(marker: byte, rest: seq<byte>)
    requires NextUnit(marker, rest).Wait?
    ensures Parse(marker, rest).frames == []
    ensures Leftover(marker, rest, Parse(marker, rest).tail)
  {
    if rest == [] || rest[0] == marker {
      return;
    }
    var junk := if |rest| == 2 && rest[1] != marker then rest else rest[..1];
    assert MarkerFree(marker, junk);
    assert rest == junk + rest[|junk|..];
    ParseSkipsJunk(marker, junk, rest[|junk|..]);
  }

  /** A partial tail does not change when it is parsed again with more behind it. */
  lemma {:induction false} ParseAppend(marker: byte, s: seq<byte>, t: seq<byte>)
    ensures var p := Parse(marker, s);
            var q := Parse(marker, p.tail + t);
            Parse(marker, s + t) == Parsed(p.frames + q.frames, q.tail)
    decreases |s|
  {
    if s == [] {
      Empty(t);
    } else if s[0] != marker {
      ConsConcat(s, t);
      ParseAppend(marker, s[1..], t);
    } else if !IsPartial(marker, s) {
      var n := 3 + Le16(s[1], s[2]);
      assert s[..n] + s[n..] == s;
      Assoc(s[..n], s[n..], t);
      ParseTakesFrame(marker, s[..n], s[n..] + t);
      ParseAppend(marker, s[n..], t);
      Assoc([s[..n]], Parse(marker, s[n..]).frames, Parse(marker, Parse(marker, s[n..]).tail + t).frames);
    }
  }

  // ------------------------------------------------------------- many chunks

  /** `d` is a faithful deframing of `stream`: nothing lost, exactly its frames, nothing left undone. */
  ghost predicate Faithful(marker: byte, d: Drained, stream: seq<byte>)
  {
    && AllWellFormed(marker, d.units)
    && Flatten(d.units) + d.rest == stream
    && Frames(d.units) == Parse(marker, stream).frames
    && Leftover(marker, d.rest, Parse(marker, stream).tail)
    && NextUnit(marker, d.rest).Wait?
  }

  lemma DrainFaithful(marker: byte, buf: seq<byte>)
    ensures Faithful(marker, Drain(marker, buf), buf)
  {
    DrainConserves(marker, buf);
    DrainParses(marker, buf);
  }

  /** What every chunking of a stream has in common with reading it in one go. */
  lemma {:induction false} FeedAllFaithful(marker: byte, buf: seq<byte>, chunks: seq<seq<byte>>)
    requires NextUnit(marker, buf).Wait?
    ensures Faithful(marker, FeedAll(marker, buf, chunks), buf + Concat(chunks))
    decreases |chunks|
  {
    if chunks == [] {
      Empty(buf);
      DrainFaithful(marker, buf);
    } else {
      var head, more := buf + chunks[0], Concat(chunks[1..]);
      var d := Drain(marker, head);
      DrainFaithful(marker, head);
      FeedAllFaithful(marker, d.rest, chunks[1..]);
      Assoc(buf, chunks[0], more);
      ChunkStep(marker, head, more, d, FeedAll(marker, d.rest, chunks[1..]));
    }
  }

  lemma ChunkStep(marker: byte, head: seq<byte>, more: seq<byte>, d: Drained, e: Drained)
    requires Faithful(marker, d, head)
    requires Faithful(marker, e, d.rest + more)
    ensures Faithful(marker, Drained(d.units + e.units, e.rest), head + more)
  {
    var mid := d.rest + more;
    Assoc(Flatten(d.units), d.rest, more);
    ParseUnits(marker, d.units, mid);
    FramesConcat(d.units, e.units);
    FlattenConcat(d.units, e.units);
    Assoc(Flatten(d.units), Flatten(e.units), e.rest);
  }

  lemma {:induction false} FramesConcat(us: seq<Unit>, vs: seq<Unit>)
    ensures Frames(us + vs) == Frames(us) + Frames(vs)
  {
    if us == [] {
      Empty(vs);
      Empty(Frames(vs));
    } else {
      ConsConcat(us, vs);
      FramesConcat(us[1..], vs);
      Assoc(FrameOf(us[0]), Frames(us[1..]), Frames(vs));
    }
  }

  lemma {:induction false} FlattenConcat(us: seq<Unit>, vs: seq<Unit>)
    ensures Flatten(us + vs) == Flatten(us) + Flatten(vs)
  {
    if us == [] {
      Empty(vs);
      Empty(Flatten(vs));
    } else {
      ConsConcat(us, vs);
      FlattenConcat(us[1..], vs);
      Assoc(us[0].bytes, Flatten(us[1..]), Flatten(vs));
    }
  }

  /**
   Chunk invariance. However a stream is cut into reads, the same frames come out in the same order
   as from one single read; what was emitted plus what is left is the stream itself; and the two
   leftovers end in the same partial frame, behind at most two non-marker bytes each.
   */
  lemma ChunkInvariance(marker: byte, stream: seq<byte>, chunks: seq<seq<byte>>)
    requires Concat(chunks) == stream
    ensures var d := FeedAll(marker, [], chunks);
            var one := Drain(marker, stream);
            && Frames(d.units) == Frames(one.units)
            && Flatten(d.units) + d.rest == stream == Flatten(one.units) + one.rest
            && AllWellFormed(marker, d.units)
            && exists tail :: Leftover(marker, d.rest, tail) && Leftover(marker, one.rest, tail)
  {
    FeedAllFaithful(marker, [], chunks);
    Empty(stream);
    DrainFaithful(marker, stream);
    var tail := Parse(marker, stream).tail;
    assert Leftover(marker, FeedAll(marker, [], chunks).rest, tail);
  }

  /** `frame` then parse is the identity on payloads under 65536 bytes, wherever the frame sits. */
  lemma FrameRoundTrip(marker: byte, payload: seq<byte>, after: seq<byte>)
    requires |payload| < 0x1_0000
    ensures var f := EncodeFrame(marker, payload);
            && NextUnit(marker, f + after) == Take(Frame(f), after)
            && f[3..] == payload
  {
    var f := EncodeFrame(marker, payload);
    var s := f + after;
    assert s[0] == marker && s[1] == |payload| % 0x100 && s[2] == |payload| / 0x100;
    Split(f, after);
  }

  // ---------------------------------------------------------------- the loop

  /** Where a loop ends up that has taken `units` off and still has `rest` to go through. */
  function Onwards(marker: byte, units: seq<Unit>, rest: seq<byte>): (d: Drained)
  {
    Drained(units + Drain(marker, rest).units, Drain(marker, rest).rest)
  }

  lemma OneTurn(marker: byte, units: seq<Unit>, rest: seq<byte>)
    ensures var n := NextUnit(marker, rest);
            Onwards(marker, units, rest) == if n.Wait? then Drained(units, rest) else Onwards(marker, units + [n.unit], n.rest)
  {
    var n := NextUnit(marker, rest);
    if n.Wait? {
      Empty(units);
    } else {
      Assoc(units, [n.unit], Drain(marker, n.rest).units);
    }
  }

  /** One read: append the chunk, then take units off until the buffer holds no complete one. */
  method DeframeRead(marker: byte, buf: seq<byte>, data: seq<byte>) returns (units: seq<Unit>, rest: seq<byte>)
    ensures Drained(units, rest) == Drain(marker, buf + data)
  {
    units, rest := [], buf + data;
    Empty(Drain(marker, rest).units);
    while true
      invariant Drain(marker, buf + data) == Onwards(marker, units, rest)
      decreases |rest|
    {
      OneTurn(marker, units, rest);
      if |rest| < 3 {
        break;
      }
      if rest[0] != marker {
        var nxt := FindFrom(rest, marker, 1);
        units, rest := units + [Junk(rest[..nxt])], rest[nxt..];
        continue;
      }
      var ln := Le16(rest[1], rest[2]);
      if |rest| < 3 + ln {
        break;
      }
      units, rest := units + [Frame(rest[..3 + ln])], rest[3 + ln..];
    }
  }
}
