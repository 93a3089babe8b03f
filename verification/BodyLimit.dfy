/**
 The request body limit. The application's `receive` and `send` are wrapped: the first counts body
 bytes and stops the stream when there are too many, the second turns whatever the application then
 answers into a 413. An application is any list of reads and sends; it may swallow the exception of a
 refused read and go on.
 */
module BodyLimit {
  import opened Seqs
  import opened Wrappers

  /** What comes in: a piece of the request body, or anything else. */
  datatype Incoming = Request(size: nat) | Disconnect

  /** What goes out: the start of a response, or anything that follows it. */
  datatype Outgoing = Start(status: nat) | Body(text: string)

  datatype Event = Receive(incoming: Incoming) | Send(outgoing: Outgoing)

  /** How the application ends: it returns, it lets the exception of a refused read through, or another one. */
  datatype Ending = Returned | BodyTooLarge | Raised

  /** The header `content-length`: a number, something that `int` refuses, or absent. */
  datatype Declared = Absent | Unreadable | Length(n: int)

  datatype Scope = Scope(http: bool, httpMethod: string, declared: Declared)

  /** `_reject` */
  const REJECTION: seq<Outgoing> := [Start(413), Body("Payload te groot")]

  datatype State = State(received: nat, tooBig: bool, started: bool, answered: bool,
                         given: seq<Incoming>, sent: seq<Outgoing>)

  const FRESH: State := State(0, false, false, false, [], [])

  // ------------------------------------------------------------ what happens

  function Size(m: Incoming): (n: nat)
  {
    if m.Request? then m.size else 0
  }

  predicate Refused(s: State, m: Incoming, max: nat)
  {
    m.Request? && s.received + m.size > max
  }

  function AfterReceive(s: State, m: Incoming, max: nat): (t: State)
  {
    if Refused(s, m, max) then s.(received := s.received + m.size, tooBig := true)
    else s.(received := s.received + Size(m), given := s.given + [m])
  }

  function AfterSend(s: State, m: Outgoing): (t: State)
  {
    if s.answered then s
    else if m.Start? && s.tooBig then s.(answered := true, sent := s.sent + REJECTION)
    else s.(started := s.started || m.Start?, sent := s.sent + [m])
  }

  function AfterEvent(s: State, e: Event, max: nat): (t: State)
  {
    match e
    case Receive(m) => AfterReceive(s, m, max)
    case Send(m) => AfterSend(s, m)
  }

  function After(s: State, events: seq<Event>, max: nat): (t: State)
    decreases |events|
  {
    if events == [] then s else After(AfterEvent(s, events[0], max), events[1..], max)
  }

  function AfterEnding(s: State, ending: Ending): (t: State)
  {
    if ending.BodyTooLarge? && !s.started && !s.answered then s.(sent := s.sent + REJECTION) else s
  }

  /** Only a refused read raises that exception. */
  predicate Possible(events: seq<Event>, ending: Ending, max: nat)
  {
    ending.BodyTooLarge? ==> After(FRESH, events, max).tooBig
  }

  function Run(events: seq<Event>, ending: Ending, max: nat): (t: State)
  {
    AfterEnding(After(FRESH, events, max), ending)
  }

  // --------------------------------------------- what an application does

  function Reads(events: seq<Event>): (r: seq<Incoming>)
  {
    if events == [] then []
    else if events[0].Receive? then [events[0].incoming] + Reads(events[1..])
    else Reads(events[1..])
  }

  function Sends(events: seq<Event>): (r: seq<Outgoing>)
  {
    if events == [] then []
    else if events[0].Send? then [events[0].outgoing] + Sends(events[1..])
    else Sends(events[1..])
  }

  /** Whatever is sent before the first start. */
  function Early(sends: seq<Outgoing>): (r: seq<Outgoing>)
  {
    if sends == [] || sends[0].Start? then [] else [sends[0]] + Early(sends[1..])
  }

  function Starts(sends: seq<Outgoing>): (n: nat)
  {
    if sends == [] then 0 else (if sends[0].Start? then 1 else 0) + Starts(sends[1..])
  }

  function Total(pieces: seq<Incoming>): (n: nat)
  {
    if pieces == [] then 0 else Size(pieces[0]) + Total(pieces[1..])
  }

  lemma {:induction false} TotalConcat(a: seq<Incoming>, b: seq<Incoming>)
    ensures Total(a + b) == Total(a) + Total(b)
  {
    if a == [] {
      Empty(b);
    } else {
      ConsConcat(a, b);
      TotalConcat(a[1..], b);
    }
  }

  lemma {:induction false} StartsConcat(a: seq<Outgoing>, b: seq<Outgoing>)
    ensures Starts(a + b) == Starts(a) + Starts(b)
  {
    if a == [] {
      Empty(b);
    } else {
      ConsConcat(a, b);
      StartsConcat(a[1..], b);
    }
  }

  lemma {:induction false} AfterConcat(s: State, a: seq<Event>, b: seq<Event>, max: nat)
    ensures After(s, a + b, max) == After(After(s, a, max), b, max)
    decreases |a|
  {
    if a == [] {
      Empty(b);
    } else {
      ConsConcat(a, b);
      AfterConcat(AfterEvent(s, a[0], max), a[1..], b, max);
    }
  }

  // ------------------------------------------------ never more than the limit

  lemma {:induction false} GivenStays(s: State, events: seq<Event>, max: nat)
    requires Total(s.given) <= max && Total(s.given) <= s.received
    requires Total(s.given) < s.received ==> s.received > max
    ensures Total(After(s, events, max).given) <= max
    decreases |events|
  {
    if events != [] {
      var e := events[0];
      if e.Receive? {
        TotalConcat(s.given, [e.incoming]);
      }
      GivenStays(AfterEvent(s, e, max), events[1..], max);
    }
  }

  /** Whatever comes in and however the application reads, it is never handed more bytes than the limit. */
  lemma GivenWithinLimit(events: seq<Event>, ending: Ending, max: nat)
    ensures Total(Run(events, ending, max).given) <= max
  {
    GivenStays(FRESH, events, max);
  }

  // ------------------------------------------------------- within the limit

  lemma {:induction false} WithinFrom(s: State, events: seq<Event>, max: nat)
    requires !s.tooBig && !s.answered && s.received + Total(Reads(events)) <= max
    ensures var t := After(s, events, max);
            !t.tooBig && !t.answered && t.given == s.given + Reads(events) && t.sent == s.sent + Sends(events)
            && (t.started <==> s.started || Starts(Sends(events)) > 0)
            && t.received == s.received + Total(Reads(events))
    decreases |events|
  {
    if events == [] {
      Empty(s.given);
      Empty(s.sent);
    } else {
      var more := events[1..];
      WithinFrom(AfterEvent(s, events[0], max), more, max);
      if events[0].Receive? {
        Assoc(s.given, [events[0].incoming], Reads(more));
      } else {
        Assoc(s.sent, [events[0].outgoing], Sends(more));
      }
    }
  }

  /** A body within the limit: the middleware is not there. */
  lemma Transparent(events: seq<Event>, ending: Ending, max: nat)
    requires Total(Reads(events)) <= max && Possible(events, ending, max)
    ensures var t := Run(events, ending, max); t.given == Reads(events) && t.sent == Sends(events)
  {
    WithinFrom(FRESH, events, max);
    Empty(Reads(events));
    Empty(Sends(events));
  }

  // ------------------------------------------- over the limit, before a start

  lemma {:induction false} AnsweredSilent(s: State, events: seq<Event>, max: nat)
    requires s.answered
    ensures After(s, events, max).answered && After(s, events, max).sent == s.sent
    decreases |events|
  {
    if events != [] {
      AnsweredSilent(AfterEvent(s, events[0], max), events[1..], max);
    }
  }

  lemma {:induction false} TooBigFrom(s: State, events: seq<Event>, ending: Ending, max: nat)
    requires s.tooBig && !s.started && !s.answered
    ensures AfterEnding(After(s, events, max), ending).sent
         == s.sent + Early(Sends(events))
            + (if Starts(Sends(events)) > 0 || ending.BodyTooLarge? then REJECTION else [])
    decreases |events|
  {
    if events == [] {
      Empty(s.sent);
    } else {
      var e, more := events[0], events[1..];
      var t := AfterEvent(s, e, max);
      if e.Send? && e.outgoing.Start? {
        AnsweredSilent(t, more, max);
        Empty(s.sent);
      } else {
        TooBigFrom(t, more, ending, max);
        if e.Send? {
          Assoc(s.sent, [e.outgoing], Early(Sends(more)));
        }
      }
    }
  }

  /** The limit is crossed by the read `m`, and until then no response was started. */
  predicate CrossedFirst(before: seq<Event>, m: Incoming, max: nat)
  {
    Total(Reads(before)) <= max < Total(Reads(before)) + Size(m) && Starts(Sends(before)) == 0
  }

  lemma {:induction false} NoStartAllEarly(a: seq<Outgoing>, b: seq<Outgoing>)
    requires Starts(a) == 0
    ensures Early(a + b) == a + Early(b)
  {
    if a == [] {
      Empty(b);
      Empty(Early(b));
    } else {
      ConsConcat(a, b);
      NoStartAllEarly(a[1..], b);
      Assoc([a[0]], a[1..], Early(b));
      assert [a[0]] + a[1..] == a;
    }
  }

  /**
   Over the limit before a start: of the application's answer the client sees nothing from its start on,
   but a 413 as soon as there is an answer, or the exception comes through.
   */
  lemma OnlyRejected(before: seq<Event>, m: Incoming, after: seq<Event>, ending: Ending, max: nat)
    requires CrossedFirst(before, m, max)
    ensures Run(before + [Receive(m)] + after, ending, max).sent
         == Early(Sends(before) + Sends(after))
            + (if Starts(Sends(after)) > 0 || ending.BodyTooLarge? then REJECTION else [])
  {
    var s := After(FRESH, before, max);
    WithinFrom(FRESH, before, max);
    Empty(Sends(before));
    AfterConcat(FRESH, before + [Receive(m)], after, max);
    AfterConcat(FRESH, before, [Receive(m)], max);
    var t := AfterReceive(s, m, max);
    assert After(s, [Receive(m)], max) == After(t, [], max) == t by {
      assert [Receive(m)][1..] == [];
    }
    TooBigFrom(t, after, ending, max);
    NoStartAllEarly(Sends(before), Sends(after));
  }

  /** So an application that starts its answers with a start can only be refused or silent. */
  lemma RejectedOrSilent(before: seq<Event>, m: Incoming, after: seq<Event>, ending: Ending, max: nat)
    requires CrossedFirst(before, m, max)
    ensures var sent := Run(before + [Receive(m)] + after, ending, max).sent;
            (sent == REJECTION || sent == []) <==> Early(Sends(before) + Sends(after)) == []
  {
    OnlyRejected(before, m, after, ending, max);
    var early := Early(Sends(before) + Sends(after));
    EarlyNoStart(Sends(before) + Sends(after));
    Empty(early);
    if early != [] {
      assert (early + REJECTION)[0] == early[0];
    } else {
      Empty(REJECTION);
    }
  }

  lemma {:induction false} EarlyNoStart(sends: seq<Outgoing>)
    ensures Starts(Early(sends)) == 0
    ensures Early(sends) != [] ==> !Early(sends)[0].Start?
  {
    if sends != [] && !sends[0].Start? {
      EarlyNoStart(sends[1..]);
      Cons(sends[0], Early(sends[1..]));
    }
  }

  // --------------------------------------------------------- a single start

  lemma {:induction false} StartedOpen(s: State, events: seq<Event>, max: nat)
    requires s.started && !s.answered && Starts(Sends(events)) == 0
    ensures var t := After(s, events, max); t.started && !t.answered && t.sent == s.sent + Sends(events)
    decreases |events|
  {
    if events == [] {
      Empty(s.sent);
    } else {
      StartedOpen(AfterEvent(s, events[0], max), events[1..], max);
      if events[0].Send? {
        Assoc(s.sent, [events[0].outgoing], Sends(events[1..]));
      }
    }
  }

  /** Over the limit only after the application's one start: what it says goes through, and nothing else. */
  lemma AnsweredEarly(before: seq<Event>, after: seq<Event>, ending: Ending, max: nat)
    requires Total(Reads(before)) <= max
    requires Starts(Sends(before)) == 1 && Starts(Sends(after)) == 0
    ensures Run(before + after, ending, max).sent == Sends(before) + Sends(after)
  {
    WithinFrom(FRESH, before, max);
    Empty(Sends(before));
    AfterConcat(FRESH, before, after, max);
    StartedOpen(After(FRESH, before, max), after, max);
  }

  lemma {:induction false} StartsFrom(s: State, events: seq<Event>, ending: Ending, max: nat)
    requires Starts(s.sent) == if s.started || s.answered then 1 else 0
    requires Starts(s.sent) + Starts(Sends(events)) <= 1 || s.answered
    ensures Starts(AfterEnding(After(s, events, max), ending).sent) <= 1
    decreases |events|
  {
    assert Starts(REJECTION) == 1 by {
      assert REJECTION[1..] == [Body("Payload te groot")];
    }
    StartsConcat(s.sent, REJECTION);
    if events != [] {
      if events[0].Send? {
        StartsConcat(s.sent, [events[0].outgoing]);
      }
      StartsFrom(AfterEvent(s, events[0], max), events[1..], ending, max);
    }
  }

  /** The client never sees two responses, however reading and answering are mixed. */
  lemma OneResponse(events: seq<Event>, ending: Ending, max: nat)
    requires Starts(Sends(events)) <= 1
    ensures Starts(Run(events, ending, max).sent) <= 1
  {
    StartsFrom(FRESH, events, ending, max);
  }

  // --------------------------------------------------------- the middleware

  /** The flags of one request, and what has crossed the middleware in either direction. */
  class Guard {
    const max: nat
    var received: nat
    var tooBig: bool
    var started: bool
    var answered: bool
    var given: seq<Incoming>
    var sent: seq<Outgoing>

    ghost function Now(): (s: State)
      reads this
    {
      State(received, tooBig, started, answered, given, sent)
    }

    constructor (max: nat)
      ensures this.max == max && Now() == FRESH
    {
      this.max := max;
      received, tooBig, started, answered := 0, false, false, false;
      given, sent := [], [];
    }

    /** `limited_receive`; `None` stands for the exception. */
    method LimitedReceive(m: Incoming) returns (r: Option<Incoming>)
      modifies this
      ensures Now() == AfterReceive(old(Now()), m, max)
      ensures r == if Refused(old(Now()), m, max) then None else Some(m)
    {
      if m.Request? {
        received := received + m.size;
        if received > max {
          tooBig := true;
          return None;
        }
      }
      given := given + [m];
      return Some(m);
    }

    method Reject()
      modifies this
      ensures Now() == old(Now()).(sent := old(sent) + REJECTION)
    {
      sent := sent + [Start(413)];
      sent := sent + [Body("Payload te groot")];
      assert old(sent) + [Start(413)] + [Body("Payload te groot")] == old(sent) + REJECTION;
    }

    /** `guarded_send` */
    method GuardedSend(m: Outgoing)
      modifies this
      ensures Now() == AfterSend(old(Now()), m)
    {
      if answered {
        return;
      }
      if m.Start? {
        if tooBig {
          answered := true;
          Reject();
          return;
        }
        started := true;
      }
      sent := sent + [m];
    }
  }

  predicate Bypassed(scope: Scope)
  {
    !scope.http || scope.httpMethod in ["GET", "HEAD", "OPTIONS"]
  }

  /** An honest or unreadable declaration is refused before a byte is read. */
  predicate RefusedUnread(scope: Scope, max: nat)
  {
    scope.declared.Unreadable? || (scope.declared.Length? && scope.declared.n > max)
  }

  /** `__call__`, with the application as the list of what it does. */
  method Call(scope: Scope, max: nat, events: seq<Event>, ending: Ending)
      returns (given: seq<Incoming>, sent: seq<Outgoing>)
    ensures Bypassed(scope) ==> given == Reads(events) && sent == Sends(events)
    ensures !Bypassed(scope) && RefusedUnread(scope, max) ==> given == [] && sent == REJECTION
    ensures !Bypassed(scope) && !RefusedUnread(scope, max) ==>
      var t := Run(events, ending, max); given == t.given && sent == t.sent
    ensures !Bypassed(scope) ==> Total(given) <= max
  {
    if Bypassed(scope) {
      return Reads(events), Sends(events);
    }
    if scope.declared.Length? {
      if scope.declared.n > max {
        return [], REJECTION;
      }
    } else if scope.declared.Unreadable? {
      return [], REJECTION;
    }
    GivenWithinLimit(events, ending, max);
    var guard := new Guard(max);
    var i := 0;
    while i < |events|
      invariant i <= |events| && guard.max == max
      invariant After(FRESH, events, max) == After(guard.Now(), events[i..], max)
    {
      match events[i] {
        case Receive(m) =>
          var handed := guard.LimitedReceive(m);
        case Send(m) =>
          guard.GuardedSend(m);
      }
      i := i + 1;
    }
    if ending.BodyTooLarge? && !guard.started && !guard.answered {
      guard.Reject();
    }
    return guard.given, guard.sent;
  }
}
