/**
 Admission of large requests, and the bound on the bytes that an admitted request hands to the application.

 Admission and release happen under one lock, so every interleaving of requests is a sequence of them.
 */
module RequestAdmission {
  import opened Wrappers

  // ---- Accounting ----

  datatype Kind = Multipart | Mcp

  /** What an admitted request will give back; `serial` tells equal tickets apart. */
  datatype Ticket = Ticket(serial: nat, kind: Kind, temporaryBytes: nat)

  function CountOf(tickets: seq<Ticket>, kind: Kind): nat {
    if tickets == [] then 0 else (if tickets[0].kind == kind then 1 else 0) + CountOf(tickets[1..], kind)
  }

  function BytesOf(tickets: seq<Ticket>): nat {
    if tickets == [] then 0 else tickets[0].temporaryBytes + BytesOf(tickets[1..])
  }

  lemma {:induction false} Appending(tickets: seq<Ticket>, t: Ticket, kind: Kind)
    ensures CountOf(tickets + [t], kind) == CountOf(tickets, kind) + (if t.kind == kind then 1 else 0)
    ensures BytesOf(tickets + [t]) == BytesOf(tickets) + t.temporaryBytes
  {
    if tickets == [] {
      assert tickets + [t] == [t];
    } else {
      assert (tickets + [t])[1..] == tickets[1..] + [t];
      Appending(tickets[1..], t, kind);
    }
  }

  lemma {:induction false} Removing(tickets: seq<Ticket>, k: nat, kind: Kind)
    requires k < |tickets|
    ensures CountOf(tickets, kind)
         == CountOf(tickets[..k] + tickets[k + 1..], kind) + (if tickets[k].kind == kind then 1 else 0)
    ensures BytesOf(tickets) == BytesOf(tickets[..k] + tickets[k + 1..]) + tickets[k].temporaryBytes
  {
    var rest := tickets[..k] + tickets[k + 1..];
    if k == 0 {
      assert rest == tickets[1..];
    } else {
      assert rest[1..] == tickets[1..][..k - 1] + tickets[1..][k..];
      assert rest[0] == tickets[0];
      Removing(tickets[1..], k - 1, kind);
    }
  }

  /** Tickets are told apart by their serials, and only uploads hold temporary space. */
  predicate Issued(tickets: seq<Ticket>, next: nat) {
    && (forall k :: 0 <= k < |tickets| ==> tickets[k].serial < next)
    && (forall k :: 0 <= k < |tickets| ==> tickets[k].kind == Mcp ==> tickets[k].temporaryBytes == 0)
    && (forall j, k :: 0 <= j < k < |tickets| ==> tickets[j].serial != tickets[k].serial)
  }

  lemma {:induction false} RemovingKeepsIssued(tickets: seq<Ticket>, k: nat, next: nat)
    requires Issued(tickets, next) && k < |tickets|
    ensures var rest := tickets[..k] + tickets[k + 1..];
            Issued(rest, next) && tickets[k] !in rest
  {
    var rest := tickets[..k] + tickets[k + 1..];
    forall j | 0 <= j < |rest| ensures rest[j] == tickets[if j < k then j else j + 1] {
    }
  }

  datatype Limits = Limits(multipart: nat, mcp: nat, threshold: nat)

  /** What admission looks at: the body limit, the declared length, and the route's two flags. */
  datatype Request = Request(limit: nat, declared: Option<nat>, multipartRoute: bool, mcpRoute: bool)

  predicate LargeMultipart(r: Request, limits: Limits) {
    r.limit > limits.threshold && !r.mcpRoute && r.multipartRoute
  }

  predicate LargeMcp(r: Request, limits: Limits) {
    r.mcpRoute && r.limit > limits.threshold && (r.declared == None || r.declared.value > limits.threshold)
  }

  function Reservation(r: Request): nat {
    if r.declared.Some? then r.declared.value else r.limit
  }

  datatype Verdict = TooLarge | TooMany | NoSpace | Small | Admitted(ticket: Ticket)

  class Admission {
    const limits: Limits
    var activeLarge: int
    var activeMcp: int
    var reservedBytes: int
    ghost var inFlight: seq<Ticket>
    var nextSerial: nat

    constructor (limits: Limits)
      ensures Valid() && this.limits == limits && inFlight == []
    {
      this.limits := limits;
      activeLarge, activeMcp, reservedBytes, inFlight, nextSerial := 0, 0, 0, [], 0;
    }

    /** The counters are exactly the admitted requests that have not been released, and within the limits. */
    ghost predicate Valid()
      reads this
    {
      && activeLarge == CountOf(inFlight, Multipart) <= limits.multipart
      && activeMcp == CountOf(inFlight, Mcp) <= limits.mcp
      && reservedBytes == BytesOf(inFlight)
      && Issued(inFlight, nextSerial)
    }

    /** Admits a large request exactly if its kind has room and, for uploads, two copies of it fit on the disk. */
    method Admit(r: Request, spaceFor: nat -> bool) returns (verdict: Verdict)
      requires Valid()
      modifies this
      ensures Valid()
      ensures verdict == TooLarge <==> r.declared.Some? && r.declared.value > r.limit
      ensures verdict == Small <==>
                !(r.declared.Some? && r.declared.value > r.limit) && !LargeMultipart(r, limits) && !LargeMcp(r, limits)
      ensures verdict == TooMany <==>
                && !(r.declared.Some? && r.declared.value > r.limit)
                && ((LargeMultipart(r, limits) && CountOf(old(inFlight), Multipart) >= limits.multipart)
                    || (LargeMcp(r, limits) && CountOf(old(inFlight), Mcp) >= limits.mcp))
      ensures verdict == NoSpace ==> LargeMultipart(r, limits) && !spaceFor(2 * Reservation(r))
      ensures verdict.Admitted? ==>
                && inFlight == old(inFlight) + [verdict.ticket]
                && (if LargeMultipart(r, limits)
                    then verdict.ticket.kind == Multipart && verdict.ticket.temporaryBytes == 2 * Reservation(r)
                         && spaceFor(2 * Reservation(r)) && CountOf(old(inFlight), Multipart) < limits.multipart
                    else verdict.ticket.kind == Mcp && verdict.ticket.temporaryBytes == 0
                         && LargeMcp(r, limits) && CountOf(old(inFlight), Mcp) < limits.mcp)
      ensures !verdict.Admitted? ==> inFlight == old(inFlight)
    {
      if r.declared.Some? && r.declared.value > r.limit {
        return TooLarge;
      }
      if !LargeMultipart(r, limits) && !LargeMcp(r, limits) {
        return Small;
      }
      if LargeMultipart(r, limits) && activeLarge >= limits.multipart {
        return TooMany;
      }
      if LargeMcp(r, limits) && activeMcp >= limits.mcp {
        return TooMany;
      }
      var kind, bytes := Mcp, 0;
      if LargeMultipart(r, limits) {
        kind, bytes := Multipart, 2 * Reservation(r);
        if !spaceFor(bytes) {
          return NoSpace;
        }
        activeLarge := activeLarge + 1;
        reservedBytes := reservedBytes + bytes;
      } else {
        activeMcp := activeMcp + 1;
      }
      var ticket := Ticket(nextSerial, kind, bytes);
      Appending(inFlight, ticket, Multipart);
      Appending(inFlight, ticket, Mcp);
      inFlight := inFlight + [ticket];
      nextSerial := nextSerial + 1;
      return Admitted(ticket);
    }

    /** Gives back what one admitted request holds; the counters cannot underflow. */
    method Release(ticket: Ticket) returns (underflow: bool)
      requires Valid() && ticket in inFlight
      modifies this
      ensures Valid() && !underflow
      ensures ticket !in inFlight
      ensures exists k :: 0 <= k < |old(inFlight)| && old(inFlight)[k] == ticket
                       && inFlight == old(inFlight)[..k] + old(inFlight)[k + 1..]
    {
      ghost var k :| 0 <= k < |inFlight| && inFlight[k] == ticket;
      Removing(inFlight, k, Multipart);
      Removing(inFlight, k, Mcp);
      RemovingKeepsIssued(inFlight, k, nextSerial);
      inFlight := inFlight[..k] + inFlight[k + 1..];
      if ticket.kind == Multipart {
        activeLarge := activeLarge - 1;
        reservedBytes := reservedBytes - ticket.temporaryBytes;
      } else {
        activeMcp := activeMcp - 1;
      }
      underflow := activeLarge < 0 || activeMcp < 0 || reservedBytes < 0;
    }
  }

  // ---- The bounded body ----

  /** What the server hands over when the application asks for more, and what the application sends. */
  datatype Event = Chunk(size: nat) | Disconnect | Start | Body

  /** How the application ends.  It may also have swallowed the boundary's error and ended otherwise. */
  datatype Exit = Returned | BoundaryError | OtherError

  datatype Sent = AppStart | AppBody | Rejected(status: nat)

  datatype Delivered = Bytes(size: nat) | Gone

  function TotalOf(delivered: seq<Delivered>): nat {
    if delivered == [] then 0
    else (if delivered[0].Bytes? then delivered[0].size else 0) + TotalOf(delivered[1..])
  }

  lemma {:induction false} TotalAppends(delivered: seq<Delivered>, d: Delivered)
    ensures TotalOf(delivered + [d]) == TotalOf(delivered) + (if d.Bytes? then d.size else 0)
  {
    if delivered == [] {
      assert delivered + [d] == [d];
    } else {
      assert (delivered + [d])[1..] == delivered[1..] + [d];
      TotalAppends(delivered[1..], d);
    }
  }

  /** The tighter of the limit and the declared length. */
  function Bound(limit: nat, declared: Option<nat>): nat {
    if declared.Some? && declared.value < limit then declared.value else limit
  }

  /** All bytes that reach the boundary, whether or not they are handed on. */
  function Wire(events: seq<Event>): nat {
    if events == [] then 0
    else Wire(events[..|events| - 1]) + (if events[|events| - 1].Chunk? then events[|events| - 1].size else 0)
  }

  /** What the application gets: every chunk up to the first that crosses the bound, none after it. */
  function Handed(events: seq<Event>, bound: nat): seq<Delivered> {
    if events == [] then []
    else
      var last := events[|events| - 1];
      Handed(events[..|events| - 1], bound) +
      match last
      case Chunk(size) => if Wire(events) <= bound then [Bytes(size)] else []
      case Disconnect => [Gone]
      case _ => []
  }

  /** What the client gets of the application's messages: those before the bound was crossed. */
  function Passed(events: seq<Event>, bound: nat): seq<Sent> {
    if events == [] then []
    else
      var last := events[|events| - 1];
      Passed(events[..|events| - 1], bound) +
      match last
      case Start => if Wire(events) <= bound then [AppStart] else []
      case Body => if Wire(events) <= bound then [AppBody] else []
      case _ => []
  }

  /** However the application behaves, it is handed at most the bound, and all of the body if that is within it. */
  lemma {:induction false} HandedIsBounded(events: seq<Event>, bound: nat)
    ensures TotalOf(Handed(events, bound)) <= bound
    ensures Wire(events) <= bound ==> TotalOf(Handed(events, bound)) == Wire(events)
    ensures TotalOf(Handed(events, bound)) <= Wire(events)
  {
    if events != [] {
      var before := events[..|events| - 1];
      HandedIsBounded(before, bound);
      match events[|events| - 1]
      case Chunk(size) =>
        if Wire(events) <= bound {
          TotalAppends(Handed(before, bound), Bytes(size));
        } else {
          assert Handed(before, bound) + [] == Handed(before, bound);
        }
      case Disconnect => TotalAppends(Handed(before, bound), Gone);
      case _ => assert Handed(before, bound) + [] == Handed(before, bound);
    }
  }

  /**
   Runs the application against the bounded receive and send.  The application is any sequence of requests for
   input and of messages, and ends in any way; it may swallow the error that the boundary raises and go on.  Only
   that error is suppressed: any other is raised on, past the boundary's own answer.
   */
  method RunBoundedRequest(events: seq<Event>, exit: Exit, limit: nat, declared: Option<nat>)
    returns (delivered: seq<Delivered>, sent: seq<Sent>, raised: bool)
    requires declared.Some? ==> declared.value <= limit
    ensures delivered == Handed(events, Bound(limit, declared))
    ensures sent == Response(events, exit, limit, declared)
    ensures raised <==> exit == OtherError
  {
    var received, invalidContentLength, oversized := 0, false, false;
    delivered, sent := [], [];
    for k := 0 to |events|
      invariant received == Wire(events[..k])
      invariant delivered == Handed(events[..k], Bound(limit, declared))
      invariant sent == Passed(events[..k], Bound(limit, declared))
      invariant invalidContentLength == (declared.Some? && received > declared.value)
      invariant oversized == (declared == None && received > limit)
    {
      assert events[..k + 1][..k] == events[..k];
      match events[k]
      case Chunk(size) =>
        received := received + size;
        if declared.Some? && received > declared.value {
          invalidContentLength := true;
        } else if received > limit {
          oversized := true;
        } else {
          delivered := delivered + [Bytes(size)];
        }
      case Disconnect => delivered := delivered + [Gone];
      case Start =>
        if !oversized && !invalidContentLength {
          sent := sent + [AppStart];
        }
      case Body =>
        if !oversized && !invalidContentLength {
          sent := sent + [AppBody];
        }
    }
    assert events[..|events|] == events;
    raised := exit == OtherError;
    if raised {
      return;
    }
    if invalidContentLength {
      sent := sent + [Rejected(400)];
    } else if oversized {
      sent := sent + [Rejected(413)];
    }
  }

  /** The boundary's own answer: 400 beyond a declared length, 413 beyond the limit when none was declared. */
  function Verdicts(wire: nat, limit: nat, declared: Option<nat>): seq<Sent> {
    if declared.Some? then (if wire > declared.value then [Rejected(400)] else [])
    else if wire > limit then [Rejected(413)] else []
  }

  /** All that the client gets. */
  function Response(events: seq<Event>, exit: Exit, limit: nat, declared: Option<nat>): seq<Sent> {
    Passed(events, Bound(limit, declared)) +
    if exit == OtherError then [] else Verdicts(Wire(events), limit, declared)
  }

  predicate Starts(s: Sent) {
    s == AppStart || s.Rejected?
  }

  function StartsIn(sent: seq<Sent>): nat {
    if sent == [] then 0 else StartsIn(sent[..|sent| - 1]) + (if Starts(sent[|sent| - 1]) then 1 else 0)
  }

  /** The application began to answer while everything it had been sent was still within the bound. */
  predicate AnsweredWithin(events: seq<Event>, bound: nat) {
    exists k :: 0 <= k < |events| && events[k].Start? && Wire(events[..k]) <= bound
  }

  lemma {:induction false} AnswersArePassed(events: seq<Event>, bound: nat)
    ensures AppStart in Passed(events, bound) <==> AnsweredWithin(events, bound)
  {
    if events != [] {
      AnswersArePassed(events[..|events| - 1], bound);
      AnsweredSoFar(events, bound);
    }
  }

  lemma {:induction false} AnsweredSoFar(events: seq<Event>, bound: nat)
    requires events != []
    ensures var before, last := events[..|events| - 1], events[|events| - 1];
            AnsweredWithin(events, bound) <==> AnsweredWithin(before, bound) || (last.Start? && Wire(before) <= bound)
  {
    var before, n := events[..|events| - 1], |events| - 1;
    assert forall k :: 0 <= k < n ==> before[k] == events[k] && before[..k] == events[..k];
    if AnsweredWithin(before, bound) {
      var k :| 0 <= k < n && before[k].Start? && Wire(before[..k]) <= bound;
      assert events[k].Start? && Wire(events[..k]) <= bound;
    }
  }

  /** The client gets one response, and it is the boundary's rejection. */
  predicate RejectedOnce(sent: seq<Sent>) {
    StartsIn(sent) == 1 && exists k :: 0 <= k < |sent| && sent[k].Rejected?
  }

  /**
   An oversized body is answered by the rejection alone exactly if the application did not begin to answer before
   it was sent more than the bound, and does not end in an error of its own.
   */
  lemma {:induction false} OversizedIsRejectedOnce(events: seq<Event>, exit: Exit, limit: nat, declared: Option<nat>)
    requires Verdicts(Wire(events), limit, declared) != []
    ensures RejectedOnce(Response(events, exit, limit, declared))
        <==> exit != OtherError && !AnsweredWithin(events, Bound(limit, declared))
  {
    var passed, sent := Passed(events, Bound(limit, declared)), Response(events, exit, limit, declared);
    OnlyAppMessages(events, Bound(limit, declared));
    if exit == OtherError {
      assert sent == passed;
    } else {
      RejectionIsSecondResponse(events, exit, limit, declared);
      assert sent[|sent| - 1].Rejected? && StartsIn(sent) >= 1;
    }
  }

  /**
   The rejection is a second response exactly if the application began to answer before it was sent more than the
   bound, since what went out before cannot be taken back, and did not end in an error of its own.
   */
  lemma {:induction false} RejectionIsSecondResponse(events: seq<Event>, exit: Exit, limit: nat, declared: Option<nat>)
    requires Verdicts(Wire(events), limit, declared) != []
    ensures var sent := Response(events, exit, limit, declared);
            StartsIn(sent) > 1 && sent[|sent| - 1].Rejected?
            <==> exit != OtherError && AnsweredWithin(events, Bound(limit, declared))
  {
    var passed, sent := Passed(events, Bound(limit, declared)), Response(events, exit, limit, declared);
    OnlyAppMessages(events, Bound(limit, declared));
    if exit == OtherError {
      assert sent == passed;
    } else {
      var verdicts := Verdicts(Wire(events), limit, declared);
      assert |verdicts| == 1 && verdicts == [verdicts[0]] && sent == passed + verdicts;
      OneMoreStart(passed, verdicts[0]);
      StartsFound(passed);
      AnswersArePassed(events, Bound(limit, declared));
    }
  }

  lemma {:induction false} OneMoreStart(sent: seq<Sent>, last: Sent)
    requires Starts(last)
    ensures StartsIn(sent + [last]) == StartsIn(sent) + 1
  {
    assert (sent + [last])[..|sent|] == sent;
  }

  lemma {:induction false} OnlyAppMessages(events: seq<Event>, bound: nat)
    ensures forall k :: 0 <= k < |Passed(events, bound)| ==> !Passed(events, bound)[k].Rejected?
  {
    if events != [] {
      OnlyAppMessages(events[..|events| - 1], bound);
    }
  }

  lemma {:induction false} StartsFound(sent: seq<Sent>)
    requires forall k :: 0 <= k < |sent| ==> !sent[k].Rejected?
    ensures StartsIn(sent) > 0 <==> AppStart in sent
  {
    if sent != [] {
      StartsFound(sent[..|sent| - 1]);
      assert sent == sent[..|sent| - 1] + [sent[|sent| - 1]];
    }
  }

  /** Two shortest counterexamples: answer first and then read too much, or fail on having read too much. */
  lemma AnsweringBeforeReading()
    ensures Response([Start, Chunk(2)], BoundaryError, 10, Some(1)) == [AppStart, Rejected(400)]
    ensures Response([Chunk(2)], OtherError, 10, Some(1)) == []
  {
    assert [Start, Chunk(2)][..1] == [Start] && [Start][..0] == [] && [Chunk(2)][..0] == [];
    assert Wire([Start]) == 0 && Wire([Start, Chunk(2)]) == 2 && Wire([Chunk(2)]) == 2;
    assert Passed([Start], 1) == [AppStart] && Passed([Chunk(2)], 1) == [];
  }
}
