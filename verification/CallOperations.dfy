/**
 The operations of a call leg (internal/sip/call.go): what each refuses, what it does to the leg, and
 when the state of a leg never moves backwards.
 */
module CallOperations {
  import opened Basics
  import opened CallState
  import Numerals

  datatype Direction = Inbound | Outbound

  datatype Op =
    | Trying
    | Ringing
    | EarlyMedia
    | Answer
    | Reject(code: int, text: string)
    | Hangup
    | HangupWithHeaders

  datatype Verdict = Go | Nothing | InvalidState(got: State) | InboundOnly | BadCode

  /** The checks an operation makes before it touches the wire. */
  function Guard(dir: Direction, op: Op, s: State): Verdict {
    match op
    case Trying =>
      if dir != Inbound then InboundOnly else if s != Init then InvalidState(s) else Go
    case Ringing =>
      if dir != Inbound then InboundOnly else if s != Init && s != State.Trying then InvalidState(s) else Go
    case EarlyMedia =>
      if dir != Inbound then InboundOnly
      else if s != Init && s != State.Trying && s != State.Ringing then InvalidState(s) else Go
    case Answer =>
      if s == Answered || s == Ended then InvalidState(s) else Go
    case Reject(code, _) =>
      if dir != Inbound then InboundOnly
      else if code < 400 || code > 699 then BadCode
      else if s == Answered || s == Ended then InvalidState(s) else Go
    case Hangup =>
      if s == Ended then Nothing else Go
    case HangupWithHeaders =>
      if s != Answered then InvalidState(s) else Go
  }

  /** What may be done when, said by how far the call has come. */
  lemma AllowedIff(dir: Direction, op: Op, s: State)
    ensures Guard(dir, op, s) == Go <==>
              match op
              case Trying => dir == Inbound && Rank(s) == 0
              case Ringing => dir == Inbound && Rank(s) <= 1
              case EarlyMedia => dir == Inbound && Rank(s) <= 2
              case Answer => Rank(s) <= 2
              case Reject(code, _) => dir == Inbound && 400 <= code <= 699 && Rank(s) <= 2
              case Hangup => Rank(s) <= 3
              case HangupWithHeaders => Rank(s) == 3
  {
  }

  function Target(op: Op): State {
    match op
    case Trying => State.Trying
    case Ringing => State.Ringing
    case EarlyMedia => State.Ringing
    case Answer => Answered
    case _ => Ended
  }

  predicate HangsUp(op: Op) {
    op.Hangup? || op.HangupWithHeaders?
  }

  function Reason(op: Op, wire: Option<string>): string {
    match op
    case Reject(code, text) => if code >= 0 then "rejected " + Numerals.Decimal(code) + " " + text else ""
    case Hangup => if wire.Some? then "hangup-err: " + wire.value else "local-hangup"
    case HangupWithHeaders => if wire.Some? then "hangup-err: " + wire.value else "local-hangup"
    case _ => ""
  }

  // ---- the guard and the update are separate steps ----

  /** An operation of the test goroutine that passed its guard and has not called setState yet. */
  datatype Pending = Nobody | Sending(op: Op, overtaken: bool) | Connecting(overtaken: bool)

  datatype Split = Split(dir: Direction, state: State, pending: Pending)

  datatype Step =
    | Begin(op: Op)           // the guard
    | Finish(wireOk: bool)    // the SIP stack has answered: setState, or give up
    | RemoteBye               // the dialog callback

  /** Invite builds an outbound leg and then sets it to answered without a guard. */
  function Created(dir: Direction): Split {
    Split(dir, Init, if dir == Outbound then Connecting(false) else Nobody)
  }

  function After(p: Pending): State
    requires !p.Nobody?
  {
    if p.Connecting? then Answered else Target(p.op)
  }

  predicate Completes(dir: Direction, p: Pending, wireOk: bool) {
    match p
    case Nobody => false
    case Connecting(_) => true
    case Sending(op, _) => wireOk || HangsUp(op) || (op.Answer? && dir == Outbound)
  }

  /** The leg after an operation that nothing interrupts; wire is the error the SIP stack reported, if any. */
  function Performed(dir: Direction, h: Shared, op: Op, wire: Option<string>, now: nat): Shared {
    if Guard(dir, op, h.state) == Go && Completes(dir, Sending(op, false), wire.None?)
    then Settled(h, Target(op), Reason(op, wire), now) else h
  }

  lemma PerformedNeverLowers(dir: Direction, h: Shared, op: Op, wire: Option<string>, now: nat)
    ensures Rank(h.state) <= Rank(Performed(dir, h, op, wire, now).state)
    ensures h.state == Ended ==> Performed(dir, h, op, wire, now) == h
  {
  }

  function NextSplit(x: Split, e: Step): Split {
    match e
    case Begin(op) =>
      if x.pending.Nobody? && Guard(x.dir, op, x.state) == Go then x.(pending := Sending(op, false)) else x
    case Finish(ok) =>
      x.(state := if Completes(x.dir, x.pending, ok) then After(x.pending) else x.state, pending := Nobody)
    case RemoteBye =>
      x.(state := Ended, pending := if x.pending.Nobody? then Nobody else x.pending.(overtaken := true))
  }

  function RunSteps(x: Split, es: seq<Step>): Split
    decreases es
  {
    if es == [] then x else RunSteps(NextSplit(x, es[0]), es[1..])
  }

  /**
   The code of an operation, when nothing comes between its guard and its update, is one run of the two steps, and
   on a leg on which nothing is pending that run leaves nothing pending.
   */
  lemma PerformedIsARun(dir: Direction, h: Shared, op: Op, wire: Option<string>, now: nat)
    ensures RunSteps(Split(dir, h.state, Nobody), [Begin(op), Finish(wire.None?)])
         == Split(dir, Performed(dir, h, op, wire, now).state, Nobody)
  {
    var x := Split(dir, h.state, Nobody);
    var y := NextSplit(x, Begin(op));
    assert RunSteps(y, [Finish(wire.None?)]) == NextSplit(y, Finish(wire.None?));
    assert [Begin(op), Finish(wire.None?)][1..] == [Finish(wire.None?)];
  }

  /** The operations of an ordinary inbound call, in the order of the protocol, all go through, however often early media is sent. */
  lemma OrdinaryCallGoesThrough(n: nat, code: int, text: string)
    requires 400 <= code <= 699
    ensures var early := RunSteps(Created(Inbound), [Begin(Op.Trying), Finish(true), Begin(Op.Ringing), Finish(true)] + Previews(n));
            && early == Split(Inbound, State.Ringing, Nobody)
            && NextSplit(NextSplit(early, Begin(Answer)), Finish(true)).state == Answered
            && NextSplit(NextSplit(early, Begin(Reject(code, text))), Finish(true)).state == Ended
            && NextSplit(NextSplit(Split(Inbound, Answered, Nobody), Begin(HangupWithHeaders)), Finish(true)).state == Ended
  {
    var x := Created(Inbound);
    var x1, x2 := Split(Inbound, State.Trying, Nobody), Split(Inbound, State.Ringing, Nobody);
    TwoSteps(x, Begin(Op.Trying), Finish(true), [Begin(Op.Ringing)] + ([Finish(true)] + Previews(n)));
    TwoSteps(x1, Begin(Op.Ringing), Finish(true), Previews(n));
    assert [Begin(Op.Trying), Finish(true), Begin(Op.Ringing), Finish(true)] + Previews(n)
        == [Begin(Op.Trying)] + ([Finish(true)] + ([Begin(Op.Ringing)] + ([Finish(true)] + Previews(n))));
    PreviewsKeep(n);
  }

  lemma TwoSteps(x: Split, d: Step, e: Step, es: seq<Step>)
    ensures RunSteps(x, [d] + ([e] + es)) == RunSteps(NextSplit(NextSplit(x, d), e), es)
  {
    StepsCons(x, d, [e] + es);
    StepsCons(NextSplit(x, d), e, es);
  }

  /** The 183 sent n times. */
  function Previews(n: nat): seq<Step> {
    if n == 0 then [] else [Begin(EarlyMedia)] + ([Finish(true)] + Previews(n - 1))
  }

  lemma StepsCons(x: Split, e: Step, es: seq<Step>)
    ensures RunSteps(x, [e] + es) == RunSteps(NextSplit(x, e), es)
  {
    assert ([e] + es)[1..] == es;
  }

  lemma {:induction false} PreviewsKeep(n: nat)
    ensures RunSteps(Split(Inbound, State.Ringing, Nobody), Previews(n)) == Split(Inbound, State.Ringing, Nobody)
  {
    if n > 0 {
      var x := Split(Inbound, State.Ringing, Nobody);
      TwoSteps(x, Begin(EarlyMedia), Finish(true), Previews(n - 1));
      PreviewsKeep(n - 1);
    }
  }

  /** While an operation is past its guard no other one begins, and an outbound leg is answered by what Invite still has to do. */
  lemma OneAtATime(x: Split, op: Op, ok: bool)
    ensures !x.pending.Nobody? ==> NextSplit(x, Begin(op)) == x
    ensures NextSplit(Created(Outbound), Begin(op)) == Created(Outbound)
    ensures NextSplit(Created(Outbound), Finish(ok)) == Split(Outbound, Answered, Nobody)
    ensures NextSplit(Created(Inbound), Finish(ok)) == Created(Inbound)
  {
  }

  predicate Monotone(x: Split, es: seq<Step>)
    decreases es
  {
    es == [] ||
    (Rank(x.state) <= Rank(NextSplit(x, es[0]).state) && Monotone(NextSplit(x, es[0]), es[1..]))
  }

  /** Some operation other than a hangup or a reject completes after a BYE that arrived behind its guard. */
  predicate Overtaken(x: Split, es: seq<Step>)
    decreases es
  {
    es != [] &&
    ((es[0].Finish? && Completes(x.dir, x.pending, es[0].wireOk) && x.pending.overtaken && After(x.pending) != Ended)
     || Overtaken(NextSplit(x, es[0]), es[1..]))
  }

  predicate SplitInv(x: Split) {
    match x.pending
    case Nobody => true
    case _ => if x.pending.overtaken then x.state == Ended else Rank(x.state) <= Rank(After(x.pending))
  }

  lemma {:induction false} MonotoneUnlessOvertaken(x: Split, es: seq<Step>)
    requires SplitInv(x)
    ensures Monotone(x, es) <==> !Overtaken(x, es)
    decreases es
  {
    if es != [] {
      assert SplitInv(NextSplit(x, es[0]));
      MonotoneUnlessOvertaken(NextSplit(x, es[0]), es[1..]);
    }
  }

  /** The state of a leg never moves backwards, exactly when no BYE slips between a guard and its update. */
  lemma MonotoneIff(dir: Direction, es: seq<Step>)
    ensures Monotone(Created(dir), es) <==> !Overtaken(Created(dir), es)
  {
    MonotoneUnlessOvertaken(Created(dir), es);
  }

  ghost predicate StaysEnded(x: Split) {
    forall es :: RunSteps(x, es).state == Ended
  }

  lemma {:induction false} EndedRun(x: Split, es: seq<Step>)
    requires x.state == Ended && (x.pending.Nobody? || After(x.pending) == Ended)
    ensures RunSteps(x, es).state == Ended
    decreases es
  {
    if es != [] {
      EndedRun(NextSplit(x, es[0]), es[1..]);
    }
  }

  /** The end of a call is final, whatever follows, exactly when no operation but a hangup or a reject is past its guard. */
  lemma EndIsFinalIff(x: Split)
    requires x.state == Ended
    ensures StaysEnded(x) <==> x.pending.Nobody? || After(x.pending) == Ended
  {
    if x.pending.Nobody? || After(x.pending) == Ended {
      forall es ensures RunSteps(x, es).state == Ended {
        EndedRun(x, es);
      }
    } else {
      var e := Finish(true);
      assert RunSteps(x, [e]) == NextSplit(x, e);
    }
  }

  /** Ended is not absorbing: a BYE behind the guard of Answer is undone by its setState. */
  lemma AnswerRevivesEndedCall()
    ensures var x := NextSplit(NextSplit(Created(Inbound), Begin(Answer)), RemoteBye);
            x.state == Ended && NextSplit(x, Finish(true)).state == Answered
  {
  }

  // ---- the class ----

  /** What an operation does besides changing the leg. */
  datatype Effect = MediaStopped | Sent(op: Op) | StateSet(s: State) | CodecRead

  /** The effects of an operation, in order. */
  function Effects(dir: Direction, s: State, op: Op, wire: Option<string>): seq<Effect> {
    if Guard(dir, op, s) != Go then []
    else
      (if HangsUp(op) then [MediaStopped] else [])
      + (if op.Answer? && dir == Outbound then [] else [Sent(op)])
      + (if Completes(dir, Sending(op, false), wire.None?) then [StateSet(Target(op))] + (if op.Answer? then [CodecRead] else []) else [])
  }

  /** One operation of a test and what the wire answered. */
  datatype Request = Request(op: Op, wire: Option<string>, now: nat)

  /** The effects of a whole test, one operation after the other. */
  function AllEffects(dir: Direction, h: Shared, rs: seq<Request>): seq<Effect>
    decreases rs
  {
    if rs == [] then []
    else Effects(dir, h.state, rs[0].op, rs[0].wire)
         + AllEffects(dir, Performed(dir, h, rs[0].op, rs[0].wire, rs[0].now), rs[1..])
  }

  lemma {:induction false} NothingAfterEnd(dir: Direction, h: Shared, rs: seq<Request>)
    requires h.state == Ended
    ensures AllEffects(dir, h, rs) == []
    decreases rs
  {
    if rs != [] {
      NothingAfterEnd(dir, h, rs[1..]);
    }
  }

  /** A BYE comes right after the media stopped and right before the end of the call, and the end comes last. */
  ghost predicate EndsLast(es: seq<Effect>) {
    && (forall i :: 0 <= i < |es| && es[i] == StateSet(Ended) ==> i == |es| - 1)
    && (forall i :: 0 <= i < |es| && es[i].Sent? && HangsUp(es[i].op) ==>
          0 < i == |es| - 2 && es[i - 1] == MediaStopped && es[i + 1] == StateSet(Ended))
  }

  lemma EndsLastAppend(a: seq<Effect>, b: seq<Effect>)
    requires EndsLast(a) && EndsLast(b) && (StateSet(Ended) in a ==> b == [])
    ensures EndsLast(a + b)
  {
    var es := a + b;
    assert b == [] ==> es == a;
    forall i | 0 <= i < |es| && es[i].Sent? && HangsUp(es[i].op)
      ensures 0 < i == |es| - 2 && es[i - 1] == MediaStopped && es[i + 1] == StateSet(Ended)
    {
      if i < |a| {
        assert es[i] == a[i] && es[i + 1] == a[i + 1] && es[i - 1] == a[i - 1];
      } else {
        assert es[i] == b[i - |a|] && es[i - 1] == b[i - |a| - 1];
      }
    }
  }

  /** Over any sequence of operations that nothing interrupts: one BYE at most, after the media and before the end, then nothing. */
  lemma {:induction false} OperationsEndOnce(dir: Direction, h: Shared, rs: seq<Request>)
    ensures EndsLast(AllEffects(dir, h, rs))
    decreases rs
  {
    if rs != [] {
      var first := Effects(dir, h.state, rs[0].op, rs[0].wire);
      var h' := Performed(dir, h, rs[0].op, rs[0].wire, rs[0].now);
      OneEndsLast(dir, h, rs[0]);
      if StateSet(Ended) in first {
        NothingAfterEnd(dir, h', rs[1..]);
      }
      OperationsEndOnce(dir, h', rs[1..]);
      EndsLastAppend(first, AllEffects(dir, h', rs[1..]));
    }
  }

  lemma OneEndsLast(dir: Direction, h: Shared, r: Request)
    ensures EndsLast(Effects(dir, h.state, r.op, r.wire))
    ensures StateSet(Ended) in Effects(dir, h.state, r.op, r.wire) ==> Performed(dir, h, r.op, r.wire, r.now).state == Ended
  {
  }

  datatype Outcome = Ok | Refused(why: Verdict) | WireError(message: string)

  class Call {
    const direction: Direction
    var state: State
    var answeredAt: Option<nat>
    var endedAt: Option<nat>
    var endReason: string
    var doneCloses: nat
    var token: bool
    ghost var delivered: nat
    ghost var updates: nat
    var unregistered: nat
    var mediaStops: nat
    ghost var effects: seq<Effect>

    ghost function View(): Shared
      reads this
    {
      Shared(state, answeredAt, endedAt, endReason, doneCloses, token, delivered, updates, unregistered, mediaStops)
    }

    constructor (direction: Direction)
      ensures this.direction == direction && View() == Fresh(Init) && effects == []
    {
      this.direction := direction;
      state, answeredAt, endedAt, endReason, doneCloses := Init, None, None, "", 0;
      token, delivered, updates, unregistered, mediaStops := false, 0, 0, 0, 0;
      effects := [];
    }

    method SetState(s: State, reason: string, now: nat)
      modifies this
      ensures View() == Settled(old(View()), s, reason, now)
      ensures effects == old(effects) + [StateSet(s)]
    {
      effects := effects + [StateSet(s)];
      if s == state {
        return;
      }
      var endedNow := ChangeState(s, reason, now);
      if endedNow {
        unregistered := unregistered + 1;
        mediaStops := mediaStops + 1;
      }
      WakeWatchers();
    }

    /** The locked section of setState. */
    method ChangeState(s: State, reason: string, now: nat) returns (endedNow: bool)
      modifies this`state, this`answeredAt, this`endedAt, this`endReason, this`doneCloses, this`updates
      ensures View() == Update(old(View()), s, reason, now)
      ensures endedNow == (doneCloses != old(doneCloses))
    {
      state := s;
      updates := updates + 1;
      if s == Answered && answeredAt.None? {
        answeredAt := Some(now);
      }
      endedNow := false;
      if s == Ended && endedAt.None? {
        endedAt := Some(now);
        endReason := reason;
        doneCloses := doneCloses + 1;
        endedNow := true;
      }
    }

    /** The loop at the end of setState. */
    method WakeWatchers()
      modifies this`token, this`delivered
      ensures View() == Send(old(View()))
    {
      for i := 0 to WAKES
        invariant token == (old(token) || i > 0)
        invariant delivered == old(delivered) + (if old(token) || i == 0 then 0 else 1)
      {
        if !token {
          token := true;
          delivered := delivered + 1;
        }
      }
    }

    method DoTrying(wire: Option<string>, now: nat) returns (r: Outcome)
      modifies this
      ensures View() == Performed(direction, old(View()), Op.Trying, wire, now)
      ensures effects == old(effects) + Effects(direction, old(state), Op.Trying, wire)
      ensures r.Ok? <==> Guard(direction, Op.Trying, old(state)) == Go && wire.None?
    {
      if direction != Inbound {
        return Refused(InboundOnly);
      }
      if state != Init {
        return Refused(InvalidState(state));
      }
      effects := effects + [Sent(Op.Trying)];
      if wire.Some? {
        return WireError(wire.value);
      }
      SetState(State.Trying, "", now);
      return Ok;
    }

    method DoRinging(wire: Option<string>, now: nat) returns (r: Outcome)
      modifies this
      ensures View() == Performed(direction, old(View()), Op.Ringing, wire, now)
      ensures effects == old(effects) + Effects(direction, old(state), Op.Ringing, wire)
      ensures r.Ok? <==> Guard(direction, Op.Ringing, old(state)) == Go && wire.None?
    {
      if direction != Inbound {
        return Refused(InboundOnly);
      }
      if state != Init && state != State.Trying {
        return Refused(InvalidState(state));
      }
      effects := effects + [Sent(Op.Ringing)];
      if wire.Some? {
        return WireError(wire.value);
      }
      SetState(State.Ringing, "", now);
      return Ok;
    }

    method SendEarlyMedia183(wire: Option<string>, now: nat) returns (r: Outcome)
      modifies this
      ensures View() == Performed(direction, old(View()), EarlyMedia, wire, now)
      ensures effects == old(effects) + Effects(direction, old(state), EarlyMedia, wire)
      ensures r.Ok? <==> Guard(direction, EarlyMedia, old(state)) == Go && wire.None?
    {
      if direction != Inbound {
        return Refused(InboundOnly);
      }
      if state != Init && state != State.Trying && state != State.Ringing {
        return Refused(InvalidState(state));
      }
      effects := effects + [Sent(EarlyMedia)];
      if wire.Some? {
        return WireError(wire.value);
      }
      SetState(State.Ringing, "", now);
      return Ok;
    }

    method DoAnswer(wire: Option<string>, now: nat) returns (r: Outcome)
      modifies this
      ensures View() == Performed(direction, old(View()), Answer, wire, now)
      ensures effects == old(effects) + Effects(direction, old(state), Answer, wire)
      ensures r.Ok? <==> Guard(direction, Answer, old(state)) == Go && (wire.None? || direction == Outbound)
    {
      if state == Answered || state == Ended {
        return Refused(InvalidState(state));
      }
      if direction == Inbound {
        effects := effects + [Sent(Answer)];
        if wire.Some? {
          return WireError(wire.value);
        }
      }
      SetState(Answered, "", now);
      effects := effects + [CodecRead];
      return Ok;
    }

    method DoReject(code: int, text: string, wire: Option<string>, now: nat) returns (r: Outcome)
      modifies this
      ensures View() == Performed(direction, old(View()), Reject(code, text), wire, now)
      ensures effects == old(effects) + Effects(direction, old(state), Reject(code, text), wire)
      ensures r.Ok? <==> Guard(direction, Reject(code, text), old(state)) == Go && wire.None?
    {
      if direction != Inbound {
        return Refused(InboundOnly);
      }
      if code < 400 || code > 699 {
        return Refused(BadCode);
      }
      if state == Answered || state == Ended {
        return Refused(InvalidState(state));
      }
      effects := effects + [Sent(Reject(code, text))];
      if wire.Some? {
        return WireError(wire.value);
      }
      SetState(Ended, "rejected " + Numerals.Decimal(code) + " " + text, now);
      return Ok;
    }

    method DoHangup(wire: Option<string>, now: nat) returns (r: Outcome)
      modifies this
      ensures View() == Performed(direction, old(View()), Hangup, wire, now)
      ensures effects == old(effects) + Effects(direction, old(state), Hangup, wire)
      ensures r == Ok && state == Ended
    {
      if state == Ended {
        return Ok;
      }
      effects := effects + [MediaStopped]; // stopMedia, before the BYE
      effects := effects + [Sent(Hangup)];
      if wire.Some? {
        SetState(Ended, "hangup-err: " + wire.value, now);
        return Ok;
      }
      SetState(Ended, "local-hangup", now);
      return Ok;
    }

    /** byeStatus is the peer's answer to the BYE; an error status is reported, but the call has ended all the same. */
    method DoHangupWithHeaders(wire: Option<string>, byeStatus: nat, now: nat) returns (r: Outcome)
      modifies this
      ensures View() == Performed(direction, old(View()), HangupWithHeaders, wire, now)
      ensures effects == old(effects) + Effects(direction, old(state), HangupWithHeaders, wire)
      ensures r.Refused? <==> old(state) != Answered
      ensures r.Ok? <==> old(state) == Answered && wire.None? && byeStatus < 300
    {
      if state != Answered {
        return Refused(InvalidState(state));
      }
      effects := effects + [MediaStopped]; // stopMedia, before the BYE
      effects := effects + [Sent(HangupWithHeaders)];
      if wire.Some? {
        SetState(Ended, "hangup-err: " + wire.value, now);
        return WireError(wire.value);
      }
      SetState(Ended, "local-hangup", now);
      if byeStatus >= 300 {
        return WireError("BYE rejected");
      }
      return Ok;
    }
  }
}
