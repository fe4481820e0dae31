/**
 Bounded drain of the calls a stack leaves behind (internal/sip/drain.go, internal/sip/uas.go).

 Time is a virtual clock: code takes no time, a select wakes up at the first instant one of its cases is
 ready, and picks any case that is ready then.  What a call does once Hangup has been issued is arbitrary.
 */
module Drain {
  import opened Basics

  datatype HangupOutcome = Returned(err: Option<string>) | Panicked(what: string)

  /** A call as the drain sees it. */
  datatype Leg = Leg(
    id: string,
    doneAt: Option<nat>,      // when Done() closes; None means never
    hangupTakes: Option<nat>, // how long Hangup runs; None means it never returns
    outcome: HangupOutcome)

  datatype DrainResult = DrainResult(callID: string, hangupErr: Option<string>, ended: bool)

  /** safeHangup turns a panic into an error. */
  function SafeHangup(o: HangupOutcome): Option<string> {
    match o
    case Returned(err) => err
    case Panicked(what) => Some("hangup panicked: " + what)
  }

  /** No error is reported exactly when Hangup returned without one; otherwise its own error, or what it panicked with. */
  lemma HangupReported(o: HangupOutcome)
    ensures SafeHangup(o).None? <==> o == Returned(None)
    ensures o.Returned? ==> SafeHangup(o) == o.err
    ensures o.Panicked? ==> |SafeHangup(o).value| > |o.what| && SafeHangup(o).value[|SafeHangup(o).value| - |o.what|..] == o.what
  {
  }

  predicate DoneBy(leg: Leg, t: nat) {
    leg.doneAt.Some? && leg.doneAt.value <= t
  }

  predicate HangupBy(leg: Leg, start: nat, t: nat) {
    leg.hangupTakes.Some? && start + leg.hangupTakes.value <= t
  }

  function Min(a: int, b: int): int { if a <= b then a else b }

  function Max(a: int, b: int): int { if a <= b then b else a }

  /** The earlier of the per-call timer and the shared deadline, for a drain that starts at `start`. */
  function Deadline(start: nat, perCall: int, total: int): nat {
    Max(start, Min(start + perCall, total))
  }

  /** When both the hangup result and the end of the call are in. */
  function Settles(leg: Leg, start: nat): Option<nat> {
    if leg.doneAt.Some? && leg.hangupTakes.Some?
    then Some(Max(start + leg.hangupTakes.value, leg.doneAt.value)) else None
  }

  /** The drain waits in its select loop; otherwise it calls Hangup itself and returns when Hangup does. */
  predicate Waits(leg: Leg, start: nat, noWait: bool) {
    !noWait && !DoneBy(leg, start)
  }

  /** What drainOne may answer, and when (None: never). */
  ghost predicate Answers(leg: Leg, start: nat, perCall: int, total: int, noWait: bool, res: DrainResult, finish: Option<nat>) {
    var d := Deadline(start, perCall, total);
    && res.callID == leg.id
    && if Waits(leg, start, noWait) then
         && finish.Some?
         && finish.value == (match Settles(leg, start) case Some(t) => Min(d, t) case None => d)
         && (res.ended ==> DoneBy(leg, finish.value))
         && (leg.doneAt.Some? && leg.doneAt.value < d ==> res.ended)
         && (res.hangupErr.Some? ==> HangupBy(leg, start, finish.value) && res.hangupErr == SafeHangup(leg.outcome))
         && (leg.hangupTakes.Some? && start + leg.hangupTakes.value < d ==> res.hangupErr == SafeHangup(leg.outcome))
       else
         && (finish.Some? <==> leg.hangupTakes.Some?)
         && (finish.Some? ==>
               && finish.value == start + leg.hangupTakes.value
               && res.hangupErr == SafeHangup(leg.outcome)
               && (res.ended <==> DoneBy(leg, start) || DoneBy(leg, finish.value)))
  }

  /** The next instant at which a case of the select is ready. */
  function WakeTime(leg: Leg, start: nat, now: nat, deadline: nat, hangupSeen: bool, doneSeen: bool): nat {
    var t0 := deadline;
    var t1 := if !hangupSeen && leg.hangupTakes.Some? then Min(t0, start + leg.hangupTakes.value) else t0;
    var t2 := if !doneSeen && leg.doneAt.Some? then Min(t1, leg.doneAt.value) else t1;
    Max(now, t2)
  }

  /**
   A return before both deadlines means that the call ended and its Hangup result is in.  The doc comment of
   drainCalls says that it never blocks past its deadlines: for one call that holds exactly when the drain
   waits in its loop, or when the Hangup it calls itself is back by then.  On a call that has already ended,
   and in the no-wait mode, Hangup runs on the drain's own goroutine.
   */
  method DrainOne(leg: Leg, start: nat, perCall: int, total: int, noWait: bool)
    returns (res: DrainResult, finish: Option<nat>, hangups: nat)
    requires !noWait ==> perCall > 0 && total > 0
    ensures Answers(leg, start, perCall, total, noWait, res, finish)
    ensures Waits(leg, start, noWait) && finish.value < Deadline(start, perCall, total) ==>
              res.ended && DoneBy(leg, finish.value) &&
              HangupBy(leg, start, finish.value) && res.hangupErr == SafeHangup(leg.outcome)
    ensures finish.Some? && finish.value <= Deadline(start, perCall, total) <==>
              Waits(leg, start, noWait) || HangupBy(leg, start, Deadline(start, perCall, total))
    ensures hangups == 1
  {
    res, hangups := DrainResult(leg.id, None, false), 0;
    if DoneBy(leg, start) {
      hangups := hangups + 1;
      if leg.hangupTakes.None? {
        return res, None, hangups;
      }
      res := res.(hangupErr := SafeHangup(leg.outcome), ended := true);
      return res, Some(start + leg.hangupTakes.value), hangups;
    }
    if noWait {
      hangups := hangups + 1;
      if leg.hangupTakes.None? {
        return res, None, hangups;
      }
      var back := start + leg.hangupTakes.value;
      res := res.(hangupErr := SafeHangup(leg.outcome));
      if DoneBy(leg, back) {
        res := res.(ended := true);
      }
      return res, Some(back), hangups;
    }
    hangups := hangups + 1; // runs on its own goroutine
    var deadline: nat := Max(start, Min(start + perCall, total));
    var now, hangupSeen, doneSeen := start, false, false;
    while true
      invariant start <= now <= deadline && res.callID == leg.id
      invariant doneSeen == res.ended && (doneSeen ==> DoneBy(leg, now))
      invariant hangupSeen ==> HangupBy(leg, start, now) && res.hangupErr == SafeHangup(leg.outcome)
      invariant !hangupSeen ==> res.hangupErr == None
      invariant !hangupSeen && leg.hangupTakes.Some? ==> now <= Max(start, start + leg.hangupTakes.value)
      invariant !doneSeen && leg.doneAt.Some? ==> now <= Max(start, leg.doneAt.value)
      invariant !(hangupSeen && doneSeen)
      decreases (if hangupSeen then 0 else 1) + (if doneSeen then 0 else 1)
    {
      now := WakeTime(leg, start, now, deadline, hangupSeen, doneSeen);
      if {
        case !hangupSeen && HangupBy(leg, start, now) =>
          res := res.(hangupErr := SafeHangup(leg.outcome));
          hangupSeen := true;
        case !doneSeen && DoneBy(leg, now) =>
          res := res.(ended := true);
          doneSeen := true;
        case now >= start + perCall => // the per-call timer
          return res, Some(now), hangups;
        case now >= total => // the context of the whole drain
          return res, Some(now), hangups;
      }
      if hangupSeen && res.ended {
        return res, Some(now), hangups;
      }
    }
  }

  function Below(n: nat): (s: set<nat>)
    ensures forall i :: i in s <==> 0 <= i < n
  {
    if n == 0 then {} else Below(n - 1) + {n - 1}
  }

  /** All goroutines run drainOne at once, each from its own start, and may finish in any order. */
  method DrainCalls(calls: seq<Leg>, starts: seq<nat>, perCall: int, total: int)
    returns (results: seq<DrainResult>, finishes: seq<Option<nat>>, hangups: seq<nat>)
    requires |starts| == |calls|
    ensures |results| == |finishes| == |hangups| == |calls|
    ensures forall i :: 0 <= i < |calls| ==>
              Answers(calls[i], starts[i], perCall, total, perCall <= 0 || total <= 0, results[i], finishes[i])
    ensures forall i :: 0 <= i < |calls| ==> hangups[i] == 1
  {
    var noWait := perCall <= 0 || total <= 0;
    var slots := new DrainResult[|calls|](_ => DrainResult("", None, false));
    var ends := new Option<nat>[|calls|](_ => None);
    var counts := new nat[|calls|](_ => 0);
    var running := Below(|calls|);
    while running != {}
      invariant forall i :: i in running ==> 0 <= i < |calls|
      invariant forall i :: 0 <= i < |calls| ==> if i in running then counts[i] == 0 else
                  && counts[i] == 1
                  && Answers(calls[i], starts[i], perCall, total, noWait, slots[i], ends[i])
      decreases running
    {
      var i :| i in running;
      var res, finish, n := DrainOne(calls[i], starts[i], perCall, total, noWait);
      slots[i] := res;
      ends[i] := finish;
      counts[i] := counts[i] + n;
      running := running - {i};
    }
    return slots[..], ends[..], counts[..];
  }

  /** drainCalls is back when its last goroutine is. */
  function LastFinish(finishes: seq<Option<nat>>): Option<nat> {
    if finishes == [] then Some(0)
    else match (finishes[0], LastFinish(finishes[1..]))
      case (Some(a), Some(b)) => Some(Max(a, b))
      case _ => None
  }

  /** The whole drain is back exactly when all its goroutines are, and then at the instant of the last one. */
  lemma {:induction false} LastIsLatest(finishes: seq<Option<nat>>)
    ensures LastFinish(finishes).Some? <==> forall i :: 0 <= i < |finishes| ==> finishes[i].Some?
    ensures LastFinish(finishes).Some? ==> forall i :: 0 <= i < |finishes| ==> finishes[i].value <= LastFinish(finishes).value
    ensures LastFinish(finishes).Some? && finishes != [] ==> LastFinish(finishes) in finishes
  {
    if finishes != [] {
      LastIsLatest(finishes[1..]);
      if LastFinish(finishes).Some? && |finishes| > 1 {
        assert LastFinish(finishes) == finishes[0] || LastFinish(finishes) == LastFinish(finishes[1..]);
      }
      forall i | 1 <= i < |finishes| ensures finishes[i] == finishes[1..][i - 1] {
      }
      if forall i :: 0 <= i < |finishes| ==> finishes[i].Some? {
        assert forall i :: 0 <= i < |finishes[1..]| ==> finishes[1..][i].Some?;
      }
    }
  }

  /** With positive limits the whole drain is back within `total`, if Hangup returns at once on a call that has ended. */
  lemma {:induction false} WholeDrainBounded(calls: seq<Leg>, starts: seq<nat>, perCall: int, total: int,
                                             results: seq<DrainResult>, finishes: seq<Option<nat>>)
    requires |calls| == |starts| == |results| == |finishes| && perCall > 0 && total > 0
    requires forall i :: 0 <= i < |calls| ==> Answers(calls[i], starts[i], perCall, total, false, results[i], finishes[i])
    requires forall i :: 0 <= i < |calls| ==> starts[i] <= total
    requires forall i :: 0 <= i < |calls| && DoneBy(calls[i], starts[i]) ==> calls[i].hangupTakes == Some(0)
    ensures LastFinish(finishes).Some? && LastFinish(finishes).value <= total
  {
    if calls != [] {
      assert Answers(calls[0], starts[0], perCall, total, false, results[0], finishes[0]);
      WholeDrainBounded(calls[1..], starts[1..], perCall, total, results[1..], finishes[1..]);
    }
  }
}

/** What a stack hands to the drain when it stops (internal/sip/uas.go). */
module StackStop {
  import opened Basics

  const PER_CALL_MS := 5_000
  const TOTAL_MS := 10_000

  datatype Effect = Drained(live: seq<nat>, perCall: int, total: int) | Deregistered | Cancelled | Closed

  /** The calls whose Done channel was still open when it was looked at, in the order they were tracked. */
  function Live(calls: seq<nat>, done: seq<bool>): seq<nat>
    requires |done| == |calls|
  {
    if calls == [] then []
    else (if done[0] then [] else [calls[0]]) + Live(calls[1..], done[1..])
  }

  /** How many of the first k calls were still open. */
  function OpenBefore(done: seq<bool>, k: nat): nat
    requires k <= |done|
  {
    if k == 0 then 0 else (if done[0] then 0 else 1) + OpenBefore(done[1..], k - 1)
  }

  /** The drained set is the tracked calls minus those already done, each once and in order. */
  lemma {:induction false} LiveExactly(calls: seq<nat>, done: seq<bool>)
    requires |done| == |calls|
    ensures |Live(calls, done)| == OpenBefore(done, |done|)
    ensures forall k :: 0 <= k < |calls| && !done[k] ==>
              OpenBefore(done, k) < |Live(calls, done)| && Live(calls, done)[OpenBefore(done, k)] == calls[k]
  {
    if calls != [] {
      LiveExactly(calls[1..], done[1..]);
      forall k | 0 <= k < |calls| && !done[k]
        ensures OpenBefore(done, k) < |Live(calls, done)| && Live(calls, done)[OpenBefore(done, k)] == calls[k]
      {
        if k > 0 {
          assert done[1..][k - 1] == done[k];
        }
      }
    }
  }

  lemma {:induction false} LiveAppend(calls: seq<nat>, done: seq<bool>, k: nat)
    requires |done| == |calls| && k < |calls|
    ensures Live(calls[..k + 1], done[..k + 1]) == Live(calls[..k], done[..k]) + (if done[k] then [] else [calls[k]])
  {
    if k > 0 {
      LiveAppend(calls[1..], done[1..], k - 1);
      assert calls[1..][..k] == calls[..k + 1][1..] && done[1..][..k] == done[..k + 1][1..];
      assert calls[1..][..k - 1] == calls[..k][1..] && done[1..][..k - 1] == done[..k][1..];
    } else {
      assert calls[..1][1..] == [] && done[..1][1..] == [];
    }
  }

  class Stack {
    var calls: seq<nat>
    var stopped: bool
    const registered: bool
    const hasUA: bool
    var effects: seq<Effect>

    constructor (registered: bool, hasUA: bool)
      ensures calls == [] && !stopped && effects == []
      ensures this.registered == registered && this.hasUA == hasUA
    {
      this.registered, this.hasUA := registered, hasUA;
      calls, stopped, effects := [], false, [];
    }

    /** A nil call is ignored. */
    method Track(c: Option<nat>)
      modifies this`calls
      ensures calls == old(calls) + (if c.Some? then [c.value] else [])
    {
      if c.None? {
        return;
      }
      calls := calls + [c.value];
    }

    /** done[k] is what the select on the k-th call's Done channel sees. */
    method LiveCalls(done: seq<bool>) returns (live: seq<nat>)
      requires |done| == |calls|
      ensures live == Live(calls, done)
    {
      live := [];
      for k := 0 to |calls|
        invariant live == Live(calls[..k], done[..k])
      {
        LiveAppend(calls, done, k);
        if !done[k] {
          live := live + [calls[k]];
        }
      }
      assert calls[..|calls|] == calls && done[..|calls|] == done;
    }

    /** The drain runs before the de-registration, which runs before the transport goes; only the first Stop does anything. */
    method Stop(done: seq<bool>)
      requires |done| == |calls|
      modifies this`stopped, this`effects
      ensures stopped
      ensures effects == old(effects) +
                         if old(stopped) then [] else
                           (if Live(calls, done) == [] then [] else [Drained(Live(calls, done), PER_CALL_MS, TOTAL_MS)])
                           + (if registered then [Deregistered] else [])
                           + [Cancelled]
                           + (if hasUA then [Closed] else [])
    {
      if stopped {
        return;
      }
      stopped := true;
      var live := LiveCalls(done);
      if |live| > 0 {
        effects := effects + [Drained(live, PER_CALL_MS, TOTAL_MS)];
      }
      if registered {
        effects := effects + [Deregistered];
      }
      effects := effects + [Cancelled];
      if hasUA {
        effects := effects + [Closed];
      }
    }
  }
}
