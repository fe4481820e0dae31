/**
 Recording sessions of a call leg (internal/sip/call.go): StartRecording, the audio pump it starts,
 and the two ways a session ends, StopRecording and stopMedia.

 Any number of goroutines start and stop recordings.  A closer is a goroutine that took the session out
 of the leg under mediaMu; what it does afterwards runs without the lock.  `Next` is one atomic step of
 one goroutine, and a step that is not enabled changes nothing.
 */
module Recording {
  import opened Basics
  import CallState

  /** Where the pump of a session is: before its cancellation check, in a read, or holding what it read. */
  datatype Pump = AtTop | InRead | Holding(buf: bytes, last: bool) | Exited

  datatype Session = Session(
    path: string,
    taker: Option<nat>, // the closer that took the session out of the leg
    cancelled: bool,
    pump: Pump,
    closes: nat,        // times the file was closed
    archived: bool,
    hookRuns: nat,      // times the archive hook ran for the session
    written: bytes,     // the file
    badWrites: nat,     // writes to the closed file
    badHooks: nat)      // archive hook runs on a file that is still open

  /** What a goroutine that took session `sid` still has to do; only stopMedia is bounded. */
  datatype Closer =
    | Took(sid: nat, bounded: bool)
    | Waiting(sid: nat, bounded: bool)
    | Closing(sid: nat)
    | Marking(sid: nat)
    | Hooking(sid: nat)
    | Finished(sid: nat)
    | Abandoned(sid: nat)

  /** Whether an archive hook is installed, and whether the leg knows its owner. */
  datatype Config = Config(hook: bool, owner: bool)

  /** The state of the call, as far as recordings depend on it. */
  datatype Phase = Early | Up | Over

  datatype Leg = Leg(
    cfg: Config,
    phase: Phase,
    everEnded: bool,         // endedAt is set
    owed: nat,               // stopMedia goroutines that setState has spawned and that have not swept the leg
    starters: nat,           // goroutines in StartRecording past its state check
    recording: Option<nat>,  // c.recording
    sessions: seq<Session>,
    closers: seq<Closer>)

  datatype Event =
    | StartCheck
    | StartPublish(path: string, ready: bool)  // ready: file, reader and decoder could all be set up
    | Progress                                  // setState with a state before StateAnswered, on an ended call too
    | AnswerCall                                // setState(StateAnswered), on an ended call too
    | EndCall                                   // setState(StateEnded)
    | Sweep                                     // a stopMedia that setState spawned
    | Take(bounded: bool)                       // first section of StopRecording, or of Hangup's stopMedia
    | Step(i: nat)                              // closer i goes on
    | Grace(i: nat)                             // the grace timer of closer i fires
    | PumpCheck(sid: nat)
    | PumpRead(sid: nat, buf: bytes, failed: bool)
    | PumpWrite(sid: nat)

  function Archives(cfg: Config, path: string): bool {
    cfg.hook && cfg.owner && path != ""
  }

  function NextCloser(l: Leg, i: nat): Leg
    requires i < |l.closers| && l.closers[i].sid < |l.sessions|
  {
    var c := l.closers[i];
    var x := l.sessions[c.sid];
    match c
    case Took(s, b) =>
      l.(sessions := l.sessions[s := x.(cancelled := true)], closers := l.closers[i := Waiting(s, b)])
    case Waiting(s, _) =>
      if x.pump == Exited then l.(closers := l.closers[i := Closing(s)]) else l
    case Closing(s) =>
      l.(sessions := l.sessions[s := x.(closes := x.closes + 1)], closers := l.closers[i := Marking(s)])
    case Marking(s) =>
      if !Archives(l.cfg, x.path) || x.archived then l.(closers := l.closers[i := Finished(s)])
      else l.(sessions := l.sessions[s := x.(archived := true)], closers := l.closers[i := Hooking(s)])
    case Hooking(s) =>
      var y := x.(hookRuns := x.hookRuns + 1, badHooks := x.badHooks + (if x.closes == 0 then 1 else 0));
      l.(sessions := l.sessions[s := y], closers := l.closers[i := Finished(s)])
    case _ => l
  }

  function NextPump(x: Session, e: Event): Session {
    match (e, x.pump)
    case (PumpCheck(_), AtTop) => x.(pump := if x.cancelled then Exited else InRead)
    case (PumpRead(_, buf, failed), InRead) =>
      x.(pump := if buf != [] then Holding(buf, failed) else if failed then Exited else AtTop)
    case (PumpWrite(_), Holding(buf, last)) =>
      x.(pump := if last then Exited else AtTop,
         written := x.written + buf,
         badWrites := x.badWrites + (if x.closes > 0 then 1 else 0))
    case _ => x
  }

  /** The first locked section of StopRecording and stopMedia. */
  function TakeOut(l: Leg, bounded: bool): Leg {
    if l.recording.Some? && l.recording.value < |l.sessions| then
      var s := l.recording.value;
      l.(recording := None,
         closers := l.closers + [Took(s, bounded)],
         sessions := l.sessions[s := l.sessions[s].(taker := Some(|l.closers|))])
    else l
  }

  function Next(l: Leg, e: Event): Leg {
    match e
    case StartCheck =>
      if l.phase == Up then l.(starters := l.starters + 1) else l
    case StartPublish(path, ready) =>
      if l.starters == 0 then l
      else if l.recording.Some? || !ready then l.(starters := l.starters - 1)
      else l.(starters := l.starters - 1,
              recording := Some(|l.sessions|),
              sessions := l.sessions + [Session(path, None, false, AtTop, 0, false, 0, [], 0, 0)])
    case Progress => l.(phase := Early)
    case AnswerCall => l.(phase := Up)
    case EndCall =>
      if l.phase == Over then l
      else l.(phase := Over, everEnded := true, owed := if l.everEnded then l.owed else l.owed + 1)
    case Sweep =>
      if l.owed == 0 then l else TakeOut(l.(owed := l.owed - 1), true)
    case Take(bounded) => TakeOut(l, bounded)
    case Step(i) =>
      if i < |l.closers| && l.closers[i].sid < |l.sessions| then NextCloser(l, i) else l
    case Grace(i) =>
      if i < |l.closers| && l.closers[i].Waiting? && l.closers[i].bounded
      then l.(closers := l.closers[i := Abandoned(l.closers[i].sid)]) else l
    case _ =>
      if e.sid < |l.sessions| then l.(sessions := l.sessions[e.sid := NextPump(l.sessions[e.sid], e)]) else l
  }

  function Run(l: Leg, es: seq<Event>): Leg
    decreases es
  {
    if es == [] then l else Run(Next(l, es[0]), es[1..])
  }

  function Begin(cfg: Config): Leg {
    Leg(cfg, Early, false, 0, 0, None, [], [])
  }

  // ---- safety ----

  ghost predicate Untouched(x: Session) {
    x.closes == 0 && !x.archived && x.hookRuns == 0
  }

  /** What holds of session x while closer c has it. */
  ghost predicate Holds(cfg: Config, c: Closer, x: Session) {
    match c
    case Took(_, _) => Untouched(x)
    case Waiting(_, _) => Untouched(x) && x.cancelled
    case Closing(_) => Untouched(x) && x.cancelled && x.pump == Exited
    case Marking(_) => x.closes == 1 && x.pump == Exited && !x.archived && x.hookRuns == 0
    case Hooking(_) => x.closes == 1 && x.pump == Exited && x.archived && x.hookRuns == 0 && Archives(cfg, x.path)
    case Finished(_) => x.closes == 1 && x.pump == Exited && x.hookRuns == (if Archives(cfg, x.path) then 1 else 0)
    case Abandoned(_) => Untouched(x) && x.cancelled
  }

  ghost predicate SessionOk(l: Leg, s: nat)
    requires s < |l.sessions|
  {
    var x := l.sessions[s];
    && x.badWrites == 0
    && x.badHooks == 0
    && match x.taker
       case None => l.recording == Some(s) && Untouched(x)
       case Some(i) =>
         i < |l.closers| && l.closers[i].sid == s && l.recording != Some(s) && Holds(l.cfg, l.closers[i], x)
  }

  ghost predicate CloserOk(l: Leg, i: nat)
    requires i < |l.closers|
  {
    l.closers[i].sid < |l.sessions| && l.sessions[l.closers[i].sid].taker == Some(i)
  }

  ghost predicate Inv(l: Leg) {
    && (l.recording.Some? ==> l.recording.value < |l.sessions| && l.sessions[l.recording.value].taker.None?)
    && (forall s :: 0 <= s < |l.sessions| ==> SessionOk(l, s))
    && (forall i :: 0 <= i < |l.closers| ==> CloserOk(l, i))
  }

  /** A step that changes one session, and possibly the closer that has it, keeps the invariant if it keeps it there. */
  lemma InvLocal(l: Leg, l': Leg, s: nat)
    requires Inv(l) && s < |l.sessions|
    requires l' == l.(sessions := l'.sessions, closers := l'.closers)
    requires |l'.sessions| == |l.sessions| && |l'.closers| == |l.closers|
    requires forall t :: 0 <= t < |l.sessions| && t != s ==> l'.sessions[t] == l.sessions[t]
    requires l'.sessions[s].taker == l.sessions[s].taker
    requires forall i :: 0 <= i < |l.closers| ==>
               l'.closers[i].sid == l.closers[i].sid && (l.closers[i].sid != s ==> l'.closers[i] == l.closers[i])
    requires SessionOk(l', s)
    ensures Inv(l')
  {
    forall t | 0 <= t < |l'.sessions| ensures SessionOk(l', t) {
      assert SessionOk(l, t);
    }
    forall i | 0 <= i < |l'.closers| ensures CloserOk(l', i) {
      assert CloserOk(l, i);
    }
  }

  lemma InvCloser(l: Leg, i: nat)
    requires Inv(l) && i < |l.closers| && l.closers[i].sid < |l.sessions|
    ensures Inv(NextCloser(l, i))
  {
    var l' := NextCloser(l, i);
    var s := l.closers[i].sid;
    assert CloserOk(l, i) && SessionOk(l, s);
    forall j | 0 <= j < |l.closers| && j != i ensures l.closers[j].sid != s {
      assert CloserOk(l, j);
    }
    InvLocal(l, l', s);
  }

  lemma InvPump(l: Leg, e: Event)
    requires Inv(l) && (e.PumpCheck? || e.PumpRead? || e.PumpWrite?)
    ensures Inv(Next(l, e))
  {
    if e.sid < |l.sessions| {
      assert SessionOk(l, e.sid);
      InvLocal(l, Next(l, e), e.sid);
    }
  }

  lemma InvPublish(l: Leg, path: string)
    requires Inv(l)
    ensures Inv(Next(l, StartPublish(path, true)))
  {
    var l' := Next(l, StartPublish(path, true));
    forall s | 0 <= s < |l'.sessions| ensures SessionOk(l', s) {
      if s < |l.sessions| {
        assert SessionOk(l, s);
      }
    }
    forall i | 0 <= i < |l'.closers| ensures CloserOk(l', i) {
      assert CloserOk(l, i);
    }
  }

  lemma InvTake(l: Leg, bounded: bool)
    requires Inv(l)
    ensures Inv(TakeOut(l, bounded))
  {
    var l' := TakeOut(l, bounded);
    forall s | 0 <= s < |l'.sessions| ensures SessionOk(l', s) {
      assert SessionOk(l, s);
    }
    forall i | 0 <= i < |l'.closers| ensures CloserOk(l', i) {
      if i < |l.closers| {
        assert CloserOk(l, i);
      }
    }
  }

  lemma InvStep(l: Leg, e: Event)
    requires Inv(l)
    ensures Inv(Next(l, e)) && Next(l, e).cfg == l.cfg
  {
    match e
    case Step(i) =>
      if i < |l.closers| && l.closers[i].sid < |l.sessions| {
        InvCloser(l, i);
      }
    case Grace(i) =>
      if Next(l, e) != l {
        var s := l.closers[i].sid;
        assert CloserOk(l, i) && SessionOk(l, s);
        forall j | 0 <= j < |l.closers| && j != i ensures l.closers[j].sid != s {
          assert CloserOk(l, j);
        }
        InvLocal(l, Next(l, e), s);
      }
    case StartPublish(path, ready) =>
      if ready {
        InvPublish(l, path);
      } else {
        InvFrame(l, Next(l, e));
      }
    case Take(bounded) => InvTake(l, bounded);
    case StartCheck => InvFrame(l, Next(l, e));
    case Progress => InvFrame(l, Next(l, e));
    case AnswerCall => InvFrame(l, Next(l, e));
    case EndCall => InvFrame(l, Next(l, e));
    case Sweep =>
      if l.owed > 0 {
        InvFrame(l, l.(owed := l.owed - 1));
        InvTake(l.(owed := l.owed - 1), true);
      }
    case _ => InvPump(l, e);
  }

  lemma InvFrame(l: Leg, l': Leg)
    requires Inv(l) && l' == l.(phase := l'.phase, everEnded := l'.everEnded, owed := l'.owed, starters := l'.starters)
    ensures Inv(l')
  {
    forall s | 0 <= s < |l'.sessions| ensures SessionOk(l', s) {
      assert SessionOk(l, s);
    }
    forall i | 0 <= i < |l'.closers| ensures CloserOk(l', i) {
      assert CloserOk(l, i);
    }
  }

  lemma {:induction false} Invariant(l: Leg, es: seq<Event>)
    requires Inv(l)
    ensures Inv(Run(l, es)) && Run(l, es).cfg == l.cfg
    decreases es
  {
    if es != [] {
      InvStep(l, es[0]);
      Invariant(Next(l, es[0]), es[1..]);
    }
  }

  /** Over any interleaving and any number of recordings: one closer per session, one close, at most one archive. */
  lemma SessionsAreSafe(cfg: Config, es: seq<Event>)
    ensures var l := Run(Begin(cfg), es);
            && (forall i, j :: 0 <= i < j < |l.closers| ==> l.closers[i].sid != l.closers[j].sid)
            && (forall s :: 0 <= s < |l.sessions| ==>
                  var x := l.sessions[s];
                  && x.closes <= 1 && (x.closes == 1 ==> x.pump == Exited) && x.badWrites == 0
                  && x.hookRuns <= x.closes && x.badHooks == 0)
  {
    var l := Run(Begin(cfg), es);
    Invariant(Begin(cfg), es);
    forall s | 0 <= s < |l.sessions|
      ensures var x := l.sessions[s];
              && x.closes <= 1 && (x.closes == 1 ==> x.pump == Exited) && x.badWrites == 0
              && x.hookRuns <= x.closes && x.badHooks == 0
    {
      assert SessionOk(l, s);
    }
    forall i, j | 0 <= i < j < |l.closers| ensures l.closers[i].sid != l.closers[j].sid {
      assert CloserOk(l, i) && CloserOk(l, j);
    }
  }

  lemma EndedCloserStays(l: Leg, i: nat, e: Event)
    requires i < |l.closers| && (l.closers[i].Finished? || l.closers[i].Abandoned?)
    ensures i < |Next(l, e).closers| && Next(l, e).closers[i] == l.closers[i]
  {
  }

  /** How each way of stopping ends: a finished closer closed and archived its session, an abandoning one did neither, for good. */
  lemma {:induction false} ClosersEnd(l: Leg, i: nat, es: seq<Event>)
    requires Inv(l) && i < |l.closers| && (l.closers[i].Finished? || l.closers[i].Abandoned?)
    ensures var l' := Run(l, es);
            && i < |l'.closers| && l'.closers[i] == l.closers[i] && l'.closers[i].sid < |l'.sessions|
            && var x := l'.sessions[l.closers[i].sid];
               if l.closers[i].Finished?
               then x.closes == 1 && x.hookRuns == (if l'.cfg.hook && l'.cfg.owner && x.path != "" then 1 else 0)
               else x.closes == 0 && x.hookRuns == 0 && !x.archived
    decreases es
  {
    assert CloserOk(l, i) && SessionOk(l, l.closers[i].sid);
    if es != [] {
      InvStep(l, es[0]);
      EndedCloserStays(l, i, es[0]);
      ClosersEnd(Next(l, es[0]), i, es[1..]);
    }
  }

  function CloserMeasure(c: Closer): nat {
    match c
    case Took(_, _) => 5
    case Waiting(_, _) => 4
    case Closing(_) => 3
    case Marking(_) => 2
    case Hooking(_) => 1
    case _ => 0
  }

  /** A closer only ever waits for the pump: each of its steps brings it closer to its end, and only stopMedia may give up. */
  lemma ClosersProgress(l: Leg, i: nat)
    requires Inv(l) && i < |l.closers| && CloserMeasure(l.closers[i]) > 0
    ensures l.closers[i].sid < |l.sessions|
    ensures CloserMeasure(Next(l, Step(i)).closers[i]) < CloserMeasure(l.closers[i]) <==>
            !(l.closers[i].Waiting? && l.sessions[l.closers[i].sid].pump != Exited)
    ensures Next(l, Grace(i)) != l <==> l.closers[i].Waiting? && l.closers[i].bounded
  {
    assert CloserOk(l, i) && SessionOk(l, l.closers[i].sid);
    if l.closers[i].Waiting? && l.closers[i].bounded {
      assert Next(l, Grace(i)).closers[i] != l.closers[i];
    }
  }

  /** A closer is past giving up, or never could. */
  ghost predicate NeverGivesUp(c: Closer) {
    match c
    case Took(_, bounded) => !bounded
    case Waiting(_, bounded) => !bounded
    case Abandoned(_) => false
    case _ => true
  }

  lemma {:induction false} NeverGivesUpRun(l: Leg, i: nat, es: seq<Event>)
    requires i < |l.closers| && NeverGivesUp(l.closers[i])
    ensures i < |Run(l, es).closers| && NeverGivesUp(Run(l, es).closers[i])
    decreases es
  {
    if es != [] {
      NeverGivesUpRun(Next(l, es[0]), i, es[1..]);
    }
  }

  ghost predicate MayAbandon(l: Leg, i: nat) {
    exists es :: i < |Run(l, es).closers| && Run(l, es).closers[i].Abandoned?
  }

  /** A live recording that is taken may be abandoned to a pump that does not stop, exactly when it is stopMedia that takes it. */
  lemma AbandonsIffBounded(l: Leg, bounded: bool)
    requires Inv(l) && l.recording.Some? && l.sessions[l.recording.value].pump != Exited
    ensures MayAbandon(Next(l, Take(bounded)), |l.closers|) <==> bounded
  {
    var i, l1 := |l.closers|, Next(l, Take(bounded));
    if bounded {
      var l2 := Next(l1, Step(i));
      var l3 := Next(l2, Grace(i));
      assert l3.closers[i].Abandoned?;
      assert [Step(i), Grace(i)][1..] == [Grace(i)] && [Grace(i)][1..] == [];
      assert Run(l2, [Grace(i)]) == l3 && Run(l1, [Step(i), Grace(i)]) == Run(l2, [Grace(i)]);
    } else {
      forall es ensures !(i < |Run(l1, es).closers| && Run(l1, es).closers[i].Abandoned?) {
        NeverGivesUpRun(l1, i, es);
      }
    }
  }

  // ---- what is recorded ----

  /** What the reads of session s returned, over the events from l on that found its pump in a read. */
  function ReadInto(l: Leg, es: seq<Event>, s: nat): bytes
    decreases es
  {
    if es == [] then []
    else
      (if es[0].PumpRead? && es[0].sid == s && s < |l.sessions| && l.sessions[s].pump == InRead then es[0].buf else [])
      + ReadInto(Next(l, es[0]), es[1..], s)
  }

  /** The file of a session and what its pump has in hand. */
  function Captured(l: Leg, s: nat): bytes {
    if s >= |l.sessions| then []
    else l.sessions[s].written + (if l.sessions[s].pump.Holding? then l.sessions[s].pump.buf else [])
  }

  predicate IsPumpEvent(e: Event) {
    e.PumpCheck? || e.PumpRead? || e.PumpWrite?
  }

  lemma OthersKeepPump(l: Leg, e: Event, s: nat)
    requires !IsPumpEvent(e)
    ensures Captured(Next(l, e), s) == Captured(l, s)
    ensures s < |l.sessions| ==> s < |Next(l, e).sessions| && Next(l, e).sessions[s].pump == l.sessions[s].pump
  {
  }

  lemma CapturedStep(l: Leg, e: Event, s: nat)
    ensures Captured(Next(l, e), s) == Captured(l, s) + ReadInto(l, [e], s)
  {
    assert [e][1..] == [];
    if !IsPumpEvent(e) {
      OthersKeepPump(l, e, s);
    } else if s < |l.sessions| && e.sid == s {
      CapturedPump(l.sessions[s], e);
    }
  }

  lemma CapturedPump(x: Session, e: Event)
    requires IsPumpEvent(e)
    ensures var x' := NextPump(x, e);
            x'.written + (if x'.pump.Holding? then x'.pump.buf else [])
            == x.written + (if x.pump.Holding? then x.pump.buf else []) + (if e.PumpRead? && x.pump == InRead then e.buf else [])
  {
  }

  lemma {:induction false} CapturedRun(l: Leg, es: seq<Event>, s: nat)
    ensures Captured(Run(l, es), s) == Captured(l, s) + ReadInto(l, es, s)
    decreases es
  {
    if es != [] {
      CapturedStep(l, es[0], s);
      CapturedRun(Next(l, es[0]), es[1..], s);
      assert [es[0]][1..] == [];
      assert ReadInto(l, es, s) == ReadInto(l, [es[0]], s) + ReadInto(Next(l, es[0]), es[1..], s);
    }
  }

  /**
   Over every run, the file of a session and what its pump has in hand are all that was read for it, in order; and
   once the pump has exited, and so when the file is closed and archived, the file is all of it.
   */
  lemma NothingReadIsLost(cfg: Config, es: seq<Event>, s: nat)
    requires s < |Run(Begin(cfg), es).sessions|
    ensures var x := Run(Begin(cfg), es).sessions[s];
            && x.written + (if x.pump.Holding? then x.pump.buf else []) == ReadInto(Begin(cfg), es, s)
            && (x.pump == Exited || x.closes > 0 || x.hookRuns > 0 ==> x.written == ReadInto(Begin(cfg), es, s))
  {
    CapturedRun(Begin(cfg), es, s);
    SessionsAreSafe(cfg, es);
    assert Captured(Begin(cfg), s) == [];
  }

  /** No read of session s fails in es. */
  ghost predicate ReadsWell(es: seq<Event>, s: nat) {
    forall i :: 0 <= i < |es| && es[i].PumpRead? && es[i].sid == s ==> !es[i].failed
  }

  ghost predicate Running(x: Session) {
    x.pump != Exited && (x.pump.Holding? ==> !x.pump.last)
  }

  lemma RunningStep(l: Leg, e: Event, s: nat)
    requires s < |l.sessions| && Running(l.sessions[s]) && (e.PumpRead? && e.sid == s ==> !e.failed)
    ensures s < |Next(l, e).sessions| && (Next(l, e).sessions[s].cancelled || Running(Next(l, e).sessions[s]))
  {
    if !IsPumpEvent(e) {
      OthersKeepPump(l, e, s);
    } else {
      assert Next(l, e).sessions[s] == if e.sid == s then NextPump(l.sessions[s], e) else l.sessions[s];
    }
  }

  /** A pump goes on until its session is cancelled or a read fails. */
  lemma {:induction false} PumpGoesOn(l: Leg, s: nat, es: seq<Event>)
    requires s < |l.sessions| && Running(l.sessions[s]) && ReadsWell(es, s)
    ensures s < |Run(l, es).sessions|
    ensures Run(l, es).sessions[s].cancelled || Running(Run(l, es).sessions[s])
    decreases es
  {
    if es != [] {
      var l' := Next(l, es[0]);
      RunningStep(l, es[0], s);
      if l'.sessions[s].cancelled {
        StaysCancelled(l', s, es[1..]);
      } else {
        PumpGoesOn(l', s, es[1..]);
      }
    }
  }

  lemma {:induction false} StaysCancelled(l: Leg, s: nat, es: seq<Event>)
    requires s < |l.sessions| && l.sessions[s].cancelled
    ensures s < |Run(l, es).sessions| && Run(l, es).sessions[s].cancelled
    decreases es
  {
    if es != [] {
      assert Next(l, es[0]).sessions[s].cancelled;
      StaysCancelled(Next(l, es[0]), s, es[1..]);
    }
  }

  /** A read that fails is the last one, and what it returned is still written. */
  lemma FailedReadEnds(l: Leg, s: nat, buf: bytes)
    requires s < |l.sessions| && l.sessions[s].pump == InRead
    ensures var l' := Next(Next(l, PumpRead(s, buf, true)), PumpWrite(s));
            |l'.sessions| == |l.sessions| && l'.sessions[s].pump == Exited && l'.sessions[s].written == l.sessions[s].written + buf
  {
  }

  /** A cancelled pump exits after the read it is in, whatever that returns, and writes that first. */
  lemma CancelledPumpExits(l: Leg, s: nat, buf: bytes, failed: bool)
    requires s < |l.sessions| && l.sessions[s].cancelled && l.sessions[s].pump != Exited
    ensures var l' := Next(Next(Next(l, PumpRead(s, buf, failed)), PumpWrite(s)), PumpCheck(s));
            && |l'.sessions| == |l.sessions| && l'.sessions[s].pump == Exited
            && l'.sessions[s].written == Captured(l, s) + (if l.sessions[s].pump == InRead then buf else [])
  {
  }

  // ---- recordings stop with the call ----

  function PhaseOf(s: CallState.State): Phase {
    match s
    case Answered => Up
    case Ended => Over
    case _ => Early
  }

  /** The event by which a call of setState reaches the recordings. */
  function EventOf(s: CallState.State): Event {
    match s
    case Answered => AnswerCall
    case Ended => EndCall
    case _ => Progress
  }

  ghost predicate Matches(l: Leg, h: CallState.Shared) {
    l.phase == PhaseOf(h.state) && l.everEnded == h.endedAt.Some? && h.doneCloses == (if h.endedAt.Some? then 1 else 0)
  }

  /** setState and this machine move together: the stopMedia goroutines it spawns are the sweeps that are owed. */
  lemma SetStateOwesSweeps(l: Leg, h: CallState.Shared, s: CallState.State, reason: string, now: nat)
    requires Matches(l, h)
    ensures var h', l' := CallState.Settled(h, s, reason, now), Next(l, EventOf(s));
            Matches(l', h') && l'.owed - l.owed == h'.mediaStops - h.mediaStops && l'.recording == l.recording
  {
  }

  /** Nobody calls StopRecording or Hangup in es, and nothing revives the call. */
  ghost predicate LeftAlone(es: seq<Event>) {
    forall i :: 0 <= i < |es| ==> !es[i].Take? && !es[i].AnswerCall? && !es[i].Progress?
  }

  /** Whenever the stopMedia goroutines have all swept an ended leg that is left alone, nothing is recording. */
  ghost predicate StopsByItself(l: Leg) {
    forall es :: LeftAlone(es) && Run(l, es).owed == 0 ==> Run(l, es).recording.None?
  }

  lemma {:induction false} NothingKeepsRecording(l: Leg, es: seq<Event>)
    requires l.phase == Over && l.starters == 0 && (l.recording.None? || l.owed > 0) && LeftAlone(es)
    requires l.recording.Some? ==> l.recording.value < |l.sessions|
    ensures Run(l, es).recording.None? || Run(l, es).owed > 0
    decreases es
  {
    if es != [] {
      NothingKeepsRecording(Next(l, es[0]), es[1..]);
    }
  }

  /** All the sweeps that are owed. */
  function Sweeps(n: nat): (es: seq<Event>)
    ensures LeftAlone(es)
  {
    if n == 0 then [] else [Sweep] + Sweeps(n - 1)
  }

  lemma {:induction false} SweepsThen(l: Leg, more: seq<Event>) returns (l': Leg)
    ensures Run(l, Sweeps(l.owed) + more) == Run(l', more) && l'.owed == 0 && l'.starters == l.starters
    decreases l.owed
  {
    if l.owed == 0 {
      assert Sweeps(0) + more == more;
      return l;
    }
    assert (Sweeps(l.owed) + more)[1..] == Sweeps(l.owed - 1) + more;
    l' := SweepsThen(Next(l, Sweep), more);
  }

  /**
   The doc comment of StartRecording promises that it "auto-stops when the call ends".  On a leg that has ended, with
   whatever sweeps are still owed, this holds exactly when no StartRecording is past its state check and a recording,
   if there is one, still has a sweep to come.
   */
  lemma AutoStopIff(l: Leg)
    requires Inv(l) && l.phase == Over
    ensures StopsByItself(l) <==> l.starters == 0 && (l.recording.None? || l.owed > 0)
  {
    if l.starters == 0 && (l.recording.None? || l.owed > 0) {
      forall es | LeftAlone(es) && Run(l, es).owed == 0 ensures Run(l, es).recording.None? {
        NothingKeepsRecording(l, es);
      }
    } else if l.starters == 0 {
      assert LeftAlone([]) && Run(l, []) == l;
    } else {
      StarterPublishes(l);
    }
  }

  /** The sweeps come first, and then the StartRecording that was past its check publishes its session. */
  lemma StarterPublishes(l: Leg)
    requires l.starters > 0
    ensures !StopsByItself(l)
  {
    var last := [StartPublish("leg.pcm", true)];
    var l' := SweepsThen(l, last);
    PublishAlone(l');
    assert LeftAlone(Sweeps(l.owed) + last);
  }

  lemma PublishAlone(l: Leg)
    requires l.starters > 0
    ensures Run(l, [StartPublish("leg.pcm", true)]).recording.Some? && Run(l, [StartPublish("leg.pcm", true)]).owed == l.owed
  {
    var es := [StartPublish("leg.pcm", true)];
    assert es[1..] == [] && Run(l, es) == Run(Next(l, es[0]), []);
  }

  /**
   Said of the moment at which the call ends: its recording stops by itself exactly when no StartRecording is past its
   check and, if something is recording, this is the first end of the call or the sweep of the first is still to come.
   */
  lemma AutoStopAtEndIff(l: Leg)
    requires Inv(l) && l.phase != Over
    ensures StopsByItself(Next(l, EndCall)) <==> l.starters == 0 && (l.recording.None? || !l.everEnded || l.owed > 0)
  {
    InvStep(l, EndCall);
    AutoStopIff(Next(l, EndCall));
  }

  lemma {:induction false} KeepsRecording(l: Leg, s: nat, es: seq<Event>)
    requires l.recording == Some(s) && l.phase == Over && l.owed == 0 && LeftAlone(es)
    ensures Run(l, es).recording == Some(s)
    decreases es
  {
    if es != [] {
      KeepsRecording(Next(l, es[0]), s, es[1..]);
    }
  }

  /** An Answer that a BYE overtook revives the call; a recording started then survives the second end for good. */
  lemma RevivedCallIsNotSwept(cfg: Config, path: string, es: seq<Event>)
    requires LeftAlone(es)
    ensures var l := Revived(cfg, path); l.phase == Over && l.owed == 0 && Run(l, es).recording == Some(0)
  {
    KeepsRecording(Revived(cfg, path), 0, es);
  }

  /** The leg after both ends, by six steps from the beginning. */
  function Revived(cfg: Config, path: string): (l: Leg)
    ensures Inv(l)
  {
    var ended := Next(Next(Begin(cfg), EndCall), Sweep);
    var recording := Next(Next(Next(ended, AnswerCall), StartCheck), StartPublish(path, true));
    var l := Next(recording, EndCall);
    assert SessionOk(l, 0);
    l
  }
}
