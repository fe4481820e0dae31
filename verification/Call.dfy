/**
 The state of a call leg (internal/sip/call.go) and the wake-up protocol around it.

 setState runs on the test goroutine and on the SIP stack's dialog callback; WaitState blocks on a
 channel that holds one token.  `Leg` is everything those goroutines share plus their program
 counters, and `Next` is one atomic step.  A step that is not enabled leaves the leg as it is, so every
 sequence of steps is an interleaving.
 */
module CallState {
  import opened Basics

  datatype State = Init | Trying | Ringing | Answered | Ended

  function Rank(s: State): nat {
    match s
    case Init => 0
    case Trying => 1
    case Ringing => 2
    case Answered => 3
    case Ended => 4
  }

  /** What a leg keeps behind its mutex and in its channels. */
  datatype Shared = Shared(
    state: State,
    answeredAt: Option<nat>,
    endedAt: Option<nat>,
    endReason: string,
    doneCloses: nat,      // how often doneCh has been closed; a second close would panic
    token: bool,          // the one slot of stateCh
    delivered: nat,       // tokens that went into the slot
    updates: nat,         // calls of setState that changed the state
    unregistered: nat,    // calls of registry.unregister
    mediaStops: nat)      // goroutines started for stopMedia

  /** The section of setState that runs under the mutex, when s differs from the current state. */
  function Update(h: Shared, s: State, reason: string, now: nat): Shared {
    var first := s == Ended && h.endedAt.None?;
    h.(state := s,
       answeredAt := if s == Answered && h.answeredAt.None? then Some(now) else h.answeredAt,
       endedAt := if first then Some(now) else h.endedAt,
       endReason := if first then reason else h.endReason,
       doneCloses := if first then h.doneCloses + 1 else h.doneCloses,
       updates := h.updates + 1)
  }

  /** One non-blocking send on stateCh. */
  function Send(h: Shared): Shared {
    if h.token then h else h.(token := true, delivered := h.delivered + 1)
  }

  // ---- goroutines ----

  const WAKES: nat := 4

  /** A goroutine inside setState, after its locked section. */
  datatype Setter = Unregister | SpawnStop | Wake(left: nat) | Done

  datatype WaitResult = Reached | Unreachable | TimedOut

  datatype WaiterPc = Reading | Blocked(seen: State) | Returned(result: WaitResult)

  datatype Waiter = Waiter(target: State, pc: WaiterPc, loops: nat)

  datatype Leg = Leg(shared: Shared, setters: seq<Setter>, waiters: seq<Waiter>)

  datatype Event =
    | SetState(s: State, reason: string, now: nat)  // a goroutine calls setState
    | SetterStep(i: nat)
    | Read(w: nat)
    | Receive(w: nat)
    | Expire(w: nat)
    | Again(w: nat, target: State)                  // the goroutine calls WaitState once more

  function NextSetter(l: Leg, i: nat): Leg
    requires i < |l.setters|
  {
    match l.setters[i]
    case Unregister =>
      l.(shared := l.shared.(unregistered := l.shared.unregistered + 1), setters := l.setters[i := SpawnStop])
    case SpawnStop =>
      l.(shared := l.shared.(mediaStops := l.shared.mediaStops + 1), setters := l.setters[i := Wake(WAKES)])
    case Wake(n) =>
      if n == 0 then l.(setters := l.setters[i := Done])
      else l.(shared := Send(l.shared), setters := l.setters[i := Wake(n - 1)])
    case Done => l
  }

  function ReadState(x: Waiter, s: State): Waiter {
    if s == x.target then x.(pc := Returned(Reached))
    else if s == Ended then x.(pc := Returned(Unreachable))
    else x.(pc := Blocked(s))
  }

  function Next(l: Leg, e: Event): Leg {
    match e
    case SetState(s, reason, now) =>
      if s == l.shared.state then l
      else
        var h := Update(l.shared, s, reason, now);
        l.(shared := h,
           setters := l.setters + [if h.doneCloses != l.shared.doneCloses then Unregister else Wake(WAKES)])
    case SetterStep(i) =>
      if i < |l.setters| then NextSetter(l, i) else l
    case Read(w) =>
      if w < |l.waiters| && l.waiters[w].pc == Reading
      then l.(waiters := l.waiters[w := ReadState(l.waiters[w], l.shared.state)]) else l
    case Receive(w) =>
      if w < |l.waiters| && l.waiters[w].pc.Blocked? && l.shared.token
      then l.(shared := l.shared.(token := false),
              waiters := l.waiters[w := l.waiters[w].(pc := Reading, loops := l.waiters[w].loops + 1)]) else l
    case Expire(w) =>
      if w < |l.waiters| && l.waiters[w].pc.Blocked?
      then l.(waiters := l.waiters[w := l.waiters[w].(pc := Returned(TimedOut))]) else l
    case Again(w, target) =>
      if w < |l.waiters| && l.waiters[w].pc.Returned?
      then l.(waiters := l.waiters[w := l.waiters[w].(target := target, pc := Reading)]) else l
  }

  function Run(l: Leg, es: seq<Event>): Leg
    decreases es
  {
    if es == [] then l else Run(Next(l, es[0]), es[1..])
  }

  function Fresh(s: State): Shared {
    Shared(s, None, if s == Ended then Some(0) else None, "", if s == Ended then 1 else 0,
           false, 0, 0, if s == Ended then 1 else 0, if s == Ended then 1 else 0)
  }

  /** A leg in state s at the moment one goroutine for each target makes its first call of WaitState. */
  function Start(s: State, targets: seq<State>): Leg {
    Leg(Fresh(s), [], seq(|targets|, i requires 0 <= i < |targets| => Waiter(targets[i], Reading, 0)))
  }

  // ---- ending ----

  /** At most one goroutine is between ending the call and stopping its media, and the counts agree with it. */
  ghost predicate EndInv(l: Leg) {
    var h := l.shared;
    && (h.state == Ended ==> h.endedAt.Some?)
    && h.doneCloses == (if h.endedAt.Some? then 1 else 0)
    && h.mediaStops <= h.unregistered <= h.doneCloses
    && (forall i :: 0 <= i < |l.setters| && l.setters[i] == Unregister ==> h.doneCloses == 1 && h.unregistered == 0)
    && (forall i :: 0 <= i < |l.setters| && l.setters[i] == SpawnStop ==> h.unregistered == 1 && h.mediaStops == 0)
    && (forall i, j :: 0 <= i < j < |l.setters| ==>
          !(l.setters[i] in {Unregister, SpawnStop} && l.setters[j] in {Unregister, SpawnStop}))
    && (h.unregistered < h.doneCloses ==> Unregister in l.setters)
    && (h.mediaStops < h.unregistered ==> SpawnStop in l.setters)
  }

  lemma EndInvStep(l: Leg, e: Event)
    requires EndInv(l)
    ensures EndInv(Next(l, e))
  {
    var l' := Next(l, e);
    match e
    case SetState(s, reason, now) =>
      if s != l.shared.state {
        assert forall i :: 0 <= i < |l.setters| ==> l'.setters[i] == l.setters[i];
        assert l'.setters[|l.setters|] == l'.setters[|l'.setters| - 1];
        assert forall x :: x in l.setters ==> x in l'.setters;
      }
    case SetterStep(i) =>
      if i < |l.setters| && l.setters[i] != Done {
        EndInvSetter(l, i);
      }
    case _ =>
  }

  lemma EndInvSetter(l: Leg, i: nat)
    requires EndInv(l) && i < |l.setters|
    ensures EndInv(NextSetter(l, i))
  {
    var l' := NextSetter(l, i);
    assert l'.setters[i] in l'.setters;
    assert forall j :: 0 <= j < |l.setters| && j != i ==> l'.setters[j] == l.setters[j];
    forall x | x in l.setters && x != l.setters[i] ensures x in l'.setters {
      var j :| 0 <= j < |l.setters| && l.setters[j] == x;
      assert l'.setters[j] == x;
    }
  }

  /** Whatever goroutines do, doneCh is closed once, exactly when endedAt is set, and Ended implies closed. */
  lemma {:induction false} EndInvariant(l: Leg, es: seq<Event>)
    requires EndInv(l)
    ensures EndInv(Run(l, es))
    decreases es
  {
    if es != [] {
      EndInvStep(l, es[0]);
      EndInvariant(Next(l, es[0]), es[1..]);
    }
  }

  /** Once no goroutine is inside setState, an ended call was unregistered once and its media stopped once. */
  lemma UnregisteredOnce(s: State, targets: seq<State>, es: seq<Event>)
    ensures var l := Run(Start(s, targets), es);
            && l.shared.doneCloses <= 1
            && (l.shared.state == Ended ==> l.shared.doneCloses == 1)
            && (l.shared.doneCloses == 1 <==> l.shared.endedAt.Some?)
            && l.shared.mediaStops <= l.shared.unregistered <= l.shared.doneCloses
            && ((forall i :: 0 <= i < |l.setters| ==> l.setters[i] == Done) ==>
                  l.shared.unregistered == l.shared.mediaStops == l.shared.doneCloses)
  {
    EndInvariant(Start(s, targets), es);
  }

  /** The first event of es, run from l, that asks for Ended while the leg is in another state. */
  function FirstEnd(l: Leg, es: seq<Event>): (e: Option<Event>)
    ensures e.Some? ==> e.value.SetState? && e.value.s == Ended
    decreases es
  {
    if es == [] then None
    else if es[0].SetState? && es[0].s == Ended && l.shared.state != Ended then Some(es[0])
    else FirstEnd(Next(l, es[0]), es[1..])
  }

  /** endReason and endedAt are those of the first end, forever; later ends and later states change neither. */
  lemma {:induction false} FirstEndWins(l: Leg, es: seq<Event>)
    requires EndInv(l)
    ensures var h := Run(l, es).shared;
            if l.shared.endedAt.Some? then
              h.endedAt == l.shared.endedAt && h.endReason == l.shared.endReason && h.doneCloses == 1
            else match FirstEnd(l, es)
              case None => h.endedAt.None? && h.endReason == l.shared.endReason && h.doneCloses == 0
              case Some(e) => h.endedAt == Some(e.now) && h.endReason == e.reason && h.doneCloses == 1
    decreases es
  {
    if es != [] {
      EndInvStep(l, es[0]);
      FirstEndWins(Next(l, es[0]), es[1..]);
    }
  }

  // ---- waking ----

  /** A setter that changed the state and has not sent its first token yet. */
  predicate Unsent(x: Setter) {
    x == Unregister || x == SpawnStop || x == Wake(WAKES)
  }

  /** The sends a setter still has to make. */
  function Outstanding(x: Setter): nat {
    match x
    case Wake(n) => n
    case Done => 0
    case _ => WAKES
  }

  function TotalOutstanding(xs: seq<Setter>): nat {
    if xs == [] then 0 else Outstanding(xs[0]) + TotalOutstanding(xs[1..])
  }

  lemma {:induction false} OutstandingUpdate(xs: seq<Setter>, i: nat, x: Setter)
    requires i < |xs|
    ensures TotalOutstanding(xs[i := x]) == TotalOutstanding(xs) - Outstanding(xs[i]) + Outstanding(x)
  {
    if i > 0 {
      assert xs[i := x][1..] == xs[1..][i - 1 := x];
      OutstandingUpdate(xs[1..], i - 1, x);
    } else {
      assert xs[i := x][1..] == xs[1..];
    }
  }

  lemma {:induction false} OutstandingAppend(xs: seq<Setter>, x: Setter)
    ensures TotalOutstanding(xs + [x]) == TotalOutstanding(xs) + Outstanding(x)
  {
    if xs != [] {
      assert (xs + [x])[1..] == xs[1..] + [x];
      OutstandingAppend(xs[1..], x);
    } else {
      assert [x][1..] == [];
    }
  }

  /** The wake-up invariant for a single waiter. */
  ghost predicate WakeInv(l: Leg) {
    && |l.waiters| == 1
    && (l.waiters[0].pc.Blocked? && l.waiters[0].pc.seen != l.shared.state ==>
          l.shared.token || exists i :: 0 <= i < |l.setters| && Unsent(l.setters[i]))
    && l.waiters[0].loops + (if l.shared.token then 1 else 0) == l.shared.delivered
    && l.shared.delivered + TotalOutstanding(l.setters) <= WAKES * l.shared.updates
    && (forall i :: 0 <= i < |l.setters| && l.setters[i].Wake? ==> l.setters[i].left <= WAKES)
  }

  lemma WakeInvStep(l: Leg, e: Event)
    requires WakeInv(l)
    ensures WakeInv(Next(l, e))
  {
    var l' := Next(l, e);
    match e
    case SetState(s, reason, now) =>
      if s != l.shared.state {
        OutstandingAppend(l.setters, l'.setters[|l.setters|]);
        assert Unsent(l'.setters[|l.setters|]);
      }
    case SetterStep(i) =>
      if i < |l.setters| && l.setters[i] != Done {
        OutstandingUpdate(l.setters, i, l'.setters[i]);
        if j :| 0 <= j < |l.setters| && Unsent(l.setters[j]) {
          assert j != i ==> Unsent(l'.setters[j]);
          assert l.setters[i] == Unregister || l.setters[i] == SpawnStop ==> Unsent(l'.setters[i]);
        }
      }
    case _ =>
  }

  lemma {:induction false} WakeInvariant(l: Leg, es: seq<Event>)
    requires WakeInv(l)
    ensures WakeInv(Run(l, es))
    decreases es
  {
    if es != [] {
      WakeInvStep(l, es[0]);
      WakeInvariant(Next(l, es[0]), es[1..]);
    }
  }

  /**
   With one goroutine that calls WaitState as often as it likes: a stale block is always about to end, and the
   loops of all its calls together are bounded by the tokens.
   */
  lemma SingleWaiter(s: State, target: State, es: seq<Event>)
    ensures var l := Run(Start(s, [target]), es);
            && |l.waiters| == 1
            && (l.waiters[0].pc.Blocked? && l.waiters[0].pc.seen != l.shared.state ==>
                  l.shared.token || exists i :: 0 <= i < |l.setters| && Unsent(l.setters[i]))
            && l.waiters[0].loops <= l.shared.delivered <= WAKES * l.shared.updates
  {
    WakeInvariant(Start(s, [target]), es);
  }

  /** A waiter is blocked on a state that is no longer current and nothing is left that would wake it. */
  ghost predicate LostWakeup(l: Leg) {
    && !l.shared.token
    && (forall i :: 0 <= i < |l.setters| ==> l.setters[i] == Done)
    && exists w :: 0 <= w < |l.waiters| && l.waiters[w].pc.Blocked? && l.waiters[w].pc.seen != l.shared.state
  }

  // ---- the sequential code is one of the interleavings ----

  lemma {:induction false} RunSplit(l: Leg, es: seq<Event>, fs: seq<Event>)
    ensures Run(l, es + fs) == Run(Run(l, es), fs)
    decreases es
  {
    if es == [] {
      assert es + fs == fs;
    } else {
      assert (es + fs)[1..] == es[1..] + fs;
      RunSplit(Next(l, es[0]), es[1..], fs);
    }
  }

  /** Goroutine i takes n steps with nobody in between. */
  function Alone(i: nat, n: nat): seq<Event> {
    if n == 0 then [] else [SetterStep(i)] + Alone(i, n - 1)
  }

  /** The loop at the end of setState leaves one token in the slot, however full it was. */
  lemma {:induction false} WakeAlone(l: Leg, i: nat, n: nat)
    requires i < |l.setters| && l.setters[i] == Wake(n)
    ensures Run(l, Alone(i, n + 1)) ==
            l.(shared := if n == 0 then l.shared else Send(l.shared), setters := l.setters[i := Done])
    decreases n
  {
    var l' := Next(l, SetterStep(i));
    assert Alone(i, n + 1)[1..] == Alone(i, n);
    if n > 0 {
      WakeAlone(l', i, n - 1);
      assert l'.setters[i := Done] == l.setters[i := Done];
    }
  }

  /** What a call of setState does to the shared part when it runs without interference. */
  function Settled(h: Shared, s: State, reason: string, now: nat): Shared {
    if s == h.state then h
    else
      var u := Update(h, s, reason, now);
      Send(if u.doneCloses != h.doneCloses
           then u.(unregistered := u.unregistered + 1, mediaStops := u.mediaStops + 1) else u)
  }

  /** The steps a leg takes when a new goroutine calls setState and runs to the end. */
  function Uninterrupted(l: Leg, s: State, reason: string, now: nat): seq<Event> {
    var n := if s == l.shared.state then 0
             else if Update(l.shared, s, reason, now).doneCloses != l.shared.doneCloses then WAKES + 3 else WAKES + 1;
    [SetState(s, reason, now)] + Alone(|l.setters|, n)
  }

  lemma SettledIsARun(l: Leg, s: State, reason: string, now: nat)
    ensures var l' := Run(l, Uninterrupted(l, s, reason, now));
            && l'.shared == Settled(l.shared, s, reason, now)
            && l'.waiters == l.waiters
            && l'.setters == if s == l.shared.state then l.setters else l.setters + [Done]
  {
    var i := |l.setters|;
    var l1 := Next(l, SetState(s, reason, now));
    var n := |Uninterrupted(l, s, reason, now)| - 1;
    AloneLength(i, WAKES + 3);
    AloneLength(i, WAKES + 1);
    assert Uninterrupted(l, s, reason, now)[1..] == Alone(i, n);
    if s != l.shared.state {
      if l1.setters[i] == Unregister {
        var l2 := Next(l1, SetterStep(i));
        var l3 := Next(l2, SetterStep(i));
        AloneStep(l1, i, WAKES + 2);
        AloneStep(l2, i, WAKES + 1);
        WakeAlone(l3, i, WAKES);
        assert l3.setters[i := Done] == l.setters + [Done];
      } else {
        WakeAlone(l1, i, WAKES);
        assert l1.setters[i := Done] == l.setters + [Done];
      }
    }
  }

  lemma AloneStep(l: Leg, i: nat, n: nat)
    ensures Run(l, Alone(i, n + 1)) == Run(Next(l, SetterStep(i)), Alone(i, n))
  {
    assert Alone(i, n + 1)[1..] == Alone(i, n);
  }

  lemma {:induction false} AloneLength(i: nat, n: nat)
    ensures |Alone(i, n)| == n
  {
    if n > 0 {
      AloneLength(i, n - 1);
    }
  }

  // ---- one waiter is the limit ----

  lemma TwoWaitersLose(targets: seq<State>, x: State, y: State)
    requires |targets| >= 2 && x != targets[0] && x != targets[1] && x != y && x != Ended && y != Ended
    ensures LostWakeup(Run(Start(x, targets), [Read(0), Read(1)] + Uninterrupted(Start(x, targets), y, "", 0) + [Receive(0)]))
  {
    var l0 := Start(x, targets);
    var l1 := Next(l0, Read(0));
    var l2 := Next(l1, Read(1));
    var script := Uninterrupted(l0, y, "", 0);
    var l3 := Run(l2, script);
    assert Run(l0, [Read(0), Read(1)]) == l2 by {
      assert [Read(0), Read(1)][1..] == [Read(1)];
    }
    assert l2.setters == [] && l2.shared == l0.shared;
    SettledIsARun(l2, y, "", 0);
    RunSplit(l0, [Read(0), Read(1)], script);
    RunSplit(l0, [Read(0), Read(1)] + script, [Receive(0)]);
    var l4 := Next(l3, Receive(0));
    assert l4.waiters[1].pc == Blocked(x) && l4.shared.state == y;
  }

  /** No interleaving, from any state of the leg, loses a wake-up of the goroutines waiting for these targets. */
  ghost predicate NeverLoses(targets: seq<State>) {
    forall s, es :: !LostWakeup(Run(Start(s, targets), es))
  }

  /**
   WaitState never loses a wake-up, in any interleaving from any state and however often it is called, exactly
   when at most one goroutine calls it.
   */
  lemma NoLostWakeupIffSingle(targets: seq<State>)
    ensures NeverLoses(targets) <==> |targets| <= 1
  {
    if |targets| >= 2 {
      var x := if Init != targets[0] && Init != targets[1] then Init
               else if Trying != targets[0] && Trying != targets[1] then Trying else Ringing;
      TwoWaitersLose(targets, x, Answered);
      var script := [Read(0), Read(1)] + Uninterrupted(Start(x, targets), Answered, "", 0) + [Receive(0)];
      assert NeverLoses(targets) ==> !LostWakeup(Run(Start(x, targets), script));
    } else {
      forall s, es ensures !LostWakeup(Run(Start(s, targets), es)) {
        AtMostOneWaiter(s, targets, es);
      }
    }
  }

  lemma AtMostOneWaiter(s: State, targets: seq<State>, es: seq<Event>)
    requires |targets| <= 1
    ensures !LostWakeup(Run(Start(s, targets), es))
  {
    if |targets| == 1 {
      assert targets == [targets[0]];
      SingleWaiter(s, targets[0], es);
    } else {
      WaitersKept(Start(s, targets), es);
    }
  }

  lemma {:induction false} WaitersKept(l: Leg, es: seq<Event>)
    ensures |Run(l, es).waiters| == |l.waiters|
    decreases es
  {
    if es != [] {
      WaitersKept(Next(l, es[0]), es[1..]);
    }
  }

  // ---- what setState leaves and what WaitState answers ----

  /** The state of the leg is that of the last call of setState, whatever else goes on. */
  lemma {:induction false} StateIsLastSet(l: Leg, es: seq<Event>, last: Event)
    requires last.SetState?
    ensures Run(l, es + [last]).shared.state == last.s
    ensures (forall i :: 0 <= i < |es| ==> !es[i].SetState?) ==> Run(l, es).shared.state == l.shared.state
    decreases es
  {
    if es == [] {
      assert [] + [last] == [last] && [last][1..] == [];
    } else {
      assert (es + [last])[1..] == es[1..] + [last];
      StateIsLastSet(Next(l, es[0]), es[1..], last);
    }
  }

  /** The first event of es, run from l, that answers the leg. */
  function FirstAnswer(l: Leg, es: seq<Event>): (e: Option<Event>)
    ensures e.Some? ==> e.value.SetState? && e.value.s == Answered
    decreases es
  {
    if es == [] then None
    else if es[0].SetState? && es[0].s == Answered && l.shared.state != Answered then Some(es[0])
    else FirstAnswer(Next(l, es[0]), es[1..])
  }

  /** The answer time is that of the first answer, forever. */
  lemma {:induction false} FirstAnswerWins(l: Leg, es: seq<Event>)
    ensures var h, e := Run(l, es).shared, FirstAnswer(l, es);
            h.answeredAt == if l.shared.answeredAt.Some? || e.None? then l.shared.answeredAt else Some(e.value.now)
    decreases es
  {
    if es != [] {
      FirstAnswerWins(Next(l, es[0]), es[1..]);
    }
  }

  /** The event that gives a wait its result, on the leg as it is just before. */
  ghost predicate Gives(l: Leg, e: Event, w: nat, result: WaitResult)
    requires w < |l.waiters|
  {
    var target := l.waiters[w].target;
    match result
    case Reached => e == Read(w) && l.shared.state == target
    case Unreachable => e == Read(w) && l.shared.state == Ended && target != Ended
    case TimedOut => e == Expire(w)
  }

  /** A look at the state ends the wait exactly at its target, or at an end that is not the target; otherwise it blocks. */
  lemma LookAnswers(l: Leg, w: nat)
    requires w < |l.waiters| && l.waiters[w].pc == Reading
    ensures var pc, state, target := Next(l, Read(w)).waiters[w].pc, l.shared.state, l.waiters[w].target;
            && (pc == Returned(Reached) <==> state == target)
            && (pc == Returned(Unreachable) <==> state == Ended && target != Ended)
            && (pc == Blocked(state) <==> state != target && state != Ended)
  {
  }

  /** A blocked wait may expire, and only a blocked one; a wait that has returned may be called again, for another state. */
  lemma WaitExpiresOrStartsAgain(l: Leg, w: nat, target: State)
    requires w < |l.waiters|
    ensures var pc, x := l.waiters[w].pc, Next(l, Expire(w)).waiters[w];
            x.target == l.waiters[w].target && x.pc == if pc.Blocked? then Returned(TimedOut) else pc
    ensures var pc, x := l.waiters[w].pc, Next(l, Again(w, target)).waiters[w];
            if pc.Returned? then x.pc == Reading && x.target == target else x == l.waiters[w]
  {
  }

  /** Event i of the run gave waiter w the result for this target. */
  ghost predicate SeenAt(l0: Leg, es: seq<Event>, i: nat, w: nat, target: State, result: WaitResult) {
    && i < |es| && w < |Run(l0, es[..i]).waiters|
    && Run(l0, es[..i]).waiters[w].target == target && Gives(Run(l0, es[..i]), es[i], w, result)
  }

  /** The result came from some event of the run. */
  ghost predicate Seen(l0: Leg, es: seq<Event>, w: nat, target: State, result: WaitResult) {
    exists i: nat :: SeenAt(l0, es, i, w, target, result)
  }

  lemma SeenBefore(l0: Leg, es: seq<Event>, e: Event, w: nat, target: State, result: WaitResult)
    requires Seen(l0, es, w, target, result)
    ensures Seen(l0, es + [e], w, target, result)
  {
    var i: nat :| SeenAt(l0, es, i, w, target, result);
    assert (es + [e])[..i] == es[..i] && (es + [e])[i] == es[i];
    assert SeenAt(l0, es + [e], i, w, target, result);
  }

  lemma SeenNow(l0: Leg, es: seq<Event>, e: Event, w: nat, result: WaitResult)
    requires w < |Run(l0, es).waiters| && Gives(Run(l0, es), e, w, result)
    ensures Seen(l0, es + [e], w, Run(l0, es).waiters[w].target, result)
  {
    assert (es + [e])[..|es|] == es && (es + [e])[|es|] == e;
    assert SeenAt(l0, es + [e], |es|, w, Run(l0, es).waiters[w].target, result);
  }

  /** A step either leaves a returned waiter as it was, or is what gave it its result. */
  lemma ReturnsBySight(l: Leg, e: Event, w: nat)
    requires w < |l.waiters|
    ensures |Next(l, e).waiters| == |l.waiters|
    ensures var x, x' := l.waiters[w], Next(l, e).waiters[w];
            x'.pc.Returned? ==> x' == x || (x'.target == x.target && Gives(l, e, w, x'.pc.result))
  {
  }

  /** A wait that has returned got its result from some event of the run: there is no other way to it. */
  lemma {:induction false} ResultWasSeen(s: State, targets: seq<State>, es: seq<Event>, w: nat)
    requires w < |targets|
    ensures var l0 := Start(s, targets);
            && |Run(l0, es).waiters| == |targets|
            && var x := Run(l0, es).waiters[w]; (x.pc.Returned? ==> Seen(l0, es, w, x.target, x.pc.result))
    decreases |es|
  {
    var l0 := Start(s, targets);
    WaitersKept(l0, es);
    if es != [] {
      var init, e := es[..|es| - 1], es[|es| - 1];
      ResultWasSeen(s, targets, init, w);
      var before := Run(l0, init);
      assert es == init + [e] && [e][1..] == [];
      RunSplit(l0, init, [e]);
      ReturnsBySight(before, e, w);
      var x := Run(l0, es).waiters[w];
      if x.pc.Returned? {
        if x == before.waiters[w] {
          SeenBefore(l0, init, e, w, x.target, x.pc.result);
        } else {
          SeenNow(l0, init, e, w, x.pc.result);
        }
      }
    }
  }

  /** Nobody blocks at its target. */
  ghost predicate BlockedElsewhere(l: Leg) {
    forall w :: 0 <= w < |l.waiters| && l.waiters[w].pc.Blocked? ==> l.waiters[w].pc.seen != l.waiters[w].target
  }

  lemma {:induction false} BlockedElsewhereRun(l: Leg, es: seq<Event>)
    requires BlockedElsewhere(l)
    ensures BlockedElsewhere(Run(l, es))
    decreases es
  {
    if es != [] {
      BlockedElsewhereRun(Next(l, es[0]), es[1..]);
    }
  }

  predicate Finished(l: Leg) {
    forall i :: 0 <= i < |l.setters| ==> l.setters[i] == Done
  }

  function Work(x: Setter): nat {
    match x
    case Unregister => WAKES + 3
    case SpawnStop => WAKES + 2
    case Wake(n) => n + 1
    case Done => 0
  }

  /** Let the setters from the k-th on finish, one after the other. */
  lemma {:induction false} SettersFinish(l: Leg, k: nat) returns (es: seq<Event>)
    requires k <= |l.setters| && forall i :: 0 <= i < k ==> l.setters[i] == Done
    ensures forall i :: 0 <= i < |es| ==> es[i].SetterStep?
    ensures Finished(Run(l, es)) && Run(l, es).shared.state == l.shared.state && Run(l, es).waiters == l.waiters
    decreases |l.setters| - k, if k < |l.setters| then Work(l.setters[k]) else 0
  {
    if k == |l.setters| {
      return [];
    }
    if l.setters[k] == Done {
      es := SettersFinish(l, k + 1);
    } else {
      var rest := SettersFinish(Next(l, SetterStep(k)), k);
      es := [SetterStep(k)] + rest;
      assert es[1..] == rest;
    }
  }

  /**
   One goroutine waits and the leg is at its target: whatever has happened before, once the setters have finished, one
   more receive and one more look at the state end the wait with success.
   */
  lemma WaitSucceeds(s: State, target: State, es: seq<Event>) returns (more: seq<Event>)
    requires var l := Run(Start(s, [target]), es); |l.waiters| == 1 && !l.waiters[0].pc.Returned? && l.shared.state == l.waiters[0].target
    ensures forall i :: 0 <= i < |more| ==> more[i].SetterStep? || more[i] == Receive(0) || more[i] == Read(0)
    ensures var l' := Run(Run(Start(s, [target]), es), more); |l'.waiters| == 1 && l'.waiters[0].pc == Returned(Reached)
  {
    var l := Run(Start(s, [target]), es);
    var finish := SettersFinish(l, 0);
    var l1 := Run(l, finish);
    WakeInvariant(Start(s, [target]), es);
    WakeInvariant(l, finish);
    BlockedElsewhereRun(Start(s, [target]), es);
    LastLook(l1);
    RunSplit(l, finish, [Receive(0), Read(0)]);
    more := finish + [Receive(0), Read(0)];
  }

  lemma LastLook(l: Leg)
    requires WakeInv(l) && Finished(l) && !l.waiters[0].pc.Returned? && l.shared.state == l.waiters[0].target
    requires BlockedElsewhere(l)
    ensures var l' := Run(l, [Receive(0), Read(0)]); |l'.waiters| == 1 && l'.waiters[0].pc == Returned(Reached)
  {
    assert [Receive(0), Read(0)][1..] == [Read(0)] && [Read(0)][1..] == [];
    var l1 := Next(l, Receive(0));
    assert l1.waiters[0].pc == Reading;
    assert Run(l1, [Read(0)]) == Next(l1, Read(0));
  }
}
