/**
 The bounded queue of captured callbacks (Session in internal/webhook/registry.go) and the consumers that the
 tests are written with (tests/verbs/helpers_test.go).

 Handlers and other consumers run while a consumer waits.  Their actions are a parameter of each wait: a `Gap`
 says what happens before the select fires, and whether the context has expired by then.
 */
module CallbackQueue {
  import opened Basics

  datatype Callback = Callback(hook: string, body: nat)

  const CAPACITY: nat := 32

  datatype Seen = Seen(cb: Callback, accepted: bool)

  datatype Taken = Taken(who: nat, cb: Callback)

  /** pending is the channel, errs counts dropped callbacks; seen and taken are everything recorded and consumed so far. */
  datatype Queue = Queue(pending: seq<Callback>, errs: nat, seen: seq<Seen>, taken: seq<Taken>)

  datatype Event = Record(cb: Callback) | Take(who: nat)

  function Next(q: Queue, e: Event): Queue {
    match e
    case Record(cb) =>
      if |q.pending| < CAPACITY then q.(pending := q.pending + [cb], seen := q.seen + [Seen(cb, true)])
      else q.(errs := q.errs + 1, seen := q.seen + [Seen(cb, false)])
    case Take(who) =>
      if q.pending == [] then q
      else q.(pending := q.pending[1..], taken := q.taken + [Taken(who, q.pending[0])])
  }

  function Run(q: Queue, es: seq<Event>): Queue
    decreases es
  {
    if es == [] then q else Run(Next(q, es[0]), es[1..])
  }

  const EMPTY := Queue([], 0, [], [])

  /** The accepted callbacks in arrival order. */
  function Accepted(seen: seq<Seen>): seq<Callback> {
    if seen == [] then []
    else Accepted(seen[..|seen| - 1]) + (if seen[|seen| - 1].accepted then [seen[|seen| - 1].cb] else [])
  }

  /** The consumed callbacks in the order they were taken. */
  function Consumed(taken: seq<Taken>): seq<Callback> {
    if taken == [] then [] else Consumed(taken[..|taken| - 1]) + [taken[|taken| - 1].cb]
  }

  /** What one consumer got. */
  function Mine(me: nat, taken: seq<Taken>): seq<Callback> {
    if taken == [] then []
    else Mine(me, taken[..|taken| - 1]) + (if taken[|taken| - 1].who == me then [taken[|taken| - 1].cb] else [])
  }

  ghost predicate Conserved(q: Queue) {
    && Consumed(q.taken) + q.pending == Accepted(q.seen)
    && |Accepted(q.seen)| + q.errs == |q.seen|
    && |q.pending| <= CAPACITY
  }

  lemma ConservedStep(q: Queue, e: Event)
    requires Conserved(q)
    ensures Conserved(Next(q, e))
  {
    var q' := Next(q, e);
    match e
    case Record(cb) =>
      assert q'.seen[..|q'.seen| - 1] == q.seen;
      assert Consumed(q.taken) + (q.pending + [cb]) == Consumed(q.taken) + q.pending + [cb];
    case Take(who) =>
      if q.pending != [] {
        assert q'.taken[..|q'.taken| - 1] == q.taken;
        assert Consumed(q.taken) + [q.pending[0]] + q.pending[1..] == Consumed(q.taken) + q.pending;
      }
  }

  lemma {:induction false} ConservedRun(q: Queue, es: seq<Event>)
    requires Conserved(q)
    ensures Conserved(Run(q, es))
    decreases es
  {
    if es != [] {
      ConservedStep(q, es[0]);
      ConservedRun(Next(q, es[0]), es[1..]);
    }
  }

  /** For every run: consumed ++ pending is what was accepted, in arrival order; accepted plus errors is what was recorded. */
  lemma QueueConserves(es: seq<Event>)
    ensures var q := Run(EMPTY, es);
            && Consumed(q.taken) + q.pending == Accepted(q.seen)
            && |Accepted(q.seen)| + q.errs == |q.seen|
            && |q.pending| <= CAPACITY
  {
    ConservedRun(EMPTY, es);
  }

  // ---- waiting ----

  datatype Gap = Gap(events: seq<Event>, expired: bool)

  /** Nobody else consumes under this name. */
  ghost predicate Others(me: nat, gaps: seq<Gap>) {
    forall k :: 0 <= k < |gaps| ==> NotBy(me, gaps[k].events)
  }

  ghost predicate NotBy(me: nat, es: seq<Event>) {
    forall i :: 0 <= i < |es| ==> es[i] != Take(me)
  }

  /** Nobody else consumes at all. */
  ghost predicate OnlyRecords(gaps: seq<Gap>) {
    forall k :: 0 <= k < |gaps| ==> RecordsOnly(gaps[k].events)
  }

  ghost predicate RecordsOnly(es: seq<Event>) {
    forall i :: 0 <= i < |es| ==> es[i].Record?
  }

  lemma {:induction false} OthersTakeNothingOfMine(me: nat, q: Queue, es: seq<Event>)
    requires NotBy(me, es)
    ensures Mine(me, Run(q, es).taken) == Mine(me, q.taken)
    ensures RecordsOnly(es) ==> Run(q, es).taken == q.taken
    decreases es
  {
    if es != [] {
      var q' := Next(q, es[0]);
      if q'.taken != q.taken {
        assert q'.taken[..|q'.taken| - 1] == q.taken;
      }
      OthersTakeNothingOfMine(me, q', es[1..]);
    }
  }

  lemma MineTakes(me: nat, taken: seq<Taken>, cb: Callback)
    ensures Mine(me, taken + [Taken(me, cb)]) == Mine(me, taken) + [cb]
    ensures Consumed(taken + [Taken(me, cb)]) == Consumed(taken) + [cb]
  {
    assert (taken + [Taken(me, cb)])[..|taken|] == taken;
  }

  ghost predicate AllUnsatisfied(pred: seq<Callback> -> bool, out: seq<Callback>) {
    forall j :: 0 <= j <= |out| ==> !pred(out[..j])
  }

  lemma Unsatisfied(pred: seq<Callback> -> bool, out: seq<Callback>)
    requires AllUnsatisfied(pred, out)
    ensures !pred(out) && forall j :: 0 <= j < |out| ==> !pred(out[..j])
  {
    assert out[..|out|] == out;
  }

  lemma StillNot(pred: seq<Callback> -> bool, out: seq<Callback>, x: Callback)
    requires AllUnsatisfied(pred, out)
    ensures forall j :: 0 <= j <= |out| ==> !pred((out + [x])[..j])
  {
    forall j | 0 <= j <= |out| ensures !pred((out + [x])[..j]) {
      assert (out + [x])[..j] == out[..j];
    }
  }

  lemma NotEither(pred: seq<Callback> -> bool, out: seq<Callback>)
    requires !pred(out) && forall j :: 0 <= j < |out| ==> !pred(out[..j])
    ensures AllUnsatisfied(pred, out)
  {
    assert out[..|out|] == out;
  }

  lemma Snoc(a: seq<Callback>, b: seq<Callback>, x: Callback)
    ensures a + b + [x] == a + (b + [x])
  {
  }

  /** The queue when turn k of a consumer begins, if each turn before took one callback. */
  function Turned(q: Queue, me: nat, gaps: seq<Gap>, k: nat): Queue
    requires k <= |gaps|
  {
    if k == 0 then q else Next(Run(Turned(q, me, gaps, k - 1), gaps[k - 1].events), Take(me))
  }

  /** The turns are over, or in turn k the context has expired or there is nothing to wait for but that. */
  ghost predicate OverAt(q: Queue, me: nat, gaps: seq<Gap>, k: nat) {
    k == |gaps| || (k < |gaps| && (gaps[k].expired || Run(Turned(q, me, gaps, k), gaps[k].events).pending == []))
  }

  function Records(cbs: seq<Callback>): seq<Event> {
    if cbs == [] then [] else [Record(cbs[0])] + Records(cbs[1..])
  }

  function Least(a: nat, b: nat): nat {
    if a <= b then a else b
  }

  /** Callbacks that nobody takes meanwhile are all kept until 32 are pending, and only then dropped, with an error each. */
  lemma {:induction false} BurstIsKept(q: Queue, cbs: seq<Callback>)
    requires |q.pending| <= CAPACITY
    ensures var r, n := Run(q, Records(cbs)), Least(|cbs|, 32 - |q.pending|);
            r.pending == q.pending + cbs[..n] && r.errs == q.errs + |cbs| - n && r.taken == q.taken
    decreases cbs
  {
    var n := Least(|cbs|, 32 - |q.pending|);
    if cbs == [] {
      assert cbs[..n] == [];
    } else {
      assert Records(cbs)[1..] == Records(cbs[1..]);
      BurstIsKept(Next(q, Record(cbs[0])), cbs[1..]);
      if n > 0 {
        OneMore(q.pending, cbs, n);
      } else {
        assert cbs[..n] == [] && cbs[1..][..n] == [];
      }
    }
  }

  lemma OneMore(a: seq<Callback>, cbs: seq<Callback>, n: nat)
    requires 0 < n <= |cbs|
    ensures a + [cbs[0]] + cbs[1..][..n - 1] == a + cbs[..n]
  {
    assert cbs[..n] == [cbs[0]] + cbs[1..][..n - 1];
  }

  /** What the first k turns of a consumer took. */
  function Gets(q: Queue, me: nat, gaps: seq<Gap>, k: nat): seq<Callback>
    requires k <= |gaps|
  {
    if k == 0 then []
    else
      var p := Run(Turned(q, me, gaps, k - 1), gaps[k - 1].events).pending;
      Gets(q, me, gaps, k - 1) + (if p != [] then [p[0]] else [])
  }

  /** What a consumer has accounts for everything, and for everything consumed if it is alone. */
  ghost predicate Holds(me: nat, before: Queue, after: Queue, got: seq<Callback>, alone: bool) {
    && Conserved(after)
    && Mine(me, after.taken) == Mine(me, before.taken) + got
    && (alone ==> Consumed(after.taken) == Consumed(before.taken) + got)
  }

  lemma HoldsAcross(me: nat, before: Queue, after: Queue, got: seq<Callback>, gap: Gap, alone: bool)
    requires Holds(me, before, after, got, alone) && NotBy(me, gap.events) && (alone ==> RecordsOnly(gap.events))
    ensures Holds(me, before, Run(after, gap.events), got, alone)
  {
    ConservedRun(after, gap.events);
    OthersTakeNothingOfMine(me, after, gap.events);
  }

  lemma HoldsTake(me: nat, before: Queue, after: Queue, got: seq<Callback>, alone: bool)
    requires Holds(me, before, after, got, alone) && after.pending != []
    ensures Holds(me, before, Next(after, Take(me)), got + [after.pending[0]], alone)
  {
    var x := after.pending[0];
    ConservedStep(after, Take(me));
    MineTakes(me, after.taken, x);
    Snoc(Mine(me, before.taken), got, x);
    Snoc(Consumed(before.taken), got, x);
  }

  /** After any number of turns a consumer has what its turns took. */
  lemma {:induction false} TurnsHold(q: Queue, me: nat, gaps: seq<Gap>, k: nat)
    requires Conserved(q) && Others(me, gaps) && k <= |gaps|
    ensures Holds(me, q, Turned(q, me, gaps, k), Gets(q, me, gaps, k), OnlyRecords(gaps))
    ensures k < |gaps| ==> Holds(me, q, Run(Turned(q, me, gaps, k), gaps[k].events), Gets(q, me, gaps, k), OnlyRecords(gaps))
    decreases k
  {
    if k > 0 {
      TurnsHold(q, me, gaps, k - 1);
      var p := Run(Turned(q, me, gaps, k - 1), gaps[k - 1].events);
      if p.pending != [] {
        HoldsTake(me, q, p, Gets(q, me, gaps, k - 1), OnlyRecords(gaps));
      }
    }
    if k < |gaps| {
      HoldsAcross(me, q, Turned(q, me, gaps, k), Gets(q, me, gaps, k), gaps[k], OnlyRecords(gaps));
    }
  }

  /** Where a consumer leaves the queue: between two turns, or within one that took nothing. */
  function Left(q: Queue, me: nat, gaps: seq<Gap>, k: nat, within: bool): Queue
    requires k <= |gaps|
  {
    if within && k < |gaps| then Run(Turned(q, me, gaps, k), gaps[k].events) else Turned(q, me, gaps, k)
  }

  // ---- waiting for one hook, with a deadline ----

  /** What the code sees before a turn: the deadline has passed, and the context's own timer has fired. */
  datatype Head = Head(passed: bool, fired: bool)

  /** The third outcome is an empty callback without an error. */
  datatype Found = Match(cb: Callback) | Failed | Nothing

  /** The outcomes that WaitCallbackFor may have; one that is not over after its turns is taken to fail. */
  ghost predicate MayFind(q: Queue, me: nat, hook: string, heads: seq<Head>, gaps: seq<Gap>, r: Found)
    requires |heads| == |gaps|
    decreases |gaps|
  {
    if gaps == [] then r == Failed
    else if heads[0].passed then r == if heads[0].fired then Failed else Nothing
    else
      var q' := Run(q, gaps[0].events);
      || (r == Failed && (gaps[0].expired || q'.pending == []))
      || (q'.pending != [] &&
          if q'.pending[0].hook == hook then r == Match(q'.pending[0])
          else MayFind(Next(q', Take(me)), me, hook, heads[1..], gaps[1..], r))
  }

  lemma TurnSkips(q: Queue, me: nat, hook: string, heads: seq<Head>, gaps: seq<Gap>)
    requires |heads| == |gaps| > 0 && !heads[0].passed
    requires var q' := Run(q, gaps[0].events); q'.pending != [] && q'.pending[0].hook != hook
    ensures forall x :: MayFind(Next(Run(q, gaps[0].events), Take(me)), me, hook, heads[1..], gaps[1..], x) ==>
                          MayFind(q, me, hook, heads, gaps, x)
  {
  }

  /** Time does not run backwards: a deadline stays passed and a timer stays fired. */
  ghost predicate Forwards(heads: seq<Head>) {
    forall i, j :: 0 <= i < j < |heads| ==> (heads[i].passed ==> heads[j].passed) && (heads[i].fired ==> heads[j].fired)
  }

  /** Whenever the deadline is seen to have passed, the timer has fired. */
  ghost predicate TimerInTime(heads: seq<Head>) {
    forall i :: 0 <= i < |heads| && heads[i].passed ==> heads[i].fired
  }

  ghost predicate NeverNothing(hook: string, heads: seq<Head>) {
    forall q, me, gaps :: |gaps| == |heads| ==> !MayFind(q, me, hook, heads, gaps, Nothing)
  }

  lemma {:induction false} InTimeFinds(q: Queue, me: nat, hook: string, heads: seq<Head>, gaps: seq<Gap>)
    requires |gaps| == |heads| && TimerInTime(heads)
    ensures !MayFind(q, me, hook, heads, gaps, Nothing)
    decreases |gaps|
  {
    if gaps != [] {
      assert heads[0].passed ==> heads[0].fired;
      assert forall i :: 0 <= i < |heads[1..]| ==> heads[1..][i] == heads[i + 1];
      InTimeFinds(Next(Run(q, gaps[0].events), Take(me)), me, hook, heads[1..], gaps[1..]);
    }
  }

  /** One callback of another hook for every turn. */
  function OthersArrive(cb: Callback, n: nat): (gaps: seq<Gap>)
    ensures |gaps| == n
  {
    if n == 0 then [] else [Gap([Record(cb)], false)] + OthersArrive(cb, n - 1)
  }

  lemma {:induction false} LateTimerFindsNothing(q: Queue, me: nat, hook: string, heads: seq<Head>, cb: Callback, k: nat)
    requires k < |heads| && heads[k].passed && !heads[k].fired && Forwards(heads) && cb.hook != hook && q.pending == []
    ensures MayFind(q, me, hook, heads, OthersArrive(cb, |heads|), Nothing)
    decreases |heads|
  {
    var gaps := OthersArrive(cb, |heads|);
    assert gaps[1..] == OthersArrive(cb, |heads| - 1);
    assert k > 0 ==> !heads[0].fired;
    if !heads[0].passed {
      assert [Record(cb)][1..] == [];
      assert Run(q, [Record(cb)]) == Next(q, Record(cb));
      assert forall i :: 0 <= i < |heads[1..]| ==> heads[1..][i] == heads[i + 1];
      LateTimerFindsNothing(Next(Next(q, Record(cb)), Take(me)), me, hook, heads[1..], cb, k - 1);
    }
  }

  /**
   A wait never returns an empty callback as if it were one, whatever arrives and whoever else consumes, exactly when
   the context's timer has fired whenever the deadline is seen to have passed.
   */
  lemma NothingFoundIff(hook: string, heads: seq<Head>)
    requires Forwards(heads)
    ensures NeverNothing(hook, heads) <==> TimerInTime(heads)
  {
    if TimerInTime(heads) {
      forall q, me, gaps | |gaps| == |heads| ensures !MayFind(q, me, hook, heads, gaps, Nothing) {
        InTimeFinds(q, me, hook, heads, gaps);
      }
    } else {
      var k :| 0 <= k < |heads| && heads[k].passed && !heads[k].fired;
      LateTimerFindsNothing(EMPTY, 0, hook, heads, Callback(hook + "!", 0), k);
    }
  }

  class Session {
    var pending: seq<Callback>
    var errs: nat
    ghost var seen: seq<Seen>
    ghost var taken: seq<Taken>

    ghost function View(): Queue
      reads this
    {
      Queue(pending, errs, seen, taken)
    }

    constructor ()
      ensures View() == EMPTY
    {
      pending, errs, seen, taken := [], 0, [], [];
    }

    /** Never blocks the handler: a full queue drops the callback and counts an error. */
    method Record(cb: Callback)
      modifies this
      ensures View() == Next(old(View()), Event.Record(cb))
    {
      if |pending| < CAPACITY {
        pending := pending + [cb];
        seen := seen + [Seen(cb, true)];
      } else {
        errs := errs + 1;
        seen := seen + [Seen(cb, false)];
      }
    }

    /** What the other goroutines do while this one waits. */
    method Meanwhile(es: seq<Event>)
      modifies this
      ensures View() == Run(old(View()), es)
    {
      var i := 0;
      while i < |es|
        invariant 0 <= i <= |es|
        invariant Run(View(), es[i..]) == Run(old(View()), es)
      {
        ghost var before := View();
        assert es[i..][0] == es[i] && es[i..][1..] == es[i + 1..];
        match es[i] {
          case Record(cb) =>
            Record(cb);
          case Take(who) =>
            if pending != [] {
              taken := taken + [Taken(who, pending[0])];
              pending := pending[1..];
            }
        }
        assert View() == Next(before, es[i]);
        i := i + 1;
      }
      assert es[|es|..] == [];
    }

    /** The select: an expired context may win over a callback that is there, and must when there is none. */
    method WaitCallback(ghost me: nat, gap: Gap) returns (r: Option<Callback>)
      modifies this
      ensures var q := Run(old(View()), gap.events);
              if r.Some? then q.pending != [] && r.value == q.pending[0] && View() == Next(q, Take(me))
              else View() == q && (gap.expired || q.pending == [])
    {
      Meanwhile(gap.events);
      if {
        case pending != [] =>
          r := Some(pending[0]);
          taken := taken + [Taken(me, pending[0])];
          pending := pending[1..];
        case gap.expired || pending == [] =>
          r := None;
      }
    }

    /** Skips, and keeps, everything before the first callback of the hook: the two together are what it consumed. */
    method WaitCallbackForCollecting(ghost me: nat, hook: string, gaps: seq<Gap>)
      returns (match_: Option<Callback>, skipped: seq<Callback>)
      requires Conserved(View()) && Others(me, gaps)
      modifies this
      ensures Holds(me, old(View()), View(), skipped + (if match_.Some? then [match_.value] else []), OnlyRecords(gaps))
      ensures match_.Some? ==> match_.value.hook == hook
      ensures forall i :: 0 <= i < |skipped| ==> skipped[i].hook != hook
      ensures match_.None? ==> OverAt(old(View()), me, gaps, |skipped|)
    {
      ghost var within;
      match_, skipped, within := Collect(me, hook, gaps);
      TurnsHold(old(View()), me, gaps, if match_.Some? then |skipped| + 1 else |skipped|);
      assert skipped + [] == skipped;
    }

    /** The loop of WaitCallbackForCollecting. */
    method Collect(ghost me: nat, hook: string, gaps: seq<Gap>)
      returns (match_: Option<Callback>, skipped: seq<Callback>, ghost within: bool)
      modifies this
      ensures forall i :: 0 <= i < |skipped| ==> skipped[i].hook != hook
      ensures match_.Some? ==> match_.value.hook == hook && |skipped| < |gaps| && View() == Turned(old(View()), me, gaps, |skipped| + 1)
                               && skipped + [match_.value] == Gets(old(View()), me, gaps, |skipped| + 1)
      ensures match_.None? ==> |skipped| <= |gaps| && skipped == Gets(old(View()), me, gaps, |skipped|)
                               && View() == Left(old(View()), me, gaps, |skipped|, within) && OverAt(old(View()), me, gaps, |skipped|)
    {
      skipped, within := [], false;
      for k := 0 to |gaps|
        invariant forall i :: 0 <= i < |skipped| ==> skipped[i].hook != hook
        invariant |skipped| == k && View() == Turned(old(View()), me, gaps, k) && skipped == Gets(old(View()), me, gaps, k) && !within
      {
        var r := WaitCallback(me, gaps[k]);
        if r.None? {
          return None, skipped, true;
        }
        if r.value.hook == hook {
          return r, skipped, false;
        }
        skipped := skipped + [r.value];
      }
      return None, skipped, false;
    }

    /** The same wait with the skipped callbacks thrown away, and with a look at the clock before each turn. */
    method WaitCallbackFor(ghost me: nat, hook: string, heads: seq<Head>, gaps: seq<Gap>) returns (r: Found, ghost lost: seq<Callback>)
      requires Conserved(View()) && Others(me, gaps) && |heads| == |gaps|
      modifies this
      ensures MayFind(old(View()), me, hook, heads, gaps, r)
      ensures r.Match? ==> r.cb.hook == hook
      ensures forall i :: 0 <= i < |lost| ==> lost[i].hook != hook
      ensures Holds(me, old(View()), View(), lost + (if r.Match? then [r.cb] else []), OnlyRecords(gaps))
    {
      ghost var within;
      r, lost, within := Find(me, hook, heads, gaps);
      TurnsHold(old(View()), me, gaps, if r.Match? then |lost| + 1 else |lost|);
      assert lost + [] == lost;
    }

    /** The loop of WaitCallbackFor. */
    method Find(ghost me: nat, hook: string, heads: seq<Head>, gaps: seq<Gap>)
      returns (r: Found, ghost lost: seq<Callback>, ghost within: bool)
      requires |heads| == |gaps|
      modifies this
      ensures MayFind(old(View()), me, hook, heads, gaps, r)
      ensures r.Match? ==> r.cb.hook == hook && |lost| < |gaps| && lost + [r.cb] == Gets(old(View()), me, gaps, |lost| + 1)
                           && View() == Turned(old(View()), me, gaps, |lost| + 1)
      ensures forall i :: 0 <= i < |lost| ==> lost[i].hook != hook
      ensures !r.Match? ==> |lost| <= |gaps| && lost == Gets(old(View()), me, gaps, |lost|)
                            && View() == Left(old(View()), me, gaps, |lost|, within)
    {
      lost, within := [], false;
      for k := 0 to |gaps|
        invariant forall x :: MayFind(View(), me, hook, heads[k..], gaps[k..], x) ==> MayFind(old(View()), me, hook, heads, gaps, x)
        invariant forall i :: 0 <= i < |lost| ==> lost[i].hook != hook
        invariant |lost| == k && View() == Turned(old(View()), me, gaps, k) && lost == Gets(old(View()), me, gaps, k) && !within
      {
        if heads[k].passed {
          return if heads[k].fired then Failed else Nothing, lost, false;
        }
        ghost var before := View();
        var got := WaitCallback(me, gaps[k]);
        if got.None? {
          return Failed, lost, true;
        }
        if got.value.hook == hook {
          return Match(got.value), lost, false;
        }
        TurnSkips(before, me, hook, heads[k..], gaps[k..]);
        assert heads[k..][1..] == heads[k + 1..] && gaps[k..][1..] == gaps[k + 1..];
        lost := lost + [got.value];
      }
      assert gaps[|gaps|..] == [];
      return Failed, lost, false;
    }

    /** Stops at the shortest satisfying prefix of what it consumed, or when the context expires. */
    method WaitCallbacksUntil(ghost me: nat, pred: seq<Callback> -> bool, gaps: seq<Gap>) returns (out: seq<Callback>, expired: bool)
      requires Conserved(View()) && Others(me, gaps)
      modifies this
      ensures Holds(me, old(View()), View(), out, OnlyRecords(gaps))
      ensures expired <==> !pred(out)
      ensures forall k :: 0 <= k < |out| ==> !pred(out[..k])
      ensures expired ==> OverAt(old(View()), me, gaps, |out|)
    {
      ghost var within;
      out, expired, within := Accumulate(me, pred, gaps);
      TurnsHold(old(View()), me, gaps, |out|);
    }

    /** The loop of WaitCallbacksUntil. */
    method Accumulate(ghost me: nat, pred: seq<Callback> -> bool, gaps: seq<Gap>)
      returns (out: seq<Callback>, expired: bool, ghost within: bool)
      modifies this
      ensures expired <==> !pred(out)
      ensures forall k :: 0 <= k < |out| ==> !pred(out[..k])
      ensures |out| <= |gaps| && out == Gets(old(View()), me, gaps, |out|) && View() == Left(old(View()), me, gaps, |out|, within)
      ensures expired ==> OverAt(old(View()), me, gaps, |out|)
    {
      out, within := [], false;
      if pred(out) {
        return out, false, false;
      }
      NotEither(pred, out);
      for k := 0 to |gaps|
        invariant AllUnsatisfied(pred, out)
        invariant |out| == k && View() == Turned(old(View()), me, gaps, k) && out == Gets(old(View()), me, gaps, k) && !within
      {
        Unsatisfied(pred, out);
        var r := WaitCallback(me, gaps[k]);
        if r.None? {
          return out, true, true;
        }
        StillNot(pred, out, r.value);
        out := out + [r.value];
        if pred(out) {
          return out, false, false;
        }
        NotEither(pred, out);
      }
      Unsatisfied(pred, out);
      return out, true, false;
    }

    /** Everything until the budget is spent. */
    method DrainCallbacks(ghost me: nat, gaps: seq<Gap>) returns (out: seq<Callback>)
      requires Conserved(View()) && Others(me, gaps)
      modifies this
      ensures Holds(me, old(View()), View(), out, OnlyRecords(gaps))
      ensures OverAt(old(View()), me, gaps, |out|)
    {
      out := [];
      for k := 0 to |gaps|
        invariant |out| == k && View() == Turned(old(View()), me, gaps, k) && out == Gets(old(View()), me, gaps, k)
      {
        var r := WaitCallback(me, gaps[k]);
        if r.None? {
          TurnsHold(old(View()), me, gaps, k);
          return;
        }
        out := out + [r.value];
      }
      TurnsHold(old(View()), me, gaps, |gaps|);
    }
  }

  /** With no other consumer, what a wait consumed is the stretch of the accepted callbacks after what was consumed before. */
  lemma ConsumedIsAPrefix(before: Queue, after: Queue, got: seq<Callback>)
    requires Conserved(after) && Consumed(after.taken) == Consumed(before.taken) + got
    ensures |Consumed(before.taken)| + |got| <= |Accepted(after.seen)|
    ensures got == Accepted(after.seen)[|Consumed(before.taken)|..|Consumed(before.taken)| + |got|]
  {
  }
}
