/**
 The swappable TCP relay between a UAC and its upstream (tests/drachtio/relay_test.go): one session with its two
 directions of pumping, any number of goroutines in reconnect, and any number in teardown. Connections are numbered
 in the order in which they were dialled. A read that returns bytes together with an error acts as two reads.
 */
module Relay {
  import opened Basics

  type Conn = nat
  type Chunk = nat

  datatype DownPump = Reading | Holding(chunk: Chunk) | Aimed(chunk: Chunk, at: Conn) | Ending | Stopped(lost: seq<Chunk>)

  datatype UpPump = Listening | Got(chunk: Chunk) | Cleared(chunk: Chunk) | Done(lost: seq<Chunk>)

  datatype Reconnector = Idle | Old(prev: Conn) | Dialled(prev: Conn, repl: Conn) | Swapped(repl: Conn)

  datatype Passed = Passed(conn: Conn, chunk: Chunk)

  datatype State = State(
    up: Option<Conn>,
    abandoned: seq<Conn>,
    installed: seq<Conn>,          // every connection that has been current, in order
    dials: nat,
    pump: DownPump,
    input: seq<Chunk>,             // read from the UAC
    sent: seq<Passed>,             // written to upstreams
    pumps: map<Conn, UpPump>,
    heard: seq<Passed>,            // read from upstreams by their pumps
    delivered: seq<Passed>,        // written to the UAC
    recs: seq<Reconnector>,
    closers: seq<seq<Conn>>,       // what each teardown has yet to close
    closed: set<Conn>,
    downClosed: bool)

  datatype Event =
    | DownRead(chunk: Chunk) | DownEnd | DownAim | DownWrite(ok: bool) | DownTeardown
    | UpRead(conn: Conn, chunk: Chunk) | UpEnd(conn: Conn) | UpCheck(conn: Conn) | UpWrite(conn: Conn, ok: bool)
    | ReadOld(i: nat) | Dial(i: nat, ok: bool) | Swap(i: nat) | StartPump(i: nat)
    | Close | CloseOne(i: nat)

  function Start(n: nat): State {
    State(Some(0), [], [0], 1, Reading, [], [], map[0 := Listening], [], [], seq(n, _ => Idle), [], {}, false)
  }

  // ---- the steps ----

  function TakeDown(s: State): State {
    s.(up := None, abandoned := [], closers := s.closers + [(if s.up.Some? then [s.up.value] else []) + s.abandoned])
  }

  function NextDown(s: State, e: Event): State {
    match e
    case DownRead(chunk) => if s.pump.Reading? then s.(pump := Holding(chunk), input := s.input + [chunk]) else s
    case DownEnd => if s.pump.Reading? then s.(pump := Ending) else s
    case DownAim =>
      if !s.pump.Holding? then s
      else if s.up.None? then s.(pump := Stopped([s.pump.chunk]))
      else s.(pump := Aimed(s.pump.chunk, s.up.value))
    case DownWrite(ok) =>
      if !s.pump.Aimed? then s
      else if ok && s.pump.at !in s.closed
      then s.(pump := Reading, sent := s.sent + [Passed(s.pump.at, s.pump.chunk)])
      else s.(pump := Stopped([s.pump.chunk]))
    case DownTeardown => if s.pump.Ending? then TakeDown(s).(pump := Stopped([])) else s
    case _ => s
  }

  function NextUp(s: State, e: Event): State {
    match e
    case UpRead(c, chunk) =>
      if c in s.pumps && s.pumps[c].Listening?
      then s.(pumps := s.pumps[c := Got(chunk)], heard := s.heard + [Passed(c, chunk)])
      else s
    case UpEnd(c) => if c in s.pumps && s.pumps[c].Listening? then s.(pumps := s.pumps[c := Done([])]) else s
    case UpCheck(c) =>
      if c in s.pumps && s.pumps[c].Got?
      then s.(pumps := s.pumps[c := if s.up == Some(c) then Cleared(s.pumps[c].chunk) else Done([s.pumps[c].chunk])])
      else s
    case UpWrite(c, ok) =>
      if !(c in s.pumps && s.pumps[c].Cleared?) then s
      else if ok && !s.downClosed
      then s.(pumps := s.pumps[c := Listening], delivered := s.delivered + [Passed(c, s.pumps[c].chunk)])
      else s.(pumps := s.pumps[c := Done([s.pumps[c].chunk])])
    case _ => s
  }

  function NextSwap(s: State, e: Event): State {
    match e
    case ReadOld(i) =>
      if i < |s.recs| && s.recs[i].Idle? && s.up.Some? then s.(recs := s.recs[i := Old(s.up.value)]) else s
    case Dial(i, ok) =>
      if !(i < |s.recs| && s.recs[i].Old?) then s
      else if ok then s.(recs := s.recs[i := Dialled(s.recs[i].prev, s.dials)], dials := s.dials + 1)
      else s.(recs := s.recs[i := Idle])
    case Swap(i) =>
      if !(i < |s.recs| && s.recs[i].Dialled?) then s
      else s.(up := Some(s.recs[i].repl), abandoned := s.abandoned + [s.recs[i].prev],
              installed := s.installed + [s.recs[i].repl], recs := s.recs[i := Swapped(s.recs[i].repl)])
    case StartPump(i) =>
      if !(i < |s.recs| && s.recs[i].Swapped?) then s
      else s.(pumps := s.pumps[s.recs[i].repl := Listening], recs := s.recs[i := Idle])
    case _ => s
  }

  function NextClose(s: State, e: Event): State {
    match e
    case Close => TakeDown(s)
    case CloseOne(i) =>
      if i >= |s.closers| then s
      else if s.closers[i] == [] then s.(downClosed := true)
      else s.(closed := s.closed + {s.closers[i][0]}, closers := s.closers[i := s.closers[i][1..]])
    case _ => s
  }

  function Next(s: State, e: Event): State {
    match e
    case DownRead(_) => NextDown(s, e)
    case DownEnd => NextDown(s, e)
    case DownAim => NextDown(s, e)
    case DownWrite(_) => NextDown(s, e)
    case DownTeardown => NextDown(s, e)
    case UpRead(_, _) => NextUp(s, e)
    case UpEnd(_) => NextUp(s, e)
    case UpCheck(_) => NextUp(s, e)
    case UpWrite(_, _) => NextUp(s, e)
    case Close => NextClose(s, e)
    case CloseOne(_) => NextClose(s, e)
    case _ => NextSwap(s, e)
  }

  function Run(s: State, es: seq<Event>): State
    decreases es
  {
    if es == [] then s else Run(Next(s, es[0]), es[1..])
  }

  // ---- invariant ----

  /** Connections are installed once each, the newest being the current one if any is. */
  ghost predicate ConnsOk(s: State) {
    && (forall k :: 0 <= k < |s.installed| ==> s.installed[k] < s.dials)
    && (forall i :: 0 <= i < |s.recs| && s.recs[i].Dialled? ==> s.recs[i].repl < s.dials && s.recs[i].repl !in s.installed)
    && (forall i, j :: 0 <= i < j < |s.recs| && s.recs[i].Dialled? && s.recs[j].Dialled? ==> s.recs[i].repl != s.recs[j].repl)
    && (s.up.Some? ==> s.up.value in s.installed)
  }

  ghost predicate Superseded(s: State, c: Conn) {
    c in s.installed && s.up != Some(c)
  }

  /** What has been sent comes in unbroken stretches, and only the last stretch can still grow. */
  ghost predicate SentOk(s: State) {
    && (forall i :: 0 <= i < |s.sent| ==> s.sent[i].conn in s.installed)
    && (s.pump.Aimed? ==> s.pump.at in s.installed)
    && (forall i, j :: 0 <= i < j < |s.sent| && s.sent[i].conn != s.sent[j].conn ==> Superseded(s, s.sent[i].conn))
    && (s.pump.Aimed? ==> forall i :: 0 <= i < |s.sent| && s.sent[i].conn != s.pump.at ==> Superseded(s, s.sent[i].conn))
    && (s.pump.Aimed? ==> Tail(s.sent, s.pump.at))
    && Stretches(s.sent)
  }

  /** The entries for a connection, if any, are the last ones. */
  ghost predicate Tail(log: seq<Passed>, c: Conn) {
    forall i, j :: 0 <= i < j < |log| && log[i].conn == c ==> log[j].conn == c
  }

  ghost predicate Stretches(log: seq<Passed>) {
    forall i, j, k :: 0 <= i < j < k < |log| && log[i].conn == log[k].conn ==> log[j].conn == log[i].conn
  }

  function Chunks(log: seq<Passed>): seq<Chunk> {
    if log == [] then [] else Chunks(log[..|log| - 1]) + [log[|log| - 1].chunk]
  }

  function InHand(p: DownPump): seq<Chunk> {
    match p
    case Holding(chunk) => [chunk]
    case Aimed(chunk, _) => [chunk]
    case Stopped(lost) => lost
    case _ => []
  }

  /** Every chunk read from the UAC has been sent, in order, but for at most one. */
  ghost predicate Conserved(s: State) {
    s.input == Chunks(s.sent) + InHand(s.pump)
  }

  ghost predicate Inv(s: State) {
    ConnsOk(s) && SentOk(s) && Conserved(s)
  }

  lemma ConnsStep(s: State, e: Event)
    requires ConnsOk(s)
    ensures ConnsOk(Next(s, e))
    ensures forall c :: Superseded(s, c) ==> Superseded(Next(s, e), c)
  {
    if e.Swap? {
      ConnsSwap(s, e.i);
    } else if e.ReadOld? {
      ConnsRecs(s, NextSwap(s, e), e.i);
    } else if e.Dial? {
      ConnsRecs(s, NextSwap(s, e), e.i);
    } else if e.StartPump? {
      ConnsRecs(s, NextSwap(s, e), e.i);
    } else {
      OthersKeepConns(s, e);
      ConnsKept(s, Next(s, e));
    }
  }

  lemma OthersKeepConns(s: State, e: Event)
    requires !e.Swap? && !e.ReadOld? && !e.Dial? && !e.StartPump?
    ensures var s' := Next(s, e);
            s'.installed == s.installed && s'.recs == s.recs && s'.dials == s.dials && (s'.up == s.up || s'.up == None)
  {
  }

  lemma ConnsSwap(s: State, i: nat)
    requires ConnsOk(s)
    ensures ConnsOk(NextSwap(s, Swap(i)))
    ensures forall c :: Superseded(s, c) ==> Superseded(NextSwap(s, Swap(i)), c)
  {
  }

  lemma ConnsRecs(s: State, s': State, i: nat)
    requires ConnsOk(s) && s'.installed == s.installed && s'.up == s.up && s.dials <= s'.dials <= s.dials + 1
    requires |s'.recs| == |s.recs| && forall j :: 0 <= j < |s.recs| ==>
               s'.recs[j] == s.recs[j] || (j == i && (s'.recs[i].Dialled? ==> s'.recs[i].repl == s.dials < s'.dials))
    ensures ConnsOk(s')
  {
  }

  lemma ConnsKept(s: State, s': State)
    requires ConnsOk(s) && s'.installed == s.installed && s'.recs == s.recs && s'.dials == s.dials
    requires s'.up == s.up || s'.up == None
    ensures ConnsOk(s') && forall c :: Superseded(s, c) ==> Superseded(s', c)
  {
  }

  lemma SentStep(s: State, e: Event)
    requires ConnsOk(s) && SentOk(s)
    ensures SentOk(Next(s, e))
  {
    ConnsStep(s, e);
    if e.DownAim? && s.pump.Holding? && s.up.Some? {
      SentAim(s);
    } else if e.DownWrite? && s.pump.Aimed? {
      SentWrite(s, e.ok);
    } else {
      SentKept(s, Next(s, e));
    }
  }

  lemma SentKept(s: State, s': State)
    requires SentOk(s) && s'.sent == s.sent && (s'.pump.Aimed? ==> s'.pump == s.pump)
    requires (forall c :: c in s.installed ==> c in s'.installed) && (forall c :: Superseded(s, c) ==> Superseded(s', c))
    ensures SentOk(s')
  {
  }

  lemma SentAim(s: State)
    requires ConnsOk(s) && SentOk(s) && s.pump.Holding? && s.up.Some?
    ensures SentOk(Next(s, DownAim))
  {
    assert !Superseded(s, s.up.value);
  }

  lemma SentWrite(s: State, ok: bool)
    requires SentOk(s) && s.pump.Aimed?
    ensures SentOk(Next(s, DownWrite(ok)))
  {
    var s', c := Next(s, DownWrite(ok)), s.pump.at;
    assert forall d :: Superseded(s, d) ==> Superseded(s', d);
    if s'.sent != s.sent {
      StretchesSnoc(s.sent, Passed(c, s.pump.chunk));
    } else {
      SentKept(s, s');
    }
  }

  lemma StretchesSnoc(log: seq<Passed>, last: Passed)
    requires Stretches(log) && Tail(log, last.conn)
    ensures Stretches(log + [last])
  {
    var more := log + [last];
    forall i, j, k | 0 <= i < j < k < |more| && more[i].conn == more[k].conn ensures more[j].conn == more[i].conn {
      assert more[i] == log[i] && more[j] == log[j];
    }
  }

  predicate IsDown(e: Event) {
    e.DownRead? || e.DownEnd? || e.DownAim? || e.DownWrite? || e.DownTeardown?
  }

  lemma OthersKeepDown(s: State, e: Event)
    requires !IsDown(e)
    ensures Next(s, e).sent == s.sent && Next(s, e).input == s.input && Next(s, e).pump == s.pump
  {
  }

  lemma ConservedStep(s: State, e: Event)
    requires Conserved(s)
    ensures Conserved(Next(s, e))
  {
    if IsDown(e) {
      ConservedDown(s, e);
    } else {
      OthersKeepDown(s, e);
      ConservedKept(s, Next(s, e));
    }
  }

  lemma ConservedDown(s: State, e: Event)
    requires Conserved(s) && IsDown(e)
    ensures Conserved(NextDown(s, e))
  {
    var s' := NextDown(s, e);
    if e.DownWrite? {
      if s.pump.Aimed? {
        ConservedWrite(s, e.ok);
      }
    } else if e.DownRead? {
      assert s.pump.Reading? ==> s'.input == Chunks(s'.sent) + [e.chunk];
    } else {
      ConservedKept(s, s');
    }
  }

  lemma ConservedKept(s: State, s': State)
    requires Conserved(s) && s'.sent == s.sent && s'.input == s.input && InHand(s'.pump) == InHand(s.pump)
    ensures Conserved(s')
  {
  }

  lemma ConservedWrite(s: State, ok: bool)
    requires Conserved(s) && s.pump.Aimed?
    ensures Conserved(Next(s, DownWrite(ok)))
  {
    var s' := Next(s, DownWrite(ok));
    if s'.pump.Reading? {
      assert s'.sent[..|s.sent|] == s.sent;
      assert Chunks(s'.sent) == Chunks(s.sent) + InHand(s.pump);
    }
  }

  lemma {:induction false} Invariant(s: State, es: seq<Event>)
    requires Inv(s)
    ensures Inv(Run(s, es))
    ensures forall c :: Superseded(s, c) ==> Superseded(Run(s, es), c)
    decreases es
  {
    if es != [] {
      ConnsStep(s, es[0]);
      SentStep(s, es[0]);
      ConservedStep(s, es[0]);
      Invariant(Next(s, es[0]), es[1..]);
    }
  }

  lemma StartInv(n: nat)
    ensures Inv(Start(n))
  {
  }

  /** A connection that is not current any more never becomes current again, whatever the goroutines do. */
  lemma NeverCurrentAgain(n: nat, es: seq<Event>, more: seq<Event>, c: Conn)
    requires Superseded(Run(Start(n), es), c)
    ensures Run(Run(Start(n), es), more).up != Some(c)
  {
    StartInv(n);
    Invariant(Start(n), es);
    Invariant(Run(Start(n), es), more);
    assert Superseded(Run(Run(Start(n), es), more), c);
  }

  // ---- from the UAC to the upstreams ----

  /** The chunks that one upstream received. */
  function Received(log: seq<Passed>, c: Conn): seq<Chunk> {
    if log == [] then []
    else Received(log[..|log| - 1], c) + (if log[|log| - 1].conn == c then [log[|log| - 1].chunk] else [])
  }

  lemma {:induction false} ChunksLength(log: seq<Passed>)
    ensures |Chunks(log)| == |log|
  {
    if log != [] {
      ChunksLength(log[..|log| - 1]);
    }
  }

  /** Where the entries for a connection lie. */
  lemma {:induction false} StretchBounds(log: seq<Passed>, c: Conn) returns (a: nat, b: nat)
    requires Stretches(log)
    ensures a <= b <= |log| && forall i :: 0 <= i < |log| ==> (log[i].conn == c <==> a <= i < b)
  {
    if log == [] {
      return 0, 0;
    }
    var last := |log| - 1;
    assert forall i :: 0 <= i < last ==> log[..last][i] == log[i];
    a, b := StretchBounds(log[..last], c);
    if log[last].conn == c {
      if a == b {
        a := last;
      } else {
        assert b < last ==> log[b].conn != c;
        EndOfStretch(log, b - 1);
      }
      b := |log|;
    }
  }

  /** The entries for c lie from a to b, and nowhere else. */
  ghost predicate LiesIn(log: seq<Passed>, c: Conn, a: nat, b: nat) {
    a <= b <= |log| && forall i :: 0 <= i < |log| ==> (log[i].conn == c <==> a <= i < b)
  }

  lemma LiesInInit(log: seq<Passed>, c: Conn, a: nat, b: nat)
    requires LiesIn(log, c, a, b) && log != []
    ensures var last := |log| - 1;
            if b < |log| then LiesIn(log[..last], c, a, b) && log[last].conn != c
            else if a < b then LiesIn(log[..last], c, a, last) && log[last].conn == c
            else LiesIn(log[..last], c, last, last) && log[last].conn != c
  {
    var last := |log| - 1;
    assert forall i :: 0 <= i < last ==> log[..last][i] == log[i];
  }

  lemma {:induction false} ReceivedIsSlice(log: seq<Passed>, c: Conn, a: nat, b: nat)
    requires LiesIn(log, c, a, b)
    ensures |Chunks(log)| == |log| && Received(log, c) == Chunks(log)[a..b]
  {
    ChunksLength(log);
    if log != [] {
      var last := |log| - 1;
      var init := log[..last];
      ChunksLength(init);
      LiesInInit(log, c, a, b);
      if b < |log| {
        ReceivedIsSlice(init, c, a, b);
        SliceWithin(Chunks(init), log[last].chunk, a, b);
      } else if a < b {
        ReceivedIsSlice(init, c, a, last);
        SliceSnoc(Chunks(init), log[last].chunk, a, last);
      } else {
        ReceivedIsSlice(init, c, last, last);
      }
    }
  }

  lemma SliceSnoc(cs: seq<Chunk>, x: Chunk, a: nat, b: nat)
    requires a <= b == |cs|
    ensures (cs + [x])[a..b + 1] == cs[a..b] + [x]
  {
  }

  lemma SliceWithin(cs: seq<Chunk>, x: Chunk, a: nat, b: nat)
    requires a <= b <= |cs|
    ensures (cs + [x])[a..b] == cs[a..b]
  {
  }

  lemma EndOfStretch(log: seq<Passed>, i: nat)
    requires Stretches(log) && i < |log| && log[i].conn == log[|log| - 1].conn
    ensures forall j :: i <= j < |log| ==> log[j].conn == log[i].conn
  {
  }

  /**
   Each upstream receives one unbroken stretch of what the UAC sent, every chunk goes to exactly one of them, in
   order, and at most the last chunk read is missing: for any number of reconnects and teardowns at once.
   */
  lemma EachChunkOnce(n: nat, es: seq<Event>, c: Conn)
    ensures var s := Run(Start(n), es);
            && s.input == Chunks(s.sent) + InHand(s.pump) && |InHand(s.pump)| <= 1
            && |Chunks(s.sent)| == |s.sent|
            && exists a: nat, b: nat :: a <= b <= |s.sent| && Received(s.sent, c) == s.input[a..b]
  {
    var s := Run(Start(n), es);
    StartInv(n);
    Invariant(Start(n), es);
    LostAtMostOne(Start(n), es);
    var a, b := StretchBounds(s.sent, c);
    ReceivedIsSlice(s.sent, c, a, b);
    assert s.input[a..b] == Chunks(s.sent)[a..b];
  }

  lemma {:induction false} LostAtMostOne(s: State, es: seq<Event>)
    requires |InHand(s.pump)| <= 1
    ensures |InHand(Run(s, es).pump)| <= 1
    decreases es
  {
    if es != [] {
      LostAtMostOne(Next(s, es[0]), es[1..]);
    }
  }

  /** The chunk went to the upstream that was current when its connection was chosen. */
  ghost predicate AimedRight(s0: State, es: seq<Event>, p: Passed) {
    exists i :: 0 <= i < |es| && es[i] == DownAim && Run(s0, es[..i]).up == Some(p.conn) && Run(s0, es[..i]).pump == Holding(p.chunk)
  }

  lemma AimedEarlier(s0: State, es: seq<Event>, p: Passed)
    requires es != [] && AimedRight(s0, es[..|es| - 1], p)
    ensures AimedRight(s0, es, p)
  {
    var init := es[..|es| - 1];
    var i :| 0 <= i < |init| && init[i] == DownAim && Run(s0, init[..i]).up == Some(p.conn) && Run(s0, init[..i]).pump == Holding(p.chunk);
    assert init[..i] == es[..i] && es[i] == DownAim;
  }

  /** Every chunk that was sent, or is about to be, goes where it was aimed, and it was aimed at the upstream then current. */
  lemma {:induction false} SentWhereCurrent(n: nat, es: seq<Event>)
    ensures var s := Run(Start(n), es);
            && (forall k :: 0 <= k < |s.sent| ==> AimedRight(Start(n), es, s.sent[k]))
            && (s.pump.Aimed? ==> AimedRight(Start(n), es, Passed(s.pump.at, s.pump.chunk)))
    decreases |es|
  {
    if es != [] {
      var init, e := es[..|es| - 1], es[|es| - 1];
      SentWhereCurrent(n, init);
      var before := Run(Start(n), init);
      assert es == init + [e];
      RunSnoc(Start(n), init, e);
      var s := Run(Start(n), es);
      forall k | 0 <= k < |s.sent| ensures AimedRight(Start(n), es, s.sent[k]) {
        if k < |before.sent| {
          assert s.sent[k] == before.sent[k];
        } else {
          assert s.sent[k] == Passed(before.pump.at, before.pump.chunk);
        }
        AimedEarlier(Start(n), es, s.sent[k]);
      }
      if s.pump.Aimed? {
        if before.pump == s.pump {
          AimedEarlier(Start(n), es, Passed(s.pump.at, s.pump.chunk));
        } else {
          assert es[..|es| - 1] == init && es[|es| - 1] == DownAim;
        }
      }
    }
  }

  lemma {:induction false} RunSnoc(s: State, es: seq<Event>, e: Event)
    ensures Run(s, es + [e]) == Next(Run(s, es), e)
    decreases es
  {
    if es == [] {
      assert [] + [e] == [e] && [e][1..] == [];
    } else {
      assert (es + [e])[1..] == es[1..] + [e];
      RunSnoc(Next(s, es[0]), es[1..], e);
    }
  }

  /** Nothing changes the current upstream in es. */
  ghost predicate NoChange(es: seq<Event>) {
    forall i :: 0 <= i < |es| ==> !es[i].Swap? && !es[i].Close? && !es[i].DownTeardown?
  }

  /** While an upstream stays current, every chunk that is aimed from then on goes to it and to no other. */
  lemma {:induction false} AllToCurrent(s: State, es: seq<Event>, c: Conn)
    requires s.up == Some(c) && (s.pump.Aimed? ==> s.pump.at == c) && NoChange(es)
    ensures var t := Run(s, es);
            && t.up == Some(c) && s.sent <= t.sent && (t.pump.Aimed? ==> t.pump.at == c)
            && forall k :: |s.sent| <= k < |t.sent| ==> t.sent[k].conn == c
    decreases es
  {
    if es != [] {
      var s' := Next(s, es[0]);
      CurrentStep(s, es[0], c);
      AllToCurrent(s', es[1..], c);
      var t := Run(s, es);
      forall k | |s.sent| <= k < |t.sent| ensures t.sent[k].conn == c {
        if k < |s'.sent| {
          assert t.sent[k] == s'.sent[k];
        }
      }
    }
  }

  lemma CurrentStep(s: State, e: Event, c: Conn)
    requires s.up == Some(c) && (s.pump.Aimed? ==> s.pump.at == c) && !e.Swap? && !e.Close? && !e.DownTeardown?
    ensures var s' := Next(s, e);
            && s'.up == Some(c) && (s'.pump.Aimed? ==> s'.pump.at == c) && s.sent <= s'.sent
            && forall k :: |s.sent| <= k < |s'.sent| ==> s'.sent[k].conn == c
  {
  }

  /** A chunk in hand reaches the current upstream in two steps, if that is open and takes it. */
  lemma ChunkGoesUp(s: State, c: Conn)
    requires s.pump.Holding? && s.up == Some(c) && c !in s.closed
    ensures var t := Next(Next(s, DownAim), DownWrite(true));
            t.sent == s.sent + [Passed(c, s.pump.chunk)] && t.pump == Reading
  {
  }

  /** A closed upstream receives nothing more, whoever still aims at it. */
  lemma {:induction false} ClosedGetsNothing(s: State, es: seq<Event>, c: Conn)
    requires c in s.closed
    ensures c in Run(s, es).closed && Received(Run(s, es).sent, c) == Received(s.sent, c)
    decreases es
  {
    if es != [] {
      if es[0].DownWrite? && s.pump.Aimed? {
        ReceivedSnoc(s.sent, Passed(s.pump.at, s.pump.chunk), c);
      }
      assert c in Next(s, es[0]).closed;
      assert Received(Next(s, es[0]).sent, c) == Received(s.sent, c);
      ClosedGetsNothing(Next(s, es[0]), es[1..], c);
    }
  }

  // ---- from the upstreams to the UAC ----

  /** What a pump has read and not delivered. */
  function UpInHand(s: State, c: Conn): seq<Chunk> {
    if c !in s.pumps then []
    else match s.pumps[c]
      case Listening => []
      case Got(chunk) => [chunk]
      case Cleared(chunk) => [chunk]
      case Done(lost) => lost
  }

  /** What was read from a connection has been delivered, in order, but for at most one chunk. */
  ghost predicate HeardOk(s: State) {
    forall c :: Received(s.heard, c) == Received(s.delivered, c) + UpInHand(s, c) && |UpInHand(s, c)| <= 1
  }

  lemma ReceivedSnoc(log: seq<Passed>, p: Passed, c: Conn)
    ensures Received(log + [p], c) == Received(log, c) + (if p.conn == c then [p.chunk] else [])
  {
    assert (log + [p])[..|log|] == log;
  }

  lemma HeardStep(s: State, e: Event)
    requires Unborn(s) && HeardOk(s)
    ensures HeardOk(Next(s, e))
  {
    if e.UpRead? {
      HeardRead(s, e.conn, e.chunk);
    } else if e.UpWrite? {
      HeardWrite(s, e.conn, e.ok);
    } else if e.UpEnd? || e.UpCheck? {
      HeardKept(s, NextUp(s, e));
    } else if e.StartPump? {
      HeardKept(s, NextSwap(s, e));
    } else {
      OthersKeepUp(s, e);
      HeardKept(s, Next(s, e));
    }
  }

  lemma OthersKeepUp(s: State, e: Event)
    requires !e.UpRead? && !e.UpWrite? && !e.UpEnd? && !e.UpCheck? && !e.StartPump?
    ensures Next(s, e).pumps == s.pumps && Next(s, e).heard == s.heard && Next(s, e).delivered == s.delivered
  {
  }

  lemma HeardKept(s: State, s': State)
    requires HeardOk(s) && s'.heard == s.heard && s'.delivered == s.delivered && forall c :: UpInHand(s', c) == UpInHand(s, c)
    ensures HeardOk(s')
  {
    forall c ensures Received(s'.heard, c) == Received(s'.delivered, c) + UpInHand(s', c) && |UpInHand(s', c)| <= 1 {
      assert UpInHand(s', c) == UpInHand(s, c);
    }
  }

  lemma HeardRead(s: State, d: Conn, chunk: Chunk)
    requires HeardOk(s)
    ensures HeardOk(NextUp(s, UpRead(d, chunk)))
  {
    var s' := NextUp(s, UpRead(d, chunk));
    if s' != s {
      forall c ensures Received(s'.heard, c) == Received(s'.delivered, c) + UpInHand(s', c) && |UpInHand(s', c)| <= 1 {
        ReceivedSnoc(s.heard, Passed(d, chunk), c);
        assert UpInHand(s', c) == if c == d then [chunk] else UpInHand(s, c);
      }
    }
  }

  lemma HeardWrite(s: State, d: Conn, ok: bool)
    requires HeardOk(s)
    ensures HeardOk(NextUp(s, UpWrite(d, ok)))
  {
    var s' := NextUp(s, UpWrite(d, ok));
    if s'.delivered != s.delivered {
      forall c ensures Received(s'.heard, c) == Received(s'.delivered, c) + UpInHand(s', c) && |UpInHand(s', c)| <= 1 {
        ReceivedSnoc(s.delivered, Passed(d, s.pumps[d].chunk), c);
        assert UpInHand(s', c) == if c == d then [] else UpInHand(s, c);
      }
    } else {
      HeardKept(s, s');
    }
  }

  lemma {:induction false} HeardRun(s: State, es: seq<Event>)
    requires Inv(s) && Unborn(s) && HeardOk(s)
    ensures HeardOk(Run(s, es))
    decreases es
  {
    if es != [] {
      ConnsStep(s, es[0]);
      SentStep(s, es[0]);
      ConservedStep(s, es[0]);
      UnbornStep(s, es[0]);
      HeardStep(s, es[0]);
      HeardRun(Next(s, es[0]), es[1..]);
    }
  }

  /** For every run and every upstream: the UAC has got, in order, everything that was read from it but for at most one chunk. */
  lemma UpstreamIsDelivered(n: nat, es: seq<Event>, c: Conn)
    ensures var s := Run(Start(n), es);
            Received(s.heard, c) == Received(s.delivered, c) + UpInHand(s, c) && |UpInHand(s, c)| <= 1
  {
    StartInv(n);
    assert HeardOk(Start(n)) && Unborn(Start(n));
    HeardRun(Start(n), es);
  }

  /** An upstream that ends stops its pump, which then neither reads nor delivers anything, and gives up only what it had read. */
  lemma {:induction false} StoppedPumpIsSilent(s: State, es: seq<Event>, c: Conn)
    requires c in s.pumps && s.pumps[c].Done? && forall i :: 0 <= i < |s.recs| && s.recs[i].Swapped? ==> s.recs[i].repl != c
    requires NoChange(es)
    ensures c in Run(s, es).pumps && Run(s, es).pumps[c] == s.pumps[c]
    ensures Received(Run(s, es).heard, c) == Received(s.heard, c) && Received(Run(s, es).delivered, c) == Received(s.delivered, c)
    decreases es
  {
    if es != [] {
      StoppedStep(s, es[0], c);
      StoppedPumpIsSilent(Next(s, es[0]), es[1..], c);
    }
  }

  lemma StoppedStep(s: State, e: Event, c: Conn)
    requires c in s.pumps && s.pumps[c].Done? && forall i :: 0 <= i < |s.recs| && s.recs[i].Swapped? ==> s.recs[i].repl != c
    requires !e.Swap?
    ensures var s' := Next(s, e);
            && c in s'.pumps && s'.pumps[c] == s.pumps[c]
            && (forall i :: 0 <= i < |s'.recs| && s'.recs[i].Swapped? ==> s'.recs[i].repl != c)
            && Received(s'.heard, c) == Received(s.heard, c) && Received(s'.delivered, c) == Received(s.delivered, c)
  {
    StaysStarted(s, e, c);
    if e.UpRead? || e.UpWrite? || e.UpEnd? || e.UpCheck? {
      StoppedUp(s, e, c);
    } else if e.StartPump? {
      assert NextSwap(s, e).heard == s.heard && NextSwap(s, e).delivered == s.delivered;
    } else {
      OthersKeepUp(s, e);
    }
  }

  lemma StoppedUp(s: State, e: Event, c: Conn)
    requires c in s.pumps && s.pumps[c].Done? && (e.UpRead? || e.UpWrite? || e.UpEnd? || e.UpCheck?)
    ensures var s' := NextUp(s, e);
            && c in s'.pumps && s'.pumps[c] == s.pumps[c]
            && Received(s'.heard, c) == Received(s.heard, c) && Received(s'.delivered, c) == Received(s.delivered, c)
  {
    if e.UpRead? {
      ReceivedSnoc(s.heard, Passed(e.conn, e.chunk), c);
    } else if e.UpWrite? && e.conn in s.pumps && s.pumps[e.conn].Cleared? {
      ReceivedSnoc(s.delivered, Passed(e.conn, s.pumps[e.conn].chunk), c);
    }
  }

  lemma StaysStarted(s: State, e: Event, c: Conn)
    requires !e.Swap? && forall i :: 0 <= i < |s.recs| && s.recs[i].Swapped? ==> s.recs[i].repl != c
    ensures forall i :: 0 <= i < |Next(s, e).recs| && Next(s, e).recs[i].Swapped? ==> Next(s, e).recs[i].repl != c
  {
  }

  lemma UpstreamEndStopsPump(s: State, c: Conn)
    requires c in s.pumps && s.pumps[c].Listening?
    ensures c in Next(s, UpEnd(c)).pumps && Next(s, UpEnd(c)).pumps[c] == Done([]) && Next(s, UpEnd(c)).up == s.up
  {
  }

  /** In es the upstream c does not end, and no write of its chunks to the UAC fails. */
  ghost predicate GoesWell(es: seq<Event>, c: Conn) {
    forall i :: 0 <= i < |es| ==> es[i] != UpEnd(c) && es[i] != UpWrite(c, false) && !es[i].CloseOne?
  }

  /** While an upstream stays current and nothing fails, its pump never stops and gives up no chunk. */
  lemma {:induction false} CurrentIsHeard(s: State, es: seq<Event>, c: Conn)
    requires s.up == Some(c) && c in s.pumps && !s.pumps[c].Done? && !s.downClosed && NoChange(es) && GoesWell(es, c)
    requires forall i :: 0 <= i < |s.recs| && s.recs[i].Swapped? ==> s.recs[i].repl != c
    ensures c in Run(s, es).pumps && !Run(s, es).pumps[c].Done?
    decreases es
  {
    if es != [] {
      HeardOn(s, es[0], c);
      CurrentIsHeard(Next(s, es[0]), es[1..], c);
    }
  }

  lemma HeardOn(s: State, e: Event, c: Conn)
    requires s.up == Some(c) && c in s.pumps && !s.pumps[c].Done? && !s.downClosed
    requires !e.Swap? && !e.Close? && !e.DownTeardown? && e != UpEnd(c) && e != UpWrite(c, false) && !e.CloseOne?
    requires forall i :: 0 <= i < |s.recs| && s.recs[i].Swapped? ==> s.recs[i].repl != c
    ensures var s' := Next(s, e);
            && s'.up == Some(c) && c in s'.pumps && !s'.pumps[c].Done? && !s'.downClosed
            && forall i :: 0 <= i < |s'.recs| && s'.recs[i].Swapped? ==> s'.recs[i].repl != c
  {
  }

  /** A superseded connection's pump can deliver only what it had already cleared. */
  function Late(s: State, c: Conn): nat {
    if c in s.pumps && s.pumps[c].Cleared? && !s.downClosed then 1 else 0
  }

  ghost predicate Unborn(s: State) {
    && (forall c :: c in s.pumps ==> c in s.installed)
    && (forall i :: 0 <= i < |s.recs| && s.recs[i].Swapped? ==> s.recs[i].repl in s.installed && s.recs[i].repl !in s.pumps)
    && (forall i, j :: 0 <= i < j < |s.recs| && s.recs[i].Swapped? && s.recs[j].Swapped? ==> s.recs[i].repl != s.recs[j].repl)
  }

  lemma UnbornStep(s: State, e: Event)
    requires ConnsOk(s) && Unborn(s)
    ensures Unborn(Next(s, e))
  {
    if e.UpRead? || e.UpEnd? || e.UpCheck? || e.UpWrite? {
      UnbornUp(s, e);
    } else if e.ReadOld? || e.Dial? || e.Swap? || e.StartPump? {
      UnbornSwap(s, e);
    } else {
      assert Next(s, e).pumps == s.pumps && Next(s, e).recs == s.recs && Next(s, e).installed == s.installed;
    }
  }

  lemma UnbornUp(s: State, e: Event)
    requires Unborn(s) && (e.UpRead? || e.UpEnd? || e.UpCheck? || e.UpWrite?)
    ensures Unborn(Next(s, e))
  {
    assert Next(s, e).pumps.Keys == s.pumps.Keys;
  }

  lemma UnbornSwap(s: State, e: Event)
    requires ConnsOk(s) && Unborn(s) && (e.ReadOld? || e.Dial? || e.Swap? || e.StartPump?)
    ensures Unborn(NextSwap(s, e))
  {
    var i := e.i;
    if i < |s.recs| {
      if e.Swap? && s.recs[i].Dialled? {
        UnbornOnSwap(s, i);
      } else if e.StartPump? && s.recs[i].Swapped? {
        UnbornOnStart(s, i);
      } else {
        UnbornElse(s, NextSwap(s, e), i);
      }
    }
  }

  lemma UnbornOnSwap(s: State, i: nat)
    requires ConnsOk(s) && Unborn(s) && i < |s.recs| && s.recs[i].Dialled?
    ensures Unborn(NextSwap(s, Swap(i)))
  {
  }

  lemma UnbornOnStart(s: State, i: nat)
    requires Unborn(s) && i < |s.recs| && s.recs[i].Swapped?
    ensures Unborn(NextSwap(s, StartPump(i)))
  {
  }

  lemma UnbornElse(s: State, s': State, i: nat)
    requires Unborn(s) && s'.pumps == s.pumps && s'.installed == s.installed
    requires |s'.recs| == |s.recs| && forall j :: 0 <= j < |s.recs| ==> s'.recs[j] == s.recs[j] || (j == i && !s'.recs[j].Swapped?)
    ensures Unborn(s')
  {
  }

  lemma {:induction false} LateBound(s: State, es: seq<Event>, c: Conn)
    requires Inv(s) && Unborn(s) && Superseded(s, c)
    ensures |Received(s.delivered, c)| <= |Received(Run(s, es).delivered, c)| <= |Received(s.delivered, c)| + Late(s, c)
    ensures Received(s.delivered, c) <= Received(Run(s, es).delivered, c)
    decreases es
  {
    if es != [] {
      var s' := Next(s, es[0]);
      Invariant(s, [es[0]]);
      assert Run(s, [es[0]]) == s' by {
        assert [es[0]][1..] == [];
      }
      UnbornStep(s, es[0]);
      LateStep(s, es[0], c);
      LateBound(s', es[1..], c);
    }
  }

  lemma LateStep(s: State, e: Event, c: Conn)
    requires Unborn(s) && Superseded(s, c)
    ensures var s' := Next(s, e);
            && Received(s.delivered, c) <= Received(s'.delivered, c)
            && |Received(s'.delivered, c)| + Late(s', c) <= |Received(s.delivered, c)| + Late(s, c)
  {
    var s' := Next(s, e);
    if e.UpWrite? {
      LateUpWrite(s, e.conn, e.ok, c);
    } else {
      assert s'.delivered == s.delivered;
    }
  }

  lemma LateUpWrite(s: State, d: Conn, ok: bool, c: Conn)
    ensures var s' := Next(s, UpWrite(d, ok));
            && Received(s.delivered, c) <= Received(s'.delivered, c)
            && |Received(s'.delivered, c)| + Late(s', c) <= |Received(s.delivered, c)| + Late(s, c)
  {
    var s' := Next(s, UpWrite(d, ok));
    if s'.delivered != s.delivered {
      assert s'.delivered[..|s.delivered|] == s.delivered;
    }
  }

  ghost predicate Silent(s: State, c: Conn) {
    forall es :: Received(Run(s, es).delivered, c) == Received(s.delivered, c)
  }

  /**
   The comment promises that nothing from a dead connection reaches the UAC. From a state in which the connection has
   been superseded that holds, whatever follows, exactly when its pump was not between its check and its write.
   */
  lemma NothingLateIff(n: nat, before: seq<Event>, c: Conn)
    requires Superseded(Run(Start(n), before), c)
    ensures var s := Run(Start(n), before); Silent(s, c) <==> !(c in s.pumps && s.pumps[c].Cleared? && !s.downClosed)
  {
    var s := Run(Start(n), before);
    StartInv(n);
    Invariant(Start(n), before);
    UnbornRun(Start(n), before);
    if Late(s, c) == 0 {
      forall es ensures Received(Run(s, es).delivered, c) == Received(s.delivered, c) {
        LateBound(s, es, c);
      }
    } else {
      LateWrite(s, c);
    }
  }

  lemma LateWrite(s: State, c: Conn)
    requires Late(s, c) == 1
    ensures !Silent(s, c)
  {
    var s' := Next(s, UpWrite(c, true));
    assert s'.delivered[..|s.delivered|] == s.delivered;
    assert Run(s', []) == s';
    RunCons(s, UpWrite(c, true), []);
    assert |Received(Run(s, [UpWrite(c, true)] + []).delivered, c)| > |Received(s.delivered, c)|;
  }

  lemma {:induction false} UnbornRun(s: State, es: seq<Event>)
    requires Inv(s) && Unborn(s)
    ensures Unborn(Run(s, es))
    decreases es
  {
    if es != [] {
      ConnsStep(s, es[0]);
      SentStep(s, es[0]);
      ConservedStep(s, es[0]);
      UnbornStep(s, es[0]);
      UnbornRun(Next(s, es[0]), es[1..]);
    }
  }

  /** A reconnect between the check and the write: the dead connection's chunk reaches the UAC after the swap. */
  lemma DeadConnectionSpeaks(chunk: Chunk)
    ensures var s := Run(Start(1), [UpRead(0, chunk), UpCheck(0), ReadOld(0), Dial(0, true), Swap(0)]);
            Superseded(s, 0) && s.delivered == [] && Next(s, UpWrite(0, true)).delivered == [Passed(0, chunk)]
  {
    var s2 := Next(Next(Start(1), UpRead(0, chunk)), UpCheck(0));
    Cleared0(chunk);
    RunFive(Start(1), UpRead(0, chunk), UpCheck(0), ReadOld(0), Dial(0, true), Swap(0));
    SwapSteps(s2);
  }

  lemma RunFour(s: State, a: Event, b: Event, c: Event, d: Event)
    ensures Run(s, [a, b, c, d]) == Next(Next(Next(Next(s, a), b), c), d)
  {
    RunCons(s, a, [b, c, d]);
    RunThree(Next(s, a), b, c, d);
  }

  lemma RunFive(s: State, a: Event, b: Event, c: Event, d: Event, e: Event)
    ensures Run(s, [a, b, c, d, e]) == Next(Next(Next(Next(Next(s, a), b), c), d), e)
  {
    RunCons(s, a, [b, c, d, e]);
    RunFour(Next(s, a), b, c, d, e);
  }

  lemma Cleared0(chunk: Chunk)
    ensures Next(Next(Start(1), UpRead(0, chunk)), UpCheck(0)) == Start(1).(pumps := map[0 := Cleared(chunk)], heard := [Passed(0, chunk)], recs := [Idle])
  {
    assert seq(1, _ => Idle) == [Idle];
    var s1 := Next(Start(1), UpRead(0, chunk));
    assert s1.pumps == map[0 := Got(chunk)];
  }

  /** The first three steps of an undisturbed reconnect. */
  lemma SwapSteps(s: State)
    requires s.recs == [Idle] && s.up.Some?
    ensures Next(Next(Next(s, ReadOld(0)), Dial(0, true)), Swap(0))
         == s.(up := Some(s.dials), dials := s.dials + 1, abandoned := s.abandoned + [s.up.value],
               installed := s.installed + [s.dials], recs := [Swapped(s.dials)])
  {
    assert Next(s, ReadOld(0)) == s.(recs := [Old(s.up.value)]);
    assert Next(Next(s, ReadOld(0)), Dial(0, true)) == s.(recs := [Dialled(s.up.value, s.dials)], dials := s.dials + 1);
  }

  lemma RunCons(s: State, e: Event, es: seq<Event>)
    ensures Run(s, [e] + es) == Run(Next(s, e), es)
  {
    assert ([e] + es)[1..] == es;
  }

  lemma RunThree(s: State, a: Event, b: Event, c: Event)
    ensures Run(s, [a, b, c]) == Next(Next(Next(s, a), b), c)
  {
    var x, y := Next(s, a), Next(Next(s, a), b);
    assert Run(Next(y, c), []) == Next(y, c);
    RunCons(y, c, []);
    RunCons(x, b, [c]);
    RunCons(s, a, [b, c]);
  }

  // ---- who closes what ----

  ghost predicate ToClose(s: State, c: Conn) {
    exists i :: 0 <= i < |s.closers| && c in s.closers[i]
  }

  /** Every connection that was ever current is current, abandoned, or taken by a teardown. */
  ghost predicate Accounted(s: State) {
    forall c :: c in s.installed ==> Held(s, c)
  }

  ghost predicate OldIsCurrent(s: State) {
    forall i :: 0 <= i < |s.recs| ==>
      && (s.recs[i].Old? ==> s.up.None? || s.up == Some(s.recs[i].prev))
      && (s.recs[i].Dialled? ==> s.up.None? || s.up == Some(s.recs[i].prev))
  }

  lemma AccountedStep(s: State, e: Event)
    requires |s.recs| <= 1 && OldIsCurrent(s) && Accounted(s)
    ensures |Next(s, e).recs| <= 1 && OldIsCurrent(Next(s, e)) && Accounted(Next(s, e))
  {
    var s' := Next(s, e);
    forall c | c in s'.installed ensures Held(s', c) {
      if c in s.installed {
        AccountedKept(s, e, c);
      }
    }
  }

  ghost predicate Held(s: State, c: Conn) {
    s.up == Some(c) || c in s.abandoned || ToClose(s, c) || c in s.closed
  }

  lemma AccountedKept(s: State, e: Event, c: Conn)
    requires |s.recs| <= 1 && OldIsCurrent(s) && Held(s, c)
    ensures Held(Next(s, e), c)
  {
    if e.Close? || e.DownTeardown? {
      HeldTakeDown(s, c);
    } else if e.CloseOne? {
      HeldClose(s, e.i, c);
    } else if e.Swap? {
      assert Next(s, e).closers == s.closers;
    } else {
      HeldSame(s, Next(s, e), c);
    }
  }

  lemma HeldSame(s: State, s': State, c: Conn)
    requires Held(s, c) && s'.up == s.up && s'.abandoned == s.abandoned && s'.closers == s.closers && s'.closed == s.closed
    ensures Held(s', c)
  {
  }

  lemma HeldTakeDown(s: State, c: Conn)
    requires Held(s, c)
    ensures Held(TakeDown(s), c)
  {
    var s' := TakeDown(s);
    if s.up == Some(c) || c in s.abandoned {
      assert c in s'.closers[|s.closers|];
    } else if ToClose(s, c) {
      var i :| 0 <= i < |s.closers| && c in s.closers[i];
      assert s'.closers[i] == s.closers[i];
    }
  }

  lemma HeldClose(s: State, i: nat, c: Conn)
    requires Held(s, c)
    ensures Held(NextClose(s, CloseOne(i)), c)
  {
    var s' := NextClose(s, CloseOne(i));
    if ToClose(s, c) {
      var k :| 0 <= k < |s.closers| && c in s.closers[k];
      if k == i {
        assert c == s.closers[i][0] || c in s'.closers[i];
      } else {
        assert s'.closers[k] == s.closers[k];
      }
    }
  }

  lemma {:induction false} AccountedRun(s: State, es: seq<Event>)
    requires |s.recs| <= 1 && OldIsCurrent(s) && Accounted(s)
    ensures Accounted(Run(s, es)) && OldIsCurrent(Run(s, es)) && |Run(s, es).recs| <= 1
    decreases es
  {
    if es != [] {
      AccountedStep(s, es[0]);
      AccountedRun(Next(s, es[0]), es[1..]);
    }
  }

  ghost predicate NeverForgotten(n: nat) {
    forall es :: Accounted(Run(Start(n), es))
  }

  /** No socket is ever forgotten exactly when there is at most one Reconnect at a time. */
  lemma NeverForgottenIffOneReconnect(n: nat)
    ensures NeverForgotten(n) <==> n <= 1
  {
    if n <= 1 {
      forall es ensures Accounted(Run(Start(n), es)) {
        AccountedRun(Start(n), es);
      }
    } else {
      var es := TwoReconnectsForget(n);
      assert !Accounted(Run(Start(n), es));
    }
  }

  /** Both read the same old connection: the first one's replacement is replaced without being abandoned. */
  lemma TwoReconnectsForget(n: nat) returns (es: seq<Event>)
    requires n >= 2
    ensures !Accounted(Run(Start(n), es))
  {
    var s2 := Next(Next(Start(n), ReadOld(0)), ReadOld(1));
    var s4 := Next(Next(s2, Dial(0, true)), Dial(1, true));
    BothRead(n);
    BothDial(s2);
    BothSwap(s4);
    RunCons(Start(n), ReadOld(0), [ReadOld(1), Dial(0, true), Dial(1, true), Swap(0), Swap(1)]);
    RunFive(Next(Start(n), ReadOld(0)), ReadOld(1), Dial(0, true), Dial(1, true), Swap(0), Swap(1));
    es := [ReadOld(0)] + [ReadOld(1), Dial(0, true), Dial(1, true), Swap(0), Swap(1)];
  }

  lemma BothRead(n: nat)
    requires n >= 2
    ensures var s := Next(Next(Start(n), ReadOld(0)), ReadOld(1));
            s == Start(n).(recs := s.recs) && |s.recs| == n && s.recs[0] == s.recs[1] == Old(0)
  {
  }

  lemma BothDial(s: State)
    requires |s.recs| >= 2 && s.recs[0] == s.recs[1] == Old(0)
    ensures var t := Next(Next(s, Dial(0, true)), Dial(1, true));
            t == s.(recs := t.recs, dials := s.dials + 2) && |t.recs| == |s.recs|
            && t.recs[0] == Dialled(0, s.dials) && t.recs[1] == Dialled(0, s.dials + 1)
  {
  }

  lemma BothSwap(s: State)
    requires |s.recs| >= 2 && s.recs[0] == Dialled(0, 1) && s.recs[1] == Dialled(0, 2)
    requires s.abandoned == [] && s.closers == [] && s.closed == {}
    ensures !Accounted(Next(Next(s, Swap(0)), Swap(1)))
  {
    var t := Next(Next(s, Swap(0)), Swap(1));
    assert t.up == Some(2) && t.abandoned == [0, 0] && t.installed == s.installed + [1] + [2];
    assert t.installed[|s.installed|] == 1 && !Held(t, 1);
  }

  // ---- teardown ----

  /** Nothing is closed while no teardown has begun. */
  lemma {:induction false} NothingClosedBeforeTeardown(s: State, es: seq<Event>)
    requires s.closed == {} && s.closers == [] && !s.downClosed
    requires forall i :: 0 <= i < |es| ==> !es[i].Close? && !es[i].DownTeardown?
    ensures Run(s, es).closed == {} && Run(s, es).closers == [] && !Run(s, es).downClosed
    decreases es
  {
    if es != [] {
      NothingClosedBeforeTeardown(Next(s, es[0]), es[1..]);
    }
  }

  /** Some goroutine is between reading the old connection and swapping in a new one. */
  ghost predicate Midway(s: State) {
    exists i :: 0 <= i < |s.recs| && (s.recs[i].Old? || s.recs[i].Dialled?)
  }

  ghost predicate StaysDown(s: State) {
    forall es :: Run(s, es).up.None?
  }

  /** A teardown is final, whatever follows, exactly when no reconnect is midway when it takes the sockets. */
  lemma TeardownIsFinalIff(s: State)
    ensures StaysDown(Next(s, Close)) <==> !Midway(s)
  {
    var t := Next(s, Close);
    if Midway(s) {
      var i :| 0 <= i < |s.recs| && (s.recs[i].Old? || s.recs[i].Dialled?);
      var t1, t2 := Next(t, Dial(i, true)), Next(Next(t, Dial(i, true)), Swap(i));
      assert t2.up.Some?;
      assert Run(t2, []) == t2;
      RunCons(t1, Swap(i), []);
      RunCons(t, Dial(i, true), [Swap(i)]);
      assert Run(t, [Dial(i, true)] + [Swap(i)]).up.Some?;
    } else {
      forall es ensures Run(t, es).up.None? {
        DownForGood(t, es);
      }
    }
  }

  lemma {:induction false} DownForGood(s: State, es: seq<Event>)
    requires s.up.None? && !Midway(s)
    ensures Run(s, es).up.None? && !Midway(Run(s, es))
    ensures Run(s, es).installed == s.installed && (s.abandoned == [] ==> Run(s, es).abandoned == [])
    decreases es
  {
    if es != [] {
      DownStays(s, es[0]);
      DownForGood(Next(s, es[0]), es[1..]);
    }
  }

  lemma DownStays(s: State, e: Event)
    requires s.up.None? && !Midway(s)
    ensures var s' := Next(s, e); s'.up.None? && !Midway(s') && s'.installed == s.installed && (s.abandoned == [] ==> s'.abandoned == [])
  {
  }

  /** When the teardowns have finished, every connection there ever was is closed, unless a reconnect was midway. */
  lemma TeardownClosesAll(n: nat, before: seq<Event>, after: seq<Event>)
    requires n <= 1 && !Midway(Run(Start(n), before))
    ensures var t := Run(Next(Run(Start(n), before), Close), after);
            (forall i :: 0 <= i < |t.closers| ==> t.closers[i] == []) ==> forall c :: c in t.installed ==> c in t.closed
  {
    var s := Run(Start(n), before);
    AccountedRun(Start(n), before);
    AccountedStep(s, Close);
    AccountedRun(Next(s, Close), after);
    DownForGood(Next(s, Close), after);
  }

  function CloseAll(i: nat, n: nat): seq<Event> {
    if n == 0 then [] else [CloseOne(i)] + CloseAll(i, n - 1)
  }

  /** A teardown that goes on to its end closes all the sockets it took and then the UAC side. */
  lemma {:induction false} TeardownFinishes(s: State, i: nat)
    requires i < |s.closers|
    ensures var t := Run(s, CloseAll(i, |s.closers[i]| + 1));
            t.downClosed && s.closed <= t.closed && forall c :: c in s.closers[i] ==> c in t.closed
    decreases |s.closers[i]|
  {
    var n := |s.closers[i]|;
    assert CloseAll(i, n + 1)[1..] == CloseAll(i, n);
    var s' := Next(s, CloseOne(i));
    if n == 0 {
      assert Run(s', CloseAll(i, 0)) == s';
    } else {
      TeardownFinishes(s', i);
    }
  }

  /** When the UAC hangs up, its pump ends and tears the session down: current, abandoned and UAC sockets are closed. */
  lemma HangupClosesSession(s: State)
    requires s.pump == Reading
    ensures var t := Next(Next(s, DownEnd), DownTeardown);
            var u := Run(t, CloseAll(|s.closers|, |s.abandoned| + 2));
            && t.pump == Stopped([]) && t.up == None && t.abandoned == []
            && (forall c :: s.up == Some(c) || c in s.abandoned ==> t.closers[|s.closers|] != [] && ToClose(t, c))
            && (s.up.Some? ==> u.downClosed && s.up.value in u.closed && forall c :: c in s.abandoned ==> c in u.closed)
  {
    var t := Next(Next(s, DownEnd), DownTeardown);
    var mine := (if s.up.Some? then [s.up.value] else []) + s.abandoned;
    assert t.closers[|s.closers|] == mine;
    forall c | s.up == Some(c) || c in s.abandoned ensures ToClose(t, c) && mine != [] {
      assert c in t.closers[|s.closers|];
    }
    if s.up.Some? {
      TeardownFinishes(t, |s.closers|);
    }
  }

  // ---- the session, one goroutine at a time ----

  class Session {
    var up: Option<Conn>
    var abandoned: seq<Conn>
    var installed: seq<Conn>
    var dials: nat
    var pumps: map<Conn, UpPump>
    var closed: set<Conn>
    var downClosed: bool

    ghost function View(): State
      reads this
    {
      State(up, abandoned, installed, dials, Reading, [], [], pumps, [], [], [Idle], [], closed, downClosed)
    }

    constructor ()
      ensures View() == Start(1)
    {
      up, abandoned, installed, dials := Some(0), [], [0], 1;
      pumps, closed, downClosed := map[0 := Listening], {}, false;
      new;
      assert seq(1, _ => Idle) == [Idle];
    }

    /** Left alone, reconnect is the run of its four steps. */
    method Reconnect(dialOk: bool) returns (swapped: bool)
      modifies this
      ensures View() == Run(old(View()), [ReadOld(0), Dial(0, dialOk), Swap(0), StartPump(0)])
      ensures swapped == (old(up).Some? && dialOk)
      ensures swapped ==> up == Some(old(dials)) && abandoned == old(abandoned) + [old(up).value]
      ensures closed == old(closed)
    {
      ReconnectRun(View(), dialOk);
      if up.None? || !dialOk {
        return false;
      }
      var last, repl := up.value, dials;
      dials := dials + 1;
      up := Some(repl);
      abandoned := abandoned + [last];
      installed := installed + [repl];
      pumps := pumps[repl := Listening];
      return true;
    }

    method Teardown()
      modifies this
      ensures up == None && abandoned == [] && downClosed
      ensures closed == old(closed) + (if old(up).Some? then {old(up).value} else {}) + set c | c in old(abandoned)
      ensures installed == old(installed) && dials == old(dials) && pumps == old(pumps)
    {
      var last, list := up, abandoned;
      up, abandoned := None, [];
      if last.Some? {
        closed := closed + {last.value};
      }
      ghost var was := closed;
      for i := 0 to |list|
        invariant closed == was + set c | c in list[..i]
        invariant up == None && abandoned == []
        invariant installed == old(installed) && dials == old(dials) && pumps == old(pumps)
      {
        assert list[..i + 1] == list[..i] + [list[i]];
        closed := closed + {list[i]};
      }
      assert list[..|list|] == list;
      downClosed := true;
    }
  }

  lemma ReconnectRun(s: State, ok: bool)
    requires s.recs == [Idle]
    ensures Run(s, [ReadOld(0), Dial(0, ok), Swap(0), StartPump(0)])
         == if s.up.None? || !ok then s
            else s.(up := Some(s.dials), dials := s.dials + 1, abandoned := s.abandoned + [s.up.value],
                    installed := s.installed + [s.dials], pumps := s.pumps[s.dials := Listening])
  {
    var s3 := Next(Next(Next(s, ReadOld(0)), Dial(0, ok)), Swap(0));
    RunFour(s, ReadOld(0), Dial(0, ok), Swap(0), StartPump(0));
    if s.up.Some? && ok {
      SwapSteps(s);
      Started(s3);
    } else {
      assert Next(s, ReadOld(0)).recs == [if s.up.None? then Idle else Old(s.up.value)];
      assert Next(Next(s, ReadOld(0)), Dial(0, ok)) == s.(recs := [Idle]);
    }
  }

  lemma Started(s: State)
    requires |s.recs| == 1 && s.recs[0].Swapped?
    ensures Next(s, StartPump(0)) == s.(recs := [Idle], pumps := s.pumps[s.recs[0].repl := Listening])
  {
  }
}
