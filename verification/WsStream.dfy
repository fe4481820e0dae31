/**
 The frame stream of a generic WebSocket session (internal/webhook/ws.go): the read loop of each connection,
 the two channels a closing connection closes, and the readers.
 */
module WsStream {

  datatype Message = Message(text: bool, body: nat)

  const CAPACITY: nat := 256

  /** A connection's handler: reading frames, between the two closes of its deferred function, or finished. */
  datatype Handler = InLoop | Closing | Gone

  datatype Stream = Stream(
    inbound: seq<Message>,
    accepted: seq<Message>,   // frames that went into the channel
    dropped: nat,
    read: seq<Message>,       // frames that readers took out
    closed: bool,
    doneCloses: nat,          // closes of closedCh
    inboundCloses: nat,       // closes of inbound
    handlers: seq<Handler>,
    panicked: bool)           // a send on, or a second close of, a closed channel

  datatype Event =
    | Arrive(c: nat, m: Message)  // the read loop of connection c gets a frame
    | Hangup(c: nat)              // its read fails: the deferred function takes the lock and closes closedCh
    | Finish(c: nat)              // ... and then inbound
    | Take                        // some reader receives from inbound

  function Next(s: Stream, e: Event): Stream {
    match e
    case Arrive(c, m) =>
      if c >= |s.handlers| || s.handlers[c] != InLoop then s
      else if s.inboundCloses > 0 then s.(panicked := true, handlers := s.handlers[c := Gone])
      else if |s.inbound| < CAPACITY then s.(inbound := s.inbound + [m], accepted := s.accepted + [m])
      else s.(dropped := s.dropped + 1)
    case Hangup(c) =>
      if c >= |s.handlers| || s.handlers[c] != InLoop then s
      else if s.closed then s.(handlers := s.handlers[c := Gone])
      else s.(closed := true, doneCloses := s.doneCloses + 1, panicked := s.panicked || s.doneCloses > 0,
              handlers := s.handlers[c := Closing])
    case Finish(c) =>
      if c >= |s.handlers| || s.handlers[c] != Closing then s
      else s.(inboundCloses := s.inboundCloses + 1, panicked := s.panicked || s.inboundCloses > 0,
              handlers := s.handlers[c := Gone])
    case Take =>
      if s.inbound == [] then s else s.(inbound := s.inbound[1..], read := s.read + [s.inbound[0]])
  }

  function Run(s: Stream, es: seq<Event>): Stream
    decreases es
  {
    if es == [] then s else Run(Next(s, es[0]), es[1..])
  }

  /** A session on which n connections are open. */
  function Start(n: nat): Stream {
    Stream([], [], 0, [], false, 0, 0, seq(n, i => InLoop), false)
  }

  ghost predicate Inv(s: Stream) {
    && s.read + s.inbound == s.accepted
    && |s.inbound| <= CAPACITY
    && s.doneCloses == (if s.closed then 1 else 0)
    && s.inboundCloses <= s.doneCloses
    && (forall c :: 0 <= c < |s.handlers| && s.handlers[c] == Closing ==> s.closed && s.inboundCloses == 0)
    && (forall c, d :: 0 <= c < d < |s.handlers| ==> !(s.handlers[c] == Closing && s.handlers[d] == Closing))
  }

  lemma {:induction false} Invariant(s: Stream, es: seq<Event>)
    requires Inv(s)
    ensures Inv(Run(s, es))
    decreases es
  {
    if es != [] {
      var s' := Next(s, es[0]);
      if es[0] == Take && s.inbound != [] {
        assert s.read + [s.inbound[0]] + s.inbound[1..] == s.read + s.inbound;
      } else if es[0].Arrive? && s'.inbound != s.inbound {
        assert s.read + (s.inbound + [es[0].m]) == s.read + s.inbound + [es[0].m];
      }
      assert Inv(s');
      Invariant(s', es[1..]);
    }
  }

  /** Any number of connections: reads ++ queued is what was accepted, and each channel is closed at most once. */
  lemma StreamConserves(n: nat, es: seq<Event>)
    ensures var s := Run(Start(n), es);
            && s.read + s.inbound == s.accepted && |s.inbound| <= CAPACITY
            && s.inboundCloses <= s.doneCloses <= 1
  {
    Invariant(Start(n), es);
  }

  // ---- one connection ----

  /** The only connection has left its loop exactly when the session is closed, and has never panicked. */
  ghost predicate Single(s: Stream) {
    && Inv(s) && !s.panicked
    && |s.handlers| <= 1
    && (|s.handlers| == 1 ==> (s.closed <==> s.handlers[0] != InLoop) && (s.inboundCloses == 1 <==> s.handlers[0] == Gone))
    && (|s.handlers| == 0 ==> s.inboundCloses == 0)
  }

  lemma SingleStep(s: Stream, e: Event)
    requires Single(s)
    ensures Single(Next(s, e))
    ensures s.closed ==> Next(s, e).closed && Next(s, e).accepted == s.accepted
  {
    assert Run(s, [e]) == Next(s, e);
    Invariant(s, [e]);
  }

  lemma {:induction false} SingleRun(s: Stream, es: seq<Event>)
    requires Single(s)
    ensures Single(Run(s, es))
    ensures s.closed ==> Run(s, es).closed && Run(s, es).accepted == s.accepted
    decreases es
  {
    if es != [] {
      SingleStep(s, es[0]);
      SingleRun(Next(s, es[0]), es[1..]);
    }
  }

  ghost predicate NeverPanics(n: nat) {
    forall es :: !Run(Start(n), es).panicked
  }

  /** No run of a session ever panics a handler exactly when at most one connection is opened on it. */
  lemma NeverPanicsIffSingle(n: nat)
    ensures NeverPanics(n) <==> n <= 1
  {
    if n <= 1 {
      forall es ensures !Run(Start(n), es).panicked {
        SingleRun(Start(n), es);
      }
    } else {
      var m := Message(true, 0);
      var es := [Hangup(0), Finish(0), Arrive(1, m)];
      var s1 := Next(Start(n), Hangup(0));
      var s2 := Next(s1, Finish(0));
      assert s2.handlers[1] == InLoop && s2.inboundCloses == 1;
      assert es[1..] == [Finish(0), Arrive(1, m)] && es[1..][1..] == [Arrive(1, m)];
      assert es[1..][1..][1..] == [];
      assert Run(s2, [Arrive(1, m)]) == Next(s2, Arrive(1, m));
      assert Run(s1, [Finish(0), Arrive(1, m)]) == Run(s2, [Arrive(1, m)]);
      assert Run(Start(n), es).panicked;
    }
  }

  // ---- readers ----

  /** What the connection does before a select fires, and whether the context has expired by then. */
  datatype Gap = Gap(events: seq<Event>, expired: bool)

  ghost predicate NoTakes(es: seq<Event>) {
    forall i :: 0 <= i < |es| ==> es[i] != Take
  }

  ghost predicate OnlyReader(gaps: seq<Gap>) {
    forall k :: 0 <= k < |gaps| ==> NoTakes(gaps[k].events)
  }

  lemma {:induction false} NobodyReads(s: Stream, es: seq<Event>)
    requires NoTakes(es)
    ensures Run(s, es).read == s.read
    decreases es
  {
    if es != [] {
      NobodyReads(Next(s, es[0]), es[1..]);
    }
  }

  lemma {:induction false} StaysClosed(s: Stream, es: seq<Event>)
    requires s.closed
    ensures Run(s, es).closed
    decreases es
  {
    if es != [] {
      StaysClosed(Next(s, es[0]), es[1..]);
    }
  }

  /** What a reader may rely on across some steps. */
  lemma Between(s: Stream, es: seq<Event>)
    requires Inv(s)
    ensures Inv(Run(s, es)) && (Single(s) ==> Single(Run(s, es))) && (s.closed ==> Run(s, es).closed)
    ensures Single(s) && s.closed ==> Run(s, es).closed && Run(s, es).accepted == s.accepted
    ensures NoTakes(es) ==> Run(s, es).read == s.read
    ensures es == [Take] ==> Run(s, es) == Next(s, Take)
  {
    Invariant(s, es);
    if Single(s) {
      SingleRun(s, es);
    }
    if s.closed {
      StaysClosed(s, es);
    }
    if NoTakes(es) {
      NobodyReads(s, es);
    }
    if es == [Take] {
      assert es[1..] == [];
    }
  }

  /** The stream when turn k of a reader begins, if each turn before took one frame. */
  function Turned(s: Stream, gaps: seq<Gap>, k: nat): Stream
    requires k <= |gaps|
  {
    if k == 0 then s else Next(Run(Turned(s, gaps, k - 1), gaps[k - 1].events), Take)
  }

  /** What holds between the turns of the only reader. */
  lemma {:induction false} TurnedOk(s: Stream, gaps: seq<Gap>, k: nat)
    requires Inv(s) && OnlyReader(gaps) && k <= |gaps|
    ensures Inv(Turned(s, gaps, k)) && (Single(s) ==> Single(Turned(s, gaps, k)))
    ensures Single(s) && s.closed ==> Turned(s, gaps, k).closed && Turned(s, gaps, k).accepted == s.accepted
    decreases k
  {
    if k > 0 {
      var before := Turned(s, gaps, k - 1);
      TurnedOk(s, gaps, k - 1);
      Between(before, gaps[k - 1].events);
      Between(Run(before, gaps[k - 1].events), [Take]);
    }
  }

  /** In turn k the context has expired, or there is nothing to wait for but that. */
  ghost predicate ExpiresIn(s: Stream, gaps: seq<Gap>, k: nat)
    requires k < |gaps|
  {
    var q := Run(Turned(s, gaps, k), gaps[k].events);
    gaps[k].expired || (q.inbound == [] && !q.closed)
  }

  ghost predicate NoneExpired(gaps: seq<Gap>) {
    forall k :: 0 <= k < |gaps| ==> !gaps[k].expired
  }

  // ---- what connections deliver ----

  function Arrivals(c: nat, ms: seq<Message>): seq<Event> {
    if ms == [] then [] else [Arrive(c, ms[0])] + Arrivals(c, ms[1..])
  }

  /** Frames that nobody reads meanwhile are all kept until the channel is full, and only then dropped. */
  lemma {:induction false} BurstIsKept(s: Stream, c: nat, ms: seq<Message>)
    requires c < |s.handlers| && s.handlers[c] == InLoop && s.inboundCloses == 0 && |s.inbound| <= CAPACITY
    ensures var t, n := Run(s, Arrivals(c, ms)), Least(|ms|, 256 - |s.inbound|);
            t == s.(inbound := s.inbound + ms[..n], accepted := s.accepted + ms[..n], dropped := s.dropped + |ms| - n)
    decreases ms
  {
    var n := Least(|ms|, 256 - |s.inbound|);
    if ms == [] {
      assert ms[..n] == [];
    } else {
      assert Arrivals(c, ms)[1..] == Arrivals(c, ms[1..]);
      BurstIsKept(Next(s, Arrive(c, ms[0])), c, ms[1..]);
      if n > 0 {
        OneMore(s.inbound, ms, n);
        OneMore(s.accepted, ms, n);
      } else {
        assert ms[..n] == [] && ms[1..][..n] == [];
      }
    }
  }

  function Least(a: nat, b: nat): nat {
    if a <= b then a else b
  }

  lemma OneMore(a: seq<Message>, ms: seq<Message>, n: nat)
    requires 0 < n <= |ms|
    ensures a + [ms[0]] + ms[1..][..n - 1] == a + ms[..n]
  {
    assert ms[..n] == [ms[0]] + ms[1..][..n - 1];
  }

  /** A connection that ends closes both channels of an open session. */
  lemma ConnectionCloses(s: Stream, c: nat)
    requires Inv(s) && c < |s.handlers| && s.handlers[c] == InLoop && !s.closed
    ensures var t := Next(Next(s, Hangup(c)), Finish(c));
            t.closed && t.doneCloses == 1 && t.inboundCloses == 1 && t.handlers[c] == Gone && t.inbound == s.inbound && t.panicked == s.panicked
  {
  }

  /** What has been collected from a stream that accepts nothing more, when nothing is left, is what was unread. */
  lemma AllUnread(before: Stream, after: Stream, out: seq<Message>)
    requires Inv(before) && Inv(after) && after.read == before.read + out && after.inbound == []
    ensures after.accepted == before.accepted ==> out == before.inbound
  {
    if after.accepted == before.accepted {
      assert before.read + out == before.read + before.inbound;
      assert (before.read + out)[|before.read|..] == out;
    }
  }

  lemma TooManyTurns(before: Stream, after: Stream, out: seq<Message>)
    requires Inv(before) && Inv(after) && after.read == before.read + out
    ensures after.accepted == before.accepted ==> |out| <= |before.inbound|
  {
    assert |after.read| + |after.inbound| == |after.accepted| && |before.read| + |before.inbound| == |before.accepted|;
  }

  /** A turn of CollectWS: a frame, the rest after the close, or nothing because the context expired. */
  datatype Turn = More(m: Message) | Ended(rest: seq<Message>) | GaveUp

  datatype WaitResult = Got(m: Message) | StreamClosed | TimedOut

  class WsSession {
    var stream: Stream

    constructor (n: nat)
      ensures stream == Start(n)
    {
      stream := Start(n);
    }

    method Meanwhile(es: seq<Event>)
      modifies this
      ensures stream == Run(old(stream), es)
    {
      var i := 0;
      while i < |es|
        invariant 0 <= i <= |es|
        invariant Run(stream, es[i..]) == Run(old(stream), es)
      {
        assert es[i..][1..] == es[i + 1..];
        stream := Next(stream, es[i]);
        i := i + 1;
      }
      assert es[|es|..] == [];
    }

    /** What happens before a select fires. */
    method Pause(gap: Gap)
      requires Inv(stream) && NoTakes(gap.events)
      modifies this
      ensures stream == Run(old(stream), gap.events) && Inv(stream) && (old(Single(stream)) ==> Single(stream))
      ensures stream.read == old(stream.read) && (old(stream.closed) ==> stream.closed)
      ensures old(Single(stream) && stream.closed) ==> stream.accepted == old(stream.accepted)
    {
      Between(stream, gap.events);
      Meanwhile(gap.events);
    }

    /** A receive from inbound. */
    method Receive() returns (m: Message)
      requires Inv(stream) && stream.inbound != []
      modifies this
      ensures m == old(stream).inbound[0] && stream == Next(old(stream), Take)
      ensures Inv(stream) && (old(Single(stream)) ==> Single(stream))
    {
      m := stream.inbound[0];
      Between(stream, [Take]);
      stream := Next(stream, Take);
    }

    method WaitWSMessage(gap: Gap) returns (r: WaitResult)
      requires Inv(stream) && NoTakes(gap.events)
      modifies this
      ensures Inv(stream) && (old(Single(stream)) ==> Single(stream))
      ensures stream.read == old(stream.read) + (if r.Got? then [r.m] else [])
      ensures var q := Run(old(stream), gap.events);
              match r
              case Got(m) => q.inbound != [] && m == q.inbound[0]
              case StreamClosed => stream.inboundCloses > 0 && stream.read == stream.accepted
              case TimedOut => gap.expired || (q.inbound == [] && q.inboundCloses == 0)
    {
      Pause(gap);
      if {
        case stream.inbound != [] =>
          var m := Receive();
          r := Got(m);
        case stream.inbound == [] && stream.inboundCloses > 0 =>
          r := StreamClosed;
        case gap.expired || (stream.inbound == [] && stream.inboundCloses == 0) =>
          r := TimedOut;
      }
    }

    /**
     Whichever ready branch each select takes, the frames collected are the unread accepted ones in order, and
     unless the context expired they are all that were accepted by then, and the session is closed.  After the only
     connection has closed, and with turns enough before the context expires, they are exactly the unread ones.
     */
    method CollectWS(gaps: seq<Gap>, tail: seq<Gap>) returns (out: seq<Message>, expired: bool)
      requires Inv(stream) && OnlyReader(gaps) && OnlyReader(tail)
      modifies this
      ensures Inv(stream) && (old(Single(stream)) ==> Single(stream))
      ensures stream.read == old(stream.read) + out
      ensures !expired ==> stream.closed && stream.inbound == [] && stream.read == stream.accepted
      ensures expired ==> |out| <= |gaps| && (|out| == |gaps| || ExpiresIn(old(stream), gaps, |out|))
      ensures old(Single(stream) && stream.closed) && |gaps| > |old(stream.inbound)| && NoneExpired(gaps) ==>
                !expired && out == old(stream.inbound)
    {
      out := [];
      for k := 0 to |gaps|
        invariant |out| == k && stream == Turned(old(stream), gaps, k)
        invariant stream.read == old(stream.read) + out
      {
        TurnedOk(old(stream), gaps, k);
        var turn := CollectTurn(gaps[k], tail);
        match turn {
          case More(m) =>
            out := out + [m];
          case Ended(rest) =>
            out := out + rest;
            AllUnread(old(stream), stream, out);
            return out, false;
          case GaveUp =>
            Between(Turned(old(stream), gaps, k), gaps[k].events);
            return out, true;
        }
      }
      TurnedOk(old(stream), gaps, |gaps|);
      TooManyTurns(old(stream), stream, out);
      return out, true;
    }

    /** One turn of the loop, whichever branch of its select is taken. */
    method CollectTurn(gap: Gap, tail: seq<Gap>) returns (r: Turn)
      requires Inv(stream) && NoTakes(gap.events) && OnlyReader(tail)
      modifies this
      ensures var q := Run(old(stream), gap.events);
              match r
              case More(m) => q.inbound != [] && m == q.inbound[0] && stream == Next(q, Take)
                              && stream.read == old(stream.read) + [m]
              case Ended(rest) => stream.closed && stream.inbound == [] && Inv(stream) && (old(Single(stream)) ==> Single(stream))
                                  && stream.read == old(stream.read) + rest
                                  && (old(Single(stream) && stream.closed) ==> stream.accepted == old(stream.accepted))
              case GaveUp => stream == q && stream.read == old(stream.read) && (gap.expired || (q.inbound == [] && !q.closed))
    {
      Pause(gap);
      if {
        case stream.inbound != [] =>
          var m := Receive();
          r := More(m);
        case stream.inbound == [] && stream.inboundCloses > 0 =>
          r := Ended([]);
        case stream.closed => // closedCh is ready
          var rest := DrainClosed(tail);
          r := Ended(rest);
        case gap.expired || (stream.inbound == [] && !stream.closed) =>
          r := GaveUp;
      }
    }

    /** The inner loop of CollectWS: after closedCh, take what is queued until the channel is empty or closed. */
    method DrainClosed(gaps: seq<Gap>) returns (out: seq<Message>)
      requires Inv(stream) && stream.closed && OnlyReader(gaps)
      modifies this
      ensures Inv(stream) && (old(Single(stream)) ==> Single(stream)) && stream.closed && stream.inbound == []
      ensures stream.read == old(stream.read) + out && stream.read == stream.accepted
      ensures old(Single(stream)) ==> stream.accepted == old(stream.accepted)
    {
      out := [];
      var k := 0;
      while true
        invariant Inv(stream) && (old(Single(stream)) ==> Single(stream)) && stream.closed && 0 <= k <= |gaps|
        invariant stream.read == old(stream.read) + out
        invariant old(Single(stream)) ==> stream.accepted == old(stream.accepted)
        decreases |gaps| - k, |stream.inbound|
      {
        if k < |gaps| {
          Pause(gaps[k]);
          k := k + 1;
        }
        if stream.inbound == [] {
          return;
        }
        var m := Receive();
        out := out + [m];
      }
    }
  }
}
