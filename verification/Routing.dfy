/**
 Routing of webhooks to test sessions (internal/webhook/registry.go, server.go, appws.go).

 The registry is a map from test ids to session objects and an index from call_sids to test ids, each access
 under one lock.  HTTP handlers and application WebSockets run concurrently, and a handler that routes and
 then records takes the lock several times; `Next` is one such atomic step.
 */
module Routing {
  import opened Basics

  type Id = string
  type Sid = string

  const ANON: Id := "_anon"
  const SHARED: Id := "shared"

  /** sessions names the current object of each registered test; names[o] is the test that object o was made for. */
  datatype Reg = Reg(sessions: map<Id, nat>, names: seq<Id>, index: map<Sid, Id>)

  function Made(r: Reg, id: Id): (r': Reg)
    ensures id in r'.sessions
  {
    if id in r.sessions then r
    else r.(sessions := r.sessions[id := |r.names|], names := r.names + [id])
  }

  function Released(r: Reg, id: Id): Reg {
    r.(sessions := r.sessions - {id})
  }

  function Bound(r: Reg, sid: Sid, id: Id): Reg {
    if sid == "" || id == "" || id == ANON then r else r.(index := r.index[sid := id])
  }

  /** LookupByCallSid: the call is bound and its session is still registered. */
  function OwnerOf(r: Reg, sid: Sid): Option<nat> {
    if sid != "" && sid in r.index && r.index[sid] in r.sessions then Some(r.sessions[r.index[sid]]) else None
  }

  // ---- goroutines ----

  datatype HookPc = LookupId | LookupSid | Create(id: Id) | Bind(obj: nat) | Recording(obj: nat) | HookDone

  /** An HTTP handler; missed says that it looked for its call_sid in vain. */
  datatype Hook = Hook(testID: Id, sid: Sid, pc: HookPc, missed: bool)

  datatype Frame = Frame(dataId: Id, sid: Sid)

  datatype ConnPc = Idle | TryPath | TryData | TrySid | CreateSession(id: Id) | BindFrame | Capture

  /** An application WebSocket; obj is its sticky session, frame the one being handled. */
  datatype Conn = Conn(path: Id, obj: Option<nat>, frame: Frame, pc: ConnPc)

  /** One recorded callback. */
  datatype Entry = Entry(obj: nat, sid: Sid, missed: bool)

  datatype World = World(reg: Reg, hooks: seq<Hook>, conns: seq<Conn>, log: seq<Entry>)

  datatype Event =
    | NewSession(id: Id)
    | ReleaseSession(id: Id)
    | Arrive(testID: Id, sid: Sid)
    | HookStep(i: nat)
    | Connect(path: Id)
    | Receive(c: nat, frame: Frame)
    | ConnStep(c: nat)

  datatype Done = Done(reg: Reg, hook: Hook, out: seq<Entry>)

  /** One step of a handler: what it does to the registry, to itself, and what it records. */
  function HookStepOf(r: Reg, h: Hook): Done {
    match h.pc
    case LookupId =>
      Done(r, h.(pc := if h.testID in r.sessions then Bind(r.sessions[h.testID]) else Create(h.testID)), [])
    case LookupSid =>
      var o := OwnerOf(r, h.sid);
      Done(r, h.(pc := if o.Some? then Recording(o.value) else Create(ANON), missed := o.None?), [])
    case Create(id) =>
      var r' := Made(r, id);
      var o := r'.sessions[id];
      Done(r', h.(pc := if h.testID != "" then Bind(o) else Recording(o)), [])
    case Bind(o) => Done(Bound(r, h.sid, h.testID), h.(pc := Recording(o)), [])
    case Recording(o) => Done(r, h.(pc := HookDone), [Entry(o, h.sid, h.missed)])
    case HookDone => Done(r, h, [])
  }

  function NextHook(w: World, i: nat): World
    requires i < |w.hooks|
  {
    var d := HookStepOf(w.reg, w.hooks[i]);
    w.(reg := d.reg, hooks := w.hooks[i := d.hook], log := w.log + d.out)
  }

  datatype ConnDone = ConnDone(reg: Reg, conn: Conn, out: seq<Entry>)

  /** One step of an application socket's loop. */
  function ConnStepOf(r: Reg, c: Conn): ConnDone {
    match c.pc
    case Idle => ConnDone(r, c, [])
    case TryPath =>
      ConnDone(r, if c.path != "" && c.path != SHARED && c.path in r.sessions
                  then c.(obj := Some(r.sessions[c.path]), pc := BindFrame) else c.(pc := TryData), [])
    case TryData =>
      ConnDone(r, if c.frame.dataId == "" then c.(pc := TrySid)
                  else if c.frame.dataId in r.sessions
                  then c.(obj := Some(r.sessions[c.frame.dataId]), pc := BindFrame)
                  else c.(pc := CreateSession(c.frame.dataId)), [])
    case TrySid =>
      var o := OwnerOf(r, c.frame.sid);
      ConnDone(r, if o.Some? then c.(obj := o, pc := BindFrame) else c.(pc := CreateSession(c.path)), [])
    case CreateSession(id) =>
      var r' := Made(r, id);
      ConnDone(r', c.(obj := Some(r'.sessions[id]), pc := BindFrame), [])
    case BindFrame =>
      if c.obj.Some? && c.obj.value < |r.names|
      then ConnDone(Bound(r, c.frame.sid, r.names[c.obj.value]), c.(pc := Capture), [])
      else ConnDone(r, c, [])
    case Capture =>
      if c.obj.Some?
      then ConnDone(r, c.(pc := Idle), [Entry(c.obj.value, c.frame.sid, false)])
      else ConnDone(r, c, [])
  }

  function NextConn(w: World, i: nat): World
    requires i < |w.conns|
  {
    var d := ConnStepOf(w.reg, w.conns[i]);
    w.(reg := d.reg, conns := w.conns[i := d.conn], log := w.log + d.out)
  }

  function Next(w: World, e: Event): World {
    match e
    case NewSession(id) => w.(reg := Made(w.reg, id))
    case ReleaseSession(id) => w.(reg := Released(w.reg, id))
    case Arrive(t, s) => w.(hooks := w.hooks + [Hook(t, s, if t != "" then LookupId else LookupSid, false)])
    case HookStep(i) => if i < |w.hooks| then NextHook(w, i) else w
    case Connect(path) => if path == "" then w else w.(conns := w.conns + [Conn(path, None, Frame("", ""), Idle)])
    case Receive(c, f) =>
      if c < |w.conns| && w.conns[c].pc == Idle
      then w.(conns := w.conns[c := w.conns[c].(frame := f, pc := if w.conns[c].obj.None? then TryPath else BindFrame)]) else w
    case ConnStep(c) => if c < |w.conns| then NextConn(w, c) else w
  }

  function Run(w: World, es: seq<Event>): World
    decreases es
  {
    if es == [] then w else Run(Next(w, es[0]), es[1..])
  }

  const EMPTY := World(Reg(map[], [], map[]), [], [], [])

  // ---- what callers promise ----

  /** The harness's convention: which test owns a call_sid, and which test the i-th application socket belongs to. */
  datatype Plan = Plan(owner: Sid -> Id, team: nat -> Id)

  /** The first frame of a socket identifies its test: by its path, or on the shared path by the id in its data. */
  predicate Identifies(path: Id, dataId: Id, team: Id) {
    || (path == team && path != SHARED && (dataId == "" || dataId == team))
    || (path == SHARED && dataId == team && team != "")
  }

  /** A call_sid travels with one test id only. */
  predicate Keeps(p: Plan, w: World, e: Event) {
    match e
    case Arrive(t, s) => t != "" && s != "" ==> p.owner(s) == t
    case Receive(c, f) =>
      c < |w.conns| ==>
        && (f.sid != "" ==> p.owner(f.sid) == p.team(c))
        && (w.conns[c].obj.None? ==> Identifies(w.conns[c].path, f.dataId, p.team(c)))
    case _ => true
  }

  predicate AllKeep(p: Plan, w: World, es: seq<Event>)
    decreases es
  {
    es == [] || (Keeps(p, w, es[0]) && AllKeep(p, Next(w, es[0]), es[1..]))
  }

  // ---- the invariant ----

  ghost predicate RegOk(p: Plan, r: Reg) {
    && (forall id :: id in r.sessions ==> r.sessions[id] < |r.names| && r.names[r.sessions[id]] == id)
    && (forall s :: s in r.index ==> s != "" && r.index[s] == p.owner(s) && r.index[s] != "" && r.index[s] != ANON)
  }

  ghost predicate Names(r: Reg, o: nat, id: Id) {
    o < |r.names| && r.names[o] == id
  }

  /** Where a callback with this call_sid may be recorded. */
  ghost predicate Proper(p: Plan, r: Reg, o: nat, sid: Sid, missed: bool) {
    && o < |r.names|
    && (sid != "" ==> if missed then r.names[o] == ANON else r.names[o] == p.owner(sid))
  }

  ghost predicate HookOk(p: Plan, r: Reg, h: Hook) {
    && (h.testID != "" && h.sid != "" ==> p.owner(h.sid) == h.testID)
    && match h.pc
       case LookupId => h.testID != "" && !h.missed
       case LookupSid => h.testID == "" && !h.missed
       case Create(id) => if h.testID != "" then id == h.testID && !h.missed else id == ANON && h.missed
       case Bind(o) => h.testID != "" && Names(r, o, h.testID) && !h.missed
       case Recording(o) => Proper(p, r, o, h.sid, h.missed)
       case HookDone => true
  }

  ghost predicate ConnOk(p: Plan, r: Reg, c: Conn, team: Id) {
    && (c.obj.Some? ==> Names(r, c.obj.value, team))
    && (c.frame.sid != "" ==> p.owner(c.frame.sid) == team)
    && match c.pc
       case Idle => true
       case TryPath => c.obj.None? && Identifies(c.path, c.frame.dataId, team)
       case TryData => c.obj.None? && Identifies(c.path, c.frame.dataId, team)
       case TrySid => c.obj.None? && Identifies(c.path, c.frame.dataId, team) && c.frame.dataId == ""
       case CreateSession(id) => c.obj.None? && id == team
       case BindFrame => c.obj.Some?
       case Capture => c.obj.Some?
  }

  ghost predicate Inv(p: Plan, w: World) {
    && RegOk(p, w.reg)
    && (forall i :: 0 <= i < |w.hooks| ==> HookOk(p, w.reg, w.hooks[i]))
    && (forall i :: 0 <= i < |w.conns| ==> ConnOk(p, w.reg, w.conns[i], p.team(i)))
    && (forall k :: 0 <= k < |w.log| ==> Proper(p, w.reg, w.log[k].obj, w.log[k].sid, w.log[k].missed))
  }

  /** Object numbers keep their names. */
  lemma InvGrows(p: Plan, w: World, r: Reg)
    requires Inv(p, w) && RegOk(p, r) && w.reg.names <= r.names
    ensures Inv(p, w.(reg := r))
  {
    forall i | 0 <= i < |w.hooks| ensures HookOk(p, r, w.hooks[i]) {
      assert HookOk(p, w.reg, w.hooks[i]);
    }
    forall i | 0 <= i < |w.conns| ensures ConnOk(p, r, w.conns[i], p.team(i)) {
      assert ConnOk(p, w.reg, w.conns[i], p.team(i));
    }
  }

  lemma InvHookStep(p: Plan, w: World, i: nat)
    requires Inv(p, w) && i < |w.hooks|
    ensures Inv(p, NextHook(w, i))
  {
    var h, w' := w.hooks[i], NextHook(w, i);
    assert HookOk(p, w.reg, h);
    if h.pc.Create? {
      InvGrows(p, w, Made(w.reg, h.pc.id));
    } else if h.pc.Bind? {
      InvGrows(p, w, Bound(w.reg, h.sid, h.testID));
    }
    assert HookOk(p, w'.reg, w'.hooks[i]);
    assert forall j :: 0 <= j < |w.hooks| && j != i ==> w'.hooks[j] == w.hooks[j];
  }

  lemma InvConnStep(p: Plan, w: World, i: nat)
    requires Inv(p, w) && i < |w.conns|
    ensures Inv(p, NextConn(w, i))
  {
    var c, w' := w.conns[i], NextConn(w, i);
    assert ConnOk(p, w.reg, c, p.team(i));
    if c.pc.CreateSession? {
      InvGrows(p, w, Made(w.reg, c.pc.id));
    } else if c.pc.BindFrame? {
      InvGrows(p, w, Bound(w.reg, c.frame.sid, w.reg.names[c.obj.value]));
    }
    assert ConnOk(p, w'.reg, w'.conns[i], p.team(i));
    assert forall j :: 0 <= j < |w.conns| && j != i ==> w'.conns[j] == w.conns[j];
  }

  lemma InvStep(p: Plan, w: World, e: Event)
    requires Inv(p, w) && Keeps(p, w, e)
    ensures Inv(p, Next(w, e))
  {
    match e
    case NewSession(id) => InvGrows(p, w, Made(w.reg, id));
    case ReleaseSession(id) => InvGrows(p, w, Released(w.reg, id));
    case HookStep(i) =>
      if i < |w.hooks| {
        InvHookStep(p, w, i);
      }
    case ConnStep(c) =>
      if c < |w.conns| {
        InvConnStep(p, w, c);
      }
    case Receive(c, f) =>
      if c < |w.conns| {
        assert ConnOk(p, w.reg, w.conns[c], p.team(c));
      }
    case _ =>
  }

  lemma {:induction false} Invariant(p: Plan, w: World, es: seq<Event>)
    requires Inv(p, w) && AllKeep(p, w, es)
    ensures Inv(p, Run(w, es))
    decreases es
  {
    if es != [] {
      InvStep(p, w, es[0]);
      Invariant(p, Next(w, es[0]), es[1..]);
    }
  }

  /**
   Over every interleaving in which a call_sid travels with one test id: a callback with that call_sid is in its
   test's session, except exactly when its handler had no test id and looked for the call_sid in vain; then it is
   in the anonymous session.  The index maps no call to the empty id or to the anonymous session.
   */
  lemma RoutedHome(p: Plan, es: seq<Event>)
    requires AllKeep(p, EMPTY, es)
    ensures var w := Run(EMPTY, es);
            && (forall k :: 0 <= k < |w.log| && w.log[k].sid != "" ==>
                  && w.log[k].obj < |w.reg.names|
                  && w.reg.names[w.log[k].obj] == if w.log[k].missed then ANON else p.owner(w.log[k].sid))
            && (forall s :: s in w.reg.index ==> s != "" && w.reg.index[s] == p.owner(s) && w.reg.index[s] != "" && w.reg.index[s] != ANON)
  {
    Invariant(p, EMPTY, es);
  }

  /** A lookup is in vain exactly when at that moment the call is not bound or its session is not registered. */
  lemma MissesOnlyUnbound(p: Plan, w: World, i: nat)
    requires Inv(p, w) && i < |w.hooks| && w.hooks[i].pc == LookupSid && w.hooks[i].sid != ""
    ensures var s := w.hooks[i].sid;
            Next(w, HookStep(i)).hooks[i].missed <==> s !in w.reg.index || p.owner(s) !in w.reg.sessions
  {
    assert HookOk(p, w.reg, w.hooks[i]);
  }

  /**
   Routing and recording are separate steps, so "never in _anon once the binding exists" holds for the moment of
   the lookup and not for the moment of the recording: a hook that found no binding records in _anon although
   another hook has bound the call to a registered session in between.
   */
  lemma BoundWhileRecordingInAnon()
    ensures var w := Run(EMPTY, ANON_RACE);
            && AllKeep(Plan(s => "t", i => "t"), EMPTY, ANON_RACE)
            && OwnerOf(w.reg, "c").Some? && w.reg.names == ["t", ANON] && w.log == [Entry(1, "c", true)]
  {
    var p := Plan(s => "t", i => "t");
    var h0 := HookStep(0);
    AnonRaceStart(p);
    var w6 := Run(EMPTY, ANON_RACE[..6]);
    AnonRaceEnd(w6);
    RunCons(p, Next(w6, h0), h0, []);
    RunCons(p, w6, h0, [h0]);
    assert ANON_RACE == ANON_RACE[..6] + ([h0] + [h0]);
    RunSplit(p, EMPTY, ANON_RACE[..6], [h0] + [h0]);
  }

  lemma AnonRaceStart(p: Plan)
    requires p.owner("c") == "t"
    ensures var w6 := Run(EMPTY, ANON_RACE[..6]);
            && AllKeep(p, EMPTY, ANON_RACE[..6])
            && w6.reg == Reg(map["t" := 0], ["t"], map["c" := "t"]) && w6.log == []
            && |w6.hooks| == 2 && w6.hooks[0] == Hook("", "c", Create(ANON), true)
  {
    var late, first, h0, h1 := Arrive("", "c"), Arrive("t", "c"), HookStep(0), HookStep(1);
    var w1 := Next(EMPTY, late);
    var w2 := Next(w1, h0);
    assert w2 == World(EMPTY.reg, [Hook("", "c", Create(ANON), true)], [], []);
    var w3 := Next(w2, first);
    var w4 := Next(w3, h1);
    assert w4 == World(EMPTY.reg, [Hook("", "c", Create(ANON), true), Hook("t", "c", Create("t"), false)], [], []);
    var w5 := Next(w4, h1);
    assert w5 == World(Reg(map["t" := 0], ["t"], map[]), [Hook("", "c", Create(ANON), true), Hook("t", "c", Bind(0), false)], [], []);
    var w6 := Next(w5, h1);
    RunCons(p, w5, h1, []);
    RunCons(p, w4, h1, [h1]);
    RunCons(p, w3, h1, [h1] + [h1]);
    RunCons(p, w2, first, [h1] + ([h1] + [h1]));
    RunCons(p, w1, h0, [first] + ([h1] + ([h1] + [h1])));
    RunCons(p, EMPTY, late, [h0] + ([first] + ([h1] + ([h1] + [h1]))));
    assert [late] + ([h0] + ([first] + ([h1] + ([h1] + [h1])))) == ANON_RACE[..6];
  }

  const ANON_RACE: seq<Event> :=
    [Arrive("", "c"), HookStep(0), Arrive("t", "c"), HookStep(1), HookStep(1), HookStep(1), HookStep(0), HookStep(0)]

  lemma AnonRaceEnd(w6: World)
    requires w6.reg.sessions == map["t" := 0] && w6.reg.names == ["t"] && w6.reg.index == map["c" := "t"] && w6.log == []
    requires |w6.hooks| == 2 && w6.hooks[0] == Hook("", "c", Create(ANON), true)
    ensures var w := Next(Next(w6, HookStep(0)), HookStep(0));
            OwnerOf(w.reg, "c").Some? && w.reg.names == ["t", ANON] && w.log == [Entry(1, "c", true)]
  {
    assert ANON != "t";
  }

  lemma {:induction false} RunSplit(p: Plan, w: World, es: seq<Event>, fs: seq<Event>)
    ensures Run(w, es + fs) == Run(Run(w, es), fs)
    ensures AllKeep(p, w, es + fs) <==> AllKeep(p, w, es) && AllKeep(p, Run(w, es), fs)
    decreases es
  {
    if es == [] {
      assert es + fs == fs;
    } else {
      assert (es + fs)[1..] == es[1..] + fs;
      RunSplit(p, Next(w, es[0]), es[1..], fs);
    }
  }

  lemma RunCons(p: Plan, w: World, e: Event, es: seq<Event>)
    ensures Run(w, [e] + es) == Run(Next(w, e), es)
    ensures AllKeep(p, w, [e] + es) <==> Keeps(p, w, e) && AllKeep(p, Next(w, e), es)
  {
    assert ([e] + es)[1..] == es;
  }

  // ---- once a call is bound ----

  /** The call is bound and its test's session is registered. */
  ghost predicate SafelyBound(p: Plan, w: World, s: Sid) {
    s != "" && s in w.reg.index && p.owner(s) in w.reg.sessions
  }

  /** Handler i looked for the call in vain and has not recorded yet. */
  predicate Straggles(h: Hook, s: Sid) {
    h.sid == s && h.missed && h.pc != HookDone
  }

  ghost predicate Straggler(w: World, s: Sid) {
    exists i :: 0 <= i < |w.hooks| && Straggles(w.hooks[i], s)
  }

  ghost predicate NeverReleased(id: Id, es: seq<Event>) {
    forall i :: 0 <= i < |es| ==> es[i] != ReleaseSession(id)
  }

  /** Some callback with this call_sid beyond the first `from` entries was recorded in the anonymous session. */
  ghost predicate AnonAfter(log: seq<Entry>, from: nat, s: Sid) {
    exists k :: from <= k < |log| && log[k].sid == s && log[k].missed
  }

  ghost predicate StaysHome(p: Plan, w: World, s: Sid) {
    forall es :: AllKeep(p, w, es) && NeverReleased(p.owner(s), es) ==> !AnonAfter(Run(w, es).log, |w.log|, s)
  }

  lemma BoundStep(p: Plan, w: World, s: Sid, e: Event)
    requires Inv(p, w) && Keeps(p, w, e) && SafelyBound(p, w, s) && e != ReleaseSession(p.owner(s))
    ensures SafelyBound(p, Next(w, e), s)
  {
    InvStep(p, w, e);
  }

  lemma NoNewStraggler(p: Plan, w: World, s: Sid, e: Event)
    requires Inv(p, w) && SafelyBound(p, w, s) && !Straggler(w, s)
    ensures !Straggler(Next(w, e), s)
    ensures !AnonAfter(Next(w, e).log, |w.log|, s)
  {
    if e.HookStep? && e.i < |w.hooks| {
      assert HookOk(p, w.reg, w.hooks[e.i]);
      assert !Straggles(w.hooks[e.i], s);
      assert !Straggles(NextHook(w, e.i).hooks[e.i], s);
    }
    var w' := Next(w, e);
    forall i | 0 <= i < |w'.hooks| ensures !Straggles(w'.hooks[i], s) {
      if i < |w.hooks| && w'.hooks[i] == w.hooks[i] {
        assert !Straggles(w.hooks[i], s);
      }
    }
  }

  lemma LogGrows(w: World, e: Event)
    ensures w.log <= Next(w, e).log
  {
  }

  lemma {:induction false} HomeRun(p: Plan, w: World, s: Sid, es: seq<Event>, from: nat)
    requires Inv(p, w) && AllKeep(p, w, es) && NeverReleased(p.owner(s), es) && SafelyBound(p, w, s) && !Straggler(w, s)
    requires from <= |w.log| && !AnonAfter(w.log, from, s)
    ensures !AnonAfter(Run(w, es).log, from, s)
    decreases es
  {
    if es != [] {
      var w' := Next(w, es[0]);
      InvStep(p, w, es[0]);
      BoundStep(p, w, s, es[0]);
      NoNewStraggler(p, w, s, es[0]);
      LogGrows(w, es[0]);
      forall k | from <= k < |w'.log| ensures !(w'.log[k].sid == s && w'.log[k].missed) {
        assert k < |w.log| ==> w'.log[k] == w.log[k];
      }
      assert NeverReleased(p.owner(s), es[1..]);
      HomeRun(p, w', s, es[1..], from);
    }
  }

  /** Left alone, a straggler records in the anonymous session. */
  lemma StragglerRecords(p: Plan, w: World, s: Sid, i: nat) returns (es: seq<Event>)
    requires Inv(p, w) && i < |w.hooks| && Straggles(w.hooks[i], s)
    ensures AllKeep(p, w, es) && NeverReleased(p.owner(s), es) && AnonAfter(Run(w, es).log, |w.log|, s)
  {
    var e := HookStep(i);
    var w1 := Next(w, e);
    assert HookOk(p, w.reg, w.hooks[i]);
    RunCons(p, w, e, []);
    es := [e];
    if w.hooks[i].pc.Recording? {
      assert [e] + [] == es;
      assert Run(w, es).log[|w.log|] == Entry(w.hooks[i].pc.obj, s, true);
    } else {
      RunCons(p, w1, e, []);
      RunCons(p, w, e, [e]);
      es := [e] + [e];
      assert Run(w, es).log[|w.log|] == Entry(w1.hooks[i].pc.obj, s, true);
    }
  }

  /**
   Once a call is bound and while its session is not released, none of its callbacks goes to the anonymous session,
   in any interleaving, exactly when no handler has already looked for the call in vain without having recorded.
   */
  lemma HomeOnceBoundIff(p: Plan, w: World, s: Sid)
    requires Inv(p, w) && SafelyBound(p, w, s)
    ensures StaysHome(p, w, s) <==> !Straggler(w, s)
  {
    if i :| 0 <= i < |w.hooks| && Straggles(w.hooks[i], s) {
      var es := StragglerRecords(p, w, s, i);
    } else {
      forall es | AllKeep(p, w, es) && NeverReleased(p.owner(s), es) ensures !AnonAfter(Run(w, es).log, |w.log|, s) {
        HomeRun(p, w, s, es, |w.log|);
      }
    }
  }

  // ---- the sequential code ----

  datatype Route = Route(reg: Reg, obj: nat)

  /** sessionFor without interference. */
  function RouteAlone(r: Reg, testID: Id, sid: Sid): Route {
    var o := OwnerOf(r, sid);
    if testID != "" then Route(Bound(Made(r, testID), sid, testID), Made(r, testID).sessions[testID])
    else if o.Some? then Route(r, o.value)
    else Route(Made(r, ANON), Made(r, ANON).sessions[ANON])
  }

  function FiveSteps(w: World, a: Event, s: Event): World {
    Next(Next(Next(Next(Next(w, a), s), s), s), s)
  }

  lemma FiveStepsRun(w: World, a: Event, s: Event)
    ensures Run(w, [a, s, s, s, s]) == FiveSteps(w, a, s)
  {
    var p := Plan(x => "", j => "");
    var w1 := Next(w, a);
    var w2 := Next(w1, s);
    var w3 := Next(w2, s);
    var w4 := Next(w3, s);
    RunCons(p, w4, s, []);
    RunCons(p, w3, s, [s]);
    RunCons(p, w2, s, [s] + [s]);
    RunCons(p, w1, s, [s] + ([s] + [s]));
    RunCons(p, w, a, [s] + ([s] + ([s] + [s])));
    assert [a] + ([s] + ([s] + ([s] + [s]))) == [a, s, s, s, s];
  }

  lemma StepOfLast(r: Reg, hs: seq<Hook>, h: Hook, cs: seq<Conn>, log: seq<Entry>)
    ensures var d := HookStepOf(r, h);
            Next(World(r, hs + [h], cs, log), HookStep(|hs|)) == World(d.reg, hs + [d.hook], cs, log + d.out)
  {
    assert (hs + [h])[|hs| := HookStepOf(r, h).hook] == hs + [HookStepOf(r, h).hook];
  }

  /** A handler that nothing interrupts routes as sessionFor does and records once, there. */
  lemma AloneIsARun(w: World, testID: Id, sid: Sid)
    ensures var s, route, missed := HookStep(|w.hooks|), RouteAlone(w.reg, testID, sid), testID == "" && OwnerOf(w.reg, sid).None?;
            Run(w, [Arrive(testID, sid), s, s, s, s]) ==
            World(route.reg, w.hooks + [Hook(testID, sid, HookDone, missed)], w.conns, w.log + [Entry(route.obj, sid, missed)])
  {
    var s := HookStep(|w.hooks|);
    var h1 := Hook(testID, sid, if testID != "" then LookupId else LookupSid, false);
    var d2 := HookStepOf(w.reg, h1);
    var d3 := HookStepOf(d2.reg, d2.hook);
    var d4 := HookStepOf(d3.reg, d3.hook);
    var d5 := HookStepOf(d4.reg, d4.hook);
    FiveStepsRun(w, Arrive(testID, sid), s);
    StepOfLast(w.reg, w.hooks, h1, w.conns, w.log);
    StepOfLast(d2.reg, w.hooks, d2.hook, w.conns, w.log + d2.out);
    StepOfLast(d3.reg, w.hooks, d3.hook, w.conns, w.log + d2.out + d3.out);
    StepOfLast(d4.reg, w.hooks, d4.hook, w.conns, w.log + d2.out + d3.out + d4.out);
    DoneAlone(w.reg, testID, sid, d2, d3, d4, d5);
    Regroup(w.log, d2.out, d3.out, d4.out, d5.out);
  }

  lemma Regroup(a: seq<Entry>, b: seq<Entry>, c: seq<Entry>, d: seq<Entry>, e: seq<Entry>)
    ensures a + b + c + d + e == a + (b + c + d + e)
  {
  }

  lemma DoneAlone(r: Reg, testID: Id, sid: Sid, d2: Done, d3: Done, d4: Done, d5: Done)
    requires d2 == HookStepOf(r, Hook(testID, sid, if testID != "" then LookupId else LookupSid, false))
    requires d3 == HookStepOf(d2.reg, d2.hook) && d4 == HookStepOf(d3.reg, d3.hook) && d5 == HookStepOf(d4.reg, d4.hook)
    ensures var missed := testID == "" && OwnerOf(r, sid).None?;
            && d5.reg == RouteAlone(r, testID, sid).reg && d5.hook == Hook(testID, sid, HookDone, missed)
            && d2.out + d3.out + d4.out + d5.out == [Entry(RouteAlone(r, testID, sid).obj, sid, missed)]
  {
  }

  /** resolveAppWSSession without interference. */
  function ResolveAlone(r: Reg, path: Id, frame: Frame): Route {
    if path != "" && path != SHARED && path in r.sessions then Route(r, r.sessions[path])
    else if frame.dataId != "" then Route(Made(r, frame.dataId), Made(r, frame.dataId).sessions[frame.dataId])
    else if OwnerOf(r, frame.sid).Some? then Route(r, OwnerOf(r, frame.sid).value)
    else Route(Made(r, path), Made(r, path).sessions[path])
  }

  /** n steps of a socket's loop with nothing in between. */
  function Handled(r: Reg, c: Conn, n: nat): ConnDone
    decreases n
  {
    if n == 0 then ConnDone(r, c, [])
    else
      var d := ConnStepOf(r, c);
      var rest := Handled(d.reg, d.conn, n - 1);
      ConnDone(rest.reg, rest.conn, d.out + rest.out)
  }

  function Turns(i: nat, n: nat): seq<Event> {
    if n == 0 then [] else [ConnStep(i)] + Turns(i, n - 1)
  }

  lemma {:induction false} TurnsHandle(w: World, i: nat, n: nat)
    requires i < |w.conns|
    ensures var d := Handled(w.reg, w.conns[i], n);
            Run(w, Turns(i, n)) == w.(reg := d.reg, conns := w.conns[i := d.conn], log := w.log + d.out)
    decreases n
  {
    if n == 0 {
      assert w.conns[i := w.conns[i]] == w.conns && w.log + [] == w.log;
    } else {
      var d := ConnStepOf(w.reg, w.conns[i]);
      var rest := Handled(d.reg, d.conn, n - 1);
      assert Turns(i, n)[1..] == Turns(i, n - 1);
      TurnsHandle(NextConn(w, i), i, n - 1);
      Twice(w.conns, i, d.conn, rest.conn);
      Gather(w.log, d.out, rest.out);
    }
  }

  lemma Twice(conns: seq<Conn>, i: nat, c: Conn, d: Conn)
    requires i < |conns|
    ensures conns[i := c][i := d] == conns[i := d] && conns[i := c][i] == c
  {
  }

  lemma Gather(a: seq<Entry>, b: seq<Entry>, c: seq<Entry>)
    ensures a + b + c == a + (b + c)
  {
  }

  lemma {:induction false} IdleStays(r: Reg, c: Conn, n: nat)
    requires c.pc == Idle
    ensures Handled(r, c, n) == ConnDone(r, c, [])
  {
    if n > 0 {
      IdleStays(r, c, n - 1);
    }
  }

  /** Once a session is chosen, the frame's call is bound to its test, and the callback is recorded in it. */
  lemma BoundAndCaptured(r: Reg, c: Conn, n: nat)
    requires c.pc == BindFrame && c.obj.Some? && c.obj.value < |r.names| && n >= 2
    ensures Handled(r, c, n) == ConnDone(Bound(r, c.frame.sid, r.names[c.obj.value]), c.(pc := Idle),
                                         [Entry(c.obj.value, c.frame.sid, false)])
  {
    var d := ConnStepOf(r, c);
    var e := ConnStepOf(d.reg, d.conn);
    IdleStays(e.reg, e.conn, n - 2);
    assert Handled(d.reg, d.conn, n - 1) == ConnDone(e.reg, e.conn, e.out + []);
  }

  /** All registered objects have a name. */
  ghost predicate Named(r: Reg) {
    forall id :: id in r.sessions ==> r.sessions[id] < |r.names|
  }

  /** What handling a frame comes to once its session is known. */
  function Settled(route: Route, c: Conn): ConnDone
    requires route.obj < |route.reg.names|
  {
    ConnDone(Bound(route.reg, c.frame.sid, route.reg.names[route.obj]), c.(obj := Some(route.obj), pc := Idle),
             [Entry(route.obj, c.frame.sid, false)])
  }

  lemma SettledFromCreate(r: Reg, c: Conn, id: Id, n: nat)
    requires Named(r) && c.pc == CreateSession(id) && n >= 3
    ensures Made(r, id).sessions[id] < |Made(r, id).names|
    ensures Handled(r, c, n) == Settled(Route(Made(r, id), Made(r, id).sessions[id]), c)
  {
    SilentStep(r, c, n - 1);
    BoundAndCaptured(ConnStepOf(r, c).reg, ConnStepOf(r, c).conn, n - 1);
  }

  lemma SettledFromSid(r: Reg, c: Conn, n: nat)
    requires Named(r) && c.pc == TrySid && n >= 4
    ensures var o := OwnerOf(r, c.frame.sid);
            var route := if o.Some? then Route(r, o.value) else Route(Made(r, c.path), Made(r, c.path).sessions[c.path]);
            route.obj < |route.reg.names| && Handled(r, c, n) == Settled(route, c)
  {
    SilentStep(r, c, n - 1);
    var d := ConnStepOf(r, c).conn;
    if OwnerOf(r, c.frame.sid).Some? {
      BoundAndCaptured(r, d, n - 1);
    } else {
      SettledFromCreate(r, d, c.path, n - 1);
    }
  }

  lemma SettledFromData(r: Reg, c: Conn, n: nat)
    requires Named(r) && c.pc == TryData && n >= 5
    ensures var o, id := OwnerOf(r, c.frame.sid), c.frame.dataId;
            var route := if id != "" then Route(Made(r, id), Made(r, id).sessions[id])
                         else if o.Some? then Route(r, o.value) else Route(Made(r, c.path), Made(r, c.path).sessions[c.path]);
            route.obj < |route.reg.names| && Handled(r, c, n) == Settled(route, c)
  {
    SilentStep(r, c, n - 1);
    var d := ConnStepOf(r, c).conn;
    if c.frame.dataId == "" {
      SettledFromSid(r, d, n - 1);
    } else if c.frame.dataId in r.sessions {
      BoundAndCaptured(r, d, n - 1);
    } else {
      SettledFromCreate(r, d, c.frame.dataId, n - 1);
    }
  }

  lemma SettledFromPath(r: Reg, c: Conn, n: nat)
    requires Named(r) && c.pc == TryPath && n >= 6
    ensures var route := ResolveAlone(r, c.path, c.frame);
            route.obj < |route.reg.names| && Handled(r, c, n) == Settled(route, c)
  {
    SilentStep(r, c, n - 1);
    var d := ConnStepOf(r, c).conn;
    if c.path != "" && c.path != SHARED && c.path in r.sessions {
      BoundAndCaptured(r, d, n - 1);
    } else {
      SettledFromData(r, d, n - 1);
    }
  }

  lemma SilentStep(r: Reg, c: Conn, n: nat)
    requires c.pc != Capture
    ensures Handled(r, c, n + 1) == Handled(ConnStepOf(r, c).reg, ConnStepOf(r, c).conn, n)
  {
    var d := ConnStepOf(r, c);
    assert d.out == [] && [] + Handled(d.reg, d.conn, n).out == Handled(d.reg, d.conn, n).out;
  }

  /**
   The first frame of a new socket, when nothing interrupts it: the session is the one its path names if that is
   registered, else the one its data names, else the one its call is bound to, else a new one under the path; the call
   is bound to that session's test, the callback recorded there, and the socket keeps the session.
   */
  lemma FirstFrameAlone(w: World, path: Id, frame: Frame, n: nat)
    requires path != "" && Named(w.reg) && n >= 6
    ensures var i, route := |w.conns|, ResolveAlone(w.reg, path, frame);
            && route.obj < |route.reg.names|
            && Run(w, [Connect(path)] + ([Receive(i, frame)] + Turns(i, n))) ==
                 World(Bound(route.reg, frame.sid, route.reg.names[route.obj]), w.hooks,
                       w.conns + [Conn(path, Some(route.obj), frame, Idle)], w.log + [Entry(route.obj, frame.sid, false)])
  {
    var i := |w.conns|;
    Arrived(w, path, frame, Turns(i, n));
    var c := Conn(path, None, frame, TryPath);
    SettledFromPath(w.reg, c, n);
    var w2 := w.(conns := w.conns + [c]);
    TurnsHandle(w2, i, n);
    assert w2.conns[i := Handled(w.reg, c, n).conn] == w.conns + [Handled(w.reg, c, n).conn];
  }

  lemma Arrived(w: World, path: Id, frame: Frame, es: seq<Event>)
    requires path != ""
    ensures Run(w, [Connect(path)] + ([Receive(|w.conns|, frame)] + es)) == Run(w.(conns := w.conns + [Conn(path, None, frame, TryPath)]), es)
  {
    var p := Plan(x => "", j => "");
    var i := |w.conns|;
    var w1 := Next(w, Connect(path));
    RunCons(p, w, Connect(path), [Receive(i, frame)] + es);
    RunCons(p, w1, Receive(i, frame), es);
    assert Next(w1, Receive(i, frame)).conns == w.conns + [Conn(path, None, frame, TryPath)];
  }

  /** A later frame of the socket: its call is bound to the session the socket has, and its callback recorded there. */
  lemma LaterFrameAlone(w: World, i: nat, frame: Frame, n: nat)
    requires i < |w.conns| && w.conns[i].pc == Idle && w.conns[i].obj.Some? && w.conns[i].obj.value < |w.reg.names| && n >= 2
    ensures var o := w.conns[i].obj.value;
            Run(w, [Receive(i, frame)] + Turns(i, n)) ==
              World(Bound(w.reg, frame.sid, w.reg.names[o]), w.hooks, w.conns[i := w.conns[i].(frame := frame)],
                    w.log + [Entry(o, frame.sid, false)])
  {
    var p := Plan(x => "", j => "");
    var w1 := Next(w, Receive(i, frame));
    RunCons(p, w, Receive(i, frame), Turns(i, n));
    BoundAndCaptured(w.reg, w1.conns[i], n);
    TurnsHandle(w1, i, n);
    assert w1.conns[i := w.conns[i].(frame := frame)] == w.conns[i := w.conns[i].(frame := frame)];
  }

  /** A released session is not found again, by its id or by a call bound to it, until it is made anew. */
  lemma ReleasedIsGone(w: World, id: Id, sid: Sid)
    ensures var r := Next(w, ReleaseSession(id)).reg;
            && id !in r.sessions && r.index == w.reg.index
            && (sid in r.index && r.index[sid] == id ==> OwnerOf(r, sid).None?)
            && (sid in r.index && r.index[sid] != id ==> OwnerOf(r, sid) == OwnerOf(w.reg, sid))
  {
  }

  class Registry {
    var sessions: map<Id, nat>
    var callSidIndex: map<Sid, Id>
    var names: seq<Id>

    ghost function View(): Reg
      reads this
    {
      Reg(sessions, names, callSidIndex)
    }

    constructor ()
      ensures View() == EMPTY.reg
    {
      sessions, callSidIndex, names := map[], map[], [];
    }

    method BindCallSid(callSid: Sid, testID: Id)
      modifies this
      ensures View() == Bound(old(View()), callSid, testID)
    {
      if callSid == "" || testID == "" || testID == ANON {
        return;
      }
      callSidIndex := callSidIndex[callSid := testID];
    }

    method LookupByCallSid(callSid: Sid) returns (s: Option<nat>)
      ensures s == OwnerOf(View(), callSid)
    {
      if callSid == "" {
        return None;
      }
      if callSid !in callSidIndex {
        return None;
      }
      var testID := callSidIndex[callSid];
      if testID in sessions {
        return Some(sessions[testID]);
      }
      return None;
    }

    method New(testID: Id) returns (s: nat)
      modifies this
      ensures View() == Made(old(View()), testID)
      ensures testID in sessions && s == sessions[testID]
    {
      if testID in sessions {
        return sessions[testID];
      }
      s := |names|;
      names := names + [testID];
      sessions := sessions[testID := s];
    }

    method Release(testID: Id)
      modifies this
      ensures View() == Released(old(View()), testID)
    {
      sessions := sessions - {testID};
    }

    method Lookup(testID: Id) returns (s: Option<nat>)
      ensures s == if testID in sessions then Some(sessions[testID]) else None
    {
      if testID in sessions {
        return Some(sessions[testID]);
      }
      return None;
    }

    /** Server.sessionFor */
    method SessionFor(testID: Id, callSid: Sid) returns (s: nat)
      modifies this
      ensures RouteAlone(old(View()), testID, callSid) == Route(View(), s)
    {
      if testID != "" {
        var found := Lookup(testID);
        if found.Some? {
          BindCallSid(callSid, testID);
          return found.value;
        }
        s := New(testID);
        BindCallSid(callSid, testID);
        return;
      }
      var bound := LookupByCallSid(callSid);
      if bound.Some? {
        return bound.value;
      }
      s := New(ANON);
    }

    /** Server.resolveAppWSSession */
    method ResolveAppWSSession(path: Id, frame: Frame) returns (s: nat)
      modifies this
      ensures ResolveAlone(old(View()), path, frame) == Route(View(), s)
    {
      if path != "" && path != SHARED {
        var found := Lookup(path);
        if found.Some? {
          return found.value;
        }
      }
      if frame.dataId != "" {
        var found := Lookup(frame.dataId);
        if found.Some? {
          return found.value;
        }
        s := New(frame.dataId);
        return;
      }
      if frame.sid != "" {
        var bound := LookupByCallSid(frame.sid);
        if bound.Some? {
          return bound.value;
        }
      }
      s := New(path);
    }
  }
}
