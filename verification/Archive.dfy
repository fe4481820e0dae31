/**
 Archiving recordings under stable names (internal/recording/archive.go): sanitize, the name reservation, and
 what survives when many goroutines archive at once.
 */
module Archive {
  import opened Basics
  import opened Numerals
  import opened Strings

  // ---- sanitize ----

  predicate IsSafe(c: char) {
    'A' <= c <= 'Z' || 'a' <= c <= 'z' || '0' <= c <= '9' || c == '.' || c == '_' || c == '-'
  }

  predicate IsEdge(c: char) {
    c == '-' || c == '.'
  }

  function ReplaceSlashes(s: string): string {
    if s == [] then [] else [if s[0] == '/' then '-' else s[0]] + ReplaceSlashes(s[1..])
  }

  /** Every maximal run of unsafe characters becomes one dash. */
  function ReplaceUnsafe(s: string, inRun: bool): string {
    if s == [] then []
    else if IsSafe(s[0]) then [s[0]] + ReplaceUnsafe(s[1..], false)
    else (if inRun then [] else ['-']) + ReplaceUnsafe(s[1..], true)
  }

  function Sanitize(s: string): string {
    var t := Trim(ReplaceUnsafe(ReplaceSlashes(TrimSpace(s)), false), c => IsEdge(c));
    if t == [] then "leg" else t
  }

  ghost predicate AllSafe(s: string) {
    forall i :: 0 <= i < |s| ==> IsSafe(s[i])
  }

  /** A non-empty path segment without separators and without a dash or dot at either end. */
  ghost predicate Clean(s: string) {
    s != [] && AllSafe(s) && !IsEdge(s[0]) && !IsEdge(s[|s| - 1])
  }

  lemma {:induction false} TrimLeftSafe(s: string, drop: char -> bool)
    requires AllSafe(s)
    ensures AllSafe(TrimLeft(s, drop)) && (TrimLeft(s, drop) != [] ==> !drop(TrimLeft(s, drop)[0]))
  {
    if s != [] && drop(s[0]) {
      TrimLeftSafe(s[1..], drop);
    }
  }

  lemma {:induction false} TrimRightSafe(s: string, drop: char -> bool)
    requires AllSafe(s)
    ensures AllSafe(TrimRight(s, drop))
    ensures TrimRight(s, drop) != [] ==> !drop(TrimRight(s, drop)[|TrimRight(s, drop)| - 1]) && TrimRight(s, drop)[0] == s[0]
  {
    if s != [] && drop(s[|s| - 1]) {
      TrimRightSafe(s[..|s| - 1], drop);
    }
  }

  lemma {:induction false} ReplaceUnsafeSafe(s: string, inRun: bool)
    ensures AllSafe(ReplaceUnsafe(s, inRun))
    ensures AllSafe(s) ==> ReplaceUnsafe(s, inRun) == s && ReplaceSlashes(s) == s
  {
    if s != [] {
      ReplaceUnsafeSafe(s[1..], !IsSafe(s[0]));
      if AllSafe(s) {
        assert AllSafe(s[1..]) && IsSafe(s[0]);
        ReplaceUnsafeSafe(s[1..], false);
      }
    }
  }

  /** The names that sanitize leaves alone are exactly the clean ones, everything becomes one, and so twice is once. */
  lemma SanitizeIsProjection(s: string)
    ensures Clean(Sanitize(s))
    ensures Sanitize(s) == s <==> Clean(s)
    ensures Sanitize(Sanitize(s)) == Sanitize(s)
  {
    SanitizeCleans(s);
    if Clean(s) {
      CleanIsKept(s);
    }
    CleanIsKept(Sanitize(s));
  }

  lemma SanitizeCleans(s: string)
    ensures Clean(Sanitize(s))
  {
    var u := ReplaceUnsafe(ReplaceSlashes(TrimSpace(s)), false);
    ReplaceUnsafeSafe(ReplaceSlashes(TrimSpace(s)), false);
    var drop := c => IsEdge(c);
    TrimLeftSafe(u, drop);
    TrimRightSafe(TrimLeft(u, drop), drop);
  }

  lemma CleanIsKept(s: string)
    requires Clean(s)
    ensures Sanitize(s) == s
  {
    assert IsSafe(s[0]) && IsSafe(s[|s| - 1]);
    ReplaceUnsafeSafe(s, false);
  }

  /** What a name says: its letters, digits and underscores. */
  function WordPart(s: string): string {
    if s == [] then [] else WordPart(s[..|s| - 1]) + (if IsWordChar(s[|s| - 1]) then [s[|s| - 1]] else [])
  }

  predicate IsWordChar(c: char) {
    IsSafe(c) && !IsEdge(c)
  }

  lemma {:induction false} WordPartConcat(a: string, b: string)
    ensures WordPart(a + b) == WordPart(a) + WordPart(b)
    decreases b
  {
    if b == [] {
      assert a + b == a;
    } else {
      assert (a + b)[..|a + b| - 1] == a + b[..|b| - 1];
      WordPartConcat(a, b[..|b| - 1]);
    }
  }

  lemma {:induction false} TrimLeftKeepsWords(s: string, drop: char -> bool)
    requires forall c :: drop(c) ==> !IsWordChar(c)
    ensures WordPart(TrimLeft(s, drop)) == WordPart(s)
  {
    if s != [] && drop(s[0]) {
      TrimLeftKeepsWords(s[1..], drop);
      assert s == s[..1] + s[1..] && s[..1][..0] == [];
      WordPartConcat(s[..1], s[1..]);
    }
  }

  lemma {:induction false} TrimRightKeepsWords(s: string, drop: char -> bool)
    requires forall c :: drop(c) ==> !IsWordChar(c)
    ensures WordPart(TrimRight(s, drop)) == WordPart(s)
  {
    if s != [] && drop(s[|s| - 1]) {
      TrimRightKeepsWords(s[..|s| - 1], drop);
    }
  }

  lemma {:induction false} ReplaceKeepsWords(s: string, inRun: bool)
    ensures WordPart(ReplaceUnsafe(s, inRun)) == WordPart(s) && WordPart(ReplaceSlashes(s)) == WordPart(s)
    decreases s
  {
    if s != [] {
      ReplaceKeepsWords(s[1..], !IsSafe(s[0]));
      assert s == [s[0]] + s[1..] && [s[0]][..0] == [] && ['-'][..0] == [];
      WordPartConcat([s[0]], s[1..]);
      WordPartConcat(if IsSafe(s[0]) then [s[0]] else if inRun then [] else ['-'], ReplaceUnsafe(s[1..], !IsSafe(s[0])));
      WordPartConcat([if s[0] == '/' then '-' else s[0]], ReplaceSlashes(s[1..]));
      assert [if s[0] == '/' then '-' else s[0]][..0] == [];
    }
  }

  lemma TrimKeepsWords(s: string, drop: char -> bool)
    requires forall c :: drop(c) ==> !IsWordChar(c)
    ensures WordPart(Trim(s, drop)) == WordPart(s)
  {
    TrimLeftKeepsWords(s, drop);
    TrimRightKeepsWords(TrimLeft(s, drop), drop);
  }

  lemma EndsInWord(s: string)
    requires s != [] && IsWordChar(s[|s| - 1])
    ensures WordPart(s) != []
  {
  }

  lemma EndsWell(s: string)
    requires AllSafe(s)
    ensures var t := Trim(s, c => IsEdge(c)); t != [] ==> IsWordChar(t[|t| - 1])
  {
    var edge := c => IsEdge(c);
    TrimLeftSafe(s, edge);
    TrimRightSafe(TrimLeft(s, edge), edge);
  }

  /** What a name says is kept, in order; a name that says nothing becomes "leg". */
  lemma SanitizeKeepsWords(s: string)
    ensures if WordPart(s) == [] then Sanitize(s) == "leg" else WordPart(Sanitize(s)) == WordPart(s)
  {
    TrimKeepsWords(s, c => IsSpace(c));
    var t := ReplaceSlashes(TrimSpace(s));
    ReplaceKeepsWords(TrimSpace(s), false);
    ReplaceKeepsWords(t, false);
    ReplaceUnsafeSafe(t, false);
    var u := ReplaceUnsafe(t, false);
    TrimKeepsWords(u, c => IsEdge(c));
    EndsWell(u);
    var v := Trim(u, c => IsEdge(c));
    if v != [] {
      EndsInWord(v);
    }
  }

  lemma WordCharIff(c: char)
    ensures IsWordChar(c) <==> c in CAPITALS || c in LETTERS || c in DIGITS || c == '_'
    ensures IsSafe(c) <==> IsWordChar(c) || c == '-' || c == '.'
  {
    CapitalIff(c);
    LetterIff(c);
    DigitIff(c);
  }

  lemma {:induction false} GapIsOneDash(gap: string, b: string, inRun: bool)
    requires (forall i :: 0 <= i < |gap| ==> !IsSafe(gap[i])) && AllSafe(b)
    ensures ReplaceUnsafe(gap + b, inRun) == (if gap == [] || inRun then [] else ['-']) + b
    decreases gap
  {
    if gap == [] {
      assert gap + b == b;
      ReplaceUnsafeSafe(b, inRun);
    } else {
      assert (gap + b)[0] == gap[0] && (gap + b)[1..] == gap[1..] + b;
      GapIsOneDash(gap[1..], b, true);
    }
  }

  lemma {:induction false} SafeThen(a: string, rest: string)
    requires AllSafe(a)
    ensures ReplaceUnsafe(a + rest, false) == a + ReplaceUnsafe(rest, false)
    decreases a
  {
    if a == [] {
      assert a + rest == rest;
    } else {
      assert (a + rest)[0] == a[0] && (a + rest)[1..] == a[1..] + rest;
      SafeThen(a[1..], rest);
    }
  }

  lemma {:induction false} NoSlashes(s: string)
    requires forall i :: 0 <= i < |s| ==> s[i] != '/'
    ensures ReplaceSlashes(s) == s
  {
    if s != [] {
      NoSlashes(s[1..]);
    }
  }

  lemma {:induction false} SlashesSplit(a: string, b: string)
    ensures ReplaceSlashes(a + b) == ReplaceSlashes(a) + ReplaceSlashes(b)
    decreases a
  {
    if a == [] {
      assert a + b == b;
    } else {
      assert (a + b)[0] == a[0] && (a + b)[1..] == a[1..] + b;
      SlashesSplit(a[1..], b);
    }
  }

  /** Whatever separates two clean names, a slash or any run of other unsafe characters, becomes one dash between them. */
  lemma SeparatorIsOneDash(a: string, gap: string, b: string)
    requires Clean(a) && Clean(b)
    requires gap == "/" || (gap != [] && forall i :: 0 <= i < |gap| ==> !IsSafe(gap[i]) && gap[i] != '/')
    ensures Sanitize(a + gap + b) == a + "-" + b
  {
    var t := a + "-" + b;
    EdgesKept(a, gap, b, c => IsSpace(c));
    EdgesKept(a, "-", b, c => IsEdge(c));
    assert TrimSpace(a + gap + b) == a + gap + b;
    GapReplaced(a, gap, b);
  }

  lemma EdgesKept(a: string, gap: string, b: string, drop: char -> bool)
    requires a != [] && b != [] && !drop(a[0]) && !drop(b[|b| - 1])
    ensures Trim(a + gap + b, drop) == a + gap + b
  {
    var s := a + gap + b;
    assert s[0] == a[0] && s[|s| - 1] == b[|b| - 1];
  }

  lemma GapReplaced(a: string, gap: string, b: string)
    requires AllSafe(a) && AllSafe(b)
    requires gap == "/" || (gap != [] && forall i :: 0 <= i < |gap| ==> !IsSafe(gap[i]) && gap[i] != '/')
    ensures ReplaceUnsafe(ReplaceSlashes(a + gap + b), false) == a + "-" + b
  {
    var mid := ReplaceSlashes(gap);
    SlashesSplit(a + gap, b);
    SlashesSplit(a, gap);
    ReplaceUnsafeSafe(a, false);
    ReplaceUnsafeSafe(b, false);
    Regrouped(a, mid, b);
    SafeThen(a, mid + b);
    DashThen(gap, b);
    Regrouped(a, "-", b);
  }

  lemma Regrouped(a: string, b: string, c: string)
    ensures a + b + c == a + (b + c)
  {
  }

  lemma DashThen(gap: string, b: string)
    requires AllSafe(b)
    requires gap == "/" || (gap != [] && forall i :: 0 <= i < |gap| ==> !IsSafe(gap[i]) && gap[i] != '/')
    ensures ReplaceUnsafe(ReplaceSlashes(gap) + b, false) == "-" + b
  {
    if gap == "/" {
      assert gap[1..] == [] && ReplaceSlashes(gap) == "-";
      ReplaceUnsafeSafe("-" + b, false);
    } else {
      NoSlashes(gap);
      GapIsOneDash(gap, b, false);
    }
  }

  // ---- names ----

  function Count(rs: seq<string>, r: string): nat {
    if rs == [] then 0 else Count(rs[..|rs| - 1], r) + (if rs[|rs| - 1] == r then 1 else 0)
  }

  /** The name of the n-th repetition of a role. */
  function Suffixed(r: string, n: nat): string {
    if n == 0 then r else r + "-" + Decimal(n)
  }

  /** The names that successive reservations of these sanitized roles get. */
  function NameAt(rs: seq<string>, i: nat): string
    requires i < |rs|
  {
    Suffixed(rs[i], Count(rs[..i], rs[i]))
  }

  ghost predicate Distinct(rs: seq<string>) {
    forall i, j :: 0 <= i < j < |rs| ==> NameAt(rs, i) != NameAt(rs, j)
  }

  /** No role is another role followed by a dash and one of the numbers that other role runs up to. */
  ghost predicate ClashFree(rs: seq<string>) {
    forall r, other, k: nat :: r in rs && 1 <= k < Count(rs, other) ==> r != Suffixed(other, k)
  }

  lemma SameTail(s: string, a: string, b: string)
    requires |a| < |s| && |b| < |s| && s[|s| - |a| - 1] == '-' && s[|s| - |b| - 1] == '-'
    requires forall i :: |s| - |a| <= i < |s| ==> IsDigit(s[i])
    requires forall i :: |s| - |b| <= i < |s| ==> IsDigit(s[i])
    ensures |a| == |b|
  {
  }

  lemma SuffixUnique(r: string, n: nat, q: string, m: nat)
    requires n > 0 && m > 0 && Suffixed(r, n) == Suffixed(q, m)
    ensures r == q && n == m
  {
    var s, a, b := Suffixed(r, n), Decimal(n), Decimal(m);
    assert s[|s| - |a| - 1] == '-' && s[|s| - |b| - 1] == '-';
    assert forall i :: 0 <= i < |a| ==> s[|s| - |a| + i] == a[i];
    assert forall i :: 0 <= i < |b| ==> s[|s| - |b| + i] == b[i];
    SameTail(s, a, b);
    assert a == s[|s| - |a|..] == b;
    assert r == s[..|s| - |a| - 1] == q;
    DecimalInjective(n, m);
  }

  lemma {:induction false} CountMonotone(rs: seq<string>, i: nat, j: nat, r: string)
    requires i <= j <= |rs|
    ensures Count(rs[..i], r) <= Count(rs[..j], r)
    ensures i < j && rs[i] == r ==> Count(rs[..i], r) < Count(rs[..j], r)
    decreases j
  {
    if i < j {
      assert rs[..j][..j - 1] == rs[..j - 1];
      CountMonotone(rs, i, j - 1, r);
    }
  }

  lemma {:induction false} Occurrence(rs: seq<string>, r: string, k: nat) returns (i: nat)
    requires k < Count(rs, r)
    ensures i < |rs| && rs[i] == r && Count(rs[..i], r) == k
  {
    var last := |rs| - 1;
    if k == Count(rs[..last], r) {
      i := last;
    } else {
      i := Occurrence(rs[..last], r, k);
      assert rs[..last][..i] == rs[..i];
    }
  }

  lemma {:induction false} CountPositive(rs: seq<string>, r: string)
    ensures r in rs <==> Count(rs, r) > 0
  {
    if rs != [] {
      CountPositive(rs[..|rs| - 1], r);
      assert rs == rs[..|rs| - 1] + [rs[|rs| - 1]];
    }
  }

  lemma SameNameClash(rs: seq<string>, i: nat, j: nat)
    requires i < |rs| && j < |rs| && i != j && NameAt(rs, i) == NameAt(rs, j) && ClashFree(rs)
    ensures Count(rs[..i], rs[i]) > 0 || rs[i] == rs[j]
  {
    CountMonotone(rs, j, |rs|, rs[j]);
    assert rs[..|rs|] == rs;
    if Count(rs[..i], rs[i]) == 0 && Count(rs[..j], rs[j]) > 0 {
      NoClash(rs, rs[i], rs[j], Count(rs[..j], rs[j]));
    }
  }

  lemma NoClash(rs: seq<string>, r: string, other: string, k: nat)
    requires ClashFree(rs) && r in rs && 1 <= k < Count(rs, other)
    ensures r != Suffixed(other, k)
  {
  }

  /** Reserved names are pairwise distinct exactly when no role looks like a numbered repetition of another one. */
  lemma NamesDistinctIff(rs: seq<string>)
    ensures Distinct(rs) <==> ClashFree(rs)
  {
    if ClashFree(rs) {
      forall i, j | 0 <= i < j < |rs| ensures NameAt(rs, i) != NameAt(rs, j) {
        if NameAt(rs, i) == NameAt(rs, j) {
          SameNameClash(rs, i, j);
          SameNameClash(rs, j, i);
          CountMonotone(rs, i, j, rs[i]);
          if rs[i] != rs[j] {
            SuffixUnique(rs[i], Count(rs[..i], rs[i]), rs[j], Count(rs[..j], rs[j]));
          } else if Count(rs[..i], rs[i]) > 0 {
            SuffixUnique(rs[i], Count(rs[..i], rs[i]), rs[j], Count(rs[..j], rs[j]));
          }
        }
      }
    } else {
      var r, other, k: nat :| r in rs && 1 <= k < Count(rs, other) && r == Suffixed(other, k);
      CountPositive(rs, r);
      var i := Occurrence(rs, r, 0);
      var j := Occurrence(rs, other, k);
      assert NameAt(rs, i) == NameAt(rs, j);
    }
  }

  // ---- the archive at work ----

  datatype Path = Path(dir: string, file: string)

  /** One call of Archive that got past its checks: it has its name, and then writes its file. */
  datatype Job = Job(test: string, role: string, content: nat, name: string, written: bool)

  datatype World = World(cleared: set<string>, used: map<string, map<string, nat>>, disk: map<Path, nat>, jobs: seq<Job>)

  datatype Event =
    | Reserve(test: string, role: string, content: nat)
    | Write(j: nat)
    | Spoil(j: nat, debris: nat)  // the write fails and leaves something behind

  function Used(used: map<string, map<string, nat>>, test: string, r: string): nat {
    if test in used && r in used[test] then used[test][r] else 0
  }

  function Wiped(disk: map<Path, nat>, dir: string): map<Path, nat> {
    map p | p in disk && p.dir != dir :: disk[p]
  }

  function PathOf(j: Job): Path {
    Path(Sanitize(j.test), j.name)
  }

  function Next(w: World, e: Event): World {
    match e
    case Reserve(test, role, content) =>
      if test == "" || role == "" then w
      else
        var r := Sanitize(role);
        var n := Used(w.used, test, r);
        var roles := if test in w.used then w.used[test] else map[];
        World(w.cleared + {test},
              w.used[test := roles[r := n + 1]],
              if test in w.cleared then w.disk else Wiped(w.disk, Sanitize(test)),
              w.jobs + [Job(test, role, content, Suffixed(r, n), false)])
    case Write(j) =>
      if j >= |w.jobs| || w.jobs[j].written then w
      else w.(disk := w.disk[PathOf(w.jobs[j]) := w.jobs[j].content], jobs := w.jobs[j := w.jobs[j].(written := true)])
    case Spoil(j, debris) =>
      if j >= |w.jobs| || w.jobs[j].written then w
      else w.(disk := w.disk[PathOf(w.jobs[j]) := debris])
  }

  function Run(w: World, es: seq<Event>): World
    decreases es
  {
    if es == [] then w else Run(Next(w, es[0]), es[1..])
  }

  /** The archive starts over whatever a previous run left on disk. */
  function Start(disk: map<Path, nat>): World {
    World({}, map[], disk, [])
  }

  /** The sanitized roles that jobs of a test have reserved, in order. */
  function RolesOf(test: string, jobs: seq<Job>): seq<string> {
    if jobs == [] then []
    else RolesOf(test, jobs[..|jobs| - 1]) + (if jobs[|jobs| - 1].test == test then [Sanitize(jobs[|jobs| - 1].role)] else [])
  }

  /** Reservations with an empty name do nothing. */
  predicate IsReservation(e: Event) {
    e.Reserve? && e.test != "" && e.role != ""
  }

  ghost predicate TestsIn(es: seq<Event>, tests: set<string>) {
    forall i :: 0 <= i < |es| && IsReservation(es[i]) ==> es[i].test in tests
  }

  ghost predicate DirsDistinct(tests: set<string>) {
    forall s, t :: s in tests && t in tests && Sanitize(s) == Sanitize(t) ==> s == t
  }

  /** Every file that was written is still on disk. */
  ghost predicate Survive(w: World) {
    forall j :: 0 <= j < |w.jobs| && w.jobs[j].written ==> PathOf(w.jobs[j]) in w.disk
  }

  ghost predicate Inv(w: World, tests: set<string>) {
    && w.cleared <= tests
    && (forall j :: 0 <= j < |w.jobs| ==> w.jobs[j].test in w.cleared)
    && Survive(w)
  }

  lemma {:induction false} FilesSurvive(w: World, es: seq<Event>, tests: set<string>)
    requires DirsDistinct(tests) && TestsIn(es, tests) && Inv(w, tests)
    ensures Survive(Run(w, es))
    decreases es
  {
    if es != [] {
      assert TestsIn(es[1..], tests);
      InvStep(w, es[0], tests);
      FilesSurvive(Next(w, es[0]), es[1..], tests);
    }
  }

  lemma InvStep(w: World, e: Event, tests: set<string>)
    requires DirsDistinct(tests) && Inv(w, tests) && (IsReservation(e) ==> e.test in tests)
    ensures Inv(Next(w, e), tests)
  {
    var w' := Next(w, e);
    forall j | 0 <= j < |w'.jobs| && w'.jobs[j].written ensures PathOf(w'.jobs[j]) in w'.disk {
      if j < |w.jobs| && w.jobs[j].written {
        assert PathOf(w.jobs[j]) in w.disk && w.jobs[j].test in w.cleared;
      }
    }
  }

  ghost predicate NeverWiped(tests: set<string>) {
    forall disk, es :: TestsIn(es, tests) ==> Survive(Run(Start(disk), es))
  }

  /**
   A test's folder is wiped once, at its first reservation and so before any of its files; no run over some tests
   ever wipes a file it has written, exactly when no two of the tests share a folder.
   */
  lemma NeverWipedIff(tests: set<string>)
    requires "" !in tests
    ensures NeverWiped(tests) <==> DirsDistinct(tests)
  {
    if DirsDistinct(tests) {
      forall disk, es | TestsIn(es, tests) ensures Survive(Run(Start(disk), es)) {
        FilesSurvive(Start(disk), es, tests);
      }
    } else {
      var s, t :| s in tests && t in tests && Sanitize(s) == Sanitize(t) && s != t;
      SharedFolderLoses(s, t);
      LossShows(tests, [Reserve(s, "leg", 1), Write(0), Reserve(t, "leg", 2)]);
    }
  }

  lemma LossShows(tests: set<string>, es: seq<Event>)
    requires TestsIn(es, tests) && !Survive(Run(Start(map[]), es))
    ensures !NeverWiped(tests)
  {
  }

  /** Two tests with one folder: the second one's first reservation takes the first one's file. */
  lemma SharedFolderLoses(s: string, t: string)
    requires s != t && s != "" && t != "" && Sanitize(s) == Sanitize(t)
    ensures !Survive(Run(Start(map[]), [Reserve(s, "leg", 1), Write(0), Reserve(t, "leg", 2)]))
  {
    var es := [Reserve(s, "leg", 1), Write(0), Reserve(t, "leg", 2)];
    var w1 := Next(Start(map[]), es[0]);
    var w2 := Next(w1, es[1]);
    assert w2.jobs[0].written && w2.jobs[0].test == s && t !in w2.cleared;
    WipeLoses(w2, t);
    RunThree(Start(map[]), es[0], es[1], es[2]);
  }

  lemma WipeLoses(w: World, t: string)
    requires t != "" && t !in w.cleared && |w.jobs| == 1 && w.jobs[0].written && Sanitize(w.jobs[0].test) == Sanitize(t)
    ensures !Survive(Next(w, Reserve(t, "leg", 2)))
  {
    var w' := Next(w, Reserve(t, "leg", 2));
    assert w'.jobs[0] == w.jobs[0] && PathOf(w'.jobs[0]) !in w'.disk;
  }

  lemma RunThree(w: World, a: Event, b: Event, c: Event)
    ensures Run(w, [a, b, c]) == Next(Next(Next(w, a), b), c)
  {
    var x, y := Next(w, a), Next(Next(w, a), b);
    assert [a, b, c][1..] == [b, c] && [b, c][1..] == [c] && [c][1..] == [];
    assert Run(w, [a, b, c]) == Run(x, [b, c]);
    assert Run(x, [b, c]) == Run(y, [c]);
    assert Run(y, [c]) == Run(Next(y, c), []);
  }

  // ---- contents ----

  ghost predicate Numbered(w: World) {
    && (forall t, r :: Used(w.used, t, r) == Count(RolesOf(t, w.jobs), r))
    && (forall j :: 0 <= j < |w.jobs| ==>
          w.jobs[j].name == Suffixed(Sanitize(w.jobs[j].role), Count(RolesOf(w.jobs[j].test, w.jobs[..j]), Sanitize(w.jobs[j].role))))
  }

  lemma NumberedStep(w: World, e: Event)
    requires Numbered(w)
    ensures Numbered(Next(w, e))
  {
    match e
    case Reserve(test, role, content) =>
      if test != "" && role != "" {
        NumberedReserve(w, test, role, content);
      }
    case Write(j) =>
      if j < |w.jobs| && !w.jobs[j].written {
        NumberedWrite(w, j);
      }
    case Spoil(_, _) =>
  }

  lemma NumberedReserve(w: World, test: string, role: string, content: nat)
    requires Numbered(w) && test != "" && role != ""
    ensures Numbered(Next(w, Reserve(test, role, content)))
  {
    var w', r := Next(w, Reserve(test, role, content)), Sanitize(role);
    var job := w'.jobs[|w.jobs|];
    assert w'.jobs[..|w.jobs|] == w.jobs;
    forall t, q ensures Used(w'.used, t, q) == Count(RolesOf(t, w'.jobs), q) {
      RolesSnoc(t, w.jobs, job, q);
      UsedAfter(w, test, role, content, t, q);
    }
    forall j | 0 <= j < |w'.jobs|
      ensures w'.jobs[j].name == Suffixed(Sanitize(w'.jobs[j].role), Count(RolesOf(w'.jobs[j].test, w'.jobs[..j]), Sanitize(w'.jobs[j].role)))
    {
      if j < |w.jobs| {
        assert w'.jobs[..j] == w.jobs[..j] && w'.jobs[j] == w.jobs[j];
      } else {
        assert Used(w.used, test, r) == Count(RolesOf(test, w.jobs), r);
      }
    }
  }

  lemma UsedAfter(w: World, test: string, role: string, content: nat, t: string, q: string)
    requires test != "" && role != ""
    ensures Used(Next(w, Reserve(test, role, content)).used, t, q)
         == Used(w.used, t, q) + (if t == test && q == Sanitize(role) then 1 else 0)
  {
  }

  lemma RolesSnoc(t: string, jobs: seq<Job>, job: Job, q: string)
    ensures Count(RolesOf(t, jobs + [job]), q)
         == Count(RolesOf(t, jobs), q) + (if t == job.test && q == Sanitize(job.role) then 1 else 0)
  {
    assert (jobs + [job])[..|jobs|] == jobs;
    CountSnoc(RolesOf(t, jobs), Sanitize(job.role), q);
    assert RolesOf(t, jobs) + [] == RolesOf(t, jobs);
  }

  lemma CountSnoc(rs: seq<string>, r: string, q: string)
    ensures Count(rs + [r], q) == Count(rs, q) + (if r == q then 1 else 0)
  {
    assert (rs + [r])[..|rs|] == rs;
  }

  lemma NumberedWrite(w: World, j: nat)
    requires Numbered(w) && j < |w.jobs| && !w.jobs[j].written
    ensures Numbered(Next(w, Write(j)))
  {
    var w' := Next(w, Write(j));
    RolesKept(w.jobs, w'.jobs, |w.jobs|);
    assert w'.jobs[..|w.jobs|] == w'.jobs && w.jobs[..|w.jobs|] == w.jobs;
    forall i | 0 <= i < |w'.jobs|
      ensures w'.jobs[i].name == Suffixed(Sanitize(w'.jobs[i].role), Count(RolesOf(w'.jobs[i].test, w'.jobs[..i]), Sanitize(w'.jobs[i].role)))
    {
      RolesKept(w.jobs, w'.jobs, i);
      assert w'.jobs[i] == w.jobs[i].(written := w'.jobs[i].written);
    }
  }

  lemma {:induction false} RolesKept(a: seq<Job>, b: seq<Job>, i: nat)
    requires |a| == |b| && i <= |a| && forall j :: 0 <= j < |a| ==> a[j].test == b[j].test && a[j].role == b[j].role
    ensures forall t :: RolesOf(t, b[..i]) == RolesOf(t, a[..i])
    decreases i
  {
    if i > 0 {
      RolesKept(a, b, i - 1);
      assert a[..i][..i - 1] == a[..i - 1] && b[..i][..i - 1] == b[..i - 1];
    }
  }

  lemma {:induction false} NumberedRun(w: World, es: seq<Event>)
    requires Numbered(w)
    ensures Numbered(Run(w, es))
    decreases es
  {
    if es != [] {
      NumberedStep(w, es[0]);
      NumberedRun(Next(w, es[0]), es[1..]);
    }
  }

  /** Where job i stands among the jobs of its test. */
  lemma {:induction false} RolePosition(test: string, jobs: seq<Job>, i: nat)
    requires i < |jobs| && jobs[i].test == test
    ensures var rs, p := RolesOf(test, jobs), |RolesOf(test, jobs[..i])|;
            p < |rs| && rs[p] == Sanitize(jobs[i].role) && rs[..p] == RolesOf(test, jobs[..i])
    decreases jobs
  {
    var last := |jobs| - 1;
    if i < last {
      RolePosition(test, jobs[..last], i);
      assert jobs[..last][..i] == jobs[..i];
    }
  }

  lemma {:induction false} RolesGrow(test: string, jobs: seq<Job>, i: nat, j: nat)
    requires i < j <= |jobs| && jobs[i].test == test
    ensures |RolesOf(test, jobs[..i])| < |RolesOf(test, jobs[..j])|
    decreases j
  {
    assert jobs[..j][..j - 1] == jobs[..j - 1];
    if i < j - 1 {
      RolesGrow(test, jobs, i, j - 1);
    }
  }

  ghost predicate PathsDistinct(jobs: seq<Job>) {
    forall i, j :: 0 <= i < j < |jobs| ==> PathOf(jobs[i]) != PathOf(jobs[j])
  }

  lemma ClashFreePaths(w: World, tests: set<string>)
    requires Numbered(w) && DirsDistinct(tests) && forall j :: 0 <= j < |w.jobs| ==> w.jobs[j].test in tests
    requires forall t :: t in tests ==> ClashFree(RolesOf(t, w.jobs))
    ensures PathsDistinct(w.jobs)
  {
    forall i, j | 0 <= i < j < |w.jobs| ensures PathOf(w.jobs[i]) != PathOf(w.jobs[j]) {
      var t := w.jobs[i].test;
      if Sanitize(t) == Sanitize(w.jobs[j].test) {
        assert w.jobs[j].test == t;
        var rs := RolesOf(t, w.jobs);
        NamesDistinctIff(rs);
        RolePosition(t, w.jobs, i);
        RolePosition(t, w.jobs, j);
        RolesGrow(t, w.jobs, i, j);
        assert NameAt(rs, |RolesOf(t, w.jobs[..i])|) == w.jobs[i].name;
        assert NameAt(rs, |RolesOf(t, w.jobs[..j])|) == w.jobs[j].name;
      }
    }
  }

  ghost predicate Intact(w: World) {
    forall j :: 0 <= j < |w.jobs| && w.jobs[j].written ==> PathOf(w.jobs[j]) in w.disk && w.disk[PathOf(w.jobs[j])] == w.jobs[j].content
  }

  lemma {:induction false} JobsKeep(w: World, es: seq<Event>)
    ensures |w.jobs| <= |Run(w, es).jobs|
    ensures forall j :: 0 <= j < |w.jobs| ==> PathOf(Run(w, es).jobs[j]) == PathOf(w.jobs[j])
    decreases es
  {
    if es != [] {
      PathsKeep(w, es[0]);
      JobsKeep(Next(w, es[0]), es[1..]);
    }
  }

  lemma PathsKeep(w: World, e: Event)
    ensures |w.jobs| <= |Next(w, e).jobs|
    ensures forall j :: 0 <= j < |w.jobs| ==> PathOf(Next(w, e).jobs[j]) == PathOf(w.jobs[j])
  {
  }

  lemma IntactStep(w: World, e: Event)
    requires Intact(w) && PathsDistinct(w.jobs) && Survive(Next(w, e))
    ensures Intact(Next(w, e))
  {
    if e.Reserve? {
      IntactReserve(w, e);
    } else {
      IntactWrite(w, e);
    }
  }

  lemma IntactReserve(w: World, e: Event)
    requires Intact(w) && Survive(Next(w, e)) && e.Reserve?
    ensures Intact(Next(w, e))
  {
    var w' := Next(w, e);
    forall j | 0 <= j < |w'.jobs| && w'.jobs[j].written
      ensures PathOf(w'.jobs[j]) in w'.disk && w'.disk[PathOf(w'.jobs[j])] == w'.jobs[j].content
    {
      assert w'.jobs[j] == w.jobs[j];
    }
  }

  lemma IntactWrite(w: World, e: Event)
    requires Intact(w) && PathsDistinct(w.jobs) && !e.Reserve?
    ensures Intact(Next(w, e))
  {
    var w' := Next(w, e);
    forall j | 0 <= j < |w'.jobs| && w'.jobs[j].written
      ensures PathOf(w'.jobs[j]) in w'.disk && w'.disk[PathOf(w'.jobs[j])] == w'.jobs[j].content
    {
      if e.j < |w.jobs| && e.j != j {
        assert PathOf(w.jobs[j]) != PathOf(w.jobs[e.j]);
      }
    }
  }

  lemma {:induction false} FilesIntact(w: World, es: seq<Event>, tests: set<string>)
    requires DirsDistinct(tests) && TestsIn(es, tests) && Inv(w, tests) && Intact(w)
    requires PathsDistinct(Run(w, es).jobs)
    ensures Intact(Run(w, es))
    decreases es
  {
    if es != [] {
      var w' := Next(w, es[0]);
      InvStep(w, es[0], tests);
      assert TestsIn(es[1..], tests);
      JobsKeep(w, es);
      EarlierPathsDistinct(w.jobs, Run(w, es).jobs);
      IntactStep(w, es[0]);
      FilesIntact(w', es[1..], tests);
    }
  }

  lemma EarlierPathsDistinct(jobs: seq<Job>, later: seq<Job>)
    requires PathsDistinct(later) && |jobs| <= |later| && forall j :: 0 <= j < |jobs| ==> PathOf(later[j]) == PathOf(jobs[j])
    ensures PathsDistinct(jobs)
  {
  }

  /** Over every interleaving: with distinct folders and no clashing roles, every file written keeps its own content. */
  lemma EveryFileIntact(disk: map<Path, nat>, es: seq<Event>, tests: set<string>)
    requires DirsDistinct(tests) && TestsIn(es, tests)
    requires forall t :: t in tests ==> ClashFree(RolesOf(t, Run(Start(disk), es).jobs))
    ensures Intact(Run(Start(disk), es))
  {
    NumberedRun(Start(disk), es);
    JobsOfTests(Start(disk), es, tests);
    ClashFreePaths(Run(Start(disk), es), tests);
    FilesIntact(Start(disk), es, tests);
  }

  lemma {:induction false} JobsOfTests(w: World, es: seq<Event>, tests: set<string>)
    requires TestsIn(es, tests) && forall j :: 0 <= j < |w.jobs| ==> w.jobs[j].test in tests
    ensures forall j :: 0 <= j < |Run(w, es).jobs| ==> Run(w, es).jobs[j].test in tests
    decreases es
  {
    if es != [] {
      assert TestsIn(es[1..], tests);
      JobsOfTests(Next(w, es[0]), es[1..], tests);
    }
  }

  // ---- and only then ----

  /** The reservations among some events, in order. */
  function Reservations(es: seq<Event>): seq<Event>
    decreases es
  {
    if es == [] then [] else (if IsReservation(es[0]) then [es[0]] else []) + Reservations(es[1..])
  }

  ghost predicate IsPlan(plan: seq<Event>) {
    forall k :: 0 <= k < |plan| ==> IsReservation(plan[k])
  }

  function TestsOf(plan: seq<Event>): set<string> {
    set k | 0 <= k < |plan| && plan[k].Reserve? :: plan[k].test
  }

  /** The jobs that a plan makes. */
  function Planned(plan: seq<Event>): seq<Job> {
    Run(Start(map[]), plan).jobs
  }

  /** Same reservations so far, whatever has been written. */
  ghost predicate SameBooks(w: World, v: World) {
    && w.cleared == v.cleared && w.used == v.used && |w.jobs| == |v.jobs|
    && forall j :: 0 <= j < |w.jobs| ==> w.jobs[j] == v.jobs[j].(written := w.jobs[j].written)
  }

  lemma {:induction false} BooksFollowPlan(w: World, v: World, es: seq<Event>)
    requires SameBooks(w, v)
    ensures SameBooks(Run(w, es), Run(v, Reservations(es)))
    decreases es
  {
    if es != [] {
      var rest := Reservations(es[1..]);
      if IsReservation(es[0]) {
        assert Reservations(es) == [es[0]] + rest && ([es[0]] + rest)[1..] == rest;
        BooksFollowPlan(Next(w, es[0]), Next(v, es[0]), es[1..]);
      } else {
        assert Reservations(es) == rest;
        BooksFollowPlan(Next(w, es[0]), v, es[1..]);
      }
    }
  }

  lemma {:induction false} RunSplit(w: World, es: seq<Event>, fs: seq<Event>)
    ensures Run(w, es + fs) == Run(Run(w, es), fs)
    decreases es
  {
    if es == [] {
      assert es + fs == fs;
    } else {
      assert (es + fs)[1..] == es[1..] + fs;
      RunSplit(Next(w, es[0]), es[1..], fs);
    }
  }

  lemma RunOne(w: World, e: Event)
    ensures Run(w, [e]) == Next(w, e)
  {
    assert [e][1..] == [];
  }

  lemma Regroup(a: seq<Event>, b: seq<Event>, c: seq<Event>)
    ensures a + b + c == a + (b + c)
  {
  }

  lemma {:induction false} ReservationsSplit(es: seq<Event>, fs: seq<Event>)
    ensures Reservations(es + fs) == Reservations(es) + Reservations(fs)
    decreases es
  {
    if es == [] {
      assert es + fs == fs;
    } else {
      assert (es + fs)[0] == es[0] && (es + fs)[1..] == es[1..] + fs;
      ReservationsSplit(es[1..], fs);
      Regroup(if IsReservation(es[0]) then [es[0]] else [], Reservations(es[1..]), Reservations(fs));
    }
  }

  lemma {:induction false} PlanIsItsReservations(plan: seq<Event>)
    requires IsPlan(plan)
    ensures Reservations(plan) == plan
  {
    if plan != [] {
      assert IsPlan(plan[1..]);
      PlanIsItsReservations(plan[1..]);
    }
  }

  lemma TestsSnoc(plan: seq<Event>)
    requires IsPlan(plan) && plan != []
    ensures IsPlan(plan[..|plan| - 1]) && TestsOf(plan) == TestsOf(plan[..|plan| - 1]) + {plan[|plan| - 1].test}
  {
    var init, last := plan[..|plan| - 1], |plan| - 1;
    assert forall k :: 0 <= k < last ==> init[k] == plan[k];
    assert IsReservation(plan[last]);
    forall t | t in TestsOf(plan) ensures t in TestsOf(init) + {plan[last].test} {
      var k :| 0 <= k < |plan| && plan[k].Reserve? && plan[k].test == t;
      assert k < last ==> init[k].test == t;
    }
  }

  ghost predicate JobFor(j: Job, e: Event) {
    IsReservation(e) && j.test == e.test && j.role == e.role && j.content == e.content && !j.written
  }

  /** From the base-th job on, the jobs are those of the plan, none of them written. */
  ghost predicate JobsFor(jobs: seq<Job>, base: nat, plan: seq<Event>) {
    |jobs| == base + |plan| && forall k :: 0 <= k < |plan| ==> JobFor(jobs[base + k], plan[k])
  }

  lemma {:induction false} PlanJobs(w: World, plan: seq<Event>)
    requires IsPlan(plan)
    ensures var w' := Run(w, plan);
            && JobsFor(w'.jobs, |w.jobs|, plan) && w.jobs <= w'.jobs
            && w'.cleared == w.cleared + TestsOf(plan)
            && (forall p :: p in w'.disk ==> p in w.disk)
    decreases plan
  {
    if plan != [] {
      var init, e := plan[..|plan| - 1], plan[|plan| - 1];
      TestsSnoc(plan);
      PlanJobs(w, init);
      assert plan == init + [e] && IsReservation(e);
      RunSplit(w, init, [e]);
      RunOne(Run(w, init), e);
      PlanJobsSnoc(Run(w, init), |w.jobs|, init, e);
    }
  }

  lemma PlanJobsSnoc(w: World, base: nat, plan: seq<Event>, e: Event)
    requires JobsFor(w.jobs, base, plan) && IsReservation(e)
    ensures JobsFor(Next(w, e).jobs, base, plan + [e]) && w.jobs <= Next(w, e).jobs
    ensures Next(w, e).cleared == w.cleared + {e.test} && forall p :: p in Next(w, e).disk ==> p in w.disk
  {
  }

  /** Whatever the disk held and however the writes fall between the reservations, every written file keeps its content. */
  ghost predicate KeepsContents(plan: seq<Event>) {
    forall disk, es :: Reservations(es) == plan ==> Intact(Run(Start(disk), es))
  }

  ghost predicate ContentsDiffer(plan: seq<Event>) {
    forall i, j :: 0 <= i < j < |plan| && plan[i].Reserve? && plan[j].Reserve? ==> plan[i].content != plan[j].content
  }

  ghost predicate NoClashes(plan: seq<Event>) {
    forall t :: t in TestsOf(plan) ==> ClashFree(RolesOf(t, Planned(plan)))
  }

  /** The p-th job of a test. */
  lemma {:induction false} JobAt(test: string, jobs: seq<Job>, p: nat) returns (i: nat)
    requires p < |RolesOf(test, jobs)|
    ensures i < |jobs| && jobs[i].test == test && |RolesOf(test, jobs[..i])| == p
    decreases jobs
  {
    var last := |jobs| - 1;
    if p == |RolesOf(test, jobs[..last])| {
      i := last;
    } else {
      i := JobAt(test, jobs[..last], p);
      assert jobs[..last][..i] == jobs[..i];
    }
  }

  /** Two jobs of a test whose roles clash have the same path. */
  lemma ClashMeets(w: World, t: string) returns (i: nat, j: nat)
    requires Numbered(w) && !ClashFree(RolesOf(t, w.jobs))
    ensures i < |w.jobs| && j < |w.jobs| && i != j && PathOf(w.jobs[i]) == PathOf(w.jobs[j])
  {
    var rs := RolesOf(t, w.jobs);
    NamesDistinctIff(rs);
    var p, q :| 0 <= p < q < |rs| && NameAt(rs, p) == NameAt(rs, q);
    i := JobAt(t, w.jobs, p);
    j := JobAt(t, w.jobs, q);
    NameOfJob(w, t, i);
    NameOfJob(w, t, j);
  }

  lemma NameOfJob(w: World, t: string, i: nat)
    requires Numbered(w) && i < |w.jobs| && w.jobs[i].test == t
    ensures |RolesOf(t, w.jobs[..i])| < |RolesOf(t, w.jobs)|
    ensures w.jobs[i].name == NameAt(RolesOf(t, w.jobs), |RolesOf(t, w.jobs[..i])|)
  {
    RolePosition(t, w.jobs, i);
  }

  lemma ClashLoses(plan: seq<Event>, t: string)
    requires IsPlan(plan) && ContentsDiffer(plan) && !ClashFree(RolesOf(t, Planned(plan)))
    ensures !KeepsContents(plan)
  {
    var w := Run(Start(map[]), plan);
    NumberedRun(Start(map[]), plan);
    PlanJobs(Start(map[]), plan);
    var i, j := ClashMeets(w, t);
    assert JobFor(w.jobs[0 + i], plan[i]) && JobFor(w.jobs[0 + j], plan[j]);
    ContentsApart(plan, i, j);
    LastWriteWins(w, i, j);
    WritesAfter(plan, i, j);
    Disprove(plan, plan + [Write(i)] + [Write(j)]);
  }

  lemma ContentsApart(plan: seq<Event>, i: nat, j: nat)
    requires IsPlan(plan) && ContentsDiffer(plan) && i < |plan| && j < |plan| && i != j
    ensures IsReservation(plan[i]) && IsReservation(plan[j]) && plan[i].content != plan[j].content
  {
  }

  lemma WritesAfter(plan: seq<Event>, i: nat, j: nat)
    requires IsPlan(plan)
    ensures Run(Start(map[]), plan + [Write(i)] + [Write(j)]) == Next(Next(Run(Start(map[]), plan), Write(i)), Write(j))
    ensures Reservations(plan + [Write(i)] + [Write(j)]) == plan
  {
    var w := Run(Start(map[]), plan);
    RunSplit(Start(map[]), plan, [Write(i)]);
    RunOne(w, Write(i));
    RunSplit(Start(map[]), plan + [Write(i)], [Write(j)]);
    RunOne(Next(w, Write(i)), Write(j));
    PlanIsItsReservations(plan);
    ReservationsSplit(plan, [Write(i)]);
    ReservationsSplit(plan + [Write(i)], [Write(j)]);
    WriteReservesNothing(i);
    WriteReservesNothing(j);
  }

  lemma WriteReservesNothing(i: nat)
    ensures Reservations([Write(i)]) == []
  {
    assert [Write(i)][1..] == [];
  }

  lemma LastWriteWins(w: World, i: nat, j: nat)
    requires i < |w.jobs| && j < |w.jobs| && i != j && !w.jobs[i].written && !w.jobs[j].written
    requires PathOf(w.jobs[i]) == PathOf(w.jobs[j]) && w.jobs[i].content != w.jobs[j].content
    ensures !Intact(Next(Next(w, Write(i)), Write(j)))
  {
    var w1 := Next(w, Write(i));
    assert w1.jobs[j] == w.jobs[j];
    var w2 := Next(w1, Write(j));
    assert w2.jobs[i].written && w2.jobs[i].content == w.jobs[i].content && PathOf(w2.jobs[i]) == PathOf(w.jobs[j]);
    assert w2.disk[PathOf(w.jobs[j])] == w.jobs[j].content;
  }

  lemma Disprove(plan: seq<Event>, es: seq<Event>)
    requires Reservations(es) == plan && !Intact(Run(Start(map[]), es))
    ensures !KeepsContents(plan)
  {
  }

  /** The first reservation of a test. */
  lemma {:induction false} FirstOf(plan: seq<Event>, t: string) returns (k: nat)
    requires t in TestsOf(plan) && IsPlan(plan)
    ensures k < |plan| && plan[k].test == t && t !in TestsOf(plan[..k])
    decreases plan
  {
    var last := |plan| - 1;
    TestsSnoc(plan);
    if t in TestsOf(plan[..last]) {
      k := FirstOf(plan[..last], t);
      assert plan[..last][..k] == plan[..k];
    } else {
      k := last;
    }
  }

  /** The first job of one test is written, and then the other test's first reservation wipes the folder they share. */
  lemma SharedFolderSpoils(plan: seq<Event>, i: nat, j: nat)
    requires IsPlan(plan) && i < j < |plan| && Sanitize(plan[i].test) == Sanitize(plan[j].test)
    requires plan[j].test !in TestsOf(plan[..j])
    ensures !KeepsContents(plan)
  {
    var before, after := plan[..j], plan[j + 1..];
    assert IsPlan(before) && IsPlan(after) && IsReservation(plan[j]) && IsReservation(plan[i]);
    var w := Run(Start(map[]), before);
    PlanJobs(Start(map[]), before);
    assert before[i] == plan[i] && JobFor(w.jobs[0 + i], before[i]);
    WipedAfterWrite(w, i, plan[j]);
    var w2 := Next(Next(w, Write(i)), plan[j]);
    PlanJobs(w2, after);
    assert Run(w2, after).jobs[i] == w2.jobs[i];
    RunAround(before, i, plan[j], after);
    PlanWithWrite(plan, i, j);
    Disprove(plan, before + [Write(i)] + [plan[j]] + after);
  }

  lemma WipedAfterWrite(w: World, i: nat, e: Event)
    requires i < |w.jobs| && !w.jobs[i].written && IsReservation(e) && e.test !in w.cleared && Sanitize(w.jobs[i].test) == Sanitize(e.test)
    ensures var w2 := Next(Next(w, Write(i)), e);
            i < |w2.jobs| && w2.jobs[i].written && PathOf(w2.jobs[i]) !in w2.disk
  {
    var w1 := Next(w, Write(i));
    assert Next(w1, e).jobs[i] == w1.jobs[i] == w.jobs[i].(written := true);
  }

  lemma RunAround(before: seq<Event>, i: nat, e: Event, after: seq<Event>)
    ensures Run(Start(map[]), before + [Write(i)] + [e] + after)
         == Run(Next(Next(Run(Start(map[]), before), Write(i)), e), after)
  {
    var w := Run(Start(map[]), before);
    RunSplit(Start(map[]), before, [Write(i)]);
    RunOne(w, Write(i));
    RunSplit(Start(map[]), before + [Write(i)], [e]);
    RunOne(Next(w, Write(i)), e);
    RunSplit(Start(map[]), before + [Write(i)] + [e], after);
  }

  lemma PlanWithWrite(plan: seq<Event>, i: nat, j: nat)
    requires IsPlan(plan) && j < |plan|
    ensures Reservations(plan[..j] + [Write(i)] + [plan[j]] + plan[j + 1..]) == plan
  {
    var before, after := plan[..j], plan[j + 1..];
    PlanIsItsReservations(before);
    PlanIsItsReservations([plan[j]]);
    PlanIsItsReservations(after);
    WriteReservesNothing(i);
    FourReservations(before, [Write(i)], [plan[j]], after);
    assert plan == before + [] + [plan[j]] + after;
  }

  lemma FourReservations(a: seq<Event>, b: seq<Event>, c: seq<Event>, d: seq<Event>)
    ensures Reservations(a + b + c + d) == Reservations(a) + Reservations(b) + Reservations(c) + Reservations(d)
  {
    ReservationsSplit(a, b);
    ReservationsSplit(a + b, c);
    ReservationsSplit(a + b + c, d);
  }

  /**
   A list of reservations of different contents keeps them all, whatever the disk held before and wherever the writes
   fall, exactly when no two of its tests share a folder and in no test a role looks like a numbered repetition of
   another.
   */
  lemma ContentsKeptIff(plan: seq<Event>)
    requires IsPlan(plan) && ContentsDiffer(plan)
    ensures KeepsContents(plan) <==> DirsDistinct(TestsOf(plan)) && NoClashes(plan)
  {
    if !DirsDistinct(TestsOf(plan)) {
      var s, t :| s in TestsOf(plan) && t in TestsOf(plan) && Sanitize(s) == Sanitize(t) && s != t;
      var i := FirstOf(plan, s);
      var j := FirstOf(plan, t);
      if i < j {
        SharedFolderSpoils(plan, i, j);
      } else {
        SharedFolderSpoils(plan, j, i);
      }
    } else if !NoClashes(plan) {
      var t :| t in TestsOf(plan) && !ClashFree(RolesOf(t, Planned(plan)));
      ClashLoses(plan, t);
    } else {
      forall disk, es | Reservations(es) == plan ensures Intact(Run(Start(disk), es)) {
        PlanKeeps(plan, disk, es);
      }
    }
  }

  lemma PlanKeeps(plan: seq<Event>, disk: map<Path, nat>, es: seq<Event>)
    requires DirsDistinct(TestsOf(plan)) && NoClashes(plan) && Reservations(es) == plan
    ensures Intact(Run(Start(disk), es))
  {
    var jobs := Run(Start(disk), es).jobs;
    BooksFollowPlan(Start(disk), Start(map[]), es);
    forall t | t in TestsOf(plan) ensures ClashFree(RolesOf(t, jobs)) {
      RolesKept(Planned(plan), jobs, |jobs|);
      assert jobs[..|jobs|] == jobs && Planned(plan)[..|jobs|] == Planned(plan);
    }
    InPlan(es);
    EveryFileIntact(disk, es, TestsOf(plan));
  }

  lemma TestsGrow(first: seq<Event>, rest: seq<Event>)
    ensures TestsOf(first) <= TestsOf(first + rest) && TestsOf(rest) <= TestsOf(first + rest)
  {
    forall k | 0 <= k < |rest| && rest[k].Reserve? ensures rest[k].test in TestsOf(first + rest) {
      assert (first + rest)[|first| + k] == rest[k];
    }
    forall k | 0 <= k < |first| && first[k].Reserve? ensures first[k].test in TestsOf(first + rest) {
      assert (first + rest)[k] == first[k];
    }
  }

  lemma {:induction false} InPlan(es: seq<Event>)
    ensures TestsIn(es, TestsOf(Reservations(es)))
    decreases es
  {
    if es != [] {
      InPlan(es[1..]);
      var first := if IsReservation(es[0]) then [es[0]] else [];
      TestsGrow(first, Reservations(es[1..]));
      assert IsReservation(es[0]) ==> first[0].test in TestsOf(first);
      forall i | 0 < i < |es| && IsReservation(es[i]) ensures es[i].test in TestsOf(Reservations(es)) {
        assert es[1..][i - 1] == es[i];
      }
    }
  }

  // ---- the class ----

  /** What is found at the path of the recording. */
  datatype Pcm = Missing | Unreadable | Read(content: nat, empty: bool)

  datatype WriteOutcome = Written | Broken(left: Option<nat>)

  datatype Archived = Skipped | Failed | Saved(path: Path)

  predicate Ignored(test: string, role: string, pcmPath: string, pcm: Pcm) {
    test == "" || role == "" || pcmPath == "" || pcm.Missing? || (pcm.Read? && pcm.empty)
  }

  class Archiver {
    var clearedTest: set<string>
    var usedRole: map<string, map<string, nat>>
    var disk: map<Path, nat>

    constructor (disk: map<Path, nat>)
      ensures clearedTest == {} && usedRole == map[] && this.disk == disk
    {
      clearedTest, usedRole := {}, map[];
      this.disk := disk;
    }

    /** The locked section; the jobs already under way do not matter to it. */
    method ReserveName(test: string, role: string, content: nat, ghost jobs: seq<Job>) returns (name: string)
      requires test != "" && role != ""
      modifies this
      ensures var w := Next(World(old(clearedTest), old(usedRole), old(disk), jobs), Event.Reserve(test, role, content));
              && clearedTest == w.cleared && usedRole == w.used && disk == w.disk
              && w.jobs == jobs + [Job(test, role, content, name, false)]
      ensures name == Suffixed(Sanitize(role), Used(old(usedRole), test, Sanitize(role)))
    {
      if test !in clearedTest {
        disk := Wiped(disk, Sanitize(test));
        clearedTest := clearedTest + {test};
      }
      assert clearedTest == old(clearedTest) + {test};
      var roles := map[];
      if test in usedRole {
        roles := usedRole[test];
      }
      var r := Sanitize(role);
      var n := if r in roles then roles[r] else 0;
      roles := roles[r := n + 1];
      usedRole := usedRole[test := roles];
      if n == 0 {
        return r;
      }
      return r + "-" + Decimal(n);
    }

    /**
     Archive without interference.  A recording is reserved, and the folder wiped, before anything is written; a
     failure after that leaves the name used up, and of a failed write whatever it left behind.
     */
    method ArchiveFile(test: string, role: string, pcmPath: string, pcm: Pcm, mkdirOk: bool, write: WriteOutcome) returns (out: Archived)
      modifies this
      ensures out == Skipped <==> Ignored(test, role, pcmPath, pcm)
      ensures out.Saved? <==> !Ignored(test, role, pcmPath, pcm) && pcm.Read? && mkdirOk && write.Written?
      ensures Ignored(test, role, pcmPath, pcm) || pcm.Unreadable? ==>
                disk == old(disk) && usedRole == old(usedRole) && clearedTest == old(clearedTest)
      ensures !Ignored(test, role, pcmPath, pcm) && pcm.Read? ==>
                var w := Next(World(old(clearedTest), old(usedRole), old(disk), []), Event.Reserve(test, role, pcm.content));
                var path := PathOf(w.jobs[0]);
                && clearedTest == w.cleared && usedRole == w.used
                && (out.Saved? ==> out.path == path)
                && disk == if out.Saved? then w.disk[path := pcm.content]
                           else if mkdirOk && write.left.Some? then w.disk[path := write.left.value] else w.disk
    {
      if test == "" || role == "" || pcmPath == "" {
        return Skipped;
      }
      match pcm {
        case Missing =>
          return Skipped;
        case Unreadable =>
          return Failed;
        case Read(content, empty) =>
          if empty {
            return Skipped;
          }
          var dir := Sanitize(test);
          var name := ReserveName(test, role, content, []);
          if !mkdirOk {
            return Failed;
          }
          var path := Path(dir, name);
          match write {
            case Written =>
              disk := disk[path := content];
              return Saved(path);
            case Broken(left) =>
              if left.Some? {
                disk := disk[path := left.value];
              }
              return Failed;
          }
      }
    }
  }
}
