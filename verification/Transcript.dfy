/**
 Matching phrases against a transcript: stt.Normalize (internal/stt/deepgram.go) and the cursor scan of
 AssertTranscriptContainsInOrder (tests/verbs/helpers_test.go).
 */
module Transcript {
  import opened Basics
  import opened Strings

  // ---- normal form ----

  /** Lower case, as far as letters matter that a lower-case ASCII letter can come from. */
  function LowerRune(c: char): char {
    if 'A' <= c <= 'Z' then (c as int - 'A' as int + 'a' as int) as char
    else if c == '\U{212A}' then 'k'
    else if c == '\U{0130}' then 'i'
    else c
  }

  predicate Kept(c: char) {
    'a' <= c <= 'z' || '0' <= c <= '9'
  }

  predicate IsGap(c: char) {
    c == ' ' || c == '\t' || c == '\n'
  }

  /** The words of a text and the word being read; everything but letters, digits and gaps is dropped. */
  datatype Split = Split(words: seq<string>, current: string)

  function Feed(p: Split, c: char): Split {
    var l := LowerRune(c);
    if Kept(l) then p.(current := p.current + [l])
    else if IsGap(l) && p.current != [] then Split(p.words + [p.current], [])
    else p
  }

  function SplitText(s: string): Split {
    if s == [] then Split([], []) else Feed(SplitText(s[..|s| - 1]), s[|s| - 1])
  }

  function Words(s: string): seq<string> {
    var p := SplitText(s);
    if p.current == [] then p.words else p.words + [p.current]
  }

  /** Words separated by single spaces. */
  function Join(words: seq<string>): string {
    if words == [] then []
    else if |words| == 1 then words[0]
    else Join(words[..|words| - 1]) + [' '] + words[|words| - 1]
  }

  function Normalized(s: string): string {
    Join(Words(s))
  }

  ghost predicate GoodWord(w: string) {
    w != [] && forall i :: 0 <= i < |w| ==> Kept(w[i])
  }

  ghost predicate GoodWords(ws: seq<string>) {
    forall i :: 0 <= i < |ws| ==> GoodWord(ws[i])
  }

  lemma {:induction false} SplitIsGood(s: string)
    ensures GoodWords(SplitText(s).words)
    ensures SplitText(s).current != [] ==> GoodWord(SplitText(s).current)
    ensures GoodWords(Words(s))
  {
    if s != [] {
      SplitIsGood(s[..|s| - 1]);
    }
  }

  lemma {:induction false} JoinEnds(ws: seq<string>)
    requires GoodWords(ws)
    ensures ws != [] ==> Join(ws) != [] && Kept(Join(ws)[0]) && Kept(Join(ws)[|Join(ws)| - 1])
  {
    if |ws| > 1 {
      JoinEnds(ws[..|ws| - 1]);
      assert GoodWord(ws[|ws| - 1]);
    } else if |ws| == 1 {
      assert GoodWord(ws[0]);
    }
  }

  method Normalize(s: string) returns (r: string)
    ensures r == Normalized(s)
  {
    var b: string := [];
    var prevSpace := true;
    ghost var p := Split([], []);
    for i := 0 to |s|
      invariant p == SplitText(s[..i])
      invariant prevSpace <==> p.current == []
      invariant b == if p.current != [] then Join(p.words + [p.current])
                     else if p.words == [] then [] else Join(p.words) + [' ']
    {
      assert s[..i + 1][..i] == s[..i];
      SplitIsGood(s[..i]);
      var c := LowerRune(s[i]);
      ghost var q := Feed(p, s[i]);
      if Kept(c) {
        JoinGrows(p.words, p.current, c);
        b := b + [c];
        prevSpace := false;
      } else if IsGap(c) {
        if !prevSpace {
          b := b + [' '];
          prevSpace := true;
        }
      }
      p := q;
    }
    assert s[..|s|] == s;
    SplitIsGood(s);
    JoinEnds(Words(s));
    if b != [] {
      TrimBuilt(Normalized(s));
    }
    r := TrimSpace(b);
  }

  lemma TrimBuilt(j: string)
    requires j != [] && Kept(j[0]) && Kept(j[|j| - 1])
    ensures TrimSpace(j) == j && TrimSpace(j + [' ']) == j
  {
    assert (j + [' '])[..|j|] == j;
  }

  lemma JoinGrows(ws: seq<string>, w: string, c: char)
    ensures Join(ws + [w + [c]]) == (if w != [] then Join(ws + [w]) else if ws == [] then [] else Join(ws) + [' ']) + [c]
  {
    assert (ws + [w + [c]])[..|ws|] == ws && (ws + [w])[..|ws|] == ws;
  }

  lemma {:induction false} SplitConcat(s: string, t: string)
    requires forall i :: 0 <= i < |t| ==> Kept(t[i])
    ensures SplitText(s + t) == SplitText(s).(current := SplitText(s).current + t)
    decreases t
  {
    if t == [] {
      assert s + t == s;
    } else {
      assert (s + t)[..|s + t| - 1] == s + t[..|t| - 1];
      SplitConcat(s, t[..|t| - 1]);
    }
  }

  /** Splitting undoes joining. */
  lemma {:induction false} SplitOfJoin(ws: seq<string>)
    requires GoodWords(ws)
    ensures SplitText(Join(ws)) == if ws == [] then Split([], []) else Split(ws[..|ws| - 1], ws[|ws| - 1])
  {
    if |ws| == 1 {
      assert GoodWord(ws[0]);
      SplitConcat([], ws[0]);
      assert [] + ws[0] == ws[0];
    } else if |ws| > 1 {
      var init, last := ws[..|ws| - 1], ws[|ws| - 1];
      assert GoodWord(last) && GoodWord(init[|init| - 1]);
      SplitOfJoin(init);
      assert init[..|init| - 1] + [init[|init| - 1]] == init;
      SplitAtGap(Join(init), init[..|init| - 1], init[|init| - 1]);
      SplitConcat(Join(init) + [' '], last);
      assert [] + last == last;
    }
  }

  lemma SplitAtGap(s: string, ws: seq<string>, w: string)
    requires SplitText(s) == Split(ws, w) && w != []
    ensures SplitText(s + [' ']) == Split(ws + [w], [])
  {
    assert (s + [' '])[..|s|] == s;
  }

  /** Normalizing changes nothing but the words' spelling and spacing: it keeps the words, and doing it twice is doing it once. */
  lemma NormalizeKeepsWords(s: string)
    ensures Words(Normalized(s)) == Words(s)
    ensures Normalized(Normalized(s)) == Normalized(s)
  {
    SplitIsGood(s);
    var ws := Words(s);
    SplitOfJoin(ws);
    if ws != [] {
      assert GoodWord(ws[|ws| - 1]);
      assert ws[..|ws| - 1] + [ws[|ws| - 1]] == ws;
    }
  }

  // ---- which characters count ----

  /** Capital letters outside ASCII whose lower case is an ASCII letter: the Kelvin sign and the dotted I. */
  const FOREIGN := "\U{212A}\U{0130}"

  lemma LettersKept(i: nat)
    requires i < 26
    ensures LowerRune(CAPITALS[i]) == LETTERS[i] == LowerRune(LETTERS[i]) && Kept(LETTERS[i])
  {
  }

  lemma KeptIsPlain(c: char)
    ensures Kept(c) <==> c in LETTERS || c in DIGITS
  {
    LetterIff(c);
    DigitIff(c);
  }

  /** A character is kept if it is a letter or a digit, in any case; a blank, a tab or a newline separates; anything else is dropped. */
  lemma CharacterCounts(c: char)
    ensures Kept(LowerRune(c)) <==> c in LETTERS || c in DIGITS || c in CAPITALS || c in FOREIGN
    ensures IsGap(LowerRune(c)) <==> c in " \t\n"
    ensures c in LETTERS || c in DIGITS ==> LowerRune(c) == c
  {
    KeptIsPlain(c);
    KeptIsPlain(LowerRune(c));
    CapitalIff(c);
    assert FOREIGN[0] == '\U{212A}' && FOREIGN[1] == '\U{0130}';
    assert " \t\n"[0] == ' ' && " \t\n"[1] == '\t' && " \t\n"[2] == '\n';
  }

  /** Words of letters and digits, with single blanks between them. */
  ghost predicate IsNormal(s: string) {
    exists ws: seq<string> :: s == Join(ws) && forall i :: 0 <= i < |ws| ==> PlainWord(ws[i])
  }

  ghost predicate PlainWord(w: string) {
    w != [] && forall i :: 0 <= i < |w| ==> w[i] in LETTERS || w[i] in DIGITS
  }

  lemma GoodIsPlain(w: string)
    ensures GoodWord(w) <==> PlainWord(w)
  {
    forall i | 0 <= i < |w| ensures Kept(w[i]) <==> w[i] in LETTERS || w[i] in DIGITS {
      KeptIsPlain(w[i]);
    }
  }

  lemma AllGoodIsPlain(ws: seq<string>)
    ensures GoodWords(ws) <==> forall i :: 0 <= i < |ws| ==> PlainWord(ws[i])
  {
    forall i | 0 <= i < |ws| ensures GoodWord(ws[i]) <==> PlainWord(ws[i]) {
      GoodIsPlain(ws[i]);
    }
  }

  lemma NormalIsKept(ws: seq<string>)
    requires GoodWords(ws)
    ensures Normalized(Join(ws)) == Join(ws)
  {
    SplitOfJoin(ws);
    if ws != [] {
      assert GoodWord(ws[|ws| - 1]);
      assert ws[..|ws| - 1] + [ws[|ws| - 1]] == ws;
    }
  }

  /** Everything is normalized to words of lower-case letters and digits between single blanks, and those texts are left alone. */
  lemma NormalIff(s: string)
    ensures IsNormal(Normalized(s))
    ensures Normalized(s) == s <==> IsNormal(s)
  {
    SplitIsGood(s);
    AllGoodIsPlain(Words(s));
    assert Normalized(s) == Join(Words(s));
    if IsNormal(s) {
      var ws: seq<string> :| s == Join(ws) && forall i :: 0 <= i < |ws| ==> PlainWord(ws[i]);
      AllGoodIsPlain(ws);
      NormalIsKept(ws);
    }
  }

  /** Characters that are the same but for the case of a letter. */
  ghost predicate SameButCase(a: char, b: char) {
    a == b || exists i :: 0 <= i < 26 && {a, b} == {LETTERS[i], CAPITALS[i]}
  }

  lemma SameLower(a: char, b: char)
    requires SameButCase(a, b)
    ensures LowerRune(a) == LowerRune(b)
  {
    if a != b {
      var i :| 0 <= i < 26 && {a, b} == {LETTERS[i], CAPITALS[i]};
      LettersKept(i);
      assert a in {LETTERS[i], CAPITALS[i]} && b in {LETTERS[i], CAPITALS[i]};
    }
  }

  /** Case makes no difference. */
  lemma {:induction false} CaseIsIgnored(s: string, t: string)
    requires |s| == |t| && forall i :: 0 <= i < |s| ==> SameButCase(s[i], t[i])
    ensures SplitText(s) == SplitText(t) && Normalized(s) == Normalized(t)
  {
    if s != [] {
      CaseIsIgnored(s[..|s| - 1], t[..|t| - 1]);
      SameLower(s[|s| - 1], t[|t| - 1]);
    }
  }

  lemma NoiseFeedsNothing(p: Split, c: char)
    requires c !in LETTERS && c !in DIGITS && c !in CAPITALS && c !in FOREIGN && c !in " \t\n"
    ensures Feed(p, c) == p
  {
    CharacterCounts(c);
  }

  lemma SplitSnoc(s: string, c: char)
    ensures SplitText(s + [c]) == Feed(SplitText(s), c)
  {
    assert (s + [c])[..|s|] == s;
  }

  lemma {:induction false} SameStartSplits(s: string, t: string, b: string)
    requires SplitText(s) == SplitText(t)
    ensures SplitText(s + b) == SplitText(t + b)
    decreases b
  {
    if b == [] {
      assert s + b == s && t + b == t;
    } else {
      var init, last := b[..|b| - 1], b[|b| - 1];
      SameStartSplits(s, t, init);
      assert s + b == (s + init) + [last] && t + b == (t + init) + [last];
      SplitSnoc(s + init, last);
      SplitSnoc(t + init, last);
    }
  }

  /** Characters other than letters, digits and separators make no difference. */
  lemma NoiseIsIgnored(a: string, c: char, b: string)
    requires c !in LETTERS && c !in DIGITS && c !in CAPITALS && c !in FOREIGN && c !in " \t\n"
    ensures Normalized(a + [c] + b) == Normalized(a + b)
  {
    SplitSnoc(a, c);
    NoiseFeedsNothing(SplitText(a), c);
    SameStartSplits(a + [c], a, b);
  }

  // ---- phrases in order ----

  predicate At(t: string, i: nat, n: string) {
    i + |n| <= |t| && t[i..i + |n|] == n
  }

  /** The leftmost occurrence of n at or after cursor. */
  function Index(t: string, cursor: nat, n: string): (i: Option<nat>)
    requires cursor <= |t|
    ensures i.Some? ==> i.value + |n| <= |t|
    decreases |t| - cursor
  {
    if At(t, cursor, n) then Some(cursor)
    else if cursor == |t| then None
    else Index(t, cursor + 1, n)
  }

  lemma {:induction false} IndexIsLeftmost(t: string, cursor: nat, n: string)
    requires cursor <= |t|
    ensures match Index(t, cursor, n)
            case Some(i) => cursor <= i && At(t, i, n) && forall j :: cursor <= j < i ==> !At(t, j, n)
            case None => forall j :: cursor <= j ==> !At(t, j, n)
    decreases |t| - cursor
  {
    if !At(t, cursor, n) && cursor < |t| {
      IndexIsLeftmost(t, cursor + 1, n);
    }
  }

  /** Where a placement of some phrases ends. */
  function EndOf(ns: seq<string>, ps: seq<nat>): nat
    requires |ps| == |ns|
  {
    if ns == [] then 0 else ps[|ps| - 1] + |ns[|ns| - 1]|
  }

  /** ps places the phrases in t, each one after the end of the one before. */
  ghost predicate Placement(t: string, ns: seq<string>, ps: seq<nat>) {
    && |ps| == |ns|
    && (forall k :: 0 <= k < |ns| ==> At(t, ps[k], ns[k]))
    && (forall k :: 0 < k < |ns| ==> ps[k - 1] + |ns[k - 1]| <= ps[k])
  }

  ghost predicate Placeable(t: string, ns: seq<string>) {
    exists ps :: Placement(t, ns, ps)
  }

  lemma PlacementPrefix(t: string, ns: seq<string>, ps: seq<nat>, k: nat)
    requires Placement(t, ns, ps) && k <= |ns|
    ensures Placement(t, ns[..k], ps[..k])
    ensures k < |ns| ==> EndOf(ns[..k], ps[..k]) <= ps[k] && At(t, ps[k], ns[k])
  {
  }

  function NormalizedAll(wants: seq<string>): (ns: seq<string>)
    ensures |ns| == |wants| && forall i :: 0 <= i < |wants| ==> ns[i] == Normalized(wants[i])
  {
    seq(|wants|, i requires 0 <= i < |wants| => Normalized(wants[i]))
  }

  /** ps is a placement of the first k phrases, and none ends before it. */
  ghost predicate Leftmost(t: string, ns: seq<string>, ps: seq<nat>) {
    Placement(t, ns, ps) && forall qs :: Placement(t, ns, qs) ==> EndOf(ns, ps) <= EndOf(ns, qs)
  }

  lemma PlacementSnoc(t: string, ns: seq<string>, n: string, ps: seq<nat>, i: nat)
    requires Placement(t, ns, ps) && EndOf(ns, ps) <= i && At(t, i, n)
    ensures Placement(t, ns + [n], ps + [i]) && EndOf(ns + [n], ps + [i]) == i + |n|
  {
  }

  lemma PlacementLast(t: string, ns: seq<string>, n: string, qs: seq<nat>) returns (init: seq<nat>, j: nat)
    requires Placement(t, ns + [n], qs)
    ensures Placement(t, ns, init) && EndOf(ns, init) <= j && At(t, j, n) && EndOf(ns + [n], qs) == j + |n|
  {
    PlacementPrefix(t, ns + [n], qs, |ns|);
    assert (ns + [n])[..|ns|] == ns;
    init, j := qs[..|ns|], qs[|ns|];
  }

  /** However the phrases and one more are placed, the last one is not before its leftmost occurrence. */
  lemma NotBefore(t: string, ns: seq<string>, n: string, ps: seq<nat>, qs: seq<nat>)
    requires Leftmost(t, ns, ps) && EndOf(ns, ps) <= |t| && Placement(t, ns + [n], qs)
    ensures Index(t, EndOf(ns, ps), n).Some? && Index(t, EndOf(ns, ps), n).value + |n| <= EndOf(ns + [n], qs)
  {
    var init, j := PlacementLast(t, ns, n, qs);
    assert EndOf(ns, ps) <= EndOf(ns, init) <= j;
    IndexIsLeftmost(t, EndOf(ns, ps), n);
  }

  /** Taking the leftmost occurrence keeps the placement leftmost. */
  lemma GreedyFinds(t: string, ns: seq<string>, n: string, ps: seq<nat>, i: nat)
    requires Leftmost(t, ns, ps) && EndOf(ns, ps) <= |t| && Index(t, EndOf(ns, ps), n) == Some(i)
    ensures Leftmost(t, ns + [n], ps + [i]) && EndOf(ns + [n], ps + [i]) == i + |n| <= |t|
  {
    IndexIsLeftmost(t, EndOf(ns, ps), n);
    PlacementSnoc(t, ns, n, ps, i);
    forall qs | Placement(t, ns + [n], qs) ensures i + |n| <= EndOf(ns + [n], qs) {
      NotBefore(t, ns, n, ps, qs);
    }
  }

  /** If there is none, nothing can be placed. */
  lemma GreedyMisses(t: string, ns: seq<string>, n: string, ps: seq<nat>)
    requires Leftmost(t, ns, ps) && EndOf(ns, ps) <= |t| && Index(t, EndOf(ns, ps), n) == None
    ensures !Placeable(t, ns + [n])
  {
    forall qs ensures !Placement(t, ns + [n], qs) {
      if Placement(t, ns + [n], qs) {
        NotBefore(t, ns, n, ps, qs);
      }
    }
  }

  /** The first k phrases are placed leftmost, up to the cursor. */
  ghost predicate Scanned(t: string, ns: seq<string>, k: nat, ps: seq<nat>, cursor: nat) {
    k <= |ns| && Leftmost(t, ns[..k], ps) && cursor == EndOf(ns[..k], ps) <= |t|
  }

  /** One step of the scan over the phrases: it extends the leftmost placement, or there is none to extend it to. */
  lemma GreedyStep(t: string, ns: seq<string>, k: nat, ps: seq<nat>, cursor: nat)
    requires k < |ns| && Scanned(t, ns, k, ps, cursor)
    ensures var i := Index(t, cursor, ns[k]);
            if i.Some?
            then Scanned(t, ns, k + 1, ps + [i.value], i.value + |ns[k]|)
            else Placeable(t, ns[..k]) && !Placeable(t, ns[..k + 1]) && !Placeable(t, ns)
  {
    var i := Index(t, cursor, ns[k]);
    assert ns[..k + 1] == ns[..k] + [ns[k]];
    if i.Some? {
      GreedyFinds(t, ns[..k], ns[k], ps, i.value);
    } else {
      GreedyMisses(t, ns[..k], ns[k], ps);
      PrefixPlaceable(t, ns, k + 1);
    }
  }

  lemma PrefixPlaceable(t: string, ns: seq<string>, k: nat)
    requires k <= |ns|
    ensures Placeable(t, ns) ==> Placeable(t, ns[..k])
  {
    if ps :| Placement(t, ns, ps) {
      PlacementPrefix(t, ns, ps, k);
    }
  }

  lemma ScanBegins(t: string, ns: seq<string>)
    ensures Scanned(t, ns, 0, [], 0)
  {
    assert ns[..0] == [];
  }

  lemma ScanEnds(t: string, ns: seq<string>, ps: seq<nat>, cursor: nat)
    requires Scanned(t, ns, |ns|, ps, cursor)
    ensures Placeable(t, ns)
  {
    assert ns[..|ns|] == ns;
  }

  /** The first phrase from the k-th on that the scan from cursor does not find. */
  function FirstMissing(t: string, ns: seq<string>, k: nat, cursor: nat): Option<nat>
    requires k <= |ns| && cursor <= |t|
    decreases |ns| - k
  {
    if k == |ns| then None
    else
      var i := Index(t, cursor, ns[k]);
      if i.None? then Some(k) else FirstMissing(t, ns, k + 1, i.value + |ns[k]|)
  }

  lemma FirstMissingStep(t: string, ns: seq<string>, k: nat, cursor: nat)
    requires k < |ns| && cursor <= |t|
    ensures var i := Index(t, cursor, ns[k]);
            FirstMissing(t, ns, k, cursor) == if i.None? then Some(k) else FirstMissing(t, ns, k + 1, i.value + |ns[k]|)
  {
  }

  lemma {:induction false} ScanIsExact(t: string, ns: seq<string>, k: nat, ps: seq<nat>, cursor: nat)
    requires Scanned(t, ns, k, ps, cursor)
    ensures var m := FirstMissing(t, ns, k, cursor);
            && (m.None? <==> Placeable(t, ns))
            && (m.Some? ==> m.value < |ns| && Placeable(t, ns[..m.value]) && !Placeable(t, ns[..m.value + 1]))
    decreases |ns| - k
  {
    if k == |ns| {
      ScanEnds(t, ns, ps, cursor);
    } else {
      GreedyStep(t, ns, k, ps, cursor);
      var i := Index(t, cursor, ns[k]);
      if i.Some? {
        ScanIsExact(t, ns, k + 1, ps + [i.value], i.value + |ns[k]|);
      }
    }
  }

  lemma GreedyIsExact(t: string, ns: seq<string>)
    ensures var m := FirstMissing(t, ns, 0, 0);
            && (m.None? <==> Placeable(t, ns))
            && (m.Some? ==> m.value < |ns| && Placeable(t, ns[..m.value]) && !Placeable(t, ns[..m.value + 1]))
  {
    ScanBegins(t, ns);
    ScanIsExact(t, ns, 0, [], 0);
  }

  /**
   The greedy scan succeeds exactly when some increasing, non-overlapping choice of occurrences of all the
   phrases exists; and the phrase it reports is the first one up to which there is none.
   */
  method ContainsInOrder(transcript: string, wants: seq<string>) returns (missing: Option<nat>)
    ensures missing.None? <==> Placeable(transcript, NormalizedAll(wants))
    ensures missing.Some? ==> missing.value < |wants|
                              && Placeable(transcript, NormalizedAll(wants)[..missing.value])
                              && !Placeable(transcript, NormalizedAll(wants)[..missing.value + 1])
  {
    ghost var ns := NormalizedAll(wants);
    missing := Scan(transcript, wants, ns);
    GreedyIsExact(transcript, ns);
  }

  ghost predicate NormalForms(wants: seq<string>, ns: seq<string>) {
    |ns| == |wants| && forall k {:trigger Normalized(wants[k])} :: 0 <= k < |wants| ==> ns[k] == Normalized(wants[k])
  }

  /** Where the k-th phrase is found next, and how long it is. */
  method Find(transcript: string, cursor: nat, wants: seq<string>, k: nat, ghost ns: seq<string>) returns (i: Option<nat>, width: nat)
    requires cursor <= |transcript| && k < |wants| && NormalForms(wants, ns)
    ensures i == Index(transcript, cursor, ns[k]) && width == |ns[k]|
  {
    var n := Normalize(wants[k]);
    return Index(transcript, cursor, n), |n|;
  }

  /** The loop over the phrases. */
  method Scan(transcript: string, wants: seq<string>, ghost ns: seq<string>) returns (missing: Option<nat>)
    requires NormalForms(wants, ns)
    ensures missing == FirstMissing(transcript, ns, 0, 0)
  {
    var cursor: nat := 0;
    ghost var goal := FirstMissing(transcript, ns, 0, 0);
    for k := 0 to |wants|
      invariant cursor <= |transcript|
      invariant FirstMissing(transcript, ns, k, cursor) == goal
    {
      FirstMissingStep(transcript, ns, k, cursor);
      var i, width := Find(transcript, cursor, wants, k, ns);
      if i.None? {
        return Some(k);
      }
      cursor := i.value + width;
    }
    return None;
  }
}
