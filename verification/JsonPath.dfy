/** Dotted-path lookup in a decoded JSON body (internal/webhook/types.go): splitPath and NestedAny. */
module JsonPath {
  import opened Basics
  import opened Numerals

  datatype Json =
    | Null
    | Bool(b: bool)
    | Num(value: real)
    | Str(s: string)
    | Arr(elems: seq<Json>)
    | Obj(fields: map<string, Json>)

  /** No array is longer than a 64-bit int can count. */
  ghost predicate Fits(j: Json) {
    match j
    case Arr(elems) => |elems| < 0x8000_0000_0000_0000 && forall i | 0 <= i < |elems| :: Fits(elems[i])
    case Obj(fields) => forall k | k in fields :: Fits(fields[k])
    case _ => true
  }

  // ---- splitPath ----

  function Segments(cur: string, p: string): seq<string>
    decreases |p|
  {
    if p == [] then (if cur == [] then [] else [cur])
    else if p[0] == '.' then [cur] + Segments([], p[1..])
    else Segments(cur + [p[0]], p[1..])
  }

  method SplitPath(p: string) returns (out: seq<string>)
    ensures out == Segments([], p)
  {
    out := [];
    var cur := [];
    for i := 0 to |p|
      invariant out + Segments(cur, p[i..]) == Segments([], p)
    {
      assert p[i..][1..] == p[i + 1..];
      if p[i] == '.' {
        assert out + ([cur] + Segments([], p[i + 1..])) == (out + [cur]) + Segments([], p[i + 1..]);
        out := out + [cur];
        cur := [];
      } else {
        cur := cur + [p[i]];
      }
    }
    assert p[|p|..] == [];
    if cur != [] {
      out := out + [cur];
    }
  }

  /** The dotted form of a list of segments. */
  function Dotted(segs: seq<string>): string {
    if segs == [] then [] else if |segs| == 1 then segs[0] else segs[0] + "." + Dotted(segs[1..])
  }

  predicate DotFree(s: string) {
    forall i :: 0 <= i < |s| ==> s[i] != '.'
  }

  predicate EndsInDot(p: string) {
    p != [] && p[|p| - 1] == '.'
  }

  /** Splitting cuts at every dot. */
  lemma {:induction false} SplitCuts(cur: string, p: string)
    requires DotFree(cur)
    ensures forall i :: 0 <= i < |Segments(cur, p)| ==> DotFree(Segments(cur, p)[i])
    decreases |p|
  {
    if p != [] {
      if p[0] == '.' {
        SplitCuts([], p[1..]);
      } else {
        SplitCuts(cur + [p[0]], p[1..]);
      }
    }
  }

  lemma DottedPush(cur: string, rest: seq<string>)
    ensures Dotted([cur] + rest) == cur + (if rest == [] then [] else "." + Dotted(rest))
  {
    assert ([cur] + rest)[1..] == rest;
    if rest != [] {
      assert Dotted([cur] + rest) == cur + "." + Dotted(rest) == cur + ("." + Dotted(rest));
    } else {
      assert Dotted([cur] + rest) == cur == cur + [];
    }
  }

  /** Splitting loses nothing but a trailing dot. */
  lemma {:induction false} SplitKeepsText(cur: string, p: string)
    ensures Dotted(Segments(cur, p)) + (if EndsInDot(p) then "." else []) == cur + p
    ensures p != [] ==> Segments(cur, p) != []
    decreases |p|
  {
    if p == [] {
      assert cur + p == cur && Dotted(Segments(cur, p)) == cur;
    } else if p[0] == '.' {
      var rest, tail := Segments([], p[1..]), p[1..];
      SplitKeepsText([], tail);
      DottedPush(cur, rest);
      assert p == "." + tail && [] + tail == tail;
      assert tail != [] ==> tail[|tail| - 1] == p[|p| - 1];
      Recombine(cur, Dotted(rest), tail, if EndsInDot(tail) then "." else []);
    } else {
      SplitKeepsText(cur + [p[0]], p[1..]);
      assert cur + p == (cur + [p[0]]) + p[1..];
      assert |p| > 1 ==> p[1..][|p| - 2] == p[|p| - 1];
      assert EndsInDot(p) == EndsInDot(p[1..]);
    }
  }

  lemma Recombine(cur: string, text: string, tail: string, dot: string)
    requires text + dot == tail
    ensures cur + ("." + text) + dot == cur + ("." + tail)
  {
  }

  lemma {:induction false} SegmentsSkip(cur: string, s: string, rest: string)
    requires DotFree(s)
    ensures Segments(cur, s + rest) == Segments(cur + s, rest)
    decreases s
  {
    if s == [] {
      assert s + rest == rest && cur + s == cur;
    } else {
      assert (s + rest)[0] == s[0] && (s + rest)[1..] == s[1..] + rest;
      assert (cur + [s[0]]) + s[1..] == cur + s;
      SegmentsSkip(cur + [s[0]], s[1..], rest);
    }
  }

  ghost predicate Proper(segs: seq<string>) {
    forall i :: 0 <= i < |segs| ==> segs[i] != [] && DotFree(segs[i])
  }

  lemma {:induction false} SplitOfDotted(segs: seq<string>)
    requires Proper(segs)
    ensures Segments([], Dotted(segs)) == segs
  {
    if |segs| == 1 {
      SegmentsSkip([], segs[0], []);
      assert segs[0] + [] == segs[0] && [] + segs[0] == segs[0] && segs == [segs[0]];
    } else if |segs| > 1 {
      var tail := "." + Dotted(segs[1..]);
      assert Dotted(segs) == segs[0] + tail;
      SegmentsSkip([], segs[0], tail);
      assert [] + segs[0] == segs[0] && tail[1..] == Dotted(segs[1..]);
      SplitOfDotted(segs[1..]);
    }
  }

  // ---- array segments ----

  /** The low 64 bits of a number, as a signed int. */
  function Wrap(x: int): int {
    var m := x % 0x1_0000_0000_0000_0000;
    if m < 0x8000_0000_0000_0000 then m else m - 0x1_0000_0000_0000_0000
  }

  /** The index accumulated over a segment; None once a character is no digit. */
  function Scan(seg: string): Option<int> {
    if seg == [] then Some(-1)
    else if seg == "-" then Some(0)
    else
      var prev := Scan(seg[..|seg| - 1]);
      var ch := seg[|seg| - 1];
      if prev.None? || !IsDigit(ch) then None
      else Some(Wrap((if prev.value < 0 then 0 else prev.value) * 10 + DigitValue(ch)))
  }

  function Child(cur: Json, seg: string): Option<Json> {
    match cur
    case Obj(fields) => if seg in fields then Some(fields[seg]) else None
    case Arr(elems) =>
      var idx := Scan(seg);
      if idx.None? || idx.value < 0 || idx.value >= |elems| then None else Some(elems[idx.value])
    case _ => None
  }

  function Follow(cur: Json, segs: seq<string>): Option<Json> {
    if segs == [] then Some(cur)
    else
      var next := Child(cur, segs[0]);
      if next.None? || next.value.Null? then None else Follow(next.value, segs[1..])
  }

  function Nested(json: Option<map<string, Json>>, path: string): Option<Json> {
    if json.None? || path == [] then None else Follow(Obj(json.value), Segments([], path))
  }

  lemma {:induction false} ScanStops(seg: string, i: nat)
    requires i <= |seg| && Scan(seg[..i]).None?
    ensures Scan(seg).None?
    decreases |seg| - i
  {
    if i < |seg| {
      assert seg[..i + 1][..i] == seg[..i];
      assert i > 0;
      assert seg[..i + 1] != "-";
      ScanStops(seg, i + 1);
    } else {
      assert seg[..i] == seg;
    }
  }

  /** The inner loop over the characters of a segment. */
  method ParseIndex(seg: string) returns (index: Option<int>)
    ensures index == Scan(seg)
  {
    var idx := -1;
    for i := 0 to |seg|
      invariant Scan(seg[..i]) == Some(idx)
    {
      assert seg[..i + 1][..i] == seg[..i];
      if i == 0 && seg[i] == '-' {
        assert seg[..i + 1] == "-";
        idx := 0;
        continue;
      }
      assert seg[..i + 1] != "-" by {
        assert seg[..i + 1][i] == seg[i];
      }
      if !IsDigit(seg[i]) {
        ScanStops(seg, i + 1);
        return None;
      }
      if idx < 0 {
        idx := 0;
      }
      idx := Wrap(idx * 10 + DigitValue(seg[i]));
    }
    assert seg[..|seg|] == seg;
    return Some(idx);
  }

  /** The lookup loop; None is Go's nil. */
  method NestedAny(json: Option<map<string, Json>>, path: string) returns (out: Option<Json>)
    ensures out == Nested(json, path)
  {
    if json.None? || path == [] {
      return None;
    }
    var cur := Obj(json.value);
    var segs := SplitPath(path);
    for s := 0 to |segs|
      invariant Follow(cur, segs[s..]) == Follow(Obj(json.value), segs)
    {
      var seg := segs[s];
      assert segs[s..][0] == seg && segs[s..][1..] == segs[s + 1..];
      if cur.Obj? {
        if seg !in cur.fields {
          return None;
        }
        cur := cur.fields[seg];
      } else if cur.Arr? {
        var index := ParseIndex(seg);
        if index.None? {
          return None;
        }
        var idx := index.value;
        if idx < 0 || idx >= |cur.elems| {
          return None;
        }
        cur := cur.elems[idx];
      } else {
        return None;
      }
      if cur.Null? {
        return None;
      }
    }
    return Some(cur);
  }

  // ---- structural descent ----

  /** A step of a path, as a caller means it. */
  datatype Step = Key(k: string) | Index(n: nat)

  function Text(step: Step): string {
    match step
    case Key(k) => k
    case Index(n) => Decimal(n)
  }

  function Texts(steps: seq<Step>): (segs: seq<string>)
    ensures |segs| == |steps| && forall i :: 0 <= i < |segs| ==> segs[i] == Text(steps[i])
  {
    seq(|steps|, i requires 0 <= i < |steps| => Text(steps[i]))
  }

  /** A key names a field; a number is a position of an array, or a field of that name. */
  function Pick(cur: Json, step: Step): Option<Json> {
    if cur.Obj? && Text(step) in cur.fields then Some(cur.fields[Text(step)])
    else if cur.Arr? && step.Index? && step.n < |cur.elems| then Some(cur.elems[step.n])
    else None
  }

  function Descend(cur: Json, steps: seq<Step>): Option<Json> {
    if steps == [] then Some(cur)
    else
      var next := Pick(cur, steps[0]);
      if next.None? || next.value.Null? then None else Descend(next.value, steps[1..])
  }

  /** The array position that a segment can select in practice, if any. */
  function Selects(seg: string): Option<nat> {
    var idx := Scan(seg);
    if idx.Some? && 0 <= idx.value < 0x7fff_ffff_ffff_ffff then Some(idx.value) else None
  }

  function Intends(step: Step): Option<nat> {
    if step.Index? && step.n < 0x7fff_ffff_ffff_ffff then Some(step.n) else None
  }

  ghost predicate WellFormed(steps: seq<Step>) {
    steps != [] && forall i :: 0 <= i < |steps| && steps[i].Key? ==> steps[i].k != [] && DotFree(steps[i].k)
  }

  /** From the second step on, the text of each step selects the position that the step means. */
  ghost predicate Unambiguous(steps: seq<Step>) {
    forall i :: 1 <= i < |steps| ==> Selects(Text(steps[i])) == Intends(steps[i])
  }

  ghost predicate AgreesEverywhere(steps: seq<Step>) {
    forall fields :: Fits(Obj(fields)) ==> Nested(Some(fields), Dotted(Texts(steps))) == Descend(Obj(fields), steps)
  }

  /** Dotted lookup is structural descent on every body exactly when no later step's text reads as another position. */
  lemma LookupIsDescentIff(steps: seq<Step>)
    requires WellFormed(steps)
    ensures AgreesEverywhere(steps) <==> Unambiguous(steps)
  {
    TextsProper(steps);
    SplitOfDotted(Texts(steps));
    assert Dotted(Texts(steps)) != [] by {
      assert Segments([], []) == [];
    }
    if Unambiguous(steps) {
      forall fields | Fits(Obj(fields)) ensures Nested(Some(fields), Dotted(Texts(steps))) == Descend(Obj(fields), steps) {
        FollowDescends(Obj(fields), steps);
      }
    } else {
      var i :| 1 <= i < |steps| && Selects(Text(steps[i])) != Intends(steps[i]);
      Misled(steps, i);
    }
  }

  lemma TextsProper(steps: seq<Step>)
    requires WellFormed(steps)
    ensures Proper(Texts(steps))
  {
    forall i | 0 <= i < |steps| ensures Text(steps[i]) != [] && DotFree(Text(steps[i])) {
      if steps[i].Index? {
        assert forall j :: 0 <= j < |Decimal(steps[i].n)| ==> IsDigit(Decimal(steps[i].n)[j]);
      }
    }
  }

  lemma PickIsChild(cur: Json, step: Step)
    requires Fits(cur) && (cur.Arr? ==> Selects(Text(step)) == Intends(step))
    ensures Pick(cur, step) == Child(cur, Text(step))
    ensures Pick(cur, step).Some? ==> Fits(Pick(cur, step).value)
  {
  }

  lemma {:induction false} FollowDescends(cur: Json, steps: seq<Step>)
    requires Fits(cur) && Unambiguous(steps)
    requires steps != [] && cur.Arr? ==> Selects(Text(steps[0])) == Intends(steps[0])
    ensures Follow(cur, Texts(steps)) == Descend(cur, steps)
    decreases steps
  {
    if steps != [] {
      PickIsChild(cur, steps[0]);
      assert Texts(steps)[1..] == Texts(steps[1..]);
      var next := Pick(cur, steps[0]);
      if next.Some? {
        forall i | 1 <= i < |steps[1..]| ensures Selects(Text(steps[1..][i])) == Intends(steps[1..][i]) {
          assert steps[1..][i] == steps[i + 1];
        }
        FollowDescends(next.value, steps[1..]);
      }
    }
  }

  /** Objects nested along the segments, around an inner value. */
  function Nest(segs: seq<string>, inner: Json): Json {
    if segs == [] then inner else Obj(map[segs[0] := Nest(segs[1..], inner)])
  }

  lemma {:induction false} NestFits(segs: seq<string>, inner: Json)
    requires Fits(inner) && !inner.Null?
    ensures Fits(Nest(segs, inner)) && !Nest(segs, inner).Null?
  {
    if segs != [] {
      NestFits(segs[1..], inner);
    }
  }

  lemma {:induction false} NestFollowed(segs: seq<string>, rest: seq<string>, inner: Json)
    requires !inner.Null?
    ensures Follow(Nest(segs, inner), segs + rest) == Follow(inner, rest)
    ensures !Nest(segs, inner).Null?
  {
    if segs == [] {
      assert segs + rest == rest;
    } else {
      NestFollowed(segs[1..], rest, inner);
      assert (segs + rest)[0] == segs[0] && (segs + rest)[1..] == segs[1..] + rest;
      assert Child(Nest(segs, inner), segs[0]) == Some(Nest(segs[1..], inner));
    }
  }

  lemma {:induction false} NestDescended(steps: seq<Step>, rest: seq<Step>, inner: Json)
    requires !inner.Null?
    ensures Descend(Nest(Texts(steps), inner), steps + rest) == Descend(inner, rest)
    ensures !Nest(Texts(steps), inner).Null?
  {
    if steps == [] {
      assert steps + rest == rest;
    } else {
      NestDescended(steps[1..], rest, inner);
      assert Texts(steps)[1..] == Texts(steps[1..]);
      assert (steps + rest)[0] == steps[0] && (steps + rest)[1..] == steps[1..] + rest;
      assert Pick(Nest(Texts(steps), inner), steps[0]) == Some(Nest(Texts(steps[1..]), inner));
    }
  }

  lemma TextsAppend(a: seq<Step>, b: seq<Step>)
    ensures Texts(a + b) == Texts(a) + Texts(b)
  {
  }

  lemma NestLeads(steps: seq<Step>, rest: seq<Step>, inner: Json)
    requires Fits(inner) && !inner.Null?
    ensures Fits(Nest(Texts(steps), inner)) && !Nest(Texts(steps), inner).Null?
    ensures Follow(Nest(Texts(steps), inner), Texts(steps + rest)) == Follow(inner, Texts(rest))
    ensures Descend(Nest(Texts(steps), inner), steps + rest) == Descend(inner, rest)
  {
    NestFits(Texts(steps), inner);
    NestFollowed(Texts(steps), Texts(rest), inner);
    NestDescended(steps, rest, inner);
    TextsAppend(steps, rest);
  }

  /** An array that is empty but for one position. */
  function OnlyAt(w: nat, j: Json): Json {
    Arr(seq(w + 1, i => if i == w then j else Null))
  }

  /** An ambiguous step has a body that tells the two readings apart. */
  lemma Misled(steps: seq<Step>, i: nat)
    requires WellFormed(steps) && 1 <= i < |steps| && Selects(Text(steps[i])) != Intends(steps[i])
    requires Segments([], Dotted(Texts(steps))) == Texts(steps) && Dotted(Texts(steps)) != []
    ensures !AgreesEverywhere(steps)
  {
    var before, rest := steps[..i], steps[i..];
    assert before + rest == steps;
    var inner := Telling(rest);
    NestLeads(before, rest, inner);
    Separate(Nest(Texts(before), inner).fields, steps);
  }

  lemma Separate(fields: map<string, Json>, steps: seq<Step>)
    requires Fits(Obj(fields)) && Segments([], Dotted(Texts(steps))) == Texts(steps) && Dotted(Texts(steps)) != []
    requires Follow(Obj(fields), Texts(steps)) != Descend(Obj(fields), steps)
    ensures !AgreesEverywhere(steps)
  {
    assert Nested(Some(fields), Dotted(Texts(steps))) != Descend(Obj(fields), steps);
  }

  lemma Telling(rest: seq<Step>) returns (inner: Json)
    requires rest != [] && Selects(Text(rest[0])) != Intends(rest[0])
    ensures Fits(inner) && !inner.Null? && Follow(inner, Texts(rest)) != Descend(inner, rest)
  {
    var seen, means := Selects(Text(rest[0])), Intends(rest[0]);
    var w := if seen.Some? then seen.value else means.value;
    var beyond := Nest(Texts(rest[1..]), Str("here"));
    NestLeads(rest[1..], [], Str("here"));
    assert rest[1..] + [] == rest[1..];
    inner := OnlyAt(w, beyond);
    assert Texts(rest)[1..] == Texts(rest[1..]);
    Apart(inner, beyond, w, rest);
  }

  lemma Apart(inner: Json, beyond: Json, w: nat, rest: seq<Step>)
    requires rest != [] && Selects(Text(rest[0])) != Intends(rest[0]) && inner == OnlyAt(w, beyond) && Fits(inner) && !beyond.Null?
    requires w == if Selects(Text(rest[0])).Some? then Selects(Text(rest[0])).value else Intends(rest[0]).value
    requires Follow(beyond, Texts(rest)[1..]) == Some(Str("here")) && Descend(beyond, rest[1..]) == Some(Str("here"))
    ensures Follow(inner, Texts(rest)) != Descend(inner, rest)
  {
    assert inner.elems[w] == beyond;
    if Selects(Text(rest[0])).Some? {
      assert Child(inner, Text(rest[0])) == Some(beyond);
    } else {
      assert Pick(inner, rest[0]) == Some(beyond);
    }
  }

  // ---- which steps are unambiguous ----

  /** Optional minus sign, then digits only, and not empty. */
  predicate LooksLikeIndex(seg: string) {
    && seg != []
    && (IsDigit(seg[0]) || seg[0] == '-')
    && forall i :: 1 <= i < |seg| ==> IsDigit(seg[i])
  }

  lemma {:induction false} ScanAccepts(seg: string)
    requires seg != []
    ensures Scan(seg).Some? <==> LooksLikeIndex(seg)
  {
    if |seg| > 1 {
      var init := seg[..|seg| - 1];
      ScanAccepts(init);
      assert seg[|seg| - 1] == seg[|init|];
      if LooksLikeIndex(init) && IsDigit(seg[|seg| - 1]) {
        forall i | 1 <= i < |seg| ensures IsDigit(seg[i]) {
          assert i < |init| ==> seg[i] == init[i];
        }
      }
      if LooksLikeIndex(seg) {
        forall i | 1 <= i < |init| ensures IsDigit(init[i]) {
          assert init[i] == seg[i];
        }
      }
    } else {
      assert seg == [seg[0]];
      assert seg[..0] == [];
    }
  }

  ghost predicate Digits(s: string) {
    forall i :: 0 <= i < |s| ==> IsDigit(s[i])
  }

  lemma SmallKept(x: nat)
    requires x < 0x8000_0000_0000_0000
    ensures Wrap(x) == x
  {
  }

  /** Below 2^63 the digits are read for what they are, with any minus sign dropped. */
  lemma {:induction false} ScanReads(sign: string, d: string)
    requires sign == "" || sign == "-"
    requires Digits(d) && Value(d) < 0x8000_0000_0000_0000 && d != []
    ensures Scan(sign + d) == Some(Value(d))
    decreases d
  {
    var seg, init := sign + d, d[..|d| - 1];
    assert seg[..|seg| - 1] == sign + init;
    assert seg[|seg| - 1] == d[|d| - 1];
    assert IsDigit(d[|d| - 1]);
    assert seg != "-" by {
      assert seg[|seg| - 1] != '-';
    }
    assert Value(d) == 10 * Value(init) + DigitValue(d[|d| - 1]);
    if init == [] {
      assert sign + init == sign;
    } else {
      ScanReads(sign, init);
    }
    SmallKept(Value(d));
  }

  lemma ScanOfDecimal(n: nat)
    requires n < 0x8000_0000_0000_0000
    ensures Scan(Decimal(n)) == Some(n)
  {
    ValueOfDecimal(n);
    var d := Decimal(n);
    ScanReads("", d);
    assert "" + d == d;
  }

  /** Every index below 2^63 means what it says. */
  lemma IndicesAreRead(n: nat)
    requires n < 0x8000_0000_0000_0000
    ensures Selects(Text(Index(n))) == Intends(Index(n))
  {
    ScanOfDecimal(n);
  }

  /** A key that does not look like an index never selects an array element. */
  lemma OrdinaryKeys(k: string)
    requires k != [] && !LooksLikeIndex(k)
    ensures Selects(k) == None
  {
    ScanAccepts(k);
  }

  /** A negative position selects what the positive one does, although a negative index looks like a missing element. */
  lemma MinusIsIgnored(n: nat)
    requires n < 0x7fff_ffff_ffff_ffff
    ensures Selects("-" + Decimal(n)) == Some(n) && Selects("-") == Some(0)
  {
    ValueOfDecimal(n);
    ScanReads("-", Decimal(n));
  }

  /** Every path of ordinary keys and of positions below 2^63 is looked up as it is meant, on every body. */
  lemma OrdinaryPaths(steps: seq<Step>)
    requires WellFormed(steps)
    requires forall i :: 0 <= i < |steps| ==> if steps[i].Key? then !LooksLikeIndex(steps[i].k) else steps[i].n < 0x8000_0000_0000_0000
    ensures AgreesEverywhere(steps)
  {
    forall i | 1 <= i < |steps| ensures Selects(Text(steps[i])) == Intends(steps[i]) {
      if steps[i].Key? {
        OrdinaryKeys(steps[i].k);
      } else {
        IndicesAreRead(steps[i].n);
      }
    }
    LookupIsDescentIff(steps);
  }

  /** 2^64 wraps around to zero, so that it selects the first element of any array. */
  lemma TwoToThe64SelectsZero()
    ensures Selects(Decimal(0x1_0000_0000_0000_0000)) == Some(0)
  {
    var n: nat := 0x1_0000_0000_0000_0000 / 10;
    ValueOfDecimal(n);
    ScanReads("", Decimal(n));
    assert "" + Decimal(n) == Decimal(n);
    assert Decimal(0x1_0000_0000_0000_0000)[..|Decimal(n)|] == Decimal(n);
    assert Decimal(0x1_0000_0000_0000_0000)[|Decimal(n)|] == Digit(6);
  }
}
