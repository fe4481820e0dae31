/**
 The in-process DNS responder (internal/sip/resolver.go): its question parser, its response printer, and
 an independent reader of messages in the sense of sections 4.1.1 to 4.1.4 of RFC 1035.
 */
module Resolver {
  import opened Basics

  const DOT: byte := 46
  const TYPE_A: nat := 1
  const TYPE_AAAA: nat := 28
  const CLASS_IN: nat := 1
  const TTL: nat := 60

  function U16(b: bytes, i: nat): (n: nat)
    requires i + 2 <= |b|
    ensures n < 0x1_0000
  {
    var hi: int, lo: int := b[i], b[i + 1];
    256 * hi + lo
  }

  function Be16(n: nat): (b: bytes)
    ensures |b| == 2 && U16(b, 0) == n % 0x1_0000
  {
    [n / 256 % 256, n % 256]
  }

  lemma U16Be16(n: nat, b: bytes, i: nat)
    requires i + 2 <= |b| && b[i..i + 2] == Be16(n)
    ensures U16(b, i) == n % 0x1_0000
  {
    assert b[i] == b[i..i + 2][0] && b[i + 1] == b[i..i + 2][1];
  }

  // ---- names and questions ----

  type Name = seq<bytes>

  /** Labels as section 2.3.4 of RFC 1035 allows them. */
  predicate ValidName(name: Name) {
    forall i :: 0 <= i < |name| ==> 1 <= |name[i]| <= 63
  }

  function EncodeName(name: Name): bytes
    requires ValidName(name)
  {
    if name == [] then [0] else [|name[0]|] + name[0] + EncodeName(name[1..])
  }

  function EncodeQuestion(name: Name, qtype: nat, qclass: nat): bytes
    requires ValidName(name)
  {
    EncodeName(name) + Be16(qtype) + Be16(qclass)
  }

  /** The name as text, every label followed by a dot. */
  function Dotted(name: Name): bytes {
    if name == [] then [] else name[0] + [DOT] + Dotted(name[1..])
  }

  ghost predicate DotFree(name: Name) {
    forall i :: 0 <= i < |name| ==> DOT !in name[i]
  }

  /** Without dots inside labels, the text determines the name. */
  lemma {:induction false} DottedInjective(a: Name, b: Name)
    requires DotFree(a) && DotFree(b) && Dotted(a) == Dotted(b)
    ensures a == b
  {
    if a != [] && b != [] {
      var da, db := Dotted(a), Dotted(b);
      assert da[|a[0]|] == DOT && db[|b[0]|] == DOT;
      assert forall i :: 0 <= i < |a[0]| ==> da[i] == a[0][i];
      assert forall i :: 0 <= i < |b[0]| ==> db[i] == b[0][i];
      assert a[0] == da[..|a[0]|] == b[0];
      assert Dotted(a[1..]) == da[|a[0]| + 1..] == Dotted(b[1..]);
      DottedInjective(a[1..], b[1..]);
    }
  }

  // ---- the parser ----

  datatype Parsed = Bad | Good(name: bytes, next: nat)

  function ParseLabels(req: bytes, off: nat, sb: bytes): (p: Parsed)
    ensures p.Good? ==> p.next <= |req|
    decreases |req| - off
  {
    if off >= |req| then Bad
    else if req[off] == 0 then Good(sb, off + 1)
    else if off + 1 + req[off] > |req| then Bad
    else ParseLabels(req, off + 1 + req[off], sb + req[off + 1..off + 1 + req[off]] + [DOT])
  }

  datatype Question = Question(name: bytes, qtype: nat, end: nat)

  const NO_QUESTION := Question([], 0, 0)

  function QuestionAt(req: bytes, off: nat): Question {
    match ParseLabels(req, off, [])
    case Bad => NO_QUESTION
    case Good(name, next) => if next + 4 > |req| then NO_QUESTION else Question(name, U16(req, next), next + 4)
  }

  method ParseQuestion(req: bytes, start: nat) returns (q: Question)
    ensures q == QuestionAt(req, start)
  {
    var off, sb: bytes := start, [];
    var terminated := false;
    while off < |req|
      invariant start < |req| ==> off <= |req|
      invariant ParseLabels(req, off, sb) == ParseLabels(req, start, [])
      decreases |req| - off
    {
      var l: nat := req[off];
      if l == 0 {
        off := off + 1;
        terminated := true;
        break;
      }
      if off + 1 + l > |req| {
        return NO_QUESTION;
      }
      sb := sb + req[off + 1..off + 1 + l];
      sb := sb + [DOT];
      off := off + 1 + l;
    }
    if off + 4 > |req| {
      return NO_QUESTION;
    }
    return Question(sb, U16(req, off), off + 4);
  }

  /** The labels of name, then a zero, lie at offset off. */
  predicate NameAt(msg: bytes, off: nat, name: Name)
    decreases name
  {
    off < |msg| &&
    if name == [] then msg[off] == 0
    else
      && msg[off] == |name[0]|
      && 1 <= |name[0]| <= 63
      && off + 1 + |name[0]| <= |msg|
      && msg[off + 1..off + 1 + |name[0]|] == name[0]
      && NameAt(msg, off + 1 + |name[0]|, name[1..])
  }

  function NameEnd(off: nat, name: Name): nat
    decreases name
  {
    if name == [] then off + 1 else NameEnd(off + 1 + |name[0]|, name[1..])
  }

  lemma TailFirst(a: bytes, b: bytes, c: bytes, d: bytes)
    ensures a + b + c + d == a + b + (c + d)
  {
  }

  /** A length octet, a label and a tail, taken apart. */
  lemma LabelLies(msg: bytes, off: nat, text: bytes, tail: bytes)
    requires |text| < 256 && From(msg, off) == [|text| as byte] + text + tail
    ensures off + 1 + |text| <= |msg| && msg[off] == |text|
    ensures msg[off + 1..off + 1 + |text|] == text && From(msg, off + 1 + |text|) == tail
  {
    var rest, l := msg[off..], |text|;
    assert rest[0] == l && rest[1..1 + l] == text && rest[1 + l..] == tail;
    assert msg[off] == rest[0] && msg[off + 1..off + 1 + l] == rest[1..1 + l] && msg[off + 1 + l..] == rest[1 + l..];
  }

  lemma FirstLabelLies(msg: bytes, off: nat, name: Name, more: bytes)
    requires ValidName(name) && name != [] && From(msg, off) == EncodeName(name) + more
    ensures off + 1 + |name[0]| <= |msg| && msg[off] == |name[0]| && msg[off + 1..off + 1 + |name[0]|] == name[0]
    ensures From(msg, off + 1 + |name[0]|) == EncodeName(name[1..]) + more
    ensures |EncodeName(name)| == 1 + |name[0]| + |EncodeName(name[1..])|
  {
    var rest := EncodeName(name[1..]);
    TailFirst([|name[0]|], name[0], rest, more);
    LabelLies(msg, off, name[0], rest + more);
  }

  lemma {:induction false} EncodedNameAt(msg: bytes, off: nat, name: Name, more: bytes)
    requires ValidName(name) && From(msg, off) == EncodeName(name) + more
    ensures NameAt(msg, off, name)
    ensures From(msg, NameEnd(off, name)) == more && NameEnd(off, name) == off + |EncodeName(name)|
    decreases name
  {
    if name == [] {
      assert msg[off..][1..] == more;
    } else {
      FirstLabelLies(msg, off, name, more);
      EncodedNameAt(msg, off + 1 + |name[0]|, name[1..], more);
    }
  }

  lemma DottedFrom(sb: bytes, text: bytes, rest: bytes)
    ensures sb + (text + [DOT] + rest) == sb + text + [DOT] + rest
  {
  }

  lemma ParsesLabel(msg: bytes, off: nat, text: bytes, sb: bytes)
    requires text != [] && off + 1 + |text| <= |msg| && msg[off] == |text| && msg[off + 1..off + 1 + |text|] == text
    ensures ParseLabels(msg, off, sb) == ParseLabels(msg, off + 1 + |text|, sb + text + [DOT])
  {
  }

  lemma {:induction false} ParsesName(msg: bytes, off: nat, name: Name, sb: bytes)
    requires NameAt(msg, off, name)
    ensures NameEnd(off, name) <= |msg|
    ensures ParseLabels(msg, off, sb) == Good(sb + Dotted(name), NameEnd(off, name))
    decreases name
  {
    if name == [] {
      assert sb + Dotted(name) == sb;
    } else {
      ParsesLabel(msg, off, name[0], sb);
      ParsesName(msg, off + 1 + |name[0]|, name[1..], sb + name[0] + [DOT]);
      DottedFrom(sb, name[0], Dotted(name[1..]));
    }
  }

  /** parseQuestion undoes the encoder, whatever precedes and follows the question, and reports its exact end. */
  lemma ParseInvertsEncode(before: bytes, name: Name, qtype: nat, qclass: nat, after: bytes)
    requires ValidName(name) && qtype < 0x1_0000 && qclass < 0x1_0000
    ensures QuestionAt(before + EncodeQuestion(name, qtype, qclass) + after, |before|) ==
            Question(Dotted(name), qtype, |before| + |EncodeQuestion(name, qtype, qclass)|)
  {
    var question := EncodeQuestion(name, qtype, qclass);
    var req := before + question + after;
    assert From(req, |before|) == question + after;
    QuestionLies(req, |before|, name, qtype, qclass, after);
    AskedParses(req, |before|, name, qtype, qclass);
  }

  /** The 16-bit number n lies at offset k. */
  predicate WordAt(msg: bytes, k: nat, n: nat) {
    k + 2 <= |msg| && U16(msg, k) == n
  }

  predicate AskedAt(msg: bytes, off: nat, name: Name, qtype: nat, qclass: nat) {
    NameAt(msg, off, name) && WordAt(msg, NameEnd(off, name), qtype) && WordAt(msg, NameEnd(off, name) + 2, qclass)
  }

  lemma AskedParses(req: bytes, off: nat, name: Name, qtype: nat, qclass: nat)
    requires AskedAt(req, off, name, qtype, qclass)
    ensures QuestionAt(req, off) == Question(Dotted(name), qtype, NameEnd(off, name) + 4)
  {
    ParsesName(req, off, name, []);
    assert [] + Dotted(name) == Dotted(name);
  }

  lemma QuestionLies(msg: bytes, off: nat, name: Name, qtype: nat, qclass: nat, after: bytes)
    requires ValidName(name) && qtype < 0x1_0000 && qclass < 0x1_0000
    requires From(msg, off) == EncodeQuestion(name, qtype, qclass) + after
    ensures AskedAt(msg, off, name, qtype, qclass)
    ensures NameEnd(off, name) + 4 == off + |EncodeQuestion(name, qtype, qclass)|
    ensures From(msg, NameEnd(off, name) + 4) == after
  {
    var more := Be16(qtype) + Be16(qclass) + after;
    assert From(msg, off) == EncodeName(name) + more;
    EncodedNameAt(msg, off, name, more);
    var k := NameEnd(off, name);
    var rest := msg[k..];
    assert rest[..2] == Be16(qtype) && rest[2..4] == Be16(qclass) && rest[4..] == after;
    assert msg[k..k + 2] == rest[..2] && msg[k + 2..k + 4] == rest[2..4];
    U16Be16(qtype, msg, k);
    U16Be16(qclass, msg, k + 2);
  }

  /** What the parser takes for a name: labels of any length an octet can say, then a zero. */
  ghost predicate LooseAt(req: bytes, off: nat, name: Name)
    decreases name
  {
    off < |req| &&
    if name == [] then req[off] == 0
    else
      && name[0] != []
      && req[off] == |name[0]|
      && off + 1 + |name[0]| <= |req|
      && req[off + 1..off + 1 + |name[0]|] == name[0]
      && LooseAt(req, off + 1 + |name[0]|, name[1..])
  }

  lemma {:induction false} LooseParses(req: bytes, off: nat, name: Name, sb: bytes)
    requires LooseAt(req, off, name)
    ensures NameEnd(off, name) <= |req|
    ensures ParseLabels(req, off, sb) == Good(sb + Dotted(name), NameEnd(off, name))
    decreases name
  {
    if name == [] {
      assert sb + Dotted(name) == sb;
    } else {
      ParsesLabel(req, off, name[0], sb);
      LooseParses(req, off + 1 + |name[0]|, name[1..], sb + name[0] + [DOT]);
      DottedFrom(sb, name[0], Dotted(name[1..]));
    }
  }

  /** The labels that the parser has gone over. */
  lemma {:induction false} LabelsParsed(req: bytes, off: nat, sb: bytes) returns (name: Name)
    requires ParseLabels(req, off, sb).Good?
    ensures LooseAt(req, off, name)
    decreases |req| - off
  {
    if req[off] == 0 {
      return [];
    }
    var l := req[off];
    var rest := LabelsParsed(req, off + 1 + l, sb + req[off + 1..off + 1 + l] + [DOT]);
    name := [req[off + 1..off + 1 + l]] + rest;
    assert name[1..] == rest;
  }

  /** A question lies at an offset, as far as the parser can tell. */
  ghost predicate AsksFor(req: bytes, off: nat, name: Name) {
    name != [] && LooseAt(req, off, name) && NameEnd(off, name) + 4 <= |req|
  }

  /** The parser finds a name exactly when there are labels, a closing zero and room for type and class; then it finds just that. */
  lemma QuestionIff(req: bytes, off: nat)
    ensures QuestionAt(req, off).name != [] <==> exists name :: AsksFor(req, off, name)
    ensures forall name :: AsksFor(req, off, name) ==>
              QuestionAt(req, off) == Question(Dotted(name), U16(req, NameEnd(off, name)), NameEnd(off, name) + 4)
  {
    forall name | AsksFor(req, off, name)
      ensures QuestionAt(req, off) == Question(Dotted(name), U16(req, NameEnd(off, name)), NameEnd(off, name) + 4) && Dotted(name) != []
    {
      LooseParses(req, off, name, []);
      assert [] + Dotted(name) == Dotted(name);
      assert |Dotted(name)| > |name[0]|;
    }
    if QuestionAt(req, off).name != [] {
      var name := LabelsParsed(req, off, []);
      LooseParses(req, off, name, []);
      assert [] + Dotted(name) == Dotted(name);
      assert AsksFor(req, off, name);
    }
  }

  // ---- a reader of messages ----

  datatype Record = Record(name: Name, rtype: nat, rclass: nat, ttl: nat, data: bytes)

  datatype Asked = Asked(name: Name, qtype: nat, qclass: nat)

  datatype Message = Message(id: nat, flags: nat, questions: seq<Asked>, answers: seq<Record>)

  datatype NameRead = NameRead(name: Name, next: nat)

  function Prepend(first: bytes, r: Option<NameRead>): Option<NameRead> {
    if r.None? then None else Some(NameRead([first] + r.value.name, r.value.next))
  }

  /** A name, with compression pointers that lead strictly backwards. */
  function ReadName(msg: bytes, off: nat, limit: nat): Option<NameRead>
    decreases limit, |msg| - off
  {
    if off >= |msg| then None
    else if msg[off] == 0 then Some(NameRead([], off + 1))
    else if msg[off] < 64 then
      if off + 1 + msg[off] > |msg| then None
      else Prepend(msg[off + 1..off + 1 + msg[off]], ReadName(msg, off + 1 + msg[off], limit))
    else if msg[off] < 192 || off + 1 >= |msg| then None
    else
      var target := 256 * (msg[off] as int - 192) + msg[off + 1] as int;
      if target >= limit then None
      else match ReadName(msg, target, target)
        case None => None
        case Some(r) => Some(NameRead(r.name, off + 2))
  }

  datatype RecordRead = RecordRead(record: Record, next: nat)

  function ReadRecord(msg: bytes, off: nat): Option<RecordRead> {
    match ReadName(msg, off, off)
    case None => None
    case Some(n) =>
      var k := n.next;
      if k + 10 > |msg| then None
      else
        var length := U16(msg, k + 8);
        if k + 10 + length > |msg| then None
        else Some(RecordRead(
                    Record(n.name, U16(msg, k), U16(msg, k + 2), 0x1_0000 * U16(msg, k + 4) + U16(msg, k + 6),
                           msg[k + 10..k + 10 + length]),
                    k + 10 + length))
  }

  /** `count` records and then the end of the message. */
  function ReadRecords(msg: bytes, off: nat, count: nat): Option<seq<Record>>
    decreases count
  {
    if count == 0 then if off == |msg| then Some([]) else None
    else match ReadRecord(msg, off)
      case None => None
      case Some(r) =>
        match ReadRecords(msg, r.next, count - 1)
        case None => None
        case Some(rs) => Some([r.record] + rs)
  }

  /** A message with one question and nothing but answers after it. */
  function ReadMessage(msg: bytes): Option<Message> {
    if |msg| < 12 || U16(msg, 4) != 1 || U16(msg, 8) != 0 || U16(msg, 10) != 0 then None
    else match ReadName(msg, 12, 12)
      case None => None
      case Some(n) =>
        if n.next + 4 > |msg| then None
        else match ReadRecords(msg, n.next + 4, U16(msg, 6))
          case None => None
          case Some(rs) =>
            Some(Message(U16(msg, 0), U16(msg, 2), [Asked(n.name, U16(msg, n.next), U16(msg, n.next + 2))], rs))
  }

  lemma {:induction false} ReadsName(msg: bytes, off: nat, limit: nat, name: Name)
    requires NameAt(msg, off, name)
    ensures ReadName(msg, off, limit) == Some(NameRead(name, NameEnd(off, name)))
    decreases name
  {
    if name != [] {
      ReadsName(msg, off + 1 + |name[0]|, limit, name[1..]);
      assert [name[0]] + name[1..] == name;
    }
  }

  // ---- the printer ----

  /** A resource record whose name is a pointer to the question at offset 12. */
  function ResourceRecord(rtype: nat, data: bytes): bytes {
    [0xc0, 0x0c] + Be16(rtype) + Be16(CLASS_IN) + Be16(0) + Be16(TTL) + Be16(|data|) + data
  }

  function ResourceRecords(rtype: nat, datas: seq<bytes>): bytes {
    if datas == [] then [] else ResourceRecord(rtype, datas[0]) + ResourceRecords(rtype, datas[1..])
  }

  const FLAGS: nat := 0x8180
  const NXDOMAIN: nat := 3

  function Header(id: nat, flags: nat, answers: nat): bytes {
    Be16(id) + Be16(flags) + Be16(1) + Be16(answers) + Be16(0) + Be16(0)
  }

  /** A header that announces one question and some answers. */
  predicate HeaderAt(msg: bytes, id: nat, flags: nat, answers: nat) {
    && WordAt(msg, 0, id) && WordAt(msg, 2, flags) && WordAt(msg, 4, 1)
    && WordAt(msg, 6, answers) && WordAt(msg, 8, 0) && WordAt(msg, 10, 0)
  }

  lemma SixWords(msg: bytes, a: bytes, b: bytes, c: bytes, d: bytes, e: bytes, f: bytes, rest: bytes)
    requires |a| == |b| == |c| == |d| == |e| == |f| == 2 && msg == a + b + c + d + e + f + rest
    ensures |msg| == 12 + |rest| && msg[0..2] == a && msg[2..4] == b && msg[4..6] == c
    ensures msg[6..8] == d && msg[8..10] == e && msg[10..12] == f && msg[12..] == rest
  {
  }

  lemma HeaderFields(id: nat, flags: nat, answers: nat, rest: bytes)
    requires id < 0x1_0000 && flags < 0x1_0000 && answers < 0x1_0000
    ensures HeaderAt(Header(id, flags, answers) + rest, id, flags, answers)
    ensures From(Header(id, flags, answers) + rest, 12) == rest
  {
    var msg := Header(id, flags, answers) + rest;
    SixWords(msg, Be16(id), Be16(flags), Be16(1), Be16(answers), Be16(0), Be16(0), rest);
    U16Be16(id, msg, 0);
    U16Be16(flags, msg, 2);
    U16Be16(1, msg, 4);
    U16Be16(answers, msg, 6);
    U16Be16(0, msg, 8);
    U16Be16(0, msg, 10);
  }

  /** A record that points at offset 12 lies at offset off. */
  predicate RecordAt(msg: bytes, off: nat, rtype: nat, data: bytes) {
    && off + 12 + |data| <= |msg|
    && msg[off] == 0xc0 && msg[off + 1] == 0x0c
    && WordAt(msg, off + 2, rtype) && WordAt(msg, off + 4, CLASS_IN)
    && WordAt(msg, off + 6, 0) && WordAt(msg, off + 8, TTL) && WordAt(msg, off + 10, |data|)
    && msg[off + 12..off + 12 + |data|] == data
  }

  predicate RecordsAt(msg: bytes, off: nat, rtype: nat, datas: seq<bytes>)
    decreases datas
  {
    if datas == [] then off == |msg|
    else RecordAt(msg, off, rtype, datas[0]) && RecordsAt(msg, off + 12 + |datas[0]|, rtype, datas[1..])
  }

  lemma RecordLies(msg: bytes, off: nat, rtype: nat, data: bytes, more: bytes)
    requires rtype < 0x1_0000 && |data| < 0x1_0000 && From(msg, off) == ResourceRecord(rtype, data) + more
    ensures RecordAt(msg, off, rtype, data) && From(msg, off + 12 + |data|) == more
  {
    var rest := msg[off..];
    RecordFields(rest, [0xc0, 0x0c], Be16(rtype), Be16(CLASS_IN), Be16(0), Be16(TTL), Be16(|data|), data, more);
    assert msg[off] == rest[..2][0] && msg[off + 1] == rest[..2][1];
    assert msg[off + 2..off + 4] == rest[2..4] && msg[off + 4..off + 6] == rest[4..6] && msg[off + 6..off + 8] == rest[6..8];
    assert msg[off + 8..off + 10] == rest[8..10] && msg[off + 10..off + 12] == rest[10..12];
    U16Be16(rtype, msg, off + 2);
    U16Be16(CLASS_IN, msg, off + 4);
    U16Be16(0, msg, off + 6);
    U16Be16(TTL, msg, off + 8);
    U16Be16(|data|, msg, off + 10);
    assert msg[off + 12..off + 12 + |data|] == rest[12..12 + |data|];
    assert msg[off + 12 + |data|..] == rest[12 + |data|..];
  }

  lemma RecordFields(rest: bytes, p: bytes, a: bytes, b: bytes, c: bytes, d: bytes, e: bytes, data: bytes, more: bytes)
    requires |p| == |a| == |b| == |c| == |d| == |e| == 2 && rest == p + a + b + c + d + e + data + more
    ensures |rest| == 12 + |data| + |more| && rest[..2] == p
    ensures rest[2..4] == a && rest[4..6] == b && rest[6..8] == c && rest[8..10] == d
    ensures rest[10..12] == e && rest[12..12 + |data|] == data && rest[12 + |data|..] == more
  {
  }

  lemma {:induction false} RecordsLie(msg: bytes, off: nat, rtype: nat, datas: seq<bytes>)
    requires off <= |msg| && rtype < 0x1_0000 && forall d :: d in datas ==> |d| < 0x1_0000
    requires From(msg, off) == ResourceRecords(rtype, datas)
    ensures RecordsAt(msg, off, rtype, datas)
    decreases datas
  {
    if datas != [] {
      RecordLies(msg, off, rtype, datas[0], ResourceRecords(rtype, datas[1..]));
      RecordsLie(msg, off + 12 + |datas[0]|, rtype, datas[1..]);
    }
  }

  lemma ReadsRecord(msg: bytes, off: nat, name: Name, rtype: nat, data: bytes)
    requires off > 12 && NameAt(msg, 12, name) && RecordAt(msg, off, rtype, data)
    ensures ReadRecord(msg, off) == Some(RecordRead(Record(name, rtype, CLASS_IN, TTL, data), off + 12 + |data|))
  {
    ReadsName(msg, 12, 12, name);
    assert ReadName(msg, off, off) == Some(NameRead(name, off + 2));
  }

  function Records(name: Name, rtype: nat, datas: seq<bytes>): (rs: seq<Record>)
    ensures |rs| == |datas|
    ensures forall i :: 0 <= i < |datas| ==> rs[i] == Record(name, rtype, CLASS_IN, TTL, datas[i])
  {
    if datas == [] then [] else [Record(name, rtype, CLASS_IN, TTL, datas[0])] + Records(name, rtype, datas[1..])
  }

  lemma ReadsFirst(msg: bytes, off: nat, r: RecordRead, count: nat, rest: seq<Record>, all: seq<Record>)
    requires count > 0 && ReadRecord(msg, off) == Some(r) && ReadRecords(msg, r.next, count - 1) == Some(rest)
    requires all == [r.record] + rest
    ensures ReadRecords(msg, off, count) == Some(all)
  {
  }

  lemma RecordsCons(name: Name, rtype: nat, datas: seq<bytes>)
    requires datas != []
    ensures Records(name, rtype, datas) == [Record(name, rtype, CLASS_IN, TTL, datas[0])] + Records(name, rtype, datas[1..])
  {
  }

  /** What the reader makes of the records from offset off on, given where the first one ends. */
  ghost predicate ReadsAs(msg: bytes, off: nat, name: Name, rtype: nat, datas: seq<bytes>)
    decreases datas
  {
    if datas == [] then off == |msg|
    else
      && ReadRecord(msg, off) == Some(RecordRead(Record(name, rtype, CLASS_IN, TTL, datas[0]), off + 12 + |datas[0]|))
      && ReadsAs(msg, off + 12 + |datas[0]|, name, rtype, datas[1..])
  }

  lemma {:induction false} EachIsRead(msg: bytes, off: nat, name: Name, rtype: nat, datas: seq<bytes>)
    requires off > 12 && NameAt(msg, 12, name) && RecordsAt(msg, off, rtype, datas)
    ensures ReadsAs(msg, off, name, rtype, datas)
    decreases datas
  {
    if datas != [] {
      ReadsRecord(msg, off, name, rtype, datas[0]);
      EachIsRead(msg, off + 12 + |datas[0]|, name, rtype, datas[1..]);
    }
  }

  lemma {:induction false} AllAreRead(msg: bytes, off: nat, name: Name, rtype: nat, datas: seq<bytes>)
    requires ReadsAs(msg, off, name, rtype, datas)
    ensures ReadRecords(msg, off, |datas|) == Some(Records(name, rtype, datas))
    decreases datas
  {
    if datas != [] {
      var next := off + 12 + |datas[0]|;
      AllAreRead(msg, next, name, rtype, datas[1..]);
      RecordsCons(name, rtype, datas);
      ReadsFirst(msg, off, RecordRead(Record(name, rtype, CLASS_IN, TTL, datas[0]), next), |datas|,
                 Records(name, rtype, datas[1..]), Records(name, rtype, datas));
    }
  }

  lemma ReadsRecords(msg: bytes, off: nat, name: Name, rtype: nat, datas: seq<bytes>)
    requires off > 12 && NameAt(msg, 12, name) && RecordsAt(msg, off, rtype, datas)
    ensures ReadRecords(msg, off, |datas|) == Some(Records(name, rtype, datas))
  {
    EachIsRead(msg, off, name, rtype, datas);
    AllAreRead(msg, off, name, rtype, datas);
  }

  lemma {:induction false} NameEndBeyond(off: nat, name: Name)
    ensures NameEnd(off, name) > off
    decreases name
  {
    if name != [] {
      NameEndBeyond(off + 1 + |name[0]|, name[1..]);
    }
  }

  lemma ReadsLayout(msg: bytes, id: nat, flags: nat, name: Name, qtype: nat, qclass: nat, rtype: nat, datas: seq<bytes>)
    requires HeaderAt(msg, id, flags, |datas|)
    requires AskedAt(msg, 12, name, qtype, qclass) && RecordsAt(msg, NameEnd(12, name) + 4, rtype, datas)
    ensures ReadMessage(msg) == Some(Message(id, flags, [Asked(name, qtype, qclass)], Records(name, rtype, datas)))
  {
    NameEndBeyond(12, name);
    ReadsName(msg, 12, 12, name);
    ReadsRecords(msg, NameEnd(12, name) + 4, name, rtype, datas);
  }

  /** A header, a question and some records that point at its name read back as just that. */
  lemma ReadsResponse(msg: bytes, id: nat, flags: nat, name: Name, qtype: nat, qclass: nat, rtype: nat, datas: seq<bytes>)
    requires ValidName(name) && qtype < 0x1_0000 && qclass < 0x1_0000 && rtype < 0x1_0000
    requires forall d :: d in datas ==> |d| < 0x1_0000
    requires HeaderAt(msg, id, flags, |datas|)
    requires From(msg, 12) == EncodeQuestion(name, qtype, qclass) + ResourceRecords(rtype, datas)
    ensures ReadMessage(msg) == Some(Message(id, flags, [Asked(name, qtype, qclass)], Records(name, rtype, datas)))
  {
    QuestionLies(msg, 12, name, qtype, qclass, ResourceRecords(rtype, datas));
    RecordsLie(msg, NameEnd(12, name) + 4, rtype, datas);
    ReadsLayout(msg, id, flags, name, qtype, qclass, rtype, datas);
  }
}
