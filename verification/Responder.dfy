/**
 StaticResolver.handle (internal/sip/resolver.go): which requests the responder answers, with what, and
 that a reader of DNS messages gets exactly that answer.
 */
module Responder {
  import opened Basics
  import opened Resolver

  /** An IP address as the standard library keeps it, in 4 or in 16 bytes. */
  type Addr = a: bytes | |a| == 4 || |a| == 16 witness [0, 0, 0, 0]

  type V4 = a: bytes | |a| == 4 witness [0, 0, 0, 0]

  const MAPPED: bytes := [0, 0, 0, 0, 0, 0, 0, 0, 0, 0, 255, 255]

  function To4(a: Addr): Option<V4> {
    if |a| == 4 then Some(a) else if a[..12] == MAPPED then Some(a[12..]) else None
  }

  function To16(a: Addr): (b: bytes)
    ensures |b| == 16
  {
    if |a| == 16 then a else MAPPED + a
  }

  /** The system resolver's answer. */
  datatype Lookup = Failed | Found(addrs: seq<Addr>)

  /** Configured hosts; an address that is not IPv4 was stored as nil. */
  type Hosts = map<bytes, Option<V4>>

  function LowerByte(b: byte): byte {
    if 65 <= b <= 90 then b + 32 else b
  }

  function Lower(s: bytes): bytes {
    if s == [] then [] else [LowerByte(s[0])] + Lower(s[1..])
  }

  /** The host a question text stands for: lower case, without the last dot. */
  function HostKey(text: bytes): bytes {
    Lower(if text != [] && text[|text| - 1] == DOT then text[..|text| - 1] else text)
  }

  datatype Answer = Answer(rcode: nat, rtype: nat, datas: seq<bytes>)

  function V4s(addrs: seq<Addr>): seq<bytes> {
    if addrs == [] then []
    else V4s(addrs[..|addrs| - 1]) + (match To4(addrs[|addrs| - 1]) case Some(v) => [v] case None => [])
  }

  function V6s(addrs: seq<Addr>): seq<bytes> {
    if addrs == [] then []
    else V6s(addrs[..|addrs| - 1]) + (if To4(addrs[|addrs| - 1]).None? then [To16(addrs[|addrs| - 1])] else [])
  }

  /** The addresses that fit a question of type qtype. */
  function Matching(qtype: nat, addrs: seq<Addr>): seq<bytes> {
    if qtype == TYPE_A then V4s(addrs) else if qtype == TYPE_AAAA then V6s(addrs) else []
  }

  function RecordType(qtype: nat): nat {
    if qtype == TYPE_AAAA then TYPE_AAAA else TYPE_A
  }

  /** What is answered to a question of type qtype about host: the configured address first, the system's otherwise. */
  function AnswerFor(host: bytes, qtype: nat, hosts: Hosts, lookup: Lookup): Answer {
    if qtype == TYPE_A && host in hosts && hosts[host].Some? then Answer(0, TYPE_A, [hosts[host].value])
    else if qtype == TYPE_AAAA && host in hosts then Answer(0, TYPE_AAAA, [])
    else match lookup
      case Failed => Answer(NXDOMAIN, TYPE_A, [])
      case Found(addrs) => Answer(0, RecordType(qtype), Matching(qtype, addrs))
  }

  /** The answer to one datagram, if there is one. */
  function Reply(req: bytes, hosts: Hosts, lookup: Lookup): Option<bytes> {
    if |req| < 12 || U16(req, 4) == 0 then None
    else
      var q := QuestionAt(req, 12);
      if q.name == [] then None
      else
        QuestionEnds(req, 12);
        var a := AnswerFor(HostKey(q.name), q.qtype, hosts, lookup);
        Some(Header(U16(req, 0), FLAGS + a.rcode, |a.datas|) + req[12..q.end] + ResourceRecords(a.rtype, a.datas))
  }

  lemma QuestionEnds(req: bytes, off: nat)
    requires QuestionAt(req, off).name != []
    ensures off <= QuestionAt(req, off).end <= |req|
  {
    LabelsEnd(req, off, []);
  }

  lemma {:induction false} LabelsEnd(req: bytes, off: nat, sb: bytes)
    ensures ParseLabels(req, off, sb).Good? ==> off < ParseLabels(req, off, sb).next
    decreases |req| - off
  {
    if off < |req| && req[off] != 0 && off + 1 + req[off] <= |req| {
      LabelsEnd(req, off + 1 + req[off], sb + req[off + 1..off + 1 + req[off]] + [DOT]);
    }
  }

  // ---- the code ----

  method BuildResponse(id: nat, qsection: bytes) returns (resp: bytes)
    requires id < 0x1_0000
    ensures resp == Header(id, FLAGS, 0) + qsection
  {
    var hdr := new byte[12](_ => 0);
    hdr[0], hdr[1] := id / 256, id % 256;
    hdr[2] := 0x81;
    hdr[3] := 0x80;
    hdr[4], hdr[5] := 0, 1;
    assert hdr[..] == [id / 256, id % 256, 0x81, 0x80, 0, 1, 0, 0, 0, 0, 0, 0];
    HeaderBytes(id);
    resp := hdr[..] + qsection;
  }

  lemma HeaderBytes(id: nat)
    requires id < 0x1_0000
    ensures Header(id, FLAGS, 0) == [id / 256, id % 256, 0x81, 0x80, 0, 1, 0, 0, 0, 0, 0, 0]
  {
    assert Be16(id) == [id / 256, id % 256] && Be16(FLAGS) == [0x81, 0x80] && Be16(1) == [0, 1] && Be16(0) == [0, 0];
  }

  method AppendARecord(resp: bytes, ip: V4) returns (out: bytes)
    ensures out == resp + ResourceRecord(TYPE_A, ip)
  {
    out := resp;
    out := out + [0xc0, 0x0c];
    out := out + [0x00, 0x01];
    out := out + [0x00, 0x01];
    out := out + [0x00, 0x00, 0x00, 0x3c];
    out := out + [0x00, 0x04];
    out := out + ip;
    RecordBytes(TYPE_A, ip, [0x00, 0x01], [0x00, 0x04]);
  }

  method AppendAAAARecord(resp: bytes, ip: Addr) returns (out: bytes)
    ensures out == resp + ResourceRecord(TYPE_AAAA, To16(ip))
  {
    out := resp;
    out := out + [0xc0, 0x0c];
    out := out + [0x00, 0x1c];
    out := out + [0x00, 0x01];
    out := out + [0x00, 0x00, 0x00, 0x3c];
    out := out + [0x00, 0x10];
    out := out + To16(ip);
    RecordBytes(TYPE_AAAA, To16(ip), [0x00, 0x1c], [0x00, 0x10]);
  }

  lemma RecordBytes(rtype: nat, data: bytes, typeBytes: bytes, lengthBytes: bytes)
    requires typeBytes == Be16(rtype) && lengthBytes == Be16(|data|)
    ensures ResourceRecord(rtype, data) ==
            [0xc0, 0x0c] + typeBytes + [0x00, 0x01] + [0x00, 0x00, 0x00, 0x3c] + lengthBytes + data
  {
    assert Be16(CLASS_IN) == [0x00, 0x01] && Be16(0) + Be16(TTL) == [0x00, 0x00, 0x00, 0x3c];
  }

  /** PutUint16 on bytes 6 and 7 of a response. */
  method PutAnswerCount(resp: bytes, n: nat, ghost id: nat, ghost question: bytes, ghost records: bytes) returns (out: bytes)
    requires resp == Header(id, FLAGS, 0) + question + records
    ensures out == Header(id, FLAGS, n) + question + records
  {
    ghost var h := Header(id, FLAGS, 0);
    assert |h| == 12;
    var hi: byte, lo: byte := n / 256 % 256, n % 256;
    out := resp[6 := hi];
    out := out[7 := lo];
    h := h[6 := hi];
    h := h[7 := lo];
    assert h == Header(id, FLAGS, n);
    assert out == h + question + records;
  }

  /** resp[3] |= 3 */
  method PutNxDomain(resp: bytes, ghost id: nat, ghost question: bytes) returns (out: bytes)
    requires resp == Header(id, FLAGS, 0) + question
    ensures out == Header(id, FLAGS + NXDOMAIN, 0) + question
  {
    assert Be16(FLAGS) == [0x81, 0x80] && Be16(FLAGS + NXDOMAIN) == [0x81, 0x83];
    out := resp[3 := resp[3] - resp[3] % 4 + 3]; // or-ing in the two low bits
  }

  lemma OneRecord(rtype: nat, d: bytes)
    ensures ResourceRecords(rtype, [d]) == ResourceRecord(rtype, d)
  {
    assert [d][1..] == [];
    assert ResourceRecords(rtype, [d]) == ResourceRecord(rtype, d) + [];
  }

  lemma {:induction false} RecordsSnoc(rtype: nat, datas: seq<bytes>, d: bytes)
    ensures ResourceRecords(rtype, datas + [d]) == ResourceRecords(rtype, datas) + ResourceRecord(rtype, d)
  {
    if datas == [] {
      assert [d][1..] == [] && datas + [d] == [d];
    } else {
      assert (datas + [d])[1..] == datas[1..] + [d];
      RecordsSnoc(rtype, datas[1..], d);
    }
  }

  /** The record for one more address, if it fits the question. */
  lemma MatchingSnoc(qtype: nat, addrs: seq<Addr>, ip: Addr, resp: bytes)
    ensures var before, after := Matching(qtype, addrs), Matching(qtype, addrs + [ip]);
            var d := if qtype == TYPE_A then To4(ip) else if qtype == TYPE_AAAA && To4(ip).None? then Some(To16(ip)) else None;
            if d.Some?
            then |after| == |before| + 1 && resp + ResourceRecords(RecordType(qtype), after)
                 == resp + ResourceRecords(RecordType(qtype), before) + ResourceRecord(RecordType(qtype), d.value)
            else after == before
  {
    assert (addrs + [ip])[..|addrs|] == addrs;
    var before, after := Matching(qtype, addrs), Matching(qtype, addrs + [ip]);
    if |after| > |before| {
      RecordsSnoc(RecordType(qtype), before, after[|before|]);
    }
  }

  /** The loop over the system resolver's addresses. */
  method AppendMatching(resp: bytes, qtype: nat, addrs: seq<Addr>) returns (out: bytes, matched: nat)
    ensures matched == |Matching(qtype, addrs)| && out == resp + ResourceRecords(RecordType(qtype), Matching(qtype, addrs))
  {
    out, matched := resp, 0;
    for i := 0 to |addrs|
      invariant matched == |Matching(qtype, addrs[..i])|
      invariant out == resp + ResourceRecords(RecordType(qtype), Matching(qtype, addrs[..i]))
    {
      var ip := addrs[i];
      assert addrs[..i + 1] == addrs[..i] + [ip];
      MatchingSnoc(qtype, addrs[..i], ip, resp);
      if qtype == TYPE_A {
        var v4 := To4(ip);
        if v4.Some? {
          out := AppendARecord(out, v4.value);
          matched := matched + 1;
        }
      } else if qtype == TYPE_AAAA {
        if To4(ip).None? {
          out := AppendAAAARecord(out, ip);
          matched := matched + 1;
        }
      }
    }
    assert addrs[..|addrs|] == addrs;
  }

  method Handle(req: bytes, hosts: Hosts, lookup: Lookup) returns (sent: Option<bytes>)
    ensures sent == Reply(req, hosts, lookup)
  {
    if |req| < 12 {
      return None;
    }
    var id := U16(req, 0);
    if U16(req, 4) == 0 {
      return None;
    }
    var q := ParseQuestion(req, 12);
    if q.name == [] {
      return None;
    }
    QuestionEnds(req, 12);
    var low := HostKey(q.name);
    var question := req[12..q.end];
    var resp := BuildResponse(id, question);
    if q.qtype == TYPE_A && low in hosts && hosts[low].Some? {
      var ip := hosts[low].value;
      resp := AppendARecord(resp, ip);
      OneRecord(TYPE_A, ip);
      resp := PutAnswerCount(resp, 1, id, question, ResourceRecords(TYPE_A, [ip]));
      return Some(resp);
    }
    ghost var a := AnswerFor(low, q.qtype, hosts, lookup);
    if q.qtype == TYPE_AAAA && low in hosts {
      assert a == Answer(0, TYPE_AAAA, []) && resp == resp + ResourceRecords(TYPE_AAAA, []);
      return Some(resp);
    }
    if lookup.Failed? {
      resp := PutNxDomain(resp, id, question);
      assert a == Answer(NXDOMAIN, TYPE_A, []) && resp == resp + ResourceRecords(TYPE_A, []);
      return Some(resp);
    }
    var matched;
    resp, matched := AppendMatching(resp, q.qtype, lookup.addrs);
    resp := PutAnswerCount(resp, matched, id, question, ResourceRecords(a.rtype, a.datas));
    return Some(resp);
  }

  // ---- what the asker reads ----

  predicate ValidQuery(before: bytes, name: Name, qtype: nat, qclass: nat) {
    && |before| == 12 && U16(before, 4) != 0
    && name != [] && ValidName(name) && qtype < 0x1_0000 && qclass < 0x1_0000
  }

  lemma DatasShort(host: bytes, qtype: nat, hosts: Hosts, lookup: Lookup)
    ensures forall d :: d in AnswerFor(host, qtype, hosts, lookup).datas ==> |d| <= 16
  {
    if lookup.Found? {
      ShortV4s(lookup.addrs);
      ShortV6s(lookup.addrs);
    }
  }

  lemma {:induction false} ShortV4s(addrs: seq<Addr>)
    ensures forall d :: d in V4s(addrs) ==> |d| == 4
  {
    if addrs != [] {
      ShortV4s(addrs[..|addrs| - 1]);
    }
  }

  lemma {:induction false} ShortV6s(addrs: seq<Addr>)
    ensures forall d :: d in V6s(addrs) ==> |d| == 16
  {
    if addrs != [] {
      ShortV6s(addrs[..|addrs| - 1]);
    }
  }

  /** The reader takes as many answers as the header announces. */
  lemma {:induction false} AnswersCounted(msg: bytes, off: nat, count: nat)
    ensures ReadRecords(msg, off, count).Some? ==> |ReadRecords(msg, off, count).value| == count
    decreases count
  {
    if count > 0 && ReadRecord(msg, off).Some? {
      AnswersCounted(msg, ReadRecord(msg, off).value.next, count - 1);
    }
  }

  /** What the asker should read: the same id and question, and the queried name with each of the addresses. */
  function Expected(id: nat, name: Name, qtype: nat, qclass: nat, a: Answer): Message {
    Message(id, FLAGS + a.rcode, [Asked(name, qtype, qclass)], Records(name, a.rtype, a.datas))
  }

  /** The bytes of an answer to a question. */
  function AnswerBytes(id: nat, name: Name, qtype: nat, qclass: nat, a: Answer): bytes
    requires ValidName(name)
  {
    Header(id, FLAGS + a.rcode, |a.datas|) + (EncodeQuestion(name, qtype, qclass) + ResourceRecords(a.rtype, a.datas))
  }

  /**
   Every query with a non-root name gets a reply, and a reader of RFC 1035 messages finds in it the same id, the same
   question, and in each answer the queried name with its address, exactly when the 16-bit ANCOUNT can hold the number
   of the answers.
   */
  lemma ReplyReadsBack(before: bytes, name: Name, qtype: nat, qclass: nat, after: bytes, hosts: Hosts, lookup: Lookup)
    requires ValidQuery(before, name, qtype, qclass)
    ensures var r := Reply(before + EncodeQuestion(name, qtype, qclass) + after, hosts, lookup);
            var a := AnswerFor(HostKey(Dotted(name)), qtype, hosts, lookup);
            && r.Some?
            && (ReadMessage(r.value) == Some(Expected(U16(before, 0), name, qtype, qclass, a)) <==> |a.datas| < 0x1_0000)
  {
    var a := AnswerFor(HostKey(Dotted(name)), qtype, hosts, lookup);
    ReplyToQuery(before, name, qtype, qclass, after, hosts, lookup);
    DatasShort(HostKey(Dotted(name)), qtype, hosts, lookup);
    AnswerReadsBack(a, U16(before, 0), name, qtype, qclass);
  }

  lemma ReadsAtMost(msg: bytes)
    ensures ReadMessage(msg).Some? ==> |ReadMessage(msg).value.answers| < 0x1_0000
  {
    if ReadMessage(msg).Some? {
      AnswersCounted(msg, ReadName(msg, 12, 12).value.next + 4, U16(msg, 6));
    }
  }

  lemma AnswerReadsBack(a: Answer, id: nat, name: Name, qtype: nat, qclass: nat)
    requires id < 0x1_0000 && FLAGS + a.rcode < 0x1_0000 && a.rtype < 0x1_0000
    requires ValidName(name) && qtype < 0x1_0000 && qclass < 0x1_0000 && forall d :: d in a.datas ==> |d| <= 16
    ensures ReadMessage(AnswerBytes(id, name, qtype, qclass, a)) == Some(Expected(id, name, qtype, qclass, a)) <==> |a.datas| < 0x1_0000
  {
    var rest := EncodeQuestion(name, qtype, qclass) + ResourceRecords(a.rtype, a.datas);
    var msg := Header(id, FLAGS + a.rcode, |a.datas|) + rest;
    if |a.datas| < 0x1_0000 {
      HeaderFields(id, FLAGS + a.rcode, |a.datas|, rest);
      ReadsResponse(msg, id, FLAGS + a.rcode, name, qtype, qclass, a.rtype, a.datas);
    } else {
      ReadsAtMost(msg);
    }
  }

  /** The bytes of the reply. */
  lemma ReplyToQuery(before: bytes, name: Name, qtype: nat, qclass: nat, after: bytes, hosts: Hosts, lookup: Lookup)
    requires ValidQuery(before, name, qtype, qclass)
    ensures var a := AnswerFor(HostKey(Dotted(name)), qtype, hosts, lookup);
            Reply(before + EncodeQuestion(name, qtype, qclass) + after, hosts, lookup)
            == Some(AnswerBytes(U16(before, 0), name, qtype, qclass, a))
  {
    var question := EncodeQuestion(name, qtype, qclass);
    var req := before + question + after;
    var a := AnswerFor(HostKey(Dotted(name)), qtype, hosts, lookup);
    ParseInvertsEncode(before, name, qtype, qclass, after);
    assert U16(req, 0) == U16(before, 0) && U16(req, 4) == U16(before, 4);
    assert req[12..12 + |question|] == question;
    DottedNonempty(name);
    Associate(Header(U16(before, 0), FLAGS + a.rcode, |a.datas|), question, ResourceRecords(a.rtype, a.datas));
  }

  lemma Associate(a: bytes, b: bytes, c: bytes)
    ensures a + b + c == a + (b + c)
  {
  }

  lemma DottedNonempty(name: Name)
    requires name != []
    ensures Dotted(name) != []
  {
    assert Dotted(name)[|name[0]|] == DOT;
  }

  // ---- which host is meant ----

  /** Labels joined by single dots, none at the end. */
  function Joined(name: Name): bytes {
    if name == [] then [] else if |name| == 1 then name[0] else name[0] + [DOT] + Joined(name[1..])
  }

  /** The host that a name stands for: its labels joined by dots, in ASCII lower case. */
  function HostText(name: Name): bytes {
    seq(|Joined(name)|, i requires 0 <= i < |Joined(name)| =>
      if 'A' as int <= Joined(name)[i] <= 'Z' as int then Joined(name)[i] - 'A' as int + 'a' as int else Joined(name)[i])
  }

  lemma {:induction false} DottedIsJoined(name: Name)
    requires name != []
    ensures Dotted(name) == Joined(name) + [DOT]
  {
    if |name| == 1 {
      assert name[0] + [DOT] + Dotted(name[1..]) == name[0] + [DOT];
    } else {
      DottedIsJoined(name[1..]);
      assert name[0] + [DOT] + (Joined(name[1..]) + [DOT]) == name[0] + [DOT] + Joined(name[1..]) + [DOT];
    }
  }

  lemma {:induction false} LowerAt(s: bytes)
    ensures |Lower(s)| == |s| && forall i :: 0 <= i < |s| ==> Lower(s)[i] == if 65 <= s[i] <= 90 then s[i] + 32 else s[i]
  {
    if s != [] {
      LowerAt(s[1..]);
    }
  }

  /** The key under which the responder looks a question up is the host that its name stands for. */
  lemma KeyIsHost(name: Name)
    requires name != []
    ensures HostKey(Dotted(name)) == HostText(name)
  {
    DottedIsJoined(name);
    assert Dotted(name)[..|Dotted(name)| - 1] == Joined(name);
    LowerAt(Joined(name));
  }

  predicate SameByte(a: byte, b: byte) {
    a == b || (65 <= a <= 90 && b == a + 32) || (65 <= b <= 90 && a == b + 32)
  }

  /** The names have the same labels but for the case of ASCII letters. */
  ghost predicate SameButCase(a: Name, b: Name) {
    |a| == |b| && forall i :: 0 <= i < |a| ==> SameLabel(a[i], b[i])
  }

  ghost predicate SameLabel(a: bytes, b: bytes) {
    |a| == |b| && forall j :: 0 <= j < |a| ==> SameByte(a[j], b[j])
  }

  lemma {:induction false} JoinedButCase(a: Name, b: Name)
    requires SameButCase(a, b)
    ensures SameLabel(Joined(a), Joined(b))
  {
    if a != [] {
      assert SameLabel(a[0], b[0]);
      assert forall i :: 0 <= i < |a| - 1 ==> SameLabel(a[1..][i], b[1..][i]);
      JoinedButCase(a[1..], b[1..]);
    }
  }

  /** Names that differ in ASCII case only get the same answer. */
  lemma CaseDoesNotMatter(a: Name, b: Name, qtype: nat, hosts: Hosts, lookup: Lookup)
    requires a != [] && SameButCase(a, b)
    ensures HostText(a) == HostText(b)
    ensures AnswerFor(HostKey(Dotted(a)), qtype, hosts, lookup) == AnswerFor(HostKey(Dotted(b)), qtype, hosts, lookup)
  {
    JoinedButCase(a, b);
    forall i | 0 <= i < |Joined(a)| ensures HostText(a)[i] == HostText(b)[i] {
      assert SameByte(Joined(a)[i], Joined(b)[i]);
    }
    KeyIsHost(a);
    KeyIsHost(b);
  }

  /** A datagram is answered exactly when it has a header that counts a question and a named question after it. */
  lemma AnsweredIff(req: bytes, hosts: Hosts, lookup: Lookup)
    ensures Reply(req, hosts, lookup).Some? <==> |req| >= 12 && U16(req, 4) != 0 && exists name :: AsksFor(req, 12, name)
  {
    if |req| >= 12 {
      QuestionIff(req, 12);
    }
  }

  /** A configured host: one A record, the configured address; and a clean empty answer to AAAA. */
  lemma ConfiguredHostAnswers(before: bytes, name: Name, qclass: nat, after: bytes, hosts: Hosts, lookup: Lookup)
    requires ValidQuery(before, name, TYPE_A, qclass)
    requires HostText(name) in hosts && hosts[HostText(name)].Some?
    ensures var ip := hosts[HostText(name)].value;
            var r4 := Reply(before + EncodeQuestion(name, TYPE_A, qclass) + after, hosts, lookup);
            var r6 := Reply(before + EncodeQuestion(name, TYPE_AAAA, qclass) + after, hosts, lookup);
            && r4.Some? && ReadMessage(r4.value) ==
                             Some(Message(U16(before, 0), FLAGS, [Asked(name, TYPE_A, qclass)], [Record(name, TYPE_A, CLASS_IN, TTL, ip)]))
            && r6.Some? && ReadMessage(r6.value) == Some(Message(U16(before, 0), FLAGS, [Asked(name, TYPE_AAAA, qclass)], []))
  {
    KeyIsHost(name);
    ReplyReadsBack(before, name, TYPE_A, qclass, after, hosts, lookup);
    ReplyReadsBack(before, name, TYPE_AAAA, qclass, after, hosts, lookup);
    var ip := hosts[HostText(name)].value;
    assert Records(name, TYPE_A, [ip]) == [Record(name, TYPE_A, CLASS_IN, TTL, ip)];
  }

  // ---- hosts that are not configured ----

  /** Four bytes, or sixteen that map four. */
  predicate IsV4(a: Addr) {
    |a| == 4 || a[..12] == MAPPED
  }

  /** The addresses of one family among the first k, counted. */
  function FamilyBefore(v4: bool, addrs: seq<Addr>, k: nat): nat
    requires k <= |addrs|
  {
    if k == 0 then 0 else FamilyBefore(v4, addrs, k - 1) + (if IsV4(addrs[k - 1]) == v4 then 1 else 0)
  }

  lemma {:induction false} FamiliesCounted(addrs: seq<Addr>, k: nat)
    requires k <= |addrs|
    ensures |V4s(addrs[..k])| == FamilyBefore(true, addrs, k) && |V6s(addrs[..k])| == FamilyBefore(false, addrs, k)
    ensures FamilyBefore(true, addrs, k) + FamilyBefore(false, addrs, k) == k
  {
    if k > 0 {
      FamiliesCounted(addrs, k - 1);
      assert addrs[..k][..k - 1] == addrs[..k - 1];
      LastAddress(addrs[k - 1]);
    }
  }

  lemma {:induction false} V4At(addrs: seq<Addr>, i: nat, k: nat)
    requires i < k <= |addrs| && IsV4(addrs[i])
    ensures FamilyBefore(true, addrs, i) < |V4s(addrs[..k])|
    ensures V4s(addrs[..k])[FamilyBefore(true, addrs, i)] == addrs[i][|addrs[i]| - 4..]
    decreases k
  {
    assert addrs[..k][..k - 1] == addrs[..k - 1];
    if i < k - 1 {
      V4At(addrs, i, k - 1);
    } else {
      FamiliesCounted(addrs, i);
      LastAddress(addrs[i]);
    }
  }

  lemma {:induction false} V6At(addrs: seq<Addr>, i: nat, k: nat)
    requires i < k <= |addrs| && !IsV4(addrs[i])
    ensures FamilyBefore(false, addrs, i) < |V6s(addrs[..k])| && V6s(addrs[..k])[FamilyBefore(false, addrs, i)] == addrs[i]
    decreases k
  {
    assert addrs[..k][..k - 1] == addrs[..k - 1];
    if i < k - 1 {
      V6At(addrs, i, k - 1);
    } else {
      FamiliesCounted(addrs, i);
      LastAddress(addrs[i]);
    }
  }

  /** Every address is answered to exactly one of the two questions, at its rank in its family. */
  lemma AddressesAnswered(addrs: seq<Addr>, i: nat)
    requires i < |addrs|
    ensures |V4s(addrs)| + |V6s(addrs)| == |addrs|
    ensures var n := FamilyBefore(IsV4(addrs[i]), addrs, i);
            if IsV4(addrs[i]) then n < |V4s(addrs)| && V4s(addrs)[n] == addrs[i][|addrs[i]| - 4..]
            else n < |V6s(addrs)| && V6s(addrs)[n] == addrs[i]
  {
    assert addrs[..|addrs|] == addrs;
    FamiliesCounted(addrs, |addrs|);
    if IsV4(addrs[i]) {
      V4At(addrs, i, |addrs|);
    } else {
      V6At(addrs, i, |addrs|);
    }
  }

  lemma LastAddress(a: Addr)
    ensures To4(a) == if IsV4(a) then Some(a[|a| - 4..]) else None
    ensures !IsV4(a) ==> To16(a) == a
  {
    if |a| == 4 {
      assert a[0..] == a;
    }
  }

  /** A host without a configured address: the name error if the system's resolver fails, and otherwise its addresses of the family asked for. */
  lemma OtherHostAnswers(before: bytes, name: Name, qtype: nat, qclass: nat, after: bytes, hosts: Hosts, lookup: Lookup)
    requires ValidQuery(before, name, qtype, qclass)
    requires !(HostText(name) in hosts && (qtype == TYPE_AAAA || (qtype == TYPE_A && hosts[HostText(name)].Some?)))
    requires lookup.Found? ==> |Matching(qtype, lookup.addrs)| < 0x1_0000
    ensures var r := Reply(before + EncodeQuestion(name, qtype, qclass) + after, hosts, lookup);
            && r.Some? && ReadMessage(r.value).Some?
            && var m := ReadMessage(r.value).value;
               && m.id == U16(before, 0) && m.questions == [Asked(name, qtype, qclass)]
               && m.flags == FLAGS + (if lookup.Failed? then 3 else 0)
               && m.answers == if lookup.Failed? then []
                               else if qtype == TYPE_A then Records(name, TYPE_A, V4s(lookup.addrs))
                               else if qtype == TYPE_AAAA then Records(name, TYPE_AAAA, V6s(lookup.addrs)) else []
  {
    KeyIsHost(name);
    ReplyReadsBack(before, name, qtype, qclass, after, hosts, lookup);
  }
}
