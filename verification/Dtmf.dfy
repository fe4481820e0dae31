/**
 The telephone-event sender of a call leg, SendDTMFWithDuration (internal/sip/call.go), and a receiver in
 the sense of section 2.5 of RFC 4733: packets with one timestamp are one event, reported at its E bit.
 */
module Dtmf {
  import opened Basics

  datatype Packet = Packet(
    timestamp: nat, marker: bool, payloadType: nat,
    event: nat, end: bool, volume: nat, duration: nat)

  const SAMPLES_PER_20: nat := 160
  const GAP_SAMPLES: nat := 320
  const PAYLOAD_TYPE: nat := 101
  const VOLUME: nat := 10
  const NS_PER_MS := 1_000_000
  const MIN_TONE_NS := 40 * NS_PER_MS
  const PTIME_NS := 20 * NS_PER_MS

  /** The event code of a digit, section 3.2 of RFC 4733. */
  function EventCode(r: char): Option<nat> {
    if '0' <= r <= '9' then Some(r as int - '0' as int)
    else if r == '*' then Some(10)
    else if r == '#' then Some(11)
    else if 'A' <= r <= 'D' then Some(r as int - 'A' as int + 12)
    else if 'a' <= r <= 'd' then Some(r as int - 'a' as int + 12)
    else None
  }

  const EVENT_DIGITS := "0123456789*#ABCD"

  function Upper(r: char): char {
    if 'a' <= r <= 'z' then (r as int - 'a' as int + 'A' as int) as char else r
  }

  function UpperAll(s: string): (u: string)
    ensures |u| == |s| && forall i :: 0 <= i < |s| ==> u[i] == Upper(s[i])
  {
    if s == [] then [] else [Upper(s[0])] + UpperAll(s[1..])
  }

  lemma CodeNamesDigit(r: char)
    requires EventCode(r).Some?
    ensures EventCode(r).value < |EVENT_DIGITS| && EVENT_DIGITS[EventCode(r).value] == Upper(r)
  {
    assert EVENT_DIGITS[12] == 'A' && EVENT_DIGITS[13] == 'B' && EVENT_DIGITS[14] == 'C' && EVENT_DIGITS[15] == 'D';
    var c := EventCode(r).value;
    assert c == 0 || c == 1 || c == 2 || c == 3 || c == 4 || c == 5 || c == 6 || c == 7 || c == 8 || c == 9
           || c == 10 || c == 11 || c == 12 || c == 13 || c == 14 || c == 15;
  }

  /** The digits that can be sent are exactly these. */
  lemma SendableIff(r: char)
    ensures EventCode(r).Some? <==> r in "0123456789*#ABCDabcd"
  {
    if EventCode(r).Some? {
      CodeNamesDigit(r);
      var all := "0123456789*#ABCDabcd";
      assert all[12] == 'A' && all[13] == 'B' && all[14] == 'C' && all[15] == 'D';
      assert all[16] == 'a' && all[17] == 'b' && all[18] == 'c' && all[19] == 'd';
      assert all[10] == '*' && all[11] == '#';
      var c := EventCode(r).value;
      assert c < 10 ==> all[c] == EVENT_DIGITS[c];
    }
  }

  // ---- what goes out ----

  function Duration16(packets: nat): nat {
    packets % 0x1_0000 * SAMPLES_PER_20 % 0x1_0000
  }

  function NextStamp(ts: nat, n: nat): nat {
    (ts + Duration16(n) + GAP_SAMPLES) % 0x1_0000_0000
  }

  /** The first i packets of a tone. */
  function Interims(code: nat, ts: nat, i: nat): seq<Packet> {
    if i == 0 then []
    else Interims(code, ts, i - 1) + [Packet(ts, i == 1, PAYLOAD_TYPE, code, false, VOLUME, Duration16(i))]
  }

  function Tone(code: nat, ts: nat, n: nat): seq<Packet> {
    Interims(code, ts, n) + [Packet(ts, false, PAYLOAD_TYPE, code, true, VOLUME, Duration16(n))]
  }

  function Stream(codes: seq<nat>, ts: nat, n: nat): seq<Packet> {
    if codes == [] then [] else Tone(codes[0], ts, n) + Stream(codes[1..], NextStamp(ts, n), n)
  }

  /** The codes of the digits before the first unsupported one. */
  function Codes(digits: string): seq<nat> {
    if digits == [] || EventCode(digits[0]).None? then []
    else [EventCode(digits[0]).value] + Codes(digits[1..])
  }

  predicate Legal(digits: string) {
    forall i :: 0 <= i < |digits| ==> EventCode(digits[i]).Some?
  }

  function StampAt(ts: nat, n: nat, k: nat): nat
    decreases k
  {
    if k == 0 then ts else StampAt(NextStamp(ts, n), n, k - 1)
  }

  // ---- what a receiver makes of it ----

  datatype Receiver = Receiver(current: Option<nat>, reported: bool, digits: string)

  function Receive(rx: Receiver, p: Packet): Receiver {
    var reported := rx.current == Some(p.timestamp) && rx.reported;
    if p.end && !reported && p.event < |EVENT_DIGITS|
    then Receiver(Some(p.timestamp), true, rx.digits + [EVENT_DIGITS[p.event]])
    else Receiver(Some(p.timestamp), reported, rx.digits)
  }

  function ReceiveAll(rx: Receiver, ps: seq<Packet>): Receiver {
    if ps == [] then rx else Receive(ReceiveAll(rx, ps[..|ps| - 1]), ps[|ps| - 1])
  }

  function Decode(ps: seq<Packet>): string {
    ReceiveAll(Receiver(None, false, ""), ps).digits
  }

  lemma {:induction false} ReceiveAppend(rx: Receiver, ps: seq<Packet>, qs: seq<Packet>)
    ensures ReceiveAll(rx, ps + qs) == ReceiveAll(ReceiveAll(rx, ps), qs)
    decreases qs
  {
    if qs == [] {
      assert ps + qs == ps;
    } else {
      assert (ps + qs)[..|ps + qs| - 1] == ps + qs[..|qs| - 1];
      ReceiveAppend(rx, ps, qs[..|qs| - 1]);
    }
  }

  lemma {:induction false} InterimsReportNothing(rx: Receiver, code: nat, ts: nat, i: nat)
    requires rx.current != Some(ts)
    ensures var r := ReceiveAll(rx, Interims(code, ts, i));
            r.digits == rx.digits && if i == 0 then r == rx else r.current == Some(ts) && !r.reported
  {
    if i > 0 {
      InterimsReportNothing(rx, code, ts, i - 1);
      assert Interims(code, ts, i)[..i - 1] == Interims(code, ts, i - 1) by { InterimsLength(code, ts, i - 1); }
      InterimsLength(code, ts, i);
    }
  }

  lemma {:induction false} InterimsLength(code: nat, ts: nat, i: nat)
    ensures |Interims(code, ts, i)| == i
  {
    if i > 0 {
      InterimsLength(code, ts, i - 1);
    }
  }

  lemma ToneReportsOnce(rx: Receiver, code: nat, ts: nat, n: nat)
    requires rx.current != Some(ts) && n > 0 && code < |EVENT_DIGITS|
    ensures ReceiveAll(rx, Tone(code, ts, n)) == Receiver(Some(ts), true, rx.digits + [EVENT_DIGITS[code]])
  {
    InterimsReportNothing(rx, code, ts, n);
    assert Tone(code, ts, n)[..|Tone(code, ts, n)| - 1] == Interims(code, ts, n);
  }

  /** The digits a list of event codes stands for. */
  function Names(codes: seq<nat>): string
    requires forall i :: 0 <= i < |codes| ==> codes[i] < |EVENT_DIGITS|
  {
    if codes == [] then [] else [EVENT_DIGITS[codes[0]]] + Names(codes[1..])
  }

  lemma {:induction false} CodesNameDigits(digits: string)
    requires Legal(digits)
    ensures |Codes(digits)| == |digits|
    ensures forall i :: 0 <= i < |digits| ==> Codes(digits)[i] < |EVENT_DIGITS|
    ensures Names(Codes(digits)) == UpperAll(digits)
  {
    if digits != [] {
      CodesNameDigits(digits[1..]);
      CodeNamesDigit(digits[0]);
      assert Codes(digits)[1..] == Codes(digits[1..]);
    }
  }

  lemma Shift(a: string, c: char, b: string)
    ensures a + ([c] + b) == a + [c] + b
  {
  }

  lemma {:induction false} StreamDecodes(rx: Receiver, codes: seq<nat>, ts: nat, n: nat)
    requires forall i :: 0 <= i < |codes| ==> codes[i] < |EVENT_DIGITS|
    requires n > 0 && ts < 0x1_0000_0000 && rx.current != Some(ts)
    ensures ReceiveAll(rx, Stream(codes, ts, n)).digits == rx.digits + Names(codes)
    decreases codes
  {
    if codes != [] {
      var rx' := Receiver(Some(ts), true, rx.digits + [EVENT_DIGITS[codes[0]]]);
      var ts' := NextStamp(ts, n);
      ToneReportsOnce(rx, codes[0], ts, n);
      StampMoves(ts, n);
      StreamDecodes(rx', codes[1..], ts', n);
      ReceiveAppend(rx, Tone(codes[0], ts, n), Stream(codes[1..], ts', n));
      Shift(rx.digits, EVENT_DIGITS[codes[0]], Names(codes[1..]));
    } else {
      assert rx.digits + Names(codes) == rx.digits;
    }
  }

  /** Two consecutive tones never share a timestamp, wrapped durations included. */
  lemma StampMoves(ts: nat, n: nat)
    requires ts < 0x1_0000_0000
    ensures NextStamp(ts, n) < 0x1_0000_0000 && NextStamp(ts, n) != ts
  {
    assert GAP_SAMPLES <= Duration16(n) + GAP_SAMPLES < 0x1_0000 + GAP_SAMPLES;
  }

  /** Whatever the tone length and the starting timestamp, the receiver gets exactly the upper-cased digits. */
  lemma ReceiverRecoversDigits(digits: string, ts: nat, n: nat)
    requires Legal(digits) && n > 0 && ts < 0x1_0000_0000
    ensures Decode(Stream(Codes(digits), ts, n)) == UpperAll(digits)
  {
    CodesNameDigits(digits);
    StreamDecodes(Receiver(None, false, ""), Codes(digits), ts, n);
  }

  // ---- the shape of the stream ----

  lemma {:induction false} InterimAt(code: nat, ts: nat, n: nat, i: nat)
    requires i < n
    ensures |Interims(code, ts, n)| == n
    ensures Interims(code, ts, n)[i] == Packet(ts, i == 0, PAYLOAD_TYPE, code, false, VOLUME, Duration16(i + 1))
  {
    InterimsLength(code, ts, n - 1);
    if i < n - 1 {
      InterimAt(code, ts, n - 1, i);
    }
  }

  lemma {:induction false} StreamLength(codes: seq<nat>, ts: nat, n: nat)
    ensures |Stream(codes, ts, n)| == |codes| * (n + 1)
  {
    if codes != [] {
      InterimsLength(codes[0], ts, n);
      StreamLength(codes[1..], NextStamp(ts, n), n);
    }
  }

  lemma {:induction false} StreamSnoc(codes: seq<nat>, c: nat, ts: nat, n: nat)
    ensures Stream(codes + [c], ts, n) == Stream(codes, ts, n) + Tone(c, StampAt(ts, n, |codes|), n)
    ensures StampAt(ts, n, |codes| + 1) == NextStamp(StampAt(ts, n, |codes|), n)
    decreases codes
  {
    if codes == [] {
      assert [c][1..] == [] && codes + [c] == [c];
      assert StampAt(ts, n, 1) == StampAt(NextStamp(ts, n), n, 0);
    } else {
      assert (codes + [c])[1..] == codes[1..] + [c];
      StreamSnoc(codes[1..], c, NextStamp(ts, n), n);
    }
  }

  lemma {:induction false} StreamPrefix(codes: seq<nat>, more: seq<nat>, ts: nat, n: nat)
    requires codes <= more
    ensures Stream(codes, ts, n) <= Stream(more, ts, n)
    decreases codes
  {
    if codes != [] {
      assert codes[1..] <= more[1..];
      StreamPrefix(codes[1..], more[1..], NextStamp(ts, n), n);
    }
  }

  /** Packet i of digit k: only the first carries the marker, only the last the E bit, all share the digit's timestamp. */
  lemma StreamAt(codes: seq<nat>, ts: nat, n: nat, k: nat, i: nat)
    requires k < |codes| && i <= n && n > 0
    ensures |Stream(codes, ts, n)| == |codes| * (n + 1) && 0 <= k * (n + 1) + i < |Stream(codes, ts, n)|
    ensures Stream(codes, ts, n)[k * (n + 1) + i] ==
            Packet(StampAt(ts, n, k), i == 0, PAYLOAD_TYPE, codes[k], i == n, VOLUME, Duration16(if i == n then n else i + 1))
  {
    StreamLength(codes, ts, n);
    TonePlace(codes, ts, n, k);
    ToneAt(codes[k], StampAt(ts, n, k), n, i);
    var before, tone := Stream(codes[..k], ts, n), Tone(codes[k], StampAt(ts, n, k), n);
    assert (before + tone)[|before| + i] == tone[i];
  }

  lemma TonePlace(codes: seq<nat>, ts: nat, n: nat, k: nat)
    requires k < |codes|
    ensures |Stream(codes[..k], ts, n)| == k * (n + 1)
    ensures Stream(codes[..k], ts, n) + Tone(codes[k], StampAt(ts, n, k), n) <= Stream(codes, ts, n)
  {
    StreamLength(codes[..k], ts, n);
    assert codes[..k + 1] == codes[..k] + [codes[k]];
    StreamSnoc(codes[..k], codes[k], ts, n);
    StreamPrefix(codes[..k + 1], codes, ts, n);
  }

  lemma ToneAt(code: nat, ts: nat, n: nat, i: nat)
    requires i <= n && n > 0
    ensures |Tone(code, ts, n)| == n + 1
    ensures Tone(code, ts, n)[i] == Packet(ts, i == 0, PAYLOAD_TYPE, code, i == n, VOLUME, Duration16(if i == n then n else i + 1))
  {
    InterimsLength(code, ts, n);
    if i < n {
      InterimAt(code, ts, n, i);
    }
  }

  // ---- the 16-bit duration ----

  function PacketsFor(perTone: int): int {
    if perTone >= 0 then perTone / PTIME_NS else 0
  }

  ghost predicate DurationsGrow(n: nat) {
    forall i :: 1 <= i < n ==> Duration16(i) < Duration16(i + 1)
  }

  /**
   For tones the sender accepts: the reported durations grow strictly, and the next digit starts 320 samples
   after the end of the tone modulo 2^32, exactly when the tone is shorter than 8.2 seconds.
   */
  lemma DurationsExactIff(perTone: int, ts: nat)
    requires perTone >= MIN_TONE_NS && ts < 0x1_0000_0000
    ensures DurationsGrow(PacketsFor(perTone)) <==> perTone < 8200 * NS_PER_MS
    ensures NextStamp(ts, PacketsFor(perTone)) == (ts + PacketsFor(perTone) * SAMPLES_PER_20 + GAP_SAMPLES) % 0x1_0000_0000
            <== perTone < 8200 * NS_PER_MS
    ensures Duration16(PacketsFor(perTone)) == PacketsFor(perTone) * SAMPLES_PER_20 <==> perTone < 8200 * NS_PER_MS
  {
    var n := PacketsFor(perTone);
    assert n <= 409 <==> perTone < 8200 * NS_PER_MS;
    if n <= 409 {
      forall i | 1 <= i <= n ensures Duration16(i) == i * SAMPLES_PER_20 {
        ShortDuration(i);
      }
    } else {
      ShortDuration(409);
      LongDuration(n);
      assert Duration16(410) == 64;
    }
  }

  lemma ShortDuration(i: nat)
    requires i <= 409
    ensures Duration16(i) == i * SAMPLES_PER_20
  {
  }

  lemma LongDuration(n: nat)
    requires n > 409
    ensures Duration16(n) < n * SAMPLES_PER_20
  {
  }

  // ---- the sender ----

  datatype SendResult = Sent | NotAnswered | TooShort | NoWriter | Unsupported(digit: char) | WriteFailed

  /** The RTP packet writer: stamps the current timestamp, then advances it; writes fail once `limit` packets are out. */
  class PacketWriter {
    var timestamp: nat
    var sent: seq<Packet>
    const limit: nat

    ghost predicate Valid()
      reads this
    {
      timestamp < 0x1_0000_0000 && |sent| <= limit
    }

    constructor (timestamp: nat, limit: nat)
      requires timestamp < 0x1_0000_0000
      ensures Valid() && sent == [] && this.timestamp == timestamp && this.limit == limit
    {
      this.timestamp, this.sent, this.limit := timestamp, [], limit;
    }

    method WriteSamples(event: nat, end: bool, duration: nat, advance: nat, marker: bool) returns (ok: bool)
      requires Valid()
      modifies this
      ensures Valid()
      ensures ok <==> |old(sent)| < limit
      ensures sent == if ok then old(sent) + [Packet(old(timestamp), marker, PAYLOAD_TYPE, event, end, VOLUME, duration)] else old(sent)
      ensures timestamp == if ok then (old(timestamp) + advance) % 0x1_0000_0000 else old(timestamp)
    {
      ok := |sent| < limit;
      if ok {
        sent := sent + [Packet(timestamp, marker, PAYLOAD_TYPE, event, end, VOLUME, duration)];
        timestamp := (timestamp + advance) % 0x1_0000_0000;
      }
    }
  }

  /** What was sent after `before` is a proper prefix of the packets meant to be sent. */
  ghost predicate CutShort(before: seq<Packet>, after: seq<Packet>, meant: seq<Packet>) {
    exists m :: 0 <= m < |meant| && after == before + meant[..m]
  }

  lemma CutShortExtends(base: seq<Packet>, done: seq<Packet>, after: seq<Packet>, tone: seq<Packet>, meant: seq<Packet>)
    requires CutShort(base + done, after, tone) && done + tone <= meant
    ensures CutShort(base, after, meant)
  {
    var m :| 0 <= m < |tone| && after == base + done + tone[..m];
    assert meant[..|done| + m] == done + tone[..m];
  }

  /** One digit; on failure the packets that went out are a proper prefix of its tone. */
  method SendTone(pw: PacketWriter, code: nat, n: nat) returns (ok: bool)
    requires pw.Valid() && n >= 2
    modifies pw
    ensures pw.Valid()
    ensures ok ==> pw.sent == old(pw.sent) + Tone(code, old(pw.timestamp), n) && pw.timestamp == NextStamp(old(pw.timestamp), n)
    ensures !ok ==> |pw.sent| == pw.limit && CutShort(old(pw.sent), pw.sent, Tone(code, old(pw.timestamp), n))
  {
    ghost var ts := pw.timestamp;
    for i := 0 to n
      invariant pw.Valid() && pw.timestamp == ts
      invariant pw.sent == old(pw.sent) + Interims(code, ts, i)
    {
      if i == 0 {
        ok := pw.WriteSamples(code, false, (i + 1) % 0x1_0000 * SAMPLES_PER_20 % 0x1_0000, 0, true);
      } else {
        ok := pw.WriteSamples(code, false, (i + 1) % 0x1_0000 * SAMPLES_PER_20 % 0x1_0000, 0, false);
      }
      if !ok {
        CutTone(code, ts, i, n);
        return false;
      }
    }
    var total := n % 0x1_0000 * SAMPLES_PER_20 % 0x1_0000;
    ok := pw.WriteSamples(code, true, total, total + GAP_SAMPLES, false);
    if !ok {
      CutTone(code, ts, n, n);
    }
  }

  /** The first i packets of a tone are its first i interim packets. */
  lemma CutTone(code: nat, ts: nat, i: nat, n: nat)
    requires i <= n
    ensures i < |Tone(code, ts, n)| && Tone(code, ts, n)[..i] == Interims(code, ts, i)
  {
    InterimsLength(code, ts, n);
    InterimsLength(code, ts, i);
    InterimsPrefix(code, ts, i, n);
  }

  lemma {:induction false} InterimsPrefix(code: nat, ts: nat, i: nat, n: nat)
    requires i <= n
    ensures |Interims(code, ts, n)| == n && Interims(code, ts, n)[..i] == Interims(code, ts, i)
    decreases n
  {
    InterimsLength(code, ts, n);
    if i < n {
      InterimsPrefix(code, ts, i, n - 1);
      assert Interims(code, ts, n)[..i] == Interims(code, ts, n - 1)[..i];
    }
  }

  lemma {:induction false} CodesSnoc(digits: string, k: nat)
    requires k < |digits| && Legal(digits[..k])
    ensures |Codes(digits[..k])| == k
    ensures Codes(digits[..k + 1]) == Codes(digits[..k]) + (match EventCode(digits[k]) case Some(c) => [c] case None => [])
    ensures EventCode(digits[k]).None? ==> Codes(digits) == Codes(digits[..k])
    ensures Codes(digits[..k]) <= Codes(digits)
    decreases k
  {
    if k > 0 {
      assert digits[..k][0] == digits[0];
      assert digits[..k][1..] == digits[1..][..k - 1] && digits[..k + 1][1..] == digits[1..][..k];
      CodesSnoc(digits[1..], k - 1);
    } else {
      assert digits[..1][1..] == [];
    }
  }

  /** The packets a call puts on the wire when nothing fails: all tones up to the first unsupported digit. */
  function Wire(digits: string, ts: nat, perTone: int): seq<Packet> {
    Stream(Codes(digits), ts, PacketsFor(perTone))
  }

  /** What one more digit adds to the stream. */
  lemma OneMoreTone(digits: string, k: nat, ts: nat, n: nat)
    requires k < |digits| && Legal(digits[..k]) && EventCode(digits[k]).Some?
    ensures Legal(digits[..k + 1])
    ensures Stream(Codes(digits[..k + 1]), ts, n) ==
            Stream(Codes(digits[..k]), ts, n) + Tone(EventCode(digits[k]).value, StampAt(ts, n, k), n)
    ensures StampAt(ts, n, k + 1) == NextStamp(StampAt(ts, n, k), n)
    ensures Stream(Codes(digits[..k + 1]), ts, n) <= Stream(Codes(digits), ts, n)
  {
    CodesSnoc(digits, k);
    StreamSnoc(Codes(digits[..k]), EventCode(digits[k]).value, ts, n);
    CodesWithin(digits, k + 1);
    StreamPrefix(Codes(digits[..k + 1]), Codes(digits), ts, n);
  }

  lemma CodesWithin(digits: string, k: nat)
    requires k <= |digits| && Legal(digits[..k])
    ensures Codes(digits[..k]) <= Codes(digits)
  {
    if k < |digits| {
      CodesSnoc(digits, k);
    } else {
      assert digits[..k] == digits;
    }
  }

  /** The loop over the digits. */
  method SendTones(pw: PacketWriter, digits: string, n: nat) returns (r: SendResult)
    requires pw.Valid() && n >= 2
    modifies pw
    ensures pw.Valid()
    ensures r.Sent? || r.Unsupported? || r.WriteFailed?
    ensures r.Sent? ==> Legal(digits)
    ensures r.Unsupported? ==> !Legal(digits)
    ensures !r.WriteFailed? ==> pw.sent == old(pw.sent) + Stream(Codes(digits), old(pw.timestamp), n)
    ensures r.WriteFailed? ==>
              |pw.sent| == pw.limit && CutShort(old(pw.sent), pw.sent, Stream(Codes(digits), old(pw.timestamp), n))
  {
    ghost var ts, base := pw.timestamp, pw.sent;
    NothingSent(digits, base, ts, n);
    for k := 0 to |digits|
      invariant pw.Valid() && SentUpTo(pw, digits, k, base, ts, n)
    {
      r := SendDigit(pw, digits, k, n, base, ts);
      if !r.Sent? {
        return r;
      }
    }
    assert digits[..|digits|] == digits;
    return Sent;
  }

  /** The tones of the first k digits are out, after what was sent before. */
  ghost predicate SentUpTo(pw: PacketWriter, digits: string, k: nat, base: seq<Packet>, ts: nat, n: nat)
    requires k <= |digits|
    reads pw
  {
    Legal(digits[..k]) && pw.timestamp == StampAt(ts, n, k) && pw.sent == base + Stream(Codes(digits[..k]), ts, n)
  }

  lemma NothingSent(digits: string, base: seq<Packet>, ts: nat, n: nat)
    ensures Legal(digits[..0]) && StampAt(ts, n, 0) == ts && base == base + Stream(Codes(digits[..0]), ts, n)
  {
    assert digits[..0] == [];
  }

  /** The body of the loop over the digits. */
  method SendDigit(pw: PacketWriter, digits: string, k: nat, n: nat, ghost base: seq<Packet>, ghost ts: nat) returns (r: SendResult)
    requires pw.Valid() && n >= 2 && k < |digits| && SentUpTo(pw, digits, k, base, ts, n)
    modifies pw
    ensures pw.Valid()
    ensures r.Sent? || r.Unsupported? || r.WriteFailed?
    ensures r.Sent? ==> SentUpTo(pw, digits, k + 1, base, ts, n)
    ensures r.Unsupported? ==> !Legal(digits) && pw.sent == base + Stream(Codes(digits), ts, n)
    ensures r.WriteFailed? ==> |pw.sent| == pw.limit && CutShort(base, pw.sent, Stream(Codes(digits), ts, n))
  {
    var code := EventCode(digits[k]);
    if code.None? {
      CodesSnoc(digits, k);
      return Unsupported(digits[k]);
    }
    ghost var done, tone := Stream(Codes(digits[..k]), ts, n), Tone(code.value, pw.timestamp, n);
    OneMoreTone(digits, k, ts, n);
    var ok := SendTone(pw, code.value, n);
    if !ok {
      CutShortExtends(base, done, pw.sent, tone, Stream(Codes(digits), ts, n));
      return WriteFailed;
    }
    assert base + done + tone == base + (done + tone);
    return Sent;
  }

  method SendDTMFWithDuration(answered: bool, pw: PacketWriter?, digits: string, perTone: int) returns (r: SendResult)
    requires pw != null ==> pw.Valid()
    modifies pw
    ensures pw != null ==> pw.Valid()
    ensures r.NotAnswered? <==> !answered
    ensures r.TooShort? <==> answered && perTone < MIN_TONE_NS
    ensures r.NoWriter? <==> answered && perTone >= MIN_TONE_NS && pw == null
    ensures r.NotAnswered? || r.TooShort? ==> pw != null ==> pw.sent == old(pw.sent)
    ensures r.Sent? ==> Legal(digits) && pw.sent == old(pw.sent) + Wire(digits, old(pw.timestamp), perTone)
    ensures r.Unsupported? ==> !Legal(digits) && pw.sent == old(pw.sent) + Wire(digits, old(pw.timestamp), perTone)
    ensures r.WriteFailed? ==> |pw.sent| == pw.limit && CutShort(old(pw.sent), pw.sent, Wire(digits, old(pw.timestamp), perTone))
  {
    if !answered {
      return NotAnswered;
    }
    if perTone < MIN_TONE_NS {
      return TooShort;
    }
    if pw == null {
      return NoWriter;
    }
    var nPackets := perTone / PTIME_NS;
    if nPackets < 2 {
      nPackets := 2;
    }
    r := SendTones(pw, digits, nPackets);
  }
}
