/** The timestamps and the offset of src/device/sntp_client.cpp (sections 3 and 5 of RFC 4330). */
module Sntp {
  import opened Bytes

  const TWO32: nat := 0x1_0000_0000
  const NTP_UNIX_EPOCH: nat := 2208988800

  /** C's / and % on signed integers. */
  function TruncDiv(a: int, b: nat): int
    requires b > 0
  {
    if a >= 0 then a / b else -(-a / b)
  }

  function TruncMod(a: int, b: nat): int
    requires b > 0
  {
    a - TruncDiv(a, b) * b
  }

  // ------------------------------------------------------------------------------------- 32 bits

  /** A 32-bit value in network byte order. */
  function Bytes32(v: nat): (s: seq<Byte>)
    requires v < TWO32
    ensures |s| == 4
  {
    [v / 0x100_0000, v / 0x1_0000 % 256, v / 256 % 256, v % 256]
  }

  function ReadU32(s: seq<Byte>): (v: nat)
    requires |s| >= 4
    ensures v < TWO32
  {
    s[0] as int * 0x100_0000 + s[1] as int * 0x1_0000 + s[2] as int * 256 + s[3]
  }

  lemma ReadWrite32(v: nat)
    requires v < TWO32
    ensures ReadU32(Bytes32(v)) == v
  {
    var a, b, c := v / 256, v / 0x1_0000, v / 0x100_0000;
    assert b == a / 256 && c == b / 256;
    assert v == 256 * a + v % 256 && a == 256 * b + a % 256 && b == 256 * c + b % 256;
  }

  /** write_u32 at a place in a packet. */
  method WriteU32(target: array<Byte>, at: nat, value: nat)
    requires at + 4 <= target.Length && value < TWO32
    modifies target
    ensures target[..] == old(target[..at]) + Bytes32(value) + old(target[at + 4..])
  {
    target[at] := value / 0x100_0000;
    target[at + 1] := value / 0x1_0000 % 256;
    target[at + 2] := value / 256 % 256;
    target[at + 3] := value % 256;
  }

  // ---------------------------------------------------------------------------------- timestamps

  /** The two fields write_timestamp writes for a Unix time in milliseconds. */
  function NtpSeconds(unixMs: int): (s: nat)
    ensures s < TWO32
  {
    (TruncDiv(unixMs, 1000) + NTP_UNIX_EPOCH) % TWO32
  }

  function RemainderMs(unixMs: int): (r: nat)
    ensures r < 1000
  {
    var r := TruncMod(unixMs, 1000);
    if r < 0 then r + 1000 else r
  }

  function Fraction(unixMs: int): (f: nat)
    ensures f < TWO32
  {
    RemainderMs(unixMs) * TWO32 / 1000
  }

  function Timestamp(unixMs: int): (s: seq<Byte>)
    ensures |s| == 8
  {
    Bytes32(NtpSeconds(unixMs)) + Bytes32(Fraction(unixMs))
  }

  method WriteTimestamp(target: array<Byte>, at: nat, unixMs: int)
    requires at + 8 <= target.Length
    modifies target
    ensures target[..] == old(target[..at]) + Timestamp(unixMs) + old(target[at + 8..])
  {
    var unixSeconds := TruncDiv(unixMs, 1000);
    var remainderMs := TruncMod(unixMs, 1000);
    if remainderMs < 0 {
      remainderMs := remainderMs + 1000;
    }
    var ntpSeconds := unixSeconds + NTP_UNIX_EPOCH;
    var fraction := remainderMs * TWO32 / 1000;
    assert ntpSeconds % TWO32 == NtpSeconds(unixMs) && fraction == Fraction(unixMs);
    hide NtpSeconds, Fraction, Bytes32;
    WriteU32(target, at, ntpSeconds % TWO32);
    WriteU32(target, at + 4, fraction);
  }

  lemma PartsOf(unixMs: int, seconds: int, ms: nat)
    requires unixMs == 1000 * seconds + ms && ms < 1000 && (seconds >= 0 || ms == 0)
    ensures TruncDiv(unixMs, 1000) == seconds && RemainderMs(unixMs) == ms
  {
  }

  /** Unix time 0 is 70 years after the start of 1900, and a second has 2^32 parts. */
  lemma TimestampsWrittenOut()
    ensures Timestamp(0) == [0x83, 0xAA, 0x7E, 0x80, 0, 0, 0, 0]
    ensures Timestamp(258750) == [0x83, 0xAA, 0x7F, 0x82, 0xC0, 0, 0, 0]
    ensures Timestamp(-2208988800000) == [0, 0, 0, 0, 0, 0, 0, 0]
  {
    PartsOf(0, 0, 0);
    PartsOf(258750, 258, 750);
    PartsOf(-2208988800000, -2208988800, 0);
    hide TruncDiv, RemainderMs, Bytes32;
    BytesOf(0x83, 0xAA, 0x7E, 0x80);
    BytesOf(0x83, 0xAA, 0x7F, 0x82);
    BytesOf(0xC0, 0, 0, 0);
    BytesOf(0, 0, 0, 0);
  }

  lemma BytesOf(b0: Byte, b1: Byte, b2: Byte, b3: Byte)
    ensures var v: nat := b0 as int * 0x100_0000 + b1 as int * 0x1_0000 + b2 as int * 0x100 + b3;
      v < TWO32 && Bytes32(v) == [b0, b1, b2, b3]
  {
    FourBytes(b0, b1, b2, b3);
    assert b0 as int * 0x100_0000 + b1 as int * 0x1_0000 + b2 as int * 0x100 + b3
      == 256 * (256 * (256 * b0 + b1) + b2) + b3;
  }

  function ReadTimestamp(s: seq<Byte>): int
    requires |s| >= 8
  {
    (ReadU32(s) - NTP_UNIX_EPOCH) * 1000 + (ReadU32(s[4..]) * 1000 + 0x8000_0000) / TWO32
  }

  lemma MillisecondsSurvive(ms: nat)
    requires ms < 1000
    ensures (ms * TWO32 / 1000 * 1000 + 0x8000_0000) / TWO32 == ms
  {
    var f := ms * TWO32 / 1000;
    assert ms * TWO32 - 1000 < f * 1000 <= ms * TWO32;
  }

  /** The time a reader of a timestamp takes it for. */
  function ReadBack(unixMs: int): int { (NtpSeconds(unixMs) - NTP_UNIX_EPOCH) * 1000 + RemainderMs(unixMs) }

  /** What reading a written timestamp gives, for every time: the seconds modulo 2^32, and a negative time
      that is no whole second comes back a second late. */
  lemma ReadWritten(unixMs: int)
    ensures ReadTimestamp(Timestamp(unixMs)) == ReadBack(unixMs)
    ensures RemainderMs(unixMs)
      == TruncMod(unixMs, 1000) + if unixMs < 0 && TruncMod(unixMs, 1000) != 0 then 1000 else 0
  {
    var t := Timestamp(unixMs);
    assert ReadU32(t) == ReadU32(Bytes32(NtpSeconds(unixMs)));
    assert t[4..] == Bytes32(Fraction(unixMs));
    ReadWrite32(NtpSeconds(unixMs));
    ReadWrite32(Fraction(unixMs));
    MillisecondsSurvive(RemainderMs(unixMs));
  }

  /** A time in NTP era 0, by its seconds. */
  predicate InEra0(unixMs: int) { 0 <= TruncDiv(unixMs, 1000) + NTP_UNIX_EPOCH < TWO32 }

  /** A time of era 0 that is not negative or is a whole second. */
  predicate Survives(unixMs: int) { InEra0(unixMs) && (unixMs >= 0 || TruncMod(unixMs, 1000) == 0) }

  /** The round trip works exactly for these times. */
  lemma RoundTripIff(unixMs: int)
    ensures ReadTimestamp(Timestamp(unixMs)) == unixMs <==> Survives(unixMs)
  {
    hide ReadTimestamp, Timestamp, RemainderMs;
    ReadWritten(unixMs);
    var seconds := TruncDiv(unixMs, 1000);
    var k := (seconds + NTP_UNIX_EPOCH) / TWO32;
    assert NtpSeconds(unixMs) == seconds + NTP_UNIX_EPOCH - k * TWO32;
    assert InEra0(unixMs) <==> k == 0;
    assert unixMs == seconds * 1000 + TruncMod(unixMs, 1000);
  }

  // ------------------------------------------------------------------------------------ responses

  datatype SntpResult = Answer(offsetMs: int) | InvalidResponse

  predicate HeaderOk(packet: seq<Byte>) {
    && |packet| >= 48
    && packet[0] / 64 % 4 != 3 && (packet[0] % 8 == 4 || packet[0] % 8 == 5)
    && 1 <= packet[1] <= 15
  }

  function Offset(requestMs: int, receiveMs: int, transmitMs: int, responseMs: int): int {
    TruncDiv((receiveMs - requestMs) + (transmitMs - responseMs), 2)
  }

  function ParseResponse(packet: seq<Byte>, requestMs: int, responseMs: int): SntpResult {
    if !HeaderOk(packet) then InvalidResponse
    else
      var originate := ReadTimestamp(packet[24..32]);
      var receive := ReadTimestamp(packet[32..40]);
      var transmit := ReadTimestamp(packet[40..48]);
      if originate != requestMs || receive == 0 || transmit == 0 then InvalidResponse
      else Answer(Offset(requestMs, receive, transmit, responseMs))
  }

  /** The times that are read as 0: whole multiples of 2^32 seconds. */
  predicate ReadsAsZero(unixMs: int) { TruncMod(unixMs, 1000) == 0 && TruncDiv(unixMs, 1000) % TWO32 == 0 }

  lemma ReadsAsZeroIff(unixMs: int)
    ensures ReadTimestamp(Timestamp(unixMs)) == 0 <==> ReadsAsZero(unixMs)
  {
    hide ReadTimestamp, Timestamp, RemainderMs;
    ReadWritten(unixMs);
    var seconds := TruncDiv(unixMs, 1000);
    var k := (seconds + NTP_UNIX_EPOCH) / TWO32;
    assert NtpSeconds(unixMs) == seconds + NTP_UNIX_EPOCH - k * TWO32;
    if NtpSeconds(unixMs) == NTP_UNIX_EPOCH {
      assert seconds == k * TWO32;
      assert ReadBack(unixMs) == RemainderMs(unixMs);
    } else {
      assert seconds % TWO32 != 0 by {
        NotAMultiple(seconds, k);
      }
    }
  }

  lemma NotAMultiple(seconds: int, k: int)
    requires 0 <= seconds + NTP_UNIX_EPOCH - k * TWO32 < TWO32 && seconds != k * TWO32
    ensures seconds % TWO32 != 0
  {
  }

  /** The first byte is leap indicator, version and mode: 0 to 2, any, and 4 (server) or 5 (broadcast); the second
      is the stratum, 1 to 15. */
  ghost predicate IsServerHeader(packet: seq<Byte>)
    requires |packet| >= 2
  {
    packet[0] < 192 && packet[0] % 8 in {4, 5} && packet[1] != 0 && packet[1] < 16
  }

  lemma HeaderIs(packet: seq<Byte>)
    requires |packet| >= 48
    ensures HeaderOk(packet) <==> IsServerHeader(packet)
  {
  }

  lemma ShortResponseRefused(packet: seq<Byte>, requestMs: int, responseMs: int)
    requires |packet| < 48
    ensures ParseResponse(packet, requestMs, responseMs) == InvalidResponse
  {
  }

  /** Which responses of a server are accepted that copies some time as the request's and sends its own two
      times, for all times: those whose copy is read as the time of the request and whose own times are not
      read as 0. A faithful copy is refused exactly when the device's own time does not survive. */
  lemma EchoAcceptedIff(packet: seq<Byte>, requestMs: int, echoMs: int, receiveMs: int, transmitMs: int, responseMs: int)
    requires |packet| >= 48 && packet[24..32] == Timestamp(echoMs)
    requires packet[32..40] == Timestamp(receiveMs) && packet[40..48] == Timestamp(transmitMs)
    ensures ParseResponse(packet, requestMs, responseMs)
      == if IsServerHeader(packet) && ReadBack(echoMs) == requestMs && !ReadsAsZero(receiveMs) && !ReadsAsZero(transmitMs)
         then Answer(Offset(requestMs, ReadBack(receiveMs), ReadBack(transmitMs), responseMs)) else InvalidResponse
    ensures echoMs == requestMs && IsServerHeader(packet) ==>
      (ParseResponse(packet, requestMs, responseMs).Answer? <==>
         Survives(requestMs) && !ReadsAsZero(receiveMs) && !ReadsAsZero(transmitMs))
  {
    HeaderIs(packet);
    hide HeaderOk, IsServerHeader;
    hide ReadTimestamp, Timestamp, Offset, ReadBack, Survives, ReadsAsZero;
    ReadWritten(echoMs);
    ReadWritten(receiveMs);
    ReadWritten(transmitMs);
    ReadsAsZeroIff(receiveMs);
    ReadsAsZeroIff(transmitMs);
    RoundTripIff(echoMs);
  }

  function Distance(a: int, b: int): nat { if a >= b then a - b else b - a }

  /** The server's clock is ahead by `ahead`; the request took d1 and the response d2. The offset is off by
      at most half the difference of the two delays, rounded; for equal delays it is exact. */
  lemma OffsetBound(ahead: int, d1: nat, d2: nat, requestMs: int, servedMs: nat)
    ensures var receiveMs := requestMs + d1 + ahead;
      var transmitMs := receiveMs + servedMs;
      var responseMs := transmitMs - ahead + d2;
      var offset := Offset(requestMs, receiveMs, transmitMs, responseMs);
      && 2 * Distance(offset, ahead) <= Distance(d1, d2) + 1 <= d1 + d2 + 1
      && (d1 == d2 ==> offset == ahead)
  {
    var sum := 2 * ahead + d1 - d2;
    assert Distance(2 * TruncDiv(sum, 2), sum) <= 1;
  }
}
