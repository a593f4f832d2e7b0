/** Names built from a clock reading and a sequence number: src/events/event_paths.cpp. The clock part is
    an arbitrary string here; only the sequence part is needed to tell two names apart. */
module EventPaths {

  predicate IsDigit(c: char) { '0' <= c <= '9' }

  predicate AllDigits(s: string) { forall i | 0 <= i < |s| :: IsDigit(s[i]) }

  function DigitChar(d: nat): (c: char)
    requires d < 10
    ensures IsDigit(c)
  {
    ('0' as int + d) as char
  }

  function DigitValue(c: char): nat
    requires IsDigit(c)
  {
    c as int - '0' as int
  }

  /** The decimal text of n, as operator<< prints it. */
  function Decimal(n: nat): (s: string)
    ensures AllDigits(s) && s != []
  {
    if n < 10 then [DigitChar(n)] else Decimal(n / 10) + [DigitChar(n % 10)]
  }

  function Zeros(n: nat): (s: string)
    ensures AllDigits(s) && |s| == n
  {
    seq(n, _ => '0')
  }

  /** std::setw(width) << std::setfill('0') << n: at least width characters, more when n is longer. */
  function Padded(width: nat, n: nat): (s: string)
    ensures AllDigits(s) && |s| >= width
  {
    var d := Decimal(n);
    if |d| < width then Zeros(width - |d|) + d else d
  }

  /** The number a digit string denotes. */
  function Value(s: string): nat
    requires AllDigits(s)
  {
    if s == [] then 0 else 10 * Value(s[..|s| - 1]) + DigitValue(s[|s| - 1])
  }

  lemma {:induction false} DecimalValue(n: nat)
    ensures Value(Decimal(n)) == n
  {
    var s := Decimal(n);
    if n < 10 {
      assert s[..0] == [] && DigitValue(s[0]) == n;
    } else {
      DecimalValue(n / 10);
      assert s[..|s| - 1] == Decimal(n / 10);
      assert DigitValue(s[|s| - 1]) == n % 10;
    }
  }

  lemma {:induction false} LeadingZeros(k: nat, s: string)
    requires AllDigits(s)
    ensures AllDigits(Zeros(k) + s) && Value(Zeros(k) + s) == Value(s)
    decreases |s|, k
  {
    var z := Zeros(k) + s;
    if s != [] {
      assert z[..|z| - 1] == Zeros(k) + s[..|s| - 1];
      LeadingZeros(k, s[..|s| - 1]);
    } else if k > 0 {
      assert z[..|z| - 1] == Zeros(k - 1) + s;
      LeadingZeros(k - 1, s);
    } else {
      assert z == s;
    }
  }

  /** Padding loses nothing, whatever the width: reading the digits gives the number back. */
  lemma PaddedValue(width: nat, n: nat)
    ensures Value(Padded(width, n)) == n
  {
    DecimalValue(n);
    if |Decimal(n)| < width {
      LeadingZeros(width - |Decimal(n)|, Decimal(n));
    }
  }

  /** The last dash separates a digits-only tail. */
  lemma SplitAtLastDash(x: string, p: string, y: string, q: string)
    requires x + "-" + p == y + "-" + q && AllDigits(p) && AllDigits(q)
    ensures x == y && p == q
  {
    var s := x + "-" + p;
    forall i | |x| < i < |s| ensures s[i] != '-' {
      assert s[i] == p[i - |x| - 1];
    }
    forall i | |y| < i < |s| ensures s[i] != '-' {
      assert s[i] == q[i - |y| - 1];
    }
    assert s[|x|] == '-' && s[|y|] == '-';
    assert x == s[..|x|] && y == s[..|y|];
    assert p == s[|x| + 1..] && q == s[|y| + 1..];
  }

  /** format_event_id; stamp is the UTC date, 'T', time and milliseconds. */
  function FormatEventId(stamp: string, sequence: nat): string {
    stamp + "Z" + "-" + Padded(7, sequence)
  }

  /** Two event ids are equal only if clock reading and sequence number are. */
  lemma EventIdInjective(stamp1: string, n1: nat, stamp2: string, n2: nat)
    requires FormatEventId(stamp1, n1) == FormatEventId(stamp2, n2)
    ensures n1 == n2 && stamp1 == stamp2
  {
    SplitAtLastDash(stamp1 + "Z", Padded(7, n1), stamp2 + "Z", Padded(7, n2));
    PaddedValue(7, n1);
    PaddedValue(7, n2);
    assert stamp1 == (stamp1 + "Z")[..|stamp1|] && stamp2 == (stamp2 + "Z")[..|stamp2|];
  }

  /** A local clock reading: the eight-digit date, and the time with milliseconds. */
  datatype LocalTime = LocalTime(date: string, clock: string) {
    predicate Valid() { |date| == 8 }
  }

  /** clip_relative_path */
  function ClipRelativePath(at: LocalTime, sequence: nat): string {
    "clips/" + at.date + "/" + at.date + "T" + at.clock + "-" + Padded(7, sequence) + ".mp4"
  }

  /** A clip path up to its sequence number. */
  function ClipStem(at: LocalTime): string { "clips/" + at.date + "/" + at.date + "T" + at.clock }

  lemma DateOfStem(at: LocalTime)
    requires at.Valid()
    ensures |ClipStem(at)| >= 14 && ClipStem(at)[6..14] == at.date
  {
    assert ClipStem(at) == "clips/" + (at.date + ("/" + at.date + "T" + at.clock));
    DateFirst("clips/", at.date, "/" + at.date + "T" + at.clock);
  }

  lemma DateFirst(before: string, date: string, after: string)
    ensures (before + (date + after))[|before|..|before| + |date|] == date
  {
  }

  lemma SameWithoutEnd(a: string, b: string, end: string)
    requires a + end == b + end
    ensures a == b
  {
    assert |a| == |b| && a == (a + end)[..|a|] && b == (b + end)[..|b|];
  }

  lemma ClipPathInjective(a: LocalTime, n: nat, b: LocalTime, m: nat)
    requires a.Valid() && b.Valid()
    requires ClipRelativePath(a, n) == ClipRelativePath(b, m)
    ensures a.date == b.date && n == m
  {
    var x, y := ClipStem(a), ClipStem(b);
    assert ClipRelativePath(a, n) == x + "-" + Padded(7, n) + ".mp4";
    assert ClipRelativePath(b, m) == y + "-" + Padded(7, m) + ".mp4";
    hide ClipRelativePath, ClipStem, Padded;
    SameWithoutEnd(x + "-" + Padded(7, n), y + "-" + Padded(7, m), ".mp4");
    SplitAtLastDash(x, Padded(7, n), y, Padded(7, m));
    DateOfStem(a);
    DateOfStem(b);
    PaddedValue(7, n);
    PaddedValue(7, m);
  }

  /** std::to_string of a signed number. */
  function Signed(n: int): string { if n >= 0 then Decimal(n) else "-" + Decimal(-n) }

  /** The id of a recording a device starts at a time in milliseconds. */
  function RecordingId(device: string, atMs: int): string { device + "-" + Signed(atMs) }

  lemma SignedInjective(a: int, b: int)
    requires Signed(a) == Signed(b)
    ensures a == b
  {
    DecimalValue(if a >= 0 then a else -a);
    DecimalValue(if b >= 0 then b else -b);
    DecimalStarts(if a >= 0 then a else -a);
    DecimalStarts(if b >= 0 then b else -b);
    if a < 0 && b < 0 {
      assert Decimal(-a) == Signed(a)[1..] && Decimal(-b) == Signed(b)[1..];
    }
  }

  lemma DecimalStarts(n: nat)
    ensures Decimal(n) != [] && Decimal(n)[0] != '-'
  {
    assert IsDigit(Decimal(n)[0]);
  }

  /** Recordings a device starts at different times have different ids. */
  lemma RecordingIdInjective(device: string, a: int, b: int)
    requires RecordingId(device, a) == RecordingId(device, b)
    ensures a == b
  {
    var n := |device| + 1;
    assert Signed(a) == RecordingId(device, a)[n..] && Signed(b) == RecordingId(device, b)[n..];
    SignedInjective(a, b);
  }

  lemma FirstDigit(d: nat)
    requires d < 10
    ensures Decimal(d) == [DigitChar(d)]
  {
  }

  lemma OneMoreDigit(n: nat, d: nat)
    requires n > 0 && d < 10
    ensures Decimal(10 * n + d) == Decimal(n) + [DigitChar(d)]
  {
  }

  lemma DecimalsWrittenOut()
    ensures Decimal(42) == "42" && Decimal(107) == "107" && Decimal(9050) == "9050" && Decimal(31) == "31"
    ensures Decimal(12345678) == "12345678"
  {
    hide Decimal;
    FirstDigit(4);
    OneMoreDigit(4, 2);
    FirstDigit(1);
    OneMoreDigit(1, 0);
    OneMoreDigit(10, 7);
    FirstDigit(9);
    OneMoreDigit(9, 0);
    OneMoreDigit(90, 5);
    OneMoreDigit(905, 0);
    FirstDigit(3);
    OneMoreDigit(3, 1);
    FirstDigit(1);
    OneMoreDigit(1, 2);
    OneMoreDigit(12, 3);
    OneMoreDigit(123, 4);
    OneMoreDigit(1234, 5);
    OneMoreDigit(12345, 6);
    OneMoreDigit(123456, 7);
    OneMoreDigit(1234567, 8);
  }

  lemma PaddedWrittenOut()
    ensures Padded(7, 42) == "0000042" && Padded(7, 107) == "0000107" && Padded(7, 12345678) == "12345678"
    ensures Padded(6, 42) == "000042"
  {
    DecimalsWrittenOut();
    hide Decimal;
    assert Zeros(5) == "00000" && Zeros(4) == "0000";
  }

  /** The names, written out: the sequence has at least seven digits, filled up with zeros. */
  lemma NamesWrittenOut(stamp: string, at: LocalTime, device: string)
    ensures FormatEventId(stamp, 42) == stamp + "Z-0000042"
    ensures FormatEventId(stamp, 12345678) == stamp + "Z-12345678"
    ensures ClipRelativePath(at, 107) == "clips/" + at.date + "/" + at.date + "T" + at.clock + "-0000107.mp4"
    ensures RecordingId(device, 9050) == device + "-9050" && RecordingId(device, -31) == device + "--31"
  {
    DecimalsWrittenOut();
    PaddedWrittenOut();
    hide Decimal, Padded;
  }
}
