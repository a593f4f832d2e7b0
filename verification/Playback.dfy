/** The playback side of src/utils/audio_capture_manager.cpp: two bounded queues of samples, and the mixer
    that empties them. */
module Playback {
  import opened Bytes

  type Sample = s: int | -32768 <= s <= 32767

  const FRAME_SAMPLES: nat := 960
  const REMOTE_MAX: nat := 9600
  const CHIME_MAX: nat := 48000
  const GAIN: real := 0.3548
  const DUCKED_GAIN: real := 0.1778

  /** decode_s16le */
  function DecodeS16(low: Byte, high: Byte): Sample {
    var raw := low + 256 * high;
    if raw >= 32768 then raw - 65536 else raw
  }

  lemma DecodeIsTwosComplement(low: Byte, high: Byte)
    ensures (DecodeS16(low, high) - (low + 256 * high)) % 65536 == 0
  {
  }

  function Decoded(data: seq<Byte>): (s: seq<Sample>)
    ensures |s| == |data| / 2
  {
    seq(|data| / 2, i requires 0 <= i < |data| / 2 => DecodeS16(data[2 * i], data[2 * i + 1]))
  }

  /** Two bytes a sample, the low one first. */
  lemma DecodedAt(data: seq<Byte>, i: nat)
    requires 2 * i + 1 < |data|
    ensures var low, high: int := data[2 * i], data[2 * i + 1];
      Decoded(data)[i] == low + 256 * high - if high < 128 then 0 else 65536
  {
  }

  // --------------------------------------------------------------------------------------- the mixer

  /** std::lround: halves go away from zero. */
  function Round(x: real): int { if x >= 0.0 then (x + 0.5).Floor else -(-x + 0.5).Floor }

  function Clamp(x: int): Sample { if x < -32768 then -32768 else if x > 32767 then 32767 else x }

  function RemoteGain(duck: bool): real { if duck then DUCKED_GAIN else GAIN }

  function MixPcmSample(remote: Sample, chime: Sample, duck: bool): Sample {
    Clamp(Round(remote as real * RemoteGain(duck)) + Round(chime as real * GAIN))
  }

  lemma FullBound(s: Sample)
    ensures -11627 <= Round(s as real * GAIN) <= 11627
  {
    assert -32768.0 <= s as real <= 32767.0;
  }

  lemma DuckedBound(s: Sample)
    ensures -11627 <= Round(s as real * DUCKED_GAIN) <= 11627
  {
    assert -32768.0 <= s as real <= 32767.0;
  }

  /** The gains leave so much room that the clamp never changes a sample. */
  lemma ClampNeverActs(remote: Sample, chime: Sample, duck: bool)
    ensures MixPcmSample(remote, chime, duck) == Round(remote as real * RemoteGain(duck)) + Round(chime as real * GAIN)
  {
    FullBound(remote);
    DuckedBound(remote);
    FullBound(chime);
  }

  /** r is s times g ten-thousandths, rounded to the nearest whole number, halves away from zero. */
  ghost predicate IsScaledBy(r: int, s: Sample, g: int) {
    var error := 10000 * r - g * s;
    -5000 <= error <= 5000 && (error == 5000 ==> s > 0) && (error == -5000 ==> s < 0)
  }

  /** What is mixed: the chime at 0.3548, and the remote voice likewise, or at 0.1778 while it is ducked. */
  lemma MixIsSum(remote: Sample, chime: Sample, duck: bool) returns (r: int, c: int)
    ensures MixPcmSample(remote, chime, duck) == r + c
    ensures IsScaledBy(r, remote, if duck then 1778 else 3548) && IsScaledBy(c, chime, 3548)
  {
    r, c := Round(remote as real * RemoteGain(duck)), Round(chime as real * GAIN);
    ClampNeverActs(remote, chime, duck);
    RoundIs(remote as real * RemoteGain(duck));
    RoundIs(chime as real * GAIN);
    hide Round, MixPcmSample;
  }

  lemma RoundIs(x: real)
    ensures var r := Round(x) as real;
      -0.5 <= r - x <= 0.5 && (r - x == 0.5 ==> x > 0.0) && (r - x == -0.5 ==> x < 0.0)
  {
  }

  // ------------------------------------------------------------------------ what becomes of a sample

  /** All samples a source has handed in, how many have left its queue, and which of these were played. */
  datatype Line = Line(pushed: seq<Sample>, front: nat, played: seq<nat>) {
    ghost predicate Ok() {
      && front <= |pushed|
      && (forall i | 0 <= i < |played| :: played[i] < front)
      && (forall i, j | 0 <= i < j < |played| :: played[i] < played[j])
    }

    function Queue(): seq<Sample>
      requires front <= |pushed|
    {
      pushed[front..]
    }

    function Push(samples: seq<Sample>, max: nat): Line {
      var all := pushed + samples;
      Line(all, if |all| > front + max then |all| - max else front, played)
    }

    function Play(n: nat): Line {
      Line(pushed, front + n, played + seq(n, i requires 0 <= i < n => front + i))
    }

    function Clear(): Line { Line(pushed, |pushed|, played) }
  }

  const SILENT: Line := Line([], 0, [])

  /** Sample i has exactly one fate. */
  predicate IsQueued(line: Line, i: nat) { line.front <= i < |line.pushed| }

  predicate IsPlayed(line: Line, i: nat) { i in line.played }

  predicate IsDropped(line: Line, i: nat) { i < line.front && i !in line.played }

  lemma OneFate(line: Line, i: nat)
    requires line.Ok() && i < |line.pushed|
    ensures IsQueued(line, i) || IsPlayed(line, i) || IsDropped(line, i)
    ensures !(IsQueued(line, i) && IsPlayed(line, i)) && !(IsQueued(line, i) && IsDropped(line, i))
    ensures !(IsPlayed(line, i) && IsDropped(line, i))
    ensures forall a, b | 0 <= a < b < |line.played| && line.played[a] == i :: line.played[b] != i
  {
  }

  datatype Act = Push(samples: seq<Sample>) | Play(n: nat) | Clear

  function Did(line: Line, act: Act, max: nat): Line {
    match act
    case Push(samples) => line.Push(samples, max)
    case Play(n) => if line.front + n <= |line.pushed| then line.Play(n) else line
    case Clear => line.Clear()
  }

  function DidAll(acts: seq<Act>, max: nat): Line {
    if acts == [] then SILENT else Did(DidAll(acts[..|acts| - 1], max), acts[|acts| - 1], max)
  }

  lemma ActKeepsOk(line: Line, act: Act, max: nat)
    requires line.Ok()
    ensures Did(line, act, max).Ok()
  {
  }

  /** Over every run samples are played in the order they came, none twice, and whatever was not played is
      queued or dropped; the queue never holds more than its maximum. */
  lemma {:induction false} EveryRunOk(acts: seq<Act>, max: nat)
    ensures DidAll(acts, max).Ok() && |DidAll(acts, max).Queue()| <= max
  {
    if acts != [] {
      EveryRunOk(acts[..|acts| - 1], max);
      ActKeepsOk(DidAll(acts[..|acts| - 1], max), acts[|acts| - 1], max);
    }
  }

  /** What was played or dropped stays so, and no sample is ever changed. */
  lemma FatesAreFinal(line: Line, act: Act, max: nat, i: nat)
    requires line.Ok() && i < |line.pushed|
    ensures var after := Did(line, act, max);
      && i < |after.pushed| && after.pushed[i] == line.pushed[i]
      && (IsPlayed(line, i) ==> IsPlayed(after, i)) && (IsDropped(line, i) ==> IsDropped(after, i))
      && (IsQueued(line, i) && IsPlayed(after, i) ==> act.Play?)
  {
  }

  ghost function LastOf(s: seq<Sample>, max: nat): seq<Sample> { if |s| > max then s[|s| - max..] else s }

  /** Pushing leaves the last max samples of the queue and what is new. */
  lemma PushKeepsLast(line: Line, samples: seq<Sample>, max: nat)
    requires line.Ok()
    ensures line.Push(samples, max).Queue() == LastOf(line.Queue() + samples, max)
  {
    var all := line.pushed + samples;
    assert line.Queue() + samples == all[line.front..];
  }

  // ------------------------------------------------------------------------------------- the class

  class AudioCaptureManager {
    var remote: seq<Sample>
    var chime: seq<Sample>
    var chimeActive: bool
    var stopRequested: bool
    var appsrc: bool
    ghost var remoteLine: Line
    ghost var chimeLine: Line

    ghost predicate Valid()
      reads this
    {
      && remoteLine.Ok() && chimeLine.Ok()
      && remote == remoteLine.Queue() && |remote| <= REMOTE_MAX
      && chime == chimeLine.Queue() && |chime| <= CHIME_MAX
    }

    constructor ()
      ensures Valid() && remoteLine == SILENT && chimeLine == SILENT && !stopRequested && !appsrc
    {
      remote, chime, chimeActive, stopRequested, appsrc := [], [], false, false, false;
      remoteLine, chimeLine := SILENT, SILENT;
    }

    static method Decode(data: seq<Byte>) returns (samples: seq<Sample>)
      ensures samples == Decoded(data)
    {
      samples := [];
      var i := 0;
      while i < |data| / 2
        invariant i <= |data| / 2 && samples == Decoded(data)[..i]
      {
        samples := samples + [DecodeS16(data[2 * i], data[2 * i + 1])];
        i := i + 1;
      }
    }

    /** The bounded insertion, for one queue. */
    static method Insert(queue: seq<Sample>, samples: seq<Sample>, max: nat) returns (after: seq<Sample>, dropped: nat)
      requires |queue| <= max
      ensures after == LastOf(queue + samples, max) && |after| <= max
      ensures dropped + |after| == |queue| + if |samples| < max then |samples| else max
    {
      var kept := if |samples| < max then |samples| else max;
      var offset := |samples| - kept;
      after, dropped := queue, 0;
      if |queue| + kept > max {
        dropped := |queue| + kept - max;
        var i := 0;
        while i < dropped
          invariant i <= dropped && after == queue[i..]
        {
          after := after[1..];
          i := i + 1;
        }
      }
      after := after + samples[offset..];
    }

    /** enqueue_playback_frame */
    method EnqueuePlaybackFrame(data: seq<Byte>, isRemote: bool) returns (ok: bool)
      requires Valid()
      modifies this`remote, this`chime, this`remoteLine, this`chimeLine
      ensures Valid() && ok == (|data| >= 2 && !stopRequested && appsrc)
      ensures remoteLine == if ok && isRemote then old(remoteLine).Push(Decoded(data), REMOTE_MAX) else old(remoteLine)
      ensures chimeLine == if ok && !isRemote then old(chimeLine).Push(Decoded(data), CHIME_MAX) else old(chimeLine)
      ensures remote == if ok && isRemote then LastOf(old(remote) + Decoded(data), 9600) else old(remote)
      ensures chime == if ok && !isRemote then LastOf(old(chime) + Decoded(data), 48000) else old(chime)
    {
      hide DecodeS16;
      if |data| < 2 {
        return false;
      }
      var samples := Decode(data);
      if stopRequested || !appsrc {
        return false;
      }
      var dropped;
      if isRemote {
        PushKeepsLast(remoteLine, samples, REMOTE_MAX);
        remote, dropped := Insert(remote, samples, REMOTE_MAX);
        remoteLine := remoteLine.Push(samples, REMOTE_MAX);
      } else {
        PushKeepsLast(chimeLine, samples, CHIME_MAX);
        chime, dropped := Insert(chime, samples, CHIME_MAX);
        chimeLine := chimeLine.Push(samples, CHIME_MAX);
      }
      return true;
    }

    /** set_chime_active: a new round of the chime starts from the beginning. */
    method SetChimeActive(active: bool)
      requires Valid()
      modifies this`chime, this`chimeActive, this`chimeLine
      ensures Valid() && chimeActive == if appsrc then active else old(chimeActive)
      ensures chimeLine == if appsrc && active && !old(chimeActive) then old(chimeLine).Clear() else old(chimeLine)
      ensures chime == if appsrc && active && !old(chimeActive) then [] else old(chime)
    {
      if !appsrc {
        return;
      }
      var wasActive := chimeActive;
      chimeActive := active;
      if active && !wasActive {
        chime := [];
        chimeLine := chimeLine.Clear();
      }
    }

    /** front() and pop_front(), or silence. */
    static method PopIf(queue: seq<Sample>, has: bool) returns (s: Sample, rest: seq<Sample>)
      requires has ==> queue != []
      ensures s == (if has then queue[0] else 0) && rest == if has then queue[1..] else queue
    {
      s, rest := 0, queue;
      if has {
        s, rest := queue[0], queue[1..];
      }
    }

    /** The section of playback_loop under the lock: up to one frame from the front of each queue, sample by
        sample; where one source has fewer samples it is silent. */
    method MixFrame() returns (mixed: seq<Sample>)
      requires Valid()
      modifies this`remote, this`chime, this`remoteLine, this`chimeLine
      ensures Valid()
      ensures remoteLine == old(remoteLine).Play(FrameCount(old(remote)))
      ensures chimeLine == old(chimeLine).Play(FrameCount(old(chime)))
      ensures IsFrameOf(old(remote), old(chime), chimeActive, mixed, remote, chime)
      ensures HasPlayed(old(remoteLine), |old(remote)| - |remote|, remoteLine)
      ensures HasPlayed(old(chimeLine), |old(chime)| - |chime|, chimeLine)
      ensures |mixed| == MixedCount(old(remote), old(chime))
      ensures forall i | 0 <= i < |mixed| ::
        mixed[i] == MixPcmSample(SampleAt(old(remote), i), SampleAt(old(chime), i), chimeActive || old(chime) != [])
    {
      hide MixPcmSample, Line.Play, Line.Queue, Line.Ok, Rest, SampleAt, IsFrameOf, HasPlayed;
      ghost var remote0, chime0 := remote, chime;
      PlayKeepsOk(remoteLine, FrameCount(remote));
      PlayKeepsOk(chimeLine, FrameCount(chime));
      var remoteCount, chimeCount := FrameCount(remote), FrameCount(chime);
      var mixedCount := if remoteCount > chimeCount then remoteCount else chimeCount;
      var duckRemote := chimeActive || chimeCount > 0 || chime != [];
      RestEnds(remote, mixedCount);
      RestEnds(chime, mixedCount);
      mixed := [];
      var i := 0;
      while i < mixedCount
        invariant i <= mixedCount && |mixed| == i
        invariant remoteLine == old(remoteLine) && chimeLine == old(chimeLine)
        invariant remote == Rest(remote0, i) && chime == Rest(chime0, i)
        invariant forall k | 0 <= k < i :: mixed[k] == MixPcmSample(SampleAt(remote0, k), SampleAt(chime0, k), duckRemote)
      {
        RestStep(remote0, i);
        RestStep(chime0, i);
        var r, c;
        r, remote := PopIf(remote, i < remoteCount);
        c, chime := PopIf(chime, i < chimeCount);
        mixed := mixed + [MixPcmSample(r, c, duckRemote)];
        i := i + 1;
      }
      FrameIs(remote0, chime0, chimeActive, mixed, remote, chime);
      PlayIs(remoteLine, remoteCount);
      PlayIs(chimeLine, chimeCount);
      remoteLine := remoteLine.Play(remoteCount);
      chimeLine := chimeLine.Play(chimeCount);
    }
  }

  /** Up to 960 samples have left the front of each queue, and each output mixes the two of its place; the remote
      voice is ducked while the chime is on or still has samples. */
  ghost predicate IsFrameOf(remote: seq<Sample>, chime: seq<Sample>, chimeActive: bool, mixed: seq<Sample>,
                            remoteLeft: seq<Sample>, chimeLeft: seq<Sample>) {
    var n, m := if |remote| < 960 then |remote| else 960, if |chime| < 960 then |chime| else 960;
    && remoteLeft == remote[n..] && chimeLeft == chime[m..] && |mixed| == (if n > m then n else m)
    && forall i | 0 <= i < |mixed| ::
         mixed[i]
           == MixPcmSample(if i < n then remote[i] else 0, if i < m then chime[i] else 0, chimeActive || |chime| > 0)
  }

  /** The next n samples of the line have been played, in order, and nothing else has changed. */
  ghost predicate HasPlayed(before: Line, n: int, after: Line) {
    && n >= 0 && after.pushed == before.pushed && after.front == before.front + n
    && |after.played| == |before.played| + n && after.played[..|before.played|] == before.played
    && forall i | |before.played| <= i < |after.played| :: after.played[i] == before.front + i - |before.played|
  }

  lemma FrameIs(remote: seq<Sample>, chime: seq<Sample>, chimeActive: bool, mixed: seq<Sample>,
                remoteLeft: seq<Sample>, chimeLeft: seq<Sample>)
    requires |mixed| == MixedCount(remote, chime)
    requires remoteLeft == remote[FrameCount(remote)..] && chimeLeft == chime[FrameCount(chime)..]
    requires forall i | 0 <= i < |mixed| ::
      mixed[i] == MixPcmSample(SampleAt(remote, i), SampleAt(chime, i), chimeActive || chime != [])
    ensures IsFrameOf(remote, chime, chimeActive, mixed, remoteLeft, chimeLeft)
  {
    hide MixPcmSample;
  }

  lemma PlayIs(line: Line, n: nat)
    ensures HasPlayed(line, n, line.Play(n))
  {
  }

  function MixedCount(remote: seq<Sample>, chime: seq<Sample>): nat {
    if FrameCount(remote) > FrameCount(chime) then FrameCount(remote) else FrameCount(chime)
  }

  /** Sample i of the frame a queue gives. */
  function SampleAt(queue: seq<Sample>, i: nat): Sample { if i < FrameCount(queue) then queue[i] else 0 }

  /** The queue after i samples of the frame. */
  function Rest(queue: seq<Sample>, i: nat): seq<Sample> {
    if i < FrameCount(queue) then queue[i..] else queue[FrameCount(queue)..]
  }

  lemma RestEnds(queue: seq<Sample>, n: nat)
    ensures Rest(queue, 0) == queue
    ensures n >= FrameCount(queue) ==> Rest(queue, n) == queue[FrameCount(queue)..]
  {
  }

  lemma RestStep(queue: seq<Sample>, i: nat)
    ensures i < FrameCount(queue) ==>
      Rest(queue, i) != [] && Rest(queue, i)[0] == SampleAt(queue, i) && Rest(queue, i)[1..] == Rest(queue, i + 1)
    ensures i >= FrameCount(queue) ==> Rest(queue, i) == Rest(queue, i + 1) && SampleAt(queue, i) == 0
  {
  }

  function FrameCount(queue: seq<Sample>): nat { if |queue| < FRAME_SAMPLES then |queue| else FRAME_SAMPLES }

  lemma PlayKeepsOk(line: Line, n: nat)
    requires line.Ok() && n <= |line.Queue()|
    ensures line.Play(n).Ok() && line.Play(n).Queue() == line.Queue()[n..]
  {
  }
}
