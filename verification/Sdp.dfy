/** The two SDP scanners of src/device/webrtc_sdp_utils.cpp against a reading of the text by lines and media
    sections (section 5.14 of RFC 8866, section 4 of RFC 5888). */
module Sdp {
  import opened Options

  const COUNTER_SIZE: nat := 0x1_0000_0000

  // ------------------------------------------------------------------------------ the simple form

  /** The text between newlines. */
  function RawLines(s: string): (lines: seq<string>)
    ensures |lines| > 0
  {
    if s == [] then [[]]
    else
      var rest := RawLines(s[1..]);
      if s[0] == '\n' then [[]] + rest else [[s[0]] + rest[0]] + rest[1..]
  }

  /** A line without its trailing carriage return, if it has one. */
  function Strip(line: string): string {
    if line != [] && line[|line| - 1] == '\r' then line[..|line| - 1] else line
  }

  function Stripped(raw: seq<string>): (lines: seq<string>)
    ensures |lines| == |raw|
  {
    if raw == [] then [] else [Strip(raw[0])] + Stripped(raw[1..])
  }

  function Lines(s: string): seq<string> { Stripped(RawLines(s)) }

  predicate IsMedia(line: string) { "m=" <= line }

  predicate IsMid(line: string) { "a=mid:" <= line }

  /** The lines before the next media line. */
  function Body(lines: seq<string>): seq<string> {
    if lines == [] || IsMedia(lines[0]) then [] else [lines[0]] + Body(lines[1..])
  }

  /** The media sections: each a media line and the lines that follow it. */
  function Sections(lines: seq<string>): seq<seq<string>> {
    if lines == [] then []
    else if IsMedia(lines[0]) then [[lines[0]] + Body(lines[1..])] + Sections(lines[1..])
    else Sections(lines[1..])
  }

  /** The value of the first mid attribute; an empty value does not count, and nothing after it does. */
  function MidOf(section: seq<string>): Option<string> {
    if section == [] then None
    else if IsMid(section[0]) then if section[0][6..] != "" then Some(section[0][6..]) else None
    else MidOf(section[1..])
  }

  function MidOfSection(sections: seq<seq<string>>, k: nat): Option<string> {
    if k < |sections| then MidOf(sections[k]) else None
  }

  /** The words up to the first space after "m=". */
  function UpToSpace(s: string): (t: string)
    ensures |t| <= |s|
  {
    if s == [] || s[0] == ' ' then [] else [s[0]] + UpToSpace(s[1..])
  }

  function MediaType(line: string): string
    requires IsMedia(line)
  {
    UpToSpace(line[2..])
  }

  function MediaTypes(lines: seq<string>): seq<string> {
    if lines == [] then []
    else (if IsMedia(lines[0]) then [MediaType(lines[0])] else []) + MediaTypes(lines[1..])
  }

  // ------------------------------------------------------------------------- lines found by offset

  /** sdp.find('\n', offset) */
  method FindNewline(s: string, offset: nat) returns (end: Option<nat>)
    requires offset <= |s|
    ensures end.Some? ==> offset <= end.value < |s| && s[end.value] == '\n' && '\n' !in s[offset..end.value]
    ensures end.None? ==> '\n' !in s[offset..]
  {
    var i := offset;
    while i < |s|
      invariant offset <= i <= |s| && '\n' !in s[offset..i]
    {
      if s[i] == '\n' {
        return Some(i);
      }
      assert s[offset..i + 1] == s[offset..i] + [s[i]];
      i := i + 1;
    }
    assert s[offset..i] == s[offset..];
    return None;
  }

  lemma {:induction false} OneRawLine(s: string)
    requires '\n' !in s
    ensures RawLines(s) == [s]
  {
    if s != [] {
      OneRawLine(s[1..]);
      assert [s[0]] + s[1..] == s;
    }
  }

  lemma {:induction false} FirstRawLine(s: string, e: nat)
    requires e < |s| && s[e] == '\n' && '\n' !in s[..e]
    ensures RawLines(s) == [s[..e]] + RawLines(s[e + 1..])
  {
    if e > 0 {
      assert s[..e] == [s[0]] + s[1..][..e - 1];
      FirstRawLine(s[1..], e - 1);
      assert s[1..][e..] == s[e + 1..];
    }
  }

  lemma LinesAt(s: string, offset: nat, end: Option<nat>)
    requires offset <= |s|
    requires end.Some? ==> offset <= end.value < |s| && s[end.value] == '\n' && '\n' !in s[offset..end.value]
    requires end.None? ==> '\n' !in s[offset..]
    ensures Lines(s[offset..])
      == if end.Some? then [Strip(s[offset..end.value])] + Lines(s[end.value + 1..]) else [Strip(s[offset..])]
  {
    var t := s[offset..];
    if end.Some? {
      var e := end.value - offset;
      assert t[..e] == s[offset..end.value] && t[e + 1..] == s[end.value + 1..];
      FirstRawLine(t, e);
    } else {
      OneRawLine(t);
    }
  }

  /** The line that starts at offset, as both scanners cut it out. */
  method LineAt(s: string, offset: nat) returns (line: string, next: Option<nat>)
    requires offset <= |s|
    ensures next.Some? ==> offset < next.value <= |s|
    ensures Lines(s[offset..]) == [line] + if next.Some? then Lines(s[next.value..]) else []
  {
    hide Lines, Strip;
    var end := FindNewline(s, offset);
    LinesAt(s, offset, end);
    line := if end.Some? then s[offset..end.value] else s[offset..];
    line := RemoveReturn(line);
    next := if end.Some? then Some(end.value + 1) else None;
  }

  method RemoveReturn(raw: string) returns (line: string)
    ensures line == Strip(raw)
  {
    line := raw;
    if line != [] && line[|line| - 1] == '\r' {
      line := line[..|line| - 1];
    }
  }

  // -------------------------------------------------------------------------------- the scanners

  /** What the scan will return, from the lines that remain and its two variables. */
  function Remaining(lines: seq<string>, inSection: bool, current: nat, k: nat): Option<string> {
    if !inSection then MidOfSection(Sections(lines), k)
    else if current == k then MidOf(Body(lines))
    else if current < k then MidOfSection(Sections(lines), k - current - 1)
    else None
  }

  /** What one more media line makes of it. */
  lemma MediaStep(lines: seq<string>, inSection: bool, current: nat, k: nat)
    requires lines != [] && IsMedia(lines[0]) && current <= k && (!inSection ==> current == 0)
    ensures Remaining(lines, inSection, current, k)
      == if !inSection then Remaining(lines[1..], true, 0, k)
         else if current == k then None
         else Remaining(lines[1..], true, current + 1, k)
  {
    SectionsAtMedia(lines);
    MidOfMedia([lines[0]] + Body(lines[1..]));
    assert MidOf([]) == None;
    hide Sections, IsMedia, MidOf, Body;
  }

  lemma SectionsAtMedia(lines: seq<string>)
    requires lines != [] && IsMedia(lines[0])
    ensures Sections(lines) == [[lines[0]] + Body(lines[1..])] + Sections(lines[1..]) && Body(lines) == []
  {
  }

  lemma MidOfMedia(section: seq<string>)
    requires section != [] && IsMedia(section[0])
    ensures MidOf(section) == MidOf(section[1..])
  {
    assert section[0][0] == 'm';
  }

  /** What one more line makes of it that is no media line. */
  lemma OtherStep(lines: seq<string>, inSection: bool, current: nat, k: nat)
    requires lines != [] && !IsMedia(lines[0]) && current <= k
    ensures Remaining(lines, inSection, current, k)
      == if inSection && current == k && IsMid(lines[0]) then if lines[0][6..] != "" then Some(lines[0][6..]) else None
         else Remaining(lines[1..], inSection, current, k)
  {
    hide IsMedia, IsMid;
    assert Body(lines)[1..] == Body(lines[1..]);
  }

  /** webrtc_sdp_mid_for_mline: for every text and every 32-bit index the mid of that media section. The
      32-bit counter cannot wrap: it stops at the index. */
  method MidForMline(sdp: string, k: nat) returns (mid: Option<string>)
    requires k < COUNTER_SIZE
    ensures mid == MidOfSection(Sections(Lines(sdp)), k)
  {
    hide Lines, Sections, Body, MidOf, Remaining;
    var current: nat := 0;
    var inSection := false;
    var offset := 0;
    RemainingStart(sdp, k);
    while offset <= |sdp|
      invariant 0 <= offset <= |sdp| && current <= k && (!inSection ==> current == 0)
      invariant Remaining(Lines(sdp[offset..]), inSection, current, k) == MidOfSection(Sections(Lines(sdp)), k)
      decreases |sdp| + 1 - offset
    {
      ghost var lines := Lines(sdp[offset..]);
      var line, next := LineAt(sdp, offset);
      if IsMedia(line) {
        MediaStep(lines, inSection, current, k);
        if inSection && current == k {
          return None;
        }
        if inSection {
          current := (current + 1) % COUNTER_SIZE;
        } else {
          inSection := true;
        }
      } else {
        OtherStep(lines, inSection, current, k);
        if inSection && current == k && IsMid(line) {
          var value := line[6..];
          return if value != "" then Some(value) else None;
        }
      }
      if next.None? {
        assert lines[1..] == [];
        NothingRemains(inSection, current, k);
        return None;
      }
      assert lines[1..] == Lines(sdp[next.value..]);
      offset := next.value;
    }
  }

  lemma RemainingStart(sdp: string, k: nat)
    ensures Remaining(Lines(sdp[0..]), false, 0, k) == MidOfSection(Sections(Lines(sdp)), k)
  {
    assert sdp[0..] == sdp;
  }

  lemma NothingRemains(inSection: bool, current: nat, k: nat)
    ensures Remaining([], inSection, current, k) == None
  {
  }

  lemma UpToSpaceStep(s: string, i: nat)
    requires i < |s|
    ensures UpToSpace(s[i..]) == if s[i] == ' ' then [] else [s[i]] + UpToSpace(s[i + 1..])
  {
    assert s[i..][1..] == s[i + 1..];
  }

  /** line.find(' ', 2) and the substring up to it */
  method ReadMediaType(line: string) returns (t: string)
    requires IsMedia(line)
    ensures t == MediaType(line)
  {
    var i := 2;
    assert UpToSpace([]) == [];
    hide UpToSpace, IsMedia;
    while i < |line| && line[i] != ' '
      invariant 2 <= i <= |line|
      invariant UpToSpace(line[2..]) == line[2..i] + UpToSpace(line[i..])
    {
      UpToSpaceStep(line, i);
      Onward(line, i, UpToSpace(line[i + 1..]));
      i := i + 1;
    }
    if i < |line| {
      UpToSpaceStep(line, i);
    } else {
      assert line[i..] == [];
    }
    return line[2..i];
  }

  lemma Onward(line: string, i: nat, after: string)
    requires 2 <= i < |line|
    ensures line[2..i] + ([line[i]] + after) == line[2..i + 1] + after
  {
  }

  function Count(types: seq<string>, t: string): nat {
    if types == [] then 0 else (if types[0] == t then 1 else 0) + Count(types[1..], t)
  }

  predicate OnlyAudioVideo(types: seq<string>) { forall i | 0 <= i < |types| :: types[i] == "audio" || types[i] == "video" }

  /** The test the scan makes, with its counters as they are: unsigned 32-bit. */
  predicate CountsPass(types: seq<string>) {
    && OnlyAudioVideo(types) && |types| % COUNTER_SIZE == 2
    && Count(types, "video") % COUNTER_SIZE == 1 && Count(types, "audio") % COUNTER_SIZE == 1
  }

  lemma {:induction false} CountAppend(types: seq<string>, x: string, t: string)
    ensures Count(types + [x], t) == Count(types, t) + if x == t then 1 else 0
  {
    if types == [] {
      assert [x][1..] == [];
    } else {
      CountAppend(types[1..], x, t);
      assert (types + [x])[1..] == types[1..] + [x];
    }
  }

  datatype Counters = Counters(media: nat, video: nat, audio: nat)

  /** The counters after the media types seen so far. */
  predicate Agrees(seen: seq<string>, c: Counters) {
    && OnlyAudioVideo(seen) && c.media == |seen| % COUNTER_SIZE
    && c.video == Count(seen, "video") % COUNTER_SIZE && c.audio == Count(seen, "audio") % COUNTER_SIZE
  }

  lemma OneMore(n: nat)
    ensures (n % COUNTER_SIZE + 1) % COUNTER_SIZE == (n + 1) % COUNTER_SIZE
  {
  }

  method CountType(t: string, before: Counters, ghost seen: seq<string>) returns (known: bool, after: Counters)
    requires Agrees(seen, before)
    ensures known ==> Agrees(seen + [t], after)
    ensures !known ==> !OnlyAudioVideo(seen + [t])
  {
    SeenOne(seen, t);
    CountAppend(seen, t, "video");
    CountAppend(seen, t, "audio");
    hide OnlyAudioVideo, Count;
    OneMore(|seen|);
    OneMore(Count(seen, "video"));
    OneMore(Count(seen, "audio"));
    after := before.(media := (before.media + 1) % COUNTER_SIZE);
    if t == "video" {
      after := after.(video := (before.video + 1) % COUNTER_SIZE);
    } else if t == "audio" {
      after := after.(audio := (before.audio + 1) % COUNTER_SIZE);
    } else {
      return false, after;
    }
    return true, after;
  }

  /** webrtc_sdp_has_single_audio_video_pair */
  method HasSingleAudioVideoPair(sdp: string) returns (ok: bool)
    ensures ok == CountsPass(MediaTypes(Lines(sdp)))
    ensures |sdp| < 34359738383 ==>
      (ok <==> MediaTypes(Lines(sdp)) == ["audio", "video"] || MediaTypes(Lines(sdp)) == ["video", "audio"])
  {
    hide Lines, MediaTypes, Agrees, CountsPass;
    if |sdp| + 1 < 8 * (COUNTER_SIZE + 2) {
      PairOfText(sdp);
    }
    var c := Counters(0, 0, 0);
    var offset := 0;
    ghost var seen: seq<string> := [];
    SeenNone(sdp);
    while offset <= |sdp|
      invariant 0 <= offset <= |sdp| && Agrees(seen, c)
      invariant seen + MediaTypes(Lines(sdp[offset..])) == MediaTypes(Lines(sdp))
      decreases |sdp| + 1 - offset
    {
      ghost var lines := Lines(sdp[offset..]);
      var line, next := LineAt(sdp, offset);
      TypesStep(lines);
      if IsMedia(line) {
        var t := ReadMediaType(line);
        var known;
        known, c := CountType(t, c, seen);
        assert seen + ([t] + MediaTypes(lines[1..])) == seen + [t] + MediaTypes(lines[1..]);
        seen := seen + [t];
        if !known {
          OtherTypeFails(seen, MediaTypes(lines[1..]));
          KnownTypesOnly(MediaTypes(Lines(sdp)));
          return false;
        }
      }
      if next.None? {
        assert lines[1..] == [];
        assert seen == MediaTypes(Lines(sdp));
        Verdict(seen, c);
        return c.media == 2 && c.video == 1 && c.audio == 1;
      }
      assert lines[1..] == Lines(sdp[next.value..]);
      offset := next.value;
    }
  }

  lemma KnownTypesOnly(types: seq<string>)
    requires !OnlyAudioVideo(types)
    ensures !CountsPass(types)
  {
  }

  lemma Verdict(seen: seq<string>, c: Counters)
    requires Agrees(seen, c)
    ensures CountsPass(seen) <==> c.media == 2 && c.video == 1 && c.audio == 1
  {
  }

  lemma SeenNone(sdp: string)
    ensures [] + MediaTypes(Lines(sdp[0..])) == MediaTypes(Lines(sdp)) && Agrees([], Counters(0, 0, 0))
  {
    assert sdp[0..] == sdp;
  }

  lemma TypesStep(lines: seq<string>)
    requires lines != []
    ensures MediaTypes(lines) == (if IsMedia(lines[0]) then [MediaType(lines[0])] else []) + MediaTypes(lines[1..])
    ensures MediaTypes([]) == []
  {
  }

  lemma SeenOne(seen: seq<string>, t: string)
    ensures OnlyAudioVideo(seen + [t]) <==> OnlyAudioVideo(seen) && (t == "audio" || t == "video")
  {
    assert forall i | 0 <= i < |seen| :: (seen + [t])[i] == seen[i];
    assert (seen + [t])[|seen|] == t;
  }

  lemma OtherTypeFails(seen: seq<string>, more: seq<string>)
    requires !OnlyAudioVideo(seen)
    ensures !OnlyAudioVideo(seen + more)
  {
    var i :| 0 <= i < |seen| && !(seen[i] == "audio" || seen[i] == "video");
    assert (seen + more)[i] == seen[i];
  }

  // ---------------------------------------------------------------------------------- what they mean

  lemma {:induction false} CountsAddUp(types: seq<string>)
    requires OnlyAudioVideo(types)
    ensures Count(types, "audio") + Count(types, "video") == |types|
  {
    if types != [] {
      CountsAddUp(types[1..]);
    }
  }

  /** The media types are those of the sections' first lines. */
  lemma {:induction false} TypesOfSections(lines: seq<string>)
    ensures |MediaTypes(lines)| == |Sections(lines)|
    ensures forall i | 0 <= i < |Sections(lines)| ::
      Sections(lines)[i] != [] && IsMedia(Sections(lines)[i][0]) && MediaTypes(lines)[i] == MediaType(Sections(lines)[i][0])
  {
    if lines != [] {
      TypesOfSections(lines[1..]);
    }
  }

  function Join(lines: seq<string>): string
    requires lines != []
  {
    if |lines| == 1 then lines[0] else lines[0] + "\n" + Join(lines[1..])
  }

  /** The lines are what the text is made of: joined by newlines they give it back, and none has a newline. */
  lemma {:induction false} LinesMakeText(s: string)
    ensures Join(RawLines(s)) == s && forall i | 0 <= i < |RawLines(s)| :: '\n' !in RawLines(s)[i]
  {
    if s != [] {
      LinesMakeText(s[1..]);
      var rest, lines := RawLines(s[1..]), RawLines(s);
      if s[0] == '\n' {
        assert lines[1..] == rest;
        assert Join(lines) == "\n" + Join(rest);
      } else {
        assert lines[1..] == rest[1..];
        if |rest| > 1 {
          assert Join(lines) == [s[0]] + rest[0] + "\n" + Join(rest[1..]);
        }
        assert Join(lines) == [s[0]] + Join(rest);
      }
    }
  }

  predicate IsPair(types: seq<string>) { types == ["audio", "video"] || types == ["video", "audio"] }

  /** Over all lists of media types: there is exactly one audio and one video section, in either order, iff
      the test says so and the counter has not wrapped. */
  lemma PairIff(types: seq<string>)
    ensures IsPair(types) <==> CountsPass(types) && |types| < COUNTER_SIZE + 2
  {
    if OnlyAudioVideo(types) {
      CountsAddUp(types);
      if |types| == 2 {
        assert types == [types[0], types[1]];
        assert types[1..][1..] == [];
        assert types[1..] == [types[1]];
      }
    }
    if IsPair(types) {
      assert types[1..][1..] == [];
    }
  }

  /** A text with n sections of the two types has 8 n - 1 characters at least. */
  lemma {:induction false} MediaLinesAreLong(raw: seq<string>)
    requires raw != [] && OnlyAudioVideo(MediaTypes(Stripped(raw)))
    ensures 8 * |MediaTypes(Stripped(raw))| <= |Join(raw)| + 1
  {
    hide OnlyAudioVideo;
    var lines := Stripped(raw);
    assert lines[0] == Strip(raw[0]) && lines[1..] == Stripped(raw[1..]);
    if IsMedia(lines[0]) {
      FirstIsKnown([MediaType(lines[0])], MediaTypes(lines[1..]));
    } else {
      assert MediaTypes(lines) == MediaTypes(lines[1..]);
    }
    if |raw| > 1 {
      MediaLinesAreLong(raw[1..]);
    } else {
      assert lines[1..] == [];
    }
  }

  lemma FirstIsKnown(first: seq<string>, more: seq<string>)
    requires |first| == 1 && OnlyAudioVideo(first + more)
    ensures |first[0]| == 5 && OnlyAudioVideo(more)
  {
    assert (first + more)[0] == first[0];
    assert forall i | 0 <= i < |more| :: (first + more)[i + 1] == more[i];
  }

  /** What the scanner answers is right for every text that is shorter than the shortest one whose counter
      wraps. */
  lemma PairOfText(sdp: string)
    requires |sdp| + 1 < 8 * (COUNTER_SIZE + 2)
    ensures CountsPass(MediaTypes(Lines(sdp))) <==> IsPair(MediaTypes(Lines(sdp)))
  {
    hide RawLines, Stripped, MediaTypes, Count;
    var types := MediaTypes(Lines(sdp));
    PairIff(types);
    if OnlyAudioVideo(types) {
      LinesMakeText(sdp);
      MediaLinesAreLong(RawLines(sdp));
    }
  }

  // ----------------------------------------------------------------------- a text that is misjudged

  /** The lines a text was joined from are read from it again. */
  lemma {:induction false} TextMakesLines(lines: seq<string>)
    requires lines != [] && forall i | 0 <= i < |lines| :: '\n' !in lines[i]
    ensures RawLines(Join(lines)) == lines
  {
    if |lines| == 1 {
      OneRawLine(lines[0]);
    } else {
      TextMakesLines(lines[1..]);
      var s, e := Join(lines), |lines[0]|;
      assert s[..e] == lines[0] && s[e] == '\n' && s[e + 1..] == Join(lines[1..]);
      FirstRawLine(s, e);
    }
  }

  /** n lines, then one more. */
  function Repeated(line: string, n: nat, last: string): (lines: seq<string>)
    ensures |lines| == n + 1
    ensures forall i | 0 <= i < |lines| :: lines[i] == if i < n then line else last
  {
    if n == 0 then [last] else [line] + Repeated(line, n - 1, last)
  }

  lemma Prepended(line: string, lines: seq<string>)
    requires lines != []
    ensures Stripped([line] + lines) == [Strip(line)] + Stripped(lines)
    ensures Join([line] + lines) == line + "\n" + Join(lines)
    ensures MediaTypes([line] + lines) == (if IsMedia(line) then [MediaType(line)] else []) + MediaTypes(lines)
  {
    assert ([line] + lines)[1..] == lines;
  }

  lemma Single(line: string)
    ensures Stripped([line]) == [Strip(line)] && Join([line]) == line
    ensures MediaTypes([line]) == if IsMedia(line) then [MediaType(line)] else []
  {
    assert [line][1..] == [];
  }

  lemma {:induction false} RepeatedText(n: nat)
    ensures var lines := Repeated("m=video", n, "m=audio");
      && Stripped(lines) == lines && |Join(lines)| + 1 == 8 * (n + 1)
      && MediaTypes(lines) == Repeated("video", n, "audio")
  {
    hide Stripped, Join, MediaTypes, Strip, IsMedia, MediaType;
    VideoLine();
    AudioLine();
    Single("m=audio");
    if n > 0 {
      RepeatedText(n - 1);
      Prepended("m=video", Repeated("m=video", n - 1, "m=audio"));
    }
  }

  lemma VideoLine()
    ensures Strip("m=video") == "m=video" && IsMedia("m=video") && MediaType("m=video") == "video"
  {
    NoSpace("video");
    assert "m=video"[2..] == "video";
  }

  lemma AudioLine()
    ensures Strip("m=audio") == "m=audio" && IsMedia("m=audio") && MediaType("m=audio") == "audio"
  {
    NoSpace("audio");
    assert "m=audio"[2..] == "audio";
  }

  lemma {:induction false} NoSpace(s: string)
    requires ' ' !in s
    ensures UpToSpace(s) == s
  {
    if s != [] {
      NoSpace(s[1..]);
    }
  }

  lemma {:induction false} CountRepeated(n: nat)
    ensures var types := Repeated("video", n, "audio");
      Count(types, "video") == n && Count(types, "audio") == 1 && OnlyAudioVideo(types)
  {
    var types := Repeated("video", n, "audio");
    if n > 0 {
      CountRepeated(n - 1);
      assert types[1..] == Repeated("video", n - 1, "audio");
    } else {
      assert types[1..] == [];
    }
  }

  /** The shortest text whose counter wraps, 34,359,738,383 characters long: 2^32 + 1 video sections and an
      audio section. The scanner takes it for one of each. */
  lemma WrappedCounterPasses() returns (sdp: string)
    ensures |sdp| == 34359738383 && |Sections(Lines(sdp))| == 4294967298
    ensures CountsPass(MediaTypes(Lines(sdp))) && !IsPair(MediaTypes(Lines(sdp)))
  {
    hide RawLines, Stripped, Repeated, Join, Sections, MediaTypes;
    var n := COUNTER_SIZE + 1;
    var lines := Repeated("m=video", n, "m=audio");
    sdp := Join(lines);
    forall i | 0 <= i < |lines| ensures '\n' !in lines[i] {
    }
    TextMakesLines(lines);
    RepeatedText(n);
    CountRepeated(n);
    PairIff(Repeated("video", n, "audio"));
    TypesOfSections(lines);
  }

  // ------------------------------------------------------------------- texts with known sections

  /** A text of one media line and one mid line for each section. */
  ghost function WithMids(media: seq<string>, mids: seq<string>): (lines: seq<string>)
    requires |media| == |mids|
    ensures |lines| == 2 * |media|
    ensures forall i | 0 <= i < |media| :: lines[2 * i] == "m=" + media[i] && lines[2 * i + 1] == "a=mid:" + mids[i]
  {
    if media == [] then [] else ["m=" + media[0], "a=mid:" + mids[0]] + WithMids(media[1..], mids[1..])
  }

  /** A word that may end a line. */
  ghost predicate EndsPlainly(s: string) { '\n' !in s && (s != [] ==> s[|s| - 1] != '\r') }

  lemma {:induction false} SectionsWithMids(media: seq<string>, mids: seq<string>)
    requires |media| == |mids|
    ensures var sections := Sections(WithMids(media, mids));
      |sections| == |media| && forall i | 0 <= i < |media| :: sections[i] == ["m=" + media[i], "a=mid:" + mids[i]]
  {
    if media != [] {
      SectionsWithMids(media[1..], mids[1..]);
      var rest := WithMids(media[1..], mids[1..]);
      if rest != [] {
        assert rest[0] == "m=" + media[1..][0];
      }
      assert ("a=mid:" + mids[0])[0] == 'a';
      FirstSection("m=" + media[0], "a=mid:" + mids[0], rest);
      assert WithMids(media, mids) == ["m=" + media[0], "a=mid:" + mids[0]] + rest;
    }
  }

  lemma FirstSection(first: string, second: string, rest: seq<string>)
    requires IsMedia(first) && !IsMedia(second) && (rest != [] ==> IsMedia(rest[0]))
    ensures Sections([first, second] + rest) == [[first, second]] + Sections(rest)
  {
    hide IsMedia;
    var lines, tail := [first, second] + rest, [second] + rest;
    assert lines[1..] == tail && tail[1..] == rest && Body(rest) == [];
    assert Body(tail) == [second] + Body(rest) && Sections(tail) == Sections(rest);
    assert [first] + Body(tail) == [first, second];
  }

  lemma {:induction false} StrippedPlainly(lines: seq<string>)
    requires forall i | 0 <= i < |lines| :: EndsPlainly(lines[i])
    ensures Stripped(lines) == lines
  {
    if lines != [] {
      StrippedPlainly(lines[1..]);
    }
  }

  /** The mids a text was written with are those that are read, for any number of sections. */
  lemma MidsAreReadBack(media: seq<string>, mids: seq<string>, k: nat)
    requires |media| == |mids| > k
    requires forall i | 0 <= i < |media| :: EndsPlainly(media[i]) && EndsPlainly(mids[i]) && mids[i] != ""
    ensures MidOfSection(Sections(Lines(Join(WithMids(media, mids)))), k) == Some(mids[k])
    ensures MidOfSection(Sections(Lines(Join(WithMids(media, mids)))), |media|) == None
  {
    hide Sections, Join, RawLines, Stripped, WithMids, MidOf, EndsPlainly;
    var lines := WithMids(media, mids);
    PlainLines(media, mids);
    NoNewlines(lines);
    TextMakesLines(lines);
    StrippedPlainly(lines);
    SectionsWithMids(media, mids);
    MidOfTwo("m=" + media[k], mids[k]);
  }

  lemma NoNewlines(lines: seq<string>)
    requires forall i | 0 <= i < |lines| :: EndsPlainly(lines[i])
    ensures forall i | 0 <= i < |lines| :: '\n' !in lines[i]
  {
  }

  lemma {:induction false} PlainLines(media: seq<string>, mids: seq<string>)
    requires |media| == |mids| && forall i | 0 <= i < |media| :: EndsPlainly(media[i]) && EndsPlainly(mids[i])
    ensures forall i | 0 <= i < |WithMids(media, mids)| :: EndsPlainly(WithMids(media, mids)[i])
  {
    if media != [] {
      PlainLines(media[1..], mids[1..]);
      PlainLine("m=", media[0]);
      PlainLine("a=mid:", mids[0]);
      hide EndsPlainly;
      assert WithMids(media, mids) == ["m=" + media[0], "a=mid:" + mids[0]] + WithMids(media[1..], mids[1..]);
    }
  }

  lemma PlainLine(prefix: string, word: string)
    requires EndsPlainly(prefix) && EndsPlainly(word) && prefix != []
    ensures EndsPlainly(prefix + word)
  {
  }

  lemma MidOfTwo(first: string, mid: string)
    requires IsMedia(first) && mid != ""
    ensures MidOf([first, "a=mid:" + mid]) == Some(mid)
  {
    assert first[0] == 'm' && ("a=mid:" + mid)[6..] == mid;
    assert [first, "a=mid:" + mid][1..] == ["a=mid:" + mid];
  }

  /** A media type is the first word after "m=". */
  lemma TypeIsRead(t: string, rest: string)
    requires ' ' !in t
    ensures IsMedia("m=" + t) && MediaType("m=" + t) == t
    ensures IsMedia("m=" + t + " " + rest) && MediaType("m=" + t + " " + rest) == t
  {
    assert ("m=" + t)[2..] == t && ("m=" + t + " " + rest)[2..] == t + (" " + rest);
    NoSpace(t);
    SpaceAfter(t, " " + rest);
  }

  lemma {:induction false} SpaceAfter(t: string, rest: string)
    requires ' ' !in t && rest != "" && rest[0] == ' '
    ensures UpToSpace(t + rest) == t
  {
    if t != [] {
      SpaceAfter(t[1..], rest);
      assert (t + rest)[1..] == t[1..] + rest;
    } else {
      assert t + rest == rest;
    }
  }
}
