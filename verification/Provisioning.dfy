/** The settings command of handle_mqtt_command in src/device/provisioning.cpp: field by field a setting is
    applied to the running system, stored, and taken back when it cannot be stored. */
module Provisioning {
  import opened Options
  import opened Store = DeviceSettingsStore

  datatype Field = PersonDetection | PersonSensitivity | StatusLed | ImageRotate180 | RecordingQuality | Timezone

  datatype FieldValue = Flag(on: bool) | Text(text: string)

  predicate HasType(f: Field, v: FieldValue) {
    match f
    case PersonDetection => v.Flag?
    case StatusLed => v.Flag?
    case ImageRotate180 => v.Flag?
    case _ => v.Text?
  }

  function Get(v: Values, f: Field): FieldValue {
    match f
    case PersonDetection => Flag(v.personDetection)
    case PersonSensitivity => Text(v.personSensitivity)
    case StatusLed => Flag(v.statusLed)
    case ImageRotate180 => Flag(v.imageRotate180)
    case RecordingQuality => Text(v.recordingQuality)
    case Timezone => Text(v.timezone)
  }

  function Set(v: Values, f: Field, x: FieldValue): Values
    requires HasType(f, x)
  {
    match f
    case PersonDetection => v.(personDetection := x.on)
    case PersonSensitivity => v.(personSensitivity := x.text)
    case StatusLed => v.(statusLed := x.on)
    case ImageRotate180 => v.(imageRotate180 := x.on)
    case RecordingQuality => v.(recordingQuality := x.text)
    case Timezone => v.(timezone := x.text)
  }

  /** The values that are checked before anything is done with them. */
  predicate IsAccepted(f: Field, x: FieldValue) {
    match f
    case PersonSensitivity => x.Text? && IsSensitivity(x.text)
    case RecordingQuality => x.Text? && IsQuality(x.text)
    case _ => true
  }

  /** Fields whose handler can fail; the LED is a flag, and the recording quality is read from the store. */
  predicate HasHandler(f: Field) { f != StatusLed && f != RecordingQuality }

  /** The running system after the handler of f was called with these settings. The person handler takes
      both of its settings at once. */
  function Handled(runtime: Values, f: Field, target: Values): Values {
    match f
    case PersonDetection =>
      runtime.(personDetection := target.personDetection, personSensitivity := target.personSensitivity)
    case PersonSensitivity =>
      runtime.(personDetection := target.personDetection, personSensitivity := target.personSensitivity)
    case StatusLed => runtime.(statusLed := target.statusLed)
    case ImageRotate180 => runtime.(imageRotate180 := target.imageRotate180)
    case RecordingQuality => runtime
    case Timezone => runtime.(timezone := target.timezone)
  }

  /** The running system does what the settings say. */
  predicate Agree(runtime: Values, v: Values) { runtime == v.(recordingQuality := runtime.recordingQuality) }

  datatype Outcome = Unchanged | Applied | Failed(errorCode: string)

  function ErrorCode(f: Field, timezoneError: string): string {
    match f
    case PersonDetection => "PERSON_DETECTION_APPLY_FAILED"
    case PersonSensitivity => "PERSON_SENSITIVITY_APPLY_FAILED"
    case ImageRotate180 => "ROTATE_APPLY_FAILED"
    case Timezone => timezoneError
    case _ => ""
  }

  /** What handlers and disk answer while one field is being worked on. */
  datatype Answers = Answers(applies: bool, rollsBack: bool, disk: Disk, diskAfter: Disk, timezoneError: string,
                             now: string)

  /** How far the command has come. */
  datatype Progress = Progress(values: Values, runtime: Values, fields: map<Field, Outcome>, succeeded: nat, failed: nat,
                               stopped: bool)

  type Patch = p: map<Field, FieldValue> | forall f | f in p :: HasType(f, p[f])

  /** One field of the command. */
  function Step(p: Progress, f: Field, x: FieldValue, a: Answers): Progress
    requires HasType(f, x)
  {
    if !IsAccepted(f, x) then
      p.(fields := p.fields[f := Failed("INVALID_DEVICE_SETTINGS")], failed := p.failed + 1)
    else if Get(p.values, f) == x then
      p.(fields := p.fields[f := Unchanged], succeeded := p.succeeded + 1)
    else if HasHandler(f) && !a.applies then
      p.(fields := p.fields[f := Failed(ErrorCode(f, a.timezoneError))], failed := p.failed + 1)
    else
      var next := Set(p.values, f, x);
      var running := Handled(p.runtime, f, next);
      if AreValid(next) && a.disk.Works() then
        p.(values := next, runtime := running, fields := p.fields[f := Applied], succeeded := p.succeeded + 1)
      else
        p.(runtime := if HasHandler(f) && !a.rollsBack then running else Handled(running, f, p.values), stopped := true)
  }

  const ORDER: seq<Field> := [PersonDetection, PersonSensitivity, StatusLed, ImageRotate180, RecordingQuality, Timezone]

  /** The command up to the n-th field. */
  function After(start: Values, runtime: Values, patch: Patch, answers: map<Field, Answers>, n: nat): Progress
    requires n <= |ORDER| && forall f | f in patch :: f in answers
  {
    if n == 0 then Progress(start, runtime, map[], 0, 0, false)
    else
      var p := After(start, runtime, patch, answers, n - 1);
      var f := ORDER[n - 1];
      if p.stopped || f !in patch then p else Step(p, f, patch[f], answers[f])
  }

  function OverallState(p: Progress): string {
    if p.failed == 0 then "applied" else if p.succeeded == 0 then "failed" else "partial_success"
  }

  class Provisioning {
    const store: DeviceSettingsStore
    var runtime: Values

    ghost predicate Valid()
      reads this, store
    {
      store.Valid()
    }

    constructor (store: DeviceSettingsStore, runtime: Values)
      requires store.Valid()
      ensures Valid() && this.store == store && this.runtime == runtime
    {
      this.store, this.runtime := store, runtime;
    }

    /** One field: the handler, the store, and fail_store. */
    method PatchField(f: Field, x: FieldValue, a: Answers, before: Progress) returns (after: Progress)
      requires Valid() && HasType(f, x) && !before.stopped
      requires before.values == store.snapshot.settings && before.runtime == runtime
      modifies this, store
      ensures Valid() && after == Step(before, f, x, a)
      ensures after.values == store.snapshot.settings && after.runtime == runtime
    {
      after := before;
      if !IsAccepted(f, x) {
        return before.(fields := before.fields[f := Failed("INVALID_DEVICE_SETTINGS")], failed := before.failed + 1);
      }
      var current := store.snapshot.settings;
      if Get(current, f) == x {
        return before.(fields := before.fields[f := Unchanged], succeeded := before.succeeded + 1);
      }
      var next := Set(current, f, x);
      if HasHandler(f) && !a.applies {
        return before.(fields := before.fields[f := Failed(ErrorCode(f, a.timezoneError))], failed := before.failed + 1);
      }
      runtime := Handled(runtime, f, next);
      var stored := store.ReplaceSettings(next, a.now, a.disk);
      if !stored {
        if !HasHandler(f) || a.rollsBack {
          runtime := Handled(runtime, f, current);
        }
        var _ := store.ReplaceSettings(current, a.now, a.diskAfter);
        return before.(runtime := runtime, stopped := true);
      }
      return before.(values := next, runtime := runtime, fields := before.fields[f := Applied],
                     succeeded := before.succeeded + 1);
    }

    method PatchIfRequested(n: nat, patch: Patch, answers: map<Field, Answers>, before: Progress, ghost start: Values,
                            ghost running: Values)
        returns (after: Progress)
      requires Valid() && n < |ORDER| && forall f | f in patch :: f in answers
      requires before == After(start, running, patch, answers, n)
      requires before.values == store.snapshot.settings && before.runtime == runtime
      modifies this, store
      ensures Valid() && after == After(start, running, patch, answers, n + 1)
      ensures after.values == store.snapshot.settings && after.runtime == runtime
    {
      hide Step, AreValid;
      after := before;
      var f := ORDER[n];
      if !before.stopped && f in patch {
        after := PatchField(f, patch[f], answers[f], before);
      }
    }

    /** The apply section: the six fields in turn, until one cannot be stored. */
    method HandleApply(patch: Patch, answers: map<Field, Answers>) returns (p: Progress)
      requires Valid() && forall f | f in patch :: f in answers
      modifies this, store
      ensures Valid() && p == After(old(store.snapshot.settings), old(runtime), patch, answers, |ORDER|)
      ensures store.snapshot.settings == p.values && store.file == Whole(store.snapshot) && runtime == p.runtime
    {
      hide Step, AreValid;
      ghost var start, running := store.snapshot.settings, runtime;
      p := Progress(store.snapshot.settings, runtime, map[], 0, 0, false);
      p := PatchIfRequested(0, patch, answers, p, start, running);
      p := PatchIfRequested(1, patch, answers, p, start, running);
      p := PatchIfRequested(2, patch, answers, p, start, running);
      p := PatchIfRequested(3, patch, answers, p, start, running);
      p := PatchIfRequested(4, patch, answers, p, start, running);
      p := PatchIfRequested(5, patch, answers, p, start, running);
    }
  }

  // ------------------------------------------------------------------------------ what it comes to

  /** What a field's outcome says about its value before and after. */
  predicate Truthful(before: Values, after: Values, f: Field, x: FieldValue, outcome: Outcome) {
    match outcome
    case Unchanged => Get(before, f) == x && Get(after, f) == x
    case Applied => Get(before, f) != x && Get(after, f) == x
    case Failed(_) => Get(before, f) != x && Get(after, f) == Get(before, f)
  }

  lemma SetChangesOne(v: Values, f: Field, x: FieldValue, g: Field)
    requires HasType(f, x)
    ensures Get(Set(v, f, x), g) == if g == f then x else Get(v, g)
  {
  }

  /** Field g before the command comes to it, or when it is not asked for; and after that. */
  ghost predicate FieldOk(start: Values, patch: Patch, p: Progress, g: Field, reached: bool) {
    if reached && g in patch then
      if g in p.fields then Truthful(start, p.values, g, patch[g], p.fields[g])
      else p.stopped && Get(p.values, g) == Get(start, g)
    else g !in p.fields && Get(p.values, g) == Get(start, g)
  }

  lemma StepKeepsFields(start: Values, patch: Patch, p: Progress, f: Field, a: Answers, g: Field, reached: bool)
    requires f in patch && !p.stopped && AreValid(start)
    requires FieldOk(start, patch, p, f, false) && (g == f ==> !reached) && FieldOk(start, patch, p, g, reached)
    ensures FieldOk(start, patch, Step(p, f, patch[f], a), g, reached || g == f)
  {
    hide Get, Set, Handled;
    if HasType(f, patch[f]) {
      SetChangesOne(p.values, f, patch[f], g);
      SetChangesOne(p.values, f, patch[f], f);
    }
    ValidIsAccepted(start, f);
  }

  lemma ValidIsAccepted(v: Values, f: Field)
    requires AreValid(v)
    ensures IsAccepted(f, Get(v, f))
  {
  }

  lemma {:induction false} FieldsFollow(start: Values, runtime: Values, patch: Patch, answers: map<Field, Answers>,
                                        n: nat, g: nat)
    requires n <= |ORDER| && g < |ORDER| && (forall f | f in patch :: f in answers) && AreValid(start)
    ensures FieldOk(start, patch, After(start, runtime, patch, answers, n), ORDER[g], g < n)
  {
    hide Step, Truthful, Get, AreValid;
    if n > 0 {
      FieldsFollow(start, runtime, patch, answers, n - 1, g);
      FieldsFollow(start, runtime, patch, answers, n - 1, n - 1);
      var p, f := After(start, runtime, patch, answers, n - 1), ORDER[n - 1];
      if !p.stopped && f in patch {
        OrderDistinct(g, n - 1);
        StepKeepsFields(start, patch, p, f, answers[f], ORDER[g], g < n - 1);
      }
    }
  }

  lemma OrderDistinct(i: nat, j: nat)
    requires i < |ORDER| && j < |ORDER|
    ensures ORDER[i] == ORDER[j] <==> i == j
  {
  }

  lemma PlaceOf(f: Field) returns (i: nat)
    ensures i < |ORDER| && ORDER[i] == f
  {
    match f
    case PersonDetection => i := 0;
    case PersonSensitivity => i := 1;
    case StatusLed => i := 2;
    case ImageRotate180 => i := 3;
    case RecordingQuality => i := 4;
    case Timezone => i := 5;
  }

  /** Unless storing fails, every requested field gets one outcome, which is true, and no other field
      changes. When it does fail, the field it fails at keeps its stored value, and so do those after it. */
  lemma EveryFieldAnswered(start: Values, runtime: Values, patch: Patch, answers: map<Field, Answers>, f: Field)
    requires (forall g | g in patch :: g in answers) && AreValid(start)
    ensures var p := After(start, runtime, patch, answers, |ORDER|);
      && (f in p.fields ==> f in patch && Truthful(start, p.values, f, patch[f], p.fields[f]))
      && (f in patch && f !in p.fields ==> p.stopped)
      && (f !in p.fields ==> Get(p.values, f) == Get(start, f))
  {
    hide After, Truthful, Get, AreValid;
    var i := PlaceOf(f);
    FieldsFollow(start, runtime, patch, answers, |ORDER|, i);
  }

  function Succeeded(fields: map<Field, Outcome>): set<Field> { set f | f in fields && !fields[f].Failed? }

  function FailedOnes(fields: map<Field, Outcome>): set<Field> { set f | f in fields && fields[f].Failed? }

  ghost predicate CountsOk(p: Progress) { p.succeeded == |Succeeded(p.fields)| && p.failed == |FailedOnes(p.fields)| }

  lemma OneMoreOutcome(fields: map<Field, Outcome>, f: Field, o: Outcome)
    requires f !in fields
    ensures Succeeded(fields[f := o]) == Succeeded(fields) + if o.Failed? then {} else {f}
    ensures FailedOnes(fields[f := o]) == FailedOnes(fields) + if o.Failed? then {f} else {}
  {
  }

  /** A step adds at most the outcome of its own field, and counts it. */
  lemma StepAddsOutcome(p: Progress, f: Field, x: FieldValue, a: Answers)
    requires HasType(f, x) && f !in p.fields
    ensures var q := Step(p, f, x, a);
      if f !in q.fields then q.fields == p.fields && q.succeeded == p.succeeded && q.failed == p.failed
      else
        && q.fields == p.fields[f := q.fields[f]]
        && q.succeeded == p.succeeded + (if q.fields[f].Failed? then 0 else 1)
        && q.failed == p.failed + (if q.fields[f].Failed? then 1 else 0)
  {
    hide Get, Set, Handled, IsAccepted, AreValid, HasHandler, ErrorCode;
  }

  lemma StepCounts(p: Progress, f: Field, x: FieldValue, a: Answers)
    requires HasType(f, x) && f !in p.fields && CountsOk(p)
    ensures CountsOk(Step(p, f, x, a))
  {
    hide Step;
    var q := Step(p, f, x, a);
    StepAddsOutcome(p, f, x, a);
    if f in q.fields {
      OneMoreOutcome(p.fields, f, q.fields[f]);
    }
  }

  lemma {:induction false} CountsFollow(start: Values, runtime: Values, patch: Patch, answers: map<Field, Answers>, n: nat)
    requires n <= |ORDER| && (forall f | f in patch :: f in answers) && AreValid(start)
    ensures CountsOk(After(start, runtime, patch, answers, n))
  {
    hide Step, Truthful, Get, AreValid;
    if n > 0 {
      CountsFollow(start, runtime, patch, answers, n - 1);
      FieldsFollow(start, runtime, patch, answers, n - 1, n - 1);
      var p, f := After(start, runtime, patch, answers, n - 1), ORDER[n - 1];
      if !p.stopped && f in patch {
        StepCounts(p, f, patch[f], answers[f]);
      }
    } else {
      assert Succeeded(map[]) == {} && FailedOnes(map[]) == {};
    }
  }

  /** The overall state says whether some, all or none of the fields failed. */
  lemma StateMatchesFields(start: Values, runtime: Values, patch: Patch, answers: map<Field, Answers>)
    requires (forall f | f in patch :: f in answers) && AreValid(start)
    ensures var p := After(start, runtime, patch, answers, |ORDER|);
      && (OverallState(p) == "applied" <==> forall f | f in p.fields :: !p.fields[f].Failed?)
      && (OverallState(p) == "failed" <==> p.fields != map[] && forall f | f in p.fields :: p.fields[f].Failed?)
      && (OverallState(p) == "partial_success" <==>
            (exists f | f in p.fields :: p.fields[f].Failed?) && exists f | f in p.fields :: !p.fields[f].Failed?)
  {
    hide After, AreValid;
    CountsFollow(start, runtime, patch, answers, |ORDER|);
    var p := After(start, runtime, patch, answers, |ORDER|);
    NoneIff(p.fields);
  }

  lemma NoneIff(fields: map<Field, Outcome>)
    ensures Succeeded(fields) == {} <==> forall f | f in fields :: fields[f].Failed?
    ensures FailedOnes(fields) == {} <==> forall f | f in fields :: !fields[f].Failed?
    ensures fields == map[] <==> Succeeded(fields) == {} && FailedOnes(fields) == {}
  {
    forall f | f in fields ensures f in Succeeded(fields) || f in FailedOnes(fields) {
    }
    if Succeeded(fields) == {} && FailedOnes(fields) == {} {
      assert fields.Keys == {};
    }
  }

  // ------------------------------------------------------------- the running system and the store

  /** The command will stop at f unless it stops before: the value is a new one that is accepted and applied,
      and it cannot be stored, because the disk fails or because the store refuses an empty timezone. */
  predicate IsRefused(start: Values, patch: Patch, answers: map<Field, Answers>, f: Field)
    requires f in patch ==> f in answers
  {
    && f in patch && IsAccepted(f, patch[f]) && Get(start, f) != patch[f]
    && (HasHandler(f) ==> answers[f].applies)
    && (!answers[f].disk.Works() || patch[f] == Text(""))
  }

  /** It is the first such field, and its handler cannot take it back. */
  predicate IsLeftRunning(start: Values, patch: Patch, answers: map<Field, Answers>, i: nat)
    requires i < |ORDER| && forall f | f in patch :: f in answers
  {
    && IsRefused(start, patch, answers, ORDER[i])
    && (forall j | 0 <= j < i :: !IsRefused(start, patch, answers, ORDER[j]))
    && HasHandler(ORDER[i]) && !answers[ORDER[i]].rollsBack
  }

  lemma StepStopsIff(start: Values, p: Progress, patch: Patch, answers: map<Field, Answers>, f: Field)
    requires f in patch && f in answers && !p.stopped && AreValid(p.values) && Get(p.values, f) == Get(start, f)
    ensures var q := Step(p, f, patch[f], answers[f]);
      q.stopped == IsRefused(start, patch, answers, f) && AreValid(q.values)
  {
    assert HasType(f, patch[f]);
    match f {
      case PersonSensitivity =>
      case RecordingQuality =>
      case Timezone =>
      case _ =>
    }
  }

  lemma StepAgrees(p: Progress, f: Field, x: FieldValue, a: Answers)
    requires HasType(f, x) && Agree(p.runtime, p.values) && !p.stopped
    ensures var q := Step(p, f, x, a);
      Agree(q.runtime, q.values) <==> !(q.stopped && HasHandler(f) && !a.rollsBack)
  {
  }

  /** A command stops early iff some field of it is refused. */
  lemma {:induction false} StopsIff(start: Values, runtime: Values, patch: Patch, answers: map<Field, Answers>, n: nat)
    requires n <= |ORDER| && (forall f | f in patch :: f in answers) && AreValid(start)
    ensures var p := After(start, runtime, patch, answers, n);
      AreValid(p.values) && (p.stopped <==> exists i | 0 <= i < n :: IsRefused(start, patch, answers, ORDER[i]))
  {
    hide Step, Get, AreValid, IsRefused, Truthful;
    if n > 0 {
      StopsIff(start, runtime, patch, answers, n - 1);
      FieldsFollow(start, runtime, patch, answers, n - 1, n - 1);
      var p, f := After(start, runtime, patch, answers, n - 1), ORDER[n - 1];
      if p.stopped {
      } else if f in patch {
        StepStopsIff(start, p, patch, answers, f);
      } else {
        NotAskedNotRefused(start, patch, answers, f);
      }
    }
  }

  lemma NotAskedNotRefused(start: Values, patch: Patch, answers: map<Field, Answers>, f: Field)
    requires f !in patch
    ensures !IsRefused(start, patch, answers, f)
  {
  }

  /** Runtime and settings agree at the end of every command, whatever fails, except when the first refused
      field cannot be taken back in the running system: then they do not. */
  lemma {:induction false} InStepIff(start: Values, runtime: Values, patch: Patch, answers: map<Field, Answers>, n: nat)
    requires n <= |ORDER| && (forall f | f in patch :: f in answers) && AreValid(start) && Agree(runtime, start)
    ensures var p := After(start, runtime, patch, answers, n);
      Agree(p.runtime, p.values) <==> forall i | 0 <= i < n :: !IsLeftRunning(start, patch, answers, i)
  {
    hide Step, Agree, Get, AreValid, IsRefused, Truthful;
    if n > 0 {
      InStepIff(start, runtime, patch, answers, n - 1);
      StopsIff(start, runtime, patch, answers, n - 1);
      StopsIff(start, runtime, patch, answers, n);
      var p, f := After(start, runtime, patch, answers, n - 1), ORDER[n - 1];
      if p.stopped {
        var j :| 0 <= j < n - 1 && IsRefused(start, patch, answers, ORDER[j]);
        assert !IsLeftRunning(start, patch, answers, n - 1);
      } else if f in patch {
        StepAgrees(p, f, patch[f], answers[f]);
        assert IsLeftRunning(start, patch, answers, n - 1)
          <==> IsRefused(start, patch, answers, f) && HasHandler(f) && !answers[f].rollsBack;
      } else {
        NotAskedNotRefused(start, patch, answers, f);
        assert !IsLeftRunning(start, patch, answers, n - 1);
      }
    } else {
      assert Agree(runtime, start);
    }
  }

  lemma StepLeavesRunning(start: Values, p: Progress, patch: Patch, answers: map<Field, Answers>, f: Field)
    requires f in patch && f in answers && !p.stopped && AreValid(p.values) && Get(p.values, f) == Get(start, f)
    requires Agree(p.runtime, p.values) && IsRefused(start, patch, answers, f) && HasHandler(f) && !answers[f].rollsBack
    ensures var q := Step(p, f, patch[f], answers[f]);
      HasType(f, patch[f]) && q.stopped && Agree(q.runtime, Set(q.values, f, patch[f]))
  {
    StepStopsIff(start, p, patch, answers, f);
    match f {
      case PersonDetection =>
      case PersonSensitivity =>
      case ImageRotate180 =>
      case Timezone =>
    }
  }

  /** What runs then is the settings with the refused value in this one field. */
  lemma LeftRunningIs(start: Values, runtime: Values, patch: Patch, answers: map<Field, Answers>, i: nat)
    requires i < |ORDER| && (forall f | f in patch :: f in answers) && AreValid(start) && Agree(runtime, start)
    requires IsLeftRunning(start, patch, answers, i)
    ensures var p, f := After(start, runtime, patch, answers, |ORDER|), ORDER[i];
      f in patch && HasType(f, patch[f]) && p.stopped && Agree(p.runtime, Set(p.values, f, patch[f]))
  {
    var f := ORDER[i];
    assert f in patch;
    hide Step, Agree, Get, Set, AreValid, IsRefused, Truthful;
    InStepIff(start, runtime, patch, answers, i);
    StopsIff(start, runtime, patch, answers, i);
    FieldsFollow(start, runtime, patch, answers, i, i);
    StepLeavesRunning(start, After(start, runtime, patch, answers, i), patch, answers, f);
    StoppedStays(start, runtime, patch, answers, i + 1, |ORDER|);
  }

  /** A settings file that cannot be written, and a person handler that fails to take its setting back: the
      detection runs although every later reader of the settings finds it off. */
  lemma LeftRunningOnce(start: Values, runtime: Values, a: Answers)
    requires AreValid(start) && Agree(runtime, start) && !start.personDetection
    requires a.applies && !a.rollsBack && !a.disk.opens
    ensures var p := After(start, runtime, map[PersonDetection := Flag(true)], map[PersonDetection := a], |ORDER|);
      p.stopped && p.values == start && p.runtime.personDetection
  {
    var patch: Patch, answers := map[PersonDetection := Flag(true)], map[PersonDetection := a];
    assert ORDER[0] == PersonDetection;
    assert After(start, runtime, patch, answers, 1)
        == Step(Progress(start, runtime, map[], 0, 0, false), PersonDetection, Flag(true), a);
    StoppedStays(start, runtime, patch, answers, 1, |ORDER|);
  }

  lemma {:induction false} StoppedStays(start: Values, runtime: Values, patch: Patch, answers: map<Field, Answers>,
                                        m: nat, n: nat)
    requires m <= n <= |ORDER| && (forall f | f in patch :: f in answers)
    requires After(start, runtime, patch, answers, m).stopped
    ensures After(start, runtime, patch, answers, n) == After(start, runtime, patch, answers, m)
  {
    hide Step;
    if m < n {
      StoppedStays(start, runtime, patch, answers, m, n - 1);
    }
  }

  // ----------------------------------------------------------------- outcomes, told from the inputs

  /** The fields are worked on in this order. */
  ghost function Rank(f: Field): nat {
    match f
    case PersonDetection => 0
    case PersonSensitivity => 1
    case StatusLed => 2
    case ImageRotate180 => 3
    case RecordingQuality => 4
    case Timezone => 5
  }

  ghost predicate MayBe(f: Field, x: FieldValue) {
    match f
    case PersonSensitivity => x == Text("low") || x == Text("medium") || x == Text("high")
    case RecordingQuality => x == Text("360p") || x == Text("720p") || x == Text("1080p") || x == Text("1440p")
    case _ => true
  }

  ghost predicate HasAlready(v: Values, f: Field, x: FieldValue) {
    match f
    case PersonDetection => x == Flag(v.personDetection)
    case PersonSensitivity => x == Text(v.personSensitivity)
    case StatusLed => x == Flag(v.statusLed)
    case ImageRotate180 => x == Flag(v.imageRotate180)
    case RecordingQuality => x == Text(v.recordingQuality)
    case Timezone => x == Text(v.timezone)
  }

  /** A handler that is asked says no. */
  ghost predicate HandlerRefuses(f: Field, a: Answers) {
    (f == PersonDetection || f == PersonSensitivity || f == ImageRotate180 || f == Timezone) && !a.applies
  }

  ghost function RefusalCode(f: Field, a: Answers): string {
    match f
    case PersonDetection => "PERSON_DETECTION_APPLY_FAILED"
    case PersonSensitivity => "PERSON_SENSITIVITY_APPLY_FAILED"
    case ImageRotate180 => "ROTATE_APPLY_FAILED"
    case _ => a.timezoneError
  }

  ghost predicate CanBeStored(f: Field, x: FieldValue, a: Answers) {
    && a.disk.opens && a.disk.writes && a.disk.flushes && a.disk.closes && a.disk.renames
    && (f == Timezone ==> x != Text(""))
  }

  /** What becomes of a requested field; None where the command stops at it. */
  ghost function Due(start: Values, f: Field, x: FieldValue, a: Answers): Option<Outcome> {
    if !MayBe(f, x) then Some(Failed("INVALID_DEVICE_SETTINGS"))
    else if HasAlready(start, f, x) then Some(Unchanged)
    else if HandlerRefuses(f, a) then Some(Failed(RefusalCode(f, a)))
    else if CanBeStored(f, x, a) then Some(Applied)
    else None
  }

  /** The command comes to f: it stops at none of the fields before it. */
  ghost predicate ComesTo(start: Values, patch: Patch, answers: map<Field, Answers>, f: Field)
    requires forall g | g in patch :: g in answers
  {
    forall g | g in patch && Rank(g) < Rank(f) :: Due(start, g, patch[g], answers[g]).Some?
  }

  lemma DueIs(p: Progress, start: Values, f: Field, x: FieldValue, a: Answers)
    requires HasType(f, x) && !p.stopped && AreValid(p.values) && Get(p.values, f) == Get(start, f) && f !in p.fields
    ensures var q := Step(p, f, x, a);
      var due := Due(start, f, x, a);
      && q.stopped == due.None? && (f in q.fields <==> due.Some?) && (due.Some? ==> q.fields[f] == due.value)
  {
    match f {
      case PersonDetection =>
      case PersonSensitivity =>
      case StatusLed =>
      case ImageRotate180 =>
      case RecordingQuality =>
      case Timezone =>
    }
  }

  lemma RefusedIsDue(start: Values, patch: Patch, answers: map<Field, Answers>, f: Field)
    requires f in patch && f in answers && AreValid(start)
    ensures IsRefused(start, patch, answers, f) <==> Due(start, f, patch[f], answers[f]).None?
  {
    assert HasType(f, patch[f]);
    match f {
      case PersonDetection =>
      case PersonSensitivity =>
      case StatusLed =>
      case ImageRotate180 =>
      case RecordingQuality =>
      case Timezone =>
    }
  }

  lemma RankIs(i: nat)
    requires i < |ORDER|
    ensures Rank(ORDER[i]) == i
  {
  }

  lemma {:induction false} OutcomeStays(start: Values, runtime: Values, patch: Patch, answers: map<Field, Answers>,
                                        i: nat, n: nat)
    requires i < n <= |ORDER| && forall f | f in patch :: f in answers
    ensures var before, after := After(start, runtime, patch, answers, i + 1), After(start, runtime, patch, answers, n);
      && (ORDER[i] in after.fields <==> ORDER[i] in before.fields)
      && (ORDER[i] in after.fields ==> after.fields[ORDER[i]] == before.fields[ORDER[i]])
      && (before.stopped ==> after.stopped)
  {
    hide Step;
    if n > i + 1 {
      OutcomeStays(start, runtime, patch, answers, i, n - 1);
      OrderDistinct(i, n - 1);
      var p, f := After(start, runtime, patch, answers, n - 1), ORDER[n - 1];
      if !p.stopped && f in patch {
        StepKeepsOthers(p, f, patch[f], answers[f], ORDER[i]);
      }
    }
  }

  lemma StepKeepsOthers(p: Progress, f: Field, x: FieldValue, a: Answers, g: Field)
    requires HasType(f, x) && f != g
    ensures var q := Step(p, f, x, a);
      (g in q.fields <==> g in p.fields) && (g in q.fields ==> q.fields[g] == p.fields[g])
  {
    hide Get, Set, Handled, IsAccepted, AreValid, HasHandler, ErrorCode;
  }

  /** Every requested field the command comes to gets the outcome that settings, value and answers call for;
      the command stops at the first one that calls for none, and answers none after it. */
  lemma OutcomesAreDue(start: Values, runtime: Values, patch: Patch, answers: map<Field, Answers>, f: Field)
    requires (forall g | g in patch :: g in answers) && AreValid(start) && f in patch
    ensures var p := After(start, runtime, patch, answers, |ORDER|);
      var due := Due(start, f, patch[f], answers[f]);
      && (f in p.fields <==> ComesTo(start, patch, answers, f) && due.Some?)
      && (f in p.fields ==> p.fields[f] == due.value)
      && (ComesTo(start, patch, answers, f) && due.None? ==> p.stopped)
  {
    hide After, Step, Get, AreValid, Due, IsRefused, Truthful, Rank;
    var i := PlaceOf(f);
    var p := After(start, runtime, patch, answers, i);
    StopsIff(start, runtime, patch, answers, i);
    FieldsFollow(start, runtime, patch, answers, i, i);
    OutcomeStays(start, runtime, patch, answers, i, |ORDER|);
    OneMoreField(start, runtime, patch, answers, i);
    StoppedIffNotComing(start, patch, answers, i);
    if !p.stopped {
      DueIs(p, start, f, patch[f], answers[f]);
    }
  }

  lemma OneMoreField(start: Values, runtime: Values, patch: Patch, answers: map<Field, Answers>, i: nat)
    requires i < |ORDER| && forall f | f in patch :: f in answers
    ensures var p, f := After(start, runtime, patch, answers, i), ORDER[i];
      After(start, runtime, patch, answers, i + 1)
        == if p.stopped || f !in patch then p else Step(p, f, patch[f], answers[f])
  {
    hide Step;
  }

  lemma StoppedIffNotComing(start: Values, patch: Patch, answers: map<Field, Answers>, i: nat)
    requires i < |ORDER| && (forall f | f in patch :: f in answers) && AreValid(start)
    ensures ComesTo(start, patch, answers, ORDER[i]) <==>
      forall j | 0 <= j < i :: !IsRefused(start, patch, answers, ORDER[j])
  {
    hide Due, IsRefused, AreValid, Rank;
    RankIs(i);
    forall j | 0 <= j < i ensures ORDER[j] in patch ==>
        (IsRefused(start, patch, answers, ORDER[j]) <==> Due(start, ORDER[j], patch[ORDER[j]], answers[ORDER[j]]).None?)
      ensures Rank(ORDER[j]) == j
      ensures ORDER[j] !in patch ==> !IsRefused(start, patch, answers, ORDER[j])
    {
      RankIs(j);
      if ORDER[j] in patch {
        RefusedIsDue(start, patch, answers, ORDER[j]);
      } else {
        NotAskedNotRefused(start, patch, answers, ORDER[j]);
      }
    }
    forall g | g in patch && Rank(g) < Rank(ORDER[i]) ensures exists j | 0 <= j < i :: ORDER[j] == g {
      var j := PlaceOf(g);
      RankIs(j);
    }
  }

  ghost predicate IsApplied(p: Progress, f: Field) { f in p.fields && p.fields[f] == Applied }

  lemma EndsWith(start: Values, runtime: Values, patch: Patch, answers: map<Field, Answers>, f: Field)
    requires (forall g | g in patch :: g in answers) && AreValid(start)
    ensures var p := After(start, runtime, patch, answers, |ORDER|);
      && (IsApplied(p, f) ==> f in patch && HasType(f, patch[f]))
      && Get(p.values, f) == if IsApplied(p, f) then patch[f] else Get(start, f)
  {
    hide After, AreValid, Get;
    EveryFieldAnswered(start, runtime, patch, answers, f);
    assert forall g | g in patch :: HasType(g, patch[g]);
  }

  /** The six settings at the end, each by its name: the requested value if it was applied, else the old one. */
  lemma ValuesAreThose(start: Values, runtime: Values, patch: Patch, answers: map<Field, Answers>)
    requires (forall f | f in patch :: f in answers) && AreValid(start)
    ensures var p := After(start, runtime, patch, answers, |ORDER|);
      && (forall f | IsApplied(p, f) :: f in patch && HasType(f, patch[f]))
      && p.values == Values(
           if IsApplied(p, PersonDetection) then patch[PersonDetection].on else start.personDetection,
           if IsApplied(p, PersonSensitivity) then patch[PersonSensitivity].text else start.personSensitivity,
           if IsApplied(p, StatusLed) then patch[StatusLed].on else start.statusLed,
           if IsApplied(p, ImageRotate180) then patch[ImageRotate180].on else start.imageRotate180,
           if IsApplied(p, RecordingQuality) then patch[RecordingQuality].text else start.recordingQuality,
           if IsApplied(p, Timezone) then patch[Timezone].text else start.timezone)
  {
    hide After, AreValid, IsApplied;
    EndsWith(start, runtime, patch, answers, PersonDetection);
    EndsWith(start, runtime, patch, answers, PersonSensitivity);
    EndsWith(start, runtime, patch, answers, StatusLed);
    EndsWith(start, runtime, patch, answers, ImageRotate180);
    EndsWith(start, runtime, patch, answers, RecordingQuality);
    EndsWith(start, runtime, patch, answers, Timezone);
    forall f | IsApplied(After(start, runtime, patch, answers, |ORDER|), f) ensures f in patch && HasType(f, patch[f]) {
      EndsWith(start, runtime, patch, answers, f);
    }
  }
}
