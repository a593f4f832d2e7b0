/** How event and press reports travel between the threads of src/events/device_event_processor.cpp. Every
    section under the mutex and every store call is one step; the threads interleave in any way. */
module ReportProtocol {
  import opened Options
  import opened StoreTables

  datatype Job =
    | ReportEvent(e: string)
    | ReportPress(k: PressKey)
    | Timeout(e: string)
    | Submitted(e: string)
    | SaveSnapshot(e: string)

  /** Work that is queued, or that some thread has in hand between two of its steps. */
  datatype Item =
    | NewRing(e: string)
    | Arming(e: string)
    | NewPerson(e: string)
    | NewPress(k: PressKey)
    | Submitting(e: string)
    | Prepared(e: string)
    | Queued(job: Job)
    | Held(job: Job)

  /** The `reported` columns of both tables, the one-shot snapshot tokens, and all work in memory. */
  datatype State = State(reported: map<string, int>, presses: map<PressKey, bool>, tokens: set<string>,
                         items: multiset<Item>)

  datatype Step =
    | CommitRing(e: string)
    | Arm(e: string)
    | QueueTimeout(e: string)
    | CommitPerson(e: string)
    | QueuePerson(e: string)
    | CommitPress(k: PressKey)
    | QueuePress(k: PressKey)
    | TakeToken(e: string)
    | SubmitTooLate(e: string)
    | QueueSubmitted(e: string)
    | QueueSave(e: string)
    | Take(job: Job)
    | TimeoutFires(e: string)
    | TimeoutTooLate(e: string)
    | PrepareSubmitted(e: string)
    | QueueReport(e: string)
    | SaveDone(e: string)
    | Retry(job: Job)
    | EventDone(e: string)
    | PressDone(k: PressKey)
    | Ack(e: string, value: int)

  /** The piece of work a step consumes. */
  function Takes(step: Step): Option<Item> {
    match step
    case Arm(e) => Some(NewRing(e))
    case QueueTimeout(e) => Some(Arming(e))
    case QueuePerson(e) => Some(NewPerson(e))
    case QueuePress(k) => Some(NewPress(k))
    case QueueSubmitted(e) => Some(Submitting(e))
    case Take(job) => Some(Queued(job))
    case TimeoutFires(e) => Some(Held(Timeout(e)))
    case TimeoutTooLate(e) => Some(Held(Timeout(e)))
    case PrepareSubmitted(e) => Some(Held(Submitted(e)))
    case QueueReport(e) => Some(Prepared(e))
    case SaveDone(e) => Some(Held(SaveSnapshot(e)))
    case Retry(job) => Some(Held(job))
    case EventDone(e) => Some(Held(ReportEvent(e)))
    case PressDone(k) => Some(Held(ReportPress(k)))
    case _ => None
  }

  /** The piece of work it leaves. */
  function Gives(step: Step): Option<Item> {
    match step
    case CommitRing(e) => Some(NewRing(e))
    case Arm(e) => Some(Arming(e))
    case QueueTimeout(e) => Some(Queued(Timeout(e)))
    case CommitPerson(e) => Some(NewPerson(e))
    case QueuePerson(e) => Some(Queued(ReportEvent(e)))
    case CommitPress(k) => Some(NewPress(k))
    case QueuePress(k) => Some(Queued(ReportPress(k)))
    case TakeToken(e) => Some(Submitting(e))
    case QueueSubmitted(e) => Some(Queued(Submitted(e)))
    case QueueSave(e) => Some(Queued(SaveSnapshot(e)))
    case Take(job) => Some(Held(job))
    case TimeoutFires(e) => Some(Prepared(e))
    case PrepareSubmitted(e) => Some(Prepared(e))
    case QueueReport(e) => Some(Queued(ReportEvent(e)))
    case Retry(job) => Some(Queued(job))
    case _ => None
  }

  predicate Enabled(s: State, step: Step) {
    && (Takes(step).Some? ==> Takes(step).value in s.items)
    && match step
       case CommitRing(e) => e !in s.reported
       case CommitPerson(e) => e !in s.reported
       case CommitPress(k) => k !in s.presses
       case TakeToken(e) => e in s.tokens
       case SubmitTooLate(e) => e !in s.tokens
       case TimeoutFires(e) => e in s.tokens
       case TimeoutTooLate(e) => e !in s.tokens
       case Retry(job) => job.ReportEvent? || job.ReportPress?
       case EventDone(e) => e in s.reported && s.reported[e] != 0
       case PressDone(k) => k in s.presses
       case Ack(_, value) => value == 1 || value == -1
       case _ => true
  }

  function After(items: multiset<Item>, take: Option<Item>, give: Option<Item>): multiset<Item> {
    items - (if take.Some? then multiset{take.value} else multiset{})
    + (if give.Some? then multiset{give.value} else multiset{})
  }

  function ReportedAfter(reported: map<string, int>, step: Step): map<string, int> {
    match step
    case CommitRing(e) => reported[e := 0]
    case CommitPerson(e) => reported[e := 0]
    case Ack(e, value) => if e in reported then reported[e := value] else reported
    case _ => reported
  }

  function PressesAfter(presses: map<PressKey, bool>, step: Step): map<PressKey, bool> {
    match step
    case CommitPress(k) => presses[k := false]
    case PressDone(k) => presses[k := true]
    case _ => presses
  }

  function TokensAfter(tokens: set<string>, step: Step): set<string> {
    match step
    case Arm(e) => tokens + {e}
    case TakeToken(e) => tokens - {e}
    case TimeoutFires(e) => tokens - {e}
    case _ => tokens
  }

  function Next(s: State, step: Step): State {
    State(ReportedAfter(s.reported, step), PressesAfter(s.presses, step), TokensAfter(s.tokens, step),
          After(s.items, Takes(step), Gives(step)))
  }

  /** The step happens and leads from s to s'. */
  predicate Does(s: State, step: Step, s': State) { Enabled(s, step) && s' == Next(s, step) }

  predicate Does2(s: State, a: Step, b: Step, s': State) { Enabled(s, a) && Does(Next(s, a), b, s') }

  predicate Does3(s: State, a: Step, b: Step, c: Step, s': State) { Enabled(s, a) && Does2(Next(s, a), b, c, s') }

  lemma Chain2(s: State, a: Step, b: Step, s': State)
    requires exists m :: Does(s, a, m) && Does(m, b, s')
    ensures Does2(s, a, b, s')
  {
  }

  lemma Chain3(s: State, a: Step, b: Step, c: Step, s': State)
    requires exists m :: Does(s, a, m) && Does2(m, b, c, s')
    ensures Does3(s, a, b, c, s')
  {
  }

  // ------------------------------------------------------------ each step, spelled out

  lemma CommitRingIs(s: State, e: string)
    requires e !in s.reported
    ensures Does(s, CommitRing(e), s.(reported := s.reported[e := 0], items := s.items + multiset{NewRing(e)}))
  {
  }

  lemma ArmIs(s: State, e: string)
    requires NewRing(e) in s.items
    ensures Does(s, Arm(e), s.(tokens := s.tokens + {e}, items := s.items - multiset{NewRing(e)} + multiset{Arming(e)}))
  {
  }

  lemma QueueTimeoutIs(s: State, e: string)
    requires Arming(e) in s.items
    ensures Does(s, QueueTimeout(e), s.(items := s.items - multiset{Arming(e)} + multiset{Queued(Timeout(e))}))
  {
  }

  lemma CommitPersonIs(s: State, e: string)
    requires e !in s.reported
    ensures Does(s, CommitPerson(e), s.(reported := s.reported[e := 0], items := s.items + multiset{NewPerson(e)}))
  {
  }

  lemma QueuePersonIs(s: State, e: string)
    requires NewPerson(e) in s.items
    ensures Does(s, QueuePerson(e), s.(items := s.items - multiset{NewPerson(e)} + multiset{Queued(ReportEvent(e))}))
  {
  }

  lemma CommitPressIs(s: State, k: PressKey)
    requires k !in s.presses
    ensures Does(s, CommitPress(k), s.(presses := s.presses[k := false], items := s.items + multiset{NewPress(k)}))
  {
  }

  lemma QueuePressIs(s: State, k: PressKey)
    requires NewPress(k) in s.items
    ensures Does(s, QueuePress(k), s.(items := s.items - multiset{NewPress(k)} + multiset{Queued(ReportPress(k))}))
  {
  }

  lemma TakeTokenIs(s: State, e: string)
    requires e in s.tokens
    ensures Does(s, TakeToken(e), s.(tokens := s.tokens - {e}, items := s.items + multiset{Submitting(e)}))
  {
  }

  lemma QueueSubmittedIs(s: State, e: string)
    requires Submitting(e) in s.items
    ensures Does(s, QueueSubmitted(e), s.(items := s.items - multiset{Submitting(e)} + multiset{Queued(Submitted(e))}))
  {
  }

  lemma TakeIs(s: State, job: Job)
    requires Queued(job) in s.items
    ensures Does(s, Take(job), s.(items := s.items - multiset{Queued(job)} + multiset{Held(job)}))
  {
  }

  lemma TimeoutFiresIs(s: State, e: string)
    requires Held(Timeout(e)) in s.items && e in s.tokens
    ensures Does(s, TimeoutFires(e),
                 s.(tokens := s.tokens - {e}, items := s.items - multiset{Held(Timeout(e))} + multiset{Prepared(e)}))
  {
  }

  lemma TimeoutTooLateIs(s: State, e: string)
    requires Held(Timeout(e)) in s.items && e !in s.tokens
    ensures Does(s, TimeoutTooLate(e), s.(items := s.items - multiset{Held(Timeout(e))}))
  {
  }

  lemma PrepareSubmittedIs(s: State, e: string)
    requires Held(Submitted(e)) in s.items
    ensures Does(s, PrepareSubmitted(e), s.(items := s.items - multiset{Held(Submitted(e))} + multiset{Prepared(e)}))
  {
  }

  lemma QueueReportIs(s: State, e: string)
    requires Prepared(e) in s.items
    ensures Does(s, QueueReport(e), s.(items := s.items - multiset{Prepared(e)} + multiset{Queued(ReportEvent(e))}))
  {
  }

  lemma SaveDoneIs(s: State, e: string)
    requires Held(SaveSnapshot(e)) in s.items
    ensures Does(s, SaveDone(e), s.(items := s.items - multiset{Held(SaveSnapshot(e))}))
  {
  }

  lemma RetryIs(s: State, job: Job)
    requires (job.ReportEvent? || job.ReportPress?) && Held(job) in s.items
    ensures Does(s, Retry(job), s.(items := s.items - multiset{Held(job)} + multiset{Queued(job)}))
  {
  }

  lemma EventDoneIs(s: State, e: string)
    requires Held(ReportEvent(e)) in s.items && e in s.reported && s.reported[e] != 0
    ensures Does(s, EventDone(e), s.(items := s.items - multiset{Held(ReportEvent(e))}))
  {
  }

  lemma PressDoneIs(s: State, k: PressKey)
    requires Held(ReportPress(k)) in s.items && k in s.presses
    ensures Does(s, PressDone(k), s.(presses := s.presses[k := true], items := s.items - multiset{Held(ReportPress(k))}))
  {
    assert After(s.items, Some(Held(ReportPress(k))), None) == s.items - multiset{Held(ReportPress(k))};
    hide After;
  }

  lemma QueueSaveIs(s: State, e: string)
    ensures Does(s, QueueSave(e), s.(items := s.items + multiset{Queued(SaveSnapshot(e))}))
  {
  }

  lemma AckIs(s: State, e: string, value: int)
    requires value == 1 || value == -1
    ensures Does(s, Ack(e, value), if e in s.reported then s.(reported := s.reported[e := value]) else s)
  {
    assert After(s.items, None, None) == s.items;
  }

  // ---------------------------------------------------------------------------------- carriers

  /** Work that will still report event e. */
  predicate Carries(item: Item, e: string) {
    match item
    case NewRing(x) => x == e
    case NewPerson(x) => x == e
    case Submitting(x) => x == e
    case Prepared(x) => x == e
    case Queued(job) => job == Submitted(e) || job == ReportEvent(e)
    case Held(job) => job == Submitted(e) || job == ReportEvent(e)
    case _ => false
  }

  predicate Watches(item: Item, e: string) {
    item == Arming(e) || item == Queued(Timeout(e)) || item == Held(Timeout(e))
  }

  predicate CarriesPress(item: Item, k: PressKey) {
    item == NewPress(k) || item == Queued(ReportPress(k)) || item == Held(ReportPress(k))
  }

  function Work(items: multiset<Item>, e: string): nat {
    items[NewRing(e)] + items[NewPerson(e)] + items[Submitting(e)] + items[Prepared(e)]
    + items[Queued(Submitted(e))] + items[Held(Submitted(e))]
    + items[Queued(ReportEvent(e))] + items[Held(ReportEvent(e))]
  }

  function Watching(items: multiset<Item>, e: string): nat {
    items[Arming(e)] + items[Queued(Timeout(e))] + items[Held(Timeout(e))]
  }

  function PressWork(items: multiset<Item>, k: PressKey): nat {
    items[NewPress(k)] + items[Queued(ReportPress(k))] + items[Held(ReportPress(k))]
  }

  function One(b: bool): nat { if b then 1 else 0 }

  lemma AfterAt(items: multiset<Item>, take: Option<Item>, give: Option<Item>, x: Item)
    requires take.Some? ==> take.value in items
    ensures After(items, take, give)[x] == items[x] - One(take == Some(x)) + One(give == Some(x))
  {
  }

  lemma WorkAfter(items: multiset<Item>, take: Option<Item>, give: Option<Item>, e: string)
    requires take.Some? ==> take.value in items
    ensures Work(After(items, take, give), e)
      == Work(items, e) - One(take.Some? && Carries(take.value, e)) + One(give.Some? && Carries(give.value, e))
  {
    hide After;
    AfterAt(items, take, give, NewRing(e));
    AfterAt(items, take, give, NewPerson(e));
    AfterAt(items, take, give, Submitting(e));
    AfterAt(items, take, give, Prepared(e));
    AfterAt(items, take, give, Queued(Submitted(e)));
    AfterAt(items, take, give, Held(Submitted(e)));
    AfterAt(items, take, give, Queued(ReportEvent(e)));
    AfterAt(items, take, give, Held(ReportEvent(e)));
  }

  lemma WatchingAfter(items: multiset<Item>, take: Option<Item>, give: Option<Item>, e: string)
    requires take.Some? ==> take.value in items
    ensures Watching(After(items, take, give), e)
      == Watching(items, e) - One(take.Some? && Watches(take.value, e)) + One(give.Some? && Watches(give.value, e))
  {
    hide After;
    AfterAt(items, take, give, Arming(e));
    AfterAt(items, take, give, Queued(Timeout(e)));
    AfterAt(items, take, give, Held(Timeout(e)));
  }

  lemma PressWorkAfter(items: multiset<Item>, take: Option<Item>, give: Option<Item>, k: PressKey)
    requires take.Some? ==> take.value in items
    ensures PressWork(After(items, take, give), k)
      == PressWork(items, k) - One(take.Some? && CarriesPress(take.value, k))
         + One(give.Some? && CarriesPress(give.value, k))
  {
    hide After;
    AfterAt(items, take, give, NewPress(k));
    AfterAt(items, take, give, Queued(ReportPress(k)));
    AfterAt(items, take, give, Held(ReportPress(k)));
  }

  /** An armed token counts as a carrier: its timeout will report the event if no snapshot comes. */
  function Carriers(s: State, e: string): nat { One(e in s.tokens) + Work(s.items, e) }

  /** Nothing carries an unknown event; an unreported one has exactly one carrier, a settled one at most
      one; an armed token has its timeout job. */
  predicate Balanced(known: bool, unreported: bool, token: bool, work: nat, watching: nat, rings: nat) {
    && (!known ==> !token && work == 0 && watching == 0)
    && (unreported ==> One(token) + work == 1)
    && One(token) + work <= 1 && watching <= 1
    && (token ==> watching == 1)
    && (rings > 0 ==> watching == 0)
  }

  predicate EventOk(s: State, e: string) {
    Balanced(e in s.reported, e in s.reported && s.reported[e] == 0, e in s.tokens,
             Work(s.items, e), Watching(s.items, e), s.items[NewRing(e)])
  }

  /** A press has a carrier exactly while its row is unreported, and never two. */
  predicate PressOk(s: State, k: PressKey) {
    PressWork(s.items, k) == if k in s.presses && !s.presses[k] then 1 else 0
  }

  ghost predicate Inv(s: State) {
    && (forall e :: EventOk(s, e))
    && (forall k :: PressOk(s, k))
  }

  function TakenWork(step: Step, e: string): nat { One(Takes(step).Some? && Carries(Takes(step).value, e)) }

  function GivenWork(step: Step, e: string): nat { One(Gives(step).Some? && Carries(Gives(step).value, e)) }

  function TakenWatch(step: Step, e: string): nat { One(Takes(step).Some? && Watches(Takes(step).value, e)) }

  function GivenWatch(step: Step, e: string): nat { One(Gives(step).Some? && Watches(Gives(step).value, e)) }

  /** How a step changes the totals for event e. */
  lemma EventTotals(s: State, step: Step, e: string)
    requires Enabled(s, step)
    ensures var items' := Next(s, step).items;
      && Work(items', e) == Work(s.items, e) - TakenWork(step, e) + GivenWork(step, e)
      && Watching(items', e) == Watching(s.items, e) - TakenWatch(step, e) + GivenWatch(step, e)
      && items'[NewRing(e)]
           == s.items[NewRing(e)] - One(Takes(step) == Some(NewRing(e))) + One(Gives(step) == Some(NewRing(e)))
      && s.items[NewRing(e)] <= Work(s.items, e)
  {
    var take, give := Takes(step), Gives(step);
    WorkAfter(s.items, take, give, e);
    WatchingAfter(s.items, take, give, e);
    AfterAt(s.items, take, give, NewRing(e));
    hide Takes, Gives, Carries, Watches, After;
  }

  predicate Special(step: Step, e: string) {
    step in {CommitRing(e), CommitPerson(e), Arm(e), TakeToken(e), TimeoutFires(e), TimeoutTooLate(e), EventDone(e)}
  }

  /** Every other step hands the work for event e on unchanged. */
  lemma EventWorkMoves(step: Step, e: string)
    requires !Special(step, e)
    ensures TakenWork(step, e) == GivenWork(step, e)
  {
    hide Watches;
  }

  lemma EventWatchMoves(step: Step, e: string)
    requires !Special(step, e)
    ensures TakenWatch(step, e) == GivenWatch(step, e) && Gives(step) != Some(NewRing(e))
  {
    hide Carries;
  }

  lemma OtherStepsKeepRow(s: State, step: Step, e: string)
    requires !Special(step, e)
    ensures e in Next(s, step).tokens <==> e in s.tokens
    ensures e in Next(s, step).reported <==> e in s.reported
    ensures e in s.reported && Next(s, step).reported[e] == 0 ==> s.reported[e] == 0 || step == Ack(e, 0)
  {
    hide After, Takes, Gives;
  }

  /** A step that is not special for event e neither adds nor takes a carrier, token or timeout of it. */
  lemma OtherStepsKeepCounts(s: State, step: Step, e: string)
    requires Enabled(s, step) && !Special(step, e)
    ensures var s' := Next(s, step);
      && Carriers(s', e) == Carriers(s, e) && Watching(s'.items, e) == Watching(s.items, e)
      && s'.items[NewRing(e)] <= s.items[NewRing(e)]
  {
    EventTotals(s, step, e);
    EventWorkMoves(step, e);
    EventWatchMoves(step, e);
    OtherStepsKeepRow(s, step, e);
    hide Next, Enabled, Special, Work, Watching, Takes, Gives, TakenWork, GivenWork, TakenWatch, GivenWatch;
  }

  lemma OtherStepsKeepEvent(s: State, step: Step, e: string)
    requires Enabled(s, step) && EventOk(s, e) && !Special(step, e)
    ensures EventOk(Next(s, step), e)
  {
    OtherStepsKeepRow(s, step, e);
    OtherStepsKeepCounts(s, step, e);
    assert step != Ack(e, 0);
    hide Next, Enabled, Special, Work, Watching, Carriers;
  }

  predicate IsSettled(s: State, e: string) { e in s.reported && s.reported[e] != 0 }

  /** What each special step takes and gives. */
  lemma SpecialMoves(step: Step, e: string)
    requires Special(step, e)
    ensures TakenWork(step, e) == One(step == Arm(e) || step == EventDone(e))
    ensures GivenWork(step, e)
      == One(step == CommitRing(e) || step == CommitPerson(e) || step == TakeToken(e) || step == TimeoutFires(e))
    ensures TakenWatch(step, e) == One(step == TimeoutFires(e) || step == TimeoutTooLate(e))
    ensures GivenWatch(step, e) == One(step == Arm(e))
    ensures Takes(step) == Some(NewRing(e)) <==> step == Arm(e)
    ensures Gives(step) == Some(NewRing(e)) <==> step == CommitRing(e)
  {
    match step {
      case CommitRing(_) =>
      case CommitPerson(_) =>
      case Arm(_) =>
      case TakeToken(_) =>
      case TimeoutFires(_) =>
      case TimeoutTooLate(_) =>
      case EventDone(_) =>
    }
  }

  /** The totals for event e after a special step. */
  lemma SpecialTotals(s: State, step: Step, e: string)
    requires Enabled(s, step) && Special(step, e)
    ensures var s' := Next(s, step);
      && Work(s'.items, e) == Work(s.items, e) - One(step == Arm(e) || step == EventDone(e))
           + One(step == CommitRing(e) || step == CommitPerson(e) || step == TakeToken(e) || step == TimeoutFires(e))
      && Watching(s'.items, e)
           == Watching(s.items, e) - One(step == TimeoutFires(e) || step == TimeoutTooLate(e)) + One(step == Arm(e))
      && s'.items[NewRing(e)] == s.items[NewRing(e)] - One(step == Arm(e)) + One(step == CommitRing(e))
      && s.items[NewRing(e)] <= Work(s.items, e)
  {
    EventTotals(s, step, e);
    SpecialMoves(step, e);
    hide Enabled, Next, Special, Work, Watching, Takes, Gives, TakenWork, GivenWork, TakenWatch, GivenWatch;
  }

  /** The row and the token of event e after a special step. */
  lemma SpecialRow(s: State, step: Step, e: string)
    requires Enabled(s, step) && Special(step, e)
    ensures var s' := Next(s, step);
      && (e in s'.reported <==> e in s.reported || step == CommitRing(e) || step == CommitPerson(e))
      && (e in s.reported ==> s'.reported[e] == s.reported[e] && step != CommitRing(e) && step != CommitPerson(e))
      && (e in s'.tokens <==> (e in s.tokens && step != TakeToken(e) && step != TimeoutFires(e)) || step == Arm(e))
    ensures step == TakeToken(e) || step == TimeoutFires(e) ==> e in s.tokens
    ensures step == TimeoutTooLate(e) ==> e !in s.tokens
    ensures step == EventDone(e) ==> IsSettled(s, e)
  {
    hide After, Takes, Gives;
    match step {
      case CommitRing(_) =>
      case CommitPerson(_) =>
      case Arm(_) =>
      case TakeToken(_) =>
      case TimeoutFires(_) =>
      case TimeoutTooLate(_) =>
      case EventDone(_) =>
    }
  }

  lemma SpecialStepsKeepEvent(s: State, step: Step, e: string)
    requires Enabled(s, step) && EventOk(s, e) && Special(step, e)
    ensures EventOk(Next(s, step), e)
  {
    SpecialTotals(s, step, e);
    SpecialRow(s, step, e);
    hide Enabled, Next, Work, Watching;
    match step {
      case CommitRing(_) =>
      case CommitPerson(_) =>
      case Arm(_) =>
      case TakeToken(_) =>
      case TimeoutFires(_) =>
      case TimeoutTooLate(_) =>
      case EventDone(_) =>
    }
  }

  lemma EventOkKept(s: State, step: Step, e: string)
    requires Enabled(s, step) && EventOk(s, e)
    ensures EventOk(Next(s, step), e)
  {
    hide EventOk, Enabled, Next;
    if Special(step, e) {
      SpecialStepsKeepEvent(s, step, e);
    } else {
      OtherStepsKeepEvent(s, step, e);
    }
  }

  function TakenPress(step: Step, k: PressKey): nat { One(Takes(step).Some? && CarriesPress(Takes(step).value, k)) }

  function GivenPress(step: Step, k: PressKey): nat { One(Gives(step).Some? && CarriesPress(Gives(step).value, k)) }

  lemma PressTotal(s: State, step: Step, k: PressKey)
    requires Enabled(s, step)
    ensures PressWork(Next(s, step).items, k) == PressWork(s.items, k) - TakenPress(step, k) + GivenPress(step, k)
  {
    var take, give := Takes(step), Gives(step);
    PressWorkAfter(s.items, take, give, k);
    hide Takes, Gives, CarriesPress, After;
  }

  lemma PressWorkMoves(step: Step, k: PressKey)
    requires step != CommitPress(k) && step != PressDone(k)
    ensures TakenPress(step, k) == GivenPress(step, k)
  {
  }

  lemma OtherStepsKeepPress(s: State, step: Step, k: PressKey)
    requires Enabled(s, step) && PressOk(s, k) && step != CommitPress(k) && step != PressDone(k)
    ensures PressOk(Next(s, step), k)
  {
    PressTotal(s, step, k);
    PressWorkMoves(step, k);
    hide Enabled, PressWork, After, Takes, Gives, TakenPress, GivenPress;
  }

  lemma PressOkKept(s: State, step: Step, k: PressKey)
    requires Enabled(s, step) && PressOk(s, k)
    ensures PressOk(Next(s, step), k)
  {
    if step == CommitPress(k) || step == PressDone(k) {
      PressTotal(s, step, k);
      assert TakenPress(step, k) == One(step == PressDone(k)) && GivenPress(step, k) == One(step == CommitPress(k));
      hide PressWork, After, Takes, Gives, TakenPress, GivenPress;
    } else {
      hide Enabled, PressOk, Next;
      OtherStepsKeepPress(s, step, k);
    }
  }

  lemma NextKeepsInv(s: State, step: Step)
    requires Inv(s) && Enabled(s, step)
    ensures Inv(Next(s, step))
  {
    hide EventOk, PressOk, Enabled, Next;
    forall e ensures EventOk(Next(s, step), e) {
      EventOkKept(s, step, e);
    }
    forall k ensures PressOk(Next(s, step), k) {
      PressOkKept(s, step, k);
    }
  }

  // --------------------------------------------------------------------------------- whole runs

  function Reached(s: State, steps: seq<Step>): State {
    if steps == [] then s else Next(Reached(s, steps[..|steps| - 1]), steps[|steps| - 1])
  }

  /** Every step of the run may happen where it happens. */
  predicate IsRun(s: State, steps: seq<Step>) {
    steps == [] || (IsRun(s, steps[..|steps| - 1])
                    && Enabled(Reached(s, steps[..|steps| - 1]), steps[|steps| - 1]))
  }

  /** No report is lost or doubled in any interleaving: an unreported event always has exactly one carrier,
      no event has two, and a press has a carrier exactly while it is unreported. */
  lemma {:induction false} EveryRunKeepsCarriers(s: State, steps: seq<Step>)
    requires Inv(s) && IsRun(s, steps)
    ensures Inv(Reached(s, steps))
  {
    hide Inv, Enabled, Next;
    if steps != [] {
      EveryRunKeepsCarriers(s, steps[..|steps| - 1]);
      NextKeepsInv(Reached(s, steps[..|steps| - 1]), steps[|steps| - 1]);
    }
  }

  ghost predicate Reaches(s: State, s': State) { exists steps :: IsRun(s, steps) && Reached(s, steps) == s' }

  lemma ReachesSame(s: State)
    ensures Reaches(s, s)
  {
    assert IsRun(s, []) && Reached(s, []) == s;
  }

  lemma ReachesNext(s: State, m: State, step: Step, s': State)
    requires Reaches(s, m) && Does(m, step, s')
    ensures Reaches(s, s')
  {
    var steps :| IsRun(s, steps) && Reached(s, steps) == m;
    var more := steps + [step];
    assert more[..|more| - 1] == steps;
    hide Enabled, Next;
    assert IsRun(s, more) && Reached(s, more) == s';
  }

  /** What a worker makes of a job it has in hand. A report is done, or goes back into the queue. */
  predicate Processed(s: State, job: Job, s': State) {
    match job
    case SaveSnapshot(e) => Does(s, SaveDone(e), s')
    case Submitted(e) => Does2(s, PrepareSubmitted(e), QueueReport(e), s')
    case Timeout(e) =>
      if e in s.tokens then Does2(s, TimeoutFires(e), QueueReport(e), s') else Does(s, TimeoutTooLate(e), s')
    case ReportEvent(e) => Does(s, EventDone(e), s') || Does(s, Retry(job), s')
    case ReportPress(k) => Does(s, PressDone(k), s') || Does(s, Retry(job), s')
  }

  /** A worker took a job and dealt with it. */
  ghost predicate Worked(s: State, job: Job, s': State) { exists m :: Does(s, Take(job), m) && Processed(m, job, s') }

  lemma WorkedReaches(s: State, job: Job, s': State)
    requires Worked(s, job, s')
    ensures Reaches(s, s')
  {
    var m :| Does(s, Take(job), m) && Processed(m, job, s');
    ReachesSame(s);
    ReachesNext(s, s, Take(job), m);
    hide Reaches, Enabled, Next;
    match job {
      case SaveSnapshot(e) => ReachesNext(s, m, SaveDone(e), s');
      case Submitted(e) =>
        ReachesNext(s, m, PrepareSubmitted(e), Next(m, PrepareSubmitted(e)));
        ReachesNext(s, Next(m, PrepareSubmitted(e)), QueueReport(e), s');
      case Timeout(e) =>
        if e in m.tokens {
          ReachesNext(s, m, TimeoutFires(e), Next(m, TimeoutFires(e)));
          ReachesNext(s, Next(m, TimeoutFires(e)), QueueReport(e), s');
        } else {
          ReachesNext(s, m, TimeoutTooLate(e), s');
        }
      case ReportEvent(e) => ReachesNext(s, m, if Does(m, EventDone(e), s') then EventDone(e) else Retry(job), s');
      case ReportPress(k) => ReachesNext(s, m, if Does(m, PressDone(k), s') then PressDone(k) else Retry(job), s');
    }
  }

  lemma ReachedStatesOk(s: State, s': State)
    requires Inv(s) && Reaches(s, s')
    ensures Inv(s')
  {
    hide Inv;
    var steps :| IsRun(s, steps) && Reached(s, steps) == s';
    EveryRunKeepsCarriers(s, steps);
  }

  /** A verdict of the backend is never taken back. */
  lemma {:induction false} SettledForever(s: State, steps: seq<Step>, e: string)
    requires IsRun(s, steps) && IsSettled(s, e)
    ensures IsSettled(Reached(s, steps), e)
  {
    hide After, Takes, Gives;
    if steps != [] {
      SettledForever(s, steps[..|steps| - 1], e);
    }
  }

  /** The last carrier of an event goes only when its row holds a verdict. */
  lemma CarrierGoesOnlyWhenSettled(s: State, step: Step, e: string)
    requires Enabled(s, step) && EventOk(s, e) && Carriers(s, e) == 1 && Carriers(Next(s, step), e) == 0
    ensures step == EventDone(e) && IsSettled(s, e)
  {
    if Special(step, e) {
      SpecialTotals(s, step, e);
      SpecialRow(s, step, e);
      hide Enabled, Next, Work, Watching;
    } else {
      OtherStepsKeepCounts(s, step, e);
      hide Carriers, Enabled, Next, EventOk;
      assert false;
    }
  }

  predicate TakesToken(step: Step, e: string) { step == TakeToken(e) || step == TimeoutFires(e) }

  function TokensTaken(steps: seq<Step>, e: string): nat {
    if steps == [] then 0
    else TokensTaken(steps[..|steps| - 1], e) + One(TakesToken(steps[|steps| - 1], e))
  }

  /** A token that can still be taken, now or later. */
  function TokensLeft(s: State, e: string): nat {
    One(e !in s.reported || e in s.tokens || NewRing(e) in s.items)
  }

  lemma OtherStepsKeepTokens(s: State, step: Step, e: string)
    requires Enabled(s, step) && !Special(step, e)
    ensures TokensLeft(Next(s, step), e) <= TokensLeft(s, e)
  {
    OtherStepsKeepRow(s, step, e);
    OtherStepsKeepCounts(s, step, e);
    hide Next, Enabled, Special, Work, Watching, Carriers;
  }

  lemma SpecialStepsTakeTokens(s: State, step: Step, e: string)
    requires Enabled(s, step) && EventOk(s, e) && Special(step, e)
    ensures TokensLeft(Next(s, step), e) + One(TakesToken(step, e)) <= TokensLeft(s, e)
  {
    SpecialTotals(s, step, e);
    SpecialRow(s, step, e);
    hide Enabled, Next, Work, Watching;
    match step {
      case CommitRing(_) =>
      case CommitPerson(_) =>
      case Arm(_) =>
      case TakeToken(_) =>
      case TimeoutFires(_) =>
      case TimeoutTooLate(_) =>
      case EventDone(_) =>
    }
  }

  lemma TokensLeftFall(s: State, step: Step, e: string)
    requires Enabled(s, step) && EventOk(s, e)
    ensures TokensLeft(Next(s, step), e) + One(TakesToken(step, e)) <= TokensLeft(s, e)
  {
    hide TokensLeft, Next, Enabled, EventOk;
    if Special(step, e) {
      SpecialStepsTakeTokens(s, step, e);
    } else {
      OtherStepsKeepTokens(s, step, e);
    }
  }

  /** However the timeout and the selected snapshot race, one of them at most prepares the ring event. */
  lemma {:induction false} TokenTakenOnce(s: State, steps: seq<Step>, e: string)
    requires Inv(s) && IsRun(s, steps)
    ensures TokensTaken(steps, e) + TokensLeft(Reached(s, steps), e) <= TokensLeft(s, e) <= 1
  {
    hide Inv, EventOk, Enabled, Next, TokensLeft;
    if steps != [] {
      var before := Reached(s, steps[..|steps| - 1]);
      TokenTakenOnce(s, steps[..|steps| - 1], e);
      EveryRunKeepsCarriers(s, steps[..|steps| - 1]);
      InvAt(before, e);
      TokensLeftFall(before, steps[|steps| - 1], e);
    } else {
      assert TokensLeft(s, e) <= 1 by {
        LeftBound(s, e);
      }
    }
  }

  lemma LeftBound(s: State, e: string)
    ensures TokensLeft(s, e) <= 1
  {
  }

  lemma InvAt(s: State, e: string)
    requires Inv(s)
    ensures EventOk(s, e)
  {
  }

  // ----------------------------------------------------------------------------------- startup

  function EventJobs(events: seq<string>): multiset<Item> {
    if events == [] then multiset{}
    else EventJobs(events[..|events| - 1]) + multiset{Queued(ReportEvent(events[|events| - 1]))}
  }

  function PressJobs(keys: seq<PressKey>): multiset<Item> {
    if keys == [] then multiset{}
    else PressJobs(keys[..|keys| - 1]) + multiset{Queued(ReportPress(keys[|keys| - 1]))}
  }

  /** start(): the rows on disk, and one report job for every row the two scans returned. */
  function Started(reported: map<string, int>, presses: map<PressKey, bool>,
                   events: seq<string>, keys: seq<PressKey>): State {
    State(reported, presses, {}, EventJobs(events) + PressJobs(keys))
  }

  lemma StartedNextEvent(reported: map<string, int>, presses: map<PressKey, bool>, events: seq<string>, n: nat)
    requires n < |events|
    ensures Started(reported, presses, events[..n + 1], [])
      == var s := Started(reported, presses, events[..n], []);
         s.(items := s.items + multiset{Queued(ReportEvent(events[n]))})
  {
    assert events[..n + 1][..n] == events[..n];
    assert EventJobs(events[..n + 1]) == EventJobs(events[..n]) + multiset{Queued(ReportEvent(events[n]))};
    assert PressJobs([]) == multiset{};
  }

  lemma StartedNextPress(reported: map<string, int>, presses: map<PressKey, bool>,
                         events: seq<string>, keys: seq<PressKey>, n: nat)
    requires n < |keys|
    ensures Started(reported, presses, events, keys[..n + 1])
      == var s := Started(reported, presses, events, keys[..n]);
         s.(items := s.items + multiset{Queued(ReportPress(keys[n]))})
  {
    assert keys[..n + 1][..n] == keys[..n];
    assert PressJobs(keys[..n + 1]) == PressJobs(keys[..n]) + multiset{Queued(ReportPress(keys[n]))};
    hide EventJobs;
  }

  lemma StartedEmpty(reported: map<string, int>, presses: map<PressKey, bool>)
    ensures Started(reported, presses, [], []) == State(reported, presses, {}, multiset{})
  {
  }

  predicate Distinct<T(==)>(q: seq<T>) { forall i, j | 0 <= i < j < |q| :: q[i] != q[j] }

  /** What a scan for unreported rows may return when it stops early at an error. */
  predicate IsScan<T(==)>(scan: seq<T>, pending: set<T>) { Distinct(scan) && forall x | x in scan :: x in pending }

  lemma {:induction false} EventJobsAre(events: seq<string>, x: Item)
    requires Distinct(events)
    ensures EventJobs(events)[x] == One(x.Queued? && x.job.ReportEvent? && x.job.e in events)
  {
    if events != [] {
      EventJobsAre(events[..|events| - 1], x);
    }
  }

  lemma {:induction false} PressJobsAre(keys: seq<PressKey>, x: Item)
    requires Distinct(keys)
    ensures PressJobs(keys)[x] == One(x.Queued? && x.job.ReportPress? && x.job.k in keys)
  {
    if keys != [] {
      PressJobsAre(keys[..|keys| - 1], x);
    }
  }

  function PendingEvents(reported: map<string, int>): set<string> { set e | e in reported && reported[e] == 0 }

  function PendingPresses(presses: map<PressKey, bool>): set<PressKey> { set k | k in presses && !presses[k] }

  lemma StartedItems(reported: map<string, int>, presses: map<PressKey, bool>,
                     events: seq<string>, keys: seq<PressKey>, x: Item)
    requires Distinct(events) && Distinct(keys)
    ensures Started(reported, presses, events, keys).items[x]
      == One(x.Queued? && ((x.job.ReportEvent? && x.job.e in events) || (x.job.ReportPress? && x.job.k in keys)))
  {
    EventJobsAre(events, x);
    PressJobsAre(keys, x);
  }

  lemma StartedWork(reported: map<string, int>, presses: map<PressKey, bool>,
                    events: seq<string>, keys: seq<PressKey>, e: string)
    requires Distinct(events) && Distinct(keys)
    ensures Work(Started(reported, presses, events, keys).items, e) == One(e in events)
  {
    hide Distinct;
    StartedItems(reported, presses, events, keys, NewRing(e));
    StartedItems(reported, presses, events, keys, NewPerson(e));
    StartedItems(reported, presses, events, keys, Submitting(e));
    StartedItems(reported, presses, events, keys, Prepared(e));
    StartedItems(reported, presses, events, keys, Queued(Submitted(e)));
    StartedItems(reported, presses, events, keys, Held(Submitted(e)));
    StartedItems(reported, presses, events, keys, Queued(ReportEvent(e)));
    StartedItems(reported, presses, events, keys, Held(ReportEvent(e)));
    hide Started;
  }

  lemma StartedWatching(reported: map<string, int>, presses: map<PressKey, bool>,
                        events: seq<string>, keys: seq<PressKey>, e: string)
    requires Distinct(events) && Distinct(keys)
    ensures var items := Started(reported, presses, events, keys).items;
      Watching(items, e) == 0 && items[NewRing(e)] == 0
  {
    hide Distinct;
    StartedItems(reported, presses, events, keys, Arming(e));
    StartedItems(reported, presses, events, keys, Queued(Timeout(e)));
    StartedItems(reported, presses, events, keys, Held(Timeout(e)));
    StartedItems(reported, presses, events, keys, NewRing(e));
    hide Started;
  }

  lemma StartedEvent(reported: map<string, int>, presses: map<PressKey, bool>,
                     events: seq<string>, keys: seq<PressKey>, e: string)
    requires Distinct(events) && Distinct(keys)
    ensures var s := Started(reported, presses, events, keys);
      Carriers(s, e) == One(e in events) && Watching(s.items, e) == 0 && s.items[NewRing(e)] == 0
  {
    StartedWork(reported, presses, events, keys, e);
    StartedWatching(reported, presses, events, keys, e);
    hide EventJobs, PressJobs, Work, Watching;
  }

  lemma StartedPress(reported: map<string, int>, presses: map<PressKey, bool>,
                     events: seq<string>, keys: seq<PressKey>, k: PressKey)
    requires Distinct(events) && Distinct(keys)
    ensures PressWork(Started(reported, presses, events, keys).items, k) == One(k in keys)
  {
    StartedItems(reported, presses, events, keys, NewPress(k));
    StartedItems(reported, presses, events, keys, Queued(ReportPress(k)));
    StartedItems(reported, presses, events, keys, Held(ReportPress(k)));
    hide EventJobs, PressJobs;
  }

  /** After a restart nothing is lost if and only if both scans returned every unreported row. */
  lemma StartLosesNothingIff(reported: map<string, int>, presses: map<PressKey, bool>,
                             events: seq<string>, keys: seq<PressKey>)
    requires IsScan(events, PendingEvents(reported)) && IsScan(keys, PendingPresses(presses))
    ensures Inv(Started(reported, presses, events, keys)) <==>
      (forall e | e in PendingEvents(reported) :: e in events) && (forall k | k in PendingPresses(presses) :: k in keys)
  {
    var s := Started(reported, presses, events, keys);
    forall e ensures EventOk(s, e) <==> (e in PendingEvents(reported) ==> e in events) {
      StartedEvent(reported, presses, events, keys, e);
      hide Work, Watching, EventJobs, PressJobs, Distinct;
      if e in events {
        assert e in PendingEvents(reported);
      }
    }
    forall k ensures PressOk(s, k) <==> (k in PendingPresses(presses) ==> k in keys) {
      StartedPress(reported, presses, events, keys, k);
      hide PressWork, EventJobs, PressJobs, Distinct;
      if k in keys {
        assert k in PendingPresses(presses);
      }
    }
    hide EventOk, PressOk, Started, PendingEvents, PendingPresses;
  }

  predicate IsCompleteScan<T(==)>(scan: seq<T>, pending: set<T>) {
    IsScan(scan, pending) && forall x | x in pending :: x in scan
  }

  lemma PrefixMisses<T>(scan: seq<T>, n: nat)
    requires Distinct(scan) && n < |scan|
    ensures scan[n] !in scan[..n]
  {
  }

  /** Scans that stop after n events and m presses lose nothing only if those are all. */
  lemma PartialScanLosesReports(reported: map<string, int>, presses: map<PressKey, bool>,
                                events: seq<string>, keys: seq<PressKey>, n: nat, m: nat)
    requires n <= |events| && m <= |keys|
    requires IsCompleteScan(events, PendingEvents(reported)) && IsCompleteScan(keys, PendingPresses(presses))
    ensures Inv(Started(reported, presses, events[..n], keys[..m])) <==> n == |events| && m == |keys|
  {
    hide Inv, Started, PendingEvents, PendingPresses;
    StartLosesNothingIff(reported, presses, events[..n], keys[..m]);
    assert events[..|events|] == events && keys[..|keys|] == keys;
    if n < |events| {
      PrefixMisses(events, n);
      assert events[n] in PendingEvents(reported);
    }
    if m < |keys| {
      PrefixMisses(keys, m);
      assert keys[m] in PendingPresses(presses);
    }
  }

  /** From a startup whose scans were complete, whatever happens in whatever order: each unreported event has
      one carrier, no event has two, an armed token has the one timeout job that will use it, and a press has
      a carrier exactly while it is unreported. */
  lemma NoReportLostOrDoubled(reported: map<string, int>, presses: map<PressKey, bool>,
                              events: seq<string>, keys: seq<PressKey>, steps: seq<Step>, e: string, k: PressKey)
    requires IsCompleteScan(events, PendingEvents(reported)) && IsCompleteScan(keys, PendingPresses(presses))
    requires IsRun(Started(reported, presses, events, keys), steps)
    ensures var s := Reached(Started(reported, presses, events, keys), steps);
      && Carriers(s, e) <= 1 && (e in s.reported && s.reported[e] == 0 ==> Carriers(s, e) == 1)
      && (e in s.tokens ==> Watching(s.items, e) == 1)
      && PressWork(s.items, k) == One(k in s.presses && !s.presses[k])
  {
    hide Inv, Started, Work, PressWork, Watching, Enabled, Next;
    StartLosesNothingIff(reported, presses, events, keys);
    EveryRunKeepsCarriers(Started(reported, presses, events, keys), steps);
    InvAt(Reached(Started(reported, presses, events, keys), steps), e);
    InvAtPress(Reached(Started(reported, presses, events, keys), steps), k);
  }

  lemma InvAtPress(s: State, k: PressKey)
    requires Inv(s)
    ensures PressOk(s, k)
  {
  }

  /** An event the scan at startup missed is never reported by this process. */
  lemma {:induction false} MissedStaysLost(s: State, steps: seq<Step>, e: string)
    requires IsRun(s, steps) && e in s.reported && Carriers(s, e) == 0
    ensures e in Reached(s, steps).reported && Carriers(Reached(s, steps), e) == 0
  {
    if steps != [] {
      MissedStaysLost(s, steps[..|steps| - 1], e);
      NothingRevives(Reached(s, steps[..|steps| - 1]), steps[|steps| - 1], e);
    }
  }

  lemma NothingRevives(s: State, step: Step, e: string)
    requires Enabled(s, step) && e in s.reported && Carriers(s, e) == 0
    ensures e in Next(s, step).reported && Carriers(Next(s, step), e) == 0
  {
    if Special(step, e) {
      SpecialTotals(s, step, e);
      SpecialRow(s, step, e);
      hide Enabled, Next, Work, Watching;
    } else {
      OtherStepsKeepCounts(s, step, e);
      OtherStepsKeepRow(s, step, e);
      hide Carriers, Next, Enabled;
    }
  }

  /** The errors of the scans are not looked at: one failing query at startup loses a report. */
  lemma FailedScanLosesReport()
    ensures exists reported: map<string, int>, e ::
      && e in reported && reported[e] == 0
      && IsScan<string>([], PendingEvents(reported))
      && forall steps | IsRun(Started(reported, map[], [], []), steps) ::
           Carriers(Reached(Started(reported, map[], [], []), steps), e) == 0
  {
    var reported := map["e" := 0];
    var s := Started(reported, map[], [], []);
    assert Carriers(s, "e") == 0 by {
      StartedEvent(reported, map[], [], [], "e");
    }
    forall steps | IsRun(s, steps) ensures Carriers(Reached(s, steps), "e") == 0 {
      MissedStaysLost(s, steps, "e");
    }
    assert "e" in reported && reported["e"] == 0;
  }
}
