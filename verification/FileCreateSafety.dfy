/** What every run of the file-create protocol keeps, whatever crashes and whenever. */
module FileCreateSafety {
  import opened Wrappers
  import opened UploadBuffer
  import opened RemoteCatalog
  import opened FileCreateIntent
  import opened FileCreateEvidence
  import opened FileCreateProtocol

  /** Something that matched the fingerprint did stand under the id at that version. */
  ghost predicate WasExact(setup: Setup, past: set<RemoteFile>, fingerprint: Fingerprint, version: nat) {
    exists o :: o in past && Shows(setup, o, fingerprint, version)
  }

  /** A local file is only opened for upload with the planned size, which is not zero. */
  predicate IsSource(intent: Intent, content: Bytes) {
    |content| == intent.localSizeBytes > 0
  }

  /** Opened for one attempt of the row; its last part is offered only once its digest is durable. */
  ghost predicate SessionOk(setup: Setup, intent: Intent, k: nat, session: Session) {
    && 1 <= k <= intent.attemptCount
    && IsSource(intent, session.content) && session.received <= session.sentTo <= |session.content|
    && (session.sentTo == |session.content| ==> intent.fingerprint == Some(FingerprintOf(setup, session.content)))
  }

  /** What a running command holds agrees with what is durable. */
  ghost predicate ProcessOk(setup: Setup, s: State, c: Process) {
    match c
    case Submitting(content, generation) => IsSource(s.intent, content)
    case Begun(content, generation, attempt, evidence) =>
      IsSource(s.intent, content) && 1 <= attempt <= s.intent.attemptCount && attempt !in s.sessions
      && (evidence.Some? ==> s.intent.fingerprint == evidence)
    case Uploading(content, generation, attempt, evidence, durable) =>
      && attempt in s.sessions && s.sessions[attempt].content == content && IsSource(s.intent, content)
      && (evidence.Some? ==> s.intent.fingerprint == evidence)
      && (durable ==> s.intent.fingerprint == Some(FingerprintOf(setup, content)))
    case Completed(generation, fingerprint, completion) =>
      s.intent.fingerprint == Some(fingerprint) && WasExact(setup, s.past, fingerprint, completion.version)
    case Witnessed(generation, fingerprint, version) =>
      s.intent.fingerprint == Some(fingerprint) && WasExact(setup, s.past, fingerprint, version)
    case Clashing(generation) => true
    case Hashing(content, generation) => IsSource(s.intent, content)
    case Recovering(generation, attempts, fingerprint) => s.intent.fingerprint == Some(fingerprint)
    case Rechecking(content, generation, attempts, fingerprint) =>
      IsSource(s.intent, content) && s.intent.fingerprint == Some(fingerprint)
    case Restarting(content, generation, attempts, fingerprint) =>
      IsSource(s.intent, content) && s.intent.fingerprint == Some(fingerprint)
    case Confirming(generation, fingerprint, floor) => HoldsEvidence(s.intent, fingerprint, floor)
    case Judging(generation, fingerprint, floor, window, lookup) =>
      && HoldsEvidence(s.intent, fingerprint, floor) && IsTruthful(setup.target, s.past, window)
      && (lookup.Exact? ==> WasExact(setup, s.past, fingerprint, lookup.version))
    case Judged(generation, fingerprint, floor, window, lookup, finalItem) =>
      && HoldsEvidence(s.intent, fingerprint, floor) && IsTruthful(setup.target, s.past, window)
      && (lookup.Exact? ==> WasExact(setup, s.past, fingerprint, lookup.version))
      && (finalItem.Some? ==> Depicted(setup.target, s.past, finalItem.value))
    case Rescuing(generation, attempts, fingerprint, floor, version, item) =>
      && HoldsEvidence(s.intent, fingerprint, floor) && attempts == 1 && FloorMet(floor, version)
      && WasExact(setup, s.past, fingerprint, version)
      && Depicted(setup.target, s.past, item) && ItemExact(setup.target, fingerprint.sizeBytes, item)
  }

  ghost predicate HoldsEvidence(intent: Intent, fingerprint: Fingerprint, floor: nat) {
    intent.fingerprint == Some(fingerprint) && intent.remoteVersion == Some(floor)
  }

  /**
   A recorded version belongs to something that matched the recorded fingerprint; the fence and the
   intent's local generation are not ahead of what is durable.
   */
  ghost predicate IntentOk(setup: Setup, s: State) {
    && Valid(s.intent) && setup.baselineGeneration <= s.local.generation
    && (s.intent.fingerprint.Some? ==> s.intent.fingerprint.value.sizeBytes == s.intent.localSizeBytes)
    && (s.intent.preSubmitCursor.Some? ==> s.intent.preSubmitCursor.value <= s.cursor)
    && (s.intent.remoteVersion.Some?
        ==> WasExact(setup, s.past, s.intent.fingerprint.value, s.intent.remoteVersion.value))
  }

  /** Everything this protocol put under the id has the durable fingerprint. */
  ghost predicate FilesOk(setup: Setup, s: State) {
    && (s.current.Some? ==> s.current.value in s.past)
    && forall o :: o in s.past && o.ours ==> s.intent.fingerprint == Some(FingerprintOf(setup, o.content))
  }

  ghost predicate SessionsOk(setup: Setup, s: State) {
    && s.initiated == |s.sessions|
    && forall k {:trigger SessionOk(setup, s.intent, k, s.sessions[k])} :: k in s.sessions ==>
         SessionOk(setup, s.intent, k, s.sessions[k])
  }

  ghost predicate ProcessesOk(setup: Setup, s: State) {
    && (forall p {:trigger ProcessOk(setup, s, s.processes[p])} :: p in s.processes ==>
          ProcessOk(setup, s, s.processes[p]))
    && (forall p, q {:trigger DifferentAttempts(s.processes[p], s.processes[q])} ::
          p in s.processes && q in s.processes && p != q ==> DifferentAttempts(s.processes[p], s.processes[q]))
  }

  /** Two commands never hold the same not yet used attempt. */
  predicate DifferentAttempts(c: Process, d: Process) {
    c.Begun? && d.Begun? ==> c.attempt != d.attempt
  }

  ghost predicate Safe(setup: Setup, s: State) {
    IntentOk(setup, s) && FilesOk(setup, s) && SessionsOk(setup, s) && ProcessesOk(setup, s)
  }

  /** Nothing that a command relies on is ever taken back. */
  ghost predicate Grows(s: State, t: State) {
    && Advances(s.intent, t.intent) && s.past <= t.past && s.cursor <= t.cursor && s.initiated <= t.initiated
    && s.local.generation <= t.local.generation && (t.local.twoWay ==> s.local.twoWay)
    && forall k :: k in s.sessions ==> k in t.sessions && t.sessions[k].content == s.sessions[k].content
  }

  lemma {:induction false} ProcessStaysOk(setup: Setup, s: State, t: State, c: Process)
    requires ProcessOk(setup, s, c) && Grows(s, t) && (c.Begun? ==> c.attempt !in t.sessions)
    ensures ProcessOk(setup, t, c)
  {
    forall fingerprint, version | WasExact(setup, s.past, fingerprint, version)
      ensures WasExact(setup, t.past, fingerprint, version)
    {
      var o :| o in s.past && Shows(setup, o, fingerprint, version);
      assert o in t.past;
    }
    forall item | Depicted(setup.target, s.past, item)
      ensures Depicted(setup.target, t.past, item)
    {
      var o :| o in s.past && Depicts(setup.target, o, item);
      assert o in t.past;
    }
    assert forall window :: IsTruthful(setup.target, s.past, window) ==> IsTruthful(setup.target, t.past, window);
  }

  lemma {:induction false} AllStayOk(setup: Setup, s: State, t: State)
    requires ProcessesOk(setup, s) && Grows(s, t) && t.processes == s.processes && t.sessions.Keys == s.sessions.Keys
    ensures ProcessesOk(setup, t)
  {
    forall q | q in t.processes
      ensures ProcessOk(setup, t, t.processes[q])
    {
      ProcessStaysOk(setup, s, t, s.processes[q]);
    }
  }

  /** One command moved: it must be fine itself, the others rely only on what grows. */
  lemma {:induction false} OthersStayOk(setup: Setup, s: State, t: State, p: nat)
    requires ProcessesOk(setup, s) && Grows(s, t)
    requires t.processes.Keys <= s.processes.Keys + {p}
    requires forall q :: q in t.processes && q != p ==> t.processes[q] == s.processes[q]
    requires forall q :: q in t.processes && q != p && s.processes[q].Begun? ==> s.processes[q].attempt !in t.sessions
    requires p in t.processes ==> ProcessOk(setup, t, t.processes[p])
    requires p in t.processes && t.processes[p].Begun?
             ==> forall q :: q in s.processes && q != p ==> DifferentAttempts(t.processes[p], s.processes[q])
    ensures ProcessesOk(setup, t)
  {
    forall q | q in t.processes && q != p
      ensures ProcessOk(setup, t, t.processes[q])
    {
      ProcessStaysOk(setup, s, t, s.processes[q]);
    }
  }

  lemma {:induction false} BegunIsUnused(setup: Setup, s: State)
    requires ProcessesOk(setup, s)
    ensures forall q :: q in s.processes && s.processes[q].Begun?
                        ==> s.processes[q].attempt !in s.sessions && s.processes[q].attempt <= s.intent.attemptCount
  {
    forall q | q in s.processes && s.processes[q].Begun?
      ensures s.processes[q].attempt !in s.sessions && s.processes[q].attempt <= s.intent.attemptCount
    {
      assert ProcessOk(setup, s, s.processes[q]);
    }
  }

  lemma {:induction false} BecomeKeeps(setup: Setup, s: State, p: nat, c: Process)
    requires Safe(setup, s) && ProcessOk(setup, s, c) && !c.Begun?
    ensures Safe(setup, Become(s, p, c)) && Grows(s, Become(s, p, c))
  {
    var t := Become(s, p, c);
    ProcessStaysOk(setup, s, t, c);
    BegunIsUnused(setup, s);
    OthersStayOk(setup, s, t, p);
  }

  lemma {:induction false} GoneKeeps(setup: Setup, s: State, p: nat)
    requires Safe(setup, s)
    ensures Safe(setup, Gone(s, p)) && Grows(s, Gone(s, p))
  {
    BegunIsUnused(setup, s);
    OthersStayOk(setup, s, Gone(s, p), p);
  }

  lemma {:induction false} AnswerWasExact(setup: Setup, s: State, fingerprint: Fingerprint, lookup: Lookup)
    requires s.current.Some? ==> s.current.value in s.past
    requires Answers(setup, s.current, fingerprint, lookup)
    ensures lookup.Exact? ==> WasExact(setup, s.past, fingerprint, lookup.version)
  {
  }

  lemma {:induction false} StartIsOk(setup: Setup, s: State, e: Event)
    requires Valid(s.intent) && (s.current.Some? ==> s.current.value in s.past) && StartOf(setup, s, e).Some?
    ensures ProcessOk(setup, s, StartOf(setup, s, e).value) && !StartOf(setup, s, e).value.Begun?
  {
    if e.StartRescue? {
      AnswerWasExact(setup, s, s.intent.fingerprint.value, e.lookup);
    }
  }

  lemma {:induction false} LessonIsOk(setup: Setup, s: State, c: Process, e: Event)
    requires IntentOk(setup, s) && ProcessOk(setup, s, c) && (s.current.Some? ==> s.current.value in s.past)
    requires LessonOf(setup, s, c, e).Some? && LessonOf(setup, s, c, e).value.Some?
    ensures ProcessOk(setup, s, LessonOf(setup, s, c, e).value.value) && !LessonOf(setup, s, c, e).value.value.Begun?
  {
    match e
    case HearCompletion(p, completion) =>
      assert WasExact(setup, s.past, FingerprintOf(setup, c.content), completion.version);
    case JudgeCompletion(p, lookup) =>
      if c.completion.sha256Checksum.None? { AnswerWasExact(setup, s, c.fingerprint, lookup); }
    case FirstLookup(p, lookup, content) => AnswerWasExact(setup, s, c.fingerprint, lookup);
    case SecondLookup(p, lookup) => AnswerWasExact(setup, s, c.fingerprint, lookup);
    case ObserveTarget(p, window, lookup) => AnswerWasExact(setup, s, c.fingerprint, lookup);
    case _ =>
  }

  /**
   A version is stored only after something exact was seen, a digest only of a file of the planned size, a
   fence only as it is now.
   */
  ghost predicate Justified(setup: Setup, s: State, update: Update) {
    match update
    case CompleteUpload(generation, version) =>
      s.intent.fingerprint.Some? ==> WasExact(setup, s.past, s.intent.fingerprint.value, version)
    case RecordFingerprint(generation, fingerprint) => fingerprint.sizeBytes == s.intent.localSizeBytes
    case Begin(generation, cursor, durableCursor, ready) => cursor == s.cursor
    case Restart(generation, attempts, cursor, durableCursor, ready) => cursor == s.cursor
    case _ => true
  }

  /** The row after a successful update still fits the files and the sessions. */
  lemma {:induction false} UpdateKeeps(setup: Setup, s: State, update: Update, t: State)
    requires IntentOk(setup, s) && FilesOk(setup, s) && SessionsOk(setup, s) && Apply(s.intent, update) == Ok(t.intent)
    requires t.past == s.past && t.sessions == s.sessions && t.current == s.current && t.initiated == s.initiated
             && t.cursor == s.cursor
             && t.local == s.local
    requires Justified(setup, s, update)
    ensures IntentOk(setup, t) && FilesOk(setup, t) && SessionsOk(setup, t) && Grows(s, t)
  {
    UpdateAdvances(s.intent, update);
    forall k | k in s.sessions
      ensures SessionOk(setup, t.intent, k, s.sessions[k])
    {
      assert SessionOk(setup, s.intent, k, s.sessions[k]);
    }
  }

  /** What the command asks for is justified by what it holds. */
  lemma {:induction false} CommitIsOk(setup: Setup, s: State, c: Process, e: Event, commit: Commit)
    requires Valid(s.intent) && ProcessOk(setup, s, c) && CommitOf(setup, s, c, e) == Some(commit)
    requires forall k :: k in s.sessions ==> SessionOk(setup, s.intent, k, s.sessions[k])
    ensures Justified(setup, s, commit.update)
    ensures commit.process.Some? && Apply(s.intent, commit.update).Ok?
            ==> ProcessOk(setup, s.(intent := Apply(s.intent, commit.update).value), commit.process.value)
                && (commit.process.value.Begun? ==> commit.process.value.attempt == s.intent.attemptCount + 1)
  {
    forall k | k in s.sessions
      ensures k <= s.intent.attemptCount
    {
      assert SessionOk(setup, s.intent, k, s.sessions[k]);
    }
  }

  lemma {:induction false} StoreKeeps(setup: Setup, s: State, p: nat, commit: Commit)
    requires Safe(setup, s) && p in s.processes
    requires Justified(setup, s, commit.update)
    requires commit.process.Some? && Apply(s.intent, commit.update).Ok?
             ==> ProcessOk(setup, s.(intent := Apply(s.intent, commit.update).value), commit.process.value)
                 && (commit.process.value.Begun? ==> commit.process.value.attempt == s.intent.attemptCount + 1)
    ensures Safe(setup, Store(s, p, commit)) && Grows(s, Store(s, p, commit))
  {
    var t := Store(s, p, commit);
    if Apply(s.intent, commit.update).Err? {
      GoneKeeps(setup, s, p);
    } else {
      UpdateKeeps(setup, s, commit.update, t);
      BegunIsUnused(setup, s);
      if commit.process.Some? {
        ProcessStaysOk(setup, s.(intent := t.intent), t, commit.process.value);
      }
      OthersStayOk(setup, s, t, p);
    }
  }

  lemma {:induction false} CommandKeeps(setup: Setup, s: State, e: Event, t: State)
    requires Safe(setup, s)
    requires Starts(setup, s, e) == Some(t) || Learns(setup, s, e) == Some(t) || Commits(setup, s, e) == Some(t)
    ensures Safe(setup, t) && Grows(s, t)
  {
    if Starts(setup, s, e) == Some(t) {
      StartIsOk(setup, s, e);
      BecomeKeeps(setup, s, e.p, StartOf(setup, s, e).value);
    } else {
      var c := s.processes[e.p];
      assert ProcessOk(setup, s, c);
      if Learns(setup, s, e) == Some(t) {
        if LessonOf(setup, s, c, e).value.None? {
          GoneKeeps(setup, s, e.p);
        } else {
          LessonIsOk(setup, s, c, e);
          BecomeKeeps(setup, s, e.p, LessonOf(setup, s, c, e).value.value);
        }
      } else {
        var commit := CommitOf(setup, s, c, e).value;
        CommitIsOk(setup, s, c, e, commit);
        StoreKeeps(setup, s, e.p, commit);
      }
    }
  }

  /** A session moved on, nothing else did. */
  lemma {:induction false} SessionMoves(setup: Setup, s: State, k: nat, session: Session)
    requires Safe(setup, s) && k in s.sessions
    requires session.content == s.sessions[k].content && SessionOk(setup, s.intent, k, session)
    ensures Safe(setup, s.(sessions := s.sessions[k := session])) && Grows(s, s.(sessions := s.sessions[k := session]))
  {
    var t := s.(sessions := s.sessions[k := session]);
    assert t.sessions.Keys == s.sessions.Keys;
    SameKeysSameSize(s.sessions, t.sessions);
    AllStayOk(setup, s, t);
  }

  lemma {:induction false} SameKeysSameSize<V>(a: map<nat, V>, b: map<nat, V>)
    requires a.Keys == b.Keys
    ensures |a| == |b|
  {
    assert |a.Keys| == |a| && |b.Keys| == |b|;
  }

  lemma {:induction false} OpenKeeps(setup: Setup, s: State, p: nat, t: State)
    requires Safe(setup, s) && Proceeds(setup, s, Initiate(p)) == Some(t)
    ensures Safe(setup, t) && Grows(s, t)
  {
    var c := s.processes[p];
    assert ProcessOk(setup, s, c);
    forall k | k in t.sessions
      ensures SessionOk(setup, t.intent, k, t.sessions[k])
    {
      assert k != c.attempt ==> SessionOk(setup, s.intent, k, s.sessions[k]);
    }
    assert t.sessions.Keys == s.sessions.Keys + {c.attempt};
    assert |t.sessions.Keys| == |t.sessions| && |s.sessions.Keys| == |s.sessions|;
    forall q | q in s.processes && q != p && s.processes[q].Begun?
      ensures s.processes[q].attempt !in t.sessions
    {
      assert ProcessOk(setup, s, s.processes[q]);
      assert DifferentAttempts(c, s.processes[q]);
    }
    OthersStayOk(setup, s, t, p);
  }

  /** The file under the id changes: created by a session, or changed or removed by others. */
  lemma {:induction false} FileChangeKeeps(setup: Setup, s: State, current: Option<RemoteFile>, added: set<RemoteFile>)
    requires Safe(setup, s) && (current.Some? ==> current.value in s.past + added)
    requires forall o :: o in added && o.ours ==> s.intent.fingerprint == Some(FingerprintOf(setup, o.content))
    ensures Safe(setup, s.(current := current, past := s.past + added))
            && Grows(s, s.(current := current, past := s.past + added))
  {
    var t := s.(current := current, past := s.past + added);
    if s.intent.remoteVersion.Some? {
      var o :| o in s.past && Shows(setup, o, s.intent.fingerprint.value, s.intent.remoteVersion.value);
      assert o in t.past;
    }
    AllStayOk(setup, s, t);
  }

  lemma {:induction false} CreateKeeps(setup: Setup, s: State, k: nat, version: nat, t: State)
    requires Safe(setup, s) && Proceeds(setup, s, Create(k, version)) == Some(t)
    ensures Safe(setup, t) && Grows(s, t)
  {
    assert SessionOk(setup, s.intent, k, s.sessions[k]);
    var finished := s.sessions[k].(finished := true);
    SessionMoves(setup, s, k, finished);
    var file := Uploaded(setup.target, finished.content, version);
    FileChangeKeeps(setup, s.(sessions := s.sessions[k := finished]), Some(file), {file});
  }

  lemma {:induction false} MeddleKeeps(setup: Setup, s: State, file: Option<RemoteFile>, t: State)
    requires Safe(setup, s) && Proceeds(setup, s, Meddle(file)) == Some(t)
    ensures Safe(setup, t) && Grows(s, t)
  {
    FileChangeKeeps(setup, s, file, if file.Some? then {file.value} else {});
  }

  /** Only the cursor and the facts around the intent move, and those only onwards. */
  lemma {:induction false} SurroundingsKeep(setup: Setup, s: State, cursor: Cursor, local: Local)
    requires Safe(setup, s) && s.cursor <= cursor
    requires s.local.generation <= local.generation && (local.twoWay ==> s.local.twoWay)
    ensures Safe(setup, s.(cursor := cursor, local := local)) && Grows(s, s.(cursor := cursor, local := local))
  {
    AllStayOk(setup, s, s.(cursor := cursor, local := local));
  }

  lemma {:induction false} OtherKeeps(setup: Setup, s: State, e: Event, t: State)
    requires Safe(setup, s) && Surrounds(setup, s, e) == Some(t)
    ensures Safe(setup, t) && Grows(s, t)
  {
    SurroundingsKeep(setup, s, t.cursor, t.local);
    assert t == s.(cursor := t.cursor, local := t.local);
  }

  lemma {:induction false} WindowKeeps(setup: Setup, s: State, p: nat, next: Cursor, finalItem: Option<RemoteItem>,
                                       t: State)
    requires Safe(setup, s) && Proceeds(setup, s, CommitWindow(p, next, finalItem)) == Some(t)
    ensures Safe(setup, t) && Grows(s, t)
  {
    var c := s.processes[p];
    assert ProcessOk(setup, s, c);
    var judged := Judged(c.generation, c.fingerprint, c.floor, c.window, c.lookup, finalItem);
    BecomeKeeps(setup, s, p, judged);
    SurroundingsKeep(setup, Become(s, p, judged), next, s.local);
  }

  lemma {:induction false} SendKeeps(setup: Setup, s: State, e: Event, t: State)
    requires Safe(setup, s) && (e.SendPart? || e.SendFinal? || e.Arrive?) && Proceeds(setup, s, e) == Some(t)
    ensures Safe(setup, t) && Grows(s, t)
  {
    var k := if e.Arrive? then e.attempt else s.processes[e.p].attempt;
    assert e.Arrive? || ProcessOk(setup, s, s.processes[e.p]);
    assert SessionOk(setup, s.intent, k, s.sessions[k]);
    SessionMoves(setup, s, k, t.sessions[k]);
  }

  lemma {:induction false} StepKeeps(setup: Setup, s: State, e: Event, t: State)
    requires Safe(setup, s) && Step(setup, s, e, t)
    ensures Safe(setup, t) && Grows(s, t)
  {
    if Proceeds(setup, s, e) == Some(t) {
      match e
      case Initiate(p) => OpenKeeps(setup, s, p, t);
      case SendPart(p, upTo) => SendKeeps(setup, s, e, t);
      case SendFinal(p) => SendKeeps(setup, s, e, t);
      case Arrive(k, upTo) => SendKeeps(setup, s, e, t);
      case Create(k, version) => CreateKeeps(setup, s, k, version, t);
      case Meddle(file) => MeddleKeeps(setup, s, file, t);
      case CommitWindow(p, next, finalItem) => WindowKeeps(setup, s, p, next, finalItem, t);
    } else if Surrounds(setup, s, e) == Some(t) {
      OtherKeeps(setup, s, e, t);
    } else {
      CommandKeeps(setup, s, e, t);
    }
  }

  /** What holds at the start and is kept by each step holds throughout; what relates neighbours relates any two. */
  lemma {:induction false} RunInduction(step: (State, Event, State) -> bool, good: State -> bool,
                                        related: (State, State) -> bool,
                                        states: seq<State>, events: seq<Event>, i: nat, j: nat)
    requires |states| == |events| + 1 && i <= j < |states| && good(states[0])
    requires forall k :: 0 <= k < |events| ==> step(states[k], events[k], states[k + 1])
    requires forall s, e, t :: good(s) && step(s, e, t) ==> good(t) && related(s, t)
    requires (forall s :: related(s, s)) && (forall s, t, u :: related(s, t) && related(t, u) ==> related(s, u))
    ensures good(states[i]) && good(states[j]) && related(states[i], states[j])
    decreases j
  {
    if j > 0 {
      var k := j - 1;
      if i < j {
        RunInduction(step, good, related, states, events, i, k);
      } else {
        RunInduction(step, good, related, states, events, k, k);
      }
      assert step(states[k], events[k], states[k + 1]);
      assert related(states[j], states[j]);
    }
  }

  /** Over every run, from every start: safe in each state, and nothing taken back between any two. */
  lemma {:induction false} RunIsSafe(setup: Setup, states: seq<State>, events: seq<Event>, i: nat, j: nat)
    requires IsExecution(setup, states, events) && IsStart(setup, states[0]) && i <= j < |states|
    ensures Safe(setup, states[i]) && Safe(setup, states[j]) && Grows(states[i], states[j])
  {
    StartIsSafe(setup, states[0]);
    forall s, e, t | Safe(setup, s) && Step(setup, s, e, t)
      ensures Safe(setup, t) && Grows(s, t)
    {
      StepKeeps(setup, s, e, t);
    }
    GrowsIsOrder();
    RunInduction((s, e, t) => Step(setup, s, e, t), s => Safe(setup, s), (s, t) => Grows(s, t), states, events, i, j);
  }

  lemma {:induction false} StartIsSafe(setup: Setup, s: State)
    requires IsStart(setup, s)
    ensures Safe(setup, s)
  {
    assert |s.sessions| == 0;
  }

  lemma {:induction false} GrowsIsOrder()
    ensures forall s: State :: Grows(s, s)
    ensures forall s: State, t: State, u: State :: Grows(s, t) && Grows(t, u) ==> Grows(s, u)
  {
  }

  /**
   Crash safety. In every reachable state no more sessions were opened than attempts are durable,
   what this protocol put under the id has exactly the durable size and digest, and an awaiting or
   confirmed intent names a version at which the right file did stand there.
   */
  lemma {:induction false} CrashSafety(setup: Setup, states: seq<State>, events: seq<Event>, i: nat)
    requires IsExecution(setup, states, events) && IsStart(setup, states[0]) && i < |states|
    ensures states[i].initiated <= states[i].intent.attemptCount
    ensures states[i].current.Some? && states[i].current.value.ours
            ==> states[i].intent.fingerprint == Some(FingerprintOf(setup, states[i].current.value.content))
    ensures states[i].intent.status.AwaitingConfirmation? || states[i].intent.status.Confirmed?
            ==> states[i].intent.fingerprint.Some? && states[i].intent.remoteVersion.Some?
                && WasExact(setup, states[i].past, states[i].intent.fingerprint.value,
                            states[i].intent.remoteVersion.value)
  {
    RunIsSafe(setup, states, events, i, i);
    AttemptsBoundSessions(setup, states[i]);
  }

  lemma {:induction false} AttemptsBoundSessions(setup: Setup, s: State)
    requires SessionsOk(setup, s)
    ensures s.initiated <= s.intent.attemptCount
  {
    var attempts := UpTo(s.intent.attemptCount);
    forall k | k in s.sessions
      ensures k in attempts
    {
      assert SessionOk(setup, s.intent, k, s.sessions[k]);
    }
    SubsetIsSmaller(s.sessions.Keys, attempts);
    assert |s.sessions.Keys| == |s.sessions|;
  }

  lemma {:induction false} SubsetIsSmaller(a: set<nat>, b: set<nat>)
    requires a <= b
    ensures |a| <= |b|
  {
    assert a + (b - a) == b;
  }

  function UpTo(n: nat): (r: set<nat>)
    ensures |r| == n && forall k: nat :: k in r <==> 1 <= k <= n
  {
    if n == 0 then {} else UpTo(n - 1) + {n}
  }
}
