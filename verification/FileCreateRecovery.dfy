/** Recovering a submission: what each lookup leads to, and that it settles what can be settled. */
module FileCreateRecovery {
  import opened Wrappers
  import opened UploadBuffer
  import opened FileCreateIntent
  import opened FileCreateProtocol
  import opened FileCreateSafety
  import opened FileCreateConfirmation

  /** The event tells the command that something else than the expected content stands, or came of its upload. */
  ghost predicate ShowsClash(c: Process, e: Event) {
    match e
    case FirstLookup(p, lookup, content) => lookup.Mismatch?
    case SecondLookup(p, lookup) => lookup.Mismatch?
    case JudgeCompletion(p, lookup) =>
      && c.Completed?
      && if c.completion.sha256Checksum.Some? then c.completion.sha256Checksum.value != c.fingerprint.sha256Hex
         else lookup.Mismatch?
    case _ => false
  }

  /** A command comes to store a conflict only on a mismatch, or on a foreign checksum of its own upload. */
  lemma {:induction false} ClashOnlyByMismatch(setup: Setup, s: State, e: Event, t: State, p: nat)
    requires Step(setup, s, e, t) && p in t.processes && t.processes[p].Clashing?
    requires p !in s.processes || !s.processes[p].Clashing?
    ensures p in s.processes && ShowsClash(s.processes[p], e) && e.p == p
  {
    if Learns(setup, s, e) == Some(t) {
      LessonClash(setup, s, s.processes[e.p], e);
    } else if Starts(setup, s, e) == Some(t) {
      StartIsNoClash(setup, s, e);
    } else if Commits(setup, s, e) == Some(t) {
      CommitIsNoClash(setup, s, s.processes[e.p], e);
    } else {
      OthersAreNoClash(setup, s, e, t, p);
    }
  }

  lemma {:induction false} LessonClash(setup: Setup, s: State, c: Process, e: Event)
    ensures var lesson := LessonOf(setup, s, c, e);
            lesson.Some? && lesson.value.Some? && lesson.value.value.Clashing? ==> ShowsClash(c, e)
  {
  }

  lemma {:induction false} StartIsNoClash(setup: Setup, s: State, e: Event)
    ensures StartOf(setup, s, e).Some? ==> !StartOf(setup, s, e).value.Clashing?
  {
  }

  lemma {:induction false} CommitIsNoClash(setup: Setup, s: State, c: Process, e: Event)
    ensures var commit := CommitOf(setup, s, c, e);
            commit.Some? && commit.value.process.Some? ==> !commit.value.process.value.Clashing?
  {
  }

  lemma {:induction false} OthersAreNoClash(setup: Setup, s: State, e: Event, t: State, p: nat)
    requires Proceeds(setup, s, e) == Some(t) || Surrounds(setup, s, e) == Some(t)
    requires p in t.processes && t.processes[p].Clashing?
    ensures p in s.processes && s.processes[p].Clashing?
  {
  }

  /** The row of a submitted intent turns to conflict only through a command that saw a clash. */
  lemma {:induction false} ConflictOnlyByClash(setup: Setup, s: State, e: Event, t: State)
    requires Step(setup, s, e, t) && s.intent.status.Submitted? && t.intent.status.Conflict?
    ensures e.CommitClash? && e.p in s.processes && s.processes[e.p].Clashing?
  {
    OnlyCommitsChangeIntent(setup, s, e, t);
  }

  /** What the first lookup leads to: settle what is exact, clash on a mismatch, and look again when nothing stands. */
  lemma {:induction false} FirstLookupLeads(setup: Setup, s: State, p: nat, lookup: Lookup, content: Bytes, t: State)
    requires p in s.processes && s.processes[p].Recovering? && Step(setup, s, FirstLookup(p, lookup, content), t)
    ensures p in t.processes && t.intent == s.intent
    ensures var c := s.processes[p];
            match lookup
            case Exact(version) => t.processes[p] == Witnessed(c.generation, c.fingerprint, version)
            case Mismatch => t.processes[p] == Clashing(c.generation)
            case Missing => t.processes[p] == Rechecking(content, c.generation, c.attempts, c.fingerprint)
  {
  }

  /** What the second lookup leads to: the same, but a restart when nothing stands. */
  lemma {:induction false} SecondLookupLeads(setup: Setup, s: State, p: nat, lookup: Lookup, t: State)
    requires p in s.processes && s.processes[p].Rechecking? && Step(setup, s, SecondLookup(p, lookup), t)
    ensures p in t.processes && t.intent == s.intent
    ensures var c := s.processes[p];
            match lookup
            case Exact(version) => t.processes[p] == Witnessed(c.generation, c.fingerprint, version)
            case Mismatch => t.processes[p] == Clashing(c.generation)
            case Missing => t.processes[p] == Restarting(c.content, c.generation, c.attempts, c.fingerprint)
  {
  }

  /** A submitted row with its digest, in two-way mode, and a command slot that is free. */
  ghost predicate MayRecover(setup: Setup, s: State, p: nat) {
    && Safe(setup, s) && s.intent.status.Submitted? && s.local.twoWay && p !in s.processes
    && s.intent.fingerprint.Some?
  }

  /** The file that was submitted stands: the first lookup finds it, and recovery ends with the intent awaiting. */
  lemma {:induction false} RecoveryFindsExact(setup: Setup, s: State, p: nat, version: nat, content: Bytes)
    returns (t: State)
    requires MayRecover(setup, s, p) && |content| == s.intent.localSizeBytes
    requires s.current.Some? && Shows(setup, s.current.value, s.intent.fingerprint.value, version)
    ensures ReachesCalmly(setup, s, t) && t.intent.status.AwaitingConfirmation?
    ensures t.intent.remoteVersion == Some(version) && t.intent.fingerprint == s.intent.fingerprint
    ensures t.intent.attemptCount == s.intent.attemptCount && t.current == s.current
  {
    var g, k, found := s.intent.executionGeneration, s.intent.attemptCount, s.intent.fingerprint.value;
    ReachesSelf(setup, s);
    var s1 := Become(s, p, Recovering(g, k, found));
    ReachesByStart(setup, s, s, StartRecover(p, content), s1);
    var s2 := Become(s1, p, Witnessed(g, found, version));
    ReachesByLesson(setup, s, s1, FirstLookup(p, Exact(version), content), s2);
    t := WitnessCompletes(setup, s, s2, p);
  }

  /** The same when the file appears only between the two lookups. */
  lemma {:induction false} RecoveryFindsLate(setup: Setup, s: State, p: nat, version: nat, content: Bytes, k: nat)
    returns (t: State)
    requires MayRecover(setup, s, p) && |content| == s.intent.localSizeBytes && s.current.None? && version > 0
    requires k in s.sessions && s.sessions[k].received == |s.sessions[k].content| && !s.sessions[k].finished
    ensures ReachesCalmly(setup, s, t) && t.intent.status.AwaitingConfirmation?
    ensures t.intent.remoteVersion == Some(version) && t.intent.fingerprint == s.intent.fingerprint
    ensures t.intent.attemptCount == s.intent.attemptCount
  {
    assert SessionOk(setup, s.intent, k, s.sessions[k]);
    var s1 := FirstLookupMisses(setup, s, p, content);
    var s2 := Proceeds(setup, s1, Create(k, version)).value;
    ReachesByProgress(setup, s, s1, Create(k, version), s2);
    t := SecondLookupFinds(setup, s, s2, p, version);
  }

  lemma {:induction false} SecondLookupFinds(setup: Setup, s: State, s3: State, p: nat, version: nat)
    returns (t: State)
    requires ReachesCalmly(setup, s, s3) && p in s3.processes && s3.processes[p].Rechecking?
    requires s3.intent.status.Submitted? && s3.intent.executionGeneration == s3.processes[p].generation
    requires s3.intent.fingerprint == Some(s3.processes[p].fingerprint) && s3.processes[p].fingerprint.sizeBytes > 0
    requires s3.current.Some? && Shows(setup, s3.current.value, s3.processes[p].fingerprint, version)
    ensures ReachesCalmly(setup, s, t) && t.intent.status.AwaitingConfirmation?
    ensures t.intent.remoteVersion == Some(version) && t.intent.fingerprint == s3.intent.fingerprint
    ensures t.intent.attemptCount == s3.intent.attemptCount
  {
    var c := s3.processes[p];
    var s4 := Become(s3, p, Witnessed(c.generation, c.fingerprint, version));
    ReachesByLesson(setup, s, s3, SecondLookup(p, Exact(version)), s4);
    t := WitnessCompletes(setup, s, s4, p);
  }

  lemma {:induction false} WitnessCompletes(setup: Setup, s: State, s2: State, p: nat) returns (t: State)
    requires ReachesCalmly(setup, s, s2) && p in s2.processes && s2.processes[p].Witnessed?
    requires s2.intent.status.Submitted? && s2.intent.executionGeneration == s2.processes[p].generation
    requires s2.intent.fingerprint.Some? && s2.intent.fingerprint.value.sizeBytes > 0 && s2.processes[p].version > 0
    ensures ReachesCalmly(setup, s, t) && t.intent.status.AwaitingConfirmation?
    ensures t.intent.remoteVersion == Some(s2.processes[p].version) && t.intent.fingerprint == s2.intent.fingerprint
    ensures t.intent.attemptCount == s2.intent.attemptCount && t.current == s2.current
  {
    var c := s2.processes[p];
    t := Store(s2, p, Commit(CompleteUpload(c.generation, c.version), None));
    ReachesByCommit(setup, s, s2, CommitCompletion(p), t);
  }

  /**
   Nothing stands and nothing is running: two lookups find nothing, a new attempt is made durable, and its session
   puts the file in place. The new fence is the cursor of the restart.
   */
  lemma {:induction false} RecoveryRestarts(setup: Setup, s: State, content: Bytes) returns (t: State)
    requires MayRecover(setup, s, 0) && s.processes == map[] && s.current.None? && IsSteady(setup, s.local)
    requires s.intent.fingerprint.value == FingerprintOf(setup, content) && |content| == s.intent.localSizeBytes > 0
    requires s.intent.executionGeneration < I64_MAX && s.intent.attemptCount < I64_MAX
    ensures ReachesCalmly(setup, s, t) && AwaitsInPlace(setup, t)
  {
    var s1 := FirstLookupMisses(setup, s, 0, content);
    var c := s1.processes[0];
    var s2 := Become(s1, 0, Restarting(c.content, c.generation, c.attempts, c.fingerprint));
    ReachesByLesson(setup, s, s1, SecondLookup(0, Missing), s2);
    t := RestartRunsOn(setup, s, s2, content, c.generation, c.attempts);
  }

  /** Started while nothing stands, recovery gets as far as its second lookup. */
  lemma {:induction false} FirstLookupMisses(setup: Setup, s: State, p: nat, content: Bytes) returns (t: State)
    requires MayRecover(setup, s, p) && s.current.None? && |content| == s.intent.localSizeBytes
    ensures ReachesCalmly(setup, s, t)
    ensures t == Become(s, p, Rechecking(content, s.intent.executionGeneration, s.intent.attemptCount,
                                         s.intent.fingerprint.value))
  {
    var g, n, found := s.intent.executionGeneration, s.intent.attemptCount, s.intent.fingerprint.value;
    ReachesSelf(setup, s);
    var s1 := Become(s, p, Recovering(g, n, found));
    ReachesByStart(setup, s, s, StartRecover(p, content), s1);
    t := Become(s1, p, Rechecking(content, g, n, found));
    ReachesByLesson(setup, s, s1, FirstLookup(p, Missing, content), t);
  }

  lemma {:induction false} NextAttemptIsUnused(setup: Setup, s: State)
    requires SessionsOk(setup, s)
    ensures s.intent.attemptCount + 1 !in s.sessions
  {
    forall k | k in s.sessions
      ensures k <= s.intent.attemptCount
    {
      assert SessionOk(setup, s.intent, k, s.sessions[k]);
    }
  }

  lemma {:induction false} RestartRunsOn(setup: Setup, s: State, s3: State, content: Bytes, g: nat, n: nat)
    returns (t: State)
    requires ReachesCalmly(setup, s, s3) && SessionsOk(setup, s3) && Valid(s3.intent) && s3.intent.status.Submitted?
    requires s3.processes == map[0 := Restarting(content, g, n, FingerprintOf(setup, content))]
    requires s3.intent.executionGeneration == g < I64_MAX && s3.intent.attemptCount == n < I64_MAX && content != []
    requires s3.intent.fingerprint == Some(FingerprintOf(setup, content)) && s3.intent.localSizeBytes == |content|
    requires s3.local.twoWay && IsSteady(setup, s3.local) && s3.current.None?
    ensures ReachesCalmly(setup, s, t) && AwaitsInPlace(setup, t)
  {
    var found := FingerprintOf(setup, content);
    var begun := Begun(content, g + 1, n + 1, Some(found));
    var s4 := Store(s3, 0, Commit(Restart(g, n, s3.cursor, s3.cursor, true), Some(begun)));
    ReachesByCommit(setup, s, s3, CommitRestart(0, true), s4);
    NextAttemptIsUnused(setup, s3);
    t := RunsOnFromBegun(setup, s, s4, content, g + 1, n + 1, Some(found));
  }

  /** Without a stored digest recovery hashes the file first, and then finds what stands. */
  lemma {:induction false} RecoveryHashesFirst(setup: Setup, s: State, p: nat, version: nat, content: Bytes)
    returns (t: State)
    requires Safe(setup, s) && s.intent.status.Submitted? && s.local.twoWay && p !in s.processes
    requires s.intent.fingerprint.None? && |content| == s.intent.localSizeBytes > 0
    requires s.current.Some? && Shows(setup, s.current.value, FingerprintOf(setup, content), version)
    ensures ReachesCalmly(setup, s, t) && t.intent.status.AwaitingConfirmation?
    ensures t.intent.remoteVersion == Some(version)
    ensures t.intent.fingerprint == Some(FingerprintOf(setup, content))
  {
    var g, n, found := s.intent.executionGeneration, s.intent.attemptCount, FingerprintOf(setup, content);
    ReachesSelf(setup, s);
    var s1 := Become(s, p, Hashing(content, g));
    ReachesByStart(setup, s, s, StartRecover(p, content), s1);
    var s2 := Store(s1, p, Commit(RecordFingerprint(g, found), Some(Recovering(g, n, found))));
    ReachesByCommit(setup, s, s1, StoreRecoveredFingerprint(p), s2);
    t := FirstLookupFinds(setup, s, s2, p, version, content);
  }

  lemma {:induction false} FirstLookupFinds(setup: Setup, s: State, s2: State, p: nat, version: nat, content: Bytes)
    returns (t: State)
    requires ReachesCalmly(setup, s, s2) && p in s2.processes && s2.processes[p].Recovering?
    requires s2.intent.status.Submitted? && s2.intent.executionGeneration == s2.processes[p].generation
    requires s2.intent.fingerprint == Some(s2.processes[p].fingerprint) && s2.processes[p].fingerprint.sizeBytes > 0
    requires s2.current.Some? && Shows(setup, s2.current.value, s2.processes[p].fingerprint, version)
    requires |content| == s2.processes[p].fingerprint.sizeBytes
    ensures ReachesCalmly(setup, s, t) && t.intent.status.AwaitingConfirmation?
    ensures t.intent.remoteVersion == Some(version) && t.intent.fingerprint == s2.intent.fingerprint
  {
    var c := s2.processes[p];
    var s3 := Become(s2, p, Witnessed(c.generation, c.fingerprint, version));
    ReachesByLesson(setup, s, s2, FirstLookup(p, Exact(version), content), s3);
    t := WitnessCompletes(setup, s, s3, p);
  }

  /** What a completion that was heard of leads to, by its checksum or, without one, by a lookup. */
  lemma {:induction false} CompletionLeads(setup: Setup, s: State, p: nat, lookup: Lookup, t: State)
    requires p in s.processes && s.processes[p].Completed? && Step(setup, s, JudgeCompletion(p, lookup), t)
    ensures t.intent == s.intent
    ensures var c := s.processes[p];
            var checksum := c.completion.sha256Checksum;
            if checksum == Some(c.fingerprint.sha256Hex) then
              p in t.processes && t.processes[p] == Witnessed(c.generation, c.fingerprint, c.completion.version)
            else if checksum.Some? || lookup.Mismatch? then
              p in t.processes && t.processes[p] == Clashing(c.generation)
            else if lookup.Missing? then p !in t.processes
            else p in t.processes && t.processes[p] == Witnessed(c.generation, c.fingerprint, lookup.version)
  {
  }

  /** A clash that was seen on the current row turns it to conflict. */
  lemma {:induction false} ClashIsStored(setup: Setup, s: State, p: nat, t: State)
    requires p in s.processes && s.processes[p].Clashing? && Step(setup, s, CommitClash(p), t)
    ensures s.intent.status.Submitted? && s.intent.executionGeneration == s.processes[p].generation
            ==> t.intent.status.Conflict? && t.intent.executionGeneration == s.intent.executionGeneration + 1
    ensures !s.intent.status.Submitted? || s.intent.executionGeneration != s.processes[p].generation
            ==> t.intent == s.intent
  {
  }

  /**
   A conflict of the first attempt whose file stands exactly, at the recorded version or later, and is in the
   catalog, can be recovered to confirmed.
   */
  lemma {:induction false} ConflictIsRecovered(setup: Setup, s: State, p: nat, version: nat) returns (t: State)
    requires Safe(setup, s) && s.intent.status.Conflict? && s.intent.attemptCount == 1 && p !in s.processes
    requires s.intent.remoteVersion.Some? && s.intent.remoteVersion.value <= version && s.intent.executionGeneration > 0
    requires s.local.twoWay && IsSteady(setup, s.local)
    requires s.current.Some? && Shows(setup, s.current.value, s.intent.fingerprint.value, version)
    ensures ReachesCalmly(setup, s, t) && t.intent.status.Confirmed?
  {
    var row, item := s.intent, ItemOf(setup.target, s.current.value);
    var c := Rescuing(row.executionGeneration, 1, row.fingerprint.value, row.remoteVersion.value, version, item);
    RescueMayStart(setup, s, p, version);
    ReachesSelf(setup, s);
    ReachesByStart(setup, s, s, StartRescue(p, Some(item), Exact(version)), Become(s, p, c));
    t := RescueCommits(setup, s, Become(s, p, c), p);
  }

  lemma {:induction false} RescueMayStart(setup: Setup, s: State, p: nat, version: nat)
    requires IntentOk(setup, s) && FilesOk(setup, s) && s.intent.status.Conflict? && s.intent.attemptCount == 1
    requires s.intent.remoteVersion.Some? && s.intent.remoteVersion.value <= version
    requires s.local.twoWay && IsSteady(setup, s.local)
    requires s.current.Some? && Shows(setup, s.current.value, s.intent.fingerprint.value, version)
    ensures var row, item := s.intent, ItemOf(setup.target, s.current.value);
            StartOf(setup, s, StartRescue(p, Some(item), Exact(version)))
            == Some(Rescuing(row.executionGeneration, 1, row.fingerprint.value, row.remoteVersion.value, version, item))
  {
    assert Depicts(setup.target, s.current.value, ItemOf(setup.target, s.current.value));
  }

  lemma {:induction false} RescueCommits(setup: Setup, s: State, s1: State, p: nat) returns (t: State)
    requires ReachesCalmly(setup, s, s1) && p in s1.processes && s1.processes[p].Rescuing?
    requires s1.intent.status.Conflict? && s1.intent.attemptCount == s1.processes[p].attempts > 0
    requires s1.intent.executionGeneration == s1.processes[p].generation > 0
    requires s1.intent.preSubmitCursor.Some? && s1.intent.remoteVersion.Some? && s1.intent.fingerprint.Some?
    ensures ReachesCalmly(setup, s, t) && t.intent.status.Confirmed?
  {
    var c := s1.processes[p];
    t := Store(s1, p, Commit(RecoverConflict(c.generation, c.attempts, false), None));
    ReachesByCommit(setup, s, s1, CommitRescue(p, false), t);
  }
}
