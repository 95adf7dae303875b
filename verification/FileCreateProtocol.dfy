/**
 The file-create protocol as a state machine: any number of command processes that may crash at any
 point, the durable intent row, and a provider that receives what was sent at its own pace.
 */
module FileCreateProtocol {
  import opened Wrappers
  import opened UploadBuffer
  import opened RemoteCatalog
  import opened FileCreateIntent
  import opened FileCreateEvidence

  type Hash = Bytes -> string

  /** What is fixed for one intent: the digest function, where the file belongs, and its local generation. */
  datatype Setup = Setup(hash: Hash, target: Target, baselineGeneration: nat)

  /** A file that stands under the predetermined id; `ours` until others change its content. */
  datatype RemoteFile = RemoteFile(
    content: Bytes,
    version: nat,
    ours: bool,
    name: string,
    parent: Option<Id>,
    mimeExpected: bool,
    trashed: bool)

  /**
   The other durable facts about the root that the commands check: its mode, the generation of the local
   inventory, whether the intent's source event is pending, how many other file creates await
   confirmation, and how many other creations of this generation are confirmed but not yet settled.
   */
  datatype Local = Local(twoWay: bool, generation: nat, pending: bool, rivals: nat, unsettled: nat)

  /** One resumable session: its source, how much of it was offered, and how much has arrived. */
  datatype Session = Session(content: Bytes, sentTo: nat, received: nat, finished: bool)

  datatype Lookup = Missing | Mismatch | Exact(version: nat)

  datatype Completion = Completion(version: nat, sha256Checksum: Option<string>)

  /** A running command and what it holds in memory. Absence from the process map means not running. */
  datatype Process =
    | Submitting(content: Bytes, generation: nat)
    | Begun(content: Bytes, generation: nat, attempt: nat, evidence: Option<Fingerprint>)
    | Uploading(content: Bytes, generation: nat, attempt: nat, evidence: Option<Fingerprint>, durable: bool)
    | Completed(generation: nat, fingerprint: Fingerprint, completion: Completion)
    | Witnessed(generation: nat, fingerprint: Fingerprint, version: nat)
    | Clashing(generation: nat)
    | Hashing(content: Bytes, generation: nat)
    | Recovering(generation: nat, attempts: nat, fingerprint: Fingerprint)
    | Rechecking(content: Bytes, generation: nat, attempts: nat, fingerprint: Fingerprint)
    | Restarting(content: Bytes, generation: nat, attempts: nat, fingerprint: Fingerprint)
    | Confirming(generation: nat, fingerprint: Fingerprint, floor: nat)
    | Judging(generation: nat, fingerprint: Fingerprint, floor: nat, window: seq<RemoteChange>, lookup: Lookup)
    | Judged(generation: nat, fingerprint: Fingerprint, floor: nat, window: seq<RemoteChange>, lookup: Lookup,
             finalItem: Option<RemoteItem>)
    | Rescuing(generation: nat, attempts: nat, fingerprint: Fingerprint, floor: nat, version: nat, item: RemoteItem)

  /** `initiated` counts session initiations; `past` holds everything that ever stood under the id. */
  datatype State = State(
    intent: Intent,
    cursor: Cursor,
    local: Local,
    processes: map<nat, Process>,
    sessions: map<nat, Session>,
    initiated: nat,
    current: Option<RemoteFile>,
    past: set<RemoteFile>)

  datatype Event =
    | Stop(p: nat)
    | StartSubmit(p: nat, content: Bytes)
    | CommitBegin(p: nat, ready: bool)
    | Initiate(p: nat)
    | SendPart(p: nat, upTo: nat)
    | StoreFingerprint(p: nat)
    | SendFinal(p: nat)
    | HearCompletion(p: nat, completion: Completion)
    | JudgeCompletion(p: nat, lookup: Lookup)
    | CommitCompletion(p: nat)
    | CommitClash(p: nat)
    | StartRecover(p: nat, content: Bytes)
    | StoreRecoveredFingerprint(p: nat)
    | FirstLookup(p: nat, lookup: Lookup, content: Bytes)
    | SecondLookup(p: nat, lookup: Lookup)
    | CommitRestart(p: nat, ready: bool)
    | StartConfirm(p: nat)
    | ObserveTarget(p: nat, window: seq<RemoteChange>, lookup: Lookup)
    | CommitWindow(p: nat, next: Cursor, finalItem: Option<RemoteItem>)
    | CommitVerdict(p: nat)
    | StartRescue(p: nat, item: Option<RemoteItem>, lookup: Lookup)
    | CommitRescue(p: nat, settled: bool)
    | Arrive(attempt: nat, upTo: nat)
    | Create(attempt: nat, version: nat)
    | Meddle(file: Option<RemoteFile>)
    | AdvanceCursor(next: Cursor)
    | ConfirmOther(next: Cursor)
    | Settle
    | Journal(present: bool)
    | RivalAwaits
    | RivalSettles(next: Cursor)
    | LeaveTwoWay
    | CaptureBaseline

  function FingerprintOf(setup: Setup, content: Bytes): Fingerprint {
    Fingerprint(|content|, setup.hash(content))
  }

  predicate InPlace(target: Target, file: RemoteFile) {
    file.name == target.name && file.parent == Some(target.parent) && file.mimeExpected && !file.trashed
  }

  /** What an upload under the intent makes of `content`. */
  function Uploaded(target: Target, content: Bytes, version: nat): RemoteFile {
    RemoteFile(content, version, true, target.name, Some(target.parent), true, false)
  }

  /** The metadata of a file as changes and the catalog carry it. */
  predicate Depicts(target: Target, file: RemoteFile, item: RemoteItem) {
    && item.remoteId == target.id && item.name == file.name && item.kind.File? && item.trashed == file.trashed
    && item.parentRemoteId == file.parent && (item.sizeBytes.Some? ==> item.sizeBytes.value == |file.content|)
  }

  ghost predicate Depicted(target: Target, past: set<RemoteFile>, item: RemoteItem) {
    exists o :: o in past && Depicts(target, o, item)
  }

  /** What the change feed says about the target was true of it at some time. */
  ghost predicate IsTruthful(target: Target, past: set<RemoteFile>, window: seq<RemoteChange>) {
    forall i {:trigger window[i]} ::
      0 <= i < |window| && window[i].Upsert? && window[i].item.remoteId == target.id
      ==> Depicted(target, past, window[i].item)
  }

  predicate Shows(setup: Setup, file: RemoteFile, fingerprint: Fingerprint, version: nat) {
    InPlace(setup.target, file) && FingerprintOf(setup, file.content) == fingerprint && file.version == version
      && version > 0
  }

  /** A truthful lookup; the provider may leave the checksum out, which reads as a mismatch. */
  predicate Answers(setup: Setup, current: Option<RemoteFile>, fingerprint: Fingerprint, lookup: Lookup) {
    match lookup
    case Missing => current.None?
    case Mismatch => current.Some?
    case Exact(version) => current.Some? && Shows(setup, current.value, fingerprint, version)
  }

  /** A truthful completion of a session: about the object that the session's content became. */
  ghost predicate Reports(setup: Setup, s: State, session: Session, completion: Completion) {
    && session.finished
    && (exists o ::
        o in s.past && o.content == session.content
          && Shows(setup, o, FingerprintOf(setup, session.content), completion.version))
    && (completion.sha256Checksum.Some? ==> completion.sha256Checksum.value == setup.hash(session.content))
  }

  function FloorMet(floor: nat, version: nat): bool {
    floor > 0 && version > 0 && version >= floor
  }

  function Verdict(target: Target, size: nat, floor: nat, window: seq<RemoteChange>, lookup: Lookup,
                   finalItem: Option<RemoteItem>): Status {
    if LastTargetExact(target, size, window) == Some(true) && FinalExact(target, size, finalItem)
       && lookup.Exact? && FloorMet(floor, lookup.version)
    then Confirmed else Conflict
  }

  /** The local inventory is still the one that the intent was planned on, with its source event pending. */
  predicate IsSteady(setup: Setup, local: Local) {
    local.generation == setup.baselineGeneration && local.pending
  }

  /** The steps that belong to one command. */
  predicate IsOwn(e: Event) {
    !e.Arrive? && !e.Create? && !e.Meddle? && !IsOther(e)
  }

  /** The steps of other intents and of the root, which change neither the row nor the file. */
  predicate IsOther(e: Event) {
    || e.AdvanceCursor? || e.ConfirmOther? || e.Settle? || e.Journal? || e.RivalAwaits? || e.RivalSettles?
    || e.LeaveTwoWay? || e.CaptureBaseline?
  }

  function Become(s: State, p: nat, process: Process): State {
    s.(processes := s.processes[p := process])
  }

  function Gone(s: State, p: nat): State {
    s.(processes := s.processes - {p})
  }

  /** A row update, and what the command goes on as when it succeeds; on failure the command ends. */
  datatype Commit = Commit(update: Update, process: Option<Process>)

  function Store(s: State, p: nat, commit: Commit): State {
    var stored := Apply(s.intent, commit.update);
    if stored.Err? then Gone(s, p)
    else if commit.process.None? then Gone(s, p).(intent := stored.value)
    else Become(s, p, commit.process.value).(intent := stored.value)
  }

  /** A command starts: it reads the row, opens the local file, and checks its own preconditions. */
  ghost function StartOf(setup: Setup, s: State, e: Event): Option<Process> {
    var row := s.intent;
    match e
    case StartSubmit(p, content) =>
      if s.local.twoWay && row.status.Planned? && |content| == row.localSizeBytes > 0
      then Some(Submitting(content, row.executionGeneration)) else None
    case StartRecover(p, content) =>
      if !s.local.twoWay || !row.status.Submitted? || row.attemptCount == 0 then None
      else if row.fingerprint.None? then
        if |content| == row.localSizeBytes > 0 then Some(Hashing(content, row.executionGeneration)) else None
      else if row.fingerprint.value.sizeBytes == row.localSizeBytes then
        Some(Recovering(row.executionGeneration, row.attemptCount, row.fingerprint.value))
      else None
    case StartConfirm(p) =>
      if s.local.twoWay && row.status.AwaitingConfirmation? && s.local.rivals == 0
         && row.preSubmitCursor.Some? && row.fingerprint.Some? && row.remoteVersion.Some?
         && row.fingerprint.value.sizeBytes == row.localSizeBytes
         && IsSteady(setup, s.local) && row.preSubmitCursor == Some(s.cursor)
      then Some(Confirming(row.executionGeneration, row.fingerprint.value, row.remoteVersion.value)) else None
    case StartRescue(p, item, lookup) =>
      if s.local.twoWay && row.status.Conflict? && row.attemptCount == 1 && row.preSubmitCursor.Some?
         && row.fingerprint.Some? && row.remoteVersion.Some? && row.fingerprint.value.sizeBytes == row.localSizeBytes
         && IsSteady(setup, s.local) && FinalExact(setup.target, row.fingerprint.value.sizeBytes, item)
         && Depicted(setup.target, s.past, item.value)
         && Answers(setup, s.current, row.fingerprint.value, lookup) && lookup.Exact?
         && FloorMet(row.remoteVersion.value, lookup.version)
      then Some(Rescuing(row.executionGeneration, 1, row.fingerprint.value, row.remoteVersion.value, lookup.version,
                         item.value)) else None
    case _ => None
  }

  ghost function Starts(setup: Setup, s: State, e: Event): Option<State> {
    var process := StartOf(setup, s, e);
    if IsOwn(e) && process.Some? && e.p !in s.processes then Some(Become(s, e.p, process.value)) else None
  }

  /** What follows a lookup during recovery: settle on what stands there, or go on as `otherwise`. */
  function AfterLookup(generation: nat, fingerprint: Fingerprint, lookup: Lookup, otherwise: Process): Process {
    match lookup
    case Missing => otherwise
    case Mismatch => Clashing(generation)
    case Exact(version) => Witnessed(generation, fingerprint, version)
  }

  /** What the command `c` goes on as after learning something; Some(None) when it ends. */
  ghost function LessonOf(setup: Setup, s: State, c: Process, e: Event): Option<Option<Process>> {
    match e
    case HearCompletion(p, completion) =>
      if c.Uploading? && c.durable && c.attempt in s.sessions && Reports(setup, s, s.sessions[c.attempt], completion)
      then Some(Some(Completed(c.generation, FingerprintOf(setup, c.content), completion))) else None
    case JudgeCompletion(p, lookup) =>
      if !c.Completed? then None
      else if c.completion.sha256Checksum.Some? then
        Some(Some(if c.completion.sha256Checksum.value == c.fingerprint.sha256Hex
                  then Witnessed(c.generation, c.fingerprint, c.completion.version) else Clashing(c.generation)))
      else if !Answers(setup, s.current, c.fingerprint, lookup) then None
      else if lookup.Missing? then Some(None)
      else Some(Some(AfterLookup(c.generation, c.fingerprint, lookup, c)))
    case FirstLookup(p, lookup, content) =>
      if c.Recovering? && Answers(setup, s.current, c.fingerprint, lookup) && |content| == c.fingerprint.sizeBytes
      then Some(Some(AfterLookup(c.generation, c.fingerprint, lookup,
                                 Rechecking(content, c.generation, c.attempts, c.fingerprint)))) else None
    case SecondLookup(p, lookup) =>
      if c.Rechecking? && Answers(setup, s.current, c.fingerprint, lookup)
      then Some(Some(AfterLookup(c.generation, c.fingerprint, lookup,
                                 Restarting(c.content, c.generation, c.attempts, c.fingerprint)))) else None
    case ObserveTarget(p, window, lookup) =>
      if !c.Confirming? || !IsTruthful(setup.target, s.past, window) then None
      else if LastTargetExact(setup.target, c.fingerprint.sizeBytes, window).None? then Some(None)
      else if !Answers(setup, s.current, c.fingerprint, lookup) then None
      else Some(Some(Judging(c.generation, c.fingerprint, c.floor, window, lookup)))
    case StoreFingerprint(p) =>
      if c.Uploading? && c.evidence.Some? && c.evidence.value.sha256Hex != setup.hash(c.content) then
        Some(None) else None
    case Stop(p) => Some(None)
    case _ => None
  }

  /** A command learns something and goes on; nothing durable changes. */
  ghost function Learns(setup: Setup, s: State, e: Event): Option<State> {
    if !IsOwn(e) || e.p !in s.processes then None
    else
      var lesson := LessonOf(setup, s, s.processes[e.p], e);
      if lesson.None? then None
      else if lesson.value.None? then Some(Gone(s, e.p))
      else Some(Become(s, e.p, lesson.value.value))
  }

  /** The row update that the command `c` asks for. */
  ghost function CommitOf(setup: Setup, s: State, c: Process, e: Event): Option<Commit> {
    match e
    case CommitBegin(p, ready) =>
      if c.Submitting? then
        var allowed := ready && s.local.twoWay && IsSteady(setup, s.local);
        Some(Commit(Begin(c.generation, s.cursor, s.cursor, allowed),
                    Some(Begun(c.content, c.generation + 1, s.intent.attemptCount + 1, None))))
      else None
    case CommitRestart(p, ready) =>
      if c.Restarting? then
        var allowed := ready && s.local.twoWay && IsSteady(setup, s.local);
        Some(Commit(Restart(c.generation, c.attempts, s.cursor, s.cursor, allowed),
                    Some(Begun(c.content, c.generation + 1, c.attempts + 1, Some(c.fingerprint)))))
      else None
    case StoreFingerprint(p) =>
      if c.Uploading? && (c.evidence.Some? ==> c.evidence.value.sha256Hex == setup.hash(c.content)) then
        Some(Commit(RecordFingerprint(c.generation, FingerprintOf(setup, c.content)), Some(c.(durable := true))))
      else None
    case StoreRecoveredFingerprint(p) =>
      if c.Hashing? then
        var found := FingerprintOf(setup, c.content);
        Some(Commit(RecordFingerprint(c.generation, found),
                    Some(Recovering(c.generation, s.intent.attemptCount, found))))
      else None
    case CommitCompletion(p) =>
      if c.Witnessed? then Some(Commit(CompleteUpload(c.generation, c.version), None)) else None
    case CommitClash(p) =>
      if c.Clashing? then Some(Commit(Transition(Submitted, c.generation, Conflict), None)) else None
    case CommitVerdict(p) =>
      if c.Judged? then
        var verdict := Verdict(setup.target, c.fingerprint.sizeBytes, c.floor, c.window, c.lookup, c.finalItem);
        Some(Commit(Transition(AwaitingConfirmation, c.generation, verdict), None))
      else None
    case CommitRescue(p, settled) =>
      if c.Rescuing? then Some(Commit(RecoverConflict(c.generation, c.attempts, settled), None)) else None
    case _ => None
  }

  ghost function Commits(setup: Setup, s: State, e: Event): Option<State> {
    if !IsOwn(e) || e.p !in s.processes then None
    else
      var commit := CommitOf(setup, s, s.processes[e.p], e);
      if commit.Some? then Some(Store(s, e.p, commit.value)) else None
  }

  /** Sessions are opened and fed, the provider works through what was sent, and others act. */
  ghost function Proceeds(setup: Setup, s: State, e: Event): Option<State> {
    match e
    case Initiate(p) =>
      if p in s.processes && s.processes[p].Begun? then
        var c := s.processes[p];
        Some(Become(s, p, Uploading(c.content, c.generation, c.attempt, c.evidence, false))
             .(sessions := s.sessions[c.attempt := Session(c.content, 0, 0, false)], initiated := s.initiated + 1))
      else None
    case SendPart(p, upTo) =>
      if p in s.processes && s.processes[p].Uploading? && s.processes[p].attempt in s.sessions
         && s.sessions[s.processes[p].attempt].sentTo < upTo < |s.processes[p].content|
      then Some(Offer(s, s.processes[p].attempt, upTo)) else None
    case SendFinal(p) =>
      if p in s.processes && s.processes[p].Uploading? && s.processes[p].attempt in s.sessions && s.processes[p].durable
      then Some(Offer(s, s.processes[p].attempt, |s.processes[p].content|)) else None
    case Arrive(k, upTo) =>
      if k in s.sessions && s.sessions[k].received < upTo <= s.sessions[k].sentTo
      then Some(s.(sessions := s.sessions[k := s.sessions[k].(received := upTo)])) else None
    case Create(k, version) =>
      if k in s.sessions && s.sessions[k].received == |s.sessions[k].content| && !s.sessions[k].finished
        && s.current.None? && version > 0 then
        var file := Uploaded(setup.target, s.sessions[k].content, version);
        Some(s.(sessions := s.sessions[k := s.sessions[k].(finished := true)], current := Some(file),
                past := s.past + {file}))
      else None
    case Meddle(file) =>
      if file.Some? && file.value.ours
        && (s.current.None? || !s.current.value.ours || s.current.value.content != file.value.content) then None
      else Some(s.(current := file, past := s.past + if file.Some? then {file.value} else {}))
    case CommitWindow(p, next, finalItem) =>
      if p in s.processes && s.processes[p].Judging? && s.cursor < next
         && (finalItem.Some? ==> Depicted(setup.target, s.past, finalItem.value))
      then
        var c := s.processes[p];
        Some(Become(s, p, Judged(c.generation, c.fingerprint, c.floor, c.window, c.lookup, finalItem)).(cursor := next))
      else None
    case _ => None
  }

  /**
   What the commands of other intents and of the root do to the durable facts around the intent. Settling a
   confirmed creation promotes it to a new local generation and supersedes all pending events; two-way mode
   is never entered again while an intent row exists; two awaiting file creates block each other.
   */
  function Surrounds(setup: Setup, s: State, e: Event): Option<State> {
    var local := s.local;
    match e
    case AdvanceCursor(next) =>
      if s.cursor < next then Some(s.(cursor := next)) else None
    case ConfirmOther(next) =>
      if local.twoWay && s.cursor < next
      then Some(s.(cursor := next, local := local.(unsettled := local.unsettled + 1))) else None
    case Settle =>
      if local.twoWay && (local.unsettled > 0 || s.intent.status.Confirmed?)
      then Some(s.(local := NextGeneration(local))) else None
    case Journal(present) =>
      if local.twoWay && local.generation == setup.baselineGeneration
      then Some(s.(local := local.(pending := present))) else None
    case RivalAwaits =>
      if local.twoWay then Some(s.(local := local.(rivals := local.rivals + 1))) else None
    case RivalSettles(next) =>
      if local.twoWay && local.rivals == 1 && !s.intent.status.AwaitingConfirmation? && s.cursor < next
      then Some(s.(cursor := next, local := local.(rivals := 0, unsettled := local.unsettled + 1))) else None
    case LeaveTwoWay =>
      if local.twoWay then Some(s.(local := local.(twoWay := false))) else None
    case CaptureBaseline =>
      if !local.twoWay then Some(s.(local := NextGeneration(local))) else None
    case _ => None
  }

  function NextGeneration(local: Local): Local {
    local.(generation := local.generation + 1, pending := false, unsettled := 0)
  }

  function Offer(s: State, k: nat, upTo: nat): State
    requires k in s.sessions
  {
    s.(sessions := s.sessions[k := s.sessions[k].(sentTo := upTo)])
  }

  ghost predicate Step(setup: Setup, s: State, e: Event, t: State) {
    Starts(setup, s, e) == Some(t) || Learns(setup, s, e) == Some(t) || Commits(setup, s, e) == Some(t)
      || Proceeds(setup, s, e) == Some(t)
    || Surrounds(setup, s, e) == Some(t)
  }

  /** The intent was just planned, which takes two-way mode and a pending event of the current generation. */
  ghost predicate IsStart(setup: Setup, s: State) {
    && s.intent.status.Planned? && Valid(s.intent)
    && s.local.twoWay && IsSteady(setup, s.local)
    && s.processes == map[] && s.sessions == map[] && s.initiated == 0 && s.current.None? && s.past == {}
  }

  /** Every step of `events` from `states[0]` is possible. */
  ghost predicate IsExecution(setup: Setup, states: seq<State>, events: seq<Event>) {
    && |states| == |events| + 1
    && forall i :: 0 <= i < |events| ==> Step(setup, states[i], events[i], states[i + 1])
  }
}
