/** The durable row of one file-create intent and the compare-and-set updates that storage offers on it. */
module FileCreateIntent {
  import opened Wrappers

  const I64_MAX := 0x7FFF_FFFF_FFFF_FFFF

  type Cursor = nat

  datatype Status = Planned | Submitted | AwaitingConfirmation | Confirmed | Conflict | Failed

  datatype Fingerprint = Fingerprint(sizeBytes: nat, sha256Hex: string)

  datatype Intent = Intent(
    status: Status,
    executionGeneration: nat,
    attemptCount: nat,
    preSubmitCursor: Option<Cursor>,
    fingerprint: Option<Fingerprint>,
    remoteVersion: Option<nat>,
    localSizeBytes: nat)

  datatype IntentError = InvalidTransition | PreconditionFailed | CompareAndSetFailed | NumericOverflow

  /**
   An update request. `ready` stands for the other durable facts that begin and restart demand: two-way
   mode, a valid local inventory, a pending creation, a caught-up catalog, no open change window, and
   write authority on the parent.
   */
  datatype Update =
    | RecordFingerprint(generation: nat, fingerprint: Fingerprint)
    | CompleteUpload(generation: nat, version: nat)
    | Begin(generation: nat, cursor: Cursor, durableCursor: Cursor, ready: bool)
    | Restart(generation: nat, attempts: nat, cursor: Cursor, durableCursor: Cursor, ready: bool)
    | RecoverConflict(generation: nat, attempts: nat, settled: bool)
    | Transition(expected: Status, generation: nat, next: Status)

  predicate TransitionAllowed(expected: Status, next: Status) {
    || (expected.Submitted? && (next.Conflict? || next.Failed?))
    || (expected.AwaitingConfirmation? && (next.Confirmed? || next.Conflict?))
  }

  function Apply(intent: Intent, update: Update): Result<Intent, IntentError> {
    match update
    case RecordFingerprint(generation, fingerprint) =>
      if fingerprint.sizeBytes == 0 then Err(InvalidTransition)
      else if intent.status.Submitted? && intent.executionGeneration == generation
              && (intent.fingerprint.None? || intent.fingerprint == Some(fingerprint))
      then Ok(intent.(fingerprint := Some(fingerprint)))
      else Err(CompareAndSetFailed)
    case CompleteUpload(generation, version) =>
      if version == 0 then Err(InvalidTransition)
      else if intent.fingerprint.None? || intent.fingerprint.value.sizeBytes == 0 then Err(PreconditionFailed)
      else if intent.status.Submitted? && intent.executionGeneration == generation
      then Ok(intent.(status := AwaitingConfirmation, executionGeneration := generation + 1,
                      remoteVersion := Some(version)))
      else Err(CompareAndSetFailed)
    case Begin(generation, cursor, durableCursor, ready) =>
      if !intent.status.Planned? || intent.executionGeneration != generation || durableCursor != cursor || !ready then
        Err(PreconditionFailed)
      else Ok(intent.(status := Submitted, attemptCount := intent.attemptCount + 1,
                      executionGeneration := generation + 1,
                      preSubmitCursor := Some(cursor)))
    case Restart(generation, attempts, cursor, durableCursor, ready) =>
      if attempts == 0 then Err(InvalidTransition)
      else if generation + 1 > I64_MAX || attempts + 1 > I64_MAX then Err(NumericOverflow)
      else if !intent.status.Submitted? || intent.executionGeneration != generation || intent.attemptCount != attempts
              || intent.localSizeBytes == 0 || intent.remoteVersion.Some?
              || (intent.fingerprint.Some? && intent.fingerprint.value.sizeBytes != intent.localSizeBytes)
              || durableCursor != cursor || !ready
      then Err(PreconditionFailed)
      else Ok(intent.(attemptCount := attempts + 1, executionGeneration := generation + 1,
                      preSubmitCursor := Some(cursor)))
    case RecoverConflict(generation, attempts, settled) =>
      if generation == 0 || attempts == 0 then Err(InvalidTransition)
      else if intent.status.Conflict? && intent.executionGeneration == generation && intent.attemptCount == attempts
              && intent.preSubmitCursor.Some? && intent.remoteVersion.Some? && intent.fingerprint.Some? && !settled
      then Ok(intent.(status := Confirmed, executionGeneration := generation + 1))
      else Err(CompareAndSetFailed)
    case Transition(expected, generation, next) =>
      if !TransitionAllowed(expected, next) then Err(InvalidTransition)
      else if intent.status == expected && intent.executionGeneration == generation
      then Ok(intent.(status := next, executionGeneration := generation + 1))
      else Err(CompareAndSetFailed)
  }

  /** What each status promises about the row. */
  predicate Valid(intent: Intent) {
    && (intent.fingerprint.Some? ==> intent.fingerprint.value.sizeBytes > 0)
    && (intent.remoteVersion.Some? ==> intent.remoteVersion.value > 0 && intent.fingerprint.Some?)
    && match intent.status
       case Planned =>
         intent.attemptCount == 0 && intent.preSubmitCursor.None? && intent.fingerprint.None?
           && intent.remoteVersion.None?
       case Submitted => intent.attemptCount > 0 && intent.preSubmitCursor.Some? && intent.remoteVersion.None?
       case AwaitingConfirmation =>
         intent.attemptCount > 0 && intent.preSubmitCursor.Some? && intent.remoteVersion.Some?
       case Confirmed => intent.attemptCount > 0 && intent.preSubmitCursor.Some? && intent.remoteVersion.Some?
       case Conflict => intent.attemptCount > 0 && intent.preSubmitCursor.Some?
       case Failed => intent.attemptCount > 0 && intent.preSubmitCursor.Some?
  }

  /** How far along its life an intent is; conflict may still be recovered. */
  function Stage(status: Status): nat {
    match status
    case Planned => 0
    case Submitted => 1
    case AwaitingConfirmation => 2
    case Conflict => 3
    case Confirmed => 4
    case Failed => 4
  }

  /** What no update ever takes back. */
  predicate Advances(before: Intent, after: Intent) {
    && Stage(before.status) <= Stage(after.status) && (Stage(before.status) == 4 ==> before.status == after.status)
    && before.executionGeneration <= after.executionGeneration
    && (before.status != after.status || before.attemptCount != after.attemptCount
        ==> before.executionGeneration < after.executionGeneration)
    && before.attemptCount <= after.attemptCount
    && (before.fingerprint.Some? ==> after.fingerprint == before.fingerprint)
    && (before.remoteVersion.Some? ==> after.remoteVersion == before.remoteVersion)
    && before.localSizeBytes == after.localSizeBytes
  }

  /**
   Every update keeps the promises of the statuses and takes nothing back: the life only moves forward,
   never to planned again, a digest and a version once stored stay, and every change of status or of the
   attempt count gets a new generation, so no older request can succeed afterwards.
   */
  lemma {:induction false} UpdateAdvances(intent: Intent, update: Update)
    requires Valid(intent) && Apply(intent, update).Ok?
    ensures Valid(Apply(intent, update).value)
    ensures Advances(intent, Apply(intent, update).value)
    ensures !Apply(intent, update).value.status.Planned?
    ensures update.generation == intent.executionGeneration
    ensures intent.status.Planned? <==> update.Begin?
  {
    var after := Apply(intent, update).value;
    if update.Transition? {
      assert TransitionAllowed(update.expected, update.next);
      assert Stage(update.expected) < Stage(update.next);
      assert after.status == update.next;
    }
  }

  /** The row is the one that the request was made from. */
  predicate IsSeen(intent: Intent, status: Status, generation: nat) {
    intent.status == status && intent.executionGeneration == generation
  }

  /** Which requests succeed on which rows. */
  lemma {:induction false} UpdateSucceedsIff(intent: Intent, update: Update)
    ensures var r := Apply(intent, update);
            match update
            case RecordFingerprint(g, found) =>
              r.Ok?
              <==> IsSeen(intent, Submitted, g) && found.sizeBytes > 0 && intent.fingerprint in {None, Some(found)}
            case CompleteUpload(g, version) =>
              r.Ok? <==> && IsSeen(intent, Submitted, g) && version > 0
                         && intent.fingerprint.Some? && intent.fingerprint.value.sizeBytes > 0
            case Begin(g, cursor, durable, ready) =>
              r.Ok? <==> IsSeen(intent, Planned, g) && cursor == durable && ready
            case Restart(g, attempts, cursor, durable, ready) =>
              r.Ok? <==> && IsSeen(intent, Submitted, g) && cursor == durable && ready
                         && intent.attemptCount == attempts && 0 < attempts < I64_MAX && g < I64_MAX
                         && intent.localSizeBytes > 0 && intent.remoteVersion.None?
                         && (intent.fingerprint.Some? ==> intent.fingerprint.value.sizeBytes == intent.localSizeBytes)
            case RecoverConflict(g, attempts, settled) =>
              r.Ok? <==> && IsSeen(intent, Conflict, g) && g > 0 && intent.attemptCount == attempts && attempts > 0
                         && intent.preSubmitCursor.Some? && intent.remoteVersion.Some? && intent.fingerprint.Some?
                         && !settled
            case Transition(expected, g, next) =>
              r.Ok? <==> && IsSeen(intent, expected, g)
                         && (|| (expected == Submitted && next in {Conflict, Failed})
                             || (expected == AwaitingConfirmation && next in {Confirmed, Conflict}))
  {
  }

  /** What a successful request leaves: one new status, a new generation, and the facts it brings; all else stays. */
  lemma {:induction false} UpdateLeaves(intent: Intent, update: Update)
    requires Apply(intent, update).Ok?
    ensures var after, g := Apply(intent, update).value, intent.executionGeneration + 1;
            after == match update
                     case RecordFingerprint(_, found) => intent.(fingerprint := Some(found))
                     case CompleteUpload(_, version) =>
                       intent.(status := AwaitingConfirmation, executionGeneration := g, remoteVersion := Some(version))
                     case Begin(_, cursor, _, _) =>
                       intent.(status := Submitted, executionGeneration := g, preSubmitCursor := Some(cursor),
                               attemptCount := intent.attemptCount + 1)
                     case Restart(_, _, cursor, _, _) =>
                       intent.(executionGeneration := g, preSubmitCursor := Some(cursor),
                               attemptCount := intent.attemptCount + 1)
                     case RecoverConflict(_, _, _) => intent.(status := Confirmed, executionGeneration := g)
                     case Transition(_, _, next) => intent.(status := next, executionGeneration := g)
  {
  }

  /** A request made from an older row is refused. */
  lemma {:induction false} StaleUpdateFails(seen: Intent, now: Intent, first: Update, second: Update)
    requires Valid(seen) && first.generation == second.generation == seen.executionGeneration
    requires Apply(seen, first) == Ok(now) && !first.RecordFingerprint?
    ensures Apply(now, second).Err?
  {
    UpdateAdvances(seen, first);
    if Apply(now, second).Ok? {
      UpdateAdvances(now, second);
    }
  }
}
