/** Confirming a file create: what it takes, and exactly when it is out of reach for good. */
module FileCreateConfirmation {
  import opened Wrappers
  import opened UploadBuffer
  import opened RemoteCatalog
  import opened FileCreateIntent
  import opened FileCreateEvidence
  import opened FileCreateProtocol
  import opened FileCreateSafety

  /** The catalog shows the file live, with the expected name, parent, kind and size. */
  predicate IsInPlace(setup: Setup, size: nat, item: RemoteItem) {
    && !item.trashed && item.kind.File? && item.name == setup.target.name
    && item.parentRemoteId == Some(setup.target.parent) && item.sizeBytes == Some(size)
  }

  /**
   What a confirming verdict rests on. The content was seen at the recorded version or later; the latest
   change to the target in the window, and the catalog afterwards, show it live with the expected name,
   parent, kind and size; and both were true of the file at some time.
   */
  ghost predicate VerdictEvidence(setup: Setup, s: State, c: Process) {
    && s.intent.status.AwaitingConfirmation? && c.Judged? && c.lookup.Exact?
    && s.intent.remoteVersion.Some? && c.lookup.version >= s.intent.remoteVersion.value
    && s.intent.fingerprint.Some? && WasExact(setup, s.past, s.intent.fingerprint.value, c.lookup.version)
    && LastChangeIsExact(setup.target, s.intent.fingerprint.value.sizeBytes, c.window)
    && IsTruthful(setup.target, s.past, c.window)
    && c.finalItem.Some? && IsInPlace(setup, s.intent.fingerprint.value.sizeBytes, c.finalItem.value)
    && Depicted(setup.target, s.past, c.finalItem.value)
  }

  /**
   What leaving a conflict rests on: a single attempt, the content seen at the recorded version or later,
   and a catalog item that shows the file live with the expected name, parent, kind and size.
   */
  ghost predicate RescueEvidence(setup: Setup, s: State, c: Process) {
    && s.intent.status.Conflict? && s.intent.attemptCount == 1 && c.Rescuing?
    && s.intent.remoteVersion.Some? && c.version >= s.intent.remoteVersion.value
    && s.intent.fingerprint.Some? && WasExact(setup, s.past, s.intent.fingerprint.value, c.version)
    && IsInPlace(setup, s.intent.fingerprint.value.sizeBytes, c.item)
    && Depicted(setup.target, s.past, c.item)
  }

  /** An intent becomes confirmed in two ways only, each with its evidence, and keeps its digest and version. */
  lemma {:induction false} ConfirmedOnlyByEvidence(setup: Setup, s: State, e: Event, t: State)
    requires Safe(setup, s) && Step(setup, s, e, t) && !s.intent.status.Confirmed? && t.intent.status.Confirmed?
    ensures t.intent.fingerprint == s.intent.fingerprint && t.intent.remoteVersion == s.intent.remoteVersion
    ensures e.CommitVerdict? || e.CommitRescue?
    ensures e.p in s.processes
    ensures if e.CommitVerdict? then VerdictEvidence(setup, s, s.processes[e.p])
            else RescueEvidence(setup, s, s.processes[e.p])
  {
    OnlyCommitsChangeIntent(setup, s, e, t);
    var c := s.processes[e.p];
    assert ProcessOk(setup, s, c);
    CommitsThatConfirm(setup, s, c, e);
  }

  lemma {:induction false} OnlyCommitsChangeIntent(setup: Setup, s: State, e: Event, t: State)
    requires Step(setup, s, e, t) && s.intent != t.intent
    ensures Commits(setup, s, e) == Some(t)
  {
  }

  lemma {:induction false} CommitsThatConfirm(setup: Setup, s: State, c: Process, e: Event)
    requires ProcessOk(setup, s, c) && CommitOf(setup, s, c, e).Some? && !s.intent.status.Confirmed?
    requires Apply(s.intent, CommitOf(setup, s, c, e).value.update).Ok?
    requires Apply(s.intent, CommitOf(setup, s, c, e).value.update).value.status.Confirmed?
    ensures (e.CommitVerdict? && VerdictEvidence(setup, s, c)) || (e.CommitRescue? && RescueEvidence(setup, s, c))
    ensures Apply(s.intent, CommitOf(setup, s, c, e).value.update).value.fingerprint == s.intent.fingerprint
    ensures Apply(s.intent, CommitOf(setup, s, c, e).value.update).value.remoteVersion == s.intent.remoteVersion
  {
    if e.CommitVerdict? {
      LastTargetExactIff(setup.target, c.fingerprint.sizeBytes, c.window);
    }
  }

  /** A verdict that is stored confirms if and only if it has its evidence, and otherwise is a conflict. */
  lemma {:induction false} VerdictConfirmsIff(setup: Setup, s: State, p: nat, t: State)
    requires Safe(setup, s) && p in s.processes && s.processes[p].Judged?
    requires Step(setup, s, CommitVerdict(p), t) && t.intent != s.intent
    ensures t.intent.status.Confirmed? <==> VerdictEvidence(setup, s, s.processes[p])
    ensures t.intent.status.Confirmed? || t.intent.status.Conflict?
  {
    var c := s.processes[p];
    assert ProcessOk(setup, s, c);
    OnlyCommitsChangeIntent(setup, s, CommitVerdict(p), t);
    LastTargetExactIff(setup.target, c.fingerprint.sizeBytes, c.window);
  }

  /** A confirmation that finds no change to the target ends and leaves everything durable as it was. */
  lemma {:induction false} UnobservedChangesNothing(setup: Setup, s: State, p: nat, window: seq<RemoteChange>,
                                                    lookup: Lookup, t: State)
    requires p in s.processes && s.processes[p].Confirming? && !Mentions(setup.target, window)
    requires Step(setup, s, ObserveTarget(p, window, lookup), t)
    ensures t == Gone(s, p)
  {
    LastTargetExactIff(setup.target, s.processes[p].fingerprint.sizeBytes, window);
  }

  ghost predicate IsPath(setup: Setup, s: State, t: State, states: seq<State>, events: seq<Event>) {
    IsExecution(setup, states, events) && states[0] == s && states[|events|] == t
  }

  /** No command is interrupted and nobody else touches the file. */
  predicate IsCalm(events: seq<Event>) {
    forall i :: 0 <= i < |events| ==> !events[i].Stop? && !events[i].Meddle?
  }

  ghost predicate Reaches(setup: Setup, s: State, t: State) {
    exists states, events :: IsPath(setup, s, t, states, events)
  }

  ghost predicate ReachesCalmly(setup: Setup, s: State, t: State) {
    exists states, events :: IsPath(setup, s, t, states, events) && IsCalm(events)
  }

  lemma {:induction false} CalmlyIsReaching(setup: Setup, s: State, t: State)
    requires ReachesCalmly(setup, s, t)
    ensures Reaches(setup, s, t)
  {
    var states, events :| IsPath(setup, s, t, states, events) && IsCalm(events);
    assert IsPath(setup, s, t, states, events);
  }

  lemma {:induction false} ReachesSelf(setup: Setup, s: State)
    ensures ReachesCalmly(setup, s, s)
  {
    var states, events: seq<Event> := [s], [];
    assert IsPath(setup, s, s, states, events) && IsCalm(events);
  }

  lemma {:induction false} PathOn(setup: Setup, s: State, t: State, states: seq<State>, events: seq<Event>,
                                  e: Event, u: State)
    requires IsPath(setup, s, t, states, events) && Step(setup, t, e, u)
    ensures IsPath(setup, s, u, states + [u], events + [e])
  {
    var states', events' := states + [u], events + [e];
    forall i | 0 <= i < |events'|
      ensures Step(setup, states'[i], events'[i], states'[i + 1])
    {
      if i < |events| {
        assert Step(setup, states[i], events[i], states[i + 1]);
      }
    }
  }

  lemma {:induction false} ReachesOn(setup: Setup, s: State, t: State, e: Event, u: State)
    requires Reaches(setup, s, t) && Step(setup, t, e, u)
    ensures Reaches(setup, s, u)
  {
    var states, events :| IsPath(setup, s, t, states, events);
    PathOn(setup, s, t, states, events, e, u);
  }

  lemma {:induction false} ReachesCalmlyOn(setup: Setup, s: State, t: State, e: Event, u: State)
    requires ReachesCalmly(setup, s, t) && Step(setup, t, e, u) && !e.Stop? && !e.Meddle?
    ensures ReachesCalmly(setup, s, u)
  {
    var states, events :| IsPath(setup, s, t, states, events) && IsCalm(events);
    PathOn(setup, s, t, states, events, e, u);
    assert IsCalm(events + [e]);
  }

  lemma {:induction false} ReachesByStart(setup: Setup, s: State, t: State, e: Event, u: State)
    requires ReachesCalmly(setup, s, t) && Starts(setup, t, e) == Some(u) && !e.Stop? && !e.Meddle?
    ensures ReachesCalmly(setup, s, u)
  {
    ReachesCalmlyOn(setup, s, t, e, u);
  }

  lemma {:induction false} ReachesByLesson(setup: Setup, s: State, t: State, e: Event, u: State)
    requires ReachesCalmly(setup, s, t) && Learns(setup, t, e) == Some(u) && !e.Stop? && !e.Meddle?
    ensures ReachesCalmly(setup, s, u)
  {
    ReachesCalmlyOn(setup, s, t, e, u);
  }

  lemma {:induction false} ReachesByCommit(setup: Setup, s: State, t: State, e: Event, u: State)
    requires ReachesCalmly(setup, s, t) && Commits(setup, t, e) == Some(u) && !e.Stop? && !e.Meddle?
    ensures ReachesCalmly(setup, s, u)
  {
    ReachesCalmlyOn(setup, s, t, e, u);
  }

  lemma {:induction false} ReachesByProgress(setup: Setup, s: State, t: State, e: Event, u: State)
    requires ReachesCalmly(setup, s, t) && Proceeds(setup, t, e) == Some(u) && !e.Stop? && !e.Meddle?
    ensures ReachesCalmly(setup, s, u)
  {
    ReachesCalmlyOn(setup, s, t, e, u);
  }

  lemma {:induction false} ReachesByOthers(setup: Setup, s: State, t: State, e: Event, u: State)
    requires ReachesCalmly(setup, s, t) && Surrounds(setup, t, e) == Some(u) && !e.Stop? && !e.Meddle?
    ensures ReachesCalmly(setup, s, u)
  {
    ReachesCalmlyOn(setup, s, t, e, u);
  }

  predicate IsConfirming(c: Process) {
    c.Confirming? || c.Judging? || c.Judged?
  }

  ghost predicate NobodyConfirms(s: State) {
    forall p :: p in s.processes ==> !IsConfirming(s.processes[p])
  }

  /** What can never be repaired: the fence, the local generation, the mode, and being the only one that awaits. */
  predicate IsFenced(setup: Setup, s: State) {
    && s.intent.preSubmitCursor == Some(s.cursor) && s.local.generation == setup.baselineGeneration
    && s.local.twoWay && s.local.rivals == 0
  }

  /**
   The intent awaits, no confirmation is running, and the change cursor or the local generation moved past
   the intent, two-way mode is left, or another file create awaits as well.
   */
  ghost predicate Stranded(setup: Setup, s: State) {
    && s.intent.status.AwaitingConfirmation? && NobodyConfirms(s) && s.intent.preSubmitCursor.Some?
    && (|| s.intent.preSubmitCursor.value < s.cursor || setup.baselineGeneration < s.local.generation
        || !s.local.twoWay || s.local.rivals > 0)
  }

  lemma {:induction false} StrandedStays(setup: Setup, s: State, e: Event, t: State)
    requires Stranded(setup, s) && Step(setup, s, e, t)
    ensures Stranded(setup, t)
  {
    NothingStarts(setup, s, e);
    if Learns(setup, s, e) == Some(t) {
      LearnsMissesStranded(setup, s, e, t);
    } else if Commits(setup, s, e) == Some(t) {
      CommitMissesStranded(setup, s, e, t);
    } else if Proceeds(setup, s, e) == Some(t) {
      ProceedsMissesStranded(setup, s, e, t);
    } else {
      OthersMissStranded(setup, s, e, t);
    }
  }

  lemma {:induction false} NothingStarts(setup: Setup, s: State, e: Event)
    requires Stranded(setup, s)
    ensures Starts(setup, s, e).None?
  {
  }

  lemma {:induction false} LearnsMissesStranded(setup: Setup, s: State, e: Event, t: State)
    requires Stranded(setup, s) && Learns(setup, s, e) == Some(t)
    ensures Stranded(setup, t)
  {
    assert !IsConfirming(s.processes[e.p]);
    LessonKeepsKind(setup, s, s.processes[e.p], e);
  }

  lemma {:induction false} ProceedsMissesStranded(setup: Setup, s: State, e: Event, t: State)
    requires Stranded(setup, s) && Proceeds(setup, s, e) == Some(t)
    ensures Stranded(setup, t)
  {
  }

  lemma {:induction false} OthersMissStranded(setup: Setup, s: State, e: Event, t: State)
    requires Stranded(setup, s) && Surrounds(setup, s, e) == Some(t)
    ensures Stranded(setup, t)
  {
  }

  lemma {:induction false} LessonKeepsKind(setup: Setup, s: State, c: Process, e: Event)
    requires !IsConfirming(c)
    ensures LessonOf(setup, s, c, e).Some? && LessonOf(setup, s, c, e).value.Some?
            ==> !IsConfirming(LessonOf(setup, s, c, e).value.value)
  {
  }

  lemma {:induction false} CommitMissesStranded(setup: Setup, s: State, e: Event, t: State)
    requires Stranded(setup, s) && Commits(setup, s, e) == Some(t)
    ensures t == Gone(s, e.p) && Stranded(setup, t)
  {
    var c := s.processes[e.p];
    assert !IsConfirming(c);
    var commit := CommitOf(setup, s, c, e).value;
    assert Apply(s.intent, commit.update).Err?;
  }

  /** No command, in any run, ever settles a stranded intent. */
  lemma {:induction false} StrandedForever(setup: Setup, s: State, t: State)
    requires Stranded(setup, s) && Reaches(setup, s, t)
    ensures Stranded(setup, t)
  {
    var states, events :| IsPath(setup, s, t, states, events);
    forall s, e, t | Stranded(setup, s) && Step(setup, s, e, t)
      ensures Stranded(setup, t)
    {
      StrandedStays(setup, s, e, t);
    }
    RunInduction((s, e, t) => Step(setup, s, e, t), s => Stranded(setup, s), (s, t) => true, states, events,
                 |events|, |events|);
  }

  ghost predicate CanSettle(setup: Setup, s: State) {
    exists t :: Reaches(setup, s, t) && !t.intent.status.AwaitingConfirmation?
  }

  /** The change feed and the catalog as they are when the file stands, or stood, under the id. */
  function WindowFor(target: Target, current: Option<RemoteFile>): seq<RemoteChange> {
    if current.Some? then [Upsert(ItemOf(target, current.value))] else [Delete(target.id)]
  }

  function ItemOf(target: Target, file: RemoteFile): RemoteItem {
    RemoteItem(target.id, file.parent, file.name, RemoteItemKind.File, Some(|file.content|), None, file.trashed)
  }

  function CatalogFor(target: Target, current: Option<RemoteFile>): Option<RemoteItem> {
    if current.Some? then Some(ItemOf(target, current.value)) else None
  }

  function JudgedOn(setup: Setup, s: State, lookup: Lookup): Process
    requires s.intent.fingerprint.Some? && s.intent.remoteVersion.Some?
  {
    Judged(s.intent.executionGeneration, s.intent.fingerprint.value, s.intent.remoteVersion.value,
           WindowFor(setup.target, s.current), lookup, CatalogFor(setup.target, s.current))
  }

  /** A confirmation that gets as far as its verdict. */
  lemma {:induction false} RunsToJudged(setup: Setup, s: State, t: State, p: nat, lookup: Lookup) returns (u: State)
    requires ReachesCalmly(setup, s, t) && p !in t.processes && t.intent.status.AwaitingConfirmation?
    requires IsFenced(setup, t) && t.local.pending && (t.current.Some? ==> t.current.value in t.past)
    requires t.intent.fingerprint.Some? && t.intent.fingerprint.value.sizeBytes == t.intent.localSizeBytes
    requires t.intent.remoteVersion.Some? && Answers(setup, t.current, t.intent.fingerprint.value, lookup)
    ensures ReachesCalmly(setup, s, u)
    ensures u == Become(t, p, JudgedOn(setup, t, lookup)).(cursor := t.cursor + 1)
  {
    var fingerprint, floor, g := t.intent.fingerprint.value, t.intent.remoteVersion.value, t.intent.executionGeneration;
    var t1 := Become(t, p, Confirming(g, fingerprint, floor));
    ReachesByStart(setup, s, t, StartConfirm(p), t1);
    u := ConfirmingRunsToJudged(setup, s, t1, p, lookup);
    assert u.processes == t.processes[p := u.processes[p]];
  }

  /** What the provider shows of the current file is true, and mentions it. */
  lemma {:induction false} WindowIsTruthful(setup: Setup, s: State, size: nat)
    requires s.current.Some? ==> s.current.value in s.past
    ensures IsTruthful(setup.target, s.past, WindowFor(setup.target, s.current))
    ensures LastTargetExact(setup.target, size, WindowFor(setup.target, s.current)).Some?
    ensures s.current.Some? ==> Depicted(setup.target, s.past, CatalogFor(setup.target, s.current).value)
  {
    var window := WindowFor(setup.target, s.current);
    assert s.current.Some? ==> Depicts(setup.target, s.current.value, ItemOf(setup.target, s.current.value));
    assert ChangeId(window[0]) == setup.target.id;
    LastTargetExactIff(setup.target, size, window);
  }

  lemma {:induction false} ConfirmingRunsToJudged(setup: Setup, s: State, t: State, p: nat, lookup: Lookup)
    returns (u: State)
    requires ReachesCalmly(setup, s, t) && p in t.processes && t.processes[p].Confirming?
    requires t.current.Some? ==> t.current.value in t.past
    requires Answers(setup, t.current, t.processes[p].fingerprint, lookup)
    ensures ReachesCalmly(setup, s, u)
    ensures u == Become(t, p, Judged(t.processes[p].generation, t.processes[p].fingerprint, t.processes[p].floor,
                                     WindowFor(setup.target, t.current), lookup, CatalogFor(setup.target, t.current)))
                 .(cursor := t.cursor + 1)
  {
    var c, window := t.processes[p], WindowFor(setup.target, t.current);
    WindowIsTruthful(setup, t, c.fingerprint.sizeBytes);
    var t1 := Become(t, p, Judging(c.generation, c.fingerprint, c.floor, window, lookup));
    ReachesByLesson(setup, s, t, ObserveTarget(p, window, lookup), t1);
    u := JudgingRunsToJudged(setup, s, t1, p);
    assert u.processes == t.processes[p := u.processes[p]];
  }

  lemma {:induction false} JudgingRunsToJudged(setup: Setup, s: State, t: State, p: nat) returns (u: State)
    requires ReachesCalmly(setup, s, t) && p in t.processes && t.processes[p].Judging?
    requires t.current.Some? ==> t.current.value in t.past
    ensures ReachesCalmly(setup, s, u)
    ensures u == Become(t, p, Judged(t.processes[p].generation, t.processes[p].fingerprint, t.processes[p].floor,
                                     t.processes[p].window, t.processes[p].lookup, CatalogFor(setup.target, t.current)))
                 .(cursor := t.cursor + 1)
  {
    var c, item := t.processes[p], CatalogFor(setup.target, t.current);
    WindowIsTruthful(setup, t, 0);
    u := Become(t, p, Judged(c.generation, c.fingerprint, c.floor, c.window, c.lookup, item)).(cursor := t.cursor + 1);
    ReachesByProgress(setup, s, t, CommitWindow(p, t.cursor + 1, item), u);
  }

  /** A fenced intent can be settled, whatever the provider shows; its source event can be journaled again. */
  lemma {:induction false} FencedCanSettle(setup: Setup, s: State)
    requires Safe(setup, s) && s.intent.status.AwaitingConfirmation? && IsFenced(setup, s)
    ensures CanSettle(setup, s)
  {
    var p := FreshKey(s.processes);
    ReachesSelf(setup, s);
    var s1 := s.(local := s.local.(pending := true));
    ReachesByOthers(setup, s, s, Journal(true), s1);
    var t := RunsToJudged(setup, s, s1, p, if s.current.None? then Missing else Mismatch);
    VerdictSettles(setup, s, t, p);
  }

  lemma {:induction false} VerdictSettles(setup: Setup, s: State, t: State, p: nat)
    requires ReachesCalmly(setup, s, t) && t.intent.status.AwaitingConfirmation?
    requires p in t.processes && t.processes[p].Judged? && t.processes[p].generation == t.intent.executionGeneration
    ensures CanSettle(setup, s)
  {
    var u := Commits(setup, t, CommitVerdict(p)).value;
    ReachesByCommit(setup, s, t, CommitVerdict(p), u);
    CalmlyIsReaching(setup, s, u);
    assert !u.intent.status.AwaitingConfirmation?;
  }

  lemma {:induction false} FreshKey<V>(m: map<nat, V>) returns (k: nat)
    ensures k !in m
  {
    k := FreshNumber(m.Keys);
  }

  lemma {:induction false} FreshNumber(ids: set<nat>) returns (k: nat)
    ensures k !in ids && forall i :: i in ids ==> i < k
    decreases |ids|
  {
    if ids == {} {
      k := 0;
    } else {
      var i :| i in ids;
      var rest := FreshNumber(ids - {i});
      k := if i < rest then rest else i + 1;
      forall j | j in ids
        ensures j < k
      {
        assert j == i || j in ids - {i};
      }
    }
  }

  /**
   When no command is at it, an awaiting intent can still be settled if and only if the durable change
   cursor is the one from before its submission, the local generation is the one it was planned on, the root
   is still in two-way mode, and no other file create awaits. Nothing repairs any of the four.
   */
  lemma {:induction false} SettlesIffFenced(setup: Setup, states: seq<State>, events: seq<Event>, i: nat)
    requires IsExecution(setup, states, events) && IsStart(setup, states[0]) && i < |states|
    requires states[i].intent.status.AwaitingConfirmation? && NobodyConfirms(states[i])
    ensures CanSettle(setup, states[i]) <==>
            && states[i].intent.preSubmitCursor == Some(states[i].cursor)
            && states[i].local.generation == setup.baselineGeneration
            && states[i].local.twoWay && states[i].local.rivals == 0
  {
    var s := states[i];
    RunIsSafe(setup, states, events, i, i);
    if IsFenced(setup, s) {
      FencedCanSettle(setup, s);
    } else {
      assert Stranded(setup, s);
      forall t | Reaches(setup, s, t)
        ensures t.intent.status.AwaitingConfirmation?
      {
        StrandedForever(setup, s, t);
      }
    }
  }

  /** The file that the intent awaits stands under the id, exact in every respect. */
  ghost predicate StandsExact(setup: Setup, s: State) {
    && s.current.Some? && s.intent.fingerprint.Some? && s.intent.remoteVersion.Some?
    && Shows(setup, s.current.value, s.intent.fingerprint.value, s.intent.remoteVersion.value)
  }

  /** Uploaded and awaiting, with nothing running, the file in place and the fence at the cursor. */
  ghost predicate AwaitsInPlace(setup: Setup, s: State) {
    && s.processes == map[] && s.intent.status.AwaitingConfirmation? && s.intent.preSubmitCursor == Some(s.cursor)
    && StandsExact(setup, s) && s.current.value in s.past
    && s.intent.fingerprint.value.sizeBytes == s.intent.localSizeBytes
  }

  /**
   A run with one crash: from every start without a rival, a confirmation that is interrupted between its
   window commit and its verdict strands the intent, although its file stands exactly as it should.
   */
  lemma {:induction false} CrashCanStrand(setup: Setup, s: State, content: Bytes) returns (t: State)
    requires IsStart(setup, s) && s.intent.localSizeBytes == |content| > 0 && s.local.rivals == 0
    ensures Reaches(setup, s, t) && Stranded(setup, t) && StandsExact(setup, t)
    ensures t.local == s.local
  {
    ReachesSelf(setup, s);
    var s1 := RunsToAwaiting(setup, s, s, content);
    var s2 := RunsToJudged(setup, s, s1, 0, Exact(s1.intent.remoteVersion.value));
    CalmlyIsReaching(setup, s, s2);
    t := Gone(s2, 0);
    assert Learns(setup, s2, Stop(0)) == Some(t);
    ReachesOn(setup, s, s2, Stop(0), t);
  }

  /**
   A run without a crash: another creation is confirmed first and settled only while the intent awaits.
   The fence still holds, but the local generation has moved on.
   */
  lemma {:induction false} SettlingOtherStrands(setup: Setup, s: State, content: Bytes) returns (t: State)
    requires IsStart(setup, s) && s.intent.localSizeBytes == |content| > 0
    ensures ReachesCalmly(setup, s, t) && Stranded(setup, t) && StandsExact(setup, t)
    ensures t.intent.preSubmitCursor == Some(t.cursor) && t.local.twoWay && t.local.rivals == s.local.rivals
  {
    ReachesSelf(setup, s);
    var s1 := Surrounds(setup, s, ConfirmOther(s.cursor + 1)).value;
    ReachesByOthers(setup, s, s, ConfirmOther(s.cursor + 1), s1);
    t := SettlesOtherLate(setup, s, s1, content);
  }

  lemma {:induction false} SettlesOtherLate(setup: Setup, s: State, s1: State, content: Bytes) returns (t: State)
    requires ReachesCalmly(setup, s, s1) && IsStart(setup, s1) && s1.local.unsettled > 0
    requires s1.intent.localSizeBytes == |content| > 0
    ensures ReachesCalmly(setup, s, t) && Stranded(setup, t) && StandsExact(setup, t)
    ensures t.intent.preSubmitCursor == Some(t.cursor) && t.local == NextGeneration(s1.local)
  {
    var s2 := RunsToAwaiting(setup, s, s1, content);
    t := s2.(local := NextGeneration(s2.local));
    ReachesByOthers(setup, s, s2, Settle, t);
  }

  /** Another run without a crash: two-way mode is left while the intent awaits. */
  lemma {:induction false} LeavingTwoWayStrands(setup: Setup, s: State, content: Bytes) returns (t: State)
    requires IsStart(setup, s) && s.intent.localSizeBytes == |content| > 0
    ensures ReachesCalmly(setup, s, t) && Stranded(setup, t) && StandsExact(setup, t)
    ensures t.intent.preSubmitCursor == Some(t.cursor) && t.local == s.local.(twoWay := false)
  {
    ReachesSelf(setup, s);
    var s1 := RunsToAwaiting(setup, s, s, content);
    t := s1.(local := s1.local.(twoWay := false));
    ReachesByOthers(setup, s, s1, LeaveTwoWay, t);
  }

  /** A third: another file create comes to await confirmation too, and the two block each other. */
  lemma {:induction false} RivalStrands(setup: Setup, s: State, content: Bytes) returns (t: State)
    requires IsStart(setup, s) && s.intent.localSizeBytes == |content| > 0
    ensures ReachesCalmly(setup, s, t) && Stranded(setup, t) && StandsExact(setup, t)
    ensures t.intent.preSubmitCursor == Some(t.cursor) && t.local == s.local.(rivals := s.local.rivals + 1)
  {
    ReachesSelf(setup, s);
    var s1 := RunsToAwaiting(setup, s, s, content);
    t := s1.(local := s1.local.(rivals := s1.local.rivals + 1));
    ReachesByOthers(setup, s, s1, RivalAwaits, t);
  }

  /** The undisturbed run: submit, upload, and hear of completion. */
  lemma {:induction false} RunsToAwaiting(setup: Setup, s: State, s0: State, content: Bytes) returns (t: State)
    requires ReachesCalmly(setup, s, s0) && IsStart(setup, s0) && s0.intent.localSizeBytes == |content| > 0
    ensures ReachesCalmly(setup, s, t) && AwaitsInPlace(setup, t) && t.local == s0.local
  {
    var g := s0.intent.executionGeneration;
    var s1 := Become(s0, 0, Submitting(content, g));
    ReachesByStart(setup, s, s0, StartSubmit(0, content), s1);
    var s2 := Store(s1, 0, Commit(Begin(g, s1.cursor, s1.cursor, true), Some(Begun(content, g + 1, 1, None))));
    ReachesByCommit(setup, s, s1, CommitBegin(0, true), s2);
    t := RunsOnFromBegun(setup, s, s2, content, g + 1, 1, None);
  }

  /** Submitted with the fence at the cursor, by the one running command. */
  ghost predicate IsSubmitted(s: State, content: Bytes, g: nat, c: Process) {
    && content != [] && s.processes == map[0 := c]
    && s.intent.status.Submitted? && s.intent.executionGeneration == g && s.intent.preSubmitCursor == Some(s.cursor)
    && s.intent.localSizeBytes == |content|
  }

  /** The rest of an undisturbed attempt `k`: open a session, send everything, and hear of completion. */
  lemma {:induction false} RunsOnFromBegun(setup: Setup, s: State, s2: State, content: Bytes, g: nat, k: nat,
                                           evidence: Option<Fingerprint>)
    returns (t: State)
    requires ReachesCalmly(setup, s, s2) && IsSubmitted(s2, content, g, Begun(content, g, k, evidence))
    requires s2.current.None? && k !in s2.sessions
    requires s2.intent.fingerprint in {None, Some(FingerprintOf(setup, content))}
    requires evidence in {None, Some(FingerprintOf(setup, content))}
    ensures ReachesCalmly(setup, s, t) && AwaitsInPlace(setup, t) && t.local == s2.local
  {
    var s3 := Proceeds(setup, s2, Initiate(0)).value;
    ReachesByProgress(setup, s, s2, Initiate(0), s3);
    var found, c := FingerprintOf(setup, content), Uploading(content, g, k, evidence, true);
    var s4 := Store(s3, 0, Commit(RecordFingerprint(g, found), Some(c)));
    ReachesByCommit(setup, s, s3, StoreFingerprint(0), s4);
    t := RunsOnFromRecorded(setup, s, s4, content, g, c);
  }

  lemma {:induction false} RunsOnFromRecorded(setup: Setup, s: State, s4: State, content: Bytes, g: nat, c: Process)
    returns (t: State)
    requires ReachesCalmly(setup, s, s4) && IsSubmitted(s4, content, g, c)
    requires c.Uploading? && c.durable && c.content == content && c.generation == g && s4.current.None?
    requires c.attempt in s4.sessions && s4.sessions[c.attempt] == Session(content, 0, 0, false)
    requires s4.intent.fingerprint == Some(FingerprintOf(setup, content))
    ensures ReachesCalmly(setup, s, t) && AwaitsInPlace(setup, t) && t.local == s4.local
  {
    var s5 := Proceeds(setup, s4, SendFinal(0)).value;
    ReachesByProgress(setup, s, s4, SendFinal(0), s5);
    t := RunsOnFromSent(setup, s, s5, content, g, c);
  }

  lemma {:induction false} RunsOnFromSent(setup: Setup, s: State, s5: State, content: Bytes, g: nat, c: Process)
    returns (t: State)
    requires ReachesCalmly(setup, s, s5) && IsSubmitted(s5, content, g, c)
    requires c.Uploading? && c.durable && c.content == content && c.generation == g && s5.current.None?
    requires c.attempt in s5.sessions && s5.sessions[c.attempt] == Session(content, |content|, 0, false)
    requires s5.intent.fingerprint == Some(FingerprintOf(setup, content))
    ensures ReachesCalmly(setup, s, t) && AwaitsInPlace(setup, t) && t.local == s5.local
  {
    var s6 := Proceeds(setup, s5, Arrive(c.attempt, |content|)).value;
    ReachesByProgress(setup, s, s5, Arrive(c.attempt, |content|), s6);
    var s7 := Proceeds(setup, s6, Create(c.attempt, 1)).value;
    ReachesByProgress(setup, s, s6, Create(c.attempt, 1), s7);
    t := RunsOnFromCreated(setup, s, s7, content, g, c);
  }

  lemma {:induction false} RunsOnFromCreated(setup: Setup, s: State, s7: State, content: Bytes, g: nat, c: Process)
    returns (t: State)
    requires ReachesCalmly(setup, s, s7) && IsSubmitted(s7, content, g, c)
    requires c.Uploading? && c.durable && c.content == content && c.generation == g
    requires s7.current == Some(Uploaded(setup.target, content, 1)) && s7.current.value in s7.past
    requires c.attempt in s7.sessions && s7.sessions[c.attempt].content == content && s7.sessions[c.attempt].finished
    requires s7.intent.fingerprint == Some(FingerprintOf(setup, content))
    ensures ReachesCalmly(setup, s, t) && AwaitsInPlace(setup, t) && t.local == s7.local
  {
    var found, completion := FingerprintOf(setup, content), Completion(1, Some(setup.hash(content)));
    assert Shows(setup, s7.current.value, found, 1);
    assert Reports(setup, s7, s7.sessions[c.attempt], completion);
    var s8 := Become(s7, 0, Completed(g, found, completion));
    ReachesByLesson(setup, s, s7, HearCompletion(0, completion), s8);
    t := RunsOnFromHeard(setup, s, s8, content, g);
  }

  lemma {:induction false} RunsOnFromHeard(setup: Setup, s: State, s8: State, content: Bytes, g: nat)
    returns (t: State)
    requires ReachesCalmly(setup, s, s8)
    requires IsSubmitted(s8, content, g,
                         Completed(g, FingerprintOf(setup, content), Completion(1, Some(setup.hash(content)))))
    requires s8.current == Some(Uploaded(setup.target, content, 1)) && s8.current.value in s8.past
    requires s8.intent.fingerprint == Some(FingerprintOf(setup, content))
    ensures ReachesCalmly(setup, s, t) && AwaitsInPlace(setup, t) && t.local == s8.local
  {
    var s9 := Become(s8, 0, Witnessed(g, FingerprintOf(setup, content), 1));
    ReachesByLesson(setup, s, s8, JudgeCompletion(0, Missing), s9);
    t := RunsOnFromWitnessed(setup, s, s9, content, g);
  }

  lemma {:induction false} RunsOnFromWitnessed(setup: Setup, s: State, s9: State, content: Bytes, g: nat)
    returns (t: State)
    requires ReachesCalmly(setup, s, s9)
    requires IsSubmitted(s9, content, g, Witnessed(g, FingerprintOf(setup, content), 1))
    requires s9.current == Some(Uploaded(setup.target, content, 1)) && s9.current.value in s9.past
    requires s9.intent.fingerprint == Some(FingerprintOf(setup, content))
    ensures ReachesCalmly(setup, s, t) && AwaitsInPlace(setup, t) && t.local == s9.local
  {
    t := Store(s9, 0, Commit(CompleteUpload(g, 1), None));
    ReachesByCommit(setup, s, s9, CommitCompletion(0), t);
  }

  /** Everything that a confirmation demands before it starts. */
  lemma {:induction false} ConfirmStartsIff(setup: Setup, s: State, p: nat)
    ensures Starts(setup, s, StartConfirm(p)).Some?
            <==> && p !in s.processes && s.intent.status.AwaitingConfirmation?
                 && s.local.twoWay && s.local.rivals == 0
                 && s.local.generation == setup.baselineGeneration && s.local.pending
                 && s.intent.preSubmitCursor == Some(s.cursor)
                 && s.intent.remoteVersion.Some? && s.intent.fingerprint.Some?
                 && s.intent.fingerprint.value.sizeBytes == s.intent.localSizeBytes
  {
  }

  /** A submission or a restart is stored only in two-way mode, on the planned generation, with a pending event. */
  lemma {:induction false} SubmissionNeeds(setup: Setup, s: State, e: Event, t: State)
    requires Step(setup, s, e, t) && s.intent.attemptCount < t.intent.attemptCount
    ensures e.CommitBegin? || e.CommitRestart?
    ensures s.local.twoWay && s.local.generation == setup.baselineGeneration && s.local.pending
    ensures t.intent.attemptCount == s.intent.attemptCount + 1 && t.intent.preSubmitCursor == Some(s.cursor)
  {
    OnlyCommitsChangeIntent(setup, s, e, t);
    UpdateLeaves(s.intent, CommitOf(setup, s, s.processes[e.p], e).value.update);
  }

  /** Leaving a conflict starts only on the same demands, a first attempt, and exact evidence. */
  lemma {:induction false} RescueStartsOnly(setup: Setup, s: State, p: nat, item: Option<RemoteItem>, lookup: Lookup)
    requires Starts(setup, s, StartRescue(p, item, lookup)).Some?
    ensures s.local.twoWay && s.local.generation == setup.baselineGeneration && s.local.pending
    ensures s.intent.status.Conflict? && s.intent.attemptCount == 1 && s.intent.remoteVersion.Some?
    ensures item.Some? && IsInPlace(setup, s.intent.fingerprint.value.sizeBytes, item.value)
    ensures lookup.Exact? && lookup.version >= s.intent.remoteVersion.value
  {
  }
}
