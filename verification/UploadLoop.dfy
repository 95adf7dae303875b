/** The loop that uploads one file through a resumable session. */
module UploadLoop {
  import opened Wrappers
  import opened UploadBuffer

  const MAX_NO_PROGRESS_RESPONSES := 3

  datatype UploadFailure =
    | InvalidResumableUploadRange
    | InvalidCompletion
    | RequestFailed
    | SessionExpired
    | ResumeOffsetOutside
    | NoProgressLimitExceeded
    | FingerprintMismatch
    | FingerprintNotStored
    | BufferFailed(reason: UploadError)

  datatype Completion = Completion(remoteVersion: nat, sha256Checksum: Option<string>)

  /** A response of the upload endpoint; finished carries the completion when its metadata is as expected. */
  datatype HttpAnswer =
    | Finished(completion: Option<Completion>)
    | Redirect(range: Option<string>)
    | NotFound
    | Unexpected

  datatype Progress = Incomplete(nextOffset: nat) | Complete(completion: Completion) | Expired

  /** What one turn of the loop meets: the answer to the chunk and to a status query; None is a transport error. */
  datatype Answers = Answers(chunk: Option<HttpAnswer>, status: Option<HttpAnswer>)

  const RANGE_PREFIX := "bytes=0-"

  predicate IsDigit(c: char) {
    '0' <= c <= '9'
  }

  function DigitValue(c: char): (v: nat)
    requires IsDigit(c)
    ensures v < 10
  {
    c as int - '0' as int
  }

  /** The number that a string of digits denotes; None for anything else. */
  function DigitsValue(s: string): Option<nat> {
    if s == [] then Some(0)
    else
      var last := s[|s| - 1];
      var rest := DigitsValue(s[..|s| - 1]);
      if rest.Some? && IsDigit(last) then Some(10 * rest.value + DigitValue(last)) else None
  }

  /** Decimal text of a 64-bit number, as the source's integer parser reads it: an optional plus sign, then digits. */
  function ParseU64(s: string): Option<nat> {
    var digits := if s != [] && s[0] == '+' then s[1..] else s;
    if digits == [] || DigitsValue(digits).None? || DigitsValue(digits).value > U64_MAX then
      None else DigitsValue(digits)
  }

  function ParseResumableNextOffset(rangeHeader: Option<string>, totalBytes: nat): Result<nat, UploadFailure> {
    if rangeHeader.None? then Ok(0)
    else
      var value := rangeHeader.value;
      if |value| < |RANGE_PREFIX| || value[..|RANGE_PREFIX|] != RANGE_PREFIX then Err(InvalidResumableUploadRange)
      else
        var last := ParseU64(value[|RANGE_PREFIX|..]);
        if last.None? || last.value == U64_MAX || last.value + 1 >= totalBytes then Err(InvalidResumableUploadRange)
        else Ok(last.value + 1)
  }

  function ParseUploadResponse(answer: HttpAnswer, totalBytes: nat): Result<Progress, UploadFailure> {
    match answer
    case Finished(completion) => if completion.Some? then Ok(Complete(completion.value)) else Err(InvalidCompletion)
    case Redirect(range) =>
      var next := ParseResumableNextOffset(range, totalBytes);
      if next.Ok? then Ok(Incomplete(next.value)) else Err(next.error)
    case NotFound => Ok(Expired)
    case Unexpected => Err(RequestFailed)
  }

  /** The progress a turn learns: from the chunk's answer, or else from the status query. */
  function LearnedProgress(answers: Answers, totalBytes: nat): (learned: Result<Progress, UploadFailure>)
    ensures learned.Ok? && learned.value.Incomplete? && 0 < totalBytes ==> learned.value.nextOffset < totalBytes
    ensures learned.Err? ==> learned.error in {InvalidResumableUploadRange, InvalidCompletion, RequestFailed}
  {
    if answers.chunk.Some? && ParseUploadResponse(answers.chunk.value, totalBytes).Ok? then
      ParseUploadResponse(answers.chunk.value, totalBytes)
    else if answers.status.Some? then ParseUploadResponse(answers.status.value, totalBytes)
    else Err(RequestFailed)
  }

  /** The decimal text of a number. */
  function Decimal(n: nat): (s: string)
    ensures s != [] && s[0] != '+'
  {
    var digit := ('0' as int + n % 10) as char;
    if n < 10 then [digit] else Decimal(n / 10) + [digit]
  }

  lemma {:induction false} DecimalValue(n: nat)
    ensures DigitsValue(Decimal(n)) == Some(n)
    decreases n
  {
    var digit := ('0' as int + n % 10) as char;
    assert IsDigit(digit) && DigitValue(digit) == n % 10;
    if n < 10 {
      assert Decimal(n)[..0] == [];
      assert DigitsValue(Decimal(n)[..0]) == Some(0);
    } else {
      DecimalValue(n / 10);
      assert Decimal(n)[..|Decimal(n)| - 1] == Decimal(n / 10);
    }
  }

  /**
   A provider that reports having the first `have` bytes is understood exactly while some bytes are
   still missing: no offset at or past the total is ever taken for progress.
   */
  lemma {:induction false} RangeRoundTrip(have: nat, totalBytes: nat)
    requires totalBytes <= U64_MAX
    ensures have == 0 ==> ParseResumableNextOffset(None, totalBytes) == Ok(0)
    ensures have > 0 ==> (ParseResumableNextOffset(Some(RANGE_PREFIX + Decimal(have - 1)), totalBytes)
                          == if have < totalBytes then Ok(have) else Err(InvalidResumableUploadRange))
  {
    if have > 0 {
      var header := RANGE_PREFIX + Decimal(have - 1);
      DecimalValue(have - 1);
      assert header[..|RANGE_PREFIX|] == RANGE_PREFIX && header[|RANGE_PREFIX|..] == Decimal(have - 1);
    }
  }

  /** How a provider reports that it has the first `have` bytes of `totalBytes`, or the whole file. */
  function Report(have: nat, totalBytes: nat, completion: Completion): HttpAnswer {
    if have >= totalBytes then Finished(Some(completion))
    else if have == 0 then Redirect(None)
    else Redirect(Some("bytes=0-" + Decimal(have - 1)))
  }

  /** What is learned from a usable answer. */
  function Meaning(have: nat, totalBytes: nat, completion: Completion): Progress {
    if have >= totalBytes then Complete(completion) else Incomplete(have)
  }

  /** A report is understood. */
  lemma {:induction false} ReportIsUnderstood(have: nat, totalBytes: nat, completion: Completion)
    requires totalBytes <= U64_MAX
    ensures ParseUploadResponse(Report(have, totalBytes, completion), totalBytes)
            == Ok(Meaning(have, totalBytes, completion))
  {
    RangeRoundTrip(have, totalBytes);
  }

  /** A range that is taken for progress names the byte before the offset, in decimal, and lies before the end. */
  lemma {:induction false} RangeMeans(range: string, totalBytes: nat, next: nat)
    requires ParseResumableNextOffset(Some(range), totalBytes) == Ok(next)
    ensures 0 < next < totalBytes && "bytes=0-" <= range
    ensures DigitsValue(range[8..]) == Some(next - 1)
            || ("bytes=0-+" <= range && DigitsValue(range[9..]) == Some(next - 1))
  {
    assert RANGE_PREFIX == "bytes=0-";
    var rest := range[8..];
    if rest[0] == '+' {
      assert rest[1..] == range[9..];
      assert range[..8] + [range[8]] == range[..9];
    }
  }

  /** Any decimal text of the last byte, also with leading zeros or a plus sign, is understood. */
  lemma {:induction false} RangeIsUnderstood(digits: string, totalBytes: nat)
    requires totalBytes <= U64_MAX && digits != "" && digits[0] != '+'
    requires DigitsValue(digits).Some? && DigitsValue(digits).value + 1 < totalBytes
    ensures ParseResumableNextOffset(Some("bytes=0-" + digits), totalBytes) == Ok(DigitsValue(digits).value + 1)
    ensures ParseResumableNextOffset(Some("bytes=0-+" + digits), totalBytes) == Ok(DigitsValue(digits).value + 1)
  {
    var plain, signed := "bytes=0-" + digits, "bytes=0-+" + digits;
    assert plain[..8] == "bytes=0-" && plain[8..] == digits;
    assert signed[..8] == "bytes=0-" && signed[8..] == ['+'] + digits && signed[8..][1..] == digits;
  }

  /** What each answer means that is not a range, and that an answer teaches nothing but a failure otherwise. */
  lemma {:induction false} AnswerMeans(answer: HttpAnswer, totalBytes: nat)
    ensures var learned := ParseUploadResponse(answer, totalBytes);
            match answer
            case Finished(Some(completion)) => learned == Ok(Complete(completion))
            case Finished(None) => learned == Err(InvalidCompletion)
            case Redirect(None) => learned == Ok(Incomplete(0))
            case Redirect(Some(range)) =>
              if learned.Ok? then
                learned.value.Incomplete?
                && ParseResumableNextOffset(Some(range), totalBytes) == Ok(learned.value.nextOffset)
              else learned.error == InvalidResumableUploadRange
            case NotFound => learned == Ok(Expired)
            case Unexpected => learned == Err(RequestFailed)
  {
  }

  /** The status query decides exactly when the answer to the chunk is an error. */
  lemma {:induction false} LearnedFrom(answers: Answers, totalBytes: nat)
    ensures var learned := LearnedProgress(answers, totalBytes);
            if answers.chunk.Some? && ParseUploadResponse(answers.chunk.value, totalBytes).Ok? then
              learned == ParseUploadResponse(answers.chunk.value, totalBytes)
            else if answers.status.Some? then learned == ParseUploadResponse(answers.status.value, totalBytes)
            else learned == Err(RequestFailed)
  {
  }

  /** What the loop does outside its own memory. */
  datatype Event = Recorded(digest: string) | Sent(startOffset: nat, bytes: Bytes, finalRequest: bool)

  /** The furthest byte offered to the provider so far. */
  function SentTo(log: seq<Event>): nat {
    if log == [] then 0
    else
      var last := log[|log| - 1];
      var before := SentTo(log[..|log| - 1]);
      if last.Sent? && before < last.startOffset + |last.bytes| then last.startOffset + |last.bytes| else before
  }

  function Requests(log: seq<Event>): nat {
    if log == [] then 0 else Requests(log[..|log| - 1]) + if log[|log| - 1].Sent? then 1 else 0
  }

  /**
   The event may follow `before`: it records the content's own digest, or offers the content's own
   bytes without a gap, the last of them only after the digest is durable.
   */
  ghost predicate MayFollow(content: Bytes, sha256: Bytes -> string, before: seq<Event>, event: Event) {
    match event
    case Recorded(digest) => digest == sha256(content)
    case Sent(startOffset, bytes, finalRequest) =>
      && bytes != [] && startOffset <= SentTo(before) && startOffset + |bytes| <= |content|
      && bytes == content[startOffset..startOffset + |bytes|]
      && (finalRequest <==> startOffset + |bytes| == |content|)
      && (finalRequest ==> Recorded(sha256(content)) in before)
  }

  ghost predicate Proper(content: Bytes, sha256: Bytes -> string, log: seq<Event>) {
    log == []
    || (Proper(content, sha256, log[..|log| - 1]) && MayFollow(content, sha256, log[..|log| - 1], log[|log| - 1]))
  }

  lemma {:induction false} ProperGrows(content: Bytes, sha256: Bytes -> string, log: seq<Event>, event: Event)
    requires Proper(content, sha256, log) && MayFollow(content, sha256, log, event)
    ensures Proper(content, sha256, log + [event])
    ensures SentTo(log + [event]) == if event.Sent? && SentTo(log) < event.startOffset + |event.bytes|
                                     then event.startOffset + |event.bytes| else SentTo(log)
    ensures Requests(log + [event]) == Requests(log) + if event.Sent? then 1 else 0
  {
    assert (log + [event])[..|log|] == log;
  }

  lemma {:induction false} ProperAt(content: Bytes, sha256: Bytes -> string, log: seq<Event>, k: nat)
    requires Proper(content, sha256, log) && k < |log|
    ensures MayFollow(content, sha256, log[..k], log[k])
    decreases |log|
  {
    if k < |log| - 1 {
      ProperAt(content, sha256, log[..|log| - 1], k);
      assert log[..|log| - 1][..k] == log[..k];
    }
  }

  /** The provider takes a chunk that starts inside what it holds and reaches further. */
  function Receive(held: Bytes, event: Event): Bytes {
    if event.Sent? && event.startOffset <= |held| < event.startOffset + |event.bytes| then
      held[..event.startOffset] + event.bytes else held
  }

  /** What a provider holds after some of the sent chunks, late, lost or repeated, have arrived. */
  function Held(log: seq<Event>, arrivals: seq<nat>): Bytes {
    if arrivals == [] then []
    else
      var held := Held(log, arrivals[..|arrivals| - 1]);
      var k := arrivals[|arrivals| - 1];
      if k < |log| then Receive(held, log[k]) else held
  }

  lemma {:induction false} ReceiveKeepsPrefix(content: Bytes, sha256: Bytes -> string, before: seq<Event>, event: Event,
                                              held: Bytes)
    requires MayFollow(content, sha256, before, event) && held <= content
    ensures Receive(held, event) <= content
    ensures Receive(held, event) == content != held ==> Recorded(sha256(content)) in before
  {
    var after := Receive(held, event);
    if after != held {
      assert held[..event.startOffset] == content[..event.startOffset];
      assert after == content[..event.startOffset + |event.bytes|];
    }
  }

  /**
   Whatever arrives in whatever order, the provider holds a prefix of the content, and can hold all
   of it only once the content's digest is durable.
   */
  lemma {:induction false} HeldIsPrefix(content: Bytes, sha256: Bytes -> string, log: seq<Event>, arrivals: seq<nat>)
    requires Proper(content, sha256, log)
    ensures Held(log, arrivals) <= content
    ensures Held(log, arrivals) == content && content != [] ==> Recorded(sha256(content)) in log
    decreases |arrivals|
  {
    if arrivals != [] {
      var before, k := arrivals[..|arrivals| - 1], arrivals[|arrivals| - 1];
      HeldIsPrefix(content, sha256, log, before);
      if k < |log| {
        ProperAt(content, sha256, log, k);
        ReceiveKeepsPrefix(content, sha256, log[..k], log[k], Held(log, before));
        assert forall e :: e in log[..k] ==> e in log;
      }
    }
  }

  /** What `requests` requests of the target size amount to. */
  function Volume(requests: nat, target: nat): nat {
    if requests == 0 then 0 else Volume(requests - 1, target) + target
  }

  lemma {:induction false} VolumeIsProduct(requests: nat, target: nat)
    ensures Volume(requests, target) == requests * target
    decreases requests
  {
    if requests > 0 {
      VolumeIsProduct(requests - 1, target);
    }
  }

  lemma {:induction false} VolumeGrows(requests: nat, more: nat, target: nat)
    requires requests < more && 0 < target
    ensures Volume(requests, target) + target <= Volume(more, target) && requests < Volume(more, target)
    decreases more
  {
    if requests + 1 < more {
      VolumeGrows(requests, more - 1, target);
    } else if requests > 0 {
      VolumeGrows(requests - 1, requests, target);
    }
  }

  /** A digest the loop holds is the content's, and is durable. */
  ghost predicate KnowsDigest(digest: string, finalSha: Option<string>, log: seq<Event>) {
    finalSha.Some? ==> finalSha.value == digest && Recorded(digest) in log
  }

  /** Everything the loop has done so far, and what its counters bound. */
  ghost predicate Running(buffer: CreateUploadBuffer, sha256: Bytes -> string, log: seq<Event>, noProgress: nat,
                          finalSha: Option<string>)
    reads buffer
  {
    && buffer.Valid() && buffer.pendingStartOffset < |buffer.content|
    && Proper(buffer.content, sha256, log)
    && buffer.bytesRead == SentTo(log)
    && noProgress <= MAX_NO_PROGRESS_RESPONSES && Requests(log) <= 4 * buffer.pendingStartOffset + noProgress
    && buffer.transmissions == Requests(log)
    && buffer.networkBytesAttempted <= Volume(Requests(log), buffer.targetRequestBytes)
    && KnowsDigest(sha256(buffer.content), finalSha, log)
  }

  /**
   Before a final request the digest of the whole content is made durable. With `evidence` it must be
   the digest already stored, and it is stored again each time.
   */
  method StoreFingerprint(buffer: CreateUploadBuffer, sha256: Bytes -> string, evidence: Option<string>, stored: bool,
                          finalSha0: Option<string>, ghost log0: seq<Event>)
    returns (failure: Option<UploadFailure>, finalSha: Option<string>, ghost log: seq<Event>)
    requires buffer.Valid() && buffer.bytesRead == |buffer.content| && Proper(buffer.content, sha256, log0)
    requires KnowsDigest(sha256(buffer.content), finalSha0, log0)
    ensures Proper(buffer.content, sha256, log) && SentTo(log) == SentTo(log0) && Requests(log) == Requests(log0)
    ensures failure.None? ==> finalSha.Some? && KnowsDigest(sha256(buffer.content), finalSha, log)
    ensures failure.None? && evidence.Some? ==> evidence == finalSha
    ensures failure.Some?
            ==> if failure == Some(FingerprintMismatch) then evidence.Some? && evidence.value != sha256(buffer.content)
                              else failure == Some(FingerprintNotStored) && !stored
  {
    failure, finalSha, log := None, finalSha0, log0;
    if evidence.Some? || finalSha.None? {
      var digest := buffer.CompletedSha256Hex(sha256);
      if evidence.Some? && digest.value != evidence.value {
        failure := Some(FingerprintMismatch);
        return;
      }
      if !stored {
        failure := Some(FingerprintNotStored);
        return;
      }
      ProperGrows(buffer.content, sha256, log, Recorded(digest.value));
      log := log + [Recorded(digest.value)];
      finalSha := Some(digest.value);
    }
  }

  method Transmit(buffer: CreateUploadBuffer, sha256: Bytes -> string, request: UploadRequest, ghost log0: seq<Event>)
    returns (failure: Option<UploadFailure>, ghost log: seq<Event>)
    requires buffer.Valid() && Proper(buffer.content, sha256, log0)
    requires buffer.Prepared(request) && buffer.pendingStartOffset <= SentTo(log0) <= buffer.bytesRead
    requires request.finalRequest ==> Recorded(sha256(buffer.content)) in log0
    modifies buffer`networkBytesAttempted, buffer`transmissions
    ensures buffer.Valid() && Proper(buffer.content, sha256, log) && Requests(log) <= Requests(log0) + 1
    ensures failure.None? ==> log == log0 + [Sent(request.startOffset, request.bytes, request.finalRequest)]
    ensures failure.None? ==> SentTo(log) == buffer.bytesRead
    ensures failure.None? ==> Requests(log) == Requests(log0) + 1
    ensures failure.None? ==> buffer.transmissions == old(buffer.transmissions) + 1
    ensures failure.None? ==> buffer.networkBytesAttempted == old(buffer.networkBytesAttempted) + |request.bytes|
    ensures failure.Some?
            ==> failure.value == BufferFailed(CountOverflow)
                && (old(buffer.networkBytesAttempted) + |request.bytes| > U64_MAX
                    || old(buffer.transmissions) == U64_MAX)
  {
    log := log0;
    var counted := buffer.RecordTransmissionBytes(request, |request.bytes|);
    if counted.Err? {
      return Some(BufferFailed(counted.error)), log;
    }
    ghost var sent := Sent(request.startOffset, request.bytes, request.finalRequest);
    ProperGrows(buffer.content, sha256, log, sent);
    log := log + [sent];
    failure := None;
  }

  /** One chunk: prepare it, make the digest durable when it is the last one, count it and send it. */
  method SendChunk(buffer: CreateUploadBuffer, sha256: Bytes -> string, evidence: Option<string>, readable: bool,
                   stored: bool,
                   finalSha0: Option<string>, ghost log0: seq<Event>)
    returns (failure: Option<UploadFailure>, request: UploadRequest, finalSha: Option<string>, ghost log: seq<Event>)
    requires buffer.Valid() && buffer.pendingStartOffset < |buffer.content|
    requires Proper(buffer.content, sha256, log0) && buffer.bytesRead == SentTo(log0)
    requires KnowsDigest(sha256(buffer.content), finalSha0, log0)
    modifies buffer
    ensures buffer.Valid() && buffer.pendingStartOffset == old(buffer.pendingStartOffset)
    ensures Proper(buffer.content, sha256, log) && Requests(log) <= Requests(log0) + 1
    ensures failure.None?
            ==> IsSent(buffer, evidence, request, finalSha, log) && KnowsDigest(sha256(buffer.content), finalSha, log)
    ensures failure.None?
            ==> HasCounted(buffer, log0, log, old(buffer.transmissions), old(buffer.networkBytesAttempted))
    ensures failure.Some? ==> SendFailureExplained(failure.value, evidence, sha256(buffer.content), readable, stored)
    ensures failure == Some(BufferFailed(CountOverflow))
            ==> old(buffer.networkBytesAttempted) + buffer.targetRequestBytes > U64_MAX
                || old(buffer.transmissions) == U64_MAX
  {
    request, finalSha, log := UploadRequest(0, [], false), finalSha0, log0;
    var prepared := buffer.PrepareRequest(readable);
    if prepared.Err? {
      return Some(BufferFailed(prepared.error)), request, finalSha, log;
    }
    request := prepared.value;
    if request.finalRequest {
      failure, finalSha, log := StoreFingerprint(buffer, sha256, evidence, stored, finalSha0, log0);
      if failure.Some? {
        return;
      }
    }
    failure, log := Transmit(buffer, sha256, request, log);
  }

  /** One more request, of at most the target size. */
  ghost predicate HasCounted(buffer: CreateUploadBuffer, log0: seq<Event>, log: seq<Event>, transmissions: nat,
                             networkBytesAttempted: nat)
    reads buffer
  {
    && Requests(log) == Requests(log0) + 1 && buffer.transmissions == transmissions + 1
    && buffer.networkBytesAttempted <= networkBytesAttempted + buffer.targetRequestBytes
  }

  /** The request closed the log, and took the digest along when it was final. */
  ghost predicate IsSent(buffer: CreateUploadBuffer, evidence: Option<string>, request: UploadRequest,
                         finalSha: Option<string>, log: seq<Event>)
    reads buffer
  {
    && log != [] && log[|log| - 1] == Sent(buffer.pendingStartOffset, request.bytes, request.finalRequest)
    && buffer.bytesRead == SentTo(log)
    && buffer.bytesRead == Min(buffer.pendingStartOffset + buffer.targetRequestBytes, |buffer.content|)
    && (request.finalRequest <==> buffer.bytesRead == |buffer.content|)
    && (request.finalRequest ==> finalSha.Some? && (evidence.Some? ==> evidence == finalSha))
  }

  ghost predicate SendFailureExplained(failure: UploadFailure, evidence: Option<string>, digest: string, readable: bool,
                                       stored: bool)
  {
    match failure
    case BufferFailed(reason) => reason == CountOverflow || (reason == ReadFailed && !readable)
    case FingerprintMismatch => evidence.Some? && evidence.value != digest
    case FingerprintNotStored => !stored
    case _ => false
  }

  /** Every turn before `t` learned that bytes are missing. */
  ghost predicate Ongoing(answers: nat -> Answers, total: nat, t: nat) {
    forall i: nat {:trigger LearnsIncomplete(answers, total, i)} :: i < t ==> LearnsIncomplete(answers, total, i)
  }

  predicate LearnsIncomplete(answers: nat -> Answers, total: nat, i: nat) {
    LearnedProgress(answers(i), total).Ok? && LearnedProgress(answers(i), total).value.Incomplete?
  }

  /** From which offset turn `t` sends: what the turn before it learned. */
  function SendsFrom(answers: nat -> Answers, total: nat, t: nat): nat {
    if t > 0 && LearnsIncomplete(answers, total, t - 1) then
      LearnedProgress(answers(t - 1), total).value.nextOffset else 0
  }

  /** The last `n` turns all sent from `offset` and learned that the provider still stands there. */
  ghost predicate Stalled(answers: nat -> Answers, total: nat, turn: nat, n: nat, offset: nat) {
    && n <= turn && (n > 0 ==> SendsFrom(answers, total, turn - n) == offset)
    && forall t: nat {:trigger StandsAt(answers, total, t, offset)} ::
         turn - n <= t < turn ==> StandsAt(answers, total, t, offset)
  }

  predicate StandsAt(answers: nat -> Answers, total: nat, t: nat, offset: nat) {
    LearnedProgress(answers(t), total) == Ok(Incomplete(offset))
  }

  ghost predicate StalledSomewhere(answers: nat -> Answers, total: nat, turn: nat, n: nat) {
    exists offset: nat :: Stalled(answers, total, turn, n, offset)
  }

  /** The provider is not where it can be after the last request: off what was sent, or done too early. */
  predicate IsOutside(progress: Progress, sentFrom: nat, sentTo: nat, total: nat) {
    match progress
    case Incomplete(nextOffset) => nextOffset < sentFrom || sentTo < nextOffset
    case Complete(_) => sentTo < total
    case Expired => false
  }

  /** Why turn `t` ended the upload without completing it. */
  ghost predicate Explained(failure: UploadFailure, evidence: Option<string>, digest: string, total: nat, target: nat,
                            answers: nat -> Answers, readable: nat -> bool, stored: nat -> bool, t: nat)
  {
    var learned, sentTo := LearnedProgress(answers(t), total), Min(SendsFrom(answers, total, t) + target, total);
    match failure
    case BufferFailed(reason) =>
      (reason == CountOverflow && Volume(4 * total, target) > U64_MAX) || (reason == ReadFailed && !readable(t))
    case FingerprintMismatch => evidence.Some? && evidence.value != digest
    case FingerprintNotStored => !stored(t)
    case SessionExpired => learned == Ok(Expired)
    case NoProgressLimitExceeded => StalledSomewhere(answers, total, t + 1, MAX_NO_PROGRESS_RESPONSES + 1)
    case ResumeOffsetOutside => learned.Ok? && IsOutside(learned.value, SendsFrom(answers, total, t), sentTo, total)
    case _ => learned == Err(failure)
  }

  /** The provider still lacks bytes from `nextOffset` on: move there, or count a turn without progress. */
  method Acknowledge(buffer: CreateUploadBuffer, nextOffset: nat, noProgress0: nat,
                     ghost answers: nat -> Answers, ghost total: nat, ghost last: nat)
    returns (failure: Option<UploadFailure>, noProgress: nat)
    requires buffer.Valid() && nextOffset < |buffer.content| && noProgress0 <= MAX_NO_PROGRESS_RESPONSES
    requires LearnedProgress(answers(last), total) == Ok(Incomplete(nextOffset))
    requires Stalled(answers, total, last, noProgress0, buffer.pendingStartOffset)
    requires buffer.pendingStartOffset == SendsFrom(answers, total, last)
    modifies buffer`pendingStartOffset, buffer`pending
    ensures buffer.Valid() && (failure.None? ==> buffer.pendingStartOffset == nextOffset)
    ensures failure.None?
            ==> noProgress <= MAX_NO_PROGRESS_RESPONSES
                && Stalled(answers, total, last + 1, noProgress, buffer.pendingStartOffset)
    ensures failure.None? ==> old(buffer.pendingStartOffset) < buffer.pendingStartOffset == nextOffset
                              || (noProgress == noProgress0 + 1
                                  && buffer.pendingStartOffset == old(buffer.pendingStartOffset))
    ensures failure.Some? ==> (&& failure.value == ResumeOffsetOutside
                               && (nextOffset < old(buffer.pendingStartOffset) || buffer.bytesRead < nextOffset))
                              || (failure.value == NoProgressLimitExceeded
                                  && StalledSomewhere(answers, total, last + 1, MAX_NO_PROGRESS_RESPONSES + 1))
  {
    failure, noProgress := None, noProgress0;
    var accepted := buffer.AcknowledgeProviderOffset(nextOffset);
    if accepted.Err? {
      failure := Some(ResumeOffsetOutside);
    } else if accepted.value == 0 {
      noProgress := noProgress + 1;
      assert Stalled(answers, total, last + 1, noProgress, nextOffset);
      if noProgress > MAX_NO_PROGRESS_RESPONSES {
        failure := Some(NoProgressLimitExceeded);
      }
    } else {
      noProgress := 0;
    }
  }

  /** Between two turns. */
  ghost predicate AtTurn(buffer: CreateUploadBuffer, sha256: Bytes -> string, answers: nat -> Answers, turn: nat,
                         log: seq<Event>, noProgress: nat, finalSha: Option<string>)
    reads buffer
  {
    && Running(buffer, sha256, log, noProgress, finalSha)
    && Stalled(answers, |buffer.content|, turn, noProgress, buffer.pendingStartOffset)
    && Ongoing(answers, |buffer.content|, turn)
    && buffer.pendingStartOffset == SendsFrom(answers, |buffer.content|, turn)
  }

  /** A chunk is out and its answer not yet looked at. */
  ghost predicate InFlight(buffer: CreateUploadBuffer, sha256: Bytes -> string, evidence: Option<string>,
                           answers: nat -> Answers, turn: nat, log: seq<Event>, noProgress: nat,
                           request: UploadRequest, finalSha: Option<string>)
    reads buffer
  {
    && buffer.Valid() && buffer.pendingStartOffset < |buffer.content| && Proper(buffer.content, sha256, log)
    && IsSent(buffer, evidence, request, finalSha, log) && KnowsDigest(sha256(buffer.content), finalSha, log)
    && noProgress <= MAX_NO_PROGRESS_RESPONSES && Requests(log) <= 4 * buffer.pendingStartOffset + noProgress + 1
    && buffer.transmissions == Requests(log)
    && buffer.networkBytesAttempted <= Volume(Requests(log), buffer.targetRequestBytes)
    && Stalled(answers, |buffer.content|, turn, noProgress, buffer.pendingStartOffset)
    && Ongoing(answers, |buffer.content|, turn)
    && buffer.pendingStartOffset == SendsFrom(answers, |buffer.content|, turn)
  }

  /** The first half of a turn. */
  method SendTurn(buffer: CreateUploadBuffer, sha256: Bytes -> string, evidence: Option<string>,
                  ghost answers: nat -> Answers, readable: nat -> bool, stored: nat -> bool, turn: nat,
                  ghost noProgress: nat, finalSha0: Option<string>, ghost log0: seq<Event>)
    returns (failure: Option<UploadFailure>, request: UploadRequest, finalSha: Option<string>, ghost log: seq<Event>)
    requires AtTurn(buffer, sha256, answers, turn, log0, noProgress, finalSha0)
    modifies buffer
    ensures buffer.Valid() && buffer.pendingStartOffset == old(buffer.pendingStartOffset)
    ensures failure.None?
            ==> InFlight(buffer, sha256, evidence, answers, turn, log, noProgress, request, finalSha)
    ensures failure.Some?
            ==> && Proper(buffer.content, sha256, log) && Requests(log) <= 4 * |buffer.content|
                && Explained(failure.value, evidence, sha256(buffer.content), |buffer.content|,
                             buffer.targetRequestBytes, answers, readable, stored, turn)
  {
    VolumeGrows(Requests(log0), 4 * |buffer.content|, buffer.targetRequestBytes);
    failure, request, finalSha, log :=
      SendChunk(buffer, sha256, evidence, readable(turn), stored(turn), finalSha0, log0);
  }

  /** Bytes are still missing: go on from the learned offset. */
  method TakeOffset(buffer: CreateUploadBuffer, ghost sha256: Bytes -> string, ghost evidence: Option<string>,
                    ghost answers: nat -> Answers, ghost turn: nat, noProgress0: nat, ghost request: UploadRequest,
                    ghost finalSha: Option<string>, ghost log: seq<Event>, nextOffset: nat)
    returns (stopped: Option<UploadFailure>, noProgress: nat)
    requires InFlight(buffer, sha256, evidence, answers, turn, log, noProgress0, request, finalSha)
    requires LearnedProgress(answers(turn), |buffer.content|) == Ok(Incomplete(nextOffset))
    modifies buffer`pendingStartOffset, buffer`pending
    ensures buffer.Valid()
    ensures stopped.None? ==> AtTurn(buffer, sha256, answers, turn + 1, log, noProgress, finalSha)
    ensures stopped.None? ==> old(buffer.pendingStartOffset) < buffer.pendingStartOffset
                              || (old(buffer.pendingStartOffset) == buffer.pendingStartOffset
                                  && noProgress0 < noProgress)
    ensures stopped.Some? ==> (&& stopped.value == ResumeOffsetOutside
                               && (nextOffset < old(buffer.pendingStartOffset) || buffer.bytesRead < nextOffset))
                              || (stopped.value == NoProgressLimitExceeded
                                  && StalledSomewhere(answers, |buffer.content|, turn + 1,
                                                      MAX_NO_PROGRESS_RESPONSES + 1))
  {
    assert LearnsIncomplete(answers, |buffer.content|, turn);
    stopped, noProgress := Acknowledge(buffer, nextOffset, noProgress0, answers, |buffer.content|, turn);
  }

  /** The second half: stop with a completion or a failure, or go on. */
  method TakeProgress(buffer: CreateUploadBuffer, ghost sha256: Bytes -> string, ghost evidence: Option<string>,
                      ghost answers: nat -> Answers, ghost readable: nat -> bool, ghost stored: nat -> bool,
                      ghost turn: nat, noProgress0: nat, request: UploadRequest, ghost finalSha: Option<string>,
                      ghost log: seq<Event>, progress: Progress)
    returns (outcome: Option<Result<Completion, UploadFailure>>, noProgress: nat)
    requires InFlight(buffer, sha256, evidence, answers, turn, log, noProgress0, request, finalSha)
    requires LearnedProgress(answers(turn), |buffer.content|) == Ok(progress)
    modifies buffer`pendingStartOffset, buffer`pending
    ensures buffer.Valid()
    ensures outcome.None? ==> AtTurn(buffer, sha256, answers, turn + 1, log, noProgress, finalSha)
    ensures outcome.None? ==> old(buffer.pendingStartOffset) < buffer.pendingStartOffset
                              || (old(buffer.pendingStartOffset) == buffer.pendingStartOffset
                                  && noProgress0 < noProgress)
    ensures outcome.Some? && outcome.value.Ok? ==> progress == Complete(outcome.value.value) && request.finalRequest
    ensures outcome.Some? && outcome.value.Err?
            ==> Explained(outcome.value.error, evidence, sha256(buffer.content), |buffer.content|,
                          buffer.targetRequestBytes, answers, readable, stored, turn)
  {
    noProgress := noProgress0;
    match progress {
      case Incomplete(nextOffset) =>
        var stopped;
        stopped, noProgress := TakeOffset(buffer, sha256, evidence, answers, turn, noProgress0, request, finalSha, log,
                                          nextOffset);
        outcome := if stopped.Some? then Some(Err(stopped.value)) else None;
      case Complete(completion) =>
        outcome := Some(if request.finalRequest then Ok(completion) else Err(ResumeOffsetOutside));
      case Expired =>
        outcome := Some(Err(SessionExpired));
    }
  }

  /** Of a chunk the provider takes some first part, which may be nothing or all of it. */
  predicate Takes(held: nat -> nat, total: nat, target: nat, t: nat) {
    held(t) <= held(t + 1) <= Min(held(t) + target, total)
  }

  /** Within four turns it takes something. */
  predicate GetsOn(held: nat -> nat, total: nat, t: nat) {
    held(t) < total ==> held(t) < held(t + 4)
  }

  /** It reports what it holds after the turn, at the latest when asked for its status. */
  predicate Tells(held: nat -> nat, answers: nat -> Answers, total: nat, completion: Completion, t: nat) {
    var report := Report(held(t + 1), total, completion);
    || answers(t).chunk == Some(report)
    || ((answers(t).chunk.None? || answers(t).chunk == Some(Unexpected) || answers(t).chunk == Some(Finished(None)))
        && answers(t).status == Some(report))
  }

  /** A provider that holds `held(t)` bytes before turn `t`, reports truly, and gets on. */
  ghost predicate IsWilling(held: nat -> nat, answers: nat -> Answers, total: nat, target: nat, completion: Completion)
  {
    && held(0) == 0
    && (forall t: nat {:trigger Takes(held, total, target, t)} :: Takes(held, total, target, t))
    && (forall t: nat {:trigger GetsOn(held, total, t)} :: GetsOn(held, total, t))
    && (forall t: nat {:trigger Tells(held, answers, total, completion, t)} ::
          Tells(held, answers, total, completion, t))
  }

  lemma {:induction false} LearnsFromWilling(held: nat -> nat, answers: nat -> Answers, total: nat, target: nat,
                                             completion: Completion, t: nat)
    requires IsWilling(held, answers, total, target, completion) && total <= U64_MAX
    ensures LearnedProgress(answers(t), total) == Ok(Meaning(held(t + 1), total, completion))
  {
    assert Tells(held, answers, total, completion, t);
    ReportIsUnderstood(held(t + 1), total, completion);
  }

  lemma {:induction false} SendsFromHeld(held: nat -> nat, answers: nat -> Answers, total: nat, target: nat,
                                         completion: Completion, t: nat)
    requires IsWilling(held, answers, total, target, completion) && total <= U64_MAX && Ongoing(answers, total, t)
    ensures SendsFrom(answers, total, t) == held(t)
  {
    if t > 0 {
      assert LearnsIncomplete(answers, total, t - 1);
      LearnsFromWilling(held, answers, total, target, completion, t - 1);
    }
  }

  /** Nothing on this side is in the way: the file reads, the digest is stored and matches, and counts fit 64 bits. */
  ghost predicate IsUnhindered(evidence: Option<string>, digest: string, total: nat, target: nat,
                               readable: nat -> bool, stored: nat -> bool)
  {
    && total <= U64_MAX && Volume(4 * total, target) <= U64_MAX && (evidence.Some? ==> evidence.value == digest)
    && (forall t: nat :: readable(t)) && (forall t: nat :: stored(t))
  }

  lemma {:induction false} WillingGetsOn(held: nat -> nat, answers: nat -> Answers, total: nat, target: nat,
                                         completion: Completion, t: nat)
    requires IsWilling(held, answers, total, target, completion)
    ensures held(t) < total ==> held(t) < held(t + MAX_NO_PROGRESS_RESPONSES + 1)
  {
    assert GetsOn(held, total, t);
  }

  lemma {:induction false} WillingNeverStalls(held: nat -> nat, answers: nat -> Answers, total: nat, target: nat,
                                              completion: Completion, t: nat)
    requires IsWilling(held, answers, total, target, completion) && total <= U64_MAX && Ongoing(answers, total, t)
    ensures !StalledSomewhere(answers, total, t + 1, MAX_NO_PROGRESS_RESPONSES + 1)
  {
    if StalledSomewhere(answers, total, t + 1, MAX_NO_PROGRESS_RESPONSES + 1) {
      var offset: nat :| Stalled(answers, total, t + 1, MAX_NO_PROGRESS_RESPONSES + 1, offset);
      var first := t - MAX_NO_PROGRESS_RESPONSES;
      assert StandsAt(answers, total, t, offset);
      SendsFromHeld(held, answers, total, target, completion, first);
      LearnsFromWilling(held, answers, total, target, completion, t);
      WillingGetsOn(held, answers, total, target, completion, first);
    }
  }

  /** With a willing provider and nothing in the way there is no cause for a failure in any turn. */
  lemma {:induction false} WillingNeverFails(held: nat -> nat, answers: nat -> Answers, total: nat, target: nat,
                                             completion: Completion, evidence: Option<string>, digest: string,
                                             readable: nat -> bool, stored: nat -> bool, t: nat,
                                             failure: UploadFailure)
    requires IsWilling(held, answers, total, target, completion) && Ongoing(answers, total, t)
    requires IsUnhindered(evidence, digest, total, target, readable, stored)
    ensures !Explained(failure, evidence, digest, total, target, answers, readable, stored, t)
  {
    assert Takes(held, total, target, t);
    LearnsFromWilling(held, answers, total, target, completion, t);
    SendsFromHeld(held, answers, total, target, completion, t);
    WillingNeverStalls(held, answers, total, target, completion, t);
  }

  /** There is a willing provider behind the answers. */
  ghost predicate IsServed(answers: nat -> Answers, total: nat, target: nat, completion: Completion) {
    exists held: nat -> nat :: IsWilling(held, answers, total, target, completion)
  }

  /** Served by a willing provider and unhindered, the upload completes, with the provider's completion. */
  lemma {:induction false} ServedCompletes(answers: nat -> Answers, total: nat, target: nat, completion: Completion,
                                           evidence: Option<string>, digest: string,
                                           readable: nat -> bool, stored: nat -> bool, last: nat,
                                           r: Result<(Completion, string), UploadFailure>)
    requires IsServed(answers, total, target, completion) && Ongoing(answers, total, last)
    requires IsUnhindered(evidence, digest, total, target, readable, stored)
    requires r.Ok? ==> LearnedProgress(answers(last), total) == Ok(Complete(r.value.0)) && r.value.1 == digest
    requires r.Err? ==> Explained(r.error, evidence, digest, total, target, answers, readable, stored, last)
    ensures r == Ok((completion, digest))
  {
    var held: nat -> nat :| IsWilling(held, answers, total, target, completion);
    LearnsFromWilling(held, answers, total, target, completion, last);
    if r.Err? {
      WillingNeverFails(held, answers, total, target, completion, evidence, digest, readable, stored, last, r.error);
    }
  }

  ghost predicate MustComplete(answers: nat -> Answers, total: nat, target: nat, completion: Completion,
                               evidence: Option<string>, digest: string, readable: nat -> bool, stored: nat -> bool)
  {
    && IsServed(answers, total, target, completion)
    && IsUnhindered(evidence, digest, total, target, readable, stored)
  }

  /** How an upload ended after turn `last`. */
  ghost predicate IsOutcome(buffer: CreateUploadBuffer, sha256: Bytes -> string, evidence: Option<string>,
                            answers: nat -> Answers, readable: nat -> bool, stored: nat -> bool, last: nat,
                            log: seq<Event>, r: Result<(Completion, string), UploadFailure>)
    reads buffer
  {
    && buffer.Valid() && Proper(buffer.content, sha256, log) && Requests(log) <= 4 * |buffer.content|
    && Ongoing(answers, |buffer.content|, last)
    && (r.Ok? ==>
          && log != [] && log[|log| - 1].Sent? && log[|log| - 1].finalRequest
          && LearnedProgress(answers(last), |buffer.content|) == Ok(Complete(r.value.0))
          && r.value.1 == sha256(buffer.content) && Recorded(r.value.1) in log
          && (evidence.Some? ==> r.value.1 == evidence.value)
          && buffer.transmissions == Requests(log))
    && (r.Err? ==>
          Explained(r.error, evidence, sha256(buffer.content), |buffer.content|, buffer.targetRequestBytes,
                    answers, readable, stored, last))
  }

  /** One turn of the loop. */
  method TakeTurn(buffer: CreateUploadBuffer, sha256: Bytes -> string, evidence: Option<string>,
                  answers: nat -> Answers, readable: nat -> bool, stored: nat -> bool, turn: nat,
                  noProgress0: nat, finalSha0: Option<string>, ghost log0: seq<Event>)
    returns (outcome: Option<Result<(Completion, string), UploadFailure>>, noProgress: nat,
             finalSha: Option<string>, ghost log: seq<Event>)
    requires AtTurn(buffer, sha256, answers, turn, log0, noProgress0, finalSha0)
    modifies buffer
    ensures outcome.None? ==> AtTurn(buffer, sha256, answers, turn + 1, log, noProgress, finalSha)
    ensures outcome.None? ==> old(buffer.pendingStartOffset) < buffer.pendingStartOffset
                              || (old(buffer.pendingStartOffset) == buffer.pendingStartOffset
                                  && noProgress0 < noProgress)
    ensures outcome.Some?
            ==> IsOutcome(buffer, sha256, evidence, answers, readable, stored, turn, log, outcome.value)
  {
    var failure, request;
    failure, request, finalSha, log :=
      SendTurn(buffer, sha256, evidence, answers, readable, stored, turn, noProgress0, finalSha0, log0);
    noProgress := noProgress0;
    if failure.Some? {
      return Some(Err(failure.value)), noProgress, finalSha, log;
    }
    var progress := LearnedProgress(answers(turn), |buffer.content|);
    if progress.Err? {
      return Some(Err(progress.error)), noProgress, finalSha, log;
    }
    var ended;
    ended, noProgress :=
      TakeProgress(buffer, sha256, evidence, answers, readable, stored, turn, noProgress0, request, finalSha, log,
                   progress.value);
    outcome := if ended.None? then None
               else if ended.value.Err? then Some(Err(ended.value.error))
               else Some(Ok((ended.value.value, finalSha.value)));
  }

  /**
   Ends after at most four requests a byte: each turn either moves the acknowledged offset or uses up
   one of the three turns without progress. Completion is only taken from a final request, and every
   failure has its cause in the last turn. With a provider that gets on, and nothing in the way, it completes.
   */
  method UploadFile(buffer: CreateUploadBuffer, sha256: Bytes -> string, evidence: Option<string>,
                    answers: nat -> Answers, readable: nat -> bool, stored: nat -> bool)
    returns (r: Result<(Completion, string), UploadFailure>, ghost log: seq<Event>, ghost last: nat)
    requires buffer.Valid() && buffer.AtStart() && buffer.content != []
    modifies buffer
    ensures IsOutcome(buffer, sha256, evidence, answers, readable, stored, last, log, r)
    ensures forall completion ::
              MustComplete(answers, |buffer.content|, buffer.targetRequestBytes, completion, evidence,
                           sha256(buffer.content), readable, stored)
              ==> r == Ok((completion, sha256(buffer.content)))
  {
    log, last := [], 0;
    var finalSha256: Option<string> := None;
    var turn, noProgressResponses: nat := 0, 0;
    var outcome: Option<Result<(Completion, string), UploadFailure>> := None;
    while outcome.None?
      invariant outcome.None? ==> AtTurn(buffer, sha256, answers, turn, log, noProgressResponses, finalSha256)
      invariant outcome.Some?
                ==> IsOutcome(buffer, sha256, evidence, answers, readable, stored, last, log, outcome.value)
      decreases outcome.None?, |buffer.content| - buffer.pendingStartOffset,
                MAX_NO_PROGRESS_RESPONSES - noProgressResponses
    {
      last := turn;
      outcome, noProgressResponses, finalSha256, log :=
        TakeTurn(buffer, sha256, evidence, answers, readable, stored, turn, noProgressResponses, finalSha256, log);
      turn := turn + 1;
    }
    r := outcome.value;
    forall completion |
      MustComplete(answers, |buffer.content|, buffer.targetRequestBytes, completion, evidence,
                   sha256(buffer.content), readable, stored)
      ensures r == Ok((completion, sha256(buffer.content)))
    {
      ServedCompletes(answers, |buffer.content|, buffer.targetRequestBytes, completion, evidence,
                      sha256(buffer.content), readable, stored, last, r);
    }
  }
}
