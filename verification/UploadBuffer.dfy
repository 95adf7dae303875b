/** The upload buffer of a file create: what is read, what is waiting, and what a request may carry. */
module UploadBuffer {
  import opened Wrappers

  type Bytes = seq<bv8>

  const U64_MAX := 0xFFFF_FFFF_FFFF_FFFF

  datatype UploadError =
    | ChunkSizeInvalid
    | CountOverflow
    | ReadFailed
    | StreamIncomplete
    | ResumeOffsetMismatch
    | LocalIdentityMismatch

  datatype UploadRequest = UploadRequest(startOffset: nat, bytes: Bytes, finalRequest: bool)

  datatype UploadResult = UploadResult(
    bytesStreamed: nat,
    sha256Hex: string,
    sourceStable: bool,
    networkBytesAttempted: nat,
    transmissions: nat)

  datatype FileType = RegularFile | SymbolicLink | OtherType

  /** Times are seconds and nanoseconds. */
  datatype Metadata = Metadata(
    fileType: FileType,
    device: nat,
    inode: nat,
    size: nat,
    modified: (int, int),
    changed: (int, int))

  /** Both are metadata of one regular file that was not touched in between. */
  predicate SameFileState(before: Metadata, after: Metadata) {
    before == after && before.fileType.RegularFile?
  }

  function Min(a: nat, b: nat): nat {
    if a <= b then a else b
  }

  class CreateUploadBuffer {
    /** The bytes that the open file yields. */
    const content: Bytes
    const targetRequestBytes: nat
    const alignmentBytes: nat
    var bytesRead: nat
    /** What has been fed to the hasher. */
    var hashed: Bytes
    var pendingStartOffset: nat
    var pending: Bytes
    var networkBytesAttempted: nat
    var transmissions: nat

    ghost predicate Valid()
      reads this
    {
      && 0 < targetRequestBytes && 0 < alignmentBytes && targetRequestBytes % alignmentBytes == 0
      && pendingStartOffset <= bytesRead <= |content|
      && pending == content[pendingStartOffset..bytesRead] && |pending| <= targetRequestBytes
      && hashed == content[..bytesRead]
    }

    /** The request carries everything that waits, and is final when nothing is left to read. */
    predicate Prepared(request: UploadRequest)
      reads this
    {
      pending != [] && request == UploadRequest(pendingStartOffset, pending, bytesRead == |content|)
    }

    /** Nothing read or sent yet. */
    ghost predicate AtStart()
      reads this
    {
      bytesRead == 0 && pendingStartOffset == 0 && networkBytesAttempted == 0 && transmissions == 0
    }

    constructor (content: Bytes, targetRequestBytes: nat, alignmentBytes: nat)
      requires 0 < targetRequestBytes && 0 < alignmentBytes && targetRequestBytes % alignmentBytes == 0
      ensures Valid() && AtStart() && this.content == content
      ensures this.targetRequestBytes == targetRequestBytes && this.alignmentBytes == alignmentBytes
    {
      this.content, this.targetRequestBytes, this.alignmentBytes := content, targetRequestBytes, alignmentBytes;
      bytesRead, hashed, pendingStartOffset, pending := 0, [], 0, [];
      networkBytesAttempted, transmissions := 0, 0;
    }

    static method New(content: Bytes, targetRequestBytes: nat, alignmentBytes: nat)
      returns (r: Result<CreateUploadBuffer, UploadError>)
      ensures r.Err? <==> targetRequestBytes == 0 || alignmentBytes == 0 || targetRequestBytes % alignmentBytes != 0
      ensures r.Err? ==> r.error == ChunkSizeInvalid
      ensures r.Ok? ==> fresh(r.value) && r.value.Valid() && r.value.AtStart() && r.value.content == content
      ensures r.Ok? ==> r.value.targetRequestBytes == targetRequestBytes && r.value.alignmentBytes == alignmentBytes
    {
      if targetRequestBytes == 0 || alignmentBytes == 0 || targetRequestBytes % alignmentBytes != 0 {
        return Err(ChunkSizeInvalid);
      }
      var buffer := new CreateUploadBuffer(content, targetRequestBytes, alignmentBytes);
      return Ok(buffer);
    }

    /**
     The request always starts at the acknowledged offset and carries the source's own bytes up to
     the target size or the end; only the file read, or an already acknowledged end, can stop it.
     */
    method PrepareRequest(readable: bool) returns (r: Result<UploadRequest, UploadError>)
      requires Valid()
      modifies this
      ensures Valid() && pendingStartOffset == old(pendingStartOffset)
      ensures networkBytesAttempted == old(networkBytesAttempted) && transmissions == old(transmissions)
      ensures r.Err? <==> |content| <= pendingStartOffset
                          || (old(|pending|) < Min(|content| - pendingStartOffset, targetRequestBytes) && !readable)
      ensures r.Err?
              ==> bytesRead == old(bytesRead)
                  && r.error == if |content| <= pendingStartOffset then StreamIncomplete else ReadFailed
      ensures r.Ok? ==> Prepared(r.value) && (!r.value.finalRequest ==> |pending| == targetRequestBytes)
      ensures r.Ok? ==> bytesRead == pendingStartOffset + Min(|content| - pendingStartOffset, targetRequestBytes)
    {
      if pendingStartOffset >= |content| {
        return Err(StreamIncomplete);
      }
      var target := Min(|content| - pendingStartOffset, targetRequestBytes);
      var missing := target - |pending|;
      if missing > 0 {
        if !readable {
          return Err(ReadFailed);
        }
        var newlyRead := content[bytesRead..bytesRead + missing];
        pending := pending + newlyRead;
        hashed := hashed + newlyRead;
        bytesRead := bytesRead + missing;
      }
      return Ok(UploadRequest(pendingStartOffset, pending, bytesRead == |content|));
    }

    method RecordTransmissionBytes(request: UploadRequest, transmittedBytes: nat) returns (r: Result<(), UploadError>)
      requires Valid()
      modifies this`networkBytesAttempted, this`transmissions
      ensures Valid()
      ensures r == Err(ResumeOffsetMismatch)
              <==> request.startOffset != pendingStartOffset || request.bytes != pending
                   || transmittedBytes == 0 || transmittedBytes > |request.bytes|
      ensures r.Err? && r.error != ResumeOffsetMismatch
              ==> r.error == CountOverflow
                  && (old(networkBytesAttempted) + transmittedBytes > U64_MAX || old(transmissions) == U64_MAX)
      ensures r.Ok?
              ==> networkBytesAttempted == old(networkBytesAttempted) + transmittedBytes
                  && transmissions == old(transmissions) + 1
                  && networkBytesAttempted <= U64_MAX && old(transmissions) != U64_MAX
    {
      if request.startOffset != pendingStartOffset || request.bytes != pending || request.bytes == []
         || transmittedBytes == 0 || transmittedBytes > |request.bytes|
      {
        return Err(ResumeOffsetMismatch);
      }
      if networkBytesAttempted + transmittedBytes > U64_MAX {
        return Err(CountOverflow);
      }
      networkBytesAttempted := networkBytesAttempted + transmittedBytes;
      if transmissions == U64_MAX {
        return Err(CountOverflow);
      }
      transmissions := transmissions + 1;
      return Ok(());
    }

    /** An offset is accepted exactly when it lies within what was sent; accepted bytes leave the buffer. */
    method AcknowledgeProviderOffset(nextOffset: nat) returns (r: Result<nat, UploadError>)
      requires Valid()
      modifies this`pendingStartOffset, this`pending
      ensures Valid()
      ensures r.Ok? <==> old(pendingStartOffset) <= nextOffset <= bytesRead
      ensures r.Ok? ==> pendingStartOffset == nextOffset && r.value == nextOffset - old(pendingStartOffset)
      ensures r.Err? ==> r.error == ResumeOffsetMismatch && pendingStartOffset == old(pendingStartOffset)
    {
      var pendingEnd := pendingStartOffset + |pending|;
      if nextOffset < pendingStartOffset || nextOffset > pendingEnd {
        return Err(ResumeOffsetMismatch);
      }
      var accepted := nextOffset - pendingStartOffset;
      if accepted > 0 {
        pending := pending[accepted..];
      }
      pendingStartOffset := nextOffset;
      return Ok(accepted);
    }

    /** Each byte is hashed once, however often it is sent: the digest is that of the content. */
    method CompletedSha256Hex(sha256: Bytes -> string) returns (r: Result<string, UploadError>)
      requires Valid()
      ensures r == if bytesRead == |content| then Ok(sha256(content)) else Err(StreamIncomplete)
    {
      if bytesRead != |content| {
        return Err(StreamIncomplete);
      }
      assert content[..|content|] == content;
      return Ok(sha256(hashed));
    }

    /**
     `initial` is the metadata from when the source was opened, `openAfter` that of the open file and
     `pathAfter` that of its path now; None is a failed request.
     */
    method FinishCompleted(sha256: Bytes -> string, initial: Metadata, openAfter: Option<Metadata>,
                           pathAfter: Option<Metadata>)
      returns (r: Result<UploadResult, UploadError>)
      requires Valid()
      ensures r.Ok? <==> bytesRead == |content| && openAfter.Some? && pathAfter.Some?
      ensures r.Err? ==> r.error == if bytesRead != |content| then StreamIncomplete
                                    else if openAfter.None? then ReadFailed else LocalIdentityMismatch
      ensures r.Ok? ==> r.value.bytesStreamed == |content| && r.value.sha256Hex == sha256(content)
      ensures r.Ok? ==> r.value.networkBytesAttempted == networkBytesAttempted
      ensures r.Ok? ==> r.value.transmissions == transmissions
      ensures r.Ok? ==> (r.value.sourceStable
                         <==> initial.fileType.RegularFile? && openAfter.value == pathAfter.value == initial)
    {
      if bytesRead != |content| || pendingStartOffset + |pending| != |content| {
        return Err(StreamIncomplete);
      }
      if openAfter.None? {
        return Err(ReadFailed);
      }
      if pathAfter.None? {
        return Err(LocalIdentityMismatch);
      }
      assert content[..|content|] == content;
      var sourceStable := SameFileState(initial, openAfter.value) && SameFileState(initial, pathAfter.value);
      return Ok(UploadResult(bytesRead, sha256(hashed), sourceStable, networkBytesAttempted, transmissions));
    }
  }
}
