/** What a change window, the catalog and the provider must show before a created file counts as confirmed. */
module FileCreateEvidence {
  import opened Wrappers
  import opened RemoteCatalog

  /** Where the created file belongs: its predetermined id, its name, and the id of its parent. */
  datatype Target = Target(id: Id, name: string, parent: Id)

  predicate ItemExact(target: Target, size: nat, item: RemoteItem) {
    && item.name == target.name && item.kind.File? && item.parentRemoteId == Some(target.parent)
    && item.sizeBytes == Some(size) && !item.trashed
  }

  /** None for a change to something else; a deletion of the target is never exact. */
  function TargetChangeExact(target: Target, size: nat, change: RemoteChange): Option<bool> {
    match change
    case Upsert(item) => if item.remoteId == target.id then Some(ItemExact(target, size, item)) else None
    case Delete(remoteId) => if remoteId == target.id then Some(false) else None
  }

  function TargetChanges(target: Target, window: seq<RemoteChange>): nat {
    if window == [] then 0
    else
      var last := |window| - 1;
      TargetChanges(target, window[..last]) + if ChangeId(window[last]) == target.id then 1 else 0
  }

  /** Whether the latest change to the target is exact, if there is one. */
  function LastTargetExact(target: Target, size: nat, window: seq<RemoteChange>): Option<bool> {
    if window == [] then None
    else
      var last := |window| - 1;
      var here := TargetChangeExact(target, size, window[last]);
      if here.Some? then here else LastTargetExact(target, size, window[..last])
  }

  predicate FinalExact(target: Target, size: nat, item: Option<RemoteItem>) {
    item.Some? && ItemExact(target, size, item.value)
  }

  predicate IsLastChange(target: Target, window: seq<RemoteChange>, i: nat) {
    && i < |window| && ChangeId(window[i]) == target.id
    && forall j :: i < j < |window| ==> ChangeId(window[j]) != target.id
  }

  /** The latest change to the target upserts it, live, with the expected name, parent, kind and size. */
  predicate LastChangeIsExact(target: Target, size: nat, window: seq<RemoteChange>) {
    exists i: nat | i < |window| ::
      && IsLastChange(target, window, i) && window[i].Upsert? && window[i].item.name == target.name
      && window[i].item.parentRemoteId == Some(target.parent) && window[i].item.kind.File?
      && window[i].item.sizeBytes == Some(size) && !window[i].item.trashed
  }

  predicate Mentions(target: Target, window: seq<RemoteChange>) {
    exists i :: 0 <= i < |window| && ChangeId(window[i]) == target.id
  }

  /** One backward reading of the window says both whether the target changed and how its latest change looks. */
  lemma {:induction false} LastTargetExactIff(target: Target, size: nat, window: seq<RemoteChange>)
    ensures LastTargetExact(target, size, window).Some? <==> Mentions(target, window)
    ensures LastTargetExact(target, size, window) == Some(true) <==> LastChangeIsExact(target, size, window)
  {
    if window != [] {
      var last := |window| - 1;
      var rest := window[..last];
      if ChangeId(window[last]) == target.id {
        LastIsLast(target, size, window);
      } else {
        LastTargetExactIff(target, size, rest);
        OthersDoNotMatter(target, size, window);
      }
    }
  }

  lemma {:induction false} LastIsLast(target: Target, size: nat, window: seq<RemoteChange>)
    requires window != [] && ChangeId(window[|window| - 1]) == target.id
    ensures Mentions(target, window)
    ensures LastChangeIsExact(target, size, window)
            <==> TargetChangeExact(target, size, window[|window| - 1]) == Some(true)
  {
    var last := |window| - 1;
    assert IsLastChange(target, window, last);
    assert forall i :: 0 <= i < last ==> !IsLastChange(target, window, i);
  }

  lemma {:induction false} OthersDoNotMatter(target: Target, size: nat, window: seq<RemoteChange>)
    requires window != [] && ChangeId(window[|window| - 1]) != target.id
    ensures Mentions(target, window) <==> Mentions(target, window[..|window| - 1])
    ensures LastChangeIsExact(target, size, window)
            <==> LastChangeIsExact(target, size, window[..|window| - 1])
  {
    var last := |window| - 1;
    var rest := window[..last];
    assert forall i: nat :: i < last ==> IsLastChange(target, window, i) == IsLastChange(target, rest, i);
    assert !IsLastChange(target, window, last);
    if LastChangeIsExact(target, size, window) {
      var i: nat :| i < |window| && IsLastChange(target, window, i) && window[i].Upsert?
                    && ItemExact(target, size, window[i].item);
      assert IsLastChange(target, rest, i) && rest[i] == window[i];
    }
    if LastChangeIsExact(target, size, rest) {
      var i: nat :| i < |rest| && IsLastChange(target, rest, i) && rest[i].Upsert?
                    && ItemExact(target, size, rest[i].item);
      assert IsLastChange(target, window, i) && rest[i] == window[i];
    }
    if Mentions(target, window) {
      var i :| 0 <= i < |window| && ChangeId(window[i]) == target.id;
      assert ChangeId(rest[i]) == target.id;
    }
    if Mentions(target, rest) {
      var i :| 0 <= i < |rest| && ChangeId(rest[i]) == target.id;
      assert ChangeId(window[i]) == target.id;
    }
  }

  /** The confirm command's scan of the collected window. */
  method ScanTargetChanges(target: Target, size: nat, window: seq<RemoteChange>)
    returns (targetChanges: nat, lastTargetExact: Option<bool>)
    ensures targetChanges == TargetChanges(target, window)
    ensures targetChanges == 0 <==> !Mentions(target, window)
    ensures lastTargetExact == LastTargetExact(target, size, window)
    ensures lastTargetExact == Some(true) <==> LastChangeIsExact(target, size, window)
  {
    targetChanges, lastTargetExact := 0, None;
    for i := 0 to |window|
      invariant targetChanges == TargetChanges(target, window[..i])
      invariant lastTargetExact == LastTargetExact(target, size, window[..i])
      invariant targetChanges == 0 <==> lastTargetExact.None?
    {
      assert window[..i + 1][..i] == window[..i];
      var exact := TargetChangeExact(target, size, window[i]);
      if exact.Some? {
        targetChanges := targetChanges + 1;
        lastTargetExact := exact;
      }
    }
    assert window[..|window|] == window;
    LastTargetExactIff(target, size, window);
  }
}
