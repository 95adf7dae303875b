/** The provider's domain values: items, changes, and the blank test on identifiers. */
module RemoteCatalog {
  import opened Wrappers

  type Id = string

  datatype RemoteItemKind = File | Folder

  datatype RemoteItem = RemoteItem(
    remoteId: Id,
    parentRemoteId: Option<Id>,
    name: string,
    kind: RemoteItemKind,
    sizeBytes: Option<nat>,
    modifiedUnixMs: Option<int>,
    trashed: bool)

  datatype RemoteChange = Upsert(item: RemoteItem) | Delete(remoteId: Id)

  function ChangeId(change: RemoteChange): Id {
    match change
    case Upsert(item) => item.remoteId
    case Delete(remoteId) => remoteId
  }

  /** The Unicode White_Space characters, which `trim` removes. */
  predicate IsWhiteSpace(c: char) {
    || '\U{0009}' <= c <= '\U{000D}'
    || c in {'\U{0020}', '\U{0085}', '\U{00A0}', '\U{1680}', '\U{2028}', '\U{2029}', '\U{202F}', '\U{205F}', '\U{3000}'}
    || '\U{2000}' <= c <= '\U{200A}'
  }

  /** `value.trim().is_empty()` */
  predicate Blank(value: string) {
    forall i :: 0 <= i < |value| ==> IsWhiteSpace(value[i])
  }

  function TrimStart(value: string): (rest: string)
    ensures |rest| <= |value|
  {
    if value != "" && IsWhiteSpace(value[0]) then TrimStart(value[1..]) else value
  }

  function Trim(value: string): string
    decreases |value|
  {
    var rest := TrimStart(value);
    if rest != "" && IsWhiteSpace(rest[|rest| - 1]) then Trim(rest[..|rest| - 1]) else rest
  }

  lemma {:induction false} TrimStartIsEmptyIff(value: string)
    ensures TrimStart(value) == "" <==> Blank(value)
    ensures TrimStart(value) != "" ==> !IsWhiteSpace(TrimStart(value)[0])
  {
    if value != "" && IsWhiteSpace(value[0]) {
      TrimStartIsEmptyIff(value[1..]);
      assert value == [value[0]] + value[1..];
      assert Blank(value[1..]) ==> forall i :: 0 < i < |value| ==> value[i] == value[1..][i - 1];
    }
  }

  /** A string is blank exactly when nothing is left after trimming white space at both ends. */
  lemma {:induction false} BlankIffTrimmedEmpty(value: string)
    ensures Blank(value) <==> Trim(value) == ""
    decreases |value|
  {
    TrimStartIsEmptyIff(value);
    var rest := TrimStart(value);
    if rest != "" && IsWhiteSpace(rest[|rest| - 1]) {
      assert !IsWhiteSpace(rest[..|rest| - 1][0]);
      BlankIffTrimmedEmpty(rest[..|rest| - 1]);
    }
  }
}
