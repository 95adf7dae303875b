/**
 A folder walk against a provider that lists a forest page by page: it succeeds exactly when the subtree is within
 the limits on pages, items and skipped items.
 */
module DriveListing {
  import opened Wrappers
  import opened RemoteCatalog
  import opened Forest
  import opened SubtreeWalk
  import opened Hydration
  import opened DriveHydration
  import DriveAncestry

  /** The pages of every folder, in order. */
  type Book = Id -> seq<Page>

  /** Each page but the last is continued, under a token of its own. */
  ghost predicate AreChained(pages: seq<Page>) {
    && pages != [] && pages[|pages| - 1].continuation.None?
    && (forall k :: 0 <= k < |pages| - 1 ==> pages[k].continuation.Some?)
    && (forall k, l {:trigger HaveOtherTokens(pages, k, l)} :: HaveOtherTokens(pages, k, l))
  }

  predicate HaveOtherTokens(pages: seq<Page>, k: int, l: int) {
    0 <= k < l < |pages| - 1 ==> pages[k].continuation != pages[l].continuation
  }

  /** The pages list children of `p` as they are in `w`, under usable ids. */
  predicate AreChildren(w: World, p: Id, pages: seq<Page>) {
    forall k, i {:trigger IsChild(w, p, pages[k].items[i])} ::
      0 <= k < |pages| && 0 <= i < |pages[k].items| ==> IsChild(w, p, pages[k].items[i])
  }

  predicate IsChild(w: World, p: Id, item: RemoteItem) {
    && item.remoteId in w && item == w[item.remoteId] && item.parentRemoteId == Some(p)
    && DriveAncestry.ValidAncestryId(item.remoteId)
  }

  /** No child is listed at two places. */
  ghost predicate AreListedOnce(pages: seq<Page>) {
    forall k, i, l, j {:trigger AreDifferent(pages, k, i, l, j)} :: AreDifferent(pages, k, i, l, j)
  }

  predicate AreDifferent(pages: seq<Page>, k: int, i: int, l: int, j: int) {
    0 <= k < |pages| && 0 <= i < |pages[k].items| && 0 <= l < |pages| && 0 <= j < |pages[l].items| ==>
      (k != l || i != j) ==> pages[k].items[i].remoteId != pages[l].items[j].remoteId
  }

  ghost predicate IsBelow(w: World, x: Id, y: Id) {
    y in w && Under(Links(w), y, x)
  }

  ghost function Below(w: World, x: Id): set<Id> {
    set y | y in w && IsBelow(w, x, y)
  }

  ghost predicate IsFolderBelow(w: World, x: Id, p: Id) {
    IsBelow(w, x, p) && w[p].kind.Folder?
  }

  ghost function FoldersBelow(w: World, x: Id): set<Id> {
    set p | p in w && IsFolderBelow(w, x, p)
  }

  /** Live, usable items under their own ids, and a folder on no parent cycle among them. */
  ghost predicate IsWalkable(w: World, x: Id) {
    && (forall y :: y in w ==> w[y].remoteId == y && Usable(w[y]))
    && x in w && w[x].kind.Folder? && DriveAncestry.ValidAncestryId(x) && !OnCycle(Links(w), x)
    && DriveAncestry.HasFolderParents(w)
  }

  /** The provider answers every request about a folder below `x` with the page that is due. */
  ghost predicate Serves(listing: Listing, w: World, x: Id, book: Book) {
    forall p {:trigger IsFolderBelow(w, x, p)} :: IsFolderBelow(w, x, p) ==> ServesFolder(listing, w, p, book(p))
  }

  ghost predicate ServesFolder(listing: Listing, w: World, p: Id, pages: seq<Page>) {
    && AreChained(pages) && AreChildren(w, p, pages) && AreListedOnce(pages)
    && (forall n: nat :: listing(n, p, None) == Ok(pages[0]))
    && (forall n: nat, k {:trigger IsDue(listing, n, p, pages, k)} :: IsDue(listing, n, p, pages, k))
  }

  predicate IsDue(listing: Listing, n: nat, p: Id, pages: seq<Page>, k: int) {
    0 <= k < |pages| - 1 ==> listing(n, p, pages[k].continuation) == Ok(pages[k + 1])
  }

  /** Every child is on some page of its parent. */
  ghost predicate ListsAll(w: World, x: Id, book: Book) {
    forall y {:trigger IsListedUnder(w, x, book, y)} :: y in w && w[y].parentRemoteId.Some? ==>
      IsListedUnder(w, x, book, y)
  }

  ghost predicate IsListedUnder(w: World, x: Id, book: Book, y: Id)
    requires y in w && w[y].parentRemoteId.Some?
  {
    var p := w[y].parentRemoteId.value;
    IsFolderBelow(w, x, p) ==> OnSomePage(book(p), y)
  }

  predicate OnSomePage(pages: seq<Page>, y: Id) {
    exists k :: 0 <= k < |pages| && y in Ids(pages[k].items)
  }

  /** One page of one folder. */
  type Spot = (Id, nat)

  ghost function Spots(w: World, x: Id, book: Book): set<Spot> {
    set p, k | p in FoldersBelow(w, x) && 0 <= k < |book(p)| :: (p, k)
  }

  function Skipped(book: Book, s: Spot): nat {
    if s.1 < |book(s.0)| then book(s.0)[s.1].unsupportedProviderNative else 0
  }

  ghost function TotalSkipped(book: Book, spots: set<Spot>): nat
    decreases |spots|
  {
    if spots == {} then 0
    else
      var s :| s in spots;
      Skipped(book, s) + TotalSkipped(book, spots - {s})
  }

  lemma {:induction false} TotalWithout(book: Book, spots: set<Spot>, s: Spot)
    requires s in spots
    ensures TotalSkipped(book, spots) == Skipped(book, s) + TotalSkipped(book, spots - {s})
    decreases |spots|
  {
    var t :| t in spots && TotalSkipped(book, spots) == Skipped(book, t) + TotalSkipped(book, spots - {t});
    if t != s {
      TotalWithout(book, spots - {t}, s);
      TotalWithout(book, spots - {s}, t);
      assert spots - {t} - {s} == spots - {s} - {t};
    }
  }

  lemma {:induction false} TotalGrows(book: Book, spots: set<Spot>, all: set<Spot>)
    requires spots <= all
    ensures TotalSkipped(book, spots) <= TotalSkipped(book, all)
    decreases |all - spots|
  {
    if spots != all {
      assert all == spots + (all - spots);
      var s :| s in all - spots;
      TotalWithout(book, spots + {s}, s);
      assert (spots + {s}) - {s} == spots;
      TotalGrows(book, spots + {s}, all);
    }
  }

  /** The walk's limits: pages of all folders, items, and items of no supported kind. */
  ghost predicate IsWithinLimits(w: World, x: Id, book: Book) {
    && |Spots(w, x, book)| <= 100_000 && |Below(w, x)| <= 1_000_000
    && TotalSkipped(book, Spots(w, x, book)) <= 0xFFFF_FFFF_FFFF_FFFF
  }

  /** Which page of its folder the last request was for. */
  function Position(log: seq<Request>): nat {
    if log == [] || log[|log| - 1].token.None? then 0 else Position(log[..|log| - 1]) + 1
  }

  function SpotsOf(log: seq<Request>): set<Spot> {
    if log == [] then {} else SpotsOf(log[..|log| - 1]) + {(log[|log| - 1].parent, Position(log))}
  }

  lemma {:induction false} SpotsPush(log: seq<Request>, request: Request)
    ensures SpotsOf(log + [request]) == SpotsOf(log) + {(request.parent, Position(log + [request]))}
    ensures Position(log + [request]) == if request.token.None? then 0 else Position(log) + 1
  {
    assert (log + [request])[..|log|] == log;
  }

  predicate OnPage(book: Book, s: Spot, item: RemoteItem) {
    s.1 < |book(s.0)| && item in book(s.0)[s.1].items
  }

  /** The items come from the pages asked for. */
  ghost predicate ItemsFromPages(root: RemoteItem, book: Book, items: seq<RemoteItem>, spots: set<Spot>) {
    forall item {:trigger FromPages(book, item, spots)} :: item in items && item != root ==>
        FromPages(book, item, spots)
  }

  ghost predicate FromPages(book: Book, item: RemoteItem, spots: set<Spot>) {
    exists s :: s in spots && OnPage(book, s, item)
  }

  /** What is on the pages has been collected. */
  ghost predicate PagesAreTaken(book: Book, spots: set<Spot>, ids: set<Id>) {
    forall s, item {:trigger OnPage(book, s, item)} :: s in spots && OnPage(book, s, item) ==> item.remoteId in ids
  }

  /** Continuations received for the folder being listed are those of its pages so far. */
  predicate TokensFromPages(pages: seq<Page>, position: nat, tokens: set<string>) {
    forall t :: t in tokens ==> exists k :: 0 <= k <= position && k < |pages| && pages[k].continuation == Some(t)
  }

  predicate IsPassed(log: seq<Request>, s: Spot)
    requires log != []
  {
    s.0 == log[|log| - 1].parent ==> s.1 <= Position(log)
  }

  /** The last request was for the furthest page of its folder so far. */
  ghost predicate IsAtPage(book: Book, log: seq<Request>) {
    log != [] ==>
      var last, position := log[|log| - 1], Position(log);
      && position < |book(last.parent)| && last.page == book(last.parent)[position]
      && (forall s {:trigger IsPassed(log, s)} :: s in SpotsOf(log) ==> IsPassed(log, s))
      && TokensFromPages(book(last.parent), position, TokensOf(log))
  }

  /** Each page asked for is continued by another one, unless it was the last request. */
  ghost predicate IsContinued(book: Book, log: seq<Request>) {
    forall s {:trigger Continues(book, log, s)} :: s in SpotsOf(log) ==> Continues(book, log, s)
  }

  predicate Continues(book: Book, log: seq<Request>, s: Spot) {
    s.1 + 1 < |book(s.0)| ==>
      (s.0, s.1 + 1) in SpotsOf(log) || (log != [] && s == (log[|log| - 1].parent, Position(log)))
  }

  predicate IsOpened(log: seq<Request>, s: Spot) {
    s.0 in OpenedIds(log)
  }

  predicate IsStarted(log: seq<Request>, p: Id) {
    (p, 0) in SpotsOf(log)
  }

  /** Pages are read of opened folders only, and of each of them the first. */
  ghost predicate ReadsOpened(log: seq<Request>) {
    && (forall s {:trigger IsOpened(log, s)} :: s in SpotsOf(log) ==> IsOpened(log, s))
    && (forall p {:trigger IsStarted(log, p)} :: p in OpenedIds(log) ==> IsStarted(log, p))
  }

  /** The run so far has read different pages of the book, of opened folders. */
  ghost predicate InBook(w: World, root: RemoteItem, book: Book, log: seq<Request>) {
    && SpotsOf(log) <= Spots(w, root.remoteId, book) && |SpotsOf(log)| == |log|
    && UnsupportedOf(log) == TotalSkipped(book, SpotsOf(log))
    && ReadsOpened(log)
    && ItemsFromPages(root, book, ItemsOf(root, log), SpotsOf(log))
    && PagesAreTaken(book, SpotsOf(log), Ids(ItemsOf(root, log)))
    && IsAtPage(book, log) && IsContinued(book, log)
  }

  /** What the walk relies on between two requests. */
  ghost predicate Reading(listing: Listing, w: World, root: RemoteItem, book: Book, log: seq<Request>) {
    && IsWalkable(w, root.remoteId) && w[root.remoteId] == root && Serves(listing, w, root.remoteId, book)
    && Kept(root, log) && InBook(w, root, book, log)
  }

  lemma {:induction false} SpotIsFolder(w: World, x: Id, book: Book, s: Spot)
    requires s in Spots(w, x, book)
    ensures IsFolderBelow(w, x, s.0) && s.1 < |book(s.0)|
  {
  }

  lemma {:induction false} CollectedItem(listing: Listing, w: World, root: RemoteItem, book: Book, log: seq<Request>,
                                         item: RemoteItem)
    requires Reading(listing, w, root, book, log) && item in ItemsOf(root, log)
    ensures item.remoteId in w && item == w[item.remoteId] && IsBelow(w, root.remoteId, item.remoteId)
    ensures DriveAncestry.ValidAncestryId(item.remoteId)
  {
    var ps, x := Links(w), root.remoteId;
    UnderCases(ps, x, x);
    if item != root {
      assert FromPages(book, item, SpotsOf(log));
      var s :| s in SpotsOf(log) && OnPage(book, s, item);
      SpotIsFolder(w, x, book, s);
      ChildOnPage(listing, w, x, book, s, item);
      UnderStep(ps, item.remoteId, x);
      UnderCases(ps, item.remoteId, x);
    }
  }

  lemma {:induction false} ChildOnPage(listing: Listing, w: World, x: Id, book: Book, s: Spot, item: RemoteItem)
    requires Serves(listing, w, x, book) && IsFolderBelow(w, x, s.0) && OnPage(book, s, item)
    ensures IsChild(w, s.0, item)
  {
    var i :| 0 <= i < |book(s.0)[s.1].items| && book(s.0)[s.1].items[i] == item;
    assert IsChild(w, s.0, book(s.0)[s.1].items[i]);
  }

  /** A folder that is due is a folder below the one walked. */
  lemma {:induction false} ListedFolder(listing: Listing, w: World, root: RemoteItem, book: Book, log: seq<Request>,
                                        p: Id)
    requires Reading(listing, w, root, book, log) && p in FolderIds(ItemsOf(root, log))
    ensures IsFolderBelow(w, root.remoteId, p) && DriveAncestry.ValidAncestryId(p)
  {
    var items := ItemsOf(root, log);
    FolderIdsMember(items, p);
    var j :| 0 <= j < |items| && items[j].kind.Folder? && items[j].remoteId == p;
    CollectedItem(listing, w, root, book, log, items[j]);
  }

  /** The page that is due next, and that it was not read before. */
  lemma {:induction false} DuePage(listing: Listing, w: World, root: RemoteItem, book: Book, log: seq<Request>)
    returns (s: Spot)
    requires Reading(listing, w, root, book, log) && NextRequest(root, log).Some?
    ensures s in Spots(w, root.remoteId, book) && s !in SpotsOf(log)
    ensures var next := NextRequest(root, log).value;
            && s.0 == next.0 && s.1 == (if next.1.None? then 0 else Position(log) + 1)
            && listing(|log|, next.0, next.1) == Ok(book(s.0)[s.1])
            && DriveAncestry.ValidAncestryId(next.0)
            && (next.1.Some? && book(s.0)[s.1].continuation.Some?
                ==> book(s.0)[s.1].continuation.value !in TokensOf(log))
  {
    var next, x := NextRequest(root, log).value, root.remoteId;
    if next.1.None? {
      NextIsUnopened(root, log);
      ListedFolder(listing, w, root, book, log, next.0);
      s := (next.0, 0);
      assert s in SpotsOf(log) ==> IsOpened(log, s);
    } else {
      ListedFolder(listing, w, root, book, log, next.0);
      s := ContinuedPage(listing, w, book, log);
    }
    assert s.0 in FoldersBelow(w, x);
  }

  lemma {:induction false} ContinuedPage(listing: Listing, w: World, book: Book, log: seq<Request>) returns (s: Spot)
    requires log != [] && log[|log| - 1].page.continuation.Some? && IsAtPage(book, log)
    requires ServesFolder(listing, w, log[|log| - 1].parent, book(log[|log| - 1].parent))
    ensures s == (log[|log| - 1].parent, Position(log) + 1) && s.1 < |book(s.0)| && s !in SpotsOf(log)
    ensures listing(|log|, s.0, log[|log| - 1].page.continuation) == Ok(book(s.0)[s.1])
    ensures book(s.0)[s.1].continuation.Some? ==> book(s.0)[s.1].continuation.value !in TokensOf(log)
  {
    var p := log[|log| - 1].parent;
    s := (p, Position(log) + 1);
    assert IsDue(listing, |log|, p, book(p), Position(log));
    assert s in SpotsOf(log) ==> IsPassed(log, s);
    if book(p)[s.1].continuation.Some? {
      TokenIsNew(book(p), Position(log), TokensOf(log));
    }
  }

  lemma {:induction false} NextIsUnopened(root: RemoteItem, log: seq<Request>)
    requires Kept(root, log) && NextRequest(root, log).Some? && NextRequest(root, log).value.1.None?
    ensures NextRequest(root, log).value.0 !in OpenedIds(log)
    ensures NextRequest(root, log).value.0 in FolderIds(ItemsOf(root, log))
  {
    var folders, ids := FolderIds(ItemsOf(root, log)), OpenedIds(log);
    FolderIdsDistinct(ItemsOf(root, log));
    assert forall i :: 0 <= i < |ids| ==> ids[i] == folders[i];
  }

  /** A child on a page that was not read yet was not collected yet. */
  lemma {:induction false} ChildIsNew(listing: Listing, w: World, root: RemoteItem, book: Book, log: seq<Request>,
                                      s: Spot, i: nat)
    requires Reading(listing, w, root, book, log) && s in Spots(w, root.remoteId, book) && s !in SpotsOf(log)
    requires i < |book(s.0)[s.1].items|
    ensures book(s.0)[s.1].items[i].remoteId !in Ids(ItemsOf(root, log))
  {
    var items, item := ItemsOf(root, log), book(s.0)[s.1].items[i];
    SpotIsFolder(w, root.remoteId, book, s);
    assert IsChild(w, s.0, item);
    if item.remoteId in Ids(items) {
      var j :| 0 <= j < |items| && items[j].remoteId == item.remoteId;
      CollectedItem(listing, w, root, book, log, items[j]);
      if item == root {
        ChildOfBelowIsNotTop(w, root.remoteId, s.0);
      } else {
        assert FromPages(book, item, SpotsOf(log));
        var t :| t in SpotsOf(log) && OnPage(book, t, item);
        SpotIsFolder(w, root.remoteId, book, t);
        ChildOnPage(listing, w, root.remoteId, book, t, item);
        OnOnePage(book(s.0), s.1, i, t.1);
      }
    }
  }

  lemma {:induction false} OnOnePage(pages: seq<Page>, k: nat, i: nat, l: nat)
    requires AreListedOnce(pages) && k < |pages| && i < |pages[k].items| && l < |pages|
    requires pages[k].items[i] in pages[l].items
    ensures k == l
  {
    var j :| 0 <= j < |pages[l].items| && pages[l].items[j] == pages[k].items[i];
    assert AreDifferent(pages, k, i, l, j);
  }

  lemma {:induction false} ChildOfBelowIsNotTop(w: World, x: Id, p: Id)
    requires x in w && w[x].parentRemoteId == Some(p) && IsBelow(w, x, p)
    ensures OnCycle(Links(w), x)
  {
    var n: nat :| Reaches(Links(w), p, x, n);
    assert Reaches(Links(w), x, x, n + 1);
  }

  /** Distinct new usable children of `p` that fit are all taken in. */
  lemma {:induction false} ChildrenAreTaken(p: Id, items: seq<RemoteItem>, children: seq<RemoteItem>, n: nat)
    requires n <= |children| && DriveAncestry.ValidAncestryId(p) && |items| + |children| <= MAX_ITEMS
    requires forall i :: 0 <= i < |children| ==> Usable(children[i]) && children[i].parentRemoteId == Some(p)
    requires forall i :: 0 <= i < |children| ==> DriveAncestry.ValidAncestryId(children[i].remoteId)
    requires forall i :: 0 <= i < |children| ==> children[i].remoteId !in Ids(items)
    requires UniqueIds(children)
    ensures ChildrenFailure(p, items, children, n).None?
    decreases n
  {
    if n > 0 {
      ChildrenAreTaken(p, items, children, n - 1);
      IdsConcat(items, children[..n - 1]);
      var front := children[..n - 1];
      assert forall j :: 0 <= j < |front| ==> front[j] == children[j];
    }
  }

  /** The checks on the children of the page that is due all pass. */
  lemma {:induction false} ChildrenPass(listing: Listing, w: World, root: RemoteItem, book: Book, log: seq<Request>,
                                        s: Spot)
    requires Reading(listing, w, root, book, log) && s in Spots(w, root.remoteId, book) && s !in SpotsOf(log)
    requires DriveAncestry.ValidAncestryId(s.0) && |Below(w, root.remoteId)| <= MAX_ITEMS
    ensures ChildrenFailure(s.0, ItemsOf(root, log), book(s.0)[s.1].items, |book(s.0)[s.1].items|).None?
  {
    var children := book(s.0)[s.1].items;
    SpotIsFolder(w, root.remoteId, book, s);
    PageIsBelow(w, root.remoteId, s.0, book(s.0), s.1, |children|);
    assert children[..|children|] == children;
    ItemsFit(listing, w, root, book, log, s, |children|);
    forall i | 0 <= i < |children|
      ensures IsChild(w, s.0, children[i]) && children[i].remoteId !in Ids(ItemsOf(root, log))
    {
      ChildIsNew(listing, w, root, book, log, s, i);
    }
    ChildrenAreTaken(s.0, ItemsOf(root, log), children, |children|);
  }

  lemma {:induction false} UniqueCount(items: seq<RemoteItem>)
    requires UniqueIds(items)
    ensures |Ids(items)| == |items|
    decreases |items|
  {
    if items != [] {
      var n := |items| - 1;
      UniqueCount(items[..n]);
      assert items == items[..n] + [items[n]];
      IdsGrow(items[..n], items[n]);
      assert items[n].remoteId !in Ids(items[..n]);
    }
  }

  lemma {:induction false} CollectedIsBelow(listing: Listing, w: World, root: RemoteItem, book: Book,
                                            log: seq<Request>)
    requires Reading(listing, w, root, book, log)
    ensures Ids(ItemsOf(root, log)) <= Below(w, root.remoteId) && UniqueIds(ItemsOf(root, log))
  {
    var items := ItemsOf(root, log);
    forall y | y in Ids(items)
      ensures y in Below(w, root.remoteId)
    {
      var j :| 0 <= j < |items| && items[j].remoteId == y;
      CollectedItem(listing, w, root, book, log, items[j]);
    }
  }

  /** The first `n` children of a page are distinct and below the folder. */
  lemma {:induction false} PageIsBelow(w: World, x: Id, p: Id, pages: seq<Page>, position: nat, n: nat)
    requires IsBelow(w, x, p) && AreChildren(w, p, pages) && AreListedOnce(pages)
    requires position < |pages| && n <= |pages[position].items|
    ensures UniqueIds(pages[position].items[..n]) && Ids(pages[position].items[..n]) <= Below(w, x)
  {
    var children := pages[position].items[..n];
    forall i, j | 0 <= i < j < n
      ensures children[i].remoteId != children[j].remoteId
    {
      assert AreDifferent(pages, position, i, position, j);
    }
    forall y | y in Ids(children)
      ensures y in Below(w, x)
    {
      var i :| 0 <= i < n && children[i].remoteId == y;
      assert IsChild(w, p, pages[position].items[i]);
      UnderStep(Links(w), y, x);
      UnderCases(Links(w), y, x);
    }
  }

  lemma {:induction false} CountTogether(a: seq<RemoteItem>, b: seq<RemoteItem>, all: set<Id>)
    requires UniqueIds(a) && UniqueIds(b) && Ids(a) !! Ids(b) && Ids(a) <= all && Ids(b) <= all
    ensures |a| + |b| <= |all|
  {
    UniqueCount(a);
    UniqueCount(b);
    SubsetSize(Ids(a) + Ids(b), all);
  }

  /** Whatever is collected with the page's children is distinct and below the folder, hence within the limit. */
  lemma {:induction false} ItemsFit(listing: Listing, w: World, root: RemoteItem, book: Book, log: seq<Request>,
                                    s: Spot, n: nat)
    requires Reading(listing, w, root, book, log) && s in Spots(w, root.remoteId, book) && s !in SpotsOf(log)
    requires n <= |book(s.0)[s.1].items|
    ensures |ItemsOf(root, log)| + n <= |Below(w, root.remoteId)|
  {
    var items, children := ItemsOf(root, log), book(s.0)[s.1].items[..n];
    SpotIsFolder(w, root.remoteId, book, s);
    CollectedIsBelow(listing, w, root, book, log);
    PageIsBelow(w, root.remoteId, s.0, book(s.0), s.1, n);
    forall y | y in Ids(children)
      ensures y !in Ids(items)
    {
      var i :| 0 <= i < |children| && children[i].remoteId == y;
      ChildIsNew(listing, w, root, book, log, s, i);
    }
    CountTogether(items, children, Below(w, root.remoteId));
  }

  /** There is room for one more page of the book. */
  lemma {:induction false} RoomForPage(book: Book, read: set<Spot>, all: set<Spot>, s: Spot)
    requires read <= all && s in all && s !in read && s.1 < |book(s.0)|
    ensures |read| + 1 <= |all|
    ensures TotalSkipped(book, read) + book(s.0)[s.1].unsupportedProviderNative <= TotalSkipped(book, all)
    ensures TotalSkipped(book, read + {s}) == TotalSkipped(book, read) + book(s.0)[s.1].unsupportedProviderNative
  {
    SubsetSize(read + {s}, all);
    TotalGrows(book, read + {s}, all);
    TotalWithout(book, read + {s}, s);
    assert (read + {s}) - {s} == read;
  }

  /** The next page's continuation was not received for its folder before. */
  lemma {:induction false} TokenIsNew(pages: seq<Page>, position: nat, tokens: set<string>)
    requires AreChained(pages) && position + 1 < |pages| && TokensFromPages(pages, position, tokens)
    requires pages[position + 1].continuation.Some?
    ensures pages[position + 1].continuation.value !in tokens
  {
    forall k | 0 <= k <= position
      ensures pages[k].continuation != pages[position + 1].continuation
    {
      assert HaveOtherTokens(pages, k, position + 1);
    }
  }

  /** The page that is due is taken in. */
  lemma {:induction false} PagePasses(listing: Listing, w: World, root: RemoteItem, book: Book, log: seq<Request>)
    requires Reading(listing, w, root, book, log) && NextRequest(root, log).Some?
    requires IsWithinLimits(w, root.remoteId, book)
    ensures |log| < MAX_PAGES
    ensures var next := NextRequest(root, log).value;
            var answer := listing(|log|, next.0, next.1);
            answer.Ok? && PageFailure(root, log, next.0, next.1, answer.value).None?
  {
    var s := DuePage(listing, w, root, book, log);
    var page := book(s.0)[s.1];
    RoomForPage(book, SpotsOf(log), Spots(w, root.remoteId, book), s);
    ChildrenPass(listing, w, root, book, log, s);
  }

  lemma {:induction false} PagesStay(root: RemoteItem, book: Book, log: seq<Request>, request: Request, s: Spot)
    requires ItemsFromPages(root, book, ItemsOf(root, log), SpotsOf(log))
    requires s.1 < |book(s.0)| && request.page == book(s.0)[s.1]
    requires SpotsOf(log + [request]) == SpotsOf(log) + {s}
    requires PagesAreTaken(book, SpotsOf(log), Ids(ItemsOf(root, log)))
    ensures ItemsFromPages(root, book, ItemsOf(root, log + [request]), SpotsOf(log + [request]))
    ensures PagesAreTaken(book, SpotsOf(log + [request]), Ids(ItemsOf(root, log + [request])))
  {
    LogPush(root, log, request);
    IdsConcat(ItemsOf(root, log), request.page.items);
    forall item | item in ItemsOf(root, log + [request]) && item != root
      ensures FromPages(book, item, SpotsOf(log + [request]))
    {
      if item in ItemsOf(root, log) {
        assert FromPages(book, item, SpotsOf(log));
        var t :| t in SpotsOf(log) && OnPage(book, t, item);
        assert t in SpotsOf(log + [request]);
      } else {
        assert OnPage(book, s, item);
      }
    }
  }

  lemma {:induction false} AtNextPage(root: RemoteItem, book: Book, log: seq<Request>, request: Request, s: Spot)
    requires IsAtPage(book, log) && s.1 < |book(s.0)| && request.page == book(s.0)[s.1]
    requires s == (request.parent, Position(log + [request]))
    requires request.token.None? ==> forall u :: u in SpotsOf(log) ==> u.0 != s.0
    requires request.token.Some? ==> log != [] && log[|log| - 1].parent == request.parent
    ensures IsAtPage(book, log + [request])
  {
    SpotsPush(log, request);
    LogPush(root, log, request);
    var grown := log + [request];
    forall u | u in SpotsOf(grown)
      ensures IsPassed(grown, u)
    {
      if u in SpotsOf(log) && log != [] {
        assert IsPassed(log, u);
      }
    }
    forall t | t in TokensOf(grown)
      ensures exists k :: 0 <= k <= s.1 && k < |book(s.0)| && book(s.0)[k].continuation == Some(t)
    {
      if request.page.continuation == Some(t) {
        assert book(s.0)[s.1].continuation == Some(t);
      }
    }
  }

  lemma {:induction false} ContinuesOn(book: Book, log: seq<Request>, request: Request, s: Spot)
    requires IsAtPage(book, log) && IsContinued(book, log)
    requires s == (request.parent, Position(log + [request]))
    requires request.token.Some? ==> log != [] && log[|log| - 1].parent == request.parent
    requires log != [] && request.token.None? ==>
               AreChained(book(log[|log| - 1].parent)) && log[|log| - 1].page.continuation.None?
    ensures IsContinued(book, log + [request])
  {
    SpotsPush(log, request);
    var grown := log + [request];
    forall u | u in SpotsOf(grown)
      ensures Continues(book, grown, u)
    {
      if u in SpotsOf(log) {
        assert Continues(book, log, u);
      }
    }
  }

  /** Reading on, the run stays in the book. */
  lemma {:induction false} ReadsOn(listing: Listing, w: World, root: RemoteItem, book: Book, log: seq<Request>,
                                   request: Request)
    requires Reading(listing, w, root, book, log) && IsNextAnswer(listing, root, log, request)
    ensures Reading(listing, w, root, book, log + [request])
  {
    var s := DuePage(listing, w, root, book, log);
    KeptByPage(root, log, request);
    SpotsPush(log, request);
    PagesStay(root, book, log, request, s);
    SpotIsFolder(w, root.remoteId, book, s);
    ReadsOnSpots(root, book, Spots(w, root.remoteId, book), log, request, s);
    ReadsOnPage(listing, w, root, book, log, request, s);
  }

  lemma {:induction false} ReadsOnPage(listing: Listing, w: World, root: RemoteItem, book: Book, log: seq<Request>,
                                       request: Request, s: Spot)
    requires Reading(listing, w, root, book, log) && IsNextAnswer(listing, root, log, request)
    requires s in Spots(w, root.remoteId, book) && request.page == book(s.0)[s.1]
    requires s == (request.parent, Position(log + [request]))
    ensures IsAtPage(book, log + [request]) && IsContinued(book, log + [request])
  {
    SpotIsFolder(w, root.remoteId, book, s);
    if request.token.None? {
      NextIsUnopened(root, log);
      forall u | u in SpotsOf(log)
        ensures u.0 != s.0
      {
        assert IsOpened(log, u);
      }
    }
    if log != [] {
      LastSpot(log);
      SpotIsFolder(w, root.remoteId, book, (log[|log| - 1].parent, Position(log)));
    }
    AtNextPage(root, book, log, request, s);
    ContinuesOn(book, log, request, s);
  }

  lemma {:induction false} ReadsOnSpots(root: RemoteItem, book: Book, all: set<Spot>, log: seq<Request>,
                                        request: Request, s: Spot)
    requires SpotsOf(log) <= all && |SpotsOf(log)| == |log| && UnsupportedOf(log) == TotalSkipped(book, SpotsOf(log))
    requires ReadsOpened(log) && s in all && s !in SpotsOf(log) && s.1 < |book(s.0)|
    requires request.page == book(s.0)[s.1] && s == (request.parent, Position(log + [request]))
    requires request.token.Some? ==> log != [] && log[|log| - 1].parent == request.parent
    ensures var grown := log + [request];
            && SpotsOf(grown) <= all && |SpotsOf(grown)| == |grown|
            && UnsupportedOf(grown) == TotalSkipped(book, SpotsOf(grown)) && ReadsOpened(grown)
  {
    var grown := log + [request];
    LogPush(root, log, request);
    SpotsPush(log, request);
    RoomForPage(book, SpotsOf(log), all, s);
    LastSpot(log);
    forall u | u in SpotsOf(grown)
      ensures IsOpened(grown, u)
    {
      if u in SpotsOf(log) {
        assert IsOpened(log, u);
      } else if request.token.Some? {
        assert IsOpened(log, (log[|log| - 1].parent, Position(log)));
      }
    }
    forall p | p in OpenedIds(grown)
      ensures IsStarted(grown, p)
    {
      if p in OpenedIds(log) {
        assert IsStarted(log, p);
      }
    }
  }

  lemma {:induction false} LastSpot(log: seq<Request>)
    ensures log != [] ==> (log[|log| - 1].parent, Position(log)) in SpotsOf(log)
  {
  }

  lemma {:induction false} RunIsReading(listing: Listing, w: World, root: RemoteItem, book: Book, log: seq<Request>)
    requires IsWalkable(w, root.remoteId) && w[root.remoteId] == root && Serves(listing, w, root.remoteId, book)
    requires ValidateHydrationRoot(root).Ok? && IsLog(listing, root, log)
    ensures Reading(listing, w, root, book, log)
  {
    KeptAtStart(root);
    assert Reading(listing, w, root, book, []);
    forall before, request | Reading(listing, w, root, book, before) && IsNextAnswer(listing, root, before, request)
      ensures Reading(listing, w, root, book, before + [request])
    {
      ReadsOn(listing, w, root, book, before, request);
    }
    LogInduction(listing, root, log, l => Reading(listing, w, root, book, l));
  }

  lemma {:induction false} FolderIsCollected(listing: Listing, w: World, root: RemoteItem, book: Book,
                                             log: seq<Request>, p: Id)
    requires Reading(listing, w, root, book, log) && ListsAll(w, root.remoteId, book)
    requires NextRequest(root, log).None? && IsFolderBelow(w, root.remoteId, p)
    ensures p in FolderIds(ItemsOf(root, log))
  {
    EverythingRead(listing, w, root, book, log, p);
    var items := ItemsOf(root, log);
    var j :| 0 <= j < |items| && items[j].remoteId == p;
    CollectedItem(listing, w, root, book, log, items[j]);
    FolderIdsMember(items, p);
  }

  /** What is collected at the end is closed under children. */
  lemma {:induction false} CollectsChildren(listing: Listing, w: World, root: RemoteItem, book: Book,
                                            log: seq<Request>, y: Id)
    requires Reading(listing, w, root, book, log) && ListsAll(w, root.remoteId, book) && NextRequest(root, log).None?
    requires y in w && w[y].parentRemoteId.Some? && w[y].parentRemoteId.value in Ids(ItemsOf(root, log))
    ensures y in Ids(ItemsOf(root, log))
  {
    var p := w[y].parentRemoteId.value;
    CollectedIsBelow(listing, w, root, book, log);
    assert p in Below(w, root.remoteId);
    assert IsListedUnder(w, root.remoteId, book, y);
    ChildIsRead(listing, w, root, book, log, p, y);
  }

  lemma {:induction false} EverythingRead(listing: Listing, w: World, root: RemoteItem, book: Book, log: seq<Request>,
                                          y: Id)
    requires Reading(listing, w, root, book, log) && ListsAll(w, root.remoteId, book) && NextRequest(root, log).None?
    requires IsBelow(w, root.remoteId, y)
    ensures y in Ids(ItemsOf(root, log))
  {
    var ps, x, items := Links(w), root.remoteId, ItemsOf(root, log);
    assert items[0].remoteId in Ids(items);
    forall c | c in ps && ps[c].Some? && ps[c].value in Ids(items)
      ensures c in Ids(items)
    {
      CollectsChildren(listing, w, root, book, log, c);
    }
    ClosedHoldsBelow(w, x, Ids(items), y);
  }

  lemma {:induction false} ClosedHoldsBelow(w: World, x: Id, ids: set<Id>, y: Id)
    requires x in ids && IsBelow(w, x, y)
    requires forall c :: c in Links(w) && Links(w)[c].Some? && Links(w)[c].value in ids ==> c in ids
    ensures y in ids
  {
    UnderCases(Links(w), y, x);
    if y != x {
      var n: nat :| n > 0 && Reaches(Links(w), y, x, n);
      ClosedSetHoldsAll(Links(w), x, ids, y, n);
    }
  }

  lemma {:induction false} ChildIsRead(listing: Listing, w: World, root: RemoteItem, book: Book, log: seq<Request>,
                                       p: Id, y: Id)
    requires Reading(listing, w, root, book, log) && NextRequest(root, log).None?
    requires IsFolderBelow(w, root.remoteId, p) && p in Ids(ItemsOf(root, log)) && OnSomePage(book(p), y)
    ensures y in Ids(ItemsOf(root, log))
  {
    var items := ItemsOf(root, log);
    var j :| 0 <= j < |items| && items[j].remoteId == p;
    CollectedItem(listing, w, root, book, log, items[j]);
    FolderIdsMember(items, p);
    var k :| 0 <= k < |book(p)| && y in Ids(book(p)[k].items);
    PagesOfOpened(root, book, log, p, k);
    var i :| 0 <= i < |book(p)[k].items| && book(p)[k].items[i].remoteId == y;
    assert OnPage(book, (p, k), book(p)[k].items[i]);
  }

  /** All pages of an opened folder have been read once nothing is left to ask. */
  lemma {:induction false} PagesOfOpened(root: RemoteItem, book: Book, log: seq<Request>, p: Id, k: nat)
    requires AreChained(book(p)) && IsAtPage(book, log) && IsContinued(book, log) && ReadsOpened(log)
    requires OpensInOrder(root, log) && NextRequest(root, log).None?
    requires p in FolderIds(ItemsOf(root, log)) && k < |book(p)|
    ensures (p, k) in SpotsOf(log)
    decreases k
  {
    if k == 0 {
      assert OpenedIds(log) == FolderIds(ItemsOf(root, log));
      assert IsStarted(log, p);
    } else {
      PagesOfOpened(root, book, log, p, k - 1);
      assert Continues(book, log, (p, k - 1));
      assert book(p)[k - 1].continuation.Some?;
    }
  }

  lemma {:induction false} SucceedsWithinLimits(listing: Listing, w: World, root: RemoteItem, book: Book,
                                                log: seq<Request>)
    requires Reading(listing, w, root, book, log) && ListsAll(w, root.remoteId, book)
    requires NextRequest(root, log).None? && |log| <= MAX_PAGES
    ensures IsWithinLimits(w, root.remoteId, book)
  {
    forall s | s in Spots(w, root.remoteId, book)
      ensures s in SpotsOf(log)
    {
      SpotIsFolder(w, root.remoteId, book, s);
      FolderIsCollected(listing, w, root, book, log, s.0);
      PagesOfOpened(root, book, log, s.0, s.1);
    }
    assert SpotsOf(log) == Spots(w, root.remoteId, book);
    forall y | y in Below(w, root.remoteId)
      ensures y in Ids(ItemsOf(root, log))
    {
      EverythingRead(listing, w, root, book, log, y);
    }
    UniqueCount(ItemsOf(root, log));
    SubsetSize(Below(w, root.remoteId), Ids(ItemsOf(root, log)));
  }

  /**
   Success. Against a provider that answers every request and lists a forest page by page, each child once, under
   tokens of their own, the walk of a folder succeeds if and only if its subtree is within the limits.
   */
  lemma {:induction false} WalkSucceedsIff(listing: Listing, w: World, root: RemoteItem, book: Book,
                                           log: seq<Request>, r: Result<SubtreeHydration, HydrationFailure>)
    requires IsWalkable(w, root.remoteId) && w[root.remoteId] == root
    requires Serves(listing, w, root.remoteId, book) && ListsAll(w, root.remoteId, book)
    requires IsHydrationRun(listing, root, log, r)
    ensures r.Ok? <==> IsWithinLimits(w, root.remoteId, book)
  {
    RunIsReading(listing, w, root, book, log);
    if r.Err? {
      if IsWithinLimits(w, root.remoteId, book) {
        PagePasses(listing, w, root, book, log);
      }
    } else {
      SucceedsWithinLimits(listing, w, root, book, log);
    }
  }
}
