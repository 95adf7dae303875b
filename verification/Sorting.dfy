/** Orders on strings and sequences, and the library sort, characterised by its sorted result. */
module Sorting {

  /** The order of Rust strings: lexicographic by code point. */
  predicate Less(a: string, b: string) {
    if b == "" then false
    else if a == "" then true
    else a[0] < b[0] || (a[0] == b[0] && Less(a[1..], b[1..]))
  }

  lemma {:induction false} LessIsTotal(a: string, b: string)
    ensures a != b ==> Less(a, b) || Less(b, a)
    ensures !(Less(a, b) && Less(b, a)) && (a == b ==> !Less(a, b))
  {
    if a != "" && b != "" && a[0] == b[0] {
      LessIsTotal(a[1..], b[1..]);
      assert a == [a[0]] + a[1..] && b == [b[0]] + b[1..];
    }
  }

  lemma {:induction false} LessIsTransitive(a: string, b: string, c: string)
    ensures Less(a, b) && Less(b, c) ==> Less(a, c)
  {
    if a != "" && b != "" && c != "" {
      LessIsTransitive(a[1..], b[1..], c[1..]);
    }
  }

  /** The strings agree up to `i`, where `a` ends and `b` goes on, or where `a` has the smaller character. */
  ghost predicate SmallerAt(a: string, b: string, i: nat) {
    && i <= |a| && i < |b| && (forall k :: 0 <= k < i ==> a[k] == b[k])
    && (i < |a| ==> a[i] < b[i])
  }

  /** One string is less than another if and only if it is a proper prefix or smaller at the first difference. */
  lemma {:induction false} LessIff(a: string, b: string)
    ensures Less(a, b) <==> exists i: nat :: SmallerAt(a, b, i)
  {
    if a == "" || b == "" || a[0] != b[0] {
      assert forall i: nat :: i > 0 ==> !SmallerAt(a, b, i);
      assert Less(a, b) <==> SmallerAt(a, b, 0);
    } else {
      LessIff(a[1..], b[1..]);
      assert !SmallerAt(a, b, 0);
      forall i: nat
        ensures SmallerAt(a[1..], b[1..], i) <==> SmallerAt(a, b, i + 1)
      {
        assert forall k :: 0 < k <= i && k < |a| && k < |b| ==> a[k] == a[1..][k - 1] && b[k] == b[1..][k - 1];
      }
      if i: nat :| SmallerAt(a, b, i) {
        assert SmallerAt(a[1..], b[1..], i - 1);
      }
    }
  }

  /** Lexicographic order on component lists. */
  predicate LexLess(a: seq<string>, b: seq<string>) {
    if b == [] then false
    else if a == [] then true
    else Less(a[0], b[0]) || (a[0] == b[0] && LexLess(a[1..], b[1..]))
  }

  lemma {:induction false} LexLessIsTransitive(a: seq<string>, b: seq<string>, c: seq<string>)
    ensures LexLess(a, b) && LexLess(b, c) ==> LexLess(a, c)
  {
    if a != [] && b != [] && c != [] {
      LessIsTransitive(a[0], b[0], c[0]);
      LexLessIsTransitive(a[1..], b[1..], c[1..]);
    }
  }

  lemma {:induction false} LexLessIsAsymmetric(a: seq<string>, b: seq<string>)
    ensures !(LexLess(a, b) && LexLess(b, a))
  {
    if a != [] && b != [] {
      LessIsTotal(a[0], b[0]);
      LexLessIsAsymmetric(a[1..], b[1..]);
    }
  }

  /** Equally long lists that differ early differ the same way whatever is appended. */
  lemma {:induction false} LexLessExtends(a: seq<string>, b: seq<string>, x: string, y: string)
    requires |a| == |b|
    ensures LexLess(a, b) ==> LexLess(a + [x], b + [y])
    ensures a == b && Less(x, y) ==> LexLess(a + [x], b + [y])
  {
    if a != [] {
      assert (a + [x])[1..] == a[1..] + [x] && (b + [y])[1..] == b[1..] + [y];
      LexLessExtends(a[1..], b[1..], x, y);
    }
  }

  ghost predicate StrictlySorted<T(!new)>(less: (T, T) -> bool, s: seq<T>) {
    forall i, j :: 0 <= i < j < |s| ==> less(s[i], s[j])
  }

  ghost predicate IsStrictOrder<T(!new)>(less: (T, T) -> bool) {
    && (forall x, y :: !(less(x, y) && less(y, x)))
    && (forall x, y, z :: less(x, y) && less(y, z) ==> less(x, z))
  }

  /** Two strictly sorted lists of the same elements are the same list. */
  lemma {:induction false} SortedIsUnique<T(!new)>(less: (T, T) -> bool, a: seq<T>, b: seq<T>)
    requires IsStrictOrder(less) && StrictlySorted(less, a) && StrictlySorted(less, b)
    requires forall x :: x in a <==> x in b
    ensures a == b
    decreases |a|
  {
    assert b == [] || b[0] in a;
    if a != [] {
      assert a[0] in b;
      FirstIsLeast(less, b, a[0]);
      FirstIsLeast(less, a, b[0]);
      forall x
        ensures x in a[1..] <==> x in b[1..]
      {
        TailMembers(less, a, x);
        TailMembers(less, b, x);
      }
      SortedIsUnique(less, a[1..], b[1..]);
      assert a == [a[0]] + a[1..] && b == [b[0]] + b[1..];
    }
  }

  lemma {:induction false} FirstIsLeast<T(!new)>(less: (T, T) -> bool, s: seq<T>, x: T)
    requires StrictlySorted(less, s) && x in s
    ensures x == s[0] || less(s[0], x)
  {
    var i :| 0 <= i < |s| && s[i] == x;
    assert i == 0 || less(s[0], s[i]);
  }

  lemma {:induction false} TailMembers<T(!new)>(less: (T, T) -> bool, s: seq<T>, x: T)
    requires IsStrictOrder(less) && StrictlySorted(less, s) && s != []
    ensures x in s[1..] <==> x in s && x != s[0]
  {
    if x in s[1..] {
      var i :| 0 <= i < |s[1..]| && s[1..][i] == x;
      assert s[i + 1] == x && less(s[0], s[i + 1]);
    }
    if x in s && x != s[0] {
      var i :| 0 <= i < |s| && s[i] == x;
      assert s[1..][i - 1] == x;
    }
  }

  /** Stands for the library's `sort_by`. */
  function Sort<T>(less: (T, T) -> bool, s: seq<T>): (r: seq<T>)
    ensures multiset(r) == multiset(s)
  {
    if s == [] then []
    else
      assert s == [s[0]] + s[1..];
      Insert(less, s[0], Sort(less, s[1..]))
  }

  function Insert<T>(less: (T, T) -> bool, x: T, s: seq<T>): (r: seq<T>)
    ensures multiset(r) == multiset(s) + multiset{x}
  {
    if s == [] || less(x, s[0]) then [x] + s
    else
      assert s == [s[0]] + s[1..];
      [s[0]] + Insert(less, x, s[1..])
  }

  lemma {:induction false} InsertSorts<T(!new)>(less: (T, T) -> bool, x: T, s: seq<T>)
    requires IsStrictOrder(less) && StrictlySorted(less, s)
    requires forall y :: y in s ==> less(x, y) || less(y, x)
    ensures StrictlySorted(less, Insert(less, x, s))
    decreases |s|
  {
    if s == [] {
    } else if less(x, s[0]) {
      assert forall j :: 0 < j < |s| ==> less(s[0], s[j]);
    } else {
      InsertSorts(less, x, s[1..]);
      var rest := Insert(less, x, s[1..]);
      forall k | 0 <= k < |rest|
        ensures less(s[0], rest[k])
      {
        assert rest[k] in multiset(rest);
        if rest[k] != x {
          assert rest[k] in s[1..];
          var i :| 0 <= i < |s[1..]| && s[1..][i] == rest[k];
          assert s[i + 1] == rest[k];
        }
      }
    }
  }

  /** On elements that are pairwise comparable, sorting yields the strictly sorted list. */
  lemma {:induction false} SortSorts<T(!new)>(less: (T, T) -> bool, s: seq<T>)
    requires IsStrictOrder(less)
    requires forall i, j :: 0 <= i < j < |s| ==> less(s[i], s[j]) || less(s[j], s[i])
    ensures StrictlySorted(less, Sort(less, s))
    ensures forall x :: x in Sort(less, s) <==> x in s
    ensures |Sort(less, s)| == |s|
    decreases |s|
  {
    if s != [] {
      SortSorts(less, s[1..]);
      var rest := Sort(less, s[1..]);
      forall y | y in rest
        ensures less(s[0], y) || less(y, s[0])
      {
        var i :| 0 <= i < |s[1..]| && s[1..][i] == y;
        assert s[i + 1] == y;
      }
      InsertSorts(less, s[0], rest);
    }
    SameMembers(Sort(less, s), s);
  }

  lemma {:induction false} SameMembers<T(!new)>(a: seq<T>, b: seq<T>)
    requires multiset(a) == multiset(b)
    ensures forall x :: x in a <==> x in b
    ensures |a| == |b|
  {
    forall x
      ensures x in a <==> x in b
    {
      assert x in a <==> x in multiset(a);
      assert x in b <==> x in multiset(b);
    }
    assert |multiset(a)| == |a| && |multiset(b)| == |b|;
  }
}
