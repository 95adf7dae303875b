/** Relative paths as strings, their components, and the safety checks on both. */
module Paths {

  /** `split('/')`: one more component than there are slashes. */
  function Split(s: string): (cs: seq<string>)
    ensures |cs| >= 1
  {
    if s == "" then [""]
    else if s[0] == '/' then [""] + Split(s[1..])
    else
      var rest := Split(s[1..]);
      [[s[0]] + rest[0]] + rest[1..]
  }

  function Join(cs: seq<string>): string
    requires cs != []
  {
    if |cs| == 1 then cs[0] else cs[0] + "/" + Join(cs[1..])
  }

  /** Splitting loses nothing. */
  lemma {:induction false} JoinSplit(s: string)
    ensures Join(Split(s)) == s
  {
    if s != "" {
      JoinSplit(s[1..]);
      var rest := Split(s[1..]);
      if s[0] == '/' {
        assert ([""] + rest)[1..] == rest;
        assert "" + "/" + s[1..] == s;
      } else {
        var cs := Split(s);
        assert cs[1..] == rest[1..];
        if |rest| > 1 {
          assert ([s[0]] + rest[0]) + "/" + Join(rest[1..]) == [s[0]] + (rest[0] + "/" + Join(rest[1..]));
        }
      }
    }
  }

  lemma {:induction false} SplitIsInjective(a: string, b: string)
    ensures Split(a) == Split(b) ==> a == b
  {
    JoinSplit(a);
    JoinSplit(b);
  }

  /** A slash between two strings separates their components. */
  lemma {:induction false} SplitConcat(a: string, b: string)
    ensures Split(a + "/" + b) == Split(a) + Split(b)
    decreases |a|
  {
    if a == "" {
      assert ("" + "/" + b)[1..] == b;
    } else {
      assert (a + "/" + b)[1..] == a[1..] + "/" + b;
      SplitConcat(a[1..], b);
    }
  }

  lemma {:induction false} SplitOfPlain(s: string)
    requires '/' !in s
    ensures Split(s) == [s]
  {
    if s != "" {
      assert '/' !in s[1..];
      SplitOfPlain(s[1..]);
      assert s == [s[0]] + s[1..];
    }
  }

  lemma {:induction false} JoinConcat(front: seq<string>, back: seq<string>)
    requires front != [] && back != []
    ensures Join(front + back) == Join(front) + "/" + Join(back)
    decreases |front|
  {
    if |front| == 1 {
      assert (front + back)[1..] == back;
    } else {
      assert (front + back)[1..] == front[1..] + back;
      JoinConcat(front[1..], back);
      assert front[0] + "/" + (Join(front[1..]) + "/" + Join(back))
             == (front[0] + "/" + Join(front[1..])) + "/" + Join(back);
    }
  }

  function Depth(path: string): nat {
    |Split(path)|
  }

  /** `path` starts with `folder` followed by a slash. */
  predicate IsBelow(path: string, folder: string) {
    folder + "/" <= path
  }

  /** Textual prefix and component prefix are the same relation. */
  lemma {:induction false} BelowIffProperPrefix(path: string, folder: string)
    ensures IsBelow(path, folder) <==> Split(folder) < Split(path)
  {
    if IsBelow(path, folder) {
      var rest := path[|folder| + 1..];
      assert path == folder + "/" + rest;
      SplitConcat(folder, rest);
    }
    if Split(folder) < Split(path) {
      var cs := Split(path)[|Split(folder)|..];
      assert Split(path) == Split(folder) + cs;
      JoinConcat(Split(folder), cs);
      JoinSplit(path);
      JoinSplit(folder);
    }
  }

  /** `validate_safe_remote_name` accepts. */
  predicate SafeName(name: string) {
    name != "" && name != "." && name != ".." && '/' !in name && '\0' !in name
  }

  /** `validate_safe_relative_path` accepts. */
  predicate SafePath(path: string) {
    && path != "" && path[0] != '/' && path[|path| - 1] != '/' && '\0' !in path
    && (forall i :: 0 <= i < |Split(path)| ==> Split(path)[i] != "" && Split(path)[i] != "." && Split(path)[i] != "..")
  }

  lemma {:induction false} SplitEnds(s: string)
    ensures forall i :: 0 <= i < |Split(s)| ==> '/' !in Split(s)[i]
    ensures s != "" ==> (s[0] == '/' <==> Split(s)[0] == "")
    ensures s != "" && s[|s| - 1] == '/' ==> Split(s)[|Split(s)| - 1] == ""
  {
    if s != "" {
      SplitEnds(s[1..]);
    }
  }

  lemma {:induction false} SplitKeepsNul(s: string)
    ensures '\0' in s <==> exists c :: c in Split(s) && '\0' in c
  {
    if s != "" {
      SplitKeepsNul(s[1..]);
      var rest := Split(s[1..]);
      assert s == [s[0]] + s[1..];
      assert rest == [rest[0]] + rest[1..];
      if s[0] == '/' {
        assert forall c :: c in [""] + rest <==> c == "" || c in rest;
      } else {
        var head := [s[0]] + rest[0];
        assert forall c :: c in [head] + rest[1..] <==> c == head || c in rest[1..];
        assert '\0' in head <==> s[0] == '\0' || '\0' in rest[0];
      }
    }
  }

  predicate AllSafe(cs: seq<string>) {
    forall i :: 0 <= i < |cs| ==> SafeName(cs[i])
  }

  /** A relative path is safe exactly when every one of its components is a safe name. */
  lemma {:induction false} SafePathIff(path: string)
    ensures SafePath(path) <==> AllSafe(Split(path))
  {
    SplitEnds(path);
    SplitKeepsNul(path);
    var cs := Split(path);
    assert Split("") == [""];
    if AllSafe(cs) {
      assert SafeName(cs[0]) && SafeName(cs[|cs| - 1]);
      assert SafePath(path);
    }
    if SafePath(path) {
      assert AllSafe(cs);
    }
  }

  /** Extending a safe path by a safe name gives a safe path with one more component. */
  lemma {:induction false} ChildPath(folder: string, name: string)
    requires SafePath(folder) && SafeName(name)
    ensures SafePath(folder + "/" + name)
    ensures Split(folder + "/" + name) == Split(folder) + [name]
  {
    SplitConcat(folder, name);
    SplitOfPlain(name);
    SafePathIff(folder);
    SafePathIff(folder + "/" + name);
  }

  /** Where following the components from `base` leads: a dot stays, two dots go up, nothing stays too. */
  function Follow(base: seq<string>, cs: seq<string>): seq<string> {
    if cs == [] then base
    else
      var here := Follow(base, cs[..|cs| - 1]);
      var c := cs[|cs| - 1];
      if c == "" || c == "." then here
      else if c == ".." then (if here == [] then [] else here[..|here| - 1])
      else here + [c]
  }

  predicate IsPlain(c: string) {
    c != "" && c != "." && c != ".."
  }

  lemma {:induction false} FollowLength(base: seq<string>, cs: seq<string>)
    ensures |Follow(base, cs)| <= |base| + |cs|
    ensures |Follow(base, cs)| == |base| + |cs| ==> forall i :: 0 <= i < |cs| ==> IsPlain(cs[i])
    ensures |Follow(base, cs)| == |base| + |cs| ==> Follow(base, cs) == base + cs
    decreases |cs|
  {
    if cs != [] {
      var n := |cs| - 1;
      FollowLength(base, cs[..n]);
      assert cs == cs[..n] + [cs[n]];
      assert forall i :: 0 <= i < n ==> cs[..n][i] == cs[i];
    }
  }

  lemma {:induction false} PlainIsFollowed(base: seq<string>, cs: seq<string>)
    requires forall i :: 0 <= i < |cs| ==> IsPlain(cs[i])
    ensures Follow(base, cs) == base + cs
    decreases |cs|
  {
    if cs != [] {
      var n := |cs| - 1;
      PlainIsFollowed(base, cs[..n]);
      assert cs == cs[..n] + [cs[n]];
    }
  }

  /**
   A path without NUL is safe if and only if following it from anywhere leads below, through exactly its
   components: it never stays, never goes up, and never leaves the folder it starts from.
   */
  lemma {:induction false} SafePathLeadsBelow(base: seq<string>, path: string)
    requires '\0' !in path
    ensures SafePath(path) <==> Follow(base, Split(path)) == base + Split(path)
  {
    var cs := Split(path);
    SplitEnds(path);
    assert Split("") == [""];
    FollowLength(base, cs);
    if SafePath(path) {
      assert forall i :: 0 <= i < |cs| ==> IsPlain(cs[i]);
      PlainIsFollowed(base, cs);
    }
    if Follow(base, cs) == base + cs {
      assert forall i :: 0 <= i < |cs| ==> IsPlain(cs[i]);
      assert IsPlain(cs[0]) && IsPlain(cs[|cs| - 1]);
    }
  }
}
