/** The parts of Go's `strings` and `path/filepath` packages the loader
    relies on, for Unix paths (the separator is '/'). */
module Text {

  /** `sub` occurs in `s` starting at index `i`. */
  predicate OccursAt(s: string, sub: string, i: int) {
    0 <= i && i + |sub| <= |s| && s[i..i + |sub|] == sub
  }

  predicate Contains(s: string, sub: string) {
    exists i | 0 <= i <= |s| - |sub| :: OccursAt(s, sub, i)
  }

  /** The first occurrence of `sub` in `s` at or after `from`, or -1. */
  function IndexFrom(s: string, sub: string, from: nat): (r: int)
    requires from <= |s| + 1
    ensures r == -1 || (from <= r && OccursAt(s, sub, r))
    ensures forall j :: from <= j && (r == -1 || j < r) ==> !OccursAt(s, sub, j)
    decreases |s| + 1 - from
  {
    if from + |sub| > |s| then -1
    else if s[from..from + |sub|] == sub then from
    else IndexFrom(s, sub, from + 1)
  }

  /** Go's `strings.Index(s, sub)`: the first occurrence of `sub`, or -1. */
  function IndexOf(s: string, sub: string): (r: int)
    ensures r == -1 <==> !Contains(s, sub)
    ensures r != -1 ==> OccursAt(s, sub, r)
    ensures forall j :: 0 <= j && (r == -1 || j < r) ==> !OccursAt(s, sub, j)
  {
    var r := IndexFrom(s, sub, 0);
    assert r != -1 ==> OccursAt(s, sub, r);
    r
  }

  /** An occurrence with none before it is the one `IndexOf` finds. */
  lemma IndexOfFirst(s: string, sub: string, i: int)
    requires OccursAt(s, sub, i)
    requires forall j :: 0 <= j < i ==> !OccursAt(s, sub, j)
    ensures IndexOf(s, sub) == i
  {
    assert Contains(s, sub);
  }

  /** A pattern whose first character is absent from `stem` occurs first in
      `stem + pattern + rest` right after the stem. */
  lemma IndexOfAfterStem(stem: string, pattern: string, rest: string)
    requires |pattern| > 0 && pattern[0] !in stem
    ensures IndexOf(stem + pattern + rest, pattern) == |stem|
  {
    var s := stem + pattern + rest;
    forall j | 0 <= j < |stem|
      ensures !OccursAt(s, pattern, j)
    {
      assert s[j] == stem[j];
    }
    assert s[|stem|..|stem| + |pattern|] == pattern;
    IndexOfFirst(s, pattern, |stem|);
  }

  /** Cutting `mid` out of `pre + mid + rest` leaves `pre + rest`. */
  lemma CutOut(s: string, pre: string, mid: string, rest: string)
    requires s == pre + mid + rest
    ensures s[..|pre|] + s[|pre| + |mid|..] == pre + rest
  {
    assert s[..|pre|] == pre;
    assert s[|pre| + |mid|..] == rest;
  }

  /** Cutting the first of two copies of `mid` out of `pre + mid + rest + mid`
      leaves `pre + rest + mid`. */
  lemma CutOutFirstCopy(s: string, pre: string, mid: string, rest: string)
    requires s == pre + mid + rest + mid
    ensures s[..|pre|] + s[|pre| + |mid|..] == pre + rest + mid
  {
    CutOut(s, pre, mid, rest + mid);
  }

  /** Go's `strings.Replace(s, pattern, "", 1)`: the first occurrence of `pattern`
      removed. An empty `pattern` equals the replacement, so `s` comes back. */
  function RemoveFirst(s: string, pattern: string): (r: string)
    ensures pattern == "" || !Contains(s, pattern) ==> r == s
    ensures pattern != "" && Contains(s, pattern) ==>
      var i := IndexOf(s, pattern);
      |r| == |s| - |pattern| && r[..i] == s[..i] && s == r[..i] + pattern + r[i..]
  {
    var i := IndexOf(s, pattern);
    if pattern == "" || i == -1 then s
    else
      var r := s[..i] + s[i + |pattern|..];
      assert r[..i] == s[..i];
      assert r[i..] == s[i + |pattern|..];
      assert s == s[..i] + s[i..i + |pattern|] + s[i + |pattern|..];
      r
  }

  /** Go's `strings.Split(s, sep)[0]` for a non-empty `sep`: the part of `s`
      before the first occurrence of `sep`, or all of `s`. */
  function FirstSegment(s: string, sep: string): (r: string)
    requires sep != ""
    ensures r <= s
    ensures !Contains(r, sep)
    ensures r == s <==> !Contains(s, sep)
    ensures r != s ==> OccursAt(s, sep, |r|)
    ensures r != s ==> |r| == IndexOf(s, sep)
  {
    var i := IndexOf(s, sep);
    if i == -1 then s
    else
      var r := s[..i];
      assert forall j :: OccursAt(r, sep, j) ==> OccursAt(s, sep, j) by {
        forall j | OccursAt(r, sep, j) ensures OccursAt(s, sep, j) {
          assert s[j..j + |sep|] == r[j..j + |sep|];
        }
      }
      r
  }

  /** No character of `path` after index `i` is '.' or '/'. */
  predicate PlainAfter(path: string, i: int) {
    forall j :: 0 <= j < |path| && i < j ==> path[j] != '.' && path[j] != '/'
  }

  /** The scan of `filepath.Ext`, from index `i` down to 0; the characters
      after `i` have been passed over. */
  function ExtFrom(path: string, i: int): (r: string)
    requires -1 <= i < |path| && PlainAfter(path, i)
    ensures |r| <= |path| && r == path[|path| - |r|..]
    ensures r != "" ==> r[0] == '.' && PlainAfter(path, |path| - |r|)
    ensures r == "" ==> forall j :: 0 <= j < |path| && path[j] == '.' ==>
      exists k :: j < k < |path| && path[k] == '/'
    decreases i + 1
  {
    if i < 0 then ""
    else if path[i] == '/' then ""
    else if path[i] == '.' then path[i..]
    else ExtFrom(path, i - 1)
  }

  /** Go's `filepath.Ext(path)`: the suffix from the last '.' of the last
      path element, or "" if that element has no '.'. */
  function Ext(path: string): (r: string)
    ensures |r| <= |path| && r == path[|path| - |r|..]
    ensures r != "" ==> r[0] == '.' && PlainAfter(path, |path| - |r|)
    ensures r == "" ==> forall j :: 0 <= j < |path| && path[j] == '.' ==>
      exists k :: j < k < |path| && path[k] == '/'
    ensures '.' !in path ==> r == ""
  {
    var r := ExtFrom(path, |path| - 1);
    assert r != "" ==> path[|path| - |r|] == '.';
    r
  }

  /** The scan stops at the last '.' when no '/' follows it. */
  lemma {:induction false} ExtFromFindsLastDot(path: string, i: int, k: nat)
    requires k <= i < |path| && path[k] == '.' && PlainAfter(path, k)
    ensures ExtFrom(path, i) == path[k..]
    decreases i
  {
    if i > k {
      ExtFromFindsLastDot(path, i - 1, k);
    }
  }

  /** The extension is the suffix from the last '.' when no '/' follows it. */
  lemma ExtIsSuffixFromLastDot(path: string, k: nat)
    requires k < |path| && path[k] == '.' && PlainAfter(path, k)
    ensures Ext(path) == path[k..]
  {
    ExtFromFindsLastDot(path, |path| - 1, k);
  }

  /** The extension of `stem + ext`, for an extension that is one '.'
      followed by neither '.' nor '/', is `ext`, whatever the stem. */
  lemma ExtOfDotSuffix(stem: string, ext: string)
    requires |ext| > 0 && ext[0] == '.' && '.' !in ext[1..] && '/' !in ext
    ensures Ext(stem + ext) == ext
  {
    var name := stem + ext;
    forall j | 0 <= j < |name| && |stem| < j
      ensures name[j] != '.' && name[j] != '/'
    {
      assert name[j] == ext[1..][j - |stem| - 1];
    }
    ExtIsSuffixFromLastDot(name, |stem|);
    assert name[|stem|..] == ext;
  }

  /** `path` with every trailing '/' removed. */
  function TrimTrailingSlashes(path: string): (r: string)
    ensures r <= path
    ensures r == "" || r[|r| - 1] != '/'
    ensures forall j :: |r| <= j < |path| ==> path[j] == '/'
  {
    if path == "" || path[|path| - 1] != '/' then path
    else TrimTrailingSlashes(path[..|path| - 1])
  }

  /** The index of the last '/' in `s`, or -1. */
  function LastSlash(s: string): (r: int)
    ensures -1 <= r < |s|
    ensures r >= 0 ==> s[r] == '/'
    ensures forall j :: r < j < |s| ==> s[j] != '/'
  {
    if s == "" then -1
    else if s[|s| - 1] == '/' then |s| - 1
    else LastSlash(s[..|s| - 1])
  }

  /** Go's `filepath.Base(path)`: the last element of the path, trailing
      slashes dropped; "." for the empty path and "/" for one of slashes. */
  function Base(path: string): (r: string)
    ensures r != ""
    ensures r == "/" || '/' !in r
    ensures path == "" ==> r == "."
  {
    if path == "" then "."
    else
      var t := TrimTrailingSlashes(path);
      if t == "" then "/"
      else
        var i := LastSlash(t);
        t[i + 1..]
  }

  /** With no '/' after the separator, the last '/' of `dir/name` is the separator. */
  lemma {:induction false} LastSlashOfJoin(dir: string, name: string)
    requires '/' !in name
    ensures LastSlash(dir + "/" + name) == |dir|
    decreases |name|
  {
    var p := dir + "/" + name;
    if name == "" {
      assert p[|p| - 1] == '/';
    } else {
      assert p[|p| - 1] == name[|name| - 1];
      assert p[..|p| - 1] == dir + "/" + name[..|name| - 1];
      LastSlashOfJoin(dir, name[..|name| - 1]);
    }
  }

  /** A string without '/' has no last '/'. */
  lemma {:induction false} LastSlashAbsent(s: string)
    requires '/' !in s
    ensures LastSlash(s) == -1
    decreases |s|
  {
    if s != "" {
      assert s[|s| - 1] in s;
      LastSlashAbsent(s[..|s| - 1]);
    }
  }

  /** The base name of a path `dir/name` is `name`, whatever `dir` is. */
  lemma BaseOfJoin(dir: string, name: string)
    requires name != "" && '/' !in name
    ensures Base(dir + "/" + name) == name
  {
    var p := dir + "/" + name;
    assert p[|p| - 1] == name[|name| - 1];
    assert name[|name| - 1] in name;
    LastSlashOfJoin(dir, name);
    assert p[|dir| + 1..] == name;
  }

  /** A name without '/' is its own base name. */
  lemma BaseOfPlainName(name: string)
    requires name != "" && '/' !in name
    ensures Base(name) == name
  {
    assert name[|name| - 1] in name;
    LastSlashAbsent(name);
    assert name[0..] == name;
  }
}
