/** Slash-separated remote paths: `strings.Split` on "/", the last path
    segment (the name a download is offered under), a simplified
    `filepath.Dir`, and the trailing-separator normalisation used before a
    directory is listed. */
module Paths {

  const Sep: char := '/'

  predicate EndsWithSep(s: string) {
    |s| > 0 && s[|s| - 1] == Sep
  }

  /** The path a directory listing is requested for: `s` with a separator
      appended unless it already ends in one. */
  function EnsureTrailingSep(s: string): (r: string)
    ensures EndsWithSep(r)
    ensures |s| <= |r| <= |s| + 1 && r[..|s|] == s
    ensures EndsWithSep(s) ==> r == s
  {
    if EndsWithSep(s) then s else s + [Sep]
  }

  /** Normalising twice is normalising once. */
  lemma EnsureTrailingSepIdempotent(s: string)
    ensures EnsureTrailingSep(EnsureTrailingSep(s)) == EnsureTrailingSep(s)
  {
  }

  /** `strings.Split(s, "/")`: the pieces between separators, so a string
      with n separators has n + 1 pieces (empty pieces included). */
  function Split(s: string): (parts: seq<string>)
    ensures |parts| >= 1
    ensures forall i :: 0 <= i < |parts| ==> Sep !in parts[i]
    ensures Sep !in s ==> parts == [s]
    ensures Sep in s ==> |parts| >= 2
    decreases |s|
  {
    if |s| == 0 then [""]
    else
      var rest := Split(s[1..]);
      assert s == [s[0]] + s[1..];
      if s[0] == Sep then [""] + rest
      else [[s[0]] + rest[0]] + rest[1..]
  }

  /** `strings.Join(parts, "/")`. */
  function Join(parts: seq<string>): string
    requires |parts| >= 1
  {
    if |parts| == 1 then parts[0] else parts[0] + [Sep] + Join(parts[1..])
  }

  /** Joining the pieces of a split gives back the original string. */
  lemma {:induction false} JoinSplit(s: string)
    ensures Join(Split(s)) == s
    decreases |s|
  {
    if |s| > 0 {
      var rest := Split(s[1..]);
      JoinSplit(s[1..]);
      assert s == [s[0]] + s[1..];
      if s[0] == Sep {
        assert ([""] + rest)[1..] == rest;
      } else if |rest| > 1 {
        var parts := Split(s);
        assert parts[1..] == rest[1..];
        assert Join(parts) == [s[0]] + rest[0] + [Sep] + Join(rest[1..]);
      }
    }
  }

  /** Splitting a separator-free prefix followed by a separator. */
  lemma {:induction false} SplitCons(a: string, b: string)
    requires Sep !in a
    ensures Split(a + [Sep] + b) == [a] + Split(b)
    decreases |a|
  {
    if |a| == 0 {
      assert a + [Sep] + b == [Sep] + b;
      assert ([Sep] + b)[1..] == b;
    } else {
      var s := a + [Sep] + b;
      assert s[1..] == a[1..] + [Sep] + b;
      SplitCons(a[1..], b);
      assert [a[0]] + a[1..] == a;
    }
  }

  /** Splitting pieces joined with the separator gives back the pieces, as
      long as no piece contains a separator. */
  lemma {:induction false} SplitJoin(parts: seq<string>)
    requires |parts| >= 1
    requires forall i :: 0 <= i < |parts| ==> Sep !in parts[i]
    ensures Split(Join(parts)) == parts
    decreases |parts|
  {
    if |parts| > 1 {
      SplitJoin(parts[1..]);
      SplitCons(parts[0], Join(parts[1..]));
    }
  }

  /** The last piece of a split is the longest separator-free suffix. */
  lemma {:induction false} SplitLastIsSuffix(s: string)
    ensures var parts := Split(s); var b := parts[|parts| - 1];
      |b| <= |s| && s[|s| - |b|..] == b && (|b| < |s| ==> s[|s| - |b| - 1] == Sep)
    decreases |s|
  {
    if |s| > 0 {
      var t := s[1..];
      var rest := Split(t);
      SplitLastIsSuffix(t);
      assert s == [s[0]] + t;
      if s[0] != Sep && |rest| == 1 {
        assert rest == [t];
      }
    }
  }

  /** The last "/"-separated segment of `s`: everything after its last
      separator, or all of `s` when it has none. */
  function Base(s: string): (b: string)
    ensures Sep !in b
    ensures |b| <= |s| && s[|s| - |b|..] == b
    ensures |b| < |s| ==> s[|s| - |b| - 1] == Sep
    ensures Sep !in s ==> b == s
  {
    var parts := Split(s);
    SplitLastIsSuffix(s);
    parts[|parts| - 1]
  }

  /** `filepath.Dir` for slash paths without "." / ".." elements or
      repeated separators: the part before the last separator, "/" when
      that separator is the leading one, or "." when there is none. */
  function Dir(s: string): string
  {
    if Sep !in s then "."
    else if |Base(s)| + 1 == |s| then [Sep]
    else s[..|s| - |Base(s)| - 1]
  }

  /** A path without "/" lies in "."; a path whose only "/" leads it lies in
      "/"; any other path is its directory, "/" and its last segment. */
  lemma DirBaseSplit(s: string)
    ensures Sep !in s ==> Dir(s) == "."
    ensures Sep in s && |Base(s)| + 1 == |s| ==> Dir(s) == [Sep] && s == [Sep] + Base(s)
    ensures Sep in s && |Base(s)| + 1 < |s| ==> s == Dir(s) + [Sep] + Base(s)
  {
    if Sep in s {
      var b := Base(s);
      assert s == s[..|s| - |b| - 1] + [Sep] + s[|s| - |b|..];
    }
  }

  /** `base + "/" + name`, the way the handlers build a remote path. */
  function JoinDir(base: string, name: string): string
  {
    base + [Sep] + name
  }

  /** Under one base, different names give different paths. */
  lemma JoinDirInjective(base: string, a: string, b: string)
    requires JoinDir(base, a) == JoinDir(base, b)
    ensures a == b
  {
    assert a == (base + [Sep] + a)[|base| + 1..];
    assert b == (base + [Sep] + b)[|base| + 1..];
  }

  /** A path built from a directory and a separator-free name splits back
      into that directory and that name; an empty directory stands for the
      root, so the path lies in "/". */
  lemma BaseDirOfJoin(d: string, name: string)
    requires Sep !in name
    ensures Base(JoinDir(d, name)) == name
    ensures Dir(JoinDir(d, name)) == if d == "" then [Sep] else d
  {
    var p := d + [Sep] + name;
    assert p[|p| - |name|..] == name;
    assert Sep in p by { assert p[|d|] == Sep; }
    DirBaseSplit(p);
  }
}
