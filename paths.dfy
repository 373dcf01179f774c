/** The parts of Rust's `std::path::Path` the pipeline reads: `file_name`,
    `file_stem` and `extension`, for Unix paths with '/' as the separator. */
module Paths {
  import opened Wrappers
  import Text
  import Seqs

  /** A normal path component: not empty (repeated or trailing '/') and not ".". */
  predicate IsNormalPiece(c: string) {
    c != "" && c != "."
  }

  /** The components of `p` that `Path::components` yields, other than the root
      and "." (which it drops except at the start, where it is never normal). */
  function Components(p: string): (r: seq<string>)
    ensures forall k :: 0 <= k < |r| ==> r[k] != "" && r[k] != "." && '/' !in r[k]
  {
    var pieces := Text.Split(p, '/');
    var r := Seqs.Filter(pieces, IsNormalPiece);
    forall k | 0 <= k < |r| ensures '/' !in r[k] {
      Seqs.FilterCount(pieces, IsNormalPiece, r[k]);
      assert r[k] in multiset(r);
    }
    r
  }

  /** `Path::file_name` read off the components: the last one, unless there
      is none or it is "..". */
  function ComponentsFileName(p: string): Option<string> {
    var cs := Components(p);
    if |cs| == 0 || cs[|cs| - 1] == ".." then None else Some(cs[|cs| - 1])
  }

  /** Index of the last `c` in `s`, if any. */
  function LastIndex(s: string, c: char): (r: Option<nat>)
    ensures r.Some? ==> r.value < |s| && s[r.value] == c && c !in s[r.value + 1..]
    ensures r.None? ==> c !in s
  {
    if |s| == 0 then None
    else if s[|s| - 1] == c then Some(|s| - 1)
    else
      var r := LastIndex(s[..|s| - 1], c);
      assert r.None? ==> s == s[..|s| - 1] + [s[|s| - 1]];
      assert r.Some? ==> s[r.value + 1..] == s[..|s| - 1][r.value + 1..] + [s[|s| - 1]];
      r
  }

  /** The text after the last '/' of `p`, or all of `p` when it has none. */
  function LastPiece(p: string): string {
    if |p| == 0 || p[|p| - 1] == '/' then [] else LastPiece(p[..|p| - 1]) + [p[|p| - 1]]
  }

  /** `LastPiece` is a '/'-free suffix, preceded by a '/' unless it is all of `p`. */
  lemma {:induction false} LastPieceSuffix(p: string)
    ensures '/' !in LastPiece(p) && |LastPiece(p)| <= |p|
    ensures p == p[..|p| - |LastPiece(p)|] + LastPiece(p)
    ensures |LastPiece(p)| < |p| ==> p[|p| - |LastPiece(p)| - 1] == '/'
  {
    if |p| > 0 && p[|p| - 1] != '/' {
      var q := p[..|p| - 1];
      LastPieceSuffix(q);
      assert p == q + [p[|p| - 1]];
    }
  }

  /** `Path::file_name`, scanning back from the end: the text after the last
      '/' if it is a normal component other than "..", the file name of what
      comes before that '/' if the text is empty or ".", and none otherwise. */
  function FileName(p: string): Option<string>
    decreases |p|
  {
    var t := LastPiece(p);
    LastPieceSuffix(p);
    if |t| == |p| then (if IsNormalPiece(p) && p != ".." then Some(p) else None)
    else if IsNormalPiece(t) then (if t == ".." then None else Some(t))
    else FileName(p[..|p| - |t| - 1])
  }

  /** A text without `c` splits into itself. */
  lemma {:induction false} SplitNone(s: string, c: char)
    requires c !in s
    ensures Text.Split(s, c) == [s]
  {
    if |s| > 0 {
      SplitNone(s[1..], c);
      assert s == [s[0]] + s[1..];
    }
  }

  /** Splitting at the last `c` splits off the last piece. */
  lemma {:induction false} SplitLast(q: string, t: string, c: char)
    requires c !in t
    ensures Text.Split(q + [c] + t, c) == Text.Split(q, c) + [t]
  {
    if |q| == 0 {
      assert q + [c] + t == [c] + t;
      assert ([c] + t)[1..] == t;
      SplitNone(t, c);
    } else {
      SplitLast(q[1..], t, c);
      assert (q + [c] + t)[1..] == q[1..] + [c] + t;
      assert (q + [c] + t)[0] == q[0];
    }
  }

  /** The components of a path without '/'. */
  lemma ComponentsNoSlash(p: string)
    requires '/' !in p
    ensures Components(p) == if IsNormalPiece(p) then [p] else []
  {
    SplitNone(p, '/');
    Seqs.FilterSingleton(p, IsNormalPiece);
  }

  /** The components of a path are those before its last '/', then the text
      after it if that is normal. */
  lemma ComponentsLast(q: string, t: string)
    requires '/' !in t
    ensures Components(q + ['/'] + t) == Components(q) + if IsNormalPiece(t) then [t] else []
  {
    SplitLast(q, t, '/');
    Seqs.FilterAppend(Text.Split(q, '/'), [t], IsNormalPiece);
    Seqs.FilterSingleton(t, IsNormalPiece);
  }

  /** The scan from the end agrees with the component reading of the path. */
  lemma {:induction false} FileNameComponents(p: string)
    ensures FileName(p) == ComponentsFileName(p)
    decreases |p|
  {
    var t := LastPiece(p);
    LastPieceSuffix(p);
    if |t| == |p| {
      assert t == p;
      ComponentsNoSlash(p);
    } else {
      var q := p[..|p| - |t| - 1];
      assert p == q + ['/'] + t by {
        assert p[..|p| - |t|] == q + ['/'];
      }
      ComponentsLast(q, t);
      if !IsNormalPiece(t) {
        FileNameComponents(q);
      }
    }
  }

  /** The name split at its last '.', where a name whose only '.' is its first
      character (".bashrc") has no extension. */
  function StemOf(name: string): string {
    match LastIndex(name, '.')
    case Some(i) => if i == 0 then name else name[..i]
    case None => name
  }

  /** The extension of a file name, as `Path::extension` finds it. */
  function ExtensionOf(name: string): Option<string> {
    match LastIndex(name, '.')
    case Some(i) => if i == 0 then None else Some(name[i + 1..])
    case None => None
  }

  /** Stem, '.', extension put back together give the file name; the extension
      holds no '.', and the stem is never empty. */
  lemma StemExtensionRoundTrip(name: string, e: string)
    requires ExtensionOf(name) == Some(e)
    ensures StemOf(name) + "." + e == name
    ensures '.' !in e && |StemOf(name)| > 0
  {
    var i := LastIndex(name, '.').value;
    assert name == name[..i] + [name[i]] + name[i + 1..];
  }

  /** `Path::file_stem`. */
  function FileStem(p: string): Option<string> {
    match FileName(p)
    case Some(name) => Some(StemOf(name))
    case None => None
  }

  /** `Path::extension`. */
  function Extension(p: string): Option<string> {
    match FileName(p)
    case Some(name) => ExtensionOf(name)
    case None => None
  }
}
