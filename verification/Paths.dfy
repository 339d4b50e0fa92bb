/** Paths as sequences of segments. `Path.Combine(a, b)` is `a + [b]`; the
    string form joins the segments with one fixed separator. The filesystem
    is looked up by the lexically resolved form (`..` removes the segment
    before it), which is what the operating system does with the textual
    `..` segments the driver appends. */
module Paths {

  type Path = seq<string>

  const Sep: char := '/'
  const ParentSegment: string := ".."
  const CurrentSegment: string := "."

  /** An ordinary directory or file name: no separator, not `.` or `..`. */
  predicate IsName(s: string) {
    s != "" && s != CurrentSegment && s != ParentSegment && Sep !in s
  }

  /** The string form of a path: the segments joined by `Sep`. */
  function Render(p: Path): string {
    if |p| == 0 then ""
    else if |p| == 1 then p[0]
    else p[0] + [Sep] + Render(p[1..])
  }

  /** Splits a string at every separator; a string without separator is one segment. */
  function Split(s: string): (r: Path)
    ensures |r| >= 1
  {
    if s == [] then [""]
    else
      var rest := Split(s[1..]);
      if s[0] == Sep then [""] + rest else [[s[0]] + rest[0]] + rest[1..]
  }

  /** The path a string names; the empty string is the empty path, as
      `Path.Combine` skips empty components. */
  function Parse(s: string): Path {
    if s == "" then [] else Split(s)
  }

  /** `Path.GetFileName`: the last segment of the textual path. */
  function FileName(p: Path): string {
    if p == [] then "" else p[|p| - 1]
  }

  /** Lexical resolution: `..` drops the previous segment but never the
      root segment, and empty and `.` segments after the first vanish. */
  function Resolve(p: Path): Path {
    if p == [] then []
    else
      var r := Resolve(p[..|p| - 1]);
      var x := p[|p| - 1];
      if x == ParentSegment then (if |r| > 1 then r[..|r| - 1] else r)
      else if (x == "" || x == CurrentSegment) && r != [] then r
      else r + [x]
  }

  /** The path the driver's `up(n)` builds: `n` literal `..` segments appended. */
  function Ascend(p: Path, n: nat): Path {
    if n == 0 then p else Ascend(p, n - 1) + [ParentSegment]
  }

  /** The local function `up` of `NormalizeWorkingDirectory`: a loop that
      combines the path with `..` once per level. */
  method Up(cwd: Path, levels: nat) returns (result: Path)
    ensures result == Ascend(cwd, levels)
  {
    result := cwd;
    var i := 0;
    while i < levels
      invariant 0 <= i <= levels
      invariant result == Ascend(cwd, i)
    {
      result := result + [ParentSegment];
      i := i + 1;
    }
  }

  /** `up(n)` keeps the path as a prefix and adds exactly `n` segments, all `..`. */
  lemma {:induction false} AscendShape(p: Path, n: nat)
    ensures |Ascend(p, n)| == |p| + n
    ensures Ascend(p, n)[..|p|] == p
    ensures forall k :: |p| <= k < |p| + n ==> Ascend(p, n)[k] == ParentSegment
  {
    if n > 0 {
      AscendShape(p, n - 1);
    }
  }

  /** Ascending `n` levels resolves to the resolved path without its last `n`
      segments, as long as that leaves the root. */
  lemma {:induction false} ResolveAscend(p: Path, n: nat)
    requires n < |Resolve(p)|
    ensures Resolve(Ascend(p, n)) == Resolve(p)[..|Resolve(p)| - n]
  {
    if n > 0 {
      ResolveAscend(p, n - 1);
      var q := Ascend(p, n - 1) + [ParentSegment];
      assert q[..|q| - 1] == Ascend(p, n - 1);
    }
  }

  /** Appending ordinary names resolves to the resolved path plus those names. */
  lemma {:induction false} ResolveNames(p: Path, names: seq<string>)
    requires forall i :: 0 <= i < |names| ==> IsName(names[i])
    ensures Resolve(p + names) == Resolve(p) + names
  {
    if names == [] {
      assert p + names == p;
    } else {
      var init := names[..|names| - 1];
      ResolveNames(p, init);
      var q := p + names;
      var x := names[|names| - 1];
      assert q[..|q| - 1] == p + init && q[|q| - 1] == x;
      assert IsName(x);
      assert Resolve(q) == Resolve(p + init) + [x];
      assert Resolve(p) + init + [x] == Resolve(p) + names;
    }
  }

  /** Rendering the split pieces gives the original string back. */
  lemma {:induction false} RenderSplit(s: string)
    ensures Render(Split(s)) == s
  {
    if s != [] {
      RenderSplit(s[1..]);
      var rest := Split(s[1..]);
      if s[0] != Sep && |rest| > 1 {
        assert ([[s[0]] + rest[0]] + rest[1..])[1..] == rest[1..];
      }
    }
  }

  lemma RenderParse(s: string)
    ensures Render(Parse(s)) == s
  {
    if s != "" {
      RenderSplit(s);
    }
  }

  /** `Path.Combine(a, b)` on a non-empty path puts one separator between. */
  lemma {:induction false} RenderSnoc(p: Path, x: string)
    requires |p| >= 1
    ensures Render(p + [x]) == Render(p) + [Sep] + x
  {
    if |p| > 1 {
      assert (p + [x])[1..] == p[1..] + [x];
      RenderSnoc(p[1..], x);
    }
  }

  /** A path of two or more segments has a separator in its string form. */
  lemma RenderHasSep(p: Path)
    requires |p| >= 2
    ensures Sep in Render(p)
  {
    assert Render(p)[|p[0]|] == Sep;
  }
}
