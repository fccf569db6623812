/** The part of Node's posix `path.basename` that the tray uses to name a
    project after the directory the user picked. */
module Paths {

  const Sep: char := '/'

  /** Drops every trailing separator. */
  function StripTrailing(s: string): (r: string)
    ensures |r| <= |s| && r == s[..|r|]
    ensures |r| == 0 || r[|r| - 1] != Sep
    ensures forall i :: |r| <= i < |s| ==> s[i] == Sep
  {
    if |s| > 0 && s[|s| - 1] == Sep then StripTrailing(s[..|s| - 1]) else s
  }

  /** The characters after the last separator (all of `s` when it has none). */
  function LastSegment(s: string): (r: string)
    ensures |r| <= |s| && r == s[|s| - |r|..]
    ensures Sep !in r
    ensures |r| < |s| ==> s[|s| - |r| - 1] == Sep
  {
    if |s| == 0 || s[|s| - 1] == Sep then ""
    else LastSegment(s[..|s| - 1]) + [s[|s| - 1]]
  }

  /** `basename(path)`: the final segment of the path, ignoring trailing
      separators; the empty string for "" and for a path of separators only. */
  function Basename(path: string): (r: string)
    ensures Sep !in r
    ensures |r| <= |path|
    ensures (forall i :: 0 <= i < |path| ==> path[i] == Sep) ==> r == []
  {
    LastSegment(StripTrailing(path))
  }

  lemma {:induction false} LastSegmentAfterSep(dir: string, seg: string)
    requires Sep !in seg
    ensures LastSegment(dir + [Sep] + seg) == seg
    decreases |seg|
  {
    var s := dir + [Sep] + seg;
    if |seg| == 0 {
      assert s[|s| - 1] == Sep;
    } else {
      var init := seg[..|seg| - 1];
      assert s[..|s| - 1] == dir + [Sep] + init;
      assert s[|s| - 1] == seg[|seg| - 1];
      assert Sep !in init by {
        forall i | 0 <= i < |init| ensures init[i] != Sep {
          assert init[i] == seg[i];
        }
      }
      LastSegmentAfterSep(dir, init);
      assert init + [seg[|seg| - 1]] == seg;
    }
  }

  /** The name the tray derives from `dir/seg` is `seg`, whatever `dir` is. */
  lemma BasenameOfJoin(dir: string, seg: string)
    requires |seg| > 0 && Sep !in seg
    ensures Basename(dir + [Sep] + seg) == seg
  {
    var s := dir + [Sep] + seg;
    assert s[|s| - 1] == seg[|seg| - 1];
    assert StripTrailing(s) == s;
    LastSegmentAfterSep(dir, seg);
  }

  /** A path with no separator is its own basename. */
  lemma {:induction false} BasenameOfPlainName(name: string)
    requires Sep !in name
    ensures Basename(name) == name
    decreases |name|
  {
    if |name| > 0 {
      var init := name[..|name| - 1];
      assert Sep !in init by {
        forall i | 0 <= i < |init| ensures init[i] != Sep {
          assert init[i] == name[i];
        }
      }
      BasenameOfPlainName(init);
      assert StripTrailing(init) == init;
      assert init + [name[|name| - 1]] == name;
    }
  }

  /** Trailing separators do not change the basename: "/a/b/" names "b". */
  lemma BasenameIgnoresTrailingSep(path: string)
    ensures Basename(path + [Sep]) == Basename(path)
  {
    var s := path + [Sep];
    assert s[..|s| - 1] == path;
  }
}
