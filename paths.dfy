/**
 * Path strings as `lock_file` and `stream_notifications` handle them:
 * the absoluteness test, the collapsing of slash runs with `re.sub(r'/+', '/', …)`
 * and the single-pass `replace('//', '/')` that joins a watched directory with a
 * changed child's path.
 */
module Paths {

  /** `os.path.isabs` on a POSIX system: the path begins with a slash. */
  predicate IsAbs(s: string) {
    |s| > 0 && s[0] == '/'
  }

  /** No two consecutive characters of `s` are both slashes. */
  predicate NoDoubleSlash(s: string) {
    forall i :: 0 <= i < |s| - 1 ==> !(s[i] == '/' && s[i + 1] == '/')
  }

  /** The characters of `s` that are not slashes, in order. */
  function NonSlash(s: string): string {
    if s == [] then []
    else (if s[0] == '/' then [] else [s[0]]) + NonSlash(s[1..])
  }

  /**
   * `re.sub(r'/+', '/', s)`: every maximal run of slashes becomes a single slash.
   * The first character is kept, so absoluteness is kept too, and the result is
   * never longer than the input.
   */
  function Collapse(s: string): (r: string)
    ensures |r| <= |s|
    ensures |s| > 0 ==> |r| > 0 && r[0] == s[0]
    ensures IsAbs(r) <==> IsAbs(s)
  {
    if |s| <= 1 then s
    else if s[0] == '/' && s[1] == '/' then Collapse(s[1..])
    else [s[0]] + Collapse(s[1..])
  }

  /**
   * Python's `s.replace('//', '/')`: one left-to-right pass that replaces each
   * non-overlapping pair of slashes by one slash.
   */
  function ReplaceDoubleSlash(s: string): (r: string)
    ensures |s| > 0 ==> |r| > 0 && r[0] == s[0]
  {
    if |s| < 2 then s
    else if s[0] == '/' && s[1] == '/' then ['/'] + ReplaceDoubleSlash(s[2..])
    else [s[0]] + ReplaceDoubleSlash(s[1..])
  }

  /**
   * The path `stream_notifications` hands to `lock_file` for a changed child:
   * `(full_path + '/' + change_path).replace('//', '/')`.
   * It is absolute exactly when the watched path is empty or absolute.
   */
  function JoinChangePath(fullPath: string, changePath: string): (r: string)
    ensures IsAbs(r) <==> fullPath == [] || IsAbs(fullPath)
  {
    var joined := fullPath + "/" + changePath;
    assert joined[0] == if fullPath == [] then '/' else fullPath[0];
    ReplaceDoubleSlash(joined)
  }

  /** Collapsing one character in front of `s` depends only on `Collapse(s)`. */
  lemma {:induction false} CollapseCons(c: char, s: string)
    ensures Collapse([c] + s) ==
            if c == '/' && |Collapse(s)| > 0 && Collapse(s)[0] == '/' then Collapse(s)
            else [c] + Collapse(s)
  {
    var t := [c] + s;
    assert t[1..] == s;
  }

  /** After collapsing, no two slashes are adjacent. */
  lemma {:induction false} CollapseNoDoubleSlash(s: string)
    ensures NoDoubleSlash(Collapse(s))
  {
    if |s| > 1 {
      CollapseNoDoubleSlash(s[1..]);
    }
  }

  /** A path without adjacent slashes is left as it is. */
  lemma {:induction false} CollapseFixesNoDoubleSlash(s: string)
    requires NoDoubleSlash(s)
    ensures Collapse(s) == s
  {
    if |s| > 1 {
      assert !(s[0] == '/' && s[1] == '/');
      CollapseFixesNoDoubleSlash(s[1..]);
      assert [s[0]] + s[1..] == s;
    }
  }

  /** Collapsing leaves a path unchanged exactly when it has no adjacent slashes. */
  lemma {:induction false} CollapseFixedIff(s: string)
    ensures Collapse(s) == s <==> NoDoubleSlash(s)
  {
    CollapseNoDoubleSlash(s);
    if NoDoubleSlash(s) {
      CollapseFixesNoDoubleSlash(s);
    }
  }

  /** Collapsing twice is the same as collapsing once. */
  lemma {:induction false} CollapseIdempotent(s: string)
    ensures Collapse(Collapse(s)) == Collapse(s)
  {
    CollapseNoDoubleSlash(s);
    CollapseFixesNoDoubleSlash(Collapse(s));
  }

  /** Collapsing removes only slashes: the other characters keep their order. */
  lemma {:induction false} CollapseKeepsNonSlash(s: string)
    ensures NonSlash(Collapse(s)) == NonSlash(s)
  {
    if |s| > 1 {
      CollapseKeepsNonSlash(s[1..]);
      if !(s[0] == '/' && s[1] == '/') {
        var t := [s[0]] + Collapse(s[1..]);
        assert t[1..] == Collapse(s[1..]);
      }
    }
  }

  /** The single replace pass removes only slashes as well. */
  lemma {:induction false} ReplaceKeepsNonSlash(s: string)
    ensures NonSlash(ReplaceDoubleSlash(s)) == NonSlash(s)
  {
    if |s| >= 2 {
      if s[0] == '/' && s[1] == '/' {
        ReplaceKeepsNonSlash(s[2..]);
        var t := ['/'] + ReplaceDoubleSlash(s[2..]);
        assert t[1..] == ReplaceDoubleSlash(s[2..]);
        assert s[1..][1..] == s[2..];
      } else {
        ReplaceKeepsNonSlash(s[1..]);
        var t := [s[0]] + ReplaceDoubleSlash(s[1..]);
        assert t[1..] == ReplaceDoubleSlash(s[1..]);
      }
    }
  }

  /** Collapsing after the single replace pass is the same as collapsing directly. */
  lemma {:induction false} CollapseAfterReplace(s: string)
    ensures Collapse(ReplaceDoubleSlash(s)) == Collapse(s)
  {
    if |s| >= 2 {
      if s[0] == '/' && s[1] == '/' {
        CollapseAfterReplace(s[2..]);
        CollapseCons('/', ReplaceDoubleSlash(s[2..]));
        CollapseCons('/', s[2..]);
        assert s[1..] == ['/'] + s[2..];
      } else {
        CollapseAfterReplace(s[1..]);
        CollapseCons(s[0], ReplaceDoubleSlash(s[1..]));
        CollapseCons(s[0], s[1..]);
        assert s == [s[0]] + s[1..];
      }
    }
  }

  /**
   * The path `lock_file` finally locks for a changed child is the collapsed
   * concatenation: the replace pass in the join makes no difference to it.
   */
  lemma JoinThenCollapse(fullPath: string, changePath: string)
    ensures Collapse(JoinChangePath(fullPath, changePath)) == Collapse(fullPath + "/" + changePath)
  {
    CollapseAfterReplace(fullPath + "/" + changePath);
  }

  /** The replace pass alone does not remove every double slash: `///` becomes `//`. */
  lemma ReplaceLeavesDoubleSlash()
    ensures ReplaceDoubleSlash("///") == "//"
    ensures !NoDoubleSlash(ReplaceDoubleSlash("///"))
  {
    assert "///"[2..] == "/";
    assert ReplaceDoubleSlash("///") == ['/'] + "/";
  }
}
