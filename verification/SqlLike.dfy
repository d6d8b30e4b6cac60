/**
 SQL LIKE as the path queries use it. Canonical paths may contain `_`, which LIKE reads as "any
 character", so `path LIKE other || '/%'` is the descendant test only for paths without one.
 */
module SqlLike {
  import opened WikiLinks

  /** `%` matches any text, `_` any character, and a backslash quotes the next character. */
  predicate Like(s: string, pattern: string)
    decreases |s| + |pattern|
  {
    if pattern == "" then s == ""
    else if pattern[0] == '%' then Like(s, pattern[1..]) || (s != "" && Like(s[1..], pattern))
    else if pattern[0] == '\\' then |pattern| > 1 && s != "" && s[0] == pattern[1] && Like(s[1..], pattern[2..])
    else s != "" && (pattern[0] == '_' || pattern[0] == s[0]) && Like(s[1..], pattern[1..])
  }

  /** The pattern of the paths below `path`. */
  function Below(path: string): string {
    path + "/%"
  }

  predicate Matches(c: char, wanted: char) {
    wanted == '_' || wanted == c
  }

  /** What the descendant pattern of a canonical path really selects. */
  predicate LooksBelow(s: string, path: string) {
    |s| > |path| && s[|path|] == '/' && forall k :: 0 <= k < |path| ==> Matches(s[k], path[k])
  }

  lemma {:induction false} AnyTail(s: string)
    ensures Like(s, "%")
  {
    if s == "" {
      assert "%"[1..] == "";
    } else {
      AnyTail(s[1..]);
    }
  }

  lemma {:induction false} LikeBelow(s: string, path: string)
    requires forall k :: 0 <= k < |path| ==> SlugChar(path[k])
    ensures Like(s, Below(path)) <==> LooksBelow(s, path)
    decreases |path|
  {
    if path == "" {
      assert Below(path)[1..] == "%";
      if s != "" {
        AnyTail(s[1..]);
      }
    } else {
      assert Below(path)[0] == path[0] && Below(path)[1..] == Below(path[1..]);
      if s != "" {
        LikeBelow(s[1..], path[1..]);
        assert forall k :: 0 <= k < |path[1..]| ==> path[1..][k] == path[k + 1];
        assert forall k :: 0 <= k < |s[1..]| ==> s[1..][k] == s[k + 1];
        assert LooksBelow(s, path) <==> Matches(s[0], path[0]) && LooksBelow(s[1..], path[1..]) by {
          if Matches(s[0], path[0]) && LooksBelow(s[1..], path[1..]) {
            forall k | 0 <= k < |path|
              ensures Matches(s[k], path[k])
            {
              if k > 0 {
                assert Matches(s[1..][k - 1], path[1..][k - 1]);
              }
            }
          }
        }
      }
    }
  }

  /** A path below `path`. */
  predicate IsBelow(s: string, path: string) {
    path + "/" <= s
  }

  lemma IsBelowIs(s: string, path: string)
    ensures IsBelow(s, path) <==> |s| > |path| && s[|path|] == '/' && forall k :: 0 <= k < |path| ==> s[k] == path[k]
  {
    var p := path + "/";
    if IsBelow(s, path) {
      assert forall k :: 0 <= k < |p| ==> s[k] == p[k];
    }
    if |s| > |path| && s[|path|] == '/' && forall k :: 0 <= k < |path| ==> s[k] == path[k] {
      assert s[..|p|] == p;
    }
  }

  /** Every descendant is selected. */
  lemma BelowIsSelected(s: string, path: Slug)
    requires IsBelow(s, path)
    ensures Like(s, Below(path))
  {
    IsBelowIs(s, path);
    LikeBelow(s, path);
  }

  /** A path that the pattern of `path` selects without being below it. */
  function Stray(path: Slug): (s: Slug) {
    seq(|path|, k requires 0 <= k < |path| => if path[k] == '_' then 'x' else path[k]) + "/x"
  }

  /** The descendant pattern selects descendants only, exactly for the paths without an underscore. */
  lemma SelectsOnlyBelow(path: Slug)
    ensures (forall s: Slug :: Like(s, Below(path)) ==> IsBelow(s, path)) <==> '_' !in path
  {
    if '_' in path {
      var s := Stray(path);
      LikeBelow(s, path);
      IsBelowIs(s, path);
      var k :| 0 <= k < |path| && path[k] == '_';
      assert s[k] == 'x';
      assert Like(s, Below(path)) && !IsBelow(s, path);
    } else {
      forall s: Slug | Like(s, Below(path))
        ensures IsBelow(s, path)
      {
        LikeBelow(s, path);
        IsBelowIs(s, path);
        assert forall k :: 0 <= k < |path| ==> path[k] in path;
      }
    }
  }
}
