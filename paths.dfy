/**
 * The string and path helpers that the file system leans on: the slash
 * stripping done by the node constructor and by `update_paths`, and the
 * `pathsplit` of `fs.path`, taken on already normalised paths.
 */
module Paths {
  import opened Wrappers

  /** `s.rstrip('/')`: `s` without its trailing run of '/'. */
  function RStripSlashes(s: string): (r: string)
    ensures |r| <= |s| && r == s[..|r|]
    ensures r == [] || r[|r| - 1] != '/'
    ensures forall i :: |r| <= i < |s| ==> s[i] == '/'
  {
    if s != [] && s[|s| - 1] == '/' then RStripSlashes(s[..|s| - 1]) else s
  }

  /** `s.lstrip('/')`: `s` without its leading run of '/'. */
  function LStripSlashes(s: string): (r: string)
    ensures |r| <= |s| && r == s[|s| - |r|..]
    ensures r == [] || r[0] != '/'
    ensures forall i :: 0 <= i < |s| - |r| ==> s[i] == '/'
  {
    if s != [] && s[0] == '/' then LStripSlashes(s[1..]) else s
  }

  /** `s.strip('/')`. */
  function StripSlashes(s: string): (r: string)
    ensures r == [] || (r[0] != '/' && r[|r| - 1] != '/')
  {
    RStripSlashes(LStripSlashes(s))
  }

  /**
   * `'/' + p.strip('/') + '/'`, the prefix every node path is built from
   * (riakfs.py:122 and :145).
   */
  function NormalPrefix(p: string): (r: string)
    ensures |r| >= 2 && r[0] == '/' && r[|r| - 1] == '/'
  {
    "/" + StripSlashes(p) + "/"
  }

  /** A path made only of slashes (the root written as "/") strips to nothing. */
  lemma {:induction false} StripAllSlashes(s: string)
    requires forall i :: 0 <= i < |s| ==> s[i] == '/'
    ensures StripSlashes(s) == []
  {
    if s != [] {
      assert LStripSlashes(s) == LStripSlashes(s[1..]);
      StripAllSlashes(s[1..]);
    }
  }

  /** The root prefix "/" becomes "//", not "/" (riakfs.py:121-122). */
  lemma RootPrefixDoubled()
    ensures NormalPrefix("/") == "//"
  {
    StripAllSlashes("/");
  }

  /**
   * A directory path with a doubled leading slash, used as a prefix, loses
   * the doubling: "//a/" gives "/a/" (riakfs.py:122).
   */
  lemma DoubledSlashPrefix(bare: string)
    requires bare != [] && bare[0] != '/' && bare[|bare| - 1] != '/'
    ensures NormalPrefix("//" + bare + "/") == "/" + bare + "/"
  {
    assert "//" + bare + "/" == "//" + (bare + "/");
    LStripRun("//", bare + "/");
    RStripOne(bare);
  }

  /** A leading run of slashes is stripped up to the first other character. */
  lemma {:induction false} LStripRun(slashes: string, rest: string)
    requires forall i :: 0 <= i < |slashes| ==> slashes[i] == '/'
    requires rest == [] || rest[0] != '/'
    ensures LStripSlashes(slashes + rest) == rest
    decreases |slashes|
  {
    if slashes != [] {
      assert (slashes + rest)[1..] == slashes[1..] + rest;
      LStripRun(slashes[1..], rest);
    }
  }

  /** The one trailing slash of bare + "/" is stripped, and nothing else. */
  lemma RStripOne(bare: string)
    requires bare == [] || bare[|bare| - 1] != '/'
    ensures RStripSlashes(bare + "/") == bare
  {
    assert (bare + "/")[..|bare|] == bare;
  }

  /**
   * A path argument once `normpath` has run: whether its text starts with
   * '/', and its segments. The empty text "" and the root "/" both have no
   * segments and differ only in `absolute`.
   */
  datatype PathName = PathName(absolute: bool, segments: seq<string>) {

    /** Python truthiness of the path text: only "" is false. */
    predicate NonEmpty() {
      absolute || segments != []
    }

    /**
     * `pathsplit`: the head keeps the leading '/' ("/a" gives ("/", "a")),
     * and a path without segments splits into itself and "" ("/" gives
     * ("/", ""), "" gives ("", "")).
     */
    function Split(): (r: (PathName, string))
      ensures r.0.absolute == absolute
      ensures segments != [] ==> r.0.segments + [r.1] == segments
      ensures segments == [] ==> r.0 == this && r.1 == ""
    {
      if segments == [] then (this, "")
      else (PathName(absolute, segments[..|segments| - 1]), segments[|segments| - 1])
    }
  }
}
