/**
 * Path algebra of the simulator: `resolvePath`, `joinPath`, `getParentPath`
 * and `getPathName`. Paths are plain strings; a path is taken apart into its
 * non-empty `/`-separated segments and re-rendered as `/seg1/seg2/...`.
 */
module Paths {
  import opened Text

  /** The elements of `xs` that are not the empty string, in order. */
  function NonEmpty(xs: seq<string>): (ys: seq<string>)
    ensures forall i :: 0 <= i < |ys| ==> ys[i] != "" && ys[i] in xs
    ensures |ys| <= |xs|
  {
    if |xs| == 0 then []
    else if xs[0] == "" then NonEmpty(xs[1..])
    else [xs[0]] + NonEmpty(xs[1..])
  }

  /** `p.split('/').filter(s => s)`: the non-empty segments of a path. */
  function Segments(p: string): (segs: seq<string>)
    ensures forall i :: 0 <= i < |segs| ==> segs[i] != "" && '/' !in segs[i]
  {
    SplitPieces(p, '/');
    NonEmpty(Split(p, '/'))
  }

  /** A segment that `joinPath` keeps as it is. */
  predicate IsName(s: string)
  {
    s != "" && '/' !in s && s != "." && s != ".."
  }

  /** Segments free of `.`, `..` and empty pieces. */
  predicate Normal(segs: seq<string>)
  {
    forall i :: 0 <= i < |segs| ==> IsName(segs[i])
  }

  /** One segment of the walk in `joinPath`: `..` pops (nothing at root), `.` is dropped. */
  function Step(acc: seq<string>, part: string): seq<string>
  {
    if part == ".." then (if |acc| == 0 then acc else acc[..|acc| - 1])
    else if part == "." then acc
    else acc + [part]
  }

  /** The walk of `joinPath` over the relative segments, left to right. */
  function Walk(acc: seq<string>, parts: seq<string>): seq<string>
    decreases |parts|
  {
    if |parts| == 0 then acc else Walk(Step(acc, parts[0]), parts[1..])
  }

  /** `'/' + parts.join('/')`. */
  function Render(segs: seq<string>): string
  {
    "/" + Join(segs, "/")
  }

  /** `joinPath(base, relative)`. */
  function JoinPath(base: string, relative: string): string
  {
    if StartsWith(relative, "/") then relative
    else Render(Walk(Segments(base), Segments(relative)))
  }

  /**
   * `resolvePath(input)` against the current directory: an absolute input
   * comes back verbatim (not normalised); a relative one is joined.
   */
  function ResolvePath(cwd: string, input: string): (r: string)
    ensures StartsWith(r, "/")
    ensures StartsWith(input, "/") ==> r == input
    ensures !StartsWith(input, "/") ==> Segments(r) == Walk(Segments(cwd), Segments(input))
  {
    if StartsWith(input, "/") then input
    else
      WalkKeepsSegments(Segments(cwd), Segments(input));
      SegmentsOfRender(Walk(Segments(cwd), Segments(input)));
      JoinPath(cwd, input)
  }

  /** `getParentPath(path)`: textual, `/` for paths of at most one segment. */
  function GetParentPath(path: string): string
  {
    var segs := Segments(path);
    if |segs| <= 1 then "/" else Render(segs[..|segs| - 1])
  }

  /** `getPathName(path)`: the last segment, or the empty string. */
  function GetPathName(path: string): string
  {
    var segs := Segments(path);
    if |segs| == 0 then "" else segs[|segs| - 1]
  }

  /** Segments without `/` that are not empty survive the filtering unchanged. */
  lemma {:induction false} NonEmptyKeeps(xs: seq<string>)
    requires forall i :: 0 <= i < |xs| ==> xs[i] != ""
    ensures NonEmpty(xs) == xs
    decreases |xs|
  {
    if |xs| > 0 {
      NonEmptyKeeps(xs[1..]);
      assert [xs[0]] + xs[1..] == xs;
    }
  }

  /** Rendering then taking apart gives back the segments. */
  lemma {:induction false} SegmentsOfRender(segs: seq<string>)
    requires forall i :: 0 <= i < |segs| ==> segs[i] != "" && '/' !in segs[i]
    ensures Segments(Render(segs)) == segs
  {
    if |segs| == 0 {
      assert Render(segs) == "/";
      assert Split("/", '/') == ["", ""];
    } else {
      SplitJoin(segs, '/');
      SplitAround("", Join(segs, "/"), '/');
      assert Render(segs) == "" + ['/'] + Join(segs, "/");
      assert Split(Render(segs), '/') == [""] + segs;
      NonEmptyKeeps(segs);
      assert ([""] + segs)[1..] == segs;
    }
  }

  /** The walk never introduces an empty segment or one containing `/`. */
  lemma {:induction false} WalkKeepsSegments(acc: seq<string>, parts: seq<string>)
    requires forall i :: 0 <= i < |acc| ==> acc[i] != "" && '/' !in acc[i]
    requires forall i :: 0 <= i < |parts| ==> parts[i] != "" && '/' !in parts[i]
    ensures forall i :: 0 <= i < |Walk(acc, parts)| ==>
              Walk(acc, parts)[i] != "" && '/' !in Walk(acc, parts)[i]
    decreases |parts|
  {
    if |parts| > 0 {
      WalkKeepsSegments(Step(acc, parts[0]), parts[1..]);
    }
  }

  /** The walk keeps normal segments normal. */
  lemma {:induction false} WalkKeepsNormal(acc: seq<string>, parts: seq<string>)
    requires Normal(acc)
    requires forall i :: 0 <= i < |parts| ==> parts[i] != "" && '/' !in parts[i]
    ensures Normal(Walk(acc, parts))
    decreases |parts|
  {
    if |parts| > 0 {
      WalkKeepsNormal(Step(acc, parts[0]), parts[1..]);
    }
  }

  /**
   * Joining a relative path gives an absolute path whose segments are the
   * walk of the relative segments over the base's; when the base is normal,
   * the result has no `.`, `..` or empty segment.
   */
  lemma JoinPathNormal(base: string, relative: string)
    requires !StartsWith(relative, "/")
    ensures StartsWith(JoinPath(base, relative), "/")
    ensures Segments(JoinPath(base, relative)) == Walk(Segments(base), Segments(relative))
    ensures Normal(Segments(base)) ==> Normal(Segments(JoinPath(base, relative)))
  {
    var w := Walk(Segments(base), Segments(relative));
    WalkKeepsSegments(Segments(base), Segments(relative));
    SegmentsOfRender(w);
    if Normal(Segments(base)) {
      WalkKeepsNormal(Segments(base), Segments(relative));
    }
  }

  /** Walking over names only appends them. */
  lemma {:induction false} WalkNames(acc: seq<string>, names: seq<string>)
    requires Normal(names)
    ensures Walk(acc, names) == acc + names
    decreases |names|
  {
    if |names| > 0 {
      WalkNames(acc + [names[0]], names[1..]);
      assert acc + [names[0]] + names[1..] == acc + names;
    }
  }

  /** Walking over `k` times `..` drops the last `k` segments. */
  lemma {:induction false} WalkUp(acc: seq<string>, names: seq<string>, k: nat)
    requires k == |names|
    ensures Walk(acc + names, seq(k, _ => "..")) == acc
    decreases k
  {
    if k > 0 {
      var ups := seq(k, _ => "..");
      var shorter := acc + names[..k - 1];
      assert Step(acc + names, "..") == shorter;
      assert ups[1..] == seq(k - 1, _ => "..");
      WalkUp(acc, names[..k - 1], k - 1);
    } else {
      assert acc + names == acc;
    }
  }

  /** The segments of `"../../.."`. */
  lemma {:induction false} SegmentsOfUps(k: nat)
    requires k > 0
    ensures Segments(Join(seq(k, _ => ".."), "/")) == seq(k, _ => "..")
  {
    var ups := seq(k, _ => "..");
    SplitJoin(ups, '/');
    NonEmptyKeeps(ups);
  }

  /**
   * Going down a relative path of `k` names and then up `k` times `..`
   * comes back to the (normalised) starting directory.
   */
  lemma DownAndUp(base: string, names: seq<string>)
    requires |names| > 0 && Normal(names)
    ensures JoinPath(JoinPath(base, Join(names, "/")), Join(seq(|names|, _ => ".."), "/"))
            == Render(Segments(base))
  {
    var k := |names|;
    var down := Join(names, "/");
    var up := Join(seq(k, _ => ".."), "/");
    assert Segments(down) == names by {
      SplitJoin(names, '/');
      NonEmptyKeeps(names);
    }
    assert !StartsWith(down, "/") by {
      assert down == names[0] + (if k == 1 then "" else "/" + Join(names[1..], "/"));
      assert down[0] == names[0][0] != '/';
    }
    var mid := JoinPath(base, down);
    assert Segments(mid) == Segments(base) + names by {
      JoinPathNormal(base, down);
      WalkNames(Segments(base), names);
    }
    assert Segments(up) == seq(k, _ => "..") by {
      SegmentsOfUps(k);
    }
    assert !StartsWith(up, "/") by {
      assert up[0] == '.';
    }
    assert Walk(Segments(mid), Segments(up)) == Segments(base) by {
      WalkUp(Segments(base), names, k);
    }
  }

  /** `..` pops exactly one segment, and nothing at the root. */
  lemma UpOne(base: string)
    ensures Segments(JoinPath(base, "..")) ==
            (if |Segments(base)| == 0 then [] else Segments(base)[..|Segments(base)| - 1])
  {
    SplitNoSeparator("..", '/');
    assert Segments("..") == [".."];
    JoinPathNormal(base, "..");
  }

  /**
   * For a canonical path, the parent and the name are its last segment split
   * off, and joining them gives the path back.
   */
  lemma ParentAndName(segs: seq<string>)
    requires |segs| > 0 && Normal(segs)
    ensures GetParentPath(Render(segs)) == Render(segs[..|segs| - 1])
    ensures GetPathName(Render(segs)) == segs[|segs| - 1]
    ensures JoinPath(GetParentPath(Render(segs)), GetPathName(Render(segs))) == Render(segs)
  {
    SegmentsOfRender(segs);
    var n := |segs|;
    var name := segs[n - 1];
    if n == 1 {
      assert Render(segs[..0]) == "/";
      SegmentsOfRender([]);
    } else {
      SegmentsOfRender(segs[..n - 1]);
    }
    assert Segments(GetParentPath(Render(segs))) == segs[..n - 1];
    assert !StartsWith(name, "/") by { assert name[0] != '/'; }
    SplitNoSeparator(name, '/');
    NonEmptyKeeps([name]);
    assert Segments(name) == [name];
    WalkNames(segs[..n - 1], [name]);
    assert segs[..n - 1] + [name] == segs;
  }
}
