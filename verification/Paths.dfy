/** The file names that paths end in. */
module Paths {
  import opened Wrappers
  import opened Text

  /** What follows the last separator. */
  function LastPart(path: string): (last: string)
    ensures |last| <= |path|
  {
    if path == "" || path[|path| - 1] == '/' then "" else LastPart(path[..|path| - 1]) + [path[|path| - 1]]
  }

  lemma {:induction false} LastPartSplits(path: string)
    ensures var last := LastPart(path);
      && path == path[..|path| - |last|] + last && '/' !in last
      && (|last| < |path| ==> path[|path| - |last| - 1] == '/')
  {
    if path != "" && path[|path| - 1] != '/' {
      LastPartSplits(path[..|path| - 1]);
      assert path == path[..|path| - 1] + [path[|path| - 1]];
    }
  }

  /** The last component of a path. */
  function Basename(path: string): (r: Option<string>)
    decreases |path|
  {
    var last := LastPart(path);
    if last == "" || last == "." then
      if |last| == |path| then None else Basename(path[..|path| - |last| - 1])
    else if last == ".." then None
    else Some(last)
  }

  predicate IsPlainName(n: string) {
    n != "" && n != "." && n != ".." && '/' !in n
  }

  lemma {:induction false} LastPartIs(front: string, last: string)
    requires '/' !in last && (front == "" || HasSuffix(front, "/"))
    ensures LastPart(front + last) == last
  {
    if last == "" {
      assert front + last == front;
    } else {
      var n := |last| - 1;
      LastPartIs(front, last[..n]);
      assert (front + last)[..|front + last| - 1] == front + last[..n];
      assert last == last[..n] + [last[n]];
    }
  }

  /** A file name is its own basename, and so is any path ending in it. */
  lemma BasenameOfName(dir: string, n: string)
    requires IsPlainName(n)
    ensures Basename(n) == Some(n) && Basename(dir + "/" + n) == Some(n)
  {
    LastPartIs("", n);
    assert "" + n == n;
    LastPartIs(dir + "/", n);
    hide LastPart;
  }

  /** Separators at the end of a path, and the directory itself, name nothing. */
  predicate IsTrailing(tail: string)
    decreases |tail|
  {
    || tail == ""
    || (HasSuffix(tail, "/") && IsTrailing(tail[..|tail| - 1]))
    || (HasSuffix(tail, "/.") && IsTrailing(tail[..|tail| - 2]))
  }

  /** `n` is a plain name, behind a separator or at the start, with nothing but
      trailing separators after it. */
  ghost predicate IsLastName(path: string, n: string) {
    && IsPlainName(n)
    && exists dir, tail :: path == dir + n + tail && (dir == "" || HasSuffix(dir, "/")) && IsTrailing(tail)
  }

  /** The basename is exactly the last name of the path. */
  lemma BasenameIff(path: string, n: string)
    ensures Basename(path) == Some(n) <==> IsLastName(path, n)
  {
    if Basename(path) == Some(n) { BasenameIsLast(path, n); }
    if IsLastName(path, n) {
      var dir, tail :| path == dir + n + tail && (dir == "" || HasSuffix(dir, "/")) && IsTrailing(tail);
      LastIsBasename(dir, n, tail);
    }
  }

  /** A last component that names nothing does not matter. */
  lemma BasenameStep(front: string, last: string)
    requires last == "" || last == "."
    ensures Basename(front + "/" + last) == Basename(front)
  {
    hide LastPart;
    var path := front + "/" + last;
    LastPartIs(front + "/", last);
    assert path[..|front|] == front;
  }

  lemma TrailingGrows(tail: string, last: string)
    requires IsTrailing(tail) && (last == "" || last == ".")
    ensures IsTrailing(tail + "/" + last)
  {
    var more := tail + "/" + last;
    assert more[|tail|..] == "/" + last && more[..|tail|] == tail;
  }

  lemma {:induction false} BasenameIsLast(path: string, n: string)
    requires Basename(path) == Some(n)
    ensures IsLastName(path, n)
    decreases |path|
  {
    hide IsTrailing, LastPart;
    LastPartSplits(path);
    var last := LastPart(path);
    var k := |path| - |last|;
    if last == "" || last == "." {
      BasenameIsLast(path[..k - 1], n);
      TrailsFurther(path[..k - 1], n, last);
      assert path == path[..k - 1] + "/" + last;
    } else {
      NothingTrails();
      assert path == path[..k] + n + "";
      assert path[..k] == "" || HasSuffix(path[..k], "/");
    }
  }

  lemma TrailsFurther(front: string, n: string, last: string)
    requires IsLastName(front, n) && (last == "" || last == ".")
    ensures IsLastName(front + "/" + last, n)
  {
    hide IsTrailing, IsPlainName;
    var dir, tail :| front == dir + n + tail && (dir == "" || HasSuffix(dir, "/")) && IsTrailing(tail);
    TrailingGrows(tail, last);
    assert front + "/" + last == dir + n + (tail + "/" + last);
  }

  lemma NothingTrails()
    ensures IsTrailing("")
  {
  }

  lemma SuffixSplits(s: string, suffix: string)
    requires HasSuffix(s, suffix)
    ensures s == s[..|s| - |suffix|] + suffix
  {
  }

  lemma {:induction false} TrailingSplits(tail: string) returns (front: string, last: string)
    requires IsTrailing(tail) && tail != ""
    ensures tail == front + "/" + last && (last == "" || last == ".") && IsTrailing(front) && |front| < |tail|
  {
    if HasSuffix(tail, "/") && IsTrailing(tail[..|tail| - 1]) {
      front, last := tail[..|tail| - 1], "";
      hide IsTrailing;
      SuffixSplits(tail, "/");
    } else {
      front, last := tail[..|tail| - 2], ".";
      hide IsTrailing;
      SuffixSplits(tail, "/.");
      assert front + "/" + last == front + "/.";
    }
  }

  lemma {:induction false} LastIsBasename(dir: string, n: string, tail: string)
    requires IsPlainName(n) && (dir == "" || HasSuffix(dir, "/")) && IsTrailing(tail)
    ensures Basename(dir + n + tail) == Some(n)
    decreases |tail|
  {
    hide Basename, IsTrailing;
    if tail == "" {
      assert dir + n + tail == if dir == "" then n else dir[..|dir| - 1] + "/" + n;
      BasenameOfName(if dir == "" then "" else dir[..|dir| - 1], n);
    } else {
      var front, last := TrailingSplits(tail);
      LastIsBasename(dir, n, front);
      assert dir + n + tail == (dir + n + front) + "/" + last;
      BasenameStep(dir + n + front, last);
    }
  }
}
