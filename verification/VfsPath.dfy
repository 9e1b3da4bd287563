/** Path resolution in apps/cli/vfs.ts. */
module VfsPath {
  import opened Strings

  predicate IsAbsolute(path: string) {
    path != "" && path[0] == '/'
  }

  /** One segment of a relative path, applied to the stack of segments. */
  function Enter(base: seq<string>, part: string): seq<string> {
    if part == "" || part == "." then base
    else if part == ".." then (if base == [] then base else base[..|base| - 1])
    else base + [part]
  }

  function Walk(base: seq<string>, parts: seq<string>): seq<string> {
    if parts == [] then base else Enter(Walk(base, parts[..|parts| - 1]), parts[|parts| - 1])
  }

  function NormalizePath(p: string): string {
    Join(NonEmpty(Split(p, '/')), '/')
  }

  function Segments(cwd: string): seq<string> {
    if cwd == "" then [] else Split(cwd, '/')
  }

  function Resolve(cwd: string, target: string): string {
    if IsAbsolute(target) then NormalizePath(target[1..])
    else Join(Walk(Segments(cwd), Split(target, '/')), '/')
  }

  method ResolvePath(cwd: string, target: string) returns (path: string)
    ensures path == Resolve(cwd, target)
  {
    if IsAbsolute(target) {
      return NormalizePath(target[1..]);
    }
    var base := Segments(cwd);
    ghost var start := base;
    var parts := Split(target, '/');
    for i := 0 to |parts|
      invariant base == Walk(start, parts[..i])
    {
      assert parts[..i + 1][..i] == parts[..i];
      var part := parts[i];
      if part == "" || part == "." {
      } else if part == ".." {
        if |base| > 0 {
          base := base[..|base| - 1];
        }
      } else {
        base := base + [part];
      }
    }
    assert parts[..|parts|] == parts;
    path := Join(base, '/');
  }

  // ---- clean paths ----

  /** A proper segment: not empty, not a dot or two, and in one piece. */
  predicate Proper(p: string) {
    p != "" && p != "." && p != ".." && '/' !in p
  }

  ghost predicate AllProper(parts: seq<string>) {
    forall p :: p in parts ==> Proper(p)
  }

  ghost predicate Clean(path: string) {
    AllProper(Segments(path))
  }

  lemma SegmentsOfJoin(parts: seq<string>)
    requires AllProper(parts)
    ensures Segments(Join(parts, '/')) == parts
  {
    if parts != [] {
      assert parts[0] in parts;
      SplitJoin(parts, '/');
    }
  }

  lemma {:induction false} WalkProper(base: seq<string>, parts: seq<string>)
    requires AllProper(base) && forall p :: p in parts ==> '/' !in p
    ensures AllProper(Walk(base, parts))
  {
    if parts != [] {
      assert parts == parts[..|parts| - 1] + [parts[|parts| - 1]];
      WalkProper(base, parts[..|parts| - 1]);
    }
  }

  lemma {:induction false} WalkTwice(base: seq<string>, p: seq<string>, q: seq<string>)
    ensures Walk(base, p + q) == Walk(Walk(base, p), q)
  {
    if q == [] {
      assert p + q == p;
    } else {
      WalkTwice(base, p, q[..|q| - 1]);
      assert (p + q)[..|p + q| - 1] == p + q[..|q| - 1];
    }
  }

  /** Resolving two relative paths in turn is resolving them joined. */
  lemma ResolveComposes(cwd: string, a: string, b: string)
    requires Clean(cwd) && a != "" && !IsAbsolute(a) && !IsAbsolute(b)
    ensures Resolve(Resolve(cwd, a), b) == Resolve(cwd, a + "/" + b)
  {
    var base := Walk(Segments(cwd), Split(a, '/'));
    SplitParts(a, '/');
    WalkProper(Segments(cwd), Split(a, '/'));
    SegmentsOfJoin(base);
    SplitConcat(a, b, '/');
    assert a + "/" + b == a + ['/'] + b && (a + "/" + b)[0] == a[0];
    WalkTwice(Segments(cwd), Split(a, '/'), Split(b, '/'));
  }

  /**
   * From a clean directory, a relative target always resolves to a clean path; an absolute one
   * exactly when it has no dot segments, which are only dropped from relative targets.
   */
  lemma ResolveIsCleanIff(cwd: string, target: string)
    requires Clean(cwd)
    ensures Clean(Resolve(cwd, target)) <==>
              !IsAbsolute(target) || ("." !in Split(target[1..], '/') && ".." !in Split(target[1..], '/'))
  {
    if !IsAbsolute(target) {
      SplitParts(target, '/');
      WalkProper(Segments(cwd), Split(target, '/'));
      SegmentsOfJoin(Walk(Segments(cwd), Split(target, '/')));
    } else {
      var all := Split(target[1..], '/');
      var parts := NonEmpty(all);
      SplitParts(target[1..], '/');
      forall p
        ensures p in parts <==> p in all && p != ""
      {
        NonEmptyMembers(all, p);
      }
      JoinEmpty(parts);
      if parts != [] {
        SplitJoin(parts, '/');
      }
      assert Segments(NormalizePath(target[1..])) == parts;
    }
  }

  /** Each ".." takes off one segment, and climbing stops at the root. */
  lemma {:induction false} ClimbingStopsAtRoot(base: seq<string>, climbs: seq<string>)
    requires forall i :: 0 <= i < |climbs| ==> climbs[i] == ".."
    ensures Walk(base, climbs) == if |climbs| <= |base| then base[..|base| - |climbs|] else []
  {
    if climbs != [] {
      ClimbingStopsAtRoot(base, climbs[..|climbs| - 1]);
    }
  }

  // ---- going down ----

  /** Proper segments are put on, in order. */
  lemma {:induction false} DescendingAppends(base: seq<string>, parts: seq<string>)
    requires AllProper(parts)
    ensures Walk(base, parts) == base + parts
  {
    if parts != [] {
      var front, last := parts[..|parts| - 1], parts[|parts| - 1];
      assert parts == front + [last] && last in parts;
      DescendingAppends(base, front);
      assert base + front + [last] == base + parts;
    } else {
      assert base + parts == base;
    }
  }

  /** A clean path below a clean directory is the two joined. */
  lemma ResolveDescends(cwd: string, path: string)
    requires Clean(cwd) && Clean(path) && path != "" && !IsAbsolute(path)
    ensures Segments(Resolve(cwd, path)) == Segments(cwd) + Segments(path)
  {
    DescendingAppends(Segments(cwd), Split(path, '/'));
    SegmentsOfJoin(Segments(cwd) + Segments(path));
  }

  /** A clean path is its own absolute path, from anywhere. */
  lemma AbsoluteIsItself(cwd: string, path: string)
    requires Clean(path)
    ensures Segments(Resolve(cwd, "/" + path)) == Segments(path)
  {
    assert ("/" + path)[1..] == path;
    if path == "" {
      assert [""][..0] == [];
      assert NonEmpty([""]) == [];
    } else {
      AllFilled(Split(path, '/'));
      SegmentsOfJoin(Split(path, '/'));
    }
  }

  lemma {:induction false} AllFilled(parts: seq<string>)
    requires "" !in parts
    ensures NonEmpty(parts) == parts
  {
    if parts != [] {
      var front, last := parts[..|parts| - 1], parts[|parts| - 1];
      assert parts == front + [last] && last in parts;
      AllFilled(front);
    }
  }

  /** An empty target stays where it is. */
  lemma EmptyTargetStays(cwd: string)
    requires Clean(cwd)
    ensures Segments(Resolve(cwd, "")) == Segments(cwd)
  {
    assert [""][..0] == [];
    assert Walk(Segments(cwd), [""]) == Segments(cwd);
    SegmentsOfJoin(Segments(cwd));
  }
}
