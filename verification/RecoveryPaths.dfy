/** Archive paths: what `validRecoveryPath` accepts, and where an accepted path leads. */
module RecoveryPaths {

  /** The parts of a slash-separated path. */
  function Split(path: string): (r: seq<string>)
    ensures |r| >= 1
    ensures forall c :: c in r ==> '/' !in c
  {
    if path == "" then [""] else
      var rest := Split(path[1..]);
      if path[0] == '/' then [""] + rest else [[path[0]] + rest[0]] + rest[1..]
  }

  function Join(parts: seq<string>): string
    requires |parts| >= 1
  {
    if |parts| == 1 then parts[0] else parts[0] + "/" + Join(parts[1..])
  }

  /** One part of a path is walked. */
  function Walk(at: seq<string>, part: string): seq<string> {
    if part == "" || part == "." then at
    else if part == ".." then (if at != [] && at[|at| - 1] != ".." then at[..|at| - 1] else at + [".."])
    else at + [part]
  }

  function WalkAll(at: seq<string>, parts: seq<string>): seq<string>
    decreases |parts|
  {
    if parts == [] then at else WalkAll(Walk(at, parts[0]), parts[1..])
  }

  /** `filepath.Clean` of a relative path. */
  function Clean(path: string): string {
    var parts := WalkAll([], Split(path));
    if parts == [] then "." else Join(parts)
  }

  predicate HasBackslash(path: string) { '\\' in path }

  /** The text `../` occurs in the path. */
  predicate HasDotDotSlash(path: string) {
    exists i :: 0 <= i < |path| && "../" <= path[i..]
  }

  const RUNTIME: string := "runtime/"

  /** `validRecoveryPath`. */
  predicate ValidPath(path: string) {
    && path != "" && path[0] != '/' && !HasBackslash(path)
    && Clean(path) == path && RUNTIME <= path && !HasDotDotSlash(path)
  }

  predicate ProperPart(part: string) { part != "" && part != "." && part != ".." && '/' !in part }

  predicate Proper(parts: seq<string>) { forall i :: 0 <= i < |parts| ==> ProperPart(parts[i]) }

  // ---------------------------------------------------------------- splitting and joining

  lemma {:induction false} JoinSplit(path: string)
    ensures Join(Split(path)) == path
  {
    if path == "" {
    } else {
      var rest := Split(path[1..]);
      JoinSplit(path[1..]);
      assert path == [path[0]] + path[1..];
      if path[0] == '/' {
        assert ([""] + rest)[1..] == rest;
        assert Join(Split(path)) == "" + "/" + Join(rest);
      } else {
        var first := [path[0]] + rest[0];
        var parts := [first] + rest[1..];
        assert parts[1..] == rest[1..];
        if |rest| > 1 {
          assert Join(parts) == [path[0]] + rest[0] + "/" + Join(rest[1..]);
        }
      }
    }
  }

  lemma {:induction false} SplitPart(part: string)
    requires '/' !in part
    ensures Split(part) == [part]
  {
    if part == "" {
    } else {
      assert part[0] in part;
      SplitPart(part[1..]);
      assert part == [part[0]] + part[1..];
    }
  }

  lemma {:induction false} SplitAt(part: string, rest: string)
    requires '/' !in part
    ensures Split(part + "/" + rest) == [part] + Split(rest)
  {
    if part == "" {
      assert (part + "/" + rest)[1..] == rest;
    } else {
      assert part[0] in part;
      assert (part + "/" + rest)[1..] == part[1..] + "/" + rest;
      SplitAt(part[1..], rest);
      assert part == [part[0]] + part[1..];
    }
  }

  lemma {:induction false} SplitJoin(parts: seq<string>)
    requires |parts| >= 1 && forall c :: c in parts ==> '/' !in c
    ensures Split(Join(parts)) == parts
  {
    if |parts| == 1 {
      SplitPart(parts[0]);
    } else {
      assert parts[0] in parts;
      forall c | c in parts[1..] ensures '/' !in c {
        assert c in parts;
      }
      SplitJoin(parts[1..]);
      SplitAt(parts[0], Join(parts[1..]));
      assert parts == [parts[0]] + parts[1..];
    }
  }

  // ---------------------------------------------------------------- cleaning

  /** Parts that a walk from nowhere can end in: `..` only at the front. */
  predicate Walked(at: seq<string>) {
    && (forall i :: 0 <= i < |at| ==> at[i] != "" && at[i] != "." && '/' !in at[i])
    && (forall i, j :: 0 <= i < j < |at| && at[j] == ".." ==> at[i] == "..")
  }

  lemma WalkIsWalked(at: seq<string>, part: string)
    requires Walked(at) && '/' !in part
    ensures Walked(Walk(at, part))
  {
    if part == ".." && !(at != [] && at[|at| - 1] != "..") {
      assert forall i :: 0 <= i < |at| ==> at[i] == "..";
    }
  }

  lemma {:induction false} WalkAllIsWalked(at: seq<string>, parts: seq<string>)
    requires Walked(at) && forall c :: c in parts ==> '/' !in c
    ensures Walked(WalkAll(at, parts))
    decreases |parts|
  {
    if parts == [] {
    } else {
      assert parts[0] in parts;
      forall c | c in parts[1..] ensures '/' !in c {
        assert c in parts;
      }
      WalkIsWalked(at, parts[0]);
      WalkAllIsWalked(Walk(at, parts[0]), parts[1..]);
    }
  }

  /** Proper parts lead straight down. */
  lemma {:induction false} ProperWalk(at: seq<string>, parts: seq<string>)
    requires Proper(parts)
    ensures WalkAll(at, parts) == at + parts
    decreases |parts|
  {
    if parts == [] {
    } else {
      assert ProperPart(parts[0]);
      ProperWalk(at + [parts[0]], parts[1..]);
      assert at + [parts[0]] + parts[1..] == at + parts;
    }
  }

  lemma FirstPart(path: string)
    requires RUNTIME <= path
    ensures Split(path)[0] == "runtime" && |Split(path)| >= 2
  {
    var rest := path[8..];
    assert path == "runtime" + "/" + rest;
    assert '/' !in "runtime";
    SplitAt("runtime", rest);
  }

  /** A path below `runtime/` is clean exactly if all its parts are proper. */
  lemma CleanMeansProper(path: string)
    requires RUNTIME <= path
    ensures Clean(path) == path <==> Proper(Split(path))
  {
    FirstPart(path);
    JoinSplit(path);
    var walked := WalkAll([], Split(path));
    WalkAllIsWalked([], Split(path));
    if Proper(Split(path)) {
      ProperWalk([], Split(path));
      assert [] + Split(path) == Split(path);
    }
    if Clean(path) == path {
      assert walked != [] by { assert path[0] == 'r'; }
      forall c | c in walked ensures '/' !in c {
        var i :| 0 <= i < |walked| && walked[i] == c;
      }
      SplitJoin(walked);
      assert walked == Split(path);
      NoDotDot(walked);
    }
  }

  lemma NoDotDot(walked: seq<string>)
    requires Walked(walked) && |walked| > 0 && walked[0] == "runtime"
    ensures Proper(walked)
  {
    forall i | 0 <= i < |walked| ensures ProperPart(walked[i]) {
      assert walked[0] != "..";
    }
  }

  /** `validRecoveryPath` accepts exactly the paths of proper parts below `runtime`, with the two banned texts. */
  lemma ValidPathIsProper(path: string)
    ensures ValidPath(path) <==> RUNTIME <= path && Proper(Split(path)) && !HasBackslash(path) && !HasDotDotSlash(path)
  {
    if RUNTIME <= path {
      CleanMeansProper(path);
      assert path[0] == 'r';
    }
  }

  lemma {:induction false} JoinSnoc(parts: seq<string>, part: string)
    requires |parts| >= 1
    ensures Join(parts + [part]) == Join(parts) + "/" + part
  {
    if |parts| == 1 {
      assert (parts + [part])[1..] == [part];
    } else {
      assert (parts + [part])[1..] == parts[1..] + [part];
      JoinSnoc(parts[1..], part);
    }
  }

  /** One more part at the end. */
  lemma SplitSnoc(path: string, part: string)
    requires '/' !in part
    ensures Split(path + "/" + part) == Split(path) + [part]
  {
    var parts := Split(path);
    JoinSplit(path);
    JoinSnoc(parts, part);
    SplitJoin(parts + [part]);
  }

  /** A part without slashes adds no `../` beyond the one its slash may complete. */
  lemma DotDotSlashAtTheEnd(path: string, part: string)
    requires '/' !in part
    ensures HasDotDotSlash(path + "/" + part) <==> HasDotDotSlash(path + "/")
  {
    var short, long := path + "/", path + "/" + part;
    assert long[..|short|] == short;
    assert forall j :: |short| <= j < |long| ==> long[j] == part[j - |short|];
    if i :| 0 <= i < |short| && "../" <= short[i..] {
      assert long[i..][..3] == short[i..][..3];
    }
    if i :| 0 <= i < |long| && "../" <= long[i..] {
      assert long[i + 2] == long[i..][2] == '/';
      assert short[i..][..3] == long[i..][..3];
    }
  }

  /**
   Containment: from any directory an accepted path leads into its `runtime` directory, and two
   accepted paths never lead to the same place.
   */
  lemma ValidPathStaysInside(destination: seq<string>, path: string, other: string)
    requires ValidPath(path) && ValidPath(other)
    ensures var place := WalkAll(destination, Split(path));
            destination + ["runtime"] <= place && |place| >= |destination| + 2
    ensures WalkAll(destination, Split(path)) == WalkAll(destination, Split(other)) <==> path == other
  {
    ValidPathIsProper(path);
    ValidPathIsProper(other);
    FirstPart(path);
    ProperWalk(destination, Split(path));
    ProperWalk(destination, Split(other));
    if destination + Split(path) == destination + Split(other) {
      assert Split(path) == (destination + Split(path))[|destination|..];
      assert Split(other) == (destination + Split(other))[|destination|..];
      JoinSplit(path);
      JoinSplit(other);
    }
  }
}
