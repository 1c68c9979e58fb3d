/**
 Staging an archive below an empty directory: which entries the file system refuses because of the
 entries before them.  A file cannot be a directory, and an unprivileged process needs the owner's
 write and search permission in the directory it creates something in.
 */
module RecoveryStaging {
  import opened Basics
  import opened RecoveryArchive

  // ---------------------------------------------------------------- the file system

  /** `filepath.Dir` of a clean relative path; the destination itself is the empty path. */
  function Parent(path: string): (r: string)
    ensures path != "" ==> |r| < |path|
  {
    if path == "" then ""
    else if path[|path| - 1] == '/' then path[..|path| - 1]
    else Parent(path[..|path| - 1])
  }

  /** The first path is a directory on the way to the second. */
  predicate Above(a: string, b: string)
    decreases |b|
  {
    b != "" && (Parent(b) == a || Above(a, Parent(b)))
  }

  datatype Process = Process(umask: nat, privileged: bool)

  /** The owner may search the directory. */
  predicate Searchable(mode: int) { (mode / 64) % 2 == 1 }

  /** The owner may search the directory and create entries in it. */
  predicate Writable(mode: int) { Searchable(mode) && (mode / 128) % 2 == 1 }

  predicate Reachable(t: Tree, p: Process, dir: string)
    decreases |dir|
  {
    || p.privileged || dir == "" || Parent(dir) == ""
    || (Parent(dir) in t.folders && Searchable(t.folders[Parent(dir)]) && Reachable(t, p, Parent(dir)))
  }

  predicate MayCreateIn(t: Tree, p: Process, dir: string) {
    dir == "" || (dir in t.folders && (p.privileged || (Writable(t.folders[dir]) && Reachable(t, p, dir))))
  }

  /** `os.MkdirAll`. */
  function MakeAll(t: Tree, p: Process, dir: string, mode: int): Option<Tree>
    decreases |dir|
  {
    if dir == "" then Some(t)
    else if dir in t.files then None
    else if dir in t.folders then (if Reachable(t, p, dir) then Some(t) else None)
    else
      var u := MakeAll(t, p, Parent(dir), mode);
      if u.Some? && MayCreateIn(u.value, p, Parent(dir))
      then Some(u.value.(folders := u.value.folders[dir := Masked(mode, p.umask)])) else None
  }

  function Name(item: Item): string { if item.kind == Directory then TrimSlash(item.name) else item.name }

  const PRIVATE: int := 0x1c0

  /** One entry of `readRecoveryArchive` with a destination: a directory and its mode, or a new file. */
  function Stage(t: Tree, p: Process, item: Item): Option<Tree> {
    var name := Name(item);
    if item.kind == Directory then
      var u := MakeAll(t, p, name, item.mode);
      if u.Some? then Some(u.value.(folders := u.value.folders[name := item.mode])) else None
    else
      var u := MakeAll(t, p, Parent(name), PRIVATE);
      if u.Some? && name !in u.value.files && name !in u.value.folders && MayCreateIn(u.value, p, Parent(name))
      then Some(u.value.(files := u.value.files[name := Staged(item.content, Masked(item.mode, p.umask))])) else None
  }

  function StageAll(p: Process, items: seq<Item>): Option<Tree> {
    if items == [] then Some(EMPTY_TREE) else
      var before := StageAll(p, items[..|items| - 1]);
      if before.Some? then Stage(before.value, p, items[|items| - 1]) else None
  }

  // ---------------------------------------------------------------- what staging keeps

  /** Everything lies in a directory, and nothing is both a file and a directory. */
  predicate Tidy(t: Tree) {
    && (forall n :: n in t.files ==> n != "" && n !in t.folders && (Parent(n) == "" || Parent(n) in t.folders))
    && (forall n :: n in t.folders ==> n != "" && (Parent(n) == "" || Parent(n) in t.folders))
  }

  lemma {:induction false} AboveIsShorter(a: string, b: string)
    ensures Above(a, b) ==> |a| < |b|
    decreases |b|
  {
    if b == "" || Parent(b) == a {
    } else {
      AboveIsShorter(a, Parent(b));
    }
  }

  /** The directories on the way to something that is there are there. */
  lemma {:induction false} AncestorsAreFolders(t: Tree, a: string, n: string)
    requires Tidy(t) && (n in t.files || n in t.folders) && Above(a, n) && a != ""
    ensures a in t.folders
    decreases |n|
  {
    if Parent(n) == a {
    } else {
      AncestorsAreFolders(t, a, Parent(n));
    }
  }

  /** What making directories adds: the directory and the missing ones above it. */
  ghost predicate MadeFor(t: Tree, u: Tree, dir: string) {
    && Tidy(u) && u.files == t.files && (dir == "" || dir in u.folders)
    && (forall n :: n in t.folders ==> n in u.folders && u.folders[n] == t.folders[n])
    && (forall n :: n in u.folders ==> n in t.folders || n == dir || Above(n, dir))
  }

  lemma OneMoreFolder(t: Tree, below: Tree, dir: string, mode: int)
    requires MadeFor(t, below, Parent(dir)) && dir != "" && dir !in t.folders && dir !in t.files
    ensures MadeFor(t, below.(folders := below.folders[dir := mode]), dir)
  {
    hide Parent, Tidy, Above;
    var u := below.(folders := below.folders[dir := mode]);
    TidyWithFolder(below, dir, mode);
    forall n | n in u.folders ensures n in t.folders || n == dir || Above(n, dir) {
      AboveParent(n, dir);
    }
  }

  lemma AboveParent(n: string, dir: string)
    requires dir != ""
    ensures Above(n, dir) <==> n == Parent(dir) || Above(n, Parent(dir))
  {
  }

  lemma TidyWithFolder(t: Tree, dir: string, mode: int)
    requires Tidy(t) && dir != "" && dir !in t.files && (Parent(dir) == "" || Parent(dir) in t.folders)
    ensures Tidy(t.(folders := t.folders[dir := mode]))
  {
    hide Parent;
  }

  lemma {:induction false} MakeAllAdds(t: Tree, p: Process, dir: string, mode: int)
    requires Tidy(t) && MakeAll(t, p, dir, mode).Some?
    ensures MadeFor(t, MakeAll(t, p, dir, mode).value, dir)
    decreases |dir|
  {
    hide Reachable, MayCreateIn, Masked;
    if dir == "" || dir in t.folders {
    } else {
      MakeAllAdds(t, p, Parent(dir), mode);
      var below := MakeAll(t, p, Parent(dir), mode).value;
      OneMoreFolder(t, below, dir, Masked(mode, p.umask));
    }
  }

  /** Without permissions in the way, only a file can stop it. */
  lemma {:induction false} OnlyAFileStops(t: Tree, p: Process, dir: string, mode: int)
    requires Tidy(t) && p.privileged && dir !in t.files && forall a :: Above(a, dir) ==> a !in t.files
    ensures MakeAll(t, p, dir, mode).Some?
    decreases |dir|
  {
    if dir == "" || dir in t.folders {
    } else {
      OnlyAFileStops(t, p, Parent(dir), mode);
      MakeAllAdds(t, p, Parent(dir), mode);
    }
  }

  /** The staged tree and the entries it came from. */
  ghost predicate Reflects(t: Tree, items: seq<Item>) {
    Tidy(t) && FilesListed(t, items) && FoldersListed(t, items) && FoldersAccounted(t, items)
  }

  ghost predicate FilesListed(t: Tree, items: seq<Item>) { forall n :: n in t.files <==> FileNamed(items, n) }

  predicate FoldersListed(t: Tree, items: seq<Item>) {
    forall i :: 0 <= i < |items| && items[i].kind == Directory ==> Name(items[i]) in t.folders
  }

  predicate FoldersAccounted(t: Tree, items: seq<Item>) {
    forall n :: n in t.folders ==> exists i :: 0 <= i < |items| && Accounts(items[i], n)
  }

  /** The directory is the entry, or lies above it. */
  predicate Accounts(item: Item, n: string) { (item.kind == Directory && Name(item) == n) || Above(n, Name(item)) }

  /** A directory that was made accounts for itself and for those above it. */
  lemma FoldersStayAccounted(t: Tree, u: Tree, items: seq<Item>, item: Item, dir: string)
    requires FoldersAccounted(t, items) && MadeFor(t, u, dir)
    requires if item.kind == Directory then dir == Name(item) else dir == Parent(Name(item)) && Name(item) != ""
    ensures FoldersAccounted(u, items + [item])
  {
    hide Name, Tidy;
    var all := items + [item];
    forall n | n in u.folders ensures exists i :: 0 <= i < |all| && Accounts(all[i], n) {
      if n in t.folders {
        var i :| 0 <= i < |items| && Accounts(items[i], n);
        assert all[i] == items[i];
      } else {
        assert all[|items|] == item && Accounts(item, n);
      }
    }
  }

  /** Names of files among the entries. */
  ghost predicate FileNamed(items: seq<Item>, n: string) {
    exists i :: 0 <= i < |items| && items[i].kind != Directory && Name(items[i]) == n
  }

  lemma FileNamedNext(items: seq<Item>, item: Item, n: string)
    ensures FileNamed(items + [item], n) <==> FileNamed(items, n) || (item.kind != Directory && Name(item) == n)
  {
    hide Name;
    var all := items + [item];
    assert all[|items|] == item;
    if i :| 0 <= i < |items| && items[i].kind != Directory && Name(items[i]) == n {
      assert all[i] == items[i];
    }
  }

  lemma FilesStayListed(t: Tree, u: Tree, items: seq<Item>, item: Item)
    requires FilesListed(t, items)
    requires u.files.Keys == t.files.Keys + (if item.kind == Directory then {} else {Name(item)})
    ensures FilesListed(u, items + [item])
  {
    hide Name, FileNamed;
    forall n ensures n in u.files <==> FileNamed(items + [item], n) {
      FileNamedNext(items, item, n);
      assert n in t.files <==> FileNamed(items, n);
    }
  }

  lemma FoldersStayListed(t: Tree, u: Tree, items: seq<Item>, item: Item)
    requires FoldersListed(t, items) && t.folders.Keys <= u.folders.Keys
    requires item.kind == Directory ==> Name(item) in u.folders
    ensures FoldersListed(u, items + [item])
  {
    hide Name;
    var all := items + [item];
    forall i | 0 <= i < |all| && all[i].kind == Directory ensures Name(all[i]) in u.folders {
      if i < |items| {
        assert all[i] == items[i];
      }
    }
  }

  lemma StageFolderReflects(p: Process, t: Tree, items: seq<Item>, item: Item)
    requires Reflects(t, items) && item.kind == Directory && Name(item) != "" && Stage(t, p, item).Some?
    ensures Reflects(Stage(t, p, item).value, items + [item])
  {
    hide MakeAll, Name, FilesListed, FoldersListed, FoldersAccounted, Parent, Above;
    var u, name := Stage(t, p, item).value, Name(item);
    MakeAllAdds(t, p, name, item.mode);
    var made := MakeAll(t, p, name, item.mode).value;
    FoldersStayAccounted(t, made, items, item, name);
    assert u.folders.Keys == made.folders.Keys;
    SameFoldersAccounted(made, u, items + [item]);
    FilesStayListed(t, u, items, item);
    FoldersStayListed(t, u, items, item);
  }

  lemma SameFoldersAccounted(t: Tree, u: Tree, items: seq<Item>)
    requires FoldersAccounted(t, items) && u.folders.Keys == t.folders.Keys
    ensures FoldersAccounted(u, items)
  {
    hide Accounts;
  }

  lemma StageFileReflects(p: Process, t: Tree, items: seq<Item>, item: Item)
    requires Reflects(t, items) && item.kind != Directory && Name(item) != "" && Stage(t, p, item).Some?
    ensures Reflects(Stage(t, p, item).value, items + [item])
  {
    hide MakeAll, Name, Masked, FilesListed, FoldersListed, FoldersAccounted, Above, Reachable;
    var u, name := Stage(t, p, item).value, Name(item);
    MakeAllAdds(t, p, Parent(name), PRIVATE);
    var made := MakeAll(t, p, Parent(name), PRIVATE).value;
    FoldersStayAccounted(t, made, items, item, Parent(name));
    assert u.folders == made.folders && u.files.Keys == t.files.Keys + {name};
    SameFoldersAccounted(made, u, items + [item]);
    FilesStayListed(t, u, items, item);
    FoldersStayListed(t, u, items, item);
  }

  // ---------------------------------------------------------------- conflicts between entries

  predicate Named(items: seq<Item>) { forall i :: 0 <= i < |items| ==> Name(items[i]) != "" && items[i].kind != Other }

  predicate Unrepeated(items: seq<Item>) { forall i, j :: 0 <= i < j < |items| ==> !Repeats(items[i], items[j]) }

  /** No file is at or above the place of another entry. */
  predicate Compatible(items: seq<Item>) {
    forall i, j :: 0 <= i < |items| && 0 <= j < |items| && i != j && items[i].kind == Regular ==>
      Name(items[i]) != Name(items[j]) && !Above(Name(items[i]), Name(items[j]))
  }

  lemma StagedIsCompatible(t: Tree, items: seq<Item>)
    requires Reflects(t, items) && Named(items) && Unrepeated(items)
    ensures Compatible(items)
  {
    forall i, j | 0 <= i < |items| && 0 <= j < |items| && i != j && items[i].kind == Regular
      ensures Name(items[i]) != Name(items[j]) && !Above(Name(items[i]), Name(items[j]))
    {
      var a, b := Name(items[i]), Name(items[j]);
      assert a in t.files && (b in t.files || b in t.folders);
      assert !Repeats(items[if i < j then i else j], items[if i < j then j else i]);
      if Above(a, b) {
        AncestorsAreFolders(t, a, b);
      }
    }
  }

  lemma CompatiblePrefix(items: seq<Item>, n: nat)
    requires n <= |items|
    ensures Compatible(items) ==> Compatible(items[..n])
    ensures Named(items) ==> Named(items[..n])
    ensures Unrepeated(items) ==> Unrepeated(items[..n])
  {
    hide Name, Above, Repeats;
    var front := items[..n];
    assert forall i :: 0 <= i < n ==> front[i] == items[i];
    if Unrepeated(items) {
      forall i, j | 0 <= i < j < n ensures !Repeats(front[i], front[j]) {
        assert !Repeats(items[i], items[j]);
      }
    }
    if Compatible(items) {
      forall i, j | 0 <= i < n && 0 <= j < n && i != j && front[i].kind == Regular
        ensures Name(front[i]) != Name(front[j]) && !Above(Name(front[i]), Name(front[j]))
      {
        assert items[i].kind == Regular && Name(items[j]) == Name(front[j]);
      }
    }
  }

  /** One more entry that is compatible with those before it can be staged. */
  lemma CompatibleStages(p: Process, t: Tree, items: seq<Item>, n: nat)
    requires p.privileged && n < |items| && Reflects(t, items[..n])
    requires Named(items) && Unrepeated(items) && Compatible(items)
    ensures Stage(t, p, items[n]).Some?
  {
    hide Reachable, Reflects, Name, MakeAll, Masked, Compatible, Repeats;
    var name := Name(items[n]);
    NoFileInTheWay(t, items, n);
    assert Tidy(t) by { ReflectedIsTidy(t, items[..n]); }
    if items[n].kind == Directory {
      OnlyAFileStops(t, p, name, items[n].mode);
    } else {
      var dir := Parent(name);
      assert forall a :: Above(a, dir) || a == dir ==> Above(a, name);
      OnlyAFileStops(t, p, dir, PRIVATE);
      MakeAllAdds(t, p, dir, PRIVATE);
      NotAFolder(t, items, n, MakeAll(t, p, dir, PRIVATE).value);
    }
  }

  lemma ReflectedIsTidy(t: Tree, items: seq<Item>)
    requires Reflects(t, items)
    ensures Tidy(t)
  {
  }

  lemma NoFileInTheWay(t: Tree, items: seq<Item>, n: nat)
    requires n < |items| && Reflects(t, items[..n]) && Named(items) && Unrepeated(items) && Compatible(items)
    ensures forall f :: f in t.files ==> f != Name(items[n]) && !Above(f, Name(items[n]))
  {
    hide Name, Above, Tidy, FoldersListed, FoldersAccounted;
    var front := items[..n];
    forall f | f in t.files ensures f != Name(items[n]) && !Above(f, Name(items[n])) {
      assert FileNamed(front, f);
      var i :| 0 <= i < |front| && front[i].kind != Directory && Name(front[i]) == f;
      assert front[i] == items[i] && items[i].kind == Regular;
    }
  }

  lemma NotAFolder(t: Tree, items: seq<Item>, n: nat, u: Tree)
    requires n < |items| && items[n].kind == Regular && Reflects(t, items[..n]) && Compatible(items)
             && Name(items[n]) != ""
    requires MadeFor(t, u, Parent(Name(items[n])))
    ensures Name(items[n]) !in u.folders
  {
    hide Name, Tidy;
    var front, name := items[..n], Name(items[n]);
    forall i | 0 <= i < |front| ensures !Accounts(front[i], name) {
      assert front[i] == items[i] && Name(items[i]) == Name(front[i]);
    }
    AboveIsShorter(name, Parent(name));
  }

  lemma {:induction false} StagedTreeReflects(p: Process, items: seq<Item>)
    requires Named(items) && StageAll(p, items).Some?
    ensures Reflects(StageAll(p, items).value, items)
  {
    hide Stage, Name;
    if items == [] {
    } else {
      var n := |items| - 1;
      CompatiblePrefix(items, n);
      StagedTreeReflects(p, items[..n]);
      if items[n].kind == Directory {
        StageFolderReflects(p, StageAll(p, items[..n]).value, items[..n], items[n]);
      } else {
        StageFileReflects(p, StageAll(p, items[..n]).value, items[..n], items[n]);
      }
      assert items == items[..n] + [items[n]];
    }
  }

  /**
   An archive without repeated entries can be staged by a privileged process exactly if no file is at
   or above the place of another entry.  The order of the entries does not matter.
   */
  lemma {:induction false} PrivilegedStagingExactly(p: Process, items: seq<Item>)
    requires p.privileged && Named(items) && Unrepeated(items)
    ensures StageAll(p, items).Some? <==> Compatible(items)
  {
    hide Stage, Name, Reflects, Repeats, Above;
    if items == [] {
    } else {
      var n := |items| - 1;
      CompatiblePrefix(items, n);
      PrivilegedStagingExactly(p, items[..n]);
      if StageAll(p, items).Some? {
        StagedTreeReflects(p, items);
        StagedIsCompatible(StageAll(p, items).value, items);
      }
      if Compatible(items) {
        StagedTreeReflects(p, items[..n]);
        CompatibleStages(p, StageAll(p, items[..n]).value, items, n);
      }
    }
  }

  /** Privileged or not, an archive with a file above another entry passes inspection and is never staged. */
  lemma IncompatibleIsNeverStaged(p: Process, items: seq<Item>)
    requires Named(items) && Unrepeated(items) && !Compatible(items)
    ensures StageAll(p, items).None?
  {
    hide StageAll, Reflects, Compatible, Name;
    if StageAll(p, items).Some? {
      StagedTreeReflects(p, items);
      StagedIsCompatible(StageAll(p, items).value, items);
    }
  }

  // ---------------------------------------------------------------- permissions

  const ROOT: string := "runtime"

  lemma RootHasNoParent()
    ensures Parent(ROOT) == ""
  {
    assert ROOT[..6] == "runtim" && ROOT[..6][..5] == "runti" && "runti"[..4] == "runt";
    assert "runt"[..3] == "run" && "run"[..2] == "ru" && "ru"[..1] == "r" && "r"[..0] == "";
    assert Parent("run") == Parent("ru") == Parent("r") == "";
    assert Parent("runti") == Parent("runt") == Parent("run");
    assert Parent(ROOT) == Parent("runtim") == Parent("runti");
  }

  /**
   `collectRecoveryPayload`: a walk takes everything below the root with the folder it lies in, and the
   entries are sorted by name.
   */
  predicate Walked(payload: seq<Source>) {
    && (forall i :: 0 <= i < |payload| ==> ROOT + "/" <= payload[i].relative && FolderTaken(payload, i))
    && (forall i, j :: 0 <= i < j < |payload| ==> Less(payload[i].relative, payload[j].relative))
  }

  predicate FolderTaken(payload: seq<Source>, i: nat)
    requires i < |payload|
  {
    Parent(payload[i].relative) == ROOT ||
    exists k :: 0 <= k < |payload| && payload[k].Folder? && payload[k].relative == Parent(payload[i].relative)
  }

  lemma {:induction false} LongerIsLater(a: string, b: string)
    requires a < b
    ensures Less(a, b)
  {
    if a == "" {
    } else {
      LongerIsLater(a[1..], b[1..]);
    }
  }

  lemma {:induction false} ParentIsAPrefix(path: string)
    requires path != ""
    ensures Parent(path) < path
  {
    if |path| == 1 || path[|path| - 1] == '/' {
    } else {
      ParentIsAPrefix(path[..|path| - 1]);
    }
  }

  /** Sorting puts every folder before what lies in it. */
  lemma WalkedIsGrown(payload: seq<Source>)
    requires Walked(payload)
    ensures Grown(payload)
  {
    hide Parent, Less;
    forall i, j | 0 <= i < j < |payload| ensures payload[i].relative != payload[j].relative {
      LessIsStrict(payload[i].relative);
    }
    forall i | 0 <= i < |payload| ensures Planted(payload, i) {
      var path := payload[i].relative;
      assert ROOT + "/" <= path && FolderTaken(payload, i);
      if Parent(path) != ROOT {
        var k :| 0 <= k < |payload| && payload[k].Folder? && payload[k].relative == Parent(path);
        ParentIsAPrefix(path);
        LongerIsLater(Parent(path), path);
        ParentIsBefore(payload, k, i);
      }
    }
  }

  lemma ParentIsBefore(payload: seq<Source>, k: nat, i: nat)
    requires Walked(payload) && k < |payload| && i < |payload| && Less(payload[k].relative, payload[i].relative)
    ensures k < i
  {
    hide Less, FolderTaken;
    LessIsStrict(payload[i].relative);
    if i < k {
      LessIsTransitive(payload[i].relative, payload[k].relative, payload[i].relative);
    }
  }

  /** Every entry lies in the root or in a folder listed before it. */
  predicate Grown(payload: seq<Source>) {
    && DistinctNames(payload)
    && forall i :: 0 <= i < |payload| ==>
         payload[i].relative != "" && payload[i].relative != ROOT && Planted(payload, i)
  }

  predicate Planted(payload: seq<Source>, i: nat)
    requires i < |payload|
  {
    Parent(payload[i].relative) == ROOT ||
    exists k :: 0 <= k < i && payload[k].Folder? && payload[k].relative == Parent(payload[i].relative)
  }

  /** The root is made for the first entry, with that entry's mode if it is a folder. */
  function RootMode(payload: seq<Source>, umask: nat): int
    requires payload != []
  {
    Masked(if payload[0].Folder? then payload[0].mode else PRIVATE, umask)
  }

  /** The process may create this entry where it belongs. */
  predicate Enterable(payload: seq<Source>, p: Process, i: nat)
    requires i < |payload|
  {
    p.privileged ||
    var parent := Parent(payload[i].relative);
    && (parent == ROOT ==> Writable(RootMode(payload, p.umask)))
    && (forall k :: 0 <= k < i && payload[k].Folder? && payload[k].relative == parent ==> Writable(payload[k].mode))
  }

  predicate AllEnterable(payload: seq<Source>, p: Process) {
    forall i :: 0 <= i < |payload| ==> Enterable(payload, p, i)
  }

  /** The tree of a payload with the root above it. */
  ghost function Rooted(payload: seq<Source>, umask: nat): Tree
    requires DistinctNames(payload)
  {
    if payload == [] then EMPTY_TREE else
      var t := TreeOf(payload, umask);
      t.(folders := t.folders[ROOT := RootMode(payload, umask)])
  }

  /** The process may work in every directory that holds something. */
  ghost predicate Passable(t: Tree, p: Process) {
    forall n :: (n in t.files || n in t.folders) && Parent(n) != "" ==>
      Parent(n) in t.folders && (p.privileged || Writable(t.folders[Parent(n)]))
  }

  lemma {:induction false} PassableIsReachable(t: Tree, p: Process, n: string)
    requires Passable(t, p) && n in t.folders
    ensures Reachable(t, p, n)
    decreases |n|
  {
    if Parent(n) == "" || p.privileged || n == "" {
    } else {
      PassableIsReachable(t, p, Parent(n));
    }
  }

  /** Staging a new entry in a directory that is there: the directory's mode decides. */
  lemma StageInFolder(t: Tree, p: Process, source: Source)
    requires Passable(t, p) && source.relative != "" && source.relative !in t.files && source.relative !in t.folders
    requires var dir := Parent(source.relative); dir != "" && dir in t.folders && dir !in t.files
    ensures var dir := Parent(source.relative);
            var r := Stage(t, p, ItemOf(source));
            && (r.Some? <==> p.privileged || Writable(t.folders[dir]))
            && (r.Some? ==> r.value == Planting(t, p.umask, source) && Passable(r.value, p))
  {
    hide Masked;
    var name, dir := source.relative, Parent(source.relative);
    NameOfSource(source);
    PassableIsReachable(t, p, dir);
    if source.Folder? {
      assert MakeAll(t, p, dir, source.mode) == Some(t);
      var r := Stage(t, p, ItemOf(source));
      if r.Some? {
        assert r.value.folders == t.folders[name := source.mode];
      }
    } else {
      assert MakeAll(t, p, dir, PRIVATE) == Some(t);
    }
  }

  lemma NameOfSource(source: Source)
    ensures Name(ItemOf(source)) == source.relative
  {
    assert TrimSlash(source.relative + "/") == source.relative;
  }

  function Planting(t: Tree, umask: nat, source: Source): Tree {
    if source.Folder? then t.(folders := t.folders[source.relative := source.mode])
    else t.(files := t.files[source.relative := Staged(source.content, Masked(source.mode, umask))])
  }

  /** The first entry makes the root. */
  lemma StageFirst(p: Process, source: Source)
    requires source.relative != "" && source.relative != ROOT && Parent(source.relative) == ROOT
    ensures var r := Stage(EMPTY_TREE, p, ItemOf(source));
            var root := Tree(map[], map[ROOT := RootMode([source], p.umask)]);
            && (r.Some? <==> p.privileged || Writable(RootMode([source], p.umask)))
            && (r.Some? ==> r.value == Planting(root, p.umask, source) && Passable(r.value, p))
  {
    hide Masked;
    RootHasNoParent();
    NameOfSource(source);
    var mode := if source.Folder? then source.mode else PRIVATE;
    var root := Tree(map[], map[ROOT := RootMode([source], p.umask)]);
    assert MakeAll(EMPTY_TREE, p, "", mode) == Some(EMPTY_TREE);
    assert MakeAll(EMPTY_TREE, p, ROOT, mode) == Some(root);
    assert Reachable(root, p, ROOT);
    if source.Folder? && MayCreateIn(root, p, ROOT) {
      var r := Stage(EMPTY_TREE, p, ItemOf(source));
      assert r.value.folders == root.folders[source.relative := source.mode];
    }
  }

  /** The payload without its last entry. */
  lemma GrownFront(payload: seq<Source>, p: Process)
    requires Grown(payload) && payload != []
    ensures var front := payload[..|payload| - 1];
            && Grown(front) && ItemsOf(payload)[..|front|] == ItemsOf(front)
            && (AllEnterable(payload, p) <==> AllEnterable(front, p) && Enterable(payload, p, |front|))
  {
    hide Planted, Enterable;
    var n := |payload| - 1;
    var front := payload[..n];
    forall i | 0 <= i < n ensures Planted(front, i) {
      SamePlanted(payload, i);
    }
    SameAllEnterable(payload, p);
  }

  lemma SamePlanted(payload: seq<Source>, i: nat)
    requires i < |payload| - 1 && Planted(payload, i)
    ensures Planted(payload[..|payload| - 1], i)
  {
    hide Parent;
    var front := payload[..|payload| - 1];
    if Parent(payload[i].relative) != ROOT {
      var k := PlantedIn(payload, i);
      assert front[k] == payload[k];
    }
  }

  lemma SameAllEnterable(payload: seq<Source>, p: Process)
    requires payload != []
    ensures var n := |payload| - 1;
            AllEnterable(payload, p) <==> AllEnterable(payload[..n], p) && Enterable(payload, p, n)
  {
    hide Enterable;
    var n := |payload| - 1;
    forall i | 0 <= i < n ensures Enterable(payload[..n], p, i) <==> Enterable(payload, p, i) {
      SameEnterable(payload, p, i);
    }
  }

  lemma SameEnterable(payload: seq<Source>, p: Process, i: nat)
    requires i < |payload| - 1
    ensures Enterable(payload[..|payload| - 1], p, i) <==> Enterable(payload, p, i)
  {
    hide Parent, Writable, Masked;
    var front := payload[..|payload| - 1];
    assert forall k :: 0 <= k <= i ==> front[k] == payload[k];
  }

  /** What the index holds under a name. */
  lemma IndexAt(payload: seq<Source>, umask: nat, k: nat)
    requires DistinctNames(payload) && k < |payload|
    ensures payload[k].relative in DocumentsOf(payload, umask) <==> payload[k].Document?
    ensures payload[k].relative in FoldersOf(payload) <==> payload[k].Folder?
    ensures payload[k].Folder? ==> FoldersOf(payload)[payload[k].relative] == payload[k].mode
  {
    hide Masked;
  }

  lemma NotIndexed(payload: seq<Source>, umask: nat, name: string)
    requires DistinctNames(payload) && forall i :: 0 <= i < |payload| ==> payload[i].relative != name
    ensures name !in DocumentsOf(payload, umask) && name !in FoldersOf(payload)
  {
    hide Masked;
  }

  /** The folder an entry lies in is there, with the mode that decides. */
  lemma FolderIsThere(payload: seq<Source>, p: Process)
    requires Grown(payload) && |payload| > 1 && DistinctNames(payload[..|payload| - 1])
    ensures var n := |payload| - 1;
            var t, path := Rooted(payload[..n], p.umask), payload[n].relative;
            && path !in t.files && path !in t.folders && Parent(path) in t.folders && Parent(path) !in t.files
            && (Enterable(payload, p, n) <==> p.privileged || Writable(t.folders[Parent(path)]))
  {
    hide Parent, Writable, Masked, Index, DocumentsOf, FoldersOf, RootMode, Planted;
    var n := |payload| - 1;
    var front, path := payload[..n], payload[n].relative;
    SameRootMode(payload, p.umask);
    assert forall i :: 0 <= i < n ==> front[i].relative != path && front[i].relative != ROOT;
    NotIndexed(front, p.umask, path);
    NotIndexed(front, p.umask, ROOT);
    assert Planted(payload, n);
    if Parent(path) != ROOT {
      var k := PlantedIn(payload, n);
      assert front[k] == payload[k];
      IndexAt(front, p.umask, k);
      OnlyFolder(payload, p, n, k);
    }
  }

  lemma SameRootMode(payload: seq<Source>, umask: nat)
    requires |payload| > 1
    ensures RootMode(payload[..|payload| - 1], umask) == RootMode(payload, umask)
  {
  }

  lemma PlantedIn(payload: seq<Source>, i: nat) returns (k: nat)
    requires i < |payload| && Planted(payload, i) && Parent(payload[i].relative) != ROOT
    ensures k < i && payload[k].Folder? && payload[k].relative == Parent(payload[i].relative)
  {
    hide Parent;
    k :| k < i && payload[k].Folder? && payload[k].relative == Parent(payload[i].relative);
  }

  lemma OnlyFolder(payload: seq<Source>, p: Process, i: nat, k: nat)
    requires DistinctNames(payload) && k < i < |payload| && payload[k].Folder? && payload[k].relative != ROOT
    requires payload[k].relative == Parent(payload[i].relative)
    ensures Enterable(payload, p, i) <==> p.privileged || Writable(payload[k].mode)
  {
    hide Parent, Writable, Masked;
  }

  lemma RootedGrows(front: seq<Source>, last: Source, umask: nat)
    requires DistinctNames(front + [last]) && DistinctNames(front) && last.relative != ROOT
    ensures var root := Tree(map[], map[ROOT := RootMode([last], umask)]);
            Rooted(front + [last], umask) == Planting(if front == [] then root else Rooted(front, umask), umask, last)
  {
    hide Masked, Index;
    var all := front + [last];
    assert all[0] == if front == [] then last else front[0];
    IndexGrows(front, last, IsDocument, StagedUnder(umask));
    IndexGrows(front, last, IsFolder, ModeOf);
    if front == [] {
      NothingCollected(umask);
    }
  }

  /**
   A collected payload can be staged exactly if the process is privileged or may work in every folder
   that holds something; and then its tree is staged, with the root above it.
   */
  lemma {:induction false} StagingExactly(payload: seq<Source>, p: Process)
    requires Grown(payload)
    ensures StageAll(p, ItemsOf(payload)).Some? <==> AllEnterable(payload, p)
    ensures var r := StageAll(p, ItemsOf(payload));
            r.Some? ==> r.value == Rooted(payload, p.umask) && Passable(r.value, p)
  {
    hide Stage, Rooted, Planting, Enterable, Planted, Writable, Masked, ItemOf;
    if payload == [] {
      NothingToStage(p);
    } else {
      var n := |payload| - 1;
      var front, last := payload[..n], payload[n];
      GrownFront(payload, p);
      StagingExactly(front, p);
      assert payload == front + [last];
      RootedGrows(front, last, p.umask);
      LastIsStaged(payload, p);
    }
  }

  lemma NothingToStage(p: Process)
    ensures StageAll(p, ItemsOf([])) == Some(EMPTY_TREE) && Rooted([], p.umask) == EMPTY_TREE && Passable(EMPTY_TREE, p)
  {
    assert ItemsOf([]) == [];
  }

  lemma LastIsStaged(payload: seq<Source>, p: Process)
    requires Grown(payload) && payload != [] && DistinctNames(payload[..|payload| - 1])
    ensures var n := |payload| - 1;
            var last, before := payload[n], Rooted(payload[..n], p.umask);
            var r := Stage(before, p, ItemOf(last));
            var root := Tree(map[], map[ROOT := RootMode([last], p.umask)]);
            Passable(before, p) ==>
              && (r.Some? <==> Enterable(payload, p, n))
              && (r.Some? ==>
                   r.value == Planting(if n == 0 then root else before, p.umask, last) && Passable(r.value, p))
  {
    hide Stage, Planting, Masked, ItemOf, Writable, Passable;
    var n := |payload| - 1;
    assert Planted(payload, n);
    if n == 0 {
      StageFirst(p, payload[0]);
    } else if Passable(Rooted(payload[..n], p.umask), p) {
      FolderIsThere(payload, p);
      StageInFolder(Rooted(payload[..n], p.umask), p, payload[n]);
    }
  }

  // ---------------------------------------------------------------- reading into the destination

  /** The staging directory as a destination: it takes an entry if everything up to it can be staged. */
  function Staging(p: Process, items: seq<Item>): Destination {
    Into(p.umask, (i: nat) => i < |items| && StageAll(p, items[..i + 1]).Some?)
  }

  lemma {:induction false} StagedPrefix(p: Process, items: seq<Item>, n: nat)
    requires n <= |items| && StageAll(p, items).Some?
    ensures StageAll(p, items[..n]).Some?
  {
    hide Stage;
    if n == |items| {
      assert items[..n] == items;
    } else {
      var front := items[..|items| - 1];
      StagedPrefix(p, front, n);
      assert front[..n] == items[..n];
    }
  }

  lemma TakesAllExactly(p: Process, items: seq<Item>)
    ensures Accepts(Staging(p, items), |items|) <==> StageAll(p, items).Some?
  {
    hide Stage;
    if StageAll(p, items).Some? {
      forall i: nat | i < |items| ensures Staging(p, items).accepts(i) {
        StagedPrefix(p, items, i + 1);
      }
    }
    if items != [] && Accepts(Staging(p, items), |items|) {
      assert Staging(p, items).accepts(|items| - 1);
      assert items[..|items|] == items;
    }
  }

  /** What is staged is what the reader lists: its files, and its folders with their modes. */
  lemma {:induction false} StagesTheEntries(p: Process, items: seq<Item>)
    requires Named(items) && StageAll(p, items).Some?
    ensures var t, listed := StageAll(p, items).value, PutAll(Staging(p, items), items);
            && t.files == listed.files
            && forall d :: d in listed.folders ==> d in t.folders && t.folders[d] == listed.folders[d]
  {
    hide MakeAll, Masked, Tidy, Reflects, Reachable, Above, Parent;
    if items == [] {
    } else {
      var n := |items| - 1;
      var front, last := items[..n], items[n];
      CompatiblePrefix(items, n);
      StagesTheEntries(p, front);
      SamePut(Staging(p, front), Staging(p, items), front);
      var t := StageAll(p, front).value;
      StagedTreeReflects(p, front);
      ReflectedIsTidy(t, front);
      if last.kind == Directory {
        MakeAllAdds(t, p, Name(last), last.mode);
      } else {
        MakeAllAdds(t, p, Parent(Name(last)), PRIVATE);
      }
    }
  }

  lemma {:induction false} SamePut(d: Destination, e: Destination, items: seq<Item>)
    requires d.Into? && e.Into? && d.umask == e.umask
    ensures PutAll(d, items) == PutAll(e, items)
  {
    hide Masked;
    if items == [] {
    } else {
      SamePut(d, e, items[..|items| - 1]);
    }
  }

  lemma CompleteIsNamed(env: Env, m: Manifest, items: seq<Item>)
    requires ValidManifest(env, m) && Complete(env, m, items)
    ensures Named(items) && Unrepeated(items)
  {
    hide ValidManifest, Repeats, Carries, Total, InScope;
    forall i | 0 <= i < |items| ensures Name(items[i]) != "" && items[i].kind != Other {
      assert GoodItem(env, m, items[i]);
      GoodFileFacts(env, m, items[i]);
      GoodKind(env, m, items[i]);
      assert ("" + "/placeholder")[0] == '/';
    }
  }

  /**
   A verified archive is read into an empty directory by a privileged process exactly if no file is at
   or above the place of another entry; without that no process reads it.
   */
  lemma VerifiedArchiveStagesExactly(env: Env, m: Manifest, items: seq<Item>, p: Process)
    requires ValidManifest(env, m) && Complete(env, m, items)
    ensures Accepts(Staging(p, items), |items|) ==> Compatible(items)
    ensures p.privileged ==> (Accepts(Staging(p, items), |items|) <==> Compatible(items))
  {
    hide ValidManifest, Complete, Compatible, Staging, Accepts, Named, Unrepeated;
    CompleteIsNamed(env, m, items);
    TakesAllExactly(p, items);
    if p.privileged {
      PrivilegedStagingExactly(p, items);
    } else if !Compatible(items) {
      IncompatibleIsNeverStaged(p, items);
    }
  }

  /** Inspection does not find the conflict: a folder named like a file of the manifest is one more good entry. */
  lemma ConflictPassesInspection(env: Env, m: Manifest, items: seq<Item>, f: File, mode: int, p: Process)
    requires ValidManifest(env, m) && Complete(env, m, items) && f in m.files && |items| < MAX_ENTRIES
    requires ValidDirectory(m, f.path) && !PresentDirectory(items, f.path) && 0 <= mode <= MAX_MODE
    ensures var more := items + [Item(f.path + "/", Directory, mode, 0, [])];
            Complete(env, m, more) && !Compatible(more) && !Accepts(Staging(p, more), |more|)
  {
    hide ValidManifest, ValidDirectory, Repeats, Above, Staging, Accepts, GoodFile, Total;
    var item := Item(f.path + "/", Directory, mode, 0, []);
    var more := items + [item];
    assert TrimSlash(f.path + "/") == f.path;
    assert more[..|items|] == items && more[|items|] == item;
    NextIsGood(env, m, items, item);
    OneMoreItem(items, item);
    assert Present(items, f.path);
    var i :| 0 <= i < |items| && items[i].kind == Regular && items[i].name == f.path;
    assert more[i] == items[i] && Name(more[i]) == Name(more[|items|]);
    VerifiedArchiveStagesExactly(env, m, more, p);
  }

  lemma NextIsGood(env: Env, m: Manifest, items: seq<Item>, item: Item)
    requires Matches(env, m, items) && GoodDirectory(m, item) && |items| < MAX_ENTRIES
    requires !PresentDirectory(items, TrimSlash(item.name))
    ensures Matches(env, m, items + [item])
  {
    hide GoodFile, GoodDirectory, TrimSlash, Total, Repeats;
    var more := items + [item];
    OneMoreItem(items, item);
    SeenMeansRepeated(items, item);
    assert item.kind == Directory by { GoodDirectoryKind(m, item); }
    forall i, j | 0 <= i < j < |more| ensures !Repeats(more[i], more[j]) {
      assert more[i] == items[i];
      if j < |items| {
        assert more[j] == items[j];
      }
    }
    assert forall i :: 0 <= i < |items| ==> more[i] == items[i];
  }

  lemma GoodDirectoryKind(m: Manifest, item: Item)
    requires GoodDirectory(m, item)
    ensures item.kind == Directory
  {
  }

  /**
   Backup and restore: the archive of a collected payload is read back into the staging directory, as
   the tree it was collected from, exactly if the writing succeeds, every folder name is valid to the
   reader, and the process may work in every folder that holds something.
   */
  method BackUpAndStage(env: Env, m: Manifest, encoded: Bytes, payload: seq<Source>, faults: WriteFaults, p: Process)
    returns (r: ReadResult)
    requires ValidManifest(env, m) && Collected(m, payload) && Walked(payload)
    requires env.decode(encoded) == Some(m) && 0 < |encoded| <= MAX_MANIFEST
    ensures DistinctNames(payload)
    ensures r == if Written(env, payload, faults) && FoldersAreValid(m, payload) && AllEnterable(payload, p)
                 then Read(m, TreeOf(payload, p.umask)) else Rejected
  {
    hide ValidManifest, Walked, AllEnterable, TreeOf, Written, FoldersAreValid, Accepts;
    WalkedIsGrown(payload);
    StagingExactly(payload, p);
    TakesAllExactly(p, ItemsOf(payload));
    r := WriteThenRead(env, m, encoded, payload, faults, Staging(p, ItemsOf(payload)));
  }
}
