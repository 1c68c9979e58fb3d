/**
 Reading a recovery archive: the manifest first, then entries that must match it exactly.  The tar
 and gzip framing is a list of entries; the JSON manifest and the digest are parameters.
 */
module RecoveryArchive {
  import opened Basics
  import opened RecoveryPaths

  type Bytes = seq<bv8>

  const MAX_MANIFEST: int := 0x200000
  const MAX_PAYLOAD: int := 20 * 0x40000000
  const MAX_ENTRIES: int := 100_000
  const MAX_MODE: int := 0x1ff
  const TOPOLOGY: string := "runtime/topology.json"

  datatype Kind = Regular | Directory | Other
  datatype Item = Item(name: string, kind: Kind, mode: int, size: int, content: Bytes)

  datatype Scope = Network | SingleNode | Unknown
  datatype File = File(path: string, size: int, mode: int, sha256: string)
  datatype Manifest = Manifest(scope: Scope, node: string, nodes: seq<string>, files: seq<File>, identity: string)

  /** The manifest decoder, the digest, and the checks of a manifest's chain, binary and node state. */
  datatype Env = Env(decode: Bytes -> Option<Manifest>, digest: Bytes -> string, sound: Manifest -> bool)

  // ---------------------------------------------------------------- manifests

  /** Byte order of texts. */
  predicate Less(a: string, b: string) {
    if b == "" then false
    else if a == "" then true
    else a[0] < b[0] || (a[0] == b[0] && Less(a[1..], b[1..]))
  }

  lemma {:induction false} LessIsTransitive(a: string, b: string, c: string)
    requires Less(a, b) && Less(b, c)
    ensures Less(a, c)
  {
    if a == "" || a[0] != b[0] || b[0] != c[0] {
    } else {
      LessIsTransitive(a[1..], b[1..], c[1..]);
    }
  }

  lemma {:induction false} LessIsStrict(a: string)
    ensures !Less(a, a)
  {
    if a == "" {
    } else {
      LessIsStrict(a[1..]);
    }
  }

  predicate HexDigit(c: char) { '0' <= c <= '9' || 'a' <= c <= 'f' || 'A' <= c <= 'F' }

  /** `validHexDigest`: 32 bytes of hexadecimal. */
  predicate ValidDigest(text: string) { |text| == 64 && forall i :: 0 <= i < 64 ==> HexDigit(text[i]) }

  function LowerChar(c: char): char { if 'A' <= c <= 'Z' then (c as int + 32) as char else c }

  /** Digests are compared without regard to case. */
  predicate SameDigest(a: string, b: string) {
    |a| == |b| && forall i :: 0 <= i < |a| ==> LowerChar(a[i]) == LowerChar(b[i])
  }

  const NODES: seq<string> := ["validator-0", "validator-1", "validator-2", "validator-3"]

  predicate NodeFile(node: string, path: string) { "runtime/" + node + "/" <= path }

  /** `validManifestFileForScope`. */
  predicate InScope(m: Manifest, path: string) {
    path == TOPOLOGY ||
    if m.scope == SingleNode then NodeFile(m.node, path) else exists n :: n in NODES && NodeFile(n, path)
  }

  predicate ValidNodes(m: Manifest) {
    match m.scope
    case Network => m.node == "" && m.nodes == NODES
    case SingleNode => m.node in NODES && m.nodes == [m.node]
    case Unknown => false
  }

  predicate ValidFile(m: Manifest, f: File) {
    ValidPath(f.path) && InScope(m, f.path) && f.size >= 0 && 0 <= f.mode <= MAX_MODE && ValidDigest(f.sha256)
  }

  predicate Ascending(files: seq<File>) { forall i :: 1 <= i < |files| ==> Less(files[i - 1].path, files[i].path) }

  predicate HasFileFor(files: seq<File>, node: string) { exists i :: 0 <= i < |files| && NodeFile(node, files[i].path) }

  predicate HasTopology(files: seq<File>) { exists i :: 0 <= i < |files| && files[i].path == TOPOLOGY }

  /** What a valid manifest is. */
  predicate ValidManifest(env: Env, m: Manifest) {
    && ValidNodes(m) && env.sound(m)
    && (forall i :: 0 <= i < |m.files| ==> ValidFile(m, m.files[i]))
    && Ascending(m.files) && HasTopology(m.files)
    && (forall n :: n in m.nodes ==> HasFileFor(m.files, n))
  }

  /** The file loop of `validateRecoveryManifest`, with its running `previous`, `hasTopology` and `nodeFiles`. */
  method ValidateFiles(m: Manifest) returns (ok: bool, hasTopology: bool, nodeFiles: set<string>)
    ensures ok <==> (forall i :: 0 <= i < |m.files| ==> ValidFile(m, m.files[i])) && Ascending(m.files)
    ensures ok ==> (hasTopology <==> HasTopology(m.files))
    ensures ok ==> forall n :: n in m.nodes ==> (n in nodeFiles <==> HasFileFor(m.files, n))
  {
    hide ValidFile, Less;
    var previous := "";
    hasTopology, nodeFiles := false, {};
    var i := 0;
    while i < |m.files|
      invariant 0 <= i <= |m.files|
      invariant forall k :: 0 <= k < i ==> ValidFile(m, m.files[k])
      invariant Ascending(m.files[..i]) && previous == if i == 0 then "" else m.files[i - 1].path
      invariant hasTopology <==> HasTopology(m.files[..i])
      invariant forall n :: n in m.nodes ==> (n in nodeFiles <==> HasFileFor(m.files[..i], n))
    {
      var file := m.files[i];
      assert m.files[..i + 1] == m.files[..i] + [file];
      if !ValidFile(m, file) {
        return false, hasTopology, nodeFiles;
      }
      if previous != "" && !Less(previous, file.path) {
        return false, hasTopology, nodeFiles;
      }
      ValidIsNotEmpty(m, file);
      if i > 0 {
        ValidIsNotEmpty(m, m.files[i - 1]);
      }
      OneMoreFile(m.files[..i], file);
      hasTopology := hasTopology || file.path == TOPOLOGY;
      nodeFiles := nodeFiles + NodesOf(m.nodes, file.path);
      previous := file.path;
      i := i + 1;
    }
    assert m.files[..i] == m.files;
    return true, hasTopology, nodeFiles;
  }

  lemma OneMoreFile(files: seq<File>, f: File)
    ensures HasTopology(files + [f]) <==> HasTopology(files) || f.path == TOPOLOGY
    ensures forall n :: HasFileFor(files + [f], n) <==> HasFileFor(files, n) || NodeFile(n, f.path)
  {
    hide NodeFile;
    var longer := files + [f];
    assert longer[|files|] == f;
    if HasTopology(files) {
      var i :| 0 <= i < |files| && files[i].path == TOPOLOGY;
      assert longer[i] == files[i];
    }
    forall n ensures HasFileFor(longer, n) <==> HasFileFor(files, n) || NodeFile(n, f.path) {
      if HasFileFor(files, n) {
        var i :| 0 <= i < |files| && NodeFile(n, files[i].path);
        assert longer[i] == files[i];
      }
    }
  }

  lemma ValidIsNotEmpty(m: Manifest, f: File)
    requires ValidFile(m, f)
    ensures f.path != ""
  {
  }

  /** The nodes whose directory holds the path. */
  function NodesOf(nodes: seq<string>, path: string): (r: set<string>)
    ensures forall n :: n in r <==> n in nodes && NodeFile(n, path)
  {
    set n | n in nodes && NodeFile(n, path)
  }

  /** `validateRecoveryManifest`. */
  method ValidateManifest(env: Env, m: Manifest) returns (ok: bool)
    ensures ok <==> ValidManifest(env, m)
  {
    hide ValidFile;
    if !ValidNodes(m) || !env.sound(m) {
      return false;
    }
    if |m.files| == 0 {
      return false;
    }
    var good, hasTopology, nodeFiles := ValidateFiles(m);
    if !good || !hasTopology {
      return false;
    }
    var i := 0;
    while i < |m.nodes|
      invariant 0 <= i <= |m.nodes| && forall k :: 0 <= k < i ==> HasFileFor(m.files, m.nodes[k])
    {
      if m.nodes[i] !in nodeFiles {
        return false;
      }
      i := i + 1;
    }
    return true;
  }

  /** The sorted paths of a valid manifest are all different. */
  lemma {:induction false} AscendingPaths(files: seq<File>, i: nat, j: nat)
    requires Ascending(files) && i < j < |files|
    ensures Less(files[i].path, files[j].path) && files[i].path != files[j].path
    decreases j
  {
    LessIsStrict(files[i].path);
    if i == j - 1 {
    } else {
      AscendingPaths(files, i, j - 1);
      LessIsTransitive(files[i].path, files[j - 1].path, files[j].path);
    }
  }

  // ---------------------------------------------------------------- entries

  function TrimSlash(name: string): string {
    if name != "" && name[|name| - 1] == '/' then name[..|name| - 1] else name
  }

  /** `validRecoveryDirectoryForManifest`. */
  predicate ValidDirectory(m: Manifest, name: string) {
    name == "runtime" || (ValidPath(name + "/placeholder") && InScope(m, name + "/placeholder"))
  }

  predicate GoodDirectory(m: Manifest, item: Item) {
    item.kind == Directory && ValidDirectory(m, TrimSlash(item.name)) && 0 <= item.mode <= MAX_MODE
  }

  /** The entry carries a file of the manifest, in full. */
  predicate Carries(env: Env, item: Item, f: File) {
    && item.kind == Regular && item.name == f.path && item.size == f.size && item.mode == f.mode
    && |item.content| == f.size && SameDigest(env.digest(item.content), f.sha256)
  }

  predicate GoodFile(env: Env, m: Manifest, item: Item) { exists f :: f in m.files && Carries(env, item, f) }

  predicate GoodItem(env: Env, m: Manifest, item: Item) { GoodDirectory(m, item) || GoodFile(env, m, item) }

  /** Two entries of one kind with one name. */
  predicate Repeats(a: Item, b: Item) {
    (a.kind == Directory && b.kind == Directory && TrimSlash(a.name) == TrimSlash(b.name)) ||
    (a.kind == Regular && b.kind == Regular && a.name == b.name)
  }

  function Total(items: seq<Item>): int {
    if items == [] then 0 else
      Total(items[..|items| - 1]) + if items[|items| - 1].kind == Regular then items[|items| - 1].size else 0
  }

  predicate Matches(env: Env, m: Manifest, items: seq<Item>) {
    && (forall i :: 0 <= i < |items| ==> GoodItem(env, m, items[i]))
    && (forall i, j :: 0 <= i < j < |items| ==> !Repeats(items[i], items[j]))
    && |items| <= MAX_ENTRIES && Total(items) <= MAX_PAYLOAD
  }

  predicate Present(items: seq<Item>, path: string) {
    exists i :: 0 <= i < |items| && items[i].kind == Regular && items[i].name == path
  }

  /** The entries are exactly the manifest's files and some directories of its scope. */
  predicate Complete(env: Env, m: Manifest, items: seq<Item>) {
    Matches(env, m, items) && forall f :: f in m.files ==> Present(items, f.path)
  }

  lemma GoodSize(env: Env, m: Manifest, item: Item)
    requires GoodItem(env, m, item) && item.kind == Regular
    ensures item.size >= 0
  {
    hide Carries;
    var f :| f in m.files && Carries(env, item, f);
    assert item.size == |item.content| by { CarriedSize(env, item, f); }
  }

  lemma CarriedSize(env: Env, item: Item, f: File)
    requires Carries(env, item, f)
    ensures item.size == |item.content|
  {
  }

  lemma {:induction false} TotalGrows(env: Env, m: Manifest, items: seq<Item>, n: nat)
    requires n <= |items| && forall i :: 0 <= i < |items| ==> GoodItem(env, m, items[i])
    ensures Total(items[..n]) <= Total(items)
  {
    hide GoodItem;
    if n == |items| {
      assert items[..n] == items;
    } else {
      var front, last := items[..|items| - 1], items[|items| - 1];
      assert front[..n] == items[..n];
      TotalGrows(env, m, front, n);
      if last.kind == Regular {
        GoodSize(env, m, last);
      }
    }
  }

  /** A prefix that does not match rules out the whole. */
  lemma PrefixMatches(env: Env, m: Manifest, items: seq<Item>, n: nat)
    requires n <= |items| && Matches(env, m, items)
    ensures Matches(env, m, items[..n])
  {
    hide GoodItem, Repeats;
    TotalGrows(env, m, items, n);
    forall i, j | 0 <= i < j < n ensures !Repeats(items[..n][i], items[..n][j]) {
      assert !Repeats(items[i], items[j]);
    }
  }

  /** What one more entry needs. */
  lemma NextMatches(env: Env, m: Manifest, items: seq<Item>, n: nat)
    requires n < |items| && Matches(env, m, items[..n])
    ensures Matches(env, m, items[..n + 1]) <==>
            && GoodItem(env, m, items[n]) && (forall i :: 0 <= i < n ==> !Repeats(items[i], items[n]))
            && n + 1 <= MAX_ENTRIES && Total(items[..n + 1]) <= MAX_PAYLOAD
  {
    hide GoodItem, Repeats, Total;
    var longer := items[..n + 1];
    assert longer[n] == items[n] && forall i :: 0 <= i < n ==> longer[i] == items[..n][i] == items[i];
    if Matches(env, m, longer) {
      forall i | 0 <= i < n ensures !Repeats(items[i], items[n]) {
        assert !Repeats(longer[i], longer[n]);
      }
      assert GoodItem(env, m, longer[n]);
    }
    if GoodItem(env, m, items[n]) && (forall i :: 0 <= i < n ==> !Repeats(items[i], items[n])) {
      forall i, j | 0 <= i < j < n + 1 ensures !Repeats(longer[i], longer[j]) {
        if j < n {
          assert !Repeats(items[..n][i], items[..n][j]);
        }
      }
      forall i | 0 <= i < n + 1 ensures GoodItem(env, m, longer[i]) {
        if i < n {
          assert GoodItem(env, m, items[..n][i]);
        }
      }
    }
  }

  // ---------------------------------------------------------------- the read loop

  function Expected(files: seq<File>): (r: map<string, File>)
    ensures forall p :: p in r <==> exists i :: 0 <= i < |files| && files[i].path == p
  {
    if files == [] then map[] else
      var last := files[|files| - 1];
      var r := Expected(files[..|files| - 1])[last.path := last];
      assert forall i :: 0 <= i < |files| - 1 ==> files[i] == files[..|files| - 1][i];
      r
  }

  lemma {:induction false} ExpectedIsTheFile(files: seq<File>, i: nat)
    requires Ascending(files) && i < |files|
    ensures files[i].path in Expected(files) && Expected(files)[files[i].path] == files[i]
  {
    hide Less;
    var n := |files| - 1;
    var front := files[..n];
    assert Expected(files) == Expected(front)[files[n].path := files[n]];
    if i == n {
    } else {
      forall k | 1 <= k < n ensures Less(front[k - 1].path, front[k].path) {
        assert Less(files[k - 1].path, files[k].path);
      }
      ExpectedIsTheFile(front, i);
      AscendingPaths(files, i, n);
    }
  }

  /** A file on disk. */
  datatype Staged = Staged(content: Bytes, mode: int)

  /** What a reading writes below its destination: files by path, and folders by name with their mode. */
  datatype Tree = Tree(files: map<string, Staged>, folders: map<string, int>)

  const EMPTY_TREE := Tree(map[], map[])

  /** Where a reading writes: nowhere, or to a place that may refuse the n-th entry. */
  datatype Destination = Nowhere | Into(umask: nat, accepts: nat -> bool)

  predicate Accepts(d: Destination, count: nat) { d.Into? ==> forall i :: 0 <= i < count ==> d.accepts(i) }

  /** The mode a new file gets; folders are given theirs afterwards, without regard to the mask. */
  function Masked(mode: int, mask: nat): (r: int)
    ensures mode >= 0 ==> 0 <= r <= mode
  {
    if mode <= 0 then mode else 2 * Masked(mode / 2, mask / 2) + if mask % 2 == 0 then mode % 2 else 0
  }

  /** No bit is set in both. */
  predicate NoCommonBit(mode: nat, mask: nat) {
    mode == 0 || ((mode % 2 == 0 || mask % 2 == 0) && NoCommonBit(mode / 2, mask / 2))
  }

  lemma {:induction false} ModeSurvives(mode: nat, mask: nat)
    ensures Masked(mode, mask) == mode <==> NoCommonBit(mode, mask)
  {
    if mode == 0 {
    } else {
      ModeSurvives(mode / 2, mask / 2);
    }
  }

  lemma {:induction false} ZeroMaskTakesNothing(mode: nat)
    ensures NoCommonBit(mode, 0)
  {
    if mode == 0 {
    } else {
      ZeroMaskTakesNothing(mode / 2);
    }
  }

  /** One entry written. */
  function Put(tree: Tree, d: Destination, item: Item): Tree {
    if d.Nowhere? then tree
    else if item.kind == Directory then tree.(folders := tree.folders[TrimSlash(item.name) := item.mode])
    else tree.(files := tree.files[item.name := Staged(item.content, Masked(item.mode, d.umask))])
  }

  function PutAll(d: Destination, items: seq<Item>): Tree {
    if items == [] then EMPTY_TREE else Put(PutAll(d, items[..|items| - 1]), d, items[|items| - 1])
  }

  datatype ReadResult = Read(manifest: Manifest, tree: Tree) | Rejected

  predicate GoodHeader(item: Item) {
    && item.name == "manifest.json" && item.kind == Regular && 0 < item.size <= MAX_MANIFEST && item.mode == 0x180
    && |item.content| == item.size
  }

  /** The whole archive: a bounded manifest entry, valid, followed by exactly its files. */
  predicate Acceptable(env: Env, items: seq<Item>) {
    && items != [] && GoodHeader(items[0])
    && var decoded := env.decode(items[0].content);
       decoded.Some? && ValidManifest(env, decoded.value) && Complete(env, decoded.value, items[1..])
  }

  /** One entry after the manifest. */
  method CheckItem(env: Env, m: Manifest, expected: map<string, File>, item: Item) returns (ok: bool)
    requires ValidManifest(env, m) && expected == Expected(m.files)
    ensures ok <==> GoodItem(env, m, item)
  {
    hide ValidManifest, ValidPath, InScope;
    GoodFileFacts(env, m, item);
    var name := TrimSlash(item.name);
    if item.kind == Directory {
      ok := ValidDirectory(m, name) && 0 <= item.mode <= MAX_MODE;
      return;
    }
    if item.kind != Regular || !ValidPath(item.name) {
      return false;
    }
    if item.name !in expected {
      return false;
    }
    var entry := expected[item.name];
    OnlyThatFile(env, m, item);
    if item.mode < 0 || item.mode > MAX_MODE || item.size != entry.size || item.mode != entry.mode {
      return false;
    }
    ok := |item.content| == entry.size && SameDigest(env.digest(item.content), entry.sha256);
  }

  lemma GoodFileFacts(env: Env, m: Manifest, item: Item)
    requires ValidManifest(env, m)
    ensures GoodFile(env, m, item) ==> item.kind == Regular && ValidPath(item.name) && 0 <= item.mode <= MAX_MODE
    ensures GoodFile(env, m, item) ==> item.name in Expected(m.files)
  {
    hide ValidPath, InScope;
    if GoodFile(env, m, item) {
      var f :| f in m.files && Carries(env, item, f);
      var i :| 0 <= i < |m.files| && m.files[i] == f;
      assert ValidFile(m, m.files[i]);
    }
  }

  lemma OnlyThatFile(env: Env, m: Manifest, item: Item)
    requires ValidManifest(env, m) && item.name in Expected(m.files)
    ensures Expected(m.files)[item.name] in m.files && Expected(m.files)[item.name].path == item.name
    ensures GoodFile(env, m, item) <==> Carries(env, item, Expected(m.files)[item.name])
  {
    hide Carries, Expected, ValidFile, Less, HasTopology, HasFileFor, ValidNodes, Ascending;
    var k :| 0 <= k < |m.files| && m.files[k].path == item.name;
    ExpectedIsTheFile(m.files, k);
    if GoodFile(env, m, item) {
      var f :| f in m.files && Carries(env, item, f);
      var i :| 0 <= i < |m.files| && m.files[i] == f;
      assert f.path == item.name by { CarriedPath(env, item, f); }
      ExpectedIsTheFile(m.files, i);
    }
  }

  lemma CarriedPath(env: Env, item: Item, f: File)
    requires Carries(env, item, f)
    ensures item.name == f.path
  {
  }

  predicate PresentDirectory(items: seq<Item>, name: string) {
    exists i :: 0 <= i < |items| && items[i].kind == Directory && TrimSlash(items[i].name) == name
  }

  /** What has been seen after one more entry. */
  lemma OneMoreItem(items: seq<Item>, item: Item)
    ensures forall p :: Present(items + [item], p) <==> Present(items, p) || (item.kind == Regular && item.name == p)
    ensures forall d :: PresentDirectory(items + [item], d) <==>
              PresentDirectory(items, d) || (item.kind == Directory && TrimSlash(item.name) == d)
    ensures Total(items + [item]) == Total(items) + if item.kind == Regular then item.size else 0
  {
    hide TrimSlash;
    var longer := items + [item];
    assert longer[..|items|] == items && longer[|items|] == item;
    forall p | Present(items, p) ensures Present(longer, p) {
      var i :| 0 <= i < |items| && items[i].kind == Regular && items[i].name == p;
      assert longer[i] == items[i];
    }
    forall d | PresentDirectory(items, d) ensures PresentDirectory(longer, d) {
      var i :| 0 <= i < |items| && items[i].kind == Directory && TrimSlash(items[i].name) == d;
      assert longer[i] == items[i];
    }
  }

  /** Whether an entry repeats one before it, by what was seen. */
  lemma SeenMeansRepeated(items: seq<Item>, item: Item)
    ensures (exists i :: 0 <= i < |items| && Repeats(items[i], item)) <==>
            (item.kind == Regular && Present(items, item.name)) ||
            (item.kind == Directory && PresentDirectory(items, TrimSlash(item.name)))
  {
    hide TrimSlash;
    if item.kind == Regular && Present(items, item.name) {
      var i :| 0 <= i < |items| && items[i].kind == Regular && items[i].name == item.name;
      assert Repeats(items[i], item);
    }
    if item.kind == Directory && PresentDirectory(items, TrimSlash(item.name)) {
      var i :| 0 <= i < |items| && items[i].kind == Directory && TrimSlash(items[i].name) == TrimSlash(item.name);
      assert Repeats(items[i], item);
    }
  }

  lemma SubsetOfSameSize<T>(a: set<T>, b: set<T>)
    requires a <= b
    ensures |a| <= |b| && (|a| == |b| <==> a == b)
  {
    assert b == a + (b - a);
  }

  /** What was seen is what was expected exactly when the counts agree. */
  lemma CountsDecide(env: Env, m: Manifest, items: seq<Item>, seen: set<string>)
    requires ValidManifest(env, m) && Matches(env, m, items) && forall p :: p in seen <==> Present(items, p)
    ensures |seen| == |Expected(m.files)| <==> Complete(env, m, items)
  {
    hide ValidManifest, Matches;
    var expected := Expected(m.files);
    forall p | p in seen ensures p in expected {
      PresentIsExpected(env, m, items, p);
    }
    SubsetOfSameSize(seen, expected.Keys);
    if seen == expected.Keys {
      forall f | f in m.files ensures Present(items, f.path) {
        var i :| 0 <= i < |m.files| && m.files[i] == f;
        assert f.path in expected;
      }
    }
    if Complete(env, m, items) {
      forall p | p in expected ensures p in seen {
        var i :| 0 <= i < |m.files| && m.files[i].path == p;
        assert m.files[i] in m.files;
      }
    }
  }

  lemma PresentIsExpected(env: Env, m: Manifest, items: seq<Item>, p: string)
    requires ValidManifest(env, m) && Matches(env, m, items) && Present(items, p)
    ensures p in Expected(m.files)
  {
    hide ValidManifest, GoodFile;
    var i :| 0 <= i < |items| && items[i].kind == Regular && items[i].name == p;
    assert GoodItem(env, m, items[i]);
    GoodFileFacts(env, m, items[i]);
  }

  /**
   `readRecoveryArchive`: succeeds exactly on acceptable archives whose stream ends cleanly and whose
   entries the destination, if there is one, takes; and writes exactly those entries.
   */
  method ReadArchive(env: Env, items: seq<Item>, clean: bool, destination: Destination) returns (r: ReadResult)
    ensures r.Read? <==> clean && Acceptable(env, items) && Accepts(destination, |items| - 1)
    ensures r.Read? ==> env.decode(items[0].content) == Some(r.manifest) && r.tree == PutAll(destination, items[1..])
  {
    hide ValidManifest, Complete, PutAll, Matches;
    if items == [] {
      return Rejected;
    }
    var header := items[0];
    if header.name != "manifest.json" || header.kind != Regular || header.size <= 0 || header.size > MAX_MANIFEST
      || header.mode != 0x180 || |header.content| != header.size
    {
      return Rejected;
    }
    var decoded := env.decode(header.content);
    if decoded.None? {
      return Rejected;
    }
    var valid := ValidateManifest(env, decoded.value);
    if !valid {
      return Rejected;
    }
    var ok, tree := ReadItems(env, decoded.value, items[1..], clean, destination);
    if !ok {
      return Rejected;
    }
    return Read(decoded.value, tree);
  }

  /** The payload loop of `readRecoveryArchive`. */
  method ReadItems(env: Env, m: Manifest, items: seq<Item>, clean: bool, destination: Destination)
    returns (ok: bool, tree: Tree)
    requires ValidManifest(env, m)
    ensures ok <==> clean && Complete(env, m, items) && Accepts(destination, |items|)
    ensures ok ==> tree == PutAll(destination, items)
  {
    hide ValidManifest, GoodItem, Repeats, Present, PresentDirectory, Matches, TrimSlash, Total, GoodDirectory;
    hide Complete, PutAll, Put, Expected;
    var expected := Expected(m.files);
    var seen: set<string>, seenDirectories: set<string> := {}, {};
    var entries, total := 0, 0;
    tree := EMPTY_TREE;
    NothingRead(env, m, items);
    while entries < |items|
      invariant 0 <= entries <= |items|
      invariant Matches(env, m, items[..entries]) && total == Total(items[..entries])
      invariant forall p :: p in seen <==> Present(items[..entries], p)
      invariant forall d :: d in seenDirectories <==> PresentDirectory(items[..entries], d)
      invariant tree == PutAll(destination, items[..entries]) && Accepts(destination, entries)
    {
      var item := items[entries];
      assert items[..entries + 1] == items[..entries] + [item];
      NextMatches(env, m, items, entries);
      OneMoreItem(items[..entries], item);
      SeenMeansRepeated(items[..entries], item);
      ghost var before := items[..entries];
      assert (exists i :: 0 <= i < entries && Repeats(items[i], item)) <==>
          (exists i :: 0 <= i < |before| && Repeats(before[i], item)) by {
        SamePrefix(items, entries, item);
      }
      var good := CheckItem(env, m, expected, item);
      GoodKind(env, m, item);
      var repeated := if item.kind == Directory then TrimSlash(item.name) in seenDirectories else item.name in seen;
      var size := if item.kind == Regular then item.size else 0;
      if entries + 1 > MAX_ENTRIES || !good || repeated || total + size > MAX_PAYLOAD {
        Fails(env, m, items, entries);
        return false, tree;
      }
      if destination.Into? && !destination.accepts(entries) {
        return false, tree;
      }
      PutNext(destination, items, entries);
      tree := Put(tree, destination, item);
      if item.kind == Directory {
        seenDirectories := seenDirectories + {TrimSlash(item.name)};
      } else {
        seen := seen + {item.name};
      }
      total := total + size;
      entries := entries + 1;
    }
    assert items[..entries] == items;
    CountsDecide(env, m, items, seen);
    ok := clean && |seen| == |expected|;
  }

  lemma NothingRead(env: Env, m: Manifest, items: seq<Item>)
    ensures Matches(env, m, items[..0]) && Total(items[..0]) == 0
    ensures forall p :: !Present(items[..0], p)
    ensures forall d :: !PresentDirectory(items[..0], d)
    ensures forall d :: PutAll(d, items[..0]) == EMPTY_TREE
  {
  }

  lemma PutNext(d: Destination, items: seq<Item>, n: nat)
    requires n < |items|
    ensures PutAll(d, items[..n + 1]) == Put(PutAll(d, items[..n]), d, items[n])
  {
    hide Put;
    assert items[..n + 1][..n] == items[..n];
  }

  lemma SamePrefix(items: seq<Item>, n: nat, item: Item)
    requires n <= |items|
    ensures (exists i :: 0 <= i < n && Repeats(items[i], item)) <==>
            (exists i :: 0 <= i < |items[..n]| && Repeats(items[..n][i], item))
  {
    hide Repeats;
    var before := items[..n];
    if i :| 0 <= i < n && Repeats(items[i], item) {
      assert Repeats(before[i], item);
    }
  }

  lemma GoodKind(env: Env, m: Manifest, item: Item)
    ensures GoodItem(env, m, item) ==> item.kind == Regular || item.kind == Directory
  {
  }

  lemma Fails(env: Env, m: Manifest, items: seq<Item>, n: nat)
    requires n < |items| && !Matches(env, m, items[..n + 1])
    ensures !Complete(env, m, items)
  {
    if Complete(env, m, items) {
      PrefixMatches(env, m, items, n + 1);
    }
  }

  // ---------------------------------------------------------------- writing

  /** What was collected from the runtime: size and digest as recorded, content as it is when archived. */
  datatype Source =
    | Folder(relative: string, mode: int)
    | Document(relative: string, mode: int, size: int, sha256: string, content: Bytes)

  predicate Unchanged(env: Env, source: Source) {
    source.Document? ==> |source.content| == source.size && SameDigest(env.digest(source.content), source.sha256)
  }

  function ItemOf(source: Source): Item {
    match source
    case Folder(relative, mode) => Item(relative + "/", Directory, mode, 0, [])
    case Document(relative, mode, size, _, content) => Item(relative, Regular, mode, size, content)
  }

  function ItemsOf(payload: seq<Source>): (r: seq<Item>)
    ensures |r| == |payload| && forall i :: 0 <= i < |payload| ==> r[i] == ItemOf(payload[i])
  {
    seq(|payload|, i requires 0 <= i < |payload| => ItemOf(payload[i]))
  }

  function ManifestItem(encoded: Bytes): Item { Item("manifest.json", Regular, 0x180, |encoded|, encoded) }

  /** Creating the file, writing an entry, or closing and renaming the file may fail. */
  datatype WriteFaults = WriteFaults(create: bool, entry: nat -> bool, finish: bool)

  /** `writeRecoveryArchive`: succeeds exactly if no operation fails and no file changed since it was collected. */
  method WriteArchive(env: Env, encoded: Bytes, payload: seq<Source>, faults: WriteFaults)
    returns (r: Option<seq<Item>>)
    ensures r.Some? <==> Written(env, payload, faults)
    ensures r.Some? ==> r.value == [ManifestItem(encoded)] + ItemsOf(payload)
  {
    hide Goes;
    if faults.create || faults.entry(0) {
      return None;
    }
    var items := [ManifestItem(encoded)];
    var i := 0;
    while i < |payload|
      invariant 0 <= i <= |payload| && items == [ManifestItem(encoded)] + ItemsOf(payload[..i])
      invariant forall k :: 0 <= k < i ==> Goes(env, payload, faults, k)
    {
      if !Goes(env, payload, faults, i) {
        return None;
      }
      assert ItemsOf(payload[..i + 1]) == ItemsOf(payload[..i]) + [ItemOf(payload[i])];
      items := items + [ItemOf(payload[i])];
      i := i + 1;
    }
    assert payload[..i] == payload;
    if faults.finish {
      return None;
    }
    return Some(items);
  }

  /** The entry of one source is written, and the source is still what was collected. */
  predicate Goes(env: Env, payload: seq<Source>, faults: WriteFaults, i: nat)
    requires i < |payload|
  {
    !faults.entry(i + 1) && Unchanged(env, payload[i])
  }

  predicate Written(env: Env, payload: seq<Source>, faults: WriteFaults) {
    && !faults.create && !faults.entry(0) && !faults.finish
    && forall i :: 0 <= i < |payload| ==> Goes(env, payload, faults, i)
  }

  function FileOf(source: Source): File
    requires source.Document?
  {
    File(source.relative, source.size, source.mode, source.sha256)
  }

  /** The manifest lists exactly the documents of a payload without repetition, within the bounds. */
  ghost predicate Collected(m: Manifest, payload: seq<Source>) {
    && (forall i, j :: 0 <= i < j < |payload| ==> payload[i].relative != payload[j].relative)
    && (forall i :: 0 <= i < |payload| ==> 0 <= payload[i].mode <= MAX_MODE)
    && (forall i :: 0 <= i < |payload| && payload[i].Document? ==> FileOf(payload[i]) in m.files)
    && (forall f :: f in m.files ==> exists i :: 0 <= i < |payload| && payload[i].Document? && FileOf(payload[i]) == f)
    && |payload| <= MAX_ENTRIES && Total(ItemsOf(payload)) <= MAX_PAYLOAD
  }

  /**
   Round trip: an archive written from an unchanged payload is accepted exactly if the reader takes
   every folder name.  It refuses one that ends in two dots.
   */
  lemma WrittenArchiveIsAccepted(env: Env, m: Manifest, encoded: Bytes, payload: seq<Source>)
    requires ValidManifest(env, m) && Collected(m, payload)
    requires forall i :: 0 <= i < |payload| ==> Unchanged(env, payload[i])
    requires env.decode(encoded) == Some(m) && 0 < |encoded| <= MAX_MANIFEST
    ensures Acceptable(env, [ManifestItem(encoded)] + ItemsOf(payload)) <==>
            forall i :: 0 <= i < |payload| && payload[i].Folder? ==> ValidDirectory(m, payload[i].relative)
  {
    hide ValidManifest, Unchanged, GoodItem, ValidDirectory, Repeats, Total;
    var items := ItemsOf(payload);
    assert ([ManifestItem(encoded)] + items)[1..] == items;
    forall i | 0 <= i < |items|
      ensures GoodItem(env, m, items[i]) <==> (payload[i].Folder? ==> ValidDirectory(m, payload[i].relative))
    {
      SourceIsGood(env, m, payload[i]);
    }
    forall i, j | 0 <= i < j < |items| ensures !Repeats(items[i], items[j]) {
      SourcesDiffer(payload[i], payload[j]);
    }
    forall f | f in m.files ensures Present(items, f.path) {
      var i :| 0 <= i < |payload| && payload[i].Document? && FileOf(payload[i]) == f;
      assert items[i] == ItemOf(payload[i]);
    }
    assert Acceptable(env, [ManifestItem(encoded)] + items) <==> Matches(env, m, items);
    if Matches(env, m, items) {
      forall i | 0 <= i < |payload| && payload[i].Folder? ensures ValidDirectory(m, payload[i].relative) {
        assert GoodItem(env, m, items[i]);
      }
    }
  }

  lemma SourceIsGood(env: Env, m: Manifest, source: Source)
    requires Unchanged(env, source) && 0 <= source.mode <= MAX_MODE && (source.Document? ==> FileOf(source) in m.files)
    ensures GoodItem(env, m, ItemOf(source)) <==> (source.Folder? ==> ValidDirectory(m, source.relative))
  {
    hide ValidDirectory, SameDigest;
    if source.Folder? {
      assert TrimSlash(source.relative + "/") == source.relative;
    } else {
      assert Carries(env, ItemOf(source), FileOf(source));
    }
  }

  lemma SourcesDiffer(a: Source, b: Source)
    requires a.relative != b.relative
    ensures !Repeats(ItemOf(a), ItemOf(b))
  {
    assert TrimSlash(a.relative + "/") == a.relative && TrimSlash(b.relative + "/") == b.relative;
  }

  predicate DistinctNames(payload: seq<Source>) {
    forall i, j :: 0 <= i < j < |payload| ==> payload[i].relative != payload[j].relative
  }

  /** What the sources of one kind hold, by name. */
  ghost function Index<V>(payload: seq<Source>, kind: Source -> bool, value: Source -> V): map<string, V>
    requires DistinctNames(payload)
  {
    map i | 0 <= i < |payload| && kind(payload[i]) :: payload[i].relative := value(payload[i])
  }

  /** The documents of a payload, under the mask. */
  ghost function DocumentsOf(payload: seq<Source>, umask: nat): map<string, Staged>
    requires DistinctNames(payload)
  {
    Index(payload, IsDocument, StagedUnder(umask))
  }

  ghost function FoldersOf(payload: seq<Source>): map<string, int>
    requires DistinctNames(payload)
  {
    Index(payload, IsFolder, ModeOf)
  }

  predicate IsDocument(source: Source) { source.Document? }

  predicate IsFolder(source: Source) { source.Folder? }

  function ModeOf(source: Source): int { source.mode }

  function StagedUnder(umask: nat): Source -> Staged {
    (source: Source) => if source.Document? then Staged(source.content, Masked(source.mode, umask)) else Staged([], 0)
  }

  /** The tree a payload was collected from. */
  ghost function TreeOf(payload: seq<Source>, umask: nat): Tree
    requires DistinctNames(payload)
  {
    Tree(DocumentsOf(payload, umask), FoldersOf(payload))
  }

  /** Writing the entries of a payload one by one builds exactly its tree. */
  lemma {:induction false} EntriesBuildTheTree(payload: seq<Source>, d: Destination)
    requires DistinctNames(payload) && d.Into?
    ensures PutAll(d, ItemsOf(payload)) == TreeOf(payload, d.umask)
  {
    hide Masked, Index;
    if payload == [] {
      assert ItemsOf(payload) == [];
      NothingCollected(d.umask);
    } else {
      var n := |payload| - 1;
      var front, last := payload[..n], payload[n];
      var items := ItemsOf(payload);
      assert items[..n] == ItemsOf(front) && items[n] == ItemOf(last);
      assert payload == front + [last];
      EntriesBuildTheTree(front, d);
      IndexGrows(front, last, IsDocument, StagedUnder(d.umask));
      IndexGrows(front, last, IsFolder, ModeOf);
      if last.Folder? {
        assert TrimSlash(last.relative + "/") == last.relative;
      }
    }
  }

  lemma NothingCollected(umask: nat)
    ensures DocumentsOf([], umask) == map[] && FoldersOf([]) == map[]
  {
  }

  lemma IndexGrows<V>(front: seq<Source>, last: Source, kind: Source -> bool, value: Source -> V)
    requires DistinctNames(front + [last]) && DistinctNames(front)
    ensures Index(front + [last], kind, value) ==
            if kind(last) then Index(front, kind, value)[last.relative := value(last)] else Index(front, kind, value)
  {
    hide Index;
    var all := front + [last];
    var before, more := Index(front, kind, value), Index(all, kind, value);
    forall p ensures p in more <==> p in before || (kind(last) && p == last.relative) {
      IndexHolds(front, kind, value, p);
      IndexHolds(all, kind, value, p);
      NamedNext(front, last, kind, p);
    }
    forall p | p in before ensures more[p] == before[p] {
      IndexHolds(front, kind, value, p);
      var i: nat :| NamedAt(front, kind, p, i);
      assert NamedAt(all, kind, p, i);
      IndexValue(front, kind, value, i);
      IndexValue(all, kind, value, i);
    }
    if kind(last) {
      assert all[|front|] == last;
      IndexValue(all, kind, value, |front|);
    }
  }

  predicate NamedAt(payload: seq<Source>, kind: Source -> bool, p: string, i: nat) {
    i < |payload| && kind(payload[i]) && payload[i].relative == p
  }

  lemma IndexHolds<V>(payload: seq<Source>, kind: Source -> bool, value: Source -> V, p: string)
    requires DistinctNames(payload)
    ensures p in Index(payload, kind, value) <==> exists i :: NamedAt(payload, kind, p, i)
  {
    if i :| 0 <= i < |payload| && kind(payload[i]) && payload[i].relative == p {
      assert NamedAt(payload, kind, p, i);
    }
  }

  lemma IndexValue<V>(payload: seq<Source>, kind: Source -> bool, value: Source -> V, i: nat)
    requires DistinctNames(payload) && i < |payload| && kind(payload[i])
    ensures var index := Index(payload, kind, value);
            payload[i].relative in index && index[payload[i].relative] == value(payload[i])
  {
  }

  lemma NamedNext(front: seq<Source>, last: Source, kind: Source -> bool, p: string)
    ensures (exists i :: NamedAt(front + [last], kind, p, i)) <==>
            (exists i :: NamedAt(front, kind, p, i)) || (kind(last) && p == last.relative)
  {
    var all := front + [last];
    if i: nat :| NamedAt(front, kind, p, i) {
      assert NamedAt(all, kind, p, i);
    }
    if kind(last) && p == last.relative {
      assert NamedAt(all, kind, p, |front|);
    }
    if i: nat :| NamedAt(all, kind, p, i) {
      assert i < |front| ==> NamedAt(front, kind, p, i);
    }
  }

  predicate FoldersAreValid(m: Manifest, payload: seq<Source>) {
    forall i :: 0 <= i < |payload| && payload[i].Folder? ==> ValidDirectory(m, payload[i].relative)
  }

  /**
   The round trip: writing an archive and reading it into a destination gives back the manifest and
   the tree it was collected from, exactly if the writing succeeds, every folder name is valid to the
   reader and the destination takes every entry.
   */
  method WriteThenRead(env: Env, m: Manifest, encoded: Bytes, payload: seq<Source>, faults: WriteFaults,
      destination: Destination)
    returns (r: ReadResult)
    requires ValidManifest(env, m) && Collected(m, payload)
    requires env.decode(encoded) == Some(m) && 0 < |encoded| <= MAX_MANIFEST
    ensures DistinctNames(payload)
    ensures r == if Written(env, payload, faults) && FoldersAreValid(m, payload) && Accepts(destination, |payload|)
                 then Read(m, if destination.Nowhere? then EMPTY_TREE else TreeOf(payload, destination.umask))
                 else Rejected
  {
    hide ValidManifest, Acceptable, ValidDirectory, PutAll, TreeOf, Unchanged, Total;
    assert DistinctNames(payload);
    var archive := WriteArchive(env, encoded, payload, faults);
    if archive.None? {
      return Rejected;
    }
    var items := archive.value;
    assert items[1..] == ItemsOf(payload);
    assert forall i :: 0 <= i < |payload| && Goes(env, payload, faults, i) ==> Unchanged(env, payload[i]);
    WrittenArchiveIsAccepted(env, m, encoded, payload);
    r := ReadArchive(env, items, true, destination);
    if destination.Into? {
      EntriesBuildTheTree(payload, destination);
    } else {
      NothingIsPut(destination, ItemsOf(payload));
    }
  }

  lemma {:induction false} NothingIsPut(d: Destination, items: seq<Item>)
    requires d.Nowhere?
    ensures PutAll(d, items) == EMPTY_TREE
  {
    if items == [] {
    } else {
      NothingIsPut(d, items[..|items| - 1]);
    }
  }

  /** File modes are rebuilt exactly if the mask takes no bit of any of them. */
  lemma ModesAreRebuiltExactly(payload: seq<Source>, umask: nat)
    requires DistinctNames(payload) && forall i :: 0 <= i < |payload| ==> 0 <= payload[i].mode <= MAX_MODE
    ensures TreeOf(payload, umask) == TreeOf(payload, 0) <==>
            forall i :: 0 <= i < |payload| && payload[i].Document? ==> NoCommonBit(payload[i].mode, umask)
  {
    hide Masked, NoCommonBit;
    var masked, plain := DocumentsOf(payload, umask), DocumentsOf(payload, 0);
    forall i | 0 <= i < |payload| && payload[i].Document?
      ensures masked[payload[i].relative] == plain[payload[i].relative] <==> NoCommonBit(payload[i].mode, umask)
    {
      ModeSurvives(payload[i].mode, umask);
      ModeSurvives(payload[i].mode, 0);
      ZeroMaskTakesNothing(payload[i].mode);
      assert masked[payload[i].relative] == Staged(payload[i].content, Masked(payload[i].mode, umask));
      assert plain[payload[i].relative] == Staged(payload[i].content, Masked(payload[i].mode, 0));
    }
    assert masked.Keys == plain.Keys;
    if forall i :: 0 <= i < |payload| && payload[i].Document? ==> NoCommonBit(payload[i].mode, umask) {
      forall p | p in masked ensures masked[p] == plain[p] {
        var i :| 0 <= i < |payload| && payload[i].Document? && payload[i].relative == p;
      }
    }
  }

  /** Which folders the reader takes, among those in scope whose parts are proper. */
  lemma ValidDirectoryExactly(m: Manifest, name: string)
    requires Proper(Split(name)) && InScope(m, name + "/placeholder")
    ensures ValidDirectory(m, name) <==> !HasBackslash(name) && !HasDotDotSlash(name + "/")
  {
    hide Split, HasDotDotSlash, ValidPath, InScope;
    var path := name + "/placeholder";
    ProperPlaceholder(name);
    InScopeIsRuntime(m, path);
    ValidPathIsProper(path);
    if name == "runtime" {
      assert name + "/" == "runtime/";
      RuntimeIsPlain();
    }
  }

  /** The part appended for the test changes nothing about the others. */
  lemma ProperPlaceholder(name: string)
    requires Proper(Split(name))
    ensures var path := name + "/placeholder";
            && Proper(Split(path)) && (HasDotDotSlash(path) <==> HasDotDotSlash(name + "/"))
            && (HasBackslash(path) <==> HasBackslash(name))
  {
    hide Split, HasDotDotSlash;
    var path, part := name + "/placeholder", "placeholder";
    assert '/' !in part && '\\' !in part && ProperPart(part);
    assert name + "/" + part == path;
    SplitSnoc(name, part);
    DotDotSlashAtTheEnd(name, part);
  }

  lemma RuntimeIsPlain()
    ensures !HasBackslash("runtime") && !HasDotDotSlash("runtime/")
  {
    var path := "runtime/";
    forall i | 0 <= i < |path| ensures !("../" <= path[i..]) {
      assert path[i..][0] == path[i] != '.';
    }
  }

  lemma InScopeIsRuntime(m: Manifest, path: string)
    requires InScope(m, path)
    ensures RUNTIME <= path
  {
    if path == TOPOLOGY {
      assert TOPOLOGY[..8] == RUNTIME;
    } else {
      var node := if m.scope == SingleNode then m.node else (var n :| n in NODES && NodeFile(n, path); n);
      assert path[..8] == ("runtime/" + node + "/")[..8] == RUNTIME;
    }
  }

  /** A directory the reader takes lies in the runtime tree of the destination. */
  lemma ValidDirectoryStaysInside(m: Manifest, name: string, destination: seq<string>)
    requires ValidDirectory(m, name)
    ensures destination + ["runtime"] <= WalkAll(destination, Split(name))
  {
    hide ValidPath, WalkAll, Split, InScope;
    if name == "runtime" {
      SplitPart(name);
      assert ProperPart("runtime");
      ProperWalk(destination, ["runtime"]);
    } else {
      var path := name + "/placeholder";
      assert '/' !in "placeholder" && name + "/" + "placeholder" == path;
      SplitSnoc(name, "placeholder");
      ValidPathIsProper(path);
      FirstPart(path);
      var parts := Split(name);
      assert forall i :: 0 <= i < |parts| ==> Split(path)[i] == parts[i];
      ProperWalk(destination, parts);
      assert parts[0] == "runtime";
    }
  }

  /** A folder whose name ends in two dots can be archived but not read back. */
  lemma DottedFolderIsRefused(m: Manifest, name: string)
    requires |name| >= 2 && name[|name| - 2..] == ".."
    ensures !ValidDirectory(m, name)
  {
    var path := name + "/placeholder";
    var i := |name| - 2;
    assert path[i..] == name[i..] + "/placeholder";
    assert path[i..][..3] == "../";
    assert name[i..][1] == '.' && "runtime"[6] == 'e';
  }

  /**
   What acceptance gives a restore: the regular entries and the manifest's files correspond one to
   one, with equal path, size, mode and digest, and every entry leads into the runtime tree.
   */
  lemma AcceptedEntriesAreTheManifest(env: Env, m: Manifest, items: seq<Item>, destination: seq<string>)
    requires ValidManifest(env, m) && Complete(env, m, items)
    ensures FilesOnly(env, m, items) && AllFiles(env, m, items) && NoNameTwice(items)
    ensures Contained(items, destination)
  {
    hide *;
    EntriesAreFiles(env, m, items);
    FilesAreEntries(env, m, items);
    EntriesDiffer(env, m, items);
    EntriesStayInside(env, m, items, destination);
  }

  lemma EntriesAreFiles(env: Env, m: Manifest, items: seq<Item>)
    requires ValidManifest(env, m) && Complete(env, m, items)
    ensures FilesOnly(env, m, items)
  {
    hide ValidManifest, Complete, GoodFile;
    forall i | 0 <= i < |items| && items[i].kind == Regular ensures GoodFile(env, m, items[i]) {
      RegularIsListed(env, m, items, i);
    }
  }

  lemma FilesAreEntries(env: Env, m: Manifest, items: seq<Item>)
    requires ValidManifest(env, m) && Complete(env, m, items)
    ensures AllFiles(env, m, items)
  {
    hide ValidManifest, Complete, Carries;
    forall f | f in m.files ensures exists i :: 0 <= i < |items| && Carries(env, items[i], f) {
      var i := ListedIsCarried(env, m, items, f);
    }
  }

  lemma EntriesDiffer(env: Env, m: Manifest, items: seq<Item>)
    requires ValidManifest(env, m) && Complete(env, m, items)
    ensures NoNameTwice(items)
  {
    hide ValidManifest, Complete;
    forall i, j | 0 <= i < j < |items| && items[i].kind == items[j].kind == Regular
      ensures items[i].name != items[j].name
    {
      NamesDiffer(env, m, items, i, j);
    }
  }

  lemma EntriesStayInside(env: Env, m: Manifest, items: seq<Item>, destination: seq<string>)
    requires ValidManifest(env, m) && Complete(env, m, items)
    ensures Contained(items, destination)
  {
    hide ValidManifest, Complete, GoodFile, Inside, TrimSlash;
    forall i | 0 <= i < |items|
      ensures items[i].kind == Regular ==> Inside(destination, items[i].name)
      ensures items[i].kind == Directory ==> Inside(destination, TrimSlash(items[i].name))
    {
      if items[i].kind == Regular {
        RegularIsListed(env, m, items, i);
        FileInside(items[i].name, destination);
      } else if items[i].kind == Directory {
        DirectoryIsValid(env, m, items, i);
        DirectoryInside(m, TrimSlash(items[i].name), destination);
      }
    }
  }

  lemma DirectoryInside(m: Manifest, name: string, destination: seq<string>)
    requires ValidDirectory(m, name)
    ensures Inside(destination, name)
  {
    hide ValidDirectory, WalkAll, Split;
    ValidDirectoryStaysInside(m, name, destination);
  }

  lemma FileInside(path: string, destination: seq<string>)
    requires ValidPath(path)
    ensures Inside(destination, path)
  {
    hide ValidPath, WalkAll, Split;
    ValidPathStaysInside(destination, path, path);
  }

  /** Every regular entry carries a file of the manifest. */
  predicate FilesOnly(env: Env, m: Manifest, items: seq<Item>) {
    forall i :: 0 <= i < |items| && items[i].kind == Regular ==> GoodFile(env, m, items[i])
  }

  /** Every file of the manifest is carried by an entry. */
  predicate AllFiles(env: Env, m: Manifest, items: seq<Item>) {
    forall f :: f in m.files ==> exists i :: 0 <= i < |items| && Carries(env, items[i], f)
  }

  predicate NoNameTwice(items: seq<Item>) {
    forall i, j :: 0 <= i < j < |items| && items[i].kind == items[j].kind == Regular ==> items[i].name != items[j].name
  }

  predicate Inside(destination: seq<string>, path: string) {
    destination + ["runtime"] <= WalkAll(destination, Split(path))
  }

  /** Every entry leads into the runtime directory of the destination. */
  predicate Contained(items: seq<Item>, destination: seq<string>) {
    forall i :: 0 <= i < |items| ==>
      && (items[i].kind == Regular ==> Inside(destination, items[i].name))
      && (items[i].kind == Directory ==> Inside(destination, TrimSlash(items[i].name)))
  }

  lemma DirectoryIsValid(env: Env, m: Manifest, items: seq<Item>, i: nat)
    requires Complete(env, m, items) && i < |items| && items[i].kind == Directory
    ensures ValidDirectory(m, TrimSlash(items[i].name))
  {
    hide ValidDirectory, TrimSlash;
    assert GoodItem(env, m, items[i]);
  }

  lemma RegularIsListed(env: Env, m: Manifest, items: seq<Item>, i: nat)
    requires ValidManifest(env, m) && Complete(env, m, items) && i < |items| && items[i].kind == Regular
    ensures GoodFile(env, m, items[i]) && ValidPath(items[i].name)
    ensures exists f :: f in m.files && Carries(env, items[i], f)
  {
    hide ValidManifest, Carries, ValidPath;
    assert GoodItem(env, m, items[i]);
    GoodFileFacts(env, m, items[i]);
  }

  lemma ListedIsCarried(env: Env, m: Manifest, items: seq<Item>, f: File) returns (i: nat)
    requires ValidManifest(env, m) && Complete(env, m, items) && f in m.files
    ensures i < |items| && Carries(env, items[i], f)
  {
    hide ValidManifest, Carries, ValidPath, Matches;
    assert Present(items, f.path);
    i :| 0 <= i < |items| && items[i].kind == Regular && items[i].name == f.path;
    RegularIsListed(env, m, items, i);
    ThatFile(env, m, items[i], f);
  }

  lemma NamesDiffer(env: Env, m: Manifest, items: seq<Item>, i: nat, j: nat)
    requires Complete(env, m, items) && i < j < |items| && items[i].kind == items[j].kind == Regular
    ensures items[i].name != items[j].name
  {
    hide GoodItem;
    assert !Repeats(items[i], items[j]);
  }

  lemma ThatFile(env: Env, m: Manifest, item: Item, f: File)
    requires ValidManifest(env, m) && GoodFile(env, m, item) && f in m.files && f.path == item.name
    ensures Carries(env, item, f)
  {
    hide Carries;
    GoodFileFacts(env, m, item);
    OnlyThatFile(env, m, item);
    var i :| 0 <= i < |m.files| && m.files[i] == f;
    ExpectedIsTheFile(m.files, i);
  }
}
