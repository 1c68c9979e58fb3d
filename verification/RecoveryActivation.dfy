/**
 Swapping staged node homes into the runtime root, with rollback.  Any file operation may fail; the
 forward operations and the undo operations fail independently.
 */
module RecoveryActivation {
  import opened Basics

  type Name = string

  /** Where something lives: a node's home, its staged copy, its preserved original, or anywhere else. */
  datatype Place = Home(name: Name) | Staged(name: Name) | Kept(name: Name) | Elsewhere(path: string)

  datatype Node = Dir(tree: nat) | NotDir

  type Disk = map<Place, Node>

  /** A recursive removal that fails may have removed a part. */
  datatype Removal = Whole | Partial(left: Node)

  /** Which operations fail; `keep` is what a failed removal of the backup leaves of an original. */
  datatype Faults = Faults(
    mkdir: bool, lookTarget: Name -> bool, lookStaged: Name -> bool, preserve: Name -> bool, activate: Name -> bool,
    undo: Name -> bool, remove: Name -> Removal, restore: Name -> bool, keep: Name -> Option<Node>)

  // ---------------------------------------------------------------- file operations

  predicate RealDirectory(d: Disk, p: Place) { p in d && d[p].Dir? }

  predicate CanRename(d: Disk, from: Place, to: Place, fault: bool) { !fault && from in d && to !in d }

  function Renamed(d: Disk, from: Place, to: Place, fault: bool): Disk {
    if CanRename(d, from, to, fault) then (d - {from})[to := d[from]] else d
  }

  function Removed(d: Disk, p: Place, removal: Removal): Disk {
    if removal.Whole? then d - {p} else if p in d then d[p := removal.left] else d
  }

  /** The deferred removal of the backup directory. */
  function WithoutBackup(d: Disk, faults: Faults): Disk {
    map p | p in d && (p.Kept? ==> faults.keep(p.name).Some?) :: if p.Kept? then faults.keep(p.name).value else d[p]
  }

  // ---------------------------------------------------------------- what the procedure does

  /** Undo one activated name. */
  function RolledBack(d: Disk, name: Name, faults: Faults): Disk {
    Renamed(Removed(d, Home(name), faults.remove(name)), Kept(name), Home(name), faults.restore(name))
  }

  /** `rollback`: the activated names, last first. */
  function AllRolledBack(d: Disk, activated: seq<Name>, faults: Faults): Disk
    decreases |activated|
  {
    if activated == [] then d else
      var last := |activated| - 1;
      AllRolledBack(RolledBack(d, activated[last], faults), activated[..last], faults)
  }

  /** The loop over the names, from a point where some are active already. */
  function Swapped(d: Disk, names: seq<Name>, activated: seq<Name>, faults: Faults): (Disk, bool)
    decreases |names|
  {
    if names == [] then (d, true) else
      var n := names[0];
      if faults.lookTarget(n) || !RealDirectory(d, Home(n)) || faults.lookStaged(n) || !RealDirectory(d, Staged(n)) then
        (AllRolledBack(d, activated, faults), false)
      else if !CanRename(d, Home(n), Kept(n), faults.preserve(n)) then (AllRolledBack(d, activated, faults), false)
      else
        var preserved := Renamed(d, Home(n), Kept(n), faults.preserve(n));
        if !CanRename(preserved, Staged(n), Home(n), faults.activate(n)) then
          (AllRolledBack(Renamed(preserved, Kept(n), Home(n), faults.undo(n)), activated, faults), false)
        else Swapped(Renamed(preserved, Staged(n), Home(n), faults.activate(n)), names[1..], activated + [n], faults)
  }

  function Outcome(d: Disk, names: seq<Name>, faults: Faults): (Disk, bool) {
    if faults.mkdir then (d, false) else
      var (end, ok) := Swapped(d, names, [], faults);
      (WithoutBackup(end, faults), ok)
  }

  class FileSystem {
    var disk: Disk

    constructor (disk: Disk)
      ensures this.disk == disk
    {
      this.disk := disk;
    }

    method Rename(from: Place, to: Place, fault: bool) returns (ok: bool)
      modifies this
      ensures ok <==> CanRename(old(disk), from, to, fault)
      ensures disk == Renamed(old(disk), from, to, fault)
    {
      ok := !fault && from in disk && to !in disk;
      if ok {
        disk := (disk - {from})[to := disk[from]];
      }
    }

    method Rollback(activated: seq<Name>, faults: Faults)
      modifies this
      ensures disk == AllRolledBack(old(disk), activated, faults)
    {
      var index := |activated|;
      assert activated[..index] == activated;
      while index > 0
        invariant 0 <= index <= |activated|
        invariant AllRolledBack(disk, activated[..index], faults) == AllRolledBack(old(disk), activated, faults)
      {
        index := index - 1;
        assert activated[..index + 1][..index] == activated[..index];
        var name := activated[index];
        var removal := faults.remove(name);
        if removal.Whole? {
          disk := disk - {Home(name)};
        } else if Home(name) in disk {
          disk := disk[Home(name) := removal.left];
        }
        var _ := Rename(Kept(name), Home(name), faults.restore(name));
      }
    }

    /** `activateRecoveryNodes`. */
    method Activate(names: seq<Name>, faults: Faults) returns (ok: bool)
      modifies this
      ensures (disk, ok) == Outcome(old(disk), names, faults)
    {
      if faults.mkdir {
        return false;
      }
      ok := ActivateAll(names, faults);
      var left := WithoutBackup(disk, faults);
      disk := left;
    }

    method ActivateAll(names: seq<Name>, faults: Faults) returns (ok: bool)
      modifies this
      ensures (disk, ok) == Swapped(old(disk), names, [], faults)
    {
      var activated: seq<Name> := [];
      var i := 0;
      while i < |names|
        invariant 0 <= i <= |names|
        invariant Swapped(disk, names[i..], activated, faults) == Swapped(old(disk), names, [], faults)
      {
        var name := names[i];
        assert names[i..][1..] == names[i + 1..];
        if faults.lookTarget(name) || !(Home(name) in disk && disk[Home(name)].Dir?) {
          Rollback(activated, faults);
          return false;
        }
        if faults.lookStaged(name) || !(Staged(name) in disk && disk[Staged(name)].Dir?) {
          Rollback(activated, faults);
          return false;
        }
        var preserved := Rename(Home(name), Kept(name), faults.preserve(name));
        if !preserved {
          Rollback(activated, faults);
          return false;
        }
        var active := Rename(Staged(name), Home(name), faults.activate(name));
        if !active {
          var _ := Rename(Kept(name), Home(name), faults.undo(name));
          Rollback(activated, faults);
          return false;
        }
        activated := activated + [name];
        i := i + 1;
      }
      assert names[i..] == [];
      return true;
    }
  }

  // ---------------------------------------------------------------- rollback

  predicate Distinct(names: seq<Name>) { forall i, j :: 0 <= i < j < |names| ==> names[i] != names[j] }

  /** A place holds what it held, or still nothing. */
  predicate Same(start: Disk, d: Disk, p: Place) { (p in start <==> p in d) && (p in start ==> d[p] == start[p]) }

  predicate Belongs(p: Place, names: seq<Name>) { !p.Elsewhere? && p.name in names }

  predicate Undoable(faults: Faults, n: Name) { faults.remove(n).Whole? && !faults.restore(n) }

  /** Rollback stays with the homes and originals of the names it undoes. */
  lemma {:induction false} RollbackStays(d: Disk, activated: seq<Name>, faults: Faults, p: Place)
    requires p.Staged? || !Belongs(p, activated)
    ensures Same(d, AllRolledBack(d, activated, faults), p)
    decreases |activated|
  {
    if activated == [] {
    } else {
      var last := |activated| - 1;
      assert activated[last] in activated;
      var t := RolledBack(d, activated[last], faults);
      assert Same(d, t, p);
      RollbackStays(t, activated[..last], faults, p);
    }
  }

  /** A home gets its original back exactly if its own two undo operations work. */
  lemma {:induction false} HomeAfterRollback(d: Disk, activated: seq<Name>, faults: Faults, n: Name)
    requires Distinct(activated) && n in activated && Home(n) in d && Kept(n) in d
    ensures var r := AllRolledBack(d, activated, faults);
            if Undoable(faults, n) then Home(n) in r && r[Home(n)] == d[Kept(n)]
            else Home(n) !in r || faults.remove(n) == Partial(r[Home(n)])
    decreases |activated|
  {
    var last := |activated| - 1;
    var rest, m := activated[..last], activated[last];
    var t := RolledBack(d, m, faults);
    if n == m {
      RollbackStays(t, rest, faults, Home(n));
    } else {
      assert n in rest;
      assert Same(d, t, Home(n)) && Same(d, t, Kept(n));
      HomeAfterRollback(t, rest, faults, n);
    }
  }

  // ---------------------------------------------------------------- the loop

  /** In the middle of a swap: activated names are exchanged, everything else is as it was. */
  ghost predicate Midway(start: Disk, d: Disk, activated: seq<Name>) {
    && Distinct(activated)
    && (forall n :: n in activated ==> Exchanged(start, d, n))
    && (forall p: Place :: !Belongs(p, activated) ==> Same(start, d, p))
  }

  predicate Exchanged(start: Disk, d: Disk, n: Name) {
    && Home(n) in start && Staged(n) in start && Home(n) in d && d[Home(n)] == start[Staged(n)]
    && Kept(n) in d && d[Kept(n)] == start[Home(n)] && Staged(n) !in d
  }

  ghost predicate NothingKept(d: Disk) { forall n :: Kept(n) !in d }

  /** The checks that let a name be exchanged. */
  predicate Passes(d: Disk, n: Name, faults: Faults) {
    && !faults.lookTarget(n) && RealDirectory(d, Home(n)) && !faults.lookStaged(n) && RealDirectory(d, Staged(n))
    && CanRename(d, Home(n), Kept(n), faults.preserve(n))
  }

  function Exchange(d: Disk, n: Name): Disk
    requires Home(n) in d && Staged(n) in d
  {
    (d - {Home(n), Staged(n)})[Kept(n) := d[Home(n)]][Home(n) := d[Staged(n)]]
  }

  /** One turn of the loop. */
  lemma SwapStep(d: Disk, names: seq<Name>, activated: seq<Name>, faults: Faults)
    requires names != []
    ensures var n := names[0];
            Swapped(d, names, activated, faults) ==
            if !Passes(d, n, faults) then (AllRolledBack(d, activated, faults), false)
            else if faults.activate(n) then
              (AllRolledBack(if faults.undo(n) then (d - {Home(n)})[Kept(n) := d[Home(n)]] else d, activated, faults),
                  false)
            else Swapped(Exchange(d, n), names[1..], activated + [n], faults)
  {
    var n := names[0];
    if Passes(d, n, faults) {
      var preserved := Renamed(d, Home(n), Kept(n), faults.preserve(n));
      assert preserved == (d - {Home(n)})[Kept(n) := d[Home(n)]];
      assert Renamed(preserved, Staged(n), Home(n), false) == Exchange(d, n);
      assert Renamed(preserved, Kept(n), Home(n), false) == d;
    }
  }

  lemma ExchangeIsMidway(start: Disk, d: Disk, activated: seq<Name>, n: Name)
    requires Midway(start, d, activated) && Home(n) in d && Staged(n) in d && Kept(n) !in d
    ensures Midway(start, Exchange(d, n), activated + [n])
  {
    var e, all := Exchange(d, n), activated + [n];
    assert n !in activated;
    assert Same(start, d, Home(n)) && Same(start, d, Staged(n));
    forall m | m in all ensures Exchanged(start, e, m) {
      if m != n {
        assert m in activated;
        assert Exchanged(start, d, m);
      }
    }
    forall p: Place | !Belongs(p, all) ensures Same(start, e, p) {
      assert n in all;
      assert forall m :: m in activated ==> m in all;
      assert Same(start, d, p);
    }
  }

  /** Which undo operations matter: those that a failing swap runs. */
  predicate UndoWorks(d: Disk, names: seq<Name>, activated: seq<Name>, faults: Faults)
    decreases |names|
  {
    names == [] ||
    var n := names[0];
    if !Passes(d, n, faults) then forall m :: m in activated ==> Undoable(faults, m)
    else if faults.activate(n) then !faults.undo(n) && forall m :: m in activated ==> Undoable(faults, m)
    else UndoWorks(Exchange(d, n), names[1..], activated + [n], faults)
  }

  /** Every home is what it was, and so is everything that has nothing to do with the names. */
  ghost predicate Untouched(start: Disk, d: Disk, names: seq<Name>) {
    forall p: Place :: !p.Kept? && (p.Home? || !Belongs(p, names)) ==> Same(start, d, p)
  }

  /** What a failed removal leaves of a staged home is not by chance the original home. */
  predicate Telling(start: Disk, names: seq<Name>, faults: Faults) {
    forall n :: n in names && Home(n) in start ==> faults.remove(n) != Partial(start[Home(n)])
  }

  lemma RollbackFromMidway(start: Disk, d: Disk, activated: seq<Name>, names: seq<Name>, faults: Faults)
    requires Midway(start, d, activated) && forall n :: n in activated ==> n in names
    ensures (forall m :: m in activated ==> Undoable(faults, m)) ==>
              Untouched(start, AllRolledBack(d, activated, faults), names)
    ensures Telling(start, names, faults) && Untouched(start, AllRolledBack(d, activated, faults), names) ==>
              forall m :: m in activated ==> Undoable(faults, m)
  {
    hide AllRolledBack, Undoable;
    var r := AllRolledBack(d, activated, faults);
    if forall m :: m in activated ==> Undoable(faults, m) {
      forall p: Place | !p.Kept? && (p.Home? || !Belongs(p, names)) ensures Same(start, r, p) {
        if Belongs(p, activated) {
          assert Exchanged(start, d, p.name);
          HomeAfterRollback(d, activated, faults, p.name);
        } else {
          RollbackStays(d, activated, faults, p);
          assert Same(start, d, p);
        }
      }
    }
    if Telling(start, names, faults) && Untouched(start, r, names) {
      forall m | m in activated ensures Undoable(faults, m) {
        assert Exchanged(start, d, m);
        assert Same(start, r, Home(m));
        HomeAfterRollback(d, activated, faults, m);
      }
    }
  }

  /** A home whose activation failed and whose original could not be moved back is gone. */
  lemma FailedUndoLosesHome(start: Disk, d: Disk, activated: seq<Name>, n: Name, faults: Faults)
    requires Midway(start, d, activated) && Home(n) in d && Staged(n) in d && Kept(n) !in d
    ensures Home(n) in start && Home(n) !in AllRolledBack((d - {Home(n)})[Kept(n) := d[Home(n)]], activated, faults)
  {
    hide AllRolledBack;
    assert n !in activated;
    assert Same(start, d, Home(n));
    RollbackStays((d - {Home(n)})[Kept(n) := d[Home(n)]], activated, faults, Home(n));
  }

  /** How the loop ends, from any point of a swap. */
  lemma {:induction false} SwapEnds(start: Disk, d: Disk, names: seq<Name>, activated: seq<Name>, all: seq<Name>,
      faults: Faults)
    requires Midway(start, d, activated) && NothingKept(start) && all == activated + names
    ensures var (e, ok) := Swapped(d, names, activated, faults);
            && (ok ==> Midway(start, e, all))
            && (!ok && UndoWorks(d, names, activated, faults) ==> Untouched(start, e, all))
            && (!ok && Telling(start, all, faults) && Untouched(start, e, all) ==>
                 UndoWorks(d, names, activated, faults))
    decreases |names|
  {
    hide Swapped, AllRolledBack, Midway, Untouched, Telling;
    if names == [] {
      assert all == activated;
      SwapNothing(d, activated, faults);
    } else {
      var n := names[0];
      SwapStep(d, names, activated, faults);
      assert forall m :: m in activated ==> m in all;
      if !Passes(d, n, faults) {
        RollbackFromMidway(start, d, activated, all, faults);
      } else if faults.activate(n) {
        assert n in names && n in all;
        if faults.undo(n) {
          FailedUndoLosesHome(start, d, activated, n, faults);
          HomeIsGone(start, Swapped(d, names, activated, faults).0, all, n);
        } else {
          RollbackFromMidway(start, d, activated, all, faults);
        }
      } else {
        ExchangeIsMidway(start, d, activated, n);
        assert all == activated + [n] + names[1..];
        SwapEnds(start, Exchange(d, n), names[1..], activated + [n], all, faults);
      }
    }
  }

  lemma SwapNothing(d: Disk, activated: seq<Name>, faults: Faults)
    ensures Swapped(d, [], activated, faults) == (d, true)
  {
  }

  lemma HomeIsGone(start: Disk, e: Disk, names: seq<Name>, n: Name)
    requires Home(n) in start && Home(n) !in e
    ensures !Untouched(start, e, names)
  {
    assert !Same(start, e, Home(n));
  }

  // ---------------------------------------------------------------- all or nothing

  /** Every staged home is installed, and nothing else changed. */
  ghost predicate Installed(start: Disk, end: Disk, names: seq<Name>) {
    && (forall n :: n in names ==>
         Staged(n) in start && Home(n) in end && end[Home(n)] == start[Staged(n)] && Staged(n) !in end)
    && (forall p: Place :: !Belongs(p, names) ==> Same(start, end, p))
  }

  /**
   Restore atomicity, for any names and any failures of forward operations: success installs every
   staged home; failure leaves every original home exactly if the undo operations it ran worked.
   Where one does not, the original is deleted with the backup, unless that removal fails too.
   */
  lemma AllOrNothing(start: Disk, names: seq<Name>, faults: Faults)
    requires NothingKept(start)
    ensures var (end, ok) := Outcome(start, names, faults);
            var undone := faults.mkdir || UndoWorks(start, names, [], faults);
            && (ok ==> Distinct(names) && Installed(start, end, names))
            && (!ok && undone ==> Untouched(start, end, names))
            && (!ok && Telling(start, names, faults) && Untouched(start, end, names) ==> undone)
            && (forall n :: Kept(n) in end ==> faults.keep(n) == Some(end[Kept(n)]))
  {
    hide Swapped, UndoWorks, Telling;
    if faults.mkdir {
      return;
    }
    assert Midway(start, start, []);
    assert names == [] + names;
    SwapEnds(start, start, names, [], names, faults);
    var (e, ok) := Swapped(start, names, [], faults);
    var end := WithoutBackup(e, faults);
    if ok {
      forall n | n in names
        ensures Home(n) in end && end[Home(n)] == start[Staged(n)] && Staged(n) !in end && Staged(n) in start
      {
        assert Exchanged(start, e, n);
      }
      forall p: Place | !Belongs(p, names) ensures Same(start, end, p) {
        assert Same(start, e, p);
      }
    } else {
      CleanupKeepsVerdict(start, e, names, faults);
    }
  }

  lemma CleanupKeepsVerdict(start: Disk, e: Disk, names: seq<Name>, faults: Faults)
    ensures Untouched(start, e, names) <==> Untouched(start, WithoutBackup(e, faults), names)
  {
    var end := WithoutBackup(e, faults);
    forall p: Place | !p.Kept? ensures Same(start, e, p) <==> Same(start, end, p) {
    }
  }

  /** Whatever fails, paths that have nothing to do with the names are never touched. */
  lemma NoOtherPathIsTouched(start: Disk, names: seq<Name>, faults: Faults, p: Place)
    requires !p.Kept? && !Belongs(p, names)
    ensures Same(start, Outcome(start, names, faults).0, p)
  {
    if !faults.mkdir {
      SwapStays(start, names, [], names, faults, p);
    }
  }

  lemma {:induction false} SwapStays(d: Disk, names: seq<Name>, activated: seq<Name>, all: seq<Name>, faults: Faults,
      p: Place)
    requires !Belongs(p, all) && all == activated + names
    ensures Same(d, Swapped(d, names, activated, faults).0, p)
    decreases |names|
  {
    hide Swapped, AllRolledBack;
    assert !Belongs(p, activated);
    if names == [] {
      SwapNothing(d, activated, faults);
    } else {
      var n := names[0];
      assert n in names && n in all;
      SwapStep(d, names, activated, faults);
      if !Passes(d, n, faults) {
        RollbackStays(d, activated, faults, p);
      } else if faults.activate(n) {
        RollbackStays(if faults.undo(n) then (d - {Home(n)})[Kept(n) := d[Home(n)]] else d, activated, faults, p);
      } else {
        assert all == activated + [n] + names[1..];
        SwapStays(Exchange(d, n), names[1..], activated + [n], all, faults, p);
      }
    }
  }
}
