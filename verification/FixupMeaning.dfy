/**
 What the renumbering of ext4_utils/ext4fixup.c means: a number still names the inode-table slot
 it named before, every path leads where it led, and a second renumbering changes nothing.
 */
module FixupMeaning {
  import opened Arith
  import opened FixupTree
  import opened Options

  lemma AlignUpFits(x: nat, y: nat)
    requires y > 0
    ensures x <= AlignUp(x, y) < x + y
    ensures AlignUp(AlignUp(x, y), y) == AlignUp(x, y)
  {
    var q := (x + y - 1) / y;
    assert x + y - 1 == y * q + (x + y - 1) % y;
    MultipleRoundsToItself(q, y);
  }

  lemma MultipleRoundsToItself(q: nat, y: nat)
    requires y > 0
    ensures (y * q + y - 1) / y == q
  {
    QuotientUnique(y * q + y - 1, y, q, y - 1);
  }

  // Group and offset survive when the inodes per group only grow.
  lemma NewInumKeepsSlot(inum: nat, ipg: nat, newIpg: nat)
    requires 0 < ipg <= newIpg && inum > 0
    ensures NewInum(inum, ipg, newIpg) > 0
    ensures SlotOf(NewInum(inum, ipg, newIpg), newIpg) == SlotOf(inum, ipg)
  {
    var group, offset := (inum - 1) / ipg, (inum - 1) % ipg;
    QuotientUnique(NewInum(inum, ipg, newIpg) - 1, newIpg, group, offset);
  }

  lemma NewInumInjective(a: nat, b: nat, ipg: nat, newIpg: nat)
    requires 0 < ipg <= newIpg && a > 0 && b > 0
    ensures NewInum(a, ipg, newIpg) == NewInum(b, ipg, newIpg) <==> a == b
  {
    NewInumKeepsSlot(a, ipg, newIpg);
    NewInumKeepsSlot(b, ipg, newIpg);
    if NewInum(a, ipg, newIpg) == NewInum(b, ipg, newIpg) {
      assert (a - 1) / ipg == (b - 1) / ipg && (a - 1) % ipg == (b - 1) % ipg;
    }
  }

  lemma NewInumSameIpg(inum: nat, ipg: nat)
    requires ipg > 0 && inum > 0
    ensures NewInum(inum, ipg, ipg) == inum
  {
    assert (inum - 1) / ipg * ipg + (inum - 1) % ipg == inum - 1;
  }

  // The first live entry with the name, as a lookup by name finds it.
  function Lookup(es: seq<Entry>, name: string): (r: Option<Entry>)
    ensures r.Some? ==> r.value.inode > 0
  {
    if |es| == 0 || es[0].inode == 0 then None
    else if es[0].name == name then Some(es[0])
    else Lookup(es[1..], name)
  }

  // The inode-table slot a path leads to from directory s, dots included.
  function Resolve(dirs: map<Slot, Dir>, ipg: nat, s: Slot, path: seq<string>): Option<Slot>
    requires ipg > 0
    decreases |path|
  {
    if |path| == 0 then Some(s)
    else if s !in dirs then None
    else
      match Lookup(dirs[s].entries, path[0])
      case None => None
      case Some(e) => Resolve(dirs, ipg, SlotOf(e.inode, ipg), path[1..])
  }

  // The base as a later run finds it.
  function Renumbered(b: Base, root: Slot): Base
    requires root in b.dirs
  {
    AlignUpFits(b.ipg, b.perBlock);
    Base(RenumberTree(b, root), NewIpg(b), b.perBlock, b.rank)
  }

  lemma {:induction false} LookupRenumber(b: Base, es: seq<Entry>, name: string)
    ensures Lookup(Renumber(b, es), name) ==
            match Lookup(es, name) case None => None case Some(e) => Some(Goal(Updating, b, e))
  {
    if |es| != 0 && es[0].inode != 0 {
      var rest := Renumber(b, es[1..]);
      assert Renumber(b, es)[1..] == rest;
      LookupRenumber(b, es[1..], name);
    }
  }

  lemma {:induction false} LookupFindsLive(es: seq<Entry>, name: string) returns (i: nat)
    requires Lookup(es, name).Some?
    ensures i < Live(es) && es[i] == Lookup(es, name).value
  {
    if es[0].name == name {
      i := 0;
    } else {
      var k := LookupFindsLive(es[1..], name);
      i := k + 1;
    }
  }

  // The directories that a path passes on its way from s are ones the tool reaches.
  predicate Reached(b: Base, root: Slot, s: Slot, path: seq<string>)
    requires root in b.dirs
    decreases |path|
  {
    |path| > 0 && s in b.dirs ==>
      && s in Sub(b, root)
      && match Lookup(b.dirs[s].entries, path[0])
         case None => true
         case Some(e) => Reached(b, root, SlotOf(e.inode, b.ipg), path[1..])
  }

  // No entry of the tree names a directory that the tool does not reach.
  ghost predicate Closed(b: Base, root: Slot)
    requires root in b.dirs
  {
    forall s, i :: s in Sub(b, root) && 0 <= i < Live(b.dirs[s].entries) && Target(b, s, i) in b.dirs ==>
                     Target(b, s, i) in Sub(b, root)
  }

  // Then every path is such a path.
  lemma {:induction false} ClosedReaches(b: Base, root: Slot, s: Slot, path: seq<string>)
    requires root in b.dirs && Closed(b, root)
    requires s in b.dirs ==> s in Sub(b, root)
    ensures Reached(b, root, s, path)
    decreases |path|
  {
    if |path| > 0 && s in b.dirs {
      match Lookup(b.dirs[s].entries, path[0]) {
        case None =>
        case Some(e) =>
          var i := LookupFindsLive(b.dirs[s].entries, path[0]);
          assert Target(b, s, i) == SlotOf(e.inode, b.ipg);
          ClosedReaches(b, root, SlotOf(e.inode, b.ipg), path[1..]);
      }
    }
  }

  // A path leads to the same inode-table slot, read with the new count after the run as
  // with the old count before it.
  lemma {:induction false} PathsKeepMeaning(b: Base, root: Slot, s: Slot, path: seq<string>)
    requires root in b.dirs && Reached(b, root, s, path)
    ensures Resolve(RenumberTree(b, root), NewIpg(b), s, path) == Resolve(b.dirs, b.ipg, s, path)
    decreases |path|
  {
    if |path| > 0 && s in b.dirs {
      LookupRenumber(b, b.dirs[s].entries, path[0]);
      match Lookup(b.dirs[s].entries, path[0]) {
        case None =>
        case Some(e) =>
          AlignUpFits(b.ipg, b.perBlock);
          NewInumKeepsSlot(e.inode, b.ipg, NewIpg(b));
          PathsKeepMeaning(b, root, SlotOf(e.inode, b.ipg), path[1..]);
      }
    }
  }

  lemma DirEntrySame(dirs: map<Slot, Dir>, dirs2: map<Slot, Dir>, ipg: nat, newIpg: nat, e: Entry)
    requires 0 < ipg <= newIpg && 0 < e.inode < MARK && dirs.Keys == dirs2.Keys
    requires NewInum(e.inode, ipg, newIpg) < MARK
    ensures IsDirEntry(dirs2, newIpg, e.(inode := NewInum(e.inode, ipg, newIpg))) == IsDirEntry(dirs, ipg, e)
  {
    NewInumKeepsSlot(e.inode, ipg, newIpg);
  }

  lemma LinksSame(b: Base, root: Slot, s: Slot, i: nat)
    requires root in b.dirs && s in Sub(b, root) && i < Live(b.dirs[s].entries)
    requires b.dirs[s].entries[i].inode < MARK && NewInum(b.dirs[s].entries[i].inode, b.ipg, NewIpg(b)) < MARK
    ensures var b2 := Renumbered(b, root);
            && Live(b2.dirs[s].entries) == Live(b.dirs[s].entries)
            && IsChild(b2, s, i) == IsChild(b, s, i)
            && Target(b2, s, i) == Target(b, s, i)
            && IsLink(b2, s, i) == IsLink(b, s, i)
  {
    hide AlignUp, NewInum;
    var b2 := Renumbered(b, root);
    var e, e2 := b.dirs[s].entries[i], b2.dirs[s].entries[i];
    AlignUpFits(b.ipg, b.perBlock);
    NewInumKeepsSlot(e.inode, b.ipg, NewIpg(b));
    DirEntrySame(b.dirs, b2.dirs, b.ipg, b2.ipg, e);
  }

  lemma {:induction false} SubSame(b: Base, root: Slot, s: Slot)
    requires ProperTree(b, root) && s in Sub(b, root)
    ensures s in Renumbered(b, root).dirs
    ensures Sub(Renumbered(b, root), s) == Sub(b, s)
    decreases Rank(b, s)
  {
    var b2 := Renumbered(b, root);
    AlignUpFits(b.ipg, b.perBlock);
    assert Proper(b, s);
    assert Live(b2.dirs[s].entries) == Live(b.dirs[s].entries);
    forall i | 0 <= i < Live(b.dirs[s].entries)
      ensures IsLink(b2, s, i) == IsLink(b, s, i) && Target(b2, s, i) == Target(b, s, i)
      ensures IsLink(b, s, i) ==> Sub(b2, Target(b, s, i)) == Sub(b, Target(b, s, i))
    {
      LinksSame(b, root, s, i);
      if IsLink(b, s, i) {
        LinkInSub(b, root, s, i);
        SubSame(b, root, Target(b, s, i));
      }
    }
    SubEqual(b, b2, s);
  }

  lemma SubEqual(b: Base, b2: Base, s: Slot)
    requires s in b.dirs && s in b2.dirs && b.rank == b2.rank
    requires |b.dirs[s].entries| == |b2.dirs[s].entries| && Live(b.dirs[s].entries) == Live(b2.dirs[s].entries)
    requires forall i :: 0 <= i < Live(b.dirs[s].entries) ==>
                           && IsLink(b2, s, i) == IsLink(b, s, i) && Target(b2, s, i) == Target(b, s, i)
                           && (IsLink(b, s, i) ==> Sub(b2, Target(b2, s, i)) == Sub(b, Target(b, s, i)))
    ensures Sub(b2, s) == Sub(b, s)
  {
    SubWithin(b, b2, s);
    SubWithin(b2, b, s);
  }

  lemma SubWithin(b: Base, b2: Base, s: Slot)
    requires s in b.dirs && s in b2.dirs
    requires |b.dirs[s].entries| == |b2.dirs[s].entries| && Live(b.dirs[s].entries) == Live(b2.dirs[s].entries)
    requires forall i :: 0 <= i < Live(b.dirs[s].entries) && IsLink(b, s, i) ==>
                           && IsLink(b2, s, i) && Sub(b2, Target(b2, s, i)) == Sub(b, Target(b, s, i))
    ensures Sub(b, s) <= Sub(b2, s)
  {
    hide Live, Target, IsLink, Sub;
    forall t | t in Sub(b, s) ensures t in Sub(b2, s) {
      if t == s {
        InOwnSub(b2, s);
      } else {
        var i := LinkTowards(b, s, t);
        ThroughLink(b2, s, i, t);
      }
    }
  }

  lemma InOwnSub(b: Base, s: Slot)
    requires s in b.dirs
    ensures s in Sub(b, s)
  {
  }

  lemma LinkTowards(b: Base, s: Slot, t: Slot) returns (i: nat)
    requires s in b.dirs && t in Sub(b, s) && t != s
    ensures i < Live(b.dirs[s].entries) && IsLink(b, s, i) && t in Sub(b, Target(b, s, i))
  {
    i :| 0 <= i < |b.dirs[s].entries| && IsLink(b, s, i) && t in Sub(b, Target(b, s, i));
  }

  lemma ThroughLink(b: Base, s: Slot, i: nat, t: Slot)
    requires s in b.dirs && i < |b.dirs[s].entries| && IsLink(b, s, i) && t in Sub(b, Target(b, s, i))
    ensures t in Sub(b, s)
  {
  }

  // A renumbered tree is again one the tool accepts, and renumbering it again changes nothing.
  lemma SecondRunSameNumbers(b: Base, root: Slot)
    requires GoodTree(b, root)
    ensures GoodTree(Renumbered(b, root), root)
    ensures RenumberTree(Renumbered(b, root), root) == RenumberTree(b, root)
    ensures NewIpg(Renumbered(b, root)) == NewIpg(b)
  {
    var b2 := Renumbered(b, root);
    AlignUpFits(b.ipg, b.perBlock);
    SubSame(b, root, root);
    forall s | s in Sub(b, root) ensures Proper(b2, s) && Sane(b2, s) {
      SecondRunDir(b, root, s);
    }
    forall s | s in b2.dirs ensures RenumberTree(b2, root)[s] == b2.dirs[s] {
      RenumberSettled(b2, b2.dirs[s].entries);
    }
  }

  lemma SecondRunDir(b: Base, root: Slot, s: Slot)
    requires GoodTree(b, root) && s in Sub(b, root)
    ensures Proper(Renumbered(b, root), s) && Sane(Renumbered(b, root), s)
  {
    var b2 := Renumbered(b, root);
    AlignUpFits(b.ipg, b.perBlock);
    assert Proper(b, s) && Sane(b, s);
    forall i | 0 <= i < Live(b2.dirs[s].entries)
      ensures IsChild(b2, s, i) == IsChild(b, s, i) && Target(b2, s, i) == Target(b, s, i)
      ensures b2.dirs[s].entries[i].inode < MARK
      ensures NewInum(b2.dirs[s].entries[i].inode, b2.ipg, NewIpg(b2)) < MARK
    {
      LinksSame(b, root, s, i);
      NewInumSameIpg(b2.dirs[s].entries[i].inode, b2.ipg);
    }
  }

  lemma RenumberSettled(b: Base, es: seq<Entry>)
    requires NewIpg(b) == b.ipg
    ensures Renumber(b, es) == es
  {
    forall i | 0 <= i < Live(es) ensures Goal(Updating, b, es[i]) == es[i] {
      NewInumSameIpg(es[i].inode, b.ipg);
    }
  }
}
