/**
 The restartable on-disk protocol of ext4_utils/ext4fixup.c: mark every inode number, update every
 marked number, update the superblocks and group descriptors. A run may lose power before any of
 its writes; the next run finds only what reached the disk.
 */
module Fixup {
  import opened FixupTree
  import opened FixupMeaning
  import opened FixupDisk
  import opened FixupWrites

  // What one run does, as far as the next one is concerned.
  predicate Ran(g: Geometry, base: Disk, before: Disk, d: Disk, r: Outcome)
    requires Acceptable(g, base)
  {
    && (r.Refused? <==> !SaneDisk(g, base))
    && (r.Refused? ==> d == before)
    && (r.Finished? ==> d == Fixed(g, base, Torn(base, before)))
    && (r.PowerLost? ==>
          || (DiskInv(g, base, d) && (Torn(base, before) ==> Torn(base, d)))
          || (Quiet(d) == Fixed(g, base, Torn(base, before)) && StateOf(d.magic).Unset?))
  }

  class Device {
    const g: Geometry
    var disk: Disk
    var power: Power

    constructor (g: Geometry, disk: Disk, power: Power)
      ensures this.g == g && this.disk == disk && this.power == power
    {
      this.g, this.disk, this.power := g, disk, power;
    }

    // Draws the power for one write.
    method Spend() returns (alive: bool)
      modifies this`power
      ensures alive == (old(power).Mains? || old(power).writes > 0)
      ensures power == match old(power)
                       case Mains => Mains
                       case Battery(n) => Battery(if n > 0 then n - 1 else 0)
    {
      match power {
        case Mains => alive := true;
        case Battery(n) =>
          alive := n > 0;
          power := Battery(if n > 0 then n - 1 else 0);
      }
    }

    // One write, if there is power for it.
    method Put(w: Write) returns (alive: bool)
      modifies this
      ensures disk == if alive then Apply(old(disk), w) else old(disk)
      ensures Performed(old(disk), old(power), disk, power, [w], alive)
    {
      PerformedOne(disk, power, w);
      alive := Spend();
      if alive {
        disk := Apply(disk, w);
      }
    }

    // The first recursion, which writes nothing and finds the entries that are not what they say.
    method SanityPass(slot: Slot) returns (ok: bool)
      requires g.perBlock > 0 && disk.sb.ipg > 0 && slot in disk.dirs
      requires forall s :: s in Sub(BaseOf(g, disk), slot) ==> Proper(BaseOf(g, disk), s)
      ensures ok <==> SaneTree(BaseOf(g, disk), slot)
      decreases Rank(BaseOf(g, disk), slot)
    {
      ghost var b := BaseOf(g, disk);
      var es := disk.dirs[slot].entries;
      var i := 0;
      assert Proper(b, slot);
      while i < |es| && es[i].inode != 0
        invariant 0 <= i <= Live(es)
        invariant forall j :: 0 <= j < i && IsChild(b, slot, j) ==> IsLink(b, slot, j) && SaneTree(b, Target(b, slot, j))
      {
        var e := es[i];
        if IsDirEntry(disk.dirs, disk.sb.ipg, e) && !IsDot(e) {
          var t := SlotOf(Bare(e.inode), disk.sb.ipg);
          assert IsChild(b, slot, i) && t == Target(b, slot, i);
          if t !in disk.dirs {
            assert !Sane(b, slot);
            return false;
          }
          LinkInSub(b, slot, slot, i);
          ok := SanityPass(t);
          if !ok {
            if SaneTree(b, slot) {
              SaneBelow(b, slot, i);
            }
            return false;
          }
        }
        i := i + 1;
      }
      assert Sane(b, slot);
      SaneFromLinks(b, slot);
      return true;
    }

    // One recursion of the marking or the updating pass. `base` is what the disk held when the tool
    // was first started on it, `top` the directory the pass began at.
    method RecurseDir(p: Pass, slot: Slot, ipg: nat, ghost base: Base, ghost top: Slot) returns (alive: bool)
      requires GoodTree(base, top) && slot in Sub(base, top)
      requires base.ipg == ipg && base.perBlock == g.perBlock && base.rank == g.rank
      requires PassInv(p, base, top, disk.dirs)
      modifies this
      ensures disk == old(disk).(dirs := disk.dirs)
      ensures Performed(old(disk), old(power), disk, power, DirWrites(p, g, ipg, old(disk), slot), alive)
      ensures Walked(p, base, top, Outside(base, slot), old(disk.dirs), disk.dirs)
      ensures alive ==> SubDone(p, base, disk.dirs, slot)
      decreases Rank(base, slot), 2
    {
      hide Performed, EntryWrites, BlockWrites, NewEntries, GoodTree, PassInv, Walked, SubDone, BufferReady, TailKept, Proper,
           SameShape, DirInv, Sane;
      RecursionStarts(p, base, top, slot, disk.dirs);
      EndsKept(base, disk.dirs, slot);
      ghost var first, es, ends := disk.dirs, disk.dirs[slot].entries, disk.dirs[slot].ends;
      ghost var above := EntryWrites(p, g, ipg, disk, slot, es, 0);
      ghost var blocks := BlockWrites(slot, NewEntries(p, g.perBlock, ipg, es), ends, |ends|);
      var buf;
      alive, buf := HandleEntries(p, slot, ipg, base, top);
      ghost var mid, left := disk, power;
      if !alive {
        PerformedPart(old(disk), old(power), disk, power, above, blocks);
      } else {
        WalkedKeeps(p, base, top, Outside(base, slot) + {slot}, first, disk.dirs);
        RecursionStarts(p, base, top, slot, disk.dirs);
        alive := WriteBack(p, slot, buf, base, top);
        PerformedThen(old(disk), old(power), mid, left, disk, power, above, blocks, alive);
      }
      RecursionWalked(p, base, top, slot, first, mid.dirs, disk.dirs);
    }

    // Reads a directory and deals with its entries in order, up to the first free one.
    method HandleEntries(p: Pass, slot: Slot, ipg: nat, ghost base: Base, ghost top: Slot)
      returns (alive: bool, buf: seq<Entry>)
      requires GoodTree(base, top) && slot in Sub(base, top)
      requires base.ipg == ipg && base.perBlock == g.perBlock && base.rank == g.rank
      requires PassInv(p, base, top, disk.dirs)
      modifies this
      ensures disk == old(disk).(dirs := disk.dirs)
      ensures slot in old(disk).dirs
      ensures Performed(old(disk), old(power), disk, power,
                        EntryWrites(p, g, ipg, old(disk), slot, old(disk).dirs[slot].entries, 0), alive)
      ensures alive ==> buf == NewEntries(p, g.perBlock, ipg, old(disk).dirs[slot].entries)
      ensures Walked(p, base, top, Outside(base, slot) + {slot}, old(disk.dirs), disk.dirs)
      ensures alive ==> BufferReady(p, base, disk.dirs, slot, buf, |buf|) && TailKept(base, slot, buf)
      decreases Rank(base, slot), 1
    {
      hide *;
      ghost var first := disk.dirs;
      RecursionStarts(p, base, top, slot, first);
      PartHandledStarts(p, base, top, slot, first);
      buf := disk.dirs[slot].entries;
      var i := 0;
      ghost var es, done := buf, [];
      ghost var total := EntryWrites(p, g, ipg, disk, slot, es, 0);
      PerformedNone(disk, power);
      PartNewStarts(p, g.perBlock, ipg, es);
      while i < |buf| && buf[i].inode != 0
        invariant 0 <= i <= |buf| == |es|
        invariant disk == old(disk).(dirs := disk.dirs)
        invariant PartHandled(p, base, top, slot, buf, first, disk.dirs, i)
        invariant Performed(old(disk), old(power), disk, power, done, true)
        invariant total == done + EntryWrites(p, g, ipg, disk, slot, es, i)
        invariant PartNew(p, g.perBlock, ipg, es, buf, i)
      {
        PartNewHere(p, g.perBlock, ipg, es, buf, i);
        PartHandledHere(p, base, top, slot, buf, first, disk.dirs, i);
        ghost var mid, left, below := disk, power, BelowEntry(p, g, ipg, disk, slot, es[i]);
        EntryWritesNext(p, g, ipg, disk, slot, es, i, done, total);
        var e;
        alive, e := HandleEntry(p, slot, i, ipg, base, top);
        PerformedThen(old(disk), old(power), mid, left, disk, power, done, below, alive);
        if !alive {
          ghost var rest := EntryWrites(p, g, ipg, ApplyAll(mid, below), slot, es, i + 1);
          Interrupted(old(disk), old(power), disk, power, done + below, rest, total);
          PartHandledCut(p, base, top, slot, buf, first, mid.dirs, disk.dirs, i);
          return;
        }
        PartHandledNext(p, base, top, slot, buf, first, mid.dirs, disk.dirs, i, e);
        PerformedAll(mid, left, disk, power, below);
        PartNewNext(p, g.perBlock, ipg, es, buf, i, e);
        done := done + below;
        buf := buf[i := e];
        i := i + 1;
      }
      alive := true;
      PartNewEnds(p, g.perBlock, ipg, es, buf, i);
      NoEntriesLeft(p, g, ipg, disk, slot, es, i);
      assert total == done;
      PartHandledEnds(p, base, top, slot, buf, first, disk.dirs, i);
    }

    // Deals with one entry of a directory: whatever lies below it first, then the number itself.
    method HandleEntry(p: Pass, slot: Slot, i: nat, ipg: nat, ghost base: Base, ghost top: Slot)
      returns (alive: bool, e: Entry)
      requires GoodTree(base, top) && slot in Sub(base, top)
      requires base.ipg == ipg && base.perBlock == g.perBlock && base.rank == g.rank
      requires PassInv(p, base, top, disk.dirs)
      requires i < |disk.dirs[slot].entries| && i <= Live(base.dirs[slot].entries)
      requires disk.dirs[slot].entries[i].inode != 0
      modifies this
      ensures disk == old(disk).(dirs := disk.dirs)
      ensures Performed(old(disk), old(power), disk, power,
                        BelowEntry(p, g, ipg, old(disk), slot, old(disk).dirs[slot].entries[i]), alive)
      ensures alive ==> e == NewEntry(p, g.perBlock, ipg, old(disk).dirs[slot].entries[i])
      ensures Walked(p, base, top, Outside(base, slot) + {slot}, old(disk.dirs), disk.dirs)
      ensures i < Live(base.dirs[slot].entries)
      ensures alive ==> e == Goal(p, base, base.dirs[slot].entries[i])
      ensures alive && IsLink(base, slot, i) ==> SubDone(p, base, disk.dirs, Target(base, slot, i))
      decreases Rank(base, slot), 0
    {
      hide Performed, DirWrites, GoodTree, PassInv, Walked, SubDone, DirInv, Live, Proper, Sane;
      ghost var first := disk.dirs;
      RecursionStarts(p, base, top, slot, first);
      NotWalked(p, base, top, slot, first);
      e := disk.dirs[slot].entries[i];
      alive := true;
      PerformedNone(disk, power);
      EntryReads(p, base, disk.dirs, slot, i);
      if p.Marking? || Marked(e.inode) {
        if IsDirEntry(disk.dirs, ipg, e) && !IsDot(e) {
          var t := SlotOf(Bare(e.inode), ipg);
          OutsideGrows(base, top, slot, i);
          alive := RecurseDir(p, t, ipg, base, top);
          ChildWalked(p, base, top, slot, i, first, disk.dirs);
        }
        e := e.(inode := if p.Marking? then Mark(e.inode)
                         else NewInum(Bare(e.inode), ipg, AlignUp(ipg, g.perBlock)));
      }
    }

    // Writes the buffered directory back, block by block.
    method WriteBack(p: Pass, slot: Slot, buf: seq<Entry>, ghost base: Base, ghost top: Slot) returns (alive: bool)
      requires top in base.dirs && slot in Sub(base, top) && PassInv(p, base, top, disk.dirs)
      requires Proper(base, slot) && SameShape(base, disk.dirs, slot)
      requires BufferReady(p, base, disk.dirs, slot, buf, |buf|) && TailKept(base, slot, buf)
      modifies this
      ensures disk == old(disk).(dirs := disk.dirs)
      ensures Performed(old(disk), old(power), disk, power,
                        BlockWrites(slot, buf, base.dirs[slot].ends, |base.dirs[slot].ends|), alive)
      ensures Walked(p, base, top, base.dirs.Keys - {slot}, old(disk.dirs), disk.dirs)
      ensures alive ==> SubDone(p, base, disk.dirs, slot)
    {
      hide Performed, PassInv, SubDone, BufferReady, TailKept, PartWritten, Walked, Live, WriteRange, Sub;
      PerformedNone(disk, power);
      var ends := disk.dirs[slot].ends;
      ghost var first := disk.dirs;
      PartWrittenStarts(p, base, top, slot, buf, first);
      WholeDir(base, slot, buf);
      var k, lo := 0, 0;
      while k < |ends|
        invariant 0 <= k <= |ends| && lo == (if k == 0 then 0 else ends[k - 1])
        invariant disk == old(disk).(dirs := disk.dirs)
        invariant Performed(old(disk), old(power), disk, power, BlockWrites(slot, buf, ends, k), true)
        invariant PartWritten(p, base, top, slot, buf, first, disk.dirs, lo)
      {
        BlockInDir(base, slot, k);
        ghost var mid, left := disk, power;
        PartWrittenNext(p, base, top, slot, buf, first, disk.dirs, lo, ends[k]);
        alive := Put(WriteDir(slot, buf, lo, ends[k]));
        PerformedThen(old(disk), old(power), mid, left, disk, power, BlockWrites(slot, buf, ends, k),
                      [WriteDir(slot, buf, lo, ends[k])], alive);
        if !alive {
          ghost var rest := BlocksRest(slot, buf, ends, k + 1);
          PerformedPart(old(disk), old(power), disk, power, BlockWrites(slot, buf, ends, k + 1), rest);
          PartWrittenWalked(p, base, top, slot, buf, first, disk.dirs, lo);
          return;
        }
        lo := ends[k];
        k := k + 1;
      }
      alive := true;
      PartWrittenWalked(p, base, top, slot, buf, first, disk.dirs, lo);
      PartWrittenEnds(p, base, top, slot, buf, first, disk.dirs);
    }

    // Records the state, then the mount bit that goes with it.
    method SetState(st: State) returns (alive: bool)
      modifies this
      ensures Performed(old(disk), old(power), disk, power, StateWrites(st), alive)
      ensures Quiet(disk) == Quiet(old(disk))
      ensures alive ==> disk.magic == MagicOf(st) && disk.sb.busy == !st.Unset?
      ensures disk.magic == MagicOf(st) || disk.magic == old(disk).magic
    {
      hide Performed;
      assert [WriteMagic(MagicOf(st))] + [WriteBusy(!st.Unset?)] == StateWrites(st);
      alive := Put(WriteMagic(MagicOf(st)));
      if !alive {
        PerformedPart(old(disk), old(power), disk, power, [WriteMagic(MagicOf(st))], [WriteBusy(!st.Unset?)]);
        return;
      }
      ghost var mid, left := disk, power;
      alive := Put(WriteBusy(!st.Unset?));
      PerformedThen(old(disk), old(power), mid, left, disk, power, [WriteMagic(MagicOf(st))], [WriteBusy(!st.Unset?)], alive);
    }

    // Moves to a state that the disk is ready for; it is one a later run can start from throughout.
    method Advance(st: State, ghost base: Disk) returns (alive: bool)
      requires Acceptable(g, base) && DiskInv(g, base, disk) && Content(g, base, disk, st)
      modifies this
      ensures Performed(old(disk), old(power), disk, power, StateWrites(st), alive)
      ensures DiskInv(g, base, disk) && Torn(base, disk) == Torn(base, old(disk))
      ensures StateOf(disk.magic) == st || StateOf(disk.magic) == StateOf(old(disk).magic)
      ensures alive ==> StateOf(disk.magic) == st
    {
      alive := SetState(st);
      ContentQuiet(g, base, old(disk), disk, st);
      ContentQuiet(g, base, old(disk), disk, StateOf(old(disk).magic));
    }

    // Clears the inode-bitmap bits between the old and the new size of every group.
    method CheckInodeBitmaps(newIpg: nat, ghost base: Disk) returns (alive: bool)
      requires g.perBlock > 0 && newIpg == GrownIpg(g, base.sb) && BitmapsBetween(g, base, disk)
      requires disk.sb.ipg == base.sb.ipg || (disk.sb.ipg == newIpg && disk.bitmaps == NewBitmaps(g, base))
      modifies this
      ensures Performed(old(disk), old(power), disk, power, BitmapWrites(old(disk), newIpg, |old(disk).bitmaps|), alive)
      ensures disk == old(disk).(bitmaps := disk.bitmaps) && BitmapsBetween(g, base, disk)
      ensures alive || old(disk).bitmaps == NewBitmaps(g, base) ==> disk.bitmaps == NewBitmaps(g, base)
    {
      hide Performed, BitmapWrites, PartCleared, BitmapsBetween, NewBitmaps, Cleared;
      ghost var d0 := disk;
      PerformedNone(disk, power);
      NoBitmaps(d0, newIpg);
      ClearedStarts(g, base, disk);
      var i := 0;
      while i < |disk.bitmaps|
        invariant 0 <= i <= |disk.bitmaps| == |d0.bitmaps| && PartCleared(g, base, d0, disk, i)
        invariant Performed(d0, old(power), disk, power, BitmapWrites(d0, newIpg, i), true)
      {
        ClearedNext(g, base, d0, disk, i);
        OneBitmap(d0, newIpg, i);
        var bitmap := Cleared(disk.bitmaps[i], disk.sb.ipg, newIpg);
        if bitmap != disk.bitmaps[i] {
          ghost var mid, left := disk, power;
          alive := Put(WriteBitmap(i, bitmap));
          PerformedThen(d0, old(power), mid, left, disk, power, BitmapWrites(d0, newIpg, i), [WriteBitmap(i, bitmap)], alive);
          if !alive {
            ghost var rest := BitmapsRest(d0, newIpg, i + 1);
            PerformedPart(d0, old(power), disk, power, BitmapWrites(d0, newIpg, i + 1), rest);
            ClearedEnds(g, base, d0, disk, i);
            return;
          }
        }
        i := i + 1;
      }
      alive := true;
      ClearedEnds(g, base, d0, disk, i);
    }

    // Writes group i's superblock and its copy of the descriptor table.
    method WriteGroup(i: nat, sb: Superblock, desc: seq<nat>, ghost base: Disk, ghost torn: bool) returns (alive: bool)
      requires Acceptable(g, base) && i in g.supers && i < g.groups
      requires sb == NewSuperblock(g, base.sb).(busy := sb.busy, groupNr := i) && (i > 0 ==> !sb.busy)
      requires desc == NewDesc(g, base, torn)
      requires SbPhase(g, base, disk, torn, i)
      modifies this
      ensures Performed(old(disk), old(power), disk, power, [WriteSb(i, sb), WriteDesc(i, desc)], alive)
      ensures disk == old(disk).(sb := disk.sb, backups := disk.backups, descs := disk.descs)
      ensures alive ==> SbPhase(g, base, disk, torn, i + 1)
      ensures !alive ==> (SbUntouched(g, base, disk) || SbWritten(g, base, disk)) && (torn ==> Torn(base, disk))
    {
      hide Performed, CopiesBetween, NewSuperblock, NewDesc;
      SuperblockWritten(g, base, disk, torn, i, sb);
      DescWritten(g, base, disk, torn, i, sb);
      assert [WriteSb(i, sb)] + [WriteDesc(i, desc)] == [WriteSb(i, sb), WriteDesc(i, desc)];
      alive := Put(WriteSb(i, sb));
      if !alive {
        PerformedPart(old(disk), old(power), disk, power, [WriteSb(i, sb)], [WriteDesc(i, desc)]);
        return;
      }
      ghost var mid, left := disk, power;
      alive := Put(WriteDesc(i, desc));
      PerformedThen(old(disk), old(power), mid, left, disk, power, [WriteSb(i, sb)], [WriteDesc(i, desc)], alive);
    }

    // Writes every superblock and descriptor table, group by group.
    method WriteGroups(first: Superblock, desc: seq<nat>, ghost base: Disk, ghost torn: bool) returns (alive: bool)
      requires Acceptable(g, base) && SbPhase(g, base, disk, torn, 0) && desc == NewDesc(g, base, torn)
      requires first == NewSuperblock(g, base.sb).(busy := first.busy, groupNr := first.groupNr)
      modifies this
      ensures Performed(old(disk), old(power), disk, power, GroupWrites(g, first, desc, g.groups), alive)
      ensures disk == old(disk).(sb := disk.sb, backups := disk.backups, descs := disk.descs)
      ensures alive ==> SbPhase(g, base, disk, torn, g.groups)
      ensures !alive ==> (SbUntouched(g, base, disk) || SbWritten(g, base, disk)) && (torn ==> Torn(base, disk))
    {
      hide Performed, SbUntouched, SbWritten, NewDesc, SbPhase, NewSuperblock, Acceptable, GroupWrites;
      AcceptedBase(g, base);
      NoGroups(g, first, desc);
      PerformedNone(disk, power);
      var sb := first;
      var i := 0;
      while i < g.groups
        invariant 0 <= i <= g.groups && Performed(old(disk), old(power), disk, power, GroupWrites(g, first, desc, i), true)
        invariant sb == first.(groupNr := sb.groupNr, busy := sb.busy) && (i == 0 ==> sb == first)
        invariant SbPhase(g, base, disk, torn, i)
        invariant disk == old(disk).(sb := disk.sb, backups := disk.backups, descs := disk.descs)
      {
        OneGroup(g, first, desc, i);
        if i in g.supers {
          sb := sb.(groupNr := i, busy := sb.busy && i == 0);
          ghost var mid, left := disk, power;
          alive := WriteGroup(i, sb, desc, base, torn);
          PerformedThen(old(disk), old(power), mid, left, disk, power, GroupWrites(g, first, desc, i),
                        GroupWrite(i, first, desc), alive);
          if !alive {
            ghost var rest := GroupsRest(g, first, desc, i + 1);
            PerformedPart(old(disk), old(power), disk, power, GroupWrites(g, first, desc, i + 1), rest);
            return;
          }
        } else {
          PhaseSkips(g, base, disk, torn, i);
        }
        i := i + 1;
      }
      alive := true;
    }

    // The last phase: the bitmaps, then the groups.
    method UpdateSuperblocks(ghost base: Disk) returns (alive: bool)
      requires Acceptable(g, base) && StateOf(disk.magic).UpdatingSb? && DiskInv(g, base, disk)
      modifies this
      ensures Performed(old(disk), old(power), disk, power, AllBitmaps(g, old(disk)) + AllGroups(g, old(disk)), alive)
      ensures disk.magic == old(disk).magic
      ensures alive ==> Quiet(disk) == Fixed(g, base, Torn(base, old(disk)))
      ensures !alive ==> DiskInv(g, base, disk) && (Torn(base, old(disk)) ==> Torn(base, disk))
    {
      hide Performed, BitmapWrites, GroupWrites, NewDesc, NewBitmaps, RenumberTree, Grown, ProperTree, BitmapsBetween;
      SuperblockReads(g, base, disk);
      var sb := NewSuperblock(g, disk.sb);
      var desc := Grown(disk.descs[0], sb.ipg - disk.sb.ipg);
      alive := CheckInodeBitmaps(sb.ipg, base);
      BitmapsKeepPhase(g, base, old(disk), disk);
      ghost var mid, left := disk, power;
      if !alive {
        PerformedPart(old(disk), old(power), disk, power, AllBitmaps(g, old(disk)), AllGroups(g, old(disk)));
      } else {
        assert SaneCount(g, disk.sb);
        alive := WriteGroups(sb, desc, base, Torn(base, disk));
        PerformedThen(old(disk), old(power), mid, left, disk, power, AllBitmaps(g, old(disk)), AllGroups(g, old(disk)), alive);
        if alive {
          PhaseDone(g, base, disk, Torn(base, old(disk)));
        }
      }
    }

    // The sanity pass and the two passes over the directories, as far as they are still to be done.
    method RunPasses(ghost base: Disk) returns (ok: bool, alive: bool)
      requires Acceptable(g, base) && DiskInv(g, base, disk)
      modifies this
      ensures ok <==> SaneDisk(g, base)
      ensures !ok ==> disk == old(disk)
      ensures ok ==> Performed(old(disk), old(power), disk, power, LeadPasses(g, old(disk)), alive)
      ensures DiskInv(g, base, disk) && Torn(base, disk) == Torn(base, old(disk))
      ensures ok && alive ==> StateOf(disk.magic).UpdatingSb?
    {
      hide Performed, DiskInv, SaneDisk, Torn, PassWrites, StartWrites, ApplyAll, Acceptable;
      AcceptedBase(g, base);
      ghost var d, p := disk, power;
      ghost var a0 := StartWrites(d);
      ghost var d0 := ApplyAll(d, a0);
      ghost var a1 := PassWrites(Marking, g, d0);
      ghost var a2 := PassWrites(Updating, g, ApplyAll(d0, a1));
      ok, alive := Begin(base);
      if !ok {
        return;
      }
      if !alive {
        Interrupted(d, p, disk, power, a0, a1 + a2, LeadPasses(g, d));
        return;
      }
      PerformedAll(d, p, disk, power, a0);
      ghost var mid, left := disk, power;
      alive := RunPass(Marking, base);
      PerformedThen(d, p, mid, left, disk, power, a0, a1, alive);
      if !alive {
        Interrupted(d, p, disk, power, a0 + a1, a2, LeadPasses(g, d));
        return;
      }
      PerformedAll(mid, left, disk, power, a1);
      mid, left := disk, power;
      alive := RunPass(Updating, base);
      PerformedThen(d, p, mid, left, disk, power, a0 + a1, a2, alive);
    }

    // One run of the tool, from whatever an earlier run left.
    method Run(ghost base: Disk) returns (r: Outcome)
      requires Acceptable(g, base) && DiskInv(g, base, disk)
      modifies this
      ensures !r.Refused? ==> Performed(old(disk), old(power), disk, power, RunWrites(g, old(disk)), r.Finished?)
      ensures Ran(g, base, old(disk), disk, r)
    {
      hide Performed, DiskInv, SaneDisk, Torn, Fixed, AllBitmaps, AllGroups, RunWrites, Acceptable, LeadPasses, Quiet;
      AcceptedBase(g, base);
      ghost var d, p := disk, power;
      ghost var a, last, c := LeadPasses(g, d), BeforeLast(g, d), StateWrites(Unset);
      ghost var b := AllBitmaps(g, last) + AllGroups(g, last);
      RunParts(g, d);
      PassesLead(g, d);
      TornGrows(g, base, d);
      var ok, alive := RunPasses(base);
      if !ok {
        return Refused;
      }
      if !alive {
        Interrupted(d, p, disk, power, a, b + c, RunWrites(g, d));
        return PowerLost;
      }
      PerformedAll(d, p, disk, power, a);
      ghost var mid, left := disk, power;
      alive := UpdateSuperblocks(base);
      PerformedThen(d, p, mid, left, disk, power, a, b, alive);
      if !alive {
        Interrupted(d, p, disk, power, a + b, c, RunWrites(g, d));
        return PowerLost;
      }
      mid, left := disk, power;
      alive := SetState(Unset);
      PerformedThen(d, p, mid, left, disk, power, a + b, c, alive);
      RunEnds(g, base, mid, disk, Torn(base, d), alive);
      r := if alive then Finished else PowerLost;
    }

    // The sanity pass and the first state change, on an image the tool has not been started on.
    method Begin(ghost base: Disk) returns (ok: bool, alive: bool)
      requires Acceptable(g, base) && DiskInv(g, base, disk)
      modifies this
      ensures ok ==> Performed(old(disk), old(power), disk, power, StartWrites(old(disk)), alive)
      ensures ok <==> SaneDisk(g, base)
      ensures !ok ==> disk == old(disk)
      ensures DiskInv(g, base, disk) && Torn(base, disk) == Torn(base, old(disk))
      ensures ok && alive ==> !StateOf(disk.magic).Unset?
    {
      hide Performed, PassInv, NewDesc, NewBitmaps, RenumberTree, BitmapsBetween, CopiesBetween, DescsUntouched;
      if !StateOf(disk.magic).Unset? {
        PerformedNone(disk, power);
        return true, true;
      }
      assert disk.dirs == Quiet(disk).dirs == base.dirs && Quiet(disk).sb == Quiet(base).sb;
      ok := SanityPass(ROOT);
      ok := ok && SaneCount(g, disk.sb);
      alive := true;
      if ok {
        PassBegins(BaseOf(g, base), ROOT, disk.dirs);
        alive := Advance(MarkingInums, base);
      }
    }

    // The marking or the updating pass, if the recorded state asks for it.
    method RunPass(p: Pass, ghost base: Disk) returns (alive: bool)
      requires Acceptable(g, base) && DiskInv(g, base, disk) && !StateOf(disk.magic).Unset?
      requires p.Updating? ==> !StateOf(disk.magic).MarkingInums?
      modifies this
      ensures Performed(old(disk), old(power), disk, power, PassWrites(p, g, old(disk)), alive)
      ensures DiskInv(g, base, disk) && !StateOf(disk.magic).Unset?
      ensures Torn(base, disk) == Torn(base, old(disk))
      ensures alive ==> !StateOf(disk.magic).MarkingInums? && (p.Updating? ==> StateOf(disk.magic).UpdatingSb?)
    {
      hide Performed, DirWrites;
      alive := true;
      PerformedNone(disk, power);
      if StateOf(disk.magic) == if p.Marking? then MarkingInums else UpdatingInums {
        ghost var b := BaseOf(g, base);
        ghost var first := disk;
        ghost var walk, next := DirWrites(p, g, disk.sb.ipg, disk, ROOT), if p.Marking? then UpdatingInums else UpdatingSb;
        assert disk.sb.ipg == Quiet(disk).sb.ipg == base.sb.ipg;
        alive := RecurseDir(p, ROOT, disk.sb.ipg, b, ROOT);
        PassMoved(g, base, first, disk, p);
        if !alive {
          PerformedPart(old(disk), old(power), disk, power, walk, StateWrites(next));
        } else {
          PassDone(g, base, disk, p);
          ghost var mid, left := disk, power;
          alive := Advance(if p.Marking? then UpdatingInums else UpdatingSb, base);
          PerformedThen(old(disk), old(power), mid, left, disk, power, walk, StateWrites(next), alive);
        }
      }
    }
  }

  lemma Interrupted(d: Disk, p: Power, d': Disk, p': Power, a: seq<Write>, b: seq<Write>, ws: seq<Write>)
    requires Performed(d, p, d', p', a, false) && a + b == ws
    ensures Performed(d, p, d', p', ws, false)
  {
    PerformedPart(d, p, d', p', a, b);
  }

  // The last state change, made or cut.
  lemma RunEnds(g: Geometry, base: Disk, done: Disk, d: Disk, torn: bool, alive: bool)
    requires Acceptable(g, base) && SaneDisk(g, base) && Quiet(d) == Quiet(done) == Fixed(g, base, torn)
    requires StateOf(done.magic).UpdatingSb? && (torn ==> GrownIpg(g, base.sb) != base.sb.ipg)
    requires d.magic == MagicOf(Unset) || d.magic == done.magic
    requires alive ==> d.magic == MagicOf(Unset) && !d.sb.busy
    ensures alive ==> d == Fixed(g, base, torn)
    ensures (DiskInv(g, base, d) && (torn ==> Torn(base, d))) || (Quiet(d) == Fixed(g, base, torn) && StateOf(d.magic).Unset?)
  {
    StillUpdating(g, base, done, d, torn);
  }

  // How the pass reads an entry that satisfies the invariant.
  lemma EntryReads(p: Pass, b: Base, dirs: map<Slot, Dir>, s: Slot, i: nat)
    requires s in b.dirs && dirs.Keys == b.dirs.Keys
    requires Proper(b, s) && Sane(b, s) && DirInv(p, b, dirs, s)
    requires i < |dirs[s].entries| && i <= Live(b.dirs[s].entries) && dirs[s].entries[i].inode != 0
    ensures i < Live(b.dirs[s].entries)
    ensures var e, o := dirs[s].entries[i], b.dirs[s].entries[i];
            && (p.Marking? || Marked(e.inode) ==>
                  && Bare(e.inode) == o.inode
                  && Goal(p, b, o).inode == (if p.Marking? then Mark(e.inode) else NewInum(o.inode, b.ipg, NewIpg(b)))
                  && IsDirEntry(dirs, b.ipg, e) == IsDirEntry(b.dirs, b.ipg, o))
            && (p.Updating? && !Marked(e.inode) ==>
                  && AtGoal(p, b, dirs, s, i)
                  && (IsLink(b, s, i) ==> SubDone(p, b, dirs, Target(b, s, i))))
            && e.name == o.name && e.kind == o.kind
            && (IsChild(b, s, i) ==> IsLink(b, s, i))
  {
    if i < Live(b.dirs[s].entries) {
      assert EntryInv(p, b, dirs, s, i);
    }
  }

  lemma SaneBelow(b: Base, s: Slot, i: nat)
    requires s in b.dirs && IsLink(b, s, i) && SaneTree(b, s)
    ensures SaneTree(b, Target(b, s, i))
  {
    LinkInSub(b, s, s, i);
  }

  lemma SaneFromLinks(b: Base, s: Slot)
    requires s in b.dirs && Sane(b, s)
    requires forall i :: 0 <= i < |b.dirs[s].entries| && IsLink(b, s, i) ==> SaneTree(b, Target(b, s, i))
    ensures SaneTree(b, s)
  {
    forall t | t in Sub(b, s) && t != s ensures Sane(b, t) {
      var i :| 0 <= i < |b.dirs[s].entries| && IsLink(b, s, i) && t in Sub(b, Target(b, s, i));
      assert SaneTree(b, Target(b, s, i));
    }
  }

  // Torn or not, a disk that an epoch with nothing to grow works on keeps its counts.
  lemma SettledEpoch(g: Geometry, base: Disk, d: Disk)
    requires Acceptable(g, base) && DiskInv(g, base, d) && GrownIpg(g, base.sb) == base.sb.ipg
    ensures d.sb.ipg == base.sb.ipg && 0 in d.descs && d.descs[0] == base.descs[0]
  {
    hide ProperTree, RenumberTree, NewBitmaps, BitmapsBetween;
    GrownByZero(base.descs[0]);
    match StateOf(d.magic) {
      case Unset => assert Quiet(d).sb == Quiet(base).sb && Quiet(d).descs == base.descs;
      case MarkingInums => assert Quiet(d).sb == Quiet(base).sb;
      case UpdatingInums => assert Quiet(d).sb == Quiet(base).sb;
      case UpdatingSb =>
        if SbUntouched(g, base, d) {
          assert Quiet(d).sb == Quiet(base).sb;
        } else {
          assert Quiet(d).sb == BackupSb(g, base, 0);
        }
    }
  }

  // `base` is what the tool was started on, or what it left once done.
  predicate Epoch(g: Geometry, first: Disk, base: Disk, d: Disk, torn: bool)
    requires Acceptable(g, first)
  {
    && Acceptable(g, base) && DiskInv(g, base, d)
    && (base == first || (SaneDisk(g, first) && base == Fixed(g, first, torn)))
    && torn == Torn(first, d)
  }

  lemma EpochStarts(g: Geometry, d: Disk)
    requires Acceptable(g, d)
    ensures Epoch(g, d, d, d, Torn(d, d)) && Left(g, d, []) == d
  {
    hide ProperTree, RenumberTree, NewBitmaps, BitmapsBetween;
  }

  lemma EpochSane(g: Geometry, first: Disk, base: Disk, d: Disk, torn: bool)
    requires Acceptable(g, first) && Epoch(g, first, base, d, torn)
    ensures SaneDisk(g, base) <==> SaneDisk(g, first)
    ensures SaneDisk(g, first) ==> Fixed(g, base, Torn(base, d)) == Fixed(g, first, torn)
  {
    if SaneDisk(g, first) {
      FixedIsSettled(g, first, torn);
    }
  }

  lemma EpochEnds(g: Geometry, first: Disk, torn: bool, d: Disk)
    requires Acceptable(g, first) && SaneDisk(g, first) && (torn ==> GrownIpg(g, first.sb) != first.sb.ipg)
    requires Quiet(d) == Fixed(g, first, torn) && StateOf(d.magic).Unset?
    ensures Epoch(g, first, Fixed(g, first, torn), d, torn)
  {
    FixedIsSettled(g, first, torn);
    var end := Fixed(g, first, torn);
    assert d.sb.ipg == Quiet(d).sb.ipg && d.descs == end.descs && d.descs[0] == NewDesc(g, first, torn);
    NewDescTorn(g, first, d, torn);
  }

  // Only a disk that has to grow is ever torn.
  lemma TornGrows(g: Geometry, base: Disk, d: Disk)
    requires Acceptable(g, base) && DiskInv(g, base, d)
    ensures Torn(base, d) ==> GrownIpg(g, base.sb) != base.sb.ipg
  {
    hide DiskInv, Acceptable;
    AcceptedBase(g, base);
    if GrownIpg(g, base.sb) == base.sb.ipg {
      SettledEpoch(g, base, d);
    }
  }

  lemma EpochGoesOn(g: Geometry, first: Disk, base: Disk, before: Disk, d: Disk, torn: bool)
    requires Acceptable(g, first) && Epoch(g, first, base, before, torn)
    requires DiskInv(g, base, d) && (Torn(base, before) ==> Torn(base, d))
    ensures torn ==> Torn(first, d)
    ensures Epoch(g, first, base, d, Torn(first, d))
  {
    if base != first {
      SettledIpg(g, first, torn);
      SettledEpoch(g, base, before);
      SettledEpoch(g, base, d);
    }
  }

  lemma TornGrew(g: Geometry, first: Disk, base: Disk, d: Disk, torn: bool)
    requires Acceptable(g, first) && Epoch(g, first, base, d, torn)
    ensures torn ==> GrownIpg(g, first.sb) != first.sb.ipg
  {
    if torn && GrownIpg(g, first.sb) == first.sb.ipg {
      if base != first {
        SettledIpg(g, first, torn);
      }
      SettledEpoch(g, base, d);
    }
  }

  lemma EpochAfter(g: Geometry, first: Disk, base: Disk, before: Disk, d: Disk, torn: bool, r: Outcome)
    returns (base': Disk)
    requires Acceptable(g, first) && Epoch(g, first, base, before, torn) && Ran(g, base, before, d, r)
    ensures torn ==> Torn(first, d)
    ensures !r.PowerLost? ==> torn == Torn(first, d)
    ensures Epoch(g, first, base', d, Torn(first, d))
  {
    hide SaneDisk, Torn, DiskInv, RenumberTree, NewBitmaps, NewDesc, NewSuperblock;
    EpochSane(g, first, base, before, torn);
    TornGrew(g, first, base, before, torn);
    base' := base;
    if r.PowerLost? && DiskInv(g, base, d) && (Torn(base, before) ==> Torn(base, d)) {
      EpochGoesOn(g, first, base, before, d, torn);
    } else if !r.Refused? {
      EpochEnds(g, first, torn, d);
      base' := Fixed(g, first, torn);
    }
  }

  // One more run of a series.
  lemma LeftNext(g: Geometry, d: Disk, cuts: seq<nat>, k: nat, d': Disk, p': Power, alive: bool)
    requires g.perBlock > 0 && k < |cuts|
    requires var before := Left(g, d, cuts[..k]); Performed(before, Battery(cuts[k]), d', p', RunWrites(g, before), alive)
    ensures d' == Left(g, d, cuts[..k + 1])
  {
    hide RunWrites, ApplyAll;
    assert cuts[..k + 1][..k] == cuts[..k];
  }

  // Any series of runs that lose power, each after the given number of writes, and then one that
  // does not. The growth of the descriptors is lost exactly if `Loses` says so of the cuts.
  method FixWithRestarts(dev: Device, cuts: seq<nat>) returns (r: Outcome)
    requires Acceptable(dev.g, dev.disk)
    modifies dev
    ensures !r.PowerLost? && (r.Finished? <==> SaneDisk(dev.g, old(dev.disk)))
    ensures r.Finished? ==> dev.disk == Fixed(dev.g, old(dev.disk), Loses(dev.g, old(dev.disk), cuts))
    ensures r.Refused? ==> dev.disk == old(dev.disk)
  {
    hide Acceptable, SaneDisk, Torn, Fixed, RunWrites, Left, Loses, DiskInv;
    var first := dev.disk;
    AcceptedBase(dev.g, first);
    EpochStarts(dev.g, first);
    ghost var base := first;
    for k := 0 to |cuts|
      invariant Epoch(dev.g, first, base, dev.disk, Torn(first, dev.disk))
      invariant dev.disk == if SaneDisk(dev.g, first) then Left(dev.g, first, cuts[..k]) else first
    {
      dev.power := Battery(cuts[k]);
      ghost var before := dev.disk;
      EpochSane(dev.g, first, base, before, Torn(first, before));
      r := dev.Run(base);
      base := EpochAfter(dev.g, first, base, before, dev.disk, Torn(first, before), r);
      if !r.Refused? {
        LeftNext(dev.g, first, cuts, k, dev.disk, dev.power, r.Finished?);
      }
    }
    assert cuts[..|cuts|] == cuts;
    TornIff(dev.g, first, cuts);
    EpochSane(dev.g, first, base, dev.disk, Torn(first, dev.disk));
    dev.power := Mains;
    r := dev.Run(base);
  }
}
