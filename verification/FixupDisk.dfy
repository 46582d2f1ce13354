/**
 The disk that ext4_utils/ext4fixup.c works on: what it may hold in each state of the protocol, and what it
 holds in the end.
 */
module FixupDisk {
  import opened FixupTree
  import opened FixupMeaning
  import Arith

  const MAGIC_STATE_MARKING_INUMS: nat := 0x7000151515565512
  const MAGIC_STATE_UPDATING_INUMS: nat := 0x6121131211735123
  const MAGIC_STATE_UPDATING_SB: nat := 0x15e1715151558477

  // EXT4_ROOT_INO is 2: the second slot of the first group.
  const ROOT: Slot := Slot(0, 1)

  datatype State = Unset | MarkingInums | UpdatingInums | UpdatingSb

  // `busy` is the low bit of s_desc_size, which keeps the filesystem from being mounted.
  datatype Superblock = Superblock(inodes: nat, freeInodes: nat, ipg: nat, busy: bool, groupNr: nat)

  // `descs[i]` is group i's copy of the descriptor table: the free inodes of every group.
  datatype Disk = Disk(magic: nat, dirs: map<Slot, Dir>, sb: Superblock, backups: map<nat, Superblock>,
                       descs: map<nat, seq<nat>>, bitmaps: seq<seq<bool>>)

  // `supers` are the groups that hold a superblock; `rank` goes down along directory links.
  datatype Geometry = Geometry(groups: nat, perBlock: nat, supers: set<nat>, rank: map<Slot, nat>)

  datatype Power = Mains | Battery(writes: nat)

  datatype Outcome = Finished | PowerLost | Refused

  function StateOf(magic: nat): State {
    if magic == MAGIC_STATE_MARKING_INUMS then MarkingInums
    else if magic == MAGIC_STATE_UPDATING_INUMS then UpdatingInums
    else if magic == MAGIC_STATE_UPDATING_SB then UpdatingSb
    else Unset
  }

  function MagicOf(st: State): (magic: nat)
    ensures StateOf(magic) == st
  {
    match st
    case Unset => 0
    case MarkingInums => MAGIC_STATE_MARKING_INUMS
    case UpdatingInums => MAGIC_STATE_UPDATING_INUMS
    case UpdatingSb => MAGIC_STATE_UPDATING_SB
  }

  function BaseOf(g: Geometry, d: Disk): Base
    requires g.perBlock > 0 && d.sb.ipg > 0
  {
    Base(d.dirs, d.sb.ipg, g.perBlock, g.rank)
  }

  // What the tool takes for granted about the image it is first run on.
  predicate Acceptable(g: Geometry, d: Disk) {
    && StateOf(d.magic).Unset?
    && g.groups > 0 && g.perBlock > 0 && 0 in g.supers && d.sb.ipg >= 2
    && ProperTree(BaseOf(g, d), ROOT)
    && 0 in d.descs && |d.descs[0]| == g.groups && |d.bitmaps| == g.groups
    && (forall i :: i in g.supers && 0 < i < g.groups ==> i in d.backups && i in d.descs)
  }

  // What its sanity pass checks before anything is written.
  predicate SaneDisk(g: Geometry, d: Disk)
    requires Acceptable(g, d)
  {
    SaneTree(BaseOf(g, d), ROOT) && SaneCount(g, d.sb)
  }

  function GrownIpg(g: Geometry, sb: Superblock): nat
    requires g.perBlock > 0
  {
    AlignUp(sb.ipg, g.perBlock)
  }

  predicate SaneCount(g: Geometry, sb: Superblock)
    requires g.perBlock > 0
  {
    sb.inodes + g.groups * (GrownIpg(g, sb) - sb.ipg) == GrownIpg(g, sb) * g.groups
  }

  // The inodes the whole filesystem gains.
  function Growth(g: Geometry, sb: Superblock): (r: nat)
    requires g.perBlock > 0
    ensures r == g.groups * (GrownIpg(g, sb) - sb.ipg) && GrownIpg(g, sb) >= sb.ipg
  {
    AlignUpFits(sb.ipg, g.perBlock);
    Arith.MulStep(g.groups, -1, GrownIpg(g, sb) - sb.ipg);
    g.groups * (GrownIpg(g, sb) - sb.ipg)
  }

  function NewSuperblock(g: Geometry, sb: Superblock): (r: Superblock)
    requires g.perBlock > 0
    ensures r.ipg >= sb.ipg
  {
    var more := Growth(g, sb);
    sb.(inodes := sb.inodes + more, freeInodes := sb.freeInodes + more, ipg := GrownIpg(g, sb))
  }

  function Cleared(bitmap: seq<bool>, lo: nat, hi: nat): seq<bool> {
    seq(|bitmap|, i requires 0 <= i < |bitmap| => if lo <= i < hi then false else bitmap[i])
  }

  function Grown(desc: seq<nat>, delta: nat): seq<nat> {
    seq(|desc|, i requires 0 <= i < |desc| => desc[i] + delta)
  }

  // The descriptor table once done. A torn run loses the growth for good.
  function NewDesc(g: Geometry, d: Disk, torn: bool): seq<nat>
    requires g.perBlock > 0 && 0 in d.descs
  {
    AlignUpFits(d.sb.ipg, g.perBlock);
    if torn then d.descs[0] else Grown(d.descs[0], GrownIpg(g, d.sb) - d.sb.ipg)
  }

  function NewBitmaps(g: Geometry, d: Disk): (r: seq<seq<bool>>)
    requires g.perBlock > 0
    ensures |r| == |d.bitmaps|
  {
    seq(|d.bitmaps|, i requires 0 <= i < |d.bitmaps| => Cleared(d.bitmaps[i], d.sb.ipg, GrownIpg(g, d.sb)))
  }

  function BackupSb(g: Geometry, d: Disk, i: nat): Superblock
    requires g.perBlock > 0
  {
    NewSuperblock(g, d.sb).(busy := false, groupNr := i)
  }

  // The disk an uninterrupted run leaves, when `torn` is false.
  function Fixed(g: Geometry, d: Disk, torn: bool): Disk
    requires g.perBlock > 0 && d.sb.ipg > 0 && ROOT in d.dirs && 0 in d.descs
  {
    Disk(0, RenumberTree(BaseOf(g, d), ROOT), BackupSb(g, d, 0),
         map i | i in d.backups :: if i in g.supers && 0 < i < g.groups then BackupSb(g, d, i) else d.backups[i],
         map i | i in d.descs :: if i in g.supers && i < g.groups then NewDesc(g, d, torn) else d.descs[i],
         NewBitmaps(g, d))
  }

  // On the disk the tool is to leave, a path from the root leads where it did.
  lemma FixedKeepsPaths(g: Geometry, d: Disk, torn: bool, path: seq<string>)
    requires Acceptable(g, d) && Reached(BaseOf(g, d), ROOT, ROOT, path)
    ensures var fixed := Fixed(g, d, torn);
            fixed.sb.ipg > 0 && Resolve(fixed.dirs, fixed.sb.ipg, ROOT, path) == Resolve(d.dirs, d.sb.ipg, ROOT, path)
  {
    hide Reached, Resolve, RenumberTree, NewBitmaps, NewDesc;
    PathsKeepMeaning(BaseOf(g, d), ROOT, ROOT, path);
  }

  // The disk but for the progress record: the magic number and the mount bit.
  function Quiet(d: Disk): Disk {
    d.(magic := 0, sb := d.sb.(busy := false))
  }

  // A superblock that promises more inodes than its descriptors account for.
  predicate Torn(first: Disk, d: Disk) {
    d.sb.ipg != first.sb.ipg && 0 in d.descs && 0 in first.descs && d.descs[0] == first.descs[0]
  }

  predicate BitmapsBetween(g: Geometry, base: Disk, d: Disk)
    requires g.perBlock > 0
  {
    && |d.bitmaps| == |base.bitmaps|
    && forall i :: 0 <= i < |d.bitmaps| ==>
                     d.bitmaps[i] == base.bitmaps[i] || d.bitmaps[i] == NewBitmaps(g, base)[i]
  }

  // No superblock written yet.
  predicate SbUntouched(g: Geometry, base: Disk, d: Disk)
    requires g.perBlock > 0
  {
    Quiet(d).(dirs := base.dirs, bitmaps := base.bitmaps) == Quiet(base) && BitmapsBetween(g, base, d)
  }

  // Each copy of the superblock and of the descriptors is as it was or as it will be.
  predicate CopiesBetween(g: Geometry, base: Disk, d: Disk, torn: bool)
    requires g.perBlock > 0 && base.sb.ipg > 0 && 0 in base.descs
  {
    && d.backups.Keys == base.backups.Keys && d.descs.Keys == base.descs.Keys
    && d.descs[0] == NewDesc(g, base, torn)
    && (forall i :: i in d.backups ==>
                      || d.backups[i] == base.backups[i]
                      || (i in g.supers && 0 < i < g.groups && d.backups[i] == BackupSb(g, base, i)))
    && (forall i :: i in d.descs ==>
                      || d.descs[i] == base.descs[i]
                      || (i in g.supers && i < g.groups && d.descs[i] == NewDesc(g, base, torn)))
  }

  // The primary superblock written.
  predicate SbWritten(g: Geometry, base: Disk, d: Disk)
    requires g.perBlock > 0 && base.sb.ipg > 0 && 0 in base.descs
  {
    && Quiet(d).sb == BackupSb(g, base, 0) && d.bitmaps == NewBitmaps(g, base)
    && CopiesBetween(g, base, d, Torn(base, d))
  }

  // What the disk holds, but for the progress record, in each state of the protocol.
  predicate Content(g: Geometry, base: Disk, d: Disk, st: State)
    requires Acceptable(g, base)
  {
    match st
    case Unset => Quiet(d) == Quiet(base)
    case MarkingInums =>
      && SaneDisk(g, base) && Quiet(d).(dirs := base.dirs) == Quiet(base)
      && PassInv(Marking, BaseOf(g, base), ROOT, d.dirs)
    case UpdatingInums =>
      && SaneDisk(g, base) && Quiet(d).(dirs := base.dirs) == Quiet(base)
      && PassInv(Updating, BaseOf(g, base), ROOT, d.dirs)
    case UpdatingSb =>
      && SaneDisk(g, base) && d.dirs == RenumberTree(BaseOf(g, base), ROOT)
      && (SbUntouched(g, base, d) || SbWritten(g, base, d))
  }

  // What a run may find on a disk on which the tool was started when it held `base`.
  predicate DiskInv(g: Geometry, base: Disk, d: Disk)
    requires Acceptable(g, base)
  {
    Content(g, base, d, StateOf(d.magic))
  }

  lemma ContentQuiet(g: Geometry, base: Disk, d: Disk, d': Disk, st: State)
    requires Acceptable(g, base) && Content(g, base, d, st) && Quiet(d) == Quiet(d')
    ensures Content(g, base, d', st) && Torn(base, d') == Torn(base, d)
  {
    assert d'.sb.ipg == Quiet(d).sb.ipg && d'.dirs == Quiet(d).dirs && d'.descs == Quiet(d).descs
           && d'.bitmaps == Quiet(d).bitmaps && d'.backups == Quiet(d).backups;
  }

  lemma SettledIpg(g: Geometry, d: Disk, torn: bool)
    requires g.perBlock > 0 && d.sb.ipg > 0 && ROOT in d.dirs && 0 in d.descs
    ensures var f := Fixed(g, d, torn); GrownIpg(g, f.sb) == f.sb.ipg >= d.sb.ipg
  {
    AlignUpFits(d.sb.ipg, g.perBlock);
  }

  lemma GrownByZero(desc: seq<nat>)
    ensures Grown(desc, 0) == desc
  {
  }

  // A finished image is one the tool accepts, and a further run leaves it exactly as it is.
  lemma FixedIsSettled(g: Geometry, d: Disk, torn: bool)
    requires Acceptable(g, d) && SaneDisk(g, d)
    ensures Acceptable(g, Fixed(g, d, torn)) && SaneDisk(g, Fixed(g, d, torn))
    ensures forall again :: Fixed(g, Fixed(g, d, torn), again) == Fixed(g, d, torn)
  {
    hide SaneTree, RenumberTree, NewBitmaps;
    var f := Fixed(g, d, torn);
    SettledIpg(g, d, torn);
    SecondRunSameNumbers(BaseOf(g, d), ROOT);
    assert BaseOf(g, f) == Renumbered(BaseOf(g, d), ROOT);
    assert g.groups * (GrownIpg(g, f.sb) - f.sb.ipg) == 0;
    forall again ensures Fixed(g, f, again) == f {
      SettledAgain(g, f, again);
      GrownByZero(f.descs[0]);
      assert NewDesc(g, f, again) == f.descs[0];
      assert forall i :: i in f.backups && i in g.supers && 0 < i < g.groups ==> BackupSb(g, f, i) == f.backups[i];
    }
  }

  lemma SettledAgain(g: Geometry, f: Disk, again: bool)
    requires g.perBlock > 0 && f.sb.ipg > 0 && ROOT in f.dirs && 0 in f.descs
    requires GrownIpg(g, f.sb) == f.sb.ipg
    ensures NewSuperblock(g, f.sb) == f.sb && NewBitmaps(g, f) == f.bitmaps
  {
    assert g.groups * (GrownIpg(g, f.sb) - f.sb.ipg) == 0;
    forall i | 0 <= i < |f.bitmaps| ensures NewBitmaps(g, f)[i] == f.bitmaps[i] {
      assert Cleared(f.bitmaps[i], f.sb.ipg, GrownIpg(g, f.sb)) == f.bitmaps[i];
    }
  }

  // The growth lost by a torn run shows in every descriptor table, unless there was none.
  lemma TornLosesGrowth(g: Geometry, d: Disk)
    requires Acceptable(g, d)
    ensures Fixed(g, d, true) == Fixed(g, d, false) <==> d.sb.ipg % g.perBlock == 0
  {
    AlignUpFits(d.sb.ipg, g.perBlock);
    var delta := GrownIpg(g, d.sb) - d.sb.ipg;
    assert Fixed(g, d, true).descs[0] == d.descs[0];
    assert Fixed(g, d, false).descs[0] == Grown(d.descs[0], delta);
    AlignedExactly(d.sb.ipg, g.perBlock);
    if delta > 0 {
      assert Grown(d.descs[0], delta)[0] != d.descs[0][0];
    } else {
      GrownByZero(d.descs[0]);
    }
  }

  lemma AlignedExactly(x: nat, y: nat)
    requires y > 0
    ensures AlignUp(x, y) == x <==> x % y == 0
  {
    if x % y == 0 {
      assert x == y * (x / y);
      MultipleRoundsToItself(x / y, y);
    } else if AlignUp(x, y) == x {
      var q := (x + y - 1) / y;
      Arith.QuotientUnique(x, y, q, 0);
    }
  }

  lemma BitmapCleared(g: Geometry, base: Disk, d: Disk, i: nat)
    requires g.perBlock > 0 && BitmapsBetween(g, base, d) && i < |d.bitmaps|
    requires d.sb.ipg == base.sb.ipg || (d.sb.ipg == GrownIpg(g, base.sb) && d.bitmaps == NewBitmaps(g, base))
    ensures Cleared(d.bitmaps[i], d.sb.ipg, GrownIpg(g, base.sb)) == NewBitmaps(g, base)[i]
  {
  }

  // The bitmaps of the first i groups are cleared and the others as they were.
  predicate PartCleared(g: Geometry, base: Disk, first: Disk, d: Disk, i: nat)
    requires g.perBlock > 0
  {
    && d == first.(bitmaps := d.bitmaps) && BitmapsBetween(g, base, d) && |d.bitmaps| == |first.bitmaps| && i <= |d.bitmaps|
    && (d.sb.ipg == base.sb.ipg || (d.sb.ipg == GrownIpg(g, base.sb) && d.bitmaps == NewBitmaps(g, base)))
    && (forall k :: 0 <= k < i ==> d.bitmaps[k] == NewBitmaps(g, base)[k])
    && (forall k :: i <= k < |d.bitmaps| ==> d.bitmaps[k] == first.bitmaps[k])
    && (first.bitmaps == NewBitmaps(g, base) ==> d.bitmaps == NewBitmaps(g, base))
  }

  lemma ClearedStarts(g: Geometry, base: Disk, d: Disk)
    requires g.perBlock > 0 && BitmapsBetween(g, base, d)
    requires d.sb.ipg == base.sb.ipg || (d.sb.ipg == GrownIpg(g, base.sb) && d.bitmaps == NewBitmaps(g, base))
    ensures PartCleared(g, base, d, d, 0)
  {
  }

  lemma ClearedNext(g: Geometry, base: Disk, first: Disk, d: Disk, i: nat)
    requires g.perBlock > 0 && PartCleared(g, base, first, d, i) && i < |d.bitmaps|
    ensures d.bitmaps[i] == first.bitmaps[i] && d.sb.ipg == first.sb.ipg && i < |first.bitmaps|
    ensures PartCleared(g, base, first,
                        d.(bitmaps := d.bitmaps[i := Cleared(d.bitmaps[i], d.sb.ipg, GrownIpg(g, base.sb))]), i + 1)
    ensures Cleared(d.bitmaps[i], d.sb.ipg, GrownIpg(g, base.sb)) == d.bitmaps[i] ==> PartCleared(g, base, first, d, i + 1)
  {
    BitmapCleared(g, base, d, i);
    var bits := Cleared(d.bitmaps[i], d.sb.ipg, GrownIpg(g, base.sb));
    var after := d.bitmaps[i := bits];
    assert first.bitmaps == NewBitmaps(g, base) || d.bitmaps == NewBitmaps(g, base) ==> after == NewBitmaps(g, base);
  }

  lemma ClearedEnds(g: Geometry, base: Disk, first: Disk, d: Disk, i: nat)
    requires g.perBlock > 0 && PartCleared(g, base, first, d, i)
    ensures d == first.(bitmaps := d.bitmaps) && BitmapsBetween(g, base, d)
    ensures i == |d.bitmaps| || first.bitmaps == NewBitmaps(g, base) ==> d.bitmaps == NewBitmaps(g, base)
  {
  }

  // Where the superblock phase stands when the groups before i are written.
  predicate SbPhase(g: Geometry, base: Disk, d: Disk, torn: bool, i: nat)
    requires Acceptable(g, base)
  {
    && d.bitmaps == NewBitmaps(g, base) && Torn(base, d) == torn
    && (if i == 0 then SbUntouched(g, base, d) || SbWritten(g, base, d)
        else SbWritten(g, base, d))
    && GroupsDone(g, base, d, torn, i)
  }

  // The copies in the groups before i are written.
  predicate GroupsDone(g: Geometry, base: Disk, d: Disk, torn: bool, i: nat)
    requires g.perBlock > 0 && base.sb.ipg > 0 && 0 in base.descs
  {
    forall k :: k in g.supers && 0 < k < i && k < g.groups ==>
                  && k in d.backups && d.backups[k] == BackupSb(g, base, k)
                  && k in d.descs && d.descs[k] == NewDesc(g, base, torn)
  }

  lemma GroupDone(g: Geometry, base: Disk, d: Disk, torn: bool, i: nat, sb: Superblock)
    requires g.perBlock > 0 && base.sb.ipg > 0 && 0 in base.descs && GroupsDone(g, base, d, torn, i)
    requires sb == NewSuperblock(g, base.sb).(busy := sb.busy, groupNr := i) && (i > 0 ==> !sb.busy)
    ensures var d' := WithSuperblock(d, i, sb);
            GroupsDone(g, base, d'.(descs := d'.descs[i := NewDesc(g, base, torn)]), torn, i + 1)
  {
    hide NewSuperblock, NewDesc;
  }

  lemma PhaseSkips(g: Geometry, base: Disk, d: Disk, torn: bool, i: nat)
    requires Acceptable(g, base) && SbPhase(g, base, d, torn, i) && i !in g.supers
    ensures SbPhase(g, base, d, torn, i + 1)
  {
  }

  lemma AcceptedBase(g: Geometry, d: Disk)
    requires Acceptable(g, d)
    ensures g.perBlock > 0 && d.sb.ipg > 0 && ROOT in d.dirs && 0 in d.descs
  {
  }

  function WithSuperblock(d: Disk, i: nat, sb: Superblock): Disk {
    if i == 0 then d.(sb := sb) else d.(backups := d.backups[i := sb])
  }

  predicate DescsUntouched(base: Disk, d: Disk) {
    d.descs == base.descs
  }

  // Between the two writes of a group the disk is one a later run can start from. At group 0 it
  // is torn if the count grew and the descriptors had not been written before.
  lemma SuperblockWritten(g: Geometry, base: Disk, d: Disk, torn: bool, i: nat, sb: Superblock)
    requires Acceptable(g, base) && i in g.supers && i < g.groups && SbPhase(g, base, d, torn, i)
    requires sb == NewSuperblock(g, base.sb).(busy := sb.busy, groupNr := i) && (i > 0 ==> !sb.busy)
    ensures SbWritten(g, base, WithSuperblock(d, i, sb))
    ensures torn ==> Torn(base, WithSuperblock(d, i, sb))
    ensures i > 0 ==> Torn(base, WithSuperblock(d, i, sb)) == torn
    ensures Torn(base, WithSuperblock(d, i, sb)) && !torn ==> DescsUntouched(base, d)
  {
    AlignUpFits(base.sb.ipg, g.perBlock);
    GrownByZero(base.descs[0]);
  }

  lemma NewDescTorn(g: Geometry, base: Disk, d: Disk, torn: bool)
    requires Acceptable(g, base) && 0 in d.descs && d.descs[0] == NewDesc(g, base, torn)
    requires d.sb.ipg == GrownIpg(g, base.sb) && (torn ==> d.sb.ipg != base.sb.ipg)
    ensures Torn(base, d) == torn
  {
    AlignUpFits(base.sb.ipg, g.perBlock);
    var delta := GrownIpg(g, base.sb) - base.sb.ipg;
    if delta > 0 {
      assert Grown(base.descs[0], delta)[0] != base.descs[0][0];
    }
  }

  lemma WrittenIpg(g: Geometry, base: Disk, d: Disk)
    requires Acceptable(g, base) && SbWritten(g, base, d)
    ensures d.sb.ipg == GrownIpg(g, base.sb)
  {
    assert Quiet(d).sb.ipg == d.sb.ipg;
  }

  lemma DescWritten(g: Geometry, base: Disk, d: Disk, torn: bool, i: nat, sb: Superblock)
    requires Acceptable(g, base) && i in g.supers && i < g.groups && SbPhase(g, base, d, torn, i)
    requires sb == NewSuperblock(g, base.sb).(busy := sb.busy, groupNr := i) && (i > 0 ==> !sb.busy)
    ensures var d' := WithSuperblock(d, i, sb);
            SbPhase(g, base, d'.(descs := d'.descs[i := NewDesc(g, base, torn)]), torn, i + 1)
  {
    hide ProperTree, NewSuperblock, NewBitmaps, BitmapsBetween, NewDesc, RenumberTree, GroupsDone;
    SuperblockWritten(g, base, d, torn, i, sb);
    var d' := WithSuperblock(d, i, sb);
    WrittenIpg(g, base, d');
    var d'' := d'.(descs := d'.descs[i := NewDesc(g, base, torn)]);
    DescCopied(g, base, d', torn, i);
    GroupDone(g, base, d, torn, i, sb);
    NewDescTorn(g, base, d'', torn);
  }

  lemma DescCopied(g: Geometry, base: Disk, d: Disk, torn: bool, i: nat)
    requires Acceptable(g, base) && i in g.supers && i < g.groups
    requires i > 0 ==> CopiesBetween(g, base, d, torn)
    requires i == 0 ==> CopiesBetween(g, base, d, Torn(base, d)) && (torn ==> Torn(base, d))
    requires i == 0 && Torn(base, d) && !torn ==> DescsUntouched(base, d)
    ensures CopiesBetween(g, base, d.(descs := d.descs[i := NewDesc(g, base, torn)]), torn)
  {
  }

  // A run in the last phase reads the primary superblock and descriptors, already written or not.
  lemma SuperblockReads(g: Geometry, base: Disk, d: Disk)
    requires Acceptable(g, base) && SaneDisk(g, base) && (SbUntouched(g, base, d) || SbWritten(g, base, d))
    ensures 0 in d.descs && BitmapsBetween(g, base, d)
    ensures NewSuperblock(g, d.sb) == NewSuperblock(g, base.sb).(busy := d.sb.busy, groupNr := d.sb.groupNr)
    ensures Grown(d.descs[0], NewSuperblock(g, d.sb).ipg - d.sb.ipg) == NewDesc(g, base, Torn(base, d))
    ensures d.sb.ipg == base.sb.ipg || (d.sb.ipg == GrownIpg(g, base.sb) && d.bitmaps == NewBitmaps(g, base))
    ensures SaneCount(g, d.sb)
  {
    AlignUpFits(base.sb.ipg, g.perBlock);
    if SbUntouched(g, base, d) {
      assert Quiet(d).sb == Quiet(base).sb && d.descs == base.descs;
    } else {
      assert GrownIpg(g, d.sb) == d.sb.ipg;
      assert g.groups * (GrownIpg(g, d.sb) - d.sb.ipg) == 0;
      GrownByZero(d.descs[0]);
    }
  }

  lemma PhaseDone(g: Geometry, base: Disk, d: Disk, torn: bool)
    requires Acceptable(g, base) && SbPhase(g, base, d, torn, g.groups)
    requires d.dirs == RenumberTree(BaseOf(g, base), ROOT)
    ensures Quiet(d) == Fixed(g, base, torn)
  {
    hide NewSuperblock, NewDesc, NewBitmaps, RenumberTree;
    var end := Fixed(g, base, torn);
    assert forall i :: i in d.backups ==> d.backups[i] == end.backups[i];
    assert forall i :: i in d.descs ==> d.descs[i] == end.descs[i];
    assert d.backups == end.backups && d.descs == end.descs;
  }

  lemma BitmapsKeepPhase(g: Geometry, base: Disk, d: Disk, d': Disk)
    requires Acceptable(g, base) && (SbUntouched(g, base, d) || SbWritten(g, base, d))
    requires d' == d.(bitmaps := d'.bitmaps) && BitmapsBetween(g, base, d')
    requires d.bitmaps == NewBitmaps(g, base) ==> d'.bitmaps == NewBitmaps(g, base)
    ensures SbUntouched(g, base, d') || SbWritten(g, base, d')
    ensures Torn(base, d') == Torn(base, d)
  {
  }

  function PassState(p: Pass): State {
    if p.Marking? then MarkingInums else UpdatingInums
  }

  lemma PassMoved(g: Geometry, base: Disk, d: Disk, d': Disk, p: Pass)
    requires Acceptable(g, base) && Content(g, base, d, PassState(p))
    requires d' == d.(dirs := d'.dirs) && PassInv(p, BaseOf(g, base), ROOT, d'.dirs)
    ensures Content(g, base, d', PassState(p)) && Torn(base, d') == Torn(base, d)
  {
  }

  lemma PassDone(g: Geometry, base: Disk, d: Disk, p: Pass)
    requires Acceptable(g, base) && Content(g, base, d, PassState(p))
    requires SubDone(p, BaseOf(g, base), d.dirs, ROOT)
    ensures Content(g, base, d, if p.Marking? then UpdatingInums else UpdatingSb)
  {
    PassBegins(BaseOf(g, base), ROOT, d.dirs);
    if p.Updating? {
      PassEnds(BaseOf(g, base), ROOT, d.dirs);
      assert SbUntouched(g, base, d);
    }
  }

  // Losing power before the last state change leaves the last phase to be run again.
  lemma StillUpdating(g: Geometry, base: Disk, d: Disk, d': Disk, torn: bool)
    requires Acceptable(g, base) && SaneDisk(g, base) && Quiet(d) == Quiet(d') == Fixed(g, base, torn)
    requires StateOf(d.magic).UpdatingSb? && (torn ==> GrownIpg(g, base.sb) != base.sb.ipg)
    ensures d'.magic == d.magic ==> DiskInv(g, base, d') && Torn(base, d') == torn
  {
    var end := Fixed(g, base, torn);
    assert d'.sb.ipg == end.sb.ipg && d'.descs == end.descs && d'.backups == end.backups && d'.bitmaps == end.bitmaps;
    NewDescTorn(g, base, d', torn);
  }
}
