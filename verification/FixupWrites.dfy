/**
 The writes of one run of ext4_utils/ext4fixup.c as a function of the disk it starts from, what a power cut
 leaves of them, and exactly which cuts lose the growth of the free counts.
 */
module FixupWrites {
  import opened FixupTree
  import opened FixupMeaning
  import opened FixupDisk

  /* Writes, and what they do. */

  datatype Write =
    | WriteMagic(magic: nat)
    | WriteBusy(busy: bool)
    | WriteDir(slot: Slot, buf: seq<Entry>, lo: nat, hi: nat)
    | WriteBitmap(group: nat, bits: seq<bool>)
    | WriteSb(group: nat, sb: Superblock)
    | WriteDesc(group: nat, desc: seq<nat>)

  function Apply(d: Disk, w: Write): Disk {
    match w
    case WriteMagic(magic) => d.(magic := magic)
    case WriteBusy(busy) => d.(sb := d.sb.(busy := busy))
    case WriteDir(s, buf, lo, hi) =>
      if s in d.dirs && lo <= hi <= |buf| == |d.dirs[s].entries| then d.(dirs := WriteRange(d.dirs, s, buf, lo, hi)) else d
    case WriteBitmap(i, bits) => if i < |d.bitmaps| then d.(bitmaps := d.bitmaps[i := bits]) else d
    case WriteSb(i, sb) => WithSuperblock(d, i, sb)
    case WriteDesc(i, desc) => d.(descs := d.descs[i := desc])
  }

  function ApplyAll(d: Disk, ws: seq<Write>): Disk {
    if |ws| == 0 then d else Apply(ApplyAll(d, ws[..|ws| - 1]), ws[|ws| - 1])
  }

  lemma {:induction false} ApplyConcat(d: Disk, a: seq<Write>, b: seq<Write>)
    ensures ApplyAll(d, a + b) == ApplyAll(ApplyAll(d, a), b)
  {
    if |b| == 0 {
      assert a + b == a;
    } else {
      var n := |b| - 1;
      assert (a + b)[..|a + b| - 1] == a + b[..n];
      ApplyConcat(d, a, b[..n]);
    }
  }

  lemma ApplyOne(d: Disk, w: Write)
    ensures ApplyAll(d, [w]) == Apply(d, w)
  {
    assert ApplyAll(d, [w][..0]) == d;
  }

  // What reaches the disk when the power lasts for n writes.
  function Cut(ws: seq<Write>, n: nat): seq<Write> {
    if |ws| <= n then ws else ws[..n]
  }

  // The writes took place as far as the power lasted.
  predicate Performed(d: Disk, p: Power, d': Disk, p': Power, ws: seq<Write>, alive: bool) {
    match p
    case Mains => alive && p'.Mains? && d' == ApplyAll(d, ws)
    case Battery(n) =>
      && alive == (|ws| <= n) && d' == ApplyAll(d, Cut(ws, n))
      && p' == Battery(if alive then n - |ws| else 0)
  }

  lemma PerformedNone(d: Disk, p: Power)
    ensures Performed(d, p, d, p, [], true)
  {
  }

  lemma PerformedOne(d: Disk, p: Power, w: Write)
    ensures (p.Mains? || p.writes > 0) ==>
              Performed(d, p, Apply(d, w), if p.Mains? then Mains else Battery(p.writes - 1), [w], true)
    ensures p == Battery(0) ==> Performed(d, p, d, p, [w], false)
  {
    ApplyOne(d, w);
    assert [w][..0] == [];
  }

  lemma PerformedThen(d: Disk, p: Power, mid: Disk, q: Power, d': Disk, p': Power, a: seq<Write>, b: seq<Write>, alive: bool)
    requires Performed(d, p, mid, q, a, true) && Performed(mid, q, d', p', b, alive)
    ensures Performed(d, p, d', p', a + b, alive)
  {
    match p {
      case Mains => ApplyConcat(d, a, b);
      case Battery(n) =>
        ApplyConcat(d, a, Cut(b, n - |a|));
        assert Cut(a + b, n) == a + Cut(b, n - |a|);
    }
  }

  lemma PerformedPart(d: Disk, p: Power, d': Disk, p': Power, a: seq<Write>, b: seq<Write>)
    requires Performed(d, p, d', p', a, false)
    ensures Performed(d, p, d', p', a + b, false)
  {
    assert Cut(a + b, p.writes) == Cut(a, p.writes);
  }

  lemma PerformedAll(d: Disk, p: Power, d': Disk, p': Power, ws: seq<Write>)
    requires Performed(d, p, d', p', ws, true)
    ensures d' == ApplyAll(d, ws)
  {
  }

  /* The writes of a pass over the directories. */

  function NewEntry(p: Pass, perBlock: nat, ipg: nat, e: Entry): Entry
    requires perBlock > 0 && ipg > 0
  {
    if p.Marking? then e.(inode := Mark(e.inode))
    else if Marked(e.inode) && Bare(e.inode) > 0 then e.(inode := NewInum(Bare(e.inode), ipg, AlignUp(ipg, perBlock)))
    else e
  }

  function NewEntries(p: Pass, perBlock: nat, ipg: nat, es: seq<Entry>): (r: seq<Entry>)
    requires perBlock > 0 && ipg > 0
    ensures |r| == |es|
    ensures forall i :: 0 <= i < |es| ==> r[i] == if i < Live(es) then NewEntry(p, perBlock, ipg, es[i]) else es[i]
  {
    seq(|es|, i requires 0 <= i < |es| => if i < Live(es) then NewEntry(p, perBlock, ipg, es[i]) else es[i])
  }

  function RankOf(g: Geometry, s: Slot): nat {
    if s in g.rank then g.rank[s] else 0
  }

  // The pass goes down into the directory that an entry of s names.
  predicate Descends(p: Pass, g: Geometry, ipg: nat, d: Disk, s: Slot, e: Entry)
    requires ipg > 0
  {
    && (p.Marking? || Marked(e.inode)) && Bare(e.inode) > 0 && IsDirEntry(d.dirs, ipg, e) && !IsDot(e)
    && SlotOf(Bare(e.inode), ipg) in d.dirs && RankOf(g, SlotOf(Bare(e.inode), ipg)) < RankOf(g, s)
  }

  // The first k blocks of a directory.
  function BlockWrites(s: Slot, buf: seq<Entry>, ends: seq<nat>, k: nat): seq<Write>
    requires k <= |ends|
  {
    if k == 0 then []
    else BlockWrites(s, buf, ends, k - 1) + [WriteDir(s, buf, if k == 1 then 0 else ends[k - 2], ends[k - 1])]
  }

  function DirWrites(p: Pass, g: Geometry, ipg: nat, d: Disk, s: Slot): seq<Write>
    requires g.perBlock > 0 && ipg > 0
    decreases RankOf(g, s), 1, 0
  {
    if s !in d.dirs then []
    else
      EntryWrites(p, g, ipg, d, s, d.dirs[s].entries, 0)
      + BlockWrites(s, NewEntries(p, g.perBlock, ipg, d.dirs[s].entries), d.dirs[s].ends, |d.dirs[s].ends|)
  }

  // What lies below the entries from i on.
  function EntryWrites(p: Pass, g: Geometry, ipg: nat, d: Disk, s: Slot, es: seq<Entry>, i: nat): seq<Write>
    requires g.perBlock > 0 && ipg > 0 && i <= |es|
    decreases RankOf(g, s), 0, |es| - i
  {
    if i == |es| || es[i].inode == 0 then []
    else if Descends(p, g, ipg, d, s, es[i]) then
      var ws := DirWrites(p, g, ipg, d, SlotOf(Bare(es[i].inode), ipg));
      ws + EntryWrites(p, g, ipg, ApplyAll(d, ws), s, es, i + 1)
    else EntryWrites(p, g, ipg, d, s, es, i + 1)
  }

  function BelowEntry(p: Pass, g: Geometry, ipg: nat, d: Disk, s: Slot, e: Entry): seq<Write>
    requires g.perBlock > 0 && ipg > 0
  {
    if Descends(p, g, ipg, d, s, e) then DirWrites(p, g, ipg, d, SlotOf(Bare(e.inode), ipg)) else []
  }

  // One more entry, after whatever was written so far.
  lemma EntryWritesNext(p: Pass, g: Geometry, ipg: nat, d: Disk, s: Slot, es: seq<Entry>, i: nat,
                        done: seq<Write>, total: seq<Write>)
    requires g.perBlock > 0 && ipg > 0 && i < |es| && es[i].inode != 0
    requires total == done + EntryWrites(p, g, ipg, d, s, es, i)
    ensures var ws := BelowEntry(p, g, ipg, d, s, es[i]);
            total == done + ws + EntryWrites(p, g, ipg, ApplyAll(d, ws), s, es, i + 1)
  {
    hide DirWrites, Descends;
  }

  lemma NoEntriesLeft(p: Pass, g: Geometry, ipg: nat, d: Disk, s: Slot, es: seq<Entry>, i: nat)
    requires g.perBlock > 0 && ipg > 0 && i <= |es| && (i == |es| || es[i].inode == 0)
    ensures EntryWrites(p, g, ipg, d, s, es, i) == []
  {
  }

  // A buffer in which the first i entries, all live, are as they will be and the others as they were.
  predicate PartNew(p: Pass, perBlock: nat, ipg: nat, es: seq<Entry>, buf: seq<Entry>, i: nat)
    requires perBlock > 0 && ipg > 0
  {
    && i <= |es| == |buf| && (forall j :: 0 <= j < i ==> es[j].inode != 0 && buf[j] == NewEntry(p, perBlock, ipg, es[j]))
    && forall j :: i <= j < |es| ==> buf[j] == es[j]
  }

  lemma PartNewStarts(p: Pass, perBlock: nat, ipg: nat, es: seq<Entry>)
    requires perBlock > 0 && ipg > 0
    ensures PartNew(p, perBlock, ipg, es, es, 0)
  {
  }

  lemma PartNewHere(p: Pass, perBlock: nat, ipg: nat, es: seq<Entry>, buf: seq<Entry>, i: nat)
    requires perBlock > 0 && ipg > 0 && PartNew(p, perBlock, ipg, es, buf, i) && i < |es|
    ensures buf[i] == es[i]
  {
  }

  lemma PartNewNext(p: Pass, perBlock: nat, ipg: nat, es: seq<Entry>, buf: seq<Entry>, i: nat, e: Entry)
    requires perBlock > 0 && ipg > 0 && PartNew(p, perBlock, ipg, es, buf, i) && i < |es| && es[i].inode != 0
    requires e == NewEntry(p, perBlock, ipg, es[i])
    ensures PartNew(p, perBlock, ipg, es, buf[i := e], i + 1)
  {
  }

  lemma PartNewEnds(p: Pass, perBlock: nat, ipg: nat, es: seq<Entry>, buf: seq<Entry>, i: nat)
    requires perBlock > 0 && ipg > 0 && PartNew(p, perBlock, ipg, es, buf, i) && (i == |es| || buf[i].inode == 0)
    ensures buf == NewEntries(p, perBlock, ipg, es) && (i == |es| || es[i].inode == 0)
  {
    assert Live(es) == i;
  }

  lemma {:induction false} BlocksRest(s: Slot, buf: seq<Entry>, ends: seq<nat>, k: nat) returns (rest: seq<Write>)
    requires k <= |ends|
    ensures BlockWrites(s, buf, ends, |ends|) == BlockWrites(s, buf, ends, k) + rest
    decreases |ends| - k
  {
    rest := [];
    if k < |ends| {
      var more := BlocksRest(s, buf, ends, k + 1);
      rest := [WriteDir(s, buf, if k == 0 then 0 else ends[k - 1], ends[k])] + more;
    }
  }

  /* The writes of a run. */

  function StateWrites(st: State): seq<Write> {
    [WriteMagic(MagicOf(st)), WriteBusy(!st.Unset?)]
  }

  function StartWrites(d: Disk): seq<Write> {
    if StateOf(d.magic).Unset? then StateWrites(MarkingInums) else []
  }

  function PassWrites(p: Pass, g: Geometry, d: Disk): seq<Write>
    requires g.perBlock > 0
  {
    if StateOf(d.magic) == PassState(p) && d.sb.ipg > 0 then
      DirWrites(p, g, d.sb.ipg, d, ROOT) + StateWrites(if p.Marking? then UpdatingInums else UpdatingSb)
    else []
  }

  // The bitmaps of the first k groups that have to be cleared.
  function BitmapWrites(d: Disk, newIpg: nat, k: nat): seq<Write>
    requires k <= |d.bitmaps|
  {
    if k == 0 then []
    else
      BitmapWrites(d, newIpg, k - 1)
      + var bits := Cleared(d.bitmaps[k - 1], d.sb.ipg, newIpg);
        if bits != d.bitmaps[k - 1] then [WriteBitmap(k - 1, bits)] else []
  }

  function GroupWrite(i: nat, sb: Superblock, desc: seq<nat>): seq<Write> {
    [WriteSb(i, sb.(groupNr := i, busy := sb.busy && i == 0)), WriteDesc(i, desc)]
  }

  // The superblocks and descriptors of the first k groups.
  function GroupWrites(g: Geometry, sb: Superblock, desc: seq<nat>, k: nat): seq<Write> {
    if k == 0 then []
    else GroupWrites(g, sb, desc, k - 1) + if k - 1 in g.supers then GroupWrite(k - 1, sb, desc) else []
  }

  lemma {:induction false} BitmapsRest(d: Disk, newIpg: nat, k: nat) returns (rest: seq<Write>)
    requires k <= |d.bitmaps|
    ensures BitmapWrites(d, newIpg, |d.bitmaps|) == BitmapWrites(d, newIpg, k) + rest
    decreases |d.bitmaps| - k
  {
    rest := [];
    if k < |d.bitmaps| {
      var more := BitmapsRest(d, newIpg, k + 1);
      var bits := Cleared(d.bitmaps[k], d.sb.ipg, newIpg);
      rest := (if bits != d.bitmaps[k] then [WriteBitmap(k, bits)] else []) + more;
    }
  }

  lemma {:induction false} GroupsRest(g: Geometry, sb: Superblock, desc: seq<nat>, k: nat) returns (rest: seq<Write>)
    requires k <= g.groups
    ensures GroupWrites(g, sb, desc, g.groups) == GroupWrites(g, sb, desc, k) + rest
    decreases g.groups - k
  {
    rest := [];
    if k < g.groups {
      var more := GroupsRest(g, sb, desc, k + 1);
      rest := (if k in g.supers then GroupWrite(k, sb, desc) else []) + more;
    }
  }

  lemma NoGroups(g: Geometry, sb: Superblock, desc: seq<nat>)
    ensures GroupWrites(g, sb, desc, 0) == []
  {
  }

  lemma OneGroup(g: Geometry, sb: Superblock, desc: seq<nat>, k: nat)
    ensures GroupWrites(g, sb, desc, k + 1) ==
            if k in g.supers then GroupWrites(g, sb, desc, k) + GroupWrite(k, sb, desc) else GroupWrites(g, sb, desc, k)
  {
  }

  lemma NoBitmaps(d: Disk, newIpg: nat)
    ensures BitmapWrites(d, newIpg, 0) == []
  {
  }

  lemma OneBitmap(d: Disk, newIpg: nat, k: nat)
    requires k < |d.bitmaps|
    ensures var bits := Cleared(d.bitmaps[k], d.sb.ipg, newIpg);
            BitmapWrites(d, newIpg, k + 1) ==
            if bits != d.bitmaps[k] then BitmapWrites(d, newIpg, k) + [WriteBitmap(k, bits)] else BitmapWrites(d, newIpg, k)
  {
  }

  function AllBitmaps(g: Geometry, d: Disk): seq<Write>
    requires g.perBlock > 0
  {
    BitmapWrites(d, NewSuperblock(g, d.sb).ipg, |d.bitmaps|)
  }

  function AllGroups(g: Geometry, d: Disk): seq<Write>
    requires g.perBlock > 0
  {
    var sb := NewSuperblock(g, d.sb);
    GroupWrites(g, sb, if 0 in d.descs then Grown(d.descs[0], sb.ipg - d.sb.ipg) else [], g.groups)
  }

  // The disk when the last phase begins.
  function BeforeLast(g: Geometry, d: Disk): Disk
    requires g.perBlock > 0
  {
    var d0 := ApplyAll(d, StartWrites(d));
    var d1 := ApplyAll(d0, PassWrites(Marking, g, d0));
    ApplyAll(d1, PassWrites(Updating, g, d1))
  }

  // Everything before the primary superblock is written.
  function Lead(g: Geometry, d: Disk): seq<Write>
    requires g.perBlock > 0
  {
    var d0 := ApplyAll(d, StartWrites(d));
    var d1 := ApplyAll(d0, PassWrites(Marking, g, d0));
    StartWrites(d) + PassWrites(Marking, g, d0) + PassWrites(Updating, g, d1) + AllBitmaps(g, BeforeLast(g, d))
  }

  function LeadPasses(g: Geometry, d: Disk): seq<Write>
    requires g.perBlock > 0
  {
    var d0 := ApplyAll(d, StartWrites(d));
    var d1 := ApplyAll(d0, PassWrites(Marking, g, d0));
    StartWrites(d) + PassWrites(Marking, g, d0) + PassWrites(Updating, g, d1)
  }

  lemma {:induction false} PassesLead(g: Geometry, d: Disk)
    requires g.perBlock > 0
    ensures ApplyAll(d, LeadPasses(g, d)) == BeforeLast(g, d)
  {
    hide PassWrites, StartWrites, ApplyAll;
    var a0 := StartWrites(d);
    var d0 := ApplyAll(d, a0);
    var a1 := PassWrites(Marking, g, d0);
    var d1 := ApplyAll(d0, a1);
    ApplyConcat(d, a0, a1);
    ApplyConcat(d, a0 + a1, PassWrites(Updating, g, d1));
  }

  // The parts of a run, in order.
  lemma RunParts(g: Geometry, d: Disk)
    requires g.perBlock > 0
    ensures RunWrites(g, d) ==
            LeadPasses(g, d) + (AllBitmaps(g, BeforeLast(g, d)) + AllGroups(g, BeforeLast(g, d))) + StateWrites(Unset)
  {
    hide PassWrites, StartWrites, ApplyAll, AllBitmaps, AllGroups, StateWrites;
  }

  // All the writes of a run that is not cut.
  function RunWrites(g: Geometry, d: Disk): seq<Write>
    requires g.perBlock > 0
  {
    Lead(g, d) + AllGroups(g, BeforeLast(g, d)) + StateWrites(Unset)
  }

  // The disk that a run leaves when the power lasts for n writes.
  function After(g: Geometry, d: Disk, n: nat): Disk
    requires g.perBlock > 0
  {
    ApplyAll(d, Cut(RunWrites(g, d), n))
  }

  // The disk that a series of runs leaves, each with power for the given number of writes.
  function Left(g: Geometry, d: Disk, cuts: seq<nat>): Disk
    requires g.perBlock > 0
  {
    if |cuts| == 0 then d else After(g, Left(g, d, cuts[..|cuts| - 1]), cuts[|cuts| - 1])
  }

  /* Which cuts tear the primary superblock from its descriptors. */

  // Run k of a series is the first that gets to write the primary superblock.
  predicate FirstToWrite(g: Geometry, d: Disk, cuts: seq<nat>, k: nat)
    requires g.perBlock > 0 && k < |cuts|
  {
    && cuts[k] > |Lead(g, Left(g, d, cuts[..k]))|
    && forall j :: 0 <= j < k ==> cuts[j] <= |Lead(g, Left(g, d, cuts[..j]))|
  }

  // That run is cut right after this write.
  predicate TearsAt(g: Geometry, d: Disk, cuts: seq<nat>, k: nat)
    requires g.perBlock > 0 && k < |cuts|
  {
    FirstToWrite(g, d, cuts, k) && cuts[k] == |Lead(g, Left(g, d, cuts[..k]))| + 1
  }

  predicate Tears(g: Geometry, d: Disk, cuts: seq<nat>)
    requires g.perBlock > 0
  {
    exists k :: 0 <= k < |cuts| && TearsAt(g, d, cuts, k)
  }

  // The growth is lost: the count of inodes has to be rounded, and the series tears.
  predicate Loses(g: Geometry, d: Disk, cuts: seq<nat>)
    requires g.perBlock > 0
  {
    d.sb.ipg % g.perBlock != 0 && Tears(g, d, cuts)
  }

  // Neither the primary superblock nor its descriptors.
  predicate Aside(w: Write) {
    (w.WriteSb? ==> w.group != 0) && (w.WriteDesc? ==> w.group != 0)
  }

  predicate AllAside(ws: seq<Write>) {
    forall i :: 0 <= i < |ws| ==> Aside(ws[i])
  }

  // What tells whether a disk is torn.
  predicate SameHead(d: Disk, d': Disk) {
    d'.sb.ipg == d.sb.ipg && (0 in d.descs ==> 0 in d'.descs && d'.descs[0] == d.descs[0])
  }

  lemma {:induction false} AsideKeepsHead(d: Disk, ws: seq<Write>)
    requires AllAside(ws)
    ensures SameHead(d, ApplyAll(d, ws))
  {
    if |ws| > 0 {
      assert Aside(ws[|ws| - 1]);
      AsideKeepsHead(d, ws[..|ws| - 1]);
    }
  }

  lemma AsideConcat(a: seq<Write>, b: seq<Write>)
    requires AllAside(a) && AllAside(b)
    ensures AllAside(a + b)
  {
  }

  lemma {:induction false} BlocksAside(s: Slot, buf: seq<Entry>, ends: seq<nat>, k: nat)
    requires k <= |ends|
    ensures AllAside(BlockWrites(s, buf, ends, k))
  {
    if k > 0 {
      BlocksAside(s, buf, ends, k - 1);
    }
  }

  lemma {:induction false} DirAside(p: Pass, g: Geometry, ipg: nat, d: Disk, s: Slot)
    requires g.perBlock > 0 && ipg > 0
    ensures AllAside(DirWrites(p, g, ipg, d, s))
    decreases RankOf(g, s), 1, 0
  {
    if s in d.dirs {
      var es, ends := d.dirs[s].entries, d.dirs[s].ends;
      EntriesAside(p, g, ipg, d, s, es, 0);
      BlocksAside(s, NewEntries(p, g.perBlock, ipg, es), ends, |ends|);
      AsideConcat(EntryWrites(p, g, ipg, d, s, es, 0), BlockWrites(s, NewEntries(p, g.perBlock, ipg, es), ends, |ends|));
    }
  }

  lemma {:induction false} EntriesAside(p: Pass, g: Geometry, ipg: nat, d: Disk, s: Slot, es: seq<Entry>, i: nat)
    requires g.perBlock > 0 && ipg > 0 && i <= |es|
    ensures AllAside(EntryWrites(p, g, ipg, d, s, es, i))
    decreases RankOf(g, s), 0, |es| - i
  {
    if i < |es| && es[i].inode != 0 {
      if Descends(p, g, ipg, d, s, es[i]) {
        var ws := DirWrites(p, g, ipg, d, SlotOf(Bare(es[i].inode), ipg));
        DirAside(p, g, ipg, d, SlotOf(Bare(es[i].inode), ipg));
        EntriesAside(p, g, ipg, ApplyAll(d, ws), s, es, i + 1);
        AsideConcat(ws, EntryWrites(p, g, ipg, ApplyAll(d, ws), s, es, i + 1));
      } else {
        EntriesAside(p, g, ipg, d, s, es, i + 1);
      }
    }
  }

  lemma PassAside(p: Pass, g: Geometry, d: Disk)
    requires g.perBlock > 0
    ensures AllAside(PassWrites(p, g, d))
  {
    if StateOf(d.magic) == PassState(p) && d.sb.ipg > 0 {
      DirAside(p, g, d.sb.ipg, d, ROOT);
      AsideConcat(DirWrites(p, g, d.sb.ipg, d, ROOT), StateWrites(if p.Marking? then UpdatingInums else UpdatingSb));
    }
  }

  lemma {:induction false} BitmapsAside(d: Disk, newIpg: nat, k: nat)
    requires k <= |d.bitmaps|
    ensures AllAside(BitmapWrites(d, newIpg, k))
  {
    if k > 0 {
      BitmapsAside(d, newIpg, k - 1);
    }
  }

  lemma LeadAside(g: Geometry, d: Disk)
    requires g.perBlock > 0
    ensures AllAside(Lead(g, d)) && SameHead(d, BeforeLast(g, d))
  {
    hide PassWrites, BitmapWrites, AllAside, ApplyAll, StartWrites, NewSuperblock;
    var d0 := ApplyAll(d, StartWrites(d));
    var w1 := PassWrites(Marking, g, d0);
    var d1 := ApplyAll(d0, w1);
    var w2 := PassWrites(Updating, g, d1);
    var d2 := BeforeLast(g, d);
    StartAside(d);
    PassAside(Marking, g, d0);
    PassAside(Updating, g, d1);
    BitmapsAside(d2, NewSuperblock(g, d2.sb).ipg, |d2.bitmaps|);
    AsideKeepsHead(d, StartWrites(d));
    AsideKeepsHead(d0, w1);
    AsideKeepsHead(d1, w2);
    AsideConcat(StartWrites(d), w1);
    AsideConcat(StartWrites(d) + w1, w2);
    AsideConcat(StartWrites(d) + w1 + w2, AllBitmaps(g, d2));
  }

  lemma StartAside(d: Disk)
    ensures AllAside(StartWrites(d))
  {
  }

  // After group 0 the writes are on the other groups.
  lemma {:induction false} GroupsAfterFirst(g: Geometry, sb: Superblock, desc: seq<nat>, k: nat)
    requires 0 in g.supers && k > 0
    ensures var ws := GroupWrites(g, sb, desc, k);
            |ws| >= 2 && ws[..2] == GroupWrite(0, sb, desc) && AllAside(ws[2..])
  {
    var front := GroupWrites(g, sb, desc, k - 1);
    if k == 1 {
      assert front == [];
    } else {
      GroupsAfterFirst(g, sb, desc, k - 1);
      var last := if k - 1 in g.supers then GroupWrite(k - 1, sb, desc) else [];
      assert (front + last)[2..] == front[2..] + last;
    }
  }

  predicate Started(g: Geometry, d: Disk) {
    g.perBlock > 0 && g.groups > 0 && 0 in g.supers && 0 in d.descs
  }

  // The writes of a run: the lead, then the primary superblock and its descriptors, then others.
  lemma RunShape(g: Geometry, d: Disk) returns (rest: seq<Write>)
    requires Started(g, d)
    ensures var last := BeforeLast(g, d);
            var sb := NewSuperblock(g, last.sb);
            && SameHead(d, last) && AllAside(Lead(g, d)) && AllAside(rest)
            && RunWrites(g, d) == Lead(g, d) + GroupWrite(0, sb, Grown(d.descs[0], sb.ipg - last.sb.ipg)) + rest
  {
    hide Lead, NewSuperblock, GroupWrites, BeforeLast, AllAside, GroupWrite, ApplyAll;
    LeadAside(g, d);
    var last := BeforeLast(g, d);
    var sb := NewSuperblock(g, last.sb);
    var desc := Grown(last.descs[0], sb.ipg - last.sb.ipg);
    var ws := GroupWrites(g, sb, desc, g.groups);
    GroupsAfterFirst(g, sb, desc, g.groups);
    StateAside(Unset);
    AsideConcat(ws[2..], StateWrites(Unset));
    rest := ws[2..] + StateWrites(Unset);
    assert ws == ws[..2] + ws[2..];
    assert RunWrites(g, d) == Lead(g, d) + ws + StateWrites(Unset);
  }

  lemma StateAside(st: State)
    ensures AllAside(StateWrites(st))
  {
  }

  lemma CutWithin(a: seq<Write>, w: Write, v: Write, rest: seq<Write>, n: nat)
    ensures var ws := Cut(a + [w, v] + rest, n);
            && (n <= |a| ==> ws == a[..n]) && (n == |a| + 1 ==> ws == a + [w])
            && (n >= |a| + 2 ==> ws == a + [w, v] + Cut(rest, n - |a| - 2))
  {
  }

  // What n writes of a run make of the count in the primary superblock and of its descriptors.
  lemma HeadAfter(g: Geometry, d: Disk, n: nat)
    requires Started(g, d)
    ensures GrownIpg(g, d.sb) >= d.sb.ipg
    ensures var a, lead := After(g, d, n), |Lead(g, d)|;
            && 0 in a.descs && a.sb.ipg == (if n > lead then GrownIpg(g, d.sb) else d.sb.ipg)
            && a.descs[0] == if n > lead + 1 then Grown(d.descs[0], GrownIpg(g, d.sb) - d.sb.ipg) else d.descs[0]
  {
    hide Lead, RunWrites, BeforeLast, AllAside, ApplyAll;
    AlignUpFits(d.sb.ipg, g.perBlock);
    var rest := RunShape(g, d);
    var sb := NewSuperblock(g, BeforeLast(g, d).sb);
    var pair := GroupWrite(0, sb, Grown(d.descs[0], sb.ipg - BeforeLast(g, d).sb.ipg));
    var lead := Lead(g, d);
    CutWithin(lead, pair[0], pair[1], rest, n);
    assert pair == [pair[0], pair[1]];
    if n <= |lead| {
      AsideCut(lead, n);
      AsideKeepsHead(d, lead[..n]);
    } else {
      AsideKeepsHead(d, lead);
      var d1 := ApplyAll(d, lead);
      ApplyConcat(d, lead, [pair[0]]);
      ApplyOne(d1, pair[0]);
      if n > |lead| + 1 {
        var d2 := Apply(d1, pair[0]);
        ApplyTwo(d1, pair[0], pair[1]);
        ApplyConcat(d, lead, pair);
        AsideCut(rest, n - |lead| - 2);
        AsideKeepsHead(Apply(d2, pair[1]), Cut(rest, n - |lead| - 2));
        ApplyConcat(d, lead + pair, Cut(rest, n - |lead| - 2));
      }
    }
  }

  lemma AsideCut(ws: seq<Write>, n: nat)
    requires AllAside(ws)
    ensures AllAside(Cut(ws, n)) && (n <= |ws| ==> AllAside(ws[..n]))
  {
  }

  lemma ApplyTwo(d: Disk, w: Write, v: Write)
    ensures ApplyAll(d, [w, v]) == Apply(Apply(d, w), v)
  {
    ApplyOne(d, w);
    assert [w, v][..1] == [w];
  }

  // Some run of the series gets to write the primary superblock.
  predicate Wrote(g: Geometry, d: Disk, cuts: seq<nat>)
    requires g.perBlock > 0
  {
    exists k :: 0 <= k < |cuts| && Writes(g, d, cuts, k)
  }

  predicate Writes(g: Geometry, d: Disk, cuts: seq<nat>, k: nat)
    requires g.perBlock > 0 && k < |cuts|
  {
    cuts[k] > |Lead(g, Left(g, d, cuts[..k]))|
  }

  // A series with one run more.
  lemma OneMore(g: Geometry, d: Disk, cuts: seq<nat>, n: nat)
    requires g.perBlock > 0
    ensures var all, lead := cuts + [n], |Lead(g, Left(g, d, cuts))|;
            && Left(g, d, all) == After(g, Left(g, d, cuts), n)
            && (Wrote(g, d, all) <==> Wrote(g, d, cuts) || n > lead)
            && (Tears(g, d, all) <==> Tears(g, d, cuts) || (!Wrote(g, d, cuts) && n == lead + 1))
  {
    hide Lead, After;
    var all := cuts + [n];
    assert all[..|cuts|] == cuts;
    forall k | 0 <= k < |cuts| ensures Writes(g, d, all, k) == Writes(g, d, cuts, k) {
      assert all[..k] == cuts[..k];
    }
    WroteMore(g, d, cuts, n);
    TearsMore(g, d, cuts, n);
  }

  lemma WroteMore(g: Geometry, d: Disk, cuts: seq<nat>, n: nat)
    requires g.perBlock > 0
    requires forall k :: 0 <= k < |cuts| ==> Writes(g, d, cuts + [n], k) == Writes(g, d, cuts, k)
    ensures Wrote(g, d, cuts + [n]) <==> Wrote(g, d, cuts) || n > |Lead(g, Left(g, d, cuts))|
  {
    hide Lead, Left;
    var all := cuts + [n];
    assert all[..|cuts|] == cuts;
    assert Writes(g, d, all, |cuts|) == (n > |Lead(g, Left(g, d, cuts))|);
    if Wrote(g, d, cuts) {
      var k :| 0 <= k < |cuts| && Writes(g, d, cuts, k);
      assert Writes(g, d, all, k);
    }
  }

  lemma FirstIs(g: Geometry, d: Disk, cuts: seq<nat>, k: nat)
    requires g.perBlock > 0 && k < |cuts|
    ensures FirstToWrite(g, d, cuts, k) <==> Writes(g, d, cuts, k) && forall j :: 0 <= j < k ==> !Writes(g, d, cuts, j)
  {
    hide Lead, Left;
    if forall j :: 0 <= j < k ==> !Writes(g, d, cuts, j) {
      forall j | 0 <= j < k ensures cuts[j] <= |Lead(g, Left(g, d, cuts[..j]))| {
        assert !Writes(g, d, cuts, j);
      }
    }
  }

  lemma TearsMore(g: Geometry, d: Disk, cuts: seq<nat>, n: nat)
    requires g.perBlock > 0
    requires forall k :: 0 <= k < |cuts| ==> Writes(g, d, cuts + [n], k) == Writes(g, d, cuts, k)
    ensures Tears(g, d, cuts + [n]) <==>
              Tears(g, d, cuts) || (!Wrote(g, d, cuts) && n == |Lead(g, Left(g, d, cuts))| + 1)
  {
    hide Lead, Left, FirstToWrite;
    var all := cuts + [n];
    assert all[..|cuts|] == cuts;
    forall k | 0 <= k < |cuts| ensures TearsAt(g, d, all, k) == TearsAt(g, d, cuts, k) {
      assert all[..k] == cuts[..k];
      FirstIs(g, d, all, k);
      FirstIs(g, d, cuts, k);
    }
    FirstIs(g, d, all, |cuts|);
    assert TearsAt(g, d, all, |cuts|) <==> !Wrote(g, d, cuts) && n == |Lead(g, Left(g, d, cuts))| + 1;
    if Tears(g, d, cuts) {
      var k :| 0 <= k < |cuts| && TearsAt(g, d, cuts, k);
      assert TearsAt(g, d, all, k);
    }
  }

  // The primary superblock and its descriptors after a series of runs.
  predicate HeadIs(g: Geometry, d: Disk, cuts: seq<nat>)
    requires Started(g, d)
  {
    var left := Left(g, d, cuts);
    && 0 in left.descs && left.sb.ipg == (if Wrote(g, d, cuts) then GrownIpg(g, d.sb) else d.sb.ipg)
    && (Tears(g, d, cuts) ==> Wrote(g, d, cuts))
    && (!Wrote(g, d, cuts) ==> left.descs[0] == d.descs[0])
    && (Wrote(g, d, cuts) && d.sb.ipg % g.perBlock != 0 ==> (left.descs[0] == d.descs[0] <==> Tears(g, d, cuts)))
  }

  lemma {:induction false} HeadLeft(g: Geometry, d: Disk, cuts: seq<nat>)
    requires Started(g, d) && |d.descs[0]| > 0
    ensures HeadIs(g, d, cuts)
  {
    hide *;
    if |cuts| == 0 {
      HeadStarts(g, d);
    } else {
      var k := |cuts| - 1;
      HeadLeft(g, d, cuts[..k]);
      assert cuts == cuts[..k] + [cuts[k]];
      HeadNext(g, d, cuts[..k], cuts[k]);
    }
  }

  lemma HeadStarts(g: Geometry, d: Disk)
    requires Started(g, d)
    ensures HeadIs(g, d, [])
  {
    hide Lead, GrownIpg;
  }

  lemma HeadNext(g: Geometry, d: Disk, front: seq<nat>, n: nat)
    requires Started(g, d) && |d.descs[0]| > 0 && HeadIs(g, d, front)
    ensures HeadIs(g, d, front + [n])
  {
    hide Left, Lead, After, Wrote, Tears;
    var left := Left(g, d, front);
    OneMore(g, d, front, n);
    HeadAfter(g, left, n);
    AlignUpFits(d.sb.ipg, g.perBlock);
    AlignedExactly(d.sb.ipg, g.perBlock);
    GrownByZero(left.descs[0]);
    if GrownIpg(g, d.sb) > d.sb.ipg {
      assert Grown(d.descs[0], GrownIpg(g, d.sb) - d.sb.ipg)[0] != d.descs[0][0];
    }
  }

  // A series of runs leaves a torn disk if and only if it loses the growth.
  lemma TornIff(g: Geometry, d: Disk, cuts: seq<nat>)
    requires Acceptable(g, d)
    ensures Torn(d, Left(g, d, cuts)) <==> Loses(g, d, cuts)
  {
    hide Left, Wrote, Tears;
    HeadLeft(g, d, cuts);
    AlignUpFits(d.sb.ipg, g.perBlock);
    AlignedExactly(d.sb.ipg, g.perBlock);
  }

  // A cut anywhere but between a superblock and its descriptors: after a block of a directory or after a
  // whole group, where the tool has its hooks to stop, and wherever else no superblock was just written.
  predicate AtHook(g: Geometry, d: Disk, n: nat)
    requires g.perBlock > 0
  {
    var ws := RunWrites(g, d);
    n == 0 || n >= |ws| || !ws[n - 1].WriteSb?
  }

  // Cuts at the hooks never lose anything.
  lemma HooksLoseNothing(g: Geometry, d: Disk, cuts: seq<nat>)
    requires Acceptable(g, d)
    requires forall k :: 0 <= k < |cuts| ==> AtHook(g, Left(g, d, cuts[..k]), cuts[k])
    ensures !Loses(g, d, cuts)
  {
    hide Lead, RunWrites, Left;
    forall k | 0 <= k < |cuts| ensures !TearsAt(g, d, cuts, k) {
      var left := Left(g, d, cuts[..k]);
      HeadLeft(g, d, cuts[..k]);
      assert AtHook(g, left, cuts[k]);
      PrimaryFollowsLead(g, left);
    }
  }

  // The write after the lead is the primary superblock, and the one after that its descriptors.
  lemma PrimaryFollowsLead(g: Geometry, d: Disk)
    requires Started(g, d)
    ensures var ws, n := RunWrites(g, d), |Lead(g, d)|;
            && |ws| > n + 1 && ws[n].WriteSb? && ws[n].group == 0 && ws[n + 1].WriteDesc? && ws[n + 1].group == 0
  {
    hide Lead, RunWrites;
    var _ := RunShape(g, d);
  }

  // With all else done, one write is enough to tear the disk.
  lemma OneWriteTears(g: Geometry, base: Disk, d: Disk)
    requires Acceptable(g, base) && StateOf(d.magic).UpdatingSb? && base.sb.ipg % g.perBlock != 0
    requires d.sb.ipg == base.sb.ipg && d.descs == base.descs && AllBitmaps(g, d) == []
    ensures Torn(base, After(g, d, 1))
  {
    hide RunWrites, ApplyAll, AllBitmaps;
    NoLead(g, d);
    HeadAfter(g, d, 1);
    AlignUpFits(base.sb.ipg, g.perBlock);
    AlignedExactly(base.sb.ipg, g.perBlock);
  }

  lemma NoLead(g: Geometry, d: Disk)
    requires g.perBlock > 0 && StateOf(d.magic).UpdatingSb? && AllBitmaps(g, d) == []
    ensures |Lead(g, d)| == 0
  {
    assert StartWrites(d) == [] && PassWrites(Marking, g, d) == [] && PassWrites(Updating, g, d) == [];
  }

  const SMALL := Geometry(1, 4, {0}, map[ROOT := 0])

  // An empty root directory, and two inodes in a group where a block holds four.
  const EMPTY := Disk(0, map[ROOT := Dir([], [0])], Superblock(2, 1, 2, false, 0), map[], map[0 := [1]], [[]])

  // On that image a cut after nine writes loses the two inodes that the group gains.
  lemma GrowthLost()
    ensures Acceptable(SMALL, EMPTY) && SaneDisk(SMALL, EMPTY) && Loses(SMALL, EMPTY, [9])
    ensures Fixed(SMALL, EMPTY, true) != Fixed(SMALL, EMPTY, false)
  {
    SmallLead();
    assert [9][..0] == [];
    assert Left(SMALL, EMPTY, []) == EMPTY;
    assert FirstToWrite(SMALL, EMPTY, [9], 0);
    assert TearsAt(SMALL, EMPTY, [9], 0);
    SmallAccepted();
    TornLosesGrowth(SMALL, EMPTY);
  }

  lemma SmallAccepted()
    ensures Acceptable(SMALL, EMPTY) && SaneDisk(SMALL, EMPTY)
  {
    assert AlignUp(2, 4) == 4;
    assert Sub(BaseOf(SMALL, EMPTY), ROOT) == {ROOT};
  }

  // The one block of the root directory, written by either pass.
  lemma SmallPass(p: Pass, d: Disk)
    requires d.dirs == EMPTY.dirs && d.sb.ipg == 2 && StateOf(d.magic) == PassState(p)
    ensures |PassWrites(p, SMALL, d)| == 3
    ensures ApplyAll(d, PassWrites(p, SMALL, d)) ==
            d.(magic := MagicOf(if p.Marking? then UpdatingInums else UpdatingSb), sb := d.sb.(busy := true))
  {
    hide DirWrites, ApplyAll;
    var w, st := WriteDir(ROOT, [], 0, 0), if p.Marking? then UpdatingInums else UpdatingSb;
    SmallDir(p, SMALL, d);
    ApplyConcat(d, [w], StateWrites(st));
    ApplyTwo(d, WriteMagic(MagicOf(st)), WriteBusy(true));
  }

  // Writing the one, empty, block of a directory.
  lemma SmallDir(p: Pass, g: Geometry, d: Disk)
    requires g.perBlock > 0 && ROOT in d.dirs && d.dirs[ROOT] == Dir([], [0])
    ensures var w := WriteDir(ROOT, [], 0, 0); DirWrites(p, g, 2, d, ROOT) == [w] && ApplyAll(d, [w]) == d
  {
    var w := WriteDir(ROOT, [], 0, 0);
    assert BlockWrites(ROOT, [], [0], 1) == BlockWrites(ROOT, [], [0], 0) + [w];
    ApplyOne(d, w);
    assert WriteRange(d.dirs, ROOT, [], 0, 0) == d.dirs;
  }

  lemma SmallLead()
    ensures |Lead(SMALL, EMPTY)| == 8
  {
    var d0 := ApplyAll(EMPTY, StartWrites(EMPTY));
    ApplyTwo(EMPTY, WriteMagic(MagicOf(MarkingInums)), WriteBusy(true));
    SmallPass(Marking, d0);
    var d1 := ApplyAll(d0, PassWrites(Marking, SMALL, d0));
    SmallPass(Updating, d1);
    var d2 := BeforeLast(SMALL, EMPTY);
    assert d2.bitmaps == [[]];
    SmallBitmaps(d2);
  }

  lemma SmallBitmaps(d: Disk)
    requires d.bitmaps == [[]]
    ensures AllBitmaps(SMALL, d) == []
  {
    var newIpg := NewSuperblock(SMALL, d.sb).ipg;
    assert Cleared([], d.sb.ipg, newIpg) == [];
    assert BitmapWrites(d, newIpg, 0) == [];
  }
}
