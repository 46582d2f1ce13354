/**
 The directory tree that the ext4 fixup tool renumbers, as it lies on disk, and the facts
 about one pass over it (ext4_utils/ext4fixup.c).

 An inode is named by its slot in the inode tables, since that is what a number is decoded to
 before the inode is read. A directory is a sequence of entries cut into blocks; only whole
 blocks are written.
 */
module FixupTree {

  // Bit 31 of a 32-bit inode number, used by the tool as its "still to be updated" mark.
  const MARK: nat := 0x8000_0000

  datatype Slot = Slot(group: nat, offset: nat)

  datatype FileType = Directory | Unknown | Other

  datatype Entry = Entry(inode: nat, name: string, kind: FileType)

  // `ends[k]` is the index one past the last entry of block k.
  datatype Dir = Dir(entries: seq<Entry>, ends: seq<nat>)

  // The disk before the tool first touches it: its directories, its inodes per group, the
  // inodes that fit a block, and a rank that goes down along every directory link.
  datatype BaseData = Base(dirs: map<Slot, Dir>, ipg: nat, perBlock: nat, rank: map<Slot, nat>)

  type Base = b: BaseData | b.ipg > 0 && b.perBlock > 0 witness Base(map[], 1, 1, map[])

  datatype Pass = Marking | Updating

  predicate Marked(n: nat) {
    n >= MARK
  }

  function Mark(n: nat): nat {
    if Marked(n) then n else n + MARK
  }

  // The number without its mark.
  function Bare(n: nat): nat {
    if Marked(n) then n - MARK else n
  }

  // On 32-bit numbers the mark is the top bit: set by one function and cleared by the other, with all other bits kept.
  lemma MarkIsTopBit(n: nat)
    requires n < 0x1_0000_0000
    ensures Marked(n) <==> n / 0x8000_0000 == 1
    ensures Mark(n) == 0x8000_0000 + n % 0x8000_0000 && Bare(n) == n % 0x8000_0000
  {
  }

  function SlotOf(inum: nat, ipg: nat): Slot
    requires ipg > 0 && inum > 0
  {
    Slot((inum - 1) / ipg, (inum - 1) % ipg)
  }

  function NewInum(inum: nat, ipg: nat, newIpg: nat): (r: nat)
    requires ipg > 0 && inum > 0
    ensures r > 0
  {
    (inum - 1) / ipg * newIpg + (inum - 1) % ipg + 1
  }

  function AlignUp(x: nat, y: nat): nat
    requires y > 0
  {
    y * ((x + y - 1) / y)
  }

  function NewIpg(b: Base): nat
  {
    AlignUp(b.ipg, b.perBlock)
  }

  predicate IsDot(e: Entry) {
    e.name == "." || e.name == ".."
  }

  // Entries from the first zero inode number on are never looked at.
  function Live(es: seq<Entry>): (n: nat)
    ensures n <= |es|
    ensures forall i :: 0 <= i < n ==> es[i].inode != 0
    ensures n < |es| ==> es[n].inode == 0
  {
    if |es| == 0 || es[0].inode == 0 then 0 else 1 + Live(es[1..])
  }

  lemma LiveIs(es: seq<Entry>, n: nat)
    requires n <= |es| && (forall i :: 0 <= i < n ==> es[i].inode != 0) && (n < |es| ==> es[n].inode == 0)
    ensures Live(es) == n
  {
    hide *;
  }

  // A subdirectory, by the entry's own type or, when it has none, by the inode it names.
  predicate IsDirEntry(dirs: map<Slot, Dir>, ipg: nat, e: Entry)
    requires ipg > 0
  {
    e.kind.Directory? || (e.kind.Unknown? && Bare(e.inode) > 0 && SlotOf(Bare(e.inode), ipg) in dirs)
  }

  predicate IsChild(b: Base, s: Slot, i: nat)
    requires s in b.dirs
  {
    && i < Live(b.dirs[s].entries)
    && !IsDot(b.dirs[s].entries[i])
    && IsDirEntry(b.dirs, b.ipg, b.dirs[s].entries[i])
  }

  function Target(b: Base, s: Slot, i: nat): Slot
    requires s in b.dirs && i < Live(b.dirs[s].entries)
  {
    SlotOf(b.dirs[s].entries[i].inode, b.ipg)
  }

  function Rank(b: Base, s: Slot): nat {
    if s in b.rank then b.rank[s] else 0
  }

  predicate IsLink(b: Base, s: Slot, i: nat)
    requires s in b.dirs
  {
    IsChild(b, s, i) && Target(b, s, i) in b.dirs && Rank(b, Target(b, s, i)) < Rank(b, s)
  }

  // The directories at and below s.
  function Sub(b: Base, s: Slot): (r: set<Slot>)
    requires s in b.dirs
    ensures s in r
    ensures forall t :: t in r ==> t in b.dirs && (t == s || Rank(b, t) < Rank(b, s))
    decreases Rank(b, s)
  {
    {s} + set i, t | 0 <= i < |b.dirs[s].entries| && IsLink(b, s, i) && t in Sub(b, Target(b, s, i)) :: t
  }

  lemma {:induction false} SubTransitive(b: Base, r: Slot, s: Slot)
    requires r in b.dirs && s in Sub(b, r)
    ensures Sub(b, s) <= Sub(b, r)
    decreases Rank(b, r)
  {
    if s != r {
      var i :| 0 <= i < |b.dirs[r].entries| && IsLink(b, r, i) && s in Sub(b, Target(b, r, i));
      SubTransitive(b, Target(b, r, i), s);
    }
  }

  lemma LinkInSub(b: Base, r: Slot, s: Slot, i: nat)
    requires r in b.dirs && s in Sub(b, r) && IsLink(b, s, i)
    ensures Sub(b, Target(b, s, i)) <= Sub(b, s) <= Sub(b, r)
    ensures s !in Sub(b, Target(b, s, i))
  {
    SubTransitive(b, r, s);
  }

  // What the tool itself checks before it writes anything.
  predicate Sane(b: Base, s: Slot)
    requires s in b.dirs
  {
    forall i :: 0 <= i < |b.dirs[s].entries| && IsChild(b, s, i) ==> Target(b, s, i) in b.dirs
  }

  // What it takes for granted: no directory cycle, block bounds that cover the directory, and
  // inode numbers that leave bit 31 free, before and after.
  predicate Proper(b: Base, s: Slot)
    requires s in b.dirs
  {
    var d := b.dirs[s];
    && |d.ends| > 0 && d.ends[|d.ends| - 1] == |d.entries|
    && (forall j, k :: 0 <= j < k < |d.ends| ==> d.ends[j] <= d.ends[k])
    && (forall i :: 0 <= i < Live(d.entries) ==>
                      d.entries[i].inode < MARK && NewInum(d.entries[i].inode, b.ipg, NewIpg(b)) < MARK)
    && (forall i :: 0 <= i < |d.entries| && IsChild(b, s, i) && Target(b, s, i) in b.dirs ==>
                      Rank(b, Target(b, s, i)) < Rank(b, s))
  }

  predicate ProperTree(b: Base, root: Slot) {
    root in b.dirs && forall s :: s in Sub(b, root) ==> Proper(b, s)
  }

  predicate SaneTree(b: Base, root: Slot)
    requires root in b.dirs
  {
    forall s :: s in Sub(b, root) ==> Sane(b, s)
  }

  predicate GoodTree(b: Base, root: Slot) {
    ProperTree(b, root) && SaneTree(b, root)
  }

  // How a live entry reads before and after a pass has dealt with it.
  function Start(p: Pass, e: Entry): Entry {
    match p
    case Marking => e
    case Updating => e.(inode := Mark(e.inode))
  }

  function Goal(p: Pass, b: Base, e: Entry): Entry
    requires e.inode > 0
  {
    match p
    case Marking => e.(inode := Mark(e.inode))
    case Updating => e.(inode := NewInum(e.inode, b.ipg, NewIpg(b)))
  }

  // The entry of s at i stands in its goal form.
  predicate AtGoal(p: Pass, b: Base, dirs: map<Slot, Dir>, s: Slot, i: nat)
    requires s in b.dirs && i < Live(b.dirs[s].entries)
  {
    s in dirs && i < |dirs[s].entries| && dirs[s].entries[i] == Goal(p, b, b.dirs[s].entries[i])
  }

  predicate DirDone(p: Pass, b: Base, dirs: map<Slot, Dir>, s: Slot)
    requires s in b.dirs
  {
    forall i :: 0 <= i < Live(b.dirs[s].entries) ==> AtGoal(p, b, dirs, s, i)
  }

  predicate SubDone(p: Pass, b: Base, dirs: map<Slot, Dir>, s: Slot)
    requires s in b.dirs
  {
    forall t :: t in Sub(b, s) ==> DirDone(p, b, dirs, t)
  }

  // The post-order invariant at one entry: once it is dealt with, so is everything below it.
  predicate EntryInv(p: Pass, b: Base, dirs: map<Slot, Dir>, s: Slot, i: nat)
    requires s in b.dirs && i < Live(b.dirs[s].entries)
    requires s in dirs && i < |dirs[s].entries|
  {
    || dirs[s].entries[i] == Start(p, b.dirs[s].entries[i])
    || (AtGoal(p, b, dirs, s, i) && (IsLink(b, s, i) ==> SubDone(p, b, dirs, Target(b, s, i))))
  }

  predicate SameShape(b: Base, dirs: map<Slot, Dir>, s: Slot)
    requires s in b.dirs
  {
    && s in dirs
    && dirs[s].ends == b.dirs[s].ends
    && |dirs[s].entries| == |b.dirs[s].entries|
    && forall i :: Live(b.dirs[s].entries) <= i < |b.dirs[s].entries| ==>
                     dirs[s].entries[i] == b.dirs[s].entries[i]
  }

  predicate DirInv(p: Pass, b: Base, dirs: map<Slot, Dir>, s: Slot)
    requires s in b.dirs
  {
    SameShape(b, dirs, s) && forall i :: 0 <= i < Live(b.dirs[s].entries) ==> EntryInv(p, b, dirs, s, i)
  }

  // The state of the directories at any moment of a pass, cut or not.
  predicate PassInv(p: Pass, b: Base, root: Slot, dirs: map<Slot, Dir>)
    requires root in b.dirs
  {
    && dirs.Keys == b.dirs.Keys
    && (forall s :: s in b.dirs && s !in Sub(b, root) ==> dirs[s] == b.dirs[s])
    && forall s :: s in Sub(b, root) ==> DirInv(p, b, dirs, s)
  }

  // Nothing that was dealt with is ever undone.
  predicate Kept(p: Pass, b: Base, before: map<Slot, Dir>, after: map<Slot, Dir>)
  {
    forall s :: s in b.dirs && DirDone(p, b, before, s) ==> DirDone(p, b, after, s)
  }

  predicate Untouched(keep: set<Slot>, before: map<Slot, Dir>, after: map<Slot, Dir>) {
    forall s :: s in keep ==> s in before && s in after && after[s] == before[s]
  }

  lemma KeptTransitive(p: Pass, b: Base, first: map<Slot, Dir>, mid: map<Slot, Dir>, last: map<Slot, Dir>)
    requires Kept(p, b, first, mid) && Kept(p, b, mid, last)
    ensures Kept(p, b, first, last)
  {
    forall s | s in b.dirs && DirDone(p, b, first, s) ensures DirDone(p, b, last, s) {
      assert DirDone(p, b, mid, s);
    }
  }

  // Part of a pass, from one state of the directories to a later one, that leaves `keep` alone.
  predicate Walked(p: Pass, b: Base, root: Slot, keep: set<Slot>, before: map<Slot, Dir>, after: map<Slot, Dir>)
    requires root in b.dirs
  {
    PassInv(p, b, root, after) && Kept(p, b, before, after) && Untouched(keep, before, after)
  }

  lemma WalkedOn(p: Pass, b: Base, root: Slot, keep: set<Slot>, also: set<Slot>,
                 first: map<Slot, Dir>, mid: map<Slot, Dir>, last: map<Slot, Dir>)
    requires root in b.dirs && keep <= also
    requires Walked(p, b, root, keep, first, mid) && Walked(p, b, root, also, mid, last)
    ensures Walked(p, b, root, keep, first, last)
  {
    KeptTransitive(p, b, first, mid, last);
  }

  // The directories a recursion into s leaves alone, and those its children leave alone as well.
  function Outside(b: Base, s: Slot): set<Slot>
    requires s in b.dirs
  {
    b.dirs.Keys - Sub(b, s)
  }

  lemma OutsideGrows(b: Base, root: Slot, s: Slot, i: nat)
    requires root in b.dirs && s in Sub(b, root) && IsLink(b, s, i)
    ensures Outside(b, s) + {s} <= Outside(b, Target(b, s, i))
    ensures Target(b, s, i) in Sub(b, root)
  {
    LinkInSub(b, root, s, i);
  }

  // What a recursion into s may rely on.
  lemma RecursionStarts(p: Pass, b: Base, root: Slot, s: Slot, dirs: map<Slot, Dir>)
    requires GoodTree(b, root) && s in Sub(b, root) && PassInv(p, b, root, dirs)
    ensures s in b.dirs && dirs.Keys == b.dirs.Keys
    ensures Proper(b, s) && Sane(b, s) && DirInv(p, b, dirs, s) && SameShape(b, dirs, s)
  {
  }

  // A recursion into s: its entries, then, unless it was cut, its own blocks.
  lemma RecursionWalked(p: Pass, b: Base, root: Slot, s: Slot,
                        first: map<Slot, Dir>, mid: map<Slot, Dir>, last: map<Slot, Dir>)
    requires root in b.dirs && s in b.dirs && Walked(p, b, root, Outside(b, s) + {s}, first, mid)
    requires mid == last || Walked(p, b, root, b.dirs.Keys - {s}, mid, last)
    ensures Walked(p, b, root, Outside(b, s), first, last)
  {
    assert Outside(b, s) <= b.dirs.Keys - {s};
    if mid != last {
      WalkedOn(p, b, root, Outside(b, s), b.dirs.Keys - {s}, first, mid, last);
    }
  }

  // What a step into a child leaves alone, its parent leaves alone as well.
  lemma ChildWalked(p: Pass, b: Base, root: Slot, s: Slot, i: nat, first: map<Slot, Dir>, last: map<Slot, Dir>)
    requires root in b.dirs && s in Sub(b, root) && IsLink(b, s, i)
    requires Walked(p, b, root, Outside(b, Target(b, s, i)), first, last)
    ensures Walked(p, b, root, Outside(b, s) + {s}, first, last)
  {
    OutsideGrows(b, root, s, i);
  }

  lemma WalkedKeeps(p: Pass, b: Base, root: Slot, keep: set<Slot>, first: map<Slot, Dir>, last: map<Slot, Dir>)
    requires root in b.dirs && Walked(p, b, root, keep, first, last)
    ensures PassInv(p, b, root, last)
  {
  }

  lemma EndsKept(b: Base, dirs: map<Slot, Dir>, s: Slot)
    requires s in b.dirs && SameShape(b, dirs, s)
    ensures s in dirs && dirs[s].ends == b.dirs[s].ends
  {
  }

  lemma NotWalked(p: Pass, b: Base, root: Slot, s: Slot, dirs: map<Slot, Dir>)
    requires root in b.dirs && s in b.dirs && PassInv(p, b, root, dirs)
    ensures Walked(p, b, root, Outside(b, s) + {s}, dirs, dirs)
  {
  }

  lemma SubDoneKept(p: Pass, b: Base, before: map<Slot, Dir>, after: map<Slot, Dir>, s: Slot)
    requires s in b.dirs && Kept(p, b, before, after) && SubDone(p, b, before, s)
    ensures SubDone(p, b, after, s)
  {
    forall t | t in Sub(b, s) ensures DirDone(p, b, after, t) {
      assert DirDone(p, b, before, t);
    }
  }

  // A buffered directory whose entries up to n have been dealt with.
  predicate BufferReady(p: Pass, b: Base, dirs: map<Slot, Dir>, s: Slot, buf: seq<Entry>, n: nat)
    requires s in b.dirs
  {
    && |buf| == |b.dirs[s].entries|
    && forall i :: 0 <= i < n && i < Live(b.dirs[s].entries) ==>
                     && buf[i] == Goal(p, b, b.dirs[s].entries[i])
                     && (IsLink(b, s, i) ==> SubDone(p, b, dirs, Target(b, s, i)))
  }

  predicate SameFrom(buf: seq<Entry>, es: seq<Entry>, i: nat) {
    |buf| == |es| && forall j :: i <= j < |buf| ==> buf[j] == es[j]
  }

  // Past the live entries the buffer is what was read.
  predicate TailKept(b: Base, s: Slot, buf: seq<Entry>)
    requires s in b.dirs
  {
    |buf| == |b.dirs[s].entries| &&
    forall i :: Live(b.dirs[s].entries) <= i < |buf| ==> buf[i] == b.dirs[s].entries[i]
  }

  lemma BufferReadyKept(p: Pass, b: Base, before: map<Slot, Dir>, after: map<Slot, Dir>, s: Slot,
                        buf: seq<Entry>, n: nat)
    requires s in b.dirs && Kept(p, b, before, after) && BufferReady(p, b, before, s, buf, n)
    ensures BufferReady(p, b, after, s, buf, n)
  {
    forall i | 0 <= i < n && i < Live(b.dirs[s].entries) && IsLink(b, s, i)
      ensures SubDone(p, b, after, Target(b, s, i))
    {
      SubDoneKept(p, b, before, after, Target(b, s, i));
    }
  }

  lemma BufferReadyStep(p: Pass, b: Base, before: map<Slot, Dir>, after: map<Slot, Dir>, s: Slot,
                        buf: seq<Entry>, i: nat, e: Entry)
    requires s in b.dirs && Kept(p, b, before, after) && BufferReady(p, b, before, s, buf, i)
    requires i < Live(b.dirs[s].entries) && e == Goal(p, b, b.dirs[s].entries[i])
    requires IsLink(b, s, i) ==> SubDone(p, b, after, Target(b, s, i))
    ensures BufferReady(p, b, after, s, buf[i := e], i + 1)
  {
    BufferReadyKept(p, b, before, after, s, buf, i);
  }

  lemma BufferReadyAll(p: Pass, b: Base, dirs: map<Slot, Dir>, s: Slot, buf: seq<Entry>, i: nat)
    requires s in b.dirs && BufferReady(p, b, dirs, s, buf, i) && i >= Live(b.dirs[s].entries)
    ensures BufferReady(p, b, dirs, s, buf, |buf|)
  {
  }

  lemma BlockInDir(b: Base, s: Slot, k: nat)
    requires s in b.dirs && Proper(b, s) && k < |b.dirs[s].ends|
    ensures (if k == 0 then 0 else b.dirs[s].ends[k - 1]) <= b.dirs[s].ends[k] <= |b.dirs[s].entries|
  {
    var ends := b.dirs[s].ends;
    assert k < |ends| - 1 ==> ends[k] <= ends[|ends| - 1];
  }

  function Splice(es: seq<Entry>, buf: seq<Entry>, lo: nat, hi: nat): (r: seq<Entry>)
    requires lo <= hi <= |es| == |buf|
    ensures |r| == |es|
    ensures forall i :: 0 <= i < |r| ==> r[i] == if lo <= i < hi then buf[i] else es[i]
  {
    es[..lo] + buf[lo..hi] + es[hi..]
  }

  predicate SameBefore(buf: seq<Entry>, es: seq<Entry>, i: nat) {
    |buf| == |es| && i <= |buf| && buf[..i] == es[..i]
  }

  lemma SpliceExtends(es: seq<Entry>, buf: seq<Entry>, lo: nat, hi: nat)
    requires lo <= hi <= |buf| && SameBefore(buf, es, lo)
    ensures SameBefore(buf, Splice(es, buf, lo, hi), hi)
  {
    forall i | 0 <= i < hi ensures buf[..hi][i] == Splice(es, buf, lo, hi)[..hi][i] {
      if i < lo {
        assert buf[..lo][i] == es[..lo][i];
      }
    }
  }

  function WriteRange(dirs: map<Slot, Dir>, s: Slot, buf: seq<Entry>, lo: nat, hi: nat): (r: map<Slot, Dir>)
    requires s in dirs && lo <= hi <= |buf| == |dirs[s].entries|
    ensures r.Keys == dirs.Keys
  {
    dirs[s := dirs[s].(entries := Splice(dirs[s].entries, buf, lo, hi))]
  }

  lemma WriteRangeKept(p: Pass, b: Base, dirs: map<Slot, Dir>, s: Slot, buf: seq<Entry>, lo: nat, hi: nat)
    requires s in b.dirs && s in dirs && lo <= hi <= |buf| == |dirs[s].entries|
    requires BufferReady(p, b, dirs, s, buf, |buf|)
    ensures Kept(p, b, dirs, WriteRange(dirs, s, buf, lo, hi))
  {
    var after := WriteRange(dirs, s, buf, lo, hi);
    forall t | t in b.dirs && DirDone(p, b, dirs, t) ensures DirDone(p, b, after, t) {
      forall i | 0 <= i < Live(b.dirs[t].entries) ensures AtGoal(p, b, after, t, i) {
        assert AtGoal(p, b, dirs, t, i);
      }
    }
  }

  lemma WriteRangeEntry(p: Pass, b: Base, dirs: map<Slot, Dir>, s: Slot, buf: seq<Entry>, lo: nat, hi: nat,
                        t: Slot, i: nat)
    requires s in b.dirs && s in dirs && lo <= hi <= |buf| == |dirs[s].entries|
    requires BufferReady(p, b, dirs, s, buf, |buf|)
    requires t in b.dirs && t in dirs && i < Live(b.dirs[t].entries) && i < |dirs[t].entries|
    requires EntryInv(p, b, dirs, t, i)
    ensures EntryInv(p, b, WriteRange(dirs, s, buf, lo, hi), t, i)
  {
    var after := WriteRange(dirs, s, buf, lo, hi);
    WriteRangeKept(p, b, dirs, s, buf, lo, hi);
    if IsLink(b, t, i) && SubDone(p, b, dirs, Target(b, t, i)) {
      SubDoneKept(p, b, dirs, after, Target(b, t, i));
    }
  }

  // Writing any one block of a finished buffer keeps the post-order invariant, whatever the
  // other blocks of that directory still hold.
  lemma BlockWriteKeepsInv(p: Pass, b: Base, root: Slot, dirs: map<Slot, Dir>, s: Slot,
                           buf: seq<Entry>, lo: nat, hi: nat)
    requires root in b.dirs && s in Sub(b, root) && PassInv(p, b, root, dirs)
    requires BufferReady(p, b, dirs, s, buf, |buf|) && lo <= hi <= |buf|
    requires TailKept(b, s, buf)
    ensures |dirs[s].entries| == |buf|
    ensures PassInv(p, b, root, WriteRange(dirs, s, buf, lo, hi))
  {
    assert DirInv(p, b, dirs, s);
    var after := WriteRange(dirs, s, buf, lo, hi);
    forall t | t in Sub(b, root) ensures DirInv(p, b, after, t) {
      assert DirInv(p, b, dirs, t);
      forall i | 0 <= i < Live(b.dirs[t].entries) ensures EntryInv(p, b, after, t, i) {
        WriteRangeEntry(p, b, dirs, s, buf, lo, hi, t, i);
      }
    }
  }

  // A directory being written back: the entries before lo are on disk as buffered.
  predicate PartWritten(p: Pass, b: Base, root: Slot, s: Slot, buf: seq<Entry>,
                        first: map<Slot, Dir>, now: map<Slot, Dir>, lo: nat)
    requires root in b.dirs && s in b.dirs
  {
    && Walked(p, b, root, b.dirs.Keys - {s}, first, now)
    && BufferReady(p, b, now, s, buf, |buf|)
    && s in now && SameBefore(buf, now[s].entries, lo)
  }

  lemma PartWrittenStarts(p: Pass, b: Base, root: Slot, s: Slot, buf: seq<Entry>, first: map<Slot, Dir>)
    requires root in b.dirs && s in b.dirs && PassInv(p, b, root, first) && BufferReady(p, b, first, s, buf, |buf|)
    requires SameShape(b, first, s)
    ensures PartWritten(p, b, root, s, buf, first, first, 0)
  {
  }

  lemma PartWrittenNext(p: Pass, b: Base, root: Slot, s: Slot, buf: seq<Entry>,
                        first: map<Slot, Dir>, now: map<Slot, Dir>, lo: nat, hi: nat)
    requires root in b.dirs && s in Sub(b, root) && PartWritten(p, b, root, s, buf, first, now, lo)
    requires lo <= hi <= |buf| && TailKept(b, s, buf)
    ensures s in now && |now[s].entries| == |buf|
    ensures PartWritten(p, b, root, s, buf, first, WriteRange(now, s, buf, lo, hi), hi)
  {
    var after := WriteRange(now, s, buf, lo, hi);
    BlockWriteKeepsInv(p, b, root, now, s, buf, lo, hi);
    WriteRangeKept(p, b, now, s, buf, lo, hi);
    BufferReadyKept(p, b, now, after, s, buf, |buf|);
    SpliceExtends(now[s].entries, buf, lo, hi);
    assert Untouched(b.dirs.Keys - {s}, now, after);
    WalkedOn(p, b, root, b.dirs.Keys - {s}, b.dirs.Keys - {s}, first, now, after);
  }

  lemma SubDoneFromLinks(p: Pass, b: Base, dirs: map<Slot, Dir>, s: Slot)
    requires s in b.dirs && DirDone(p, b, dirs, s)
    requires forall i :: 0 <= i < |b.dirs[s].entries| && IsLink(b, s, i) ==> SubDone(p, b, dirs, Target(b, s, i))
    ensures SubDone(p, b, dirs, s)
  {
    forall t | t in Sub(b, s) && t != s ensures DirDone(p, b, dirs, t) {
      var i :| 0 <= i < |b.dirs[s].entries| && IsLink(b, s, i) && t in Sub(b, Target(b, s, i));
      assert SubDone(p, b, dirs, Target(b, s, i));
    }
  }

  lemma PartWrittenWalked(p: Pass, b: Base, root: Slot, s: Slot, buf: seq<Entry>,
                          first: map<Slot, Dir>, now: map<Slot, Dir>, lo: nat)
    requires root in b.dirs && s in b.dirs && PartWritten(p, b, root, s, buf, first, now, lo)
    ensures Walked(p, b, root, b.dirs.Keys - {s}, first, now)
  {
  }

  lemma WholeDir(b: Base, s: Slot, buf: seq<Entry>)
    requires s in b.dirs && Proper(b, s) && TailKept(b, s, buf)
    ensures var ends := b.dirs[s].ends; |ends| > 0 && ends[|ends| - 1] == |buf| == |b.dirs[s].entries|
  {
  }

  lemma PartWrittenEnds(p: Pass, b: Base, root: Slot, s: Slot, buf: seq<Entry>,
                        first: map<Slot, Dir>, now: map<Slot, Dir>)
    requires root in b.dirs && s in b.dirs && PartWritten(p, b, root, s, buf, first, now, |buf|)
    ensures SubDone(p, b, now, s)
  {
    assert buf == buf[..|buf|] && now[s].entries == now[s].entries[..|buf|];
    SubDoneFromLinks(p, b, now, s);
  }

  lemma MarkedStartsUpdate(b: Base, dirs: map<Slot, Dir>, s: Slot)
    requires s in b.dirs && DirInv(Marking, b, dirs, s) && DirDone(Marking, b, dirs, s)
    ensures DirInv(Updating, b, dirs, s)
  {
    forall i | 0 <= i < Live(b.dirs[s].entries) ensures EntryInv(Updating, b, dirs, s, i) {
      assert AtGoal(Marking, b, dirs, s, i);
    }
  }

  // Nothing marked yet, so the marking pass may begin; everything marked, so the updating one may.
  lemma PassBegins(b: Base, root: Slot, dirs: map<Slot, Dir>)
    requires root in b.dirs
    ensures dirs == b.dirs ==> PassInv(Marking, b, root, dirs)
    ensures PassInv(Marking, b, root, dirs) && SubDone(Marking, b, dirs, root) ==> PassInv(Updating, b, root, dirs)
  {
    if PassInv(Marking, b, root, dirs) && SubDone(Marking, b, dirs, root) {
      forall s | s in Sub(b, root) ensures DirInv(Updating, b, dirs, s) {
        assert DirInv(Marking, b, dirs, s) && DirDone(Marking, b, dirs, s);
        MarkedStartsUpdate(b, dirs, s);
      }
    }
  }

  // A directory being dealt with: the entries before i are ready in the buffer, the others as read.
  predicate PartHandled(p: Pass, b: Base, root: Slot, s: Slot, buf: seq<Entry>,
                        first: map<Slot, Dir>, now: map<Slot, Dir>, i: nat)
    requires root in b.dirs && s in b.dirs
  {
    && Walked(p, b, root, Outside(b, s) + {s}, first, now)
    && BufferReady(p, b, now, s, buf, i)
    && s in first && s in now && now[s] == first[s] && SameFrom(buf, first[s].entries, i)
    && i <= Live(b.dirs[s].entries)
  }

  lemma PartHandledStarts(p: Pass, b: Base, root: Slot, s: Slot, first: map<Slot, Dir>)
    requires root in b.dirs && s in Sub(b, root) && PassInv(p, b, root, first)
    ensures PartHandled(p, b, root, s, first[s].entries, first, first, 0)
  {
    assert DirInv(p, b, first, s);
  }

  lemma PartHandledHere(p: Pass, b: Base, root: Slot, s: Slot, buf: seq<Entry>,
                        first: map<Slot, Dir>, now: map<Slot, Dir>, i: nat)
    requires root in b.dirs && s in b.dirs && PartHandled(p, b, root, s, buf, first, now, i)
    requires i < |buf| && buf[i].inode != 0
    ensures PassInv(p, b, root, now) && i <= Live(b.dirs[s].entries)
    ensures s in now && s in first && now[s] == first[s] && i < |now[s].entries| && now[s].entries[i] == buf[i]
  {
  }

  // The loop over a directory, cut below its next entry.
  lemma PartHandledCut(p: Pass, b: Base, root: Slot, s: Slot, buf: seq<Entry>,
                       first: map<Slot, Dir>, now: map<Slot, Dir>, after: map<Slot, Dir>, i: nat)
    requires root in b.dirs && s in b.dirs && PartHandled(p, b, root, s, buf, first, now, i)
    requires Walked(p, b, root, Outside(b, s) + {s}, now, after)
    ensures Walked(p, b, root, Outside(b, s) + {s}, first, after)
  {
    WalkedOn(p, b, root, Outside(b, s) + {s}, Outside(b, s) + {s}, first, now, after);
  }

  lemma PartHandledNext(p: Pass, b: Base, root: Slot, s: Slot, buf: seq<Entry>,
                        first: map<Slot, Dir>, now: map<Slot, Dir>, after: map<Slot, Dir>, i: nat, e: Entry)
    requires root in b.dirs && s in b.dirs && PartHandled(p, b, root, s, buf, first, now, i)
    requires Walked(p, b, root, Outside(b, s) + {s}, now, after)
    requires i < Live(b.dirs[s].entries) && e == Goal(p, b, b.dirs[s].entries[i])
    requires IsLink(b, s, i) ==> SubDone(p, b, after, Target(b, s, i))
    ensures PartHandled(p, b, root, s, buf[i := e], first, after, i + 1)
  {
    WalkedOn(p, b, root, Outside(b, s) + {s}, Outside(b, s) + {s}, first, now, after);
    BufferReadyStep(p, b, now, after, s, buf, i, e);
  }

  lemma LiveEntriesInUse(p: Pass, b: Base, dirs: map<Slot, Dir>, s: Slot)
    requires s in b.dirs && DirInv(p, b, dirs, s)
    ensures forall i :: 0 <= i < Live(b.dirs[s].entries) ==> dirs[s].entries[i].inode != 0
  {
    forall i | 0 <= i < Live(b.dirs[s].entries) ensures dirs[s].entries[i].inode != 0 {
      assert EntryInv(p, b, dirs, s, i);
    }
  }

  // The loop over a directory ends where its live entries do.
  lemma PartHandledEnds(p: Pass, b: Base, root: Slot, s: Slot, buf: seq<Entry>,
                        first: map<Slot, Dir>, now: map<Slot, Dir>, i: nat)
    requires root in b.dirs && s in Sub(b, root) && PartHandled(p, b, root, s, buf, first, now, i)
    requires i == |buf| || buf[i].inode == 0
    ensures BufferReady(p, b, now, s, buf, |buf|) && TailKept(b, s, buf)
    ensures Walked(p, b, root, Outside(b, s) + {s}, first, now)
  {
    assert DirInv(p, b, now, s);
    LiveEntriesInUse(p, b, now, s);
    BufferReadyAll(p, b, now, s, buf, i);
  }

  // The tree with every reachable live entry renumbered, and nothing else touched.
  function Renumber(b: Base, es: seq<Entry>): (r: seq<Entry>)
    ensures |r| == |es| && Live(r) == Live(es)
    ensures forall i :: 0 <= i < |es| ==>
                          r[i] == if i < Live(es) then Goal(Updating, b, es[i]) else es[i]
  {
    var n, r := Live(es), seq(|es|, i requires 0 <= i < |es| => if i < Live(es) then Goal(Updating, b, es[i]) else es[i]);
    LiveIs(r, n);
    r
  }

  function RenumberTree(b: Base, root: Slot): (r: map<Slot, Dir>)
    requires root in b.dirs
  {
    map s | s in b.dirs ::
      if s in Sub(b, root) then b.dirs[s].(entries := Renumber(b, b.dirs[s].entries)) else b.dirs[s]
  }

  lemma DirEnds(b: Base, root: Slot, dirs: map<Slot, Dir>, s: Slot)
    requires s in b.dirs && SameShape(b, dirs, s) && DirDone(Updating, b, dirs, s)
    ensures dirs[s] == b.dirs[s].(entries := Renumber(b, b.dirs[s].entries))
  {
    var want := Renumber(b, b.dirs[s].entries);
    forall i | 0 <= i < |want| ensures dirs[s].entries[i] == want[i] {
      if i < Live(b.dirs[s].entries) {
        assert AtGoal(Updating, b, dirs, s, i);
      }
    }
  }

  lemma PassEnds(b: Base, root: Slot, dirs: map<Slot, Dir>)
    requires root in b.dirs && PassInv(Updating, b, root, dirs) && SubDone(Updating, b, dirs, root)
    ensures dirs == RenumberTree(b, root)
  {
    forall s | s in b.dirs ensures dirs[s] == RenumberTree(b, root)[s] {
      if s in Sub(b, root) {
        assert DirInv(Updating, b, dirs, s) && DirDone(Updating, b, dirs, s);
        DirEnds(b, root, dirs, s);
      }
    }
  }
}
