/**
 Reading back the extents that ext4_utils/extent.c writes: the reader of ext4_utils/ext4fixup.c, when it
 gets the blocks of the file, and where the bytes of the file go.
 */
module ExtentTrip {
  import opened Extents

  /* The reader. */

  // The list of blocks once an extent is entered in it.
  function Put(list: seq<nat>, e: Slot): (r: seq<nat>)
    requires e.Extent?
    ensures |r| == |list|
    ensures forall p :: 0 <= p < |list| ==>
                          r[p] == if e.block <= p < e.block + e.len
                                  then e.startHi * 0x1_0000_0000 + e.startLo + (p - e.block) else list[p]
  {
    seq(|list|, p requires 0 <= p < |list| =>
      if e.block <= p < e.block + e.len then e.startHi * U32 + e.startLo + p - e.block else list[p])
  }

  function LeafOf(s: Slot): nat
    requires s.Index?
  {
    s.leafHi * U32 + s.leafLo
  }

  // Entries are of the kind the depth says, children are on the disk and less deep, and extents end within
  // the list of blocks.
  predicate TreeOk(disk: map<nat, Node>, node: Node, size: nat)
    decreases node.depth
  {
    && node.entries <= |node.slots|
    && forall i :: 0 <= i < node.entries ==>
                     if node.depth == 0 then node.slots[i].Extent? && node.slots[i].block + node.slots[i].len <= size
                     else
                       && node.slots[i].Index? && LeafOf(node.slots[i]) in disk
                       && disk[LeafOf(node.slots[i])].depth < node.depth
                       && TreeOk(disk, disk[LeafOf(node.slots[i])], size)
  }

  // The list of blocks once the first n entries of a node are read.
  function ReadFirst(disk: map<nat, Node>, node: Node, n: nat, list: seq<nat>): (r: seq<nat>)
    requires TreeOk(disk, node, |list|) && n <= node.entries
    ensures |r| == |list|
    decreases node.depth, n
  {
    if n == 0 then list
    else
      var front := ReadFirst(disk, node, n - 1, list);
      if node.depth == 0 then Put(front, node.slots[n - 1])
      else
        var child := disk[LeafOf(node.slots[n - 1])];
        ReadFirst(disk, child, child.entries, front)
  }

  function Read(disk: map<nat, Node>, node: Node, list: seq<nat>): seq<nat>
    requires TreeOk(disk, node, |list|)
  {
    ReadFirst(disk, node, node.entries, list)
  }

  method GetExtentEnts(disk: map<nat, Node>, node: Node, list: array<nat>)
    requires TreeOk(disk, node, list.Length) && node.depth == 0
    modifies list
    ensures list[..] == Read(disk, node, old(list[..]))
  {
    ghost var list0 := list[..];
    for i := 0 to node.entries
      invariant list[..] == ReadFirst(disk, node, i, list0)
    {
      var e := node.slots[i];
      ghost var before := list[..];
      for j := 0 to e.len
        invariant forall p :: 0 <= p < list.Length ==> list[p] == Put(before, e.(len := j))[p]
      {
        list[e.block + j] := e.startHi * U32 + e.startLo + j;
      }
      assert list[..] == Put(before, e);
    }
  }

  method GetExtentIdx(disk: map<nat, Node>, node: Node, list: array<nat>)
    requires TreeOk(disk, node, list.Length) && node.depth > 0
    modifies list
    ensures list[..] == Read(disk, node, old(list[..]))
    decreases node.depth
  {
    ghost var list0 := list[..];
    for i := 0 to node.entries
      invariant list[..] == ReadFirst(disk, node, i, list0)
    {
      var child := disk[LeafOf(node.slots[i])];
      if child.depth == 0 {
        GetExtentEnts(disk, child, list);
      } else {
        GetExtentIdx(disk, child, list);
      }
    }
  }

  method GetBlockList(disk: map<nat, Node>, inode: Node, list: array<nat>) returns (ok: bool)
    requires inode.magic == MAGIC ==> TreeOk(disk, inode, list.Length)
    modifies list
    ensures ok == (inode.magic == MAGIC)
    ensures ok ==> list[..] == Read(disk, inode, old(list[..]))
  {
    if inode.magic != MAGIC {
      return false;
    }
    if inode.depth == 0 {
      GetExtentEnts(disk, inode, list);
    } else {
      GetExtentIdx(disk, inode, list);
    }
    return true;
  }

  /* The round trip. */

  // The blocks the file is to have: all but the last one, or all but the one set aside for the index.
  function Data(runs: seq<Run>): (r: seq<nat>)
    requires |Blocks(runs)| > 0
    ensures |r| == |Blocks(runs)| - 1
  {
    if |runs| <= 3 then Blocks(runs)[..|Blocks(runs)| - 1] else Blocks(runs)[1..]
  }

  lemma {:induction false} BlocksPositive(runs: seq<Run>)
    requires Proper(runs)
    ensures |Blocks(runs)| >= |runs| && forall p :: 0 <= p < |Blocks(runs)| ==> Blocks(runs)[p] > 0
  {
    if |runs| > 0 {
      BlocksPositive(runs[..|runs| - 1]);
    }
  }

  lemma {:induction false} OffMonotone(runs: seq<Run>, j: nat, k: nat)
    requires j <= k <= |runs|
    ensures Off(runs, j) <= Off(runs, k)
    decreases k
  {
    if j < k {
      OffMonotone(runs, j, k - 1);
    }
  }

  lemma {:induction false} OffPrefix(runs: seq<Run>, n: nat, k: nat)
    requires k <= n <= |runs|
    ensures Off(runs[..n], k) == Off(runs, k)
  {
    if k > 0 {
      OffPrefix(runs, n, k - 1);
    }
  }

  lemma {:induction false} OffAll(runs: seq<Run>)
    ensures Off(runs, |runs|) == |Blocks(runs)|
  {
    if |runs| > 0 {
      OffAll(runs[..|runs| - 1]);
      OffPrefix(runs, |runs| - 1, |runs| - 1);
    }
  }

  // Block i of run k.
  lemma {:induction false} BlockAt(runs: seq<Run>, k: nat, i: nat)
    requires k < |runs| && i < runs[k].len
    ensures Off(runs, k) + i < |Blocks(runs)| && Blocks(runs)[Off(runs, k) + i] == runs[k].block + i
    decreases |runs|
  {
    var n := |runs| - 1;
    OffPrefix(runs, n, k);
    if k < n {
      BlockAt(runs[..n], k, i);
    } else {
      OffAll(runs[..n]);
    }
  }

  // Every place in the list of blocks belongs to a run.
  lemma {:induction false} RunAt(runs: seq<Run>, p: nat) returns (k: nat)
    requires p < |Blocks(runs)|
    ensures k < |runs| && Off(runs, k) <= p < Off(runs, k) + runs[k].len
  {
    var n := |runs| - 1;
    OffAll(runs[..n]);
    if p < |Blocks(runs[..n])| {
      k := RunAt(runs[..n], p);
      OffPrefix(runs, n, k);
    } else {
      k := n;
      OffPrefix(runs, n, n);
    }
  }

  lemma KeptIsData(runs: seq<Run>)
    requires |runs| > 0 && Proper(runs) && (|runs| <= 3 || runs[0].len > 1)
    ensures |Blocks(runs)| > 0 && Blocks(Kept(runs)) == Data(runs)
  {
    BlocksPositive(runs);
    if |runs| <= 3 {
      DropLastBlocks(runs);
    } else {
      DropFirstBlocks(runs);
    }
  }

  lemma DropLastBlocks(runs: seq<Run>)
    requires |runs| > 0 && runs[|runs| - 1].len > 0
    ensures |Blocks(runs)| > 0 && Blocks(DropLast(runs)) == Blocks(runs)[..|Blocks(runs)| - 1]
  {
    var n := |runs| - 1;
    if runs[n].len > 1 {
      var last := Run(runs[n].block, runs[n].len - 1);
      BlocksConcat(runs[..n], [last]);
      BlocksOne(last);
      assert Range(last.block, last.len) == Range(runs[n].block, runs[n].len)[..last.len];
    }
  }

  lemma DropFirstBlocks(runs: seq<Run>)
    requires |runs| > 0 && runs[0].len > 1
    ensures |Blocks(runs)| > 0
    ensures Blocks([Run(runs[0].block + 1, runs[0].len - 1)] + runs[1..]) == Blocks(runs)[1..]
  {
    hide *;
    var first := Run(runs[0].block + 1, runs[0].len - 1);
    FirstRun(first, runs[1..]);
    FirstRun(runs[0], runs[1..]);
    assert runs == [runs[0]] + runs[1..];
    RangeTail(runs[0].block, runs[0].len, Blocks(runs[1..]));
  }

  lemma FirstRun(r: Run, rest: seq<Run>)
    ensures Blocks([r] + rest) == Range(r.block, r.len) + Blocks(rest)
  {
    hide Range;
    BlocksConcat([r], rest);
    BlocksOne(r);
  }

  lemma RangeTail(block: nat, len: nat, rest: seq<nat>)
    requires len > 0
    ensures Range(block + 1, len - 1) + rest == (Range(block, len) + rest)[1..]
  {
  }

  // A leaf that describes the runs, with zeros after them.
  predicate Describes(node: Node, kept: seq<Run>) {
    && node.depth == 0 && |kept| <= node.entries <= |node.slots| && node.slots[..|kept|] == ExtentsOf(kept)
    && forall i :: |kept| <= i < node.entries ==> node.slots[i] == ZERO
  }

  lemma SlotOf(node: Node, kept: seq<Run>, i: nat)
    requires Describes(node, kept) && i < node.entries
    ensures node.slots[i] == if i < |kept| then Extent(Off(kept, i), kept[i].len % U16, 0, kept[i].block) else ZERO
  {
    assert i < |kept| ==> node.slots[i] == node.slots[..|kept|][i];
  }

  lemma DescribesOk(disk: map<nat, Node>, node: Node, kept: seq<Run>, size: nat)
    requires Describes(node, kept) && Off(kept, |kept|) <= size
    ensures TreeOk(disk, node, size)
  {
    hide Describes, Off;
    DepthZero(node, kept);
    forall i | 0 <= i < node.entries
      ensures node.slots[i].Extent? && node.slots[i].block + node.slots[i].len <= size
    {
      SlotEnds(node, kept, i, size);
    }
  }

  lemma SlotEnds(node: Node, kept: seq<Run>, i: nat, size: nat)
    requires Describes(node, kept) && i < node.entries && Off(kept, |kept|) <= size
    ensures node.slots[i].Extent? && node.slots[i].block + node.slots[i].len <= size
  {
    hide Describes;
    SlotOf(node, kept, i);
    if i < |kept| {
      OffMonotone(kept, i + 1, |kept|);
      LowBits(kept[i].len);
    }
  }

  lemma LowBits(n: nat)
    ensures n % U16 <= n
  {
  }

  // Reading leaves alone the places that no run has reached.
  lemma {:induction false} ReadBeyond(disk: map<nat, Node>, node: Node, kept: seq<Run>, n: nat, list: seq<nat>, p: nat)
    requires Describes(node, kept) && TreeOk(disk, node, |list|) && n <= node.entries && p < |list|
    requires p >= Off(kept, if n < |kept| then n else |kept|)
    ensures ReadFirst(disk, node, n, list)[p] == list[p]
  {
    hide Describes, TreeOk;
    if n > 0 {
      SlotOf(node, kept, n - 1);
      DepthZero(node, kept);
      ReadBeyond(disk, node, kept, n - 1, list, p);
    }
  }

  lemma DepthZero(node: Node, kept: seq<Run>)
    requires Describes(node, kept)
    ensures node.depth == 0 && |kept| <= node.entries <= |node.slots|
  {
  }

  // At a place of run k the reader finds the block, unless the length of the run was cut down to 16 bits.
  lemma {:induction false} ReadAt(disk: map<nat, Node>, node: Node, kept: seq<Run>, n: nat, list: seq<nat>, k: nat, p: nat)
    requires Describes(node, kept) && TreeOk(disk, node, |list|) && k < n <= node.entries && k < |kept| && p < |list|
    requires Off(kept, k) <= p < Off(kept, k) + kept[k].len
    ensures var i := p - Off(kept, k);
            ReadFirst(disk, node, n, list)[p] == if i < kept[k].len % U16 then kept[k].block + i else list[p]
  {
    hide Describes, TreeOk;
    SlotOf(node, kept, n - 1);
    DepthZero(node, kept);
    if n - 1 == k {
      ReadBeyond(disk, node, kept, k, list, p);
    } else {
      ReadAt(disk, node, kept, n - 1, list, k, p);
      if n <= |kept| {
        OffMonotone(kept, k + 1, n - 1);
      }
    }
  }

  // The disk with the extent block on it, if there is one.
  function DiskWith(disk: map<nat, Node>, w: Written): map<nat, Node> {
    if w.Indexed? then disk[w.block := w.leaf] else disk
  }

  function LeafNode(w: Written): Node
    requires w != TooBig
  {
    if w.Indexed? then w.leaf else w.inode
  }

  predicate Fits(runs: seq<Run>, blockSize: nat) {
    blockSize >= 60 && |runs| > 0 && Proper(runs) && (|runs| <= 3 || |runs| <= Room(blockSize))
  }

  lemma LayoutDescribes(runs: seq<Run>, blockSize: nat)
    requires Fits(runs, blockSize)
    ensures Layout(runs, blockSize) != TooBig
    ensures Describes(LeafNode(Layout(runs, blockSize)), Kept(runs))
  {
    KeptShort(runs);
  }

  lemma LayoutReads(disk: map<nat, Node>, runs: seq<Run>, blockSize: nat, list: seq<nat>)
    requires Fits(runs, blockSize) && Off(Kept(runs), |Kept(runs)|) <= |list|
    ensures var w := Layout(runs, blockSize);
            && w != TooBig && TreeOk(DiskWith(disk, w), w.inode, |list|) && TreeOk(DiskWith(disk, w), LeafNode(w), |list|)
            && Read(DiskWith(disk, w), w.inode, list) == Read(DiskWith(disk, w), LeafNode(w), list)
  {
    hide Kept, Describes, ExtentsOf, Zeros;
    var w := Layout(runs, blockSize);
    LayoutDescribes(runs, blockSize);
    var d := DiskWith(disk, w);
    DescribesOk(d, LeafNode(w), Kept(runs), |list|);
    DepthZero(LeafNode(w), Kept(runs));
    if w.Indexed? {
      assert w.inode.slots[0] == Index(0, w.block) && LeafOf(w.inode.slots[0]) == w.block;
      assert TreeOk(d, w.inode, |list|);
      assert ReadFirst(d, w.inode, 0, list) == list;
    }
  }

  // Whatever the list of blocks held before, reading fills it with the blocks of the file.
  ghost predicate ReadsBack(disk: map<nat, Node>, runs: seq<Run>, blockSize: nat)
    requires Fits(runs, blockSize) && |Blocks(runs)| > 0
  {
    var w := Layout(runs, blockSize);
    w != TooBig
    && forall list :: |list| == |Data(runs)| ==>
                        TreeOk(DiskWith(disk, w), w.inode, |list|) && Read(DiskWith(disk, w), w.inode, list) == Data(runs)
  }

  predicate Readable(runs: seq<Run>)
    requires |runs| > 0 && Proper(runs)
  {
    && (|runs| <= 3 || runs[0].len > 1)
    && forall k :: 0 <= k < |Kept(runs)| ==> Kept(runs)[k].len < 65536
  }

  // The file reads back if and only if its regions are at most three or the first has more than one block,
  // and no region is too long for a 16-bit length.
  lemma ReadsBackIff(disk: map<nat, Node>, runs: seq<Run>, blockSize: nat)
    requires Fits(runs, blockSize)
    ensures |Blocks(runs)| > 0 && (ReadsBack(disk, runs, blockSize) <==> Readable(runs))
  {
    BlocksPositive(runs);
    if Readable(runs) {
      ReadableReadsBack(disk, runs, blockSize);
    } else {
      UnreadableMisses(disk, runs, blockSize);
    }
  }

  // Four regions of one block each fit the writer, but their file does not read back: it is given the second
  // block for its index, and only the first for its data.
  lemma FourBlocksMisread(disk: map<nat, Node>)
    ensures var runs := [Run(10, 1), Run(20, 1), Run(30, 1), Run(40, 1)];
            && Fits(runs, 4096) && |Blocks(runs)| > 0 && !ReadsBack(disk, runs, 4096)
            && IndexBlock(runs) == 20 && Kept(runs) == [Run(10, 1)] && Data(runs) == [20, 30, 40]
  {
    hide ReadsBack, Layout;
    var runs := [Run(10, 1), Run(20, 1), Run(30, 1), Run(40, 1)];
    ReadsBackIff(disk, runs, 4096);
    FourBlocks();
  }

  lemma FourBlocks()
    ensures Blocks([Run(10, 1), Run(20, 1), Run(30, 1), Run(40, 1)]) == [10, 20, 30, 40]
  {
    var runs := [Run(10, 1), Run(20, 1), Run(30, 1), Run(40, 1)];
    forall k | 0 <= k < 4 ensures Range(runs[k].block, 1) == [runs[k].block] {
    }
    assert runs[..3][..2][..1][..0] == [];
    assert runs == runs[..3] + [runs[3]] && runs[..3] == runs[..2] + [runs[2]] && runs[..2] == [runs[0]] + [runs[1]];
    BlocksConcat(runs[..3], [runs[3]]);
    BlocksConcat(runs[..2], [runs[2]]);
    BlocksConcat([runs[0]], [runs[1]]);
    BlocksOne(runs[0]);
    BlocksOne(runs[1]);
    BlocksOne(runs[2]);
    BlocksOne(runs[3]);
  }

  lemma ReadableReadsBack(disk: map<nat, Node>, runs: seq<Run>, blockSize: nat)
    requires Fits(runs, blockSize) && Readable(runs) && |Blocks(runs)| > 0
    ensures ReadsBack(disk, runs, blockSize)
  {
    hide Blocks, Kept, TreeOk, ReadFirst, Describes, Layout, Data;
    var w, kept := Layout(runs, blockSize), Kept(runs);
    var d := DiskWith(disk, w);
    KeptIsData(runs);
    OffAll(kept);
    LayoutDescribes(runs, blockSize);
    forall list: seq<nat> | |list| == |Data(runs)| ensures TreeOk(d, w.inode, |list|) && Read(d, w.inode, list) == Data(runs) {
      LayoutReads(disk, runs, blockSize, list);
      ReadsKept(d, LeafNode(w), kept, list);
    }
  }

  lemma ReadsKept(disk: map<nat, Node>, node: Node, kept: seq<Run>, list: seq<nat>)
    requires Describes(node, kept) && |list| == |Blocks(kept)| && TreeOk(disk, node, |list|)
    requires forall k :: 0 <= k < |kept| ==> kept[k].len < U16
    ensures Read(disk, node, list) == Blocks(kept)
  {
    hide Blocks, TreeOk, ReadFirst, Describes;
    DepthZero(node, kept);
    forall p | 0 <= p < |list| ensures ReadFirst(disk, node, node.entries, list)[p] == Blocks(kept)[p] {
      var k := RunAt(kept, p);
      ReadAt(disk, node, kept, node.entries, list, k, p);
      BlockAt(kept, k, p - Off(kept, k));
    }
  }

  lemma UnreadableMisses(disk: map<nat, Node>, runs: seq<Run>, blockSize: nat)
    requires Fits(runs, blockSize) && !Readable(runs) && |Blocks(runs)| > 0
    ensures !ReadsBack(disk, runs, blockSize)
  {
    hide Blocks, TreeOk, ReadFirst, Describes, Layout, Data;
    var w, kept := Layout(runs, blockSize), Kept(runs);
    var d := DiskWith(disk, w);
    var list: seq<nat> := seq(|Data(runs)|, _ => 0);
    LayoutDescribes(runs, blockSize);
    DepthZero(LeafNode(w), kept);
    BlocksPositive(runs);
    DataPositive(runs);
    var p: nat;
    if |runs| > 3 && runs[0].len == 1 {
      p := 1;
      assert Off(kept, 1) == 1;
      LayoutReads(disk, runs, blockSize, list);
      ReadBeyond(d, LeafNode(w), kept, LeafNode(w).entries, list, p);
    } else {
      KeptIsData(runs);
      OffAll(kept);
      var k :| 0 <= k < |kept| && kept[k].len >= U16;
      p := Off(kept, k) + kept[k].len % U16;
      OffMonotone(kept, k + 1, |kept|);
      LayoutReads(disk, runs, blockSize, list);
      ReadAt(d, LeafNode(w), kept, LeafNode(w).entries, list, k, p);
    }
    assert Read(d, w.inode, list)[p] == 0 && Data(runs)[p] > 0;
  }

  lemma DataPositive(runs: seq<Run>)
    requires Proper(runs) && |Blocks(runs)| > 0
    ensures forall p :: 0 <= p < |Data(runs)| ==> Data(runs)[p] > 0
  {
    BlocksPositive(runs);
  }
}
