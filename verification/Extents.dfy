/**
 Extents: the writer of ext4_utils/extent.c and the reader of ext4_utils/ext4fixup.c.
 */
module Extents {

  // Blocks [block, block + len) of the filesystem.
  datatype Run = Run(block: nat, len: nat)

  // The 12-byte entries that follow a header.
  datatype Slot =
    | Extent(block: nat, len: nat, startHi: nat, startLo: nat)
    | Index(leafHi: nat, leafLo: nat)

  datatype Node = Node(magic: nat, entries: nat, depth: nat, slots: seq<Slot>)

  const MAGIC := 0xf30a
  const U16 := 0x1_0000
  const U32 := 0x1_0000_0000

  // What an allocation hands out.
  predicate Proper(runs: seq<Run>) {
    forall k :: 0 <= k < |runs| ==> runs[k].len > 0 && runs[k].block > 0 && runs[k].block + runs[k].len <= U32
  }

  function Range(block: nat, len: nat): (r: seq<nat>)
    ensures |r| == len && forall i :: 0 <= i < len ==> r[i] == block + i
  {
    seq(len, i requires 0 <= i < len => block + i)
  }

  // The blocks of the runs, in order.
  function Blocks(runs: seq<Run>): seq<nat> {
    if |runs| == 0 then [] else Blocks(runs[..|runs| - 1]) + Range(runs[|runs| - 1].block, runs[|runs| - 1].len)
  }

  // The number of blocks in the first k runs.
  function Off(runs: seq<Run>, k: nat): nat
    requires k <= |runs|
  {
    if k == 0 then 0 else Off(runs, k - 1) + runs[k - 1].len
  }

  lemma {:induction false} BlocksConcat(a: seq<Run>, b: seq<Run>)
    ensures Blocks(a + b) == Blocks(a) + Blocks(b)
  {
    if |b| == 0 {
      assert a + b == a;
    } else {
      var n := |b| - 1;
      assert (a + b)[..|a + b| - 1] == a + b[..n];
      BlocksConcat(a, b[..n]);
    }
  }

  lemma BlocksOne(r: Run)
    ensures Blocks([r]) == Range(r.block, r.len)
  {
    assert Blocks([r][..0]) == [];
  }

  /* The lists of an allocation. */

  class Allocation {
    var list: seq<Run>
    var oob: seq<Run>
    // The place in `list` that the iterator points to.
    var iter: nat

    constructor (runs: seq<Run>)
      ensures list == runs && oob == [] && iter == 0
    {
      list, oob, iter := runs, [], 0;
    }

    // Splits the list `len` blocks after the iterator. The iterator moves only if a region has to be cut in two.
    method DoSplit(len: nat) returns (at: nat)
      requires iter <= |list|
      modifies this`list, this`iter
      ensures var (k, off) := Fit(old(list[iter..]), len);
              var j := old(iter) + k;
              if off > 0 && j < |old(list)| then
                && at == old(iter) && iter == j + 1
                && list == old(list)[..j]
                           + [Run(old(list)[j].block, off), Run(old(list)[j].block + off, old(list)[j].len - off)]
                           + old(list)[j + 1..]
              else at == j && list == old(list) && iter == old(iter)
    {
      var reg: nat, left: nat := iter, len;
      ghost var tail := list[iter..];
      while reg < |list| && left >= list[reg].len
        invariant iter <= reg <= |list|
        invariant Fit(tail, len) == (Fit(list[reg..], left).0 + reg - iter, Fit(list[reg..], left).1)
        decreases |list| - reg
      {
        assert list[reg..][1..] == list[reg + 1..];
        reg, left := reg + 1, left - list[reg].len;
      }
      if left > 0 && reg < |list| {
        var r := list[reg];
        at := iter;
        list := list[..reg] + [Run(r.block, left), Run(r.block + left, r.len - left)] + list[reg + 1..];
        iter := reg + 1;
      } else {
        at := reg;
      }
    }

    // Moves the regions from place `at` up to the iterator, or to the end, to the other list.
    method MoveToOob(at: nat)
      requires at < |list| && iter <= |list|
      modifies this
      ensures var stop := if at <= old(iter) then old(iter) else |old(list)|;
              && oob == old(oob) + old(list)[at..stop] && list == old(list)[..at] + old(list)[stop..]
              && iter == if at <= old(iter) then at else old(iter)
    {
      hide *;
      ghost var list0, oob0, iter0 := list, oob, iter;
      ghost var stop := if at <= iter then iter else |list|;
      ghost var m := at;
      NothingMoved(list0, oob0, at);
      while at < |list| && at != iter
        invariant at <= m <= stop && list == list0[..at] + list0[m..] && oob == oob0 + list0[at..m]
        invariant iter == if at <= iter0 then iter0 - (m - at) else iter0
        decreases |list|
      {
        MovedNext(list0, oob0, at, m);
        oob := oob + [list[at]];
        list := list[..at] + list[at + 1..];
        if at < iter {
          iter := iter - 1;
        }
        m := m + 1;
      }
    }

    // Sets the first blocks aside for an index block.
    method ReserveOob(blocks: nat) returns (ok: bool)
      requires iter == 0 && Proper(list)
      modifies this
      ensures var (k, off) := Fit(old(list), blocks);
              && ok == (k < |old(list)|) && (ok ==> iter == 0)
              && (ok && off > 0 ==>
                    && oob == old(oob) + old(list)[..k] + [Run(old(list)[k].block, off)]
                    && list == [Run(old(list)[k].block + off, old(list)[k].len - off)] + old(list)[k + 1..])
              && (ok && off == 0 && k > 0 ==> oob == old(oob) + old(list)[k..] && list == old(list)[..k])
    {
      hide Proper;
      ghost var list0 := list;
      FitNone(list0);
      assert list0[0..] == list0;
      var at := DoSplit(0);
      assert list == list0 && iter == 0;
      at := DoSplit(blocks);
      if at == |list| {
        return false;
      }
      MoveToOob(at);
      return true;
    }

    // Reserves one block and returns its number.
    method ReserveIndex() returns (block: nat)
      requires |list| > 3 && Proper(list) && iter == 0 && oob == []
      modifies this
      ensures list == Kept(old(list)) && iter == 0 && block == IndexBlock(old(list)) > 0
    {
      hide Fit;
      FirstFits(list);
      var _ := ReserveOob(1);
      block := oob[0].block;
    }

    // Gives back the last block.
    method DropLastBlock()
      requires |list| > 0 && iter == 0
      modifies this`list
      ensures list == DropLast(old(list))
    {
      var last := list[|list| - 1];
      if last.len > 1 {
        list := list[..|list| - 1] + [Run(last.block, last.len - 1)];
      } else {
        list := list[..|list| - 1];
      }
    }

    // Describes the regions in the entries after a header, in a buffer of zeros with room for `room` entries.
    method FillSlots(room: nat) returns (slots: seq<Slot>)
      requires iter == 0 && |list| <= room
      ensures slots == ExtentsOf(list) + Zeros(room - |list|)
    {
      slots := Zeros(room);
      var fileBlock, k := 0, iter;
      while k < |list|
        invariant 0 <= k <= |list| && fileBlock == Off(list, k) && |slots| == room
        invariant forall i :: 0 <= i < room ==> slots[i] == if i < k then ExtentsOf(list)[i] else ZERO
      {
        slots := slots[k := Extent(fileBlock, list[k].len % U16, 0, list[k].block)];
        fileBlock, k := fileBlock + list[k].len, k + 1;
      }
    }

    // Describes a fresh allocation of one block more than the file needs: in the inode if it has at most three
    // regions, otherwise in an index block taken from the first region. The extent block has room for
    // (blockSize - 12) / 12 entries, but only more than blockSize - 1 regions are turned down.
    method WriteExtents(blockSize: nat) returns (r: Written)
      requires blockSize >= 60 && |list| > 0 && Proper(list) && iter == 0 && oob == []
      requires |list| <= Room(blockSize) || |list| > blockSize - 1
      modifies this
      ensures r == Layout(old(list), blockSize)
      ensures r != TooBig ==> list == Kept(old(list)) && iter == 0
    {
      hide Proper, DropLast, ExtentsOf, Zeros, Kept, IndexBlock;
      var n, extentBlock := |list|, 0;
      KeptShort(list);
      if n <= 3 {
        DropLastBlock();
        n := |list|;
      } else {
        extentBlock := ReserveIndex();
      }
      if extentBlock == 0 {
        var slots := FillSlots(4);
        return Inline(Node(MAGIC, n, 0, slots));
      } else {
        if blockSize - 12 / 12 < n {
          return TooBig;
        }
        var slots := FillSlots(Room(blockSize));
        return Indexed(Node(MAGIC, 1, 1, [Index(0, extentBlock)]), extentBlock, Node(MAGIC, n, 0, slots));
      }
    }
  }

  const ZERO := Extent(0, 0, 0, 0)

  function Zeros(n: nat): (r: seq<Slot>)
    ensures |r| == n && forall i :: 0 <= i < n ==> r[i] == Extent(0, 0, 0, 0)
  {
    seq(n, _ => ZERO)
  }

  function Room(blockSize: nat): nat
    requires blockSize >= 12
  {
    (blockSize - 12) / 12
  }

  // As many entries of 12 bytes as fit after a header of 12.
  lemma RoomFits(blockSize: nat)
    requires blockSize >= 12
    ensures 12 + 12 * Room(blockSize) <= blockSize < 12 + 12 * (Room(blockSize) + 1)
  {
  }

  // What the writer leaves: the header area of the inode, and an extent block if there is one.
  datatype Written = TooBig | Inline(inode: Node) | Indexed(inode: Node, block: nat, leaf: Node)

  function DropLast(runs: seq<Run>): seq<Run>
    requires |runs| > 0
  {
    var n := |runs| - 1;
    if runs[n].len > 1 then runs[..n] + [Run(runs[n].block, runs[n].len - 1)] else runs[..n]
  }

  // The regions that stay the file's.
  function Kept(runs: seq<Run>): seq<Run>
    requires |runs| > 0 && Proper(runs)
  {
    if |runs| <= 3 then DropLast(runs)
    else if runs[0].len > 1 then [Run(runs[0].block + 1, runs[0].len - 1)] + runs[1..]
    else runs[..1]
  }

  function IndexBlock(runs: seq<Run>): nat
    requires |runs| > 3
  {
    if runs[0].len > 1 then runs[0].block else runs[1].block
  }

  function ExtentsOf(kept: seq<Run>): (r: seq<Slot>)
    ensures |r| == |kept|
    ensures forall k :: 0 <= k < |kept| ==>
                          r[k] == Extent(Off(kept, k), kept[k].len % U16, 0, kept[k].block)
  {
    seq(|kept|, k requires 0 <= k < |kept| => Extent(Off(kept, k), kept[k].len % U16, 0, kept[k].block))
  }

  function Layout(runs: seq<Run>, blockSize: nat): Written
    requires blockSize >= 60 && |runs| > 0 && Proper(runs) && (|runs| <= Room(blockSize) || |runs| > blockSize - 1)
  {
    var kept := Kept(runs);
    if |runs| <= 3 then Inline(Node(MAGIC, |kept|, 0, ExtentsOf(kept) + Zeros(4 - |kept|)))
    else if |runs| > blockSize - 1 then TooBig
    else Indexed(Node(MAGIC, 1, 1, [Index(0, IndexBlock(runs))]), IndexBlock(runs),
                 Node(MAGIC, |runs|, 0, ExtentsOf(kept) + Zeros(Room(blockSize) - |kept|)))
  }

  lemma NothingMoved(list: seq<Run>, oob: seq<Run>, at: nat)
    requires at <= |list|
    ensures list == list[..at] + list[at..] && oob == oob + list[at..at]
  {
  }

  // The next region goes from one list to the other.
  lemma MovedNext(list: seq<Run>, oob: seq<Run>, at: nat, m: nat)
    requires at <= m <= |list| && at < |list[..at] + list[m..]|
    ensures var now := list[..at] + list[m..];
            && m < |list| && oob + list[at..m] + [now[at]] == oob + list[at..m + 1]
            && now[..at] + now[at + 1..] == list[..at] + list[m + 1..]
  {
  }

  lemma FitNone(runs: seq<Run>)
    requires Proper(runs)
    ensures Fit(runs, 0) == (0, 0)
  {
  }

  lemma KeptShort(runs: seq<Run>)
    requires |runs| > 0 && Proper(runs)
    ensures |Kept(runs)| <= |runs| && (|runs| <= 3 ==> Kept(runs) == DropLast(runs))
  {
  }

  lemma FirstFits(runs: seq<Run>)
    requires |runs| > 1 && Proper(runs)
    ensures Fit(runs, 1) == if runs[0].len > 1 then (0, 1) else (1, 0)
  {
    if runs[0].len == 1 {
      assert Fit(runs[1..], 0) == (0, 0);
    }
  }

  // How many whole regions fit in the first `len` blocks, and how many blocks of the next one.
  function Fit(runs: seq<Run>, len: nat): (r: (nat, nat))
    ensures r.0 <= |runs| && (r.0 < |runs| ==> r.1 < runs[r.0].len)
  {
    if |runs| == 0 || len < runs[0].len then (0, len)
    else var r := Fit(runs[1..], len - runs[0].len); (r.0 + 1, r.1)
  }
}
