/**
 What the free counts of the image mean before and after ext4_utils/ext4fixup.c: the superblock counts what the
 descriptors count together, and each descriptor counts the clear bits of its group's bitmap.
 */
module FixupCounts {
  import opened FixupTree
  import opened FixupMeaning
  import opened FixupDisk
  import Arith

  function Total(desc: seq<nat>): nat {
    if |desc| == 0 then 0 else Total(desc[..|desc| - 1]) + desc[|desc| - 1]
  }

  // The clear bits among the first n.
  function ClearBits(bits: seq<bool>, n: nat): nat
    requires n <= |bits|
  {
    if n == 0 then 0 else ClearBits(bits, n - 1) + if bits[n - 1] then 0 else 1
  }

  // The superblock counts the free inodes of all groups.
  predicate Counted(d: Disk) {
    0 in d.descs && d.sb.freeInodes == Total(d.descs[0])
  }

  // Group i's descriptor counts the free inodes of its bitmap.
  predicate CountedGroup(d: Disk, i: nat) {
    && 0 in d.descs && i < |d.descs[0]| && i < |d.bitmaps| && d.sb.ipg <= |d.bitmaps[i]|
    && d.descs[0][i] == ClearBits(d.bitmaps[i], d.sb.ipg)
  }

  lemma {:induction false} TotalGrows(a: seq<nat>, b: seq<nat>, delta: nat)
    requires |a| == |b| && forall i :: 0 <= i < |a| ==> b[i] == a[i] + delta
    ensures Total(b) == Total(a) + |a| * delta
  {
    if |a| > 0 {
      var n := |a| - 1;
      TotalGrows(a[..n], b[..n], delta);
      assert |a| * delta == n * delta + delta;
    }
  }

  lemma {:induction false} ClearAbove(a: seq<bool>, b: seq<bool>, lo: nat, n: nat)
    requires lo <= n <= |a| == |b| && b[..lo] == a[..lo] && forall i :: lo <= i < n ==> !b[i]
    ensures ClearBits(b, n) == ClearBits(a, lo) + (n - lo)
    decreases n
  {
    if n > lo {
      ClearAbove(a, b, lo, n - 1);
    } else if n > 0 {
      assert b[n - 1] == b[..lo][n - 1] == a[..lo][n - 1] == a[n - 1];
      assert b[..lo - 1] == b[..lo][..lo - 1] == a[..lo][..lo - 1] == a[..lo - 1];
      ClearAbove(a, b, n - 1, n - 1);
    }
  }

  // The new inodes per group are the least number of whole blocks of them that is enough.
  lemma FixedIpg(g: Geometry, d: Disk, torn: bool)
    requires Acceptable(g, d)
    ensures var f := Fixed(g, d, torn);
            f.sb.ipg % g.perBlock == 0 && d.sb.ipg <= f.sb.ipg < d.sb.ipg + g.perBlock
  {
    hide RenumberTree, NewBitmaps, NewDesc, ProperTree;
    AlignUpFits(d.sb.ipg, g.perBlock);
    AlignedWhole(d.sb.ipg, g.perBlock);
  }

  lemma AlignedWhole(x: nat, y: nat)
    requires y > 0
    ensures AlignUp(x, y) % y == 0
  {
    Arith.QuotientUnique(AlignUp(x, y), y, (x + y - 1) / y, 0);
  }

  // The finished superblock counts the inodes of all groups if the old one did, and as many more free ones as
  // there are more inodes. All of its copies say the same.
  lemma FixedSuperblocks(g: Geometry, d: Disk, torn: bool)
    requires Acceptable(g, d) && SaneDisk(g, d)
    ensures var f := Fixed(g, d, torn);
            && d.sb.inodes == g.groups * d.sb.ipg && f.sb.inodes == g.groups * f.sb.ipg
            && f.sb.freeInodes - d.sb.freeInodes == f.sb.inodes - d.sb.inodes
            && !f.sb.busy && f.sb.groupNr == 0
            && (forall i :: i in g.supers && 0 < i < g.groups ==> i in f.backups && f.backups[i] == f.sb.(groupNr := i))
            && (forall i :: i in g.supers && 0 < i < g.groups ==> i in f.descs && f.descs[i] == f.descs[0])
  {
    hide RenumberTree, NewBitmaps, NewDesc, SaneTree, AlignUp, ProperTree;
    AcceptedBase(g, d);
    Grows(g.groups, d.sb.ipg, GrownIpg(g, d.sb));
  }

  lemma Grows(n: nat, lo: int, hi: int)
    ensures n * (hi - lo) == n * hi - n * lo && hi * n == n * hi
  {
  }

  // The free count of the superblock is again the total of the descriptors, unless a power cut tore the two apart.
  lemma FixedFreeCount(g: Geometry, d: Disk, torn: bool)
    requires Acceptable(g, d) && Counted(d)
    ensures var f := Fixed(g, d, torn);
            0 in f.descs && f.sb.freeInodes == Total(f.descs[0]) + if torn then g.groups * (f.sb.ipg - d.sb.ipg) else 0
  {
    hide RenumberTree, NewBitmaps, ProperTree, AlignUp;
    AcceptedBase(g, d);
    var f := Fixed(g, d, torn);
    if !torn {
      TotalGrows(d.descs[0], f.descs[0], GrownIpg(g, d.sb) - d.sb.ipg);
    }
  }

  // Each descriptor counts the clear bits of its group's bitmap, up to the new number of inodes.
  lemma FixedGroupCount(g: Geometry, d: Disk, i: nat)
    requires Acceptable(g, d) && i < g.groups && CountedGroup(d, i)
    requires Fixed(g, d, false).sb.ipg <= |d.bitmaps[i]|
    ensures CountedGroup(Fixed(g, d, false), i)
    ensures var f := Fixed(g, d, false);
            f.bitmaps[i] == d.bitmaps[i][..d.sb.ipg] + seq(f.sb.ipg - d.sb.ipg, _ => false) + d.bitmaps[i][f.sb.ipg..]
  {
    hide RenumberTree, ProperTree, AlignUp, ClearBits;
    AcceptedBase(g, d);
    var f := Fixed(g, d, false);
    AlignUpFits(d.sb.ipg, g.perBlock);
    assert f.bitmaps[i][..d.sb.ipg] == d.bitmaps[i][..d.sb.ipg];
    ClearAbove(d.bitmaps[i], f.bitmaps[i], d.sb.ipg, f.sb.ipg);
  }
}
