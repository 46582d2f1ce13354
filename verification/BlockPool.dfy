/**
 The block groups of ext4_utils/allocate.c as values: their bitmaps, their lists of used chunks, and what
 it takes for these to agree with each other and with the allocations that are live.
 */
module BlockPool {

  // Blocks are counted from the start of their group.
  datatype Chunk = Chunk(block: nat, len: nat)

  datatype Region = Region(bg: nat, block: nat, len: nat)

  // `header` blocks at the start and the blocks from `limit` on are never handed out.
  datatype Group = Group(bits: seq<bool>, chunks: seq<Chunk>, free: int, header: nat, limit: nat)

  function End(c: Chunk): nat {
    c.block + c.len
  }

  // The number of clear bits.
  function Clear(bits: seq<bool>): nat {
    if |bits| == 0 then 0 else Clear(bits[..|bits| - 1]) + if bits[|bits| - 1] then 0 else 1
  }

  function Fill(bits: seq<bool>, start: nat, num: nat, value: bool): (r: seq<bool>)
    requires start + num <= |bits|
    ensures |r| == |bits|
    ensures forall b :: 0 <= b < |bits| ==> r[b] == if start <= b < start + num then value else bits[b]
  {
    seq(|bits|, b requires 0 <= b < |bits| => if start <= b < start + num then value else bits[b])
  }

  predicate AllAre(bits: seq<bool>, start: nat, num: nat, value: bool) {
    start + num <= |bits| && forall b :: start <= b < start + num ==> bits[b] == value
  }

  lemma {:induction false} ClearAfterFill(bits: seq<bool>, start: nat, num: nat, value: bool)
    requires AllAre(bits, start, num, !value)
    ensures Clear(Fill(bits, start, num, value)) + (if value then num else 0) == Clear(bits) + if value then 0 else num
  {
    var r := Fill(bits, start, num, value);
    if |bits| > 0 {
      var n := |bits| - 1;
      var num' := if start + num == |bits| && num > 0 then num - 1 else num;
      if start <= n {
        ClearAfterFill(bits[..n], start, num', value);
        assert r[..n] == Fill(bits[..n], start, num', value);
      } else {
        assert r == bits;
      }
    }
  }

  // Chunks in order, without overlap, between the header and the limit.
  predicate Sorted(g: Group) {
    && |g.chunks| >= 2 && g.header <= g.chunks[0].block
    && End(g.chunks[|g.chunks| - 1]) <= g.limit <= |g.bits|
    && forall j, k :: 0 <= j < k < |g.chunks| ==> End(g.chunks[j]) <= g.chunks[k].block
  }

  // Hole j lies between chunks j - 1 and j.
  function HoleStart(g: Group, j: nat): nat
    requires 0 < j < |g.chunks|
  {
    End(g.chunks[j - 1])
  }

  function HoleSize(g: Group, j: nat): nat
    requires 0 < j < |g.chunks| && Sorted(g)
  {
    g.chunks[j].block - End(g.chunks[j - 1])
  }

  predicate GroupOk(g: Group) {
    && Sorted(g)
    && g.free == Clear(g.bits)
    && AllAre(g.bits, 0, g.header, true)
    && AllAre(g.bits, g.limit, |g.bits| - g.limit, true)
    && forall j :: 0 < j < |g.chunks| ==> AllAre(g.bits, HoleStart(g, j), HoleSize(g, j), false)
  }

  // A live region lies within one chunk, and its blocks are marked used.
  predicate Within(g: Group, block: nat, len: nat) {
    exists j :: 0 <= j < |g.chunks| && g.chunks[j].block <= block && block + len <= End(g.chunks[j])
  }

  predicate RegionOk(groups: seq<Group>, r: Region) {
    && r.bg < |groups| && r.len > 0
    && Within(groups[r.bg], r.block, r.len) && AllAre(groups[r.bg].bits, r.block, r.len, true)
  }

  predicate Disjoint(r: Region, q: Region) {
    r.bg != q.bg || r.block + r.len <= q.block || q.block + q.len <= r.block
  }

  ghost predicate GroupsOk(groups: seq<Group>) {
    forall i :: 0 <= i < |groups| ==> GroupOk(groups[i])
  }

  ghost predicate RegionsOk(groups: seq<Group>, live: set<Region>) {
    forall r :: r in live ==> RegionOk(groups, r)
  }

  ghost predicate Apart(live: set<Region>) {
    forall r, q :: r in live && q in live && r != q ==> Disjoint(r, q)
  }

  ghost predicate PoolOk(groups: seq<Group>, live: set<Region>) {
    GroupsOk(groups) && RegionsOk(groups, live) && Apart(live)
  }

  // Headers and the blocks past the end are never part of a live region.
  lemma LiveAvoidsHeaders(groups: seq<Group>, live: set<Region>, r: Region)
    requires PoolOk(groups, live) && r in live
    ensures groups[r.bg].header <= r.block && r.block + r.len <= groups[r.bg].limit
  {
    assert RegionOk(groups, r) && GroupOk(groups[r.bg]);
    var g := groups[r.bg];
    var j :| 0 <= j < |g.chunks| && g.chunks[j].block <= r.block && r.block + r.len <= End(g.chunks[j]);
    assert j > 0 ==> End(g.chunks[0]) <= g.chunks[j].block;
    assert j < |g.chunks| - 1 ==> End(g.chunks[j]) <= g.chunks[|g.chunks| - 1].block;
  }

  /* Taking blocks from the start of a hole. */

  function Take(g: Group, j: nat, num: nat): Group
    requires 0 < j < |g.chunks| && Sorted(g) && num <= HoleSize(g, j)
  {
    g.(bits := Fill(g.bits, HoleStart(g, j), num, true),
       chunks := g.chunks[j - 1 := g.chunks[j - 1].(len := g.chunks[j - 1].len + num)],
       free := g.free - num)
  }

  lemma HoleInGroup(g: Group, j: nat)
    requires 0 < j < |g.chunks| && Sorted(g)
    ensures g.header <= HoleStart(g, j) && HoleStart(g, j) + HoleSize(g, j) <= g.limit <= |g.bits|
  {
    assert j < |g.chunks| - 1 ==> End(g.chunks[j]) <= g.chunks[|g.chunks| - 1].block;
    assert j - 1 > 0 ==> End(g.chunks[0]) <= g.chunks[j - 1].block;
  }

  lemma TakeSorted(g: Group, j: nat, num: nat)
    requires Sorted(g) && 0 < j < |g.chunks| && num <= HoleSize(g, j)
    requires HoleStart(g, j) + num <= |g.bits|
    ensures Sorted(Take(g, j, num))
    ensures forall k :: 0 < k < |g.chunks| ==>
                          && HoleSize(Take(g, j, num), k) == HoleSize(g, k) - (if k == j then num else 0)
                          && HoleStart(Take(g, j, num), k) == HoleStart(g, k) + (if k == j then num else 0)
  {
    var g' := Take(g, j, num);
    forall a, b | 0 <= a < b < |g.chunks| ensures End(g'.chunks[a]) <= g'.chunks[b].block {
      assert End(g.chunks[a]) <= g.chunks[b].block;
      assert j < b ==> g.chunks[j].block <= End(g.chunks[j]) <= g.chunks[b].block;
    }
  }

  lemma TakeOk(g: Group, j: nat, num: nat)
    requires GroupOk(g) && 0 < j < |g.chunks| && num <= HoleSize(g, j)
    ensures HoleStart(g, j) + num <= |g.bits| && GroupOk(Take(g, j, num))
  {
    HoleInGroup(g, j);
    TakeSorted(g, j, num);
    var g' := Take(g, j, num);
    assert AllAre(g.bits, HoleStart(g, j), HoleSize(g, j), false);
    ClearAfterFill(g.bits, HoleStart(g, j), num, true);
    forall k | 0 < k < |g.chunks| ensures AllAre(g'.bits, HoleStart(g', k), HoleSize(g', k), false) {
      assert AllAre(g.bits, HoleStart(g, k), HoleSize(g, k), false);
      if k != j {
        HolesApart(g, j, k);
      }
    }
  }

  lemma HolesApart(g: Group, j: nat, k: nat)
    requires 0 < j < |g.chunks| && 0 < k < |g.chunks| && Sorted(g) && j != k
    ensures HoleStart(g, j) + HoleSize(g, j) <= HoleStart(g, k) || HoleStart(g, k) + HoleSize(g, k) <= HoleStart(g, j)
  {
    if j < k {
      assert j == k - 1 || End(g.chunks[j]) <= g.chunks[k - 1].block;
    } else {
      assert k == j - 1 || End(g.chunks[k]) <= g.chunks[j - 1].block;
    }
  }

  // Blocks in use and blocks not in use do not overlap.
  lemma ApartByBits(bits: seq<bool>, used: nat, n: nat, unused: nat, m: nat)
    requires n > 0 && m > 0 && AllAre(bits, used, n, true) && AllAre(bits, unused, m, false)
    ensures used + n <= unused || unused + m <= used
  {
    assert bits[used] && !bits[unused];
  }

  lemma TakeKeepsWithin(g: Group, j: nat, num: nat, block: nat, len: nat)
    requires Sorted(g) && 0 < j < |g.chunks| && num <= HoleSize(g, j) && HoleStart(g, j) + num <= |g.bits|
    requires Within(g, block, len)
    ensures Within(Take(g, j, num), block, len)
  {
    var k :| 0 <= k < |g.chunks| && g.chunks[k].block <= block && block + len <= End(g.chunks[k]);
    var g' := Take(g, j, num);
    assert g'.chunks[k].block <= block && block + len <= End(g'.chunks[k]);
  }

  lemma TakeKeepsRegion(groups: seq<Group>, i: nat, j: nat, num: nat, q: Region)
    requires i < |groups| && Sorted(groups[i]) && 0 < j < |groups[i].chunks| && 0 < num <= HoleSize(groups[i], j)
    requires AllAre(groups[i].bits, HoleStart(groups[i], j), num, false)
    requires RegionOk(groups, q)
    ensures RegionOk(groups[i := Take(groups[i], j, num)], q) && Disjoint(Region(i, HoleStart(groups[i], j), num), q)
  {
    var g := groups[i];
    if q.bg == i {
      ApartByBits(g.bits, q.block, q.len, HoleStart(g, j), num);
      TakeKeepsWithin(g, j, num, q.block, q.len);
    }
  }

  lemma TakenRegionOk(groups: seq<Group>, i: nat, j: nat, num: nat)
    requires i < |groups| && GroupOk(groups[i]) && 0 < j < |groups[i].chunks| && 0 < num <= HoleSize(groups[i], j)
    ensures HoleStart(groups[i], j) + num <= |groups[i].bits|
    ensures RegionOk(groups[i := Take(groups[i], j, num)], Region(i, HoleStart(groups[i], j), num))
  {
    TakeOk(groups[i], j, num);
    var g' := Take(groups[i], j, num);
    assert g'.chunks[j - 1].block <= HoleStart(groups[i], j) && HoleStart(groups[i], j) + num <= End(g'.chunks[j - 1]);
  }

  // A region taken from a hole is live from then on; everything that was live still is.
  lemma TakeKeepsPool(groups: seq<Group>, live: set<Region>, i: nat, j: nat, num: nat)
    requires PoolOk(groups, live) && i < |groups| && 0 < j < |groups[i].chunks|
    requires GroupOk(groups[i]) && 0 < num <= HoleSize(groups[i], j)
    ensures HoleStart(groups[i], j) + num <= |groups[i].bits|
    ensures PoolOk(groups[i := Take(groups[i], j, num)], live + {Region(i, HoleStart(groups[i], j), num)})
    ensures forall q :: q in live ==> Disjoint(Region(i, HoleStart(groups[i], j), num), q)
  {
    assert Sorted(groups[i]);
    TakeOk(groups[i], j, num);
    HoleClear(groups[i], j, num);
    hide GroupOk, RegionOk, Disjoint, HoleStart, HoleSize, Apart, AllAre;
    var r := Region(i, HoleStart(groups[i], j), num);
    var groups' := groups[i := Take(groups[i], j, num)];
    forall q | q in live ensures RegionOk(groups', q) && Disjoint(r, q) {
      TakeKeepsRegion(groups, i, j, num, q);
    }
    TakenRegionOk(groups, i, j, num);
    assert GroupsOk(groups');
    assert RegionsOk(groups', live + {r});
    ApartAdd(live, r);
  }

  lemma HoleClear(g: Group, j: nat, num: nat)
    requires GroupOk(g) && 0 < j < |g.chunks| && num <= HoleSize(g, j)
    ensures Sorted(g) && AllAre(g.bits, HoleStart(g, j), num, false)
  {
    assert AllAre(g.bits, HoleStart(g, j), HoleSize(g, j), false);
  }

  lemma ApartAdd(live: set<Region>, r: Region)
    requires Apart(live) && forall q :: q in live ==> Disjoint(r, q)
    ensures Apart(live + {r})
  {
  }

  /* Giving blocks back. */

  // The chunk list after blocks [block, block + num) of chunk i go free.
  function Shrink(chunks: seq<Chunk>, i: nat, block: nat, num: nat): seq<Chunk>
    requires i < |chunks| && num <= chunks[i].len
  {
    var c := chunks[i];
    if c.block == block then chunks[i := Chunk(c.block + num, c.len - num)]
    else if End(c) == block + num then chunks[i := Chunk(c.block, c.len - num)]
    else chunks
  }

  function GiveBack(g: Group, i: nat, block: nat, num: nat): Group
    requires i < |g.chunks| && num <= g.chunks[i].len && block + num <= |g.bits|
  {
    g.(bits := Fill(g.bits, block, num, false), chunks := Shrink(g.chunks, i, block, num), free := g.free + num)
  }

  // The chunk that holds the blocks is the last one that starts no later and is long enough.
  lemma ChunkIsLast(g: Group, i: nat, block: nat, num: nat, k: nat)
    requires Sorted(g) && i < k < |g.chunks| && num > 0
    requires g.chunks[i].block <= block && block + num <= End(g.chunks[i])
    ensures g.chunks[k].block > block
  {
    assert End(g.chunks[i]) <= g.chunks[k].block;
  }

  lemma ShrinkSorted(g: Group, i: nat, block: nat, num: nat)
    requires Sorted(g) && i < |g.chunks| && num > 0
    requires g.chunks[i].block <= block && block + num <= End(g.chunks[i]) && block + num <= |g.bits|
    ensures Sorted(GiveBack(g, i, block, num))
  {
    var g' := GiveBack(g, i, block, num);
    forall a, b | 0 <= a < b < |g.chunks| ensures End(g'.chunks[a]) <= g'.chunks[b].block {
      assert End(g.chunks[a]) <= g.chunks[b].block;
    }
  }

  // A hole grows by the blocks given back, or stays as it was.
  lemma HoleAfter(g: Group, i: nat, block: nat, num: nat, j: nat)
    requires Sorted(g) && i < |g.chunks| && num > 0 && 0 < j < |g.chunks|
    requires g.chunks[i].block <= block && block + num <= End(g.chunks[i]) && block + num <= |g.bits|
    requires AllAre(g.bits, HoleStart(g, j), HoleSize(g, j), false)
    ensures Sorted(GiveBack(g, i, block, num))
    ensures var g' := GiveBack(g, i, block, num); AllAre(g'.bits, HoleStart(g', j), HoleSize(g', j), false)
  {
    ShrinkSorted(g, i, block, num);
    HoleInGroup(GiveBack(g, i, block, num), j);
  }

  // The header and the blocks past the limit stay in use.
  lemma EdgesStay(g: Group, i: nat, block: nat, num: nat)
    requires GroupOk(g) && i < |g.chunks|
    requires g.chunks[i].block <= block && block + num <= End(g.chunks[i]) && block + num <= |g.bits|
    ensures var bits := Fill(g.bits, block, num, false);
            g.limit <= |bits| && AllAre(bits, 0, g.header, true) && AllAre(bits, g.limit, |bits| - g.limit, true)
  {
    assert i > 0 ==> End(g.chunks[0]) <= g.chunks[i].block;
    assert i < |g.chunks| - 1 ==> End(g.chunks[i]) <= g.chunks[|g.chunks| - 1].block;
  }

  lemma UsedFits(bits: seq<bool>, start: nat, num: nat, value: bool)
    requires AllAre(bits, start, num, value)
    ensures start + num <= |bits|
  {
  }

  lemma GiveBackOk(g: Group, i: nat, block: nat, num: nat)
    requires GroupOk(g) && i < |g.chunks| && num > 0
    requires g.chunks[i].block <= block && block + num <= End(g.chunks[i]) && AllAre(g.bits, block, num, true)
    ensures GroupOk(GiveBack(g, i, block, num))
  {
    hide AllAre, Clear, Fill, Sorted;
    UsedFits(g.bits, block, num, true);
    var g' := GiveBack(g, i, block, num);
    ClearAfterFill(g.bits, block, num, false);
    ShrinkSorted(g, i, block, num);
    EdgesStay(g, i, block, num);
    forall j | 0 < j < |g.chunks| ensures AllAre(g'.bits, HoleStart(g', j), HoleSize(g', j), false) {
      HoleAfter(g, i, block, num, j);
    }
  }

  function Rest(r: Region, num: nat): set<Region>
    requires num <= r.len
  {
    if num < r.len then {r.(len := r.len - num)} else {}
  }

  lemma RestApart(live: set<Region>, r: Region, num: nat)
    requires Apart(live) && r in live && num <= r.len
    ensures Apart(live - {r} + Rest(r, num))
  {
    forall p, q | p in live - {r} + Rest(r, num) && q in live - {r} + Rest(r, num) && p != q ensures Disjoint(p, q) {
      if p in live && p != r {
        assert Disjoint(p, r);
      }
      if q in live && q != r {
        assert Disjoint(q, r);
      }
    }
  }

  // Giving back the last `num` blocks of a live region leaves the rest of it, and all others, live.
  lemma GiveBackKeepsPool(groups: seq<Group>, live: set<Region>, r: Region, i: nat, num: nat)
    requires PoolOk(groups, live) && r in live && 0 < num <= r.len && r.bg < |groups| && i < |groups[r.bg].chunks|
    requires var c := groups[r.bg].chunks[i]; c.block <= r.block && r.block + r.len <= End(c)
    ensures r.block + r.len <= |groups[r.bg].bits|
    ensures PoolOk(groups[r.bg := GiveBack(groups[r.bg], i, r.block + r.len - num, num)], live - {r} + Rest(r, num))
  {
    hide GroupOk, RegionOk, Apart, Disjoint, AllAre, Within, Fill, Shrink;
    var g, start := groups[r.bg], r.block + r.len - num;
    assert RegionOk(groups, r) && GroupOk(g);
    LiveUsed(groups, r, num);
    GiveBackOk(g, i, start, num);
    var groups' := groups[r.bg := GiveBack(g, i, start, num)];
    forall q | q in live - {r} ensures RegionOk(groups', q) {
      assert RegionOk(groups, q);
      ApartPair(live, q, r);
      OtherStays(groups, q, r, i, num);
    }
    if num < r.len {
      RestStays(groups, r, i, num);
    }
    RestApart(live, r, num);
    assert GroupsOk(groups');
    assert RegionsOk(groups', live - {r} + Rest(r, num));
  }

  lemma LiveUsed(groups: seq<Group>, r: Region, num: nat)
    requires RegionOk(groups, r) && num <= r.len
    ensures r.bg < |groups| && r.block + r.len <= |groups[r.bg].bits|
    ensures AllAre(groups[r.bg].bits, r.block + r.len - num, num, true)
  {
  }

  lemma ApartPair(live: set<Region>, q: Region, r: Region)
    requires Apart(live) && q in live && r in live && q != r
    ensures Disjoint(q, r)
  {
  }

  // `len` blocks stay within a chunk if they are apart from the ones that go.
  lemma StaysWithin(g: Group, i: nat, start: nat, num: nat, block: nat, len: nat)
    requires i < |g.chunks| && num <= g.chunks[i].len && start + num <= |g.bits| && len > 0
    requires g.chunks[i].block <= start && start + num <= End(g.chunks[i])
    requires block + len <= start || start + num <= block
    requires Within(g, block, len)
    ensures Within(GiveBack(g, i, start, num), block, len)
  {
    var k :| 0 <= k < |g.chunks| && g.chunks[k].block <= block && block + len <= End(g.chunks[k]);
    var g' := GiveBack(g, i, start, num);
    assert g'.chunks[k].block <= block && block + len <= End(g'.chunks[k]);
  }

  lemma OtherStays(groups: seq<Group>, q: Region, r: Region, i: nat, num: nat)
    requires RegionOk(groups, q) && r.bg < |groups| && Disjoint(q, r) && 0 < num <= r.len
    requires i < |groups[r.bg].chunks| && r.block + r.len <= |groups[r.bg].bits|
    requires var c := groups[r.bg].chunks[i]; c.block <= r.block && r.block + r.len <= End(c)
    ensures RegionOk(groups[r.bg := GiveBack(groups[r.bg], i, r.block + r.len - num, num)], q)
  {
    if q.bg == r.bg {
      StaysWithin(groups[r.bg], i, r.block + r.len - num, num, q.block, q.len);
    }
  }

  lemma RestStays(groups: seq<Group>, r: Region, i: nat, num: nat)
    requires RegionOk(groups, r) && 0 < num < r.len && i < |groups[r.bg].chunks|
    requires var c := groups[r.bg].chunks[i]; c.block <= r.block && r.block + r.len <= End(c)
    ensures RegionOk(groups[r.bg := GiveBack(groups[r.bg], i, r.block + r.len - num, num)], r.(len := r.len - num))
  {
    var g' := GiveBack(groups[r.bg], i, r.block + r.len - num, num);
    assert g'.chunks[i].block <= r.block && r.block + r.len - num <= End(g'.chunks[i]);
  }
}
