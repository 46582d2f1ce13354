/**
 Where the blocks go that reduce_allocation and free_blocks of ext4_utils/allocate.c give back: which of them
 a later search can find.
 */
module BlockReturn {
  import opened BlockPool
  import opened BlockGreedy
  import opened BlockStack
  import opened BlockFill
  import opened BlockReduce

  // The freed blocks make a hole larger.
  predicate Returned(g: Group, i: nat, block: nat, num: nat)
    requires i < |g.chunks|
  {
    if g.chunks[i].block == block then i > 0 else End(g.chunks[i]) == block + num && i + 1 < |g.chunks|
  }

  // Freed blocks lie in a hole, and can be found again, if and only if they end a chunk they do not start and
  // that is not the group's last, or start a chunk that is not the group's first.
  lemma FoundAgainIff(groups: seq<Group>, bg: nat, i: nat, block: nat, num: nat)
    requires SortedAll(groups) && bg < |groups| && i < |groups[bg].chunks| && 0 < num && block + num <= |groups[bg].bits|
    requires groups[bg].chunks[i].block <= block && block + num <= End(groups[bg].chunks[i])
    ensures var after := groups[bg := GiveBack(groups[bg], i, block, num)];
            && SortedAll(after)
            && Sum(Sizes(after)) == Sum(Sizes(groups)) + (if Returned(groups[bg], i, block, num) then num else 0)
            && (InHole(after, Region(bg, block, num)) <==> Returned(groups[bg], i, block, num))
  {
    hide Sizes, Sum, Sorted, GiveBack, HoleSize, GroupSizes, InHole;
    var g := groups[bg];
    FreedInHole(groups, bg, i, block, num);
    var g' := GiveBack(g, i, block, num);
    GivenSizes(g, i, block, num);
    if Returned(g, i, block, num) {
      var j := if g.chunks[i].block == block then i else i + 1;
      SizesUpdate(groups, bg, g', j, HoleSize(g, j) + num);
      SizeAt(groups, bg, j);
      SumUpdate(Sizes(groups), Place(groups, bg, j), HoleSize(g, j) + num);
    } else {
      SameSizes(groups, bg, g');
    }
  }

  lemma FreedInHole(groups: seq<Group>, bg: nat, i: nat, block: nat, num: nat)
    requires SortedAll(groups) && bg < |groups| && i < |groups[bg].chunks| && 0 < num && block + num <= |groups[bg].bits|
    requires groups[bg].chunks[i].block <= block && block + num <= End(groups[bg].chunks[i])
    ensures var after := groups[bg := GiveBack(groups[bg], i, block, num)];
            SortedAll(after) && (InHole(after, Region(bg, block, num)) <==> Returned(groups[bg], i, block, num))
  {
    hide Sorted, Fill;
    var g := groups[bg];
    var g' := GiveBack(g, i, block, num);
    assert Sorted(g);
    ShrinkSorted(g, i, block, num);
    forall j | 0 < j < |g.chunks| && Contains(g', j, block, num) ensures Returned(g, i, block, num) {
      OnlyReturned(g, i, block, num, j);
    }
    if Returned(g, i, block, num) {
      var j := if g.chunks[i].block == block then i else i + 1;
      HoleBeside(g, i);
      assert Contains(g', j, block, num);
    }
  }

  // The chunks next to one do not overlap it.
  lemma HoleBeside(g: Group, i: nat)
    requires Sorted(g) && i < |g.chunks|
    ensures i > 0 ==> End(g.chunks[i - 1]) <= g.chunks[i].block
    ensures i + 1 < |g.chunks| ==> End(g.chunks[i]) <= g.chunks[i + 1].block
  {
  }

  lemma OnlyReturned(g: Group, i: nat, block: nat, num: nat, j: nat)
    requires Sorted(g) && i < |g.chunks| && 0 < num && block + num <= |g.bits|
    requires g.chunks[i].block <= block && block + num <= End(g.chunks[i]) && 0 < j < |g.chunks|
    requires Sorted(GiveBack(g, i, block, num)) && Contains(GiveBack(g, i, block, num), j, block, num)
    ensures Returned(g, i, block, num)
  {
    assert j < i ==> End(g.chunks[j]) <= g.chunks[i].block;
    assert i < j - 1 ==> End(g.chunks[i]) <= g.chunks[j - 1].block;
  }

  lemma SameSizes(groups: seq<Group>, bg: nat, g: Group)
    requires SortedAll(groups) && bg < |groups| && Sorted(g) && GroupSizes(g) == GroupSizes(groups[bg])
    ensures SortedAll(groups[bg := g]) && Sizes(groups[bg := g]) == Sizes(groups)
  {
    assert AllSizes(groups[bg := g]) == AllSizes(groups);
  }

  lemma GivenSizes(g: Group, i: nat, block: nat, num: nat)
    requires Sorted(g) && i < |g.chunks| && 0 < num && block + num <= |g.bits|
    requires g.chunks[i].block <= block && block + num <= End(g.chunks[i])
    ensures var g' := GiveBack(g, i, block, num);
            && Sorted(g')
            && if Returned(g, i, block, num) then
                 var j := if g.chunks[i].block == block then i else i + 1;
                 GroupSizes(g') == GroupSizes(g)[j - 1 := HoleSize(g, j) + num]
               else GroupSizes(g') == GroupSizes(g)
  {
    hide Sorted, HoleSize, Returned;
    ShrinkSorted(g, i, block, num);
    var g' := GiveBack(g, i, block, num);
    forall k | 0 < k < |g.chunks| ensures HoleSize(g', k) == HoleSize(g, k) + Growth(g, i, block, num, k) {
      OneHole(g, i, block, num, k);
    }
    if Returned(g, i, block, num) {
      GrowthPlace(g, i, block, num);
    }
  }

  function Growth(g: Group, i: nat, block: nat, num: nat, k: nat): nat
    requires i < |g.chunks|
  {
    if Returned(g, i, block, num) && k == (if g.chunks[i].block == block then i else i + 1) then num else 0
  }

  lemma GrowthPlace(g: Group, i: nat, block: nat, num: nat)
    requires i < |g.chunks| && Returned(g, i, block, num)
    ensures 0 < (if g.chunks[i].block == block then i else i + 1) < |g.chunks|
  {
  }

  lemma OneHole(g: Group, i: nat, block: nat, num: nat, k: nat)
    requires Sorted(g) && i < |g.chunks| && 0 < num && block + num <= |g.bits| && 0 < k < |g.chunks|
    requires g.chunks[i].block <= block && block + num <= End(g.chunks[i])
    requires Sorted(GiveBack(g, i, block, num))
    ensures HoleSize(GiveBack(g, i, block, num), k) == HoleSize(g, k) + Growth(g, i, block, num, k)
  {
    hide Sorted;
  }

  /* A whole reduction. */

  // Chunk i holds region r.
  predicate Holds(g: Group, i: nat, r: Region) {
    i < |g.chunks| && g.chunks[i].block <= r.block && r.block + r.len <= End(g.chunks[i])
  }

  ghost predicate Freeable(gs: seq<Group>, r: Region) {
    r.bg < |gs| && r.len > 0 && r.block + r.len <= |gs[r.bg].bits| && exists i :: Holds(gs[r.bg], i, r)
  }

  ghost function Home(g: Group, r: Region): (i: nat)
    requires exists i :: Holds(g, i, r)
    ensures Holds(g, i, r)
  {
    var i :| Holds(g, i, r);
    i
  }

  lemma OneHome(g: Group, r: Region, i: nat)
    requires Sorted(g) && r.len > 0 && Holds(g, i, r)
    ensures Home(g, r) == i
  {
  }

  // The groups once the last `num` blocks of a region are free, and how many of these a search can find.
  ghost function Free(gs: seq<Group>, r: Region, num: nat): seq<Group>
    requires Freeable(gs, r) && num <= r.len
  {
    gs[r.bg := GiveBack(gs[r.bg], Home(gs[r.bg], r), r.block + r.len - num, num)]
  }

  ghost function Found(gs: seq<Group>, r: Region, num: nat): nat
    requires Freeable(gs, r) && num <= r.len
  {
    if Returned(gs[r.bg], Home(gs[r.bg], r), r.block + r.len - num, num) then num else 0
  }

  // The groups once `len` blocks are taken off the end of an allocation.
  ghost function Reduced(gs: seq<Group>, rs: seq<Region>, len: nat): seq<Group>
    decreases |rs|
  {
    if |rs| == 0 || len == 0 || !Freeable(gs, rs[|rs| - 1]) then gs
    else
      var r := rs[|rs| - 1];
      if len < r.len then Free(gs, r, len) else Reduced(Free(gs, r, r.len), rs[..|rs| - 1], len - r.len)
  }

  ghost function Back(gs: seq<Group>, rs: seq<Region>, len: nat): nat
    decreases |rs|
  {
    if |rs| == 0 || len == 0 || !Freeable(gs, rs[|rs| - 1]) then 0
    else
      var r := rs[|rs| - 1];
      if len < r.len then Found(gs, r, len)
      else Found(gs, r, r.len) + Back(Free(gs, r, r.len), rs[..|rs| - 1], len - r.len)
  }

  lemma FreeHoles(gs: seq<Group>, r: Region, num: nat)
    requires SortedAll(gs) && Freeable(gs, r) && 0 < num <= r.len
    ensures SortedAll(Free(gs, r, num)) && Sum(Sizes(Free(gs, r, num))) == Sum(Sizes(gs)) + Found(gs, r, num)
  {
    hide Sizes, Sum, SortedAll, InHole, Returned;
    FoundAgainIff(gs, r.bg, Home(gs[r.bg], r), r.block + r.len - num, num);
  }

  // What the holes of all groups have together after a reduction.
  lemma {:induction false} ReducedHoles(gs: seq<Group>, rs: seq<Region>, len: nat)
    requires SortedAll(gs)
    ensures SortedAll(Reduced(gs, rs, len)) && Sum(Sizes(Reduced(gs, rs, len))) == Sum(Sizes(gs)) + Back(gs, rs, len)
    decreases |rs|
  {
    hide Sizes, Sum, SortedAll, Freeable, Free, Found;
    if |rs| > 0 && len > 0 && Freeable(gs, rs[|rs| - 1]) {
      var r := rs[|rs| - 1];
      NotEmpty(gs, r);
      if len < r.len {
        FreeHoles(gs, r, len);
      } else {
        FreeHoles(gs, r, r.len);
        ReducedHoles(Free(gs, r, r.len), rs[..|rs| - 1], len - r.len);
      }
    }
  }

  lemma NotEmpty(gs: seq<Group>, r: Region)
    requires Freeable(gs, r)
    ensures r.len > 0
  {
  }

  // One round of the loop: the last region goes, or as much of its end as is still to go.
  lemma ReducedNext(gs: seq<Group>, rs: seq<Region>, len: nat, num: nat, i: nat)
    requires |rs| > 0 && 0 < num == (if rs[|rs| - 1].len > len then len else rs[|rs| - 1].len)
    requires var r := rs[|rs| - 1];
             && r.bg < |gs| && r.block + r.len <= |gs[r.bg].bits| && Sorted(gs[r.bg]) && Holds(gs[r.bg], i, r)
    ensures var r := rs[|rs| - 1];
            var less := gs[r.bg := GiveBack(gs[r.bg], i, r.block + r.len - num, num)];
            Reduced(gs, rs, len) == Reduced(less, Cut(rs, num), len - num)
  {
    hide Sorted, GiveBack;
    var r := rs[|rs| - 1];
    assert Freeable(gs, r);
    OneHome(gs[r.bg], r, i);
    assert num == r.len ==> Cut(rs, num) == rs[..|rs| - 1];
  }

  /* Giving back all that was just allocated. */

  // Region r starts at the first chunk of its group, which is empty, and lies in the hole after it.
  predicate Strands(gs: seq<Group>, r: Region) {
    && r.bg < |gs| && |gs[r.bg].chunks| > 1 && End(gs[r.bg].chunks[0]) == gs[r.bg].chunks[0].block == r.block
    && r.block + r.len <= gs[r.bg].chunks[1].block
  }

  // How many blocks of the regions no search finds again.
  function Lost(gs: seq<Group>, rs: seq<Region>): nat {
    if |rs| == 0 then 0
    else Lost(gs, rs[..|rs| - 1]) + if Strands(gs, rs[|rs| - 1]) then rs[|rs| - 1].len else 0
  }

  lemma {:induction false} NoneLost(gs: seq<Group>, rs: seq<Region>)
    requires forall k :: 0 <= k < |rs| ==> rs[k].len > 0
    ensures Lost(gs, rs) == 0 <==> forall k :: 0 <= k < |rs| ==> !Strands(gs, rs[k])
  {
    if |rs| > 0 {
      var n := |rs| - 1;
      NoneLost(gs, rs[..n]);
      assert forall k :: 0 <= k < n ==> rs[..n][k] == rs[k];
    }
  }

  // Which regions lie on a first chunk, and that such a chunk still begins where it did.
  predicate Firsts(gs0: seq<Group>, gs: seq<Group>, rs: seq<Region>, js: seq<nat>) {
    && |js| == |rs| && |gs| == |gs0|
    && forall k :: 0 <= k < |rs| ==> First(gs0, gs, rs[k], js[k])
  }

  predicate First(gs0: seq<Group>, gs: seq<Group>, r: Region, j: nat) {
    && r.bg < |gs0| == |gs| && |gs0[r.bg].chunks| > 0 && |gs[r.bg].chunks| > 0
    && (j == 1 ==> gs[r.bg].chunks[0].block == gs0[r.bg].chunks[0].block)
    && (Strands(gs0, r) <==> j == 1 && r.block == gs0[r.bg].chunks[0].block)
  }

  lemma FirstStands(gs0: seq<Group>, gs: seq<Group>, r: Region, j: nat)
    requires SortedAll(gs0) && SameBlocks(gs0, gs) && From(gs0, r, j) && r.len > 0
    ensures First(gs0, gs, r, j)
  {
    var g := gs0[r.bg];
    assert Sorted(g);
    if j != 1 && Strands(gs0, r) {
      HolesApart(g, 1, j);
    }
  }

  // Freeing the region on top of the stack.
  lemma FreeTop(gs: seq<Group>, r: Region, j: nat)
    requires SortedAll(gs) && OnTop(Lists(gs), r, j) && r.block + r.len <= |gs[r.bg].bits|
    ensures Freeable(gs, r)
    ensures var c := gs[r.bg].chunks[j - 1];
            && Found(gs, r, r.len) == (if c.block == r.block && j == 1 then 0 else r.len)
            && Lists(Free(gs, r, r.len)) ==
               if c.block == r.block then Put(Lists(gs), r.bg, j - 1, Chunk(c.block + r.len, 0))
               else Without(Lists(gs), r, j)
  {
    hide Sorted;
    assert Sorted(gs[r.bg]);
    assert Holds(gs[r.bg], j - 1, r);
    OneHome(gs[r.bg], r, j - 1);
  }

  predicate Fit(gs: seq<Group>, rs: seq<Region>) {
    forall k :: 0 <= k < |rs| ==> rs[k].bg < |gs| && rs[k].block + rs[k].len <= |gs[rs[k].bg].bits|
  }

  // The next region is on top once the last one is free.
  lemma StillStacked(gs0: seq<Group>, gs: seq<Group>, rs: seq<Region>, js: seq<nat>)
    requires |rs| > 0 && SortedAll(gs) && Stacked(Lists(gs), rs, js) && Firsts(gs0, gs, rs, js) && Fit(gs, rs)
    ensures var n := |rs| - 1;
            && Freeable(gs, rs[n])
            && var gs' := Free(gs, rs[n], rs[n].len);
               Stacked(Lists(gs'), rs[..n], js[..n]) && Firsts(gs0, gs', rs[..n], js[..n]) && Fit(gs', rs[..n])
  {
    hide SortedAll, Strands, Found, Free, Freeable;
    var n := |rs| - 1;
    var r, j := rs[n], js[n];
    FreeTop(gs, r, j);
    var c, gs', cs := gs[r.bg].chunks[j - 1], Free(gs, r, r.len), Without(Lists(gs), r, j);
    FreeKeepsBits(gs, r, r.len);
    if c.block == r.block {
      StackedMoves(cs, rs[..n], js[..n], r.bg, j - 1, c.block + r.len);
      PutTwice(Lists(gs), r.bg, j - 1, cs[r.bg][j - 1], Chunk(c.block + r.len, 0));
    }
    forall k | 0 <= k < n ensures First(gs0, gs', rs[k], js[k]) {
      assert First(gs0, gs, rs[k], js[k]) && rs[..n][k] == rs[k] && js[..n][k] == js[k];
      assert gs'[rs[k].bg].chunks == Lists(gs')[rs[k].bg];
    }
  }

  lemma FreeKeepsBits(gs: seq<Group>, r: Region, num: nat)
    requires Freeable(gs, r) && num <= r.len
    ensures var gs' := Free(gs, r, num);
            |gs'| == |gs| && forall i :: 0 <= i < |gs| ==> |gs'[i].bits| == |gs[i].bits|
  {
  }

  // All blocks of the regions come back but those of a region that starts an empty first chunk.
  lemma {:induction false} BackFrom(gs0: seq<Group>, gs: seq<Group>, rs: seq<Region>, js: seq<nat>)
    requires SortedAll(gs) && Stacked(Lists(gs), rs, js) && Firsts(gs0, gs, rs, js) && Fit(gs, rs)
    ensures Back(gs, rs, Length(rs)) + Lost(gs0, rs) == Length(rs)
    decreases |rs|
  {
    hide *;
    if |rs| == 0 {
      NothingBack(gs0, gs, rs);
    } else {
      var n := |rs| - 1;
      var r := rs[n];
      BackLast(gs0, gs, rs, js);
      StillStacked(gs0, gs, rs, js);
      FreeHoles(gs, r, r.len);
      BackFrom(gs0, Free(gs, r, r.len), rs[..n], js[..n]);
    }
  }

  lemma NothingBack(gs0: seq<Group>, gs: seq<Group>, rs: seq<Region>)
    requires |rs| == 0
    ensures Back(gs, rs, Length(rs)) == 0 && Lost(gs0, rs) == 0 && Length(rs) == 0
  {
  }

  // The last region comes back or is lost; the others are as if it had not been.
  lemma BackLast(gs0: seq<Group>, gs: seq<Group>, rs: seq<Region>, js: seq<nat>)
    requires |rs| > 0 && SortedAll(gs) && Stacked(Lists(gs), rs, js) && Firsts(gs0, gs, rs, js) && Fit(gs, rs)
    ensures var n := |rs| - 1;
            && |js| == |rs| && Freeable(gs, rs[n]) && rs[n].len > 0 && Length(rs) == Length(rs[..n]) + rs[n].len
            && var rest := Free(gs, rs[n], rs[n].len);
               Back(gs, rs, Length(rs)) + Lost(gs0, rs) ==
               rs[n].len + Back(rest, rs[..n], Length(rs[..n])) + Lost(gs0, rs[..n])
  {
    hide SortedAll, Strands, Freeable, Free, Found, Firsts, Fit;
    OneFit(gs0, gs, rs, js);
    FreeTop(gs, rs[|rs| - 1], js[|rs| - 1]);
  }

  lemma OneFit(gs0: seq<Group>, gs: seq<Group>, rs: seq<Region>, js: seq<nat>)
    requires |rs| > 0 && Firsts(gs0, gs, rs, js) && Fit(gs, rs)
    ensures var n := |rs| - 1;
            && First(gs0, gs, rs[n], js[n]) && rs[n].bg < |gs| && rs[n].block + rs[n].len <= |gs[rs[n].bg].bits|
  {
  }

  // An allocation that is given back in full leaves no trace in the bitmaps, the counts or what is live. The
  // holes have as many blocks as before if and only if no region starts an empty first chunk.
  lemma AllocateThenFree(gs0: seq<Group>, live0: set<Region>, len: nat, gs1: seq<Group>, live1: set<Region>,
                         rs: seq<Region>, gs2: seq<Group>, live2: set<Region>)
    requires PoolOk(gs0, live0) && Filling(gs0, live0, len, gs1, live1, rs, 0)
    requires Reducing(gs1, live1, rs, gs2, live2, []) && gs2 == Reduced(gs1, rs, len)
    ensures |gs2| == |gs0| && (forall i :: 0 <= i < |gs0| ==> gs2[i].bits == gs0[i].bits)
    ensures live2 == live0 && TotalFree(gs2) == TotalFree(gs0)
    ensures SortedAll(gs0) && SortedAll(gs2) && Sum(Sizes(gs2)) + Lost(gs0, rs) == Sum(Sizes(gs0))
    ensures Sum(Sizes(gs2)) == Sum(Sizes(gs0)) <==> forall k :: 0 <= k < |rs| ==> !Strands(gs0, rs[k])
  {
    hide *;
    BitsGivenBack(gs0, live0, len, gs1, live1, rs, gs2, live2);
    var js := FilledStack(gs0, live0, len, gs1, live1, rs);
    BackFrom(gs0, gs1, rs, js);
    ReducedHoles(gs1, rs, len);
    NoneLost(gs0, rs);
  }

  // A group of three blocks, of which the first is its header and the last past its end, before the block
  // between them is allocated.
  lemma FreshGroup() returns (g: Group)
    ensures GroupOk(g) && g.chunks == [Chunk(1, 0), Chunk(2, 0)] && |g.bits| == 3 && g.free == 1
  {
    g := Group([true, false, true], [Chunk(1, 0), Chunk(2, 0)], 1, 1, 2);
    assert g.bits[..2] == [true, false] && [true, false][..1] == [true] && [true][..0] == [];
    assert Clear([true]) == 0 && Clear([true, false]) == 1 && Clear(g.bits) == 1;
  }

  lemma HasBlock(g: Group)
    requires GroupOk(g) && g.chunks == [Chunk(1, 0), Chunk(2, 0)]
    ensures SortedAll([g]) && InHole([g], Region(0, 1, 1))
  {
    hide Clear, AllAre;
    assert [g][0] == g && Contains([g][0], 1, 1, 1);
  }

  // Once the block is allocated and freed the bitmap and the count are as they were, and no hole has it.
  lemma FirstChunkLost() returns (empty: Group, used: Group, freed: Group)
    ensures GroupOk(empty) && |empty.chunks| == 2 && HoleSize(empty, 1) == 1 && used == Take(empty, 1, 1)
    ensures GroupOk(used) && |used.chunks| == 2 && used.chunks[0] == Chunk(1, 1) && |used.bits| == 3
    ensures freed == GiveBack(used, 0, 1, 1) && GroupOk(freed) && freed.bits == empty.bits && freed.free == empty.free
    ensures SortedAll([empty]) && InHole([empty], Region(0, 1, 1))
    ensures SortedAll([freed]) && !InHole([freed], Region(0, 1, 1))
  {
    hide Clear, Sizes, Sum, InHole;
    empty := FreshGroup();
    HasBlock(empty);
    HoleClear(empty, 1, 1);
    TakeOk(empty, 1, 1);
    used := Take(empty, 1, 1);
    GiveBackOk(used, 0, 1, 1);
    freed := GiveBack(used, 0, 1, 1);
    FoundAgainIff([used], 0, 0, 1, 1);
    assert [used][0 := freed] == [freed];
  }

  lemma BitsGivenBack(gs0: seq<Group>, live0: set<Region>, len: nat, gs1: seq<Group>, live1: set<Region>,
                      rs: seq<Region>, gs2: seq<Group>, live2: set<Region>)
    requires PoolOk(gs0, live0) && Filling(gs0, live0, len, gs1, live1, rs, 0) && Reducing(gs1, live1, rs, gs2, live2, [])
    ensures |gs2| == |gs0| && (forall i :: 0 <= i < |gs0| ==> gs2[i].bits == gs0[i].bits)
    ensures live2 == live0 && TotalFree(gs2) == TotalFree(gs0)
  {
    hide PoolOk, Regions, SortedAll, Saves, NoneLonger, HolesEndAll, Marked, Unmarked, Covers, Owned, Shortened, Piled;
    forall i: nat, b: nat | i < |gs0| && b < |gs0[i].bits| && Covers(rs, i, b) ensures !gs0[i].bits[b] {
      FilledWereClear(gs0, live0, rs, i, b);
    }
    BitsRestored(gs0, gs1, gs2, rs);
    FilledAreNew(gs0, live0, rs);
    assert SetOf([]) == {};
  }

  // What a filled request tells about the chunks below its regions.
  lemma FilledStack(gs0: seq<Group>, live0: set<Region>, len: nat, gs: seq<Group>, live: set<Region>, rs: seq<Region>)
    returns (js: seq<nat>)
    requires Filling(gs0, live0, len, gs, live, rs, 0)
    ensures SortedAll(gs0) && SortedAll(gs) && Stacked(Lists(gs), rs, js) && Firsts(gs0, gs, rs, js) && Fit(gs, rs)
    ensures len == Length(rs) && Sum(Sizes(gs)) + len == Sum(Sizes(gs0))
    ensures forall k :: 0 <= k < |rs| ==> rs[k].len > 0
  {
    hide GroupsOk, Apart, Marked, HolesEndAll, Saves, NoneLonger, Stacked, First, SortedAll, Sizes, Sum, SameBlocks, From,
         Contains;
    js :| Piles(gs0, gs, rs, js);
    forall k | 0 <= k < |rs|
      ensures First(gs0, gs, rs[k], js[k]) && rs[k].len > 0
      ensures rs[k].bg < |gs| && rs[k].block + rs[k].len <= |gs[rs[k].bg].bits|
    {
      assert InHole(gs0, rs[k]) && rs[k] in SetOf(rs) && RegionOk(gs, rs[k]);
      FirstStands(gs0, gs, rs[k], js[k]);
    }
    SameCount(gs0, gs);
  }

  lemma SameCount(gs0: seq<Group>, gs: seq<Group>)
    requires SameBlocks(gs0, gs)
    ensures |gs| == |gs0|
  {
  }
}
