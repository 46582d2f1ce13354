/**
 The block allocator of ext4_utils/allocate.c.
 */
module Allocators {
  import opened BlockPool
  import opened BlockGreedy
  import opened BlockChoice
  import opened BlockFill
  import opened BlockReduce
  import opened BlockReturn
  import opened BlockGroups
  import opened Options

  ghost function Views(groups: seq<BlockGroup>): (gs: seq<Group>)
    reads groups, set g | g in groups :: g.bitmap
    ensures |gs| == |groups| && forall i :: 0 <= i < |gs| ==> gs[i] == groups[i].View()
  {
    seq(|groups|, i requires 0 <= i < |groups| reads groups, set g | g in groups :: g.bitmap => groups[i].View())
  }

  // No two groups share memory.
  predicate Separate(groups: seq<BlockGroup>) {
    forall i, j :: 0 <= i < j < |groups| ==> groups[i] != groups[j] && groups[i].bitmap != groups[j].bitmap
  }

  // All blocks of a group between its headers and its end can be handed out.
  predicate IsNew(g: BlockGroup, bytes: nat, header: nat, limit: nat)
    requires bytes > 0
    reads g
  {
    && g.headerBlocks == header && g.limit == limit && g.bitmap.Length == bytes
    && g.freeBlocks == limit - header && g.chunks == NewChunks(bytes, header, limit)
  }

  class Allocator {
    const groups: seq<BlockGroup>
    ghost var live: set<Region>

    ghost predicate Valid()
      reads this, groups, set g | g in groups :: g.bitmap
    {
      Separate(groups) && PoolOk(Views(groups), live)
    }

    // Groups of 8 * bytes blocks each: where the headers of a group end, and where its blocks end.
    constructor (bytes: nat, shapes: seq<(nat, nat)>)
      requires bytes > 0
      requires forall i :: 0 <= i < |shapes| ==> shapes[i].0 <= shapes[i].1 <= 8 * bytes && shapes[i].0 < 8 * bytes
      ensures Valid() && live == {} && |groups| == |shapes|
      ensures forall i :: 0 <= i < |shapes| ==> IsNew(groups[i], bytes, shapes[i].0, shapes[i].1)
      ensures fresh(groups) && fresh(set g | g in groups :: g.bitmap)
    {
      hide GroupOk, NewChunks;
      var list: seq<BlockGroup> := [];
      for i := 0 to |shapes|
        invariant |list| == i && Separate(list) && fresh(list) && fresh(set g | g in list :: g.bitmap)
        invariant forall k :: 0 <= k < i ==> IsNew(list[k], bytes, shapes[k].0, shapes[k].1)
        invariant forall k :: 0 <= k < i ==> GroupOk(list[k].View())
      {
        var g := new BlockGroup(bytes, shapes[i].0, shapes[i].1);
        list := list + [g];
      }
      groups, live := list, {};
    }

    // Looks for the hole to take the next region from.
    method FindHole(len: nat) returns (bg: nat, hole: nat, size: nat)
      requires Valid() && len > 0
      ensures SortedAll(Views(groups))
      ensures Settles(Views(groups), len, bg, hole, size)
    {
      hide PoolOk, SortedAll, Sizes, Scan, Tracks, Settles, Views;
      ghost var gs := Views(groups);
      TracksStart(gs, live, len);
      ghost var n := 0;
      var found, minimize := 0, false;
      bg, hole := 0, 0;
      var i := 0;
      while i < |groups|
        invariant 0 <= i <= |groups| && AtGroup(gs, i, n)
        invariant Tracks(gs, len, n, bg, hole, found, minimize)
      {
        var j := 1;
        while j < |groups[i].chunks|
          invariant 1 <= j <= |groups[i].chunks| && n == |Flat(AllSizes(gs)[..i])| + j - 1
          invariant n <= |Sizes(gs)| && Tracks(gs, len, n, bg, hole, found, minimize)
        {
          Meets(gs, len, n, bg, hole, found, minimize, i, j);
          var holeStart := groups[i].chunks[j - 1].block + groups[i].chunks[j - 1].len;
          var holeSize := groups[i].chunks[j].block - holeStart;
          if holeSize == len {
            return i, j, len;
          } else if holeSize > len && (found == 0 || found > holeSize) {
            bg, hole, found, minimize := i, j, holeSize, true;
          } else if !minimize {
            if found < holeSize {
              bg, hole, found := i, j, holeSize;
            }
          }
          j, n := j + 1, n + 1;
        }
        GroupMet(gs, i, n);
        i := i + 1;
      }
      TracksEnd(gs, len, bg, hole, found, minimize);
      return bg, hole, if found > len then len else found;
    }

    // Marks the first blocks of a hole used; the error of an already reserved block cannot happen.
    method TakeHole(ghost gs: seq<Group>, bg: nat, hole: nat, size: nat) returns (start: nat)
      requires Separate(groups) && gs == Views(groups) && bg < |gs| && 0 < hole < |gs[bg].chunks|
      requires GroupOk(gs[bg]) && size <= HoleSize(gs[bg], hole)
      modifies groups, set g | g in groups :: g.bitmap
      ensures start == HoleStart(gs[bg], hole)
      ensures Views(groups) == gs[bg := Take(gs[bg], hole, size)]
    {
      hide Views, GroupOk, AllAre, BitsOf, Fill;
      ghost var g := gs[bg];
      HoleClear(g, hole, size);
      TakeOk(g, hole, size);
      var c := groups[bg].chunks[hole - 1];
      groups[bg].chunks := groups[bg].chunks[hole - 1 := Chunk(c.block, c.len + size)];
      start := c.block + c.len;
      var ok := groups[bg].ReserveBlocks(start, size);
      assert ok;
      assert groups[bg].View() == Take(g, hole, size);
      forall i | 0 <= i < |groups| && i != bg ensures groups[i].View() == gs[i] {
        assert groups[i] != groups[bg] && groups[i].bitmap != groups[bg].bitmap;
      }
    }

    // One region, from the hole the search settles on; none if there is no hole left.
    method BestFitPartial(len: nat) returns (r: Option<Region>, ghost hole: nat)
      requires Valid() && len > 0
      modifies this`live, groups, set g | g in groups :: g.bitmap
      ensures Valid() && SortedAll(old(Views(groups)))
      ensures r.None? ==> Views(groups) == old(Views(groups)) && live == old(live) && NoHole(old(Views(groups)))
      ensures r.Some? ==> Takes(old(Views(groups)), old(live), Views(groups), live, len, r.value, hole)
    {
      hide Views, PoolOk, SortedAll, Settles, GroupOk, Sorted, Takes, NoHole, Take, HoleSize, HoleStart;
      var bg, h, size := FindHole(len);
      ghost var gs, live0 := Views(groups), live;
      hole := h;
      SettlesGreedy(gs, live, len, bg, h, size);
      if size == 0 {
        return None, hole;
      }
      var start := TakeHole(gs, bg, h, size);
      r := Some(Region(bg, start, size));
      live := live + {r.value};
    }

    // Gathers regions until they hold the request.
    method AllocateBlocks(len: nat) returns (r: Option<seq<Region>>)
      requires Valid()
      modifies this`live, groups, set g | g in groups :: g.bitmap
      ensures Valid() && SortedAll(old(Views(groups)))
      ensures r.Some? <==> 0 < len <= Sum(Sizes(old(Views(groups))))
      ensures r.Some? ==> Filling(old(Views(groups)), old(live), len, Views(groups), live, r.value, 0)
      ensures r.Some? ==> Fewest(old(Views(groups)), r.value, len)
      ensures r.None? ==> if len == 0 then Views(groups) == old(Views(groups)) else NoHole(Views(groups))
    {
      hide Views, PoolOk, SortedAll, Takes, NoHole, Filling, Fewest, Sizes, Sum;
      ghost var gs0, live0 := Views(groups), live;
      FillingStarts(gs0, live0, len);
      PoolSorted(gs0, live0);
      var left: nat, rs: seq<Region> := len, [];
      while left > 0
        invariant 0 <= left <= len && Valid() && (len == 0 ==> Views(groups) == gs0)
        invariant Filling(gs0, live0, len, Views(groups), live, rs, left) && (left < len ==> rs != [])
      {
        ghost var gs, live1 := Views(groups), live;
        var q, hole := BestFitPartial(left);
        if q.None? {
          Stuck(gs0, live0, len, gs, live1, rs, left);
          return None;
        }
        FillingTakes(gs0, live0, len, gs, live1, rs, left, Views(groups), live, q.value, hole);
        rs, left := rs + [q.value], left - q.value.len;
      }
      if rs == [] {
        return None;
      }
      Finished(gs0, live0, len, Views(groups), live, rs);
      return Some(rs);
    }

    // Gives back the last blocks of a live region.
    method FreeTail(r: Region, num: nat) returns (ghost i: nat)
      requires Valid() && r in live && 0 < num <= r.len
      modifies this`live, groups, set g | g in groups :: g.bitmap
      ensures Valid() && live == old(live) - {r} + Rest(r, num)
      ensures Gives(old(Views(groups)), Views(groups), r, num, i)
    {
      hide Views, PoolOk, StopsAt, Shrink, Fill, BitsOf, Rest;
      ghost var gs := Views(groups);
      i := LiveChunk(gs, live, r, num);
      ghost var chunks := groups[r.bg].chunks;
      GiveBackKeepsPool(gs, live, r, i, num);
      groups[r.bg].FreeBlocks(r.block + r.len - 1, num);
      assert groups[r.bg].chunks == Shrink(chunks, i, r.block + r.len - num, num);
      assert groups[r.bg].View() == GiveBack(gs[r.bg], i, r.block + r.len - num, num);
      forall k | 0 <= k < |groups| && k != r.bg ensures groups[k].View() == gs[k] {
        assert groups[k] != groups[r.bg] && groups[k].bitmap != groups[r.bg].bitmap;
      }
      assert Views(groups) == gs[r.bg := GiveBack(gs[r.bg], i, r.block + r.len - num, num)];
      live := live - {r} + Rest(r, num);
    }

    // Takes `len` blocks off the end of an allocation.
    method ReduceAllocation(rs: seq<Region>, len: nat) returns (rest: seq<Region>)
      requires Valid() && len <= Length(rs) && forall k :: 0 <= k < |rs| ==> rs[k] in live
      requires forall j, k :: 0 <= j < k < |rs| ==> rs[j] != rs[k]
      modifies this`live, groups, set g | g in groups :: g.bitmap
      ensures Valid() && Length(rest) + len == Length(rs)
      ensures Reducing(old(Views(groups)), old(live), rs, Views(groups), live, rest)
      ensures Views(groups) == Reduced(old(Views(groups)), rs, len)
      ensures SortedAll(old(Views(groups))) && SortedAll(Views(groups))
      ensures Sum(Sizes(Views(groups))) == Sum(Sizes(old(Views(groups)))) + Back(old(Views(groups)), rs, len)
    {
      hide Views, PoolOk, Reducing, Gives, Cut, Rest, Length, Reduced, Back, SortedAll, Sizes, Sum;
      ghost var gs0, live0 := Views(groups), live;
      ReducingStarts(gs0, live0, rs);
      rest := rs;
      var left := len;
      while left > 0
        invariant 0 <= left <= len && Valid() && Length(rest) + len == Length(rs) + left
        invariant Reducing(gs0, live0, rs, Views(groups), live, rest)
        invariant Reduced(Views(groups), rest, left) == Reduced(gs0, rs, len)
      {
        var num;
        rest, num := ReduceLast(gs0, live0, rs, rest, left);
        left := left - num;
      }
      NothingReduced(Views(groups), rest);
      PoolSorted(gs0, live0);
      ReducedHoles(gs0, rs, len);
    }

    // One round of the loop above: frees the last region, or as much of its end as is still to go.
    method ReduceLast(ghost gs0: seq<Group>, ghost live0: set<Region>, ghost rs: seq<Region>, rest: seq<Region>, left: nat)
      returns (less: seq<Region>, num: nat)
      requires Valid() && 0 < left <= Length(rest) && Reducing(gs0, live0, rs, Views(groups), live, rest)
      modifies this`live, groups, set g | g in groups :: g.bitmap
      ensures Valid() && 0 < num <= left && Length(less) + num == Length(rest)
      ensures Reducing(gs0, live0, rs, Views(groups), live, less)
      ensures Reduced(Views(groups), less, left - num) == Reduced(old(Views(groups)), rest, left)
    {
      hide Views, PoolOk, Reducing, Gives, Cut, Rest, Length, Reduced;
      ghost var gs, live1 := Views(groups), live;
      LastRegion(gs0, live0, rs, gs, live, rest, left);
      var last := rest[|rest| - 1];
      num := if last.len > left then left else last.len;
      ghost var i := FreeTail(last, num);
      ReducingGives(gs0, live0, rs, gs, live1, rest, Views(groups), num, i);
      ReducedGives(gs, live1, rest, Views(groups), left, num, i);
      less := rest[..|rest| - 1] + if last.len > left then [last.(len := last.len - left)] else [];
    }
  }

  // The regions fill the request, and nothing that fills it has fewer.
  ghost predicate Fewest(gs: seq<Group>, rs: seq<Region>, len: nat)
    requires SortedAll(gs)
  {
    && IsFilling(gs, rs, len)
    && forall other :: IsFilling(gs, other, len) ==> |rs| <= |other|
  }

  lemma FillingTakes(gs0: seq<Group>, live0: set<Region>, len: nat, gs: seq<Group>, live: set<Region>, rs: seq<Region>,
                     left: nat, gs': seq<Group>, live': set<Region>, r: Region, hole: nat)
    requires SortedAll(gs) && Takes(gs, live, gs', live', left, r, hole)
    requires Filling(gs0, live0, len, gs, live, rs, left)
    ensures 0 < r.len <= left && Filling(gs0, live0, len, gs', live', rs + [r], left - r.len)
  {
    hide Filling, SortedAll, Sizes, Scan;
    FillingNext(gs0, live0, len, gs, live, rs, left, r.bg, hole, r.len);
  }

  lemma Stuck(gs0: seq<Group>, live0: set<Region>, len: nat, gs: seq<Group>, live: set<Region>, rs: seq<Region>, left: nat)
    requires Filling(gs0, live0, len, gs, live, rs, left) && left > 0 && SortedAll(gs) && NoHole(gs)
    ensures SortedAll(gs0) && len > Sum(Sizes(gs0))
  {
    FillingStuck(gs0, live0, len, gs, live, rs, left);
  }

  lemma Finished(gs0: seq<Group>, live0: set<Region>, len: nat, gs: seq<Group>, live: set<Region>, rs: seq<Region>)
    requires Filling(gs0, live0, len, gs, live, rs, 0) && rs != []
    ensures SortedAll(gs0) && 0 < len <= Sum(Sizes(gs0)) && Fewest(gs0, rs, len)
  {
    FillingEnds(gs0, live0, len, gs, live, rs, rs);
    forall other | IsFilling(gs0, other, len) ensures |rs| <= |other| {
      FillingEnds(gs0, live0, len, gs, live, rs, other);
    }
    assert InHole(gs0, rs[|rs| - 1]);
  }

  // The last `num` blocks of a region go free; chunk i holds it.
  ghost predicate Gives(gs: seq<Group>, gs': seq<Group>, r: Region, num: nat, i: nat) {
    && r.bg < |gs| && num <= r.len && i < |gs[r.bg].chunks| && gs[r.bg].chunks[i].block <= r.block
    && r.block + r.len <= End(gs[r.bg].chunks[i]) && r.block + r.len <= |gs[r.bg].bits|
    && gs' == gs[r.bg := GiveBack(gs[r.bg], i, r.block + r.len - num, num)]
  }

  lemma LiveChunk(gs: seq<Group>, live: set<Region>, r: Region, num: nat) returns (i: nat)
    requires PoolOk(gs, live) && r in live && 0 < num <= r.len
    ensures r.bg < |gs| && i < |gs[r.bg].chunks| && gs[r.bg].chunks[i].block <= r.block
    ensures r.block + r.len <= End(gs[r.bg].chunks[i]) && r.block + r.len <= |gs[r.bg].bits|
    ensures StopsAt(gs[r.bg].chunks, i, r.block + r.len - num, num)
  {
    assert RegionOk(gs, r) && GroupOk(gs[r.bg]);
    var g := gs[r.bg];
    i :| 0 <= i < |g.chunks| && g.chunks[i].block <= r.block && r.block + r.len <= End(g.chunks[i]);
    forall k | i < k < |g.chunks| ensures g.chunks[k].block > r.block + r.len - num {
      ChunkIsLast(g, i, r.block + r.len - num, num, k);
    }
  }

  lemma LastRegion(gs0: seq<Group>, live0: set<Region>, rs: seq<Region>, gs: seq<Group>, live: set<Region>,
                   rest: seq<Region>, left: nat)
    requires Reducing(gs0, live0, rs, gs, live, rest) && 0 < left <= Length(rest)
    ensures |rest| > 0 && rest[|rest| - 1] in live && rest[|rest| - 1].len > 0
  {
    assert Shorter(rs[|rest| - 1], rest[|rest| - 1]);
  }

  lemma ReducingGives(gs0: seq<Group>, live0: set<Region>, rs: seq<Region>, gs: seq<Group>, live: set<Region>,
                      rest: seq<Region>, gs': seq<Group>, num: nat, i: nat)
    requires Reducing(gs0, live0, rs, gs, live, rest) && |rest| > 0 && 0 < num <= rest[|rest| - 1].len
    requires Gives(gs, gs', rest[|rest| - 1], num, i)
    ensures Reducing(gs0, live0, rs, gs', live - {rest[|rest| - 1]} + Rest(rest[|rest| - 1], num), Cut(rest, num))
    ensures Length(Cut(rest, num)) + num == Length(rest)
    ensures Cut(rest, num) == rest[..|rest| - 1] + if num < rest[|rest| - 1].len
                                                   then [rest[|rest| - 1].(len := rest[|rest| - 1].len - num)] else []
  {
    ReducingNext(gs0, live0, rs, gs, live, rest, i, num);
    CutLength(rest, num);
  }

  lemma ReducedGives(gs: seq<Group>, live: set<Region>, rest: seq<Region>, gs': seq<Group>, left: nat, num: nat, i: nat)
    requires PoolOk(gs, live) && |rest| > 0 && 0 < num == (if rest[|rest| - 1].len > left then left else rest[|rest| - 1].len)
    requires Gives(gs, gs', rest[|rest| - 1], num, i)
    ensures Reduced(gs', Cut(rest, num), left - num) == Reduced(gs, rest, left)
  {
    hide Reduced, GiveBack, Sorted;
    var r := rest[|rest| - 1];
    assert GroupOk(gs[r.bg]);
    ReducedNext(gs, rest, left, num, i);
  }

  lemma NothingReduced(gs: seq<Group>, rs: seq<Region>)
    ensures Reduced(gs, rs, 0) == gs
  {
  }

  ghost predicate NoHole(gs: seq<Group>)
    requires SortedAll(gs)
  {
    forall k :: 0 <= k < |Sizes(gs)| ==> Sizes(gs)[k] == 0
  }

  // One greedy step: region r is taken from the start of a hole, and is live from then on.
  ghost predicate Takes(gs: seq<Group>, live: set<Region>, gs': seq<Group>, live': set<Region>, len: nat, r: Region, hole: nat)
    requires SortedAll(gs)
  {
    && r.bg < |gs| && 0 < hole < |gs[r.bg].chunks| && Sorted(gs[r.bg]) && 0 < r.len <= HoleSize(gs[r.bg], hole)
    && Place(gs, r.bg, hole) == Scan(Sizes(gs), len).at
    && GreedyStep(Sizes(gs), len, Place(gs, r.bg, hole), r.len)
    && r.block == HoleStart(gs[r.bg], hole) && r.block + r.len <= |gs[r.bg].bits|
    && gs' == gs[r.bg := Take(gs[r.bg], hole, r.len)] && live' == live + {r}
  }

  lemma SettlesGreedy(gs: seq<Group>, live: set<Region>, len: nat, bg: nat, hole: nat, size: nat)
    requires PoolOk(gs, live) && len > 0 && SortedAll(gs) && Settles(gs, len, bg, hole, size)
    ensures size == 0 ==> NoHole(gs)
    ensures size > 0 ==>
              && bg < |gs| && 0 < hole < |gs[bg].chunks| && GroupOk(gs[bg]) && size <= HoleSize(gs[bg], hole)
              && HoleStart(gs[bg], hole) + size <= |gs[bg].bits|
              && var gs', r := gs[bg := Take(gs[bg], hole, size)], Region(bg, HoleStart(gs[bg], hole), size);
                 PoolOk(gs', live + {r}) && Takes(gs, live, gs', live + {r}, len, r, hole)
  {
    ChoiceIsGreedy(Sizes(gs), len);
    if size > 0 {
      SizeAt(gs, bg, hole);
      assert GroupOk(gs[bg]);
      TakeKeepsPool(gs, live, bg, hole, size);
    }
  }

  // The hole, and how much of it to take, are the ones the search is to find.
  ghost predicate Settles(gs: seq<Group>, len: nat, bg: nat, hole: nat, size: nat)
    requires SortedAll(gs)
  {
    var c := Scan(Sizes(gs), len);
    && size == (if c.size > len then len else c.size)
    && (size > 0 ==> bg < |gs| && 0 < hole < |gs[bg].chunks| && Place(gs, bg, hole) == c.at)
  }

  lemma TracksStart(gs: seq<Group>, live: set<Region>, len: nat)
    requires PoolOk(gs, live)
    ensures SortedAll(gs) && Tracks(gs, len, 0, 0, 0, 0, false) && AtGroup(gs, 0, 0)
  {
    PoolSorted(gs, live);
    assert |gs| > 0 ==> Sorted(gs[0]);
    assert Sizes(gs)[..0] == [];
  }

  // The next hole the search meets.
  lemma Meets(gs: seq<Group>, len: nat, n: nat, bg: nat, hole: nat, found: nat, minimize: bool, i: nat, j: nat)
    requires SortedAll(gs) && n <= |Sizes(gs)| && Tracks(gs, len, n, bg, hole, found, minimize)
    requires i < |gs| && 0 < j < |gs[i].chunks| && n == Place(gs, i, j) && len > 0
    ensures Sorted(gs[i]) && n + 1 <= |Sizes(gs)|
    ensures var h := HoleSize(gs[i], j);
            if h == len then Settles(gs, len, i, j, len)
            else if h > len && (found == 0 || found > h) then Tracks(gs, len, n + 1, i, j, h, true)
            else if !minimize && found < h then Tracks(gs, len, n + 1, i, j, h, minimize)
            else Tracks(gs, len, n + 1, bg, hole, found, minimize)
  {
    SizeAt(gs, i, j);
    ScanNext(Sizes(gs), len, n);
    if HoleSize(gs[i], j) == len {
      ScanStays(Sizes(gs), len, n + 1);
    }
  }

  lemma TracksEnd(gs: seq<Group>, len: nat, bg: nat, hole: nat, found: nat, minimize: bool)
    requires SortedAll(gs) && Tracks(gs, len, |Sizes(gs)|, bg, hole, found, minimize)
    ensures Settles(gs, len, bg, hole, if found > len then len else found)
  {
    assert Sizes(gs)[..|Sizes(gs)|] == Sizes(gs);
  }

  lemma GroupMet(gs: seq<Group>, i: nat, n: nat)
    requires SortedAll(gs) && i < |gs| && n == |Flat(AllSizes(gs)[..i])| + |gs[i].chunks| - 1
    ensures AtGroup(gs, i + 1, n)
  {
    var ss := AllSizes(gs);
    assert ss[..i + 1][..i] == ss[..i];
    assert i + 1 == |gs| ==> ss[..i + 1] == ss;
    if i + 1 < |gs| {
      assert Sorted(gs[i + 1]);
      SizeAt(gs, i + 1, 1);
    }
  }

  ghost predicate AtGroup(gs: seq<Group>, i: nat, n: nat)
    requires SortedAll(gs)
  {
    && n <= |Sizes(gs)| && i <= |gs|
    && if i < |gs| then |gs[i].chunks| > 1 && n == Place(gs, i, 1) else n == |Sizes(gs)|
  }

  // The search has met the first n holes and remembers this one.
  ghost predicate Tracks(gs: seq<Group>, len: nat, n: nat, bg: nat, hole: nat, found: nat, minimize: bool)
    requires SortedAll(gs) && n <= |Sizes(gs)|
  {
    var c := Scan(Sizes(gs)[..n], len);
    && !c.exact && c.size == found && c.minimize == minimize
    && (found > 0 ==> bg < |gs| && 0 < hole < |gs[bg].chunks| && Place(gs, bg, hole) == c.at)
  }
}
