/**
 What holds while the allocator of ext4_utils/allocate.c gathers the regions of one request, step by step,
 relative to the groups it started from.
 */
module BlockFill {
  import opened BlockPool
  import opened BlockGreedy
  import opened BlockStack

  function TotalFree(groups: seq<Group>): int {
    if |groups| == 0 then 0 else TotalFree(groups[..|groups| - 1]) + groups[|groups| - 1].free
  }

  lemma {:induction false} TotalFreeUpdate(groups: seq<Group>, i: nat, g: Group)
    requires i < |groups|
    ensures TotalFree(groups[i := g]) + groups[i].free == TotalFree(groups) + g.free
  {
    var n := |groups| - 1;
    if i == n {
      assert groups[i := g][..n] == groups[..n];
    } else {
      TotalFreeUpdate(groups[..n], i, g);
      assert groups[i := g][..n] == groups[..n][i := g];
    }
  }

  predicate Covers(rs: seq<Region>, bg: nat, b: nat) {
    exists k :: 0 <= k < |rs| && rs[k].bg == bg && rs[k].block <= b < rs[k].block + rs[k].len
  }

  // A block of a group is marked used if it was before or one of the regions covers it.
  predicate MarkedGroup(g0: Group, g: Group, rs: seq<Region>, bg: nat) {
    && |g.bits| == |g0.bits| && g.header == g0.header && g.limit == g0.limit
    && forall b :: 0 <= b < |g.bits| ==> g.bits[b] == (g0.bits[b] || Covers(rs, bg, b))
  }

  predicate Marked(gs0: seq<Group>, gs: seq<Group>, rs: seq<Region>) {
    |gs| == |gs0| && forall i :: 0 <= i < |gs| ==> MarkedGroup(gs0[i], gs[i], rs, i)
  }

  // Each hole is the end of a hole that was there.
  predicate HolesEnd(g0: Group, g: Group) {
    && Sorted(g0) && Sorted(g) && |g.chunks| == |g0.chunks|
    && forall j :: 0 < j < |g.chunks| ==>
                     && HoleStart(g0, j) <= HoleStart(g, j)
                     && HoleStart(g, j) + HoleSize(g, j) == HoleStart(g0, j) + HoleSize(g0, j)
  }

  predicate HolesEndAll(gs0: seq<Group>, gs: seq<Group>) {
    |gs| == |gs0| && forall i :: 0 <= i < |gs| ==> HolesEnd(gs0[i], gs[i])
  }

  ghost predicate Accounts(gs0: seq<Group>, gs: seq<Group>, rs: seq<Region>, len: nat, left: nat)
    requires SortedAll(gs0) && SortedAll(gs)
  {
    && left + Length(rs) == len && TotalFree(gs) + Length(rs) == TotalFree(gs0)
    && Sum(Sizes(gs)) + Length(rs) == Sum(Sizes(gs0))
  }

  // The regions lie in holes that were there, apart from each other and from what was live, longest first.
  ghost predicate Regions(gs0: seq<Group>, live0: set<Region>, rs: seq<Region>)
    requires SortedAll(gs0)
  {
    && (forall k :: 0 <= k < |rs| ==> InHole(gs0, rs[k]))
    && (forall j, k :: 0 <= j < k < |rs| ==> Disjoint(rs[j], rs[k]) && rs[j].len >= rs[k].len)
    && (forall k, q :: 0 <= k < |rs| && q in live0 ==> Disjoint(rs[k], q))
  }

  predicate NoneLonger(hs: seq<nat>, rs: seq<Region>) {
    forall k, a :: 0 <= k < |rs| && 0 <= a < |hs| ==> hs[a] <= rs[k].len
  }

  // Any choice of holes that can hold the request has at least `count` more than some choice that can hold
  // what is left.
  ghost predicate Saves(hs0: seq<nat>, len: nat, hs: seq<nat>, left: nat, count: nat) {
    forall s :: Indices(hs0, s) && Picked(hs0, s) >= len ==> Smaller(hs, left, count, s)
  }

  ghost predicate Smaller(hs: seq<nat>, left: nat, count: nat, s: set<nat>) {
    exists s' :: Indices(hs, s') && Picked(hs, s') >= left && |s'| + count <= |s|
  }

  function SetOf(rs: seq<Region>): set<Region> {
    set r | r in rs
  }

  ghost predicate Filling(gs0: seq<Group>, live0: set<Region>, len: nat, gs: seq<Group>, live: set<Region>,
                          rs: seq<Region>, left: nat)
  {
    && SortedAll(gs0) && SortedAll(gs) && PoolOk(gs, live) && live == live0 + SetOf(rs)
    && Accounts(gs0, gs, rs, len, left)
    && HolesEndAll(gs0, gs) && Marked(gs0, gs, rs) && Regions(gs0, live0, rs) && Piled(gs0, gs, rs)
    && (left > 0 ==> NoneLonger(Sizes(gs), rs))
    && Saves(Sizes(gs0), len, Sizes(gs), left, |rs|)
  }

  lemma PoolSorted(groups: seq<Group>, live: set<Region>)
    requires PoolOk(groups, live)
    ensures SortedAll(groups)
  {
    forall i | 0 <= i < |groups| ensures Sorted(groups[i]) {
      assert GroupOk(groups[i]);
    }
  }

  lemma FillingStarts(gs: seq<Group>, live: set<Region>, len: nat)
    requires PoolOk(gs, live)
    ensures Filling(gs, live, len, gs, live, [], len)
  {
    PoolSorted(gs, live);
    assert SetOf([]) == {};
    assert Saves(Sizes(gs), len, Sizes(gs), len, 0) by {
      forall s | Indices(Sizes(gs), s) && Picked(Sizes(gs), s) >= len ensures Smaller(Sizes(gs), len, 0, s) {
      }
    }
    assert Marked(gs, gs, []);
    PiledStarts(gs);
  }

  lemma MarkedNext(gs0: seq<Group>, gs: seq<Group>, rs: seq<Region>, i: nat, j: nat, take: nat)
    requires SortedAll(gs) && Marked(gs0, gs, rs) && i < |gs| && 0 < j < |gs[i].chunks| && take <= HoleSize(gs[i], j)
    requires HoleStart(gs[i], j) + take <= |gs[i].bits|
    ensures Marked(gs0, gs[i := Take(gs[i], j, take)], rs + [Region(i, HoleStart(gs[i], j), take)])
  {
    var r := Region(i, HoleStart(gs[i], j), take);
    var gs' := gs[i := Take(gs[i], j, take)];
    forall a | 0 <= a < |gs| ensures MarkedGroup(gs0[a], gs'[a], rs + [r], a) {
      assert MarkedGroup(gs0[a], gs[a], rs, a);
      forall b | 0 <= b < |gs'[a].bits| ensures gs'[a].bits[b] == (gs0[a].bits[b] || Covers(rs + [r], a, b)) {
        CoversMore(rs, r, a, b);
      }
    }
  }

  lemma CoversMore(rs: seq<Region>, r: Region, bg: nat, b: nat)
    ensures Covers(rs + [r], bg, b) <==> Covers(rs, bg, b) || (r.bg == bg && r.block <= b < r.block + r.len)
  {
    var all := rs + [r];
    if Covers(rs, bg, b) {
      var k :| 0 <= k < |rs| && rs[k].bg == bg && rs[k].block <= b < rs[k].block + rs[k].len;
      assert all[k].bg == bg && all[k].block <= b < all[k].block + all[k].len;
    }
    if r.bg == bg && r.block <= b < r.block + r.len {
      assert all[|rs|].bg == bg && all[|rs|].block <= b < all[|rs|].block + all[|rs|].len;
    }
  }

  lemma HolesEndNext(gs0: seq<Group>, gs: seq<Group>, i: nat, j: nat, take: nat)
    requires HolesEndAll(gs0, gs) && SortedAll(gs) && i < |gs| && 0 < j < |gs[i].chunks| && take <= HoleSize(gs[i], j)
    requires HoleStart(gs[i], j) + take <= |gs[i].bits|
    ensures HolesEndAll(gs0, gs[i := Take(gs[i], j, take)])
  {
    TakeSorted(gs[i], j, take);
    assert HolesEnd(gs0[i], gs[i]);
    assert HolesEnd(gs0[i], Take(gs[i], j, take));
  }

  lemma TakenInHole(gs0: seq<Group>, gs: seq<Group>, i: nat, j: nat, take: nat)
    requires SortedAll(gs0) && SortedAll(gs) && HolesEndAll(gs0, gs)
    requires i < |gs| && 0 < j < |gs[i].chunks| && 0 < take <= HoleSize(gs[i], j)
    ensures InHole(gs0, Region(i, HoleStart(gs[i], j), take)) && From(gs0, Region(i, HoleStart(gs[i], j), take), j)
  {
    assert HolesEnd(gs0[i], gs[i]);
    assert Contains(gs0[i], j, HoleStart(gs[i], j), take);
  }

  lemma SavesNext(hs0: seq<nat>, len: nat, hs: seq<nat>, left: nat, count: nat, i: nat, take: nat)
    requires Saves(hs0, len, hs, left, count) && GreedyStep(hs, left, i, take)
    ensures Saves(hs0, len, hs[i := hs[i] - take], left - take, count + 1)
  {
    forall s | Indices(hs0, s) && Picked(hs0, s) >= len
      ensures Smaller(hs[i := hs[i] - take], left - take, count + 1, s)
    {
      assert Smaller(hs, left, count, s);
      var s1 :| Indices(hs, s1) && Picked(hs, s1) >= left && |s1| + count <= |s|;
      var s2 := StepSavesOne(hs, left, i, take, s1);
      assert Indices(hs[i := hs[i] - take], s2);
    }
  }

  lemma RegionsNext(gs0: seq<Group>, live0: set<Region>, live: set<Region>, rs: seq<Region>, r: Region)
    requires SortedAll(gs0) && Regions(gs0, live0, rs) && live == live0 + SetOf(rs) && InHole(gs0, r)
    requires forall q :: q in live ==> Disjoint(r, q)
    requires forall k :: 0 <= k < |rs| ==> rs[k].len >= r.len
    ensures Regions(gs0, live0, rs + [r]) && live + {r} == live0 + SetOf(rs + [r])
  {
    var all := rs + [r];
    hide InHole, SortedAll;
    forall j, k | 0 <= j < k < |all| ensures Disjoint(all[j], all[k]) && all[j].len >= all[k].len {
      if k == |rs| {
        assert rs[j] in live;
        assert Disjoint(r, rs[j]);
      } else {
        assert Disjoint(rs[j], rs[k]);
      }
    }
    forall k, q | 0 <= k < |all| && q in live0 ensures Disjoint(all[k], q) {
      assert k < |rs| ==> Disjoint(rs[k], q);
    }
    assert SetOf(all) == SetOf(rs) + {r};
  }

  lemma AccountsNext(gs0: seq<Group>, gs: seq<Group>, rs: seq<Region>, len: nat, left: nat, i: nat, j: nat, take: nat)
    requires SortedAll(gs0) && SortedAll(gs) && Accounts(gs0, gs, rs, len, left)
    requires i < |gs| && 0 < j < |gs[i].chunks| && take <= HoleSize(gs[i], j) && take <= left
    ensures HoleStart(gs[i], j) + take <= |gs[i].bits|
    ensures SortedAll(gs[i := Take(gs[i], j, take)])
    ensures Accounts(gs0, gs[i := Take(gs[i], j, take)], rs + [Region(i, HoleStart(gs[i], j), take)], len, left - take)
  {
    SizesAfterTake(gs, i, j, take);
    SizeAt(gs, i, j);
    SumUpdate(Sizes(gs), Place(gs, i, j), HoleSize(gs[i], j) - take);
    TotalFreeUpdate(gs, i, Take(gs[i], j, take));
    var r := Region(i, HoleStart(gs[i], j), take);
    assert (rs + [r])[..|rs|] == rs;
  }

  lemma NoneLongerNext(hs: seq<nat>, rs: seq<Region>, left: nat, i: nat, take: nat, r: Region)
    requires NoneLonger(hs, rs) && GreedyStep(hs, left, i, take) && r.len == take && take < left
    ensures NoneLonger(hs[i := hs[i] - take], rs + [r])
  {
  }

  // One region more.
  lemma FillingNext(gs0: seq<Group>, live0: set<Region>, len: nat, gs: seq<Group>, live: set<Region>,
                    rs: seq<Region>, left: nat, i: nat, j: nat, take: nat)
    requires Filling(gs0, live0, len, gs, live, rs, left) && i < |gs| && 0 < j < |gs[i].chunks|
    requires GreedyStep(Sizes(gs), left, Place(gs, i, j), take) && take <= HoleSize(gs[i], j)
    ensures HoleStart(gs[i], j) + take <= |gs[i].bits|
    ensures var r := Region(i, HoleStart(gs[i], j), take);
            Filling(gs0, live0, len, gs[i := Take(gs[i], j, take)], live + {r}, rs + [r], left - take)
  {
    hide PoolOk, GroupOk, Sorted, SortedAll, Sizes, Marked, HolesEndAll, Regions, Saves, Accounts, InHole, NoneLonger, SetOf,
         Piled, From;
    var r := Region(i, HoleStart(gs[i], j), take);
    TakeFromPool(gs, live, i, j, take);
    AccountsNext(gs0, gs, rs, len, left, i, j, take);
    HolesEndNext(gs0, gs, i, j, take);
    MarkedNext(gs0, gs, rs, i, j, take);
    TakenInHole(gs0, gs, i, j, take);
    PiledNext(gs0, gs, rs, i, j, take);
    LastIsShortest(Sizes(gs), rs, left, Place(gs, i, j), take);
    RegionsNext(gs0, live0, live, rs, r);
    SavesNext(Sizes(gs0), len, Sizes(gs), left, |rs|, Place(gs, i, j), take);
    if take < left {
      NoneLongerNext(Sizes(gs), rs, left, Place(gs, i, j), take, r);
    }
  }

  lemma TakeFromPool(gs: seq<Group>, live: set<Region>, i: nat, j: nat, take: nat)
    requires SortedAll(gs) && PoolOk(gs, live) && i < |gs| && 0 < j < |gs[i].chunks| && 0 < take <= HoleSize(gs[i], j)
    ensures HoleStart(gs[i], j) + take <= |gs[i].bits|
    ensures var gs', r := gs[i := Take(gs[i], j, take)], Region(i, HoleStart(gs[i], j), take);
            && PoolOk(gs', live + {r}) && (forall q :: q in live ==> Disjoint(r, q)) && SortedAll(gs')
            && Place(gs, i, j) < |Sizes(gs)| && Sizes(gs)[Place(gs, i, j)] == HoleSize(gs[i], j)
            && Sizes(gs') == Sizes(gs)[Place(gs, i, j) := HoleSize(gs[i], j) - take]
  {
    assert GroupOk(gs[i]);
    TakeKeepsPool(gs, live, i, j, take);
    SizesAfterTake(gs, i, j, take);
    SizeAt(gs, i, j);
  }

  lemma LastIsShortest(hs: seq<nat>, rs: seq<Region>, left: nat, i: nat, take: nat)
    requires NoneLonger(hs, rs) && GreedyStep(hs, left, i, take)
    ensures forall k :: 0 <= k < |rs| ==> rs[k].len >= take
  {
  }

  // At the end, no way to fill the request has fewer regions.
  lemma FillingEnds(gs0: seq<Group>, live0: set<Region>, len: nat, gs: seq<Group>, live: set<Region>,
                    rs: seq<Region>, other: seq<Region>)
    requires Filling(gs0, live0, len, gs, live, rs, 0)
    ensures IsFilling(gs0, rs, len) && len <= Sum(Sizes(gs0))
    ensures IsFilling(gs0, other, len) ==> |rs| <= |other|
  {
    if IsFilling(gs0, other, len) {
      var s := FillingNeeds(gs0, other, len);
      assert Smaller(Sizes(gs), 0, |rs|, s);
    }
  }

  // With no hole left the request was for more than all holes together.
  lemma FillingStuck(gs0: seq<Group>, live0: set<Region>, len: nat, gs: seq<Group>, live: set<Region>,
                     rs: seq<Region>, left: nat)
    requires Filling(gs0, live0, len, gs, live, rs, left) && left > 0
    requires forall k :: 0 <= k < |Sizes(gs)| ==> Sizes(gs)[k] == 0
    ensures len > Sum(Sizes(gs0))
  {
    SumZero(Sizes(gs));
  }
}
