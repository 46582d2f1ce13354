/**
 Giving back the end of an allocation (reduce_allocation and free_blocks of ext4_utils/allocate.c).
 */
module BlockReduce {
  import opened BlockPool
  import opened BlockGreedy
  import opened BlockFill

  // The regions without their last `num` blocks, all of which are in the last region.
  function Cut(rest: seq<Region>, num: nat): seq<Region>
    requires |rest| > 0 && num <= rest[|rest| - 1].len
  {
    var n := |rest| - 1;
    rest[..n] + if num < rest[n].len then [rest[n].(len := rest[n].len - num)] else []
  }

  // `rest` is `rs` less some blocks at the end.
  predicate Shortened(rs: seq<Region>, rest: seq<Region>) {
    && |rest| <= |rs|
    && (forall k :: 0 <= k < |rest| ==> Shorter(rs[k], rest[k]))
    && (forall k :: 0 <= k < |rest| - 1 ==> rest[k] == rs[k])
  }

  predicate Shorter(r: Region, q: Region) {
    q.bg == r.bg && q.block == r.block && 0 < q.len <= r.len
  }

  // A block that was in use still is, unless it is one of those given back.
  predicate UnmarkedGroup(g0: Group, g: Group, rs: seq<Region>, rest: seq<Region>, bg: nat) {
    && |g.bits| == |g0.bits| && g.header == g0.header && g.limit == g0.limit
    && forall b :: 0 <= b < |g.bits| ==> g.bits[b] == (g0.bits[b] && (Covers(rs, bg, b) ==> Covers(rest, bg, b)))
  }

  predicate Unmarked(gs0: seq<Group>, gs: seq<Group>, rs: seq<Region>, rest: seq<Region>) {
    |gs| == |gs0| && forall i :: 0 <= i < |gs| ==> UnmarkedGroup(gs0[i], gs[i], rs, rest, i)
  }

  // Regions of one allocation: live, not empty, and apart from each other and from all else that is live.
  ghost predicate Owned(live: set<Region>, rs: seq<Region>) {
    && (forall k :: 0 <= k < |rs| ==> rs[k] in live && rs[k].len > 0)
    && (forall j, k :: 0 <= j < k < |rs| ==> Disjoint(rs[j], rs[k]))
    && (forall k, q :: 0 <= k < |rs| && q in live - SetOf(rs) ==> Disjoint(rs[k], q))
  }

  ghost predicate Reducing(gs0: seq<Group>, live0: set<Region>, rs: seq<Region>, gs: seq<Group>, live: set<Region>,
                           rest: seq<Region>)
  {
    && PoolOk(gs, live) && Owned(live0, rs) && Shortened(rs, rest)
    && live == live0 - SetOf(rs) + SetOf(rest)
    && Unmarked(gs0, gs, rs, rest)
    && TotalFree(gs) + Length(rest) == TotalFree(gs0) + Length(rs)
  }

  lemma ReducingStarts(gs: seq<Group>, live: set<Region>, rs: seq<Region>)
    requires PoolOk(gs, live) && (forall k :: 0 <= k < |rs| ==> rs[k] in live)
    requires forall j, k :: 0 <= j < k < |rs| ==> rs[j] != rs[k]
    ensures Reducing(gs, live, rs, gs, live, rs)
  {
    forall k | 0 <= k < |rs| ensures rs[k].len > 0 {
      assert RegionOk(gs, rs[k]);
    }
    assert live == live - SetOf(rs) + SetOf(rs);
  }

  lemma CutShortens(rs: seq<Region>, rest: seq<Region>, num: nat)
    requires Shortened(rs, rest) && |rest| > 0 && num <= rest[|rest| - 1].len
    ensures Shortened(rs, Cut(rest, num))
  {
    var n := |rest| - 1;
    assert Shorter(rs[n], rest[n]);
    forall k | 0 <= k < |Cut(rest, num)| ensures Shorter(rs[k], Cut(rest, num)[k]) {
      assert Shorter(rs[k], rest[k]);
    }
  }

  lemma {:induction false} CutLength(rest: seq<Region>, num: nat)
    requires |rest| > 0 && num <= rest[|rest| - 1].len
    ensures Length(Cut(rest, num)) + num == Length(rest)
  {
    var n := |rest| - 1;
    if num < rest[n].len {
      assert Cut(rest, num)[..n] == rest[..n];
    } else {
      assert Cut(rest, num) == rest[..n];
    }
  }

  lemma ShortApart(live: set<Region>, rs: seq<Region>, rest: seq<Region>, j: nat, k: nat)
    requires Owned(live, rs) && Shortened(rs, rest) && j < k < |rest|
    ensures Disjoint(rest[j], rest[k])
  {
    assert Disjoint(rs[j], rs[k]) && Shorter(rs[j], rest[j]) && Shorter(rs[k], rest[k]);
  }

  lemma CutCovers(live: set<Region>, rs: seq<Region>, rest: seq<Region>, num: nat, bg: nat, b: nat)
    requires Owned(live, rs) && Shortened(rs, rest) && |rest| > 0 && num <= rest[|rest| - 1].len
    ensures var r := rest[|rest| - 1];
            var gone := bg == r.bg && r.block + r.len - num <= b < r.block + r.len;
            && (Covers(Cut(rest, num), bg, b) <==> Covers(rest, bg, b) && !gone)
            && (gone ==> Covers(rs, bg, b))
  {
    var n := |rest| - 1;
    var cut := Cut(rest, num);
    assert Shorter(rs[n], rest[n]);
    if Covers(rest, bg, b) {
      var k :| 0 <= k < |rest| && rest[k].bg == bg && rest[k].block <= b < rest[k].block + rest[k].len;
      if k < n {
        assert cut[k] == rest[k];
        ShortApart(live, rs, rest, k, n);
      } else if b < rest[n].block + rest[n].len - num {
        assert cut[n].bg == bg && cut[n].block <= b < cut[n].block + cut[n].len;
      }
    }
    if Covers(cut, bg, b) {
      var k :| 0 <= k < |cut| && cut[k].bg == bg && cut[k].block <= b < cut[k].block + cut[k].len;
      assert rest[k].bg == bg && rest[k].block <= b < rest[k].block + rest[k].len;
      if k < n {
        ShortApart(live, rs, rest, k, n);
      }
    }
  }

  lemma UnmarkedNext(gs0: seq<Group>, live0: set<Region>, rs: seq<Region>, gs: seq<Group>, rest: seq<Region>, i: nat, num: nat)
    requires Owned(live0, rs) && Shortened(rs, rest) && |rest| > 0 && num <= rest[|rest| - 1].len
    requires Unmarked(gs0, gs, rs, rest)
    requires var r := rest[|rest| - 1]; r.bg < |gs| && i < |gs[r.bg].chunks| && num <= gs[r.bg].chunks[i].len
                                        && r.block + r.len <= |gs[r.bg].bits|
    ensures var r := rest[|rest| - 1];
            Unmarked(gs0, gs[r.bg := GiveBack(gs[r.bg], i, r.block + r.len - num, num)], rs, Cut(rest, num))
  {
    hide Owned, Shortened, Cut, Covers;
    var r := rest[|rest| - 1];
    var gs' := gs[r.bg := GiveBack(gs[r.bg], i, r.block + r.len - num, num)];
    forall a | 0 <= a < |gs| ensures UnmarkedGroup(gs0[a], gs'[a], rs, Cut(rest, num), a) {
      assert UnmarkedGroup(gs0[a], gs[a], rs, rest, a);
      forall b | 0 <= b < |gs'[a].bits|
        ensures gs'[a].bits[b] == (gs0[a].bits[b] && (Covers(rs, a, b) ==> Covers(Cut(rest, num), a, b)))
      {
        CutCovers(live0, rs, rest, num, a, b);
      }
    }
  }

  lemma LiveNext(live0: set<Region>, rs: seq<Region>, rest: seq<Region>, num: nat)
    requires Owned(live0, rs) && Shortened(rs, rest) && |rest| > 0 && num <= rest[|rest| - 1].len
    ensures var r, live := rest[|rest| - 1], live0 - SetOf(rs) + SetOf(rest);
            r in live && live - {r} + Rest(r, num) == live0 - SetOf(rs) + SetOf(Cut(rest, num))
  {
    var n := |rest| - 1;
    var r := rest[n];
    assert Shorter(rs[n], r);
    forall k | 0 <= k < n ensures rest[k] != r {
      ShortApart(live0, rs, rest, k, n);
      assert Shorter(rs[k], rest[k]);
    }
    forall q | q in live0 - SetOf(rs) ensures q != r {
      assert Disjoint(rs[n], q);
    }
    assert SetOf(rest) == SetOf(rest[..n]) + {r} by {
      assert rest == rest[..n] + [r];
    }
    assert SetOf(Cut(rest, num)) == SetOf(rest[..n]) + Rest(r, num) by {
      if num < r.len {
        assert Cut(rest, num)[n] == r.(len := r.len - num);
      }
    }
    assert r !in SetOf(rest[..n]);
  }

  // `num` blocks of the last region go free.
  lemma ReducingNext(gs0: seq<Group>, live0: set<Region>, rs: seq<Region>, gs: seq<Group>, live: set<Region>,
                     rest: seq<Region>, i: nat, num: nat)
    requires Reducing(gs0, live0, rs, gs, live, rest) && |rest| > 0 && 0 < num <= rest[|rest| - 1].len
    requires var r := rest[|rest| - 1];
             r.bg < |gs| && i < |gs[r.bg].chunks| && gs[r.bg].chunks[i].block <= r.block
             && r.block + r.len <= End(gs[r.bg].chunks[i]) && r.block + r.len <= |gs[r.bg].bits|
    ensures var r := rest[|rest| - 1];
            Reducing(gs0, live0, rs, gs[r.bg := GiveBack(gs[r.bg], i, r.block + r.len - num, num)],
                     live - {r} + Rest(r, num), Cut(rest, num))
  {
    hide PoolOk, Owned, Shortened, Cut, Unmarked, SetOf, Rest, Length, TotalFree;
    var r := rest[|rest| - 1];
    LiveNext(live0, rs, rest, num);
    GiveBackKeepsPool(gs, live, r, i, num);
    UnmarkedNext(gs0, live0, rs, gs, rest, i, num);
    CutShortens(rs, rest, num);
    CutLength(rest, num);
    TotalFreeUpdate(gs, r.bg, GiveBack(gs[r.bg], i, r.block + r.len - num, num));
  }

  // Allocating blocks and giving all of them back leaves the bitmaps as they were.
  lemma BitsRestored(gs0: seq<Group>, gs1: seq<Group>, gs2: seq<Group>, rs: seq<Region>)
    requires Marked(gs0, gs1, rs) && Unmarked(gs1, gs2, rs, [])
    requires forall i, b :: 0 <= i < |gs0| && 0 <= b < |gs0[i].bits| && Covers(rs, i, b) ==> !gs0[i].bits[b]
    ensures |gs2| == |gs0| && forall i :: 0 <= i < |gs0| ==> gs2[i].bits == gs0[i].bits
  {
    forall i | 0 <= i < |gs0| ensures gs2[i].bits == gs0[i].bits {
      assert MarkedGroup(gs0[i], gs1[i], rs, i) && UnmarkedGroup(gs1[i], gs2[i], rs, [], i);
    }
  }

  lemma FilledWereClear(gs: seq<Group>, live: set<Region>, rs: seq<Region>, i: nat, b: nat)
    requires PoolOk(gs, live) && SortedAll(gs) && Regions(gs, live, rs) && i < |gs| && b < |gs[i].bits| && Covers(rs, i, b)
    ensures !gs[i].bits[b]
  {
    var k :| 0 <= k < |rs| && rs[k].bg == i && rs[k].block <= b < rs[k].block + rs[k].len;
    assert InHole(gs, rs[k]) && GroupOk(gs[i]);
    var j :| 0 < j < |gs[i].chunks| && Contains(gs[i], j, rs[k].block, rs[k].len);
    assert AllAre(gs[i].bits, HoleStart(gs[i], j), HoleSize(gs[i], j), false);
  }

  lemma FilledAreNew(gs: seq<Group>, live: set<Region>, rs: seq<Region>)
    requires SortedAll(gs) && Regions(gs, live, rs)
    ensures live + SetOf(rs) - SetOf(rs) == live
  {
    forall q | q in live ensures q !in SetOf(rs) {
      forall k | 0 <= k < |rs| ensures rs[k] != q {
        assert InHole(gs, rs[k]) && Disjoint(rs[k], q);
      }
    }
  }
}
