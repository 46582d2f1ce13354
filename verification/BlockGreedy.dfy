/**
 Why the greedy allocation of ext4_utils/allocate.c uses as few regions as possible: the holes of all
 groups as one list of sizes, what a choice of holes can hold, and what any way to fill a request needs.
 */
module BlockGreedy {
  import opened BlockPool
  import Arith

  function Sum(hs: seq<nat>): nat {
    if |hs| == 0 then 0 else Sum(hs[..|hs| - 1]) + hs[|hs| - 1]
  }

  // The total size of the chosen holes.
  function Picked(hs: seq<nat>, s: set<nat>): nat {
    if |hs| == 0 then 0 else Picked(hs[..|hs| - 1], s) + if |hs| - 1 in s then hs[|hs| - 1] else 0
  }

  lemma {:induction false} SumUpdate(hs: seq<nat>, i: nat, v: nat)
    requires i < |hs|
    ensures Sum(hs[i := v]) + hs[i] == Sum(hs) + v
  {
    var n := |hs| - 1;
    if i == n {
      assert hs[i := v][..n] == hs[..n];
    } else {
      SumUpdate(hs[..n], i, v);
      assert hs[i := v][..n] == hs[..n][i := v];
    }
  }

  lemma {:induction false} SumZero(hs: seq<nat>)
    requires forall i :: 0 <= i < |hs| ==> hs[i] == 0
    ensures Sum(hs) == 0
  {
    if |hs| > 0 {
      SumZero(hs[..|hs| - 1]);
    }
  }

  lemma {:induction false} PickedUpdate(hs: seq<nat>, s: set<nat>, i: nat, v: nat)
    requires i < |hs|
    ensures Picked(hs[i := v], s) + (if i in s then hs[i] else 0) == Picked(hs, s) + if i in s then v else 0
  {
    var n := |hs| - 1;
    if i == n {
      assert hs[i := v][..n] == hs[..n];
    } else {
      PickedUpdate(hs[..n], s, i, v);
      assert hs[i := v][..n] == hs[..n][i := v];
    }
  }

  lemma {:induction false} PickedWithout(hs: seq<nat>, s: set<nat>, k: nat)
    ensures Picked(hs, s - {k}) + (if k in s && k < |hs| then hs[k] else 0) == Picked(hs, s)
  {
    if |hs| > 0 {
      PickedWithout(hs[..|hs| - 1], s, k);
    }
  }

  lemma {:induction false} PickedEmpty(hs: seq<nat>)
    ensures Picked(hs, {}) == 0
  {
    if |hs| > 0 {
      PickedEmpty(hs[..|hs| - 1]);
    }
  }

  predicate Indices(hs: seq<nat>, s: set<nat>) {
    forall k :: k in s ==> k < |hs|
  }

  // One step of the greedy choice: the whole request, or all of a largest hole.
  predicate GreedyStep(hs: seq<nat>, left: nat, i: nat, take: nat) {
    && i < |hs| && 0 < take <= left && take <= hs[i]
    && (take < left ==> take == hs[i] && forall k :: 0 <= k < |hs| ==> hs[k] <= take)
  }

  // Any choice of holes that can hold the request turns into one with a hole less that can hold the rest.
  lemma StepSavesOne(hs: seq<nat>, left: nat, i: nat, take: nat, s: set<nat>) returns (s': set<nat>)
    requires GreedyStep(hs, left, i, take) && Indices(hs, s) && Picked(hs, s) >= left
    ensures Indices(hs, s') && Picked(hs[i := hs[i] - take], s') >= left - take && |s'| + 1 <= |s|
  {
    if take == left {
      s' := {};
      PickedEmpty(hs);
      PickedEmpty(hs[i := hs[i] - take]);
      assert s != {};
      assert |s| != 0;
    } else {
      if s == {} {
        PickedEmpty(hs);
      }
      var k := if i in s then i else var k :| k in s; k;
      s' := s - {k};
      PickedWithout(hs, s, k);
      PickedUpdate(hs, s', i, 0);
    }
  }

  /* The holes of all groups. */

  predicate SortedAll(groups: seq<Group>) {
    forall i :: 0 <= i < |groups| ==> Sorted(groups[i])
  }

  function GroupSizes(g: Group): (r: seq<nat>)
    requires Sorted(g)
    ensures |r| == |g.chunks| - 1
  {
    seq(|g.chunks| - 1, j requires 0 <= j < |g.chunks| - 1 => HoleSize(g, j + 1))
  }

  function AllSizes(groups: seq<Group>): (r: seq<seq<nat>>)
    requires SortedAll(groups)
    ensures |r| == |groups| && forall i :: 0 <= i < |r| ==> r[i] == GroupSizes(groups[i])
  {
    seq(|groups|, i requires 0 <= i < |groups| => GroupSizes(groups[i]))
  }

  function Flat(ss: seq<seq<nat>>): seq<nat> {
    if |ss| == 0 then [] else Flat(ss[..|ss| - 1]) + ss[|ss| - 1]
  }

  function Sizes(groups: seq<Group>): seq<nat>
    requires SortedAll(groups)
  {
    Flat(AllSizes(groups))
  }

  // The place of hole j of group i in the list.
  function Place(groups: seq<Group>, i: nat, j: nat): nat
    requires SortedAll(groups) && i < |groups| && 0 < j < |groups[i].chunks|
  {
    |Flat(AllSizes(groups)[..i])| + j - 1
  }

  lemma {:induction false} FlatAt(ss: seq<seq<nat>>, i: nat, j: nat)
    requires i < |ss| && j < |ss[i]|
    ensures |Flat(ss[..i])| + j < |Flat(ss)| && Flat(ss)[|Flat(ss[..i])| + j] == ss[i][j]
  {
    var n := |ss| - 1;
    if i < n {
      FlatAt(ss[..n], i, j);
      assert ss[..n][..i] == ss[..i];
    }
  }

  lemma {:induction false} FlatFind(ss: seq<seq<nat>>, k: nat) returns (i: nat, j: nat)
    requires k < |Flat(ss)|
    ensures i < |ss| && j < |ss[i]| && k == |Flat(ss[..i])| + j
  {
    var n := |ss| - 1;
    var front := Flat(ss[..n]);
    if k < |front| {
      i, j := FlatFind(ss[..n], k);
      assert ss[..n][..i] == ss[..i];
    } else {
      i, j := n, k - |front|;
    }
  }

  lemma {:induction false} FlatUpdate(ss: seq<seq<nat>>, i: nat, j: nat, v: nat, row: seq<nat>)
    requires i < |ss| && j < |ss[i]| && row == ss[i][j := v]
    ensures |Flat(ss[..i])| + j < |Flat(ss)|
    ensures Flat(ss[i := row]) == Flat(ss)[|Flat(ss[..i])| + j := v]
  {
    var n := |ss| - 1;
    FlatAt(ss, i, j);
    UpdateConcat(Flat(ss[..n]), ss[n], |Flat(ss[..i])| + j, v);
    if i < n {
      FlatUpdate(ss[..n], i, j, v, row);
      assert ss[i := row][..n] == ss[..n][i := row];
      assert ss[..n][..i] == ss[..i];
    } else {
      assert ss[i := row][..n] == ss[..n];
    }
  }

  lemma UpdateConcat(a: seq<nat>, b: seq<nat>, k: nat, v: nat)
    requires k < |a| + |b|
    ensures (a + b)[k := v] == if k < |a| then a[k := v] + b else a + b[k - |a| := v]
  {
  }

  lemma SizeAt(groups: seq<Group>, i: nat, j: nat)
    requires SortedAll(groups) && i < |groups| && 0 < j < |groups[i].chunks|
    ensures Place(groups, i, j) < |Sizes(groups)| && Sizes(groups)[Place(groups, i, j)] == HoleSize(groups[i], j)
  {
    FlatAt(AllSizes(groups), i, j - 1);
  }

  lemma HoleAt(groups: seq<Group>, k: nat) returns (i: nat, j: nat)
    requires SortedAll(groups) && k < |Sizes(groups)|
    ensures i < |groups| && 0 < j < |groups[i].chunks| && k == Place(groups, i, j)
  {
    i, j := FlatFind(AllSizes(groups), k);
    j := j + 1;
  }

  lemma SizesUpdate(groups: seq<Group>, i: nat, g: Group, j: nat, v: nat)
    requires SortedAll(groups) && i < |groups| && 0 < j < |groups[i].chunks|
    requires Sorted(g) && GroupSizes(g) == GroupSizes(groups[i])[j - 1 := v]
    ensures SortedAll(groups[i := g])
    ensures Place(groups, i, j) < |Sizes(groups)| && Sizes(groups[i := g]) == Sizes(groups)[Place(groups, i, j) := v]
  {
    FlatUpdate(AllSizes(groups), i, j - 1, v, GroupSizes(g));
    assert AllSizes(groups[i := g]) == AllSizes(groups)[i := GroupSizes(g)];
  }

  // Taking blocks from a hole takes them off its size.
  lemma SizesAfterTake(groups: seq<Group>, i: nat, j: nat, num: nat)
    requires SortedAll(groups) && i < |groups| && 0 < j < |groups[i].chunks| && num <= HoleSize(groups[i], j)
    ensures HoleStart(groups[i], j) + num <= |groups[i].bits|
    ensures var after := groups[i := Take(groups[i], j, num)];
            && SortedAll(after) && Place(groups, i, j) < |Sizes(groups)|
            && Sizes(after) == Sizes(groups)[Place(groups, i, j) := HoleSize(groups[i], j) - num]
  {
    hide Sizes, Sorted, GroupSizes, Take, Place;
    HoleInGroup(groups[i], j);
    TakenSizes(groups[i], j, num);
    SizesUpdate(groups, i, Take(groups[i], j, num), j, HoleSize(groups[i], j) - num);
  }

  lemma TakenSizes(g: Group, j: nat, num: nat)
    requires Sorted(g) && 0 < j < |g.chunks| && num <= HoleSize(g, j) && HoleStart(g, j) + num <= |g.bits|
    ensures Sorted(Take(g, j, num))
    ensures GroupSizes(Take(g, j, num)) == GroupSizes(g)[j - 1 := HoleSize(g, j) - num]
  {
    hide Sorted;
    TakeSorted(g, j, num);
  }

  /* Any way to fill a request. */

  predicate InHole(groups: seq<Group>, r: Region)
    requires SortedAll(groups)
  {
    && r.bg < |groups| && r.len > 0
    && exists j :: 0 < j < |groups[r.bg].chunks| && Contains(groups[r.bg], j, r.block, r.len)
  }

  predicate Contains(g: Group, j: nat, block: nat, len: nat)
    requires Sorted(g) && 0 < j < |g.chunks|
  {
    HoleStart(g, j) <= block && block + len <= HoleStart(g, j) + HoleSize(g, j)
  }

  function Length(rs: seq<Region>): nat {
    if |rs| == 0 then 0 else Length(rs[..|rs| - 1]) + rs[|rs| - 1].len
  }

  predicate IsFilling(groups: seq<Group>, rs: seq<Region>, len: nat)
    requires SortedAll(groups)
  {
    && (forall k :: 0 <= k < |rs| ==> InHole(groups, rs[k]))
    && (forall j, k :: 0 <= j < k < |rs| ==> Disjoint(rs[j], rs[k]))
    && Length(rs) == len
  }

  function Span(bg: nat, block: nat, len: nat): set<(nat, nat)> {
    set b | block <= b < block + len :: (bg, b)
  }

  lemma {:induction false} SpanSize(bg: nat, block: nat, len: nat)
    ensures |Span(bg, block, len)| == len
  {
    if len > 0 {
      SpanSize(bg, block, len - 1);
      assert Span(bg, block, len) == Span(bg, block, len - 1) + {(bg, block + len - 1)};
    } else {
      assert Span(bg, block, len) == {};
    }
  }

  function Covered(rs: seq<Region>): set<(nat, nat)> {
    if |rs| == 0 then {} else Covered(rs[..|rs| - 1]) + Span(rs[|rs| - 1].bg, rs[|rs| - 1].block, rs[|rs| - 1].len)
  }

  lemma {:induction false} CoveredBy(rs: seq<Region>, p: (nat, nat)) returns (k: nat)
    requires p in Covered(rs)
    ensures k < |rs| && p in Span(rs[k].bg, rs[k].block, rs[k].len)
  {
    var n := |rs| - 1;
    if p in Covered(rs[..n]) {
      k := CoveredBy(rs[..n], p);
    } else {
      k := n;
    }
  }

  // Disjoint regions cover as many blocks as they are long together.
  lemma {:induction false} CoveredSize(rs: seq<Region>)
    requires forall j, k :: 0 <= j < k < |rs| ==> Disjoint(rs[j], rs[k])
    ensures |Covered(rs)| == Length(rs)
  {
    if |rs| > 0 {
      var n := |rs| - 1;
      var front, last := Covered(rs[..n]), Span(rs[n].bg, rs[n].block, rs[n].len);
      CoveredSize(rs[..n]);
      SpanSize(rs[n].bg, rs[n].block, rs[n].len);
      forall p | p in front ensures p !in last {
        var k := CoveredBy(rs[..n], p);
        assert Disjoint(rs[k], rs[n]);
      }
      assert |front + last| == |front| + |last|;
    }
  }

  ghost predicate Reaches(groups: seq<Group>, blocks: set<(nat, nat)>, s: set<nat>)
    requires SortedAll(groups)
  {
    forall p :: p in blocks ==>
                  exists j :: p.0 < |groups| && 0 < j < |groups[p.0].chunks| && Place(groups, p.0, j) in s
                              && Contains(groups[p.0], j, p.1, 1)
  }

  // Blocks that all lie in the chosen holes are no more than these hold.
  lemma {:induction false} ReachesAtMost(groups: seq<Group>, blocks: set<(nat, nat)>, s: set<nat>)
    requires SortedAll(groups) && Indices(Sizes(groups), s) && Reaches(groups, blocks, s)
    ensures |blocks| <= Picked(Sizes(groups), s)
    decreases s
  {
    hide Reaches, Sizes, Place, Picked;
    if s == {} {
      ReachesNothing(groups, blocks);
    } else {
      var k :| k in s;
      var i, j := HoleAt(groups, k);
      SizeAt(groups, i, j);
      var span := Span(i, HoleStart(groups[i], j), HoleSize(groups[i], j));
      SpanSize(i, HoleStart(groups[i], j), HoleSize(groups[i], j));
      var rest := blocks - span;
      ReachesLess(groups, blocks, s, i, j);
      ReachesAtMost(groups, rest, s - {k});
      PickedWithout(Sizes(groups), s, k);
      UnionSize(rest, span, blocks);
    }
  }

  lemma ReachesNothing(groups: seq<Group>, blocks: set<(nat, nat)>)
    requires SortedAll(groups) && Reaches(groups, blocks, {})
    ensures blocks == {}
  {
    hide Sorted, Sizes, Place, Contains;
  }

  // Without one hole, all but the blocks of that hole are reached.
  lemma ReachesLess(groups: seq<Group>, blocks: set<(nat, nat)>, s: set<nat>, i: nat, j: nat)
    requires SortedAll(groups) && Reaches(groups, blocks, s) && i < |groups| && 0 < j < |groups[i].chunks|
    ensures Reaches(groups, blocks - Span(i, HoleStart(groups[i], j), HoleSize(groups[i], j)), s - {Place(groups, i, j)})
  {
    hide Sorted, Sizes, Place;
    var k := Place(groups, i, j);
    forall p | p in blocks - Span(i, HoleStart(groups[i], j), HoleSize(groups[i], j))
      ensures exists j' :: p.0 < |groups| && 0 < j' < |groups[p.0].chunks| && Place(groups, p.0, j') in s - {k}
                           && Contains(groups[p.0], j', p.1, 1)
    {
      var j' :| p.0 < |groups| && 0 < j' < |groups[p.0].chunks| && Place(groups, p.0, j') in s
                && Contains(groups[p.0], j', p.1, 1);
      if Place(groups, p.0, j') == k {
        SamePlace(groups, i, j, p.0, j');
      }
    }
  }

  lemma UnionSize(a: set<(nat, nat)>, b: set<(nat, nat)>, c: set<(nat, nat)>)
    requires c <= a + b
    ensures |c| <= |a| + |b|
  {
    Arith.SubsetSize(c, a + b);
    assert |a + b| == |a| + |b - a|;
    Arith.SubsetSize(b - a, b);
  }

  lemma {:induction false} FlatPrefix(ss: seq<seq<nat>>, i: nat, j: nat)
    requires i < j <= |ss|
    ensures |Flat(ss[..i])| + |ss[i]| <= |Flat(ss[..j])|
  {
    assert ss[..j][..j - 1] == ss[..j - 1];
    if i < j - 1 {
      FlatPrefix(ss, i, j - 1);
    }
  }

  lemma SamePlace(groups: seq<Group>, i: nat, j: nat, i': nat, j': nat)
    requires SortedAll(groups) && i < |groups| && 0 < j < |groups[i].chunks|
    requires i' < |groups| && 0 < j' < |groups[i'].chunks| && Place(groups, i, j) == Place(groups, i', j')
    ensures i == i' && j == j'
  {
    if i < i' {
      FlatPrefix(AllSizes(groups), i, i');
    } else if i' < i {
      FlatPrefix(AllSizes(groups), i', i);
    }
  }

  // Any filling draws on a choice of holes that has at most as many holes as the filling has regions.
  lemma {:induction false} FillingHoles(groups: seq<Group>, rs: seq<Region>) returns (s: set<nat>)
    requires SortedAll(groups) && forall k :: 0 <= k < |rs| ==> InHole(groups, rs[k])
    ensures |s| <= |rs| && Indices(Sizes(groups), s) && Reaches(groups, Covered(rs), s)
  {
    hide Sorted, Sizes, Place, Contains, SortedAll, InHole;
    if |rs| == 0 {
      s := {};
    } else {
      var n := |rs| - 1;
      var s0 := FillingHoles(groups, rs[..n]);
      assert InHole(groups, rs[n]);
      var j := HoleOf(groups, rs[n]);
      s := s0 + {Place(groups, rs[n].bg, j)};
      ReachesMore(groups, Covered(rs[..n]), s0, rs[n], j);
    }
  }

  lemma HoleOf(groups: seq<Group>, r: Region) returns (j: nat)
    requires SortedAll(groups) && InHole(groups, r)
    ensures r.bg < |groups| && 0 < j < |groups[r.bg].chunks| && Sorted(groups[r.bg])
    ensures Contains(groups[r.bg], j, r.block, r.len) && Place(groups, r.bg, j) < |Sizes(groups)|
  {
    j :| 0 < j < |groups[r.bg].chunks| && Contains(groups[r.bg], j, r.block, r.len);
    SizeAt(groups, r.bg, j);
  }

  lemma ReachesMore(groups: seq<Group>, blocks: set<(nat, nat)>, s: set<nat>, r: Region, j: nat)
    requires SortedAll(groups) && Reaches(groups, blocks, s)
    requires r.bg < |groups| && 0 < j < |groups[r.bg].chunks| && Sorted(groups[r.bg])
    requires Contains(groups[r.bg], j, r.block, r.len)
    ensures Reaches(groups, blocks + Span(r.bg, r.block, r.len), s + {Place(groups, r.bg, j)})
  {
    hide Sorted, Place, SortedAll;
    forall p | p in Span(r.bg, r.block, r.len) ensures Contains(groups[p.0], j, p.1, 1) && p.0 == r.bg {
    }
  }

  lemma FillingNeeds(groups: seq<Group>, rs: seq<Region>, len: nat) returns (s: set<nat>)
    requires SortedAll(groups) && IsFilling(groups, rs, len)
    ensures |s| <= |rs| && Indices(Sizes(groups), s) && Picked(Sizes(groups), s) >= len
  {
    s := FillingHoles(groups, rs);
    CoveredSize(rs);
    ReachesAtMost(groups, Covered(rs), s);
  }
}
