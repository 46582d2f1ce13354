/**
 The regions of one request as they lie on the chunks of the groups of ext4_utils/allocate.c: each is the
 end of a chunk once the regions taken after it are gone.
 */
module BlockStack {
  import opened BlockPool
  import opened BlockGreedy

  // The chunk lists of the groups.
  function Lists(gs: seq<Group>): (cs: seq<seq<Chunk>>)
    ensures |cs| == |gs| && forall i :: 0 <= i < |gs| ==> cs[i] == gs[i].chunks
  {
    seq(|gs|, i requires 0 <= i < |gs| => gs[i].chunks)
  }

  // The lists with chunk c of a group replaced.
  function Put(cs: seq<seq<Chunk>>, bg: nat, c: nat, chunk: Chunk): seq<seq<Chunk>>
    requires bg < |cs| && c < |cs[bg]|
  {
    cs[bg := cs[bg][c := chunk]]
  }

  // Region r ends the chunk before hole j.
  predicate OnTop(cs: seq<seq<Chunk>>, r: Region, j: nat) {
    && r.bg < |cs| && 0 < j < |cs[r.bg]| && 0 < r.len <= cs[r.bg][j - 1].len
    && End(cs[r.bg][j - 1]) == r.block + r.len
  }

  // The lists without it.
  function Without(cs: seq<seq<Chunk>>, r: Region, j: nat): seq<seq<Chunk>>
    requires OnTop(cs, r, j)
  {
    Put(cs, r.bg, j - 1, Chunk(cs[r.bg][j - 1].block, cs[r.bg][j - 1].len - r.len))
  }

  // `js[k]` is the hole that region k was taken from.
  predicate Stacked(cs: seq<seq<Chunk>>, rs: seq<Region>, js: seq<nat>)
    decreases |rs|
  {
    && |js| == |rs|
    && (|rs| > 0 ==>
          var n := |rs| - 1;
          OnTop(cs, rs[n], js[n]) && Stacked(Without(cs, rs[n], js[n]), rs[..n], js[..n]))
  }

  // Chunks begin where they did.
  predicate SameBlocks(gs0: seq<Group>, gs: seq<Group>) {
    && |gs| == |gs0|
    && forall i :: 0 <= i < |gs| ==>
                     && |gs[i].chunks| == |gs0[i].chunks|
                     && forall c :: 0 <= c < |gs[i].chunks| ==> gs[i].chunks[c].block == gs0[i].chunks[c].block
  }

  // Region r lies in hole j.
  predicate From(gs0: seq<Group>, r: Region, j: nat)
    requires SortedAll(gs0)
  {
    r.bg < |gs0| && 0 < j < |gs0[r.bg].chunks| && Contains(gs0[r.bg], j, r.block, r.len)
  }

  predicate Piles(gs0: seq<Group>, gs: seq<Group>, rs: seq<Region>, js: seq<nat>)
    requires SortedAll(gs0)
  {
    && SameBlocks(gs0, gs) && Stacked(Lists(gs), rs, js) && |js| == |rs|
    && forall k :: 0 <= k < |rs| ==> From(gs0, rs[k], js[k])
  }

  ghost predicate Piled(gs0: seq<Group>, gs: seq<Group>, rs: seq<Region>)
    requires SortedAll(gs0)
  {
    exists js :: Piles(gs0, gs, rs, js)
  }

  lemma PiledStarts(gs: seq<Group>)
    requires SortedAll(gs)
    ensures Piled(gs, gs, [])
  {
    assert Piles(gs, gs, [], []);
  }

  lemma PiledNext(gs0: seq<Group>, gs: seq<Group>, rs: seq<Region>, i: nat, j: nat, take: nat)
    requires SortedAll(gs0) && SortedAll(gs) && Piled(gs0, gs, rs)
    requires i < |gs| && 0 < j < |gs[i].chunks| && 0 < take <= HoleSize(gs[i], j)
    requires HoleStart(gs[i], j) + take <= |gs[i].bits| && From(gs0, Region(i, HoleStart(gs[i], j), take), j)
    ensures Piled(gs0, gs[i := Take(gs[i], j, take)], rs + [Region(i, HoleStart(gs[i], j), take)])
  {
    hide Stacked, From;
    var js :| Piles(gs0, gs, rs, js);
    var r, gs' := Region(i, HoleStart(gs[i], j), take), gs[i := Take(gs[i], j, take)];
    TakenOnTop(gs, i, j, take);
    StackedMore(Lists(gs'), rs, js, r, j);
    assert Piles(gs0, gs', rs + [r], js + [j]);
  }

  lemma TakenOnTop(gs: seq<Group>, i: nat, j: nat, take: nat)
    requires i < |gs| && 0 < j < |gs[i].chunks| && Sorted(gs[i]) && 0 < take <= HoleSize(gs[i], j)
    requires HoleStart(gs[i], j) + take <= |gs[i].bits|
    ensures var cs, r := Lists(gs[i := Take(gs[i], j, take)]), Region(i, HoleStart(gs[i], j), take);
            OnTop(cs, r, j) && Without(cs, r, j) == Lists(gs)
  {
    hide Sorted, Fill, Take, HoleSize;
    var c, cs := gs[i].chunks[j - 1], Lists(gs);
    ListsTake(gs, i, j, take);
    PutTwice(cs, i, j - 1, Chunk(c.block, c.len + take), c);
    PutSame(cs, i, j - 1);
  }

  lemma ListsTake(gs: seq<Group>, i: nat, j: nat, take: nat)
    requires i < |gs| && 0 < j < |gs[i].chunks| && Sorted(gs[i]) && take <= HoleSize(gs[i], j)
    requires HoleStart(gs[i], j) + take <= |gs[i].bits|
    ensures var c := gs[i].chunks[j - 1];
            Lists(gs[i := Take(gs[i], j, take)]) == Put(Lists(gs), i, j - 1, Chunk(c.block, c.len + take))
  {
    hide Sorted, Fill, HoleSize;
  }

  lemma PutSame(cs: seq<seq<Chunk>>, bg: nat, c: nat)
    requires bg < |cs| && c < |cs[bg]|
    ensures Put(cs, bg, c, cs[bg][c]) == cs
  {
    assert cs[bg][c := cs[bg][c]] == cs[bg];
  }

  lemma PutsCommute(cs: seq<seq<Chunk>>, bg: nat, c: nat, x: Chunk, bg': nat, c': nat, y: Chunk)
    requires bg < |cs| && c < |cs[bg]| && bg' < |cs| && c' < |cs[bg']| && (bg != bg' || c != c')
    ensures Put(Put(cs, bg, c, x), bg', c', y) == Put(Put(cs, bg', c', y), bg, c, x)
  {
    if bg == bg' {
      assert cs[bg][c := x][c' := y] == cs[bg][c' := y][c := x];
    }
  }

  lemma PutTwice(cs: seq<seq<Chunk>>, bg: nat, c: nat, x: Chunk, y: Chunk)
    requires bg < |cs| && c < |cs[bg]|
    ensures Put(Put(cs, bg, c, x), bg, c, y) == Put(cs, bg, c, y)
  {
    assert cs[bg][c := x][c := y] == cs[bg][c := y];
  }

  lemma StackedMore(cs: seq<seq<Chunk>>, rs: seq<Region>, js: seq<nat>, r: Region, j: nat)
    requires OnTop(cs, r, j) && Stacked(Without(cs, r, j), rs, js)
    ensures Stacked(cs, rs + [r], js + [j])
  {
    assert (rs + [r])[..|rs|] == rs && (js + [j])[..|js|] == js;
  }

  // No region lies on an empty chunk, so it does not matter where that chunk is.
  lemma {:induction false} StackedMoves(cs: seq<seq<Chunk>>, rs: seq<Region>, js: seq<nat>, bg: nat, c: nat, block: nat)
    requires Stacked(cs, rs, js) && bg < |cs| && c < |cs[bg]| && cs[bg][c].len == 0
    ensures Stacked(Put(cs, bg, c, Chunk(block, 0)), rs, js)
    ensures forall k :: 0 <= k < |rs| ==> rs[k].bg != bg || js[k] != c + 1
    decreases |rs|
  {
    if |rs| > 0 {
      var n := |rs| - 1;
      var r, j, moved := rs[n], js[n], Put(cs, bg, c, Chunk(block, 0));
      StackedMoves(Without(cs, r, j), rs[..n], js[..n], bg, c, block);
      assert r.bg != bg || j - 1 != c;
      assert OnTop(moved, r, j);
      PutsCommute(cs, bg, c, Chunk(block, 0), r.bg, j - 1, Chunk(cs[r.bg][j - 1].block, cs[r.bg][j - 1].len - r.len));
      forall k | 0 <= k < |rs| ensures rs[k].bg != bg || js[k] != c + 1 {
        if k < n {
          assert rs[k] == rs[..n][k] && js[k] == js[..n][k];
        }
      }
    }
  }
}
