/**
 Which hole the search of ext4_utils/allocate.c settles on, as a function of the sizes of the holes in the
 order it meets them, and when that is the smallest hole the request fits in.
 */
module BlockChoice {
  import opened BlockGreedy

  // What the search remembers; `exact` once it has met a perfect fit.
  datatype Choice = Choice(at: nat, size: nat, minimize: bool, exact: bool)

  function Meet(c: Choice, k: nat, h: nat, len: nat): Choice {
    if c.exact then c
    else if h == len then Choice(k, h, c.minimize, true)
    else if h > len && (c.size == 0 || c.size > h) then Choice(k, h, true, false)
    else if !c.minimize && c.size < h then Choice(k, h, false, false)
    else c
  }

  function Scan(hs: seq<nat>, len: nat): Choice {
    if |hs| == 0 then Choice(0, 0, false, false)
    else Meet(Scan(hs[..|hs| - 1], len), |hs| - 1, hs[|hs| - 1], len)
  }

  lemma ScanNext(hs: seq<nat>, len: nat, n: nat)
    requires n < |hs|
    ensures Scan(hs[..n + 1], len) == Meet(Scan(hs[..n], len), n, hs[n], len)
  {
    assert hs[..n + 1][..n] == hs[..n];
  }

  lemma {:induction false} ScanStays(hs: seq<nat>, len: nat, n: nat)
    requires n <= |hs| && Scan(hs[..n], len).exact
    ensures Scan(hs, len) == Scan(hs[..n], len)
    decreases |hs|
  {
    if n == |hs| {
      assert hs[..n] == hs;
    } else {
      assert hs[..|hs| - 1][..n] == hs[..n];
      ScanStays(hs[..|hs| - 1], len, n);
    }
  }

  // The choice is a hole, it is a perfect fit if there is one, and it falls short of the request only if
  // no hole is larger.
  lemma {:induction false} ScanMeaning(hs: seq<nat>, len: nat)
    requires len > 0
    ensures var c := Scan(hs, len);
            && (c.size > 0 ==> c.at < |hs| && hs[c.at] == c.size)
            && (c.exact <==> len in hs) && (c.exact ==> c.size == len) && (c.minimize && !c.exact ==> c.size > len)
            && (!c.minimize && !c.exact ==> forall k :: 0 <= k < |hs| ==> hs[k] <= c.size)
  {
    if |hs| > 0 {
      var n := |hs| - 1;
      ScanMeaning(hs[..n], len);
      assert hs == hs[..n] + [hs[n]];
    }
  }

  lemma ChoiceIsGreedy(hs: seq<nat>, len: nat)
    requires len > 0
    ensures var c := Scan(hs, len);
            && (c.size == 0 <==> forall k :: 0 <= k < |hs| ==> hs[k] == 0)
            && (c.size > 0 ==> GreedyStep(hs, len, c.at, if c.size > len then len else c.size))
  {
    ScanMeaning(hs, len);
  }

  /* When the choice is the smallest hole that is large enough. */

  predicate Smallest(hs: seq<nat>, len: nat, size: nat) {
    size in hs && len <= size && forall k :: 0 <= k < |hs| && len <= hs[k] ==> size <= hs[k]
  }

  // The first hole that is not empty is larger than the request.
  predicate LeadFits(hs: seq<nat>, len: nat) {
    exists k :: 0 <= k < |hs| && hs[k] > len && forall a :: 0 <= a < k ==> hs[a] == 0
  }

  predicate AtMost(hs: seq<nat>, size: nat) {
    forall a :: 0 <= a < |hs| ==> hs[a] <= size
  }

  // A hole of that size comes after a larger one.
  predicate Dropped(hs: seq<nat>, size: nat) {
    exists a, k :: 0 <= a < k < |hs| && hs[a] > hs[k] && hs[k] == size
  }

  predicate MetAgain(hs: seq<nat>, size: nat) {
    Dropped(hs, size) || (size in hs && AtMost(hs, size))
  }

  // A request of 5 goes into the hole of 20 although it fits in the hole of 10.
  lemma SmallestMissed()
    ensures Smallest([3, 10, 20], 5, 10) && Scan([3, 10, 20], 5).size == 20
  {
    var hs := [3, 10, 20];
    ScanNext(hs, 5, 0);
    ScanNext(hs, 5, 1);
    ScanNext(hs, 5, 2);
    assert hs[..3] == hs;
    assert Scan(hs[..1], 5) == Choice(0, 3, false, false);
    assert Scan(hs[..2], 5) == Choice(1, 10, false, false);
    assert hs[1] == 10;
  }

  // The search settles on the smallest hole that is large enough if and only if that is a perfect fit,
  // the first hole that is not empty is larger than the request, or a hole of the smallest size comes after a
  // larger one or has no larger one.
  lemma SmallestChosenIff(hs: seq<nat>, len: nat, size: nat)
    requires len > 0 && Smallest(hs, len, size)
    ensures Scan(hs, len).size == size <==> size == len || LeadFits(hs, len) || MetAgain(hs, size)
  {
    ScanMeaning(hs, len);
    if size > len {
      assert len !in hs;
      if LeadFits(hs, len) {
        LeadChoosesSmallest(hs, len, size);
      } else {
        ScanClimbs(hs, len, size);
      }
    }
  }

  lemma {:induction false} LeadChoosesSmallest(hs: seq<nat>, len: nat, size: nat)
    requires 0 < len < size && Smallest(hs, len, size) && len !in hs && LeadFits(hs, len)
    ensures Scan(hs, len).size == size
  {
    var k :| 0 <= k < |hs| && hs[k] > len && forall a :: 0 <= a < k ==> hs[a] == 0;
    LeadScan(hs, len, k);
    ScanMeaning(hs, len);
  }

  lemma {:induction false} LeadScan(hs: seq<nat>, len: nat, k: nat)
    requires len > 0 && len !in hs && k < |hs| && hs[k] > len && forall a :: 0 <= a < k ==> hs[a] == 0
    ensures var c := Scan(hs, len);
            c.minimize && !c.exact && c.size > len && forall a :: 0 <= a < |hs| && hs[a] > len ==> c.size <= hs[a]
  {
    var n := |hs| - 1;
    assert hs[n] in hs;
    if k == n {
      ZerosScan(hs[..n], len);
    } else {
      LeadScan(hs[..n], len, k);
    }
  }

  lemma {:induction false} ZerosScan(hs: seq<nat>, len: nat)
    requires len > 0 && forall a :: 0 <= a < |hs| ==> hs[a] == 0
    ensures Scan(hs, len) == Choice(0, 0, false, false)
  {
    if |hs| > 0 {
      ZerosScan(hs[..|hs| - 1], len);
    }
  }

  predicate Ascending(hs: seq<nat>, len: nat) {
    forall a, k :: 0 <= a < k < |hs| && hs[k] > len ==> hs[a] <= hs[k]
  }

  // With a first hole that is too small, the search keeps the largest size while sizes go up.
  predicate Climbs(hs: seq<nat>, len: nat, size: nat, c: Choice) {
    && !c.exact && (c.size == size <==> MetAgain(hs, size))
    && (c.size == 0 ==> AtMost(hs, 0)) && (c.size > len ==> c.size >= size)
    && (c.minimize ==> c.size > len && !AtMost(hs, c.size))
    && (!c.minimize ==> AtMost(hs, c.size) && Ascending(hs, len) && (c.size > 0 ==> c.size in hs))
  }

  lemma {:induction false} ScanClimbs(hs: seq<nat>, len: nat, size: nat)
    requires 0 < len < size && len !in hs && !LeadFits(hs, len)
    requires forall k :: 0 <= k < |hs| && len <= hs[k] ==> size <= hs[k]
    ensures Climbs(hs, len, size, Scan(hs, len))
  {
    hide LeadFits, Climbs, Scan, AtMost;
    if |hs| == 0 {
      NothingClimbs(len, size);
    } else {
      var n := |hs| - 1;
      var front, h := hs[..n], hs[n];
      assert h in hs && hs == front + [h];
      LeadGrown(front, h, len);
      ScanClimbs(front, len, size);
      ClimbsOn(front, h, len, size, Scan(front, len));
      assert hs[..n + 1] == hs;
      ScanNext(hs, len, n);
    }
  }

  lemma NothingClimbs(len: nat, size: nat)
    requires 0 < len < size
    ensures Climbs([], len, size, Scan([], len))
  {
  }

  lemma LeadGrown(front: seq<nat>, h: nat, len: nat)
    ensures LeadFits(front, len) || (AtMost(front, 0) && h > len) ==> LeadFits(front + [h], len)
  {
    var hs := front + [h];
    if LeadFits(front, len) {
      var k :| 0 <= k < |front| && front[k] > len && forall a :: 0 <= a < k ==> front[a] == 0;
      assert hs[k] > len && forall a :: 0 <= a < k ==> hs[a] == 0;
    }
    if AtMost(front, 0) && h > len {
      assert hs[|front|] > len && forall a :: 0 <= a < |front| ==> hs[a] == 0;
    }
  }

  lemma ClimbsOn(front: seq<nat>, h: nat, len: nat, size: nat, c: Choice)
    requires 0 < len < size && Climbs(front, len, size, c) && h != len && (h > len ==> h >= size)
    requires AtMost(front, 0) ==> h < len
    ensures Climbs(front + [h], len, size, Meet(c, |front|, h, len))
  {
    var c' := Meet(c, |front|, h, len);
    Grown(front, h, len, size, c.size);
    Grown(front, h, len, size, c'.size);
    Relations(front, len, size, c.size, h);
    Relations(front, len, size, c.size, size);
    Relations(front, len, size, h, c.size);
    Relations(front, len, size, size, c.size);
    assert h in front + [h];
    hide AtMost, Dropped, Ascending;
  }

  // The properties of a list with one more hole.
  lemma Grown(front: seq<nat>, h: nat, len: nat, size: nat, s: nat)
    ensures AtMost(front + [h], s) <==> AtMost(front, s) && h <= s
    ensures AtMost(front + [h], size) <==> AtMost(front, size) && h <= size
    ensures Dropped(front + [h], size) <==> Dropped(front, size) || (h == size && !AtMost(front, size))
    ensures Ascending(front + [h], len) <==> Ascending(front, len) && (h > len ==> AtMost(front, h))
    ensures AtMost(front + [h], 0) <==> AtMost(front, 0) && h == 0
  {
    GrownAtMost(front, h, s);
    GrownAtMost(front, h, size);
    GrownAtMost(front, h, 0);
    GrownDropped(front, h, size);
    GrownAscending(front, h, len);
  }

  lemma GrownAtMost(front: seq<nat>, h: nat, s: nat)
    ensures AtMost(front + [h], s) <==> AtMost(front, s) && h <= s
  {
    var hs := front + [h];
    assert hs[|front|] == h;
    assert forall a :: 0 <= a < |front| ==> hs[a] == front[a];
  }

  lemma GrownDropped(front: seq<nat>, h: nat, size: nat)
    ensures Dropped(front + [h], size) <==> Dropped(front, size) || (h == size && !AtMost(front, size))
  {
    var hs := front + [h];
    if Dropped(front, size) {
      var a, k :| 0 <= a < k < |front| && front[a] > front[k] && front[k] == size;
      assert hs[a] > hs[k] && hs[k] == size;
    }
    if h == size && !AtMost(front, size) {
      var a :| 0 <= a < |front| && front[a] > size;
      assert hs[a] > hs[|front|] && hs[|front|] == size;
    }
  }

  lemma GrownAscending(front: seq<nat>, h: nat, len: nat)
    ensures Ascending(front + [h], len) <==> Ascending(front, len) && (h > len ==> AtMost(front, h))
  {
    var hs := front + [h];
    if Ascending(hs, len) {
      forall a, k | 0 <= a < k < |front| && front[k] > len ensures front[a] <= front[k] {
        assert hs[a] <= hs[k];
      }
      forall a | 0 <= a < |front| && h > len ensures front[a] <= h {
        assert hs[a] <= hs[|front|];
      }
    }
  }

  lemma Relations(hs: seq<nat>, len: nat, size: nat, s: nat, t: nat)
    requires len < size
    ensures Ascending(hs, len) ==> !Dropped(hs, size)
    ensures AtMost(hs, s) && s <= t ==> AtMost(hs, t)
    ensures s in hs && s > t ==> !AtMost(hs, t)
    ensures Dropped(hs, size) ==> size in hs && !AtMost(hs, size)
  {
  }
}
