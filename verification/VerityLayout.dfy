/**
 The shape of a verity hash tree, as libfec computes it (libfec/fec_verity.cpp): how many hashes each
 level holds, how many blocks the tree takes, and where each level lies.
 */
module VerityLayout {
  import opened Arith

  const BLOCK: nat := 4096
  const DIGEST: nat := 32

  // Hashes that fit one block.
  const FANOUT: nat := 128

  function DivRoundUp(x: nat, y: nat): nat
    requires y > 0
  {
    x / y + if x % y > 0 then 1 else 0
  }

  // Blocks that hold n hashes.
  function HashBlocks(n: nat): nat {
    DivRoundUp(n * DIGEST, BLOCK)
  }

  function Pow(k: nat): (p: nat)
    ensures p > 0
  {
    if k == 0 then 1 else FANOUT * Pow(k - 1)
  }

  // The hashes on level k: one for each of the blocks one level below.
  function Hashes(n: nat, k: nat): nat {
    DivRoundUp(n, Pow(k))
  }

  // The blocks of levels 1 to l.
  function Total(n: nat, l: nat): nat {
    if l == 0 then 0 else Total(n, l - 1) + Hashes(n, l)
  }

  // The blocks of a whole tree over n data blocks.
  function Tree(n: nat): nat {
    var h := HashBlocks(n);
    if h <= 1 then h else HashBlocksShrink(n); h + Tree(h)
  }

  lemma HashBlocksShrink(n: nat)
    ensures HashBlocks(n) == (n + 127) / 128
    ensures HashBlocks(n) > 1 ==> HashBlocks(n) < n
  {
  }

  lemma RoundUpUnique(n: nat, d: nat, r: nat)
    requires d > 0 && n <= d * r && (r == 0 || d * (r - 1) < n)
    ensures DivRoundUp(n, d) == r
  {
    if r > 0 {
      assert d * (r - 1) == d * r - d;
      if n == d * r {
        QuotientUnique(n, d, r, 0);
      } else {
        QuotientUnique(n, d, r - 1, n - (d * r - d));
      }
    }
  }

  lemma RoundUpBounds(n: nat, d: nat)
    requires d > 0
    ensures n <= d * DivRoundUp(n, d) && (n > 0 ==> d * (DivRoundUp(n, d) - 1) < n)
  {
    assert n == d * (n / d) + n % d;
    assert d * (n / d + 1) == d * (n / d) + d;
  }

  // The hashes of a level, counted from the level below or straight from the data.
  lemma HashesNext(n: nat, k: nat)
    ensures Hashes(n, k + 1) == HashBlocks(Hashes(n, k))
  {
    var p, q := Pow(k), Hashes(n, k);
    HashBlocksShrink(q);
    RoundUpBounds(n, p);
    RoundUpTwice(n, p, q, (q + 127) / 128);
  }

  lemma RoundUpTwice(n: nat, p: nat, q: nat, r: nat)
    requires p > 0 && n <= p * q && (n > 0 ==> p * (q - 1) < n) && (n == 0 ==> q == 0)
    requires q <= 128 * r && (if q > 0 then 128 * (r - 1) < q else r == 0)
    ensures DivRoundUp(n, 128 * p) == r
  {
    Scale(p, q, 128 * r);
    assert p * (128 * r) == (128 * p) * r;
    if n > 0 {
      Scale(p, 128 * (r - 1), q - 1);
      assert p * (128 * (r - 1)) == (128 * p) * (r - 1);
    }
    RoundUpUnique(n, 128 * p, r);
  }

  lemma Scale(p: nat, a: int, b: int)
    requires a <= b
    ensures p * a <= p * b
  {
    assert p * b - p * a == p * (b - a);
  }

  lemma HashesAtBottom(n: nat)
    ensures Hashes(n, 0) == n
  {
    assert n % 1 == 0;
  }

  lemma HashesAtMostOne(n: nat, k: nat)
    ensures Hashes(n, k) <= 1 <==> n <= Pow(k)
  {
    RoundUpBounds(n, Pow(k));
    if n <= Pow(k) {
      RoundUpUnique(n, Pow(k), if n == 0 then 0 else 1);
    } else if Hashes(n, k) <= 1 {
      Scale(Pow(k), Hashes(n, k), 1);
    }
  }

  // l is the number of levels of a tree over n blocks.
  ghost predicate IsLevels(n: nat, l: nat) {
    l >= 1 && n <= Pow(l) && forall m :: 1 <= m < l ==> Pow(m) < n
  }

  // What is still to come when the loop stands at level k.
  lemma {:induction false} TreeFrom(n: nat, k: nat, l: nat)
    requires k < l && Hashes(n, l) <= 1 && forall m :: k < m < l ==> Hashes(n, m) > 1
    ensures Total(n, l) == Total(n, k) + Tree(Hashes(n, k))
    decreases l - k
  {
    HashesNext(n, k);
    if k + 1 < l {
      TreeFrom(n, k + 1, l);
    }
  }

  // The size of the hash tree of a file, the number of its levels, and the hashes on each.
  method VerityGetSize(fileSize: nat) returns (size: nat, levels: nat, levelHashes: seq<nat>)
    ensures IsLevels(fileSize / BLOCK, levels)
    ensures |levelHashes| == levels
    ensures forall k :: 0 <= k < levels ==> levelHashes[k] == Hashes(fileSize / BLOCK, k)
    ensures size == Total(fileSize / BLOCK, levels) * BLOCK
    ensures size == Tree(fileSize / BLOCK) * BLOCK
  {
    ghost var n := fileSize / BLOCK;
    var level, total, hashes := 0, 0, fileSize / BLOCK;
    levelHashes := [];
    var more := true;
    HashesAtBottom(n);
    while more
      invariant |levelHashes| == level && hashes == Hashes(n, level) && total == Total(n, level)
      invariant forall k :: 0 <= k < level ==> levelHashes[k] == Hashes(n, k)
      invariant forall k :: 1 <= k < level ==> Hashes(n, k) > 1
      invariant level == 0 ==> more
      invariant level > 0 ==> (more <==> hashes > 1)
      decreases if more then hashes + 1 else 0
    {
      levelHashes := levelHashes + [hashes];
      HashesNext(n, level);
      HashBlocksShrink(hashes);
      hashes := DivRoundUp(hashes * DIGEST, BLOCK);
      total := total + hashes;
      level := level + 1;
      more := hashes > 1;
    }
    levels := level;
    size := total * BLOCK;
    HashesAtMostOne(n, levels);
    forall m | 1 <= m < levels ensures Pow(m) < n {
      HashesAtMostOne(n, m);
    }
    TreeFrom(n, 0, levels);
  }

  /* Where verify_tree looks for each level. Level 0 is the root block, level l - 1 the data hashes. */

  function Blocks(n: nat, l: nat, i: nat): nat
    requires i < l
  {
    Hashes(n, l - i)
  }

  // The first block of level i, counted from the start of the hash area.
  function Start(n: nat, l: nat, i: nat): nat
    requires i <= l
  {
    if i == 0 then 0 else Start(n, l, i - 1) + Blocks(n, l, i - 1)
  }

  // The levels tile the hash area: the last one ends where the tree does.
  lemma {:induction false} LevelsTile(n: nat, l: nat, i: nat)
    requires i <= l
    ensures Start(n, l, i) + Total(n, l - i) == Total(n, l)
  {
    if i > 0 {
      LevelsTile(n, l, i - 1);
    }
  }

  lemma StartMonotone(n: nat, l: nat, i: nat)
    requires i < l
    ensures Start(n, l, i) + Blocks(n, l, i) == Start(n, l, i + 1) <= Total(n, l)
  {
    LevelsTile(n, l, i + 1);
  }

  // Going down, every level is strictly larger than the one above; so only the last one has the
  // number of blocks that the last one has.
  lemma LevelsGrow(n: nat, l: nat, i: nat)
    requires IsLevels(n, l) && 0 < i < l
    ensures Blocks(n, l, i - 1) < Blocks(n, l, i)
  {
    HashesNext(n, l - i);
    HashBlocksShrink(Hashes(n, l - i));
    HashesAtMostOne(n, l - i);
    assert Pow(l - i) < n;
  }

  lemma {:induction false} OnlyBottomLevelIsCopied(n: nat, l: nat, i: nat)
    requires IsLevels(n, l) && 0 < i < l
    ensures Blocks(n, l, i) <= Blocks(n, l, l - 1)
    ensures Blocks(n, l, i) == Blocks(n, l, l - 1) <==> i == l - 1
    decreases l - i
  {
    if i < l - 1 {
      OnlyBottomLevelIsCopied(n, l, i + 1);
      LevelsGrow(n, l, i + 1);
    }
  }

  // The hash of the j-th block of a level lies in the level just above it.
  lemma ParentInside(n: nat, l: nat, i: nat, j: nat)
    requires IsLevels(n, l) && 0 < i < l && j < Blocks(n, l, i)
    ensures j / FANOUT < Blocks(n, l, i - 1)
    ensures Start(n, l, i - 1) * BLOCK + j * DIGEST + DIGEST <= Start(n, l, i) * BLOCK
  {
    HashesNext(n, l - i);
    HashBlocksShrink(Hashes(n, l - i));
  }

  // One block on top, and as many data hashes at the bottom as there are data blocks.
  lemma TopAndBottom(n: nat, l: nat)
    requires IsLevels(n, l) && n > 0
    ensures Blocks(n, l, 0) == 1
    ensures l > 1 ==> Blocks(n, l, l - 1) == HashBlocks(n) && n <= Blocks(n, l, l - 1) * FANOUT
    ensures l > 1 <==> n > FANOUT
  {
    HashesAtMostOne(n, l);
    RoundUpBounds(n, Pow(l));
    HashesAtBottom(n);
    HashesNext(n, 0);
    HashBlocksShrink(n);
    assert Pow(1) == 128;
  }
}
