/**
 The binary search of libfec/fec_open.cpp for where the verity metadata begins: the block-aligned x for
 which x bytes of data and the metadata over them fill the file exactly. Sizes are 64-bit and wrap.
 */
module VeritySearch {
  import opened Arith
  import opened Options
  import opened VerityLayout

  const U64: nat := 0x1_0000_0000_0000_0000
  const METADATA_BLOCKS: nat := 8

  function Wrap(x: int): (r: nat)
    ensures r < U64
  {
    x % U64
  }

  // The midpoint, rounded down to a block.
  function Middle(lo: nat, hi: nat): nat {
    Wrap(hi + lo) / (2 * BLOCK) * BLOCK
  }

  // The size of the metadata over `size` bytes, in bytes.
  function VeritySize(size: nat): nat {
    METADATA_BLOCKS * BLOCK + Tree(size / BLOCK) * BLOCK
  }

  predicate Aligned(x: nat) {
    x % BLOCK == 0
  }

  predicate IsOffset(fileSize: nat, x: nat) {
    Aligned(x) && x + VeritySize(x) == fileSize
  }

  lemma {:induction false} TreeMonotone(a: nat, b: nat)
    requires a <= b
    ensures Tree(a) <= Tree(b)
    decreases b
  {
    HashBlocksShrink(a);
    HashBlocksShrink(b);
    var ha, hb := HashBlocks(a), HashBlocks(b);
    if hb > 1 {
      TreeMonotone(ha, hb);
    }
  }

  lemma {:induction false} TreeSmall(n: nat)
    ensures Tree(n) <= n
    ensures n >= 18 ==> Tree(n) <= n / 2 - 8
    ensures 1 <= n <= 128 ==> Tree(n) == 1
  {
    HashBlocksShrink(n);
    if HashBlocks(n) > 1 {
      TreeSmall(HashBlocks(n));
    }
  }

  lemma {:induction false} TreeDouble(n: nat)
    ensures Tree(2 * n) <= 2 * Tree(n) + 1
  {
    HashBlocksShrink(n);
    HashBlocksShrink(2 * n);
    var h, h2 := HashBlocks(n), HashBlocks(2 * n);
    if h2 > 1 {
      if h > 1 {
        TreeMonotone(h2, 2 * h);
        TreeDouble(h);
      } else {
        assert h2 == 2;
        TreeSmall(2);
      }
    }
  }

  // The metadata of the whole file is less than twice that of its data part.
  lemma SizeDoubles(n: nat)
    ensures METADATA_BLOCKS + Tree(n + METADATA_BLOCKS + Tree(n)) < 2 * (METADATA_BLOCKS + Tree(n))
  {
    var v := METADATA_BLOCKS + Tree(n);
    TreeSmall(n);
    if n >= v {
      TreeMonotone(n + v, 2 * n);
      TreeDouble(n);
    } else {
      TreeSmall(n + v);
    }
  }

  // A solution lies in the bracket the search starts with.
  lemma InBracket(fileSize: nat, x: nat)
    requires IsOffset(fileSize, x)
    ensures Aligned(fileSize)
    ensures fileSize - VeritySize(fileSize) <= x && 2 * x < 2 * fileSize - VeritySize(fileSize)
  {
    var n := x / BLOCK;
    SizeDoubles(n);
    TreeMonotone(n, fileSize / BLOCK);
    assert fileSize / BLOCK == n + METADATA_BLOCKS + Tree(n);
  }

  lemma OffsetMonotone(x: nat, y: nat)
    requires Aligned(x) && Aligned(y) && x < y
    ensures x + VeritySize(x) < y + VeritySize(y)
  {
    TreeMonotone(x / BLOCK, y / BLOCK);
  }

  lemma OffsetUnique(fileSize: nat, x: nat, y: nat)
    requires IsOffset(fileSize, x) && IsOffset(fileSize, y)
    ensures x == y
  {
    if x < y {
      OffsetMonotone(x, y);
    } else if y < x {
      OffsetMonotone(y, x);
    }
  }

  // Files so small that the lower bound wraps.
  lemma SmallFile(fileSize: nat)
    requires Aligned(fileSize) && fileSize < 2 * VeritySize(fileSize)
    ensures fileSize <= 17 * BLOCK
    ensures VeritySize(fileSize) == if fileSize == 0 then 8 * BLOCK else 9 * BLOCK
  {
    TreeSmall(fileSize / BLOCK);
  }

  // Finds the offset exactly when there is one and the file is at least twice its own metadata size.
  method FindVerityOffset(fileSize: nat) returns (r: Option<nat>)
    requires fileSize < 0x8000_0000_0000_0000
    ensures r.Some? ==> IsOffset(fileSize, r.value) && forall x: nat :: IsOffset(fileSize, x) ==> x == r.value
    ensures r.Some? <==> fileSize >= 2 * VeritySize(fileSize) && exists x: nat :: IsOffset(fileSize, x)
  {
    if fileSize % BLOCK != 0 {
      NoOffset(fileSize);
      return None;
    }
    assert Aligned(fileSize);
    hide Tree, VeritySize, Wrap, Middle, Aligned, Within, IsOffset;
    var mi: nat := VeritySize(fileSize);
    ghost var wide := fileSize >= 2 * mi;
    var lo: nat := Wrap(fileSize - mi * 2);
    var hi: nat := Wrap(fileSize - mi / 2);
    StartBracket(fileSize);
    while lo < hi
      invariant hi < U64 && Aligned(lo)
      invariant wide ==> hi <= fileSize && Within(fileSize, lo, hi)
      invariant !wide ==> U64 - 18 * BLOCK <= lo && fileSize <= 17 * BLOCK
      decreases hi - lo
    {
      mi := Middle(lo, hi);
      var total := Wrap(mi + VeritySize(mi));
      if wide {
        MiddleStep(lo, hi, fileSize);
      } else {
        WrappedStep(lo, hi);
      }
      if total < fileSize {
        if wide {
          NotBefore(fileSize, lo, hi, mi);
        }
        lo := Wrap(mi + BLOCK);
      } else if total > fileSize {
        if wide {
          NotAfter(fileSize, lo, hi, mi);
        }
        hi := mi;
      } else {
        OnlyOffset(fileSize, mi);
        return Some(mi);
      }
    }
    if wide {
      NoneWithin(fileSize, lo, hi);
    }
    return None;
  }

  lemma NoOffset(fileSize: nat)
    requires !Aligned(fileSize)
    ensures forall x: nat :: !IsOffset(fileSize, x)
  {
    forall x: nat ensures !IsOffset(fileSize, x) {
      if IsOffset(fileSize, x) {
        InBracket(fileSize, x);
      }
    }
  }

  lemma OnlyOffset(fileSize: nat, mi: nat)
    requires Aligned(mi) && mi + VeritySize(mi) == fileSize
    ensures IsOffset(fileSize, mi) && forall x: nat :: IsOffset(fileSize, x) ==> x == mi
  {
    forall x: nat | IsOffset(fileSize, x) ensures x == mi {
      OffsetUnique(fileSize, x, mi);
    }
  }

  lemma NoneWithin(fileSize: nat, lo: nat, hi: nat)
    requires Within(fileSize, lo, hi) && lo >= hi
    ensures forall x: nat :: !IsOffset(fileSize, x)
  {
  }

  // Every solution lies between lo and hi.
  ghost predicate Within(fileSize: nat, lo: nat, hi: nat) {
    forall x: nat :: IsOffset(fileSize, x) ==> lo <= x < hi
  }

  lemma StartBracket(fileSize: nat)
    requires Aligned(fileSize) && fileSize < 0x8000_0000_0000_0000
    ensures var v := VeritySize(fileSize);
            var lo, hi := Wrap(fileSize - v * 2), Wrap(fileSize - v / 2);
            && Aligned(lo)
            && (fileSize >= 2 * v ==> hi <= fileSize && Within(fileSize, lo, hi))
            && (fileSize < 2 * v ==> U64 - 18 * BLOCK <= lo && fileSize <= 17 * BLOCK)
  {
    hide Tree, VeritySize, Wrap;
    var v := VeritySize(fileSize);
    SizeOfBlocks(fileSize / BLOCK);
    assert fileSize / BLOCK * BLOCK == fileSize;
    if fileSize >= 2 * v {
      WrapSmall(fileSize - v * 2);
      WrapSmall(fileSize - v / 2);
      AlignedDifference(fileSize, v);
      forall x: nat | IsOffset(fileSize, x) ensures fileSize - 2 * v <= x < fileSize - v / 2 {
        InBracket(fileSize, x);
      }
    } else {
      SmallFile(fileSize);
      WrapNegative(fileSize - v * 2);
    }
  }

  lemma AlignedDifference(a: nat, b: nat)
    requires Aligned(a) && Aligned(b) && a >= 2 * b
    ensures Aligned(a - b * 2)
  {
    assert a == a / BLOCK * BLOCK && b == b / BLOCK * BLOCK;
  }

  lemma WrapNegative(x: int)
    requires 0 <= x + U64 < U64
    ensures Wrap(x) == x + U64
    ensures x % BLOCK == 0 ==> Aligned(Wrap(x))
  {
  }

  lemma MiddleStep(lo: nat, hi: nat, fileSize: nat)
    requires Aligned(lo) && lo < hi <= fileSize < 0x8000_0000_0000_0000
    ensures var mi := Middle(lo, hi);
            Aligned(mi) && lo <= mi < hi && Wrap(mi + BLOCK) == mi + BLOCK && Aligned(mi + BLOCK)
            && (Wrap(mi + VeritySize(mi)) == mi + VeritySize(mi))
  {
    hide Tree, Wrap;
    WrapSmall(hi + lo);
    MiddleBetween(lo, hi);
    var n := (hi + lo) / (2 * BLOCK);
    SizeOfBlocks(n);
    WrapSmall(n * BLOCK + BLOCK);
    WrapSmall(n * BLOCK + VeritySize(n * BLOCK));
  }

  lemma WrapSmall(x: nat)
    requires x < U64
    ensures Wrap(x) == x
  {
  }

  lemma MiddleBetween(lo: nat, hi: nat)
    requires lo % BLOCK == 0 && lo < hi
    ensures var mi := (hi + lo) / (2 * BLOCK) * BLOCK;
            lo <= mi < hi && mi % BLOCK == 0 && (mi + BLOCK) % BLOCK == 0
  {
    var n := (hi + lo) / (2 * BLOCK);
    assert n * (2 * BLOCK) <= hi + lo < (n + 1) * (2 * BLOCK);
  }

  // The metadata is far smaller than what it covers.
  lemma SizeOfBlocks(n: nat)
    ensures VeritySize(n * BLOCK) == METADATA_BLOCKS * BLOCK + Tree(n) * BLOCK
    ensures 2 * VeritySize(n * BLOCK) <= 18 * BLOCK + n * BLOCK
    ensures Aligned(VeritySize(n * BLOCK))
  {
    assert n * BLOCK / BLOCK == n;
    TreeSmall(n);
  }

  // In the wrapped case the middle is far above any file and far below both ends.
  lemma WrappedStep(lo: nat, hi: nat)
    requires U64 - 18 * BLOCK <= lo < hi < U64
    ensures var mi := Middle(lo, hi);
            0x7000_0000_0000_0000 < mi < 0x8000_0000_0000_0000 && mi < lo && Wrap(mi + VeritySize(mi)) > 17 * BLOCK
  {
    hide Tree, Wrap;
    WrapOver(hi + lo);
    var n := (hi + lo - U64) / (2 * BLOCK);
    assert n * (2 * BLOCK) <= hi + lo - U64 < (n + 1) * (2 * BLOCK);
    SizeOfBlocks(n);
    WrapSmall(n * BLOCK + VeritySize(n * BLOCK));
  }

  lemma WrapOver(x: nat)
    requires U64 <= x < 2 * U64
    ensures Wrap(x) == x - U64
  {
  }

  lemma NextAligned(x: nat, y: nat)
    requires Aligned(x) && Aligned(y) && x < y
    ensures x + BLOCK <= y
  {
  }

  lemma NotBefore(fileSize: nat, lo: nat, hi: nat, mi: nat)
    requires Aligned(mi) && mi + VeritySize(mi) < fileSize && Within(fileSize, lo, hi)
    ensures Within(fileSize, mi + BLOCK, hi)
  {
    hide VeritySize;
    forall x: nat | IsOffset(fileSize, x) ensures mi + BLOCK <= x {
      if x < mi {
        OffsetMonotone(x, mi);
      }
      NextAligned(mi, x);
    }
  }

  lemma NotAfter(fileSize: nat, lo: nat, hi: nat, mi: nat)
    requires Aligned(mi) && mi + VeritySize(mi) > fileSize && Within(fileSize, lo, hi)
    ensures Within(fileSize, lo, mi)
  {
    forall x: nat | IsOffset(fileSize, x) ensures x < mi {
      if mi < x {
        OffsetMonotone(mi, x);
      }
    }
  }

  // The search misses a solution of some files that small.
  lemma SmallFileMissed()
    ensures IsOffset(8 * BLOCK, 0) && 8 * BLOCK < 2 * VeritySize(8 * BLOCK)
  {
    TreeSmall(8);
    assert Tree(0) == 0;
  }
}
