/**
 Where the bytes of a file go (ext4_utils/extent.c), and that no block of it is used twice.
 */
module ExtentBacking {
  import opened Extents
  import opened ExtentTrip
  import Arith
  import BlockPool

  /* The blocks of a file are distinct. */

  predicate Distinct(s: seq<nat>) {
    forall i, j :: 0 <= i < j < |s| ==> s[i] != s[j]
  }

  predicate Apart(r: Run, q: Run) {
    r.block + r.len <= q.block || q.block + q.len <= r.block
  }

  predicate AllApart(runs: seq<Run>) {
    forall j, k :: 0 <= j < k < |runs| ==> Apart(runs[j], runs[k])
  }

  // A region of a block group, counted from the start of the filesystem.
  function Absolute(r: BlockPool.Region, firstData: nat, perGroup: nat): Run {
    Run(firstData + r.bg * perGroup + r.block, r.len)
  }

  // Regions the allocator keeps apart are apart on the disk.
  lemma AbsoluteApart(r: BlockPool.Region, q: BlockPool.Region, firstData: nat, perGroup: nat)
    requires BlockPool.Disjoint(r, q) && r.block + r.len <= perGroup && q.block + q.len <= perGroup
    ensures Apart(Absolute(r, firstData, perGroup), Absolute(q, firstData, perGroup))
  {
    if r.bg < q.bg {
      Arith.MulStep(perGroup, r.bg, q.bg);
    } else if q.bg < r.bg {
      Arith.MulStep(perGroup, q.bg, r.bg);
    }
  }

  lemma BlocksDistinct(runs: seq<Run>)
    requires AllApart(runs)
    ensures Distinct(Blocks(runs))
  {
    hide Blocks;
    forall i, j | 0 <= i < j < |Blocks(runs)| ensures Blocks(runs)[i] != Blocks(runs)[j] {
      var a := RunAt(runs, i);
      var b := RunAt(runs, j);
      BlockAt(runs, a, i - Off(runs, a));
      BlockAt(runs, b, j - Off(runs, b));
      assert a < b ==> Apart(runs[a], runs[b]);
      assert b < a ==> Apart(runs[b], runs[a]);
    }
  }

  // No block of the file is used twice, and none is the index block.
  lemma DataDistinct(runs: seq<Run>)
    requires |runs| > 0 && Proper(runs) && Readable(runs) && AllApart(runs)
    ensures |Blocks(runs)| > 0 && Distinct(Data(runs)) && (|runs| > 3 ==> IndexBlock(runs) !in Data(runs))
  {
    hide Readable;
    BlocksPositive(runs);
    BlocksDistinct(runs);
    if |runs| > 3 {
      ReadableIndex(runs);
      BlockAt(runs, 0, 0);
    }
  }

  lemma ReadableIndex(runs: seq<Run>)
    requires |runs| > 3 && Proper(runs) && Readable(runs)
    ensures IndexBlock(runs) == runs[0].block
  {
  }

  /* The bytes. */

  // Bytes [offset, offset + len) of the file go to the disk from the start of a block.
  datatype Piece = Piece(offset: nat, len: nat, block: nat)

  // Piece i goes to run i, from the start of the part of the file that the run holds.
  predicate PieceOf(runs: seq<Run>, blockSize: nat, i: nat, p: Piece)
    requires i < |runs|
  {
    && p.offset == Off(runs, i) * blockSize && p.block == runs[i].block && 0 < p.len <= runs[i].len * blockSize
  }

  predicate Pieces(runs: seq<Run>, blockSize: nat, ps: seq<Piece>, end: nat) {
    && |ps| <= |runs|
    && (forall i :: 0 <= i < |ps| ==> PieceOf(runs, blockSize, i, ps[i]))
    && (forall i :: 0 <= i < |ps| ==> EndOf(ps[i]) == if i == |ps| - 1 then end else Off(runs, i + 1) * blockSize)
    && (|ps| == 0 ==> end == 0)
  }

  function EndOf(p: Piece): nat {
    p.offset + p.len
  }

  method CreateBackingFile(runs: seq<Run>, blockSize: nat, backingLen: nat) returns (ps: seq<Piece>)
    requires blockSize > 0 && Proper(runs) && forall k :: 0 <= k < |runs| ==> runs[k].len * blockSize < U32
    ensures var all := Off(runs, |runs|) * blockSize;
            Pieces(runs, blockSize, ps, if backingLen < all then backingLen else all)
  {
    ps := [];
    var offset: nat, left: nat, k := 0, backingLen, 0;
    while k < |runs| && left > 0
      invariant 0 <= k <= |runs| && offset + left == backingLen && |ps| == k
      invariant Pieces(runs, blockSize, ps, offset)
      invariant if left > 0 then offset == Off(runs, k) * blockSize else offset <= Off(runs, k) * blockSize
    {
      var size := runs[k].len * blockSize % U32;
      var len := if size < left then size else left;
      SizePositive(runs[k].len, blockSize);
      OffScaled(runs, k, blockSize);
      MorePieces(runs, blockSize, ps, offset, Piece(offset, len, runs[k].block));
      ps := ps + [Piece(offset, len, runs[k].block)];
      offset, left, k := offset + len, left - len, k + 1;
    }
    OffMonotone(runs, k, |runs|);
    Scaled(Off(runs, k), Off(runs, |runs|), blockSize);
  }

  lemma SizePositive(len: nat, blockSize: nat)
    requires len > 0 && blockSize > 0
    ensures len * blockSize > 0
  {
  }

  lemma Scaled(a: nat, b: nat, c: nat)
    requires a <= b
    ensures a * c <= b * c
  {
  }

  lemma OffScaled(runs: seq<Run>, k: nat, blockSize: nat)
    requires k < |runs|
    ensures Off(runs, k + 1) * blockSize == Off(runs, k) * blockSize + runs[k].len * blockSize
  {
    assert Off(runs, k + 1) == Off(runs, k) + runs[k].len;
  }

  lemma MorePieces(runs: seq<Run>, blockSize: nat, ps: seq<Piece>, end: nat, p: Piece)
    requires Pieces(runs, blockSize, ps, end) && |ps| < |runs| && p.offset == end && PieceOf(runs, blockSize, |ps|, p)
    ensures Pieces(runs, blockSize, ps + [p], EndOf(p))
  {
    hide PieceOf, Off;
    var more := ps + [p];
    forall i | 0 <= i < |more|
      ensures EndOf(more[i]) == if i == |more| - 1 then EndOf(p) else Off(runs, i + 1) * blockSize
    {
      if i == |ps| - 1 {
        PieceStart(runs, blockSize, |ps|, p);
      }
    }
  }

  lemma PieceStart(runs: seq<Run>, blockSize: nat, i: nat, p: Piece)
    requires i < |runs| && PieceOf(runs, blockSize, i, p)
    ensures p.offset == Off(runs, i) * blockSize
  {
  }

  // Each byte of the file is queued exactly once, at the place of its block that the list of blocks gives.
  lemma ByteQueuedOnce(runs: seq<Run>, blockSize: nat, ps: seq<Piece>, end: nat, x: nat) returns (i: nat)
    requires Pieces(runs, blockSize, ps, end) && blockSize > 0 && x < end
    ensures i < |ps| && ps[i].offset <= x < EndOf(ps[i])
    ensures forall j :: 0 <= j < |ps| && ps[j].offset <= x < EndOf(ps[j]) ==> j == i
    ensures x / blockSize < |Blocks(runs)|
    ensures ps[i].block * blockSize + (x - ps[i].offset) == Blocks(runs)[x / blockSize] * blockSize + x % blockSize
  {
    hide Blocks, PieceOf;
    i := PieceAt(runs, blockSize, ps, end, x, |ps|);
    forall j | 0 <= j < |ps| && ps[j].offset <= x < EndOf(ps[j]) ensures j == i {
      if j < i {
        PiecesInOrder(runs, blockSize, ps, end, j, i);
      } else if i < j {
        PiecesInOrder(runs, blockSize, ps, end, i, j);
      }
    }
    ByteInPiece(runs, blockSize, i, ps[i], x);
  }

  lemma PiecesInOrder(runs: seq<Run>, blockSize: nat, ps: seq<Piece>, end: nat, i: nat, j: nat)
    requires Pieces(runs, blockSize, ps, end) && i < j < |ps|
    ensures EndOf(ps[i]) <= ps[j].offset
  {
    OffMonotone(runs, i + 1, j);
    Scaled(Off(runs, i + 1), Off(runs, j), blockSize);
    assert PieceOf(runs, blockSize, j, ps[j]);
  }

  lemma {:induction false} PieceAt(runs: seq<Run>, blockSize: nat, ps: seq<Piece>, end: nat, x: nat, n: nat) returns (i: nat)
    requires Pieces(runs, blockSize, ps, end) && 0 < n <= |ps| && x < EndOf(ps[n - 1])
    ensures i < n && ps[i].offset <= x < EndOf(ps[i])
  {
    if ps[n - 1].offset <= x {
      i := n - 1;
    } else {
      assert PieceOf(runs, blockSize, n - 1, ps[n - 1]) && Off(runs, 0) == 0;
      i := PieceAt(runs, blockSize, ps, end, x, n - 1);
    }
  }

  lemma ByteInPiece(runs: seq<Run>, blockSize: nat, i: nat, p: Piece, x: nat)
    requires blockSize > 0 && i < |runs| && PieceOf(runs, blockSize, i, p) && p.offset <= x < EndOf(p)
    ensures x / blockSize < |Blocks(runs)|
    ensures p.block * blockSize + (x - p.offset) == Blocks(runs)[x / blockSize] * blockSize + x % blockSize
  {
    hide Blocks;
    var y := x - p.offset;
    var q, r := y / blockSize, y % blockSize;
    WithinRun(y, runs[i].len, blockSize);
    BlockAt(runs, i, q);
    Shifted(x, Off(runs, i), y, blockSize);
    Distributes(p.block, q, blockSize);
  }

  lemma WithinRun(y: nat, len: nat, blockSize: nat)
    requires blockSize > 0 && y < len * blockSize
    ensures y / blockSize < len
  {
    var q := y / blockSize;
    assert y == q * blockSize + y % blockSize;
    if q >= len {
      Scaled(len, q, blockSize);
    }
  }

  lemma Shifted(x: nat, off: nat, y: nat, blockSize: nat)
    requires blockSize > 0 && x == off * blockSize + y
    ensures x / blockSize == off + y / blockSize && x % blockSize == y % blockSize
  {
    var q, r := y / blockSize, y % blockSize;
    assert y == q * blockSize + r;
    Distributes(off, q, blockSize);
    Arith.QuotientUnique(x, blockSize, off + q, r);
  }

  lemma Distributes(a: nat, b: nat, c: nat)
    ensures (a + b) * c == a * c + b * c
  {
  }
}
