/**
 A file from its length to its blocks (ext4_utils/extent.c): the allocator hands out regions, the writer
 describes them and queues the bytes, and the reader of ext4_utils/ext4fixup.c gets the blocks back.
 */
module FileExtents {
  import opened BlockPool
  import opened BlockGreedy
  import BlockStack
  import opened BlockFill
  import opened BlockReduce
  import opened Allocators
  import opened Options
  import opened Extents
  import opened ExtentTrip
  import EB = ExtentBacking
  import Arith

  // Groups of 8 * blockSize blocks, each with a header, in a filesystem whose blocks have 32-bit numbers.
  predicate Formatted(gs: seq<Group>, blockSize: nat, firstData: nat) {
    && (forall i :: 0 <= i < |gs| ==> |gs[i].bits| == 8 * blockSize && gs[i].header > 0)
    && firstData + |gs| * (8 * blockSize) <= U32
  }

  // The regions, counted from the start of the filesystem.
  function Runs(rs: seq<Region>, firstData: nat, blockSize: nat): (runs: seq<Run>)
    ensures |runs| == |rs|
    ensures forall k :: 0 <= k < |rs| ==> runs[k] == EB.Absolute(rs[k], firstData, 8 * blockSize)
  {
    seq(|rs|, k requires 0 <= k < |rs| => EB.Absolute(rs[k], firstData, 8 * blockSize))
  }

  lemma RunPlaced(gs: seq<Group>, live: set<Region>, r: Region, firstData: nat, blockSize: nat)
    requires PoolOk(gs, live) && r in live && Formatted(gs, blockSize, firstData)
    ensures r.len > 0 && r.block + r.len <= 8 * blockSize
    ensures var run := EB.Absolute(r, firstData, 8 * blockSize); run.block > 0 && run.block + run.len <= U32
  {
    hide PoolOk;
    InGroup(gs, live, r);
    Arith.MulStep(8 * blockSize, r.bg, |gs|);
  }

  lemma InGroup(gs: seq<Group>, live: set<Region>, r: Region)
    requires PoolOk(gs, live) && r in live
    ensures r.bg < |gs| && r.len > 0 && gs[r.bg].header <= r.block && r.block + r.len <= |gs[r.bg].bits|
  {
    hide Apart, AllAre, Within;
    assert RegionOk(gs, r) && GroupOk(gs[r.bg]);
    LiveAvoidsHeaders(gs, live, r);
  }

  // What the allocator hands out for a request is fit to be described.
  lemma FilledRuns(gs0: seq<Group>, live0: set<Region>, n: nat, gs: seq<Group>, live: set<Region>, rs: seq<Region>,
                   firstData: nat, blockSize: nat)
    requires Filling(gs0, live0, n, gs, live, rs, 0) && Formatted(gs0, blockSize, firstData)
    ensures Proper(Runs(rs, firstData, blockSize)) && EB.AllApart(Runs(rs, firstData, blockSize))
    ensures forall k :: 0 <= k < |rs| ==> rs[k].len <= 8 * blockSize
  {
    hide PoolOk, Accounts, HolesEndAll, Saves, NoneLonger, SortedAll, BlockStack.Piled, Disjoint, InHole;
    assert Formatted(gs, blockSize, firstData) by {
      forall i | 0 <= i < |gs| ensures |gs[i].bits| == 8 * blockSize && gs[i].header > 0 {
        assert MarkedGroup(gs0[i], gs[i], rs, i);
      }
    }
    var runs := Runs(rs, firstData, blockSize);
    forall k | 0 <= k < |rs|
      ensures runs[k].len > 0 && runs[k].block > 0 && runs[k].block + runs[k].len <= U32
      ensures rs[k].block + rs[k].len <= 8 * blockSize
    {
      assert rs[k] in SetOf(rs);
      RunPlaced(gs, live, rs[k], firstData, blockSize);
    }
    forall j, k | 0 <= j < k < |rs| ensures EB.Apart(runs[j], runs[k]) {
      assert Disjoint(rs[j], rs[k]);
      EB.AbsoluteApart(rs[j], rs[k], firstData, 8 * blockSize);
    }
  }

  lemma {:induction false} RunsLength(rs: seq<Region>, firstData: nat, blockSize: nat)
    ensures |Blocks(Runs(rs, firstData, blockSize))| == Length(rs)
  {
    if |rs| > 0 {
      var n := |rs| - 1;
      RunsLength(rs[..n], firstData, blockSize);
      assert Runs(rs, firstData, blockSize)[..n] == Runs(rs[..n], firstData, blockSize);
    }
  }

  /* Giving back a block: the groups and the list agree. */

  lemma {:induction false} LengthPrefix(rs: seq<Region>, k: nat)
    requires k <= |rs|
    ensures Length(rs[..k]) <= Length(rs)
    decreases |rs|
  {
    if k < |rs| {
      LengthPrefix(rs[..|rs| - 1], k);
      assert rs[..|rs| - 1][..k] == rs[..k];
    } else {
      assert rs[..k] == rs;
    }
  }

  // A shortened allocation is told by its length.
  lemma ShortenedUnique(rs: seq<Region>, a: seq<Region>, b: seq<Region>)
    requires Shortened(rs, a) && Shortened(rs, b) && Length(a) == Length(b)
    ensures a == b
  {
    if |a| < |b| {
      ShortenedLess(rs, a, b);
    } else if |b| < |a| {
      ShortenedLess(rs, b, a);
    } else if |a| > 0 {
      var n := |a| - 1;
      assert a[..n] == b[..n];
      assert Shorter(rs[n], a[n]) && Shorter(rs[n], b[n]);
    }
  }

  lemma ShortenedLess(rs: seq<Region>, a: seq<Region>, b: seq<Region>)
    requires Shortened(rs, a) && Shortened(rs, b) && |a| < |b|
    ensures Length(a) < Length(b)
  {
    var n := |a|;
    LengthPrefix(b, n + 1);
    assert b[..n + 1][..n] == b[..n] && Shorter(rs[n], b[n]);
    if n > 0 {
      assert a[..n - 1] == b[..n][..n - 1] && Shorter(rs[n - 1], a[n - 1]);
    }
  }

  // Giving back one block of the list.
  lemma CutRuns(rs: seq<Region>, firstData: nat, blockSize: nat)
    requires |rs| > 0 && rs[|rs| - 1].len > 0
    ensures Runs(Cut(rs, 1), firstData, blockSize) == DropLast(Runs(rs, firstData, blockSize))
  {
  }

  lemma SameReduction(gs0: seq<Group>, live0: set<Region>, rs: seq<Region>, gs: seq<Group>, live: set<Region>,
                      rest: seq<Region>)
    requires Reducing(gs0, live0, rs, gs, live, rest) && Length(rest) + 1 == Length(rs) && |rs| > 0
    ensures rs[|rs| - 1].len > 0 && rest == Cut(rs, 1)
  {
    hide PoolOk, Unmarked, TotalFree, Length;
    assert rs[|rs| - 1].len > 0;
    assert Shortened(rs, rs);
    CutShortens(rs, rs, 1);
    CutLength(rs, 1);
    ShortenedUnique(rs, rest, Cut(rs, 1));
  }

  /* A whole file. */

  function BlocksOf(len: nat, blockSize: nat): nat
    requires blockSize > 0
  {
    (len + blockSize - 1) / blockSize
  }

  // The regions that stay allocated: with at most three, the spare block is given back.
  function Held(rs: seq<Region>): seq<Region>
    requires |rs| > 0 && rs[|rs| - 1].len > 0
  {
    if |rs| <= 3 then Cut(rs, 1) else rs
  }

  // Overruns: the entries do not fit the extent block, but are too few to be turned down.
  datatype Placement =
    | NoSpace
    | TooManyRegions
    | Overruns
    | Placed(written: Written, kept: seq<Run>, pieces: seq<EB.Piece>)

  // Byte x of the file is queued once, for byte `place` of the disk.
  predicate QueuedOnce(ps: seq<EB.Piece>, blockSize: nat, x: nat, place: nat) {
    && (exists i :: 0 <= i < |ps| && Queues(ps[i], x) && ps[i].block * blockSize + (x - ps[i].offset) == place)
    && forall i, j :: 0 <= i < |ps| && 0 <= j < |ps| && Queues(ps[i], x) && Queues(ps[j], x) ==> i == j
  }

  predicate Queues(p: EB.Piece, x: nat) {
    p.offset <= x < EB.EndOf(p)
  }

  // Every byte of the file is queued for the block that the list of its blocks gives.
  predicate AllQueued(ps: seq<EB.Piece>, blockSize: nat, len: nat, blocks: seq<nat>)
    requires blockSize > 0
  {
    forall x :: 0 <= x < len ==>
                  x / blockSize < |blocks| && QueuedOnce(ps, blockSize, x, blocks[x / blockSize] * blockSize + x % blockSize)
  }

  lemma PiecesQueue(kept: seq<Run>, blockSize: nat, ps: seq<EB.Piece>, len: nat)
    requires blockSize > 0 && EB.Pieces(kept, blockSize, ps, len)
    ensures AllQueued(ps, blockSize, len, Blocks(kept))
  {
    hide EB.Pieces, Blocks;
    forall x | 0 <= x < len
      ensures x / blockSize < |Blocks(kept)|
              && QueuedOnce(ps, blockSize, x, Blocks(kept)[x / blockSize] * blockSize + x % blockSize)
    {
      var i := EB.ByteQueuedOnce(kept, blockSize, ps, len, x);
      assert Queues(ps[i], x);
    }
  }

  // The least number of blocks that holds the bytes.
  lemma EnoughBlocks(len: nat, blockSize: nat)
    requires blockSize > 0
    ensures len <= BlocksOf(len, blockSize) * blockSize < len + blockSize
  {
    var q := BlocksOf(len, blockSize);
    assert len + blockSize - 1 == q * blockSize + (len + blockSize - 1) % blockSize;
  }

  lemma SmallRun(len: nat, blockSize: nat)
    requires len <= 8 * blockSize && blockSize <= 16384
    ensures len * blockSize < U32
  {
    EB.Scaled(len, 8 * blockSize, blockSize);
    EB.Scaled(blockSize, 16384, 8 * blockSize);
    assert 8 * blockSize * blockSize == blockSize * (8 * blockSize);
  }

  // What stays the file's is as fit to be described as what was handed out.
  lemma KeptProper(runs: seq<Run>, most: nat)
    requires |runs| > 0 && Proper(runs) && forall k :: 0 <= k < |runs| ==> runs[k].len <= most
    ensures Proper(Kept(runs)) && forall k :: 0 <= k < |Kept(runs)| ==> Kept(runs)[k].len <= most
  {
  }

  // With regions shorter than 2^16 blocks only the first region decides whether the file reads back.
  lemma ReadableIff(runs: seq<Run>, most: nat)
    requires |runs| > 0 && Proper(runs) && most < U16 && forall k :: 0 <= k < |runs| ==> runs[k].len <= most
    ensures Readable(runs) <==> |runs| <= 3 || runs[0].len > 1
  {
    KeptProper(runs, most);
  }

  // How the file lies on the disk and in the groups, `n` blocks and the spare one.
  ghost predicate Lies(gs0: seq<Group>, live0: set<Region>, gs: seq<Group>, live: set<Region>, rs: seq<Region>, n: nat,
                       firstData: nat, blockSize: nat)
  {
    && SortedAll(gs0) && Fewest(gs0, rs, n + 1) && |rs| > 0 && rs[|rs| - 1].len > 0
    && live == live0 + SetOf(Held(rs)) && TotalFree(gs) + Length(Held(rs)) == TotalFree(gs0)
    && Length(Held(rs)) == (if |rs| <= 3 then n else n + 1)
    && Described(rs, n, firstData, blockSize)
  }

  ghost predicate Described(rs: seq<Region>, n: nat, firstData: nat, blockSize: nat) {
    var runs := Runs(rs, firstData, blockSize);
    && Proper(runs) && EB.AllApart(runs) && |Blocks(runs)| == n + 1
    && forall k :: 0 <= k < |runs| ==> runs[k].len <= 8 * blockSize
  }

  // A request that was filled: regions that are live and differ, with as many blocks as asked for.
  lemma FilledLive(gs0: seq<Group>, live0: set<Region>, n: nat, gs: seq<Group>, live: set<Region>, rs: seq<Region>)
    requires Filling(gs0, live0, n, gs, live, rs, 0) && n > 0
    ensures |rs| > 0 && rs[|rs| - 1].len > 0 && Length(rs) == n && TotalFree(gs) + n == TotalFree(gs0)
    ensures live == live0 + SetOf(rs) && live - SetOf(rs) == live0
    ensures (forall k :: 0 <= k < |rs| ==> rs[k] in live) && forall j, k :: 0 <= j < k < |rs| ==> rs[j] != rs[k]
  {
    hide PoolOk, HolesEndAll, Marked, Saves, NoneLonger, SortedAll, BlockStack.Piled;
    assert Length([]) == 0;
    FilledAreNew(gs0, live0, rs);
    forall k | 0 <= k < |rs| ensures rs[k] in live && rs[k].len > 0 {
      assert InHole(gs0, rs[k]) && rs[k] in SetOf(rs);
    }
    forall j, k | 0 <= j < k < |rs| ensures rs[j] != rs[k] {
      assert Disjoint(rs[j], rs[k]) && rs[j] in live;
    }
  }

  lemma LiesFilled(gs0: seq<Group>, live0: set<Region>, gs: seq<Group>, live: set<Region>, rs: seq<Region>, n: nat,
                   firstData: nat, blockSize: nat)
    requires Filling(gs0, live0, n + 1, gs, live, rs, 0) && SortedAll(gs0) && Fewest(gs0, rs, n + 1) && |rs| > 3
    requires Formatted(gs0, blockSize, firstData)
    ensures Lies(gs0, live0, gs, live, rs, n, firstData, blockSize)
  {
    hide Filling, Fewest, SortedAll, Formatted, Proper, EB.AllApart, Length, TotalFree, Blocks;
    FilledLive(gs0, live0, n + 1, gs, live, rs);
    FilledRuns(gs0, live0, n + 1, gs, live, rs, firstData, blockSize);
    RunsLength(rs, firstData, blockSize);
  }

  lemma LiesReduced(gs0: seq<Group>, live0: set<Region>, gs1: seq<Group>, live1: set<Region>, gs: seq<Group>,
                    live: set<Region>, rs: seq<Region>, rest: seq<Region>, n: nat, firstData: nat, blockSize: nat)
    requires Filling(gs0, live0, n + 1, gs1, live1, rs, 0) && SortedAll(gs0) && Fewest(gs0, rs, n + 1) && |rs| <= 3
    requires Reducing(gs1, live1, rs, gs, live, rest) && Length(rest) + 1 == Length(rs)
    requires Formatted(gs0, blockSize, firstData)
    ensures Lies(gs0, live0, gs, live, rs, n, firstData, blockSize)
  {
    hide Filling, Fewest, SortedAll, Formatted, Proper, EB.AllApart, Length, TotalFree, Blocks, PoolOk, Owned, Shortened,
         Unmarked, Cut, DropLast;
    FilledLive(gs0, live0, n + 1, gs1, live1, rs);
    FilledRuns(gs0, live0, n + 1, gs1, live1, rs, firstData, blockSize);
    RunsLength(rs, firstData, blockSize);
    SameReduction(gs1, live1, rs, gs, live, rest);
  }

  // The extents are those of the regions. If they can be read back, every byte of the file is queued once, for
  // its block, and the blocks are distinct and none of them the index block.
  ghost predicate PlacedOk(r: Placement, rs: seq<Region>, len: nat, firstData: nat, blockSize: nat)
    requires r.Placed? && blockSize > 0
  {
    var runs := Runs(rs, firstData, blockSize);
    && Fits(runs, blockSize) && r.written == Layout(runs, blockSize) && r.kept == Kept(runs)
    && |Blocks(runs)| == BlocksOf(len, blockSize) + 1
    && (|rs| <= 3 ==> rs[|rs| - 1].len > 0 && r.kept == Runs(Held(rs), firstData, blockSize))
    && (8 * blockSize < U16 ==> (Readable(runs) <==> |rs| <= 3 || rs[0].len > 1))
    && (Readable(runs) ==>
          && Blocks(r.kept) == Data(runs) && AllQueued(r.pieces, blockSize, len, Data(runs))
          && EB.Distinct(Data(runs)) && (|rs| > 3 ==> IndexBlock(runs) !in Data(runs)))
  }

  lemma ReadyToQueue(rs: seq<Region>, n: nat, firstData: nat, blockSize: nat)
    requires Described(rs, n, firstData, blockSize) && |rs| > 0 && blockSize <= 16384
    ensures var kept := Kept(Runs(rs, firstData, blockSize));
            Proper(kept) && forall k :: 0 <= k < |kept| ==> kept[k].len * blockSize < U32
  {
    hide Kept, Proper, EB.AllApart, Blocks;
    var runs := Runs(rs, firstData, blockSize);
    KeptProper(runs, 8 * blockSize);
    forall k | 0 <= k < |Kept(runs)| ensures Kept(runs)[k].len * blockSize < U32 {
      SmallRun(Kept(runs)[k].len, blockSize);
    }
  }

  lemma PlacedHolds(rs: seq<Region>, len: nat, firstData: nat, blockSize: nat, ps: seq<EB.Piece>)
    requires blockSize >= 60 && |rs| > 0 && (|rs| <= 3 || |rs| <= Room(blockSize))
    requires Described(rs, BlocksOf(len, blockSize), firstData, blockSize)
    requires var kept := Kept(Runs(rs, firstData, blockSize)); var all := Off(kept, |kept|) * blockSize;
             EB.Pieces(kept, blockSize, ps, if len < all then len else all)
    ensures var runs := Runs(rs, firstData, blockSize);
            Fits(runs, blockSize) && PlacedOk(Placed(Layout(runs, blockSize), Kept(runs), ps), rs, len, firstData, blockSize)
  {
    hide Kept, Layout, Proper, EB.AllApart, EB.Pieces, Blocks, Off, Data, EB.Distinct, Readable, AllQueued;
    var runs := Runs(rs, firstData, blockSize);
    KeptHeld(rs, firstData, blockSize);
    if 8 * blockSize < U16 {
      ReadableIff(runs, 8 * blockSize);
    }
    if Readable(runs) {
      ReadableShort(runs);
      KeptIsData(runs);
      OffAll(Kept(runs));
      EnoughBlocks(len, blockSize);
      PiecesQueue(Kept(runs), blockSize, ps, len);
      EB.DataDistinct(runs);
    }
  }

  // What the writer keeps on its list is what stays allocated.
  lemma KeptHeld(rs: seq<Region>, firstData: nat, blockSize: nat)
    requires |rs| > 0 && Proper(Runs(rs, firstData, blockSize))
    ensures rs[|rs| - 1].len > 0
    ensures |rs| <= 3 ==> Kept(Runs(rs, firstData, blockSize)) == Runs(Held(rs), firstData, blockSize)
  {
    var runs := Runs(rs, firstData, blockSize);
    assert runs[|rs| - 1].len > 0;
    if |rs| <= 3 {
      CutRuns(rs, firstData, blockSize);
    }
  }

  lemma ReadableShort(runs: seq<Run>)
    requires |runs| > 0 && Proper(runs) && Readable(runs)
    ensures |runs| <= 3 || runs[0].len > 1
  {
  }

  lemma LiesDescribed(gs0: seq<Group>, live0: set<Region>, gs: seq<Group>, live: set<Region>, rs: seq<Region>, n: nat,
                      firstData: nat, blockSize: nat)
    requires Lies(gs0, live0, gs, live, rs, n, firstData, blockSize)
    ensures |rs| > 0 && Described(rs, n, firstData, blockSize)
  {
  }

  // Allocates n blocks and a spare one, and gives the spare one back unless it is needed for the extents.
  method TakeBlocks(a: Allocator, n: nat, blockSize: nat, firstData: nat) returns (r: Option<seq<Region>>)
    requires a.Valid() && Formatted(Views(a.groups), blockSize, firstData)
    modifies a`live, a.groups, set g | g in a.groups :: g.bitmap
    ensures a.Valid() && SortedAll(old(Views(a.groups)))
    ensures r.Some? <==> n + 1 <= Sum(Sizes(old(Views(a.groups))))
    ensures r.Some? ==> Lies(old(Views(a.groups)), old(a.live), Views(a.groups), a.live, r.value, n, firstData, blockSize)
  {
    hide *;
    ghost var gs0, live0 := Views(a.groups), a.live;
    r := a.AllocateBlocks(n + 1);
    if r.None? {
      return;
    }
    var rs := r.value;
    ghost var gs1, live1 := Views(a.groups), a.live;
    FilledLive(gs0, live0, n + 1, gs1, live1, rs);
    if |rs| <= 3 {
      var rest := a.ReduceAllocation(rs, 1);
      LiesReduced(gs0, live0, gs1, live1, Views(a.groups), a.live, rs, rest, n, firstData, blockSize);
    } else {
      LiesFilled(gs0, live0, gs1, live1, rs, n, firstData, blockSize);
    }
  }

  // Describes the regions of a file of `len` bytes, and queues its bytes.
  method Describe(rs: seq<Region>, len: nat, blockSize: nat, firstData: nat) returns (r: Placement)
    requires 60 <= blockSize <= 16384 && |rs| > 0 && Described(rs, BlocksOf(len, blockSize), firstData, blockSize)
    ensures !r.NoSpace? && (r.TooManyRegions? <==> |rs| > blockSize - 1)
    ensures r.Overruns? <==> Room(blockSize) < |rs| <= blockSize - 1
    ensures r.Placed? ==> PlacedOk(r, rs, len, firstData, blockSize)
  {
    hide *;
    RoomForThree(blockSize);
    if Room(blockSize) < |rs| <= blockSize - 1 {
      return Overruns;
    }
    DescribedProper(rs, BlocksOf(len, blockSize), firstData, blockSize);
    var alloc := new Allocation(Runs(rs, firstData, blockSize));
    ghost var runs := alloc.list;
    var w := alloc.WriteExtents(blockSize);
    LayoutTooBig(runs, blockSize);
    if w == TooBig {
      return TooManyRegions;
    }
    ReadyToQueue(rs, BlocksOf(len, blockSize), firstData, blockSize);
    var ps := EB.CreateBackingFile(alloc.list, blockSize, len);
    PlacedHolds(rs, len, firstData, blockSize, ps);
    return Placed(w, alloc.list, ps);
  }

  lemma DescribedProper(rs: seq<Region>, n: nat, firstData: nat, blockSize: nat)
    requires Described(rs, n, firstData, blockSize)
    ensures Proper(Runs(rs, firstData, blockSize))
  {
  }

  // Allocates a file of `len` bytes, describes it, and queues its bytes.
  method AllocateFile(a: Allocator, len: nat, blockSize: nat, firstData: nat) returns (r: Placement, rs: seq<Region>)
    requires a.Valid() && 60 <= blockSize <= 16384 && Formatted(Views(a.groups), blockSize, firstData)
    modifies a`live, a.groups, set g | g in a.groups :: g.bitmap
    ensures a.Valid() && SortedAll(old(Views(a.groups)))
    ensures r.NoSpace? <==> BlocksOf(len, blockSize) + 1 > Sum(Sizes(old(Views(a.groups))))
    ensures !r.NoSpace? ==>
              && Lies(old(Views(a.groups)), old(a.live), Views(a.groups), a.live, rs, BlocksOf(len, blockSize), firstData,
                      blockSize)
              && (r.TooManyRegions? <==> |rs| > blockSize - 1)
              && (r.Overruns? <==> Room(blockSize) < |rs| <= blockSize - 1)
    ensures r.Placed? ==> PlacedOk(r, rs, len, firstData, blockSize)
  {
    hide *;
    var q := TakeBlocks(a, BlocksOf(len, blockSize), blockSize, firstData);
    if q.None? {
      return NoSpace, [];
    }
    rs := q.value;
    LiesDescribed(old(Views(a.groups)), old(a.live), Views(a.groups), a.live, rs, BlocksOf(len, blockSize), firstData,
                  blockSize);
    r := Describe(rs, len, blockSize, firstData);
  }

  lemma RoomForThree(blockSize: nat)
    requires blockSize >= 60
    ensures 4 <= Room(blockSize) < blockSize - 1
  {
  }

  lemma LayoutTooBig(runs: seq<Run>, blockSize: nat)
    requires blockSize >= 60 && |runs| > 0 && Proper(runs) && (|runs| <= Room(blockSize) || |runs| > blockSize - 1)
    ensures Layout(runs, blockSize) == TooBig <==> |runs| > blockSize - 1
  {
    hide Kept, ExtentsOf, Zeros;
    RoomForThree(blockSize);
  }

  // Allocates a file and reads its list of blocks back from the disk.
  method WriteThenRead(a: Allocator, len: nat, blockSize: nat, firstData: nat, disk: map<nat, Node>)
    returns (r: Placement, rs: seq<Region>, list: array<nat>)
    requires a.Valid() && 60 <= blockSize <= 16384 && Formatted(Views(a.groups), blockSize, firstData)
    modifies a`live, a.groups, set g | g in a.groups :: g.bitmap
    ensures a.Valid() && fresh(list) && list.Length == BlocksOf(len, blockSize)
    ensures !r.NoSpace? ==>
              Lies(old(Views(a.groups)), old(a.live), Views(a.groups), a.live, rs, BlocksOf(len, blockSize), firstData,
                   blockSize)
    ensures r.Placed? ==>
              && PlacedOk(r, rs, len, firstData, blockSize)
              && |rs| > 0 && Proper(Runs(rs, firstData, blockSize)) && |Blocks(Runs(rs, firstData, blockSize))| > 0
    ensures r.Placed? && Readable(Runs(rs, firstData, blockSize)) ==>
              && list[..] == Data(Runs(rs, firstData, blockSize)) && EB.Distinct(list[..])
              && (r.written.Indexed? ==> r.written.block !in list[..])
              && AllQueued(r.pieces, blockSize, len, list[..])
  {
    hide *;
    r, rs := AllocateFile(a, len, blockSize, firstData);
    list := new nat[BlocksOf(len, blockSize)];
    if r.Placed? {
      PlacedReads(disk, r, rs, len, firstData, blockSize, list[..]);
      var ok := GetBlockList(DiskWith(disk, r.written), r.written.inode, list);
    }
  }

  lemma PlacedReads(disk: map<nat, Node>, r: Placement, rs: seq<Region>, len: nat, firstData: nat, blockSize: nat,
                    list: seq<nat>)
    requires r.Placed? && blockSize > 0 && PlacedOk(r, rs, len, firstData, blockSize) && |list| == BlocksOf(len, blockSize)
    ensures r.written != TooBig && r.written.inode.magic == MAGIC
    ensures TreeOk(DiskWith(disk, r.written), r.written.inode, |list|)
    ensures |rs| > 0 && Proper(Runs(rs, firstData, blockSize)) && |Blocks(Runs(rs, firstData, blockSize))| > 0
    ensures Readable(Runs(rs, firstData, blockSize)) ==>
              && Read(DiskWith(disk, r.written), r.written.inode, list) == Data(Runs(rs, firstData, blockSize))
              && EB.Distinct(Data(Runs(rs, firstData, blockSize)))
              && (r.written.Indexed? ==> r.written.block !in Data(Runs(rs, firstData, blockSize)))
              && AllQueued(r.pieces, blockSize, len, Data(Runs(rs, firstData, blockSize)))
  {
    hide TreeOk, ReadFirst, Readable, AllQueued, EB.Distinct, Data, Blocks, Kept, ExtentsOf, Zeros, ReadsBack, Proper,
         BlocksOf;
    var runs := Runs(rs, firstData, blockSize);
    KeptFits(runs);
    LayoutReads(disk, runs, blockSize, list);
    if Readable(runs) {
      ReadsBackIff(disk, runs, blockSize);
      BackIs(disk, runs, blockSize, list);
    }
  }

  // The blocks that stay the file's are at most as many as the file is to have.
  lemma KeptFits(runs: seq<Run>)
    requires |runs| > 0 && Proper(runs)
    ensures |Blocks(runs)| > 0 && Off(Kept(runs), |Kept(runs)|) < |Blocks(runs)|
  {
    hide Blocks, Off;
    BlocksPositive(runs);
    OffAll(Kept(runs));
    if |runs| <= 3 || runs[0].len > 1 {
      KeptIsData(runs);
    } else {
      BlocksOne(runs[0]);
      assert Kept(runs) == [runs[0]];
    }
  }

  lemma BackIs(disk: map<nat, Node>, runs: seq<Run>, blockSize: nat, list: seq<nat>)
    requires Fits(runs, blockSize) && |Blocks(runs)| > 0 && ReadsBack(disk, runs, blockSize) && |list| == |Data(runs)|
    ensures var w := Layout(runs, blockSize);
            w != TooBig && TreeOk(DiskWith(disk, w), w.inode, |list|) && Read(DiskWith(disk, w), w.inode, list) == Data(runs)
  {
  }
}
