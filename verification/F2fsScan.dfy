/**
 The scan for used blocks of f2fs_utils/f2fs_sparseblock.c.
 */
module F2fsScan {
  import Arith
  import opened Bits

  // Entries of the segment information table in a block of it: 4096 / 74.
  const PER_BLOCK := 55

  // What is known of a segment: how many of its blocks are valid, and which.
  datatype Entry = Entry(valid: nat, map_: seq<bv8>)

  datatype Info = Info(total: nat, main: nat, perSegment: nat, journal: seq<(nat, Entry)>, sit: seq<seq<Entry>>)

  // Bits are counted from the highest of each byte.
  predicate TestBit(nr: nat, bytes: seq<bv8>)
    requires nr < 8 * |bytes|
  {
    BitOf(bytes[nr / 8], 7 - nr % 8)
  }

  // Bit nr is the binary digit of weight 2^(7 - nr mod 8) of byte nr / 8.
  lemma TestBitIsDigit(nr: nat, bytes: seq<bv8>)
    requires nr < 8 * |bytes|
    ensures TestBit(nr, bytes) <==> bytes[nr / 8] as nat / Pow2(7 - nr % 8) % 2 == 1
  {
    hide BitOf, Pow2;
    BitIsDigit(bytes[nr / 8], 7 - nr % 8);
  }

  function Segment(info: Info, block: nat): nat
    requires block >= info.main && info.perSegment > 0
  {
    (block - info.main) / info.perSegment
  }

  function Offset(info: Info, block: nat): nat
    requires block >= info.main && info.perSegment > 0
  {
    (block - info.main) % info.perSegment
  }

  predicate Covers(info: Info, e: Entry) {
    info.perSegment <= 8 * |e.map_|
  }

  // Maps are long enough, and the table has an entry for every segment.
  predicate Sound(info: Info) {
    && info.perSegment > 0
    && (forall i :: 0 <= i < |info.journal| ==> Covers(info, info.journal[i].1))
    && (forall i :: 0 <= i < |info.sit| ==>
          |info.sit[i]| == PER_BLOCK && forall k :: 0 <= k < PER_BLOCK ==> Covers(info, info.sit[i][k]))
    && (forall b :: info.main <= b < info.total ==> Segment(info, b) / PER_BLOCK < |info.sit|)
  }

  // The first place of a segment in the journal, or its length.
  function FirstIn(journal: seq<(nat, Entry)>, segment: nat): (r: nat)
    ensures r <= |journal| && (forall i :: 0 <= i < r ==> journal[i].0 != segment)
    ensures r < |journal| ==> journal[r].0 == segment
  {
    if |journal| == 0 || journal[0].0 == segment then 0 else 1 + FirstIn(journal[1..], segment)
  }

  // The journal overrides the table.
  function EntryOf(info: Info, block: nat): (e: Entry)
    requires Sound(info) && info.main <= block < info.total
    ensures Covers(info, e)
  {
    var s := Segment(info, block);
    var i := FirstIn(info.journal, s);
    assert s / PER_BLOCK < |info.sit| && |info.sit[s / PER_BLOCK]| == PER_BLOCK;
    if i < |info.journal| then info.journal[i].1 else info.sit[s / PER_BLOCK][s % PER_BLOCK]
  }

  // The blocks a backup needs: all metadata, and the valid blocks of the main area.
  predicate Used(info: Info, block: nat)
    requires Sound(info) && block < info.total
  {
    block < info.main || TestBit(Offset(info, block), EntryOf(info, block).map_)
  }

  // The entry of segment s is the first one the journal has for it, or else the one of the table.
  ghost predicate IsEntry(info: Info, s: nat, e: Entry) {
    if exists i :: 0 <= i < |info.journal| && info.journal[i].0 == s
    then exists i :: 0 <= i < |info.journal| && info.journal[i] == (s, e)
                     && forall j :: 0 <= j < i ==> info.journal[j].0 != s
    else s / 55 < |info.sit| && s % 55 < |info.sit[s / 55]| && e == info.sit[s / 55][s % 55]
  }

  lemma EntryMeans(info: Info, block: nat, e: Entry)
    requires Sound(info) && info.main <= block < info.total && IsEntry(info, Segment(info, block), e)
    ensures EntryOf(info, block) == e
  {
    hide Sound, Covers, Segment;
  }

  // Block o of segment s.
  lemma UsedMeans(info: Info, s: nat, o: nat, e: Entry)
    requires Sound(info) && o < info.perSegment && info.main + s * info.perSegment + o < info.total
    requires IsEntry(info, s, e)
    ensures o < 8 * |e.map_|
    ensures Used(info, info.main + s * info.perSegment + o) <==> e.map_[o / 8] as nat / Pow2(7 - o % 8) % 2 == 1
  {
    hide TestBit, Pow2, Sound, EntryOf, IsEntry;
    var block := info.main + s * info.perSegment + o;
    Arith.QuotientUnique(block - info.main, info.perSegment, s, o);
    EntryMeans(info, block, e);
    TestBitIsDigit(o, e.map_);
  }

  type Callback = (seq<nat>, nat) -> bool

  // One block after the other. The callback, which may look at what it was called on so far, says whether it fails.
  function Naive(info: Info, fails: Callback, block: nat, calls: seq<nat>): (seq<nat>, bool)
    requires Sound(info)
    decreases info.total - block
  {
    if block >= info.total then (calls, true)
    else if !Used(info, block) then Naive(info, fails, block + 1, calls)
    else if fails(calls, block) then (calls + [block], false)
    else Naive(info, fails, block + 1, calls + [block])
  }

  // A block of a segment that is passed over as a whole.
  predicate Skipped(info: Info, start: nat, block: nat)
    requires Sound(info) && block < info.total
  {
    block >= info.main && block - Offset(info, block) >= start && EntryOf(info, block).valid == 0
  }

  // Segments that are passed over have no valid block.
  predicate Consistent(info: Info, start: nat)
    requires Sound(info)
  {
    forall b :: start <= b < info.total && Skipped(info, start, b) ==> !Used(info, b)
  }

  predicate Ascending(s: seq<nat>) {
    forall i, j :: 0 <= i < j < |s| ==> s[i] < s[j]
  }

  // The calls are on the used blocks from start up to end that are not passed over.
  predicate CallsOn(info: Info, start: nat, end: nat, calls: seq<nat>)
    requires Sound(info) && end <= info.total
  {
    && (forall i :: 0 <= i < |calls| ==> start <= calls[i] < end && Used(info, calls[i]) && !Skipped(info, start, calls[i]))
    && (forall b :: start <= b < end && Used(info, b) && !Skipped(info, start, b) ==> b in calls)
  }

  lemma {:induction false} NaiveSkip(info: Info, fails: Callback, block: nat, end: nat, calls: seq<nat>)
    requires Sound(info) && block <= end && forall b :: block <= b < end && b < info.total ==> !Used(info, b)
    ensures Naive(info, fails, block, calls) == Naive(info, fails, end, calls)
    decreases end - block
  {
    if block < end && block < info.total {
      NaiveSkip(info, fails, block + 1, end, calls);
    }
  }

  // The blocks of the segment that starts at a block.
  lemma InSegment(info: Info, block: nat, b: nat)
    requires info.perSegment > 0 && info.main <= block <= b < block + info.perSegment && Offset(info, block) == 0
    ensures Segment(info, b) == Segment(info, block) && b - Offset(info, b) == block
  {
    var x, d := block - info.main, info.perSegment;
    assert x == d * (x / d);
    Arith.QuotientUnique(b - info.main, d, x / d, b - block);
  }

  lemma NextSegment(info: Info, block: nat)
    requires info.perSegment > 0 && info.main <= block && Offset(info, block) == 0
    ensures Offset(info, block + info.perSegment) == 0
  {
    var x, d := block - info.main, info.perSegment;
    assert x == d * (x / d);
    assert x + d == d * (x / d + 1);
    Arith.QuotientUnique(x + d, d, x / d + 1, 0);
  }

  lemma NextBlock(info: Info, block: nat)
    requires info.perSegment > 0 && info.main <= block && Offset(info, block + 1) > 0
    ensures Segment(info, block + 1) == Segment(info, block)
    ensures block + 1 - Offset(info, block + 1) == block - Offset(info, block)
  {
    var x, d := block - info.main, info.perSegment;
    var q, r := (x + 1) / d, (x + 1) % d;
    assert x + 1 == d * q + r;
    Arith.QuotientUnique(x, d, q, r - 1);
  }

  lemma EntrySame(info: Info, a: nat, b: nat)
    requires Sound(info) && info.main <= a < info.total && info.main <= b < info.total && Segment(info, a) == Segment(info, b)
    ensures EntryOf(info, a) == EntryOf(info, b)
  {
  }

  method FindEntry(info: Info, block: nat) returns (e: Entry)
    requires Sound(info) && info.main <= block < info.total
    ensures e == EntryOf(info, block)
  {
    var segment := (block - info.main) / info.perSegment;
    assert segment == Segment(info, block) && segment / PER_BLOCK < |info.sit|;
    var i := 0;
    while i < |info.journal|
      invariant 0 <= i <= |info.journal| && FirstIn(info.journal, segment) == i + FirstIn(info.journal[i..], segment)
    {
      if info.journal[i].0 == segment {
        return info.journal[i].1;
      }
      assert info.journal[i..][1..] == info.journal[i + 1..];
      i := i + 1;
    }
    assert |info.sit[segment / PER_BLOCK]| == PER_BLOCK;
    return info.sit[segment / PER_BLOCK][segment % PER_BLOCK];
  }

  // What holds at the top of the loop.
  ghost predicate Scanned(info: Info, fails: Callback, start: nat, block: nat, calls: seq<nat>)
    requires Sound(info)
  {
    && block >= start && Ascending(calls)
    && CallsOn(info, start, if block < info.total then block else info.total, calls)
    && (info.main <= block < info.total && Offset(info, block) > 0 ==> !Skipped(info, start, block))
    && (Consistent(info, start) ==> Naive(info, fails, block, calls) == Naive(info, fails, start, []))
  }

  lemma ScanStarts(info: Info, fails: Callback, start: nat)
    requires Sound(info)
    ensures Scanned(info, fails, start, start, [])
  {
  }

  // A used block that is not passed over.
  lemma ScanCalls(info: Info, fails: Callback, start: nat, block: nat, calls: seq<nat>)
    requires Sound(info) && Scanned(info, fails, start, block, calls) && block < info.total
    requires Used(info, block) && !Skipped(info, start, block)
    ensures Ascending(calls + [block]) && CallsOn(info, start, block + 1, calls + [block])
  {
    hide Used, Skipped, Sound, Naive;
    var more := calls + [block];
    forall b | start <= b < block + 1 && Used(info, b) && !Skipped(info, start, b) ensures b in more {
      assert b < block ==> b in calls;
      assert more[|calls|] == block;
    }
  }

  lemma ScanUnused(info: Info, fails: Callback, start: nat, block: nat, calls: seq<nat>)
    requires Sound(info) && Scanned(info, fails, start, block, calls) && block < info.total && !Used(info, block)
    ensures CallsOn(info, start, block + 1, calls)
  {
    hide Used, Skipped, Sound, Naive;
  }

  lemma StaysUnskipped(info: Info, start: nat, block: nat)
    requires Sound(info) && start <= block && (info.main <= block < info.total ==> !Skipped(info, start, block))
    ensures info.main <= block + 1 < info.total && Offset(info, block + 1) > 0 ==> !Skipped(info, start, block + 1)
  {
    if info.main <= block + 1 < info.total && Offset(info, block + 1) > 0 {
      if info.main <= block {
        NextBlock(info, block);
        EntrySame(info, block, block + 1);
      } else {
        AtMain(info, block + 1);
      }
    }
  }

  lemma AtMain(info: Info, block: nat)
    requires info.perSegment > 0 && block == info.main
    ensures Offset(info, block) == 0
  {
  }

  // A segment that is passed over.
  lemma ScanSkips(info: Info, fails: Callback, start: nat, block: nat, calls: seq<nat>)
    requires Sound(info) && Scanned(info, fails, start, block, calls) && info.main <= block < info.total
    requires Offset(info, block) == 0 && EntryOf(info, block).valid == 0
    ensures Scanned(info, fails, start, block + info.perSegment, calls)
  {
    hide Used, Offset, Sound, EntryOf, Naive;
    var end := block + info.perSegment;
    SegmentSkipped(info, start, block);
    NextSegment(info, block);
    if Consistent(info, start) {
      NaiveSkip(info, fails, block, end, calls);
    }
  }

  lemma SegmentSkipped(info: Info, start: nat, block: nat)
    requires Sound(info) && start <= block && info.main <= block < info.total
    requires Offset(info, block) == 0 && EntryOf(info, block).valid == 0
    ensures info.perSegment > 0
    ensures forall b :: block <= b < block + info.perSegment && b < info.total ==> Skipped(info, start, b)
  {
    forall b | block <= b < block + info.perSegment && b < info.total ensures Skipped(info, start, b) {
      InSegment(info, block, b);
      EntrySame(info, block, b);
    }
  }

  // One block is looked at.
  lemma ScanNext(info: Info, fails: Callback, start: nat, block: nat, calls: seq<nat>)
    requires Sound(info) && Scanned(info, fails, start, block, calls) && block < info.total && !Skipped(info, start, block)
    ensures if !Used(info, block) then Scanned(info, fails, start, block + 1, calls)
            else if fails(calls, block) then
              Stopped(info, start, calls + [block])
              && (Consistent(info, start) ==> Naive(info, fails, start, []) == (calls + [block], false))
            else Scanned(info, fails, start, block + 1, calls + [block])
  {
    hide Used, Skipped, Sound, Consistent, Offset, EntryOf, CallsOn, Ascending;
    StaysUnskipped(info, start, block);
    if Used(info, block) {
      ScanCalls(info, fails, start, block, calls);
    } else {
      ScanUnused(info, fails, start, block, calls);
    }
  }

  // The last call is on the block that failed.
  predicate Stopped(info: Info, start: nat, calls: seq<nat>)
    requires Sound(info)
  {
    && |calls| > 0 && calls[|calls| - 1] < info.total && Ascending(calls)
    && CallsOn(info, start, calls[|calls| - 1] + 1, calls)
  }

  lemma ScanEnds(info: Info, fails: Callback, start: nat, block: nat, calls: seq<nat>)
    requires Sound(info) && Scanned(info, fails, start, block, calls) && block >= info.total
    ensures Ascending(calls) && CallsOn(info, start, info.total, calls)
    ensures Consistent(info, start) ==> Naive(info, fails, start, []) == (calls, true)
  {
  }

  lemma Looks(info: Info, fails: Callback, start: nat, block: nat, calls: seq<nat>)
    requires Sound(info) && Scanned(info, fails, start, block, calls) && block < info.total
    requires info.main <= block && Offset(info, block) == 0 ==> EntryOf(info, block).valid > 0
    ensures !Skipped(info, start, block)
  {
  }

  // Runs the callback on the used blocks, and stops when it fails.
  method RunOnUsedBlocks(start: nat, info: Info, fails: Callback) returns (ok: bool, calls: seq<nat>)
    requires Sound(info)
    ensures Consistent(info, start) ==> (calls, ok) == Naive(info, fails, start, [])
    ensures ok ==> Ascending(calls) && CallsOn(info, start, info.total, calls)
    ensures !ok ==> Stopped(info, start, calls)
  {
    hide Skipped, Sound, Consistent, EntryOf, Scanned, Stopped, CallsOn, Naive, Ascending, Covers, TestBit;
    calls := [];
    var block := start;
    ScanStarts(info, fails, start);
    SoundSegments(info);
    while block < info.total
      invariant Scanned(info, fails, start, block, calls)
      decreases info.total - block
    {
      if block < info.main {
        Looks(info, fails, start, block, calls);
        ScanNext(info, fails, start, block, calls);
        if fails(calls, block) {
          return false, calls + [block];
        }
        calls := calls + [block];
      } else {
        var e := FindEntry(info, block);
        var offset := (block - info.main) % info.perSegment;
        if offset == 0 && e.valid == 0 {
          ScanSkips(info, fails, start, block, calls);
          block := block + info.perSegment;
          continue;
        }
        Looks(info, fails, start, block, calls);
        ScanNext(info, fails, start, block, calls);
        InMap(info, block);
        if TestBit(offset, e.map_) {
          if fails(calls, block) {
            return false, calls + [block];
          }
          calls := calls + [block];
        }
      }
      block := block + 1;
    }
    ScanEnds(info, fails, start, block, calls);
    ok := true;
  }

  lemma SoundSegments(info: Info)
    requires Sound(info)
    ensures info.perSegment > 0
  {
  }

  lemma InMap(info: Info, block: nat)
    requires Sound(info) && info.main <= block < info.total
    ensures Offset(info, block) < 8 * |EntryOf(info, block).map_|
  {
    assert Covers(info, EntryOf(info, block));
  }

  /* What the scans are on. */

  // The used blocks from start up to end, in order.
  predicate Lists(info: Info, start: nat, end: nat, calls: seq<nat>)
    requires Sound(info)
  {
    && Ascending(calls) && (forall i :: 0 <= i < |calls| ==> start <= calls[i] < end)
    && (forall b :: start <= b < end && b < info.total ==> (b in calls <==> Used(info, b)))
  }

  lemma ListsMore(info: Info, start: nat, block: nat, calls: seq<nat>)
    requires Sound(info) && Lists(info, start, block, calls) && start <= block < info.total
    ensures if Used(info, block) then Lists(info, start, block + 1, calls + [block]) else Lists(info, start, block + 1, calls)
  {
    hide Used, Sound;
    var more := calls + [block];
    assert more[|calls|] == block;
    forall b | start <= b < block ensures b in more <==> b in calls {
    }
  }

  // The naive scan calls on every used block, in order, until a call fails.
  lemma {:induction false} NaiveCalls(info: Info, fails: Callback, start: nat, block: nat, calls: seq<nat>)
    requires Sound(info) && start <= block && Lists(info, start, block, calls)
    ensures var (all, ok) := Naive(info, fails, block, calls);
            && (ok ==> Lists(info, start, if block < info.total then info.total else block, all))
            && (!ok ==> |all| > 0 && fails(all[..|all| - 1], all[|all| - 1]) && Lists(info, start, all[|all| - 1] + 1, all))
    decreases info.total - block
  {
    hide Used, Sound, Lists;
    if block < info.total {
      ListsMore(info, start, block, calls);
      if !Used(info, block) {
        NaiveCalls(info, fails, start, block + 1, calls);
      } else if fails(calls, block) {
        assert (calls + [block])[..|calls|] == calls;
      } else {
        NaiveCalls(info, fails, start, block + 1, calls + [block]);
      }
    }
  }

  // A scan without failures calls on exactly the used blocks if and only if the segments it passes over
  // have none.
  lemma ExactIffConsistent(info: Info, start: nat, calls: seq<nat>)
    requires Sound(info) && CallsOn(info, start, info.total, calls)
    ensures (forall b :: start <= b < info.total ==> (b in calls <==> Used(info, b))) <==> Consistent(info, start)
  {
    hide Used, Skipped, Sound;
    if !Consistent(info, start) {
      var b :| start <= b < info.total && Skipped(info, start, b) && Used(info, b);
      assert b !in calls;
    }
  }
}
