/**
 How ioshark/ioshark_bench_mmap.c turns a mapping into reads and writes at random places.
 */
module MmapSplit {
  import opened Options

  const MAX_IO := 16 * 1024
  const ENTS := 16
  const U31 := 0x8000_0000
  const U32 := 0x1_0000_0000
  const U64 := 0x1_0000_0000_0000_0000

  // Bytes [offset, offset + len) of a file.
  datatype Piece = Piece(offset: nat, len: nat)

  predicate In(x: nat, p: Piece) {
    p.offset <= x < p.offset + p.len
  }

  // In how many of the pieces a byte is.
  function Hits(ps: seq<Piece>, x: nat): nat {
    if |ps| == 0 then 0 else Hits(ps[..|ps| - 1], x) + if In(x, ps[|ps| - 1]) then 1 else 0
  }

  function Total(ps: seq<Piece>): nat {
    if |ps| == 0 then 0 else Total(ps[..|ps| - 1]) + ps[|ps| - 1].len
  }

  // Each byte of the piece is in one of the parts, and no other byte is in any.
  ghost predicate Once(parts: seq<Piece>, whole: Piece) {
    forall x: nat :: Hits(parts, x) == if In(x, whole) then 1 else 0
  }

  lemma {:induction false} HitsUpdate(ps: seq<Piece>, i: nat, p: Piece, x: nat)
    requires i < |ps|
    ensures Hits(ps[i := p], x) + (if In(x, ps[i]) then 1 else 0) == Hits(ps, x) + if In(x, p) then 1 else 0
  {
    var n := |ps| - 1;
    if i == n {
      assert ps[i := p][..n] == ps[..n];
    } else {
      HitsUpdate(ps[..n], i, p, x);
      assert ps[i := p][..n] == ps[..n][i := p];
    }
  }

  lemma {:induction false} TotalUpdate(ps: seq<Piece>, i: nat, p: Piece)
    requires i < |ps|
    ensures Total(ps[i := p]) + ps[i].len == Total(ps) + p.len
  {
    var n := |ps| - 1;
    if i == n {
      assert ps[i := p][..n] == ps[..n];
    } else {
      TotalUpdate(ps[..n], i, p);
      assert ps[i := p][..n] == ps[..n][i := p];
    }
  }

  lemma HitsMore(ps: seq<Piece>, p: Piece, x: nat)
    ensures Hits(ps + [p], x) == Hits(ps, x) + if In(x, p) then 1 else 0
  {
    assert (ps + [p])[..|ps|] == ps;
  }

  lemma {:induction false} Empty(ps: seq<Piece>, x: nat)
    requires forall i :: 0 <= i < |ps| ==> ps[i].len == 0
    ensures Hits(ps, x) == 0 && Total(ps) == 0
  {
    if |ps| > 0 {
      Empty(ps[..|ps| - 1], x);
    }
  }

  lemma {:induction false} NoneLeft(ps: seq<Piece>, x: nat)
    requires Total(ps) == 0
    ensures Hits(ps, x) == 0
  {
    if |ps| > 0 {
      NoneLeft(ps[..|ps| - 1], x);
    }
  }

  lemma {:induction false} SomeLeft(ps: seq<Piece>) returns (i: nat)
    requires Total(ps) > 0
    ensures i < |ps| && ps[i].len > 0
  {
    if ps[|ps| - 1].len > 0 {
      i := |ps| - 1;
    } else {
      i := SomeLeft(ps[..|ps| - 1]);
    }
  }

  // The length of a slice: kept in a 32-bit int, and compared as a 64-bit unsigned number.
  function Slice(len: nat): nat {
    var wide := if MAX_IO > len / ENTS then MAX_IO else len / ENTS;
    var low := wide % U32;
    if low < U31 then low else U64 - U32 + low
  }

  // Below 2^35 bytes the int is large enough, and seventeen slices are too.
  lemma SliceFits(len: nat)
    requires len < 0x8_0000_0000
    ensures MAX_IO <= Slice(len) && len <= 17 * Slice(len)
  {
  }

  // A sixteenth of the mapping, rounded down, but not less than 16 KB; from 2^35 bytes on what is left of it in 32
  // bits, with the sign carried into 64.
  lemma SliceMeans(len: nat)
    ensures len < 16 * 16384 ==> Slice(len) == 16384
    ensures 16 * 16384 <= len < 0x8_0000_0000 ==> 16 * Slice(len) <= len < 16 * Slice(len) + 16
    ensures len >= 16 * 16384 ==> Slice(len) % 0x1_0000_0000 == len / 16 % 0x1_0000_0000
    ensures Slice(len) < 0x8000_0000 || 0xFFFF_FFFF_8000_0000 <= Slice(len) < 0x1_0000_0000_0000_0000
  {
  }

  // Slice i of a mapping; the last one may be shorter.
  function SliceAt(whole: Piece, slice: nat, i: nat): Piece
    requires i * slice <= whole.len
  {
    Piece(whole.offset + i * slice, if whole.len - i * slice < slice then whole.len - i * slice else slice)
  }

  predicate Sliced(table: seq<Piece>, num: nat, slice: nat, whole: Piece) {
    && num <= |table|
    && forall i :: 0 <= i < num ==> i * slice <= whole.len && table[i] == SliceAt(whole, slice, i)
  }

  // How a mapping is cut: what the table still holds and what was issued, together, is the mapping.
  ghost predicate Splits(table: seq<Piece>, resid: nat, ios: seq<Piece>, whole: Piece) {
    && resid == Total(table)
    && forall x: nat :: Hits(ios, x) + Hits(table, x) == if In(x, whole) then 1 else 0
  }

  // The table while it is filled in: `num` slices so far, from the start.
  ghost predicate Filling(table: seq<Piece>, num: nat, slice: nat, done: nat, whole: Piece) {
    && num <= |table| == ENTS + 1 && done <= whole.len && Total(table) == done
    && done <= num * slice && (done < whole.len ==> done == num * slice) && Sliced(table, num, slice, whole)
    && (forall i :: num <= i < |table| ==> table[i] == Piece(0, 0))
    && forall x: nat :: Hits(table, x) == if In(x, Piece(whole.offset, done)) then 1 else 0
  }

  lemma FillingStarts(table: seq<Piece>, slice: nat, whole: Piece)
    requires |table| == ENTS + 1 && forall i :: 0 <= i < |table| ==> table[i] == Piece(0, 0)
    ensures Filling(table, 0, slice, 0, whole)
  {
    Empty(table, 0);
    forall x: nat ensures Hits(table, x) == 0 {
      Empty(table, x);
    }
  }

  lemma FillingNext(table: seq<Piece>, num: nat, slice: nat, done: nat, whole: Piece, len: nat)
    requires Filling(table, num, slice, done, whole) && num < |table| && done < whole.len
    requires len == if whole.len - done < slice then whole.len - done else slice
    ensures Filling(table[num := Piece(whole.offset + done, len)], num + 1, slice, done + len, whole)
  {
    var p := Piece(whole.offset + done, len);
    var after := table[num := p];
    TotalUpdate(table, num, p);
    forall x: nat ensures Hits(after, x) == if In(x, Piece(whole.offset, done + len)) then 1 else 0 {
      HitsUpdate(table, num, p, x);
    }
    assert (num + 1) * slice == num * slice + slice;
  }

  // The start of a slot that is not empty: `len` bytes, or all it has.
  predicate Chosen(table: seq<Piece>, io: Piece, len: nat) {
    exists i :: 0 <= i < |table| && table[i].len > 0 && table[i].offset == io.offset
                && io.len == if table[i].len < len then table[i].len else len
  }

  class IoState {
    var numEntries: nat
    const table: array<Piece>
    var resid: nat

    constructor ()
      ensures fresh(table) && table.Length == ENTS + 1 && forall i :: 0 <= i < table.Length ==> table[i] == Piece(0, 0)
    {
      numEntries, resid := 0, 0;
      table := new Piece[ENTS + 1](_ => Piece(0, 0));
    }

    // Cuts the mapping into slices. More than seventeen of them is an error.
    method Setup(len: nat, start: nat) returns (ok: bool)
      requires table.Length == ENTS + 1 && forall i :: 0 <= i < table.Length ==> table[i] == Piece(0, 0)
      requires len < U64
      modifies this, table
      ensures ok <==> len <= 17 * Slice(len)
      ensures ok ==> numEntries <= ENTS + 1 && Splits(table[..], resid, [], Piece(start, len))
      ensures ok ==> Sliced(table[..], numEntries, Slice(len), Piece(start, len)) && len <= numEntries * Slice(len)
    {
      var slice := Slice(len);
      ghost var whole := Piece(start, len);
      FillingStarts(table[..], slice, whole);
      numEntries, resid := 0, len;
      var left, offset := len, start;
      while left > 0
        invariant 0 <= left <= len && offset == start + (len - left) && resid == len && numEntries <= ENTS + 1
        invariant Filling(table[..], numEntries, slice, len - left, whole)
        decreases ENTS + 1 - numEntries
      {
        if !(numEntries < ENTS + 1) {
          return false;
        }
        var size := if left < slice then left else slice;
        FillingNext(table[..], numEntries, slice, len - left, whole, size);
        ghost var before := table[..];
        table[numEntries] := Piece(offset, size);
        assert table[..] == before[numEntries := Piece(offset, size)];
        left, offset, numEntries := left - size, offset + size, numEntries + 1;
      }
      AtMostAll(numEntries, slice);
      return true;
    }

    // The slots that still have bytes.
    method Candidates() returns (found: seq<nat>)
      ensures forall k :: 0 <= k < |found| ==> found[k] < table.Length && table[found[k]].len > 0
      ensures forall i :: 0 <= i < table.Length && table[i].len > 0 ==> i in found
    {
      found := [];
      for i := 0 to table.Length
        invariant forall k :: 0 <= k < |found| ==> found[k] < table.Length && table[found[k]].len > 0
        invariant forall j :: 0 <= j < i && table[j].len > 0 ==> j in found
      {
        if table[i].len > 0 {
          ghost var before := found;
          found := found + [i];
          assert found[|before|] == i;
          assert forall j :: j in before ==> j in found;
        }
      }
    }

    // Takes the start of a slot: which one, and 4, 8, 12 or 16 KB of it, is up to two random numbers.
    method GetNext(rand0: nat, rand1: nat, ghost ios: seq<Piece>, ghost whole: Piece) returns (io: Piece)
      requires Splits(table[..], resid, ios, whole)
      modifies this`resid, table
      ensures old(resid) == 0 ==> io.len == 0 && Splits(table[..], resid, ios, whole)
      ensures old(resid) > 0 ==> 0 < io.len <= MAX_IO && Splits(table[..], resid, ios + [io], whole)
      ensures resid + io.len == old(resid)
      ensures old(resid) > 0 ==> Chosen(old(table[..]), io, (rand1 % 4 + 1) * 4096)
    {
      if resid == 0 {
        return Piece(0, 0);
      }
      ghost var slot := SomeLeft(table[..]);
      var found := Candidates();
      var i := found[rand0 % |found|];
      var len := (rand1 % 4 + 1) * 4096;
      var p := table[i];
      if p.len < len {
        len := p.len;
      }
      io := Piece(p.offset, len);
      assert Chosen(table[..], io, (rand1 % 4 + 1) * 4096) by {
        assert table[..][i] == p;
      }
      SplitSlot(table[..], resid, ios, whole, i, len);
      ghost var before := table[..];
      table[i] := Piece(p.offset + len, p.len - len);
      assert table[..] == before[i := Piece(p.offset + len, p.len - len)];
      resid := resid - len;
    }
  }

  lemma AtMostAll(num: nat, slice: nat)
    requires num <= 17
    ensures num * slice <= 17 * slice
  {
  }

  // The start of a slot is issued and the rest of it stays.
  lemma SplitSlot(table: seq<Piece>, resid: nat, ios: seq<Piece>, whole: Piece, i: nat, len: nat)
    requires Splits(table, resid, ios, whole) && i < |table| && len <= table[i].len
    ensures len <= resid
    ensures Splits(table[i := Piece(table[i].offset + len, table[i].len - len)], resid - len,
                   ios + [Piece(table[i].offset, len)], whole)
  {
    var rest, io := Piece(table[i].offset + len, table[i].len - len), Piece(table[i].offset, len);
    var after, more := table[i := rest], ios + [io];
    TotalUpdate(table, i, rest);
    forall x: nat ensures Hits(more, x) + Hits(after, x) == if In(x, whole) then 1 else 0 {
      HitsUpdate(table, i, rest, x);
      HitsMore(ios, io, x);
    }
  }

  lemma AllIssued(table: seq<Piece>, ios: seq<Piece>, whole: Piece)
    requires Splits(table, 0, ios, whole)
    ensures Once(ios, whole)
  {
    forall x: nat ensures Hits(ios, x) == if In(x, whole) then 1 else 0 {
      NoneLeft(table, x);
    }
  }

  // A part in which some byte is lies within the whole.
  lemma {:induction false} HitsSome(parts: seq<Piece>, k: nat, x: nat)
    requires k < |parts| && In(x, parts[k])
    ensures Hits(parts, x) > 0
  {
    if k < |parts| - 1 {
      HitsSome(parts[..|parts| - 1], k, x);
    }
  }

  lemma Inside(parts: seq<Piece>, whole: Piece, k: nat)
    requires Once(parts, whole) && k < |parts| && parts[k].len > 0
    ensures whole.offset <= parts[k].offset && parts[k].offset + parts[k].len <= whole.offset + whole.len
  {
    HitsSome(parts, k, parts[k].offset);
    HitsSome(parts, k, parts[k].offset + parts[k].len - 1);
    assert In(parts[k].offset, whole) && In(parts[k].offset + parts[k].len - 1, whole);
  }

  // The I/Os issued for a mapping, whatever the random numbers.
  method HandleMmap(start: nat, len: nat, rand: nat -> (nat, nat)) returns (r: Option<seq<Piece>>)
    requires len < U64
    ensures r.Some? <==> len <= 17 * Slice(len)
    ensures len < 0x8_0000_0000 ==> r.Some?
    ensures r.Some? ==> Once(r.value, Piece(start, len))
    ensures len <= 16384 ==> r == Some([Piece(start, len)])
    ensures r.Some? ==> forall k :: 0 <= k < |r.value| ==> r.value[k].len <= MAX_IO
  {
    var whole := Piece(start, len);
    if len < 0x8_0000_0000 {
      SliceFits(len);
    }
    if len <= MAX_IO {
      assert [whole][..0] == [];
      return Some([whole]);
    }
    var mio := new IoState();
    var ok := mio.Setup(len, start);
    if !ok {
      return None;
    }
    var ios: seq<Piece>, n := [], 0;
    while true
      invariant Splits(mio.table[..], mio.resid, ios, whole) && fresh(mio) && fresh(mio.table)
      invariant forall k :: 0 <= k < |ios| ==> ios[k].len <= MAX_IO
      decreases mio.resid
    {
      var io := mio.GetNext(rand(n).0, rand(n).1, ios, whole);
      if io.len == 0 {
        break;
      }
      ios, n := ios + [io], n + 1;
    }
    AllIssued(mio.table[..], ios, whole);
    return Some(ios);
  }
}
