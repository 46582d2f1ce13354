/**
 The bytes of a directory: the writer of ext4_utils/contents.c and the walk of ext4_utils/ext4fixup.c.
 */
module Directory {
  import opened DirLayout
  import opened Options

  const U32 := 0x1_0000_0000

  function Get2(d: seq<Byte>, o: nat): nat
    requires o + 2 <= |d|
  {
    var low: nat, high: nat := d[o], d[o + 1];
    low + 256 * high
  }

  function Get4(d: seq<Byte>, o: nat): nat
    requires o + 4 <= |d|
  {
    Get2(d, o) + 65536 * Get2(d, o + 2)
  }

  // The bytes at the place of an entry are those of the entry.
  predicate Holds(d: seq<Byte>, p: Placed) {
    var n := |p.entry.name|;
    && p.at + 8 + n <= |d|
    && Get4(d, p.at) == p.entry.inode && Get2(d, p.at + 4) == p.entry.recLen
    && d[p.at + 6] == n && d[p.at + 7] == p.entry.fileType && d[p.at + 8..p.at + 8 + n] == p.entry.name
  }

  predicate HoldsAll(d: seq<Byte>, ps: seq<Placed>) {
    forall k :: 0 <= k < |ps| ==> Holds(d, ps[k])
  }

  // Bytes outside [from, to) are the same.
  predicate SameOutside(d: seq<Byte>, d': seq<Byte>, from: nat, to: nat) {
    |d'| == |d| && forall i :: 0 <= i < |d| && !(from <= i < to) ==> d'[i] == d[i]
  }

  lemma HoldsSame(d: seq<Byte>, d': seq<Byte>, p: Placed, from: nat, to: nat)
    requires Holds(d, p) && SameOutside(d, d', from, to)
    requires p.at + 8 + |p.entry.name| <= from || to <= p.at
    ensures Holds(d', p)
  {
    var n := |p.entry.name|;
    assert d'[p.at + 8..p.at + 8 + n] == d[p.at + 8..p.at + 8 + n];
  }

  // Writes a 16-bit field.
  method Put2(data: array<Byte>, o: nat, v: nat)
    requires o + 2 <= data.Length && v < 65536
    modifies data
    ensures Get2(data[..], o) == v && SameOutside(old(data[..]), data[..], o, o + 2)
  {
    data[o] := v % 256;
    data[o + 1] := v / 256;
  }

  method Put4(data: array<Byte>, o: nat, v: nat)
    requires o + 4 <= data.Length && v < U32
    modifies data
    ensures Get4(data[..], o) == v && SameOutside(old(data[..]), data[..], o, o + 4)
  {
    Put2(data, o, v % 65536);
    ghost var low := data[..];
    Put2(data, o + 2, v / 65536);
    assert Get2(data[..], o) == Get2(low, o);
  }

  method PutName(data: array<Byte>, o: nat, name: seq<Byte>)
    requires o + |name| <= data.Length
    modifies data
    ensures data[o..o + |name|] == name && SameOutside(old(data[..]), data[..], o, o + |name|)
  {
    for i := 0 to |name|
      invariant data[o..o + i] == name[..i]
      invariant SameOutside(old(data[..]), data[..], o, o + i)
    {
      data[o + i] := name[i];
    }
  }

  method PutEntry(data: array<Byte>, at: nat, e: Entry)
    requires at + 8 + |e.name| <= data.Length && e.inode < U32 && e.recLen < 65536 && |e.name| < 256
    modifies data
    ensures Holds(data[..], Placed(at, e)) && SameOutside(old(data[..]), data[..], at, at + 8 + |e.name|)
  {
    hide Get2, Get4;
    Put4(data, at, e.inode);
    ghost var d1 := data[..];
    Put2(data, at + 4, e.recLen);
    ghost var d2 := data[..];
    data[at + 6], data[at + 7] := |e.name|, e.fileType;
    ghost var d3 := data[..];
    PutName(data, at + 8, e.name);
    Same4(d1, d2, at, at + 4, at + 6);
    Same4(d2, data[..], at, at + 6, at + 8 + |e.name|);
    Same2(d2, data[..], at + 4, at + 6, at + 8 + |e.name|);
  }

  lemma Same4(d: seq<Byte>, d': seq<Byte>, o: nat, from: nat, to: nat)
    requires SameOutside(d, d', from, to) && o + 4 <= |d| && (o + 4 <= from || to <= o)
    ensures Get4(d', o) == Get4(d, o)
  {
  }

  lemma Same2(d: seq<Byte>, d': seq<Byte>, o: nat, from: nat, to: nat)
    requires SameOutside(d, d', from, to) && o + 2 <= |d| && (o + 2 <= from || to <= o)
    ensures Get2(d', o) == Get2(d, o)
  {
  }

  // Writes the record length of an entry again.
  method PutRecLen(data: array<Byte>, ghost p: Placed, at: nat, v: nat)
    requires Holds(data[..], p) && at == p.at && v < 65536
    modifies data
    ensures Holds(data[..], Placed(at, p.entry.(recLen := v))) && SameOutside(old(data[..]), data[..], at + 4, at + 6)
  {
    hide Get2, Get4;
    ghost var d := data[..];
    Put2(data, at + 4, v);
    Same4(d, data[..], at, at + 4, at + 6);
    assert data[..][at + 8..at + 8 + |p.entry.name|] == d[at + 8..at + 8 + |p.entry.name|];
  }

  method PutInode(data: array<Byte>, ghost p: Placed, at: nat, v: nat)
    requires Holds(data[..], p) && at == p.at && v < U32
    modifies data
    ensures Holds(data[..], Placed(at, p.entry.(inode := v))) && SameOutside(old(data[..]), data[..], at, at + 4)
  {
    hide Get2, Get4;
    ghost var d := data[..];
    Put4(data, at, v);
    Same2(d, data[..], at + 4, at, at + 4);
    assert data[..][at + 8..at + 8 + |p.entry.name|] == d[at + 8..at + 8 + |p.entry.name|];
  }

  lemma {:induction false} InOrder(ps: seq<Placed>, offset: nat, bs: nat, j: nat, k: nat)
    requires bs > 0 && Chain(ps, offset, bs) && j < k <= |ps|
    ensures End(ps[j]) <= Start(ps, offset, k)
    decreases k
  {
    assert Follows(ps, offset, k - 1);
    if j < k - 1 {
      InOrder(ps, offset, bs, j, k - 1);
    }
  }

  lemma NameInside(ps: seq<Placed>, offset: nat, bs: nat, k: nat)
    requires bs > 0 && Chain(ps, offset, bs) && k < |ps|
    ensures ps[k].at + 8 + |ps[k].entry.name| <= End(ps[k]) <= offset && ps[k].entry.recLen <= bs
  {
    assert InBlock(ps[k], bs);
    InOrder(ps, offset, bs, k, |ps|);
    Short(ps[k].at, End(ps[k]) - 1, bs);
  }

  lemma Short(a: nat, c: nat, bs: nat)
    requires bs > 0 && a <= c && a / bs == c / bs
    ensures c - a < bs
  {
    Blocks(a, bs);
    Blocks(c, bs);
  }

  lemma AllSame(d: seq<Byte>, d': seq<Byte>, ps: seq<Placed>, offset: nat, bs: nat, from: nat, to: nat)
    requires bs > 0 && Chain(ps, offset, bs) && HoldsAll(d, ps) && SameOutside(d, d', from, to) && offset <= from
    ensures HoldsAll(d', ps)
  {
    hide Holds, Chain;
    forall k | 0 <= k < |ps| ensures Holds(d', ps[k]) {
      NameInside(ps, offset, bs, k);
      HoldsSame(d, d', ps[k], from, to);
    }
  }

  // A change within the record of entry k, after which the bytes there are those of p.
  lemma OneChanged(d: seq<Byte>, d': seq<Byte>, ps: seq<Placed>, offset: nat, bs: nat, k: nat, p: Placed, from: nat, to: nat)
    requires bs > 0 && Chain(ps, offset, bs) && HoldsAll(d, ps) && SameOutside(d, d', from, to) && k < |ps|
    requires ps[k].at <= from && to <= ps[k].at + 8 && Holds(d', p)
    ensures HoldsAll(d', ps[k := p])
  {
    hide Holds, Chain;
    NameInside(ps, offset, bs, k);
    forall j | 0 <= j < |ps| && j != k ensures Holds(d', ps[j]) {
      NameInside(ps, offset, bs, j);
      if j < k {
        InOrder(ps, offset, bs, j, k);
      } else {
        InOrder(ps, offset, bs, k, j);
      }
      HoldsSame(d, d', ps[j], from, to);
    }
  }

  // Byte x belongs to the header or the name of an entry.
  predicate Taken(ps: seq<Placed>, x: nat) {
    exists k :: 0 <= k < |ps| && ps[k].at <= x < ps[k].at + 8 + |ps[k].entry.name|
  }

  // All other bytes are zero.
  predicate Blank(d: seq<Byte>, ps: seq<Placed>) {
    forall x :: 0 <= x < |d| && d[x] != 0 ==> Taken(ps, x)
  }

  predicate SamePlaces(ps: seq<Placed>, ps': seq<Placed>) {
    && |ps| <= |ps'|
    && forall k :: 0 <= k < |ps| ==> ps'[k].at == ps[k].at && |ps'[k].entry.name| == |ps[k].entry.name|
  }

  lemma BlankStays(d: seq<Byte>, d': seq<Byte>, ps: seq<Placed>, ps': seq<Placed>, from: nat, to: nat, k: nat)
    requires Blank(d, ps) && SameOutside(d, d', from, to) && SamePlaces(ps, ps')
    requires k < |ps'| && ps'[k].at <= from && to <= ps'[k].at + 8 + |ps'[k].entry.name|
    ensures Blank(d', ps')
  {
    forall x | 0 <= x < |d'| && d'[x] != 0 ensures Taken(ps', x) {
      if from <= x < to {
        assert ps'[k].at <= x < ps'[k].at + 8 + |ps'[k].entry.name|;
      } else {
        assert Taken(ps, x);
        var j :| 0 <= j < |ps| && ps[j].at <= x < ps[j].at + 8 + |ps[j].entry.name|;
        assert ps'[j].at <= x < ps'[j].at + 8 + |ps'[j].entry.name|;
      }
    }
  }

  // Adds an entry at `offset`, or at the start of the next block if it would not fit.
  method AddDentry(data: array<Byte>, offset: nat, prev: Option<nat>, inode: nat, name: seq<Byte>, fileType: Byte, bs: nat,
                   ghost ps: seq<Placed>)
    returns (at: nat, after: nat)
    requires BlockSize(bs) && Name(name) && inode < U32 && Chain(ps, offset, bs) && HoldsAll(data[..], ps)
    requires prev == if |ps| == 0 then None else Some(ps[|ps| - 1].at)
    requires SizeStep(offset, name, bs) <= data.Length
    modifies data
    ensures at == PlaceOf(offset, name, bs) && after == SizeStep(offset, name, bs)
    ensures HoldsAll(data[..], Add(ps, offset, Entry(inode, RecLen(name), name, fileType), bs))
    ensures Chain(Add(ps, offset, Entry(inode, RecLen(name), name, fileType), bs), after, bs)
    ensures Packed(ps, bs) && LastExact(ps) ==>
              var added := Add(ps, offset, Entry(inode, RecLen(name), name, fileType), bs);
              Packed(added, bs) && LastExact(added)
    ensures Blank(old(data[..]), ps) ==> Blank(data[..], Add(ps, offset, Entry(inode, RecLen(name), name, fileType), bs))
  {
    hide Chain, HoldsAll, Holds, SizeStep, SameOutside, RecLen, PlaceOf, Pad, Packed, LastExact, Blank;
    ghost var e := Entry(inode, RecLen(name), name, fileType);
    AddChain(ps, offset, e, bs);
    if Packed(ps, bs) && LastExact(ps) {
      AddPacked(ps, offset, e, bs);
    }
    var recLen := RecLen(name);
    var crosses;
    at, crosses := FindPlace(offset, name, bs);
    PaddedChain(ps, offset, at, e, bs);
    if crosses {
      PadPrev(data, offset, prev.value, at, bs, ps);
    } else {
      PadNone(ps, offset);
    }
    ghost var d, padded := data[..], Pad(ps, offset, at);
    PadPlaces(ps, offset, at, e);
    if Blank(old(data[..]), ps) {
      if crosses {
        BlankStays(old(data[..]), d, ps, padded, prev.value + 4, prev.value + 6, |ps| - 1);
      }
    }
    PutEntry(data, at, Entry(inode, recLen, name, fileType));
    if Blank(d, padded) {
      BlankStays(d, data[..], padded, padded + [Placed(at, e)], at, at + 8 + |name|, |ps|);
    }
    AllSame(d, data[..], padded, at, bs, at, at + 8 + |name|);
    HoldsMore(data[..], padded, Placed(at, e));
    after := at + recLen;
  }

  lemma PadPlaces(ps: seq<Placed>, offset: nat, to: nat, e: Entry)
    requires offset <= to
    ensures |Pad(ps, offset, to)| == |ps| && SamePlaces(ps, Pad(ps, offset, to))
    ensures SamePlaces(Pad(ps, offset, to), Pad(ps, offset, to) + [Placed(to, e)])
  {
  }

  // Whether an entry would cross into another block, and where it goes.
  method FindPlace(offset: nat, name: seq<Byte>, bs: nat) returns (at: nat, crosses: bool)
    requires BlockSize(bs) && Name(name)
    ensures at == PlaceOf(offset, name, bs) && crosses == (at > offset) && (!crosses ==> at == offset)
    ensures at + RecLen(name) == SizeStep(offset, name, bs)
  {
    PassAgrees(offset, name, bs);
    var startBlock := offset / bs;
    var endBlock := (offset + RecLen(name) - 1) / bs;
    if startBlock != endBlock {
      Crosses(offset, name, bs);
      return endBlock * bs, true;
    }
    return offset, false;
  }

  lemma Crosses(offset: nat, name: seq<Byte>, bs: nat)
    requires BlockSize(bs) && Name(name) && offset / bs != EndBlock(offset, name, bs)
    ensures PlaceOf(offset, name, bs) > offset
  {
    PassAgrees(offset, name, bs);
  }

  lemma HoldsMore(d: seq<Byte>, ps: seq<Placed>, p: Placed)
    requires HoldsAll(d, ps) && Holds(d, p)
    ensures HoldsAll(d, ps + [p])
  {
  }

  // The entries before the new one still form a chain.
  lemma PaddedChain(ps: seq<Placed>, offset: nat, at: nat, e: Entry, bs: nat)
    requires BlockSize(bs) && Chain(ps, offset, bs) && Name(e.name) && e.recLen == RecLen(e.name)
    requires at == PlaceOf(offset, e.name, bs)
    ensures offset <= at && Chain(Pad(ps, offset, at), at, bs)
  {
    hide Chain, PlaceOf;
    PassAgrees(offset, e.name, bs);
    PadNone(ps, offset);
    if at > offset {
      AddChain(ps, offset, e, bs);
      BlockBefore(offset, bs);
      PadChain(ps, offset, at, bs);
    }
  }

  // Makes the last entry reach up to the end of its block.
  method PadPrev(data: array<Byte>, offset: nat, prev: nat, to: nat, bs: nat, ghost ps: seq<Placed>)
    requires BlockSize(bs) && Chain(ps, offset, bs) && HoldsAll(data[..], ps) && |ps| > 0 && prev == ps[|ps| - 1].at
    requires offset <= to && Chain(Pad(ps, offset, to), to, bs)
    modifies data
    ensures HoldsAll(data[..], Pad(ps, offset, to)) && SameOutside(old(data[..]), data[..], prev + 4, prev + 6)
  {
    hide *;
    ghost var n, d := |ps| - 1, data[..];
    LastPadded(d, ps, offset, to, bs);
    var recLen := Get2(data[..], prev + 4);
    PutRecLen(data, ps[n], prev, recLen + (to - offset));
    ghost var e := ps[n].entry.(recLen := recLen + (to - offset));
    OneChanged(d, data[..], ps, offset, bs, n, Placed(prev, e), prev + 4, prev + 6);
  }

  lemma LastPadded(d: seq<Byte>, ps: seq<Placed>, offset: nat, to: nat, bs: nat)
    requires BlockSize(bs) && HoldsAll(d, ps) && |ps| > 0 && offset <= to && Chain(Pad(ps, offset, to), to, bs)
    ensures var n := |ps| - 1; var e := ps[n].entry;
            && Holds(d, ps[n]) && ps[n].at + 6 <= |d| && Get2(d, ps[n].at + 4) == e.recLen
            && bs > 0 && e.recLen + (to - offset) < 65536
            && Pad(ps, offset, to) == ps[n := Placed(ps[n].at, e.(recLen := e.recLen + (to - offset)))]
  {
    hide Chain, Get2, Get4;
    assert Holds(d, ps[|ps| - 1]);
    NameInside(Pad(ps, offset, to), to, bs, |ps| - 1);
  }

  /* A whole directory. */

  const DOT: seq<Byte> := [46]
  const DOTDOT: seq<Byte> := [46, 46]
  const DIR: Byte := 2

  datatype File = File(name: seq<Byte>, fileType: Byte)

  // What a walk of a directory comes across.
  datatype Found = Found(inode: nat, name: seq<Byte>, fileType: Byte)

  function Names(files: seq<File>): (r: seq<seq<Byte>>)
    ensures |r| == |files| && forall i :: 0 <= i < |files| ==> r[i] == files[i].name
  {
    seq(|files|, i requires 0 <= i < |files| => files[i].name)
  }

  function Walked(ps: seq<Placed>): (r: seq<Found>)
    ensures |r| == |ps|
    ensures forall k :: 0 <= k < |ps| ==> r[k] == Found(ps[k].entry.inode, ps[k].entry.name, ps[k].entry.fileType)
  {
    seq(|ps|, k requires 0 <= k < |ps| => Found(ps[k].entry.inode, ps[k].entry.name, ps[k].entry.fileType))
  }

  function Ascii(s: string): (r: seq<Byte>)
    requires forall i :: 0 <= i < |s| ==> s[i] < 128 as char
    ensures |r| == |s| && forall i :: 0 <= i < |s| ==> r[i] == s[i] as nat
  {
    seq(|s|, i requires 0 <= i < |s| => s[i] as nat)
  }

  lemma DotNames()
    ensures DOT == Ascii(".") && DOTDOT == Ascii("..")
  {
  }

  // The entries of a directory, in order; `inodes` are those of its files.
  function Listing(self: nat, parent: nat, files: seq<File>, inodes: seq<nat>): (r: seq<Found>)
    requires |inodes| == |files|
    ensures |r| == |files| + 2
  {
    [Found(self, Ascii("."), 2), Found(parent, Ascii(".."), 2)]
    + seq(|files|, i requires 0 <= i < |files| => Found(inodes[i], files[i].name, files[i].fileType))
  }

  predicate NamesOk(files: seq<File>) {
    forall i :: 0 <= i < |files| ==> Name(files[i].name)
  }

  method DentrySize(files: seq<File>, bs: nat) returns (len: nat)
    requires bs > 0
    ensures len == Size(Names(files), bs)
  {
    len := 24;
    ghost var names := Names(files);
    for i := 0 to |files|
      invariant len == Size(names[..i], bs)
    {
      assert names[..i + 1][..i] == names[..i];
      var dentryLen := RecLen(files[i].name);
      if len % bs + dentryLen > bs {
        len := len + (bs - len % bs);
      }
      len := len + dentryLen;
    }
    assert names[..|files|] == names;
  }

  // Sizes grow with every name.
  lemma {:induction false} SizeGrows(names: seq<seq<Byte>>, i: nat, bs: nat)
    requires bs > 0 && i <= |names| && forall k :: 0 <= k < |names| ==> Name(names[k])
    ensures 24 <= Size(names[..i], bs) && Size(names[..i], bs) + 12 * (|names| - i) <= Size(names, bs)
    decreases |names|
  {
    if i == |names| {
      assert names[..i] == names;
      if i > 0 {
        SizeGrows(names[..i - 1], i - 1, bs);
        assert names[..i - 1][..i - 1] == names[..i - 1];
      }
    } else {
      var n := |names| - 1;
      SizeGrows(names[..n], i, bs);
      assert names[..n][..i] == names[..i];
    }
  }

  // The writer's state after the first files: the entries are in place, packed, and list what they should.
  ghost predicate Written(d: seq<Byte>, ps: seq<Placed>, offset: nat, bs: nat, self: nat, parent: nat, files: seq<File>)
    requires bs > 0
  {
    && HoldsAll(d, ps) && Blank(d, ps) && Chain(ps, offset, bs) && Packed(ps, bs) && |ps| == |files| + 2
    && Walked(ps) == Listing(self, parent, files, seq(|files|, _ => 0))
  }

  lemma PadWalked(ps: seq<Placed>, offset: nat, to: nat)
    requires offset <= to
    ensures Walked(Pad(ps, offset, to)) == Walked(ps) && |Pad(ps, offset, to)| == |ps|
    ensures forall k :: 0 <= k < |ps| ==> Pad(ps, offset, to)[k].at == ps[k].at
  {
  }

  lemma AddWalked(ps: seq<Placed>, offset: nat, e: Entry, bs: nat)
    requires BlockSize(bs) && Name(e.name)
    ensures var added := Add(ps, offset, e, bs);
            && |added| == |ps| + 1 && Walked(added) == Walked(ps) + [Found(e.inode, e.name, e.fileType)]
            && added[|ps|].at == PlaceOf(offset, e.name, bs)
            && forall k :: 0 <= k < |ps| ==> added[k].at == ps[k].at
  {
    hide RecLen, PlaceOf, Pad;
    PassAgrees(offset, e.name, bs);
    PadWalked(ps, offset, PlaceOf(offset, e.name, bs));
  }

  lemma ListingMore(self: nat, parent: nat, files: seq<File>, i: nat)
    requires i < |files|
    ensures Listing(self, parent, files[..i + 1], seq(i + 1, _ => 0))
            == Listing(self, parent, files[..i], seq(i, _ => 0)) + [Found(0, files[i].name, files[i].fileType)]
  {
  }

  // Lays out the entries of a new directory. The check that an entry ends past the directory never fires.
  method MakeDirectory(self: nat, parent: nat, files: seq<File>, bs: nat)
    returns (data: array<Byte>, ats: seq<nat>, ghost ps: seq<Placed>)
    requires BlockSize(bs) && self < U32 && parent < U32 && NamesOk(files)
    ensures fresh(data) && data.Length == Rounded(Size(Names(files), bs), bs) && data.Length % bs == 0
    ensures Written(data[..], ps, data.Length, bs, self, parent, files)
    ensures |ats| == |files| && Ats(ats, ps)
  {
    hide Written, Chain, HoldsAll, Size, SizeStep, Rounded, PlaceOf, Walked, Listing, Add, Pad, Names, RecLen, LastExact,
         Blank;
    ghost var names := Names(files);
    SizeGrows(names, 0, bs);
    var size, len := DirectoryLength(files, bs);
    data := new Byte[len](_ => 0);
    var at, offset, ps0 := MakeDots(data, self, parent, bs);
    ps, ats := ps0, [];
    assert files[..0] == [] && names[..0] == [];
    SizeOfNone(bs);
    for i := 0 to |files|
      invariant Written(data[..], ps, offset, bs, self, parent, files[..i]) && |ps| == i + 2 && LastExact(ps)
      invariant offset == Size(names[..i], bs) && at == ps[i + 1].at
      invariant |ats| == i && Ats(ats, ps)
    {
      SizeGrows(names, i + 1, bs);
      at, offset, ps := AddFile(data, offset, at, self, parent, files, i, bs, ps);
      assert offset <= len && (offset == len ==> i == |files| - 1);
      ats := ats + [at];
    }
    assert files[..|files|] == files && names[..|files|] == names;
    FinalPad(ps, offset, len, bs, self, parent, files, data[..]);
    ghost var d := data[..];
    PadPrev(data, offset, at, len, bs, ps);
    BlankStays(d, data[..], ps, Pad(ps, offset, len), at + 4, at + 6, |files| + 1);
    ps := Pad(ps, offset, len);
  }

  method DirectoryLength(files: seq<File>, bs: nat) returns (size: nat, len: nat)
    requires bs > 0 && Size(Names(files), bs) > 0
    ensures size == Size(Names(files), bs) <= len == Rounded(size, bs) && len % bs == 0
  {
    size := DentrySize(files, bs);
    RoundedSame(size, bs);
    var blocks := (size + bs - 1) / bs;
    len := blocks * bs;
  }

  // Adds the entry of file i, with no inode yet.
  method AddFile(data: array<Byte>, offset: nat, prev: nat, ghost self: nat, ghost parent: nat, files: seq<File>, i: nat,
                 bs: nat, ghost ps: seq<Placed>)
    returns (at: nat, after: nat, ghost added: seq<Placed>)
    requires BlockSize(bs) && i < |files| && NamesOk(files) && |ps| == i + 2
    requires Written(data[..], ps, offset, bs, self, parent, files[..i]) && LastExact(ps)
    requires prev == ps[i + 1].at && offset == Size(Names(files)[..i], bs) && Size(Names(files)[..i + 1], bs) <= data.Length
    modifies data
    ensures after == Size(Names(files)[..i + 1], bs) && |added| == |ps| + 1 && at == added[i + 2].at
    ensures Written(data[..], added, after, bs, self, parent, files[..i + 1]) && SameAts(ps, added) && LastExact(added)
  {
    hide Chain, HoldsAll, SizeStep, PlaceOf, Walked, Listing, Add, RecLen, Packed, LastExact, Blank;
    ghost var names := Names(files);
    assert names[..i + 1][..i] == names[..i];
    ghost var e := Entry(0, RecLen(files[i].name), files[i].name, files[i].fileType);
    at, after := AddDentry(data, offset, Some(prev), 0, files[i].name, files[i].fileType, bs, ps);
    added := Add(ps, offset, e, bs);
    AddWalked(ps, offset, e, bs);
    ListingMore(self, parent, files, i);
  }

  predicate SameAts(ps: seq<Placed>, added: seq<Placed>) {
    |ps| <= |added| && forall k :: 0 <= k < |ps| ==> added[k].at == ps[k].at
  }

  lemma FinalPad(ps: seq<Placed>, offset: nat, len: nat, bs: nat, self: nat, parent: nat, files: seq<File>, d: seq<Byte>)
    requires BlockSize(bs) && Written(d, ps, offset, bs, self, parent, files) && offset > 0 && len == Rounded(offset, bs)
    requires LastExact(ps)
    ensures offset <= len && Chain(ps, offset, bs) && HoldsAll(d, ps) && Chain(Pad(ps, offset, len), len, bs)
    ensures |ps| == |files| + 2 && SameAts(ps, Pad(ps, offset, len))
    ensures Blank(d, ps) && SamePlaces(ps, Pad(ps, offset, len))
    ensures forall d' :: HoldsAll(d', Pad(ps, offset, len)) && Blank(d', Pad(ps, offset, len)) ==>
                           Written(d', Pad(ps, offset, len), len, bs, self, parent, files)
  {
    hide Chain, HoldsAll, Rounded, Pad, Packed, LastExact, Blank;
    RoundedSame(offset, bs);
    PadPlaces(ps, offset, len, ps[0].entry);
    PadChain(ps, offset, len, bs);
    WholeBlocks(len / bs, bs);
    Blocks(len, bs);
    PadPacked(ps, offset, len, bs);
    PadWalked(ps, offset, len);
  }

  predicate Ats(ats: seq<nat>, ps: seq<Placed>) {
    |ps| >= |ats| + 2 && forall i :: 0 <= i < |ats| ==> ats[i] == ps[i + 2].at
  }

  method MakeDots(data: array<Byte>, self: nat, parent: nat, bs: nat) returns (at: nat, offset: nat, ghost ps: seq<Placed>)
    requires BlockSize(bs) && self < U32 && parent < U32 && data.Length >= 24
    requires forall x :: 0 <= x < data.Length ==> data[x] == 0
    modifies data
    ensures offset == 24 && |ps| == 2 && Written(data[..], ps, offset, bs, self, parent, []) && at == ps[1].at
    ensures LastExact(ps)
  {
    hide Chain, HoldsAll, PlaceOf, Add, Pad, Packed, LastExact, Blank;
    EmptyChain(data[..], bs);
    DotNames();
    DotSteps(bs);
    ghost var dot, dots := Entry(self, RecLen(DOT), DOT, DIR), Entry(parent, RecLen(DOTDOT), DOTDOT, DIR);
    at, offset := AddDentry(data, 0, None, self, DOT, DIR, bs, []);
    ps := Add([], 0, dot, bs);
    AddWalked([], 0, dot, bs);
    ghost var first := ps;
    at, offset := AddDentry(data, offset, Some(at), parent, DOTDOT, DIR, bs, first);
    AddWalked(first, 12, dots, bs);
    ps := Add(first, 12, dots, bs);
  }

  lemma EmptyChain(d: seq<Byte>, bs: nat)
    requires bs > 0
    ensures Chain([], 0, bs) && HoldsAll(d, []) && Packed([], bs) && LastExact([])
    ensures (forall x :: 0 <= x < |d| ==> d[x] == 0) ==> Blank(d, [])
  {
  }

  lemma SizeOfNone(bs: nat)
    requires bs > 0
    ensures Size([], bs) == 24
  {
  }

  lemma DotSteps(bs: nat)
    requires BlockSize(bs)
    ensures SizeStep(0, DOT, bs) == 12 && SizeStep(12, DOTDOT, bs) == 24
  {
  }

  /* Inodes, and the walk. */

  // The entries once the inodes of the first n files are filled in.
  function Filled(ps: seq<Placed>, inodes: seq<nat>, n: nat): (r: seq<Placed>)
    requires n <= |inodes| && |inodes| + 2 <= |ps|
    ensures |r| == |ps|
  {
    seq(|ps|, k requires 0 <= k < |ps| =>
      if 2 <= k < n + 2 then Placed(ps[k].at, ps[k].entry.(inode := inodes[k - 2])) else ps[k])
  }

  lemma FilledChain(ps: seq<Placed>, inodes: seq<nat>, n: nat, offset: nat, bs: nat)
    requires bs > 0 && Chain(ps, offset, bs) && n <= |inodes| && |inodes| + 2 <= |ps|
    ensures Chain(Filled(ps, inodes, n), offset, bs)
  {
    var r := Filled(ps, inodes, n);
    forall k | 0 <= k < |r| ensures Follows(r, offset, k) && InBlock(r[k], bs) {
      assert Follows(ps, offset, k) && InBlock(ps[k], bs);
    }
  }

  // Fills in the inodes of the files, once they are known.
  method FillInodes(data: array<Byte>, ats: seq<nat>, inodes: seq<nat>, bs: nat, ghost ps: seq<Placed>)
    requires bs > 0 && HoldsAll(data[..], ps) && Chain(ps, data.Length, bs) && Ats(ats, ps) && |inodes| == |ats|
    requires |ps| == |ats| + 2 && forall i :: 0 <= i < |inodes| ==> inodes[i] < U32
    modifies data
    ensures HoldsAll(data[..], Filled(ps, inodes, |inodes|))
  {
    hide Chain, Holds;
    assert Filled(ps, inodes, 0) == ps;
    for i := 0 to |ats|
      invariant HoldsAll(data[..], Filled(ps, inodes, i))
    {
      ghost var d, now := data[..], Filled(ps, inodes, i);
      FilledChain(ps, inodes, i, data.Length, bs);
      PutInode(data, now[i + 2], ats[i], inodes[i]);
      OneChanged(d, data[..], now, data.Length, bs, i + 2,
                 Placed(ats[i], now[i + 2].entry.(inode := inodes[i])), ats[i], ats[i] + 4);
      assert now[i + 2 := Placed(ats[i], now[i + 2].entry.(inode := inodes[i]))] == Filled(ps, inodes, i + 1);
    }
  }

  // Walks a directory by record lengths, up to its end or an entry without an inode.
  method Walk(data: array<Byte>, bs: nat, ghost ps: seq<Placed>) returns (found: seq<Found>)
    requires bs > 0 && HoldsAll(data[..], ps) && Chain(ps, data.Length, bs)
    ensures found <= Walked(ps) && (|found| == |ps| || (|found| < |ps| && Walked(ps)[|found|].inode == 0))
    ensures forall k :: 0 <= k < |found| ==> found[k].inode != 0
  {
    hide Chain, Get2, Get4, HoldsAll;
    found := [];
    var at: nat, prev := 0, false;
    AtStart(ps, data.Length, bs);
    while at < data.Length
      invariant |found| <= |ps| && at == Start(ps, data.Length, |found|) && found == Walked(ps)[..|found|]
      invariant forall k :: 0 <= k < |found| ==> found[k].inode != 0
      decreases |ps| - |found|
    {
      AtEntry(data[..], ps, bs, |found|);
      if data.Length - at <= 8 && prev {
        break;
      }
      var inode := Get4(data[..], at);
      if inode == 0 {
        break;
      }
      found := found + [Found(inode, data[at + 8..at + 8 + data[at + 6]], data[at + 7])];
      at, prev := at + Get2(data[..], at + 4), true;
    }
    AtEnd(ps, data.Length, bs, |found|);
  }

  lemma AtStart(ps: seq<Placed>, offset: nat, bs: nat)
    requires bs > 0 && Chain(ps, offset, bs)
    ensures Start(ps, offset, 0) == 0
  {
  }

  // An entry is at least 12 bytes, so the walk never finds 8 or fewer left before one.
  lemma AtEntry(d: seq<Byte>, ps: seq<Placed>, bs: nat, n: nat)
    requires bs > 0 && Chain(ps, |d|, bs) && HoldsAll(d, ps) && n <= |ps| && Start(ps, |d|, n) < |d|
    ensures n < |ps| && Holds(d, ps[n]) && |d| - ps[n].at > 8 && End(ps[n]) == Start(ps, |d|, n + 1)
  {
    assert Follows(ps, |d|, n) && InBlock(ps[n], bs);
    InOrder(ps, |d|, bs, n, |ps|);
  }

  lemma AtEnd(ps: seq<Placed>, offset: nat, bs: nat, n: nat)
    requires bs > 0 && Chain(ps, offset, bs) && n <= |ps|
    ensures n < |ps| ==> Start(ps, offset, n) < offset
  {
    if n < |ps| {
      assert InBlock(ps[n], bs);
      InOrder(ps, offset, bs, n, |ps|);
    }
  }

  lemma FilledWalked(ps: seq<Placed>, self: nat, parent: nat, files: seq<File>, inodes: seq<nat>)
    requires |ps| == |files| + 2 && |inodes| == |files| && Walked(ps) == Listing(self, parent, files, seq(|files|, _ => 0))
    ensures Walked(Filled(ps, inodes, |inodes|)) == Listing(self, parent, files, inodes)
  {
    var zeros := seq(|files|, _ => 0);
    forall k | 0 <= k < |ps|
      ensures Walked(Filled(ps, inodes, |inodes|))[k] == Listing(self, parent, files, inodes)[k]
    {
      assert Walked(ps)[k] == Listing(self, parent, files, zeros)[k];
    }
  }

  // A new directory, once its inodes are filled in, walks as itself, its parent and its files in order.
  method MakeAndWalk(self: nat, parent: nat, files: seq<File>, inodes: seq<nat>, bs: nat) returns (found: seq<Found>)
    requires BlockSize(bs) && 0 < self < U32 && 0 < parent < U32 && NamesOk(files)
    requires |inodes| == |files| && forall i :: 0 <= i < |inodes| ==> 0 < inodes[i] < U32
    ensures found == Listing(self, parent, files, inodes)
  {
    hide Chain, HoldsAll, Listing, Walked, Filled;
    var data, ats, ps := MakeDirectory(self, parent, files, bs);
    FillInodes(data, ats, inodes, bs, ps);
    FilledChain(ps, inodes, |inodes|, data.Length, bs);
    found := Walk(data, bs, Filled(ps, inodes, |inodes|));
    FilledWalked(ps, self, parent, files, inodes);
    NoZero(self, parent, files, inodes);
    AllFound(found, Listing(self, parent, files, inodes));
  }

  lemma AllFound(found: seq<Found>, all: seq<Found>)
    requires found <= all && (|found| == |all| || (|found| < |all| && all[|found|].inode == 0))
    requires forall k :: 0 <= k < |all| ==> all[k].inode != 0
    ensures found == all
  {
  }

  lemma NoZero(self: nat, parent: nat, files: seq<File>, inodes: seq<nat>)
    requires |inodes| == |files| && self > 0 && parent > 0 && forall i :: 0 <= i < |inodes| ==> inodes[i] > 0
    ensures forall k :: 0 <= k < |files| + 2 ==> Listing(self, parent, files, inodes)[k].inode != 0
  {
  }
}
