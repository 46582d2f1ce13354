/**
 A small image for ext4_utils/ext4fixup.c, as a filesystem has it: a root directory and a subdirectory, both with
 their dot entries, in groups of three inodes where a block holds four.
 */
module FixupExample {
  import opened FixupTree
  import opened FixupMeaning
  import opened FixupDisk

  // Inode 5: the second slot of the second group.
  const SUB: Slot := Slot(1, 1)

  function RootEntries(root: nat, sub: nat, file: nat): seq<Entry> {
    [Entry(root, ".", Directory), Entry(root, "..", Directory), Entry(sub, "a", Directory), Entry(file, "f", Other)]
  }

  function SubEntries(root: nat, sub: nat): seq<Entry> {
    [Entry(sub, ".", Directory), Entry(root, "..", Directory)]
  }

  function Image(): Base {
    Base(map[ROOT := Dir(RootEntries(2, 5, 4), [2, 4]), SUB := Dir(SubEntries(2, 5), [2])], 3, 4, map[ROOT := 1, SUB := 0])
  }

  lemma Links(b: Base)
    requires b == Image()
    ensures Live(b.dirs[ROOT].entries) == 4 && Live(b.dirs[SUB].entries) == 2
    ensures Target(b, ROOT, 2) == SUB && Target(b, ROOT, 0) == ROOT
    ensures forall i: nat :: IsChild(b, ROOT, i) <==> i == 2
    ensures forall i: nat :: !IsChild(b, SUB, i)
  {
    LiveIs(b.dirs[ROOT].entries, 4);
    LiveIs(b.dirs[SUB].entries, 2);
  }

  lemma Reaches(b: Base)
    requires b == Image()
    ensures Sub(b, SUB) == {SUB} && Sub(b, ROOT) == {ROOT, SUB}
  {
    hide IsChild, Live, Target;
    Links(b);
    assert IsLink(b, ROOT, 2);
  }

  // The image is one that the tool accepts: dot entries are not followed, and the subdirectory is.
  lemma ImageAccepted(b: Base)
    requires b == Image()
    ensures GoodTree(b, ROOT) && Closed(b, ROOT)
  {
    hide Sub, IsChild, Live;
    Links(b);
    Reaches(b);
    assert NewIpg(b) == 4;
  }

  // Inodes 4 and 5, of the second group, become 5 and 6; the root keeps its number.
  lemma ImageRenumbered(b: Base)
    requires b == Image()
    ensures RenumberTree(b, ROOT)[ROOT].entries == RootEntries(2, 6, 5)
    ensures RenumberTree(b, ROOT)[SUB].entries == SubEntries(2, 6)
  {
    hide Sub, IsChild, Live;
    Links(b);
    Reaches(b);
    assert NewIpg(b) == 4;
  }
}
