/** The extent list of an inode (kernel/fs.c, "Inode content"). */
module Extents {
  const NEXTENT: nat := 14

  datatype Extent = Extent(start: nat, len: nat)

  function Range(e: Extent): (r: seq<nat>)
    ensures |r| == e.len
  {
    seq(e.len, k requires 0 <= k < e.len => e.start + k)
  }

  /** The physical blocks of a file, in logical order. */
  function Blocks(es: seq<Extent>): (r: seq<nat>)
    decreases |es|
  {
    if es == [] then [] else Blocks(es[..|es| - 1]) + Range(es[|es| - 1])
  }

  /** Non-empty slots form a prefix. */
  predicate Shape(es: seq<Extent>) {
    |es| == NEXTENT && forall i, j :: 0 <= i < j < NEXTENT && es[j].len > 0 ==> es[i].len > 0
  }

  function Empty(): (r: seq<Extent>)
    ensures |r| == NEXTENT && forall i :: 0 <= i < NEXTENT ==> r[i] == Extent(0, 0)
  {
    seq(NEXTENT, _ => Extent(0, 0))
  }

  lemma BlocksStep(es: seq<Extent>, i: nat)
    requires i < |es|
    ensures Blocks(es[..i + 1]) == Blocks(es[..i]) + Range(es[i])
  {
    assert es[..i + 1][..i] == es[..i];
  }

  lemma {:induction false} BlocksPrefix(es: seq<Extent>, i: nat)
    requires i <= |es|
    ensures Blocks(es[..i]) <= Blocks(es)
    decreases |es| - i
  {
    if i == |es| {
      assert es[..i] == es;
    } else {
      BlocksStep(es, i);
      BlocksPrefix(es, i + 1);
    }
  }

  lemma {:induction false} BlocksTail(es: seq<Extent>, i: nat)
    requires i <= |es| && forall j :: i <= j < |es| ==> es[j].len == 0
    ensures Blocks(es) == Blocks(es[..i])
    decreases |es| - i
  {
    if i == |es| {
      assert es[..i] == es;
    } else {
      BlocksStep(es, i);
      BlocksTail(es, i + 1);
    }
  }

  /** The last non-empty slot, or NEXTENT if there is none. */
  function LastUsed(es: seq<Extent>): (k: nat)
    requires |es| <= NEXTENT
    ensures k < |es| ==> es[k].len > 0 && forall j :: k < j < |es| ==> es[j].len == 0
    ensures k >= |es| ==> k == NEXTENT && forall j :: 0 <= j < |es| ==> es[j].len == 0
  {
    if es == [] then NEXTENT
    else if es[|es| - 1].len > 0 then |es| - 1
    else
      var k := LastUsed(es[..|es| - 1]);
      assert forall j :: 0 <= j < |es| - 1 ==> es[..|es| - 1][j] == es[j];
      k
  }

  lemma AppendSlot(es: seq<Extent>, i: nat, newb: nat)
    requires i < |es| && forall j :: i <= j < |es| ==> es[j].len == 0
    ensures Blocks(es[i := Extent(newb, 1)]) == Blocks(es) + [newb]
  {
    hide Blocks;
    var r := es[i := Extent(newb, 1)];
    BlocksTail(es, i);
    BlocksTail(r, i + 1);
    BlocksStep(r, i);
    assert r[..i] == es[..i] && Range(r[i]) == [newb];
  }

  lemma AppendMerge(es: seq<Extent>)
    requires es != []
    ensures var k := |es| - 1;
            Blocks(es[k := Extent(es[k].start, es[k].len + 1)]) == Blocks(es) + [es[k].start + es[k].len]
  {
    var k := |es| - 1;
    var r := es[k := Extent(es[k].start, es[k].len + 1)];
    assert r[..k] == es[..k] && Range(r[k]) == Range(es[k]) + [es[k].start + es[k].len];
  }

  /** The slots after block newb has been added: in the first empty one, else merged into the last. */
  function Appended(es: seq<Extent>, newb: nat): (r: seq<Extent>)
    requires Shape(es)
    ensures Shape(r)
  {
    var k := LastUsed(es);
    var slot := if k == NEXTENT then 0 else k + 1;
    if slot < NEXTENT then es[slot := Extent(newb, 1)]
    else es[NEXTENT - 1 := Extent(es[NEXTENT - 1].start, es[NEXTENT - 1].len + 1)]
  }

  lemma AppendedBlocks(es: seq<Extent>, newb: nat)
    requires Shape(es) && (es[NEXTENT - 1].len > 0 ==> es[NEXTENT - 1].start + es[NEXTENT - 1].len == newb)
    ensures Blocks(Appended(es, newb)) == Blocks(es) + [newb]
  {
    hide Blocks;
    var k := LastUsed(es);
    var slot := if k == NEXTENT then 0 else k + 1;
    if slot < NEXTENT {
      AppendSlot(es, slot, newb);
    } else {
      AppendMerge(es);
    }
  }

  /** extent_append(): takes the first empty slot; only when there is none does it try to
      lengthen the last extent.  Either way the new block becomes the last of the file. */
  method Append(es: seq<Extent>, newb: nat) returns (ok: bool, r: seq<Extent>)
    requires Shape(es)
    ensures ok <==> (exists i :: 0 <= i < NEXTENT && es[i].len == 0)
                    || es[NEXTENT - 1].start + es[NEXTENT - 1].len == newb
    ensures ok ==> r == Appended(es, newb) && Shape(r) && Blocks(r) == Blocks(es) + [newb]
    ensures !ok ==> r == es
  {
    hide Blocks;
    var i := 0;
    while i < NEXTENT
      invariant i <= NEXTENT && forall j :: 0 <= j < i ==> es[j].len > 0
    {
      if es[i].len == 0 {
        r := es[i := Extent(newb, 1)];
        AppendSlot(es, i, newb);
        assert i > 0 ==> es[i - 1].len > 0;
        return true, r;
      }
      i := i + 1;
    }
    var k := LastUsed(es);
    var tail := es[k].start + es[k].len;
    if tail == newb {
      r := es[k := Extent(es[k].start, es[k].len + 1)];
      AppendMerge(es);
      return true, r;
    }
    return false, es;
  }
}
