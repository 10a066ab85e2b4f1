/** Directories and their in-memory cache (kernel/fs.c, "Directories").

    A directory is its sequence of entries; entry k lies at byte offset 16 * k.  A name is a
    character sequence that reads as NUL past its end; only its first DIRSIZ characters up to
    a NUL count. */
module DirCache {
  import opened Params

  const DIRSIZ: nat := 14
  const DIRCACHE_MAX: nat := 256
  const ENTSIZE: nat := 2 + DIRSIZ // sizeof(struct dirent)
  const NUL: char := '\0'

  type Name = seq<char>
  datatype Dirent = Dirent(inum: nat, name: Name)
  datatype CacheEntry = CacheEntry(name: Name, inum: nat, off: nat)
  datatype Found = None | Some(inum: nat, off: nat)

  // ---------------------------------------------------------------- names

  function At(s: Name, k: nat): char { if k < |s| then s[k] else NUL }

  /** The n-bounded C string that s starts with. */
  function Cut(s: Name, n: nat): (r: Name)
    decreases n
  {
    if n == 0 || At(s, 0) == NUL then [] else [s[0]] + Cut(s[1..], n - 1)
  }

  function Canon(s: Name): Name { Cut(s, DIRSIZ) }

  /** namecmp() == 0. */
  method SameName(s: Name, t: Name) returns (same: bool)
    ensures same <==> Canon(s) == Canon(t)
  {
    var p, q, n := s, t, DIRSIZ;
    while n > 0 && At(p, 0) != NUL && At(p, 0) == At(q, 0)
      invariant 0 <= n <= DIRSIZ
      invariant Canon(s) == Canon(t) <==> Cut(p, n) == Cut(q, n)
      decreases n
    {
      CutTail(p, q, n);
      p, q, n := p[1..], q[1..], n - 1;
    }
    if n == 0 {
      return true;
    }
    CutHead(p, q, n);
    return At(p, 0) == At(q, 0);
  }

  lemma CutTail(p: Name, q: Name, n: nat)
    requires n > 0 && At(p, 0) != NUL && At(p, 0) == At(q, 0)
    ensures Cut(p, n) == Cut(q, n) <==> Cut(p[1..], n - 1) == Cut(q[1..], n - 1)
  {
    assert Cut(p, n)[1..] == Cut(p[1..], n - 1);
    assert Cut(q, n)[1..] == Cut(q[1..], n - 1);
  }

  lemma CutHead(p: Name, q: Name, n: nat)
    requires n > 0 && !(At(p, 0) != NUL && At(p, 0) == At(q, 0))
    ensures Cut(p, n) == Cut(q, n) <==> At(p, 0) == At(q, 0)
  {
    if At(p, 0) != NUL && At(q, 0) != NUL {
      assert Cut(p, n)[0] == p[0] && Cut(q, n)[0] == q[0];
    }
  }

  /** No NUL before position k. */
  predicate Runs(s: Name, k: nat) { forall j: nat :: j < k ==> At(s, j) != NUL }

  ghost predicate Agree(s: Name, t: Name, n: nat) { forall k: nat :: k < n && Runs(s, k) ==> At(s, k) == At(t, k) }

  lemma RunsOn(s: Name, k: nat)
    requires At(s, 0) != NUL
    ensures Runs(s, k + 1) <==> Runs(s[1..], k)
  {
    if Runs(s, k + 1) {
      forall j: nat | j < k ensures At(s[1..], j) != NUL { assert At(s, j + 1) != NUL; }
    }
    if Runs(s[1..], k) {
      forall j: nat | j < k + 1 ensures At(s, j) != NUL { assert j > 0 ==> At(s[1..], j - 1) != NUL; }
    }
  }

  lemma Shifted(s: Name, t: Name, n: nat)
    requires n > 0 && At(s, 0) != NUL && At(s, 0) == At(t, 0)
    ensures Agree(s, t, n) <==> Agree(s[1..], t[1..], n - 1)
  {
    hide Runs;
    forall k: nat | k < n - 1
      ensures Runs(s, k + 1) <==> Runs(s[1..], k)
      ensures At(s[1..], k) == At(s, k + 1) && At(t[1..], k) == At(t, k + 1)
    {
      RunsOn(s, k);
    }
    if Agree(s[1..], t[1..], n - 1) {
      forall k: nat | k < n && Runs(s, k) ensures At(s, k) == At(t, k) {
        if k > 0 {
          assert Runs(s[1..], k - 1);
        }
      }
    }
  }

  /** Names are the same exactly if they agree up to the first NUL of one of them, or for DIRSIZ
      characters. */
  lemma {:induction false} SameIff(s: Name, t: Name, n: nat)
    ensures Cut(s, n) == Cut(t, n) <==> Agree(s, t, n)
    decreases n
  {
    if n > 0 {
      if At(s, 0) != NUL && At(s, 0) == At(t, 0) {
        CutTail(s, t, n);
        SameIff(s[1..], t[1..], n - 1);
        Shifted(s, t, n);
      } else {
        CutHead(s, t, n);
        if At(s, 0) == At(t, 0) {
          assert At(s, 0) == NUL;
        }
      }
    }
  }

  /** strncpy() into a name field: padded with NULs, not necessarily terminated. */
  function Field(s: Name, n: nat): (r: Name)
    ensures |r| == n
    decreases n
  {
    if n == 0 then []
    else if At(s, 0) == NUL then seq(n, _ => NUL)
    else [s[0]] + Field(s[1..], n - 1)
  }

  lemma {:induction false} FieldKeepsName(s: Name, n: nat)
    ensures Cut(Field(s, n), n) == Cut(s, n)
    decreases n
  {
    if n > 0 && At(s, 0) != NUL {
      assert Field(s, n)[1..] == Field(s[1..], n - 1);
      FieldKeepsName(s[1..], n - 1);
    }
  }

  /** An entry lies in one block. */
  lemma EntryInBlock(k: nat)
    ensures ENTSIZE * k / BSIZE == (ENTSIZE * (k + 1) - 1) / BSIZE
  {
  }

  // ---------------------------------------------------------------- the linear scan

  predicate Hit(e: Dirent, name: Name) { e.inum != 0 && Canon(e.name) == Canon(name) }

  /** The first matching entry at position k or later. */
  function Scan(ents: seq<Dirent>, name: Name, k: nat): (r: Found)
    requires k <= |ents|
    decreases |ents| - k
  {
    if k == |ents| then None
    else if Hit(ents[k], name) then Some(ents[k].inum, ENTSIZE * k)
    else Scan(ents, name, k + 1)
  }

  /** What a name means in a directory, whatever the cache holds. */
  function Lookup(ents: seq<Dirent>, name: Name): Found { Scan(ents, name, 0) }

  lemma {:induction false} ScanSkips(ents: seq<Dirent>, name: Name, k: nat, n: nat)
    requires k <= n <= |ents| && forall j :: k <= j < n ==> !Hit(ents[j], name)
    ensures Scan(ents, name, k) == Scan(ents, name, n)
    decreases n - k
  {
    if k < n {
      ScanSkips(ents, name, k + 1, n);
    }
  }

  lemma {:induction false} ScanNone(ents: seq<Dirent>, name: Name, k: nat)
    requires k <= |ents|
    ensures Scan(ents, name, k).None? <==> forall j :: k <= j < |ents| ==> !Hit(ents[j], name)
    decreases |ents| - k
  {
    if k < |ents| {
      ScanNone(ents, name, k + 1);
    }
  }

  // ---------------------------------------------------------------- cache contents

  /** The live entries of a prefix of a directory, as the cache stores them. */
  function Live(ents: seq<Dirent>): (r: seq<CacheEntry>)
    decreases |ents|
  {
    if ents == [] then []
    else
      var k := |ents| - 1;
      Live(ents[..k]) + (if ents[k].inum == 0 then [] else [CacheEntry(ents[k].name, ents[k].inum, ENTSIZE * k)])
  }

  /** Scanning the live entries is scanning the directory. */
  lemma {:induction false} LiveScan(ents: seq<Dirent>, name: Name, n: nat)
    requires n <= |ents|
    ensures var r := ScanLive(Live(ents[..n]), name, 0);
            if r.Some? then r == Lookup(ents, name) else forall j :: 0 <= j < n ==> !Hit(ents[j], name)
    decreases n
  {
    hide Canon;
    if n > 0 {
      LiveScan(ents, name, n - 1);
      var es, k := ents[..n], n - 1;
      assert es[..k] == ents[..k];
      LiveLast(Live(es[..k]), Live(es), name, 0);
      if ScanLive(Live(es[..k]), name, 0).None? && Hit(ents[k], name) {
        ScanSkips(ents, name, 0, k);
      }
    }
  }

  function ScanLive(c: seq<CacheEntry>, name: Name, k: nat): Found
    requires k <= |c|
    decreases |c| - k
  {
    if k == |c| then None
    else if Canon(c[k].name) == Canon(name) then Some(c[k].inum, c[k].off)
    else ScanLive(c, name, k + 1)
  }

  lemma {:induction false} LiveLast(c: seq<CacheEntry>, d: seq<CacheEntry>, name: Name, k: nat)
    requires k <= |c| && c <= d && |d| <= |c| + 1
    ensures ScanLive(d, name, k) ==
              if ScanLive(c, name, k).Some? then ScanLive(c, name, k) else ScanLive(d, name, |c|)
    decreases |c| - k
  {
    if k < |c| {
      LiveLast(c, d, name, k + 1);
    }
  }

  lemma {:induction false} LiveGrows(ents: seq<Dirent>, k: nat, n: nat)
    requires k <= n <= |ents|
    ensures Live(ents[..k]) <= Live(ents[..n])
    decreases n - k
  {
    if k < n {
      assert ents[..n][..n - 1] == ents[..n - 1];
      LiveGrows(ents, k, n - 1);
    }
  }

  // ---------------------------------------------------------------- names across changes

  predicate Unique(ents: seq<Dirent>) {
    forall i, j :: 0 <= i < j < |ents| && ents[i].inum != 0 && ents[j].inum != 0 ==>
        Canon(ents[i].name) != Canon(ents[j].name)
  }

  lemma Linked(ents: seq<Dirent>, name: Name, k: nat, de: Dirent)
    requires k <= |ents| && (k < |ents| ==> ents[k].inum == 0) && Lookup(ents, name).None?
    requires de.inum != 0 && de.name == Field(name, DIRSIZ)
    ensures var ents' := if k < |ents| then ents[k := de] else ents + [de];
            && Lookup(ents', name) == Some(de.inum, ENTSIZE * k)
            && (forall other :: Canon(other) != Canon(name) ==> Lookup(ents', other) == Lookup(ents, other))
            && (Unique(ents) ==> Unique(ents'))
  {
    hide Cut, Field;
    var ents' := if k < |ents| then ents[k := de] else ents + [de];
    FieldKeepsName(name, DIRSIZ);
    ScanNone(ents, name, 0);
    ScanSkips(ents', name, 0, k);
    forall other | Canon(other) != Canon(name) ensures Lookup(ents', other) == Lookup(ents, other) {
      SameHits(ents, ents', other, 0);
    }
  }

  /** One entry is new, at the first free place, or else at the end. */
  predicate AddedAt(before: seq<Dirent>, after: seq<Dirent>, off: nat) {
    var k := off / ENTSIZE;
    && off == ENTSIZE * k && k <= |before| && k < |after| && (forall j :: 0 <= j < k ==> before[j].inum != 0)
    && if k < |before| then before[k].inum == 0 && after == before[k := after[k]] else after == before + [after[k]]
  }

  lemma Added(ents: seq<Dirent>, k: nat, de: Dirent)
    requires k <= |ents| && (k < |ents| ==> ents[k].inum == 0) && forall j :: 0 <= j < k ==> ents[j].inum != 0
    ensures AddedAt(ents, if k < |ents| then ents[k := de] else ents + [de], ENTSIZE * k)
  {
    assert ENTSIZE * k / ENTSIZE == k;
  }

  /** Directories that differ only in entries that do not match have the same answer. */
  lemma {:induction false} SameHits(a: seq<Dirent>, b: seq<Dirent>, name: Name, k: nat)
    requires k <= |a| <= |b|
    requires forall j :: k <= j < |a| ==> a[j] == b[j] || (!Hit(a[j], name) && !Hit(b[j], name))
    requires forall j :: |a| <= j < |b| ==> !Hit(b[j], name)
    ensures Scan(a, name, k) == Scan(b, name, k)
    decreases |a| - k
  {
    if k == |a| {
      ScanSkips(b, name, k, |b|);
    } else {
      SameHits(a, b, name, k + 1);
    }
  }

  lemma Cleared(ents: seq<Dirent>, k: nat, de: Dirent)
    requires k < |ents| && de.inum == 0
    ensures forall name :: Canon(name) != Canon(ents[k].name) ==> Lookup(ents[k := de], name) == Lookup(ents, name)
    ensures ents[k].inum != 0 && Unique(ents) ==> Lookup(ents[k := de], ents[k].name).None?
    ensures Unique(ents) ==> Unique(ents[k := de])
  {
    forall name | Canon(name) != Canon(ents[k].name) ensures Lookup(ents[k := de], name) == Lookup(ents, name) {
      SameHits(ents, ents[k := de], name, 0);
    }
    ScanNone(ents[k := de], ents[k].name, 0);
  }

  // ---------------------------------------------------------------- the code

  class Directory {
    var ents: seq<Dirent>
    var valid: bool
    var sizeSnapshot: nat
    var truncated: bool
    var entries: seq<CacheEntry>

    /** A cache that may be used holds the live entries of a prefix of the directory, of all
        of it unless marked truncated. */
    ghost predicate Valid()
      reads this
    {
      valid && sizeSnapshot == ENTSIZE * |ents| ==>
        exists n :: 0 <= n <= |ents| && entries == Live(ents[..n]) && (!truncated ==> n == |ents|)
    }

    constructor ()
      ensures Valid() && ents == []
    {
      ents, valid, sizeSnapshot, truncated, entries := [], false, 0, false, [];
    }

    method Rebuild()
      modifies this`valid, this`sizeSnapshot, this`truncated, this`entries
      ensures Valid() && valid && sizeSnapshot == ENTSIZE * |ents|
      ensures truncated <==> ents != [] && |Live(ents[..|ents| - 1])| >= DIRCACHE_MAX
      ensures if truncated then |entries| == DIRCACHE_MAX && entries <= Live(ents) else entries == Live(ents)
    {
      valid, truncated, sizeSnapshot, entries := false, false, ENTSIZE * |ents|, [];
      var k := 0;
      while k < |ents|
        invariant k <= |ents| && entries == Live(ents[..k]) && !truncated && !valid
        invariant sizeSnapshot == ENTSIZE * |ents|
        invariant |entries| <= DIRCACHE_MAX && (k > 0 ==> |Live(ents[..k - 1])| < DIRCACHE_MAX)
      {
        if |entries| >= DIRCACHE_MAX {
          LiveGrows(ents, k, |ents| - 1);
          LiveGrows(ents, k, |ents|);
          truncated := true;
          break;
        }
        assert ents[..k + 1][..k] == ents[..k];
        if ents[k].inum != 0 {
          entries := entries + [CacheEntry(ents[k].name, ents[k].inum, ENTSIZE * k)];
        }
        k := k + 1;
      }
      valid := true;
      assert ents[..|ents|] == ents;
    }

    method SearchEntries(name: Name) returns (r: Found)
      ensures r == ScanLive(entries, name, 0)
    {
      var k := 0;
      while k < |entries|
        invariant k <= |entries| && ScanLive(entries, name, 0) == ScanLive(entries, name, k)
      {
        var same := SameName(name, entries[k].name);
        if same {
          return Some(entries[k].inum, entries[k].off);
        }
        k := k + 1;
      }
      return None;
    }

    /** dircache_lookup(): a hit is always right; a miss is final unless the cache is truncated. */
    method CacheLookup(name: Name) returns (r: Found)
      requires Valid()
      modifies this`valid, this`sizeSnapshot, this`truncated, this`entries
      ensures Valid()
      ensures r.Some? ==> r == Lookup(ents, name)
      ensures r.None? && !truncated ==> Lookup(ents, name).None?
    {
      if valid && sizeSnapshot == ENTSIZE * |ents| {
        r := SearchEntries(name);
        Answer(name);
        if r.Some? {
          return;
        }
        if !truncated {
          return None;
        }
      }
      Rebuild();
      r := SearchEntries(name);
      Answer(name);
    }

    lemma Answer(name: Name)
      requires Valid() && valid && sizeSnapshot == ENTSIZE * |ents|
      ensures var r := ScanLive(entries, name, 0);
              && (r.Some? ==> r == Lookup(ents, name))
              && (r.None? && !truncated ==> Lookup(ents, name).None?)
    {
      var n :| 0 <= n <= |ents| && entries == Live(ents[..n]) && (!truncated ==> n == |ents|);
      LiveScan(ents, name, n);
      ScanNone(ents, name, 0);
    }

    /** dirlookup(): always the answer of the linear scan, also past DIRCACHE_MAX entries. */
    method Dirlookup(name: Name) returns (r: Found)
      requires Valid()
      modifies this`valid, this`sizeSnapshot, this`truncated, this`entries
      ensures Valid() && r == Lookup(ents, name)
    {
      r := CacheLookup(name);
      if r.Some? {
        return;
      }
      var k := 0;
      while k < |ents|
        invariant k <= |ents| && Valid() && Lookup(ents, name) == Scan(ents, name, k)
      {
        if ents[k].inum != 0 {
          var same := SameName(name, ents[k].name);
          if same {
            return Some(ents[k].inum, ENTSIZE * k);
          }
        }
        k := k + 1;
      }
      return None;
    }

    /** What writei() does to the cache of a directory. */
    method Invalidate()
      modifies this`valid, this`truncated, this`entries
      ensures Valid() && !valid
    {
      valid, truncated, entries := false, false, [];
    }

    /** dirlink(); the write may fail for want of space (`room`).  On success the name means
        the new inode and every other name means what it did. */
    method Dirlink(name: Name, inum: nat, room: bool) returns (r: int)
      requires Valid() && 0 < inum < 0x10000
      modifies this
      ensures Valid() && (r == 0 || r == -1)
      ensures r == -1 <==> Lookup(old(ents), name).Some? || !room
      ensures r == -1 ==> ents == old(ents)
      ensures r == 0 ==> Lookup(ents, name).Some? && Lookup(ents, name).inum == inum
      ensures r == 0 ==> forall other :: Canon(other) != Canon(name) ==> Lookup(ents, other) == Lookup(old(ents), other)
      ensures r == 0 ==> AddedAt(old(ents), ents, Lookup(ents, name).off)
    {
      hide AddedAt, Scan, Canon, Field;
      var there := Dirlookup(name);
      if there.Some? {
        return -1;
      }
      var k := 0;
      while k < |ents| && ents[k].inum != 0
        invariant k <= |ents| && ents == old(ents) && Valid() && forall j :: 0 <= j < k ==> ents[j].inum != 0
      {
        k := k + 1;
      }
      var de := Dirent(inum, Field(name, DIRSIZ));
      Linked(ents, name, k, de);
      Added(ents, k, de);
      Invalidate();
      if !room {
        return -1;
      }
      ents := if k < |ents| then ents[k := de] else ents + [de];
      return 0;
    }

    /** sys_unlink()'s clearing of the entry at position k, whose offset dirlookup() gave: its
        name is gone, provided names are unique, and every other name keeps its meaning. */
    method Clear(k: nat)
      requires Valid() && k < |ents|
      modifies this
      ensures Valid() && ents == old(ents)[k := Dirent(0, Field([], DIRSIZ))]
      ensures forall name :: Canon(name) != Canon(old(ents)[k].name) ==> Lookup(ents, name) == Lookup(old(ents), name)
      ensures old(ents)[k].inum != 0 && Unique(old(ents)) ==> Lookup(ents, old(ents)[k].name).None?
    {
      var de := Dirent(0, Field([], DIRSIZ));
      Cleared(ents, k, de);
      Invalidate();
      ents := ents[k := de];
    }

    /** itrunc() of a directory. */
    method Truncate()
      modifies this
      ensures Valid() && ents == []
    {
      ents := [];
      Invalidate();
    }

    /** ilock() reading the inode again. */
    method Reload()
      modifies this`valid, this`truncated, this`entries
      ensures Valid() && !valid
    {
      Invalidate();
    }
  }
}
