/** Rings indexed by free-running counters that wrap: the byte ring of kernel/pipe.c, 512 slots
    under 32-bit counters, and the queues of kernel/virtio_disk.c, 8 slots under 16-bit ones. */
module Rings {
  predicate Geometry(size: nat, wrap: nat) { (size == 512 && wrap == 0x1_0000_0000) || (size == 8 && wrap == 0x1_0000) }

  /** The slot of the k-th entry behind counter value start. */
  function Slot(size: nat, wrap: nat, start: nat, k: nat): (s: nat)
    requires Geometry(size, wrap)
    ensures s < size
  {
    (start + k) % wrap % size
  }

  lemma SlotMod(size: nat, wrap: nat, start: nat, k: nat)
    requires Geometry(size, wrap)
    ensures Slot(size, wrap, start, k) == (start + k) % size
  {
    if size == 8 {
      Small(start + k);
    } else {
      Large(start + k);
    }
  }

  lemma Small(x: nat)
    ensures x % 0x1_0000 % 8 == x % 8
  {
  }

  lemma Large(x: nat)
    ensures x % 0x1_0000_0000 % 512 == x % 512
  {
  }

  /** Wrap-around does not make two entries share a slot. */
  lemma SlotsDiffer(size: nat, wrap: nat, start: nat, j: nat, k: nat)
    requires Geometry(size, wrap) && j < k < j + size
    ensures Slot(size, wrap, start, j) != Slot(size, wrap, start, k)
  {
    hide Slot;
    SlotMod(size, wrap, start, j);
    SlotMod(size, wrap, start, k);
    if size == 8 {
      ApartSmall(start + j, start + k);
    } else {
      ApartLarge(start + j, start + k);
    }
  }

  lemma ApartSmall(x: nat, y: nat)
    requires x < y < x + 8
    ensures x % 8 != y % 8
  {
  }

  lemma ApartLarge(x: nat, y: nat)
    requires x < y < x + 512
    ensures x % 512 != y % 512
  {
  }

  lemma Multiple(size: nat, wrap: nat, k: nat)
    requires Geometry(size, wrap)
    ensures (wrap + k) % size == k % size
  {
    if size == 8 {
      assert (0x1_0000 + k) % 8 == k % 8;
    } else {
      assert (0x1_0000_0000 + k) % 512 == k % 512;
    }
  }

  /** After an entry is taken the others are found one place on. */
  lemma SlotShift(size: nat, wrap: nat, start: nat, k: nat)
    requires Geometry(size, wrap) && start < wrap
    ensures Slot(size, wrap, (start + 1) % wrap, k) == Slot(size, wrap, start, k + 1)
  {
    if start + 1 < wrap {
      assert (start + 1) % wrap == start + 1;
    } else {
      assert (start + 1) % wrap == 0;
      SlotMod(size, wrap, 0, k);
      SlotMod(size, wrap, start, k + 1);
      Multiple(size, wrap, k);
    }
  }

  /** Between the two counters the ring holds exactly the queue q. */
  ghost predicate RingOk<T>(ring: seq<T>, size: nat, wrap: nat, start: nat, end: nat, q: seq<T>) {
    && Geometry(size, wrap) && |ring| == size && start < wrap && |q| <= size && end == (start + |q|) % wrap
    && forall k :: 0 <= k < |q| ==> ring[Slot(size, wrap, start, k)] == q[k]
  }

  /** What comparing the counters tells. */
  lemma RingTests<T>(ring: seq<T>, size: nat, wrap: nat, start: nat, end: nat, q: seq<T>)
    requires RingOk(ring, size, wrap, start, end, q)
    ensures |q| <= size && |ring| == size && start < wrap && end < wrap
    ensures start == end <==> q == []
    ensures end == (start + size) % wrap <==> |q| == size
  {
    if size == 8 {
      assert end == (start + |q|) % 0x1_0000;
    } else {
      assert end == (start + |q|) % 0x1_0000_0000;
    }
  }

  lemma RingPut<T>(ring: seq<T>, size: nat, wrap: nat, start: nat, end: nat, q: seq<T>, x: T)
    requires RingOk(ring, size, wrap, start, end, q) && |q| < size
    ensures end % size < size && RingOk(ring[end % size := x], size, wrap, start, (end + 1) % wrap, q + [x])
  {
    assert end % size == Slot(size, wrap, start, |q|);
    forall k | 0 <= k < |q| ensures Slot(size, wrap, start, k) != end % size {
      SlotsDiffer(size, wrap, start, k, |q|);
    }
    if size == 8 {
      assert ((start + |q|) % 0x1_0000 + 1) % 0x1_0000 == (start + |q| + 1) % 0x1_0000;
    } else {
      assert ((start + |q|) % 0x1_0000_0000 + 1) % 0x1_0000_0000 == (start + |q| + 1) % 0x1_0000_0000;
    }
  }

  lemma RingGet<T>(ring: seq<T>, size: nat, wrap: nat, start: nat, end: nat, q: seq<T>)
    requires RingOk(ring, size, wrap, start, end, q) && q != []
    ensures start % size < size && ring[start % size] == q[0]
    ensures RingOk(ring, size, wrap, (start + 1) % wrap, end, q[1..])
  {
    SlotMod(size, wrap, start, 0);
    forall k | 0 <= k < |q| - 1 ensures ring[Slot(size, wrap, (start + 1) % wrap, k)] == q[1..][k] {
      SlotShift(size, wrap, start, k);
    }
    if size == 8 {
      assert ((start + 1) % 0x1_0000 + (|q| - 1)) % 0x1_0000 == (start + |q|) % 0x1_0000;
    } else {
      assert ((start + 1) % 0x1_0000_0000 + (|q| - 1)) % 0x1_0000_0000 == (start + |q|) % 0x1_0000_0000;
    }
  }
}
