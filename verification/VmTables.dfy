/** The page-table pages of `Vm` against the three-level tree of `Sv39`: the same walks make the same
    tables, take as many pages and fail alike. */
module VmTables {
  import Counting
  import Sv39
  import VmState
  import V = Vm

  /** The nodes of process p are exactly the tables of the tree. */
  ghost predicate Mirrors(made: set<V.Node>, p: nat, mem: Sv39.Mem, root: nat) {
    forall v: nat :: v < Sv39.VPNS ==>
      && (V.NodeAt(p, 1, v) in made <==> Sv39.Top(mem, root, v))
      && (V.NodeAt(p, 0, v) in made <==> Sv39.Bottom(mem, root, v))
  }

  lemma MissingIs(made: set<V.Node>, p: nat, mem: Sv39.Mem, root: nat, v: nat)
    requires Mirrors(made, p, mem, root) && v < Sv39.VPNS
    ensures V.Missing(made, p, v) == Sv39.Lacks(mem, root, v)
  {
    hide Sv39.Top, Sv39.Bottom, V.NodeAt;
  }

  /** The nodes of v down to a level. */
  function NodesTo(p: nat, v: nat, level: nat): set<V.Node> {
    (if level <= 1 then {V.NodeAt(p, 1, v)} else {}) + (if level == 0 then {V.NodeAt(p, 0, v)} else {})
  }

  lemma MirrorsMore(made: set<V.Node>, p: nat, before: Sv39.Mem, after: Sv39.Mem, root: nat, v: nat, level: nat)
    requires Mirrors(made, p, before, root) && Sv39.Extended(before, after, root, v, level) && v < Sv39.VPNS
    ensures Mirrors(made + NodesTo(p, v, level), p, after, root)
  {
    hide Sv39.Top, Sv39.Bottom, Sv39.SameTop, Sv39.SameBottom;
    forall u: nat | u < Sv39.VPNS
      ensures V.NodeAt(p, 1, u) in made + NodesTo(p, v, level) <==> Sv39.Top(after, root, u)
      ensures V.NodeAt(p, 0, u) in made + NodesTo(p, v, level) <==> Sv39.Bottom(after, root, u)
    {
      V.SharedTables(p, u, v);
    }
  }

  /** An empty root has no tables below it. */
  lemma MirrorsNone(made: set<V.Node>, p: nat, mem: Sv39.Mem, root: nat)
    requires forall x :: x in made ==> x.p != p
    requires forall v: nat :: !Sv39.Top(mem, root, v) && !Sv39.Bottom(mem, root, v)
    ensures Mirrors(made, p, mem, root)
  {
  }

  lemma TopIs(made: set<V.Node>, p: nat, mem: Sv39.Mem, root: nat, v: nat)
    requires Mirrors(made, p, mem, root) && v < Sv39.VPNS
    ensures V.NodeAt(p, 1, v) in made <==> Sv39.Top(mem, root, v)
  {
  }

  /** One walk in both: they succeed or fail together. */
  method Walk(vm: V.Vm, p: nat, pt: Sv39.PageTable, v: nat) returns (ok: bool, ghost level: nat)
    requires VmState.Inv(vm.S()) && p in vm.tables && pt.Valid() && v < Sv39.VPNS
    requires Mirrors(vm.made, p, pt.mem, pt.root) && |pt.pool| == vm.Free()
    modifies vm`tables, vm`made, vm.kmem, pt`mem, pt`pool, pt`node
    ensures VmState.Inv(vm.S()) && p in vm.tables && pt.Valid()
    ensures Mirrors(vm.made, p, pt.mem, pt.root) && |pt.pool| == vm.Free()
    ensures ok <==> |old(pt.pool)| >= Sv39.Lacks(old(pt.mem), pt.root, v)
    ensures Sv39.Extended(old(pt.mem), pt.mem, pt.root, v, level) && if ok then level == 0 else vm.Free() == 0
  {
    hide Mirrors, VmState.Inv, Sv39.Extended, Sv39.Forest, Sv39.Lookup, Sv39.Lacks, V.Missing;
    MissingIs(vm.made, p, pt.mem, pt.root, v);
    TopIs(vm.made, p, pt.mem, pt.root, v);
    ghost var made, mem := vm.made, pt.mem;
    level := 0;
    ok := vm.Walk(p, v);
    var found, _ := pt.Walk(v, true);
    assert ok == found;
    if !ok {
      level := if Sv39.Top(mem, pt.root, v) || |old(pt.pool)| == 0 then 2 else 1;
    }
    MirrorsMore(made, p, mem, pt.mem, pt.root, v, level);
    assert vm.made == made + NodesTo(p, v, level);
  }

  lemma TablesStay(before: Sv39.Mem, after: Sv39.Mem, root: nat, v: nat, level: nat, u: nat)
    requires Sv39.Extended(before, after, root, v, level) && v < Sv39.VPNS && u < Sv39.VPNS
    ensures level == 0 ==> Sv39.Lacks(after, root, v) == 0
    ensures Sv39.Lacks(before, root, u) == 0 ==> Sv39.Lacks(after, root, u) == 0
  {
    hide Sv39.Top, Sv39.Bottom;
    assert Sv39.SameTop(v, v) && Sv39.SameBottom(v, v);
  }

  /** Any sequence of walks, up to the first that fails, in a new address space of a process: the two
      models agree all the way. */
  method Walks(vm: V.Vm, p: nat, root: nat, pool: seq<nat>, vs: seq<nat>) returns (n: nat, pt: Sv39.PageTable)
    requires VmState.Inv(vm.S()) && p in vm.tables && forall x :: x in vm.made ==> x.p != p
    requires Counting.NoRepeats(pool) && root !in pool && |pool| == vm.Free()
    requires forall k :: 0 <= k < |vs| ==> vs[k] < Sv39.VPNS
    modifies vm`tables, vm`made, vm.kmem
    ensures fresh(pt) && VmState.Inv(vm.S()) && pt.Valid() && n <= |vs|
    ensures Mirrors(vm.made, p, pt.mem, pt.root) && |pt.pool| == vm.Free() && (n < |vs| ==> vm.Free() == 0)
    ensures forall k :: 0 <= k < n ==> Sv39.Lacks(pt.mem, pt.root, vs[k]) == 0
  {
    hide Mirrors, VmState.Inv, Sv39.Forest, Sv39.Lookup, Sv39.Lacks, Sv39.Extended;
    pt := new Sv39.PageTable(root, pool);
    MirrorsNone(vm.made, p, pt.mem, pt.root);
    n := 0;
    while n < |vs|
      invariant n <= |vs| && VmState.Inv(vm.S()) && p in vm.tables && pt.Valid()
      invariant Mirrors(vm.made, p, pt.mem, pt.root) && |pt.pool| == vm.Free()
      invariant forall k :: 0 <= k < n ==> Sv39.Lacks(pt.mem, pt.root, vs[k]) == 0
    {
      ghost var mem := pt.mem;
      var ok, level := Walk(vm, p, pt, vs[n]);
      forall k | 0 <= k < n || (ok && k == n) ensures Sv39.Lacks(pt.mem, pt.root, vs[k]) == 0 {
        TablesStay(mem, pt.mem, pt.root, vs[n], level, vs[k]);
      }
      if !ok {
        return;
      }
      n := n + 1;
    }
  }
}
