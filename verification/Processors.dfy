/** From the affinity mask to the topology: what detect_cputypes() hands to topologize(), and
    what lookup_aid() then describes (hardware/arch.c, hardware/topology.c). */
module Processors {
  import opened Common
  import C = CpuTypes
  import T = Topology
  import A = ApicId

  /** Where a processor says it is. */
  datatype Position = Position(thread: nat, core: nat, pkg: nat)

  /** The CPUs in the order they are topologized, each with the index of its type. */
  function Order(d: C.Detected, at: nat -> Position): seq<T.Cpu>
    requires |d.indices| == |d.visited|
  {
    seq(|d.visited|, k requires 0 <= k < |d.visited| =>
      T.Cpu(d.visited[k], at(d.visited[k]).thread, at(d.visited[k]).core, at(d.visited[k]).pkg, d.indices[k]))
  }

  lemma DistinctMeansBelow(d: C.Detected, at: nat -> Position, slots: nat)
    requires |d.indices| == |d.visited| && Increasing(d.visited) && C.AllBelow(d.visited, CPU_SETSIZE)
    ensures T.Distinct(Order(d, at), slots) <==> C.AllBelow(d.visited, slots)
  {
    var order := Order(d, at);
    assert |order| == |d.visited| && forall k :: 0 <= k < |order| ==> order[k].aid == d.visited[k];
    if T.Distinct(order, slots) {
      forall k | 0 <= k < |d.visited|
        ensures d.visited[k] < slots
      {
        assert order[k].aid < slots;
      }
    }
  }

  /** The processors found fit the records allotted, one for each, if and only if the mask has
      no gap. */
  lemma FitsIff(mask: C.Mask, env: nat -> C.Report, d: C.Detected, at: nat -> Position)
    requires C.Sound(env, C.Bits(mask, |mask|), d)
    ensures T.Distinct(Order(d, at), |d.visited|) <==> C.GapFree(mask)
  {
    C.BitsAre(mask);
    C.RecordsSufficeIff(mask);
    DistinctMeansBelow(d, at, |d.visited|);
  }

  /** Two processors are given the same index exactly when they are alike. */
  lemma SameIndexIff(env: nat -> C.Report, aids: seq<nat>, d: C.Detected, k: nat, l: nat)
    requires C.Sound(env, aids, d) && k < |aids| && l < |aids|
    ensures d.indices[k] == d.indices[l] <==> C.Same(env(aids[k]).details, env(aids[l]).details)
  {
    var found := C.Reported(env, aids);
    assert found[k] == env(aids[k]).details && found[l] == env(aids[l]).details;
    var i, j := d.indices[k], d.indices[l];
    assert C.Same(d.types[i], found[k]) && C.Same(d.types[j], found[l]);
    if C.Same(found[k], found[l]) {
      C.SameTypeSameIndex(d.types, i, j);
    }
  }

  /** torque_cpu_getdesc() of what the lookup finds describes this processor. */
  predicate DescribesOwn(env: nat -> C.Report, d: C.Detected, at: nat -> Position, k: nat)
    requires |d.indices| == |d.visited| && T.Distinct(Order(d, at), |d.visited|) && k < |d.visited|
  {
    var r := T.Lookup(T.Build(Order(d, at), |d.visited|).zones, d.visited[k]);
    r.Some? && r.value < |d.types| && C.Same(d.types[r.value], env(d.visited[k]).details)
  }

  lemma DescribesOwnMeans(env: nat -> C.Report, d: C.Detected, at: nat -> Position, k: nat)
    requires C.Sound(env, d.visited, d) && T.Distinct(Order(d, at), |d.visited|) && k < |d.visited|
    ensures DescribesOwn(env, d, at, k) <==> T.OwnType(Order(d, at), |d.visited|, k)
  {
    var order := Order(d, at);
    var found := C.Reported(env, d.visited);
    assert order[k].aid == d.visited[k] && order[k].cputype == d.indices[k] && found[k] == env(d.visited[k]).details;
    assert d.indices[k] < |d.types| && C.Same(d.types[d.indices[k]], found[k]);
    if DescribesOwn(env, d, at, k) {
      var i := T.Lookup(T.Build(order, |d.visited|).zones, d.visited[k]).value;
      C.SameTypeSameIndex(d.types, i, d.indices[k]);
    }
  }

  lemma OwnDescriptionsByOrder(env: nat -> C.Report, d: C.Detected, at: nat -> Position)
    requires C.Sound(env, d.visited, d) && T.Distinct(Order(d, at), |d.visited|)
    ensures (forall k :: 0 <= k < |d.visited| ==> DescribesOwn(env, d, at, k)) <==>
            T.CoresUniform(Order(d, at)) && forall pkg :: T.FirstTwoAgree(Order(d, at), pkg)
  {
    var order := Order(d, at);
    T.OwnTypesIff(order, |d.visited|);
    forall k | 0 <= k < |d.visited|
      ensures DescribesOwn(env, d, at, k) <==> T.OwnType(order, |d.visited|, k)
    {
      DescribesOwnMeans(env, d, at, k);
    }
  }

  predicate Alike(env: nat -> C.Report, a: nat, b: nat) { C.Same(env(a).details, env(b).details) }

  /** The processors on any one core are alike. */
  predicate CoresAlike(env: nat -> C.Report, at: nat -> Position, aids: seq<nat>) {
    forall k, l | 0 <= k < |aids| && 0 <= l < |aids| && at(aids[k]).pkg == at(aids[l]).pkg && at(aids[k]).core == at(aids[l]).core ::
      Alike(env, aids[k], aids[l])
  }

  /** These are the first two visited of their package. */
  predicate FirstTwo(at: nat -> Position, aids: seq<nat>, k: nat, l: nat) {
    && k < l < |aids| && at(aids[k]).pkg == at(aids[l]).pkg
    && forall m :: 0 <= m < l && m != k ==> at(aids[m]).pkg != at(aids[l]).pkg
  }

  predicate FirstTwoAlike(env: nat -> C.Report, at: nat -> Position, aids: seq<nat>) {
    forall k, l :: 0 <= k < l < |aids| && FirstTwo(at, aids, k, l) ==> Alike(env, aids[k], aids[l])
  }

  lemma CoresAlikeMeans(env: nat -> C.Report, at: nat -> Position, aids: seq<nat>, d: C.Detected)
    requires C.Sound(env, aids, d)
    ensures T.CoresUniform(Order(d, at)) <==> CoresAlike(env, at, aids)
  {
    var order := Order(d, at);
    forall k: nat, l: nat | k < |aids| && l < |aids|
      ensures order[k].cputype == order[l].cputype <==> Alike(env, aids[k], aids[l])
    {
      SameIndexIff(env, aids, d, k, l);
    }
    assert forall k :: 0 <= k < |aids| ==> order[k].pkg == at(aids[k]).pkg && order[k].core == at(aids[k]).core;
    if T.CoresUniform(order) {
      forall k, l | 0 <= k < |aids| && 0 <= l < |aids| && at(aids[k]).pkg == at(aids[l]).pkg && at(aids[k]).core == at(aids[l]).core
        ensures Alike(env, aids[k], aids[l])
      {
        assert order[k].pkg == order[l].pkg && order[k].core == order[l].core;
      }
    }
  }

  /** The first two of a package in the order are the first two visited. */
  lemma FirstTwoMeans(d: C.Detected, at: nat -> Position, k: nat, l: nat)
    requires |d.indices| == |d.visited| && FirstTwo(at, d.visited, k, l)
    ensures var order := Order(d, at);
            T.FirstOn(order, order[k].pkg, None) == Some(order[k]) && T.SecondOn(order, order[k].pkg) == Some(order[l])
  {
    var order := Order(d, at);
    assert forall m :: 0 <= m < |order| ==> order[m].pkg == at(d.visited[m]).pkg;
    T.TwoMakeASecond(order, k, l);
    var i, j := T.FirstTwoAt(order, order[k].pkg);
    assert j == l && i == k by {
      assert order[i].pkg == order[k].pkg && order[j].pkg == order[k].pkg;
    }
  }

  lemma FirstTwoAlikeMeans(env: nat -> C.Report, at: nat -> Position, aids: seq<nat>, d: C.Detected)
    requires C.Sound(env, aids, d)
    ensures (forall pkg :: T.FirstTwoAgree(Order(d, at), pkg)) <==> FirstTwoAlike(env, at, aids)
  {
    var order := Order(d, at);
    assert forall m :: 0 <= m < |order| ==> order[m].pkg == at(aids[m]).pkg && order[m].cputype == d.indices[m];
    if forall pkg :: T.FirstTwoAgree(order, pkg) {
      forall k: nat, l: nat | FirstTwo(at, aids, k, l)
        ensures Alike(env, aids[k], aids[l])
      {
        FirstTwoMeans(d, at, k, l);
        assert T.FirstTwoAgree(order, order[k].pkg);
        SameIndexIff(env, aids, d, k, l);
      }
    }
    if FirstTwoAlike(env, at, aids) {
      forall pkg
        ensures T.FirstTwoAgree(order, pkg)
      {
        if T.SecondOn(order, pkg).Some? {
          var i, j := T.FirstTwoAt(order, pkg);
          assert FirstTwo(at, aids, i, j);
          SameIndexIff(env, aids, d, i, j);
        }
      }
    }
  }

  /** From end to end, for processors that fit their records, as those of a mask without gaps
      and no other do: every one is looked up to a description of itself if and only if the
      processors of each core are alike and the first two visited of each package are. */
  lemma OwnDescriptionsIff(env: nat -> C.Report, d: C.Detected, at: nat -> Position)
    requires C.Sound(env, d.visited, d) && T.Distinct(Order(d, at), |d.visited|)
    ensures (forall k :: 0 <= k < |d.visited| ==> DescribesOwn(env, d, at, k)) <==>
            CoresAlike(env, at, d.visited) && FirstTwoAlike(env, at, d.visited)
  {
    OwnDescriptionsByOrder(env, d, at);
    CoresAlikeMeans(env, at, d.visited, d);
    FirstTwoAlikeMeans(env, at, d.visited, d);
  }

  // ---- The APIC id ----------------------------------------------------------------------------

  /** The APIC id is part of what processors are compared by. */
  type ApicOf = nat -> nat

  /** x86topology(): the position is computed from the APIC id. */
  function PositionFrom(env: nat -> C.Report, apic: ApicOf): nat -> Position {
    (aid: nat) =>
      var details := env(aid).details;
      if details.threadspercore == 0 || details.coresperpackage == 0 then Position(0, 0, 0)
      else
        var t := A.Decompose(details.threadspercore, details.coresperpackage, apic(details.spec));
        Position(t.thread, t.core, t.pkg)
  }

  /** For power-of-two counts the position makes up the APIC id again. */
  lemma PositionRecomposes(env: nat -> C.Report, apic: ApicOf, aid: nat)
    requires var d := env(aid).details;
             d.threadspercore > 0 && d.coresperpackage > 0 && A.IsPow2(d.threadspercore) && A.IsPow2(d.coresperpackage)
    ensures var d := env(aid).details;
            var p := PositionFrom(env, apic)(aid);
            && p.thread < d.threadspercore && p.core < d.coresperpackage
            && (p.pkg * d.coresperpackage + p.core) * d.threadspercore + p.thread == apic(d.spec)
  {
    var d := env(aid).details;
    var t := A.ComposeDecompose(d.threadspercore, d.coresperpackage, apic(d.spec));
  }

  predicate DistinctApics(env: nat -> C.Report, apic: ApicOf, aids: seq<nat>) {
    forall k, l :: 0 <= k < l < |aids| ==> apic(env(aids[k]).details.spec) != apic(env(aids[l]).details.spec)
  }

  lemma {:induction false} AllCountOnce(found: seq<C.Details>, t: C.Details)
    requires forall k, l :: 0 <= k < l < |found| ==> !C.Same(found[k], found[l])
    ensures C.CountSame(found, t) <= 1
  {
    if found != [] {
      var front, last := found[..|found| - 1], found[|found| - 1];
      AllCountOnce(front, t);
      if C.CountSame(front, t) > 0 {
        C.CountedIsThere(front, t);
        var k :| 0 <= k < |front| && C.Same(front[k], t);
        assert C.Same(found[k], t) && !C.Same(found[k], last);
      }
    }
  }

  /** Where every processor has an APIC id of its own, every type has one element. */
  lemma EachItsOwnType(env: nat -> C.Report, apic: ApicOf, aids: seq<nat>, d: C.Detected)
    requires C.Sound(env, aids, d) && DistinctApics(env, apic, aids)
    ensures forall i :: 0 <= i < |d.types| ==> d.types[i].elements == 1
    ensures forall k, l :: 0 <= k < l < |aids| ==> d.indices[k] != d.indices[l]
  {
    var found := C.Reported(env, aids);
    forall k, l | 0 <= k < l < |aids|
      ensures !C.Same(found[k], found[l]) && d.indices[k] != d.indices[l]
    {
      SameIndexIff(env, aids, d, k, l);
    }
    forall i | 0 <= i < |d.types|
      ensures d.types[i].elements == 1
    {
      AllCountOnce(found, d.types[i]);
    }
  }

  predicate OnePerPackage(order: seq<T.Cpu>) {
    forall i, j :: 0 <= i < j < |order| ==> order[i].pkg != order[j].pkg
  }

  predicate AllTypesDiffer(order: seq<T.Cpu>) {
    forall i, j :: 0 <= i < j < |order| ==> order[i].cputype != order[j].cputype
  }

  lemma OnePerPackageIff(order: seq<T.Cpu>)
    requires AllTypesDiffer(order)
    ensures OnePerPackage(order) <==> T.CoresUniform(order) && forall pkg :: T.FirstTwoAgree(order, pkg)
  {
    if OnePerPackage(order) {
      forall pkg
        ensures T.FirstTwoAgree(order, pkg)
      {
        if T.SecondOn(order, pkg).Some? {
          var i, j := T.FirstTwoAt(order, pkg);
        }
      }
    }
    if forall pkg :: T.FirstTwoAgree(order, pkg) {
      forall i, j | 0 <= i < j < |order|
        ensures order[i].pkg != order[j].pkg
      {
        assert T.FirstTwoAgree(order, order[i].pkg);
        if order[i].pkg == order[j].pkg {
          T.TwoMakeASecond(order, i, j);
          var k, l := T.FirstTwoAt(order, order[i].pkg);
        }
      }
    }
  }

  lemma IndicesDiffer(d: C.Detected, at: nat -> Position)
    requires |d.indices| == |d.visited| && forall k, l :: 0 <= k < l < |d.visited| ==> d.indices[k] != d.indices[l]
    ensures AllTypesDiffer(Order(d, at))
  {
  }

  predicate PackagesDiffer(at: nat -> Position, aids: seq<nat>) {
    forall k, l :: 0 <= k < l < |aids| ==> at(aids[k]).pkg != at(aids[l]).pkg
  }

  lemma PackagesDifferMeans(d: C.Detected, at: nat -> Position)
    requires |d.indices| == |d.visited|
    ensures OnePerPackage(Order(d, at)) <==> PackagesDiffer(at, d.visited)
  {
    var order := Order(d, at);
    assert forall m :: 0 <= m < |order| ==> order[m].pkg == at(d.visited[m]).pkg;
    if OnePerPackage(order) {
      forall k, l | 0 <= k < l < |d.visited| ensures at(d.visited[k]).pkg != at(d.visited[l]).pkg { assert order[k].pkg != order[l].pkg; }
    }
  }

  /** So, for processors that fit their records and have distinct APIC ids: every one is looked
      up to a description of itself if and only if every package has one processor. */
  lemma OwnDescriptionsByApicIff(env: nat -> C.Report, apic: ApicOf, d: C.Detected)
    requires C.Sound(env, d.visited, d) && T.Distinct(Order(d, PositionFrom(env, apic)), |d.visited|)
    requires DistinctApics(env, apic, d.visited)
    ensures (forall k :: 0 <= k < |d.visited| ==> DescribesOwn(env, d, PositionFrom(env, apic), k)) <==>
            PackagesDiffer(PositionFrom(env, apic), d.visited)
  {
    var at := PositionFrom(env, apic);
    OwnDescriptionsByOrder(env, d, at);
    EachItsOwnType(env, apic, d.visited, d);
    IndicesDiffer(d, at);
    OnePerPackageIff(Order(d, at));
    PackagesDifferMeans(d, at);
  }

  // ---- The loop -----------------------------------------------------------------------------------

  /** Whether each of the zones topologize() may have to create gets its memory. */
  datatype Memory = Memory(package: bool, first: bool, core: bool)

  lemma DistinctPrefix(order: seq<T.Cpu>, slots: nat, k: nat)
    requires T.Distinct(order, slots) && k < |order|
    ensures T.Distinct(order[..k], slots) && T.Distinct(order[..k + 1], slots)
    ensures order[k].aid !in T.PlacementOf(order[..k])
    ensures order[..k + 1][..k] == order[..k] && order[..k + 1][k] == order[k]
  {
    T.PlacedMeans(order[..k], slots, order[k].aid);
  }

  /** The calls of topologize() made for processors that fit their records: with memory for
      the zones all succeed and leave the tree of the whole order. */
  method TopologizeAll(order: seq<T.Cpu>, slots: nat, memory: nat -> Memory) returns (d: T.Detection, ok: bool)
    requires T.Distinct(order, slots)
    ensures ok ==> d.zones == T.Build(order, slots).zones && T.Canonical(d.zones, T.PlacementOf(order))
    ensures (forall k :: memory(k) == Memory(true, true, true)) ==> ok
  {
    d := new T.Detection(slots);
    T.BuildIsCanonical(order, slots);
    var k: nat := 0;
    assert order[..0] == [];
    while k < |order|
      invariant k <= |order| && d.tm.Length == slots && fresh(d) && fresh(d.tm)
      invariant T.Distinct(order[..k], slots)
      invariant d.zones == T.Build(order[..k], slots).zones && d.tm[..] == T.Build(order[..k], slots).tm
      invariant d.Valid(T.PlacementOf(order[..k]))
    {
      DistinctPrefix(order, slots, k);
      assert T.PlacementOf(order[..k + 1]) == T.PlacementOf(order[..k])[order[k].aid := T.PlaceOf(order[k])];
      var m := memory(k);
      var err := d.Topologize(order[k], m.package, m.first, m.core, T.PlacementOf(order[..k]));
      if !err.Success? {
        return d, false;
      }
      k := k + 1;
    }
    assert order[..k] == order;
    return d, true;
  }
}
