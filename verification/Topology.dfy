/** The scheduling topology (hardware/topology.c): a list of packages sorted by id,
    and below a package, once it has a second CPU, a sorted list of cores. */
module Topology {
  import opened Common

  /** torque_topt: `next` is the order of the list a zone stands in. */
  datatype Zone = Zone(groupid: nat, cpudesc: nat, schedulable: set<nat>, sub: seq<Zone>)

  /** top_map, the record kept of each CPU during detection. */
  datatype TopMap = TopMap(thread: nat, core: nat, package: nat)

  /** A CPU as detection reports it; `cputype` indexes the processor types. */
  datatype Cpu = Cpu(aid: nat, thread: nat, core: nat, pkg: nat, cputype: nat)

  datatype Err = Success | AssertFailed | OutOfResources

  // ---- The specification ---------------------------------------------------------------

  /** Where `id` belongs in a sorted list: before the first larger or equal id. */
  function Position(zones: seq<Zone>, id: nat): (p: nat)
    ensures p <= |zones|
    ensures forall i :: 0 <= i < p ==> zones[i].groupid < id
    ensures p < |zones| ==> zones[p].groupid >= id
  {
    if zones == [] || zones[0].groupid >= id then 0 else 1 + Position(zones[1..], id)
  }

  predicate Has(zones: seq<Zone>, id: nat) {
    exists i :: 0 <= i < |zones| && zones[i].groupid == id
  }

  predicate Found(zones: seq<Zone>, id: nat) {
    Position(zones, id) < |zones| && zones[Position(zones, id)].groupid == id
  }

  /** The list with a group for `id`. */
  function WithGroup(zones: seq<Zone>, id: nat, cputype: nat): (r: seq<Zone>)
    ensures Position(zones, id) < |r| && r[Position(zones, id)].groupid == id
  {
    var p := Position(zones, id);
    if Found(zones, id) then zones else zones[..p] + [Zone(id, cputype, {}, [])] + zones[p..]
  }

  /** The lowest CPU of a set at or above `z`. */
  function FirstFrom(cpus: set<nat>, z: nat): (r: nat)
    requires z <= CPU_SETSIZE
    ensures z <= r <= CPU_SETSIZE
    ensures r < CPU_SETSIZE ==> r in cpus
    ensures forall a :: z <= a < r ==> a !in cpus
    decreases CPU_SETSIZE - z
  {
    if z == CPU_SETSIZE || z in cpus then z else FirstFrom(cpus, z + 1)
  }

  /** A package that is about to get a second CPU grows a level for its first. */
  function Split(z: Zone, core: nat, cputype: nat, first: nat): Zone {
    if z.sub == [] then z.(sub := [Zone(core, cputype, {first}, [])]) else z
  }

  function AddTo(zones: seq<Zone>, id: nat, cputype: nat, aid: nat): seq<Zone> {
    var groups := WithGroup(zones, id, cputype);
    var p := Position(zones, id);
    groups[p := groups[p].(schedulable := groups[p].schedulable + {aid})]
  }

  /** The core recorded for the first CPU of a set. */
  function FirstCore(tm: seq<TopMap>, cpus: set<nat>): nat {
    var oid := FirstFrom(cpus, 0);
    if oid < |tm| then tm[oid].core else 0
  }

  function Extended(z: Zone, tm: seq<TopMap>, cpu: Cpu): Zone {
    if z.schedulable == {} then z
    else
      var split := Split(z, FirstCore(tm, z.schedulable), cpu.cputype, FirstFrom(z.schedulable, 0));
      split.(sub := AddTo(split.sub, cpu.core, cpu.cputype, cpu.aid))
  }

  /** The tree after a successful topologize(). */
  function Topologized(zones: seq<Zone>, tm: seq<TopMap>, cpu: Cpu): seq<Zone> {
    var groups := WithGroup(zones, cpu.pkg, cpu.cputype);
    var p := Position(zones, cpu.pkg);
    var z := Extended(groups[p], tm, cpu);
    groups[p := z.(schedulable := z.schedulable + {cpu.aid})]
  }

  // ---- The plain map the tree must agree with --------------------------------------------

  datatype Place = Place(pkg: nat, core: nat, cputype: nat)

  type Placement = map<nat, Place>

  function ByPackage(placed: Placement): map<nat, nat> {
    map a | a in placed :: placed[a].pkg
  }

  function ByCore(placed: Placement, pkg: nat): map<nat, nat> {
    map a | a in placed && placed[a].pkg == pkg :: placed[a].core
  }

  predicate Sorted(zones: seq<Zone>) {
    forall i, j :: 0 <= i < j < |zones| ==> zones[i].groupid < zones[j].groupid
  }

  /** One level of the tree groups the CPUs by the ids `keyed` gives them: the ids are
      strictly increasing, each group holds exactly its CPUs and at least one, and
      every CPU has its group. */
  ghost predicate Level(zones: seq<Zone>, keyed: map<nat, nat>) {
    && Sorted(zones)
    && (forall i :: 0 <= i < |zones| ==> Group(zones[i], keyed))
    && (forall a :: a in keyed ==> Has(zones, keyed[a]))
  }

  ghost predicate Group(z: Zone, keyed: map<nat, nat>) {
    && z.schedulable != {}
    && (forall a :: a in z.schedulable <==> a in keyed && keyed[a] == z.groupid)
  }

  /** A childless package holds exactly one CPU; any other lists its cores. */
  ghost predicate PackageOk(z: Zone, placed: Placement) {
    if z.sub == [] then exists a :: z.schedulable == {a}
    else
      && Level(z.sub, ByCore(placed, z.groupid))
      && (forall i :: 0 <= i < |z.sub| ==> z.sub[i].sub == [])
  }

  ghost predicate WellFormed(zones: seq<Zone>, placed: Placement) {
    && Level(zones, ByPackage(placed))
    && (forall i :: 0 <= i < |zones| ==> PackageOk(zones[i], placed))
    && (forall a :: a in placed ==> a < CPU_SETSIZE)
  }

  /** A package has a level of cores exactly when it has two CPUs or more. */
  ghost predicate Canonical(zones: seq<Zone>, placed: Placement) {
    && WellFormed(zones, placed)
    && (forall i :: 0 <= i < |zones| ==> zones[i].sub != [] ==> |zones[i].schedulable| >= 2)
  }

  /** The record of each placed CPU names its core. */
  predicate Recorded(tm: seq<TopMap>, placed: Placement) {
    forall a :: a in placed ==> a < |tm| && tm[a].core == placed[a].core && tm[a].package == placed[a].pkg
  }

  function PlaceOf(cpu: Cpu): Place { Place(cpu.pkg, cpu.core, cpu.cputype) }

  // ---- Adding a CPU keeps the agreement -----------------------------------------------------

  lemma FoundMeansHas(zones: seq<Zone>, id: nat)
    requires Sorted(zones)
    ensures Found(zones, id) <==> Has(zones, id)
  {
  }

  /** What the list with a group for `id` contains, position by position. */
  lemma WithGroupAt(zones: seq<Zone>, id: nat, cputype: nat, i: nat)
    requires i < |WithGroup(zones, id, cputype)|
    ensures var r := WithGroup(zones, id, cputype);
            var p := Position(zones, id);
            && |r| == |zones| + (if Found(zones, id) then 0 else 1)
            && (i == p && !Found(zones, id) ==> r[i] == Zone(id, cputype, {}, []))
            && (i < p || Found(zones, id) ==> r[i] == zones[i])
            && (i > p && !Found(zones, id) ==> r[i] == zones[i - 1])
  {
  }

  lemma WithGroupSorted(zones: seq<Zone>, id: nat, cputype: nat)
    requires Sorted(zones)
    ensures Sorted(WithGroup(zones, id, cputype))
  {
    var p := Position(zones, id);
    var r := WithGroup(zones, id, cputype);
    forall i, j | 0 <= i < j < |r|
      ensures r[i].groupid < r[j].groupid
    {
      WithGroupAt(zones, id, cputype, i);
      WithGroupAt(zones, id, cputype, j);
    }
  }

  lemma WithGroupHas(zones: seq<Zone>, id: nat, cputype: nat, k: nat)
    requires Has(zones, k) || k == id
    ensures Has(WithGroup(zones, id, cputype), k)
  {
    var p := Position(zones, id);
    var r := WithGroup(zones, id, cputype);
    if k != id {
      var i: nat :| i < |zones| && zones[i].groupid == k;
      assert r[if i < p || Found(zones, id) then i else i + 1].groupid == k;
    } else {
      assert r[p].groupid == id;
    }
  }

  lemma NewGroup(zones: seq<Zone>, keyed: map<nat, nat>, id: nat, cputype: nat, aid: nat, z: Zone)
    requires Level(zones, keyed) && aid !in keyed && z.groupid == id
    requires z.schedulable == WithGroup(zones, id, cputype)[Position(zones, id)].schedulable + {aid}
    ensures Group(z, keyed[aid := id])
  {
    var p := Position(zones, id);
    WithGroupAt(zones, id, cputype, p);
    if Found(zones, id) {
      assert Group(zones[p], keyed);
    } else {
      FoundMeansHas(zones, id);
      assert z.schedulable == {aid};
      forall a | a in keyed ensures keyed[a] != id { assert Has(zones, keyed[a]); }
    }
  }

  lemma GroupUnaffected(z: Zone, keyed: map<nat, nat>, aid: nat, id: nat)
    requires Group(z, keyed) && z.groupid != id && aid !in keyed
    ensures Group(z, keyed[aid := id])
  {
  }

  lemma OtherZone(zones: seq<Zone>, id: nat, cputype: nat, i: nat) returns (k: nat)
    requires Sorted(zones) && i < |WithGroup(zones, id, cputype)| && i != Position(zones, id)
    ensures k < |zones| && WithGroup(zones, id, cputype)[i] == zones[k] && zones[k].groupid != id
  {
    WithGroupAt(zones, id, cputype, i);
    k := if i < Position(zones, id) || Found(zones, id) then i else i - 1;
  }

  lemma OtherGroup(zones: seq<Zone>, keyed: map<nat, nat>, id: nat, cputype: nat, aid: nat, i: nat)
    requires Level(zones, keyed) && aid !in keyed
    requires i < |WithGroup(zones, id, cputype)| && i != Position(zones, id)
    ensures Group(WithGroup(zones, id, cputype)[i], keyed[aid := id])
  {
    var k := OtherZone(zones, id, cputype, i);
    GroupUnaffected(zones[k], keyed, aid, id);
  }

  /** Finding or making the group of a new CPU and adding the CPU to it, whatever else
      happens to that group, keeps a level grouped. */
  lemma LevelGrows(zones: seq<Zone>, keyed: map<nat, nat>, id: nat, cputype: nat, aid: nat, z: Zone)
    requires Level(zones, keyed) && aid !in keyed && z.groupid == id
    requires z.schedulable == WithGroup(zones, id, cputype)[Position(zones, id)].schedulable + {aid}
    ensures Level(WithGroup(zones, id, cputype)[Position(zones, id) := z], keyed[aid := id])
  {
    var p := Position(zones, id);
    var groups := WithGroup(zones, id, cputype);
    var r := groups[p := z];
    var grown := keyed[aid := id];
    WithGroupSorted(zones, id, cputype);
    assert Sorted(r);
    forall i | 0 <= i < |r|
      ensures Group(r[i], grown)
    {
      if i == p {
        NewGroup(zones, keyed, id, cputype, aid, z);
      } else {
        OtherGroup(zones, keyed, id, cputype, aid, i);
      }
    }
    forall a | a in grown
      ensures Has(r, grown[a])
    {
      StillHas(zones, id, cputype, z, grown[a]);
    }
  }

  lemma StillHas(zones: seq<Zone>, id: nat, cputype: nat, z: Zone, k: nat)
    requires z.groupid == id && (Has(zones, k) || k == id)
    ensures Has(WithGroup(zones, id, cputype)[Position(zones, id) := z], k)
  {
    WithGroupHas(zones, id, cputype, k);
    var groups := WithGroup(zones, id, cputype);
    SameIdsHas(groups, groups[Position(zones, id) := z], k);
  }

  lemma SameIdsHas(s: seq<Zone>, t: seq<Zone>, id: nat)
    requires |s| == |t| && forall i :: 0 <= i < |s| ==> s[i].groupid == t[i].groupid
    ensures Has(s, id) ==> Has(t, id)
  {
    if i :| 0 <= i < |s| && s[i].groupid == id {
      assert t[i].groupid == id;
    }
  }

  lemma PlacementGrows(placed: Placement, cpu: Cpu, p: nat)
    requires cpu.aid !in placed
    ensures ByPackage(placed[cpu.aid := PlaceOf(cpu)]) == ByPackage(placed)[cpu.aid := cpu.pkg]
    ensures ByCore(placed[cpu.aid := PlaceOf(cpu)], p) ==
            if p == cpu.pkg then ByCore(placed, p)[cpu.aid := cpu.core] else ByCore(placed, p)
  {
  }

  /** The lazy split is right because a childless package holds exactly one CPU. */
  lemma SplitOk(z: Zone, placed: Placement, tm: seq<TopMap>, cputype: nat)
    requires Group(z, ByPackage(placed)) && PackageOk(z, placed) && Recorded(tm, placed)
    requires forall a :: a in placed ==> a < CPU_SETSIZE
    ensures var s := Split(z, FirstCore(tm, z.schedulable), cputype, FirstFrom(z.schedulable, 0));
            && s.sub != [] && PackageOk(s, placed)
            && s.groupid == z.groupid && s.schedulable == z.schedulable && s.cpudesc == z.cpudesc
  {
    if z.sub == [] {
      var a :| z.schedulable == {a};
      assert a in z.schedulable;
      assert FirstFrom(z.schedulable, 0) == a;
      var keyed := ByCore(placed, z.groupid);
      assert keyed == map[a := placed[a].core] by {
        forall b ensures b in keyed <==> b == a { assert b in z.schedulable <==> b == a; }
      }
      var s := [Zone(placed[a].core, cputype, {a}, [])];
      assert s[0].groupid == keyed[a];
      assert Level(s, keyed);
    }
  }

  lemma AddToChildless(sub: seq<Zone>, core: nat, cputype: nat, aid: nat)
    requires forall i :: 0 <= i < |sub| ==> sub[i].sub == []
    ensures var r := AddTo(sub, core, cputype, aid); r != [] && forall i :: 0 <= i < |r| ==> r[i].sub == []
  {
    forall i | 0 <= i < |AddTo(sub, core, cputype, aid)|
      ensures AddTo(sub, core, cputype, aid)[i].sub == []
    {
      WithGroupAt(sub, core, cputype, i);
      WithGroupAt(sub, core, cputype, Position(sub, core));
    }
  }

  lemma AddToLevel(sub: seq<Zone>, keyed: map<nat, nat>, core: nat, cputype: nat, aid: nat)
    requires Level(sub, keyed) && aid !in keyed
    ensures Level(AddTo(sub, core, cputype, aid), keyed[aid := core])
  {
    var groups := WithGroup(sub, core, cputype);
    var p := Position(sub, core);
    LevelGrows(sub, keyed, core, cputype, aid, groups[p].(schedulable := groups[p].schedulable + {aid}));
  }

  lemma ExtendedOk(z: Zone, placed: Placement, tm: seq<TopMap>, cpu: Cpu)
    requires Group(z, ByPackage(placed)) && PackageOk(z, placed) && Recorded(tm, placed)
    requires forall a :: a in placed ==> a < CPU_SETSIZE
    requires cpu.aid !in placed && z.groupid == cpu.pkg
    ensures var r := Extended(z, tm, cpu);
            && r.sub != [] && r.groupid == z.groupid && r.schedulable == z.schedulable
            && PackageOk(r.(schedulable := r.schedulable + {cpu.aid}), placed[cpu.aid := PlaceOf(cpu)])
  {
    SplitOk(z, placed, tm, cpu.cputype);
    var split := Split(z, FirstCore(tm, z.schedulable), cpu.cputype, FirstFrom(z.schedulable, 0));
    PlacementGrows(placed, cpu, cpu.pkg);
    AddToLevel(split.sub, ByCore(placed, cpu.pkg), cpu.core, cpu.cputype, cpu.aid);
    AddToChildless(split.sub, cpu.core, cpu.cputype, cpu.aid);
  }

  lemma OtherPackageOk(z: Zone, placed: Placement, cpu: Cpu)
    requires PackageOk(z, placed) && cpu.aid !in placed && z.groupid != cpu.pkg
    ensures PackageOk(z, placed[cpu.aid := PlaceOf(cpu)])
  {
    PlacementGrows(placed, cpu, z.groupid);
  }

  /** The group topologize() ends up with for the new CPU's package. */
  lemma TargetOk(zones: seq<Zone>, placed: Placement, tm: seq<TopMap>, cpu: Cpu)
    requires WellFormed(zones, placed) && Recorded(tm, placed)
    requires cpu.aid !in placed
    ensures var old_ := WithGroup(zones, cpu.pkg, cpu.cputype)[Position(zones, cpu.pkg)];
            var z := Extended(old_, tm, cpu);
            && z.groupid == cpu.pkg && z.schedulable == old_.schedulable
            && PackageOk(z.(schedulable := z.schedulable + {cpu.aid}), placed[cpu.aid := PlaceOf(cpu)])
            && (z.sub != [] ==> z.schedulable != {} && cpu.aid !in z.schedulable)
  {
    var p := Position(zones, cpu.pkg);
    WithGroupAt(zones, cpu.pkg, cpu.cputype, p);
    if Found(zones, cpu.pkg) {
      assert Group(zones[p], ByPackage(placed));
      ExtendedOk(zones[p], placed, tm, cpu);
    } else {
      assert {} + {cpu.aid} == {cpu.aid};
    }
  }

  lemma OthersOk(zones: seq<Zone>, placed: Placement, cpu: Cpu, i: nat)
    requires WellFormed(zones, placed) && cpu.aid !in placed
    requires i < |WithGroup(zones, cpu.pkg, cpu.cputype)| && i != Position(zones, cpu.pkg)
    ensures var z := WithGroup(zones, cpu.pkg, cpu.cputype)[i];
            PackageOk(z, placed[cpu.aid := PlaceOf(cpu)]) && z in zones
  {
    var groups := WithGroup(zones, cpu.pkg, cpu.cputype);
    WithGroupAt(zones, cpu.pkg, cpu.cputype, i);
    WithGroupSorted(zones, cpu.pkg, cpu.cputype);
    assert groups[i].groupid != cpu.pkg;
    OtherPackageOk(groups[i], placed, cpu);
  }

  /** A successful topologize() keeps the tree in agreement with the map. */
  lemma TopologizedWellFormed(zones: seq<Zone>, placed: Placement, tm: seq<TopMap>, cpu: Cpu)
    requires WellFormed(zones, placed) && Recorded(tm, placed)
    requires cpu.aid !in placed && cpu.aid < CPU_SETSIZE
    ensures WellFormed(Topologized(zones, tm, cpu), placed[cpu.aid := PlaceOf(cpu)])
  {
    var placed' := placed[cpu.aid := PlaceOf(cpu)];
    var p := Position(zones, cpu.pkg);
    var groups := WithGroup(zones, cpu.pkg, cpu.cputype);
    var z := Extended(groups[p], tm, cpu);
    var r := Topologized(zones, tm, cpu);
    TargetOk(zones, placed, tm, cpu);
    PlacementGrows(placed, cpu, cpu.pkg);
    LevelGrows(zones, ByPackage(placed), cpu.pkg, cpu.cputype, cpu.aid, z.(schedulable := z.schedulable + {cpu.aid}));
    forall i | 0 <= i < |r|
      ensures PackageOk(r[i], placed')
    {
      if i != p {
        OthersOk(zones, placed, cpu, i);
      }
    }
  }

  /** ... and canonical, if it was. */
  lemma TopologizedCanonical(zones: seq<Zone>, placed: Placement, tm: seq<TopMap>, cpu: Cpu)
    requires Canonical(zones, placed) && Recorded(tm, placed)
    requires cpu.aid !in placed && cpu.aid < CPU_SETSIZE
    ensures Canonical(Topologized(zones, tm, cpu), placed[cpu.aid := PlaceOf(cpu)])
  {
    TopologizedWellFormed(zones, placed, tm, cpu);
    TargetOk(zones, placed, tm, cpu);
    var p := Position(zones, cpu.pkg);
    var r := Topologized(zones, tm, cpu);
    forall i | 0 <= i < |r| && r[i].sub != []
      ensures |r[i].schedulable| >= 2
    {
      if i == p {
        AtLeastTwo(r[p].schedulable, r[p].schedulable - {cpu.aid}, cpu.aid);
      } else {
        OthersOk(zones, placed, cpu, i);
      }
    }
  }

  lemma AtLeastTwo(all: set<nat>, others: set<nat>, a: nat)
    requires others != {} && a !in others && all == others + {a}
    ensures |all| >= 2
  {
    assert |others| > 0;
  }

  // ---- The rules for walking the topology ------------------------------------------------

  function UnionOf(zones: seq<Zone>): set<nat> {
    if zones == [] then {} else zones[0].schedulable + UnionOf(zones[1..])
  }

  lemma {:induction false} InUnion(zones: seq<Zone>, a: nat)
    ensures a in UnionOf(zones) <==> exists i :: 0 <= i < |zones| && a in zones[i].schedulable
  {
    if zones != [] {
      InUnion(zones[1..], a);
      if i :| 0 <= i < |zones[1..]| && a in zones[1..][i].schedulable {
        assert a in zones[i + 1].schedulable;
      }
    }
  }

  lemma LevelRules(zones: seq<Zone>, keyed: map<nat, nat>)
    requires Level(zones, keyed)
    ensures forall i, j :: 0 <= i < j < |zones| ==> zones[i].schedulable !! zones[j].schedulable
    ensures UnionOf(zones) == keyed.Keys
  {
    forall i, j | 0 <= i < j < |zones|
      ensures zones[i].schedulable !! zones[j].schedulable
    {
      assert Group(zones[i], keyed) && Group(zones[j], keyed);
    }
    forall a
      ensures a in UnionOf(zones) <==> a in keyed.Keys
    {
      InUnion(zones, a);
      if a in keyed {
        var i :| 0 <= i < |zones| && zones[i].groupid == keyed[a];
        assert Group(zones[i], keyed) && a in zones[i].schedulable;
      }
    }
  }

  /** Siblings are disjoint, a parent is the union of its children, the whole tree holds
      exactly the placed CPUs. */
  lemma WalkingRules(zones: seq<Zone>, placed: Placement)
    requires WellFormed(zones, placed)
    ensures UnionOf(zones) == placed.Keys
    ensures forall i, j :: 0 <= i < j < |zones| ==> zones[i].schedulable !! zones[j].schedulable
    ensures forall i :: 0 <= i < |zones| && zones[i].sub != [] ==> UnionOf(zones[i].sub) == zones[i].schedulable
  {
    LevelRules(zones, ByPackage(placed));
    forall i | 0 <= i < |zones| && zones[i].sub != []
      ensures UnionOf(zones[i].sub) == zones[i].schedulable
    {
      var z := zones[i];
      assert Group(z, ByPackage(placed));
      LevelRules(z.sub, ByCore(placed, z.groupid));
      assert forall a :: a in z.schedulable <==> a in ByCore(placed, z.groupid);
    }
  }

  // ---- The tree is canonical ----------------------------------------------------------------

  /** A zone without its processor type. */
  datatype Bare = Bare(groupid: nat, schedulable: set<nat>, sub: seq<Bare>)

  function Shape(zones: seq<Zone>): (r: seq<Bare>)
    ensures |r| == |zones|
    decreases zones
  {
    if zones == [] then []
    else [Bare(zones[0].groupid, zones[0].schedulable, Shape(zones[0].sub))] + Shape(zones[1..])
  }

  lemma {:induction false} ShapeAt(zones: seq<Zone>, i: nat)
    requires i < |zones|
    ensures Shape(zones)[i] == Bare(zones[i].groupid, zones[i].schedulable, Shape(zones[i].sub))
  {
    if i > 0 {
      ShapeAt(zones[1..], i - 1);
    }
  }

  ghost predicate SameMembers(s: seq<nat>, t: seq<nat>) {
    forall x :: x in s <==> x in t
  }

  lemma FirstIsLeast(s: seq<nat>, x: nat)
    requires Increasing(s) && x in s
    ensures s[0] <= x && (x in s[1..] <==> x != s[0])
  {
  }

  lemma {:induction false} SortedSame(s: seq<nat>, t: seq<nat>)
    requires Increasing(s) && Increasing(t) && SameMembers(s, t)
    ensures s == t
    decreases |s|
  {
    if |s| > 0 { assert s[0] in s; }
    if |t| > 0 { assert t[0] in t; }
    if |s| > 0 {
      FirstIsLeast(s, t[0]);
      FirstIsLeast(t, s[0]);
      forall x
        ensures x in s[1..] <==> x in t[1..]
      {
        if x in s { FirstIsLeast(s, x); FirstIsLeast(t, x); }
      }
      SortedSame(s[1..], t[1..]);
    }
  }

  lemma IdsAreKeys(zones: seq<Zone>, keyed: map<nat, nat>, id: nat)
    requires Level(zones, keyed)
    ensures Has(zones, id) <==> id in keyed.Values
  {
    if i :| 0 <= i < |zones| && zones[i].groupid == id {
      assert Group(zones[i], keyed);
      var a :| a in zones[i].schedulable;
      assert keyed[a] == id;
    }
  }

  /** Two levels that group the same CPUs the same way have the same groups in the same
      places. */
  lemma LevelUnique(s: seq<Zone>, t: seq<Zone>, keyed: map<nat, nat>)
    requires Level(s, keyed) && Level(t, keyed)
    ensures |s| == |t|
    ensures forall i :: 0 <= i < |s| ==> s[i].groupid == t[i].groupid && s[i].schedulable == t[i].schedulable
  {
    var ids := seq(|s|, i requires 0 <= i < |s| => s[i].groupid);
    var idt := seq(|t|, i requires 0 <= i < |t| => t[i].groupid);
    forall x
      ensures x in ids <==> x in idt
    {
      IdsAreKeys(s, keyed, x);
      IdsAreKeys(t, keyed, x);
      assert x in ids <==> Has(s, x) by {
        if Has(s, x) { var i :| 0 <= i < |s| && s[i].groupid == x; assert ids[i] == x; }
      }
      assert x in idt <==> Has(t, x) by {
        if Has(t, x) { var i :| 0 <= i < |t| && t[i].groupid == x; assert idt[i] == x; }
      }
    }
    SortedSame(ids, idt);
    forall i | 0 <= i < |s|
      ensures s[i].groupid == t[i].groupid && s[i].schedulable == t[i].schedulable
    {
      assert ids[i] == idt[i];
      assert Group(s[i], keyed) && Group(t[i], keyed);
      assert forall a :: a in s[i].schedulable <==> a in t[i].schedulable;
    }
  }

  lemma CoreLevelShape(s: seq<Zone>, t: seq<Zone>, keyed: map<nat, nat>)
    requires Level(s, keyed) && Level(t, keyed)
    requires forall i :: 0 <= i < |s| ==> s[i].sub == []
    requires forall i :: 0 <= i < |t| ==> t[i].sub == []
    ensures Shape(s) == Shape(t)
  {
    LevelUnique(s, t, keyed);
    forall i | 0 <= i < |s|
      ensures Shape(s)[i] == Shape(t)[i]
    {
      ShapeAt(s, i);
      ShapeAt(t, i);
    }
  }

  /** The map decides the tree, processor types apart. */
  lemma CanonicalUnique(s: seq<Zone>, t: seq<Zone>, placed: Placement)
    requires Canonical(s, placed) && Canonical(t, placed)
    ensures Shape(s) == Shape(t)
  {
    LevelUnique(s, t, ByPackage(placed));
    forall i | 0 <= i < |s|
      ensures Shape(s)[i] == Shape(t)[i]
    {
      ShapeAt(s, i);
      ShapeAt(t, i);
      assert PackageOk(s[i], placed) && PackageOk(t[i], placed);
      if s[i].sub != [] && t[i].sub != [] {
        CoreLevelShape(s[i].sub, t[i].sub, ByCore(placed, s[i].groupid));
      }
    }
  }

  // ---- Detection in any order ----------------------------------------------------------------

  datatype Tree = Tree(zones: seq<Zone>, tm: seq<TopMap>)

  predicate Distinct(order: seq<Cpu>, slots: nat) {
    && (forall i :: 0 <= i < |order| ==> order[i].aid < slots && order[i].aid < CPU_SETSIZE)
    && (forall i, j :: 0 <= i < j < |order| ==> order[i].aid != order[j].aid)
  }

  /** The tree after topologizing the CPUs in this order, into a zeroed map of `slots`
      records. */
  function Build(order: seq<Cpu>, slots: nat): (r: Tree)
    requires Distinct(order, slots)
    ensures |r.tm| == slots
  {
    if order == [] then Tree([], seq(slots, _ => TopMap(0, 0, 0)))
    else
      var before := Build(order[..|order| - 1], slots);
      var cpu := order[|order| - 1];
      Tree(Topologized(before.zones, before.tm, cpu),
           before.tm[cpu.aid := TopMap(cpu.thread, cpu.core, cpu.pkg)])
  }

  function PlacementOf(order: seq<Cpu>): Placement {
    if order == [] then map[]
    else PlacementOf(order[..|order| - 1])[order[|order| - 1].aid := PlaceOf(order[|order| - 1])]
  }

  lemma {:induction false} PlacedMeans(order: seq<Cpu>, slots: nat, a: nat)
    requires Distinct(order, slots)
    ensures a in PlacementOf(order) <==> exists i :: 0 <= i < |order| && order[i].aid == a
    ensures forall i :: 0 <= i < |order| && order[i].aid == a ==>
              a in PlacementOf(order) && PlacementOf(order)[a] == PlaceOf(order[i])
  {
    if order != [] {
      var front := order[..|order| - 1];
      PlacedMeans(front, slots, a);
      if a == order[|order| - 1].aid {
        assert order[|order| - 1].aid == a;
      } else if i :| 0 <= i < |order| && order[i].aid == a {
        assert front[i].aid == a;
      }
      assert a in PlacementOf(front) ==> exists i :: 0 <= i < |order| && order[i].aid == a by {
        if i :| 0 <= i < |front| && front[i].aid == a {
          assert order[i].aid == a;
        }
      }
    }
  }

  lemma EmptyIsCanonical(tm: seq<TopMap>)
    ensures Canonical([], map[]) && Recorded(tm, map[])
  {
    assert ByPackage(map[]) == map[];
  }

  lemma RecordedGrows(tm: seq<TopMap>, placed: Placement, cpu: Cpu)
    requires Recorded(tm, placed) && cpu.aid < |tm| && cpu.aid !in placed
    ensures Recorded(tm[cpu.aid := TopMap(cpu.thread, cpu.core, cpu.pkg)], placed[cpu.aid := PlaceOf(cpu)])
  {
  }

  lemma DistinctFront(order: seq<Cpu>, slots: nat)
    requires Distinct(order, slots) && order != []
    ensures Distinct(order[..|order| - 1], slots) && order[|order| - 1].aid !in PlacementOf(order[..|order| - 1])
  {
    PlacedMeans(order[..|order| - 1], slots, order[|order| - 1].aid);
  }

  /** However the CPUs are discovered, the tree is the grouping of their placement. */
  lemma {:induction false} BuildIsCanonical(order: seq<Cpu>, slots: nat)
    requires Distinct(order, slots)
    ensures Canonical(Build(order, slots).zones, PlacementOf(order))
    ensures Recorded(Build(order, slots).tm, PlacementOf(order))
  {
    if order == [] {
      EmptyIsCanonical(Build(order, slots).tm);
    } else {
      var front := order[..|order| - 1];
      var cpu := order[|order| - 1];
      DistinctFront(order, slots);
      BuildIsCanonical(front, slots);
      var before := Build(front, slots);
      TopologizedCanonical(before.zones, PlacementOf(front), before.tm, cpu);
      RecordedGrows(before.tm, PlacementOf(front), cpu);
    }
  }

  /** The record of every CPU is what it reported. */
  lemma {:induction false} BuildRecords(order: seq<Cpu>, slots: nat, k: nat)
    requires Distinct(order, slots) && k < |order|
    ensures Build(order, slots).tm[order[k].aid] == TopMap(order[k].thread, order[k].core, order[k].pkg)
  {
    var front := order[..|order| - 1];
    if k < |front| {
      BuildRecords(front, slots, k);
      assert front[k] == order[k];
    }
  }

  /** Two orders of the same CPUs give the same tree, processor types apart. */
  lemma OrderDoesNotMatter(first: seq<Cpu>, second: seq<Cpu>, slots: nat)
    requires Distinct(first, slots) && Distinct(second, slots)
    requires forall c :: c in first <==> c in second
    ensures Shape(Build(first, slots).zones) == Shape(Build(second, slots).zones)
  {
    BuildIsCanonical(first, slots);
    BuildIsCanonical(second, slots);
    forall a
      ensures a in PlacementOf(first) <==> a in PlacementOf(second)
      ensures a in PlacementOf(first) ==> PlacementOf(first)[a] == PlacementOf(second)[a]
    {
      PlacedMeans(first, slots, a);
      PlacedMeans(second, slots, a);
      if i :| 0 <= i < |first| && first[i].aid == a {
        assert first[i] in second;
        var j :| 0 <= j < |second| && second[j] == first[i];
      }
      if j :| 0 <= j < |second| && second[j].aid == a {
        assert second[j] in first;
        var i :| 0 <= i < |first| && first[i] == second[j];
      }
    }
    assert PlacementOf(first) == PlacementOf(second);
    CanonicalUnique(Build(first, slots).zones, Build(second, slots).zones, PlacementOf(first));
  }

  // ---- Looking a CPU up ------------------------------------------------------------------------

  /** lookup_aid_intop(): down into the first group that has the CPU, never back up. */
  function Lookup(top: seq<Zone>, aid: nat): Option<nat>
    decreases top
  {
    if top == [] then None
    else if aid in top[0].schedulable then
      if top[0].sub != [] then Lookup(top[0].sub, aid) else Some(top[0].cpudesc)
    else Lookup(top[1..], aid)
  }

  lemma {:induction false} LookupSkips(top: seq<Zone>, aid: nat, k: nat)
    requires k <= |top| && forall i :: 0 <= i < k ==> aid !in top[i].schedulable
    ensures Lookup(top, aid) == Lookup(top[k..], aid)
  {
    if k > 0 {
      LookupSkips(top[1..], aid, k - 1);
      assert top[1..][k - 1..] == top[k..];
    } else {
      assert top[0..] == top;
    }
  }

  /** On one grouped level the search stops in the CPU's own group. */
  lemma LookupLevel(zones: seq<Zone>, keyed: map<nat, nat>, aid: nat) returns (i: nat)
    requires Level(zones, keyed)
    ensures aid !in keyed ==> Lookup(zones, aid) == None
    ensures aid in keyed ==> i < |zones| && zones[i].groupid == keyed[aid] && aid in zones[i].schedulable
    ensures aid in keyed ==>
              Lookup(zones, aid) == if zones[i].sub != [] then Lookup(zones[i].sub, aid) else Some(zones[i].cpudesc)
  {
    if aid in keyed {
      i :| 0 <= i < |zones| && zones[i].groupid == keyed[aid];
      assert Group(zones[i], keyed);
      forall j | 0 <= j < i
        ensures aid !in zones[j].schedulable
      {
        assert Group(zones[j], keyed);
      }
      LookupSkips(zones, aid, i);
      assert zones[i..][0] == zones[i];
    } else {
      i := 0;
      forall j | 0 <= j < |zones|
        ensures aid !in zones[j].schedulable
      {
        assert Group(zones[j], keyed);
      }
      LookupSkips(zones, aid, |zones|);
    }
  }

  /** Although the search never backtracks it finds a leaf for exactly the CPUs added. */
  lemma LookupFindsExactlyThePlaced(zones: seq<Zone>, placed: Placement, aid: nat)
    requires WellFormed(zones, placed)
    ensures Lookup(zones, aid).Some? <==> aid in placed
  {
    var i := LookupLevel(zones, ByPackage(placed), aid);
    if aid in placed {
      var z := zones[i];
      assert PackageOk(z, placed);
      if z.sub != [] {
        var j := LookupLevel(z.sub, ByCore(placed, z.groupid), aid);
      }
    }
  }

  // ---- Processor types ---------------------------------------------------------------------------

  /** The first CPU of a package in this order, or on one core of it. */
  function FirstOn(order: seq<Cpu>, pkg: nat, core: Option<nat>): Option<Cpu> {
    if order == [] then None
    else
      var before, last := FirstOn(order[..|order| - 1], pkg, core), order[|order| - 1];
      if before.None? && last.pkg == pkg && (core.None? || last.core == core.value) then Some(last) else before
  }

  /** The second CPU of a package in this order. */
  function SecondOn(order: seq<Cpu>, pkg: nat): Option<Cpu> {
    if order == [] then None
    else
      var front, last := order[..|order| - 1], order[|order| - 1];
      var before := SecondOn(front, pkg);
      if before.None? && last.pkg == pkg && FirstOn(front, pkg, None).Some? then Some(last) else before
  }

  /** The type a leaf is given: a lone CPU's own; else that of the first CPU found on the
      core, save that the core of the package's first CPU is given the type of its second. */
  function Label(order: seq<Cpu>, pkg: nat, core: nat): Option<nat> {
    var first, second, own := FirstOn(order, pkg, None), SecondOn(order, pkg), FirstOn(order, pkg, Some(core));
    if first.None? || own.None? then None
    else if second.None? then Some(first.value.cputype)
    else if first.value.core == core then Some(second.value.cputype)
    else Some(own.value.cputype)
  }

  lemma {:induction false} FirstOnMeans(order: seq<Cpu>, pkg: nat, core: Option<nat>)
    ensures var r := FirstOn(order, pkg, core);
            r.Some? ==> r.value in order && r.value.pkg == pkg && (core.Some? ==> r.value.core == core.value)
    ensures forall k :: 0 <= k < |order| && order[k].pkg == pkg && (core.None? || order[k].core == core.value) ==>
              FirstOn(order, pkg, core).Some?
  {
    if order != [] {
      FirstOnMeans(order[..|order| - 1], pkg, core);
    }
  }

  lemma {:induction false} SecondOnMeans(order: seq<Cpu>, pkg: nat, core: nat)
    ensures SecondOn(order, pkg).Some? ==> SecondOn(order, pkg).value in order && SecondOn(order, pkg).value.pkg == pkg
    ensures SecondOn(order, pkg).None? && FirstOn(order, pkg, Some(core)).Some? ==>
              FirstOn(order, pkg, Some(core)) == FirstOn(order, pkg, None)
    ensures SecondOn(order, pkg).Some? ==> FirstOn(order, pkg, None).Some?
  {
    if order != [] {
      var front := order[..|order| - 1];
      SecondOnMeans(front, pkg, core);
      FirstOnMeans(front, pkg, None);
    }
  }

  /** The first two CPUs of a package are two, */
  lemma {:induction false} FirstTwoAt(order: seq<Cpu>, pkg: nat) returns (i: nat, j: nat)
    requires SecondOn(order, pkg).Some?
    ensures i < j < |order| && order[i].pkg == order[j].pkg == pkg
    ensures forall m :: 0 <= m < j && m != i ==> order[m].pkg != pkg
    ensures FirstOn(order, pkg, None) == Some(order[i]) && SecondOn(order, pkg) == Some(order[j])
  {
    var front := order[..|order| - 1];
    if SecondOn(front, pkg).Some? {
      i, j := FirstTwoAt(front, pkg);
    } else {
      FirstOnMeans(front, pkg, None);
      i :| 0 <= i < |front| && front[i] == FirstOn(front, pkg, None).value;
      j := |order| - 1;
      forall m | 0 <= m < j && m != i
        ensures order[m].pkg != pkg
      {
        if order[m].pkg == pkg {
          TwoMakeASecond(front, if m < i then m else i, if m < i then i else m);
        }
      }
    }
  }

  /** and any two CPUs of a package make a second. */
  lemma {:induction false} TwoMakeASecond(order: seq<Cpu>, i: nat, j: nat)
    requires i < j < |order| && order[i].pkg == order[j].pkg
    ensures SecondOn(order, order[i].pkg).Some?
  {
    var front := order[..|order| - 1];
    if j < |front| {
      TwoMakeASecond(front, i, j);
    } else {
      FirstOnMeans(front, order[i].pkg, None);
      assert front[i].pkg == order[i].pkg;
    }
  }

  /** A leaf below the package carries its label. */
  ghost predicate CoreLabelled(c: Zone, pkg: nat, order: seq<Cpu>) {
    Label(order, pkg, c.groupid) == Some(c.cpudesc)
  }

  ghost predicate Labelled(z: Zone, order: seq<Cpu>) {
    var first := FirstOn(order, z.groupid, None);
    && first.Some?
    && if z.sub == [] then
         SecondOn(order, z.groupid).None? && z.cpudesc == first.value.cputype && z.schedulable == {first.value.aid}
       else
         SecondOn(order, z.groupid).Some? && forall j :: 0 <= j < |z.sub| ==> CoreLabelled(z.sub[j], z.groupid, order)
  }

  /** A CPU of another package changes no label; nor does one on a core already labelled,
      once the package has two. */
  lemma LabelKept(order: seq<Cpu>, cpu: Cpu, pkg: nat, core: nat)
    requires cpu.pkg != pkg || (SecondOn(order, pkg).Some? && Label(order, pkg, core).Some?)
    ensures Label(order + [cpu], pkg, core) == Label(order, pkg, core)
    ensures FirstOn(order + [cpu], pkg, None) == FirstOn(order, pkg, None)
    ensures SecondOn(order + [cpu], pkg) == SecondOn(order, pkg)
  {
    assert (order + [cpu])[..|order|] == order;
    SecondOnMeans(order, pkg, core);
  }

  lemma OtherLabelled(z: Zone, order: seq<Cpu>, cpu: Cpu)
    requires Labelled(z, order) && z.groupid != cpu.pkg
    ensures Labelled(z, order + [cpu])
  {
    LabelKept(order, cpu, z.groupid, 0);
    forall j | 0 <= j < |z.sub|
      ensures CoreLabelled(z.sub[j], z.groupid, order + [cpu])
    {
      assert CoreLabelled(z.sub[j], z.groupid, order);
      LabelKept(order, cpu, z.groupid, z.sub[j].groupid);
    }
  }

  /** The package's second CPU: its first is on `first.core` and takes the newcomer's type. */
  lemma SecondLabelled(order: seq<Cpu>, cpu: Cpu, core: nat)
    requires FirstOn(order, cpu.pkg, None).Some? && SecondOn(order, cpu.pkg).None?
    requires core == cpu.core || core == FirstOn(order, cpu.pkg, None).value.core
    ensures Label(order + [cpu], cpu.pkg, core) == Some(cpu.cputype)
    ensures SecondOn(order + [cpu], cpu.pkg) == Some(cpu)
    ensures FirstOn(order + [cpu], cpu.pkg, None) == FirstOn(order, cpu.pkg, None)
  {
    assert (order + [cpu])[..|order|] == order;
    FirstOnMeans(order, cpu.pkg, None);
    FirstOnMeans(order, cpu.pkg, Some(core));
    SecondOnMeans(order, cpu.pkg, core);
  }

  /** A later CPU on a core that has none. */
  lemma NewCoreLabelled(order: seq<Cpu>, cpu: Cpu)
    requires SecondOn(order, cpu.pkg).Some? && FirstOn(order, cpu.pkg, Some(cpu.core)).None?
    ensures Label(order + [cpu], cpu.pkg, cpu.core) == Some(cpu.cputype)
  {
    assert (order + [cpu])[..|order|] == order;
    SecondOnMeans(order, cpu.pkg, cpu.core);
    FirstOnMeans(order, cpu.pkg, None);
    FirstOnMeans(order, cpu.pkg, Some(cpu.core));
  }

  lemma PackageFound(order: seq<Cpu>, slots: nat, zones: seq<Zone>, pkg: nat)
    requires Distinct(order, slots) && WellFormed(zones, PlacementOf(order)) && FirstOn(order, pkg, None).Some?
    ensures Found(zones, pkg)
  {
    FirstOnMeans(order, pkg, None);
    var a := FirstOn(order, pkg, None).value.aid;
    PlacedMeans(order, slots, a);
    assert ByPackage(PlacementOf(order))[a] == pkg;
    FoundMeansHas(zones, pkg);
  }

  lemma CoreFound(order: seq<Cpu>, slots: nat, z: Zone, core: nat)
    requires Distinct(order, slots) && PackageOk(z, PlacementOf(order)) && z.sub != []
    requires FirstOn(order, z.groupid, Some(core)).Some?
    ensures Found(z.sub, core)
  {
    FirstOnMeans(order, z.groupid, Some(core));
    var a := FirstOn(order, z.groupid, Some(core)).value.aid;
    PlacedMeans(order, slots, a);
    assert ByCore(PlacementOf(order), z.groupid)[a] == core;
    FoundMeansHas(z.sub, core);
  }

  /** The core recorded for a lone CPU is that CPU's. */
  lemma LoneCore(order: seq<Cpu>, slots: nat, z: Zone, tm: seq<TopMap>)
    requires Distinct(order, slots) && Recorded(tm, PlacementOf(order)) && Labelled(z, order) && z.sub == []
    ensures FirstCore(tm, z.schedulable) == FirstOn(order, z.groupid, None).value.core
  {
    var first := FirstOn(order, z.groupid, None).value;
    FirstOnMeans(order, z.groupid, None);
    PlacedMeans(order, slots, first.aid);
    assert first.aid in z.schedulable;
    assert FirstFrom(z.schedulable, 0) == first.aid;
  }

  lemma ExtendedLabels(z: Zone, order: seq<Cpu>, slots: nat, tm: seq<TopMap>, cpu: Cpu, j: nat)
    requires Distinct(order, slots) && Recorded(tm, PlacementOf(order)) && PackageOk(z, PlacementOf(order))
    requires Labelled(z, order) && z.groupid == cpu.pkg && z.schedulable != {}
    requires j < |Extended(z, tm, cpu).sub|
    ensures CoreLabelled(Extended(z, tm, cpu).sub[j], z.groupid, order + [cpu])
  {
    var split := Split(z, FirstCore(tm, z.schedulable), cpu.cputype, FirstFrom(z.schedulable, 0));
    var c := Extended(z, tm, cpu).sub[j];
    var p := Position(split.sub, cpu.core);
    WithGroupAt(split.sub, cpu.core, cpu.cputype, j);
    if z.sub == [] {
      LoneCore(order, slots, z, tm);
      SecondLabelled(order, cpu, c.groupid);
    } else if j == p && !Found(z.sub, cpu.core) {
      if FirstOn(order, cpu.pkg, Some(cpu.core)).Some? {
        CoreFound(order, slots, z, cpu.core);
      }
      NewCoreLabelled(order, cpu);
    } else {
      var k := if j < p || Found(z.sub, cpu.core) then j else j - 1;
      assert CoreLabelled(z.sub[k], z.groupid, order);
      LabelKept(order, cpu, cpu.pkg, c.groupid);
    }
  }

  lemma TargetLabelled(zones: seq<Zone>, order: seq<Cpu>, slots: nat, tm: seq<TopMap>, cpu: Cpu)
    requires Distinct(order, slots) && Recorded(tm, PlacementOf(order)) && WellFormed(zones, PlacementOf(order))
    requires AllLabelled(zones, order)
    ensures Labelled(Topologized(zones, tm, cpu)[Position(zones, cpu.pkg)], order + [cpu])
  {
    var p := Position(zones, cpu.pkg);
    WithGroupAt(zones, cpu.pkg, cpu.cputype, p);
    if Found(zones, cpu.pkg) {
      var z := zones[p];
      assert Group(z, ByPackage(PlacementOf(order))) && PackageOk(z, PlacementOf(order)) && Labelled(z, order);
      forall j | 0 <= j < |Extended(z, tm, cpu).sub|
        ensures CoreLabelled(Extended(z, tm, cpu).sub[j], z.groupid, order + [cpu])
      {
        ExtendedLabels(z, order, slots, tm, cpu, j);
      }
      assert (order + [cpu])[..|order|] == order;
    } else {
      if FirstOn(order, cpu.pkg, None).Some? {
        PackageFound(order, slots, zones, cpu.pkg);
      }
      SecondOnMeans(order, cpu.pkg, cpu.core);
      assert (order + [cpu])[..|order|] == order;
      assert {} + {cpu.aid} == {cpu.aid};
    }
  }

  ghost predicate AllLabelled(zones: seq<Zone>, order: seq<Cpu>) {
    forall i :: 0 <= i < |zones| ==> Labelled(zones[i], order)
  }

  lemma TopologizedLabelled(zones: seq<Zone>, order: seq<Cpu>, slots: nat, tm: seq<TopMap>, cpu: Cpu)
    requires Distinct(order, slots) && Recorded(tm, PlacementOf(order)) && WellFormed(zones, PlacementOf(order))
    requires AllLabelled(zones, order)
    ensures AllLabelled(Topologized(zones, tm, cpu), order + [cpu])
  {
    var r := Topologized(zones, tm, cpu);
    forall i | 0 <= i < |r|
      ensures Labelled(r[i], order + [cpu])
    {
      if i == Position(zones, cpu.pkg) {
        TargetLabelled(zones, order, slots, tm, cpu);
      } else {
        var k := OtherZone(zones, cpu.pkg, cpu.cputype, i);
        OtherLabelled(zones[k], order, cpu);
      }
    }
  }

  lemma {:induction false} BuildLabels(order: seq<Cpu>, slots: nat)
    requires Distinct(order, slots)
    ensures AllLabelled(Build(order, slots).zones, order)
  {
    if order != [] {
      var front := order[..|order| - 1];
      var cpu := order[|order| - 1];
      assert order == front + [cpu];
      BuildLabels(front, slots);
      BuildIsCanonical(front, slots);
      var before := Build(front, slots);
      TopologizedLabelled(before.zones, front, slots, before.tm, cpu);
    }
  }

  lemma LookupLabelled(zones: seq<Zone>, placed: Placement, order: seq<Cpu>, cpu: Cpu)
    requires WellFormed(zones, placed) && AllLabelled(zones, order)
    requires cpu.aid in placed && placed[cpu.aid] == PlaceOf(cpu) && FirstOn(order, cpu.pkg, Some(cpu.core)).Some?
    ensures Lookup(zones, cpu.aid) == Label(order, cpu.pkg, cpu.core)
  {
    var i := LookupLevel(zones, ByPackage(placed), cpu.aid);
    var z := zones[i];
    assert Labelled(z, order) && PackageOk(z, placed);
    if z.sub != [] {
      var j := LookupLevel(z.sub, ByCore(placed, z.groupid), cpu.aid);
      assert CoreLabelled(z.sub[j], z.groupid, order);
    }
  }

  /** What lookup_aid() answers for each CPU, in terms of the order of discovery alone. So
      a CPU is looked up to its own type if and only if that is its label. */
  lemma LookupGivesLabel(order: seq<Cpu>, slots: nat, k: nat)
    requires Distinct(order, slots) && k < |order|
    ensures Lookup(Build(order, slots).zones, order[k].aid) == Label(order, order[k].pkg, order[k].core)
  {
    var cpu := order[k];
    BuildIsCanonical(order, slots);
    BuildLabels(order, slots);
    PlacedMeans(order, slots, cpu.aid);
    FirstOnMeans(order, cpu.pkg, Some(cpu.core));
    LookupLabelled(Build(order, slots).zones, PlacementOf(order), order, cpu);
  }

  predicate CoresUniform(order: seq<Cpu>) {
    forall i, j :: 0 <= i < |order| && 0 <= j < |order| && order[i].pkg == order[j].pkg && order[i].core == order[j].core ==>
      order[i].cputype == order[j].cputype
  }

  predicate FirstTwoAgree(order: seq<Cpu>, pkg: nat) {
    var first, second := FirstOn(order, pkg, None), SecondOn(order, pkg);
    first.Some? && second.Some? ==> first.value.cputype == second.value.cputype
  }

  predicate OwnType(order: seq<Cpu>, slots: nat, k: nat)
    requires Distinct(order, slots) && k < |order|
  {
    Lookup(Build(order, slots).zones, order[k].aid) == Some(order[k].cputype)
  }

  lemma UniformGivesOwn(order: seq<Cpu>, slots: nat, k: nat)
    requires Distinct(order, slots) && k < |order| && CoresUniform(order) && FirstTwoAgree(order, order[k].pkg)
    ensures OwnType(order, slots, k)
  {
    var cpu := order[k];
    LookupGivesLabel(order, slots, k);
    FirstOnMeans(order, cpu.pkg, None);
    FirstOnMeans(order, cpu.pkg, Some(cpu.core));
    SecondOnMeans(order, cpu.pkg, cpu.core);
    var first, own := FirstOn(order, cpu.pkg, None).value, FirstOn(order, cpu.pkg, Some(cpu.core)).value;
    var i :| 0 <= i < |order| && order[i] == own;
    var j :| 0 <= j < |order| && order[j] == first;
    assert own.cputype == cpu.cputype;
    assert first.core == cpu.core ==> first.cputype == cpu.cputype;
  }

  lemma OwnGivesAgreement(order: seq<Cpu>, slots: nat, pkg: nat)
    requires Distinct(order, slots) && forall k :: 0 <= k < |order| ==> OwnType(order, slots, k)
    ensures FirstTwoAgree(order, pkg)
  {
    if FirstOn(order, pkg, None).Some? && SecondOn(order, pkg).Some? {
      FirstOnMeans(order, pkg, None);
      var k :| 0 <= k < |order| && order[k] == FirstOn(order, pkg, None).value;
      assert OwnType(order, slots, k);
      FirstTakesSecondsType(order, slots, k, SecondOn(order, pkg).value);
    }
  }

  /** Every CPU is looked up to its own type if and only if the CPUs of each core share a
      type and each package's first two CPUs do. */
  lemma OwnTypesIff(order: seq<Cpu>, slots: nat)
    requires Distinct(order, slots)
    ensures (forall k :: 0 <= k < |order| ==> OwnType(order, slots, k)) <==>
            CoresUniform(order) && forall pkg :: FirstTwoAgree(order, pkg)
  {
    if forall k :: 0 <= k < |order| ==> OwnType(order, slots, k) {
      forall i, j | 0 <= i < |order| && 0 <= j < |order| && order[i].pkg == order[j].pkg && order[i].core == order[j].core
        ensures order[i].cputype == order[j].cputype
      {
        assert OwnType(order, slots, i) && OwnType(order, slots, j);
        LookupGivesLabel(order, slots, i);
        LookupGivesLabel(order, slots, j);
      }
      forall pkg ensures FirstTwoAgree(order, pkg) { OwnGivesAgreement(order, slots, pkg); }
    }
    if CoresUniform(order) && forall pkg :: FirstTwoAgree(order, pkg) {
      forall k | 0 <= k < |order| ensures OwnType(order, slots, k) { UniformGivesOwn(order, slots, k); }
    }
  }

  predicate OneType(order: seq<Cpu>, pkg: nat) {
    forall i, j :: 0 <= i < |order| && 0 <= j < |order| && order[i].pkg == pkg && order[j].pkg == pkg ==>
      order[i].cputype == order[j].cputype
  }

  /** When all CPUs of its package share a type, a CPU is looked up to its own type,
      whatever the order of discovery. */
  lemma LookupGivesOwnType(order: seq<Cpu>, slots: nat, k: nat)
    requires Distinct(order, slots) && k < |order| && OneType(order, order[k].pkg)
    ensures Lookup(Build(order, slots).zones, order[k].aid) == Some(order[k].cputype)
  {
    var cpu := order[k];
    LookupGivesLabel(order, slots, k);
    FirstOnMeans(order, cpu.pkg, None);
    FirstOnMeans(order, cpu.pkg, Some(cpu.core));
    SecondOnMeans(order, cpu.pkg, cpu.core);
  }

  /** The condition is needed: a package's first CPU is looked up to the type of its second,
      whatever its own. */
  lemma FirstTakesSecondsType(order: seq<Cpu>, slots: nat, k: nat, second: Cpu)
    requires Distinct(order, slots) && k < |order|
    requires FirstOn(order, order[k].pkg, None) == Some(order[k]) && SecondOn(order, order[k].pkg) == Some(second)
    ensures Lookup(Build(order, slots).zones, order[k].aid) == Some(second.cputype)
  {
    LookupGivesLabel(order, slots, k);
    FirstOnMeans(order, order[k].pkg, Some(order[k].core));
  }

  lemma MixedPackageMislabelled()
    ensures var order := [Cpu(0, 0, 0, 0, 7), Cpu(1, 0, 1, 0, 8)];
            Distinct(order, 2) && Lookup(Build(order, 2).zones, 0) == Some(8)
  {
    var first, second := Cpu(0, 0, 0, 0, 7), Cpu(1, 0, 1, 0, 8);
    var order := [first, second];
    assert order[..1] == [first];
    assert [first][..0] == [];
    assert FirstOn([first], 0, None) == Some(first) && SecondOn([first], 0) == None;
    FirstTakesSecondsType(order, 2, 0, second);
  }

  // ---- The code, in place ------------------------------------------------------------------------

  lemma SplitStaysWellFormed(zones: seq<Zone>, placed: Placement, tm: seq<TopMap>, p: nat, cputype: nat)
    requires WellFormed(zones, placed) && Recorded(tm, placed) && p < |zones|
    ensures var z := zones[p];
            WellFormed(zones[p := Split(z, FirstCore(tm, z.schedulable), cputype, FirstFrom(z.schedulable, 0))], placed)
  {
    var z := zones[p];
    assert Group(z, ByPackage(placed));
    SplitOk(z, placed, tm, cputype);
    ReplacedStaysWellFormed(zones, placed, p, Split(z, FirstCore(tm, z.schedulable), cputype, FirstFrom(z.schedulable, 0)));
  }

  lemma ReplacedStaysWellFormed(zones: seq<Zone>, placed: Placement, p: nat, s: Zone)
    requires WellFormed(zones, placed) && p < |zones|
    requires s.groupid == zones[p].groupid && s.schedulable == zones[p].schedulable && PackageOk(s, placed)
    ensures WellFormed(zones[p := s], placed)
  {
    var r := zones[p := s];
    var keyed := ByPackage(placed);
    forall i | 0 <= i < |r|
      ensures Group(r[i], keyed) && PackageOk(r[i], placed)
    {
      assert Group(zones[i], keyed) && PackageOk(zones[i], placed);
    }
    forall a | a in keyed ensures Has(r, keyed[a]) { SameIdsHas(zones, r, keyed[a]); }
  }

  /** find_sched_group(). `alloc` says whether create_zone() gets its memory. */
  method FindSchedGroup(list: seq<Zone>, id: nat, cputype: nat, alloc: bool) returns (r: seq<Zone>, at: Option<nat>)
    ensures Found(list, id) || alloc ==> at == Some(Position(list, id)) && r == WithGroup(list, id, cputype)
    ensures !Found(list, id) && !alloc ==> at == None && r == list
  {
    var i := 0;
    while i < |list|
      invariant 0 <= i <= |list|
      invariant forall j :: 0 <= j < i ==> list[j].groupid < id
    {
      if list[i].groupid == id {
        assert Position(list, id) == i;
        return list, Some(i);
      }
      if list[i].groupid > id {
        break;
      }
      i := i + 1;
    }
    assert Position(list, id) == i;
    if !alloc {
      return list, None;
    }
    return list[..i] + [Zone(id, cputype, {}, [])] + list[i..], Some(i);
  }

  /** share_level() */
  method ShareLevel(cpus: set<nat>) returns (shared: bool)
    ensures shared <==> exists a :: a < CPU_SETSIZE && a in cpus
  {
    var z := 0;
    while z < CPU_SETSIZE
      invariant z <= CPU_SETSIZE && forall a :: a < z ==> a !in cpus
    {
      if z in cpus {
        return true;
      }
      z := z + 1;
    }
    return false;
  }

  /** first_aid() */
  method FirstAid(cpus: set<nat>) returns (z: nat)
    ensures z == FirstFrom(cpus, 0)
  {
    z := 0;
    while z < CPU_SETSIZE
      invariant z <= CPU_SETSIZE && FirstFrom(cpus, 0) == FirstFrom(cpus, z)
    {
      if z in cpus {
        break;
      }
      z := z + 1;
    }
  }

  /** lookup_aid_intop() */
  method LookupAid(top: seq<Zone>, aid: nat) returns (r: Option<nat>)
    requires top != []
    ensures r == Lookup(top, aid)
    decreases top
  {
    var i := 0;
    while i < |top|
      invariant 0 <= i <= |top|
      invariant Lookup(top, aid) == Lookup(top[i..], aid)
    {
      if aid in top[i].schedulable {
        if top[i].sub != [] {
          r := LookupAid(top[i].sub, aid);
          return;
        }
        return Some(top[i].cpudesc);
      }
      assert top[i..][1..] == top[i + 1..];
      i := i + 1;
    }
    return None;
  }

  class Detection {
    var zones: seq<Zone>         // ctx->sched_zone
    const tm: array<TopMap>

    ghost predicate Valid(placed: Placement)
      reads this, tm
    {
      WellFormed(zones, placed) && Recorded(tm[..], placed)
    }

    constructor (slots: nat)
      ensures Valid(map[]) && Canonical(zones, map[]) && zones == [] && tm.Length == slots && fresh(tm)
      ensures tm[..] == Build([], slots).tm
    {
      zones := [];
      tm := new TopMap[slots](_ => TopMap(0, 0, 0));
      new;
      assert ByPackage(map[]) == map[];
    }

    /** The part of topologize() below a package that already has CPUs: split it if this
        is its second, then find or make the core and add the CPU to it. */
    method Extend(z: Zone, cpu: Cpu, first: bool, core: bool) returns (r: Zone, err: Err)
      requires FirstFrom(z.schedulable, 0) < tm.Length && z.schedulable != {}
      ensures err.Success? || err.OutOfResources?
      ensures first && core ==> err.Success?
      ensures err.Success? ==> r == Extended(z, tm[..], cpu)
      ensures !err.Success? ==>
                || r == z
                || r == Split(z, FirstCore(tm[..], z.schedulable), cpu.cputype, FirstFrom(z.schedulable, 0))
      ensures !err.Success? && (core || !first) ==> r == z
    {
      r := z;
      if r.sub == [] {
        var oid := FirstAid(r.schedulable);
        if !first {
          return r, OutOfResources;
        }
        r := r.(sub := [Zone(tm[oid].core, cpu.cputype, {oid}, [])]);
      }
      var sub, q := FindSchedGroup(r.sub, cpu.core, cpu.cputype, core);
      if q.None? {
        return r, OutOfResources;
      }
      r := r.(sub := sub[q.value := sub[q.value].(schedulable := sub[q.value].schedulable + {cpu.aid})]);
      return r, Success;
    }

    /** The tree topologize() leaves behind for a CPU within the affinity mask. */
    method PlaceCpu(cpu: Cpu, package: bool, first: bool, core: bool) returns (err: Err, grown: seq<Zone>)
      requires HasFirst(zones, tm.Length, cpu)
      ensures err.Success? || err.OutOfResources?
      ensures package && first && core ==> err.Success?
      ensures err.Success? ==> grown == Topologized(zones, tm[..], cpu)
      ensures !err.Success? ==> grown == zones || (Found(zones, cpu.pkg) && grown == SplitIn(zones, tm[..], cpu))
      ensures !err.Success? && (core || !first) ==> grown == zones
    {
      var list, at := FindSchedGroup(zones, cpu.pkg, cpu.cputype, package);
      if at.None? {
        return OutOfResources, zones;
      }
      var p := at.value;
      var z := list[p];
      var shared := ShareLevel(z.schedulable);
      if shared {
        z, err := Extend(z, cpu, first, core);
        if !err.Success? {
          assert zones[p := zones[p]] == zones;
          return err, zones[p := z];
        }
      }
      return Success, list[p := z.(schedulable := z.schedulable + {cpu.aid})];
    }

    /** topologize(). `package`, `first` and `core` say which of the zones it may have to
        create get their memory. Every return leaves the tree well formed; a failing one
        may have split the package but places no CPU. */
    method Topologize(cpu: Cpu, package: bool, first: bool, core: bool, ghost placed: Placement) returns (err: Err)
      requires Valid(placed) && cpu.aid !in placed
      requires cpu.aid < CPU_SETSIZE ==> cpu.aid < tm.Length
      modifies this, tm
      ensures err.AssertFailed? <==> cpu.aid >= CPU_SETSIZE
      ensures cpu.aid < CPU_SETSIZE && package && first && core ==> err.Success?
      ensures err.Success? ==>
                && zones == Topologized(old(zones), old(tm[..]), cpu)
                && tm[..] == old(tm[..])[cpu.aid := TopMap(cpu.thread, cpu.core, cpu.pkg)]
                && Valid(placed[cpu.aid := PlaceOf(cpu)])
                && (old(Canonical(zones, placed)) ==> Canonical(zones, placed[cpu.aid := PlaceOf(cpu)]))
      ensures !err.Success? ==> Valid(placed) && tm[..] == old(tm[..])
      ensures !err.Success? && (core || !first) ==> zones == old(zones)
    {
      if cpu.aid >= CPU_SETSIZE {
        return AssertFailed;
      }
      var grown;
      GroupFacts(zones, placed, tm[..], cpu);
      err, grown := PlaceCpu(cpu, package, first, core);
      if Found(zones, cpu.pkg) {
        SplitStaysWellFormed(zones, placed, tm[..], Position(zones, cpu.pkg), cpu.cputype);
      }
      if err.Success? {
        Placing(zones, placed, tm[..], cpu);
        tm[cpu.aid] := TopMap(cpu.thread, cpu.core, cpu.pkg);
      }
      zones := grown;
    }
  }

  lemma Placing(zones: seq<Zone>, placed: Placement, tm: seq<TopMap>, cpu: Cpu)
    requires WellFormed(zones, placed) && Recorded(tm, placed)
    requires cpu.aid !in placed && cpu.aid < CPU_SETSIZE && cpu.aid < |tm|
    ensures WellFormed(Topologized(zones, tm, cpu), placed[cpu.aid := PlaceOf(cpu)])
    ensures Canonical(zones, placed) ==> Canonical(Topologized(zones, tm, cpu), placed[cpu.aid := PlaceOf(cpu)])
    ensures Recorded(tm[cpu.aid := TopMap(cpu.thread, cpu.core, cpu.pkg)], placed[cpu.aid := PlaceOf(cpu)])
  {
    TopologizedWellFormed(zones, placed, tm, cpu);
    RecordedGrows(tm, placed, cpu);
    if Canonical(zones, placed) {
      TopologizedCanonical(zones, placed, tm, cpu);
    }
  }

  /** The list with the CPU's package split. */
  function SplitIn(zones: seq<Zone>, tm: seq<TopMap>, cpu: Cpu): seq<Zone>
    requires Found(zones, cpu.pkg)
  {
    var p := Position(zones, cpu.pkg);
    var z := zones[p];
    zones[p := Split(z, FirstCore(tm, z.schedulable), cpu.cputype, FirstFrom(z.schedulable, 0))]
  }

  ghost predicate HasFirst(zones: seq<Zone>, slots: nat, cpu: Cpu) {
    var z := WithGroup(zones, cpu.pkg, cpu.cputype)[Position(zones, cpu.pkg)];
    && (z.schedulable != {} <==> exists a :: a < CPU_SETSIZE && a in z.schedulable)
    && (z.schedulable != {} ==>
          && FirstFrom(z.schedulable, 0) < slots
          && Found(zones, cpu.pkg) && WithGroup(zones, cpu.pkg, cpu.cputype) == zones)
  }

  /** A package found with CPUs in it has a first CPU, below CPU_SETSIZE and on record. */
  lemma GroupFacts(zones: seq<Zone>, placed: Placement, tm: seq<TopMap>, cpu: Cpu)
    requires WellFormed(zones, placed) && Recorded(tm, placed)
    ensures HasFirst(zones, |tm|, cpu)
  {
    var p := Position(zones, cpu.pkg);
    var z := WithGroup(zones, cpu.pkg, cpu.cputype)[p];
    WithGroupAt(zones, cpu.pkg, cpu.cputype, p);
    if z.schedulable != {} {
      assert Group(zones[p], ByPackage(placed));
      var a :| a in z.schedulable;
      assert a in placed && a < CPU_SETSIZE;
      assert FirstFrom(z.schedulable, 0) in placed;
    }
  }
}
