/** Detecting processors and sorting them into types (hardware/arch.c). */
module CpuTypes {
  import opened Common

  /** torque_cput. The architecture-specific part and the descriptors of TLBs and memories
      are compared byte for byte, so only their identity matters here. */
  datatype Details = Details(
    spec: nat, tlbs: seq<nat>, memories: seq<nat>,
    threadspercore: nat, coresperpackage: nat, isa: nat, strdescription: string,
    elements: nat)

  /** compare_cpudetails(): zero when nothing but the count differs. */
  function Compare(a: Details, b: Details): int {
    if a.spec != b.spec then -1
    else if |a.memories| != |b.memories| || |a.tlbs| != |b.tlbs| then -1
    else if |a.tlbs| > 0 && a.tlbs != b.tlbs then -1
    else if |a.memories| > 0 && a.memories != b.memories then -1
    else if a.threadspercore != b.threadspercore || a.coresperpackage != b.coresperpackage then -1
    else if a.isa != b.isa then -1
    else if a.strdescription != b.strdescription then -1
    else 0
  }

  predicate Same(a: Details, b: Details) { a.(elements := 0) == b.(elements := 0) }

  lemma CompareDecidesSame(a: Details, b: Details)
    ensures Compare(a, b) == 0 <==> Same(a, b)
  {
  }

  // ---- The affinity mask --------------------------------------------------------------

  type Mask = m: seq<bool> | |m| == CPU_SETSIZE witness seq(CPU_SETSIZE, _ => false)

  /** The set bits below `k`, in ascending order. */
  function Bits(mask: Mask, k: nat): seq<nat>
    requires k <= |mask|
  {
    if k == 0 then [] else Bits(mask, k - 1) + if mask[k - 1] then [k - 1] else []
  }

  /** Each set bit exactly once, and in ascending order. */
  lemma {:induction false} BitsAscend(mask: Mask, k: nat)
    requires k <= |mask|
    ensures forall i :: 0 <= i < |Bits(mask, k)| ==> Bits(mask, k)[i] < k && mask[Bits(mask, k)[i]]
    ensures forall i, j :: 0 <= i < j < |Bits(mask, k)| ==> Bits(mask, k)[i] < Bits(mask, k)[j]
    ensures forall a :: 0 <= a < k && mask[a] ==> a in Bits(mask, k)
  {
    if k > 0 {
      BitsAscend(mask, k - 1);
    }
  }

  lemma {:induction false} BitsSkip(mask: Mask, a: nat, b: nat)
    requires a <= b <= |mask| && forall i :: a <= i < b ==> !mask[i]
    ensures Bits(mask, b) == Bits(mask, a)
    decreases b
  {
    if a < b {
      BitsSkip(mask, a, b - 1);
    }
  }

  lemma {:induction false} BitsPrefix(mask: Mask, a: nat, b: nat)
    requires a <= b <= |mask|
    ensures Bits(mask, a) <= Bits(mask, b)
    decreases b
  {
    if a < b {
      BitsPrefix(mask, a, b - 1);
    }
  }

  /** portable_cpuset_count() */
  method CpuCount(mask: Mask) returns (count: nat)
    ensures count == |Bits(mask, |mask|)|
  {
    count := 0;
    var cpu := 0;
    while cpu < |mask|
      invariant cpu <= |mask| && count == |Bits(mask, cpu)|
    {
      if mask[cpu] {
        count := count + 1;
      }
      cpu := cpu + 1;
    }
  }

  // ---- Records by affinity id ------------------------------------------------------------

  /** Every bit below a set bit is set. */
  predicate GapFree(mask: Mask) {
    forall a, b :: 0 <= a < b < |mask| && mask[b] ==> mask[a]
  }

  lemma {:induction false} IncreasingAtLeast(s: seq<nat>, i: nat)
    requires Increasing(s) && i < |s|
    ensures s[i] >= i
  {
    if i > 0 {
      IncreasingAtLeast(s, i - 1);
    }
  }

  lemma {:induction false} FilledPrefix(s: seq<nat>, b: nat)
    requires Increasing(s) && forall a: nat :: a <= b ==> a in s
    ensures b < |s| && s[b] == b
  {
    assert b in s;
    var m: nat :| m < |s| && s[m] == b;
    IncreasingAtLeast(s, m);
    if b > 0 {
      FilledPrefix(s, b - 1);
    }
  }

  /** As many distinct numbers as the bound allows are all of them. */
  lemma {:induction false} BelowLength(s: seq<nat>, i: nat)
    requires Increasing(s) && i < |s| && s[|s| - 1] < |s|
    ensures s[i] == i
    decreases |s| - i
  {
    IncreasingAtLeast(s, i);
    if i < |s| - 1 {
      BelowLength(s, i + 1);
    }
  }

  predicate AllBelow(aids: seq<nat>, n: nat) {
    forall i :: 0 <= i < |aids| ==> aids[i] < n
  }

  lemma GapFreeFits(mask: Mask, all: seq<nat>)
    requires GapFree(mask) && Increasing(all)
    requires forall a: nat :: a in all <==> a < |mask| && mask[a]
    ensures AllBelow(all, |all|)
  {
    forall i | 0 <= i < |all|
      ensures all[i] < |all|
    {
      assert all[i] in all;
      assert forall a: nat :: a <= all[i] ==> a in all;
      FilledPrefix(all, all[i]);
    }
  }

  lemma FittingIsGapFree(mask: Mask, all: seq<nat>)
    requires AllBelow(all, |all|) && Increasing(all)
    requires forall a: nat :: a in all <==> a < |mask| && mask[a]
    ensures GapFree(mask)
  {
    forall a, b | 0 <= a < b < |mask| && mask[b]
      ensures mask[a]
    {
      assert b in all;
      var k :| 0 <= k < |all| && all[k] == b;
      BelowLength(all, k);
      BelowLength(all, a);
      assert all[a] in all;
    }
  }

  lemma BitsAre(mask: Mask)
    ensures Increasing(Bits(mask, |mask|)) && AllBelow(Bits(mask, |mask|), |mask|)
    ensures forall a: nat :: a in Bits(mask, |mask|) <==> a < |mask| && mask[a]
  {
    BitsAscend(mask, |mask|);
  }

  /** The map of the topology has one record for each set bit and is indexed by affinity id.
      Every processor visited has a record if and only if the mask has no gap. */
  lemma RecordsSufficeIff(mask: Mask)
    ensures AllBelow(Bits(mask, |mask|), |Bits(mask, |mask|)|) <==> GapFree(mask)
  {
    var all := Bits(mask, |mask|);
    BitsAre(mask);
    if GapFree(mask) {
      GapFreeFits(mask, all);
    }
    if AllBelow(all, |all|) {
      FittingIsGapFree(mask, all);
    }
  }

  /** A mask with any one bit but the lowest: one record, and the only processor beyond it. */
  lemma OneBitHasGap(mask: Mask, a: nat)
    requires 0 < a < |mask| && forall i :: 0 <= i < |mask| ==> (mask[i] <==> i == a)
    ensures !GapFree(mask) && !AllBelow(Bits(mask, |mask|), |Bits(mask, |mask|)|)
  {
    assert mask[a] && !mask[0];
    RecordsSufficeIff(mask);
  }

  // ---- Tallying types ---------------------------------------------------------------------

  function CountSame(found: seq<Details>, t: Details): nat {
    if found == [] then 0
    else CountSame(found[..|found| - 1], t) + if Same(found[|found| - 1], t) then 1 else 0
  }

  function SumElements(types: seq<Details>): nat {
    if types == [] then 0 else SumElements(types[..|types| - 1]) + types[|types| - 1].elements
  }

  predicate AllDifferent(types: seq<Details>) {
    forall i, j :: 0 <= i < j < |types| ==> !Same(types[i], types[j])
  }

  lemma SameTypeSameIndex(types: seq<Details>, i: nat, j: nat)
    requires AllDifferent(types) && i < |types| && j < |types| && Same(types[i], types[j])
    ensures i == j
  {
  }

  /** The types of the processors found so far: no two alike, each with the exact number
      of processors of its kind, and adding up to all of them. */
  predicate Tally(types: seq<Details>, found: seq<Details>) {
    && AllDifferent(types)
    && (forall i :: 0 <= i < |types| ==> types[i].elements == CountSame(found, types[i]) > 0)
    && SumElements(types) == |found|
    && (forall k :: 0 <= k < |found| ==> Known(types, found[k]))
  }

  predicate Known(types: seq<Details>, d: Details) {
    exists i :: 0 <= i < |types| && Same(types[i], d)
  }

  lemma {:induction false} SumBump(types: seq<Details>, n: nat)
    requires n < |types|
    ensures SumElements(types[n := types[n].(elements := types[n].elements + 1)]) == SumElements(types) + 1
  {
    var bumped := types[n := types[n].(elements := types[n].elements + 1)];
    var last := |types| - 1;
    if n < last {
      SumBump(types[..last], n);
      assert bumped[..last] == types[..last][n := types[n].(elements := types[n].elements + 1)];
    } else {
      assert bumped[..last] == types[..last];
    }
  }

  lemma {:induction false} CountRespectsSame(found: seq<Details>, t: Details, u: Details)
    requires Same(t, u)
    ensures CountSame(found, t) == CountSame(found, u)
  {
    if found != [] {
      CountRespectsSame(found[..|found| - 1], t, u);
    }
  }

  lemma CountGrows(found: seq<Details>, d: Details, t: Details)
    ensures CountSame(found + [d], t) == CountSame(found, t) + if Same(d, t) then 1 else 0
  {
    assert (found + [d])[..|found|] == found;
  }

  /** A processor of a known type bumps that type's count. */
  lemma TallyMatch(types: seq<Details>, found: seq<Details>, n: nat, d: Details)
    requires Tally(types, found) && n < |types| && Same(types[n], d)
    ensures Tally(types[n := types[n].(elements := types[n].elements + 1)], found + [d])
  {
    var r := types[n := types[n].(elements := types[n].elements + 1)];
    SumBump(types, n);
    forall i | 0 <= i < |r|
      ensures r[i].elements == CountSame(found + [d], r[i]) > 0
    {
      CountGrows(found, d, r[i]);
      CountRespectsSame(found, types[i], r[i]);
    }
    assert Same(r[n], d);
    KnownExtends(types, r, found, d);
  }

  lemma CountedIsKnown(found: seq<Details>, types: seq<Details>, d: Details)
    requires Tally(types, found)
    ensures CountSame(found, d) > 0 ==> Known(types, d)
  {
    if CountSame(found, d) > 0 {
      CountedIsThere(found, d);
      var k :| 0 <= k < |found| && Same(found[k], d);
      assert Known(types, found[k]);
      var i :| 0 <= i < |types| && Same(types[i], found[k]);
      assert Same(types[i], d);
    }
  }

  lemma {:induction false} CountedIsThere(found: seq<Details>, d: Details)
    requires CountSame(found, d) > 0
    ensures exists k :: 0 <= k < |found| && Same(found[k], d)
  {
    var last := |found| - 1;
    if Same(found[last], d) {
    } else {
      CountedIsThere(found[..last], d);
      var k :| 0 <= k < last && Same(found[..last][k], d);
      assert Same(found[k], d);
    }
  }

  lemma KnownExtends(types: seq<Details>, r: seq<Details>, found: seq<Details>, d: Details)
    requires |types| <= |r| && forall i :: 0 <= i < |types| ==> Same(types[i], r[i])
    requires Known(r, d) && forall k :: 0 <= k < |found| ==> Known(types, found[k])
    ensures forall k :: 0 <= k < |found + [d]| ==> Known(r, (found + [d])[k])
  {
    forall k | 0 <= k < |found|
      ensures Known(r, found[k])
    {
      var i :| 0 <= i < |types| && Same(types[i], found[k]);
      assert Same(r[i], found[k]);
    }
  }

  /** A processor of a type not met before starts one. */
  lemma TallyNew(types: seq<Details>, found: seq<Details>, d: Details)
    requires Tally(types, found) && !Known(types, d)
    ensures Tally(types + [d.(elements := 1)], found + [d])
  {
    var fresh_ := d.(elements := 1);
    var r := types + [fresh_];
    assert r[..|types|] == types;
    CountedIsKnown(found, types, d);
    CountRespectsSame(found, d, fresh_);
    forall i | 0 <= i < |r|
      ensures r[i].elements == CountSame(found + [d], r[i]) > 0
    {
      CountGrows(found, d, r[i]);
      if i < |types| {
        assert !Same(types[i], d);
      }
    }
    assert Same(r[|types|], d);
    KnownExtends(types, r, found, d);
  }

  /** match_cputype() */
  method MatchCpuType(types: seq<Details>, d: Details) returns (r: Option<nat>)
    ensures r.Some? <==> Known(types, d)
    ensures r.Some? ==> r.value < |types| && Same(types[r.value], d)
  {
    var n := 0;
    while n < |types|
      invariant 0 <= n <= |types| && forall i :: 0 <= i < n ==> !Same(types[i], d)
    {
      CompareDecidesSame(types[n], d);
      if Compare(types[n], d) == 0 {
        return Some(n);
      }
      n := n + 1;
    }
    return None;
  }

  // ---- The detection loop -----------------------------------------------------------------------

  datatype Err = NoError | Affinity | CpuDetect | Resource | Topology

  /** What happens for one processor: whether it can be pinned and identified, what it is,
      and whether memory, the topology and the event thread can be had. */
  datatype Report = Report(pins: bool, identified: bool, details: Details, alloc: bool, placed: bool, spawned: bool)

  /** The loop's only way to fail for one processor, in the order the code meets it. */
  function Trouble(r: Report, known: bool): Err {
    if !r.pins then Affinity
    else if !r.identified then CpuDetect
    else if !known && !r.alloc then Resource
    else if !r.placed then Topology
    else if !r.spawned then Resource
    else NoError
  }

  function Reported(env: nat -> Report, aids: seq<nat>): seq<Details> {
    seq(|aids|, i requires 0 <= i < |aids| => env(aids[i]).details)
  }

  /** Some processor of these is of this type. */
  predicate Seen(env: nat -> Report, aids: seq<nat>, d: Details) {
    exists k :: 0 <= k < |aids| && Same(env(aids[k]).details, d)
  }

  /** What goes wrong for the k-th processor, given the types met before it. */
  function TroubleAt(env: nat -> Report, aids: seq<nat>, k: nat): Err
    requires k < |aids|
  {
    Trouble(env(aids[k]), Seen(env, aids[..k], env(aids[k]).details))
  }

  /** The first thing to go wrong from the k-th processor on. */
  function FirstTrouble(env: nat -> Report, aids: seq<nat>, k: nat): Err
    requires k <= |aids|
    decreases |aids| - k
  {
    if k == |aids| then NoError
    else if TroubleAt(env, aids, k) != NoError then TroubleAt(env, aids, k)
    else FirstTrouble(env, aids, k + 1)
  }

  /** Nothing goes wrong for the k-th processor: it can be pinned, identified, placed in the
      topology and given a thread, and is of a type met before or there is memory for one. */
  predicate Fine(env: nat -> Report, aids: seq<nat>, k: nat)
    requires k < |aids|
  {
    var r := env(aids[k]);
    r.pins && r.identified && r.placed && r.spawned && (r.alloc || Seen(env, aids[..k], r.details))
  }

  /** The error a processor is given up with, by what went wrong with it. */
  predicate FailsWith(env: nat -> Report, aids: seq<nat>, k: nat, err: Err)
    requires k < |aids|
  {
    var r := env(aids[k]);
    var typed := r.alloc || Seen(env, aids[..k], r.details);
    match err
    case NoError => false
    case Affinity => !r.pins
    case CpuDetect => r.pins && !r.identified
    case Topology => r.pins && r.identified && typed && !r.placed
    case Resource => r.pins && r.identified && (!typed || (r.placed && !r.spawned))
  }

  /** `err` is the first processor's, from the k-th on, for which something goes wrong. */
  predicate FirstFailure(env: nat -> Report, aids: seq<nat>, k: nat, err: Err)
    requires k <= |aids|
  {
    if err == NoError then forall i :: k <= i < |aids| ==> Fine(env, aids, i)
    else exists z :: k <= z < |aids| && (forall i :: k <= i < z ==> Fine(env, aids, i)) && FailsWith(env, aids, z, err)
  }

  lemma {:induction false} FirstTroubleMeans(env: nat -> Report, aids: seq<nat>, k: nat)
    requires k <= |aids|
    ensures FirstFailure(env, aids, k, FirstTrouble(env, aids, k))
    decreases |aids| - k
  {
    if k < |aids| {
      var err := TroubleAt(env, aids, k);
      if err != NoError {
        assert FailsWith(env, aids, k, err);
      } else {
        assert Fine(env, aids, k);
        FirstTroubleMeans(env, aids, k + 1);
      }
    }
  }

  /** What fails is not fine, and fails in one way. */
  lemma FailsOneWay(env: nat -> Report, aids: seq<nat>, k: nat, err: Err, err': Err)
    requires k < |aids| && FailsWith(env, aids, k, err)
    ensures !Fine(env, aids, k) && (FailsWith(env, aids, k, err') ==> err' == err)
  {
  }

  /** The type index recorded for each processor names that processor's own type. */
  predicate Labelled(types: seq<Details>, indices: seq<nat>, found: seq<Details>) {
    && |indices| == |found|
    && forall k :: 0 <= k < |found| ==> indices[k] < |types| && Same(types[indices[k]], found[k])
  }

  /** The search for the next processor. As long as fewer set bits lie below `aid` than
      there are in all, it stops before the end of the mask. */
  method NextCpu(mask: Mask, aid: nat) returns (next: nat)
    requires aid <= |mask| && |Bits(mask, aid)| < |Bits(mask, |mask|)|
    ensures aid <= next < |mask| && Bits(mask, next + 1) == Bits(mask, aid) + [next] <= Bits(mask, |mask|)
  {
    next := aid;
    while next < |mask| && !mask[next]
      invariant aid <= next <= |mask| && forall i :: aid <= i < next ==> !mask[i]
    {
      next := next + 1;
    }
    BitsSkip(mask, aid, next);
    BitsPrefix(mask, next + 1, |mask|);
  }

  lemma TroubleMeans(env: nat -> Report, aids: seq<nat>, k: nat, types: seq<Details>)
    requires k < |aids| && Tally(types, Reported(env, aids[..k]))
    ensures TroubleAt(env, aids, k) == Trouble(env(aids[k]), Known(types, env(aids[k]).details))
    ensures Reported(env, aids[..k + 1]) == Reported(env, aids[..k]) + [env(aids[k]).details]
  {
    KnownMeansSeen(env, aids[..k], types, env(aids[k]).details);
  }

  /** Finds the processor's type and counts it there, or adds a type if there is memory. */
  method Classify(types: seq<Details>, indices: seq<nat>, d: Details, alloc: bool, ghost found: seq<Details>)
    returns (ok: bool, r: seq<Details>, index: nat)
    requires Tally(types, found) && Labelled(types, indices, found)
    ensures ok <==> Known(types, d) || alloc
    ensures ok ==> Tally(r, found + [d]) && Labelled(r, indices + [index], found + [d])
  {
    var cputype := MatchCpuType(types, d);
    if cputype.Some? {
      index := cputype.value;
      TallyMatch(types, found, index, d);
      return true, types[index := types[index].(elements := types[index].elements + 1)], index;
    }
    if !alloc {
      return false, types, 0;
    }
    TallyNew(types, found, d);
    return true, types + [d.(elements := 1)], |types|;
  }

  /** The body of the loop for one processor: what it fails with, or the new types. */
  method HandleCpu(report: Report, types: seq<Details>, indices: seq<nat>, ghost found: seq<Details>)
    returns (err: Err, r: seq<Details>, index: nat)
    requires Tally(types, found) && Labelled(types, indices, found)
    ensures err == Trouble(report, Known(types, report.details))
    ensures var typed := report.alloc || Known(types, report.details);
            && (err == NoError <==> report.pins && report.identified && typed && report.placed && report.spawned)
            && (err == Affinity <==> !report.pins)
            && (err == CpuDetect <==> report.pins && !report.identified)
            && (err == Topology <==> report.pins && report.identified && typed && !report.placed)
    ensures err == NoError ==>
              Tally(r, found + [report.details]) && Labelled(r, indices + [index], found + [report.details])
  {
    r, index := types, 0;
    if !report.pins {
      return Affinity, r, index;
    }
    if !report.identified {
      return CpuDetect, r, index;
    }
    var ok;
    ok, r, index := Classify(types, indices, report.details, report.alloc, found);
    if !ok {
      return Resource, r, index;
    }
    if !report.placed {
      return Topology, r, index;
    }
    if !report.spawned {
      return Resource, r, index;
    }
    return NoError, r, index;
  }

  /** What has been detected: the types, the processors handled, and the type index given
      to topologize() for each. */
  datatype Detected = Detected(types: seq<Details>, visited: seq<nat>, indices: seq<nat>)

  /** The detected state after the processors `aids`. */
  predicate Sound(env: nat -> Report, aids: seq<nat>, d: Detected) {
    && d.visited == aids
    && Tally(d.types, Reported(env, aids))
    && Labelled(d.types, d.indices, Reported(env, aids))
  }

  /** One turn of the loop. */
  method DetectNext(mask: Mask, env: nat -> Report, aid: nat, before: Detected, ghost all: seq<nat>, ghost z: nat)
    returns (err: Err, next: nat, after: Detected)
    requires aid <= |mask| && all == Bits(mask, |mask|) && z < |all|
    requires Bits(mask, aid) == all[..z] && Sound(env, all[..z], before)
    ensures err == TroubleAt(env, all, z)
    ensures err == NoError ==>
              next <= |mask| && Bits(mask, next) == all[..z + 1] && Sound(env, all[..z + 1], after)
    ensures err != NoError ==> after == before
  {
    after := before;
    var found := NextCpu(mask, aid);
    next := found + 1;
    assert all[..z + 1] == before.visited + [found];
    TroubleMeans(env, all, z, before.types);
    var types, index;
    err, types, index := HandleCpu(env(found), before.types, before.indices, Reported(env, all[..z]));
    if err == NoError {
      after := Detected(types, before.visited + [found], before.indices + [index]);
    }
  }

  /** detect_cputypes(): `topmap` says whether the map of the topology gets its memory and
      `unpins` whether the affinity can be restored. Of the error codes exactly these are
      left: the search for the next processor has no failure of its own. */
  method DetectCpuTypes(mask: Mask, env: nat -> Report, topmap: bool, unpins: bool) returns (err: Err, r: Detected)
    ensures err == NoError ==> Sound(env, Bits(mask, |mask|), r)
    ensures err != NoError ==> r.types == [] && r.visited <= Bits(mask, |mask|)
    ensures var all := Bits(mask, |mask|);
            err == if all == [] then Affinity
                   else if !topmap then Resource
                   else if FirstTrouble(env, all, 0) != NoError then FirstTrouble(env, all, 0)
                   else if !unpins then Affinity
                   else NoError
    ensures err == NoError <==>
              Bits(mask, |mask|) != [] && topmap && unpins && FirstFailure(env, Bits(mask, |mask|), 0, NoError)
    ensures Bits(mask, |mask|) != [] && topmap ==>
              FirstFailure(env, Bits(mask, |mask|), 0, err) ||
              (err == Affinity && !unpins && FirstFailure(env, Bits(mask, |mask|), 0, NoError))
  {
    ghost var all := Bits(mask, |mask|);
    OutcomeMeans(env, all);
    r := Detected([], [], []);
    var cpucount := CpuCount(mask);
    if cpucount == 0 {
      return Affinity, r;
    }
    if !topmap {
      return Resource, r;
    }
    var z: nat, aid: nat := 0, 0;
    while z < cpucount
      invariant 0 <= z <= cpucount == |all| && aid <= |mask|
      invariant Bits(mask, aid) == all[..z]
      invariant Sound(env, all[..z], r)
      invariant FirstTrouble(env, all, 0) == FirstTrouble(env, all, z)
    {
      err, aid, r := DetectNext(mask, env, aid, r, all, z);
      if err != NoError {
        return err, r.(types := []);
      }
      z := z + 1;
    }
    assert all[..z] == all;
    if !unpins {
      return Affinity, r.(types := []);
    }
    return NoError, r;
  }

  lemma OutcomeMeans(env: nat -> Report, all: seq<nat>)
    ensures FirstFailure(env, all, 0, FirstTrouble(env, all, 0))
    ensures FirstTrouble(env, all, 0) == NoError <==> FirstFailure(env, all, 0, NoError)
  {
    var err := FirstTrouble(env, all, 0);
    FirstTroubleMeans(env, all, 0);
    if err != NoError {
      var z :| 0 <= z < |all| && (forall i :: 0 <= i < z ==> Fine(env, all, i)) && FailsWith(env, all, z, err);
      FailsOneWay(env, all, z, err, err);
    }
  }

  lemma KnownMeansSeen(env: nat -> Report, aids: seq<nat>, types: seq<Details>, d: Details)
    requires Tally(types, Reported(env, aids))
    ensures Known(types, d) <==> Seen(env, aids, d)
  {
    var found := Reported(env, aids);
    if i :| 0 <= i < |types| && Same(types[i], d) {
      CountedIsThere(found, types[i]);
      var k :| 0 <= k < |found| && Same(found[k], types[i]);
      assert Same(env(aids[k]).details, d);
    }
    if k :| 0 <= k < |aids| && Same(env(aids[k]).details, d) {
      assert Known(types, found[k]);
      var i :| 0 <= i < |types| && Same(types[i], found[k]);
      assert Same(types[i], d);
    }
  }
}
