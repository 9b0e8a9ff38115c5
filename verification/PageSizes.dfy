/** Page sizes (hardware/memory.c) and the first page of a receive buffer (alloc.c, buffers.h). */
module PageSizes {
  import opened Common
  import opened Inventory
  import opened RxBuffer

  function SizeKey(p: nat): Key { [p] }

  lemma SizeKeyOrder(a: nat, b: nat)
    ensures Lex(SizeKey(a), SizeKey(b)) == Cmp(a, b, 0)
  {
    assert SizeKey(a)[1..] == [] && SizeKey(b)[1..] == [];
  }

  predicate Reached(sizes: seq<nat>, p: nat) {
    exists i :: 0 <= i < |sizes| && sizes[i] >= p
  }

  /** A size is inserted unless one at least as large is there. */
  function Offer(sizes: seq<nat>, p: nat): seq<nat> {
    if Reached(sizes, p) then sizes else Inserted(sizes, SizeKey, p)
  }

  function Collect(sizes: seq<nat>, offered: seq<nat>): seq<nat>
    decreases |offered|
  {
    if offered == [] then sizes else Collect(Offer(sizes, offered[0]), offered[1..])
  }

  // ---- What the list holds ------------------------------------------------------------------------

  /** The sorted insertion only ever appends. */
  lemma OfferAppends(sizes: seq<nat>, p: nat)
    ensures Offer(sizes, p) == if Reached(sizes, p) then sizes else sizes + [p]
  {
    if !Reached(sizes, p) {
      var k := InsertedSplits(sizes, SizeKey, p);
      if k < |sizes| {
        SizeKeyOrder(sizes[k], p);
      }
      assert k == |sizes| ==> sizes[..k] == sizes && sizes[k..] == [];
    }
  }

  lemma {:induction false} CollectIncreasing(sizes: seq<nat>, offered: seq<nat>)
    requires Increasing(sizes)
    ensures Increasing(Collect(sizes, offered))
    ensures sizes <= Collect(sizes, offered)
    decreases |offered|
  {
    if offered != [] {
      OfferAppends(sizes, offered[0]);
      CollectIncreasing(Offer(sizes, offered[0]), offered[1..]);
    }
  }

  /** A size larger than all offered before it, and than all that were there. */
  predicate Record(sizes: seq<nat>, offered: seq<nat>, k: nat)
    requires k < |offered|
  {
    !Reached(sizes, offered[k]) && !Reached(offered[..k], offered[k])
  }

  lemma ReachedConcat(a: seq<nat>, b: seq<nat>, p: nat)
    ensures Reached(a + b, p) <==> Reached(a, p) || Reached(b, p)
  {
    if i :| 0 <= i < |a| && a[i] >= p {
      assert (a + b)[i] >= p;
    }
    if i :| 0 <= i < |b| && b[i] >= p {
      assert (a + b)[|a| + i] >= p;
    }
    if i :| 0 <= i < |a + b| && (a + b)[i] >= p {
      assert i >= |a| ==> b[i - |a|] >= p;
    }
  }

  /** A size is reached after an offer exactly when it was before or the offer reaches it. */
  lemma OfferReaches(sizes: seq<nat>, p: nat, q: nat)
    ensures Reached(Offer(sizes, p), q) <==> Reached(sizes, q) || p >= q
  {
    OfferAppends(sizes, p);
    ReachedConcat(sizes, [p], q);
    assert [p][0] == p;
    if i :| 0 <= i < |sizes| && sizes[i] >= p {
      assert p >= q ==> sizes[i] >= q;
    }
  }

  lemma RecordShift(sizes: seq<nat>, offered: seq<nat>, k: nat)
    requires 0 < k < |offered|
    ensures Record(sizes, offered, k) <==> Record(Offer(sizes, offered[0]), offered[1..], k - 1)
  {
    var p := offered[k];
    OfferReaches(sizes, offered[0], p);
    assert offered[..k] == [offered[0]] + offered[1..][..k - 1];
    ReachedConcat([offered[0]], offered[1..][..k - 1], p);
    assert Reached([offered[0]], p) <==> [offered[0]][0] >= p;
  }

  /** The list is what was there and the records among the offers, no more and no fewer. */
  lemma {:induction false} CollectIsRecords(sizes: seq<nat>, offered: seq<nat>, p: nat)
    ensures p in Collect(sizes, offered) <==>
            p in sizes || exists k :: 0 <= k < |offered| && offered[k] == p && Record(sizes, offered, k)
    decreases |offered|
  {
    if offered != [] {
      var s, rest := Offer(sizes, offered[0]), offered[1..];
      OfferAppends(sizes, offered[0]);
      CollectIsRecords(s, rest, p);
      if k :| 0 <= k < |rest| && rest[k] == p && Record(s, rest, k) {
        RecordShift(sizes, offered, k + 1);
        assert offered[k + 1] == p && Record(sizes, offered, k + 1);
      }
      if !Reached(sizes, offered[0]) {
        assert Record(sizes, offered, 0);
      }
      if k :| 0 <= k < |offered| && offered[k] == p && Record(sizes, offered, k) {
        if k > 0 {
          RecordShift(sizes, offered, k);
          assert rest[k - 1] == p && Record(s, rest, k - 1);
        }
      }
    }
  }

  lemma {:induction false} CollectReaches(sizes: seq<nat>, offered: seq<nat>, q: nat)
    ensures Reached(Collect(sizes, offered), q) <==> Reached(sizes, q) || Reached(offered, q)
    decreases |offered|
  {
    if offered != [] {
      OfferReaches(sizes, offered[0], q);
      CollectReaches(Offer(sizes, offered[0]), offered[1..], q);
      assert offered == [offered[0]] + offered[1..];
      ReachedConcat([offered[0]], offered[1..], q);
      assert Reached([offered[0]], q) <==> [offered[0]][0] >= q;
    }
  }

  // ---- The largest page size --------------------------------------------------------------------

  /** `r` is the greatest of all the nodes' sizes, or 0 when there are none. */
  predicate IsLargest(nodes: seq<seq<nat>>, r: nat) {
    && (forall z, p :: 0 <= z < |nodes| && 0 <= p < |nodes[z]| ==> nodes[z][p] <= r)
    && (r == 0 || exists z, p :: 0 <= z < |nodes| && 0 <= p < |nodes[z]| && nodes[z][p] == r)
  }

  /** Sizes passed over on the way do not matter: the largest size listed is the maximum of
      the system's page size and of every TLB's, and so is positive. */
  lemma LargestIsMaximum(psize: nat, cpus: seq<seq<Tlb>>, r: nat)
    requires psize > 0 && IsLargest([Collect([], Offered(psize, cpus))], r)
    ensures r >= psize > 0
    ensures forall c, t :: 0 <= c < |cpus| && 0 <= t < |cpus[c]| ==> cpus[c][t].pagesize <= r
    ensures r == psize || exists c, t :: 0 <= c < |cpus| && 0 <= t < |cpus[c]| && cpus[c][t].pagesize == r
  {
    var offered := Offered(psize, cpus);
    var sizes := Collect([], offered);
    assert [sizes][0] == sizes;
    assert offered[0] == psize;
    forall q: nat | q in offered
      ensures q <= r
    {
      CollectReaches([], offered, q);
      var i :| 0 <= i < |offered| && offered[i] == q;
      assert Reached(offered, q);
      var j :| 0 <= j < |sizes| && sizes[j] >= q;
      assert [sizes][0][j] <= r;
    }
    assert psize in offered;
    forall c, t | 0 <= c < |cpus| && 0 <= t < |cpus[c]|
      ensures cpus[c][t].pagesize <= r
    {
      SizesFromHas(cpus, 0, c, t);
      assert cpus[c][t].pagesize in offered;
    }
    assert r in sizes;
    CollectIsRecords([], offered, r);
    if r != psize {
      assert r in SizesFrom(cpus, 0);
      var c, t := SizesFromOnly(cpus, 0, r);
    }
  }

  // ---- The order of the offers ------------------------------------------------------------------

  function Sizes(tlbs: seq<Tlb>): seq<nat> {
    seq(|tlbs|, t requires 0 <= t < |tlbs| => tlbs[t].pagesize)
  }

  /** The TLB page sizes of CPU types `c` and up. */
  function SizesFrom(cpus: seq<seq<Tlb>>, c: nat): seq<nat>
    requires c <= |cpus|
    decreases |cpus| - c
  {
    if c == |cpus| then [] else Sizes(cpus[c]) + SizesFrom(cpus, c + 1)
  }

  function Offered(psize: nat, cpus: seq<seq<Tlb>>): seq<nat> { [psize] + SizesFrom(cpus, 0) }

  lemma {:induction false} SizesFromHas(cpus: seq<seq<Tlb>>, c: nat, c': nat, t: nat)
    requires c <= c' < |cpus| && t < |cpus[c']|
    ensures cpus[c'][t].pagesize in SizesFrom(cpus, c)
    decreases |cpus| - c
  {
    if c == c' {
      assert Sizes(cpus[c])[t] == cpus[c][t].pagesize;
    } else {
      SizesFromHas(cpus, c + 1, c', t);
    }
  }

  lemma {:induction false} SizesFromOnly(cpus: seq<seq<Tlb>>, c: nat, p: nat) returns (c': nat, t: nat)
    requires c <= |cpus| && p in SizesFrom(cpus, c)
    ensures c' < |cpus| && t < |cpus[c']| && cpus[c'][t].pagesize == p
    decreases |cpus| - c
  {
    if p in Sizes(cpus[c]) {
      c' := c;
      t :| 0 <= t < |cpus[c]| && Sizes(cpus[c])[t] == p;
    } else {
      c', t := SizesFromOnly(cpus, c + 1, p);
    }
  }

  lemma {:induction false} CollectSplits(sizes: seq<nat>, a: seq<nat>, b: seq<nat>)
    ensures Collect(sizes, a + b) == Collect(Collect(sizes, a), b)
    decreases |a|
  {
    if a == [] {
      assert a + b == b;
    } else {
      assert (a + b)[0] == a[0] && (a + b)[1..] == a[1..] + b;
      CollectSplits(Offer(sizes, a[0]), a[1..], b);
    }
  }

  // ---- Which sizes are listed -------------------------------------------------------------------

  /** How many TLBs the processor types before `c` have. */
  function Before(cpus: seq<seq<Tlb>>, c: nat): nat
    requires c <= |cpus|
  {
    if c == 0 then 0 else Before(cpus, c - 1) + |cpus[c - 1]|
  }

  lemma {:induction false} BeforeMonotone(cpus: seq<seq<Tlb>>, c: nat, c': nat)
    requires c < c' <= |cpus|
    ensures Before(cpus, c) + |cpus[c]| <= Before(cpus, c')
    decreases c'
  {
    if c < c' - 1 {
      BeforeMonotone(cpus, c, c' - 1);
    }
  }

  lemma {:induction false} OfferedBefore(cpus: seq<seq<Tlb>>, c: nat) returns (prefix: seq<nat>)
    requires c <= |cpus|
    ensures SizesFrom(cpus, 0) == prefix + SizesFrom(cpus, c) && |prefix| == Before(cpus, c)
  {
    if c == 0 {
      prefix := [];
    } else {
      var shorter := OfferedBefore(cpus, c - 1);
      prefix := shorter + Sizes(cpus[c - 1]);
      assert shorter + (Sizes(cpus[c - 1]) + SizesFrom(cpus, c)) == prefix + SizesFrom(cpus, c);
    }
  }

  /** The order of the offers: the system's size, then every TLB's, by processor type and in
      the order each type lists them. */
  lemma OfferedAt(psize: nat, cpus: seq<seq<Tlb>>, c: nat, t: nat)
    requires c < |cpus| && t < |cpus[c]|
    ensures 1 + Before(cpus, c) + t < |Offered(psize, cpus)|
    ensures Offered(psize, cpus)[0] == psize
    ensures Offered(psize, cpus)[1 + Before(cpus, c) + t] == cpus[c][t].pagesize
  {
    var prefix := OfferedBefore(cpus, c);
    assert SizesFrom(cpus, c)[t] == Sizes(cpus[c])[t];
    assert (prefix + SizesFrom(cpus, c))[Before(cpus, c) + t] == SizesFrom(cpus, c)[t];
  }

  /** And nothing else is offered. */
  lemma {:induction false} OfferedFrom(cpus: seq<seq<Tlb>>, c: nat, k: nat) returns (c': nat, t: nat)
    requires c <= |cpus| && k < |SizesFrom(cpus, c)|
    ensures c <= c' < |cpus| && t < |cpus[c']| && Before(cpus, c') + t == Before(cpus, c) + k
    decreases |cpus| - c
  {
    if k < |cpus[c]| {
      c', t := c, k;
    } else {
      c', t := OfferedFrom(cpus, c + 1, k - |cpus[c]|);
    }
  }

  predicate Earlier(c: nat, t: nat, c': nat, t': nat) { c < c' || (c == c' && t < t') }

  /** Larger than the system's page size and than that of every TLB before it. */
  predicate Surpasses(psize: nat, cpus: seq<seq<Tlb>>, c: nat, t: nat)
    requires c < |cpus| && t < |cpus[c]|
  {
    && cpus[c][t].pagesize > psize
    && forall c', t' :: 0 <= c' < |cpus| && 0 <= t' < |cpus[c']| && Earlier(c', t', c, t) ==>
         cpus[c'][t'].pagesize < cpus[c][t].pagesize
  }

  lemma EarlierMeans(cpus: seq<seq<Tlb>>, c: nat, t: nat, c': nat, t': nat)
    requires c < |cpus| && t < |cpus[c]| && c' < |cpus| && t' < |cpus[c']|
    ensures Earlier(c, t, c', t') <==> Before(cpus, c) + t < Before(cpus, c') + t'
  {
    if c < c' {
      BeforeMonotone(cpus, c, c');
    } else if c' < c {
      BeforeMonotone(cpus, c', c);
    }
  }

  lemma SurpassesMeans(psize: nat, cpus: seq<seq<Tlb>>, c: nat, t: nat)
    requires c < |cpus| && t < |cpus[c]|
    ensures 1 + Before(cpus, c) + t < |Offered(psize, cpus)|
    ensures Record([], Offered(psize, cpus), 1 + Before(cpus, c) + t) <==> Surpasses(psize, cpus, c, t)
  {
    var all, k := Offered(psize, cpus), 1 + Before(cpus, c) + t;
    OfferedAt(psize, cpus, c, t);
    if Surpasses(psize, cpus, c, t) {
      forall i | 0 <= i < k
        ensures all[..k][i] < all[k]
      {
        if i > 0 {
          var c', t' := OfferedFrom(cpus, 0, i - 1);
          OfferedAt(psize, cpus, c', t');
          EarlierMeans(cpus, c', t', c, t);
        }
      }
    }
    if Record([], all, k) {
      forall i | 0 <= i < k ensures all[i] < all[k] { assert all[..k][i] == all[i]; }
      forall c', t' | 0 <= c' < |cpus| && 0 <= t' < |cpus[c']| && Earlier(c', t', c, t)
        ensures cpus[c'][t'].pagesize < cpus[c][t].pagesize
      {
        OfferedAt(psize, cpus, c', t');
        EarlierMeans(cpus, c', t', c, t);
      }
    }
  }

  /** A size is listed if and only if it is the system's, or that of a TLB which surpasses it and
      all TLBs before. */
  lemma ListedIff(psize: nat, cpus: seq<seq<Tlb>>, p: nat)
    ensures p in Collect([], Offered(psize, cpus)) <==>
            p == psize || exists c, t :: 0 <= c < |cpus| && 0 <= t < |cpus[c]| && cpus[c][t].pagesize == p && Surpasses(psize, cpus, c, t)
  {
    var all := Offered(psize, cpus);
    CollectIsRecords([], all, p);
    assert all[0] == psize && Record([], all, 0) by { assert all[..0] == []; }
    if k: nat :| k < |all| && all[k] == p && Record([], all, k) {
      if k > 0 {
        var c, t := OfferedFrom(cpus, 0, k - 1);
        OfferedAt(psize, cpus, c, t);
        SurpassesMeans(psize, cpus, c, t);
      }
    }
    if c, t :| 0 <= c < |cpus| && 0 <= t < |cpus[c]| && cpus[c][t].pagesize == p && Surpasses(psize, cpus, c, t) {
      OfferedAt(psize, cpus, c, t);
      SurpassesMeans(psize, cpus, c, t);
      assert all[1 + Before(cpus, c) + t] == p;
    }
  }

  // ---- The code ---------------------------------------------------------------------------------

  /** match_pagesize() */
  method MatchPageSize(psvals: array<nat>, ps: nat) returns (found: bool)
    ensures found <==> Reached(psvals[..], ps)
  {
    var n := 0;
    while n < psvals.Length
      invariant 0 <= n <= psvals.Length && forall i :: 0 <= i < n ==> psvals[i] < ps
    {
      if psvals[n] >= ps {
        assert psvals[..][n] >= ps;
        return true;
      }
      n := n + 1;
    }
    return false;
  }

  /** The body of the TLB loop: fails only if the list has to grow and cannot. */
  method OfferSize(psvals: array<nat>, ps: nat, alloc: nat -> bool) returns (ok: bool, r: array<nat>)
    ensures ok <==> Reached(psvals[..], ps) || alloc(psvals.Length)
    ensures ok ==> r[..] == Offer(psvals[..], ps)
    ensures !ok ==> r == psvals
  {
    r := psvals;
    var found := MatchPageSize(psvals, ps);
    if !found {
      if !alloc(psvals.Length) {
        return false, r;
      }
      r := InsertSorted(psvals, SizeKey, ps);
    }
    return true, r;
  }

  /** What the list must grow by is decided by the allocations from its length on. */
  ghost predicate CanGrow(sizes: seq<nat>, offered: seq<nat>, alloc: nat -> bool) {
    forall n :: |sizes| <= n < |Collect(sizes, offered)| ==> alloc(n)
  }

  lemma CanGrowFirst(sizes: seq<nat>, offered: seq<nat>, alloc: nat -> bool)
    requires Increasing(sizes) && offered != []
    ensures Increasing(Offer(sizes, offered[0]))
    ensures CanGrow(sizes, offered, alloc) <==>
            (Reached(sizes, offered[0]) || alloc(|sizes|)) && CanGrow(Offer(sizes, offered[0]), offered[1..], alloc)
  {
    OfferAppends(sizes, offered[0]);
    CollectIncreasing(Offer(sizes, offered[0]), offered[1..]);
  }

  lemma CanGrowSplits(sizes: seq<nat>, a: seq<nat>, b: seq<nat>, alloc: nat -> bool)
    requires Increasing(sizes)
    ensures CanGrow(sizes, a + b, alloc) <==> CanGrow(sizes, a, alloc) && CanGrow(Collect(sizes, a), b, alloc)
  {
    CollectSplits(sizes, a, b);
    CollectIncreasing(sizes, a);
    CollectIncreasing(Collect(sizes, a), b);
  }

  /** The loop over the TLBs of one CPU type. */
  method OfferTlbs(psvals: array<nat>, tlbs: seq<Tlb>, alloc: nat -> bool) returns (ok: bool, r: array<nat>)
    requires Increasing(psvals[..])
    ensures ok <==> CanGrow(psvals[..], Sizes(tlbs), alloc)
    ensures ok ==> r[..] == Collect(psvals[..], Sizes(tlbs))
  {
    ghost var all := Sizes(tlbs);
    r := psvals;
    var tlbt: nat := 0;
    while tlbt < |tlbs|
      invariant tlbt <= |tlbs| && Increasing(r[..])
      invariant Collect(psvals[..], all) == Collect(r[..], all[tlbt..])
      invariant CanGrow(psvals[..], all, alloc) <==> CanGrow(r[..], all[tlbt..], alloc)
    {
      assert all[tlbt..][0] == tlbs[tlbt].pagesize && all[tlbt..][1..] == all[tlbt + 1..];
      CanGrowFirst(r[..], all[tlbt..], alloc);
      ok, r := OfferSize(r, tlbs[tlbt].pagesize, alloc);
      if !ok {
        return;
      }
      tlbt := tlbt + 1;
    }
    return true, r;
  }

  /** The sizes of one processor type, then those of the others. */
  lemma OneCpuType(sizes: seq<nat>, cpus: seq<seq<Tlb>>, c: nat, alloc: nat -> bool)
    requires c < |cpus| && Increasing(sizes)
    ensures Collect(sizes, SizesFrom(cpus, c)) == Collect(Collect(sizes, Sizes(cpus[c])), SizesFrom(cpus, c + 1))
    ensures CanGrow(sizes, SizesFrom(cpus, c), alloc) <==>
            CanGrow(sizes, Sizes(cpus[c]), alloc) && CanGrow(Collect(sizes, Sizes(cpus[c])), SizesFrom(cpus, c + 1), alloc)
    ensures Increasing(Collect(sizes, Sizes(cpus[c])))
  {
    CollectSplits(sizes, Sizes(cpus[c]), SizesFrom(cpus, c + 1));
    CanGrowSplits(sizes, Sizes(cpus[c]), SizesFrom(cpus, c + 1), alloc);
    CollectIncreasing(sizes, Sizes(cpus[c]));
  }

  /** The system's page size comes first. */
  lemma SystemSizeFirst(psize: nat, cpus: seq<seq<Tlb>>, alloc: nat -> bool)
    ensures Collect([], Offered(psize, cpus)) == Collect(Offer([], psize), SizesFrom(cpus, 0))
    ensures CanGrow([], Offered(psize, cpus), alloc) <==> alloc(0) && CanGrow(Offer([], psize), SizesFrom(cpus, 0), alloc)
    ensures !Reached([], psize) && Increasing(Offer([], psize))
  {
    var all := Offered(psize, cpus);
    assert all[0] == psize && all[1..] == SizesFrom(cpus, 0);
    CanGrowFirst([], all, alloc);
  }

  /** The loop over the processor types. */
  method OfferCpus(psvals: array<nat>, cpus: seq<seq<Tlb>>, alloc: nat -> bool) returns (ok: bool, r: array<nat>)
    requires Increasing(psvals[..])
    ensures ok <==> CanGrow(psvals[..], SizesFrom(cpus, 0), alloc)
    ensures ok ==> r[..] == Collect(psvals[..], SizesFrom(cpus, 0))
  {
    ghost var start, all := psvals[..], SizesFrom(cpus, 0);
    r := psvals;
    var cput: nat := 0;
    while cput < |cpus|
      invariant cput <= |cpus| && Increasing(r[..])
      invariant Collect(start, all) == Collect(r[..], SizesFrom(cpus, cput))
      invariant CanGrow(start, all, alloc) <==> CanGrow(r[..], SizesFrom(cpus, cput), alloc)
    {
      OneCpuType(r[..], cpus, cput, alloc);
      ok, r := OfferTlbs(r, cpus[cput], alloc);
      if !ok {
        return;
      }
      cput := cput + 1;
    }
    return true, r;
  }

  method AddFirst(psize: nat) returns (r: array<nat>)
    ensures r[..] == Offer([], psize)
  {
    var none := new nat[0];
    assert none[..] == [] && !Reached([], psize);
    r := InsertSorted(none, SizeKey, psize);
  }

  /** determine_pagesizes(): fails exactly when the system's page size is unknown or one of
      the reallocations the final list needs does. */
  method DeterminePageSizes(psize: int, cpus: seq<seq<Tlb>>, alloc: nat -> bool) returns (ok: bool, sizes: array<nat>)
    ensures ok <==> psize > 0 && forall n :: 0 <= n < |Collect([], Offered(psize, cpus))| ==> alloc(n)
    ensures ok ==> sizes[..] == Collect([], Offered(psize, cpus))
  {
    sizes := new nat[0];
    if psize <= 0 {
      return false, sizes;
    }
    SystemSizeFirst(psize, cpus, alloc);
    if !alloc(0) {
      return false, sizes;
    }
    sizes := AddFirst(psize);
    ok, sizes := OfferCpus(sizes, cpus, alloc);
  }

  /** large_system_pagesize() */
  method LargeSystemPageSize(nodes: seq<seq<nat>>) returns (r: nat)
    ensures IsLargest(nodes, r)
  {
    r := 0;
    ghost var wz: nat, wp: nat := 0, 0;
    var z: nat := 0;
    while z < |nodes|
      invariant z <= |nodes|
      invariant forall z', p' :: 0 <= z' < z && 0 <= p' < |nodes[z']| ==> nodes[z'][p'] <= r
      invariant r == 0 || (wz < |nodes| && wp < |nodes[wz]| && nodes[wz][wp] == r)
    {
      var p: nat := 0;
      while p < |nodes[z]|
        invariant p <= |nodes[z]|
        invariant forall z', p' :: 0 <= z' < z && 0 <= p' < |nodes[z']| ==> nodes[z'][p'] <= r
        invariant forall p' :: 0 <= p' < p ==> nodes[z][p'] <= r
        invariant r == 0 || (wz < |nodes| && wp < |nodes[wz]| && nodes[wz][wp] == r)
      {
        if nodes[z][p] > r {
          r := nodes[z][p];
          wz, wp := z, p;
        }
        p := p + 1;
      }
      z := z + 1;
    }
  }

  lemma LargestUnique(nodes: seq<seq<nat>>, p: nat, q: nat)
    requires IsLargest(nodes, p) && IsLargest(nodes, q)
    ensures p == q
  {
  }

  /** initialize_rxbuffer() over get_big_page(): without a page size there is no buffer, and
      with one the mapping may still fail; a buffer that is there is as long as the largest
      page. `maps` says which lengths mmap() grants. */
  method InitializeRxBuffer(nodes: seq<seq<nat>>, maps: nat -> bool) returns (rxb: RxBuf?)
    requires forall n: nat :: maps(n) ==> n < MAP_LIMIT
    ensures forall page: nat :: IsLargest(nodes, page) ==> (rxb != null <==> page > 0 && maps(page))
    ensures rxb != null ==> fresh(rxb) && rxb.Valid() && rxb.Window() == [] && rxb.buffer.Length > 0
                            && IsLargest(nodes, rxb.buffer.Length)
  {
    var page := LargeSystemPageSize(nodes);
    forall p: nat | IsLargest(nodes, p) ensures p == page { LargestUnique(nodes, p, page); }
    if page == 0 || !maps(page) {
      return null;
    }
    rxb := new RxBuf(page);
  }
}
