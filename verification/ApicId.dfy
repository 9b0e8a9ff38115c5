/** Taking an APIC id apart into package, core and thread (hardware/x86cpuid.c).

    Machine words are natural numbers here; `And` is the bitwise conjunction and a right
    shift by one is a division by two. */
module ApicId {
  import opened Common

  // ---- Bits -----------------------------------------------------------------------------

  function And(a: nat, b: nat): (r: nat)
    decreases a
  {
    if a == 0 || b == 0 then 0
    else 2 * And(a / 2, b / 2) + if a % 2 == 1 && b % 2 == 1 then 1 else 0
  }

  function Pow2(k: nat): (p: nat)
    ensures p > 0
  {
    if k == 0 then 1 else 2 * Pow2(k - 1)
  }

  ghost predicate IsPow2(n: nat) { exists k: nat :: n == Pow2(k) }

  function Log2(n: nat): nat
    requires n > 0
  {
    if n == 1 then 0 else 1 + Log2(n / 2)
  }

  lemma {:induction false} Log2Bounds(n: nat)
    requires n > 0
    ensures Pow2(Log2(n)) <= n < 2 * Pow2(Log2(n))
  {
    if n > 1 {
      Log2Bounds(n / 2);
    }
  }

  lemma {:induction false} Pow2Monotone(j: nat, k: nat)
    requires j < k
    ensures 2 * Pow2(j) <= Pow2(k)
    decreases k
  {
    if j < k - 1 {
      Pow2Monotone(j, k - 1);
    }
  }

  lemma Log2OfPow2(n: nat)
    requires IsPow2(n)
    ensures n > 0 && Pow2(Log2(n)) == n
  {
    var k: nat :| n == Pow2(k);
    Log2Bounds(n);
    var l := Log2(n);
    if l < k {
      Pow2Monotone(l, k);
    } else if k < l {
      Pow2Monotone(k, l);
    }
  }

  lemma Multiples(k: int, d: nat)
    ensures k >= 1 ==> k * d >= d
    ensures k <= -1 ==> k * d <= 0 - d
  {
    if k >= 1 {
      assert k * d == d + (k - 1) * d;
    } else if k <= -1 {
      assert k * d == (k + 1) * d - d;
    }
  }

  lemma DivModUnique(a: nat, d: nat, q: nat, r: nat)
    requires d > 0 && r < d && a == q * d + r
    ensures a / d == q && a % d == r
  {
    assert a == (a / d) * d + a % d;
    assert (a / d - q) * d == r - a % d;
    Multiples(a / d - q, d);
  }

  lemma ModDouble(a: nat, m: nat)
    requires m > 0
    ensures a % (2 * m) == 2 * ((a / 2) % m) + a % 2
    ensures a / (2 * m) == (a / 2) / m
  {
    var q, r := (a / 2) / m, (a / 2) % m;
    assert a / 2 == q * m + r;
    assert a == q * (2 * m) + (2 * r + a % 2) by {
      assert a == 2 * (a / 2) + a % 2;
      assert 2 * (q * m) == q * (2 * m);
    }
    DivModUnique(a, 2 * m, q, 2 * r + a % 2);
  }

  /** Masking with a power of two less one takes the remainder. */
  lemma {:induction false} AndLow(a: nat, k: nat)
    ensures And(a, Pow2(k) - 1) == a % Pow2(k)
    decreases k
  {
    if k > 0 {
      AndLow(a / 2, k - 1);
      AndLowStep(a, Pow2(k - 1));
    }
  }

  lemma AndLowStep(a: nat, m: nat)
    requires m > 0 && And(a / 2, m - 1) == (a / 2) % m
    ensures And(a, 2 * m - 1) == a % (2 * m)
  {
    AndHalves(a, m);
    ModDouble(a, m);
  }

  /** The lowest bit of such a mask is set. */
  lemma AndHalves(a: nat, m: nat)
    requires m > 0
    ensures And(a, 2 * m - 1) == 2 * And(a / 2, m - 1) + a % 2
  {
    if a > 0 {
      assert (2 * m - 1) / 2 == m - 1 && (2 * m - 1) % 2 == 1;
    }
  }

  lemma {:induction false} AndSelf(a: nat)
    ensures And(a, a) == a
  {
    if a > 0 {
      AndSelf(a / 2);
    }
  }

  lemma Pow2Half(n: nat)
    requires n > 0 && n % 2 == 0
    ensures IsPow2(n) <==> IsPow2(n / 2)
  {
    if k: nat :| n == Pow2(k) {
      assert k > 0 && n / 2 == Pow2(k - 1);
    }
    if k: nat :| n / 2 == Pow2(k) {
      assert n == Pow2(k + 1);
    }
  }

  /** The usual test: a positive number shares no bit with its predecessor exactly when it
      is a power of two. */
  lemma {:induction false} PowerOfTwoTest(n: nat)
    requires n > 0
    ensures And(n, n - 1) == 0 <==> IsPow2(n)
  {
    if n == 1 {
      assert 1 == Pow2(0);
    } else if n % 2 == 0 {
      PowerOfTwoTest(n / 2);
      Pow2Half(n);
    } else {
      AndSelf(n / 2);
      assert And(n, n - 1) == 2 * And(n / 2, n / 2);
      forall k: nat ensures n != Pow2(k) { assert k > 0 ==> Pow2(k) % 2 == 0; }
    }
  }

  lemma {:induction false} Pow2Exceeds(n: nat)
    ensures Pow2(n) > n
  {
    if n > 0 {
      Pow2Exceeds(n - 1);
    }
  }

  // ---- Threads per core -------------------------------------------------------------------

  /** The round-up loop of id_x86_topology(): the least power of two not below its start. */
  method RoundUp(start: nat) returns (t: nat)
    requires start > 0
    ensures t >= start && IsPow2(t)
    ensures forall p: nat :: start <= p && IsPow2(p) ==> t <= p
  {
    t := start;
    Pow2Exceeds(start);
    PowerOfTwoTest(t);
    while And(t, t - 1) != 0
      invariant start <= t <= Pow2(start)
      invariant And(t, t - 1) == 0 <==> IsPow2(t)
      invariant forall p: nat :: start <= p < t ==> !IsPow2(p)
      decreases Pow2(start) - t
    {
      assert IsPow2(Pow2(start));
      t := t + 1;
      PowerOfTwoTest(t);
    }
  }

  /** CPUID function 1. */
  const CPUID_CPU_VERSION: nat := 1

  /** id_x86_topology(): `ebx` is what function 1 returns. Without hyperthreading there is
      one thread; with it the count is EBX[23:16], which must not be zero, rounded up. */
  method IdX86Topology(maxfunc: nat, ht: bool, ebx: nat) returns (threads: Option<nat>)
    ensures threads.None? <==> maxfunc < CPUID_CPU_VERSION || (ht && (ebx / 65536) % 256 == 0)
    ensures threads.Some? ==> IsPow2(threads.value) && threads.value <= 256
    ensures threads.Some? && ht ==> (ebx / 65536) % 256 <= threads.value < 2 * ((ebx / 65536) % 256)
    ensures threads.Some? && !ht ==> threads.value == 1
  {
    if maxfunc < CPUID_CPU_VERSION {
      return None;
    }
    var t := 1;
    if ht {
      t := (ebx / 65536) % 256;
      if t == 0 {
        return None;
      }
    }
    ghost var given := t;
    t := RoundUp(t);
    assert IsPow2(256) by { assert Pow2(8) == 256; }
    assert t < 2 * given by {
      Log2Bounds(given);
      var p := Pow2(Log2(given));
      assert IsPow2(p);
      assert 2 * p == Pow2(Log2(given) + 1);
      assert IsPow2(2 * p);
    }
    assert IsPow2(1) by { assert Pow2(0) == 1; }
    return Some(t);
  }

  /** The core-bit loop of id_amd_topology(): two to the number of bits, or the count of
      cores in the low byte, plus one, when no bits are given. */
  method AmdCores(ecx: nat) returns (cores: nat)
    ensures var bits := (ecx / 4096) % 16;
            cores == if bits != 0 then Pow2(bits) else ecx % 256 + 1
  {
    var bits := (ecx / 4096) % 16;
    cores := 1;
    if bits != 0 {
      var z := bits;
      while z > 0
        invariant 0 <= z <= bits && cores == Pow2(bits - z)
      {
        cores := cores * 2;
        z := z - 1;
      }
    } else {
      cores := ecx % 256 + 1;
    }
  }

  // ---- The APIC id ----------------------------------------------------------------------------

  datatype Triple = Triple(pkg: nat, core: nat, thread: nat)

  function Decompose(tpc: nat, cpp: nat, apic: nat): Triple
    requires tpc > 0 && cpp > 0
  {
    var upper := apic / Pow2(Log2(tpc));
    Triple(upper / Pow2(Log2(cpp)), And(upper, cpp - 1), And(apic, tpc - 1))
  }

  lemma HalveStep(apic: nat, n: nat)
    requires n > 1
    ensures apic / Pow2(Log2(n)) == (apic / 2) / Pow2(Log2(n / 2))
  {
    ModDouble(apic, Pow2(Log2(n / 2)));
  }

  /** Shifts `apic` right once for every halving of `count` before it reaches zero. */
  method ShiftOut(apic: nat, count: nat) returns (r: nat)
    requires count > 0
    ensures r == apic / Pow2(Log2(count))
  {
    r := apic;
    var n := count;
    while n / 2 > 0
      invariant n > 0 && r / Pow2(Log2(n)) == apic / Pow2(Log2(count))
      decreases n
    {
      HalveStep(r, n);
      n := n / 2;
      r := r / 2;
    }
  }

  /** x86topology() */
  method X86Topology(tpc: nat, cpp: nat, apic: nat) returns (r: Option<Triple>)
    ensures r.None? <==> tpc == 0 || cpp == 0
    ensures r.Some? ==> r.value == Decompose(tpc, cpp, apic)
  {
    if tpc == 0 || cpp == 0 {
      return None;
    }
    var thread := And(apic, tpc - 1);
    var upper := ShiftOut(apic, tpc);
    var core := And(upper, cpp - 1);
    var pkg := ShiftOut(upper, cpp);
    return Some(Triple(pkg, core, thread));
  }

  function Compose(tpc: nat, cpp: nat, t: Triple): nat {
    (t.pkg * cpp + t.core) * tpc + t.thread
  }

  lemma DivMod(a: nat, d: nat)
    requires d > 0
    ensures (a / d) * d + a % d == a && a % d < d
  {
  }

  lemma MaskIsRemainder(n: nat, a: nat)
    requires n > 0 && IsPow2(n)
    ensures And(a, n - 1) < n && (a / Pow2(Log2(n))) * n + And(a, n - 1) == a
  {
    Log2OfPow2(n);
    AndLow(a, Log2(n));
    DivMod(a, n);
  }

  lemma Parts(tpc: nat, cpp: nat, apic: nat) returns (t: Triple, upper: nat)
    requires tpc > 0 && cpp > 0 && IsPow2(tpc) && IsPow2(cpp)
    ensures t == Decompose(tpc, cpp, apic) && t.thread < tpc && t.core < cpp
    ensures upper * tpc + t.thread == apic
    ensures t.pkg * cpp + t.core == upper
  {
    t := Decompose(tpc, cpp, apic);
    upper := apic / Pow2(Log2(tpc));
    MaskIsRemainder(tpc, apic);
    MaskIsRemainder(cpp, upper);
  }

  lemma Glue(t: Triple, tpc: nat, cpp: nat, upper: nat, apic: nat)
    requires t.pkg * cpp + t.core == upper && upper * tpc + t.thread == apic
    ensures Compose(tpc, cpp, t) == apic
  {
  }

  /** With power-of-two counts the parts are in range and make up the id again. */
  lemma ComposeDecompose(tpc: nat, cpp: nat, apic: nat) returns (t: Triple)
    requires tpc > 0 && cpp > 0 && IsPow2(tpc) && IsPow2(cpp)
    ensures t == Decompose(tpc, cpp, apic)
    ensures t.thread < tpc && t.core < cpp && Compose(tpc, cpp, t) == apic
  {
    var upper;
    t, upper := Parts(tpc, cpp, apic);
    Glue(t, tpc, cpp, upper, apic);
  }

  /** So distinct ids, of any packages, get distinct triples. */
  lemma DistinctTriples(tpc: nat, cpp: nat, a: nat, b: nat)
    requires tpc > 0 && cpp > 0 && IsPow2(tpc) && IsPow2(cpp)
    ensures Decompose(tpc, cpp, a) == Decompose(tpc, cpp, b) ==> a == b
  {
    var s := ComposeDecompose(tpc, cpp, a);
    var t := ComposeDecompose(tpc, cpp, b);
  }

  lemma {:induction false} MissingBit(m: nat, k: nat) returns (j: nat)
    requires m % Pow2(k) != Pow2(k) - 1
    ensures j < k && And(Pow2(j), m) == 0
    decreases k
  {
    if k > 0 {
      if m % 2 == 0 {
        j := 0;
        assert And(1, m) == 0;
      } else {
        ModDouble(m, Pow2(k - 1));
        var i := MissingBit(m / 2, k - 1);
        j := i + 1;
        assert Pow2(j) / 2 == Pow2(i) && Pow2(j) % 2 == 0;
      }
    }
  }

  /** A count that is not a power of two masks with a hole below its leading bit. */
  lemma HoleBelow(n: nat) returns (j: nat)
    requires n > 0 && !IsPow2(n)
    ensures j < Log2(n) && And(Pow2(j), n - 1) == 0
  {
    var p := Pow2(Log2(n));
    Log2Bounds(n);
    assert n != p;
    DivModUnique(n - 1, p, 1, n - 1 - p);
    j := MissingBit(n - 1, Log2(n));
  }

  lemma SmallShift(j: nat, k: nat)
    requires j < k
    ensures Pow2(j) < Pow2(k) && Pow2(j) / Pow2(k) == 0
  {
    Pow2Monotone(j, k);
    DivModUnique(Pow2(j), Pow2(k), 0, Pow2(j));
  }

  /** Two ids of the first package that the decomposition cannot tell apart. */
  ghost predicate Collide(tpc: nat, cpp: nat, a: nat, b: nat)
    requires tpc > 0 && cpp > 0
  {
    a < b < tpc * cpp && Decompose(tpc, cpp, a) == Decompose(tpc, cpp, b)
  }

  lemma ZeroDecomposes(tpc: nat, cpp: nat)
    requires tpc > 0 && cpp > 0
    ensures Decompose(tpc, cpp, 0) == Triple(0, 0, 0)
  {
    DivModUnique(0, Pow2(Log2(tpc)), 0, 0);
    DivModUnique(0, Pow2(Log2(cpp)), 0, 0);
  }

  lemma ProductGrows(a: nat, b: nat, c: nat)
    requires a < b && c > 0
    ensures a < b * c && a * c < b * c
  {
    assert b * c == a * c + (b - a) * c;
    Multiples(b - a, c);
    Multiples(c, b);
    assert b * c == c * b;
  }

  lemma ThreadCollision(tpc: nat, cpp: nat) returns (b: nat)
    requires tpc > 0 && cpp > 0 && !IsPow2(tpc)
    ensures Collide(tpc, cpp, 0, b)
  {
    var j := HoleBelow(tpc);
    b := Pow2(j);
    ZeroDecomposes(tpc, cpp);
    SmallShift(j, Log2(tpc));
    Log2Bounds(tpc);
    ProductGrows(b, tpc, cpp);
    assert Decompose(tpc, cpp, b) == Triple(0, 0, 0) by {
      DivModUnique(0, Pow2(Log2(cpp)), 0, 0);
    }
  }

  lemma CoreCollision(tpc: nat, cpp: nat) returns (b: nat)
    requires IsPow2(tpc) && tpc > 0 && cpp > 0 && !IsPow2(cpp)
    ensures Collide(tpc, cpp, 0, b)
  {
    var j := HoleBelow(cpp);
    SmallShift(j, Log2(cpp));
    Log2Bounds(cpp);
    ZeroDecomposes(tpc, cpp);
    b := MultipleOf(tpc, Pow2(j), cpp);
  }

  /** A multiple of the threads leaves thread 0 and the multiplier as what is above. */
  lemma MultipleOf(tpc: nat, m: nat, cpp: nat) returns (b: nat)
    requires IsPow2(tpc) && tpc > 0 && 0 < m < cpp
    ensures 0 < b < tpc * cpp && And(b, tpc - 1) == 0 && b / Pow2(Log2(tpc)) == m
  {
    b := m * tpc;
    Log2OfPow2(tpc);
    ProductGrows(m, cpp, tpc);
    Commutes(tpc, cpp);
    Multiples(m, tpc);
    DivModUnique(b, tpc, m, 0);
    AndLow(b, Log2(tpc));
  }

  lemma Commutes(a: nat, b: nat)
    ensures a * b == b * a
  {
  }

  /** Distinct ids of a package get distinct triples exactly when both counts are powers of
      two. The counts Intel's topology leaf reports, and AMD's count of cores when no core
      bits are given, need not be. */
  lemma LosslessIff(tpc: nat, cpp: nat)
    requires tpc > 0 && cpp > 0
    ensures (forall a: nat, b: nat :: !Collide(tpc, cpp, a, b)) <==> IsPow2(tpc) && IsPow2(cpp)
  {
    if !IsPow2(tpc) {
      var b := ThreadCollision(tpc, cpp);
    } else if !IsPow2(cpp) {
      var b := CoreCollision(tpc, cpp);
    } else {
      forall a: nat, b: nat
        ensures !Collide(tpc, cpp, a, b)
      {
        DistinctTriples(tpc, cpp, a, b);
      }
    }
  }
}
