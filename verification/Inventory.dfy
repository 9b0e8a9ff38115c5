/** Sorted hardware inventories (hardware/x86cpuid.c): memories and TLBs in lexicographic
    order, and the descriptors of CPUID function 2. */
module Inventory {
  import opened Common

  // ---- Lexicographic order ----------------------------------------------------------------

  type Key = seq<nat>

  function Lex(a: Key, b: Key): int {
    if a == [] then (if b == [] then 0 else -1)
    else if b == [] then 1
    else if a[0] < b[0] then -1
    else if a[0] > b[0] then 1
    else Lex(a[1..], b[1..])
  }

  /** A total order: never both ways, equal only to itself, */
  lemma {:induction false} LexAntisymmetric(a: Key, b: Key)
    ensures Lex(a, b) == -Lex(b, a)
    ensures Lex(a, b) == 0 <==> a == b
    ensures Lex(a, b) == 0 || Lex(a, b) == 1 || Lex(a, b) == -1
  {
    if a != [] && b != [] {
      LexAntisymmetric(a[1..], b[1..]);
      assert a == [a[0]] + a[1..] && b == [b[0]] + b[1..];
    }
  }

  /** and transitive. */
  lemma {:induction false} LexTransitive(a: Key, b: Key, c: Key)
    requires Lex(a, b) <= 0 && Lex(b, c) <= 0
    ensures Lex(a, c) <= 0
  {
    if a != [] && b != [] && c != [] && a[0] == b[0] == c[0] {
      LexTransitive(a[1..], b[1..], c[1..]);
    }
  }

  // ---- Sorted insertion ------------------------------------------------------------------------

  predicate SortedBy<T>(s: seq<T>, key: T -> Key) {
    forall i, j :: 0 <= i < j < |s| ==> Lex(key(s[i]), key(s[j])) <= 0
  }

  /** The new element goes before the first that is greater. */
  function Inserted<T>(s: seq<T>, key: T -> Key, x: T): seq<T> {
    if s == [] then [x]
    else if Lex(key(s[0]), key(x)) > 0 then [x] + s
    else [s[0]] + Inserted(s[1..], key, x)
  }

  /** Insertion splits the list in two around the new element, which comes after all that
      are not greater: nothing is lost, added or reordered. */
  lemma {:induction false} InsertedSplits<T>(s: seq<T>, key: T -> Key, x: T) returns (p: nat)
    ensures p <= |s| && Inserted(s, key, x) == s[..p] + [x] + s[p..]
    ensures forall i :: 0 <= i < p ==> Lex(key(s[i]), key(x)) <= 0
    ensures p < |s| ==> Lex(key(s[p]), key(x)) > 0
  {
    if s == [] || Lex(key(s[0]), key(x)) > 0 {
      p := 0;
    } else {
      var q := InsertedSplits(s[1..], key, x);
      p := q + 1;
      assert s[..p] == [s[0]] + s[1..][..q] && s[1..][q..] == s[p..];
    }
  }

  lemma InsertedPermutes<T>(s: seq<T>, key: T -> Key, x: T)
    ensures multiset(Inserted(s, key, x)) == multiset(s) + multiset{x}
  {
    var p := InsertedSplits(s, key, x);
    assert s == s[..p] + s[p..];
  }

  /** Position by position. */
  lemma InsertedAt<T>(s: seq<T>, key: T -> Key, x: T, p: nat)
    requires p <= |s| && Inserted(s, key, x) == s[..p] + [x] + s[p..]
    ensures |Inserted(s, key, x)| == |s| + 1 && Inserted(s, key, x)[p] == x
    ensures forall i :: 0 <= i < p ==> Inserted(s, key, x)[i] == s[i]
    ensures forall i :: p < i <= |s| ==> Inserted(s, key, x)[i] == s[i - 1]
  {
  }

  lemma InsertedSorted<T>(s: seq<T>, key: T -> Key, x: T)
    requires SortedBy(s, key)
    ensures SortedBy(Inserted(s, key, x), key)
  {
    var r := Inserted(s, key, x);
    var p := InsertedSplits(s, key, x);
    InsertedAt(s, key, x, p);
    forall i, j | 0 <= i < j < |r|
      ensures Lex(key(r[i]), key(r[j])) <= 0
    {
      if i == p {
        LexAntisymmetric(key(s[p]), key(x));
        if j - 1 > p {
          LexTransitive(key(x), key(s[p]), key(s[j - 1]));
        }
      }
    }
  }

  /** The insertion loop of add_hwmem(), add_tlb() and add_pagesize(): the array is
      reallocated one longer, the place found, the tail moved up and the element put in. */
  method InsertSorted<T>(olds: array<T>, key: T -> Key, x: T) returns (a: array<T>)
    ensures fresh(a) && a[..] == Inserted(olds[..], key, x)
  {
    var n := olds.Length;
    ghost var s := olds[..];
    a := new T[n + 1](i requires 0 <= i <= n reads olds => if i < n then olds[i] else x);
    assert a[..n] == s;
    var p := 0;
    while p < n && Lex(key(a[p]), key(x)) <= 0
      invariant 0 <= p <= n && a[..n] == s
      invariant forall i :: 0 <= i < p ==> Lex(key(s[i]), key(x)) <= 0
    {
      p := p + 1;
    }
    forall i | p < i <= n {
      a[i] := a[i - 1];
    }
    a[p] := x;
    var q := InsertedSplits(s, key, x);
    assert p == q;
    InsertedAt(s, key, x, p);
    assert a[p] == x;
    assert forall i :: 0 <= i < p ==> a[i] == s[i];
    assert forall i :: p < i <= n ==> a[i] == s[i - 1];
    assert a[..] == Inserted(s, key, x);
    assert olds[..] == s;
  }

  // ---- Memories and TLBs ---------------------------------------------------------------------------

  datatype MemType = Unknown | Code | Data | Unified

  function TypeRank(t: MemType): nat {
    match t case Unknown => 0 case Code => 1 case Data => 2 case Unified => 3
  }

  datatype Mem = Mem(totalsize: nat, linesize: nat, associativity: nat, sharedways: nat, memtype: MemType, level: nat)
  datatype Tlb = Tlb(entries: nat, pagesize: nat, associativity: nat, sharedways: nat, tlbtype: MemType, level: nat)

  function Cmp(a: nat, b: nat, rest: int): int {
    if a < b then -1 else if a > b then 1 else rest
  }

  /** compare_memdetails(): field by field; sharing does not count. */
  function CompareMem(a: Mem, b: Mem): int {
    Cmp(a.level, b.level,
        Cmp(TypeRank(a.memtype), TypeRank(b.memtype),
            Cmp(a.totalsize, b.totalsize, Cmp(a.linesize, b.linesize, Cmp(a.associativity, b.associativity, 0)))))
  }

  /** compare_tlbdetails() */
  function CompareTlb(a: Tlb, b: Tlb): int {
    Cmp(a.level, b.level,
        Cmp(TypeRank(a.tlbtype), TypeRank(b.tlbtype),
            Cmp(a.pagesize, b.pagesize, Cmp(a.entries, b.entries, Cmp(a.associativity, b.associativity, 0)))))
  }

  function MemKey(m: Mem): Key { [m.level, TypeRank(m.memtype), m.totalsize, m.linesize, m.associativity] }
  function TlbKey(t: Tlb): Key { [t.level, TypeRank(t.tlbtype), t.pagesize, t.entries, t.associativity] }

  lemma LexFive(a: Key, b: Key)
    requires |a| == |b| == 5
    ensures Lex(a, b) == Cmp(a[0], b[0], Cmp(a[1], b[1], Cmp(a[2], b[2], Cmp(a[3], b[3], Cmp(a[4], b[4], 0)))))
  {
    var a1, b1 := a[1..], b[1..];
    var a2, b2 := a1[1..], b1[1..];
    var a3, b3 := a2[1..], b2[1..];
    var a4, b4 := a3[1..], b3[1..];
    assert Lex(a4, b4) == Cmp(a[4], b[4], 0);
    assert Lex(a3, b3) == Cmp(a[3], b[3], Lex(a4, b4));
    assert Lex(a2, b2) == Cmp(a[2], b[2], Lex(a3, b3));
    assert Lex(a1, b1) == Cmp(a[1], b[1], Lex(a2, b2));
  }

  /** The chain of field comparisons is the lexicographic order of the compared fields, so
      it is a total preorder, with ties exactly between memories that differ in sharing
      alone. */
  lemma CompareMemIsLex(a: Mem, b: Mem)
    ensures CompareMem(a, b) == Lex(MemKey(a), MemKey(b))
    ensures CompareMem(a, b) == -CompareMem(b, a)
    ensures CompareMem(a, b) == 0 <==> a.(sharedways := 0) == b.(sharedways := 0)
  {
    LexFive(MemKey(a), MemKey(b));
    LexFive(MemKey(b), MemKey(a));
    LexAntisymmetric(MemKey(a), MemKey(b));
    assert MemKey(a) == MemKey(b) ==>
        MemKey(a)[0] == MemKey(b)[0] && MemKey(a)[1] == MemKey(b)[1] && MemKey(a)[2] == MemKey(b)[2]
        && MemKey(a)[3] == MemKey(b)[3] && MemKey(a)[4] == MemKey(b)[4];
  }

  lemma CompareTlbIsLex(a: Tlb, b: Tlb)
    ensures CompareTlb(a, b) == Lex(TlbKey(a), TlbKey(b))
    ensures CompareTlb(a, b) == -CompareTlb(b, a)
    ensures CompareTlb(a, b) == 0 <==> a.(sharedways := 0) == b.(sharedways := 0)
  {
    LexFive(TlbKey(a), TlbKey(b));
    LexFive(TlbKey(b), TlbKey(a));
    LexAntisymmetric(TlbKey(a), TlbKey(b));
    assert TlbKey(a) == TlbKey(b) ==>
        TlbKey(a)[0] == TlbKey(b)[0] && TlbKey(a)[1] == TlbKey(b)[1] && TlbKey(a)[2] == TlbKey(b)[2]
        && TlbKey(a)[3] == TlbKey(b)[3] && TlbKey(a)[4] == TlbKey(b)[4];
  }

  /** Memories come in the order of level, then kind, size, line size and associativity. */
  lemma MemOrder(a: Mem, b: Mem)
    ensures TypeRank(Unknown) < TypeRank(Code) < TypeRank(Data) < TypeRank(Unified)
    ensures CompareMem(a, b) < 0 <==>
            || a.level < b.level
            || (a.level == b.level &&
                (|| TypeRank(a.memtype) < TypeRank(b.memtype)
                 || (a.memtype == b.memtype &&
                     (|| a.totalsize < b.totalsize
                      || (a.totalsize == b.totalsize &&
                          (|| a.linesize < b.linesize
                           || (a.linesize == b.linesize && a.associativity < b.associativity)))))))
  {
  }

  /** TLBs in the order of level, then kind, page size, entries and associativity. */
  lemma TlbOrder(a: Tlb, b: Tlb)
    ensures CompareTlb(a, b) < 0 <==>
            || a.level < b.level
            || (a.level == b.level &&
                (|| TypeRank(a.tlbtype) < TypeRank(b.tlbtype)
                 || (a.tlbtype == b.tlbtype &&
                     (|| a.pagesize < b.pagesize
                      || (a.pagesize == b.pagesize &&
                          (|| a.entries < b.entries
                           || (a.entries == b.entries && a.associativity < b.associativity)))))))
  {
  }

  lemma {:induction false} CompareTransitive(a: Mem, b: Mem, c: Mem)
    requires CompareMem(a, b) <= 0 && CompareMem(b, c) <= 0
    ensures CompareMem(a, c) <= 0
  {
    CompareMemIsLex(a, b);
    CompareMemIsLex(b, c);
    CompareMemIsLex(a, c);
    LexTransitive(MemKey(a), MemKey(b), MemKey(c));
  }

  // ---- CPUID function 2 --------------------------------------------------------------------------------

  /** What a descriptor byte stands for. The vendor's tables are arbitrary. */
  datatype Tables = Tables(cache: nat -> Option<Mem>, tlb: nat -> Option<Tlb>, trace: nat -> bool)

  datatype Meaning = Cache(mem: Mem) | Translation(tlb: Tlb) | Nothing | Undocumented

  function MeaningOf(t: Tables, threadspercore: nat, descriptor: nat): Meaning {
    if t.cache(descriptor).Some? then Cache(t.cache(descriptor).value.(sharedways := threadspercore))
    else if t.tlb(descriptor).Some? then Translation(t.tlb(descriptor).value.(sharedways := threadspercore))
    else if t.trace(descriptor) then Nothing
    else if descriptor == 0xf0 || descriptor == 0xf1 || descriptor == 0x40 || descriptor == 0xff then Nothing
    else Undocumented
  }

  predicate Present(mems: seq<Mem>, m: Mem) {
    exists i :: 0 <= i < |mems| && CompareMem(mems[i], m) == 0
  }

  datatype Contents = Contents(mems: seq<Mem>, tlbs: seq<Tlb>)

  datatype Decoding = Decoding(contents: Contents, ok: bool)

  /** One descriptor. Whether a reallocation succeeds is decided from outside, as a function
      of how much there is already. */
  function DecodeOne(t: Tables, tpc: nat, alloc: nat -> bool, c: Contents, descriptor: nat): Decoding {
    if descriptor == 0 then Decoding(c, true)
    else
      match MeaningOf(t, tpc, descriptor)
      case Cache(m) =>
        if Present(c.mems, m) then Decoding(c, true)
        else if alloc(|c.mems| + |c.tlbs|) then Decoding(c.(mems := Inserted(c.mems, MemKey, m)), true)
        else Decoding(c, false)
      case Translation(tlb) =>
        if alloc(|c.mems| + |c.tlbs|) then Decoding(c.(tlbs := Inserted(c.tlbs, TlbKey, tlb)), true)
        else Decoding(c, false)
      case Nothing => Decoding(c, true)
      case Undocumented => Decoding(c, false)
  }

  /** Descriptors in order, up to the first that fails. */
  function DecodeAll(t: Tables, tpc: nat, alloc: nat -> bool, c: Contents, bytes: seq<nat>): Decoding
    decreases |bytes|
  {
    if bytes == [] then Decoding(c, true)
    else
      var d := DecodeOne(t, tpc, alloc, c, bytes[0]);
      if d.ok then DecodeAll(t, tpc, alloc, d.contents, bytes[1..]) else d
  }

  /** The descriptor bytes of register `z`, from the top: none if its top bit is set, and not
      the low byte of the first register, which is a repeat count. */
  function RegisterBytes(reg: nat, z: nat): seq<nat> {
    if reg >= 0x8000_0000 then []
    else [(reg / 0x100_0000) % 256, (reg / 0x1_0000) % 256, (reg / 0x100) % 256] + if z == 0 then [] else [reg % 256]
  }

  /** The descriptor bytes of registers `z` and up, given those of each register. */
  function BytesFrom(lists: seq<seq<nat>>, z: nat): seq<nat>
    requires z <= |lists|
    decreases |lists| - z
  {
    if z == |lists| then [] else lists[z] + BytesFrom(lists, z + 1)
  }

  function ByRegister(regs: seq<nat>): seq<seq<nat>> {
    seq(|regs|, z requires 0 <= z < |regs| => RegisterBytes(regs[z], z))
  }

  /** All descriptor bytes, in the order they are decoded. */
  function Descriptors(regs: seq<nat>): seq<nat> { BytesFrom(ByRegister(regs), 0) }

  // ---- What decoding guarantees ---------------------------------------------------------------------------

  predicate NoDuplicates(mems: seq<Mem>) {
    forall i, j :: 0 <= i < j < |mems| ==> CompareMem(mems[i], mems[j]) != 0
  }

  lemma PresentInserted(mems: seq<Mem>, x: Mem, m: Mem)
    ensures Present(Inserted(mems, MemKey, x), m) <==> Present(mems, m) || CompareMem(x, m) == 0
  {
    var r := Inserted(mems, MemKey, x);
    var p := InsertedSplits(mems, MemKey, x);
    InsertedAt(mems, MemKey, x, p);
    if i :| 0 <= i < |mems| && CompareMem(mems[i], m) == 0 {
      assert CompareMem(r[if i < p then i else i + 1], m) == 0;
    }
    if CompareMem(x, m) == 0 {
      assert CompareMem(r[p], m) == 0;
    }
    if i :| 0 <= i < |r| && CompareMem(r[i], m) == 0 {
      assert i != p ==> CompareMem(mems[if i < p then i else i - 1], m) == 0;
    }
  }

  lemma NoDuplicatesInserted(mems: seq<Mem>, x: Mem)
    requires NoDuplicates(mems) && !Present(mems, x)
    ensures NoDuplicates(Inserted(mems, MemKey, x))
  {
    var r := Inserted(mems, MemKey, x);
    var p := InsertedSplits(mems, MemKey, x);
    InsertedAt(mems, MemKey, x, p);
    forall i, j | 0 <= i < j < |r|
      ensures CompareMem(r[i], r[j]) != 0
    {
      CompareMemIsLex(r[i], r[j]);
      if i == p {
        assert CompareMem(mems[j - 1], x) != 0;
      } else if j == p {
        assert CompareMem(mems[i], x) != 0;
      }
    }
  }

  /** A memory equal to one already there is never added; both inventories stay sorted. */
  lemma DecodeOneKeeps(t: Tables, tpc: nat, alloc: nat -> bool, c: Contents, descriptor: nat)
    ensures var r := DecodeOne(t, tpc, alloc, c, descriptor).contents;
            && (NoDuplicates(c.mems) ==> NoDuplicates(r.mems))
            && (SortedBy(c.mems, MemKey) ==> SortedBy(r.mems, MemKey))
            && (SortedBy(c.tlbs, TlbKey) ==> SortedBy(r.tlbs, TlbKey))
  {
    if descriptor != 0 {
      match MeaningOf(t, tpc, descriptor) {
        case Cache(m) =>
          if !Present(c.mems, m) {
            if NoDuplicates(c.mems) { NoDuplicatesInserted(c.mems, m); }
            if SortedBy(c.mems, MemKey) { InsertedSorted(c.mems, MemKey, m); }
          }
        case Translation(tlb) =>
          if SortedBy(c.tlbs, TlbKey) { InsertedSorted(c.tlbs, TlbKey, tlb); }
        case _ =>
      }
    }
  }

  lemma {:induction false} DecodeKeeps(t: Tables, tpc: nat, alloc: nat -> bool, c: Contents, bytes: seq<nat>)
    ensures var r := DecodeAll(t, tpc, alloc, c, bytes).contents;
            && (NoDuplicates(c.mems) ==> NoDuplicates(r.mems))
            && (SortedBy(c.mems, MemKey) ==> SortedBy(r.mems, MemKey))
            && (SortedBy(c.tlbs, TlbKey) ==> SortedBy(r.tlbs, TlbKey))
    decreases |bytes|
  {
    if bytes != [] {
      DecodeOneKeeps(t, tpc, alloc, c, bytes[0]);
      var d := DecodeOne(t, tpc, alloc, c, bytes[0]);
      if d.ok {
        DecodeKeeps(t, tpc, alloc, d.contents, bytes[1..]);
      }
    }
  }

  /** Decoding a concatenation is decoding its parts in turn. */
  lemma {:induction false} DecodeSplits(t: Tables, tpc: nat, alloc: nat -> bool, c: Contents, xs: seq<nat>, ys: seq<nat>)
    ensures var d := DecodeAll(t, tpc, alloc, c, xs);
            DecodeAll(t, tpc, alloc, c, xs + ys) == if d.ok then DecodeAll(t, tpc, alloc, d.contents, ys) else d
    decreases |xs|
  {
    if xs == [] {
      assert xs + ys == ys;
    } else {
      assert (xs + ys)[0] == xs[0] && (xs + ys)[1..] == xs[1..] + ys;
      var d := DecodeOne(t, tpc, alloc, c, xs[0]);
      if d.ok {
        DecodeSplits(t, tpc, alloc, d.contents, xs[1..], ys);
      }
    }
  }

  /** Every cache the bytes describe is in the inventory. */
  predicate AllPresent(t: Tables, tpc: nat, mems: seq<Mem>, bytes: seq<nat>) {
    forall i :: 0 <= i < |bytes| && bytes[i] != 0 && MeaningOf(t, tpc, bytes[i]).Cache? ==>
      Present(mems, MeaningOf(t, tpc, bytes[i]).mem)
  }

  lemma {:induction false} PresentStays(t: Tables, tpc: nat, alloc: nat -> bool, c: Contents, bytes: seq<nat>, m: Mem)
    requires Present(c.mems, m)
    ensures Present(DecodeAll(t, tpc, alloc, c, bytes).contents.mems, m)
    decreases |bytes|
  {
    if bytes != [] {
      var d := DecodeOne(t, tpc, alloc, c, bytes[0]);
      if bytes[0] != 0 && MeaningOf(t, tpc, bytes[0]).Cache? {
        PresentInserted(c.mems, MeaningOf(t, tpc, bytes[0]).mem, m);
      }
      if d.ok {
        PresentStays(t, tpc, alloc, d.contents, bytes[1..], m);
      }
    }
  }

  lemma {:induction false} DecodeFindsAll(t: Tables, tpc: nat, alloc: nat -> bool, c: Contents, bytes: seq<nat>)
    requires DecodeAll(t, tpc, alloc, c, bytes).ok
    ensures AllPresent(t, tpc, DecodeAll(t, tpc, alloc, c, bytes).contents.mems, bytes)
    decreases |bytes|
  {
    if bytes != [] {
      var d := DecodeOne(t, tpc, alloc, c, bytes[0]);
      DecodeFindsAll(t, tpc, alloc, d.contents, bytes[1..]);
      if bytes[0] != 0 && MeaningOf(t, tpc, bytes[0]).Cache? {
        var m := MeaningOf(t, tpc, bytes[0]).mem;
        PresentInserted(c.mems, m, m);
        CompareMemIsLex(m, m);
        PresentStays(t, tpc, alloc, d.contents, bytes[1..], m);
      }
    }
  }

  lemma {:induction false} NothingNewToAdd(t: Tables, tpc: nat, alloc: nat -> bool, c: Contents, bytes: seq<nat>)
    requires AllPresent(t, tpc, c.mems, bytes)
    ensures DecodeAll(t, tpc, alloc, c, bytes).contents.mems == c.mems
    decreases |bytes|
  {
    if bytes != [] {
      assert bytes[0] != 0 && MeaningOf(t, tpc, bytes[0]).Cache? ==> Present(c.mems, MeaningOf(t, tpc, bytes[0]).mem);
      var d := DecodeOne(t, tpc, alloc, c, bytes[0]);
      if d.ok {
        NothingNewToAdd(t, tpc, alloc, d.contents, bytes[1..]);
      }
    }
  }

  /** Decoding the same registers again leaves the memories unchanged. */
  lemma DecodeTwice(t: Tables, tpc: nat, alloc: nat -> bool, again: nat -> bool, c: Contents, bytes: seq<nat>)
    requires DecodeAll(t, tpc, alloc, c, bytes).ok
    ensures var once := DecodeAll(t, tpc, alloc, c, bytes).contents;
            DecodeAll(t, tpc, again, once, bytes).contents.mems == once.mems
  {
    DecodeFindsAll(t, tpc, alloc, c, bytes);
    NothingNewToAdd(t, tpc, again, DecodeAll(t, tpc, alloc, c, bytes).contents, bytes);
  }

  // ---- The memories do not depend on the order of the descriptors -----------------------------------------

  /** The byte is in the table of caches, and this is its row, shared by the core's threads. */
  predicate IsCache(t: Tables, tpc: nat, b: nat, m: Mem) {
    && b != 0 && t.cache(b).Some?
    && m == Mem(t.cache(b).value.totalsize, t.cache(b).value.linesize, t.cache(b).value.associativity, tpc,
                t.cache(b).value.memtype, t.cache(b).value.level)
  }

  predicate Describes(t: Tables, tpc: nat, bytes: seq<nat>, m: Mem) {
    exists i :: 0 <= i < |bytes| && IsCache(t, tpc, bytes[i], m)
  }

  predicate SharedBy(mems: seq<Mem>, tpc: nat) {
    forall i :: 0 <= i < |mems| ==> mems[i].sharedways == tpc
  }

  lemma InsertedMembers<T>(s: seq<T>, key: T -> Key, x: T, y: T)
    ensures y in Inserted(s, key, x) <==> y in s || y == x
  {
    var p := InsertedSplits(s, key, x);
    assert s == s[..p] + s[p..];
  }

  lemma DecodeOneExactly(t: Tables, tpc: nat, alloc: nat -> bool, c: Contents, descriptor: nat, m: Mem)
    requires SharedBy(c.mems, tpc) && DecodeOne(t, tpc, alloc, c, descriptor).ok
    ensures var r := DecodeOne(t, tpc, alloc, c, descriptor).contents.mems;
            && SharedBy(r, tpc)
            && (m in r <==> m in c.mems || IsCache(t, tpc, descriptor, m))
  {
    if descriptor != 0 && MeaningOf(t, tpc, descriptor).Cache? {
      var x := MeaningOf(t, tpc, descriptor).mem;
      if i :| 0 <= i < |c.mems| && CompareMem(c.mems[i], x) == 0 {
        CompareMemIsLex(c.mems[i], x);
        assert c.mems[i] == x;
      } else {
        InsertedMembers(c.mems, MemKey, x, m);
        var p := InsertedSplits(c.mems, MemKey, x);
        InsertedAt(c.mems, MemKey, x, p);
      }
    }
  }

  /** The memories found are those there before and those described: no more, no fewer. */
  lemma {:induction false} DecodeExactly(t: Tables, tpc: nat, alloc: nat -> bool, c: Contents, bytes: seq<nat>, m: Mem)
    requires SharedBy(c.mems, tpc) && DecodeAll(t, tpc, alloc, c, bytes).ok
    ensures var r := DecodeAll(t, tpc, alloc, c, bytes).contents.mems;
            m in r <==> m in c.mems || Describes(t, tpc, bytes, m)
    decreases |bytes|
  {
    if bytes != [] {
      var d := DecodeOne(t, tpc, alloc, c, bytes[0]);
      DecodeOneExactly(t, tpc, alloc, c, bytes[0], m);
      DecodeExactly(t, tpc, alloc, d.contents, bytes[1..], m);
      assert Describes(t, tpc, bytes[1..], m) ==> Describes(t, tpc, bytes, m) by {
        if i :| 0 <= i < |bytes[1..]| && IsCache(t, tpc, bytes[1..][i], m) {
          assert bytes[i + 1] == bytes[1..][i];
        }
      }
      if i :| 0 <= i < |bytes| && IsCache(t, tpc, bytes[i], m) {
        assert i > 0 ==> bytes[1..][i - 1] == bytes[i];
      }
    }
  }

  lemma TailMembers(a: seq<Mem>, m: Mem)
    requires a != [] && NoDuplicates(a)
    ensures m in a[1..] <==> m in a && m != a[0]
  {
    if m in a[1..] {
      var i :| 0 <= i < |a[1..]| && a[1..][i] == m;
      assert CompareMem(a[0], a[i + 1]) != 0;
      CompareMemIsLex(m, m);
    }
    assert a == [a[0]] + a[1..];
  }

  lemma SameLeast(a: seq<Mem>, b: seq<Mem>)
    requires a != [] && b != [] && a[0] in b && b[0] in a
    requires SortedBy(a, MemKey) && SortedBy(b, MemKey) && NoDuplicates(b)
    ensures a[0] == b[0]
  {
    var j :| 0 <= j < |b| && b[j] == a[0];
    var k :| 0 <= k < |a| && a[k] == b[0];
    LexAntisymmetric(MemKey(a[0]), MemKey(b[0]));
    CompareMemIsLex(b[0], b[j]);
    assert k > 0 ==> Lex(MemKey(a[0]), MemKey(a[k])) <= 0;
  }

  /** A sorted list without duplicates is determined by its members. */
  lemma {:induction false} SortedUnique(a: seq<Mem>, b: seq<Mem>)
    requires SortedBy(a, MemKey) && NoDuplicates(a) && SortedBy(b, MemKey) && NoDuplicates(b)
    requires forall m :: m in a <==> m in b
    ensures a == b
  {
    assert a != [] ==> a[0] in b;
    assert b != [] ==> b[0] in a;
    if a != [] {
      SameLeast(a, b);
      forall m
        ensures m in a[1..] <==> m in b[1..]
      {
        TailMembers(a, m);
        TailMembers(b, m);
      }
      SortedUnique(a[1..], b[1..]);
    }
  }

  /** The same set of descriptors, in any order and repeated at will, gives the same list of
      memories. */
  lemma DescriptorOrderIrrelevant(t: Tables, tpc: nat, alloc: nat -> bool, alloc': nat -> bool, tlbs: seq<Tlb>, bytes: seq<nat>, bytes': seq<nat>)
    requires forall b :: b in bytes <==> b in bytes'
    requires DecodeAll(t, tpc, alloc, Contents([], tlbs), bytes).ok && DecodeAll(t, tpc, alloc', Contents([], tlbs), bytes').ok
    ensures DecodeAll(t, tpc, alloc, Contents([], tlbs), bytes).contents.mems ==
            DecodeAll(t, tpc, alloc', Contents([], tlbs), bytes').contents.mems
  {
    var c := Contents([], tlbs);
    var r, r' := DecodeAll(t, tpc, alloc, c, bytes).contents.mems, DecodeAll(t, tpc, alloc', c, bytes').contents.mems;
    DecodeKeeps(t, tpc, alloc, c, bytes);
    DecodeKeeps(t, tpc, alloc', c, bytes');
    forall m
      ensures m in r <==> m in r'
    {
      DecodeExactly(t, tpc, alloc, c, bytes, m);
      DecodeExactly(t, tpc, alloc', c, bytes', m);
      if Describes(t, tpc, bytes, m) {
        DescribesSame(t, tpc, bytes, bytes', m);
      }
      if Describes(t, tpc, bytes', m) {
        DescribesSame(t, tpc, bytes', bytes, m);
      }
    }
    SortedUnique(r, r');
  }

  lemma DescribesSame(t: Tables, tpc: nat, bytes: seq<nat>, bytes': seq<nat>, m: Mem)
    requires Describes(t, tpc, bytes, m) && forall b :: b in bytes ==> b in bytes'
    ensures Describes(t, tpc, bytes', m)
  {
    var i :| 0 <= i < |bytes| && IsCache(t, tpc, bytes[i], m);
    assert bytes[i] in bytes';
  }

  // ---- TLBs and ignored bits ----------------------------------------------------------------------------------

  /** A byte that is in the table of TLBs and in no table before it. */
  predicate IsTlb(t: Tables, b: nat) { b != 0 && t.cache(b).None? && t.tlb(b).Some? }

  function TlbRow(t: Tables, tpc: nat, b: nat): Tlb
    requires IsTlb(t, b)
  {
    var row := t.tlb(b).value;
    Tlb(row.entries, row.pagesize, row.associativity, tpc, row.tlbtype, row.level)
  }

  /** The TLBs these bytes stand for, in order. */
  function DescribedTlbs(t: Tables, tpc: nat, bytes: seq<nat>): seq<Tlb> {
    if bytes == [] then []
    else
      var rest := DescribedTlbs(t, tpc, bytes[1..]);
      if IsTlb(t, bytes[0]) then [TlbRow(t, tpc, bytes[0])] + rest else rest
  }

  /** The TLBs found are those there before and those described, each as often as it was
      there or is described. */
  lemma {:induction false} TlbsExactly(t: Tables, tpc: nat, alloc: nat -> bool, c: Contents, bytes: seq<nat>)
    requires DecodeAll(t, tpc, alloc, c, bytes).ok
    ensures multiset(DecodeAll(t, tpc, alloc, c, bytes).contents.tlbs) ==
            multiset(c.tlbs) + multiset(DescribedTlbs(t, tpc, bytes))
    decreases |bytes|
  {
    if bytes != [] {
      var d := DecodeOne(t, tpc, alloc, c, bytes[0]);
      if IsTlb(t, bytes[0]) {
        var x := TlbRow(t, tpc, bytes[0]);
        InsertedPermutes(c.tlbs, TlbKey, x);
        assert multiset([x] + DescribedTlbs(t, tpc, bytes[1..])) == multiset{x} + multiset(DescribedTlbs(t, tpc, bytes[1..]));
      }
      TlbsExactly(t, tpc, alloc, d.contents, bytes[1..]);
    }
  }

  predicate NoDuplicateTlbs(tlbs: seq<Tlb>) {
    forall i, j :: 0 <= i < j < |tlbs| ==> CompareTlb(tlbs[i], tlbs[j]) != 0
  }

  /** No TLB of the one list equals one of the other. */
  predicate Apart(a: seq<Tlb>, b: seq<Tlb>) {
    forall i, j :: 0 <= i < |a| && 0 <= j < |b| ==> CompareTlb(a[i], b[j]) != 0
  }

  lemma NoDuplicateTlbsInserted(s: seq<Tlb>, x: Tlb)
    ensures NoDuplicateTlbs(Inserted(s, TlbKey, x)) <==> NoDuplicateTlbs(s) && Apart(s, [x])
  {
    if NoDuplicateTlbs(Inserted(s, TlbKey, x)) {
      WereDifferent(s, x);
    }
    if NoDuplicateTlbs(s) && Apart(s, [x]) {
      StayDifferent(s, x);
    }
  }

  lemma WereDifferent(s: seq<Tlb>, x: Tlb)
    requires NoDuplicateTlbs(Inserted(s, TlbKey, x))
    ensures NoDuplicateTlbs(s) && Apart(s, [x])
  {
    var r := Inserted(s, TlbKey, x);
    var p := InsertedSplits(s, TlbKey, x);
    InsertedAt(s, TlbKey, x, p);
    forall i | 0 <= i < |s|
      ensures CompareTlb(s[i], x) != 0
    {
      CompareTlbIsLex(s[i], x);
      assert if i < p then r[i] == s[i] && r[p] == x else r[i + 1] == s[i] && r[p] == x;
    }
    forall i, j | 0 <= i < j < |s|
      ensures CompareTlb(s[i], s[j]) != 0
    {
      assert r[if i < p then i else i + 1] == s[i] && r[if j < p then j else j + 1] == s[j];
    }
  }

  lemma StayDifferent(s: seq<Tlb>, x: Tlb)
    requires NoDuplicateTlbs(s) && Apart(s, [x])
    ensures NoDuplicateTlbs(Inserted(s, TlbKey, x))
  {
    var r := Inserted(s, TlbKey, x);
    var p := InsertedSplits(s, TlbKey, x);
    InsertedAt(s, TlbKey, x, p);
    assert forall k :: 0 <= k < |s| ==> CompareTlb(s[k], [x][0]) != 0;
    forall i, j | 0 <= i < j < |r|
      ensures CompareTlb(r[i], r[j]) != 0
    {
      CompareTlbIsLex(r[i], r[j]);
    }
  }

  lemma ApartInserted(s: seq<Tlb>, x: Tlb, b: seq<Tlb>)
    ensures Apart(Inserted(s, TlbKey, x), b) <==> Apart(s, b) && Apart([x], b)
  {
    var r := Inserted(s, TlbKey, x);
    var p := InsertedSplits(s, TlbKey, x);
    InsertedAt(s, TlbKey, x, p);
    if Apart(r, b) {
      forall i, j | 0 <= i < |s| && 0 <= j < |b|
        ensures CompareTlb(s[i], b[j]) != 0
      {
        assert r[if i < p then i else i + 1] == s[i];
      }
      assert r[p] == x;
    }
    if Apart(s, b) && Apart([x], b) {
      forall i, j | 0 <= i < |r| && 0 <= j < |b|
        ensures CompareTlb(r[i], b[j]) != 0
      {
        assert CompareTlb([x][0], b[j]) != 0;
      }
    }
  }

  lemma ApartConcat(s: seq<Tlb>, x: Tlb, b: seq<Tlb>)
    ensures Apart(s, [x] + b) <==> Apart(s, [x]) && Apart(s, b)
    ensures NoDuplicateTlbs([x] + b) <==> NoDuplicateTlbs(b) && Apart([x], b)
  {
    var r := [x] + b;
    assert r[0] == x && forall j :: 0 <= j < |b| ==> r[j + 1] == b[j];
    assert forall j :: 0 < j < |r| ==> r[j] == b[j - 1];
    assert [x][0] == x;
  }

  /** Equal TLBs end up listed twice, unlike memories: a successful decoding leaves all TLBs
      different if and only if those there were, those described are, and none of the ones
      equals one of the others. */
  lemma {:induction false} TlbsDifferIff(t: Tables, tpc: nat, alloc: nat -> bool, c: Contents, bytes: seq<nat>)
    requires DecodeAll(t, tpc, alloc, c, bytes).ok
    ensures NoDuplicateTlbs(DecodeAll(t, tpc, alloc, c, bytes).contents.tlbs) <==>
            var described := DescribedTlbs(t, tpc, bytes);
            NoDuplicateTlbs(c.tlbs) && NoDuplicateTlbs(described) && Apart(c.tlbs, described)
    decreases |bytes|
  {
    if bytes != [] {
      var d := DecodeOne(t, tpc, alloc, c, bytes[0]);
      var rest := DescribedTlbs(t, tpc, bytes[1..]);
      TlbsDifferIff(t, tpc, alloc, d.contents, bytes[1..]);
      if IsTlb(t, bytes[0]) {
        var x := TlbRow(t, tpc, bytes[0]);
        NoDuplicateTlbsInserted(c.tlbs, x);
        ApartInserted(c.tlbs, x, rest);
        ApartConcat(c.tlbs, x, rest);
      }
    }
  }

  lemma OneTlb(t: Tables, tpc: nat, alloc: nat -> bool, c: Contents, b: nat)
    requires IsTlb(t, b) && forall n :: alloc(n)
    ensures DecodeAll(t, tpc, alloc, c, [b]).ok && DecodeOne(t, tpc, alloc, c, b).ok
    ensures DescribedTlbs(t, tpc, [b]) == [TlbRow(t, tpc, b)]
  {
    assert [b][1..] == [];
  }

  /** Any byte that stands for a TLB, given twice, is listed twice. */
  lemma SameTlbTwice(t: Tables, tpc: nat, alloc: nat -> bool, c: Contents, b: nat)
    requires IsTlb(t, b) && forall n :: alloc(n)
    ensures var d := DecodeAll(t, tpc, alloc, c, [b, b]); d.ok && !NoDuplicateTlbs(d.contents.tlbs)
  {
    var x := TlbRow(t, tpc, b);
    assert [b, b][1..] == [b];
    OneTlb(t, tpc, alloc, c, b);
    OneTlb(t, tpc, alloc, DecodeOne(t, tpc, alloc, c, b).contents, b);
    TlbsDifferIff(t, tpc, alloc, c, [b, b]);
    var described := DescribedTlbs(t, tpc, [b, b]);
    assert described == [x, x];
    CompareTlbIsLex(x, x);
    assert CompareTlb(described[0], described[1]) == 0;
  }

  lemma LowByteIgnored(reg: nat, reg': nat)
    requires reg / 256 == reg' / 256
    ensures RegisterBytes(reg, 0) == RegisterBytes(reg', 0)
  {
    assert reg / 0x1_0000 == (reg / 256) / 256 && reg' / 0x1_0000 == (reg' / 256) / 256;
    assert reg / 0x100_0000 == (reg / 256) / 0x1_0000 && reg' / 0x100_0000 == (reg' / 256) / 0x1_0000;
  }

  /** The repeat count in AL, and everything in a register marked invalid, have no say. */
  lemma IgnoredBits(regs: seq<nat>, z: nat, reg: nat)
    requires z < |regs|
    requires (z == 0 && reg / 256 == regs[0] / 256) || (reg >= 0x8000_0000 && regs[z] >= 0x8000_0000)
    ensures Descriptors(regs[z := reg]) == Descriptors(regs)
  {
    if z == 0 && reg / 256 == regs[0] / 256 {
      LowByteIgnored(reg, regs[0]);
    }
    assert RegisterBytes(reg, z) == RegisterBytes(regs[z], z);
    assert ByRegister(regs[z := reg]) == ByRegister(regs);
  }

  // ---- Which bytes are decoded ---------------------------------------------------------------------------------

  /** A register, byte by byte. */
  datatype Quad = Quad(b3: nat, b2: nat, b1: nat, b0: nat)

  predicate Bytes(q: Quad) { q.b3 < 256 && q.b2 < 256 && q.b1 < 256 && q.b0 < 256 }

  function Word(q: Quad): nat { q.b3 * 0x100_0000 + q.b2 * 0x1_0000 + q.b1 * 0x100 + q.b0 }

  /** Every 32-bit register is such a word. */
  lemma RegisterIsWord(reg: nat) returns (q: Quad)
    requires reg < 0x1_0000_0000
    ensures Bytes(q) && Word(q) == reg
  {
    q := Quad(reg / 0x100_0000, (reg / 0x1_0000) % 256, (reg / 0x100) % 256, reg % 256);
    assert reg / 0x100 == (reg / 0x1_0000) * 256 + (reg / 0x100) % 256;
    assert reg / 0x1_0000 == (reg / 0x100_0000) * 256 + (reg / 0x1_0000) % 256;
  }

  /** The bytes of a valid register from the top, all four except in the first. */
  lemma RegisterBytesAre(q: Quad, z: nat)
    requires Bytes(q)
    ensures RegisterBytes(Word(q), z) ==
            if q.b3 >= 128 then [] else if z == 0 then [q.b3, q.b2, q.b1] else [q.b3, q.b2, q.b1, q.b0]
  {
    WordParts(q);
  }

  lemma WordParts(q: Quad)
    requires Bytes(q)
    ensures var w := Word(q);
            && (w / 0x100_0000) % 256 == q.b3 && (w / 0x1_0000) % 256 == q.b2 && (w / 0x100) % 256 == q.b1 && w % 256 == q.b0
            && (w >= 0x8000_0000 <==> q.b3 >= 128)
  {
    var w := Word(q);
    var high := q.b3 * 256 + q.b2;
    var upper := high * 256 + q.b1;
    assert w == upper * 256 + q.b0;
    PushByte(upper, q.b0);
    PushByte(high, q.b1);
    PushByte(q.b3, q.b2);
    ShiftTwice(w);
  }

  lemma PushByte(x: nat, b: nat)
    requires b < 256
    ensures (x * 256 + b) / 256 == x && (x * 256 + b) % 256 == b
  {
  }

  lemma ShiftTwice(w: nat)
    ensures w / 0x1_0000 == (w / 0x100) / 0x100 && w / 0x100_0000 == ((w / 0x100) / 0x100) / 0x100
  {
  }

  /** What is to be decoded of registers `z` and up: of every valid one all its bytes, from the
      top, except the lowest of the first register. */
  function Listed(quads: seq<Quad>, z: nat): seq<nat>
    requires z <= |quads|
    decreases |quads| - z
  {
    if z == |quads| then []
    else
      var q := quads[z];
      (if q.b3 >= 128 then [] else if z == 0 then [q.b3, q.b2, q.b1] else [q.b3, q.b2, q.b1, q.b0]) + Listed(quads, z + 1)
  }

  lemma {:induction false} DescriptorsFrom(quads: seq<Quad>, regs: seq<nat>, z: nat)
    requires |regs| == |quads| && z <= |quads|
    requires forall k :: 0 <= k < |quads| ==> Bytes(quads[k]) && regs[k] == Word(quads[k])
    ensures BytesFrom(ByRegister(regs), z) == Listed(quads, z)
    decreases |quads| - z
  {
    if z < |quads| {
      RegisterBytesAre(quads[z], z);
      DescriptorsFrom(quads, regs, z + 1);
    }
  }

  /** Exactly those bytes, in exactly that order, for any registers. */
  lemma DescriptorsAre(quads: seq<Quad>, regs: seq<nat>)
    requires |regs| == |quads|
    requires forall k :: 0 <= k < |quads| ==> Bytes(quads[k]) && regs[k] == Word(quads[k])
    ensures Descriptors(regs) == Listed(quads, 0)
  {
    DescriptorsFrom(quads, regs, 0);
  }

  // ---- When decoding succeeds ------------------------------------------------------------------------------------

  /** Zero, in one of the three tables, or one of the four bytes that need no row. */
  predicate Documented(t: Tables, b: nat) {
    b == 0 || t.cache(b).Some? || t.tlb(b).Some? || t.trace(b) || b in {0x40, 0xf0, 0xf1, 0xff}
  }

  predicate AllDocumented(t: Tables, bytes: seq<nat>) {
    forall i :: 0 <= i < |bytes| ==> Documented(t, bytes[i])
  }

  function Held(c: Contents): nat { |c.mems| + |c.tlbs| }

  /** Every reallocation succeeds. */
  const ENOUGH: nat -> bool := (_: nat) => true

  lemma DecodeOneOkIff(t: Tables, tpc: nat, alloc: nat -> bool, c: Contents, b: nat)
    ensures var full := DecodeOne(t, tpc, ENOUGH, c, b);
            && full.ok == Documented(t, b) && Held(c) <= Held(full.contents) <= Held(c) + 1
            && var d := DecodeOne(t, tpc, alloc, c, b);
            && (d.ok <==> Documented(t, b) && (Held(full.contents) > Held(c) ==> alloc(Held(c))))
            && (d.ok ==> d.contents == full.contents)
            && (!d.ok ==> d.contents == c)
  {
    if b != 0 {
      match MeaningOf(t, tpc, b) {
        case Cache(m) =>
          var p := InsertedSplits(c.mems, MemKey, m);
        case Translation(x) =>
          var p := InsertedSplits(c.tlbs, TlbKey, x);
        case _ =>
      }
    }
  }

  lemma {:induction false} HeldGrows(t: Tables, tpc: nat, c: Contents, bytes: seq<nat>)
    ensures Held(c) <= Held(DecodeAll(t, tpc, ENOUGH, c, bytes).contents)
    decreases |bytes|
  {
    if bytes != [] {
      DecodeOneOkIff(t, tpc, ENOUGH, c, bytes[0]);
      var d := DecodeOne(t, tpc, ENOUGH, c, bytes[0]);
      if d.ok {
        HeldGrows(t, tpc, d.contents, bytes[1..]);
      }
    }
  }

  /** Decoding succeeds if and only if every byte is documented and every reallocation that the
      full inventory takes succeeds. */
  lemma {:induction false} DecodeOkIff(t: Tables, tpc: nat, alloc: nat -> bool, c: Contents, bytes: seq<nat>)
    ensures DecodeAll(t, tpc, alloc, c, bytes).ok <==>
            && AllDocumented(t, bytes)
            && forall n :: Held(c) <= n < Held(DecodeAll(t, tpc, ENOUGH, c, bytes).contents) ==> alloc(n)
    decreases |bytes|
  {
    if bytes != [] {
      DecodeOneOkIff(t, tpc, alloc, c, bytes[0]);
      var full := DecodeOne(t, tpc, ENOUGH, c, bytes[0]);
      assert AllDocumented(t, bytes) <==> Documented(t, bytes[0]) && AllDocumented(t, bytes[1..]) by {
        if AllDocumented(t, bytes) {
          assert forall i :: 0 <= i < |bytes[1..]| ==> bytes[1..][i] == bytes[i + 1];
        }
        assert forall i :: 0 < i < |bytes| ==> bytes[i] == bytes[1..][i - 1];
      }
      if full.ok {
        DecodeOkIff(t, tpc, alloc, full.contents, bytes[1..]);
        HeldGrows(t, tpc, full.contents, bytes[1..]);
      }
    }
  }

  // ---- The code, in place -----------------------------------------------------------------------------------

  /** match_memtype() */
  method MatchMemType(types: array<Mem>, m: Mem) returns (found: bool)
    ensures found <==> Present(types[..], m)
  {
    var n := 0;
    while n < types.Length
      invariant 0 <= n <= types.Length && forall i :: 0 <= i < n ==> CompareMem(types[i], m) != 0
    {
      if CompareMem(types[n], m) == 0 {
        assert types[..][n] == types[n];
        return true;
      }
      n := n + 1;
    }
    return false;
  }

  class CpuInventory {
    var memdescs: array<Mem>
    var tlbdescs: array<Tlb>
    const threadspercore: nat
    const tables: Tables

    ghost function Holds(): Contents
      reads this, memdescs, tlbdescs
    {
      Contents(memdescs[..], tlbdescs[..])
    }

    constructor (threadspercore: nat, tables: Tables)
      ensures Holds() == Contents([], []) && this.threadspercore == threadspercore && this.tables == tables
    {
      this.threadspercore := threadspercore;
      this.tables := tables;
      memdescs := new Mem[0];
      tlbdescs := new Tlb[0];
    }

    /** The part of decode_intel_func2() for one descriptor. */
    method DecodeDescriptor(descriptor: nat, alloc: nat -> bool) returns (ok: bool)
      modifies this
      ensures var d := DecodeOne(tables, threadspercore, alloc, old(Holds()), descriptor);
              Holds() == d.contents && ok == d.ok
    {
      if descriptor == 0 {
        return true;
      }
      match MeaningOf(tables, threadspercore, descriptor) {
        case Cache(m) =>
          var found := MatchMemType(memdescs, m);
          if !found {
            if !alloc(memdescs.Length + tlbdescs.Length) {
              return false;
            }
            memdescs := InsertSorted(memdescs, MemKey, m);
          }
          return true;
        case Translation(tlb) =>
          if !alloc(memdescs.Length + tlbdescs.Length) {
            return false;
          }
          tlbdescs := InsertSorted(tlbdescs, TlbKey, tlb);
          return true;
        case Nothing =>
          return true;
        case Undocumented =>
          return false;
      }
    }

    /** The inner loop: the bytes of one register from the top down, by a mask that moves
        right until it has gone through them. */
    method DecodeRegister(reg: nat, z: nat, alloc: nat -> bool) returns (ok: bool)
      modifies this
      ensures var d := DecodeAll(tables, threadspercore, alloc, old(Holds()), RegisterBytes(reg, z));
              Holds() == d.contents && ok == d.ok
    {
      if reg >= 0x8000_0000 {
        return true;
      }
      ghost var bytes := RegisterBytes(reg, z);
      ghost var start := Holds();
      var y, shift := 0, 0x100_0000;
      while y < 4
        invariant 0 <= y <= 4 && (z == 0 ==> y < 3)
        invariant y < 4 ==> shift == (match y case 0 => 0x100_0000 case 1 => 0x1_0000 case 2 => 0x100 case _ => 1)
        invariant DecodeAll(tables, threadspercore, alloc, start, bytes) ==
                  DecodeAll(tables, threadspercore, alloc, Holds(), bytes[y..])
      {
        var descriptor := (reg / shift) % 256;
        assert descriptor == bytes[y] && bytes[y..][1..] == bytes[y + 1..];
        ok := DecodeDescriptor(descriptor, alloc);
        if !ok {
          return false;
        }
        y, shift := y + 1, shift / 256;
        if shift == 1 && z == 0 {
          break;
        }
      }
      return true;
    }

    /** decode_intel_func2() */
    method DecodeFunc2(regs: array<nat>, alloc: nat -> bool) returns (ok: bool)
      modifies this
      ensures var d := DecodeAll(tables, threadspercore, alloc, old(Holds()), Descriptors(regs[..]));
              Holds() == d.contents && ok == d.ok
    {
      ghost var lists := ByRegister(regs[..]);
      ghost var start := Holds();
      var z := 0;
      while z < regs.Length
        invariant 0 <= z <= regs.Length
        invariant DecodeAll(tables, threadspercore, alloc, start, Descriptors(regs[..])) ==
                  DecodeAll(tables, threadspercore, alloc, Holds(), BytesFrom(lists, z))
      {
        DecodeSplits(tables, threadspercore, alloc, Holds(), lists[z], BytesFrom(lists, z + 1));
        ok := DecodeRegister(regs[z], z, alloc);
        if !ok {
          return false;
        }
        z := z + 1;
      }
      return true;
    }
  }
}
