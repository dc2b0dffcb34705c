/**
 * The scan of benchmark/hzdptr.c: an open-addressing table of the hazard
 * pointers of the other handles, and the retire list that is compacted in place
 * against it.  The hash is an arbitrary function of the pointer.
 */
module HazardScan {
  import opened Arithmetic
  import opened Sequences

  /** Address 0 is NULL. */
  type Addr = nat

  type Hash = Addr -> nat

  // ----- the table -------------------------------------------------------

  function Home(h: Hash, size: nat, p: Addr): nat
    requires size > 0
  {
    h(p) % size
  }

  /** Probing from x, position i comes before position j. */
  predicate ProbedBefore(x: nat, i: nat, j: nat) {
    if j >= x then x <= i < j else i >= x || i < j
  }

  /** Every pointer stands where a probe from its home finds it. */
  ghost predicate TableInv(h: Hash, t: seq<Addr>) {
    |t| > 0
    && forall i, j :: 0 <= i < |t| && 0 <= j < |t| && t[j] != 0 && ProbedBefore(Home(h, |t|, t[j]), i, j) ==> t[i] != 0
  }

  /** The pointers in a table, or in any run of words. */
  function Pointers(t: seq<Addr>): set<Addr> { set p | p in t && p != 0 }

  function Used(t: seq<Addr>): nat {
    if t == [] then 0 else Used(t[..|t| - 1]) + if t[|t| - 1] != 0 then 1 else 0
  }

  lemma {:induction false} UsedBound(t: seq<Addr>)
    ensures Used(t) <= |t| && ((forall i :: 0 <= i < |t| ==> t[i] != 0) ==> Used(t) == |t|)
  {
    if t != [] { UsedBound(t[..|t| - 1]); }
  }

  lemma {:induction false} UsedOfZeros(t: seq<Addr>)
    requires forall i :: 0 <= i < |t| ==> t[i] == 0
    ensures Used(t) == 0
  {
    if t != [] { UsedOfZeros(t[..|t| - 1]); }
  }

  lemma {:induction false} UsedAfter(t: seq<Addr>, j: nat, p: Addr)
    requires j < |t| && t[j] == 0 && p != 0
    ensures Used(t[j := p]) == Used(t) + 1
  {
    var n := |t| - 1;
    if j < n {
      UsedAfter(t[..n], j, p);
      assert t[j := p][..n] == t[..n][j := p];
    } else {
      assert t[j := p][..n] == t[..n];
    }
  }

  /** p fills the first free place of its probe. */
  lemma FillsPlace(h: Hash, t: seq<Addr>, j: nat, p: Addr)
    requires TableInv(h, t) && j < |t| && t[j] == 0 && p != 0
    requires forall i :: 0 <= i < |t| && ProbedBefore(Home(h, |t|, p), i, j) ==> t[i] != 0
    ensures TableInv(h, t[j := p]) && Pointers(t[j := p]) == Pointers(t) + {p} && Used(t[j := p]) == Used(t) + 1
  {
    UsedAfter(t, j, p);
    var t' := t[j := p];
    forall q | q in Pointers(t) ensures q in Pointers(t') {
      var i :| 0 <= i < |t| && t[i] == q;
      assert t'[i] == q;
    }
    assert t'[j] == p;
  }

  /** htable_insert: fails only when the table is full. */
  method Insert(h: Hash, tbl: array<Addr>, p: Addr) returns (ok: bool)
    requires TableInv(h, tbl[..]) && p != 0
    modifies tbl
    ensures TableInv(h, tbl[..])
    ensures ok ==> Pointers(tbl[..]) == old(Pointers(tbl[..])) + {p} && Used(tbl[..]) == old(Used(tbl[..])) + 1
    ensures !ok ==> tbl[..] == old(tbl[..]) && Used(tbl[..]) == tbl.Length
  {
    var index := h(p) % tbl.Length;
    var i := index;
    while i < tbl.Length
      invariant index <= i <= tbl.Length && tbl[..] == old(tbl[..])
      invariant forall j :: index <= j < i ==> tbl[j] != 0
    {
      if tbl[i] == 0 {
        FillsPlace(h, tbl[..], i, p);
        tbl[i] := p;
        return true;
      }
      i := i + 1;
    }
    i := 0;
    while i < index
      invariant i <= index && tbl[..] == old(tbl[..])
      invariant forall j :: index <= j < tbl.Length || 0 <= j < i ==> tbl[j] != 0
    {
      if tbl[i] == 0 {
        FillsPlace(h, tbl[..], i, p);
        tbl[i] := p;
        return true;
      }
      i := i + 1;
    }
    UsedBound(tbl[..]);
    return false;
  }

  /** htable_lookup: true exactly for the pointers that were inserted. */
  method Lookup(h: Hash, tbl: array<Addr>, p: Addr) returns (found: bool)
    requires TableInv(h, tbl[..]) && p != 0
    ensures found <==> p in Pointers(tbl[..])
  {
    var index := h(p) % tbl.Length;
    var i := index;
    while i < tbl.Length
      invariant index <= i <= tbl.Length
      invariant forall j :: index <= j < i ==> tbl[j] != 0 && tbl[j] != p
    {
      if tbl[i] == p {
        assert tbl[..][i] == p;
        return true;
      } else if tbl[i] == 0 {
        NotBehindGap(h, tbl[..], i, p);
        return false;
      }
      i := i + 1;
    }
    i := 0;
    while i < index
      invariant i <= index
      invariant forall j :: index <= j < tbl.Length || 0 <= j < i ==> tbl[j] != 0 && tbl[j] != p
    {
      if tbl[i] == p {
        assert tbl[..][i] == p;
        return true;
      } else if tbl[i] == 0 {
        NotBehindGap(h, tbl[..], i, p);
        return false;
      }
      i := i + 1;
    }
    return false;
  }

  /** A probe that meets a gap has seen every place where p could be. */
  lemma NotBehindGap(h: Hash, t: seq<Addr>, i: nat, p: Addr)
    requires TableInv(h, t) && i < |t| && t[i] == 0 && p != 0
    requires forall j :: 0 <= j < |t| && ProbedBefore(Home(h, |t|, p), j, i) ==> t[j] != p
    ensures p !in Pointers(t)
  {
  }

  // ----- the scan --------------------------------------------------------

  /** The other handles' slots, nptrs of each. */
  ghost predicate Handles(others: seq<seq<Addr>>, nprocs: nat, nptrs: nat) {
    nptrs > 0 && |others| < nprocs && forall k :: 0 <= k < |others| ==> |others[k]| == nptrs
  }

  lemma {:induction false} FlattenLength(others: seq<seq<Addr>>, nptrs: nat)
    requires forall k :: 0 <= k < |others| ==> |others[k]| == nptrs
    ensures |Flatten(others)| == |others| * nptrs
  {
    if others != [] {
      var n := |others| - 1;
      FlattenLength(others[..n], nptrs);
      assert (n + 1) * nptrs == n * nptrs + nptrs;
    }
  }

  lemma UsedAppend(a: seq<Addr>, p: Addr)
    ensures Used(a + [p]) == Used(a) + (if p != 0 then 1 else 0)
    ensures Pointers(a + [p]) == Pointers(a) + (if p != 0 then {p} else {})
  {
  }

  /** The table holds the pointers of the words read so far. */
  ghost predicate Holds(h: Hash, t: seq<Addr>, words: seq<Addr>) {
    TableInv(h, t) && Pointers(t) == Pointers(words) && Used(t) == Used(words)
  }

  method InsertSlot(h: Hash, tbl: array<Addr>, ghost before: seq<Addr>, ptr: Addr)
    requires Holds(h, tbl[..], before) && |before| < tbl.Length
    modifies tbl
    ensures Holds(h, tbl[..], before + [ptr])
  {
    UsedAppend(before, ptr);
    UsedBound(before);
    if ptr != 0 {
      var ok := Insert(h, tbl, ptr);
      assert ok;
    }
  }

  /** The slots of one handle go into the table. */
  method InsertSlots(h: Hash, tbl: array<Addr>, ghost before: seq<Addr>, slots: seq<Addr>)
    requires Holds(h, tbl[..], before) && |before| + |slots| < tbl.Length
    modifies tbl
    ensures Holds(h, tbl[..], before + slots)
  {
    assert before + slots[..0] == before;
    for i := 0 to |slots|
      invariant Holds(h, tbl[..], before + slots[..i])
    {
      assert before + slots[..i + 1] == before + slots[..i] + [slots[i]];
      InsertSlot(h, tbl, before + slots[..i], slots[i]);
    }
    assert slots[..|slots|] == slots;
  }

  lemma TableIsLargeEnough(used: nat, nprocs: nat, nptrs: nat)
    requires used < nprocs && nptrs > 0
    ensures used * nptrs + nptrs < 4 * nprocs * nptrs
  {
    assert used * nptrs + nptrs == (used + 1) * nptrs;
    assert (used + 1) * nptrs <= nprocs * nptrs;
    assert 4 * nprocs * nptrs == 4 * (nprocs * nptrs);
    assert nprocs * nptrs > 0;
  }

  /** No insert fails: the table has 4 * nprocs * nptrs places. */
  method Collect(h: Hash, others: seq<seq<Addr>>, nprocs: nat, nptrs: nat) returns (tbl: array<Addr>)
    requires Handles(others, nprocs, nptrs)
    ensures fresh(tbl) && TableInv(h, tbl[..]) && Pointers(tbl[..]) == Pointers(Flatten(others))
  {
    TableIsLargeEnough(0, nprocs, nptrs);
    var size := 4 * nprocs * nptrs;
    tbl := new Addr[size](_ => 0);
    UsedOfZeros(tbl[..]);
    for k := 0 to |others|
      invariant fresh(tbl) && tbl.Length == size && Holds(h, tbl[..], Flatten(others[..k]))
    {
      assert others[..k + 1][..k] == others[..k];
      FlattenLength(others[..k], nptrs);
      TableIsLargeEnough(k, nprocs, nptrs);
      InsertSlots(h, tbl, Flatten(others[..k]), others[k]);
    }
    assert others[..|others|] == others;
  }

  /** The retired pointers that were found, and the others, in order. */
  function Kept(r: seq<Addr>, found: set<Addr>): seq<Addr> {
    if r == [] then [] else Kept(r[..|r| - 1], found) + if r[|r| - 1] in found then [r[|r| - 1]] else []
  }

  function Dropped(r: seq<Addr>, found: set<Addr>): seq<Addr> {
    if r == [] then [] else Dropped(r[..|r| - 1], found) + if r[|r| - 1] in found then [] else [r[|r| - 1]]
  }

  lemma SplitNext(r: seq<Addr>, i: nat, found: set<Addr>)
    requires i < |r|
    ensures r[i] in r
    ensures Kept(r[..i + 1], found) == Kept(r[..i], found) + if r[i] in found then [r[i]] else []
    ensures Dropped(r[..i + 1], found) == Dropped(r[..i], found) + if r[i] in found then [] else [r[i]]
  {
    assert r[..i + 1][..i] == r[..i];
  }

  /** Nothing is lost or duplicated. */
  lemma {:induction false} SplitKeepsAll(r: seq<Addr>, found: set<Addr>)
    ensures multiset(Kept(r, found)) + multiset(Dropped(r, found)) == multiset(r)
  {
    if r != [] {
      var n := |r| - 1;
      SplitKeepsAll(r[..n], found);
      LastApart(r);
      AppendOne(Kept(r[..n], found), r[n]);
      AppendOne(Dropped(r[..n], found), r[n]);
    }
  }

  /** The split is by the hazard pointers that were found. */
  lemma {:induction false} SplitIsExact(r: seq<Addr>, found: set<Addr>, p: Addr)
    ensures p in Kept(r, found) <==> p in r && p in found
    ensures p in Dropped(r, found) <==> p in r && p !in found
  {
    if r != [] {
      var n := |r| - 1;
      SplitIsExact(r[..n], found, p);
      assert p in r <==> p in r[..n] || p == r[n];
    }
  }

  lemma {:induction false} KeptDistinct(r: seq<Addr>, found: set<Addr>)
    requires Distinct(r)
    ensures Distinct(Kept(r, found))
  {
    if r != [] {
      var n := |r| - 1;
      KeptDistinct(r[..n], found);
      SplitIsExact(r[..n], found, r[n]);
    }
  }

  lemma KeptIsProper(r: seq<Addr>, found: set<Addr>)
    requires Distinct(r) && 0 !in r
    ensures Distinct(Kept(r, found)) && 0 !in Kept(r, found)
  {
    KeptDistinct(r, found);
    SplitIsExact(r, found, 0);
  }

  lemma {:induction false} FewPointers(t: seq<Addr>)
    ensures |Pointers(t)| <= |t|
  {
    if t == [] {
      assert Pointers(t) == {};
    } else {
      var n := |t| - 1;
      FewPointers(t[..n]);
      assert t == t[..n] + [t[n]];
      UsedAppend(t[..n], t[n]);
    }
  }

  /** At most one retired pointer is kept for each hazard slot of the others. */
  lemma KeptBound(r: seq<Addr>, others: seq<seq<Addr>>, nprocs: nat, nptrs: nat)
    requires Distinct(r) && Handles(others, nprocs, nptrs)
    ensures |Kept(r, Pointers(Flatten(others)))| <= (nprocs - 1) * nptrs
  {
    var found := Pointers(Flatten(others));
    KeptDistinct(r, found);
    forall p | p in Kept(r, found) ensures p in found { SplitIsExact(r, found, p); }
    DistinctWithin(Kept(r, found), found);
    FewPointers(Flatten(others));
    FlattenLength(others, nptrs);
    MulMonotone(|others|, nprocs - 1, nptrs);
  }

  /** ptrs[base + k] = p, seen from the part of the array in front of it. */
  method PutBehind(ptrs: array<Addr>, base: nat, k: nat, p: Addr)
    requires base + k < ptrs.Length
    modifies ptrs
    ensures ptrs[..base] == old(ptrs[..base]) && ptrs[base..base + k + 1] == old(ptrs[base..base + k]) + [p]
    ensures forall j :: base + k < j < ptrs.Length ==> ptrs[j] == old(ptrs[j])
  {
    ptrs[base + k] := p;
  }

  /** The first i entries of r are dealt with, in the array words a. */
  ghost predicate Compacted(a: seq<Addr>, base: nat, r: seq<Addr>, i: nat, found: set<Addr>, kept: nat, freed: seq<Addr>) {
    && kept <= i <= |r| && base + |r| <= |a|
    && a[base..base + kept] == Kept(r[..i], found) && freed == Dropped(r[..i], found)
    && (forall j :: i <= j < |r| ==> a[base + j] == r[j])
  }

  lemma CompactedNext(a: seq<Addr>, base: nat, r: seq<Addr>, i: nat, found: set<Addr>, kept: nat, freed: seq<Addr>)
    requires i < |r| && Compacted(a, base, r, i, found, kept, freed)
    ensures r[i] in found ==> Compacted(a[base + kept := r[i]], base, r, i + 1, found, kept + 1, freed)
    ensures r[i] !in found ==> Compacted(a, base, r, i + 1, found, kept, freed + [r[i]])
    ensures a[base + kept := r[i]][..base] == a[..base]
  {
    SplitNext(r, i, found);
    assert a[base + kept := r[i]][base..base + kept + 1] == a[base..base + kept] + [r[i]];
  }

  /** The n entries of the retire list at base are checked against the table, and
      those to keep are moved to its front. */
  method CompactList(h: Hash, tbl: array<Addr>, ptrs: array<Addr>, base: nat, n: nat) returns (kept: nat, freed: seq<Addr>)
    requires tbl != ptrs && TableInv(h, tbl[..]) && base + n <= ptrs.Length
    requires 0 !in ptrs[base..base + n]
    modifies ptrs
    ensures kept <= n && ptrs[..base] == old(ptrs[..base])
    ensures ptrs[base..base + kept] == Kept(old(ptrs[base..base + n]), Pointers(tbl[..]))
    ensures freed == Dropped(old(ptrs[base..base + n]), Pointers(tbl[..]))
  {
    ghost var r, found, before := ptrs[base..base + n], Pointers(tbl[..]), ptrs[..base];
    kept, freed := 0, [];
    for i := 0 to n
      invariant ptrs[..][..base] == before && Compacted(ptrs[..], base, r, i, found, kept, freed)
    {
      var ptr := ptrs[base + i];
      assert ptrs[..][base + i] == r[i] && r[i] in r;
      var isHazard := Lookup(h, tbl, ptr);
      CompactedNext(ptrs[..], base, r, i, found, kept, freed);
      if isHazard {
        ghost var after := ptrs[..][base + kept := ptr];
        ptrs[base + kept] := ptr;
        assert ptrs[..] == after;
        kept := kept + 1;
      } else {
        freed := freed + [ptr];
      }
    }
    assert r[..n] == r;
  }

  // ----- the handle ------------------------------------------------------

  /** The retire list is an array behind the handle's own slots. */
  class Handle {
    const nprocs: nat
    const nptrs: nat
    const ptrs: array<Addr>
    var nretired: nat

    ghost predicate Valid()
      reads this, ptrs
    {
      && ptrs.Length == nptrs + 2 * nprocs && nretired <= 2 * nprocs
      && 0 !in Retired() && Distinct(Retired())
    }

    function Retired(): seq<Addr>
      requires ptrs.Length == nptrs + 2 * nprocs && nretired <= 2 * nprocs
      reads this, ptrs
    {
      ptrs[nptrs..nptrs + nretired]
    }

    constructor (nprocs: nat, nptrs: nat)
      ensures Valid() && fresh(ptrs) && this.nprocs == nprocs && this.nptrs == nptrs && Retired() == []
    {
      this.nprocs, this.nptrs, this.nretired := nprocs, nptrs, 0;
      this.ptrs := new Addr[nptrs + 2 * nprocs](_ => 0);
    }

    /** The scan, and the new length of the list. */
    method Scan(h: Hash, others: seq<seq<Addr>>) returns (freed: seq<Addr>)
      requires Valid() && Handles(others, nprocs, nptrs)
      modifies this`nretired, ptrs
      ensures Valid() && ptrs[..nptrs] == old(ptrs[..nptrs])
      ensures Retired() == Kept(old(Retired()), Pointers(Flatten(others)))
      ensures freed == Dropped(old(Retired()), Pointers(Flatten(others)))
    {
      ghost var r, found := Retired(), Pointers(Flatten(others));
      KeptIsProper(r, found);
      var tbl := Collect(h, others, nprocs, nptrs);
      assert ptrs[nptrs..nptrs + nretired] == r;
      nretired, freed := CompactList(h, tbl, ptrs, nptrs, nretired);
      assert Retired() == Kept(r, found);
    }

    /** The append to the list. */
    method Put(ptr: Addr)
      requires Valid() && nretired < 2 * nprocs && ptr != 0 && ptr !in Retired()
      modifies this`nretired, ptrs
      ensures Valid() && nretired == old(nretired) + 1
      ensures ptrs[..nptrs] == old(ptrs[..nptrs]) && Retired() == old(Retired()) + [ptr]
    {
      ghost var r := Retired();
      PutBehind(ptrs, nptrs, nretired, ptr);
      nretired := nretired + 1;
      assert Retired() == r + [ptr];
    }

    /** hzdptr_retire, with a scan of the others' slots when the list is full.
        others is what the scan reads there. */
    method Retire(h: Hash, ptr: Addr, others: seq<seq<Addr>>) returns (freed: seq<Addr>)
      requires Valid() && nretired < 2 * nprocs && ptr != 0 && ptr !in Retired() && Handles(others, nprocs, nptrs)
      modifies this`nretired, ptrs
      ensures Valid() && ptrs[..nptrs] == old(ptrs[..nptrs])
      ensures old(nretired) + 1 < 2 * nprocs ==> Retired() == old(Retired()) + [ptr] && freed == []
      ensures old(nretired) + 1 == 2 * nprocs ==>
        && Retired() == Kept(old(Retired()) + [ptr], Pointers(Flatten(others)))
        && freed == Dropped(old(Retired()) + [ptr], Pointers(Flatten(others)))
        && nretired <= (nprocs - 1) * nptrs
      ensures (nprocs - 1) * nptrs < 2 * nprocs ==> nretired < 2 * nprocs
    {
      ghost var r := Retired();
      Put(ptr);
      freed := [];
      if nretired == 2 * nprocs {
        KeptBound(r + [ptr], others, nprocs, nptrs);
        freed := Scan(h, others);
      }
    }
  }

  // ----- when the retire array is large enough ---------------------------

  /** A full retire list, every entry of which is in some hazard slot. */
  ghost predicate AllKept(r: seq<Addr>, others: seq<seq<Addr>>, nprocs: nat, nptrs: nat) {
    && |r| == 2 * nprocs && Distinct(r) && (forall p :: p in r ==> p != 0) && Handles(others, nprocs, nptrs)
    && Kept(r, Pointers(Flatten(others))) == r
  }

  /** start + 1, ..., start + n. */
  function Counting(start: nat, n: nat): (s: seq<Addr>)
    ensures |s| == n && forall i :: 0 <= i < n ==> s[i] == start + i + 1
  {
    if n == 0 then [] else Counting(start, n - 1) + [start + n]
  }

  /** 1, 2, ..., spread over n handles. */
  function CountingSlots(n: nat, nptrs: nat): seq<seq<Addr>> {
    if n == 0 then [] else CountingSlots(n - 1, nptrs) + [Counting(Product(n - 1, nptrs), nptrs)]
  }

  lemma {:induction false} CountingFlattens(n: nat, nptrs: nat)
    ensures |CountingSlots(n, nptrs)| == n && forall k :: 0 <= k < n ==> |CountingSlots(n, nptrs)[k]| == nptrs
    ensures Flatten(CountingSlots(n, nptrs)) == Counting(0, Product(n, nptrs))
  {
    if n > 0 {
      CountingFlattens(n - 1, nptrs);
      Distributes(n - 1, 1, nptrs);
      assert CountingSlots(n, nptrs)[..n - 1] == CountingSlots(n - 1, nptrs);
      CountingGoesOn(Product(n - 1, nptrs), nptrs);
    }
  }

  lemma CountingGoesOn(a: nat, b: nat)
    ensures Counting(0, a) + Counting(a, b) == Counting(0, a + b)
  {
  }

  lemma {:induction false} AllFoundAllKept(r: seq<Addr>, found: set<Addr>)
    requires forall p :: p in r ==> p in found
    ensures Kept(r, found) == r
  {
    if r != [] { AllFoundAllKept(r[..|r| - 1], found); }
  }

  lemma FullListCanBeKept(nprocs: nat, nptrs: nat) returns (r: seq<Addr>, others: seq<seq<Addr>>)
    requires nprocs > 0 && nptrs > 0 && Product(nprocs - 1, nptrs) >= 2 * nprocs
    ensures AllKept(r, others, nprocs, nptrs)
  {
    r, others := Counting(0, 2 * nprocs), CountingSlots(nprocs - 1, nptrs);
    CountingFlattens(nprocs - 1, nptrs);
    forall p | p in r ensures p in Pointers(Flatten(others)) {
      assert Flatten(others)[p - 1] == p;
    }
    AllFoundAllKept(r, Pointers(Flatten(others)));
  }

  /** Exactly when a scan always makes room in the retire array: the other
      handles have fewer slots than the array has places.  That is so for every
      number of handles with one or two slots each; with three, three handles
      can keep the list full, and the next retire would write behind it. */
  lemma ScanMakesRoomIff(nprocs: nat, nptrs: nat)
    requires nprocs > 0 && nptrs > 0
    ensures (forall r, others :: !AllKept(r, others, nprocs, nptrs)) <==> Product(nprocs - 1, nptrs) < 2 * nprocs
    ensures nptrs <= 2 ==> Product(nprocs - 1, nptrs) < 2 * nprocs
    ensures nptrs == 3 ==> (Product(nprocs - 1, nptrs) < 2 * nprocs <==> nprocs < 3)
  {
    if Product(nprocs - 1, nptrs) < 2 * nprocs {
      forall r, others ensures !AllKept(r, others, nprocs, nptrs) {
        if AllKept(r, others, nprocs, nptrs) { KeptBound(r, others, nprocs, nptrs); }
      }
    } else {
      var r, others := FullListCanBeKept(nprocs, nptrs);
    }
    if nptrs <= 2 { MulMonotone(nptrs, 2, nprocs - 1); }
  }
}
