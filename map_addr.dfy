/** The address mapper (`MapAddr`): resolves raw addresses to named globals
    with a `lower_bound` search over the table sorted by start address, and
    folds realized and potential conflict pairs into a table keyed by the
    order-blind address pair, accumulating priorities. */
module MapAddr {
  import opened Wrappers
  import opened Text
  import opened Numerals
  import opened AccessInfo

  /** The table is ordered by start address, as `std::sort` with `<` leaves it. */
  predicate SortedByStart(table: seq<GlobalVar>) {
    forall i, j :: 0 <= i < j < |table| ==> table[i].startAddr <= table[j].startAddr
  }

  /** Start addresses strictly increase and no region runs into the next. */
  predicate Disjoint(table: seq<GlobalVar>) {
    forall i, j :: 0 <= i < j < |table| ==>
      table[i].startAddr < table[j].startAddr && table[i].startAddr + table[i].size <= table[j].startAddr
  }

  predicate Contains(g: GlobalVar, addr: nat) {
    g.startAddr <= addr < g.startAddr + g.size
  }

  /** The "unresolved" result. */
  const Unresolved := MemoryAccess("", 0, 0)

  /** The index `std::lower_bound` returns for the key `{"", addr, 0}`: the
      first entry whose start is not below `addr`. */
  function FirstNotBelow(table: seq<GlobalVar>, addr: nat): (i: nat)
    ensures i <= |table|
  {
    if table == [] || table[0].startAddr >= addr then 0 else 1 + FirstNotBelow(table[1..], addr)
  }

  /** Every entry before the index starts below `addr`; the entry at the
      index, if any, does not. */
  lemma {:induction false} FirstNotBelowSplits(table: seq<GlobalVar>, addr: nat)
    ensures var i := FirstNotBelow(table, addr);
            (forall k :: 0 <= k < i ==> table[k].startAddr < addr) &&
            (i < |table| ==> table[i].startAddr >= addr)
  {
    if table != [] && table[0].startAddr < addr {
      FirstNotBelowSplits(table[1..], addr);
    }
  }

  /** `std::lower_bound` by bisection. */
  method LowerBound(table: seq<GlobalVar>, addr: nat) returns (lo: nat)
    requires SortedByStart(table)
    ensures lo == FirstNotBelow(table, addr)
  {
    var hi := |table|;
    lo := 0;
    while lo < hi
      invariant 0 <= lo <= hi <= |table|
      invariant forall k :: 0 <= k < lo ==> table[k].startAddr < addr
      invariant forall k :: hi <= k < |table| ==> table[k].startAddr >= addr
    {
      var mid := (lo + hi) / 2;
      if GlobalLess(table[mid], GlobalVar("", addr, 0)) {
        lo := mid + 1;
      } else {
        hi := mid;
      }
    }
    FirstNotBelowUnique(table, addr, lo);
  }

  /** The lower bound is the one index that splits the table into the
      entries below `addr` and those not below it. */
  lemma {:induction false} FirstNotBelowUnique(table: seq<GlobalVar>, addr: nat, j: nat)
    requires j <= |table|
    requires forall k :: 0 <= k < j ==> table[k].startAddr < addr
    requires forall k :: j <= k < |table| ==> table[k].startAddr >= addr
    ensures FirstNotBelow(table, addr) == j
  {
    if table != [] && table[0].startAddr < addr {
      assert j > 0;
      FirstNotBelowUnique(table[1..], addr, j - 1);
    }
  }

  /** The entry `addr_to_named_access` tests: the lower bound, or the last
      entry when the bound is past the end, or the entry before the bound
      when the bound starts above `addr` and is not the first. */
  function Candidate(table: seq<GlobalVar>, addr: nat): (i: nat)
    requires |table| > 0
    ensures i < |table|
  {
    var lb := FirstNotBelow(table, addr);
    if lb == |table| then |table| - 1
    else if table[lb].startAddr == addr then lb
    else if lb != 0 then lb - 1
    else lb
  }

  /** `addr_to_named_access`: the candidate's name, the offset into it and an
      access size of 1 when the candidate contains `addr`; `("", 0, 0)` otherwise. */
  function NamedAccess(table: seq<GlobalVar>, addr: nat): MemoryAccess
    requires |table| > 0
  {
    var g := table[Candidate(table, addr)];
    if Contains(g, addr) then MemoryAccess(g.name, addr - g.startAddr, 1) else Unresolved
  }

  /** A result other than `("", 0, 0)` names an entry that contains `addr`,
      at offset `addr - start`, with size 1; addresses below the first start
      are unresolved; an exact start match of a non-empty entry gives
      offset 0 of that entry. */
  lemma NamedAccessSound(table: seq<GlobalVar>, addr: nat)
    requires |table| > 0
    ensures var r := NamedAccess(table, addr);
            (r == Unresolved ||
             exists i :: 0 <= i < |table| && Contains(table[i], addr) &&
                         r == MemoryAccess(table[i].name, addr - table[i].startAddr, 1)) &&
            (SortedByStart(table) && addr < table[0].startAddr ==> r == Unresolved) &&
            (var lb := FirstNotBelow(table, addr);
             lb < |table| && table[lb].startAddr == addr && table[lb].size > 0 ==> r == MemoryAccess(table[lb].name, 0, 1))
  {
    FirstNotBelowSplits(table, addr);
  }

  /** An address past every start is tested against the last entry only. */
  lemma PastEveryStart(table: seq<GlobalVar>, addr: nat)
    requires |table| > 0
    requires forall k :: 0 <= k < |table| ==> table[k].startAddr < addr
    ensures NamedAccess(table, addr) ==
            var g := table[|table| - 1];
            if Contains(g, addr) then MemoryAccess(g.name, addr - g.startAddr, 1) else Unresolved
  {
    FirstNotBelowSplits(table, addr);
    assert FirstNotBelow(table, addr) == |table|;
  }

  /** `addr_to_named_access` by bisection. */
  method AddrToNamedAccess(table: seq<GlobalVar>, addr: nat) returns (r: MemoryAccess)
    requires |table| > 0 && SortedByStart(table)
    ensures r == NamedAccess(table, addr)
  {
    var it := LowerBound(table, addr);
    if it == |table| {
      it := |table| - 1;
    } else if table[it].startAddr == addr {
      // exact match: offset 0
    } else if it != 0 {
      it := it - 1;
    }
    var g := table[it];
    if addr >= g.startAddr && addr < g.startAddr + g.size {
      return MemoryAccess(g.name, addr - g.startAddr, 1);
    }
    return MemoryAccess("", 0, 0);
  }

  /** The reference resolver: the first entry that contains `addr`, by a
      scan of the whole table. */
  function LinearResolve(table: seq<GlobalVar>, addr: nat): (r: MemoryAccess)
    ensures r == Unresolved ==> forall k :: 0 <= k < |table| && Contains(table[k], addr) ==> table[k].name == "" && addr == table[k].startAddr
  {
    if table == [] then Unresolved
    else if Contains(table[0], addr) then MemoryAccess(table[0].name, addr - table[0].startAddr, 1)
    else LinearResolve(table[1..], addr)
  }

  lemma {:induction false} LinearResolveFinds(table: seq<GlobalVar>, addr: nat, j: nat)
    requires j < |table| && Contains(table[j], addr)
    requires forall k :: 0 <= k < j ==> !Contains(table[k], addr)
    ensures LinearResolve(table, addr) == MemoryAccess(table[j].name, addr - table[j].startAddr, 1)
  {
    if j > 0 {
      LinearResolveFinds(table[1..], addr, j - 1);
    }
  }

  lemma {:induction false} LinearResolveMisses(table: seq<GlobalVar>, addr: nat)
    requires forall k :: 0 <= k < |table| ==> !Contains(table[k], addr)
    ensures LinearResolve(table, addr) == Unresolved
  {
    if table != [] {
      LinearResolveMisses(table[1..], addr);
    }
  }

  /** On a table with strictly increasing, non-overlapping regions the
      bisection resolves every address as the linear scan does. */
  lemma ResolveAgreesWithScan(table: seq<GlobalVar>, addr: nat)
    requires |table| > 0 && Disjoint(table)
    ensures NamedAccess(table, addr) == LinearResolve(table, addr)
  {
    if j :| 0 <= j < |table| && Contains(table[j], addr) {
      forall k | 0 <= k < |table| && k != j
        ensures !Contains(table[k], addr)
      {
      }
      LinearResolveFinds(table, addr, j);
      FirstNotBelowSplits(table, addr);
      var lb := FirstNotBelow(table, addr);
      if table[j].startAddr == addr {
        assert lb == j;
      } else {
        assert lb == j + 1;
      }
      assert Candidate(table, addr) == j;
    } else {
      LinearResolveMisses(table, addr);
    }
  }

  /** Strict increase is needed: a zero-size entry sharing its start with the
      next one shadows it. */
  lemma ZeroSizeEntryShadows()
    ensures var table := [GlobalVar("a", 8, 0), GlobalVar("b", 8, 4)];
            SortedByStart(table) && NamedAccess(table, 8) == Unresolved &&
            LinearResolve(table, 8) == MemoryAccess("b", 0, 1)
  {
    var table := [GlobalVar("a", 8, 0), GlobalVar("b", 8, 4)];
    assert FirstNotBelow(table, 8) == 0;
  }

  /** The first `n` entries are ordered by start address. */
  predicate SortedUpTo(a: array<GlobalVar>, n: nat)
    requires n <= a.Length
    reads a
  {
    forall k, l :: 0 <= k < l < n ==> a[k].startAddr <= a[l].startAddr
  }

  /** Insertion sort by start address: the in-place `std::sort` of the table. */
  method SortGlobals(a: array<GlobalVar>)
    modifies a
    ensures SortedByStart(a[..])
    ensures multiset(a[..]) == multiset(old(a[..]))
  {
    var i := 0;
    while i < a.Length
      invariant 0 <= i <= a.Length
      invariant SortedUpTo(a, i)
      invariant multiset(a[..]) == multiset(old(a[..]))
    {
      InsertLast(a, i);
      i := i + 1;
    }
  }

  /** Moves `a[i]` down into the ordered prefix `a[..i]` by swaps. */
  method InsertLast(a: array<GlobalVar>, i: nat)
    requires i < a.Length && SortedUpTo(a, i)
    modifies a
    ensures SortedUpTo(a, i + 1)
    ensures multiset(a[..]) == multiset(old(a[..]))
  {
    var j := i;
    while j > 0 && a[j - 1].startAddr > a[j].startAddr
      invariant 0 <= j <= i
      invariant forall k, l :: 0 <= k < l <= i && k != j && l != j ==> a[k].startAddr <= a[l].startAddr
      invariant forall l :: j < l <= i ==> a[j].startAddr <= a[l].startAddr
      invariant multiset(a[..]) == multiset(old(a[..]))
    {
      Swap(a, j - 1, j);
      j := j - 1;
    }
  }

  /** Exchanges two entries of `a`. */
  method Swap(a: array<GlobalVar>, i: nat, j: nat)
    requires i < j < a.Length
    modifies a
    ensures a[i] == old(a[j]) && a[j] == old(a[i])
    ensures forall k :: 0 <= k < a.Length && k != i && k != j ==> a[k] == old(a[k])
    ensures multiset(a[..]) == multiset(old(a[..]))
  {
    a[i], a[j] := a[j], a[i];
  }

  /** A conflict line as read: two addresses and a priority. */
  datatype Triple = Triple(addr1: nat, addr2: nat, priority: nat)

  /** The canonical form of the `conflicting_addr` of a line. */
  function KeyOf(t: Triple): (nat, nat) {
    Canon(ConflictingAddr(t.addr1, t.addr2))
  }

  /** `priority_cache`, keyed by the canonical form of the address pair, which
      identifies keys exactly as the symmetric `==` does. */
  type Cache = map<(nat, nat), ConflictingAccess>

  /** The named conflict of a line, or `None` when either end is unresolved
      (an empty name), in which case the line is dropped. */
  function Resolve(table: seq<GlobalVar>, t: Triple): (r: Option<ConflictingAccess>)
    requires |table| > 0
    ensures r.Some? ==> r.value.var1.name != "" && r.value.var2.name != "" && r.value.priority == t.priority
    ensures r.Some? ==> r.value.var1 == NamedAccess(table, t.addr1) && r.value.var2 == NamedAccess(table, t.addr2)
    ensures r.None? ==> NamedAccess(table, t.addr1).name == "" || NamedAccess(table, t.addr2).name == ""
  {
    var v1 := NamedAccess(table, t.addr1);
    var v2 := NamedAccess(table, t.addr2);
    if v1.name == "" || v2.name == "" then None else Some(ConflictingAccess(v1, v2, t.priority))
  }

  /** What a repeated line adds: 1 in the realized loop, its own priority in
      the potential loop. */
  function Bump(t: Triple, realized: bool): nat {
    if realized then 1 else t.priority
  }

  /** One iteration of a loop of `main`. */
  function Step(c: Cache, table: seq<GlobalVar>, t: Triple, realized: bool): Cache
    requires |table| > 0
  {
    match Resolve(table, t)
    case None => c
    case Some(ca) =>
      var k := KeyOf(t);
      if k in c then c[k := c[k].(priority := c[k].priority + Bump(t, realized))] else c[k := ca]
  }

  /** One of the two loops of `main` over the lines `ts`, as a value. */
  function Fold(cache: Cache, table: seq<GlobalVar>, ts: seq<Triple>, realized: bool): Cache
    requires |table| > 0
  {
    if ts == [] then cache
    else Step(Fold(cache, table, ts[..|ts| - 1], realized), table, ts[|ts| - 1], realized)
  }

  /** The entry for `k` after one line: bumped or inserted when the line
      resolves to key `k`, untouched otherwise. */
  lemma StepAt(c: Cache, table: seq<GlobalVar>, t: Triple, realized: bool, k: (nat, nat))
    requires |table| > 0
    ensures var s := Step(c, table, t, realized);
            var hit := Resolve(table, t).Some? && KeyOf(t) == k;
            (k in s <==> k in c || hit) &&
            (hit && k in c ==> s[k] == c[k].(priority := c[k].priority + Bump(t, realized))) &&
            (hit && k !in c ==> s[k] == Resolve(table, t).value) &&
            (!hit && k in c ==> s[k] == c[k])
  {
  }

  /** Every hit resolves, to key `k`. */
  lemma {:induction false} HitsResolveToKey(table: seq<GlobalVar>, ts: seq<Triple>, k: (nat, nat), i: nat)
    requires |table| > 0 && i < |Hits(table, ts, k)|
    ensures Resolve(table, Hits(table, ts, k)[i]).Some? && KeyOf(Hits(table, ts, k)[i]) == k
  {
    var h0 := Hits(table, ts[..|ts| - 1], k);
    if i < |h0| {
      HitsResolveToKey(table, ts[..|ts| - 1], k, i);
    }
  }

  /** The resolved lines of `ts` whose key is `k`, in order. */
  function Hits(table: seq<GlobalVar>, ts: seq<Triple>, k: (nat, nat)): (h: seq<Triple>)
    requires |table| > 0
    ensures |h| <= |ts|
  {
    if ts == [] then []
    else
      var t := ts[|ts| - 1];
      Hits(table, ts[..|ts| - 1], k) + (if Resolve(table, t).Some? && KeyOf(t) == k then [t] else [])
  }

  function Bumps(ts: seq<Triple>, realized: bool): nat {
    if ts == [] then 0 else Bumps(ts[..|ts| - 1], realized) + Bump(ts[|ts| - 1], realized)
  }

  lemma BumpsAppend(ts: seq<Triple>, t: Triple, realized: bool)
    ensures Bumps(ts + [t], realized) == Bumps(ts, realized) + Bump(t, realized)
  {
    assert (ts + [t])[..|ts|] == ts;
  }

  lemma {:induction false} BumpsTail(ts: seq<Triple>, t: Triple, realized: bool)
    requires ts != []
    ensures Bumps((ts + [t])[1..], realized) == Bumps(ts[1..], realized) + Bump(t, realized)
  {
    assert (ts + [t])[1..] == ts[1..] + [t];
    BumpsAppend(ts[1..], t, realized);
  }

  lemma {:induction false} BumpsCount(ts: seq<Triple>)
    ensures Bumps(ts, true) == |ts|
  {
    if ts != [] {
      BumpsCount(ts[..|ts| - 1]);
    }
  }

  /** A loop holds an entry for `k` exactly when one was there before or some
      resolved line has key `k`. */
  lemma {:induction false} FoldDomain(cache: Cache, table: seq<GlobalVar>, ts: seq<Triple>, realized: bool, k: (nat, nat))
    requires |table| > 0
    ensures k in Fold(cache, table, ts, realized) <==> k in cache || |Hits(table, ts, k)| > 0
  {
    if ts != [] {
      FoldDomain(cache, table, ts[..|ts| - 1], realized, k);
    }
  }

  /** An entry already there keeps its names and gains the bumps of every
      resolved line with its key. */
  lemma {:induction false} FoldPresent(cache: Cache, table: seq<GlobalVar>, ts: seq<Triple>, realized: bool, k: (nat, nat))
    requires |table| > 0 && k in cache
    ensures var f := Fold(cache, table, ts, realized);
            k in f && f[k].var1 == cache[k].var1 && f[k].var2 == cache[k].var2 &&
            f[k].priority == cache[k].priority + Bumps(Hits(table, ts, k), realized)
  {
    if ts != [] {
      var init := ts[..|ts| - 1];
      var t := ts[|ts| - 1];
      var c := Fold(cache, table, init, realized);
      var h0 := Hits(table, init, k);
      FoldPresent(cache, table, init, realized, k);
      assert Fold(cache, table, ts, realized) == Step(c, table, t, realized);
      StepAt(c, table, t, realized, k);
      if Resolve(table, t).Some? && KeyOf(t) == k {
        assert Hits(table, ts, k) == h0 + [t];
        BumpsAppend(h0, t, realized);
      } else {
        assert Hits(table, ts, k) == h0;
      }
    }
  }

  /** The entry a new key holds after the lines `h`, all resolving to it. */
  predicate NewEntry(f: Cache, table: seq<GlobalVar>, h: seq<Triple>, realized: bool, k: (nat, nat))
    requires |table| > 0
  {
    |h| > 0 ==> k in f && f[k].var1 == NamedAccess(table, h[0].addr1) && f[k].var2 == NamedAccess(table, h[0].addr2) &&
                f[k].priority == h[0].priority + Bumps(h[1..], realized)
  }

  /** A new entry names what the first resolved line with its key names, and
      its priority is that line's priority plus the bumps of the later ones. */
  lemma {:induction false} FoldNew(cache: Cache, table: seq<GlobalVar>, ts: seq<Triple>, realized: bool, k: (nat, nat))
    requires |table| > 0 && k !in cache
    ensures NewEntry(Fold(cache, table, ts, realized), table, Hits(table, ts, k), realized, k)
  {
    if ts != [] {
      var init := ts[..|ts| - 1];
      var t := ts[|ts| - 1];
      var c := Fold(cache, table, init, realized);
      FoldNew(cache, table, init, realized, k);
      FoldDomain(cache, table, init, realized, k);
      var h0 := Hits(table, init, k);
      var hit := Resolve(table, t).Some? && KeyOf(t) == k;
      assert Fold(cache, table, ts, realized) == Step(c, table, t, realized);
      assert Hits(table, ts, k) == if hit then h0 + [t] else h0;
      NewEntryStep(c, table, h0, t, realized, k);
    }
  }

  /** One line keeps `NewEntry`: a line with key `k` is appended to the hits. */
  lemma NewEntryStep(c: Cache, table: seq<GlobalVar>, h0: seq<Triple>, t: Triple, realized: bool, k: (nat, nat))
    requires |table| > 0 && NewEntry(c, table, h0, realized, k) && (k in c <==> |h0| > 0)
    ensures var hit := Resolve(table, t).Some? && KeyOf(t) == k;
            NewEntry(Step(c, table, t, realized), table, if hit then h0 + [t] else h0, realized, k)
  {
    var f := Step(c, table, t, realized);
    StepAt(c, table, t, realized, k);
    if Resolve(table, t).Some? && KeyOf(t) == k {
      var h := h0 + [t];
      if |h0| > 0 {
        BumpsTail(h0, t, realized);
        assert h[0] == h0[0];
        assert f[k].priority == c[k].priority + Bump(t, realized);
      } else {
        assert h[1..] == [] && h[0] == t;
        assert f[k] == Resolve(table, t).value;
      }
    } else if |h0| > 0 {
      assert f[k] == c[k];
    }
  }

  /** The realized loop from an empty table: an entry exists exactly for the
      keys of resolved lines; it names what the first such line names, and its
      priority is that line's priority plus one for every later line with the
      same key. */
  lemma RealizedEntry(table: seq<GlobalVar>, ts: seq<Triple>, k: (nat, nat))
    requires |table| > 0
    ensures var f := Fold(map[], table, ts, true);
            var h := Hits(table, ts, k);
            (k in f <==> |h| > 0) &&
            (|h| > 0 ==> f[k].var1 == NamedAccess(table, h[0].addr1) && f[k].var2 == NamedAccess(table, h[0].addr2) &&
                         f[k].priority == h[0].priority + |h| - 1)
  {
    FoldDomain(map[], table, ts, true, k);
    FoldNew(map[], table, ts, true, k);
    var h := Hits(table, ts, k);
    assert NewEntry(Fold(map[], table, ts, true), table, h, true, k);
    if |h| > 0 {
      BumpsCount(h[1..]);
    }
  }

  /** Entries are never removed, never renamed, and their priorities never
      decrease. */
  lemma FoldMonotone(cache: Cache, table: seq<GlobalVar>, ts: seq<Triple>, realized: bool, k: (nat, nat))
    requires |table| > 0 && k in cache
    ensures var f := Fold(cache, table, ts, realized);
            k in f && f[k].var1 == cache[k].var1 && f[k].var2 == cache[k].var2 && f[k].priority >= cache[k].priority
  {
    FoldPresent(cache, table, ts, realized, k);
  }

  /** `(a, b)` and `(b, a)` are one key. */
  lemma SwappedLinesShareKey(a: nat, b: nat, p: nat, q: nat)
    ensures KeyOf(Triple(a, b, p)) == KeyOf(Triple(b, a, q))
    ensures SameConflict(ConflictingAddr(a, b), ConflictingAddr(b, a))
  {
    SameConflictIffCanon(ConflictingAddr(a, b), ConflictingAddr(b, a));
  }

  /** Both loops of `main`: realized pairs first, then potential pairs. */
  function Aggregate(table: seq<GlobalVar>, realized: seq<Triple>, potential: seq<Triple>): Cache
    requires |table| > 0
  {
    Fold(Fold(map[], table, realized, true), table, potential, false)
  }

  /** One loop of `main`: resolve both ends of each line, drop it when either
      end is unresolved, insert a new key with the line's conflict, or bump
      the existing entry. */
  method Accumulate(cache: Cache, table: seq<GlobalVar>, ts: seq<Triple>, realized: bool) returns (c: Cache)
    requires |table| > 0 && SortedByStart(table)
    ensures c == Fold(cache, table, ts, realized)
  {
    c := cache;
    for i := 0 to |ts|
      invariant c == Fold(cache, table, ts[..i], realized)
    {
      assert ts[..i + 1][..i] == ts[..i];
      c := AccumulateLine(c, table, ts[i], realized);
    }
    assert ts[..|ts|] == ts;
  }

  /** The body of a loop of `main` for one line. */
  method AccumulateLine(c: Cache, table: seq<GlobalVar>, t: Triple, realized: bool) returns (c': Cache)
    requires |table| > 0 && SortedByStart(table)
    ensures c' == Step(c, table, t, realized)
  {
    var var1 := AddrToNamedAccess(table, t.addr1);
    var var2 := AddrToNamedAccess(table, t.addr2);
    if var1.name == "" || var2.name == "" {
      return c;
    }
    var key := KeyOf(t);
    if key in c {
      c' := c[key := c[key].(priority := c[key].priority + (if realized then 1 else t.priority))];
    } else {
      c' := c[key := ConflictingAccess(var1, var2, t.priority)];
    }
  }

  /** One line of `mapped_conflicts.out`: both accesses as name, offset and
      size, then the priority, separated by spaces. */
  function ReportLine(ca: ConflictingAccess): string {
    Join([ca.var1.name, ToDecimal(ca.var1.accessOffset), ToDecimal(ca.var1.accessSize),
          ca.var2.name, ToDecimal(ca.var2.accessOffset), ToDecimal(ca.var2.accessSize),
          ToDecimal(ca.priority)], ' ')
  }

  /** The text of `mapped_conflicts.out` when the entries come out in the
      order `cas`: every line ends with a newline. */
  function ReportText(cas: seq<ConflictingAccess>): string {
    if cas == [] then "" else ReportLine(cas[0]) + "\n" + ReportText(cas[1..])
  }

  /** The report: one line per entry, in no particular order. */
  function Report(cache: Cache): set<string> {
    set k | k in cache :: ReportLine(cache[k])
  }

  /** Every name the table hands out is a whitespace-free token, as the
      globals file is read with `>>`. */
  predicate NamesAreWords(table: seq<GlobalVar>) {
    forall i :: 0 <= i < |table| ==> table[i].name == "" || IsWord(table[i].name)
  }

  /** A resolved line names two globals of the table by words. */
  lemma ResolvedNamesAreWords(table: seq<GlobalVar>, t: Triple)
    requires |table| > 0 && NamesAreWords(table)
    ensures Resolve(table, t).Some? ==> IsWord(Resolve(table, t).value.var1.name) && IsWord(Resolve(table, t).value.var2.name)
  {
    var v1 := NamedAccess(table, t.addr1);
    var v2 := NamedAccess(table, t.addr2);
    NamedAccessSound(table, t.addr1);
    NamedAccessSound(table, t.addr2);
    if v1 != Unresolved {
      var i :| 0 <= i < |table| && Contains(table[i], t.addr1) && v1 == MemoryAccess(table[i].name, t.addr1 - table[i].startAddr, 1);
    }
    if v2 != Unresolved {
      var i :| 0 <= i < |table| && Contains(table[i], t.addr2) && v2 == MemoryAccess(table[i].name, t.addr2 - table[i].startAddr, 1);
    }
  }

  /** Every entry names two globals by words. */
  predicate NamedByWords(c: Cache) {
    forall k :: k in c ==> IsWord(c[k].var1.name) && IsWord(c[k].var2.name)
  }

  /** Every entry of the aggregated table names two globals by words. */
  lemma {:induction false} FoldNamesAreWords(cache: Cache, table: seq<GlobalVar>, ts: seq<Triple>, realized: bool)
    requires |table| > 0 && NamesAreWords(table) && NamedByWords(cache)
    ensures NamedByWords(Fold(cache, table, ts, realized))
  {
    if ts != [] {
      var c := Fold(cache, table, ts[..|ts| - 1], realized);
      var t := ts[|ts| - 1];
      FoldNamesAreWords(cache, table, ts[..|ts| - 1], realized);
      ResolvedNamesAreWords(table, t);
      var f := Step(c, table, t, realized);
      forall k | k in f
        ensures IsWord(f[k].var1.name) && IsWord(f[k].var2.name)
      {
        StepAt(c, table, t, realized, k);
        if Resolve(table, t).Some? && KeyOf(t) == k && k !in c {
          assert f[k] == Resolve(table, t).value;
        } else {
          assert k in c;
          assert f[k].var1 == c[k].var1 && f[k].var2 == c[k].var2;
        }
      }
      assert Fold(cache, table, ts, realized) == f;
    }
  }

  /** `main` of the mapper: sort the globals, run both loops, write the report.
      `sorted` is the table as the sort left it. */
  method MapAddrMain(globals: seq<GlobalVar>, realized: seq<Triple>, potential: seq<Triple>)
    returns (sorted: seq<GlobalVar>, lines: set<string>)
    requires |globals| > 0 || (realized == [] && potential == [])
    ensures SortedByStart(sorted) && multiset(sorted) == multiset(globals) && |sorted| == |globals|
    ensures |globals| > 0 ==> lines == Report(Aggregate(sorted, realized, potential))
    ensures |globals| == 0 ==> lines == {}
  {
    var a := new GlobalVar[|globals|](i requires 0 <= i < |globals| => globals[i]);
    assert a[..] == globals;
    SortGlobals(a);
    sorted := a[..];
    if |sorted| == 0 {
      return sorted, {};
    }
    var cache := Accumulate(map[], sorted, realized, true);
    cache := Accumulate(cache, sorted, potential, false);
    lines := Report(cache);
  }
}
