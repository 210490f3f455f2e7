/** The cache-line ledger and conflict detector (`InterferenceDetector`).

    The ledger maps a cache-line index to the threads that touched the line,
    and each thread to the addresses it touched there with the merged
    {isWrite, size} of those accesses. Recording an access compares it with
    every address other threads hold in the same line and appends a pair for
    each one that is disjoint from it while one of the two is a write.

    The ledger's maps are `unordered_map`s, whose iteration order the model
    does not fix: the caller passes it in, as `order` (the threads of the
    line) and `keys` (the addresses of each thread), and the results are
    stated for whatever order is passed. */
module InterferenceDetector {
  import opened Wrappers
  import opened Text
  import opened Numerals

  /** The merged record of one thread's accesses to one address. */
  datatype Access = Access(isWrite: bool, accessSize: nat)

  /** destAddr -> Access */
  type ThreadAccesses = map<nat, Access>
  /** thread id -> ThreadAccesses */
  type CacheLine = map<nat, ThreadAccesses>
  /** cache-line index -> CacheLine */
  type Ledger = map<nat, CacheLine>

  /** A raw conflict: (other thread's recorded address, new address). */
  type Pair = (nat, nat)

  /** `string_to_rw`: "W"/"w" is a write, "R"/"r" a read, anything else throws. */
  function RwFlag(rw: string): (r: Result<bool, string>)
    ensures r.Success? <==> rw in {"W", "w", "R", "r"}
    ensures r.Success? ==> (r.value <==> rw[0] == 'W' || rw[0] == 'w')
    ensures r.Failure? ==> r.error == "Invalid rw value: " + rw
  {
    if rw == "W" || rw == "w" then Success(true)
    else if rw == "R" || rw == "r" then Success(false)
    else Failure("Invalid rw value: " + rw)
  }

  /** The overlap test of `recordAccess`: `other` falls in `[addr, addr+size)`
      or `addr` falls in `[other, other+otherSize)`. */
  predicate Overlaps(other: nat, otherSize: nat, addr: nat, size: nat) {
    (other >= addr && other < addr + size) || (addr >= other && addr < other + otherSize)
  }

  /** Whether the access at `addr` interferes with the recorded entry `acc` at `other`. */
  predicate Interferes(other: nat, acc: Access, addr: nat, size: nat, isWrite: bool) {
    !Overlaps(other, acc.accessSize, addr, size) && (isWrite || acc.isWrite)
  }

  /** The recorded addresses of one other thread that interfere with a new access. */
  function ThreadConflicts(accs: ThreadAccesses, addr: nat, size: nat, isWrite: bool): set<nat> {
    set a | a in accs && Interferes(a, accs[a], addr, size, isWrite)
  }

  predicate NoDuplicates(s: seq<nat>) {
    forall i, j :: 0 <= i < j < |s| ==> s[i] != s[j]
  }

  /** `order` lists every element of `s` exactly once: an iteration order of
      an `unordered_map` whose keys are `s`. */
  predicate IsEnumeration(order: seq<nat>, s: set<nat>) {
    NoDuplicates(order) && (forall i :: 0 <= i < |order| ==> order[i] in s) && (forall x :: x in s ==> x in order)
  }

  /** The addresses the inner loop of `recordAccess` pairs with the new one
      while it iterates one other thread's entries in the order `keys`. */
  function ThreadPairs(accs: ThreadAccesses, keys: seq<nat>, addr: nat, size: nat, isWrite: bool): seq<nat>
  {
    if keys == [] then []
    else
      var a := keys[|keys| - 1];
      ThreadPairs(accs, keys[..|keys| - 1], addr, size, isWrite) +
      (if a in accs && Interferes(a, accs[a], addr, size, isWrite) then [a] else [])
  }

  /** The inner loop yields exactly the interfering entries it visits. */
  lemma {:induction false} ThreadPairsMembers(accs: ThreadAccesses, keys: seq<nat>, addr: nat, size: nat, isWrite: bool, x: nat)
    ensures x in ThreadPairs(accs, keys, addr, size, isWrite) <==> x in keys && x in ThreadConflicts(accs, addr, size, isWrite)
  {
    if keys != [] {
      var init := keys[..|keys| - 1];
      ThreadPairsMembers(accs, init, addr, size, isWrite, x);
      assert keys == init + [keys[|keys| - 1]];
    }
  }

  /** A subsequence of the keys, in their order: each kept key at most once
      when the keys are distinct. */
  lemma {:induction false} ThreadPairsDistinct(accs: ThreadAccesses, keys: seq<nat>, addr: nat, size: nat, isWrite: bool)
    requires NoDuplicates(keys)
    ensures NoDuplicates(ThreadPairs(accs, keys, addr, size, isWrite))
  {
    if keys != [] {
      var init := keys[..|keys| - 1];
      var last := keys[|keys| - 1];
      ThreadPairsDistinct(accs, init, addr, size, isWrite);
      ThreadPairsMembers(accs, init, addr, size, isWrite, last);
      assert last !in init;
    }
  }

  /** With the keys enumerated once each, the inner loop yields each
      interfering entry exactly once: as a multiset, the set of conflicts. */
  lemma ThreadPairsOfEnumeration(accs: ThreadAccesses, keys: seq<nat>, addr: nat, size: nat, isWrite: bool)
    requires IsEnumeration(keys, accs.Keys)
    ensures multiset(ThreadPairs(accs, keys, addr, size, isWrite)) == multiset(ThreadConflicts(accs, addr, size, isWrite))
  {
    var ps := ThreadPairs(accs, keys, addr, size, isWrite);
    ThreadPairsDistinct(accs, keys, addr, size, isWrite);
    forall x
      ensures multiset(ps)[x] == multiset(ThreadConflicts(accs, addr, size, isWrite))[x]
    {
      ThreadPairsMembers(accs, keys, addr, size, isWrite, x);
      DistinctCount(ps, x);
    }
  }

  /** In a sequence without duplicates every element occurs once. */
  lemma {:induction false} DistinctCount(s: seq<nat>, x: nat)
    requires NoDuplicates(s)
    ensures multiset(s)[x] == if x in s then 1 else 0
  {
    if s != [] {
      var init := s[..|s| - 1];
      assert s == init + [s[|s| - 1]];
      DistinctCount(init, x);
    }
  }

  /** Every thread of the line other than `tid` has an iteration order of its
      addresses in `keys`. */
  predicate KeyOrders(keys: map<nat, seq<nat>>, line: CacheLine, tid: nat) {
    forall t :: t in line && t != tid ==> t in keys && IsEnumeration(keys[t], line[t].Keys)
  }

  /** What scanning thread `t` contributes: nothing for the recording thread
      itself or a thread absent from the line. */
  function Yield(line: CacheLine, tid: nat, keys: map<nat, seq<nat>>, t: nat, addr: nat, size: nat, isWrite: bool): seq<nat> {
    if t != tid && t in line && t in keys then ThreadPairs(line[t], keys[t], addr, size, isWrite) else []
  }

  /** The recorded addresses the scan of the first `n` threads of `order`
      pairs with the new address, in the order their pairs are pushed. */
  function ScanConflicts(line: CacheLine, tid: nat, order: seq<nat>, keys: map<nat, seq<nat>>, n: nat,
                         addr: nat, size: nat, isWrite: bool): seq<nat>
    requires n <= |order|
  {
    if n == 0 then []
    else ScanConflicts(line, tid, order, keys, n - 1, addr, size, isWrite) + Yield(line, tid, keys, order[n - 1], addr, size, isWrite)
  }

  /** Every address the scan pairs with the new one is a genuine cross-thread
      conflict: a disjoint entry of another scanned thread, with at least one write. */
  lemma {:induction false} ScanConflictsSound(line: CacheLine, tid: nat, order: seq<nat>, keys: map<nat, seq<nat>>, n: nat,
                                              addr: nat, size: nat, isWrite: bool, a: nat)
    requires n <= |order|
    requires a in ScanConflicts(line, tid, order, keys, n, addr, size, isWrite)
    ensures exists j :: 0 <= j < n && order[j] != tid && order[j] in line && a in line[order[j]] &&
                        !Overlaps(a, line[order[j]][a].accessSize, addr, size) &&
                        (isWrite || line[order[j]][a].isWrite)
  {
    if a in ScanConflicts(line, tid, order, keys, n - 1, addr, size, isWrite) {
      ScanConflictsSound(line, tid, order, keys, n - 1, addr, size, isWrite, a);
    } else {
      var t := order[n - 1];
      ThreadPairsMembers(line[t], keys[t], addr, size, isWrite, a);
    }
  }

  /** Every disjoint entry of a scanned other thread, with at least one write,
      is paired with the new address. */
  lemma {:induction false} ScanConflictsComplete(line: CacheLine, tid: nat, order: seq<nat>, keys: map<nat, seq<nat>>, n: nat,
                                                 addr: nat, size: nat, isWrite: bool, j: nat, a: nat)
    requires j < n <= |order|
    requires KeyOrders(keys, line, tid)
    requires order[j] != tid && order[j] in line && a in line[order[j]]
    requires Interferes(a, line[order[j]][a], addr, size, isWrite)
    ensures a in ScanConflicts(line, tid, order, keys, n, addr, size, isWrite)
  {
    var prefix := ScanConflicts(line, tid, order, keys, n - 1, addr, size, isWrite);
    if j == n - 1 {
      var t := order[j];
      assert t in keys && IsEnumeration(keys[t], line[t].Keys);
      assert a in keys[t];
      ThreadPairsMembers(line[t], keys[t], addr, size, isWrite, a);
      assert a in Yield(line, tid, keys, t, addr, size, isWrite);
    } else {
      ScanConflictsComplete(line, tid, order, keys, n - 1, addr, size, isWrite, j, a);
    }
  }

  /** The scan never reads the recording thread's own entries. */
  lemma {:induction false} ScanConflictsIgnoresOwnThread(l1: CacheLine, l2: CacheLine, tid: nat, order: seq<nat>,
                                                         keys: map<nat, seq<nat>>, n: nat, addr: nat, size: nat, isWrite: bool)
    requires n <= |order|
    requires forall t :: t != tid ==> (t in l1 <==> t in l2)
    requires forall t :: t != tid && t in l1 ==> l1[t] == l2[t]
    ensures ScanConflicts(l1, tid, order, keys, n, addr, size, isWrite) == ScanConflicts(l2, tid, order, keys, n, addr, size, isWrite)
  {
    if n > 0 {
      ScanConflictsIgnoresOwnThread(l1, l2, tid, order, keys, n - 1, addr, size, isWrite);
    }
  }

  function LineOf(ledger: Ledger, idx: nat): CacheLine {
    if idx in ledger then ledger[idx] else map[]
  }

  function ThreadOf(line: CacheLine, tid: nat): ThreadAccesses {
    if tid in line then line[tid] else map[]
  }

  function Max(a: nat, b: nat): nat {
    if a >= b then a else b
  }

  /** The merged entry for `addr`: write promotion and size widening. */
  function Merge(prev: ThreadAccesses, addr: nat, isWrite: bool, size: nat): Access {
    if addr in prev
    then Access(prev[addr].isWrite || isWrite, Max(prev[addr].accessSize, size))
    else Access(isWrite, size)
  }

  /** The line once the caller's thread has a (possibly empty) map in it, as
      `cacheline.accesses[threadIdNum]` leaves it. */
  function Touch(line: CacheLine, tid: nat): (r: CacheLine)
    ensures r.Keys == line.Keys + {tid}
    ensures forall t :: t in line ==> r[t] == line[t]
    ensures r[tid] == ThreadOf(line, tid)
  {
    if tid in line then line else line[tid := map[]]
  }

  /** The ledger after recording one access: the caller's entry for `addr` is
      merged (write promotion, size widening) and nothing else changes. */
  function Record(ledger: Ledger, lineSize: nat, isWrite: bool, addr: nat, size: nat, tid: nat): (r: Ledger)
    requires lineSize > 0
    ensures r.Keys == ledger.Keys + {addr / lineSize}
    ensures tid in r[addr / lineSize] && addr in r[addr / lineSize][tid]
    ensures var prev := ThreadOf(LineOf(ledger, addr / lineSize), tid);
            var e: Access := r[addr / lineSize][tid][addr];
            e.isWrite == (isWrite || (addr in prev && prev[addr].isWrite)) &&
            e.accessSize == (if addr in prev then Max(prev[addr].accessSize, size) else size)
    ensures forall l :: l in ledger && l != addr / lineSize ==> r[l] == ledger[l]
    ensures r[addr / lineSize].Keys == LineOf(ledger, addr / lineSize).Keys + {tid}
    ensures forall t :: t in LineOf(ledger, addr / lineSize) && t != tid ==>
              r[addr / lineSize][t] == LineOf(ledger, addr / lineSize)[t]
    ensures r[addr / lineSize][tid].Keys == ThreadOf(LineOf(ledger, addr / lineSize), tid).Keys + {addr}
    ensures forall a :: a in ThreadOf(LineOf(ledger, addr / lineSize), tid) && a != addr ==>
              r[addr / lineSize][tid][a] == ThreadOf(LineOf(ledger, addr / lineSize), tid)[a]
  {
    var idx := addr / lineSize;
    var line := Touch(LineOf(ledger, idx), tid);
    var mine := line[tid];
    ledger[idx := line[tid := mine[addr := Merge(mine, addr, isWrite, size)]]]
  }

  lemma RecordUnfolds(ledger: Ledger, lineSize: nat, isWrite: bool, addr: nat, size: nat, tid: nat)
    requires lineSize > 0
    ensures var line: CacheLine := Touch(LineOf(ledger, addr / lineSize), tid);
            var mine: ThreadAccesses := line[tid];
            Record(ledger, lineSize, isWrite, addr, size, tid) ==
            ledger[addr / lineSize := line[tid := mine[addr := Merge(mine, addr, isWrite, size)]]]
  {
  }

  /** The call returns at its own thread's position, before the threads after
      it are scanned: the address was already held with a size at least as large. */
  predicate ReturnsEarly(ledger: Ledger, lineSize: nat, addr: nat, size: nat, tid: nat)
    requires lineSize > 0
  {
    var mine := ThreadOf(LineOf(ledger, addr / lineSize), tid);
    addr in mine && mine[addr].accessSize >= size
  }

  function IndexOf(s: seq<nat>, x: nat): (i: nat)
    requires x in s
    ensures i < |s| && s[i] == x && x !in s[..i]
  {
    if s[0] == x then 0 else 1 + IndexOf(s[1..], x)
  }

  /** How many threads of `order` a call compares: those before the caller's
      own thread when it returns early, all of them otherwise. */
  function Scanned(order: seq<nat>, tid: nat, early: bool): (n: nat)
    requires tid in order
    ensures n <= |order|
  {
    if early then IndexOf(order, tid) else |order|
  }

  /** The pairs `recordAccess` pushes for the recorded addresses `others`
      found against the new address `addr`, in the order found. */
  function PairWith(others: seq<nat>, addr: nat): (ps: seq<Pair>)
    ensures |ps| == |others|
    ensures forall i :: 0 <= i < |ps| ==> ps[i] == (others[i], addr)
  {
    seq(|others|, i requires 0 <= i < |others| => (others[i], addr))
  }

  /** `outputInterferences`: one line per pair, both addresses in hex, tab-separated. */
  function InterferenceLine(p: Pair): string {
    ToHex(p.0) + "\t" + ToHex(p.1)
  }

  /** An interference line tokenises back to two hex numerals holding the pair. */
  lemma InterferenceLineRoundTrip(p: Pair)
    ensures |Tokens(InterferenceLine(p))| == 2
    ensures var ts := Tokens(InterferenceLine(p));
            AllHexDigits(ts[0]) && AllHexDigits(ts[1]) && (HexValue(ts[0]), HexValue(ts[1])) == p
  {
    HexIsWord(p.0);
    HexIsWord(p.1);
    assert InterferenceLine(p) == Join([ToHex(p.0), ToHex(p.1)], '\t');
    TokensOfJoin([ToHex(p.0), ToHex(p.1)], '\t');
    HexRoundTrip(p.0);
    HexRoundTrip(p.1);
  }

  /** Every recorded address is filed under its own cache line. */
  predicate Filed(ledger: Ledger, lineSize: nat)
    requires lineSize > 0
  {
    forall l, t, a :: l in ledger && t in ledger[l] && a in ledger[l][t] ==> a / lineSize == l
  }

  /** Some thread holds an entry for `a` in the ledger. */
  predicate Holds(ledger: Ledger, lineSize: nat, a: nat)
    requires lineSize > 0
  {
    exists t :: t in LineOf(ledger, a / lineSize) && a in LineOf(ledger, a / lineSize)[t]
  }

  /** Every reported pair joins two recorded addresses of one cache line. */
  predicate PairsFiled(ledger: Ledger, lineSize: nat, ps: seq<Pair>)
    requires lineSize > 0
  {
    forall i :: 0 <= i < |ps| ==>
      ps[i].0 / lineSize == ps[i].1 / lineSize && Holds(ledger, lineSize, ps[i].0) && Holds(ledger, lineSize, ps[i].1)
  }

  /** Recording files the access under its line, and no entry is ever lost. */
  lemma RecordKeepsFiled(ledger: Ledger, lineSize: nat, isWrite: bool, addr: nat, size: nat, tid: nat)
    requires lineSize > 0 && Filed(ledger, lineSize)
    ensures Filed(Record(ledger, lineSize, isWrite, addr, size, tid), lineSize)
    ensures Holds(Record(ledger, lineSize, isWrite, addr, size, tid), lineSize, addr)
    ensures forall a: nat :: Holds(ledger, lineSize, a) ==> Holds(Record(ledger, lineSize, isWrite, addr, size, tid), lineSize, a)
  {
    var idx := addr / lineSize;
    var old_line := LineOf(ledger, idx);
    var mine := ThreadOf(old_line, tid);
    var r := Record(ledger, lineSize, isWrite, addr, size, tid);
    forall l, t, a | l in r && t in r[l] && a in r[l][t]
      ensures a / lineSize == l
    {
      if l != idx || (t != tid) || a != addr {
        assert l in ledger && t in ledger[l] && a in ledger[l][t];
      }
    }
    forall a: nat | Holds(ledger, lineSize, a)
      ensures Holds(r, lineSize, a)
    {
      var t :| t in LineOf(ledger, a / lineSize) && a in LineOf(ledger, a / lineSize)[t];
      assert t in LineOf(r, a / lineSize) && a in LineOf(r, a / lineSize)[t];
    }
    assert tid in LineOf(r, idx) && addr in LineOf(r, idx)[tid];
  }

  /** Every address the scan pairs with `addr` is recorded in the ledger, in
      the same cache line as `addr`. */
  lemma ScanConflictsFiled(ledger: Ledger, lineSize: nat, tid: nat, order: seq<nat>, keys: map<nat, seq<nat>>, n: nat,
                           addr: nat, size: nat, isWrite: bool, a: nat)
    requires lineSize > 0 && Filed(ledger, lineSize) && n <= |order|
    requires a in ScanConflicts(LineOf(ledger, addr / lineSize), tid, order, keys, n, addr, size, isWrite)
    ensures a / lineSize == addr / lineSize && Holds(ledger, lineSize, a)
  {
    var line := LineOf(ledger, addr / lineSize);
    ScanConflictsSound(line, tid, order, keys, n, addr, size, isWrite, a);
    var j :| 0 <= j < n && order[j] != tid && order[j] in line && a in line[order[j]];
    assert a / lineSize == addr / lineSize;
    assert order[j] in LineOf(ledger, a / lineSize) && a in LineOf(ledger, a / lineSize)[order[j]];
  }

  /** One call of `recordAccess` keeps the ledger filed by line and every
      reported pair between recorded addresses of one line. */
  lemma RecordAccessKeepsFiled(ledger: Ledger, ps: seq<Pair>, lineSize: nat, isWrite: bool, addr: nat, size: nat, tid: nat,
                               found: seq<nat>)
    requires lineSize > 0 && Filed(ledger, lineSize) && PairsFiled(ledger, lineSize, ps)
    requires forall i :: 0 <= i < |found| ==> found[i] / lineSize == addr / lineSize && Holds(ledger, lineSize, found[i])
    ensures Filed(Record(ledger, lineSize, isWrite, addr, size, tid), lineSize)
    ensures PairsFiled(Record(ledger, lineSize, isWrite, addr, size, tid), lineSize, ps + PairWith(found, addr))
  {
    RecordKeepsFiled(ledger, lineSize, isWrite, addr, size, tid);
  }

  /** The ledger and the raw conflict list of one detection pass. */
  class Detector {
    const cachelineSize: nat
    var cachelines: Ledger
    var interferences: seq<Pair>

    constructor (cachelineSizeIn: nat)
      ensures cachelineSize == cachelineSizeIn
      ensures cachelines == map[] && interferences == []
      ensures cachelineSizeIn > 0 ==> Valid()
    {
      cachelineSize := cachelineSizeIn;
      cachelines := map[];
      interferences := [];
    }

    /** The ledger is filed by line, and every reported pair joins two
        recorded addresses of one line. */
    predicate Valid()
      reads this
    {
      cachelineSize > 0 && Filed(cachelines, cachelineSize) && PairsFiled(cachelines, cachelineSize, interferences)
    }

    /** The threads the scan of an access to `addr` by `tid` visits: those
        already in the line, plus `tid`, which the call inserts first. */
    function ThreadsToScan(addr: nat, tid: nat): set<nat>
      reads this
      requires cachelineSize > 0
    {
      LineOf(cachelines, addr / cachelineSize).Keys + {tid}
    }

    /** The line an access to `addr` falls in. */
    function LineFor(addr: nat): CacheLine
      reads this
      requires cachelineSize > 0
    {
      LineOf(cachelines, addr / cachelineSize)
    }

    /** `recordAccess` on parsed fields; `order` is the iteration order of the
        line's thread map and `keys` that of each other thread's address map. */
    method RecordAccess(isWrite: bool, destAddr: nat, accessSize: nat, threadId: nat,
                        order: seq<nat>, keys: map<nat, seq<nat>>)
      requires Valid()
      requires IsEnumeration(order, ThreadsToScan(destAddr, threadId))
      requires KeyOrders(keys, LineFor(destAddr), threadId)
      modifies this
      ensures Valid()
      ensures cachelines == Record(old(cachelines), cachelineSize, isWrite, destAddr, accessSize, threadId)
      ensures interferences == old(interferences) +
              PairWith(ScanConflicts(old(LineFor(destAddr)), threadId, order, keys,
                                     Scanned(order, threadId, ReturnsEarly(old(cachelines), cachelineSize, destAddr, accessSize, threadId)),
                                     destAddr, accessSize, isWrite),
                       destAddr)
    {
      var idx := destAddr / cachelineSize;
      var line := Touch(LineOf(cachelines, idx), threadId);
      ghost var pos := IndexOf(order, threadId);
      assert forall i :: 0 <= i < |order| ==> order[i] in line && (order[i] == threadId ==> i == pos);
      var others, mine := ScanLine(line, threadId, order, pos, keys, destAddr, accessSize, isWrite);
      ScanConflictsIgnoresOwnThread(line, LineOf(cachelines, idx), threadId, order, keys,
        Scanned(order, threadId, ReturnsEarly(cachelines, cachelineSize, destAddr, accessSize, threadId)),
        destAddr, accessSize, isWrite);
      forall i | 0 <= i < |others|
        ensures others[i] / cachelineSize == idx && Holds(cachelines, cachelineSize, others[i])
      {
        ScanConflictsFiled(cachelines, cachelineSize, threadId, order, keys,
          Scanned(order, threadId, ReturnsEarly(cachelines, cachelineSize, destAddr, accessSize, threadId)),
          destAddr, accessSize, isWrite, others[i]);
      }
      RecordAccessKeepsFiled(cachelines, interferences, cachelineSize, isWrite, destAddr, accessSize, threadId, others);
      interferences := interferences + PairWith(others, destAddr);
      cachelines := cachelines[idx := line[threadId := mine]];
      RecordUnfolds(old(cachelines), cachelineSize, isWrite, destAddr, accessSize, threadId);
    }

    /** `outputInterferences`: one line per reported pair, in the order reported. */
    method OutputInterferences() returns (out: seq<string>)
      ensures |out| == |interferences|
      ensures forall i :: 0 <= i < |out| ==> out[i] == InterferenceLine(interferences[i])
    {
      out := [];
      for i := 0 to |interferences|
        invariant |out| == i
        invariant forall k :: 0 <= k < i ==> out[k] == InterferenceLine(interferences[k])
      {
        out := out + [InterferenceLine(interferences[i])];
      }
    }
  }

  /** The loop of `recordAccess` over the threads of one line, in `order`:
      other threads' entries are compared with the new access, the caller's
      own entry is merged, and the loop stops at the caller's thread (at
      `pos`) when the address was already held with a size at least as large.
      Returns the recorded addresses paired with the new one, in the order
      their pairs are pushed, and the caller's new entries. */
  method ScanLine(line: CacheLine, tid: nat, order: seq<nat>, ghost pos: nat, keys: map<nat, seq<nat>>,
                  addr: nat, size: nat, isWrite: bool)
    returns (others: seq<nat>, mine: ThreadAccesses)
    requires tid in line
    requires pos < |order| && order[pos] == tid
    requires forall i :: 0 <= i < |order| ==> order[i] in line && (order[i] == tid ==> i == pos)
    requires KeyOrders(keys, line, tid)
    ensures mine == line[tid][addr := Merge(line[tid], addr, isWrite, size)]
    ensures others ==
            ScanConflicts(line, tid, order, keys, if addr in line[tid] && line[tid][addr].accessSize >= size then pos else |order|,
                          addr, size, isWrite)
  {
    mine := line[tid];
    ghost var updated := line[tid][addr := Merge(line[tid], addr, isWrite, size)];
    ghost var early := addr in line[tid] && line[tid][addr].accessSize >= size;
    others := [];
    var k := 0;
    while k < |order|
      invariant 0 <= k <= |order|
      invariant mine == if k > pos then updated else line[tid]
      invariant k > pos ==> !early
      invariant others == ScanConflicts(line, tid, order, keys, k, addr, size, isWrite)
    {
      var t := order[k];
      if t == tid {
        var held;
        mine, held := Emplace(mine, addr, isWrite, size);
        if held {
          return;
        }
      } else {
        var found := ThreadInterferences(line[t], keys[t], addr, size, isWrite);
        others := others + found;
      }
      k := k + 1;
    }
  }

  /** The caller's own step: insert the access, or merge it into the entry
      already held (write promotion, size widening). `held` reports that the
      entry was already at least as wide, where the scan stops. */
  method Emplace(mine: ThreadAccesses, addr: nat, isWrite: bool, size: nat) returns (r: ThreadAccesses, held: bool)
    ensures r == mine[addr := Merge(mine, addr, isWrite, size)]
    ensures held <==> addr in mine && mine[addr].accessSize >= size
    ensures r[addr].isWrite == (isWrite || (addr in mine && mine[addr].isWrite))
    ensures r[addr].accessSize >= size && (addr in mine ==> r[addr].accessSize >= mine[addr].accessSize)
  {
    if addr !in mine {
      return mine[addr := Access(isWrite, size)], false;
    }
    var e := Access(mine[addr].isWrite || isWrite, mine[addr].accessSize);
    if e.accessSize >= size {
      // already recorded with a size at least as large
      return mine[addr := e], true;
    }
    return mine[addr := e.(accessSize := size)], false;
  }

  /** The inner scan of `recordAccess` over one other thread's entries, in
      the iteration order `keys` of its map. */
  method ThreadInterferences(accs: ThreadAccesses, keys: seq<nat>, addr: nat, size: nat, isWrite: bool) returns (found: seq<nat>)
    requires IsEnumeration(keys, accs.Keys)
    ensures found == ThreadPairs(accs, keys, addr, size, isWrite)
  {
    found := [];
    for i := 0 to |keys|
      invariant found == ThreadPairs(accs, keys[..i], addr, size, isWrite)
    {
      var a := keys[i];
      assert keys[..i + 1][..i] == keys[..i];
      if !Overlaps(a, accs[a].accessSize, addr, size) && (isWrite || accs[a].isWrite) {
        found := found + [a];
      }
    }
    assert keys[..|keys|] == keys;
  }

  /** Any iteration order of a finite set of keys. */
  method Enumerate(s: set<nat>) returns (order: seq<nat>)
    ensures IsEnumeration(order, s)
  {
    order := [];
    var rest := s;
    while rest != {}
      invariant rest <= s
      invariant NoDuplicates(order)
      invariant forall i :: 0 <= i < |order| ==> order[i] in s - rest
      invariant forall x :: x in s - rest ==> x in order
      decreases rest
    {
      var x :| x in rest;
      order := order + [x];
      rest := rest - {x};
    }
  }

  /** Iteration orders for the address maps of every thread of a line. */
  method EnumerateKeys(line: CacheLine, tid: nat) returns (keys: map<nat, seq<nat>>)
    ensures KeyOrders(keys, line, tid)
  {
    keys := map[];
    var rest := line.Keys;
    while rest != {}
      invariant rest <= line.Keys
      invariant forall t :: t in line && t !in rest ==> t in keys && IsEnumeration(keys[t], line[t].Keys)
      decreases rest
    {
      var t :| t in rest;
      var ks := Enumerate(line[t].Keys);
      keys := keys[t := ks];
      rest := rest - {t};
    }
  }
}
