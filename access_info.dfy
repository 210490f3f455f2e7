/** The records shared by the mapper: global variables, symbolised accesses,
    named conflicts, and the order-blind key of a raw address pair. */
module AccessInfo {

  /** A named global: its name, start address and size in bytes. */
  datatype GlobalVar = GlobalVar(name: string, startAddr: nat, size: nat)

  /** An access resolved to a variable: the name, the offset inside it and the
      access size. The empty name is the "unresolved" sentinel. */
  datatype MemoryAccess = MemoryAccess(name: string, accessOffset: nat, accessSize: nat)

  /** A named conflict with its accumulated priority. */
  datatype ConflictingAccess = ConflictingAccess(var1: MemoryAccess, var2: MemoryAccess, priority: nat)

  /** A raw address pair. The fields keep the order they were given in; only
      `SameConflict` and `Hash` ignore it. */
  datatype ConflictingAddr = ConflictingAddr(addr1: nat, addr2: nat)

  /** `operator==` on `conflicting_addr`: equal as ordered or as swapped pairs. */
  predicate SameConflict(left: ConflictingAddr, right: ConflictingAddr) {
    (left.addr1 == right.addr1 && left.addr2 == right.addr2) ||
    (left.addr1 == right.addr2 && left.addr2 == right.addr1)
  }

  /** `std::hash<conflicting_addr>`: the XOR of the hashes of both addresses,
      with `h` standing for `std::hash<uint64_t>`. */
  function Hash(k: ConflictingAddr, h: nat -> bv64): bv64 {
    h(k.addr1) ^ h(k.addr2)
  }

  /** The canonical form of a key: the smaller address first. */
  function Canon(k: ConflictingAddr): (c: (nat, nat))
    ensures c.0 <= c.1
    ensures multiset{c.0, c.1} == multiset{k.addr1, k.addr2}
  {
    if k.addr1 <= k.addr2 then (k.addr1, k.addr2) else (k.addr2, k.addr1)
  }

  lemma SameConflictSwapped(a: nat, b: nat)
    ensures SameConflict(ConflictingAddr(a, b), ConflictingAddr(b, a))
    ensures a != b ==> ConflictingAddr(a, b) != ConflictingAddr(b, a)
  {
  }

  lemma SameConflictIsEquivalence(x: ConflictingAddr, y: ConflictingAddr, z: ConflictingAddr)
    ensures SameConflict(x, x)
    ensures SameConflict(x, y) ==> SameConflict(y, x)
    ensures SameConflict(x, y) && SameConflict(y, z) ==> SameConflict(x, z)
  {
  }

  /** Two keys are equal under `==` exactly when their canonical forms are equal,
      so a map keyed by `Canon` behaves as the source's `unordered_map`. */
  lemma SameConflictIffCanon(x: ConflictingAddr, y: ConflictingAddr)
    ensures SameConflict(x, y) <==> Canon(x) == Canon(y)
  {
  }

  /** `==` is equality of the two-element multisets of addresses. */
  lemma SameConflictIffMultiset(x: ConflictingAddr, y: ConflictingAddr)
    ensures SameConflict(x, y) <==> multiset{x.addr1, x.addr2} == multiset{y.addr1, y.addr2}
  {
    var mx, my := multiset{x.addr1, x.addr2}, multiset{y.addr1, y.addr2};
    if mx == my {
      assert mx[x.addr1] == my[x.addr1] && mx[x.addr2] == my[x.addr2];
      assert my[y.addr1] == mx[y.addr1];
    }
  }

  lemma HashIsSymmetric(a: nat, b: nat, h: nat -> bv64)
    ensures Hash(ConflictingAddr(a, b), h) == Hash(ConflictingAddr(b, a), h)
  {
  }

  /** Keys equal under `==` hash alike, as `unordered_map` requires. */
  lemma HashRespectsSameConflict(x: ConflictingAddr, y: ConflictingAddr, h: nat -> bv64)
    requires SameConflict(x, y)
    ensures Hash(x, h) == Hash(y, h)
  {
  }

  lemma HashOfEqualAddresses(a: nat, h: nat -> bv64)
    ensures Hash(ConflictingAddr(a, a), h) == 0
  {
  }

  /** `operator<` on `global_var`: by start address only. */
  predicate GlobalLess(left: GlobalVar, right: GlobalVar) {
    left.startAddr < right.startAddr
  }

  /** Neither is less than the other. */
  predicate GlobalEquivalent(left: GlobalVar, right: GlobalVar) {
    !GlobalLess(left, right) && !GlobalLess(right, left)
  }

  /** `<` is a strict weak order whose equivalence classes are the globals
      sharing a start address, as `std::sort` and `std::lower_bound` need. */
  lemma GlobalLessIsStrictWeakOrder(x: GlobalVar, y: GlobalVar, z: GlobalVar)
    ensures !GlobalLess(x, x)
    ensures GlobalLess(x, y) ==> !GlobalLess(y, x)
    ensures GlobalLess(x, y) && GlobalLess(y, z) ==> GlobalLess(x, z)
    ensures GlobalEquivalent(x, y) && GlobalEquivalent(y, z) ==> GlobalEquivalent(x, z)
    ensures GlobalEquivalent(x, y) <==> x.startAddr == y.startAddr
  {
  }
}
