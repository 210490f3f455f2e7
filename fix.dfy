/** The LLVM pass that mitigates false sharing (`Fix583`), without the IR:
    it reads the mapped conflicts, keeps those within a factor 1000 of the
    top priority, aligns globals that conflict with other globals to a cache
    line, and pads local struct globals whose conflicts fall in more than
    one element. */
module Fix {
  import opened Wrappers
  import opened Text
  import opened Numerals
  import opened AccessInfo
  import MapAddr

  /** The pass's cache line size, in bytes (a power of two). */
  const CacheLineSize: nat := 64

  /** Struct padding is switched on. */
  const EnableStructPadding := true

  datatype CacheLineEntry = CacheLineEntry(variableName: string, accessOffset: nat, accessSize: nat)

  /** A pair of accesses that shared a cache line, with its priority. */
  datatype Conflict = Conflict(entry1: CacheLineEntry, entry2: CacheLineEntry, priority: nat)

  // ---------------------------------------------------------------------
  // Reading `mapped_conflicts.out`

  /** `>>` into a 64-bit unsigned field, on one token: a decimal numeral
      whose value fits. */
  function ReadUnsigned(tok: string): (r: Option<nat>)
    ensures r.Some? ==> r.value < TWO_TO_64 && (tok == ToDecimal(r.value) || (|tok| > 1 && tok[0] == '0'))
  {
    if |tok| > 0 && AllDigits(tok) && DecimalValue(tok) < TWO_TO_64 then
      (DecimalIsCanonical(tok); Some(DecimalValue(tok)))
    else None
  }

  /** A digit string without a leading zero is the numeral of its value. */
  lemma {:induction false} DecimalIsCanonical(s: string)
    requires |s| > 0 && AllDigits(s)
    ensures s == ToDecimal(DecimalValue(s)) || (|s| > 1 && s[0] == '0')
  {
    if |s| > 1 && s[0] != '0' {
      var init := s[..|s| - 1];
      DecimalIsCanonical(init);
      assert init[0] == s[0];
      DecimalValueAtLeastTen(init);
      var n := DecimalValue(s);
      assert n / 10 == DecimalValue(init) && n % 10 == DigitVal(s[|s| - 1]);
      DigitCharOfVal(s[|s| - 1]);
      assert s == init + [s[|s| - 1]];
    }
  }

  lemma {:induction false} DecimalValueAtLeastTen(s: string)
    requires |s| > 0 && AllDigits(s) && s[0] != '0'
    ensures |s| > 1 ==> DecimalValue(s) >= 10
    ensures DecimalValue(s) >= 1
  {
    if |s| > 1 {
      assert s[..|s| - 1][0] == s[0];
      DecimalValueAtLeastTen(s[..|s| - 1]);
    } else {
      assert DecimalValue(s) == DigitVal(s[0]);
    }
  }

  lemma DigitCharOfVal(c: char)
    requires IsDigit(c)
    ensures DigitChar(DigitVal(c)) == c
  {
  }

  /** Every value the writer prints reads back. */
  lemma ReadUnsignedOfDecimal(n: nat)
    requires n < TWO_TO_64
    ensures ReadUnsigned(ToDecimal(n)) == Some(n)
  {
    DecimalRoundTrip(n);
  }

  /** `operator>>` for `CacheLineEntry`: name, offset, size. */
  function ReadEntry(ts: seq<string>): (r: Option<CacheLineEntry>)
    requires |ts| >= 3
    ensures r.Some? <==> ReadUnsigned(ts[1]).Some? && ReadUnsigned(ts[2]).Some?
    ensures r.Some? ==> r.value.variableName == ts[0] && Some(r.value.accessOffset) == ReadUnsigned(ts[1]) &&
                        Some(r.value.accessSize) == ReadUnsigned(ts[2])
  {
    match (ReadUnsigned(ts[1]), ReadUnsigned(ts[2]))
    case (Some(off), Some(size)) => Some(CacheLineEntry(ts[0], off, size))
    case _ => None
  }

  /** `operator>>` for `Conflict`: two entries, then the priority. */
  function ReadConflict(ts: seq<string>): (r: Option<Conflict>)
    requires |ts| >= 7
  {
    match (ReadEntry(ts[..3]), ReadEntry(ts[3..6]), ReadUnsigned(ts[6]))
    case (Some(e1), Some(e2), Some(p)) => Some(Conflict(e1, e2, p))
    case _ => None
  }

  /** What `while (in >> conflict)` collects from the tokens of the file:
      seven tokens per conflict, up to the first read that fails. */
  function ReadConflicts(ts: seq<string>): seq<Conflict>
    decreases |ts|
  {
    if |ts| < 7 then []
    else match ReadConflict(ts[..7])
      case None => []
      case Some(c) => [c] + ReadConflicts(ts[7..])
  }

  /** One more conflict read from position `i`. */
  lemma ReadConflictsAt(ts: seq<string>, i: nat)
    requires i + 7 <= |ts|
    ensures ReadConflicts(ts[i..]) ==
              match ReadConflict(ts[i..i + 7])
              case None => []
              case Some(c) => [c] + ReadConflicts(ts[i + 7..])
  {
    assert ts[i..][..7] == ts[i..i + 7];
    assert ts[i..][7..] == ts[i + 7..];
  }

  /** `getPotentialFS`. */
  method GetPotentialFS(ts: seq<string>) returns (conflicts: seq<Conflict>)
    ensures conflicts == ReadConflicts(ts)
  {
    conflicts := [];
    var i := 0;
    while i + 7 <= |ts|
      invariant i <= |ts|
      invariant conflicts + ReadConflicts(ts[i..]) == ReadConflicts(ts)
      decreases |ts| - i
    {
      var c := ReadConflict(ts[i..i + 7]);
      ReadConflictsAt(ts, i);
      if c.None? {
        assert conflicts + [] == conflicts;
        return;
      }
      assert conflicts + ([c.value] + ReadConflicts(ts[i + 7..])) == (conflicts + [c.value]) + ReadConflicts(ts[i + 7..]);
      conflicts := conflicts + [c.value];
      i := i + 7;
    }
  }

  /** The conflict a report line carries. */
  function ConflictOf(ca: ConflictingAccess): Conflict {
    Conflict(CacheLineEntry(ca.var1.name, ca.var1.accessOffset, ca.var1.accessSize),
             CacheLineEntry(ca.var2.name, ca.var2.accessOffset, ca.var2.accessSize),
             ca.priority)
  }

  /** The mapper's entries can be written and read back: word names and
      values that fit in 64 bits. */
  predicate Writable(ca: ConflictingAccess) {
    IsWord(ca.var1.name) && IsWord(ca.var2.name) &&
    ca.var1.accessOffset < TWO_TO_64 && ca.var1.accessSize < TWO_TO_64 &&
    ca.var2.accessOffset < TWO_TO_64 && ca.var2.accessSize < TWO_TO_64 &&
    ca.priority < TWO_TO_64
  }

  function ConflictsOf(cas: seq<ConflictingAccess>): (cs: seq<Conflict>)
    ensures |cs| == |cas|
  {
    if cas == [] then [] else [ConflictOf(cas[0])] + ConflictsOf(cas[1..])
  }

  /** A report line tokenises to its seven fields. */
  lemma TokensOfReportLine(ca: ConflictingAccess)
    requires Writable(ca)
    ensures var ts := Tokens(MapAddr.ReportLine(ca));
            |ts| == 7 && ReadConflict(ts) == Some(ConflictOf(ca))
  {
    var fields := [ca.var1.name, ToDecimal(ca.var1.accessOffset), ToDecimal(ca.var1.accessSize),
                   ca.var2.name, ToDecimal(ca.var2.accessOffset), ToDecimal(ca.var2.accessSize),
                   ToDecimal(ca.priority)];
    DecimalIsWord(ca.var1.accessOffset);
    DecimalIsWord(ca.var1.accessSize);
    DecimalIsWord(ca.var2.accessOffset);
    DecimalIsWord(ca.var2.accessSize);
    DecimalIsWord(ca.priority);
    TokensOfJoin(fields, ' ');
    ReadUnsignedOfDecimal(ca.var1.accessOffset);
    ReadUnsignedOfDecimal(ca.var1.accessSize);
    ReadUnsignedOfDecimal(ca.var2.accessOffset);
    ReadUnsignedOfDecimal(ca.var2.accessSize);
    ReadUnsignedOfDecimal(ca.priority);
    assert fields[..3][1] == fields[1] && fields[..3][2] == fields[2];
    assert fields[3..6][1] == fields[4] && fields[3..6][2] == fields[5];
  }

  /** The pass reads back exactly the conflicts the mapper wrote, in the
      order it wrote them. */
  lemma {:induction false} ReadBackReport(cas: seq<ConflictingAccess>)
    requires forall i :: 0 <= i < |cas| ==> Writable(cas[i])
    ensures ReadConflicts(Tokens(MapAddr.ReportText(cas))) == ConflictsOf(cas)
  {
    if cas != [] {
      var line := MapAddr.ReportLine(cas[0]);
      var rest := MapAddr.ReportText(cas[1..]);
      assert MapAddr.ReportText(cas) == line + ['\n'] + rest;
      TokensSplitAtSpace(line, '\n', rest);
      TokensOfReportLine(cas[0]);
      ReadBackReport(cas[1..]);
      var ts := Tokens(line) + Tokens(rest);
      assert ts[..7] == Tokens(line);
      assert ts[7..] == Tokens(rest);
    }
  }

  // ---------------------------------------------------------------------
  // Sorting by priority

  predicate SortedByPriority(cs: seq<Conflict>) {
    forall i, j :: 0 <= i < j < |cs| ==> cs[i].priority >= cs[j].priority
  }

  predicate SortedDownTo(a: array<Conflict>, n: nat)
    requires n <= a.Length
    reads a
  {
    forall k, l :: 0 <= k < l < n ==> a[k].priority >= a[l].priority
  }

  /** The `std::sort` of the conflicts, highest priority first, as an
      insertion sort. */
  method SortByPriority(a: array<Conflict>)
    modifies a
    ensures SortedByPriority(a[..])
    ensures multiset(a[..]) == multiset(old(a[..]))
  {
    var i := 0;
    while i < a.Length
      invariant 0 <= i <= a.Length
      invariant SortedDownTo(a, i)
      invariant multiset(a[..]) == multiset(old(a[..]))
    {
      InsertLast(a, i);
      i := i + 1;
    }
  }

  /** Moves `a[i]` up into the ordered prefix `a[..i]` by swaps. */
  method InsertLast(a: array<Conflict>, i: nat)
    requires i < a.Length && SortedDownTo(a, i)
    modifies a
    ensures SortedDownTo(a, i + 1)
    ensures multiset(a[..]) == multiset(old(a[..]))
  {
    var j := i;
    while j > 0 && a[j - 1].priority < a[j].priority
      invariant 0 <= j <= i
      invariant forall k, l :: 0 <= k < l <= i && k != j && l != j ==> a[k].priority >= a[l].priority
      invariant forall l :: j < l <= i ==> a[j].priority >= a[l].priority
      invariant multiset(a[..]) == multiset(old(a[..]))
    {
      Swap(a, j - 1, j);
      j := j - 1;
    }
  }

  /** Exchanges two entries of `a`. */
  method Swap(a: array<Conflict>, i: nat, j: nat)
    requires i < j < a.Length
    modifies a
    ensures a[i] == old(a[j]) && a[j] == old(a[i])
    ensures forall k :: 0 <= k < a.Length && k != i && k != j ==> a[k] == old(a[k])
    ensures multiset(a[..]) == multiset(old(a[..]))
  {
    a[i], a[j] := a[j], a[i];
  }

  // ---------------------------------------------------------------------
  // Selecting conflicts

  /** What the pass asks of a global: whether its value type is a struct,
      whether it has local linkage, and the struct's element offsets. */
  datatype GlobalInfo = GlobalInfo(isStruct: bool, localLinkage: bool, elementOffsets: seq<nat>)

  /** The outcome of the selection loop: the globals aligned to a cache
      line, the offsets collected per struct global, and whether the module
      was changed. */
  datatype Selection = Selection(aligned: set<string>, structAccesses: map<string, set<nat>>, changed: bool)

  const NoSelection := Selection({}, map[], false)

  /** The threshold: the first conflict's priority divided by 1000. */
  function Threshold(cs: seq<Conflict>): nat
    requires |cs| > 0
  {
    cs[0].priority / 1000
  }

  /** The number of leading conflicts not below `th`. */
  function LeadingAtLeast(cs: seq<Conflict>, th: nat): (n: nat)
    ensures n <= |cs|
    ensures forall k :: 0 <= k < n ==> cs[k].priority >= th
    ensures n < |cs| ==> cs[n].priority < th
  {
    if cs == [] || cs[0].priority < th then 0 else 1 + LeadingAtLeast(cs[1..], th)
  }

  /** The conflicts the loop handles before it breaks. */
  function Processed(cs: seq<Conflict>): seq<Conflict> {
    if cs == [] then [] else cs[..LeadingAtLeast(cs, Threshold(cs))]
  }

  /** On conflicts sorted by priority, the handled ones are exactly those at
      or above the threshold, and the first one always is. */
  lemma ProcessedIffAboveThreshold(cs: seq<Conflict>, i: nat)
    requires SortedByPriority(cs) && i < |cs|
    ensures i < |Processed(cs)| <==> cs[i].priority >= Threshold(cs)
    ensures |Processed(cs)| > 0
  {
    var n := LeadingAtLeast(cs, Threshold(cs));
    if i >= n {
      assert cs[n].priority >= cs[i].priority;
    }
  }

  /** One conflict: skipped when either global is unknown; a conflict inside
      one struct global with local linkage adds both offsets to that global's
      set; a conflict between two globals aligns both. */
  function Consider(sel: Selection, c: Conflict, globals: map<string, GlobalInfo>): Selection {
    var n1 := c.entry1.variableName;
    var n2 := c.entry2.variableName;
    if n1 !in globals || n2 !in globals then sel
    else if n1 == n2 then
      if globals[n1].isStruct && EnableStructPadding && globals[n1].localLinkage then
        var offs := if n1 in sel.structAccesses then sel.structAccesses[n1] else {};
        sel.(structAccesses := sel.structAccesses[n1 := offs + {c.entry1.accessOffset, c.entry2.accessOffset}])
      else sel
    else sel.(aligned := sel.aligned + {n1, n2}, changed := true)
  }

  function ConsiderAll(cs: seq<Conflict>, globals: map<string, GlobalInfo>): Selection {
    if cs == [] then NoSelection else Consider(ConsiderAll(cs[..|cs| - 1], globals), cs[|cs| - 1], globals)
  }

  /** The selection loop of `runOnModule` over the sorted conflicts. */
  function Phase1(cs: seq<Conflict>, globals: map<string, GlobalInfo>): Selection {
    ConsiderAll(Processed(cs), globals)
  }

  /** Conflict `c` aligns the global `name`. */
  predicate Aligns(c: Conflict, globals: map<string, GlobalInfo>, name: string) {
    c.entry1.variableName in globals && c.entry2.variableName in globals &&
    c.entry1.variableName != c.entry2.variableName &&
    (name == c.entry1.variableName || name == c.entry2.variableName)
  }

  /** Conflict `c` records offset `off` for the struct global `name`. */
  predicate RecordsOffset(c: Conflict, globals: map<string, GlobalInfo>, name: string, off: nat) {
    c.entry1.variableName == name && c.entry2.variableName == name && name in globals &&
    globals[name].isStruct && globals[name].localLinkage &&
    (off == c.entry1.accessOffset || off == c.entry2.accessOffset)
  }

  /** A global is aligned exactly when some handled conflict pairs it with
      another known global; the module counts as changed exactly when some
      global was aligned. */
  lemma {:induction false} AlignedIff(cs: seq<Conflict>, globals: map<string, GlobalInfo>, name: string)
    ensures var sel := ConsiderAll(cs, globals);
            (name in sel.aligned <==> exists i :: 0 <= i < |cs| && Aligns(cs[i], globals, name)) &&
            (sel.changed <==> sel.aligned != {})
  {
    if cs != [] {
      var init := cs[..|cs| - 1];
      var c := cs[|cs| - 1];
      AlignedIff(init, globals, name);
      if exists i :: 0 <= i < |init| && Aligns(init[i], globals, name) {
        var i :| 0 <= i < |init| && Aligns(init[i], globals, name);
        assert cs[i] == init[i];
      }
      if exists i :: 0 <= i < |cs| && Aligns(cs[i], globals, name) {
        var i :| 0 <= i < |cs| && Aligns(cs[i], globals, name);
        if i < |init| {
          assert init[i] == cs[i];
        }
      }
    }
  }

  /** An offset is collected for a global exactly when some handled
      conflict lies inside that struct global with local linkage and has
      the offset at one of its ends. */
  lemma {:induction false} StructAccessIff(cs: seq<Conflict>, globals: map<string, GlobalInfo>, name: string, off: nat)
    ensures var sa := ConsiderAll(cs, globals).structAccesses;
            (name in sa && off in sa[name]) <==> exists i :: 0 <= i < |cs| && RecordsOffset(cs[i], globals, name, off)
  {
    if cs != [] {
      var init := cs[..|cs| - 1];
      StructAccessIff(init, globals, name, off);
      if exists i :: 0 <= i < |init| && RecordsOffset(init[i], globals, name, off) {
        var i :| 0 <= i < |init| && RecordsOffset(init[i], globals, name, off);
        assert cs[i] == init[i];
      }
      if exists i :: 0 <= i < |cs| && RecordsOffset(cs[i], globals, name, off) {
        var i :| 0 <= i < |cs| && RecordsOffset(cs[i], globals, name, off);
        if i < |init| {
          assert init[i] == cs[i];
        }
      }
    }
  }

  /** Offsets are collected only for known struct globals with local linkage,
      and never an empty set. */
  predicate StructsKnown(sa: map<string, set<nat>>, globals: map<string, GlobalInfo>) {
    forall g :: g in sa ==> g in globals && globals[g].isStruct && globals[g].localLinkage && sa[g] != {}
  }

  lemma {:induction false} ConsiderAllStructsKnown(cs: seq<Conflict>, globals: map<string, GlobalInfo>)
    ensures StructsKnown(ConsiderAll(cs, globals).structAccesses, globals)
  {
    if cs != [] {
      ConsiderAllStructsKnown(cs[..|cs| - 1], globals);
    }
  }

  /** The selection loop: the threshold is taken from the first conflict,
      the loop breaks at the first conflict below it, and unknown globals are
      skipped without breaking. */
  method SelectConflicts(cs: seq<Conflict>, globals: map<string, GlobalInfo>)
    returns (aligned: set<string>, structAccesses: map<string, set<nat>>, changed: bool)
    ensures Selection(aligned, structAccesses, changed) == Phase1(cs, globals)
  {
    aligned, structAccesses, changed := {}, map[], false;
    var priorityThreshold: Option<nat> := None;
    var i := 0;
    while i < |cs|
      invariant 0 <= i <= |cs|
      invariant priorityThreshold == if i == 0 then None else Some(Threshold(cs))
      invariant i > 0 ==> i <= LeadingAtLeast(cs, Threshold(cs))
      invariant Selection(aligned, structAccesses, changed) == ConsiderAll(cs[..i], globals)
    {
      var conflict := cs[i];
      if priorityThreshold.None? {
        priorityThreshold := Some(conflict.priority / 1000);
      }
      if conflict.priority < priorityThreshold.value {
        break;
      }
      assert cs[..i + 1][..i] == cs[..i];
      var name1, name2 := conflict.entry1.variableName, conflict.entry2.variableName;
      if name1 !in globals || name2 !in globals {
        i := i + 1;
        continue;
      }
      if name1 == name2 {
        if globals[name1].isStruct && EnableStructPadding && globals[name1].localLinkage {
          var offs := if name1 in structAccesses then structAccesses[name1] else {};
          structAccesses := structAccesses[name1 := offs + {conflict.entry1.accessOffset, conflict.entry2.accessOffset}];
        }
      } else {
        aligned := aligned + {name1, name2};
        changed := true;
      }
      i := i + 1;
    }
  }

  // ---------------------------------------------------------------------
  // Padding a struct

  /** A field of the padded struct: an old element, or an `i8` array. */
  datatype Slot = Element(index: nat) | Padding(bytes: nat)

  /** The padded struct type and the old-to-new element index map. */
  datatype PaddedStruct = PaddedStruct(newTypes: seq<Slot>, newElementByOldElement: map<nat, nat>)

  /** Padding before an element at running offset `align`: up to the next
      cache line boundary when the element conflicts and is misaligned, none
      otherwise. */
  function PadFor(align: nat, conflicting: bool): (p: nat)
    ensures p == 0 || p == CacheLineSize - align % CacheLineSize
    ensures p < CacheLineSize
    ensures p > 0 <==> conflicting && align % CacheLineSize != 0
    ensures conflicting ==> (align + p) % CacheLineSize == 0
  {
    if conflicting && align % CacheLineSize != 0 then (align / CacheLineSize + 1) * CacheLineSize - align else 0
  }

  /** `paddingBytesSoFar` before element `i`. */
  function PaddingBefore(offsets: seq<nat>, conflicting: set<nat>, i: nat): nat
    requires i <= |offsets|
  {
    if i == 0 then 0
    else var p := PaddingBefore(offsets, conflicting, i - 1);
      p + PadFor(offsets[i - 1] + p, i - 1 in conflicting)
  }

  /** The padding inserted just before element `i`. */
  function PadAt(offsets: seq<nat>, conflicting: set<nat>, i: nat): nat
    requires i < |offsets|
  {
    PadFor(offsets[i] + PaddingBefore(offsets, conflicting, i), i in conflicting)
  }

  /** The offset element `i` is taken to have after padding. */
  function NewOffset(offsets: seq<nat>, conflicting: set<nat>, i: nat): nat
    requires i < |offsets|
  {
    offsets[i] + PaddingBefore(offsets, conflicting, i + 1)
  }

  /** `newTypes` after the first `n` elements. */
  function Layout(offsets: seq<nat>, conflicting: set<nat>, n: nat): seq<Slot>
    requires n <= |offsets|
  {
    if n == 0 then []
    else
      var pad := PadAt(offsets, conflicting, n - 1);
      Layout(offsets, conflicting, n - 1) + (if pad > 0 then [Padding(pad)] else []) + [Element(n - 1)]
  }

  /** The number of padding arrays among the first `n` elements. */
  function Paddings(offsets: seq<nat>, conflicting: set<nat>, n: nat): nat
    requires n <= |offsets|
  {
    if n == 0 then 0
    else Paddings(offsets, conflicting, n - 1) + (if PadAt(offsets, conflicting, n - 1) > 0 then 1 else 0)
  }

  /** `newElementByOldElement[i]`. */
  function Position(offsets: seq<nat>, conflicting: set<nat>, i: nat): nat
    requires i < |offsets|
  {
    i + Paddings(offsets, conflicting, i + 1)
  }

  function NewIndex(offsets: seq<nat>, conflicting: set<nat>, n: nat): map<nat, nat>
    requires n <= |offsets|
  {
    map i | 0 <= i < n :: Position(offsets, conflicting, i)
  }

  /** The `PaddedStruct` the constructor builds. */
  function Padded(offsets: seq<nat>, conflicting: set<nat>): PaddedStruct {
    PaddedStruct(Layout(offsets, conflicting, |offsets|), NewIndex(offsets, conflicting, |offsets|))
  }

  /** Every conflicting element lands on a cache line boundary; padding goes
      only before conflicting elements that were misaligned. */
  lemma ConflictingElementsAligned(offsets: seq<nat>, conflicting: set<nat>, i: nat)
    requires i < |offsets|
    ensures i in conflicting ==> NewOffset(offsets, conflicting, i) % CacheLineSize == 0
    ensures PadAt(offsets, conflicting, i) > 0 <==>
            i in conflicting && (offsets[i] + PaddingBefore(offsets, conflicting, i)) % CacheLineSize != 0
  {
  }

  /** The layout holds one slot per element plus one per padding array. */
  lemma {:induction false} LayoutLength(offsets: seq<nat>, conflicting: set<nat>, n: nat)
    requires n <= |offsets|
    ensures |Layout(offsets, conflicting, n)| == n + Paddings(offsets, conflicting, n)
  {
    if n > 0 {
      LayoutLength(offsets, conflicting, n - 1);
    }
  }

  /** Old element `i` sits at its new index. */
  lemma {:induction false} LayoutPositions(offsets: seq<nat>, conflicting: set<nat>, n: nat, i: nat)
    requires i < n <= |offsets|
    ensures Position(offsets, conflicting, i) < |Layout(offsets, conflicting, n)|
    ensures Layout(offsets, conflicting, n)[Position(offsets, conflicting, i)] == Element(i)
  {
    LayoutLength(offsets, conflicting, n);
    LayoutLength(offsets, conflicting, n - 1);
    if i < n - 1 {
      LayoutPositions(offsets, conflicting, n - 1, i);
      PaddingsMonotone(offsets, conflicting, i + 1, n - 1);
    }
  }

  /** Every padding array is between 1 and 63 bytes and is followed by a
      conflicting element. */
  lemma {:induction false} LayoutPaddings(offsets: seq<nat>, conflicting: set<nat>, n: nat, p: nat)
    requires n <= |offsets|
    requires p < |Layout(offsets, conflicting, n)| && Layout(offsets, conflicting, n)[p].Padding?
    ensures var l := Layout(offsets, conflicting, n);
            0 < l[p].bytes < CacheLineSize && p + 1 < |l| && l[p + 1].Element? && l[p + 1].index in conflicting
  {
    var prev := Layout(offsets, conflicting, n - 1);
    if p < |prev| {
      LayoutPaddings(offsets, conflicting, n - 1, p);
    }
  }

  lemma {:induction false} PaddingsMonotone(offsets: seq<nat>, conflicting: set<nat>, m: nat, n: nat)
    requires m <= n <= |offsets|
    ensures Paddings(offsets, conflicting, m) <= Paddings(offsets, conflicting, n)
    decreases n - m
  {
    if m < n {
      PaddingsMonotone(offsets, conflicting, m, n - 1);
    }
  }

  /** Old elements keep their order: new indices strictly increase. */
  lemma NewIndicesIncrease(offsets: seq<nat>, conflicting: set<nat>, i: nat, j: nat)
    requires i < j < |offsets|
    ensures Position(offsets, conflicting, i) < Position(offsets, conflicting, j)
  {
    PaddingsMonotone(offsets, conflicting, i + 1, j + 1);
  }

  /** One element of the constructor's loop adds the new index of element `i`. */
  lemma NewIndexStep(offsets: seq<nat>, conflicting: set<nat>, i: nat, m: map<nat, nat>, n: nat)
    requires i < |offsets|
    requires m == NewIndex(offsets, conflicting, i) && n == Position(offsets, conflicting, i)
    ensures m[i := n] == NewIndex(offsets, conflicting, i + 1)
  {
    assert NewIndex(offsets, conflicting, i + 1).Keys == m[i := n].Keys;
  }

  /** The `PaddedStruct` constructor: walk the elements with the running
      padding total, push a padding array before each misaligned conflicting
      element, then the element, and record its new index. */
  method PadStruct(offsets: seq<nat>, conflictingElements: set<nat>) returns (padded: PaddedStruct)
    ensures padded == Padded(offsets, conflictingElements)
  {
    var newTypes: seq<Slot> := [];
    var newElementByOldElement: map<nat, nat> := map[];
    var paddingBytesSoFar := 0;
    for i := 0 to |offsets|
      invariant newTypes == Layout(offsets, conflictingElements, i)
      invariant paddingBytesSoFar == PaddingBefore(offsets, conflictingElements, i)
      invariant newElementByOldElement == NewIndex(offsets, conflictingElements, i)
    {
      newTypes, paddingBytesSoFar := PushElement(offsets, conflictingElements, i, newTypes, paddingBytesSoFar);
      LayoutLength(offsets, conflictingElements, i + 1);
      NewIndexStep(offsets, conflictingElements, i, newElementByOldElement, |newTypes| - 1);
      newElementByOldElement := newElementByOldElement[i := |newTypes| - 1];
    }
    padded := PaddedStruct(newTypes, newElementByOldElement);
  }

  /** The body of the constructor's loop for element `i`, up to the push of
      the element itself. */
  method PushElement(offsets: seq<nat>, conflictingElements: set<nat>, i: nat, newTypes: seq<Slot>, paddingBytesSoFar: nat)
    returns (newTypes': seq<Slot>, paddingBytesSoFar': nat)
    requires i < |offsets|
    requires newTypes == Layout(offsets, conflictingElements, i)
    requires paddingBytesSoFar == PaddingBefore(offsets, conflictingElements, i)
    ensures newTypes' == Layout(offsets, conflictingElements, i + 1)
    ensures paddingBytesSoFar' == PaddingBefore(offsets, conflictingElements, i + 1)
  {
    newTypes', paddingBytesSoFar' := newTypes, paddingBytesSoFar;
    var alignSoFar := offsets[i] + paddingBytesSoFar;
    if i in conflictingElements && alignSoFar % CacheLineSize != 0 {
      var paddingBytes := (alignSoFar / CacheLineSize + 1) * CacheLineSize - alignSoFar;
      newTypes' := newTypes' + [Padding(paddingBytes)];
      alignSoFar := alignSoFar + paddingBytes;
      paddingBytesSoFar' := paddingBytesSoFar' + paddingBytes;
    }
    newTypes' := newTypes' + [Element(i)];
  }

  // ---------------------------------------------------------------------
  // Phase 2: which structs to pad

  /** The elements containing the collected offsets, with `containing`
      standing for `StructLayout::getElementContainingOffset` of the
      global's type. */
  function Elements(name: string, offs: set<nat>, containing: (string, nat) -> nat): set<nat> {
    set o | o in offs :: containing(name, o)
  }

  /** The structs the pass pads, with their conflicting elements: those
      whose offsets fall in more than one element. */
  function ToPad(sa: map<string, set<nat>>, containing: (string, nat) -> nat): map<string, set<nat>> {
    map g | g in sa && |Elements(g, sa[g], containing)| > 1 :: Elements(g, sa[g], containing)
  }

  /** There are no more elements than offsets, so a padded struct had at
      least two conflicting offsets. */
  lemma {:induction false} ElementsNoMoreThanOffsets(name: string, offs: set<nat>, containing: (string, nat) -> nat)
    ensures |Elements(name, offs, containing)| <= |offs|
    decreases |offs|
  {
    if offs != {} {
      var o :| o in offs;
      var rest := offs - {o};
      ElementsNoMoreThanOffsets(name, rest, containing);
      assert Elements(name, offs, containing) == Elements(name, rest, containing) + {containing(name, o)};
    }
  }

  lemma PaddedStructHadTwoOffsets(sa: map<string, set<nat>>, containing: (string, nat) -> nat, g: string)
    requires g in ToPad(sa, containing)
    ensures g in sa && |sa[g]| >= 2
  {
    ElementsNoMoreThanOffsets(g, sa[g], containing);
  }

  /** The loop over the offsets of one global, inserting each containing
      element into an ordered set. */
  method ConflictingElements(name: string, offs: set<nat>, containing: (string, nat) -> nat) returns (elems: set<nat>)
    ensures elems == Elements(name, offs, containing)
  {
    elems := {};
    var rest := offs;
    while rest != {}
      invariant rest <= offs
      invariant elems + Elements(name, rest, containing) == Elements(name, offs, containing)
      decreases |rest|
    {
      var offset :| offset in rest;
      assert Elements(name, rest, containing) == Elements(name, rest - {offset}, containing) + {containing(name, offset)};
      elems := elems + {containing(name, offset)};
      rest := rest - {offset};
    }
  }

  /** Reading and sorting the conflicts. */
  method ReadSorted(ts: seq<string>) returns (sorted: seq<Conflict>)
    ensures SortedByPriority(sorted) && multiset(sorted) == multiset(ReadConflicts(ts))
  {
    var conflicts := GetPotentialFS(ts);
    var a := new Conflict[|conflicts|](i requires 0 <= i < |conflicts| => conflicts[i]);
    assert a[..] == conflicts;
    SortByPriority(a);
    sorted := a[..];
  }

  /** The second loop of `runOnModule`: for each struct global with
      collected offsets, find the conflicting elements and pad the struct
      when there are more than one. */
  method PadStructs(structAccesses: map<string, set<nat>>, globals: map<string, GlobalInfo>,
                    containing: (string, nat) -> nat, fixOk: string -> bool, changedBefore: bool)
    returns (padded: map<string, PaddedStruct>, changed: bool)
    requires StructsKnown(structAccesses, globals)
    ensures padded.Keys == ToPad(structAccesses, containing).Keys
    ensures forall g :: g in padded ==>
              g in globals && padded[g] == Padded(globals[g].elementOffsets, ToPad(structAccesses, containing)[g])
    ensures changed <==> changedBefore || exists g :: g in padded && fixOk(g)
  {
    var want := ToPad(structAccesses, containing);
    changed := changedBefore;
    padded := map[];
    var todo := structAccesses.Keys;
    while todo != {}
      invariant todo <= structAccesses.Keys
      invariant padded.Keys == want.Keys - todo
      invariant forall g :: g in padded ==> g in globals && padded[g] == Padded(globals[g].elementOffsets, want[g])
      invariant changed <==> changedBefore || exists g :: g in padded && fixOk(g)
      decreases |todo|
    {
      var globalVar :| globalVar in todo;
      var conflictingElements := ConflictingElements(globalVar, structAccesses[globalVar], containing);
      if |conflictingElements| > 1 {
        var p := PadStruct(globals[globalVar].elementOffsets, conflictingElements);
        padded := padded[globalVar := p];
        changed := fixOk(globalVar) || changed;
      }
      todo := todo - {globalVar};
    }
  }

  /** `runOnModule` on the tokens of `mapped_conflicts.out`: read, sort,
      select, then pad every struct whose conflicts fall in more than one
      element. `fixOk` stands for whether rewriting a global's uses
      (`fixGlobalStruct`) succeeds. */
  method RunOnModule(ts: seq<string>, globals: map<string, GlobalInfo>,
                     containing: (string, nat) -> nat, fixOk: string -> bool)
    returns (sorted: seq<Conflict>, sel: Selection, padded: map<string, PaddedStruct>, changed: bool)
    ensures SortedByPriority(sorted) && multiset(sorted) == multiset(ReadConflicts(ts))
    ensures sel == Phase1(sorted, globals)
    ensures padded.Keys == ToPad(sel.structAccesses, containing).Keys
    ensures forall g :: g in padded ==>
              g in globals && padded[g] == Padded(globals[g].elementOffsets, ToPad(sel.structAccesses, containing)[g])
    ensures changed <==> sel.changed || exists g :: g in padded && fixOk(g)
  {
    sorted := ReadSorted(ts);
    var aligned, structAccesses, changed1 := SelectConflicts(sorted, globals);
    sel := Selection(aligned, structAccesses, changed1);
    ConsiderAllStructsKnown(Processed(sorted), globals);
    padded, changed := PadStructs(structAccesses, globals, containing, fixOk, changed1);
  }
}
