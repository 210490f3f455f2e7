# False-sharing detection and mitigation pipeline, modelled in Dafny

This project models the core of a three-stage pipeline that finds and removes
false sharing in C/C++ programs:

1. **Detection** (`pin/detect`). A memory trace (one access per line: program
   counter, read or write, destination address, size, thread id, value) is read
   line by line. Each access is filed under its cache line (`address / line size`)
   in a ledger: for each line, each thread's accesses, merged per address with
   write promotion and size widening. An access that does not overlap an entry
   of another thread on the same line, where at least one of the two is a write,
   produces an interference pair. The pairs are written as two hex numbers per line.
2. **Mapping** (`pin/MapAddr`). Raw addresses are resolved to named globals with a
   `lower_bound` search over the table of globals sorted by start address.
   Realized and potential conflict lines are then folded into a table keyed by the
   order-blind address pair, accumulating priorities. The table is written out as
   `name offset size name offset size priority` lines.
3. **Fixing** (`src/fix`, an LLVM module pass). The mapped conflicts are read back
   and sorted by decreasing priority. Those within a factor 1000 of the top
   priority are kept. Two distinct globals that conflict are aligned to a
   64-byte cache line. Conflicts inside one local struct global are collected per
   offset. A struct whose conflicting offsets fall in more than one element is
   rebuilt with `i8` padding arrays, so that each conflicting element starts on a
   cache-line boundary.

Modules, one per source component:

- `Wrappers`: `Option` and `Result`.
- `Text`: `>>` tokenising and joining.
- `Numerals`: decimal and hex numerals, `std::stoll`.
- `AccessInfo`: `AccessInfo.h/.cpp`.
- `InterferenceDetector`: the `InterferenceDetector` class.
- `Detect`: `detect.cpp`.
- `MapAddr`: `MapAddr.cpp`.
- `Fix`: `fix.cpp`.

How the source's state is modelled:

- The detector is a Dafny `class` whose `cachelines` ledger and `interferences`
  list are updated in place by `RecordAccess`.
- The two sorts are in-place insertion sorts on `array`s.
- Every loop of the source is a `method` with a loop, proved equal to a function
  that specifies it, and the properties are proved about that function.

The detector's header (`pin/detect/InterferenceDetector.h:38`) declares
`interferences` as an `unordered_map`. The implementation
(`pin/detect/InterferenceDetector.cpp:77`) appends to it with `push_back`, as a
vector. The model follows the implementation: a sequence in the order the pairs
are found.

The pairs of a whole trace are related to the trace itself by two predicates of
`Detect`. `PairsSound`: each pair `(a, d)` comes from some access `j` to `d`, and
`a` is an address that another thread accessed before `j`, on the same cache line.
That thread's merged entry for `a` does not overlap the access, and one of the two
is a write. `PairsComplete`: every such interference of an access that did not
return early (its own thread's entry already covered its size) is among the pairs.

## Model

| member | source | states |
|---|---|---|
| InterferenceDetector.RwFlag | pin/detect/InterferenceDetector.cpp:20-28 | succeeds exactly on "W", "w", "R", "r"; the result is a write iff the flag is W/w; anything else fails with "Invalid rw value: " + the flag |
| InterferenceDetector.Touch | pin/detect/InterferenceDetector.cpp:43-44 | indexing the line creates the caller's (possibly empty) thread map and leaves every other thread as it was |
| InterferenceDetector.Record | pin/detect/InterferenceDetector.cpp:42-58 | the ledger after one access: only the line `addr / lineSize` changes; in it only the caller's entry for `addr` changes, a write if either access was, with the larger of the two sizes |
| InterferenceDetector.RecordUnfolds | pin/detect/InterferenceDetector.cpp:42-58 | the ledger update is the nested map update: touch the line, touch the thread, store the merged entry |
| InterferenceDetector.Emplace | pin/detect/InterferenceDetector.cpp:47-58 | `emplace` or merge; the scan stops early exactly when the entry was already held with a size at least as large; a write is never demoted and the size never shrinks |
| InterferenceDetector.ThreadPairsMembers | pin/detect/InterferenceDetector.cpp:66-78 | the inner loop yields an address iff it is a visited entry that does not overlap the new access and at least one of the two is a write |
| InterferenceDetector.ThreadPairsDistinct | pin/detect/InterferenceDetector.cpp:66-78 | with distinct keys, the inner loop yields each address at most once |
| InterferenceDetector.ThreadPairsOfEnumeration | pin/detect/InterferenceDetector.cpp:66-78 | over any iteration order of the thread's map, the inner loop yields, as a multiset, exactly the set of interfering entries |
| InterferenceDetector.DistinctCount | pin/detect/InterferenceDetector.cpp:66-78 | in a sequence without duplicates each element occurs once |
| InterferenceDetector.ThreadInterferences | pin/detect/InterferenceDetector.cpp:66-78 | the inner loop over one other thread's entries computes the specified pair list |
| InterferenceDetector.ScanConflictsSound | pin/detect/InterferenceDetector.cpp:45-78 | every address the scan pairs with the new one belongs to a scanned thread other than the caller, does not overlap the new access, and at least one of the two is a write |
| InterferenceDetector.ScanConflictsComplete | pin/detect/InterferenceDetector.cpp:45-78 | every interfering entry of a scanned other thread is paired with the new address |
| InterferenceDetector.ScanConflictsIgnoresOwnThread | pin/detect/InterferenceDetector.cpp:45-46 | the scan's result does not depend on the caller's own entries |
| InterferenceDetector.ScanLine | pin/detect/InterferenceDetector.cpp:45-79 | the thread loop merges the caller's entry, and stops at the caller's position when the entry was already at least as wide; the pairs it finds are those of the threads scanned up to then |
| InterferenceDetector.IndexOf | pin/detect/InterferenceDetector.cpp:45-46 | the first position of the caller's thread in the iteration order |
| InterferenceDetector.Scanned | pin/detect/InterferenceDetector.cpp:54-55 | an early return scans only the threads before the caller's; otherwise all of them |
| InterferenceDetector.PairWith | pin/detect/InterferenceDetector.cpp:77 | each found address becomes the pair (recorded address, new address), in order |
| InterferenceDetector.RecordKeepsFiled | pin/detect/InterferenceDetector.cpp:42-58 | recording files the access under its own line, and never loses an entry |
| InterferenceDetector.ScanConflictsFiled | pin/detect/InterferenceDetector.cpp:42-43 | every address paired with `addr` is recorded in the ledger, on `addr`'s line |
| InterferenceDetector.RecordAccessKeepsFiled | pin/detect/InterferenceDetector.cpp:33-80 | one call keeps the ledger filed by line, and keeps every reported pair between two recorded addresses of one line |
| InterferenceDetector.Detector.constructor | pin/detect/InterferenceDetector.cpp:30-31 | stores the line size; the ledger and the pair list start empty; with a positive size the invariant holds |
| InterferenceDetector.Detector.RecordAccess | pin/detect/InterferenceDetector.cpp:33-80 | the ledger becomes `Record` of the old one, and exactly the pairs of the scan are appended, cut off at an early return; the invariant is kept |
| InterferenceDetector.InterferenceLineRoundTrip | pin/detect/InterferenceDetector.cpp:84-87 | an output line tokenises back to two hex numerals holding the pair |
| InterferenceDetector.Detector.OutputInterferences | pin/detect/InterferenceDetector.cpp:82-88 | one hex line per pair, in the order the pairs were found |
| InterferenceDetector.Enumerate | pin/detect/InterferenceDetector.cpp:45 | picks an iteration order listing every key exactly once |
| InterferenceDetector.EnumerateKeys | pin/detect/InterferenceDetector.cpp:66 | picks an iteration order for every other thread's address map |
| Detect.Extract | pin/detect/detect.cpp:53-61 | six or more tokens fill the six column variables; a failed extraction leaves that variable and the later ones as the previous line left them |
| Detect.ExtraTokensIgnored | pin/detect/detect.cpp:61 | tokens after the sixth are never read |
| Detect.DecodeAccess | pin/detect/InterferenceDetector.cpp:37-40 | parses rw, then dest in base 16, then size and thread id in base 10; the first failure is the error message; it succeeds iff all four parse |
| Detect.DecodeIgnoresPcAndVal | pin/detect/InterferenceDetector.cpp:33-40 | the program counter and value columns never affect the access |
| Detect.Classify | pin/detect/detect.cpp:62-76 | a line is skipped iff `pc` starts with '#'; otherwise it is malformed iff it has fewer than six tokens, rejected iff its access fails to parse, and recorded iff it parses; reports carry the 0-based line number |
| Detect.RunOutcome | pin/detect/detect.cpp:57-81 | line `i` is classified on its own tokens and the variables the earlier lines left, with the counter at `i + 1` |
| Detect.CommentLines | pin/detect/detect.cpp:61-64 | a line is skipped iff the `pc` variable starts with '#'; a blank line keeps the previous `pc` |
| Detect.ShortLines | pin/detect/detect.cpp:65-69 | a short non-comment line is reported with 0-based number `i` and the variables as they stand |
| Detect.DataLines | pin/detect/detect.cpp:71-76 | a full non-comment line reaches the detector iff its fields parse; otherwise it is reported with the parse error |
| Detect.Accepted | pin/detect/detect.cpp:71-76 | the accesses handed to the detector, no more than there are lines |
| Detect.AcceptedInOrder | pin/detect/detect.cpp:58-81 | each recorded line reaches the detector once, after the recorded lines before it |
| Detect.AcceptedPrefix | pin/detect/detect.cpp:58-81 | the accesses of a prefix of the file are a prefix of the accesses of the file |
| Detect.EntryOfRecord | pin/detect/InterferenceDetector.cpp:42-58 | one access changes only its own thread's entry for its own address |
| Detect.RecordAllEntry | pin/detect/InterferenceDetector.cpp:42-58 | after a whole trace, each (thread, address) entry is the merge of that thread's accesses to that address alone |
| Detect.EntryAfterHolds | pin/detect/InterferenceDetector.cpp:47-48 | an entry exists iff the thread accessed the address |
| Detect.EntryAfterWrite | pin/detect/InterferenceDetector.cpp:51-52 | the entry is a write iff one of the thread's accesses to it was a write |
| Detect.EntryAfterSize | pin/detect/InterferenceDetector.cpp:54-58 | the entry's size is the largest size among those accesses |
| Detect.RunStep | pin/detect/detect.cpp:58-81 | one more line extends the printed log, and the accepted accesses, by that line's outcome |
| Detect.LogAppend | pin/detect/detect.cpp:66-74 | the printed log of one more outcome is the old log plus that outcome's report |
| Detect.AcceptedAppend | pin/detect/detect.cpp:71-76 | one more outcome adds its access only when it is recorded |
| Detect.RecordAllAppend | pin/detect/detect.cpp:72 | recording one more access applies `Record` once more |
| Detect.SoundPairAccesses | pin/detect/InterferenceDetector.cpp:42-78 | a reported pair joins an access with an earlier access of another thread to the same cache line; the entry of that thread overlaps no accessed byte; at least one side wrote; the two addresses differ |
| Detect.ExtendKeepsAccess | pin/detect/detect.cpp:58-81 | a later access changes neither whether an earlier access interferes nor whether it returned early |
| Detect.LineEntry | pin/detect/InterferenceDetector.cpp:42-58 | an entry in the ledger's line for an address is the merge of that thread's accesses, on the same line |
| Detect.TraceStepSound | pin/detect/InterferenceDetector.cpp:45-78 | the pairs one access appends are sound for the trace extended by it, whatever threads were scanned |
| Detect.TraceStepComplete | pin/detect/InterferenceDetector.cpp:45-78 | when an access does not return early, the scan appends every interference of that access |
| Detect.NothingAcceptedNothingReported | pin/detect/detect.cpp:58-83 | a trace without recorded accesses reports no pair |
| Detect.ProcessLine | pin/detect/detect.cpp:59-80 | one loop iteration: the variables become `Extract` of the line; the report is the line's outcome; the ledger records exactly a recorded access; the pairs are unchanged unless the line is recorded; otherwise exactly the scan's pairs are appended, for the thread and address orders returned, with the scan stopping where `recordAccess` returns early |
| Detect.TraceLine | pin/detect/detect.cpp:59-80 | one loop iteration keeps the ledger and sound, complete pairs of the accesses recorded so far |
| Detect.RunLines | pin/detect/detect.cpp:55-81 | after the loop, the printed log and the ledger are those of the line-by-line run; every pair is sound, and the pairs are complete for the accesses that did not return early |
| Detect.ProcessTrace | pin/detect/detect.cpp:40-85 | the printed log and the ledger are those of the line-by-line run; the output file holds one hex line per pair, in order; the pairs are sound and complete as for `RunLines`; an empty trace gives an empty file |
| Detect.ToUnsigned | pin/detect/detect.cpp:21-23 | storing a `long long` in a `uint64_t` keeps non-negative values and adds 2^64 to negative ones |
| Detect.ParseCacheLineSize | pin/detect/detect.cpp:22-33 | an accepted argument is the decimal numeral of the value, below 2^64 |
| Detect.ParseCacheLineSizeExact | pin/detect/detect.cpp:22-33 | the check accepts exactly the shortest numerals of the values up to `LLONG_MAX`, returning their value |
| Detect.ParseCacheLineSizeExamples | pin/detect/detect.cpp:22-33 | "064", "+64" and "-64" are rejected; "64" and also "0" are accepted |
| Detect.LeadingZeroRejected | pin/detect/detect.cpp:29-33 | any numeral with a leading zero other than "0" is rejected |
| Detect.CheckedCacheLineSize | pin/detect/detect.cpp:22-33 | the corrected check: accepted iff the as-written check accepts a positive value |
| Detect.DetectMain | pin/detect/detect.cpp:14-38 | `main` with the corrected size check (`CheckedCacheLineSize`), not as written: a rejected argument ends the run with its message; otherwise the printed log is that of the trace run, and the output file holds the lines of a sound and complete list of pairs, empty when no access was recorded |
| AccessInfo.Canon | pin/MapAddr/AccessInfo.h:23-34 | the canonical key holds the same two addresses, the smaller first |
| AccessInfo.SameConflictSwapped | pin/MapAddr/AccessInfo.cpp:3-6 | a pair equals its swap under `==`, though not as a record |
| AccessInfo.SameConflictIsEquivalence | pin/MapAddr/AccessInfo.cpp:3-6 | `==` on address pairs is reflexive, symmetric and transitive |
| AccessInfo.SameConflictIffCanon | pin/MapAddr/AccessInfo.cpp:3-6 | two pairs are equal under `==` iff their canonical keys are equal |
| AccessInfo.SameConflictIffMultiset | pin/MapAddr/AccessInfo.cpp:3-6 | `==` is equality of the two-element multisets of addresses |
| AccessInfo.HashIsSymmetric | pin/MapAddr/AccessInfo.h:28-34 | the XOR hash ignores the order of the addresses |
| AccessInfo.HashRespectsSameConflict | pin/MapAddr/AccessInfo.h:28-34 | pairs equal under `==` hash alike, as an unordered map needs |
| AccessInfo.HashOfEqualAddresses | pin/MapAddr/AccessInfo.h:28-34 | a pair of equal addresses hashes to 0 |
| AccessInfo.GlobalLessIsStrictWeakOrder | pin/MapAddr/AccessInfo.cpp:8-10 | `<` on globals is a strict weak order whose equivalence is sharing a start address |
| MapAddr.FirstNotBelowSplits | pin/MapAddr/MapAddr.cpp:17-19 | every entry before the lower bound starts below the address; the entry at it, if any, does not |
| MapAddr.FirstNotBelowUnique | pin/MapAddr/MapAddr.cpp:17-19 | the lower bound is the only index that splits a sorted table that way |
| MapAddr.LowerBound | pin/MapAddr/MapAddr.cpp:17-19 | bisection returns the lower bound on a sorted table |
| MapAddr.Candidate | pin/MapAddr/MapAddr.cpp:21-29 | the entry tested is always inside the table |
| MapAddr.NamedAccessSound | pin/MapAddr/MapAddr.cpp:15-39 | the result is either "unresolved" or names an entry containing the address, at offset `addr - start` with size 1; addresses below the first start are unresolved; an exact start match of a non-empty entry gives offset 0 |
| MapAddr.PastEveryStart | pin/MapAddr/MapAddr.cpp:21-23 | an address past every start is tested against the last entry only |
| MapAddr.AddrToNamedAccess | pin/MapAddr/MapAddr.cpp:15-39 | the bisection resolver computes `NamedAccess` |
| MapAddr.LinearResolve | pin/MapAddr/MapAddr.cpp:15-39 | the reference scan is unresolved only when no entry contains the address, or the only containing ones are unnamed and start at it |
| MapAddr.LinearResolveFinds | pin/MapAddr/MapAddr.cpp:15-39 | the scan returns the first containing entry |
| MapAddr.LinearResolveMisses | pin/MapAddr/MapAddr.cpp:15-39 | with no containing entry the scan is unresolved |
| MapAddr.ResolveAgreesWithScan | pin/MapAddr/MapAddr.cpp:15-39 | on strictly increasing, non-overlapping regions the bisection resolver agrees with the scan on every address |
| MapAddr.ZeroSizeEntryShadows | pin/MapAddr/MapAddr.cpp:21-35 | on a sorted table, a zero-size entry sharing a start with the next entry hides it from the resolver |
| MapAddr.SortGlobals | pin/MapAddr/MapAddr.cpp:69 | the table is sorted by start address and is a permutation of the input |
| MapAddr.InsertLast | pin/MapAddr/MapAddr.cpp:69 | one insertion step extends the sorted prefix and permutes the array |
| MapAddr.Swap | pin/MapAddr/MapAddr.cpp:69 | exchanges two entries and nothing else |
| MapAddr.Resolve | pin/MapAddr/MapAddr.cpp:72-82 | a line is kept iff both ends resolve to named globals; a kept line carries both resolved accesses and its priority |
| MapAddr.StepAt | pin/MapAddr/MapAddr.cpp:83-87 | one line inserts its conflict under a new key, bumps an existing key, and leaves every other key alone |
| MapAddr.HitsResolveToKey | pin/MapAddr/MapAddr.cpp:72-88 | every line counted for a key resolves, and has that key |
| MapAddr.Hits | pin/MapAddr/MapAddr.cpp:72-88 | the lines counted for a key are among the lines read |
| MapAddr.BumpsAppend | pin/MapAddr/MapAddr.cpp:83-87 | the bumps of one more line add that line's bump |
| MapAddr.BumpsTail | pin/MapAddr/MapAddr.cpp:83-87 | the same for the lines after the first |
| MapAddr.BumpsCount | pin/MapAddr/MapAddr.cpp:84 | in the realized loop each repeated line adds exactly 1 |
| MapAddr.FoldDomain | pin/MapAddr/MapAddr.cpp:72-107 | after a loop a key is present iff it was before, or some kept line has that key |
| MapAddr.FoldPresent | pin/MapAddr/MapAddr.cpp:83-87 | an existing entry keeps its names and gains the bumps of every kept line with its key |
| MapAddr.FoldNew | pin/MapAddr/MapAddr.cpp:83-87 | a new entry names what the first kept line with its key names, with that line's priority plus the bumps of the later ones |
| MapAddr.NewEntryStep | pin/MapAddr/MapAddr.cpp:83-87 | one line keeps the new-entry description |
| MapAddr.RealizedEntry | pin/MapAddr/MapAddr.cpp:72-88 | after the realized loop, a key is present iff some kept line has it; its names are the first such line's, and its priority is that line's plus one per later line |
| MapAddr.FoldMonotone | pin/MapAddr/MapAddr.cpp:72-107 | entries are never removed or renamed, and their priorities never decrease |
| MapAddr.SwappedLinesShareKey | pin/MapAddr/AccessInfo.cpp:3-6 | lines (a, b) and (b, a) accumulate under one key |
| MapAddr.Accumulate | pin/MapAddr/MapAddr.cpp:72-107 | the loop computes the fold of its lines |
| MapAddr.AccumulateLine | pin/MapAddr/MapAddr.cpp:73-87 | the loop body computes one step |
| MapAddr.ResolvedNamesAreWords | pin/MapAddr/MapAddr.cpp:31-35 | with word names in the table, a kept line names two words |
| MapAddr.FoldNamesAreWords | pin/MapAddr/MapAddr.cpp:72-107 | every entry of the table names two globals by words, so the report tokenises |
| MapAddr.MapAddrMain | pin/MapAddr/MapAddr.cpp:41-117 | sorts the globals (a permutation, ordered by start), runs the realized loop and then the potential loop, and reports one line per entry |
| Fix.ReadUnsigned | src/fix/fix.cpp:45-47 | an accepted token is a decimal numeral of a value below 2^64: that value's shortest numeral, or one with leading zeros |
| Fix.DecimalIsCanonical | src/fix/fix.cpp:45-47 | a digit string is its value's shortest numeral unless it has a leading zero |
| Fix.ReadUnsignedOfDecimal | src/fix/fix.cpp:45-47 | every value below 2^64 the mapper writes reads back |
| Fix.ReadEntry | src/fix/fix.cpp:45-47 | an entry is read iff offset and size read; the fields are the tokens' values |
| Fix.ReadConflictsAt | src/fix/fix.cpp:241-243 | the read loop takes seven tokens and either stops or goes on after them |
| Fix.GetPotentialFS | src/fix/fix.cpp:236-246 | the read loop collects seven tokens per conflict up to the first failed read |
| Fix.ConflictsOf | src/fix/fix.cpp:45-50 | one conflict per report line |
| Fix.TokensOfReportLine | src/fix/fix.cpp:45-50 | a mapper report line tokenises to seven fields that read as its conflict |
| Fix.ReadBackReport | src/fix/fix.cpp:236-246 | the pass reads back exactly the conflicts the mapper wrote, in the order they were written |
| Fix.SortByPriority | src/fix/fix.cpp:253-255 | the conflicts end up in non-increasing priority order and are a permutation of those read |
| Fix.InsertLast | src/fix/fix.cpp:253-255 | one insertion step extends the sorted prefix and permutes the array |
| Fix.Swap | src/fix/fix.cpp:253-255 | exchanges two entries and nothing else |
| Fix.LeadingAtLeast | src/fix/fix.cpp:263-269 | the leading conflicts handled before the break are those at or above the threshold, up to the first one below it |
| Fix.ProcessedIffAboveThreshold | src/fix/fix.cpp:261-269 | on sorted conflicts, a conflict is handled iff its priority is at least the top priority / 1000; the first one always is |
| Fix.AlignedIff | src/fix/fix.cpp:270-294 | a global is aligned iff some handled conflict pairs it with another known global; the module is marked changed iff some global was aligned |
| Fix.StructAccessIff | src/fix/fix.cpp:270-287 | an offset is collected for a global iff some handled conflict lies inside that local struct global and has that offset at one end |
| Fix.ConsiderAllStructsKnown | src/fix/fix.cpp:280-287 | offsets are collected only for known local struct globals, and never an empty set |
| Fix.SelectConflicts | src/fix/fix.cpp:261-295 | the selection loop (threshold from the first conflict, break below it, skip unknown globals) computes `Phase1` |
| Fix.PadFor | src/fix/fix.cpp:68-75 | padding is 0 or up to the next 64-byte boundary, under 64; it is non-zero iff the element conflicts and is misaligned; a conflicting element ends up aligned |
| Fix.ConflictingElementsAligned | src/fix/fix.cpp:67-79 | every conflicting element's new offset is a multiple of 64; padding goes only before misaligned conflicting elements |
| Fix.LayoutLength | src/fix/fix.cpp:67-79 | the new struct has one field per old element plus one per padding array |
| Fix.LayoutPositions | src/fix/fix.cpp:77-78 | the recorded new index of each old element holds that element |
| Fix.LayoutPaddings | src/fix/fix.cpp:69-75 | every padding array has 1 to 63 bytes and comes just before a conflicting element |
| Fix.PaddingsMonotone | src/fix/fix.cpp:67-79 | the number of padding arrays only grows along the struct |
| Fix.NewIndicesIncrease | src/fix/fix.cpp:77-78 | old elements keep their order in the new struct |
| Fix.NewIndexStep | src/fix/fix.cpp:78 | one element adds its new index to the map |
| Fix.PadStruct | src/fix/fix.cpp:57-86 | the constructor's loop builds the specified padded layout and index map |
| Fix.PushElement | src/fix/fix.cpp:68-77 | one loop iteration extends the layout and the running padding |
| Fix.ElementsNoMoreThanOffsets | src/fix/fix.cpp:303-306 | there are no more conflicting elements than collected offsets |
| Fix.PaddedStructHadTwoOffsets | src/fix/fix.cpp:303-307 | a struct that is padded had at least two conflicting offsets |
| Fix.ConflictingElements | src/fix/fix.cpp:303-306 | the loop collects the element containing each offset |
| Fix.ReadSorted | src/fix/fix.cpp:252-255 | the conflicts read, sorted by non-increasing priority |
| Fix.PadStructs | src/fix/fix.cpp:297-317 | exactly the structs whose offsets fall in more than one element are padded, with their conflicting elements; changed iff it was before or some padded struct's rewrite succeeded |
| Fix.RunOnModule | src/fix/fix.cpp:250-319 | reads and sorts the conflicts, selects by `Phase1`, pads exactly the structs with several conflicting elements; the result is changed iff something was aligned or a padded struct was rewritten |
| Text.WordLen | pin/detect/detect.cpp:61 | the longest whitespace-free prefix of the line |
| Text.TokensAreWords | pin/detect/detect.cpp:61 | every token `>>` extracts is non-empty and free of whitespace |
| Text.TokensOfWord | pin/MapAddr/MapAddr.cpp:113-115 | a single word tokenises to itself |
| Text.TokensSplitAtSpace | pin/MapAddr/MapAddr.cpp:113-115 | a whitespace character splits the token stream in two |
| Text.TokensOfJoin | pin/MapAddr/MapAddr.cpp:113-115 | words joined by a space tokenise back to the words |
| Numerals.ToDecimal | pin/detect/detect.cpp:29 | `to_string` gives a shortest digit string with no sign |
| Numerals.DecimalRoundTrip | pin/detect/detect.cpp:29 | the numeral reads back as its value |
| Numerals.DecimalIsWord | pin/MapAddr/MapAddr.cpp:113-115 | a decimal numeral is a single token |
| Numerals.ToHex | pin/detect/InterferenceDetector.cpp:85-86 | `std::hex` output is a non-empty string of lower-case hex digits |
| Numerals.HexRoundTrip | pin/detect/InterferenceDetector.cpp:85-86 | the hex numeral reads back as its value |
| Numerals.HexIsWord | pin/detect/InterferenceDetector.cpp:85-86 | a hex numeral is a single token |
| Numerals.SkipSpaces | pin/detect/detect.cpp:23 | `stoll` skips leading whitespace only |
| Numerals.DigitRun | pin/detect/detect.cpp:23 | `stoll` reads the longest run of digits |
| Numerals.DigitRunOfDigits | pin/detect/detect.cpp:23 | on a digit string the run is the whole string |
| Numerals.StollOfDecimal | pin/detect/detect.cpp:23-29 | `stoll` reads back what `to_string` printed when it fits in a `long long`, and fails otherwise |

## Left out

- Detect.DetectMain: models `main` with the corrected size check, which also rejects
  "0" with "Cache line size must be positive: " followed by the argument. The source
  prints no such message; the as-written check is `Detect.ParseCacheLineSize` (see
  Findings).
- Detect.RunLines: completeness of the pairs is promised only for accesses that do not
  return early (`InterferenceDetector.cpp:54-55`). An access that returns early still
  appends the pairs of the threads scanned before its own. Which threads those are
  depends on the `unordered_map` order, so these pairs are sound but not all required.
  The same holds for `Detect.ProcessTrace`, `Detect.TraceLine` and `Detect.DetectMain`.
- File and console I/O: opening files, usage messages, argument counts, progress
  and diagnostic printing (`detect.cpp:78-80`, the `errs()` lines of `fix.cpp`).
  Inputs are given as sequences of lines or tokens, and outputs returned as sequences
  of lines.
- `std::stoull` in `string_to_uint64` is a parser parameter (`Detect.Parser`). Its
  `None` stands for the exception. The model does not fix which strings it accepts.
- 64-bit wrap-around of `addr + size` in the overlap test and of `start + size` in the
  resolver is not modelled: addresses and sizes are unbounded naturals.
- The iteration orders of the detector's `unordered_map`s are parameters (any
  enumeration of the keys). The order of the mapper's report is left open:
  `MapAddr.Report` is a set of lines.
- The mapper's realized-conflicts reader expects three tokens per line (two
  addresses and a priority) while the detector writes two. The model reads both
  files as (address, address, priority) triples, already parsed from hex, and does
  not model how `>>` pairs up tokens on the two-column file.
- MapAddr.MapAddrMain: requires a non-empty globals table when there are conflict
  lines, since `addr_to_named_access` dereferences into an empty vector otherwise.
- Priorities are naturals: a negative `int64_t` priority in the input is not modelled.
- MapAddr.Step: the priority sums (`MapAddr.cpp:84` and `:103`) are unbounded naturals.
  The source adds to a `uint64_t` (`AccessInfo.h:20`), which wraps modulo 2^64 on
  overflow. The same holds for `MapAddr.Bump`, `MapAddr.Fold` and `MapAddr.Bumps`.
- MapAddr.FoldPresent: the sum of the bumps is not reduced modulo 2^64.
- MapAddr.FoldNew: the sum of the priority and the bumps is not reduced modulo 2^64.
- MapAddr.FoldMonotone: priorities never decrease only because the sums do not wrap.
  In the source a sum past 2^64 - 1 wraps to a smaller value.
- The reading of the globals file (`MapAddr.cpp:63-68`) and its hex parsing are not
  modelled; the table is an input.
- `std::sort` is not stable and its tie order is unspecified: the two sorts promise
  ordering and permutation only, so any order of equal keys is allowed.
- Fix.ReadUnsigned: reads a whole token as a decimal numeral below 2^64. `istream`'s
  acceptance of a leading sign, the partial read of a numeric prefix, and the
  resulting resynchronisation of later reads are not modelled.
- LLVM queries are inputs: `GlobalInfo` (struct type, local linkage, element offsets)
  and `containing` (`getElementContainingOffset`). The model keys collected offsets by
  global name rather than by (struct type, global).
- `fixGlobalStruct` and all IR rewriting (`fix.cpp:90-225`) are not part of this model.
  Whether a rewrite succeeds is the parameter `fixOk`.
- Fix.NewOffset: takes an element's new offset to be its old offset plus the padding
  before it. It does not model LLVM's layout of the new struct type, nor `setAlignment`
  on the aligned globals (only which globals are aligned).

## Findings

| source | as written | input that shows it | evidently intended | confidence | as-written member | corrected member |
|---|---|---|---|---|---|---|
| pin/detect/detect.cpp:22-33 | the cache-line-size check accepts any shortest decimal numeral up to `LLONG_MAX`, including "0" | the argument "0" passes, and the first trace access then divides by zero at `InterferenceDetector.cpp:42` | only positive line sizes are accepted | not executed | Detect.ParseCacheLineSizeExamples | Detect.CheckedCacheLineSize |
