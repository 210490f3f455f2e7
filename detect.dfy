/** The trace reader (`process_pinatrace`) and the cache-line-size argument
    check of the detector's `main`.

    Each trace line is tokenised as `iss >> pc >> rw >> dest >> sz >> tid >> val`
    does it, into six column variables that live across lines. A line is a
    comment when the `pc` variable begins with '#'; otherwise it needs six
    tokens, and then its access is handed to the detector, whose parse errors
    are reported and skipped. */
module Detect {
  import opened Wrappers
  import opened Text
  import opened Numerals
  import opened InterferenceDetector

  /** The six column variables: program counter, read or write, destination
      address, access size, thread id and value. */
  datatype Fields = Fields(pc: string, rw: string, dest: string, sz: string, tid: string, val: string)

  /** The variables as declared, before the first line. */
  const NoFields := Fields("", "", "", "", "", "")

  /** `string_to_uint64(str, base)`: `std::stoull` in the given base, with
      `None` standing for the exception it rethrows. */
  type Parser = (string, nat) -> Option<nat>

  /** A trace access once `recordAccess` has parsed its four fields. */
  datatype TraceAccess = TraceAccess(isWrite: bool, destAddr: nat, accessSize: nat, threadId: nat)

  function Nth(ts: seq<string>, i: nat, prev: string): string {
    if i < |ts| then ts[i] else prev
  }

  /** The variables after `iss >> pc >> rw >> dest >> sz >> tid >> val` on a
      line with tokens `ts`: each extraction that finds a token overwrites its
      variable, and once one fails the later ones leave theirs as they were. */
  function Extract(prev: Fields, ts: seq<string>): (f: Fields)
    ensures |ts| >= 6 ==> f == Fields(ts[0], ts[1], ts[2], ts[3], ts[4], ts[5])
    ensures |ts| == 0 ==> f == prev
    ensures |ts| > 0 ==> f.pc == ts[0]
  {
    Fields(Nth(ts, 0, prev.pc), Nth(ts, 1, prev.rw), Nth(ts, 2, prev.dest),
           Nth(ts, 3, prev.sz), Nth(ts, 4, prev.tid), Nth(ts, 5, prev.val))
  }

  /** Tokens past the sixth do not reach the variables. */
  lemma ExtraTokensIgnored(prev: Fields, ts: seq<string>, more: seq<string>)
    requires |ts| >= 6
    ensures Extract(prev, ts + more) == Extract(prev, ts)
  {
  }

  predicate IsComment(f: Fields) {
    |f.pc| > 0 && f.pc[0] == '#'
  }

  /** The parsing at the head of `recordAccess`, before the ledger is touched:
      `rw`, then `dest` in base 16, then `sz` and `tid` in base 10; the first
      failure is the exception's message. `pc` and `val` are not read. */
  function DecodeAccess(f: Fields, stoull: Parser): (r: Result<TraceAccess, string>)
    ensures RwFlag(f.rw).Failure? ==> r == Failure("Invalid rw value: " + f.rw)
    ensures RwFlag(f.rw).Success? && stoull(f.dest, 16).None? ==>
              r == Failure("Could not convert string to uint64_t: " + f.dest)
    ensures r.Success? <==>
              RwFlag(f.rw).Success? && stoull(f.dest, 16).Some? && stoull(f.sz, 10).Some? && stoull(f.tid, 10).Some?
    ensures r.Success? ==>
              r.value == TraceAccess(f.rw in {"W", "w"}, stoull(f.dest, 16).value, stoull(f.sz, 10).value, stoull(f.tid, 10).value)
  {
    match RwFlag(f.rw)
    case Failure(e) => Failure(e)
    case Success(isWrite) =>
      match stoull(f.dest, 16)
      case None => Failure("Could not convert string to uint64_t: " + f.dest)
      case Some(dest) =>
        match stoull(f.sz, 10)
        case None => Failure("Could not convert string to uint64_t: " + f.sz)
        case Some(size) =>
          match stoull(f.tid, 10)
          case None => Failure("Could not convert string to uint64_t: " + f.tid)
          case Some(tid) => Success(TraceAccess(isWrite, dest, size, tid))
  }

  /** The program counter and the value column never influence the access. */
  lemma DecodeIgnoresPcAndVal(f: Fields, pc: string, val: string, stoull: Parser)
    ensures DecodeAccess(f.(pc := pc, val := val), stoull) == DecodeAccess(f, stoull)
  {
  }

  /** What one trace line does. `lineNo` is the 0-based number reported. */
  datatype Outcome =
    | Skipped
    | Malformed(lineNo: nat, fields: Fields)
    | Rejected(lineNo: nat, message: string)
    | Recorded(access: TraceAccess)

  /** One iteration of the trace loop, given the variables after extraction,
      the number of tokens the line had and the line counter after `++linenum`. */
  function Classify(f: Fields, tokenCount: nat, linenum: nat, stoull: Parser): (o: Outcome)
    requires linenum > 0
    ensures o.Skipped? <==> IsComment(f)
    ensures o.Malformed? <==> !IsComment(f) && tokenCount < 6
    ensures o.Rejected? <==> !IsComment(f) && tokenCount >= 6 && DecodeAccess(f, stoull).Failure?
    ensures o.Recorded? <==> !IsComment(f) && tokenCount >= 6 && DecodeAccess(f, stoull).Success?
    ensures o.Malformed? ==> o.lineNo == linenum - 1 && o.fields == f
    ensures o.Rejected? ==> o.lineNo == linenum - 1 && o.message == DecodeAccess(f, stoull).error
    ensures o.Recorded? ==> o.access == DecodeAccess(f, stoull).value
  {
    if IsComment(f) then Skipped
    else if tokenCount < 6 then Malformed(linenum - 1, f)
    else match DecodeAccess(f, stoull)
         case Failure(e) => Rejected(linenum - 1, e)
         case Success(a) => Recorded(a)
  }

  /** The lines printed for an outcome. */
  function Report(o: Outcome): seq<string> {
    match o
    case Malformed(n, f) =>
      ["Line #" + ToDecimal(n) + " formatted incorrectly:",
       "\t" + f.pc + "\t" + f.rw + "\t" + f.dest + "\t" + f.sz + "\t" + f.tid + "\t" + f.val]
    case Rejected(n, e) => ["Error processing line #" + ToDecimal(n) + ": " + e]
    case _ => []
  }

  /** The state of the trace loop after some lines: the column variables and
      one outcome per line read. */
  datatype TraceState = TraceState(fields: Fields, outcomes: seq<Outcome>)

  /** The trace loop over `lines`, as a value. */
  function Run(lines: seq<string>, stoull: Parser): (s: TraceState)
    ensures |s.outcomes| == |lines|
  {
    if lines == [] then TraceState(NoFields, [])
    else
      var prev := Run(lines[..|lines| - 1], stoull);
      var ts := Tokens(lines[|lines| - 1]);
      var f := Extract(prev.fields, ts);
      TraceState(f, prev.outcomes + [Classify(f, |ts|, |lines|, stoull)])
  }

  /** The variables in force while line `i` is classified. */
  function FieldsAt(lines: seq<string>, i: nat, stoull: Parser): Fields
    requires i < |lines|
  {
    Extract(Run(lines[..i], stoull).fields, Tokens(lines[i]))
  }

  /** Line `i` is classified on its own tokens and the variables the lines
      before it left, with the counter at `i + 1`, whatever follows it. */
  lemma {:induction false} RunOutcome(lines: seq<string>, i: nat, stoull: Parser)
    requires i < |lines|
    ensures Run(lines, stoull).outcomes[i] == Classify(FieldsAt(lines, i, stoull), |Tokens(lines[i])|, i + 1, stoull)
    decreases |lines|
  {
    var init := lines[..|lines| - 1];
    if i < |lines| - 1 {
      RunOutcome(init, i, stoull);
      assert init[..i] == lines[..i];
    } else {
      assert init == lines[..i];
    }
  }

  /** A line is skipped, with no report and no access, exactly when the `pc`
      variable begins with '#'; a line without tokens keeps the previous `pc`,
      so it is skipped exactly when the previous line's `pc` was a comment. */
  lemma CommentLines(lines: seq<string>, i: nat, stoull: Parser)
    requires i < |lines|
    ensures Run(lines, stoull).outcomes[i].Skipped? <==> IsComment(FieldsAt(lines, i, stoull))
    ensures Tokens(lines[i]) == [] ==> FieldsAt(lines, i, stoull) == Run(lines[..i], stoull).fields
  {
    RunOutcome(lines, i, stoull);
  }

  /** A non-comment line with fewer than six tokens is reported under the
      0-based number `i`, and the counter runs over comment lines as well. */
  lemma ShortLines(lines: seq<string>, i: nat, stoull: Parser)
    requires i < |lines|
    requires !IsComment(FieldsAt(lines, i, stoull)) && |Tokens(lines[i])| < 6
    ensures Run(lines, stoull).outcomes[i] == Malformed(i, FieldsAt(lines, i, stoull))
  {
    RunOutcome(lines, i, stoull);
  }

  /** A line with six or more tokens whose `pc` is not a comment reaches the
      detector exactly when its four fields parse, and is reported under `i`
      otherwise. */
  lemma DataLines(lines: seq<string>, i: nat, stoull: Parser)
    requires i < |lines|
    requires |Tokens(lines[i])| >= 6 && !IsComment(FieldsAt(lines, i, stoull))
    ensures var ts := Tokens(lines[i]);
            var d := DecodeAccess(Fields(ts[0], ts[1], ts[2], ts[3], ts[4], ts[5]), stoull);
            Run(lines, stoull).outcomes[i] == if d.Success? then Recorded(d.value) else Rejected(i, d.error)
  {
    RunOutcome(lines, i, stoull);
  }

  /** The accesses handed to the detector, in line order. */
  function Accepted(os: seq<Outcome>): (accs: seq<TraceAccess>)
    ensures |accs| <= |os|
  {
    if os == [] then []
    else Accepted(os[..|os| - 1]) + (if os[|os| - 1].Recorded? then [os[|os| - 1].access] else [])
  }

  /** Every recorded line reaches the detector exactly once and in file
      order: its access follows those of the recorded lines before it. */
  lemma AcceptedInOrder(os: seq<Outcome>, i: nat)
    requires i < |os| && os[i].Recorded?
    ensures Accepted(os[..i]) + [os[i].access] <= Accepted(os)
  {
    assert os[..i + 1][..i] == os[..i];
    AcceptedPrefix(os, i + 1);
  }

  lemma {:induction false} AcceptedPrefix(os: seq<Outcome>, n: nat)
    requires n <= |os|
    ensures Accepted(os[..n]) <= Accepted(os)
    decreases |os|
  {
    if n < |os| {
      AcceptedPrefix(os[..|os| - 1], n);
      assert os[..|os| - 1][..n] == os[..n];
    } else {
      assert os[..n] == os;
    }
  }

  /** The printed report of a run. */
  function Log(os: seq<Outcome>): seq<string> {
    if os == [] then [] else Log(os[..|os| - 1]) + Report(os[|os| - 1])
  }

  /** The ledger after the detector has recorded `accs` in order. */
  function RecordAll(ledger: Ledger, lineSize: nat, accs: seq<TraceAccess>): Ledger
    requires lineSize > 0
  {
    if accs == [] then ledger
    else
      var a := accs[|accs| - 1];
      Record(RecordAll(ledger, lineSize, accs[..|accs| - 1]), lineSize, a.isWrite, a.destAddr, a.accessSize, a.threadId)
  }

  predicate Matches(a: TraceAccess, tid: nat, addr: nat) {
    a.threadId == tid && a.destAddr == addr
  }

  /** The entry a thread holds for an address once it exists. */
  function EntryOf(ledger: Ledger, lineSize: nat, tid: nat, addr: nat): Option<Access>
    requires lineSize > 0
  {
    var line := LineOf(ledger, addr / lineSize);
    if tid in line && addr in line[tid] then Some(line[tid][addr]) else None
  }

  /** One access changes only the entry of its own thread and address. */
  lemma EntryOfRecord(ledger: Ledger, lineSize: nat, a: TraceAccess, tid: nat, addr: nat)
    requires lineSize > 0
    ensures var prev := EntryOf(ledger, lineSize, tid, addr);
            EntryOf(Record(ledger, lineSize, a.isWrite, a.destAddr, a.accessSize, a.threadId), lineSize, tid, addr) ==
            if Matches(a, tid, addr) then
              Some(if prev.Some? then InterferenceDetector.Access(prev.value.isWrite || a.isWrite, Max(prev.value.accessSize, a.accessSize))
                   else InterferenceDetector.Access(a.isWrite, a.accessSize))
            else prev
  {
  }

  /** Whether some access of `accs` is by thread `tid` to address `addr`. */
  predicate Accessed(accs: seq<TraceAccess>, tid: nat, addr: nat) {
    exists i :: 0 <= i < |accs| && Matches(accs[i], tid, addr)
  }

  /** The merged entry of thread `tid` for `addr` after `accs`, computed from
      that thread's accesses to that address alone. */
  function EntryAfter(accs: seq<TraceAccess>, tid: nat, addr: nat): Option<Access> {
    if accs == [] then None
    else
      var prev := EntryAfter(accs[..|accs| - 1], tid, addr);
      var a := accs[|accs| - 1];
      if !Matches(a, tid, addr) then prev
      else if prev.None? then Some(InterferenceDetector.Access(a.isWrite, a.accessSize))
      else Some(InterferenceDetector.Access(prev.value.isWrite || a.isWrite, Max(prev.value.accessSize, a.accessSize)))
  }

  /** The ledger holds, for each thread and address, the merge of that
      thread's accesses to that address and nothing else. */
  lemma {:induction false} RecordAllEntry(lineSize: nat, accs: seq<TraceAccess>, tid: nat, addr: nat)
    requires lineSize > 0
    ensures EntryOf(RecordAll(map[], lineSize, accs), lineSize, tid, addr) == EntryAfter(accs, tid, addr)
    decreases |accs|
  {
    if accs != [] {
      var init := accs[..|accs| - 1];
      RecordAllEntry(lineSize, init, tid, addr);
      EntryOfRecord(RecordAll(map[], lineSize, init), lineSize, accs[|accs| - 1], tid, addr);
    }
  }

  /** There is an entry exactly when the thread accessed the address. */
  lemma {:induction false} EntryAfterHolds(accs: seq<TraceAccess>, tid: nat, addr: nat)
    ensures EntryAfter(accs, tid, addr).Some? <==> Accessed(accs, tid, addr)
    decreases |accs|
  {
    if accs != [] {
      var init := accs[..|accs| - 1];
      EntryAfterHolds(init, tid, addr);
      if Accessed(init, tid, addr) {
        var i :| 0 <= i < |init| && Matches(init[i], tid, addr);
        assert Matches(accs[i], tid, addr);
      }
      if Accessed(accs, tid, addr) && !Matches(accs[|accs| - 1], tid, addr) {
        var i :| 0 <= i < |accs| && Matches(accs[i], tid, addr);
        assert Matches(init[i], tid, addr);
      }
    }
  }

  /** The entry is a write exactly when one of the thread's accesses to the
      address was a write: a write is never demoted. */
  lemma {:induction false} EntryAfterWrite(accs: seq<TraceAccess>, tid: nat, addr: nat)
    requires EntryAfter(accs, tid, addr).Some?
    ensures EntryAfter(accs, tid, addr).value.isWrite <==>
            exists i :: 0 <= i < |accs| && Matches(accs[i], tid, addr) && accs[i].isWrite
    decreases |accs|
  {
    var init := accs[..|accs| - 1];
    var a := accs[|accs| - 1];
    if EntryAfter(init, tid, addr).Some? {
      EntryAfterWrite(init, tid, addr);
      if exists i :: 0 <= i < |init| && Matches(init[i], tid, addr) && init[i].isWrite {
        var i :| 0 <= i < |init| && Matches(init[i], tid, addr) && init[i].isWrite;
        assert Matches(accs[i], tid, addr) && accs[i].isWrite;
      }
      if exists i :: 0 <= i < |accs| && Matches(accs[i], tid, addr) && accs[i].isWrite {
        var i :| 0 <= i < |accs| && Matches(accs[i], tid, addr) && accs[i].isWrite;
        if i < |init| {
          assert Matches(init[i], tid, addr) && init[i].isWrite;
        }
      }
    } else {
      EntryAfterHolds(init, tid, addr);
      forall i | 0 <= i < |init|
        ensures !Matches(accs[i], tid, addr)
      {
        assert accs[i] == init[i];
      }
    }
  }

  /** The entry's size is the largest size among the thread's accesses to
      the address. */
  lemma {:induction false} EntryAfterSize(accs: seq<TraceAccess>, tid: nat, addr: nat)
    requires EntryAfter(accs, tid, addr).Some?
    ensures var size := EntryAfter(accs, tid, addr).value.accessSize;
            (forall i :: 0 <= i < |accs| && Matches(accs[i], tid, addr) ==> accs[i].accessSize <= size) &&
            (exists i :: 0 <= i < |accs| && Matches(accs[i], tid, addr) && accs[i].accessSize == size)
    decreases |accs|
  {
    var init := accs[..|accs| - 1];
    var a := accs[|accs| - 1];
    var last := |accs| - 1;
    var size := EntryAfter(accs, tid, addr).value.accessSize;
    if EntryAfter(init, tid, addr).Some? {
      EntryAfterSize(init, tid, addr);
      var before := EntryAfter(init, tid, addr).value.accessSize;
      var j :| 0 <= j < |init| && Matches(init[j], tid, addr) && init[j].accessSize == before;
      assert accs[j] == init[j];
      forall i | 0 <= i < |accs| && Matches(accs[i], tid, addr)
        ensures accs[i].accessSize <= size
      {
        if i < last {
          assert accs[i] == init[i];
        }
      }
      if Matches(a, tid, addr) && a.accessSize > before {
        assert accs[last].accessSize == size;
      } else {
        assert accs[j].accessSize == size;
      }
    } else {
      EntryAfterHolds(init, tid, addr);
      forall i | 0 <= i < |init|
        ensures !Matches(accs[i], tid, addr)
      {
        assert accs[i] == init[i];
      }
      assert accs[last].accessSize == size;
    }
  }

  /** One more line extends the run by the outcome of that line. */
  lemma RunStep(lines: seq<string>, k: nat, stoull: Parser)
    requires k < |lines|
    ensures Run(lines[..k + 1], stoull).fields == FieldsAt(lines, k, stoull)
    ensures Log(Run(lines[..k + 1], stoull).outcomes) ==
            Log(Run(lines[..k], stoull).outcomes) + Report(Classify(FieldsAt(lines, k, stoull), |Tokens(lines[k])|, k + 1, stoull))
    ensures Accepted(Run(lines[..k + 1], stoull).outcomes) ==
            Accepted(Run(lines[..k], stoull).outcomes) +
            (var o := Classify(FieldsAt(lines, k, stoull), |Tokens(lines[k])|, k + 1, stoull);
             if o.Recorded? then [o.access] else [])
  {
    var next := lines[..k + 1];
    assert next[..k] == lines[..k];
    var prev := Run(lines[..k], stoull).outcomes;
    var f := Extract(Run(lines[..k], stoull).fields, Tokens(lines[k]));
    var o := Classify(f, |Tokens(lines[k])|, k + 1, stoull);
    assert Run(next, stoull).outcomes == prev + [o];
    LogAppend(prev, o);
    AcceptedAppend(prev, o);
  }

  lemma LogAppend(os: seq<Outcome>, o: Outcome)
    ensures Log(os + [o]) == Log(os) + Report(o)
  {
    assert (os + [o])[..|os|] == os;
  }

  lemma AcceptedAppend(os: seq<Outcome>, o: Outcome)
    ensures Accepted(os + [o]) == Accepted(os) + (if o.Recorded? then [o.access] else [])
  {
    assert (os + [o])[..|os|] == os;
  }

  lemma RecordAllAppend(lineSize: nat, accs: seq<TraceAccess>, a: TraceAccess)
    requires lineSize > 0
    ensures RecordAll(map[], lineSize, accs + [a]) ==
            Record(RecordAll(map[], lineSize, accs), lineSize, a.isWrite, a.destAddr, a.accessSize, a.threadId)
  {
    assert (accs + [a])[..|accs|] == accs;
  }

  /** Access `j` of `accs` interferes with thread `t`'s entry for `a`: `t` is
      another thread that accessed `a` earlier, on the same cache line, its
      merged entry does not overlap the access, and one of the two is a write. */
  predicate Interfering(accs: seq<TraceAccess>, lineSize: nat, j: nat, t: nat, a: nat)
    requires lineSize > 0
  {
    j < |accs| && t != accs[j].threadId && a / lineSize == accs[j].destAddr / lineSize &&
    var e := EntryAfter(accs[..j], t, a);
    e.Some? && !Overlaps(a, e.value.accessSize, accs[j].destAddr, accs[j].accessSize) &&
    (accs[j].isWrite || e.value.isWrite)
  }

  /** `p` is a pair reported for access `j`: its second address is that
      access's, and its first an entry the access interferes with. */
  ghost predicate SoundPair(accs: seq<TraceAccess>, lineSize: nat, j: nat, p: Pair)
    requires lineSize > 0
  {
    j < |accs| && p.1 == accs[j].destAddr && exists t: nat :: Interfering(accs, lineSize, j, t, p.0)
  }

  /** Access `j`'s own thread already held its address at least as wide, so
      `recordAccess` returns at that thread and skips the threads after it. */
  predicate HeldAtLeast(accs: seq<TraceAccess>, j: nat) {
    j < |accs| &&
    var e := EntryAfter(accs[..j], accs[j].threadId, accs[j].destAddr);
    e.Some? && e.value.accessSize >= accs[j].accessSize
  }

  /** `p` is reported for some access of the trace. */
  ghost predicate Reported(accs: seq<TraceAccess>, lineSize: nat, p: Pair)
    requires lineSize > 0
  {
    exists j: nat :: SoundPair(accs, lineSize, j, p)
  }

  /** Every pair is reported for some access of the trace. */
  ghost predicate PairsSound(accs: seq<TraceAccess>, lineSize: nat, ps: seq<Pair>)
    requires lineSize > 0
  {
    forall k :: 0 <= k < |ps| ==> Reported(accs, lineSize, ps[k])
  }

  /** Every interference of an access that did not return early is reported. */
  ghost predicate PairsComplete(accs: seq<TraceAccess>, lineSize: nat, ps: seq<Pair>)
    requires lineSize > 0
  {
    forall j: nat, t: nat, a: nat :: j < |accs| && !HeldAtLeast(accs, j) && Interfering(accs, lineSize, j, t, a) ==>
      (a, accs[j].destAddr) in ps
  }

  /** A reported pair in terms of the trace's own accesses: another thread
      accessed its first address earlier, on the same cache line; none of
      that thread's earlier accesses to it overlaps access `j`; one of them or
      access `j` is a write; and an access of positive size is never paired
      with its own address. */
  lemma SoundPairAccesses(accs: seq<TraceAccess>, lineSize: nat, j: nat, p: Pair)
    requires lineSize > 0 && SoundPair(accs, lineSize, j, p)
    ensures p.0 / lineSize == p.1 / lineSize
    ensures exists i, t :: 0 <= i < j && t != accs[j].threadId && Matches(accs[i], t, p.0) &&
              (forall k :: 0 <= k < j && Matches(accs[k], t, p.0) ==> !Overlaps(p.0, accs[k].accessSize, p.1, accs[j].accessSize)) &&
              (accs[j].isWrite || exists k :: 0 <= k < j && Matches(accs[k], t, p.0) && accs[k].isWrite)
    ensures accs[j].accessSize > 0 ==> p.0 != p.1
  {
    var t :| Interfering(accs, lineSize, j, t, p.0);
    var pre := accs[..j];
    EntryAfterHolds(pre, t, p.0);
    EntryAfterSize(pre, t, p.0);
    EntryAfterWrite(pre, t, p.0);
    var i :| 0 <= i < |pre| && Matches(pre[i], t, p.0);
    assert Matches(accs[i], t, p.0);
  }

  /** Extending the trace changes nothing about its earlier accesses. */
  lemma ExtendKeepsAccess(accs: seq<TraceAccess>, lineSize: nat, x: TraceAccess, j: nat, t: nat, a: nat)
    requires lineSize > 0 && j < |accs|
    ensures Interfering(accs + [x], lineSize, j, t, a) == Interfering(accs, lineSize, j, t, a)
    ensures HeldAtLeast(accs + [x], j) == HeldAtLeast(accs, j)
  {
    assert (accs + [x])[..j] == accs[..j];
  }

  /** The ledger entry of another thread on the access's line is the merge
      of that thread's earlier accesses. */
  lemma LineEntry(accs: seq<TraceAccess>, lineSize: nat, addr: nat, t: nat, a: nat)
    requires lineSize > 0 && Filed(RecordAll(map[], lineSize, accs), lineSize)
    requires var line := LineOf(RecordAll(map[], lineSize, accs), addr / lineSize); t in line && a in line[t]
    ensures a / lineSize == addr / lineSize
    ensures EntryAfter(accs, t, a) == Some(LineOf(RecordAll(map[], lineSize, accs), addr / lineSize)[t][a])
  {
    RecordAllEntry(lineSize, accs, t, a);
  }

  /** The pairs `recordAccess` appends for one more access are all reported
      for that access. */
  lemma TraceStepSound(accs: seq<TraceAccess>, lineSize: nat, x: TraceAccess, ps: seq<Pair>,
                       order: seq<nat>, keys: map<nat, seq<nat>>, n: nat)
    requires lineSize > 0 && n <= |order| && PairsSound(accs, lineSize, ps)
    requires Filed(RecordAll(map[], lineSize, accs), lineSize)
    ensures var ledger := RecordAll(map[], lineSize, accs);
            var found := ScanConflicts(LineOf(ledger, x.destAddr / lineSize), x.threadId, order, keys, n,
                                       x.destAddr, x.accessSize, x.isWrite);
            PairsSound(accs + [x], lineSize, ps + PairWith(found, x.destAddr))
  {
    var ledger := RecordAll(map[], lineSize, accs);
    var line := LineOf(ledger, x.destAddr / lineSize);
    var found := ScanConflicts(line, x.threadId, order, keys, n, x.destAddr, x.accessSize, x.isWrite);
    var ps' := ps + PairWith(found, x.destAddr);
    var accs' := accs + [x];
    assert accs'[..|accs|] == accs;
    forall k | 0 <= k < |ps'|
      ensures Reported(accs', lineSize, ps'[k])
    {
      if k < |ps| {
        assert Reported(accs, lineSize, ps[k]);
        var j: nat :| SoundPair(accs, lineSize, j, ps[k]);
        var t: nat :| Interfering(accs, lineSize, j, t, ps[k].0);
        ExtendKeepsAccess(accs, lineSize, x, j, t, ps[k].0);
        assert SoundPair(accs', lineSize, j, ps'[k]);
      } else {
        var a := found[k - |ps|];
        assert ps'[k] == (a, x.destAddr);
        ScanConflictsSound(line, x.threadId, order, keys, n, x.destAddr, x.accessSize, x.isWrite, a);
        var i :| 0 <= i < n && order[i] != x.threadId && order[i] in line && a in line[order[i]] &&
                 !Overlaps(a, line[order[i]][a].accessSize, x.destAddr, x.accessSize) &&
                 (x.isWrite || line[order[i]][a].isWrite);
        LineEntry(accs, lineSize, x.destAddr, order[i], a);
        assert Interfering(accs', lineSize, |accs|, order[i], a);
        assert SoundPair(accs', lineSize, |accs|, ps'[k]);
      }
    }
    assert PairsSound(accs', lineSize, ps');
  }

  /** When the access does not return early, every interference it has is
      appended, and the earlier ones stay reported. */
  lemma TraceStepComplete(accs: seq<TraceAccess>, lineSize: nat, x: TraceAccess, ps: seq<Pair>,
                          order: seq<nat>, keys: map<nat, seq<nat>>)
    requires lineSize > 0 && PairsComplete(accs, lineSize, ps)
    requires var ledger := RecordAll(map[], lineSize, accs);
             Filed(ledger, lineSize) &&
             IsEnumeration(order, LineOf(ledger, x.destAddr / lineSize).Keys + {x.threadId}) &&
             KeyOrders(keys, LineOf(ledger, x.destAddr / lineSize), x.threadId)
    ensures var ledger := RecordAll(map[], lineSize, accs);
            x.threadId in order &&
            var found := ScanConflicts(LineOf(ledger, x.destAddr / lineSize), x.threadId, order, keys,
                                       Scanned(order, x.threadId, ReturnsEarly(ledger, lineSize, x.destAddr, x.accessSize, x.threadId)),
                                       x.destAddr, x.accessSize, x.isWrite);
            PairsComplete(accs + [x], lineSize, ps + PairWith(found, x.destAddr))
  {
    var ledger := RecordAll(map[], lineSize, accs);
    var line := LineOf(ledger, x.destAddr / lineSize);
    assert x.threadId in order;
    var early := ReturnsEarly(ledger, lineSize, x.destAddr, x.accessSize, x.threadId);
    var found := ScanConflicts(line, x.threadId, order, keys, Scanned(order, x.threadId, early),
                               x.destAddr, x.accessSize, x.isWrite);
    var ps' := ps + PairWith(found, x.destAddr);
    var accs' := accs + [x];
    assert accs'[..|accs|] == accs;
    forall j: nat, t: nat, a: nat | j < |accs'| && !HeldAtLeast(accs', j) && Interfering(accs', lineSize, j, t, a)
      ensures (a, accs'[j].destAddr) in ps'
    {
      if j < |accs| {
        ExtendKeepsAccess(accs, lineSize, x, j, t, a);
        assert (a, accs[j].destAddr) in ps;
      } else {
        assert j == |accs| && accs'[j] == x;
        RecordAllEntry(lineSize, accs, x.threadId, x.destAddr);
        assert !early;
        RecordAllEntry(lineSize, accs, t, a);
        assert t in line && a in line[t];
        var pos :| 0 <= pos < |order| && order[pos] == t;
        ScanConflictsComplete(line, x.threadId, order, keys, |order|, x.destAddr, x.accessSize, x.isWrite, pos, a);
        var m :| 0 <= m < |found| && found[m] == a;
        assert PairWith(found, x.destAddr)[m] == (a, x.destAddr);
      }
    }
  }

  /** A trace without accesses reports no pair. */
  lemma NothingAcceptedNothingReported(accs: seq<TraceAccess>, lineSize: nat, ps: seq<Pair>)
    requires lineSize > 0 && PairsSound(accs, lineSize, ps)
    ensures accs == [] ==> ps == []
  {
    if |ps| > 0 {
      assert Reported(accs, lineSize, ps[0]);
      var j: nat :| SoundPair(accs, lineSize, j, ps[0]);
      assert j < |accs|;
    }
  }

  /** The lines of the output file for the pairs `ps`, in order. */
  function OutputLines(ps: seq<Pair>): seq<string> {
    seq(|ps|, i requires 0 <= i < |ps| => InterferenceLine(ps[i]))
  }

  /** One iteration of the trace loop on the detector: extract the fields,
      skip a comment, report a short line or a rejected access, or record
      the access. `linenum` is the counter after `++linenum`. For a recorded
      access, `order` and `keys` are the iteration orders `recordAccess` used
      over the line's threads and over each other thread's addresses. */
  method ProcessLine(detector: Detector, prev: Fields, line: string, linenum: nat, stoull: Parser)
    returns (fields: Fields, report: seq<string>, order: seq<nat>, keys: map<nat, seq<nat>>)
    requires linenum > 0 && detector.Valid()
    modifies detector
    ensures detector.Valid()
    ensures fields == Extract(prev, Tokens(line))
    ensures report == Report(Classify(fields, |Tokens(line)|, linenum, stoull))
    ensures var o := Classify(fields, |Tokens(line)|, linenum, stoull);
            detector.cachelines ==
              if o.Recorded?
              then Record(old(detector.cachelines), detector.cachelineSize,
                          o.access.isWrite, o.access.destAddr, o.access.accessSize, o.access.threadId)
              else old(detector.cachelines)
    ensures var o := Classify(fields, |Tokens(line)|, linenum, stoull);
            !o.Recorded? ==> detector.interferences == old(detector.interferences)
    ensures var o := Classify(fields, |Tokens(line)|, linenum, stoull);
            o.Recorded? ==>
              var a := o.access;
              IsEnumeration(order, old(detector.ThreadsToScan(a.destAddr, a.threadId))) &&
              KeyOrders(keys, old(detector.LineFor(a.destAddr)), a.threadId) &&
              detector.interferences ==
                old(detector.interferences) +
                PairWith(ScanConflicts(old(detector.LineFor(a.destAddr)), a.threadId, order, keys,
                                       Scanned(order, a.threadId,
                                               ReturnsEarly(old(detector.cachelines), detector.cachelineSize,
                                                            a.destAddr, a.accessSize, a.threadId)),
                                       a.destAddr, a.accessSize, a.isWrite),
                         a.destAddr)
  {
    var ts := Tokens(line);
    var parseError := |ts| < 6;
    fields := Extract(prev, ts);
    order, keys := [], map[];
    if IsComment(fields) {
      return fields, [], order, keys;
    }
    if parseError {
      report := ["Line #" + ToDecimal(linenum - 1) + " formatted incorrectly:",
                 "\t" + fields.pc + "\t" + fields.rw + "\t" + fields.dest + "\t" + fields.sz + "\t" + fields.tid + "\t" + fields.val];
      return;
    }
    var decoded := DecodeAccess(fields, stoull);
    if decoded.Failure? {
      report := ["Error processing line #" + ToDecimal(linenum - 1) + ": " + decoded.error];
      return;
    }
    var a := decoded.value;
    order := Enumerate(detector.ThreadsToScan(a.destAddr, a.threadId));
    keys := EnumerateKeys(detector.LineFor(a.destAddr), a.threadId);
    detector.RecordAccess(a.isWrite, a.destAddr, a.accessSize, a.threadId, order, keys);
    report := [];
  }

  /** One iteration of the trace loop, seen against the accesses `accs`
      accepted before it: if the detector's ledger and pairs are those of
      `accs`, they are those of `accs` extended by the line's access (when
      it is recorded) afterwards. */
  method TraceLine(detector: Detector, prev: Fields, line: string, linenum: nat, stoull: Parser,
                   ghost accs: seq<TraceAccess>)
    returns (fields: Fields, report: seq<string>)
    requires linenum > 0 && detector.Valid()
    requires detector.cachelines == RecordAll(map[], detector.cachelineSize, accs)
    requires PairsSound(accs, detector.cachelineSize, detector.interferences)
    requires PairsComplete(accs, detector.cachelineSize, detector.interferences)
    modifies detector
    ensures detector.Valid()
    ensures fields == Extract(prev, Tokens(line))
    ensures report == Report(Classify(fields, |Tokens(line)|, linenum, stoull))
    ensures var o := Classify(fields, |Tokens(line)|, linenum, stoull);
            var next := if o.Recorded? then accs + [o.access] else accs;
            detector.cachelines == RecordAll(map[], detector.cachelineSize, next) &&
            PairsSound(next, detector.cachelineSize, detector.interferences) &&
            PairsComplete(next, detector.cachelineSize, detector.interferences)
  {
    ghost var before := detector.interferences;
    var order, keys;
    fields, report, order, keys := ProcessLine(detector, prev, line, linenum, stoull);
    ghost var o := Classify(fields, |Tokens(line)|, linenum, stoull);
    if o.Recorded? {
      ghost var lineSize := detector.cachelineSize;
      ghost var x := o.access;
      RecordAllAppend(lineSize, accs, x);
      ghost var ledger := RecordAll(map[], lineSize, accs);
      TraceStepComplete(accs, lineSize, x, before, order, keys);
      TraceStepSound(accs, lineSize, x, before, order, keys,
                     Scanned(order, x.threadId, ReturnsEarly(ledger, lineSize, x.destAddr, x.accessSize, x.threadId)));
    }
  }

  /** The trace loop: one iteration per line, with the column variables
      carried over. `log` is what is printed along the way and `accs` the
      accesses recorded, in order; the detector holds their ledger and
      pairs that are sound and complete for them. */
  method RunLines(lines: seq<string>, cachelineSize: nat, stoull: Parser)
    returns (log: seq<string>, detector: Detector, ghost accs: seq<TraceAccess>)
    requires cachelineSize > 0
    ensures fresh(detector)
    ensures detector.Valid() && detector.cachelineSize == cachelineSize
    ensures log == Log(Run(lines, stoull).outcomes)
    ensures accs == Accepted(Run(lines, stoull).outcomes)
    ensures detector.cachelines == RecordAll(map[], cachelineSize, accs)
    ensures PairsSound(accs, cachelineSize, detector.interferences)
    ensures PairsComplete(accs, cachelineSize, detector.interferences)
  {
    detector := new Detector(cachelineSize);
    var fields := NoFields;
    log := [];
    accs := [];
    var linenum := 0;
    while linenum < |lines|
      invariant 0 <= linenum <= |lines|
      invariant fresh(detector)
      invariant detector.Valid() && detector.cachelineSize == cachelineSize
      invariant fields == Run(lines[..linenum], stoull).fields
      invariant log == Log(Run(lines[..linenum], stoull).outcomes)
      invariant accs == Accepted(Run(lines[..linenum], stoull).outcomes)
      invariant detector.cachelines == RecordAll(map[], cachelineSize, accs)
      invariant PairsSound(accs, cachelineSize, detector.interferences)
      invariant PairsComplete(accs, cachelineSize, detector.interferences)
    {
      var line := lines[linenum];
      RunStep(lines, linenum, stoull);
      linenum := linenum + 1;
      var report;
      fields, report := TraceLine(detector, fields, line, linenum, stoull, accs);
      log := log + report;
      ghost var o := Classify(fields, |Tokens(line)|, linenum, stoull);
      accs := if o.Recorded? then accs + [o.access] else accs;
    }
    assert lines[..|lines|] == lines;
  }

  /** `main` after the argument check: the trace loop, then the detector's
      pairs are written. `out` is the lines of the output file. Every pair
      written is reported for some access of the trace, and every
      interference of an access that did not return early is written. */
  method ProcessTrace(lines: seq<string>, cachelineSize: nat, stoull: Parser)
    returns (log: seq<string>, out: seq<string>, detector: Detector)
    requires cachelineSize > 0
    ensures detector.Valid() && detector.cachelineSize == cachelineSize
    ensures log == Log(Run(lines, stoull).outcomes)
    ensures detector.cachelines == RecordAll(map[], cachelineSize, Accepted(Run(lines, stoull).outcomes))
    ensures PairsSound(Accepted(Run(lines, stoull).outcomes), cachelineSize, detector.interferences)
    ensures PairsComplete(Accepted(Run(lines, stoull).outcomes), cachelineSize, detector.interferences)
    ensures out == OutputLines(detector.interferences)
    ensures Accepted(Run(lines, stoull).outcomes) == [] ==> out == []
  {
    ghost var accs;
    log, detector, accs := RunLines(lines, cachelineSize, stoull);
    out := detector.OutputInterferences();
    NothingAcceptedNothingReported(accs, cachelineSize, detector.interferences);
  }

  /** The conversion of a `long long` to `uint64_t`: the value modulo 2^64. */
  function ToUnsigned(v: int): (u: nat)
    ensures u < TWO_TO_64
    ensures 0 <= v < TWO_TO_64 ==> u == v
    ensures v < 0 && LLONG_MIN <= v ==> u == v + TWO_TO_64
  {
    v % TWO_TO_64
  }

  /** `main`'s check of the cache-line-size argument, as written: `std::stoll`,
      conversion to `uint64_t` (modulo 2^64), then the value's `to_string`
      must give the argument back. */
  function ParseCacheLineSize(arg: string): (r: Result<nat, string>)
    ensures r.Success? ==> r.value < TWO_TO_64 && arg == ToDecimal(r.value)
  {
    match Stoll(arg)
    case None => Failure("Exception thrown, could not convert cache line size to long long: " + arg)
    case Some(v) =>
      var size := ToUnsigned(v);
      if ToDecimal(size) == arg then Success(size)
      else Failure("Could not entirely parse cache line size to long long: " + arg)
  }

  /** The check accepts exactly the shortest decimal numerals of the values
      up to `LLONG_MAX`, and returns the value the numeral denotes. */
  lemma ParseCacheLineSizeExact(arg: string, n: nat)
    ensures ParseCacheLineSize(arg) == Success(n) <==> arg == ToDecimal(n) && n <= LLONG_MAX
  {
    StollOfDecimal(n);
    var r := ParseCacheLineSize(arg);
    if arg == ToDecimal(n) && n <= LLONG_MAX {
      assert Stoll(arg) == Some(n);
      assert ToUnsigned(n) == n;
    }
    if r == Success(n) {
      var v := Stoll(arg).value;
      assert ToUnsigned(v) == n && ToDecimal(n) == arg;
    }
  }

  /** Leading zeros, a sign and a negative value are rejected; "0" is accepted. */
  lemma ParseCacheLineSizeExamples()
    ensures ParseCacheLineSize("064").Failure?
    ensures ParseCacheLineSize("+64").Failure?
    ensures ParseCacheLineSize("-64").Failure?
    ensures ParseCacheLineSize("64") == Success(64)
    ensures ParseCacheLineSize("0") == Success(0)
  {
    assert ToDecimal(6) == "6";
    assert ToDecimal(64) == "64";
    ParseCacheLineSizeExact("64", 64);
    assert ToDecimal(0) == "0";
    ParseCacheLineSizeExact("0", 0);
    LeadingZeroRejected("064");
    assert !IsDigit("+64"[0]) && !IsDigit("-64"[0]);
  }

  /** A numeral with a leading zero other than "0" itself is rejected. */
  lemma LeadingZeroRejected(arg: string)
    requires |arg| > 1 && arg[0] == '0'
    ensures ParseCacheLineSize(arg).Failure?
  {
  }

  /** The check as corrected: the as-written check, and a positive size,
      since every access is filed under `addr / size`. */
  function CheckedCacheLineSize(arg: string): (r: Result<nat, string>)
    ensures r.Success? ==> 0 < r.value <= LLONG_MAX && arg == ToDecimal(r.value)
    ensures r.Success? <==> ParseCacheLineSize(arg).Success? && ParseCacheLineSize(arg).value > 0
  {
    match ParseCacheLineSize(arg)
    case Failure(e) => Failure(e)
    case Success(size) =>
      ParseCacheLineSizeExact(arg, size);
      if size == 0 then Failure("Cache line size must be positive: " + arg) else Success(size)
  }

  /** The detector's `main` with the corrected check: a rejected argument
      ends the run with its message; otherwise the trace is processed. */
  method DetectMain(arg: string, lines: seq<string>, stoull: Parser) returns (r: Result<(seq<string>, seq<string>), string>)
    ensures r.Failure? <==> CheckedCacheLineSize(arg).Failure?
    ensures r.Failure? ==> r.error == CheckedCacheLineSize(arg).error
    ensures r.Success? ==> r.value.0 == Log(Run(lines, stoull).outcomes)
    ensures r.Success? ==>
              var accs := Accepted(Run(lines, stoull).outcomes);
              exists ps: seq<Pair> ::
                r.value.1 == OutputLines(ps) &&
                PairsSound(accs, CheckedCacheLineSize(arg).value, ps) &&
                PairsComplete(accs, CheckedCacheLineSize(arg).value, ps)
    ensures r.Success? && Accepted(Run(lines, stoull).outcomes) == [] ==> r.value.1 == []
  {
    var size := CheckedCacheLineSize(arg);
    if size.Failure? {
      return Failure(size.error);
    }
    var log, out, detector := ProcessTrace(lines, size.value, stoull);
    return Success((log, out));
  }
}
