/** Posting entries to TigerBeetle one by one (ledger/tigerbeetle.go PostEntries) and as one batch
    (ledger/batch.go flushBatch), over an abstract store that applies linked chains all or nothing. */
module BatchPosting {
  import opened Journal
  import opened Decomposition
  import opened Wrappers

  datatype Entry = Entry(id: nat, lines: seq<Line>)

  /** State after a call, and one result code per transfer. */
  datatype Applied<+S> = Applied(state: S, codes: seq<nat>)
  datatype TBResult = TBResult(index: nat, code: nat)

  datatype Outcome =
    | Posted
    | TransferFailed(index: nat, code: nat)
    | BuildFailed(pair: nat)
    | NoTransfers
    | CallFailed

  /** A client call is answered, or returns an error after the store has applied the transfers or without. */
  datatype CallResult = Answered | Broken(applied: bool)

  const OK: nat := 0
  const EXISTS: nat := 1

  predicate Failure(code: nat) {
    code != OK && code != EXISTS
  }

  predicate AnyFailure(codes: seq<nat>) {
    exists i :: 0 <= i < |codes| && Failure(codes[i])
  }

  /** What is asked of the store: how it treats one linked chain is arbitrary, except that it answers
      for every transfer and that a chain with a failed transfer changes nothing. */
  ghost predicate AllOrNothing<S(!new)>(rule: (S, seq<Transfer>) -> Applied<S>) {
    forall s, chain :: |rule(s, chain).codes| == |chain|
      && (AnyFailure(rule(s, chain).codes) ==> rule(s, chain).state == s)
  }

  /** Length of the leading chain: up to and including the first unlinked transfer. */
  function ChainLength(ts: seq<Transfer>): (n: nat)
    ensures n <= |ts| && (ts != [] ==> n > 0)
  {
    if ts == [] then 0 else if !ts[0].linked then 1 else 1 + ChainLength(ts[1..])
  }

  /** TBClient.CreateTransfers: chain after chain. */
  function CreateTransfers<S>(rule: (S, seq<Transfer>) -> Applied<S>, s: S, ts: seq<Transfer>): Applied<S>
    decreases |ts|
  {
    if ts == [] then Applied(s, [])
    else
      var n := ChainLength(ts);
      var first := rule(s, ts[..n]);
      var rest := CreateTransfers(rule, first.state, ts[n..]);
      Applied(rest.state, first.codes + rest.codes)
  }

  /** Only transfers that did not simply succeed are reported, in order. */
  function Report(codes: seq<nat>): seq<TBResult> {
    if codes == [] then []
    else
      var n := |codes| - 1;
      if codes[n] == OK then Report(codes[..n]) else Report(codes[..n]) + [TBResult(n, codes[n])]
  }

  // ---- One entry ----

  ghost function TransferList(entry: nat, ps: seq<Piece>): (ts: seq<Transfer>)
    requires forall i :: 0 <= i < |ps| ==> Units(ps[i].amount) >= 0
    ensures TransfersOf(ts, entry, ps)
  {
    seq(|ps|, i requires 0 <= i < |ps| => ToTransfer(entry, ps[i], i, i < |ps| - 1))
  }

  /** What buildTransfers yields for an entry. */
  ghost function BuildOf(e: Entry): Built {
    var ps := Pieces(e.lines);
    if k :| FirstNegative(ps, k) then NegativeAmount(k)
    else
      NoneNegative(ps);
      Built(TransferList(e.id, ps))
  }

  lemma {:induction false} NoneNegative(ps: seq<Piece>)
    requires forall k :: !FirstNegative(ps, k)
    ensures forall i :: 0 <= i < |ps| ==> Units(ps[i].amount) >= 0
  {
    if ps != [] {
      var n := |ps| - 1;
      forall k
        ensures !FirstNegative(ps[..n], k)
      {
        if FirstNegative(ps[..n], k) {
          assert FirstNegative(ps, k);
        }
      }
      NoneNegative(ps[..n]);
      if Units(ps[n].amount) < 0 {
        assert FirstNegative(ps, n);
      }
    }
  }

  method Build(e: Entry) returns (b: Built)
    ensures b == BuildOf(e)
  {
    var debits, credits := SplitSides(e.lines);
    b := BuildTransfers(e.id, debits, credits);
    ghost var ps := Pieces(e.lines);
    if b.NegativeAmount? {
      assert FirstNegative(ps, b.pair);
      assert forall k :: FirstNegative(ps, k) ==> k == b.pair;
    } else {
      assert forall k :: !FirstNegative(ps, k);
      assert b.transfers == BuildOf(e).transfers;
    }
  }

  /** The outcome of one entry: its first failed transfer, numbered from `base`. */
  function Verdict(codes: seq<nat>, base: nat): Outcome {
    if codes == [] then Posted
    else if Failure(codes[0]) then TransferFailed(base, codes[0])
    else Verdict(codes[1..], base + 1)
  }

  lemma {:induction false} VerdictOfFirst(codes: seq<nat>, base: nat, i: nat)
    requires i < |codes| && Failure(codes[i]) && forall j :: 0 <= j < i ==> !Failure(codes[j])
    ensures Verdict(codes, base) == TransferFailed(base + i, codes[i])
  {
    if i > 0 {
      VerdictOfFirst(codes[1..], base + 1, i - 1);
    }
  }

  lemma {:induction false} VerdictOfNone(codes: seq<nat>, base: nat)
    requires !AnyFailure(codes)
    ensures Verdict(codes, base) == Posted
  {
    if codes != [] {
      assert !Failure(codes[0]);
      forall i | 0 <= i < |codes[1..]|
        ensures !Failure(codes[1..][i])
      {
        assert codes[1..][i] == codes[i + 1];
      }
      VerdictOfNone(codes[1..], base + 1);
    }
  }

  lemma {:induction false} VerdictPosted(codes: seq<nat>, base: nat)
    ensures Verdict(codes, base).Posted? <==> !AnyFailure(codes)
  {
    if AnyFailure(codes) {
      if Failure(codes[0]) {
      } else {
        var i :| 0 <= i < |codes| && Failure(codes[i]);
        assert codes[1..][i - 1] == codes[i];
        VerdictPosted(codes[1..], base + 1);
      }
    } else {
      VerdictOfNone(codes, base);
    }
  }

  /** Every transfer was created, or was there already: result codes 0 and 1 of TigerBeetle. */
  predicate AllCreated(codes: seq<nat>) {
    forall i :: 0 <= i < |codes| ==> codes[i] == 0 || codes[i] == 1
  }

  lemma CreatedIff(codes: seq<nat>, base: nat)
    ensures Verdict(codes, base).Posted? <==> AllCreated(codes)
  {
    VerdictPosted(codes, base);
  }

  /** The report lists exactly the codes that are not OK, in increasing order of index. */
  ghost predicate Reports(rs: seq<TBResult>, codes: seq<nat>) {
    && (forall k :: 0 <= k < |rs| ==> rs[k].index < |codes| && codes[rs[k].index] == rs[k].code != OK)
    && (forall k, l :: 0 <= k < l < |rs| ==> rs[k].index < rs[l].index)
    && (forall i :: 0 <= i < |codes| && codes[i] != OK ==> TBResult(i, codes[i]) in rs)
  }

  lemma {:induction false} ReportsAll(codes: seq<nat>)
    ensures Reports(Report(codes), codes)
  {
    if codes != [] {
      ReportsAll(codes[..|codes| - 1]);
    }
  }

  /** Posting one entry with an answered call, as a function of the store's rule. */
  ghost function PostOne<S>(rule: (S, seq<Transfer>) -> Applied<S>, s: S, e: Entry): (S, Outcome) {
    match BuildOf(e)
    case NegativeAmount(k) => (s, BuildFailed(k))
    case Built(ts) =>
      if ts == [] then (s, NoTransfers)
      else
        var a := CreateTransfers(rule, s, ts);
        (a.state, Verdict(a.codes, 0))
  }

  /** tbBackend.PostEntries. Without transfers no call is made. */
  method PostEntries<S>(rule: (S, seq<Transfer>) -> Applied<S>, s: S, e: Entry, call: CallResult)
    returns (s': S, out: Outcome)
    ensures call.Answered? || TransfersFor(e) == [] ==> (s', out) == PostOne(rule, s, e)
    ensures call.Broken? && TransfersFor(e) != [] ==>
              s' == (if call.applied then PostOne(rule, s, e).0 else s) && out == CallFailed
    ensures out.Posted? <==>
              call.Answered? && TransfersFor(e) != [] && AllCreated(CreateTransfers(rule, s, TransfersFor(e)).codes)
  {
    hide CreateTransfers, Verdict, AllCreated;
    s' := s;
    CreatedIff(CreateTransfers(rule, s, TransfersFor(e)).codes, 0);
    var b := Build(e);
    if b.NegativeAmount? {
      return s, BuildFailed(b.pair);
    }
    if b.transfers == [] {
      return s, NoTransfers;
    }
    var a := CreateTransfers(rule, s, b.transfers);
    if call.Broken? {
      return if call.applied then a.state else s, CallFailed;
    }
    out := FirstFailure(a.codes);
    s' := a.state;
  }

  /** The scan over the reported results. */
  method FirstFailure(codes: seq<nat>) returns (out: Outcome)
    ensures out == Verdict(codes, 0)
    ensures out.Posted? <==> AllCreated(codes)
    ensures out.Posted? || (out.TransferFailed? && out.index < |codes| && out.code == codes[out.index])
    ensures out.TransferFailed? ==> 1 < out.code && AllCreated(codes[..out.index])
  {
    CreatedIff(codes, 0);
    var results := Report(codes);
    ReportsAll(codes);
    for k := 0 to |results|
      invariant forall l :: 0 <= l < k ==> !Failure(results[l].code)
    {
      var r := results[k];
      if Failure(r.code) {
        forall j | 0 <= j < r.index
          ensures !Failure(codes[j])
        {
          if codes[j] != OK {
            var l :| 0 <= l < |results| && results[l] == TBResult(j, codes[j]);
            assert l < k;
          }
        }
        VerdictOfFirst(codes, 0, r.index);
        return TransferFailed(r.index, r.code);
      }
    }
    forall i | 0 <= i < |codes|
      ensures !Failure(codes[i])
    {
      if codes[i] != OK {
        assert TBResult(i, codes[i]) in results;
      }
    }
    VerdictOfNone(codes, 0);
    return Posted;
  }

  // ---- Many entries ----

  /** Posting entries one after the other. */
  ghost function OneByOne<S>(rule: (S, seq<Transfer>) -> Applied<S>, s: S, es: seq<Entry>): (r: (S, seq<Outcome>))
    ensures |r.1| == |es|
  {
    if es == [] then (s, [])
    else
      var front := OneByOne(rule, s, es[..|es| - 1]);
      var last := PostOne(rule, front.0, es[|es| - 1]);
      (last.0, front.1 + [last.1])
  }

  ghost function TransfersFor(e: Entry): seq<Transfer> {
    match BuildOf(e)
    case Built(ts) => ts
    case NegativeAmount(_) => []
  }

  /** The transfers of all entries, in order. */
  ghost function All(es: seq<Entry>): seq<Transfer> {
    if es == [] then [] else All(es[..|es| - 1]) + TransfersFor(es[|es| - 1])
  }

  /** A sequence of complete chains. */
  predicate Closed(ts: seq<Transfer>) {
    ts == [] || !ts[|ts| - 1].linked
  }

  lemma {:induction false} ChainOfConcat(a: seq<Transfer>, b: seq<Transfer>)
    requires Closed(a) && a != []
    ensures ChainLength(a + b) == ChainLength(a)
    ensures Closed(a[ChainLength(a)..])
  {
    if a[0].linked {
      assert (a + b)[1..] == a[1..] + b;
      ChainOfConcat(a[1..], b);
    }
  }

  lemma CreateNone<S>(rule: (S, seq<Transfer>) -> Applied<S>, s: S)
    ensures CreateTransfers(rule, s, []) == Applied(s, [])
  {
  }

  lemma CreateFirst<S>(rule: (S, seq<Transfer>) -> Applied<S>, s: S, ts: seq<Transfer>)
    requires ts != []
    ensures var n := ChainLength(ts);
            var first := rule(s, ts[..n]);
            var rest := CreateTransfers(rule, first.state, ts[n..]);
            CreateTransfers(rule, s, ts) == Applied(rest.state, first.codes + rest.codes)
  {
  }

  /** No chain crosses the end of a closed prefix, so the store sees the two parts separately. */
  lemma {:induction false} CreateConcat<S>(rule: (S, seq<Transfer>) -> Applied<S>, s: S, a: seq<Transfer>,
      b: seq<Transfer>)
    requires Closed(a)
    ensures var x := CreateTransfers(rule, s, a);
            var y := CreateTransfers(rule, x.state, b);
            CreateTransfers(rule, s, a + b) == Applied(y.state, x.codes + y.codes)
    decreases |a|
  {
    hide CreateTransfers, ChainLength, Closed;
    if a == [] {
      CreateNone(rule, s);
      assert a + b == b;
    } else {
      ChainOfConcat(a, b);
      var n := ChainLength(a);
      assert (a + b)[..n] == a[..n] && (a + b)[n..] == a[n..] + b;
      CreateFirst(rule, s, a);
      CreateFirst(rule, s, a + b);
      CreateConcat(rule, rule(s, a[..n]).state, a[n..], b);
    }
  }

  lemma {:induction false} CodesLength<S(!new)>(rule: (S, seq<Transfer>) -> Applied<S>, s: S, ts: seq<Transfer>)
    requires AllOrNothing(rule)
    ensures |CreateTransfers(rule, s, ts).codes| == |ts|
    decreases |ts|
  {
    if ts != [] {
      var n := ChainLength(ts);
      CodesLength(rule, rule(s, ts[..n]).state, ts[n..]);
    }
  }

  lemma EntryClosed(e: Entry)
    ensures Closed(TransfersFor(e))
  {
  }

  lemma {:induction false} AllClosed(es: seq<Entry>)
    ensures Closed(All(es))
  {
    if es != [] {
      AllClosed(es[..|es| - 1]);
      EntryClosed(es[|es| - 1]);
    }
  }

  /** Codes the store gives entry i when entries are posted one by one. */
  ghost function CodesOf<S>(rule: (S, seq<Transfer>) -> Applied<S>, s: S, es: seq<Entry>, i: nat): seq<nat>
    requires i < |es|
  {
    CreateTransfers(rule, OneByOne(rule, s, es[..i]).0, TransfersFor(es[i])).codes
  }

  /** Entry i's part of the codes of all entries. */
  ghost predicate SliceIs(codes: seq<nat>, es: seq<Entry>, i: nat, part: seq<nat>)
    requires i < |es|
  {
    && |All(es[..i])| + |TransfersFor(es[i])| <= |codes|
    && codes[|All(es[..i])|..|All(es[..i])| + |TransfersFor(es[i])|] == part
  }

  lemma SliceKept(codes: seq<nat>, more: seq<nat>, es: seq<Entry>, i: nat, part: seq<nat>)
    requires i < |es| - 1 && SliceIs(codes, es[..|es| - 1], i, part)
    ensures SliceIs(codes + more, es, i, part)
  {
    hide All, TransfersFor;
    assert es[..|es| - 1][..i] == es[..i];
    SliceOfPrefix(codes, more, |All(es[..i])|, |All(es[..i])| + |TransfersFor(es[i])|);
  }

  lemma SliceOfPrefix(codes: seq<nat>, more: seq<nat>, a: nat, b: nat)
    requires a <= b <= |codes|
    ensures (codes + more)[a..b] == codes[a..b]
  {
  }

  lemma AllLast(es: seq<Entry>)
    requires es != []
    ensures All(es) == All(es[..|es| - 1]) + TransfersFor(es[|es| - 1])
  {
  }

  lemma PostOneState<S>(rule: (S, seq<Transfer>) -> Applied<S>, s: S, e: Entry)
    ensures PostOne(rule, s, e).0 == CreateTransfers(rule, s, TransfersFor(e)).state
  {
  }

  lemma NothingPosted<S>(rule: (S, seq<Transfer>) -> Applied<S>, s: S)
    ensures All([]) == [] && CreateTransfers(rule, s, []) == Applied(s, []) && OneByOne(rule, s, []) == (s, [])
  {
  }

  lemma OneByOneLast<S>(rule: (S, seq<Transfer>) -> Applied<S>, s: S, es: seq<Entry>)
    requires es != []
    ensures OneByOne(rule, s, es).0 == PostOne(rule, OneByOne(rule, s, es[..|es| - 1]).0, es[|es| - 1]).0
  {
  }

  lemma CodesOfPrefix<S>(rule: (S, seq<Transfer>) -> Applied<S>, s: S, es: seq<Entry>, i: nat)
    requires i < |es| - 1
    ensures CodesOf(rule, s, es[..|es| - 1], i) == CodesOf(rule, s, es, i)
  {
    assert es[..|es| - 1][..i] == es[..i];
  }

  /** The single call answers with the one-by-one codes laid end to end. */
  lemma {:induction false} BatchCodes<S(!new)>(rule: (S, seq<Transfer>) -> Applied<S>, s: S, es: seq<Entry>)
    requires AllOrNothing(rule)
    ensures CreateTransfers(rule, s, All(es)).state == OneByOne(rule, s, es).0
    ensures |CreateTransfers(rule, s, All(es)).codes| == |All(es)|
    ensures forall i :: 0 <= i < |es| ==> SliceIs(CreateTransfers(rule, s, All(es)).codes, es, i,
              CodesOf(rule, s, es, i))
  {
    hide All, CreateTransfers, OneByOne, PostOne, TransfersFor, CodesOf, SliceIs, AllOrNothing;
    CodesLength(rule, s, All(es));
    if es == [] {
      NothingPosted(rule, s);
    } else {
      var n := |es| - 1;
      var front, last := All(es[..n]), TransfersFor(es[n]);
      BatchCodes(rule, s, es[..n]);
      AllClosed(es[..n]);
      AllLast(es);
      CreateConcat(rule, s, front, last);
      OneByOneLast(rule, s, es);
      PostOneState(rule, OneByOne(rule, s, es[..n]).0, es[n]);
      CodesLength(rule, OneByOne(rule, s, es[..n]).0, last);
      var x, y := CreateTransfers(rule, s, front), CreateTransfers(rule, OneByOne(rule, s, es[..n]).0, last);
      forall i | 0 <= i < |es|
        ensures SliceIs(CreateTransfers(rule, s, All(es)).codes, es, i, CodesOf(rule, s, es, i))
      {
        if i < n {
          CodesOfPrefix(rule, s, es, i);
          SliceKept(x.codes, y.codes, es, i, CodesOf(rule, s, es, i));
        } else {
          LastSlice(x.codes, y.codes, es, rule, s);
        }
      }
    }
  }

  lemma LastSlice<S>(codes: seq<nat>, more: seq<nat>, es: seq<Entry>, rule: (S, seq<Transfer>) -> Applied<S>, s: S)
    requires es != [] && |codes| == |All(es[..|es| - 1])| && |more| == |TransfersFor(es[|es| - 1])|
    requires more == CreateTransfers(rule, OneByOne(rule, s, es[..|es| - 1]).0, TransfersFor(es[|es| - 1])).codes
    ensures SliceIs(codes + more, es, |es| - 1, CodesOf(rule, s, es, |es| - 1))
  {
    hide All, CreateTransfers, OneByOne, TransfersFor;
    assert (codes + more)[|codes|..] == more;
  }

  // ---- flushBatch ----

  datatype Span = Span(start: nat, count: nat)

  /** What flushBatch sends to the caller of an entry whose one-by-one outcome is `o` and whose
      transfers begin at `start`. An entry with no transfers is sent nothing. */
  function Delivered(o: Outcome, start: nat): Option<Outcome> {
    match o
    case NoTransfers => None
    case TransferFailed(index, code) => Some(TransferFailed(start + index, code))
    case _ => Some(o)
  }

  ghost function BuildResult(e: Entry): Option<Outcome> {
    match BuildOf(e)
    case NegativeAmount(k) => Some(BuildFailed(k))
    case Built(_) => None
  }

  ghost predicate SpanOf(span: Span, es: seq<Entry>, i: nat)
    requires i < |es|
  {
    && span.count == |TransfersFor(es[i])|
    && (span == Span(0, 0) || span.start == |All(es[..i])|)
  }

  /** First loop: build every entry and remember where its transfers went. */
  method Collect(es: seq<Entry>) returns (all: seq<Transfer>, spans: seq<Span>, sent: seq<Option<Outcome>>)
    ensures all == All(es) && |spans| == |sent| == |es|
    ensures forall i :: 0 <= i < |es| ==> SpanOf(spans[i], es, i)
    ensures forall i :: 0 <= i < |es| ==> sent[i] == BuildResult(es[i])
  {
    hide BuildOf;
    all, spans, sent := [], [], [];
    for n := 0 to |es|
      invariant all == All(es[..n]) && |spans| == |sent| == n
      invariant forall i :: 0 <= i < n ==> SpanOf(spans[i], es, i)
      invariant forall i :: 0 <= i < n ==> sent[i] == BuildResult(es[i])
    {
      assert es[..n + 1][..n] == es[..n];
      var b := Build(es[n]);
      match b {
        case NegativeAmount(k) =>
          sent := sent + [Some(BuildFailed(k))];
          spans := spans + [Span(0, 0)];
        case Built(transfers) =>
          sent := sent + [None];
          spans := spans + [Span(|all|, |transfers|)];
          all := all + transfers;
      }
    }
    assert es[..|es|] == es;
  }

  /** The map of failed transfer indices. */
  method IndexFailures(codes: seq<nat>) returns (failed: map<nat, nat>)
    ensures forall j: nat :: j in failed <==> j < |codes| && Failure(codes[j])
    ensures forall j: nat :: j in failed <==> j < |codes| && codes[j] != 0 && codes[j] != 1
    ensures forall j: nat :: j in failed ==> failed[j] == codes[j]
  {
    var results := Report(codes);
    ReportsAll(codes);
    failed := map[];
    for k := 0 to |results|
      invariant forall j: nat ::
                  j in failed <==> j < |codes| && Failure(codes[j]) && exists l :: 0 <= l < k && results[l].index == j
      invariant forall j: nat :: j in failed ==> failed[j] == codes[j]
    {
      if Failure(results[k].code) {
        failed := failed[results[k].index := results[k].code];
      }
    }
    forall j: nat | j < |codes| && Failure(codes[j])
      ensures j in failed
    {
      var l :| 0 <= l < |results| && results[l] == TBResult(j, codes[j]);
    }
  }

  /** The inner loop that looks for an entry's first failed transfer. */
  method EntryVerdict(failed: map<nat, nat>, ghost codes: seq<nat>, span: Span) returns (out: Outcome)
    requires span.start + span.count <= |codes|
    requires forall j: nat :: j in failed <==> j < |codes| && Failure(codes[j])
    requires forall j: nat :: j in failed ==> failed[j] == codes[j]
    ensures out == Verdict(codes[span.start..span.start + span.count], span.start)
  {
    ghost var part := codes[span.start..span.start + span.count];
    for j := span.start to span.start + span.count
      invariant forall l :: 0 <= l < j - span.start ==> !Failure(part[l])
    {
      assert part[j - span.start] == codes[j];
      if j in failed {
        VerdictOfFirst(part, span.start, j - span.start);
        return TransferFailed(j, failed[j]);
      }
    }
    VerdictOfNone(part, span.start);
    return Posted;
  }

  lemma {:induction false} VerdictShift(codes: seq<nat>, start: nat, base: nat)
    ensures Delivered(Verdict(codes, base), start) == Some(Verdict(codes, start + base))
  {
    if codes != [] {
      VerdictShift(codes[1..], start, base + 1);
    }
  }

  /** The outcome of entry i when entries are posted one by one. */
  lemma {:induction false} OutcomeOf<S>(rule: (S, seq<Transfer>) -> Applied<S>, s: S, es: seq<Entry>, i: nat)
    requires i < |es|
    ensures OneByOne(rule, s, es).1[i] == PostOne(rule, OneByOne(rule, s, es[..i]).0, es[i]).1
  {
    if i < |es| - 1 {
      OutcomeOf(rule, s, es[..|es| - 1], i);
      assert es[..|es| - 1][..i] == es[..i];
    }
  }

  /** What the scatter loop must send to entry i. */
  lemma Scatter<S(!new)>(rule: (S, seq<Transfer>) -> Applied<S>, s: S, es: seq<Entry>, i: nat)
    requires i < |es| && AllOrNothing(rule)
    ensures Delivered(OneByOne(rule, s, es).1[i], |All(es[..i])|) ==
            if BuildResult(es[i]).Some? then BuildResult(es[i])
            else if TransfersFor(es[i]) == [] then None
            else Some(Verdict(CodesOf(rule, s, es, i), |All(es[..i])|))
  {
    hide OneByOne, All, BuildOf, CreateTransfers;
    OutcomeOf(rule, s, es, i);
    VerdictShift(CodesOf(rule, s, es, i), |All(es[..i])|, 0);
  }

  /** The answer for one caller: the build error if there was one, else the verdict on its part. */
  function Answer(codes: seq<nat>, span: Span, built: Option<Outcome>): Option<Outcome>
    requires span.start + span.count <= |codes|
  {
    if span.count == 0 then built else Some(Verdict(codes[span.start..span.start + span.count], span.start))
  }

  /** Last loop: one answer per caller. */
  method Distribute(codes: seq<nat>, spans: seq<Span>, built: seq<Option<Outcome>>) returns (sent: seq<Option<Outcome>>)
    requires |spans| == |built|
    requires forall i :: 0 <= i < |spans| ==> spans[i].start + spans[i].count <= |codes|
    ensures |sent| == |spans|
    ensures forall i :: 0 <= i < |spans| ==> sent[i] == Answer(codes, spans[i], built[i])
  {
    var failed := IndexFailures(codes);
    sent := built;
    for n := 0 to |spans|
      invariant |sent| == |spans|
      invariant forall i :: n <= i < |spans| ==> sent[i] == built[i]
      invariant forall i :: 0 <= i < n ==> sent[i] == Answer(codes, spans[i], built[i])
    {
      if spans[n].count != 0 {
        var out := EntryVerdict(failed, codes, spans[n]);
        sent := sent[n := Some(out)];
      }
    }
  }

  lemma {:induction false} AllEmpty(es: seq<Entry>, i: nat)
    requires i < |es| && All(es) == []
    ensures TransfersFor(es[i]) == []
  {
    hide All, TransfersFor;
    AllLast(es);
    if i < |es| - 1 {
      AllEmpty(es[..|es| - 1], i);
    }
  }

  /** No line is a debit or a credit. */
  predicate Silent(lines: seq<Line>) {
    forall i :: 0 <= i < |lines| ==> !Standard(lines[i].entryType)
  }

  /** An accepted entry builds, and builds nothing exactly when it is silent. */
  lemma SilentIff(e: Entry)
    requires Accepted(e.lines)
    ensures BuildOf(e).Built? && BuildResult(e).None?
    ensures Silent(e.lines) <==> TransfersFor(e) == []
  {
    hide Pieces, Accepted;
    AcceptedBuilds(e.lines);
    assert |BuildOf(e).transfers| == |Pieces(e.lines)|;
  }

  /** Batching preserves meaning. When the single call goes through, the store ends in the state that
      posting the entries one by one would reach and every caller gets the one-by-one outcome, with
      transfer indices counted across the batch; only an entry with no transfers gets no answer. A batch
      without transfers makes no call and is treated the same. When the call breaks, the store has
      either the one-by-one state or the old one, and every caller is told. So the caller of an accepted entry
      hears nothing exactly when the entry is silent and the call was answered or never made. */
  method FlushBatch<S(!new)>(rule: (S, seq<Transfer>) -> Applied<S>, s: S, es: seq<Entry>, call: CallResult)
    returns (s': S, sent: seq<Option<Outcome>>)
    requires AllOrNothing(rule)
    ensures |sent| == |es|
    ensures call.Answered? || All(es) == [] ==> s' == OneByOne(rule, s, es).0
    ensures call.Answered? || All(es) == [] ==> forall i :: 0 <= i < |es| ==>
              sent[i] == Delivered(OneByOne(rule, s, es).1[i], |All(es[..i])|)
    ensures call.Broken? && All(es) != [] ==> s' == if call.applied then OneByOne(rule, s, es).0 else s
    ensures call.Broken? && All(es) != [] ==> forall i :: 0 <= i < |es| ==>
              sent[i] == if BuildResult(es[i]).Some? then BuildResult(es[i]) else Some(CallFailed)
    ensures forall i :: 0 <= i < |es| && Accepted(es[i].lines) ==>
              (sent[i].None? <==> Silent(es[i].lines) && (call.Answered? || All(es) == []))
    ensures forall i :: 0 <= i < |es| ==>
              (sent[i] == Some(Posted) <==>
                call.Answered? && TransfersFor(es[i]) != [] && AllCreated(CodesOf(rule, s, es, i)))
  {
    hide All, OneByOne, BuildOf, CreateTransfers, AllOrNothing, TransfersFor, BuildResult, CodesOf, Accepted, Silent,
      AllCreated, Verdict;
    var all, spans, built := Collect(es);
    BatchCodes(rule, s, es);
    forall i | 0 <= i < |es|
      ensures BuildResult(es[i]) != Some(Posted)
      ensures Verdict(CodesOf(rule, s, es, i), |All(es[..i])|).Posted? <==> AllCreated(CodesOf(rule, s, es, i))
      ensures BuildResult(es[i]).Some? ==> TransfersFor(es[i]) == []
    {
      BuildFailedHasNone(es[i]);
      CreatedIff(CodesOf(rule, s, es, i), |All(es[..i])|);
    }
    forall i | 0 <= i < |es| && Accepted(es[i].lines)
      ensures BuildResult(es[i]).None? && (Silent(es[i].lines) <==> TransfersFor(es[i]) == [])
    {
      SilentIff(es[i]);
    }
    forall i | 0 <= i < |es|
      ensures Delivered(OneByOne(rule, s, es).1[i], |All(es[..i])|) ==
              if BuildResult(es[i]).Some? then BuildResult(es[i])
              else if TransfersFor(es[i]) == [] then None
              else Some(Verdict(CodesOf(rule, s, es, i), |All(es[..i])|))
    {
      Scatter(rule, s, es, i);
    }
    if |all| == 0 {
      forall i | 0 <= i < |es|
        ensures TransfersFor(es[i]) == []
      {
        AllEmpty(es, i);
      }
      NothingPosted(rule, s);
      return s, built;
    }
    var a := CreateTransfers(rule, s, all);
    if call.Broken? {
      s', sent := if call.applied then a.state else s, built;
      for n := 0 to |es|
        invariant |sent| == |es|
        invariant forall i :: 0 <= i < |es| ==>
                    sent[i] == if i < n && built[i].None? then Some(CallFailed) else built[i]
      {
        if sent[n].None? {
          sent := sent[n := Some(CallFailed)];
        }
      }
      return;
    }
    s' := a.state;
    forall i | 0 <= i < |es|
      ensures spans[i].start + spans[i].count <= |a.codes|
    {
      assert SliceIs(a.codes, es, i, CodesOf(rule, s, es, i)) && SpanOf(spans[i], es, i);
    }
    sent := Distribute(a.codes, spans, built);
    forall i | 0 <= i < |es|
      ensures sent[i] == Delivered(OneByOne(rule, s, es).1[i], |All(es[..i])|)
    {
      assert SliceIs(a.codes, es, i, CodesOf(rule, s, es, i));
    }
  }

  lemma BuildFailedHasNone(e: Entry)
    ensures BuildResult(e).Some? ==> TransfersFor(e) == [] && BuildResult(e).value.BuildFailed?
  {
  }

  /** Which callers of an answered batch hear back: for an accepted entry, exactly those with a debit or a credit
      line. */
  lemma AnsweredIff<S>(rule: (S, seq<Transfer>) -> Applied<S>, s: S, e: Entry, start: nat)
    requires Accepted(e.lines)
    ensures Delivered(PostOne(rule, s, e).1, start).Some?
            <==> exists i :: 0 <= i < |e.lines| && Standard(e.lines[i].entryType)
  {
    hide Pieces, Accepted, CreateTransfers, Verdict;
    SilentIff(e);
    VerdictShift(CreateTransfers(rule, s, TransfersFor(e)).codes, start, 0);
  }

  /** There is an entry that validation accepts and whose caller an answered batch never answers. */
  lemma UnansweredEntry<S>(rule: (S, seq<Transfer>) -> Applied<S>, s: S, start: nat) returns (e: Entry)
    ensures Accepted(e.lines) && Delivered(PostOne(rule, s, e).1, start) == None
  {
    hide Accepted;
    var lines := MemoEntry();
    e := Entry(1, lines);
    AnsweredIff(rule, s, e, start);
  }

  lemma {:induction false} WholeChain(ts: seq<Transfer>)
    requires forall i :: 0 <= i < |ts| ==> (ts[i].linked <==> i < |ts| - 1)
    ensures ChainLength(ts) == |ts|
  {
    if |ts| > 1 {
      WholeChain(ts[1..]);
    }
  }

  /** An entry is one chain, so an entry reported as failed left the ledger untouched. */
  lemma FailedEntryChangesNothing<S(!new)>(rule: (S, seq<Transfer>) -> Applied<S>, s: S, e: Entry)
    requires AllOrNothing(rule)
    ensures !PostOne(rule, s, e).1.Posted? ==> PostOne(rule, s, e).0 == s
  {
    match BuildOf(e)
    case NegativeAmount(_) =>
    case Built(ts) =>
      if ts != [] {
        assert TransfersOf(ts, e.id, Pieces(e.lines));
        WholeChain(ts);
        assert ts[..|ts|] == ts;
        var first := rule(s, ts);
        assert CreateTransfers(rule, s, ts) == Applied(first.state, first.codes);
        VerdictPosted(first.codes, 0);
      }
  }

  // ---- Posting again ----

  /** A store that recognises what it holds: a chain it holds is answered with code 1 throughout and changes
      nothing, a chain that goes through is held afterwards, and nothing is ever let go. */
  ghost predicate Remembers<S(!new)>(rule: (S, seq<Transfer>) -> Applied<S>, holds: (S, Transfer) -> bool) {
    && (forall s, chain :: HoldsAll(holds, s, chain) ==>
          rule(s, chain).state == s && forall i :: 0 <= i < |rule(s, chain).codes| ==> rule(s, chain).codes[i] == 1)
    && (forall s, chain :: AllCreated(rule(s, chain).codes) ==> HoldsAll(holds, rule(s, chain).state, chain))
    && (forall s, chain, t :: holds(s, t) ==> holds(rule(s, chain).state, t))
  }

  ghost predicate HoldsAll<S>(holds: (S, Transfer) -> bool, s: S, ts: seq<Transfer>) {
    forall i :: 0 <= i < |ts| ==> holds(s, ts[i])
  }

  /** An entry is posted as one chain. */
  lemma {:induction false} PostsOneChain<S>(rule: (S, seq<Transfer>) -> Applied<S>, s: S, e: Entry)
    requires TransfersFor(e) != []
    ensures var r := rule(s, TransfersFor(e)); PostOne(rule, s, e) == (r.state, Verdict(r.codes, 0))
  {
    var ts := TransfersFor(e);
    assert TransfersOf(ts, e.id, Pieces(e.lines));
    WholeChain(ts);
    assert ts[..|ts|] == ts;
    var r := rule(s, ts);
    assert CreateTransfers(rule, s, ts) == Applied(r.state, r.codes);
  }

  lemma {:induction false} PostedIsHeld<S(!new)>(rule: (S, seq<Transfer>) -> Applied<S>, holds: (S, Transfer) -> bool,
      s: S, e: Entry)
    requires Remembers(rule, holds) && PostOne(rule, s, e).1.Posted?
    ensures TransfersFor(e) != [] && HoldsAll(holds, PostOne(rule, s, e).0, TransfersFor(e))
  {
    hide Verdict, AllCreated, HoldsAll;
    PostsOneChain(rule, s, e);
    CreatedIff(rule(s, TransfersFor(e)).codes, 0);
  }

  lemma {:induction false} HeldIsPosted<S(!new)>(rule: (S, seq<Transfer>) -> Applied<S>, holds: (S, Transfer) -> bool,
      s: S, e: Entry)
    requires Remembers(rule, holds) && TransfersFor(e) != [] && HoldsAll(holds, s, TransfersFor(e))
    ensures PostOne(rule, s, e) == (s, Posted)
  {
    hide Verdict, HoldsAll, TransfersFor, PostOne;
    PostsOneChain(rule, s, e);
    CreatedIff(rule(s, TransfersFor(e)).codes, 0);
  }

  lemma {:induction false} StillHeld<S(!new)>(rule: (S, seq<Transfer>) -> Applied<S>, holds: (S, Transfer) -> bool,
      s: S, e: Entry,
                           ts: seq<Transfer>)
    requires Remembers(rule, holds) && HoldsAll(holds, s, ts)
    ensures HoldsAll(holds, PostOne(rule, s, e).0, ts)
  {
    hide Verdict, TransfersFor, PostOne;
    if TransfersFor(e) == [] {
      NothingToPost(rule, s, e);
    } else {
      PostsOneChain(rule, s, e);
    }
  }

  lemma {:induction false} NothingToPost<S>(rule: (S, seq<Transfer>) -> Applied<S>, s: S, e: Entry)
    requires TransfersFor(e) == []
    ensures PostOne(rule, s, e).0 == s
  {
  }

  lemma {:induction false} StillHeldAfter<S(!new)>(rule: (S, seq<Transfer>) -> Applied<S>,
      holds: (S, Transfer) -> bool, s: S, es: seq<Entry>, ts: seq<Transfer>)
    requires Remembers(rule, holds) && HoldsAll(holds, s, ts)
    ensures HoldsAll(holds, OneByOne(rule, s, es).0, ts)
  {
    hide Remembers, HoldsAll, PostOne, OneByOne;
    if es == [] {
      NothingPosted(rule, s);
    } else {
      var n := |es| - 1;
      StillHeldAfter(rule, holds, s, es[..n], ts);
      OneByOneLast(rule, s, es);
      StillHeld(rule, holds, OneByOne(rule, s, es[..n]).0, es[n], ts);
    }
  }

  /** Retries are harmless. Once an entry has been posted, posting it again, alone or anywhere in a later sequence of
      entries, is reported as posted and leaves the state as it was just before. */
  lemma {:induction false} RetryIsHarmless<S(!new)>(rule: (S, seq<Transfer>) -> Applied<S>,
      holds: (S, Transfer) -> bool, s: S, e: Entry,
                                 es: seq<Entry>, i: nat)
    requires Remembers(rule, holds) && PostOne(rule, s, e).1.Posted? && i < |es| && es[i] == e
    ensures var t := PostOne(rule, s, e).0;
            && PostOne(rule, t, e) == (t, Posted)
            && OneByOne(rule, t, es).1[i] == Posted
            && OneByOne(rule, t, es[..i + 1]).0 == OneByOne(rule, t, es[..i]).0
  {
    hide Remembers, HoldsAll, PostOne, OneByOne, TransfersFor;
    var t := PostOne(rule, s, e).0;
    PostedIsHeld(rule, holds, s, e);
    HeldIsPosted(rule, holds, t, e);
    StillHeldAfter(rule, holds, t, es[..i], TransfersFor(e));
    HeldIsPosted(rule, holds, OneByOne(rule, t, es[..i]).0, e);
    OutcomeOf(rule, t, es, i);
    assert es[..i + 1][..i] == es[..i];
    OneByOneLast(rule, t, es[..i + 1]);
  }

  /** A batch that repeats posted entries only. */
  lemma {:induction false} RepeatsChangeNothing<S(!new)>(rule: (S, seq<Transfer>) -> Applied<S>,
      holds: (S, Transfer) -> bool, s: S, es: seq<Entry>)
    requires Remembers(rule, holds)
    requires forall i :: 0 <= i < |es| ==> TransfersFor(es[i]) != [] && HoldsAll(holds, s, TransfersFor(es[i]))
    ensures OneByOne(rule, s, es).0 == s && forall i :: 0 <= i < |es| ==> OneByOne(rule, s, es).1[i] == Posted
  {
    hide Remembers, HoldsAll, PostOne, TransfersFor;
    if es != [] {
      var n := |es| - 1;
      RepeatsChangeNothing(rule, holds, s, es[..n]);
      HeldIsPosted(rule, holds, s, es[n]);
    }
  }

  lemma {:induction false} PostedAreHeld<S(!new)>(rule: (S, seq<Transfer>) -> Applied<S>,
      holds: (S, Transfer) -> bool, s: S, es: seq<Entry>, i: nat)
    requires Remembers(rule, holds) && i < |es| && OneByOne(rule, s, es).1[i] == Posted
    ensures TransfersFor(es[i]) != [] && HoldsAll(holds, OneByOne(rule, s, es).0, TransfersFor(es[i]))
  {
    hide Remembers, HoldsAll, PostOne, TransfersFor, OneByOne;
    var n := |es| - 1;
    OutcomeOf(rule, s, es, i);
    OneByOneLast(rule, s, es);
    if i == n {
      PostedIsHeld(rule, holds, OneByOne(rule, s, es[..n]).0, es[n]);
    } else {
      OutcomeOf(rule, s, es[..n], i);
      assert es[..n][..i] == es[..i];
      PostedAreHeld(rule, holds, s, es[..n], i);
      StillHeld(rule, holds, OneByOne(rule, s, es[..n]).0, es[n], TransfersFor(es[i]));
    }
  }

  /** A batch sent again after it went through, as after a call that broke once it was applied: posting it one by one
      a second time posts everything again and leaves the ledger as it was. */
  lemma {:induction false} BatchRetryIsHarmless<S(!new)>(rule: (S, seq<Transfer>) -> Applied<S>,
      holds: (S, Transfer) -> bool, s: S, es: seq<Entry>)
    requires Remembers(rule, holds) && forall i :: 0 <= i < |es| ==> OneByOne(rule, s, es).1[i] == Posted
    ensures var t := OneByOne(rule, s, es).0;
            OneByOne(rule, t, es).0 == t && forall i :: 0 <= i < |es| ==> OneByOne(rule, t, es).1[i] == Posted
  {
    hide Remembers, HoldsAll, PostOne, TransfersFor, OneByOne;
    forall i | 0 <= i < |es|
      ensures TransfersFor(es[i]) != [] && HoldsAll(holds, OneByOne(rule, s, es).0, TransfersFor(es[i]))
    {
      PostedAreHeld(rule, holds, s, es, i);
    }
    RepeatsChangeNothing(rule, holds, OneByOne(rule, s, es).0, es);
  }

  /** A store that keeps what it is sent and answers accordingly. */
  function Keep(s: set<Transfer>, chain: seq<Transfer>): Applied<set<Transfer>> {
    if forall i :: 0 <= i < |chain| ==> chain[i] in s then Applied(s, seq(|chain|, _ => 1))
    else Applied(s + (set t | t in chain), seq(|chain|, _ => 0))
  }

  predicate Kept(s: set<Transfer>, t: Transfer) {
    t in s
  }

  /** It meets what is asked of a store. */
  lemma KeepRemembers()
    ensures Remembers(Keep, Kept) && AllOrNothing(Keep)
  {
    forall s, chain
      ensures AllCreated(Keep(s, chain).codes) && HoldsAll(Kept, Keep(s, chain).state, chain)
      ensures !AnyFailure(Keep(s, chain).codes)
    {
    }
    forall s, chain | HoldsAll(Kept, s, chain)
      ensures Keep(s, chain) == Applied(s, seq(|chain|, _ => 1))
    {
      forall i | 0 <= i < |chain| ensures chain[i] in s {
        assert Kept(s, chain[i]);
      }
    }
  }
}
