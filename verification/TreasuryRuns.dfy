/** What holds over every sequential run of the treasury manager. */
module TreasuryRuns {
  import opened Idempotency
  import opened Micro
  import opened Words
  import opened ReserveOps
  import opened Treasury

  datatype Happening =
    | Called(call: Call, env: Environment, outcome: Outcome)
    | BalanceUpdated(position: PositionKey, value: real, ok: bool)
    | Flush(failing: set<PositionKey>)
    | KeyCleanup(maxAge: int, now: int, later: int)
    | LogCleanup(expired: nat)

  ghost predicate Step(v: View, h: Happening, w: View) {
    match h
    case Called(c, env, o) => Performed(v, c, env, o, w)
    case BalanceUpdated(k, value, ok) => BalanceSet(v, k, value, ok, w)
    case Flush(failing) => Flushed(v, failing, w)
    case KeyCleanup(maxAge, now, later) => KeysCleaned(v, maxAge, now, later, w)
    case LogCleanup(expired) => w == v.(wal := Cleaned(v.wal, expired))
  }

  /** views[i] is the state before happening i. */
  ghost predicate IsRun(views: seq<View>, hs: seq<Happening>) {
    |views| == |hs| + 1 && forall i :: 0 <= i < |hs| ==> Step(views[i], hs[i], views[i + 1])
  }

  // ---- Soundness ----

  predicate Sound(c: Counters) {
    0 <= c.locked && 0 <= c.reserved && c.locked + c.reserved <= c.balance < TWO_63
  }

  ghost predicate AllSound(v: View) {
    forall k :: k in v.positions ==> Sound(v.positions[k])
  }

  function Delta(op: Op, a: int): Counters {
    match op
    case Reserve => Counters(0, 0, a)
    case Release => Counters(0, 0, -a)
    case Commit => Counters(0, a, -a)
    case Consume => Counters(-a, 0, -a)
    case Credit => Counters(a, 0, 0)
    case Debit => Counters(-a, 0, 0)
  }

  function Plus(c: Counters, d: Counters): Counters {
    Counters(c.balance + d.balance, c.locked + d.locked, c.reserved + d.reserved)
  }

  /** In a sound position the guards do what they are meant to do. */
  lemma AvailableExact(c: Counters)
    requires Sound(c)
    ensures Available(c) == c.balance - c.locked - c.reserved
  {
  }

  /** No operation but a credit leaves int64 or breaks a sound position, and none wraps around. */
  lemma AppliedSound(op: Op, c: Counters, a: int)
    requires Sound(c) && 0 <= a && Guard(op, c, a)
    requires op.Credit? ==> c.balance + a < TWO_63
    ensures Applied(op, c, a) == Plus(c, Delta(op, a)) && Sound(Applied(op, c, a))
  {
    hide Wrap64;
    AvailableExact(c);
  }

  /** An operation is granted exactly when completing it leaves the position sound; a credit is always granted, and
      leaves the position sound exactly when it does not overflow. */
  lemma GuardIff(op: Op, c: Counters, a: int)
    requires Sound(c) && 0 <= a
    ensures Guard(op, c, a) <==> Sound(Plus(c, Delta(op, a))) || op.Credit?
    ensures Sound(Plus(c, Delta(Credit, a))) <==> c.balance + a < TWO_63
  {
    hide Available;
    AvailableExact(c);
  }

  /** A credit past int64 leaves a negative balance. */
  lemma OverflowUnsound(c: Counters, a: int)
    requires Sound(c) && 0 <= a <= MAX_MICRO && c.balance + a >= TWO_63
    ensures Applied(Credit, c, a).balance == c.balance + a - TWO_64 < 0
  {
  }

  /** Commit and consume move money that was reserved and leave what is available alone. */
  lemma AvailableUnchanged(op: Op, c: Counters, a: int)
    requires op.Commit? || op.Consume?
    requires Sound(c) && 0 <= a && Guard(op, c, a)
    ensures Available(Applied(op, c, a)) == Available(c)
  {
    hide Available, Applied;
    AppliedSound(op, c, a);
    AvailableExact(c);
    AvailableExact(Applied(op, c, a));
  }

  /** ConsumeReservation's own balance check can never be the one that refuses. */
  lemma ConsumeNeedsOnlyReserved(c: Counters, a: int)
    requires Sound(c)
    ensures Guard(Consume, c, a) <==> a <= c.reserved
  {
  }

  /** An error, other than the panic of CommitReservation, leaves every counter and the call's idempotency
      key as they were. */
  lemma ErrorLeavesNoTrace(v: View, c: Call, env: Environment, o: Outcome, w: View)
    requires Performed(v, c, env, o, w) && !o.Success() && !o.Panicked?
    ensures w.positions == v.positions
    ensures KeyOf(c) in w.keys <==> KeyOf(c) in v.keys
    ensures KeyOf(c) in v.keys ==> w.keys[KeyOf(c)] == v.keys[KeyOf(c)]
  {
  }

  lemma OpNamesDiffer(a: Op, b: Op)
    ensures OpName(a) == OpName(b) <==> a == b
  {
    assert |OpName(Reserve)| == 7 && |OpName(Release)| == 7 && |OpName(Consume)| == 7;
    assert |OpName(Commit)| == 6 && |OpName(Credit)| == 6 && |OpName(Debit)| == 5;
    assert OpName(Reserve)[2] == 's' && OpName(Release)[2] == 'l' && OpName(Consume)[2] == 'n';
    assert OpName(Commit)[1] == 'o' && OpName(Credit)[1] == 'r';
  }

  /** A call takes the key of no other operation and of no other reference: whatever it does, a call that differs in
      one of the two is a duplicate after it only if it was one before. */
  lemma KeysKeptApart(v: View, c: Call, env: Environment, o: Outcome, w: View, d: Call)
    requires Performed(v, c, env, o, w) && (d.op != c.op || d.reference != c.reference)
    ensures KeyOf(d) in w.keys ==> KeyOf(d) in v.keys
  {
    hide OpName;
    OpNamesDiffer(c.op, d.op);
    assert KeyOf(d) != KeyOf(c);
    if o.Done? || o.Panicked? {
      assert KeyOf(d) in w.keys ==> KeyOf(d) in w.keys - {KeyOf(c)};
    }
  }

  /** A panic happens exactly on a commit of an amount outside the range that the other operations check,
      and blocks its own retries: the key stays taken although nothing was committed. */
  lemma PanicKeepsKey(v: View, c: Call, env: Environment, o: Outcome, w: View)
    requires Performed(v, c, env, o, w)
    ensures o.Panicked? <==>
              c.op.Commit? && c.amount > 0.0 && !InRange(c.amount) && KeyOf(c) !in v.keys && c.position in v.positions
    ensures o.Panicked? ==> w.positions == v.positions && KeyOf(c) in w.keys && KeyOf(c) !in v.keys
  {
    hide Pruned, Recorded, WalAfter, StoredAfter, DirtyAfter, Applied, Guard, ToMicro;
  }

  /** The one way out: a completed credit whose exact sum is not an int64. */
  predicate Overflows(v: View, h: Happening) {
    && h.Called? && h.outcome.Done? && h.call.op.Credit? && h.call.position in v.positions
    && v.positions[h.call.position].balance + ToMicro(h.call.amount) >= TWO_63
  }

  lemma DoneFacts(v: View, c: Call, env: Environment)
    requires Decide(v, c, env).Done?
    ensures c.position in v.positions && 0 <= ToMicro(c.amount) <= MAX_MICRO
    ensures Guard(c.op, v.positions[c.position], ToMicro(c.amount))
  {
    hide Guard, Recorded;
  }

  lemma CallSound(v: View, c: Call, env: Environment, o: Outcome, w: View)
    requires AllSound(v) && Performed(v, c, env, o, w)
    ensures AllSound(w) <==> !Overflows(v, Called(c, env, o))
  {
    hide Decide, KeysAfter, WalAfter, StoredAfter, DirtyAfter, Applied, Guard, Recorded, Entry, Sound, ToMicro;
    if o.Done? {
      DoneFacts(v, c, env);
      var k, a := c.position, ToMicro(c.amount);
      OneSound(c.op, v.positions[k], a);
      assert w.positions[k] == Applied(c.op, v.positions[k], a);
    }
  }

  lemma OneSound(op: Op, c: Counters, a: int)
    requires Sound(c) && 0 <= a <= MAX_MICRO && Guard(op, c, a)
    ensures Sound(Applied(op, c, a)) <==> !(op.Credit? && c.balance + a >= TWO_63)
  {
    hide Guard, Applied;
    if op.Credit? && c.balance + a >= TWO_63 {
      OverflowUnsound(c, a);
    } else {
      AppliedSound(op, c, a);
    }
  }

  lemma BalanceSetSound(v: View, k: PositionKey, value: real, ok: bool, w: View)
    requires AllSound(v) && BalanceSet(v, k, value, ok, w)
    ensures AllSound(w)
  {
    if ok {
      assert Sound(v.positions[k]);
    }
  }

  lemma StepSound(v: View, h: Happening, w: View)
    requires AllSound(v) && Step(v, h, w)
    ensures AllSound(w) <==> !Overflows(v, h)
  {
    hide Performed, BalanceSet, FlatStep;
    match h
    case Called(c, env, o) => CallSound(v, c, env, o, w);
    case BalanceUpdated(k, value, ok) => BalanceSetSound(v, k, value, ok, w);
    case _ =>
  }

  ghost predicate NoOverflow(views: seq<View>, hs: seq<Happening>, n: nat)
    requires n <= |hs| < |views|
  {
    forall i :: 0 <= i < n ==> !Overflows(views[i], hs[i])
  }

  /** Over every run, whatever fails: 0 <= locked, 0 <= reserved, locked + reserved <= balance and the
      balance is an int64, in every state, exactly when no credit overflows. */
  lemma {:induction false} RunSound(views: seq<View>, hs: seq<Happening>, n: nat)
    requires IsRun(views, hs) && AllSound(views[0]) && n <= |hs|
    ensures (forall i :: 0 <= i <= n ==> AllSound(views[i])) <==> NoOverflow(views, hs, n)
    decreases n
  {
    hide Step, AllSound, Overflows;
    if n > 0 {
      RunSound(views, hs, n - 1);
      if NoOverflow(views, hs, n - 1) {
        StepSound(views[n - 1], hs[n - 1], views[n]);
      }
    }
  }

  /** Over every run in which no credit overflows: a call ends for want of funds exactly when it passed the checks
      before, is not a credit, and completing it would have left its position unsound. Otherwise only the log or
      the store can stop it. */
  lemma InsufficientIff(views: seq<View>, hs: seq<Happening>, n: nat)
    requires IsRun(views, hs) && AllSound(views[0]) && n < |hs| && NoOverflow(views, hs, n) && hs[n].Called?
    ensures var v, c := views[n], hs[n].call;
            var passed := Entry(v, c).Done? && InRange(c.amount);
            && (hs[n].outcome.Insufficient? <==>
                  && passed && !c.op.Credit?
                  && !Sound(Plus(v.positions[c.position], Delta(c.op, ToMicro(c.amount)))))
            && (passed && !hs[n].outcome.Insufficient? ==>
                  hs[n].outcome == Recorded(v.replaying, c, hs[n].env))
  {
    hide KeysAfter, PositionsAfter, WalAfter, StoredAfter, DirtyAfter, Guard, Sound, Recorded, NoOverflow;
    RunSound(views, hs, n);
    var v, c := views[n], hs[n].call;
    assert Step(v, hs[n], views[n + 1]);
    if Entry(v, c).Done? && InRange(c.amount) {
      GuardIff(c.op, v.positions[c.position], ToMicro(c.amount));
    }
  }

  /** A call completes exactly when its amount is positive and in range, three failed flushes do not keep it out, its
      reference is new to the operation, its position is loaded, completing it leaves the position sound, and
      neither the log nor, where it matters, the store refuses. */
  lemma CompletesIff(v: View, c: Call, env: Environment)
    requires AllSound(v)
    ensures Decide(v, c, env).Done? <==>
              && 0.0 < c.amount && InRange(c.amount) && !(Gated(c.op) && v.failures >= 3)
              && Key(c.reference, OpName(c.op)) !in v.keys && c.position in v.positions
              && (c.op.Credit? || Sound(Plus(v.positions[c.position], Delta(c.op, ToMicro(c.amount)))))
              && (v.replaying || env.log.Queued?)
              && ((c.op.Reserve? || c.op.Credit?) && 0.0 != env.threshold <= c.amount ==> env.storeOk)
  {
    hide Guard, Sound, ToMicro;
    if c.position in v.positions && c.amount > 0.0 {
      GuardIff(c.op, v.positions[c.position], ToMicro(c.amount));
    }
  }

  /** A record is written exactly when the call gets as far as the log, outside a replay, and the database takes it; so
      also when the queue behind it is full or the store refuses afterwards. */
  lemma RecordedIff(v: View, c: Call, env: Environment, o: Outcome, w: View)
    requires Performed(v, c, env, o, w)
    ensures var reached := Entry(v, c).Done? && InRange(c.amount) && o != Insufficient;
            w.wal == if reached && !v.replaying && !env.log.WalRefused?
              then v.wal + [WalOp(c.op, c.position, c.amount, c.reference)] else v.wal
    ensures o.LogFailed? ==> !v.replaying && !env.log.Queued?
  {
    hide KeysAfter, PositionsAfter, StoredAfter, DirtyAfter, Guard, ToMicro;
  }

  /** UpdateBalance is accepted exactly when the amount is in range and the position is sound with it. */
  lemma UpdateAcceptedIff(v: View, k: PositionKey, value: real, ok: bool, w: View)
    requires AllSound(v) && BalanceSet(v, k, value, ok, w)
    ensures ok <==> InRange(value) && k in v.positions && Sound(v.positions[k].(balance := ToMicro(value)))
    ensures ok ==> w.positions == v.positions[k := v.positions[k].(balance := ToMicro(value))]
    ensures !ok ==> w == v
  {
    if k in v.positions {
      assert Sound(v.positions[k]);
    }
  }

  /** A credit can overflow. */
  lemma CreditCanOverflow() returns (c: Counters, a: int)
    ensures Sound(c) && 0 < a <= MAX_MICRO && Guard(Credit, c, a) && !Sound(Applied(Credit, c, a))
  {
    c, a := Counters(MAX_MICRO, 0, 0), MAX_MICRO;
    OverflowUnsound(c, a);
  }

  // ---- Conservation ----

  /** Sum of the amounts of the completed calls of one kind on one position. */
  function Sum(hs: seq<Happening>, k: PositionKey, op: Op): int {
    if hs == [] then 0
    else Sum(hs[..|hs| - 1], k, op) + Part(hs[|hs| - 1], k, op)
  }

  function Part(h: Happening, k: PositionKey, op: Op): int {
    if h.Called? && h.outcome.Done? && h.call.op == op && h.call.position == k then ToMicro(h.call.amount) else 0
  }

  /** All the completed calls on one position, as one change. */
  function Net(hs: seq<Happening>, k: PositionKey): Counters {
    Counters(Sum(hs, k, Credit) - Sum(hs, k, Debit) - Sum(hs, k, Consume),
             Sum(hs, k, Commit),
             Sum(hs, k, Reserve) - Sum(hs, k, Release) - Sum(hs, k, Commit) - Sum(hs, k, Consume))
  }

  /** The contribution of one happening. */
  function Change(h: Happening, k: PositionKey): Counters {
    if h.Called? && h.outcome.Done? && h.call.position == k then Delta(h.call.op, ToMicro(h.call.amount))
      else Counters(0, 0, 0)
  }

  lemma NetStep(hs: seq<Happening>, k: PositionKey)
    requires hs != []
    ensures Net(hs, k) == Plus(Net(hs[..|hs| - 1], k), Change(hs[|hs| - 1], k))
  {
    hide ToMicro;
  }

  /** What a direct setting of the balance adds to it. */
  function Correction(v: View, h: Happening, k: PositionKey): int {
    if h.BalanceUpdated? && h.ok && h.position == k && k in v.positions then ToMicro(h.value) - v.positions[k].balance
      else 0
  }

  function Corrections(views: seq<View>, hs: seq<Happening>, n: nat, k: PositionKey): int
    requires n <= |hs| < |views|
  {
    if n == 0 then 0 else Corrections(views, hs, n - 1, k) + Correction(views[n - 1], hs[n - 1], k)
  }

  lemma StepChange(v: View, h: Happening, w: View, k: PositionKey)
    requires AllSound(v) && Step(v, h, w) && !Overflows(v, h)
    requires k in v.positions
    ensures k in w.positions
    ensures var sum := Plus(v.positions[k], Change(h, k));
            w.positions[k] == sum.(balance := sum.balance + Correction(v, h, k))
  {
    hide Decide, KeysAfter, WalAfter, StoredAfter, DirtyAfter, Applied, Guard, Recorded, Entry, ToMicro, FlatStep,
      Delta,
      InRange, Wrap64, Rows, Cleaned;
    if h.Called? && h.outcome.Done? && h.call.position == k {
      DoneFacts(v, h.call, h.env);
      AppliedSound(h.call.op, v.positions[k], ToMicro(h.call.amount));
    }
  }

  /** Counters are running totals: in every state of a run without overflow, each counter is its initial
      value plus what the completed operations say, to the micro-unit, and the balance what UpdateBalance has
      corrected it by. */
  lemma {:induction false} CountersAreTotals(views: seq<View>, hs: seq<Happening>, n: nat, k: PositionKey)
    requires IsRun(views, hs) && AllSound(views[0]) && n <= |hs| && NoOverflow(views, hs, n)
    requires k in views[0].positions
    ensures k in views[n].positions
    ensures var sum := Plus(views[0].positions[k], Net(hs[..n], k));
            views[n].positions[k] == sum.(balance := sum.balance + Corrections(views, hs, n, k))
    decreases n
  {
    hide Step, AllSound, Overflows, Change, Net, Correction;
    if n > 0 {
      CountersAreTotals(views, hs, n - 1, k);
      RunSound(views, hs, n - 1);
      StepChange(views[n - 1], hs[n - 1], views[n], k);
      NetStep(hs[..n], k);
      assert hs[..n][..n - 1] == hs[..n - 1];
    } else {
      NetOfNothing(k);
      assert hs[..0] == [];
    }
  }

  lemma NetOfNothing(k: PositionKey)
    ensures Net([], k) == Counters(0, 0, 0)
  {
  }

  // ---- Duplicates ----

  /** Every clock reading within two minutes of t, every cleanup with at least that age. */
  predicate Timely(h: Happening, t: int) {
    match h
    case Called(c, _, _) => c.now <= t + FORCED_MAX_AGE
    case KeyCleanup(maxAge, now, later) => now <= later <= t + FORCED_MAX_AGE && maxAge >= FORCED_MAX_AGE
    case _ => true
  }

  lemma KeyKept(v: View, h: Happening, w: View, key: Key, t: int)
    requires Step(v, h, w) && Timely(h, t)
    requires key in v.keys && v.keys[key] == t
    ensures key in w.keys && w.keys[key] == t
  {
    hide WalAfter, StoredAfter, DirtyAfter, PositionsAfter, Guard, Recorded, ToMicro, InRange, Rows;
    if h.Called? && KeyOf(h.call) != key && h.outcome == Done {
      assert key in w.keys - {KeyOf(h.call)};
    }
  }

  lemma {:induction false} KeyHeld(views: seq<View>, hs: seq<Happening>, start: nat, end: nat)
    requires IsRun(views, hs) && start < end <= |hs|
    requires hs[start].Called? && hs[start].outcome.Done?
    requires forall i :: start < i < end ==> Timely(hs[i], hs[start].call.now)
    ensures KeyOf(hs[start].call) in views[end].keys && views[end].keys[KeyOf(hs[start].call)] == hs[start].call.now
    decreases end
  {
    hide WalAfter, StoredAfter, DirtyAfter, PositionsAfter, Decide, KeyOf, Timely;
    if end == start + 1 {
      assert Step(views[start], hs[start], views[end]);
    } else {
      hide Step;
      KeyHeld(views, hs, start, end - 1);
      KeyKept(views[end - 1], hs[end - 1], views[end], KeyOf(hs[start].call), hs[start].call.now);
    }
  }

  /** A completed call repeated within two minutes, by any number of redeliveries and whatever else happens
      in between, changes nothing at all. */
  lemma DuplicateChangesNothing(views: seq<View>, hs: seq<Happening>, first: nat, again: nat)
    requires IsRun(views, hs) && first < again < |hs|
    requires hs[first].Called? && hs[first].outcome.Done? && hs[again].Called?
    requires KeyOf(hs[again].call) == KeyOf(hs[first].call)
    requires forall i :: first < i < again ==> Timely(hs[i], hs[first].call.now)
    ensures !hs[again].outcome.Done? && views[again + 1] == views[again]
  {
    hide Timely, WalAfter, StoredAfter, DirtyAfter, Recorded, Guard, ToMicro, InRange, KeyOf;
    KeyHeld(views, hs, first, again);
    var v, c, env, o := views[again], hs[again].call, hs[again].env, hs[again].outcome;
    assert Step(v, hs[again], views[again + 1]);
    NotRecorded(v, c, env, o);
  }

  // ---- The store ----

  /** A position that is not dirty is stored as it is. */
  ghost predicate Covered(v: View) {
    && v.dirty <= v.positions.Keys
    && forall k :: k in v.positions && k !in v.dirty ==> k in v.stored && v.stored[k] == RowOf(v.positions[k])
  }

  lemma CallCovered(v: View, c: Call, env: Environment, o: Outcome, w: View)
    requires Covered(v) && Performed(v, c, env, o, w)
    ensures Covered(w)
  {
    hide KeysAfter, WalAfter, Applied, Guard, RowOf, InRange, ToMicro, KeyOf, Flushes;
  }

  lemma StepCovered(v: View, h: Happening, w: View)
    requires Covered(v) && Step(v, h, w)
    ensures Covered(w)
  {
    hide Performed, FlatStep, RowOf, InRange, ToMicro, Wrap64;
    if h.Called? {
      CallCovered(v, h.call, h.env, h.outcome, w);
    }
  }

  /** Nothing is forgotten: after any run, one clean flush makes the store equal to memory, and reopens Reserve if
      anything was dirty. */
  lemma {:induction false} FlushCatchesUp(views: seq<View>, hs: seq<Happening>, w: View)
    requires IsRun(views, hs) && Covered(views[0]) && Flushed(views[|hs|], {}, w)
    ensures forall k :: k in w.positions ==> k in w.stored && w.stored[k] == RowOf(w.positions[k])
    ensures w.dirty == {} && (views[|hs|].dirty != {} ==> w.failures == 0)
  {
    hide Step, RowOf;
    RunCovered(views, hs, |hs|);
  }

  lemma {:induction false} RunCovered(views: seq<View>, hs: seq<Happening>, n: nat)
    requires IsRun(views, hs) && Covered(views[0]) && n <= |hs|
    ensures Covered(views[n])
    decreases n
  {
    hide Step, Covered;
    if n > 0 {
      RunCovered(views, hs, n - 1);
      StepCovered(views[n - 1], hs[n - 1], views[n]);
    }
  }

  /** A non-zero failure count has work waiting that will reset it. */
  predicate Pending(v: View) {
    v.failures > 0 ==> v.dirty != {}
  }

  /** A synchronous flush that takes the last dirty mark while failures are counted. */
  predicate Strands(v: View, h: Happening) {
    h.Called? && Stores(h.call, h.env, h.outcome) && v.failures > 0 && v.dirty <= {h.call.position}
  }

  /** Every step keeps the failure count resettable, with one exact exception: the flush loop skips an empty
      dirty set, so a synchronous flush that empties it leaves Reserve rejecting. */
  lemma PendingIff(v: View, h: Happening, w: View)
    requires Pending(v) && Step(v, h, w)
    ensures Pending(w) <==> !Strands(v, h)
  {
    hide KeysAfter, WalAfter, StoredAfter, Decide, Applied, FlatStep, Rows, InRange, ToMicro, Wrap64;
    if h.Called? && Stores(h.call, h.env, h.outcome) {
      assert w.dirty == v.dirty - {h.call.position};
      assert w.dirty == {} <==> v.dirty <= {h.call.position};
    } else if h.Called? {
      assert v.dirty <= w.dirty;
    }
  }

  /** Flush failures are counted and nothing is dirty: Reserve, credit and debit are refused, and the flush
      loop has nothing to flush. */
  predicate Stranded(v: View) {
    v.failures >= MAX_FLUSH_FAILURES && v.dirty == {}
  }

  predicate Gated(op: Op) {
    op.Reserve? || op.Credit? || op.Debit?
  }

  /** The step leaves a dirty mark. */
  predicate Marks(h: Happening) {
    || (h.BalanceUpdated? && h.ok)
    || (h.Called? && (h.outcome.LogFailed? || h.outcome.FlushFailed?
        || (h.outcome.Done? && !Stores(h.call, h.env, h.outcome))))
  }

  lemma StrandedStep(v: View, h: Happening, w: View)
    requires Stranded(v) && Step(v, h, w)
    ensures Stranded(w) <==> !Marks(h)
    ensures w.failures == v.failures && (Marks(h) ==> w.dirty != {})
  {
    hide KeysAfter, WalAfter, StoredAfter, Decide, Applied, FlatStep, Rows, InRange, ToMicro, Wrap64, Flushes, Cleaned;
    if h.Called? && h.outcome == Done && Stores(h.call, h.env, h.outcome) {
      assert w.dirty == v.dirty - {h.call.position} == {};
    }
    if Marks(h) {
      var k := if h.Called? then h.call.position else h.position;
      assert k in w.dirty;
    }
  }

  /** A stranded manager stays so, and refuses every reserve, credit and debit, exactly until the first step
      that marks a position; the next clean flush then starts the count over. */
  lemma {:induction false} StrandedUntilMarked(views: seq<View>, hs: seq<Happening>, n: nat)
    requires IsRun(views, hs) && n <= |hs| && Stranded(views[0])
    ensures (forall i :: 0 <= i <= n ==> Stranded(views[i])) <==> forall i :: 0 <= i < n ==> !Marks(hs[i])
    ensures (forall i :: 0 <= i < n ==> !Marks(hs[i])) ==>
              forall c: Call, env: Environment :: Gated(c.op) ==> !Decide(views[n], c, env).Success()
    decreases n
  {
    hide Step, Marks, Recorded, Guard, InRange;
    if n > 0 {
      StrandedUntilMarked(views, hs, n - 1);
      if forall i :: 0 <= i < n - 1 ==> !Marks(hs[i]) {
        assert Stranded(views[n - 1]);
        StrandedStep(views[n - 1], hs[n - 1], views[n]);
      }
    }
  }

  lemma MarkReopens(v: View, h: Happening, w: View, x: View)
    requires Stranded(v) && Step(v, h, w) && Marks(h) && Flushed(w, {}, x)
    ensures x.failures == 0
  {
    hide Step, Marks, Rows;
    StrandedStep(v, h, w);
    assert w.dirty * {} == {};
  }

  lemma ThreeUnits()
    ensures InRange(3.0) && ToMicro(3.0) == 3_000_000
    ensures InRange(5.0) && ToMicro(5.0) == 5_000_000
  {
  }

  const BANK := PositionKey(1, "USD", "bank")
  const LARGE := Environment(Queued, true, 3.0, 0)

  function OnePosition(c: Counters, dirty: set<PositionKey>, row: Row, keys: Entries, wal: seq<WalOp>,
      failures: nat): View {
    View(map[BANK := c], dirty, map[BANK := row], keys, wal, failures, false)
  }

  function LargeCall(op: Op): Call {
    Call(op, BANK, 3.0, 7, 0)
  }

  lemma LargeDecide(op: Op, v: View)
    requires op.Reserve? || op.Consume?
    requires v.failures < MAX_FLUSH_FAILURES || op.Consume?
    requires BANK in v.positions && Guard(op, v.positions[BANK], 3_000_000) && KeyOf(LargeCall(op)) !in v.keys
    ensures Decide(v, LargeCall(op), LARGE) == Done
  {
    hide ToMicro, InRange, Guard, KeyOf;
    ThreeUnits();
  }

  /** A large reserve or consume that goes through and is flushed at once. */
  lemma LargeDone(op: Op, before: Counters, dirty: set<PositionKey>, row: Row, keys: Entries, wal: seq<WalOp>,
      failures: nat)
    requires op.Reserve? || op.Consume?
    requires failures < MAX_FLUSH_FAILURES || op.Consume?
    requires Guard(op, before, 3_000_000) && KeyOf(LargeCall(op)) !in keys
    ensures var after := Applied(op, before, 3_000_000);
            Performed(OnePosition(before, dirty, row, keys, wal, failures), LargeCall(op), LARGE, Done,
                      OnePosition(after, dirty - {BANK}, RowOf(after), keys[KeyOf(LargeCall(op)) := 0],
                                  wal + [WalOp(op, BANK, 3.0, 7)], failures))
  {
    hide ToMicro, InRange, Guard, KeyOf, Decide, Applied, RowOf;
    var v, c := OnePosition(before, dirty, row, keys, wal, failures), LargeCall(op);
    LargeDecide(op, v);
    ThreeUnits();
    var after := Applied(op, before, 3_000_000);
    assert v.positions[BANK := after] == map[BANK := after]
      && v.stored[BANK := RowOf(after)] == map[BANK := RowOf(after)];
    assert keys[KeyOf(c) := 0] - {KeyOf(c)} == keys;
  }

  /** On a loaded position. */
  lemma LargeReserve()
    ensures var before := Counters(5_000_000, 0, 0);
            Guard(Reserve, before, 3_000_000)
              && Applied(Reserve, before, 3_000_000) == Counters(5_000_000, 0, 3_000_000)
  {
    hide Wrap64;
    AvailableExact(Counters(5_000_000, 0, 0));
  }

  lemma FailedFlush(c: Counters, row: Row, keys: Entries, wal: seq<WalOp>, failures: nat)
    ensures Flushed(OnePosition(c, {BANK}, row, keys, wal, failures), {BANK},
              OnePosition(c, {BANK}, row, keys, wal, failures + 1))
  {
    hide RowOf;
    var v := OnePosition(c, {BANK}, row, keys, wal, failures);
    assert v.dirty - {BANK} == {} && v.dirty * {BANK} == {BANK};
    NoRows(v.positions, v.stored);
  }

  lemma MarkedByUpdate(row: Row, keys: Entries, wal: seq<WalOp>)
    ensures var c := Counters(5_000_000, 0, 3_000_000);
            BalanceSet(OnePosition(c, {}, row, keys, wal, 0), BANK, 5.0, true,
              OnePosition(c, {BANK}, row, keys, wal, 0))
  {
    hide ToMicro, InRange, FromMicro;
    ThreeUnits();
    var c := Counters(5_000_000, 0, 3_000_000);
    assert map[BANK := c][BANK := c.(balance := 5_000_000)] == map[BANK := c];
  }

  /** It happens, from a freshly loaded manager: a large reserve, a correction of the balance, three failed
      flushes, and then the consumption of the reserve once the store is back. */
  lemma SyncFlushCanStrand() returns (views: seq<View>, hs: seq<Happening>)
    ensures IsRun(views, hs) && AllSound(views[0]) && Covered(views[0])
    ensures var v := views[0]; v.dirty == {} && v.failures == 0 && v.wal == [] && v.keys == map[] && !v.replaying
    ensures Stranded(views[|hs|])
  {
    hide Performed, BalanceSet, Flushed, Covered, RowOf, KeyOf, Applied, Guard;
    var before, c := Counters(5_000_000, 0, 0), Counters(5_000_000, 0, 3_000_000);
    var row, keys, wal := RowOf(before), map[KeyOf(LargeCall(Reserve)) := 0], [WalOp(Reserve, BANK, 3.0, 7)];
    var v0 := OnePosition(before, {}, row, map[], [], 0);
    LargeReserve();
    LargeDone(Reserve, before, {}, row, map[], [], 0);
    SameRow(before, c);
    assert {} - {BANK} == {} && map[][KeyOf(LargeCall(Reserve)) := 0] == keys && [] + wal == wal;
    MarkedByUpdate(row, keys, wal);
    FailedFlush(c, row, keys, wal, 0);
    FailedFlush(c, row, keys, wal, 1);
    FailedFlush(c, row, keys, wal, 2);
    ConsumeCovered();
    LargeDone(Consume, c, {BANK}, row, keys, wal, 3);
    var after := Applied(Consume, c, 3_000_000);
    var v2 := OnePosition(c, {BANK}, row, keys, wal, 0);
    var v6 := OnePosition(after, {BANK} - {BANK}, RowOf(after), keys[KeyOf(LargeCall(Consume)) := 0],
                          wal + [WalOp(Consume, BANK, 3.0, 7)], 3);
    views := [v0, OnePosition(c, {}, row, keys, wal, 0), v2, v2.(failures := 1), v2.(failures := 2),
      v2.(failures := 3), v6];
    var flush := Flush({BANK});
    hs := [Called(LargeCall(Reserve), LARGE, Done), BalanceUpdated(BANK, 5.0, true), flush, flush, flush,
           Called(LargeCall(Consume), LARGE, Done)];
    LoadedCovered(v0);
  }

  lemma SameRow(c: Counters, d: Counters)
    requires c.balance == d.balance && c.locked == d.locked
    ensures RowOf(c) == RowOf(d)
  {
  }

  lemma ConsumeCovered()
    ensures Guard(Consume, Counters(5_000_000, 0, 3_000_000), 3_000_000)
    ensures KeyOf(LargeCall(Consume)) != KeyOf(LargeCall(Reserve))
  {
    assert OpName(Reserve)[0] == 'r' && OpName(Consume)[0] == 'c';
  }

  lemma LoadedCovered(v: View)
    requires v.dirty == {} && v.stored.Keys == v.positions.Keys
    requires forall k :: k in v.positions ==> v.stored[k] == RowOf(v.positions[k])
    ensures Covered(v)
  {
  }
}
