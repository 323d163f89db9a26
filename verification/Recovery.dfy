/** Crash recovery (treasury/loader.go): positions are paged in from the store and the reserves that the
    write-ahead log holds without a matching release, commit or consume are replayed. */
module Recovery {
  import opened Idempotency
  import opened Micro
  import opened Words
  import opened ReserveOps
  import opened Treasury
  import opened TreasuryRuns

  // ---- Loading ----

  const PAGE_SIZE: nat := 1000

  predicate RowInRange(r: Row) {
    InRange(r.balance) && InRange(r.locked)
  }

  function LoadedCounters(r: Row): Counters {
    Counters(ToMicro(r.balance), ToMicro(r.locked), 0)
  }

  function Loaded(stored: map<PositionKey, Row>): map<PositionKey, Counters> {
    map k | k in stored :: LoadedCounters(stored[k])
  }

  /** LoadPositionsPaginated over the store's order of its rows. */
  function Page(order: seq<PositionKey>, offset: nat): (page: seq<PositionKey>)
    requires offset <= |order|
    ensures |page| <= PAGE_SIZE && page <= order[offset..]
    ensures |page| < PAGE_SIZE ==> page == order[offset..]
  {
    if offset + PAGE_SIZE <= |order| then order[offset..offset + PAGE_SIZE] else order[offset..]
  }

  ghost predicate LoadedTo(m: Manager, order: seq<PositionKey>, n: nat)
    reads m
    requires n <= |order|
  {
    && (forall i :: 0 <= i < n ==> order[i] in m.stored && RowInRange(m.stored[order[i]]))
    && (forall k :: k in m.positions <==> k in order[..n])
    && (forall i :: 0 <= i < n ==> m.positions[order[i]] == LoadedCounters(m.stored[order[i]]))
  }

  /** Adds one page; toMicro panics on a row out of range. */
  method AddPage(m: Manager, order: seq<PositionKey>, offset: nat, page: seq<PositionKey>) returns (panicked: bool)
    requires forall k :: k in order ==> k in m.stored
    requires offset <= |order| && page == Page(order, offset)
    requires LoadedTo(m, order, offset)
    modifies m`positions
    ensures panicked <==> exists k :: k in page && !RowInRange(m.stored[k])
    ensures !panicked ==> LoadedTo(m, order, offset + |page|)
  {
    hide LoadedCounters, RowInRange;
    for i := 0 to |page|
      invariant LoadedTo(m, order, offset + i)
    {
      var k := page[i];
      assert k == order[offset + i];
      if !RowInRange(m.stored[k]) {
        return true;
      }
      m.positions := m.positions[k := LoadedCounters(m.stored[k])];
      assert order[..offset + i + 1] == order[..offset + i] + [k];
    }
    forall k | k in page ensures RowInRange(m.stored[k]) {
      var i :| 0 <= i < |page| && page[i] == k;
      assert k == order[offset + i];
    }
    return false;
  }

  datatype LoadResult = AllLoaded | Panicked | ReadFailed

  /** Every row is loaded, whatever its number, unless reading a page fails or a row is out of range. */
  method LoadTable(m: Manager, order: seq<PositionKey>, fails: nat -> bool) returns (r: LoadResult)
    requires forall k :: k in order <==> k in m.stored
    modifies m`positions
    ensures r.AllLoaded? ==> m.positions == Loaded(m.stored) && forall k :: k in m.stored ==> RowInRange(m.stored[k])
    ensures r.Panicked? ==> exists k :: k in m.stored && !RowInRange(m.stored[k])
    ensures r.ReadFailed? ==> exists n: nat :: n <= |order| && fails(n) && LoadedTo(m, order, n)
  {
    hide LoadedCounters, RowInRange;
    m.positions := map[];
    var offset, more := 0, true;
    while more
      invariant offset <= |order|
      invariant LoadedTo(m, order, offset)
      invariant !more ==> offset == |order|
      decreases |order| - offset, more
    {
      if fails(offset) {
        return ReadFailed;
      }
      var page := Page(order, offset);
      var panicked := AddPage(m, order, offset, page);
      if panicked {
        return LoadResult.Panicked;
      }
      offset := offset + |page|;
      more := |page| == PAGE_SIZE;
    }
    assert order[..|order|] == order;
    forall k | k in m.stored
      ensures RowInRange(m.stored[k]) && m.positions[k] == LoadedCounters(m.stored[k])
    {
      var i :| 0 <= i < |order| && order[i] == k;
    }
    return AllLoaded;
  }

  // ---- Replay ----

  function ReplayCall(op: WalOp, now: int): Call {
    Call(op.op, op.position, op.amount, op.reference, now)
  }

  method ReplayOp(m: Manager, op: WalOp, now: int, env: Environment) returns (o: Outcome)
    requires m.Valid()
    modifies m, m.idem
    ensures m.Valid()
    ensures Performed(old(m.Now()), ReplayCall(op, now), env, o, m.Now())
  {
    hide Performed;
    var c := ReplayCall(op, now);
    match op.op
    case Reserve => o := m.ReserveFunds(c, env);
    case Release => o := m.ReleaseFunds(c, env);
    case Commit => o := m.CommitReservation(c, env);
    case Consume => o := m.ConsumeReservation(c, env);
    case Credit => o := m.CreditBalance(c, env);
    case Debit => o := m.DebitBalance(c, env);
  }

  /** A run that calls the given operations in order. */
  ghost predicate IsReplay(views: seq<View>, hs: seq<Happening>, ops: seq<WalOp>, times: seq<int>,
      envs: seq<Environment>) {
    && |hs| == |ops| && |ops| <= |times| && |ops| <= |envs|
    && IsRun(views, hs)
    && forall i :: 0 <= i < |hs| ==> hs[i].Called? && hs[i].call == ReplayCall(ops[i], times[i]) && hs[i].env == envs[i]
  }

  lemma ReplayGrows(views: seq<View>, hs: seq<Happening>, ops: seq<WalOp>, times: seq<int>, envs: seq<Environment>,
      n: nat, o: Outcome, w: View)
    requires n < |ops| && |times| == |envs| == |ops|
    requires IsReplay(views, hs, ops[..n], times, envs)
    requires Performed(views[n], ReplayCall(ops[n], times[n]), envs[n], o, w)
    ensures IsReplay(views + [w], hs + [Called(ReplayCall(ops[n], times[n]), envs[n], o)], ops[..n + 1], times, envs)
  {
    hide Performed, BalanceSet, Flushed, KeysCleaned;
    var hs', views' := hs + [Called(ReplayCall(ops[n], times[n]), envs[n], o)], views + [w];
    forall i | 0 <= i < |hs'| ensures Step(views'[i], hs'[i], views'[i + 1]) {
      if i < n {
        assert Step(views[i], hs[i], views[i + 1]);
      }
    }
    forall i | 0 <= i < |hs'|
      ensures hs'[i].Called? && hs'[i].call == ReplayCall(ops[..n + 1][i], times[i]) && hs'[i].env == envs[i]
    {
      if i < n {
        assert ops[..n + 1][i] == ops[..n][i];
      }
    }
  }

  /** The state in which replay starts. */
  ghost function Restarted(stored: map<PositionKey, Row>, wal: seq<WalOp>, failures: nat): View {
    View(Loaded(stored), {}, stored, map[], wal, failures, true)
  }

  lemma LoadedFits(stored: map<PositionKey, Row>)
    requires forall k :: k in stored ==> RowInRange(stored[k])
    ensures CountersFit(Loaded(stored))
  {
    hide ToMicro, InRange;
  }

  /** LoadPositions: reading a page fails and leaves the rows before it loaded, or a stored row is out of range and
      loading panics, or the manager ends in the state that a run of the replayed operations from the loaded
      positions ends in. */
  method LoadPositions(m: Manager, order: seq<PositionKey>, fails: nat -> bool,
                       ops: seq<WalOp>, times: seq<int>, envs: seq<Environment>)
    returns (r: LoadResult, ghost views: seq<View>, ghost hs: seq<Happening>)
    requires m.Valid() && forall k :: k in order <==> k in m.stored
    requires |times| == |envs| == |ops|
    modifies m, m.idem
    ensures (forall n: nat :: !fails(n)) ==>
              (r.Panicked? <==> exists k :: k in old(m.stored) && !RowInRange(old(m.stored)[k]))
    ensures (forall n: nat :: !fails(n)) ==> !r.ReadFailed?
    ensures r.ReadFailed? ==> exists n: nat :: n <= |order| && fails(n) && LoadedTo(m, order, n)
    ensures r.ReadFailed? ==> m.dirty == {} && m.stored == old(m.stored) && m.idem.Valid() && m.idem.Contents() == map[]
    ensures r.AllLoaded? ==>
              && m.Valid() && IsReplay(views, hs, ops, times, envs)
              && views[0] == Restarted(old(m.stored), old(m.wal), old(m.failures))
              && m.Now() == views[|ops|].(replaying := false)
  {
    hide Performed, Loaded, WellSharded, Flat, RowInRange, CountersFit, IsReplay, LoadedTo;
    views, hs := [], [];
    m.dirty := {};
    m.idem.Clear();
    r := LoadTable(m, order, fails);
    if !r.AllLoaded? {
      return;
    }
    LoadedFits(m.stored);
    m.replaying := true;
    views := [m.Now()];
    ReplayStarts(m.Now(), ops, times, envs);
    for i := 0 to |ops|
      invariant m.Valid()
      invariant IsReplay(views, hs, ops[..i], times, envs) && |views| == i + 1
      invariant views[0] == Restarted(old(m.stored), old(m.wal), old(m.failures)) && views[i] == m.Now()
    {
      var o := ReplayOp(m, ops[i], times[i], envs[i]);
      ReplayGrows(views, hs, ops, times, envs, i, o, m.Now());
      views, hs := views + [m.Now()], hs + [Called(ReplayCall(ops[i], times[i]), envs[i], o)];
    }
    assert ops[..|ops|] == ops;
    m.replaying := false;
  }

  lemma ReplayStarts(v: View, ops: seq<WalOp>, times: seq<int>, envs: seq<Environment>)
    ensures IsReplay([v], [], ops[..0], times, envs)
  {
  }

  // ---- Exactness ----

  /** Every row in the store is the one that memory would write. */
  ghost predicate Current(v: View) {
    v.stored.Keys == v.positions.Keys && forall k :: k in v.positions ==> v.stored[k] == RowOf(v.positions[k])
  }

  /** Reserves and releases, whatever becomes of them, write no row out of date. */
  lemma ReservesKeepRows(v: View, c: Call, env: Environment, o: Outcome, w: View)
    requires Current(v) && Performed(v, c, env, o, w) && (c.op.Reserve? || c.op.Release?)
    ensures Current(w)
  {
    hide KeysAfter, WalAfter, DirtyAfter, Decide, Guard, KeyOf, Wrap64, ToMicro;
    if o.Done? && c.position in v.positions {
      assert RowOf(w.positions[c.position]) == RowOf(v.positions[c.position]);
    }
  }

  /** Loading what a sound position wrote gives back its balance and its lock, up to the range limit. */
  lemma LoadUndoesStore(c: Counters)
    requires Sound(c) && c.balance <= MAX_MICRO
    ensures RowInRange(RowOf(c)) && LoadedCounters(RowOf(c)) == c.(reserved := 0)
  {
    hide InRange, ToMicro, FromMicro;
    MicroRoundTrip(c.balance);
    MicroRoundTrip(c.locked);
  }

  /** Records that a Reserve leaves in the log. */
  predicate IsReserve(op: WalOp, positions: map<PositionKey, Counters>) {
    op.op.Reserve? && op.amount > 0.0 && InRange(op.amount) && op.position in positions
  }

  lemma {:induction false} SumGrows(ops: seq<WalOp>, n: nat, k: PositionKey)
    requires n <= |ops| && forall i :: 0 <= i < |ops| ==> ops[i].amount > 0.0
    ensures 0 <= AmountSum(ops[..n], k) <= AmountSum(ops, k)
    decreases |ops|
  {
    hide ToMicro;
    if n == |ops| {
      assert ops[..n] == ops;
      if n > 0 {
        SumGrows(ops[..n - 1], n - 1, k);
        assert ops[..n - 1][..n - 1] == ops[..n - 1];
      }
    } else {
      SumGrows(ops[..|ops| - 1], n, k);
      assert ops[..|ops| - 1][..n] == ops[..n];
    }
  }

  /** What the operations that completed among the first n have reserved. */
  function DoneSum(ops: seq<WalOp>, done: seq<bool>, n: nat, k: PositionKey): int
    requires n <= |ops| && n <= |done|
  {
    if n == 0 then 0 else DoneSum(ops, done, n - 1, k) + if done[n - 1] then AmountAt(ops[n - 1], k) else 0
  }

  lemma {:induction false} DoneAtMostAll(ops: seq<WalOp>, done: seq<bool>, n: nat, k: PositionKey)
    requires n <= |ops| && n <= |done| && forall i :: 0 <= i < |ops| ==> ops[i].amount > 0.0
    ensures 0 <= DoneSum(ops, done, n, k) <= AmountSum(ops[..n], k)
    decreases n
  {
    hide ToMicro;
    if n > 0 {
      DoneAtMostAll(ops, done, n - 1, k);
      assert ops[..n][..n - 1] == ops[..n - 1];
    }
  }

  predicate SameSum(ops: seq<WalOp>, done: seq<bool>, n: nat, k: PositionKey)
    requires n <= |ops| && n <= |done|
  {
    DoneSum(ops, done, n, k) == AmountSum(ops[..n], k)
  }

  lemma SameSumStep(ops: seq<WalOp>, done: seq<bool>, n: nat, k: PositionKey)
    requires 0 < n <= |ops| && n <= |done| && forall i :: 0 <= i < |ops| ==> ops[i].amount > 0.0
    ensures SameSum(ops, done, n, k) <==> SameSum(ops, done, n - 1, k) && (done[n - 1] || AmountAt(ops[n - 1], k) == 0)
  {
    hide ToMicro;
    DoneAtMostAll(ops, done, n - 1, k);
    PositiveMicro(ops[n - 1].amount);
    assert ops[..n][..n - 1] == ops[..n - 1];
  }

  /** All of it is reserved exactly when everything of at least a micro-unit completed. */
  lemma {:induction false} DoneIsAllIff(ops: seq<WalOp>, done: seq<bool>, n: nat)
    requires n <= |ops| && n <= |done| && forall i :: 0 <= i < |ops| ==> ops[i].amount > 0.0
    ensures (forall k :: SameSum(ops, done, n, k)) <==> forall i :: 0 <= i < n && ToMicro(ops[i].amount) > 0 ==> done[i]
    decreases n
  {
    hide SameSum, ToMicro;
    if n == 0 {
      forall k
        ensures SameSum(ops, done, 0, k)
      {
        NothingSame(ops, done, k);
      }
    } else {
      var m := n - 1;
      DoneIsAllIff(ops, done, m);
      PositiveMicro(ops[m].amount);
      forall k
        ensures SameSum(ops, done, n, k) <==> SameSum(ops, done, m, k) && (done[m] || AmountAt(ops[m], k) == 0)
      {
        SameSumStep(ops, done, n, k);
      }
      assert SameSum(ops, done, n, ops[m].position) ==> done[m] || ToMicro(ops[m].amount) == 0;
      if forall k :: SameSum(ops, done, n, k) {
        forall k
          ensures SameSum(ops, done, m, k)
        {
          assert SameSum(ops, done, n, k);
        }
      } else {
        var k :| !SameSum(ops, done, n, k);
        assert !SameSum(ops, done, m, k) || (!done[m] && ToMicro(ops[m].amount) > 0);
      }
    }
  }

  lemma NothingSame(ops: seq<WalOp>, done: seq<bool>, k: PositionKey)
    ensures SameSum(ops, done, 0, k)
  {
    assert ops[..0] == [];
  }

  function DoneOf(hs: seq<Happening>): seq<bool> {
    seq(|hs|, i requires 0 <= i < |hs| => hs[i].Called? && hs[i].outcome.Done?)
  }

  /** The operations are reserves for which every position has room. */
  ghost predicate Fits(ops: seq<WalOp>, positions: map<PositionKey, Counters>) {
    && (forall i :: 0 <= i < |ops| ==> IsReserve(ops[i], positions))
    && (forall k :: k in positions ==> Sound(positions[k].(reserved := AmountSum(ops, k))))
  }

  /** Replay has got n operations far. */
  ghost predicate ReplayedTo(v: View, target: map<PositionKey, Counters>, ops: seq<WalOp>, done: seq<bool>, n: nat)
    requires n <= |ops| && n <= |done|
  {
    && v.positions.Keys == target.Keys
    && (forall k :: k in target ==> v.positions[k] == target[k].(reserved := DoneSum(ops, done, n, k)))
    && (forall key :: key in v.keys ==>
          exists j :: 0 <= j < n && done[j] && key == Key(ops[j].reference, OpName(Reserve)))
    && v.replaying && v.failures < MAX_FLUSH_FAILURES
  }

  lemma FittingAmounts(ops: seq<WalOp>, positions: map<PositionKey, Counters>)
    requires Fits(ops, positions)
    ensures forall i :: 0 <= i < |ops| ==> ops[i].amount > 0.0 && ops[i].op.Reserve?
  {
    forall i | 0 <= i < |ops|
      ensures ops[i].amount > 0.0 && ops[i].op.Reserve?
    {
      assert IsReserve(ops[i], positions);
    }
  }

  lemma NextFits(target: map<PositionKey, Counters>, ops: seq<WalOp>, done: seq<bool>, n: nat)
    requires n < |ops| && n <= |done| && Fits(ops, target)
    ensures IsReserve(ops[n], target)
    ensures var c := target[ops[n].position].(reserved := DoneSum(ops, done, n, ops[n].position));
            Sound(c) && Guard(Reserve, c, ToMicro(ops[n].amount)) && 0 <= ToMicro(ops[n].amount)
  {
    hide ToMicro, InRange, Available;
    assert IsReserve(ops[n], target);
    var k := ops[n].position;
    FittingAmounts(ops, target);
    DoneAtMostAll(ops, done, n, k);
    SumGrows(ops, n + 1, k);
    assert ops[..n + 1][..n] == ops[..n];
    assert Sound(target[k].(reserved := AmountSum(ops, k)));
    PositiveMicro(ops[n].amount);
    AvailableExact(target[k].(reserved := DoneSum(ops, done, n, k)));
  }

  /** The synchronous flush of a replayed operation is refused. */
  predicate RefusedFlush(op: WalOp, env: Environment) {
    Flushes(op.op, op.amount, env) && !env.storeOk
  }

  /** What becomes of a replayed operation: it never runs out of funds. */
  lemma NextOutcome(v: View, target: map<PositionKey, Counters>, ops: seq<WalOp>, done: seq<bool>, n: nat, now: int,
                    env: Environment)
    requires n < |ops| && n <= |done| && Fits(ops, target) && ReplayedTo(v, target, ops, done, n)
    ensures Decide(v, ReplayCall(ops[n], now), env) ==
            if Key(ops[n].reference, OpName(Reserve)) in v.keys then Duplicate
            else if RefusedFlush(ops[n], env) then FlushFailed
            else Done
  {
    hide ToMicro, InRange, Guard, Sound, DoneSum, OpName, Flushes;
    NextFits(target, ops, done, n);
  }

  lemma ReplayStep(v: View, target: map<PositionKey, Counters>, ops: seq<WalOp>, done: seq<bool>, n: nat, now: int,
                   env: Environment, o: Outcome, w: View)
    requires n < |ops| && n < |done| && Fits(ops, target) && ReplayedTo(v, target, ops, done, n)
    requires Performed(v, ReplayCall(ops[n], now), env, o, w) && done[n] == o.Done?
    ensures ReplayedTo(w, target, ops, done, n + 1)
  {
    hide Fits, Decide, WalAfter, StoredAfter, DirtyAfter, ToMicro, OpName, AmountAt;
    NextOutcome(v, target, ops, done, n, now, env);
    ReplayedCounters(v, target, ops, done, n);
    ReplayedKeys(v, w, ops, done, n, now, o);
  }

  lemma ReplayedKeys(v: View, w: View, ops: seq<WalOp>, done: seq<bool>, n: nat, now: int, o: Outcome)
    requires n < |ops| && n < |done| && ops[n].op.Reserve? && done[n] == o.Done?
    requires o.Done? || o.Duplicate? || o.FlushFailed?
    requires forall key :: key in v.keys ==>
               exists j :: 0 <= j < n && done[j] && key == Key(ops[j].reference, OpName(Reserve))
    requires KeysAfter(v.keys, w.keys, KeyOf(ReplayCall(ops[n], now)), now, o)
    ensures forall key :: key in w.keys ==>
              exists j :: 0 <= j < n + 1 && done[j] && key == Key(ops[j].reference, OpName(Reserve))
  {
    hide OpName;
    forall key | key in w.keys
      ensures exists j :: 0 <= j < n + 1 && done[j] && key == Key(ops[j].reference, OpName(Reserve))
    {
      if o.Done? && key == KeyOf(ReplayCall(ops[n], now)) {
        assert done[n] && key == Key(ops[n].reference, OpName(Reserve));
      } else {
        assert o.Done? ==> key in w.keys - {KeyOf(ReplayCall(ops[n], now))};
        assert key in v.keys;
      }
    }
  }

  lemma ReplayedCounters(v: View, target: map<PositionKey, Counters>, ops: seq<WalOp>, done: seq<bool>, n: nat)
    requires n < |ops| && n < |done| && Fits(ops, target) && ReplayedTo(v, target, ops, done, n)
    ensures ops[n].op.Reserve? && ops[n].position in v.positions
    ensures var k := ops[n].position;
            var after := v.positions[k := Applied(Reserve, v.positions[k], ToMicro(ops[n].amount))];
            forall j :: j in target ==>
              target[j].(reserved := DoneSum(ops, done, n + 1, j)) == if done[n] then after[j] else v.positions[j]
  {
    hide ToMicro, Guard, Sound, Applied, Fits;
    NextFits(target, ops, done, n);
    AppliedSound(Reserve, v.positions[ops[n].position], ToMicro(ops[n].amount));
  }

  lemma PositiveMicro(amount: real)
    requires amount > 0.0
    ensures 0 <= ToMicro(amount)
  {
  }

  lemma {:induction false} ReplayPrefix(views: seq<View>, hs: seq<Happening>, ops: seq<WalOp>, times: seq<int>,
                                        envs: seq<Environment>, target: map<PositionKey, Counters>, n: nat)
    requires IsReplay(views, hs, ops, times, envs) && n <= |ops|
    requires Fits(ops, target) && ReplayedTo(views[0], target, ops, DoneOf(hs), 0)
    ensures ReplayedTo(views[n], target, ops, DoneOf(hs), n)
    decreases n
  {
    hide Fits, ReplayedTo, Performed, BalanceSet, Flushed, KeysCleaned, ReplayCall;
    if n > 0 {
      ReplayPrefix(views, hs, ops, times, envs, target, n - 1);
      var h := hs[n - 1];
      assert Step(views[n - 1], h, views[n]);
      ReplayStep(views[n - 1], target, ops, DoneOf(hs), n - 1, times[n - 1], envs[n - 1], h.outcome, views[n]);
    }
  }

  // ---- Which operations complete ----

  /** An operation completes exactly when its flush is not refused and no earlier one took its reference. */
  predicate Takes(ops: seq<WalOp>, envs: seq<Environment>, n: nat)
    requires n < |ops| <= |envs|
  {
    && !RefusedFlush(ops[n], envs[n])
    && forall j :: 0 <= j < n && ops[j].reference == ops[n].reference ==> !Takes(ops, envs, j)
  }

  ghost predicate DistinctReferences(ops: seq<WalOp>) {
    forall i, j :: 0 <= i < j < |ops| ==> ops[i].reference != ops[j].reference
  }

  /** References are not repeated, or the replay is over before a key can be forgotten. */
  ghost predicate KeysLast(ops: seq<WalOp>, times: seq<int>)
    requires |ops| <= |times|
  {
    DistinctReferences(ops) || forall i, j :: 0 <= i < j < |ops| ==> times[j] <= times[i] + FORCED_MAX_AGE
  }

  lemma {:induction false} OutcomeIs(views: seq<View>, hs: seq<Happening>, ops: seq<WalOp>, times: seq<int>,
                                     envs: seq<Environment>, target: map<PositionKey, Counters>, n: nat)
    requires IsReplay(views, hs, ops, times, envs) && n < |ops| && KeysLast(ops, times)
    requires Fits(ops, target) && ReplayedTo(views[0], target, ops, DoneOf(hs), 0)
    ensures hs[n].outcome == Done <==> Takes(ops, envs, n)
    ensures hs[n].outcome.Done? || hs[n].outcome.Duplicate? || hs[n].outcome.FlushFailed?
    decreases n
  {
    hide Fits, BalanceSet, Flushed, KeysCleaned, KeysAfter, WalAfter, StoredAfter, DirtyAfter, PositionsAfter, Decide,
      RefusedFlush, OpName;
    ReplayPrefix(views, hs, ops, times, envs, target, n);
    assert Step(views[n], hs[n], views[n + 1]);
    NextOutcome(views[n], target, ops, DoneOf(hs), n, times[n], envs[n]);
    forall j | 0 <= j < n
      ensures DoneOf(hs)[j] <==> Takes(ops, envs, j)
      ensures ops[j].reference == ops[n].reference && DoneOf(hs)[j] ==>
                Key(ops[n].reference, OpName(Reserve)) in views[n].keys
    {
      OutcomeIs(views, hs, ops, times, envs, target, j);
      if ops[j].reference == ops[n].reference && DoneOf(hs)[j] {
        StillHeld(views, hs, ops, times, envs, target, j, n);
      }
    }
  }

  lemma StillHeld(views: seq<View>, hs: seq<Happening>, ops: seq<WalOp>, times: seq<int>, envs: seq<Environment>,
                  target: map<PositionKey, Counters>, j: nat, n: nat)
    requires IsReplay(views, hs, ops, times, envs) && j < n < |ops| && KeysLast(ops, times)
    requires Fits(ops, target) && ops[j].reference == ops[n].reference && hs[j].outcome.Done?
    ensures Key(ops[n].reference, OpName(Reserve)) in views[n].keys
  {
    hide Step, OpName, Fits;
    FittingAmounts(ops, target);
    forall i | j < i < n
      ensures Timely(hs[i], hs[j].call.now)
    {
    }
    KeyHeld(views, hs, j, n);
  }

  lemma {:induction false} ReplayKeepsRows(views: seq<View>, hs: seq<Happening>, ops: seq<WalOp>, times: seq<int>,
                                           envs: seq<Environment>, n: nat)
    requires IsReplay(views, hs, ops, times, envs) && n <= |ops| && forall i :: 0 <= i < |ops| ==> ops[i].op.Reserve?
    requires Current(views[0]) && views[0].replaying
    ensures Current(views[n]) && views[n].replaying && views[n].wal == views[0].wal
              && views[n].failures == views[0].failures
    decreases n
  {
    hide Current, Performed, BalanceSet, Flushed, KeysCleaned;
    if n > 0 {
      ReplayKeepsRows(views, hs, ops, times, envs, n - 1);
      var h := hs[n - 1];
      assert Step(views[n - 1], h, views[n]);
      ReservesKeepRows(views[n - 1], h.call, h.env, h.outcome, views[n]);
      ReplayWritesNoLog(views[n - 1], h.call, h.env, h.outcome, views[n]);
    }
  }

  lemma ReplayWritesNoLog(v: View, c: Call, env: Environment, o: Outcome, w: View)
    requires Performed(v, c, env, o, w) && v.replaying
    ensures w.wal == v.wal && w.replaying && w.failures == v.failures
  {
    hide Decide, KeysAfter, PositionsAfter, StoredAfter, DirtyAfter;
  }

  /** Loaded rows are the rows that memory would write. */
  lemma RestartedCurrent(crash: View)
    requires Current(crash) && AllSound(crash) && forall k :: k in crash.positions ==>
              crash.positions[k].balance <= MAX_MICRO
    ensures Current(Restarted(crash.stored, crash.wal, 0))
  {
    hide RowOf, LoadedCounters, Sound;
    forall k | k in crash.positions
      ensures crash.stored[k] == RowOf(LoadedCounters(crash.stored[k]))
    {
      LoadUndoesStore(crash.positions[k]);
      SameRow(crash.positions[k], crash.positions[k].(reserved := 0));
    }
  }

  /** Replaying operations that fit, in any order and whatever the store does, gives every position its balance and
      its lock back, and as reserved the amounts of the operations that completed; which ones these are is
      known beforehand. Log and rows are as they were. */
  lemma ReplayGives(views: seq<View>, hs: seq<Happening>, ops: seq<WalOp>, times: seq<int>, envs: seq<Environment>,
                    crash: View)
    requires Current(crash) && AllSound(crash)
    requires forall k :: k in crash.positions ==> crash.positions[k].balance <= MAX_MICRO
    requires IsReplay(views, hs, ops, times, envs) && views[0] == Restarted(crash.stored, crash.wal, 0)
    requires Fits(ops, crash.positions) && KeysLast(ops, times)
    ensures views[|ops|].positions.Keys == crash.positions.Keys
    ensures forall k :: k in crash.positions ==>
              views[|ops|].positions[k] == crash.positions[k].(reserved := DoneSum(ops, DoneOf(hs), |ops|, k))
    ensures forall i :: 0 <= i < |ops| ==>
              && (hs[i].outcome == Done <==> Takes(ops, envs, i))
              && (hs[i].outcome.Done? || hs[i].outcome.Duplicate? || hs[i].outcome.FlushFailed?)
    ensures Current(views[|ops|]) && views[|ops|].wal == crash.wal && views[|ops|].failures == 0
  {
    hide IsReplay, Fits, RowOf, LoadedCounters, Sound, AmountSum, Takes, KeysLast, DoneOf;
    ReplayLength(views, hs, ops, times, envs);
    assert ReplayedTo(views[0], crash.positions, ops, DoneOf(hs), 0) by {
      forall k | k in crash.positions
        ensures views[0].positions[k] == crash.positions[k].(reserved := 0)
      {
        LoadUndoesStore(crash.positions[k]);
      }
    }
    ReplayPrefix(views, hs, ops, times, envs, crash.positions, |ops|);
    forall i | 0 <= i < |ops|
      ensures hs[i].outcome == Done <==> Takes(ops, envs, i)
      ensures hs[i].outcome.Done? || hs[i].outcome.Duplicate? || hs[i].outcome.FlushFailed?
    {
      OutcomeIs(views, hs, ops, times, envs, crash.positions, i);
    }
    RestartedCurrent(crash);
    FittingAmounts(ops, crash.positions);
    ReplayKeepsRows(views, hs, ops, times, envs, |ops|);
  }

  lemma ReplayLength(views: seq<View>, hs: seq<Happening>, ops: seq<WalOp>, times: seq<int>, envs: seq<Environment>)
    requires IsReplay(views, hs, ops, times, envs)
    ensures |views| == |ops| + 1 && |hs| == |ops| <= |times| && |ops| <= |envs| && |DoneOf(hs)| == |ops|
    ensures forall i :: 0 <= i < |hs| ==> hs[i].Called?
  {
  }

  // ---- Any order ----

  function Without(ops: seq<WalOp>, j: nat): seq<WalOp>
    requires j < |ops|
  {
    ops[..j] + ops[j + 1..]
  }

  lemma {:induction false} SumWithout(ops: seq<WalOp>, j: nat, k: PositionKey)
    requires j < |ops|
    ensures AmountSum(ops, k) == AmountSum(Without(ops, j), k) + AmountAt(ops[j], k)
  {
    hide AmountAt;
    var n := |ops| - 1;
    if j == n {
      assert Without(ops, j) == ops[..n];
    } else {
      SumWithout(ops[..n], j, k);
      assert Without(ops, j)[..n - 1] == Without(ops[..n], j);
    }
  }

  /** A permutation keeps sums. */
  lemma {:induction false} Permuted(a: seq<WalOp>, b: seq<WalOp>, k: PositionKey)
    requires multiset(a) == multiset(b)
    ensures AmountSum(a, k) == AmountSum(b, k)
    decreases |a|
  {
    hide AmountSum, AmountAt;
    if a == [] {
      EmptyBag(b);
    } else {
      var n := |a| - 1;
      var j := LastIn(a, b);
      Permuted(a[..n], Without(b, j), k);
      SumWithout(b, j, k);
      SumWithout(a, n, k);
      assert Without(a, n) == a[..n];
    }
  }

  lemma EmptyBag(b: seq<WalOp>)
    requires multiset([]) == multiset(b)
    ensures b == []
  {
    assert |multiset(b)| == |b|;
  }

  lemma LastIn(a: seq<WalOp>, b: seq<WalOp>) returns (j: nat)
    requires a != [] && multiset(a) == multiset(b)
    ensures j < |b| && b[j] == a[|a| - 1]
    ensures multiset(a[..|a| - 1]) == multiset(Without(b, j))
  {
    var n := |a| - 1;
    assert a[n] in multiset(b);
    j :| 0 <= j < |b| && b[j] == a[n];
    WithoutBag(a, n);
    WithoutBag(b, j);
    assert Without(a, n) == a[..n];
    assert multiset(a) - multiset{a[n]} == multiset(a[..n]);
    assert multiset(b) - multiset{b[j]} == multiset(Without(b, j));
  }

  lemma WithoutBag(ops: seq<WalOp>, j: nat)
    requires j < |ops|
    ensures multiset(ops) == multiset(Without(ops, j)) + multiset{ops[j]}
  {
    assert ops == ops[..j] + ([ops[j]] + ops[j + 1..]);
  }

  // ---- Memory and log ----

  /** Memory and log agree on what is reserved. */
  ghost predicate LogExact(v: View) {
    && !v.replaying
    && (forall k :: k in v.positions ==> v.positions[k].reserved == AmountSum(Uncommitted(v.wal), k))
    && (forall i :: 0 <= i < |v.wal| ==> Plausible(v.wal[i], v.positions))
  }

  predicate Plausible(op: WalOp, positions: map<PositionKey, Counters>) {
    op.amount > 0.0 && InRange(op.amount) && op.position in positions
  }

  function RecordOf(c: Call): WalOp {
    WalOp(c.op, c.position, c.amount, c.reference)
  }

  /** The step adds a record to the log. */
  predicate Records(v: View, h: Happening) {
    h.Called? && !v.replaying
    && (h.outcome.Done? || h.outcome.FlushFailed? || (h.outcome.LogFailed? && h.env.log.QueueFull?))
  }

  /** The step does the same to memory and to the log: a record moves the open reserves by what the call did to
      the counter, which is nothing if it was refused, and a cleanup reopens nothing. */
  ghost predicate Keeps(v: View, h: Happening) {
    && (Records(v, h) ==> forall k :: k in v.positions ==> Change(h, k).reserved == Moves(v.wal, RecordOf(h.call), k))
    && (h.LogCleanup? ==> forall k :: k in v.positions ==> AmountSum(Reopened(v.wal, h.expired), k) == 0)
  }

  lemma RecordPlausible(v: View, c: Call, env: Environment)
    requires Decide(v, c, env).Done? || Decide(v, c, env).LogFailed? || Decide(v, c, env).FlushFailed?
    ensures Plausible(RecordOf(c), v.positions)
  {
    hide Guard, Recorded, InRange, ToMicro, KeyOf;
  }

  lemma CallLogged(v: View, c: Call, env: Environment, o: Outcome, w: View)
    requires LogExact(v) && AllSound(v) && Performed(v, c, env, o, w) && !Overflows(v, Called(c, env, o))
    ensures LogExact(w) <==> Keeps(v, Called(c, env, o))
  {
    hide Decide, KeysAfter, StoredAfter, DirtyAfter, Applied, Moves, Change, Plausible, AllSound, Uncommitted,
      AmountSum;
    var h := Called(c, env, o);
    forall k | k in v.positions
      ensures k in w.positions && w.positions[k].reserved == v.positions[k].reserved + Change(h, k).reserved
      ensures AmountSum(Uncommitted(w.wal), k) == AmountSum(Uncommitted(v.wal), k)
                + (if Records(v, h) then Moves(v.wal, RecordOf(c), k) else 0)
      ensures !Records(v, h) ==> Change(h, k).reserved == 0
    {
      StepChange(v, h, w, k);
      NoChange(h, k);
      if Records(v, h) {
        OpenMoves(v.wal, RecordOf(c), k);
      }
    }
    assert w.positions.Keys == v.positions.Keys;
    SamePlaces(v.positions, w.positions);
    if Records(v, h) {
      RecordPlausible(v, c, env);
    }
  }

  lemma SamePlaces(before: map<PositionKey, Counters>, after: map<PositionKey, Counters>)
    requires before.Keys == after.Keys
    ensures forall op: WalOp :: Plausible(op, before) <==> Plausible(op, after)
  {
  }

  lemma NoChange(h: Happening, k: PositionKey)
    ensures !(h.Called? && h.outcome.Done?) ==> Change(h, k).reserved == 0
  {
  }

  /** Whatever the log looks like, a step keeps memory and log in agreement exactly when it does the same to both. */
  lemma StepLogged(v: View, h: Happening, w: View)
    requires LogExact(v) && AllSound(v) && Step(v, h, w) && !Overflows(v, h)
    ensures LogExact(w) <==> Keeps(v, h)
  {
    hide Performed, Moves, Plausible, InRange, ToMicro, Wrap64, FlatStep, Rows, AllSound, Uncommitted, AmountSum,
      Cleaned,
      Reopened;
    if h.Called? {
      CallLogged(v, h.call, h.env, h.outcome, w);
    } else {
      SamePlacesUpdate(v, h, w);
      if h.LogCleanup? {
        CleanupLogged(v, h.expired, w);
      }
    }
  }

  lemma CleanupLogged(v: View, n: nat, w: View)
    requires LogExact(v) && w == v.(wal := Cleaned(v.wal, n))
    ensures LogExact(w) <==> forall k :: k in v.positions ==> AmountSum(Reopened(v.wal, n), k) == 0
  {
    hide Plausible, Uncommitted, AmountSum, Cleaned, Reopened;
    CleanupMoves(v.wal, n, PositionKey(0, "", ""));
    forall i | 0 <= i < |w.wal|
      ensures Plausible(w.wal[i], w.positions)
    {
      assert w.wal[i] in v.wal;
    }
    forall k | k in v.positions
      ensures AmountSum(Uncommitted(w.wal), k) == v.positions[k].reserved + AmountSum(Reopened(v.wal, n), k)
    {
      CleanupMoves(v.wal, n, k);
    }
  }

  lemma SamePlacesUpdate(v: View, h: Happening, w: View)
    requires Step(v, h, w) && !h.Called?
    ensures forall op: WalOp :: Plausible(op, v.positions) <==> Plausible(op, w.positions)
  {
    hide InRange, ToMicro, Wrap64, FlatStep, Rows, Cleaned;
    SamePlaces(v.positions, w.positions);
  }

  /** Over every run: memory and log agree in every state exactly when every step does the same to both. */
  lemma {:induction false} RunLogged(views: seq<View>, hs: seq<Happening>, n: nat)
    requires IsRun(views, hs) && n <= |hs| && NoOverflow(views, hs, n)
    requires AllSound(views[0]) && LogExact(views[0])
    ensures (forall i :: 0 <= i <= n ==> LogExact(views[i])) <==> forall i :: 0 <= i < n ==> Keeps(views[i], hs[i])
    decreases n
  {
    hide Step, AllSound, LogExact, Overflows, Keeps;
    if n > 0 {
      RunLogged(views, hs, n - 1);
      RunSound(views, hs, n - 1);
      if forall i :: 0 <= i <= n - 1 ==> LogExact(views[i]) {
        StepLogged(views[n - 1], hs[n - 1], views[n]);
      }
    }
  }

  // ---- The calls of the treasury worker ----

  /** The reference of a release: the transfer's own, or one derived from it and the reason. */
  function ReleaseReference(transfer: nat, reason: string, sha1: (nat, string) -> nat): nat {
    if reason == "" then transfer else sha1(transfer, reason)
  }

  lemma CallKeepsIff(v: View, c: Call, env: Environment)
    requires !v.replaying && c.position in v.positions && forall i :: 0 <= i < |v.wal| ==>
              v.wal[i].position in v.positions
    ensures Keeps(v, Called(c, env, Done)) <==> InStep(v.wal, RecordOf(c))
  {
    hide Moves;
    var h := Called(c, env, Done);
    forall k
      ensures Change(h, k).reserved == LogPart(RecordOf(c), k)
      ensures k !in v.positions ==> Moves(v.wal, RecordOf(c), k) == 0 == LogPart(RecordOf(c), k)
    {
      PartIsChange(c, env, k);
      if k !in v.positions {
        MovesNowhere(v.wal, RecordOf(c), k);
      }
    }
  }

  lemma PartIsChange(c: Call, env: Environment, k: PositionKey)
    ensures LogPart(RecordOf(c), k) == Change(Called(c, env, Done), k).reserved
    ensures k != c.position ==> LogPart(RecordOf(c), k) == 0
  {
    hide ToMicro;
  }

  lemma {:induction false} AmongNowhere(ops: seq<WalOp>, references: set<nat>, k: PositionKey)
    requires forall i :: 0 <= i < |ops| ==> ops[i].position != k
    ensures AmountSum(Among(ops, references), k) == 0
  {
    if ops != [] {
      SumAmong(ops, references, k);
      AmongNowhere(ops[..|ops| - 1], references, k);
    }
  }

  lemma MovesNowhere(wal: seq<WalOp>, op: WalOp, k: PositionKey)
    requires op.position != k && forall i :: 0 <= i < |wal| ==> wal[i].position != k
    ensures Moves(wal, op, k) == 0
  {
    AmongNowhere(wal, {op.reference}, k);
  }

  /** A completed release as the worker sends it, for any reason: its derived reference is nobody's, so it ends no
      reserve in the log, and memory and log disagree from then on. */
  lemma WorkerReleaseBreaks(v: View, c: Call, env: Environment, w: View,
                            transfer: nat, reason: string, sha1: (nat, string) -> nat)
    requires LogExact(v) && AllSound(v) && Performed(v, c, env, Done, w)
    requires c.op.Release? && c.reference == ReleaseReference(transfer, reason, sha1) && reason != ""
    requires forall i :: 0 <= i < |v.wal| && v.wal[i].op.Reserve? ==> v.wal[i].reference != sha1(transfer, reason)
    requires ToMicro(c.amount) > 0
    ensures !LogExact(w)
  {
    hide Performed, AllSound, ToMicro, LogExact, Closed;
    var h := Called(c, env, Done);
    ReleasedAt(v, c, env, w);
    NoReserve(v.wal, c.reference);
    assert Moves(v.wal, RecordOf(c), c.position) == 0 by { NoSum(c.position); }
    PartIsChange(c, env, c.position);
    StepLogged(v, h, w);
  }

  lemma ReleasedAt(v: View, c: Call, env: Environment, w: View)
    requires LogExact(v) && Performed(v, c, env, Done, w)
    ensures c.position in v.positions && Records(v, Called(c, env, Done))
  {
    hide Guard, InRange, ToMicro, KeysAfter, Recorded;
  }

  /** A completed consume as the worker sends it, under the transfer's own reference, keeps memory and log in
      agreement when it ends the transfer's one reserve in full; so do a commit and a release without a reason. */
  lemma MatchedEndKeeps(v: View, c: Call, env: Environment, w: View, i: nat)
    requires LogExact(v) && AllSound(v) && Performed(v, c, env, Done, w) && Closes(c.op)
    requires c.reference !in Closed(v.wal) && i < |v.wal| && Matches(v.wal[i], RecordOf(c))
    requires forall j :: 0 <= j < |v.wal| && j != i && v.wal[j].op.Reserve? ==> v.wal[j].reference != c.reference
    ensures LogExact(w)
  {
    hide Performed, AllSound, Closed, InStep, Keeps, Moves;
    EndOfOneReserve(v.wal, RecordOf(c), i);
    ReleasedAt(v, c, env, w);
    forall i | 0 <= i < |v.wal|
      ensures v.wal[i].position in v.positions
    {
      assert Plausible(v.wal[i], v.positions);
    }
    CallKeepsIff(v, c, env);
    StepLogged(v, Called(c, env, Done), w);
  }

  /** A completed release that gives back a transfer's one reserve in full keeps memory and log in agreement exactly
      when it carries no reason. */
  lemma WorkerReleaseKeepsIff(v: View, c: Call, env: Environment, w: View,
                              transfer: nat, reason: string, sha1: (nat, string) -> nat, i: nat)
    requires LogExact(v) && AllSound(v) && Performed(v, c, env, Done, w)
    requires c.op.Release? && c.reference == ReleaseReference(transfer, reason, sha1) && ToMicro(c.amount) > 0
    requires i < |v.wal| && v.wal[i] == WalOp(Reserve, c.position, c.amount, transfer) && transfer !in Closed(v.wal)
    requires forall j :: 0 <= j < |v.wal| && j != i && v.wal[j].op.Reserve? ==> v.wal[j].reference != transfer
    requires forall j :: 0 <= j < |v.wal| && v.wal[j].op.Reserve? ==> v.wal[j].reference != sha1(transfer, reason)
    ensures LogExact(w) <==> reason == ""
  {
    hide Performed, AllSound, Closed, LogExact, ToMicro;
    if reason == "" {
      MatchedEndKeeps(v, c, env, w, i);
    } else {
      WorkerReleaseBreaks(v, c, env, w, transfer, reason, sha1);
    }
  }

  // ---- From any run to its recovery ----

  lemma {:induction false} OpenElements(ops: seq<WalOp>, closed: set<nat>, positions: map<PositionKey, Counters>)
    requires forall i :: 0 <= i < |ops| ==> Plausible(ops[i], positions)
    ensures forall x :: x in Open(ops, closed) ==> IsReserve(x, positions)
  {
    hide InRange;
    if ops != [] {
      OpenElements(ops[..|ops| - 1], closed, positions);
    }
  }

  /** The open reserves of a log that agrees with memory fit, in any order. */
  lemma OpenFits(crash: View, ops: seq<WalOp>)
    requires LogExact(crash) && AllSound(crash) && multiset(ops) == multiset(Uncommitted(crash.wal))
    ensures Fits(ops, crash.positions)
    ensures forall k :: k in crash.positions ==> AmountSum(ops, k) == crash.positions[k].reserved
  {
    hide Open, Closed, AmountSum, IsReserve;
    var open := Uncommitted(crash.wal);
    OpenElements(crash.wal, Closed(crash.wal), crash.positions);
    forall k | k in crash.positions
      ensures AmountSum(ops, k) == crash.positions[k].reserved
    {
      Permuted(ops, open, k);
    }
    forall i | 0 <= i < |ops|
      ensures IsReserve(ops[i], crash.positions)
    {
      assert ops[i] in multiset(open);
    }
  }

  /** One process lifetime, ended by a crash, and the restart after it. */
  datatype Life = Life(past: seq<View>, happened: seq<Happening>,
                       ops: seq<WalOp>, times: seq<int>, envs: seq<Environment>, views: seq<View>, hs: seq<Happening>)
  {
    ghost predicate Runs() {
      IsRun(past, happened) && NoOverflow(past, happened, |happened|)
    }

    ghost function Crash(): View
      requires Runs()
    {
      past[|happened|]
    }
  }

  /** Any run without overflow, a crash with every row current, and a replay of the open reserves of the log in any
      order, with the store refusing whichever writes it likes. */
  ghost predicate Lived(l: Life) {
    && l.Runs()
    && Current(l.Crash()) && (forall k :: k in l.Crash().positions ==> l.Crash().positions[k].balance <= MAX_MICRO)
    && multiset(l.ops) == multiset(Uncommitted(l.Crash().wal))
    && IsReplay(l.views, l.hs, l.ops, l.times, l.envs) && KeysLast(l.ops, l.times)
    && l.views[0] == Restarted(l.Crash().stored, l.Crash().wal, 0)
  }

  /** The state in which the restarted process begins its own life. */
  ghost function Reborn(l: Life): View
    requires Lived(l)
  {
    l.views[|l.ops|].(replaying := false)
  }

  ghost predicate Ready(v: View) {
    AllSound(v) && LogExact(v)
  }

  /** Every replayed reserve of at least a micro-unit completes. */
  ghost predicate TakesAll(ops: seq<WalOp>, envs: seq<Environment>)
    requires |ops| <= |envs|
  {
    forall i :: 0 <= i < |ops| && ToMicro(ops[i].amount) > 0 ==> Takes(ops, envs, i)
  }

  /** Exact recovery. After a crash with memory and log in agreement, the restart gives back all three counters of
      every position exactly when every replayed reserve of at least a micro-unit has its flush, if it is
      large enough for one, accepted and its reference to itself; none ever runs out of funds. */
  lemma CrashRecoversIff(l: Life)
    requires Lived(l) && Ready(l.Crash())
    ensures |l.ops| <= |l.envs|
    ensures Reborn(l).positions == l.Crash().positions <==> TakesAll(l.ops, l.envs)
    ensures Reborn(l).positions == l.Crash().positions ==> Ready(Reborn(l)) && Current(Reborn(l))
    ensures forall i :: 0 <= i < |l.hs| ==> l.hs[i].Called? && l.hs[i].outcome != Insufficient
  {
    hide Step, NoOverflow, Current, Uncommitted, IsReplay, Fits, Restarted, Sound, Takes, AmountSum, Plausible,
      KeysLast,
      DoneSum, ToMicro;
    var crash, done := l.Crash(), DoneOf(l.hs);
    ReplayLength(l.views, l.hs, l.ops, l.times, l.envs);
    OpenFits(crash, l.ops);
    ReplayGives(l.views, l.hs, l.ops, l.times, l.envs, crash);
    FittingAmounts(l.ops, crash.positions);
    DoneIsAllIff(l.ops, done, |l.ops|);
    assert forall i :: 0 <= i < |l.ops| ==> (done[i] <==> Takes(l.ops, l.envs, i));
    assert l.ops[..|l.ops|] == l.ops;
    forall k | k !in crash.positions
      ensures SameSum(l.ops, done, |l.ops|, k)
    {
      SumsNowhere(l.ops, done, |l.ops|, crash.positions, k);
    }
    RestoredIff(Reborn(l).positions, crash.positions, l.ops, done);
    StillCurrent(l.views[|l.ops|]);
  }

  lemma RestoredIff(after: map<PositionKey, Counters>, before: map<PositionKey, Counters>, ops: seq<WalOp>,
      done: seq<bool>)
    requires |ops| == |done| && after.Keys == before.Keys
    requires forall k :: k in before ==> after[k] == before[k].(reserved := DoneSum(ops, done, |ops|, k))
    requires forall k :: k in before ==> before[k].reserved == AmountSum(ops, k)
    ensures after == before <==> forall k :: k in before ==> SameSum(ops, done, |ops|, k)
  {
    hide DoneSum, AmountSum;
    assert ops[..|ops|] == ops;
    if after == before {
      forall k | k in before
        ensures SameSum(ops, done, |ops|, k)
      {
        assert after[k] == before[k];
      }
    }
  }

  lemma {:induction false} SumsNowhere(ops: seq<WalOp>, done: seq<bool>, n: nat, positions: map<PositionKey, Counters>,
                                       k: PositionKey)
    requires n <= |ops| && n <= |done| && k !in positions && Fits(ops, positions)
    ensures DoneSum(ops, done, n, k) == AmountSum(ops[..n], k) == 0
    decreases n
  {
    hide ToMicro, Sound;
    if n > 0 {
      SumsNowhere(ops, done, n - 1, positions, k);
      assert IsReserve(ops[n - 1], positions);
      assert ops[..n][..n - 1] == ops[..n - 1];
    }
  }

  lemma StillCurrent(v: View)
    requires Current(v)
    ensures Current(v.(replaying := false))
  {
  }

  /** A life in which memory and log agree at every moment and which the restart after it restores. */
  ghost predicate Exact(l: Life)
    requires Lived(l)
  {
    && (forall i :: 0 <= i <= |l.happened| ==> LogExact(l.past[i]))
    && Reborn(l).positions == l.Crash().positions
  }

  /** Every step does the same to memory and log, and every replayed reserve of at least a micro-unit completes. */
  ghost predicate Careful(l: Life)
    requires Lived(l)
  {
    && (forall i :: 0 <= i < |l.happened| ==> Keeps(l.past[i], l.happened[i]))
    && |l.ops| <= |l.envs| && TakesAll(l.ops, l.envs)
  }

  /** From any life that begins with memory and log in agreement: it is exact exactly when it is careful, and then
      the next one begins in agreement too. */
  lemma RecoveryExactIff(l: Life)
    requires Lived(l) && Ready(l.past[0])
    ensures Exact(l) <==> Careful(l)
    ensures Exact(l) ==> Ready(Reborn(l))
  {
    hide Step, NoOverflow, Current, Uncommitted, IsReplay, Restarted, Sound, Keeps, KeysLast, TakesAll, LogExact;
    RunLogged(l.past, l.happened, |l.happened|);
    RunSound(l.past, l.happened, |l.happened|);
    if LogExact(l.Crash()) {
      CrashRecoversIff(l);
    }
  }

  /** Each life begins where the restart before it ended. */
  ghost predicate Chained(lives: seq<Life>) {
    && (forall i :: 0 <= i < |lives| ==> Lived(lives[i]))
    && forall i :: 0 < i < |lives| ==> lives[i].past[0] == Reborn(lives[i - 1])
  }

  /** Recovery composes: over any number of crashes every life is exact exactly when every life is careful. */
  lemma {:induction false} EveryRestartExactIff(lives: seq<Life>, n: nat)
    requires Chained(lives) && n <= |lives| && (lives != [] ==> Ready(lives[0].past[0]))
    ensures (forall i :: 0 <= i < n ==> Exact(lives[i])) <==> forall i :: 0 <= i < n ==> Careful(lives[i])
    ensures n > 0 && (forall i :: 0 <= i < n ==> Exact(lives[i])) ==> Ready(Reborn(lives[n - 1]))
    decreases n
  {
    hide Lived, Ready, Exact, Careful;
    if n > 0 {
      EveryRestartExactIff(lives, n - 1);
      if forall i :: 0 <= i < n - 1 ==> Exact(lives[i]) {
        RecoveryExactIff(lives[n - 1]);
      }
    }
  }

  /** A first start: nothing logged, nothing reserved. */
  lemma FirstStart(v: View)
    requires AllSound(v) && v.wal == [] && !v.replaying && forall k :: k in v.positions ==> v.positions[k].reserved == 0
    ensures Ready(v)
  {
    hide Sound;
    forall k | k in v.positions
      ensures v.positions[k].reserved == AmountSum(Uncommitted(v.wal), k)
    {
      NothingOpen(k);
    }
  }

  /** Call i has the reference and the kind of one of the first n. */
  ghost predicate Repeats(hs: seq<Happening>, n: nat, i: nat)
    requires n <= i < |hs| && forall j :: 0 <= j <= i ==> hs[j].Called?
  {
    exists j :: 0 <= j < n && KeyOf(hs[i].call) == KeyOf(hs[j].call)
  }

  /** Replaying once more within two minutes, in any order and any number of times, changes nothing. */
  lemma {:induction false} SecondReplayChangesNothing(views: seq<View>, hs: seq<Happening>, n: nat, end: nat)
    requires IsRun(views, hs) && n <= end <= |hs|
    requires forall i :: 0 <= i < end ==> hs[i].Called?
    requires forall i :: 0 <= i < n ==> hs[i].outcome.Done?
    requires forall i :: n <= i < end ==> Repeats(hs, n, i)
    requires forall i, j :: 0 <= j < n && j < i < end ==> Timely(hs[i], hs[j].call.now)
    ensures views[end] == views[n]
    decreases end
  {
    hide Step, KeyOf, Timely;
    if end > n {
      SecondReplayChangesNothing(views, hs, n, end - 1);
      assert Repeats(hs, n, end - 1);
      var j :| 0 <= j < n && KeyOf(hs[end - 1].call) == KeyOf(hs[j].call);
      DuplicateChangesNothing(views, hs, j, end - 1);
    }
  }

  // ---- Where it goes wrong ----

  const OPEN := WalOp(Reserve, BANK, 3.0, 7)

  /** The log with one reserve. */
  lemma OneOpen()
    ensures [] + [OPEN] == [OPEN] && AmountSum([OPEN], BANK) == 3_000_000
    ensures Uncommitted([OPEN]) == [OPEN] && Closed([OPEN]) == {}
  {
    hide ToMicro, AmountSum, Open, Closed;
    ThreeUnits();
    SumAppend([], OPEN, BANK);
    NoSum(BANK);
    ClosedStep([], OPEN);
    NothingClosed();
    OpenOfOne(OPEN, {});
    assert [] + [OPEN] == [OPEN];
  }

  lemma NothingClosed()
    ensures Closed([]) == {}
  {
  }

  /** A large reserve refused because its synchronous flush failed has its record in the log all the same:
      recovery would reserve what the caller was told was not. */
  lemma RefusedReserveIsLogged() returns (v: View, c: Call, env: Environment, w: View)
    ensures Performed(v, c, env, FlushFailed, w) && Ready(v) && Covered(v)
    ensures w.positions == v.positions && Uncommitted(w.wal) == [RecordOf(c)] && !LogExact(w)
  {
    hide Wrap64, ToMicro, InRange, FromMicro, Available, RowOf, Uncommitted, AmountSum;
    var before := Counters(5_000_000, 0, 0);
    v := OnePosition(before, {}, RowOf(before), map[], [], 0);
    c := LargeCall(Reserve);
    env := Environment(Queued, false, 3.0, 0);
    w := v.(dirty := {BANK}, wal := [OPEN]);
    ThreeUnits();
    LargeReserve();
    LoadedCovered(v);
    FirstStart(v);
    OneOpen();
  }

  /** A position with one large reserve, in memory and in the log. */
  function Held(): View {
    var c := Counters(5_000_000, 0, 3_000_000);
    OnePosition(c, {}, RowOf(c), map[KeyOf(LargeCall(Reserve)) := 0], [OPEN], 0)
  }

  lemma HeldIsReady()
    ensures Ready(Held()) && Current(Held())
  {
    hide RowOf, Uncommitted, AmountSum, ToMicro, KeyOf;
    OneOpen();
    ThreeUnits();
  }

  /** The release of reserve 7 under a derived reference. */
  function DerivedRelease(): Call {
    Call(Release, BANK, 3.0, 8, 0)
  }

  function Let(): View {
    Held().(positions := map[BANK := Counters(5_000_000, 0, 0)], dirty := {BANK},
            keys := Held().keys[KeyOf(DerivedRelease()) := 0], wal := [OPEN, RecordOf(DerivedRelease())])
  }

  lemma ReleaseGoesThrough()
    ensures Performed(Held(), DerivedRelease(), LARGE, Done, Let())
  {
    hide ToMicro, InRange, Wrap64, RowOf;
    ThreeUnits();
    assert Key(7, OpName(Reserve)) != Key(8, OpName(Release));
    var c := Counters(5_000_000, 0, 3_000_000);
    assert Held().positions[BANK := c.(reserved := 0)] == Let().positions;
    assert Let().keys - {KeyOf(DerivedRelease())} == Held().keys;
    assert {} + {BANK} == {BANK} && [OPEN] + [RecordOf(DerivedRelease())] == Let().wal;
  }

  /** The restart after a crash with that one reserve open. */
  lemma ReplayOfOne(views: seq<View>, hs: seq<Happening>, times: seq<int>, envs: seq<Environment>, crash: View)
    requires Current(crash) && AllSound(crash) && crash.positions.Keys == {BANK}
    requires crash.positions[BANK].balance == 5_000_000 && crash.positions[BANK].locked == 0
    requires IsReplay(views, hs, [OPEN], times, envs) && views[0] == Restarted(crash.stored, crash.wal, 0)
    ensures |views| == 2 && |envs| > 0 && |hs| == 1 && hs[0].Called? && BANK in views[1].positions
    ensures views[1].positions[BANK].reserved == if RefusedFlush(OPEN, envs[0]) then 0 else 3_000_000
    ensures hs[0].outcome == Done <==> !RefusedFlush(OPEN, envs[0])
  {
    hide IsReplay, RowOf, ToMicro, AmountSum, Restarted, InRange, Current, RefusedFlush;
    OneOpen();
    ThreeUnits();
    ReplayLength(views, hs, [OPEN], times, envs);
    assert Fits([OPEN], crash.positions);
    ReplayGives(views, hs, [OPEN], times, envs, crash);
    assert Takes([OPEN], envs, 0) <==> !RefusedFlush(OPEN, envs[0]);
    assert DoneSum([OPEN], DoneOf(hs), 1, BANK)
        == DoneSum([OPEN], DoneOf(hs), 0, BANK) + if DoneOf(hs)[0] then AmountAt(OPEN, BANK) else 0;
  }

  /** Released under a derived reference, the reserve is still open in the log, and every restart takes it again:
      nothing was reserved at the crash, 3 units are after it. */
  lemma ReleasedReserveComesBack(views: seq<View>, hs: seq<Happening>, times: seq<int>, envs: seq<Environment>)
    requires IsReplay(views, hs, Uncommitted(Let().wal), times, envs)
    requires views[0] == Restarted(Let().stored, Let().wal, 0) && |envs| > 0 && envs[0].storeOk
    ensures Ready(Held()) && Performed(Held(), DerivedRelease(), LARGE, Done, Let()) && Current(Let())
    ensures Let().positions[BANK].reserved == 0 && Uncommitted(Let().wal) == [OPEN]
    ensures |views| == 2 && BANK in views[1].positions && views[1].positions[BANK].reserved == 3_000_000
  {
    hide Performed, IsReplay, RowOf, Uncommitted, KeyOf, Restarted, Ready, Current, AllSound;
    HeldIsReady();
    ReleaseGoesThrough();
    StillOpen();
    LetIsCurrent();
    ReplayOfOne(views, hs, times, envs, Let());
  }

  lemma LetIsCurrent()
    ensures Current(Let()) && AllSound(Let())
  {
    SameRow(Counters(5_000_000, 0, 3_000_000), Counters(5_000_000, 0, 0));
  }

  lemma StillOpen()
    ensures Uncommitted(Let().wal) == [OPEN]
  {
    hide ToMicro;
    var wal := Let().wal;
    assert Closed(wal) == {8} by {
      assert wal[0] == OPEN && wal[1] == RecordOf(DerivedRelease());
    }
    assert wal[..1] == [OPEN] && [OPEN][..0] == [];
    assert Open([OPEN], {8}) == Open([], {8}) + [OPEN] == [OPEN];
    assert Open(wal, {8}) == Open([OPEN], {8}) + [];
  }

  /** A large reserve whose flush the store refuses during replay is dropped: 3 units were reserved at the crash,
      nothing is after it. */
  lemma RefusedReplayIsDropped(views: seq<View>, hs: seq<Happening>, times: seq<int>, envs: seq<Environment>)
    requires IsReplay(views, hs, Uncommitted(Held().wal), times, envs)
    requires views[0] == Restarted(Held().stored, Held().wal, 0) && |envs| > 0 && envs[0] == LARGE.(storeOk := false)
    ensures Ready(Held()) && Current(Held()) && Held().positions[BANK].reserved == 3_000_000
    ensures |views| == 2 && hs[0].outcome != Done && BANK in views[1].positions
              && views[1].positions[BANK].reserved == 0
  {
    hide IsReplay, RowOf, Uncommitted, KeyOf, Restarted, AllSound, Current, LogExact;
    HeldIsReady();
    OneOpen();
    ReplayOfOne(views, hs, times, envs, Held());
  }
}
