/** Reserve and matched Release on one position by any number of goroutines, interleaved at single loads,
    compare-and-swaps and rollbacks, with credits landing at any time (treasury/manager.go:463-490, 539-559, 772). */
module TreasuryInterleaving {
  import opened Words

  /** Where a goroutine is. Each constructor holds the values it has loaded; seen counts the writes to the
      reserved counter at the time of its load. */
  datatype Pc =
    | Idle
    | GotBalance(b: int)
    | GotLocked(b: int, l: int)
    | Ready(b: int, l: int, r: int, seen: nat)
    | Logging
    | Held
    | Releasing(r: int, seen: nat)
    | ReleaseLogging
    | Released
    | Refused
    | LogRefused
    | ReleaseRefused
    | ReleaseUndone

  /** One reservation; failures counts its failed swaps and steps its steps. */
  datatype Thread = Thread(amount: int, pc: Pc, failures: nat, steps: nat)

  datatype Shared = Shared(balance: int, locked: int, reserved: int, writes: nat)

  /** base is what was reserved before. */
  datatype State = State(mem: Shared, base: int, threads: seq<Thread>)

  datatype Action =
    | Advance(thread: nat, walOk: bool)
    | Credit(amount: int)

  // ---- Steps ----

  function Goes(t: Thread, pc: Pc): Thread {
    t.(pc := pc, steps := t.steps + 1)
  }

  function Retries(t: Thread, pc: Pc): Thread {
    t.(pc := pc, steps := t.steps + 1, failures := t.failures + 1)
  }

  function Written(m: Shared, reserved: int): Shared {
    m.(reserved := Wrap64(reserved), writes := m.writes + 1)
  }

  /** The load of reserved and the check that follows it. */
  function LoadReserved(m: Shared, t: Thread): Thread
    requires t.pc.GotLocked?
  {
    if Wrap64(Wrap64(t.pc.b - t.pc.l) - m.reserved) < t.amount then Goes(t, Refused)
    else Goes(t, Ready(t.pc.b, t.pc.l, m.reserved, m.writes))
  }

  function TryReserve(m: Shared, t: Thread): (Shared, Thread)
    requires t.pc.Ready?
  {
    if m.reserved == t.pc.r then (Written(m, t.pc.r + t.amount), Goes(t, Logging)) else (m, Retries(t, Idle))
  }

  function Log(m: Shared, t: Thread, walOk: bool): (Shared, Thread) {
    if walOk then (m, Goes(t, Held)) else (Written(m, m.reserved - t.amount), Goes(t, LogRefused))
  }

  function LoadForRelease(m: Shared, t: Thread): Thread {
    if m.reserved < t.amount then Goes(t, ReleaseRefused) else Goes(t, Releasing(m.reserved, m.writes))
  }

  function TryRelease(m: Shared, t: Thread): (Shared, Thread)
    requires t.pc.Releasing?
  {
    if m.reserved == t.pc.r then (Written(m, t.pc.r - t.amount), Goes(t, ReleaseLogging))
    else (m, Retries(t, Held))
  }

  /** A release that cannot be logged adds its amount back, whatever has been reserved in the meantime. */
  function LogRelease(m: Shared, t: Thread, walOk: bool): (Shared, Thread) {
    if walOk then (m, Goes(t, Released)) else (Written(m, m.reserved + t.amount), Goes(t, ReleaseUndone))
  }

  function Move(m: Shared, t: Thread, walOk: bool): (Shared, Thread) {
    match t.pc
    case Idle => (m, Goes(t, GotBalance(m.balance)))
    case GotBalance(b) => (m, Goes(t, GotLocked(b, m.locked)))
    case GotLocked(_, _) => (m, LoadReserved(m, t))
    case Ready(_, _, _, _) => TryReserve(m, t)
    case Logging => Log(m, t, walOk)
    case Held => (m, LoadForRelease(m, t))
    case Releasing(_, _) => TryRelease(m, t)
    case ReleaseLogging => LogRelease(m, t, walOk)
    case _ => (m, t)
  }

  /** Credits are successful ones: the sum is an int64. */
  function Next(s: State, a: Action): State {
    match a
    case Advance(i, walOk) =>
      if i < |s.threads| then
        var moved := Move(s.mem, s.threads[i], walOk);
        s.(mem := moved.0, threads := s.threads[i := moved.1])
      else s
    case Credit(amount) =>
      if 0 <= amount && s.mem.balance + amount < TWO_63 then s.(mem := s.mem.(balance := s.mem.balance + amount)) else s
  }

  function Run(s: State, acts: seq<Action>): State {
    if acts == [] then s else Next(Run(s, acts[..|acts| - 1]), acts[|acts| - 1])
  }

  predicate Unstarted(t: Thread) {
    t.amount >= 0 && t.pc.Idle? && t.failures == 0 && t.steps == 0
  }

  /** Nobody has started. */
  predicate Initial(s: State) {
    && 0 <= s.mem.locked && 0 <= s.base == s.mem.reserved && s.mem.locked + s.base <= s.mem.balance < TWO_63
    && s.mem.writes == 0
    && forall i :: 0 <= i < |s.threads| ==> Unstarted(s.threads[i])
  }

  // ---- Invariants ----

  predicate Holds(pc: Pc) {
    pc.Logging? || pc.Held? || pc.Releasing? || pc.ReleaseRefused? || pc.ReleaseUndone?
  }

  function Holding(t: Thread): int {
    if Holds(t.pc) then t.amount else 0
  }

  /** What the goroutines hold together. */
  function HeldSum(ts: seq<Thread>): int {
    if ts == [] then 0 else HeldSum(ts[..|ts| - 1]) + Holding(ts[|ts| - 1])
  }

  /** Writes to reserved by one goroutine: its swap, then its rollback or its release, then the rollback of
      that. */
  function Wrote(pc: Pc): nat {
    if pc.ReleaseUndone? then 3 else if Holds(pc) then 1
    else if pc.ReleaseLogging? || pc.Released? || pc.LogRefused? then 2 else 0
  }

  function WriteSum(ts: seq<Thread>): nat {
    if ts == [] then 0 else WriteSum(ts[..|ts| - 1]) + Wrote(ts[|ts| - 1].pc)
  }

  /** Steps on the way to a point, retries apart. */
  function Rank(pc: Pc): nat {
    match pc
    case Idle => 0
    case GotBalance(_) => 1
    case GotLocked(_, _) => 2
    case Ready(_, _, _, _) => 3
    case Refused => 3
    case Logging => 4
    case Held => 5
    case LogRefused => 5
    case Releasing(_, _) => 6
    case ReleaseRefused => 6
    case ReleaseLogging => 7
    case Released => 8
    case ReleaseUndone => 8
  }

  /** A load of reserved is out of date only if somebody has written since, and every failure so far is paid
      for by an earlier write. */
  predicate FreshLoad(m: Shared, t: Thread, r: int, seen: nat) {
    t.failures <= seen <= m.writes && (seen == m.writes ==> r == m.reserved)
  }

  /** A loaded balance is at most the current one; locked does not change. */
  predicate LoadsTrue(m: Shared, t: Thread) {
    match t.pc
    case GotBalance(b) => m.locked <= b <= m.balance
    case GotLocked(b, l) => l == m.locked <= b <= m.balance
    case Ready(b, l, r, seen) => l == m.locked <= b <= m.balance && FreshLoad(m, t, r, seen)
    case Releasing(r, seen) => t.amount <= r && FreshLoad(m, t, r, seen)
    case _ => true
  }

  predicate ThreadCounts(m: Shared, t: Thread) {
    && 0 <= t.amount && t.failures <= m.writes && t.steps <= 4 * t.failures + Rank(t.pc)
    && LoadsTrue(m, t)
  }

  predicate InRange(m: Shared) {
    0 <= m.locked <= m.balance < TWO_63
  }

  /** What holds of every run. */
  ghost predicate Counted(s: State) {
    && InRange(s.mem) && Int64(s.mem.reserved)
    && s.mem.writes == WriteSum(s.threads)
    && forall i :: 0 <= i < |s.threads| ==> ThreadCounts(s.mem, s.threads[i])
  }

  predicate ThreadOk(m: Shared, t: Thread) {
    && 0 <= t.amount
    && match t.pc
       case Ready(b, l, r, _) => t.amount <= b - l - r
       case Releasing(r, _) => t.amount <= r
       case ReleaseLogging => t.amount <= m.balance
       case ReleaseRefused => false
       case _ => true
  }

  /** Nothing is committed twice. */
  predicate Safe(m: Shared) {
    0 <= m.reserved && m.locked + m.reserved <= m.balance
  }

  /** What holds while no rollback overdraws. */
  ghost predicate Exact(s: State) {
    && Safe(s.mem) && 0 <= s.base
    && s.mem.reserved == s.base + HeldSum(s.threads)
    && forall i :: 0 <= i < |s.threads| ==> ThreadOk(s.mem, s.threads[i])
  }

  ghost predicate Invariant(s: State) {
    Counted(s) && Exact(s)
  }

  /** A step that adds a release back when what it freed is no longer available. */
  predicate Overdrawing(m: Shared, t: Thread, walOk: bool) {
    t.pc.ReleaseLogging? && !walOk && m.balance - m.locked - m.reserved < t.amount
  }

  predicate Overdraws(s: State, a: Action) {
    a.Advance? && a.thread < |s.threads| && Overdrawing(s.mem, s.threads[a.thread], a.walOk)
  }

  /** No step of the run overdraws. */
  predicate Calm(s: State, acts: seq<Action>) {
    acts != [] ==> Calm(s, acts[..|acts| - 1]) && !Overdraws(Run(s, acts[..|acts| - 1]), acts[|acts| - 1])
  }

  /** Every state of the run is safe. */
  predicate AlwaysSafe(s: State, acts: seq<Action>) {
    Safe(Run(s, acts).mem) && (acts != [] ==> AlwaysSafe(s, acts[..|acts| - 1]))
  }

  // ---- Sums ----

  lemma {:induction false} SumsUpdate(ts: seq<Thread>, i: nat, t: Thread)
    requires i < |ts|
    ensures HeldSum(ts[i := t]) == HeldSum(ts) - Holding(ts[i]) + Holding(t)
    ensures WriteSum(ts[i := t]) == WriteSum(ts) - Wrote(ts[i].pc) + Wrote(t.pc)
    decreases |ts|
  {
    hide Holding, Wrote;
    var n := |ts| - 1;
    if i == n {
      assert ts[i := t][..n] == ts[..n];
    } else {
      SumsUpdate(ts[..n], i, t);
      assert ts[i := t][..n] == ts[..n][i := t];
    }
  }

  lemma {:induction false} HoldsOwn(ts: seq<Thread>, i: nat)
    requires i < |ts| && forall j :: 0 <= j < |ts| ==> ts[j].amount >= 0
    ensures 0 <= Holding(ts[i]) <= HeldSum(ts)
    decreases |ts|
  {
    var n := |ts| - 1;
    if i < n {
      HoldsOwn(ts[..n], i);
    } else if n > 0 {
      HoldsOwn(ts[..n], 0);
    }
  }

  lemma {:induction false} WritesBounded(ts: seq<Thread>)
    ensures WriteSum(ts) <= 3 * |ts|
  {
    if ts != [] {
      WritesBounded(ts[..|ts| - 1]);
    }
  }

  // ---- One step ----

  /** What a step of one goroutine does to memory: at most one write to reserved. */
  ghost predicate Tallied(m: Shared, t: Thread, m': Shared, t': Thread) {
    && m'.balance == m.balance && m'.locked == m.locked && t'.amount == t.amount
    && m'.writes - m.writes == Wrote(t'.pc) - Wrote(t.pc)
    && (m'.writes == m.writes ==> m'.reserved == m.reserved)
    && m.writes <= m'.writes && Int64(m'.reserved)
    && ThreadCounts(m', t')
  }

  lemma MoveTallied(m: Shared, t: Thread, walOk: bool)
    requires m.locked <= m.balance && Int64(m.reserved) && ThreadCounts(m, t)
    ensures var r := Move(m, t, walOk); Tallied(m, t, r.0, r.1)
  {
    hide Wrap64;
  }

  /** The others' loads stay as good as they were. */
  lemma OthersCounts(m: Shared, m': Shared, u: Thread)
    requires ThreadCounts(m, u)
    requires m.balance <= m'.balance && m'.locked == m.locked && m.writes <= m'.writes
    requires m'.writes == m.writes ==> m'.reserved == m.reserved
    ensures ThreadCounts(m', u)
  {
    hide Rank;
  }

  lemma AdvanceCounts(s: State, i: nat, walOk: bool)
    requires Counted(s) && i < |s.threads|
    ensures Counted(Next(s, Advance(i, walOk)))
  {
    hide Move, ThreadCounts, WriteSum, Wrote;
    var t, r := s.threads[i], Move(s.mem, s.threads[i], walOk);
    MoveTallied(s.mem, t, walOk);
    SumsUpdate(s.threads, i, r.1);
    forall j | 0 <= j < |s.threads| && j != i ensures ThreadCounts(r.0, s.threads[j]) {
      OthersCounts(s.mem, r.0, s.threads[j]);
    }
  }

  lemma CreditCounts(s: State, amount: int)
    requires Counted(s)
    ensures Counted(Next(s, Credit(amount)))
  {
    hide ThreadCounts, WriteSum;
    var m := s.mem.(balance := s.mem.balance + amount);
    forall j | 0 <= j < |s.threads| && 0 <= amount ensures ThreadCounts(m, s.threads[j]) {
      OthersCounts(s.mem, m, s.threads[j]);
    }
  }

  lemma {:induction false} RunCounted(s: State, acts: seq<Action>)
    requires Initial(s)
    ensures Counted(Run(s, acts)) && |Run(s, acts).threads| == |s.threads|
  {
    hide Move, Counted, Initial;
    if acts == [] {
      InitialInvariant(s);
    } else {
      RunCounted(s, acts[..|acts| - 1]);
      var before := Run(s, acts[..|acts| - 1]);
      match acts[|acts| - 1]
      case Advance(i, walOk) => if i < |before.threads| { AdvanceCounts(before, i, walOk); }
      case Credit(amount) => CreditCounts(before, amount);
    }
  }

  /** A step that does not overdraw changes reserved by the change in what the goroutine holds. */
  ghost predicate Moved(m: Shared, t: Thread, m': Shared, t': Thread) {
    && m'.balance == m.balance && m'.locked == m.locked
    && m'.reserved - m.reserved == Holding(t') - Holding(t)
    && Safe(m') && ThreadOk(m', t')
  }

  lemma LoadReservedMoves(m: Shared, t: Thread)
    requires InRange(m) && Safe(m) && ThreadCounts(m, t) && ThreadOk(m, t) && t.pc.GotLocked?
    ensures Moved(m, t, m, LoadReserved(m, t))
  {
    hide Wrap64, Rank;
  }

  lemma TryReserveMoves(m: Shared, t: Thread)
    requires InRange(m) && Safe(m) && ThreadCounts(m, t) && ThreadOk(m, t) && t.pc.Ready?
    ensures var r := TryReserve(m, t); Moved(m, t, r.0, r.1)
  {
    hide Wrap64, Rank;
  }

  lemma LogMoves(m: Shared, t: Thread, walOk: bool)
    requires InRange(m) && Safe(m) && ThreadOk(m, t)
    ensures t.pc.Logging? && t.amount <= m.reserved ==> var r := Log(m, t, walOk); Moved(m, t, r.0, r.1)
    ensures t.pc.ReleaseLogging? && !Overdrawing(m, t, walOk) ==>
              var r := LogRelease(m, t, walOk); Moved(m, t, r.0, r.1)
  {
    hide Wrap64;
  }

  lemma ReleaseMoves(m: Shared, t: Thread)
    requires InRange(m) && Safe(m) && ThreadOk(m, t) && t.amount <= m.reserved
    ensures t.pc.Held? ==> Moved(m, t, m, LoadForRelease(m, t))
    ensures t.pc.Releasing? ==> var r := TryRelease(m, t); Moved(m, t, r.0, r.1)
  {
    hide Wrap64;
  }

  lemma MoveMoves(m: Shared, t: Thread, walOk: bool)
    requires InRange(m) && Safe(m) && ThreadCounts(m, t) && ThreadOk(m, t) && Holding(t) <= m.reserved
    requires !Overdrawing(m, t, walOk)
    ensures var r := Move(m, t, walOk); Moved(m, t, r.0, r.1)
  {
    hide LoadReserved, TryReserve, Log, LoadForRelease, TryRelease, LogRelease, ThreadCounts;
    match t.pc
    case GotLocked(_, _) => LoadReservedMoves(m, t);
    case Ready(_, _, _, _) => TryReserveMoves(m, t);
    case Logging => LogMoves(m, t, walOk);
    case Held => ReleaseMoves(m, t);
    case Releasing(_, _) => ReleaseMoves(m, t);
    case ReleaseLogging => LogMoves(m, t, walOk);
    case _ =>
  }

  /** Adding back what is no longer there leaves the position unsafe: overdrawn, or wrapped to a negative
      number. */
  lemma OverdrawingIsUnsafe(m: Shared, t: Thread)
    requires InRange(m) && Safe(m) && ThreadOk(m, t) && Overdrawing(m, t, false)
    ensures !Safe(LogRelease(m, t, false).0)
  {
  }

  lemma Amounts(s: State)
    requires Exact(s)
    ensures forall j :: 0 <= j < |s.threads| ==> s.threads[j].amount >= 0
  {
    forall j | 0 <= j < |s.threads| ensures s.threads[j].amount >= 0 {
      assert ThreadOk(s.mem, s.threads[j]);
    }
  }

  lemma AdvanceExact(s: State, i: nat, walOk: bool)
    requires Invariant(s) && i < |s.threads| && !Overdraws(s, Advance(i, walOk))
    ensures Exact(Next(s, Advance(i, walOk)))
  {
    hide Move, Safe, ThreadCounts, HeldSum, WriteSum, Holding, Wrote;
    var t, r := s.threads[i], Move(s.mem, s.threads[i], walOk);
    Amounts(s);
    HoldsOwn(s.threads, i);
    MoveMoves(s.mem, t, walOk);
    SumsUpdate(s.threads, i, r.1);
  }

  lemma CreditExact(s: State, amount: int)
    requires Exact(s)
    ensures Exact(Next(s, Credit(amount)))
  {
    hide HeldSum;
  }

  lemma StepKeeps(s: State, a: Action)
    requires Invariant(s) && !Overdraws(s, a)
    ensures Invariant(Next(s, a))
  {
    hide Counted, Exact, Move;
    match a
    case Advance(i, walOk) =>
      if i < |s.threads| {
        AdvanceCounts(s, i, walOk);
        AdvanceExact(s, i, walOk);
      }
    case Credit(amount) =>
      CreditCounts(s, amount);
      CreditExact(s, amount);
  }

  lemma StepUnsafe(s: State, a: Action)
    requires Invariant(s) && Overdraws(s, a)
    ensures !Safe(Next(s, a).mem)
  {
    hide HeldSum, WriteSum, ThreadCounts, Safe;
    OverdrawingIsUnsafe(s.mem, s.threads[a.thread]);
  }

  lemma {:induction false} InitialInvariant(s: State)
    requires Initial(s)
    ensures Invariant(s)
  {
    NobodyHolds(s.threads);
  }

  lemma {:induction false} NobodyHolds(ts: seq<Thread>)
    requires forall i :: 0 <= i < |ts| ==> ts[i].pc.Idle?
    ensures HeldSum(ts) == 0 && WriteSum(ts) == 0
  {
    if ts != [] {
      NobodyHolds(ts[..|ts| - 1]);
    }
  }

  lemma {:induction false} RunInvariant(s: State, acts: seq<Action>)
    requires Initial(s) && Calm(s, acts)
    ensures Invariant(Run(s, acts))
  {
    hide Invariant, Initial, Overdraws;
    if acts == [] {
      InitialInvariant(s);
    } else {
      RunInvariant(s, acts[..|acts| - 1]);
      StepKeeps(Run(s, acts[..|acts| - 1]), acts[|acts| - 1]);
    }
  }

  // ---- Safety ----

  lemma InvariantIsSafe(s: State)
    requires Invariant(s)
    ensures Safe(s.mem)
  {
  }

  /** Locked and reserved funds stay within the balance in every state of a run exactly when no release that
      could not be logged is added back after its funds were taken again. */
  lemma {:induction false} ReservationsSafeIff(s: State, acts: seq<Action>)
    requires Initial(s)
    ensures AlwaysSafe(s, acts) <==> Calm(s, acts)
  {
    hide Invariant, Initial, Overdraws, Safe;
    if acts == [] {
      InitialInvariant(s);
      InvariantIsSafe(s);
    } else {
      var init := acts[..|acts| - 1];
      ReservationsSafeIff(s, init);
      if Calm(s, init) {
        RunInvariant(s, init);
        if Overdraws(Run(s, init), acts[|acts| - 1]) {
          StepUnsafe(Run(s, init), acts[|acts| - 1]);
        } else {
          RunInvariant(s, acts);
          InvariantIsSafe(Run(s, acts));
        }
      }
    }
  }

  /** In every such interleaving the reserved counter is exactly what is still held, and a matched release never
      finds too little reserved. */
  lemma ReservationsSafe(s: State, acts: seq<Action>)
    requires Initial(s) && Calm(s, acts)
    ensures var e := Run(s, acts);
            && 0 <= e.mem.reserved && e.mem.locked + e.mem.reserved <= e.mem.balance
            && e.mem.reserved == s.base + HeldSum(e.threads)
            && forall i :: 0 <= i < |e.threads| ==> !e.threads[i].pc.ReleaseRefused?
  {
    hide HeldSum, WriteSum, Rank, Initial, Calm;
    RunInvariant(s, acts);
    BaseKept(s, acts);
    var e := Run(s, acts);
    forall i | 0 <= i < |e.threads| ensures !e.threads[i].pc.ReleaseRefused? {
      assert ThreadOk(e.mem, e.threads[i]);
    }
  }

  lemma {:induction false} BaseKept(s: State, acts: seq<Action>)
    ensures Run(s, acts).base == s.base
  {
    hide Move;
    if acts != [] {
      BaseKept(s, acts[..|acts| - 1]);
    }
  }

  /** In every interleaving, overdrawn ones included, a release is refused exactly when less than its amount is reserved
      at its load, and the swap of one that goes through takes exactly its amount and leaves no negative number. */
  lemma ReleasesNeverUndercut(s: State, acts: seq<Action>, i: nat)
    requires Initial(s) && i < |s.threads| == |Run(s, acts).threads|
    ensures var e := Run(s, acts);
            var t := e.threads[i];
            && (t.pc.Held? ==> (LoadForRelease(e.mem, t).pc.ReleaseRefused? <==> e.mem.reserved < t.amount))
            && (t.pc.Releasing? && e.mem.reserved == t.pc.r ==>
                  0 <= TryRelease(e.mem, t).0.reserved == e.mem.reserved - t.amount)
  {
    hide Initial, Run, WriteSum, Wrap64, Rank;
    RunCounted(s, acts);
    assert ThreadCounts(Run(s, acts).mem, Run(s, acts).threads[i]);
  }

  // ---- Atomicity ----

  datatype Phase = Waiting | Taken | Ended | TurnedDown

  /** The same position with indivisible operations. */
  datatype Atomic = Atomic(balance: int, locked: int, reserved: int, amounts: seq<int>, phases: seq<Phase>)

  /** A refusal names the credits that have landed since it loaded the balance. */
  datatype Operation = Nothing | Take(i: nat) | Give(i: nat) | Retake(i: nat) | TurnDown(i: nat,
    missed: int) | Deposit(amount: int)

  predicate Enabled(x: Atomic, op: Operation) {
    match op
    case Nothing => true
    case Take(i) =>
      && i < |x.phases| == |x.amounts| && x.phases[i].Waiting?
      && x.amounts[i] <= x.balance - x.locked - x.reserved
    case Give(i) => i < |x.phases| == |x.amounts| && x.phases[i].Taken? && x.amounts[i] <= x.reserved
    case Retake(i) =>
      && i < |x.phases| == |x.amounts| && x.phases[i].Ended?
      && x.amounts[i] <= x.balance - x.locked - x.reserved
    case TurnDown(i, missed) =>
      && i < |x.phases| == |x.amounts| && x.phases[i].Waiting?
      && 0 <= missed && x.balance - missed - x.locked - x.reserved < x.amounts[i]
    case Deposit(amount) => 0 <= amount
  }

  function Effect(x: Atomic, op: Operation): Atomic
    requires Enabled(x, op)
  {
    match op
    case Nothing => x
    case Take(i) => x.(reserved := x.reserved + x.amounts[i], phases := x.phases[i := Taken])
    case Give(i) => x.(reserved := x.reserved - x.amounts[i], phases := x.phases[i := Ended])
    case Retake(i) => x.(reserved := x.reserved + x.amounts[i], phases := x.phases[i := Taken])
    case TurnDown(i, _) => x.(phases := x.phases[i := TurnedDown])
    case Deposit(amount) => x.(balance := x.balance + amount)
  }

  function PhaseOf(pc: Pc): Phase {
    if Holds(pc) then Taken
    else if pc.ReleaseLogging? || pc.Released? || pc.LogRefused? then Ended
    else if pc.Refused? then TurnedDown
    else Waiting
  }

  function Abstract(s: State): Atomic {
    Atomic(s.mem.balance, s.mem.locked, s.mem.reserved,
           seq(|s.threads|, i requires 0 <= i < |s.threads| => s.threads[i].amount),
           seq(|s.threads|, i requires 0 <= i < |s.threads| => PhaseOf(s.threads[i].pc)))
  }

  /** The operation a step performs: something happens only at a successful swap, at a rollback and at a
      credit. */
  function Label(s: State, a: Action): Operation {
    match a
    case Advance(i, walOk) =>
      if i < |s.threads| then
        var t := s.threads[i];
        if t.pc.Ready? && s.mem.reserved == t.pc.r then Take(i)
        else if (t.pc.Logging? && !walOk) || (t.pc.Releasing? && s.mem.reserved == t.pc.r) then Give(i)
        else if t.pc.ReleaseLogging? && !walOk then Retake(i)
        else if t.pc.GotLocked? && LoadReserved(s.mem, t).pc.Refused? then TurnDown(i, s.mem.balance - t.pc.b)
        else Nothing
      else Nothing
    case Credit(amount) => if 0 <= amount && s.mem.balance + amount < TWO_63 then Deposit(amount) else Nothing
  }

  /** Thread-level form: the memory after a step, and the phase. */
  lemma MovePhase(m: Shared, t: Thread, walOk: bool)
    requires InRange(m) && Safe(m) && ThreadCounts(m, t) && ThreadOk(m, t) && Holding(t) <= m.reserved
    ensures var r := Move(m, t, walOk);
            && r.1.amount == t.amount && r.0.balance == m.balance && r.0.locked == m.locked
            && (t.pc.Ready? && m.reserved == t.pc.r ==>
                  PhaseOf(r.1.pc) == Taken && r.0.reserved == m.reserved + t.amount
                    && t.amount <= m.balance - m.locked - m.reserved)
            && ((t.pc.Logging? && !walOk) || (t.pc.Releasing? && m.reserved == t.pc.r) ==>
                  PhaseOf(t.pc) == Taken && PhaseOf(r.1.pc) == Ended && r.0.reserved == m.reserved - t.amount
                    && t.amount <= m.reserved)
            && (t.pc.ReleaseLogging? && !walOk && !Overdrawing(m, t, walOk) ==>
                  PhaseOf(t.pc) == Ended && PhaseOf(r.1.pc) == Taken && r.0.reserved == m.reserved + t.amount)
  {
    hide Wrap64, Rank;
  }

  lemma MoveQuiet(m: Shared, t: Thread, walOk: bool)
    requires InRange(m) && Safe(m) && ThreadCounts(m, t) && ThreadOk(m, t) && Holding(t) <= m.reserved
    requires !(t.pc.Ready? && m.reserved == t.pc.r) && !(t.pc.ReleaseLogging? && !walOk)
    requires !(t.pc.Logging? && !walOk) && !(t.pc.Releasing? && m.reserved == t.pc.r)
    ensures var r := Move(m, t, walOk);
            && r.0 == m
            && PhaseOf(r.1.pc) == (if t.pc.GotLocked? && LoadReserved(m, t).pc.Refused? then TurnedDown
              else PhaseOf(t.pc))
    ensures t.pc.GotLocked? ==> t.pc.b <= m.balance
    ensures t.pc.GotLocked? ==> (LoadReserved(m, t).pc.Refused? <==> t.pc.b - m.locked - m.reserved < t.amount)
  {
    hide Wrap64, Rank;
  }

  lemma AbstractUpdate(s: State, m: Shared, i: nat, t: Thread)
    requires i < |s.threads| && t.amount == s.threads[i].amount
    ensures Abstract(s.(mem := m, threads := s.threads[i := t])) ==
            Abstract(s).(balance := m.balance, locked := m.locked, reserved := m.reserved,
              phases := Abstract(s).phases[i := PhaseOf(t.pc)])
  {
    var s' := s.(mem := m, threads := s.threads[i := t]);
    assert Abstract(s').amounts == Abstract(s).amounts;
    assert Abstract(s').phases == Abstract(s).phases[i := PhaseOf(t.pc)];
  }

  /** Every step that does not overdraw is one indivisible operation, with its condition true of the counters as
      they are at that moment, or none; a step that does is the one operation whose condition fails. The condition
      of a refusal leaves out the credits it missed. */
  lemma StepRefines(s: State, a: Action)
    requires Invariant(s)
    ensures Enabled(Abstract(s), Label(s, a)) <==> !Overdraws(s, a)
    ensures !Overdraws(s, a) ==> Abstract(Next(s, a)) == Effect(Abstract(s), Label(s, a))
  {
    hide Move, Safe, ThreadOk, ThreadCounts, HeldSum, WriteSum, Holding, LoadReserved;
    match a
    case Credit(amount) =>
      assert Abstract(Next(s, a)).amounts == Abstract(s).amounts;
      assert Abstract(Next(s, a)).phases == Abstract(s).phases;
    case Advance(i, walOk) =>
      if i < |s.threads| {
        var t, r := s.threads[i], Move(s.mem, s.threads[i], walOk);
        Amounts(s);
        HoldsOwn(s.threads, i);
        MovePhase(s.mem, t, walOk);
        AbstractUpdate(s, r.0, i, r.1);
        if Label(s, a).Nothing? || Label(s, a).TurnDown? {
          MoveQuiet(s.mem, t, walOk);
        }
        assert Abstract(s).phases[i := Abstract(s).phases[i]] == Abstract(s).phases;
      }
  }

  function Labels(s: State, acts: seq<Action>): seq<Operation> {
    if acts == [] then [] else Labels(s, acts[..|acts| - 1]) + [Label(Run(s, acts[..|acts| - 1]), acts[|acts| - 1])]
  }

  /** The operations one after the other; one that is not enabled is skipped. */
  function Serial(x: Atomic, ops: seq<Operation>): Atomic {
    if ops == [] then x
    else
      var before, op := Serial(x, ops[..|ops| - 1]), ops[|ops| - 1];
      if Enabled(before, op) then Effect(before, op) else before
  }

  /** None of them is skipped. */
  predicate AllEnabled(x: Atomic, ops: seq<Operation>) {
    ops != [] ==> AllEnabled(x, ops[..|ops| - 1]) && Enabled(Serial(x, ops[..|ops| - 1]), ops[|ops| - 1])
  }

  lemma LabelsLast(s: State, acts: seq<Action>)
    requires acts != []
    ensures |Labels(s, acts)| == |acts|
    ensures Labels(s, acts)[..|acts| - 1] == Labels(s, acts[..|acts| - 1])
    ensures Labels(s, acts)[|acts| - 1] == Label(Run(s, acts[..|acts| - 1]), acts[|acts| - 1])
  {
    hide Label, Run;
    LabelsLength(s, acts[..|acts| - 1]);
  }

  /** An interleaving is a serial execution of indivisible operations, in the order of the swaps, exactly when no
      rollback in it overdraws. */
  lemma {:induction false} RunRefines(s: State, acts: seq<Action>)
    requires Initial(s)
    ensures AllEnabled(Abstract(s), Labels(s, acts)) <==> Calm(s, acts)
    ensures Calm(s, acts) ==> Serial(Abstract(s), Labels(s, acts)) == Abstract(Run(s, acts))
  {
    hide Abstract, Label, Labels, Next, Initial, Enabled, Effect, Invariant, Overdraws;
    if acts == [] {
      NoLabels(s);
    } else {
      var init, last := acts[..|acts| - 1], acts[|acts| - 1];
      RunRefines(s, init);
      LabelsLast(s, acts);
      if Calm(s, init) {
        RunInvariant(s, init);
        StepRefines(Run(s, init), last);
      }
    }
  }

  lemma NoLabels(s: State)
    ensures Labels(s, []) == []
  {
  }

  lemma {:induction false} LabelsLength(s: State, acts: seq<Action>)
    ensures |Labels(s, acts)| == |acts|
  {
    if acts != [] {
      LabelsLength(s, acts[..|acts| - 1]);
    }
  }

  // ---- Retries ----

  /** A swap fails only if somebody else wrote since the load. */
  lemma FailureMeansWrite(s: State, acts: seq<Action>, i: nat)
    requires Initial(s) && i < |s.threads|
    ensures |Run(s, acts).threads| == |s.threads|
    ensures var e := Run(s, acts);
            var pc := e.threads[i].pc;
            (pc.Ready? || pc.Releasing?) && e.mem.reserved != pc.r ==> pc.seen < e.mem.writes
  {
    hide Initial, Run, WriteSum, Rank;
    RunCounted(s, acts);
    assert ThreadCounts(Run(s, acts).mem, Run(s, acts).threads[i]);
  }

  function FailureSum(ts: seq<Thread>): nat {
    if ts == [] then 0 else FailureSum(ts[..|ts| - 1]) + ts[|ts| - 1].failures
  }

  lemma {:induction false} FailuresBounded(ts: seq<Thread>, w: nat)
    requires forall i :: 0 <= i < |ts| ==> ts[i].failures <= w
    ensures FailureSum(ts) <= |ts| * w
  {
    if ts != [] {
      FailuresBounded(ts[..|ts| - 1], w);
    }
  }

  /** Each write costs a goroutine at most one failed swap: all retries together are at most goroutines times
      writes, and there are at most three writes per goroutine. */
  lemma RetriesBounded(s: State, acts: seq<Action>)
    requires Initial(s)
    ensures var e := Run(s, acts);
            && (forall i :: 0 <= i < |e.threads| ==> e.threads[i].failures <= e.mem.writes)
            && FailureSum(e.threads) <= |s.threads| * e.mem.writes
            && e.mem.writes <= 3 * |s.threads|
  {
    hide Initial, Run, WriteSum, Rank, LoadsTrue;
    RunCounted(s, acts);
    var e := Run(s, acts);
    forall i | 0 <= i < |e.threads| ensures e.threads[i].failures <= e.mem.writes {
      assert ThreadCounts(e.mem, e.threads[i]);
    }
    FailuresBounded(e.threads, e.mem.writes);
    WritesBounded(e.threads);
  }

  predicate Final(pc: Pc) {
    pc.Released? || pc.Refused? || pc.LogRefused? || pc.ReleaseRefused? || pc.ReleaseUndone?
  }

  /** How often a goroutine was scheduled. */
  function Turns(acts: seq<Action>, i: nat): nat {
    if acts == [] then 0
    else Turns(acts[..|acts| - 1], i) + (if acts[|acts| - 1].Advance? && acts[|acts| - 1].thread == i then 1 else 0)
  }

  lemma {:induction false} TurnsAreSteps(s: State, acts: seq<Action>, i: nat)
    requires Initial(s) && i < |s.threads|
    ensures |Run(s, acts).threads| == |s.threads|
    ensures var t := Run(s, acts).threads[i]; Final(t.pc) || t.steps == Turns(acts, i)
  {
    hide Wrap64;
    if acts != [] {
      TurnsAreSteps(s, acts[..|acts| - 1], i);
    }
  }

  /** No goroutine retries for ever: whatever the others do, one that is scheduled 12n + 8 times has
      finished, n being the number of goroutines. */
  lemma EveryoneFinishes(s: State, acts: seq<Action>, i: nat)
    requires Initial(s) && i < |s.threads| && Turns(acts, i) >= 12 * |s.threads| + 8
    ensures |Run(s, acts).threads| == |s.threads| && Final(Run(s, acts).threads[i].pc)
  {
    hide Initial, Run, WriteSum, LoadsTrue, Turns;
    RunCounted(s, acts);
    RetriesBounded(s, acts);
    TurnsAreSteps(s, acts, i);
    assert ThreadCounts(Run(s, acts).mem, Run(s, acts).threads[i]);
  }

  // ---- Refusals ----

  predicate Enough(m: Shared, amount: int) {
    amount <= m.balance - m.locked - m.reserved
  }

  /** What a goroutine about to load reserved would answer for an amount. */
  predicate WouldRefuse(m: Shared, t: Thread, amount: int)
    requires t.pc.GotLocked?
  {
    LoadReserved(m, t.(amount := amount)).pc.Refused?
  }

  /** The answer is right, for every amount, about the moment of the last load exactly when no credit landed
      since the first one and what is available is an int64, which it is unless reserved has wrapped around. */
  lemma RefusalExactIff(s: State, acts: seq<Action>, i: nat)
    requires Initial(s) && i < |s.threads| == |Run(s, acts).threads| && Run(s, acts).threads[i].pc.GotLocked?
    ensures var e := Run(s, acts);
            (forall a :: WouldRefuse(e.mem, e.threads[i], a) <==> !Enough(e.mem, a)) <==>
              e.threads[i].pc.b == e.mem.balance && e.mem.balance - e.mem.locked - e.mem.reserved < TWO_63
  {
    hide Initial, Run, WriteSum, Wrap64, Rank;
    RunCounted(s, acts);
    var e := Run(s, acts);
    var t := e.threads[i];
    assert ThreadCounts(e.mem, t);
    if t.pc.b - e.mem.locked - e.mem.reserved >= TWO_63 {
      WrapsNegative(t.pc.b - e.mem.locked - e.mem.reserved);
      assert WouldRefuse(e.mem, t, 0) && Enough(e.mem, 0);
    } else if t.pc.b < e.mem.balance {
      var a := e.mem.balance - e.mem.locked - e.mem.reserved;
      assert WouldRefuse(e.mem, t, a) && Enough(e.mem, a);
    }
  }

  lemma WrapsNegative(x: int)
    requires TWO_63 <= x < TWO_64
    ensures Wrap64(x) < 0
  {
  }

  lemma RunStep(s: State, acts: seq<Action>, a: Action)
    ensures Run(s, acts + [a]) == Next(Run(s, acts), a)
  {
    assert (acts + [a])[..|acts|] == acts;
  }

  /** Otherwise it can be wrong about every moment: a credit between the two loads, taken by another
      reservation, makes funds look insufficient although they never were. */
  lemma RefusalCanBeSpurious() returns (s: State, acts: seq<Action>)
    ensures Initial(s) && |s.threads| == |Run(s, acts).threads| == 2 && Run(s, acts).threads[0].pc.Refused?
    ensures forall n :: 0 <= n <= |acts| ==> Enough(Run(s, acts[..n]).mem, s.threads[0].amount)
  {
    hide Run;
    var m0 := Shared(10, 0, 0, 0);
    s := State(m0, 0, [Thread(5, Idle, 0, 0), Thread(10, Idle, 0, 0)]);
    var go0, go1 := Advance(0, true), Advance(1, true);
    acts := [go0, go0, Credit(10), go1, go1, go1, go1, go0];
    var s1 := StepTo(s, acts, 0, s);
    var s2 := StepTo(s, acts, 1, s1);
    var s3 := StepTo(s, acts, 2, s2);
    var s4 := StepTo(s, acts, 3, s3);
    var s5 := StepTo(s, acts, 4, s4);
    var s6 := StepTo(s, acts, 5, s5);
    var s7 := StepTo(s, acts, 6, s6);
    var s8 := StepTo(s, acts, 7, s7);
    assert acts[..8] == acts;
    forall n | 0 <= n <= 8 ensures Enough(Run(s, acts[..n]).mem, 5) {
      assert n == 0 || n == 1 || n == 2 || n == 3 || n == 4 || n == 5 || n == 6 || n == 7 || n == 8;
    }
  }

  lemma StepTo(s: State, acts: seq<Action>, n: nat, before: State) returns (after: State)
    requires n < |acts| && (n == 0 ==> before == s) && (n > 0 ==> before == Run(s, acts[..n]))
    ensures before == Run(s, acts[..n]) && after == Next(before, acts[n]) == Run(s, acts[..n + 1])
  {
    assert acts[..n + 1] == acts[..n] + [acts[n]];
    RunStep(s, acts[..n], acts[n]);
    after := Next(before, acts[n]);
  }

  const GO0 := Advance(0, true)
  const GO1 := Advance(1, true)

  /** Two goroutines and ten units for both. */
  function Pair(reserved: int, writes: nat, pc0: Pc, steps0: nat, pc1: Pc, steps1: nat): State {
    State(Shared(10, 0, reserved, writes), 0, [Thread(10, pc0, 0, steps0), Thread(10, pc1, 0, steps1)])
  }

  lemma FirstTakes()
    ensures Next(Next(Next(Next(Pair(0, 0, Idle, 0, Idle, 0), GO0), GO0), GO0), GO0)
            == Pair(10, 1, Logging, 4, Idle, 0)
  {
    assert Next(Pair(0, 0, Idle, 0, Idle, 0), GO0) == Pair(0, 0, GotBalance(10), 1, Idle, 0);
    assert Next(Pair(0, 0, GotBalance(10), 1, Idle, 0), GO0) == Pair(0, 0, GotLocked(10, 0), 2, Idle, 0);
    assert Next(Pair(0, 0, GotLocked(10, 0), 2, Idle, 0), GO0) == Pair(0, 0, Ready(10, 0, 0, 0), 3, Idle, 0);
  }

  lemma FirstFrees()
    ensures Next(Next(Next(Pair(10, 1, Logging, 4, Idle, 0), GO0), GO0), GO0)
            == Pair(0, 2, ReleaseLogging, 7, Idle, 0)
  {
    assert Next(Pair(10, 1, Logging, 4, Idle, 0), GO0) == Pair(10, 1, Held, 5, Idle, 0);
    assert Next(Pair(10, 1, Held, 5, Idle, 0), GO0) == Pair(10, 1, Releasing(10, 1), 6, Idle, 0);
  }

  lemma SecondTakes()
    ensures Next(Next(Next(Next(Pair(0, 2, ReleaseLogging, 7, Idle, 0), GO1), GO1), GO1), GO1)
            == Pair(10, 3, ReleaseLogging, 7, Logging, 4)
  {
    var pc := ReleaseLogging;
    assert Next(Pair(0, 2, pc, 7, Idle, 0), GO1) == Pair(0, 2, pc, 7, GotBalance(10), 1);
    assert Next(Pair(0, 2, pc, 7, GotBalance(10), 1), GO1) == Pair(0, 2, pc, 7, GotLocked(10, 0), 2);
    assert Next(Pair(0, 2, pc, 7, GotLocked(10, 0), 2), GO1) == Pair(0, 2, pc, 7, Ready(10, 0, 0, 2), 3);
  }

  /** A step that logs successfully does not overdraw. */
  lemma GoesOn(s: State, acts: seq<Action>, i: nat)
    requires Calm(s, acts)
    ensures Run(s, acts + [Advance(i, true)]) == Next(Run(s, acts), Advance(i, true))
    ensures Calm(s, acts + [Advance(i, true)])
  {
    hide Run, Next;
    RunStep(s, acts, Advance(i, true));
    assert (acts + [Advance(i, true)])[..|acts|] == acts;
  }

  /** Several steps of one goroutine. */
  lemma {:induction false} GoesOnTimes(s: State, acts: seq<Action>, i: nat, k: nat) returns (all: seq<Action>)
    requires Calm(s, acts)
    ensures Calm(s, all) && Run(s, all) == Times(Run(s, acts), i, k)
  {
    hide Run, Next, Calm;
    all := acts;
    if k > 0 {
      all := GoesOnTimes(s, acts, i, k - 1);
      GoesOn(s, all, i);
      all := all + [Advance(i, true)];
    }
  }

  function Times(s: State, i: nat, k: nat): State {
    if k == 0 then s else Next(Times(s, i, k - 1), Advance(i, true))
  }

  lemma TimesFour(s: State, i: nat)
    ensures var go := Advance(i, true);
            Times(s, i, 3) == Next(Next(Next(s, go), go), go) && Times(s, i, 4) == Next(Times(s, i, 3), go)
  {
    hide Next;
    assert Times(s, i, 1) == Next(s, Advance(i, true));
  }

  lemma RunNothing(s: State)
    ensures Run(s, []) == s && Calm(s, [])
  {
  }

  /** An unlogged release does overdraw: it frees ten units, another reservation takes them, and the rollback adds
      them again, so that twice the balance is reserved. */
  lemma RollbackCanOverdraw() returns (s: State, acts: seq<Action>)
    ensures Initial(s) && s.mem.balance == 10
    ensures Calm(s, acts) && Overdraws(Run(s, acts), Advance(0, false))
    ensures Run(s, acts + [Advance(0, false)]).mem.reserved == 20
  {
    hide Run, Calm, Next, Times;
    s := Pair(0, 0, Idle, 0, Idle, 0);
    RunNothing(s);
    acts := GoesOnTimes(s, [], 0, 4);
    TimesFour(s, 0);
    FirstTakes();
    acts := GoesOnTimes(s, acts, 0, 3);
    TimesFour(Pair(10, 1, Logging, 4, Idle, 0), 0);
    FirstFrees();
    acts := GoesOnTimes(s, acts, 1, 4);
    TimesFour(Pair(0, 2, ReleaseLogging, 7, Idle, 0), 1);
    SecondTakes();
    RunStep(s, acts, Advance(0, false));
    LastRollback();
  }

  lemma LastRollback()
    ensures Next(Pair(10, 3, ReleaseLogging, 7, Logging, 4), Advance(0, false)).mem.reserved == 20
  {
  }
}
