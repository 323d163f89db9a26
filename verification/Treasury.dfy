/** The treasury manager called by one goroutine at a time, with every pattern of write-ahead-log, queue and
    store failures (treasury/manager.go). */
module Treasury {
  import opened Idempotency
  import opened Micro
  import opened Words

  datatype PositionKey = PositionKey(tenant: nat, currency: string, location: string)

  /** The three int64 counters of a position. */
  datatype Counters = Counters(balance: int, locked: int, reserved: int)

  /** A position row in the store. */
  datatype Row = Row(balance: real, locked: real)

  datatype Op = Reserve | Release | Commit | Consume | Credit | Debit

  datatype Call = Call(op: Op, position: PositionKey, amount: real, reference: nat, now: int)

  /** A write-ahead-log record. */
  datatype WalOp = WalOp(op: Op, position: PositionKey, amount: real, reference: nat)

  datatype LogResult = Queued | WalRefused | QueueFull

  /** What the outside world does to one call; threshold is the sync-flush threshold of the currency, zero
      when there is none, and lag the time between the two clock readings of the idempotency map. */
  datatype Environment = Environment(log: LogResult, storeOk: bool, threshold: real, lag: nat)

  datatype Outcome =
    | Done
    | Duplicate
    | NotPositive
    | OutOfRange
    | Rejecting
    | NoPosition
    | Insufficient
    | LogFailed
    | FlushFailed
    | Panicked
  {
    /** Reported to the caller as success. */
    predicate Success() {
      Done? || Duplicate?
    }
  }

  const MAX_FLUSH_FAILURES: nat := 3

  datatype View = View(positions: map<PositionKey, Counters>, dirty: set<PositionKey>, stored: map<PositionKey, Row>,
                       keys: Entries, wal: seq<WalOp>, failures: nat, replaying: bool)

  // ---- Specification of one call ----

  function OpName(op: Op): string {
    match op
    case Reserve => "reserve"
    case Release => "release"
    case Commit => "commit"
    case Consume => "consume"
    case Credit => "credit"
    case Debit => "debit"
  }

  function KeyOf(c: Call): Key {
    Key(c.reference, OpName(c.op))
  }

  /** balance - locked - reserved in int64 arithmetic. */
  function Available(c: Counters): int {
    Wrap64(Wrap64(c.balance - c.locked) - c.reserved)
  }

  predicate Guard(op: Op, c: Counters, a: int) {
    match op
    case Reserve => Available(c) >= a
    case Debit => Available(c) >= a
    case Release => c.reserved >= a
    case Commit => c.reserved >= a
    case Consume => c.reserved >= a && c.balance >= a
    case Credit => true
  }

  function Applied(op: Op, c: Counters, a: int): Counters {
    match op
    case Reserve => c.(reserved := Wrap64(c.reserved + a))
    case Release => c.(reserved := Wrap64(c.reserved - a))
    case Commit => c.(reserved := Wrap64(c.reserved - a), locked := Wrap64(c.locked + a))
    case Consume => c.(reserved := Wrap64(c.reserved - a), balance := Wrap64(c.balance - a))
    case Credit => c.(balance := Wrap64(c.balance + a))
    case Debit => c.(balance := Wrap64(c.balance - a))
  }

  /** Whether a call that got this far flushes its position synchronously. */
  predicate Flushes(op: Op, amount: real, env: Environment) {
    !op.Release? && !op.Commit? && env.threshold != 0.0 && amount >= env.threshold
  }

  /** The outcome of the checks before any counter is read; Done if they all pass. */
  function Entry(v: View, c: Call): (o: Outcome)
    ensures o.Done? ==> c.amount > 0.0 && c.position in v.positions && KeyOf(c) !in v.keys
    ensures o.Done? ==> c.op.Commit? || InRange(c.amount)
    ensures !o.LogFailed? && !o.FlushFailed?
  {
    if c.amount <= 0.0 then NotPositive
    else if !c.op.Commit? && !InRange(c.amount) then OutOfRange
    else if (c.op.Reserve? || c.op.Credit? || c.op.Debit?) && v.failures >= MAX_FLUSH_FAILURES then Rejecting
    else if KeyOf(c) in v.keys then Duplicate
    else if c.position !in v.positions then NoPosition
    else Done
  }

  /** The outcome of logging and flushing. A failed synchronous flush refuses a reserve or a credit; after a
      debit or a consume it is only reported. */
  function Recorded(replaying: bool, c: Call, env: Environment): (o: Outcome)
    ensures o.Done? || o.LogFailed? || o.FlushFailed?
  {
    if !replaying && !env.log.Queued? then LogFailed
    else if (c.op.Reserve? || c.op.Credit?) && Flushes(c.op, c.amount, env) && !env.storeOk then FlushFailed
    else Done
  }

  /** The outcome of a call. The order of the checks is the source's: CommitReservation has no range check
      and so panics where the others refuse, with its idempotency key already taken. */
  function Decide(v: View, c: Call, env: Environment): Outcome {
    if !Entry(v, c).Done? then Entry(v, c)
    else if !InRange(c.amount) then Panicked
    else if !Guard(c.op, v.positions[c.position], ToMicro(c.amount)) then Insufficient
    else Recorded(v.replaying, c, env)
  }

  /** A success takes the idempotency key; an error leaves it as it was, which is absent. */
  ghost predicate KeysAfter(before: Entries, after: Entries, key: Key, now: int, o: Outcome) {
    match o
    case Done => Acquired(before, after, key, now)
    case Panicked => Acquired(before, after, key, now)
    case NoPosition => Pruned(before, after, now - FORCED_MAX_AGE)
    case Insufficient => Pruned(before, after, now - FORCED_MAX_AGE)
    case LogFailed => Pruned(before, after, now - FORCED_MAX_AGE)
    case FlushFailed => Pruned(before, after, now - FORCED_MAX_AGE)
    case _ => after == before
  }

  function RowOf(c: Counters): Row {
    Row(FromMicro(c.balance), FromMicro(c.locked))
  }

  /** Only a completed call moves counters. */
  function PositionsAfter(positions: map<PositionKey, Counters>, c: Call, o: Outcome): map<PositionKey, Counters> {
    if o.Done? && c.position in positions
    then positions[c.position := Applied(c.op, positions[c.position], ToMicro(c.amount))]
    else positions
  }

  /** The log keeps the record of a call that failed after it was written. */
  function WalAfter(wal: seq<WalOp>, replaying: bool, c: Call, env: Environment, o: Outcome): seq<WalOp> {
    if !replaying && (o.Done? || o.FlushFailed? || (o.LogFailed? && env.log.QueueFull?))
    then wal + [WalOp(c.op, c.position, c.amount, c.reference)]
    else wal
  }

  predicate Stores(c: Call, env: Environment, o: Outcome) {
    o.Done? && Flushes(c.op, c.amount, env) && env.storeOk
  }

  function StoredAfter(stored: map<PositionKey, Row>, positions: map<PositionKey, Counters>, c: Call, env: Environment,
      o: Outcome): (r: map<PositionKey, Row>)
    ensures !o.Done? ==> r == stored
  {
    if Stores(c, env, o) && c.position in positions then stored[c.position := RowOf(positions[c.position])] else stored
  }

  function DirtyAfter(dirty: set<PositionKey>, c: Call, env: Environment, o: Outcome): set<PositionKey> {
    if Stores(c, env, o) then dirty - {c.position}
    else if o.Done? || o.LogFailed? || o.FlushFailed? then dirty + {c.position}
    else dirty
  }

  ghost predicate Performed(v: View, c: Call, env: Environment, o: Outcome, w: View) {
    && o == Decide(v, c, env)
    && KeysAfter(v.keys, w.keys, KeyOf(c), c.now, o)
    && w.positions == PositionsAfter(v.positions, c, o)
    && w.wal == WalAfter(v.wal, v.replaying, c, env, o)
    && w.stored == StoredAfter(v.stored, w.positions, c, env, o)
    && w.dirty == DirtyAfter(v.dirty, c, env, o)
    && w.failures == v.failures && w.replaying == v.replaying
  }

  /** A call refused before its record leaves log, store and dirty set alone. */
  lemma NotRecorded(v: View, c: Call, env: Environment, o: Outcome)
    requires !o.Done? && !o.LogFailed? && !o.FlushFailed?
    ensures WalAfter(v.wal, v.replaying, c, env, o) == v.wal
    ensures StoredAfter(v.stored, v.positions, c, env, o) == v.stored
    ensures DirtyAfter(v.dirty, c, env, o) == v.dirty
  {
  }

  lemma RolledBack(before: Entries, middle: Entries, key: Key, now: int)
    requires Acquired(before, middle, key, now)
    ensures Pruned(before, middle - {key}, now - FORCED_MAX_AGE)
  {
  }

  ghost predicate CountersFit(positions: map<PositionKey, Counters>) {
    forall k :: k in positions ==>
      Int64(positions[k].balance) && Int64(positions[k].locked) && Int64(positions[k].reserved)
  }

  lemma AppliedFits(positions: map<PositionKey, Counters>, k: PositionKey, op: Op, a: int)
    requires CountersFit(positions) && k in positions
    ensures CountersFit(positions[k := Applied(op, positions[k], a)])
  {
    hide Wrap64;
  }

  /** What a mutator does to the counters when it has to give up after applying its change. */
  function Undone(op: Op, c: Counters, a: int): Counters {
    match op
    case Reserve => c.(reserved := Wrap64(c.reserved - a))
    case Release => c.(reserved := Wrap64(c.reserved + a))
    case Commit => c.(reserved := Wrap64(c.reserved + a), locked := Wrap64(c.locked - a))
    case Consume => c.(reserved := Wrap64(c.reserved + a), balance := Wrap64(c.balance + a))
    case Credit => c.(balance := Wrap64(c.balance - a))
    case Debit => c.(balance := Wrap64(c.balance + a))
  }

  /** Rolling back restores the counters, wrap-around included. */
  lemma UndoRestores(positions: map<PositionKey, Counters>, k: PositionKey, op: Op, a: int)
    requires CountersFit(positions) && k in positions
    ensures CountersFit(positions[k := Applied(op, positions[k], a)])
    ensures var d := Applied(op, positions[k], a); positions[k := d][k := Undone(op, d, a)] == positions
  {
    hide Wrap64;
    WrapUndo(positions[k].reserved, a);
    WrapUndo(positions[k].locked, a);
    WrapUndo(positions[k].balance, a);
    AppliedFits(positions, k, op, a);
  }

  lemma CreditIs(c: Counters, a: int)
    ensures Applied(Credit, c, a) == c.(balance := Wrap64(c.balance + a)) && Guard(Credit, c, a)
  {
  }

  // ---- Specification of the other operations ----

  /** The escape hatch accepts any balance that covers what is locked and reserved. */
  ghost predicate BalanceSet(v: View, k: PositionKey, value: real, ok: bool, w: View) {
    && (ok <==>
          && InRange(value) && k in v.positions
          && ToMicro(value) >= Wrap64(v.positions[k].locked + v.positions[k].reserved))
    && w == (if ok && k in v.positions
             then v.(positions := v.positions[k := v.positions[k].(balance := ToMicro(value))], dirty := v.dirty + {k})
             else v)
  }

  /** The rows that a flush of the given positions writes. Reserved is never written. */
  function Rows(positions: map<PositionKey, Counters>, ks: set<PositionKey>): map<PositionKey, Row> {
    map k | k in ks && k in positions :: RowOf(positions[k])
  }

  lemma RowsGrow(stored: map<PositionKey, Row>, positions: map<PositionKey, Counters>, ks: set<PositionKey>,
      k: PositionKey)
    requires k in positions
    ensures (stored + Rows(positions, ks))[k := RowOf(positions[k])] == stored + Rows(positions, ks + {k})
  {
  }

  lemma NoRows(positions: map<PositionKey, Counters>, stored: map<PositionKey, Row>)
    ensures stored + Rows(positions, {}) == stored
  {
  }

  ghost predicate Flushed(v: View, failing: set<PositionKey>, w: View) {
    w == v.(stored := v.stored + Rows(v.positions, v.dirty - failing),
            dirty := v.dirty * failing,
            failures := if v.dirty == {} then v.failures else if v.dirty * failing != {} then v.failures + 1 else 0)
  }

  ghost predicate KeysCleaned(v: View, maxAge: int, now: int, later: int, w: View) {
    FlatStep(v.keys, Cleanup(maxAge, now, later), w.keys) && w == v.(keys := w.keys)
  }

  // ---- The manager ----

  class Manager {
    var positions: map<PositionKey, Counters>
    var dirty: set<PositionKey>
    var stored: map<PositionKey, Row>
    var wal: seq<WalOp>
    var failures: nat
    var replaying: bool
    const idem: IdempotencyMap

    ghost predicate Valid()
      reads this, idem
    {
      && idem.Valid()
      && CountersFit(positions)
    }

    ghost function Now(): View
      reads this, idem
      requires Valid()
    {
      View(positions, dirty, stored, idem.Contents(), wal, failures, replaying)
    }

    constructor (idem: IdempotencyMap)
      requires idem.Valid()
      ensures Valid() && this.idem == idem
      ensures Now() == View(map[], {}, map[], idem.Contents(), [], 0, false)
    {
      positions, dirty, stored, wal, failures, replaying := map[], {}, map[], [], 0, false;
      this.idem := idem;
    }

    // ---- Atomic cells ----

    method AddReserved(k: PositionKey, d: int)
      requires k in positions
      modifies `positions
      ensures positions == old(positions)[k := old(positions[k]).(reserved := Wrap64(old(positions[k]).reserved + d))]
    {
      positions := positions[k := positions[k].(reserved := Wrap64(positions[k].reserved + d))];
    }

    method AddLocked(k: PositionKey, d: int)
      requires k in positions
      modifies `positions
      ensures positions == old(positions)[k := old(positions[k]).(locked := Wrap64(old(positions[k]).locked + d))]
    {
      positions := positions[k := positions[k].(locked := Wrap64(positions[k].locked + d))];
    }

    method AddBalance(k: PositionKey, d: int)
      requires k in positions
      modifies `positions
      ensures positions == old(positions)[k := old(positions[k]).(balance := Wrap64(old(positions[k]).balance + d))]
    {
      positions := positions[k := positions[k].(balance := Wrap64(positions[k].balance + d))];
    }

    method CasReserved(k: PositionKey, expected: int, value: int) returns (swapped: bool)
      requires k in positions
      modifies `positions
      ensures swapped <==> old(positions[k]).reserved == expected
      ensures positions == if swapped then old(positions)[k := old(positions[k]).(reserved := value)]
                else old(positions)
    {
      swapped := positions[k].reserved == expected;
      if swapped {
        positions := positions[k := positions[k].(reserved := value)];
      }
    }

    method CasBalance(k: PositionKey, expected: int, value: int) returns (swapped: bool)
      requires k in positions
      modifies `positions
      ensures swapped <==> old(positions[k]).balance == expected
      ensures positions == if swapped then old(positions)[k := old(positions[k]).(balance := value)] else old(positions)
    {
      swapped := positions[k].balance == expected;
      if swapped {
        positions := positions[k := positions[k].(balance := value)];
      }
    }

    method LogOp(c: Call, result: LogResult) returns (ok: bool)
      modifies `wal
      ensures ok <==> replaying || result.Queued?
      ensures wal == if replaying || result.WalRefused? then old(wal)
                     else old(wal) + [WalOp(c.op, c.position, c.amount, c.reference)]
    {
      if replaying {
        return true;
      }
      if result.WalRefused? {
        return false;
      }
      wal := wal + [WalOp(c.op, c.position, c.amount, c.reference)];
      return result.Queued?;
    }

    method SyncFlushPosition(k: PositionKey, storeOk: bool) returns (ok: bool)
      requires k in positions
      modifies `stored, `dirty
      ensures ok == storeOk
      ensures stored == if ok then old(stored)[k := RowOf(positions[k])] else old(stored)
      ensures dirty == if ok then old(dirty) - {k} else old(dirty)
    {
      if !storeOk {
        return false;
      }
      stored := stored[k := Row(FromMicro(positions[k].balance), FromMicro(positions[k].locked))];
      dirty := dirty - {k};
      return true;
    }

    // ---- Shared steps ----

    /** The checks before any counter is read. Done lets the call proceed, holding its key. */
    method Enter(c: Call, lag: nat) returns (o: Outcome)
      requires Valid()
      modifies idem
      ensures Valid()
      ensures o == Entry(old(Now()), c)
      ensures KeysAfter(old(idem.Contents()), idem.Contents(), KeyOf(c), c.now, o)
      ensures o.Done? ==> Pruned(old(idem.Contents()), idem.Contents() - {KeyOf(c)}, c.now - FORCED_MAX_AGE)
    {
      hide Acquired, Pruned, InRange, WellSharded, Flat;
      if c.amount <= 0.0 {
        return NotPositive;
      }
      if !c.op.Commit? && !InRange(c.amount) {
        return OutOfRange;
      }
      if (c.op.Reserve? || c.op.Credit? || c.op.Debit?) && failures >= MAX_FLUSH_FAILURES {
        return Rejecting;
      }
      var duplicate := idem.TryAcquire(KeyOf(c), c.now - lag, c.now);
      if duplicate {
        return Duplicate;
      }
      RolledBack(old(idem.Contents()), idem.Contents(), KeyOf(c), c.now);
      if c.position !in positions {
        idem.RollbackKey(KeyOf(c));
        return NoPosition;
      }
      return Done;
    }

    /** The CAS loop of Reserve. */
    method TakeReserved(k: PositionKey, a: int) returns (ok: bool)
      requires k in positions
      modifies `positions
      ensures ok <==> Guard(Reserve, old(positions[k]), a)
      ensures positions == if ok then old(positions)[k := Applied(Reserve, old(positions[k]), a)] else old(positions)
    {
      hide Wrap64;
      var swapped := false;
      while !swapped
        invariant positions == if swapped then old(positions)[k := Applied(Reserve, old(positions[k]), a)]
                  else old(positions)
        invariant swapped ==> Guard(Reserve, old(positions[k]), a)
        decreases !swapped
      {
        var balance := positions[k].balance;
        var locked := positions[k].locked;
        var currentReserved := positions[k].reserved;
        var available := Wrap64(Wrap64(balance - locked) - currentReserved);
        if available < a {
          return false;
        }
        swapped := CasReserved(k, currentReserved, Wrap64(currentReserved + a));
      }
      return true;
    }

    /** The CAS loop of Release. */
    method DropReserved(k: PositionKey, a: int) returns (ok: bool)
      requires k in positions
      modifies `positions
      ensures ok <==> Guard(Release, old(positions[k]), a)
      ensures positions == if ok then old(positions)[k := Applied(Release, old(positions[k]), a)] else old(positions)
    {
      hide Wrap64;
      var swapped := false;
      while !swapped
        invariant positions == if swapped then old(positions)[k := Applied(Release, old(positions[k]), a)]
                  else old(positions)
        invariant swapped ==> Guard(Release, old(positions[k]), a)
        decreases !swapped
      {
        var currentReserved := positions[k].reserved;
        if currentReserved < a {
          return false;
        }
        swapped := CasReserved(k, currentReserved, Wrap64(currentReserved - a));
      }
      return true;
    }

    /** The CAS loop of DebitBalance. */
    method TakeBalance(k: PositionKey, a: int) returns (ok: bool)
      requires k in positions
      modifies `positions
      ensures ok <==> Guard(Debit, old(positions[k]), a)
      ensures positions == if ok then old(positions)[k := Applied(Debit, old(positions[k]), a)] else old(positions)
    {
      hide Wrap64;
      var swapped := false;
      while !swapped
        invariant positions == if swapped then old(positions)[k := Applied(Debit, old(positions[k]), a)]
                  else old(positions)
        invariant swapped ==> Guard(Debit, old(positions[k]), a)
        decreases !swapped
      {
        var currentBalance := positions[k].balance;
        var locked := positions[k].locked;
        var reserved := positions[k].reserved;
        var available := Wrap64(Wrap64(currentBalance - locked) - reserved);
        if available < a {
          return false;
        }
        swapped := CasBalance(k, currentBalance, Wrap64(currentBalance - a));
      }
      return true;
    }

    /** CommitReservation's section under the position's mutex. */
    method MoveToLocked(k: PositionKey, a: int) returns (ok: bool)
      requires k in positions
      modifies `positions
      ensures ok <==> Guard(Commit, old(positions[k]), a)
      ensures positions == if ok then old(positions)[k := Applied(Commit, old(positions[k]), a)] else old(positions)
    {
      hide Wrap64;
      var currentReserved := positions[k].reserved;
      if currentReserved < a {
        return false;
      }
      positions := positions[k := positions[k].(reserved := Wrap64(currentReserved - a))];
      AddLocked(k, a);
      return true;
    }

    /** ConsumeReservation's section under the position's mutex. */
    method ConsumeReserved(k: PositionKey, a: int) returns (ok: bool)
      requires k in positions
      modifies `positions
      ensures ok <==> Guard(Consume, old(positions[k]), a)
      ensures positions == if ok then old(positions)[k := Applied(Consume, old(positions[k]), a)] else old(positions)
    {
      hide Wrap64;
      var currentReserved := positions[k].reserved;
      if currentReserved < a {
        return false;
      }
      var currentBalance := positions[k].balance;
      if currentBalance < a {
        return false;
      }
      positions := positions[k := positions[k].(reserved := Wrap64(currentReserved - a))];
      positions := positions[k := positions[k].(balance := Wrap64(currentBalance - a))];
      return true;
    }

    method UndoReserve(k: PositionKey, a: int)
      requires k in positions
      modifies `positions
      ensures positions == old(positions)[k := Undone(Reserve, old(positions[k]), a)]
    {
      hide Wrap64;
      AddReserved(k, -a);
    }

    method UndoRelease(k: PositionKey, a: int)
      requires k in positions
      modifies `positions
      ensures positions == old(positions)[k := Undone(Release, old(positions[k]), a)]
    {
      hide Wrap64;
      AddReserved(k, a);
    }

    method UndoCommit(k: PositionKey, a: int)
      requires k in positions
      modifies `positions
      ensures positions == old(positions)[k := Undone(Commit, old(positions[k]), a)]
    {
      hide Wrap64;
      AddReserved(k, a);
      AddLocked(k, -a);
    }

    method UndoConsume(k: PositionKey, a: int)
      requires k in positions
      modifies `positions
      ensures positions == old(positions)[k := Undone(Consume, old(positions[k]), a)]
    {
      hide Wrap64;
      AddReserved(k, a);
      AddBalance(k, a);
    }

    method UndoCredit(k: PositionKey, a: int)
      requires k in positions
      modifies `positions
      ensures positions == old(positions)[k := Undone(Credit, old(positions[k]), a)]
    {
      hide Wrap64;
      AddBalance(k, -a);
    }

    method UndoDebit(k: PositionKey, a: int)
      requires k in positions
      modifies `positions
      ensures positions == old(positions)[k := Undone(Debit, old(positions[k]), a)]
    {
      hide Wrap64;
      AddBalance(k, a);
    }

    /** Dirty mark, log and, for large amounts, synchronous flush. */
    method Record(c: Call, env: Environment) returns (o: Outcome)
      requires c.position in positions
      modifies `dirty, `wal, `stored
      ensures o == Recorded(replaying, c, env)
      ensures wal == WalAfter(old(wal), replaying, c, env, o)
      ensures stored == StoredAfter(old(stored), positions, c, env, o)
      ensures dirty == DirtyAfter(old(dirty), c, env, o)
    {
      hide RowOf;
      var k := c.position;
      dirty := dirty + {k};
      var logged := LogOp(c, env.log);
      if !logged {
        return LogFailed;
      }
      if Flushes(c.op, c.amount, env) {
        var flushed := SyncFlushPosition(k, env.storeOk);
        if !flushed && (c.op.Reserve? || c.op.Credit?) {
          return FlushFailed;
        }
      }
      return Done;
    }

    // ---- The six mutators ----

    method ReserveFunds(c: Call, env: Environment) returns (o: Outcome)
      requires Valid() && c.op == Reserve
      modifies this, idem
      ensures Valid()
      ensures Performed(old(Now()), c, env, o, Now())
    {
      hide Acquired, Pruned, InRange, ToMicro, WellSharded, Flat, Guard, Entry, Recorded, WalAfter, StoredAfter,
        DirtyAfter, CountersFit, Applied, Undone;
      o := Enter(c, env.lag);
      if !o.Done? {
        NotRecorded(old(Now()), c, env, o);
        return;
      }
      var k, a := c.position, ToMicro(c.amount);
      var taken := TakeReserved(k, a);
      if !taken {
        idem.RollbackKey(KeyOf(c));
        NotRecorded(old(Now()), c, env, Insufficient);
        return Insufficient;
      }
      o := Record(c, env);
      UndoRestores(old(positions), k, Reserve, a);
      if !o.Done? {
        UndoReserve(k, a);
        idem.RollbackKey(KeyOf(c));
      }
    }

    method ReleaseFunds(c: Call, env: Environment) returns (o: Outcome)
      requires Valid() && c.op == Release
      modifies this, idem
      ensures Valid()
      ensures Performed(old(Now()), c, env, o, Now())
    {
      hide Acquired, Pruned, InRange, ToMicro, WellSharded, Flat, Guard, Entry, Recorded, WalAfter, StoredAfter,
        DirtyAfter, CountersFit, Applied, Undone;
      o := Enter(c, env.lag);
      if !o.Done? {
        NotRecorded(old(Now()), c, env, o);
        return;
      }
      var k, a := c.position, ToMicro(c.amount);
      var taken := DropReserved(k, a);
      if !taken {
        idem.RollbackKey(KeyOf(c));
        NotRecorded(old(Now()), c, env, Insufficient);
        return Insufficient;
      }
      o := Record(c, env);
      UndoRestores(old(positions), k, Release, a);
      if !o.Done? {
        UndoRelease(k, a);
        idem.RollbackKey(KeyOf(c));
      }
    }

    method CommitReservation(c: Call, env: Environment) returns (o: Outcome)
      requires Valid() && c.op == Commit
      modifies this, idem
      ensures Valid()
      ensures Performed(old(Now()), c, env, o, Now())
    {
      hide Acquired, Pruned, InRange, ToMicro, WellSharded, Flat, Guard, Entry, Recorded, WalAfter, StoredAfter,
        DirtyAfter, CountersFit, Applied, Undone;
      o := Enter(c, env.lag);
      if !o.Done? {
        NotRecorded(old(Now()), c, env, o);
        return;
      }
      if !InRange(c.amount) {
        NotRecorded(old(Now()), c, env, Panicked);
        return Panicked;
      }
      var k, a := c.position, ToMicro(c.amount);
      var taken := MoveToLocked(k, a);
      if !taken {
        idem.RollbackKey(KeyOf(c));
        NotRecorded(old(Now()), c, env, Insufficient);
        return Insufficient;
      }
      o := Record(c, env);
      UndoRestores(old(positions), k, Commit, a);
      if !o.Done? {
        UndoCommit(k, a);
        idem.RollbackKey(KeyOf(c));
      }
    }

    method ConsumeReservation(c: Call, env: Environment) returns (o: Outcome)
      requires Valid() && c.op == Consume
      modifies this, idem
      ensures Valid()
      ensures Performed(old(Now()), c, env, o, Now())
    {
      hide Acquired, Pruned, InRange, ToMicro, WellSharded, Flat, Guard, Entry, Recorded, WalAfter, StoredAfter,
        DirtyAfter, CountersFit, Applied, Undone;
      o := Enter(c, env.lag);
      if !o.Done? {
        NotRecorded(old(Now()), c, env, o);
        return;
      }
      var k, a := c.position, ToMicro(c.amount);
      var taken := ConsumeReserved(k, a);
      if !taken {
        idem.RollbackKey(KeyOf(c));
        NotRecorded(old(Now()), c, env, Insufficient);
        return Insufficient;
      }
      o := Record(c, env);
      UndoRestores(old(positions), k, Consume, a);
      if !o.Done? {
        UndoConsume(k, a);
        idem.RollbackKey(KeyOf(c));
      }
    }

    method CreditBalance(c: Call, env: Environment) returns (o: Outcome)
      requires Valid() && c.op == Credit
      modifies this, idem
      ensures Valid()
      ensures Performed(old(Now()), c, env, o, Now())
    {
      hide Acquired, Pruned, InRange, ToMicro, WellSharded, Flat, Guard, Entry, Recorded, WalAfter, StoredAfter,
        DirtyAfter, CountersFit, Applied, Undone;
      o := Enter(c, env.lag);
      if !o.Done? {
        NotRecorded(old(Now()), c, env, o);
        return;
      }
      var k, a := c.position, ToMicro(c.amount);
      AddBalance(k, a);
      assert positions == old(positions)[k := Applied(Credit, old(positions[k]), a)]
        && Guard(Credit, old(positions[k]), a) by {
        CreditIs(old(positions[k]), a);
      }
      o := Record(c, env);
      UndoRestores(old(positions), k, Credit, a);
      if !o.Done? {
        UndoCredit(k, a);
        idem.RollbackKey(KeyOf(c));
      }
    }

    method DebitBalance(c: Call, env: Environment) returns (o: Outcome)
      requires Valid() && c.op == Debit
      modifies this, idem
      ensures Valid()
      ensures Performed(old(Now()), c, env, o, Now())
    {
      hide Acquired, Pruned, InRange, ToMicro, WellSharded, Flat, Guard, Entry, Recorded, WalAfter, StoredAfter,
        DirtyAfter, CountersFit, Applied, Undone;
      o := Enter(c, env.lag);
      if !o.Done? {
        NotRecorded(old(Now()), c, env, o);
        return;
      }
      var k, a := c.position, ToMicro(c.amount);
      var taken := TakeBalance(k, a);
      if !taken {
        idem.RollbackKey(KeyOf(c));
        NotRecorded(old(Now()), c, env, Insufficient);
        return Insufficient;
      }
      o := Record(c, env);
      UndoRestores(old(positions), k, Debit, a);
      if !o.Done? {
        UndoDebit(k, a);
        idem.RollbackKey(KeyOf(c));
      }
    }

    // ---- Administration and flushing ----

    method UpdateBalance(k: PositionKey, newBalance: real) returns (ok: bool)
      requires Valid()
      modifies `positions, `dirty
      ensures Valid()
      ensures BalanceSet(old(Now()), k, newBalance, ok, Now())
    {
      hide WellSharded, Flat;
      if !InRange(newBalance) {
        return false;
      }
      if k !in positions {
        return false;
      }
      var committed := Wrap64(positions[k].locked + positions[k].reserved);
      if ToMicro(newBalance) < committed {
        return false;
      }
      positions := positions[k := positions[k].(balance := ToMicro(newBalance))];
      dirty := dirty + {k};
      return true;
    }

    /** Position by position: a failed write is marked dirty again. */
    method FlushIndividual(drained: set<PositionKey>, failing: set<PositionKey>) returns (hadError: bool)
      requires drained <= positions.Keys
      modifies `dirty, `stored
      ensures hadError <==> drained * failing != {}
      ensures dirty == old(dirty) + drained * failing
      ensures stored == old(stored) + Rows(positions, drained - failing)
    {
      hide RowOf;
      var todo := drained;
      hadError := false;
      while todo != {}
        invariant todo <= drained
        invariant hadError <==> (drained - todo) * failing != {}
        invariant dirty == old(dirty) + (drained - todo) * failing
        invariant stored == old(stored) + Rows(positions, drained - todo - failing)
      {
        var k :| k in todo;
        ghost var done := drained - todo;
        if k in failing {
          hadError := true;
          dirty := dirty + {k};
          assert (done + {k}) * failing == done * failing + {k};
          assert done + {k} - failing == done - failing;
        } else {
          stored := stored[k := RowOf(positions[k])];
          assert (done + {k}) * failing == done * failing;
          RowsGrow(old(stored), positions, done - failing, k);
          assert done + {k} - failing == (done - failing) + {k};
        }
        todo := todo - {k};
        assert drained - todo == done + {k};
      }
      assert drained - todo == drained;
    }

    /** One statement for all positions. */
    method FlushBatch(drained: set<PositionKey>, storeOk: bool) returns (hadError: bool)
      requires drained <= positions.Keys
      modifies `dirty, `stored
      ensures hadError <==> !storeOk
      ensures dirty == if storeOk then old(dirty) else old(dirty) + drained
      ensures stored == if storeOk then old(stored) + Rows(positions, drained) else old(stored)
    {
      if !storeOk {
        dirty := dirty + drained;
        return true;
      }
      stored := stored + Rows(positions, drained);
      return false;
    }

    /** One flush cycle. failing holds the positions whose write fails, all of them or none for a store that
        takes batches. */
    method FlushOnce(batch: bool, failing: set<PositionKey>)
      requires Valid() && dirty <= positions.Keys
      requires batch ==> failing == {} || dirty <= failing
      modifies `dirty, `stored, `failures
      ensures Valid()
      ensures Flushed(old(Now()), failing, Now())
    {
      hide WellSharded, Flat, Rows, CountersFit;
      var drained := dirty;
      if drained == {} {
        NoRows(positions, stored);
        assert drained * failing == {} && drained - failing == {};
        return;
      }
      dirty := {};
      var hadError;
      if batch {
        hadError := FlushBatch(drained, failing == {});
        NoRows(positions, old(stored));
        assert failing == {} ==> drained * failing == {} && drained - failing == drained;
        assert failing != {} ==> drained * failing == drained && drained - failing == {};
      } else {
        hadError := FlushIndividual(drained, failing);
      }
      failures := if hadError then failures + 1 else 0;
    }

    /** The flush loop's periodic cleanup. */
    method CleanupKeys(now: int, clocks: seq<int>, later: int)
      requires Valid() && |clocks| == SHARDS && forall i :: 0 <= i < SHARDS ==> now <= clocks[i] <= later
      modifies idem
      ensures Valid()
      ensures KeysCleaned(old(Now()), PERIODIC_MAX_AGE, now, later, Now())
    {
      hide WellSharded, Flat, CountersFit;
      idem.CleanupIdempotencyMap(PERIODIC_MAX_AGE, now, clocks, later);
    }
  }
}
