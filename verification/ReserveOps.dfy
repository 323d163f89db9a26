/** The write-ahead log of treasury operations (db/queries/treasury/reserve_ops.sql): the query for reserves
    that nothing has ended, and the deletion of old completed records. */
module ReserveOps {
  import opened Micro
  import opened Treasury

  predicate Closes(op: Op) {
    op.Release? || op.Commit? || op.Consume?
  }

  /** References with a commit, release or consume record. */
  ghost function Closed(wal: seq<WalOp>): set<nat> {
    set i | 0 <= i < |wal| && Closes(wal[i].op) :: wal[i].reference
  }

  ghost function Open(ops: seq<WalOp>, closed: set<nat>): seq<WalOp> {
    if ops == [] then []
    else
      var last := ops[|ops| - 1];
      Open(ops[..|ops| - 1], closed) + (if last.op.Reserve? && last.reference !in closed then [last] else [])
  }

  /** GetUncommittedOps */
  ghost function Uncommitted(wal: seq<WalOp>): seq<WalOp> {
    Open(wal, Closed(wal))
  }

  function AmountAt(op: WalOp, k: PositionKey): int {
    if op.position == k then ToMicro(op.amount) else 0
  }

  function AmountSum(ops: seq<WalOp>, k: PositionKey): int {
    if ops == [] then 0 else AmountSum(ops[..|ops| - 1], k) + AmountAt(ops[|ops| - 1], k)
  }

  // ---- What a record does to the open reserves ----

  /** The reserves among a set of references. */
  ghost function Among(ops: seq<WalOp>, references: set<nat>): seq<WalOp> {
    if ops == [] then []
    else
      var last := ops[|ops| - 1];
      Among(ops[..|ops| - 1], references) + (if last.op.Reserve? && last.reference in references then [last] else [])
  }

  /** How far a record added to a log moves the sum over its open reserves: a reserve by its amount, unless its
      reference is ended already; a record that ends a reference by the open reserves of that reference,
      whatever its own amount. */
  ghost function Moves(wal: seq<WalOp>, op: WalOp, k: PositionKey): int {
    if op.reference in Closed(wal) then 0
    else if op.op.Reserve? then AmountAt(op, k)
    else if Closes(op.op) then -AmountSum(Among(wal, {op.reference}), k)
    else 0
  }

  lemma ClosedStep(wal: seq<WalOp>, op: WalOp)
    ensures Closed(wal + [op]) == if Closes(op.op) then Closed(wal) + {op.reference} else Closed(wal)
  {
    var after := wal + [op];
    assert forall i :: 0 <= i < |wal| ==> after[i] == wal[i];
    assert after[|wal|] == op;
  }

  lemma SumAppend(ops: seq<WalOp>, op: WalOp, k: PositionKey)
    ensures AmountSum(ops + [op], k) == AmountSum(ops, k) + AmountAt(op, k)
  {
    assert (ops + [op])[..|ops|] == ops;
  }

  /** The sum over the open ones, one record at a time. */
  lemma SumOpen(ops: seq<WalOp>, closed: set<nat>, k: PositionKey)
    requires ops != []
    ensures var last := ops[|ops| - 1];
            AmountSum(Open(ops, closed), k) == AmountSum(Open(ops[..|ops| - 1], closed), k)
              + (if last.op.Reserve? && last.reference !in closed then AmountAt(last, k) else 0)
  {
    hide AmountAt, AmountSum;
    var last, rest := ops[|ops| - 1], Open(ops[..|ops| - 1], closed);
    SumAppend(rest, last, k);
    assert rest + [] == rest;
  }

  lemma SumAmong(ops: seq<WalOp>, references: set<nat>, k: PositionKey)
    requires ops != []
    ensures var last := ops[|ops| - 1];
            AmountSum(Among(ops, references), k) == AmountSum(Among(ops[..|ops| - 1], references), k)
              + (if last.op.Reserve? && last.reference in references then AmountAt(last, k) else 0)
  {
    hide AmountAt, AmountSum;
    var last, rest := ops[|ops| - 1], Among(ops[..|ops| - 1], references);
    SumAppend(rest, last, k);
    assert rest + [] == rest;
  }

  /** Ending more references takes exactly their reserves out of the open ones. */
  lemma {:induction false} OpenLess(ops: seq<WalOp>, c: set<nat>, d: set<nat>, k: PositionKey)
    requires c <= d
    ensures AmountSum(Open(ops, c), k) == AmountSum(Open(ops, d), k) + AmountSum(Among(ops, d - c), k)
  {
    if ops != [] {
      hide AmountAt, AmountSum, Open, Among;
      SumOpen(ops, c, k);
      SumOpen(ops, d, k);
      SumAmong(ops, d - c, k);
      OpenLess(ops[..|ops| - 1], c, d, k);
    }
  }

  lemma {:induction false} NoneAmong(ops: seq<WalOp>)
    ensures Among(ops, {}) == []
  {
    if ops != [] {
      NoneAmong(ops[..|ops| - 1]);
    }
  }

  /** For every log and every record. */
  lemma OpenMoves(wal: seq<WalOp>, op: WalOp, k: PositionKey)
    ensures AmountSum(Uncommitted(wal + [op]), k) == AmountSum(Uncommitted(wal), k) + Moves(wal, op, k)
  {
    hide AmountAt, AmountSum, Open, Closed, Among;
    var after := wal + [op];
    assert after[..|wal|] == wal && after[|wal|] == op;
    ClosedStep(wal, op);
    SumOpen(after, Closed(after), k);
    OpenLess(wal, Closed(wal), Closed(after), k);
    if Closes(op.op) && op.reference !in Closed(wal) {
      assert Closed(after) - Closed(wal) == {op.reference};
    } else {
      assert Closed(after) - Closed(wal) == {};
      NoneAmong(wal);
      NoSum(k);
    }
  }

  lemma NoSum(k: PositionKey)
    ensures AmountSum([], k) == 0
  {
  }

  lemma OpenOfOne(op: WalOp, closed: set<nat>)
    ensures Open([op], closed) == if op.op.Reserve? && op.reference !in closed then [op] else []
  {
    assert [op][..0] == [];
  }

  /** All that has been said about the open reserves so far. */
  ghost function Moved(wal: seq<WalOp>, k: PositionKey): int {
    if wal == [] then 0 else Moved(wal[..|wal| - 1], k) + Moves(wal[..|wal| - 1], wal[|wal| - 1], k)
  }

  /** The open reserves of a log add up to what its records have moved. */
  lemma {:induction false} OpenIsMoved(wal: seq<WalOp>, k: PositionKey)
    ensures AmountSum(Uncommitted(wal), k) == Moved(wal, k)
  {
    hide Moves, Uncommitted;
    if wal == [] {
      NothingOpen(k);
    } else {
      var w, last := wal[..|wal| - 1], wal[|wal| - 1];
      OpenIsMoved(w, k);
      OpenMoves(w, last, k);
      assert w + [last] == wal;
    }
  }

  lemma NothingOpen(k: PositionKey)
    ensures Uncommitted([]) == [] && AmountSum(Uncommitted([]), k) == 0
  {
  }

  // ---- Records that say what they do ----

  /** What a completed operation does to the reserved amount. */
  function LogPart(op: WalOp, k: PositionKey): int {
    if op.op.Reserve? then AmountAt(op, k) else if Closes(op.op) then -AmountAt(op, k) else 0
  }

  /** A record moves the open reserves by what its operation did to the counter. */
  ghost predicate InStep(wal: seq<WalOp>, op: WalOp) {
    forall k :: Moves(wal, op, k) == LogPart(op, k)
  }

  /** A reserve is in step exactly when its reference is not ended yet, or it is of less than a micro-unit. */
  lemma ReserveInStepIff(wal: seq<WalOp>, op: WalOp)
    requires op.op.Reserve?
    ensures InStep(wal, op) <==> op.reference !in Closed(wal) || ToMicro(op.amount) == 0
  {
    hide ToMicro;
    assert Moves(wal, op, op.position) == if op.reference in Closed(wal) then 0 else ToMicro(op.amount);
    if op.reference !in Closed(wal) || ToMicro(op.amount) == 0 {
      forall k
        ensures Moves(wal, op, k) == LogPart(op, k)
      {
      }
    }
  }

  /** A record that ends a reference is in step exactly when the reserves of that reference that are still open,
      none if it was ended before, add up on every position to its own amount. */
  lemma EndInStepIff(wal: seq<WalOp>, op: WalOp)
    requires Closes(op.op)
    ensures InStep(wal, op) <==>
            forall k :: (if op.reference in Closed(wal) then 0 else AmountSum(Among(wal, {op.reference}), k))
              == AmountAt(op, k)
  {
    hide AmountSum, Among, AmountAt, Closed;
    if InStep(wal, op) {
      forall k
        ensures (if op.reference in Closed(wal) then 0 else AmountSum(Among(wal, {op.reference}), k))
          == AmountAt(op, k)
      {
        assert Moves(wal, op, k) == LogPart(op, k);
      }
    }
  }

  predicate Matches(reserve: WalOp, end: WalOp) {
    reserve.op.Reserve? && reserve.reference == end.reference && reserve.position == end.position
    && reserve.amount == end.amount
  }

  /** So it is for what ends the one reserve of its reference. */
  lemma EndOfOneReserve(wal: seq<WalOp>, op: WalOp, i: nat)
    requires Closes(op.op) && op.reference !in Closed(wal) && i < |wal| && Matches(wal[i], op)
    requires forall j :: 0 <= j < |wal| && j != i && wal[j].op.Reserve? ==> wal[j].reference != op.reference
    ensures InStep(wal, op)
  {
    hide AmountSum, Among, Closed, InStep;
    forall k
      ensures AmountSum(Among(wal, {op.reference}), k) == AmountAt(op, k)
    {
      OnlyOne(wal, op, i, k);
    }
    EndInStepIff(wal, op);
  }

  lemma {:induction false} OnlyOne(wal: seq<WalOp>, op: WalOp, i: nat, k: PositionKey)
    requires i < |wal| && Matches(wal[i], op)
    requires forall j :: 0 <= j < |wal| && j != i && wal[j].op.Reserve? ==> wal[j].reference != op.reference
    ensures AmountSum(Among(wal, {op.reference}), k) == AmountAt(op, k)
    decreases |wal|
  {
    hide AmountSum, Among;
    SumAmong(wal, {op.reference}, k);
    var n := |wal| - 1;
    if i < n {
      OnlyOne(wal[..n], op, i, k);
    } else {
      NoReserve(wal[..n], op.reference);
      NoSum(k);
    }
  }

  lemma {:induction false} NoReserve(wal: seq<WalOp>, reference: nat)
    requires forall j :: 0 <= j < |wal| && wal[j].op.Reserve? ==> wal[j].reference != reference
    ensures Among(wal, {reference}) == []
  {
    if wal != [] {
      NoReserve(wal[..|wal| - 1], reference);
    }
  }

  // ---- Cleanup ----

  /** CleanupCompletedReserveOps on a log in the order of its timestamps, the first n records being older
      than the cutoff: old records that end a reference or whose reference is ended go. */
  ghost function Sieve(ops: seq<WalOp>, n: nat, closed: set<nat>): seq<WalOp> {
    if ops == [] then []
    else
      var last := ops[|ops| - 1];
      Sieve(ops[..|ops| - 1], n, closed)
      + (if |ops| > n || !(Closes(last.op) || last.reference in closed) then [last] else [])
  }

  ghost function Cleaned(wal: seq<WalOp>, n: nat): seq<WalOp> {
    Sieve(wal, n, Closed(wal))
  }

  lemma {:induction false} SieveKeepsOpen(ops: seq<WalOp>, n: nat, closed: set<nat>)
    ensures Open(Sieve(ops, n, closed), closed) == Open(ops, closed)
  {
    if ops != [] {
      var last, rest := ops[|ops| - 1], Sieve(ops[..|ops| - 1], n, closed);
      SieveKeepsOpen(ops[..|ops| - 1], n, closed);
      assert (rest + [last])[..|rest|] == rest;
      assert rest + [] == rest;
    }
  }

  lemma {:induction false} SieveElements(ops: seq<WalOp>, n: nat, closed: set<nat>, x: WalOp)
    ensures x in Sieve(ops, n, closed) <==>
              exists i :: 0 <= i < |ops| && ops[i] == x && (i >= n || !(Closes(x.op) || x.reference in closed))
  {
    if ops != [] {
      SieveElements(ops[..|ops| - 1], n, closed, x);
    }
  }

  lemma {:induction false} OpenAgrees(ops: seq<WalOp>, c: set<nat>, d: set<nat>)
    requires forall x :: x in ops && x.op.Reserve? ==> (x.reference in c <==> x.reference in d)
    ensures Open(ops, c) == Open(ops, d)
  {
    if ops != [] {
      OpenAgrees(ops[..|ops| - 1], c, d);
    }
  }

  lemma ClosedShrinks(wal: seq<WalOp>, n: nat)
    ensures Closed(Cleaned(wal, n)) <= Closed(wal)
  {
    hide Sieve;
    var kept := Cleaned(wal, n);
    forall j | 0 <= j < |kept| && Closes(kept[j].op)
      ensures kept[j].reference in Closed(wal)
    {
      SieveElements(wal, n, Closed(wal), kept[j]);
    }
  }

  /** Reserves whose only ends a cleanup deletes while it keeps them. */
  ghost function Reopened(wal: seq<WalOp>, n: nat): seq<WalOp> {
    Among(Cleaned(wal, n), Closed(wal) - Closed(Cleaned(wal, n)))
  }

  /** A cleanup moves the sum over the open reserves by those it reopens. */
  lemma CleanupMoves(wal: seq<WalOp>, n: nat, k: PositionKey)
    ensures AmountSum(Uncommitted(Cleaned(wal, n)), k) ==
              AmountSum(Uncommitted(wal), k) + AmountSum(Reopened(wal, n), k)
    ensures forall x :: x in Cleaned(wal, n) ==> x in wal
  {
    hide Sieve, Open, Closed, Among, AmountSum;
    ClosedShrinks(wal, n);
    OpenLess(Cleaned(wal, n), Closed(Cleaned(wal, n)), Closed(wal), k);
    SieveKeepsOpen(wal, n, Closed(wal));
    forall x | x in Cleaned(wal, n)
      ensures x in wal
    {
      SieveElements(wal, n, Closed(wal), x);
    }
  }

  /** A reserve younger than the cutoff whose ends are all older. */
  ghost predicate EndsExpired(wal: seq<WalOp>, n: nat, i: nat)
    requires i < |wal|
  {
    && i >= n && wal[i].op.Reserve? && wal[i].reference in Closed(wal)
    && forall j :: 0 <= j < |wal| && Closes(wal[j].op) && wal[j].reference == wal[i].reference ==> j < n
  }

  lemma EndsExpiredIff(wal: seq<WalOp>, n: nat, x: WalOp)
    requires x.op.Reserve? && x.reference in Closed(wal) && x in Cleaned(wal, n)
    ensures x.reference !in Closed(Cleaned(wal, n))
            <==> exists i :: 0 <= i < |wal| && wal[i] == x && EndsExpired(wal, n, i)
  {
    hide Sieve;
    var kept := Cleaned(wal, n);
    SieveElements(wal, n, Closed(wal), x);
    var i :| 0 <= i < |wal| && wal[i] == x && i >= n;
    if x.reference in Closed(kept) {
      var j :| 0 <= j < |kept| && Closes(kept[j].op) && kept[j].reference == x.reference;
      SieveElements(wal, n, Closed(wal), kept[j]);
      var l :| 0 <= l < |wal| && wal[l] == kept[j] && l >= n;
      forall m | 0 <= m < |wal| && wal[m] == x
        ensures !EndsExpired(wal, n, m)
      {
      }
    } else {
      forall j | 0 <= j < |wal| && Closes(wal[j].op) && wal[j].reference == wal[i].reference
        ensures j < n
      {
        SieveElements(wal, n, Closed(wal), wal[j]);
      }
      assert EndsExpired(wal, n, i);
    }
  }

  /** Cleaning up the log changes what would be replayed exactly when a reserve younger than the cutoff has all
      its ends older; so never while reserves come before their ends. */
  lemma CleanupKeepsUncommittedIff(wal: seq<WalOp>, n: nat)
    ensures Uncommitted(Cleaned(wal, n)) == Uncommitted(wal) <==> forall i :: 0 <= i < |wal| ==> !EndsExpired(wal, n, i)
  {
    hide Sieve, Open, Closed, EndsExpired;
    var kept := Cleaned(wal, n);
    if i :| 0 <= i < |wal| && EndsExpired(wal, n, i) {
      StaysOpen(wal, n, i);
    } else {
      forall x | x in kept && x.op.Reserve?
        ensures x.reference in Closed(wal) <==> x.reference in Closed(kept)
      {
        ClosedShrinks(wal, n);
        if x.reference in Closed(wal) {
          EndsExpiredIff(wal, n, x);
        }
      }
      OpenAgrees(kept, Closed(wal), Closed(kept));
      SieveKeepsOpen(wal, n, Closed(wal));
    }
  }

  lemma StaysOpen(wal: seq<WalOp>, n: nat, i: nat)
    requires i < |wal| && EndsExpired(wal, n, i)
    ensures wal[i] in Uncommitted(Cleaned(wal, n)) && wal[i] !in Uncommitted(wal)
  {
    hide Sieve, Open, Closed, EndsExpired;
    ExpiredFacts(wal, n, i);
    SieveElements(wal, n, Closed(wal), wal[i]);
    EndsExpiredIff(wal, n, wal[i]);
    OpenHas(Cleaned(wal, n), Closed(Cleaned(wal, n)), wal[i]);
    OpenHas(wal, Closed(wal), wal[i]);
  }

  lemma ExpiredFacts(wal: seq<WalOp>, n: nat, i: nat)
    requires i < |wal| && EndsExpired(wal, n, i)
    ensures i >= n && wal[i].op.Reserve? && wal[i].reference in Closed(wal)
  {
  }

  lemma {:induction false} OpenHas(ops: seq<WalOp>, closed: set<nat>, x: WalOp)
    ensures x in Open(ops, closed) <==> x in ops && x.op.Reserve? && x.reference !in closed
  {
    if ops != [] {
      OpenHas(ops[..|ops| - 1], closed, x);
    }
  }
}
