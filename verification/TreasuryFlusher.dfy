/** Mutators that change a position, mark it dirty and may have to roll back after that, interleaved with the
    flusher's drain, loads, writes and failures and with the synchronous flushes of large amounts
    (treasury/flush.go:92-252, treasury/manager.go:400-420, 1000-1006, 1065-1079). */
module TreasuryFlusher {

  /** What is stored of a position. */
  datatype Value = Value(balance: int, locked: int)

  /** A drained position: its two counters are loaded one after the other. */
  datatype Hand =
    | Unread
    | HaveBalance(b: int)
    | Have(b: int, l: int)
    | Failed

  /** A synchronous flush of one position, which removes the mark once it has written what it loaded. */
  datatype Sync = Sync(k: nat, hand: Hand, written: bool)

  /** marking holds the positions that a mutator has changed and not yet marked, logging those it has marked
      while its log write, on which it may have to roll back, is still under way; cycles counts completed
      flush cycles. */
  datatype State = State(mem: map<nat, Value>, store: map<nat, Value>, dirty: set<nat>,
                         marking: multiset<nat>, logging: multiset<nat>,
                         syncs: map<nat, Sync>, hands: map<nat, Hand>, flushing: bool,
                         batch: bool, error: bool, failures: nat, cycles: nat)

  datatype Action =
    | SetBalance(k: nat, v: int)
    | SetLocked(k: nat, v: int)
    | Mark(k: nat)
    | Logged(k: nat)
    | RollBack(k: nat, balance: int, locked: int)
    | SyncStart(id: nat, k: nat)
    | SyncBalance(id: nat)
    | SyncLocked(id: nat)
    | SyncWrite(id: nat, ok: bool)
    | SyncClear(id: nat)
    | Drain(batch: bool)
    | LoadBalance(k: nat)
    | LoadLocked(k: nat)
    | Write(k: nat, ok: bool)
    | WriteAll(ok: bool)
    | Remark(k: nat)
    | Finish

  // ---- Steps ----

  function Changed(s: State, k: nat, v: Value): State {
    s.(mem := s.mem[k := v], marking := s.marking + multiset{k})
  }

  function Marked(s: State, k: nat): State {
    s.(dirty := s.dirty + {k}, marking := s.marking - multiset{k}, logging := s.logging + multiset{k})
  }

  /** A rollback adds to the counters once more and marks nothing. */
  function RolledBack(s: State, k: nat, balance: int, locked: int): State
    requires k in s.mem
  {
    s.(mem := s.mem[k := Value(s.mem[k].balance + balance, s.mem[k].locked + locked)],
      logging := s.logging - multiset{k})
  }

  function SyncHas(s: State, id: nat, hand: Hand): (t: State)
    requires id in s.syncs
    ensures t.mem == s.mem
  {
    s.(syncs := s.syncs[id := s.syncs[id].(hand := hand)])
  }

  function SyncWrote(s: State, id: nat, ok: bool): (t: State)
    requires id in s.syncs && s.syncs[id].hand.Have?
    ensures t.mem == s.mem
  {
    var f := s.syncs[id];
    if ok then s.(store := s.store[f.k := Value(f.hand.b, f.hand.l)], syncs := s.syncs[id := f.(written := true)])
    else s.(syncs := s.syncs - {id})
  }

  function SyncCleared(s: State, id: nat): (t: State)
    requires id in s.syncs
    ensures t.mem == s.mem
  {
    s.(dirty := s.dirty - {s.syncs[id].k}, syncs := s.syncs - {id})
  }

  /** An empty dirty set ends the cycle before it begins. */
  function Drained(s: State, batch: bool): (t: State)
    ensures t.mem == s.mem
  {
    if s.flushing || s.dirty == {} then s
    else s.(hands := map k | k in s.dirty :: Unread, dirty := {}, flushing := true, batch := batch, error := false)
  }

  function Wrote(s: State, k: nat, ok: bool): (t: State)
    requires k in s.hands && s.hands[k].Have?
    ensures t.mem == s.mem
  {
    if ok then s.(store := s.store[k := Value(s.hands[k].b, s.hands[k].l)], hands := s.hands - {k})
    else s.(hands := s.hands[k := Failed], error := true)
  }

  function WroteAll(s: State, ok: bool): (t: State)
    requires forall k :: k in s.hands ==> s.hands[k].Have?
    ensures t.mem == s.mem
  {
    if ok then s.(store := s.store + (map k | k in s.hands :: Value(s.hands[k].b, s.hands[k].l)), hands := map[])
    else s.(hands := map k | k in s.hands :: Failed, error := true)
  }

  function Remarked(s: State, k: nat): (t: State)
    ensures t.mem == s.mem
  {
    s.(dirty := s.dirty + {k}, hands := s.hands - {k})
  }

  function Finished(s: State): (t: State)
    ensures t.mem == s.mem
  {
    s.(flushing := false, failures := if s.error then s.failures + 1 else 0, cycles := s.cycles + 1)
  }

  predicate Enabled(s: State, a: Action) {
    match a
    case SetBalance(k, _) => k in s.mem
    case SetLocked(k, _) => k in s.mem
    case Mark(k) => k in s.marking
    case Logged(k) => k in s.logging
    case RollBack(k, balance, locked) => k in s.logging && k in s.mem && (balance != 0 || locked != 0)
    case SyncStart(id, k) => id !in s.syncs && k in s.mem
    case SyncBalance(id) => id in s.syncs && s.syncs[id].hand.Unread? && s.syncs[id].k in s.mem
    case SyncLocked(id) => id in s.syncs && s.syncs[id].hand.HaveBalance? && s.syncs[id].k in s.mem
    case SyncWrite(id, _) => id in s.syncs && s.syncs[id].hand.Have? && !s.syncs[id].written
    case SyncClear(id) => id in s.syncs && s.syncs[id].hand.Have? && s.syncs[id].written
    case Drain(_) => true
    case LoadBalance(k) => k in s.hands && s.hands[k].Unread? && k in s.mem
    case LoadLocked(k) => k in s.hands && s.hands[k].HaveBalance? && k in s.mem
    case Write(k, _) => !s.batch && k in s.hands && s.hands[k].Have?
    case WriteAll(_) => s.batch && s.hands != map[] && forall k :: k in s.hands ==> s.hands[k].Have?
    case Remark(k) => k in s.hands && s.hands[k].Failed?
    case Finish => s.flushing && s.hands == map[]
  }

  predicate ByMutator(a: Action) {
    a.SetBalance? || a.SetLocked? || a.Mark? || a.Logged? || a.RollBack?
  }

  predicate BySync(a: Action) {
    a.SyncStart? || a.SyncBalance? || a.SyncLocked? || a.SyncWrite? || a.SyncClear?
  }

  function MutatorNext(s: State, a: Action): State
    requires ByMutator(a) && Enabled(s, a)
  {
    match a
    case SetBalance(k, v) => Changed(s, k, s.mem[k].(balance := v))
    case SetLocked(k, v) => Changed(s, k, s.mem[k].(locked := v))
    case Mark(k) => Marked(s, k)
    case Logged(k) => s.(logging := s.logging - multiset{k})
    case RollBack(k, balance, locked) => RolledBack(s, k, balance, locked)
  }

  function SyncNext(s: State, a: Action): State
    requires BySync(a) && Enabled(s, a)
  {
    match a
    case SyncStart(id, k) => s.(syncs := s.syncs[id := Sync(k, Unread, false)])
    case SyncBalance(id) => SyncHas(s, id, HaveBalance(s.mem[s.syncs[id].k].balance))
    case SyncLocked(id) => SyncHas(s, id, Have(s.syncs[id].hand.b, s.mem[s.syncs[id].k].locked))
    case SyncWrite(id, ok) => SyncWrote(s, id, ok)
    case SyncClear(id) => SyncCleared(s, id)
  }

  function FlusherNext(s: State, a: Action): State
    requires !ByMutator(a) && !BySync(a) && Enabled(s, a)
  {
    match a
    case Drain(batch) => Drained(s, batch)
    case LoadBalance(k) => s.(hands := s.hands[k := HaveBalance(s.mem[k].balance)])
    case LoadLocked(k) => s.(hands := s.hands[k := Have(s.hands[k].b, s.mem[k].locked)])
    case Write(k, ok) => Wrote(s, k, ok)
    case WriteAll(ok) => WroteAll(s, ok)
    case Remark(k) => Remarked(s, k)
    case Finish => Finished(s)
  }

  function Next(s: State, a: Action): State {
    if !Enabled(s, a) then s
    else if ByMutator(a) then MutatorNext(s, a)
    else if BySync(a) then SyncNext(s, a)
    else FlusherNext(s, a)
  }

  function Run(s: State, acts: seq<Action>): State {
    if acts == [] then s else Next(Run(s, acts[..|acts| - 1]), acts[|acts| - 1])
  }

  /** After loading: store and memory agree. */
  predicate Initial(s: State) {
    && s.store == s.mem && s.dirty == {} && s.marking == multiset{} && s.logging == multiset{}
    && s.syncs == map[] && s.hands == map[] && !s.flushing && s.failures == 0
  }

  // ---- The invariant ----

  /** The flusher still has to load the counter, has loaded its current value, or will mark it again. */
  predicate Brings(h: Hand, v: Value) {
    match h
    case Unread => true
    case Failed => true
    case HaveBalance(b) => b == v.balance
    case Have(b, l) => Value(b, l) == v
  }

  /** A position whose stored balance or lock is behind memory is dirty, about to be marked, or in the
      flusher's hands with the right values still to come. */
  predicate Accounted(s: State, k: nat)
    requires k in s.mem && k in s.store
  {
    k in s.dirty || k in s.marking || (if k in s.hands then Brings(s.hands[k], s.mem[k]) else s.store[k] == s.mem[k])
  }

  ghost predicate AnyFailed(s: State) {
    exists k :: k in s.hands && s.hands[k].Failed?
  }

  /** A failure leaves work behind that will reset the counter. */
  ghost predicate FailureTracked(s: State) {
    if s.flushing then s.error ==> s.dirty != {} || AnyFailed(s) else s.failures > 0 ==> s.dirty != {}
  }

  /** Where things can be; every interleaving keeps this. */
  ghost predicate Shape(s: State) {
    && s.mem.Keys == s.store.Keys && s.dirty <= s.mem.Keys && s.hands.Keys <= s.mem.Keys
    && (forall k :: k in s.marking ==> k in s.mem)
    && (forall id :: id in s.syncs ==> s.syncs[id].k in s.mem)
    && (!s.flushing ==> s.hands == map[])
  }

  ghost predicate AllAccounted(s: State)
    requires Shape(s)
  {
    forall k :: k in s.mem ==> Accounted(s, k)
  }

  // ---- Every step keeps the shape ----

  lemma MutatorsKeepShape(s: State, a: Action)
    requires Shape(s) && ByMutator(a) && Enabled(s, a)
    ensures Shape(MutatorNext(s, a))
  {
  }

  lemma ProgressKeepsShape(s: State, id: nat, f: Sync)
    requires Shape(s) && f.k in s.mem
    ensures Shape(s.(syncs := s.syncs[id := f])) && Shape(s.(syncs := s.syncs - {id}))
  {
  }

  lemma SyncsKeepShape(s: State, a: Action)
    requires Shape(s) && BySync(a) && Enabled(s, a)
    ensures Shape(SyncNext(s, a))
  {
    hide Shape;
    match a
    case SyncStart(id, k) => ProgressKeepsShape(s, id, Sync(k, Unread, false));
    case SyncBalance(id) =>
      ProgressKeepsShape(s, id, s.syncs[id].(hand := HaveBalance(s.mem[s.syncs[id].k].balance)));
    case SyncLocked(id) =>
      ProgressKeepsShape(s, id, s.syncs[id].(hand := Have(s.syncs[id].hand.b, s.mem[s.syncs[id].k].locked)));
    case SyncWrite(id, ok) => SyncWriteKeepsShape(s, id, ok);
    case SyncClear(id) => SyncClearKeepsShape(s, id);
  }

  lemma SyncWriteKeepsShape(s: State, id: nat, ok: bool)
    requires Shape(s) && Enabled(s, SyncWrite(id, ok))
    ensures Shape(SyncWrote(s, id, ok))
  {
  }

  lemma SyncClearKeepsShape(s: State, id: nat)
    requires Shape(s) && Enabled(s, SyncClear(id))
    ensures Shape(SyncCleared(s, id))
  {
  }

  lemma FlusherKeepsShape(s: State, a: Action)
    requires Shape(s) && !ByMutator(a) && !BySync(a) && Enabled(s, a)
    ensures Shape(FlusherNext(s, a))
  {
    match a
    case Drain(_) =>
    case LoadBalance(_) =>
    case LoadLocked(_) =>
    case Write(_, _) =>
    case WriteAll(_) =>
    case Remark(_) =>
    case Finish =>
  }

  lemma StepShape(s: State, a: Action)
    requires Shape(s)
    ensures Shape(Next(s, a))
  {
    hide Shape, Enabled, MutatorNext, SyncNext, FlusherNext, ByMutator, BySync;
    if !Enabled(s, a) {
    } else if ByMutator(a) {
      MutatorsKeepShape(s, a);
    } else if BySync(a) {
      SyncsKeepShape(s, a);
    } else {
      FlusherKeepsShape(s, a);
    }
  }

  lemma {:induction false} RunShape(s: State, acts: seq<Action>)
    requires Initial(s)
    ensures Shape(Run(s, acts))
  {
    hide Next, Initial, Shape;
    if acts == [] {
      InitialShape(s);
    } else {
      RunShape(s, acts[..|acts| - 1]);
      StepShape(Run(s, acts[..|acts| - 1]), acts[|acts| - 1]);
    }
  }

  lemma InitialShape(s: State)
    requires Initial(s)
    ensures Shape(s) && AllAccounted(s) && FailureTracked(s)
  {
  }

  // ---- Every step but one keeps failures tracked ----

  /** A synchronous flush removes the last mark while a failure is on the count. */
  ghost predicate Strands(s: State, a: Action) {
    && a.SyncClear? && Enabled(s, a) && s.dirty == {s.syncs[a.id].k}
    && if s.flushing then s.error && !AnyFailed(s) else s.failures > 0
  }

  lemma SameHands(s: State, t: State)
    ensures s.hands == t.hands ==> (AnyFailed(s) <==> AnyFailed(t))
  {
  }

  lemma MutatorTracks(s: State, a: Action)
    requires FailureTracked(s) && ByMutator(a) && Enabled(s, a)
    ensures FailureTracked(MutatorNext(s, a))
  {
    hide AnyFailed;
    SameHands(s, MutatorNext(s, a));
  }

  lemma SyncTracks(s: State, a: Action)
    requires Shape(s) && FailureTracked(s) && BySync(a) && Enabled(s, a)
    ensures FailureTracked(SyncNext(s, a)) <==> !Strands(s, a)
  {
    hide AnyFailed, Shape;
    SameHands(s, SyncNext(s, a));
    match a
    case SyncClear(id) =>
      var k := s.syncs[id].k;
      assert s.dirty - {k} == {} <==> s.dirty == {} || s.dirty == {k};
    case SyncStart(_, _) =>
    case SyncBalance(_) =>
    case SyncLocked(_) =>
    case SyncWrite(_, _) =>
  }

  lemma WriteTracks(s: State, k: nat, ok: bool)
    requires Shape(s) && FailureTracked(s)
    ensures FailureTracked(Next(s, Write(k, ok)))
  {
    hide MutatorNext, SyncNext;
    var t := Next(s, Write(k, ok));
    if Enabled(s, Write(k, ok)) {
      assert !ok ==> t.hands[k].Failed?;
      assert forall j :: j in s.hands && s.hands[j].Failed? ==> j in t.hands && t.hands[j].Failed?;
    }
  }

  lemma WriteAllTracks(s: State, ok: bool)
    requires Shape(s) && FailureTracked(s)
    ensures FailureTracked(Next(s, WriteAll(ok)))
  {
    hide MutatorNext, SyncNext;
    var t := Next(s, WriteAll(ok));
    if Enabled(s, WriteAll(ok)) {
      assert !AnyFailed(s);
      var k :| k in s.hands;
      assert !ok ==> k in t.hands && t.hands[k].Failed?;
    }
  }

  lemma LoadTracks(s: State, a: Action)
    requires Shape(s) && FailureTracked(s) && (a.LoadBalance? || a.LoadLocked?)
    ensures FailureTracked(Next(s, a))
  {
    hide MutatorNext, SyncNext;
    var t := Next(s, a);
    assert forall j :: j in s.hands && s.hands[j].Failed? ==> j in t.hands && t.hands[j].Failed?;
  }

  lemma CycleTracks(s: State, a: Action)
    requires Shape(s) && FailureTracked(s) && (a.Drain? || a.Remark? || a.Finish?)
    ensures FailureTracked(Next(s, a))
  {
    hide MutatorNext, SyncNext;
    var t := Next(s, a);
    if Enabled(s, a) {
      assert a.Remark? ==> a.k in t.dirty;
      assert a.Finish? ==> !AnyFailed(s);
    }
  }

  lemma StepTrackedIff(s: State, a: Action)
    requires Shape(s) && FailureTracked(s)
    ensures FailureTracked(Next(s, a)) <==> !Strands(s, a)
  {
    hide Shape, FailureTracked, MutatorNext, SyncNext, FlusherNext, AnyFailed;
    if !Enabled(s, a) {
    } else if ByMutator(a) {
      MutatorTracks(s, a);
    } else if BySync(a) {
      SyncTracks(s, a);
    } else if a.Drain? || a.Remark? || a.Finish? {
      CycleTracks(s, a);
    } else if a.Write? {
      WriteTracks(s, a.k, a.ok);
    } else if a.WriteAll? {
      WriteAllTracks(s, a.ok);
    } else {
      LoadTracks(s, a);
    }
  }

  ghost predicate NeverStrands(s: State, acts: seq<Action>) {
    acts != [] ==> NeverStrands(s, acts[..|acts| - 1]) && !Strands(Run(s, acts[..|acts| - 1]), acts[|acts| - 1])
  }

  ghost predicate AlwaysTracked(s: State, acts: seq<Action>) {
    FailureTracked(Run(s, acts)) && (acts != [] ==> AlwaysTracked(s, acts[..|acts| - 1]))
  }

  /** A counted failure leaves work behind in every state of a run exactly when no synchronous flush in it removes
      the last mark while a failure is on the count. */
  lemma {:induction false} FailuresTrackedIff(s: State, acts: seq<Action>)
    requires Initial(s)
    ensures AlwaysTracked(s, acts) <==> NeverStrands(s, acts)
  {
    hide Initial, Next, Shape, FailureTracked, Strands;
    if acts == [] {
      InitialShape(s);
    } else {
      var init := acts[..|acts| - 1];
      FailuresTrackedIff(s, init);
      RunShape(s, init);
      if AlwaysTracked(s, init) {
        StepTrackedIff(Run(s, init), acts[|acts| - 1]);
      }
    }
  }

  // ---- Every step but three keeps positions accounted for ----

  lemma ChangeAccounts(s: State, j: nat, v: Value, k: nat)
    requires j in s.mem && k in s.mem && k in s.store && Accounted(s, k)
    ensures Accounted(Changed(s, j, v), k)
  {
  }

  lemma MarkAccounts(s: State, j: nat, k: nat)
    requires k in s.mem && k in s.store && Accounted(s, k)
    ensures Accounted(Marked(s, j), k)
  {
    assert j == k || s.marking[k] == (s.marking - multiset{j})[k];
  }

  lemma MutatorAccounts(s: State, a: Action, k: nat)
    requires Enabled(s, a) && ByMutator(a) && !a.RollBack?
    requires k in s.mem && k in s.store && Accounted(s, k)
    ensures var t := MutatorNext(s, a); k in t.mem && k in t.store && Accounted(t, k)
  {
    hide Accounted, Brings;
    match a
    case SetBalance(j, v) => ChangeAccounts(s, j, s.mem[j].(balance := v), k);
    case SetLocked(j, v) => ChangeAccounts(s, j, s.mem[j].(locked := v), k);
    case Mark(j) => MarkAccounts(s, j, k);
    case Logged(j) => LogAccounts(s, j, k);
  }

  lemma LogAccounts(s: State, j: nat, k: nat)
    requires k in s.mem && k in s.store && Accounted(s, k)
    ensures Accounted(s.(logging := s.logging - multiset{j}), k)
  {
  }

  lemma ProgressAccounts(s: State, syncs: map<nat, Sync>, k: nat)
    requires k in s.mem && k in s.store && Accounted(s, k)
    ensures Accounted(s.(syncs := syncs), k)
  {
  }

  lemma SyncLoadAccounts(s: State, a: Action, k: nat)
    requires Enabled(s, a) && (a.SyncStart? || a.SyncBalance? || a.SyncLocked?)
    requires k in s.mem && k in s.store && Accounted(s, k)
    ensures var t := SyncNext(s, a); k in t.mem && k in t.store && Accounted(t, k)
  {
    hide Accounted;
    ProgressAccounts(s, SyncNext(s, a).syncs, k);
  }

  lemma DrainAccounts(s: State, batch: bool, k: nat)
    requires Shape(s) && k in s.mem && Accounted(s, k)
    ensures Accounted(Drained(s, batch), k)
  {
  }

  lemma HandAccounts(s: State, j: nat, h: Hand, k: nat)
    requires k in s.mem && k in s.store && Accounted(s, k) && j in s.hands
    requires j == k && Brings(s.hands[j], s.mem[j]) ==> Brings(h, s.mem[j])
    ensures Accounted(s.(hands := s.hands[j := h]), k)
  {
    hide Brings;
  }

  lemma CycleAccounts(s: State, j: nat, k: nat)
    requires Shape(s) && k in s.mem && Accounted(s, k)
    ensures Accounted(Remarked(s, j), k) && Accounted(Finished(s), k)
  {
    hide Brings;
  }

  lemma LoadAccounts(s: State, a: Action, k: nat)
    requires Shape(s) && Enabled(s, a) && (a.Drain? || a.LoadBalance? || a.LoadLocked? || a.Remark? || a.Finish?)
    requires k in s.mem && Accounted(s, k)
    ensures var t := FlusherNext(s, a); k in t.mem && k in t.store && Accounted(t, k)
  {
    hide Accounted;
    match a
    case Drain(batch) => DrainAccounts(s, batch, k);
    case LoadBalance(j) => HandAccounts(s, j, HaveBalance(s.mem[j].balance), k);
    case LoadLocked(j) => HandAccounts(s, j, Have(s.hands[j].b, s.mem[j].locked), k);
    case Remark(j) => CycleAccounts(s, j, k);
    case Finish => CycleAccounts(s, 0, k);
  }

  lemma WriteAccounts(s: State, j: nat, ok: bool, k: nat)
    requires j in s.hands && s.hands[j].Have?
    requires k in s.mem && k in s.store && k in Wrote(s, j, ok).store && Accounted(s, k)
    ensures Accounted(Wrote(s, j, ok), k)
  {
  }

  lemma WriteAllAccounts(s: State, ok: bool, k: nat)
    requires forall j :: j in s.hands ==> s.hands[j].Have?
    requires k in s.mem && k in s.store && k in WroteAll(s, ok).store && Accounted(s, k)
    ensures Accounted(WroteAll(s, ok), k)
  {
  }

  /** The flusher has loaded the counter since the position was last marked: a rollback comes too late for it. */
  predicate Exposed(s: State, k: nat, balance: int) {
    && k !in s.dirty && k !in s.marking
    && !(k in s.hands && (s.hands[k].Unread? || s.hands[k].Failed? || (s.hands[k].HaveBalance? && balance == 0)))
  }

  /** A rollback leaves its position accounted for exactly when it is not exposed. */
  lemma RollBackAccountedIff(s: State, k: nat, balance: int, locked: int)
    requires Shape(s) && AllAccounted(s) && Enabled(s, RollBack(k, balance, locked))
    ensures Shape(RolledBack(s, k, balance, locked))
    ensures AllAccounted(RolledBack(s, k, balance, locked)) <==> !Exposed(s, k, balance)
  {
    var t := RolledBack(s, k, balance, locked);
    assert Accounted(s, k);
    assert Accounted(t, k) <==> !Exposed(s, k, balance);
    forall j | j in t.mem && j != k
      ensures Accounted(t, j)
    {
      assert Accounted(s, j);
    }
  }

  /** A synchronous flush writes what it loaded. It is outdated when memory has moved on and the position is not
      dirty, about to be marked or in the flusher's hands. */
  predicate Outdated(s: State, f: Sync) {
    && f.k in s.mem && f.hand.Have? && Value(f.hand.b, f.hand.l) != s.mem[f.k]
    && f.k !in s.dirty && f.k !in s.marking && f.k !in s.hands
  }

  lemma SyncWriteAccountedIff(s: State, id: nat, ok: bool)
    requires Shape(s) && AllAccounted(s) && Enabled(s, SyncWrite(id, ok))
    ensures Shape(SyncWrote(s, id, ok))
    ensures AllAccounted(SyncWrote(s, id, ok)) <==> !(ok && Outdated(s, s.syncs[id]))
  {
    var t, f := SyncWrote(s, id, ok), s.syncs[id];
    assert Accounted(s, f.k);
    assert Accounted(t, f.k) <==> !(ok && Outdated(s, f));
    forall j | j in t.mem && j != f.k
      ensures Accounted(t, j)
    {
      assert Accounted(s, j);
    }
  }

  /** A synchronous flush removes a mark that was put there for a change it did not write: neither the store nor
      the flusher has what memory holds. */
  predicate Premature(s: State, k: nat) {
    && k in s.mem && k in s.store && k !in s.marking
    && if k in s.hands then !Brings(s.hands[k], s.mem[k]) else s.store[k] != s.mem[k]
  }

  lemma SyncClearAccountedIff(s: State, id: nat)
    requires Shape(s) && AllAccounted(s) && Enabled(s, SyncClear(id))
    ensures Shape(SyncCleared(s, id))
    ensures AllAccounted(SyncCleared(s, id)) <==> !Premature(s, s.syncs[id].k)
  {
    hide Brings;
    var t, k := SyncCleared(s, id), s.syncs[id].k;
    assert Accounted(t, k) <==> !Premature(s, k);
    forall j | j in t.mem && j != k
      ensures Accounted(t, j)
    {
      assert Accounted(s, j);
    }
  }

  /** The step is a rollback that comes too late, or a synchronous flush that writes outdated values or removes a
      mark prematurely. */
  predicate Breaks(s: State, a: Action) {
    && Enabled(s, a)
    && match a
       case RollBack(k, balance, _) => Exposed(s, k, balance)
       case SyncWrite(id, ok) => ok && Outdated(s, s.syncs[id])
       case SyncClear(id) => Premature(s, s.syncs[id].k)
       case _ => false
  }

  lemma StepAccountedIff(s: State, a: Action)
    requires Shape(s) && AllAccounted(s)
    ensures Shape(Next(s, a))
    ensures AllAccounted(Next(s, a)) <==> !Breaks(s, a)
  {
    hide Shape, Exposed, Outdated, Premature, RolledBack, SyncWrote, SyncCleared, AllAccounted, FlusherNext;
    StepShape(s, a);
    if !Enabled(s, a) {
    } else if a.RollBack? {
      RollBackAccountedIff(s, a.k, a.balance, a.locked);
    } else if a.SyncWrite? {
      SyncWriteAccountedIff(s, a.id, a.ok);
    } else if a.SyncClear? {
      SyncClearAccountedIff(s, a.id);
    } else {
      OthersAccount(s, a);
    }
  }

  lemma OthersAccount(s: State, a: Action)
    requires Shape(s) && AllAccounted(s) && !a.RollBack? && !a.SyncWrite? && !a.SyncClear? && Shape(Next(s, a))
    ensures AllAccounted(Next(s, a))
  {
    hide Accounted, Wrote, WroteAll, MutatorNext, SyncNext;
    SameKeys(s, a);
    if Enabled(s, a) {
      forall k | k in Next(s, a).mem
        ensures Accounted(Next(s, a), k)
      {
        if ByMutator(a) {
          MutatorAccounts(s, a, k);
        } else if BySync(a) {
          SyncLoadAccounts(s, a, k);
        } else if a.Write? {
          WriteAccounts(s, a.k, a.ok, k);
        } else if a.WriteAll? {
          WriteAllAccounts(s, a.ok, k);
        } else {
          LoadAccounts(s, a, k);
        }
      }
    }
  }

  lemma SameKeys(s: State, a: Action)
    ensures Next(s, a).mem.Keys == s.mem.Keys
  {
    hide MutatorNext, SyncNext, FlusherNext;
    if !Enabled(s, a) {
    } else if ByMutator(a) {
      MutatorsKeepKeys(s, a);
    } else if BySync(a) {
      SyncsKeepKeys(s, a);
    } else {
      FlusherKeepsKeys(s, a);
    }
  }

  lemma MutatorsKeepKeys(s: State, a: Action)
    requires ByMutator(a) && Enabled(s, a)
    ensures MutatorNext(s, a).mem.Keys == s.mem.Keys
  {
  }

  lemma SyncsKeepKeys(s: State, a: Action)
    requires BySync(a) && Enabled(s, a)
    ensures SyncNext(s, a).mem == s.mem
  {
    hide Enabled, SyncHas, SyncWrote, SyncCleared;
  }

  lemma FlusherKeepsKeys(s: State, a: Action)
    requires !ByMutator(a) && !BySync(a) && Enabled(s, a)
    ensures FlusherNext(s, a).mem == s.mem
  {
    hide Enabled, Drained, Wrote, WroteAll, Remarked, Finished;
  }

  predicate NeverBreaks(s: State, acts: seq<Action>) {
    acts != [] ==> NeverBreaks(s, acts[..|acts| - 1]) && !Breaks(Run(s, acts[..|acts| - 1]), acts[|acts| - 1])
  }

  /** Every position is accounted for after each of the first n steps. */
  ghost predicate AlwaysAccounted(s: State, acts: seq<Action>, n: nat)
    requires n <= |acts|
  {
    forall i :: 0 <= i <= n ==> Shape(Run(s, acts[..i])) && AllAccounted(Run(s, acts[..i]))
  }

  /** Nothing is forgotten: over every interleaving, in every state each position whose stored values are behind
      memory is dirty, about to be marked, or in the flusher's hands, which hold no value that memory has left
      behind, exactly when no rollback comes after the flusher has loaded the counter it changes and no synchronous
      flush writes outdated values or removes a mark prematurely. */
  lemma {:induction false} NothingForgottenIff(s: State, acts: seq<Action>, n: nat)
    requires Initial(s) && n <= |acts|
    ensures AlwaysAccounted(s, acts, n) <==> NeverBreaks(s, acts[..n])
    decreases n
  {
    hide Initial, Next, Shape, AllAccounted, Breaks;
    assert acts[..0] == [];
    if n == 0 {
      InitialShape(s);
    } else {
      NothingForgottenIff(s, acts, n - 1);
      assert acts[..n][..n - 1] == acts[..n - 1];
      assert AlwaysAccounted(s, acts, n) <==>
             AlwaysAccounted(s, acts, n - 1) && Shape(Run(s, acts[..n])) && AllAccounted(Run(s, acts[..n]));
      if AlwaysAccounted(s, acts, n - 1) {
        StepAccountedIff(Run(s, acts[..n - 1]), acts[n - 1]);
      }
    }
  }

  /** An operation changes memory at once and is then about to mark the position, which makes it dirty. */
  lemma ChangesAreMarked(s: State, k: nat, v: int)
    requires k in s.mem
    ensures var t := Next(s, SetBalance(k, v)); t.mem == s.mem[k := Value(v, s.mem[k].locked)] && k in t.marking
    ensures var t := Next(s, SetLocked(k, v)); t.mem == s.mem[k := Value(s.mem[k].balance, v)] && k in t.marking
    ensures k in s.marking ==> k in Next(s, Mark(k)).dirty && k in Next(s, Mark(k)).logging
  {
    hide SyncNext, FlusherNext;
  }

  /** Only a drain or a synchronous flush can expose an operation: as long as none has come since its mark, the
      position is dirty. */
  lemma {:induction false} MarkedUntilDrained(s: State, acts: seq<Action>, k: nat)
    requires k in s.dirty && forall i :: 0 <= i < |acts| ==> !acts[i].Drain? && !acts[i].SyncClear?
    ensures k in Run(s, acts).dirty
  {
    hide Next;
    if acts != [] {
      MarkedUntilDrained(s, acts[..|acts| - 1], k);
      OnlyFlushesUnmark(Run(s, acts[..|acts| - 1]), acts[|acts| - 1]);
    }
  }

  lemma OnlyFlushesUnmark(s: State, a: Action)
    requires !a.Drain? && !a.SyncClear?
    ensures s.dirty <= Next(s, a).dirty
  {
    hide Enabled, MutatorNext, SyncNext, FlusherNext;
    if !Enabled(s, a) {
    } else if ByMutator(a) {
      MutatorKeepsMarks(s, a);
    } else if BySync(a) {
      SyncKeepsMarks(s, a);
    } else {
      FlusherKeepsMarks(s, a);
    }
  }

  lemma MutatorKeepsMarks(s: State, a: Action)
    requires ByMutator(a) && Enabled(s, a)
    ensures s.dirty <= MutatorNext(s, a).dirty
  {
  }

  lemma SyncKeepsMarks(s: State, a: Action)
    requires BySync(a) && Enabled(s, a) && !a.SyncClear?
    ensures s.dirty == SyncNext(s, a).dirty
  {
    match a
    case SyncStart(_, _) =>
    case SyncBalance(_) =>
    case SyncLocked(_) =>
    case SyncWrite(_, _) =>
  }

  lemma FlusherKeepsMarks(s: State, a: Action)
    requires !ByMutator(a) && !BySync(a) && Enabled(s, a) && !a.Drain?
    ensures s.dirty <= FlusherNext(s, a).dirty
  {
  }

  // ---- When a synchronous flush is harmless ----

  /** The step is not another's write to position k and not a drain. */
  predicate LeavesAlone(a: Action, id: nat, k: nat) {
    match a
    case SetBalance(j, _) => j != k
    case SetLocked(j, _) => j != k
    case RollBack(j, _, _) => j != k
    case SyncStart(other, _) => other != id
    case SyncWrite(other, _) => other == id
    case Drain(_) => false
    case _ => true
  }

  /** The synchronous flush has loaded, and then written, what memory holds. */
  predicate UpToDate(s: State, id: nat, k: nat) {
    && k in s.mem && k in s.store && k !in s.hands
    && (id in s.syncs ==>
          && s.syncs[id].k == k && Brings(s.syncs[id].hand, s.mem[k])
          && (s.syncs[id].written ==> s.store[k] == s.mem[k]))
  }

  lemma AloneStep(s: State, a: Action, id: nat, k: nat)
    requires UpToDate(s, id, k) && LeavesAlone(a, id, k)
    ensures UpToDate(Next(s, a), id, k)
  {
    hide MutatorNext, SyncNext, FlusherNext;
    if !Enabled(s, a) {
    } else if ByMutator(a) {
      AloneMutator(s, a, id, k);
    } else if BySync(a) {
      AloneSync(s, a, id, k);
    } else {
      AloneFlusher(s, a, id, k);
    }
  }

  lemma AloneMutator(s: State, a: Action, id: nat, k: nat)
    requires UpToDate(s, id, k) && LeavesAlone(a, id, k) && ByMutator(a) && Enabled(s, a)
    ensures UpToDate(MutatorNext(s, a), id, k)
  {
  }

  lemma AloneSync(s: State, a: Action, id: nat, k: nat)
    requires UpToDate(s, id, k) && LeavesAlone(a, id, k) && BySync(a) && Enabled(s, a)
    ensures UpToDate(SyncNext(s, a), id, k)
  {
    match a
    case SyncStart(_, _) =>
    case SyncBalance(_) =>
    case SyncLocked(_) =>
    case SyncWrite(_, _) =>
    case SyncClear(_) =>
  }

  lemma AloneFlusher(s: State, a: Action, id: nat, k: nat)
    requires UpToDate(s, id, k) && LeavesAlone(a, id, k) && !ByMutator(a) && !BySync(a) && Enabled(s, a)
    ensures UpToDate(FlusherNext(s, a), id, k)
  {
  }

  lemma {:induction false} AloneRun(s: State, acts: seq<Action>, id: nat, k: nat)
    requires UpToDate(s, id, k) && forall i :: 0 <= i < |acts| ==> LeavesAlone(acts[i], id, k)
    ensures UpToDate(Run(s, acts), id, k)
  {
    hide Next, UpToDate, LeavesAlone;
    if acts != [] {
      AloneRun(s, acts[..|acts| - 1], id, k);
      AloneStep(Run(s, acts[..|acts| - 1]), acts[|acts| - 1], id, k);
    }
  }

  /** A synchronous flush breaks nothing, at any moment of a run in which nobody else writes its position and the
      flusher does not take it. */
  lemma SyncAloneIsHarmless(s: State, acts: seq<Action>, id: nat, k: nat, ok: bool)
    requires Shape(s) && k in s.mem && k !in s.hands && id in s.syncs && s.syncs[id] == Sync(k, Unread, false)
    requires forall i :: 0 <= i < |acts| ==> LeavesAlone(acts[i], id, k)
    ensures !Breaks(Run(s, acts), SyncWrite(id, ok)) && !Breaks(Run(s, acts), SyncClear(id))
  {
    hide Run, LeavesAlone;
    AloneRun(s, acts, id, k);
  }

  /** A non-zero failure count between cycles leaves the dirty set non-empty, unless a synchronous flush has
      emptied it. */
  lemma FailuresLeaveWork(s: State, acts: seq<Action>)
    requires Initial(s) && NeverStrands(s, acts)
    ensures var e := Run(s, acts); !e.flushing && e.failures > 0 ==> e.dirty != {}
  {
    hide Initial, Run, AnyFailed, NeverStrands;
    FailuresTrackedIff(s, acts);
  }

  // ---- The failure count ----

  /** A write that the store refuses. */
  predicate Refuses(s: State, a: Action) {
    Enabled(s, a) && ((a.Write? && !a.ok) || (a.WriteAll? && !a.ok))
  }

  predicate Begins(s: State, a: Action) {
    a.Drain? && !s.flushing && s.dirty != {}
  }

  /** Some write has been refused since the last cycle began. */
  predicate CycleFailed(s: State, acts: seq<Action>) {
    if acts == [] then false
    else
      var init, a := acts[..|acts| - 1], acts[|acts| - 1];
      Refuses(Run(s, init), a) || (!Begins(Run(s, init), a) && CycleFailed(s, init))
  }

  /** How the completed cycles of a run went, in order. */
  function Cycles(s: State, acts: seq<Action>): seq<bool> {
    if acts == [] then []
    else
      var init, a := acts[..|acts| - 1], acts[|acts| - 1];
      Cycles(s, init) + if Ends(Run(s, init), a) then [!CycleFailed(s, init)] else []
  }

  /** Length of the run of failed cycles at the end. */
  function Trailing(cycles: seq<bool>): nat {
    if cycles == [] || cycles[|cycles| - 1] then 0 else 1 + Trailing(cycles[..|cycles| - 1])
  }

  lemma TrailingAppend(cycles: seq<bool>, ok: bool)
    ensures Trailing(cycles + [ok]) == if ok then 0 else Trailing(cycles) + 1
  {
    assert (cycles + [ok])[..|cycles|] == cycles;
  }

  predicate Ends(s: State, a: Action) {
    a.Finish? && Enabled(s, a)
  }

  /** What a step does to the flusher's own record of its cycle. */
  ghost predicate CountMoves(s: State, a: Action, t: State) {
    && (Ends(s, a) ==> s.flushing && !t.flushing)
    && (s.flushing && !Ends(s, a) ==> t.flushing && (t.error <==> s.error || Refuses(s, a)))
    && (!s.flushing ==> (t.flushing <==> Begins(s, a)) && (t.flushing ==> !t.error && !Refuses(s, a)))
    && t.failures == if Ends(s, a) then if s.error then s.failures + 1 else 0 else s.failures
  }

  lemma OthersCount(s: State, a: Action)
    requires (ByMutator(a) || BySync(a)) && Enabled(s, a)
    ensures CountMoves(s, a, Next(s, a))
  {
    hide MutatorNext, SyncNext, FlusherNext, Enabled;
    if ByMutator(a) {
      MutatorsCount(s, a);
    } else {
      SyncsCount(s, a);
    }
  }

  predicate SameCycle(s: State, t: State) {
    s.flushing == t.flushing && s.error == t.error && s.failures == t.failures
  }

  lemma MutatorsCount(s: State, a: Action)
    requires ByMutator(a) && Enabled(s, a)
    ensures SameCycle(s, MutatorNext(s, a))
  {
  }

  lemma SyncsCount(s: State, a: Action)
    requires BySync(a) && Enabled(s, a)
    ensures SameCycle(s, SyncNext(s, a))
  {
  }

  lemma FlusherCounts(s: State, a: Action)
    requires !ByMutator(a) && !BySync(a) && Enabled(s, a)
    ensures CountMoves(s, a, Next(s, a))
  {
    hide MutatorNext, SyncNext;
    match a
    case Drain(_) =>
    case LoadBalance(_) =>
    case LoadLocked(_) =>
    case Write(_, _) =>
    case WriteAll(_) =>
    case Remark(_) =>
    case Finish =>
  }

  lemma CountStep(s: State, a: Action)
    ensures CountMoves(s, a, Next(s, a))
  {
    hide MutatorNext, SyncNext, FlusherNext;
    if !Enabled(s, a) {
    } else if ByMutator(a) || BySync(a) {
      OthersCount(s, a);
    } else {
      FlusherCounts(s, a);
    }
  }

  /** In every run the failure count is the trailing run of completed cycles in which a write was refused. */
  lemma {:induction false} FailuresAreTrailing(s: State, acts: seq<Action>)
    requires Initial(s)
    ensures var e := Run(s, acts);
            e.failures == Trailing(Cycles(s, acts)) && (e.flushing ==> (e.error <==> CycleFailed(s, acts)))
  {
    hide Initial, Next, Ends, Trailing, Refuses;
    if acts == [] {
      InitialCount(s);
    } else {
      var init, a := acts[..|acts| - 1], acts[|acts| - 1];
      FailuresAreTrailing(s, init);
      CountStep(Run(s, init), a);
      TrailingAppend(Cycles(s, init), !CycleFailed(s, init));
      assert Cycles(s, init) + [] == Cycles(s, init);
    }
  }

  lemma InitialCount(s: State)
    requires Initial(s)
    ensures s.failures == Trailing([]) && !s.flushing
  {
  }

  // ---- Clean cycles ----

  /** The flusher at work, with every write succeeding. */
  predicate Clean(a: Action) {
    a.Drain? || a.LoadBalance? || a.LoadLocked? || (a.Write? && a.ok) || (a.WriteAll? && a.ok) || a.Finish?
  }

  /** From the start of a clean cycle on. */
  ghost predicate Cleaning(start: State, s: State) {
    && s.mem == start.mem && s.marking == start.marking && start.cycles <= s.cycles
    && (s.cycles == start.cycles && !s.flushing ==> s == start)
    && (s.flushing ==> s.dirty == {} && !s.error)
    && (s.cycles > start.cycles ==> s.dirty == {} && s.failures == 0)
    && s.hands.Keys <= start.dirty
    && forall k :: k in start.store && k !in start.dirty ==> k in s.store && s.store[k] == start.store[k]
  }

  lemma CleaningStep(start: State, s: State, a: Action)
    requires Cleaning(start, s) && Clean(a) && (!s.flushing ==> s.hands == map[])
    ensures Cleaning(start, Next(s, a))
  {
  }

  lemma {:induction false} CleaningRun(start: State, acts: seq<Action>)
    requires Shape(start) && !start.flushing && forall i :: 0 <= i < |acts| ==> Clean(acts[i])
    ensures Cleaning(start, Run(start, acts)) && Shape(Run(start, acts))
    ensures AllAccounted(start) ==> AllAccounted(Run(start, acts))
  {
    hide Next, Clean, AllAccounted, Cleaning;
    if acts == [] {
      CleaningStart(start);
    } else {
      var before, last := Run(start, acts[..|acts| - 1]), acts[|acts| - 1];
      CleaningRun(start, acts[..|acts| - 1]);
      CleaningStep(start, before, last);
      StepShape(before, last);
      if AllAccounted(start) {
        CleanIsFlusher(last);
        OthersAccount(before, last);
      }
    }
  }

  lemma CleanIsFlusher(a: Action)
    requires Clean(a)
    ensures !ByMutator(a) && !BySync(a)
  {
  }

  lemma CleaningStart(start: State)
    requires !start.flushing && start.hands == map[]
    ensures Cleaning(start, start)
  {
  }

  /** With nothing under way, accounted for means stored or dirty. */
  lemma QuietAccounted(q: State)
    requires Shape(q) && q.marking == multiset{} && !q.flushing
    ensures AllAccounted(q) <==> forall k :: k in q.mem ==> k in q.dirty || q.store[k] == q.mem[k]
  {
    hide AnyFailed;
  }

  /** From whatever state the interleaving has reached, with no mutator under way, the next completed clean
      cycle resets the failure count, which reopens Reserve, and makes the store equal to memory exactly when
      every position was accounted for; so whenever no step has broken that. */
  lemma CleanFlushCatchesUp(s: State, acts: seq<Action>, flush: seq<Action>)
    requires Initial(s)
    requires var q := Run(s, acts); q.marking == multiset{} && !q.flushing
    requires forall i :: 0 <= i < |flush| ==> Clean(flush[i])
    requires var q, e := Run(s, acts), Run(Run(s, acts), flush); !e.flushing && e.cycles > q.cycles
    ensures var e := Run(Run(s, acts), flush); e.failures == 0 && e.dirty == {}
    ensures Shape(Run(s, acts))
    ensures var q, e := Run(s, acts), Run(Run(s, acts), flush); e.store == e.mem <==> AllAccounted(q)
    ensures var e := Run(Run(s, acts), flush); NeverBreaks(s, acts) ==> e.store == e.mem
  {
    hide Initial, Run, Clean, NeverBreaks, AllAccounted, AnyFailed;
    var q, e := Run(s, acts), Run(Run(s, acts), flush);
    RunShape(s, acts);
    CleaningRun(q, flush);
    QuietAccounted(q);
    QuietAccounted(e);
    if AllAccounted(q) {
      assert e.store == e.mem;
    } else {
      var k :| k in q.mem && k !in q.dirty && q.store[k] != q.mem[k];
      assert e.store[k] != e.mem[k];
    }
    if NeverBreaks(s, acts) {
      RunAccounted(s, acts);
    }
  }

  lemma RunAccounted(s: State, acts: seq<Action>)
    requires Initial(s) && NeverBreaks(s, acts)
    ensures Shape(Run(s, acts)) && AllAccounted(Run(s, acts))
  {
    hide Initial, Run, NeverBreaks, AllAccounted, Shape;
    assert acts[..|acts|] == acts;
    NothingForgottenIff(s, acts, |acts|);
  }

  /** When no cycle can complete there is nothing to do: an empty dirty set means that no failure is counted,
      unless a synchronous flush emptied it, and that store and memory agree unless some step broke that. */
  lemma NothingDirtyIsCaughtUp(s: State, acts: seq<Action>)
    requires Initial(s)
    requires var q := Run(s, acts); q.marking == multiset{} && !q.flushing && q.dirty == {}
    ensures NeverStrands(s, acts) ==> Run(s, acts).failures == 0
    ensures Shape(Run(s, acts))
    ensures var q := Run(s, acts); q.store == q.mem <==> AllAccounted(q)
    ensures NeverBreaks(s, acts) ==> Run(s, acts).store == Run(s, acts).mem
  {
    hide Initial, Run, NeverBreaks, NeverStrands, AllAccounted, AnyFailed;
    var q := Run(s, acts);
    RunShape(s, acts);
    QuietAccounted(q);
    if NeverStrands(s, acts) {
      FailuresLeaveWork(s, acts);
    }
    if NeverBreaks(s, acts) {
      RunAccounted(s, acts);
    }
  }

  // ---- A cycle can always be completed ----

  lemma {:induction false} RunTwice(s: State, acts: seq<Action>, more: seq<Action>)
    ensures Run(s, acts + more) == Run(Run(s, acts), more)
  {
    hide Next;
    if more == [] {
      assert acts + more == acts;
    } else {
      var n := |more| - 1;
      RunTwice(s, acts, more[..n]);
      assert (acts + more)[..|acts| + n] == acts + more[..n];
    }
  }

  ghost predicate AllClean(acts: seq<Action>) {
    forall i :: 0 <= i < |acts| ==> Clean(acts[i])
  }

  /** The hand of k once both counters are loaded. */
  function Full(s: State, k: nat): Hand
    requires k in s.hands && k in s.mem
  {
    match s.hands[k]
    case Unread => Have(s.mem[k].balance, s.mem[k].locked)
    case HaveBalance(b) => Have(b, s.mem[k].locked)
    case h => h
  }

  lemma LoadsOne(s: State, k: nat)
    requires k in s.hands && k in s.mem
    ensures Next(Next(s, LoadBalance(k)), LoadLocked(k)) == s.(hands := s.hands[k := Full(s, k)])
  {
    hide MutatorNext, SyncNext;
    var t := Next(s, LoadBalance(k));
    assert s.hands[k].Unread? ==> t.hands[k := Full(s, k)] == s.hands[k := Full(s, k)];
    assert !s.hands[k].Unread? ==> t == s;
    assert s.hands[k := s.hands[k]] == s.hands;
  }

  lemma {:induction false} LoadAll(s: State, ks: set<nat>) returns (acts: seq<Action>)
    requires Shape(s) && ks <= s.hands.Keys
    ensures AllClean(acts)
    ensures var e := Run(s, acts);
            && e == s.(hands := e.hands) && e.hands.Keys == s.hands.Keys
            && (forall k :: k in s.hands ==> e.hands[k] == if k in ks then Full(s, k) else s.hands[k])
    decreases ks
  {
    hide Run, Next;
    if ks == {} {
      acts := [];
      RunNothing(s);
    } else {
      var k :| k in ks;
      var before := LoadAll(s, ks - {k});
      var b := Run(s, before);
      acts := before + [LoadBalance(k)] + [LoadLocked(k)];
      RunStep(s, before, LoadBalance(k));
      RunStep(s, before + [LoadBalance(k)], LoadLocked(k));
      LoadsOne(b, k);
    }
  }

  /** Hands that failed are marked again. */
  lemma {:induction false} RemarkAll(s: State, ks: set<nat>) returns (acts: seq<Action>)
    requires ks <= s.hands.Keys && forall k :: k in ks ==> s.hands[k].Failed?
    ensures ks == {} ==> acts == []
    ensures Run(s, acts) == s.(dirty := s.dirty + ks, hands := s.hands - ks)
    decreases ks
  {
    hide Run, Next;
    if ks == {} {
      acts := [];
      RunNothing(s);
      assert s.dirty + ks == s.dirty && s.hands - ks == s.hands;
    } else {
      var k :| k in ks;
      var before := RemarkAll(s, ks - {k});
      acts := before + [Remark(k)];
      RunStep(s, before, Remark(k));
      RemarksOne(Run(s, before), k);
      assert s.dirty + (ks - {k}) + {k} == s.dirty + ks && s.hands - (ks - {k}) - {k} == s.hands - ks;
    }
  }

  lemma RemarksOne(s: State, k: nat)
    requires k in s.hands && s.hands[k].Failed?
    ensures Next(s, Remark(k)) == s.(dirty := s.dirty + {k}, hands := s.hands - {k})
  {
    hide MutatorNext, SyncNext;
  }

  lemma {:induction false} WriteEach(s: State, ks: set<nat>) returns (acts: seq<Action>)
    requires !s.batch && ks <= s.hands.Keys && forall k :: k in ks ==> s.hands[k].Have?
    ensures AllClean(acts)
    ensures var e := Run(s, acts); e == s.(store := e.store, hands := s.hands - ks)
    decreases ks
  {
    hide Run, Next;
    if ks == {} {
      acts := [];
      RunNothing(s);
      assert s.hands - ks == s.hands;
    } else {
      var k :| k in ks;
      var before := WriteEach(s, ks - {k});
      var b := Run(s, before);
      acts := before + [Write(k, true)];
      RunStep(s, before, Write(k, true));
      WritesOne(b, k);
      assert s.hands - (ks - {k}) - {k} == s.hands - ks;
    }
  }

  lemma WritesOne(s: State, k: nat)
    requires !s.batch && k in s.hands && s.hands[k].Have?
    ensures var e := Next(s, Write(k, true)); e == s.(store := e.store, hands := s.hands - {k})
  {
    hide MutatorNext, SyncNext;
  }

  /** Everything in hand can be written. */
  lemma WriteOut(s: State) returns (acts: seq<Action>)
    requires forall k :: k in s.hands ==> s.hands[k].Have?
    ensures AllClean(acts)
    ensures var e := Run(s, acts); e == s.(store := e.store, hands := map[])
  {
    hide Run, Next;
    if s.hands == map[] {
      acts := [];
      RunNothing(s);
    } else if s.batch {
      acts := [] + [WriteAll(true)];
      RunNothing(s);
      RunStep(s, [], WriteAll(true));
      WritesAll(s);
    } else {
      acts := WriteEach(s, s.hands.Keys);
      assert s.hands - s.hands.Keys == map[];
    }
  }

  lemma WritesAll(s: State)
    requires s.batch && s.hands != map[] && forall k :: k in s.hands ==> s.hands[k].Have?
    ensures var e := Next(s, WriteAll(true)); e == s.(store := e.store, hands := map[])
  {
    hide MutatorNext, SyncNext;
  }

  lemma Finishes(s: State)
    requires s.flushing && s.hands == map[]
    ensures var e := Next(s, Finish); !e.flushing && e.cycles > s.cycles && e.hands == map[]
  {
    hide MutatorNext, SyncNext;
  }

  /** Both counters of everything in hand can be loaded. */
  lemma LoadOut(s: State) returns (acts: seq<Action>)
    requires Shape(s) && s.flushing
    ensures AllClean(acts)
    ensures var e := Run(s, acts);
            && e.flushing && e.cycles == s.cycles
            && (forall k :: k in e.hands ==> e.hands[k].Have? || e.hands[k].Failed?)
            && (AnyFailed(e) ==> AnyFailed(s))
  {
    hide Run, Next;
    acts := LoadAll(s, s.hands.Keys);
  }

  /** What was refused is marked again and the rest can be written. */
  lemma PutAway(s: State) returns (acts: seq<Action>)
    requires s.flushing && forall k :: k in s.hands ==> s.hands[k].Have? || s.hands[k].Failed?
    ensures !AnyFailed(s) ==> AllClean(acts)
    ensures var e := Run(s, acts); e.flushing && e.cycles == s.cycles && e.hands == map[]
  {
    hide Run, Next, AllClean;
    var failed := set k | k in s.hands && s.hands[k].Failed?;
    var remarks := RemarkAll(s, failed);
    var writes := WriteOut(Run(s, remarks));
    RunTwice(s, remarks, writes);
    acts := remarks + writes;
    if !AnyFailed(s) {
      assert failed == {};
      assert [] + writes == writes;
    }
  }

  /** A cycle under way can be completed with the store accepting every write; cleanly, if none was refused so far. */
  lemma EndCycle(s: State) returns (acts: seq<Action>)
    requires Shape(s) && s.flushing
    ensures var e := Run(s, acts); !e.flushing && e.cycles > s.cycles && e.hands == map[]
    ensures !AnyFailed(s) ==> AllClean(acts)
  {
    hide Run, Next, Shape, AnyFailed;
    var loads := LoadOut(s);
    var puts := PutAway(Run(s, loads));
    acts := loads + puts + [Finish];
    RunTwice(s, loads, puts);
    RunStep(s, loads + puts, Finish);
    Finishes(Run(s, loads + puts));
  }

  /** From every reachable state the flusher can end its cycle; and from one between cycles with something dirty it can
      complete a clean one, after which, with mutators quiet, CleanFlushCatchesUp applies. */
  lemma CycleCanComplete(s: State, acts: seq<Action>) returns (more: seq<Action>)
    requires Initial(s) && (Run(s, acts).flushing || Run(s, acts).dirty != {})
    ensures var q, e := Run(s, acts), Run(Run(s, acts), more);
            && !e.flushing && e.cycles > q.cycles
            && (!q.flushing ==> forall i :: 0 <= i < |more| ==> Clean(more[i]))
  {
    hide Run, Next, Shape, Initial;
    var q := Run(s, acts);
    RunShape(s, acts);
    if q.flushing {
      more := EndCycle(q);
    } else {
      DrainBegins(q);
      RunNothing(q);
      RunStep(q, [], Drain(true));
      StepShape(q, Drain(true));
      var rest := EndCycle(Next(q, Drain(true)));
      RunTwice(q, [] + [Drain(true)], rest);
      more := [] + [Drain(true)] + rest;
    }
  }

  lemma DrainBegins(s: State)
    requires !s.flushing && s.dirty != {}
    ensures var t := Next(s, Drain(true)); t.flushing && t.cycles == s.cycles && !AnyFailed(t)
  {
    hide MutatorNext, SyncNext;
  }

  /** A synchronous flush that the store refuses is over and has changed nothing else. */
  lemma RefusedSyncChangesNothing(s: State, id: nat)
    requires Enabled(s, SyncWrite(id, false))
    ensures Next(s, SyncWrite(id, false)) == s.(syncs := s.syncs - {id})
  {
    hide MutatorNext, FlusherNext;
  }

  // ---- A forgotten rollback ----

  lemma RunStep(s: State, acts: seq<Action>, a: Action)
    ensures Run(s, acts + [a]) == Next(Run(s, acts), a)
  {
    assert (acts + [a])[..|acts|] == acts;
  }

  /** A credit that is flushed while its log write is under way, and then rolled back, stays in the store:
      nothing is dirty, nothing is under way, and a restart would load it. */
  lemma RolledBackCreditIsKept() returns (s: State, acts: seq<Action>)
    ensures Initial(s)
    ensures var e := Run(s, acts);
            && e.dirty == {} && e.marking == multiset{} && e.logging == multiset{} && e.hands == map[] && !e.flushing
            && e.mem == map[1 := Value(10, 0)] && e.store == map[1 := Value(15, 0)]
  {
    hide Run, Next;
    s := State(map[1 := Value(10, 0)], map[1 := Value(10, 0)], {}, multiset{}, multiset{}, map[], map[], false, false,
      false, 0, 0);
    var a1 := [] + [SetBalance(1, 15)] + [Mark(1)];
    var a2 := a1 + [Drain(false)] + [LoadBalance(1)];
    var a3 := a2 + [LoadLocked(1)] + [Write(1, true)];
    acts := a3 + [Finish] + [RollBack(1, -5, 0)];
    RunNothing(s);
    RunStep(s, [], SetBalance(1, 15));
    RunStep(s, [] + [SetBalance(1, 15)], Mark(1));
    RunStep(s, a1, Drain(false));
    RunStep(s, a1 + [Drain(false)], LoadBalance(1));
    RunStep(s, a2, LoadLocked(1));
    RunStep(s, a2 + [LoadLocked(1)], Write(1, true));
    RunStep(s, a3, Finish);
    RunStep(s, a3 + [Finish], RollBack(1, -5, 0));
    Credited(s);
    Loaded(Run(s, a1));
    Stored(Run(s, a2));
    Undone(Run(s, a3));
  }

  /** A credit that lands while a large reservation flushes its position synchronously is not stored: the flush
      writes what it loaded before and then removes the mark of the credit. Nothing is dirty or under way, and a
      restart would lose the credit. */
  lemma SyncFlushLosesCredit() returns (s: State, acts: seq<Action>)
    ensures Initial(s)
    ensures var e := Run(s, acts);
            && e.dirty == {} && e.marking == multiset{} && e.logging == multiset{} && e.syncs == map[]
            && e.hands == map[] && !e.flushing
            && e.mem == map[1 := Value(15, 0)] && e.store == map[1 := Value(10, 0)]
  {
    hide Run, Next;
    s := State(map[1 := Value(10, 0)], map[1 := Value(10, 0)], {}, multiset{}, multiset{}, map[], map[], false, false,
      false, 0, 0);
    var a1 := [] + [SyncStart(0, 1)] + [SyncBalance(0)] + [SyncLocked(0)];
    var a2 := a1 + [SetBalance(1, 15)] + [Mark(1)];
    acts := a2 + [Logged(1)] + [SyncWrite(0, true)] + [SyncClear(0)];
    RunNothing(s);
    RunStep(s, [], SyncStart(0, 1));
    RunStep(s, [] + [SyncStart(0, 1)], SyncBalance(0));
    RunStep(s, [] + [SyncStart(0, 1)] + [SyncBalance(0)], SyncLocked(0));
    RunStep(s, a1, SetBalance(1, 15));
    RunStep(s, a1 + [SetBalance(1, 15)], Mark(1));
    RunStep(s, a2, Logged(1));
    RunStep(s, a2 + [Logged(1)], SyncWrite(0, true));
    RunStep(s, a2 + [Logged(1)] + [SyncWrite(0, true)], SyncClear(0));
    SyncLoads(s);
    Credited(Run(s, a1));
    CreditLogged(Run(s, a2));
    SyncEnds(Run(s, a2 + [Logged(1)]));
  }

  /** What the one synchronous flush of the run has in hand. */
  function OneSync(hand: Hand, written: bool): map<nat, Sync> {
    map[0 := Sync(1, hand, written)]
  }

  lemma SyncMoves(hand: Hand, next: Hand)
    ensures OneSync(hand, false)[0 := Sync(1, next, false)] == OneSync(next, false)
    ensures OneSync(hand, false)[0 := Sync(1, hand, true)] == OneSync(hand, true)
    ensures OneSync(hand, true) - {0} == map[]
  {
  }

  lemma SyncLoads(s: State)
    requires s.mem == map[1 := Value(10, 0)] && s.syncs == map[]
    ensures Next(Next(Next(s, SyncStart(0, 1)), SyncBalance(0)), SyncLocked(0)) ==
            s.(syncs := OneSync(Have(10, 0), false))
  {
    hide MutatorNext, FlusherNext;
    assert Next(s, SyncStart(0, 1)) == s.(syncs := OneSync(Unread, false));
    SyncMoves(Unread, HaveBalance(10));
    SyncMoves(HaveBalance(10), Have(10, 0));
  }

  lemma CreditLogged(s: State)
    requires s.logging == multiset{1}
    ensures Next(s, Logged(1)) == s.(logging := multiset{})
  {
    hide SyncNext, FlusherNext;
  }

  lemma SyncEnds(s: State)
    requires s.syncs == OneSync(Have(10, 0), false) && s.store == map[1 := Value(10, 0)] && s.dirty == {1}
    ensures Next(Next(s, SyncWrite(0, true)), SyncClear(0)) == s.(syncs := map[], dirty := {})
  {
    hide MutatorNext, FlusherNext;
    SyncMoves(Have(10, 0), Have(10, 0));
    assert s.store[1 := Value(10, 0)] == s.store;
    var t := Next(s, SyncWrite(0, true));
    assert t == s.(syncs := OneSync(Have(10, 0), true));
    assert {1} - {1} == {};
  }

  lemma RunNothing(s: State)
    ensures Run(s, []) == s
  {
  }

  lemma Credited(s: State)
    requires s.mem == map[1 := Value(10, 0)] && s.dirty == {} && s.marking == multiset{} && s.logging == multiset{}
    ensures Next(Next(s, SetBalance(1, 15)), Mark(1)) ==
              s.(mem := map[1 := Value(15, 0)], dirty := {1}, logging := multiset{1})
  {
    hide SyncNext, FlusherNext;
    var t := Next(s, SetBalance(1, 15));
    assert t == s.(mem := map[1 := Value(15, 0)], marking := multiset{1});
    assert t.marking - multiset{1} == multiset{} && t.logging + multiset{1} == multiset{1} && t.dirty + {1} == {1};
  }

  lemma Loaded(s: State)
    requires s.mem == map[1 := Value(15, 0)] && s.dirty == {1} && !s.flushing
    ensures Next(Next(s, Drain(false)), LoadBalance(1)) ==
            s.(dirty := {}, hands := map[1 := HaveBalance(15)], flushing := true, batch := false, error := false)
  {
    hide MutatorNext, SyncNext;
    var t := Next(s, Drain(false));
    assert t.hands == map[1 := Unread];
    assert t.hands[1 := HaveBalance(15)] == map[1 := HaveBalance(15)];
  }

  lemma Stored(s: State)
    requires s.mem == map[1 := Value(15, 0)] && s.hands == map[1 := HaveBalance(15)] && !s.batch
    requires s.store == map[1 := Value(10, 0)]
    ensures Next(Next(s, LoadLocked(1)), Write(1, true)) == s.(store := map[1 := Value(15, 0)], hands := map[])
  {
    hide MutatorNext, SyncNext;
    var t := Next(s, LoadLocked(1));
    assert t.hands == map[1 := Have(15, 0)];
    assert t.hands - {1} == map[] && t.store[1 := Value(15, 0)] == map[1 := Value(15, 0)];
  }

  lemma Undone(s: State)
    requires s.mem == map[1 := Value(15, 0)] && s.hands == map[] && s.flushing && s.logging == multiset{1}
    ensures var e := Next(Next(s, Finish), RollBack(1, -5, 0));
            && e.mem == map[1 := Value(10, 0)] && e.logging == multiset{} && !e.flushing
            && e.store == s.store && e.dirty == s.dirty && e.marking == s.marking && e.hands == s.hands
  {
    var t := Next(s, Finish);
    assert t.mem[1 := Value(10, 0)] == map[1 := Value(10, 0)];
  }
}
