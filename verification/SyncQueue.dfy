/** The TigerBeetle-to-Postgres sync consumer (ledger/sync.go): first the consumer object with its
    loops, then every interleaving of producers with the consumer goroutine. */
module SyncQueue {

  lemma PrefixBag(xs: seq<nat>, n: nat)
    requires n < |xs|
    ensures multiset(xs[..n + 1]) == multiset(xs[..n]) + multiset{xs[n]}
  {
    assert xs[..n + 1] == xs[..n] + [xs[n]];
  }

  lemma WholeBag(xs: seq<nat>)
    ensures multiset(xs[..|xs|]) == multiset(xs) && multiset(xs[..0]) == multiset{}
  {
    assert xs[..|xs|] == xs;
  }

  lemma AppendBag(xs: seq<nat>, x: nat)
    ensures multiset(xs + [x]) == multiset(xs) + multiset{x}
  {
  }

  lemma NoneBag(xs: seq<nat>)
    ensures multiset(xs[..0]) == multiset{}
  {
    assert xs[..0] == [];
  }

  lemma PassBag(before: multiset<nat>, synced: multiset<nat>, failed: multiset<nat>, done: multiset<nat>, x: nat)
    requires synced + failed == before + done
    ensures (synced + multiset{x}) + failed == before + (done + multiset{x})
    ensures synced + (failed + multiset{x}) == before + (done + multiset{x})
  {
    assert (synced + multiset{x}) + failed == (synced + failed) + multiset{x};
    assert synced + (failed + multiset{x}) == (synced + failed) + multiset{x};
    assert before + (done + multiset{x}) == (before + done) + multiset{x};
  }

  lemma Regroup(a: multiset<nat>, b: multiset<nat>, c: multiset<nat>)
    ensures (a + b) + c == a + (b + c)
  {
  }

  /** The first n entries whose writes fail, in order. */
  function FailedOf(entries: seq<nat>, ok: nat -> bool, n: nat): seq<nat>
    requires n <= |entries|
  {
    if n == 0 then [] else FailedOf(entries, ok, n - 1) + if ok(n - 1) then [] else [entries[n - 1]]
  }

  /** What is still failing after the given number of further passes. */
  function FailedAfter(batch: seq<nat>, ok: (nat, nat) -> bool, passes: nat): seq<nat> {
    if passes == 0 then batch
    else
      var before := FailedAfter(batch, ok, passes - 1);
      FailedOf(before, Pass(ok, passes - 1), |before|)
  }

  /** The results of one pass. */
  function Pass(ok: (nat, nat) -> bool, r: nat): nat -> bool {
    (i: nat) => ok(r, i)
  }

  lemma FailedNext(entries: seq<nat>, ok: nat -> bool, n: nat)
    requires n < |entries|
    ensures FailedOf(entries, ok, n + 1) == if ok(n) then FailedOf(entries, ok, n)
              else FailedOf(entries, ok, n) + [entries[n]]
  {
  }

  lemma NoneFailed(entries: seq<nat>, ok: nat -> bool)
    ensures FailedOf(entries, ok, 0) == []
  {
  }

  lemma PassNext(batch: seq<nat>, ok: (nat, nat) -> bool, r: nat)
    ensures FailedAfter(batch, ok, 0) == batch
    ensures var before := FailedAfter(batch, ok, r);
            FailedAfter(batch, ok, r + 1) == FailedOf(before, Pass(ok, r), |before|)
  {
  }

  /** The consumer's own operations, run without interference. Entries are known by ID. */
  class SyncConsumer {
    const capacity: nat
    var queue: seq<nat>
    var droppedTotal: nat
    var syncFailedTotal: nat
    ghost var synced: multiset<nat>
    ghost var dropped: multiset<nat>

    ghost predicate Valid()
      reads this
    {
      |queue| <= capacity && droppedTotal == |dropped|
    }

    /** Where every entry handed to the consumer is. */
    ghost function Held(): multiset<nat>
      reads this
    {
      synced + multiset(queue) + dropped
    }

    /** A non-positive size means the default. */
    constructor (queueSize: int)
      ensures Valid() && capacity > 0 && (queueSize > 0 ==> capacity == queueSize)
                && (queueSize <= 0 ==> capacity == 50000)
      ensures queue == [] && Held() == multiset{} && droppedTotal == 0 && syncFailedTotal == 0
    {
      capacity := if queueSize <= 0 then 50000 else queueSize;
      queue, droppedTotal, syncFailedTotal := [], 0, 0;
      synced, dropped := multiset{}, multiset{};
    }

    /** Non-blocking: a full queue drops the entry and counts it. */
    method Enqueue(entry: nat)
      requires Valid()
      modifies this
      ensures Valid() && Held() == old(Held()) + multiset{entry}
      ensures old(|queue|) < capacity ==> queue == old(queue) + [entry] && droppedTotal == old(droppedTotal)
      ensures old(|queue|) == capacity ==> queue == old(queue) && dropped == old(dropped) + multiset{entry}
      ensures synced == old(synced) && syncFailedTotal == old(syncFailedTotal)
      ensures old(queue) <= queue && |queue| + droppedTotal == old(|queue| + droppedTotal) + 1
    {
      if |queue| < capacity {
        queue := queue + [entry];
      } else {
        droppedTotal := droppedTotal + 1;
        dropped := dropped + multiset{entry};
      }
    }

    /** One pass over a list: `ok` says which Postgres writes succeed. */
    method Attempt(entries: seq<nat>, ok: nat -> bool) returns (failed: seq<nat>)
      requires Valid()
      modifies this`synced
      ensures Valid()
      ensures synced + multiset(failed) == old(synced) + multiset(entries)
      ensures |failed| <= |entries|
      ensures failed == FailedOf(entries, ok, |entries|)
      ensures (forall i :: 0 <= i < |entries| ==> ok(i)) ==> failed == []
    {
      hide FailedOf;
      failed := [];
      assert FailedOf(entries, ok, 0) == [] by { NoneFailed(entries, ok); }
      for n := 0 to |entries|
        invariant Valid() && |failed| <= n && failed == FailedOf(entries, ok, n)
        invariant synced + multiset(failed) == old(synced) + multiset(entries[..n])
        invariant (forall i :: 0 <= i < n ==> ok(i)) ==> failed == []
      {
        FailedNext(entries, ok, n);
        PrefixBag(entries, n);
        AppendBag(failed, entries[n]);
        PassBag(old(synced), synced, multiset(failed), multiset(entries[..n]), entries[n]);
        if ok(n) {
          synced := synced + multiset{entries[n]};
        } else {
          failed := failed + [entries[n]];
        }
      }
      WholeBag(entries);
    }

    /** The first pass and at most two retries of what failed. */
    method TryThrice(batch: seq<nat>, ok: (nat, nat) -> bool) returns (passes: nat, failed: seq<nat>)
      requires Valid()
      modifies this`synced
      ensures Valid() && synced + multiset(failed) == old(synced) + multiset(batch)
      ensures 1 <= passes <= 3 && (failed != [] ==> passes == 3)
      ensures failed == FailedAfter(batch, ok, passes)
      ensures forall r :: 0 < r < passes ==> FailedAfter(batch, ok, r) != []
      ensures (forall i: nat :: ok(0, i)) ==> passes == 1 && failed == []
    {
      hide FailedOf, FailedAfter;
      PassNext(batch, ok, 0);
      failed := Attempt(batch, Pass(ok, 0));
      passes := 1;
      var retry := 0;
      while retry < 2 && |failed| > 0
        invariant Valid() && retry <= 2 && passes == retry + 1 && failed == FailedAfter(batch, ok, passes)
        invariant forall r :: 0 < r < passes ==> FailedAfter(batch, ok, r) != []
        invariant synced + multiset(failed) == old(synced) + multiset(batch)
        invariant (forall i: nat :: ok(0, i)) ==> failed == [] && retry == 0
      {
        PassNext(batch, ok, passes);
        failed := Attempt(failed, Pass(ok, retry + 1));
        retry := retry + 1;
        passes := passes + 1;
      }
    }

    /** What still failed goes back to the queue, or is dropped and counted. */
    method Requeue(failed: seq<nat>)
      requires Valid()
      modifies this
      ensures Valid() && Held() == old(Held()) + multiset(failed) && synced == old(synced)
      ensures old(queue) <= queue && |queue| - |old(queue)| + droppedTotal - old(droppedTotal) == |failed|
      ensures failed == [] ==> queue == old(queue) && dropped == old(dropped)
      ensures syncFailedTotal == old(syncFailedTotal)
    {
      hide Held;
      WholeBag(failed);
      NoneBag(failed);
      for n := 0 to |failed|
        invariant Valid() && Held() == old(Held()) + multiset(failed[..n]) && synced == old(synced)
        invariant old(queue) <= queue && |queue| - |old(queue)| + droppedTotal - old(droppedTotal) == n
        invariant n == 0 ==> queue == old(queue) && dropped == old(dropped)
        invariant syncFailedTotal == old(syncFailedTotal)
      {
        PrefixBag(failed, n);
        Enqueue(failed[n]);
        Regroup(old(Held()), multiset(failed[..n]), multiset{failed[n]});
      }
    }

    /** flush. `ok(r, i)` is the result of write i of pass r. Nothing is lost: whatever was in the batch
        is now synced, queued or counted, and an entry is given up only after its third pass. */
    method Flush(batch: seq<nat>, ok: (nat, nat) -> bool) returns (passes: nat, gaveUp: nat)
      requires Valid()
      modifies this
      ensures Valid() && Held() == old(Held()) + multiset(batch)
      ensures 1 <= passes <= 3 && (gaveUp > 0 ==> passes == 3)
      ensures gaveUp == |FailedAfter(batch, ok, passes)|
      ensures synced + multiset(FailedAfter(batch, ok, passes)) == old(synced) + multiset(batch)
      ensures syncFailedTotal == old(syncFailedTotal) + gaveUp
      ensures gaveUp == 0 ==> synced == old(synced) + multiset(batch) && queue == old(queue) && dropped == old(dropped)
      ensures old(queue) <= queue && |queue| - |old(queue)| + droppedTotal - old(droppedTotal) == gaveUp
      ensures (forall i: nat :: ok(0, i)) ==> passes == 1 && gaveUp == 0
    {
      hide FailedAfter;
      var failed;
      passes, failed := TryThrice(batch, ok);
      gaveUp := |failed|;
      syncFailedTotal := syncFailedTotal + |failed|;
      assert Held() + multiset(failed) == (synced + multiset(failed)) + multiset(queue) + dropped;
      assert old(Held()) + multiset(batch) == (old(synced) + multiset(batch)) + multiset(queue) + dropped;
      Requeue(failed);
    }

    /** drainQueue: everything queued moves to the end of the batch, in order. */
    method DrainQueue(batch: seq<nat>) returns (all: seq<nat>)
      requires Valid()
      modifies this`queue
      ensures Valid() && queue == [] && all == batch + old(queue)
    {
      all := batch;
      while queue != []
        invariant Valid() && all + queue == batch + old(queue)
        decreases |queue|
      {
        all, queue := all + [queue[0]], queue[1..];
      }
    }
  }

  // ---- Producers and the consumer goroutine, interleaved ----

  /** An entry being flushed and how often this flush has tried to write it. */
  datatype Item = Item(entry: nat, tries: nat)

  datatype Consumer =
    | Receiving(batch: seq<nat>)
    | Draining(batch: seq<nat>)
    | Trying(todo: seq<Item>, failed: seq<Item>, round: nat, last: bool)
    | Requeuing(todo: seq<Item>, last: bool)
    | Exited

  datatype State = State(
    capacity: nat, batchSize: nat,
    queue: seq<nat>, consumer: Consumer,
    enqueued: multiset<nat>, synced: multiset<nat>, dropped: multiset<nat>,
    droppedTotal: nat)

  datatype Action =
    | Put(entry: nat)     // Enqueue, by any goroutine at any time
    | Receive             // the consumer takes one entry
    | Tick                // the ticker fires
    | Stop                // the consumer sees the done channel
    | Drain               // one round of drainQueue
    | Write(ok: bool)     // one SyncJournalEntry call
    | NextRound           // a pass is over
    | PutBack             // one failed entry is re-queued or dropped

  function Init(capacity: nat, batchSize: nat): State {
    State(capacity, batchSize, [], Receiving([]), multiset{}, multiset{}, multiset{}, 0)
  }

  /** A non-blocking send. */
  function Send(s: State, entry: nat): State {
    if |s.queue| < s.capacity then s.(queue := s.queue + [entry])
    else s.(dropped := s.dropped + multiset{entry}, droppedTotal := s.droppedTotal + 1)
  }

  function Untried(entries: seq<nat>): seq<Item> {
    seq(|entries|, i requires 0 <= i < |entries| => Item(entries[i], 0))
  }

  function StartFlush(batch: seq<nat>, last: bool): Consumer {
    Trying(Untried(batch), [], 0, last)
  }

  function AfterFlush(last: bool): Consumer {
    if last then Exited else Receiving([])
  }

  function Accept(s: State, entry: nat): State {
    Send(s, entry).(enqueued := s.enqueued + multiset{entry})
  }

  function Received(s: State, batch: seq<nat>): State {
    if s.queue == [] then s
    else
      var b := batch + [s.queue[0]];
      s.(queue := s.queue[1..], consumer := if |b| >= s.batchSize then StartFlush(b, false) else Receiving(b))
  }

  function Drained(s: State, batch: seq<nat>): State {
    if s.queue != [] then s.(queue := s.queue[1..], consumer := Draining(batch + [s.queue[0]]))
    else s.(consumer := if batch == [] then Exited else StartFlush(batch, true))
  }

  function Written(s: State, ok: bool, todo: seq<Item>, failed: seq<Item>, round: nat, last: bool): State {
    if todo == [] then s
    else if ok then s.(synced := s.synced + multiset{todo[0].entry}, consumer := Trying(todo[1..], failed, round, last))
    else s.(consumer := Trying(todo[1..], failed + [todo[0].(tries := todo[0].tries + 1)], round, last))
  }

  function RoundOver(todo: seq<Item>, failed: seq<Item>, round: nat, last: bool): Consumer {
    if todo != [] then Trying(todo, failed, round, last)
    else if failed == [] then AfterFlush(last)
    else if round < 2 then Trying(failed, [], round + 1, last)
    else Requeuing(failed, last)
  }

  function GivenBack(s: State, todo: seq<Item>, last: bool): State {
    if todo == [] then s.(consumer := AfterFlush(last))
    else Send(s, todo[0].entry).(consumer := Requeuing(todo[1..], last))
  }

  function Next(s: State, a: Action): State {
    match (a, s.consumer)
    case (Put(entry), _) => Accept(s, entry)
    case (Receive, Receiving(batch)) => Received(s, batch)
    case (Tick, Receiving(batch)) => if batch == [] then s else s.(consumer := StartFlush(batch, false))
    case (Stop, Receiving(batch)) => s.(consumer := Draining(batch))
    case (Drain, Draining(batch)) => Drained(s, batch)
    case (Write(ok), Trying(todo, failed, round, last)) => Written(s, ok, todo, failed, round, last)
    case (NextRound, Trying(todo, failed, round, last)) => s.(consumer := RoundOver(todo, failed, round, last))
    case (PutBack, Requeuing(todo, last)) => GivenBack(s, todo, last)
    case _ => s
  }

  function Run(s: State, acts: seq<Action>): State {
    if acts == [] then s else Next(Run(s, acts[..|acts| - 1]), acts[|acts| - 1])
  }

  function Bag(items: seq<Item>): multiset<nat> {
    if items == [] then multiset{} else multiset{items[0].entry} + Bag(items[1..])
  }

  /** Entries the consumer is holding. */
  function InHand(c: Consumer): multiset<nat> {
    match c
    case Receiving(batch) => multiset(batch)
    case Draining(batch) => multiset(batch)
    case Trying(todo, failed, _, _) => Bag(todo) + Bag(failed)
    case Requeuing(todo, _) => Bag(todo)
    case Exited => multiset{}
  }

  ghost predicate Conserved(s: State) {
    && s.enqueued == s.synced + multiset(s.queue) + InHand(s.consumer) + s.dropped
    && s.droppedTotal == |s.dropped|
    && |s.queue| <= s.capacity
  }

  ghost predicate AllTried(items: seq<Item>, n: nat) {
    forall i :: 0 <= i < |items| ==> items[i].tries == n
  }

  /** Within one flush every entry waiting in pass r has been tried r times. */
  ghost predicate Paced(c: Consumer) {
    match c
    case Trying(todo, failed, round, _) => round <= 2 && AllTried(todo, round) && AllTried(failed, round + 1)
    case Requeuing(todo, _) => AllTried(todo, 3)
    case _ => true
  }

  lemma {:induction false} BagAppend(items: seq<Item>, i: Item)
    ensures Bag(items + [i]) == Bag(items) + multiset{i.entry}
  {
    if items != [] {
      assert (items + [i])[1..] == items[1..] + [i];
      BagAppend(items[1..], i);
    }
  }

  lemma {:induction false} BagUntried(entries: seq<nat>)
    ensures Bag(Untried(entries)) == multiset(entries)
  {
    if entries != [] {
      assert Untried(entries)[1..] == Untried(entries[1..]);
      BagUntried(entries[1..]);
      assert entries == [entries[0]] + entries[1..];
    }
  }

  lemma HeadBag(xs: seq<nat>)
    requires xs != []
    ensures multiset(xs) == multiset{xs[0]} + multiset(xs[1..])
  {
    assert xs == [xs[0]] + xs[1..];
  }

  lemma BagHead(items: seq<Item>)
    requires items != []
    ensures Bag(items) == multiset{items[0].entry} + Bag(items[1..])
  {
  }

  lemma NoBag()
    ensures Bag([]) == multiset{}
  {
  }

  ghost predicate Counted(s: State) {
    s.droppedTotal == |s.dropped| && |s.queue| <= s.capacity
  }

  lemma SendConserves(s: State, entry: nat)
    requires Counted(s)
    ensures Counted(Send(s, entry))
    ensures multiset(Send(s, entry).queue) + Send(s, entry).dropped == multiset(s.queue) + s.dropped + multiset{entry}
  {
  }

  lemma AcceptConserves(s: State, entry: nat)
    requires Conserved(s)
    ensures Conserved(Accept(s, entry))
  {
    SendConserves(s, entry);
    var t := Send(s, entry);
    assert t.synced + multiset(t.queue) + InHand(t.consumer) + t.dropped
           == s.synced + InHand(s.consumer) + (multiset(t.queue) + t.dropped);
  }

  /** Moving the head of the queue to the end of the batch. */
  lemma TakeConserves(s: State, batch: seq<nat>, c: Consumer)
    requires Conserved(s) && InHand(s.consumer) == multiset(batch) && s.queue != []
    requires InHand(c) == multiset(batch + [s.queue[0]])
    ensures Conserved(s.(queue := s.queue[1..], consumer := c))
  {
    hide InHand;
    HeadBag(s.queue);
    AppendBag(batch, s.queue[0]);
  }

  lemma FlushHand(batch: seq<nat>, last: bool)
    ensures InHand(StartFlush(batch, last)) == multiset(batch)
  {
    BagUntried(batch);
    NoBag();
  }

  lemma ReceivedConserves(s: State, batch: seq<nat>)
    requires Conserved(s) && s.consumer == Receiving(batch)
    ensures Conserved(Received(s, batch))
  {
    hide StartFlush;
    if s.queue != [] {
      var b := batch + [s.queue[0]];
      FlushHand(b, false);
      TakeConserves(s, batch, if |b| >= s.batchSize then StartFlush(b, false) else Receiving(b));
    }
  }

  lemma DrainedConserves(s: State, batch: seq<nat>)
    requires Conserved(s) && s.consumer == Draining(batch)
    ensures Conserved(Drained(s, batch))
  {
    hide StartFlush;
    FlushHand(batch, true);
    if s.queue != [] {
      TakeConserves(s, batch, Draining(batch + [s.queue[0]]));
    }
  }

  lemma WrittenConserves(s: State, ok: bool, todo: seq<Item>, failed: seq<Item>, round: nat, last: bool)
    requires Conserved(s) && s.consumer == Trying(todo, failed, round, last)
    ensures Conserved(Written(s, ok, todo, failed, round, last))
  {
    hide Bag;
    if todo != [] {
      BagHead(todo);
      BagAppend(failed, todo[0].(tries := todo[0].tries + 1));
      var x, t, f := multiset{todo[0].entry}, Bag(todo[1..]), Bag(failed);
      assert (s.synced + x) + multiset(s.queue) + (t + f) + s.dropped ==
        s.synced + multiset(s.queue) + (x + t + f) + s.dropped;
      assert t + (f + x) == x + t + f;
    }
  }

  lemma RoundConserves(todo: seq<Item>, failed: seq<Item>, round: nat, last: bool)
    ensures InHand(RoundOver(todo, failed, round, last)) == InHand(Trying(todo, failed, round, last))
  {
    hide Bag;
    NoBag();
    assert multiset{} + Bag(failed) == Bag(failed) + multiset{} == Bag(failed);
  }

  lemma GivenBackConserves(s: State, todo: seq<Item>, last: bool)
    requires Conserved(s) && s.consumer == Requeuing(todo, last)
    ensures Conserved(GivenBack(s, todo, last))
  {
    hide Bag, Send;
    if todo == [] {
      NoBag();
    } else {
      BagHead(todo);
      SendConserves(s, todo[0].entry);
      SendKeeps(s, todo[0].entry);
      var t := Send(s, todo[0].entry);
      assert t.synced + multiset(t.queue) + Bag(todo[1..]) + t.dropped
             == s.synced + Bag(todo[1..]) + (multiset(t.queue) + t.dropped);
    }
  }

  lemma SendKeeps(s: State, entry: nat)
    ensures Send(s, entry).synced == s.synced && Send(s, entry).enqueued == s.enqueued
  {
  }

  lemma StepConserves(s: State, a: Action)
    requires Conserved(s)
    ensures Conserved(Next(s, a))
  {
    hide Bag, Accept, Received, Drained, Written, RoundOver, GivenBack, StartFlush;
    match (a, s.consumer)
    case (Put(entry), _) => AcceptConserves(s, entry);
    case (Receive, Receiving(batch)) => ReceivedConserves(s, batch);
    case (Drain, Draining(batch)) => DrainedConserves(s, batch);
    case (Tick, Receiving(batch)) => FlushHand(batch, false);
    case (Write(ok), Trying(todo, failed, round, last)) => WrittenConserves(s, ok, todo, failed, round, last);
    case (NextRound, Trying(todo, failed, round, last)) => RoundConserves(todo, failed, round, last);
    case (PutBack, Requeuing(todo, last)) => GivenBackConserves(s, todo, last);
    case _ =>
  }

  lemma StepPaced(s: State, a: Action)
    requires Paced(s.consumer)
    ensures Paced(Next(s, a).consumer)
  {
  }

  /** The sync queue conserves entries. In every run, whatever Postgres answers, however full the queue
      and whenever Stop comes, each entry ever enqueued is synced, queued, in the consumer's hands or
      dropped; droppedTotal is exactly the number dropped; and a flush tries an entry at most three
      times, giving it back only after the third failure. */
  lemma {:induction false} EntriesConserved(capacity: nat, batchSize: nat, acts: seq<Action>)
    ensures Conserved(Run(Init(capacity, batchSize), acts)) && Paced(Run(Init(capacity, batchSize), acts).consumer)
  {
    if acts != [] {
      var s := Run(Init(capacity, batchSize), acts[..|acts| - 1]);
      EntriesConserved(capacity, batchSize, acts[..|acts| - 1]);
      StepConserves(s, acts[|acts| - 1]);
      StepPaced(s, acts[|acts| - 1]);
    }
  }

  ghost predicate BelowSize(s: State, batchSize: nat) {
    s.batchSize == batchSize
    && (s.consumer.Receiving? ==> |s.consumer.batch| < batchSize || s.consumer.batch == [])
  }

  lemma BelowSizeStep(s: State, a: Action, batchSize: nat)
    requires BelowSize(s, batchSize)
    ensures BelowSize(Next(s, a), batchSize)
  {
  }

  /** Flushes are full: the consumer waits below the batch size, and receiving an entry starts a flush exactly when it
      fills the batch, the ticker exactly when there is one. */
  lemma {:induction false} FlushesWhenFull(capacity: nat, batchSize: nat, acts: seq<Action>)
    ensures var s := Run(Init(capacity, batchSize), acts);
            && BelowSize(s, batchSize)
            && (s.consumer.Receiving? && s.queue != [] ==>
                  (Next(s, Receive).consumer.Trying? <==> |s.consumer.batch| + 1 >= batchSize))
            && (s.consumer.Receiving? ==> (Next(s, Tick).consumer.Trying? <==> s.consumer.batch != []))
  {
    if acts != [] {
      FlushesWhenFull(capacity, batchSize, acts[..|acts| - 1]);
      BelowSizeStep(Run(Init(capacity, batchSize), acts[..|acts| - 1]), acts[|acts| - 1], batchSize);
    }
  }

  /** After the consumer exits, the entries that are neither synced nor counted as dropped are exactly
      the ones left in the queue, and nothing will ever take those out. */
  lemma LeftoversAfterExit(capacity: nat, batchSize: nat, acts: seq<Action>, more: seq<Action>)
    requires Run(Init(capacity, batchSize), acts).consumer == Exited
    ensures var s := Run(Init(capacity, batchSize), acts);
            && s.enqueued == s.synced + s.dropped + multiset(s.queue)
            && |s.enqueued| == |s.synced| + s.droppedTotal + |s.queue|
            && s.queue <= Run(s, more).queue && Run(s, more).synced == s.synced
  {
    var s := Run(Init(capacity, batchSize), acts);
    EntriesConserved(capacity, batchSize, acts);
    assert s.synced + multiset(s.queue) + multiset{} + s.dropped == s.synced + s.dropped + multiset(s.queue);
    ExitedForGood(s, more);
  }

  lemma {:induction false} ExitedForGood(s: State, more: seq<Action>)
    requires s.consumer == Exited
    ensures Run(s, more).consumer == Exited && s.queue <= Run(s, more).queue && Run(s, more).synced == s.synced
  {
    if more != [] {
      ExitedForGood(s, more[..|more| - 1]);
    }
  }

  // ---- Everything can be synced ----

  /** The consumer will come back to what it holds and to the queue. */
  predicate ComesBack(s: State) {
    match s.consumer
    case Receiving(_) => true
    case Draining(_) => true
    case Trying(_, failed, round, last) => last ==> s.queue == [] && (round < 2 || failed == [])
    case Requeuing(todo, last) => last ==> s.queue == [] && todo == []
    case Exited => s.queue == []
  }

  /** What the consumer does next when every write succeeds. */
  function WorksOn(s: State): Action {
    match s.consumer
    case Receiving(_) => if s.queue != [] then Receive else Tick
    case Draining(_) => Drain
    case Trying(todo, _, _, _) => if todo != [] then Write(true) else NextRound
    case _ => PutBack
  }

  predicate Idle(s: State) {
    s.queue == [] && (s.consumer == Receiving([]) || s.consumer == Exited)
  }

  /** Work left, an entry weighing less the closer it is to being synced. */
  function Work(s: State): nat {
    4 * |s.queue| +
    match s.consumer
    case Receiving(batch) => 3 * |batch|
    case Draining(batch) => 3 * |batch| + 1
    case Trying(todo, failed, _, _) => |todo| + 6 * |failed| + 1
    case Requeuing(todo, _) => 5 * |todo| + 1
    case Exited => 0
  }

  lemma WorkStep(s: State)
    requires ComesBack(s) && !Idle(s)
    ensures ComesBack(Next(s, WorksOn(s))) && Work(Next(s, WorksOn(s))) < Work(s)
    ensures Next(s, WorksOn(s)).enqueued == s.enqueued
  {
  }

  lemma {:induction false} WorkItOff(s: State) returns (more: seq<Action>)
    requires ComesBack(s)
    ensures Idle(Run(s, more)) && Run(s, more).enqueued == s.enqueued
    ensures forall i :: 0 <= i < |more| ==> !more[i].Put? && more[i] != Write(false)
    decreases Work(s)
  {
    hide Run, Next, Work;
    if Idle(s) {
      more := [];
      RunNothing(s);
    } else {
      WorkStep(s);
      var rest := WorkItOff(Next(s, WorksOn(s)));
      RunFirst(s, WorksOn(s), rest);
      more := [WorksOn(s)] + rest;
    }
  }

  lemma RunNothing(s: State)
    ensures Run(s, []) == s
  {
  }

  lemma {:induction false} RunFirst(s: State, a: Action, rest: seq<Action>)
    ensures Run(s, [a] + rest) == Run(Next(s, a), rest)
  {
    hide Next;
    if rest == [] {
      assert [a] + rest == [] + [a];
      RunStep(s, [], a);
    } else {
      var n := |rest| - 1;
      RunFirst(s, a, rest[..n]);
      assert ([a] + rest)[..n + 1] == [a] + rest[..n];
    }
  }

  lemma {:induction false} RunTwice(s: State, acts: seq<Action>, more: seq<Action>)
    ensures Run(s, acts + more) == Run(Run(s, acts), more)
  {
    hide Next;
    if more == [] {
      assert acts + more == acts;
    } else {
      var n := |more| - 1;
      RunTwice(s, acts, more[..n]);
      assert (acts + more)[..|acts| + n] == acts + more[..n];
    }
  }

  /** Nothing is left to do for any entry. */
  ghost predicate Settled(s: State) {
    s.enqueued == s.synced + s.dropped
  }

  lemma StuckStep(s: State, a: Action)
    requires !ComesBack(s) && s.capacity > 0 && Paced(s.consumer)
    ensures !ComesBack(Next(s, a))
  {
  }

  lemma {:induction false} StuckRun(s: State, acts: seq<Action>)
    requires !ComesBack(s) && s.capacity > 0 && Paced(s.consumer)
    ensures !ComesBack(Run(s, acts)) && Run(s, acts).capacity == s.capacity && Paced(Run(s, acts).consumer)
  {
    hide Paced, ComesBack;
    if acts != [] {
      var before, last := Run(s, acts[..|acts| - 1]), acts[|acts| - 1];
      StuckRun(s, acts[..|acts| - 1]);
      StuckStep(before, last);
      StepPaced(before, last);
    }
  }

  lemma StuckIsUnsettled(s: State)
    requires !ComesBack(s) && Conserved(s)
    ensures !Settled(s)
  {
    var rest := multiset(s.queue) + InHand(s.consumer);
    assert s.synced + multiset(s.queue) + InHand(s.consumer) + s.dropped == (s.synced + s.dropped) + rest;
    assert |rest| > 0 by {
      if s.queue != [] {
        assert s.queue[0] in multiset(s.queue);
      }
    }
    assert |(s.synced + s.dropped) + rest| == |s.synced + s.dropped| + |rest|;
  }

  /** From every reachable state: some continuation settles everything, each entry being synced or dropped and counted,
      exactly when the consumer still comes back to its entries; and then one does in which every write succeeds. */
  lemma CanSettleIff(capacity: nat, batchSize: nat, acts: seq<Action>)
    requires capacity > 0
    ensures (exists more :: Settled(Run(Init(capacity, batchSize), acts + more)))
            <==> ComesBack(Run(Init(capacity, batchSize), acts))
  {
    hide Run, ComesBack, Settled, Conserved, Paced;
    var start := Init(capacity, batchSize);
    if ComesBack(Run(start, acts)) {
      var more := EverythingCanBeSynced(capacity, batchSize, acts);
    } else {
      forall more
        ensures !Settled(Run(start, acts + more))
      {
        EntriesConserved(capacity, batchSize, acts);
        EntriesConserved(capacity, batchSize, acts + more);
        SameCapacity(start, acts);
        StuckRun(Run(start, acts), more);
        RunTwice(start, acts, more);
        StuckIsUnsettled(Run(start, acts + more));
      }
    }
  }

  lemma {:induction false} SameCapacity(s: State, acts: seq<Action>)
    ensures Run(s, acts).capacity == s.capacity
  {
    if acts != [] {
      SameCapacity(s, acts[..|acts| - 1]);
    }
  }

  lemma EverythingCanBeSynced(capacity: nat, batchSize: nat, acts: seq<Action>) returns (more: seq<Action>)
    requires ComesBack(Run(Init(capacity, batchSize), acts))
    ensures forall i :: 0 <= i < |more| ==> !more[i].Put? && more[i] != Write(false)
    ensures Settled(Run(Init(capacity, batchSize), acts + more))
    ensures Run(Init(capacity, batchSize), acts + more).enqueued == Run(Init(capacity, batchSize), acts).enqueued
  {
    hide Run, Next, ComesBack;
    more := WorkItOff(Run(Init(capacity, batchSize), acts));
    RunTwice(Init(capacity, batchSize), acts, more);
    EntriesConserved(capacity, batchSize, acts + more);
  }

  /** The entry of a write that succeeds. */
  function WrittenBy(s: State, a: Action): multiset<nat> {
    if a == Write(true) && s.consumer.Trying? && s.consumer.todo != [] then multiset{s.consumer.todo[0].entry}
    else multiset{}
  }

  function Successes(s: State, acts: seq<Action>): multiset<nat> {
    if acts == [] then multiset{}
    else
      var init := acts[..|acts| - 1];
      Successes(s, init) + WrittenBy(Run(s, init), acts[|acts| - 1])
  }

  /** In every run, what is synced is exactly what was written successfully. */
  lemma {:induction false} SyncedIsWritten(capacity: nat, batchSize: nat, acts: seq<Action>)
    ensures Run(Init(capacity, batchSize), acts).synced == Successes(Init(capacity, batchSize), acts)
  {
    hide Next;
    if acts != [] {
      SyncedIsWritten(capacity, batchSize, acts[..|acts| - 1]);
      WriteSyncs(Run(Init(capacity, batchSize), acts[..|acts| - 1]), acts[|acts| - 1]);
    }
  }

  lemma WriteSyncs(s: State, a: Action)
    ensures Next(s, a).synced == s.synced + WrittenBy(s, a)
  {
  }

  // ---- What is left behind ----

  /** An action that puts an entry into the queue after the consumer has stopped looking at it. */
  predicate Refills(s: State, a: Action) {
    || (a.Put? && !s.consumer.Draining?)
    || (a.PutBack? && s.consumer.Requeuing? && s.consumer.todo != [])
  }

  predicate Refilled(s: State, acts: seq<Action>) {
    acts != [] && (Refilled(s, acts[..|acts| - 1]) || Refills(Run(s, acts[..|acts| - 1]), acts[|acts| - 1]))
  }

  /** After Stop the consumer drains, flushes once more and exits; only the drain takes entries out. */
  predicate Leaving(s: State, refilled: bool) {
    && s.capacity > 0
    && match s.consumer
       case Receiving(_) => false
       case Draining(_) => !refilled
       case Trying(_, _, _, last) => last && (s.queue == [] <==> !refilled)
       case Requeuing(_, last) => last && (s.queue == [] <==> !refilled)
       case Exited => s.queue == [] <==> !refilled
  }

  lemma LeavingStep(s: State, a: Action, refilled: bool)
    requires Leaving(s, refilled)
    ensures Leaving(Next(s, a), refilled || Refills(s, a))
  {
  }

  lemma {:induction false} LeavingRun(s: State, acts: seq<Action>)
    requires s.consumer.Draining? && s.capacity > 0
    ensures Leaving(Run(s, acts), Refilled(s, acts))
  {
    hide Next, Refills;
    if acts != [] {
      LeavingRun(s, acts[..|acts| - 1]);
      LeavingStep(Run(s, acts[..|acts| - 1]), acts[|acts| - 1], Refilled(s, acts[..|acts| - 1]));
    }
  }

  /** From the moment the consumer sees Stop: an entry is left behind in the queue exactly when one is
      enqueued after the drain or given back by the last flush. */
  lemma LeftBehindIff(s: State, acts: seq<Action>)
    requires s.consumer.Draining? && s.capacity > 0
    requires Run(s, acts).consumer == Exited
    ensures Run(s, acts).queue == [] <==> !Refilled(s, acts)
  {
    hide Run, Refilled;
    LeavingRun(s, acts);
  }

  lemma RunStep(s: State, acts: seq<Action>, a: Action)
    ensures Run(s, acts + [a]) == Next(Run(s, acts), a)
  {
    assert (acts + [a])[..|acts|] == acts;
  }

  /** One pass over a single entry fails. */
  lemma FailedPass(s: State, acts: seq<Action>, round: nat) returns (more: seq<Action>)
    requires round <= 2 && Run(s, acts).consumer == Trying([Item(7, round)], [], round, true)
    ensures var failed := [Item(7, round + 1)];
            Run(s, more) == Run(s, acts).(consumer := if round < 2 then Trying(failed, [], round + 1, true)
              else Requeuing(failed, true))
  {
    hide Run;
    more := acts + [Write(false)] + [NextRound];
    RunStep(s, acts, Write(false));
    RunStep(s, acts + [Write(false)], NextRound);
    assert [Item(7, round)][1..] == [] && [] + [Item(7, round + 1)] == [Item(7, round + 1)];
  }

  /** It happens: an entry whose last three writes fail is put back for a cycle that never comes. It is
      neither synced nor counted as dropped. */
  lemma EntryLeftBehind() returns (acts: seq<Action>)
    ensures var e := Run(Init(1, 10), acts);
            e.consumer == Exited && e.enqueued == multiset{7} && e.synced == multiset{} && e.droppedTotal == 0
              && e.queue == [7]
  {
    hide Run, Next;
    var s := Init(1, 10);
    var a4 := DrainsSeven(s);
    var a5 := FailedPass(s, a4, 0);
    var a6 := FailedPass(s, a5, 1);
    var a7 := FailedPass(s, a6, 2);
    acts := a7 + [PutBack] + [PutBack];
    RunStep(s, a7, PutBack);
    RunStep(s, a7 + [PutBack], PutBack);
    GivesBackSeven(Run(s, a7));
  }

  lemma GivesBackSeven(s: State)
    requires s.consumer == Requeuing([Item(7, 3)], true) && s.queue == [] && s.capacity == 1
    ensures Next(Next(s, PutBack), PutBack) == s.(queue := [7], consumer := Exited)
  {
    assert [Item(7, 3)][1..] == [] && [] + [7] == [7];
  }

  /** Stop finds one entry in the queue and the drain takes it. */
  lemma DrainsSeven(s: State) returns (acts: seq<Action>)
    requires s == Init(1, 10)
    ensures Run(s, acts) == s.(consumer := Trying([Item(7, 0)], [], 0, true), enqueued := multiset{7})
  {
    hide Run, Next;
    RunNothing(s);
    RunStep(s, [], Put(7));
    RunStep(s, [] + [Put(7)], Stop);
    RunStep(s, [] + [Put(7)] + [Stop], Drain);
    RunStep(s, [] + [Put(7)] + [Stop] + [Drain], Drain);
    acts := [] + [Put(7)] + [Stop] + [Drain] + [Drain];
    PutsSeven(s);
    TakesSeven(Next(Next(s, Put(7)), Stop));
  }

  lemma PutsSeven(s: State)
    requires s == Init(1, 10)
    ensures Next(Next(s, Put(7)), Stop) == s.(queue := [7], consumer := Draining([]), enqueued := multiset{7})
  {
    assert [] + [7] == [7] && multiset{} + multiset{7} == multiset{7};
  }

  lemma TakesSeven(s: State)
    requires s.queue == [7] && s.consumer == Draining([])
    ensures Next(Next(s, Drain), Drain) == s.(queue := [], consumer := Trying([Item(7, 0)], [], 0, true))
  {
    assert [7][1..] == [] && [] + [7] == [7];
    assert Untried([7]) == [Item(7, 0)];
  }
}
