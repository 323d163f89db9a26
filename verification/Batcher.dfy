/** The write batcher as a state machine (ledger/batch.go): every critical section, timer event and
    goroutine hand-off is one step, and steps of any number of callers interleave freely. */
module Batcher {
  import opened Wrappers

  /** A taken batch has left `pending` but wg.Add has not run yet; a running one is being posted. */
  datatype Phase = Taken | Running | Flushed
  datatype Batch = Batch(items: seq<nat>, phase: Phase)
  datatype Timer = NoTimer | Timer(id: nat)

  datatype State = State(
    maxSize: int,
    pending: seq<nat>,
    inside: Option<nat>,  // the item of a Submit that holds the lock and is past its check of done
    timer: Timer,
    armed: set<nat>,      // timers that may still fire or be stopped
    fired: set<nat>,      // timers whose callback waits for the lock; Stop() on them has no effect
    nextTimer: nat,
    done: bool,           // the done channel is closed
    drained: bool,        // Stop has taken what was pending
    returned: bool,       // Stop has returned
    accepted: seq<nat>,   // items Submit queued, in order of the lock
    batches: seq<Batch>)  // batches in the order they were taken

  datatype Action =
    | Enter(item: nat)
    | Commit
    | Fire(timer: nat)
    | Callback(timer: nat)
    | Launch(batch: nat)
    | Finish(batch: nat)
    | CloseDone
    | Drain
    | Return

  function Init(maxSize: int): State {
    State(maxSize, [], None, NoTimer, {}, {}, 0, false, false, false, [], [])
  }

  function Take(s: State, phase: Phase): State {
    if s.pending == [] then s else s.(batches := s.batches + [Batch(s.pending, phase)], pending := [])
  }

  function StopTimer(s: State): State {
    match s.timer
    case NoTimer => s
    case Timer(t) => s.(armed := s.armed - {t})
  }

  /** What a Submit does between its check and giving up the lock. */
  function Queued(s: State, item: nat): State {
    var q := s.(pending := s.pending + [item], accepted := s.accepted + [item], inside := None);
    if |q.pending| >= q.maxSize then Take(StopTimer(q).(timer := NoTimer), Taken)
    else if q.timer == NoTimer then
      q.(timer := Timer(q.nextTimer), armed := q.armed + {q.nextTimer}, nextTimer := q.nextTimer + 1)
    else q
  }

  /** One step; an action that is not enabled changes nothing. Submit, the timer's callback and Stop's drain hold
      the lock; the done channel is closed without it. */
  function Next(s: State, a: Action): State {
    match a
    case Enter(item) => if s.inside.None? && !s.done then s.(inside := Some(item)) else s
    case Commit => if s.inside.Some? then Queued(s, s.inside.value) else s
    case Fire(t) => if t in s.armed then s.(armed := s.armed - {t}, fired := s.fired + {t}) else s
    case Callback(t) =>
      if s.inside.None? && t in s.fired then Take(s.(fired := s.fired - {t}, timer := NoTimer), Taken) else s
    case Launch(b) => SetPhase(s, b, Taken, Running)
    case Finish(b) => SetPhase(s, b, Running, Flushed)
    case CloseDone => s.(done := true)
    case Drain =>
      if s.inside.None? && s.done && !s.drained then Take(StopTimer(s).(drained := true), Running) else s
    case Return => if s.drained && NoneRunning(s) then s.(returned := true) else s
  }

  function SetPhase(s: State, b: nat, before: Phase, after: Phase): State {
    if b < |s.batches| && s.batches[b].phase == before
    then s.(batches := s.batches[b := s.batches[b].(phase := after)]) else s
  }

  predicate NoneRunning(s: State) {
    forall i :: 0 <= i < |s.batches| ==> s.batches[i].phase != Running
  }

  function Run(s: State, acts: seq<Action>): State {
    if acts == [] then s else Next(Run(s, acts[..|acts| - 1]), acts[|acts| - 1])
  }

  function Flatten(bs: seq<Batch>): seq<nat> {
    if bs == [] then [] else Flatten(bs[..|bs| - 1]) + bs[|bs| - 1].items
  }

  // ---- Invariant ----

  function Limit(s: State): int {
    if s.maxSize < 1 then 1 else s.maxSize
  }

  /** Items are where they should be. */
  ghost predicate Conserved(s: State) {
    && s.accepted == Flatten(s.batches) + s.pending
    && |s.pending| < Limit(s)
    && forall i :: 0 <= i < |s.batches| ==> 0 < |s.batches[i].items| <= Limit(s)
  }

  /** Pending items have somebody who will take them. */
  ghost predicate Watched(s: State) {
    && (forall t :: t in s.armed || t in s.fired ==> t < s.nextTimer)
    && (s.timer.Timer? ==> s.timer.id < s.nextTimer)
    && (s.timer.Timer? && !s.drained ==> s.timer.id in s.armed || s.timer.id in s.fired)
    && (s.pending != [] ==> s.timer.Timer? && !s.drained)
    && (s.drained ==> s.done && s.inside.None?)
    && (s.returned ==> s.drained)
  }

  lemma {:induction false} FlattenPhase(bs: seq<Batch>, b: nat, phase: Phase)
    requires b < |bs|
    ensures Flatten(bs[b := bs[b].(phase := phase)]) == Flatten(bs)
  {
    var n := |bs| - 1;
    var cs := bs[b := bs[b].(phase := phase)];
    if b < n {
      FlattenPhase(bs[..n], b, phase);
      assert cs[..n] == bs[..n][b := bs[b].(phase := phase)];
    } else {
      assert cs[..n] == bs[..n];
    }
  }

  lemma TakeConserves(s: State, phase: Phase)
    requires s.accepted == Flatten(s.batches) + s.pending && |s.pending| <= Limit(s)
    requires forall i :: 0 <= i < |s.batches| ==> 0 < |s.batches[i].items| <= Limit(s)
    ensures Conserved(Take(s, phase)) && Take(s, phase).pending == []
  {
    if s.pending != [] {
      var bs := s.batches + [Batch(s.pending, phase)];
      assert bs[..|bs| - 1] == s.batches;
    }
  }

  lemma PhaseConserves(s: State, b: nat, before: Phase, after: Phase)
    requires Conserved(s)
    ensures Conserved(SetPhase(s, b, before, after))
  {
    if b < |s.batches| {
      FlattenPhase(s.batches, b, after);
    }
  }

  lemma CommitConserves(s: State, item: nat)
    requires Conserved(s)
    ensures Conserved(Queued(s, item))
  {
    hide Flatten, Take;
    var q := s.(pending := s.pending + [item], accepted := s.accepted + [item], inside := None);
    TakeConserves(StopTimer(q).(timer := NoTimer), Taken);
  }

  lemma StepConserves(s: State, a: Action)
    requires Conserved(s)
    ensures Conserved(Next(s, a))
  {
    hide Flatten, Take, SetPhase, Queued;
    match a
    case Commit => if s.inside.Some? { CommitConserves(s, s.inside.value); }
    case Callback(t) => TakeConserves(s.(fired := s.fired - {t}, timer := NoTimer), Taken);
    case Drain => TakeConserves(StopTimer(s).(drained := true), Running);
    case Launch(b) => PhaseConserves(s, b, Taken, Running);
    case Finish(b) => PhaseConserves(s, b, Running, Flushed);
    case _ =>
  }

  lemma CommitWatches(s: State, item: nat)
    requires Watched(s) && s.inside.Some?
    ensures Watched(Queued(s, item))
  {
  }

  lemma StepWatches(s: State, a: Action)
    requires Watched(s)
    ensures Watched(Next(s, a))
  {
    hide Queued;
    if a.Commit? && s.inside.Some? {
      CommitWatches(s, s.inside.value);
    }
  }

  lemma {:induction false} Invariant(maxSize: int, acts: seq<Action>)
    ensures Conserved(Run(Init(maxSize), acts)) && Watched(Run(Init(maxSize), acts))
  {
    if acts != [] {
      var s := Run(Init(maxSize), acts[..|acts| - 1]);
      Invariant(maxSize, acts[..|acts| - 1]);
      StepConserves(s, acts[|acts| - 1]);
      StepWatches(s, acts[|acts| - 1]);
    }
  }

  // ---- What every run guarantees ----

  /** Number of batches that contain an item. */
  function Holders(bs: seq<Batch>, x: nat): nat {
    if bs == [] then 0 else Holders(bs[..|bs| - 1], x) + if x in bs[|bs| - 1].items then 1 else 0
  }

  ghost predicate Distinct(xs: seq<nat>) {
    forall i, j :: 0 <= i < j < |xs| ==> xs[i] != xs[j]
  }

  lemma DistinctParts(xs: seq<nat>, ys: seq<nat>)
    requires Distinct(xs + ys)
    ensures Distinct(xs) && forall x :: !(x in xs && x in ys)
  {
    var all := xs + ys;
    forall i, j | 0 <= i < j < |xs|
      ensures xs[i] != xs[j]
    {
      assert all[i] != all[j];
    }
    forall i, j | 0 <= i < |xs| && 0 <= j < |ys|
      ensures xs[i] != ys[j]
    {
      assert all[i] != all[|xs| + j];
    }
  }

  lemma {:induction false} HoldersOfFlatten(bs: seq<Batch>, x: nat)
    requires Distinct(Flatten(bs))
    ensures Holders(bs, x) == if x in Flatten(bs) then 1 else 0
  {
    if bs != [] {
      var front, last := Flatten(bs[..|bs| - 1]), bs[|bs| - 1].items;
      DistinctParts(front, last);
      HoldersOfFlatten(bs[..|bs| - 1], x);
    }
  }

  /** Nothing is lost, duplicated or reordered: in every run the accepted items are the batches end to
      end followed by what is still pending, so with distinct items each accepted one is in exactly
      one batch or pending, and no batch is empty or oversized. */
  lemma EveryItemInOneBatch(maxSize: int, acts: seq<Action>, x: nat)
    requires Distinct(Run(Init(maxSize), acts).accepted)
    ensures var s := Run(Init(maxSize), acts);
            && s.accepted == Flatten(s.batches) + s.pending
            && (forall i :: 0 <= i < |s.batches| ==> 0 < |s.batches[i].items| <= Limit(s))
            && (x in s.accepted <==> Holders(s.batches, x) + (if x in s.pending then 1 else 0) == 1)
            && (x !in s.accepted <==> Holders(s.batches, x) == 0 && x !in s.pending)
  {
    var s := Run(Init(maxSize), acts);
    Invariant(maxSize, acts);
    var all := Flatten(s.batches);
    DistinctParts(all, s.pending);
    HoldersOfFlatten(s.batches, x);
  }

  /** Nothing is stranded: while items are pending the current timer is armed or its callback is
      waiting for the lock, and letting that timer run when the lock is free moves all of them into a batch at
      once. */
  lemma PendingIsTaken(maxSize: int, acts: seq<Action>)
    requires Run(Init(maxSize), acts).pending != []
    ensures var s := Run(Init(maxSize), acts);
            && s.timer.Timer? && (s.timer.id in s.armed || s.timer.id in s.fired) && !s.drained
            && (s.inside.None? ==>
                  var s' := Next(Next(s, Fire(s.timer.id)), Callback(s.timer.id));
                  s'.pending == [] && s'.batches == s.batches + [Batch(s.pending, Taken)] && s'.accepted == s.accepted)
  {
    Invariant(maxSize, acts);
  }

  /** Once Stop has drained, nothing is pending and nothing more is accepted. */
  lemma StoppedStaysEmpty(maxSize: int, acts: seq<Action>, a: Action)
    requires Run(Init(maxSize), acts).drained
    ensures Run(Init(maxSize), acts).pending == []
    ensures Next(Run(Init(maxSize), acts), a).accepted == Run(Init(maxSize), acts).accepted
  {
    Invariant(maxSize, acts);
  }

  ghost predicate AllFlushed(s: State) {
    forall i :: 0 <= i < |s.batches| ==> s.batches[i].phase == Flushed
  }

  /** Whenever Stop has returned, nothing is pending: every accepted item is in a batch. */
  lemma ReturnedMeansTaken(maxSize: int, acts: seq<Action>)
    requires Run(Init(maxSize), acts).returned
    ensures var s := Run(Init(maxSize), acts); s.accepted == Flatten(s.batches)
  {
    Invariant(maxSize, acts);
    var s := Run(Init(maxSize), acts);
    assert Flatten(s.batches) + [] == Flatten(s.batches);
  }

  /** Nothing is on its way to a flush that wg does not know yet. */
  ghost predicate NoneTaken(s: State) {
    forall i :: 0 <= i < |s.batches| ==> s.batches[i].phase != Taken
  }

  /** What a Stop with nothing pending and nothing taken keeps. */
  ghost predicate Quiet(s: State) {
    s.done && s.inside.None? && s.pending == [] && NoneTaken(s) && (s.returned ==> AllFlushed(s))
  }

  lemma QuietStep(s: State, a: Action)
    requires Quiet(s)
    ensures Quiet(Next(s, a))
  {
  }

  lemma {:induction false} QuietRun(s: State, acts: seq<Action>)
    requires Quiet(s)
    ensures Quiet(Run(s, acts))
  {
    hide Next, Quiet;
    if acts != [] {
      QuietRun(s, acts[..|acts| - 1]);
      QuietStep(Run(s, acts[..|acts| - 1]), acts[|acts| - 1]);
    }
  }

  lemma RunStep(s: State, acts: seq<Action>, a: Action)
    ensures Run(s, acts + [a]) == Next(Run(s, acts), a)
  {
    assert (acts + [a])[..|acts|] == acts;
  }

  lemma {:induction false} RunTwice(s: State, acts: seq<Action>, more: seq<Action>)
    ensures Run(s, acts + more) == Run(Run(s, acts), more)
  {
    hide Next;
    if more == [] {
      assert acts + more == acts;
    } else {
      var n := |more| - 1;
      RunTwice(s, acts, more[..n]);
      assert (acts + more)[..|acts| + n] == acts + more[..n];
    }
  }

  /** The flushes that run can all finish, with the taken batches left where they are. */
  lemma {:induction false} FinishAll(s: State, n: nat) returns (acts: seq<Action>)
    requires n <= |s.batches|
    ensures var e := Run(s, acts);
            && e == s.(batches := e.batches) && |e.batches| == |s.batches|
            && (forall i :: 0 <= i < n ==> e.batches[i].phase != Running)
            && (forall i :: 0 <= i < |s.batches| && (i >= n || s.batches[i].phase == Taken) ==>
                e.batches[i] == s.batches[i])
  {
    if n == 0 {
      acts := [];
    } else {
      var before := FinishAll(s, n - 1);
      acts := before + [Finish(n - 1)];
      RunStep(s, before, Finish(n - 1));
    }
  }

  /** A taken batch need not be flushed when Stop returns. */
  lemma OvertakesTaken(s: State, b: nat) returns (acts: seq<Action>)
    requires s.done && !s.drained && s.inside.None? && b < |s.batches| && s.batches[b].phase == Taken
    ensures Run(s, acts).returned && !AllFlushed(Run(s, acts))
  {
    hide Run;
    var d := Next(s, Drain);
    assert d.batches[b] == s.batches[b] && d.drained;
    var finishing := FinishAll(d, |d.batches|);
    var e := Run(d, finishing);
    assert e.drained && NoneRunning(e) && e.batches[b].phase == Taken;
    acts := [Drain] + (finishing + [Return]);
    RunTwice(s, [Drain], finishing + [Return]);
    RunStep(d, finishing, Return);
    RunOne(s, Drain);
    assert Run(s, acts).batches == e.batches;
  }

  lemma RunOne(s: State, a: Action)
    ensures Run(s, [a]) == Next(s, a)
  {
    assert [a][..0] == [];
  }

  /** Pending items can be taken by their timer before Stop gets the lock. */
  lemma OvertakesPending(s: State) returns (acts: seq<Action>)
    requires Watched(s) && s.done && s.inside.None? && s.pending != []
    ensures Run(s, acts).returned && !AllFlushed(Run(s, acts))
  {
    hide Run, AllFlushed;
    var t := s.timer.id;
    var f := Next(s, Fire(t));
    var c := Next(f, Callback(t));
    assert c.batches == s.batches + [Batch(s.pending, Taken)];
    var more := OvertakesTaken(c, |s.batches|);
    acts := [Fire(t)] + ([Callback(t)] + more);
    RunTwice(s, [Fire(t)], [Callback(t)] + more);
    RunTwice(f, [Callback(t)], more);
    RunOne(s, Fire(t));
    RunOne(f, Callback(t));
  }

  /** A Submit past its check can still queue its item, or take a batch with it. */
  lemma OvertakesInside(s: State) returns (acts: seq<Action>)
    requires Watched(s) && s.done && s.inside.Some?
    ensures Run(s, acts).returned && !AllFlushed(Run(s, acts))
  {
    hide Run, AllFlushed;
    var c := Next(s, Commit);
    StepWatches(s, Commit);
    var more;
    if c.pending != [] {
      more := OvertakesPending(c);
    } else {
      assert c.batches[|s.batches|].phase == Taken;
      more := OvertakesTaken(c, |s.batches|);
    }
    acts := [Commit] + more;
    RunTwice(s, [Commit], more);
    RunOne(s, Commit);
  }

  /** At the moment Stop is called: whatever happens afterwards, everything accepted is posted by the time
      Stop returns, exactly when nothing is pending, no Submit is past its check of done, and no flush sits
      between giving up the lock and wg.Add. */
  lemma StopCompleteIff(maxSize: int, before: seq<Action>)
    requires !Run(Init(maxSize), before).done
    ensures var s := Next(Run(Init(maxSize), before), CloseDone);
            (forall acts :: Run(s, acts).returned ==> AllFlushed(Run(s, acts)))
            <==> s.pending == [] && s.inside.None? && NoneTaken(s)
  {
    hide Run, AllFlushed;
    Invariant(maxSize, before);
    var s := Next(Run(Init(maxSize), before), CloseDone);
    if s.inside.Some? {
      var acts := OvertakesInside(s);
    } else if s.pending != [] {
      var acts := OvertakesPending(s);
    } else if !NoneTaken(s) {
      var b :| 0 <= b < |s.batches| && s.batches[b].phase == Taken;
      var acts := OvertakesTaken(s, b);
    } else {
      forall acts
        ensures Run(s, acts).returned ==> AllFlushed(Run(s, acts))
      {
        QuietRun(s, acts);
      }
    }
  }

  // ---- Who takes a batch ----

  /** A batch is taken by the Submit that fills it, by the callback of a timer that has fired, or by Stop; and while a
      Submit holds the lock by nobody else. */
  lemma TakersAreKnown(s: State, a: Action)
    requires |Next(s, a).batches| != |s.batches| || Next(s, a).accepted != s.accepted || Next(s, a).pending != s.pending
    ensures || (a.Commit? && s.inside.Some?)
            || (a.Callback? && s.inside.None? && a.timer in s.fired)
            || (a.Drain? && s.inside.None? && s.done && !s.drained)
  {
  }

  /** A Submit takes a batch exactly when it fills it, and then everything pending; otherwise it starts a timer exactly
      when none is running, so the first item of a batch decides how long it waits. */
  lemma SubmitDecides(s: State)
    requires s.inside.Some?
    ensures var t, items := Next(s, Commit), s.pending + [s.inside.value];
            if |items| >= s.maxSize then t.pending == [] && t.batches == s.batches + [Batch(items, Taken)]
            else
              && t.pending == items && t.batches == s.batches
              && (if s.timer.Timer? then t.timer == s.timer && t.armed == s.armed
                  else t.timer == Timer(s.nextTimer) && t.armed == s.armed + {s.nextTimer})
  {
  }

  /** No timer is both armed and waiting, and both are among those started. */
  ghost predicate TimersOk(s: State) {
    && (forall t :: t in s.armed ==> t !in s.fired && t < s.nextTimer)
    && (forall t :: t in s.fired ==> t < s.nextTimer)
  }

  /** A callback waits only for a timer that was started and has fired. */
  lemma {:induction false} FiredWereStarted(maxSize: int, acts: seq<Action>)
    ensures var s := Run(Init(maxSize), acts); TimersOk(s) && forall t :: t in s.fired ==> Fire(t) in acts
  {
    hide Next;
    if acts != [] {
      var init, a := acts[..|acts| - 1], acts[|acts| - 1];
      FiredWereStarted(maxSize, init);
      TimerStep(Run(Init(maxSize), init), a);
      assert forall x :: x in init ==> x in acts;
      assert a in acts;
    }
  }

  /** What a step does to the timers. */
  ghost predicate TimersMove(s: State, a: Action, e: State) {
    && TimersOk(e) && s.nextTimer <= e.nextTimer
    && (forall t :: t in e.fired ==> t in s.fired || (a == Fire(t) && t in s.armed))
    && (forall t :: t in e.armed ==> t in s.armed || t == s.nextTimer)
  }

  lemma QueuedTimers(s: State, item: nat)
    requires TimersOk(s)
    ensures TimersMove(s, Commit, Queued(s, item))
  {
  }

  lemma TimerStep(s: State, a: Action)
    requires TimersOk(s)
    ensures TimersMove(s, a, Next(s, a))
  {
    hide Queued;
    match a
    case Commit => if s.inside.Some? { QueuedTimers(s, s.inside.value); }
    case Fire(_) =>
    case Callback(_) =>
    case Drain =>
    case _ =>
  }

  /** A timer that is neither armed nor waiting is over. */
  predicate Over(s: State, t: nat) {
    t < s.nextTimer && t !in s.armed && t !in s.fired
  }

  lemma {:induction false} OverForGood(maxSize: int, acts: seq<Action>, more: seq<Action>, t: nat)
    requires Over(Run(Init(maxSize), acts), t)
    ensures Over(Run(Init(maxSize), acts + more), t)
  {
    hide Next, Run;
    if more == [] {
      assert acts + more == acts;
    } else {
      var n := |more| - 1;
      OverForGood(maxSize, acts, more[..n], t);
      FiredWereStarted(maxSize, acts + more[..n]);
      TimerStep(Run(Init(maxSize), acts + more[..n]), more[n]);
      assert acts + more == (acts + more[..n]) + [more[n]];
      RunStep(Init(maxSize), acts + more[..n], more[n]);
    }
  }

  /** A timer that is stopped before it fires, by the Submit that fills the batch or by Stop, never runs its
      callback. */
  lemma StoppedTimerNeverRuns(maxSize: int, acts: seq<Action>, a: Action, more: seq<Action>)
    requires var s := Run(Init(maxSize), acts);
             && s.timer.Timer? && s.timer.id in s.armed
             && ((a.Commit? && s.inside.Some? && |s.pending| + 1 >= maxSize)
                 || (a.Drain? && s.inside.None? && s.done && !s.drained))
    ensures var t := Run(Init(maxSize), acts).timer.id; t !in Run(Init(maxSize), acts + [a] + more).fired
  {
    hide Run;
    var s := Run(Init(maxSize), acts);
    FiredWereStarted(maxSize, acts);
    SameMaxSize(Init(maxSize), acts);
    RunStep(Init(maxSize), acts, a);
    OverForGood(maxSize, acts + [a], more, s.timer.id);
  }

  lemma {:induction false} SameMaxSize(s: State, acts: seq<Action>)
    ensures Run(s, acts).maxSize == s.maxSize
  {
    if acts != [] {
      SameMaxSize(s, acts[..|acts| - 1]);
    }
  }

  // ---- Everything can be posted ----

  lemma LaunchAndFinish(s: State, b: nat)
    requires b < |s.batches|
    ensures Next(Next(s, Launch(b)), Finish(b)) == s.(batches := s.batches[b := s.batches[b].(phase := Flushed)])
  {
    assert s.batches[b := s.batches[b]] == s.batches;
  }

  /** The taken flushes can all be launched and finished. */
  lemma {:induction false} FlushAll(s: State, n: nat) returns (acts: seq<Action>)
    requires n <= |s.batches|
    ensures var e := Run(s, acts);
            && e == s.(batches := e.batches) && |e.batches| == |s.batches|
            && (forall i :: 0 <= i < n ==> e.batches[i] == s.batches[i].(phase := Flushed))
            && (forall i :: n <= i < |s.batches| ==> e.batches[i] == s.batches[i])
  {
    if n == 0 {
      acts := [];
    } else {
      hide Run, Next;
      var before := FlushAll(s, n - 1);
      acts := before + [Launch(n - 1)] + [Finish(n - 1)];
      RunStep(s, before, Launch(n - 1));
      RunStep(s, before + [Launch(n - 1)], Finish(n - 1));
      LaunchAndFinish(Run(s, before), n - 1);
    }
  }

  /** What is pending can be taken. */
  lemma TakeAll(s: State) returns (acts: seq<Action>)
    requires Watched(s)
    ensures Run(s, acts).pending == [] && s.accepted <= Run(s, acts).accepted
  {
    hide Run;
    var c := Next(s, Commit);
    StepWatches(s, Commit);
    RunOne(s, Commit);
    acts := [Commit];
    if c.pending != [] {
      var t := c.timer.id;
      acts := [Commit] + [Fire(t)] + [Callback(t)];
      RunStep(s, [Commit], Fire(t));
      RunStep(s, [Commit] + [Fire(t)], Callback(t));
    }
  }

  /** Whatever happened so far, some continuation posts every accepted item. */
  lemma EverythingCanBePosted(maxSize: int, acts: seq<Action>) returns (more: seq<Action>)
    ensures var s, e := Run(Init(maxSize), acts), Run(Init(maxSize), acts + more);
            s.accepted <= e.accepted && e.accepted == Flatten(e.batches) && AllFlushed(e)
  {
    hide Run, Next, Flatten, Watched;
    var s := Run(Init(maxSize), acts);
    Invariant(maxSize, acts);
    var first := TakeAll(s);
    var t := Run(s, first);
    var second := FlushAll(t, |t.batches|);
    more := first + second;
    RunTwice(s, first, second);
    RunTwice(Init(maxSize), acts, more);
    Invariant(maxSize, acts + more);
    var e := Run(t, second);
    assert Flatten(e.batches) + [] == Flatten(e.batches);
  }

  // ---- Stop can be overtaken ----

  lemma TakenBeforeDrain()
    ensures var s := Next(Next(Next(Init(1), Enter(7)), CloseDone), Commit);
            s.batches == [Batch([7], Taken)] && s.accepted == [7] && s.done && !s.drained && s.inside.None?
            && s.pending == []
  {
  }

  lemma DrainAndReturn(s: State)
    requires s.batches == [Batch([7], Taken)] && s.done && !s.drained && s.inside.None? && s.pending == []
    ensures var t := Next(Next(s, Drain), Return);
            t.returned && t.accepted == s.accepted && !AllFlushed(t)
  {
    var d := Next(s, Drain);
    assert d.batches == s.batches && d.drained && NoneRunning(d);
    assert Next(d, Return).batches[0].phase == Taken;
  }

  lemma RunFive(s: State, a: Action, b: Action, c: Action, d: Action, e: Action)
    ensures Run(s, [a, b, c, d, e]) == Next(Next(Next(Next(Next(s, a), b), c), d), e)
  {
    hide Run, Next;
    RunOne(s, a);
    RunStep(s, [a], b);
    RunStep(s, [a] + [b], c);
    RunStep(s, [a] + [b] + [c], d);
    RunStep(s, [a] + [b] + [c] + [d], e);
    assert [a, b, c, d, e] == [a] + [b] + [c] + [d] + [e];
  }

  /** Stop can return before an accepted item is posted: the size-triggered flush calls wg.Add after
      releasing the lock. Here Stop is even called before the item is queued. */
  lemma StopCanReturnEarly() returns (acts: seq<Action>)
    ensures acts == [Enter(7), CloseDone, Commit, Drain, Return]
    ensures var s := Run(Init(1), acts); s.returned && s.accepted == [7] && !AllFlushed(s)
  {
    hide Run, Next, AllFlushed;
    acts := [Enter(7), CloseDone, Commit, Drain, Return];
    TakenBeforeDrain();
    DrainAndReturn(Next(Next(Next(Init(1), Enter(7)), CloseDone), Commit));
    RunFive(Init(1), Enter(7), CloseDone, Commit, Drain, Return);
  }
}
