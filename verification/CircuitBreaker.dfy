/** The circuit breaker (resilience/circuitbreaker.go): the object, and every interleaving of calls
    that are admitted, run for a while and report back. */
module CircuitBreaker {

  datatype Mode = Closed | Open | HalfOpen

  /** The options accept only positive numbers. */
  datatype Config = Config(failureThreshold: nat, resetTimeout: nat, halfOpenMax: nat, successThreshold: nat) {
    predicate Valid() {
      failureThreshold > 0 && resetTimeout > 0 && halfOpenMax > 0 && successThreshold > 0
    }
  }

  datatype Core = Core(mode: Mode, failures: nat, successes: nat, probes: nat, lastFailure: nat)

  const INITIAL := Core(Closed, 0, 0, 0, 0)

  function Transition(c: Core, to: Mode): Core {
    if c.mode == to then c else c.(mode := to, probes := 0, successes := 0)
  }

  /** currentStateLocked: an open circuit whose timeout has elapsed becomes half-open. */
  function Effective(cfg: Config, c: Core, now: nat): Core {
    if c.mode == Open && now - c.lastFailure >= cfg.resetTimeout then Transition(c, HalfOpen) else c
  }

  predicate Admits(cfg: Config, c: Core, now: nat) {
    var e := Effective(cfg, c, now);
    e.mode == Closed || (e.mode == HalfOpen && e.probes < cfg.halfOpenMax)
  }

  function AfterAsk(cfg: Config, c: Core, now: nat): Core {
    var e := Effective(cfg, c, now);
    if e.mode == HalfOpen && e.probes < cfg.halfOpenMax then e.(probes := e.probes + 1) else e
  }

  function AfterSuccess(cfg: Config, c: Core): Core {
    var d := c.(failures := 0);
    if d.mode != HalfOpen then d
    else
      var e := d.(successes := d.successes + 1);
      if e.successes >= cfg.successThreshold then Transition(e, Closed) else e
  }

  function AfterFailure(cfg: Config, c: Core, now: nat): Core {
    var d := c.(failures := c.failures + 1, successes := 0, lastFailure := now);
    match d.mode
    case Closed => if d.failures >= cfg.failureThreshold then Transition(d, Open) else d
    case HalfOpen => Transition(d, Open)
    case Open => d
  }

  class Breaker {
    const cfg: Config
    var mode: Mode
    var consecutiveFailures: nat
    var consecutiveSuccess: nat
    var halfOpenRequests: nat
    var lastFailureTime: nat

    ghost function View(): Core
      reads this
    {
      Core(mode, consecutiveFailures, consecutiveSuccess, halfOpenRequests, lastFailureTime)
    }

    constructor (cfg: Config)
      ensures this.cfg == cfg && View() == INITIAL
    {
      this.cfg := cfg;
      mode := Closed;
      consecutiveFailures, consecutiveSuccess, halfOpenRequests, lastFailureTime := 0, 0, 0, 0;
    }

    method TransitionLocked(to: Mode)
      modifies this
      ensures View() == Transition(old(View()), to)
    {
      if mode == to {
        return;
      }
      mode := to;
      halfOpenRequests := 0;
      consecutiveSuccess := 0;
    }

    method CurrentStateLocked(now: nat) returns (m: Mode)
      modifies this
      ensures View() == Effective(cfg, old(View()), now) && m == mode
    {
      if mode == Open && now - lastFailureTime >= cfg.resetTimeout {
        TransitionLocked(HalfOpen);
      }
      return mode;
    }

    method AllowRequest(now: nat) returns (allowed: bool)
      modifies this
      ensures View() == AfterAsk(cfg, old(View()), now)
      ensures allowed <==> Admits(cfg, old(View()), now)
    {
      var state := CurrentStateLocked(now);
      match state {
        case Closed => return true;
        case Open => return false;
        case HalfOpen =>
          if halfOpenRequests < cfg.halfOpenMax {
            halfOpenRequests := halfOpenRequests + 1;
            return true;
          }
          return false;
      }
    }

    method RecordSuccess()
      modifies this
      ensures View() == AfterSuccess(cfg, old(View()))
    {
      consecutiveFailures := 0;
      if mode == HalfOpen {
        consecutiveSuccess := consecutiveSuccess + 1;
        if consecutiveSuccess >= cfg.successThreshold {
          TransitionLocked(Closed);
        }
      }
    }

    method RecordFailure(now: nat)
      modifies this
      ensures View() == AfterFailure(cfg, old(View()), now)
    {
      consecutiveFailures := consecutiveFailures + 1;
      consecutiveSuccess := 0;
      lastFailureTime := now;
      match mode {
        case Closed =>
          if consecutiveFailures >= cfg.failureThreshold {
            TransitionLocked(Open);
          }
        case HalfOpen => TransitionLocked(Open);
        case Open =>
      }
    }
  }

  // ---- Calls in flight ----

  /** `current` calls were admitted since the last change of mode, `earlier` ones before it; a call of
      either kind may still report, or panic and never report. `lost` counts the calls of the current mode
      that panicked. `history` records every reported outcome, true for success. */
  datatype State = State(core: Core, now: nat, current: nat, earlier: nat, lost: nat, history: seq<bool>)

  datatype Action =
    | Wait(d: nat)
    | Ask
    | Peek
    | Report(success: bool, late: bool)
    | Panic(late: bool)

  const START := State(INITIAL, 0, 0, 0, 0, [])

  /** A change of mode turns all calls in flight into earlier ones. */
  function Install(s: State, c: Core): State {
    if c.mode == s.core.mode then s.(core := c)
    else s.(core := c, current := 0, earlier := s.earlier + s.current, lost := 0)
  }

  function Next(cfg: Config, s: State, a: Action): State {
    match a
    case Wait(d) => s.(now := s.now + d)
    case Peek => Install(s, Effective(cfg, s.core, s.now))
    case Ask =>
      var t := Install(s, AfterAsk(cfg, s.core, s.now));
      if Admits(cfg, s.core, s.now) then t.(current := t.current + 1) else t
    case Report(success, late) =>
      if (if late then s.earlier else s.current) == 0 then s
      else
        var t := if late then s.(earlier := s.earlier - 1) else s.(current := s.current - 1);
        var c := if success then AfterSuccess(cfg, t.core) else AfterFailure(cfg, t.core, t.now);
        Install(t.(history := t.history + [success]), c)
    case Panic(late) =>
      if (if late then s.earlier else s.current) == 0 then s
      else if late then s.(earlier := s.earlier - 1)
      else s.(current := s.current - 1, lost := s.lost + 1)
  }

  function Run(cfg: Config, s: State, acts: seq<Action>): State {
    if acts == [] then s else Next(cfg, Run(cfg, s, acts[..|acts| - 1]), acts[|acts| - 1])
  }

  /** Length of the run of failures at the end. */
  function Trailing(history: seq<bool>): nat {
    if history == [] || history[|history| - 1] then 0 else 1 + Trailing(history[..|history| - 1])
  }

  ghost predicate Inv(cfg: Config, s: State) {
    && s.core.failures == Trailing(s.history)
    && (s.core.mode == Closed ==> s.core.failures < cfg.failureThreshold)
    && s.core.lastFailure <= s.now
    && (s.core.mode == HalfOpen ==>
          && s.now - s.core.lastFailure >= cfg.resetTimeout
          && s.core.successes < cfg.successThreshold
          && s.core.probes <= cfg.halfOpenMax
          && s.core.probes <= s.current + s.core.successes + s.lost)
    && (s.core.mode != HalfOpen ==> s.core.probes == 0 && s.core.successes == 0)
  }

  lemma TrailingAppend(history: seq<bool>, success: bool)
    ensures Trailing(history + [success]) == if success then 0 else Trailing(history) + 1
  {
    assert (history + [success])[..|history|] == history;
  }

  lemma SuccessInv(cfg: Config, s: State, late: bool)
    requires cfg.Valid() && Inv(cfg, s)
    ensures Inv(cfg, Next(cfg, s, Report(true, late)))
  {
    hide Trailing;
    TrailingAppend(s.history, true);
  }

  lemma FailureInv(cfg: Config, s: State, late: bool)
    requires cfg.Valid() && Inv(cfg, s)
    ensures Inv(cfg, Next(cfg, s, Report(false, late)))
  {
    hide Trailing;
    TrailingAppend(s.history, false);
  }

  lemma StepInv(cfg: Config, s: State, a: Action)
    requires cfg.Valid() && Inv(cfg, s)
    ensures Inv(cfg, Next(cfg, s, a))
  {
    hide Trailing, AfterSuccess, AfterFailure;
    if a.Report? {
      if a.success {
        SuccessInv(cfg, s, a.late);
      } else {
        FailureInv(cfg, s, a.late);
      }
    }
  }

  lemma {:induction false} Reachable(cfg: Config, acts: seq<Action>)
    requires cfg.Valid()
    ensures Inv(cfg, Run(cfg, START, acts))
  {
    if acts != [] {
      Reachable(cfg, acts[..|acts| - 1]);
      StepInv(cfg, Run(cfg, START, acts[..|acts| - 1]), acts[|acts| - 1]);
    }
  }

  /** The failure counter is the trailing run of failures, and a closed circuit is always below its
      threshold. */
  lemma CountsTrailingFailures(cfg: Config, acts: seq<Action>)
    requires cfg.Valid()
    ensures var s := Run(cfg, START, acts);
            s.core.failures == Trailing(s.history)
              && (s.core.mode == Closed ==> Trailing(s.history) < cfg.failureThreshold)
  {
    Reachable(cfg, acts);
  }

  /** Unless the circuit is closed, nothing is admitted within resetTimeout of the last failure. */
  lemma {:induction false} NothingAdmittedTooSoon(cfg: Config, acts: seq<Action>)
    requires cfg.Valid()
    ensures var s := Run(cfg, START, acts);
            Admits(cfg, s.core, s.now) && s.core.mode != Closed ==> s.now - s.core.lastFailure >= cfg.resetTimeout
  {
    Reachable(cfg, acts);
  }

  /** In every reachable state a reported failure leaves a closed circuit open exactly when it completes a run of
      failureThreshold failures, and any other circuit always. */
  lemma TripsIff(cfg: Config, acts: seq<Action>, late: bool)
    requires cfg.Valid()
    requires var s := Run(cfg, START, acts); (if late then s.earlier else s.current) > 0
    ensures var s := Run(cfg, START, acts);
            var t := Next(cfg, s, Report(false, late));
            && t.history == s.history + [false]
            && t.core.mode == (if s.core.mode != Closed || Trailing(t.history) >= cfg.failureThreshold then Open
              else Closed)
  {
    hide Run, Trailing, Next;
    Reachable(cfg, acts);
    FailureTrips(cfg, Run(cfg, START, acts), late);
  }

  lemma FailureTrips(cfg: Config, s: State, late: bool)
    requires Inv(cfg, s) && (if late then s.earlier else s.current) > 0
    ensures var t := Next(cfg, s, Report(false, late));
            && t.history == s.history + [false]
            && t.core.mode == (if s.core.mode != Closed || Trailing(t.history) >= cfg.failureThreshold then Open
              else Closed)
  {
    hide Trailing;
    TrailingAppend(s.history, false);
  }

  // ---- Recovery ----

  /** The backend is well: whoever reports reports a success. */
  predicate Healthy(acts: seq<Action>) {
    forall i :: 0 <= i < |acts| ==> acts[i].Report? ==> acts[i].success
  }

  /** A reported success closes a half-open circuit or leaves the mode alone; it never opens one. */
  lemma SuccessNeverOpens(cfg: Config, c: Core)
    ensures AfterSuccess(cfg, c).mode != c.mode ==> c.mode == HalfOpen && AfterSuccess(cfg, c).mode == Closed
  {
  }

  /** Reports since a state was reached. */
  function Since(s: State, t: State): int {
    |t.history| - |s.history|
  }

  /** How far a half-open circuit has come since s. */
  ghost predicate Recovering(cfg: Config, s: State, t: State) {
    && |s.history| <= |t.history|
    && if s.core.successes + Since(s, t) >= cfg.successThreshold then t.core.mode == Closed
       else t.core.mode == HalfOpen && t.core.successes == s.core.successes + Since(s, t)
  }

  lemma RecoveringStep(cfg: Config, s: State, t: State, a: Action)
    requires Recovering(cfg, s, t) && (a.Report? ==> a.success)
    ensures Recovering(cfg, s, Next(cfg, t, a))
  {
  }

  /** In every run, while the reports are successes: a half-open circuit is closed again exactly when as many have
      come as it was short of, and half-open until then. */
  lemma {:induction false} RecoversAfter(cfg: Config, before: seq<Action>, acts: seq<Action>)
    requires cfg.Valid() && Healthy(acts) && Run(cfg, START, before).core.mode == HalfOpen
    ensures var s, t := Run(cfg, START, before), Run(cfg, Run(cfg, START, before), acts);
            && (t.core.mode == Closed <==> Since(s, t) >= cfg.successThreshold - s.core.successes)
            && (t.core.mode == Closed || t.core.mode == HalfOpen)
  {
    hide Run;
    Reachable(cfg, before);
    RecoveringRun(cfg, Run(cfg, START, before), acts);
  }

  lemma {:induction false} RecoveringRun(cfg: Config, s: State, acts: seq<Action>)
    requires s.core.mode == HalfOpen && s.core.successes < cfg.successThreshold && Healthy(acts)
    ensures Recovering(cfg, s, Run(cfg, s, acts))
  {
    hide Next;
    if acts != [] {
      RecoveringRun(cfg, s, acts[..|acts| - 1]);
      RecoveringStep(cfg, s, Run(cfg, s, acts[..|acts| - 1]), acts[|acts| - 1]);
    }
  }

  /** Successes a half-open circuit has, or can still get: from the probes under way, from late finishers, and from
      the slots that are left. An open circuit starts over. */
  function Potential(cfg: Config, s: State): int {
    s.current + s.earlier + cfg.halfOpenMax + (if s.core.mode == HalfOpen then s.core.successes - s.core.probes else 0)
  }

  predicate Recoverable(cfg: Config, s: State) {
    s.core.mode == Closed || Potential(cfg, s) >= cfg.successThreshold
  }

  /** A healthy step adds no potential, and without enough of it nothing closes. */
  lemma StuckStep(cfg: Config, s: State, a: Action)
    requires cfg.Valid() && Inv(cfg, s) && !Recoverable(cfg, s) && (a.Report? ==> a.success)
    ensures !Recoverable(cfg, Next(cfg, s, a))
  {
    hide Trailing;
  }

  lemma {:induction false} StuckRun(cfg: Config, s: State, acts: seq<Action>)
    requires cfg.Valid() && Inv(cfg, s) && !Recoverable(cfg, s) && Healthy(acts)
    ensures !Recoverable(cfg, Run(cfg, s, acts)) && Inv(cfg, Run(cfg, s, acts))
  {
    hide Next, Inv, Recoverable;
    if acts != [] {
      StuckRun(cfg, s, acts[..|acts| - 1]);
      StuckStep(cfg, Run(cfg, s, acts[..|acts| - 1]), acts[|acts| - 1]);
      StepInv(cfg, Run(cfg, s, acts[..|acts| - 1]), acts[|acts| - 1]);
    }
  }

  lemma {:induction false} RunTwice(cfg: Config, s: State, first: seq<Action>, second: seq<Action>)
    ensures Run(cfg, s, first + second) == Run(cfg, Run(cfg, s, first), second)
  {
    hide Next;
    if second == [] {
      assert first + second == first;
    } else {
      RunTwice(cfg, s, first, second[..|second| - 1]);
      assert (first + second)[..|first + second| - 1] == first + second[..|second| - 1];
    }
  }

  /** One success nearer to closing, or closed. */
  ghost predicate Nearer(cfg: Config, s: State, t: State) {
    if s.core.successes + 1 == cfg.successThreshold then t.core.mode == Closed
    else t.core.mode == HalfOpen && t.core.successes == s.core.successes + 1 && Potential(cfg, t) == Potential(cfg, s)
  }

  lemma ReportNearer(cfg: Config, s: State, late: bool)
    requires s.core.mode == HalfOpen && s.core.successes < cfg.successThreshold
    requires (if late then s.earlier else s.current) > 0
    ensures Nearer(cfg, s, Next(cfg, s, Report(true, late)))
  {
  }

  lemma AskForProbe(cfg: Config, s: State)
    requires s.core.mode == HalfOpen && s.core.probes < cfg.halfOpenMax
    ensures var t := Next(cfg, s, Ask);
            && t.core == s.core.(probes := s.core.probes + 1) && t.current == s.current + 1 && t.earlier == s.earlier
            && Potential(cfg, t) == Potential(cfg, s)
  {
  }

  /** The next success: from a probe under way, a late finisher or a new probe. */
  lemma OneMoreSuccess(cfg: Config, s: State) returns (acts: seq<Action>)
    requires s.core.mode == HalfOpen && s.core.successes < cfg.successThreshold && Recoverable(cfg, s)
    ensures Healthy(acts) && Nearer(cfg, s, Run(cfg, s, acts))
  {
    hide Run, Next;
    RunNothing(cfg, s);
    if s.current > 0 || s.earlier > 0 {
      var a := Report(true, s.current == 0);
      acts := [] + [a];
      RunStep(cfg, s, [], a);
      ReportNearer(cfg, s, s.current == 0);
    } else {
      acts := [] + [Ask] + [Report(true, false)];
      RunStep(cfg, s, [], Ask);
      RunStep(cfg, s, [] + [Ask], Report(true, false));
      AskForProbe(cfg, s);
      ReportNearer(cfg, Next(cfg, s, Ask), false);
    }
  }

  lemma {:induction false} Closing(cfg: Config, s: State) returns (acts: seq<Action>)
    requires s.core.mode == HalfOpen && s.core.successes < cfg.successThreshold && Recoverable(cfg, s)
    ensures Healthy(acts) && Run(cfg, s, acts).core.mode == Closed
    decreases cfg.successThreshold - s.core.successes
  {
    hide Run;
    acts := OneMoreSuccess(cfg, s);
    if s.core.successes + 1 < cfg.successThreshold {
      var more := Closing(cfg, Run(cfg, s, acts));
      RunTwice(cfg, s, acts, more);
      acts := acts + more;
    }
  }

  /** After the timeout an open circuit tries again. */
  lemma TryingAgain(cfg: Config, s: State) returns (acts: seq<Action>)
    requires cfg.Valid() && s.core.mode == Open && s.core.lastFailure <= s.now && Recoverable(cfg, s)
    ensures Healthy(acts)
    ensures var t := Run(cfg, s, acts);
            t.core.mode == HalfOpen && t.core.successes == 0 && Recoverable(cfg, t)
  {
    hide Run;
    acts := [] + [Wait(cfg.resetTimeout)] + [Peek];
    RunNothing(cfg, s);
    RunStep(cfg, s, [], Wait(cfg.resetTimeout));
    RunStep(cfg, s, [] + [Wait(cfg.resetTimeout)], Peek);
  }

  /** From every reachable state a healthy backend can close the circuit again exactly when the circuit is closed or
      the calls under way and the free slots suffice for the successes it still needs. */
  lemma RecoversIff(cfg: Config, before: seq<Action>)
    requires cfg.Valid()
    ensures var s := Run(cfg, START, before);
            (exists acts :: Healthy(acts) && Run(cfg, s, acts).core.mode == Closed) <==> Recoverable(cfg, s)
  {
    hide Run, Recoverable, Healthy;
    var s := Run(cfg, START, before);
    Reachable(cfg, before);
    if Recoverable(cfg, s) {
      var acts := Recovery(cfg, s);
    } else {
      forall acts | Healthy(acts)
        ensures Run(cfg, s, acts).core.mode != Closed
      {
        StuckRun(cfg, s, acts);
        ClosedIsRecoverable(cfg, Run(cfg, s, acts));
      }
    }
  }

  lemma ClosedIsRecoverable(cfg: Config, s: State)
    ensures s.core.mode == Closed ==> Recoverable(cfg, s)
  {
  }

  lemma Recovery(cfg: Config, s: State) returns (acts: seq<Action>)
    requires cfg.Valid() && Inv(cfg, s) && Recoverable(cfg, s)
    ensures Healthy(acts) && Run(cfg, s, acts).core.mode == Closed
  {
    hide Run, Recoverable, Trailing;
    match s.core.mode
    case Closed =>
      acts := [];
      RunNothing(cfg, s);
    case HalfOpen => acts := Closing(cfg, s);
    case Open =>
      var first := TryingAgain(cfg, s);
      var second := Closing(cfg, Run(cfg, s, first));
      acts := first + second;
      RunTwice(cfg, s, first, second);
  }

  lemma RunNothing(cfg: Config, s: State)
    ensures Run(cfg, s, []) == s
  {
  }

  /** A breaker with enough slots, those of probes that panicked apart, never loses the way back. */
  lemma EnoughSlotsRecover(cfg: Config, before: seq<Action>)
    requires cfg.Valid() && cfg.halfOpenMax >= cfg.successThreshold + Run(cfg, START, before).lost
    ensures exists acts :: Healthy(acts) && Run(cfg, Run(cfg, START, before), acts).core.mode == Closed
  {
    hide Run, Healthy, Trailing;
    Reachable(cfg, before);
    RecoversIff(cfg, before);
  }

  // ---- Wedging ----

  /** Half-open, every probe slot used, and no probe left to report. */
  predicate Wedged(cfg: Config, s: State) {
    s.core.mode == HalfOpen && s.core.probes == cfg.halfOpenMax && s.current == 0
  }

  /** A breaker with spare slots wedges only if more probes of the current phase panicked than it has to
      spare; with enough slots and no panic it never does. */
  lemma NeverWedges(cfg: Config, acts: seq<Action>, panics: nat)
    requires cfg.Valid() && cfg.halfOpenMax >= cfg.successThreshold + panics
    ensures Wedged(cfg, Run(cfg, START, acts)) ==> Run(cfg, START, acts).lost > panics
  {
    Reachable(cfg, acts);
  }

  lemma RunStep(cfg: Config, s: State, acts: seq<Action>, a: Action)
    ensures Run(cfg, s, acts + [a]) == Next(cfg, Run(cfg, s, acts), a)
  {
    assert (acts + [a])[..|acts|] == acts;
  }

  /** A fresh breaker that has seen k failed calls. */
  lemma {:induction false} Failing(cfg: Config, k: nat) returns (acts: seq<Action>)
    requires cfg.Valid() && k <= cfg.failureThreshold
    ensures var s := Run(cfg, START, acts);
            && s.core == Core(if k == cfg.failureThreshold then Open else Closed, k, 0, 0, 0)
            && s.current == 0 && s.earlier == 0 && s.lost == 0 && s.now == 0
  {
    if k == 0 {
      acts := [];
    } else {
      var before := Failing(cfg, k - 1);
      acts := before + [Ask] + [Report(false, false)];
      RunStep(cfg, START, before, Ask);
      RunStep(cfg, START, before + [Ask], Report(false, false));
    }
  }

  /** After tripping and waiting, k probes of which the first ones succeeded, one short of closing the
      circuit, and the others panicked. */
  lemma {:induction false} Probing(cfg: Config, k: nat) returns (acts: seq<Action>)
    requires cfg.Valid() && k <= cfg.halfOpenMax
    ensures var s := Run(cfg, START, acts);
            && s.core.mode == HalfOpen && s.core.probes == k && s.current == 0 && s.earlier == 0
            && s.core.successes == (if k < cfg.successThreshold then k else cfg.successThreshold - 1)
            && s.lost == k - s.core.successes
  {
    if k == 0 {
      var before := Failing(cfg, cfg.failureThreshold);
      acts := before + [Wait(cfg.resetTimeout)] + [Peek];
      RunStep(cfg, START, before, Wait(cfg.resetTimeout));
      RunStep(cfg, START, before + [Wait(cfg.resetTimeout)], Peek);
    } else {
      var before := Probing(cfg, k - 1);
      var last := if k < cfg.successThreshold then Report(true, false) else Panic(false);
      acts := before + [Ask] + [last];
      RunStep(cfg, START, before, Ask);
      RunStep(cfg, START, before + [Ask], last);
    }
  }

  /** The breaker survives any number of panicking probes up to a given one exactly when it has that many
      slots more than it needs successes. For none: it never wedges without a panic exactly when it has at
      least as many slots as it needs successes. */
  lemma NeverWedgesIff(cfg: Config, panics: nat)
    requires cfg.Valid()
    ensures (forall acts :: Wedged(cfg, Run(cfg, START, acts)) ==> Run(cfg, START, acts).lost > panics)
            <==> cfg.halfOpenMax >= cfg.successThreshold + panics
  {
    hide Run, Wedged;
    if cfg.halfOpenMax >= cfg.successThreshold + panics {
      forall acts
        ensures Wedged(cfg, Run(cfg, START, acts)) ==> Run(cfg, START, acts).lost > panics
      {
        NeverWedges(cfg, acts, panics);
      }
    } else {
      var acts := Wedging(cfg);
    }
  }

  /** Every breaker can wedge: all its slots used, one success short of closing, the rest lost to panics. */
  lemma Wedging(cfg: Config) returns (acts: seq<Action>)
    requires cfg.Valid()
    ensures var s := Run(cfg, START, acts);
            && Wedged(cfg, s) && s.earlier == 0
            && s.lost == if cfg.halfOpenMax < cfg.successThreshold then 0
              else cfg.halfOpenMax - cfg.successThreshold + 1
  {
    acts := Probing(cfg, cfg.halfOpenMax);
  }

  /** A wedge with no call left in flight is permanent: every later request is refused. */
  lemma {:induction false} WedgeIsPermanent(cfg: Config, s: State, acts: seq<Action>)
    requires Wedged(cfg, s) && s.earlier == 0
    ensures Run(cfg, s, acts).core == s.core && Run(cfg, s, acts).current == 0 && Run(cfg, s, acts).earlier == 0
    ensures !Admits(cfg, Run(cfg, s, acts).core, Run(cfg, s, acts).now)
  {
    if acts != [] {
      WedgeIsPermanent(cfg, s, acts[..|acts| - 1]);
    }
  }
}
