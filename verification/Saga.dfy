/** The transfer saga (core/engine.go, domain/transfer.go): handlers load a snapshot, decide, and commit
    the new status together with outbox intents if nobody committed in between. Any number of handlers,
    duplicated and redelivered at will, race on one transfer. */
module Saga {
  import opened Wrappers

  datatype Status =
    | Created | Funded | OnRamping | Settling | OffRamping | Completed | Failed | Refunding | Refunded

  /** Outbox intents. A ledger reversal carries the mirrored on-ramp lines, or none. */
  datatype Intent =
    | TreasuryReserve
    | TreasuryRelease
    | TreasuryConsume
    | ProviderOnRamp
    | ProviderOffRamp
    | LedgerPostOnRamp
    | LedgerPostCompletion
    | LedgerReverse(hasLines: bool)
    | BlockchainSend
    | WebhookDeliver

  datatype Handler =
    | FundTransfer
    | InitiateOnRamp
    | HandleOnRampResult(success: bool)
    | HandleSettlementResult(success: bool)
    | HandleOffRampResult(success: bool)
    | CompleteTransfer
    | FailTransfer
    | InitiateRefund
    | HandleRefundResult(success: bool)

  datatype Decision = Commit(to: Status, intents: seq<Intent>) | Skip | Reject

  /** ValidTransitions */
  predicate CanTransition(from: Status, to: Status) {
    match from
    case Created => to == Funded || to == Failed
    case Funded => to == OnRamping || to == Refunding
    case OnRamping => to == Settling || to == Refunding || to == Failed
    case Settling => to == OffRamping || to == Failed
    case OffRamping => to == Completed || to == Failed
    case Failed => to == Refunding
    case Refunding => to == Refunded
    case Completed => false
    case Refunded => false
  }

  /** ValidTransitions as the table it is in the source. */
  const VALID_TRANSITIONS: map<Status, seq<Status>> := map[
    Created := [Funded, Failed],
    Funded := [OnRamping, Refunding],
    OnRamping := [Settling, Refunding, Failed],
    Settling := [OffRamping, Failed],
    OffRamping := [Completed, Failed],
    Failed := [Refunding],
    Refunding := [Refunded]]

  /** advancedPastStates: the only situations in which a replayed result is skipped silently. */
  predicate AdvancedPast(current: Status, expected: Status) {
    match expected
    case OnRamping => current == Settling || current == OffRamping
    case Settling => current == OffRamping
    case _ => false
  }

  function Step(status: Status, expected: Status, to: Status, intents: seq<Intent>): Decision {
    if status == expected then Commit(to, intents) else Reject
  }

  function Result(status: Status, expected: Status, to: Status, intents: seq<Intent>): Decision {
    if status == expected then Commit(to, intents) else if AdvancedPast(status, expected) then Skip else Reject
  }

  /** What a handler does for a transfer it loaded in `status`. */
  function Decide(h: Handler, status: Status): Decision {
    match h
    case FundTransfer => Step(status, Created, Funded, [TreasuryReserve])
    case InitiateOnRamp => Step(status, Funded, OnRamping, [ProviderOnRamp])
    case HandleOnRampResult(true) => Result(status, OnRamping, Settling, [LedgerPostOnRamp, BlockchainSend])
    case HandleOnRampResult(false) => Result(status, OnRamping, Refunding, [TreasuryRelease])
    case HandleSettlementResult(true) => Result(status, Settling, OffRamping, [ProviderOffRamp])
    case HandleSettlementResult(false) => Result(status, Settling, Failed, [TreasuryRelease, LedgerReverse(true)])
    case HandleOffRampResult(true) =>
      Result(status, OffRamping, Completed, [TreasuryConsume, LedgerPostCompletion, WebhookDeliver])
    case HandleOffRampResult(false) =>
      Result(status, OffRamping, Failed, [TreasuryRelease, LedgerReverse(true), WebhookDeliver])
    case CompleteTransfer => Step(status, OffRamping, Completed,
      [TreasuryConsume, LedgerPostCompletion, WebhookDeliver])
    case FailTransfer => if CanTransition(status, Failed) then Commit(Failed, [TreasuryRelease, WebhookDeliver])
      else Reject
    case InitiateRefund =>
      if status == Funded || status == Failed
      then Commit(Refunding, [LedgerReverse(status == Failed), TreasuryRelease]) else Reject
    case HandleRefundResult(success) =>
      if status != Refunding then Reject else if success then Commit(Refunded, [WebhookDeliver]) else Skip
  }

  /** Who recorded a failure. */
  datatype Cause = NotFailed | Explicit | SettlementError | OffRampError

  /** The stored transfer: the statuses it has had, the cause of its failure and its outbox. */
  datatype Row = Row(trail: seq<Status>, cause: Cause, outbox: seq<Intent>, version: nat) {
    function Status(): Status {
      if trail == [] then Created else trail[|trail| - 1]
    }
  }

  const NEW := Row([Created], NotFailed, [], 1)

  function CauseOf(h: Handler, before: Cause): Cause {
    match h
    case FailTransfer => Explicit
    case HandleSettlementResult(false) => SettlementError
    case HandleOffRampResult(false) => OffRampError
    case _ => before
  }

  /** TransitionWithOutbox: status and intents go in together, and only at the expected version. */
  function Transition(r: Row, h: Handler, d: Decision, expectedVersion: nat): Row {
    if d.Commit? && r.version == expectedVersion
    then Row(r.trail + [d.to], CauseOf(h, r.cause), r.outbox + d.intents, r.version + 1)
    else r
  }

  /** The engine's access to one stored transfer. */
  class TransferStore {
    var row: Row

    constructor ()
      ensures row == NEW
    {
      row := NEW;
    }

    /** All or nothing under the version check. */
    method TransitionWithOutbox(h: Handler, to: Status, expectedVersion: nat, intents: seq<Intent>) returns (ok: bool)
      modifies this
      ensures ok <==> old(row).version == expectedVersion
      ensures row == Transition(old(row), h, Commit(to, intents), expectedVersion)
    {
      if row.version != expectedVersion {
        return false;
      }
      row := Row(row.trail + [to], CauseOf(h, row.cause), row.outbox + intents, row.version + 1);
      return true;
    }

    /** A handler from load to commit with nobody in between: it succeeds exactly when its decision on the
        stored status is to commit or to skip. */
    method Handle(h: Handler) returns (ok: bool)
      modifies this
      ensures row == Transition(old(row), h, Decide(h, old(row).Status()), old(row).version)
      ensures ok <==> !Decide(h, old(row).Status()).Reject?
    {
      var version := row.version;
      match Decide(h, row.Status())
      case Commit(to, intents) => ok := TransitionWithOutbox(h, to, version, intents);
      case Skip => return true;
      case Reject => return false;
    }
  }

  // ---- Racing handlers ----

  datatype Snapshot = Snapshot(handler: Handler, status: Status, version: nat)
  datatype State = State(row: Row, loaded: seq<Snapshot>)

  /** A handler loads; or a handler that loaded at any earlier time, possibly more than once, tries to
      commit. */
  datatype Action = Load(handler: Handler) | TryCommit(snapshot: nat)

  const START := State(NEW, [])

  function Next(s: State, a: Action): State {
    match a
    case Load(h) => s.(loaded := s.loaded + [Snapshot(h, s.row.Status(), s.row.version)])
    case TryCommit(i) =>
      if i >= |s.loaded| then s
      else
        var p := s.loaded[i];
        s.(row := Transition(s.row, p.handler, Decide(p.handler, p.status), p.version))
  }

  function Run(s: State, acts: seq<Action>): State {
    if acts == [] then s else Next(Run(s, acts[..|acts| - 1]), acts[|acts| - 1])
  }

  // ---- The shape of every reachable transfer ----

  const HAPPY: seq<Status> := [Created, Funded, OnRamping, Settling, OffRamping, Completed]

  /** The k-th status of the happy path. */
  function OnPath(k: nat): Status {
    match k
    case 0 => Created
    case 1 => Created
    case 2 => Funded
    case 3 => OnRamping
    case 4 => Settling
    case 5 => OffRamping
    case _ => Completed
  }

  lemma HappyPath(k: nat)
    requires 1 <= k <= 6
    ensures HAPPY[k - 1] == OnPath(k) && HAPPY[..k] == HAPPY[..k - 1] + [OnPath(k)]
  {
  }

  /** A transfer that followed the happy path for k statuses and then possibly failed and was refunded. */
  datatype Point = Point(k: nat, cause: Cause, status: Status) {
    predicate HasFailed() {
      cause != NotFailed
    }

    predicate HasRefund() {
      status == Refunding || status == Refunded
    }

    /** The combinations that can occur. */
    predicate Ok() {
      && 1 <= k <= 6
      && (cause == Explicit ==> k == 1 || 3 <= k <= 5)
      && (cause == SettlementError ==> k == 4)
      && (cause == OffRampError ==> k == 5)
      && (status == Failed ==> HasFailed())
      && (HasFailed() ==> status == Failed || HasRefund())
      && (HasRefund() && !HasFailed() ==> k == 2 || k == 3)
      && (!HasFailed() && !HasRefund() ==> status == OnPath(k))
    }

    /** The statuses passed through. */
    function Path(): seq<Status>
      requires k <= 6
    {
      HAPPY[..k] + (if HasFailed() then [Failed] else []) + (if HasRefund() then [Refunding] else [])
      + (if status == Refunded then [Refunded] else [])
    }

    /** How often each intent has been emitted. */
    function Emitted(x: Intent): nat {
      match x
      case TreasuryReserve => Bit(k >= 2)
      case ProviderOnRamp => Bit(k >= 3)
      case LedgerPostOnRamp => Bit(k >= 4)
      case BlockchainSend => Bit(k >= 4)
      case ProviderOffRamp => Bit(k >= 5)
      case TreasuryConsume => Bit(k >= 6)
      case LedgerPostCompletion => Bit(k >= 6)
      case TreasuryRelease => Bit(HasFailed()) + Bit(HasRefund())
      case LedgerReverse(true) => Bit(cause == SettlementError || cause == OffRampError) + Bit(HasFailed()
        && HasRefund())
      case LedgerReverse(false) => Bit(!HasFailed() && HasRefund() && k == 2)
      case WebhookDeliver => Bit(k >= 6) + Bit(cause == Explicit || cause == OffRampError) + Bit(status == Refunded)
    }

    function Move(h: Handler, to: Status): Point {
      Point(match to
            case Funded => 2
            case OnRamping => 3
            case Settling => 4
            case OffRamping => 5
            case Completed => 6
            case _ => k,
            CauseOf(h, cause), to)
    }
  }

  function Bit(b: bool): nat {
    if b then 1 else 0
  }

  function Count(outbox: seq<Intent>, x: Intent): nat {
    if outbox == [] then 0 else Count(outbox[..|outbox| - 1], x) + if outbox[|outbox| - 1] == x then 1 else 0
  }

  ghost predicate At(r: Row, p: Point) {
    && p.Ok() && r.trail == p.Path() && r.cause == p.cause && r.version == |r.trail|
    && forall x :: Count(r.outbox, x) == p.Emitted(x)
  }

  ghost predicate SnapshotsTrue(s: State) {
    forall i :: 0 <= i < |s.loaded| ==>
      1 <= s.loaded[i].version <= |s.row.trail| && s.loaded[i].status == s.row.trail[s.loaded[i].version - 1]
  }

  lemma {:induction false} CountConcat(a: seq<Intent>, b: seq<Intent>, x: Intent)
    ensures Count(a + b, x) == Count(a, x) + Count(b, x)
  {
    if b == [] {
      assert a + b == a;
    } else {
      assert (a + b)[..|a + b| - 1] == a + b[..|b| - 1];
      CountConcat(a, b[..|b| - 1], x);
    }
  }

  lemma CountFew(a: Intent, b: Intent, c: Intent, x: Intent)
    ensures Count([a], x) == Bit(a == x)
    ensures Count([a, b], x) == Bit(a == x) + Bit(b == x)
    ensures Count([a, b, c], x) == Bit(a == x) + Bit(b == x) + Bit(c == x)
  {
    hide Count;
    CountOne(a, x);
    CountOne(b, x);
    CountOne(c, x);
    CountConcat([a], [b], x);
    CountConcat([a, b], [c], x);
    assert [a] + [b] == [a, b] && [a, b] + [c] == [a, b, c];
  }

  lemma CountOne(a: Intent, x: Intent)
    ensures Count([a], x) == Bit(a == x)
  {
    assert [a][..0] == [];
  }

  lemma LastOfPath(p: Point)
    requires p.Ok()
    ensures p.Path() != [] && p.Path()[|p.Path()| - 1] == p.status
  {
    HappyPath(p.k);
  }

  lemma MoveOk(p: Point, h: Handler)
    requires p.Ok() && Decide(h, p.status).Commit?
    ensures p.Move(h, Decide(h, p.status).to).Ok() && CanTransition(p.status, Decide(h, p.status).to)
    ensures var q := p.Move(h, Decide(h, p.status).to);
            if q.HasFailed() || q.HasRefund() then q.k == p.k else q.k == p.k + 1
  {
  }

  lemma PathGrows(p: Point, q: Point, to: Status)
    requires p.Ok() && q.Ok() && q.status == to && CanTransition(p.status, to)
    requires if q.HasFailed() || q.HasRefund() then q.k == p.k else q.k == p.k + 1
    requires q.cause == p.cause || (to == Failed && !p.HasFailed() && !p.HasRefund())
    ensures q.Path() == p.Path() + [to]
  {
    HappyPath(p.k);
    HappyPath(q.k);
  }

  lemma MovePath(p: Point, h: Handler)
    requires p.Ok() && Decide(h, p.status).Commit?
    ensures p.Move(h, Decide(h, p.status).to).Ok()
    ensures p.Move(h, Decide(h, p.status).to).Path() == p.Path() + [Decide(h, p.status).to]
  {
    MoveOk(p, h);
    PathGrows(p, p.Move(h, Decide(h, p.status).to), Decide(h, p.status).to);
  }

  lemma DecisionDistinct(h: Handler, status: Status)
    requires Decide(h, status).Commit?
    ensures var ys := Decide(h, status).intents;
            1 <= |ys| <= 3 && forall i, j :: 0 <= i < j < |ys| ==> ys[i] != ys[j]
  {
  }

  /** No handler emits the same intent twice in one commit. */
  lemma DecisionCounts(h: Handler, status: Status, x: Intent)
    requires Decide(h, status).Commit?
    ensures Count(Decide(h, status).intents, x) == Bit(x in Decide(h, status).intents)
  {
    hide Count, Decide;
    DecisionDistinct(h, status);
    var ys := Decide(h, status).intents;
    if |ys| == 1 {
      CountFew(ys[0], x, x, x);
      assert ys == [ys[0]];
    } else if |ys| == 2 {
      CountFew(ys[0], ys[1], x, x);
      assert ys == [ys[0], ys[1]];
    } else {
      CountFew(ys[0], ys[1], ys[2], x);
      assert ys == [ys[0], ys[1], ys[2]];
    }
  }

  /** What a step forward emits. */
  function ForwardIntents(to: Status): seq<Intent> {
    match to
    case Funded => [TreasuryReserve]
    case OnRamping => [ProviderOnRamp]
    case Settling => [LedgerPostOnRamp, BlockchainSend]
    case OffRamping => [ProviderOffRamp]
    case Completed => [TreasuryConsume, LedgerPostCompletion, WebhookDeliver]
    case _ => []
  }

  lemma ForwardDecision(p: Point, h: Handler)
    requires p.Ok() && Decide(h, p.status).Commit? && Decide(h, p.status).to !in {Failed, Refunding, Refunded}
    ensures var d := Decide(h, p.status);
            && d.intents == ForwardIntents(d.to) && p.k < 6 && d.to == OnPath(p.k + 1)
            && p.cause == NotFailed == CauseOf(h, p.cause) && !p.HasRefund()
  {
  }

  lemma ForwardEmits(p: Point, h: Handler, x: Intent)
    requires p.Ok() && Decide(h, p.status).Commit? && Decide(h, p.status).to !in {Failed, Refunding, Refunded}
    ensures var d := Decide(h, p.status);
            p.Move(h, d.to).Emitted(x) == p.Emitted(x) + Bit(x in d.intents)
  {
    hide Decide, CauseOf;
    ForwardDecision(p, h);
  }

  /** What each way to fail emits. */
  lemma FailureDecision(p: Point, h: Handler)
    requires p.Ok() && Decide(h, p.status).Commit? && Decide(h, p.status).to == Failed
    ensures p.cause == NotFailed && !p.HasRefund()
    ensures var d, cause := Decide(h, p.status), CauseOf(h, p.cause);
            match cause
            case NotFailed => false
            case Explicit => d.intents == [TreasuryRelease, WebhookDeliver]
            case SettlementError => d.intents == [TreasuryRelease, LedgerReverse(true)]
            case OffRampError => d.intents == [TreasuryRelease, LedgerReverse(true), WebhookDeliver]
  {
  }

  lemma FailureEmits(p: Point, h: Handler, x: Intent)
    requires p.Ok() && Decide(h, p.status).Commit? && Decide(h, p.status).to == Failed
    ensures var d := Decide(h, p.status);
            p.Move(h, d.to).Emitted(x) == p.Emitted(x) + Bit(x in d.intents)
  {
    hide Decide, CauseOf;
    FailureDecision(p, h);
  }

  /** What each way into and out of a refund emits. */
  lemma RefundDecision(p: Point, h: Handler)
    requires p.Ok() && Decide(h, p.status).Commit? && Decide(h, p.status).to in {Refunding, Refunded}
    ensures CauseOf(h, p.cause) == p.cause
    ensures var d := Decide(h, p.status);
            match p.status
            case Funded => d == Commit(Refunding, [LedgerReverse(false), TreasuryRelease])
            case OnRamping => d == Commit(Refunding, [TreasuryRelease])
            case Failed => d == Commit(Refunding, [LedgerReverse(true), TreasuryRelease])
            case _ => p.status == Refunding && d == Commit(Refunded, [WebhookDeliver])
  {
  }

  lemma RefundEmits(p: Point, h: Handler, x: Intent)
    requires p.Ok() && Decide(h, p.status).Commit? && Decide(h, p.status).to in {Refunding, Refunded}
    ensures var d := Decide(h, p.status);
            p.Move(h, d.to).Emitted(x) == p.Emitted(x) + Bit(x in d.intents)
  {
    hide Decide, CauseOf;
    RefundDecision(p, h);
  }

  lemma MoveEmits(p: Point, h: Handler, x: Intent)
    requires p.Ok() && Decide(h, p.status).Commit?
    ensures var d := Decide(h, p.status);
            p.Move(h, d.to).Emitted(x) == p.Emitted(x) + Count(d.intents, x)
  {
    hide *;
    var d := Decide(h, p.status);
    DecisionCounts(h, p.status, x);
    if d.to == Failed {
      FailureEmits(p, h, x);
    } else if d.to in {Refunding, Refunded} {
      RefundEmits(p, h, x);
    } else {
      ForwardEmits(p, h, x);
    }
  }

  lemma StatusAt(r: Row, p: Point)
    requires At(r, p)
    ensures r.Status() == p.status
  {
    LastOfPath(p);
  }

  lemma CommitAt(r: Row, p: Point, h: Handler)
    requires At(r, p) && Decide(h, p.status).Commit?
    ensures At(Transition(r, h, Decide(h, p.status), r.version), p.Move(h, Decide(h, p.status).to))
  {
    hide Count, Decide;
    var d := Decide(h, p.status);
    var q := p.Move(h, d.to);
    MovePath(p, h);
    forall x
      ensures Count(r.outbox + d.intents, x) == q.Emitted(x)
    {
      CountConcat(r.outbox, d.intents, x);
      MoveEmits(p, h, x);
    }
  }

  /** Any committed change moves to another point; anything else leaves the row alone. */
  lemma {:induction false} Reachable(acts: seq<Action>) returns (p: Point)
    ensures At(Run(START, acts).row, p) && SnapshotsTrue(Run(START, acts))
  {
    if acts == [] {
      p := Point(1, NotFailed, Created);
      StartAt();
    } else {
      var s := Run(START, acts[..|acts| - 1]);
      p := Reachable(acts[..|acts| - 1]);
      StatusAt(s.row, p);
      p := StepAt(s, acts[|acts| - 1], p);
    }
  }

  lemma StartAt()
    ensures At(NEW, Point(1, NotFailed, Created))
  {
    assert HAPPY[..1] == [Created];
  }

  lemma StepAt(s: State, a: Action, p: Point) returns (q: Point)
    requires At(s.row, p) && SnapshotsTrue(s) && s.row.Status() == p.status
    ensures At(Next(s, a).row, q) && SnapshotsTrue(Next(s, a))
  {
    hide Count, Decide;
    q := p;
    if a.TryCommit? && a.snapshot < |s.loaded| {
      var snap := s.loaded[a.snapshot];
      if Decide(snap.handler, snap.status).Commit? && snap.version == s.row.version {
        CommitAt(s.row, p, snap.handler);
        q := p.Move(snap.handler, Decide(snap.handler, p.status).to);
      }
    }
  }

  // ---- What every run guarantees ----

  ghost predicate FollowsTransitions(trail: seq<Status>) {
    && (forall i :: 0 <= i < |trail| - 1 ==> CanTransition(trail[i], trail[i + 1]))
    && (forall i, j :: 0 <= i < j < |trail| ==> trail[i] != trail[j])
  }

  /** The i-th status of a path. */
  function PathAt(p: Point, i: nat): Status {
    if i < p.k then OnPath(i + 1)
    else
      match i - p.k + Bit(!p.HasFailed())
      case 0 => Failed
      case 1 => Refunding
      case _ => Refunded
  }

  function PathLength(p: Point): nat {
    p.k + Bit(p.HasFailed()) + Bit(p.HasRefund()) + Bit(p.status == Refunded)
  }

  lemma PathElements(p: Point)
    requires p.Ok()
    ensures |p.Path()| == PathLength(p)
    ensures forall i :: 0 <= i < |p.Path()| ==> p.Path()[i] == PathAt(p, i)
  {
    forall i | 0 <= i < p.k
      ensures HAPPY[i] == OnPath(i + 1)
    {
      HappyPath(i + 1);
    }
  }

  lemma PathFollows(p: Point)
    requires p.Ok()
    ensures FollowsTransitions(p.Path()) && |p.Path()| <= 8
  {
    hide Point.Path, PathAt;
    PathElements(p);
    forall i | 0 <= i < |p.Path()| - 1 ensures CanTransition(p.Path()[i], p.Path()[i + 1]) {
      PathStep(p, i);
    }
    forall i, j | 0 <= i < j < |p.Path()| ensures p.Path()[i] != p.Path()[j] {
      PathDistinct(p, i, j);
    }
  }

  lemma PathStep(p: Point, i: nat)
    requires p.Ok() && i + 1 < PathLength(p)
    ensures CanTransition(PathAt(p, i), PathAt(p, i + 1))
  {
  }

  lemma PathDistinct(p: Point, i: nat, j: nat)
    requires p.Ok() && i < j < PathLength(p)
    ensures PathAt(p, i) != PathAt(p, j)
  {
  }

  lemma PathFunded(p: Point)
    requires p.Ok()
    ensures Funded in p.Path() <==> p.k >= 2
  {
    PathElements(p);
    if p.k >= 2 {
      assert p.Path()[1] == Funded;
    }
  }

  /** Saga safety. However handlers race and are redelivered, the committed statuses follow
      ValidTransitions, no status is entered twice (so there are at most seven transitions), the outbox
      holds at most one reserve, one blockchain send and one consume, and a consume never coexists with
      a release or a reversal. A transfer that reserved and reached a terminal status has consumed or
      released. */
  lemma SagaSafety(acts: seq<Action>)
    ensures var r := Run(START, acts).row;
            && FollowsTransitions(r.trail) && |r.trail| <= 8 && r.version == |r.trail|
            && Count(r.outbox, TreasuryReserve) <= 1
            && Count(r.outbox, BlockchainSend) <= 1
            && Count(r.outbox, TreasuryConsume) <= 1
            && (Count(r.outbox, TreasuryConsume) == 1 <==> r.Status() == Completed)
            && (Count(r.outbox, TreasuryConsume) == 1 ==>
                  && Count(r.outbox, TreasuryRelease) == 0
                  && Count(r.outbox, LedgerReverse(true)) == 0 && Count(r.outbox, LedgerReverse(false)) == 0)
            && (Count(r.outbox, TreasuryReserve) == 1 && (r.Status() == Completed || r.Status() == Refunded) ==>
                  Count(r.outbox, TreasuryConsume) + Count(r.outbox, TreasuryRelease) >= 1)
            && (Count(r.outbox, TreasuryReserve) == 1 <==> Funded in r.trail)
  {
    hide Count, Run, FollowsTransitions, Point.Path;
    var p := Reachable(acts);
    StatusAt(Run(START, acts).row, p);
    PathFollows(p);
    PathFunded(p);
  }

  /** How often the trail asks for an intent: on entering its status. Failures and refunds release each on their
      own. */
  function AskedBy(r: Row, x: Intent): nat {
    match x
    case TreasuryReserve => Bit(Funded in r.trail)
    case ProviderOnRamp => Bit(OnRamping in r.trail)
    case LedgerPostOnRamp => Bit(Settling in r.trail)
    case BlockchainSend => Bit(Settling in r.trail)
    case ProviderOffRamp => Bit(OffRamping in r.trail)
    case TreasuryConsume => Bit(Completed in r.trail)
    case LedgerPostCompletion => Bit(Completed in r.trail)
    case TreasuryRelease => Bit(Failed in r.trail) + Bit(Refunding in r.trail)
    case LedgerReverse(true) =>
      Bit(r.cause.SettlementError? || r.cause.OffRampError?) + Bit(Failed in r.trail && Refunding in r.trail)
    case LedgerReverse(false) => Bit(Refunding in r.trail && Failed !in r.trail && OnRamping !in r.trail)
    case WebhookDeliver =>
      Bit(Completed in r.trail) + Bit(Refunded in r.trail) + Bit(r.cause.Explicit? || r.cause.OffRampError?)
  }

  lemma PathHas(p: Point)
    requires p.Ok()
    ensures forall k :: 1 <= k <= 6 ==> (OnPath(k) in p.Path() <==> k <= p.k)
    ensures Failed in p.Path() <==> p.HasFailed()
    ensures Refunding in p.Path() <==> p.HasRefund()
    ensures Refunded in p.Path() <==> p.status == Refunded
  {
    hide Point.Path;
    PathElements(p);
    forall k | 1 <= k <= p.k
      ensures OnPath(k) in p.Path()
    {
      assert p.Path()[k - 1] == OnPath(k);
    }
    var n := p.k + Bit(p.HasFailed());
    assert p.HasFailed() ==> p.Path()[p.k] == Failed;
    assert p.HasRefund() ==> p.Path()[n] == Refunding;
    assert p.status == Refunded ==> p.Path()[n + 1] == Refunded;
  }

  /** In every run the outbox holds each intent exactly as often as the committed statuses ask for it. */
  lemma OutboxIsAskedFor(acts: seq<Action>, x: Intent)
    ensures var r := Run(START, acts).row; Count(r.outbox, x) == AskedBy(r, x)
  {
    hide Count, Run, Point.Path;
    var p := Reachable(acts);
    PathHas(p);
    assert OnPath(2) == Funded && OnPath(3) == OnRamping && OnPath(4) == Settling && OnPath(5) == OffRamping
        && OnPath(6) == Completed;
  }

  // ---- Progress ----

  /** The status a handler moves a transfer to. */
  function Target(h: Handler): Status {
    match h
    case FundTransfer => Funded
    case InitiateOnRamp => OnRamping
    case HandleOnRampResult(success) => if success then Settling else Refunding
    case HandleSettlementResult(success) => if success then OffRamping else Failed
    case HandleOffRampResult(success) => if success then Completed else Failed
    case CompleteTransfer => Completed
    case FailTransfer => Failed
    case InitiateRefund => Refunding
    case HandleRefundResult(_) => Refunded
  }

  /** The status a result reports on. */
  function Reports(h: Handler): Option<Status> {
    match h
    case HandleOnRampResult(_) => Some(OnRamping)
    case HandleSettlementResult(_) => Some(Settling)
    case HandleOffRampResult(_) => Some(OffRamping)
    case HandleRefundResult(_) => Some(Refunding)
    case _ => None
  }

  /** A handler commits exactly when its target is an allowed transition and, if it reports on a status, the transfer
      is in that status; only a failed refund commits nothing, and a refund is not begun while an on-ramp is under
      way. */
  lemma CommitsIff(h: Handler, status: Status)
    ensures Decide(h, status).Commit? <==>
              && CanTransition(status, Target(h)) && (Reports(h).Some? ==> status == Reports(h).value)
              && h != HandleRefundResult(false) && !(h == InitiateRefund && status == OnRamping)
    ensures Decide(h, status).Commit? ==> Decide(h, status).to == Target(h)
  {
  }

  /** Every allowed transition is somebody's work, and nobody commits another. */
  lemma EveryTransitionHasAHandler(from: Status, to: Status)
    ensures CanTransition(from, to) <==> exists h :: Decide(h, from).Commit? && Decide(h, from).to == to
  {
    hide Decide;
    forall h
      ensures Decide(h, from).Commit? ==> Decide(h, from).to == Target(h) && CanTransition(from, Target(h))
    {
      CommitsIff(h, from);
    }
    if CanTransition(from, to) {
      var h := HandlerFor(from, to);
      CommitsIff(h, from);
    }
  }

  function HandlerFor(from: Status, to: Status): Handler {
    match to
    case Funded => FundTransfer
    case OnRamping => InitiateOnRamp
    case Settling => HandleOnRampResult(true)
    case OffRamping => HandleSettlementResult(true)
    case Completed => HandleOffRampResult(true)
    case Failed => FailTransfer
    case Refunding => if from == OnRamping then HandleOnRampResult(false) else InitiateRefund
    case _ => HandleRefundResult(true)
  }

  /** In every run: a result is skipped silently exactly when it reports on a status that the transfer has left on its
      way to completion, or is a failed refund of a transfer being refunded. */
  lemma SkipsIff(acts: seq<Action>, h: Handler)
    ensures var r := Run(START, acts).row;
            Decide(h, r.Status()).Skip? <==>
              || (h == HandleRefundResult(false) && r.Status() == Refunding)
              || (&& Reports(h).Some? && Reports(h).value in r.trail && Reports(h).value != r.Status()
                  && (r.Status() == Settling || r.Status() == OffRamping))
  {
    hide Run, Point.Path, Count;
    var p := Reachable(acts);
    StatusAt(Run(START, acts).row, p);
    PathHas(p);
    assert OnPath(3) == OnRamping && OnPath(4) == Settling && OnPath(5) == OffRamping;
  }

  /** A handler delivered on its own. */
  lemma Deliver(s: State, h: Handler) returns (more: seq<Action>)
    ensures Run(s, more).row == Transition(s.row, h, Decide(h, s.row.Status()), s.row.version)
  {
    var n := |s.loaded|;
    more := [Load(h)] + [TryCommit(n)];
    RunStep(s, [], Load(h));
    RunStep(s, [] + [Load(h)], TryCommit(n));
    assert [] + [Load(h)] == [Load(h)];
  }

  lemma {:induction false} RunTwice(s: State, first: seq<Action>, second: seq<Action>)
    ensures Run(s, first + second) == Run(Run(s, first), second)
  {
    hide Next;
    if second == [] {
      assert first + second == first;
    } else {
      RunTwice(s, first, second[..|second| - 1]);
      assert (first + second)[..|first + second| - 1] == first + second[..|second| - 1];
    }
  }

  /** What brings an unfinished transfer one status closer to its end. */
  function NextHandler(status: Status): Handler {
    match status
    case Created => FundTransfer
    case Funded => InitiateOnRamp
    case OnRamping => HandleOnRampResult(true)
    case Settling => HandleSettlementResult(true)
    case OffRamping => HandleOffRampResult(true)
    case Failed => InitiateRefund
    case _ => HandleRefundResult(true)
  }

  function StepsLeft(status: Status): nat {
    match status
    case Created => 5
    case Funded => 4
    case OnRamping => 3
    case Settling => 2
    case Failed => 2
    case OffRamping => 1
    case Refunding => 1
    case _ => 0
  }

  predicate Finished(status: Status) {
    status == Completed || status == Refunded
  }

  predicate Underway(status: Status) {
    status !in {Failed, Refunding, Refunded}
  }

  lemma OneStepOn(s: State) returns (more: seq<Action>)
    requires !Finished(s.row.Status())
    ensures var r := Run(s, more).row;
            && StepsLeft(r.Status()) < StepsLeft(s.row.Status())
            && (Underway(s.row.Status()) <==> Underway(r.Status()))
  {
    hide Run, Decide;
    var h := NextHandler(s.row.Status());
    more := Deliver(s, h);
    CommitsIff(h, s.row.Status());
  }

  lemma {:induction false} FinishFrom(s: State) returns (more: seq<Action>)
    ensures var r := Run(s, more).row;
            Finished(r.Status()) && (Underway(s.row.Status()) <==> Underway(r.Status()))
    decreases StepsLeft(s.row.Status())
  {
    hide Run;
    if Finished(s.row.Status()) {
      more := [];
      RunNothing(s);
    } else {
      var first := OneStepOn(s);
      var second := FinishFrom(Run(s, first));
      RunTwice(s, first, second);
      more := first + second;
    }
  }

  lemma RunNothing(s: State)
    ensures Run(s, []) == s
  {
  }

  /** No transfer is stuck: whatever happened so far, some continuation ends it. */
  lemma EveryTransferCanEnd(acts: seq<Action>) returns (more: seq<Action>)
    ensures Finished(Run(START, acts + more).row.Status())
  {
    hide Run;
    more := FinishFrom(Run(START, acts));
    RunTwice(START, acts, more);
  }

  lemma {:induction false} TrailGrows(s: State, acts: seq<Action>)
    ensures s.row.trail <= Run(s, acts).row.trail
  {
    hide Decide;
    if acts != [] {
      TrailGrows(s, acts[..|acts| - 1]);
    }
  }

  /** Whatever happened so far: a transfer can still be completed exactly when it has neither failed nor begun to be
      refunded. */
  lemma CanCompleteIff(acts: seq<Action>)
    ensures (exists more :: Run(START, acts + more).row.Status() == Completed)
            <==> Underway(Run(START, acts).row.Status())
  {
    hide Run, Point.Path, Count;
    var r := Run(START, acts).row;
    if Underway(r.Status()) {
      var more := FinishFrom(Run(START, acts));
      RunTwice(START, acts, more);
      assert Run(START, acts + more).row.Status() == Completed;
    } else {
      forall more
        ensures Run(START, acts + more).row.Status() != Completed
      {
        NotCompletedAfter(acts, more);
      }
    }
  }

  lemma NotCompletedAfter(acts: seq<Action>, more: seq<Action>)
    requires !Underway(Run(START, acts).row.Status())
    ensures Run(START, acts + more).row.Status() != Completed
  {
    hide Run, Point.Path, Count;
    RunTwice(START, acts, more);
    TrailGrows(Run(START, acts), more);
    var p := Reachable(acts);
    var q := Reachable(acts + more);
    StatusAt(Run(START, acts).row, p);
    StatusAt(Run(START, acts + more).row, q);
    PathHas(p);
    PathHas(q);
    assert forall x :: x in p.Path() ==> x in q.Path();
  }

  /** Only successes are reported, and nobody fails or refunds the transfer. */
  predicate AllSuccesses(acts: seq<Action>) {
    forall i :: 0 <= i < |acts| && acts[i].Load? ==> Benign(acts[i].handler)
  }

  predicate Benign(h: Handler) {
    Target(h) !in {Failed, Refunding}
  }

  ghost predicate StillUnderway(s: State) {
    Underway(s.row.Status()) && forall i :: 0 <= i < |s.loaded| ==> Benign(s.loaded[i].handler)
  }

  /** A snapshot at the current version has the current status. */
  lemma CurrentSnapshot(acts: seq<Action>, i: nat)
    requires i < |Run(START, acts).loaded|
    ensures var s := Run(START, acts);
            s.loaded[i].version == s.row.version ==> s.loaded[i].status == s.row.Status()
  {
    hide Run, Count, Point.Path;
    var p := Reachable(acts);
  }

  lemma BenignCommit(s: State, i: nat)
    requires StillUnderway(s) && i < |s.loaded|
    requires s.loaded[i].version == s.row.version ==> s.loaded[i].status == s.row.Status()
    ensures StillUnderway(Next(s, TryCommit(i)))
  {
    hide Decide, Benign;
    CommitsIff(s.loaded[i].handler, s.loaded[i].status);
    assert Benign(s.loaded[i].handler);
    BenignTarget(s.loaded[i].handler);
  }

  lemma BenignTarget(h: Handler)
    requires Benign(h)
    ensures Target(h) != Failed && Target(h) != Refunding && (Target(h) == Refunded ==> Reports(h) == Some(Refunding))
  {
  }

  lemma {:induction false} SuccessesStayUnderway(acts: seq<Action>)
    requires AllSuccesses(acts)
    ensures StillUnderway(Run(START, acts))
  {
    hide Decide, Transition, Benign;
    if acts != [] {
      var s, a := Run(START, acts[..|acts| - 1]), acts[|acts| - 1];
      SuccessesStayUnderway(acts[..|acts| - 1]);
      if a.TryCommit? && a.snapshot < |s.loaded| {
        CurrentSnapshot(acts[..|acts| - 1], a.snapshot);
        BenignCommit(s, a.snapshot);
      }
    }
  }

  /** A transfer whose results are all successes, however its handlers raced, can be completed. */
  lemma SuccessesCanComplete(acts: seq<Action>)
    requires AllSuccesses(acts)
    ensures exists more :: Run(START, acts + more).row.Status() == Completed
  {
    hide Run;
    SuccessesStayUnderway(acts);
    CanCompleteIff(acts);
  }

  // ---- Refunds ----

  /** On-ramp postings minus non-empty reversals in the outbox. */
  function OnRampNet(r: Row): int {
    Count(r.outbox, LedgerPostOnRamp) - Count(r.outbox, LedgerReverse(true))
  }

  /** A refunded transfer has asked for as many reversals as on-ramp postings, no more and no fewer, exactly
      when it never failed or was failed explicitly after settlement began. In every other case it has asked
      for one reversal too many: a failed settlement or off-ramp is reversed by its own handler and again by
      the refund, and a transfer that failed before its on-ramp is reversed although nothing was posted. */
  lemma RefundNetsOutIff(acts: seq<Action>)
    requires Run(START, acts).row.Status() == Refunded
    ensures var r := Run(START, acts).row;
            && OnRampNet(r) in {0, -1}
            && (OnRampNet(r) == 0 <==> r.cause == NotFailed || (r.cause == Explicit && Settling in r.trail))
  {
    hide Count, Run, Point.Path;
    var p := Reachable(acts);
    StatusAt(Run(START, acts).row, p);
    PathSettling(p);
  }

  /** Releases and consumes asked of the treasury beyond the reserves. */
  function ReleasedTooOften(r: Row): int {
    Count(r.outbox, TreasuryRelease) + Count(r.outbox, TreasuryConsume) - Count(r.outbox, TreasuryReserve)
  }

  /** A transfer that ended has asked the treasury to end exactly what it reserved iff it never failed. A failure
      releases in its own handler and again in the refund, so one release is too many, or two when nothing was
      reserved. The treasury does not recognise the second as a repetition: its reference carries another reason. */
  lemma TreasuryNetsOutIff(acts: seq<Action>)
    requires Run(START, acts).row.Status() in {Completed, Refunded}
    ensures var r := Run(START, acts).row;
            && (ReleasedTooOften(r) == 0 <==> r.cause == NotFailed)
            && (r.cause != NotFailed ==> ReleasedTooOften(r) == if Funded in r.trail then 1 else 2)
  {
    hide Count, Run, Point.Path;
    var p := Reachable(acts);
    StatusAt(Run(START, acts).row, p);
    PathFunded(p);
  }

  lemma PathSettling(p: Point)
    requires p.Ok()
    ensures Settling in p.Path() <==> p.k >= 4
  {
    PathElements(p);
    if p.k >= 4 {
      assert p.Path()[3] == Settling;
    }
  }

  /** Handlers run one after the other. */
  function Alone(r: Row, hs: seq<Handler>): Row {
    if hs == [] then r
    else
      var before := Alone(r, hs[..|hs| - 1]);
      Transition(before, hs[|hs| - 1], Decide(hs[|hs| - 1], before.Status()), before.version)
  }

  lemma RunStep(s: State, acts: seq<Action>, a: Action)
    ensures Run(s, acts + [a]) == Next(Run(s, acts), a)
  {
    assert (acts + [a])[..|acts|] == acts;
  }

  lemma {:induction false} AloneIsReachable(hs: seq<Handler>) returns (acts: seq<Action>)
    ensures Run(START, acts).row == Alone(NEW, hs)
  {
    if hs == [] {
      acts := [];
    } else {
      var h := hs[|hs| - 1];
      var before := AloneIsReachable(hs[..|hs| - 1]);
      var n := |Run(START, before).loaded|;
      acts := before + [Load(h)] + [TryCommit(n)];
      RunStep(START, before, Load(h));
      RunStep(START, before + [Load(h)], TryCommit(n));
    }
  }

  lemma AlonePoint(hs: seq<Handler>, p: Point, h: Handler)
    requires At(Alone(NEW, hs), p) && Decide(h, p.status).Commit?
    ensures At(Alone(NEW, hs + [h]), p.Move(h, Decide(h, p.status).to))
  {
    hide Count, Decide;
    StatusAt(Alone(NEW, hs), p);
    CommitAt(Alone(NEW, hs), p, h);
    assert (hs + [h])[..|hs|] == hs;
  }

  /** The double reversal and the double release happen: one on-ramp posting, a failed settlement, a refund. */
  lemma RefundCanReverseTwice() returns (acts: seq<Action>)
    ensures var r := Run(START, acts).row;
            && r.Status() == Refunded
            && Count(r.outbox, LedgerPostOnRamp) == 1 && Count(r.outbox, LedgerReverse(true)) == 2
            && Count(r.outbox, TreasuryReserve) == 1 && Count(r.outbox, TreasuryRelease) == 2
  {
    hide Count, Run, Alone, Point.Path;
    var h1 := [] + [FundTransfer];
    var h2 := h1 + [InitiateOnRamp];
    var h3 := h2 + [HandleOnRampResult(true)];
    var h4 := h3 + [HandleSettlementResult(false)];
    var h5 := h4 + [InitiateRefund];
    StartAt();
    AloneNobody();
    AlonePoint([], Point(1, NotFailed, Created), FundTransfer);
    AlonePoint(h1, Point(2, NotFailed, Funded), InitiateOnRamp);
    AlonePoint(h2, Point(3, NotFailed, OnRamping), HandleOnRampResult(true));
    AlonePoint(h3, Point(4, NotFailed, Settling), HandleSettlementResult(false));
    AlonePoint(h4, Point(4, SettlementError, Failed), InitiateRefund);
    AlonePoint(h5, Point(4, SettlementError, Refunding), HandleRefundResult(true));
    acts := AloneIsReachable(h5 + [HandleRefundResult(true)]);
    StatusAt(Run(START, acts).row, Point(4, SettlementError, Refunded));
  }

  lemma AloneNobody()
    ensures Alone(NEW, []) == NEW
  {
  }
}
