/** The two-level tenant cache (cache/tenant_cache.go): one replica's object, and any number of
    replicas over a shared Redis and database with Get split into its separate steps. */
module TenantCache {
  import opened LocalCache

  /** Seconds. */
  const LOCAL_TTL: int := 30
  const REDIS_TTL: int := 300

  datatype Loaded<+T> = Found(value: T) | LoadError
  datatype RedisEntry<+T> = RedisEntry(value: T, expiresAt: int)

  class Replica<T> {
    const local: Cache<T>
    var redis: map<string, RedisEntry<T>>

    ghost predicate Valid()
      reads this, local
    {
      local.Valid()
    }

    constructor (local: Cache<T>)
      requires local.Valid()
      ensures Valid() && this.local == local && redis == map[]
    {
      this.local := local;
      redis := map[];
    }

    /** L1, then L2, then the database. An L1 hit touches nothing else; an L2 hit fills L1 for 30 seconds;
        a database read fills L1, and L2 for five minutes if Redis takes it. An unavailable Redis is
        skipped, not reported. */
    method Get(key: string, now: int, redisUp: bool, loaded: Loaded<T>) returns (r: Loaded<T>)
      requires Valid()
      modifies this, local
      ensures Valid()
      ensures var e := old(local.entries);
              key in e && now <= e[key].expiresAt ==>
                r == Found(e[key].value) && redis == old(redis) && local.entries == e[key := e[key].(lastAccess := now)]
      ensures var e, q := old(local.entries), old(redis);
              !(key in e && now <= e[key].expiresAt) && redisUp && key in q && now <= q[key].expiresAt ==>
                && r == Found(q[key].value) && redis == q
                && key in local.entries && local.entries[key] == Entry(q[key].value, now + LOCAL_TTL, now)
      ensures var e, q := old(local.entries), old(redis);
              !(key in e && now <= e[key].expiresAt) && !(redisUp && key in q && now <= q[key].expiresAt) ==>
                && r == loaded
                && (loaded.Found? ==>
                      && redis == (if redisUp then q[key := RedisEntry(loaded.value, now + REDIS_TTL)] else q)
                      && key in local.entries && local.entries[key] == Entry(loaded.value, now + LOCAL_TTL, now))
                && (loaded.LoadError? ==> redis == q && key !in local.entries)
    {
      var hit := local.Get(key, now);
      if hit.Hit? {
        return Found(hit.value);
      }
      if redisUp && key in redis && now <= redis[key].expiresAt {
        var value := redis[key].value;
        local.Set(key, value, LOCAL_TTL, now);
        return Found(value);
      }
      if loaded.LoadError? {
        return LoadError;
      }
      if redisUp {
        redis := redis[key := RedisEntry(loaded.value, now + REDIS_TTL)];
      }
      local.Set(key, loaded.value, LOCAL_TTL, now);
      return loaded;
    }

    /** Both levels forget the key, unless Redis refuses; the local copy goes either way. */
    method Invalidate(key: string, redisUp: bool) returns (ok: bool)
      requires Valid()
      modifies this, local
      ensures Valid() && local.entries == old(local.entries) - {key} && ok == redisUp
      ensures redis == if ok then old(redis) - {key} else old(redis)
    {
      local.Delete(key);
      if redisUp {
        redis := redis - {key};
      }
      return redisUp;
    }
  }
}

/** Any number of replicas reading one tenant through private L1 caches, a shared L2 and the database.
    A Get is not atomic: what it read from L2 or the database is in flight until it is written back. */
module TenantStaleness {
  import opened TenantCache

  /** A cached value: which database version it is and when it was read from the database. */
  datatype Copy = Copy(version: nat, loadedAt: int, expiresAt: int)
  datatype Slot = Empty | Full(copy: Copy)
  datatype Fetch = Fetch(replica: nat, version: nat, loadedAt: int, readAt: int, fillsL2: bool)
  datatype Answer = Answer(replica: nat, version: nat, loadedAt: int, at: int)

  datatype State = State(
    now: int,
    changedAt: seq<int>,          // when each database version became current
    l2: Slot,
    l1: map<nat, Copy>,           // by replica
    inFlight: map<nat, Fetch>,
    nextFetch: nat,
    answers: seq<Answer>,         // what Get returned, and when
    worst: int)                   // longest time a Get held a value before writing it back

  datatype Action =
    | Tick(d: nat)
    | Change
    | HitL1(replica: nat)
    | ReadL2(replica: nat)
    | ReadDb(replica: nat)
    | FillL2(fetch: nat)
    | SkipL2(fetch: nat)
    | FillL1(fetch: nat)
    | Invalidate(replica: nat)
    | EvictL1(replica: nat)
    | EvictL2

  const START := State(0, [0], Empty, map[], map[], 0, [], 0)

  function Current(s: State): int {
    |s.changedAt| - 1
  }

  function Max(x: int, y: int): int {
    if x < y then y else x
  }

  function Begin(s: State, f: Fetch): State {
    s.(inFlight := s.inFlight[s.nextFetch := f], nextFetch := s.nextFetch + 1)
  }

  function Filled(s: State, id: nat, f: Fetch): State {
    s.(l1 := s.l1[f.replica := Copy(f.version, f.loadedAt, s.now + LOCAL_TTL)],
       inFlight := s.inFlight - {id},
       answers := s.answers + [Answer(f.replica, f.version, f.loadedAt, s.now)],
       worst := Max(s.worst, s.now - f.readAt))
  }

  function Next(s: State, a: Action): State {
    match a
    case Tick(d) => s.(now := s.now + d)
    case Change => s.(changedAt := s.changedAt + [s.now])
    case HitL1(r) =>
      if r in s.l1 && s.now <= s.l1[r].expiresAt
      then s.(answers := s.answers + [Answer(r, s.l1[r].version, s.l1[r].loadedAt, s.now)]) else s
    case ReadL2(r) =>
      if s.l2.Full? && s.now <= s.l2.copy.expiresAt
      then Begin(s, Fetch(r, s.l2.copy.version, s.l2.copy.loadedAt, s.now, false)) else s
    case ReadDb(r) => if s.changedAt == [] then s else Begin(s, Fetch(r, Current(s), s.now, s.now, true))
    case FillL2(id) =>
      if id in s.inFlight && s.inFlight[id].fillsL2
      then
        var f := s.inFlight[id];
        s.(l2 := Full(Copy(f.version, f.loadedAt, s.now + REDIS_TTL)),
           inFlight := s.inFlight[id := f.(fillsL2 := false)],
           worst := Max(s.worst, s.now - f.readAt))
      else s
    case SkipL2(id) => if id in s.inFlight then s.(inFlight := s.inFlight[id := s.inFlight[id].(fillsL2 := false)])
      else s
    case FillL1(id) => if id in s.inFlight && !s.inFlight[id].fillsL2 then Filled(s, id, s.inFlight[id]) else s
    case Invalidate(r) => s.(l1 := s.l1 - {r}, l2 := Empty)
    case EvictL1(r) => s.(l1 := s.l1 - {r})
    case EvictL2 => s.(l2 := Empty)
  }

  function Run(s: State, acts: seq<Action>): State {
    if acts == [] then s else Next(Run(s, acts[..|acts| - 1]), acts[|acts| - 1])
  }

  // ---- Bounded staleness ----

  /** The database held this version at time t. */
  ghost predicate HeldAt(s: State, version: nat, t: int) {
    && version < |s.changedAt| && s.changedAt[version] <= t <= s.now
    && (version + 1 < |s.changedAt| ==> t <= s.changedAt[version + 1])
  }

  ghost predicate L2Sound(s: State) {
    s.l2.Full? ==>
      && HeldAt(s, s.l2.copy.version, s.l2.copy.loadedAt)
      && s.l2.copy.expiresAt <= s.l2.copy.loadedAt + s.worst + REDIS_TTL
  }

  ghost predicate FetchSound(s: State, f: Fetch) {
    && HeldAt(s, f.version, f.loadedAt) && f.readAt <= s.now
    && f.readAt <= f.loadedAt + s.worst + REDIS_TTL && (f.fillsL2 ==> f.readAt == f.loadedAt)
  }

  ghost predicate L1Sound(s: State, c: Copy) {
    && HeldAt(s, c.version, c.loadedAt)
    && c.expiresAt <= c.loadedAt + 2 * s.worst + REDIS_TTL + LOCAL_TTL && c.expiresAt <= s.now + LOCAL_TTL
  }

  ghost predicate AnswerSound(s: State, a: Answer) {
    HeldAt(s, a.version, a.loadedAt) && a.loadedAt <= a.at <= s.now
      && a.at - a.loadedAt <= 2 * s.worst + REDIS_TTL + LOCAL_TTL
  }

  ghost predicate Inv(s: State) {
    && 0 <= s.worst && s.changedAt != []
    && (forall i :: 0 <= i < |s.changedAt| ==> s.changedAt[i] <= s.now)
    && L2Sound(s)
    && (forall id :: id in s.inFlight ==> FetchSound(s, s.inFlight[id]))
    && (forall r :: r in s.l1 ==> L1Sound(s, s.l1[r]))
    && (forall i :: 0 <= i < |s.answers| ==> AnswerSound(s, s.answers[i]))
  }

  /** Time, latency and the version history only grow. */
  ghost predicate Later(s: State, t: State) {
    && s.now <= t.now && s.worst <= t.worst
    && (t.changedAt == s.changedAt || t.changedAt == s.changedAt + [s.now])
  }

  lemma HeldLater(s: State, t: State, version: nat, x: int)
    requires Later(s, t) && HeldAt(s, version, x)
    ensures HeldAt(t, version, x)
  {
  }

  /** Whatever was sound stays sound as the state moves on. */
  lemma SoundLater(s: State, t: State)
    requires Later(s, t) && Inv(s)
    ensures t.l2 == s.l2 ==> L2Sound(t)
    ensures forall id :: id in s.inFlight ==> FetchSound(t, s.inFlight[id])
    ensures forall r :: r in s.l1 ==> L1Sound(t, s.l1[r])
    ensures forall i :: 0 <= i < |s.answers| ==> AnswerSound(t, s.answers[i])
  {
    hide HeldAt, Later;
    assert s.now <= t.now && s.worst <= t.worst by { LaterTimes(s, t); }
    if s.l2.Full? {
      HeldLater(s, t, s.l2.copy.version, s.l2.copy.loadedAt);
    }
    forall id | id in s.inFlight
      ensures FetchSound(t, s.inFlight[id])
    {
      HeldLater(s, t, s.inFlight[id].version, s.inFlight[id].loadedAt);
    }
    forall r | r in s.l1
      ensures L1Sound(t, s.l1[r])
    {
      HeldLater(s, t, s.l1[r].version, s.l1[r].loadedAt);
    }
    forall i | 0 <= i < |s.answers|
      ensures AnswerSound(t, s.answers[i])
    {
      HeldLater(s, t, s.answers[i].version, s.answers[i].loadedAt);
    }
  }

  lemma LaterTimes(s: State, t: State)
    requires Later(s, t)
    ensures s.now <= t.now && s.worst <= t.worst
  {
  }

  lemma StepLater(s: State, a: Action)
    requires 0 <= s.worst
    ensures Later(s, Next(s, a))
  {
  }

  lemma ReadsSound(s: State, t: State, r: nat)
    requires Inv(s) && t.now == s.now && t.worst == s.worst && t.changedAt == s.changedAt
    ensures FetchSound(t, Fetch(r, Current(s), s.now, s.now, true))
    ensures s.l2.Full? && s.now <= s.l2.copy.expiresAt ==>
              FetchSound(t, Fetch(r, s.l2.copy.version, s.l2.copy.loadedAt, s.now, false))
    ensures r in s.l1 && s.now <= s.l1[r].expiresAt ==>
              AnswerSound(t, Answer(r, s.l1[r].version, s.l1[r].loadedAt, s.now))
  {
  }

  lemma FillsSound(s: State, t: State, id: nat)
    requires Inv(s) && Later(s, t) && id in s.inFlight && t.now == s.now && s.now - s.inFlight[id].readAt <= t.worst
    ensures var f := s.inFlight[id];
            && L1Sound(t, Copy(f.version, f.loadedAt, s.now + LOCAL_TTL))
            && AnswerSound(t, Answer(f.replica, f.version, f.loadedAt, s.now))
            && FetchSound(t, f.(fillsL2 := false))
    ensures var f := s.inFlight[id];
            f.fillsL2 && t.l2 == Full(Copy(f.version, f.loadedAt, s.now + REDIS_TTL)) ==> L2Sound(t)
  {
    SoundLater(s, t);
    HeldLater(s, t, s.inFlight[id].version, s.inFlight[id].loadedAt);
  }

  lemma HitOrReadInv(s: State, a: Action)
    requires Inv(s) && (a.HitL1? || a.ReadL2? || a.ReadDb?)
    ensures Inv(Next(s, a))
  {
    hide HeldAt, Later;
    StepLater(s, a);
    SoundLater(s, Next(s, a));
    ReadsSound(s, Next(s, a), a.replica);
  }

  lemma FillInv(s: State, a: Action)
    requires Inv(s) && (a.FillL2? || a.SkipL2? || a.FillL1?)
    ensures Inv(Next(s, a))
  {
    hide HeldAt, Later;
    var t := Next(s, a);
    StepLater(s, a);
    SoundLater(s, t);
    if a.fetch in s.inFlight && !a.SkipL2? && s.inFlight[a.fetch].fillsL2 == a.FillL2? {
      FillsSound(s, t, a.fetch);
    }
  }

  lemma StepInv(s: State, a: Action)
    requires Inv(s)
    ensures Inv(Next(s, a))
  {
    hide HeldAt, Later;
    if a.HitL1? || a.ReadL2? || a.ReadDb? {
      HitOrReadInv(s, a);
    } else if a.FillL2? || a.SkipL2? || a.FillL1? {
      FillInv(s, a);
    } else {
      StepLater(s, a);
      SoundLater(s, Next(s, a));
    }
  }

  lemma {:induction false} Reachable(acts: seq<Action>)
    ensures Inv(Run(START, acts))
  {
    if acts != [] {
      Reachable(acts[..|acts| - 1]);
      StepInv(Run(START, acts[..|acts| - 1]), acts[|acts| - 1]);
    }
  }

  /** Bounded staleness: everything Get ever returned was the database's value at some moment in the
      last 5m30s, plus twice the longest time a Get sat on a value; with atomic Gets that is 5m30s. */
  lemma AnswersAreRecent(acts: seq<Action>, i: nat)
    requires i < |Run(START, acts).answers|
    ensures var s := Run(START, acts);
            var a := s.answers[i];
            HeldAt(s, a.version, a.loadedAt) && 0 <= a.at - a.loadedAt <= REDIS_TTL + LOCAL_TTL + 2 * s.worst
    ensures Run(START, acts).worst == 0 ==>
              0 <= Run(START, acts).answers[i].at - Run(START, acts).answers[i].loadedAt <= 330
  {
    Reachable(acts);
  }

  // ---- Invalidation ----

  /** Nothing below version v can be returned after `deadline`. */
  ghost predicate Cleared(s: State, v: int, deadline: int) {
    && v <= Current(s)
    && (s.l2.Full? ==> v <= s.l2.copy.version)
    && (forall id :: id in s.inFlight ==> v <= s.inFlight[id].version)
    && (forall r :: r in s.l1 ==> v <= s.l1[r].version || s.l1[r].expiresAt <= deadline)
  }

  /** Answers from the n-th on that come after `deadline` are at least version v. */
  ghost predicate FreshAnswers(s: State, n: nat, v: int, deadline: int) {
    forall i :: n <= i < |s.answers| ==> v <= s.answers[i].version || s.answers[i].at <= deadline
  }

  lemma StepCleared(s: State, a: Action, n: nat, v: int, deadline: int)
    requires Cleared(s, v, deadline) && FreshAnswers(s, n, v, deadline)
    ensures Cleared(Next(s, a), v, deadline) && FreshAnswers(Next(s, a), n, v, deadline)
  {
  }

  lemma {:induction false} ClearedForever(s: State, acts: seq<Action>, n: nat, v: int, deadline: int)
    requires Cleared(s, v, deadline) && FreshAnswers(s, n, v, deadline)
    ensures FreshAnswers(Run(s, acts), n, v, deadline) && Cleared(Run(s, acts), v, deadline)
  {
    if acts != [] {
      ClearedForever(s, acts[..|acts| - 1], n, v, deadline);
      StepCleared(Run(s, acts[..|acts| - 1]), acts[|acts| - 1], n, v, deadline);
    }
  }

  lemma RunStep(s: State, acts: seq<Action>, a: Action)
    ensures Run(s, acts + [a]) == Next(Run(s, acts), a)
  {
    assert (acts + [a])[..|acts|] == acts;
  }

  /** A Get that holds a version, however old, can hand it out after any delay, and leaves it in its replica's own
      cache for another 30 seconds from then. */
  lemma LateFillReturnsOld(s: State, id: nat, delay: nat) returns (acts: seq<Action>)
    requires id in s.inFlight
    ensures var t, f := Run(s, acts), s.inFlight[id];
            && t.now == s.now + delay
            && t.answers == s.answers + [Answer(f.replica, f.version, f.loadedAt, t.now)]
            && t.l1 == s.l1[f.replica := Copy(f.version, f.loadedAt, t.now + LOCAL_TTL)]
            && t.l2 == s.l2 && t.changedAt == s.changedAt
  {
    var a1 := [SkipL2(id)];
    var a2 := a1 + [Tick(delay)];
    acts := a2 + [FillL1(id)];
    RunStep(s, [], SkipL2(id));
    assert [] + [SkipL2(id)] == a1;
    RunStep(s, a1, Tick(delay));
    RunStep(s, a2, FillL1(id));
  }

  /** Invalidation takes effect within 30 seconds on every replica, whatever happens afterwards, exactly
      when no Get is holding an older version at the moment of the invalidation. */
  lemma InvalidationEffectiveIff(before: seq<Action>, replica: nat)
    ensures var s := Next(Run(START, before), Invalidate(replica));
            (forall acts :: FreshAnswers(Run(s, acts), |s.answers|, Current(s), s.now + LOCAL_TTL))
            <==> (forall id :: id in s.inFlight ==> Current(s) <= s.inFlight[id].version)
  {
    hide Run, Next, FreshAnswers;
    var s := Next(Run(START, before), Invalidate(replica));
    if id :| id in s.inFlight && s.inFlight[id].version < Current(s) {
      var acts := OldAnswerComes(s, id);
    } else {
      InvalidationClears(before, replica);
      forall acts
        ensures FreshAnswers(Run(s, acts), |s.answers|, Current(s), s.now + LOCAL_TTL)
      {
        ClearedForever(s, acts, |s.answers|, Current(s), s.now + LOCAL_TTL);
      }
    }
  }

  /** A Get holding an older version defeats the invalidation. */
  lemma OldAnswerComes(s: State, id: nat) returns (acts: seq<Action>)
    requires id in s.inFlight && s.inFlight[id].version < Current(s)
    ensures !FreshAnswers(Run(s, acts), |s.answers|, Current(s), s.now + LOCAL_TTL)
  {
    hide Run;
    acts := LateFillReturnsOld(s, id, (LOCAL_TTL + 1) as nat);
    var t := Run(s, acts);
    assert t.answers[|s.answers|].version < Current(s) && t.answers[|s.answers|].at > s.now + LOCAL_TTL;
  }

  /** Without one, no older version is left to be handed out after the deadline. */
  lemma InvalidationClears(before: seq<Action>, replica: nat)
    requires var s := Next(Run(START, before), Invalidate(replica));
             forall id :: id in s.inFlight ==> Current(s) <= s.inFlight[id].version
    ensures var s := Next(Run(START, before), Invalidate(replica));
            Cleared(s, Current(s), s.now + LOCAL_TTL) && FreshAnswers(s, |s.answers|, Current(s), s.now + LOCAL_TTL)
  {
    hide Run;
    Reachable(before);
  }

  /** With atomic Gets nothing is in flight, and a change followed by an invalidation at time t is seen by
      every replica after t + 30s. */
  lemma InvalidationWithAtomicGets(before: seq<Action>, replica: nat, acts: seq<Action>)
    requires Run(START, before).inFlight == map[]
    ensures var s := Next(Run(START, before), Invalidate(replica));
            FreshAnswers(Run(s, acts), |s.answers|, Current(s), s.now + 30)
  {
    InvalidationEffectiveIff(before, replica);
  }

  /** Replica r holds nothing below version v and can get nothing below it. */
  ghost predicate ClearedHere(s: State, r: nat, v: int) {
    && v <= Current(s)
    && (s.l2.Full? ==> v <= s.l2.copy.version)
    && (forall id :: id in s.inFlight ==> v <= s.inFlight[id].version)
    && (r in s.l1 ==> v <= s.l1[r].version)
  }

  ghost predicate FreshHere(s: State, n: nat, r: nat, v: int) {
    forall i :: n <= i < |s.answers| && s.answers[i].replica == r ==> v <= s.answers[i].version
  }

  lemma StepClearedHere(s: State, a: Action, n: nat, r: nat, v: int)
    requires ClearedHere(s, r, v) && FreshHere(s, n, r, v)
    ensures ClearedHere(Next(s, a), r, v) && FreshHere(Next(s, a), n, r, v)
  {
  }

  lemma {:induction false} ClearedHereForever(s: State, acts: seq<Action>, n: nat, r: nat, v: int)
    requires ClearedHere(s, r, v) && FreshHere(s, n, r, v)
    ensures ClearedHere(Run(s, acts), r, v) && FreshHere(Run(s, acts), n, r, v)
  {
    hide Next, ClearedHere, FreshHere;
    if acts != [] {
      ClearedHereForever(s, acts[..|acts| - 1], n, r, v);
      StepClearedHere(Run(s, acts[..|acts| - 1]), acts[|acts| - 1], n, r, v);
    }
  }

  lemma ForgottenHere(s: State, r: nat, v: int, deadline: int)
    requires Cleared(Next(s, Invalidate(r)), v, deadline)
    ensures ClearedHere(Next(s, Invalidate(r)), r, v)
  {
  }

  /** On the replica that invalidates it takes effect at once, whatever happens afterwards, if no Get is holding an
      older version. */
  lemma OwnInvalidationIsImmediate(before: seq<Action>, replica: nat, acts: seq<Action>)
    requires var s := Next(Run(START, before), Invalidate(replica));
             forall id :: id in s.inFlight ==> Current(s) <= s.inFlight[id].version
    ensures var s := Next(Run(START, before), Invalidate(replica));
            FreshHere(Run(s, acts), |s.answers|, replica, Current(s))
  {
    hide Run;
    var s := Next(Run(START, before), Invalidate(replica));
    InvalidationClears(before, replica);
    ForgottenHere(Run(START, before), replica, Current(s), s.now + LOCAL_TTL);
    ClearedHereForever(s, acts, |s.answers|, replica, Current(s));
  }

  // ---- No Get is lost ----

  ghost predicate Numbered(s: State) {
    forall id :: id in s.inFlight ==> id < s.nextFetch
  }

  lemma {:induction false} FetchesNumbered(acts: seq<Action>)
    ensures Numbered(Run(START, acts))
  {
    hide Next;
    if acts != [] {
      FetchesNumbered(acts[..|acts| - 1]);
      NumberStep(Run(START, acts[..|acts| - 1]), acts[|acts| - 1]);
    }
  }

  lemma NumberStep(s: State, a: Action)
    requires Numbered(s)
    ensures Numbered(Next(s, a))
  {
  }

  /** A Get that misses joins those under way; the others go on as they were. */
  lemma GetsRunSideBySide(acts: seq<Action>, a: Action)
    requires a.ReadDb? || (a.ReadL2? && var s := Run(START, acts); s.l2.Full? && s.now <= s.l2.copy.expiresAt)
    ensures var s, t := Run(START, acts), Next(Run(START, acts), a);
            && s.nextFetch !in s.inFlight && t.inFlight.Keys == s.inFlight.Keys + {s.nextFetch}
            && (forall id :: id in s.inFlight ==> t.inFlight[id] == s.inFlight[id])
            && t.inFlight[s.nextFetch].replica == a.replica
  {
    hide Run;
    FetchesNumbered(acts);
    Reachable(acts);
  }

  // ---- The bound is reached ----

  /** A version read from the database, kept in Redis for five minutes. */
  lemma InRedis()
    ensures var s := Next(Next(Next(Next(START, ReadDb(0)), FillL2(0)), Change), Tick(300));
            && s.now == 300 && s.l2 == Full(Copy(0, 0, 300)) && s.changedAt == [0, 0] && s.l1 == map[]
            && s.nextFetch == 1 && s.answers == [] && s.worst == 0
  {
  }

  /** Read from there at the last moment, and kept by a replica for 30 seconds more. */
  lemma InReplica(s: State)
    requires s.now == 300 && s.l2 == Full(Copy(0, 0, 300)) && s.l1 == map[] && s.nextFetch == 1 && s.answers == []
    requires s.worst == 0
    ensures var t := Next(Next(Next(Next(s, ReadL2(1)), FillL1(1)), Tick(30)), HitL1(1));
            && t.now == 330 && t.answers == [Answer(1, 0, 0, 300), Answer(1, 0, 0, 330)] && t.worst == 0
            && t.changedAt == s.changedAt
  {
    var a := Next(s, ReadL2(1));
    assert a.inFlight[1] == Fetch(1, 0, 0, 300, false);
    var b := Next(a, FillL1(1));
    assert b.l1[1] == Copy(0, 0, 330) && b.answers == [Answer(1, 0, 0, 300)];
  }

  lemma RunFour(s: State, before: seq<Action>, a: Action, b: Action, c: Action, d: Action)
    ensures Run(s, before + [a] + [b] + [c] + [d]) == Next(Next(Next(Next(Run(s, before), a), b), c), d)
  {
    hide Run, Next;
    RunStep(s, before, a);
    RunStep(s, before + [a], b);
    RunStep(s, before + [a] + [b], c);
    RunStep(s, before + [a] + [b] + [c], d);
  }

  /** The staleness bound is exact: with Gets that take no time, an answer given 330 seconds after the database changed
      is still the old version. */
  lemma StalenessIsReached() returns (acts: seq<Action>)
    ensures var s := Run(START, acts);
            && s.worst == 0 && s.now == 330 && s.changedAt == [0, 0]
            && |s.answers| == 2 && s.answers[1] == Answer(1, 0, 0, 330) && Current(s) == 1
  {
    hide Run, Next;
    var first := [] + [ReadDb(0)] + [FillL2(0)] + [Change] + [Tick(300)];
    acts := first + [ReadL2(1)] + [FillL1(1)] + [Tick(30)] + [HitL1(1)];
    RunNothing(START);
    RunFour(START, [], ReadDb(0), FillL2(0), Change, Tick(300));
    RunFour(START, first, ReadL2(1), FillL1(1), Tick(30), HitL1(1));
    InRedis();
    InReplica(Run(START, first));
  }

  lemma RunNothing(s: State)
    ensures Run(s, []) == s
  {
  }
}
