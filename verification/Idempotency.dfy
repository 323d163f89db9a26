/** The treasury's sharded idempotency map (treasury/manager.go:218-321). */
module Idempotency {

  const SHARDS: nat := 16
  const MAX_MAP_SIZE: nat := 500_000
  const SHARD_LIMIT: nat := MAX_MAP_SIZE / SHARDS

  /** Times are nanoseconds. */
  const MINUTE: int := 60_000_000_000
  const FORCED_MAX_AGE: int := 2 * MINUTE
  const PERIODIC_MAX_AGE: int := 10 * MINUTE

  datatype Key = Key(reference: nat, op: string)

  type Entries = map<Key, int>

  /** The entries not older than the cutoff. */
  function Kept(m: Entries, cutoff: int): Entries {
    map k | k in m && m[k] >= cutoff :: m[k]
  }

  // ---- The flat specification ----

  /** Nothing is added or re-stamped, and nothing at or after the cutoff is lost. */
  ghost predicate Pruned(before: Entries, after: Entries, cutoff: int) {
    && (forall k :: k in after ==> k in before && after[k] == before[k])
    && (forall k :: k in before && before[k] >= cutoff ==> k in after)
  }

  ghost predicate Acquired(before: Entries, after: Entries, key: Key, now: int) {
    && key in after && after[key] == now
    && Pruned(before, after - {key}, now - FORCED_MAX_AGE)
  }

  datatype Event =
    | Acquire(key: Key, duplicate: bool, now: int)
    | Rollback(key: Key)
    | Cleanup(maxAge: int, now: int, later: int)

  function Later(s: int, t: int): int {
    if s < t then t else s
  }

  /** One operation on one flat map. A cleanup reads the clock once for its age and again, up to `later`, wherever
      it forces. */
  ghost predicate FlatStep(before: Entries, e: Event, after: Entries) {
    match e
    case Acquire(key, duplicate, now) =>
      && (duplicate <==> key in before)
      && (if duplicate then after == before else Acquired(before, after, key, now))
    case Rollback(key) => after == before - {key}
    case Cleanup(maxAge, now, later) =>
      && Pruned(before, after, Later(now - maxAge, later - FORCED_MAX_AGE))
      && forall k :: k in after ==> after[k] >= now - maxAge
  }

  // ---- The shards ----

  ghost predicate WellSharded(shards: seq<Entries>, hash: Key -> nat) {
    |shards| == SHARDS && forall i, k :: 0 <= i < SHARDS && k in shards[i] ==> hash(k) % SHARDS == i
  }

  ghost function Keys(shards: seq<Entries>): set<Key> {
    set i, k | 0 <= i < |shards| && k in shards[i] :: k
  }

  /** The flat map that the shards represent. */
  ghost function Flat(shards: seq<Entries>, hash: Key -> nat): (m: Entries)
    requires WellSharded(shards, hash)
  {
    map k | k in Keys(shards) :: shards[hash(k) % SHARDS][k]
  }

  /** A key is looked up in its own shard and nowhere else. */
  lemma FlatLookup(shards: seq<Entries>, hash: Key -> nat, k: Key)
    requires WellSharded(shards, hash)
    ensures k in Flat(shards, hash) <==> k in shards[hash(k) % SHARDS]
    ensures k in Flat(shards, hash) ==> Flat(shards, hash)[k] == shards[hash(k) % SHARDS][k]
  {
  }

  /** Every shard pruned by the cutoff is the flat map pruned by the cutoff. */
  lemma ShardsPruned(before: seq<Entries>, after: seq<Entries>, hash: Key -> nat, cutoff: int)
    requires WellSharded(before, hash) && |after| == SHARDS
    requires forall i :: 0 <= i < SHARDS ==> Pruned(before[i], after[i], cutoff)
    ensures WellSharded(after, hash) && Pruned(Flat(before, hash), Flat(after, hash), cutoff)
  {
    forall k | k in Flat(after, hash)
      ensures k in Flat(before, hash) && Flat(after, hash)[k] == Flat(before, hash)[k]
    {
      FlatLookup(before, hash, k);
      FlatLookup(after, hash, k);
    }
    forall k | k in Flat(before, hash) && Flat(before, hash)[k] >= cutoff ensures k in Flat(after, hash) {
      FlatLookup(before, hash, k);
      FlatLookup(after, hash, k);
    }
  }

  /** A write to the own shard of a key is a write to the flat map. */
  lemma ShardWritten(shards: seq<Entries>, hash: Key -> nat, key: Key, now: int)
    requires WellSharded(shards, hash)
    ensures var i := hash(key) % SHARDS;
            var after := shards[i := shards[i][key := now]];
            WellSharded(after, hash) && Flat(after, hash) == Flat(shards, hash)[key := now]
  {
    var i := hash(key) % SHARDS;
    var after := shards[i := shards[i][key := now]];
    forall k ensures k in Flat(after, hash) <==> k in Flat(shards, hash)[key := now] {
      FlatLookup(shards, hash, k);
      FlatLookup(after, hash, k);
    }
  }

  lemma ShardDeleted(shards: seq<Entries>, hash: Key -> nat, key: Key)
    requires WellSharded(shards, hash)
    ensures var i := hash(key) % SHARDS;
            var after := shards[i := shards[i] - {key}];
            WellSharded(after, hash) && Flat(after, hash) == Flat(shards, hash) - {key}
  {
    var i := hash(key) % SHARDS;
    var after := shards[i := shards[i] - {key}];
    forall k ensures k in Flat(after, hash) <==> k in Flat(shards, hash) - {key} {
      FlatLookup(shards, hash, k);
      FlatLookup(after, hash, k);
    }
  }

  lemma AcquiredAfter(before: Entries, middle: Entries, key: Key, now: int)
    requires key !in before && Pruned(before, middle, now - FORCED_MAX_AGE)
    ensures Acquired(before, middle[key := now], key, now)
  {
    assert middle[key := now] - {key} == middle;
  }

  /** The shards as the manager keeps them. Each operation is an operation on the flat map, whatever the
      hash: nothing a caller sees depends on it. */
  class IdempotencyMap {
    const hash: Key -> nat
    var shards: seq<Entries>

    ghost predicate Valid()
      reads this
    {
      WellSharded(shards, hash)
    }

    ghost function Contents(): Entries
      reads this
      requires Valid()
    {
      Flat(shards, hash)
    }

    constructor (hash: Key -> nat)
      ensures Valid() && Contents() == map[]
      ensures this.hash == hash
    {
      this.hash := hash;
      shards := seq(SHARDS, i => map[]);
    }

    /** Every shard starts over. */
    method Clear()
      requires Valid()
      modifies this
      ensures Valid() && Contents() == map[]
    {
      for i := 0 to SHARDS
        invariant Valid()
        invariant forall j :: 0 <= j < i ==> shards[j] == map[]
      {
        shards := shards[i := map[]];
      }
      forall k ensures k !in Contents() {
        FlatLookup(shards, hash, k);
      }
    }

    /** Removes the entries of one shard that are older than the cutoff. */
    method DeleteBefore(i: nat, cutoff: int)
      requires i < |shards|
      modifies this
      ensures shards == old(shards)[i := Kept(old(shards[i]), cutoff)]
    {
      var items, todo := shards[i], shards[i].Keys;
      while todo != {}
        invariant todo <= shards[i].Keys
        invariant forall k :: k in items <==> k in shards[i] && (k in todo || shards[i][k] >= cutoff)
        invariant forall k :: k in items ==> items[k] == shards[i][k]
        invariant shards == old(shards)
      {
        var k :| k in todo;
        if items[k] < cutoff {
          items := items - {k};
        }
        todo := todo - {k};
      }
      assert items == Kept(shards[i], cutoff);
      shards := shards[i := items];
    }

    /** True when the key was already there; otherwise the caller has it now. The clock is read for the
        cutoff and again for the stamp. Nothing leaves a shard below its limit; a full one loses exactly what is
        older than two minutes. */
    method TryAcquire(key: Key, early: int, now: int) returns (duplicate: bool)
      requires Valid() && early <= now
      modifies this
      ensures Valid()
      ensures FlatStep(old(Contents()), Acquire(key, duplicate, now), Contents())
      ensures !duplicate && |old(shards)[hash(key) % SHARDS]| < SHARD_LIMIT ==>
                Contents() == old(Contents())[key := now]
      ensures !duplicate && |old(shards)[hash(key) % SHARDS]| >= SHARD_LIMIT ==>
                shards == old(shards)[hash(key) % SHARDS :=
                  Kept(old(shards)[hash(key) % SHARDS], early - FORCED_MAX_AGE)[key := now]]
    {
      hide Flat, Acquired;
      var i := hash(key) % SHARDS;
      FlatLookup(shards, hash, key);
      if key in shards[i] {
        return true;
      }
      if |shards[i]| >= SHARD_LIMIT {
        DeleteBefore(i, early - FORCED_MAX_AGE);
      }
      ShardsPruned(old(shards), shards, hash, now - FORCED_MAX_AGE);
      ShardWritten(shards, hash, key, now);
      AcquiredAfter(old(Contents()), Contents(), key, now);
      shards := shards[i := shards[i][key := now]];
      return false;
    }

    method RollbackKey(key: Key)
      requires Valid()
      modifies this
      ensures Valid()
      ensures FlatStep(old(Contents()), Rollback(key), Contents())
    {
      hide Flat;
      ShardDeleted(shards, hash, key);
      var i := hash(key) % SHARDS;
      shards := shards[i := shards[i] - {key}];
    }

    /** Time-based cleanup of one shard, then the forced one, by a new clock reading, if it is still too large. */
    method CleanupShard(i: nat, maxAge: int, now: int, clock: int)
      requires Valid() && i < SHARDS
      modifies this
      ensures Valid()
      ensures shards == old(shards)[i := shards[i]]
      ensures Pruned(old(shards[i]), shards[i], Later(now - maxAge, clock - FORCED_MAX_AGE))
      ensures forall k :: k in shards[i] ==> shards[i][k] >= now - maxAge
      ensures |Kept(old(shards[i]), now - maxAge)| <= SHARD_LIMIT ==> shards[i] == Kept(old(shards[i]), now - maxAge)
      ensures |Kept(old(shards[i]), now - maxAge)| > SHARD_LIMIT ==>
                shards[i] == Kept(Kept(old(shards[i]), now - maxAge), clock - FORCED_MAX_AGE)
    {
      DeleteBefore(i, now - maxAge);
      if |shards[i]| > SHARD_LIMIT {
        DeleteBefore(i, clock - FORCED_MAX_AGE);
      }
    }

    method CleanupIdempotencyMap(maxAge: int, now: int, clocks: seq<int>, later: int)
      requires Valid() && |clocks| == SHARDS && forall i :: 0 <= i < SHARDS ==> now <= clocks[i] <= later
      modifies this
      ensures Valid()
      ensures FlatStep(old(Contents()), Cleanup(maxAge, now, later), Contents())
    {
      hide Flat;
      ghost var cutoff := Later(now - maxAge, later - FORCED_MAX_AGE);
      for i := 0 to SHARDS
        invariant Valid()
        invariant forall j :: 0 <= j < i ==> Pruned(old(shards)[j], shards[j], cutoff)
        invariant forall j, k :: 0 <= j < i && k in shards[j] ==> shards[j][k] >= now - maxAge
        invariant forall j :: i <= j < SHARDS ==> shards[j] == old(shards)[j]
      {
        CleanupShard(i, maxAge, now, clocks[i]);
      }
      ShardsPruned(old(shards), shards, hash, cutoff);
      forall k | k in Contents() ensures Contents()[k] >= now - maxAge {
        FlatLookup(shards, hash, k);
      }
    }
  }

  // ---- Survival ----

  /** A cleanup forgets every key stamped before its age limit and, by its last clock reading, none that is younger
      than both the limit and two minutes. */
  lemma CleanupForgets(before: Entries, maxAge: int, now: int, later: int, after: Entries, key: Key)
    requires FlatStep(before, Cleanup(maxAge, now, later), after) && key in before
    ensures before[key] < now - maxAge ==> key !in after
    ensures before[key] >= now - maxAge && before[key] >= later - FORCED_MAX_AGE ==> key in after
    ensures key in after ==> after[key] == before[key]
  {
  }

  /** A run: states[i] is the flat map before event i. */
  ghost predicate IsKeyRun(states: seq<Entries>, events: seq<Event>) {
    && |states| == |events| + 1
    && forall i :: 0 <= i < |events| ==> FlatStep(states[i], events[i], states[i + 1])
  }

  /** Events that leave a key stamped t alone: no rollback of it, every clock reading within two minutes of
      t, and no cleanup with a shorter age than that. */
  predicate Spares(e: Event, key: Key, t: int) {
    match e
    case Acquire(_, _, now) => now <= t + FORCED_MAX_AGE
    case Rollback(k) => k != key
    case Cleanup(maxAge, now, later) => now <= later <= t + FORCED_MAX_AGE && maxAge >= FORCED_MAX_AGE
  }

  lemma StepSpares(before: Entries, e: Event, after: Entries, key: Key, t: int)
    requires FlatStep(before, e, after) && Spares(e, key, t)
    requires key in before && before[key] == t
    ensures key in after && after[key] == t
    ensures e.Acquire? && e.key == key ==> e.duplicate
  {
    if e.Acquire? && !e.duplicate {
      assert key in after - {e.key};
    }
  }

  /** A key acquired at t and not rolled back is there after every later event of the next two minutes,
      forced and periodic cleanups included, and every attempt to acquire it again is a duplicate. */
  lemma {:induction false} KeySurvives(states: seq<Entries>, events: seq<Event>, start: nat, end: nat, key: Key, t: int)
    requires IsKeyRun(states, events) && start < end <= |events|
    requires events[start] == Acquire(key, false, t)
    requires forall i :: start < i < end ==> Spares(events[i], key, t)
    ensures key in states[end] && states[end][key] == t
    ensures forall i :: start < i < end && events[i].Acquire? && events[i].key == key ==> events[i].duplicate
    decreases end
  {
    if end == start + 1 {
      assert FlatStep(states[start], events[start], states[start + 1]);
    } else {
      KeySurvives(states, events, start, end - 1, key, t);
      StepSpares(states[end - 1], events[end - 1], states[end], key, t);
    }
  }
}
