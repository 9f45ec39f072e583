/** The bounded in-memory counter store with its expiry index
    (src/memory_rate_limit.rs), as a plain map with a filter. */
module RateLimitMemoryStore {
  import opened Common
  import opened RateLimitPolicy

  type Entries = map<Key, Snapshot>

  type Expirations = map<Time, set<Key>>

  // ----- What the store does, on plain maps -----------------------------------------

  function Revision(entries: Entries, key: Key): Option<Id> {
    if key in entries then Some(entries[key].revision) else None
  }

  function Lookup(entries: Entries, key: Key): Option<Snapshot> {
    if key in entries then Some(entries[key]) else None
  }

  /** The entries that outlive `now`. */
  function Unexpired(entries: Entries, now: Time): Entries {
    map key | key in entries && now < entries[key].state.expiresAt :: entries[key]
  }

  datatype StoreError = KeyMismatch | AlreadyExpired | ServiceUnavailable

  // ----- The indexed state -----------------------------------------------------------

  /** Every stored key is in exactly one bucket, the one of its own expiry; no bucket
      is empty; and every key in a bucket is stored. */
  ghost predicate IndexAgrees(entries: Entries, expirations: Expirations) {
    && (forall key :: key in entries ==>
          entries[key].state.expiresAt in expirations && key in expirations[entries[key].state.expiresAt])
    && (forall t, key :: t in expirations && key in expirations[t] ==>
          key in entries && entries[key].state.expiresAt == t)
    && (forall t :: t in expirations ==> expirations[t] != {})
  }

  /** Agreement leaves the index no freedom: it is the grouping of the entries by expiry. */
  lemma IndexIsDetermined(entries: Entries, a: Expirations, b: Expirations)
    requires IndexAgrees(entries, a) && IndexAgrees(entries, b)
    ensures a == b
  {
    SameBuckets(entries, a, b);
    SameBuckets(entries, b, a);
    assert forall t :: t in a <==> t in b;
    assert a.Keys == b.Keys;
  }

  lemma SameBuckets(entries: Entries, a: Expirations, b: Expirations)
    requires IndexAgrees(entries, a) && IndexAgrees(entries, b)
    ensures forall t :: t in a ==> t in b && a[t] == b[t]
  {
    forall t | t in a
      ensures t in b && a[t] == b[t]
    {
      var key :| key in a[t];
      assert key in entries && entries[key].state.expiresAt == t;
      forall k
        ensures k in a[t] <==> k in b[t]
      {
        if k in a[t] {
          assert k in entries && entries[k].state.expiresAt == t;
        }
        if k in b[t] {
          assert k in entries && entries[k].state.expiresAt == t;
        }
      }
    }
  }

  predicate Earliest(times: set<Time>, t: Time) {
    t in times && forall u :: u in times ==> t <= u
  }

  lemma {:induction false} EarliestExists(times: set<Time>, t: Time)
    requires t in times
    ensures exists first: Time :: Earliest(times, first)
    decreases times
  {
    if u :| u in times && u < t {
      var lower := set x | x in times && x < t;
      assert u in lower && t !in lower && lower <= times;
      EarliestExists(lower, u);
      var first: Time :| Earliest(lower, first);
      forall v | v in times
        ensures first <= v
      {
        assert v < t ==> v in lower;
      }
      assert Earliest(times, first);
    } else {
      assert Earliest(times, t);
    }
  }

  /** `first_key_value` of the ordered expiry map. */
  method FirstExpiry(expirations: Expirations) returns (first: Time)
    requires expirations != map[]
    ensures Earliest(expirations.Keys, first)
  {
    ghost var some :| some in expirations;
    EarliestExists(expirations.Keys, some);
    first :| Earliest(expirations.Keys, first);
  }

  lemma DroppingKeepsIndex(entries: Entries, expirations: Expirations, expiry: Time)
    requires IndexAgrees(entries, expirations) && expiry in expirations
    ensures IndexAgrees(entries - expirations[expiry], expirations - {expiry})
  {
    var entries', expirations' := entries - expirations[expiry], expirations - {expiry};
    forall t, key | t in expirations' && key in expirations'[t]
      ensures key in entries' && entries'[key].state.expiresAt == t
    {
      assert t in expirations && expirations'[t] == expirations[t];
      assert key in entries && entries[key].state.expiresAt == t;
      assert key !in expirations[expiry];
    }
  }

  /** `left` lacks nothing of `entries` but expired records. */
  ghost predicate OnlyExpiredGone(entries: Entries, left: Entries, now: Time) {
    && left.Keys <= entries.Keys
    && (forall key :: key in left ==> left[key] == entries[key])
    && (forall key :: key in entries && key !in left ==> entries[key].state.expiresAt <= now)
  }

  lemma DroppingExpired(entries: Entries, left: Entries, expirations: Expirations, expiry: Time, now: Time)
    requires OnlyExpiredGone(entries, left, now) && IndexAgrees(left, expirations)
    requires expiry in expirations && expiry <= now
    ensures OnlyExpiredGone(entries, left - expirations[expiry], now)
  {
  }

  lemma NothingExpiredLeft(entries: Entries, left: Entries, expirations: Expirations, now: Time)
    requires OnlyExpiredGone(entries, left, now) && IndexAgrees(left, expirations)
    requires forall t :: t in expirations ==> now < t
    ensures left == Unexpired(entries, now)
  {
    forall key | key in left
      ensures now < left[key].state.expiresAt
    {
    }
  }

  class MemoryState {
    var entries: Entries
    var expirations: Expirations

    ghost predicate Valid()
      reads this
    {
      IndexAgrees(entries, expirations)
    }

    constructor ()
      ensures Valid() && entries == map[]
    {
      entries, expirations := map[], map[];
    }

    /** Pops expiry buckets from the front. */
    method PurgeExpired(now: Time) returns (removed: nat)
      requires Valid()
      modifies this
      ensures Valid()
      ensures entries == Unexpired(old(entries), now)
      ensures removed == |old(entries)| - |entries|
    {
      removed := 0;
      while true
        invariant Valid()
        invariant OnlyExpiredGone(old(entries), entries, now)
        invariant removed == |old(entries)| - |entries|
        decreases |expirations|
      {
        if expirations == map[] {
          break;
        }
        var expiry := FirstExpiry(expirations);
        if expiry > now {
          break;
        }
        DroppingExpired(old(entries), entries, expirations, expiry, now);
        var dropped := DropBucket(expiry);
        removed := removed + dropped;
      }
      NothingExpiredLeft(old(entries), entries, expirations, now);
    }

    /** `pop_first` and the loop over the popped keys. */
    method DropBucket(expiry: Time) returns (removed: nat)
      requires Valid() && expiry in expirations
      modifies this
      ensures Valid()
      ensures expirations == old(expirations) - {expiry}
      ensures entries == old(entries) - old(expirations)[expiry]
      ensures removed == |old(entries)| - |entries|
    {
      var keys := expirations[expiry];
      DroppingKeepsIndex(entries, expirations, expiry);
      expirations := expirations - {expiry};
      removed := 0;
      ghost var bucket := keys;
      while keys != {}
        invariant keys <= bucket
        invariant expirations == old(expirations) - {expiry}
        invariant entries == old(entries) - (bucket - keys)
        invariant removed == |old(entries)| - |entries|
        decreases keys
      {
        var key :| key in keys;
        DroppingOne(old(entries), bucket, keys, key);
        keys := keys - {key};
        removed := removed + if key in entries then 1 else 0;
        entries := entries - {key};
      }
      assert bucket - keys == bucket;
    }

    method Remove(key: Key)
      requires Valid()
      modifies this
      ensures Valid() && entries == old(entries) - {key}
    {
      if key in entries {
        var expiry := entries[key].state.expiresAt;
        entries := entries - {key};
        if expiry in expirations {
          var keys := expirations[expiry] - {key};
          expirations := if keys == {} then expirations - {expiry} else expirations[expiry := keys];
        }
      }
    }

    method Insert(key: Key, snapshot: Snapshot)
      requires Valid()
      modifies this
      ensures Valid() && entries == old(entries)[key := snapshot]
    {
      Remove(key);
      var expiry := snapshot.state.expiresAt;
      var bucket := if expiry in expirations then expirations[expiry] else {};
      expirations := expirations[expiry := bucket + {key}];
      entries := entries[key := snapshot];
    }
  }

  // ----- The store ------------------------------------------------------------------

  /** Every operation reclaims what has expired under the same lock, then acts.
      `now` is the store's clock, read while the lock is held. */
  class MemoryAuthRateLimitStore {
    const states: MemoryState
    const capacity: nat

    ghost predicate Valid()
      reads this, states
    {
      states.Valid() && 0 < capacity && |states.entries| <= capacity
    }

    constructor (capacity: nat)
      requires capacity > 0
      ensures Valid() && states.entries == map[] && this.capacity == capacity && fresh(states)
    {
      this.capacity := capacity;
      states := new MemoryState();
    }

    method PurgeExpired(now: Time) returns (removed: nat)
      requires Valid()
      modifies states
      ensures Valid()
      ensures states.entries == Unexpired(old(states.entries), now)
      ensures removed == |old(states.entries)| - |states.entries|
    {
      removed := states.PurgeExpired(now);
      UnexpiredIsNoLarger(old(states.entries), now);
    }

    method Find(key: Key, now: Time) returns (found: Option<Snapshot>)
      requires Valid()
      modifies states
      ensures Valid()
      ensures states.entries == Unexpired(old(states.entries), now)
      ensures found == Lookup(states.entries, key)
    {
      var _ := PurgeExpired(now);
      found := if key in states.entries then Some(states.entries[key]) else None;
    }

    /** Commits exactly when the unexpired revision is the expected one, the
        replacement is for this key and not expired, and the key is stored or there
        is room for it. Otherwise it only reclaims, or does nothing at all. */
    method CompareExchange(key: Key, expected: Option<Id>, replacement: Snapshot, now: Time)
      returns (result: Result<bool, StoreError>)
      requires Valid()
      modifies states
      ensures Valid()
      ensures var before := Unexpired(old(states.entries), now);
              match result
              case Failure(KeyMismatch) =>
                replacement.state.key != key && states.entries == old(states.entries)
              case Success(false) =>
                && replacement.state.key == key && states.entries == before
                && Revision(before, key) != expected
              case Failure(AlreadyExpired) =>
                && replacement.state.key == key && states.entries == before
                && Revision(before, key) == expected && replacement.state.expiresAt <= now
              case Failure(ServiceUnavailable) =>
                && replacement.state.key == key && states.entries == before
                && Revision(before, key) == expected && now < replacement.state.expiresAt
                && key !in before && |before| == capacity
              case Success(true) =>
                && replacement.state.key == key && states.entries == before[key := replacement]
                && Revision(before, key) == expected && now < replacement.state.expiresAt
                && (key in before || |before| < capacity)
    {
      if replacement.state.key != key {
        return Failure(KeyMismatch);
      }
      var _ := PurgeExpired(now);
      var stored := if key in states.entries then Some(states.entries[key].revision) else None;
      if stored != expected {
        return Success(false);
      }
      if replacement.state.expiresAt <= now {
        return Failure(AlreadyExpired);
      }
      if key !in states.entries && |states.entries| >= capacity {
        return Failure(ServiceUnavailable);
      }
      UpdateGrowsByOne(states.entries, key, replacement);
      states.Insert(key, replacement);
      return Success(true);
    }

    /** Removes exactly the observed version, and nothing for an absent one. */
    method Clear(key: Key, expected: Option<Id>, now: Time) returns (cleared: bool)
      requires Valid()
      modifies states
      ensures Valid()
      ensures var before := Unexpired(old(states.entries), now);
              && cleared == (Revision(before, key) == expected)
              && states.entries == if cleared then before - {key} else before
    {
      var _ := PurgeExpired(now);
      var stored := if key in states.entries then Some(states.entries[key].revision) else None;
      if stored != expected {
        assert states.entries == Unexpired(old(states.entries), now);
        return false;
      }
      if expected.Some? {
        RemovalShrinks(states.entries, key);
        states.Remove(key);
      } else {
        assert states.entries - {key} == states.entries;
      }
      return true;
    }
  }

  lemma DroppingOne(entries: Entries, bucket: set<Key>, keys: set<Key>, key: Key)
    requires key in keys && keys <= bucket
    ensures var before := entries - (bucket - keys);
            && before - {key} == entries - (bucket - (keys - {key}))
            && |before - {key}| == |before| - (if key in before then 1 else 0)
  {
    assert bucket - (keys - {key}) == (bucket - keys) + {key};
    RemovingInTwoSteps(entries, bucket - keys, key);
    RemovalShrinksByOne(entries - (bucket - keys), key);
  }

  lemma RemovingInTwoSteps(entries: Entries, gone: set<Key>, key: Key)
    ensures entries - gone - {key} == entries - (gone + {key})
  {
  }

  lemma RemovalShrinksByOne(entries: Entries, key: Key)
    ensures |entries - {key}| == |entries| - (if key in entries then 1 else 0)
  {
    assert (entries - {key}).Keys == entries.Keys - {key};
  }

  lemma UnexpiredIsNoLarger(entries: Entries, now: Time)
    ensures |Unexpired(entries, now)| <= |entries|
  {
    SubsetIsNoLarger(Unexpired(entries, now).Keys, entries.Keys);
  }

  lemma {:induction false} SubsetIsNoLarger(a: set<Key>, b: set<Key>)
    requires a <= b
    ensures |a| <= |b|
  {
    assert b == a + (b - a);
  }

  lemma UpdateGrowsByOne(entries: Entries, key: Key, snapshot: Snapshot)
    ensures |entries[key := snapshot]| == |entries| + if key in entries then 0 else 1
  {
    assert entries[key := snapshot].Keys == entries.Keys + {key};
  }

  lemma RemovalShrinks(entries: Entries, key: Key)
    ensures |entries - {key}| <= |entries|
  {
    SubsetIsNoLarger((entries - {key}).Keys, entries.Keys);
  }
}
