/**
  The open-addressing hash table: linear probing, tombstones for removed
  entries, a doubling rehash, and the counters that decide when to rehash.
  Entries are values here; the program links them by pointer.
*/
module HashTable {
  import opened Digits

  const INITIAL_SIZE: int := 16

  /** sizeof(uhashtable_entry_t*) */
  const POINTER_SIZE: int := 4

  datatype Slot = Null | Entry(key: u32, data: int, used: bool)

  datatype Error = NoErr | NoSuchId | MallocFailed | OutOfBound

  predicate Live(e: Slot) {
    e.Entry? && e.used
  }

  predicate Tomb(e: Slot) {
    e.Entry? && !e.used
  }

  // ----- probing

  /** The slot a key hashes to: the capacity is a power of two, so the mask is the remainder. */
  function Home(hash: nat, capacity: int): (i: int)
    requires capacity > 0
    ensures 0 <= i < capacity
  {
    hash % capacity
  }

  /** The home differs from the hash by a multiple of the capacity. */
  lemma HomeCongruent(hash: nat, capacity: int) returns (q: nat)
    requires capacity > 0
    ensures hash == q * capacity + Home(hash, capacity)
  {
    q := hash / capacity;
  }

  /** The slot d steps behind home, cyclically. */
  function At(home: int, d: int, capacity: int): int {
    if home + d < capacity then home + d else home + d - capacity
  }

  /** How many steps lead from home to slot i. */
  function Steps(home: int, i: int, capacity: int): int {
    if home <= i then i - home else i - home + capacity
  }

  lemma NextIndex(home: int, d: int, capacity: int)
    requires 0 <= home < capacity && 0 <= d < capacity
    ensures 0 <= At(home, d, capacity) < capacity
    ensures d + 1 < capacity ==> (At(home, d, capacity) + 1) % capacity == At(home, d + 1, capacity)
  {
    if d + 1 < capacity {
      var i := At(home, d, capacity) + 1;
      if i < capacity { SmallRemainder(i, capacity); } else { assert i == capacity; SelfRemainder(capacity); }
    }
  }

  lemma SmallRemainder(i: int, capacity: int)
    requires 0 <= i < capacity
    ensures i % capacity == i
  {
  }

  lemma SelfRemainder(capacity: int)
    requires 0 < capacity
    ensures capacity % capacity == 0
  {
  }

  lemma StepsAt(home: int, i: int, capacity: int)
    requires 0 <= home < capacity && 0 <= i < capacity
    ensures 0 <= Steps(home, i, capacity) < capacity && At(home, Steps(home, i, capacity), capacity) == i
  {
  }

  /** The first d slots from home on are not NULL. */
  ghost predicate Filled(s: seq<Slot>, home: int, d: int)
    requires 0 <= home < |s| && d <= |s|
  {
    forall e :: 0 <= e < d ==> s[At(home, e, |s|)].Entry?
  }

  // ----- the table as a map

  ghost predicate Unique(s: seq<Slot>) {
    forall i, j :: 0 <= i < |s| && 0 <= j < |s| && Live(s[i]) && Live(s[j]) && s[i].key == s[j].key ==> i == j
  }

  /** Every slot from the home of the key in slot i up to i is not NULL. */
  ghost predicate Reached(s: seq<Slot>, hash: u32 -> nat, i: int)
    requires 0 <= i < |s| && Live(s[i])
  {
    var home := Home(hash(s[i].key), |s|);
    Filled(s, home, Steps(home, i, |s|))
  }

  ghost predicate TableOk(s: seq<Slot>, hash: u32 -> nat) {
    && Unique(s)
    && forall i :: 0 <= i < |s| && Live(s[i]) ==> Reached(s, hash, i)
  }

  ghost function LiveKeys(s: seq<Slot>): set<u32> {
    set i | 0 <= i < |s| && Live(s[i]) :: s[i].key
  }

  ghost function DataOf(s: seq<Slot>, key: u32): int
    requires key in LiveKeys(s)
  {
    var i :| 0 <= i < |s| && Live(s[i]) && s[i].key == key;
    s[i].data
  }

  /** The map the table stands for. */
  ghost function Contents(s: seq<Slot>): map<u32, int> {
    map key | key in LiveKeys(s) :: DataOf(s, key)
  }

  ghost predicate HasNull(s: seq<Slot>) {
    exists i :: 0 <= i < |s| && s[i].Null?
  }

  lemma ContentsAt(s: seq<Slot>, i: int)
    requires Unique(s) && 0 <= i < |s| && Live(s[i])
    ensures s[i].key in Contents(s) && Contents(s)[s[i].key] == s[i].data
  {
    assert s[i].key in LiveKeys(s);
  }

  lemma ContentsKeys(s: seq<Slot>, key: u32)
    ensures key in Contents(s) <==> exists i :: 0 <= i < |s| && Live(s[i]) && s[i].key == key
  {
  }

  lemma UniqueUpdate(s: seq<Slot>, p: int, e: Slot)
    requires Unique(s) && 0 <= p < |s|
    requires Live(e) ==> forall i :: 0 <= i < |s| && Live(s[i]) && s[i].key == e.key ==> i == p
    ensures Unique(s[p := e])
  {
  }

  /** Filling a slot that was not live adds one binding. */
  lemma ContentsInsert(s: seq<Slot>, p: int, key: u32, data: int)
    requires Unique(s) && 0 <= p < |s| && !Live(s[p]) && key !in Contents(s)
    ensures var s' := s[p := Entry(key, data, true)];
            Unique(s') && Contents(s') == Contents(s)[key := data]
  {
    var s' := s[p := Entry(key, data, true)];
    ContentsKeys(s, key);
    UniqueUpdate(s, p, Entry(key, data, true));
    hide Unique, Contents;
    SameElsewhere(s, s', p, key);
    ContentsAt(s', p);
    assert Contents(s') == Contents(s)[key := data];
  }

  /** Away from slot p and the key in question, two tables agree. */
  lemma SameElsewhere(s: seq<Slot>, s': seq<Slot>, p: int, key: u32)
    requires Unique(s) && Unique(s') && |s'| == |s| && 0 <= p < |s| && s' == s[p := s'[p]]
    requires Live(s[p]) ==> s[p].key == key
    requires Live(s'[p]) ==> s'[p].key == key
    ensures forall k :: k != key ==> (k in Contents(s') <==> k in Contents(s))
    ensures forall k :: k != key && k in Contents(s) && k in Contents(s') ==> Contents(s')[k] == Contents(s)[k]
  {
    hide Contents, Unique;
    forall k | k != key
      ensures k in Contents(s') <==> k in Contents(s)
      ensures k in Contents(s) && k in Contents(s') ==> Contents(s')[k] == Contents(s)[k]
    {
      ContentsKeys(s, k);
      ContentsKeys(s', k);
      if k in Contents(s) {
        var i :| 0 <= i < |s| && Live(s[i]) && s[i].key == k;
        assert s'[i] == s[i];
        ContentsAt(s, i);
        ContentsAt(s', i);
      }
      if k in Contents(s') {
        var i :| 0 <= i < |s| && Live(s'[i]) && s'[i].key == k;
        assert s'[i] == s[i];
      }
    }
  }

  /** Turning a live slot into a tombstone removes its binding. */
  lemma ContentsRemove(s: seq<Slot>, p: int)
    requires Unique(s) && 0 <= p < |s| && Live(s[p])
    ensures var s' := s[p := s[p].(used := false)];
            Unique(s') && Contents(s') == Contents(s) - {s[p].key}
  {
    var s', key := s[p := s[p].(used := false)], s[p].key;
    UniqueUpdate(s, p, s[p].(used := false));
    ContentsKeys(s', key);
    assert forall i :: 0 <= i < |s| && Live(s[i]) && s[i].key == key ==> i == p;
    hide Unique, Contents;
    SameElsewhere(s, s', p, key);
    assert Contents(s') == Contents(s) - {key};
  }

  lemma ReachedUpdate(s: seq<Slot>, hash: u32 -> nat, p: int, e: Slot, i: int)
    requires 0 <= p < |s| && e.Entry? && 0 <= i < |s| && i != p && Live(s[i]) && Reached(s, hash, i)
    ensures Reached(s[p := e], hash, i)
  {
    hide Home;
  }

  /** Filling slot p keeps the table sound if the key was absent and the way to p is filled. */
  lemma InsertOk(s: seq<Slot>, hash: u32 -> nat, p: int, key: u32, data: int)
    requires TableOk(s, hash) && 0 <= p < |s| && !Live(s[p]) && key !in Contents(s)
    requires Filled(s, Home(hash(key), |s|), Steps(Home(hash(key), |s|), p, |s|))
    ensures var s' := s[p := Entry(key, data, true)];
            TableOk(s', hash) && Contents(s') == Contents(s)[key := data]
  {
    ContentsInsert(s, p, key, data);
    var s' := s[p := Entry(key, data, true)];
    hide Unique, Contents, Home;
    assert Reached(s', hash, p);
    hide Reached;
    forall i | 0 <= i < |s'| && Live(s'[i])
      ensures Reached(s', hash, i)
    {
      if i != p { ReachedUpdate(s, hash, p, s'[p], i); }
    }
  }

  lemma RemoveOk(s: seq<Slot>, hash: u32 -> nat, p: int)
    requires TableOk(s, hash) && 0 <= p < |s| && Live(s[p])
    ensures var s' := s[p := s[p].(used := false)];
            TableOk(s', hash) && Contents(s') == Contents(s) - {s[p].key}
  {
    ContentsRemove(s, p);
    var s' := s[p := s[p].(used := false)];
    hide Unique, Contents, Home, Reached;
    forall i | 0 <= i < |s'| && Live(s'[i])
      ensures Reached(s', hash, i)
    {
      ReachedUpdate(s, hash, p, s'[p], i);
    }
  }

  /** A probe that met NULL without meeting the key proves the key absent. */
  lemma ProbeMiss(s: seq<Slot>, hash: u32 -> nat, key: u32, d: int)
    requires TableOk(s, hash) && |s| > 0 && 0 <= d < |s|
    requires var home := Home(hash(key), |s|);
             && 0 <= At(home, d, |s|) < |s| && s[At(home, d, |s|)].Null?
             && forall e :: 0 <= e < d ==> !(Live(s[At(home, e, |s|)]) && s[At(home, e, |s|)].key == key)
    ensures key !in Contents(s)
  {
    hide Home;
    var home := Home(hash(key), |s|);
    ContentsKeys(s, key);
    forall i | 0 <= i < |s| && Live(s[i])
      ensures s[i].key != key
    {
      StepsAt(Home(hash(s[i].key), |s|), i, |s|);
      assert Reached(s, hash, i);
    }
  }

  // ----- where probes end

  /** A lookup can end: at a NULL slot, or at the key. */
  ghost predicate CanFind(s: seq<Slot>, key: u32) {
    HasNull(s) || key in Contents(s)
  }

  /** A set can end: at a slot that is not live, or at the key. */
  ghost predicate CanStop(s: seq<Slot>, key: u32) {
    exists i :: 0 <= i < |s| && (!Live(s[i]) || s[i].key == key)
  }

  /** The distance of a slot at which a lookup ends. */
  lemma FindAhead(s: seq<Slot>, home: int, key: u32) returns (z: int)
    requires CanFind(s, key) && 0 <= home < |s|
    ensures 0 <= z < |s| && 0 <= At(home, z, |s|) < |s|
    ensures var e := s[At(home, z, |s|)]; e.Null? || (Live(e) && e.key == key)
  {
    ContentsKeys(s, key);
    var i :| 0 <= i < |s| && (s[i].Null? || (Live(s[i]) && s[i].key == key));
    StepsAt(home, i, |s|);
    z := Steps(home, i, |s|);
  }

  lemma StopAhead(s: seq<Slot>, home: int, key: u32) returns (z: int)
    requires CanStop(s, key) && 0 <= home < |s|
    ensures 0 <= z < |s| && 0 <= At(home, z, |s|) < |s|
    ensures var e := s[At(home, z, |s|)]; Live(e) ==> e.key == key
  {
    var i :| 0 <= i < |s| && (!Live(s[i]) || s[i].key == key);
    StepsAt(home, i, |s|);
    z := Steps(home, i, |s|);
  }

  /** The slot a probe looks at after n of its steps. */
  function ProbeAt(home: int, n: nat, capacity: int): (i: int)
    requires 0 <= home < capacity
    ensures 0 <= i < capacity
  {
    if n == 0 then home else (ProbeAt(home, n - 1, capacity) + 1) % capacity
  }

  /** The first round of a probe passes the slots behind home in order. */
  lemma {:induction false} FirstRound(home: int, n: nat, capacity: int)
    requires 0 <= home < capacity && n < capacity
    ensures ProbeAt(home, n, capacity) == At(home, n, capacity)
  {
    if n > 0 {
      FirstRound(home, n - 1, capacity);
      NextIndex(home, n - 1, capacity);
    }
  }

  /** Every slot is looked at sooner or later. */
  lemma Meets(home: int, i: int, capacity: int)
    requires 0 <= home < capacity && 0 <= i < capacity
    ensures exists n: nat :: ProbeAt(home, n, capacity) == i
  {
    StepsAt(home, i, capacity);
    FirstRound(home, Steps(home, i, capacity), capacity);
  }

  /** What the loop of a lookup passes: an entry or tombstone other than the key's own entry. */
  predicate Passes(e: Slot, key: u32) {
    e.Entry? && !(e.key == key && e.used)
  }

  /** A lookup of a key goes round for ever, passing a slot at each of its steps, exactly when it cannot end. */
  lemma NeverFinds(s: seq<Slot>, hash: u32 -> nat, key: u32)
    requires |s| > 0
    ensures !CanFind(s, key) <==> forall n: nat :: Passes(s[ProbeAt(Home(hash(key), |s|), n, |s|)], key)
  {
    hide Home, ProbeAt, Contents;
    ContentsKeys(s, key);
    var home := Home(hash(key), |s|);
    if CanFind(s, key) {
      var i :| 0 <= i < |s| && (s[i].Null? || (Live(s[i]) && s[i].key == key));
      Meets(home, i, |s|);
      var n: nat :| ProbeAt(home, n, |s|) == i;
      assert !Passes(s[ProbeAt(home, n, |s|)], key);
    }
  }

  /** The search of a set for a place goes round for ever exactly when every slot holds an entry of another key. */
  lemma NeverStops(s: seq<Slot>, hash: u32 -> nat, key: u32)
    requires |s| > 0
    ensures !CanStop(s, key) <==>
            forall n: nat :: var e := s[ProbeAt(Home(hash(key), |s|), n, |s|)]; Live(e) && e.key != key
  {
    hide Home, ProbeAt;
    var home := Home(hash(key), |s|);
    if CanStop(s, key) {
      var i :| 0 <= i < |s| && (!Live(s[i]) || s[i].key == key);
      Meets(home, i, |s|);
      var n: nat :| ProbeAt(home, n, |s|) == i;
      assert !(Live(s[ProbeAt(home, n, |s|)]) && s[ProbeAt(home, n, |s|)].key != key);
    }
  }

  lemma NullStops(s: seq<Slot>, key: u32)
    requires HasNull(s)
    ensures CanStop(s, key) && CanFind(s, key)
  {
    var i :| 0 <= i < |s| && s[i].Null?;
    assert !Live(s[i]);
  }

  // ----- where a set stops

  /** The first slot from home on that is not live, or is live with the key, lies d steps from home. */
  ghost predicate StopsAt(s: seq<Slot>, home: int, key: u32, d: int) {
    && 0 <= home < |s| && 0 <= d < |s|
    && (var e := s[At(home, d, |s|)]; Live(e) ==> e.key == key)
    && (forall k :: 0 <= k < d ==> var e := s[At(home, k, |s|)]; Live(e) && e.key != key)
  }

  lemma StopFilled(s: seq<Slot>, home: int, key: u32, d: int)
    requires StopsAt(s, home, key, d)
    ensures Filled(s, home, d) && Steps(home, At(home, d, |s|), |s|) == d
  {
  }

  /** The slot d steps from the home of a key. */
  function StopSlot(s: seq<Slot>, hash: u32 -> nat, key: u32, d: int): Slot {
    if |s| > 0 && 0 <= At(Home(hash(key), |s|), d, |s|) < |s| then s[At(Home(hash(key), |s|), d, |s|)] else Null
  }

  /** An entry for the key was written where the probe stops. */
  ghost predicate Placed(s: seq<Slot>, hash: u32 -> nat, key: u32, data: int, d: int, s': seq<Slot>) {
    && |s| > 0 && StopsAt(s, Home(hash(key), |s|), key, d)
    && (var p := At(Home(hash(key), |s|), d, |s|);
        0 <= p < |s| && s' == s[p := Entry(key, data, true)])
  }

  /** What that does to the counters: a NULL slot adds to size, a tombstone is taken off the graveyard only. */
  ghost predicate Tallied(s: seq<Slot>, hash: u32 -> nat, key: u32, d: int, size: u32, graveyard: u32, reuses: nat,
                          size': u32, graveyard': u32, reuses': nat)
  {
    var e := StopSlot(s, hash, key, d);
    && size' == (if e.Null? then U32(size + 1) else size)
    && graveyard' == graveyard - (if Tomb(e) then 1 else 0)
    && reuses' == reuses + (if Tomb(e) then 1 else 0)
  }

  /** No tombstone lies between the home of a key and its entry. */
  ghost predicate Direct(s: seq<Slot>, hash: u32 -> nat, key: u32)
    requires |s| > 0
  {
    var home := Home(hash(key), |s|);
    forall i :: 0 <= i < |s| && Live(s[i]) && s[i].key == key ==>
      forall k :: 0 <= k < Steps(home, i, |s|) ==> !Tomb(s[At(home, k, |s|)])
  }

  /** Writing an absent key where the probe stops. */
  lemma SetAbsent(s: seq<Slot>, hash: u32 -> nat, key: u32, data: int, d: int)
    requires TableOk(s, hash) && |s| > 0 && StopsAt(s, Home(hash(key), |s|), key, d) && key !in Contents(s)
    ensures var p := At(Home(hash(key), |s|), d, |s|);
            0 <= p < |s| && !Live(s[p])
            && (var s' := s[p := Entry(key, data, true)]; TableOk(s', hash) && Contents(s') == Contents(s)[key := data])
  {
    hide Home, Unique, Contents, Reached, Filled;
    var home := Home(hash(key), |s|);
    StopFilled(s, home, key, d);
    ContentsKeys(s, key);
    InsertOk(s, hash, At(home, d, |s|), key, data);
  }

  /**
    Writing a present key where the probe stops is an update exactly when no
    tombstone comes first; otherwise the key is in the table twice.
  */
  lemma SetPresent(s: seq<Slot>, hash: u32 -> nat, key: u32, data: int, d: int)
    requires TableOk(s, hash) && |s| > 0 && StopsAt(s, Home(hash(key), |s|), key, d) && key in Contents(s)
    ensures var p := At(Home(hash(key), |s|), d, |s|);
            0 <= p < |s|
            && (var s' := s[p := Entry(key, data, true)];
                && (Unique(s') <==> Direct(s, hash, key))
                && (Direct(s, hash, key) <==> Live(s[p]))
                && (Direct(s, hash, key) ==> TableOk(s', hash) && Contents(s') == Contents(s)[key := data]))
  {
    hide Home, Contents;
    var home := Home(hash(key), |s|);
    ContentsKeys(s, key);
    var i :| 0 <= i < |s| && Live(s[i]) && s[i].key == key;
    StepsAt(home, i, |s|);
    assert Reached(s, hash, i);
    var p := At(home, d, |s|);
    var s' := s[p := Entry(key, data, true)];
    DirectStop(s, hash, key, d, i);
    hide Direct, StopsAt;
    if p == i {
      SetInPlace(s, hash, i, data);
    } else {
      assert Live(s'[i]) && Live(s'[p]) && s'[i].key == s'[p].key;
    }
  }

  lemma DirectStop(s: seq<Slot>, hash: u32 -> nat, key: u32, d: int, i: int)
    requires Unique(s) && |s| > 0 && StopsAt(s, Home(hash(key), |s|), key, d)
    requires 0 <= i < |s| && Live(s[i]) && s[i].key == key && Reached(s, hash, i)
    ensures var p := At(Home(hash(key), |s|), d, |s|);
            0 <= p < |s| && (Direct(s, hash, key) <==> p == i) && (Live(s[p]) <==> p == i)
  {
    hide Home;
    var home := Home(hash(key), |s|);
    var p, t := At(home, d, |s|), Steps(home, i, |s|);
    StepsAt(home, i, |s|);
    StopFilled(s, home, key, d);
    assert s[At(home, t, |s|)] == s[i];
    assert d <= t;
    if p != i {
      assert d < t && Tomb(s[At(home, d, |s|)]);
    }
  }

  lemma SetInPlace(s: seq<Slot>, hash: u32 -> nat, i: int, data: int)
    requires TableOk(s, hash) && 0 <= i < |s| && Live(s[i])
    ensures var key := s[i].key;
            var s' := s[i := Entry(key, data, true)];
            TableOk(s', hash) && Contents(s') == Contents(s)[key := data]
  {
    var key := s[i].key;
    var s' := s[i := Entry(key, data, true)];
    UniqueUpdate(s, i, s'[i]);
    hide Unique, Contents, Home;
    SameElsewhere(s, s', i, key);
    ContentsAt(s', i);
    assert Contents(s') == Contents(s)[key := data];
    assert Reached(s, hash, i);
    FilledUpdate(s, Home(hash(key), |s|), Steps(Home(hash(key), |s|), i, |s|), i, s'[i]);
    assert Reached(s', hash, i);
    hide Reached;
    forall j | 0 <= j < |s'| && Live(s'[j])
      ensures Reached(s', hash, j)
    {
      if j != i { ReachedUpdate(s, hash, i, s'[i], j); }
    }
  }

  lemma FilledUpdate(s: seq<Slot>, home: int, d: int, i: int, e: Slot)
    requires 0 <= home < |s| && d <= |s| && Filled(s, home, d) && 0 <= i < |s| && e.Entry?
    ensures Filled(s[i := e], home, d)
  {
  }

  // ----- counting slots

  function NonNulls(s: seq<Slot>): (n: nat)
    ensures n <= |s|
  {
    if s == [] then 0 else (if s[0].Null? then 0 else 1) + NonNulls(s[1..])
  }

  function Tombs(s: seq<Slot>): (n: nat)
    ensures n <= NonNulls(s)
  {
    if s == [] then 0 else (if Tomb(s[0]) then 1 else 0) + Tombs(s[1..])
  }

  lemma {:induction false} CountUpdate(s: seq<Slot>, i: int, e: Slot)
    requires 0 <= i < |s|
    ensures NonNulls(s[i := e]) == NonNulls(s) - (if s[i].Null? then 0 else 1) + (if e.Null? then 0 else 1)
    ensures Tombs(s[i := e]) == Tombs(s) - (if Tomb(s[i]) then 1 else 0) + (if Tomb(e) then 1 else 0)
  {
    if i == 0 {
      assert s[i := e][1..] == s[1..];
    } else {
      assert s[i := e][1..] == s[1..][i - 1 := e];
      CountUpdate(s[1..], i - 1, e);
    }
  }

  lemma {:induction false} CountFull(s: seq<Slot>)
    ensures NonNulls(s) < |s| <==> HasNull(s)
  {
    if s != [] {
      CountFull(s[1..]);
      if HasNull(s) {
        var i :| 0 <= i < |s| && s[i].Null?;
        if i > 0 { assert s[1..][i - 1].Null?; }
      }
      if HasNull(s[1..]) {
        var i :| 0 <= i < |s[1..]| && s[1..][i].Null?;
        assert s[i + 1].Null?;
      }
    }
  }

  // ----- the counters

  /** Capacities are the initial one, doubled some number of times. */
  ghost predicate Doubled(capacity: int)
    decreases if capacity > 0 then capacity else 0
  {
    capacity == INITIAL_SIZE || (capacity > INITIAL_SIZE && capacity % 2 == 0 && Doubled(capacity / 2))
  }

  /** What the counters count: reused tombstones are missing from size for good. */
  ghost predicate Counted(s: seq<Slot>, size: u32, graveyard: u32, reuses: nat) {
    && Tombs(s) == graveyard
    && NonNulls(s) == U32(size + graveyard + reuses)
  }

  lemma CountedFill(s: seq<Slot>, p: int, e: Slot, size: u32, graveyard: u32, reuses: nat)
    requires Counted(s, size, graveyard, reuses) && 0 <= p < |s| < 0x1_0000_0000 && !Live(s[p]) && Live(e)
    ensures s[p].Null? ==> Counted(s[p := e], U32(size + 1), graveyard, reuses)
    ensures !s[p].Null? ==> graveyard > 0 && Counted(s[p := e], size, graveyard - 1, reuses + 1)
  {
    CountUpdate(s, p, e);
    CountBound(s[p := e]);
    CountedStep(size, graveyard, reuses);
    hide NonNulls, Tombs, U32;
  }

  lemma CountedStep(size: u32, graveyard: u32, reuses: nat)
    ensures U32(size + graveyard + reuses) + 1 < 0x1_0000_0000 ==>
              U32(U32(size + 1) + graveyard + reuses) == U32(size + graveyard + reuses) + 1
    ensures U32(size + (graveyard - 1) + (reuses + 1)) == U32(size + graveyard + reuses)
  {
  }

  lemma CountedBury(s: seq<Slot>, p: int, size: u32, graveyard: u32, reuses: nat)
    requires Counted(s, size, graveyard, reuses) && 0 <= p < |s| < 0x1_0000_0000 && Live(s[p])
    ensures graveyard + 1 < 0x1_0000_0000
    ensures Counted(s[p := s[p].(used := false)], U32(size - 1), graveyard + 1, reuses)
  {
    CountUpdate(s, p, s[p].(used := false));
    hide NonNulls, Tombs;
    CountBound(s[p := s[p].(used := false)]);
  }

  lemma CountBound(s: seq<Slot>)
    ensures Tombs(s) <= NonNulls(s) <= |s|
  {
  }

  /**
    While fewer than three tenths of the slots were reused, a passed load check leaves a
    NULL slot after one more entry.
  */
  lemma LoadCheck(s: seq<Slot>, size: u32, graveyard: u32, reuses: nat)
    requires Counted(s, size, graveyard, reuses) && |s| < 0x1_0000_0000
    requires 10 * U32(size + graveyard) <= 7 * |s|
    requires 10 * (reuses + 1) < 3 * |s|
    ensures NonNulls(s) + 1 < |s|
  {
    CountBound(s);
    hide NonNulls, Tombs;
    assert NonNulls(s) <= U32(size + graveyard) + reuses;
  }

  /** What the load check adds up, from the slots in use and the reuses so far. */
  lemma LoadSum(s: seq<Slot>, size: u32, graveyard: u32, reuses: nat)
    requires Counted(s, size, graveyard, reuses) && |s| < 0x1_0000_0000
    ensures var r := U32(reuses);
            U32(size + graveyard) == if r <= NonNulls(s) then NonNulls(s) - r else 0x1_0000_0000 + NonNulls(s) - r
  {
    hide NonNulls, Tombs;
    CountBound(s);
    CountedSum(s, size, graveyard, reuses);
    hide *;
    TakeAway(size + graveyard, reuses, NonNulls(s));
  }

  lemma CountedSum(s: seq<Slot>, size: u32, graveyard: u32, reuses: nat)
    requires Counted(s, size, graveyard, reuses)
    ensures NonNulls(s) == U32(size + graveyard + reuses)
  {
    hide NonNulls, Tombs, U32;
  }

  lemma TakeAway(a: int, r: nat, n: int)
    requires 0 <= n < 0x1_0000_0000 && U32(a + r) == n
    ensures U32(a) == if U32(r) <= n then n - U32(r) else 0x1_0000_0000 + n - U32(r)
  {
    var p, q := (a + r) / 0x1_0000_0000, r / 0x1_0000_0000;
    assert a == 0x1_0000_0000 * (p - q) + (n - U32(r));
    Multiple(p - q, n - U32(r));
    Multiple(p - q - 1, 0x1_0000_0000 + n - U32(r));
  }

  lemma Multiple(k: int, x: int)
    ensures 0 <= x < 0x1_0000_0000 ==> U32(0x1_0000_0000 * k + x) == x
  {
  }

  /**
    The load check lets a table without a NULL slot pass exactly while the
    reuses, modulo 2^32, are between three tenths and all of its slots.
  */
  lemma FullUnnoticed(s: seq<Slot>, size: u32, graveyard: u32, reuses: nat)
    requires Counted(s, size, graveyard, reuses) && |s| < 0x1_0000_0000 && !HasNull(s)
    ensures 10 * U32(size + graveyard) <= 7 * |s| <==> 3 * |s| <= 10 * U32(reuses) <= 10 * |s|
  {
    LoadSum(s, size, graveyard, reuses);
    CountFull(s);
    CountBound(s);
    hide NonNulls, Tombs, U32;
  }

  /** Once there were more reuses than there are slots in use, the sum wraps and every set asks for a rehash. */
  lemma WrapFires(s: seq<Slot>, size: u32, graveyard: u32, reuses: nat)
    requires Counted(s, size, graveyard, reuses) && |s| < 0x1_0000_0000
    requires NonNulls(s) < U32(reuses) <= NonNulls(s) + 0x2000_0000
    ensures 10 * U32(size + graveyard) > 7 * |s|
  {
    LoadSum(s, size, graveyard, reuses);
    hide NonNulls, Tombs, U32, Counted;
  }

  lemma EmptyTable(s: seq<Slot>, hash: u32 -> nat)
    requires forall i :: 0 <= i < |s| ==> s[i].Null?
    ensures TableOk(s, hash) && Contents(s) == map[] && NonNulls(s) == 0 == Tombs(s)
  {
    if s != [] { EmptyTable(s[1..], hash); }
  }

  class Table {
    var entries: array<Slot>
    var capacity: u32
    var size: u32
    var graveyardSize: u32
    const hash: u32 -> nat

    ghost var reuses: nat

    ghost predicate Valid()
      reads this, entries
    {
      && capacity == entries.Length && capacity >= INITIAL_SIZE && Doubled(capacity)
      && TableOk(entries[..], hash)
      && Counted(entries[..], size, graveyardSize, reuses)
    }

    /** The map the table stands for. */
    ghost function Map(): map<u32, int>
      reads this, entries
    {
      Contents(entries[..])
    }

    /** Some slot is NULL, so every probe ends. */
    ghost predicate Open()
      reads this, entries
    {
      HasNull(entries[..])
    }

    constructor (hash: u32 -> nat)
      ensures Valid() && Open() && Map() == map[] && fresh(entries)
      ensures forall i :: 0 <= i < capacity ==> entries[i].Null?
      ensures capacity == INITIAL_SIZE && size == graveyardSize == 0 && reuses == 0 && this.hash == hash
    {
      entries := new Slot[INITIAL_SIZE](_ => Null);
      capacity := INITIAL_SIZE;
      size, graveyardSize, reuses := 0, 0, 0;
      this.hash := hash;
      new;
      EmptyTable(entries[..], hash);
      assert entries[..][0].Null?;
    }

    /** The probe of uhashtable_set_entry and uhashtable_rehash_entry. */
    method FindStop(key: u32) returns (i: int, ghost d: int)
      requires capacity == entries.Length && capacity > 0 && CanStop(entries[..], key)
      ensures StopsAt(entries[..], Home(hash(key), capacity), key, d)
      ensures 0 <= i < capacity && i == At(Home(hash(key), capacity), d, capacity)
    {
      hide Home, HasNull, At;
      ghost var s, home := entries[..], Home(hash(key), capacity);
      ghost var z := StopAhead(s, home, key);
      HomeStart(home, capacity);
      i, d := Home(hash(key), capacity), 0;
      while entries[i].Entry? && entries[i].used
        invariant 0 <= d <= z < capacity && 0 <= i < capacity && i == At(home, d, capacity)
        invariant forall e :: 0 <= e < d ==> 0 <= At(home, e, capacity) < capacity
        invariant forall e :: 0 <= e < d ==> Live(s[At(home, e, capacity)]) && s[At(home, e, capacity)].key != key
        decreases capacity - d
      {
        if entries[i].key == key {
          return;
        }
        NextIndex(home, d, capacity);
        NextIndex(home, d + 1, capacity);
        i := (i + 1) % capacity;
        d := d + 1;
      }
    }

    /** uhashtable_rehash_entry */
    method RehashEntry(e: Slot) returns (ghost d: int)
      requires Live(e) && capacity == entries.Length && capacity > 0 && CanStop(entries[..], e.key)
      modifies entries
      ensures StopsAt(old(entries[..]), Home(hash(e.key), capacity), e.key, d)
      ensures var p := At(Home(hash(e.key), capacity), d, capacity);
              0 <= p < capacity && entries[..] == old(entries[..])[p := e]
    {
      hide Home, HasNull, At, StopsAt;
      ghost var s := entries[..];
      var i;
      i, d := FindStop(e.key);
      if entries[i].Entry? && entries[i].used {
        StopKey(s, Home(hash(e.key), capacity), e.key, d);
        entries[i] := entries[i].(data := e.data);
      } else {
        entries[i] := e;
      }
      assert entries[..] == s[i := e];
    }

    /** uhashtable_rehash */
    method Rehash(growth: nat, mallocOk: bool) returns (err: Error)
      requires Valid() && (growth == 1 || growth == 2)
      modifies if growth == 1 then {} else {this}
      ensures err == OutOfBound <==> U32(old(capacity) * growth) <= old(capacity)
      ensures growth == 1 ==> err == OutOfBound
      ensures err == MallocFailed <==>
              U32(old(capacity) * growth) > old(capacity) && (!mallocOk || TooWide(U32(old(capacity) * growth)))
      ensures err != NoErr ==> unchanged(this)
      ensures err == NoErr ==>
                && Valid() && Open() && fresh(entries) && capacity == 2 * old(capacity)
                && Map() == old(Map()) && size == old(size) && graveyardSize == 0 && reuses == old(reuses)
                && 2 * NonNulls(entries[..]) <= capacity && Tombs(entries[..]) == 0
      ensures err == NoErr || err == OutOfBound || err == MallocFailed
    {
      hide TableOk, Contents, Home, At, HasNull, Counted, NonNulls, Tombs, StopsAt, Direct, Rehashed, CanStop;
      GrowthCases(capacity, growth);
      var newCapacity := U32(capacity * growth);
      if newCapacity <= capacity {
        return OutOfBound;
      }
      WideEntries(capacity);
      if U32(newCapacity * POINTER_SIZE) == 0 || !mallocOk {
        return MallocFailed;
      }
      ghost var s := entries[..];
      TableUnique(s, hash);
      var oldEntries, oldCapacity := entries, capacity;
      var newEntries := new Slot[newCapacity](_ => Null);
      capacity := newCapacity;
      entries := newEntries;
      EmptyTable(entries[..], hash);
      RehashedNone(entries[..], hash, s);
      for i := 0 to oldCapacity
        invariant entries == newEntries && capacity == newCapacity && oldEntries[..] == s
        invariant size == old(size) && graveyardSize == old(graveyardSize) && reuses == old(reuses)
        invariant Rehashed(entries[..], hash, s, i)
      {
        RehashedOpen(entries[..], hash, s, i);
        ghost var t := entries[..];
        if oldEntries[i].Entry? {
          if oldEntries[i].used {
            NullStops(t, s[i].key);
            ghost var d := RehashEntry(oldEntries[i]);
            RehashedNext(t, hash, s, i, d, entries[..]);
          }
        }
        if !Live(s[i]) { RehashedSkip(t, hash, s, i); }
      }
      RehashedAll(entries[..], hash, s, size, graveyardSize, reuses);
      graveyardSize := 0;
      err := NoErr;
    }

    /** uhashtable_get */
    method Get(key: u32) returns (err: Error, data: int)
      requires Valid() && CanFind(entries[..], key)
      ensures err == NoErr <==> key in Map()
      ensures err == NoErr ==> data == Map()[key]
      ensures err == NoErr || err == NoSuchId
    {
      hide TableOk, Contents, Home, HasNull, At, Counted, Doubled;
      data := 0;
      ghost var s, home, d := entries[..], Home(hash(key), capacity), 0;
      ghost var z := FindAhead(s, home, key);
      HomeStart(home, capacity);
      var i := Home(hash(key), capacity);
      while entries[i].Entry?
        invariant 0 <= d <= z < capacity && 0 <= i < capacity && i == At(home, d, capacity)
        invariant forall e :: 0 <= e < d ==> 0 <= At(home, e, capacity) < capacity
        invariant forall e :: 0 <= e < d ==> !(Live(s[At(home, e, capacity)]) && s[At(home, e, capacity)].key == key)
        decreases capacity - d
      {
        if entries[i].key == key && entries[i].used {
          TableUnique(s, hash);
          ContentsAt(s, i);
          return NoErr, entries[i].data;
        }
        NextIndex(home, d, capacity);
        NextIndex(home, d + 1, capacity);
        i := (i + 1) % capacity;
        d := d + 1;
      }
      ProbeMiss(s, hash, key, d);
      err := NoSuchId;
    }

    /** uhashtable_remove: past the graveyard threshold it asks for a rehash that always refuses. */
    method Remove(key: u32, mallocOk: bool) returns (err: Error, data: int)
      requires Valid() && (CanFind(entries[..], key) || 10 * graveyardSize > 3 * capacity)
      modifies this`size, this`graveyardSize, entries
      ensures Valid() && Open() == old(Open()) && reuses == old(reuses) && capacity == old(capacity)
      ensures err == OutOfBound <==> 10 * old(graveyardSize) > 3 * capacity
      ensures err == NoErr ==> key in old(Map()) && data == old(Map())[key] && Map() == old(Map()) - {key}
      ensures err == NoErr ==> size == U32(old(size) - 1) && graveyardSize == old(graveyardSize) + 1
      ensures err == NoSuchId ==> key !in Map()
      ensures err != NoErr ==>
                entries[..] == old(entries[..]) && size == old(size) && graveyardSize == old(graveyardSize)
      ensures err != MallocFailed
      ensures err == NoErr ==> forall i :: 0 <= i < capacity ==> Buried(old(entries[..])[i], key, entries[i])
    {
      hide TableOk, Contents, Home, HasNull, At, Counted, Doubled, CanFind, Buried;
      data := 0;
      ghost var s, home, d := entries[..], Home(hash(key), capacity), 0;
      HomeStart(home, capacity);
      var i := Home(hash(key), capacity);
      if 3 * capacity < 10 * graveyardSize {
        err := Rehash(1, mallocOk);
        if err != NoErr {
          return;
        }
      }
      ghost var z := FindAhead(s, home, key);
      while entries[i].Entry?
        invariant 0 <= d <= z < capacity && 0 <= i < capacity && i == At(home, d, capacity)
        invariant forall e :: 0 <= e < d ==> 0 <= At(home, e, capacity) < capacity
        invariant forall e :: 0 <= e < d ==> !(Live(s[At(home, e, capacity)]) && s[At(home, e, capacity)].key == key)
        invariant entries[..] == s && size == old(size) && graveyardSize == old(graveyardSize)
        decreases capacity - d
      {
        if entries[i].key == key && entries[i].used {
          data := entries[i].data;
          Bury(s, hash, i, size, graveyardSize, reuses);
          entries[i] := entries[i].(used := false);
          assert entries[..] == s[i := s[i].(used := false)];
          graveyardSize := graveyardSize + 1;
          size := U32(size - 1);
          return NoErr, data;
        }
        NextIndex(home, d, capacity);
        NextIndex(home, d + 1, capacity);
        i := (i + 1) % capacity;
        d := d + 1;
      }
      ProbeMiss(s, hash, key, d);
      err := NoSuchId;
    }

    /** uhashtable_set_entry */
    method SetEntry(key: u32, data: int, mallocOk: bool) returns (err: Error, ghost d: int)
      requires Valid() && CanStop(entries[..], key)
      modifies this`size, this`graveyardSize, this`reuses, entries
      ensures StopsAt(old(entries[..]), Home(hash(key), capacity), key, d)
      ensures err == NoErr ==>
                && Placed(old(entries[..]), hash, key, data, d, entries[..])
                && Tallied(old(entries[..]), hash, key, d, old(size), old(graveyardSize), old(reuses), size,
                   graveyardSize, reuses)
      ensures err == MallocFailed <==> StopSlot(old(entries[..]), hash, key, d).Null? && !mallocOk
      ensures err == MallocFailed ==>
                entries[..] == old(entries[..]) && size == old(size) && graveyardSize == old(graveyardSize)
                  && reuses == old(reuses)
      ensures Counted(entries[..], size, graveyardSize, reuses)
      ensures err == NoErr || err == MallocFailed
    {
      hide TableOk, Contents, Home, HasNull, At, StopsAt, Counted, Doubled;
      ghost var s := entries[..];
      var i;
      i, d := FindStop(key);
      if entries[i].Entry? && entries[i].used {
        StopKey(s, Home(hash(key), capacity), key, d);
        CountedSame(s, i, Entry(key, data, true), size, graveyardSize, reuses);
        entries[i] := entries[i].(data := data);
        assert entries[..] == s[i := Entry(key, data, true)];
        return NoErr, d;
      }
      CountedFill(s, i, Entry(key, data, true), size, graveyardSize, reuses);
      if entries[i].Null? {
        if !mallocOk {
          return MallocFailed, d;
        }
        size := U32(size + 1);
      } else {
        graveyardSize := graveyardSize - 1;
        reuses := reuses + 1;
      }
      entries[i] := Entry(key, data, true);
      assert entries[..] == s[i := Entry(key, data, true)];
      err := NoErr;
    }

    /**
      uhashtable_set.  An absent key is inserted, a present one updated unless a
      tombstone comes before it; then it ends up in the table twice.
    */
    method Set(key: u32, data: int, mallocOk: bool) returns (err: Error, ghost grown: bool, ghost d: int)
      requires Valid()
      requires CanStop(entries[..], key) || 7 * capacity < 10 * U32(size + graveyardSize)
      modifies this, entries
      ensures if grown then fresh(entries) else entries == old(entries)
      ensures err == NoErr && !grown ==>
                && Placed(old(entries[..]), hash, key, data, d, entries[..])
                && Tallied(old(entries[..]), hash, key, d, old(size), old(graveyardSize), old(reuses), size,
                   graveyardSize, reuses)
      ensures grown ==> 10 * U32(old(size) + old(graveyardSize)) > 7 * old(capacity)
      ensures err == NoErr ==> grown == (10 * U32(old(size) + old(graveyardSize)) > 7 * old(capacity))
      ensures mallocOk && !TooWide(2 * old(capacity)) ==> err == NoErr
      ensures mallocOk && err != NoErr ==> !grown
      ensures mallocOk && TooWide(2 * old(capacity)) && 10 * U32(old(size) + old(graveyardSize)) > 7 * old(capacity) ==>
                err == if 2 * old(capacity) < 0x1_0000_0000 then MallocFailed else OutOfBound
      ensures 2 * old(capacity) < 0x1_0000_0000 ==> err != OutOfBound
      ensures err == NoErr && grown ==>
                && graveyardSize == 0 && reuses == old(reuses)
                && size == if key in old(Map()) then old(size) else U32(old(size) + 1)
      ensures err == NoErr && (grown || Direct(old(entries[..]), hash, key)) ==>
                Valid() && Map() == old(Map())[key := data]
      ensures err == NoErr && !grown && key in old(Map()) && !Direct(old(entries[..]), hash, key) ==>
              !Unique(entries[..])
      ensures err != NoErr ==> Valid() && (old(Open()) ==> Open()) && Map() == old(Map())
      ensures err != NoErr && !grown ==> unchanged(this) && entries[..] == old(entries[..])
      ensures err == NoErr && (grown || 10 * (old(reuses) + 1) < 3 * old(capacity)) ==> Open()
      ensures old(reuses) <= reuses <= old(reuses) + 1
      ensures capacity == if grown then 2 * old(capacity) else old(capacity)
    {
      hide TableOk, Contents, Home, HasNull, StopSlot, Placed, StopsAt, Counted, Doubled, Direct, NonNulls, Unique;
      grown, d := false, 0;
      ghost var s0 := entries[..];
      if 7 * capacity < 10 * U32(size + graveyardSize) {
        err := Rehash(2, mallocOk);
        if err != NoErr {
          return;
        }
        grown := true;
        NoTombs(entries[..], hash, key);
        NullStops(entries[..], key);
      } else if 10 * (reuses + 1) < 3 * capacity {
        LoadCheck(entries[..], size, graveyardSize, reuses);
      }
      ghost var s := entries[..];
      err, d := SetEntry(key, data, mallocOk);
      if err == NoErr {
        PlacedCases(s, hash, key, data, d, entries[..]);
        if grown { NoTombStop(s, hash, key, data, d, entries[..]); }
      }
    }
  }

  /** What removing a key does to a slot. */
  predicate Buried(before: Slot, key: u32, after: Slot) {
    after == if Live(before) && before.key == key then before.(used := false) else before
  }

  /** Everything a removal does to the table. */
  lemma Bury(s: seq<Slot>, hash: u32 -> nat, p: int, size: u32, graveyard: u32, reuses: nat)
    requires TableOk(s, hash) && Counted(s, size, graveyard, reuses) && 0 <= p < |s| < 0x1_0000_0000 && Live(s[p])
    ensures var key, s' := s[p].key, s[p := s[p].(used := false)];
            && TableOk(s', hash) && key in Contents(s) && Contents(s)[key] == s[p].data
            && Contents(s') == Contents(s) - {key} && HasNull(s') == HasNull(s)
            && forall i :: 0 <= i < |s| ==> Buried(s[i], key, s'[i])
    ensures graveyard + 1 < 0x1_0000_0000
    ensures Counted(s[p := s[p].(used := false)], U32(size - 1), graveyard + 1, reuses)
  {
    RemoveOk(s, hash, p);
    TableUnique(s, hash);
    ContentsAt(s, p);
    CountedBury(s, p, size, graveyard, reuses);
    var s' := s[p := s[p].(used := false)];
    CountUpdate(s, p, s'[p]);
    CountFull(s);
    CountFull(s');
    hide TableOk, Contents, Counted, HasNull, NonNulls, Tombs;
  }

  lemma HomeStart(home: int, capacity: int)
    requires 0 <= home < capacity
    ensures At(home, 0, capacity) == home
  {
  }

  lemma TableUnique(s: seq<Slot>, hash: u32 -> nat)
    requires TableOk(s, hash)
    ensures Unique(s)
  {
  }

  /** What a successful write means for the map and for the NULL slots. */
  lemma PlacedCases(s: seq<Slot>, hash: u32 -> nat, key: u32, data: int, d: int, s': seq<Slot>)
    requires TableOk(s, hash) && Placed(s, hash, key, data, d, s')
    ensures |s'| == |s| > 0
    ensures key !in Contents(s) || Direct(s, hash, key) ==>
              TableOk(s', hash) && Contents(s') == Contents(s)[key := data]
    ensures key in Contents(s) && !Direct(s, hash, key) ==> !Unique(s')
    ensures NonNulls(s) + 1 < |s| ==> HasNull(s')
  {
    hide TableOk, Contents, Home, Direct, StopsAt, NonNulls, Unique, Tombs;
    if key in Contents(s) { SetPresent(s, hash, key, data, d); } else { SetAbsent(s, hash, key, data, d); }
    CountUpdate(s, At(Home(hash(key), |s|), d, |s|), Entry(key, data, true));
    CountFull(s');
  }

  /** Without tombstones a set stops at a NULL slot or at the key's own entry. */
  lemma NoTombStop(s: seq<Slot>, hash: u32 -> nat, key: u32, data: int, d: int, s': seq<Slot>)
    requires TableOk(s, hash) && Tombs(s) == 0 && Placed(s, hash, key, data, d, s')
    ensures var e := StopSlot(s, hash, key, d); !Tomb(e) && (e.Null? <==> key !in Contents(s))
  {
    hide Unique, Contents, Home, Tombs, Direct, TableOk, StopsAt;
    NoTombs(s, hash, key);
    if key in Contents(s) {
      SetPresent(s, hash, key, data, d);
    } else {
      NewSlot(s, hash, key, d);
    }
  }

  lemma AbsentDirect(s: seq<Slot>, hash: u32 -> nat, key: u32)
    requires |s| > 0 && key !in Contents(s)
    ensures Direct(s, hash, key)
  {
    hide Home;
    ContentsKeys(s, key);
  }

  lemma StopKey(s: seq<Slot>, home: int, key: u32, d: int)
    requires StopsAt(s, home, key, d) && Live(s[At(home, d, |s|)])
    ensures s[At(home, d, |s|)].key == key
  {
  }

  lemma CountedSame(s: seq<Slot>, p: int, e: Slot, size: u32, graveyard: u32, reuses: nat)
    requires Counted(s, size, graveyard, reuses) && 0 <= p < |s| && Live(s[p]) && Live(e)
    ensures Counted(s[p := e], size, graveyard, reuses)
  {
    CountUpdate(s, p, e);
    hide NonNulls, Tombs;
  }

  lemma NoTombs(s: seq<Slot>, hash: u32 -> nat, key: u32)
    requires |s| > 0 && Tombs(s) == 0
    ensures Direct(s, hash, key)
  {
    forall i | 0 <= i < |s|
      ensures !Tomb(s[i])
    {
      NoTombAt(s, i);
    }
    hide Home, Tombs;
  }

  // ----- rehashing

  /** The byte size of an array of that many pointers does not fit a size_t. */
  predicate TooWide(capacity: int) {
    capacity * POINTER_SIZE >= 0x1_0000_0000
  }

  lemma {:induction false} DoubledTimes(capacity: int) returns (n: nat)
    requires Doubled(capacity)
    ensures capacity == INITIAL_SIZE * Pow2(n)
    decreases capacity
  {
    if capacity == INITIAL_SIZE {
      n := 0;
    } else {
      n := DoubledTimes(capacity / 2);
      n := n + 1;
    }
  }

  /** Capacities being powers of 2, a byte size that wraps is 0, for which the allocator returns NULL. */
  lemma WideEntries(capacity: u32)
    requires Doubled(capacity) && 2 * capacity < 0x1_0000_0000
    ensures U32(2 * capacity * POINTER_SIZE) == 0 <==> TooWide(2 * capacity)
  {
    var n := DoubledTimes(capacity);
    WidePowers();
    if n > 26 { Pow2Below(27, n); } else if n < 25 { Pow2Below(n, 24); }
  }

  lemma WidePowers()
    ensures Pow2(24) == 0x100_0000 && Pow2(25) == 0x200_0000 && Pow2(26) == 0x400_0000 && Pow2(27) == 0x800_0000
  {
    assert Pow2(8) == 0x100;
    assert Pow2(16) == 0x1_0000;
  }

  lemma GrowthCases(capacity: u32, growth: nat)
    requires growth == 1 || growth == 2
    ensures growth == 1 ==> U32(capacity * growth) == capacity
    ensures growth == 2 && U32(capacity * growth) > capacity ==> U32(capacity * growth) == 2 * capacity
  {
  }

  /** t holds exactly the live entries among the first i slots of s, and no tombstone. */
  ghost predicate Rehashed(t: seq<Slot>, hash: u32 -> nat, s: seq<Slot>, i: int) {
    && 0 <= i <= |s| < |t| && TableOk(t, hash) && Contents(t) == Contents(s[..i])
    && Tombs(t) == 0 && NonNulls(t) == NonNulls(s[..i]) - Tombs(s[..i]) <= i
  }

  lemma RehashedNone(t: seq<Slot>, hash: u32 -> nat, s: seq<Slot>)
    requires |s| < |t| && TableOk(t, hash) && Contents(t) == map[] && Tombs(t) == 0 == NonNulls(t)
    ensures Rehashed(t, hash, s, 0)
  {
    TakenNone(s);
  }

  lemma RehashedOpen(t: seq<Slot>, hash: u32 -> nat, s: seq<Slot>, i: int)
    requires Rehashed(t, hash, s, i)
    ensures HasNull(t) && 2 * NonNulls(t) <= 2 * |s|
  {
    CountFull(t);
  }

  lemma RehashedNext(t: seq<Slot>, hash: u32 -> nat, s: seq<Slot>, i: int, d: int, t': seq<Slot>)
    requires Unique(s) && 0 <= i < |s| && Rehashed(t, hash, s, i) && Live(s[i])
    requires StopsAt(t, Home(hash(s[i].key), |t|), s[i].key, d)
    requires var p := At(Home(hash(s[i].key), |t|), d, |t|); 0 <= p < |t| && t' == t[p := s[i]]
    ensures Rehashed(t', hash, s, i + 1)
  {
    hide Home, At, Contents, TableOk, StopsAt, Unique, NonNulls, Tombs, Direct;
    TakenNext(s, i);
    SetAbsent(t, hash, s[i].key, s[i].data, d);
    var p := At(Home(hash(s[i].key), |t|), d, |t|);
    CountUpdate(t, p, s[i]);
    NoTombAt(t, p);
  }

  lemma RehashedSkip(t: seq<Slot>, hash: u32 -> nat, s: seq<Slot>, i: int)
    requires Unique(s) && 0 <= i < |s| && Rehashed(t, hash, s, i) && !Live(s[i])
    ensures Rehashed(t, hash, s, i + 1)
  {
    hide Contents, TableOk, Unique, NonNulls, Tombs;
    TakenNext(s, i);
  }

  lemma RehashedAll(t: seq<Slot>, hash: u32 -> nat, s: seq<Slot>, size: u32, graveyard: u32, reuses: nat)
    requires Rehashed(t, hash, s, |s|) && Counted(s, size, graveyard, reuses) && |s| < 0x1_0000_0000
    ensures TableOk(t, hash) && Contents(t) == Contents(s) && Counted(t, size, 0, reuses)
    ensures HasNull(t) && 2 * NonNulls(t) <= 2 * |s| && Tombs(t) == 0
  {
    hide Contents, TableOk, Unique, NonNulls, Tombs;
    assert s[..|s|] == s;
    RehashedOpen(t, hash, s, |s|);
    CountedRehash(s, t, size, graveyard, reuses);
  }

  lemma NoTombAt(s: seq<Slot>, i: int)
    requires 0 <= i < |s| && Tombs(s) == 0
    ensures !Tomb(s[i])
  {
    CountUpdate(s, i, Null);
  }

  lemma TakenNone(s: seq<Slot>)
    ensures s[..0] == [] && Contents(s[..0]) == map[] && NonNulls(s[..0]) == 0 == Tombs(s[..0])
  {
  }

  lemma TakenNext(s: seq<Slot>, i: int)
    requires Unique(s) && 0 <= i < |s|
    ensures Live(s[i]) ==>
              s[i].key !in Contents(s[..i]) && Contents(s[..i + 1]) == Contents(s[..i])[s[i].key := s[i].data]
    ensures !Live(s[i]) ==> Contents(s[..i + 1]) == Contents(s[..i])
    ensures NonNulls(s[..i + 1]) == NonNulls(s[..i]) + (if s[i].Null? then 0 else 1)
    ensures Tombs(s[..i + 1]) == Tombs(s[..i]) + (if Tomb(s[i]) then 1 else 0)
  {
    assert s[..i + 1] == s[..i] + [s[i]];
    CountAppend(s[..i], s[i]);
    TakenContents(s, i);
  }

  lemma TakenContents(s: seq<Slot>, i: int)
    requires Unique(s) && 0 <= i < |s|
    ensures Live(s[i]) ==>
              s[i].key !in Contents(s[..i]) && Contents(s[..i + 1]) == Contents(s[..i])[s[i].key := s[i].data]
    ensures !Live(s[i]) ==> Contents(s[..i + 1]) == Contents(s[..i])
  {
    var t, t' := s[..i], s[..i + 1];
    TakenBefore(s, i);
    TakenAfter(s, i);
    assert Unique(t');
    if Live(s[i]) { ContentsAt(t', i); }
    hide Contents, Unique;
    if Live(s[i]) {
      assert Contents(t') == Contents(t)[s[i].key := s[i].data];
    } else {
      assert Contents(t') == Contents(t);
    }
  }

  lemma TakenBefore(s: seq<Slot>, i: int)
    requires Unique(s) && 0 <= i < |s|
    ensures forall k :: k in Contents(s[..i]) ==>
              k in Contents(s[..i + 1]) && Contents(s[..i + 1])[k] == Contents(s[..i])[k]
                && (Live(s[i]) ==> k != s[i].key)
  {
    var t, t' := s[..i], s[..i + 1];
    assert Unique(t) && Unique(t');
    hide Contents;
    forall k | k in Contents(t)
      ensures k in Contents(t') && Contents(t')[k] == Contents(t)[k] && (Live(s[i]) ==> k != s[i].key)
    {
      ContentsKeys(t, k);
      var j :| 0 <= j < |t| && Live(t[j]) && t[j].key == k;
      ContentsAt(t, j);
      ContentsAt(t', j);
    }
  }

  lemma TakenAfter(s: seq<Slot>, i: int)
    requires 0 <= i < |s|
    ensures forall k :: k in Contents(s[..i + 1]) ==> k in Contents(s[..i]) || (Live(s[i]) && k == s[i].key)
  {
    hide Contents;
    var t, t' := s[..i], s[..i + 1];
    forall k | k in Contents(t')
      ensures k in Contents(t) || (Live(s[i]) && k == s[i].key)
    {
      ContentsKeys(t', k);
      ContentsKeys(t, k);
      var j :| 0 <= j < |t'| && Live(t'[j]) && t'[j].key == k;
      if j < i { assert t[j] == t'[j]; }
    }
  }

  lemma {:induction false} CountAppend(s: seq<Slot>, e: Slot)
    ensures NonNulls(s + [e]) == NonNulls(s) + (if e.Null? then 0 else 1)
    ensures Tombs(s + [e]) == Tombs(s) + (if Tomb(e) then 1 else 0)
  {
    if s == [] {
      assert s + [e] == [e] && [e][1..] == [];
    } else {
      assert (s + [e])[1..] == s[1..] + [e];
      CountAppend(s[1..], e);
    }
  }

  lemma CountedRehash(s: seq<Slot>, s': seq<Slot>, size: u32, graveyard: u32, reuses: nat)
    requires Counted(s, size, graveyard, reuses) && Tombs(s') == 0 && NonNulls(s') == NonNulls(s) - Tombs(s)
    requires |s| < 0x1_0000_0000
    ensures Counted(s', size, 0, reuses)
  {
    CountBound(s);
    hide NonNulls, Tombs;
  }

  // ----- runs that show where the promises end

  /** In a table without tombstones, a probe for an absent key stops at a NULL slot. */
  lemma NewSlot(s: seq<Slot>, hash: u32 -> nat, key: u32, d: int)
    requires |s| > 0 && StopsAt(s, Home(hash(key), |s|), key, d) && Tombs(s) == 0 && key !in Contents(s)
    ensures StopSlot(s, hash, key, d).Null?
  {
    var home := Home(hash(key), |s|);
    StopFilled(s, home, key, d);
    NextIndex(home, d, |s|);
    NoTombAt(s, At(home, d, |s|));
    ContentsKeys(s, key);
    hide Contents, Home, Tombs;
  }

  /** After its removal from a table without tombstones, a key finds its own tombstone first. */
  lemma OwnTomb(s: seq<Slot>, hash: u32 -> nat, key: u32, s': seq<Slot>, d: int)
    requires TableOk(s, hash) && Tombs(s) == 0 && key in Contents(s) && |s'| == |s| > 0
    requires forall i :: 0 <= i < |s| ==> Buried(s[i], key, s'[i])
    requires StopsAt(s', Home(hash(key), |s|), key, d)
    ensures Tomb(StopSlot(s', hash, key, d))
  {
    var home := Home(hash(key), |s|);
    ContentsKeys(s, key);
    var i :| 0 <= i < |s| && Live(s[i]) && s[i].key == key;
    StepsAt(home, i, |s|);
    var t := Steps(home, i, |s|);
    assert Reached(s, hash, i);
    hide Contents, Home, Tombs;
    forall k | 0 <= k < t
      ensures 0 <= At(home, k, |s|) < |s|
      ensures var e := s'[At(home, k, |s|)]; Live(e) && e.key != key
    {
      NextIndex(home, k, |s|);
      NoTombAt(s, At(home, k, |s|));
      assert s[At(home, k, |s|)].Entry?;
      assert Buried(s[At(home, k, |s|)], key, s'[At(home, k, |s|)]);
    }
    assert Buried(s[i], key, s'[i]);
    StopFilled(s', home, key, d);
    assert d <= t;
    assert t <= d;
  }

  /** A table of the initial capacity that has no tombstone. */
  ghost predicate Fresh(table: Table)
    reads table, table.entries
  {
    table.Valid() && table.capacity == INITIAL_SIZE && table.graveyardSize == 0
  }

  /** A new key goes to a NULL slot. */
  method AddNew(table: Table, key: u32)
    requires Fresh(table) && table.Open() && key !in table.Map() && table.size <= 11
    modifies table, table.entries
    ensures Fresh(table) && table.entries == old(table.entries) && table.Map() == old(table.Map())[key := 0]
    ensures table.size == old(table.size) + 1 && table.reuses == old(table.reuses)
  {
    hide Home, Doubled, StopsAt, StopSlot, Placed, TableOk, Contents, Direct, NonNulls, HasNull, CanStop;
    ghost var s := table.entries[..];
    NullStops(s, key);
    AbsentDirect(s, table.hash, key);
    var err;
    ghost var grown, d;
    err, grown, d := table.Set(key, 0, true);
    PlacedStops(s, table.hash, key, 0, d, table.entries[..]);
    NewSlot(s, table.hash, key, d);
  }

  lemma PlacedStops(s: seq<Slot>, hash: u32 -> nat, key: u32, data: int, d: int, s': seq<Slot>)
    requires Placed(s, hash, key, data, d, s')
    ensures |s| > 0 && StopsAt(s, Home(hash(key), |s|), key, d)
  {
  }

  /** A key is removed and set again: it reuses its tombstone, and size has lost one for good. */
  method Recycle(table: Table, key: u32)
    requires Fresh(table) && key in table.Map() && table.size <= 11
    modifies table, table.entries
    ensures Fresh(table) && table.entries == old(table.entries) && table.Map() == old(table.Map())[key := 0]
    ensures table.size == U32(old(table.size) - 1) && table.reuses == old(table.reuses) + 1
  {
    hide Home, Doubled, StopsAt, StopSlot, Placed, TableOk, Contents, Direct, NonNulls, HasNull, CanStop, Buried;
    ghost var s := table.entries[..];
    var err, data := table.Remove(key, true);
    ghost var s1 := table.entries[..];
    BuriedStops(s, key, s1);
    AbsentDirect(s1, table.hash, key);
    ghost var grown, d;
    err, grown, d := table.Set(key, 0, true);
    PlacedStops(s1, table.hash, key, 0, d, table.entries[..]);
    OwnTomb(s, table.hash, key, s1, d);
    assert old(table.Map())[key := 0] == (old(table.Map()) - {key})[key := 0];
  }

  lemma BuriedStops(s: seq<Slot>, key: u32, s': seq<Slot>)
    requires key in Contents(s) && |s'| == |s| && forall i :: 0 <= i < |s| ==> Buried(s[i], key, s'[i])
    ensures CanStop(s', key)
  {
    ContentsKeys(s, key);
    var i :| 0 <= i < |s| && Live(s[i]) && s[i].key == key;
    assert Buried(s[i], key, s'[i]);
    assert !Live(s'[i]);
  }

  lemma CountOpen(table: Table)
    requires Fresh(table)
    ensures table.Open() <==> U32(table.size + table.reuses) < INITIAL_SIZE
  {
    CountFull(table.entries[..]);
    hide NonNulls, Tombs, TableOk, Doubled;
  }

  /** Adding the keys from one number up to another. */
  method AddNumbers(table: Table, from: u32, to: u32)
    requires Fresh(table) && from <= to <= 16 && forall key: u32 :: key in table.Map() <==> key < from
    requires table.size + table.reuses == from && table.size + (to - from) <= 12
    modifies table, table.entries
    ensures Fresh(table) && table.entries == old(table.entries)
    ensures forall key: u32 :: key in table.Map() <==> key < to
    ensures table.size == old(table.size) + (to - from) && table.reuses == old(table.reuses)
  {
    hide Fresh, HasNull, Contents;
    for k := from to to
      invariant Fresh(table) && table.entries == old(table.entries) && table.reuses == old(table.reuses)
      invariant table.size == old(table.size) + (k - from) && forall key: u32 :: key in table.Map() <==> key < k
    {
      CountOpen(table);
      AddNew(table, k);
    }
  }

  /**
    For any hash function: eleven keys, one of them removed and set again five
    times, then five more keys.  Every slot is in use, no rehash ever came, and
    a probe for any other key does not end.
  */
  method FillUp(hash: u32 -> nat) returns (table: Table)
    ensures fresh(table) && Fresh(table) && table.reuses == 5 && !table.Open()
    ensures forall key: u32 :: key in table.Map() <==> key < 16
  {
    hide Fresh, HasNull, Contents, TableOk, Counted;
    table := new Table(hash);
    FreshStart(table);
    AddNumbers(table, 0, 11);
    for k := 0 to 5
      invariant fresh(table) && fresh(table.entries) && Fresh(table) && table.reuses == k
      invariant table.size == 11 - k && forall key: u32 :: key in table.Map() <==> key < 11
    {
      Recycle(table, 0);
    }
    AddNumbers(table, 11, 16);
    CountOpen(table);
  }

  lemma FreshStart(table: Table)
    requires table.Valid() && table.capacity == INITIAL_SIZE && table.graveyardSize == 0
    ensures Fresh(table)
  {
  }

  lemma FreshEnd(table: Table)
    requires Fresh(table)
    ensures table.Valid() && table.capacity == INITIAL_SIZE && table.graveyardSize == 0
  {
  }

  lemma {:induction false} Pow2Below(n: nat, k: nat)
    requires n <= k
    ensures Pow2(n) <= Pow2(k)
    decreases k
  {
    if n < k { Pow2Below(n, k - 1); }
  }

  lemma CapacityStep(n: nat)
    requires n < 25
    ensures INITIAL_SIZE * Pow2(n) < 0x2000_0000 && Pow2(n + 1) == 2 * Pow2(n)
  {
    WidePowers();
    Pow2Below(n, 24);
  }

  /** A table in which one key was recycled once too often. */
  ghost predicate Overrun(table: Table)
    reads table, table.entries
  {
    && table.Valid() && table.Map() == map[7 := 0]
    && table.size == 0xFFFF_FFFF && table.graveyardSize == 0 && table.reuses == 2
  }

  method Overruns(hash: u32 -> nat) returns (table: Table)
    ensures fresh(table) && fresh(table.entries) && Overrun(table) && table.capacity == INITIAL_SIZE
  {
    hide Fresh, HasNull, Contents, TableOk, Counted;
    table := new Table(hash);
    FreshStart(table);
    CountOpen(table);
    AddNew(table, 7);
    Recycle(table, 7);
    Recycle(table, 7);
    assert map[][7 := 0][7 := 0][7 := 0] == map[7 := 0];
    FreshEnd(table);
  }

  /** Every set of the key then doubles the table, until the new size of its array wraps. */
  method DoubleOnce(table: Table) returns (err: Error)
    requires Overrun(table)
    modifies table, table.entries
    ensures Overrun(table)
    ensures old(table.capacity) < 0x2000_0000 ==>
              err == NoErr && table.capacity == 2 * old(table.capacity) && fresh(table.entries)
    ensures old(table.capacity) == 0x2000_0000 ==>
              err == MallocFailed && table.capacity == old(table.capacity) && table.entries == old(table.entries)
  {
    hide HasNull, Contents, Counted, TableOk, NonNulls, Direct, Placed, Tallied, Doubled, CanStop;
    ghost var grown, d;
    err, grown, d := table.Set(7, 0, true);
    assert map[7 := 0][7 := 0] == map[7 := 0];
  }

  /**
    For any hash function: a key is set, then removed and set again twice.  From
    then on every set of it doubles the table, up to 2^29 slots.  The next one
    asks for an array of 2^32 bytes, which is a size of 0, and fails although
    memory is left.
  */
  method Runaway(hash: u32 -> nat) returns (table: Table, err: Error)
    ensures fresh(table) && Overrun(table) && table.capacity == 0x2000_0000 && err == MallocFailed
  {
    hide Overrun;
    table := Overruns(hash);
    for n := 0 to 25
      invariant fresh(table) && fresh(table.entries) && Overrun(table) && table.capacity == INITIAL_SIZE * Pow2(n)
    {
      CapacityStep(n);
      err := DoubleOnce(table);
    }
    WidePowers();
    err := DoubleOnce(table);
  }

  // ----- a key stored twice

  lemma FirstStop(s: seq<Slot>, home: int, key: u32, d: int)
    requires StopsAt(s, home, key, d) && !Live(s[home])
    ensures d == 0
  {
    assert At(home, 0, |s|) == home;
  }

  lemma SecondStop(s: seq<Slot>, home: int, key: u32, d: int)
    requires StopsAt(s, home, key, d) && |s| > 1 && Live(s[home]) && s[home].key != key
    requires !Live(s[At(home, 1, |s|)])
    ensures d == 1
  {
    assert At(home, 0, |s|) == home;
  }

  /** A tombstone at the home of a key whose entry lies in the next slot. */
  lemma BehindTomb(s: seq<Slot>, hash: u32 -> nat, key: u32)
    requires |s| > 1 && Tomb(s[Home(hash(key), |s|)])
    requires var e := s[At(Home(hash(key), |s|), 1, |s|)]; Live(e) && e.key == key
    ensures key in Contents(s) && !Direct(s, hash, key)
  {
    var home := Home(hash(key), |s|);
    var i := At(home, 1, |s|);
    ContentsKeys(s, key);
    assert Steps(home, i, |s|) == 1 && At(home, 0, |s|) == home;
    hide Home, Contents;
    assert Live(s[i]) && Tomb(s[At(home, 0, |s|)]);
  }

  /** For any hash function and any two keys with the same home: set a, set b, remove a, set b; now b is there twice. */
  method Twice(hash: u32 -> nat, a: u32, b: u32) returns (table: Table)
    requires a != b && Home(hash(a), INITIAL_SIZE) == Home(hash(b), INITIAL_SIZE)
    ensures fresh(table) && !Unique(table.entries[..])
  {
    hide Home, Doubled, StopsAt, TableOk, Contents, Direct, NonNulls, HasNull, CanStop, CanFind, Unique, Counted;
    table := new Table(hash);
    ghost var home := Home(hash(a), INITIAL_SIZE);
    var err, data;
    ghost var grown, d;
    ghost var s0 := table.entries[..];
    NullStops(s0, a);
    AbsentDirect(s0, hash, a);
    err, grown, d := table.Set(a, 0, true);
    FirstStop(s0, home, a, d);
    ghost var s1 := table.entries[..];
    NullStops(s1, b);
    AbsentDirect(s1, hash, b);
    err, grown, d := table.Set(b, 0, true);
    SecondStop(s1, home, b, d);
    ghost var s2 := table.entries[..];
    NullStops(s2, a);
    err, data := table.Remove(a, true);
    ghost var s3 := table.entries[..];
    BehindTomb(s3, hash, b);
    BuriedStops(s2, a, s3);
    NullStops(s3, b);
    err, grown, d := table.Set(b, 1, true);
  }

  /** Seventeen keys share sixteen homes, so two such keys exist for every hash function. */
  lemma Clash(hash: u32 -> nat) returns (a: u32, b: u32)
    ensures a < b <= 16 && Home(hash(a), INITIAL_SIZE) == Home(hash(b), INITIAL_SIZE)
  {
    if NoClash(hash) {
      Homes(hash, 17);
      Numbers(16, 0);
      Inside(HomeSet(hash, 17), NumberSet(16));
      assert false;
    }
    a, b :| a < b <= 16 && Home(hash(a), INITIAL_SIZE) == Home(hash(b), INITIAL_SIZE);
  }

  ghost function HomeSet(hash: u32 -> nat, n: nat): set<int>
    requires n <= 17
  {
    if n == 0 then {} else HomeSet(hash, n - 1) + {Home(hash(n - 1), INITIAL_SIZE)}
  }

  ghost function NumberSet(n: nat): set<int> {
    if n == 0 then {} else NumberSet(n - 1) + {n - 1}
  }

  ghost predicate NoClash(hash: u32 -> nat) {
    forall i: u32, j: u32 :: i < j <= 16 ==> Home(hash(i), INITIAL_SIZE) != Home(hash(j), INITIAL_SIZE)
  }

  lemma {:induction false} NewHome(hash: u32 -> nat, n: nat, k: u32)
    requires n <= k <= 16 && NoClash(hash)
    ensures Home(hash(k), INITIAL_SIZE) !in HomeSet(hash, n)
  {
    hide Home;
    if n > 0 { NewHome(hash, n - 1, k); }
  }

  lemma {:induction false} Homes(hash: u32 -> nat, n: nat)
    requires n <= 17 && NoClash(hash)
    ensures |HomeSet(hash, n)| == n && HomeSet(hash, n) <= NumberSet(16)
  {
    hide Home, NoClash;
    if n > 0 {
      Homes(hash, n - 1);
      NewHome(hash, n - 1, n - 1);
      Numbers(16, Home(hash(n - 1), INITIAL_SIZE));
    }
  }

  lemma {:induction false} Numbers(n: nat, x: int)
    ensures |NumberSet(n)| == n && (x in NumberSet(n) <==> 0 <= x < n)
  {
    if n > 0 {
      Numbers(n - 1, x);
      Numbers(n - 1, n - 1);
    }
  }

  lemma Inside(a: set<int>, b: set<int>)
    requires a <= b
    ensures |a| <= |b|
  {
    assert b == a + (b - a);
  }

  // ----- removal past the graveyard threshold

  /** For any hash function: six keys, five of them removed; the sixth is there but can no longer be removed. */
  method Refusing(hash: u32 -> nat) returns (table: Table, err: Error)
    ensures fresh(table) && table.Valid() && 5 in table.Map() && err == OutOfBound
  {
    hide Fresh, HasNull, Contents, TableOk, Counted, CanFind, Doubled, Buried;
    table := new Table(hash);
    FreshStart(table);
    AddNumbers(table, 0, 6);
    FreshEnd(table);
    for k := 0 to 5
      invariant fresh(table) && fresh(table.entries) && table.Valid() && table.capacity == INITIAL_SIZE
      invariant table.graveyardSize == k && forall key: u32 :: key in table.Map() <==> k <= key < 6
    {
      assert k in table.Map();
      CanFindKey(table.entries[..], k);
      var data;
      err, data := table.Remove(k, true);
    }
    assert 5 in table.Map();
    var data;
    err, data := table.Remove(5, true);
  }

  lemma CanFindKey(s: seq<Slot>, key: u32)
    requires key in Contents(s)
    ensures CanFind(s, key)
  {
  }
}
