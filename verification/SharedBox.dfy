/**
 The bounded cache of precomputed box keys. Keys live in arrays that callers also hold, so
 an evicted key is erased in place, and no retained or just returned array may be touched.
 */
module SharedBox {
  import opened Basics
  import opened SharedBoxOrder

  const KEY_BYTES := 32
  const MAX_CAPACITY := 256

  datatype Entry = Entry(slot: Slot, key: array<Byte>)

  function SlotsOf(entries: seq<Entry>): (slots: seq<Slot>)
    ensures |slots| == |entries|
  {
    seq(|entries|, i requires 0 <= i < |entries| => entries[i].slot)
  }

  ghost function KeysOf(entries: seq<Entry>): set<array<Byte>> {
    set e | e in entries :: e.key
  }

  predicate Separate(entries: seq<Entry>) {
    forall i, j :: 0 <= i < j < |entries| ==> entries[i].key != entries[j].key
  }

  predicate IsErased(key: array<Byte>)
    reads key
  {
    forall i :: 0 <= i < key.Length ==> key[i] == 0
  }

  method Erase(key: array<Byte>)
    modifies key
    ensures IsErased(key)
  {
    for i := 0 to key.Length
      invariant forall j :: 0 <= j < i ==> key[j] == 0
    {
      key[i] := 0;
    }
  }

  class SharedBoxCache {
    const capacity: nat
    const ttl: int
    const derive: (seq<Byte>, seq<Byte>) -> seq<Byte>
    var entries: seq<Entry>

    /** Entry `e` holds the key derived from its identity. */
    ghost predicate Holds(e: Entry)
      reads e.key
    {
      e.key[..] == derive(e.slot.id.pub, e.slot.id.secret)
    }

    ghost predicate Valid()
      reads this, KeysOf(entries)
    {
      && 0 < capacity <= MAX_CAPACITY && ttl > 0
      && |entries| <= capacity
      && Distinct(SlotsOf(entries))
      && Sound()
    }

    /** All arrays are separate and hold what they should. */
    ghost predicate Sound()
      reads this, KeysOf(entries)
    {
      Separate(entries) && forall i :: 0 <= i < |entries| ==> entries[i].key in KeysOf(entries) && Holds(entries[i])
    }

    constructor (capacity: Option<int>, ttl: Option<int>, derive: (seq<Byte>, seq<Byte>) -> seq<Byte>)
      ensures Valid() && entries == [] && this.derive == derive
      ensures this.capacity == if capacity.Some? && capacity.value > 0
        then (if capacity.value < MAX_CAPACITY then capacity.value else MAX_CAPACITY) else 64
      ensures this.ttl == if ttl.Some? && ttl.value > 0 then ttl.value else 60_000
    {
      this.capacity := if capacity.Some? && capacity.value > 0
        then (if capacity.value < MAX_CAPACITY then capacity.value else MAX_CAPACITY) else 64;
      this.ttl := if ttl.Some? && ttl.value > 0 then ttl.value else 60_000;
      this.derive := derive;
      entries := [];
    }

    method Clear()
      requires Valid()
      modifies this, KeysOf(entries)
      ensures Valid() && entries == []
      ensures forall i :: 0 <= i < |old(entries)| ==> IsErased(old(entries)[i].key)
    {
      ghost var all := entries;
      for i := 0 to |entries|
        invariant entries == all
        invariant forall j :: 0 <= j < i ==> IsErased(all[j].key)
      {
        assert all[i].key in KeysOf(all);
        Erase(entries[i].key);
      }
      entries := [];
    }

    /** What became of an old entry: still held and untouched, or dropped and erased. */
    twostate predicate HeldOrErased(e: Entry)
      reads this, e.key
    {
      (e in entries && e.key[..] == old(e.key[..])) || (e.key !in KeysOf(entries) && IsErased(e.key))
    }

    /** Drops entries from the front until the rest fits, erasing each. */
    method EvictOldest()
      requires Sound()
      modifies `entries, KeysOf(entries)
      ensures Sound()
      ensures entries == old(entries)[if |old(entries)| <= capacity then 0 else |old(entries)| - capacity..]
      ensures forall i :: 0 <= i < |old(entries)| ==> HeldOrErased(old(entries)[i])
    {
      ghost var all := entries;
      ghost var n := EraseFront();
      forall i | 0 <= i < |entries| ensures entries[i].key in KeysOf(entries) && Holds(entries[i]) {
        assert entries[i] == all[n + i] && entries[i] in entries;
      }
      forall i | 0 <= i < |all| ensures HeldOrErased(all[i]) {
        if i < n { EvictedIsGone(all, n, i); } else { assert entries[i - n] == all[i]; }
      }
    }

    method EraseFront() returns (ghost n: nat)
      requires Separate(entries)
      modifies `entries, KeysOf(entries)
      ensures n == if |old(entries)| <= capacity then 0 else |old(entries)| - capacity
      ensures n <= |old(entries)| && entries == old(entries)[n..]
      ensures forall i :: 0 <= i < n ==> IsErased(old(entries)[i].key)
      ensures forall i :: n <= i < |old(entries)| ==> old(entries)[i].key[..] == old(entries[i].key[..])
    {
      ghost var all := entries;
      n := 0;
      while |entries| > capacity
        invariant n <= |all| && entries == all[n..] && (n == 0 || |all| - n >= capacity)
        invariant forall i :: 0 <= i < n ==> IsErased(all[i].key)
        invariant forall i :: n <= i < |all| ==> all[i].key[..] == old(all[i].key[..])
      {
        assert entries[0] == all[n];
        assert all[n].key in KeysOf(all);
        Erase(entries[0].key);
        entries := entries[1..];
        n := n + 1;
      }
    }

    /** None for a key of the wrong size. Otherwise the derived key, in an array the cache goes on to hold. */
    method Get(pub: seq<Byte>, secret: seq<Byte>, at: int) returns (key: array?<Byte>)
      requires Valid()
      modifies this, KeysOf(entries)
      ensures Valid()
      ensures key == null <==> |pub| != KEY_BYTES || |secret| != KEY_BYTES
      ensures key == null ==> entries == old(entries)
      ensures key != null ==>
        && SlotsOf(entries) == Got(SlotsOf(old(entries)), Identity(pub, secret), at, ttl, capacity)
        && key == entries[|entries| - 1].key
        && key[..] == derive(pub, secret)
      ensures key != null && key !in old(KeysOf(entries)) ==> fresh(key)
      ensures forall i :: 0 <= i < |old(entries)| ==> HeldOrErased(old(entries)[i])
    {
      hide Distinct, SlotsOf, Sound, Got, IsHit, KeysOf;
      if |pub| != KEY_BYTES || |secret| != KEY_BYTES { return null; }
      var id := Identity(pub, secret);
      if IsHit(SlotsOf(entries), id, at) {
        key := Touch(id, at);
      } else {
        key := Insert(id, at);
      }
    }

    method Touch(id: Identity, at: int) returns (key: array<Byte>)
      requires Valid() && IsHit(SlotsOf(entries), id, at)
      modifies `entries
      ensures Valid()
      ensures SlotsOf(entries) == Got(old(SlotsOf(entries)), id, at, ttl, capacity)
      ensures entries != [] && key == entries[|entries| - 1].key && key[..] == derive(id.pub, id.secret)
      ensures key in old(KeysOf(entries))
      ensures forall i :: 0 <= i < |old(entries)| ==> HeldOrErased(old(entries)[i])
    {
      hide Distinct, Separate, SlotsOf, IsHit, Moved, KeysOf, Got, IndexOf;
      ghost var was := entries;
      TouchedIs(was, id, at, ttl, capacity);
      var k := IndexOf(SlotsOf(entries), id);
      key := entries[k].key;
      entries := Moved(entries, k);
      forall i | 0 <= i < |entries| ensures Holds(entries[i]) {
        var j := MovedFrom(was, k, i);
        assert Holds(was[j]);
      }
      forall i | 0 <= i < |was| ensures HeldOrErased(was[i]) { assert was[i] in entries; }
    }

    method Insert(id: Identity, at: int) returns (key: array<Byte>)
      requires Valid() && !IsHit(SlotsOf(entries), id, at)
      modifies this, KeysOf(entries)
      ensures Valid()
      ensures SlotsOf(entries) == Got(old(SlotsOf(entries)), id, at, ttl, capacity)
      ensures fresh(key) && key == entries[|entries| - 1].key && key[..] == derive(id.pub, id.secret)
      ensures forall i :: 0 <= i < |old(entries)| ==> HeldOrErased(old(entries)[i])
    {
      hide Distinct, SlotsOf, Kept, Separate, Got, IsHit, Newest, Unexpired;
      ghost var was := entries;
      MissIsNew(SlotsOf(was), id, at);
      GotIsBoundedAndDistinct(SlotsOf(was), id, at, ttl, capacity);
      key := Admit(id, at);
      ghost var all := entries;
      ghost var n := if |all| <= capacity then 0 else |all| - capacity;
      MissSlots(was, id, at, ttl, capacity, key);
      label Admitted:
      assert entries[n..] == all[n..];
      EvictOldest();
      forall j | 0 <= j < |was| ensures HeldOrErased(was[j]) {
        var i := KeptOrDropped(was, at, j, all, n);
        if i == -1 {
          assert unchanged@Admitted(was[j].key);
        } else {
          assert HeldOrErased@Admitted(all[i]);
        }
      }
    }

    /** Sweeps, then derives the new key behind what is left. */
    method Admit(id: Identity, at: int) returns (key: array<Byte>)
      requires Valid()
      modifies this, KeysOf(entries)
      ensures fresh(key) && key[..] == derive(id.pub, id.secret)
      ensures entries == Kept(old(entries), at) + [Entry(Slot(id, at + ttl), key)]
      ensures Sound()
      ensures forall i :: 0 <= i < |entries| - 1 ==> entries[i].key in old(KeysOf(entries))
      ensures forall j :: 0 <= j < |old(entries)| ==> var e := old(entries)[j];
        if e.slot.expiresAt <= at then IsErased(e.key) else e.key[..] == old(entries[j].key[..])
    {
      hide Distinct, SlotsOf;
      ghost var was := entries;
      KeptIsSeparate(was, at);
      var kept := Sweep(entries, at);
      var derived := derive(id.pub, id.secret);
      key := new Byte[|derived|](i requires 0 <= i < |derived| => derived[i]);
      entries := kept + [Entry(Slot(id, at + ttl), key)];
      forall i | 0 <= i < |kept| ensures kept[i].key in old(KeysOf(entries)) && Holds(kept[i]) {
        var j := KeptFrom(was, at, i);
        assert was[j] in was && Holds(was[j]);
      }
    }
  }

  lemma {:induction false} MissSlots(entries: seq<Entry>, id: Identity, at: int, ttl: int, capacity: nat,
        key: array<Byte>)
    requires !IsHit(SlotsOf(entries), id, at)
    ensures var all := Kept(entries, at) + [Entry(Slot(id, at + ttl), key)];
      SlotsOf(all[if |all| <= capacity then 0 else |all| - capacity..]) == Got(SlotsOf(entries), id, at, ttl, capacity)
  {
    hide IsHit;
    var last := Entry(Slot(id, at + ttl), key);
    var all := Kept(entries, at) + [last];
    KeptSlots(entries, at);
    SlotsOfConcat(Kept(entries, at), [last]);
    assert SlotsOf([last]) == [last.slot];
    SlotsOfSuffix(all, if |all| <= capacity then 0 else |all| - capacity);
  }

  lemma {:induction false} HitHasSlot(entries: seq<Entry>, id: Identity, at: int)
    requires IsHit(SlotsOf(entries), id, at)
    ensures var k := IndexOf(SlotsOf(entries), id); k < |entries| && entries[k].slot.id == id
  {
  }

  lemma {:induction false} SlotsOfSuffix(entries: seq<Entry>, n: nat)
    requires n <= |entries|
    ensures SlotsOf(entries[n..]) == SlotsOf(entries)[n..]
  {
  }

  lemma {:induction false} EvictedIsGone(entries: seq<Entry>, n: nat, i: nat)
    requires Separate(entries) && i < n <= |entries|
    ensures entries[i].key !in KeysOf(entries[n..])
  {
    forall e | e in entries[n..] ensures e.key != entries[i].key {
      var k :| 0 <= k < |entries[n..]| && entries[n..][k] == e;
      assert entries[n + k] == e;
    }
  }

  lemma {:induction false} DroppedIsGone(entries: seq<Entry>, at: int, j: nat)
    requires Separate(entries) && j < |entries| && entries[j].slot.expiresAt <= at
    ensures forall i :: 0 <= i < |Kept(entries, at)| ==> Kept(entries, at)[i].key != entries[j].key
  {
    forall i | 0 <= i < |Kept(entries, at)| ensures Kept(entries, at)[i].key != entries[j].key {
      var k := KeptFrom(entries, at, i);
      assert entries[k] == Kept(entries, at)[i] && k != j;
    }
  }

  /** Where old entry `j` stands among `all`, and that its key is gone from `all[n..]` unless it stands there. */
  lemma {:induction false} KeptOrDropped(entries: seq<Entry>, at: int, j: nat, all: seq<Entry>, n: nat) returns (i: int)
    requires Separate(entries) && Separate(all) && j < |entries| && n <= |all|
    requires |all| == |Kept(entries, at)| + 1 && all[..|all| - 1] == Kept(entries, at)
    requires all[|all| - 1].key != entries[j].key
    ensures -1 <= i < |all| && (i == -1 <==> entries[j].slot.expiresAt <= at)
    ensures i >= 0 ==> all[i] == entries[j]
    ensures i == -1 ==> entries[j].key !in KeysOf(all) && entries[j].key !in KeysOf(all[n..])
  {
    hide Kept;
    if entries[j].slot.expiresAt > at {
      i := KeptTo(entries, at, j);
      assert all[i] == all[..|all| - 1][i];
    } else {
      i := -1;
      DroppedIsGone(entries, at, j);
      forall k | 0 <= k < |all[n..]| ensures all[n..][k].key != entries[j].key {
        if n + k < |all| - 1 { assert all[n + k] == all[..|all| - 1][n + k]; }
      }
      forall k | 0 <= k < |all| ensures all[k].key != entries[j].key {
        if k < |all| - 1 { assert all[k] == all[..|all| - 1][k]; }
      }
    }
  }

  /** Entry `k` moves to the end. */
  function Moved(entries: seq<Entry>, k: nat): (moved: seq<Entry>)
    requires k < |entries|
    ensures |moved| == |entries| && moved[|entries| - 1] == entries[k]
    ensures forall i :: 0 <= i < |entries| - 1 ==> moved[i] == if i < k then entries[i] else entries[i + 1]
  {
    entries[..k] + entries[k + 1..] + [entries[k]]
  }

  lemma {:induction false} MovedSlots(entries: seq<Entry>, k: nat)
    requires k < |entries| && Distinct(SlotsOf(entries)) && Separate(entries)
    ensures var s := SlotsOf(entries); SlotsOf(Moved(entries, k)) == s[..k] + s[k + 1..] + [s[k]]
    ensures Distinct(SlotsOf(Moved(entries, k))) && Separate(Moved(entries, k))
  {
    var s := SlotsOf(entries);
    assert SlotsOf(Moved(entries, k)) == Without(s, k) + [s[k]];
    WithoutIsDistinct(s, k);
  }

  lemma {:induction false} MovedKeepsAll(entries: seq<Entry>, k: nat)
    requires k < |entries|
    ensures forall i :: 0 <= i < |entries| ==> entries[i] in Moved(entries, k)
    ensures forall i :: 0 <= i < |entries| ==> Moved(entries, k)[i] in entries
  {
    var moved := Moved(entries, k);
    forall i | 0 <= i < |entries| ensures entries[i] in moved {
      assert entries[i] == moved[if i < k then i else if i == k then |entries| - 1 else i - 1];
    }
  }

  lemma {:induction false} MovedFrom(entries: seq<Entry>, k: nat, i: nat) returns (j: nat)
    requires k < |entries| && i < |entries|
    ensures j < |entries| && Moved(entries, k)[i] == entries[j]
  {
    j := if i == |entries| - 1 then k else if i < k then i else i + 1;
  }

  /** A hit moves one entry to the end and keeps the rest. */
  lemma {:induction false} TouchedIs(entries: seq<Entry>, id: Identity, at: int, ttl: int, capacity: nat)
    requires IsHit(SlotsOf(entries), id, at) && Distinct(SlotsOf(entries)) && Separate(entries)
    ensures var k := IndexOf(SlotsOf(entries), id);
      && k < |entries| && entries[k].slot.id == id && entries[k].key in KeysOf(entries)
      && var moved := Moved(entries, k);
         && SlotsOf(moved) == Got(SlotsOf(entries), id, at, ttl, capacity)
         && Distinct(SlotsOf(moved)) && Separate(moved) && KeysOf(moved) == KeysOf(entries)
         && (forall i :: 0 <= i < |moved| ==> moved[i].key in KeysOf(moved))
         && (forall i :: 0 <= i < |entries| ==> entries[i] in moved)
  {
    hide Distinct, Separate, SlotsOf, IndexOf, Moved, KeysOf, Got, IsHit;
    HitHasSlot(entries, id, at);
    var k := IndexOf(SlotsOf(entries), id);
    MovedSlots(entries, k);
    MovedKeepsAll(entries, k);
    GotOnHit(SlotsOf(entries), id, at, ttl, capacity);
    KeysOfSame(entries, Moved(entries, k));
    KeysAreThere(entries);
    KeysAreThere(Moved(entries, k));
  }

  lemma {:induction false} GotOnHit(slots: seq<Slot>, id: Identity, at: int, ttl: int, capacity: nat)
    requires IsHit(slots, id, at)
    ensures var k := IndexOf(slots, id);
      k < |slots| && Got(slots, id, at, ttl, capacity) == slots[..k] + slots[k + 1..] + [slots[k]]
  {
  }

  lemma {:induction false} KeysAreThere(entries: seq<Entry>)
    ensures forall i :: 0 <= i < |entries| ==> entries[i].key in KeysOf(entries)
  {
    forall i | 0 <= i < |entries| ensures entries[i].key in KeysOf(entries) { assert entries[i] in entries; }
  }

  lemma {:induction false} KeysOfSame(a: seq<Entry>, b: seq<Entry>)
    requires forall i :: 0 <= i < |a| ==> a[i] in b
    requires forall i :: 0 <= i < |b| ==> b[i] in a
    ensures KeysOf(a) == KeysOf(b)
  {
  }

  function Kept(entries: seq<Entry>, at: int): seq<Entry> {
    if entries == [] then []
    else
      var last := entries[|entries| - 1];
      Kept(entries[..|entries| - 1], at) + (if last.slot.expiresAt <= at then [] else [last])
  }

  lemma {:induction false} SlotsOfConcat(a: seq<Entry>, b: seq<Entry>)
    ensures SlotsOf(a + b) == SlotsOf(a) + SlotsOf(b)
  {
  }

  lemma {:induction false} KeptSlots(entries: seq<Entry>, at: int)
    ensures SlotsOf(Kept(entries, at)) == Unexpired(SlotsOf(entries), at)
  {
    if entries != [] {
      var init, last := entries[..|entries| - 1], entries[|entries| - 1];
      KeptSlots(init, at);
      assert entries == init + [last];
      assert SlotsOf(entries)[..|entries| - 1] == SlotsOf(init);
      SlotsOfConcat(Kept(init, at), [last]);
    }
  }

  /** Every kept entry stood in the list, at `j`. */
  lemma {:induction false} KeptFrom(entries: seq<Entry>, at: int, i: nat) returns (j: nat)
    requires i < |Kept(entries, at)|
    ensures j < |entries| && entries[j] == Kept(entries, at)[i] && entries[j].slot.expiresAt > at
  {
    var init := entries[..|entries| - 1];
    if i < |Kept(init, at)| { j := KeptFrom(init, at, i); } else { j := |init|; }
  }

  /** Every entry that has not expired is kept, at `i`. */
  lemma {:induction false} KeptTo(entries: seq<Entry>, at: int, j: nat) returns (i: nat)
    requires j < |entries| && entries[j].slot.expiresAt > at
    ensures i < |Kept(entries, at)| && Kept(entries, at)[i] == entries[j]
  {
    var init := entries[..|entries| - 1];
    if j < |init| { i := KeptTo(init, at, j); } else { i := |Kept(init, at)|; }
  }

  lemma {:induction false} KeptIsSeparate(entries: seq<Entry>, at: int)
    requires Separate(entries)
    ensures Separate(Kept(entries, at))
  {
    if entries != [] {
      var init, last := entries[..|entries| - 1], entries[|entries| - 1];
      KeptIsSeparate(init, at);
      forall i | 0 <= i < |Kept(init, at)| ensures Kept(init, at)[i].key != last.key {
        var j := KeptFrom(init, at, i);
        assert entries[j] == Kept(init, at)[i];
      }
    }
  }

  /** Erases and drops the expired entries of a list, and touches nothing else. */
  method Sweep(entries: seq<Entry>, at: int) returns (kept: seq<Entry>)
    requires Separate(entries)
    modifies KeysOf(entries)
    ensures kept == Kept(entries, at)
    ensures forall i :: 0 <= i < |entries| ==>
      if entries[i].slot.expiresAt <= at
          then IsErased(entries[i].key) else entries[i].key[..] == old(entries[i].key[..])
  {
    kept := [];
    for i := 0 to |entries|
      invariant kept == Kept(entries[..i], at)
      invariant forall j :: 0 <= j < |entries| ==>
        if j < i && entries[j].slot.expiresAt <= at then IsErased(entries[j].key)
        else entries[j].key[..] == old(entries[j].key[..])
    {
      assert entries[..i + 1][..i] == entries[..i];
      var e := entries[i];
      assert e.key in KeysOf(entries);
      if e.slot.expiresAt <= at { Erase(e.key); } else { kept := kept + [e]; }
    }
    assert entries[..|entries|] == entries;
  }
}
