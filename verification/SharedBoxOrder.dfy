/**
 The order of the shared-key cache as a value: entries from least to most recently used,
 each with its expiry. Key bytes and their erasure are the business of the cache object.
 */
module SharedBoxOrder {
  import opened Basics

  /** The SHA-256 of both keys is taken to be injective. */
  datatype Identity = Identity(pub: seq<Byte>, secret: seq<Byte>)

  datatype Slot = Slot(id: Identity, expiresAt: int)

  predicate Distinct(slots: seq<Slot>) {
    forall i, j :: 0 <= i < j < |slots| ==> slots[i].id != slots[j].id
  }

  function IndexOf(slots: seq<Slot>, id: Identity): (k: nat)
    ensures k <= |slots| && (k < |slots| ==> slots[k].id == id)
  {
    if slots == [] || slots[0].id == id then 0 else 1 + IndexOf(slots[1..], id)
  }

  function Unexpired(slots: seq<Slot>, at: int): seq<Slot> {
    if slots == [] then []
    else
      var last := slots[|slots| - 1];
      Unexpired(slots[..|slots| - 1], at) + (if last.expiresAt <= at then [] else [last])
  }

  function Newest(slots: seq<Slot>, capacity: nat): seq<Slot> {
    if |slots| <= capacity then slots else slots[|slots| - capacity..]
  }

  predicate IsHit(slots: seq<Slot>, id: Identity, at: int) {
    IndexOf(slots, id) < |slots| && slots[IndexOf(slots, id)].expiresAt > at
  }

  /** A hit moves to the end; a miss drops what is expired, appends, and keeps the newest. */
  function Got(slots: seq<Slot>, id: Identity, at: int, ttl: int, capacity: nat): seq<Slot> {
    var k := IndexOf(slots, id);
    if IsHit(slots, id, at) then slots[..k] + slots[k + 1..] + [slots[k]]
    else Newest(Unexpired(slots, at) + [Slot(id, at + ttl)], capacity)
  }

  // ---------------------------------------------------------------------------
  // What one lookup does
  // ---------------------------------------------------------------------------

  lemma {:induction false} IndexOfNone(slots: seq<Slot>, id: Identity, k: nat)
    requires k < IndexOf(slots, id)
    ensures slots[k].id != id
  {
    if k > 0 { IndexOfNone(slots[1..], id, k - 1); }
  }

  lemma {:induction false} UnexpiredAre(slots: seq<Slot>, at: int)
    ensures forall x :: x in Unexpired(slots, at) <==> x in slots && x.expiresAt > at
    ensures |Unexpired(slots, at)| <= |slots|
  {
    if slots != [] {
      var init, last := slots[..|slots| - 1], slots[|slots| - 1];
      UnexpiredAre(init, at);
      assert slots == init + [last];
      assert forall x :: x in slots <==> x in init || x == last;
    }
  }

  lemma {:induction false} UnexpiredAreDistinct(slots: seq<Slot>, at: int)
    requires Distinct(slots)
    ensures Distinct(Unexpired(slots, at))
  {
    if slots != [] {
      var init, last := slots[..|slots| - 1], slots[|slots| - 1];
      UnexpiredAreDistinct(init, at);
      UnexpiredAre(init, at);
      var kept := Unexpired(init, at);
      forall i | 0 <= i < |kept| ensures kept[i].id != last.id {
        var k :| 0 <= k < |init| && init[k] == kept[i];
        assert slots[k] == init[k];
      }
    }
  }

  lemma {:induction false} UnexpiredMembers(slots: seq<Slot>, at: int)
    ensures forall x :: x in Unexpired(slots, at) <==> x in slots && x.expiresAt > at
    ensures Distinct(slots) ==> Distinct(Unexpired(slots, at))
    ensures |Unexpired(slots, at)| <= |slots|
  {
    UnexpiredAre(slots, at);
    if Distinct(slots) { UnexpiredAreDistinct(slots, at); }
    hide Unexpired, Distinct;
  }

  /** All entries but the one found. */
  function Without(slots: seq<Slot>, k: nat): seq<Slot>
    requires k < |slots|
  {
    slots[..k] + slots[k + 1..]
  }

  lemma {:induction false} WithoutIsDistinct(slots: seq<Slot>, k: nat)
    requires Distinct(slots) && k < |slots|
    ensures Distinct(Without(slots, k))
    ensures forall i :: 0 <= i < |Without(slots, k)| ==> Without(slots, k)[i].id != slots[k].id
  {
  }

  /** On a miss, nothing that is kept has the identity looked up. */
  lemma {:induction false} MissIsNew(slots: seq<Slot>, id: Identity, at: int)
    requires Distinct(slots) && !IsHit(slots, id, at)
    ensures var kept := Unexpired(slots, at);
      Distinct(kept) && |kept| <= |slots| && forall i :: 0 <= i < |kept| ==> kept[i].id != id
  {
    UnexpiredMembers(slots, at);
    var kept := Unexpired(slots, at);
    forall j | 0 <= j < |kept| ensures kept[j].id != id {
      assert kept[j] in slots;
      var i :| 0 <= i < |slots| && slots[i] == kept[j];
      if i < IndexOf(slots, id) { IndexOfNone(slots, id, i); }
    }
  }

  lemma {:induction false} GotIsBoundedAndDistinct(slots: seq<Slot>, id: Identity, at: int, ttl: int, capacity: nat)
    requires Distinct(slots) && |slots| <= capacity && capacity > 0 && ttl > 0
    ensures var t := Got(slots, id, at, ttl, capacity);
      && Distinct(t) && 0 < |t| <= capacity
      && t[|t| - 1].id == id && t[|t| - 1].expiresAt > at
  {
    hide Unexpired;
    if IsHit(slots, id, at) {
      WithoutIsDistinct(slots, IndexOf(slots, id));
      assert Got(slots, id, at, ttl, capacity) == Without(slots, IndexOf(slots, id)) + [slots[IndexOf(slots, id)]];
    } else {
      MissIsNew(slots, id, at);
      assert Distinct(Unexpired(slots, at) + [Slot(id, at + ttl)]);
    }
  }

  /** What a lookup serves is fresh: a hit has not expired, and it keeps the expiry it had. */
  lemma {:induction false} NothingExpiredIsServed(slots: seq<Slot>, id: Identity, at: int, ttl: int, capacity: nat)
    requires Distinct(slots) && |slots| <= capacity && capacity > 0 && ttl > 0
    ensures var last := Got(slots, id, at, ttl, capacity)[|Got(slots, id, at, ttl, capacity)| - 1];
      last.expiresAt > at && (if IsHit(slots, id, at) then last in slots else last.expiresAt == at + ttl)
  {
  }

  // ---------------------------------------------------------------------------
  // Least recently used first
  // ---------------------------------------------------------------------------

  datatype Lookup = Lookup(id: Identity, at: int)

  function After(lookups: seq<Lookup>, ttl: int, capacity: nat): seq<Slot> {
    if lookups == [] then []
    else
      var last := lookups[|lookups| - 1];
      Got(After(lookups[..|lookups| - 1], ttl, capacity), last.id, last.at, ttl, capacity)
  }

  /** The number of the last lookup of an identity, counted from one; 0 if there was none. */
  function LastUse(lookups: seq<Lookup>, id: Identity): nat {
    if lookups == [] then 0
    else if lookups[|lookups| - 1].id == id then |lookups|
    else LastUse(lookups[..|lookups| - 1], id)
  }

  lemma {:induction false} LastUseIsPast(lookups: seq<Lookup>, id: Identity)
    ensures LastUse(lookups, id) <= |lookups|
  {
    if lookups != [] { LastUseIsPast(lookups[..|lookups| - 1], id); }
  }

  predicate InUseOrder(slots: seq<Slot>, lookups: seq<Lookup>) {
    forall i, j :: 0 <= i < j < |slots| ==> LastUse(lookups, slots[i].id) < LastUse(lookups, slots[j].id)
  }

  lemma {:induction false} UnexpiredIsInOrder(slots: seq<Slot>, at: int, lookups: seq<Lookup>)
    requires InUseOrder(slots, lookups)
    ensures InUseOrder(Unexpired(slots, at), lookups)
  {
    if slots != [] {
      var init := slots[..|slots| - 1];
      var last := slots[|slots| - 1];
      UnexpiredIsInOrder(init, at, lookups);
      UnexpiredMembers(init, at);
      var kept := Unexpired(init, at);
      forall i | 0 <= i < |kept| ensures LastUse(lookups, kept[i].id) < LastUse(lookups, last.id) {
        assert kept[i] in init;
        var k :| 0 <= k < |init| && init[k] == kept[i];
        assert slots[k] == init[k];
      }
    }
  }

  /** One more use of `id` moves it behind all others. */
  lemma {:induction false} UseMovesToEnd(front: seq<Slot>, last: Slot, lookups: seq<Lookup>, l: Lookup)
    requires InUseOrder(front, lookups) && last.id == l.id
    requires forall x :: x in front ==> x.id != l.id
    ensures InUseOrder(front + [last], lookups + [l])
  {
    var all := lookups + [l];
    assert all[..|lookups|] == lookups;
    forall i | 0 <= i < |front| ensures LastUse(all, front[i].id) == LastUse(lookups, front[i].id) <= |lookups| {
      assert front[i] in front;
      LastUseIsPast(lookups, front[i].id);
    }
  }

  lemma {:induction false} HitIsInOrder(slots: seq<Slot>, k: nat, lookups: seq<Lookup>, l: Lookup)
    requires Distinct(slots) && InUseOrder(slots, lookups) && k < |slots| && slots[k].id == l.id
    ensures InUseOrder(slots[..k] + slots[k + 1..] + [slots[k]], lookups + [l])
  {
    var front := Without(slots, k);
    WithoutIsDistinct(slots, k);
    assert InUseOrder(front, lookups);
    UseMovesToEnd(front, slots[k], lookups, l);
  }

  lemma {:induction false} MissIsInOrder(slots: seq<Slot>, ttl: int, capacity: nat, lookups: seq<Lookup>, l: Lookup)
    requires Distinct(slots) && InUseOrder(slots, lookups) && !IsHit(slots, l.id, l.at)
    ensures InUseOrder(Newest(Unexpired(slots, l.at) + [Slot(l.id, l.at + ttl)], capacity), lookups + [l])
  {
    hide Unexpired, IsHit, LastUse;
    var front := Unexpired(slots, l.at);
    UnexpiredIsInOrder(slots, l.at, lookups);
    MissIsNew(slots, l.id, l.at);
    UseMovesToEnd(front, Slot(l.id, l.at + ttl), lookups, l);
  }

  /**
   In every run the entries stand in the order of their last use, within the capacity: what
   is evicted for room, the first entry, is what was used least recently.
   */
  lemma {:induction false} OrderedByLastUse(lookups: seq<Lookup>, ttl: int, capacity: nat)
    requires capacity > 0 && ttl > 0
    ensures var slots := After(lookups, ttl, capacity);
      Distinct(slots) && |slots| <= capacity && InUseOrder(slots, lookups)
  {
    hide Distinct, InUseOrder, IsHit, Unexpired, Newest;
    if lookups == [] {
      NothingIsInOrder();
    } else {
      var init, l := lookups[..|lookups| - 1], lookups[|lookups| - 1];
      OrderedByLastUse(init, ttl, capacity);
      var slots := After(init, ttl, capacity);
      GotIsBoundedAndDistinct(slots, l.id, l.at, ttl, capacity);
      assert lookups == init + [l];
      if IsHit(slots, l.id, l.at) {
        HitIndex(slots, l.id, l.at);
        HitIsInOrder(slots, IndexOf(slots, l.id), init, l);
      } else {
        MissIsInOrder(slots, ttl, capacity, init, l);
      }
    }
  }

  lemma {:induction false} NothingIsInOrder()
    ensures Distinct([]) && InUseOrder([], [])
  {
  }

  lemma {:induction false} HitIndex(slots: seq<Slot>, id: Identity, at: int)
    requires IsHit(slots, id, at)
    ensures IndexOf(slots, id) < |slots|
  {
  }
}
