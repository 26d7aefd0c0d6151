/** The per-client ring of recently confirmed identifiers. */
module DedupRing {

  const SLOTS := 32
  const WRAP := 0x1_0000

  /** `slots` is written cyclically; `count` is the uint16 number of identifiers recorded. */
  datatype RingData = RingData(slots: seq<nat>, count: nat) {
    predicate Valid() { |slots| == SLOTS && count < WRAP }
  }

  type Ring = r: RingData | r.Valid() witness EMPTY

  const EMPTY := RingData([0, 0, 0, 0, 0, 0, 0, 0, 0, 0, 0, 0, 0, 0, 0, 0, 0, 0, 0, 0, 0, 0, 0, 0, 0, 0, 0, 0, 0, 0, 0, 0], 0)

  function Record(r: Ring, id: nat): Ring
  {
    RingData(r.slots[r.count % SLOTS := id], (r.count + 1) % WRAP)
  }

  /** Looks down from `index` until the slot the next identifier will take. */
  predicate FoundBelow(r: Ring, id: nat, index: int)
    requires index < WRAP
    decreases index + 1
  {
    index >= 0 && index % SLOTS != r.count % SLOTS
    && (r.slots[index % SLOTS] == id || FoundBelow(r, id, index - 1))
  }

  predicate Contains(r: Ring, id: nat)
  {
    FoundBelow(r, id, r.count - 1)
  }

  /** `is_msg_confirmed`. */
  method IsMsgConfirmed(r: Ring, id: nat) returns (found: bool)
    ensures found == Contains(r, id)
  {
    var index := r.count - 1;
    if r.count == 0 {
      return false;
    }
    while index >= 0 && index % SLOTS != r.count % SLOTS
      invariant -1 <= index < WRAP
      invariant Contains(r, id) == FoundBelow(r, id, index)
    {
      if r.slots[index % SLOTS] == id {
        return true;
      }
      index := index - 1;
    }
    return false;
  }

  // ----- The sliding window over the whole history -----

  /** How many of the identifiers recorded so far the ring still answers for. */
  function Depth(n: nat): nat { if n % WRAP < SLOTS - 1 then n % WRAP else SLOTS - 1 }

  function Recent(history: seq<nat>): (w: seq<nat>)
    ensures |w| == Depth(|history|)
  {
    assert Depth(|history|) <= |history|;
    history[|history| - Depth(|history|)..]
  }

  ghost predicate Represents(r: Ring, history: seq<nat>) {
    && r.count == |history| % WRAP
    && forall k | 0 <= k < |history| && |history| - SLOTS <= k :: r.slots[k % SLOTS] == history[k]
  }

  function RingOf(history: seq<nat>): Ring
  {
    if history == [] then EMPTY else Record(RingOf(history[..|history| - 1]), history[|history| - 1])
  }

  lemma SlotsDiffer(k: nat, n: nat)
    requires k < n < k + SLOTS
    ensures k % SLOTS != n % SLOTS
  {
    var a, b := k / SLOTS, k % SLOTS;
    assert n == a * SLOTS + (b + (n - k));
    AddSlots(b + (n - k), a);
  }

  lemma CountsSlots(n: nat)
    ensures n % WRAP % SLOTS == n % SLOTS && (n % WRAP + 1) % WRAP == (n + 1) % WRAP
  {
    var q, r := n / WRAP, n % WRAP;
    assert n == r + (q * 2048) * SLOTS;
    AddSlots(r, q * 2048);
  }

  lemma RecordRepresents(r: Ring, history: seq<nat>, id: nat)
    requires Represents(r, history)
    ensures Represents(Record(r, id), history + [id])
  {
    var n, t := |history|, Record(r, id);
    CountsSlots(n);
    forall k | 0 <= k <= n && n + 1 - SLOTS <= k
      ensures t.slots[k % SLOTS] == (history + [id])[k]
    {
      if k < n {
        SlotHolds(r, history, k);
        SlotsDiffer(k, n);
      }
    }
  }

  /** Every history, however long, is represented by the ring that recorded it. */
  lemma {:induction false} RingOfRepresents(history: seq<nat>)
    ensures Represents(RingOf(history), history)
  {
    if history != [] {
      var h, id := history[..|history| - 1], history[|history| - 1];
      RingOfRepresents(h);
      RecordRepresents(RingOf(h), h, id);
      assert h + [id] == history;
    }
  }

  /** The ring answers yes exactly for the identifiers in the sliding window. */
  lemma ContainsIsRecent(r: Ring, history: seq<nat>, id: nat)
    requires Represents(r, history)
    ensures Contains(r, id) <==> id in Recent(history)
  {
    FoundIsRecent(r, history, id, 0);
  }

  /** Counting modulo 2^16 does not disturb counting modulo 32, and 31 steps down meet no slot twice. */
  lemma SlotArithmetic(n: nat, skip: nat)
    requires skip <= Depth(n)
    ensures skip < Depth(n) ==>
              var index := n % WRAP - 1 - skip;
              index >= 0 && index % SLOTS == (n - 1 - skip) % SLOTS != n % WRAP % SLOTS
    ensures skip == Depth(n) ==>
              var index := n % WRAP - 1 - skip;
              index < 0 || index % SLOTS == n % WRAP % SLOTS
  {
    var q := n / WRAP;
    assert n == q * WRAP + n % WRAP;
    assert n - 1 - skip == (n % WRAP - 1 - skip) + (q * 2048) * SLOTS;
    AddSlots(n % WRAP - 1 - skip, q * 2048);
  }

  lemma AddSlots(x: int, k: int)
    ensures (x + k * SLOTS) % SLOTS == x % SLOTS
  {
    var a, b := x / SLOTS, x % SLOTS;
    assert x + k * SLOTS == (a + k) * SLOTS + b;
  }

  lemma SlotHolds(r: Ring, history: seq<nat>, k: nat)
    requires Represents(r, history) && k < |history| && |history| - SLOTS <= k
    ensures r.slots[k % SLOTS] == history[k]
  {
  }

  lemma FoundUnfold(r: Ring, id: nat, index: int)
    requires index < WRAP
    ensures FoundBelow(r, id, index) <==>
            index >= 0 && index % SLOTS != r.count % SLOTS
            && (r.slots[index % SLOTS] == id || FoundBelow(r, id, index - 1))
  {
  }

  lemma {:induction false} FoundIsRecent(r: Ring, history: seq<nat>, id: nat, skip: nat)
    requires Represents(r, history)
    requires skip <= Depth(|history|)
    ensures FoundBelow(r, id, r.count - 1 - skip)
            <==> id in history[|history| - Depth(|history|)..|history| - skip]
    decreases Depth(|history|) - skip
  {
    hide FoundBelow, Depth;
    var n := |history|;
    DepthBound(n);
    SlotArithmetic(n, skip);
    FoundUnfold(r, id, r.count - 1 - skip);
    if skip < Depth(n) {
      SlotHolds(r, history, n - 1 - skip);
      FoundIsRecent(r, history, id, skip + 1);
      var lo, k := n - Depth(n), n - 1 - skip;
      assert history[lo..n - skip] == history[lo..k] + [history[k]];
    }
  }

  lemma DepthBound(n: nat)
    ensures Depth(n) <= n && Depth(n) < SLOTS
  {
  }
}
