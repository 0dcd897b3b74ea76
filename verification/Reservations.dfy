/**
 * Capacity tokens, room-id reservations and the holds that outlive a settled create, as values:
 * what each operation of the fleet state does to them.
 */
module Reservations {
  import opened Utf8
  import opened FleetTypes

  type Counts = map<InstanceId, nat>

  /** A live capacity token. */
  datatype Reservation = Reservation(id: nat, instanceId: InstanceId)

  datatype Holds = Holds(
    tokens: map<nat, InstanceId>, tokenCount: Counts, tokenSeq: nat,
    reserved: set<Text>,
    pending: map<Text, InstanceId>, pendingCount: Counts)

  const NONE: Holds := Holds(map[], map[], 0, {}, map[], map[])

  function Get(c: Counts, i: InstanceId): nat {
    if i in c then c[i] else 0
  }

  // ----- the operations -----

  function Reserve(h: Holds, i: InstanceId): Holds {
    h.(tokenSeq := h.tokenSeq + 1, tokens := h.tokens[h.tokenSeq + 1 := i],
      tokenCount := h.tokenCount[i := Get(h.tokenCount, i) + 1])
  }

  function Lowered(c: Counts, i: InstanceId): Counts {
    if Get(c, i) <= 1 then c - {i} else c[i := c[i] - 1]
  }

  function Release(h: Holds, r: Reservation): Holds {
    if r.id !in h.tokens then h
    else h.(tokens := h.tokens - {r.id}, tokenCount := Lowered(h.tokenCount, r.instanceId))
  }

  function ReserveId(h: Holds, id: Text): Holds {
    h.(reserved := h.reserved + {id})
  }

  function ReleaseId(h: Holds, id: Text): Holds {
    h.(reserved := h.reserved - {id})
  }

  /** A settled create keeps its id and its slot until the owner's next snapshot. */
  function HoldUntilVisible(h: Holds, id: Text, r: Reservation): Holds {
    var f := ReleaseId(Release(h, r), id);
    if id in f.pending then f
    else f.(pending := f.pending[id := r.instanceId],
            pendingCount := f.pendingCount[r.instanceId := Get(f.pendingCount, r.instanceId) + 1])
  }

  function Owned<K>(m: map<K, InstanceId>, i: InstanceId): set<K> {
    set k | k in m && m[k] == i
  }

  function ClearPending(h: Holds, i: InstanceId): Holds {
    if i !in h.pendingCount then h
    else h.(pending := h.pending - Owned(h.pending, i), pendingCount := h.pendingCount - {i})
  }

  // ----- the counts summarise the maps -----

  /** Every count is the number of entries it stands for, and none is stored as zero. */
  ghost predicate Summarises<K(!new)>(c: Counts, m: map<K, InstanceId>) {
    && (forall i :: Get(c, i) == |Owned(m, i)|)
    && (forall i :: i in c ==> c[i] > 0)
  }

  ghost predicate Valid(h: Holds) {
    && Summarises(h.tokenCount, h.tokens)
    && Summarises(h.pendingCount, h.pending)
    && (forall t | t in h.tokens :: 1 <= t <= h.tokenSeq)
    && h.reserved !! h.pending.Keys
  }

  lemma OwnedInsert<K>(m: map<K, InstanceId>, k: K, i: InstanceId, j: InstanceId)
    requires k !in m
    ensures Owned(m[k := i], j) == if i == j then Owned(m, j) + {k} else Owned(m, j)
  {
  }

  lemma OwnedRemove<K>(m: map<K, InstanceId>, k: K, j: InstanceId)
    requires k in m
    ensures Owned(m - {k}, j) == if m[k] == j then Owned(m, j) - {k} else Owned(m, j)
    ensures m[k] == j ==> k in Owned(m, j) && |Owned(m, j)| > 0
  {
    if m[k] == j {
      assert k in Owned(m, j);
    }
  }

  lemma RaisedSummarises<K(!new)>(c: Counts, m: map<K, InstanceId>, k: K, i: InstanceId)
    requires Summarises(c, m) && k !in m
    ensures Summarises(c[i := Get(c, i) + 1], m[k := i])
  {
    var c', m' := c[i := Get(c, i) + 1], m[k := i];
    forall j
      ensures Get(c', j) == |Owned(m', j)|
    {
      OwnedInsert(m, k, i, j);
      assert Get(c, j) == |Owned(m, j)|;
    }
  }

  lemma LoweredSummarises<K(!new)>(c: Counts, m: map<K, InstanceId>, k: K)
    requires Summarises(c, m) && k in m
    ensures Summarises(Lowered(c, m[k]), m - {k})
  {
    var i := m[k];
    var c', m' := Lowered(c, i), m - {k};
    OwnedRemove(m, k, i);
    assert Get(c, i) == |Owned(m, i)|;
    forall j
      ensures Get(c', j) == |Owned(m', j)|
    {
      OwnedRemove(m, k, j);
      assert Get(c, j) == |Owned(m, j)|;
    }
  }

  lemma ReserveValid(h: Holds, i: InstanceId)
    requires Valid(h)
    ensures Valid(Reserve(h, i))
  {
    RaisedSummarises<nat>(h.tokenCount, h.tokens, h.tokenSeq + 1, i);
  }

  lemma ReleaseValid(h: Holds, r: Reservation)
    requires Valid(h) && (r.id in h.tokens ==> h.tokens[r.id] == r.instanceId)
    ensures Valid(Release(h, r))
  {
    if r.id in h.tokens {
      LoweredSummarises(h.tokenCount, h.tokens, r.id);
    }
  }

  lemma HoldValid(h: Holds, id: Text, r: Reservation)
    requires Valid(h) && (r.id in h.tokens ==> h.tokens[r.id] == r.instanceId)
    ensures Valid(HoldUntilVisible(h, id, r))
  {
    ReleaseValid(h, r);
    var f := ReleaseId(Release(h, r), id);
    if id !in f.pending {
      RaisedSummarises(f.pendingCount, f.pending, id, r.instanceId);
    }
  }

  lemma ClearValid(h: Holds, i: InstanceId)
    requires Valid(h)
    ensures Valid(ClearPending(h, i))
    ensures Owned(ClearPending(h, i).pending, i) == {} && Get(ClearPending(h, i).pendingCount, i) == 0
    ensures forall j | j != i :: Owned(ClearPending(h, i).pending, j) == Owned(h.pending, j)
  {
    var m := h.pending - Owned(h.pending, i);
    assert Get(h.pendingCount, i) == |Owned(h.pending, i)|;
    forall j
      ensures Owned(m, j) == if i == j then {} else Owned(h.pending, j)
    {
    }
    if i in h.pendingCount {
      forall j
        ensures Get(h.pendingCount - {i}, j) == |Owned(m, j)|
      {
        assert Get(h.pendingCount, j) == |Owned(h.pending, j)|;
      }
    }
  }

  // ----- the slots of an instance that are spoken for -----

  function Occupied(h: Holds, i: InstanceId): nat {
    Get(h.tokenCount, i) + Get(h.pendingCount, i)
  }

  lemma ReserveOccupies(h: Holds, i: InstanceId, j: InstanceId)
    ensures Occupied(Reserve(h, i), j) == Occupied(h, j) + (if i == j then 1 else 0)
  {
  }

  lemma ReleaseFrees(h: Holds, r: Reservation, j: InstanceId)
    requires Valid(h) && r.id in h.tokens && h.tokens[r.id] == r.instanceId
    ensures Occupied(Release(h, r), j) == Occupied(h, j) - (if r.instanceId == j then 1 else 0)
  {
    OwnedRemove(h.tokens, r.id, r.instanceId);
    assert Get(h.tokenCount, r.instanceId) == |Owned(h.tokens, r.instanceId)|;
  }

  /** Holding moves the slot from the token to the hold: the instance stays as full as it was. */
  lemma HoldKeepsOccupied(h: Holds, id: Text, r: Reservation, j: InstanceId)
    requires Valid(h) && r.id in h.tokens && h.tokens[r.id] == r.instanceId && id !in h.pending
    ensures Occupied(HoldUntilVisible(h, id, r), j) == Occupied(h, j)
  {
    ReleaseFrees(h, r, j);
  }
}
