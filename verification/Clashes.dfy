/** Who keeps a contested room id, said of what the instances report and nothing else. */
module Clashes {
  import opened Prelude
  import opened Utf8
  import opened RoomId
  import opened Resolution
  import opened PublicIds
  import opened FleetModel

  /** Both rooms are reported under one raw id. */
  ghost predicate Contend(m: Records, s: Slot, t: Slot) {
    Present(m, s) && Present(m, t) && RoomAt(m, s).id == RoomAt(m, t).id
  }

  /**
   * The better claim: created by the fleet rather than locally; then of the instance that joined first; then of the
   * lower instance id; then reported earlier in the same list.
   */
  ghost predicate ClaimsBefore(m: Records, s: Slot, t: Slot)
    requires Present(m, s) && Present(m, t)
  {
    && (RoomAt(m, s).local ==> RoomAt(m, t).local)
    && (RoomAt(m, s).local == RoomAt(m, t).local ==>
      && m[s.instance].joinSeq <= m[t.instance].joinSeq
      && (m[s.instance].joinSeq == m[t.instance].joinSeq ==>
        s.instance <= t.instance && (s.instance == t.instance ==> s.index <= t.index)))
  }

  /** No room reported under the same id has a better claim. */
  ghost predicate BestClaim(m: Records, s: Slot)
    requires Present(m, s)
  {
    forall t :: Contend(m, s, t) ==> ClaimsBefore(m, s, t)
  }

  lemma BestClaimKeeps(m: Records, s: Slot)
    requires Present(m, s)
    ensures Keeps(m, s) <==> BestClaim(m, s)
  {
    if Keeps(m, s) {
      forall t | Contend(m, s, t)
        ensures ClaimsBefore(m, s, t)
      {
        SameBaseSameId(m, s, t);
        assert s == t || Rivals(m, s, t);
      }
    }
    if BestClaim(m, s) {
      forall t | Rivals(m, s, t)
        ensures Precedes(m, s, t)
      {
        SameBaseSameId(m, s, t);
        assert Contend(m, s, t);
      }
    }
  }

  /** A room is public under its own id exactly if its claim is the best one, and otherwise under its process's name. */
  lemma PlainIdExactly(m: Records, s: Slot)
    requires Present(m, s)
    ensures PublicIdAt(m, s) == EncodedRoomId(RoomAt(m, s).id) <==> BestClaim(m, s)
    ensures !BestClaim(m, s) ==>
      PublicIdAt(m, s) == m[s.instance].info.processUid + [TILDE] + EncodedRoomId(RoomAt(m, s).id)
  {
    BestClaimKeeps(m, s);
    NamespacedIsNotEncoded(m[s.instance].info.processUid, BaseAt(m, s), RoomAt(m, s).id);
  }

  /** The room an id leads to: reported under it, and with the best claim to it. */
  ghost predicate Owns(m: Records, s: Slot, id: Text) {
    Present(m, s) && RoomAt(m, s).id == id && BestClaim(m, s)
  }

  /** An id is found exactly while some instance reports it, and leads to the room with the best claim. */
  lemma OwnerIsLocated(r: Rows, id: Text)
    requires RowsValid(r)
    ensures Locate(r, EncodedRoomId(id)).Some? <==> Reported(r.records, id)
    ensures forall s | Owns(r.records, s, id) ::
      Locate(r, EncodedRoomId(id)) == Some(Locator(RoomAt(r.records, s).(id := EncodedRoomId(id)), s.instance, id))
    ensures Reported(r.records, id) ==> exists s :: Owns(r.records, s, id)
  {
    var m, base := r.records, EncodedRoomId(id);
    PublicIndexFinds(r.order, m);
    if s :| Present(m, s) && RoomAt(m, s).id == id {
      var keeper := KeeperExists(r.order, m, s);
      SameBaseSameId(m, keeper, s);
      BestClaimKeeps(m, keeper);
      assert Owns(m, keeper, id) && PublicIdAt(m, keeper) == base;
    }
    if base in PublicIndex(r.order, m) {
      var s := PublicIndex(r.order, m)[base];
      FoundOwns(m, s, id);
    }
    forall s | Owns(m, s, id)
      ensures Locate(r, base) == Some(Locator(RoomAt(m, s).(id := base), s.instance, id))
    {
      BestClaimKeeps(m, s);
      OwnerIsOne(m, s, PublicIndex(r.order, m)[base], id);
    }
  }

  /** Whatever is public under an encoded id owns it. */
  lemma FoundOwns(m: Records, s: Slot, id: Text)
    requires Present(m, s) && PublicIdAt(m, s) == EncodedRoomId(id)
    ensures Owns(m, s, id)
  {
    NamespacedIsNotEncoded(m[s.instance].info.processUid, BaseAt(m, s), id);
    EncodedRoomIdInjective(RoomAt(m, s).id, id);
    BestClaimKeeps(m, s);
  }

  lemma OwnerIsOne(m: Records, s: Slot, t: Slot, id: Text)
    requires Owns(m, s, id) && Present(m, t) && PublicIdAt(m, t) == EncodedRoomId(id)
    ensures s == t
  {
    FoundOwns(m, t, id);
    assert Contend(m, s, t) && Contend(m, t, s);
  }
}
