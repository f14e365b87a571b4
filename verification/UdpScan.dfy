/** What a scan of udpserver's client table keeps and frees: an order-preserving filter. */
module UdpScan {
  import opened Common
  import opened UdpTable

  /** The positions of the clients that have expired, or of those that have not. */
  function Places(slots: Slots, now: real, timeout: real, expired: bool): seq<nat> {
    if slots == [] then []
    else
      var m := |slots| - 1;
      Places(slots[..m], now, timeout, expired)
      + if slots[m].Some? && Expired(slots[m].value, now, timeout) == expired then [m] else []
  }

  lemma {:induction false} PlacesMember(slots: Slots, now: real, timeout: real, expired: bool, i: nat)
    ensures i in Places(slots, now, timeout, expired) <==>
              i < |slots| && slots[i].Some? && Expired(slots[i].value, now, timeout) == expired
  {
    if slots == [] {
    } else {
      PlacesMember(slots[..|slots| - 1], now, timeout, expired, i);
    }
  }

  lemma {:induction false} PlacesIncrease(slots: Slots, now: real, timeout: real, expired: bool)
    ensures var at := Places(slots, now, timeout, expired); forall j, k :: 0 <= j < k < |at| ==> at[j] < at[k]
  {
    if slots == [] {
    } else {
      var m := |slots| - 1;
      var at := Places(slots[..m], now, timeout, expired);
      PlacesIncrease(slots[..m], now, timeout, expired);
      forall k | 0 <= k < |at| ensures at[k] < m {
        PlacesMember(slots[..m], now, timeout, expired, at[k]);
      }
    }
  }

  lemma {:induction false} KeptPlaces(slots: Slots, now: real, timeout: real)
    ensures var at, kept := Places(slots, now, timeout, false), Kept(slots, now, timeout);
            |at| == |kept| && forall k :: 0 <= k < |at| ==> at[k] < |slots| && slots[at[k]] == Some(kept[k])
  {
    if slots == [] {
    } else {
      KeptPlaces(slots[..|slots| - 1], now, timeout);
    }
  }

  lemma {:induction false} DroppedPlaces(slots: Slots, now: real, timeout: real)
    ensures var at, ids := Places(slots, now, timeout, true), Dropped(slots, now, timeout);
            && |at| == |ids|
            && forall k :: 0 <= k < |at| ==> at[k] < |slots| && slots[at[k]].Some? && slots[at[k]].value.uniq == ids[k]
  {
    if slots == [] {
    } else {
      DroppedPlaces(slots[..|slots| - 1], now, timeout);
    }
  }

  /**
   The kept clients are those at the positions of clients that have not expired, in increasing
   order, and the ids freed are those at all the other used positions, each once.
   */
  lemma ScanIsFilter(slots: Slots, now: real, timeout: real)
    ensures var at, out := Places(slots, now, timeout, false), Places(slots, now, timeout, true);
            && (forall j, k :: 0 <= j < k < |at| ==> at[j] < at[k])
            && (forall j, k :: 0 <= j < k < |out| ==> out[j] < out[k])
            && (forall i :: 0 <= i < |slots| && slots[i].Some? ==>
                  (i in at <==> !Expired(slots[i].value, now, timeout)) && (i in out <==> i !in at))
            && |Kept(slots, now, timeout)| == |at| && |Dropped(slots, now, timeout)| == |out|
            && (forall k :: 0 <= k < |at| ==> at[k] < |slots| && slots[at[k]] == Some(Kept(slots, now, timeout)[k]))
            && (forall k :: 0 <= k < |out| ==>
                  && out[k] < |slots| && slots[out[k]].Some?
                  && slots[out[k]].value.uniq == Dropped(slots, now, timeout)[k])
  {
    PlacesIncrease(slots, now, timeout, false);
    PlacesIncrease(slots, now, timeout, true);
    forall i | 0 <= i < |slots| && slots[i].Some?
      ensures i in Places(slots, now, timeout, false) <==> !Expired(slots[i].value, now, timeout)
      ensures i in Places(slots, now, timeout, true) <==> Expired(slots[i].value, now, timeout)
    {
      PlacesMember(slots, now, timeout, false, i);
      PlacesMember(slots, now, timeout, true, i);
    }
    KeptPlaces(slots, now, timeout);
    DroppedPlaces(slots, now, timeout);
  }

  lemma {:induction false} KeptMember(slots: Slots, now: real, timeout: real, c: Client)
    ensures c in Kept(slots, now, timeout) <==> Some(c) in slots && !Expired(c, now, timeout)
  {
    if slots == [] {
    } else {
      var m := |slots| - 1;
      KeptMember(slots[..m], now, timeout, c);
      assert slots == slots[..m] + [slots[m]];
    }
  }

  /** If nobody has expired, a scan of a table without holes finds everybody and frees nobody. */
  lemma {:induction false} NobodyExpired(slots: Slots, now: real, timeout: real)
    requires forall i :: 0 <= i < |slots| ==> slots[i].Some? && !Expired(slots[i].value, now, timeout)
    ensures Dropped(slots, now, timeout) == []
    ensures |Kept(slots, now, timeout)| == |slots|
    ensures forall i :: 0 <= i < |slots| ==> slots[i] == Some(Kept(slots, now, timeout)[i])
  {
    if slots == [] {
    } else {
      NobodyExpired(slots[..|slots| - 1], now, timeout);
    }
  }

  lemma {:induction false} NobodyDropped(slots: Slots, now: real, timeout: real)
    requires forall i :: 0 <= i < |slots| && slots[i].Some? ==> !Expired(slots[i].value, now, timeout)
    ensures Dropped(slots, now, timeout) == []
  {
    if slots != [] {
      NobodyDropped(slots[..|slots| - 1], now, timeout);
    }
  }

  /** Two clients that were kept come from two positions, in the same order. */
  lemma KeptPair(slots: Slots, now: real, timeout: real, j: nat, k: nat) returns (a: nat, b: nat)
    requires j < k < |Kept(slots, now, timeout)|
    ensures a < b < |slots|
    ensures slots[a] == Some(Kept(slots, now, timeout)[j]) && slots[b] == Some(Kept(slots, now, timeout)[k])
  {
    KeptPlaces(slots, now, timeout);
    PlacesIncrease(slots, now, timeout, false);
    var at := Places(slots, now, timeout, false);
    a, b := at[j], at[k];
  }

  /** A hole makes no difference to a scan. */
  lemma {:induction false} ScanSkipsHole(slots: Slots, id: nat, now: real, timeout: real)
    requires id < |slots|
    ensures Kept(slots[id := None], now, timeout) == Kept(slots[..id] + slots[id + 1..], now, timeout)
    ensures Dropped(slots[id := None], now, timeout) == Dropped(slots[..id] + slots[id + 1..], now, timeout)
  {
    var m := |slots| - 1;
    if id == m {
      assert slots[id := None][..m] == slots[..id] + slots[id + 1..];
    } else {
      ScanSkipsHole(slots[..m], id, now, timeout);
      assert slots[id := None][..m] == slots[..m][id := None];
      assert (slots[..id] + slots[id + 1..])[..m - 1] == slots[..m][..id] + slots[..m][id + 1..];
    }
  }
}
