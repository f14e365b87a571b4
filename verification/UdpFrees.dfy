/** Whom udpserver's scan takes, whom a refused send takes, and that nobody is freed twice. */
module UdpFrees {
  import opened Common
  import opened UdpTable
  import opened UdpScan
  import opened UdpSending

  // ---------- the scan, in plain terms ----------

  /** Without a timeout, or in the instant of the last scan, a scan does nothing at all. */
  lemma ScanAtRest(s: Server, now: real)
    requires s.n <= |s.slots| && (s.timeout <= 0.0 || now <= s.lastchecked)
    ensures Scan(s, now) == s
  {
  }

  /** Otherwise it keeps exactly those who have been heard of within the timeout, in order, and no holes. */
  lemma ScanKeepsTheYoung(s: Server, now: real, c: Client)
    requires Ids(s) && s.timeout > 0.0 && now > s.lastchecked
    ensures var t := Scan(s, now);
            && (Listed(t, c) <==> Listed(s, c) && now - c.lastseen <= s.timeout)
            && t.lastchecked == now && |t.slots| == |s.slots|
            && (forall i :: 0 <= i < |t.slots| ==> (t.slots[i].Some? <==> i < t.n))
            && t == s.(slots := t.slots, n := t.n, lastchecked := now, freed := t.freed)
  {
    var front := s.slots[..s.n];
    var t := Scan(s, now);
    KeptMember(front, now, s.timeout, c);
    if Listed(s, c) {
      var i :| 0 <= i < s.n && s.slots[i] == Some(c);
      assert front[i] == Some(c);
    }
    if c in Kept(front, now, s.timeout) {
      var i :| 0 <= i < |Kept(front, now, s.timeout)| && Kept(front, now, s.timeout)[i] == c;
      assert t.slots[i] == Some(c);
    }
  }

  lemma ScanKeepsOrder(s: Server, now: real, j: nat, k: nat)
    requires Ids(s) && j < k < Scan(s, now).n && s.timeout > 0.0 && now > s.lastchecked
    ensures exists a, b ::
              0 <= a < b < s.n && Scan(s, now).slots[j] == s.slots[a] && Scan(s, now).slots[k] == s.slots[b]
  {
    var a, b := KeptPair(s.slots[..s.n], now, s.timeout, j, k);
  }

  /** `x` is freed between `s` and `t`. */
  predicate FreedIn(s: Server, t: Server, x: int) { exists k :: |s.freed| <= k < |t.freed| && t.freed[k] == x }

  lemma FreedByScan(s: Server, now: real, k: nat)
    requires s.n <= |s.slots|
    ensures var t, ids := Purge(s, now), Dropped(s.slots[..s.n], now, s.timeout);
            && s.freed <= t.freed && |t.freed| == |s.freed| + |ids|
            && (k < |ids| ==> t.freed[|s.freed| + k] == ids[k])
  {
  }

  lemma OldIsFreed(s: Server, now: real, i: nat)
    requires Ids(s) && i < s.n && s.slots[i].Some? && Expired(s.slots[i].value, now, s.timeout)
    ensures FreedIn(s, Purge(s, now), s.slots[i].value.uniq)
  {
    var front := s.slots[..s.n];
    var at := Places(front, now, s.timeout, true);
    DroppedPlaces(front, now, s.timeout);
    PlacesMember(front, now, s.timeout, true, i);
    var k :| 0 <= k < |at| && at[k] == i;
    FreedByScan(s, now, k);
    assert Purge(s, now).freed[|s.freed| + k] == s.slots[i].value.uniq;
  }

  lemma FreedIsOld(s: Server, now: real, i: nat, k: nat)
    requires Ids(s) && i < s.n && s.slots[i].Some?
    requires |s.freed| <= k < |Purge(s, now).freed| && Purge(s, now).freed[k] == s.slots[i].value.uniq
    ensures Expired(s.slots[i].value, now, s.timeout)
  {
    var front := s.slots[..s.n];
    var at := Places(front, now, s.timeout, true);
    DroppedPlaces(front, now, s.timeout);
    FreedByScan(s, now, k - |s.freed|);
    var j := at[k - |s.freed|];
    PlacesMember(front, now, s.timeout, true, j);
    assert s.slots[j].value.uniq == s.slots[i].value.uniq;
  }

  /** And it frees exactly the others. */
  lemma ScanFreesTheOld(s: Server, now: real, i: nat)
    requires Ids(s) && s.timeout > 0.0 && now > s.lastchecked && i < s.n && s.slots[i].Some?
    ensures s.freed <= Scan(s, now).freed
    ensures FreedIn(s, Scan(s, now), s.slots[i].value.uniq) <==> now - s.slots[i].value.lastseen > s.timeout
  {
    FreedByScan(s, now, 0);
    if Expired(s.slots[i].value, now, s.timeout) {
      OldIsFreed(s, now, i);
    } else if FreedIn(s, Scan(s, now), s.slots[i].value.uniq) {
      var k :| |s.freed| <= k < |Purge(s, now).freed| && Purge(s, now).freed[k] == s.slots[i].value.uniq;
      FreedIsOld(s, now, i, k);
    }
  }

  // ---------- nobody is freed twice ----------

  /** Those freed between `s` and `t` were counted before and are not afterwards, and each of them is freed once. */
  predicate FreesOnce(s: Server, t: Server) {
    && s.freed <= t.freed
    && (forall k :: |s.freed| <= k < |t.freed| ==> Counted(s, t.freed[k]) && !Counted(t, t.freed[k]))
    && (forall j, k :: |s.freed| <= j < k < |t.freed| ==> t.freed[j] != t.freed[k])
  }

  lemma ShrinksCounted(s: Server, t: Server, now: real, x: int)
    requires Shrinks(s, t, now) && Counted(t, x)
    ensures Counted(s, x)
  {
    var i :| 0 <= i < t.n <= |t.slots| && t.slots[i].Some? && t.slots[i].value.uniq == x;
    assert Listed(t, t.slots[i].value);
  }

  lemma FreesOnceTwice(s: Server, t: Server, u: Server, now: real)
    requires FreesOnce(s, t) && FreesOnce(t, u) && Shrinks(s, t, now) && Shrinks(t, u, now)
    ensures FreesOnce(s, u)
  {
    forall k | |s.freed| <= k < |u.freed| ensures Counted(s, u.freed[k]) && !Counted(u, u.freed[k]) {
      if k < |t.freed| {
        assert u.freed[k] == t.freed[k];
        if Counted(u, u.freed[k]) { ShrinksCounted(t, u, now, u.freed[k]); }
      } else {
        ShrinksCounted(s, t, now, u.freed[k]);
      }
    }
    forall j, k | |s.freed| <= j < k < |u.freed| ensures u.freed[j] != u.freed[k] {
      if j < |t.freed| { assert u.freed[j] == t.freed[j]; }
      if k < |t.freed| { assert u.freed[k] == t.freed[k]; }
    }
  }

  lemma RemoveFreesOnce(s: Server, id: nat)
    requires Ids(s) && Remove(s, id).Some?
    ensures FreesOnce(s, Remove(s, id).value)
    ensures id < s.n && s.slots[id].Some? ==> FreedIn(s, Remove(s, id).value, s.slots[id].value.uniq)
  {
    var t := Remove(s, id).value;
    if id < s.n && s.slots[id].Some? {
      assert t.freed[|s.freed|] == s.slots[id].value.uniq;
    }
  }

  lemma PurgeFreesOnce(s: Server, now: real)
    requires Ids(s)
    ensures FreesOnce(s, Purge(s, now))
  {
    var front, t := s.slots[..s.n], Purge(s, now);
    var at, ids := Places(front, now, s.timeout, true), Dropped(front, now, s.timeout);
    DroppedPlaces(front, now, s.timeout);
    PlacesIncrease(front, now, s.timeout, true);
    assert forall k :: |s.freed| <= k < |t.freed| ==> t.freed[k] == ids[k - |s.freed|];
    forall k | 0 <= k < |ids| ensures Counted(s, ids[k]) && !Counted(t, ids[k]) {
      assert s.slots[at[k]].value.uniq == ids[k];
      PlacesMember(front, now, s.timeout, true, at[k]);
      OldAreGone(s, now, at[k]);
    }
  }

  lemma OldAreGone(s: Server, now: real, i: nat)
    requires Ids(s) && i < s.n && s.slots[i].Some? && Expired(s.slots[i].value, now, s.timeout)
    ensures !Counted(Purge(s, now), s.slots[i].value.uniq)
  {
    var front, t := s.slots[..s.n], Purge(s, now);
    var kept := Kept(front, now, s.timeout);
    forall j | 0 <= j < |kept| ensures kept[j].uniq != s.slots[i].value.uniq {
      KeptMember(front, now, s.timeout, kept[j]);
      var k :| 0 <= k < |front| && front[k] == Some(kept[j]);
      assert s.slots[k] == Some(kept[j]);
    }
  }

  lemma DropFreesOnce(s: Server, client: nat, now: real)
    requires Ids(s) && Drop(s, client, now).Some?
    ensures FreesOnce(s, Drop(s, client, now).value)
    ensures client < s.n ==> FreedIn(s, Drop(s, client, now).value, s.slots[client].value.uniq)
  {
    if client < s.n {
      var r := Remove(s, client).value;
      RemoveShrinks(s, client, now);
      RemoveFreesOnce(s, client);
      ScanShrinks(r, now);
      if !Quiet(r, now) {
        PurgeFreesOnce(r, now);
        FreesOnceTwice(s, r, Scan(r, now), now);
        FreedStays(s, r, Scan(r, now), s.slots[client].value.uniq);
      }
    }
  }

  lemma FreedStays(s: Server, t: Server, u: Server, x: int)
    requires FreedIn(s, t, x) && t.freed <= u.freed
    ensures FreedIn(s, u, x)
  {
    var k :| |s.freed| <= k < |t.freed| && t.freed[k] == x;
    assert u.freed[k] == x;
  }

  /** `x` is among the freed if it was sent to and refuses. */
  predicate Settles(s: Server, o: Outcome, refusing: set<int>, x: int) {
    o.Some? ==>
      FreesOnce(s, o.value.0) && (x in o.value.1 && x in refusing ==> FreedIn(s, o.value.0, x))
  }

  lemma SendOneSettles(s: Server, client: nat, refusing: set<int>, now: real, x: int)
    requires Ids(s) && client < s.n && SendOne(s, client, refusing, now).Some?
    ensures Settles(s, SendOne(s, client, refusing, now), refusing, x)
  {
    if Drop(s, client, now).Some? && s.slots[client].Some? {
      DropFreesOnce(s, client, now);
    }
  }

  lemma {:induction false} SendFromSettles(s: Server, client: nat, but: int, refusing: set<int>, now: real, x: int)
    requires Ids(s) && SendFrom(s, client, but, refusing, now).Some?
    ensures Settles(s, SendFrom(s, client, but, refusing, now), refusing, x)
    decreases s.n - client
  {
    if client < s.n {
      if client == but {
        SendFromSettles(s, client + 1, but, refusing, now, x);
      } else {
        var (t, ids) := SendOne(s, client, refusing, now).value;
        SendOneShrinks(s, client, refusing, now);
        SendOneSettles(s, client, refusing, now, x);
        SendFromSettles(t, client + 1, but, refusing, now, x);
        SendFromShrinks(t, client + 1, but, refusing, now);
        SettlesTwice(s, t, ids, SendFrom(t, client + 1, but, refusing, now), refusing, now, x);
      }
    }
  }

  lemma SettlesTwice(s: Server, t: Server, ids: seq<int>, o: Outcome, refusing: set<int>, now: real, x: int)
    requires Shrinks(s, t, now) && Settles(s, Some((t, ids)), refusing, x)
    requires o.Some? && Shrinks(t, o.value.0, now) && Settles(t, o, refusing, x)
    ensures Settles(s, Prepend(ids, o), refusing, x)
  {
    var (u, rest) := o.value;
    FreesOnceTwice(s, t, u, now);
    if x in refusing && x in ids {
      FreedStays(s, t, u, x);
    } else if x in refusing && x in rest {
      var k :| |t.freed| <= k < |u.freed| && u.freed[k] == x;
      assert FreedIn(s, u, x);
    }
  }

  lemma BroadcastSettles(s: Server, refusing: set<int>, now: real, x: int)
    requires Ids(s) && Broadcast(s, refusing, now).Some?
    ensures Settles(s, Broadcast(s, refusing, now), refusing, x)
  {
    var p := Scan(s, now);
    ScanShrinks(s, now);
    SendFromShrinks(p, 0, -1, refusing, now);
    SendFromSettles(p, 0, -1, refusing, now, x);
    if !Quiet(s, now) {
      PurgeFreesOnce(s, now);
      var (t, sent) := Broadcast(s, refusing, now).value;
      FreesOnceTwice(s, p, t, now);
      if FreedIn(p, t, x) {
        var k :| |p.freed| <= k < |t.freed| && t.freed[k] == x;
        assert FreedIn(s, t, x);
      }
    }
  }

  // ---------- the default send ----------

  lemma DefaultSendSettles(s: Server, refusing: set<int>, now: real, x: int)
    requires Ids(s) && DefaultSend(s, refusing, now).Some?
    ensures Settles(s, DefaultSend(s, refusing, now), refusing, x)
  {
    var i := IndexOf(s.slots[..s.n], if s.target > 0 then s.target else -s.target, 0);
    if s.target == 0 {
      BroadcastSettles(s, refusing, now, x);
    } else if i.value < 0 {
      BroadcastSettles(s.(target := 0), refusing, now, x);
      SameFrees(s, s.(target := 0), DefaultSend(s, refusing, now).value.0);
    } else if s.target > 0 {
      SendOneSettles(s, i.value, refusing, now, x);
    } else {
      SendFromSettles(s, 0, i.value, refusing, now, x);
    }
  }

  lemma SameFrees(s: Server, z: Server, t: Server)
    requires z.slots == s.slots && z.n == s.n && z.freed == s.freed && FreesOnce(z, t)
    ensures FreesOnce(s, t)
  {
    forall k | |s.freed| <= k < |t.freed| ensures Counted(s, t.freed[k]) {
      assert Counted(z, t.freed[k]);
    }
  }

  /** A client whose sender refuses a default send is no longer counted afterwards, and has been freed, once. */
  lemma RefusedIsDisconnected(s: Server, refusing: set<int>, now: real, x: int)
    requires Ids(s) && DefaultSend(s, refusing, now).Some?
    requires x in DefaultSend(s, refusing, now).value.1 && x in refusing
    ensures var t := DefaultSend(s, refusing, now).value.0;
            && !Counted(t, x) && s.freed <= t.freed
            && exists k :: |s.freed| <= k < |t.freed| && t.freed[k] == x
                           && forall j :: |s.freed| <= j < |t.freed| && j != k ==> t.freed[j] != x
  {
    DefaultSendSettles(s, refusing, now, x);
    var t := DefaultSend(s, refusing, now).value.0;
    var k :| |s.freed| <= k < |t.freed| && t.freed[k] == x;
  }

  lemma {:induction false} UnrefusedPass(s: Server, client: nat, but: int, refusing: set<int>, now: real)
    requires Ids(s) && SendFrom(s, client, but, refusing, now).Some?
    requires forall x :: x in SendFrom(s, client, but, refusing, now).value.1 ==> x !in refusing
    ensures SendFrom(s, client, but, refusing, now) == SendFrom(s, client, but, {}, now)
    decreases s.n - client
  {
    if client < s.n {
      if client == but {
        UnrefusedPass(s, client + 1, but, refusing, now);
      } else {
        var (t, ids) := SendOne(s, client, refusing, now).value;
        var rest := SendFrom(t, client + 1, but, refusing, now).value.1;
        assert SendFrom(s, client, but, refusing, now).value.1 == ids + rest;
        assert forall x :: x in ids ==> x in ids + rest;
        assert forall x :: x in rest ==> x in ids + rest;
        assert ids != [] ==> ids[0] in ids;
        UnrefusedPass(t, client + 1, but, refusing, now);
      }
    }
  }

  /** If nobody who is sent to refuses, the default send is one in which nobody at all refuses. */
  lemma UnrefusedSend(s: Server, refusing: set<int>, now: real)
    requires Ids(s) && DefaultSend(s, refusing, now).Some?
    requires forall x :: x in DefaultSend(s, refusing, now).value.1 ==> x !in refusing
    ensures DefaultSend(s, refusing, now) == DefaultSend(s, {}, now)
  {
    var i := IndexOf(s.slots[..s.n], if s.target > 0 then s.target else -s.target, 0);
    ScanShrinks(s, now);
    ScanShrinks(s.(target := 0), now);
    if s.target == 0 {
      UnrefusedPass(Scan(s, now), 0, -1, refusing, now);
    } else if i.value < 0 {
      UnrefusedPass(Scan(s.(target := 0), now), 0, -1, refusing, now);
    } else if s.target < 0 {
      UnrefusedPass(s, 0, i.value, refusing, now);
    } else {
      assert DefaultSend(s, refusing, now).value.1 == [s.slots[i.value].value.uniq];
      assert s.slots[i.value].value.uniq in DefaultSend(s, refusing, now).value.1;
    }
  }

  /** While no scan can run, a pass empties exactly the slots it gets to that refuse, and counts one less for each. */
  lemma {:induction false} QuietLeaves(s: Server, i: nat, but: int, refusing: set<int>, now: real, k: nat)
    requires Ids(s) && Quiet(s, now) && SendFrom(s, i, but, refusing, now).Some? && k < |s.slots|
    ensures var t := SendFrom(s, i, but, refusing, now).value.0;
            && |t.slots| == |s.slots| && s.n - t.n == |t.freed| - |s.freed|
            && t.slots[k] == if i <= k && Refuses(s, k, but, refusing) && k + Refusals(s, i, k, but, refusing) < s.n
                             then None else s.slots[k]
    decreases s.n - i
  {
    if i < s.n {
      if i == but {
        QuietLeaves(s, i + 1, but, refusing, now, k);
      } else {
        QuietTurn(s, i, but, refusing, now);
        var t := SendOne(s, i, refusing, now).value.0;
        RefusalsSame(s, t, i + 1, k, but, refusing);
        QuietLeaves(t, i + 1, but, refusing, now, k);
      }
    }
  }

  /**
   After a broadcast, which is what a default send without a target is: of the clients the scan left, exactly those are
   gone that refuse and were reached, the others are where the scan put them, and one less is counted for each gone.
   */
  lemma BroadcastLeaves(s: Server, refusing: set<int>, now: real, k: nat)
    requires Ids(s) && Dense(s) && Broadcast(s, refusing, now).Some? && k < |s.slots|
    ensures s.target == 0 ==> DefaultSend(s, refusing, now) == Broadcast(s, refusing, now)
    ensures var p, t := Scan(s, now), Broadcast(s, refusing, now).value.0;
            && |t.slots| == |p.slots| && p.n - t.n == |t.freed| - |p.freed|
            && t.slots[k] == if k + Refusals(p, 0, k, -1, refusing) < p.n && p.slots[k].value.uniq in refusing
                             then None else p.slots[k]
  {
    ScanShrinks(s, now);
    ScanDense(s, now);
    QuietLeaves(Scan(s, now), 0, -1, refusing, now, k);
  }

  /** A default send to one client: it is sent to, and disconnected exactly if it refuses. */
  lemma TargetRefuses(s: Server, b: nat, refusing: set<int>, now: real)
    requires Ids(s) && Dense(s) && b < s.n && s.target == s.slots[b].value.uniq
    ensures DefaultSend(s, refusing, now)
         == if s.target !in refusing then Some((s, [s.target]))
            else if Drop(s, b, now).None? then None
            else Some((Drop(s, b, now).value, [s.target]))
  {
    LookupExactly(s.slots[..s.n], s.target, 0);
    LookupCounted(s, s.target);
  }
}
