/** What sending does to udpserver's clients when some of their senders refuse. */
module UdpSending {
  import opened Common
  import opened UdpTable
  import opened UdpScan

  /** The ids in the counted part of the table are pairwise distinct and were handed out before. */
  predicate Ids(s: Server) {
    && s.n <= |s.slots| && s.nextUniq >= 1000
    && (forall i :: 0 <= i < s.n && s.slots[i].Some? ==> 1000 <= s.slots[i].value.uniq < s.nextUniq)
    && (forall i, j :: 0 <= i < j < s.n && s.slots[i].Some? && s.slots[j].Some? ==>
          s.slots[i].value.uniq != s.slots[j].value.uniq)
  }

  predicate Listed(s: Server, c: Client) { exists i :: 0 <= i < s.n <= |s.slots| && s.slots[i] == Some(c) }

  predicate Counted(s: Server, id: int) {
    exists i :: 0 <= i < s.n <= |s.slots| && s.slots[i].Some? && s.slots[i].value.uniq == id
  }

  /** `t` is `s` with clients lost and nothing else of interest changed, unless a scan has run. */
  ghost predicate Shrinks(s: Server, t: Server, now: real) {
    && t.n <= s.n && |t.slots| == |s.slots|
    && t.nextUniq == s.nextUniq && t.target == s.target && t.accept == s.accept && t.timeout == s.timeout
    && (forall c :: Listed(t, c) ==> Listed(s, c))
    && (t.lastchecked == s.lastchecked || Scanned(t, now, t.timeout))
  }

  /** A scan with this timeout has just run, and left nobody it should have taken. */
  ghost predicate Scanned(t: Server, now: real, timeout: real) {
    t.lastchecked == now && timeout > 0.0 && forall c :: Listed(t, c) ==> !Expired(c, now, timeout)
  }

  lemma PurgeLists(s: Server, now: real, c: Client)
    requires Ids(s) && Listed(Purge(s, now), c)
    ensures Listed(s, c) && !Expired(c, now, s.timeout)
  {
    var front := s.slots[..s.n];
    KeptMember(front, now, s.timeout, c);
    var j :| 0 <= j < |front| && front[j] == Some(c);
    assert s.slots[j] == Some(c);
  }

  lemma PurgeIds(s: Server, now: real)
    requires Ids(s)
    ensures Ids(Purge(s, now))
  {
    var t, front := Purge(s, now), s.slots[..s.n];
    forall i | 0 <= i < t.n ensures 1000 <= t.slots[i].value.uniq < t.nextUniq {
      assert Listed(t, t.slots[i].value);
      PurgeLists(s, now, t.slots[i].value);
    }
    forall i, j | 0 <= i < j < t.n ensures t.slots[i].value.uniq != t.slots[j].value.uniq {
      var a, b := KeptPair(front, now, s.timeout, i, j);
    }
  }

  lemma PurgeShrinks(s: Server, now: real)
    requires Ids(s) && s.timeout > 0.0
    ensures Ids(Purge(s, now)) && Shrinks(s, Purge(s, now), now)
  {
    PurgeIds(s, now);
    forall c | Listed(Purge(s, now), c) ensures Listed(s, c) && !Expired(c, now, s.timeout) {
      PurgeLists(s, now, c);
    }
  }

  lemma ScanShrinks(s: Server, now: real)
    requires Ids(s)
    ensures Ids(Scan(s, now)) && Shrinks(s, Scan(s, now), now)
  {
    if !Quiet(s, now) {
      PurgeShrinks(s, now);
    }
  }

  lemma RemoveShrinks(s: Server, id: nat, now: real)
    requires Ids(s) && Remove(s, id).Some?
    ensures Ids(Remove(s, id).value) && Shrinks(s, Remove(s, id).value, now)
  {
  }

  lemma DropShrinks(s: Server, client: nat, now: real)
    requires Ids(s) && Drop(s, client, now).Some?
    ensures Ids(Drop(s, client, now).value) && Shrinks(s, Drop(s, client, now).value, now)
  {
    RemoveShrinks(s, client, now);
    ScanShrinks(Remove(s, client).value, now);
  }

  lemma {:induction false} DropFromShrinks(s: Server, id: nat, now: real)
    requires Ids(s) && DropFrom(s, id, now).Some?
    ensures Ids(DropFrom(s, id, now).value) && Shrinks(s, DropFrom(s, id, now).value, now)
    decreases s.n - id
  {
    if id < s.n {
      DropShrinks(s, id, now);
      DropFromShrinks(Drop(s, id, now).value, id + 1, now);
    }
  }

  lemma SendOneShrinks(s: Server, client: nat, refusing: set<int>, now: real)
    requires Ids(s) && SendOne(s, client, refusing, now).Some?
    ensures Ids(SendOne(s, client, refusing, now).value.0) && Shrinks(s, SendOne(s, client, refusing, now).value.0, now)
  {
    if Drop(s, client, now).Some? {
      DropShrinks(s, client, now);
    }
  }

  lemma {:induction false} SendFromShrinks(s: Server, client: nat, but: int, refusing: set<int>, now: real)
    requires Ids(s) && SendFrom(s, client, but, refusing, now).Some?
    ensures var t := SendFrom(s, client, but, refusing, now).value.0; Ids(t) && Shrinks(s, t, now)
    decreases s.n - client
  {
    if client < s.n {
      if client == but {
        SendFromShrinks(s, client + 1, but, refusing, now);
      } else {
        SendOneShrinks(s, client, refusing, now);
        SendFromShrinks(SendOne(s, client, refusing, now).value.0, client + 1, but, refusing, now);
      }
    }
  }

  lemma BroadcastShrinks(s: Server, refusing: set<int>, now: real)
    requires Ids(s) && Broadcast(s, refusing, now).Some?
    ensures var t := Broadcast(s, refusing, now).value.0; Ids(t) && Shrinks(s, t, now)
  {
    ScanShrinks(s, now);
    SendFromShrinks(Scan(s, now), 0, -1, refusing, now);
  }

  // ---------- looking up a client ----------

  /** The lookup of `id` follows an empty slot exactly when there is one before any slot with that id. */
  lemma {:induction false} LookupExactly(slots: Slots, id: int, i: nat)
    requires i <= |slots|
    ensures IndexOf(slots, id, i).None? <==>
              exists h :: i <= h < |slots| && slots[h].None?
                          && forall k :: i <= k < h ==> slots[k].Some? ==> slots[k].value.uniq != id
    ensures IndexOf(slots, id, i) == Some(-1) ==>
              forall k :: i <= k < |slots| ==> slots[k].Some? && slots[k].value.uniq != id
    decreases |slots| - i
  {
    if i < |slots| {
      LookupExactly(slots, id, i + 1);
    }
  }

  lemma LookupCounted(s: Server, id: int)
    requires s.n <= |s.slots|
    ensures var i := IndexOf(s.slots[..s.n], id, 0);
            && (i.Some? && i.value >= 0 ==>
                  i.value < s.n && s.slots[i.value].Some? && s.slots[i.value].value.uniq == id)
            && (i.Some? ==> (i.value >= 0 <==> Counted(s, id)))
  {
    LookupExactly(s.slots[..s.n], id, 0);
  }

  // ---------- one pass over the clients ----------

  /** Whether the pass sends to slot `k` and is refused there. */
  predicate Refuses(s: Server, k: nat, but: int, refusing: set<int>)
    requires k < |s.slots|
  {
    k != but && s.slots[k].Some? && s.slots[k].value.uniq in refusing
  }

  /** How many of the slots from `i` to before `j` refuse. */
  function Refusals(s: Server, i: nat, j: nat, but: int, refusing: set<int>): nat
    requires j <= |s.slots|
    decreases j - i
  {
    if i >= j then 0
    else (if Refuses(s, i, but, refusing) then 1 else 0) + Refusals(s, i + 1, j, but, refusing)
  }

  predicate NoRefusal(s: Server, i: nat, j: nat, but: int, refusing: set<int>)
    requires j <= |s.slots|
  {
    forall k :: i <= k < j ==> !Refuses(s, k, but, refusing)
  }

  lemma {:induction false} RefusalsZero(s: Server, i: nat, j: nat, but: int, refusing: set<int>)
    requires j <= |s.slots|
    ensures Refusals(s, i, j, but, refusing) == 0 <==> NoRefusal(s, i, j, but, refusing)
    decreases j - i
  {
    if i < j {
      RefusalsZero(s, i + 1, j, but, refusing);
    }
  }

  lemma {:induction false} RefusalsSame(s: Server, t: Server, i: nat, j: nat, but: int, refusing: set<int>)
    requires j <= |s.slots| == |t.slots| && forall k :: i <= k < j ==> s.slots[k] == t.slots[k]
    ensures Refusals(s, i, j, but, refusing) == Refusals(t, i, j, but, refusing)
    decreases j - i
  {
    if i < j {
      RefusalsSame(s, t, i + 1, j, but, refusing);
    }
  }

  /** One turn while no scan can run: a refused send empties the slot and lowers the count. */
  lemma QuietTurn(s: Server, i: nat, but: int, refusing: set<int>, now: real)
    requires Ids(s) && Quiet(s, now) && i < s.n && i != but && SendOne(s, i, refusing, now).Some?
    ensures var (t, ids) := SendOne(s, i, refusing, now).value;
            && ids == (if s.slots[i].Some? then [s.slots[i].value.uniq] else [])
            && Ids(t) && Quiet(t, now)
            && if Refuses(s, i, but, refusing) then t.slots == s.slots[i := None] && t.n == s.n - 1 else t == s
  {
    SendOneShrinks(s, i, refusing, now);
  }

  /** While no scan can run, a pass sends only to what it finds at its slots. */
  lemma {:induction false} QuietRange(s: Server, i: nat, but: int, refusing: set<int>, now: real, x: int)
    requires Ids(s) && Quiet(s, now) && SendFrom(s, i, but, refusing, now).Some?
    requires x in SendFrom(s, i, but, refusing, now).value.1
    ensures exists k :: i <= k < s.n && k != but && s.slots[k].Some? && s.slots[k].value.uniq == x
    decreases s.n - i
  {
    if i < s.n {
      if i == but {
        QuietRange(s, i + 1, but, refusing, now, x);
      } else {
        QuietTurn(s, i, but, refusing, now);
        var (t, ids) := SendOne(s, i, refusing, now).value;
        if x in ids {
          assert s.slots[i].value.uniq == x;
        } else {
          QuietRange(t, i + 1, but, refusing, now, x);
          var k :| i + 1 <= k < t.n && k != but && t.slots[k].Some? && t.slots[k].value.uniq == x;
          assert s.slots[k] == t.slots[k];
        }
      }
    }
  }

  /**
   While no scan can run, a pass gets to slot `j` exactly when the refusals before it, each of which lowers the count
   by one, leave it in range.
   */
  lemma {:induction false} QuietReach(s: Server, i: nat, but: int, refusing: set<int>, now: real, j: nat)
    requires Ids(s) && Quiet(s, now) && SendFrom(s, i, but, refusing, now).Some?
    requires i <= j < s.n && j != but && s.slots[j].Some?
    ensures s.slots[j].value.uniq in SendFrom(s, i, but, refusing, now).value.1
       <==> j + Refusals(s, i, j, but, refusing) < s.n
    decreases s.n - i
  {
    var x := s.slots[j].value.uniq;
    if i == but {
      QuietReach(s, i + 1, but, refusing, now, j);
    } else {
      QuietTurn(s, i, but, refusing, now);
      var (t, ids) := SendOne(s, i, refusing, now).value;
      if i < j {
        assert x !in ids;
        RefusalsSame(s, t, i + 1, j, but, refusing);
        if j < t.n {
          QuietReach(t, i + 1, but, refusing, now, j);
        } else {
          QuietMiss(s, t, i, but, refusing, now, j);
        }
      }
    }
  }

  /** The slot at the old end is out of range after a refusal. */
  lemma QuietMiss(s: Server, t: Server, i: nat, but: int, refusing: set<int>, now: real, j: nat)
    requires Ids(s) && i < j == s.n - 1 && s.slots[j].Some?
    requires Ids(t) && Quiet(t, now) && t.n == s.n - 1 && t.slots == s.slots[i := None]
    requires SendFrom(t, i + 1, but, refusing, now).Some?
    ensures s.slots[j].value.uniq !in SendFrom(t, i + 1, but, refusing, now).value.1
  {
    var x := s.slots[j].value.uniq;
    if x in SendFrom(t, i + 1, but, refusing, now).value.1 {
      QuietRange(t, i + 1, but, refusing, now, x);
    }
  }

  /** While no scan can run, a pass over a table with a slot to spare stays in it. */
  lemma {:induction false} QuietWithin(s: Server, i: nat, but: int, refusing: set<int>, now: real)
    requires Ids(s) && Quiet(s, now) && s.n < |s.slots|
    ensures SendFrom(s, i, but, refusing, now).Some?
    decreases s.n - i
  {
    if i < s.n {
      if i == but {
        QuietWithin(s, i + 1, but, refusing, now);
      } else {
        QuietTurn(s, i, but, refusing, now);
        QuietWithin(SendOne(s, i, refusing, now).value.0, i + 1, but, refusing, now);
      }
    }
  }

  /** While no scan can run, a pass leaves the table only when it is full and just its last client refuses. */
  lemma {:induction false} QuietOverrun(s: Server, i: nat, but: int, refusing: set<int>, now: real)
    requires Ids(s) && Quiet(s, now) && i <= s.n
    ensures SendFrom(s, i, but, refusing, now).None?
       <==> && i < s.n == |s.slots| && Refuses(s, s.n - 1, but, refusing)
            && NoRefusal(s, i, s.n - 1, but, refusing)
    decreases s.n - i
  {
    if s.n < |s.slots| {
      QuietWithin(s, i, but, refusing, now);
    } else if i < s.n {
      if i == but || !Refuses(s, i, but, refusing) {
        QuietOverrun(s, i + 1, but, refusing, now);
      } else if i < s.n - 1 {
        QuietTurn(s, i, but, refusing, now);
        QuietWithin(SendOne(s, i, refusing, now).value.0, i + 1, but, refusing, now);
      }
    }
  }

  // ---------- a broadcast ----------

  /** A broadcast that runs to its end reaches every client left by the scan exactly when none but the last refuses. */
  lemma BroadcastReachesAll(s: Server, refusing: set<int>, now: real)
    requires Ids(s) && Dense(s) && Broadcast(s, refusing, now).Some?
    ensures var t, sent := Scan(s, now), Broadcast(s, refusing, now).value.1;
            (forall i :: 0 <= i < t.n ==> t.slots[i].value.uniq in sent)
            <==> forall i :: 0 <= i < t.n - 1 ==> t.slots[i].value.uniq !in refusing
  {
    ScanShrinks(s, now);
    ScanDense(s, now);
    var t, sent := Scan(s, now), Broadcast(s, refusing, now).value.1;
    if forall i :: 0 <= i < t.n - 1 ==> t.slots[i].value.uniq !in refusing {
      forall i | 0 <= i < t.n ensures t.slots[i].value.uniq in sent {
        QuietReach(t, 0, -1, refusing, now, i);
        RefusalsZero(t, 0, i, -1, refusing);
      }
    } else {
      QuietReach(t, 0, -1, refusing, now, t.n - 1);
      RefusalsZero(t, 0, t.n - 1, -1, refusing);
      var i :| 0 <= i < t.n - 1 && t.slots[i].value.uniq in refusing;
      assert Refuses(t, i, -1, refusing);
    }
  }

  /** It reads beyond the table exactly when the scan leaves it full and only the last client refuses. */
  lemma BroadcastOverruns(s: Server, refusing: set<int>, now: real)
    requires Ids(s) && Dense(s)
    ensures var t := Scan(s, now);
            Broadcast(s, refusing, now).None?
            <==> && 0 < t.n == |t.slots| && t.slots[t.n - 1].value.uniq in refusing
                 && forall i :: 0 <= i < t.n - 1 ==> t.slots[i].value.uniq !in refusing
  {
    ScanShrinks(s, now);
    ScanDense(s, now);
    var t := Scan(s, now);
    QuietOverrun(t, 0, -1, refusing, now);
    assert forall i :: 0 <= i < t.n ==> (Refuses(t, i, -1, refusing) <==> t.slots[i].value.uniq in refusing);
  }

  // ---------- all but one ----------

  lemma {:induction false} NoRefusalPass(s: Server, i: nat, but: int, refusing: set<int>, now: real, x: int)
    requires Ids(s) && NoRefusal(s, i, s.n, but, refusing)
    ensures SendFrom(s, i, but, refusing, now).Some? && SendFrom(s, i, but, refusing, now).value.0 == s
    ensures x in SendFrom(s, i, but, refusing, now).value.1 ==>
              exists k :: i <= k < s.n && k != but && s.slots[k].Some? && s.slots[k].value.uniq == x
    decreases s.n - i
  {
    if i < s.n {
      assert !Refuses(s, i, but, refusing);
      NoRefusalPass(s, i + 1, but, refusing, now, x);
    }
  }

  /** A pass with its first refusal at `c` sends to all that the pass from there on sends to. */
  lemma {:induction false} RestIsSent(s: Server, i: nat, c: nat, but: int, refusing: set<int>, now: real, x: int)
    requires Ids(s) && i <= c < s.n && NoRefusal(s, i, c, but, refusing) && Refuses(s, c, but, refusing)
    requires SendFrom(s, i, but, refusing, now).Some?
    ensures Drop(s, c, now).Some? && SendFrom(Drop(s, c, now).value, c + 1, but, refusing, now).Some?
    ensures x in SendFrom(Drop(s, c, now).value, c + 1, but, refusing, now).value.1 ==>
              x in SendFrom(s, i, but, refusing, now).value.1
    decreases c - i
  {
    if i < c {
      assert !Refuses(s, i, but, refusing);
      RestIsSent(s, i + 1, c, but, refusing, now, x);
    }
  }

  /** And, besides, only to what it finds up to there. */
  lemma {:induction false} UntilRefusal(s: Server, i: nat, c: nat, but: int, refusing: set<int>, now: real, x: int)
    requires Ids(s) && i <= c < s.n && NoRefusal(s, i, c, but, refusing) && Refuses(s, c, but, refusing)
    requires SendFrom(s, i, but, refusing, now).Some? && x in SendFrom(s, i, but, refusing, now).value.1
    ensures Drop(s, c, now).Some? && SendFrom(Drop(s, c, now).value, c + 1, but, refusing, now).Some?
    ensures || x in SendFrom(Drop(s, c, now).value, c + 1, but, refusing, now).value.1
            || exists k :: i <= k <= c && k != but && s.slots[k].Some? && s.slots[k].value.uniq == x
    decreases c - i
  {
    RestIsSent(s, i, c, but, refusing, now, x);
    if i < c {
      assert !Refuses(s, i, but, refusing);
      if i == but || s.slots[i].None? || s.slots[i].value.uniq != x {
        UntilRefusal(s, i + 1, c, but, refusing, now, x);
      }
    }
  }

  /** The first refusal of a pass is in slot `c`, and removing that client stays in the table. */
  predicate RefusedAt(s: Server, c: nat, but: int, refusing: set<int>, now: real)
    requires s.n <= |s.slots|
  {
    c < s.n && NoRefusal(s, 0, c, but, refusing) && Refuses(s, c, but, refusing) && Drop(s, c, now).Some?
  }

  /**
   The client in slot `but` moves under the pass that is to leave it out: the pass is refused at `c`, the scan that
   follows runs and moves it to slot `p` ahead of the pass, and the pass gets there.
   */
  predicate MovesUnder(s: Server, but: nat, refusing: set<int>, now: real, c: nat, p: nat)
    requires but < s.n <= |s.slots| && s.slots[but].Some?
  {
    && !Quiet(s, now)
    && RefusedAt(s, c, but, refusing, now)
    && GetsTo(Drop(s, c, now).value, c + 1, but, refusing, s.slots[but].value.uniq, p)
  }

  /** Client `x` is in slot `p`, and a pass that goes on at slot `i` gets there. */
  predicate GetsTo(t: Server, i: nat, but: int, refusing: set<int>, x: int, p: nat)
    requires t.n <= |t.slots|
  {
    && i <= p < t.n && p != but && t.slots[p].Some? && t.slots[p].value.uniq == x
    && p + Refusals(t, i, p, but, refusing) < t.n
  }

  ghost predicate Strays(s: Server, but: nat, refusing: set<int>, now: real)
    requires but < s.n <= |s.slots| && s.slots[but].Some?
  {
    exists c: nat, p: nat :: MovesUnder(s, but, refusing, now, c, p)
  }

  /** While no scan can run, whoever is sent to is in a slot the pass gets to. */
  lemma QuietPlace(t: Server, i: nat, but: int, refusing: set<int>, now: real, x: int) returns (p: nat)
    requires Ids(t) && Quiet(t, now) && SendFrom(t, i, but, refusing, now).Some?
    requires x in SendFrom(t, i, but, refusing, now).value.1
    ensures GetsTo(t, i, but, refusing, x, p)
  {
    QuietRange(t, i, but, refusing, now, x);
    p :| i <= p < t.n && p != but && t.slots[p].Some? && t.slots[p].value.uniq == x;
    QuietReach(t, i, but, refusing, now, p);
  }

  lemma SentAfterRefusal(s: Server, but: nat, refusing: set<int>, now: real, c: nat)
    requires Ids(s) && but < s.n && s.slots[but].Some?
    requires c < s.n && NoRefusal(s, 0, c, but, refusing) && Refuses(s, c, but, refusing)
    requires SendFrom(s, 0, but, refusing, now).Some?
    requires s.slots[but].value.uniq in SendFrom(s, 0, but, refusing, now).value.1
    ensures RefusedAt(s, c, but, refusing, now)
    ensures SendFrom(Drop(s, c, now).value, c + 1, but, refusing, now).Some?
    ensures s.slots[but].value.uniq in SendFrom(Drop(s, c, now).value, c + 1, but, refusing, now).value.1
  {
    UntilRefusal(s, 0, c, but, refusing, now, s.slots[but].value.uniq);
  }

  lemma PlaceIsSentTo(t: Server, i: nat, but: int, refusing: set<int>, now: real, x: int, p: nat)
    requires Ids(t) && Quiet(t, now) && SendFrom(t, i, but, refusing, now).Some?
    requires GetsTo(t, i, but, refusing, x, p)
    ensures x in SendFrom(t, i, but, refusing, now).value.1
  {
    QuietReach(t, i, but, refusing, now, p);
  }

  lemma AfterDrop(s: Server, c: nat, now: real)
    requires Ids(s) && c < s.n && Drop(s, c, now).Some?
    ensures Ids(Drop(s, c, now).value) && Quiet(Drop(s, c, now).value, now)
  {
    DropShrinks(s, c, now);
  }

  lemma MovedIsReached(s: Server, but: nat, refusing: set<int>, now: real, c: nat, p: nat)
    requires Ids(s) && but < s.n && s.slots[but].Some? && MovesUnder(s, but, refusing, now, c, p)
    requires SendFrom(Drop(s, c, now).value, c + 1, but, refusing, now).Some?
    ensures s.slots[but].value.uniq in SendFrom(Drop(s, c, now).value, c + 1, but, refusing, now).value.1
  {
    AfterDrop(s, c, now);
    PlaceIsSentTo(Drop(s, c, now).value, c + 1, but, refusing, now, s.slots[but].value.uniq, p);
  }

  lemma MovedSentTo(s: Server, but: nat, refusing: set<int>, now: real, c: nat, p: nat)
    requires Ids(s) && but < s.n && s.slots[but].Some? && SendFrom(s, 0, but, refusing, now).Some?
    requires MovesUnder(s, but, refusing, now, c, p)
    ensures s.slots[but].value.uniq in SendFrom(s, 0, but, refusing, now).value.1
  {
    RestIsSent(s, 0, c, but, refusing, now, s.slots[but].value.uniq);
    MovedIsReached(s, but, refusing, now, c, p);
  }

  lemma SentToMoved(s: Server, but: nat, refusing: set<int>, now: real, c: nat) returns (p: nat)
    requires Ids(s) && but < s.n && s.slots[but].Some? && !Quiet(s, now) && RefusedAt(s, c, but, refusing, now)
    requires SendFrom(Drop(s, c, now).value, c + 1, but, refusing, now).Some?
    requires s.slots[but].value.uniq in SendFrom(Drop(s, c, now).value, c + 1, but, refusing, now).value.1
    ensures MovesUnder(s, but, refusing, now, c, p)
  {
    AfterDrop(s, c, now);
    p := QuietPlace(Drop(s, c, now).value, c + 1, but, refusing, now, s.slots[but].value.uniq);
  }

  lemma FirstRefusal(s: Server, i: nat, but: int, refusing: set<int>) returns (c: nat)
    requires s.n <= |s.slots| && i <= s.n
    ensures i <= c <= s.n && NoRefusal(s, i, c, but, refusing) && (c < s.n ==> Refuses(s, c, but, refusing))
    decreases s.n - i
  {
    if i == s.n || Refuses(s, i, but, refusing) {
      c := i;
    } else {
      c := FirstRefusal(s, i + 1, but, refusing);
    }
  }

  /** A pass to all but one client sends to that client exactly when it moves under the pass. */
  lemma ExcludedExactly(s: Server, but: nat, refusing: set<int>, now: real)
    requires Ids(s) && but < s.n && s.slots[but].Some? && SendFrom(s, 0, but, refusing, now).Some?
    ensures s.slots[but].value.uniq in SendFrom(s, 0, but, refusing, now).value.1 <==> Strays(s, but, refusing, now)
  {
    if Strays(s, but, refusing, now) {
      var c: nat, p: nat :| MovesUnder(s, but, refusing, now, c, p);
      MovedSentTo(s, but, refusing, now, c, p);
    }
    var x := s.slots[but].value.uniq;
    if x in SendFrom(s, 0, but, refusing, now).value.1 {
      var c := FirstRefusal(s, 0, but, refusing);
      if c == s.n {
        NoRefusalPass(s, 0, but, refusing, now, x);
      } else if Quiet(s, now) {
        QuietRange(s, 0, but, refusing, now, x);
      } else {
        SentAfterRefusal(s, but, refusing, now, c);
        var p := SentToMoved(s, but, refusing, now, c);
      }
    }
  }
}
