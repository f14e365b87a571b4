/** What udpserver_sender_remove leaves behind, since it empties a slot where it is meant to close the gap. */
module UdpHoles {
  import opened Common
  import opened UdpTable
  import opened UdpScan
  import opened UdpSending
  import opened UdpRuns

  /** What udpserver_sender_remove is meant to do: shift the rest to the left. */
  function Shifted(slots: Slots, id: nat): Slots
    requires id < |slots|
  {
    slots[..id] + slots[id + 1..] + [None]
  }

  /** A removal stays inside the table unless the table is full and its last client is to go. */
  lemma RemoveOverruns(s: Server, id: nat)
    requires Dense(s)
    ensures Remove(s, id).None? <==> id == s.n - 1 && s.n == |s.slots|
  {
  }

  /** The loop as written removes like a sequence exactly when it is asked for the last client. */
  lemma RemoveShiftsOnlyAtTheEnd(s: Server, id: nat)
    requires Dense(s) && id < s.n && Remove(s, id).Some?
    ensures Remove(s, id).value.slots == Shifted(s.slots, id) <==> id == s.n - 1
    ensures Dense(Remove(s, id).value) <==> id == s.n - 1
  {
    var r := Remove(s, id).value.slots;
    if id == s.n - 1 {
      assert r == Shifted(s.slots, id);
    } else {
      assert r[id].None? && Shifted(s.slots, id)[id] == s.slots[id + 1];
    }
  }

  // ---------- the client that gets lost ----------

  /** The table without the client at `id` and without the last one. */
  function Others(s: Server, id: nat): Slots
    requires id < s.n - 1 < |s.slots|
  {
    s.slots[..id] + s.slots[id + 1..s.n - 1]
  }

  lemma OthersAreOthers(s: Server, id: nat, k: nat)
    requires Dense(s) && Ids(s) && id < s.n - 1 && k < |Others(s, id)|
    ensures Others(s, id)[k].Some? && Others(s, id)[k].value.uniq != s.slots[s.n - 1].value.uniq
  {
    var i := if k < id then k else k + 1;
    assert Others(s, id)[k] == s.slots[i];
  }

  lemma RemoveThenScan(s: Server, id: nat, now: real)
    requires Dense(s) && id < s.n - 1
    ensures var p := Purge(Remove(s, id).value, now);
            && p.slots == Pack(Kept(Others(s, id), now, s.timeout), |s.slots|)
            && p.n == |Kept(Others(s, id), now, s.timeout)|
            && p.freed == s.freed + [s.slots[id].value.uniq] + Dropped(Others(s, id), now, s.timeout)
  {
    var r := Remove(s, id).value;
    var front := s.slots[..s.n - 1];
    assert r.slots[..r.n] == front[id := None];
    assert front[..id] + front[id + 1..] == Others(s, id);
    ScanSkipsHole(front, id, now, s.timeout);
  }

  /**
   Removing a client that is not the last one, followed by a scan: the table is the filter of the
   others without the old last client, which is in no slot any more and was never freed.
   */
  lemma RemoveLosesLastClient(s: Server, id: nat, now: real)
    requires Dense(s) && Ids(s) && id < s.n - 1
    ensures var p := Purge(Remove(s, id).value, now);
            && p.slots == Pack(Kept(Others(s, id), now, s.timeout), |s.slots|)
            && p.freed == s.freed + [s.slots[id].value.uniq] + Dropped(Others(s, id), now, s.timeout)
            && !Counted(p, s.slots[s.n - 1].value.uniq)
            && s.slots[s.n - 1].value.uniq !in [s.slots[id].value.uniq] + Dropped(Others(s, id), now, s.timeout)
  {
    var others, lost := Others(s, id), s.slots[s.n - 1].value.uniq;
    RemoveThenScan(s, id, now);
    forall c | c in Kept(others, now, s.timeout) ensures c.uniq != lost {
      KeptMember(others, now, s.timeout, c);
      var k :| 0 <= k < |others| && others[k] == Some(c);
      OthersAreOthers(s, id, k);
    }
    DroppedPlaces(others, now, s.timeout);
    var at, ids := Places(others, now, s.timeout, true), Dropped(others, now, s.timeout);
    forall k | 0 <= k < |ids| ensures ids[k] != lost {
      OthersAreOthers(s, id, at[k]);
    }
  }

  // ---------- the hole that stays ----------

  /**
   With no scan to follow, as with the timeout of a new server, a removal before the last client leaves a hole. From
   then on the lookup of a client follows it exactly when the client is not in front of it, and so does a default
   send aimed at such a client; choosing a target follows it exactly when the hole is what is chosen.
   */
  lemma HoleIsFollowed(s: Server, id: nat, now: real)
    requires Dense(s) && Ids(s) && Quiet(s, now) && id < s.n - 1
    ensures Drop(s, id, now) == Remove(s, id) && Remove(s, id).Some?
    ensures var r := Remove(s, id).value;
            && (forall uniq :: IndexOf(r.slots[..r.n], uniq, 0).None? <==> Behind(s, id, uniq))
            && (forall raw :: SetTarget(r, raw).None? <==> Abs(raw) == id + 1)
            && (r.target != 0 && Behind(s, id, Abs(r.target)) ==>
                  forall refusing :: DefaultSend(r, refusing, now).None?)
  {
    var r := Remove(s, id).value;
    forall uniq ensures IndexOf(r.slots[..r.n], uniq, 0).None? <==> Behind(s, id, uniq) {
      HoleLookup(s, r.slots[..r.n], id, uniq);
    }
  }

  lemma HoleLookup(s: Server, front: Slots, id: nat, uniq: int)
    requires Dense(s) && id < s.n - 1 && front == s.slots[..s.n - 1][id := None]
    ensures IndexOf(front, uniq, 0).None? <==> Behind(s, id, uniq)
  {
    assert forall k :: 0 <= k < |front| ==> front[k] == if k == id then None else s.slots[k];
    LookupExactly(front, uniq, 0);
    if Behind(s, id, uniq) {
      assert front[id].None?;
    } else {
      var k :| 0 <= k < id && s.slots[k].value.uniq == uniq;
      assert front[k].Some?;
    }
  }

  /** No client in front of slot `id` has this id. */
  predicate Behind(s: Server, id: nat, uniq: int)
    requires Dense(s) && id < s.n
  {
    forall k :: 0 <= k < id ==> s.slots[k].value.uniq != uniq
  }

  lemma {:induction false} FindStopsAtHole(slots: Slots, host: int, port: int, i: nat, hole: nat)
    requires i <= hole < |slots| && slots[hole].None?
    requires forall k :: i <= k < hole ==> !At(slots[k], host, port)
    ensures Find(slots, host, port, i) == -1
    decreases hole - i
  {
    if i < hole {
      FindStopsAtHole(slots, host, port, i + 1, hole);
    }
  }

  /**
   Without a scan in between, a packet from a client behind the hole is not recognised: its address
   is registered a second time, in the slot of the old last client, which is lost without being freed.
   */
  lemma HoleBreeds(w: World, id: nat, k: nat)
    requires Inv(w) && w.s.accept && id < k < w.s.n - 1
    ensures var s, last := w.s, w.s.n - 1;
            var c := s.slots[k].value;
            Add(Remove(s, id).value, c.host, c.port, w.now).0
            == s.(slots := s.slots[id := None][last := Some(Client(s.nextUniq, c.host, c.port, w.now))],
                  nextUniq := s.nextUniq + 1, freed := s.freed + [s.slots[id].value.uniq])
  {
    var c, r := w.s.slots[k].value, Remove(w.s, id).value;
    forall j | 0 <= j < id ensures !At(r.slots[..r.n][j], c.host, c.port) {
      assert Different(w.s.slots[j].value, c);
    }
    FindStopsAtHole(r.slots[..r.n], c.host, c.port, 0, id);
  }

  // ---------- removing everybody ----------

  /** What the removal of the clients from slot `a` to before slot `k` leaves. */
  predicate Emptied(s: Server, t: Server, a: nat, k: nat)
    requires Dense(s) && a <= k <= s.n
  {
    && t.n == s.n - (k - a) && |t.slots| == |s.slots| && t.timeout == s.timeout && t.lastchecked == s.lastchecked
    && (forall i :: 0 <= i < |s.slots| ==> t.slots[i] == if a <= i < k then None else s.slots[i])
    && t.freed == s.freed + Uniqs(s, a, k)
  }

  /** From slot `a` on, every removal brings the index and the count one nearer to each other. */
  lemma {:induction false} DropFromHalf(s: Server, t: Server, a: nat, k: nat, now: real)
    requires Dense(s) && Quiet(s, now) && a <= k && 2 * k <= s.n + a + 1 && a <= s.n
    requires k <= s.n && Emptied(s, t, a, k) && !(s.n == a + 1 == |s.slots|)
    ensures (s.n + a + 1) / 2 <= s.n
    ensures DropFrom(t, k, now).Some? && Emptied(s, DropFrom(t, k, now).value, a, (s.n + a + 1) / 2)
    decreases s.n - k
  {
    if k < t.n {
      var u := Drop(t, k, now);
      assert u.Some? && Uniqs(s, a, k + 1) == Uniqs(s, a, k) + [s.slots[k].value.uniq];
      Regroup(s.freed, Uniqs(s, a, k), [s.slots[k].value.uniq]);
      DropFromHalf(s, u.value, a, k + 1, now);
    }
  }

  /**
   With no scan to run, udpserver_disconnect_all frees the first half of the clients, rounded up. The count then
   covers nothing but holes, and the others, if there are any, are in slots nobody looks at.
   */
  lemma DisconnectAllFreesHalf(s: Server, now: real)
    requires Dense(s) && Quiet(s, now)
    ensures DropFrom(s, 0, now).None? <==> s.n == 1 == |s.slots|
    ensures DropFrom(s, 0, now).Some? ==>
              var t, half := DropFrom(s, 0, now).value, (s.n + 1) / 2;
              && t.n == s.n / 2 && t.freed == s.freed + Uniqs(s, 0, half)
              && (forall i :: 0 <= i < t.n ==> t.slots[i].None?)
              && (forall i :: half <= i < s.n ==> t.slots[i] == s.slots[i] && t.slots[i].Some?)
  {
    assert s.freed + Uniqs(s, 0, 0) == s.freed;
    if !(s.n == 1 == |s.slots|) {
      DropFromHalf(s, s, 0, 0, now);
    }
  }

  /**
   With a scan to run, it runs after the first removal and puts the others, without the old last client and the expired
   ones, one after the other from slot 0 on. The first of them is then never looked at again and stays; of the rest,
   the first half is freed, rounded up.
   */
  lemma DisconnectAllWithScan(s: Server, now: real)
    requires Dense(s) && !Quiet(s, now) && s.n >= 2
    ensures Remove(s, 0).Some? && DropFrom(s, 0, now).Some?
    ensures var p, t := Purge(Remove(s, 0).value, now), DropFrom(s, 0, now).value;
            && Dense(p)
            && (p.n == 0 ==> t == p)
            && (p.n > 0 ==>
                  && t.n == (p.n + 1) / 2 && t.freed == p.freed + Uniqs(p, 1, p.n / 2 + 1)
                  && t.slots[0] == p.slots[0]
                  && (forall i :: 1 <= i < p.n / 2 + 1 ==> t.slots[i].None?)
                  && (forall i :: p.n / 2 + 1 <= i < p.n ==> t.slots[i] == p.slots[i]))
  {
    var p := Purge(Remove(s, 0).value, now);
    ScanDense(Remove(s, 0).value, now);
    assert Drop(s, 0, now) == Some(p);
    if p.n > 0 {
      assert p.freed + Uniqs(p, 1, 1) == p.freed;
      DropFromHalf(p, p, 1, 1, now);
    }
  }

  /** A single client goes, if there is another slot; without clients nothing happens, not even a scan. */
  lemma DisconnectAllOfOne(s: Server, now: real)
    requires Dense(s) && s.n <= 1
    ensures DropFrom(s, 0, now).None? <==> s.n == 1 == |s.slots|
    ensures s.n == 0 ==> DropFrom(s, 0, now) == Some(s)
    ensures s.n == 1 < |s.slots| ==>
              var t := DropFrom(s, 0, now).value;
              && t.n == 0 && t.freed == s.freed + [s.slots[0].value.uniq]
              && forall i :: 0 <= i < |t.slots| ==> t.slots[i].None?
  {
    if s.n == 1 < |s.slots| {
      var r := Remove(s, 0).value;
      assert r.slots[..0] == [];
    }
  }

  // ---------- the excluded client that is sent to ----------

  /** The scan after the first client has been refused moves everybody but the old last client one to the left. */
  lemma FirstRefused(w: World, t: Server)
    requires Inv(w) && w.s.n >= 2 && !Quiet(w.s, w.now) && Drop(w.s, 0, w.now) == Some(t)
    requires forall i :: 0 <= i < w.s.n ==> !Expired(w.s.slots[i].value, w.now, w.s.timeout)
    ensures t.n == w.s.n - 2 && forall i :: 0 <= i < t.n ==> t.slots[i] == w.s.slots[i + 1]
  {
    var others := Others(w.s, 0);
    RemoveThenScan(w.s, 0, w.now);
    assert forall i :: 0 <= i < |others| ==> others[i] == w.s.slots[i + 1];
    NobodyExpired(others, w.now, w.s.timeout);
  }

  lemma LookupFinds(s: Server, b: nat)
    requires Dense(s) && Ids(s) && b < s.n
    ensures IndexOf(s.slots[..s.n], s.slots[b].value.uniq, 0) == Some(b)
  {
    LookupExactly(s.slots[..s.n], s.slots[b].value.uniq, 0);
    LookupCounted(s, s.slots[b].value.uniq);
  }

  lemma FirstRefusedMoves(w: World, b: nat, refusing: set<int>)
    requires Inv(w) && 2 <= b < w.s.n - 1 && !Quiet(w.s, w.now) && refusing == {w.s.slots[0].value.uniq}
    requires forall i :: 0 <= i < w.s.n ==> !Expired(w.s.slots[i].value, w.now, w.s.timeout)
    ensures SendFrom(w.s, 0, b, refusing, w.now).Some? && MovesUnder(w.s, b, refusing, w.now, 0, b - 1)
  {
    var s := w.s;
    InvIds(w);
    var t := Drop(s, 0, w.now).value;
    DropShrinks(s, 0, w.now);
    FirstRefused(w, t);
    QuietWithin(t, 1, b, refusing, w.now);
    RefusalsZero(t, 1, b - 1, b, refusing);
    assert Refuses(s, 0, b, refusing);
  }

  /**
   A send to all but the client in slot `b` does reach that client if the first client refuses, a scan can run, nobody
   has expired, and `b` is neither one of the first two slots nor the last one.
   */
  lemma ExcludedIsSentTo(w: World, b: nat)
    requires Inv(w) && 2 <= b < w.s.n - 1 && w.s.target == -w.s.slots[b].value.uniq && !Quiet(w.s, w.now)
    requires forall i :: 0 <= i < w.s.n ==> !Expired(w.s.slots[i].value, w.now, w.s.timeout)
    ensures var o := DefaultSend(w.s, {w.s.slots[0].value.uniq}, w.now);
            o.Some? && w.s.slots[b].value.uniq in o.value.1
  {
    var refusing := {w.s.slots[0].value.uniq};
    InvIds(w);
    LookupFinds(w.s, b);
    FirstRefusedMoves(w, b, refusing);
    ExcludedExactly(w.s, b, refusing, w.now);
  }

  // ---------- such a run ----------

  /** The slots after clients from the ports 1 to `n` have been heard of at time 0. */
  function Heard(n: nat): World
    requires n <= MAX_CONNECT
  {
    Init(1000, 0.0).(s := Init(1000, 0.0).s.(slots := Pack(Newcomers(n), MAX_CONNECT), n := n, nextUniq := 1000 + n))
  }

  function Newcomers(n: nat): seq<Client> { seq(n, i => Client(1000 + i, 1, i + 1, 0.0)) }

  lemma HeardNext(n: nat)
    requires n < MAX_CONNECT
    ensures Step(Heard(n), Receive(1, n + 1)) == Some(Heard(n + 1))
  {
    var s := Heard(n).s;
    FindInRange(s.slots[..n], 1, n + 1, 0);
    assert s.slots[n := Some(Client(1000 + n, 1, n + 1, 0.0))] == Pack(Newcomers(n + 1), MAX_CONNECT);
  }

  function Packets(n: nat, m: nat): seq<Event>
    decreases m - n
  {
    if n >= m then [] else [Receive(1, n + 1)] + Packets(n + 1, m)
  }

  lemma {:induction false} HeardRun(n: nat, m: nat)
    requires n <= m <= MAX_CONNECT
    ensures Run(Heard(n), Packets(n, m), Heard(m)) && AllCalm(Packets(n, m))
    decreases m - n
  {
    if n < m {
      HeardNext(n);
      HeardRun(n + 1, m);
      FirstStep(Heard(n), Receive(1, n + 1), Heard(n + 1), Packets(n + 1, m), Heard(m));
    }
  }

  lemma FirstStep(w: World, e: Event, m: World, es: seq<Event>, w': World)
    requires w.s.n <= |w.s.slots| && Legal(e) && Step(w, e) == Some(m) && Run(m, es, w')
    ensures Run(w, [e] + es, w')
  {
    assert ([e] + es)[1..] == es;
  }

  lemma {:induction false} RunOn(w: World, es: seq<Event>, m: World, fs: seq<Event>, w': World)
    requires w.s.n <= |w.s.slots| && Run(w, es, m) && Run(m, fs, w')
    ensures Run(w, es + fs, w')
    decreases |es|
  {
    if es == [] {
      assert es + fs == fs;
    } else {
      RunOn(Step(w, es[0]).value, es[1..], m, fs, w');
      FirstStep(w, es[0], Step(w, es[0]).value, es[1..] + fs, w');
      assert [es[0]] + (es[1..] + fs) == es + fs;
    }
  }

  /** Four clients, the third excluded, a timeout of 100 and one unit of time later. */
  function Prepared(): World {
    var h := Heard(4);
    World(h.s.(target := -1002, timeout := 100.0), 1.0, 0.0)
  }

  lemma PreparedTail() returns (es: seq<Event>)
    ensures Run(Heard(4), es, Prepared()) && AllCalm(es)
  {
    var h := Heard(4);
    var w1 := h.(s := h.s.(target := -1002));
    var w2 := w1.(s := w1.s.(timeout := 100.0));
    assert h.s.slots[2] == Some(Client(1002, 1, 3, 0.0));
    assert Step(h, Target(-3)) == Some(w1);
    Last(w2, Elapse(1.0), Prepared());
    FirstStep(w1, Timeout(100.0), w2, [Elapse(1.0)], Prepared());
    es := [Target(-3)] + ([Timeout(100.0)] + [Elapse(1.0)]);
    FirstStep(h, Target(-3), w1, [Timeout(100.0)] + [Elapse(1.0)], Prepared());
  }

  lemma PreparedRun() returns (es: seq<Event>)
    ensures Run(Init(1000, 0.0), es, Prepared()) && Inv(Prepared())
  {
    HeardRun(0, 4);
    RunKeepsInv(Heard(0), Packets(0, 4), Heard(4));
    var tail := PreparedTail();
    RunKeepsInv(Heard(4), tail, Prepared());
    es := Packets(0, 4) + tail;
    RunOn(Heard(0), Packets(0, 4), Heard(4), tail, Prepared());
    assert Heard(0) == Init(1000, 0.0);
  }

  /** In a run: the first of them refuses, and the third is sent to. */
  lemma ExcludedIsSentToInARun()
    ensures exists es, w :: Run(Init(1000, 0.0), es, w) && w.s.target == -1002
              && DefaultSend(w.s, {1000}, w.now).Some? && 1002 in DefaultSend(w.s, {1000}, w.now).value.1
  {
    var es := PreparedRun();
    var w := Prepared();
    assert forall i :: 0 <= i < 4 ==> w.s.slots[i] == Some(Client(1000 + i, 1, i + 1, 0.0));
    ExcludedIsSentTo(w, 2);
  }
}
