/** What holds of udpserver's client table over whole runs. */
module UdpRuns {
  import opened Common
  import opened UdpTable
  import opened UdpScan
  import opened UdpSending

  /** The server, the logical time, and the timeout that the last executed scan used. */
  datatype World = World(s: Server, now: real, scanned: real)

  datatype Event =
    | Receive(host: int, port: int)   // a packet, or the message addclient
    | Accept(on: bool)
    | Timeout(t: real)
    | Expire                          // a scan from udpserver_info
    | SetMax(max: int)
    | Target(raw: int)
    | SendDefault(refusing: set<int>) // the ids of the clients whose senders answer -1
    | Disconnect(client: int)         // counts from 1
    | DisconnectAll
    | Elapse(dt: real)
    | OtherObjects(ids: nat)          // other udpservers of the process take ids

  /** udpserver_new; the first id of the process is 1000. */
  function Init(uniq: int, now: real): (w: World)
    requires uniq >= 1000 && now >= 0.0
    ensures Inv(w)
  {
    World(Server(Pack([], MAX_CONNECT), 0, true, 0.0, 0.0, 0, uniq, []), now, 0.0)
  }

  predicate Legal(e: Event) { e.Elapse? ==> e.dt >= 0.0 }

  /** No client is removed but by expiry. */
  predicate Calm(e: Event) { !e.Disconnect? && !e.DisconnectAll? && (e.SendDefault? ==> e.refusing == {}) }

  function After(w: World, s: Server): World {
    World(s, w.now, if s.lastchecked != w.s.lastchecked then w.s.timeout else w.scanned)
  }

  function Then(w: World, s: Option<Server>): Option<World> { if s.None? then None else Some(After(w, s.value)) }

  /** None when the code follows an empty slot or leaves its table. */
  function Step(w: World, e: Event): (r: Option<World>)
    requires w.s.n <= |w.s.slots|
    ensures r.Some? ==> r.value.s.n <= |r.value.s.slots|
  {
    match e
    case Receive(host, port) => Some(After(w, Add(w.s, host, port, w.now).0))
    case Accept(on) => Some(w.(s := w.s.(accept := on)))
    case Timeout(t) => Some(w.(s := w.s.(timeout := t)))
    case Expire => Some(After(w, Scan(w.s, w.now)))
    case SetMax(max) => Some(After(w, Resize(w.s, max)))
    case Target(raw) => Then(w, SetTarget(w.s, raw))
    case SendDefault(refusing) =>
      var o := DefaultSend(w.s, refusing, w.now);
      if o.None? then None else Some(After(w, o.value.0))
    case Disconnect(client) => if 1 <= client <= w.s.n then Then(w, Drop(w.s, client - 1, w.now)) else Some(w)
    case DisconnectAll => Then(w, DropFrom(w.s, 0, w.now))
    case Elapse(dt) => Some(w.(now := w.now + dt))
    case OtherObjects(ids) => Some(w.(s := w.s.(nextUniq := w.s.nextUniq + ids)))
  }

  predicate Run(w: World, es: seq<Event>, w': World)
    requires w.s.n <= |w.s.slots|
    ensures Run(w, es, w') ==> w'.s.n <= |w'.s.slots|
    decreases |es|
  {
    if es == [] then w' == w
    else Legal(es[0]) && Step(w, es[0]).Some? && Run(Step(w, es[0]).value, es[1..], w')
  }

  predicate AllCalm(es: seq<Event>) { forall e :: e in es ==> Calm(e) }

  // ---------- runs in which clients leave by expiry only ----------

  predicate Different(c: Client, d: Client) { c.uniq != d.uniq && (c.host != d.host || c.port != d.port) }

  predicate Distinct(slots: Slots) {
    forall i, j :: 0 <= i < j < |slots| && slots[i].Some? && slots[j].Some? ==>
      Different(slots[i].value, slots[j].value)
  }

  predicate GoodClient(w: World, c: Client) { 1000 <= c.uniq < w.s.nextUniq && c.lastseen <= w.now }

  predicate Inv(w: World) {
    && Dense(w.s) && Distinct(w.s.slots)
    && w.s.nextUniq >= 1000 && w.s.lastchecked <= w.now && w.scanned >= 0.0
    && (forall i :: 0 <= i < w.s.n ==> GoodClient(w, w.s.slots[i].value))
    && (w.s.lastchecked == w.now ==>
          forall i :: 0 <= i < w.s.n ==> !Expired(w.s.slots[i].value, w.now, w.scanned))
  }

  lemma InvIds(w: World)
    requires Inv(w)
    ensures Ids(w.s)
  {
    forall i, j | 0 <= i < j < w.s.n ensures w.s.slots[i].value.uniq != w.s.slots[j].value.uniq {
      assert Different(w.s.slots[i].value, w.s.slots[j].value);
    }
  }

  lemma PurgeKeeps(s: Server, now: real)
    requires Dense(s) && Distinct(s.slots)
    ensures var t := Purge(s, now);
            && Dense(t) && Distinct(t.slots)
            && forall i :: 0 <= i < t.n ==>
                 t.slots[i] in s.slots[..s.n] && !Expired(t.slots[i].value, now, s.timeout)
  {
    ScanDense(s, now);
    var front := s.slots[..s.n];
    var k := Kept(front, now, s.timeout);
    forall i, j | 0 <= i < j < |k| ensures Different(k[i], k[j]) {
      var a, b := KeptPair(front, now, s.timeout, i, j);
    }
    forall i | 0 <= i < |k| ensures Some(k[i]) in front && !Expired(k[i], now, s.timeout) {
      KeptMember(front, now, s.timeout, k[i]);
    }
  }

  lemma ScanKeeps(w: World)
    requires Inv(w)
    ensures Inv(After(w, Scan(w.s, w.now)))
  {
    var t := Scan(w.s, w.now);
    if t != w.s {
      PurgeKeeps(w.s, w.now);
      forall i | 0 <= i < t.n ensures GoodClient(w, t.slots[i].value) {
        assert t.slots[i] in w.s.slots[..w.s.n];
      }
    }
  }

  lemma {:induction false} FindMissesNobody(slots: Slots, host: int, port: int, i: nat)
    requires i <= |slots| && forall k :: 0 <= k < |slots| ==> slots[k].Some?
    ensures Find(slots, host, port, i) == -1 ==> forall k :: i <= k < |slots| ==> !At(slots[k], host, port)
    decreases |slots| - i
  {
    if i == |slots| {
    } else {
      FindMissesNobody(slots, host, port, i + 1);
    }
  }

  lemma AddKeeps(w: World, host: int, port: int)
    requires Inv(w)
    ensures Inv(After(w, Add(w.s, host, port, w.now).0))
  {
    FindInRange(w.s.slots[..w.s.n], host, port, 0);
    FindMissesNobody(w.s.slots[..w.s.n], host, port, 0);
    var id := Find(w.s.slots[..w.s.n], host, port, 0);
    if w.s.accept && id < 0 {
      assert forall k :: 0 <= k < w.s.n ==> w.s.slots[..w.s.n][k] == w.s.slots[k];
    }
  }

  /** A client from this address is in the table. */
  predicate Known(s: Server, host: int, port: int) {
    exists i :: 0 <= i < |s.slots| && s.slots[i].Some? && s.slots[i].value.host == host && s.slots[i].value.port == port
  }

  /**
   With accept on, a packet leaves its sender in the table with its age reset, unless the sender is
   new and the table full.  A known sender keeps its slot and its id, a new one gets the next id and
   the next slot, and nothing else changes.
   */
  lemma AddRegisters(w: World, host: int, port: int)
    requires Inv(w) && w.s.accept
    ensures var (t, id) := Add(w.s, host, port, w.now);
            && (id >= 0 <==> Known(w.s, host, port) || w.s.n < |w.s.slots|)
            && (id < 0 ==> t == w.s)
            && (id >= 0 && Known(w.s, host, port) ==>
                  && id < w.s.n && w.s.slots[id].value.host == host && w.s.slots[id].value.port == port
                  && t == w.s.(slots := w.s.slots[id := Some(w.s.slots[id].value.(lastseen := w.now))]))
            && (id >= 0 && !Known(w.s, host, port) ==>
                  && id == w.s.n
                  && t == w.s.(slots := w.s.slots[id := Some(Client(w.s.nextUniq, host, port, w.now))],
                               n := w.s.n + 1, nextUniq := w.s.nextUniq + 1))
  {
    var front := w.s.slots[..w.s.n];
    FindInRange(front, host, port, 0);
    FindMissesNobody(front, host, port, 0);
    if Known(w.s, host, port) {
      var i :| 0 <= i < |w.s.slots| && w.s.slots[i].Some?
               && w.s.slots[i].value.host == host && w.s.slots[i].value.port == port;
      assert At(front[i], host, port);
    }
  }

  /** The ids of the clients from slot `i` to before slot `j`. */
  function Uniqs(s: Server, i: nat, j: nat): seq<int>
    requires Dense(s) && i <= j <= s.n
  {
    seq(j - i, k requires 0 <= k < j - i => s.slots[i + k].value.uniq)
  }

  lemma {:induction false} CalmRest(s: Server, i: nat, but: int, now: real)
    requires Dense(s) && i <= s.n && !(i <= but < s.n)
    ensures SendFrom(s, i, but, {}, now) == Some((s, Uniqs(s, i, s.n)))
    decreases s.n - i
  {
    if i < s.n {
      CalmRest(s, i + 1, but, now);
      assert [s.slots[i].value.uniq] + Uniqs(s, i + 1, s.n) == Uniqs(s, i, s.n);
    }
  }

  /** Without refusals a pass sends to everybody in order, but for one. */
  lemma {:induction false} CalmPass(s: Server, i: nat, but: nat, now: real)
    requires Dense(s) && i <= but < s.n
    ensures SendFrom(s, i, but, {}, now) == Some((s, Uniqs(s, i, but) + Uniqs(s, but + 1, s.n)))
    decreases s.n - i
  {
    if i == but {
      CalmRest(s, i + 1, but, now);
      assert Uniqs(s, i, but) + Uniqs(s, but + 1, s.n) == Uniqs(s, but + 1, s.n);
    } else {
      CalmPass(s, i + 1, but, now);
      var id := s.slots[i].value.uniq;
      assert [id] + Uniqs(s, i + 1, but) == Uniqs(s, i, but);
      Regroup([id], Uniqs(s, i + 1, but), Uniqs(s, but + 1, s.n));
    }
  }

  lemma CalmBroadcast(s: Server, now: real)
    requires Dense(s)
    ensures Dense(Scan(s, now))
    ensures Broadcast(s, {}, now) == Some((Scan(s, now), Uniqs(Scan(s, now), 0, Scan(s, now).n)))
  {
    ScanDense(s, now);
    CalmRest(Scan(s, now), 0, -1, now);
  }

  /** Without refusals a default send changes the table by a scan at most, and follows no empty slot. */
  lemma CalmSend(s: Server, now: real)
    requires Dense(s)
    ensures DefaultSend(s, {}, now).Some?
    ensures var t := DefaultSend(s, {}, now).value.0;
            t == s || t == Scan(s, now) || t == Scan(s.(target := 0), now)
  {
    var id := if s.target > 0 then s.target else -s.target;
    LookupExactly(s.slots[..s.n], id, 0);
    var i := IndexOf(s.slots[..s.n], id, 0);
    CalmBroadcast(s, now);
    CalmBroadcast(s.(target := 0), now);
    if i.Some? && i.value >= 0 {
      CalmPass(s, 0, i.value, now);
    }
  }

  lemma SendKeeps(w: World)
    requires Inv(w)
    ensures DefaultSend(w.s, {}, w.now).Some? && Inv(After(w, DefaultSend(w.s, {}, w.now).value.0))
  {
    CalmSend(w.s, w.now);
    ScanKeeps(w);
    ScanKeeps(w.(s := w.s.(target := 0)));
  }

  /** Every such event goes through and keeps the table invariant. */
  lemma StepKeepsInv(w: World, e: Event)
    requires Inv(w) && Legal(e) && Calm(e)
    ensures Step(w, e).Some? && Inv(Step(w, e).value)
  {
    match e
    case Receive(host, port) => AddKeeps(w, host, port);
    case Expire => ScanKeeps(w);
    case SendDefault(_) => SendKeeps(w);
    case _ =>
  }

  lemma {:induction false} RunKeepsInv(w: World, es: seq<Event>, w': World)
    requires Inv(w) && AllCalm(es) && Run(w, es, w')
    ensures Inv(w')
    decreases |es|
  {
    if es != [] {
      StepKeepsInv(w, es[0]);
      RunKeepsInv(Step(w, es[0]).value, es[1..], w');
    }
  }

  /**
   Every run of a new server in which clients leave by expiry only keeps the table a prefix without
   holes that fits its slots, with pairwise distinct addresses and pairwise distinct ids.
   */
  lemma RunsKeepTable(uniq: int, now: real, es: seq<Event>, w: World)
    requires uniq >= 1000 && now >= 0.0
    requires AllCalm(es) && Run(Init(uniq, now), es, w)
    ensures w.s.n <= |w.s.slots|
    ensures forall i :: 0 <= i < |w.s.slots| ==> (w.s.slots[i].Some? <==> i < w.s.n)
    ensures forall i, j :: 0 <= i < j < w.s.n ==>
              var c, d := w.s.slots[i].value, w.s.slots[j].value;
              c.uniq != d.uniq && (c.host, c.port) != (d.host, d.port)
  {
    RunKeepsInv(Init(uniq, now), es, w);
  }

  // ---------- the gate ----------

  /**
   After any run without removals: in the instant of the last executed scan, with a timeout no shorter than the one
   it used, scanning again would change nothing in the table and free nobody.
   */
  lemma GateIsSoundCache(w: World, es: seq<Event>, w': World)
    requires Inv(w) && AllCalm(es) && Run(w, es, w')
    requires w'.now - w'.s.lastchecked <= 0.0 && w'.s.timeout >= w'.scanned
    ensures Scan(w'.s, w'.now) == w'.s
    ensures var p := Purge(w'.s, w'.now);
            p.slots == w'.s.slots && p.n == w'.s.n && p.freed == w'.s.freed && p.lastchecked == w'.s.lastchecked
  {
    RunKeepsInv(w, es, w');
    NobodyExpired(w'.s.slots[..w'.s.n], w'.now, w'.s.timeout);
  }

  /** In general a closed gate changes nothing exactly when nobody in the table is older than the timeout. */
  lemma GateIsExact(w: World)
    requires Inv(w) && w.now - w.s.lastchecked <= 0.0
    ensures Purge(w.s, w.now) == w.s <==>
              forall i :: 0 <= i < w.s.n ==> !Expired(w.s.slots[i].value, w.now, w.s.timeout)
  {
    var front := w.s.slots[..w.s.n];
    if forall i :: 0 <= i < w.s.n ==> !Expired(w.s.slots[i].value, w.now, w.s.timeout) {
      NobodyExpired(front, w.now, w.s.timeout);
    } else {
      var i :| 0 <= i < w.s.n && Expired(w.s.slots[i].value, w.now, w.s.timeout);
      assert front[i] == w.s.slots[i];
      PlacesMember(front, w.now, w.s.timeout, true, i);
      DroppedPlaces(front, w.now, w.s.timeout);
      assert |Dropped(front, w.now, w.s.timeout)| > 0;
    }
  }

  /** With a timeout shortened in the same instant the gate does hold back an expiry. */
  lemma GateMissesShorterTimeout()
    ensures exists es, w :: Run(Init(1000, 0.0), es, w)
              && w.s.timeout > 0.0 && Scan(w.s, w.now).n == 1 && Purge(w.s, w.now).n == 0
  {
    var w0 := Init(1000, 0.0);
    var es := [Receive(1, 1), Timeout(10.0), Elapse(5.0), Expire, Timeout(1.0)];
    var w1 := Step(w0, es[0]).value;
    var c := Client(1000, 1, 1, 0.0);
    assert w1.s.slots[..1] == [Some(c)];
    var w2 := Step(w1, es[1]).value;
    var w3 := Step(w2, es[2]).value;
    NobodyExpired(w3.s.slots[..1], 5.0, 10.0);
    var w4 := Step(w3, es[3]).value;
    assert w4.s.slots[..1] == [Some(c)];
    var w5 := Step(w4, es[4]).value;
    Last(w4, es[4], w5);
    assert es[3..][1..] == [es[4]] && es[2..][1..] == es[3..] && es[1..][1..] == es[2..];
    assert Run(w3, es[3..], w5);
    assert Run(w2, es[2..], w5);
    assert Run(w1, es[1..], w5);
    assert Run(w0, es, w5);
    assert w5.s.slots[..1][..0] == [];
    assert Kept(w5.s.slots[..1], 5.0, 1.0) == [];
  }

  lemma Last(w: World, e: Event, w': World)
    requires w.s.n <= |w.s.slots| && Legal(e) && Step(w, e) == Some(w')
    ensures Run(w, [e], w')
  {
    assert [e][1..] == [];
  }

  // ---------- all runs ----------

  /** `t` has no client that `s` has not. */
  ghost predicate Loses(s: Server, t: Server) {
    Ids(t) && t.nextUniq >= s.nextUniq && forall c :: Listed(t, c) ==> Listed(s, c)
  }

  lemma ResizeLoses(s: Server, max: int)
    requires Ids(s)
    ensures Loses(s, Resize(s, max))
  {
  }

  /** Only packets bring clients, and only `accept` opens the table to them. */
  lemma StepLoses(w: World, e: Event)
    requires Ids(w.s) && Step(w, e).Some? && !e.Receive?
    ensures Loses(w.s, Step(w, e).value.s)
    ensures !e.Accept? ==> Step(w, e).value.s.accept == w.s.accept
  {
    match e
    case Expire => ScanShrinks(w.s, w.now);
    case SetMax(max) => ResizeLoses(w.s, max);
    case SendDefault(refusing) =>
      SendKeepsIds(w.s, refusing, w.now);
      SameList(w.s, DefaultSend(w.s, refusing, w.now).value.0, w.now);
    case Disconnect(client) =>
      if 1 <= client <= w.s.n { DropShrinks(w.s, client - 1, w.now); }
    case DisconnectAll => DropFromShrinks(w.s, 0, w.now);
    case _ =>
  }

  lemma SameList(s: Server, t: Server, now: real)
    requires Ids(t) && Shrinks(s.(target := t.target), t, now)
    ensures Loses(s, t)
  {
    forall c | Listed(t, c) ensures Listed(s, c) {
      assert Listed(s.(target := t.target), c);
    }
  }

  /** What one event does to the ids: those in use were in use before or are new. */
  lemma StepKeepsIds(w: World, e: Event)
    requires Ids(w.s) && Step(w, e).Some?
    ensures Ids(Step(w, e).value.s) && Step(w, e).value.s.nextUniq >= w.s.nextUniq
    ensures forall c :: Listed(Step(w, e).value.s, c) && c.uniq < w.s.nextUniq ==> Counted(w.s, c.uniq)
  {
    if e.Receive? {
      AddKeepsIds(w, e.host, e.port);
    } else {
      StepLoses(w, e);
    }
  }

  lemma AddKeepsIds(w: World, host: int, port: int)
    requires Ids(w.s)
    ensures var t := Add(w.s, host, port, w.now).0;
            && Ids(t) && t.nextUniq >= w.s.nextUniq
            && (forall c :: Listed(t, c) && c.uniq < w.s.nextUniq ==> Counted(w.s, c.uniq))
            && (!w.s.accept ==> t == w.s)
  {
    FindInRange(w.s.slots[..w.s.n], host, port, 0);
  }

  lemma SendKeepsIds(s: Server, refusing: set<int>, now: real)
    requires Ids(s) && DefaultSend(s, refusing, now).Some?
    ensures var t := DefaultSend(s, refusing, now).value.0;
            Ids(t) && Shrinks(s.(target := t.target), t, now)
  {
    var o := DefaultSend(s, refusing, now);
    var i := IndexOf(s.slots[..s.n], if s.target > 0 then s.target else -s.target, 0);
    if s.target == 0 {
      BroadcastShrinks(s, refusing, now);
    } else if i.value < 0 {
      BroadcastShrinks(s.(target := 0), refusing, now);
    } else if s.target > 0 {
      SendOneShrinks(s, i.value, refusing, now);
    } else {
      SendFromShrinks(s, 0, i.value, refusing, now);
    }
  }

  /** Over every run an id that is not in use comes into use at most by being handed out for the first time. */
  lemma {:induction false} NeverComesBack(w: World, es: seq<Event>, w': World, id: int)
    requires Ids(w.s) && Run(w, es, w')
    requires id < w.s.nextUniq && !Counted(w.s, id)
    ensures Ids(w'.s) && w'.s.nextUniq >= w.s.nextUniq && !Counted(w'.s, id)
    decreases |es|
  {
    if es != [] {
      StepKeepsIds(w, es[0]);
      NotCounted(w, es[0], id);
      NeverComesBack(Step(w, es[0]).value, es[1..], w', id);
    }
  }

  lemma NotCounted(w: World, e: Event, id: int)
    requires Ids(w.s) && Step(w, e).Some? && id < w.s.nextUniq && !Counted(w.s, id)
    ensures !Counted(Step(w, e).value.s, id)
  {
    StepKeepsIds(w, e);
    assert forall i :: 0 <= i < Step(w, e).value.s.n && Step(w, e).value.s.slots[i].Some? ==>
      Listed(Step(w, e).value.s, Step(w, e).value.s.slots[i].value);
  }

  /** Over a run in which clients are not accepted, nobody joins and nobody's age is reset. */
  lemma {:induction false} NobodyJoins(w: World, es: seq<Event>, w': World)
    requires Ids(w.s) && Run(w, es, w') && !w.s.accept
    requires forall e :: e in es ==> !e.Accept?
    ensures forall c :: Listed(w'.s, c) ==> Listed(w.s, c)
    decreases |es|
  {
    if es != [] {
      if !es[0].Receive? { StepLoses(w, es[0]); }
      NobodyJoins(Step(w, es[0]).value, es[1..], w');
    }
  }

  // ---------- the gate in all runs ----------

  /** No client is newer than now, and in the instant of the last scan none is older than it allowed. */
  ghost predicate Gated(w: World) {
    && w.s.lastchecked <= w.now && w.scanned >= 0.0
    && (forall c :: Listed(w.s, c) ==> c.lastseen <= w.now)
    && (w.s.lastchecked == w.now ==> forall c :: Listed(w.s, c) ==> !Expired(c, w.now, w.scanned))
  }

  lemma ShrinksKeepsGate(w: World, t: Server)
    requires Gated(w) && Shrinks(w.s.(target := t.target), t, w.now)
    ensures Gated(After(w, t))
  {
    forall c | Listed(t, c) ensures Listed(w.s, c) {
      assert Listed(w.s.(target := t.target), c);
    }
  }

  lemma AddKeepsGate(w: World, host: int, port: int)
    requires Ids(w.s) && Gated(w)
    ensures Gated(After(w, Add(w.s, host, port, w.now).0))
  {
    FindInRange(w.s.slots[..w.s.n], host, port, 0);
    var t := Add(w.s, host, port, w.now).0;
    forall c | Listed(t, c) ensures c.lastseen == w.now || Listed(w.s, c) {
      var i :| 0 <= i < t.n <= |t.slots| && t.slots[i] == Some(c);
      assert t.slots[i] == w.s.slots[i] || c.lastseen == w.now;
    }
  }

  lemma ResizeKeepsGate(w: World, max: int)
    requires Ids(w.s) && Gated(w)
    ensures Gated(After(w, Resize(w.s, max)))
  {
    ResizeLoses(w.s, max);
  }

  /** The events after which the table is what sending, removing or scanning left of it. */
  predicate Reduces(e: Event) { e.Expire? || e.SendDefault? || e.Disconnect? || e.DisconnectAll? }

  lemma ReducingShrinks(w: World, e: Event)
    requires Ids(w.s) && Reduces(e) && Step(w, e).Some?
    ensures var t := Step(w, e).value.s; Step(w, e).value == After(w, t) && Shrinks(w.s.(target := t.target), t, w.now)
  {
    match e
    case Expire => ScanShrinks(w.s, w.now);
    case SendDefault(refusing) => SendKeepsIds(w.s, refusing, w.now);
    case Disconnect(client) =>
      if 1 <= client <= w.s.n { DropShrinks(w.s, client - 1, w.now); }
    case DisconnectAll => DropFromShrinks(w.s, 0, w.now);
    case _ =>
  }

  lemma StepKeepsGate(w: World, e: Event)
    requires Ids(w.s) && Gated(w) && Legal(e) && Step(w, e).Some?
    ensures Gated(Step(w, e).value)
  {
    if Reduces(e) {
      ReducingShrinks(w, e);
      ShrinksKeepsGate(w, Step(w, e).value.s);
    } else if e.Receive? {
      AddKeepsGate(w, e.host, e.port);
    } else if e.SetMax? {
      ResizeKeepsGate(w, e.max);
    }
  }

  lemma {:induction false} RunKeepsGate(w: World, es: seq<Event>, w': World)
    requires Ids(w.s) && Gated(w) && Run(w, es, w')
    ensures Ids(w'.s) && Gated(w')
    decreases |es|
  {
    if es != [] {
      StepKeepsIds(w, es[0]);
      StepKeepsGate(w, es[0]);
      RunKeepsGate(Step(w, es[0]).value, es[1..], w');
    }
  }

  /**
   After any run at all of a new server, in the instant of the last executed scan and with a timeout no shorter than
   the one it used: scanning again would free nobody, and would leave the table as it is exactly when it has no holes
   and nothing behind its count.
   */
  lemma GateInAllRuns(uniq: int, now: real, es: seq<Event>, w: World)
    requires uniq >= 1000 && now >= 0.0 && Run(Init(uniq, now), es, w)
    requires w.now - w.s.lastchecked <= 0.0 && w.s.timeout >= w.scanned
    ensures Purge(w.s, w.now).freed == w.s.freed
    ensures Purge(w.s, w.now).slots == w.s.slots && Purge(w.s, w.now).n == w.s.n <==> Dense(w.s)
  {
    RunKeepsGate(Init(uniq, now), es, w);
    ScanDense(w.s, w.now);
    var front := w.s.slots[..w.s.n];
    forall i | 0 <= i < |front| && front[i].Some? ensures !Expired(front[i].value, w.now, w.s.timeout) {
      assert Listed(w.s, w.s.slots[i].value);
    }
    NobodyDropped(front, w.now, w.s.timeout);
    if Dense(w.s) {
      NobodyExpired(front, w.now, w.s.timeout);
    }
  }

  // ---------- the default target ----------

  function Abs(x: int): nat { if x < 0 then -x else x }

  /** `aim` is the id of a client, negated to exclude it; it is still set, or its client is gone for good. */
  predicate Aimed(s: Server, aim: int) {
    && 1000 <= Abs(aim) < s.nextUniq
    && (s.target == aim || (s.target == 0 && !Counted(s, Abs(aim))))
  }

  lemma AimSurvivesSend(s: Server, refusing: set<int>, now: real, aim: int)
    requires Ids(s) && Aimed(s, aim) && DefaultSend(s, refusing, now).Some?
    ensures Aimed(DefaultSend(s, refusing, now).value.0, aim)
  {
    var t := DefaultSend(s, refusing, now).value.0;
    SendKeepsIds(s, refusing, now);
    LookupCounted(s, Abs(aim));
    var i := IndexOf(s.slots[..s.n], Abs(aim), 0);
    if s.target == 0 {
      BroadcastShrinks(s, refusing, now);
    } else if i.value < 0 {
      BroadcastShrinks(s.(target := 0), refusing, now);
    } else if s.target > 0 {
      SendOneShrinks(s, i.value, refusing, now);
    } else {
      SendFromShrinks(s, 0, i.value, refusing, now);
    }
    if Counted(t, Abs(aim)) {
      var k :| 0 <= k < t.n <= |t.slots| && t.slots[k].Some? && t.slots[k].value.uniq == Abs(aim);
      assert Listed(t, t.slots[k].value);
    }
  }

  lemma AimSurvivesStep(w: World, e: Event, aim: int)
    requires Ids(w.s) && Step(w, e).Some? && !e.Target? && Aimed(w.s, aim)
    ensures Aimed(Step(w, e).value.s, aim)
  {
    if e.SendDefault? {
      AimSurvivesSend(w.s, e.refusing, w.now, aim);
    } else {
      StepKeepsTarget(w, e);
      StepKeepsIds(w, e);
      if !Counted(w.s, Abs(aim)) { NotCounted(w, e, Abs(aim)); }
    }
  }

  lemma StepKeepsTarget(w: World, e: Event)
    requires Ids(w.s) && Step(w, e).Some? && !e.Target? && !e.SendDefault?
    ensures Step(w, e).value.s.target == w.s.target
  {
    match e
    case Disconnect(client) =>
      if 1 <= client <= w.s.n { DropShrinks(w.s, client - 1, w.now); }
    case DisconnectAll => DropFromShrinks(w.s, 0, w.now);
    case _ =>
  }

  lemma {:induction false} AimSurvivesRun(w: World, es: seq<Event>, w': World, aim: int)
    requires Ids(w.s) && Run(w, es, w') && Aimed(w.s, aim)
    requires forall e :: e in es ==> !e.Target?
    ensures Ids(w'.s) && Aimed(w'.s, aim)
    decreases |es|
  {
    if es != [] {
      AimSurvivesStep(w, es[0], aim);
      StepKeepsIds(w, es[0]);
      AimSurvivesRun(Step(w, es[0]).value, es[1..], w', aim);
    }
  }

  /** Choosing the client in slot `|raw| - 1` aims at its id. */
  lemma TargetAims(w: World, raw: int, t: World)
    requires Ids(w.s) && 0 < Abs(raw) <= w.s.n && Step(w, Target(raw)) == Some(t)
    ensures w.s.slots[Abs(raw) - 1].Some? && Ids(t.s)
    ensures var id := w.s.slots[Abs(raw) - 1].value.uniq; Aimed(t.s, if raw < 0 then -id else id)
  {
  }

  /**
   Where a default send goes that was aimed at one client, or at all but one, when it runs to its end:
   to that client alone; or to others, among them the excluded one exactly when it moves under the pass;
   or, if that client is no longer counted, the target is reset.
   */
  ghost predicate Resolves(s: Server, refusing: set<int>, now: real, aim: int)
    requires s.n <= |s.slots| && DefaultSend(s, refusing, now).Some?
  {
    var (t, sent) := DefaultSend(s, refusing, now).value;
    if !Counted(s, Abs(aim)) then t.target == 0
    else
      && t.target == aim
      && (aim > 0 ==> sent == [aim])
      && (aim < 0 ==> exists i :: 0 <= i < s.n && s.slots[i].Some? && s.slots[i].value.uniq == -aim
                                  && (-aim in sent <==> Strays(s, i, refusing, now)))
  }

  lemma AimResolves(s: Server, refusing: set<int>, now: real, aim: int)
    requires Ids(s) && Aimed(s, aim) && DefaultSend(s, refusing, now).Some?
    ensures Resolves(s, refusing, now, aim)
  {
    LookupCounted(s, Abs(aim));
    var i := IndexOf(s.slots[..s.n], Abs(aim), 0);
    if s.target == 0 {
      BroadcastShrinks(s, refusing, now);
    } else if i.value < 0 {
      BroadcastShrinks(s.(target := 0), refusing, now);
    } else if aim > 0 {
      SendOneShrinks(s, i.value, refusing, now);
    } else {
      SendFromShrinks(s, 0, i.value, refusing, now);
      ExcludedExactly(s, i.value, refusing, now);
    }
  }

  /**
   After `target raw`, whatever else happens, removals and refused sends included: every default send resolves to the
   client that was chosen, or finds it gone and resets the target; it never resolves to another client.
   */
  lemma TargetNeverChanges(w: World, raw: int, t: World, es: seq<Event>, w': World, refusing: set<int>)
    requires Ids(w.s) && 0 < Abs(raw) <= w.s.n && Step(w, Target(raw)) == Some(t)
    requires Run(t, es, w') && forall e :: e in es ==> !e.Target?
    requires DefaultSend(w'.s, refusing, w'.now).Some?
    ensures w.s.slots[Abs(raw) - 1].Some?
    ensures var id := w.s.slots[Abs(raw) - 1].value.uniq;
            Resolves(w'.s, refusing, w'.now, if raw < 0 then -id else id)
  {
    TargetAims(w, raw, t);
    var id := w.s.slots[Abs(raw) - 1].value.uniq;
    var aim := if raw < 0 then -id else id;
    AimSurvivesRun(t, es, w', aim);
    AimResolves(w'.s, refusing, w'.now, aim);
  }

  /** Who gets the default send without refusals: the one, all but the one, or everybody the scan leaves. */
  predicate Reaches(s: Server, now: real, aim: int)
    requires Dense(s) && DefaultSend(s, {}, now).Some?
  {
    var (t, sent) := DefaultSend(s, {}, now).value;
    if !Counted(s, Abs(aim)) then
      t == Scan(s.(target := 0), now) && Dense(t) && sent == Uniqs(t, 0, t.n)
    else
      && t == s
      && if aim > 0 then sent == [aim]
         else exists i :: 0 <= i < s.n && s.slots[i].value.uniq == -aim
                          && sent == Uniqs(s, 0, i) + Uniqs(s, i + 1, s.n)
  }

  lemma AimReaches(s: Server, now: real, aim: int)
    requires Dense(s) && Aimed(s, aim)
    ensures DefaultSend(s, {}, now).Some? && Reaches(s, now, aim)
  {
    CalmSend(s, now);
    LookupCounted(s, Abs(aim));
    var i := IndexOf(s.slots[..s.n], Abs(aim), 0);
    if !Counted(s, Abs(aim)) {
      CalmBroadcast(s.(target := 0), now);
      assert s.target == 0 ==> s.(target := 0) == s;
    } else if aim < 0 {
      LookupExactly(s.slots[..s.n], Abs(aim), 0);
      CalmPass(s, 0, i.value, now);
    }
  }

  /**
   After `target raw`, with clients leaving by expiry only: as long as the chosen client is in the table the
   default send goes to it alone (or to everybody but it, in order) and keeps the target; once it has left,
   the default send goes to everybody and the target is reset.
   */
  lemma TargetFollowsClient(w: World, raw: int, t: World, es: seq<Event>, w': World)
    requires Inv(w) && 0 < Abs(raw) <= w.s.n && Step(w, Target(raw)) == Some(t)
    requires Run(t, es, w') && AllCalm(es) && forall e :: e in es ==> !e.Target?
    ensures var id := w.s.slots[Abs(raw) - 1].value.uniq;
            && Inv(w') && DefaultSend(w'.s, {}, w'.now).Some?
            && Reaches(w'.s, w'.now, if raw < 0 then -id else id)
  {
    InvIds(w);
    TargetAims(w, raw, t);
    StepKeepsInv(w, Target(raw));
    RunKeepsInv(t, es, w');
    var id := w.s.slots[Abs(raw) - 1].value.uniq;
    var aim := if raw < 0 then -id else id;
    AimSurvivesRun(t, es, w', aim);
    AimReaches(w'.s, w'.now, aim);
  }
}
