/** What single messages to udpserver come to, in terms of clients, ages and slots. */
module UdpRules {
  import opened Common
  import opened UdpTable
  import opened UdpSending
  import opened UdpFrees
  import opened UdpRuns

  /** `target`: 0 is everybody, a number in range the client there, a negative one all but it; others change nothing. */
  lemma TargetRule(s: Server, raw: int)
    requires Dense(s)
    ensures SetTarget(s, raw).Some?
    ensures var t := SetTarget(s, raw).value;
            && t == s.(target := t.target)
            && (raw == 0 ==> t.target == 0)
            && (0 < raw <= s.n ==> t.target == s.slots[raw - 1].value.uniq)
            && (0 < -raw <= s.n ==> t.target == -s.slots[-raw - 1].value.uniq)
            && (raw > s.n || -raw > s.n ==> t.target == s.target)
  {
  }

  /** `maxconnections`: exactly a number that leaves room for all clients is taken, and nobody loses a slot by it. */
  lemma ResizeRule(s: Server, max: int, k: nat)
    requires Dense(s) && s.slots != []
    ensures var t := Resize(s, max);
            && t == s.(slots := t.slots)
            && |t.slots| == (if 1 <= max && s.n <= max then max else |s.slots|)
            && s.n <= |t.slots|
            && (k < s.n ==> t.slots[k] == s.slots[k])
            && (s.n <= k < |t.slots| ==> t.slots[k].None?)
  {
  }

  /** A removal follows an empty slot, or leaves the table, in exactly these cases. */
  lemma DropFails(s: Server, client: nat, now: real)
    requires s.n <= |s.slots|
    ensures Drop(s, client, now).None? <==> client < s.n && (s.slots[client].None? || client + 1 >= |s.slots|)
    ensures client >= s.n ==> Drop(s, client, now) == Some(s)
  {
  }

  /** `disconnect k`: the k-th client is not counted any more and has been freed; no other number does anything. */
  lemma DisconnectRule(w: World, k: int)
    requires Ids(w.s) && Step(w, Disconnect(k)).Some?
    ensures var t := Step(w, Disconnect(k)).value.s;
            && (!(1 <= k <= w.s.n) ==> t == w.s)
            && (1 <= k <= w.s.n ==>
                  && w.s.slots[k - 1].Some?
                  && !Counted(t, w.s.slots[k - 1].value.uniq)
                  && FreesOnce(w.s, t) && FreedIn(w.s, t, w.s.slots[k - 1].value.uniq))
  {
    if 1 <= k <= w.s.n {
      DropFreesOnce(w.s, k - 1, w.now);
    }
  }

  /** `accept 0`: from then on nobody joins and nobody's age is reset, until accept is set again. */
  lemma AcceptOff(w: World, es: seq<Event>, w': World)
    requires Ids(w.s) && Run(w, [Accept(false)] + es, w')
    requires forall e :: e in es ==> !e.Accept?
    ensures forall c :: Listed(w'.s, c) ==> Listed(w.s, c)
  {
    var t := Step(w, Accept(false)).value;
    assert ([Accept(false)] + es)[1..] == es;
    NobodyJoins(t, es, w');
    forall c | Listed(t.s, c) ensures Listed(w.s, c) {
    }
  }

  /** `accept 1`: a packet puts its sender into the table with its age reset, unless it is new and there is no slot. */
  lemma AcceptOn(w: World, host: int, port: int)
    requires Inv(w)
    ensures Step(w, Accept(true)).Some?
    ensures var t := Step(w, Accept(true)).value;
            && Step(t, Receive(host, port)).Some?
            && var u := Step(t, Receive(host, port)).value.s;
               (Known(w.s, host, port) || w.s.n < |w.s.slots|) <==> Fresh(u, host, port, w.now)
  {
    var t := Step(w, Accept(true)).value;
    AddRegisters(t, host, port);
    assert Known(t.s, host, port) <==> Known(w.s, host, port);
    var (u, id) := Add(t.s, host, port, t.now);
    if id >= 0 {
      assert u.slots[id].Some? && u.slots[id].value.lastseen == w.now;
    }
  }

  /** A client from this address is in the table, last heard of now. */
  predicate Fresh(s: Server, host: int, port: int, now: real) {
    exists i :: 0 <= i < s.n <= |s.slots| && s.slots[i].Some? && s.slots[i].value.lastseen == now
                && s.slots[i].value.host == host && s.slots[i].value.port == port
  }

  /** `timeout t`, time passing, and a scan: those stay who have been heard of within `t`; without a timeout all do. */
  lemma TimeoutRule(w: World, t: real, dt: real, c: Client)
    requires Ids(w.s) && w.s.lastchecked <= w.now && dt > 0.0
    ensures var w1 := Step(w, Timeout(t)).value;
            var w2 := Step(w1, Elapse(dt)).value;
            var w3 := Step(w2, Expire).value;
            Listed(w3.s, c) <==> Listed(w.s, c) && (t > 0.0 ==> w.now + dt - c.lastseen <= t)
  {
    var w1 := Step(w, Timeout(t)).value;
    var w2 := Step(w1, Elapse(dt)).value;
    assert Listed(w2.s, c) <==> Listed(w.s, c);
    if t > 0.0 {
      ScanKeepsTheYoung(w2.s, w2.now, c);
    } else {
      ScanAtRest(w2.s, w2.now);
    }
  }
}
