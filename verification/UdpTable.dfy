/**
 The client table of udpserver.c: what its loops compute.

 A result of None means that the code follows an empty slot or reads beyond its table, after which
 C leaves open what happens.
 */
module UdpTable {
  import opened Common

  const MAX_CONNECT := 32

  /** t_udpserver_sender; `uniq` is the id a process never hands out twice. */
  datatype Client = Client(uniq: int, host: int, port: int, lastseen: real)

  type Slots = seq<Option<Client>>

  /** What udpserver keeps about its clients; `freed` lists the ids passed to udpserver_sender_free. */
  datatype Server = Server(
    slots: Slots,
    n: nat,
    accept: bool,
    timeout: real,
    lastchecked: real,
    target: int,
    nextUniq: int,
    freed: seq<int>
  )

  // ---------- expiry ----------

  predicate Expired(c: Client, now: real, timeout: real) { now - c.lastseen > timeout }

  /** The clients in `slots` that have not expired, in order. */
  function Kept(slots: Slots, now: real, timeout: real): (r: seq<Client>)
    ensures |r| <= |slots|
  {
    if slots == [] then []
    else
      var last := slots[|slots| - 1];
      Kept(slots[..|slots| - 1], now, timeout)
      + if last.Some? && !Expired(last.value, now, timeout) then [last.value] else []
  }

  /** The ids of those that have, in order. */
  function Dropped(slots: Slots, now: real, timeout: real): seq<int> {
    if slots == [] then []
    else
      var last := slots[|slots| - 1];
      Dropped(slots[..|slots| - 1], now, timeout)
      + if last.Some? && Expired(last.value, now, timeout) then [last.value.uniq] else []
  }

  /** `cs` at the front of a table of `max` slots. */
  function Pack(cs: seq<Client>, max: nat): Slots {
    seq(max, i => if 0 <= i < |cs| then Some(cs[i]) else None)
  }

  /** The scan itself, whatever the guards say. */
  function Purge(s: Server, now: real): (r: Server)
    requires s.n <= |s.slots|
    ensures r.n <= s.n && |r.slots| == |s.slots|
  {
    var kept := Kept(s.slots[..s.n], now, s.timeout);
    s.(slots := Pack(kept, |s.slots|), n := |kept|, lastchecked := now,
       freed := s.freed + Dropped(s.slots[..s.n], now, s.timeout))
  }

  /** The guards keep the scan from running. */
  predicate Quiet(s: Server, now: real) { s.timeout <= 0.0 || now - s.lastchecked <= 0.0 }

  /** udpserver_sender_autoremove */
  function Scan(s: Server, now: real): (r: Server)
    requires s.n <= |s.slots|
    ensures r.n <= s.n && |r.slots| == |s.slots| && Quiet(r, now)
  {
    if Quiet(s, now) then s else Purge(s, now)
  }

  // ---------- lookup, adding, removing ----------

  predicate At(slot: Option<Client>, host: int, port: int) {
    slot.Some? && slot.value.port == port && slot.value.host == host
  }

  /** udpserver__find_sender from slot `i` on: the search ends at an empty slot. */
  function Find(slots: Slots, host: int, port: int, i: nat): int
    requires i <= |slots|
    decreases |slots| - i
  {
    if i == |slots| || slots[i].None? then -1
    else if At(slots[i], host, port) then i
    else Find(slots, host, port, i + 1)
  }

  /** udpserver_sender_add: the new state, and the slot of the sender or -1. */
  function Add(s: Server, host: int, port: int, now: real): (r: (Server, int))
    requires s.n <= |s.slots|
    ensures r.0.n <= |r.0.slots| == |s.slots|
  {
    if !s.accept then (s, -1)
    else
      var id := Find(s.slots[..s.n], host, port, 0);
      FindInRange(s.slots[..s.n], host, port, 0);
      if id >= 0 then (s.(slots := s.slots[id := Some(s.slots[id].value.(lastseen := now))]), id)
      else if s.n < |s.slots| then
        (s.(slots := s.slots[s.n := Some(Client(s.nextUniq, host, port, now))], n := s.n + 1,
            nextUniq := s.nextUniq + 1), s.n)
      else (s, -1)
  }

  lemma FindInRange(slots: Slots, host: int, port: int, i: nat)
    requires i <= |slots|
    ensures var r := Find(slots, host, port, i); r == -1 || (i <= r < |slots| && At(slots[r], host, port))
    decreases |slots| - i
  {
  }

  /** What udpserver_sender_remove does: one slot emptied, one less counted, nothing shifted. */
  function Remove(s: Server, id: nat): (r: Option<Server>)
    requires s.n <= |s.slots|
    ensures r.Some? ==> r.value.n <= s.n && |r.value.slots| == |s.slots|
  {
    if id >= s.n || s.slots[id].None? then Some(s)
    else if id + 1 >= |s.slots| then None
    else Some(s.(slots := s.slots[id := None], n := s.n - 1, freed := s.freed + [s.slots[id].value.uniq]))
  }

  /** udpserver_disconnect */
  function Drop(s: Server, client: nat, now: real): (r: Option<Server>)
    requires s.n <= |s.slots|
    ensures r.Some? ==> r.value.n <= s.n && |r.value.slots| == |s.slots|
    ensures r.Some? && client < s.n ==> Quiet(r.value, now)
  {
    if client >= s.n then Some(s)
    else if s.slots[client].None? then None
    else
      var r := Remove(s, client);
      if r.None? then None else Some(Scan(r.value, now))
  }

  /** udpserver_disconnect_all from `id` on. */
  function DropFrom(s: Server, id: nat, now: real): (r: Option<Server>)
    requires s.n <= |s.slots|
    ensures r.Some? ==> r.value.n <= s.n && |r.value.slots| == |s.slots|
    decreases s.n - id
  {
    if id >= s.n then Some(s)
    else
      var r := Drop(s, id, now);
      if r.None? then None else DropFrom(r.value, id + 1, now)
  }

  /** udpserver_maxconnections; Pd's resizebytes clears what it adds. */
  function Resize(s: Server, max: int): Server {
    if max < 1 || max < s.n || max == |s.slots| then s
    else s.(slots := seq(max, i => if 0 <= i < |s.slots| then s.slots[i] else None))
  }

  // ---------- sending ----------

  /** udpserver_socket2index from slot `i` on, which follows every slot up to the one it finds. */
  function IndexOf(slots: Slots, uniq: int, i: nat): (r: Option<int>)
    requires i <= |slots|
    ensures r.Some? ==> r.value == -1 || (i <= r.value < |slots| && slots[r.value].Some?
                                          && slots[r.value].value.uniq == uniq)
    decreases |slots| - i
  {
    if i == |slots| then Some(-1)
    else if slots[i].None? then None
    else if slots[i].value.uniq == uniq then Some(i)
    else IndexOf(slots, uniq, i + 1)
  }

  /** Exactly the first `n` slots are in use. */
  predicate Dense(s: Server) {
    s.n <= |s.slots| && forall i :: 0 <= i < |s.slots| ==> (s.slots[i].Some? <==> i < s.n)
  }

  /** udpserver_defaulttarget: `raw` counts from 1, negative excludes, 0 is everybody. */
  function SetTarget(s: Server, raw: int): (r: Option<Server>)
    requires s.n <= |s.slots|
    ensures r.Some? ==> r.value == s.(target := r.value.target)
  {
    var client := if raw < 0 then -raw else raw;
    if client > s.n then Some(s)
    else if client == 0 then Some(s.(target := 0))
    else if s.slots[client - 1].None? then None
    else
      var sockfd := s.slots[client - 1].value.uniq;
      Some(s.(target := if raw < 0 then -sockfd else sockfd))
  }

  /** The new state and the ids of the clients sent to, in order. */
  type Outcome = Option<(Server, seq<int>)>

  function Prepend(ids: seq<int>, o: Outcome): Outcome {
    if o.None? then None else Some((o.value.0, ids + o.value.1))
  }

  predicate Smaller(o: Outcome, s: Server) {
    o.Some? ==> o.value.0.n <= s.n && o.value.0.n <= |o.value.0.slots| == |s.slots|
  }

  /** udpserver_send_bytes; the senders of the clients in `refusing` answer -1. */
  function SendOne(s: Server, client: nat, refusing: set<int>, now: real): (o: Outcome)
    requires s.n <= |s.slots|
    ensures Smaller(o, s)
  {
    if client >= |s.slots| || s.slots[client].None? then Some((s, []))
    else
      var id := s.slots[client].value.uniq;
      if id !in refusing then Some((s, [id]))
      else
        var r := Drop(s, client, now);
        if r.None? then None else Some((r.value, [id]))
  }

  /** The loop of udpserver_send_butclient from `client` on; with `but` negative, that of udpserver_broadcast. */
  function SendFrom(s: Server, client: nat, but: int, refusing: set<int>, now: real): (o: Outcome)
    requires s.n <= |s.slots|
    ensures Smaller(o, s)
    decreases s.n - client
  {
    if client >= s.n then Some((s, []))
    else if client == but then SendFrom(s, client + 1, but, refusing, now)
    else
      var o := SendOne(s, client, refusing, now);
      if o.None? then None else Prepend(o.value.1, SendFrom(o.value.0, client + 1, but, refusing, now))
  }

  /** udpserver_broadcast */
  function Broadcast(s: Server, refusing: set<int>, now: real): (o: Outcome)
    requires s.n <= |s.slots|
    ensures Smaller(o, s)
  {
    SendFrom(Scan(s, now), 0, -1, refusing, now)
  }

  /** udpserver_defaultsend */
  function DefaultSend(s: Server, refusing: set<int>, now: real): (o: Outcome)
    requires s.n <= |s.slots|
    ensures Smaller(o, s)
  {
    if s.target == 0 then Broadcast(s, refusing, now)
    else
      var i := IndexOf(s.slots[..s.n], if s.target > 0 then s.target else -s.target, 0);
      if i.None? then None
      else if i.value < 0 then Broadcast(s.(target := 0), refusing, now)
      else if s.target > 0 then SendOne(s, i.value, refusing, now)
      else SendFrom(s, 0, i.value, refusing, now)
  }

  /** A scan always leaves a dense table, also when it found holes. */
  lemma ScanDense(s: Server, now: real)
    requires s.n <= |s.slots|
    ensures Dense(Purge(s, now))
    ensures Dense(s) ==> Dense(Scan(s, now))
  {
  }

  lemma PrependNothing(o: Outcome)
    ensures Prepend([], o) == o
  {
    if o.Some? {
      assert [] + o.value.1 == o.value.1;
    }
  }

  lemma PrependTwice(a: seq<int>, b: seq<int>, o: Outcome)
    ensures Prepend(a, Prepend(b, o)) == Prepend(a + b, o)
  {
    if o.Some? {
      Regroup(a, b, o.value.1);
    }
  }

  // ---------- the object ----------

  class UdpServer {
    var sr: array<Option<Client>>
    var nconnections: nat
    var accept: bool
    var timeout: real
    var lastchecked: real
    var defaulttarget: int
    var uniq: int          // static in udpserver_sender_new
    var freed: seq<int>

    ghost predicate Valid()
      reads this
    {
      nconnections <= sr.Length
    }

    ghost function View(): Server
      reads this, sr
    {
      Server(sr[..], nconnections, accept, timeout, lastchecked, defaulttarget, uniq, freed)
    }

    /** udpserver_new, with MAX_CONNECT slots; `uniq` is the next id of the process. */
    constructor (uniq: int)
      ensures Valid() && fresh(sr)
      ensures View() == Server(Pack([], MAX_CONNECT), 0, true, 0.0, 0.0, 0, uniq, [])
    {
      sr := new Option<Client>[MAX_CONNECT](i => None);
      nconnections, accept, timeout, lastchecked, defaulttarget := 0, true, 0.0, 0.0, 0;
      this.uniq, freed := uniq, [];
    }

    /** udpserver__find_sender */
    method FindSender(host: int, port: int) returns (r: int)
      requires Valid()
      ensures r == Find(sr[..nconnections], host, port, 0)
    {
      var i := 0;
      while i < nconnections
        invariant 0 <= i <= nconnections
        invariant Find(sr[..nconnections], host, port, 0) == Find(sr[..nconnections], host, port, i)
      {
        if sr[i].None? {
          return -1;
        }
        if sr[i].value.port == port && sr[i].value.host == host {
          return i;
        }
        i := i + 1;
      }
      r := -1;
    }

    /** udpserver_sender_add */
    method SenderAdd(host: int, port: int, now: real) returns (id: int)
      requires Valid()
      modifies this`nconnections, this`uniq, sr
      ensures Valid() && (View(), id) == Add(old(View()), host, port, now)
    {
      if !accept {
        return -1;
      }
      id := FindSender(host, port);
      FindInRange(sr[..nconnections], host, port, 0);
      if id < 0 {
        id := nconnections;
        if id < sr.Length {
          sr[id] := Some(Client(uniq, host, port, now));
          uniq := uniq + 1;
          nconnections := nconnections + 1;
        } else {
          id := -1;
        }
      } else {
        sr[id] := Some(sr[id].value.(lastseen := now));
      }
    }

    /** udpserver_sender_remove; `ok` is false when the loop reads beyond the table. */
    method SenderRemove(id: nat) returns (ok: bool)
      requires Valid()
      modifies this`nconnections, this`freed, sr
      ensures ok <==> Remove(old(View()), id).Some?
      ensures ok ==> Valid() && View() == Remove(old(View()), id).value
    {
      if id < nconnections && sr[id].Some? {
        freed := freed + [sr[id].value.uniq];
        var i := id;
        while i < nconnections
          invariant id <= i <= nconnections == old(nconnections)
          invariant freed == old(freed) + [old(sr[id]).value.uniq]
          invariant sr[..] == old(sr[..])[id := sr[id]]
          invariant i > id ==> id + 1 < sr.Length
        {
          if id + 1 >= sr.Length {
            return false;
          }
          sr[id] := sr[id + 1];
          i := i + 1;
        }
        sr[id] := None;
        nconnections := nconnections - 1;
      }
      ok := true;
    }

    /** First loop of udpserver_sender_autoremove: the read index runs ahead of the write index in one array. */
    method Compact(now: real) returns (w: nat)
      requires Valid()
      modifies this`freed, sr
      ensures w == |Kept(old(sr[..nconnections]), now, timeout)| <= nconnections
      ensures forall k :: 0 <= k < w ==> sr[k] == Some(Kept(old(sr[..nconnections]), now, timeout)[k])
      ensures freed == old(freed) + Dropped(old(sr[..nconnections]), now, timeout)
    {
      ghost var was := sr[..nconnections];
      var id := 0;
      w := 0;
      while id < nconnections
        invariant 0 <= w <= id <= nconnections
        invariant forall k :: id <= k < nconnections ==> sr[k] == was[k]
        invariant w == |Kept(was[..id], now, timeout)|
        invariant forall k :: 0 <= k < w ==> sr[k] == Some(Kept(was[..id], now, timeout)[k])
        invariant freed == old(freed) + Dropped(was[..id], now, timeout)
      {
        assert was[..id + 1][..id] == was[..id];
        if sr[id].Some? {
          if now - sr[id].value.lastseen > timeout {
            freed := freed + [sr[id].value.uniq];
            sr[id] := None;
          } else {
            sr[w] := sr[id];
            w := w + 1;
          }
        }
        id := id + 1;
      }
      assert was[..id] == was;
    }

    /** Second loop: empty everything from the write index on. */
    method ClearFrom(from: nat)
      requires from <= sr.Length
      modifies sr
      ensures sr[..] == old(sr[..from]) + seq(sr.Length - from, _ => None)
    {
      var w := from;
      while w < sr.Length
        invariant from <= w <= sr.Length
        invariant sr[..from] == old(sr[..from])
        invariant forall k :: from <= k < w ==> sr[k].None?
      {
        sr[w] := None;
        w := w + 1;
      }
    }

    /** Third loop: count up to the first empty slot. */
    method Recount()
      modifies this`nconnections
      ensures nconnections <= sr.Length
      ensures forall k :: 0 <= k < nconnections ==> sr[k].Some?
      ensures nconnections < sr.Length ==> sr[nconnections].None?
    {
      nconnections := 0;
      var id := 0;
      while id < sr.Length
        invariant 0 <= id == nconnections <= sr.Length
        invariant forall k :: 0 <= k < id ==> sr[k].Some?
      {
        if sr[id].None? {
          break;
        }
        nconnections := nconnections + 1;
        id := id + 1;
      }
    }

    /** Both loops: the clients that have not expired, and nothing behind them. */
    method CompactAndClear(now: real)
      requires Valid()
      modifies this`freed, sr
      ensures sr[..] == Pack(Kept(old(sr[..nconnections]), now, timeout), sr.Length)
      ensures freed == old(freed) + Dropped(old(sr[..nconnections]), now, timeout)
    {
      var w := Compact(now);
      ghost var front := sr[..w];
      ClearFrom(w);
      assert forall k :: 0 <= k < sr.Length ==> sr[k] == sr[..][k] == if k < w then front[k] else None;
    }

    /** udpserver_sender_autoremove */
    method SenderAutoremove(now: real)
      requires Valid()
      modifies this`nconnections, this`lastchecked, this`freed, sr
      ensures Valid() && View() == Scan(old(View()), now)
    {
      if timeout <= 0.0 {
        return;
      }
      if now - lastchecked <= 0.0 {
        return;
      }
      lastchecked := now;
      ghost var kept := Kept(sr[..nconnections], now, timeout);
      assert sr[..][..nconnections] == sr[..nconnections];
      CompactAndClear(now);
      assert forall k :: 0 <= k < sr.Length ==> sr[k] == sr[..][k] && (sr[k].Some? <==> k < |kept|);
      assert |kept| < sr.Length ==> sr[|kept|].None?;
      Recount();
      assert nconnections == |kept|;
    }

    /** udpserver_socket2index; None when it follows an empty slot. */
    method Socket2Index(id: int) returns (r: Option<int>)
      requires Valid()
      ensures r == IndexOf(sr[..nconnections], id, 0)
    {
      var i := 0;
      while i < nconnections
        invariant 0 <= i <= nconnections
        invariant IndexOf(sr[..nconnections], id, 0) == IndexOf(sr[..nconnections], id, i)
      {
        if sr[i].None? {
          return None;
        }
        if sr[i].value.uniq == id {
          return Some(i);
        }
        i := i + 1;
      }
      r := Some(-1);
    }

    /** udpserver_maxconnections */
    method MaxConnections(max: int)
      requires Valid()
      modifies this`sr
      ensures Valid() && View() == Resize(old(View()), max)
      ensures sr == old(sr) || fresh(sr)
    {
      if max < 1 || max < nconnections || max == sr.Length {
        return;
      }
      var was := sr;
      var bigger := new Option<Client>[max](i requires 0 <= i reads was => if i < was.Length then was[i] else None);
      sr := bigger;
    }

    /** udpserver_defaulttarget; `ok` is false when it follows an empty slot. */
    method DefaultTarget(raw: int) returns (ok: bool)
      requires Valid()
      modifies this`defaulttarget
      ensures ok <==> SetTarget(old(View()), raw).Some?
      ensures ok ==> View() == SetTarget(old(View()), raw).value
    {
      var client := if raw < 0 then -raw else raw;
      if client > nconnections {
        return true;
      }
      var sockfd := 0;
      if client > 0 {
        if sr[client - 1].None? {
          return false;
        }
        sockfd := sr[client - 1].value.uniq;
      }
      if raw < 0 {
        sockfd := -sockfd;
      }
      defaulttarget := sockfd;
      ok := true;
    }

    /** udpserver_disconnect */
    method Disconnect(client: nat, now: real) returns (ok: bool)
      requires Valid()
      modifies this`nconnections, this`lastchecked, this`freed, sr
      ensures ok <==> Drop(old(View()), client, now).Some?
      ensures ok ==> Valid() && View() == Drop(old(View()), client, now).value
    {
      if client >= nconnections {
        return true;
      }
      if sr[client].None? {
        return false;
      }
      ok := SenderRemove(client);
      if ok {
        SenderAutoremove(now);
      }
    }

    /** udpserver_disconnect_all */
    method DisconnectAll(now: real) returns (ok: bool)
      requires Valid()
      modifies this`nconnections, this`lastchecked, this`freed, sr
      ensures ok <==> DropFrom(old(View()), 0, now).Some?
      ensures ok ==> Valid() && View() == DropFrom(old(View()), 0, now).value
    {
      ghost var all := DropFrom(View(), 0, now);
      ok := true;
      var id := 0;
      while id < nconnections
        invariant Valid() && 0 <= id && ok
        invariant DropFrom(View(), id, now) == all
        decreases nconnections - id
      {
        ok := Disconnect(id, now);
        if !ok {
          return;
        }
        id := id + 1;
      }
    }

    /** udpserver_send_bytes */
    method SendBytes(client: nat, refusing: set<int>, now: real) returns (ok: bool, sent: seq<int>)
      requires Valid()
      modifies this`nconnections, this`lastchecked, this`freed, sr
      ensures ok <==> SendOne(old(View()), client, refusing, now).Some?
      ensures ok ==> Valid() && (View(), sent) == SendOne(old(View()), client, refusing, now).value
    {
      ok, sent := true, [];
      if client < sr.Length && sr[client].Some? {
        var id := sr[client].value.uniq;
        sent := [id];
        if id in refusing {
          ok := Disconnect(client, now);
        }
      }
    }

    /** The loop of udpserver_send_butclient and, with `but` negative, of udpserver_broadcast. */
    method SendBut(but: int, refusing: set<int>, now: real) returns (ok: bool, sent: seq<int>)
      requires Valid()
      modifies this`nconnections, this`lastchecked, this`freed, sr
      ensures ok <==> SendFrom(old(View()), 0, but, refusing, now).Some?
      ensures ok ==> Valid() && (View(), sent) == SendFrom(old(View()), 0, but, refusing, now).value
    {
      ghost var all := SendFrom(View(), 0, but, refusing, now);
      PrependNothing(all);
      ok, sent := true, [];
      var client := 0;
      while client < nconnections
        invariant Valid() && 0 <= client && ok
        invariant Prepend(sent, SendFrom(View(), client, but, refusing, now)) == all
        decreases nconnections - client
      {
        if client != but {
          var ids;
          ok, ids := SendBytes(client, refusing, now);
          if !ok {
            return;
          }
          PrependTwice(sent, ids, SendFrom(View(), client + 1, but, refusing, now));
          sent := sent + ids;
        }
        client := client + 1;
      }
      assert sent + [] == sent;
    }

    /** udpserver_defaultsend */
    method Send(refusing: set<int>, now: real) returns (ok: bool, sent: seq<int>)
      requires Valid()
      modifies this`nconnections, this`lastchecked, this`freed, this`defaulttarget, sr
      ensures ok <==> DefaultSend(old(View()), refusing, now).Some?
      ensures ok ==> Valid() && (View(), sent) == DefaultSend(old(View()), refusing, now).value
    {
      if defaulttarget != 0 {
        var uniq := if defaulttarget > 0 then defaulttarget else -defaulttarget;
        var client := Socket2Index(uniq);
        assert sr[..][..nconnections] == sr[..nconnections];
        if client.None? {
          return false, [];
        }
        if client.value < 0 {
          defaulttarget := 0;
        } else if defaulttarget > 0 {
          ok, sent := SendBytes(client.value, refusing, now);
          return;
        } else {
          ok, sent := SendBut(client.value, refusing, now);
          return;
        }
      }
      SenderAutoremove(now);
      ok, sent := SendBut(-1, refusing, now);
    }
  }
}
