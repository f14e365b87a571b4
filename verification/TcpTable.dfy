/** The client table of tcpserver.c: shifting on removal, and broadcasts over a snapshot. */
module TcpTable {
  import opened Common

  const MAX_CONNECT := 32

  /** t_tcpserver_socketreceiver */
  datatype Conn = Conn(fd: int, host: int, port: int)

  /** What happens to clients: a chunk given to the sender, the client freed, a connection refused. */
  datatype Event = Sent(fd: int) | Freed(fd: int) | Closed(fd: int)

  predicate Distinct(cs: seq<Conn>) {
    forall i, j {:trigger cs[i].fd, cs[j].fd} :: 0 <= i < j < |cs| ==> cs[i].fd != cs[j].fd
  }

  predicate Connected(cs: seq<Conn>, fd: int) { exists i :: 0 <= i < |cs| && cs[i].fd == fd }

  /** A table of `max` slots in which a removal from `n` clients finds every slot it touches. */
  predicate Room(n: nat, max: nat) { n + 1 < max }

  function Without(cs: seq<Conn>, i: nat): seq<Conn>
    requires i < |cs|
  {
    cs[..i] + cs[i + 1..]
  }

  /** The clients without the first one on descriptor `fd`. */
  function WithoutFd(cs: seq<Conn>, fd: int): seq<Conn> {
    if cs == [] then []
    else if cs[0].fd == fd then cs[1..]
    else [cs[0]] + WithoutFd(cs[1..], fd)
  }

  // ---------- what the loops compute ----------

  /** Every second client, from the second on. */
  function Odds(cs: seq<Conn>): seq<Conn> { seq(|cs| / 2, i requires 0 <= i < |cs| / 2 => cs[2 * i + 1]) }

  /** Every second client, from the first on. */
  function Evens(cs: seq<Conn>): seq<Conn> { seq((|cs| + 1) / 2, i requires 0 <= i < (|cs| + 1) / 2 => cs[2 * i]) }

  function Frees(cs: seq<Conn>): seq<Event> { seq(|cs|, i requires 0 <= i < |cs| => Freed(cs[i].fd)) }

  /** The table when the first of each of the first `id` pairs is gone. */
  function Thinned(cs: seq<Conn>, id: nat): seq<Conn>
    requires 2 * id <= |cs| + 1
  {
    seq(|cs| - id, k requires 0 <= k < |cs| - id => if k < id then cs[2 * k + 1] else cs[k + id])
  }

  /** Whether the client at `i` is sent to and the sender refuses. */
  predicate Fails(sel: seq<Option<Conn>>, sizes: seq<int>, i: nat)
    requires i < |sel| == |sizes|
  {
    sel[i].Some? && sizes[i] < 0
  }

  predicate AnyFails(sel: seq<Option<Conn>>, sizes: seq<int>)
    requires |sel| == |sizes|
  {
    exists i :: 0 <= i < |sel| && Fails(sel, sizes, i)
  }

  /** The table after the first `i` turns of tcpserver_send_bytes_clients: failing clients leave by descriptor. */
  function TableAfter(cs: seq<Conn>, sel: seq<Option<Conn>>, sizes: seq<int>, i: nat): seq<Conn>
    requires i <= |sel| == |sizes|
  {
    if i == 0 then cs
    else
      var t := TableAfter(cs, sel, sizes, i - 1);
      if Fails(sel, sizes, i - 1) then WithoutFd(t, sel[i - 1].value.fd) else t
  }

  /** Those of the first `i` clients whose send did not fail, in order. */
  function Left(cs: seq<Conn>, sel: seq<Option<Conn>>, sizes: seq<int>, i: nat): seq<Conn>
    requires i <= |cs| == |sel| == |sizes|
  {
    if i == 0 then []
    else Left(cs, sel, sizes, i - 1) + if Fails(sel, sizes, i - 1) then [] else [cs[i - 1]]
  }

  /** Each selected one of the first `i` clients is sent to once, and freed right after that if the send failed. */
  function Trace(sel: seq<Option<Conn>>, sizes: seq<int>, i: nat): seq<Event>
    requires i <= |sel| == |sizes|
  {
    if i == 0 then [] else Trace(sel, sizes, i - 1) + Turn(sel[i - 1], sizes[i - 1])
  }

  function Turn(c: Option<Conn>, size: int): seq<Event> {
    if c.None? then [] else if size < 0 then [Sent(c.value.fd), Freed(c.value.fd)] else [Sent(c.value.fd)]
  }

  /** The snapshot for a broadcast, and for all but one. */
  function Everybody(cs: seq<Conn>): seq<Option<Conn>> {
    seq(|cs|, i requires 0 <= i < |cs| => Some(cs[i]))
  }

  function EverybodyBut(cs: seq<Conn>, but: nat): seq<Option<Conn>> {
    if but < |cs| then Everybody(cs)[but := None] else Everybody(cs)
  }

  predicate Selection(cs: seq<Conn>, sel: seq<Option<Conn>>) {
    |sel| == |cs| && forall i {:trigger sel[i]} :: 0 <= i < |cs| && sel[i].Some? ==> sel[i].value == cs[i]
  }

  // ---------- the object ----------

  /** Each method reports the events it caused, in order. */
  class TcpServer {
    var sr: array<Option<Conn>>
    var nconnections: nat
    var accepting: bool

    /** The clients in order; the rest of the table is empty. */
    ghost var clients: seq<Conn>

    ghost predicate Valid()
      reads this, sr
    {
      && nconnections == |clients| <= sr.Length
      && (forall i {:trigger sr[i]} :: 0 <= i < |clients| ==> sr[i] == Some(clients[i]))
      && (forall i :: |clients| <= i < sr.Length ==> sr[i].None?)
      && Distinct(clients)
    }

    /** The table part of tcpserver_new. */
    constructor ()
      ensures Valid() && clients == [] && sr.Length == MAX_CONNECT && accepting && fresh(sr)
    {
      sr := new Option<Conn>[MAX_CONNECT](i => None);
      nconnections, accepting, clients := 0, true, [];
    }

    /**
     tcpserver_disconnect; besides the slots it shifts it writes the one after the next free one.
     `ok` is false when it gets beyond the end of the table, where C leaves open what happens.
     */
    method Disconnect(client: nat) returns (ok: bool, ev: seq<Event>)
      requires Valid() && client < nconnections
      modifies this`nconnections, this`clients, sr
      ensures ok <==> Room(|old(clients)|, sr.Length)
      ensures ok ==> Valid() && clients == Without(old(clients), client)
      ensures ok ==> ev == [Freed(old(clients)[client].fd)]
    {
      ev := [Freed(sr[client].value.fd)];
      sr[client] := None;
      var n := nconnections;
      var k := client;
      while k < n
        invariant client <= k <= n == nconnections == |clients| && clients == old(clients)
        invariant forall i :: 0 <= i < client ==> sr[i] == Some(clients[i])
        invariant forall i :: client <= i < k ==> sr[i] == if i + 1 < n then Some(clients[i + 1]) else None
        invariant forall i :: k <= i < sr.Length && i != client ==> sr[i] == if i < n then Some(clients[i]) else None
      {
        if k + 1 >= sr.Length {
          return false, ev;
        }
        sr[k] := sr[k + 1];
        k := k + 1;
      }
      if k + 1 >= sr.Length {
        return false, ev;
      }
      sr[k + 1] := None;
      nconnections := nconnections - 1;
      WithoutDistinct(clients, client);
      clients := Without(clients, client);
      ok := true;
    }

    /** tcpserver_socket2index */
    method Socket2Index(fd: int) returns (r: int)
      requires Valid()
      ensures r == -1 || (0 <= r < |clients| && clients[r].fd == fd)
      ensures r == -1 ==> forall i :: 0 <= i < |clients| ==> clients[i].fd != fd
    {
      var i := 0;
      while i < nconnections
        invariant 0 <= i <= nconnections
        invariant forall k :: 0 <= k < i ==> clients[k].fd != fd
      {
        if sr[i].value.fd == fd {
          return i;
        }
        i := i + 1;
      }
      r := -1;
    }

    /** tcpserver_disconnect_client, which counts from 1. */
    method DisconnectClient(client: int) returns (ok: bool, ev: seq<Event>)
      requires Valid()
      modifies this`nconnections, this`clients, sr
      ensures ok <==> (1 <= client <= |old(clients)| ==> Room(|old(clients)|, sr.Length))
      ensures ok ==> Valid()
      ensures ok ==>
                clients == if 1 <= client <= |old(clients)| then Without(old(clients), client - 1) else old(clients)
      ensures ok ==> ev == if 1 <= client <= |old(clients)| then [Freed(old(clients)[client - 1].fd)] else []
    {
      ok, ev := true, [];
      if nconnections == 0 {
        return;
      }
      if !(client > 0 && client <= nconnections) {
        return;
      }
      ok, ev := Disconnect(client - 1);
    }

    /** tcpserver_disconnect_socket */
    method DisconnectSocket(fd: int) returns (ok: bool, ev: seq<Event>)
      requires Valid()
      modifies this`nconnections, this`clients, sr
      ensures ok <==> (Connected(old(clients), fd) ==> Room(|old(clients)|, sr.Length))
      ensures ok ==> Valid() && nconnections <= old(nconnections) && clients == WithoutFd(old(clients), fd)
      ensures ok ==> ev == if Connected(old(clients), fd) then [Freed(fd)] else []
    {
      ok, ev := true, [];
      var id := Socket2Index(fd);
      WithoutFdAt(clients, fd, if id >= 0 then id else nconnections);
      if id >= 0 {
        ok, ev := DisconnectClient(id + 1);
      }
    }

    /** tcpserver_disconnect_all: the index goes up while the table goes down. */
    method DisconnectAll() returns (ok: bool, ev: seq<Event>)
      requires Valid()
      modifies this`nconnections, this`clients, sr
      ensures ok <==> (old(clients) != [] ==> Room(|old(clients)|, sr.Length))
      ensures ok ==> Valid() && clients == Odds(old(clients))
      ensures ok ==> ev == Frees(Evens(old(clients)))
    {
      ghost var was := clients;
      ok, ev := true, [];
      var id := 0;
      while id < nconnections
        invariant Valid() && 0 <= 2 * id <= |was| + 1 && ok
        invariant clients == Thinned(was, id)
        invariant id > 0 ==> Room(|was|, sr.Length)
        invariant ev == Frees(Evens(was))[..id]
        decreases nconnections - id
      {
        ThinnedStep(was, id);
        var e;
        ok, e := Disconnect(id);
        if !ok {
          return;
        }
        ev := ev + e;
        id := id + 1;
      }
      assert clients == Odds(was);
    }

    /** The table part of tcpserver_connectpoll; accept gives a descriptor that is not in use, or fails. */
    method ConnectPoll(fd: int, host: int, port: int) returns (ev: seq<Event>)
      requires Valid() && (fd >= 0 ==> forall i :: 0 <= i < |clients| ==> clients[i].fd != fd)
      modifies this`nconnections, this`clients, sr
      ensures Valid()
      ensures var joins := fd >= 0 && accepting && |old(clients)| < sr.Length;
              && clients == old(clients) + (if joins then [Conn(fd, host, port)] else [])
              && ev == if fd >= 0 && !joins then [Closed(fd)] else []
    {
      ev := [];
      if fd < 0 {
      } else if !accepting {
        ev := [Closed(fd)];
      } else {
        if nconnections >= sr.Length {
          return [Closed(fd)];
        }
        sr[nconnections] := Some(Conn(fd, host, port));
        nconnections := nconnections + 1;
        clients := clients + [Conn(fd, host, port)];
      }
    }

    /** tcpserver_send_bytes_client; `size` is what the sender answers, -1 if there is none. */
    method SendBytesClient(c: Option<Conn>, size: int) returns (ok: bool, ev: seq<Event>)
      requires Valid() && (c.Some? ==> c.value in clients)
      modifies this`nconnections, this`clients, sr
      ensures ok <==> (c.Some? && size < 0 ==> Room(|old(clients)|, sr.Length))
      ensures ok ==> Valid() && nconnections <= old(nconnections)
      ensures ok ==> clients == if c.Some? && size < 0 then WithoutFd(old(clients), c.value.fd) else old(clients)
      ensures ok ==> ev == Turn(c, size)
    {
      ok, ev := true, [];
      if c.Some? {
        ev := [Sent(c.value.fd)];
        if size < 0 {
          var e;
          ok, e := DisconnectSocket(c.value.fd);
          ev := ev + e;
        }
      }
    }

    /** tcpserver_send_bytes_clients over a snapshot `sel`, with the senders' answers. */
    method SendBytesClients(sel: seq<Option<Conn>>, sizes: seq<int>) returns (ok: bool, ev: seq<Event>)
      requires Valid() && Selection(clients, sel) && |sizes| == |sel|
      modifies this`nconnections, this`clients, sr
      ensures ok <==> (AnyFails(sel, sizes) ==> Room(|old(clients)|, sr.Length))
      ensures ok ==> Valid() && clients == Left(old(clients), sel, sizes, |sel|)
      ensures ok ==> ev == Trace(sel, sizes, |sel|)
    {
      ghost var cs := clients;
      ok, ev := true, [];
      var i := 0;
      while i < |sel|
        invariant 0 <= i <= |sel| && Valid() && nconnections <= |cs| && ok
        invariant Room(|cs|, sr.Length) || (clients == cs && forall j :: 0 <= j < i ==> !Fails(sel, sizes, j))
        invariant clients == TableAfter(cs, sel, sizes, i)
        invariant ev == Trace(sel, sizes, i)
      {
        StillThere(cs, sel, sizes, i);
        assert Fails(sel, sizes, i) <==> sel[i].Some? && sizes[i] < 0;
        var e;
        ok, e := SendBytesClient(sel[i], sizes[i]);
        if !ok {
          return;
        }
        ev := ev + e;
        i := i + 1;
      }
      TurnsFilter(cs, sel, sizes, i);
    }

    method Snapshot() returns (sel: array<Option<Conn>>)
      requires Valid()
      ensures fresh(sel) && sel[..] == Everybody(clients)
    {
      sel := new Option<Conn>[nconnections](i => None);
      var client := 0;
      while client < nconnections
        invariant 0 <= client <= nconnections
        invariant forall k :: 0 <= k < client ==> sel[k] == Some(clients[k])
      {
        sel[client] := sr[client];
        client := client + 1;
      }
    }

    /** tcpserver_broadcast */
    method Broadcast(sizes: seq<int>) returns (ok: bool, ev: seq<Event>)
      requires Valid() && |sizes| == nconnections
      modifies this`nconnections, this`clients, sr
      ensures ok <==> (AnyFails(Everybody(old(clients)), sizes) ==> Room(|old(clients)|, sr.Length))
      ensures ok ==> Valid() && clients == Left(old(clients), Everybody(old(clients)), sizes, |sizes|)
      ensures ok ==> ev == Trace(Everybody(old(clients)), sizes, |sizes|)
    {
      if nconnections == 0 {
        return true, [];
      }
      var sel := Snapshot();
      ok, ev := SendBytesClients(sel[..], sizes);
    }

    /** tcpserver_send_butclient */
    method SendButClient(but: nat, sizes: seq<int>) returns (ok: bool, ev: seq<Event>)
      requires Valid() && |sizes| == nconnections
      modifies this`nconnections, this`clients, sr
      ensures ok <==> (AnyFails(EverybodyBut(old(clients), but), sizes) ==> Room(|old(clients)|, sr.Length))
      ensures ok ==> Valid() && clients == Left(old(clients), EverybodyBut(old(clients), but), sizes, |sizes|)
      ensures ok ==> ev == Trace(EverybodyBut(old(clients), but), sizes, |sizes|)
    {
      if nconnections == 0 {
        return true, [];
      }
      var sel := Snapshot();
      if but < nconnections {
        sel[but] := None;
      }
      assert sel[..] == EverybodyBut(clients, but);
      ok, ev := SendBytesClients(sel[..], sizes);
    }
  }

  /**
   A new server takes `fds` as its clients, and then the first of them is disconnected: that stays inside the table
   exactly when two slots were still free.
   */
  method ConnectThenDisconnect(fds: seq<nat>) returns (ok: bool)
    requires 0 < |fds| && forall i, j :: 0 <= i < j < |fds| ==> fds[i] != fds[j]
    ensures ok <==> |fds| + 1 < MAX_CONNECT
  {
    var x := new TcpServer();
    var i := 0;
    while i < |fds|
      invariant 0 <= i <= |fds| && x.Valid() && x.accepting && x.sr.Length == MAX_CONNECT && fresh(x) && fresh(x.sr)
      invariant |x.clients| == if i < MAX_CONNECT then i else MAX_CONNECT
      invariant forall k :: 0 <= k < |x.clients| ==> exists j :: 0 <= j < i && x.clients[k].fd == fds[j]
    {
      var _ := x.ConnectPoll(fds[i], 0, 0);
      i := i + 1;
    }
    var e;
    ok, e := x.Disconnect(0);
  }

  // ---------- properties of what they compute ----------

  lemma WithoutDistinct(cs: seq<Conn>, i: nat)
    requires i < |cs| && Distinct(cs)
    ensures Distinct(Without(cs, i))
  {
    var w := Without(cs, i);
    forall j, k | 0 <= j < k < |w| ensures w[j].fd != w[k].fd {
      assert w[j] == cs[if j < i then j else j + 1] && w[k] == cs[if k < i then k else k + 1];
    }
  }

  lemma ThinnedStep(cs: seq<Conn>, id: nat)
    requires 2 * id < |cs|
    ensures Thinned(cs, id)[id] == cs[2 * id]
    ensures Without(Thinned(cs, id), id) == Thinned(cs, id + 1)
  {
  }

  lemma WithoutCons(cs: seq<Conn>, i: nat)
    requires 0 < i < |cs|
    ensures [cs[0]] + Without(cs[1..], i - 1) == Without(cs, i)
  {
  }

  lemma {:induction false} WithoutFdAt(cs: seq<Conn>, fd: int, i: nat)
    requires i <= |cs| && forall k :: 0 <= k < i ==> cs[k].fd != fd
    requires i < |cs| ==> cs[i].fd == fd
    ensures WithoutFd(cs, fd) == if i < |cs| then Without(cs, i) else cs
  {
    if i == 0 {
      assert cs != [] ==> Without(cs, 0) == cs[1..];
    } else {
      WithoutFdAt(cs[1..], fd, i - 1);
      if i < |cs| {
        WithoutCons(cs, i);
      } else {
        assert [cs[0]] + cs[1..] == cs;
      }
    }
  }

  lemma {:induction false} LeftMember(cs: seq<Conn>, sel: seq<Option<Conn>>, sizes: seq<int>, i: nat, c: Conn)
    requires i <= |cs| == |sel| == |sizes|
    ensures c in Left(cs, sel, sizes, i) <==> exists k :: 0 <= k < i && cs[k] == c && !Fails(sel, sizes, k)
  {
    if i == 0 {
    } else {
      LeftMember(cs, sel, sizes, i - 1, c);
    }
  }

  /** The failing clients leave one by one, and the others stay in order. */
  lemma {:induction false} TurnsFilter(cs: seq<Conn>, sel: seq<Option<Conn>>, sizes: seq<int>, i: nat)
    requires Distinct(cs) && Selection(cs, sel) && i <= |sel| == |sizes|
    ensures TableAfter(cs, sel, sizes, i) == Left(cs, sel, sizes, i) + cs[i..]
  {
    if i == 0 {
      assert [] + cs[0..] == cs;
    } else {
      var left, c, rest := Left(cs, sel, sizes, i - 1), cs[i - 1], cs[i..];
      TurnsFilter(cs, sel, sizes, i - 1);
      assert cs[i - 1..] == [c] + rest;
      if Fails(sel, sizes, i - 1) {
        NobodyTwice(cs, sel, sizes, i - 1);
        LeavesNext(left, c, rest);
        assert left + [] == left;
      } else {
        Regroup(left, [c], rest);
      }
    }
  }

  lemma NobodyTwice(cs: seq<Conn>, sel: seq<Option<Conn>>, sizes: seq<int>, i: nat)
    requires Distinct(cs) && i < |cs| == |sel| == |sizes|
    ensures var left := Left(cs, sel, sizes, i); forall k :: 0 <= k < |left| ==> left[k].fd != cs[i].fd
  {
    var left := Left(cs, sel, sizes, i);
    forall k | 0 <= k < |left| ensures left[k].fd != cs[i].fd {
      LeftMember(cs, sel, sizes, i, left[k]);
    }
  }

  lemma {:induction false} LeavesNext(left: seq<Conn>, c: Conn, rest: seq<Conn>)
    requires forall k :: 0 <= k < |left| ==> left[k].fd != c.fd
    ensures WithoutFd(left + ([c] + rest), c.fd) == left + rest
  {
    var tail := [c] + rest;
    if left == [] {
      assert left + tail == tail && tail[1..] == rest;
    } else {
      LeavesNext(left[1..], c, rest);
      assert (left + tail)[1..] == left[1..] + tail;
      assert [left[0]] + (left[1..] + rest) == left + rest;
    }
  }

  /** Whoever's turn it is has not been freed before. */
  lemma StillThere(cs: seq<Conn>, sel: seq<Option<Conn>>, sizes: seq<int>, i: nat)
    requires Distinct(cs) && Selection(cs, sel) && i < |sel| == |sizes|
    ensures cs[i] in TableAfter(cs, sel, sizes, i)
    ensures sel[i].Some? ==> sel[i].value in TableAfter(cs, sel, sizes, i)
  {
    TurnsFilter(cs, sel, sizes, i);
    assert cs[i..][0] == cs[i];
  }

  /** A removal takes one client, and the others close up in order. */
  lemma OthersCloseUp(cs: seq<Conn>, i: nat, k: nat)
    requires i < |cs|
    ensures |Without(cs, i)| == |cs| - 1
    ensures k < |cs| - 1 ==> Without(cs, i)[k] == if k < i then cs[k] else cs[k + 1]
  {
  }

  /**
   `tcpserver_disconnect_all` frees the first of every two clients and leaves the second, so it empties the table
   exactly when there is at most one.
   */
  lemma DisconnectAllEmptiesOnlyOne(cs: seq<Conn>)
    ensures Odds(cs) == [] <==> |cs| <= 1
    ensures |Odds(cs)| == |cs| / 2 && forall i :: 0 <= i < |cs| / 2 ==> Odds(cs)[i] == cs[2 * i + 1]
    ensures |Frees(Evens(cs))| == (|cs| + 1) / 2
    ensures forall i :: 0 <= i < (|cs| + 1) / 2 ==> Frees(Evens(cs))[i] == Freed(cs[2 * i].fd)
  {
  }

  // ---------- what a broadcast does ----------

  function Count(ev: seq<Event>, e: Event): nat {
    if ev == [] then 0 else Count(ev[..|ev| - 1], e) + if ev[|ev| - 1] == e then 1 else 0
  }

  /** Nothing is sent to a descriptor after its client has been freed. */
  predicate NoSendAfterFree(ev: seq<Event>) {
    ev == [] || (var m := |ev| - 1;
                 NoSendAfterFree(ev[..m]) && (ev[m].Sent? ==> Freed(ev[m].fd) !in ev[..m]))
  }

  lemma TurnCounts(ev: seq<Event>, c: Option<Conn>, size: int, e: Event)
    ensures Count(ev + Turn(c, size), e)
         == Count(ev, e) + if c.Some? && (e == Sent(c.value.fd) || (e == Freed(c.value.fd) && size < 0)) then 1 else 0
  {
    if c.None? {
      assert ev + Turn(c, size) == ev;
    } else {
      var one, two := ev + [Sent(c.value.fd)], ev + [Sent(c.value.fd), Freed(c.value.fd)];
      assert one[..|one| - 1] == ev;
      assert two[..|two| - 1] == one;
    }
  }

  lemma TurnIsOrderly(ev: seq<Event>, c: Option<Conn>, size: int)
    requires NoSendAfterFree(ev) && (c.Some? ==> Freed(c.value.fd) !in ev)
    ensures NoSendAfterFree(ev + Turn(c, size))
  {
    if c.None? {
      assert ev + Turn(c, size) == ev;
    } else {
      var one, two := ev + [Sent(c.value.fd)], ev + [Sent(c.value.fd), Freed(c.value.fd)];
      assert one[..|one| - 1] == ev;
      assert two[..|two| - 1] == one;
    }
  }

  lemma {:induction false} NotYetMentioned(cs: seq<Conn>, sel: seq<Option<Conn>>, sizes: seq<int>, i: nat, k: nat)
    requires Distinct(cs) && Selection(cs, sel) && i <= k < |sel| == |sizes|
    ensures Sent(cs[k].fd) !in Trace(sel, sizes, i) && Freed(cs[k].fd) !in Trace(sel, sizes, i)
  {
    if i == 0 {
    } else {
      NotYetMentioned(cs, sel, sizes, i - 1, k);
      assert cs[i - 1].fd != cs[k].fd;
      if sel[i - 1].Some? { assert sel[i - 1].value == cs[i - 1]; }
    }
  }

  lemma {:induction false} TraceIsOrderly(cs: seq<Conn>, sel: seq<Option<Conn>>, sizes: seq<int>, i: nat)
    requires Distinct(cs) && Selection(cs, sel) && i <= |sel| == |sizes|
    ensures NoSendAfterFree(Trace(sel, sizes, i))
  {
    if i > 0 {
      TraceIsOrderly(cs, sel, sizes, i - 1);
      TurnIsFirst(cs, sel, sizes, i - 1);
      TurnIsOrderly(Trace(sel, sizes, i - 1), sel[i - 1], sizes[i - 1]);
    }
  }

  lemma TurnIsFirst(cs: seq<Conn>, sel: seq<Option<Conn>>, sizes: seq<int>, i: nat)
    requires Distinct(cs) && Selection(cs, sel) && i < |sel| == |sizes|
    ensures sel[i].Some? ==> Freed(sel[i].value.fd) !in Trace(sel, sizes, i)
  {
    NotYetMentioned(cs, sel, sizes, i, i);
  }

  lemma {:induction false} TraceCounts(cs: seq<Conn>, sel: seq<Option<Conn>>, sizes: seq<int>, i: nat, k: nat)
    requires Distinct(cs) && Selection(cs, sel) && k < |sel| == |sizes| && i <= |sel|
    ensures Count(Trace(sel, sizes, i), Sent(cs[k].fd)) == if k < i && sel[k].Some? then 1 else 0
    ensures Count(Trace(sel, sizes, i), Freed(cs[k].fd)) == if k < i && Fails(sel, sizes, k) then 1 else 0
  {
    if i == 0 {
    } else {
      var ev, c, size := Trace(sel, sizes, i - 1), sel[i - 1], sizes[i - 1];
      TraceCounts(cs, sel, sizes, i - 1, k);
      TurnCounts(ev, c, size, Sent(cs[k].fd));
      TurnCounts(ev, c, size, Freed(cs[k].fd));
      assert k != i - 1 ==> cs[k].fd != cs[i - 1].fd;
    }
  }

  /** What becomes of client `k`: sent to once if selected; freed once and gone if that failed; otherwise it stays. */
  predicate Treated(cs: seq<Conn>, sel: seq<Option<Conn>>, sizes: seq<int>, k: nat)
    requires k < |cs| == |sel| == |sizes|
  {
    var ev := Trace(sel, sizes, |sel|);
    var failed := sel[k].Some? && sizes[k] < 0;
    && Count(ev, Sent(cs[k].fd)) == (if sel[k].Some? then 1 else 0)
    && Count(ev, Freed(cs[k].fd)) == (if failed then 1 else 0)
    && (cs[k] in Left(cs, sel, sizes, |sel|) <==> !failed)
  }

  /**
   A broadcast, or one to all but one: every selected client is sent to exactly once and never after
   it has been freed; exactly the selected clients whose send failed are freed, once each; and the
   table keeps exactly the others.
   */
  lemma SnapshotBroadcast(cs: seq<Conn>, sel: seq<Option<Conn>>, sizes: seq<int>)
    requires Distinct(cs) && Selection(cs, sel) && |sizes| == |sel|
    ensures NoSendAfterFree(Trace(sel, sizes, |sel|))
    ensures forall k :: 0 <= k < |cs| ==> Treated(cs, sel, sizes, k)
  {
    TraceIsOrderly(cs, sel, sizes, |sel|);
    forall k | 0 <= k < |cs| ensures Treated(cs, sel, sizes, k) {
      ClientTreated(cs, sel, sizes, k);
    }
  }

  lemma ClientTreated(cs: seq<Conn>, sel: seq<Option<Conn>>, sizes: seq<int>, k: nat)
    requires Distinct(cs) && Selection(cs, sel) && k < |cs| == |sizes|
    ensures Treated(cs, sel, sizes, k)
  {
    TraceCounts(cs, sel, sizes, |sel|, k);
    LeftMember(cs, sel, sizes, |sel|, cs[k]);
    if cs[k] in Left(cs, sel, sizes, |sel|) {
      var j :| 0 <= j < |cs| && cs[j] == cs[k] && !Fails(sel, sizes, j);
      assert j == k;
    }
  }

  /** Client `k` of a broadcast: sent to once; freed once and gone exactly if its sender answers below 0. */
  lemma BroadcastTreats(cs: seq<Conn>, sizes: seq<int>, k: nat)
    requires Distinct(cs) && k < |cs| == |sizes|
    ensures var ev := Trace(Everybody(cs), sizes, |cs|);
            && Count(ev, Sent(cs[k].fd)) == 1
            && Count(ev, Freed(cs[k].fd)) == (if sizes[k] < 0 then 1 else 0)
            && (cs[k] in Left(cs, Everybody(cs), sizes, |cs|) <==> sizes[k] >= 0)
  {
    ClientTreated(cs, Everybody(cs), sizes, k);
  }

  /** The same for all but client `but`, which is neither sent to nor freed and stays. */
  lemma ButTreats(cs: seq<Conn>, but: nat, sizes: seq<int>, k: nat)
    requires Distinct(cs) && k < |cs| == |sizes|
    ensures var ev := Trace(EverybodyBut(cs, but), sizes, |cs|);
            && Count(ev, Sent(cs[k].fd)) == (if k == but then 0 else 1)
            && Count(ev, Freed(cs[k].fd)) == (if k != but && sizes[k] < 0 then 1 else 0)
            && (cs[k] in Left(cs, EverybodyBut(cs, but), sizes, |cs|) <==> k == but || sizes[k] >= 0)
  {
    ClientTreated(cs, EverybodyBut(cs, but), sizes, k);
  }

  /** Those who stay, stay in order: the table is the old one without those who failed. */
  lemma {:induction false} LeftInOrder(cs: seq<Conn>, sel: seq<Option<Conn>>, sizes: seq<int>, i: nat, a: nat, b: nat)
    requires i <= |cs| == |sel| == |sizes| && a < b < |Left(cs, sel, sizes, i)|
    ensures exists j, k :: 0 <= j < k < i && Left(cs, sel, sizes, i)[a] == cs[j] && Left(cs, sel, sizes, i)[b] == cs[k]
  {
    if b < |Left(cs, sel, sizes, i - 1)| {
      LeftInOrder(cs, sel, sizes, i - 1, a, b);
    } else {
      LeftMember(cs, sel, sizes, i - 1, Left(cs, sel, sizes, i - 1)[a]);
    }
  }
}
