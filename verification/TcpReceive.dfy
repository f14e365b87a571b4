/** The fixed slot table of tcpreceive.c. */
module TcpReceive {

  const MAX_CONNECTIONS := 128

  /** t_tcpconnection; a free slot has socket -1. */
  datatype Slot = Slot(socket: int, addr: int, port: nat, receiver: bool)

  const FREE := Slot(-1, 0, 0, false)

  /** `closed` lists the descriptors handed to iemnet__closesocket. */
  datatype Table = Table(slots: seq<Slot>, n: int, closed: seq<int>)

  // ---------- what each operation does to the table ----------

  /** The first slot at or after `i` holding descriptor `fd`, or -1. */
  function Find(slots: seq<Slot>, fd: int, i: nat): (r: int)
    requires i <= |slots|
    ensures r == -1 || (i <= r < |slots| && slots[r].socket == fd)
    ensures forall k :: i <= k < (if r == -1 then |slots| else r) ==> slots[k].socket != fd
    decreases |slots| - i
  {
    if i == |slots| then -1 else if slots[i].socket == fd then i else Find(slots, fd, i + 1)
  }

  function Accept(t: Table, fd: int, addr: int, port: nat): Table {
    if fd < 0 then t
    else
      var at := Find(t.slots, -1, 0);
      if at == -1 then t.(closed := t.closed + [fd])
      else t.(slots := t.slots[at := Slot(fd, addr, port, true)], n := t.n + 1)
  }

  predicate Live(t: Table, id: int) { 0 <= id < |t.slots| && t.slots[id].port > 0 }

  function Drop(t: Table, id: int): (r: Table)
    ensures |r.slots| == |t.slots|
  {
    if Live(t, id) then Table(t.slots[id := FREE], t.n - 1, t.closed + [t.slots[id].socket]) else t
  }

  /** The first `n` rounds of `tcpreceive_disconnect_all`. */
  function DropTo(t: Table, n: nat): (r: Table)
    ensures |r.slots| == |t.slots|
  {
    if n == 0 then t else Drop(DropTo(t, n - 1), n - 1)
  }

  /** `chunk` tells data from the end of the stream. */
  function Callback(t: Table, own: nat, chunk: bool): Table
    requires own < |t.slots|
  {
    var index := Find(t.slots, t.slots[own].socket, 0);
    if index >= 0 && !chunk then Drop(t, index) else t
  }

  class TcpReceive {
    var conn: array<Slot>
    var nconnections: int
    var closed: seq<int>

    ghost predicate Valid()
      reads this, conn
    {
      conn.Length == MAX_CONNECTIONS
    }

    ghost function View(): Table
      reads this, conn
    {
      Table(conn[..], nconnections, closed)
    }

    constructor ()
      ensures Valid() && View() == Start() && fresh(conn)
    {
      conn := new Slot[MAX_CONNECTIONS](i => FREE);
      nconnections, closed := 0, [];
    }

    /** tcpreceive_find_socket */
    method FindSocket(fd: int) returns (r: int)
      requires Valid()
      ensures r == Find(conn[..], fd, 0)
    {
      var i := 0;
      while i < MAX_CONNECTIONS
        invariant 0 <= i <= MAX_CONNECTIONS
        invariant Find(conn[..], fd, 0) == Find(conn[..], fd, i)
      {
        if conn[i].socket == fd {
          return i;
        }
        i := i + 1;
      }
      r := -1;
    }

    /** tcpreceive_addconnection: takes the first free slot; the caller counts. */
    method AddConnection(fd: int, addr: int, port: nat) returns (added: bool)
      requires Valid()
      modifies conn
      ensures var at := Find(old(conn[..]), -1, 0);
              && (added <==> at != -1)
              && conn[..] == if added then old(conn[..])[at := Slot(fd, addr, port, true)] else old(conn[..])
    {
      ghost var was := conn[..];
      var i := 0;
      while i < MAX_CONNECTIONS
        invariant 0 <= i <= MAX_CONNECTIONS && conn[..] == was
        invariant Find(was, -1, 0) == Find(was, -1, i)
      {
        if conn[i].socket == -1 {
          conn[i] := Slot(fd, addr, port, true);
          return true;
        }
        i := i + 1;
      }
      added := false;
    }

    /** tcpreceive_connectpoll for the result `fd` of accept. */
    method ConnectPoll(fd: int, addr: int, port: nat)
      requires Valid()
      modifies this`nconnections, this`closed, conn
      ensures Valid() && View() == Accept(old(View()), fd, addr, port)
    {
      if fd < 0 {
        return;
      }
      var added := AddConnection(fd, addr, port);
      if added {
        nconnections := nconnections + 1;
      } else {
        closed := closed + [fd];
      }
    }

    /** tcpreceive_disconnect */
    method Disconnect(id: int) returns (done: bool)
      requires Valid()
      modifies this`nconnections, this`closed, conn
      ensures Valid() && View() == Drop(old(View()), id)
      ensures done <==> Live(old(View()), id)
    {
      if id >= 0 && id < MAX_CONNECTIONS && conn[id].port > 0 {
        conn[id] := conn[id].(receiver := false);
        closed := closed + [conn[id].socket];
        conn[id] := conn[id].(socket := -1);
        conn[id] := conn[id].(addr := 0, port := 0);
        nconnections := nconnections - 1;
        return true;
      }
      done := false;
    }

    /** tcpreceive_disconnect_all */
    method DisconnectAll()
      requires Valid()
      modifies this`nconnections, this`closed, conn
      ensures Valid() && View() == DropTo(old(View()), MAX_CONNECTIONS)
    {
      var i := 0;
      while i < MAX_CONNECTIONS
        invariant 0 <= i <= MAX_CONNECTIONS && Valid()
        invariant View() == DropTo(old(View()), i)
      {
        var _ := Disconnect(i);
        i := i + 1;
      }
    }

    /** tcpreceive_read_callback, called for the connection record in slot `own`. */
    method ReadCallback(own: nat, chunk: bool)
      requires Valid() && own < MAX_CONNECTIONS
      modifies this`nconnections, this`closed, conn
      ensures Valid() && View() == Callback(old(View()), own, chunk)
    {
      var index := FindSocket(conn[own].socket);
      if index >= 0 && !chunk {
        var _ := Disconnect(index);
      }
    }
  }

  // ---------- every run ----------

  datatype Event =
    | Accepted(fd: int, addr: int, port: nat)
    | Received(own: nat, chunk: bool)
    | CloseAll

  function Start(): Table { Table(seq(MAX_CONNECTIONS, i => FREE), 0, []) }

  function Step(t: Table, e: Event): (r: Table)
    requires |t.slots| == MAX_CONNECTIONS
    ensures |r.slots| == MAX_CONNECTIONS
  {
    match e
    case Accepted(fd, addr, port) => Accept(t, fd, addr, port)
    case Received(own, chunk) => if own < MAX_CONNECTIONS then Callback(t, own, chunk) else t
    case CloseAll => DropTo(t, MAX_CONNECTIONS)
  }

  function Run(es: seq<Event>): (r: Table)
    ensures |r.slots| == MAX_CONNECTIONS
  {
    if es == [] then Start() else Step(Run(es[..|es| - 1]), es[|es| - 1])
  }

  /** The system never hands out a descriptor that is still open. */
  predicate Fresh(slots: seq<Slot>, e: Event) {
    e.Accepted? && e.fd >= 0 ==> forall i :: 0 <= i < |slots| ==> slots[i].socket != e.fd
  }

  predicate Honest(es: seq<Event>) {
    es == [] || (Honest(es[..|es| - 1]) && Fresh(Run(es[..|es| - 1]).slots, es[|es| - 1]))
  }

  /** How often the system handed out `fd` in a run. */
  function HandedOut(es: seq<Event>, fd: int): nat {
    if es == [] then 0 else HandedOut(es[..|es| - 1], fd) + Gained(es[|es| - 1], fd)
  }

  function Gained(e: Event, fd: int): nat { if e.Accepted? && e.fd == fd then 1 else 0 }

  /** How many slots hold `fd`. */
  function Count(slots: seq<Slot>, fd: int): nat {
    if slots == [] then 0 else Count(slots[..|slots| - 1], fd) + Is(slots[|slots| - 1], fd)
  }

  function Is(s: Slot, fd: int): nat { if s.socket == fd then 1 else 0 }

  /** The number of slots in use. */
  function Occupied(slots: seq<Slot>): int { |slots| - Count(slots, -1) }

  predicate Proper(s: Slot) { s.socket == -1 ==> s == FREE }

  predicate Distinct(slots: seq<Slot>) {
    forall i, j {:trigger slots[i].socket, slots[j].socket} ::
      0 <= i < j < |slots| && slots[i].socket != -1 ==> slots[i].socket != slots[j].socket
  }

  /** Every connection in use comes from a port other than 0. */
  predicate Numbered(slots: seq<Slot>) {
    forall i :: 0 <= i < |slots| && slots[i].socket != -1 ==> slots[i].port > 0
  }

  /** The count is right and no descriptor stands in two slots. */
  predicate Inv(t: Table) {
    && |t.slots| == MAX_CONNECTIONS
    && Distinct(t.slots)
    && (forall i :: 0 <= i < |t.slots| ==> Proper(t.slots[i]))
    && t.n == Occupied(t.slots)
  }

  /** The copies of `fd` in the table and among the closed descriptors. */
  function Known(t: Table, fd: int): nat { Count(t.slots, fd) + multiset(t.closed)[fd] }

  // Putting `s` into slot `i` changes a count by what it changes there.
  lemma {:induction false} CountUpdate(slots: seq<Slot>, i: nat, s: Slot, fd: int)
    requires i < |slots|
    ensures Count(slots[i := s], fd) + Is(slots[i], fd) == Count(slots, fd) + Is(s, fd)
  {
    var m := |slots| - 1;
    if i == m {
      assert slots[i := s][..m] == slots[..m];
    } else {
      CountUpdate(slots[..m], i, s, fd);
      assert slots[i := s][..m] == slots[..m][i := s];
    }
  }

  lemma {:induction false} CountBounds(slots: seq<Slot>, fd: int)
    ensures Count(slots, fd) <= |slots|
    ensures Count(slots, fd) == 0 <==> forall i :: 0 <= i < |slots| ==> slots[i].socket != fd
    ensures Count(slots, fd) == |slots| <==> forall i :: 0 <= i < |slots| ==> slots[i].socket == fd
  {
    if slots != [] {
      CountBounds(slots[..|slots| - 1], fd);
    }
  }

  lemma {:induction false} DistinctCount(slots: seq<Slot>, fd: int)
    requires Distinct(slots) && fd != -1
    ensures Count(slots, fd) <= 1
  {
    if slots != [] {
      var m := |slots| - 1;
      DistinctCount(slots[..m], fd);
      CountBounds(slots[..m], fd);
    }
  }

  lemma AcceptKeeps(t: Table, e: Event, fd: int)
    requires e.Accepted? && Inv(t) && Fresh(t.slots, e)
    ensures Inv(Accept(t, e.fd, e.addr, e.port))
    ensures fd >= 0 ==> Known(Accept(t, e.fd, e.addr, e.port), fd) == Known(t, fd) + Gained(e, fd)
  {
    var at := Find(t.slots, -1, 0);
    if e.fd >= 0 && at != -1 {
      CountUpdate(t.slots, at, Slot(e.fd, e.addr, e.port, true), -1);
      CountUpdate(t.slots, at, Slot(e.fd, e.addr, e.port, true), fd);
    }
  }

  lemma DropKeeps(t: Table, id: int, fd: int)
    requires Inv(t)
    ensures Inv(Drop(t, id))
    ensures fd >= 0 ==> Known(Drop(t, id), fd) == Known(t, fd)
  {
    if Live(t, id) {
      assert Proper(t.slots[id]);
      CountUpdate(t.slots, id, FREE, -1);
      CountUpdate(t.slots, id, FREE, fd);
    }
  }

  lemma {:induction false} DropToKeeps(t: Table, n: nat, fd: int)
    requires Inv(t)
    ensures Inv(DropTo(t, n))
    ensures fd >= 0 ==> Known(DropTo(t, n), fd) == Known(t, fd)
  {
    if n > 0 {
      DropToKeeps(t, n - 1, fd);
      DropKeeps(DropTo(t, n - 1), n - 1, fd);
    }
  }

  lemma StepKeeps(t: Table, e: Event, fd: int)
    requires Inv(t) && Fresh(t.slots, e)
    ensures Inv(Step(t, e))
    ensures fd >= 0 ==> Known(Step(t, e), fd) == Known(t, fd) + Gained(e, fd)
  {
    match e
    case Accepted(_, _, _) => AcceptKeeps(t, e, fd);
    case Received(own, _) =>
      if own < MAX_CONNECTIONS {
        DropKeeps(t, Find(t.slots, t.slots[own].socket, 0), fd);
      }
    case CloseAll => DropToKeeps(t, MAX_CONNECTIONS, fd);
  }

  lemma {:induction false} RunKeeps(es: seq<Event>, fd: int)
    requires Honest(es)
    ensures Inv(Run(es))
    ensures fd >= 0 ==> Known(Run(es), fd) == HandedOut(es, fd)
  {
    if es == [] {
      CountBounds(Start().slots, -1);
      CountBounds(Start().slots, fd);
    } else {
      RunKeeps(es[..|es| - 1], fd);
      StepKeeps(Run(es[..|es| - 1]), es[|es| - 1], fd);
    }
  }

  /**
   * In every reachable state the count is the number of slots in use, and a descriptor was closed as often as it was
   * handed out, less one while it stands in its one slot.
   */
  lemma RunsKeepTable(es: seq<Event>, fd: nat)
    requires Honest(es)
    ensures Inv(Run(es))
    ensures Count(Run(es).slots, fd) <= 1
    ensures HandedOut(es, fd) == Count(Run(es).slots, fd) + multiset(Run(es).closed)[fd]
  {
    RunKeeps(es, fd);
    DistinctCount(Run(es).slots, fd);
  }

  /**
   A new connection is turned away, and its descriptor closed, exactly when all slots are in use; otherwise it goes,
   as it is, into the first slot that is not. A failed accept changes nothing.
   */
  lemma RefusedExactlyWhenFull(es: seq<Event>, fd: int, addr: int, port: nat)
    requires Honest(es)
    ensures var t := Run(es);
            var u := Accept(t, fd, addr, port);
            && (fd < 0 ==> u == t)
            && (fd >= 0 && t.n == MAX_CONNECTIONS ==> u == t.(closed := t.closed + [fd]))
            && (fd >= 0 && t.n < MAX_CONNECTIONS ==>
                  && u.n == t.n + 1 && u.closed == t.closed
                  && exists at :: 0 <= at < MAX_CONNECTIONS && t.slots[at].socket == -1
                                  && (forall k :: 0 <= k < at ==> t.slots[k].socket != -1)
                                  && u.slots == t.slots[at := Slot(fd, addr, port, true)])
  {
    RunsKeepTable(es, 0);
    CountBounds(Run(es).slots, -1);
  }

  /**
   A callback finds the slot it belongs to. Data changes nothing; the end of the stream frees that slot, closes its
   descriptor and counts one connection less, if it came from a port other than 0.
   */
  lemma CallbackFindsItsSlot(es: seq<Event>, own: nat)
    requires Honest(es) && own < MAX_CONNECTIONS && Run(es).slots[own].socket != -1
    ensures Find(Run(es).slots, Run(es).slots[own].socket, 0) == own
    ensures Callback(Run(es), own, true) == Run(es)
    ensures var t := Run(es);
            Callback(t, own, false)
            == if t.slots[own].port == 0 then t
               else Table(t.slots[own := Slot(-1, 0, 0, false)], t.n - 1, t.closed + [t.slots[own].socket])
  {
    RunsKeepTable(es, 0);
    var slots := Run(es).slots;
    var r := Find(slots, slots[own].socket, 0);
    assert slots[own].socket == slots[r].socket;
  }

  /** What `n` rounds leave in the slots. */
  lemma {:induction false} DropToSlots(t: Table, n: nat)
    requires n <= |t.slots|
    ensures forall i :: 0 <= i < |t.slots| ==>
              DropTo(t, n).slots[i] == if i < n && t.slots[i].port > 0 then FREE else t.slots[i]
  {
    if n > 0 {
      DropToSlots(t, n - 1);
    }
  }

  /** Closing everything leaves no connection exactly when none came from port 0. */
  lemma CloseAllEmpties(es: seq<Event>)
    requires Honest(es)
    ensures DropTo(Run(es), MAX_CONNECTIONS).n == 0 <==> Numbered(Run(es).slots)
  {
    var t := Run(es);
    var u := DropTo(t, MAX_CONNECTIONS);
    RunKeeps(es, 0);
    DropToKeeps(t, MAX_CONNECTIONS, 0);
    DropToSlots(t, MAX_CONNECTIONS);
    CountBounds(u.slots, -1);
    forall i | 0 <= i < |t.slots|
      ensures u.slots[i].socket == -1 <==> (t.slots[i].socket == -1 || t.slots[i].port > 0)
    {
      assert Proper(t.slots[i]);
    }
  }

  /** Then each descriptor was closed exactly as often as it was handed out. */
  lemma CloseAllReleases(es: seq<Event>, fd: nat)
    requires Honest(es) && Numbered(Run(es).slots)
    ensures multiset(DropTo(Run(es), MAX_CONNECTIONS).closed)[fd] == HandedOut(es, fd)
  {
    var u := DropTo(Run(es), MAX_CONNECTIONS);
    RunKeeps(es, fd);
    CloseAllEmpties(es);
    DropToKeeps(Run(es), MAX_CONNECTIONS, fd);
    CountBounds(u.slots, -1);
    CountBounds(u.slots, fd);
  }

  /** Such a connection is possible: from port 0, it outlives its stream and `tcpreceive_disconnect_all`. */
  lemma PortZeroStays(fd: nat, addr: int)
    ensures var es := [Accepted(fd, addr, 0), Received(0, false), CloseAll];
            Honest(es) && Run(es).n == 1 && Run(es).slots[0].socket == fd && Run(es).closed == []
  {
    var es := [Accepted(fd, addr, 0), Received(0, false), CloseAll];
    var a, b := es[..1], es[..2];
    assert a == [es[0]] && b[..1] == a && es[..2] == b && a[..0] == [];
    assert Run([]) == Start() && Honest([]);
    var t := Accept(Start(), fd, addr, 0);
    assert Run(a) == t && Honest(a);
    assert Run(b) == t && Honest(b);
    assert Honest(es);
    NothingLive(t, MAX_CONNECTIONS);
  }

  lemma {:induction false} NothingLive(t: Table, n: nat)
    requires forall i :: 0 <= i < |t.slots| ==> t.slots[i].port == 0
    ensures DropTo(t, n) == t
  {
    if n > 0 {
      NothingLive(t, n - 1);
    }
  }
}
