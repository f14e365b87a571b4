/** The connection life cycle of tcpclient.c: which resources the object makes and gives back. */
module TcpClient {
  import opened Common

  /** Senders and receivers are known by the order of their creation. */
  datatype Resource = Socket(fd: int) | Sender(id: nat) | Receiver(id: nat)

  datatype Event = Made(r: Resource) | Released(r: Resource)

  /** How `tcpclient_do_connect` goes; a sender or receiver may fail to be made. */
  datatype Outcome =
    | BadHost
    | NoSocket(error: int)
    | Refused(fd: int)
    | Connected(fd: int, sender: bool, receiver: bool)

  /** What the calls into the system can answer. */
  predicate Possible(o: Outcome) {
    match o
    case BadHost => true
    case NoSocket(error) => error < 0
    case Refused(fd) => fd >= 0
    case Connected(fd, _, _) => fd >= 0
  }

  datatype Client = Client(
    fd: int, sender: Option<nat>, receiver: Option<nat>, named: bool, port: int, connectstate: bool,
    made: nat, log: seq<Event>)

  // ---------- what each operation does ----------

  function Take(log: seq<Event>, ok: bool, r: Resource): seq<Event> { if ok then log + [Made(r)] else log }

  function Give(log: seq<Event>, o: Option<Resource>): seq<Event> {
    if o.None? then log else log + [Released(o.value)]
  }

  function SenderOf(s: Option<nat>): Option<Resource> { if s.None? then None else Some(Sender(s.value)) }

  function ReceiverOf(r: Option<nat>): Option<Resource> { if r.None? then None else Some(Receiver(r.value)) }

  function SocketOf(fd: int): Option<Resource> { if fd < 0 then None else Some(Socket(fd)) }

  /** Sender, then receiver, then the socket they use. */
  function Released3(log: seq<Event>, fd: int, sender: Option<nat>, receiver: Option<nat>): seq<Event> {
    Give(Give(Give(log, SenderOf(sender)), ReceiverOf(receiver)), SocketOf(fd))
  }

  /** `x_hostname || x_port`: the object takes itself for connected, or has tried to be. */
  predicate Active(c: Client) { c.named || c.port != 0 }

  /** Give back whatever there is, if anything. */
  function Hangup(c: Client): Client {
    if Active(c) then c.(log := Released3(c.log, c.fd, c.sender, c.receiver)) else c
  }

  /** tcpclient_disconnect */
  function Close(c: Client): Client {
    Hangup(c).(port := 0, named := false, sender := None, receiver := None)
  }

  /** tcpclient_do_connect, and what its caller makes of the answer. */
  function Attempt(c: Client, o: Outcome): Client {
    match o
    case BadHost => c.(fd := -1, connectstate := false)
    case NoSocket(error) => c.(fd := error, connectstate := error > 0)
    case Refused(fd) =>
      c.(fd := -1, connectstate := false, log := (c.log + [Made(Socket(fd))]) + [Released(Socket(fd))])
    case Connected(fd, s, r) =>
      c.(fd := fd, connectstate := fd > 0, made := c.made + 1,
         sender := if s then Some(c.made) else None,
         receiver := if r then Some(c.made) else None,
         log := Take(Take(c.log + [Made(Socket(fd))], s, Sender(c.made)), r, Receiver(c.made)))
  }

  /** tcpclient_connect */
  function Dial(c: Client, port: int, o: Outcome): Client { Attempt(Cleared(c).(named := true, port := port), o) }

  function Cleared(c: Client): Client {
    if Active(c) then Hangup(c).(connectstate := false, sender := None, receiver := None) else c
  }

  /** `answer` is what the sender says, if there is one to ask. */
  function SendSize(c: Client, chunk: bool, answer: int): int {
    if c.sender.Some? && chunk then answer else 0
  }

  function Sent(c: Client, chunk: bool, answer: int): Client {
    if SendSize(c, chunk, answer) < 0 then Close(c) else c
  }

  /** A callback without a chunk says that the other side has closed. */
  function Heard(c: Client, chunk: bool): Client { if chunk then c else Close(c) }

  class TcpClient {
    var fd: int
    var sender: Option<nat>
    var receiver: Option<nat>
    var named: bool
    var port: int
    var connectstate: bool
    var made: nat
    var log: seq<Event>

    ghost function View(): Client
      reads this
    {
      Client(fd, sender, receiver, named, port, connectstate, made, log)
    }

    constructor ()
      ensures View() == Start()
    {
      fd, port, sender, receiver, named, connectstate, made, log := -1, 0, None, None, false, false, 0, [];
    }

    /** tcpclient_do_disconnect */
    method DoDisconnect(fd: int, sender: Option<nat>, receiver: Option<nat>) returns (state: bool)
      modifies this`log
      ensures log == Released3(old(log), fd, sender, receiver)
      ensures state <==> fd >= 0
    {
      if sender.Some? {
        log := log + [Released(Sender(sender.value))];
      }
      if receiver.Some? {
        log := log + [Released(Receiver(receiver.value))];
      }
      if fd >= 0 {
        log := log + [Released(Socket(fd))];
        return true;
      }
      state := false;
    }

    /** tcpclient_do_connect, which stores the new sender and receiver through its out-parameters. */
    method DoConnect(o: Outcome) returns (sockfd: int)
      modifies this`log, this`sender, this`receiver, this`made
      ensures View().(fd := sockfd, connectstate := sockfd > 0) == Attempt(old(View()), o)
    {
      if o.BadHost? {
        return -1;
      }
      if o.NoSocket? {
        return o.error;
      }
      log := log + [Made(Socket(o.fd))];
      if o.Refused? {
        log := log + [Released(Socket(o.fd))];
        return -1;
      }
      var s, r := None, None;
      if o.sender {
        s := Some(made);
        log := log + [Made(Sender(made))];
      }
      if o.receiver {
        r := Some(made);
        log := log + [Made(Receiver(made))];
      }
      made := made + 1;
      sender := s;
      receiver := r;
      sockfd := o.fd;
    }

    /** tcpclient_connect */
    method Connect(portno: int, o: Outcome)
      modifies this
      ensures View() == Dial(old(View()), portno, o)
    {
      if named || port != 0 {
        var _ := DoDisconnect(fd, sender, receiver);
        connectstate := false;
        sender := None;
        receiver := None;
      }
      named := true;
      port := portno;
      var state := DoConnect(o);
      connectstate := state > 0;
      fd := state;
    }

    /** tcpclient_disconnect: the descriptor keeps its old value. */
    method Disconnect()
      modifies this
      ensures View() == Close(old(View()))
    {
      if named || port != 0 {
        var _ := DoDisconnect(fd, sender, receiver);
      }
      port := 0;
      named := false;
      sender := None;
      receiver := None;
    }

    /** tcpclient_send */
    method Send(chunk: bool, answer: int) returns (size: int)
      modifies this
      ensures size == SendSize(old(View()), chunk, answer)
      ensures View() == Sent(old(View()), chunk, answer)
    {
      size := 0;
      if sender.Some? && chunk {
        size := answer;
      }
      if size < 0 {
        Disconnect();
      }
    }

    /** tcpclient_receive_callback */
    method ReceiveCallback(chunk: bool)
      modifies this
      ensures View() == Heard(old(View()), chunk)
    {
      if !chunk {
        Disconnect();
      }
    }

    /** tcpclient_free */
    method Free()
      modifies this
      ensures View() == Close(old(View()))
    {
      Disconnect();
    }
  }

  // ---------- every run ----------

  datatype Call =
    | CallConnect(port: int, outcome: Outcome)
    | CallDisconnect
    | CallSend(chunk: bool, answer: int)
    | CallReceive(chunk: bool)
    | CallFree

  function Start(): Client { Client(-1, None, None, false, 0, false, 0, []) }

  function Step(c: Client, e: Call): Client {
    match e
    case CallConnect(port, o) => Dial(c, port, o)
    case CallDisconnect => Close(c)
    case CallSend(chunk, answer) => Sent(c, chunk, answer)
    case CallReceive(chunk) => Heard(c, chunk)
    case CallFree => Close(c)
  }

  function Run(es: seq<Call>): Client {
    if es == [] then Start() else Step(Run(es[..|es| - 1]), es[|es| - 1])
  }

  predicate Honest(es: seq<Call>) {
    forall i :: 0 <= i < |es| && es[i].CallConnect? ==> Possible(es[i].outcome)
  }

  /** How often `e` stands in a log. */
  function Times(log: seq<Event>, e: Event): nat {
    if log == [] then 0 else Times(log[..|log| - 1], e) + if log[|log| - 1] == e then 1 else 0
  }

  /** How many copies of `r` a log leaves unreleased. */
  function Outstanding(log: seq<Event>, r: Resource): int {
    Times(log, Made(r)) as int - Times(log, Released(r))
  }

  /** The resources held at one moment. */
  datatype Owned = Owned(socket: Option<int>, sender: Option<nat>, receiver: Option<nat>)

  const NOTHING := Owned(None, None, None)

  predicate Holds(o: Owned, r: Resource) {
    match r
    case Socket(fd) => o.socket == Some(fd)
    case Sender(id) => o.sender == Some(id)
    case Receiver(id) => o.receiver == Some(id)
  }

  /**
   * One event under the rules: one socket at a time, a sender and a receiver only on an open socket, nothing
   * given back that is not held, and the socket last.
   */
  function Transfer(o: Owned, e: Event): Option<Owned> {
    match e
    case Made(Socket(fd)) => if o == NOTHING then Some(Owned(Some(fd), None, None)) else None
    case Made(Sender(id)) => if o.socket.Some? && o.sender.None? then Some(o.(sender := Some(id))) else None
    case Made(Receiver(id)) => if o.socket.Some? && o.receiver.None? then Some(o.(receiver := Some(id))) else None
    case Released(Socket(fd)) => if o == Owned(Some(fd), None, None) then Some(NOTHING) else None
    case Released(Sender(id)) => if o.sender == Some(id) then Some(o.(sender := None)) else None
    case Released(Receiver(id)) => if o.receiver == Some(id) then Some(o.(receiver := None)) else None
  }

  /** What is held after a log, or None if the log breaks a rule. */
  function Replay(log: seq<Event>): Option<Owned> {
    if log == [] then Some(NOTHING)
    else
      var before := Replay(log[..|log| - 1]);
      if before.None? then None else Transfer(before.value, log[|log| - 1])
  }

  /** What the fields say is held: a stale descriptor does not count. */
  function Owns(c: Client): Owned {
    Owned(if Active(c) && c.fd >= 0 then Some(c.fd) else None, c.sender, c.receiver)
  }

  predicate Inv(c: Client) {
    && Replay(c.log) == Some(Owns(c))
    && (c.sender.Some? || c.receiver.Some? ==> Owns(c).socket.Some?)
    && (Active(c) ==> (c.connectstate <==> c.fd > 0))
  }

  /** A sender or receiver of a generation before `made` was made at most once, any other not at all. */
  predicate MadeAtMostOnce(log: seq<Event>, made: nat, r: Resource) {
    !r.Socket? ==> Times(log, Made(r)) <= if r.id < made then 1 else 0
  }

  lemma ReplayAdd(log: seq<Event>, e: Event)
    ensures Replay(log + [e]) == if Replay(log).None? then None else Transfer(Replay(log).value, e)
  {
    assert (log + [e])[..|log|] == log;
  }

  lemma GiveBack(log: seq<Event>, o: Owned, fd: int)
    requires Replay(log) == Some(o) && (fd >= 0 ==> o.socket == Some(fd))
    requires fd < 0 ==> o == NOTHING
    ensures Replay(Released3(log, fd, o.sender, o.receiver)) == Some(NOTHING)
  {
    var l1 := Give(log, SenderOf(o.sender));
    var l2 := Give(l1, ReceiverOf(o.receiver));
    if o.sender.Some? { ReplayAdd(log, Released(Sender(o.sender.value))); }
    if o.receiver.Some? { ReplayAdd(l1, Released(Receiver(o.receiver.value))); }
    if fd >= 0 { ReplayAdd(l2, Released(Socket(fd))); }
  }

  lemma HangupGives(c: Client)
    requires Inv(c)
    ensures Replay(Hangup(c).log) == Some(NOTHING)
  {
    if Active(c) {
      GiveBack(c.log, Owns(c), c.fd);
    }
  }

  lemma TakeOne(log: seq<Event>, o: Owned, ok: bool, r: Resource)
    requires Replay(log) == Some(o) && (ok ==> Transfer(o, Made(r)).Some?)
    ensures Replay(Take(log, ok, r)) == if ok then Transfer(o, Made(r)) else Some(o)
  {
    ReplayAdd(log, Made(r));
  }

  lemma TakeUp(log: seq<Event>, fd: int, s: bool, r: bool, id: nat)
    requires Replay(log) == Some(NOTHING)
    ensures Replay(Take(Take(log + [Made(Socket(fd))], s, Sender(id)), r, Receiver(id)))
         == Some(Owned(Some(fd), if s then Some(id) else None, if r then Some(id) else None))
  {
    var l1 := log + [Made(Socket(fd))];
    var o1 := Owned(Some(fd), None, None);
    ReplayAdd(log, Made(Socket(fd)));
    TakeOne(l1, o1, s, Sender(id));
    TakeOne(Take(l1, s, Sender(id)), o1.(sender := if s then Some(id) else None), r, Receiver(id));
  }

  lemma OpenAndShut(log: seq<Event>, fd: int)
    requires Replay(log) == Some(NOTHING)
    ensures Replay((log + [Made(Socket(fd))]) + [Released(Socket(fd))]) == Some(NOTHING)
  {
    ReplayAdd(log, Made(Socket(fd)));
    ReplayAdd(log + [Made(Socket(fd))], Released(Socket(fd)));
  }

  lemma AttemptKeeps(c: Client, o: Outcome)
    requires Possible(o) && Replay(c.log) == Some(NOTHING) && c.named && c.sender.None? && c.receiver.None?
    ensures Inv(Attempt(c, o))
  {
    match o
    case BadHost =>
    case NoSocket(_) =>
    case Refused(fd) => OpenAndShut(c.log, fd);
    case Connected(fd, s, r) => TakeUp(c.log, fd, s, r, c.made);
  }

  lemma StepKeepsInv(c: Client, e: Call)
    requires Inv(c) && (e.CallConnect? ==> Possible(e.outcome))
    ensures Inv(Step(c, e))
  {
    HangupGives(c);
    if e.CallConnect? {
      AttemptKeeps(Cleared(c).(named := true, port := e.port), e.outcome);
    }
  }

  lemma {:induction false} RunKeepsInv(es: seq<Call>)
    requires Honest(es)
    ensures Inv(Run(es))
  {
    if es != [] {
      RunKeepsInv(es[..|es| - 1]);
      StepKeepsInv(Run(es[..|es| - 1]), es[|es| - 1]);
    }
  }

  /** A log that follows the rules leaves one copy of what is held and none of anything else. */
  lemma {:induction false} ReplayCounts(log: seq<Event>, r: Resource)
    requires Replay(log).Some?
    ensures Outstanding(log, r) == if Holds(Replay(log).value, r) then 1 else 0
  {
    if log != [] {
      var m := |log| - 1;
      ReplayCounts(log[..m], r);
    }
  }

  lemma {:induction false} ReplayPrefix(log: seq<Event>, k: nat)
    requires Replay(log).Some? && k <= |log|
    ensures Replay(log[..k]).Some?
  {
    if k == |log| {
      assert log[..k] == log;
    } else {
      ReplayPrefix(log[..|log| - 1], k);
      assert log[..|log| - 1][..k] == log[..k];
    }
  }

  /** At every moment of every run a resource is outstanding at most once, and no two sockets are. */
  lemma OneSocketAtATime(es: seq<Call>, k: nat, r: Resource, fd: int)
    requires Honest(es) && k <= |Run(es).log|
    ensures 0 <= Outstanding(Run(es).log[..k], r) <= 1
    ensures r.Socket? && Outstanding(Run(es).log[..k], r) == 1 && Outstanding(Run(es).log[..k], Socket(fd)) == 1 ==>
              r.fd == fd
  {
    RunKeepsInv(es);
    ReplayPrefix(Run(es).log, k);
    ReplayCounts(Run(es).log[..k], r);
    ReplayCounts(Run(es).log[..k], Socket(fd));
  }

  /** A socket is closed only after the sender and the receiver that use it are gone. */
  lemma SocketClosedLast(es: seq<Call>, k: nat, id: nat)
    requires Honest(es) && k < |Run(es).log|
    requires Run(es).log[k].Released? && Run(es).log[k].r.Socket?
    ensures Outstanding(Run(es).log[..k], Sender(id)) == 0
    ensures Outstanding(Run(es).log[..k], Receiver(id)) == 0
    ensures Outstanding(Run(es).log[..k], Run(es).log[k].r) == 1
  {
    var log := Run(es).log;
    RunKeepsInv(es);
    ReplayPrefix(log, k);
    ReplayPrefix(log, k + 1);
    assert log[..k + 1][..k] == log[..k];
    ReplayCounts(log[..k], Sender(id));
    ReplayCounts(log[..k], Receiver(id));
    ReplayCounts(log[..k], log[k].r);
  }

  lemma TimesAdd(log: seq<Event>, e: Event, x: Event)
    ensures Times(log + [e], x) == Times(log, x) + if e == x then 1 else 0
  {
    assert (log + [e])[..|log|] == log;
  }

  lemma HangupMakesNothing(c: Client, r: Resource)
    ensures Times(Hangup(c).log, Made(r)) == Times(c.log, Made(r))
  {
    var l1 := Give(c.log, SenderOf(c.sender));
    var l2 := Give(l1, ReceiverOf(c.receiver));
    if c.sender.Some? { TimesAdd(c.log, Released(Sender(c.sender.value)), Made(r)); }
    if c.receiver.Some? { TimesAdd(l1, Released(Receiver(c.receiver.value)), Made(r)); }
    if c.fd >= 0 { TimesAdd(l2, Released(Socket(c.fd)), Made(r)); }
  }

  /** What one attempt makes besides a socket: at most the sender and the receiver of the next generation. */
  lemma AttemptMakes(c: Client, o: Outcome, r: Resource)
    requires !r.Socket?
    ensures Times(Attempt(c, o).log, Made(r))
         <= Times(c.log, Made(r)) + if r.id == c.made && Attempt(c, o).made == c.made + 1 then 1 else 0
  {
    if o.Refused? || o.Connected? {
      var l1 := c.log + [Made(Socket(o.fd))];
      TimesAdd(c.log, Made(Socket(o.fd)), Made(r));
      if o.Refused? {
        TimesAdd(l1, Released(Socket(o.fd)), Made(r));
      } else {
        var l2 := Take(l1, o.sender, Sender(c.made));
        TimesAdd(l1, Made(Sender(c.made)), Made(r));
        TimesAdd(l2, Made(Receiver(c.made)), Made(r));
      }
    }
  }

  lemma StepMadeOnce(c: Client, e: Call, r: Resource)
    requires !r.Socket? && MadeAtMostOnce(c.log, c.made, r)
    ensures MadeAtMostOnce(Step(c, e).log, Step(c, e).made, r)
  {
    HangupMakesNothing(c, r);
    if e.CallConnect? {
      AttemptMakes(Cleared(c).(named := true, port := e.port), e.outcome, r);
    }
  }

  /** No sender and no receiver is made twice. */
  lemma {:induction false} MadeOnce(es: seq<Call>, r: Resource)
    requires !r.Socket?
    ensures MadeAtMostOnce(Run(es).log, Run(es).made, r)
  {
    if es != [] {
      MadeOnce(es[..|es| - 1], r);
      StepMadeOnce(Run(es[..|es| - 1]), es[|es| - 1], r);
    }
  }

  /**
   * After every run a resource has been released as often as it was made (a sender or receiver: once), except once
   * less for the socket, sender and receiver of the present connection. A run that ends with `tcpclient_disconnect`
   * or `tcpclient_free` has no such exception, whatever stale value the descriptor keeps.
   */
  lemma ReleasedExactlyOnce(es: seq<Call>, r: Resource)
    requires Honest(es)
    ensures Times(Run(es).log, Made(r))
         == Times(Run(es).log, Released(r)) + if Holds(Owns(Run(es)), r) then 1 else 0
    ensures !r.Socket? ==> Times(Run(es).log, Made(r)) <= 1
    ensures es != [] && (es[|es| - 1].CallDisconnect? || es[|es| - 1].CallFree?) ==>
              Times(Run(es).log, Made(r)) == Times(Run(es).log, Released(r))
  {
    RunKeepsInv(es);
    ReplayCounts(Run(es).log, r);
    if !r.Socket? {
      MadeOnce(es, r);
    }
  }

  // ---------- what each call comes to ----------

  predicate AllReleased(log: seq<Event>, r: Resource) { Times(log, Made(r)) == Times(log, Released(r)) }

  lemma RunNext(es: seq<Call>, e: Call)
    requires Honest(es) && (e.CallConnect? ==> Possible(e.outcome))
    ensures Honest(es + [e]) && Run(es + [e]) == Step(Run(es), e)
  {
    assert (es + [e])[..|es|] == es;
  }

  /**
   A send is answered by the sender if there are both a sender and a chunk, else with 0. A negative answer, and only
   that, hangs up; any other leaves everything as it was.
   */
  lemma SendDecides(es: seq<Call>, chunk: bool, answer: int, r: Resource)
    requires Honest(es)
    ensures var c, d := Run(es), Run(es + [CallSend(chunk, answer)]);
            && SendSize(c, chunk, answer) == (if c.sender.Some? && chunk then answer else 0)
            && (c.sender.Some? && chunk ==> (answer < 0 <==> Owns(d) == NOTHING))
            && (c.sender.Some? && chunk && answer < 0 ==> AllReleased(d.log, r))
            && (!(c.sender.Some? && chunk && answer < 0) ==> d == c)
  {
    RunNext(es, CallSend(chunk, answer));
    ReleasedExactlyOnce(es + [CallSend(chunk, answer)], r);
  }

  /** The end of the stream hangs up; data leaves everything as it was. */
  lemma ReceiveDecides(es: seq<Call>, r: Resource)
    requires Honest(es)
    ensures Run(es + [CallReceive(true)]) == Run(es)
    ensures var d := Run(es + [CallReceive(false)]); Owns(d) == NOTHING && AllReleased(d.log, r)
  {
    RunNext(es, CallReceive(true));
    RunNext(es, CallReceive(false));
    ReleasedExactlyOnce(es + [CallReceive(false)], r);
  }

  /** A disconnect and a free hang up. */
  lemma DisconnectDecides(es: seq<Call>, free: bool, r: Resource)
    requires Honest(es)
    ensures var d := Run(es + [if free then CallFree else CallDisconnect]);
            Owns(d) == NOTHING && AllReleased(d.log, r)
  {
    var e := if free then CallFree else CallDisconnect;
    RunNext(es, e);
    ReleasedExactlyOnce(es + [e], r);
  }

  /**
   After an attempt to connect the object holds exactly what the attempt made: the socket, and the sender and the
   receiver if they could be made, each of them new. What was held before has been released.
   */
  lemma ConnectDecides(es: seq<Call>, port: int, o: Outcome, r: Resource)
    requires Honest(es) && Possible(o)
    ensures var c, d := Run(es), Run(es + [CallConnect(port, o)]);
            && d.named && d.port == port
            && Owns(d).socket == (if o.Connected? then Some(o.fd) else None)
            && (d.sender.Some? <==> o.Connected? && o.sender)
            && (d.receiver.Some? <==> o.Connected? && o.receiver)
            && (d.sender.Some? ==> Times(c.log, Made(Sender(d.sender.value))) == 0)
            && (d.receiver.Some? ==> Times(c.log, Made(Receiver(d.receiver.value))) == 0)
            && (!Holds(Owns(d), r) ==> AllReleased(d.log, r))
  {
    var e := CallConnect(port, o);
    RunNext(es, e);
    RunKeepsInv(es);
    MadeOnce(es, Sender(Run(es).made));
    MadeOnce(es, Receiver(Run(es).made));
    ReleasedExactlyOnce(es + [e], r);
  }

  // ---------- what x_connectstate tells ----------

  /** The outcome of the last call of `tcpclient_connect`, if there was one. */
  function LastAttempt(es: seq<Call>): Option<Outcome> {
    if es == [] then None
    else
      var last := es[|es| - 1];
      if last.CallConnect? then Some(last.outcome) else LastAttempt(es[..|es| - 1])
  }

  /** The attempt succeeded, on a descriptor other than 0. */
  predicate Up(o: Option<Outcome>) { o.Some? && o.value.Connected? && o.value.fd > 0 }

  /** The attempt succeeded, on descriptor 0. */
  predicate OnZero(o: Option<Outcome>) { o.Some? && o.value.Connected? && o.value.fd == 0 }

  /** The flag remembers the last attempt and nothing that came after it; so does the descriptor. */
  lemma {:induction false} FlagIsLastAttempt(es: seq<Call>)
    requires Honest(es)
    ensures Run(es).connectstate <==> Up(LastAttempt(es))
    ensures Run(es).fd >= 0 <==> Up(LastAttempt(es)) || OnZero(LastAttempt(es))
    ensures Run(es).fd > 0 <==> Up(LastAttempt(es))
  {
    if es != [] {
      FlagIsLastAttempt(es[..|es| - 1]);
    }
  }

  /**
   * `x_connectstate` tells whether a connection is held exactly when either the object is active and its last attempt
   * did not get descriptor 0, or it is inactive and its last attempt did not succeed with another descriptor.
   */
  lemma FlagTellsExactly(es: seq<Call>)
    requires Honest(es)
    ensures (Run(es).connectstate <==> Owns(Run(es)).socket.Some?)
       <==> if Active(Run(es)) then !OnZero(LastAttempt(es)) else !Up(LastAttempt(es))
  {
    FlagIsLastAttempt(es);
  }

  /** After connecting and disconnecting the flag is up, and so is the descriptor, with nothing held. */
  lemma DisconnectLeavesFlag(port: int, fd: int, sender: bool, receiver: bool)
    requires fd > 0
    ensures var es := [CallConnect(port, Connected(fd, sender, receiver)), CallDisconnect];
            Honest(es) && Run(es).connectstate && Run(es).fd == fd && Owns(Run(es)) == NOTHING
  {
    var es := [CallConnect(port, Connected(fd, sender, receiver)), CallDisconnect];
    var connect := es[..1];
    assert connect[..0] == [] && Run(connect) == Step(Start(), es[0]);
    assert Run(es) == Step(Run(connect), es[1]);
  }
}
