/**
 The send pipeline of one socket as a machine of two threads.

 The main thread runs `iemnet__sender_send` and `iemnet__sender_destroy`; the send thread runs
 `iemnet__sender_sendthread`, which pops from the queue and hands chunks to the send function.
 A program counter names the next statement of each thread.  Taking a mutex is a step of its own,
 enabled only while the mutex is free; the statements under a mutex are one step together with the
 release, because nobody else reads what that mutex protects.  A thread blocked in
 `pthread_cond_wait` has its own program counter and moves on when somebody signals.
 */
module SenderProtocol {
  import opened Common

  /** A private copy made by `iemnet__chunk_create_chunk`; `id` is its place in the order of creation. */
  datatype Copy = Copy(id: nat, data: seq<byte>)

  datatype Owner = Free | Main | Worker

  // ---------- program counters ----------

  /** iemnet__sender_send and queue_push */
  datatype SendPc =
    | SendLock(arg: Option<seq<byte>>)
    | SendTest(arg: Option<seq<byte>>)
    | SendCopy(arg: Option<seq<byte>>)
    | PushLock1(copy: Option<Copy>)
    | PushRead(copy: Option<Copy>)
    | PushLock2(c: Copy)
    | PushAppend(c: Copy)

  /** iemnet__sender_destroy */
  datatype DestroyPc = DestroyLock | DestroyTest | DestroyLoop | DestroyUnlock | DestroyRelock | DestroyJoin

  /** queue_finish */
  datatype FinishPc = FinishLock | FinishSignal | UsedLock | UsedTest | UsedWait | UsedWoken

  /** The three places from which `iemnet__sender_destroy` reaches `queue_finish`. */
  datatype Site = InLoop | AfterLoop | InQueueDestroy

  /** queue_destroy after queue_finish: the loop around queue_pop_noblock, then the two calls of free. */
  datatype DrainPc =
    | DrainIncLock
    | DrainInc
    | DrainLock
    | DrainTake
    | DrainDecLock(got: Option<Copy>)
    | DrainDec(got: Option<Copy>)
    | DrainFree(got: Option<Copy>)
    | FreeQueue
    | FreeSender

  datatype MainPc =
    | Idle
    | Sending(send: SendPc)
    | Destroying(destroy: DestroyPc)
    | Finishing(site: Site, finish: FinishPc)
    | Draining(drain: DrainPc)
    | Done

  /** queue_pop_block */
  datatype PopPc =
    | IncLock
    | Inc
    | PopLock
    | PopTest
    | Waiting
    | Woken
    | AfterWait
    | DecLock(got: Option<Copy>)
    | Dec(got: Option<Copy>)

  /** iemnet__sender_sendthread outside of queue_pop_block */
  datatype LoopPc =
    | Start
    | Test
    | Got(got: Option<Copy>)
    | InSend(c: Copy)
    | Sent(c: Copy, ok: bool)
    | Relock
    | FailLock
    | Exit

  datatype ThreadPc = Popping(pop: PopPc) | Looping(loop: LoopPc) | Ended

  // ---------- state ----------

  /** struct _iemnet_sender */
  datatype Sender = Sender(keepsending: bool, isrunning: bool, mtx: Owner, freed: bool)

  /** struct _iemnet_queue */
  datatype Queue =
    Queue(items: seq<Copy>, size: int, done: bool, mtx: Owner, used: int, usedmtx: Owner, freed: bool)

  /** What `iemnet__sender_send` answered: -1, the fill state for a null chunk, or the fill state after a push. */
  datatype Reply = Refused | Fill(value: int) | Queued(copy: Copy, value: int)

  /** What has happened so far. */
  datatype Log = Log(
    calls: seq<Option<seq<byte>>>,   // the arguments of iemnet__sender_send
    results: seq<bool>,              // what the send function answered
    made: seq<Copy>,
    accepted: seq<Copy>,
    handed: seq<Copy>,
    freedByThread: seq<Copy>,
    freedByMain: seq<Copy>,
    replies: seq<Reply>
  )

  datatype State = State(m: MainPc, t: ThreadPc, s: Sender, q: Queue, log: Log)

  /**
   `doneFirst` selects the queue_pop_block that iemnet_data.h documents, which tests `done` before
   it waits; the code tests it only after a wait.  `spurious` admits wakeups nobody signalled.
   */
  datatype Config = Config(doneFirst: bool, spurious: bool)

  datatype Action =
    | CallSend(arg: Option<seq<byte>>)
    | CallDestroy
    | MainRuns
    | ThreadRuns(ok: bool)   // ok: what the send function answers, when this step is its return
    | WakeThread             // spurious
    | WakeMain               // spurious

  /** The state `iemnet__sender_create` leaves behind. */
  function Init(): State {
    State(Idle, Looping(Start), Sender(true, true, Free, false), Queue([], 0, false, Free, 0, Free, false),
          Log([], [], [], [], [], [], [], []))
  }

  // ---------- what can happen next ----------

  predicate MainEnabled(st: State) {
    match st.m
    case Idle => false
    case Sending(pc) =>
      (match pc
       case SendLock(_) => st.s.mtx.Free?
       case PushLock1(_) => st.q.mtx.Free?
       case PushLock2(_) => st.q.mtx.Free?
       case _ => true)
    case Destroying(pc) =>
      (match pc
       case DestroyLock => st.s.mtx.Free?
       case DestroyRelock => st.s.mtx.Free?
       case DestroyJoin => st.t.Ended?
       case _ => true)
    case Finishing(_, pc) =>
      (match pc
       case FinishLock => st.q.mtx.Free?
       case UsedLock => st.q.usedmtx.Free?
       case UsedWait => false
       case UsedWoken => st.q.usedmtx.Free?
       case _ => true)
    case Draining(pc) =>
      (match pc
       case DrainIncLock => st.q.usedmtx.Free?
       case DrainLock => st.q.mtx.Free?
       case DrainDecLock(_) => st.q.usedmtx.Free?
       case _ => true)
    case Done => false
  }

  predicate ThreadEnabled(st: State) {
    match st.t
    case Popping(pc) =>
      (match pc
       case IncLock => st.q.usedmtx.Free?
       case PopLock => st.q.mtx.Free?
       case Waiting => false
       case Woken => st.q.mtx.Free?
       case DecLock(_) => st.q.usedmtx.Free?
       case _ => true)
    case Looping(pc) => pc.Start? || pc.Relock? || pc.FailLock? ==> st.s.mtx.Free?
    case Ended => false
  }

  predicate Enabled(cfg: Config, st: State, a: Action) {
    match a
    case CallSend(_) => st.m.Idle?
    case CallDestroy => st.m.Idle?
    case MainRuns => MainEnabled(st)
    case ThreadRuns(_) => ThreadEnabled(st)
    case WakeThread => cfg.spurious && st.t == Popping(Waiting)
    case WakeMain => cfg.spurious && st.m.Finishing? && st.m.finish.UsedWait?
  }

  function Apply(cfg: Config, st: State, a: Action): State
    requires Enabled(cfg, st, a)
  {
    match a
    case CallSend(arg) => st.(m := Sending(SendLock(arg)), log := st.log.(calls := st.log.calls + [arg]))
    case CallDestroy => st.(m := Destroying(DestroyLock))
    case MainRuns => MainStep(st)
    case ThreadRuns(ok) => ThreadStep(cfg, st, ok)
    case WakeThread => st.(t := SignalThread(st.t))
    case WakeMain => st.(m := SignalMain(st.m))
  }

  // ---------- the main thread ----------

  function MainStep(st: State): State
    requires MainEnabled(st)
  {
    match st.m
    case Sending(_) => SendStep(st)
    case Destroying(_) => DestroyStep(st)
    case Finishing(_, _) => FinishStep(st)
    case Draining(_) => DrainStep(st)
  }

  /** pthread_cond_signal(&q->cond): the send thread is the only one that ever waits there. */
  function SignalThread(t: ThreadPc): ThreadPc {
    if t == Popping(Waiting) then Popping(Woken) else t
  }

  function SendStep(st: State): State
    requires MainEnabled(st) && st.m.Sending?
  {
    match st.m.send
    case SendLock(arg) => st.(m := Sending(SendTest(arg)), s := st.s.(mtx := Main))
    case SendTest(arg) =>
      if st.s.isrunning then st.(m := Sending(SendCopy(arg)), s := st.s.(mtx := Free))
      else st.(m := Idle, s := st.s.(mtx := Free), log := st.log.(replies := st.log.replies + [Refused]))
    case SendCopy(arg) =>
      if arg.Some? && |arg.value| >= 1 then
        var c := Copy(|st.log.made|, arg.value);
        st.(m := Sending(PushLock1(Some(c))), log := st.log.(made := st.log.made + [c]))
      else st.(m := Sending(PushLock1(None)))
    case PushLock1(copy) => st.(m := Sending(PushRead(copy)), q := st.q.(mtx := Main))
    case PushRead(copy) =>
      if copy.Some? then st.(m := Sending(PushLock2(copy.value)), q := st.q.(mtx := Free))
      else st.(m := Idle, q := st.q.(mtx := Free), log := st.log.(replies := st.log.replies + [Fill(st.q.size)]))
    case PushLock2(c) => st.(m := Sending(PushAppend(c)), q := st.q.(mtx := Main))
    case PushAppend(c) =>
      var size := st.q.size + |c.data|;
      st.(m := Idle, t := SignalThread(st.t),
          q := st.q.(items := st.q.items + [c], size := size, mtx := Free),
          log := st.log.(accepted := st.log.accepted + [c], replies := st.log.replies + [Queued(c, size)]))
  }

  function DestroyStep(st: State): State
    requires MainEnabled(st) && st.m.Destroying?
  {
    match st.m.destroy
    case DestroyLock => st.(m := Destroying(DestroyTest), s := st.s.(mtx := Main))
    case DestroyTest =>
      if st.s.keepsending then st.(m := Destroying(DestroyLoop), s := st.s.(keepsending := false))
      else st.(m := Idle, s := st.s.(mtx := Free))
    case DestroyLoop =>
      if st.s.isrunning then st.(m := Finishing(InLoop, FinishLock), s := st.s.(keepsending := false))
      else st.(m := Finishing(AfterLoop, FinishLock), s := st.s.(mtx := Free))
    case DestroyUnlock => st.(m := Destroying(DestroyRelock), s := st.s.(mtx := Free))
    case DestroyRelock => st.(m := Destroying(DestroyLoop), s := st.s.(mtx := Main))
    case DestroyJoin => st.(m := Finishing(InQueueDestroy, FinishLock))
  }

  function FinishStep(st: State): State
    requires MainEnabled(st) && st.m.Finishing?
  {
    var site := st.m.site;
    match st.m.finish
    case FinishLock => st.(m := Finishing(site, FinishSignal), q := st.q.(mtx := Main))
    case FinishSignal =>
      st.(m := Finishing(site, UsedLock), t := SignalThread(st.t), q := st.q.(done := true, mtx := Free))
    case UsedLock => st.(m := Finishing(site, UsedTest), q := st.q.(usedmtx := Main))
    case UsedTest =>
      if st.q.used != 0 then st.(m := Finishing(site, UsedWait), q := st.q.(usedmtx := Free))
      else st.(m := AfterFinish(site), q := st.q.(usedmtx := Free))
    case UsedWoken => st.(m := Finishing(site, UsedTest), q := st.q.(usedmtx := Main))
  }

  /** Where main goes when `queue_finish` returns. */
  function AfterFinish(site: Site): MainPc {
    match site
    case InLoop => Destroying(DestroyUnlock)
    case AfterLoop => Destroying(DestroyJoin)
    case InQueueDestroy => Draining(DrainIncLock)
  }

  function DrainStep(st: State): State
    requires MainEnabled(st) && st.m.Draining?
  {
    match st.m.drain
    case DrainIncLock => st.(m := Draining(DrainInc), q := st.q.(usedmtx := Main))
    case DrainInc => st.(m := Draining(DrainLock), q := st.q.(usedmtx := Free, used := st.q.used + 1))
    case DrainLock => st.(m := Draining(DrainTake), q := st.q.(mtx := Main))
    case DrainTake =>
      if st.q.items == [] then st.(m := Draining(DrainDecLock(None)), q := st.q.(mtx := Free))
      else st.(m := Draining(DrainDecLock(Some(st.q.items[0]))), q := TakeHead(st.q))
    case DrainDecLock(got) => st.(m := Draining(DrainDec(got)), q := st.q.(usedmtx := Main))
    case DrainDec(got) => st.(m := Draining(DrainFree(got)), q := st.q.(usedmtx := Free, used := st.q.used - 1))
    case DrainFree(got) =>
      if got.Some? then
        st.(m := Draining(DrainIncLock), log := st.log.(freedByMain := st.log.freedByMain + [got.value]))
      else st.(m := Draining(FreeQueue))
    case FreeQueue => st.(m := Draining(FreeSender), q := st.q.(freed := true))
    case FreeSender => st.(m := Done, s := st.s.(freed := true))
  }

  /** Both pops, at their `pthread_mutex_unlock`. */
  function TakeHead(q: Queue): Queue
    requires q.items != []
  {
    q.(items := q.items[1..], size := q.size - |q.items[0].data|, mtx := Free)
  }

  // ---------- the send thread ----------

  function ThreadStep(cfg: Config, st: State, ok: bool): State
    requires ThreadEnabled(st)
  {
    match st.t
    case Popping(_) => PopStep(cfg, st)
    case Looping(_) => LoopStep(st, ok)
  }

  /** pthread_cond_signal(&q->usedcond): queue_finish is the only one that ever waits there. */
  function SignalMain(m: MainPc): MainPc {
    if m.Finishing? && m.finish.UsedWait? then Finishing(m.site, UsedWoken) else m
  }

  function PopStep(cfg: Config, st: State): State
    requires ThreadEnabled(st) && st.t.Popping?
  {
    match st.t.pop
    case IncLock => st.(t := Popping(Inc), q := st.q.(usedmtx := Worker))
    case Inc => st.(t := Popping(PopLock), q := st.q.(usedmtx := Free, used := st.q.used + 1))
    case PopLock => st.(t := Popping(PopTest), q := st.q.(mtx := Worker))
    case PopTest =>
      if cfg.doneFirst && st.q.done then st.(t := Popping(DecLock(None)), q := st.q.(mtx := Free))
      else if st.q.items == [] then st.(t := Popping(Waiting), q := st.q.(mtx := Free))
      else st.(t := Popping(DecLock(Some(st.q.items[0]))), q := TakeHead(st.q))
    case Woken => st.(t := Popping(AfterWait), q := st.q.(mtx := Worker))
    case AfterWait =>
      if st.q.done then st.(t := Popping(DecLock(None)), q := st.q.(mtx := Free))
      else st.(t := Popping(PopTest))
    case DecLock(got) => st.(t := Popping(Dec(got)), q := st.q.(usedmtx := Worker))
    case Dec(got) =>
      st.(t := Looping(Got(got)), m := SignalMain(st.m), q := st.q.(usedmtx := Free, used := st.q.used - 1))
  }

  function LoopStep(st: State, ok: bool): State
    requires ThreadEnabled(st) && st.t.Looping?
  {
    match st.t.loop
    case Start => st.(t := Looping(Test), s := st.s.(mtx := Worker))
    case Test =>
      if st.s.keepsending then st.(t := Popping(IncLock), s := st.s.(mtx := Free))
      else st.(t := Looping(Exit))
    case Got(got) =>
      if got.Some? then
        st.(t := Looping(InSend(got.value)), log := st.log.(handed := st.log.handed + [got.value]))
      else st.(t := Looping(Relock))
    case InSend(c) => st.(t := Looping(Sent(c, ok)), log := st.log.(results := st.log.results + [ok]))
    case Sent(c, good) =>
      st.(t := Looping(if good then Relock else FailLock),
          log := st.log.(freedByThread := st.log.freedByThread + [c]))
    case Relock => st.(t := Looping(Test), s := st.s.(mtx := Worker))
    case FailLock => st.(t := Looping(Exit), s := st.s.(mtx := Worker))
    case Exit => st.(t := Ended, s := st.s.(isrunning := false, mtx := Free))
  }

  // ---------- runs ----------

  /** `acts` is a schedule that leads from `st` to `st'`. */
  ghost predicate Steps(cfg: Config, st: State, acts: seq<Action>, st': State)
    decreases |acts|
  {
    if acts == [] then st' == st
    else Enabled(cfg, st, acts[0]) && Steps(cfg, Apply(cfg, st, acts[0]), acts[1..], st')
  }

  ghost predicate Reachable(cfg: Config, st: State) {
    exists acts :: Steps(cfg, Init(), acts, st)
  }
}
