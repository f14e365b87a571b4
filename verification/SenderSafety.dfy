/** What every step of the send pipeline keeps, and what that means for whole runs. */
module SenderSafety {
  import opened Common
  import opened SenderProtocol

  // ---------- which program counters hold, count or own what ----------

  predicate MainHoldsSender(m: MainPc) {
    match m
    case Sending(pc) => pc.SendTest?
    case Destroying(pc) => pc.DestroyTest? || pc.DestroyLoop? || pc.DestroyUnlock?
    case Finishing(site, _) => site.InLoop?
    case _ => false
  }
  predicate ThreadHoldsSender(t: ThreadPc) { t.Looping? && (t.loop.Test? || t.loop.Exit?) }

  predicate MainHoldsQueue(m: MainPc) {
    match m
    case Sending(pc) => pc.PushRead? || pc.PushAppend?
    case Finishing(_, pc) => pc.FinishSignal?
    case Draining(pc) => pc.DrainTake?
    case _ => false
  }
  predicate ThreadHoldsQueue(t: ThreadPc) { t.Popping? && (t.pop.PopTest? || t.pop.AfterWait?) }

  predicate MainHoldsUsed(m: MainPc) {
    match m
    case Finishing(_, pc) => pc.UsedTest?
    case Draining(pc) => pc.DrainInc? || pc.DrainDec?
    case _ => false
  }
  predicate ThreadHoldsUsed(t: ThreadPc) { t.Popping? && (t.pop.Inc? || t.pop.Dec?) }

  /** Between queue_use_increment and queue_use_decrement. */
  predicate ThreadUses(t: ThreadPc) { t.Popping? && !t.pop.IncLock? && !t.pop.Inc? }
  predicate MainUses(m: MainPc) {
    m.Draining? && (m.drain.DrainLock? || m.drain.DrainTake? || m.drain.DrainDecLock? || m.drain.DrainDec?)
  }

  predicate ThreadWantsSender(t: ThreadPc) { t.Looping? && (t.loop.Start? || t.loop.Relock? || t.loop.FailLock?) }
  predicate MainWantsSender(m: MainPc) {
    || (m.Sending? && m.send.SendLock?)
    || (m.Destroying? && (m.destroy.DestroyLock? || m.destroy.DestroyRelock?))
  }

  /** `iemnet__sender_destroy` has set `keepsending` to 0. */
  predicate Cleared(m: MainPc) {
    match m
    case Idle => false
    case Sending(_) => false
    case Destroying(pc) => !pc.DestroyLock? && !pc.DestroyTest?
    case _ => true
  }

  /** ... and has seen `isrunning` at 0. */
  predicate PastLoop(m: MainPc) {
    match m
    case Destroying(pc) => pc.DestroyJoin?
    case Finishing(site, _) => !site.InLoop?
    case Draining(_) => true
    case Done => true
    case _ => false
  }

  /** `queue_finish` has signalled and has not returned yet. */
  predicate PastSignal(m: MainPc) { m.Finishing? && !m.finish.FinishLock? && !m.finish.FinishSignal? }

  predicate Pushing(m: MainPc) { m.Sending? && !m.send.SendLock? && !m.send.SendTest? }

  /** The copy the send thread has popped and not freed yet. */
  function ThreadHand(t: ThreadPc): seq<Copy> {
    match t
    case Popping(pc) => if pc.DecLock? || pc.Dec? then List(pc.got) else []
    case Looping(pc) => if pc.Got? then List(pc.got) else if pc.InSend? || pc.Sent? then [pc.c] else []
    case Ended => []
  }

  /** The copy the send thread has handed to the send function and not freed yet. */
  function ThreadSending(t: ThreadPc): seq<Copy> {
    if t.Looping? && (t.loop.InSend? || t.loop.Sent?) then [t.loop.c] else []
  }

  /** The copy the drain loop has popped and not freed yet. */
  function MainHand(m: MainPc): seq<Copy> {
    if m.Draining? && (m.drain.DrainDecLock? || m.drain.DrainDec? || m.drain.DrainFree?) then List(m.drain.got) else []
  }

  /** The copy main has made and not pushed yet. */
  function Unpushed(m: MainPc): seq<Copy> {
    if !m.Sending? then []
    else if m.send.PushLock1? || m.send.PushRead? then List(m.send.copy)
    else if m.send.PushLock2? || m.send.PushAppend? then [m.send.c]
    else []
  }

  /** The drain loop has found the queue empty. */
  predicate Drained(m: MainPc) {
    match m
    case Draining(pc) =>
      ((pc.DrainDecLock? || pc.DrainDec? || pc.DrainFree?) && pc.got.None?) || pc.FreeQueue? || pc.FreeSender?
    case Done => true
    case _ => false
  }

  function Total(q: seq<Copy>): nat {
    if q == [] then 0 else |q[0].data| + Total(q[1..])
  }

  /** The bytes in the queue. */
  function Concat(q: seq<Copy>): seq<byte> {
    if q == [] then [] else q[0].data + Concat(q[1..])
  }

  lemma {:induction false} TotalIsBytes(q: seq<Copy>)
    ensures Total(q) == |Concat(q)|
  {
    if q != [] {
      TotalIsBytes(q[1..]);
    }
  }

  function Pushed(rs: seq<Reply>): seq<Copy> {
    if rs == [] then []
    else Pushed(rs[..|rs| - 1]) + (if rs[|rs| - 1].Queued? then [rs[|rs| - 1].copy] else [])
  }

  // ---------- the invariant ----------

  predicate SenderMutex(st: State) {
    (st.s.mtx.Main? <==> MainHoldsSender(st.m)) && (st.s.mtx.Worker? <==> ThreadHoldsSender(st.t))
  }
  predicate QueueMutex(st: State) {
    (st.q.mtx.Main? <==> MainHoldsQueue(st.m)) && (st.q.mtx.Worker? <==> ThreadHoldsQueue(st.t))
  }
  predicate UsedMutex(st: State) {
    (st.q.usedmtx.Main? <==> MainHoldsUsed(st.m)) && (st.q.usedmtx.Worker? <==> ThreadHoldsUsed(st.t))
  }
  predicate Locks(st: State) { SenderMutex(st) && QueueMutex(st) && UsedMutex(st) }

  predicate Flags(st: State) {
    && st.q.used == (if ThreadUses(st.t) then 1 else 0) + (if MainUses(st.m) then 1 else 0)
    && (st.s.keepsending <==> !Cleared(st.m))
    && (st.s.isrunning <==> !st.t.Ended?)
    && (PastLoop(st.m) ==> st.t.Ended?)
    && (st.q.done ==> Cleared(st.m))
    && (PastSignal(st.m) ==> st.q.done)
    && (st.t == Popping(Waiting) ==> st.q.items == [])
    && (st.m.Finishing? && st.m.finish.UsedWait? ==> ThreadUses(st.t))
  }

  predicate Ledger(st: State) {
    && st.log.accepted
       == st.log.freedByThread + ThreadHand(st.t) + st.log.freedByMain + MainHand(st.m) + st.q.items
    && st.log.made == st.log.accepted + Unpushed(st.m)
    && st.log.handed == st.log.freedByThread + ThreadSending(st.t)
    && (st.log.freedByMain != [] ==> PastLoop(st.m))
    && (Drained(st.m) ==> st.q.items == [])
  }

  predicate Sizes(st: State) {
    && st.q.size == Total(st.q.items)
    && forall i :: 0 <= i < |st.log.made| ==> st.log.made[i].id == i && |st.log.made[i].data| >= 1
  }

  predicate Lifetimes(st: State) {
    && (st.q.freed <==> st.m == Draining(FreeSender) || st.m.Done?)
    && (st.s.freed <==> st.m.Done?)
  }

  predicate GoodReply(r: Reply) {
    match r
    case Refused => true
    case Fill(value) => value >= 0
    case Queued(copy, value) => value >= |copy.data| >= 1
  }

  predicate GoodReplies(rs: seq<Reply>) {
    && (forall i :: 0 <= i < |rs| ==> GoodReply(rs[i]))
    && (forall i, j :: 0 <= i < j < |rs| && rs[i].Refused? ==> rs[j].Refused?)
  }

  predicate Answers(st: State) {
    && Pushed(st.log.replies) == st.log.accepted
    && GoodReplies(st.log.replies)
    && (Refused in st.log.replies ==> st.t.Ended? && !Pushing(st.m))
  }

  ghost predicate Inv(st: State) {
    Locks(st) && Flags(st) && Ledger(st) && Sizes(st) && Lifetimes(st) && Answers(st)
  }

  // ---------- every step keeps it ----------

  lemma SendKeepsLocks(st: State)
    requires MainEnabled(st) && st.m.Sending? && Locks(st)
    ensures Locks(SendStep(st))
  {
  }

  lemma DestroyKeepsLocks(st: State)
    requires MainEnabled(st) && st.m.Destroying? && Locks(st)
    ensures Locks(DestroyStep(st))
  {
  }

  lemma FinishKeepsLocks(st: State)
    requires MainEnabled(st) && st.m.Finishing? && Locks(st)
    ensures Locks(FinishStep(st))
  {
  }

  lemma DrainKeepsLocks(st: State)
    requires MainEnabled(st) && st.m.Draining? && Locks(st)
    ensures Locks(DrainStep(st))
  {
  }

  lemma PopKeepsLocks(cfg: Config, st: State)
    requires ThreadEnabled(st) && st.t.Popping? && Locks(st)
    ensures Locks(PopStep(cfg, st))
  {
  }

  lemma LoopKeepsLocks(st: State, ok: bool)
    requires ThreadEnabled(st) && st.t.Looping? && Locks(st)
    ensures Locks(LoopStep(st, ok))
  {
  }

  lemma StepKeepsLocks(cfg: Config, st: State, a: Action)
    requires Enabled(cfg, st, a) && Locks(st)
    ensures Locks(Apply(cfg, st, a))
  {
    match a
    case MainRuns =>
      match st.m {
        case Sending(_) => SendKeepsLocks(st);
        case Destroying(_) => DestroyKeepsLocks(st);
        case Finishing(_, _) => FinishKeepsLocks(st);
        case Draining(_) => DrainKeepsLocks(st);
      }
    case ThreadRuns(ok) =>
      if st.t.Popping? { PopKeepsLocks(cfg, st); } else { LoopKeepsLocks(st, ok); }
    case _ =>
  }

  lemma MainKeepsFlags(st: State)
    requires MainEnabled(st) && Flags(st)
    ensures Flags(MainStep(st)) && (Lifetimes(st) ==> Lifetimes(MainStep(st)))
  {
  }

  lemma ThreadKeepsFlags(cfg: Config, st: State, ok: bool)
    requires ThreadEnabled(st) && Flags(st)
    ensures Flags(ThreadStep(cfg, st, ok)) && (Lifetimes(st) ==> Lifetimes(ThreadStep(cfg, st, ok)))
  {
  }

  lemma SendKeepsLedger(st: State)
    requires MainEnabled(st) && st.m.Sending? && Flags(st) && Ledger(st)
    ensures Ledger(SendStep(st))
  {
  }

  lemma DestroyKeepsLedger(st: State)
    requires MainEnabled(st) && (st.m.Destroying? || st.m.Finishing?) && Flags(st) && Ledger(st)
    ensures Ledger(MainStep(st))
  {
  }

  lemma DrainKeepsLedger(st: State)
    requires MainEnabled(st) && st.m.Draining? && Flags(st) && Ledger(st)
    ensures Ledger(DrainStep(st))
  {
  }

  lemma PopKeepsLedger(cfg: Config, st: State)
    requires ThreadEnabled(st) && st.t.Popping? && Flags(st) && Ledger(st)
    ensures Ledger(PopStep(cfg, st))
  {
  }

  lemma LoopKeepsLedger(st: State, ok: bool)
    requires ThreadEnabled(st) && st.t.Looping? && Flags(st) && Ledger(st)
    ensures Ledger(LoopStep(st, ok))
  {
  }

  lemma StepKeepsFlagsAndLedger(cfg: Config, st: State, a: Action)
    requires Enabled(cfg, st, a) && Flags(st) && Ledger(st)
    ensures Flags(Apply(cfg, st, a)) && Ledger(Apply(cfg, st, a)) && (Lifetimes(st) ==> Lifetimes(Apply(cfg, st, a)))
  {
    match a
    case MainRuns =>
      MainKeepsFlags(st);
      match st.m {
        case Sending(_) => SendKeepsLedger(st);
        case Destroying(_) => DestroyKeepsLedger(st);
        case Finishing(_, _) => DestroyKeepsLedger(st);
        case Draining(_) => DrainKeepsLedger(st);
      }
    case ThreadRuns(ok) =>
      ThreadKeepsFlags(cfg, st, ok);
      if st.t.Popping? { PopKeepsLedger(cfg, st); } else { LoopKeepsLedger(st, ok); }
    case _ =>
  }

  lemma {:induction false} TotalAppend(q: seq<Copy>, c: Copy)
    ensures Total(q + [c]) == Total(q) + |c.data|
  {
    if q == [] {
    } else {
      assert (q + [c])[1..] == q[1..] + [c];
      TotalAppend(q[1..], c);
    }
  }

  lemma SendKeepsSizes(st: State)
    requires MainEnabled(st) && st.m.Sending? && Ledger(st) && Sizes(st)
    ensures Sizes(SendStep(st))
  {
    if st.m.send.PushAppend? { TotalAppend(st.q.items, st.m.send.c); }
  }

  lemma AppendReply(rs: seq<Reply>, r: Reply)
    requires GoodReplies(rs) && GoodReply(r) && (Refused in rs ==> r.Refused?)
    ensures GoodReplies(rs + [r])
    ensures Pushed(rs + [r]) == Pushed(rs) + if r.Queued? then [r.copy] else []
  {
    assert (rs + [r])[..|rs|] == rs;
  }

  lemma SendKeepsAnswers(st: State)
    requires MainEnabled(st) && st.m.Sending? && Flags(st) && Ledger(st) && Sizes(st) && Answers(st)
    ensures Answers(SendStep(st))
  {
    var rs := st.log.replies;
    if st.m.send.SendTest? && !st.s.isrunning {
      AppendReply(rs, Refused);
    } else if st.m.send.PushRead? && st.m.send.copy.None? {
      AppendReply(rs, Fill(st.q.size));
    } else if st.m.send.PushAppend? {
      var c := st.m.send.c;
      assert st.log.made[|st.log.accepted|] == c;
      AppendReply(rs, Queued(c, st.q.size + |c.data|));
    }
  }

  /** Outside of iemnet__sender_send a step answers nothing, makes nothing, and at most takes the head of the queue. */
  lemma OtherStepsOnlyTake(cfg: Config, st: State, a: Action)
    requires Enabled(cfg, st, a) && !(a.MainRuns? && st.m.Sending?)
    ensures var st' := Apply(cfg, st, a);
            && st'.log.replies == st.log.replies && st'.log.made == st.log.made && st'.log.accepted == st.log.accepted
            && (|| (st'.q.items == st.q.items && st'.q.size == st.q.size)
                || (st.q.items != [] && st'.q == TakeHead(st.q)))
  {
  }

  lemma OtherStepsStayAway(cfg: Config, st: State, a: Action)
    requires Enabled(cfg, st, a) && !(a.MainRuns? && st.m.Sending?)
    ensures st.t.Ended? ==> Apply(cfg, st, a).t.Ended?
    ensures !Pushing(st.m) ==> !Pushing(Apply(cfg, st, a).m)
  {
  }

  lemma StepKeepsSizesAndAnswers(cfg: Config, st: State, a: Action)
    requires Enabled(cfg, st, a) && Flags(st) && Ledger(st) && Sizes(st) && Answers(st)
    ensures Sizes(Apply(cfg, st, a)) && Answers(Apply(cfg, st, a))
  {
    if a.MainRuns? && st.m.Sending? {
      SendKeepsSizes(st);
      SendKeepsAnswers(st);
    } else {
      OtherStepsOnlyTake(cfg, st, a);
      OtherStepsStayAway(cfg, st, a);
    }
  }

  lemma StepKeepsInv(cfg: Config, st: State, a: Action)
    requires Enabled(cfg, st, a) && Inv(st)
    ensures Inv(Apply(cfg, st, a))
  {
    StepKeepsLocks(cfg, st, a);
    StepKeepsFlagsAndLedger(cfg, st, a);
    StepKeepsSizesAndAnswers(cfg, st, a);
  }

  lemma {:induction false} RunKeepsInv(cfg: Config, st: State, acts: seq<Action>, st': State)
    requires Inv(st) && Steps(cfg, st, acts, st')
    ensures Inv(st')
    decreases |acts|
  {
    if acts == [] {
    } else {
      StepKeepsInv(cfg, st, acts[0]);
      RunKeepsInv(cfg, Apply(cfg, st, acts[0]), acts[1..], st');
    }
  }

  lemma ReachableInv(cfg: Config, st: State)
    requires Reachable(cfg, st)
    ensures Inv(st)
  {
    var acts :| Steps(cfg, Init(), acts, st);
    RunKeepsInv(cfg, Init(), acts, st);
  }

  // ---------- what it means ----------

  /** The copy the send thread has popped and not handed over yet. */
  function NotYetHanded(t: ThreadPc): seq<Copy> {
    if t.Looping? && !t.loop.Got? then [] else ThreadHand(t)
  }

  /**
   First in, first out, nothing lost and nothing invented: in every reachable state the accepted
   copies are those handed to the send function, then the one in the thread's hand, then those the
   drain loop took out, then the queue; and they are exactly the copies whose push was answered.
   */
  lemma OrderAndConservation(cfg: Config, st: State)
    requires Reachable(cfg, st)
    ensures st.log.accepted
         == st.log.handed + NotYetHanded(st.t) + (st.log.freedByMain + MainHand(st.m)) + st.q.items
    ensures !PastLoop(st.m) ==> st.log.accepted == st.log.handed + NotYetHanded(st.t) + st.q.items
    ensures st.log.handed <= st.log.accepted <= st.log.made
    ensures Pushed(st.log.replies) == st.log.accepted
  {
    ReachableInv(cfg, st);
    HandSplits(st.t);
    assert st.log.handed + NotYetHanded(st.t) == st.log.freedByThread + (ThreadSending(st.t) + NotYetHanded(st.t));
  }

  lemma HandSplits(t: ThreadPc)
    ensures ThreadHand(t) == ThreadSending(t) + NotYetHanded(t)
  {
  }

  /** Once the queue is freed, the only step left is main's, and it frees the sender. */
  lemma StepAfterFree(cfg: Config, st: State, a: Action)
    requires Flags(st) && Lifetimes(st) && st.q.freed && Enabled(cfg, st, a)
    ensures a.MainRuns? && st.m == Draining(FreeSender) && MainStep(st).s.freed
  {
  }

  /**
   When the queue is freed the send thread has ended, nobody is inside a pop, and every copy ever
   made has been freed exactly once; afterwards the only step left frees the sender itself, and
   after that nothing can move any more.
   */
  lemma ShutdownSafety(cfg: Config, st: State)
    requires Reachable(cfg, st) && st.q.freed
    ensures st.t.Ended? && st.q.used == 0 && st.q.items == []
    ensures st.log.freedByThread + st.log.freedByMain == st.log.made
    ensures forall i :: 0 <= i < |st.log.made| ==> st.log.made[i].id == i
    ensures forall a :: Enabled(cfg, st, a) ==> a.MainRuns? && MainStep(st).s.freed && !st.s.freed
  {
    ReachableInv(cfg, st);
    forall a | Enabled(cfg, st, a) ensures a.MainRuns? && MainStep(st).s.freed && !st.s.freed {
      StepAfterFree(cfg, st, a);
    }
  }

  /** The sender is freed only after the queue. */
  lemma SenderFreedLast(cfg: Config, st: State)
    requires Reachable(cfg, st) && st.s.freed
    ensures st.q.freed
  {
    ReachableInv(cfg, st);
  }

  /**
   `used` counts the threads between increment and decrement, and none of them asks for the sender
   mutex; whoever holds the sender mutex while it waits for `used` cannot be part of a lock cycle.
   */
  lemma UseCounterExact(cfg: Config, st: State)
    requires Reachable(cfg, st)
    ensures st.q.used == (if ThreadUses(st.t) then 1 else 0) + (if MainUses(st.m) then 1 else 0)
    ensures ThreadUses(st.t) ==> !ThreadWantsSender(st.t) && !ThreadHoldsSender(st.t)
    ensures MainUses(st.m) ==> !MainWantsSender(st.m) && !MainHoldsSender(st.m)
    ensures st.m.Finishing? && st.m.finish.UsedWait? ==> ThreadUses(st.t)
    ensures !(MainHoldsSender(st.m) && ThreadHoldsSender(st.t))
    ensures !(MainHoldsQueue(st.m) && ThreadHoldsQueue(st.t))
    ensures !(MainHoldsUsed(st.m) && ThreadHoldsUsed(st.t))
  {
    ReachableInv(cfg, st);
  }

  lemma StepLowersFlags(cfg: Config, st: State, a: Action)
    requires Enabled(cfg, st, a)
    ensures Apply(cfg, st, a).s.keepsending ==> st.s.keepsending
    ensures Apply(cfg, st, a).s.isrunning ==> st.s.isrunning
    ensures st.log.handed <= Apply(cfg, st, a).log.handed && st.log.replies <= Apply(cfg, st, a).log.replies
  {
  }

  /** `keepsending` and `isrunning` only ever fall, over any part of any run; the histories only grow. */
  lemma {:induction false} FlagsOnlyFall(cfg: Config, st: State, acts: seq<Action>, st': State)
    requires Steps(cfg, st, acts, st')
    ensures st'.s.keepsending ==> st.s.keepsending
    ensures st'.s.isrunning ==> st.s.isrunning
    ensures st.log.handed <= st'.log.handed && st.log.replies <= st'.log.replies
    decreases |acts|
  {
    if acts == [] {
    } else {
      StepLowersFlags(cfg, st, acts[0]);
      FlagsOnlyFall(cfg, Apply(cfg, st, acts[0]), acts[1..], st');
    }
  }

  /** How many more calls of the send function can start once `keepsending` is 0. */
  function SendsLeft(t: ThreadPc): nat {
    match t
    case Popping(pc) => if (pc.DecLock? || pc.Dec?) && pc.got.None? then 0 else 1
    case Looping(pc) => if pc.Got? && pc.got.Some? then 1 else 0
    case Ended => 0
  }

  lemma StepSpendsSends(cfg: Config, st: State, a: Action)
    requires Enabled(cfg, st, a) && !st.s.keepsending
    ensures |Apply(cfg, st, a).log.handed| + SendsLeft(Apply(cfg, st, a).t) <= |st.log.handed| + SendsLeft(st.t)
  {
  }

  /** After `keepsending` has become 0 at most one further call of the send function starts. */
  lemma {:induction false} AtMostOneMoreSend(cfg: Config, st: State, acts: seq<Action>, st': State)
    requires Steps(cfg, st, acts, st') && !st.s.keepsending
    ensures |st'.log.handed| + SendsLeft(st'.t) <= |st.log.handed| + SendsLeft(st.t) <= |st.log.handed| + 1
    decreases |acts|
  {
    if acts == [] {
    } else {
      StepSpendsSends(cfg, st, acts[0]);
      StepLowersFlags(cfg, st, acts[0]);
      AtMostOneMoreSend(cfg, Apply(cfg, st, acts[0]), acts[1..], st');
    }
  }

  /**
   `iemnet__sender_send` answers at least the size of the chunk it queued, hence at least 1, and a
   non-negative fill state for a null chunk; once it has answered -1 every later answer is -1.
   */
  lemma AnswersOfSend(cfg: Config, st: State, acts: seq<Action>, st': State)
    requires Reachable(cfg, st) && Steps(cfg, st, acts, st')
    ensures forall i :: 0 <= i < |st'.log.replies| ==> GoodReply(st'.log.replies[i])
    ensures Refused in st.log.replies ==>
              forall i :: |st.log.replies| <= i < |st'.log.replies| ==> st'.log.replies[i].Refused?
    ensures st.t.Ended? && st.m.Idle? ==> 
              forall i :: |st.log.replies| <= i < |st'.log.replies| ==> st'.log.replies[i].Refused?
  {
    ReachableInv(cfg, st);
    RunKeepsInv(cfg, st, acts, st');
    FlagsOnlyFall(cfg, st, acts, st');
    if st.t.Ended? && st.m.Idle? { StoppedRefuses(cfg, st, acts, st'); }
  }

  /**
   Each answer is the state of affairs at its step: -1 exactly when the thread has stopped, otherwise the number of
   bytes in the queue, after the push if there was something to push.
   */
  lemma AnswerIsFillState(cfg: Config, st: State, a: Action)
    requires Reachable(cfg, st) && Enabled(cfg, st, a)
    ensures var st' := Apply(cfg, st, a);
            var n := |st.log.replies|;
            && st.log.replies <= st'.log.replies && |st'.log.replies| <= n + 1
            && (|st'.log.replies| == n + 1 ==>
                  match st'.log.replies[n]
                  case Refused => !st.s.isrunning
                  case Fill(value) => value == |Concat(st.q.items)| && st'.q.items == st.q.items
                  case Queued(copy, value) => st'.q.items == st.q.items + [copy] && value == |Concat(st'.q.items)|)
  {
    ReachableInv(cfg, st);
    TotalIsBytes(st.q.items);
    TotalIsBytes(Apply(cfg, st, a).q.items);
    if a.MainRuns? && st.m.Sending? {
      SendKeepsSizes(st);
    } else {
      OtherStepsOnlyTake(cfg, st, a);
    }
  }

  /** With the thread stopped and no call past its test, only -1 is answered. */
  lemma {:induction false} StoppedRefuses(cfg: Config, st: State, acts: seq<Action>, st': State)
    requires Steps(cfg, st, acts, st') && st.t.Ended? && !st.s.isrunning && !Pushing(st.m)
    ensures st.log.replies <= st'.log.replies
    ensures forall i :: |st.log.replies| <= i < |st'.log.replies| ==> st'.log.replies[i].Refused?
    decreases |acts|
  {
    if acts == [] {
    } else {
      var next := Apply(cfg, st, acts[0]);
      assert next.log.replies == st.log.replies || next.log.replies == st.log.replies + [Refused];
      StoppedRefuses(cfg, next, acts[1..], st');
    }
  }
}
