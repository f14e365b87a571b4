/**
 When `iemnet__sender_destroy` returns.

 All results here are about runs without spurious wakeups in which every call of the send function
 returns.  The code can get stuck, in one state only, and this module says from exactly which states
 that can happen.  If `queue_pop_block` tests `done` before it waits, as iemnet_data.h documents,
 nothing gets stuck and every fair run finishes.
 */
module SenderProgress {
  import opened SenderProtocol
  import opened SenderSafety

  /** `queue_pop_block` as written, and as documented. */
  const AS_WRITTEN := Config(false, false)
  const AS_DOCUMENTED := Config(true, false)

  ghost predicate NoStep(cfg: Config, st: State) { forall a :: !Enabled(cfg, st, a) }

  /** The send thread waits on an empty queue that is already done; main waits for it to leave the pop. */
  predicate Stuck(st: State) {
    st.t == Popping(Waiting) && st.m == Finishing(InLoop, UsedWait) && st.q.items == [] && st.q.done
  }

  /** Wakeups have a reason: something was pushed or the queue is done. */
  predicate Prompt(cfg: Config, st: State) {
    && (cfg.doneFirst && st.t == Popping(Waiting) ==> !st.q.done)
    && (st.t == Popping(Woken) || st.t == Popping(AfterWait) ==> st.q.done || st.q.items != [])
  }

  lemma StepKeepsPrompt(cfg: Config, st: State, a: Action)
    requires !cfg.spurious && Enabled(cfg, st, a) && Flags(st) && Prompt(cfg, st)
    ensures Prompt(cfg, Apply(cfg, st, a))
  {
  }

  lemma {:induction false} RunKeepsPrompt(cfg: Config, st: State, acts: seq<Action>, st': State)
    requires !cfg.spurious && Inv(st) && Prompt(cfg, st) && Steps(cfg, st, acts, st')
    ensures Inv(st') && Prompt(cfg, st')
    decreases |acts|
  {
    if acts == [] {
    } else {
      StepKeepsInv(cfg, st, acts[0]);
      StepKeepsPrompt(cfg, st, acts[0]);
      RunKeepsPrompt(cfg, Apply(cfg, st, acts[0]), acts[1..], st');
    }
  }

  lemma ReachablePrompt(cfg: Config, st: State)
    requires !cfg.spurious && Reachable(cfg, st)
    ensures Inv(st) && Prompt(cfg, st)
  {
    var acts :| Steps(cfg, Init(), acts, st);
    RunKeepsPrompt(cfg, Init(), acts, st);
  }

  // ---------- the only stuck state ----------

  lemma SomebodyMoves(st: State)
    requires Locks(st) && Flags(st) && !st.m.Idle? && !st.m.Done?
    ensures MainEnabled(st) || ThreadEnabled(st) || Stuck(st)
  {
  }

  lemma StuckOrOver(cfg: Config, st: State)
    requires !cfg.spurious && Inv(st)
    ensures NoStep(cfg, st) <==> st.m.Done? || Stuck(st)
  {
    if !st.m.Idle? && !st.m.Done? { SomebodyMoves(st); }
    if NoStep(cfg, st) {
      assert !Enabled(cfg, st, CallDestroy) && !Enabled(cfg, st, MainRuns) && !Enabled(cfg, st, ThreadRuns(true));
    }
  }

  /** Of all reachable states only the finished one and `Stuck` have no step; as documented, only the finished one. */
  lemma OnlyStuckState(cfg: Config, st: State)
    requires !cfg.spurious && Reachable(cfg, st)
    ensures NoStep(cfg, st) <==> st.m.Done? || Stuck(st)
    ensures cfg.doneFirst ==> !Stuck(st)
  {
    ReachablePrompt(cfg, st);
    StuckOrOver(cfg, st);
  }

  // ---------- the thread runs out of steps ----------

  /** `iemnet__sender_destroy` has been called. */
  predicate Shutdown(m: MainPc) { !m.Idle? && !m.Sending? }

  /** Falls with every step of the send thread and never rises, as long as nothing is pushed. */
  function ThreadRank(st: State): nat { 40 * |st.q.items| + ThreadDistance(st) }

  function ThreadDistance(st: State): nat {
    var k := if st.s.keepsending then 20 else 0;
    match st.t
    case Ended => 0
    case Looping(pc) =>
      (match pc
       case Exit => 1
       case FailLock => 2
       case Test => k + 2
       case Relock => k + 3
       case Start => k + 3
       case Sent(_, _) => k + 4
       case InSend(_) => k + 5
       case Got(_) => k + 6)
    case Popping(pc) =>
      (match pc
       case Dec(_) => k + 7
       case DecLock(_) => k + 8
       case AfterWait => if st.q.done then 9 else 16
       case Woken => if st.q.done then 10 else 17
       case Waiting => 11
       case PopTest => 12
       case PopLock => 13
       case Inc => 14
       case IncLock => 15)
  }

  lemma ThreadStepLowersRank(cfg: Config, st: State, ok: bool)
    requires Flags(st) && ThreadEnabled(st)
    ensures ThreadRank(ThreadStep(cfg, st, ok)) < ThreadRank(st)
  {
  }

  lemma MainStepKeepsRank(st: State)
    requires Flags(st) && MainEnabled(st) && Shutdown(st.m)
    ensures ThreadRank(MainStep(st)) <= ThreadRank(st)
  {
  }

  // ---------- from where the code as written can get stuck ----------

  /** The send thread is past the test of `keepsending` and not yet at the test of the queue. */
  predicate Approaching(t: ThreadPc) { t.Popping? && (t.pop.IncLock? || t.pop.Inc? || t.pop.PopLock?) }

  /** The send thread will leave its loop, or wait for the signal of `queue_finish`, whatever main does next. */
  predicate Resigned(st: State) {
    match st.t
    case Ended => true
    case Looping(pc) => pc.Exit? || pc.FailLock? || (pc.Sent? && !pc.ok)
    case Popping(pc) => pc.Waiting? || (pc.PopTest? && st.q.items == [])
  }

  /**
   Before main has the sender mutex: the thread can still come around to an empty queue.
   With it: the queue is empty and the thread is between the test of `keepsending` and its wait,
   and the signal of `done` comes, or came, before the thread has started to wait.
   */
  predicate AtRisk(st: State) {
    if st.m == Destroying(DestroyLock) then !Resigned(st)
    else
      && Shutdown(st.m)
      && st.q.items == []
      && (Approaching(st.t) || ((st.t == Popping(PopTest) || st.t == Popping(Waiting)) && PastSignal(st.m)))
  }

  lemma SafeStep(st: State, a: Action)
    requires Enabled(AS_WRITTEN, st, a) && Locks(st) && Flags(st) && Prompt(AS_WRITTEN, st)
    requires Shutdown(st.m) && !AtRisk(st)
    ensures var st' := Apply(AS_WRITTEN, st, a); Shutdown(st'.m) && !AtRisk(st')
  {
  }

  lemma {:induction false} SafeRun(st: State, acts: seq<Action>, st': State)
    requires Inv(st) && Prompt(AS_WRITTEN, st) && Shutdown(st.m) && !AtRisk(st)
    requires Steps(AS_WRITTEN, st, acts, st')
    ensures Shutdown(st'.m) && !AtRisk(st')
    decreases |acts|
  {
    if acts == [] {
    } else {
      SafeStep(st, acts[0]);
      StepKeepsInv(AS_WRITTEN, st, acts[0]);
      StepKeepsPrompt(AS_WRITTEN, st, acts[0]);
      SafeRun(Apply(AS_WRITTEN, st, acts[0]), acts[1..], st');
    }
  }

  /** How to get a state at risk stuck: thread to its lock, main past its signal, both into their waits. */
  function HangAction(st: State): Action
    requires AtRisk(st)
  {
    if st.m == Destroying(DestroyLock) then
      if Approaching(st.t) && st.q.items == [] then MainRuns else ThreadRuns(true)
    else
      match st.t.pop
      case IncLock => if st.q.usedmtx.Free? then ThreadRuns(true) else MainRuns
      case PopLock => if PastSignal(st.m) then ThreadRuns(true) else MainRuns
      case Waiting => MainRuns
      case _ => ThreadRuns(true)
  }

  function Stage(m: MainPc): nat { if m == Destroying(DestroyLock) then 1 else 0 }

  function MainToGo(m: MainPc): nat {
    match m
    case Destroying(pc) => if pc.DestroyUnlock? then 8 else if pc.DestroyLoop? then 6 else 7
    case Finishing(_, pc) =>
      (match pc
       case FinishLock => 5
       case FinishSignal => 4
       case UsedLock => 3
       case UsedWoken => 3
       case UsedTest => 2
       case UsedWait => 1)
    case _ => 0
  }

  function ToGo(st: State): nat
    requires AtRisk(st)
  {
    if st.t == Popping(IncLock) then (if st.q.usedmtx.Free? then 0 else 1) else MainToGo(st.m)
  }

  lemma HangStep(st: State)
    requires Locks(st) && Flags(st) && Prompt(AS_WRITTEN, st) && AtRisk(st) && !Stuck(st)
    ensures Enabled(AS_WRITTEN, st, HangAction(st))
    ensures var st' := Apply(AS_WRITTEN, st, HangAction(st));
            && AtRisk(st')
            && (|| Stage(st'.m) < Stage(st.m)
                || (Stage(st'.m) == Stage(st.m) && ThreadRank(st') < ThreadRank(st))
                || (Stage(st'.m) == Stage(st.m) && ThreadRank(st') == ThreadRank(st) && ToGo(st') < ToGo(st)))
  {
  }

  lemma {:induction false} HangRun(st: State) returns (acts: seq<Action>, st': State)
    requires Inv(st) && Prompt(AS_WRITTEN, st) && AtRisk(st)
    ensures Steps(AS_WRITTEN, st, acts, st') && Stuck(st')
    decreases Stage(st.m), ThreadRank(st), ToGo(st)
  {
    if Stuck(st) {
      acts, st' := [], st;
    } else {
      var a := HangAction(st);
      HangStep(st);
      StepKeepsInv(AS_WRITTEN, st, a);
      StepKeepsPrompt(AS_WRITTEN, st, a);
      var rest, last := HangRun(Apply(AS_WRITTEN, st, a));
      acts, st' := [a] + rest, last;
      Prepend(AS_WRITTEN, st, a, rest, last);
    }
  }

  lemma Prepend(cfg: Config, st: State, a: Action, acts: seq<Action>, st': State)
    requires Enabled(cfg, st, a) && Steps(cfg, Apply(cfg, st, a), acts, st')
    ensures Steps(cfg, st, [a] + acts, st')
  {
    assert ([a] + acts)[1..] == acts;
  }

  /** Some run of the code from here gets stuck. */
  ghost predicate CanHang(st: State) {
    exists acts, st' :: Steps(AS_WRITTEN, st, acts, st') && Stuck(st')
  }

  /** Once `iemnet__sender_destroy` has begun, the code can get stuck from exactly the states `AtRisk`. */
  lemma HangsExactlyWhenAtRisk(st: State)
    requires Reachable(AS_WRITTEN, st) && Shutdown(st.m)
    ensures CanHang(st) <==> AtRisk(st)
  {
    ReachablePrompt(AS_WRITTEN, st);
    if AtRisk(st) {
      var acts, st' := HangRun(st);
    } else if CanHang(st) {
      var acts, st' :| Steps(AS_WRITTEN, st, acts, st') && Stuck(st');
      SafeRun(st, acts, st');
    }
  }

  /** Destroying a sender right after creating it is enough. */
  lemma CodeCanHang()
    ensures CanHang(Init())
  {
    var st := Apply(AS_WRITTEN, Init(), CallDestroy);
    StepKeepsInv(AS_WRITTEN, Init(), CallDestroy);
    var acts, st' := HangRun(st);
    Prepend(AS_WRITTEN, Init(), CallDestroy, acts, st');
  }

  // ---------- every other run finishes ----------

  /** An infinite run; once no step is left it stands still. */
  ghost predicate Behaviour(cfg: Config, b: nat -> State, a: nat -> Action) {
    forall i: nat {:trigger a(i)} :: Moves(cfg, b(i), a(i), b(i + 1))
  }

  ghost predicate Moves(cfg: Config, st: State, a: Action, st': State) {
    if NoStep(cfg, st) then st' == st else Enabled(cfg, st, a) && st' == Apply(cfg, st, a)
  }

  ghost predicate EnabledFrom(b: nat -> State, i: nat) { exists j: nat :: i <= j && ThreadEnabled(b(j)) }

  ghost predicate RunsFrom(a: nat -> Action, i: nat) { exists j: nat :: i <= j && a(j).ThreadRuns? }

  /** Strong fairness: a send thread that can run again and again does run again and again. */
  ghost predicate FairToThread(b: nat -> State, a: nat -> Action) {
    (forall i: nat :: EnabledFrom(b, i)) ==> forall i: nat :: RunsFrom(a, i)
  }

  /** States from which nothing can get stuck. */
  ghost predicate Sound(cfg: Config, st: State) {
    && Inv(st) && Prompt(cfg, st) && Shutdown(st.m)
    && (cfg.doneFirst || !AtRisk(st))
  }

  lemma StaysInShutdown(cfg: Config, st: State, a: Action)
    requires Flags(st) && Shutdown(st.m) && Enabled(cfg, st, a)
    ensures Shutdown(Apply(cfg, st, a).m)
  {
  }

  lemma StaysSafe(cfg: Config, st: State, a: Action)
    requires !cfg.spurious && !cfg.doneFirst && Enabled(cfg, st, a)
    requires Locks(st) && Flags(st) && Prompt(cfg, st) && Shutdown(st.m) && !AtRisk(st)
    ensures !AtRisk(Apply(cfg, st, a))
  {
    assert cfg == AS_WRITTEN;
    SafeStep(st, a);
  }

  lemma StepKeepsSound(cfg: Config, st: State, a: Action)
    requires !cfg.spurious && Sound(cfg, st) && Enabled(cfg, st, a)
    ensures Sound(cfg, Apply(cfg, st, a))
  {
    StepKeepsInv(cfg, st, a);
    StepKeepsPrompt(cfg, st, a);
    StaysInShutdown(cfg, st, a);
    if !cfg.doneFirst { StaysSafe(cfg, st, a); }
  }

  lemma {:induction false} SoundForever(cfg: Config, b: nat -> State, a: nat -> Action, n: nat)
    requires !cfg.spurious && Behaviour(cfg, b, a) && Sound(cfg, b(0))
    ensures Sound(cfg, b(n))
  {
    if n == 0 {
    } else {
      SoundForever(cfg, b, a, n - 1);
      assert Moves(cfg, b(n - 1), a(n - 1), b(n));
      if !NoStep(cfg, b(n - 1)) { StepKeepsSound(cfg, b(n - 1), a(n - 1)); }
    }
  }

  /** How far main is from the end, while the send thread cannot run. */
  function MainRank(st: State): nat { 20 * |st.q.items| + MainDistance(st.m, st.t) }

  function MainDistance(m: MainPc, t: ThreadPc): nat {
    match m
    case Idle => 0
    case Sending(_) => 0
    case Destroying(pc) =>
      (match pc
       case DestroyLock => 100
       case DestroyTest => 99
       case DestroyUnlock => if t.Ended? then 47 else if t == Popping(Waiting) then 65 else 54
       case DestroyRelock => if t.Ended? then 46 else 64
       case DestroyLoop => if t.Ended? then 45 else 63
       case DestroyJoin => 35)
    case Finishing(site, pc) =>
      (match site case InLoop => 58 case AfterLoop => 36 case InQueueDestroy => 26)
      + (match pc
         case FinishLock => 4
         case FinishSignal => 3
         case UsedLock => 2
         case UsedWoken => 2
         case UsedTest => 1
         case UsedWait => 0)
    case Draining(pc) =>
      (match pc
       case DrainIncLock => 9
       case DrainInc => 8
       case DrainLock => 7
       case DrainTake => 6
       case DrainDecLock(got) => if got.Some? then 13 else 5
       case DrainDec(got) => if got.Some? then 12 else 4
       case DrainFree(got) => if got.Some? then 11 else 3
       case FreeQueue => 2
       case FreeSender => 1)
    case Done => 0
  }

  lemma QuietStep(st: State)
    requires Locks(st) && Flags(st) && Shutdown(st.m) && MainEnabled(st)
    requires !ThreadEnabled(st) && !ThreadEnabled(MainStep(st))
    ensures MainRank(MainStep(st)) < MainRank(st)
  {
  }

  /** Sound, not over: somebody moves, and it is the main thread or the send thread. */
  lemma SoundMoves(cfg: Config, st: State, a: Action, st': State)
    requires !cfg.spurious && Sound(cfg, st) && !st.m.Done? && Moves(cfg, st, a, st')
    ensures a.MainRuns? || a.ThreadRuns?
    ensures Enabled(cfg, st, a) && st' == Apply(cfg, st, a)
    ensures ThreadRank(st') <= ThreadRank(st)
    ensures a.ThreadRuns? ==> ThreadRank(st') < ThreadRank(st)
  {
    StuckOrOver(cfg, st);
    assert !Stuck(st);
    if a.MainRuns? { MainStepKeepsRank(st); }
    if a.ThreadRuns? { ThreadStepLowersRank(cfg, st, a.ok); }
  }

  ghost predicate NeverDone(b: nat -> State) { forall i: nat :: !b(i).m.Done? }

  /** Step `i` of a run that never finishes. */
  lemma StepOf(cfg: Config, b: nat -> State, a: nat -> Action, i: nat)
    requires !cfg.spurious && Behaviour(cfg, b, a) && Sound(cfg, b(0)) && NeverDone(b)
    ensures ThreadRank(b(i + 1)) <= ThreadRank(b(i))
    ensures a(i).ThreadRuns? ==> ThreadRank(b(i + 1)) < ThreadRank(b(i))
    ensures !a(i).ThreadRuns? ==> MainEnabled(b(i)) && b(i + 1) == MainStep(b(i))
    ensures a(i).ThreadRuns? ==> ThreadEnabled(b(i))
    ensures Locks(b(i)) && Flags(b(i)) && Shutdown(b(i).m)
  {
    SoundForever(cfg, b, a, i);
    assert Moves(cfg, b(i), a(i), b(i + 1));
    SoundMoves(cfg, b(i), a(i), b(i + 1));
  }

  lemma {:induction false} RankFalls(cfg: Config, b: nat -> State, a: nat -> Action, n: nat, i: nat)
    requires !cfg.spurious && Behaviour(cfg, b, a) && Sound(cfg, b(0)) && NeverDone(b)
    requires n <= i
    ensures ThreadRank(b(i)) <= ThreadRank(b(n))
    decreases i - n
  {
    if n == i {
    } else {
      RankFalls(cfg, b, a, n, i - 1);
      StepOf(cfg, b, a, i - 1);
    }
  }

  /** A run that never finishes has a last step of the send thread. */
  lemma {:induction false} ThreadRunsOut(cfg: Config, b: nat -> State, a: nat -> Action, n: nat) returns (last: nat)
    requires !cfg.spurious && Behaviour(cfg, b, a) && Sound(cfg, b(0)) && NeverDone(b)
    ensures !RunsFrom(a, last)
    decreases ThreadRank(b(n))
  {
    if RunsFrom(a, n) {
      var i: nat :| n <= i && a(i).ThreadRuns?;
      RankFalls(cfg, b, a, n, i);
      StepOf(cfg, b, a, i);
      last := ThreadRunsOut(cfg, b, a, i + 1);
    } else {
      last := n;
    }
  }

  /** With the send thread disabled for good, main cannot go on for ever either. */
  lemma {:induction false} MainRunsOut(cfg: Config, b: nat -> State, a: nat -> Action, n: nat)
    requires !cfg.spurious && Behaviour(cfg, b, a) && Sound(cfg, b(0)) && NeverDone(b)
    requires !EnabledFrom(b, n)
    ensures false
    decreases MainRank(b(n))
  {
    StepOf(cfg, b, a, n);
    assert !ThreadEnabled(b(n)) && !ThreadEnabled(b(n + 1));
    QuietStep(b(n));
    assert forall j: nat :: n + 1 <= j ==> !ThreadEnabled(b(j));
    MainRunsOut(cfg, b, a, n + 1);
  }

  /**
   `iemnet__sender_destroy` returns, in every run that is fair to the send thread: always if
   `queue_pop_block` is as documented, and from every state that is not `AtRisk` as it is written.
   */
  lemma FairRunsFinish(cfg: Config, b: nat -> State, a: nat -> Action)
    requires !cfg.spurious && Behaviour(cfg, b, a) && FairToThread(b, a)
    requires Reachable(cfg, b(0)) && Shutdown(b(0).m)
    requires cfg.doneFirst || !AtRisk(b(0))
    ensures exists n: nat :: b(n).m.Done?
  {
    ReachablePrompt(cfg, b(0));
    if NeverDone(b) {
      var last := ThreadRunsOut(cfg, b, a, 0);
      var n: nat :| !EnabledFrom(b, n);
      MainRunsOut(cfg, b, a, n);
    }
  }
}
