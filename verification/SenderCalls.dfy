/** What becomes of the chunks given to `iemnet__sender_send`, and of a send that fails. */
module SenderCalls {
  import opened Common
  import opened SenderProtocol
  import opened SenderSafety

  // ---------- every call is answered for its own chunk ----------

  /** There is something to send. */
  predicate Full(arg: Option<seq<byte>>) { arg.Some? && |arg.value| >= 1 }

  /** `r` is an answer a call with `arg` may get. */
  predicate Fits(arg: Option<seq<byte>>, r: Reply) {
    match r
    case Refused => true
    case Fill(_) => !Full(arg)
    case Queued(copy, value) => Full(arg) && copy.data == arg.value && value >= |arg.value|
  }

  predicate CopyOf(copy: Option<Copy>, arg: Option<seq<byte>>) {
    if Full(arg) then copy.Some? && copy.value.data == arg.value else copy.None?
  }

  /** The call in progress is about `arg`. */
  predicate About(pc: SendPc, arg: Option<seq<byte>>) {
    match pc
    case SendLock(a) => a == arg
    case SendTest(a) => a == arg
    case SendCopy(a) => a == arg
    case PushLock1(copy) => CopyOf(copy, arg)
    case PushRead(copy) => CopyOf(copy, arg)
    case PushLock2(c) => CopyOf(Some(c), arg)
    case PushAppend(c) => CopyOf(Some(c), arg)
  }

  predicate Calls(st: State) {
    && |st.log.calls| == |st.log.replies| + (if st.m.Sending? then 1 else 0)
    && (forall k :: 0 <= k < |st.log.replies| ==> Fits(st.log.calls[k], st.log.replies[k]))
    && (st.m.Sending? ==> About(st.m.send, st.log.calls[|st.log.replies|]))
  }

  lemma SendKeepsCalls(st: State)
    requires MainEnabled(st) && st.m.Sending? && Sizes(st) && Calls(st)
    ensures Calls(SendStep(st))
  {
  }

  lemma OthersKeepCalls(cfg: Config, st: State, a: Action)
    requires Enabled(cfg, st, a) && !(a.MainRuns? && st.m.Sending?) && Calls(st)
    ensures Calls(Apply(cfg, st, a))
  {
    OtherStepsOnlyTake(cfg, st, a);
    OthersLeaveCalls(cfg, st, a);
  }

  lemma OthersLeaveCalls(cfg: Config, st: State, a: Action)
    requires Enabled(cfg, st, a) && !(a.MainRuns? && st.m.Sending?)
    ensures var st' := Apply(cfg, st, a);
            if a.CallSend? then
              st.m.Idle? && st'.m == Sending(SendLock(a.arg)) && st'.log.calls == st.log.calls + [a.arg]
            else
              st'.log.calls == st.log.calls && if st.m.Sending? then st'.m == st.m else !st'.m.Sending?
  {
  }

  lemma {:induction false} RunKeepsCalls(cfg: Config, st: State, acts: seq<Action>, st': State)
    requires Inv(st) && Calls(st) && Steps(cfg, st, acts, st')
    ensures Calls(st')
    decreases |acts|
  {
    if acts != [] {
      if acts[0].MainRuns? && st.m.Sending? {
        SendKeepsCalls(st);
      } else {
        OthersKeepCalls(cfg, st, acts[0]);
      }
      StepKeepsInv(cfg, st, acts[0]);
      RunKeepsCalls(cfg, Apply(cfg, st, acts[0]), acts[1..], st');
    }
  }

  /** The history of calls holds what was passed, and the history of results what the send function answered. */
  lemma HistoriesAreTrue(cfg: Config, st: State, arg: Option<seq<byte>>, ok: bool)
    ensures st.m.Idle? ==> Apply(cfg, st, CallSend(arg)).log.calls == st.log.calls + [arg]
    ensures st.t.Looping? && st.t.loop.InSend? ==>
              Apply(cfg, st, ThreadRuns(ok)).log.results == st.log.results + [ok]
  {
  }

  /**
   In every reachable state the k-th answer is for the k-th call: a chunk is queued as it is, all its bytes counted,
   and only a call without bytes is answered with nothing queued.
   */
  lemma EveryCallIsAnswered(cfg: Config, st: State)
    requires Reachable(cfg, st)
    ensures |st.log.calls| == |st.log.replies| + (if st.m.Sending? then 1 else 0)
    ensures forall k :: 0 <= k < |st.log.replies| ==>
              var arg, r := st.log.calls[k], st.log.replies[k];
              && (r.Queued? ==> arg.Some? && r.copy.data == arg.value && r.value >= |arg.value| >= 1)
              && (r.Fill? ==> arg.None? || arg.value == [])
  {
    var acts :| Steps(cfg, Init(), acts, st);
    RunKeepsCalls(cfg, Init(), acts, st);
    forall k | 0 <= k < |st.log.replies| ensures Fits(st.log.calls[k], st.log.replies[k]) {
    }
  }

  /** The bytes of the calls that were not refused, call by call, leaving out those without bytes. */
  function Given(calls: seq<Option<seq<byte>>>, replies: seq<Reply>): seq<seq<byte>>
    requires |calls| == |replies|
  {
    if calls == [] then []
    else
      var m := |calls| - 1;
      Given(calls[..m], replies[..m])
      + if !replies[m].Refused? && calls[m].Some? && calls[m].value != [] then [calls[m].value] else []
  }

  function Data(copies: seq<Copy>): seq<seq<byte>> {
    seq(|copies|, i requires 0 <= i < |copies| => copies[i].data)
  }

  lemma {:induction false} PushedIsGiven(calls: seq<Option<seq<byte>>>, replies: seq<Reply>)
    requires |calls| == |replies| && forall k :: 0 <= k < |replies| ==> Fits(calls[k], replies[k])
    ensures Data(Pushed(replies)) == Given(calls, replies)
  {
    if calls != [] {
      var m := |calls| - 1;
      PushedIsGiven(calls[..m], replies[..m]);
      assert Fits(calls[m], replies[m]);
    }
  }

  /** What is handed to the send function is, chunk by chunk and byte by byte, a prefix of what was given to send. */
  lemma HandedIsGiven(cfg: Config, st: State)
    requires Reachable(cfg, st)
    ensures |st.log.replies| <= |st.log.calls|
    ensures Data(st.log.accepted) == Given(st.log.calls[..|st.log.replies|], st.log.replies)
    ensures Data(st.log.handed) <= Given(st.log.calls[..|st.log.replies|], st.log.replies)
  {
    var acts :| Steps(cfg, Init(), acts, st);
    RunKeepsCalls(cfg, Init(), acts, st);
    OrderAndConservation(cfg, st);
    PushedIsGiven(st.log.calls[..|st.log.replies|], st.log.replies);
    DataPrefix(st.log.handed, st.log.accepted);
  }

  lemma DataPrefix(a: seq<Copy>, b: seq<Copy>)
    requires a <= b
    ensures Data(a) <= Data(b)
  {
    assert Data(b)[..|a|] == Data(a);
  }

  // ---------- a send that fails is the last one ----------

  predicate Failed(results: seq<bool>) { results != [] && !results[|results| - 1] }

  predicate Results(st: State) {
    && |st.log.results| + (if st.t.Looping? && st.t.loop.InSend? then 1 else 0) == |st.log.handed|
    && (forall k :: 0 <= k < |st.log.results| - 1 ==> st.log.results[k])
    && Outcome(st.t, Failed(st.log.results), st.s.keepsending)
  }

  /** Where the thread can be after a failure, and where it can be without one. */
  predicate Outcome(t: ThreadPc, failed: bool, keepsending: bool) {
    match t
    case Popping(_) => !failed
    case Looping(Sent(_, ok)) => failed == !ok
    case Looping(FailLock) => failed
    case Looping(Exit) => failed || !keepsending
    case Looping(_) => !failed
    case Ended => failed || !keepsending
  }

  lemma ThreadKeepsResults(cfg: Config, st: State, ok: bool)
    requires ThreadEnabled(st) && Results(st)
    ensures Results(ThreadStep(cfg, st, ok))
  {
  }

  lemma OthersKeepResults(cfg: Config, st: State, a: Action)
    requires Enabled(cfg, st, a) && !a.ThreadRuns? && Results(st)
    ensures Results(Apply(cfg, st, a))
  {
    OthersLeaveResults(cfg, st, a);
  }

  /** The other thread may wake this one, and lower `keepsending`. */
  lemma OthersLeaveResults(cfg: Config, st: State, a: Action)
    requires Enabled(cfg, st, a) && !a.ThreadRuns?
    ensures var st' := Apply(cfg, st, a);
            && st'.log.results == st.log.results && st'.log.handed == st.log.handed
            && (st'.t == st.t || (st.t == Popping(Waiting) && st'.t == Popping(Woken)))
            && (st'.s.keepsending ==> st.s.keepsending)
  {
  }

  lemma {:induction false} RunKeepsResults(cfg: Config, st: State, acts: seq<Action>, st': State)
    requires Results(st) && Steps(cfg, st, acts, st')
    ensures Results(st') && st.log.results <= st'.log.results
    decreases |acts|
  {
    if acts != [] {
      if acts[0].ThreadRuns? {
        ThreadKeepsResults(cfg, st, acts[0].ok);
      } else {
        OthersKeepResults(cfg, st, acts[0]);
        OthersLeaveResults(cfg, st, acts[0]);
      }
      RunKeepsResults(cfg, Apply(cfg, st, acts[0]), acts[1..], st');
    }
  }

  /**
   The send function is called again only after it has answered that all is well; and the thread ends only after a
   failure, or because `keepsending` has been lowered.
   */
  lemma FailureIsFinal(cfg: Config, st: State, acts: seq<Action>, st': State)
    requires Reachable(cfg, st) && Steps(cfg, st, acts, st')
    ensures forall k :: 0 <= k < |st.log.results| - 1 ==> st.log.results[k]
    ensures Failed(st.log.results) ==> st'.log.handed == st.log.handed && st'.log.results == st.log.results
    ensures !st.s.isrunning ==> Failed(st.log.results) || !st.s.keepsending
  {
    var first :| Steps(cfg, Init(), first, st);
    RunKeepsResults(cfg, Init(), first, st);
    RunKeepsResults(cfg, st, acts, st');
    ReachableInv(cfg, st);
    FlagsOnlyFall(cfg, st, acts, st');
    if Failed(st.log.results) {
      assert |st.log.results| - 1 < |st'.log.results| && !st'.log.results[|st.log.results| - 1];
    }
  }

  // ---------- the queue is finished before the thread is joined ----------

  /** `iemnet__sender_destroy` has come back from a call of `queue_finish`. */
  predicate AfterFinishing(m: MainPc) {
    match m
    case Destroying(pc) => pc.DestroyUnlock? || pc.DestroyRelock? || pc.DestroyJoin?
    case Finishing(site, _) => site.InQueueDestroy?
    case Draining(_) => true
    case Done => true
    case _ => false
  }

  lemma StepKeepsDone(cfg: Config, st: State, a: Action)
    requires Enabled(cfg, st, a) && Flags(st) && (AfterFinishing(st.m) ==> st.q.done)
    ensures AfterFinishing(Apply(cfg, st, a).m) ==> Apply(cfg, st, a).q.done
  {
  }

  lemma {:induction false} RunKeepsDone(cfg: Config, st: State, acts: seq<Action>, st': State)
    requires Inv(st) && (AfterFinishing(st.m) ==> st.q.done) && Steps(cfg, st, acts, st')
    ensures AfterFinishing(st'.m) ==> st'.q.done
    decreases |acts|
  {
    if acts != [] {
      StepKeepsDone(cfg, st, acts[0]);
      StepKeepsInv(cfg, st, acts[0]);
      RunKeepsDone(cfg, Apply(cfg, st, acts[0]), acts[1..], st');
    }
  }

  /** Whenever the thread is joined, the queue has been finished and nobody is inside a pop. */
  lemma FinishedBeforeJoin(cfg: Config, st: State)
    requires Reachable(cfg, st) && st.m == Destroying(DestroyJoin)
    ensures st.q.done && st.q.used == 0 && st.t.Ended?
  {
    var acts :| Steps(cfg, Init(), acts, st);
    RunKeepsDone(cfg, Init(), acts, st);
    ReachableInv(cfg, st);
  }
}
