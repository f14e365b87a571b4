/** The queue inside the send pipeline is the queue of ChunkQueue, used by two threads. */
module SenderRefinement {
  import opened Common
  import opened SenderProtocol
  import opened SenderSafety
  import C = ChunkQueue

  /** The queue operation a step performs, if any. */
  function OpOf(cfg: Config, st: State, a: Action): Option<C.Op<Copy>> {
    if a.MainRuns? && st.m.Sending? && st.m.send.PushAppend? then Some(C.PushOp(st.m.send.c))
    else if a.MainRuns? && st.m == Draining(DrainTake) then Some(C.PopOp)
    else if a.ThreadRuns? && st.t == Popping(PopTest) && !(cfg.doneFirst && st.q.done) then Some(C.PopOp)
    else None
  }

  /** The queue operations of a run, in order. */
  ghost function OpsOf(cfg: Config, st: State, acts: seq<Action>, st': State): seq<C.Op<Copy>>
    requires Steps(cfg, st, acts, st')
    decreases |acts|
  {
    if acts == [] then []
    else List(OpOf(cfg, st, acts[0])) + OpsOf(cfg, Apply(cfg, st, acts[0]), acts[1..], st')
  }

  lemma StepIsOp(cfg: Config, st: State, a: Action)
    requires Enabled(cfg, st, a)
    ensures var st', op := Apply(cfg, st, a), OpOf(cfg, st, a);
            && st'.q.items == (match op
                               case None => st.q.items
                               case Some(PushOp(c)) => st.q.items + [c]
                               case Some(PopOp) => if st.q.items == [] then [] else st.q.items[1..])
            && st'.log.accepted == st.log.accepted + if op.Some? && op.value.PushOp? then [op.value.item] else []
  {
  }

  /** A run does to the queue what its operations do to a sequence, and accepts what they push. */
  lemma {:induction false} RunIsOps(cfg: Config, st: State, acts: seq<Action>, st': State)
    requires Steps(cfg, st, acts, st')
    ensures var ops := OpsOf(cfg, st, acts, st');
            st'.q.items == C.RunOps(st.q.items, ops).0 && st'.log.accepted == st.log.accepted + C.PushedBy(ops)
    decreases |acts|
  {
    if acts != [] {
      var next, op := Apply(cfg, st, acts[0]), OpOf(cfg, st, acts[0]);
      var rest := OpsOf(cfg, next, acts[1..], st');
      StepIsOp(cfg, st, acts[0]);
      RunIsOps(cfg, next, acts[1..], st');
      PrependOp(st.q.items, op, rest);
      Regroup(st.log.accepted, if op.Some? && op.value.PushOp? then [op.value.item] else [], C.PushedBy(rest));
    }
  }

  lemma PrependOp(q: seq<Copy>, op: Option<C.Op<Copy>>, rest: seq<C.Op<Copy>>)
    ensures C.RunOps(q, List(op) + rest).0
         == C.RunOps(match op
                     case None => q
                     case Some(PushOp(c)) => q + [c]
                     case Some(PopOp) => if q == [] then [] else q[1..], rest).0
    ensures C.PushedBy(List(op) + rest)
         == (if op.Some? && op.value.PushOp? then [op.value.item] else []) + C.PushedBy(rest)
  {
    if op.None? {
      assert List(op) + rest == rest;
    } else {
      assert (List(op) + rest)[1..] == rest;
    }
  }

  lemma SameFront<T>(a: seq<T>, b: seq<T>, c: seq<T>)
    requires a + c == b + c
    ensures a == b
  {
    assert |a| == |b|;
    assert (a + c)[..|a|] == a && (b + c)[..|b|] == b;
  }

  /**
   Over every interleaving the queue holds what its pushes and pops leave in a sequence, and what the pops gave is, in
   order, what was handed over, what the thread holds, and what the drain loop took.
   */
  lemma PipelineIsQueue(cfg: Config, acts: seq<Action>, st: State)
    requires Steps(cfg, Init(), acts, st)
    ensures var r := C.RunOps([], OpsOf(cfg, Init(), acts, st));
            && st.q.items == r.0
            && st.log.handed + NotYetHanded(st.t) + (st.log.freedByMain + MainHand(st.m)) == r.1
  {
    var ops := OpsOf(cfg, Init(), acts, st);
    RunIsOps(cfg, Init(), acts, st);
    C.FirstInFirstOut([], ops);
    OrderAndConservation(cfg, st);
    var given := st.log.handed + NotYetHanded(st.t) + (st.log.freedByMain + MainHand(st.m));
    SameFront(C.RunOps([], ops).1, given, st.q.items);
  }
}
