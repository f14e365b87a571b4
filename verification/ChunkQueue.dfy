/** The linked list behind the send queue (iemnet_data.c) and the sequence it stands for. */
module ChunkQueue {
  import opened Common
  import opened Chunks

  class Node {
    var next: Node?
    const data: Chunk

    constructor (data: Chunk)
      ensures this.data == data && next == null
    {
      this.data := data;
      next := null;
    }
  }

  /** The sum of the sizes of the chunks. */
  function Fill(cs: seq<Chunk>): nat {
    if cs == [] then 0 else |cs[0].data| + Fill(cs[1..])
  }

  class Queue {
    var head: Node?
    var tail: Node?
    var size: int
    var done: bool
    var used: int

    /** The chunks in the queue, and the nodes that hold them, head first. */
    ghost var contents: seq<Chunk>
    ghost var spine: seq<Node>

    ghost predicate Linked()
      reads this`head, this`tail, this`size, this`contents, this`spine, spine
    {
      && |spine| == |contents|
      && (forall i :: 0 <= i < |spine| ==> spine[i].data == contents[i])
      && (forall i {:trigger spine[i].next} :: 0 <= i < |spine| - 1 ==> spine[i].next == spine[i + 1])
      && (spine == [] ==> head == null && tail == null)
      && (spine != [] ==> head == spine[0] && tail == spine[|spine| - 1] && tail.next == null)
    }

    ghost predicate Valid()
      reads this`head, this`tail, this`size, this`contents, this`spine, spine
    {
      Linked() && size == Fill(contents)
    }

    /** queue_create */
    constructor ()
      ensures Valid() && contents == [] && !done && used == 0
    {
      head, tail, size, done, used := null, null, 0, false, 0;
      contents, spine := [], [];
    }

    /** queue_push */
    method Push(data: Option<Chunk>) returns (fill: int)
      requires Valid()
      modifies this`head, this`tail, this`size, this`spine, this`contents, tail
      ensures Valid() && fill == size
      ensures contents == old(contents) + List(data)
      ensures data.None? ==> spine == old(spine)
      ensures data.Some? ==> |spine| == |old(spine)| + 1 && spine[..|old(spine)|] == old(spine)
      ensures data.Some? ==> fresh(spine[|old(spine)|])
    {
      fill := size;
      if data.None? {
        return;
      }
      var n := new Node(data.value);
      if tail == null {
        head := n;
      } else {
        tail.next := n;
      }
      tail := n;
      FillAppend(contents, data.value);
      contents, spine := contents + [data.value], spine + [n];
      size := size + |data.value.data|;
      fill := size;
    }

    /** The part of both pops that takes the head out, under the queue's mutex. */
    method TakeHead() returns (data: Chunk)
      requires Valid() && head != null
      modifies this`head, this`tail, this`size, this`spine, this`contents
      ensures Valid()
      ensures old(contents) == [data] + contents && spine == old(spine)[1..]
    {
      var first := head;
      head := first.next;
      if head == null {
        tail := null;
      }
      size := size - |first.data.data|;
      data := first.data;
      contents, spine := contents[1..], spine[1..];
    }

    /** queue_pop_noblock */
    method PopNoblock() returns (r: Option<Chunk>)
      requires Valid()
      modifies this`head, this`tail, this`size, this`spine, this`contents, this`used
      ensures Valid() && used == old(used)
      ensures r.None? <==> old(contents) == []
      ensures old(contents) == List(r) + contents
      ensures spine == if r.Some? then old(spine)[1..] else []
    {
      used := used + 1;
      if head == null {
        used := used - 1;
        return None;
      }
      var data := TakeHead();
      used := used - 1;
      r := Some(data);
    }

    /** queue_pop_block where it tests for an empty queue: nothing means it goes to wait. */
    method PopOrWait() returns (r: Option<Chunk>)
      requires Valid()
      modifies this`head, this`tail, this`size, this`spine, this`contents, this`used
      ensures Valid()
      ensures r.None? <==> old(contents) == []
      ensures old(contents) == List(r) + contents
      ensures used == if r.Some? then old(used) - 1 else old(used)
    {
      if head == null {
        return None;
      }
      var data := TakeHead();
      used := used - 1;
      r := Some(data);
    }

    /** queue_pop_block from its beginning to its first wait or its end. */
    method PopEnter() returns (r: Option<Chunk>)
      requires Valid()
      modifies this`head, this`tail, this`size, this`spine, this`contents, this`used
      ensures Valid()
      ensures r.None? <==> old(contents) == []
      ensures old(contents) == List(r) + contents
      ensures used == if r.Some? then old(used) else old(used) + 1
    {
      used := used + 1;
      r := PopOrWait();
    }

    /**
     queue_pop_block from the return of a wait to its next wait or its end; a finished queue gives
     nothing, full or not.
     */
    method PopWoken() returns (finished: bool, r: Option<Chunk>)
      requires Valid()
      modifies this`head, this`tail, this`size, this`spine, this`contents, this`used
      ensures Valid() && finished == done
      ensures done ==> r.None? && contents == old(contents) && used == old(used) - 1
      ensures !done ==> (r.None? <==> old(contents) == [])
      ensures old(contents) == List(r) + contents
      ensures !done ==> used == if r.Some? then old(used) - 1 else old(used)
    {
      finished, r := done, None;
      if done {
        used := used - 1;
      } else {
        r := PopOrWait();
      }
    }

    method GetSize() returns (fill: int)
      requires Valid()
      ensures fill == |AllBytes(contents)| && (fill == 0 <==> contents == [])
    {
      fill := size;
      FillIsBytes(contents);
      EmptyExactlyAtZero(contents);
    }

    /** The loop of queue_destroy: frees every chunk still queued, in order. */
    method Drain() returns (freed: seq<Chunk>)
      requires Valid()
      modifies this`head, this`tail, this`size, this`spine, this`contents, this`used
      ensures Valid() && contents == [] && size == 0 && used == old(used)
      ensures freed == old(contents)
    {
      freed := [];
      var c := PopNoblock();
      while c.Some?
        invariant Valid() && used == old(used)
        invariant freed + (List(c) + contents) == old(contents)
        invariant c.None? ==> contents == []
        decreases |contents|, c.Some?
      {
        Regroup(freed, [c.value], contents);
        freed := freed + [c.value];
        c := PopNoblock();
      }
    }

    /** Any series of calls of queue_push and queue_pop_noblock. */
    method Perform(ops: seq<Op<Chunk>>) returns (popped: seq<Chunk>)
      requires Valid()
      modifies this`head, this`tail, this`size, this`spine, this`contents, this`used, spine
      ensures Valid() && used == old(used)
      ensures (contents, popped) == RunOps(old(contents), ops)
    {
      popped := [];
      var i := 0;
      while i < |ops|
        invariant 0 <= i <= |ops| && Valid() && used == old(used)
        invariant (contents, popped) == RunOps(old(contents), ops[..i])
        invariant forall n :: n in spine ==> n in old(spine) || fresh(n)
      {
        RunOpsAppend(old(contents), ops[..i], ops[i]);
        assert ops[..i + 1] == ops[..i] + [ops[i]];
        match ops[i] {
          case PushOp(c) =>
            assert tail != null ==> tail == spine[|spine| - 1] && tail in spine;
            var _ := Push(Some(c));
          case PopOp =>
            ghost var before := contents;
            var r := PopNoblock();
            assert r.Some? ==> before[0] == r.value && before[1..] == contents;
            if r.Some? {
              popped := popped + [r.value];
            }
        }
        i := i + 1;
      }
      assert ops[..i] == ops;
    }
  }

  lemma {:induction false} FillAppend(cs: seq<Chunk>, c: Chunk)
    ensures Fill(cs + [c]) == Fill(cs) + |c.data|
  {
    if cs == [] {
    } else {
      assert (cs + [c])[1..] == cs[1..] + [c];
      FillAppend(cs[1..], c);
    }
  }

  /** The byte count counts bytes. */
  lemma {:induction false} FillIsBytes(cs: seq<Chunk>)
    ensures Fill(cs) == |AllBytes(cs)|
  {
    if cs != [] {
      FillIsBytes(cs[1..]);
    }
  }

  /** No chunk is smaller than 1, so the byte count tells emptiness, and never less than the number of chunks. */
  lemma {:induction false} EmptyExactlyAtZero(cs: seq<Chunk>)
    ensures Fill(cs) == 0 <==> cs == []
    ensures Fill(cs) >= |cs|
  {
    if cs == [] {
    } else {
      EmptyExactlyAtZero(cs[1..]);
    }
  }

  // ---------- any mix of pushes and pops ----------

  datatype Op<T> = PushOp(item: T) | PopOp

  /** The queue and what was popped after `ops`; a pop from the empty queue gives nothing. */
  function RunOps<T>(q: seq<T>, ops: seq<Op<T>>): (seq<T>, seq<T>)
    decreases |ops|
  {
    if ops == [] then (q, [])
    else match ops[0]
      case PushOp(c) => RunOps(q + [c], ops[1..])
      case PopOp =>
        if q == [] then RunOps(q, ops[1..])
        else var r := RunOps(q[1..], ops[1..]); (r.0, [q[0]] + r.1)
  }

  function PushedBy<T>(ops: seq<Op<T>>): seq<T> {
    if ops == [] then []
    else (if ops[0].PushOp? then [ops[0].item] else []) + PushedBy(ops[1..])
  }

  /** What came out, then what is still inside, is what was inside, then what went in. */
  lemma {:induction false} FirstInFirstOut<T>(q: seq<T>, ops: seq<Op<T>>)
    ensures RunOps(q, ops).1 + RunOps(q, ops).0 == q + PushedBy(ops)
    decreases |ops|
  {
    if ops == [] {
    } else {
      var rest := PushedBy(ops[1..]);
      if ops[0].PushOp? {
        var c := ops[0].item;
        FirstInFirstOut(q + [c], ops[1..]);
        Regroup(q, [c], rest);
      } else if q == [] {
        FirstInFirstOut(q, ops[1..]);
        assert [] + rest == rest;
      } else {
        FirstInFirstOut(q[1..], ops[1..]);
        var r := RunOps(q[1..], ops[1..]);
        Regroup([q[0]], r.1, r.0);
        Regroup([q[0]], q[1..], rest);
        assert [q[0]] + q[1..] == q && [] + rest == rest;
      }
    }
  }

  /** One more operation at the end. */
  function RunOp<T>(r: (seq<T>, seq<T>), op: Op<T>): (seq<T>, seq<T>) {
    match op
    case PushOp(c) => (r.0 + [c], r.1)
    case PopOp => if r.0 == [] then r else (r.0[1..], r.1 + [r.0[0]])
  }

  lemma {:induction false} RunOpsAppend<T>(q: seq<T>, ops: seq<Op<T>>, op: Op<T>)
    ensures RunOps(q, ops + [op]) == RunOp(RunOps(q, ops), op)
    decreases |ops|
  {
    if ops == [] {
      var one := ops + [op];
      assert one[0] == op && one[1..] == [];
      if op.PopOp? && q != [] {
        assert [q[0]] + RunOps(q[1..], one[1..]).1 == [] + [q[0]];
      }
    } else {
      assert (ops + [op])[1..] == ops[1..] + [op];
      match ops[0]
      case PushOp(c) => RunOpsAppend(q + [c], ops[1..], op);
      case PopOp =>
        if q == [] {
          RunOpsAppend(q, ops[1..], op);
        } else {
          RunOpsAppend(q[1..], ops[1..], op);
          var r := RunOps(q[1..], ops[1..]);
          if op.PopOp? && r.0 != [] {
            Regroup([q[0]], r.1, [r.0[0]]);
          }
        }
    }
  }
}
