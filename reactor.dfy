/** The reactor: the operation table, the ring, the submit retry loop,
    completion dispatch, and the future that waits for one operation. */
module IoReactor {
  import opened Ring
  import opened Operation
  import opened Dispatch

  /** The slab of lifecycle records, indexed by operation id. Nothing here
      removes a record, so the slab is a sequence that only grows. */
  class Ops {
    var lifecycle: seq<Lifecycle>
    /** The `wake()` calls made on wakers taken out of the records. */
    var wakes: seq<Waker>

    function State(): Table
      reads this
    {
      Table(lifecycle, wakes)
    }

    /** `Ops::new`: an empty table. */
    constructor ()
      ensures lifecycle == [] && wakes == []
    {
      lifecycle := [];
      wakes := [];
    }

    /** `Ops::complete`: the source indexes the slab (panicking on a vacant
        id) and completes the record (unreachable on a complete one). */
    method Complete(index: nat, cqe: Cqe)
      requires index < |lifecycle| && !lifecycle[index].Complete?
      modifies this
      ensures State() == CompleteSlot(old(State()), index, cqe)
    {
      var next, woken := LifecycleComplete(lifecycle[index], cqe);
      lifecycle := lifecycle[index := next];
      wakes := wakes + woken;
    }

    /** `Ops::poll_op`. */
    method PollOp(index: nat, cx: Waker) returns (p: Poll<Cqe>)
      requires index < |lifecycle|
      modifies this
      ensures p == Outcome(old(lifecycle[index]))
      ensures State() == PollSlot(old(State()), index, cx)
    {
      var next;
      next, p := LifecyclePollOp(lifecycle[index], cx);
      lifecycle := lifecycle[index := next];
    }

    /** `Ops::insert`: the slab's next vacant key, which with no removals is
        its length, receives a `Submitted` record. */
    method Insert() returns (index: nat)
      modifies this
      ensures index == |old(lifecycle)|
      ensures State() == InsertSlot(old(State()))
    {
      index := |lifecycle|;
      lifecycle := lifecycle + [Submitted];
    }
  }

  /** The result of `submit_op`: `io::Result<Op<T>>`, plus `Looping` when
      the kernel steps given ran out while `submit` was still looping. */
  datatype OpResult<T> = OpOk(op: Op<T>) | OpErr(error: IoError) | Looping

  function EnqueueOf<T>(r: OpResult<T>): Enqueue
  {
    match r
    case OpOk(_) => Pushed
    case OpErr(e) => PushErr(e)
    case Looping => PushLooping
  }

  class Reactor {
    const ops: Ops
    const uring: Ring

    function State(): World
      reads this, ops, uring
    {
      World(ops.State(), uring.sq, uring.capacity, uring.cq)
    }

    /** The state `submit_op` starts its enqueue loop from: one more
        `Submitted` record, whose id is the current slab length. */
    function Inserted(): World
      reads this, ops, uring
    {
      World(InsertSlot(ops.State()), uring.sq, uring.capacity, uring.cq)
    }

    /** `Reactor::new`: an empty table over a ring of `entries` slots. */
    constructor (entries: U32)
      ensures fresh(ops) && fresh(uring)
      ensures State() == World(Table([], []), [], entries, [])
    {
      ops := new Ops();
      uring := new Ring(entries);
    }

    /** `Reactor::submit`. The source loops for ever; here the kernel's
        replies are the steps of `script`, and the loop stops with
        `StillLooping` when they run out. */
    method Submit(script: seq<KernelStep>) returns (r: Flush, rest: seq<KernelStep>)
      requires RunSubmit(State(), script).Some?
      modifies ops, uring
      ensures RunSubmit(old(State()), script) == Some(SubmitRun(r, State(), rest))
    {
      var i := 0;
      while i < |script|
        invariant 0 <= i <= |script|
        invariant RunSubmit(State(), script[i..]) == RunSubmit(old(State()), script)
        decreases |script| - i
      {
        assert script[i..][0] == script[i] && script[i..][1..] == script[i + 1..];
        var res := uring.Enter(script[i]);
        match res {
          case EnterOk =>
            // `submission().sync()` only refreshes a view of the queue.
          case EnterErr(code) =>
            if code == EBUSY {
              DispatchCompletions();
            } else if code != EINTR {
              r, rest := FlushErr(OsError(code)), script[i + 1..];
              return;
            }
        }
        i := i + 1;
      }
      r, rest := StillLooping, [];
    }

    /** `Reactor::dispatch_completions`: drains the completion queue and
        routes every completion not tagged with the sentinel to the record
        its tag names. */
    method DispatchCompletions()
      requires Deliver(ops.State(), uring.cq).Some?
      modifies ops, uring
      ensures Deliver(old(ops.State()), old(uring.cq)) == Some(ops.State())
      ensures |ops.lifecycle| == old(|ops.lifecycle|)
      ensures uring.cq == [] && uring.sq == old(uring.sq)
    {
      var cq := uring.Reap();
      var i := 0;
      while i < |cq|
        invariant 0 <= i <= |cq|
        invariant Deliver(ops.State(), cq[i..]) == Deliver(old(ops.State()), cq)
        invariant uring.cq == [] && uring.sq == old(uring.sq)
      {
        assert cq[i..][0] == cq[i] && cq[i..][1..] == cq[i + 1..];
        var cqe := cq[i];
        if cqe.userData != SENTINEL {
          ops.Complete(cqe.userData, cqe);
        }
        i := i + 1;
      }
      assert cq[i..] == [];
    }

    /** `Reactor::submit_op`: takes a new id, tags the operation's entry with
        it, and pushes the entry, calling `submit` while the ring is full.
        `opcode` is the operation kind's `Opable::opcode`. The id must fit
        in a `u64` tag other than the sentinel. */
    method SubmitOp<T>(data: T, opcode: T -> Sqe, script: seq<KernelStep>) returns (r: OpResult<T>)
      requires |ops.lifecycle| < SENTINEL
      requires RunSubmitOp(Inserted(), WithUserData(opcode(data), |ops.lifecycle|), script).Some?
      modifies ops, uring
      ensures RunSubmitOp(old(Inserted()), WithUserData(opcode(data), old(|ops.lifecycle|)), script)
              == Some(SubmitOpRun(EnqueueOf(r), State()))
      ensures |ops.lifecycle| == old(|ops.lifecycle|) + 1
      ensures r.OpOk? ==> fresh(r.op) && r.op.index == old(|ops.lifecycle|) && r.op.data == Some(data)
    {
      var index := ops.Insert();
      var sqe := WithUserData(opcode(data), index);
      var op := new Op(data, index);
      ghost var goal := RunSubmitOp(State(), sqe, script);
      var pushed := uring.Push(sqe);
      var left := script;
      while !pushed
        invariant !pushed ==> |uring.sq| >= uring.capacity && RunSubmitOp(State(), sqe, left) == goal
        invariant pushed ==> goal == Some(SubmitOpRun(Pushed, State()))
        invariant op.data == Some(data)
        decreases |left|
      {
        var flushed, unused := Submit(left);
        if flushed.FlushErr? {
          return OpErr(flushed.error);
        }
        if flushed.StillLooping? {
          return Looping;
        }
        left := unused;
        pushed := uring.Push(sqe);
      }
      r := OpOk(op);
    }

    /** `Reactor::poll_op`: polls record `index` and nothing else. */
    method PollOp(index: nat, cx: Waker) returns (p: Poll<Cqe>)
      requires index < |ops.lifecycle|
      modifies ops
      ensures p == Outcome(old(ops.lifecycle[index]))
      ensures ops.State() == PollSlot(old(ops.State()), index, cx)
    {
      p := ops.PollOp(index, cx);
    }
  }

  /** The future of one submitted operation: the operation's descriptor,
      held until it is taken exactly once, and its id. */
  class Op<T> {
    var data: Option<T>
    const index: nat

    /** `Op::new`. */
    constructor (data: T, index: nat)
      ensures this.data == Some(data) && this.index == index
    {
      this.data := Some(data);
      this.index := index;
    }

    /** `Future::poll`: pending while the record is; once ready, takes the
        descriptor and hands it, with the decoded completion, to `complete`
        (the operation kind's `Completable::complete`). The descriptor must
        still be there when the record is complete. */
    method Poll<Out>(reactor: Reactor, cx: Waker, complete: (T, CqeResult) -> Out) returns (p: Poll<Out>)
      requires index < |reactor.ops.lifecycle|
      requires reactor.ops.lifecycle[index].Complete? ==> data.Some?
      modifies this, reactor.ops
      ensures reactor.ops.State() == PollSlot(old(reactor.ops.State()), index, cx)
      ensures old(reactor.ops.lifecycle[index]).Complete? ==>
        data == None &&
        p == Ready(complete(old(data).value, FromCqe(old(reactor.ops.lifecycle[index]).cqe)))
      ensures !old(reactor.ops.lifecycle[index]).Complete? ==> p == Pending && data == old(data)
    {
      var polled := reactor.PollOp(index, cx);
      match polled
      case Pending =>
        p := Pending;
      case Ready(cqe) =>
        var taken := data.value;
        data := None;
        p := Ready(complete(taken, FromCqe(cqe)));
    }
  }
}
