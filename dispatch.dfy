/** The specification of the reactor's state changes, as functions of the
    state before: the operation table, the routing of drained completions
    into it, the submit retry loop and the enqueue loop of `submit_op`.
    The classes in module IoReactor are proved against these functions;
    the lemmas here state what the functions guarantee. */
module Dispatch {
  import opened Ring
  import opened Operation

  /** The operation table: the slab's records, indexed by operation id (the
      slab never removes an entry, so the ids in use are 0 .. |slots|-1),
      and the log of `wake()` calls made on the table's wakers. */
  datatype Table = Table(slots: seq<Lifecycle>, wakes: seq<Waker>)

  /** `Ops::insert`: one new `Submitted` record after the existing ones. */
  function InsertSlot(t: Table): (r: Table)
    ensures |r.slots| == |t.slots| + 1 && r.slots[|t.slots|] == Submitted
    ensures r.slots[..|t.slots|] == t.slots && r.wakes == t.wakes
  {
    Table(t.slots + [Submitted], t.wakes)
  }

  /** `Ops::complete`: record `i` takes the completion and its waker, if
      any, is woken; every other record is unchanged. */
  function CompleteSlot(t: Table, i: nat, cqe: Cqe): (r: Table)
    requires i < |t.slots| && !t.slots[i].Complete?
    ensures |r.slots| == |t.slots| && r.slots[i] == Complete(cqe)
    ensures forall j :: 0 <= j < |t.slots| && j != i ==> r.slots[j] == t.slots[j]
    ensures r.wakes == t.wakes + Woken(t.slots[i])
  {
    Table(t.slots[i := Complete(cqe)], t.wakes + Woken(t.slots[i]))
  }

  /** `Ops::poll_op`: record `i` is polled; every other record is unchanged. */
  function PollSlot(t: Table, i: nat, cx: Waker): (r: Table)
    requires i < |t.slots|
    ensures |r.slots| == |t.slots| && r.slots[i] == Polled(t.slots[i], cx)
    ensures forall j :: 0 <= j < |t.slots| && j != i ==> r.slots[j] == t.slots[j]
    ensures r.wakes == t.wakes
  {
    Table(t.slots[i := Polled(t.slots[i], cx)], t.wakes)
  }

  /** `dispatch_completions` on the drained batch `cq`, in queue order:
      sentinel-tagged completions are skipped, every other one completes
      the record its tag names. `None` when a tag names no record or a
      record that is already complete: the source panics there. */
  function Deliver(t: Table, cq: seq<Cqe>): (r: Option<Table>)
    ensures r.Some? ==> |r.value.slots| == |t.slots|
    decreases |cq|
  {
    if cq == [] then Some(t)
    else if cq[0].userData == SENTINEL then Deliver(t, cq[1..])
    else if cq[0].userData < |t.slots| && !t.slots[cq[0].userData].Complete? then
      Deliver(CompleteSlot(t, cq[0].userData, cq[0]), cq[1..])
    else None
  }

  /** The kernel's side of the contract: every non-sentinel tag names a
      record that is not complete yet, and no two completions share one. */
  predicate TagsValid(slots: seq<Lifecycle>, cq: seq<Cqe>)
  {
    (forall k :: 0 <= k < |cq| && cq[k].userData != SENTINEL ==>
       cq[k].userData < |slots| && !slots[cq[k].userData].Complete?)
    && (forall j, k :: 0 <= j < k < |cq| && cq[j].userData != SENTINEL ==>
          cq[j].userData != cq[k].userData)
  }

  lemma TagsValidCons(slots: seq<Lifecycle>, cq: seq<Cqe>)
    requires cq != [] && cq[0].userData != SENTINEL
    requires cq[0].userData < |slots| && !slots[cq[0].userData].Complete?
    ensures TagsValid(slots, cq) <==>
      TagsValid(slots[cq[0].userData := Complete(cq[0])], cq[1..])
  {
    var i := cq[0].userData;
    var s' := slots[i := Complete(cq[0])];
    var rest := cq[1..];
    assert forall k :: 0 < k < |cq| ==> cq[k] == rest[k - 1];
    if TagsValid(slots, cq) {
      forall k | 0 <= k < |rest| && rest[k].userData != SENTINEL
        ensures rest[k].userData < |s'| && !s'[rest[k].userData].Complete?
      {
        assert cq[k + 1] == rest[k];
      }
      forall j, k | 0 <= j < k < |rest| && rest[j].userData != SENTINEL
        ensures rest[j].userData != rest[k].userData
      {
        assert cq[j + 1] == rest[j] && cq[k + 1] == rest[k];
      }
    }
    if TagsValid(s', rest) {
      forall k | 0 < k < |cq| && cq[k].userData != SENTINEL
        ensures cq[k].userData != i && cq[k].userData < |slots| && !slots[cq[k].userData].Complete?
      {
        assert rest[k - 1] == cq[k];
      }
      forall j, k | 0 <= j < k < |cq| && cq[j].userData != SENTINEL
        ensures cq[j].userData != cq[k].userData
      {
        if j > 0 {
          assert rest[j - 1] == cq[j] && rest[k - 1] == cq[k];
        }
      }
    }
  }

  /** Delivery is defined exactly when the kernel kept its side of the
      contract. */
  lemma {:induction false} DeliverDefinedIff(t: Table, cq: seq<Cqe>)
    ensures Deliver(t, cq).Some? <==> TagsValid(t.slots, cq)
    decreases |cq|
  {
    if cq != [] {
      var rest := cq[1..];
      assert forall k :: 0 < k < |cq| ==> cq[k] == rest[k - 1];
      if cq[0].userData == SENTINEL {
        DeliverDefinedIff(t, rest);
        if TagsValid(t.slots, rest) {
          forall j, k | 0 <= j < k < |cq| && cq[j].userData != SENTINEL
            ensures cq[j].userData != cq[k].userData
          {
            assert rest[j - 1] == cq[j] && rest[k - 1] == cq[k];
          }
        }
      } else if cq[0].userData < |t.slots| && !t.slots[cq[0].userData].Complete? {
        DeliverDefinedIff(CompleteSlot(t, cq[0].userData, cq[0]), rest);
        TagsValidCons(t.slots, cq);
      }
    }
  }

  /** No record changes for a completion that does not name it; in
      particular sentinel-tagged completions change no record at all. */
  lemma {:induction false} DeliverUntouched(t: Table, cq: seq<Cqe>, i: nat)
    requires Deliver(t, cq).Some? && i < |t.slots|
    requires forall k :: 0 <= k < |cq| && cq[k].userData != SENTINEL ==> cq[k].userData != i
    ensures Deliver(t, cq).value.slots[i] == t.slots[i]
    decreases |cq|
  {
    if cq != [] {
      var rest := cq[1..];
      assert forall k :: 0 < k < |cq| ==> cq[k] == rest[k - 1];
      if cq[0].userData == SENTINEL {
        DeliverUntouched(t, rest, i);
      } else {
        DeliverUntouched(CompleteSlot(t, cq[0].userData, cq[0]), rest, i);
      }
    }
  }

  /** Every non-sentinel completion ends up in the record its tag names. */
  lemma {:induction false} DeliverRouted(t: Table, cq: seq<Cqe>, k: nat)
    requires Deliver(t, cq).Some? && k < |cq| && cq[k].userData != SENTINEL
    ensures cq[k].userData < |t.slots|
    ensures Deliver(t, cq).value.slots[cq[k].userData] == Complete(cq[k])
    decreases |cq|
  {
    var rest := cq[1..];
    assert forall j :: 0 < j < |cq| ==> cq[j] == rest[j - 1];
    if cq[0].userData == SENTINEL {
      DeliverRouted(t, rest, k - 1);
    } else {
      var t' := CompleteSlot(t, cq[0].userData, cq[0]);
      if k == 0 {
        DeliverDefinedIff(t', rest);
        DeliverUntouched(t', rest, cq[0].userData);
      } else {
        DeliverRouted(t', rest, k - 1);
      }
    }
  }

  /** The wakers a batch wakes, given the records before it: for each
      non-sentinel completion in queue order, the waker of the record it
      names, if that record is waiting. */
  function WakersOf(slots: seq<Lifecycle>, cq: seq<Cqe>): seq<Waker>
    decreases |cq|
  {
    if cq == [] then []
    else
      var tag := cq[0].userData;
      (if tag != SENTINEL && tag < |slots| then Woken(slots[tag]) else []) + WakersOf(slots, cq[1..])
  }

  lemma {:induction false} WakersOfFrame(s: seq<Lifecycle>, s': seq<Lifecycle>, cq: seq<Cqe>)
    requires |s| == |s'|
    requires forall k :: 0 <= k < |cq| && cq[k].userData != SENTINEL && cq[k].userData < |s| ==>
      s[cq[k].userData] == s'[cq[k].userData]
    ensures WakersOf(s, cq) == WakersOf(s', cq)
    decreases |cq|
  {
    if cq != [] {
      assert forall k :: 0 < k < |cq| ==> cq[k] == cq[1..][k - 1];
      WakersOfFrame(s, s', cq[1..]);
    }
  }

  /** Each waiting record named in the batch is woken once, in queue order,
      and nothing else is woken. */
  lemma {:induction false} DeliverWakes(t: Table, cq: seq<Cqe>)
    requires Deliver(t, cq).Some?
    ensures Deliver(t, cq).value.wakes == t.wakes + WakersOf(t.slots, cq)
    decreases |cq|
  {
    if cq != [] {
      var rest := cq[1..];
      if cq[0].userData == SENTINEL {
        DeliverWakes(t, rest);
      } else {
        var i := cq[0].userData;
        var t' := CompleteSlot(t, i, cq[0]);
        DeliverWakes(t', rest);
        DeliverDefinedIff(t', rest);
        WakersOfFrame(t.slots, t'.slots, rest);
      }
    }
  }

  /** Delivering two batches one after the other is delivering them joined. */
  lemma {:induction false} DeliverAppend(t: Table, a: seq<Cqe>, b: seq<Cqe>)
    ensures Deliver(t, a + b) ==
      if Deliver(t, a).Some? then Deliver(Deliver(t, a).value, b) else None
    decreases |a|
  {
    if a == [] {
      assert a + b == b;
    } else {
      assert (a + b)[0] == a[0] && (a + b)[1..] == a[1..] + b;
      if a[0].userData == SENTINEL {
        DeliverAppend(t, a[1..], b);
      } else if a[0].userData < |t.slots| && !t.slots[a[0].userData].Complete? {
        DeliverAppend(CompleteSlot(t, a[0].userData, a[0]), a[1..], b);
      }
    }
  }

  /** The whole reactor as the loops see it: the table and the ring. */
  datatype World = World(table: Table, sq: seq<Sqe>, capacity: nat, cq: seq<Cqe>)

  /** The result of `Reactor::submit`: `io::Result<()>`, plus `StillLooping`
      when the kernel steps given ran out while the loop was still going. */
  datatype Flush = FlushOk | FlushErr(error: IoError) | StillLooping

  /** How `Reactor::submit` ends: its result, the state, and the kernel
      steps it did not use. */
  datatype SubmitRun = SubmitRun(result: Flush, world: World, rest: seq<KernelStep>)

  /** The state after the kernel posts a step's completions. */
  function Posted(w: World, step: KernelStep): (r: World)
    ensures r.table == w.table && r.sq == w.sq && r.capacity == w.capacity
    ensures r.cq == w.cq + step.posted
  {
    w.(cq := w.cq + step.posted)
  }

  /** Errors the submit loop absorbs. */
  predicate Transient(code: int)
  {
    code == EBUSY || code == EINTR
  }

  /** `Reactor::submit` run against the kernel steps `script`: on success
      the loop goes round again; on EBUSY it dispatches every posted
      completion and goes round again; on EINTR it goes round again; any
      other error is returned. `None` when a dispatch would panic. */
  function RunSubmit(w: World, script: seq<KernelStep>): (r: Option<SubmitRun>)
    ensures r.Some? ==> |r.value.rest| <= |script|
    ensures r.Some? && r.value.result.FlushOk? ==> |r.value.rest| < |script|
    ensures r.Some? ==> |r.value.world.table.slots| == |w.table.slots|
    ensures r.Some? ==> r.value.world.capacity == w.capacity
    decreases |script|
  {
    if script == [] then Some(SubmitRun(StillLooping, w, []))
    else
      var w1 := Posted(w, script[0]);
      match script[0].result
      case EnterOk => RunSubmit(w1.(sq := []), script[1..])
      case EnterErr(code) =>
        if code == EBUSY then
          match Deliver(w1.table, w1.cq)
          case None => None
          case Some(t) => RunSubmit(w1.(table := t, cq := []), script[1..])
        else if code != EINTR then Some(SubmitRun(FlushErr(OsError(code)), w1, script[1..]))
        else RunSubmit(w1, script[1..])
  }

  /** The first error in the kernel steps that the loop does not absorb. */
  function FirstHardError(script: seq<KernelStep>): Option<int>
    decreases |script|
  {
    if script == [] then None
    else match script[0].result
      case EnterErr(code) => if !Transient(code) then Some(code) else FirstHardError(script[1..])
      case EnterOk => FirstHardError(script[1..])
  }

  /** The completions the kernel posts up to and including the step at
      which the loop returns. */
  function PostedThrough(script: seq<KernelStep>): seq<Cqe>
    decreases |script|
  {
    if script == [] then []
    else match script[0].result
      case EnterErr(code) =>
        if !Transient(code) then script[0].posted else script[0].posted + PostedThrough(script[1..])
      case EnterOk => script[0].posted + PostedThrough(script[1..])
  }

  /** `Reactor::submit` returns exactly the first error it does not absorb,
      and keeps looping if there is none: it has no `Ok` exit. */
  lemma {:induction false} SubmitExit(w: World, script: seq<KernelStep>)
    requires RunSubmit(w, script).Some?
    ensures RunSubmit(w, script).value.result ==
      match FirstHardError(script)
      case None => StillLooping
      case Some(code) => FlushErr(OsError(code))
    decreases |script|
  {
    if script != [] {
      var w1 := Posted(w, script[0]);
      match script[0].result
      case EnterOk =>
        SubmitExit(w1.(sq := []), script[1..]);
      case EnterErr(code) =>
        if code == EBUSY {
          SubmitExit(w1.(table := Deliver(w1.table, w1.cq).value, cq := []), script[1..]);
        } else if code == EINTR {
          SubmitExit(w1, script[1..]);
        }
    }
  }

  /** The loop never reports success, whatever the kernel does. */
  lemma SubmitNeverOk(w: World, script: seq<KernelStep>)
    requires RunSubmit(w, script).Some?
    ensures !RunSubmit(w, script).value.result.FlushOk?
  {
    SubmitExit(w, script);
  }

  /** No completion is lost or reordered by the loop: the completions it
      drained and delivered, followed by those still queued, are those
      queued before followed by those the kernel posted meanwhile. */
  lemma {:induction false} SubmitConservesCompletions(w: World, script: seq<KernelStep>)
    requires RunSubmit(w, script).Some?
    ensures Deliver(w.table, w.cq + PostedThrough(script)) ==
      Deliver(RunSubmit(w, script).value.world.table, RunSubmit(w, script).value.world.cq)
    decreases |script|
  {
    var w' := RunSubmit(w, script).value.world;
    if script == [] {
      assert w.cq + [] == w.cq;
    } else {
      var w1 := Posted(w, script[0]);
      var tail := PostedThrough(script[1..]);
      assert w.cq + (script[0].posted + tail) == w1.cq + tail;
      match script[0].result
      case EnterOk =>
        SubmitConservesCompletions(w1.(sq := []), script[1..]);
      case EnterErr(code) =>
        if code == EBUSY {
          var t := Deliver(w1.table, w1.cq).value;
          SubmitConservesCompletions(w1.(table := t, cq := []), script[1..]);
          DeliverAppend(w1.table, w1.cq, tail);
          assert [] + tail == tail;
        } else if code == EINTR {
          SubmitConservesCompletions(w1, script[1..]);
        }
    }
  }

  /** The result of `Reactor::submit_op`'s enqueue loop: pushed, an error
      from `submit`, or still looping when the kernel steps ran out. */
  datatype Enqueue = Pushed | PushErr(error: IoError) | PushLooping

  datatype SubmitOpRun = SubmitOpRun(result: Enqueue, world: World)

  /** `while push(&sqe).is_err() { submit()? }`, for the entry `e`. */
  function RunSubmitOp(w: World, e: Sqe, script: seq<KernelStep>): (r: Option<SubmitOpRun>)
    ensures r.Some? ==> |r.value.world.table.slots| == |w.table.slots|
    decreases |script|
  {
    if |w.sq| < w.capacity then Some(SubmitOpRun(Pushed, w.(sq := w.sq + [e])))
    else
      match RunSubmit(w, script)
      case None => None
      case Some(run) =>
        match run.result
        case FlushOk => RunSubmitOp(run.world, e, run.rest)
        case FlushErr(err) => Some(SubmitOpRun(PushErr(err), run.world))
        case StillLooping => Some(SubmitOpRun(PushLooping, run.world))
  }

  /** The loop reports `Pushed` only once its last push succeeded: the
      entry is then the newest in the submission queue. */
  lemma {:induction false} SubmitOpPushes(w: World, e: Sqe, script: seq<KernelStep>)
    requires RunSubmitOp(w, e, script).Some? && RunSubmitOp(w, e, script).value.result.Pushed?
    ensures var sq := RunSubmitOp(w, e, script).value.world.sq; |sq| > 0 && sq[|sq| - 1] == e
    decreases |script|
  {
    if |w.sq| >= w.capacity {
      var run := RunSubmit(w, script).value;
      SubmitOpPushes(run.world, e, run.rest);
    }
  }

  /** The enqueue loop as written: with room in the ring the entry is pushed
      at once and nothing else changes; with the ring full it calls `submit`,
      which cannot succeed, so the entry is never pushed and the result is
      the kernel's first hard error, if any. */
  lemma SubmitOpOutcome(w: World, e: Sqe, script: seq<KernelStep>)
    requires RunSubmitOp(w, e, script).Some?
    ensures |w.sq| < w.capacity ==>
      RunSubmitOp(w, e, script).value == SubmitOpRun(Pushed, w.(sq := w.sq + [e]))
    ensures |w.sq| >= w.capacity ==>
      RunSubmitOp(w, e, script).value.result ==
        match FirstHardError(script)
        case None => PushLooping
        case Some(code) => PushErr(OsError(code))
  {
    if |w.sq| >= w.capacity {
      SubmitExit(w, script);
    }
  }
}
