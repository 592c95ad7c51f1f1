/** The values of an operation's life: the decoded kernel result, the waker
    a suspended computation leaves behind, and the three-state lifecycle
    record one slot of the reactor's table holds. */
module Operation {
  import opened Ring

  datatype Option<T> = None | Some(value: T)

  /** An `io::Error` built from a raw OS error code. */
  datatype IoError = OsError(code: int)

  /** `io::Result<T>`. */
  datatype Result<T> = Ok(value: T) | Err(error: IoError)

  /** `std::task::Poll`. */
  datatype Poll<T> = Ready(value: T) | Pending

  /** A waker is an opaque token; two tokens wake the same task exactly
      when they are equal. */
  datatype Waker = Waker(id: nat)

  predicate WillWake(w: Waker, other: Waker)
  {
    w == other
  }

  /** A completion as operation kinds see it: the result code decoded by sign. */
  datatype CqeResult = CqeResult(result: Result<U32>, flags: U32)

  /** `CqeResult::from`: a non-negative code is a count, a negative one is
      the OS error whose number is its negation; flags are copied. */
  function FromCqe(cqe: Cqe): (r: CqeResult)
    ensures r.flags == cqe.flags
    ensures r.result.Ok? <==> cqe.result >= 0
    ensures r.result.Ok? ==> r.result.value == cqe.result
    ensures r.result.Err? ==> r.result.error.code > 0 && r.result.error == OsError(-(cqe.result as int))
  {
    var result: Result<U32> := if cqe.result >= 0 then Ok(cqe.result) else Err(OsError(-(cqe.result as int)));
    CqeResult(result, cqe.flags)
  }

  /** The raw result code a decoded result came from. */
  function RawCode(r: Result<U32>): int
  {
    match r
    case Ok(v) => v
    case Err(e) => -e.code
  }

  /** Decoding loses nothing: the kernel's code is recovered from the decoded result. */
  lemma FromCqeRecoversCode(cqe: Cqe)
    ensures RawCode(FromCqe(cqe).result) == cqe.result
  {
  }

  /** One slot of the operation table. */
  datatype Lifecycle =
    | Submitted
    | Waiting(waker: Waker)
    | Complete(cqe: Cqe)

  /** The wakers woken when the record receives its completion. */
  function Woken(l: Lifecycle): (ws: seq<Waker>)
    ensures |ws| <= 1
    ensures l.Waiting? <==> ws != []
    ensures l.Waiting? ==> ws == [l.waker]
  {
    if l.Waiting? then [l.waker] else []
  }

  /** The record after one poll by a task whose waker is `cx`. */
  function Polled(l: Lifecycle, cx: Waker): (r: Lifecycle)
    ensures l.Complete? <==> r.Submitted?
    ensures !l.Complete? ==> r.Waiting? && WillWake(r.waker, cx)
    ensures l.Waiting? && WillWake(l.waker, cx) ==> r == l
  {
    match l
    case Submitted => Waiting(cx)
    case Waiting(w) => if !WillWake(w, cx) then Waiting(cx) else Waiting(w)
    case Complete(_) => Submitted
  }

  /** What one poll of the record reports. */
  function Outcome(l: Lifecycle): (p: Poll<Cqe>)
    ensures p.Ready? <==> l.Complete?
    ensures p.Ready? ==> p.value == l.cqe
  {
    if l.Complete? then Ready(l.cqe) else Pending
  }

  /** `Lifecycle::complete` on the record `slot`: returns the record that
      replaces it and the wakers woken on the way. Completing a record that
      is already `Complete` is unreachable in the source. */
  method LifecycleComplete(slot: Lifecycle, cqe: Cqe) returns (next: Lifecycle, woken: seq<Waker>)
    requires !slot.Complete?
    ensures next == Complete(cqe)
    ensures woken == Woken(slot)
  {
    var x := slot;
    next := Submitted;
    woken := [];
    if x.Waiting? {
      woken := woken + [x.waker];
    }
    next := Complete(cqe);
  }

  /** `Lifecycle::poll_op` on the record `slot`: returns the record that
      replaces it and the poll's result. */
  method LifecyclePollOp(slot: Lifecycle, cx: Waker) returns (next: Lifecycle, p: Poll<Cqe>)
    ensures next == Polled(slot, cx)
    ensures p == Outcome(slot)
  {
    var taken := slot;
    next := Submitted;
    match taken
    case Submitted =>
      next := Waiting(cx);
      p := Pending;
    case Waiting(w) =>
      if !WillWake(w, cx) {
        next := Waiting(cx);
      } else {
        next := Waiting(w);
      }
      p := Pending;
    case Complete(c) =>
      p := Ready(c);
  }

  /** The record after polls by the wakers `cxs`, in order. */
  function PolledAll(l: Lifecycle, cxs: seq<Waker>): Lifecycle
    decreases |cxs|
  {
    if cxs == [] then l else PolledAll(Polled(l, cxs[0]), cxs[1..])
  }

  /** Latest waker wins: however many tasks polled a pending record, the
      record keeps only the last one's waker, and the completion wakes that
      waker exactly once. */
  lemma {:induction false} LatestWakerWins(l: Lifecycle, cxs: seq<Waker>)
    requires !l.Complete? && cxs != []
    ensures PolledAll(l, cxs) == Waiting(cxs[|cxs| - 1])
    ensures Woken(PolledAll(l, cxs)) == [cxs[|cxs| - 1]]
    decreases |cxs|
  {
    if |cxs| > 1 {
      LatestWakerWins(Polled(l, cxs[0]), cxs[1..]);
      assert cxs[1..][|cxs[1..]| - 1] == cxs[|cxs| - 1];
    }
  }

  /** Pending polls never move a record backwards: a pending record stays
      pending, and re-polling by the same task changes nothing. */
  lemma PollIdempotent(l: Lifecycle, cx: Waker)
    requires !l.Complete?
    ensures Outcome(Polled(l, cx)) == Pending
    ensures Polled(Polled(l, cx), cx) == Polled(l, cx)
  {
  }

  /** A ready poll does not leave the record `Complete`: it resets it to
      `Submitted`, so the next poll is pending and the cached completion
      is gone. */
  lemma ReadyResetsRecord(cqe: Cqe, cx: Waker)
    ensures Outcome(Complete(cqe)) == Ready(cqe)
    ensures Polled(Complete(cqe), cx) == Submitted
    ensures Outcome(Polled(Complete(cqe), cx)) == Pending
  {
  }
}
