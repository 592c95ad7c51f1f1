/** The io_uring kernel interface, abstracted.

    The submission queue is a bounded sequence of entries that `Push` refuses
    when it is full; the completion queue is a sequence of completion entries
    that the kernel appends to and the reactor drains; one `io_uring_enter`
    call is a `KernelStep` chosen by the kernel: the completions it posts
    meanwhile and the result it reports. Only the fields the reactor reads or
    sets are kept (raw buffer pointers are not). */
module Ring {

  const U32_LIMIT: int := 0x1_0000_0000
  const U64_LIMIT: int := 0x1_0000_0000_0000_0000
  const I32_MIN: int := -0x8000_0000
  const I32_LIMIT: int := 0x8000_0000

  type U32 = x: int | 0 <= x < U32_LIMIT
  type U64 = x: int | 0 <= x < U64_LIMIT
  type I32 = x: int | I32_MIN <= x < I32_LIMIT

  /** A raw file descriptor (`RawFd`, a C `int`). */
  type Fd = I32

  /** `u64::MAX`: the user_data of completions nobody awaits. */
  const SENTINEL: U64 := U64_LIMIT - 1

  /** Linux errno values the reactor tests for. */
  const EINTR: int := 4
  const EBUSY: int := 16

  /** Linux `O_CLOEXEC` (octal 02000000). */
  const O_CLOEXEC: int := 0x80000

  /** A completion-queue entry: the tag of the submission, the kernel's
      result code and the completion flags. */
  datatype Cqe = Cqe(userData: U64, result: I32, flags: U32)

  /** The operation-specific part of a submission-queue entry. */
  datatype Opcode =
    | ReadEntry(fd: Fd, len: U32, offset: U64)
    | WriteEntry(fd: Fd, len: U32, offset: U64)
    | AcceptEntry(fd: Fd, acceptFlags: int)

  /** A submission-queue entry; a freshly built one has user_data 0. */
  datatype Sqe = Sqe(opcode: Opcode, userData: U64)

  /** `Entry::user_data`: the same entry with its tag replaced. */
  function WithUserData(e: Sqe, tag: U64): (r: Sqe)
    ensures r.opcode == e.opcode && r.userData == tag
  {
    e.(userData := tag)
  }

  /** What one `io_uring_enter` reports: success or an OS error code. */
  datatype EnterResult = EnterOk | EnterErr(code: int)

  /** One `io_uring_enter` call as the kernel plays it: the completions the
      kernel posts to the completion queue, and the result it returns. */
  datatype KernelStep = KernelStep(posted: seq<Cqe>, result: EnterResult)

  /** The shared submission/completion ring pair. */
  class Ring {
    /** Number of submission-queue slots. */
    const capacity: nat
    /** Entries pushed and not yet taken by the kernel. */
    var sq: seq<Sqe>
    /** Completions posted by the kernel and not yet reaped. */
    var cq: seq<Cqe>

    constructor (entries: nat)
      ensures capacity == entries && sq == [] && cq == []
    {
      capacity := entries;
      sq := [];
      cq := [];
    }

    /** `SubmissionQueue::push`: fails, changing nothing, when the queue is full. */
    method Push(e: Sqe) returns (ok: bool)
      modifies this
      ensures ok <==> |old(sq)| < capacity
      ensures sq == if ok then old(sq) + [e] else old(sq)
      ensures cq == old(cq)
    {
      ok := |sq| < capacity;
      if ok {
        sq := sq + [e];
      }
    }

    /** `IoUring::submit`: the kernel plays `step`; on success it has taken
        every queued entry. */
    method Enter(step: KernelStep) returns (r: EnterResult)
      modifies this
      ensures r == step.result
      ensures cq == old(cq) + step.posted
      ensures sq == if r.EnterOk? then [] else old(sq)
    {
      cq := cq + step.posted;
      r := step.result;
      if r.EnterOk? {
        sq := [];
      }
    }

    /** `completion()`, `sync()` and iterating to the end: hands over every
        posted completion, oldest first, and empties the queue. */
    method Reap() returns (batch: seq<Cqe>)
      modifies this
      ensures batch == old(cq) && cq == [] && sq == old(sq)
    {
      batch := cq;
      cq := [];
    }
  }
}
