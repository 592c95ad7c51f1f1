/** The read operation kind: read from a descriptor into the caller's
    buffer at a file offset. */
module ReadOp {
  import opened Ring
  import opened Operation
  import opened Dispatch
  import opened IoReactor

  /** `Read`: the descriptor, the caller's buffer (borrowed, and given to
      the kernel to fill, for the operation's lifetime) and the offset. */
  datatype Read = Read(fd: Fd, buf: array<bv8>, offset: U64)

  /** `Opable::opcode`: a read entry on `fd` at `offset` whose length is
      the buffer's, cast to the entry's 32-bit length field. */
  function Opcode(r: Read): (e: Sqe)
    ensures e.opcode.ReadEntry? && e.userData == 0
    ensures e.opcode.fd == r.fd && e.opcode.offset == r.offset
    ensures e.opcode.len == r.buf.Length % U32_LIMIT
  {
    Sqe(ReadEntry(r.fd, r.buf.Length % U32_LIMIT, r.offset), 0)
  }

  /** Buffers shorter than 4 GiB are described with their exact length. */
  lemma OpcodeLength(r: Read)
    requires r.buf.Length < U32_LIMIT
    ensures Opcode(r).opcode.len == r.buf.Length
  {
  }

  /** `Completable::complete`: the count widened to `usize`, errors passed
      through, and the same buffer handed back. */
  function Complete(r: Read, cqe: CqeResult): (out: (Result<nat>, array<bv8>))
    ensures out.1 == r.buf
    ensures out.0.Ok? <==> cqe.result.Ok?
    ensures out.0.Ok? ==> out.0.value == cqe.result.value
    ensures out.0.Err? ==> out.0.error == cqe.result.error
  {
    var res: Result<nat> := match cqe.result
      case Ok(v) => Ok(v)
      case Err(e) => Err(e);
    (res, r.buf)
  }

  /** From the kernel's code to the caller: a non-negative code is the
      count read, so zero is end of stream and not an error; a negative
      code is the OS error it negates. */
  lemma CompleteFromKernel(r: Read, cqe: Cqe)
    ensures Complete(r, FromCqe(cqe)).0 ==
      if cqe.result >= 0 then Ok(cqe.result) else Err(OsError(-(cqe.result as int)))
    ensures cqe.result == 0 ==> Complete(r, FromCqe(cqe)).0 == Ok(0)
  {
  }

  /** `Op::<Read>::read_at`: submits a read of `buf` from `fd` at `offset`. */
  method ReadAt(reactor: Reactor, fd: Fd, buf: array<bv8>, offset: U64, script: seq<KernelStep>)
    returns (r: OpResult<Read>)
    requires |reactor.ops.lifecycle| < SENTINEL
    requires RunSubmitOp(reactor.Inserted(),
                         WithUserData(Opcode(Read(fd, buf, offset)), |reactor.ops.lifecycle|), script).Some?
    modifies reactor.ops, reactor.uring
    ensures RunSubmitOp(old(reactor.Inserted()),
                        WithUserData(Opcode(Read(fd, buf, offset)), old(|reactor.ops.lifecycle|)), script)
            == Some(SubmitOpRun(EnqueueOf(r), reactor.State()))
    ensures r.OpOk? ==> fresh(r.op) && r.op.index == old(|reactor.ops.lifecycle|)
    ensures r.OpOk? ==> r.op.data == Some(Read(fd, buf, offset))
  {
    r := reactor.SubmitOp(Read(fd, buf, offset), Opcode, script);
  }
}
