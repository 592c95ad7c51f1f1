/** The write operation kind: write to a descriptor from the caller's
    buffer at a file offset. */
module WriteOp {
  import opened Ring
  import opened Operation
  import opened Dispatch
  import opened IoReactor

  /** `Write`: the descriptor, the caller's buffer (borrowed, and given to
      the kernel to read, for the operation's lifetime) and the offset. */
  datatype Write = Write(fd: Fd, buf: array<bv8>, offset: U64)

  /** `Opable::opcode`: a write entry on `fd` at `offset` whose length is
      the buffer's, cast to the entry's 32-bit length field. */
  function Opcode(w: Write): (e: Sqe)
    ensures e.opcode.WriteEntry? && e.userData == 0
    ensures e.opcode.fd == w.fd && e.opcode.offset == w.offset
    ensures e.opcode.len == w.buf.Length % U32_LIMIT
  {
    Sqe(WriteEntry(w.fd, w.buf.Length % U32_LIMIT, w.offset), 0)
  }

  /** Buffers shorter than 4 GiB are described with their exact length. */
  lemma OpcodeLength(w: Write)
    requires w.buf.Length < U32_LIMIT
    ensures Opcode(w).opcode.len == w.buf.Length
  {
  }

  /** `Completable::complete`: the count widened to `usize`, errors passed
      through, and the same buffer handed back. */
  function Complete(w: Write, cqe: CqeResult): (out: (Result<nat>, array<bv8>))
    ensures out.1 == w.buf
    ensures out.0.Ok? <==> cqe.result.Ok?
    ensures out.0.Ok? ==> out.0.value == cqe.result.value
    ensures out.0.Err? ==> out.0.error == cqe.result.error
  {
    var res: Result<nat> := match cqe.result
      case Ok(v) => Ok(v)
      case Err(e) => Err(e);
    (res, w.buf)
  }

  /** From the kernel's code to the caller: a non-negative code is the
      count written; a negative code is the OS error it negates. */
  lemma CompleteFromKernel(w: Write, cqe: Cqe)
    ensures Complete(w, FromCqe(cqe)).0 ==
      if cqe.result >= 0 then Ok(cqe.result) else Err(OsError(-(cqe.result as int)))
  {
  }

  /** `Op::<Write>::write_at`: submits a write of `buf` to `fd` at `offset`. */
  method WriteAt(reactor: Reactor, fd: Fd, buf: array<bv8>, offset: U64, script: seq<KernelStep>)
    returns (r: OpResult<Write>)
    requires |reactor.ops.lifecycle| < SENTINEL
    requires RunSubmitOp(reactor.Inserted(),
                         WithUserData(Opcode(Write(fd, buf, offset)), |reactor.ops.lifecycle|), script).Some?
    modifies reactor.ops, reactor.uring
    ensures RunSubmitOp(old(reactor.Inserted()),
                        WithUserData(Opcode(Write(fd, buf, offset)), old(|reactor.ops.lifecycle|)), script)
            == Some(SubmitOpRun(EnqueueOf(r), reactor.State()))
    ensures r.OpOk? ==> fresh(r.op) && r.op.index == old(|reactor.ops.lifecycle|)
    ensures r.OpOk? ==> r.op.data == Some(Write(fd, buf, offset))
  {
    r := reactor.SubmitOp(Write(fd, buf, offset), Opcode, script);
  }
}
