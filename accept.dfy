/** The accept operation kind: accept a connection on a listening socket,
    with the peer's address written by the kernel into a boxed
    `sockaddr_storage` and its length. */
module AcceptOp {
  import opened Ring
  import opened Operation
  import opened Dispatch
  import opened IoReactor

  /** `size_of::<sockaddr_storage>()` on Linux. */
  const SOCKADDR_STORAGE_SIZE: U32 := 128

  /** `Accept`: the listening descriptor, the address storage and the
      address length. */
  datatype Accept = Accept(fd: Fd, storage: seq<bv8>, addrLen: U32)

  /** A connected stream over a raw descriptor. */
  datatype TcpStream = TcpStream(fd: Fd)

  /** An `Accept` as `accept` first builds it: zeroed
      storage, length set to the storage's size. */
  function Initial(fd: Fd): (a: Accept)
    ensures a.fd == fd && a.addrLen == SOCKADDR_STORAGE_SIZE
    ensures |a.storage| == SOCKADDR_STORAGE_SIZE && forall i :: 0 <= i < |a.storage| ==> a.storage[i] == 0
  {
    Accept(fd, seq(SOCKADDR_STORAGE_SIZE, _ => 0), SOCKADDR_STORAGE_SIZE)
  }

  /** `Opable::opcode`: an accept entry on the listening descriptor whose
      new descriptor is close-on-exec. */
  function Opcode(a: Accept): (e: Sqe)
    ensures e.opcode.AcceptEntry? && e.userData == 0
    ensures e.opcode.fd == a.fd && e.opcode.acceptFlags == O_CLOEXEC
  {
    Sqe(AcceptEntry(a.fd, O_CLOEXEC), 0)
  }

  /** `fd as RawFd`: the 32-bit count reinterpreted as a signed descriptor. */
  function AsRawFd(v: U32): (fd: Fd)
    ensures v < I32_LIMIT ==> fd == v
    ensures v >= I32_LIMIT ==> fd == v - U32_LIMIT
  {
    if v < I32_LIMIT then v else v - U32_LIMIT
  }

  /** `Completable::complete`: an error is returned at once, before any
      stream exists; a success is the new connection's descriptor, paired
      with the peer address decoded from the storage by `decode` (the
      socket library's conversion, left uninterpreted). */
  function Complete<Addr>(a: Accept, cqe: CqeResult, decode: (seq<bv8>, U32) -> Addr): (r: Result<(TcpStream, Addr)>)
    ensures r.Err? <==> cqe.result.Err?
    ensures r.Err? ==> r.error == cqe.result.error
    ensures r.Ok? ==> r.value.0 == TcpStream(AsRawFd(cqe.result.value))
    ensures r.Ok? ==> r.value.1 == decode(a.storage, a.addrLen)
  {
    match cqe.result
    case Err(e) => Err(e)
    case Ok(fd) =>
      var stream := TcpStream(AsRawFd(fd));
      Ok((stream, decode(a.storage, a.addrLen)))
  }

  /** From the kernel's code to the caller: a negative code is the OS error
      it negates; otherwise the stream's descriptor is the code itself,
      since a non-negative 32-bit code fits a descriptor unchanged. */
  lemma CompleteFromKernel<Addr>(a: Accept, cqe: Cqe, decode: (seq<bv8>, U32) -> Addr)
    ensures cqe.result < 0 ==> Complete(a, FromCqe(cqe), decode) == Err(OsError(-(cqe.result as int)))
    ensures cqe.result >= 0 ==>
      Complete(a, FromCqe(cqe), decode) == Ok((TcpStream(cqe.result), decode(a.storage, a.addrLen)))
  {
  }

  /** `Op::<Accept>::accept`: submits an accept on the listening `fd`. */
  method SubmitAccept(reactor: Reactor, fd: Fd, script: seq<KernelStep>) returns (r: OpResult<Accept>)
    requires |reactor.ops.lifecycle| < SENTINEL
    requires RunSubmitOp(reactor.Inserted(),
                         WithUserData(Opcode(Initial(fd)), |reactor.ops.lifecycle|), script).Some?
    modifies reactor.ops, reactor.uring
    ensures RunSubmitOp(old(reactor.Inserted()),
                        WithUserData(Opcode(Initial(fd)), old(|reactor.ops.lifecycle|)), script)
            == Some(SubmitOpRun(EnqueueOf(r), reactor.State()))
    ensures r.OpOk? ==> fresh(r.op) && r.op.index == old(|reactor.ops.lifecycle|)
    ensures r.OpOk? ==> r.op.data == Some(Initial(fd))
  {
    var storage := seq(SOCKADDR_STORAGE_SIZE, _ => 0);
    var descriptor := Accept(fd, storage, SOCKADDR_STORAGE_SIZE);
    r := reactor.SubmitOp(descriptor, Opcode, script);
  }
}
