# Reactor and operation lifecycle of a single-threaded io_uring runtime

This project models the reactor of a small asynchronous runtime built on
io_uring, and proves properties of the model in Dafny.

Application code starts an I/O operation (accept, read or write). The
reactor gives the operation a numeric id in a slab of lifecycle records. It
tags the kernel submission entry with that id and pushes the entry into the
submission ring, calling `submit` while the ring is full. Later it drains
the completion ring and routes each completion to the record its tag names.
Completions tagged `u64::MAX` are skipped. Each record is `Submitted`,
`Waiting(waker)` or `Complete(cqe)`. The operation's future polls its record.
While the record is pending, the future leaves its waker there; the last
waker wins. Once the record is complete, the future takes its descriptor
exactly once and turns the decoded completion into a typed result.

Modules, one per part of the source:

- `Ring` (`ring.dfy`): the kernel ring, abstracted. It has a bounded
  submission queue whose `Push` fails when full, and a completion queue. Each
  `io_uring_enter` call is a `KernelStep` chosen by the kernel: the
  completions it posts and the result it returns.
- `Operation` (`op.dfy`): `CqeResult::from`, the waker token, the
  `Lifecycle` record and its `complete` and `poll_op`. The record is a value
  stored in the slab. So its `&mut self` methods take the old record and
  return the new one, plus the wakers they woke.
- `Dispatch` (`dispatch.dfy`): specification functions for the table, the
  routing of a drained batch, the `submit` retry loop and the enqueue loop of
  `submit_op`, with the lemmas about them.
- `IoReactor` (`reactor.dfy`): the classes `Ops` (the slab), `Reactor` and
  `Op<T>` (the future from `op.rs`). `Op<T>` lives here because the future
  calls the reactor and the reactor builds the future. Each method's
  `ensures` ties the new state to a `Dispatch` function of the old state.
- `ReadOp`, `WriteOp`, `AcceptOp` (`read.dfy`, `write.dfy`, `accept.dfy`):
  the operation kinds. The `Opable` and `Completable` traits become function
  parameters: `SubmitOp` takes `opcode`, and `Op.Poll` takes `complete`.

Kernel behaviour comes in as data. `Submit` and `SubmitOp` take a script of
kernel steps, one per `io_uring_enter`. The source's `loop` in `submit` never
ends by itself, so the script is also its fuel. When the script runs out,
the result is `StillLooping` (or `Looping` from `SubmitOp`). The source
panics when a completion names a vacant slot, or names a record that is
already complete. Those two cases are preconditions here. At the
specification level, `Deliver`, `RunSubmit` and `RunSubmitOp` return `None`
for them.

Where the design and the code disagree, the model follows the code:

- No slot is ever freed. `Ops` has no removal, so ids are `0, 1, 2, …` and
  the table only grows. The design describes a free list that reuses slots
  once they are consumed.
- A ready poll does not leave the record `Complete`. The `mem::replace` resets
  it to `Submitted`, so the next poll is pending and registers a waker. The
  design says a later poll returns the same cached result
  (`Operation.ReadyResetsRecord`). So a future polled again after it
  finished returns `Pending` for ever. It does not reach the `take().unwrap()`
  panic.
- `Reactor::submit` has no `Ok` exit. Its `Ok` arm falls back into the loop;
  the only way out is an error other than EBUSY or EINTR
  (`Dispatch.SubmitExit`, `Dispatch.SubmitNeverOk`). So `submit_op` pushes
  only when the ring has room at the first try. With a full ring it returns
  the kernel's first hard error, or loops (`Dispatch.SubmitOpOutcome`). The
  design says it retries until the push succeeds.

## Model

| member | source | states |
|---|---|---|
| `Ring.WithUserData` | src/reactor.rs:98 | tagging an entry replaces its user_data and keeps its opcode fields |
| `Ring.Ring.constructor` | src/reactor.rs:56 | a new ring has the requested number of submission slots and empty queues |
| `Ring.Ring.Push` | src/reactor.rs:101 | a push succeeds exactly when the submission queue has room, and then appends the entry; otherwise nothing changes |
| `Ring.Ring.Enter` | src/reactor.rs:67 | one `submit` call returns the kernel's result, posts the kernel's completions, and empties the submission queue on success |
| `Ring.Ring.Reap` | src/reactor.rs:81-83 | draining hands over every posted completion in queue order and empties the completion queue |
| `Operation.FromCqe` | src/reactor/op.rs:18-27 | a non-negative code becomes `Ok` of the same value, a negative one becomes the OS error numbered by its negation (always positive); flags are copied |
| `Operation.FromCqeRecoversCode` | src/reactor/op.rs:21-25 | the decoding loses nothing: the kernel's code is recovered from every decoded result |
| `Operation.Woken` | src/reactor/op.rs:49-52 | completing a record wakes at most one waker: the stored one exactly when the record is `Waiting` |
| `Operation.Polled` | src/reactor/op.rs:59-75 | a poll resets a `Complete` record to `Submitted`; any other record becomes `Waiting` with a waker that will wake the caller; a `Waiting` record whose waker already wakes the caller is kept |
| `Operation.Outcome` | src/reactor/op.rs:59-75 | a poll is `Ready` exactly for a `Complete` record, with its cached completion; otherwise `Pending` |
| `Operation.LifecycleComplete` | src/reactor/op.rs:47-56 | from `Submitted` or `Waiting(w)` the record becomes `Complete(cqe)`, and `w` is woken exactly once; completing a `Complete` record is excluded |
| `Operation.LifecyclePollOp` | src/reactor/op.rs:59-75 | the replacement record and the poll result are those of `Polled` and `Outcome` |
| `Operation.LatestWakerWins` | src/reactor/op.rs:61-72 | after any number of polls of a pending record, it holds the last poller's waker, and its completion wakes only that waker, once |
| `Operation.PollIdempotent` | src/reactor/op.rs:61-72 | a pending record stays pending after a poll, and a second poll by the same task changes nothing |
| `Operation.ReadyResetsRecord` | src/reactor/op.rs:60-73 | a ready poll returns the cached completion and leaves the record `Submitted`, so the next poll is pending |
| `Dispatch.InsertSlot` | src/reactor.rs:42-44 | insertion adds exactly one `Submitted` record, at the first unused id, and leaves the others unchanged |
| `Dispatch.CompleteSlot` | src/reactor.rs:34-36 | completing record `i` makes it `Complete(cqe)`, logs its waker's wake, and leaves every other record unchanged |
| `Dispatch.PollSlot` | src/reactor.rs:38-40 | polling record `i` replaces only that record, by `Polled`, and wakes nothing |
| `Dispatch.Deliver` | src/reactor.rs:80-91 | routing a drained batch never adds or removes a record |
| `Dispatch.DeliverDefinedIff` | src/reactor.rs:83-90 | routing a batch panics exactly when the kernel broke its contract: a non-sentinel tag names no record or a complete one, or two completions share a tag |
| `Dispatch.DeliverUntouched` | src/reactor.rs:84-86 | a record that no non-sentinel completion names is unchanged; sentinel completions change no record |
| `Dispatch.DeliverRouted` | src/reactor.rs:88-89 | every non-sentinel completion ends in the record whose id equals its tag |
| `Dispatch.DeliverWakes` | src/reactor.rs:83-90 | routing wakes exactly the waiting records' wakers, once each, in completion-queue order |
| `Dispatch.DeliverAppend` | src/reactor.rs:83 | routing two batches one after the other equals routing them joined, so the completion queue's order is the only order |
| `Dispatch.RunSubmit` | src/reactor.rs:65-78 | the submit loop never adds or removes a record, and uses up the kernel steps it is given |
| `Dispatch.SubmitExit` | src/reactor.rs:65-78 | the loop returns exactly the first error other than EBUSY or EINTR, and keeps looping while there is none |
| `Dispatch.SubmitNeverOk` | src/reactor.rs:68-70 | whatever the kernel does, the loop never returns `Ok` |
| `Dispatch.SubmitConservesCompletions` | src/reactor.rs:71-73 | the loop loses and reorders no completion: those it delivered on EBUSY, followed by those still queued, are the ones queued before followed by those posted meanwhile |
| `Dispatch.RunSubmitOp` | src/reactor.rs:101-104 | the enqueue loop never adds or removes a record |
| `Dispatch.SubmitOpPushes` | src/reactor.rs:101-104 | the enqueue loop reports success only after a push succeeded; the tagged entry is then the newest in the submission queue |
| `Dispatch.SubmitOpOutcome` | src/reactor.rs:101-104 | with room in the ring, the entry is pushed at once and nothing else changes; with the ring full, the entry is never pushed, and the result is the kernel's first hard error, if any |
| `IoReactor.Ops.constructor` | src/reactor.rs:27-32 | a new table has no records |
| `IoReactor.Ops.Complete` | src/reactor.rs:34-36 | the new table is `CompleteSlot` of the old one; the id must be occupied and its record not complete |
| `IoReactor.Ops.PollOp` | src/reactor.rs:38-40 | returns `Outcome` of the record, and the new table is `PollSlot` of the old one |
| `IoReactor.Ops.Insert` | src/reactor.rs:42-44 | returns the old length as the new id, and the new table is `InsertSlot` of the old one |
| `IoReactor.Reactor.constructor` | src/reactor.rs:53-58 | a new reactor has an empty table and an empty ring with `entries` submission slots |
| `IoReactor.Reactor.Submit` | src/reactor.rs:65-78 | the result, the new state and the unused kernel steps are those of `RunSubmit` on the old state |
| `IoReactor.Reactor.DispatchCompletions` | src/reactor.rs:80-91 | the new table is `Deliver` of the old table and the old completion queue; the completion queue is empty; the submission queue and the number of records are unchanged |
| `IoReactor.Reactor.SubmitOp` | src/reactor.rs:93-105 | adds one record and tags the entry with its id; the outcome and the new state are those of `RunSubmitOp`; a returned `Op` is new, carries the descriptor and that same id |
| `IoReactor.Reactor.PollOp` | src/reactor.rs:107-109 | is `Ops.PollOp` on the occupied id `index` and touches no other record |
| `IoReactor.Op.constructor` | src/reactor/op.rs:84-86 | a new future holds `Some(data)` and the given id |
| `IoReactor.Op.Poll` | src/reactor/op.rs:95-100 | pending while the record is not complete, with the descriptor kept; once complete, takes the descriptor (leaving `None`) and returns `complete(data, FromCqe(cqe))`; the descriptor must be present then |
| `ReadOp.Opcode` | src/reactor/read.rs:30-38 | a read entry on `fd` at the stored offset, whose length is the buffer's length cast to 32 bits |
| `ReadOp.OpcodeLength` | src/reactor/read.rs:34 | a buffer shorter than 4 GiB is described with its exact length |
| `ReadOp.Complete` | src/reactor/read.rs:44-48 | a count becomes the same `usize` count, an error passes through unchanged, and the same buffer is handed back |
| `ReadOp.CompleteFromKernel` | src/reactor/read.rs:45 | with `FromCqe`, a kernel code of zero yields `Ok(0)` (end of stream), a positive one the count, and a negative one the OS error it negates |
| `ReadOp.ReadAt` | src/reactor/read.rs:18-26 | submits, through `SubmitOp`, a `Read` whose descriptor, buffer and offset are the arguments |
| `WriteOp.Opcode` | src/reactor/write.rs:29-37 | a write entry on `fd` at the stored offset, whose length is the buffer's length cast to 32 bits |
| `WriteOp.OpcodeLength` | src/reactor/write.rs:33 | a buffer shorter than 4 GiB is described with its exact length |
| `WriteOp.Complete` | src/reactor/write.rs:43-47 | a count becomes the same `usize` count, an error passes through unchanged, and the same buffer is handed back |
| `WriteOp.CompleteFromKernel` | src/reactor/write.rs:44 | with `FromCqe`, a negative kernel code yields the OS error it negates, and a non-negative one the count |
| `WriteOp.WriteAt` | src/reactor/write.rs:17-25 | submits, through `SubmitOp`, a `Write` whose descriptor, buffer and offset are the arguments |
| `AcceptOp.Initial` | src/reactor/accept.rs:19-22 | the address storage starts zeroed, and the length field starts at the size of `sockaddr_storage` (128) |
| `AcceptOp.Opcode` | src/reactor/accept.rs:33-41 | an accept entry on the stored listening descriptor with the `O_CLOEXEC` flag |
| `AcceptOp.AsRawFd` | src/reactor/accept.rs:49 | the 32-bit count becomes a signed descriptor: unchanged below 2^31, wrapped above |
| `AcceptOp.Complete` | src/reactor/accept.rs:47-58 | an error is returned at once and no stream is built; a success yields a stream on the kernel's descriptor and the address decoded from the stored storage and length |
| `AcceptOp.CompleteFromKernel` | src/reactor/accept.rs:48-57 | with `FromCqe`, a negative kernel code yields the OS error it negates; otherwise the stream's descriptor equals the kernel's code |
| `AcceptOp.SubmitAccept` | src/reactor/accept.rs:18-29 | submits, through `SubmitOp`, an `Accept` on the given listening descriptor with the initial storage and length |

## Left out

- The io_uring system calls (`IoUring::new`, `submit`, `submit_and_wait`, the `sync` calls) are syscalls. The kernel's replies come in as `KernelStep` data instead.
- `Ring.Ring.Enter`: a successful call always takes every queued entry. Partial submission is not modelled.
- `Reactor::wait` (src/reactor.rs:60-63) is a blocking syscall plus a log line, so it is not modelled.
- `IoReactor.Reactor.Submit`: the source loops forever once the kernel stops failing. The model stops with `StillLooping` when the kernel steps run out, which acts as a fuel bound.
- `IoReactor.Reactor.constructor`: ring setup failure, and the kernel's rounding of the ring size, are kernel behaviour and are not modelled.
- `Ops::new` preallocates 8 slab slots. This only affects performance, so the model starts from an empty sequence.
- `get_reactor` and the thread-local `Rc<RefCell<Reactor>>` (src/reactor.rs:17-20) are left out. The reactor is passed to each operation explicitly.
- A waker is an opaque token, `will_wake` is equality, and `wake()` is an entry in the table's log. What waking does to the executor is not modelled, because the executor is not part of this model.
- Raw pointers in the submission entries are left out. Entries keep only the opcode, descriptor, length, offset, accept flags and tag.
- The kernel's writes into the read buffer and into the accept address storage happen outside the model. Read buffers are array references, so the model shows which buffer comes back, but not its contents.
- `AcceptOp.Complete`: the socket library's address decoding is the uninterpreted parameter `decode`. The `as_socket().unwrap()` panic on a non-IP address family is not modelled. The `try_init` error path is not modelled either: its closure always succeeds.
- `Operation.FromCqe`: negating `i32::MIN` overflows in Rust. The model negates without bounds. The kernel only reports codes from -4095 up.
- The `Opable` and `Completable` traits are not declarations here. They are the `opcode` and `complete` function parameters.
- Dropping an `Op` before it completes is simply never polling it again. In the source, with no `Drop`, its record stays in the table. The model keeps that record too.
- src/tcp.rs (socket creation, bind, listen, and the forwarding `read`/`write`/`accept` at offset 0) and the echo demo server (echo.rs) are outside the reactor and are not modelled.
- There is no concurrency: the runtime is single-threaded.
