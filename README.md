# simple_parallel: the sequential core of the thread pool

`simple_parallel` is a Rust thread pool. A supervisor thread owns the workers
and runs one job at a time. `Pool::for_`, `Pool::unordered_map` and `Pool::map`
are jobs that hand the elements of an iterator to the workers on request.
`map` also restores the iterator's order: results come back as
`Packet { idx, data }` in whatever order the workers finish, and the `ParMap`
iterator buffers early packets in a `BinaryHeap` until the packet carrying its
cursor `looking_for` arrives.

This project models the parts of `src/pool.rs` that are sequential once every
`mpsc` channel is a finite sequence of messages in arrival order and every
thread is taken apart:

- `packets.dfy` (module `Packets`): `Packet` and its `Ord`, `PartialOrd` and
  `PartialEq` implementations. Comparison is reversed index comparison, and
  equality compares indices only.
- `heap.dfy` (module `PacketHeap`): the `BinaryHeap<Packet<T>>` as a sequence
  whose top is the packet that is maximal under `Packet::cmp`, together with
  the predicates (unique indices, a range of indices) that the ordering proof
  uses.
- `channels.dfy` (module `Channels`): the two ends of a channel. A
  `Receiver`'s `pending` messages are consumed by `Recv`, and an empty
  `pending` is a closed channel, so `recv` returns `Err`. A `Sender` records
  what it sends, and its `Send` fails once the receiving end is dropped.
- `parmap.dfy` (module `OrderedMap`): `UnorderedParMap::next` and
  `ParMap::next`. `ParMap::next` appears twice:
  - as the transition function `Step` on a `MapState` value;
  - as the class `ParMap`, whose `Next` loop is proved to perform `Step`.

  Its main results:
  - for any arrival order of packets carrying each index `0..n-1` once, `map`
    yields the payloads in index order, then `None`. This is the same as the
    sequential `iter.map(f)`, and the documented `map(0..8, |i| i + 10)` gives
    `[10, ..., 17]`;
  - every value comes from the packet carrying its position's index, and a
    packet that never arrives ends the iteration there with `None`.
- `dispatch.dfy` (module `Dispatch`): the pull-dispatch controller closures of
  `for_` and `unordered_map` and the two worker loops. The order in which
  workers send need-work requests is a parameter.
- `supervisor.dfy` (module `Supervisor`): the supervisor's job loop, the
  `JobHandle` completion guard (`wait` and `drop`), and `Pool::drop`'s
  teardown message and final receive.

A panic in user code is a value in the model. For the supervisor it is
`Job.panics`: whether the shared panic flag is set when the supervisor reads
it after running the job. For `map`, a worker whose closure panics at element
`m` never sends the packet for index `m`, so the iteration yields the values
below `m` and then `None` (`OrderedMap.MapEndsAtMissingIndex`); the failure
surfaces at the job handle. The `data: None` sentinel branches of `next` are
modelled as written, but the workers of this code only send `Some`. A
`recv().unwrap().unwrap()` or `send(..).unwrap()` that would panic returns the
outcome `JobPanicked`, `Disconnected` or `SendFailed`, and a
`panic!("... closure panicked")` returns the item `Panic`.

Integers are unbounded (`nat`). `Pool::new` accepts any worker count,
including 0, and so does `Supervisor.Pool`.

## Model

| member | source | states |
|---|---|---|
| Packets.CompareIdx | src/pool.rs:482 | `usize::cmp`: `Less`, `Equal` or `Greater` exactly when the first index is smaller, equal or larger |
| Packets.Cmp | src/pool.rs:480-483 | `Packet::cmp` is the reverse of index comparison: `Greater` exactly when the receiver has the smaller index, so the max-heap's top carries the smallest index |
| Packets.PartialCmp | src/pool.rs:477-479 | `partial_cmp` is always defined; it is `Greater` exactly for the smaller index and `Equal` exactly when `eq` holds |
| Packets.Eq | src/pool.rs:484-486 | `eq` holds exactly when `cmp` returns `Equal`, in either argument order |
| Packets.EqIsIndexEquality | src/pool.rs:484-487 | packet equality is index equality, ignores the payload, and agrees with `cmp` returning `Equal` |
| Packets.CmpIsTotalOrder | src/pool.rs:480-483 | the order laws `Ord` requires of `cmp`: antisymmetric, reflexive at `Equal`, transitive, and `Greater` asymmetric; totality needs no clause, since `Ordering` has three values |
| PacketHeap.Top | src/pool.rs:515 | the heap's top is a position that no packet compares `Greater` than; it carries the smallest index and is the first position that does |
| PacketHeap.Peek | src/pool.rs:523 | `peek` is `None` exactly on an empty heap; otherwise it returns a buffered packet with the smallest index |
| PacketHeap.Push | src/pool.rs:537 | `push` adds exactly that packet to the heap's multiset of packets |
| PacketHeap.Pop | src/pool.rs:526 | `pop` removes exactly the top packet from the heap's multiset |
| PacketHeap.RemoveAt | src/pool.rs:526 | taking out one buffered packet keeps every other packet, in order |
| PacketHeap.Find | src/pool.rs:523 | the first position carrying a given index; `None` exactly when no buffered packet carries it |
| PacketHeap.RemoveAtUnique | src/pool.rs:473 | taking a packet out of a pool with unique indices keeps the indices unique; if it carried the lowest index, every remaining index is above it |
| PacketHeap.FindSkipsRemoved | src/pool.rs:523-526 | taking out a packet with another index does not change whether, or with which packet, an index is found |
| OrderedMap.Emit | src/pool.rs:528-531 | popping the wanted packet never ends the iteration; it yields a value exactly when the payload is present, and that value is the payload |
| OrderedMap.Start | src/pool.rs:395-399 | `map` starts with the cursor at 0 and an empty heap; every packet is still on the channel |
| OrderedMap.Step | src/pool.rs:521-542 | `next` advances the cursor by exactly 1 per value or panic and leaves it at the end; it takes exactly one packet out of the pool when it does not end; at the end the channel is drained and nothing is lost |
| OrderedMap.Collect | src/pool.rs:384 | what a consumer sees by calling `next` until the end, as `.collect()` does: never empty, since the final item is always there |
| OrderedMap.CollectLength | src/pool.rs:518-542 | a consumer sees at most one value per packet still to be handed out, plus the final item |
| OrderedMap.CollectShape | src/pool.rs:518-542 | repeated `next` is a run of values ended by one `None` or one panic |
| OrderedMap.CollectComesFromPackets | src/pool.rs:523-531 | the `k`-th value handed out is the payload of a packet carrying index `looking_for + k`, and a panic at position `k` comes only from a packet carrying `looking_for + k` with no payload |
| OrderedMap.StepYieldsOnlyLookingFor | src/pool.rs:523-531 | `next` yields only from a packet whose index is `looking_for`, and the other packets stay buffered or on the channel |
| OrderedMap.StepTakesLookingFor | src/pool.rs:523-539 | if the pool carries `looking_for`, `next` yields that packet's payload (or panics on the sentinel) and advances the cursor; otherwise it returns `None`, with the cursor and the pool unchanged |
| OrderedMap.StepPreservesInv | src/pool.rs:523-537 | with unique indices, every packet still to be handed out, buffered ones included, has an index of at least `looking_for`, and `next` keeps this invariant |
| OrderedMap.CollectIsInOrder | src/pool.rs:518-542 | from any state that keeps the invariant, the iterator yields the heap-free reference order: the payload for `looking_for`, then for the next index, and so on |
| OrderedMap.InOrderIgnoresBelow | src/pool.rs:526-527 | a packet whose index the cursor has already passed has no effect on the rest of the iteration |
| OrderedMap.InOrderOfRange | src/pool.rs:365-367 | for packets carrying the indices `from..n-1` once each, the reference order has one value per index, in index order, then the end |
| OrderedMap.InOrderLength | src/pool.rs:539 | for packets carrying `from..n-1` once each, iteration ends right after `n - from` values |
| OrderedMap.InOrderAt | src/pool.rs:523-529 | the packet carrying index `k` supplies the `(k - from)`-th value |
| OrderedMap.InOrderStopsAtSentinel | src/pool.rs:528-531 | if index `m` carries the failure sentinel, iteration panics at position `m - from` |
| OrderedMap.MapYieldsInIndexOrder | src/pool.rs:518-542 | if the channel delivers each index `0..n-1` exactly once, in any order, `next` yields the payloads in index order and then `None` |
| OrderedMap.MapAgreesWithSequentialMap | src/pool.rs:369-371 | `map(iter, f)` is a drop-in replacement for `iter.map(f)`: whatever the arrival order, it yields `f(elems[0]), f(elems[1]), ...` and then `None` |
| OrderedMap.MapDocExample | src/pool.rs:381-386 | the documented `map(0..8, &f)` with `f = i + 10` collects to `[10, 11, ..., 17]` for every arrival order |
| OrderedMap.MapEndsAtMissingIndex | src/pool.rs:536-540 | if the packets carry every index below `m` once, all with payloads, and none carries `m`, the iterator yields exactly `m` items, the `k`-th being the payload of the packet carrying index `k`, and then `None` |
| OrderedMap.MapPanicsAtSentinel | src/pool.rs:528-531 | a sentinel at index `m` is never yielded as a value: the iterator yields exactly `m` values and then panics |
| OrderedMap.UnorderedParMap.constructor | src/pool.rs:359-362 | the unordered iterator reads the results channel |
| OrderedMap.UnorderedParMap.Next | src/pool.rs:499-507 | relays the next packet as `(idx, value)` in arrival order, panics on the sentinel, and returns `None` exactly when the channel is closed |
| OrderedMap.ParMap.constructor | src/pool.rs:395-399 | a new `ParMap` is the start state: cursor 0, empty heap |
| OrderedMap.ParMap.Next | src/pool.rs:521-542 | the `loop` over heap and channel produces exactly the item and the new state that `Step` specifies |
| OrderedMap.ParMap.Drain | src/pool.rs:384 | calling `next` until the end, as `.collect()` does, hands out exactly `Collect` of the starting state, whose properties the `Collect…` and `Map…` lemmas state |
| Dispatch.LeadingCount | src/pool.rs:243-248 | a worker processes the messages before the first end marker or the channel's closure |
| Dispatch.Leading | src/pool.rs:243-248 | the work items a worker processes, in the order they arrive |
| Dispatch.UnorderedController | src/pool.rs:344-356 | the answers sent form a dispatch log (`IsDispatchLog`): the k-th need-work request gets `Some((k, elems[k]))` on the requester's channel while input remains, and `None` afterwards (fused) |
| Dispatch.ForController | src/pool.rs:252-264 | the k-th request gets `Some(elems[k])` on the requester's channel while input remains, and `None` afterwards |
| Dispatch.DispatchIsExactlyOnce | src/pool.rs:345-353 | no index is dispatched twice, each with its own element, and indices `0..m-1` with `m = min(requests, elements)` are all dispatched |
| Dispatch.DispatchIsFused | src/pool.rs:345 | once an end marker has been sent, every later answer is an end marker |
| Dispatch.ForWorker | src/pool.rs:238-250 | a `for_` worker applies `f` to exactly its leading work items, in order, and sends one need-work request more than it processes |
| Dispatch.UnorderedWorker | src/pool.rs:321-342 | an `unordered_map` worker sends `Packet(idx, Some(f(elem)))` for its work items in order and stops at the end marker, at the channel's closure, or after the first failed send |
| Channels.Receiver.constructor | src/pool.rs:313 | a channel holding the given messages |
| Channels.Receiver.Recv | src/pool.rs:533-540 | `recv` returns the oldest message and removes it, or `Err` once the channel is drained and closed |
| Channels.Sender.constructor | src/pool.rs:146 | a fresh channel's sender: connected, nothing sent |
| Channels.Sender.Send | src/pool.rs:119 | `send` appends the message and returns `Ok` while the receiver exists; once it is gone, it returns `Err` and sends nothing |
| Channels.Sender.Disconnect | src/pool.rs:184-186 | the receiving thread ending drops its receiver: every later send fails, and what was sent stays sent |
| Supervisor.JobsRun | src/pool.rs:178-185 | the supervisor runs jobs up to the teardown message or the channel's end, every job before the last one clean, stopping right after the first job after which it reads the panic flag set |
| Supervisor.SupervisorLoop | src/pool.rs:178-185 | one report per job run, `Err` exactly for a job after which the supervisor reads the panic flag set, so at most one `Err`, and it is the last job report; then the supervisor's final `Ok`; it stops on a panic exactly when the last job run read the flag set |
| Supervisor.Pool.constructor | src/pool.rs:188-192 | a pool with its worker count, job queue and completion channel |
| Supervisor.Pool.Drop | src/pool.rs:117-121 | dropping the pool sends the teardown `None`; if that send fails it returns `SendFailed` and receives nothing, otherwise it receives exactly one completion report |
| Supervisor.Received | src/pool.rs:105 | the outcome of `recv().unwrap().unwrap()`: `Disconnected` exactly on a closed channel, `JobPanicked` exactly on an `Err` report, `Completed` otherwise |
| Supervisor.JobHandle.constructor | src/pool.rs:461-465 | a new job handle still owes a wait |
| Supervisor.JobHandle.Wait | src/pool.rs:103-106 | `wait` clears the flag and consumes exactly one completion; it fails exactly on `Err` or a closed channel, and the drop that follows receives nothing |
| Supervisor.JobHandle.Drop | src/pool.rs:110-114 | `drop` receives one completion if a wait is still owed and nothing otherwise |
| Supervisor.Release | src/pool.rs:97-115 | whether a handle is waited on or only dropped, exactly one completion is consumed and its outcome reported |
| Supervisor.RunOneJob | src/pool.rs:85-91 | for one job on a fresh pool, waiting on its handle fails exactly when the supervisor read the panic flag set after the job; the pool's teardown then receives the clean report and leaves nothing unread, or, after a panicking job, its `send(None)` fails and the supervisor's final report stays unread |

## Left out

- Threads, `thread::scoped` and the `mpsc` channels themselves are not modelled. Channels are finite sequences in arrival order, and the interleaving of workers is a parameter (the need-work request sequence, the packet arrival order).
- The `AtomicBool` panic flag and `PanicCanary` are not modelled as shared state. A job says whether the flag is set when the supervisor reads it after the job (src/pool.rs:180). A worker's canary sets the flag only when the worker's closure is dropped during unwinding (src/pool.rs:136-141), which can happen after the supervisor's read, so an `Ok` report can follow a job in which a worker panicked. The model does not capture that timing gap.
- `PanicHandler` and `thread::panicking()` are not modelled with their runtime state. The supervisor thread itself never panics in the model, so its final report is `Ok`.
- The `unsafe` lifetime transmutes in `execute_nonunsafe` (src/pool.rs:442-458) are not modelled: they concern Rust lifetimes, not observable behaviour.
- `execute`'s hand-out of one `Work` closure per worker (src/pool.rs:442-455) and the worker threads' own `Work` loop (src/pool.rs:167-174) are not modelled. Each job's closures appear only through the controller and worker loops.
- Pool poisoning is not modelled: after a panicking job the supervisor stops receiving jobs, so a later job's `send(..).unwrap()` panics.
- `src/lib.rs` `for_` (one scoped thread per element, no logic of its own) and the `maps` module it re-exports are not part of this model.
- `Supervisor.RunOneJob` runs the supervisor to the end before the handle is waited on, so the teardown `send(None)` sees the supervisor's final state. The race in which the send happens before the supervisor has stopped and dropped its receiver is not modelled. Where the real program panics at the wait and then aborts when the failing send runs during unwinding, the model returns the outcomes `JobPanicked` and `SendFailed`.
- The `data: None` sentinel branches (src/pool.rs:502-504 and 528-531) are modelled as written, but this code's workers only send `Some` (src/pool.rs:329-331), so those branches are never reached in a run of the pool.
- `looking_for` and indices are `nat`: the model does not capture `usize` overflow, which takes more than `usize::MAX` elements (`2^32 - 1` on 32-bit targets).
- `PacketHeap.Top`: among packets that compare `Equal` (a duplicate index), the model takes the first buffered one, while std's `BinaryHeap` may take another. Indices are unique in every execution the pool produces.
- `OrderedMap.MapPanicsAtSentinel`: states that every output before the panic is a value, not which value. The value for each index is stated for the sentinel-free case by `OrderedMap.MapYieldsInIndexOrder`.
- Where the consumer of `unordered_map` goes away, the model does not derive per-worker send failures. `Dispatch.UnorderedWorker` takes as a parameter how many of its sends succeed.
