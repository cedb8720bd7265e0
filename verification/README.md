# PMD block driver, modelled in Dafny

The PMD driver exposes a fixed window of physical memory as a block device. The window is `PMD_SECTORS` (0x10000) sectors of 512 bytes, 32 MiB in all, at physical address `0x84000000`. This project models three parts of `drivers/block/pmd.c`:

- **Request dispatch loop** (`do_pmd_request`). It fetches requests from the host block layer in FIFO order. For each chunk it turns the sector position into a byte offset (`pos << 9`) and bounds-checks `start + len` against `pmd_size`. It then either copies between the caller's buffer and the window, in the direction of the request, or completes the chunk with `-EIO`. When the request still has bytes left it stays on the same request; otherwise it fetches the next one.
- **Module init and exit** (`pmd_init`, `pmd_exit`). Init is a forward ladder: register the major, map the window (with one fallback address), create the queue, then allocate and publish the disk. On failure it unwinds through goto labels. Each kernel call is an injected success or failure. Init is a pure function that returns the return code, a trace of resources acquired and released, and the published device.
- **Open/release gate** (`pmd_open`, `pmd_release`).

Modules:

- `PmdDefs` (defs.dfy): the constants and errno values, `Byte`, and `Option`.
- `Transfer` (transfer.dfy): the bounds check and the copy for a single chunk.
- `HostQueue` (queue.dfy): requests, their chunks, and the FIFO order in which the host delivers chunks.
- `DispatchLoop` (dispatch.dfy): a reference definition of draining a queue, the loop as the driver writes it, and the properties of both.
- `Lifecycle` (lifecycle.dfy): init, exit, and the replay of their traces.
- `Gate` (gate.dfy): open and release.
- `Driver` (driver.dfy): the window that init publishes, combined with the dispatch loop.

The window is a `seq<Byte>`, and its length plays the role of `pmd_size`. A request is its direction plus one or more chunks. Each chunk has a start sector and the caller's buffer; the buffer's length is the chunk's byte count. Draining a queue produces the final window and a completion log. Each completion names the request and chunk it belongs to, the status passed to `__blk_end_request_cur`, and the caller's buffer after the copy.

The code is modelled as written, including these three behaviours of `pmd.c`:

- If both `ioremap` attempts fail, init returns `-EBUSY`, not an out-of-resources code. `ret` is still `-EBUSY` from line 125 when the code jumps to `out_ioremap`.
- If `alloc_disk` fails, the code falls through `out_disk` into `out_queue`. The queue is never cleaned up, so it stays held, and the unmap then releases the mapping while the queue is still the most recently acquired resource.
- `pmd_exit` unregisters the major before `del_gendisk` and never calls `iounmap`, so the mapping stays held after exit.

## Model

| member | source | states |
|---|---|---|
| `PmdDefs.SectorToOffset` | drivers/block/pmd.c:60 | The byte offset `pos << 9` is a multiple of 512, and dividing it by 512 gives back the sector position. |
| `PmdDefs.PmdSizeIs32MiB` | drivers/block/pmd.c:37-40 | `pmd_size` is 32 MiB, and every sector below `PMD_SECTORS` fits inside the window. |
| `Transfer.ServeSegment` | drivers/block/pmd.c:60-76 | A chunk completes with 0 exactly when `start + len <= pmd_size`, and with -EIO otherwise. A rejected chunk leaves the window and the buffer unchanged. An accepted read fills the buffer from `window[start..start+len)` and leaves the window unchanged. An accepted write puts the buffer at `window[start..start+len)` and leaves every other byte unchanged. The window length never changes. |
| `Transfer.ReadSeesWrite` | drivers/block/pmd.c:73-76 | After an in-range write, an in-range read sees the written bytes where the two ranges overlap and the earlier contents elsewhere. |
| `Transfer.ReadAfterWrite` | drivers/block/pmd.c:73-76 | Writing pattern P and then reading the same range completes with 0 and returns exactly P, whatever buffer the reader supplied. |
| `HostQueue.EndCur` | drivers/block/pmd.c:78-79 | Completing the current chunk leaves the request positioned at its remaining chunks. The request is finished (and a new fetch follows) exactly when that was its last chunk. |
| `HostQueue.ScheduleAt` | drivers/block/pmd.c:58-80 | Every chunk of every fetched request is served, at position (chunks of earlier requests + index within its request). |
| `HostQueue.ScheduleFifo` | drivers/block/pmd.c:58-80 | Served chunks are real chunks of real requests, in strictly increasing (request, chunk) order. So nothing is served twice and nothing overtakes an earlier chunk. |
| `DispatchLoop.ServeAll` | drivers/block/pmd.c:58-80 | Draining a list of chunks gives one completion per chunk, in order, each tagged with its chunk. Each status is 0 or -EIO, and it is 0 exactly when that chunk passes the bounds check. A failure does not stop later chunks. The window length is preserved. |
| `DispatchLoop.ServeAllFrame` | drivers/block/pmd.c:65-76 | A window byte that no accepted write covers is unchanged after the whole batch. |
| `DispatchLoop.ServeAllReadOnly` | drivers/block/pmd.c:65-74 | A batch of reads and rejected chunks leaves the window unchanged, byte for byte. |
| `DispatchLoop.DispatchSlot` | drivers/block/pmd.c:58-80 | Chunk `si` of request `ri` gets its own completion, tagged (ri, si), at slot (chunks of earlier requests + si). Its status is 0 iff the chunk passes the bounds check and -EIO iff it does not, whatever happened to earlier chunks. |
| `DispatchLoop.DispatchInOrder` | drivers/block/pmd.c:58-80 | Draining a queue signals exactly as many completions as there are chunks, in strictly increasing (request, chunk) order, which is FIFO order request by request. |
| `DispatchLoop.DispatchReadAfterWrite` | drivers/block/pmd.c:73-76 | A write request of P followed by a read request of the same in-range sectors completes both with 0, and the read returns exactly P. |
| `DispatchLoop.DoPmdRequest` | drivers/block/pmd.c:54-81 | The loop as written (fetch; serve the current chunk; complete it; fetch again only when the request has no bytes left; stop when the fetch returns nothing) gives exactly the window and completion log of the FIFO reference. |
| `Lifecycle.PmdInit` | drivers/block/pmd.c:120-185 | The return code is 0, -EBUSY or -ENOMEM. It is -EBUSY exactly when registration or both mappings fail, and 0 exactly when every step succeeds, which is also exactly when a device is published. Nothing is traced when registration fails. The mapping is acquired exactly when registration and some mapping succeed. The published device sits at `PMD_BASE` when the first `ioremap` succeeds and at `PMD_BASE + 0x10000000` when only the second does, and it has `pmd_size` bytes and `PMD_SECTORS` sectors of 512 bytes. |
| `Lifecycle.InitRegisterFails` | drivers/block/pmd.c:125-130 | A registration failure returns -EBUSY with nothing acquired and nothing mapped. |
| `Lifecycle.InitMapFails` | drivers/block/pmd.c:134-143 | If both map attempts fail, init returns -EBUSY after registering and then unregistering the major, and nothing is left held. |
| `Lifecycle.InitQueueFails` | drivers/block/pmd.c:147-153 | A queue failure returns -ENOMEM after unmapping and then unregistering, in reverse order, and nothing is left held. |
| `Lifecycle.InitDiskFails` | drivers/block/pmd.c:156-182 | A disk failure returns -ENOMEM with the window unmapped and the major unregistered. The queue stays held, and the releases are not in reverse order of acquisition. |
| `Lifecycle.InitSucceeds` | drivers/block/pmd.c:162-176 | When every step succeeds, init returns 0 and holds every resource. It publishes capacity `PMD_SECTORS` over the address that mapped. |
| `Lifecycle.InitNeverDoubleReleases` | drivers/block/pmd.c:178-184 | On every path, init never releases a resource it does not hold and never acquires one twice. A failed init leaves nothing held, except the queue after a disk failure. |
| `Lifecycle.PmdExit` | drivers/block/pmd.c:187-197 | Exit only releases, and releases each resource at most once: the major, the published disk, the disk reference and the queue. It never releases the mapping, and the major goes first. |
| `Lifecycle.InitThenExit` | drivers/block/pmd.c:187-197 | Exit after a successful init unregisters the major before it unpublishes the disk. It releases everything except the mapping, which stays held, so teardown is not in reverse order. |
| `Gate.PmdOpen` | drivers/block/pmd.c:83-87 | Open returns 0 and changes no state. |
| `Gate.PmdRelease` | drivers/block/pmd.c:89-103 | Release returns 0 and changes no state, both on the early return when no device is current and on the path left unfinished. |
| `Gate.GateUnchanged` | drivers/block/pmd.c:83-103 | From any state, every open and release in any sequence returns 0, and the state is the same afterwards. |
| `Gate.GateStaysIdle` | drivers/block/pmd.c:83-103 | Starting from load (`current_device = -1`), every open and release returns 0, and `current_device` stays -1. |
| `Driver.AcceptedInsideWindow` | drivers/block/pmd.c:60-72 | After a successful init, a chunk is accepted exactly when it lies inside `[0, PMD_SECTORS*512)`. Every other chunk completes with -EIO. |
| `Driver.CapacityBoundary` | drivers/block/pmd.c:170 | For the published capacity, a full last sector is accepted. A chunk one byte too long, or a chunk one sector past the capacity, is rejected. |

## Left out

- Locking (`pmd_lock`, `pmd_mutex`): the model is sequential, with one dispatch loop serving one chunk at a time.
- Logging (`printk`, `pr_err`): it has no effect on the driver's state or results.
- Real `ioremap`/`iounmap`, `register_blkdev`, `blk_init_queue`, `alloc_disk`, `add_disk`, `del_gendisk`, `put_disk` and `blk_cleanup_queue`: each is an injected success flag, or an acquire/release event in the trace. The window is a byte sequence indexed from 0, not `pmd_virt + start`.
- The host's bookkeeping between chunks: the block layer advances a request's position after each completed chunk. Here each chunk carries its own start sector, as the host presents it to the driver.
- Requests with no bytes: every request has at least one chunk, because a fetched request always has a current chunk for `blk_rq_cur_bytes`.
- `SectorToOffset`: uses unbounded integers. It does not model truncation of `pos << 9`, or of `start + len`, to the width of `unsigned long`.
- Registration conflicts between calls: whether `register_blkdev` succeeds is an input. So the model does not derive that a second init returns -EBUSY while the first still holds the major, or that init succeeds again after exit.
- The unused counters `pmd_count`, `chip_count` and `list_count`, the unused `pmd_find`, and the `#if 0` blocks around `blk_register_region`: none of them affects behaviour.
- `drivers/gpu/pvr/.../omaplfb_displayclass.c` and `sound/soc/davinci/mcasp-bt-card.c`: these are registration glue over vendor and ALSA APIs, outside the block driver.
