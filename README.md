# Select-first-ready combinator of `pasts`, modelled in Dafny

`src/select.rs` of the `pasts` crate defines `SelectFuture`, a future that
borrows a slice of futures. Each poll of it makes one pass over the slice in
ascending order and polls every task at most once. The pass stops at the
first task that answers `Ready` and finishes with `(index, value)`. If no
task is ready it answers `Pending`. The slice comes in two shapes:

- mandatory slots (`[A]`): every slot holds a task;
- optional slots (`[Option<A>]`): empty slots are skipped, and the winning
  slot is emptied in place.

`DynFuture` is a thin handle that forwards each poll to a borrowed future.

The model has three modules:

- `Tasks` (`tasks.dfy`) holds the abstract future. A task is a state machine
  `Running(pendingLeft, value) | Completed`. One poll (`Step`) answers
  `Pending` and counts `pendingLeft` down, or, at zero, answers
  `Ready(value)` and leaves the task `Completed`. Polling a `Completed` task
  is undefined in Rust. So callers must never do it: the preconditions
  `CanPass` and `CanPassSlots` demand it only of the slots a pass reaches.
  `FutureObject` is a concrete future object whose state a poll advances in
  place.
- `SelectSpec` (`select_spec.dfy`) says what one pass computes, as pure
  functions of the slice contents. `TaskPass` covers mandatory slots and
  `SlotPass` optional ones. Each returns the poll result and the slice left
  behind. The reference definitions `FirstReady` and `FirstReadySlot` give
  the lowest ready position, and the lemmas state the pass's properties in
  terms of them.
- `Select` (`select.dfy`) is the imperative model. `SelectFuture` is a
  datatype over the borrowed `array`. Its `Poll` dispatches to `PollTasks`
  or `PollSlots`, which are the source's `for` loops: a `task_id` counter,
  an in-place write per polled slot, and an early `return`. Each is proved
  to return `TaskPass`/`SlotPass` of the old slice contents and to leave
  exactly their slice. `DynFuture` is a class holding a reference to the
  borrowed `FutureObject`.

The generic future type `A` is instantiated with the abstract task state.
Polling a slot is an assignment to that array element.
`DynFuture.Poll` is proved to be exactly one `Step` of the borrowed future.
So a slice of `DynFuture`s should behave like the slice of their task
states, provided the borrowed objects are distinct, which `&mut`
guarantees. No member proves this, and a select over a slice of
`DynFuture` is not modelled directly.

## Model

| member | source | states |
|---|---|---|
| `Select.SelectFuture.Poll` | src/select.rs:36-78 | One poll of the select future changes only the borrowed slice. For a mandatory slice it returns `TaskPass` of the old contents and leaves that pass's slice; for an optional slice the same holds with `SlotPass`. |
| `Select.PollTasks` | src/select.rs:42-56 | The mandatory-slot loop returns exactly `TaskPass(old slice).poll` and leaves exactly `TaskPass(old slice).after`. |
| `Select.PollSlots` | src/select.rs:57-77 | The optional-slot loop, with the counter that moves only past occupied slots, returns exactly `SlotPass(old slice).poll` and leaves exactly `SlotPass(old slice).after`. |
| `Select.SelectTasks` | src/select.rs:104-108 | `select` on `[A]` gives the mandatory variant, which borrows that slice and nothing else. |
| `Select.SelectSlots` | src/select.rs:110-114 | `select` on `[Option<A>]` gives the optional variant, which borrows that slice and nothing else. |
| `Select.DynFuture.constructor` | src/select.rs:147-153 | `dyn_fut` wraps the very future object it is given and leaves its state untouched. |
| `Select.DynFuture.Poll` | src/select.rs:128-138 | The adapter returns exactly what one poll of the wrapped future returns. It advances that same object in place, by one `Step`. |
| `Tasks.FutureObject.Poll` | src/select.rs:46 | One poll of a running future returns `Step`'s answer and leaves `Step`'s state. |
| `SelectSpec.FirstReady` | src/select.rs:50-51 | The position the mandatory pass stops at. It is at most the length, no slot before it is ready, and the slot at it (if any) is ready. |
| `SelectSpec.TaskPass` | src/select.rs:42-56 | A mandatory pass leaves a slice of the same length, with every slot still holding a task. A reported index is below the slice length. |
| `SelectSpec.TaskPassFirstReadyWins` | src/select.rs:43-55 | A mandatory pass is `Ready` exactly when some slot is ready. It then reports the lowest ready position and that task's value, and every slot before it answered `Pending`. |
| `SelectSpec.TaskPassAfter` | src/select.rs:43-51 | Every slot before the winner was polled once and advanced one step. The winner is consumed. Slots after it were not polled and are unchanged. With no winner, every slot was polled exactly once. |
| `SelectSpec.HelloWorldExample` | src/select.rs:90-94 | With `hello` and `world` both ready on their first poll, as in the doc example, the pass gives `(0, "Hello")`, consumes `hello` and leaves `world` unpolled. The same holds when `world` needs one more poll. |
| `SelectSpec.FirstReadySlot` | src/select.rs:59-69 | The position the optional pass stops at. It is at most the length, no slot before it holds a ready task, and the slot at it (if any) does. |
| `SelectSpec.SlotPass` | src/select.rs:57-77 | An optional pass, as written, leaves a slice of the same length. A reported index is below the number of occupied slots before the call, and so below the length. |
| `SelectSpec.SlotPassFirstReadyWins` | src/select.rs:58-72 | An optional pass is `Ready` exactly when some occupied slot is ready. It then reports that lowest slot's value, and as the index the number of occupied slots before it. Every occupied slot before it answered `Pending`. |
| `SelectSpec.SlotPassAfter` | src/select.rs:58-74 | After an optional pass, occupied slots before the winner were polled once and advanced, and empty ones stay empty. The winner is vacated. Slots after it were not polled. |
| `SelectSpec.SlotPassSkipsEmpty` | src/select.rs:59 | An empty slot is never polled, never the winner, and is still empty after the pass. |
| `SelectSpec.SlotPassOccupancy` | src/select.rs:65-68 | Only the winner changes occupancy. A `Ready` pass leaves exactly one occupied slot fewer. A `Pending` pass keeps every slot occupied or empty as it was. |
| `SelectSpec.SlotIndexIsPositionIffNoGap` | src/select.rs:72 | The optional pass reports the winner's position if and only if no empty slot precedes the winner. |
| `SelectSpec.SlotPassIndexIsNotPosition` | src/select.rs:58-72 | As written, `[None, Some(ready 42)]` gives `(0, 42)`. `[Some(ready 1), Some(ready 2)]` gives `(0, 1)`, and the next pass over the same slice gives `(0, 2)`. |
| `SelectSpec.SlotPassByPosition` | src/select.rs:57-77 | The corrected optional pass. A reported index is a position below the length, that slot was occupied, and it is empty afterwards. |
| `SelectSpec.ByPositionReportsWinner` | src/select.rs:58-72 | The corrected pass reports exactly the lowest ready position and its value, or `Pending` when there is none. It leaves the same slice as the pass as written. |
| `SelectSpec.AsWrittenIndexCountsBeforePosition` | src/select.rs:72 | Both passes are `Ready` together, with the same value. The index as written is the number of occupied slots before the corrected index. |
| `SelectSpec.ByPositionNeverReportsVacatedSlot` | src/select.rs:65-68 | With positions reported, a slot that one pass reported and vacated is never reported by the next pass. |
| `SelectSpec.ByPositionExamples` | src/select.rs:57-77 | With positions reported, `[None, Some(ready 42)]` gives `(1, 42)`, and two ready slots give `(0, 1)` and then `(1, 2)`. |
| `SelectSpec.ReadyBehindWinnerWinsLater` | src/select.rs:65-68 | Tie-break: a slot that is also ready behind the winner is left unpolled. With positions reported, the next pass is then `Ready`, won by that slot or by an earlier one, and never by the vacated winner. (As written, the next index can equal the vacated position.) |

## Left out

- Pinning and aliasing (`Pin::new_unchecked`, `std::ptr::read`, `std::mem::forget`, src/select.rs:44-47, 60-64, 133-136) carry no behaviour. They are modelled as an in-place update of the array element, or of the borrowed object for `DynFuture`.
- `Context` and wakers are an opaque token passed to each poll, so they are not modelled. Wake registration and rescheduling between passes belong to the executor. The model covers one pass per call, and the lemmas over two passes apply the pass twice.
- The `Debug` impls (src/select.rs:19-26, 119-126) print fixed strings and are left out.
- The `ThreadInterrupt::block_on` executor of the doc example parks threads and is not part of this model. The example's outcome is stated on the pass itself.
- The `Select` and `DynFut` traits and the generic `A` are reduced to one concrete task type. The trait dispatch is the choice between `SelectTasks` and `SelectSlots`.
- A select over a slice of `DynFuture` handles is not modelled directly. The model does not rule out two handles borrowing the same `FutureObject`, which Rust's `&mut` forbids.
- The `async` bodies of real futures are abstracted to a count of `Pending` answers followed by a value.
- Polling a future that already returned `Ready` is undefined in Rust. The model makes it a precondition (`CanPass`, `CanPassSlots`, `Running?`) instead of modelling it.
- Select.PollSlots: follows the code as written, reporting the count of occupied slots before the winner, not its position. The corrected behaviour is `SelectSpec.SlotPassByPosition` (see Findings). The method stays as written because it models the source.
- `task_id` is a `usize` in Rust and a `nat` here. It never exceeds the slice length, so it cannot wrap.

## Findings

| source | as written | input that shows it | evidently intended | confidence | as-written member | corrected member |
|---|---|---|---|---|---|---|
| src/select.rs:72 | `task_id += 1` sits inside the `if let Some` arm, so the optional arm reports how many occupied slots precede the winner | `[Some(ready 1), Some(ready 2)]` gives `(0, 1)`, then `(0, 2)` on the next poll: index 0 twice, and the second names the wrong slot; `[None, Some(ready 42)]` gives `(0, 42)` | report the winner's position, as the mandatory arm does: `(1, 2)` and `(1, 42)`, so a vacated slot is never reported again | medium; not executed | `SelectSpec.SlotPassIndexIsNotPosition` | `SelectSpec.SlotPassByPosition` |

A caller that reads the index as a position in the slice expects `(1, 42)`
for `[None, Some(C)]`. The code gives `(0, 42)`. This model follows the code in
`PollSlots` and `SlotPass`. `SlotPassByPosition` is proved to report positions
(`ByPositionReportsWinner`, `ByPositionNeverReportsVacatedSlot`,
`ByPositionExamples`), and `AsWrittenIndexCountsBeforePosition` relates the two
indices.
