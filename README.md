# Kanban board front end: drag moves, order renumbering, sequential requests

This project models, in Dafny, the parts of the kanban board front end that hold
sequential logic, and proves properties of them:

- **Board** (`board.dfy`, with `array_ops.dfy`). The App component's board is a list of
  containers (columns), each holding an ordered list of items. The model covers:
  - the lookups `findValueOfItems` and `findItemTitle`;
  - the three edits `handleDragMove` makes while an item is dragged: the same-container
    `arrayMove`, the cross-container `splice`/`splice`, and the drop into a container
    (`splice`/`push`);
  - the other state changes of the component: loading the server's board from the socket,
    `handleDragStart` remembering the dragged item, and `handleDragEnd` sending the board
    to the server and forgetting the dragged item.

  `handleDragMove` is a method of the `App` class over its `containers` state. Its two
  `if` blocks run one after the other, and the first block's early `return` skips the second.
  The method is proved equal to `DragMove`, a function on boards. Properties proved about
  `DragMove`:
  - it changes only item lists;
  - it keeps the multiset of items on the board;
  - it keeps container ids distinct;
  - over an item of the dragged item's own container, when the over id does not contain
    "container" or is no container's id, it is the same-container move
    (`DragWithinContainer`);
  - over an item of another container, under the same condition, it is the
    cross-container move (`DragAcrossContainers`);
  - over an existing container whose id does not contain "item", it is the drop into that
    container (`DropOntoContainer`);
  - an over id that contains "item" but names no held item returns early with the board
    unchanged, even if it names a container (`DragMoveOverUnknownItem`);
  - an over id containing both "item" and "container" that names a held item and an
    existing container runs both blocks: the move over the item, then the drop into the
    container (`DragMoveOverItemAndContainer`).
- **Items order** (`items_order.dfy`). The `useItemsOrder` hook. `containersData` renumbers
  every item's position to its index. The model proves:
  - the payload keeps ids and their order;
  - the payload numbers positions 0..n-1;
  - renumbering is idempotent;
  - the input positions are ignored.

  The hook is modelled as a class split at the `await`. The `isUpdating` flag is raised
  when an update starts and lowered when any update settles, whether it succeeds or fails;
  a failure is alerted. With overlapping updates the flag can be down while a request is
  still pending (`OverlappingUpdates`).
- **Sequential request runner** (`sequential_request.dfy`). `useSequentialRequest` with
  `buildCancelableFetch` and `useLatest`. Time is explicit: `Trigger` is one call of the
  trigger closure and `Settle` is the moment a request's promise settles. The runner is a
  class whose methods are proved against pure step functions. Properties proved about
  those functions:
  - an invariant: the slot is empty or holds the newest request, and every other request
    is aborted or settled;
  - at most one request is live;
  - exactly one `cancel` when the slot is full and none when it is empty;
  - `n` triggers from idle make `n - 1` cancels;
  - a superseded request's settle leaves the slot alone;
  - the pre-flight `CanceledError`.

`wrappers.dfy` holds the `Option` type.

## Model

| member | source | states |
|---|---|---|
| ArrayOps.RemoveAt | src/App.tsx:191-194 | `splice(i, 1)` leaves the array one shorter, the elements before `i` in place and those after shifted down by one; together with the removed element it is the same multiset |
| ArrayOps.InsertAt | src/App.tsx:195 | `splice(i, 0, x)` puts `x` at `i`, keeps the elements before it, shifts the rest up by one, and adds exactly `x` to the multiset |
| ArrayOps.ArrayMove | src/App.tsx:179-183 | `arrayMove(s, from, to)` is a permutation of `s` of the same length with `s[from]` at `to`; removing it from `to` gives what removing it from `from` gives |
| ArrayOps.RemoveInsertInverse | src/App.tsx:195 | removing the element just spliced in at `i` gives back the array |
| ArrayOps.InsertRemoveInverse | src/App.tsx:191-194 | splicing the removed element back in at its index gives back the array |
| Board.ItemIndex | src/App.tsx:170-175 | `items.findIndex` by id: -1 exactly when no item has the id, otherwise the first index holding it |
| Board.ContainerIndex | src/App.tsx:162-167 | `containers.findIndex` by container id: -1 exactly when no container has the id, otherwise the first such index |
| Board.HolderIndex | src/App.tsx:104-107 | the index of the first container holding an item with the id, -1 exactly when none holds it |
| Board.FindContainer | src/App.tsx:102-103 | `containers.find` by id: nothing exactly when no container has the id, otherwise the first container with it |
| Board.FindHolder | src/App.tsx:104-107 | `containers.find` with a nested `items.find`: nothing exactly when no container holds the item, otherwise the first container that does |
| Board.FindValueOfItems | src/App.tsx:101-110 | 'container' finds the first container with the id, 'item' the first container holding the item, any other type finds nothing; each lookup fails exactly when nothing matches |
| Board.FindItemTitle | src/App.tsx:112-118 | '' when no container holds the item, otherwise the title of an item with that id |
| Board.ItemTitleOfFirstHolder | src/App.tsx:112-118 | the title returned is that of the first item with the id in the first container holding one |
| Board.ContainerIndexOfItem | src/App.tsx:155-167 | the container index handleDragMove computes for an item: -1 exactly when no container holds it, otherwise the first container holding it |
| Board.FirstHolderIndex | src/App.tsx:155-175 | on a board with distinct container ids, handleDragMove's container index for an item is the first container holding it, and the item index found there is valid |
| Board.SameContainerMove | src/App.tsx:177-185 | the same-container move permutes that container's items, puts the dragged item at the over index and leaves every other container and every container field untouched; the board's items are the same multiset |
| Board.CrossContainerMove | src/App.tsx:188-196 | the cross-container move shortens the source by one (splicing the item back restores it), lengthens the target by one with the item at the over index (removing it restores the target), leaves the other containers untouched and keeps the board's items |
| Board.DropIntoContainer | src/App.tsx:229-236 | the drop puts the dragged item last in the target container; for another container the target's earlier items and the source minus the item are kept, for the same container the item moves to the end; the board's items are kept |
| Board.MoveOverItem | src/App.tsx:155-198 | the first block after its guard returns early exactly when the active or the over item is in no container; otherwise it changes only item lists and keeps the board's items |
| Board.MoveOverContainer | src/App.tsx:210-236 | the second block after its guard returns early exactly when the active item is in no container or the over container does not exist; otherwise it changes only item lists and keeps the board's items |
| Board.SortItems | src/App.tsx:147-199 | the first block returns early only under its guard; when it does not, the board it leaves differs only in item lists, has distinct ids and the same items |
| Board.DropItem | src/App.tsx:202-239 | the second block leaves a board differing only in item lists, with distinct ids and the same items |
| Board.DragMove | src/App.tsx:143-240 | one drag-move event changes only item lists, keeps container ids distinct and keeps the board's multiset of items; nothing changes when there is no over target, the over id is the active id or the active id is not an item id |
| Board.DragMoveOfUnknownItem | src/App.tsx:159 | dragging an item no container holds leaves the board unchanged |
| Board.DragMoveOverUnknownItem | src/App.tsx:159 | dragging over an item no container holds returns early with the board unchanged, even if the over id also names a container |
| Board.DragMoveOverUnknownContainer | src/App.tsx:214 | dropping onto a container id no container has leaves the board unchanged |
| Board.DragWithinContainer | src/App.tsx:177-185 | dragging over an item of the dragged item's own container, when the over id names no container, is the same-container move from its index to the over item's index |
| Board.DragAcrossContainers | src/App.tsx:188-196 | dragging over an item of another container, when the over id names no container, is the cross-container move to the over item's index |
| Board.DropOntoContainer | src/App.tsx:229-236 | dragging over an existing container whose id does not contain "item" is the drop of the item at the end of that container |
| Board.DragMoveAfterSort | src/App.tsx:143-240 | when the first block does not return early, the drag move is the second block applied to the board the first block leaves, which keeps ids distinct |
| Board.DropItemWithoutTarget | src/App.tsx:202-214 | the second block leaves the board unchanged when the over id names no container |
| Board.DropItemWithTarget | src/App.tsx:210-236 | when the dragged item is held and the over id is an existing container's, the second block does not return early and makes the drop into that container |
| Board.DragMoveOverFoundItem | src/App.tsx:147-239 | over a held item, with an over id naming no container, the drag move is exactly the first block's move |
| Board.DragMoveOverItemAndContainer | src/App.tsx:147-239 | over an id containing both words that names a held item and an existing container, both blocks run: the move over the item, then the drop into the container |
| Board.DragGesture | src/App.tsx:137-251 | a load, a drag start, one drag move and a drag end over the same target send exactly the moved board, which keeps the container ids and the items, and forget the dragged item |
| Board.App.constructor | src/App.tsx:46-47 | the board starts empty, nothing is dragged and nothing has been sent |
| Board.App.Load | src/App.tsx:56-63 | the server's board replaces the current one; the dragged item and what was sent are unchanged |
| Board.App.HandleDragStart | src/App.tsx:137-141 | the dragged item becomes the event's id; the board is unchanged |
| Board.App.HandleDragEnd | src/App.tsx:242-251 | with no over target nothing changes; otherwise the current board is sent to the server once and the dragged item is cleared; the board itself is unchanged |
| Board.App.HandleDragMove | src/App.tsx:143-240 | the new board is `DragMove` of the old one, container ids stay distinct, and the dragged item and what was sent are unchanged |
| Board.App.SortItemsBlock | src/App.tsx:146-199 | the first block returns early exactly when `SortItems` gives nothing, with the board unchanged; otherwise the board is the one `SortItems` gives |
| Board.App.DropItemBlock | src/App.tsx:201-239 | the board after the second block is the one `DropItem` gives |
| Board.SortItemsStep | src/App.tsx:146-199 | the first block's statements on a board return early exactly when `SortItems` gives nothing, and otherwise commit the board it gives, with distinct ids |
| Board.DropItemStep | src/App.tsx:201-239 | the second block's statements on a board commit the board `DropItem` gives, with distinct ids |
| ItemsOrder.RenumberItems | src/hooks/use-items-order.tsx:22-25 | the renumbered items keep their ids in order, and each position is the item's index |
| ItemsOrder.ContainersData | src/hooks/use-items-order.tsx:20-26 | the payload keeps the container ids in order and each container's item ids in order, with positions 0..n-1 |
| ItemsOrder.RenumberNumbered | src/hooks/use-items-order.tsx:22-25 | items whose positions already equal their indices are left unchanged |
| ItemsOrder.ContainersDataIdempotent | src/hooks/use-items-order.tsx:20-26 | renumbering a renumbered board gives the same payload |
| ItemsOrder.ContainersDataIgnoresPositions | src/hooks/use-items-order.tsx:24 | boards with the same ids in the same order give the same payload whatever positions they carried |
| ItemsOrder.ItemsOrderHook.constructor | src/hooks/use-items-order.tsx:15 | the flag starts false and no request has been sent |
| ItemsOrder.ItemsOrderHook.UpdateItemsOrder | src/hooks/use-items-order.tsx:17-30 | the flag goes up and one request carrying the renumbered board is added; nothing is alerted |
| ItemsOrder.ItemsOrderHook.PatchSettled | src/hooks/use-items-order.tsx:31-36 | the request is marked settled, a failure's error (and only a failure's) is alerted, and the flag goes down |
| ItemsOrder.UpdateOnce | src/hooks/use-items-order.tsx:17-37 | one update raises the flag while in flight and lowers it afterwards for success and failure alike; it alerts exactly on failure and sends the renumbered board |
| ItemsOrder.OverlappingUpdates | src/hooks/use-items-order.tsx:34-36 | with two updates in flight, the first to settle lowers the shared flag while the second is still pending |
| SequentialRequest.AtMostOneLive | src/hooks/use-sequential-request.ts:32-36 | under the runner invariant at most one request is neither aborted nor settled, and it is the one in the slot |
| SequentialRequest.UseLatestNext | src/hooks/use-sequential-request.ts:21-25 | `useLatest` overwrites the ref with the newest `requestFn` and changes nothing else |
| SequentialRequest.CancelNext | src/hooks/use-sequential-request.ts:16-18 | `cancel` aborts that request's controller, logs it, and leaves every other request and the slot alone |
| SequentialRequest.RunNext | src/hooks/use-sequential-request.ts:8-15 | `run` on an aborted request changes nothing (no call of `requestFn`); otherwise it calls `requestFn` with that request's own signal |
| SequentialRequest.Delivered | src/hooks/use-sequential-request.ts:9-14 | the caller receives `CanceledError` when `requestFn` was never called, otherwise `requestFn`'s own outcome unchanged |
| SequentialRequest.TriggerNext | src/hooks/use-sequential-request.ts:31-37 | a trigger adds exactly one request |
| SequentialRequest.SettleNext | src/hooks/use-sequential-request.ts:37-41 | a settle marks the request settled and empties the slot exactly when it still holds that request, otherwise leaves slot and log alone |
| SequentialRequest.TriggerSteps | src/hooks/use-sequential-request.ts:32-36 | one `cancel`, of the slot's request, exactly when the slot is full, before the build; the new request wraps the latest `requestFn`, fills the slot and is called; older requests are untouched apart from that abort |
| SequentialRequest.TriggerLog | src/hooks/use-sequential-request.ts:32-36 | the events a trigger logs, in order: cancel if the slot was full, build, call |
| SequentialRequest.TriggerKeepsInv | src/hooks/use-sequential-request.ts:31-37 | a trigger keeps the runner invariant |
| SequentialRequest.SettleKeepsInv | src/hooks/use-sequential-request.ts:37-41 | a settle, current or superseded, keeps the runner invariant |
| SequentialRequest.RunAfterCancel | src/hooks/use-sequential-request.ts:10-13 | a request aborted before `run` is never passed to `requestFn` and its caller gets `CanceledError` |
| SequentialRequest.TriggerCancels | src/hooks/use-sequential-request.ts:32-34 | a trigger logs one cancel when the slot is full and none when it is empty |
| SequentialRequest.TriggerAborts | src/hooks/use-sequential-request.ts:32-36 | a trigger aborts the slot's request, un-aborts nothing and puts the new request in the slot |
| SequentialRequest.TriggersKeepInv | src/hooks/use-sequential-request.ts:36 | after any number of triggers the invariant holds and the newest request is in the slot |
| SequentialRequest.TriggersAbortAllButLast | src/hooks/use-sequential-request.ts:32-34 | after `n` triggers from idle, every request but the last is aborted |
| SequentialRequest.TriggersCancel | src/hooks/use-sequential-request.ts:32-34 | `n` triggers from idle call `cancel` exactly `n - 1` times and leave the last request in the slot |
| SequentialRequest.SupersededThenCurrent | src/hooks/use-sequential-request.ts:37-41 | with A superseded by B, A's settle leaves B in the slot and A's caller still gets `requestFn`'s own outcome; B's settle empties the slot |
| SequentialRequest.SequentialRequestRunner.constructor | src/hooks/use-sequential-request.ts:29-30 | the ref holds the first `requestFn` and the slot is empty |
| SequentialRequest.SequentialRequestRunner.UseLatest | src/hooks/use-sequential-request.ts:21-24 | the runner's state becomes `UseLatestNext` of the old state |
| SequentialRequest.SequentialRequestRunner.CancelRequest | src/hooks/use-sequential-request.ts:16-18 | the runner's state becomes `CancelNext` of the old state |
| SequentialRequest.SequentialRequestRunner.RunRequest | src/hooks/use-sequential-request.ts:8-15 | the runner's state becomes `RunNext` of the old state |
| SequentialRequest.SequentialRequestRunner.Trigger | src/hooks/use-sequential-request.ts:31-37 | the runner's state becomes `TriggerNext` of the old state, keeps the invariant, and the new request wraps the current ref value and is called |
| SequentialRequest.SequentialRequestRunner.Settle | src/hooks/use-sequential-request.ts:37-41 | the runner's state becomes `SettleNext` of the old state, keeps the invariant, and the caller receives `Delivered` |

## Left out

- Network transport: the socket.io connection and its handlers, and the `axios` calls. The PATCH request's outcome is a parameter of `PatchSettled`; a request's response is a parameter of `Settle`.
- Rendering, the modals and their input fields. These are UI state with no board logic.
- `onAddContainer` and `onAddItem` (src/App.tsx:71-98): their bodies are commented out, so they change nothing.
- The call of `updateItemsOrder` in `handleDragEnd` is commented out (src/App.tsx:247), so the component calls `useItemsOrder()` (src/App.tsx:52) but never calls `updateItemsOrder`; the hook is modelled on its own.
- Board.App.Load: the server's board is taken to have distinct container ids.
- Real promises, `AbortController` and scheduling. Each is an explicit event, and a request is named by its index, which stands for its controller and its `cancel` function.
- The promise a superseded caller receives. It is `requestFn`'s own outcome, which is a stale result when `requestFn` ignores the signal. The model claims nothing more.
- `alert` and `console.log`. An alert is recorded in `alerts`; logging is omitted.
- The React hook machinery (`useState`, `useRef`, `useCallback`, re-renders). State lives in class fields.
- Board.App.HandleDragMove: container objects are values. `[...containers]` shares container objects, and the first block mutates them in place. The second block then reads those mutations, which the model reproduces by running the blocks one after the other. Aliasing between boards held elsewhere is not captured.
- Board.ContainerIndexOfItem: boards with two containers sharing an id are not modelled. handleDragMove looks a container up again by id, so such a board makes it edit the first container with that id.
- Ids that are numbers rather than strings are not modelled.
- The sortable package's source is not in the repository; its `arrayMove` is modelled as remove-then-insert, for indices inside the array.
