# ChatLayout in Dafny

A model of the core of ChatLayout, a `UICollectionViewLayout` subclass for chat screens, and of the
example application's view model and data source that feed it.

- `ChatLayoutEngine.ChatLayout` (chat_layout.dfy) is the layout adapter as a class. It has the same
  fields the Swift class updates in place:
  - which preparation work is pending;
  - which copy of the model (before or after a batch update) is current;
  - whether attributes are withheld;
  - the cached view size and insets;
  - the per-kind bookkeeping for animations;
  - the pending position snapshot and the one-shot "invalidate on the next bounds change" request.

  Its methods follow the layout lifecycle:
  - `Prepare` rebuilds the model from the view, or re-measures it, after committing a finished batch.
  - The queries withhold attributes between a data-source count change and the batch announcement.
  - `InvalidateLayout` schedules work and applies a pending snapshot.
  - Self-sizing answers record sizes and may move the content.
  - `TargetContentOffset` applies a pending compensation within the scroll range.
  - Batch updates and animated bounds changes switch between the two models.
- `StateController` (state_controller.dfy) holds the item and section values the adapter builds, and the
  controller's visible transitions: set a state, commit, update one element. The controller's layout
  assembly (frames and content height) is a function `assemble`. Its batch diff is a function `process`.
  Both are fixed when the layout is created.
- `ContentOffset` (content_offset.dfy) holds the scroll-offset arithmetic:
  - the largest offset;
  - the compensation clamp;
  - snapshot offsets and their restoration;
  - the rule for when a self-sizing element moves the content.
- `UpdateItems` (update_items.dfy) is the order in which batch updates reach the controller.
- `ChatViewModel` (chat_view_model.dfy) is `transformSections`, written as the source runs it:
  - a reduction into same-hour runs;
  - a per-run loop whose "last message" cursor is shared by every run;
  - a date cell put in front of each run.

  It is proved equal to a flat, per-message reference definition, and the screen's properties are proved
  about that reference.
- `ChatDataSource` (chat_data_source.dfy) holds the example's delegate answers and its choice between an
  animated update and a reload. That choice reads the item counts the collection view reports for its
  sections; `ItemCounts` stands for that report, one count per section shown.
- `ChatModel`, `LayoutTypes`, `Geometry` and `Wrappers` hold the values these share. CGFloat is `real`.

The hidden pieces are modelled as follows:

- **State controller:** StateController.swift, ItemModel.swift and SectionModel.swift are not part of this
  model. Their operations are modelled from how the layout uses them. `commitUpdates` makes the
  after-update model the model of both states and zeroes the three compensating offsets.
- **Invalidation contexts:** a fresh `ChatLayoutInvalidationContext` asks for a re-measurement and for
  nothing else.
- **Platform calls:** the platform's `super.targetContentOffset` returns the proposal.

## Model

| member | source | states |
|---|---|---|
| ChatLayoutEngine.ChatLayout.constructor | ChatLayout/Classes/Core/ChatLayout.swift:176-181 | a new layout has no view, default settings, an empty model in both states, nothing pending, every kind's animation and invalidation bookkeeping empty, and withholds attributes |
| ChatLayoutEngine.ChatLayout.VisibleBounds | ChatLayout/Classes/Core/ChatLayout.swift:57-66 | detached, the zero rectangle; attached, the rectangle starts at the left inset and at the offset plus the top inset, is the bounds' width less the left and right insets wide, and the bounds' height less the top and bottom insets high |
| ChatLayoutEngine.ChatLayout.AdjustedContentInset | ChatLayout/Classes/Core/ChatLayout.swift:109-114 | detached, the zero insets; attached, the view's adjusted content insets |
| ChatLayoutEngine.ChatLayout.LayoutFrameWidth | ChatLayout/Classes/Core/ChatLayout.swift:68-77 | detached, 0; attached, the visible width less the settings' additional left and right insets |
| ChatLayoutEngine.ChatLayout.IsUserInitiatedScrolling | ChatLayout/Classes/Core/ChatLayout.swift:911-916 | false while detached; otherwise true exactly when the view is dragging or decelerating |
| ChatLayoutEngine.ChatLayout.MaxPossibleContentOffset | ChatLayout/Classes/Core/ChatLayout.swift:903-909 | detached, the largest offset is the origin; attached, it has x 0 and the largest vertical offset for the current content height, frame height and insets, never above the top inset |
| ContentOffset.MaxPossibleContentOffsetY | ChatLayout/Classes/Core/ChatLayout.swift:907 | the larger of the negated top inset and the content bottom at the frame's bottom edge, so at least both |
| ChatLayoutEngine.ChatLayout.EstimatedItemSize | ChatLayout/Classes/Core/ChatLayout.swift:857-866 | the settings' estimate when set; otherwise zero while detached, else the layout frame's width by 40 |
| ChatLayoutEngine.ChatLayout.EstimatedSize | ChatLayout/Classes/Core/ChatLayout.swift:822-837 | the delegate's answer: automatic (or no delegate) gives the default estimate; an estimate is kept; an exact size is both estimate and measured size, and only then is there a measured size |
| ChatLayoutEngine.ChatLayout.Alignment | ChatLayout/Classes/Core/ChatLayout.swift:850-855 | full width without a delegate, otherwise the delegate's alignment for that kind and path |
| ChatLayoutEngine.ChatLayout.ShouldPresentHeader | ChatLayout/Classes/Core/ChatLayout.swift:891-893 | a section has a header exactly when a delegate exists and asks for one |
| ChatLayoutEngine.ChatLayout.ShouldPresentFooter | ChatLayout/Classes/Core/ChatLayout.swift:895-897 | a section has a footer exactly when a delegate exists and asks for one |
| ChatLayoutEngine.ChatLayout.Configuration | ChatLayout/Classes/Core/ChatLayout.swift:816-820 | a new element takes the delegate's alignment, stores the estimate as its preferred size and the delegate's exact size (if any) as its measured size, so it is measured from the start exactly when the delegate gives an exact size |
| ChatLayoutEngine.ChatLayout.ItemSizeWith | ChatLayout/Classes/Core/ChatLayout.swift:839-848 | a self-sized element gets the delegate's exact size when there is one, otherwise the size it reported |
| ChatLayoutEngine.ChatLayout.RecreateSections | ChatLayout/Classes/Core/ChatLayout.swift:260-292 | the nested loops build exactly the rebuild reference `RecreatedSections` |
| ChatLayoutEngine.ChatLayout.RecreatedSectionsMirrorTheView | ChatLayout/Classes/Core/ChatLayout.swift:261-290 | a rebuild has one section per view section and one item per view item, each configured at its own path; a section has a header or footer exactly when the delegate asks for it, configured at item 0 of that section |
| ChatLayoutEngine.ChatLayout.ResetLayoutMetrics | ChatLayout/Classes/Core/ChatLayout.swift:294-334 | the nested loops build exactly the re-measure reference `ResetSectionsUpTo` |
| ChatLayoutEngine.ChatLayout.ResetKeepsStructure | ChatLayout/Classes/Core/ChatLayout.swift:297-332 | re-measuring keeps every section and item in place with alignment and estimate, leaves none measured, and keeps a header or footer only where it existed and the delegate still asks for it, as that header or footer with its measurement forgotten |
| StateController.ItemModel.ResetSize | ChatLayout/Classes/Core/ChatLayout.swift:303-328 | a reset element forgets its measured size, keeps alignment and estimate, and its effective size becomes the estimate |
| ChatLayoutEngine.ChatLayout.ResetAttributesForPendingAnimations | ChatLayout/Classes/Core/ChatLayout.swift:868-872 | after the loop over every kind, every kind maps to an empty frame map |
| ChatLayoutEngine.ChatLayout.ResetInvalidatedAttributes | ChatLayout/Classes/Core/ChatLayout.swift:874-878 | after the loop over every kind, every kind maps to an empty path set |
| ChatLayoutEngine.ChatLayout.Prepare | ChatLayout/Classes/Core/ChatLayout.swift:241-345 | without a view or pending work nothing changes; otherwise a pending switch commits and resets the bookkeeping, the model is rebuilt from the view or re-measured in the current state on top of that commit, the insets and size are cached as pending, and no work stays pending |
| ChatLayoutEngine.ChatLayout.LayoutAttributesForElements | ChatLayout/Classes/Core/ChatLayout.swift:348-377 | nothing exactly while attributes are withheld; otherwise exactly the elements of the current state whose frames meet the rectangle |
| StateController.ElementsIn | ChatLayout/Classes/Core/ChatLayout.swift:375 | an element is in the result exactly when it has a frame in the state and that frame meets the rectangle |
| ChatLayoutEngine.ChatLayout.LayoutAttributesForItem | ChatLayout/Classes/Core/ChatLayout.swift:380-387 | a cell's frame in the current state, present exactly when attributes are not withheld and the cell exists |
| ChatLayoutEngine.ChatLayout.LayoutAttributesForSupplementaryView | ChatLayout/Classes/Core/ChatLayout.swift:390-399 | the same for headers and footers |
| ChatLayoutEngine.ChatLayout.GetContentOffsetSnapshot | ChatLayout/Classes/Core/ChatLayout.swift:195-222 | none without a view or without a candidate; otherwise the candidate with the smallest bottom (top edge) or largest bottom (bottom edge) among elements in the widened visible area below the top or above the bottom, with its distance from that edge |
| ChatLayoutEngine.ExtremalExists | ChatLayout/Classes/Core/ChatLayout.swift:206-216 | every non-empty candidate set has an element nearest to either edge, so the sorted search always finds one |
| ChatLayoutEngine.ChatLayout.SnapshotAdjustment | ChatLayout/Classes/Core/ChatLayout.swift:562-578 | an adjustment exists exactly when there is a view, the element has a frame and the content is non-empty and taller than the visible part; it moves the offset to the top-edge target or to the clamped bottom-edge target |
| ChatLayoutEngine.ChatLayout.SnapshotAdjustmentBounds | ChatLayout/Classes/Core/ChatLayout.swift:562-578 | a snapshot adjusts the offset exactly when there is a view, its element has a frame, and the content is non-empty and taller than the visible part; the top edge puts the element's top back at its distance; the bottom-edge target never lies above the top inset and, with a non-negative top inset, never past the largest allowed offset |
| ContentOffset.BottomEdgeDesiredOffsetInRange | ChatLayout/Classes/Core/ChatLayout.swift:573-574 | the bottom-edge target never lies above the top inset, and, with a non-negative top inset, never past the largest allowed offset |
| ChatLayoutEngine.ChatLayout.FreshSnapshotRestoresInPlace | ChatLayout/Classes/Core/ChatLayout.swift:195-236 | restoring a snapshot taken in the same layout moves the content by nothing |
| ContentOffset.TopSnapshotRoundTrip | ChatLayout/Classes/Core/ChatLayout.swift:568-571 | round trip: the top-edge restore of a snapshot taken at offset y gives back y |
| ContentOffset.BottomSnapshotRoundTrip | ChatLayout/Classes/Core/ChatLayout.swift:572-575 | round trip: the bottom-edge restore gives back y whenever y lies in the range the restore allows |
| ChatLayoutEngine.ChatLayout.WithSnapshotAdjustment | ChatLayout/Classes/Core/ChatLayout.swift:562-578 | a snapshot whose element can be found sets the vertical offset adjustment to the snapshot's adjustment and changes nothing else; without a snapshot, or when its element cannot be found, the context is unchanged |
| ChatLayoutEngine.ChatLayout.InvalidateLayout | ChatLayout/Classes/Core/ChatLayout.swift:534-580 | attributes are withheld exactly when the counts changed without everything being invalid; a rebuild, a width cache, an inset cache and a re-measurement each become pending exactly under their conditions, and pending work stays; the applied context carries the snapshot's adjustment |
| ChatLayoutEngine.ChatLayout.RestoreContentOffset | ChatLayout/Classes/Core/ChatLayout.swift:226-236 | the restore applies exactly the snapshot's adjustment (or none), never schedules a rebuild or re-measure, caches the width and insets again exactly when they changed or were already pending, returns attributes, and leaves no snapshot behind |
| ChatLayoutEngine.ChatLayout.ShouldInvalidateLayoutForBoundsChange | ChatLayout/Classes/Core/ChatLayout.swift:520-524 | a new layout is needed exactly when size or insets differ from the cached ones or a request is pending; the request is used up |
| ChatLayoutEngine.ChatLayout.BoundsChangeContext | ChatLayout/Classes/Core/ChatLayout.swift:527-531 | the bounds-change context neither rebuilds nor re-measures |
| ChatLayoutEngine.ChatLayout.TargetContentOffset | ChatLayout/Classes/Core/ChatLayout.swift:588-598 | with a pending compensation and a view, the proposal is moved by it and clamped into the scroll range, the compensation is used up and a bounds-change invalidation requested; otherwise the proposal is returned and nothing changes |
| ContentOffset.CompensatedOffsetInRange | ChatLayout/Classes/Core/ChatLayout.swift:591-592 | the clamp stays in range and is exact whenever the compensated offset already is in range |
| ContentOffset.TargetOffsetWithinScrollRange | ChatLayout/Classes/Core/ChatLayout.swift:589-598 | the compensated target always lies between the top inset and the largest possible offset |
| ChatLayoutEngine.ChatLayout.ShouldInvalidateLayoutForPreferred | ChatLayout/Classes/Core/ChatLayout.swift:436-451 | a self-sized element needs a new layout exactly when it is unknown, not measured yet, or its alignment changed; a changed alignment is recorded, nothing else changes |
| ChatLayoutEngine.ChatLayout.InvalidationContextForPreferred | ChatLayout/Classes/Core/ChatLayout.swift:454-517 | the new current model is exactly the old one after measuring and then aligning the element (so an unknown element leaves the model as it was); the element's size and alignment are recorded and no other element changes; the other state and everything but the current model and the total compensation stay as they were, and the current state is reassembled from its new sections; during a batch the element is marked invalidated; the content moves by exactly the self-sizing adjustment and then a bounds-change invalidation is requested; an element with a frame adds its height change to the total compensation; the context never re-measures |
| ContentOffset.SelfSizingAdjustment | ChatLayout/Classes/Core/ChatLayout.swift:474-483 | the adjustment is non-zero exactly when the height changed, the element starts above the visible bottom, and the content is kept at the bottom and would be taller than the visible part or the user is scrolling; it is then the height change |
| ContentOffset.ElementsBelowTheViewDoNotMoveContent | ChatLayout/Classes/Core/ChatLayout.swift:475-480 | an element starting below the visible bottom never moves the content |
| StateController.MeasureThenAlign | ChatLayout/Classes/Core/ChatLayout.swift:469-470 | recording a measured size and then an alignment changes exactly that element in that state, leaves the other state alone and reassembles the changed state; a missing element leaves the controller as it is |
| StateController.UpdatesAreLocal | ChatLayout/Classes/Core/ChatLayout.swift:469-470 | an alignment or size update of one element leaves every other element of the state as it was |
| StateController.UpdatesAreLocalAcrossStates | ChatLayout/Classes/Core/ChatLayout.swift:469-470 | an alignment or size update in one state leaves the other state as it was, and the changed state's geometry is assembled from its new sections |
| StateController.UpdateAlignment | ChatLayout/Classes/Core/ChatLayout.swift:445-448 | a known element gets the new alignment, a missing one leaves the controller unchanged |
| StateController.UpdatePreferredSize | ChatLayout/Classes/Core/ChatLayout.swift:469 | a known element becomes measured at the new size, a missing one leaves the controller unchanged |
| StateController.WithItemAt | ChatLayout/Classes/Core/ChatLayout.swift:469-470 | after replacing an element, its address (and the header or footer of its section) holds the new element and every other address what it held |
| StateController.Set | ChatLayout/Classes/Core/ChatLayout.swift:291 | setting one state's sections reassembles that state and leaves the other state and the offsets alone |
| StateController.Commit | ChatLayout/Classes/Core/ChatLayout.swift:253-258 | committing makes the after-update model the model of both states and zeroes the compensating offsets |
| ChatLayoutEngine.ChatLayout.PrepareForCollectionViewUpdates | ChatLayout/Classes/Core/ChatLayout.swift:603-609 | the controller processes the updates in after-update item order, the after-update model becomes current, and attributes are returned again |
| UpdateItems.SortedByAfterItemFacts | ChatLayout/Classes/Core/ChatLayout.swift:604 | the processing order is sorted by after-update item index (-1 when absent) and is a permutation of the given updates |
| UpdateItems.InsertByKeyFacts | ChatLayout/Classes/Core/ChatLayout.swift:604 | inserting into a sorted list keeps it sorted and adds exactly the new update |
| UpdateItems.DeletionsComeFirst | ChatLayout/Classes/Core/ChatLayout.swift:604 | every update without an after-update path comes before every update with one |
| UpdateItems.SortKey | ChatLayout/Classes/Core/ChatLayout.swift:604 | the key is the after-update item index when there is an after-update path, and -1 exactly when there is none |
| ChatLayoutEngine.ChatLayout.FinalizeCollectionViewUpdates | ChatLayout/Classes/Core/ChatLayout.swift:612-639 | the pending and batch compensations are zeroed; when the content is kept at the bottom, is taller than the visible part and a batch compensation exists, the content moves by it (or to the bottom when the old content fit) and the content size by the height change; re-measure and the state switch become pending, a rebuild stays as pending as it was, the width and insets are cached again exactly when they differ from the cached ones or were already pending, and attributes are returned |
| ChatLayoutEngine.ChatLayout.PrepareForAnimatedBoundsChange | ChatLayout/Classes/Core/ChatLayout.swift:404-418 | the controller processes an empty update as an animated bounds change, the after-update model becomes current, no switch stays pending, and on a width change with the content kept at the bottom and taller than the visible part the compensation grows by the height lost plus the origin's move |
| ChatLayoutEngine.ChatLayout.FinalizeAnimatedBoundsChange | ChatLayout/Classes/Core/ChatLayout.swift:421-431 | during an animated bounds change, its offsets are zeroed, the after-update model is committed and current, and the bookkeeping emptied; otherwise nothing changes |
| ChatViewModel.TransformSections | Example/ChatLayout/Chat/View/ChatViewModel.swift:92-162 | the screen is one section titled "Loading..." whose cells are exactly the per-message reference `FlatCells` of the converted messages, and empty without messages |
| ChatViewModel.SplitMessages | Example/ChatLayout/Chat/View/ChatViewModel.swift:95-116 | the reduction splits the messages into maximal same-hour runs, in order and covering every message |
| ChatViewModel.GroupStepSplits | Example/ChatLayout/Chat/View/ChatViewModel.swift:102-116 | one step of the reduction turns a split of a prefix into a split of the prefix plus the next message |
| ChatViewModel.CellsOfRuns | Example/ChatLayout/Chat/View/ChatViewModel.swift:118-159 | the per-run cells joined in order, with the cursor shared by all runs, are exactly the reference cells |
| ChatViewModel.AppendRun | Example/ChatLayout/Chat/View/ChatViewModel.swift:118-159 | appending a run's cells to the cells of the runs before it gives the reference cells up to the end of that run, with the cursor at the run's last message |
| ChatViewModel.RunCells | Example/ChatLayout/Chat/View/ChatViewModel.swift:119-151 | a run's cells are its date cell followed by each message's optional title and message cell, and the cursor ends at the run's last message |
| ChatViewModel.MessagePiece | Example/ChatLayout/Chat/View/ChatViewModel.swift:119-146 | a message contributes a title (when incoming and the sender changed) and its message cell, tailed unless the run's next message has the same sender, and becomes the cursor |
| ChatViewModel.EveryMessageOnceInOrder | Example/ChatLayout/Chat/View/ChatViewModel.swift:92-162 | the message cells show every message exactly once, in the order received |
| ChatViewModel.OneDateCellPerRun | Example/ChatLayout/Chat/View/ChatViewModel.swift:148-151 | there are exactly as many date cells as same-hour runs |
| ChatViewModel.RunStartsWithDate | Example/ChatLayout/Chat/View/ChatViewModel.swift:118-151 | each run's cells are one date cell with the run's first message's id and date, then the run's message bodies, which hold no further date cell |
| ChatViewModel.TitlesIntroduceIncomingMessages | Example/ChatLayout/Chat/View/ChatViewModel.swift:127-145 | every sender title is directly followed by the message cell of the same incoming message |
| ChatViewModel.MessageCellPosition | Example/ChatLayout/Chat/View/ChatViewModel.swift:120-145 | each message's cell carries its bubble, and the cell above it is its own sender title exactly when it is incoming and the previous message (of any run) had another sender |
| ChatViewModel.BubbleInRun | Example/ChatLayout/Chat/View/ChatViewModel.swift:120-126 | a bubble is normal exactly when the next message of the same run has the same sender, so each run's last bubble is tailed |
| ChatModel.Convert | Example/ChatLayout/Chat/View/ChatViewModel.swift:164-187 | text stays the same text, a URL keeps the cache's answer, and an image is locally stored exactly when it is a local image or cached |
| ChatModel.ToMessage | Example/ChatLayout/Chat/View/ChatViewModel.swift:96-101 | a message keeps id, date, sender and status, carries its converted data, and is outgoing exactly when user 1 sent it |
| ChatDataSource.DecideViewTransition | Example/ChatLayout/Chat/View/ChatDataSource.swift:25-29 | the update is animated exactly when section 0 exists and holds an item, a reload otherwise |
| ChatDataSource.NextTransitionAnimatedIffMessages | Example/ChatLayout/Chat/View/ChatDataSource.swift:25-29 | once the screen shows the transformed messages, the next update is animated exactly when there is at least one message |
| ChatDataSource.MessageHeight | Example/ChatLayout/Chat/View/ChatDataSource.swift:253-259 | text 36; images 120 when stored locally else 80; URLs 60 when stored locally else 36; always positive |
| ChatDataSource.SizeForItem | Example/ChatLayout/Chat/View/ChatDataSource.swift:247-273 | headers and footers size themselves; every cell gets an estimate (never an exact size) with the frame's width, a third of it for titles, 60 for the typing indicator; cells laid out full width or centred are as wide as the frame, and with a non-negative frame width every estimate has a positive height |
| ChatDataSource.AlignmentForItem | Example/ChatLayout/Chat/View/ChatDataSource.swift:275-292 | headers centred, footers trailing; message and delivery cells full width, date cells centred, titles and typing indicator leading, no cell trailing |
| ChatDataSource.AsLayoutDelegate | Example/ChatLayout/Chat/View/ChatDataSource.swift:237-293 | as the layout's delegate the data source presents no headers or footers and answers size and alignment with its own answers for the cell at the index path |
| ChatDataSource.DataSourceNeverFixesSizes | Example/ChatLayout/Chat/View/ChatDataSource.swift:247-273 | a layout driven by the data source builds no headers or footers and starts every element unmeasured, with the data source's estimate for cells and the layout's default for the rest |
| ChatDataSource.ShouldPresentHeader | Example/ChatLayout/Chat/View/ChatDataSource.swift:239-241 | no section has a header |
| ChatDataSource.ShouldPresentFooter | Example/ChatLayout/Chat/View/ChatDataSource.swift:243-245 | no section has a footer |

## Left out

- The state controller's internals (StateController.swift, SectionModel.swift, ItemModel.swift) are not part
  of this model:
  - the layout assembly and the frames it computes are the parameter `assemble`;
  - the batch diff `process(updateItems:)` is the parameter `process`;
  - `contentSize(for:)` is the assembled content height of a state.
- `StateController.ItemModel.ResetSize`: ItemModel.swift's `resetSize()` is not part of this model. The model
  takes it to drop only the measured size and to keep the alignment and the stored estimate.
  `ChatLayoutEngine.ChatLayout.ResetKeepsStructure` promises "keeps alignment and estimate" only under that
  assumption.
- `StateController.UpdatePreferredSize`, `StateController.UpdateAlignment`: the controller's
  `update(preferredSize:…)` and `update(alignment:…)` are not part of this model. The model takes each to change
  that one element, reassemble its state, and leave the compensating offsets alone. ChatLayout.swift never
  increases `batchUpdateCompensatingOffset` (it only reads it or zeroes it, at 425 and 617-631), so controller
  code outside this model must change it. In the model it changes only through the batch diff `process`.
  `ChatLayoutEngine.ChatLayout.InvalidationContextForPreferred` promises that nothing of the controller but the
  current model and the total compensation changes only under this assumption.
- `isLayoutBiggerThanVisibleBounds` is taken as "content height above the visible height". Its definition is not
  part of this model.
- The element query of the controller is taken to return the elements whose frames meet the rectangle. Its caching
  (`ignoreCache`, `resetCachedAttributes`) and the `isFinal` flag of the frame lookup are not modelled.
- The appearance and disappearance callbacks (ChatLayout.swift:644-810) are not modelled. These are
  `initialLayoutAttributesForAppearingItem`, `finalLayoutAttributesForDisappearingItem` and their
  supplementary variants. The same goes for the pending-animation frame copies updated in
  ChatLayout.swift:465 and 485-503, and for the controller's `offsetByTotalCompensation` and inserted-index
  sets. The model keeps the per-kind maps only as far as `Prepare` and the resets empty them.
- `context.invalidateItems`/`invalidateSupplementaryElements` (ChatLayout.swift:505-512) are not modelled. These
  are UIKit bookkeeping with no effect on the layout's own state.
- `ChatLayoutEngine.ChatLayout.InvalidationContextForPreferred`: the model compares the unrounded values;
  ChatLayout.swift:475-478 rounds the element's top, the visible bottom, the content height and the visible
  height before comparing.
- Calls to `super`, `setNeedsLayout`/`layoutIfNeeded`, and the `invalidateLayout()` that a change of `settings`
  triggers are not modelled. Neither are `collectionViewContentSize`, the layout-direction properties, the
  `ChatLayoutRepresentation` item count and the coder initialiser.
- `invalidateLayout(with:)` with a context that is not a `ChatLayoutInvalidationContext` (an assertion failure in
  the source) and self-sizing with attributes that are not `ChatLayoutAttributes` (handed to `super`) are not
  modelled. The model's contexts and attributes always have the layout's own types.
- `Prepare` requires that prefetching is off whenever it has work to do. The source stops with a
  precondition failure in that case.
- The example's Rx plumbing (`ChatViewModel.init`, the message timer, the random data provider), cell dequeueing
  and the image and URL caches are not modelled. The caches' answers are inputs of `ChatModel.Convert`.
- `Calendar.current.isDate(_:equalTo:toGranularity: .hour)` is the parameter `sameHour`, about which nothing is
  assumed.
- `ChatDataSource.AsLayoutDelegate`: the data source looks the cell up in its current sections
  (ChatDataSource.swift:250 and 280), which traps for an index path outside them. The model takes that lookup
  as the total function `cellAt`, so it does not model the trap.
- A title cell's text is the sender's name. The model keeps the sender rather than the text.
- `UpdateItems.SortedByAfterItemFacts`: Swift's `sorted(by:)` is not stable. The model fixes one order, an
  insertion sort that keeps equal keys in input order, and proves it sorted and a permutation. Among equal keys
  the source may use another order.
- `ChatLayoutEngine.ChatLayout.GetContentOffsetSnapshot`: when several candidates are equally near the edge, the
  source picks by the unstable sort's order. The model picks any of them and promises only that the pick is one
  of the nearest.
