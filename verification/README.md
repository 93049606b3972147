# A verified model of the stateful cores of flui-core

flui-core is a retained user-interface framework. This project models, in Dafny, the parts of it where a fast or
incremental form has to agree with a simple one, and proves that it does.

- **Z-order tree** (`Geometry`, `ZOrder`, `BoundsTrees`): an R-tree in a flat list of nodes gives every inserted
  rectangle an order above all it overlaps. `ZOrder` specifies the orders by a scan over everything inserted, shows
  that they are the least possible, and the class `BoundsTree` refines the scan.
- **Keymap** (`KeyContexts`, `Keymaps`, `KeymapMeaning`): bindings with context predicates, removals and unbinds,
  resolved by precedence; an index by action. `KeymapMeaning` says what is found from keys and actions alone.
- **Key dispatch** (`KeyDispatch`, `DispatchMeaning`, `DispatchTrees`): typed keys split greedily into segments once they can no longer
  match; a tree of dispatch nodes with three parallel stacks and the reuse of a subtree of the last frame.
- **Effects and frames** (`EffectQueue`, `Frames`, `Apps`): a queue drained under scopes, deduplicated notifications,
  and seven phases that decide when a deferred callback runs. Callbacks are a tape of what they push, turn by turn;
  all tapes are covered, and so are all callbacks under which a drain ends.
- **Update guards** (`Updates`, `OrderlyUpdates`, `CalmUpdates`, `UpdateFrames`, `WindowsOffStack`, `UpdateGuards`):
  nested updates of the application and its windows, with normal and panicking exits, as an interpreter of finite
  programs over the guard fields.
- **Arena** (`Arenas`) and **profiling cursor** (`Profilers`).
- **Colours** (`Blending`, `Hsl`), over exact reals.

The application appears twice, once for each concern: `Apps.App` has its queue, notification sets and phases,
`UpdateGuards.App` its update counter, flush guard, window stack and window slots.

Code that changes fields is a class whose methods are proved equal to specification functions; what the code promises
is proved of those functions as lemmas. Panics and error returns are values.

Where code and comments disagree, the model follows the code:

- `is_superset` is documented to compare all possible contexts. For a given first predicate its yes is never wrong
  exactly when no outer contexts can undo a match of that predicate (`KeyContexts.NeverWrongIff`), as when negation
  occurs only under negation; `KeyContexts.NegationBelowBreaksSuperset` is a wrong yes.
- A removal in a base keymap hides a binding from the listing by action but never from input
  (`Keymaps.RemovalHidesFromInputIff`, `Keymaps.BaseRemovalIsInert`).
- `abort_frame_after_panic` is said to mirror `abort_update_after_panic`. The frame itself takes no update, so it gives
  back one too many exactly when it began inside one (`UpdateFrames.PanickedFrameIsBalancedIff`); the finish of a sole
  update around it then takes the counter below zero (`UpdateFrames.PanickedFrameInUpdateUnderflows`).
- Effects are said to be left to the next frame after a panic. They are when two updates or more were under way as the
  frame began or observers of a closed window panic; else the update that cleans up drains what is queued
  (`UpdateFrames.PanickedFrameKeepsTheQueueIff`, with a run in `UpdateFrames.PanickedFrameRunsIdleCallback`).
- An expectation in `apply_entity_created_effect` says that windows are off the stack when effects are flushed. Updates
  see to that, but a frame begun inside a window update flushes with that window on the stack
  (`WindowsOffStack.FramesAreOffIff`).
- A phase relies on its guard to keep updates from flushing. Outside any update, code that catches the panic of an
  update of its own clears it (`UpdateFrames.FrameOutsideUpdatesMayNest`); inside an update no code can make a flush
  nest (`UpdateFrames.NoCodeNestsIff`).
- A panic in the closing idle drain is not caught by the frame. It leaves the flush guard raised unless some update
  made by the drain's callbacks panicked (`UpdateFrames.IdlePanicKeepsGuardIff`).
- The colour contract promises clear black for every clear result, also of `Hsla::blend`; that returns the lower colour
  as it is when both are clear (`Hsl.BlendHslIsBlendIff`).
- `set_key_context` and `set_view_id` called twice on a node, and `truncate` below an active node, break the stacks;
  the contracts of these methods say exactly when.
- The comment on the branching factor says 4; the constant is 12, and the model has 12.

## Model

| member | source | states |
|---|---|---|
| `Geometry.UnionIsLeastCover` | crates/flui-core/src/geometry.rs:1124-1128 | A union covers both rectangles and lies within every rectangle that covers both. |
| `Geometry.CoverKeepsIntersection` | crates/flui-core/src/geometry.rs:904-912 | A query that meets a rectangle meets every rectangle covering it, which is what makes pruning by bounding box safe. |
| `Geometry.IntersectsSymmetric` | crates/flui-core/src/geometry.rs:904-912 | Intersection does not depend on which rectangle asks. |
| `Geometry.IntersectIffSharePoint` | crates/flui-core/src/geometry.rs:904-912 | Two rectangles with an area intersect exactly when some point lies strictly inside both, told from corner, width and height. |
| `Geometry.CoversIffContains` | crates/flui-core/src/bounds_tree.rs:43-44 | A bounding box covers a rectangle with an area exactly when every point inside the rectangle lies inside the box. |
| `Geometry.CoveringCosts` | crates/flui-core/src/geometry.rs:970-972 | A cover costs at least what it covers, and the same only if it is the same rectangle. |
| `ZOrder.MaxIntersectingIsMax` | crates/flui-core/src/bounds_tree.rs:137-187 | The list scan gives an upper bound of the orders of all intersecting bounds, attained by one of them or 0 if there is none. |
| `ZOrder.MaxIntersectingUnique` | crates/flui-core/src/bounds_tree.rs:137-187 | No other number has these two properties. |
| `ZOrder.OrderAt` | crates/flui-core/src/bounds_tree.rs:119-135 | The i-th order is one more than the largest order among the earlier bounds that meet the i-th. |
| `ZOrder.OrdersPrefix` | crates/flui-core/src/bounds_tree.rs:119-135 | Later insertions never change an order already given. |
| `ZOrder.OrderAtMostCount` | crates/flui-core/src/bounds_tree.rs:122-122 | No order exceeds the number of insertions, so a 32-bit order cannot wrap before 2^32 of them. |
| `ZOrder.LaterIsAbove` | crates/flui-core/src/bounds_tree.rs:115-119 | Of two intersecting bounds the later one is strictly above. |
| `ZOrder.OrderIsLongestChain` | crates/flui-core/src/bounds_tree.rs:119-135 | An order is the length of the longest chain of successively inserted, consecutively intersecting bounds ending there. |
| `ZOrder.OrdersAreLeast` | crates/flui-core/src/bounds_tree.rs:119-135 | Every positive labelling that puts later intersecting bounds strictly above earlier ones is at least as large everywhere. |
| `ZOrder.FirstLevelIff` | crates/flui-core/src/bounds_tree.rs:115-135 | A rectangle with an area gets order 1 exactly when it shares no inner point with any earlier one. |
| `ZOrder.LaterOverlapIsAbove` | crates/flui-core/src/bounds_tree.rs:115-119 | Of two rectangles that share an inner point the later one is strictly above. |
| `BoundsTrees.BoundsTree.Insert` | crates/flui-core/src/bounds_tree.rs:119-135 | The order returned is one more than the largest order of the earlier bounds that meet the new one, by the list scan; the tree stays consistent (rooted, unshared, 2 to 12 children, covering boxes, subtree maxima, maximum last, global maximum leaf) and records exactly the bounds inserted. |
| `BoundsTrees.BoundsTree.FindMaxOrdering` | crates/flui-core/src/bounds_tree.rs:138-187 | The pruned stack search with its fast path returns what the scan of all bounds returns, and ends. |
| `BoundsTrees.BoundsTree.VisitTop` | crates/flui-core/src/bounds_tree.rs:157-184 | One turn of the search keeps what is still unseen reachable from the stack; the stack shrinks or the set of expanded nodes grows. |
| `BoundsTrees.BoundsTree.PushImproving` | crates/flui-core/src/bounds_tree.rs:174-182 | Exactly the children that can improve the result are pushed, in order. |
| `BoundsTrees.BoundsTree.InsertLeaf` | crates/flui-core/src/bounds_tree.rs:191-350 | The tree grows by exactly one leaf, every earlier leaf unchanged, and shape and labels hold again, in all four cases. |
| `BoundsTrees.BoundsTree.PairRoot` | crates/flui-core/src/bounds_tree.rs:205-228 | A leaf root gets a new root above it and the new leaf, ordered so that the maximum is last. |
| `BoundsTrees.BoundsTree.ChooseChild` | crates/flui-core/src/bounds_tree.rs:242-256 | The first child of least union half-perimeter. |
| `BoundsTrees.BoundsTree.Descend` | crates/flui-core/src/bounds_tree.rs:230-321 | The recorded path runs from the root along cheapest children to a node whose cheapest child is a leaf, and the descent ends. |
| `BoundsTrees.BoundsTree.AttachLeaf` | crates/flui-core/src/bounds_tree.rs:259-276 | A node with room takes the new leaf, keeping its maximum last. |
| `BoundsTrees.BoundsTree.SplitChild` | crates/flui-core/src/bounds_tree.rs:277-316 | In a full node the chosen leaf is replaced by a pair of it and the new leaf, moved to the end when it carries a new maximum. |
| `BoundsTrees.BoundsTree.Propagate` | crates/flui-core/src/bounds_tree.rs:323-347 | Going up the path restores every covering box, subtree maximum and maximum-last order. |
| `BoundsTrees.BoundsTree.AddLeaf` | crates/flui-core/src/bounds_tree.rs:124-132 | Adding a leaf and updating the largest known leaf keeps everything the tree promises, with the log one entry longer. |
| `BoundsTrees.BoundsTree.Clear` | crates/flui-core/src/bounds_tree.rs:107-113 | Nothing is recorded any more. |
| `BoundsTrees.RootIsAboveAll` | crates/flui-core/src/bounds_tree.rs:22-62 | Every node can be reached from the root of a linked tree. |
| `BoundsTrees.OneParentOnePlace` | crates/flui-core/src/bounds_tree.rs:50-62 | No node is listed by two parents or twice by one: no sharing. |
| `BoundsTrees.UnderIsDeeper` | crates/flui-core/src/bounds_tree.rs:50-62 | What lies below another node is deeper, so there are no cycles. |
| `BoundsTrees.LabelsBoundSubtree` | crates/flui-core/src/bounds_tree.rs:43-46 | A node covers everything under it and its maximum is at least every order there. |
| `BoundsTrees.MaxIsAttained` | crates/flui-core/src/bounds_tree.rs:45-46 | The maximum of a node is the order of some leaf under it. |
| `BoundsTrees.ExpandFrontier` | crates/flui-core/src/bounds_tree.rs:157-184 | Replacing a node on the search stack by its children never revisits a node. |
| `BoundsTrees.RaiseKeepsLinks` | crates/flui-core/src/bounds_tree.rs:329-344 | Raising a node on the path and moving a child to the end keeps the tree shape. |
| `BoundsTrees.RaiseSettles` | crates/flui-core/src/bounds_tree.rs:325-347 | Raising a node on the path settles its own labels and leaves only the edge above unsettled. |
| `BoundsTrees.AttachKeepsLinks` | crates/flui-core/src/bounds_tree.rs:262-272 | Hanging a leaf into a node keeps a single unshared tree. |
| `BoundsTrees.SplitKeepsLinks` | crates/flui-core/src/bounds_tree.rs:278-316 | Splitting keeps a single unshared tree with 2 to 12 children each. |
| `BoundsTrees.RootPairIsLabelled` | crates/flui-core/src/bounds_tree.rs:205-228 | The new root over two leaves is linked and labelled. |
| `BoundsTrees.InsertedIsConsistent` | crates/flui-core/src/bounds_tree.rs:127-132 | With the largest leaf updated, the grown tree is consistent again. |
| `BoundsTrees.CostIsExtent` | crates/flui-core/src/bounds_tree.rs:242-256 | What a child would cost is the width and height from the outermost edge to the outermost edge of it and the new rectangle. |
| `BoundsTrees.TwoToTwelveChildren` | crates/flui-core/src/bounds_tree.rs:10-10 | In a linked tree every internal node has 2 to 12 children. |
| `KeyContexts.EvalExactly` | crates/flui-core/src/keymap/context.rs:277-324 | For each kind of predicate exactly when it holds: names and values are asked of the innermost context, a negation asks all parts of the whole stack, a descendant that the parent matches and the child matches below its outermost match. |
| `KeyContexts.GetFindsFirst` | crates/flui-core/src/keymap/context.rs:142-147 | A key has a value exactly when the first entry with the key has it. |
| `KeyContexts.SupersetIff` | crates/flui-core/src/keymap/context.rs:326-348 | The check says yes exactly when an alternative of the first predicate is demanded by the second, where an alternative that is itself an or must be all of it. |
| `KeyContexts.DepthUpToIsDeepest` | crates/flui-core/src/keymap/context.rs:260-268 | The depth found is one at which the predicate holds and no deeper one does. |
| `KeyContexts.OuterContextsKeepMatch` | crates/flui-core/src/keymap/context.rs:277-324 | Where negation occurs only under negation, more outer contexts never undo a match. |
| `KeyContexts.NeverWrongIff` | crates/flui-core/src/keymap/context.rs:326-348 | For a first predicate no yes of the check is ever wrong, for any second predicate and stack, exactly when no outer contexts can undo a match of it. |
| `KeyContexts.YesMatchesSomewhere` | crates/flui-core/src/keymap/context.rs:326-348 | Every yes of the check means that the first predicate matches wherever the second does, or on an inner part of the stack alone. |
| `KeyContexts.OutwardIsNeverUndone` | crates/flui-core/src/keymap/context.rs:277-324 | No outer contexts undo a match where negation occurs only under negation. |
| `KeyContexts.SupersetMatchesMore` | crates/flui-core/src/keymap/context.rs:326-348 | For a single pair: where the check says yes and no outer contexts can undo a match at each parent it drops, the first predicate matches wherever the second does. |
| `KeyContexts.SupersetOfFlatIsSound` | crates/flui-core/src/keymap/context.rs:326-348 | The check is sound for every second predicate without descendants. |
| `KeyContexts.SupersetOfOutwardIsSound` | crates/flui-core/src/keymap/context.rs:326-348 | The check is sound for every first predicate whose negations occur only under negation. |
| `KeyContexts.SupersetIsAtLeastAsDeep` | crates/flui-core/src/keymap/context.rs:326-348 | A sound superset, equal predicates among them, is enabled wherever the other is, at least as deep. |
| `KeyContexts.NegationBelowBreaksSuperset` | crates/flui-core/src/keymap/context.rs:326-348 | The check says yes wrongly for a negation below a descendant: a concrete pair and context stack. |
| `Keymaps.Keymap.AddBindings` | crates/flui-core/src/keymap.rs:64-79 | The list grows by the added bindings in order and the index and the disabled list stay exact. |
| `Keymaps.Keymap.Clear` | crates/flui-core/src/keymap.rs:82-87 | No bindings, an empty index, a new version. |
| `Keymaps.Keymap.BindingsForAction` | crates/flui-core/src/keymap.rs:96-135 | Through the index, exactly the action's own bindings that nothing later silences, in increasing order: a filter over the whole list. |
| `Keymaps.KeepForActionIsFilter` | crates/flui-core/src/keymap.rs:96-135 | Walking the index of the action's type equals filtering all bindings. |
| `Keymaps.Keymap.BindingsForInput` | crates/flui-core/src/keymap.rs:165-243 | The four loops compute the resolution whose meaning the lemmas below state. |
| `Keymaps.Keymap.CollectMatches` | crates/flui-core/src/keymap.rs:170-186 | Full and prefix matches of enabled bindings, latest first. |
| `Keymaps.Keymap.SelectBindings` | crates/flui-core/src/keymap.rs:192-226 | The walk over the sorted matches keeps exactly the survivors and remembers the first. |
| `Keymaps.Keymap.CollectPending` | crates/flui-core/src/keymap.rs:228-240 | The keystroke sequences left pending. |
| `Keymaps.ResolveFindsReturned` | crates/flui-core/src/keymap.rs:165-243 | A binding is returned exactly when it is real, enabled, matches the whole input, and nothing of higher precedence that applies ends the search or unbinds it by name; the result is in strictly falling (depth, index) order. |
| `Keymaps.ResolvePendingMeaning` | crates/flui-core/src/keymap.rs:228-242 | More input may match exactly when some real prefix match, not below the first binding returned, is the latest one of its keystrokes. |
| `Keymaps.SilencerOutranks` | crates/flui-core/src/keymap.rs:30-48 | Where the context check is sound, a later silencing binding applies wherever the earlier one does, and outranks it. |
| `Keymaps.SilencedIsNeverReturned` | crates/flui-core/src/keymap.rs:96-243 | What the listing by action hides for an unbind or a user's own removal is returned for no input. |
| `Keymaps.RemovalHidesFromInputIff` | crates/flui-core/src/keymap.rs:120-123 | In any keymap a later removal with sound contexts hides a binding from the listing by action; from input it hides what would be found were it a base removal exactly when it is the user's own. |
| `Keymaps.BaseRemovalIsInert` | crates/flui-core/src/keymap.rs:197-210 | In any keymap, putting any other base removal in place of a base removal changes nothing of what is found for input. |
| `Keymaps.BaseRemovalStillRuns` | crates/flui-core/src/keymap.rs:197-210 | A keymap of one binding and its base removal lists nothing for the action, yet the key still runs it. |
| `KeymapMeaning.TypedAsIsShouldMatch` | crates/flui-core/src/platform/keystroke.rs:82-113 | A typed keystroke is a target exactly by key and modifiers, or by the other character it produced with control and platform as held and nothing else. |
| `KeymapMeaning.MatchesIffBegins` | crates/flui-core/src/keymap/binding.rs:89-101 | Input matches in full exactly when it is typed, position by position, as all keystrokes of the binding, and in part when as some but not all. |
| `KeymapMeaning.PlainInputMatchesIff` | crates/flui-core/src/keymap/binding.rs:89-101 | Input that produced no characters matches in full exactly the bindings of the same length whose keys and modifiers are equal at every position. |
| `KeymapMeaning.PartMatchesIffExtends` | crates/flui-core/src/keymap/binding.rs:89-101 | Input matches in part exactly when some more keys turn it into a full match. |
| `KeymapMeaning.ResolveFindsExactly` | crates/flui-core/src/keymap.rs:165-226 | From keys, modifiers, predicates and actions alone: a binding is found exactly when the input is all of it, it applies, and no deeper binding, or later one as deep, removes it or unbinds its action from the same keys; deeper ones come first, then later ones. |
| `KeymapMeaning.ResolvePendsExactly` | crates/flui-core/src/keymap.rs:228-242 | More keys are awaited exactly when a real binding that applies begins with the input, was not added before the first found, and no later removal or unbind of the same keys that applies and begins so takes it away. |
| `KeymapMeaning.ListedExactly` | crates/flui-core/src/keymap.rs:30-48 | A binding is in the listing of its action exactly when no later removal or unbind of the same keys, without a predicate or with a superset, hides it. |
| `KeyDispatch.DispatchKey` | crates/flui-core/src/key_dispatch.rs:483-519 | Result and replays are those of the greedy split of the input and the new key; the recursion ends. |
| `KeyDispatch.FlushDispatch` | crates/flui-core/src/key_dispatch.rs:523-535 | Non-empty pending input is replayed as its greedy segments. |
| `KeyDispatch.ReplayPrefix` | crates/flui-core/src/key_dispatch.rs:538-561 | One segment is taken: the longest bound prefix, or a single key. |
| `KeyDispatch.LongestBoundIsLongest` | crates/flui-core/src/key_dispatch.rs:544-553 | No longer prefix is bound, and the one taken is, if any is. |
| `KeyDispatch.SegmentsAreGreedy` | crates/flui-core/src/key_dispatch.rs:523-561 | The segments are non-empty, make up the input, and each is greedy for what was left. |
| `KeyDispatch.SplitIsComplete` | crates/flui-core/src/key_dispatch.rs:483-519 | Replayed segments and the last part make up the input and the key; the last part waits, is bound or is the key alone; every segment is greedy. |
| `KeyDispatch.StepConservesKeys` | crates/flui-core/src/key_dispatch.rs:476-535 | One key or timeout loses and invents no keystroke. |
| `KeyDispatch.SessionConservesKeys` | crates/flui-core/src/key_dispatch.rs:476-535 | Over any session every key typed is handled once and in order or still pending, and only input that may yet match is pending. |
| `KeyDispatch.WaitingIsBounded` | crates/flui-core/src/key_dispatch.rs:492-498 | Pending input is shorter than some real binding. |
| `KeyDispatch.BindingsForAction` | crates/flui-core/src/key_dispatch.rs:401-416 | The listing for the action without what is shadowed in these contexts. |
| `KeyDispatch.FilterVisibleIsFilter` | crates/flui-core/src/key_dispatch.rs:410-446 | Exactly the listed bindings whose own keystrokes resolve first to their action, in order. |
| `KeyDispatch.HighestPrecedenceBindingForAction` | crates/flui-core/src/key_dispatch.rs:418-433 | The last binding of the full listing, if there is any. |
| `KeyDispatch.ResolvedInRange` | crates/flui-core/src/key_dispatch.rs:440-445 | What a keymap resolves to is one of its bindings. |
| `DispatchMeaning.DispatchExplained` | crates/flui-core/src/key_dispatch.rs:483-519 | What a key does, without the functions of the split: the keys typed are the segments replayed, each by its last keystroke with what all of it runs and greedy for all that was left, and a last part that waits, runs or is the key alone. |
| `DispatchMeaning.FlushExplained` | crates/flui-core/src/key_dispatch.rs:523-535 | The same for a flush, which replays all of the input. |
| `DispatchMeaning.DispatchExplaining` | crates/flui-core/src/key_dispatch.rs:483-519 | Dispatching a key in any keymap and contexts does that. |
| `DispatchMeaning.NotShadowedIff` | crates/flui-core/src/key_dispatch.rs:435-446 | A binding is not shadowed exactly when of all the bindings its keystrokes run here, one of its own action comes before every other. |
| `DispatchMeaning.VisibleExactly` | crates/flui-core/src/key_dispatch.rs:401-446 | The listing for an action holds, in the order added, exactly its bindings that nothing hides and whose keystrokes run it here. |
| `DispatchTrees.DispatchTree.PushNode` | crates/flui-core/src/key_dispatch.rs:166-176 | A new node below the active one, now active; the stacks stay projections of the path. |
| `DispatchTrees.DispatchTree.PopNode` | crates/flui-core/src/key_dispatch.rs:235-244 | The node stack loses its last node and the other two stacks exactly what it had recorded. |
| `DispatchTrees.DispatchTree.SetActiveNode` | crates/flui-core/src/key_dispatch.rs:178-213 | Whichever branch runs, the node stack becomes the root path of the node and the other stacks its projections. |
| `DispatchTrees.DispatchTree.RebuildStacks` | crates/flui-core/src/key_dispatch.rs:191-212 | The walk to the root with the three reversals gives the root path and its projections. |
| `DispatchTrees.DispatchTree.SetKeyContext` | crates/flui-core/src/key_dispatch.rs:215-218 | The context is recorded and pushed; the stacks stay in step exactly when the node had no context yet. |
| `DispatchTrees.DispatchTree.SetFocusId` | crates/flui-core/src/key_dispatch.rs:220-224 | The lookup stays exact if and only if no other focus id pointed to the node. |
| `DispatchTrees.DispatchTree.SetViewId` | crates/flui-core/src/key_dispatch.rs:226-233 | A view equal to the enclosing one is not recorded; otherwise the stacks stay in step exactly when the node had none. |
| `DispatchTrees.DispatchTree.MoveNode` | crates/flui-core/src/key_dispatch.rs:246-262 | A copy below the active node with the listeners taken from the source. |
| `DispatchTrees.DispatchTree.ReuseSubtree` | crates/flui-core/src/key_dispatch.rs:264-308 | Exactly the nodes of the range that exist are copied behind the old ones, in order, with listeners, context and focus id; those nodes and no others give up their three listener lists and nothing else; focus is reported exactly; both lookups register exactly the ids of the copies; the three stacks are as they were and the new range is as long as the old. |
| `DispatchTrees.ReuseKeepsShapeIff` | crates/flui-core/src/key_dispatch.rs:272-296 | Every node hangs off its source parent shifted by the offset of the range, range roots off the active node, if and only if the range is in preorder. |
| `DispatchTrees.ReusedParentsIff` | crates/flui-core/src/key_dispatch.rs:99-108 | In the tree after the reuse the parent of every refreshed node id is the refreshed id of the source parent if and only if the range is in preorder. |
| `DispatchTrees.MovedCarriesOver` | crates/flui-core/src/key_dispatch.rs:246-262 | Each moved node has its source's listeners, context and focus id. |
| `DispatchTrees.MovedView` | crates/flui-core/src/key_dispatch.rs:254-258 | A moved node is drawn in its source's own view or where its new parent is drawn, and records its view exactly when that differs. |
| `DispatchTrees.ReuseKeepsViews` | crates/flui-core/src/key_dispatch.rs:254-296 | Moved nodes keep their effective view within the range, or get that of the place the range now hangs in. |
| `DispatchTrees.LastViewIsEffective` | crates/flui-core/src/key_dispatch.rs:226-233 | The last view on the view stack is the effective view of the active node. |
| `DispatchTrees.PathIsParentChain` | crates/flui-core/src/key_dispatch.rs:563-572 | A root path starts at a node without parent, ends at the node, and each entry is the parent of the next. |
| `DispatchTrees.ProjectionsOfOne` | crates/flui-core/src/key_dispatch.rs:215-233 | A node contributes exactly its own context and its own view, if it has one. |
| `DispatchTrees.ProjectionsAdd` | crates/flui-core/src/key_dispatch.rs:215-233 | The contexts and views of a path are those of its parts, one after the other. |
| `DispatchTrees.DispatchTree.Truncate` | crates/flui-core/src/key_dispatch.rs:310-321 | Dropped nodes lose their ids; the stacks stay in step exactly when none of them is on the node stack. |
| `DispatchTrees.TruncationSettles` | crates/flui-core/src/key_dispatch.rs:310-321 | The same for the stacks alone. |
| `DispatchTrees.DispatchTree.DispatchPath` | crates/flui-core/src/key_dispatch.rs:563-572 | The root path of the target, or the target alone if there is no such node. |
| `DispatchTrees.DispatchTree.FocusContains` | crates/flui-core/src/key_dispatch.rs:346-361 | The same focus, or its node lies on the root path of the other. |
| `EffectQueue.DrainSplits` | crates/flui-core/src/app.rs:1585-1716 | Initial queue followed by what was enqueued meanwhile splits into what was looked at and an untouched suffix; the admissible part of the former is applied in order, the rest is left in order, nothing twice. |
| `EffectQueue.OnlyDeadlinesExhaust` | crates/flui-core/src/app.rs:1597-1605 | Only a deadline ends a drain early, after as many effects as it allows. |
| `EffectQueue.QueueGrows` | crates/flui-core/src/app.rs:1521-1537 | Pushing appends exactly the effects that are not duplicates. |
| `EffectQueue.PushesAreQueued` | crates/flui-core/src/app.rs:1521-1537 | Every effect that is no notification is in the queue as often as before and, on top, exactly as often as it was pushed. |
| `EffectQueue.NotificationsAreQueuedOnce` | crates/flui-core/src/app.rs:1523-1533 | A notification pushed is queued once, however often it is pushed, unless it is queued already. |
| `EffectQueue.DrainEnqueuesPushes` | crates/flui-core/src/app.rs:1585-1716 | A drain enqueues what releases and the callbacks it applies push, as often as they do: those of every turn taken and of no other. |
| `EffectQueue.SortingKeepsTimes` | crates/flui-core/src/app.rs:1585-1716 | Every effect looked at is applied or held back as often as it occurs, and by its placement only one of the two. |
| `EffectQueue.PushAllDeduplicates` | crates/flui-core/src/app.rs:1521-1537 | Pushes keep each notification queued at most once and exactly when its id is in the set. |
| `EffectQueue.PushAllNotifies` | crates/flui-core/src/app.rs:1521-1537 | After any pushes an id is in the set exactly when it was or was notified. |
| `EffectQueue.DrainDeduplicates` | crates/flui-core/src/app.rs:1585-1716 | Drains keep that, the restored callbacks included. |
| `EffectQueue.OneObserverPass` | crates/flui-core/src/app.rs:1761-1795 | Any number of notifications before a drain cause one observer pass, plus one for each queued anew during it. |
| `Frames.DrainSorts` | crates/flui-core/src/app.rs:1585-1716 | Without a deadline everything admissible is applied and exactly the rest is left, both in order. |
| `Frames.StepsLeave` | crates/flui-core/src/app.rs:1585-1716 | After any pushes and drains the queue is, in order, what no drain since its enqueueing took. |
| `Frames.GateIsTheOnlyOpening` | crates/flui-core/src/app.rs:3495-3513 | In a frame exactly one of the 22 steps takes callbacks of a placement other than end of update. |
| `Frames.FrameRunsAtGate` | crates/flui-core/src/app.rs:2142-2225 | What waited and what was enqueued up to the end of the gate drain runs there, in order, and no other step runs any; what comes later is left. |
| `Frames.FrameLeaves` | crates/flui-core/src/app.rs:2142-2225 | After a frame the queue holds, in order, exactly the callbacks for a next frame's start enqueued after the pre-frame entry drain and the post-frame ones enqueued after the post-frame entry drain. |
| `Frames.FramesRunOnTime` | crates/flui-core/src/app.rs:2083-2266 | Over any run of frames with pushes in between, every placement runs in its gate drain what the last frame left, what was pushed since and what came in time. |
| `Frames.PlacedCounts` | crates/flui-core/src/app.rs:2532-2569 | The callbacks of a placement among some effects are exactly those deferred to it. |
| `Frames.PushesArePlaced` | crates/flui-core/src/app.rs:1535-1537 | Pushing enqueues, of every placement, exactly the callbacks pushed, in order. |
| `Frames.PhasesInOrder` | crates/flui-core/src/app.rs:2142-2213 | The phases are pre-frame, animation, build, layout, prepaint, paint and post-frame, in this order. |
| `Frames.FrameInOrder` | crates/flui-core/src/app.rs:2142-2225 | A frame is, for the seven phases in their order, a drain scoped to the phase, the body and a drain of what is for the end of the update; then the idle drain. |
| `Frames.BodyIsEnqueued` | crates/flui-core/src/app.rs:2281-2308 | Callbacks the body of a phase defers are enqueued by it, all and in order. |
| `Frames.EndOfUpdateRunsAtExit` | crates/flui-core/src/app.rs:2281-2308 | What the body of a phase defers to the end of the update runs first of its kind, all and in order, in the exit drain of that phase. |
| `Frames.PushedCallbackRunsOrStays` | crates/flui-core/src/app.rs:2532-2569 | A callback that a phase body defers to a placement runs in the gate drain of the placement if that is still to come, and else is in the queue when the frame ends. |
| `Frames.NextFrameStartRunsNextFrame` | crates/flui-core/src/app.rs:2281-2308 | A callback for the next frame's start enqueued after the pre-frame entry drain does not run in that frame and runs in the entry drain of the next. |
| `Frames.StepsDeduplicate` | crates/flui-core/src/app.rs:1521-1716 | Every reachable queue is free of duplicate notifications. |
| `Apps.App.PushEffect` | crates/flui-core/src/app.rs:1521-1537 | The queue and the two sets become those of a deduplicating push. |
| `Apps.App.NotifyEntity` | crates/flui-core/src/app.rs:3185-3205 | One notification is queued if the entity is shown nowhere or in some window not being drawn, else none; every window showing it marks the view, and no other entity's windows change. |
| `Apps.App.InvalidateView` | crates/flui-core/src/window.rs:138-148 | The view is marked; outside drawing the window becomes dirty and a notification is pushed. |
| `Apps.App.FlushEffectsAt` | crates/flui-core/src/app.rs:1585-1716 | The loop with its carry applies and leaves what the drain does. |
| `Apps.App.RestoreCarry` | crates/flui-core/src/app.rs:1689-1696 | Pushing the carried callbacks to the front in reverse restores their order. |
| `Apps.App.PopEffect` | crates/flui-core/src/app.rs:1761-1795 | A notification may be queued again from the moment its effect is taken. |
| `Apps.App.RunPhase` | crates/flui-core/src/app.rs:2281-2308 | Entry drain, body and exit drain, with the guard restored. |
| `Apps.App.RunFrame` | crates/flui-core/src/app.rs:2083-2266 | A missing window is refused and changes nothing; else the frame's steps are played, the phase is idle and the guard restored. |
| `Updates.ExecRestores` | crates/flui-core/src/app.rs:957-996 | Any application code, with any nesting of updates and windows, deferred callbacks and panics caught or not, leaves counter, stack and taken slots as they were, and never lets a finished update flush inside another's flush. |
| `Updates.PerformRestores` | crates/flui-core/src/app.rs:957-996 | The same for each single operation. |
| `Updates.ConcludeRestores` | crates/flui-core/src/app.rs:957-976 | An update is balanced however its closure and its flush end. |
| `Updates.FinishRestores` | crates/flui-core/src/app.rs:989-996 | Finishing gives back one update, whether it flushes or not and whether the flush panics. |
| `Updates.InWindowRestores` | crates/flui-core/src/app.rs:1821-1887 | Updating a window restores the stack and every slot, whether the body panics, removes the window or returns. |
| `Updates.WindowComesBack` | crates/flui-core/src/app.rs:1838-1880 | The window is back in its slot unless it was marked removed and the body ended normally; then it is gone for good. |
| `Updates.OpeningRestores` | crates/flui-core/src/app.rs:1174-1233 | Opening a window leaves no empty slot and no id on the stack, whether it fails, panics or succeeds. |
| `Updates.OutermostUpdatesEmptyTheQueue` | crates/flui-core/src/app.rs:989-996 | An outermost update that ends normally leaves no effect queued. |
| `Updates.ExecKeepsShelter` | crates/flui-core/src/app.rs:989-996 | Where no panic of an update is caught a normal exit leaves the flush guard as it was and nothing flushes under a raised guard. |
| `Updates.PerformExtendsQueue` | crates/flui-core/src/app.rs:989-996 | Inside an update no operation drains: every callback queued before is still queued, in the same place. |
| `CalmUpdates.EveryWindowIsOpened` | crates/flui-core/src/app.rs:957-996 | Code without panics run in an outermost update opens every window it or a callback asks for, those that waited before included, each once, and leaves nothing queued. |
| `CalmUpdates.PerformServes` | crates/flui-core/src/app.rs:957-996 | Each operation without panics ends normally, and every window asked for is opened or still waits in the queue. |
| `CalmUpdates.FlushServes` | crates/flui-core/src/app.rs:1585-1716 | A flush of callbacks without panics leaves none that its scope admits, keeps those held back in front, and opens or queues every window asked for. |
| `CalmUpdates.InWindowServes` | crates/flui-core/src/app.rs:1821-1887 | The update of a window that is there runs its body and, when the window is to be removed, what observes its closing. |
| `CalmUpdates.OpenedWindowIsThereIff` | crates/flui-core/src/app.rs:1174-1233 | A new window is in its slot, not marked removed, or the slot is gone; without panics it is there exactly when creating it did not fail. |
| `CalmUpdates.FlushRunsFirst` | crates/flui-core/src/app.rs:1607-1696 | The first callback admitted runs next, those held back before it keep their order, and those behind it come before what it queues. |
| `CalmUpdates.FlushKeepsHeld` | crates/flui-core/src/app.rs:1689-1696 | Where nothing is admitted all of the queue is kept, in order. |
| `OrderlyUpdates.GuardStaysUpIff` | crates/flui-core/src/app.rs:982-996 | Whatever code does and catches, the flush guard is up afterwards exactly when it was before and every update the code made ended normally. |
| `OrderlyUpdates.PanickedDrainKeepsGuardIff` | crates/flui-core/src/app.rs:982-996 | Where no panic of an update is caught, a drain that panics leaves a raised guard up exactly when the panic comes from outside any update of the callback. |
| `WindowsOffStack.WindowsAreOff` | crates/flui-core/src/app.rs:1807-1817 | Every flush set off by code in which each window on the stack has an update around it runs its callbacks with no window on the stack. |
| `WindowsOffStack.FramesAreOffIff` | crates/flui-core/src/app.rs:1807-1817 | For all code no flush of a frame, in its phases, at its end or after a panic, runs a callback with a window on the stack exactly when the frame begins outside window updates. |
| `UpdateFrames.FrameRestores` | crates/flui-core/src/app.rs:2083-2266 | A frame restores stack and slots always, the counter unless a phase panicked, and the guard when it completes. |
| `CalmUpdates.FrameServes` | crates/flui-core/src/app.rs:2083-2266 | A frame of phases without panics completes and opens every window asked for, but for callbacks left, which all wait for a place in the next frame. |
| `UpdateFrames.PanickedFrameIsBalancedIff` | crates/flui-core/src/app.rs:2514-2523 | A panicked frame leaves the counter as it was exactly when it began with no update under way. |
| `UpdateFrames.PanickedFrameInUpdateUnderflows` | crates/flui-core/src/app.rs:2514-2523 | A frame begun inside one update whose first phase panics takes the counter to zero, and the finish of that update takes it below. |
| `UpdateFrames.PanickedFrameKeepsTheQueueIff` | crates/flui-core/src/app.rs:2226-2253 | After any panicked frame, what the phases left queued leads the queue when the closure of the cleaning update ends, and that queue stays exactly when two updates or more were under way as the frame began, observers of the closed window panicked, or it is empty. |
| `UpdateFrames.UnobservedFrameKeepsTheQueueIff` | crates/flui-core/src/app.rs:2226-2253 | Where nothing observes a closed window, what the phases left stays exactly when two updates or more were under way or nothing was left, whether the cleaning update panics or not. |
| `UpdateFrames.PanickedFrameRunsIdleCallback` | crates/flui-core/src/app.rs:2226-2253 | A frame begun outside updates that queues an idle callback and panics: the callback is run by the frame itself. |
| `UpdateFrames.PanickedFrameEmptiesTheQueue` | crates/flui-core/src/app.rs:2226-2253 | With at most one update under way the update that cleans up, ending normally, leaves nothing queued. |
| `UpdateFrames.PanickedFrameKeepsTheQueue` | crates/flui-core/src/app.rs:2226-2253 | With two or more under way everything left queued stays, and nothing is added unless window-closed observers add it. |
| `UpdateFrames.NoCodeNestsIff` | crates/flui-core/src/app.rs:2284-2308 | No code, queued or run by the frame, can make a flush nest in it exactly when the frame begins inside an update. |
| `UpdateFrames.FrameInUpdateNeverNests` | crates/flui-core/src/app.rs:2284-2308 | In a frame begun inside an update nothing nests, whatever the code catches. |
| `UpdateFrames.FrameNeverNests` | crates/flui-core/src/app.rs:2284-2308 | Where no panic of an update is caught, no update inside a frame flushes on its own, wherever it begins. |
| `UpdateFrames.CaughtPanicLetsAFlushNest` | crates/flui-core/src/app.rs:982-987 | Outside any update a phase body that catches the panic of an update makes the next update flush in the middle of the phase. |
| `UpdateFrames.FrameOutsideUpdatesMayNest` | crates/flui-core/src/app.rs:2083-2266 | A whole frame with that body. |
| `UpdateFrames.IdlePanicKeepsGuardIff` | crates/flui-core/src/app.rs:2217-2219 | After a panic in the closing idle drain the flush guard is up exactly when every update made by the drain's callbacks ended normally. |
| `UpdateFrames.UncaughtIdlePanicKeepsGuardIff` | crates/flui-core/src/app.rs:2217-2219 | Where no panic of an update is caught, exactly when the panic comes from outside any update of the callback. |
| `UpdateFrames.IdlePanicLeavesTheGuardUp` | crates/flui-core/src/app.rs:2217-2219 | A frame that ends with the guard up: its only callback panics at once in the idle drain. |
| `UpdateFrames.IdlePanicInUpdateLeavesTheGuardDown` | crates/flui-core/src/app.rs:2217-2219 | An idle drain that ends with the guard down: its callback panics in an update of its own. |
| `UpdateGuards.App.RunCode` | crates/flui-core/src/app.rs:957-996 | Any code leaves counter, stack and taken windows as they were, however it ends, and the fields as the interpreter has them. |
| `UpdateGuards.App.RunOp` | crates/flui-core/src/app.rs:957-996 | The same for each operation. |
| `UpdateGuards.App.FinishUpdate` | crates/flui-core/src/app.rs:989-996 | Flush, guard and counter as in the function. |
| `UpdateGuards.App.FlushEffects` | crates/flui-core/src/app.rs:1585-1716 | For deferred callbacks alone: the drain loop with its local carry, lost when a callback panics. |
| `UpdateGuards.App.UpdateTakenWindow` | crates/flui-core/src/app.rs:1835-1887 | Taking the window, the stack and the three exits. |
| `UpdateGuards.App.InsertWindow` | crates/flui-core/src/app.rs:1179-1231 | The new slot and its removal on failure and panic. |
| `UpdateGuards.App.BuildWindow` | crates/flui-core/src/app.rs:1185-1216 | The root view built with the id on the stack, the first draw and the filled slot. |
| `UpdateGuards.App.RunFrame` | crates/flui-core/src/app.rs:2083-2266 | The seven phases, the idle drain and the catch of a panicked phase, leaving stack and taken windows as they were. |
| `Arenas.AlignUpIsFirst` | crates/flui-core/src/arena.rs:55-57 | The aligned address is the first multiple of the alignment from the offset on. |
| `Arenas.ApartIff` | crates/flui-core/src/arena.rs:113-163 | Ranges that are not empty are apart exactly when they have no address in common. |
| `Arenas.FitsIffPlace` | crates/flui-core/src/arena.rs:55-65 | A chunk has room exactly when some aligned address past its used part leaves room for the size, and the first such address is the one taken. |
| `Arenas.Chunk.Allocate` | crates/flui-core/src/arena.rs:55-65 | Room is found exactly when the aligned value ends inside the chunk, and only then the offset moves. |
| `Arenas.Arena.Alloc` | crates/flui-core/src/arena.rs:113-163 | The value gets the first aligned address in the current chunk, else in the next, else none, and a chunk is added exactly when there is no next one; elements stay aligned, inside their chunks and apart from each other, later chunks empty. |
| `Arenas.Arena.Reserve` | crates/flui-core/src/arena.rs:126-152 | The same for the room alone; where neither chunk has room, the current one has moved on. |
| `Arenas.Arena.Store` | crates/flui-core/src/arena.rs:152-162 | A stored value overlaps no other. |
| `Arenas.Arena.Capacity` | crates/flui-core/src/arena.rs:98-100 | The memory of all chunks together, since every chunk has the same size. |
| `Arenas.Arena.Clear` | crates/flui-core/src/arena.rs:102-111 | Every element is dropped once, every box invalidated, every chunk empty again. |
| `Arenas.Arena.Validate` | crates/flui-core/src/arena.rs:180-186 | A box is accepted exactly when the arena has not been cleared since it was made. |
| `Profilers.ThreadTimings.AddTaskTiming` | crates/flui-core/src/profiler.rs:322-336 | The ring is the end of the log, where a timing of the same location and start completes the last entry in place. |
| `Profilers.ThreadTimings.TakeSnapshot` | crates/flui-core/src/profiler.rs:34-61 | What a poll sees is the end of the log that fits the ring, and how much was pushed in all. |
| `Profilers.PushedAtEnd` | crates/flui-core/src/profiler.rs:332-335 | A full ring gives up exactly its oldest entry. |
| `Profilers.CompletedInPlace` | crates/flui-core/src/profiler.rs:325-330 | Completing the last entry of the log completes the last one of the ring. |
| `Profilers.LogHoldsFinals` | crates/flui-core/src/profiler.rs:322-336 | The log of any pushes holds, in order, the last of each run of neighbouring pushes that agree in location and start. |
| `Profilers.DifferentTimingsAreKept` | crates/flui-core/src/profiler.rs:322-336 | Where no two neighbouring pushes agree in both, the log is exactly what was pushed. |
| `Profilers.CompletionChangesLastEnd` | crates/flui-core/src/profiler.rs:325-330 | A push that agrees with the last entry in both changes only its end; any other is added behind all that was there. |
| `Profilers.KeptExactly` | crates/flui-core/src/profiler.rs:332-335 | The ring holds the last entries of the log, in order, as many as fit. |
| `Profilers.ProfilingCollector.CollectUnseen` | crates/flui-core/src/profiler.rs:187-239 | The loop gives the non-empty slices in order and moves the cursors. |
| `Profilers.ProfilingCollector.CollectThread` | crates/flui-core/src/profiler.rs:198-225 | The slice past the cursor without a last entry in progress. |
| `Profilers.PolledThreadsAreIndependent` | crates/flui-core/src/profiler.rs:187-239 | Each thread polled is reported from its own cursor, once, and not at all without anything new. |
| `Profilers.UnpolledThreadsKeep` | crates/flui-core/src/profiler.rs:187-239 | A thread not polled keeps its cursor. |
| `Profilers.PollReportsRange` | crates/flui-core/src/profiler.rs:198-223 | A poll reports the log from the first unseen entry still in the ring to the end, or to the one before if the last is new and in progress. |
| `Profilers.PollReportsEntries` | crates/flui-core/src/profiler.rs:198-223 | What a poll reports carries the log entries as they are at that poll. |
| `Profilers.RunsAreAccounted` | crates/flui-core/src/profiler.rs:187-239 | Over any pushes, completions and polls of one thread each entry is reported at most once, in log order and carrying the entry, and one passed over had been evicted by that poll. |
| `Profilers.EachTimingIsReportedOnce` | crates/flui-core/src/profiler.rs:187-239 | The same for every thread over any interleaving of many threads polled in any company, whose deltas carry exactly these reports; the entries are the timings the thread pushed, the last of each run that agrees in location and start. |
| `Blending.BlendIsSourceOver` | crates/flui-core/src/color.rs:97-140 | Components stay between 0 and 1, and premultiplied the blend is linear source-over, on every path. |
| `Blending.BlendAssociates` | crates/flui-core/src/color.rs:97-140 | Blending is associative, exactly. |
| `Blending.BlendIsCanonical` | crates/flui-core/src/color.rs:101-117 | A clear result is always clear black. |
| `Blending.BlendedDrawsTheSame` | crates/flui-core/src/color.rs:1-16 | Blending layers into one colour, in any bracketing, and drawing it is drawing the layers one by one. |
| `Blending.BracketingDoesNotMatter` | crates/flui-core/src/color.rs:1-16 | The colour of a stack of layers does not depend on the bracketing. |
| `Hsl.RgbComesBack` | crates/flui-core/src/color.rs:201-229 | Any RGB colour converted to HSL and back is the same, in every sector and on every boundary. |
| `Hsl.HslComesBackIff` | crates/flui-core/src/color.rs:658-694 | An HSL colour comes back from RGB exactly when it has saturation, is neither black nor white and its hue is below a full turn, or hue and saturation are zero. |
| `Hsl.SectorsAreReference` | crates/flui-core/src/color.rs:201-229 | The sector form computes the formula of section 7.1 of CSS Color Module Level 4. |
| `Hsl.PrimariesOnWheel` | crates/flui-core/src/color.rs:201-229 | Red, green and blue are at hue 0, one third and two thirds, both ways. |
| `Hsl.ToHslIsInjective` | crates/flui-core/src/color.rs:658-694 | No two RGB colours have the same HSL. |
| `Hsl.BlendHslIsBlendIff` | crates/flui-core/src/color.rs:561-574 | Blending in HSL is blending in RGB exactly when one of the colours shows or the lower one is black. |

## Left out

- Floating point: rounding, NaN and the float remainder that can reach a full turn; coordinates and colours are reals.
- 32-bit orders and 64-bit counters are unbounded numbers; `ZOrder.OrderAtMostCount` says when an order could wrap.
- Keymaps.ShouldMatch: does not model the rule for Windows keyboards, which compares other fields.
- KeyContexts.SupersetIsAtLeastAsDeep: for a single pair the condition is sufficient; where a match of the first predicate can be undone the check is wrong for some second predicates and right for others, such as one that never matches.
- Parsing and printing of context predicates, and bindings loaded from files: text handling.
- KeyDispatch.DispatchKey: keymap and contexts stay fixed during one call, as they do in the program.
- `focus_path`, `view_path_reversed`, `available_actions` and `possible_next_bindings_for_input`: queries that would add easy members.
- DispatchTrees.DispatchTree.ReuseSubtree: listeners are numbers; what calling them does is outside.
- Observers, listeners and subscriptions: which callbacks an applied effect runs; only what they push is modelled, as a tape.
- The redraw that test builds do inside a flush, logging, profiling durations and animation ticks.
- EffectQueue.Drain: a drain whose callbacks push for ever has no tape; the panicking drain, which loses its carry, is in `Updates.Flush`.
- UpdateFrames.FrameNeverNests: for frames begun outside updates it is stated for code that catches no panic of an update; whether other code nests a flush depends on which updates panic in the run.
- UpdateGuards.App.FlushEffects: effects other than deferred callbacks, releases and deadlines are those of `Apps.App.FlushEffectsAt`, which has no panics.
- Updates.Op: `run_frame` is public, so application code may run a frame inside an update; that is `UpdateFrames.RunFrame` at any counter, not an operation inside a program.
- `shutdown`, quitting on the last window, and the window tab controller.
- Arenas.Arena.Alloc: the system allocator is the requirement that a new chunk lies apart from the others; a value whose drop panics is not modelled.
- Profilers: the conversion of instants to nanoseconds, thread names, and threads that have ended, which are simply not polled.
- Path tessellation, layout, painting, executors, platform code: outside the cores above.
