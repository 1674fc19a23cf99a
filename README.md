# vdom-framework-js: the fiber reconciler, modelled and verified

vdom-framework-js is a small React-like UI library written in TypeScript.

## What the library does

- `createElement` builds virtual-DOM descriptions.
- `render` mounts a root fiber on a container, installs event delegation and schedules an update.
- The work loop runs one unit of work per turn until the idle deadline passes. Each unit renders a component or prepares a host node, then reconciles the fiber's children against the previous tree.
- When no unit is left, `commitRoot` does four things, in order:
  1. walks the deletions;
  2. walks the new tree with `commitWork`, which removes, appends and updates host nodes;
  3. runs the pending effects;
  4. swaps the work-in-progress root in as the current root.
- The hooks `useState`, `useCallback` and `useEffect` keep per-fiber slots.
- `handleEvent` dispatches native events along the `parentNode` path to the `on<Type>` props of the fibers behind the host nodes.

## How the model is built

The whole mutable heap is one value, the `World`. It holds:

- `fiberState`;
- the fibers, in an arena indexed by id;
- the hook arrays;
- the host tree, a map from node ids to nodes with `parent`/`children` links, attributes, style, listeners and a back-reference to a fiber;
- the idle-callback timers;
- a log of the calls into user code.

The model has two layers.

- **Value layer.** Each operation of the source is a function on the `World` that does what the code does as written, with a contract. Lemmas state what the source promises about them. Where the code is evidently wrong (see "## Findings"), a corrected function stands beside the as-written one, with the intended property proved about it. The work loop, the commit and the hooks call the as-written functions.
- **Imperative layer.** Class `Engine.Runtime` has one field per `World` field. The source's loops become methods with `while`/`for` loops and invariants:
  - `scheduleUpdate`'s walk to the root;
  - the `reconcileChildren` loop;
  - `performUnitOfWork`'s climb;
  - the work loop;
  - the event path and dispatch loops;
  - `findParentDOMNode`, inside a stand-alone in-place visit of a host fiber;
  - the deletion, pending-effect and hook loops of `commitRoot`/`commitEffects`.

  Each method's `ensures` ties the new state to the value-layer function.

JavaScript values are a datatype:

- numbers are integers;
- functions and objects are compared by reference;
- `Object.is` is `Values.Same`.

User code is an oracle (`Vdom.UserCode`) passed in as a parameter. It covers component bodies, updaters, effects and handlers.

## Model

| member | source | states |
|---|---|---|
| Values.SameIsEquivalence | src/hooks.ts:52 | `Object.is` on the model's values is reflexive, symmetric and transitive |
| Values.NatToString | src/reconciler.ts:84 | `String(n)` of a natural number is a non-empty string of decimal digits |
| Values.Or | src/createElement.ts:16 | `a \|\| b` is `a` exactly when `a` is truthy, otherwise `b` |
| Values.Coalesce | src/reconciler.ts:310 | `a ?? b` is `b` exactly when `a` is null or undefined, otherwise `a` |
| Host.AppendChild | src/reconciler.ts:405-407 | appending `c` under `p` makes `c` the last child of `p` and removes it from its old parent. Every other node keeps its links. Appending an ancestor of `p` leaves the tree unchanged |
| Host.AppendChildOnce | src/reconciler.ts:405-407 | after appending a node that was a child of `p` or not in its children, the node occurs exactly once in `p`'s children, at the end |
| Host.RemoveChild | src/reconciler.ts:394 | removing a child detaches it, and the parent's children become the others in their old order (`Without`). No other field or node changes. Removing a non-child changes nothing |
| Host.WithoutAbsent | src/reconciler.ts:394 | taking out a node that is not a child leaves the children as they are |
| Host.WithoutAppend | src/reconciler.ts:394 | taking out a node works piece by piece over a concatenation, so the remaining children keep their order |
| Host.DetachedNotContained | src/reconciler.ts:392 | a node with no parent is contained by no other node |
| Fibers.InitialWorld | src/fiber.ts:4-22 | the initial `fiberState`: no fibers, no roots, no unit, not rendering, empty queues, nothing scheduled. The state is valid |
| Fibers.CreateFiber | src/fiber.ts:48-68 | a fresh fiber has the given type and key, no links, no host node, no hooks, empty props, and is a component exactly when its type is a function |
| Fibers.CreateWorkInProgress | src/fiber.ts:70-86 | the work-in-progress twin is the old alternate when there is one, otherwise a new fiber. It copies the seven fields, points back at its source and has no child or sibling. A reused alternate keeps its other fields. Every other fiber is unchanged |
| DomProps.IsStyleChanged | src/reconciler.ts:207-225 | the loop over the union of the style keys returns exactly `StyleChanged` |
| DomProps.StyleChangedCases | src/reconciler.ts:207-225 | a style counts as changed when exactly one side is falsy, and never when both are falsy. When both are present, it counts as changed iff some key of either object differs (`!==`) |
| DomProps.StyleUnchangedWhenSame | src/reconciler.ts:207-225 | a style is never changed against itself |
| DomProps.RemoveOldProps | src/reconciler.ts:117-143 | an attribute disappears exactly when its prop was removed, so `className` removes `class`. `style` removal clears the style. Handler attributes are never removed. Nothing else changes |
| DomProps.UpdateStyleProperty | src/reconciler.ts:183-193 | every style key of either object whose value differs is written to its new value, or cleared when the new value is falsy. Every other key keeps its value |
| DomProps.UpdateNewProps | src/reconciler.ts:145-181 | exactly the changed, non-handler, non-children props are written, with their string values. A changed style goes through `updateStyleProperty`. All else is kept |
| DomProps.HandlersNeverWritten | src/reconciler.ts:124-154 | diffing props never writes or removes an `on*` attribute |
| DomProps.DiffWithItselfIsIdentity | src/reconciler.ts:97-115 | diffing props against themselves leaves the node unchanged |
| DomProps.CreationWritesAttributes | src/reconciler.ts:88-91 | a new element gets every plain defined prop as an attribute with its string value |
| Schedule.FindRoot | src/renderer.ts:53-56 | the `return` chain ends at a parentless ancestor of the fiber |
| Schedule.RootUnchanged | src/renderer.ts:53-56 | the root found depends only on the `return` links |
| Schedule.CancelScheduled | src/renderer.ts:46-49 | a scheduled callback is cancelled and the handle cleared. Without one, nothing is logged |
| Schedule.StartPass | src/renderer.ts:58-62 | a pass starts on the root's twin, whose props, description and host node come from the root. The twin becomes the next unit, and a fresh idle callback is requested and stored. Queues, hooks and host tree are unchanged |
| Schedule.ScheduleUpdate | src/renderer.ts:41-63 | while rendering, nothing changes. Otherwise the fiber is marked dirty, any scheduled callback is cancelled, and a pass starts on the twin of the fiber's root with a new callback |
| Schedule.ScheduleUpdateFrame | src/renderer.ts:41-63 | outside a pass, no fiber changes but the updated fiber and the root's twin, and the updated fiber changes only in `dirty` unless it is itself the twin |
| Schedule.ScheduleWhileRenderingIsNoOp | src/renderer.ts:42-44 | while rendering, an update is a no-op, and a second update right after a first one changes nothing |
| Schedule.ScheduleUsesFreshHandle | src/renderer.ts:62 | the new callback handle differs from every handle issued before |
| Hooks.GetCurrentFiber | src/hooks.ts:26-31 | succeeds exactly inside a component, with the current fiber. Otherwise it throws "Hook can only be called inside a component" |
| Hooks.NextHookIndex | src/hooks.ts:59 | yields the fiber's hook index and increments it |
| Hooks.GetOrCreateHook | src/hooks.ts:33-47 | the fiber gets a hook array if it had none. An empty slot is filled with the initial hook and a filled one is kept. No other slot or array changes |
| Hooks.ApplyAction | src/hooks.ts:74-76 | a function action is applied to the previous value, and any other action replaces it |
| Hooks.FoldQueueAppend | src/hooks.ts:73-77 | folding a queue of updates is folding its first part, then the rest |
| Hooks.LastValueWins | src/hooks.ts:73-77 | a queue ending in a plain value yields that value |
| Hooks.UpdatersCompose | src/hooks.ts:73-77 | `n` queued increment updaters add `n` |
| Hooks.ReadState | src/hooks.ts:72-79 | a non-empty queue is folded into the value and emptied. An empty or absent queue leaves the hook as it is |
| Hooks.UseState | src/hooks.ts:55-94 | throws exactly outside a component. Inside one, it calls a function initializer (logged) on every render, fills an empty slot at the hook index with the initial state, folds the slot's queue into its value, and returns that value and a setter for the slot |
| Hooks.UseStateReadsSlot | src/hooks.ts:66-79 | `useState` returns the folded value of the slot at the current index |
| Hooks.Enqueue | src/hooks.ts:89 | the action is appended to that slot's queue, and no other slot changes |
| Hooks.SetState | src/hooks.ts:81-91 | setting the value it already has (by `Object.is`) changes nothing. Otherwise a missing queue throws, and a present one gets the action queued and an update scheduled on the fiber |
| Hooks.SetStateSameValueIsNoOp | src/hooks.ts:85-87 | setting the current value is a no-op |
| Hooks.SetStateThenUseState | src/hooks.ts:72-91 | after `setState(a)`, the next `useState` on that slot returns the action applied to the old value |
| Hooks.QueuedActionIsRead | src/hooks.ts:72-91 | the slot as left by `setState` folds to the action applied to the old value |
| Hooks.AllSame | src/hooks.ts:52 | holds iff the lists agree pointwise by `Object.is` |
| Hooks.AreDepsEqual | src/hooks.ts:49-53 | true iff both lists are present, of equal length, and pointwise `Object.is` |
| Hooks.DepsEqualReflexive | src/hooks.ts:49-53 | a list equals itself iff it is present: an absent list always differs |
| Hooks.DepsEqualSymmetric | src/hooks.ts:49-53 | the comparison is symmetric |
| Hooks.UseCallback | src/hooks.ts:96-117 | throws exactly outside a component. A new slot holds the callback. Equal deps keep the stored callback, and changed deps store the new one. It returns the stored callback |
| Hooks.CallbackMemoized | src/hooks.ts:109-116 | a later render with the same deps returns the first callback, whatever callback it passes |
| Hooks.AddPending | src/hooks.ts:138-140 | the fiber is added to the pending effects once, and the list stays duplicate-free |
| Hooks.UseEffectAsWritten | src/hooks.ts:119-144 | the as-written effect hook. Changed deps (compared with the slot's, including a new slot's own) store the effect, mark it to run and queue the fiber. Equal deps mark it not to run |
| Hooks.EffectWithDepsSkipsFirstRender | src/hooks.ts:123-143 | as written, an effect with a deps list is never scheduled on its first registration |
| Hooks.UseEffect | src/hooks.ts:119-144 | as intended: a new slot counts as changed, and otherwise as written |
| Hooks.NewEffectIsScheduled | src/hooks.ts:123-140 | a first registration stores the effect to run and queues the fiber |
| Hooks.EffectRerunsOnChangedDeps | src/hooks.ts:131-143 | on later renders the two definitions agree, and the effect is due iff its deps changed |
| Hooks.PendingEffectsStayDistinct | src/hooks.ts:138-140 | the pending-effects list never holds a fiber twice, with the hook as written and as intended |
| Hooks.CallHook | src/hooks.ts:26-31 | any hook call throws exactly outside a component and otherwise touches only the current fiber's hook state. `useEffect` is the hook as written (`Hooks.UseEffectAsWritten`) and returns nothing to the body |
| Hooks.HooksOutsideComponentThrow | src/hooks.ts:26-31 | every hook throws outside a component |
| Reconciler.NormalizeChildren | src/reconciler.ts:261-272 | strings and numbers become text descriptions (type `""`, `nodeValue`, null key), position by position. Nodes are kept |
| Reconciler.SameTypeCases | src/reconciler.ts:274-281 | no match without both sides. Two null types always match. Otherwise type and key must agree |
| Reconciler.CreateUpdatedFiberAsWritten | src/reconciler.ts:283-297 | the clone, as written: the child's props and description, the new parent, the old fiber as alternate, not dirty. All other fields, including `child` and `sibling`, come from the old fiber |
| Reconciler.CreateUpdatedFiber | src/reconciler.ts:283-297 | the clone as intended: the same, but with no `child` or `sibling` |
| Reconciler.CreateNewFiber | src/reconciler.ts:299-317 | the fresh fiber: the child's type, key (or null), props and description. It has the parent, no other links, no host node or hooks, and is a component iff its type is a function |
| Reconciler.NewFiberIsCreatedFiber | src/reconciler.ts:299-317 | `createNewFiber` is `createFiber` with the parent, props and description set |
| Reconciler.MarkForDeletion | src/reconciler.ts:319-322 | the fiber is marked dirty and appended to the deletions |
| Reconciler.AttachFiberToTree | src/reconciler.ts:324-335 | attaching keeps the state valid and changes only fiber records, as `Attached` |
| Reconciler.AttachedLinks | src/reconciler.ts:324-335 | index 0 sets the parent's `child`, and a later index with a previous sibling sets that sibling's `sibling`. No other fiber changes |
| Reconciler.Chain | src/reconciler.ts:228-249 | the old children are the `sibling` chain from `alternate.child`: linked in order, ending in no sibling |
| Reconciler.DoomedIff | src/reconciler.ts:234-258 | an old child is queued for deletion iff the loop reached it and its position deletes it |
| Reconciler.DoomedAsWritten | src/reconciler.ts:240-246 | as written, exactly the old children past the new list are queued |
| Reconciler.AfterStepsValid | src/reconciler.ts:234-258 | every turn of the loop keeps the state valid |
| Reconciler.CreateStep | src/reconciler.ts:235-257 | a turn with a child present marks the old fiber when it is doomed, creates the new fiber and attaches it |
| Reconciler.DeleteStep | src/reconciler.ts:244-249 | a turn past the last child marks the old fiber for deletion |
| Reconciler.PlanStart | src/reconciler.ts:227-232 | either loop, as written or corrected, starts at the first old child, with no previous sibling, on the normalized children |
| Reconciler.LoopEndsAtReconcileChildren | src/reconciler.ts:234-258 | running all turns of either loop from the start yields its closed form `ReconcileWith` |
| Reconciler.ReconcileChildren | src/reconciler.ts:227-259 | as intended: keeps the state valid, creates one fiber per child, and changes only fibers, ranks, ids and deletions |
| Reconciler.ReconcileChildrenAsWritten | src/reconciler.ts:227-259 | the loop as written, the one the work loop runs: keeps the state valid, creates one fiber per child, and changes only fibers, ranks, ids and deletions |
| ReconcileSpec.ReconcileKeys | src/reconciler.ts:234-258 | in either loop, the new fibers are exactly the next `n` ids, one per child, and every old fiber stays |
| ReconcileSpec.ReconcileNewFiber | src/reconciler.ts:240-255 | in either loop, the `j`-th new fiber holds the `j`-th normalized child's props and description under the parent, and is clean |
| ReconcileSpec.ReconcileNewLinks | src/reconciler.ts:252-255 | as intended: the new fibers form a sibling chain in child order that ends with no sibling, and none has a child yet |
| ReconcileSpec.ReconcileReuse | src/reconciler.ts:238-243 | in either loop, a same-type old child at the same position is cloned (alternate, host node and hooks kept). Otherwise the fiber is fresh |
| ReconcileSpec.ReconcileOldFiber | src/reconciler.ts:240-249 | in either loop, an old fiber changes only by the `dirty` mark (iff queued) and the parent's `child` link, which becomes the first new fiber when there are children |
| ReconcileSpec.ReconcileDeletions | src/reconciler.ts:240-246 | as intended: the deletions grow by exactly the old children that have no same-type child at their position, in order |
| ReconcileSpec.ReconcileDeletionsAsWritten | src/reconciler.ts:240-246 | as written, they grow by the old children past the new list only |
| ReconcileSpec.MismatchKeptAsWritten | src/reconciler.ts:240-246 | as written, a type mismatch with a child present creates a new fiber and neither queues nor marks the old one |
| ReconcileSpec.LastCloneKeepsDeletedSibling | src/reconciler.ts:288-296 | as written, with fewer new children, the last clone keeps a `sibling` link to an old fiber queued for deletion |
| ReconcileSpec.CloneKeepsOldChildAsWritten | src/reconciler.ts:288-296 | as written, a clone keeps the old fiber's `child` link |
| Work.UpdatedElement | src/reconciler.ts:97-115 | updating an element diffs its props, and records the current fiber as back-reference when there is one. Links and listeners are unchanged |
| Work.NewHostNode | src/reconciler.ts:79-95 | text content makes a text node with the rendered text. A string type makes an element with its props written. Anything else makes the "Empty node" comment. The node is detached |
| Work.CreateDOMNode | src/reconciler.ts:79-95 | the new node gets the next node id, and nothing else changes |
| Work.UpdatedNode | src/reconciler.ts:57-77 | a text node's text becomes `nodeValue ?? ""`, an element is diffed against the alternate's committed props, and a comment is unchanged |
| Work.UpdateExistingNode | src/reconciler.ts:57-67 | only the fiber's host node changes, to `UpdatedNode` |
| Work.PrepareHostNode | src/reconciler.ts:48-52 | a fiber without a host node gets a new one. One with a host node has it updated in place. Nothing is attached or detached |
| Work.NewNodeAttachesNothing | src/reconciler.ts:48-49 | creating a host node changes no parent/children link |
| Work.UpdateAttachesNothing | src/reconciler.ts:50-51 | updating a host node changes no parent/children link |
| Work.UpdateHostComponent | src/reconciler.ts:47-55 | keeps the state valid and the pass unchanged: the host node is made or updated, then the description's children are reconciled as written, one new fiber each |
| Work.StartRender | src/reconciler.ts:37-38 | rendering starts with the fiber current, its hook index at 0 and the render call logged. Its slots are unchanged |
| Work.RenderComponent | src/reconciler.ts:36-42 | the component body runs on its pending props as the current fiber, making at most the hook bound of hook calls. Only its own hook state changes, plus the call log |
| Work.UpdateFunctionComponent | src/reconciler.ts:36-45 | keeps the fiber current, the host tree unchanged and the pass unchanged: the component is rendered, then its output (one node or none) is reconciled as written |
| Work.ClimbFindsNearestSibling | src/reconciler.ts:25-31 | the climb returns the sibling of the nearest inclusive ancestor that has one, or none when no ancestor has a sibling |
| Work.NextUnitIsPreOrder | src/reconciler.ts:21-33 | the next unit is the child when there is one, otherwise the climb's answer: depth-first pre-order |
| Work.NextUnitIn | src/reconciler.ts:21-33 | the next unit is a fiber of the state |
| Work.PerformUnitOfWork | src/reconciler.ts:14-34 | a unit keeps the state valid and the pass unchanged, and returns the depth-first pre-order next fiber of the updated state |
| Work.HostUnitDescends | src/reconciler.ts:14-34 | a host fiber's unit makes the `j`-th new fiber for the `j`-th child of its description, and the next unit is the first new fiber |
| Work.ComponentUnitDescends | src/reconciler.ts:14-45 | a component that renders a node gets one new fiber for it, and the next unit is that fiber |
| CreateElement.FlatAppend | src/createElement.ts:10 | `flat()` distributes over concatenation of the arguments |
| CreateElement.PresentOnlyMembership | src/createElement.ts:10 | `filter(child != null)` keeps exactly the present children |
| CreateElement.PresentOnlyKeepsOrder | src/createElement.ts:10 | with no null or undefined children, the filter keeps all of them in order |
| CreateElement.KeyOf | src/createElement.ts:16 | the key is always null or truthy, and a truthy `props.key` is kept |
| CreateElement.CreateElement | src/createElement.ts:3-18 | the description has the type, the spread props without `children`, as children exactly the present items of the flattened arguments, and the key rule |
| CreateElement.ChildrenFollowArguments | src/createElement.ts:10 | children follow the order of the arguments |
| CreateElement.NestedFlattensOneLevel | src/createElement.ts:10 | a nested array argument gives the same children as its items passed one by one |
| CreateElement.ZeroKeyBecomesNull | src/createElement.ts:16 | a key of 0 becomes null |
| Commit.FindParentDOMNode | src/reconciler.ts:381-389 | the parent host node is found from the `return` link, and it is a node of the host tree |
| Commit.HostParentIsNearest | src/reconciler.ts:381-389 | it is the host node of the nearest ancestor that is not a component without a host node, or none when every ancestor is one |
| Commit.RemoveDOMNode | src/reconciler.ts:391-400 | with a host node inside the parent node, the node is removed from it and its back-reference deleted. Otherwise nothing changes |
| Commit.RemovedNotContained | src/reconciler.ts:391-400 | after the removal the parent no longer contains the node |
| Commit.CommittedNode | src/reconciler.ts:409-418 | a text node with a description gets the as-written commit text `String(nodeValue \|\| "")`, and a host node's back-reference points at the fiber |
| Commit.UpdateDOMNode | src/reconciler.ts:402-419 | without a parent node, nothing changes. Otherwise the node is appended under it when not already contained, then committed |
| Commit.ZeroTextErasedAsWritten | src/reconciler.ts:410 | as written, the text 0 is created as "0" and committed as "" |
| Commit.CommitTextAgreesWithRender | src/reconciler.ts:410 | the corrected commit text equals the text the render phase writes, and the text it creates for a defined value |
| Commit.Committed | src/reconciler.ts:374-375 | the committed fiber has `memoizedProps = pendingProps`, is not dirty, and is otherwise unchanged |
| Commit.CommitHost | src/reconciler.ts:366-375 | the visit of a host fiber commits exactly that fiber and keeps the host tree's ids |
| Commit.VisitOne | src/reconciler.ts:360-375 | one visit commits at most the visited fiber, and components are left as they are |
| Commit.CommitWork | src/reconciler.ts:357-379 | the walk commits exactly the fibers reachable by `child`/`sibling` from the start, and keeps every link |
| Commit.VisitedIsReach | src/reconciler.ts:357-379 | the walk visits the start and then its child's and its sibling's walks, and nothing else |
| Commit.RunEffect | src/reconciler.ts:429-440 | a due effect runs its cleanup (if any) and then the effect, stores a returned function as cleanup, and is no longer due. Any other hook is unchanged |
| Commit.RunEffects | src/reconciler.ts:428-441 | each slot of the result is the same slot with its effect run, and the length is kept |
| Commit.RunEffectsSettles | src/reconciler.ts:428-441 | afterwards no effect is due, and with none due nothing runs |
| Commit.RunEffectsIdempotent | src/reconciler.ts:428-441 | running the effects twice runs nothing the second time |
| Commit.RunEffectsCalls | src/reconciler.ts:428-441 | one effect call is logged per due effect, and nothing but effect and cleanup calls |
| Commit.CommitEffects | src/reconciler.ts:425-442 | a fiber without hooks is skipped. Otherwise its hook array is run and the calls logged, and nothing else changes |
| Commit.CommitEffectsRan | src/reconciler.ts:425-442 | committing a fiber's effects runs exactly its list |
| Commit.RunPendingEffects | src/reconciler.ts:344 | exactly the hook arrays of the pending fibers have their effects run, and the calls are logged |
| Commit.CommitDeletions | src/reconciler.ts:338 | each deletion is walked and exactly the visited fibers committed |
| Commit.CommitTree | src/reconciler.ts:340-342 | exactly the fibers reachable from the deletions and from the work-in-progress root's child are committed |
| Commit.CommitRoot | src/reconciler.ts:337-355 | the work-in-progress root becomes current, with nothing pending and not rendering. Exactly the visited fibers are committed, the pending fibers' effects have run and been logged, and the host tree keeps its ids |
| Commit.CommitRootSettlesEffects | src/reconciler.ts:344-345 | after the commit, no effect of a pending fiber is still due |
| Events.AddListener | src/eventSystem.ts:30 | a listener is registered once: `addEventListener` twice with the same handler adds nothing |
| Events.Register | src/eventSystem.ts:29-31 | every type is registered, and the existing listeners stay |
| Events.RegisterTwice | src/eventSystem.ts:29-31 | registering the same types twice changes nothing the second time |
| Events.SetupEventSystem | src/eventSystem.ts:13-32 | the container listens for the twelve supported types, and nothing else changes |
| Events.UpperAscii | src/eventSystem.ts:52 | `toUpperCase` on a character: lower-case ASCII letters are shifted up, the rest kept |
| Events.HandlerNameShape | src/eventSystem.ts:52 | the handler name is `on`, the capitalised first letter, then the rest. It is an `on*` key |
| Events.HandlerNameInjective | src/eventSystem.ts:52 | different lower-case event types get different handler names |
| Events.KeydownHandlerName | src/eventSystem.ts:52 | "keydown" looks up `onKeydown`, not `onKeyDown`, and "click" looks up `onClick` |
| Events.Path | src/eventSystem.ts:40-44 | the path starts at the target and follows `parentNode` to a parentless node |
| Events.PathIsAncestors | src/eventSystem.ts:40-44 | the path holds exactly the inclusive ancestors of the target |
| Events.GetFiberFromDOM | src/eventSystem.ts:98-100 | the back-reference of a host node, when set, is a fiber of the state |
| Events.RunHandler | src/eventSystem.ts:57-62 | calling a handler logs the call and ORs its `stopPropagation`/`preventDefault` into the event's flags. It keeps the host tree and every live setter, and it cannot fail when the handler makes no state updates |
| Events.ApplyUpdates | src/hooks.ts:81-91 | a handler's `setState` calls keep the state valid and every setter live, and no calls change nothing |
| Events.Dispatch | src/eventSystem.ts:46-65 | the dispatch calls at most one handler per node of the path and never touches the host tree. A prevented default stays prevented |
| Events.NoHandlerIsSkipped | src/eventSystem.ts:49-57 | a node without a fiber or without a truthy handler is skipped |
| Events.StopPropagationEndsDispatch | src/eventSystem.ts:58-62 | after a handler that stops propagation, no further node is visited |
| Events.HandlerRunsThenContinues | src/eventSystem.ts:57-62 | a function handler that leaves propagation running is called, its call logged after the earlier ones, and the walk goes on at the next node with the state and event it left |
| Events.NonFunctionHandlerThrows | src/eventSystem.ts:57-58 | a truthy handler that is not a function throws |
| Events.FirstHandlerCalledFirst | src/eventSystem.ts:46-65 | handlers are called target first: the first function handler on the path from a node up is the first call a successful dispatch logs |
| Events.NoHandlersNoChange | src/eventSystem.ts:46-65 | with no handler along the path, nothing changes |
| Events.HandleEvent | src/eventSystem.ts:34-66 | a null target changes nothing. Otherwise the event is dispatched along the target's path, calling at most one handler per node |
| Renderer.MountRoot | src/renderer.ts:7-12 | the first call adds a parentless root fiber on the container as current root and registers the supported events on the container |
| Renderer.FirstRenderMounts | src/renderer.ts:6-21 | the first render mounts the root on the container and starts a pass whose root twin holds the new description |
| Renderer.LaterRenderReusesRoot | src/renderer.ts:6-21 | a later render mounts nothing, leaves the host tree alone, and starts a pass on the current root's twin |
| Renderer.LaterRenderIgnoresContainer | src/renderer.ts:7-12 | once a root exists, the container argument makes no difference |
| Renderer.RenderWhileRendering | src/renderer.ts:14-20 | during a pass, render only rewrites the current root's props and starts nothing |
| Renderer.Step | src/renderer.ts:27 | one turn performs the next unit and makes its successor the next unit |
| Renderer.RunUnits | src/renderer.ts:24-32 | the loop runs no unit when none is queued, otherwise between one unit and the budget. It stops early only when no unit is left |
| Renderer.RequestCallback | src/renderer.ts:37 | a fresh idle callback is requested, and its handle is not stored |
| Renderer.AfterLoop | src/renderer.ts:34-38 | the epilogue (commit a finished pass, or request another callback) keeps the state valid |
| Renderer.WorkLoop | src/renderer.ts:23-39 | `workLoop` (the units, then the epilogue) keeps the state valid |
| Renderer.CommitExactlyWhenPassDone | src/renderer.ts:23-39 | a pass is committed exactly when no unit is left after the loop. Otherwise the roots stay and one more callback is requested |
| Renderer.NoCommitMidPass | src/renderer.ts:29-37 | work left at the deadline is not committed, and the budget was used up |
| Renderer.IdleLoopIsNoOp | src/renderer.ts:23-39 | with no pass and no unit, the loop changes nothing |
| Engine.Runtime.constructor | src/fiber.ts:13-22 | the engine starts in the initial state |
| Engine.Runtime.FindRoot | src/renderer.ts:53-56 | the `while (root.return)` loop finds the root of the value layer |
| Engine.Runtime.CreateWorkInProgress | src/fiber.ts:70-86 | updates the fibers in place exactly as the value layer's work-in-progress clone |
| Engine.Runtime.CancelScheduled | src/renderer.ts:46-49 | cancels and clears the scheduled callback in place |
| Engine.Runtime.MarkDirty | src/renderer.ts:51 | sets `dirty` on the fiber in place |
| Engine.Runtime.RequestIdleCallback | src/renderer.ts:62 | logs a request under a fresh handle and returns it |
| Engine.Runtime.StartPass | src/renderer.ts:58-62 | starts a pass in place, as `Schedule.StartPass` |
| Engine.Runtime.ScheduleUpdate | src/renderer.ts:41-63 | `scheduleUpdate` in place, as `Schedule.ScheduleUpdate` |
| Engine.Runtime.FinishCommit | src/reconciler.ts:345-354 | the final resets of `commitRoot`, in place |
| RuntimeReconcile.MarkForDeletion | src/reconciler.ts:319-322 | marks dirty and pushes onto the deletions in place |
| RuntimeReconcile.AttachFiberToTree | src/reconciler.ts:324-335 | sets the one link in place |
| RuntimeReconcile.ReconcileChildren | src/reconciler.ts:227-259 | the `while` loop over the old chain and the new children leaves exactly `Reconciler.ReconcileChildrenAsWritten`'s state |
| RuntimeReconcile.ReconcileLoop | src/reconciler.ts:234-258 | the loop runs every turn of the as-written value model in order |
| RuntimeReconcile.Turn | src/reconciler.ts:235-257 | one loop body advances the state, the old cursor and the previous sibling by one turn |
| RuntimeReconcile.CreateTurn | src/reconciler.ts:238-255 | a turn with a child clones the same-type old fiber or makes a fresh one, attaches it, and marks nothing |
| RuntimeReconcile.DeleteTurn | src/reconciler.ts:244-249 | a turn past the children marks the old fiber |
| RuntimeWork.NextUnitOfWork | src/reconciler.ts:21-33 | the climbing `while` loop returns the value layer's pre-order next unit |
| RuntimeWork.PerformUnitOfWork | src/reconciler.ts:14-34 | performs the unit in place and returns its successor, as the value layer |
| RuntimeWork.RunUnitsIsLoop | src/renderer.ts:26-32 | the recursive `RunUnits` satisfies the loop's own turn equations |
| RuntimeWork.RunIsLoop | src/renderer.ts:26-32 | any run of the loop's turns ends where `RunUnits` does |
| RuntimeWork.RunIsWorkLoop | src/renderer.ts:23-39 | the imperative loop followed by the epilogue is `workLoop` |
| RuntimeWork.RunUnits | src/renderer.ts:24-32 | the `while` loop with `shouldYield` runs units until none is left or the budget is spent |
| RuntimeWork.AfterLoop | src/renderer.ts:34-38 | commits a finished pass with `RuntimeCommit.CommitRoot`, or requests another callback |
| RuntimeWork.WorkLoop | src/renderer.ts:23-39 | `workLoop` in place, as `Renderer.WorkLoop` |
| RuntimeEvents.BuildPath | src/eventSystem.ts:40-44 | the `while (target)` loop builds exactly the `parentNode` path |
| RuntimeEvents.Dispatch | src/eventSystem.ts:46-65 | the `for` loop with `break` fails exactly when the value model does, and otherwise leaves its state and flags |
| RuntimeEvents.HandleEvent | src/eventSystem.ts:34-66 | builds the path and dispatches under the handler name, as the value model |
| RuntimeCommit.FindParentDOMNode | src/reconciler.ts:381-389 | the `while` loop up the `return` chain returns the value layer's parent host node. It is called only by `RuntimeCommit.CommitHost` |
| RuntimeCommit.CommitHost | src/reconciler.ts:366-375 | the visit of a host fiber in place, as `Commit.CommitHost`. It stands beside `RuntimeCommit.CommitRoot`, which does not call it |
| RuntimeCommit.CommitDeletions | src/reconciler.ts:338 | `deletions.forEach(commitWork)` walks each deletion in turn |
| RuntimeCommit.RunPendingEffects | src/reconciler.ts:344 | `pendingEffects.forEach(commitEffects)` commits each pending fiber's effects in turn |
| RuntimeCommit.CommitRoot | src/reconciler.ts:337-355 | `commitRoot` in place leaves exactly `Commit.CommitRoot`'s state |
| RuntimeCommit.CommitEffects | src/reconciler.ts:425-442 | the `forEach` over the hook array, slot by slot, leaves exactly `Commit.CommitEffects`'s state |
| RuntimeCommit.RunHook | src/reconciler.ts:429-440 | one due effect in place: cleanup call, effect call, new cleanup, `shouldRun = false` |
| RuntimeCommit.RunEffectsAppend | src/reconciler.ts:428-441 | running the effects of two halves of a hook array runs its whole |

## Left out

- I/O is not modelled: `console.log`, `logFiberTree` and the DOM's rendering. The timers are a log of request and cancel entries. Nothing fires them: the work loop is a function called with a budget.
- The idle deadline is a budget: `timeRemaining()` drops below 1 once `budget` units have run, and at least one unit always runs. `Date.now()` and the `setTimeout` fallback of `requestIdleCallback` are not modelled.
- Numbers are integers. NaN, -0 and floating-point values are not modelled.
- `String(n)` is modelled for integers only.
- `toUpperCase` is modelled for ASCII letters only, in `Events.UpperAscii`.
- Host text has no encoding.
- User code (component bodies, updaters, effects, cleanups, handlers) is the `Vdom.UserCode` oracle, so what it does beyond the modelled effects is not captured. A component makes at most `hookBound` hook calls per render.
- A handler's effect on state is a list of `setState` calls. A `setState` inside an effect is not modelled.
- Work.RenderComponent: the body is cut off after `hookBound` hook calls (a fuel bound). Hook calls past the bound are not modelled.
- Commit.CommitWork: the recursion carries a fuel equal to the number of fibers plus one. Link structures deeper than that (only cyclic ones can be) are walked only that deep.
- Commit.CommitWork: its contract states per-visit facts:
  - exactly the reachable fibers are committed;
  - the links are kept;
  - the host tree keeps its ids.

  It does not restate every host-tree edit of the walk. `Commit.UpdateDOMNode` and `Commit.RemoveDOMNode` state those edits for one visit.
- RuntimeCommit.CommitRoot: `commitWork`'s recursive walk updates fibers and host nodes one visit at a time in the source, but the imperative model computes the walk with `Commit.CommitWork` and assigns the result. An in-place recursive method over the whole tree was beyond the verifier's resource limits. The deletion loop, the pending-effects loop and the per-hook loop are imperative.
- The hooks (`useState`, `useCallback`, `useEffect`, `setState`) are modelled on values only. They run inside component bodies, which are part of the user-code oracle.
- Strings and numbers passed directly as a root `vnode` (not as children) are not modelled: a description is always an element record.
- The text-content branches of `isTextContent` for string or number `fiber.vnode` are not modelled. That value can only arise from `createNewFiber`'s `vnode: child` on a non-object child, and children are normalized first.
- `createElement("")` (type `""`) is modelled as a tag named `""`. No real element of that name exists.
- DOM calls that would throw are modelled as no-ops: appending an ancestor of the parent, or removing a non-child.
- On unmount, nothing is cleaned up: the source runs no effect cleanup of a removed subtree. A cleanup runs only when its effect runs again (src/reconciler.ts:428-441), and the model does the same.
- The host nodes of a deleted component's children stay attached: `removeDOMNode` only removes the deleted fiber's own node, and that is how the source behaves.
- Events.Dispatch and RuntimeEvents.Dispatch: when a handler throws, the model returns the failure without the partial state. The source keeps the updates the earlier handlers made.
- Events.SettersLive: every setter a handler calls must be one handed out by a render, so that its slot exists. A setter made up by user code cannot exist in the source either.
- RuntimeEvents.HandleEvent and Events.HandleEvent: the event type must be non-empty, as every registered type is. `handleEvent` on an empty-typed event would throw reading `eventType[0]`.
- Renderer.MountRoot: the container must be a node of the host tree; `render` on a node that is not one is not modelled.
- Renderer.RequestCallback: the handle `workLoop` gets from `requestIdleCallback` is not stored in `scheduledCallback`, as in the source. A later `scheduleUpdate` cannot cancel it.
- The later-`render` container argument is ignored, as in the source (`Renderer.LaterRenderIgnoresContainer`).
- The model keeps these behaviours of the code as written:
  - a type mismatch at an occupied position does not delete the old fiber (see "## Findings");
  - the render phase already writes attributes and text into existing host nodes, and creates new ones, before the commit;
  - children are matched by position only. A key takes part in `isSameType` at the same position, but no child is matched by key across positions.
- DomProps.UpdateNewProps: props are a map without key order. When both `class` and `className` changed, the model lets `className` win. The source walks `Object.entries(newProps)` in insertion order (src/reconciler.ts:151-175), so whichever of the two comes later wins.
- RuntimeCommit.CommitHost and RuntimeCommit.FindParentDOMNode: they are in-place versions of one host visit of `commitWork` and of `findParentDOMNode`, proved equal to `Commit.CommitHost` and `Commit.FindParentDOMNode`. `RuntimeCommit.CommitRoot` does not call them, because it assigns the value-layer walk (see RuntimeCommit.CommitRoot above).
- The logging in `updateDOMProperties` and the `hasUpdates` flags have no effect on state and are not modelled.

## Findings

The work loop, the commit and the hooks run the as-written members. Each corrected member stands beside its as-written one, with the intended property proved about it.

| source | as written | input that shows it | evidently intended | confidence | as-written member | corrected member |
|---|---|---|---|---|---|---|
| src/hooks.ts:123-133 | the initial effect hook stores `deps`, so on first registration `areDepsEqual(deps, hook.deps)` compares the list with itself, and `shouldRun` becomes false | a component's first render calling `useEffect(e, [])` or `useEffect(e, [x])`: the effect never runs on mount | a new effect slot counts as changed: it is marked to run and the fiber is queued | not executed | Hooks.UseEffectAsWritten, Hooks.EffectWithDepsSkipsFirstRender | Hooks.UseEffect, Hooks.NewEffectIsScheduled |
| src/reconciler.ts:240-246 | when a child is present and the old fiber has another type, the second branch creates the new fiber, so the third branch (`markForDeletion`) is never reached | old children `[div]`, new children `[span]`: the old `div` is not queued for deletion and its host node stays | an old fiber with no same-type child at its position is queued for deletion | not executed | ReconcileSpec.MismatchKeptAsWritten, ReconcileSpec.ReconcileDeletionsAsWritten | ReconcileSpec.ReconcileDeletions |
| src/reconciler.ts:288-296 | `createUpdatedFiber` spreads the old fiber, keeping its `child` and `sibling` | old children `[a, b]`, new children `[a]` of the same type: the clone of `a` keeps `sibling = b`, though `b` is queued for deletion. The commit then walks `b` again after deleting it | a clone starts with no child and no sibling, as `createWorkInProgress` does (src/fiber.ts:82-83) | not executed | ReconcileSpec.LastCloneKeepsDeletedSibling, ReconcileSpec.CloneKeepsOldChildAsWritten | ReconcileSpec.ReconcileNewLinks |
| src/reconciler.ts:410 | `String(nodeValue \|\| "")` turns the falsy number 0 into "" | a text child `0`: created as "0" (src/reconciler.ts:84), then committed as "" | `String(nodeValue ?? "")`, the text the render phase gives the node | not executed | Commit.CommitTextAsWritten, Commit.ZeroTextErasedAsWritten | Commit.CommitText, Commit.CommitTextAgreesWithRender |
