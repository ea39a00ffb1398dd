# Window stacking, focus and scheduling of KWin in Dafny

This project models the parts of the window manager whose behaviour comes from several loops,
recursions and mutable lists working together, and proves what they promise.

**Stacking.** `Workspace` keeps an unconstrained stacking order, edited by raising, lowering,
restacking and session restore. From it the stacking order shown on screen is built in three steps:
windows are sorted into layers (with X11 group members promoted next to an active window of their
group), windows that no lead claims are put on the stack, and transients are re-attached above their
leads by a recursion that reads the *previous* stacking order. Recomputation is deferred while a
`StackingUpdatesBlocker` is held.

The heart of the proofs is `Transients.Pile`, a closed form of the recursion `append_children`
that holds for every acyclic lead graph, including windows with several leads. From it follow, for
every acyclic lead graph: no window is lost or invented; every restacked transient stands above its
leads; the assertion that a window is not on the stack twice at layers.cpp:689 never fails; and the
result repeats no window exactly when a condition on reachability among siblings holds (`SingleUse`).
Asked of the tree of every window and of all previous orders, that condition is one on the lead graph
alone (`Trees.ShallowCondition`). It holds on *tidy* graphs: forests, where in addition a window without
restacked children may be shared by several loose windows. Over every run of operations, on every acyclic
graph, the unconstrained order stays a permutation and the stacking order has the same windows with
transients above their leads; on tidy graphs it is moreover the settled order of the current unconstrained
one, and restacking is idempotent.

**Other state machines.** The focus chains, the dispatch of paint hooks along the effect chain with
arbitrary re-entrance, the effect load queue, swipe gesture recognition, repaint scheduling of the X11
compositor with its two-bucket paint statistic, and the packed ids of the debug console model.

## Layout

| file | content |
|---|---|
| Seqs.dfy | list operations: selection, order, multiplicity |
| Windows.dfy | window attributes, layers, the rules that keep transients above their leads |
| Transients.dfy | `ensureStackingOrder`, `append_children`, the pile |
| Trees.dfy, Fixpoint.dfy | tidy lead graphs, preorder walks, idempotence |
| Layers.dfy, Stacking.dfy | sorting into layers, `constrainedStackingOrder` as a whole |
| Restacking.dfy, Desk.dfy | the editing operations and the state machine, on values |
| Workspace.dfy | the object that takes these steps in place |
| FocusChain.dfy | focus chains |
| EffectLoadQueue.dfy, EffectChain.dfy | effect loading and dispatch |
| Gestures.dfy | swipe gestures |
| Compositor.dfy, PaintStatistics.dfy | repaint scheduling, paint durations |
| DebugConsole.dfy | index ids |

`Windows.Scene` holds all attributes the stacking engine reads: leads and children are mutual inverses
without repeats (win/transient.cpp:74-110), and a rank witnesses that the lead graph has no cycle (as
win/x11/transient.h:171-195 takes care of). `Closed` asks that leads and children of managed windows are
managed. `sameClient` stands for `win::belong_to_same_client` and is not assumed reflexive.
Methods that change state are proved equal to functions on values (`View() == ...`); the lemmas
are about these functions.

## Where the code differs from its documentation, or from what one expects

- A window restacked above two leads, one of which is itself a restacked child of the other, is put
  on the stack twice if the inner lead comes first in the previous order (`Stacking.DiamondRepeats`,
  concretely `Stacking.DiamondFails`): `remove_all(list, child)` at layers.cpp:666 reaches the list of the
  current level only. `Stacking.PermutationCondition` gives the exact condition. Two group transients of one
  X11 group can form such a graph with their main window (win/x11/transient.h:184-190).
- A transient kept above its lead only because it is annexed, such as an annexed splash over a dialog, is in
  general no longer kept there once it is closed; `Windows.ClosingChangesRule` says when closing changes the rule.
- Native windows share the key "no group" with X11 windows that have no group: after such an X11 window
  in the active layer they are promoted too (`Layers.UngroupedWindowPromotesNative`).
- Promotion lifts every layer above "below" to the active layer, and so also takes windows of the three
  layers above the active one down into it (`Layers.PromotionRule`).
- `raise_window` follows only first leads above the direct leads, so raising a window need not lift its tree:
  `Restacking.RaiseLeavesTree` is a scene in which the raised window stays below an unrelated one.
  `Restacking.RaiseLiftsTree` gives the exact condition: the root of the tree was raised too or stood above
  already, and `Restacking.RaisedByFirstLeads` says which windows are raised.
- In `restack` the assignment of a null target (layers.cpp:547) cannot happen.
- The comment at focuschain.h:72-74 says that a plain update puts the active window first and any other
  window directly after the active one; the code inserts a window only if the chain does not hold it yet.
  `FocusChains.UpdateLeavesInPlace` shows chains that stay as they are; `FocusChains.InsertedPlace` says
  exactly when the window ends in the documented place.
- `paintDesktop` clears its "rendering" flag on return, also when an outer `paintDesktop` still runs
  (`EffectChain.NestedDesktopClearsFlag`). The flag is right throughout exactly if no desktop is painted from
  within the painting of a desktop (`EffectChain.FlagCondition`).
- A diagonal swipe cancels the active gestures but keeps the updates, so a gesture started next is credited
  with movement from before its start (`Gestures.StaleUpdatesTrigger`). A trigger counts the movement since
  the start exactly if the updates kept at the start sum to nothing (`Gestures.RunExact`), and a start made
  otherwise can go on to trigger wrongly (`Gestures.CleanStartCondition`). Only equal, not opposite, width
  and height count as diagonal.
- `Compositor::schedule_repaint` and `prepare_composition` give up while outputs are disabled, and enabling
  outputs schedules nothing. In an X11 session outputs are never disabled (platform.h:554; the callers of
  `updateOutputsOn` and `prepareShutdown` belong to Wayland sessions), so `Compositing.NoRepaintLost` covers
  its runs. The state machine allows disabling them all the same: `Compositing.StepLive` and
  `Compositing.RunLive` say exactly which operations then leave a repaint unscheduled.

## Model

| member | source | states |
|---|---|---|
| Windows.AnnexedIsRestacked | layers.cpp:762-764 | an annexed live transient, whose layer is that of its first lead, is always restacked above that lead |
| Windows.LiveRestacking | layers.cpp:636-646 | which transients of a lead, not in a higher layer, are restacked above it: no splash over a dialog, of group transient dialogs the modal ones only, nothing over a dock |
| Windows.ClosedRestacking | layers.cpp:785-816 | a closed X11 transient that was active in its group stays above its lead also where a live one would not; of the others the same holds as for live ones |
| Windows.ClosingChangesRule | layers.cpp:760-816 | exactly when closing a transient changes whether it is kept above: an annexed one is dropped where only that had kept it; newly kept, unless a splash over a dialog, are active X11 group transients and all that were no X11 windows |
| Windows.LooseRoot | layers.cpp:678-687 | every managed window is reached through restacked children from a window that no lead claims |
| Transients.EnsureStackingOrderInList | layers.cpp:711-745 | the in-place loop yields the windows unknown to the stacking order in list order, then the others by their topmost occurrence, also for stacking orders with repeats |
| Transients.InStackingOrderStep | layers.cpp:731-742 | one more window of the stacking order moves that window, if listed, to the end and changes nothing else |
| Transients.InStackingOrderFollows | layers.cpp:731-743 | two listed windows come as the stacking order has them, and unknown windows come before known ones |
| Transients.InStackingOrderKnown | layers.cpp:713-743 | when the stacking order holds all listed windows the result is the stacking order restricted to them |
| Transients.AppendChildren | layers.cpp:648-676 | the recursion terminates, takes the restacked children out of the list it is given and appends a pile that does not depend on that list |
| Transients.PileElems | layers.cpp:648-695 | a pile holds exactly the windows its siblings reach, on every acyclic lead graph |
| Transients.PileAbove | layers.cpp:661-672 | every restacked child has an occurrence above every occurrence of its lead, on every acyclic lead graph |
| Transients.PileCount | layers.cpp:661-672 | a window occurs at most once in a pile exactly when it has a single use among the siblings |
| Transients.PileNoDup | layers.cpp:661-672 | a pile repeats no window exactly when all have a single use |
| Trees.SiblingsMeet | layers.cpp:648-676 | on a tidy lead graph two siblings have nothing above them in common but shared children |
| Trees.ShallowCondition | layers.cpp:648-676 | the piles of all windows, for all previous orders, repeat no window exactly when restacked children of one lead both restack whatever they both reach |
| Trees.TidyIsShallow | layers.cpp:648-676 | tidy lead graphs meet that condition |
| Trees.TidySingleUse | layers.cpp:648-676 | on a tidy lead graph every window has a single use, for all sibling orders |
| Trees.PileIsWalk | layers.cpp:648-676 | without shared children a pile is the sequence of preorder walks of its trees |
| Trees.WalkBlock | layers.cpp:659-672 | the tree above any window in a walk is one contiguous block |
| Fixpoint.PileBlocks | layers.cpp:678-692 | over loose windows the pile is one block per window, each without the children a later loose window claims |
| Fixpoint.RootOrder | layers.cpp:656-672 | the children of a loose window that no later one claims keep their order in the result |
| Fixpoint.InnerOrder | layers.cpp:656-672 | the restacked children of any other window keep their order in the result |
| Fixpoint.PileTwice | layers.cpp:648-695 | ordering siblings by the result of a pass and passing again repeats that result |
| Layers.SortIntoLayers | layers.cpp:601-634 | the two loops compute the buckets of the promoted layers, put together from bottom to top |
| Layers.PreliminaryPermutes | layers.cpp:607-634 | sorting into layers neither loses nor repeats a window |
| Layers.PreliminaryStable | layers.cpp:607-634 | windows given the same layer keep their unconstrained order |
| Layers.PromotionRule | layers.cpp:605-625 | a window is placed in the active layer instead of its own exactly when it is above the below layer and, since an active window on its screen and of its group, no window of these was in the below or desktop layer, an X11 window of these having come by then |
| Layers.PromotedByCompanion | layers.cpp:605-625 | a window leaves its layer only for the active one, and only after a window of the active layer on its own screen and, among X11 windows, of its own group |
| Layers.GroupStaysAbove | layers.cpp:614-627 | within such a run later members are placed in the active layer, after the active window |
| Layers.NativeKeepsLayer | layers.cpp:611-625 | windows that are not X11 windows keep their layer, provided X11 windows have groups |
| Layers.UngroupedWindowPromotesNative | layers.cpp:611-625 | without that proviso they can be promoted |
| Layers.BucketsAscend | layers.cpp:632-634 | without promotion the preliminary order ascends by layer |
| Stacking.ConstrainedStackingOrder | layers.cpp:599-695 | the whole computation equals its closed form, and the assertion at line 689 never fails |
| Stacking.SameWindows | layers.cpp:599-695 | the stacking order holds exactly the windows of the unconstrained order, on every acyclic lead graph |
| Stacking.PermutationCondition | layers.cpp:599-695 | it is a permutation of it if and only if every window has a single use |
| Stacking.ShallowPermutation | layers.cpp:599-695 | it is one for every previous order if, in addition to the children of each lead, the loose windows both restack what they both reach |
| Stacking.TidyPermutation | layers.cpp:599-695 | on tidy lead graphs it is a permutation without repeats |
| Stacking.DiamondRepeats | layers.cpp:661-672 | a window restacked above a lead and above a child of that lead is put on the stack twice |
| Stacking.DiamondFails | layers.cpp:661-672 | a concrete scene of three windows on which this happens |
| Stacking.TransientsAboveLeads | layers.cpp:636-692 | every transient that is to be restacked stands above its lead, on every acyclic lead graph |
| Stacking.ForestWalk | layers.cpp:678-694 | on a forest the stacking order is the concatenation of preorder walks over the loose windows in layer order |
| Stacking.TreeIsBlock | layers.cpp:659-692 | on a forest each window has exactly the windows of its tree directly above it, without gaps |
| Stacking.SiblingsKeepOrder | layers.cpp:656-672 | on a forest restacked siblings follow the previous stacking order |
| Stacking.SameLayerStable | layers.cpp:626-634 | loose windows given the same layer keep their unconstrained order in the stacking order |
| Stacking.LayersAscendCondition | layers.cpp:40-62 | without promotion the stacking order ascends by layer if and only if no restacked transient lies in a lower layer than its lead |
| Stacking.ProtectedTransientsAbove | layers.cpp:59-62 | then every transient that the rules protect or that lies in a higher layer ends above its lead |
| Stacking.Idempotent | layers.cpp:599-695 | computing the stacking order again from its result changes nothing, on tidy lead graphs |
| Stacking.PileConcat | layers.cpp:678-692 | what is piled up over a suffix of the loose windows does not depend on what lies below |
| Restacking.RaisePlaces | layers.cpp:449-474 | raising puts the window on top, its raised leads below it in stacking order, and all others below these |
| Restacking.RaiseKeeps | layers.cpp:427-475 | raising keeps a permutation and the order of all windows that were not raised |
| Restacking.RaiseLiftsTree | layers.cpp:427-475 | after raising, the tree of a loose window is above the tree of a loose window of the same layer that was not raised if and only if its root was raised too or stood above that one before (forest) |
| Restacking.RaisedByFirstLeads | layers.cpp:449-474 | a window is raised along exactly if it has control and is found by following first leads from a direct lead |
| Restacking.RootIsCollected | layers.cpp:449-460 | the root of a window is among the leads collected for raising if the windows strictly between are restacked by their first leads |
| Restacking.RaiseLeavesTree | layers.cpp:449-460 | a scene in which the root is not collected and the raised window stays, with its tree, below an unrelated window that was not raised |
| Restacking.LowerPlaces | layers.cpp:374-390 | lowering gives the other group members in stacking order, then the window, then all others |
| Restacking.LowerKeeps | layers.cpp:354-393 | lowering keeps a permutation and the order of all windows that were not lowered |
| Restacking.RaiseWithinRaises | layers.cpp:488-506 | raising within the application never moves the window down and leaves no window of the application above it |
| Restacking.RaiseWithinPlaces | layers.cpp:488-506 | it goes directly above the highest window of the application that stood above it, below all that stood above these, and without one nothing changes |
| Restacking.LowerWithinLowers | layers.cpp:407-423 | lowering within the application leaves no window of it below; without one the window goes to the bottom |
| Restacking.LowerWithinPlaces | layers.cpp:407-419 | it goes directly below the lowest other window of the application, above all that stood below these |
| Restacking.RestackPlaces | layers.cpp:552-556 | restacking puts the window directly below its target |
| Restacking.RestackDirectlyBelow | layers.cpp:541-556 | forced, within one application, or without such a window, it goes directly below the window named |
| Restacking.RestackGoesBelowApplication | layers.cpp:541-556 | otherwise it goes directly below the lowest controlled window of the same layer and of the application of the window named |
| Restacking.RestoreSorts | layers.cpp:572-594 | session restore keeps X11 windows sorted by their saved order |
| Restacking.RestorePlaces | layers.cpp:578-591 | the restored window goes directly below the lowest X11 window of greater saved order, or on top |
| Desk.RefreshSettles | layers.cpp:123-145 | a recomputation leaves a permutation that recomputing would not change |
| Desk.SecondUpdateReportsNoChange | layers.cpp:123-145 | of two updates in a row, from any stacking order and also if the first was forced, the second changes nothing and reports no change (tidy) |
| Desk.RunComplete | layers.cpp:123-709 | over every permitted run, on every acyclic lead graph, the unconstrained order keeps its windows without repeats, and whenever no blocker is held the stacking order has the same windows and every restacked transient is above its lead |
| Desk.ApplyReports | layers.cpp:123-145 | exactly which operations recompute, and that each such update counts as a change exactly if restacking was forced or the stacking order comes out different |
| Desk.RunReports | layers.cpp:130-134 | over every run, if the stacking order ends up different some update on the way was reported as a change |
| Desk.RemembersRaised | layers.cpp:368-444 | the window remembered as most recently raised is the last one raised that is not special, and is forgotten when lowered |
| Desk.ApplySound | layers.cpp:354-594 | on tidy lead graphs every operation keeps the windows, and leaves a settled stacking order when no blocker is held |
| Desk.RunSound | layers.cpp:123-709 | the same over every permitted run of operations, blockers included |
| Desk.RaiseShows | layers.cpp:427-475 | which trees raising lifts, as shown after the outermost release: those whose root was raised or stood above before |
| Desk.HeldRun | layers.cpp:125-129 | while the counter of blockers is positive no operation touches the stacking order |
| Desk.DeferredUpdate | layers.cpp:697-709 | the outermost release recomputes exactly once, propagating exactly if some request inside asked for it, and reports a change exactly if one was forced or the stacking order differs from the one before |
| Workspaces.Workspace.UpdateStackingOrder | layers.cpp:123-145 | the deferred or performed recomputation, with its report |
| Workspaces.Workspace.BlockStackingUpdates | layers.cpp:697-709 | the nesting counter and the release |
| Workspaces.Workspace.ForceRestackingNow | workspace.h:784-788 | a forced recomputation, unless blocked |
| Workspaces.Workspace.LowerWindow | layers.cpp:354-393 | lowering in place, with the group in reversed stacking order, takes the step of the state machine |
| Workspaces.Workspace.LowerClientWithinApplication | layers.cpp:395-425 | likewise for lowering within the application |
| Workspaces.Workspace.CollectLeads | layers.cpp:450-460 | the nested loops collect the direct leads and the first leads above them, each once |
| Workspaces.Workspace.RaiseWindow | layers.cpp:427-475 | raising in place with all controlled leads takes the step of the state machine |
| Workspaces.Workspace.RaiseClientWithinApplication | layers.cpp:477-507 | likewise for raising within the application |
| Workspaces.Workspace.RestackUnder | layers.cpp:537-561 | likewise for restacking, moving the window in the focus chains behind the same target |
| Workspaces.Workspace.RestoreSessionStackingOrder | layers.cpp:572-594 | likewise for session restore |
| FocusChains.MoveAfterClientInChain | focuschain.cpp:176-193 | the loop over a chain, with the prepending insert at a missing reference |
| FocusChains.ChangedKeeps | focuschain.cpp:133-157 | making first or last and inserting put the window into the chain once and leave the order of the others |
| FocusChains.ChangedPlace | focuschain.cpp:133-252 | where each change puts the window: first, last, or for a plain update as before, directly after an active window that is first, or else first |
| FocusChains.InsertedPlace | focuschain.cpp:144-157 | a plain update leaves the window where focuschain.h:72-74 documents it if and only if it was there before, or was not in the chain and is the active window or finds that one first |
| FocusChains.UpdateLeavesInPlace | focuschain.cpp:144-157 | chains on which it does not: the active window not made first, another one not put after the active one |
| FocusChains.MovedHolds | focuschain.cpp:176-193 | exactly when a chain holds the window after the move: it is lost only if the reference is in the chain and no window of its application but the moved one is |
| FocusChains.MovedPlace | focuschain.cpp:181-183 | behind a window of the same application it gets directly behind it |
| FocusChains.MovedPlaceOther | focuschain.cpp:184-190 | behind a window of another application it gets directly behind the first window of that application, or is taken out if there is none |
| FocusChains.FocusChain.Remove | focuschain.cpp:46-54 | removal from every chain |
| FocusChains.FocusChain.UpdateClient | focuschain.cpp:89-131 | the update of all chains, in any order of the desktops |
| FocusChains.FocusChain.MoveAfterClient | focuschain.cpp:159-174 | the move in the chains of the desktops of the window |
| FocusChains.FocusChain.Resize | focuschain.cpp:56-64 | growing and shrinking the set of desktop chains |
| FocusChains.UpdateMembership | focuschain.h:61-78 | after an update the window is in exactly the chains it belongs to: those of its desktops and the recent one if it wants tab focus, none otherwise |
| FocusChains.UpdatePlaces | focuschain.cpp:89-131 | the window gets that place in the recent chain and in the chains of its desktops; on all desktops, first and last count on the current desktop and the other chains are updated plainly |
| FocusChains.MoveSound | focuschain.cpp:159-193 | with a reflexive same-application relation a move loses no window and keeps the chains consistent |
| FocusChains.MovePlaces | focuschain.cpp:159-183 | within the application the move puts the window directly behind the reference in the recent chain and those of its desktops that hold the reference, and leaves all others as they are |
| FocusChains.ResizeSound | focuschain.cpp:56-64 | resizing keeps one chain per desktop from 1 to the new count; the chains that stay are unchanged, new ones empty |
| FocusChains.RunSound | focuschain.cpp:46-193 | over every run, in which windows may change desktops, application and tab focus, no chain repeats a window, every window of a desktop chain is in the recent one, and desktops are 1 to n |
| FocusChains.OthersKeepOrder | focuschain.cpp:89-193 | operations on a window leave the relative order of all others alone in every chain |
| FocusChains.FocusChain.NextMostRecentlyUsed | focuschain.cpp:203-216 | the next window, wrapping around |
| FocusChains.WalkReturns | focuschain.cpp:203-216 | on a chain of n windows, n steps lead back to the start |
| FocusChains.WalkVisits | focuschain.cpp:203-216 | every window is visited on the way |
| FocusChains.WalkVisitsOnce | focuschain.cpp:203-216 | and none twice |
| FocusChains.NextGoesBack | focuschain.cpp:203-216 | each step goes to the window used directly before, from the last one around to the first, and from an unknown one to the last |
| FocusChains.NextIsPrevious | focuschain.cpp:203-246 | after two windows were made first in turn, the step from the second leads to the first |
| EffectLoading.EffectLoadQueue.EnqueueEffect | effectloader.h:240-244 | enqueuing schedules a dequeue unless one is scheduled |
| EffectLoading.EffectLoadQueue.ClearAll | effectloader.h:245-249 | clearing leaves posted events behind |
| EffectLoading.EffectLoadQueue.Dequeue | effectloader.h:251-260 | one event, with any calls the loaded effect makes back into the queue |
| EffectLoading.RunScheduling | effectloader.h:240-269 | in every run a dequeue is scheduled exactly when requests wait, and then an event is pending |
| EffectLoading.OneLoadPerEvent | effectloader.h:251-260 | an event loads the first waiting request, if any, and no other |
| EffectLoading.RunAccounted | effectloader.h:240-269 | effects are loaded in the order they were enqueued, none twice, and each request is exactly one of loaded, waiting and cleared |
| EffectLoading.DrainLoadsAll | effectloader.h:251-269 | delivering events until none is pending ends and loads all waiting requests in order |
| EffectLoading.EnqueuedIsLoaded | effectloader.h:240-269 | an enqueued effect is loaded behind all that wait, if nothing clears the queue |
| EffectChain.EffectsHandler.StartPaint | effects.cpp:546-559 | a painting pass starts with the active effects in loading order and all iterators at the first |
| EffectChain.EffectsHandler.CallHook | effects.cpp:417-513 | for every behaviour of the effects and of the final steps of the scene each hook returns with all iterators restored, having run the steps of `Trace` |
| EffectChain.EffectsHandler.PaintDesktop | effects.cpp:435-449 | painting a desktop takes the steps of `DesktopTrace`, sets flag and current desktop by the entries and exits, and restores the iterator |
| EffectChain.ForwardedSteps | effects.cpp:416-513 | if the effects on the way forward a hook once each, whatever else they call, each runs it once in order, then the final step runs once; an effect that does not forward stops it there |
| EffectChain.DesktopRunsAll | effects.cpp:435-449 | painting a desktop runs the effects from the first on, wherever the walk stood, as far as they forward; an invalid desktop runs nothing |
| EffectChain.DesktopPainted | effects.cpp:435-449 | if all effects forward, each runs once in order and then the final step |
| EffectChain.DesktopStartsAnew | effects.cpp:443-447 | what painting a desktop runs does not depend on how far the screen was walked |
| EffectChain.CallFromEffect | effects.cpp:416-513 | a call from within an effect goes on behind that effect for the hooks that share its iterator, and where the other iterator stands for all others; behind the last effect only hooks that paint have a final step |
| EffectChain.TraceBracketed | effects.cpp:435-449 | every desktop entered is left again, in nested order |
| EffectChain.FlagCondition | effects.cpp:440-448 | the flag is set exactly while a desktop is painted, throughout, if and only if no desktop is painted from within the painting of a desktop |
| EffectChain.NestedDesktopClearsFlag | effects.cpp:440-448 | a nested run in which the flag is clear while the outer desktop is still painted |
| Gestures.ReachedMeans | gestures.cpp:54-74 | the minimum is reached exactly when the movement along the direction is as long as it, and progress stays within 0 and 1 |
| Gestures.GestureRecognizer.UnregisterGesture | gestures.cpp:91-102 | unregistering cancels one match of the gesture |
| Gestures.GestureRecognizer.StartSwipeGesture | gestures.cpp:104-151 | the gestures that match fingers and position start, and are counted |
| Gestures.GestureRecognizer.UpdateSwipeGesture | gestures.cpp:153-188 | an update is ignored, cancels all, or cancels the gestures of other directions |
| Gestures.GestureRecognizer.CancelSwipeGesture | gestures.cpp:190-202 | all matches are cancelled and the updates dropped |
| Gestures.GestureRecognizer.EndSwipeGesture | gestures.cpp:204-216 | each match triggers or is cancelled by the summed movement |
| Gestures.RunAccounted | gestures.h:43-56 | over every run the starts of a gesture are its triggers, its cancellations and its ongoing matches |
| Gestures.RunSound | gestures.cpp:104-216 | a gesture triggers only if every significant update since its start moved in its direction and the summed movement, that since its start and of the updates kept then, reaches its minimum; what holds of the kept updates at all starts holds at the triggers |
| Gestures.RunExact | gestures.cpp:104-216 | over every run a trigger counts the movement since the start of its gesture exactly when the updates kept at its start sum to nothing |
| Gestures.CleanStartsExact | gestures.cpp:104-216 | if that holds at every start, every trigger of the run counts the movement since its start |
| Gestures.CleanStartCondition | gestures.cpp:104-216 | a start is safe for every continuation if and only if the updates kept at that moment sum to nothing |
| Gestures.StaleUpdatesTrigger | gestures.cpp:162-166 | a run in which a gesture triggers by movement from before its start |
| Gestures.StartAfterReset | gestures.cpp:190-216 | after a swipe was cancelled or ended, whatever starts next triggers by the movement since its start only |
| Gestures.UpdateLeaves | gestures.cpp:153-188 | exactly which matches an update leaves, by its extent along the two axes and the direction of the gesture |
| Gestures.StartsExactly | gestures.cpp:104-151 | a gesture starts once per registration if fingers and position are within its bounds, otherwise not |
| Gestures.UnregisteredStartsNoMore | gestures.cpp:91-102 | an unregistered gesture starts no more in any run that does not register it again |
| Gestures.UnregisterCancels | gestures.cpp:94-102 | unregistering takes out one match of the gesture and none of any other |
| Compositing.X11Compositor.AddRepaintRegion | composite.cpp:525-532 | adding a region while compositing schedules it |
| Compositing.X11Compositor.FinishBufferSwap | composite.cpp:554-586 | a completed swap restarts the timer |
| Compositing.X11Compositor.PrepareComposition | composite.cpp:620-712 | the timer stops, and the collected regions are handed out unless a swap is pending, outputs are disabled or nothing is to be done |
| Compositing.X11Compositor.PaintScene | composite.cpp:548-552 | with one swap at most per paint the assertion in aboutToSwapBuffers holds |
| Compositing.X11Compositor.PerformCompositing | composite.cpp:958-988 | one composition |
| Compositing.X11Compositor.StopCompositing | composite.cpp:396-438 | stopping drops the timer, the pending swap and the collected regions |
| Compositing.X11Compositor.Start | composite.cpp:933-957 | starting is refused while a suspend reason is set |
| Compositing.X11Compositor.ToggleCompositing | composite.cpp:878-887 | toggling suspends, or clears all reasons and starts |
| Compositing.X11Compositor.UpdatePaintPeriods | composite.cpp:714-728 | the step of the paint statistic |
| Compositing.OutstandingMeans | composite.cpp:525-532 | what is outstanding by the record are exactly the cells of which some request was not painted since |
| Compositing.RunSound | composite.cpp:371-988 | over every run compositing goes with no suspend reason, and the collected cells are exactly those requested and not painted since |
| Compositing.StepLive | composite.cpp:371-988 | exactly which operations keep, break or restore that something collected has an active timer or a pending swap |
| Compositing.RunLive | composite.cpp:371-988 | that holds throughout a run if and only if no operation of it strands: adding, giving up a composition or starting while outputs are disabled |
| Compositing.NoRepaintLost | composite.cpp:371-759 | in a run in which nothing disables outputs, collected regions have an active timer or a pending swap at every moment |
| Compositing.ComposesExactly | composite.cpp:620-988 | exactly when a composition paints (damaged windows alone suffice), that it paints all that is collected, records its duration and schedules the next one without a swap event, and what it leaves otherwise |
| Compositing.StartPaints | composite.cpp:359-369 | a start requests the whole screen and paints it at once |
| Compositing.TimerWaitsForSwap | composite.cpp:525-586 | requests start the timer unless a swap is pending, which starts it when complete |
| Compositing.SuspendHolds | composite.cpp:905-957 | a compositor suspended for a reason stays off, whatever happens, until that reason is lifted |
| Compositing.TogglingTurns | composite.cpp:878-887 | toggling turns a suspended compositor on whatever the reasons, and one that is not suspended off |
| Compositing.ReinitializingTurnsOn | composite.cpp:889-894 | reinitialising turns it on from every state |
| PaintStatistics.Buckets | composite.cpp:714-728 | the buckets hold the maxima of the last full hundred and of the durations since |
| PaintStatistics.MaxIsSlidingWindow | composite.cpp:575-581 | the greater bucket is the maximum over a sliding window of 100 to 199 durations, or over all before the first hundred |
| DebugConsole.RoundTrip | debug_console.cpp:1007-1101 | every node gets a valid index under its parent, and the parent of that index is its parent |
| DebugConsole.OnlyNodes | debug_console.cpp:1031-1070 | every valid index handed out under a node stands for a node below it |
| DebugConsole.IdsDistinct | debug_console.cpp:848-854 | ids of different nodes differ |
| DebugConsole.ResolvesInOwnCategory | debug_console.cpp:1239-1247 | an id resolves to its window, and in its own category only |
| DebugConsole.ParentNeedsBound | debug_console.cpp:1091-1099 | the index of a window leads back to its category exactly for the first 10000 windows |

## Left out

- X11 and NETWM calls of the stacking code (`propagateClients`, query trees, mouse grabs, signals): recorded as reports of `Desk.Update` only.
- Adding and removing windows, groups and transient relations during a run: a scene is fixed for the run.
- `topClientOnDesktop`, `findDesktop`, `raiseOrLowerClient` and the request wrappers: searches and dispatch that add easy members.
- `cancel_auto_raise`, attention requests and the lazily computed own layer of a window: not part of this model.
- Windows outside tidy lead graphs: idempotence is proved on tidy graphs only; what every run keeps on all acyclic graphs is `Desk.RunComplete`, and permutation has its exact condition on them.
- Stacking.ShallowPermutation: one way only, because the order among loose windows follows from their layers and not from the previous order; `Stacking.PermutationCondition` is exact for each previous order.
- The bounds check of `screen` against the number of screens: entries are keyed by screen and group instead.
- Desktop counts close to the largest unsigned integer in `FocusChain::resize`, where its loop counter would wrap.
- `getForActivation`, `nextForDesktop`, `isUsableFocusCandidate`: index searches with out-of-view predicates.
- `buildQuads` and the static flag that restarts its iterator; loading and unloading effects while painting.
- Handlers that change gestures, effects or chains while these are iterated, other than the re-entrance modelled for the effect chain and the load queue.
- Gestures with a minimum delta that has no extent along their direction, where `minimumDeltaReachedProgress` divides by zero; deltas are reals.
- Timer durations and delays, damage fetching, window filtering and the per-output scheduling of the Wayland compositor.
- `configChanged`: a composition of stopping, reinitialising and adding a repaint.
- The bit operations on ids are written as arithmetic on their two 16-bit halves.
