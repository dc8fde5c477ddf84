# Slot-container presenter: port-anchor rebuild

A model of `VFXSlotContainerPresenter`, the presenter that sits between a node
of the Visual Effect Graph (a slot container with trees of input and output
slots) and the graph view. On every structure or setting change of its own
node it rebuilds, for inputs and then for outputs, the list of port anchors
(data-anchor presenters) that mirrors the node's slot trees: depth first, in
pre-order, reusing the anchor the previous list held for a slot and creating
one only when there is none, registering every anchor with the view presenter,
unregistering the anchors the new list dropped, and only after both new lists
are stored, refreshing each anchor.

Three modules:

- `Slots` (`slots.dfy`): the slot tree, and `Anchored`/`AnchoredAll`, the ids
  of the slots that receive an anchor, in traversal order. A space-transformable
  slot with exactly one child skips that child and continues with its
  grandchildren. Two reference definitions sit beside it: `PreOrder`, the plain
  pre-order of all slots, and `Spliced`, the tree with those wrapper children
  removed. The traversal is proved to be the plain pre-order of the spliced
  tree, and to be unaffected by the slots' collapsed flags.
- `Anchors` (`anchors.dfy`): anchors, the first-match lookup `FindAnchor`,
  `Bind` (what a rebuild produces for a traversal: the anchor found in the
  previous list, or a fresh one), LINQ's `Except` as distinct set difference,
  and the registry equations.
- `Presenter` (`presenter.dfy`): the node (`SlotContainer`), the part of the
  view presenter that holds the anchor registry (`ViewPresenter`), setting
  presenters, and `SlotContainerPresenter` with the mutable anchor lists. Its
  methods `UpdateSlots`, `OnInvalidate`, `Init` and `SetExpanded` are proved
  against the functions above.

Modelling choices:

- A slot's object identity is its `id`. An anchor's identity is its `aid`,
  which a per-presenter counter hands out when `AddDataAnchor` creates one.
  An anchor also records the slot it projects and its direction.
- `typeof(ISpaceable).IsAssignableFrom(slot.property.type)` is the flag
  `Slot.spaceable`. `model.GetSettings(true)` is the `declared` parameter of
  `Init`, a sequence of (name, type name) pairs.
- The comparison `model as IVFXSlotContainer == slotContainer` is reference
  equality between the invalidated model (`null` when it is not a slot
  container) and the presenter's own `model`.
- `UpdateInfos` is a recorded call. Each record holds the refreshed anchor and
  both stored lists at the moment of the call, so the commit-before-refresh
  order is part of the postcondition of `OnInvalidate`.
- The loop body of `UpdateSlots` is the method `VisitSlot`. The code shared by
  the input half and the output half of `OnInvalidate` is the method
  `RebuildPorts`. The unregister loops and the refresh loops are
  `UnregisterAll` and `RefreshAll`. These methods run the same steps in the
  same order as the inline code.

Collapsing a slot might be expected to drop its descendants' anchors from the
next rebuild. The code does not do this: the `expanded` argument of
`UpdateSlots` is computed and passed down but never consulted
(`VFXSlotContainerPresenter.cs:66`, `:83`, `:88`), so the descendants of a
collapsed slot keep their anchors. The model follows the code.
`Slots.AnchoredIgnoresCollapsed` proves this in general, and
`Slots.CollapsedSlotKeepsDescendants` on an example: inputs `[A, B(B1, B2)]`
with B collapsed still give `[A, B, B1, B2]`.

## Model

| member | source | states |
|---|---|---|
| `Slots.AnchoredAllAppend` | com.unity.visualeffectgraph/VisualEffectGraph/Editor/GraphView/Elements/Presenters/VFXSlotContainerPresenter.cs:70-90 | traversing a list of slots is traversing each slot in turn, in declared order |
| `Slots.AnchoredIsSplicedPreOrder` | com.unity.visualeffectgraph/VisualEffectGraph/Editor/GraphView/Elements/Presenters/VFXSlotContainerPresenter.cs:70-89 | a slot's traversal is the depth-first pre-order of the tree in which every single wrapper child of a space-transformable slot is replaced by that child's children |
| `Slots.AnchoredAllIsSplicedPreOrder` | com.unity.visualeffectgraph/VisualEffectGraph/Editor/GraphView/Elements/Presenters/VFXSlotContainerPresenter.cs:70-89 | the same for a list of top-level slots |
| `Slots.AnchoredAllIsPreOrderWithoutWrappers` | com.unity.visualeffectgraph/VisualEffectGraph/Editor/GraphView/Elements/Presenters/VFXSlotContainerPresenter.cs:81-84 | when no slot is space-transformable with exactly one child, all direct children are traversed and the anchor list follows the plain pre-order of every slot |
| `Slots.AnchoredWithin` | com.unity.visualeffectgraph/VisualEffectGraph/Editor/GraphView/Elements/Presenters/VFXSlotContainerPresenter.cs:81-89 | every anchored slot is a slot of the tree |
| `Slots.AnchoredAllWithin` | com.unity.visualeffectgraph/VisualEffectGraph/Editor/GraphView/Elements/Presenters/VFXSlotContainerPresenter.cs:81-89 | the same for a list of slots |
| `Slots.ElidedChildHasNoAnchor` | com.unity.visualeffectgraph/VisualEffectGraph/Editor/GraphView/Elements/Presenters/VFXSlotContainerPresenter.cs:85-89 | in a tree of distinct slots, the single child of a space-transformable slot never gets an anchor |
| `Slots.AnchoredDistinct` | com.unity.visualeffectgraph/VisualEffectGraph/Editor/GraphView/Elements/Presenters/VFXSlotContainerPresenter.cs:70-89 | in a tree of distinct slots, the traversal anchors each slot at most once |
| `Slots.AnchoredAllDistinct` | com.unity.visualeffectgraph/VisualEffectGraph/Editor/GraphView/Elements/Presenters/VFXSlotContainerPresenter.cs:70-89 | the same for a list of top-level slots |
| `Slots.AnchoredIgnoresCollapsed` | com.unity.visualeffectgraph/VisualEffectGraph/Editor/GraphView/Elements/Presenters/VFXSlotContainerPresenter.cs:66-88 | two slot trees that differ only in their collapsed flags get the same anchor list: the threaded `expanded` value filters nothing |
| `Slots.AnchoredAllIgnoresCollapsed` | com.unity.visualeffectgraph/VisualEffectGraph/Editor/GraphView/Elements/Presenters/VFXSlotContainerPresenter.cs:66-88 | the same for lists of top-level slots |
| `Slots.CollapsedSlotKeepsDescendants` | com.unity.visualeffectgraph/VisualEffectGraph/Editor/GraphView/Elements/Presenters/VFXSlotContainerPresenter.cs:81-89 | inputs `[A, B(B1, B2)]` with B collapsed are anchored as `[A, B, B1, B2]` |
| `Anchors.FindAnchor` | com.unity.visualeffectgraph/VisualEffectGraph/Editor/GraphView/Elements/Presenters/VFXSlotContainerPresenter.cs:94-104 | the result is None exactly when no anchor of the list is bound to the slot; otherwise it is the first anchor of the list bound to the slot |
| `Anchors.Bind` | com.unity.visualeffectgraph/VisualEffectGraph/Editor/GraphView/Elements/Presenters/VFXSlotContainerPresenter.cs:70-79 | a rebuild gives one anchor per traversed slot, and the fresh-anchor counter never goes back |
| `Anchors.BindSpec` | com.unity.visualeffectgraph/VisualEffectGraph/Editor/GraphView/Elements/Presenters/VFXSlotContainerPresenter.cs:72-78 | each position gets an anchor bound to its slot: the one the previous list holds when the lookup succeeds, otherwise a fresh anchor of the right direction with a new number, numbered in traversal order |
| `Anchors.BindWithin` | com.unity.visualeffectgraph/VisualEffectGraph/Editor/GraphView/Elements/Presenters/VFXSlotContainerPresenter.cs:72-77 | when the previous list holds only anchors of one direction, all numbered below the counter, the new list does too |
| `Anchors.BindAppend` | com.unity.visualeffectgraph/VisualEffectGraph/Editor/GraphView/Elements/Presenters/VFXSlotContainerPresenter.cs:70-90 | appending to the shared list across the recursion binds consecutive parts one after the other, with the counter handed on |
| `Anchors.BindVisit` | com.unity.visualeffectgraph/VisualEffectGraph/Editor/GraphView/Elements/Presenters/VFXSlotContainerPresenter.cs:72-89 | visiting one slot appends the slot's own anchor (found, or fresh) before the anchors of everything below it |
| `Anchors.BindNextSlot` | com.unity.visualeffectgraph/VisualEffectGraph/Editor/GraphView/Elements/Presenters/VFXSlotContainerPresenter.cs:70-90 | one more iteration of the slot loop extends the list by that slot's anchors |
| `Anchors.ReusedIffFound` | com.unity.visualeffectgraph/VisualEffectGraph/Editor/GraphView/Elements/Presenters/VFXSlotContainerPresenter.cs:72-77 | a slot's anchor comes from the previous list if and only if the lookup in the previous list succeeds; otherwise it is new |
| `Anchors.StableAcrossRebuilds` | com.unity.visualeffectgraph/VisualEffectGraph/Editor/GraphView/Elements/Presenters/VFXSlotContainerPresenter.cs:35-52 | a slot present in two consecutive rebuilds keeps the same anchor in both |
| `Anchors.BindDistinct` | com.unity.visualeffectgraph/VisualEffectGraph/Editor/GraphView/Elements/Presenters/VFXSlotContainerPresenter.cs:70-78 | when the traversed slot ids are distinct, no anchor appears twice in the list and no two entries are bound to the same slot, so each traversed slot has exactly one anchor per direction |
| `Anchors.RebuildDistinct` | com.unity.visualeffectgraph/VisualEffectGraph/Editor/GraphView/Elements/Presenters/VFXSlotContainerPresenter.cs:66-92 | rebuilding from slot trees of distinct slots gives a list in which no anchor repeats and no two entries are bound to the same slot: at most one anchor per slot and direction |
| `Anchors.Except` | com.unity.visualeffectgraph/VisualEffectGraph/Editor/GraphView/Elements/Presenters/VFXSlotContainerPresenter.cs:40-48 | the anchors unregistered are exactly the old anchors missing from the new list, each once, each taken from the old list |
| `Anchors.RecommittedSpec` | com.unity.visualeffectgraph/VisualEffectGraph/Editor/GraphView/Elements/Presenters/VFXSlotContainerPresenter.cs:40-44 | after one direction's rebuild an anchor is registered if and only if it is in the new list, or it was registered and not in the old list |
| `Anchors.RebuildRegistry` | com.unity.visualeffectgraph/VisualEffectGraph/Editor/GraphView/Elements/Presenters/VFXSlotContainerPresenter.cs:38-52 | after both directions, every anchor of both new lists is registered, every dropped anchor is unregistered, and other registrations are untouched |
| `Presenter.ViewPresenter.RegisterDataAnchorPresenter` | com.unity.visualeffectgraph/VisualEffectGraph/Editor/GraphView/Elements/Presenters/VFXSlotContainerPresenter.cs:79 | registering adds the anchor to the registry (idempotent) |
| `Presenter.ViewPresenter.UnregisterDataAnchorPresenter` | com.unity.visualeffectgraph/VisualEffectGraph/Editor/GraphView/Elements/Presenters/VFXSlotContainerPresenter.cs:42 | unregistering removes the anchor and records the call |
| `Presenter.SlotContainerPresenter.GetPropertyPresenter` | com.unity.visualeffectgraph/VisualEffectGraph/Editor/GraphView/Elements/Presenters/VFXSlotContainerPresenter.cs:94-104 | the result is None exactly when the chosen direction's list has no anchor bound to the slot, and otherwise the first anchor of that list bound to the slot |
| `Presenter.SlotContainerPresenter.AddDataAnchor` | com.unity.visualeffectgraph/VisualEffectGraph/Editor/GraphView/Elements/Presenters/VFXSlotContainerPresenter.cs:106-109 | creates an anchor with a new identity, bound to the slot, in the given direction |
| `Presenter.SlotContainerPresenter.UpdateSlots` | com.unity.visualeffectgraph/VisualEffectGraph/Editor/GraphView/Elements/Presenters/VFXSlotContainerPresenter.cs:66-92 | appends to the list exactly the anchors `Bind` gives for the traversal of the slots, looked up in the stored (old) list; advances the counter accordingly; registers each appended anchor and nothing else |
| `Presenter.SlotContainerPresenter.VisitSlot` | com.unity.visualeffectgraph/VisualEffectGraph/Editor/GraphView/Elements/Presenters/VFXSlotContainerPresenter.cs:70-90 | for one slot: its anchor and then the anchors below it, as `Bind` gives them for the slot's traversal |
| `Presenter.SlotContainerPresenter.UnregisterAll` | com.unity.visualeffectgraph/VisualEffectGraph/Editor/GraphView/Elements/Presenters/VFXSlotContainerPresenter.cs:40-43 | each dropped anchor is unregistered, in order |
| `Presenter.SlotContainerPresenter.RebuildPorts` | com.unity.visualeffectgraph/VisualEffectGraph/Editor/GraphView/Elements/Presenters/VFXSlotContainerPresenter.cs:35-52 | one direction: the stored list becomes the rebuilt list, the other direction's list is untouched, the dropped anchors are unregistered, and direction and numbering stay consistent |
| `Presenter.SlotContainerPresenter.UpdateInfos` | com.unity.visualeffectgraph/VisualEffectGraph/Editor/GraphView/Elements/Presenters/VFXSlotContainerPresenter.cs:57 | a refresh call is recorded with both stored lists as they are when it happens |
| `Presenter.SlotContainerPresenter.RefreshAll` | com.unity.visualeffectgraph/VisualEffectGraph/Editor/GraphView/Elements/Presenters/VFXSlotContainerPresenter.cs:55-62 | one refresh per anchor, in list order |
| `Presenter.SlotContainerPresenter.OnInvalidate` | com.unity.visualeffectgraph/VisualEffectGraph/Editor/GraphView/Elements/Presenters/VFXSlotContainerPresenter.cs:31-64 | for a structure or setting change of its own container, the presenter rebuilds inputs then outputs from the old lists, updates the registry and unregister record, and then refreshes every input anchor and then every output anchor, each refresh seeing both new lists; any other invalidation changes nothing |
| `Presenter.SlotContainerPresenter.Init` | com.unity.visualeffectgraph/VisualEffectGraph/Editor/GraphView/Elements/Presenters/VFXSlotContainerPresenter.cs:14-29 | one newly created setting presenter per declared setting, in order, all distinct, each owned by the container with that setting's name and type; then the first rebuild |
| `Presenter.SlotContainerPresenter.SetExpanded` | com.unity.visualeffectgraph/VisualEffectGraph/Editor/GraphView/Elements/Presenters/VFXSlotContainerPresenter.cs:123-137 | `expanded` reads as not collapsed. After a set it equals the value given, and the container is not written when the value already held |

## Left out

- `DrawGizmos` (lines 139-145): a fan-out to rendering with a live runtime component.
- `enabled` (line 120), a constant `true`, and the `[SerializeField]` attribute (line 147).
- The subscription `viewPresenter.AddInvalidateDelegate` (line 28): host wiring. `Init` performs the first rebuild only.
- `ScriptableObject.CreateInstance` and the base `VFXNodePresenter.Init` (lines 16, 23): allocation and host state. Setting presenters are plain objects, and the presenter's model and view presenter are set by its constructor.
- The effects of `UpdateInfos` and the re-entrant recompilation it can trigger: the code they run is not part of this model. Only the call and the lists it sees are recorded.
- The virtual `AddDataAnchor` body that returns `null` (lines 106-109): overriding classes create the anchor. The model always creates a fresh one.
- Anchor numbers are unique within one presenter. Several presenters sharing one view presenter's registry are not modelled.
- Reflection over setting fields and over `ISpaceable`: replaced by the `declared` sequence and the `spaceable` flag.
