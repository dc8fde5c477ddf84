/** The slot-container presenter: it keeps one list of port anchors per
    direction in step with the container's slot trees, registers the anchors
    with the view presenter, and refreshes them once both lists are in place. */
module Presenter {
  import opened Slots
  import opened Anchors

  /** Why a model was invalidated; only the first two concern the anchors. */
  datatype Cause = StructureChanged | SettingChanged | OtherCause

  /** A setting field of the container's type: its name and its type's name. */
  datatype Setting = Setting(name: string, fieldType: string)

  /** One recorded `UpdateInfos` call: the anchor refreshed, and the input and
      output lists the presenter held at the moment of the call. */
  datatype Refresh = Refresh(anchor: Anchor, inputsSeen: seq<Anchor>, outputsSeen: seq<Anchor>)

  /** The refresh calls for `anchors`, in order, each seeing `ins` and `outs`. */
  function Refreshes(anchors: seq<Anchor>, ins: seq<Anchor>, outs: seq<Anchor>): seq<Refresh> {
    seq(|anchors|, k requires 0 <= k < |anchors| => Refresh(anchors[k], ins, outs))
  }

  /** Refreshing two lists in turn is refreshing their concatenation. */
  lemma RefreshesAppend(xs: seq<Anchor>, ys: seq<Anchor>, ins: seq<Anchor>, outs: seq<Anchor>)
    ensures Refreshes(xs + ys, ins, outs) == Refreshes(xs, ins, outs) + Refreshes(ys, ins, outs)
  {
  }

  /** The domain node: its collapsed flag and its two slot lists. */
  class SlotContainer {
    var collapsed: bool
    var inputSlots: seq<Slot>
    var outputSlots: seq<Slot>

    constructor(inputSlots: seq<Slot>, outputSlots: seq<Slot>)
      ensures !collapsed && this.inputSlots == inputSlots && this.outputSlots == outputSlots
    {
      collapsed := false;
      this.inputSlots := inputSlots;
      this.outputSlots := outputSlots;
    }
  }

  /** The part of the view presenter the slot-container presenter talks to: the
      registry of data anchors, and a record of the unregister calls. */
  class ViewPresenter {
    var registry: set<Anchor>
    var unregistered: seq<Anchor>

    constructor()
      ensures registry == {} && unregistered == []
    {
      registry := {};
      unregistered := [];
    }

    method RegisterDataAnchorPresenter(a: Anchor)
      modifies this`registry
      ensures registry == old(registry) + {a}
    {
      registry := registry + {a};
    }

    method UnregisterDataAnchorPresenter(a: Anchor)
      modifies this
      ensures registry == old(registry) - {a}
      ensures unregistered == old(unregistered) + [a]
    {
      registry := registry - {a};
      unregistered := unregistered + [a];
    }
  }

  /** The presenter of one setting field of a container. */
  class SettingPresenter {
    const owner: SlotContainer
    const name: string
    const fieldType: string

    constructor(owner: SlotContainer, name: string, fieldType: string)
      ensures this.owner == owner && this.name == name && this.fieldType == fieldType
    {
      this.owner := owner;
      this.name := name;
      this.fieldType := fieldType;
    }
  }

  class SlotContainerPresenter {
    const model: SlotContainer
    const viewPresenter: ViewPresenter
    var inputPorts: seq<Anchor>
    var outputPorts: seq<Anchor>
    /** Numbers the anchors `AddDataAnchor` creates; stands for allocating a new object. */
    var nextAid: nat
    var refreshLog: seq<Refresh>
    var settings: array<SettingPresenter?>

    /** Each list holds anchors of its own direction, all already allocated. */
    ghost predicate Valid()
      reads this
    {
      (forall a :: a in inputPorts ==> a.input && a.aid < nextAid) &&
      (forall a :: a in outputPorts ==> !a.input && a.aid < nextAid)
    }

    constructor(model: SlotContainer, viewPresenter: ViewPresenter)
      ensures Valid()
      ensures this.model == model && this.viewPresenter == viewPresenter
      ensures inputPorts == [] && outputPorts == [] && refreshLog == []
      ensures fresh(settings) && settings.Length == 0
    {
      this.model := model;
      this.viewPresenter := viewPresenter;
      inputPorts := [];
      outputPorts := [];
      nextAid := 0;
      refreshLog := [];
      settings := new SettingPresenter?[0];
    }

    function Ports(input: bool): seq<Anchor>
      reads this
    {
      if input then inputPorts else outputPorts
    }

    /** The state one full rebuild leads to from the given earlier state: both
        lists rebuilt from the earlier lists, the registry and the record of
        unregister calls updated for inputs and then outputs, and one refresh
        per anchor, inputs first, each seeing both new lists. */
    ghost predicate Rebuilt(in0: seq<Anchor>, out0: seq<Anchor>, next0: nat,
                            registry0: set<Anchor>, unregistered0: seq<Anchor>, log0: seq<Refresh>)
      reads this, model, viewPresenter
    {
      var bi := Bind(in0, AnchoredAll(model.inputSlots), next0, true);
      var bo := Bind(out0, AnchoredAll(model.outputSlots), bi.next, false);
      inputPorts == bi.anchors && outputPorts == bo.anchors && nextAid == bo.next &&
      viewPresenter.registry == Recommitted(Recommitted(registry0, in0, bi.anchors), out0, bo.anchors) &&
      viewPresenter.unregistered == unregistered0 + Except(in0, Elems(bi.anchors)) + Except(out0, Elems(bo.anchors)) &&
      refreshLog == log0 + Refreshes(bi.anchors + bo.anchors, bi.anchors, bo.anchors)
    }

    /** The first anchor of the chosen direction bound to `slot`, or None. */
    function GetPropertyPresenter(slot: SlotId, input: bool): (r: Option<Anchor>)
      reads this
      ensures r.None? <==> forall a :: a in Ports(input) ==> a.slot != slot
      ensures r.Some? ==> exists k :: 0 <= k < |Ports(input)| && Ports(input)[k] == r.value && r.value.slot == slot &&
                                      forall j :: 0 <= j < k ==> Ports(input)[j].slot != slot
    {
      FindAnchor(Ports(input), slot)
    }

    /** Creates the anchor for a slot that has none yet. */
    method AddDataAnchor(slot: SlotId, input: bool) returns (a: Anchor)
      modifies this`nextAid
      ensures a == Anchor(old(nextAid), slot, input)
      ensures nextAid == old(nextAid) + 1
    {
      a := Anchor(nextAid, slot, input);
      nextAid := nextAid + 1;
    }

    /** Appends to `newAnchors` the anchors of `slots` in traversal order,
        looking each slot up in the stored list of that direction and creating
        an anchor only where the lookup fails, and registers every anchor it
        appends. `expanded` is passed down but filters nothing. */
    method UpdateSlots(newAnchors: seq<Anchor>, slots: seq<Slot>, expanded: bool, input: bool)
      returns (out: seq<Anchor>)
      modifies this`nextAid, viewPresenter`registry
      ensures var b := Bind(Ports(input), AnchoredAll(slots), old(nextAid), input);
              out == newAnchors + b.anchors && nextAid == b.next &&
              viewPresenter.registry == old(viewPresenter.registry) + Elems(b.anchors)
      decreases slots
    {
      ghost var ports := Ports(input);
      ghost var next0 := nextAid;
      ghost var registry0 := viewPresenter.registry;
      ghost var done := Bind(ports, AnchoredAll(slots[..0]), next0, input);
      out := newAnchors;
      for i := 0 to |slots|
        invariant ports == Ports(input)
        invariant done == Bind(ports, AnchoredAll(slots[..i]), next0, input)
        invariant out == newAnchors + done.anchors && nextAid == done.next
        invariant viewPresenter.registry == registry0 + Elems(done.anchors)
      {
        ghost var out0 := out;
        out := VisitSlot(out, slots[i], expanded, input);
        ghost var step := Bind(ports, Anchored(slots[i]), done.next, input);
        assert out == out0 + step.anchors;
        BindNextSlot(ports, slots, i, next0, input, done, step);
        ConcatAssoc(newAnchors, done.anchors, step.anchors);
        done := Binding(done.anchors + step.anchors, step.next);
      }
      assert slots[..|slots|] == slots;
    }

    /** The body of the loop of `UpdateSlots` for one slot: append its anchor
        (found in the stored list, or created), register it, then go on with
        its children, or with its wrapper child's children when it elides it. */
    method VisitSlot(newAnchors: seq<Anchor>, slot: Slot, expanded: bool, input: bool)
      returns (out: seq<Anchor>)
      modifies this`nextAid, viewPresenter`registry
      ensures var b := Bind(Ports(input), Anchored(slot), old(nextAid), input);
              out == newAnchors + b.anchors && nextAid == b.next &&
              viewPresenter.registry == old(viewPresenter.registry) + Elems(b.anchors)
      decreases slot
    {
      ghost var next0 := nextAid;
      ghost var ports := Ports(input);
      var propPresenter := GetPropertyPresenter(slot.id, input);
      var anchor: Anchor;
      if propPresenter.None? {
        anchor := AddDataAnchor(slot.id, input);
      } else {
        anchor := propPresenter.value;
      }
      out := newAnchors + [anchor];
      viewPresenter.RegisterDataAnchorPresenter(anchor);
      ghost var mid := nextAid;
      ghost var registry1 := viewPresenter.registry;
      ghost var rest := Bind(ports, Below(slot), mid, input);
      if !slot.spaceable || |slot.children| != 1 {
        out := UpdateSlots(out, slot.children, expanded && !slot.collapsed, input);
      } else {
        var firstSlot := slot.children[0];
        out := UpdateSlots(out, firstSlot.children, expanded && !slot.collapsed, input);
      }
      assert out == (newAnchors + [anchor]) + rest.anchors && nextAid == rest.next;
      assert viewPresenter.registry == registry1 + Elems(rest.anchors);
      BindVisit(ports, slot, next0, input, propPresenter, anchor, mid, rest);
      ConcatAssoc(newAnchors, [anchor], rest.anchors);
    }

    /** Records one `UpdateInfos` call on `anchor`. */
    method UpdateInfos(anchor: Anchor)
      modifies this`refreshLog
      ensures refreshLog == old(refreshLog) + [Refresh(anchor, inputPorts, outputPorts)]
    {
      refreshLog := refreshLog + [Refresh(anchor, inputPorts, outputPorts)];
    }

    /** Unregisters each anchor of `dropped`, in order. */
    method UnregisterAll(dropped: seq<Anchor>)
      modifies viewPresenter
      ensures viewPresenter.registry == old(viewPresenter.registry) - Elems(dropped)
      ensures viewPresenter.unregistered == old(viewPresenter.unregistered) + dropped
    {
      for i := 0 to |dropped|
        invariant viewPresenter.registry == old(viewPresenter.registry) - Elems(dropped[..i])
        invariant viewPresenter.unregistered == old(viewPresenter.unregistered) + dropped[..i]
      {
        viewPresenter.UnregisterDataAnchorPresenter(dropped[i]);
        assert dropped[..i + 1] == dropped[..i] + [dropped[i]];
        assert Elems(dropped[..i + 1]) == Elems(dropped[..i]) + {dropped[i]};
      }
      assert dropped[..|dropped|] == dropped;
    }

    /** Calls `UpdateInfos` on each anchor of `anchors`, in order. */
    method RefreshAll(anchors: seq<Anchor>)
      modifies this`refreshLog
      ensures refreshLog == old(refreshLog) + Refreshes(anchors, inputPorts, outputPorts)
    {
      for i := 0 to |anchors|
        invariant refreshLog == old(refreshLog) + Refreshes(anchors[..i], inputPorts, outputPorts)
      {
        UpdateInfos(anchors[i]);
      }
      assert anchors[..|anchors|] == anchors;
    }

    /** Whether an invalidation concerns this presenter's anchors. */
    predicate Concerns(origin: SlotContainer?, cause: Cause) {
      origin == model && (cause == StructureChanged || cause == SettingChanged)
    }

    /** One direction of the rebuild: build the new list from the stored one,
        unregister the anchors the new list dropped, then store the new list. */
    method RebuildPorts(slots: seq<Slot>, input: bool)
      requires Valid()
      modifies this`inputPorts, this`outputPorts, this`nextAid, viewPresenter
      ensures Valid()
      ensures var b := Bind(old(Ports(input)), AnchoredAll(slots), old(nextAid), input);
              Ports(input) == b.anchors && Ports(!input) == old(Ports(!input)) && nextAid == b.next &&
              viewPresenter.registry == Recommitted(old(viewPresenter.registry), old(Ports(input)), b.anchors) &&
              viewPresenter.unregistered == old(viewPresenter.unregistered) + Except(old(Ports(input)), Elems(b.anchors))
    {
      var newAnchors := UpdateSlots([], slots, true, input);
      UnregisterAll(Except(Ports(input), Elems(newAnchors)));
      BindWithin(old(Ports(input)), AnchoredAll(slots), old(nextAid), input);
      if input {
        inputPorts := newAnchors;
      } else {
        outputPorts := newAnchors;
      }
    }

    /** On a structure or setting change of this presenter's own container:
        rebuild and commit the input list, then the output list, unregistering
        the anchors each list dropped, and only then refresh every anchor.
        Any other invalidation changes nothing. */
    method OnInvalidate(origin: SlotContainer?, cause: Cause)
      requires Valid()
      modifies this`inputPorts, this`outputPorts, this`nextAid, this`refreshLog, viewPresenter
      ensures Valid()
      ensures Concerns(origin, cause) ==>
                Rebuilt(old(inputPorts), old(outputPorts), old(nextAid), old(viewPresenter.registry),
                        old(viewPresenter.unregistered), old(refreshLog))
      ensures !Concerns(origin, cause) ==> unchanged(this, viewPresenter)
    {
      if Concerns(origin, cause) {
        ghost var bi := Bind(inputPorts, AnchoredAll(model.inputSlots), nextAid, true);
        ghost var bo := Bind(outputPorts, AnchoredAll(model.outputSlots), bi.next, false);
        ghost var registry1 := Recommitted(viewPresenter.registry, inputPorts, bi.anchors);
        ghost var unregistered1 := viewPresenter.unregistered + Except(inputPorts, Elems(bi.anchors));
        RebuildPorts(model.inputSlots, true);
        assert inputPorts == bi.anchors && nextAid == bi.next;
        assert viewPresenter.registry == registry1 && viewPresenter.unregistered == unregistered1;
        RebuildPorts(model.outputSlots, false);
        assert inputPorts == bi.anchors && outputPorts == bo.anchors && nextAid == bo.next;
        ghost var log0 := refreshLog;
        RefreshAll(inputPorts);
        RefreshAll(outputPorts);
        assert refreshLog == log0 + Refreshes(bi.anchors, bi.anchors, bo.anchors) + Refreshes(bo.anchors, bi.anchors, bo.anchors);
        RefreshesAppend(bi.anchors, bo.anchors, bi.anchors, bo.anchors);
        ConcatAssoc(log0, Refreshes(bi.anchors, bi.anchors, bo.anchors), Refreshes(bo.anchors, bi.anchors, bo.anchors));
      }
    }

    /** Builds one setting presenter per declared setting, in order, then
        performs the first rebuild as a structure change of the container. */
    method Init(declared: seq<Setting>)
      requires Valid()
      modifies this, viewPresenter
      ensures Valid()
      ensures fresh(settings) && settings.Length == |declared|
      ensures forall i :: 0 <= i < |declared| ==>
                settings[i] != null && settings[i].owner == model &&
                settings[i].name == declared[i].name && settings[i].fieldType == declared[i].fieldType
      ensures forall i :: 0 <= i < |declared| ==> fresh(settings[i])
      ensures forall i, j :: 0 <= i < j < |declared| ==> settings[i] != settings[j]
      ensures Rebuilt(old(inputPorts), old(outputPorts), old(nextAid), old(viewPresenter.registry),
                      old(viewPresenter.unregistered), old(refreshLog))
    {
      var filled := new SettingPresenter?[|declared|];
      var cpt := 0;
      while cpt < |declared|
        modifies filled
        invariant 0 <= cpt <= |declared|
        invariant forall i :: 0 <= i < cpt ==>
                    filled[i] != null && filled[i].owner == model &&
                    filled[i].name == declared[i].name && filled[i].fieldType == declared[i].fieldType
        invariant forall i :: 0 <= i < cpt ==> fresh(filled[i])
        invariant forall i, j :: 0 <= i < j < cpt ==> filled[i] != filled[j]
      {
        var settingPresenter := new SettingPresenter(model, declared[cpt].name, declared[cpt].fieldType);
        filled[cpt] := settingPresenter;
        cpt := cpt + 1;
      }
      settings := filled;
      OnInvalidate(model, StructureChanged);
    }

    /** The container reads as expanded when it is not collapsed. */
    function Expanded(): bool
      reads this, model
    {
      !model.collapsed
    }

    /** Writes the container's collapsed flag only when it disagrees with `value`. */
    method SetExpanded(value: bool)
      modifies model`collapsed
      ensures Expanded() == value
      ensures old(Expanded()) == value ==> unchanged(model)
    {
      if value != !model.collapsed {
        model.collapsed := !value;
      }
    }
  }
}
