/** Port anchors (data-anchor presenters) and the pure side of the rebuild:
    looking an anchor up by slot, binding a traversal to anchors (reusing the
    previous ones, allocating the missing ones), and the set difference that
    decides which anchors are unregistered. */
module Anchors {
  import opened Slots

  datatype Option<T> = None | Some(value: T)

  /** A data-anchor presenter: its object identity `aid`, the slot it projects
      and its direction. */
  datatype Anchor = Anchor(aid: nat, slot: SlotId, input: bool)

  function Elems<T>(s: seq<T>): set<T> {
    set x | x in s
  }

  /** Sequence facts stated apart from the heap, so the methods that use them
      need not rediscover them in their larger proof contexts. */
  lemma ConcatAssoc<T>(a: seq<T>, b: seq<T>, c: seq<T>)
    ensures (a + b) + c == a + (b + c)
  {
  }

  lemma ElemsConcat<T>(s: seq<T>, t: seq<T>)
    ensures Elems(s + t) == Elems(s) + Elems(t)
  {
  }

  /** The first anchor of `ports` bound to `slot`, or None. */
  function FindAnchor(ports: seq<Anchor>, slot: SlotId): (r: Option<Anchor>)
    ensures r.None? <==> forall a :: a in ports ==> a.slot != slot
    ensures r.Some? ==> exists k :: 0 <= k < |ports| && ports[k] == r.value && r.value.slot == slot &&
                                    forall j :: 0 <= j < k ==> ports[j].slot != slot
  {
    if ports == [] then None
    else if ports[0].slot == slot then Some(ports[0])
    else
      var r := FindAnchor(ports[1..], slot);
      assert r.Some? ==> exists k :: 0 <= k < |ports| && ports[k] == r.value && r.value.slot == slot &&
                                     forall j :: 0 <= j < k ==> ports[j].slot != slot by {
        if r.Some? {
          var k :| 0 <= k < |ports[1..]| && ports[1..][k] == r.value &&
                   forall j :: 0 <= j < k ==> ports[1..][j].slot != slot;
          assert ports[k + 1] == r.value;
          assert forall j :: 0 <= j < k + 1 ==> ports[j].slot != slot by {
            forall j | 0 <= j < k + 1 ensures ports[j].slot != slot {
              if j > 0 { assert ports[j] == ports[1..][j - 1]; }
            }
          }
        }
      }
      r
  }

  /** The anchors a rebuild produces for the slot ids `ids` (in traversal
      order), with the fresh-anchor counter afterwards. */
  datatype Binding = Binding(anchors: seq<Anchor>, next: nat)

  /** Each id is bound to the anchor the previous list `ports` holds for it, or,
      when the lookup fails, to a fresh anchor numbered from `next` upwards.
      Lookups go to `ports` only, never to the anchors being produced. */
  function Bind(ports: seq<Anchor>, ids: seq<SlotId>, next: nat, input: bool): (r: Binding)
    ensures |r.anchors| == |ids| && next <= r.next
    decreases |ids|
  {
    if ids == [] then Binding([], next)
    else
      var found := FindAnchor(ports, ids[0]);
      var a := if found.Some? then found.value else Anchor(next, ids[0], input);
      var rest := Bind(ports, ids[1..], if found.Some? then next else next + 1, input);
      Binding([a] + rest.anchors, rest.next)
  }

  /** What the rebuild binds each id to: an anchor for that slot; the one the
      previous list holds when the lookup succeeds; otherwise a fresh anchor of
      the right direction, numbered between `next` and the final counter, and
      numbered in increasing order along the traversal. */
  lemma {:induction false} BindSpec(ports: seq<Anchor>, ids: seq<SlotId>, next: nat, input: bool)
    ensures var r := Bind(ports, ids, next, input);
            (forall k :: 0 <= k < |ids| ==> r.anchors[k].slot == ids[k]) &&
            (forall k :: 0 <= k < |ids| && FindAnchor(ports, ids[k]).Some? ==>
               r.anchors[k] == FindAnchor(ports, ids[k]).value) &&
            (forall k :: 0 <= k < |ids| && FindAnchor(ports, ids[k]).None? ==>
               r.anchors[k].input == input && next <= r.anchors[k].aid < r.next) &&
            (forall i, j :: 0 <= i < j < |ids| && FindAnchor(ports, ids[i]).None? && FindAnchor(ports, ids[j]).None? ==>
               r.anchors[i].aid < r.anchors[j].aid)
    decreases |ids|
  {
    if ids != [] {
      var found := FindAnchor(ports, ids[0]);
      var n1 := if found.Some? then next else next + 1;
      var rest := Bind(ports, ids[1..], n1, input);
      var r := Bind(ports, ids, next, input);
      BindSpec(ports, ids[1..], n1, input);
      assert r.anchors == [r.anchors[0]] + rest.anchors;
      forall k | 1 <= k < |ids| ensures r.anchors[k] == rest.anchors[k - 1] && ids[k] == ids[1..][k - 1] { }
    }
  }

  /** Anchors of one direction, all numbered below the counter, stay so after a
      rebuild: every bound anchor is either one of the previous anchors or a
      fresh one of that direction. */
  lemma BindWithin(ports: seq<Anchor>, ids: seq<SlotId>, next: nat, input: bool)
    requires forall a :: a in ports ==> a.input == input && a.aid < next
    ensures var r := Bind(ports, ids, next, input);
            forall a :: a in r.anchors ==> a.input == input && a.aid < r.next
  {
    var r := Bind(ports, ids, next, input);
    BindSpec(ports, ids, next, input);
    forall a | a in r.anchors ensures a.input == input && a.aid < r.next {
      var k :| 0 <= k < |r.anchors| && r.anchors[k] == a;
      var found := FindAnchor(ports, ids[k]);
      if found.Some? {
        var i :| 0 <= i < |ports| && ports[i] == found.value;
        assert ports[i] in ports;
      }
    }
  }

  /** Binding a concatenation binds the first part, then the second part with
      the counter the first part left. */
  lemma {:induction false} BindAppend(ports: seq<Anchor>, xs: seq<SlotId>, ys: seq<SlotId>, next: nat, input: bool)
    ensures var b1 := Bind(ports, xs, next, input);
            var b2 := Bind(ports, ys, b1.next, input);
            Bind(ports, xs + ys, next, input) == Binding(b1.anchors + b2.anchors, b2.next)
    decreases |xs|
  {
    if xs == [] {
      assert xs + ys == ys;
    } else {
      var found := FindAnchor(ports, xs[0]);
      var n1 := if found.Some? then next else next + 1;
      var a := if found.Some? then found.value else Anchor(next, xs[0], input);
      assert (xs + ys)[0] == xs[0];
      assert (xs + ys)[1..] == xs[1..] + ys;
      BindAppend(ports, xs[1..], ys, n1, input);
      var t1 := Bind(ports, xs[1..], n1, input);
      var b2 := Bind(ports, ys, t1.next, input);
      assert Bind(ports, xs, next, input) == Binding([a] + t1.anchors, t1.next);
      assert Bind(ports, xs + ys, next, input) == Binding([a] + (t1.anchors + b2.anchors), b2.next);
      ConcatAssoc([a], t1.anchors, b2.anchors);
    }
  }

  /** Visiting one slot: the slot's own anchor (the one found, or a fresh one
      numbered `next`), then the anchors of the slots below it. */
  lemma BindVisit(ports: seq<Anchor>, s: Slot, next: nat, input: bool,
                  found: Option<Anchor>, anchor: Anchor, mid: nat, rest: Binding)
    requires found == FindAnchor(ports, s.id)
    requires found.Some? ==> anchor == found.value && mid == next
    requires found.None? ==> anchor == Anchor(next, s.id, input) && mid == next + 1
    requires rest == Bind(ports, Below(s), mid, input)
    ensures Bind(ports, Anchored(s), next, input) == Binding([anchor] + rest.anchors, rest.next)
    ensures Elems([anchor] + rest.anchors) == {anchor} + Elems(rest.anchors)
  {
    assert Anchored(s) == [s.id] + Below(s);
    assert ([s.id] + Below(s))[1..] == Below(s);
    ElemsConcat([anchor], rest.anchors);
    assert Elems([anchor]) == {anchor};
  }

  /** One more slot of the rebuild loop: binding the traversal of
      `slots[..i + 1]` extends the binding of `slots[..i]` with the binding of
      `slots[i]`, numbered from where the earlier slots stopped. */
  lemma BindNextSlot(ports: seq<Anchor>, slots: seq<Slot>, i: nat, next: nat, input: bool,
                     done: Binding, step: Binding)
    requires i < |slots| && done == Bind(ports, AnchoredAll(slots[..i]), next, input)
    requires step == Bind(ports, Anchored(slots[i]), done.next, input)
    ensures Bind(ports, AnchoredAll(slots[..i + 1]), next, input) == Binding(done.anchors + step.anchors, step.next)
    ensures Elems(done.anchors + step.anchors) == Elems(done.anchors) + Elems(step.anchors)
  {
    AnchoredAllSnoc(slots, i);
    BindAppend(ports, AnchoredAll(slots[..i]), Anchored(slots[i]), next, input);
    ElemsConcat(done.anchors, step.anchors);
  }

  /** With a counter above every previous anchor, an id gets an anchor of the
      previous list exactly when the lookup succeeds; otherwise a new one. */
  lemma ReusedIffFound(ports: seq<Anchor>, ids: seq<SlotId>, next: nat, input: bool, k: nat)
    requires forall a :: a in ports ==> a.aid < next
    requires k < |ids|
    ensures Bind(ports, ids, next, input).anchors[k] in ports <==> FindAnchor(ports, ids[k]).Some?
  {
    var r := Bind(ports, ids, next, input);
    BindSpec(ports, ids, next, input);
    if FindAnchor(ports, ids[k]).None? {
      assert next <= r.anchors[k].aid;
    }
  }

  /** An anchor bound to a slot that appears in two consecutive rebuilds is the
      same anchor in both. */
  lemma StableAcrossRebuilds(ports: seq<Anchor>, ids1: seq<SlotId>, ids2: seq<SlotId>,
                             n1: nat, n2: nat, input: bool, j: nat)
    requires j < |ids2| && ids2[j] in ids1
    ensures var r1 := Bind(ports, ids1, n1, input);
            var r2 := Bind(r1.anchors, ids2, n2, input);
            exists k :: 0 <= k < |ids1| && ids1[k] == ids2[j] && r2.anchors[j] == r1.anchors[k]
  {
    var r1 := Bind(ports, ids1, n1, input);
    var r2 := Bind(r1.anchors, ids2, n2, input);
    BindSpec(ports, ids1, n1, input);
    BindSpec(r1.anchors, ids2, n2, input);
    var i :| 0 <= i < |ids1| && ids1[i] == ids2[j];
    assert r1.anchors[i].slot == ids2[j];
    var found := FindAnchor(r1.anchors, ids2[j]);
    assert found.Some?;
    var k :| 0 <= k < |r1.anchors| && r1.anchors[k] == found.value && found.value.slot == ids2[j];
    assert ids1[k] == ids2[j];
  }

  /** Distinct slots get distinct anchors. */
  lemma BindDistinct(ports: seq<Anchor>, ids: seq<SlotId>, next: nat, input: bool)
    requires Distinct(ids)
    ensures Distinct(Bind(ports, ids, next, input).anchors)
    ensures var r := Bind(ports, ids, next, input);
            forall i, j :: 0 <= i < j < |r.anchors| ==> r.anchors[i].slot != r.anchors[j].slot
  {
    var r := Bind(ports, ids, next, input);
    BindSpec(ports, ids, next, input);
    forall i, j | 0 <= i < j < |ids| ensures r.anchors[i] != r.anchors[j] {
      assert r.anchors[i].slot == ids[i] && r.anchors[j].slot == ids[j];
    }
  }

  /** A rebuild of slot trees whose slots are distinct gives each slot exactly
      one anchor: the rebuilt list has no repeats. */
  lemma RebuildDistinct(ports: seq<Anchor>, slots: seq<Slot>, next: nat, input: bool)
    requires Distinct(PreOrderAll(slots))
    ensures Distinct(Bind(ports, AnchoredAll(slots), next, input).anchors)
    ensures var r := Bind(ports, AnchoredAll(slots), next, input);
            forall i, j :: 0 <= i < j < |r.anchors| ==> r.anchors[i].slot != r.anchors[j].slot
  {
    AnchoredAllDistinct(slots);
    BindDistinct(ports, AnchoredAll(slots), next, input);
  }

  /** The elements of `xs` not in `seen`, each once, in order of first
      occurrence: the set difference `xs.Except(second)` with `seen` the
      elements of `second`. */
  function Except<T(==)>(xs: seq<T>, seen: set<T>): (r: seq<T>)
    ensures Elems(r) == Elems(xs) - seen
    ensures Distinct(r)
    ensures forall i :: 0 <= i < |r| ==> r[i] in xs
    decreases |xs|
  {
    if xs == [] then []
    else if xs[0] in seen then Except(xs[1..], seen)
    else
      var rest := Except(xs[1..], seen + {xs[0]});
      assert Elems(xs) == {xs[0]} + Elems(xs[1..]);
      assert Elems([xs[0]] + rest) == {xs[0]} + Elems(rest);
      [xs[0]] + rest
  }

  /** The registry after one direction's rebuild: every new anchor registered
      during the traversal, then the dropped anchors unregistered. */
  function Recommitted(registry: set<Anchor>, before: seq<Anchor>, after: seq<Anchor>): set<Anchor> {
    (registry + Elems(after)) - Elems(Except(before, Elems(after)))
  }

  /** A rebuild leaves every new anchor registered, removes exactly the dropped
      ones, and leaves every other registration as it was. */
  lemma RecommittedSpec(registry: set<Anchor>, before: seq<Anchor>, after: seq<Anchor>, a: Anchor)
    ensures a in Recommitted(registry, before, after) <==>
            a in after || (a in registry && a !in before)
  {
    assert Elems(Except(before, Elems(after))) == Elems(before) - Elems(after);
  }

  /** A full rebuild, inputs then outputs, with each list holding anchors of its
      own direction: afterwards exactly the new anchors of both lists and the
      registrations unrelated to this presenter's old lists are registered. */
  lemma RebuildRegistry(registry: set<Anchor>, in0: seq<Anchor>, ins: seq<Anchor>,
                        out0: seq<Anchor>, outs: seq<Anchor>, a: Anchor)
    requires forall x :: x in in0 ==> x.input
    requires forall x :: x in ins ==> x.input
    requires forall x :: x in out0 ==> !x.input
    requires forall x :: x in outs ==> !x.input
    ensures a in Recommitted(Recommitted(registry, in0, ins), out0, outs) <==>
            a in ins || a in outs || (a in registry && a !in in0 && a !in out0)
  {
    RecommittedSpec(registry, in0, ins, a);
    RecommittedSpec(Recommitted(registry, in0, ins), out0, outs, a);
  }
}
