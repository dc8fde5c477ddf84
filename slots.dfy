/** The slot tree of a VFX slot container and the order in which the presenter
    walks it. A slot's identity (the C# object reference) is its `id`; the
    "space-transformable" capability of its value type is the flag `spaceable`. */
module Slots {

  type SlotId = nat

  datatype Slot = Slot(id: SlotId, spaceable: bool, collapsed: bool, children: seq<Slot>)

  /** A space-transformable slot with exactly one child: that child is a synthetic
      wrapper, and the traversal steps over it to the grandchildren. */
  predicate Elides(s: Slot) {
    s.spaceable && |s.children| == 1
  }

  /** The ids of the slots that receive a port anchor when `s` is visited:
      `s` itself first, then the slots below it. The collapsed flags play no part. */
  function Anchored(s: Slot): seq<SlotId>
    decreases s, 1
  {
    [s.id] + Below(s)
  }

  /** The ids anchored below `s`, depth first and in declared order: those of
      its children, or of its grandchildren when `s` elides its wrapper child. */
  function Below(s: Slot): seq<SlotId>
    decreases s, 0
  {
    if Elides(s) then AnchoredAll(s.children[0].children) else AnchoredAll(s.children)
  }

  function AnchoredAll(ss: seq<Slot>): seq<SlotId>
    decreases ss
  {
    if ss == [] then [] else AnchoredAll(ss[..|ss| - 1]) + Anchored(ss[|ss| - 1])
  }

  /** Plain depth-first pre-order of every slot in the tree, wrappers included. */
  function PreOrder(s: Slot): seq<SlotId>
    decreases s
  {
    [s.id] + PreOrderAll(s.children)
  }

  function PreOrderAll(ss: seq<Slot>): seq<SlotId>
    decreases ss
  {
    if ss == [] then [] else PreOrderAll(ss[..|ss| - 1]) + PreOrder(ss[|ss| - 1])
  }

  /** The tree with every elided wrapper removed: a space-transformable slot with
      a single child gets that child's children as its own. */
  function Spliced(s: Slot): Slot
    decreases s
  {
    Slot(s.id, s.spaceable, s.collapsed,
         if Elides(s) then SplicedAll(s.children[0].children) else SplicedAll(s.children))
  }

  function SplicedAll(ss: seq<Slot>): seq<Slot>
    decreases ss
  {
    if ss == [] then [] else SplicedAll(ss[..|ss| - 1]) + [Spliced(ss[|ss| - 1])]
  }

  /** Two trees that differ at most in their collapsed flags. */
  predicate SameShape(a: Slot, b: Slot)
    decreases a
  {
    a.id == b.id && a.spaceable == b.spaceable && SameShapeAll(a.children, b.children)
  }

  predicate SameShapeAll(xs: seq<Slot>, ys: seq<Slot>)
    decreases xs
  {
    |xs| == |ys| &&
    (xs == [] || (SameShapeAll(xs[..|xs| - 1], ys[..|ys| - 1]) && SameShape(xs[|xs| - 1], ys[|ys| - 1])))
  }

  predicate Distinct<T(==)>(s: seq<T>) {
    forall i, j :: 0 <= i < j < |s| ==> s[i] != s[j]
  }

  /** Visiting a list of slots is visiting each slot in turn. */
  lemma {:induction false} AnchoredAllAppend(ss: seq<Slot>, ts: seq<Slot>)
    ensures AnchoredAll(ss + ts) == AnchoredAll(ss) + AnchoredAll(ts)
    decreases |ts|
  {
    if ts == [] {
      assert ss + ts == ss;
    } else {
      var n := |ts| - 1;
      assert (ss + ts)[..|ss + ts| - 1] == ss + ts[..n];
      assert (ss + ts)[|ss + ts| - 1] == ts[n];
      AnchoredAllAppend(ss, ts[..n]);
    }
  }

  /** Visiting one more slot of a list appends that slot's traversal. */
  lemma AnchoredAllSnoc(ss: seq<Slot>, i: nat)
    requires i < |ss|
    ensures AnchoredAll(ss[..i + 1]) == AnchoredAll(ss[..i]) + Anchored(ss[i])
  {
    assert ss[..i + 1][..i] == ss[..i];
  }

  /** The traversal is the plain pre-order of the spliced tree: the grandchildren
      of an eliding slot sit directly under it. */
  lemma {:induction false} AnchoredIsSplicedPreOrder(s: Slot)
    ensures Anchored(s) == PreOrder(Spliced(s))
    decreases s
  {
    if Elides(s) {
      AnchoredAllIsSplicedPreOrder(s.children[0].children);
    } else {
      AnchoredAllIsSplicedPreOrder(s.children);
    }
  }

  lemma {:induction false} AnchoredAllIsSplicedPreOrder(ss: seq<Slot>)
    ensures AnchoredAll(ss) == PreOrderAll(SplicedAll(ss))
    decreases ss
  {
    if ss != [] {
      var n := |ss| - 1;
      AnchoredAllIsSplicedPreOrder(ss[..n]);
      AnchoredIsSplicedPreOrder(ss[n]);
      var sp := SplicedAll(ss);
      assert sp[..|sp| - 1] == SplicedAll(ss[..n]);
    }
  }

  /** Without any eliding slot the traversal is exactly the plain pre-order. */
  predicate NoWrapper(s: Slot)
    decreases s
  {
    !Elides(s) && NoWrapperAll(s.children)
  }

  predicate NoWrapperAll(ss: seq<Slot>)
    decreases ss
  {
    ss == [] || (NoWrapperAll(ss[..|ss| - 1]) && NoWrapper(ss[|ss| - 1]))
  }

  lemma {:induction false} AnchoredAllIsPreOrderWithoutWrappers(ss: seq<Slot>)
    requires NoWrapperAll(ss)
    ensures AnchoredAll(ss) == PreOrderAll(ss)
    decreases ss
  {
    if ss != [] {
      var n := |ss| - 1;
      AnchoredAllIsPreOrderWithoutWrappers(ss[..n]);
      AnchoredAllIsPreOrderWithoutWrappers(ss[n].children);
      assert Below(ss[n]) == AnchoredAll(ss[n].children);
    }
  }

  /** Every anchored slot is a slot of the tree. */
  lemma {:induction false} AnchoredWithin(s: Slot)
    ensures forall x :: x in Anchored(s) ==> x in PreOrder(s)
    decreases s
  {
    AnchoredAllWithin(s.children);
    if Elides(s) {
      var c := s.children[0];
      AnchoredAllWithin(c.children);
      assert s.children == [c];
      assert PreOrderAll(s.children) == PreOrderAll([]) + PreOrder(c);
    }
  }

  lemma {:induction false} AnchoredAllWithin(ss: seq<Slot>)
    ensures forall x :: x in AnchoredAll(ss) ==> x in PreOrderAll(ss)
    decreases ss
  {
    if ss != [] {
      var n := |ss| - 1;
      AnchoredAllWithin(ss[..n]);
      AnchoredWithin(ss[n]);
    }
  }

  /** In a tree of distinct slots, the wrapper child of an eliding slot never
      receives an anchor. */
  lemma ElidedChildHasNoAnchor(s: Slot)
    requires Elides(s)
    requires Distinct(PreOrder(s))
    ensures s.children[0].id !in Anchored(s)
  {
    var c := s.children[0];
    assert s.children == [c];
    assert PreOrderAll(s.children) == PreOrderAll([]) + PreOrder(c);
    var p := PreOrder(s);
    assert p == [s.id, c.id] + PreOrderAll(c.children);
    var q := PreOrderAll(c.children);
    forall k | 0 <= k < |q| ensures q[k] != c.id {
      assert |p| == |q| + 2 && p[1] == c.id;
      assert p[k + 2] == q[k];
      assert p[1] != p[k + 2];
    }
    AnchoredAllWithin(c.children);
    assert Anchored(s) == [s.id] + AnchoredAll(c.children);
    assert p[0] != p[1];
  }

  /** A concatenation is free of repeats exactly when both parts are and they
      share no element. */
  lemma DistinctConcat<T>(a: seq<T>, b: seq<T>)
    ensures Distinct(a + b) <==> Distinct(a) && Distinct(b) && forall x :: x in a ==> x !in b
  {
    var ab := a + b;
    if Distinct(ab) {
      forall i, j | 0 <= i < j < |a| ensures a[i] != a[j] {
        assert ab[i] == a[i] && ab[j] == a[j];
      }
      forall i, j | 0 <= i < j < |b| ensures b[i] != b[j] {
        assert ab[|a| + i] == b[i] && ab[|a| + j] == b[j];
      }
      forall i, j | 0 <= i < |a| && 0 <= j < |b| ensures a[i] != b[j] {
        assert ab[i] == a[i] && ab[|a| + j] == b[j];
      }
    }
    if Distinct(a) && Distinct(b) && forall x :: x in a ==> x !in b {
      forall i, j | 0 <= i < j < |ab| ensures ab[i] != ab[j] {
        if j < |a| {
          assert ab[i] == a[i] && ab[j] == a[j];
        } else if i >= |a| {
          assert ab[i] == b[i - |a|] && ab[j] == b[j - |a|];
        } else {
          assert ab[i] == a[i] && ab[j] == b[j - |a|];
          assert a[i] in a;
        }
      }
    }
  }

  /** In a tree of distinct slots, each slot is anchored at most once. */
  lemma {:induction false} AnchoredDistinct(s: Slot)
    requires Distinct(PreOrder(s))
    ensures Distinct(Anchored(s))
    decreases s
  {
    DistinctConcat([s.id], PreOrderAll(s.children));
    AnchoredAllWithin(s.children);
    if Elides(s) {
      var c := s.children[0];
      assert s.children == [c];
      assert PreOrderAll(s.children) == PreOrderAll([]) + PreOrder(c) == PreOrder(c);
      DistinctConcat([c.id], PreOrderAll(c.children));
      AnchoredAllDistinct(c.children);
      AnchoredAllWithin(c.children);
    } else {
      AnchoredAllDistinct(s.children);
    }
    DistinctConcat([s.id], Below(s));
  }

  lemma {:induction false} AnchoredAllDistinct(ss: seq<Slot>)
    requires Distinct(PreOrderAll(ss))
    ensures Distinct(AnchoredAll(ss))
    decreases ss
  {
    if ss != [] {
      var n := |ss| - 1;
      DistinctConcat(PreOrderAll(ss[..n]), PreOrder(ss[n]));
      AnchoredAllDistinct(ss[..n]);
      AnchoredDistinct(ss[n]);
      AnchoredAllWithin(ss[..n]);
      AnchoredWithin(ss[n]);
      DistinctConcat(AnchoredAll(ss[..n]), Anchored(ss[n]));
    }
  }

  /** The collapsed flags never filter the traversal: trees that differ only in
      their collapsed flags are anchored identically. */
  lemma {:induction false} AnchoredIgnoresCollapsed(a: Slot, b: Slot)
    requires SameShape(a, b)
    ensures Anchored(a) == Anchored(b)
    decreases a
  {
    assert Elides(a) == Elides(b);
    if Elides(a) {
      assert SameShape(a.children[0], b.children[0]) by {
        assert a.children[..0] == [] && b.children[..0] == [];
      }
      AnchoredAllIgnoresCollapsed(a.children[0].children, b.children[0].children);
    } else {
      AnchoredAllIgnoresCollapsed(a.children, b.children);
    }
  }

  lemma {:induction false} AnchoredAllIgnoresCollapsed(xs: seq<Slot>, ys: seq<Slot>)
    requires SameShapeAll(xs, ys)
    ensures AnchoredAll(xs) == AnchoredAll(ys)
    decreases xs
  {
    if xs != [] {
      var n := |xs| - 1;
      AnchoredAllIgnoresCollapsed(xs[..n], ys[..n]);
      AnchoredIgnoresCollapsed(xs[n], ys[n]);
    }
  }

  /** Inputs [A, B(B1, B2)] with B collapsed still anchor B1 and B2. */
  lemma CollapsedSlotKeepsDescendants()
    ensures var b := Slot(2, false, true, [Slot(3, false, false, []), Slot(4, false, false, [])]);
            AnchoredAll([Slot(1, false, false, []), b]) == [1, 2, 3, 4]
  {
    var a := Slot(1, false, false, []);
    var b1 := Slot(3, false, false, []);
    var b2 := Slot(4, false, false, []);
    var b := Slot(2, false, true, [b1, b2]);
    assert [a, b][..1] == [a];
    assert [b1, b2][..1] == [b1];
    assert [b1][..0] == [] && [a][..0] == [];
    assert AnchoredAll([b1]) == [3];
    assert AnchoredAll([b1, b2]) == [3, 4];
    assert Anchored(b) == [2, 3, 4];
    assert AnchoredAll([a]) == [1];
  }
}
