/**
  * What the exporter traces: the selected armatures and empties, in the order of
  * the host's `selected_objects`, and the selected pose bones of each armature.
  */
module Selection {

  /** `obj.type`: only 'ARMATURE' and 'EMPTY' matter to the exporter. */
  datatype ObjectKind = Armature | Empty | OtherKind

  /** A pose bone of an armature; `selected` is `bone.bone.select`. */
  datatype PoseBone = PoseBone(name: string, selected: bool)

  /** A scene object; `poseBones` is `pose.bones` in its own order (empty for non-armatures). */
  datatype SceneObject = SceneObject(name: string, kind: ObjectKind, poseBones: seq<PoseBone>)

  // ---------------------------------------------------------------------------
  // Filtering the selection by object type

  /** The positions in `objs` of the objects of type `kind`, in increasing order. */
  function KindIndices(objs: seq<SceneObject>, kind: ObjectKind): (r: seq<nat>)
    ensures forall k :: 0 <= k < |r| ==> r[k] < |objs| && objs[r[k]].kind == kind
  {
    if objs == [] then []
    else
      var n := |objs| - 1;
      KindIndices(objs[..n], kind) + (if objs[n].kind == kind then [n] else [])
  }

  /** `[obj for obj in objs if obj.type == kind]`. */
  function OfKind(objs: seq<SceneObject>, kind: ObjectKind): (r: seq<SceneObject>)
    ensures forall o :: o in r ==> o in objs && o.kind == kind
  {
    if objs == [] then []
    else
      var n := |objs| - 1;
      OfKind(objs[..n], kind) + (if objs[n].kind == kind then [objs[n]] else [])
  }

  lemma {:induction false} KindIndicesIncreasing(objs: seq<SceneObject>, kind: ObjectKind)
    ensures forall p, q :: 0 <= p < q < |KindIndices(objs, kind)| ==>
              KindIndices(objs, kind)[p] < KindIndices(objs, kind)[q]
  {
    if objs != [] {
      var n := |objs| - 1;
      var prefix := KindIndices(objs[..n], kind);
      KindIndicesIncreasing(objs[..n], kind);
      var r := KindIndices(objs, kind);
      forall p, q | 0 <= p < q < |r| ensures r[p] < r[q] {
        if q < |prefix| {
          assert r[p] == prefix[p] && r[q] == prefix[q];
        } else {
          assert r[q] == n && r[p] == prefix[p];
        }
      }
    }
  }

  lemma {:induction false} KindIndicesComplete(objs: seq<SceneObject>, kind: ObjectKind)
    ensures forall i :: 0 <= i < |objs| && objs[i].kind == kind ==> i in KindIndices(objs, kind)
  {
    if objs != [] {
      var n := |objs| - 1;
      KindIndicesComplete(objs[..n], kind);
      forall i | 0 <= i < n && objs[i].kind == kind
        ensures i in KindIndices(objs, kind)
      {
        assert objs[..n][i] == objs[i];
        assert i in KindIndices(objs[..n], kind);
      }
    }
  }

  /**
    * The filter keeps the objects of type `kind` and nothing else, in selection
    * order: its j-th element is the object at the j-th position of `KindIndices`.
    */
  lemma {:induction false} OfKindInSelectionOrder(objs: seq<SceneObject>, kind: ObjectKind)
    ensures |OfKind(objs, kind)| == |KindIndices(objs, kind)|
    ensures forall j :: 0 <= j < |OfKind(objs, kind)| ==>
              OfKind(objs, kind)[j] == objs[KindIndices(objs, kind)[j]]
  {
    if objs != [] {
      var n := |objs| - 1;
      OfKindInSelectionOrder(objs[..n], kind);
    }
  }

  /** The filter is empty exactly when no object of that type is selected. */
  lemma {:induction false} OfKindEmpty(objs: seq<SceneObject>, kind: ObjectKind)
    ensures OfKind(objs, kind) == [] <==> forall i :: 0 <= i < |objs| ==> objs[i].kind != kind
    ensures OfKind(objs, kind) == [] <==> KindPositions(objs, kind) == {}
  {
    if i :| 0 <= i < |objs| && objs[i].kind == kind {
      assert i in KindPositions(objs, kind);
    }
    if objs != [] {
      var n := |objs| - 1;
      OfKindEmpty(objs[..n], kind);
      if forall i :: 0 <= i < n ==> objs[..n][i].kind != kind {
        assert forall i :: 0 <= i < n ==> objs[i].kind != kind by {
          forall i | 0 <= i < n ensures objs[i].kind != kind {
            assert objs[..n][i] == objs[i];
          }
        }
      } else {
        var i :| 0 <= i < n && objs[..n][i].kind == kind;
        assert objs[i].kind == kind;
      }
    }
  }

  /** The last element of the filter is the last selected object of that type. */
  lemma {:induction false} OfKindLast(objs: seq<SceneObject>, kind: ObjectKind, i: nat)
    requires i < |objs| && objs[i].kind == kind
    requires forall j :: i < j < |objs| ==> objs[j].kind != kind
    ensures OfKind(objs, kind) != [] && OfKind(objs, kind)[|OfKind(objs, kind)| - 1] == objs[i]
  {
    var n := |objs| - 1;
    if i < n {
      OfKindLast(objs[..n], kind, i);
    }
  }

  // ---------------------------------------------------------------------------
  // Selected pose bones

  /**
    * A selected pose bone, named by the position of its armature among the
    * selected armatures and its own position in that armature's `pose.bones`;
    * it stands for the pair `(bone, armature)` the exporter collects.
    */
  datatype Slot = Slot(arm: nat, bone: nat)

  predicate IsSelectedSlot(arms: seq<SceneObject>, s: Slot) {
    s.arm < |arms| && s.bone < |arms[s.arm].poseBones| && arms[s.arm].poseBones[s.bone].selected
  }

  /** Armature order first, then pose-bone order. */
  predicate Before(p: Slot, q: Slot) {
    p.arm < q.arm || (p.arm == q.arm && p.bone < q.bone)
  }

  /** The selected bones among the first `n` pose bones of armature number `i`. */
  function SlotsIn(i: nat, bones: seq<PoseBone>, n: nat): (r: seq<Slot>)
    requires n <= |bones|
    ensures forall s :: s in r ==> s.arm == i && s.bone < n && bones[s.bone].selected
  {
    if n == 0 then []
    else SlotsIn(i, bones, n - 1) + (if bones[n - 1].selected then [Slot(i, n - 1)] else [])
  }

  /** The selected pose bones of all the armatures, armature by armature. */
  function BoneSlots(arms: seq<SceneObject>): (r: seq<Slot>)
    ensures forall s :: s in r ==> IsSelectedSlot(arms, s)
  {
    if arms == [] then []
    else
      var n := |arms| - 1;
      var prefix := BoneSlots(arms[..n]);
      assert forall s :: s in prefix ==> IsSelectedSlot(arms, s) by {
        forall s | s in prefix ensures IsSelectedSlot(arms, s) {
          assert IsSelectedSlot(arms[..n], s);
          assert arms[..n][s.arm] == arms[s.arm];
        }
      }
      prefix + SlotsIn(n, arms[n].poseBones, |arms[n].poseBones|)
  }

  lemma {:induction false} SlotsInOrdered(i: nat, bones: seq<PoseBone>, n: nat)
    requires n <= |bones|
    ensures forall p, q :: 0 <= p < q < |SlotsIn(i, bones, n)| ==>
              SlotsIn(i, bones, n)[p].arm == SlotsIn(i, bones, n)[q].arm &&
              SlotsIn(i, bones, n)[p].bone < SlotsIn(i, bones, n)[q].bone
  {
    if n > 0 {
      var prefix := SlotsIn(i, bones, n - 1);
      SlotsInOrdered(i, bones, n - 1);
      var r := SlotsIn(i, bones, n);
      forall p, q | 0 <= p < q < |r| ensures r[p].arm == r[q].arm && r[p].bone < r[q].bone {
        if q < |prefix| {
          assert r[p] == prefix[p] && r[q] == prefix[q];
        } else {
          assert r[q] == Slot(i, n - 1) && r[p] == prefix[p] && prefix[p] in prefix;
        }
      }
    }
  }

  lemma {:induction false} SlotsInComplete(i: nat, bones: seq<PoseBone>, n: nat)
    requires n <= |bones|
    ensures forall j :: 0 <= j < n && bones[j].selected ==> Slot(i, j) in SlotsIn(i, bones, n)
  {
    if n > 0 {
      SlotsInComplete(i, bones, n - 1);
    }
  }

  /** Selected bones come in armature order, and within an armature in pose-bone order. */
  lemma {:induction false} BoneSlotsOrdered(arms: seq<SceneObject>)
    ensures forall p, q :: 0 <= p < q < |BoneSlots(arms)| ==> Before(BoneSlots(arms)[p], BoneSlots(arms)[q])
  {
    if arms != [] {
      var n := |arms| - 1;
      var prefix := BoneSlots(arms[..n]);
      var last := SlotsIn(n, arms[n].poseBones, |arms[n].poseBones|);
      BoneSlotsOrdered(arms[..n]);
      SlotsInOrdered(n, arms[n].poseBones, |arms[n].poseBones|);
      var r := BoneSlots(arms);
      assert r == prefix + last;
      forall p, q | 0 <= p < q < |r| ensures Before(r[p], r[q]) {
        if q < |prefix| {
          assert r[p] == prefix[p] && r[q] == prefix[q];
        } else if p < |prefix| {
          assert r[p] == prefix[p] && prefix[p] in prefix;
          assert IsSelectedSlot(arms[..n], r[p]);
          assert r[q] == last[q - |prefix|] && last[q - |prefix|] in last;
        } else {
          assert r[p] == last[p - |prefix|] && r[q] == last[q - |prefix|];
        }
      }
    }
  }

  /** Every selected pose bone of every selected armature is collected. */
  lemma {:induction false} BoneSlotsComplete(arms: seq<SceneObject>)
    ensures forall s :: IsSelectedSlot(arms, s) ==> s in BoneSlots(arms)
  {
    if arms != [] {
      var n := |arms| - 1;
      BoneSlotsComplete(arms[..n]);
      var bones := arms[n].poseBones;
      SlotsInComplete(n, bones, |bones|);
      forall s | IsSelectedSlot(arms, s) ensures s in BoneSlots(arms) {
        if s.arm < n {
          assert arms[..n][s.arm] == arms[s.arm];
          assert IsSelectedSlot(arms[..n], s);
        } else {
          assert s == Slot(n, s.bone);
        }
      }
    }
  }

  // ---------------------------------------------------------------------------
  // Counting, as the panel counts: selected bones per armature, empties

  /** The selected (armature, bone) positions, as a set. */
  function SelectedPairs(arms: seq<SceneObject>): set<Slot> {
    set i, j | 0 <= i < |arms| && 0 <= j < |arms[i].poseBones| && arms[i].poseBones[j].selected :: Slot(i, j)
  }

  /** The positions of the objects of type `kind`, as a set. */
  function KindPositions(objs: seq<SceneObject>, kind: ObjectKind): set<nat> {
    set i | 0 <= i < |objs| && objs[i].kind == kind
  }

  /** A sequence without repetitions has as many elements as its set of elements. */
  lemma {:induction false} DistinctCardinality<T>(s: seq<T>)
    requires forall p, q :: 0 <= p < q < |s| ==> s[p] != s[q]
    ensures |set x | x in s| == |s|
  {
    if s != [] {
      var rest := s[1..];
      DistinctCardinality(rest);
      assert (set x | x in s) == {s[0]} + (set x | x in rest);
      assert s[0] !in (set x | x in rest);
    }
  }

  /** As many bone traces as selected pose bones over all selected armatures. */
  lemma BoneSlotsCount(arms: seq<SceneObject>)
    ensures |BoneSlots(arms)| == |SelectedPairs(arms)|
  {
    var r := BoneSlots(arms);
    BoneSlotsOrdered(arms);
    BoneSlotsComplete(arms);
    assert forall p, q :: 0 <= p < q < |r| ==> r[p] != r[q] by {
      forall p, q | 0 <= p < q < |r| ensures r[p] != r[q] {
        assert Before(r[p], r[q]);
      }
    }
    DistinctCardinality(r);
    assert (set x | x in r) == SelectedPairs(arms);
  }

  /** As many filtered objects as objects of that type in the selection. */
  lemma KindCount(objs: seq<SceneObject>, kind: ObjectKind)
    ensures |OfKind(objs, kind)| == |KindPositions(objs, kind)|
  {
    var r := KindIndices(objs, kind);
    var positions := KindPositions(objs, kind);
    OfKindInSelectionOrder(objs, kind);
    KindIndicesIncreasing(objs, kind);
    forall p, q | 0 <= p < q < |r| ensures r[p] != r[q] {
      assert r[p] < r[q];
    }
    DistinctCardinality(r);
    var present := set x: nat | x in r;
    assert |present| == |r|;
    forall x: nat | x in present ensures x in positions {
      var k :| 0 <= k < |r| && r[k] == x;
    }
    KindIndicesComplete(objs, kind);
    forall x: nat | x in positions ensures x in present {
      assert x in r;
    }
    assert present == positions;
  }
}
