/**
 The child objects the operator writes, the owner references that tie them to a DeviceConfig,
 and the merge patch by which an existing child is changed.
 */
module Objects {
  import opened Wrappers
  import opened Api

  datatype OwnerRef = OwnerRef(kind: string, name: string, uid: nat, controller: bool)

  datatype KernelMapping = KernelMapping(containerImage: string, regexp: string)

  datatype PodTemplate = PodTemplate(
    labels: Labels, containerName: string, image: string, volumePath: string,
    nodeSelector: Labels, serviceAccount: string)

  datatype ServicePort = ServicePort(name: string, port: nat, targetPort: nat)

  /** `unmanaged` stands for the fields of a DaemonSet's spec that the operator never sets. */
  datatype ChildSpec =
    | ModuleSpec(devicePluginArgs: seq<string>, devicePluginImage: string,
                 kernelMappings: seq<KernelMapping>, moduleName: string, selector: Labels)
    | DaemonSetSpec(matchLabels: Labels, template: PodTemplate, unmanaged: string)
    | ServiceSpec(podSelector: Labels, ports: seq<ServicePort>)

  /** `deleting` is a deletion timestamp: the object has been deleted and waits for its finalizers. */
  datatype Object = Object(
    labels: Labels, annotations: Labels, owners: seq<OwnerRef>, spec: ChildSpec,
    finalizers: seq<string>, deleting: bool)

  datatype Kind = KindModule | KindDaemonSet | KindService

  datatype ChildKey = ChildKey(kind: Kind, key: Key)

  /** A pointer to a child object, filled by reads and changed in place by the setters. */
  class ChildObject {
    var labels: Labels
    var annotations: Labels
    var owners: seq<OwnerRef>
    var spec: ChildSpec
    var finalizers: seq<string>
    var deleting: bool

    function Value(): Object
      reads this
    {
      Object(labels, annotations, owners, spec, finalizers, deleting)
    }

    constructor (o: Object)
      ensures Value() == o
    {
      labels, annotations, owners, spec := o.labels, o.annotations, o.owners, o.spec;
      finalizers, deleting := o.finalizers, o.deleting;
    }

    method Assign(o: Object)
      modifies this
      ensures Value() == o
    {
      labels, annotations, owners, spec := o.labels, o.annotations, o.owners, o.spec;
      finalizers, deleting := o.finalizers, o.deleting;
    }
  }

  /** The objects differ at most in their finalizers. */
  predicate Alike(a: Object, b: Object) {
    b == a.(finalizers := b.finalizers)
  }

  function NewObject(kind: Kind): Object {
    var spec := match kind
      case KindModule => ModuleSpec([], "", [], "", map[])
      case KindDaemonSet => DaemonSetSpec(map[], PodTemplate(map[], "", "", "", map[], ""), "")
      case KindService => ServiceSpec(map[], []);
    Object(map[], map[], [], spec, [], false)
  }

  // ---------- owner references ----------

  function Ref(cr: DeviceConfig): OwnerRef {
    OwnerRef("habana.ai/DeviceConfig", cr.key.name, cr.uid, true)
  }

  /** Two references name the same object by kind and name; the uid is not compared. */
  predicate SameObject(a: OwnerRef, b: OwnerRef) {
    a.kind == b.kind && a.name == b.name
  }

  function ControllerOf(owners: seq<OwnerRef>): Option<OwnerRef> {
    if owners == [] then None
    else if owners[0].controller then Some(owners[0])
    else ControllerOf(owners[1..])
  }

  /** Replaces the first reference to the same object, or appends. */
  function Upsert(owners: seq<OwnerRef>, ref: OwnerRef): seq<OwnerRef> {
    if owners == [] then [ref]
    else if SameObject(owners[0], ref) then [ref] + owners[1..]
    else [owners[0]] + Upsert(owners[1..], ref)
  }

  function SetControllerReference(owners: seq<OwnerRef>, ref: OwnerRef): Result<seq<OwnerRef>, Error> {
    match ControllerOf(owners)
    case Some(other) =>
      if SameObject(other, ref) then Success(Upsert(owners, ref)) else Failure(AlreadyOwned)
    case None => Success(Upsert(owners, ref))
  }

  /** `ref` is the first controller in the list and the first reference to its object. */
  predicate ControlledBy(owners: seq<OwnerRef>, ref: OwnerRef) {
    owners != [] &&
    (owners[0] == ref ||
     (!owners[0].controller && !SameObject(owners[0], ref) && ControlledBy(owners[1..], ref)))
  }

  /** Where the reference goes: at the first entry of that kind and name, or at the end. Every other entry
      keeps its place. */
  lemma {:induction false} ReferenceGoesIn(owners: seq<OwnerRef>, ref: OwnerRef) returns (i: nat)
    ensures i <= |owners|
    ensures forall j :: 0 <= j < i ==> owners[j].kind != ref.kind || owners[j].name != ref.name
    ensures i < |owners| ==> owners[i].kind == ref.kind && owners[i].name == ref.name
    ensures i < |owners| ==> Upsert(owners, ref) == owners[i := ref]
    ensures i == |owners| ==> Upsert(owners, ref) == owners + [ref]
  {
    if owners == [] || SameObject(owners[0], ref) {
      i := 0;
    } else {
      var j := ReferenceGoesIn(owners[1..], ref);
      i := j + 1;
      assert owners == [owners[0]] + owners[1..];
      assert i < |owners| ==> owners[1..][j := ref] == owners[i := ref][1..];
    }
  }

  /** Exactly one entry is a controller, and it is `ref`. */
  ghost predicate OnlyController(owners: seq<OwnerRef>, ref: OwnerRef) {
    (exists i :: 0 <= i < |owners| && owners[i] == ref && forall j :: 0 <= j < |owners| && j != i ==> !owners[j].controller)
  }

  lemma {:induction false} FirstController(owners: seq<OwnerRef>) returns (i: nat)
    ensures i <= |owners| && forall j :: 0 <= j < i ==> !owners[j].controller
    ensures i < |owners| ==> owners[i].controller && ControllerOf(owners) == Some(owners[i])
    ensures i == |owners| ==> ControllerOf(owners) == None
  {
    if owners == [] || owners[0].controller {
      i := 0;
    } else {
      var j := FirstController(owners[1..]);
      i := j + 1;
    }
  }

  /** No controller but the first entry that names the same object. */
  ghost predicate Unambiguous(owners: seq<OwnerRef>, ref: OwnerRef) {
    forall i :: 0 <= i < |owners| && owners[i].controller ==>
      SameObject(owners[i], ref) && forall j :: 0 <= j < i ==> !SameObject(owners[j], ref)
  }

  /** The reference ends up the only controller exactly if no other entry is one: nobody else's, and no
      second one for the same object. */
  lemma {:induction false} OnlyControllerIff(owners: seq<OwnerRef>, ref: OwnerRef)
    requires ref.controller
    ensures (SetControllerReference(owners, ref).Success? && OnlyController(SetControllerReference(owners, ref).value, ref))
            <==> Unambiguous(owners, ref)
  {
    var i := ReferenceGoesIn(owners, ref);
    var f := FirstController(owners);
    var after := Upsert(owners, ref);
    assert after[i] == ref;
    assert forall j :: 0 <= j < |owners| && j != i ==> after[j] == owners[j];
    if SetControllerReference(owners, ref).Success? && OnlyController(after, ref) {
      var m :| 0 <= m < |after| && after[m] == ref && forall j :: 0 <= j < |after| && j != m ==> !after[j].controller;
      assert m == i;
    }
    if Unambiguous(owners, ref) {
      assert forall j :: 0 <= j < |after| && j != i ==> !after[j].controller;
    }
  }

  /** A list can have one controller before and two after: an entry that names the same object and
      controls nothing comes first. */
  lemma TwoControllers(ref: OwnerRef)
    requires ref.controller
    ensures var owners := [ref.(controller := false), ref];
            SetControllerReference(owners, ref) == Success([ref, ref]) && !OnlyController([ref, ref], ref)
  {
    var owners := [ref.(controller := false), ref];
    assert owners[1..] == [ref] && [ref] + [ref] == [ref, ref];
    assert ControllerOf(owners) == ControllerOf(owners[1..]);
    assert [ref, ref][0].controller && [ref, ref][1].controller;
  }

  /** A reference is refused exactly when another object already controls the child; otherwise it is the
      first controller and every other reference stays. */
  lemma {:induction false} ControllerIsSet(owners: seq<OwnerRef>, ref: OwnerRef)
    requires ref.controller
    ensures SetControllerReference(owners, ref).Failure? <==>
            ControllerOf(owners).Some? && !SameObject(ControllerOf(owners).value, ref)
    ensures SetControllerReference(owners, ref).Success? ==>
              var owners' := SetControllerReference(owners, ref).value;
              && ControlledBy(owners', ref)
              && ControllerOf(owners') == Some(ref)
              && forall o :: o in owners && !SameObject(o, ref) ==> o in owners'
  {
    if owners != [] && !SameObject(owners[0], ref) && !owners[0].controller {
      ControllerIsSet(owners[1..], ref);
      if SetControllerReference(owners, ref).Success? {
        var tail := Upsert(owners[1..], ref);
        assert Upsert(owners, ref)[1..] == tail;
        assert forall o :: o in owners ==> o == owners[0] || o in owners[1..];
      }
    } else if owners != [] && SameObject(owners[0], ref) {
      assert forall o :: o in owners ==> o == owners[0] || o in owners[1..];
    }
  }

  /** Setting the reference changes nothing exactly when it is already in place. */
  lemma {:induction false} ControllerUnchanged(owners: seq<OwnerRef>, ref: OwnerRef)
    requires ref.controller
    ensures SetControllerReference(owners, ref) == Success(owners) <==> ControlledBy(owners, ref)
    ensures ControlledBy(owners, ref) ==> ControllerOf(owners) == Some(ref)
  {
    if owners != [] {
      if SameObject(owners[0], ref) {
        assert Upsert(owners, ref) == [ref] + owners[1..];
        assert owners == [owners[0]] + owners[1..];
        if owners[0] != ref {
          assert Upsert(owners, ref)[0] != owners[0];
        }
      } else {
        ControllerUnchanged(owners[1..], ref);
        var tail := Upsert(owners[1..], ref);
        assert Upsert(owners, ref)[1..] == tail;
        assert owners == [owners[0]] + owners[1..];
      }
    }
  }

  // ---------- merge patch ----------

  function Merge<T(==)>(before: T, after: T, current: T): T {
    if before == after then current else after
  }

  /** Key by key: a removed key goes, a changed or new key is written, the rest is left alone. */
  function MergeLabels(before: Labels, after: Labels, current: Labels): Labels {
    map k | k in current.Keys + after.Keys &&
            (k in after ==> k in current || k !in before || before[k] != after[k]) &&
            (k !in after ==> k !in before)
        :: if k in after && (k !in before || before[k] != after[k]) then after[k] else current[k]
  }

  function MergeSpec(before: ChildSpec, after: ChildSpec, current: ChildSpec): ChildSpec {
    match (before, after, current)
    case (ModuleSpec(a0, i0, k0, n0, s0), ModuleSpec(a1, i1, k1, n1, s1), ModuleSpec(a, i, k, n, s)) =>
      ModuleSpec(Merge(a0, a1, a), Merge(i0, i1, i), Merge(k0, k1, k), Merge(n0, n1, n), MergeLabels(s0, s1, s))
    case (DaemonSetSpec(m0, t0, u0), DaemonSetSpec(m1, t1, u1), DaemonSetSpec(m, t, u)) =>
      DaemonSetSpec(MergeLabels(m0, m1, m), MergeTemplate(t0, t1, t), Merge(u0, u1, u))
    case (ServiceSpec(s0, p0), ServiceSpec(s1, p1), ServiceSpec(s, p)) =>
      ServiceSpec(MergeLabels(s0, s1, s), Merge(p0, p1, p))
    case _ => after
  }

  /** Lists are replaced as a whole, and the container is an entry of one. */
  function MergeTemplate(before: PodTemplate, after: PodTemplate, current: PodTemplate): PodTemplate {
    var container := Merge((before.containerName, before.image), (after.containerName, after.image),
                           (current.containerName, current.image));
    PodTemplate(
      MergeLabels(before.labels, after.labels, current.labels),
      container.0, container.1,
      Merge(before.volumePath, after.volumePath, current.volumePath),
      MergeLabels(before.nodeSelector, after.nodeSelector, current.nodeSelector),
      Merge(before.serviceAccount, after.serviceAccount, current.serviceAccount))
  }

  /** The patch that turns `before` into `after`, applied to what is stored now. */
  function MergePatch(before: Object, after: Object, current: Object): Object {
    Object(
      MergeLabels(before.labels, after.labels, current.labels),
      MergeLabels(before.annotations, after.annotations, current.annotations),
      Merge(before.owners, after.owners, current.owners),
      MergeSpec(before.spec, after.spec, current.spec),
      Merge(before.finalizers, after.finalizers, current.finalizers),
      Merge(before.deleting, after.deleting, current.deleting))
  }

  lemma MergeLabelsOfSame(before: Labels, after: Labels)
    ensures MergeLabels(before, after, before) == after
  {
    var m := MergeLabels(before, after, before);
    assert forall k :: k in m <==> k in after;
    assert forall k :: k in m ==> m[k] == after[k];
  }

  /** Applied to the object it was computed from, the patch yields the intended object. */
  lemma PatchOfSame(before: Object, after: Object)
    ensures MergePatch(before, after, before) == after
  {
    MergeLabelsOfSame(before.labels, after.labels);
    MergeLabelsOfSame(before.annotations, after.annotations);
    match (before.spec, after.spec)
    case (ModuleSpec(_, _, _, _, s0), ModuleSpec(_, _, _, _, s1)) => MergeLabelsOfSame(s0, s1);
    case (DaemonSetSpec(m0, t0, _), DaemonSetSpec(m1, t1, _)) =>
      MergeLabelsOfSame(m0, m1);
      MergeLabelsOfSame(t0.labels, t1.labels);
      MergeLabelsOfSame(t0.nodeSelector, t1.nodeSelector);
    case (ServiceSpec(s0, _), ServiceSpec(s1, _)) => MergeLabelsOfSame(s0, s1);
    case _ =>
  }

  /** What a map holds for a key. */
  function Entry(m: Labels, k: string): Option<string> {
    if k in m then Some(m[k]) else None
  }

  /** Key by key: what the writer left alone stays as it is now, what it changed, added or removed is
      as the writer has it. */
  ghost predicate KeyByKey(before: Labels, after: Labels, current: Labels, merged: Labels) {
    forall k :: Entry(merged, k) == if Entry(before, k) == Entry(after, k) then Entry(current, k) else Entry(after, k)
  }

  lemma MergedKeyByKey(before: Labels, after: Labels, current: Labels)
    ensures KeyByKey(before, after, current, MergeLabels(before, after, current))
  {
  }

  /** A patch keeps what others have changed since in every field, and in every entry of labels and
      annotations, that the writer left alone. */
  lemma PatchKeepsOthersChanges(before: Object, after: Object, current: Object)
    ensures var o := MergePatch(before, after, current);
            && o.finalizers == (if before.finalizers == after.finalizers then current.finalizers else after.finalizers)
            && o.owners == (if before.owners == after.owners then current.owners else after.owners)
            && o.deleting == (if before.deleting == after.deleting then current.deleting else after.deleting)
            && KeyByKey(before.labels, after.labels, current.labels, o.labels)
            && KeyByKey(before.annotations, after.annotations, current.annotations, o.annotations)
            && (before.spec == after.spec && SameShape(before.spec, current.spec) ==> o.spec == current.spec)
            && (before.spec.DaemonSetSpec? && after.spec.DaemonSetSpec? && current.spec.DaemonSetSpec? ==>
                  o.spec.DaemonSetSpec? &&
                  o.spec.unmanaged ==
                    if before.spec.unmanaged == after.spec.unmanaged then current.spec.unmanaged else after.spec.unmanaged)
  {
    hide MergeLabels, KeyByKey;
    MergedKeyByKey(before.labels, after.labels, current.labels);
    MergedKeyByKey(before.annotations, after.annotations, current.annotations);
    if before.spec == after.spec && SameShape(before.spec, current.spec) { UntouchedSpec(before.spec, current.spec); }
  }

  /** Both are specifications of the same kind of object. */
  predicate SameShape(a: ChildSpec, b: ChildSpec) {
    (a.ModuleSpec? <==> b.ModuleSpec?) && (a.ServiceSpec? <==> b.ServiceSpec?)
  }

  lemma UntouchedLabels(before: Labels, current: Labels)
    ensures MergeLabels(before, before, current) == current
  {
    MergedKeyByKey(before, before, current);
    hide MergeLabels;
    var m := MergeLabels(before, before, current);
    assert forall k :: Entry(m, k) == Entry(current, k);
    assert forall k :: (k in m <==> Entry(m, k).Some?) && (k in current <==> Entry(current, k).Some?);
    assert m.Keys == current.Keys;
    assert forall k :: k in m ==> Entry(m, k) == Some(m[k]) && Entry(current, k) == Some(current[k]);
  }

  lemma UntouchedSpec(before: ChildSpec, current: ChildSpec)
    requires SameShape(before, current)
    ensures MergeSpec(before, before, current) == current
  {
    hide MergeLabels;
    forall b, c ensures MergeLabels(b, b, c) == c { UntouchedLabels(b, c); }
  }

  /** What nobody but the writer has changed since becomes what the writer intended; who holds on to the
      object is left as it is now. */
  lemma PatchOfAlike(before: Object, after: Object, current: Object)
    requires Alike(before, current)
    ensures MergePatch(before, after, current) ==
            after.(finalizers := if before.finalizers == after.finalizers then current.finalizers else after.finalizers)
  {
    hide MergeLabels, MergeSpec;
    PatchOfSame(before, after);
  }
}
