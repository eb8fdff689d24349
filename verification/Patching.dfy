/**
 What a pass leaves alone when it writes a child. Others may hold on to an object, or let go of it, between
 the read and the write; a write that goes through leaves that, and whatever else the operator does not set,
 as it is at that moment, and it makes no object of one that has gone in between.
 */
module Patching {
  import opened Wrappers
  import opened Api
  import opened Objects
  import opened Children
  import opened Store
  import opened Machine
  import opened System
  import opened Invariant
  import opened Tracking
  import Conditions
  import Deployment
  import Finalizers
  import KmmModule
  import NodeLabeler
  import NodeMetrics
  import NodeSelector
  import Ordering

  /** What the operator does not set is as it was read. */
  ghost predicate LeavesTheRest(s: Stage, before: Object, after: Object) {
    && after.finalizers == before.finalizers && after.deleting == before.deleting
    && (!s.ServiceStage? ==> after.labels == before.labels && after.annotations == before.annotations)
  }

  /** What is about to be created is new, and belongs to the DeviceConfig of the pass alone. */
  ghost predicate IsNew(s: Stage, o: Object, cr: DeviceConfig) {
    && o.finalizers == [] && !o.deleting
    && o.owners == [OwnerRef("habana.ai/DeviceConfig", cr.key.name, cr.uid, true)]
    && (!s.ServiceStage? ==> o.labels == map[] && o.annotations == map[])
  }

  /** What a pass is about to write: the object it has just read, or the one it read before if that has gone,
      as it was but for what the operator sets; or, if it never saw one, a new one. */
  ghost predicate Framed(w: Worker) {
    w.pc.WriteChild? ==>
      && (w.before.Some? ==> LeavesTheRest(w.pc.stage, w.before.value, w.after))
      && (w.before.None? && w.existing.None? ==> IsNew(w.pc.stage, w.after, w.cr))
      && (w.before.None? && w.existing.Some? ==> LeavesTheRest(w.pc.stage, w.existing.value, w.after))
  }

  lemma NewIsNew(s: Stage, kind: Kind, cr: DeviceConfig, st: Settings)
    ensures SetDesired(s, NewObject(kind), cr, st).Success? && IsNew(s, SetDesired(s, NewObject(kind), cr, st).value, cr)
  {
    hide KmmModule.DesiredSpec, NodeLabeler.DesiredSpec, NodeMetrics.DesiredSpec;
    assert Upsert([], Ref(cr)) == [Ref(cr)];
  }

  lemma RereadFrames(c: World, w: Worker, r: Reply, s: Stage)
    requires w.pc == RereadChild(s)
    ensures Framed(StepRereadChild(w, c, r, s).0)
  {
    hide ChildKeyOf, SetDesired, NewObject, IsNew;
    var o := SetterInput(w, c, s);
    NewIsNew(s, ChildKeyOf(w.cr.key, s).kind, w.cr, c.settings);
    if SetDesired(s, o, w.cr, c.settings).Success? { SetterIdempotentAndFramed(s, o, o, w.cr, c.settings); }
  }

  /** Only the second read of a child leads to a write. */
  lemma NoOtherWay(c: World, w: Worker, r: Reply)
    requires !w.pc.RereadChild?
    ensures !Step(w, c, r).0.pc.WriteChild?
  {
    hide StepRereadChild, ChildKeyOf, CreateChild, PatchChild, DeleteChild, Update, UpdateStatus, Conditions.Apply;
    hide Finalizers.Remove, Finalizers.Add, Finalizers.Contains, ListDeviceConfigs, NodeSelector.SelectedNames, Ordering.NoDup;
  }

  lemma CallFrames(c: World, w: Worker, r: Reply)
    ensures Framed(Step(w, c, r).0)
  {
    hide Framed;
    if w.pc.RereadChild? {
      RereadFrames(c, w, r, w.pc.stage);
      IsReread(c, w, r);
    } else {
      NoOtherWay(c, w, r);
      NotWriting(Step(w, c, r).0);
    }
  }

  lemma NotWriting(w: Worker)
    requires !w.pc.WriteChild?
    ensures Framed(w)
  {
  }

  lemma IsReread(c: World, w: Worker, r: Reply)
    ensures w.pc.RereadChild? ==> Step(w, c, r) == StepRereadChild(w, c, r, w.pc.stage)
    ensures w.pc.WriteChild? ==> Step(w, c, r) == StepWriteChild(w, c, r, w.pc.stage)
  {
    hide StepStart, StepDeleteModule, StepRemoveFinalizer, StepListConfigs, StepListNodes, StepAddFinalizer;
    hide StepReadChild, StepRereadChild, StepWriteChild, StepReportError, StepReportReady;
  }

  lemma EventFrames(y: System, e: Event)
    requires forall k :: k in y.workers ==> Framed(y.workers[k])
    ensures forall k :: k in Next(y, e).workers ==> Framed(Next(y, e).workers[k])
  {
    hide Step, Environment, ReadyAfter, Framed, NewWorker;
    match e
    case Enqueue(k) => assert Framed(NewWorker(k)) by { NewFramed(k); }
    case Call(k, r) => if k in y.workers { CallFrames(y.c, y.workers[k], r); }
    case _ =>
  }

  lemma NewFramed(k: Key)
    ensures Framed(NewWorker(k))
  {
  }

  lemma {:induction false} FramedReachable(y: System, es: seq<Event>)
    requires Initial(y)
    ensures forall k :: k in Runs(y, es).workers ==> Framed(Runs(y, es).workers[k])
    decreases |es|
  {
    if es != [] {
      hide Next, Framed;
      FramedReachable(y, es[..|es| - 1]);
      EventFrames(Runs(y, es[..|es| - 1]), es[|es| - 1]);
    }
  }

  // ---------- the write ----------

  lemma WriteOf(c: World, w: Worker, r: Reply, s: Stage)
    requires w.pc == WriteChild(s) && w.cr.key == w.key && Framed(w)
    ensures var ck := ChildKeyOf(w.key, s);
            var (w', c') := StepWriteChild(w, c, r, s);
            && c' == c.(children := c'.children, gauge := c'.gauge)
            && (forall other :: other != ck ==>
                  (other in c'.children <==> other in c.children) &&
                  (other in c.children ==> c'.children[other] == c.children[other]))
            && (ck in c.children ==> ck in c'.children && LeavesTheRest(s, c.children[ck], c'.children[ck]))
            && (ck !in c.children ==>
                  (ck in c'.children <==> w.before.None? && w.existing.None? && !r.Fail?)
                  && (ck in c'.children ==> IsNew(s, c'.children[ck], w.cr)))
  {
    hide ChildKeyOf, MergePatch, IsNew;
    var ck := ChildKeyOf(w.key, s);
    if w.before.Some? && ck in c.children {
      PatchKeepsOthersChanges(w.before.value, w.after, c.children[ck]);
      if !s.ServiceStage? { UntouchedEntries(w.before.value, w.after, c.children[ck]); }
    }
  }

  lemma UntouchedEntries(before: Object, after: Object, current: Object)
    requires after.labels == before.labels && after.annotations == before.annotations
    ensures MergePatch(before, after, current).labels == current.labels
    ensures MergePatch(before, after, current).annotations == current.annotations
  {
    UntouchedLabels(before.labels, current.labels);
    UntouchedLabels(before.annotations, current.annotations);
    hide MergeLabels, MergeSpec;
  }

  /** In every reachable state, a pass that is about to write a child touches no other object. If the child
      is there, who holds on to it, whether it is being deleted and, but for the Service, its labels and
      annotations stay exactly as they are at that moment. If it is not there, the write makes one only if
      the pass has never seen one, and then it is new. */
  lemma {:induction false} WriteLeavesTheRest(y: System, es: seq<Event>, k: Key, r: Reply, s: Stage)
    requires Initial(y)
    requires k in Runs(y, es).workers && Runs(y, es).workers[k].pc == WriteChild(s)
    ensures var c, c' := Runs(y, es).c, Next(Runs(y, es), Call(k, r)).c;
            var w := Runs(y, es).workers[k];
            var ck := Deployment.KeyOf(k, s);
            && c'.dcs == c.dcs && c'.nodes == c.nodes
            && (forall other :: other != ck ==>
                  (other in c'.children <==> other in c.children) &&
                  (other in c.children ==> c'.children[other] == c.children[other]))
            && (ck in c.children ==> ck in c'.children && LeavesTheRest(s, c.children[ck], c'.children[ck]))
            && (ck !in c.children ==>
                  (ck in c'.children <==> w.before.None? && w.existing.None? && !r.Fail?)
                  && (ck in c'.children ==> IsNew(s, c'.children[ck], w.cr)))
  {
    hide Runs, Step, StepWriteChild, ChildKeyOf, Framed, IsNew, LeavesTheRest, StoreOk, OnCourse;
    FramedReachable(y, es);
    TrackReachable(y, es);
    var z := Runs(y, es);
    var w := z.workers[k];
    IsReread(z.c, w, r);
    WriteOf(z.c, w, r, s);
    Deployment.ChildrenAreThere(k, s);
  }
}
