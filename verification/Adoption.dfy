/**
 Whose the children are by name. Whatever happens, an object called like a child of a DeviceConfig is
 controlled by a DeviceConfig of that name. So a live DeviceConfig in a conflict-free cluster is healthy
 in every reachable state, and what is shown of healthy ones holds of it.
 */
module Adoption {
  import opened Api
  import opened Objects
  import opened Children
  import opened Store
  import opened NodeSelector
  import opened Machine
  import opened System
  import opened Invariant
  import opened Tracking
  import opened Sequential
  import Conditions
  import Deployment
  import KmmModule
  import NodeLabeler
  import NodeMetrics
  import Finalizers
  import Ordering
  import Status

  /** A DeviceConfig of this name controls the object, and nothing else owns it. */
  ghost predicate ByName(o: Object, k: Key) {
    |o.owners| == 1 && o.owners[0] == OwnerRef("habana.ai/DeviceConfig", k.name, o.owners[0].uid, true)
  }

  ghost predicate AllByName(c: World) {
    && (forall k, s :: ChildKeyOf(k, s) in c.children ==> ByName(c.children[ChildKeyOf(k, s)], k))
    && (forall ck :: ck in c.children ==> exists k, s :: ck == ChildKeyOf(k, s))
  }

  ghost predicate WorkerByName(w: Worker) {
    && (w.existing.Some? ==> ByName(w.existing.value, w.key))
    && (w.pc.WriteChild? ==> ByName(w.after, w.key))
  }

  ghost predicate NameInv(y: System) {
    AllByName(y.c) && forall k :: k in y.workers ==> WorkerByName(y.workers[k])
  }

  // ---------- the environment ----------

  /** Each object is gone or has the owners it had. */
  ghost predicate OwnersStay(c: World, c': World) {
    forall ck :: ck in c'.children ==> ck in c.children && c'.children[ck].owners == c.children[ck].owners
  }

  lemma OwnersStayNamed(c: World, c': World)
    requires AllByName(c) && OwnersStay(c, c')
    ensures AllByName(c')
  {
    hide ChildKeyOf, ControllerOf;
  }

  lemma CommitsKeepChildren(c: World)
    ensures forall stored, next :: Commit(c, stored, next).0.children == c.children
  {
  }

  lemma EnvironmentKeepsOwners(c: World, e: Event)
    ensures OwnersStay(c, Environment(c, e))
  {
    hide Orphan, Commit, Finalizers.Remove, Finalizers.Add;
    CommitsKeepChildren(c);
  }

  // ---------- the worker's calls ----------

  lemma SetterNames(s: Stage, o: Object, cr: DeviceConfig, st: Settings)
    requires SetDesired(s, o, cr, st).Success? && (o.owners == [] || ByName(o, cr.key))
    ensures ByName(SetDesired(s, o, cr, st).value, cr.key)
  {
    hide KmmModule.DesiredSpec, NodeLabeler.DesiredSpec, NodeMetrics.DesiredSpec;
    assert Upsert(o.owners, Ref(cr)) == [Ref(cr)] by {
      if o.owners != [] { assert o.owners == [o.owners[0]]; }
    }
  }

  lemma RereadNames(c: World, w: Worker, r: Reply, s: Stage)
    requires AllByName(c) && WorkerByName(w) && w.pc == RereadChild(s) && w.cr.key == w.key
    ensures var (w', c') := StepRereadChild(w, c, r, s); OwnersStay(c, c') && WorkerByName(w')
  {
    hide ChildKeyOf, SetDesired, ByName;
    var o := SetterInput(w, c, s);
    assert o.owners == [] || ByName(o, w.key);
    if SetDesired(s, o, w.cr, c.settings).Success? { SetterNames(s, o, w.cr, c.settings); }
  }

  lemma PutNames(c: World, k: Key, s: Stage, o: Object)
    requires AllByName(c) && ByName(o, k)
    ensures AllByName(c.(children := c.children[ChildKeyOf(k, s) := o]))
  {
    forall j, t | ChildKeyOf(j, t) == ChildKeyOf(k, s) ensures j == k { ChildKeysDistinct(j, t, k, s); }
    hide ChildKeyOf, ByName;
    var c' := c.(children := c.children[ChildKeyOf(k, s) := o]);
    forall ck | ck in c'.children ensures exists j, t :: ck == ChildKeyOf(j, t) {
      if ck in c.children { assert exists j, t :: ck == ChildKeyOf(j, t); } else { assert ck == ChildKeyOf(k, s); }
    }
  }

  lemma PatchNames(before: Object, after: Object, current: Object, k: Key)
    requires ByName(after, k) && ByName(current, k)
    ensures ByName(MergePatch(before, after, current), k)
  {
    hide MergeLabels, MergeSpec;
  }

  lemma WriteNames(c: World, w: Worker, r: Reply, s: Stage)
    requires AllByName(c) && WorkerByName(w) && w.pc == WriteChild(s) && w.cr.key == w.key
    ensures var (w', c') := StepWriteChild(w, c, r, s); AllByName(c') && WorkerByName(w')
  {
    var ck := ChildKeyOf(w.key, s);
    PutNames(c, w.key, s, w.after);
    if w.before.Some? && ck in c.children {
      PatchNames(w.before.value, w.after, c.children[ck], w.key);
      PutNames(c, w.key, s, MergePatch(w.before.value, w.after, c.children[ck]));
    }
    hide ChildKeyOf, ByName, MergePatch, AllByName;
    forall d, gauge | AllByName(d) ensures AllByName(d.(gauge := gauge)) { GaugeApart(d, gauge); }
  }

  lemma GaugeApart(c: World, gauge: map<string, nat>)
    requires AllByName(c)
    ensures AllByName(c.(gauge := gauge))
  {
    OwnersStayNamed(c, c.(gauge := gauge));
  }

  lemma ReadNames(c: World, w: Worker, r: Reply)
    requires w.pc.Start? || w.pc.ListConfigs? || w.pc.ListNodes? || w.pc.ReadChild? || w.pc.DeleteModule? || w.pc.Done?
    requires AllByName(c) && WorkerByName(w) && w.cr.key == w.key
    ensures var (w', c') := Step(w, c, r); OwnersStay(c, c') && WorkerByName(w')
  {
    hide StepRereadChild, StepWriteChild, StepRemoveFinalizer, StepAddFinalizer, StepReportError, StepReportReady;
    hide ByName, ChildKeyOf, Finalizers.Contains, ListDeviceConfigs, SelectedNames, Ordering.NoDup;
  }

  lemma ConfigNames(c: World, w: Worker, r: Reply)
    requires WorkerByName(w) && (w.pc.RemoveFinalizer? || w.pc.AddFinalizer? || w.pc.ReportError? || w.pc.ReportReady?)
    ensures var (w', c') := Step(w, c, r); OwnersStay(c, c') && WorkerByName(w')
  {
    hide StepDeleteModule, StepReadChild, StepRereadChild, StepWriteChild, StepStart, StepListConfigs, StepListNodes;
    hide ByName, Updated, Commit, Finalizers.Remove, Finalizers.Add, Conditions.Apply, Reason, ErrorText;
    CommitsKeepChildren(c);
  }

  lemma OtherNames(c: World, w: Worker, r: Reply)
    requires AllByName(c) && WorkerByName(w) && w.cr.key == w.key && !w.pc.RereadChild? && !w.pc.WriteChild?
    ensures var (w', c') := Step(w, c, r); OwnersStay(c, c') && WorkerByName(w')
  {
    hide Step, WorkerByName, AllByName;
    if w.pc.RemoveFinalizer? || w.pc.AddFinalizer? || w.pc.ReportError? || w.pc.ReportReady? {
      ConfigNames(c, w, r);
    } else {
      ReadNames(c, w, r);
    }
  }

  lemma CallNames(c: World, w: Worker, r: Reply)
    requires AllByName(c) && WorkerByName(w) && w.cr.key == w.key
    ensures var (w', c') := Step(w, c, r); AllByName(c') && WorkerByName(w')
  {
    hide AllByName, WorkerByName, OwnersStay;
    hide StepStart, StepDeleteModule, StepRemoveFinalizer, StepListConfigs, StepListNodes, StepAddFinalizer;
    hide StepReadChild, StepRereadChild, StepWriteChild, StepReportError, StepReportReady;
    match w.pc
    case RereadChild(s) => RereadNames(c, w, r, s); OwnersStayNamed(c, Step(w, c, r).1);
    case WriteChild(s) => WriteNames(c, w, r, s);
    case _ => OtherNames(c, w, r); OwnersStayNamed(c, Step(w, c, r).1);
  }

  // ---------- whole runs ----------

  lemma EventNames(y: System, e: Event)
    requires NameInv(y) && TrackInv(y)
    ensures NameInv(Next(y, e))
  {
    hide Environment, Step, ReadyAfter, AllByName, OwnersStay, OnCourse, StoreOk;
    match e
    case Enqueue(k) =>
    case Call(k, r) => if k in y.workers { CallNames(y.c, y.workers[k], r); }
    case _ =>
      EnvironmentKeepsOwners(y.c, e);
      OwnersStayNamed(y.c, Environment(y.c, e));
  }

  lemma {:induction false} NamesReachable(y: System, es: seq<Event>)
    requires Initial(y)
    ensures NameInv(Runs(y, es))
    decreases |es|
  {
    if es != [] {
      hide Next, Initial, NameInv, TrackInv;
      NamesReachable(y, es[..|es| - 1]);
      TrackReachable(y, es[..|es| - 1]);
      EventNames(Runs(y, es[..|es| - 1]), es[|es| - 1]);
    }
  }

  /** In every reachable state a live DeviceConfig of a conflict-free cluster is healthy: nobody else
      controls what it asks for, and its conditions are in order. */
  lemma {:induction false} ReachableIsHealthy(y: System, es: seq<Event>, k: Key)
    requires Initial(y)
    requires var c := Runs(y, es).c; k in c.dcs && !c.dcs[k].deleting
    ensures Healthy(Runs(y, es).c, k) <==> ConflictFree(Runs(y, es).c)
  {
    NamesReachable(y, es);
    TrackReachable(y, es);
    Status.StoredConditionsComplementary(y, es);
    hide Runs, ConflictFree, Conditions.WellFormed, ChildKeyOf, Follows;
  }

  /** In every reachable state there is nothing but the children of some DeviceConfig's name and namespace,
      and each has exactly one owner: a DeviceConfig of that name, as controller. */
  lemma {:induction false} OneOwnerEach(y: System, es: seq<Event>, ck: ChildKey)
    requires Initial(y) && ck in Runs(y, es).c.children
    ensures exists k, s, uid ::
              ck == Deployment.KeyOf(k, s) && Runs(y, es).c.children[ck].owners == [OwnerRef("habana.ai/DeviceConfig", k.name, uid, true)]
  {
    NamesReachable(y, es);
    hide Runs, TrackInv;
    var k, s :| ck == ChildKeyOf(k, s);
    var o := Runs(y, es).c.children[ck];
    assert ByName(Runs(y, es).c.children[ChildKeyOf(k, s)], k);
    Deployment.ChildrenAreThere(k, s);
    assert o.owners == [OwnerRef("habana.ai/DeviceConfig", k.name, o.owners[0].uid, true)];
  }
}
