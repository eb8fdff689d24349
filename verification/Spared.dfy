/**
 Runs in which no Delete meets an object that others hold on to: those in which nobody puts a finalizer
 on a Module are among them.
 */
module Spared {
  import opened Api
  import opened Objects
  import opened Children
  import opened Store
  import opened Machine
  import opened System
  import Finalizers
  import Conditions
  import NodeSelector
  import Ordering

  /** Nobody puts a finalizer on a Module. */
  predicate LeavesModules(e: Event) {
    !e.ModuleAddFinalizer?
  }

  ghost predicate FreeStore(c: World) {
    forall ck :: ck in c.children ==> c.children[ck].finalizers == []
  }

  ghost predicate FreeWorker(w: Worker) {
    && (w.existing.Some? ==> w.existing.value.finalizers == [])
    && (w.before.Some? ==> w.before.value.finalizers == [])
    && w.after.finalizers == []
  }

  ghost predicate FreeSystem(y: System) {
    FreeStore(y.c) && forall k :: k in y.workers ==> FreeWorker(y.workers[k])
  }

  lemma CommitsFree(c: World)
    ensures forall stored, next :: Commit(c, stored, next).0.children == c.children
  {
  }

  lemma EnvironmentFree(c: World, e: Event)
    requires FreeStore(c) && LeavesModules(e)
    ensures FreeStore(Environment(c, e))
  {
    hide Orphan, Commit, Finalizers.Remove, Finalizers.Add;
    CommitsFree(c);
    if e.ModuleRemoveFinalizer? { NothingToRemove(e.f); }
  }

  lemma NothingToRemove(f: string)
    ensures Finalizers.Remove([], f) == []
  {
  }

  lemma RereadFree(c: World, w: Worker, r: Reply, s: Stage)
    requires FreeStore(c) && FreeWorker(w) && w.pc == RereadChild(s)
    ensures FreeWorker(StepRereadChild(w, c, r, s).0)
  {
    hide ChildKeyOf, SetDesired;
    var o := SetterInput(w, c, s);
    if SetDesired(s, o, w.cr, c.settings).Success? { SetterIdempotentAndFramed(s, o, o, w.cr, c.settings); }
  }

  lemma WriteFree(c: World, w: Worker, r: Reply, s: Stage)
    requires FreeStore(c) && FreeWorker(w) && w.pc == WriteChild(s)
    ensures FreeStore(StepWriteChild(w, c, r, s).1) && FreeWorker(StepWriteChild(w, c, r, s).0)
  {
    hide ChildKeyOf, MergeLabels, MergeSpec;
  }

  lemma ChildCallFree(c: World, w: Worker, r: Reply)
    requires FreeStore(c) && FreeWorker(w) && (w.pc.DeleteModule? || w.pc.ReadChild? || w.pc.RereadChild? || w.pc.WriteChild?)
    ensures FreeStore(Step(w, c, r).1) && FreeWorker(Step(w, c, r).0)
  {
    hide ChildKeyOf, SetDesired, SetterInput, CreateChild, PatchChild;
    hide StepStart, StepRemoveFinalizer, StepListConfigs, StepListNodes, StepAddFinalizer, StepReportError, StepReportReady;
    match w.pc
    case RereadChild(s) => RereadFree(c, w, r, s);
    case WriteChild(s) => WriteFree(c, w, r, s);
    case _ =>
  }

  lemma ReadFree(c: World, w: Worker, r: Reply)
    requires FreeStore(c) && FreeWorker(w) && (w.pc.Start? || w.pc.ListConfigs? || w.pc.ListNodes? || w.pc.Done?)
    ensures FreeStore(Step(w, c, r).1) && FreeWorker(Step(w, c, r).0)
  {
    hide StepDeleteModule, StepReadChild, StepRereadChild, StepWriteChild;
    hide StepRemoveFinalizer, StepAddFinalizer, StepReportError, StepReportReady;
    hide Finalizers.Contains, ListDeviceConfigs, NodeSelector.SelectedNames, Ordering.NoDup;
  }

  lemma ConfigWriteFree(c: World, w: Worker, r: Reply)
    requires FreeStore(c) && FreeWorker(w)
    requires w.pc.RemoveFinalizer? || w.pc.AddFinalizer? || w.pc.ReportError? || w.pc.ReportReady?
    ensures FreeStore(Step(w, c, r).1) && FreeWorker(Step(w, c, r).0)
  {
    hide StepDeleteModule, StepReadChild, StepRereadChild, StepWriteChild, StepStart, StepListConfigs, StepListNodes;
    hide Commit, Updated, Finalizers.Remove, Finalizers.Add, Conditions.Apply, Reason, ErrorText;
    CommitsFree(c);
  }

  lemma CallFree(c: World, w: Worker, r: Reply)
    requires FreeStore(c) && FreeWorker(w)
    ensures FreeStore(Step(w, c, r).1) && FreeWorker(Step(w, c, r).0)
  {
    hide Step;
    if w.pc.DeleteModule? || w.pc.ReadChild? || w.pc.RereadChild? || w.pc.WriteChild? {
      ChildCallFree(c, w, r);
    } else if w.pc.RemoveFinalizer? || w.pc.AddFinalizer? || w.pc.ReportError? || w.pc.ReportReady? {
      ConfigWriteFree(c, w, r);
    } else {
      ReadFree(c, w, r);
    }
  }

  lemma EventFree(y: System, e: Event)
    requires FreeSystem(y) && LeavesModules(e)
    ensures FreeSystem(Next(y, e)) && Spares(y, e)
  {
    hide Environment, Step, ReadyAfter, ChildKeyOf, Orphan;
    match e
    case Enqueue(k) =>
    case Call(k, r) =>
      if k in y.workers { CallFree(y.c, y.workers[k], r); }
    case _ => EnvironmentFree(y.c, e);
  }

  lemma {:induction false} UnheldRunsAreSpared(y: System, es: seq<Event>)
    requires Initial(y) && forall e :: e in es ==> LeavesModules(e)
    ensures FreeSystem(Runs(y, es)) && SparesAll(y, es)
    decreases |es|
  {
    if es != [] {
      hide Next, Initial, FreeSystem, Spares;
      UnheldRunsAreSpared(y, es[..|es| - 1]);
      EventFree(Runs(y, es[..|es| - 1]), es[|es| - 1]);
    }
  }
}
