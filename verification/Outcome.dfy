/**
 What a user can read off the cluster: what a reason says is there, what Ready says is there, and where
 to find it, name by name and value by value.
 */
module Outcome {
  import opened Wrappers
  import opened Api
  import opened Objects
  import opened Children
  import opened Store
  import opened Machine
  import opened System
  import opened Invariant
  import opened Tracking
  import opened Safety
  import opened PlainSelectors
  import opened Sequential
  import opened Dropping
  import opened Convergence
  import opened Status
  import Conditions
  import Confluence
  import Deployment
  import Finalizers

  /** The child is where it belongs, and holds what this specification and the settings ask for. */
  ghost predicate InPlace(c: World, k: Key, uid: nat, spec: Spec, s: Stage) {
    var ck := Deployment.KeyOf(k, s);
    ck in c.children && Deployment.Shows(s, c.children[ck], k, uid, spec, c.settings)
  }

  lemma AppliedIffInPlace(c: World, dc: DeviceConfig, s: Stage)
    ensures AppliedAt(c, dc, s) <==> InPlace(c, dc.key, dc.uid, dc.spec, s)
  {
    hide Deployment.Shows, Conforms, Deployment.KeyOf, ChildKeyOf;
    Deployment.ChildrenAreThere(dc.key, s);
    if ChildKeyOf(dc.key, s) in c.children { Deployment.ConformsIffShows(s, c.children[ChildKeyOf(dc.key, s)], dc, c.settings); }
  }

  // ---------- what a reason says ----------

  /** When a failure is stored, the reason a reader finds tells the part that failed and what is in place:
      nothing is said for ModuleFailed, the Module for NodeLabelerFailed, and the labeler's DaemonSet too
      for NodeMetricsFailed. */
  lemma {:induction false} ReasonTells(y: System, es: seq<Event>, k: Key, r: Reply)
    requires Initial(y) && SparesAll(y, es)
    requires var z := Runs(y, es); k in z.workers && z.workers[k].pc.ReportError? && Commits(z.workers[k], z.c, r)
    ensures var w := Runs(y, es).workers[k];
            var c' := Next(Runs(y, es), Call(k, r)).c;
            && k in c'.dcs && var d := c'.dcs[k];
            && |d.conditions| == 2 && d.conditions[0].kind == "Ready" && d.conditions[1].kind == "Errored"
            && d.conditions[0].status.ConditionFalse? && d.conditions[1].status.ConditionTrue?
            && var reason := d.conditions[1].reason;
            && reason in {"ModuleFailed", "NodeLabelerFailed", "NodeMetricsFailed"}
            && (reason == "ModuleFailed" <==> w.pc.stage.ModuleStage?)
            && (reason == "NodeLabelerFailed" <==> w.pc.stage.LabelerStage?)
            && (reason != "ModuleFailed" ==> InPlace(c', k, d.uid, w.cr.spec, ModuleStage))
            && (reason == "NodeMetricsFailed" ==> InPlace(c', k, d.uid, w.cr.spec, LabelerStage))
  {
    hide Runs, Step, Commits, Follows, WorkerInv, KeyInv, AppliedAt, StoredAs, Scripted, InPlace, Conditions.Apply;
    hide Conditions.WellFormed, Conditions.IsReady, Conditions.ErroredWith;
    var z := Runs(y, es);
    var w := z.workers[k];
    ErroredCommitIsSound(y, es, k, r, w.pc.stage);
    ReasonStored(y, es, k, r);
    var c' := Next(z, Call(k, r)).c;
    var d := c'.dcs[k].(spec := w.cr.spec);
    forall t | Rank(t) < Rank(w.pc.stage) ensures InPlace(c', k, d.uid, d.spec, t) {
      assert AppliedAt(c', d, t);
      AppliedIffInPlace(c', d, t);
    }
  }

  lemma ReasonStored(y: System, es: seq<Event>, k: Key, r: Reply)
    requires Initial(y)
    requires var z := Runs(y, es); k in z.workers && z.workers[k].pc.ReportError? && Commits(z.workers[k], z.c, r)
    ensures var w := Runs(y, es).workers[k];
            var c' := Next(Runs(y, es), Call(k, r)).c;
            && k in c'.dcs && c'.dcs[k].key == k && var cs := c'.dcs[k].conditions;
            && |cs| == 2 && cs[0].kind == "Ready" && cs[1].kind == "Errored" && SaysFailed(cs) && cs[1].reason == Reason(w.pc.stage)
  {
    hide Runs, Step, Commits, Follows, StoredAs, Conditions.Apply;
    TrackReachable(y, es);
    CondsReachable(y, es);
    var z := Runs(y, es);
    var w := z.workers[k];
    SameKeyHeld(z.c, w);
    StatusWrite(z.c, w, r);
    UpdateScripts(w.cr.conditions, UpdateOf(w), z.c.clock);
  }

  // ---------- what Ready says ----------

  /** If nobody writes an empty selector, a live DeviceConfig whose first condition says Ready and that has
      not been edited since has all four children in place, in every reachable state. */
  lemma {:induction false} ReadyTells(y: System, es: seq<Event>, k: Key, s: Stage)
    requires Initial(y) && SparesAll(y, es) && forall e :: e in es ==> WritesSafely(e, false)
    requires var c := Runs(y, es).c;
             && k in c.dcs && !c.dcs[k].deleting && |c.dcs[k].conditions| == 2 && c.dcs[k].conditions[0].status.ConditionTrue?
    ensures var z := Runs(y, es); var d := z.c.dcs[k];
            && (k, d.uid) in z.ready
            && (z.ready[(k, d.uid)].generation == d.generation ==> InPlace(z.c, k, d.uid, d.spec, s))
  {
    hide Runs, AppliedAt, InPlace, StoreOk, Follows, SparesAll;
    StoredConditionsAreScripted(y, es);
    var c := Runs(y, es).c;
    ScriptedIsWellFormed(c.dcs[k].conditions);
    ReadyStaysTruePlainly(y, es, k);
    TrackReachable(y, es);
    assert c.dcs[k].key == k by { KeyedAt(c, k); }
    AppliedIffInPlace(c, c.dcs[k], s);
  }

  lemma KeyedAt(c: World, k: Key)
    requires StoreOk(c) && k in c.dcs
    ensures c.dcs[k].key == k
  {
  }

  // ---------- what a pass leaves ----------

  /** After a pass in which no call fails every child is in place, for the specification the pass found,
      and the status says so. */
  lemma {:induction false} PassPutsInPlace(c: World, k: Key)
    requires Healthy(c, k)
    ensures var c' := Pass(k, c, []).0;
            && k in c.dcs && k in c'.dcs
            && (forall s :: InPlace(c', k, c.dcs[k].uid, c.dcs[k].spec, s))
            && (exists t :: Conditions.Find(c'.dcs[k].conditions, "Ready") ==
                            Some(Condition("Ready", ConditionTrue, "Reconciled", "All resources have been successfully reconciled", t)))
            && (exists t :: Conditions.Find(c'.dcs[k].conditions, "Errored") == Some(Condition("Errored", ConditionFalse, "Ready", "", t)))
  {
    hide Pass, Healthy, Frame, Kept, AppliedAt, InPlace, Conditions.IsReady, Finalizers.Contains;
    PassAlone(k, c, []);
    HealthyFacts(c, k);
    var c' := Pass(k, c, []).0;
    HealthyFacts(c', k);
    var p := AsHeld(c, c', k);
    AsFound(c, p, k);
    forall s ensures InPlace(c', k, c.dcs[k].uid, c.dcs[k].spec, s) {
      assert AppliedAt(p, p.dcs[k], s);
      AppliedIffInPlace(p, p.dcs[k], s);
      SamePlaces(c', p, k, p.dcs[k].uid, p.dcs[k].spec, s);
    }
    var ready, errored := Conditions.Find(c'.dcs[k].conditions, "Ready"), Conditions.Find(c'.dcs[k].conditions, "Errored");
    assert ready == Some(Condition("Ready", ConditionTrue, "Reconciled",
                                   "All resources have been successfully reconciled", ready.value.lastTransition));
    assert errored == Some(Condition("Errored", ConditionFalse, "Ready", "", errored.value.lastTransition));
  }

  lemma AsFound(c: World, p: World, k: Key)
    requires k in c.dcs && Frame(c, p, k) && c.dcs[k].key == k
    ensures k in p.dcs && p.dcs[k].uid == c.dcs[k].uid && p.dcs[k].spec == c.dcs[k].spec && p.dcs[k].key == k
  {
    hide Target, ChildKeyOf;
  }

  lemma SamePlaces(c: World, p: World, k: Key, uid: nat, spec: Spec, s: Stage)
    requires p.children == c.children && p.settings == c.settings
    ensures InPlace(c, k, uid, spec, s) <==> InPlace(p, k, uid, spec, s)
  {
  }

  /** Once the requeue loop is through with a DeviceConfig that was deleted and carried the operator's
      finalizer only, it is gone, and so is the Module of its name exactly when it carried no finalizers. */
  lemma {:induction false} DeletionClears(k: Key, c: World, tape: seq<Reply>, n: nat)
    requires StoreOk(c) && k in c.dcs && c.dcs[k].deleting && c.dcs[k].finalizers == ["device-config-deletion-finalizer"]
    requires Faults(tape) <= n
    ensures var c' := Requeue(k, c, tape, n + 1).0;
            var ck := ChildKey(KindModule, Key(k.ns, k.name + "-module"));
            && k !in c'.dcs
            && (ck !in c'.children <==> (ck in c.children ==> c.children[ck].finalizers == []))
  {
    hide Requeue;
    Deployment.ChildrenAreThere(k, ModuleStage);
    DeletionRemovesDeviceConfig(k, c, tape, n);
  }

  // ---------- in what order ----------

  /** The object of this kind and name is stored, and the DeviceConfig that is stored now controls it. */
  ghost predicate Has(c: World, k: Key, kind: Kind, suffix: string)
    requires k in c.dcs
  {
    var ck := ChildKey(kind, Key(k.ns, k.name + suffix));
    ck in c.children && OwnedBy(c.children[ck], c.dcs[k].uid)
  }

  lemma HasIsOwned(c: World, k: Key)
    requires k in c.dcs
    ensures Has(c, k, KindModule, "-module") <==> Owned(c, k, ModuleStage)
    ensures Has(c, k, KindDaemonSet, "-node-labeler") <==> Owned(c, k, LabelerStage)
    ensures Has(c, k, KindDaemonSet, "-node-metrics") <==> Owned(c, k, MetricsStage)
    ensures Has(c, k, KindService, "-node-metrics") <==> Owned(c, k, ServiceStage)
  {
    Deployment.ChildrenAreThere(k, ModuleStage);
    Deployment.ChildrenAreThere(k, LabelerStage);
    Deployment.ChildrenAreThere(k, MetricsStage);
    Deployment.ChildrenAreThere(k, ServiceStage);
  }

  /** A reader who finds a child of a live DeviceConfig finds those that come before it, at every moment of
      every run. */
  lemma {:induction false} ChildrenComeInOrder(y: System, es: seq<Event>, k: Key)
    requires Initial(y) && SparesAll(y, es)
    requires k in Runs(y, es).c.dcs && !Runs(y, es).c.dcs[k].deleting
    ensures var c := Runs(y, es).c;
            && (Has(c, k, KindService, "-node-metrics") ==> Has(c, k, KindDaemonSet, "-node-metrics"))
            && (Has(c, k, KindDaemonSet, "-node-metrics") ==> Has(c, k, KindDaemonSet, "-node-labeler"))
            && (Has(c, k, KindDaemonSet, "-node-labeler") ==> Has(c, k, KindModule, "-module"))
  {
    hide Runs, SparesAll, Owned, Has;
    var c := Runs(y, es).c;
    HasIsOwned(c, k);
    if Owned(c, k, ServiceStage) { OwnedChildrenArePrefix(y, es, k, MetricsStage, ServiceStage); }
    if Owned(c, k, MetricsStage) { OwnedChildrenArePrefix(y, es, k, LabelerStage, MetricsStage); }
    if Owned(c, k, LabelerStage) { OwnedChildrenArePrefix(y, es, k, ModuleStage, LabelerStage); }
  }
}
