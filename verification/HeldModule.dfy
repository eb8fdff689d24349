/**
 What another controller's finalizer on a Module does to the operator's. The API server only marks
 such a Module when it is deleted, the controller takes that for done, and releases the DeviceConfig
 while its Module is still there. Another DeviceConfig may then be given the same nodes; and one created
 again under the same name adopts that Module and reports Ready, or a failure further on, while the
 finalizer is taken off and the Module goes. In these runs a Delete meets a held Module; every other
 hypothesis of the theorems is met.
 */
module HeldModule {
  import opened Api
  import opened Objects
  import opened Children
  import opened Store
  import opened Machine
  import opened System
  import opened Invariant
  import opened Safety
  import opened Exclusivity
  import opened Sequential
  import opened Convergence
  import opened Staging
  import Conditions
  import Confluence
  import Finalizers
  import LonePass
  import NonInterference

  /** Quiet, with the operator's finalizers left alone, and `f` the only finalizer put on a Module. */
  predicate QuietButHeld(e: Event, f: string) {
    Quiet(e) && KeepsFinalizers(e) && (e.ModuleAddFinalizer? ==> e.f == f)
  }

  /** The DeviceConfig is gone, its Module is marked and held. */
  ghost predicate LeftBehind(c: World, f: string) {
    && Scene(c) && c.dcs == map[]
    && c.children[ModuleKey()].finalizers == [f] && c.children[ModuleKey()].deleting
  }

  // ---------- held, deleted, released ----------

  /** A DeviceConfig that is being deleted, with a Module that somebody else holds on to. */
  ghost predicate HeldAndDoomed(c: World, f: string) {
    && StoreOk(c) && c.dcs.Keys == {OWNER} && c.dcs[OWNER].deleting && c.dcs[OWNER].finalizers == [DELETION_FINALIZER]
    && Scene(c) && c.children[ModuleKey()].finalizers == [f]
  }

  lemma HoldsAndDooms(c: World, f: string)
    requires Deployed(c)
    ensures HeldAndDoomed(Environment(Environment(c, ModuleAddFinalizer(ModuleKey(), f)), UserDelete(OWNER)), f)
  {
    hide ChildKeyOf, ModuleKey, DeployedSelector;
    assert ModuleKey().kind == KindModule by { ModuleIs(); }
    assert forall s :: ModuleKey() != ChildKeyOf(OTHER, s) by { TwoKeys(); }
    var o := c.children[ModuleKey()];
    assert Finalizers.Add(o.finalizers, f) == [f];
    assert DeployedSelector(o.(finalizers := [f])) == DeployedSelector(o) by { AlikeDeploy(o, o.(finalizers := [f])); }
    assert Environment(c, ModuleAddFinalizer(ModuleKey(), f)) == c.(children := c.children[ModuleKey() := o.(finalizers := [f])]);
  }

  lemma ModuleIs()
    ensures ModuleKey().kind == KindModule && ModuleKey() == ChildKeyOf(OWNER, ModuleStage)
  {
  }

  lemma ReleasesAndLeaves(c: World, f: string)
    requires HeldAndDoomed(c, f)
    ensures LeftBehind(Pass(OWNER, c, []).0, f)
  {
    hide ChildKeyOf, Run, DeployedSelector;
    assert Finalizers.Remove([DELETION_FINALIZER], DELETION_FINALIZER) == [];
    ModuleIs();
    var left := LeftOf(StoredModule(c, OWNER));
    DeletionRun(c, NewWorker(OWNER), [], [], left);
    NonInterference.RunTouchesOnlyOwn(NewWorker(OWNER), c, []);
    OthersAbsent(c);
    var c' := Pass(OWNER, c, []).0;
    assert c'.dcs.Keys == {};
    Marked(c.children[ModuleKey()]);
  }

  lemma Marked(o: Object)
    ensures DeployedSelector(o.(deleting := true)) == DeployedSelector(o)
  {
  }

  lemma {:induction false} HeldRun(f: string) returns (y: System, es: seq<Event>)
    ensures Initial(y) && (forall e :: e in es ==> QuietButHeld(e, f))
    ensures LeftBehind(Runs(y, es).c, f) && Runs(y, es).workers == map[]
  {
    hide Pass, Runs, Deployed, HeldAndDoomed, LeftBehind, ModuleKey, Environment;
    var before;
    y, before := DeployedRun();
    var hold, doom := ModuleAddFinalizer(ModuleKey(), f), UserDelete(OWNER);
    LonePass.Then(y, before, hold);
    LonePass.Then(y, before + [hold], doom);
    HoldsAndDooms(Runs(y, before).c, f);
    ReleasesAndLeaves(Runs(y, before + [hold] + [doom]).c, f);
    es := LonePass.ThenPass(y, before + [hold] + [doom], OWNER);
    assert forall e :: e in before + [hold] + [doom] ==> QuietButHeld(e, f);
    Extended(before + [hold] + [doom], es, f);
  }

  /** What passes add is quiet. */
  lemma Extended(es: seq<Event>, more: seq<Event>, f: string)
    requires es <= more && forall e :: e in es ==> QuietButHeld(e, f)
    requires forall j :: |es| <= j < |more| ==> QuietButHeld(more[j], f)
    ensures forall e :: e in more ==> QuietButHeld(e, f)
  {
    hide QuietButHeld;
    forall j | 0 <= j < |more| ensures QuietButHeld(more[j], f) {
      if j < |es| { assert more[j] == es[j]; }
    }
  }

  /** Why no Delete may meet a Module that others hold on to, for Modules and their owners: for every
      finalizer a run that ends with a Module without its DeviceConfig. */
  lemma {:induction false} HeldModuleLosesTheOwner(f: string)
    ensures exists y, es :: Initial(y) && (forall e :: e in es ==> QuietButHeld(e, f)) && !ModulesOwned(Runs(y, es).c)
  {
    hide Runs, ModulesOwned, Initial;
    var y, es := HeldRun(f);
    ModuleIs();
    Unowned(Runs(y, es).c, OWNER);
  }

  /** For exclusivity: the validator does not know the Module that was left behind. */
  lemma {:induction false} HeldModuleBreaksExclusivity(f: string)
    ensures exists y, es :: Initial(y) && (forall e :: e in es ==> QuietButHeld(e, f)) && !NoSharedNode(Runs(y, es).c)
  {
    hide Runs, Scene, NoSharedNode, Initial;
    var y, es := HeldRun(f);
    var more := OtherShares(y, es);
    Extended(es, more, f);
  }

  // ---------- created again ----------

  /** A Module of the DeviceConfig that goes with its last finalizer. */
  ghost predicate Going(c: World, f: string) {
    ModuleKey() in c.children && c.children[ModuleKey()].finalizers == [f] && c.children[ModuleKey()].deleting
  }

  lemma Goes(c: World, f: string)
    requires Going(c, f)
    ensures Environment(c, ModuleRemoveFinalizer(ModuleKey(), f)) == c.(children := c.children - {ModuleKey()})
  {
    ModuleIs();
    assert Finalizers.Remove([f], f) == [];
    hide ModuleKey;
  }

  /** A pass over the DeviceConfig adopts the Module as it is. */
  lemma StillGoing(c: World, c': World, f: string)
    requires Going(c, f) && Frame(c, c', OWNER)
    ensures Going(c', f)
  {
    ModuleIs();
    hide ChildKeyOf, ModuleKey, SameIdentity, Target;
    if Lookup(c', ModuleKey()) != Lookup(c, ModuleKey()) {
      ModuleKeeps(c, OWNER, Target(c, OWNER, ModuleStage).value);
    }
  }

  lemma {:induction false} AgainRun(f: string) returns (y: System, es: seq<Event>)
    ensures Initial(y) && (forall e :: e in es ==> QuietButHeld(e, f))
    ensures Runs(y, es).workers == map[] && Going(Runs(y, es).c, f)
    ensures Healthy(Runs(y, es).c, OWNER) && Kept(Runs(y, es).c, OWNER)
  {
    hide Runs, Healthy, Kept, Create, ModuleKey;
    var before;
    y, before := HeldRun(f);
    es := ThenCreate(y, before, OWNER);
  }

  // ---------- after the pass ----------

  /** Ready, with a DaemonSet of its own and no Module. */
  ghost predicate ReadyWithoutModule(c: World, k: Key) {
    && k in c.dcs && !c.dcs[k].deleting && Conditions.IsReady(c.dcs[k].conditions)
    && !AppliedAt(c, c.dcs[k], ModuleStage) && Owned(c, k, LabelerStage) && !Owned(c, k, ModuleStage)
  }

  lemma OwnsWhatItApplied(c: World)
    requires Settled(c, OWNER) && c.dcs[OWNER].key == OWNER
    ensures Owned(c, OWNER, LabelerStage)
  {
    hide ChildKeyOf, Conditions.IsReady, SaysReady, Finalizers.Contains;
    assert AppliedAt(c, c.dcs[OWNER], LabelerStage);
    AppliedIsOwned(c, c.dcs[OWNER], LabelerStage);
  }

  lemma LosesItsModule(c: World, f: string)
    requires Healthy(c, OWNER) && Settled(c, OWNER) && Going(c, f)
    ensures ReadyWithoutModule(Environment(c, ModuleRemoveFinalizer(ModuleKey(), f)), OWNER)
  {
    HealthyFacts(c, OWNER);
    OwnsWhatItApplied(c);
    Goes(c, f);
    ModuleIs();
    ChildKeysDistinct(OWNER, ModuleStage, OWNER, LabelerStage);
    hide ChildKeyOf, ModuleKey, Conforms, ControllerOf, Conditions.IsReady, Environment, Healthy, SaysReady, Finalizers.Contains;
  }

  /** For what a status says and for the order of the children: nobody ever edits anything, and a live
      DeviceConfig that says Ready ends with its DaemonSet and without its Module. */
  lemma {:induction false} HeldModuleBreaksReady(f: string)
    ensures exists y, es, k ::
              Initial(y) && (forall e :: e in es ==> QuietButHeld(e, f)) && ReadyWithoutModule(Runs(y, es).c, k)
  {
    hide Pass, Runs, Healthy, Kept, Settled, Going, Frame, ModuleKey, Environment, ReadyWithoutModule, Initial;
    var y, before := AgainRun(f);
    var c := Runs(y, before).c;
    var passed := LonePass.ThenPass(y, before, OWNER);
    var c' := Runs(y, passed).c;
    Confluence.PassReachesTargets(c, OWNER);
    StillGoing(c, c', f);
    LosesItsModule(c', f);
    Extended(before, passed, f);
    var lets := ModuleRemoveFinalizer(ModuleKey(), f);
    LonePass.Then(y, passed, lets);
    assert ReadyWithoutModule(Runs(y, passed + [lets]).c, OWNER);
    assert forall e :: e in passed + [lets] ==> QuietButHeld(e, f);
  }
}
