/**
 What happens if somebody else takes the operator's finalizer off: the DeviceConfig goes and its Module
 stays, and another DeviceConfig is given the same nodes. Every other event of these runs is one that the
 theorems allow.
 */
module Stripping {
  import opened Api
  import opened Children
  import opened Store
  import opened System
  import opened Spared
  import opened Safety
  import opened Exclusivity
  import opened Staging
  import LonePass

  /** Undisturbing but for one event, which strips the finalizer. */
  predicate StripsOnce(es: seq<Event>, i: nat) {
    && i < |es| && es[i] == UserRemoveFinalizer(OWNER, DELETION_FINALIZER)
    && forall j :: 0 <= j < |es| && j != i ==> Undisturbing(es[j])
  }

  /** The first DeviceConfig is gone, its Module is not. */
  ghost predicate LeftOver(c: World) {
    Scene(c) && c.dcs == map[]
  }

  lemma DeletesAndStrips(c: World)
    requires Deployed(c)
    ensures var c1 := Environment(c, UserDelete(OWNER));
            LeftOver(Environment(c1, UserRemoveFinalizer(OWNER, DELETION_FINALIZER)))
  {
    hide ChildKeyOf, DeployedSelector;
    var c1 := Environment(c, UserDelete(OWNER));
    assert c1.dcs.Keys == {OWNER} && c1.dcs[OWNER].deleting && c1.dcs[OWNER].finalizers == [DELETION_FINALIZER];
    StrippingLeavesTheModule(c1, OWNER);
    SameScene(c, Environment(c1, UserRemoveFinalizer(OWNER, DELETION_FINALIZER)));
  }

  lemma {:induction false} StrippedRun() returns (y: System, es: seq<Event>, i: nat)
    ensures Initial(y) && SparesAll(y, es) && StripsOnce(es, i)
    ensures LeftOver(Runs(y, es).c) && Runs(y, es).workers == map[]
  {
    hide Runs, Deployed, LeftOver, SparesAll, FreeSystem, Environment;
    var before;
    y, before := DeployedRun();
    var doomed := before + [UserDelete(OWNER)];
    LonePass.Then(y, before, UserDelete(OWNER));
    es := doomed + [UserRemoveFinalizer(OWNER, DELETION_FINALIZER)];
    LonePass.Then(y, doomed, UserRemoveFinalizer(OWNER, DELETION_FINALIZER));
    i := |doomed|;
    DeletesAndStrips(Runs(y, before).c);
    forall j | 0 <= j < |es| && j != i ensures Undisturbing(es[j]) {
      if j < |before| { assert es[j] in before; }
    }
    UnheldRunsAreSpared(y, es);
  }

  lemma NotOwned(c: World)
    requires LeftOver(c)
    ensures !ModulesOwned(c)
  {
    assert ModuleKey() == ChildKeyOf(OWNER, ModuleStage) by { ModuleKind(OWNER); }
    Unowned(c, OWNER);
  }

  /** Why nobody but the operator may take its finalizer off, for Modules and their owners. */
  lemma {:induction false} StrippingLosesTheOwner()
    ensures exists y, es, i :: Initial(y) && SparesAll(y, es) && StripsOnce(es, i) && !ModulesOwned(Runs(y, es).c)
  {
    hide Runs, SparesAll, LeftOver, ModulesOwned, StripsOnce, Initial;
    var y, es, i := StrippedRun();
    NotOwned(Runs(y, es).c);
  }

  /** And for exclusivity: the validator does not know the Module that was left behind. */
  lemma {:induction false} StrippingBreaksExclusivity()
    ensures exists y, es, i :: Initial(y) && SparesAll(y, es) && StripsOnce(es, i) && !NoSharedNode(Runs(y, es).c)
  {
    hide Runs, SparesAll, FreeSystem, Scene, NoSharedNode, Initial;
    var y, es, i := StrippedRun();
    var more := OtherShares(y, es);
    assert StripsOnce(more, i) by {
      forall j | 0 <= j < |more| && j != i ensures Undisturbing(more[j]) {
        if j < |es| { assert more[j] == es[j]; }
      }
    }
    UnheldRunsAreSpared(y, more);
    assert SparesAll(y, more) && !NoSharedNode(Runs(y, more).c);
  }
}
