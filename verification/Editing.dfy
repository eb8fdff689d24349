/**
 What happens if a selector is edited. The validator goes by the selectors that are stored, and the Module
 of an edited DeviceConfig keeps the old one until its next pass: another DeviceConfig is given a node
 that the Module is still on. Every other event of the run is one that the theorems allow.
 */
module Editing {
  import opened Wrappers
  import opened Api
  import opened Children
  import opened Store
  import opened NodeSelector
  import opened System
  import opened Invariant
  import opened Spared
  import opened Exclusivity
  import opened Sequential
  import opened Staging
  import Adoption
  import LonePass

  const RACK: Labels := map["rack" := "1"]

  /** Undisturbing but for one event, which edits the selector of the first DeviceConfig. */
  predicate EditsOnce(es: seq<Event>, i: nat) {
    && i < |es| && es[i] == UserEditSelector(OWNER, Some(RACK))
    && forall j :: 0 <= j < |es| && j != i ==> Undisturbing(es[j])
  }

  /** The first DeviceConfig claims the racks, its Module is still where it was. */
  ghost predicate Moved(c: World) {
    && Scene(c) && StoreOk(c) && c.dcs.Keys == {OWNER} && c.dcs[OWNER].spec.nodeSelector == Some(RACK)
  }

  lemma Edits(c: World)
    requires Deployed(c)
    ensures Moved(Environment(c, UserEditSelector(OWNER, Some(RACK))))
  {
    hide ChildKeyOf, DeployedSelector;
    SameScene(c, Environment(c, UserEditSelector(OWNER, Some(RACK))));
  }

  lemma NotTheNode()
    ensures !Matches(RACK, Default())
  {
    OneSelectorForAll(SPEC, [], Default());
    assert "rack" in RACK && "rack" !in Default() by {
      assert |"rack"| != |"feature.node.kubernetes.io/pci-1da3.present"|;
    }
  }

  lemma NoConflict(c: World)
    requires Moved(c)
    ensures ConflictFree(Create(c, OTHER, SPEC, []))
  {
    hide ChildKeyOf, DeployedSelector, ListDeviceConfigs, PairwiseDisjoint, Matches, StoreOk;
    TwoKeys();
    var c' := Create(c, OTHER, SPEC, []);
    NotTheNode();
    assert c'.dcs.Keys == {OWNER, OTHER} && forall n :: n in c'.nodes ==> n == NODE;
    assert Disjoint(c', c'.dcs[OWNER], c'.dcs[OTHER]);
    hide Disjoint, Scene;
    DisjointIsSymmetric(c', c'.dcs[OWNER], c'.dcs[OTHER]);
    KeysKept(c);
    ConflictFreeMeans(c');
  }

  lemma KeysKept(c: World)
    requires StoreOk(c) && OWNER in c.dcs && OTHER !in c.dcs
    ensures Create(c, OTHER, SPEC, []).dcs[OWNER].key == OWNER && Create(c, OTHER, SPEC, []).dcs[OTHER].key == OTHER
  {
  }

  /** A run in which the second DeviceConfig is created after the edit. */
  lemma {:induction false} EditedRun() returns (y: System, es: seq<Event>, i: nat)
    ensures Initial(y) && EditsOnce(es, i)
    ensures var c := Runs(y, es).c;
            Runs(y, es).workers == map[] && OTHER in c.dcs && c.dcs[OTHER].spec == SPEC
            && Healthy(c, OTHER) && Kept(c, OTHER) && Scene(c)
  {
    hide Runs, Deployed, Scene, Moved, Initial, Environment, Healthy, Kept, ConflictFree;
    var before;
    y, before := DeployedRun();
    var edit, create := UserEditSelector(OWNER, Some(RACK)), UserCreate(OTHER, SPEC, []);
    LonePass.Then(y, before, edit);
    Edits(Runs(y, before).c);
    LonePass.Then(y, before + [edit], create);
    CreatedIs(Runs(y, before + [edit]).c, OTHER);
    NoConflict(Runs(y, before + [edit]).c);
    es, i := before + [edit] + [create], |before|;
    ThenHealthy(y, before + [edit], es);
    forall j | 0 <= j < |es| && j != i ensures Undisturbing(es[j]) {
      if j < |before| { assert es[j] == before[j]; }
    }
  }

  /** What a pass adds disturbs nothing. */
  lemma StillOnce(es: seq<Event>, more: seq<Event>, i: nat)
    requires EditsOnce(es, i) && es <= more && forall j :: |es| <= j < |more| ==> more[j].Enqueue? || more[j].Call?
    ensures EditsOnce(more, i) && forall e :: e in more ==> LeavesModules(e)
  {
    forall j | 0 <= j < |more| && j != i ensures Undisturbing(more[j]) {
      if j < |es| { assert more[j] == es[j]; }
    }
  }

  /** Why selectors may not be edited. */
  lemma {:induction false} EditingBreaksExclusivity()
    ensures exists y, es, i :: Initial(y) && SparesAll(y, es) && EditsOnce(es, i) && !NoSharedNode(Runs(y, es).c)
  {
    hide Runs, SparesAll, FreeSystem, Scene, NoSharedNode, Initial, EditsOnce, Healthy, Kept;
    var y, edited, i := EditedRun();
    TwoModules(Runs(y, edited).c);
    var es := LonePass.ThenPass(y, edited, OTHER);
    StillOnce(edited, es, i);
    UnheldRunsAreSpared(y, es);
    assert SparesAll(y, es) && !NoSharedNode(Runs(y, es).c);
  }

  lemma ThenHealthy(y: System, edited: seq<Event>, created: seq<Event>)
    requires Initial(y) && Moved(Runs(y, edited).c) && ConflictFree(Runs(y, created).c)
    requires Runs(y, created).c == Create(Runs(y, edited).c, OTHER, SPEC, [])
    ensures var c := Runs(y, created).c;
            OTHER in c.dcs && c.dcs[OTHER].spec == SPEC && Healthy(c, OTHER) && Kept(c, OTHER) && Scene(c)
  {
    hide Runs, ConflictFree, ChildKeyOf, DeployedSelector, Healthy;
    TwoKeys();
    Adoption.ReachableIsHealthy(y, created, OTHER);
    SameScene(Runs(y, edited).c, Runs(y, created).c);
  }
}
