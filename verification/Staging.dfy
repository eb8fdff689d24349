/**
 The scene of the runs that show what happens outside the hypotheses: one node, one DeviceConfig that
 is deployed on it, and another that may be created for the same node.
 */
module Staging {
  import opened Wrappers
  import opened Api
  import opened Objects
  import opened Children
  import opened Store
  import opened NodeSelector
  import opened Machine
  import opened System
  import opened Invariant
  import opened Spared
  import opened Safety
  import opened PlainSelectors
  import opened Exclusivity
  import opened Sequential
  import Adoption
  import Conditions
  import Confluence
  import LonePass
  import NonInterference

  const OWNER := Key("lab", "alpha")
  const OTHER := Key("lab", "beta")
  const SPEC := Spec("driver", "1", None)
  const NODE := "node"

  /** What the operator selects nodes by if it is given no selector. */
  function Default(): Labels {
    GetNodeSelector(SPEC, [])
  }

  /** One node, and it is for the operator. */
  function Empty(): World {
    World(map[], map[NODE := Default()], map[], map[], Settings("", "", ""), 0, 0, 0)
  }

  function ModuleKey(): ChildKey {
    ChildKeyOf(OWNER, ModuleStage)
  }

  /** What the theorems about whole runs allow in any case: nothing is edited, no node joins, and no
      selector is empty. */
  predicate Quiet(e: Event) {
    !e.UserEditDriver? && !e.UserEditSelector? && !e.NodeSet? && WritesSafely(e, false)
  }

  /** Nobody strips the operator's finalizer either, or puts one on a Module. */
  predicate Undisturbing(e: Event) {
    Quiet(e) && KeepsFinalizers(e) && LeavesModules(e)
  }

  /** The node is there, with the Module that the first DeviceConfig has there, and nothing is called like
      a child of the other. */
  ghost predicate Scene(c: World) {
    && c.nodes == map[NODE := Default()]
    && ModuleKey() in c.children && DeployedSelector(c.children[ModuleKey()]) == Some(Default())
    && forall s :: ChildKeyOf(OTHER, s) !in c.children
  }

  lemma ModuleKind(k: Key)
    ensures ChildKeyOf(k, ModuleStage).kind == KindModule
  {
  }

  lemma TwoKeys()
    ensures OWNER != OTHER
    ensures forall s :: ModuleKey() != ChildKeyOf(OTHER, s)
  {
    assert OWNER.name[0] != OTHER.name[0];
    forall s ensures ModuleKey() != ChildKeyOf(OTHER, s) { ChildKeysDistinct(OWNER, ModuleStage, OTHER, s); }
  }

  // ---------- health ----------

  /** A DeviceConfig that is the only one shares no node with another. */
  lemma OnlyOne(c: World, k: Key)
    requires c.dcs.Keys == {k} && c.dcs[k].key == k
    ensures ConflictFree(c)
  {
    hide ListDeviceConfigs, PairwiseDisjoint;
    ConflictFreeMeans(c);
  }

  lemma CreatedIs(c: World, k: Key)
    ensures Environment(c, UserCreate(k, SPEC, [])) == Create(c, k, SPEC, [])
  {
  }

  /** Creating the only DeviceConfig in a reachable state. */
  lemma ThenCreate(y: System, es: seq<Event>, k: Key) returns (more: seq<Event>)
    requires Initial(y) && Runs(y, es).c.dcs == map[]
    ensures more == es + [UserCreate(k, SPEC, [])] && Runs(y, more).workers == Runs(y, es).workers
    ensures var c, c' := Runs(y, es).c, Runs(y, more).c;
            && c' == Create(c, k, SPEC, []) && Healthy(c', k) && Kept(c', k)
            && c'.dcs.Keys == {k} && c'.dcs[k].spec == SPEC && c'.dcs[k].finalizers == []
            && c'.children == c.children && c'.nodes == c.nodes
  {
    hide Runs, Healthy, ConflictFree, Environment;
    more := es + [UserCreate(k, SPEC, [])];
    LonePass.Then(y, es, UserCreate(k, SPEC, []));
    var c' := Runs(y, more).c;
    CreatedIs(Runs(y, es).c, k);
    assert c'.dcs.Keys == {k};
    OnlyOne(c', k);
    Adoption.ReachableIsHealthy(y, more, k);
  }

  // ---------- the first DeviceConfig ----------

  /** The Module stays as deleted or not, and as held on to, as the pass found it. */
  lemma ModuleKeeps(c: World, k: Key, o: Object)
    requires k in c.dcs && Target(c, k, ModuleStage) == Success(o)
    ensures var was := Input(c, k, ModuleStage);
            o.finalizers == was.finalizers && o.deleting == was.deleting
    ensures c.dcs[k].spec == SPEC ==> DeployedSelector(o) == Some(Default())
  {
    hide ChildKeyOf, SetDesired;
    var was := Input(c, k, ModuleStage);
    SetterIdempotentAndFramed(ModuleStage, was, was, c.dcs[k], c.settings);
    SetterMeansConform(ModuleStage, was, c.dcs[k], c.settings);
    ValidatedNodesAreDeployedNodes(ModuleStage, o, c.dcs[k], c.settings);
  }

  lemma OthersAbsent(c: World)
    requires Keyed(c) && forall s :: ChildKeyOf(OTHER, s) !in c.children
    ensures forall s :: ChildKeyOf(OTHER, s) !in Pass(OWNER, c, []).0.children
  {
    hide ChildKeyOf, Pass;
    TwoKeys();
    forall s ensures ChildKeyOf(OTHER, s) !in Pass(OWNER, c, []).0.children {
      NonInterference.PassLeavesOthersAlone(OWNER, c, [], OTHER, s);
    }
  }

  /** Deployed, live, with the operator's finalizer, and nobody holds on to the Module. */
  ghost predicate Deployed(c: World) {
    && Scene(c) && StoreOk(c)
    && c.dcs.Keys == {OWNER} && !c.dcs[OWNER].deleting && c.dcs[OWNER].finalizers == [DELETION_FINALIZER]
    && c.children[ModuleKey()].finalizers == [] && !c.children[ModuleKey()].deleting
  }

  lemma FirstPass(c: World)
    requires Healthy(c, OWNER) && Kept(c, OWNER) && c.children == map[] && c.dcs.Keys == {OWNER}
    requires c.dcs[OWNER].finalizers == [] && c.dcs[OWNER].spec == SPEC && c.nodes == map[NODE := Default()]
    ensures Deployed(Pass(OWNER, c, []).0)
  {
    hide Pass, Target, ChildKeyOf, ConflictFree, NotForeign, Kept, Conditions.IsReady, SaysReady, AppliedAt, DeployedSelector;
    hide Conditions.WellFormed;
    Confluence.PassReachesTargets(c, OWNER);
    OthersAbsent(c);
    ModuleKeeps(c, OWNER, Target(c, OWNER, ModuleStage).value);
    InputIsNew(c);
  }

  lemma InputIsNew(c: World)
    requires c.children == map[]
    ensures Input(c, OWNER, ModuleStage).finalizers == [] && !Input(c, OWNER, ModuleStage).deleting
    ensures ModuleKey() == ChildKeyOf(OWNER, ModuleStage)
  {
  }

  lemma {:induction false} DeployedRun() returns (y: System, es: seq<Event>)
    ensures Initial(y) && (forall e :: e in es ==> Undisturbing(e))
    ensures Deployed(Runs(y, es).c) && Runs(y, es).workers == map[]
  {
    hide Pass, Runs, Healthy, Deployed, Create, Kept;
    y := System(Empty(), map[], map[]);
    assert Runs(y, []) == y by { NoEvents(y); }
    var created := ThenCreate(y, [], OWNER);
    FirstPass(Runs(y, created).c);
    es := LonePass.ThenPass(y, created, OWNER);
  }

  lemma NoEvents(y: System)
    ensures Runs(y, []) == y
  {
  }

  // ---------- the other one ----------

  lemma MatchesItself(labels: Labels)
    ensures Matches(labels, labels)
  {
  }

  lemma TwoModules(c: World)
    requires Healthy(c, OTHER) && Kept(c, OTHER) && OTHER in c.dcs && c.dcs[OTHER].spec == SPEC && Scene(c)
    ensures !NoSharedNode(Pass(OTHER, c, []).0)
  {
    hide ChildKeyOf, Pass, Healthy, Settled, Target, Kept, DeployedSelector, Matches, Frame;
    Confluence.PassReachesTargets(c, OTHER);
    var c' := Pass(OTHER, c, []).0;
    var ck := ChildKeyOf(OTHER, ModuleStage);
    TwoKeys();
    assert Lookup(c', ModuleKey()) == Lookup(c, ModuleKey());
    ModuleKeeps(c, OTHER, Target(c, OTHER, ModuleStage).value);
    assert Lookup(c', ck) == Some(Target(c, OTHER, ModuleStage).value);
    ModuleKind(OTHER);
    ModuleKind(OWNER);
    assert NODE in c'.nodes && c'.nodes[NODE] == Default();
    MatchesItself(Default());
  }

  lemma SameScene(c: World, c': World)
    requires Scene(c) && c'.nodes == c.nodes && c'.children == c.children
    ensures Scene(c')
  {
  }

  /** Once the first DeviceConfig is gone and its Module is not, the other is given the same node. */
  lemma {:induction false} OtherShares(y: System, es: seq<Event>) returns (more: seq<Event>)
    requires Initial(y) && Scene(Runs(y, es).c) && Runs(y, es).c.dcs == map[] && Runs(y, es).workers == map[]
    ensures es <= more && forall j :: |es| <= j < |more| ==> Undisturbing(more[j])
    ensures !NoSharedNode(Runs(y, more).c)
  {
    hide Pass, Runs, Healthy, Scene, Create, Kept, NoSharedNode;
    var created := ThenCreate(y, es, OTHER);
    SameScene(Runs(y, es).c, Runs(y, created).c);
    TwoModules(Runs(y, created).c);
    more := LonePass.ThenPass(y, created, OTHER);
  }
}
