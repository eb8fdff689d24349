/**
 What an empty selector does to exclusivity. A DeviceConfig is created with a present but empty
 selector; the write of its finalizer leaves the selector out, but the pass that made the write goes
 on with the empty one and stores a Module for every node. The next DeviceConfig is validated against
 the selector that is stored, and shares a node with that Module. This happens for every specification
 with an empty selector, whatever foreign finalizers it comes with, and for no other.
 */
module EmptySelector {
  import opened Wrappers
  import opened Api
  import opened Objects
  import opened Children
  import opened Store
  import opened NodeSelector
  import opened Machine
  import opened System
  import opened Invariant
  import opened Preservation
  import opened Spared
  import opened Safety
  import opened PlainSelectors
  import opened Sequential
  import opened Dropping
  import opened Convergence
  import opened Exclusivity
  import Conditions
  import Confluence
  import Finalizers
  import LonePass
  import Status

  const ALPHA := Key("lab", "alpha")
  const BETA := Key("lab", "beta")
  const NODE := "node"
  const RACK: Labels := map["rack" := "1"]
  const BY_RACK := Spec("driver", "1", Some(RACK))

  /** A cluster of one node that none of the default selectors match. */
  function OneNode(): World {
    World(map[], map[NODE := RACK], map[], map[], Settings("", "", ""), 0, 0, 0)
  }

  // ---------- the first DeviceConfig ----------

  function WithFirst(spec: Spec, fs: seq<string>): World {
    Create(OneNode(), ALPHA, spec, fs)
  }

  lemma FirstIsHealthy(spec: Spec, fs: seq<string>)
    ensures Healthy(WithFirst(spec, fs), ALPHA)
  {
    hide ListDeviceConfigs, ChildKeyOf, PairwiseDisjoint;
    var c := WithFirst(spec, fs);
    assert c.dcs.Keys == {ALPHA} && c.children == map[];
    ConflictFreeMeans(c);
    Status.NoConditions();
  }

  /** What the first pass leaves behind. */
  ghost predicate AfterFirst(c: World) {
    && StoreOk(c) && c.nodes == map[NODE := RACK]
    && c.dcs.Keys == {ALPHA} && c.dcs[ALPHA].spec.nodeSelector == None
    && (forall ck :: ck in c.children ==> exists s :: ck == ChildKeyOf(ALPHA, s))
    && ChildKeyOf(ALPHA, ModuleStage) in c.children
    && DeployedSelector(c.children[ChildKeyOf(ALPHA, ModuleStage)]) == Some(map[])
  }

  lemma FirstPass(spec: Spec, fs: seq<string>)
    requires !Plain(spec) && !Finalizers.Contains(fs)
    ensures AfterFirst(Pass(ALPHA, WithFirst(spec, fs), []).0)
  {
    hide Pass, Settled, Frame, Target, Lookup, ChildKeyOf, ConflictFree, NotForeign, Respec;
    var c := WithFirst(spec, fs);
    assert c.dcs.Keys == {ALPHA} && c.children == map[] && !Kept(c, ALPHA);
    FirstIsHealthy(spec, fs);
    Confluence.PassReachesTargets(c, ALPHA);
    PassAlone(ALPHA, c, []);
    var c' := Pass(ALPHA, c, []).0;
    assert c'.dcs[ALPHA].spec == Encoded(spec) by {
      if c'.dcs[ALPHA].spec == spec { PutBack(c', ALPHA); }
    }
    FirstModule(c, c');
    FirstChildren(c, c');
  }

  lemma PutBack(c: World, k: Key)
    requires k in c.dcs
    ensures Respec(c, k, c.dcs[k].spec) == c
  {
    assert c.dcs[k := c.dcs[k]] == c.dcs;
  }

  lemma FirstModule(c: World, c': World)
    requires ALPHA in c.dcs && c.dcs[ALPHA].spec.nodeSelector == Some(map[])
    requires Target(c, ALPHA, ModuleStage).Success?
    requires Lookup(c', ChildKeyOf(ALPHA, ModuleStage)) == Some(Target(c, ALPHA, ModuleStage).value)
    ensures ChildKeyOf(ALPHA, ModuleStage) in c'.children
    ensures DeployedSelector(c'.children[ChildKeyOf(ALPHA, ModuleStage)]) == Some(map[])
  {
    hide ChildKeyOf, SetDesired;
    SetterMeansConform(ModuleStage, Input(c, ALPHA, ModuleStage), c.dcs[ALPHA], c.settings);
    ValidatedNodesAreDeployedNodes(ModuleStage, Target(c, ALPHA, ModuleStage).value, c.dcs[ALPHA], c.settings);
  }

  lemma FirstChildren(c: World, c': World)
    requires c.children == map[] && OthersStay(c, c', ALPHA)
    ensures forall ck :: ck in c'.children ==> exists s :: ck == ChildKeyOf(ALPHA, s)
  {
    hide ChildKeyOf;
    forall ck | ck in c'.children ensures exists s :: ck == ChildKeyOf(ALPHA, s) {
      if forall s :: ck != ChildKeyOf(ALPHA, s) { assert Lookup(c', ck) == Lookup(c, ck); }
    }
  }

  // ---------- the second ----------

  function WithSecond(c: World): World {
    Create(c, BETA, BY_RACK, [])
  }

  lemma TwoKeys()
    ensures ALPHA != BETA
  {
    assert ALPHA.name[0] != BETA.name[0];
  }

  lemma SecondStore(c: World)
    requires AfterFirst(c)
    ensures var c' := WithSecond(c);
            && StoreOk(c') && Keyed(c') && c'.nodes == c.nodes && c'.children == c.children && c'.dcs.Keys == {ALPHA, BETA}
            && c'.dcs[ALPHA].spec.nodeSelector == None && c'.dcs[BETA].spec == BY_RACK && c'.dcs[BETA].conditions == []
            && c'.dcs[BETA].key == BETA && !c'.dcs[BETA].deleting && Kept(c', BETA)
  {
    hide ChildKeyOf, DeployedSelector;
    TwoKeys();
    assert WithSecond(c).dcs.Keys == {ALPHA, BETA};
    assert "rack" in RACK;
  }

  lemma NotByDefault(d: DeviceConfig)
    requires d.spec.nodeSelector == None
    ensures !Matches(Selector(d), RACK)
  {
    OneSelectorForAll(d.spec, [], RACK);
    assert "feature.node.kubernetes.io/pci-1da3.present" !in RACK by {
      assert |"rack"| != |"feature.node.kubernetes.io/pci-1da3.present"|;
    }
  }

  lemma SecondSharesNothing(c: World)
    requires AfterFirst(c)
    ensures ConflictFree(WithSecond(c))
  {
    SecondStore(c);
    hide ChildKeyOf, ListDeviceConfigs, PairwiseDisjoint, WithSecond, Matches, StoreOk, DeployedSelector;
    var c' := WithSecond(c);
    NotByDefault(c'.dcs[ALPHA]);
    assert !Selects(c', c'.dcs[ALPHA], NODE);
    assert Disjoint(c', c'.dcs[ALPHA], c'.dcs[BETA]) by { assert forall n :: n in c'.nodes ==> n == NODE; }
    hide Disjoint, AfterFirst;
    DisjointIsSymmetric(c', c'.dcs[ALPHA], c'.dcs[BETA]);
    ConflictFreeMeans(c');
  }

  lemma SecondIsFree(c: World)
    requires AfterFirst(c)
    ensures BETA in WithSecond(c).dcs && NotForeign(WithSecond(c), BETA)
  {
    SecondStore(c);
    TwoKeys();
    hide ChildKeyOf, WithSecond, StoreOk, DeployedSelector, ControllerOf;
    forall s ensures ChildKeyOf(BETA, s) !in WithSecond(c).children {
      if ChildKeyOf(BETA, s) in c.children {
        var t :| ChildKeyOf(BETA, s) == ChildKeyOf(ALPHA, t);
        ChildKeysDistinct(BETA, s, ALPHA, t);
      }
    }
  }

  lemma SecondIsHealthy(c: World)
    requires AfterFirst(c)
    ensures Healthy(WithSecond(c), BETA) && Kept(WithSecond(c), BETA)
  {
    SecondStore(c);
    SecondSharesNothing(c);
    SecondIsFree(c);
    Status.NoConditions();
    hide ChildKeyOf, WithSecond, ConflictFree, NotForeign, StoreOk, Conditions.WellFormed, AfterFirst;
  }

  lemma SharedNode(c: World)
    requires AfterFirst(c)
    ensures !NoSharedNode(Pass(BETA, WithSecond(c), []).0)
  {
    SecondStore(c);
    SecondIsHealthy(c);
    hide ChildKeyOf, Pass, Healthy, Settled, Target, WithSecond;
    hide StoreOk, Kept, Conditions.WellFormed, Lookup, DeployedSelector, Matches;
    var (c1, c2) := (WithSecond(c), Pass(BETA, WithSecond(c), []).0);
    Confluence.PassReachesTargets(c1, BETA);
    var a, b := ChildKeyOf(ALPHA, ModuleStage), ChildKeyOf(BETA, ModuleStage);
    TwoKeys();
    ChildKeysDistinct(ALPHA, ModuleStage, BETA, ModuleStage);
    forall s ensures a != ChildKeyOf(BETA, s) { ChildKeysDistinct(ALPHA, ModuleStage, BETA, s); }
    SameChild(c1, c2, a);
    SecondModule(c1, c2);
    ModuleKind(ALPHA);
    ModuleKind(BETA);
    assert NODE in c2.nodes && c2.nodes[NODE] == RACK;
    assert Matches(map[], RACK) && Matches(RACK, RACK) by { MatchesItself(RACK); }
  }

  lemma MatchesItself(labels: Labels)
    ensures Matches(map[], labels) && Matches(labels, labels)
  {
  }

  lemma SameChild(c: World, c': World, ck: ChildKey)
    requires Lookup(c', ck) == Lookup(c, ck) && ck in c.children
    ensures ck in c'.children && c'.children[ck] == c.children[ck]
  {
  }

  lemma SecondModule(c: World, c': World)
    requires BETA in c.dcs && c.dcs[BETA].spec == BY_RACK && Target(c, BETA, ModuleStage).Success?
    requires Lookup(c', ChildKeyOf(BETA, ModuleStage)) == Some(Target(c, BETA, ModuleStage).value)
    ensures ChildKeyOf(BETA, ModuleStage) in c'.children
    ensures DeployedSelector(c'.children[ChildKeyOf(BETA, ModuleStage)]) == Some(RACK)
  {
    hide ChildKeyOf, SetDesired;
    SetterMeansConform(ModuleStage, Input(c, BETA, ModuleStage), c.dcs[BETA], c.settings);
    ValidatedNodesAreDeployedNodes(ModuleStage, Target(c, BETA, ModuleStage).value, c.dcs[BETA], c.settings);
  }

  lemma ModuleKind(k: Key)
    ensures ChildKeyOf(k, ModuleStage).kind == KindModule
  {
  }

  // ---------- the run ----------

  /** Calm but for this one kind of creation. */
  predicate CalmBut(e: Event, spec: Spec, fs: seq<string>) {
    && KeepsFinalizers(e) && !e.UserEditSelector? && !e.NodeSet?
    && (e.UserCreate? ==> Safe(e.spec, e.finalizers, true) || (e.spec == spec && e.finalizers == fs))
  }

  lemma BreakingRun(spec: Spec, fs: seq<string>) returns (y: System, es: seq<Event>)
    requires !Plain(spec) && !Finalizers.Contains(fs)
    ensures Initial(y) && SparesAll(y, es) && (forall e :: e in es ==> CalmBut(e, spec, fs))
    ensures !NoSharedNode(Runs(y, es).c)
  {
    hide Pass, Run, Runs, SparesAll, FreeSystem, NoSharedNode, AfterFirst;
    y := System(OneNode(), map[], map[]);
    var e1 := UserCreate(ALPHA, spec, fs);
    var e2 := UserCreate(BETA, BY_RACK, []);
    assert Safe(BY_RACK, [], true) by { assert "rack" in RACK; }
    LonePass.OneEvent(y, e1);
    var y1 := Runs(y, [e1]);
    var es1 := LonePass.PassIsARun(y1, ALPHA, []);
    FirstPass(spec, fs);
    var y2 := Runs(y1, es1);
    LonePass.OneEvent(y2, e2);
    var y3 := Runs(y2, [e2]);
    var es2 := LonePass.PassIsARun(y3, BETA, []);
    SharedNode(y2.c);
    LonePass.RunsConcat(y, [e1], es1);
    LonePass.RunsConcat(y, [e1] + es1, [e2]);
    LonePass.RunsConcat(y, [e1] + es1 + [e2], es2);
    es := [e1] + es1 + [e2] + es2;
    UnheldRunsAreSpared(y, es);
  }

  /** Exclusivity survives every run in which DeviceConfigs of this kind may be created. */
  ghost predicate AlwaysExclusive(spec: Spec, fs: seq<string>) {
    forall y, es ::
      Initial(y) && SparesAll(y, es) && (forall e :: e in es ==> CalmBut(e, spec, fs)) ==> NoSharedNode(Runs(y, es).c)
  }

  /** Exactly when the write of the finalizer leaves nothing out or is not going to be made: the selector
      is not a present but empty one, or the finalizer comes with the DeviceConfig. */
  lemma {:induction false} EmptySelectorBreaksExclusivity(spec: Spec, fs: seq<string>)
    ensures AlwaysExclusive(spec, fs) <==> Plain(spec) || Finalizers.Contains(fs)
  {
    hide Runs, SparesAll, NoSharedNode, Initial;
    if Plain(spec) || Finalizers.Contains(fs) {
      forall y, es | Initial(y) && SparesAll(y, es) && (forall e :: e in es ==> CalmBut(e, spec, fs))
        ensures NoSharedNode(Runs(y, es).c)
      {
        assert forall e :: e in es ==> Calm(e) by {
          forall e | e in es ensures Calm(e) { assert CalmBut(e, spec, fs); }
        }
        NodeExclusivity(y, es);
      }
    } else {
      var y, es := BreakingRun(spec, fs);
      assert !NoSharedNode(Runs(y, es).c);
    }
  }
}
