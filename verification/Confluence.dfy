/**
 Reconciling a conflict-free set of live DeviceConfigs without failures: the order does not
 matter, the children end up being exactly what they all ask for, and doing it again changes
 nothing.
 */
module Confluence {
  import opened Wrappers
  import opened Ordering
  import opened Api
  import opened Objects
  import opened Children
  import opened Store
  import opened NodeSelector
  import opened Machine
  import opened Invariant
  import opened Sequential
  import opened Dropping
  import opened Convergence
  import Conditions
  import Finalizers
  import Gauge

  /** One pass per key, in order, every call going through. */
  function ReconcileAll(c: World, order: seq<Key>): World
    decreases |order|
  {
    if order == [] then c else ReconcileAll(Pass(order[0], c, []).0, order[1..])
  }

  ghost predicate AllHealthy(c: World, keys: seq<Key>) {
    forall k :: k in keys ==> Healthy(c, k)
  }

  /** No finalizer write leaves a selector out of a DeviceConfig that comes up more than once. */
  ghost predicate Orderly(c: World, order: seq<Key>) {
    forall i, j :: 0 <= i < j < |order| && order[i] == order[j] ==> order[i] in c.dcs && Kept(c, order[i])
  }

  /** A pass without failures turns each child of its DeviceConfig into its target and reports Ready.
      That settles the DeviceConfig exactly when the finalizer write leaves nothing out. */
  lemma {:induction false} PassReachesTargets(c: World, k: Key)
    requires Healthy(c, k)
    ensures var (c', _, v) := Pass(k, c, []);
            && v.Applied? && Healthy(c', k) && OthersStay(c, c', k) && Kept(c', k) && (Settled(c', k) <==> Kept(c, k))
            && (Kept(c, k) ==> Frame(c, c', k))
            && forall s :: Target(c, k, s).Success? && Lookup(c', ChildKeyOf(k, s)) == Some(Target(c, k, s).value)
  {
    hide ChildKeyOf, Healthy, Pass, Settled, Frame, Kept, Target, Respec;
    PassAlone(k, c, []);
    HealthyFacts(c, k);
    var c' := Pass(k, c, []).0;
    HealthyFacts(c', k);
    FrameIsOthers(c, c', k);
    var p := AsHeld(c, c', k);
    assert p.children == c'.children by { SameChildren(c', k, c.dcs[k].spec); }
    forall s ensures Target(c, k, s).Success? && Lookup(c', ChildKeyOf(k, s)) == Some(Target(c, k, s).value) {
      SettledTargets(c, p, k, s);
      assert Lookup(p, ChildKeyOf(k, s)) == Lookup(c', ChildKeyOf(k, s));
    }
  }

  lemma SameChildren(c: World, k: Key, spec: Spec)
    requires k in c.dcs
    ensures Respec(c, k, spec).children == c.children
  {
  }

  lemma SettledTargets(c: World, c': World, k: Key, s: Stage)
    requires k in c.dcs && c.dcs[k].key == k && NotForeign(c, k) && Frame(c, c', k) && Settled(c', k)
    ensures Target(c, k, s).Success? && Lookup(c', ChildKeyOf(k, s)) == Some(Target(c, k, s).value)
  {
    hide ChildKeyOf, SetDesired, Conforms, Conditions.IsReady, SaysReady, Finalizers.Contains;
    TargetSuccess(c, k, s);
    assert AppliedAt(c', c'.dcs[k], s);
    if Lookup(c', ChildKeyOf(k, s)) == Lookup(c, ChildKeyOf(k, s)) {
      SetterUsesIdentity(s, c.children[ChildKeyOf(k, s)], c.dcs[k], c'.dcs[k], c.settings);
    }
  }

  ghost predicate Undisturbed(c: World, c': World, j: Key) {
    && Healthy(c', j) && j in c.dcs && (Settled(c, j) <==> Settled(c', j)) && c'.dcs[j] == c.dcs[j]
    && forall s :: Lookup(c', ChildKeyOf(j, s)) == Lookup(c, ChildKeyOf(j, s)) && Target(c', j, s) == Target(c, j, s)
  }

  /** A pass over one key leaves every other healthy, with the same verdict, the same targets and
      the same children. */
  lemma {:induction false} OthersUndisturbed(c: World, c': World, k: Key, j: Key)
    requires OthersStay(c, c', k) && Healthy(c', k) && Healthy(c, j) && j != k
    ensures Undisturbed(c, c', j)
  {
    hide SetDesired, Conforms, ConflictFree, Conditions.WellFormed;
    hide Conditions.IsReady, SaysReady, Finalizers.Contains, ControllerOf, ChildKeyOf;
    forall s ensures Lookup(c', ChildKeyOf(j, s)) == Lookup(c, ChildKeyOf(j, s)) {
      forall t ensures ChildKeyOf(j, s) != ChildKeyOf(k, t) { ChildKeysDistinct(j, s, k, t); }
    }
    forall s | ChildKeyOf(j, s) in c'.children
      ensures var controller := ControllerOf(c'.children[ChildKeyOf(j, s)].owners);
              controller.None? || SameObject(controller.value, Ref(c'.dcs[j]))
    {
      assert Lookup(c', ChildKeyOf(j, s)) == Lookup(c, ChildKeyOf(j, s));
    }
    assert forall s :: AppliedAt(c', c'.dcs[j], s) <==> AppliedAt(c, c.dcs[j], s) by {
      forall s ensures AppliedAt(c', c'.dcs[j], s) <==> AppliedAt(c, c.dcs[j], s) {
        assert Lookup(c', ChildKeyOf(j, s)) == Lookup(c, ChildKeyOf(j, s));
      }
    }
  }

  /** What a run over `order` comes to. */
  ghost predicate Reached(c: World, order: seq<Key>, c': World) {
    && AllHealthy(c', order)
    && (forall j, s :: j in order ==>
          j in c.dcs && Target(c, j, s).Success? && Lookup(c', ChildKeyOf(j, s)) == Some(Target(c, j, s).value))
    && (forall ck :: (forall j, s :: j in order ==> ck != ChildKeyOf(j, s)) ==> Lookup(c', ck) == Lookup(c, ck))
    && (forall j :: j in order ==> j in c.dcs && (Settled(c', j) <==> Kept(c, j)))
    && (forall j :: j !in order && Healthy(c, j) ==> Undisturbed(c, c', j))
  }

  lemma {:induction false} AllReachTargets(c: World, order: seq<Key>)
    requires AllHealthy(c, order) && Orderly(c, order)
    ensures Reached(c, order, ReconcileAll(c, order))
    decreases |order|
  {
    if order == [] {
      hide ChildKeyOf, Target, Healthy, Settled, Lookup;
      forall j | Healthy(c, j) ensures Undisturbed(c, c, j) { HealthyFacts(c, j); }
    } else {
      hide ChildKeyOf, Target, Healthy, Settled, Pass, Lookup, Frame, Kept, Reached, OthersStay, Undisturbed;
      var k, rest := order[0], order[1..];
      var c1 := Pass(k, c, []).0;
      assert forall j :: j in order <==> j == k || j in rest;
      PassReachesTargets(c, k);
      HealthyFacts(c, k);
      HealthyFacts(c1, k);
      forall j | j != k && Healthy(c, j) ensures Undisturbed(c, c1, j) {
        OthersUndisturbed(c, c1, k, j);
      }
      RestIsOrderly(c, c1, order);
      AllReachTargets(c1, rest);
      ReachedFirst(c, c1, order, ReconcileAll(c1, rest));
    }
  }

  lemma RestIsOrderly(c: World, c1: World, order: seq<Key>)
    requires order != [] && AllHealthy(c, order) && Orderly(c, order)
    requires order[0] in c1.dcs && Healthy(c1, order[0]) && Kept(c1, order[0])
    requires forall j :: j != order[0] && Healthy(c, j) ==> Undisturbed(c, c1, j)
    ensures AllHealthy(c1, order[1..]) && Orderly(c1, order[1..])
    ensures order[0] in order[1..] ==> order[0] in c.dcs && Kept(c, order[0])
  {
    hide Healthy, Settled, Target, ChildKeyOf, Lookup;
    var rest := order[1..];
    forall j | j in rest ensures Healthy(c1, j) {
      if j != order[0] { assert Undisturbed(c, c1, j); }
    }
    forall i, j | 0 <= i < j < |rest| && rest[i] == rest[j] ensures rest[i] in c1.dcs && Kept(c1, rest[i]) {
      var k := rest[i];
      assert order[i + 1] == k && order[j + 1] == k;
      if k != order[0] { assert Undisturbed(c, c1, k); HealthyFacts(c1, k); }
    }
    if j :| 0 <= j < |rest| && rest[j] == order[0] { assert order[j + 1] == order[0]; }
  }

  lemma ReachedFirst(c: World, c1: World, order: seq<Key>, c': World)
    requires order != [] && AllHealthy(c, order) && Reached(c1, order[1..], c')
    requires var k := order[0];
             && k in c.dcs && k in c1.dcs && Healthy(c1, k) && OthersStay(c, c1, k) && Kept(c1, k) && (Settled(c1, k) <==> Kept(c, k))
             && (Kept(c, k) ==> Frame(c, c1, k))
             && (forall s :: Target(c, k, s).Success? && Lookup(c1, ChildKeyOf(k, s)) == Some(Target(c, k, s).value))
             && (k in order[1..] ==> Kept(c, k))
    requires forall j :: j != order[0] && Healthy(c, j) ==> Undisturbed(c, c1, j)
    ensures Reached(c, order, c')
  {
    hide ChildKeyOf, Target, Healthy, Settled, Lookup, Frame, Kept;
    var k, rest := order[0], order[1..];
    assert forall j :: j in order <==> j == k || j in rest;
    forall j, s | j in order
      ensures j in c.dcs && Target(c, j, s).Success? && Lookup(c', ChildKeyOf(j, s)) == Some(Target(c, j, s).value)
    {
      if j != k {
        assert Undisturbed(c, c1, j);
      } else if k in rest {
        TargetStable(c, c1, k, s);
      } else {
        assert Undisturbed(c1, c', k);
      }
    }
    forall j | j in order ensures Healthy(c', j) && j in c.dcs && (Settled(c', j) <==> Kept(c, j)) {
      if j != k {
        assert Undisturbed(c, c1, j);
        SameKept(c, c1, j);
      } else if k !in rest {
        assert Undisturbed(c1, c', k);
      }
    }
    forall j | j !in order && Healthy(c, j) ensures Undisturbed(c, c', j) {
      assert Undisturbed(c, c1, j) && Undisturbed(c1, c', j);
    }
    OthersChildren(c, c1, order, c');
  }

  lemma SameKept(c: World, c1: World, j: Key)
    requires j in c.dcs && j in c1.dcs && c1.dcs[j] == c.dcs[j]
    ensures Kept(c1, j) <==> Kept(c, j)
  {
  }

  lemma OthersChildren(c: World, c1: World, order: seq<Key>, c': World)
    requires order != [] && OthersStay(c, c1, order[0])
    requires forall ck :: (forall j, s :: j in order[1..] ==> ck != ChildKeyOf(j, s)) ==> Lookup(c', ck) == Lookup(c1, ck)
    ensures forall ck :: (forall j, s :: j in order ==> ck != ChildKeyOf(j, s)) ==> Lookup(c', ck) == Lookup(c, ck)
  {
    hide ChildKeyOf, Lookup;
    forall ck | forall j, s :: j in order ==> ck != ChildKeyOf(j, s) ensures Lookup(c', ck) == Lookup(c, ck) {
      assert order[0] in order && forall j :: j in order[1..] ==> j in order;
    }
  }

  /** Any two orders over the same DeviceConfigs end in the same child store. */
  lemma {:induction false} OrderDoesNotMatter(c: World, order1: seq<Key>, order2: seq<Key>)
    requires AllHealthy(c, order1) && Orderly(c, order1) && Orderly(c, order2)
    requires forall k :: k in order1 <==> k in order2
    ensures ReconcileAll(c, order1).children == ReconcileAll(c, order2).children
  {
    hide ChildKeyOf, Target, Healthy, Settled, Undisturbed, Kept, ReconcileAll, Orderly;
    AllReachTargets(c, order1);
    AllReachTargets(c, order2);
    var a, b := ReconcileAll(c, order1), ReconcileAll(c, order2);
    forall ck ensures Lookup(a, ck) == Lookup(b, ck) {
      if j, s :| j in order1 && ck == ChildKeyOf(j, s) {
        assert Lookup(a, ChildKeyOf(j, s)) == Lookup(b, ChildKeyOf(j, s));
      }
    }
    assert forall ck :: (ck in a.children <==> Lookup(a, ck).Some?) && (ck in b.children <==> Lookup(b, ck).Some?);
    assert a.children.Keys == b.children.Keys;
    assert forall ck :: ck in a.children ==> Lookup(a, ck).value == a.children[ck] && Lookup(b, ck).value == b.children[ck];
  }

  /** The outcome is the union of what each asks for, over what was there: every child of every
      reconciled DeviceConfig is its target, everything else is untouched, the validator still finds no
      conflict, and exactly those whose selector was not left out are settled. */
  ghost predicate IsUnion(c: World, order: seq<Key>, c': World) {
    && (forall k :: k in order ==> Healthy(c', k) && k in c.dcs && (Settled(c', k) <==> Kept(c, k)))
    && (forall k, s :: k in order ==> k in c.dcs && Target(c, k, s).Success? && Lookup(c', ChildKeyOf(k, s)) == Some(Target(c, k, s).value))
    && (forall ck :: (forall k, s :: k in order ==> ck != ChildKeyOf(k, s)) ==> Lookup(c', ck) == Lookup(c, ck))
  }

  lemma ReachedIsUnion(c: World, order: seq<Key>, c': World)
    requires Reached(c, order, c')
    ensures IsUnion(c, order, c')
  {
    hide ChildKeyOf, Target, Healthy, Settled, Undisturbed, Kept, Lookup;
  }

  lemma {:induction false} OutcomeIsUnion(c: World, order: seq<Key>)
    requires AllHealthy(c, order) && Orderly(c, order)
    ensures IsUnion(c, order, ReconcileAll(c, order))
  {
    hide Reached, IsUnion, ReconcileAll, Orderly, AllHealthy;
    AllReachTargets(c, order);
    ReachedIsUnion(c, order, ReconcileAll(c, order));
  }

  // ---------- doing it again ----------

  /** A settled DeviceConfig gives a lone worker nothing to write. */
  lemma QuietStep(c: World, w: Worker)
    requires Healthy(c, w.key) && Alone(c, w) && Settled(c, w.key)
    requires !w.pc.ReportError? && !w.pc.WriteChild? && !w.pc.AddFinalizer?
    ensures var (w', c') := Step(w, c, Ok);
            c' == c.(gauge := c'.gauge) && !w'.pc.WriteChild? && !w'.pc.AddFinalizer?
  {
    hide Healthy, ListDeviceConfigs, SelectedNames, AllNames, Finalizers.Contains, SaysReady;
    hide StepStart, StepDeleteModule, StepRemoveFinalizer, StepListConfigs, StepListNodes, StepAddFinalizer;
    hide StepReadChild, StepRereadChild, StepWriteChild, StepReportError, StepReportReady, AppliedAt;
    HealthyFacts(c, w.key);
    match w.pc
    case RereadChild(s) => QuietReread(c, w, s);
    case ReportReady => QuietReport(c, w);
    case _ => QuietReads(c, w);
  }

  lemma QuietReads(c: World, w: Worker)
    requires w.pc.Start? || w.pc.ListConfigs? || w.pc.ListNodes? || w.pc.ReadChild?
    requires w.cr.key == w.key && w.key in c.dcs && Finalizers.Contains(c.dcs[w.key].finalizers) && !c.dcs[w.key].deleting
    requires !w.pc.Start? ==> w.cr == c.dcs[w.key]
    ensures var (w', c') := Step(w, c, Ok);
            c' == c.(gauge := c'.gauge) && !w'.pc.WriteChild? && !w'.pc.AddFinalizer?
  {
    hide ChildKeyOf, ListDeviceConfigs, SelectedNames, Finalizers.Contains, NoDup;
    hide StepDeleteModule, StepRemoveFinalizer, StepAddFinalizer;
    hide StepRereadChild, StepWriteChild, StepReportError, StepReportReady;
  }

  lemma QuietReread(c: World, w: Worker, s: Stage)
    requires Healthy(c, w.key) && Alone(c, w) && Settled(c, w.key) && w.pc == RereadChild(s)
    ensures var (w', c') := Step(w, c, Ok);
            c' == c.(gauge := c'.gauge) && !w'.pc.WriteChild? && !w'.pc.AddFinalizer?
  {
    hide ChildKeyOf, Healthy, SetDesired, Conforms, Conditions.IsReady, SaysReady, Finalizers.Contains;
    hide StepStart, StepDeleteModule, StepRemoveFinalizer, StepListConfigs, StepListNodes, StepAddFinalizer;
    hide StepReadChild, StepWriteChild, StepReportError, StepReportReady;
    HealthyFacts(c, w.key);
    TargetSuccess(c, w.key, s);
    assert AppliedAt(c, c.dcs[w.key], s);
  }

  lemma QuietReport(c: World, w: Worker)
    requires Alone(c, w) && Settled(c, w.key) && w.pc.ReportReady?
    ensures Step(w, c, Ok).1 == c && Step(w, c, Ok).0.pc.Done?
  {
    hide ChildKeyOf, Conforms, Conditions.IsReady, Finalizers.Contains, Conditions.SetStatusCondition;
    hide StepStart, StepDeleteModule, StepRemoveFinalizer, StepListConfigs, StepListNodes, StepAddFinalizer;
    hide StepReadChild, StepRereadChild, StepWriteChild, StepReportError;
    Conditions.HeldIsNoOp(w.cr.conditions, Conditions.Parts(READY_UPDATE).0, c.clock);
    Conditions.HeldIsNoOp(w.cr.conditions, Conditions.Parts(READY_UPDATE).1, c.clock);
  }

  lemma GaugeKeepsSettled(c: World, k: Key, gauge: map<string, nat>)
    requires Settled(c, k)
    ensures Settled(c.(gauge := gauge), k)
  {
    hide ChildKeyOf, Conforms, Conditions.IsReady, Finalizers.Contains, SaysReady;
    assert forall s :: AppliedAt(c.(gauge := gauge), c.dcs[k], s) <==> AppliedAt(c, c.dcs[k], s);
  }

  lemma {:induction false} QuietRun(c: World, w: Worker)
    requires Healthy(c, w.key) && Alone(c, w) && Settled(c, w.key)
    requires !w.pc.ReportError? && !w.pc.WriteChild? && !w.pc.AddFinalizer?
    ensures Run(w, c, []).0 == c.(gauge := Run(w, c, []).0.gauge)
    decreases Phase(w.pc), ListsLeft(w)
  {
    hide Step, Healthy, Alone, Frame, Settled;
    NotRemoving(c, w);
    var (w', c') := Step(w, c, Ok);
    QuietStep(c, w);
    StepAlone(c, w, Ok);
    StepMakesProgress(w, c, Ok);
    GaugeKeepsSettled(c, w.key, c'.gauge);
    if w'.pc.Done? {
      assert Run(w', c', []) == (c', [], w'.pc.verdict);
    } else {
      QuietRun(c', w');
    }
  }

  /** After a successful pass another one changes nothing at all, versions, times and gauge included,
      exactly when the first one left nothing out; the one after that never does. */
  lemma {:induction false} SecondPassWritesNothing(c: World, k: Key)
    requires Healthy(c, k)
    ensures var once := Pass(k, c, []).0;
            var twice := Pass(k, once, []).0;
            (twice == once <==> Kept(c, k)) && Pass(k, twice, []).0 == twice
  {
    hide Healthy, Settled, Frame, Run, Alone, Kept, Target, ChildKeyOf, Lookup;
    PassReachesTargets(c, k);
    HealthyFacts(c, k);
    var once := Pass(k, c, []).0;
    HealthyFacts(once, k);
    PassReachesTargets(once, k);
    if Kept(c, k) {
      SettledIsQuiet(c, k);
    }
    SettledIsQuiet(once, k);
  }

  /** What the pass applied is not what the stored specification asks for if something was left out. */
  lemma NotAppliedIfDropped(c: World, once: World, k: Key)
    requires k in c.dcs && k in once.dcs && once.dcs[k].key == k && !Settled(once, k)
    requires StoredAs(c.dcs[k].spec, once.dcs[k].spec) && Settled(AsHeld(c, once, k), k)
    ensures !AppliedAt(once, once.dcs[k], ModuleStage)
  {
    hide ChildKeyOf, Conforms, Conditions.IsReady, Finalizers.Contains, SaysReady, StoredAs;
    var held := AsHeld(c, once, k);
    assert AppliedAt(held, held.dcs[k], ModuleStage);
    assert AppliedAt(once, once.dcs[k].(spec := c.dcs[k].spec), ModuleStage);
    assert once.dcs[k := once.dcs[k]] == once.dcs;
    if AppliedAt(once, once.dcs[k], ModuleStage) {
      OneModuleOneSpec(once, once.dcs[k], c.dcs[k].spec);
    }
  }

  /** Why a key is not repeated otherwise: the second pass leaves the children alone exactly when the
      first left nothing out. */
  lemma {:induction false} RepeatingIsHarmlessIff(c: World, k: Key)
    requires Healthy(c, k)
    ensures ReconcileAll(c, [k, k]).children == ReconcileAll(c, [k]).children <==> Kept(c, k)
  {
    hide Healthy, Settled, Frame, Pass, Kept, Target, ChildKeyOf, Lookup, AppliedAt, AsHeld;
    var once := Pass(k, c, []).0;
    var twice := Pass(k, once, []).0;
    TwoPasses(c, k);
    SecondPassWritesNothing(c, k);
    PassReachesTargets(c, k);
    PassAlone(k, c, []);
    HealthyFacts(c, k);
    HealthyFacts(once, k);
    PassReachesTargets(once, k);
    if !Kept(c, k) && twice.children == once.children {
      SameChildrenApply(once, twice, k);
      NotAppliedIfDropped(c, once, k);
    }
  }

  lemma TwoPasses(c: World, k: Key)
    ensures var once := Pass(k, c, []).0;
            ReconcileAll(c, [k]) == once && ReconcileAll(c, [k, k]) == Pass(k, once, []).0
  {
    hide Pass;
    var once := Pass(k, c, []).0;
    assert [k][1..] == [] && [k, k][1..] == [k];
    assert ReconcileAll(once, [k]) == ReconcileAll(Pass(k, once, []).0, []);
  }

  lemma SameChildrenApply(c: World, c': World, k: Key)
    requires Frame(c, c', k) && c'.children == c.children && Settled(c', k)
    ensures AppliedAt(c, c.dcs[k], ModuleStage)
  {
    hide ChildKeyOf, Target, Conforms, Conditions.IsReady, Finalizers.Contains, SaysReady;
    assert AppliedAt(c', c'.dcs[k], ModuleStage);
    assert c'.dcs[k].key == c.dcs[k].key && ChildKeyOf(c.dcs[k].key, ModuleStage) in c.children;
    SetterUsesIdentity(ModuleStage, c.children[ChildKeyOf(c.dcs[k].key, ModuleStage)], c.dcs[k], c'.dcs[k], c.settings);
  }

  lemma HealthyKeyed(c: World, k: Key)
    requires Healthy(c, k)
    ensures Keyed(c)
  {
    hide ConflictFree;
  }

  /** A pass over what a pass has settled. */
  lemma SettledIsQuiet(c: World, k: Key)
    requires Healthy(c, k) && Kept(c, k)
    ensures var once := Pass(k, c, []).0; Pass(k, once, []).0 == once
  {
    hide Healthy, Settled, Frame, Run, Alone, Kept, Target, ChildKeyOf, Lookup;
    PassReachesTargets(c, k);
    HealthyFacts(c, k);
    var once := Pass(k, c, []).0;
    HealthyFacts(once, k);
    PassReachesTargets(once, k);
    NewIsAlone(once, k);
    assert NewWorker(k).pc == Start by { StartsFresh(k); }
    QuietRun(once, NewWorker(k));
    HealthyKeyed(c, k);
    Gauge.PassGauge(k, c, []);
    Gauge.PassGauge(k, once, []);
    assert once.gauge[k.name := 0] == once.gauge;
  }
}
