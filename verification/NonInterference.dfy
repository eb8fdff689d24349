/**
 Passes over different keys do not meet: whatever the replies, a pass writes and deletes only the
 children named after its own key, and no DeviceConfig but its own.
 */
module NonInterference {
  import opened Wrappers
  import Ordering
  import opened Api
  import opened Objects
  import opened Children
  import opened Store
  import opened Machine
  import Conditions
  import Finalizers
  import NodeSelector

  /** `c'` differs from `c` in nothing but what belongs to `key`. */
  ghost predicate OnlyOwn(c: World, c': World, key: Key) {
    && Keyed(c') && c'.nodes == c.nodes && c'.settings == c.settings && c'.nextUid == c.nextUid
    && (forall k :: k != key ==> (k in c'.dcs <==> k in c.dcs) && (k in c.dcs ==> c'.dcs[k] == c.dcs[k]))
    && (forall ck :: (forall s :: ck != ChildKeyOf(key, s)) ==>
          (ck in c'.children <==> ck in c.children) && (ck in c.children ==> c'.children[ck] == c.children[ck]))
    && (forall name :: name != key.name ==>
          (name in c'.gauge <==> name in c.gauge) && (name in c.gauge ==> c'.gauge[name] == c.gauge[name]))
  }

  lemma CommitOnlyOwn(c: World, key: Key, stored: DeviceConfig, next: DeviceConfig)
    requires Keyed(c) && stored.key == key && next.key == key
    ensures OnlyOwn(c, Commit(c, stored, next).0, key) && Commit(c, stored, next).1.key == key
  {
    hide ChildKeyOf;
  }

  lemma CommitsOnlyOwn(c: World, key: Key)
    requires Keyed(c)
    ensures forall stored: DeviceConfig, next: DeviceConfig :: stored.key == key && next.key == key ==>
              OnlyOwn(c, Commit(c, stored, next).0, key) && Commit(c, stored, next).1.key == key
  {
    hide OnlyOwn, Commit, Keyed;
    forall stored: DeviceConfig, next: DeviceConfig | stored.key == key && next.key == key
      ensures OnlyOwn(c, Commit(c, stored, next).0, key) && Commit(c, stored, next).1.key == key
    {
      CommitOnlyOwn(c, key, stored, next);
    }
  }

  lemma GaugeOnlyOwn(c: World, c': World, key: Key, value: nat)
    requires OnlyOwn(c, c', key)
    ensures OnlyOwn(c, SetGauge(c', key.name, value), key)
  {
    hide ChildKeyOf;
  }

  lemma ConfigStep(w: Worker, c: World, r: Reply)
    requires Keyed(c) && w.cr.key == w.key
    requires w.pc.RemoveFinalizer? || w.pc.AddFinalizer? || w.pc.ReportError? || w.pc.ReportReady?
    ensures var (w', c') := Step(w, c, r); w'.key == w.key && w'.cr.key == w.key && OnlyOwn(c, c', w.key)
  {
    hide StepStart, StepDeleteModule, StepListConfigs, StepListNodes, StepReadChild, StepRereadChild, StepWriteChild;
    hide Conditions.Apply, Finalizers.Remove, Finalizers.Add, Commit, OnlyOwn, SetGauge;
    CommitsOnlyOwn(c, w.key);
    Unchanged(c, w.key);
    forall c1, value | OnlyOwn(c, c1, w.key) ensures OnlyOwn(c, SetGauge(c1, w.key.name, value), w.key) {
      GaugeOnlyOwn(c, c1, w.key, value);
    }
  }

  lemma Unchanged(c: World, key: Key)
    requires Keyed(c)
    ensures OnlyOwn(c, c, key)
  {
  }

  lemma CheckStep(w: Worker, c: World, r: Reply)
    requires Keyed(c) && w.cr.key == w.key
    requires w.pc.Start? || w.pc.ListConfigs? || w.pc.ListNodes? || w.pc.ReadChild?
    ensures var (w', c') := Step(w, c, r); w'.key == w.key && w'.cr.key == w.key && OnlyOwn(c, c', w.key)
  {
    hide StepDeleteModule, StepRemoveFinalizer, StepAddFinalizer;
    hide StepRereadChild, StepWriteChild, StepReportError, StepReportReady, ChildKeyOf;
    hide ListDeviceConfigs, NodeSelector.SelectedNames, Ordering.NoDup, Finalizers.Contains, OnlyOwn, SetGauge;
    Unchanged(c, w.key);
    GaugeOnlyOwn(c, c, w.key, 0);
    GaugeOnlyOwn(c, c, w.key, 1);
  }

  /** Storing or deleting a child of `key`. */
  lemma ChildOnlyOwn(c: World, key: Key, s: Stage, o: Object)
    requires Keyed(c)
    ensures OnlyOwn(c, c.(children := c.children[ChildKeyOf(key, s) := o]), key)
    ensures OnlyOwn(c, c.(children := c.children - {ChildKeyOf(key, s)}), key)
  {
    hide ChildKeyOf;
  }

  lemma DeleteStep(w: Worker, c: World, r: Reply)
    requires Keyed(c) && w.cr.key == w.key && w.pc.DeleteModule?
    ensures var (w', c') := StepDeleteModule(w, c, r); w'.key == w.key && w'.cr.key == w.key && OnlyOwn(c, c', w.key)
  {
    hide ChildKeyOf, OnlyOwn;
    Unchanged(c, w.key);
    var ck := ChildKeyOf(w.key, ModuleStage);
    ChildOnlyOwn(c, w.key, ModuleStage, if ck in c.children then c.children[ck].(deleting := true) else w.after);
  }

  lemma RereadStep(w: Worker, c: World, r: Reply, s: Stage)
    requires Keyed(c) && w.cr.key == w.key && w.pc == RereadChild(s)
    ensures var (w', c') := StepRereadChild(w, c, r, s); w'.key == w.key && w'.cr.key == w.key && OnlyOwn(c, c', w.key)
  {
    hide ChildKeyOf, SetDesired, SetterInput, OnlyOwn, SetGauge;
    Unchanged(c, w.key);
    GaugeOnlyOwn(c, c, w.key, 0);
  }

  lemma WriteStep(w: Worker, c: World, r: Reply, s: Stage)
    requires Keyed(c) && w.cr.key == w.key && w.pc == WriteChild(s)
    ensures var (w', c') := StepWriteChild(w, c, r, s); w'.key == w.key && w'.cr.key == w.key && OnlyOwn(c, c', w.key)
  {
    hide ChildKeyOf, MergePatch, OnlyOwn, SetGauge;
    Unchanged(c, w.key);
    ChildOnlyOwn(c, w.key, s, w.after);
    var ck := ChildKeyOf(w.key, s);
    if w.before.Some? && ck in c.children {
      ChildOnlyOwn(c, w.key, s, MergePatch(w.before.value, w.after, c.children[ck]));
    }
    forall c1 | OnlyOwn(c, c1, w.key) ensures OnlyOwn(c, SetGauge(c1, w.key.name, 0), w.key) {
      GaugeOnlyOwn(c, c1, w.key, 0);
    }
  }

  /** One call touches only what belongs to the worker's key. */
  lemma OneStep(w: Worker, c: World, r: Reply)
    requires Keyed(c) && w.cr.key == w.key && !w.pc.Done?
    ensures var (w', c') := Step(w, c, r); w'.key == w.key && w'.cr.key == w.key && OnlyOwn(c, c', w.key)
  {
    hide OnlyOwn, StepStart, StepDeleteModule, StepRemoveFinalizer, StepListConfigs, StepListNodes, StepAddFinalizer;
    hide StepReadChild, StepRereadChild, StepWriteChild, StepReportError, StepReportReady;
    match w.pc
    case DeleteModule => DeleteStep(w, c, r);
    case RereadChild(s) => RereadStep(w, c, r, s);
    case WriteChild(s) => WriteStep(w, c, r, s);
    case Start => CheckStep(w, c, r);
    case ListConfigs => CheckStep(w, c, r);
    case ListNodes(_) => CheckStep(w, c, r);
    case ReadChild(_) => CheckStep(w, c, r);
    case _ => ConfigStep(w, c, r);
  }

  lemma {:induction false} RunTouchesOnlyOwn(w: Worker, c: World, tape: seq<Reply>)
    requires Keyed(c) && w.cr.key == w.key
    ensures OnlyOwn(c, Run(w, c, tape).0, w.key)
    decreases Phase(w.pc), ListsLeft(w)
  {
    hide Step, ChildKeyOf;
    if w.pc.Done? {
      Unchanged(c, w.key);
    } else {
      var r := Head(tape);
      OneStep(w, c, r);
      StepMakesProgress(w, c, r);
      var (w', c') := Step(w, c, r);
      RunTouchesOnlyOwn(w', c', Tail(tape));
    }
  }

  /** A pass over one key leaves the DeviceConfig and all four children of every other key exactly
      as they are, in the same namespace or another. */
  lemma PassLeavesOthersAlone(key: Key, c: World, tape: seq<Reply>, other: Key, s: Stage)
    requires Keyed(c) && other != key
    ensures var c' := Pass(key, c, tape).0; var ck := ChildKeyOf(other, s);
            && (other in c'.dcs <==> other in c.dcs) && (other in c.dcs ==> c'.dcs[other] == c.dcs[other])
            && (ck in c'.children <==> ck in c.children) && (ck in c.children ==> c'.children[ck] == c.children[ck])
  {
    hide Run;
    RunTouchesOnlyOwn(NewWorker(key), c, tape);
    forall t ensures ChildKeyOf(other, s) != ChildKeyOf(key, t) {
      ChildKeysDistinct(other, s, key, t);
    }
    hide ChildKeyOf;
  }
}
