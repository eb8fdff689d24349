/**
 A pass that runs alone, under any replies: what it can change, and that on a live, conflict-free
 DeviceConfig only a failed call keeps it from applying everything.
 */
module Sequential {
  import opened Wrappers
  import opened Ordering
  import opened Api
  import opened Objects
  import opened Children
  import opened Store
  import opened NodeSelector
  import opened Machine
  import opened Invariant
  import Conditions
  import Finalizers

  function Faults(tape: seq<Reply>): nat {
    if tape == [] then 0 else (if tape[0].Ok? then 0 else 1) + Faults(tape[1..])
  }

  function Lookup(c: World, ck: ChildKey): Option<Object> {
    if ck in c.children then Some(c.children[ck]) else None
  }

  function Input(c: World, k: Key, s: Stage): Object {
    var ck := ChildKeyOf(k, s);
    if ck in c.children then c.children[ck] else NewObject(ck.kind)
  }

  /** What the pipeline makes of the child at a stage. */
  function Target(c: World, k: Key, s: Stage): Result<Object, Error>
    requires k in c.dcs
  {
    SetDesired(s, Input(c, k, s), c.dcs[k], c.settings)
  }

  /** Nobody else controls an object that has the name of one of the children. */
  ghost predicate NotForeign(c: World, k: Key)
    requires k in c.dcs
  {
    forall s :: ChildKeyOf(k, s) in c.children ==>
      var controller := ControllerOf(c.children[ChildKeyOf(k, s)].owners);
      controller.None? || SameObject(controller.value, Ref(c.dcs[k]))
  }

  /** A live DeviceConfig in a conflict-free cluster, free to take its children. */
  ghost predicate Healthy(c: World, k: Key) {
    && StoreOk(c) && ConflictFree(c)
    && k in c.dcs && !c.dcs[k].deleting && NotForeign(c, k)
    && Conditions.WellFormed(c.dcs[k].conditions)
  }

  /** The write of the finalizer leaves nothing of the selector out, or is not going to be made. */
  predicate Kept(c: World, k: Key)
    requires k in c.dcs
  {
    Finalizers.Contains(c.dcs[k].finalizers) || Plain(c.dcs[k].spec)
  }

  /** Both conditions are stored just as a successful pass writes them. */
  ghost predicate SaysReady(cs: seq<Condition>) {
    Conditions.Holds(cs, Conditions.Parts(READY_UPDATE).0) && Conditions.Holds(cs, Conditions.Parts(READY_UPDATE).1)
  }

  /** Everything the DeviceConfig asks for is stored, and so is Ready=True. */
  ghost predicate Settled(c: World, k: Key) {
    && k in c.dcs && (forall s :: AppliedAt(c, c.dcs[k], s))
    && Conditions.IsReady(c.dcs[k].conditions) && SaysReady(c.dcs[k].conditions)
    && Finalizers.Contains(c.dcs[k].finalizers)
  }

  // ---------- what a pass may change ----------

  ghost predicate SameIdentity(a: DeviceConfig, b: DeviceConfig) {
    && b.key == a.key && b.uid == a.uid && b.spec == a.spec
    && b.deleting == a.deleting
    && (Finalizers.Contains(a.finalizers) ==> Finalizers.Contains(b.finalizers))
    && (b.finalizers == a.finalizers || (!Finalizers.Contains(a.finalizers) && b.finalizers == a.finalizers + [DELETION_FINALIZER]))
  }

  /** Only `k`'s own status, finalizer and children change; a child changes to its target only. */
  ghost predicate Frame(c: World, c': World, k: Key) {
    && c'.nodes == c.nodes && c'.settings == c.settings && c'.nextUid == c.nextUid
    && c'.dcs.Keys == c.dcs.Keys
    && (forall j :: j in c.dcs && j != k ==> c'.dcs[j] == c.dcs[j])
    && k in c.dcs && SameIdentity(c.dcs[k], c'.dcs[k])
    && (forall s :: Lookup(c', ChildKeyOf(k, s)) == Lookup(c, ChildKeyOf(k, s)) ||
                    (Target(c, k, s).Success? && Lookup(c', ChildKeyOf(k, s)) == Some(Target(c, k, s).value)))
    && (forall ck :: (forall s :: ck != ChildKeyOf(k, s)) ==> Lookup(c', ck) == Lookup(c, ck))
  }

  lemma TargetSuccess(c: World, k: Key, s: Stage)
    requires k in c.dcs && c.dcs[k].key == k && NotForeign(c, k)
    ensures Target(c, k, s).Success? && Conforms(s, Target(c, k, s).value, c.dcs[k], c.settings)
    ensures Lookup(c, ChildKeyOf(k, s)) == Some(Target(c, k, s).value) <==> AppliedAt(c, c.dcs[k], s)
  {
    hide ChildKeyOf, SetDesired, Conforms;
    SetterMeansConform(s, Input(c, k, s), c.dcs[k], c.settings);
  }

  lemma SetterUsesIdentity(s: Stage, o: Object, a: DeviceConfig, b: DeviceConfig, st: Settings)
    requires a.key == b.key && a.uid == b.uid && a.spec == b.spec
    ensures SetDesired(s, o, a, st) == SetDesired(s, o, b, st)
    ensures Conforms(s, o, a, st) <==> Conforms(s, o, b, st)
  {
    hide ControlledBy, SetControllerReference;
  }

  /** The targets do not move while the pass approaches them. */
  lemma TargetStable(c: World, c': World, k: Key, s: Stage)
    requires Frame(c, c', k)
    ensures Target(c', k, s) == Target(c, k, s)
  {
    hide ChildKeyOf, SetDesired, Conforms;
    SetterUsesIdentity(s, Input(c', k, s), c.dcs[k], c'.dcs[k], c.settings);
    var ck := ChildKeyOf(k, s);
    if Lookup(c', ck) != Lookup(c, ck) {
      SetterMeansConform(s, Input(c, k, s), c.dcs[k], c.settings);
      SetterMeansConform(s, Target(c, k, s).value, c.dcs[k], c.settings);
    }
  }

  lemma IdentityTransitive(a: DeviceConfig, b: DeviceConfig, c: DeviceConfig)
    requires SameIdentity(a, b) && SameIdentity(b, c)
    ensures SameIdentity(a, c)
  {
  }

  lemma FrameTransitive(a: World, b: World, c: World, k: Key)
    requires Frame(a, b, k) && Frame(b, c, k)
    ensures Frame(a, c, k)
  {
    hide ChildKeyOf, Target, SameIdentity;
    forall s ensures Target(b, k, s) == Target(a, k, s) { TargetStable(a, b, k, s); }
    IdentityTransitive(a.dcs[k], b.dcs[k], c.dcs[k]);
  }

  lemma FrameReflexive(c: World, k: Key, gauge: map<string, nat>)
    requires k in c.dcs
    ensures Frame(c, c.(gauge := gauge), k)
  {
    hide ChildKeyOf, Target, Finalizers.Contains;
  }

  lemma FrameKeepsConflictFree(c: World, c': World, k: Key)
    requires StoreOk(c) && StoreOk(c') && Frame(c, c', k)
    ensures ConflictFree(c') <==> ConflictFree(c)
  {
    hide Matches, ListDeviceConfigs, PairwiseDisjoint, Target, ChildKeyOf;
    ConflictFreeMeans(c);
    ConflictFreeMeans(c');
    forall a, b | a in c.dcs && b in c.dcs ensures Disjoint(c, c.dcs[a], c.dcs[b]) <==> Disjoint(c', c'.dcs[a], c'.dcs[b]) {
      SameSelection(c, c', a);
      SameSelection(c, c', b);
    }
  }

  lemma SameSelection(c: World, c': World, j: Key)
    requires j in c.dcs && j in c'.dcs && c'.nodes == c.nodes && c.dcs[j].spec == c'.dcs[j].spec
    ensures forall n :: Selects(c, c.dcs[j], n) <==> Selects(c', c'.dcs[j], n)
  {
  }

  // ---------- one step alone ----------

  /** A worker that is alone sees the store as it is. */
  ghost predicate Alone(c: World, w: Worker) {
    && w.cr.key == w.key && !w.pc.Done? && !Removing(w.pc)
    && (!w.pc.Start? ==> w.key in c.dcs && c.dcs[w.key] == w.cr)
    && (Applying(w.pc) ==> Finalizers.Contains(w.cr.finalizers))
    && (w.pc.AddFinalizer? ==> !Finalizers.Contains(w.cr.finalizers))
    && (w.pc.ListNodes? ==>
         w.listed == ListDeviceConfigs(c) && w.pc.i < |w.listed| && w.names == AllNames(c, w.listed[..w.pc.i]))
    && (forall s :: Rank(s) < Passed(w.pc) ==> AppliedAt(c, w.cr, s))
    && (w.pc.RereadChild? ==> w.existing == Lookup(c, ChildKeyOf(w.key, w.pc.stage)))
    && (w.pc.WriteChild? ==>
         && w.existing == w.before == Lookup(c, ChildKeyOf(w.key, w.pc.stage))
         && Target(c, w.key, w.pc.stage) == Success(w.after))
  }

  /** What a step alone establishes; `Going` says that no failure is on record yet. */
  ghost predicate StepsOn(c: World, w: Worker, r: Reply, w': Worker, c': World) {
    && w'.key == w.key && Healthy(c', w.key) && Frame(c, c', w.key)
    && (!w'.pc.Done? ==> Alone(c', w'))
    && (r.Ok? && !w.pc.ReportError? ==> !w'.pc.ReportError? && (w'.pc.Done? ==> w'.pc.verdict.Applied?))
    && (w'.pc == Done(Applied) ==> Settled(c', w.key))
    && (w'.pc.Done? ==> !w'.pc.verdict.Gone? && !w'.pc.verdict.Deleted? && !w'.pc.verdict.DeletionFailed?)
    && (w'.pc == Done(Refused) ==> w.pc.ListConfigs? || w.pc.ListNodes?)
  }

  lemma {:induction false} HealthyStays(c: World, c': World, k: Key)
    requires Healthy(c, k) && Frame(c, c', k) && StoreOk(c') && Conditions.WellFormed(c'.dcs[k].conditions)
    ensures Healthy(c', k)
  {
    hide ConflictFree, ChildKeyOf, SetDesired, Conforms, ControllerOf, Conditions.WellFormed, Finalizers.Contains;
    FrameKeepsConflictFree(c, c', k);
    forall s | ChildKeyOf(k, s) in c'.children
      ensures var controller := ControllerOf(c'.children[ChildKeyOf(k, s)].owners);
              controller.None? || SameObject(controller.value, Ref(c'.dcs[k]))
    {
      var ck := ChildKeyOf(k, s);
      if Lookup(c', ck) != Lookup(c, ck) {
        TargetControlled(c, k, s);
      }
    }
  }

  lemma TargetControlled(c: World, k: Key, s: Stage)
    requires k in c.dcs && Target(c, k, s).Success?
    ensures ControllerOf(Target(c, k, s).value.owners) == Some(Ref(c.dcs[k]))
  {
    hide ChildKeyOf;
    ControllerIsSet(Input(c, k, s).owners, Ref(c.dcs[k]));
  }

  lemma ReadOnlyStepsOn(c: World, k: Key, gauge: map<string, nat>)
    requires Healthy(c, k)
    ensures Healthy(c.(gauge := gauge), k) && Frame(c, c.(gauge := gauge), k)
  {
    hide ConflictFree, ChildKeyOf, Target, ControllerOf, Conditions.WellFormed, Finalizers.Contains;
    FrameReflexive(c, k, gauge);
    HealthyStays(c, c.(gauge := gauge), k);
  }

  lemma StartAlone(c: World, w: Worker, r: Reply)
    requires Healthy(c, w.key) && Alone(c, w) && w.pc.Start?
    ensures var (w', c') := StepStart(w, c, r); StepsOn(c, w, r, w', c')
  {
    hide ConflictFree, ChildKeyOf, Target, ControllerOf, Conditions.WellFormed, AppliedAt, Frame;
    ReadOnlyStepsOn(c, w.key, c.gauge);
    assert c.(gauge := c.gauge) == c;
  }

  lemma FinishAlone(c: World, w: Worker)
    requires Healthy(c, w.key) && (w.pc.ListConfigs? || w.pc.ListNodes?)
    requires w.cr.key == w.key && w.key in c.dcs && c.dcs[w.key] == w.cr
    requires w.listed == ListDeviceConfigs(c) && w.names == AllNames(c, w.listed)
    ensures var (w', c') := FinishCheck(w, c);
            w'.key == w.key && c' == c && Alone(c, w') && !w'.pc.ReportError?
  {
    hide Healthy, AppliedAt, NoDup, Finalizers.Contains, ListDeviceConfigs, AllNames, Target, ChildKeyOf, Lookup;
    NothingTwice(c, w);
  }

  lemma NothingTwice(c: World, w: Worker)
    requires Healthy(c, w.key) && w.listed == ListDeviceConfigs(c) && w.names == AllNames(c, w.listed)
    ensures NoDup(w.names)
  {
    hide ChildKeyOf, ControllerOf, Conditions.WellFormed, ListDeviceConfigs, AllNames, NoDup, PairwiseDisjoint, NotForeign;
    ScanIsExact(c, w.listed);
  }

  lemma ListConfigsAlone(c: World, w: Worker, r: Reply)
    requires Healthy(c, w.key) && Alone(c, w) && w.pc.ListConfigs?
    ensures var (w', c') := StepListConfigs(w, c, r); StepsOn(c, w, r, w', c')
  {
    hide ConflictFree, ChildKeyOf, Target, ControllerOf, Conditions.WellFormed;
    hide AppliedAt, ListDeviceConfigs, FinishCheck, Frame, AllNames, Healthy;
    var (w', c') := StepListConfigs(w, c, r);
    ReadOnlyStepsOn(c, w.key, c'.gauge);
    assert r.Ok? ==> c' == c.(gauge := c'.gauge) by {
      if r.Ok? {
        var w1 := w.(listed := ListDeviceConfigs(c), names := []);
        NoNamesYet(c, w1.listed);
        if w1.listed == [] { FinishAlone(c, w1); }
      }
    }
    if r.Ok? {
      var w1 := w.(listed := ListDeviceConfigs(c), names := []);
      NoNamesYet(c, w1.listed);
      if w1.listed == [] { FinishAlone(c, w1); }
    }
  }

  lemma ListNodesAlone(c: World, w: Worker, r: Reply)
    requires Healthy(c, w.key) && Alone(c, w) && w.pc.ListNodes?
    ensures var (w', c') := StepListNodes(w, c, r, w.pc.i); StepsOn(c, w, r, w', c')
  {
    hide ConflictFree, ChildKeyOf, Target, ControllerOf, Conditions.WellFormed, AppliedAt;
    hide ListDeviceConfigs, FinishCheck, Frame, AllNames, Healthy, SelectedNames;
    var (w', c') := StepListNodes(w, c, r, w.pc.i);
    if r.Ok? {
      OneMoreList(c, w.listed, w.pc.i);
      var w1 := w.(names := w.names + SelectedNames(c, w.listed[w.pc.i]));
      if w.pc.i + 1 == |w.listed| { FinishAlone(c, w1); }
    }
    ReadOnlyStepsOn(c, w.key, c'.gauge);
  }

  /** A write to the DeviceConfig of a lone worker goes through, and stays within the frame. */
  lemma OwnCommit(c: World, k: Key, next: DeviceConfig)
    requires Healthy(c, k)
    requires SameIdentity(c.dcs[k], next) && Conditions.WellFormed(next.conditions)
    ensures var (c', saved) := Commit(c, c.dcs[k], next);
            && Healthy(c', k) && Frame(c, c', k) && k in c'.dcs && c'.dcs[k] == saved
            && saved == next.(rv := saved.rv) && SameIdentity(c.dcs[k], saved)
            && c'.children == c.children && c'.settings == c.settings
  {
    hide ConflictFree, ChildKeyOf, Target, ControllerOf, Conditions.WellFormed, Finalizers.Contains;
    var c' := Commit(c, c.dcs[k], next).0;
    assert c'.dcs.Keys == c.dcs.Keys;
    HealthyStays(c, c', k);
  }

  lemma AppliedCarries(c: World, c': World, a: DeviceConfig, b: DeviceConfig)
    requires c'.children == c.children && c'.settings == c.settings && SameIdentity(a, b)
    ensures forall s :: AppliedAt(c, a, s) ==> AppliedAt(c', b, s)
  {
    hide ChildKeyOf, Conforms;
    forall s | AppliedAt(c, a, s) ensures AppliedAt(c', b, s) {
      SetterUsesIdentity(s, c.children[ChildKeyOf(a.key, s)], a, b, c.settings);
    }
  }

  lemma AddFinalizerAlone(c: World, w: Worker, r: Reply)
    requires Healthy(c, w.key) && Alone(c, w) && w.pc.AddFinalizer? && Plain(w.cr.spec)
    ensures var (w', c') := StepAddFinalizer(w, c, r); StepsOn(c, w, r, w', c')
  {
    hide ChildKeyOf, Target, AppliedAt, Frame, Healthy, Commit, Conditions.WellFormed;
    HealthyFacts(c, w.key);
    assert Encoded(w.cr.spec) == w.cr.spec;
    var cr := w.cr.(finalizers := Finalizers.Add(w.cr.finalizers, DELETION_FINALIZER));
    OwnCommit(c, w.key, cr);
    ReadOnlyStepsOn(c, w.key, c.gauge);
    assert c.(gauge := c.gauge) == c;
  }

  lemma HealthyFacts(c: World, k: Key)
    requires Healthy(c, k)
    ensures k in c.dcs && c.dcs[k].key == k && !c.dcs[k].deleting && NotForeign(c, k)
    ensures Conditions.WellFormed(c.dcs[k].conditions)
  {
    hide ConflictFree;
  }

  lemma AdvanceAlone(c: World, w: Worker, s: Stage)
    requires Healthy(c, w.key) && w.cr.key == w.key && c.dcs[w.key] == w.cr && Finalizers.Contains(w.cr.finalizers)
    requires Applying(w.pc) && forall t :: Rank(t) <= Rank(s) ==> AppliedAt(c, w.cr, t)
    ensures var (w', c') := Advance(w, c, s);
            && w'.key == w.key && Healthy(c', w.key) && Frame(c, c', w.key) && Alone(c', w')
            && !w'.pc.Done? && !w'.pc.ReportError? && c' == c.(gauge := c'.gauge)
  {
    hide ChildKeyOf, Target, Frame, Healthy, Conforms;
    var (w', c') := Advance(w, c, s);
    ReadOnlyStepsOn(c, w.key, c'.gauge);
    HealthyFacts(c, w.key);
    assert c' == c.(gauge := c'.gauge);
    assert forall t :: AppliedAt(c', w.cr, t) <==> AppliedAt(c, w.cr, t);
  }

  lemma ReadAlone(c: World, w: Worker, r: Reply, s: Stage)
    requires Healthy(c, w.key) && Alone(c, w) && w.pc == ReadChild(s)
    ensures var (w', c') := StepReadChild(w, c, r, s); StepsOn(c, w, r, w', c')
  {
    hide ChildKeyOf, Target, Frame, Healthy, AppliedAt;
    ReadOnlyStepsOn(c, w.key, c.gauge);
    assert c.(gauge := c.gauge) == c;
  }

  lemma RereadAlone(c: World, w: Worker, r: Reply, s: Stage)
    requires Healthy(c, w.key) && Alone(c, w) && w.pc == RereadChild(s)
    ensures var (w', c') := StepRereadChild(w, c, r, s); StepsOn(c, w, r, w', c')
  {
    hide ChildKeyOf, Frame, Healthy, AppliedAt, SetDesired, Conforms;
    ReadOnlyStepsOn(c, w.key, c.gauge);
    assert c.(gauge := c.gauge) == c;
    HealthyFacts(c, w.key);
    TargetSuccess(c, w.key, s);
    assert SetterInput(w, c, s) == Input(c, w.key, s);
    if r.Ok? && AppliedAt(c, w.cr, s) {
      assert forall t :: Rank(t) == Rank(s) ==> t == s;
      AdvanceAlone(c, w, s);
    }
  }

  /** The lone writer's object is stored as intended. */
  lemma {:induction false} PutAlone(c: World, w: Worker, s: Stage)
    requires Healthy(c, w.key) && Alone(c, w) && w.pc == WriteChild(s)
    ensures var ck := ChildKeyOf(w.key, s);
            var put := c.(children := c.children[ck := w.after]);
            && (w.before.None? ==> CreateChild(c, ck, w.after, w.existing.Some?) == (put, Nil))
            && (w.before.Some? ==> PatchChild(c, ck, w.before.value, w.after) == (put, Nil))
            && Healthy(put, w.key) && Frame(c, put, w.key)
            && put.dcs == c.dcs
            && forall t :: Rank(t) <= Rank(s) ==> AppliedAt(put, w.cr, t)
  {
    hide ChildKeyOf, Conforms, ConflictFree, SetDesired, ControllerOf, Conditions.WellFormed, MergePatch;
    var ck := ChildKeyOf(w.key, s);
    var put := c.(children := c.children[ck := w.after]);
    if w.before.Some? { PatchOfSame(w.before.value, w.after); }
    forall t ensures ChildKeyOf(w.key, t) == ck <==> t == s { ChildKeysDistinct(w.key, t, w.key, s); }
    assert forall t :: Rank(t) == Rank(s) ==> t == s;
    TargetSuccess(c, w.key, s);
    assert Frame(c, put, w.key);
    HealthyStays(c, put, w.key);
  }

  lemma WriteAlone(c: World, w: Worker, r: Reply, s: Stage)
    requires Healthy(c, w.key) && Alone(c, w) && w.pc == WriteChild(s)
    ensures var (w', c') := StepWriteChild(w, c, r, s); StepsOn(c, w, r, w', c')
  {
    hide ChildKeyOf, Frame, Healthy, AppliedAt, CreateChild, PatchChild, Target;
    var put := c.(children := c.children[ChildKeyOf(w.key, s) := w.after]);
    PutAlone(c, w, s);
    ReadOnlyStepsOn(c, w.key, c.gauge);
    assert c.(gauge := c.gauge) == c;
    AdvanceAlone(put, w, s);
    var c' := Advance(w, put, s).1;
    assert Frame(put, c', w.key) && Frame(c, put, w.key);
    FrameTransitive(c, put, c', w.key);
  }

  lemma ReportErrorAlone(c: World, w: Worker, r: Reply, s: Stage)
    requires Healthy(c, w.key) && Alone(c, w) && w.pc == ReportError(s)
    ensures var (w', c') := StepReportError(w, c, r, s); StepsOn(c, w, r, w', c')
  {
    hide ChildKeyOf, Frame, Healthy, AppliedAt, Target, Commit, Conditions.Apply, Conditions.WellFormed;
    HealthyFacts(c, w.key);
    var u := Conditions.ErroredUpdate(Reason(s), ErrorText(w.err));
    Conditions.UpdateOutcome(w.cr.conditions, u, c.clock);
    var next := w.cr.(conditions := Conditions.Apply(w.cr.conditions, u, c.clock));
    OwnCommit(c, w.key, next);
    var c1 := if r.Fail? then c else Commit(c, w.cr, next).0;
    var c' := StepReportError(w, c, r, s).1;
    ReadOnlyStepsOn(c, w.key, c.gauge);
    assert c.(gauge := c.gauge) == c;
    ReadOnlyStepsOn(c1, w.key, c'.gauge);
    assert c1.(gauge := c'.gauge) == c';
    FrameTransitive(c, c1, c', w.key);
  }

  lemma UpdateSaysReady(cs: seq<Condition>, now: nat)
    requires Conditions.WellFormed(cs)
    ensures SaysReady(Conditions.Apply(cs, READY_UPDATE, now))
  {
    hide Conditions.Apply, Conditions.KeepsOthers;
    Conditions.UpdateLaws(cs, READY_UPDATE, now);
  }

  lemma ReportReadyAlone(c: World, w: Worker, r: Reply)
    requires Healthy(c, w.key) && Alone(c, w) && w.pc.ReportReady?
    ensures var (w', c') := StepReportReady(w, c, r); StepsOn(c, w, r, w', c')
  {
    hide ChildKeyOf, Frame, Healthy, Target, Commit;
    hide Conforms, Conditions.Apply, Conditions.WellFormed, Conditions.IsReady, SaysReady;
    HealthyFacts(c, w.key);
    Conditions.UpdateOutcome(w.cr.conditions, READY_UPDATE, c.clock);
    UpdateSaysReady(w.cr.conditions, c.clock);
    var next := w.cr.(conditions := Conditions.Apply(w.cr.conditions, READY_UPDATE, c.clock));
    OwnCommit(c, w.key, next);
    var (c1, saved) := Commit(c, w.cr, next);
    AppliedCarries(c, c1, w.cr, saved);
    ReadOnlyStepsOn(c, w.key, c.gauge);
    assert c.(gauge := c.gauge) == c;
  }

  lemma StepAlone(c: World, w: Worker, r: Reply)
    requires Healthy(c, w.key) && Alone(c, w) && (w.pc.AddFinalizer? ==> Plain(w.cr.spec))
    ensures var (w', c') := Step(w, c, r); StepsOn(c, w, r, w', c')
  {
    hide Healthy, Alone, StepsOn, Plain;
    hide StepStart, StepDeleteModule, StepRemoveFinalizer, StepListConfigs, StepListNodes, StepAddFinalizer;
    hide StepReadChild, StepRereadChild, StepWriteChild, StepReportError, StepReportReady;
    NotRemoving(c, w);
    match w.pc
    case Start => StartAlone(c, w, r);
    case ListConfigs => ListConfigsAlone(c, w, r);
    case ListNodes(i) => ListNodesAlone(c, w, r);
    case AddFinalizer => AddFinalizerAlone(c, w, r);
    case ReadChild(s) => ReadAlone(c, w, r, s);
    case RereadChild(s) => RereadAlone(c, w, r, s);
    case WriteChild(s) => WriteAlone(c, w, r, s);
    case ReportError(s) => ReportErrorAlone(c, w, r, s);
    case ReportReady => ReportReadyAlone(c, w, r);
    case _ =>
  }

  lemma NotRemoving(c: World, w: Worker)
    requires Alone(c, w)
    ensures !Removing(w.pc) && !w.pc.Done?
  {
    hide AppliedAt;
  }

  // ---------- a pass alone ----------

  /** A lone pass stays within its frame; unless a call fails it applies everything. */
  lemma {:induction false} RunAlone(c: World, w: Worker, tape: seq<Reply>)
    requires Healthy(c, w.key) && Alone(c, w) && Kept(c, w.key)
    ensures var (c', tape', v) := Run(w, c, tape);
            && Healthy(c', w.key) && Frame(c, c', w.key)
            && Faults(tape') <= Faults(tape)
            && (v.Applied? ==> Settled(c', w.key))
            && (!v.Applied? && !w.pc.ReportError? ==> Faults(tape') < Faults(tape))
            && !v.Gone? && !v.Deleted? && !v.DeletionFailed?
            && (v.Refused? ==> w.pc.Start? || w.pc.ListConfigs? || w.pc.ListNodes?)
    decreases Phase(w.pc), ListsLeft(w)
  {
    hide Step, Healthy, Alone, Frame, Settled, Kept;
    NotRemoving(c, w);
    var r := Head(tape);
    var (w', c') := Step(w, c, r);
    HealthyFacts(c, w.key);
    if w.pc.AddFinalizer? { AddsPlainly(c, w); }
    StepAlone(c, w, r);
    StepMakesProgress(w, c, r);
    if w'.pc.Done? {
      assert Run(w', c', Tail(tape)) == (c', Tail(tape), w'.pc.verdict);
    } else {
      KeptStays(c, c', w.key);
      RunAlone(c', w', Tail(tape));
      FrameTransitive(c, c', Run(w', c', Tail(tape)).0, w.key);
      RefusalIsEarly(w, c, r);
    }
  }

  lemma AddsPlainly(c: World, w: Worker)
    requires Alone(c, w) && w.key in c.dcs && Kept(c, w.key) && w.pc.AddFinalizer?
    ensures Plain(w.cr.spec)
  {
    hide AppliedAt;
  }

  lemma KeptStays(c: World, c': World, k: Key)
    requires Frame(c, c', k) && Kept(c, k)
    ensures k in c'.dcs && Kept(c', k)
  {
    hide Target, ChildKeyOf;
  }

  lemma RefusalIsEarly(w: Worker, c: World, r: Reply)
    ensures var w' := Step(w, c, r).0;
            w'.pc.ListConfigs? || w'.pc.ListNodes? ==> w.pc.Start? || w.pc.ListConfigs? || w.pc.ListNodes?
    ensures !Step(w, c, r).0.pc.Start? || w.pc.Start?
  {
    hide StepStart, StepListConfigs, StepListNodes, StepAddFinalizer, StepReportError, StepReportReady;
    hide StepReadChild, StepRereadChild, StepWriteChild, ListsLeft, Update, DeleteChild, Finalizers.Remove;
    if !w.pc.Done? { StepMakesProgress(w, c, r); }
  }
}
