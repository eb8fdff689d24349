/**
 A pass that is about to leave a present but empty selector out of its write of the finalizer. It goes
 on with the selector it holds, so it does what it would do if the whole specification had been stored:
 it applies every child for every node and reports Ready. What is stored then asks for something else.
 */
module Dropping {
  import opened Wrappers
  import opened Ordering
  import opened Api
  import opened Objects
  import opened Children
  import opened Store
  import opened NodeSelector
  import opened Machine
  import opened Invariant
  import opened Sequential
  import Conditions
  import Finalizers

  /** The world with another specification stored for `k`. */
  function Respec(c: World, k: Key, spec: Spec): World
    requires k in c.dcs
  {
    c.(dcs := c.dcs[k := c.dcs[k].(spec := spec)])
  }

  // ---------- the pipeline does not look at the stored specification ----------

  ghost predicate SameButSpec(w: Worker, c: World, r: Reply, spec: Spec)
    requires w.key in c.dcs
  {
    var (w1, c1) := Step(w, c, r);
    var (w2, c2) := Step(w, Respec(c, w.key, spec), r);
    && w.key in c1.dcs && c2 == Respec(c1, w.key, spec) && w2.pc == w1.pc && (!w1.pc.Done? ==> w2 == w1)
    && c1.dcs[w.key].spec == c.dcs[w.key].spec && c1.dcs[w.key].key == w.key && !c1.dcs[w.key].deleting
  }

  lemma ReadIgnoresSpec(w: Worker, c: World, r: Reply, spec: Spec)
    requires w.key in c.dcs && c.dcs[w.key].key == w.key && !c.dcs[w.key].deleting
    requires w.pc.ReadChild? || w.pc.RereadChild?
    ensures SameButSpec(w, c, r, spec)
  {
    hide ChildKeyOf, SetDesired, StepWriteChild, StepReportError, StepReportReady;
    hide StepStart, StepDeleteModule, StepRemoveFinalizer, StepListConfigs, StepListNodes, StepAddFinalizer;
  }

  lemma PutIgnoresSpec(c: World, k: Key, spec: Spec, ck: ChildKey, o: Object, versioned: bool, before: Object)
    requires k in c.dcs
    ensures var (c1, e) := CreateChild(c, ck, o, versioned);
            c1.dcs == c.dcs && CreateChild(Respec(c, k, spec), ck, o, versioned) == (Respec(c1, k, spec), e)
    ensures var (c1, e) := PatchChild(c, ck, before, o);
            c1.dcs == c.dcs && PatchChild(Respec(c, k, spec), ck, before, o) == (Respec(c1, k, spec), e)
  {
    hide MergePatch;
  }

  lemma WriteIgnoresSpec(w: Worker, c: World, r: Reply, spec: Spec)
    requires w.key in c.dcs && c.dcs[w.key].key == w.key && !c.dcs[w.key].deleting && w.pc.WriteChild?
    ensures SameButSpec(w, c, r, spec)
  {
    hide ChildKeyOf, CreateChild, PatchChild, StepReadChild, StepRereadChild, StepReportError, StepReportReady;
    hide StepStart, StepDeleteModule, StepRemoveFinalizer, StepListConfigs, StepListNodes, StepAddFinalizer;
    var before := if w.before.Some? then w.before.value else w.after;
    PutIgnoresSpec(c, w.key, spec, ChildKeyOf(w.cr.key, w.pc.stage), w.after, w.existing.Some?, before);
  }

  lemma StatusIgnoresSpec(c: World, cr: DeviceConfig, spec: Spec)
    requires cr.key in c.dcs && c.dcs[cr.key].key == cr.key && !c.dcs[cr.key].deleting
    ensures var (c1, res1) := UpdateStatus(c, cr);
            var (c2, res2) := UpdateStatus(Respec(c, cr.key, spec), cr);
            && cr.key in c1.dcs && c2 == Respec(c1, cr.key, spec) && (res1.Success? <==> res2.Success?)
            && c1.dcs[cr.key].spec == c.dcs[cr.key].spec && c1.dcs[cr.key].key == cr.key && !c1.dcs[cr.key].deleting
  {
  }

  lemma ReportIgnoresSpec(w: Worker, c: World, r: Reply, spec: Spec)
    requires w.key in c.dcs && c.dcs[w.key].key == w.key && !c.dcs[w.key].deleting && w.cr.key == w.key
    requires w.pc.ReportError? || w.pc.ReportReady?
    ensures SameButSpec(w, c, r, spec)
  {
    hide UpdateStatus, Conditions.Apply, Reason, ErrorText;
    hide StepStart, StepDeleteModule, StepRemoveFinalizer, StepListConfigs, StepListNodes, StepAddFinalizer;
    hide StepReadChild, StepRereadChild, StepWriteChild;
    var update := if w.pc.ReportReady? then READY_UPDATE else Conditions.ErroredUpdate(Reason(w.pc.stage), ErrorText(w.err));
    StatusIgnoresSpec(c, w.cr.(conditions := Conditions.Apply(w.cr.conditions, update, c.clock)), spec);
  }

  lemma StepIgnoresSpec(w: Worker, c: World, r: Reply, spec: Spec)
    requires w.key in c.dcs && c.dcs[w.key].key == w.key && !c.dcs[w.key].deleting && w.cr.key == w.key && Applying(w.pc)
    ensures SameButSpec(w, c, r, spec)
  {
    hide SameButSpec;
    if w.pc.ReadChild? || w.pc.RereadChild? {
      ReadIgnoresSpec(w, c, r, spec);
    } else if w.pc.WriteChild? {
      WriteIgnoresSpec(w, c, r, spec);
    } else {
      ReportIgnoresSpec(w, c, r, spec);
    }
  }

  lemma StaysApplying(w: Worker, c: World, r: Reply)
    requires Applying(w.pc)
    ensures var w' := Step(w, c, r).0; w'.key == w.key && (w'.pc.Done? || (Applying(w'.pc) && w'.cr == w.cr))
  {
    hide ChildKeyOf, SetDesired, SetterInput, MergePatch, UpdateStatus, Conditions.Apply, Reason, ErrorText;
    hide StepStart, StepDeleteModule, StepRemoveFinalizer, StepListConfigs, StepListNodes, StepAddFinalizer;
  }

  lemma {:induction false} RunIgnoresSpec(w: Worker, c: World, tape: seq<Reply>, spec: Spec)
    requires w.key in c.dcs && c.dcs[w.key].key == w.key && !c.dcs[w.key].deleting && w.cr.key == w.key && Applying(w.pc)
    ensures var (c', tape', v) := Run(w, c, tape);
            && w.key in c'.dcs && c'.dcs[w.key].spec == c.dcs[w.key].spec
            && Run(w, Respec(c, w.key, spec), tape) == (Respec(c', w.key, spec), tape', v)
    decreases Phase(w.pc), ListsLeft(w)
  {
    hide Step, Run, Respec;
    var r := Head(tape);
    var p := Respec(c, w.key, spec);
    StepIgnoresSpec(w, c, r, spec);
    StaysApplying(w, c, r);
    StepMakesProgress(w, c, r);
    Calls(w, c, tape);
    Calls(w, p, tape);
    var (w', c') := Step(w, c, r);
    if w'.pc.Done? {
      Ends(w', c', Tail(tape));
      Ends(Step(w, p, r).0, Step(w, p, r).1, Tail(tape));
    } else {
      RunIgnoresSpec(w', c', Tail(tape), spec);
    }
  }

  // ---------- what is left in the store ----------

  lemma StoredIsConflictFree(c: World, k: Key, spec: Spec)
    requires k in c.dcs && !Plain(spec) && StoreOk(Respec(c, k, spec)) && ConflictFree(Respec(c, k, spec))
    ensures StoreOk(c) && ConflictFree(c)
  {
    hide ConflictFree, Weaker;
    var p := Respec(c, k, spec);
    assert c.dcs.Keys == p.dcs.Keys && forall j :: j in c.dcs ==> c.dcs[j] == p.dcs[j].(spec := c.dcs[j].spec);
    ClaimsLess(c, k, spec);
    VerdictMonotone(c, p);
  }

  lemma StoredIsFree(c: World, k: Key, spec: Spec)
    requires k in c.dcs && NotForeign(Respec(c, k, spec), k)
    ensures NotForeign(c, k)
  {
    hide ChildKeyOf, ControllerOf;
    assert Ref(Respec(c, k, spec).dcs[k]) == Ref(c.dcs[k]);
    assert Respec(c, k, spec).children == c.children;
  }

  /** The smaller claim that is stored keeps the cluster free of conflicts. */
  lemma StoredIsHealthy(c: World, k: Key, spec: Spec)
    requires k in c.dcs && !Plain(spec) && Healthy(Respec(c, k, spec), k)
    ensures Healthy(c, k)
  {
    hide ConflictFree, NotForeign, StoreOk, Conditions.WellFormed, Plain;
    StoredIsConflictFree(c, k, spec);
    StoredIsFree(c, k, spec);
  }

  lemma ClaimsLess(c: World, k: Key, spec: Spec)
    requires k in c.dcs && !Plain(spec)
    ensures Weaker(c, Respec(c, k, spec))
  {
    var p := Respec(c, k, spec);
    forall j, n | j in c.dcs && n in c.nodes && Selects(c, c.dcs[j], n) ensures Selects(p, p.dcs[j], n) {
      if j == k { assert Selector(p.dcs[k]) == map[]; }
    }
  }

  /** What the held specification asks for is not what the stored one asks for. */
  lemma NotSettled(c: World, k: Key, spec: Spec)
    requires k in c.dcs && !Plain(spec) && c.dcs[k].spec == Encoded(spec) && c.dcs[k].key == k
    requires Settled(Respec(c, k, spec), k)
    ensures !Settled(c, k)
  {
    hide ChildKeyOf, Conforms, Conditions.IsReady, SaysReady;
    var p := Respec(c, k, spec);
    assert p.dcs[k] == c.dcs[k].(spec := spec);
    assert AppliedAt(p, p.dcs[k], ModuleStage);
    assert AppliedAt(c, c.dcs[k].(spec := spec), ModuleStage);
    if Settled(c, k) {
      assert AppliedAt(c, c.dcs[k], ModuleStage);
      OneModuleOneSpec(c, c.dcs[k], spec);
    }
  }

  // ---------- the pass ----------

  /** What a lone pass over a DeviceConfig whose selector is going to be left out comes to. */
  ghost predicate Comes(c: World, k: Key, tape: seq<Reply>, c': World, tape': seq<Reply>, v: Verdict)
    requires k in c.dcs
  {
    && Healthy(c', k)
    && (v.Applied? || v.Refused? || v.ReadFailed? || v.FinalizerFailed? || v.StageFailed? || v.StatusFailed?)
    && StoredAs(c.dcs[k].spec, c'.dcs[k].spec) && Frame(c, Respec(c', k, c.dcs[k].spec), k)
    && (v.Applied? ==> Kept(c', k) && Settled(Respec(c', k, c.dcs[k].spec), k) && !Settled(c', k))
    && (!v.Applied? ==> Faults(tape') < Faults(tape))
    && Faults(tape') <= Faults(tape)
  }

  /** The finalizer has been written: `x` is the store, `saved` what the worker goes on with. */
  ghost predicate Wrote(c: World, w: Worker, x: World, saved: DeviceConfig) {
    && w.key in c.dcs && c.dcs[w.key] == w.cr && w.cr.key == w.key && !Plain(w.cr.spec)
    && w.key in x.dcs && x.dcs[w.key].spec == Encoded(w.cr.spec)
    && x.dcs[w.key].key == w.key && !x.dcs[w.key].deleting
    && var p := Respec(x, w.key, w.cr.spec);
    && Healthy(p, w.key) && Kept(p, w.key) && Frame(c, p, w.key) && p.dcs[w.key] == saved
    && saved.key == w.key && Finalizers.Contains(saved.finalizers)
  }

  lemma FinalizerWrite(c: World, w: Worker)
    requires Healthy(c, w.key) && !Kept(c, w.key) && Alone(c, w) && w.pc.AddFinalizer?
    ensures var (x, res) := Update(c, w.cr.(finalizers := Finalizers.Add(w.cr.finalizers, DELETION_FINALIZER)));
            res.Success? && Wrote(c, w, x, res.value)
  {
    hide ChildKeyOf, Target, AppliedAt, Frame, Healthy, Conditions.WellFormed;
    HealthyFacts(c, w.key);
    var cr := w.cr.(finalizers := Finalizers.Add(w.cr.finalizers, DELETION_FINALIZER));
    var next := cr.(generation := w.cr.generation + 1);
    OwnCommit(c, w.key, next);
    assert next != c.dcs[w.key];
    assert Encoded(cr.spec) != c.dcs[w.key].spec;
    var x := Update(c, cr).0;
    assert Respec(x, w.key, w.cr.spec).dcs == Commit(c, c.dcs[w.key], next).0.dcs;
    assert Respec(x, w.key, w.cr.spec) == Commit(c, c.dcs[w.key], next).0;
  }

  /** The write was lost, or its acknowledgement: the store before it or after it. */
  lemma WriteFails(c: World, x: World, k: Key, tape: seq<Reply>)
    requires k in c.dcs && k in x.dcs && !Head(tape).Ok? && StoredAs(c.dcs[k].spec, x.dcs[k].spec)
    requires Healthy(x, k) && Frame(c, Respec(x, k, c.dcs[k].spec), k)
    ensures Comes(c, k, tape, x, Tail(tape), FinalizerFailed)
  {
    hide Healthy, Frame, Settled, Kept, Respec, StoredAs;
  }

  lemma NothingWritten(c: World, k: Key, tape: seq<Reply>)
    requires Healthy(c, k) && !Head(tape).Ok?
    ensures k in c.dcs && Comes(c, k, tape, c, Tail(tape), FinalizerFailed)
  {
    HealthyFacts(c, k);
    FrameReflexive(c, k, c.gauge);
    BothStored(c.dcs[k].spec);
    assert c.(gauge := c.gauge) == c && Respec(c, k, c.dcs[k].spec) == c by { assert c.dcs[k := c.dcs[k]] == c.dcs; }
    hide Healthy, Frame, Settled, Kept, Respec, StoredAs, Comes;
    WriteFails(c, c, k, tape);
  }

  lemma WrittenUnheard(c: World, w: Worker, x: World, saved: DeviceConfig, tape: seq<Reply>)
    requires Wrote(c, w, x, saved) && !Head(tape).Ok?
    ensures w.key in c.dcs && Comes(c, w.key, tape, x, Tail(tape), FinalizerFailed)
  {
    BothStored(w.cr.spec);
    hide Healthy, Frame, Settled, Kept, Respec, StoredAs, Comes, Plain, Encoded;
    StoredIsHealthy(x, w.key, w.cr.spec);
    WriteFails(c, x, w.key, tape);
  }

  lemma AddOutcome(c: World, w: Worker, tape: seq<Reply>)
    requires Healthy(c, w.key) && !Kept(c, w.key) && Alone(c, w) && w.pc.AddFinalizer?
    ensures var (c', tape', v) := Run(w, c, tape); Comes(c, w.key, tape, c', tape', v)
  {
    FinalizerWrite(c, w);
    hide Run, Healthy, Alone, Finalizers.Add, Update, Kept, Comes, Wrote;
    var r := Head(tape);
    var (x, res) := Update(c, w.cr.(finalizers := Finalizers.Add(w.cr.finalizers, DELETION_FINALIZER)));
    IsAddFinalizer(w, c, r);
    Calls(w, c, tape);
    hide Step;
    var (w', c') := Step(w, c, r);
    match r
    case Ok => GoesOn(c, w, x, res.value, tape);
    case Fail =>
      NothingWritten(c, w.key, tape);
      Ends(w', c', Tail(tape));
    case LostAck =>
      WrittenUnheard(c, w, x, res.value, tape);
      Ends(w', c', Tail(tape));
  }

  lemma BothStored(spec: Spec)
    ensures StoredAs(spec, Encoded(spec)) && StoredAs(spec, spec)
  {
  }

  lemma IsAddFinalizer(w: Worker, c: World, r: Reply)
    requires w.pc.AddFinalizer?
    ensures var cr := w.cr.(finalizers := Finalizers.Add(w.cr.finalizers, DELETION_FINALIZER));
            var (x, res) := Update(c, cr);
            Step(w, c, r) ==
            match r
            case Ok => (match res case Success(saved) => (w.(cr := saved, pc := ReadChild(FirstStage())), x)
                                  case Failure(_) => (w.(cr := cr, pc := Done(FinalizerFailed)), x))
            case Fail => (w.(cr := cr, pc := Done(FinalizerFailed)), c)
            case LostAck => (w.(cr := cr, pc := Done(FinalizerFailed)), x)
  {
    hide Update, Finalizers.Add;
  }

  /** What the pass with the stored specification comes to, from what it would come to with the one held. */
  lemma Translated(c: World, k: Key, c': World, tape: seq<Reply>, tape': seq<Reply>, v: Verdict)
    requires k in c.dcs && !Plain(c.dcs[k].spec) && k in c'.dcs && c'.dcs[k].spec == Encoded(c.dcs[k].spec)
    requires Head(tape).Ok?
    requires var p := Respec(c', k, c.dcs[k].spec);
             && Healthy(p, k) && Kept(p, k) && Frame(c, p, k) && Faults(tape') <= Faults(Tail(tape))
             && (v.Applied? ==> Settled(p, k)) && (!v.Applied? ==> Faults(tape') < Faults(Tail(tape)))
    requires !v.Gone? && !v.Deleted? && !v.DeletionFailed? && !v.Refused?
    ensures Comes(c, k, tape, c', tape', v)
  {
    var spec := c.dcs[k].spec;
    AfterAll(c', k, spec, Respec(c', k, spec));
    StoredIsHealthy(c', k, spec);
    BothStored(spec);
    OneFault(tape);
    hide Healthy, Frame, Settled, Kept, Respec, StoredAs, Plain, Encoded, Faults;
    if v.Applied? { NotSettled(c', k, spec); }
  }

  lemma OneFault(tape: seq<Reply>)
    ensures Faults(tape) == Faults(Tail(tape)) + if Head(tape).Ok? then 0 else 1
  {
  }

  lemma StartsPipeline(c: World, w: Worker)
    requires w.pc == ReadChild(FirstStage()) && w.cr.key == w.key && w.key in c.dcs && c.dcs[w.key] == w.cr
    requires Finalizers.Contains(w.cr.finalizers)
    ensures Alone(c, w)
  {
    hide AppliedAt;
  }

  lemma GoesOn(c: World, w: Worker, x: World, saved: DeviceConfig, tape: seq<Reply>)
    requires Wrote(c, w, x, saved) && Head(tape).Ok?
    ensures var (c', tape', v) := Run(w.(cr := saved, pc := ReadChild(FirstStage())), x, Tail(tape));
            w.key in c.dcs && Comes(c, w.key, tape, c', tape', v)
  {
    var w1 := w.(cr := saved, pc := ReadChild(FirstStage()));
    var (k, spec) := (w.key, w.cr.spec);
    var p := Respec(x, k, spec);
    StartsPipeline(p, w1);
    hide Run, Healthy, Frame, Settled, Alone, Kept, Encoded, Plain, Respec, Comes, Finalizers.Contains, Faults;
    RunAlone(p, w1, Tail(tape));
    RunIgnoresSpec(w1, x, Tail(tape), spec);
    var (c', tape', v) := Run(w1, x, Tail(tape));
    FrameTransitive(c, p, Respec(c', k, spec), k);
    KeptStays(p, Respec(c', k, spec), k);
    Translated(c, k, c', tape, tape', v);
  }

  lemma AfterAll(c: World, k: Key, spec: Spec, p: World)
    requires k in c.dcs && p == Respec(c, k, spec) && Healthy(p, k)
    ensures c.dcs[k].key == k && (Finalizers.Contains(p.dcs[k].finalizers) ==> Kept(c, k))
    ensures !Plain(spec) && Kept(p, k) ==> Kept(c, k)
  {
    HealthyFacts(p, k);
    hide Healthy;
  }

  lemma {:induction false} DroppingRun(c: World, w: Worker, tape: seq<Reply>)
    requires Healthy(c, w.key) && !Kept(c, w.key) && Alone(c, w)
    requires w.pc.Start? || w.pc.ListConfigs? || w.pc.ListNodes? || w.pc.AddFinalizer?
    ensures var (c', tape', v) := Run(w, c, tape); Comes(c, w.key, tape, c', tape', v)
    decreases Phase(w.pc), ListsLeft(w)
  {
    if w.pc.AddFinalizer? {
      AddOutcome(c, w, tape);
    } else {
      hide Step, Run, Healthy, Alone, Frame, Settled, Kept, Comes;
      var r := Head(tape);
      var (w', c') := Step(w, c, r);
      StepAlone(c, w, r);
      StepMakesProgress(w, c, r);
      EarlyStep(c, w, r);
      Calls(w, c, tape);
      if w'.pc.Done? {
        Ends(w', c', Tail(tape));
        EarlyEnd(c, w, r, tape);
      } else {
        DroppingRun(c', w', Tail(tape));
        EarlyGoesOn(c, c', w.key, r, tape, Run(w', c', Tail(tape)));
      }
    }
  }

  /** Up to the validator's verdict nothing is written. */
  lemma EarlyStep(c: World, w: Worker, r: Reply)
    requires Healthy(c, w.key) && !Kept(c, w.key) && Alone(c, w) && (w.pc.Start? || w.pc.ListConfigs? || w.pc.ListNodes?)
    ensures var (w', c') := Step(w, c, r);
            && c' == c.(gauge := c'.gauge) && w'.key == w.key
            && (w'.pc.Done? || w'.pc.ListConfigs? || w'.pc.ListNodes? || w'.pc.AddFinalizer?)
  {
    HealthyFacts(c, w.key);
    hide Healthy, AppliedAt, ListDeviceConfigs, SelectedNames, AllNames, NoDup, Plain;
    hide StepDeleteModule, StepRemoveFinalizer, StepAddFinalizer;
    hide StepReadChild, StepRereadChild, StepWriteChild, StepReportError, StepReportReady;
  }

  lemma EarlyEnd(c: World, w: Worker, r: Reply, tape: seq<Reply>)
    requires Healthy(c, w.key) && r == Head(tape) && !w.pc.ReportError?
    requires var (w', c') := Step(w, c, r); StepsOn(c, w, r, w', c') && w'.pc.Done? && c' == c.(gauge := c'.gauge)
    requires !Kept(c, w.key) && (w.pc.Start? || w.pc.ListConfigs? || w.pc.ListNodes?)
    ensures var (w', c') := Step(w, c, r); Comes(c, w.key, tape, c', Tail(tape), w'.pc.verdict)
  {
    HealthyFacts(c, w.key);
    NoneAppliedEarly(w, c, r);
    hide Step, Healthy, Frame, Settled, Kept, Alone, Comes;
    var (w', c') := Step(w, c, r);
    Unwritten(c, c', w.key, tape, w'.pc.verdict);
  }

  /** The pass ended on a failed call before it wrote anything. */
  lemma Unwritten(c: World, c': World, k: Key, tape: seq<Reply>, v: Verdict)
    requires k in c.dcs && c' == c.(gauge := c'.gauge) && Healthy(c', k) && Frame(c, c', k)
    requires !Head(tape).Ok? && (v.Refused? || v.ReadFailed? || v.FinalizerFailed? || v.StageFailed? || v.StatusFailed?)
    ensures Comes(c, k, tape, c', Tail(tape), v)
  {
    BothStored(c.dcs[k].spec);
    OneFault(tape);
    assert c'.dcs[k := c'.dcs[k]] == c'.dcs;
    hide Healthy, Frame, Settled, Kept, StoredAs, Faults;
  }

  lemma NoneAppliedEarly(w: Worker, c: World, r: Reply)
    requires w.pc.Start? || w.pc.ListConfigs? || w.pc.ListNodes?
    ensures var pc := Step(w, c, r).0.pc; pc.Done? ==> !pc.verdict.Applied?
  {
    hide ListDeviceConfigs, SelectedNames, NoDup, Finalizers.Contains;
    hide StepDeleteModule, StepRemoveFinalizer, StepAddFinalizer;
    hide StepReadChild, StepRereadChild, StepWriteChild, StepReportError, StepReportReady;
  }

  lemma EarlyGoesOn(c: World, c': World, k: Key, r: Reply, tape: seq<Reply>, out: (World, seq<Reply>, Verdict))
    requires k in c.dcs && c' == c.(gauge := c'.gauge) && Frame(c, c', k) && r == Head(tape)
    requires Comes(c', k, Tail(tape), out.0, out.1, out.2)
    ensures Comes(c, k, tape, out.0, out.1, out.2)
  {
    HealthyFacts(out.0, k);
    hide Healthy, Frame, Settled, Kept;
    FrameTransitive(c, c', Respec(out.0, k, c.dcs[k].spec), k);
  }
}
