/**
 The same Module, going while a pass is on its way. The pass over the DeviceConfig that was created again
 has adopted it; its last finalizer is taken off before the status is written, and the status then says
 of a Module that is gone that it was applied.
 */
module HeldCommit {
  import opened Api
  import opened Children
  import opened Store
  import opened NodeSelector
  import opened Machine
  import opened System
  import opened Invariant
  import opened Tracking
  import opened Sequential
  import opened Convergence
  import opened Status
  import opened Staging
  import opened HeldModule
  import Conditions
  import Finalizers
  import LonePass

  // ---------- a pass, up to a point ----------

  /** Where the pass is stopped: after the Module stage, or before Ready is reported. */
  predicate Stop(pc: Pc) {
    pc == ReadChild(LabelerStage) || pc == ReportReady
  }

  ghost predicate Before(pc: Pc, stop: Pc) {
    Phase(stop) < Phase(pc) && !Removing(pc)
  }

  /** No stop is skipped. */
  lemma NoneSkipped(w: Worker, c: World, stop: Pc)
    requires Stop(stop) && Before(w.pc, stop)
    ensures var pc := Step(w, c, Ok).0.pc;
            pc == stop || Before(pc, stop) || pc.ReportError? || Removing(pc) || (pc.Done? && !pc.verdict.Applied?)
  {
    hide ChildKeyOf, SetDesired, SetterInput, CreateChild, PatchChild, Update, Finalizers.Add, Finalizers.Contains;
    hide ListDeviceConfigs, SelectedNames, StepDeleteModule, StepRemoveFinalizer, StepReportError, StepReportReady;
  }

  /** A lone worker whose calls go through. */
  ghost predicate OnItsWay(c: World, w: Worker, k: Key) {
    w.key == k && Healthy(c, k) && Alone(c, w) && k in c.dcs && Kept(c, k)
  }

  lemma OneCall(c: World, w: Worker, k: Key, stop: Pc)
    requires OnItsWay(c, w, k) && Stop(stop) && Before(w.pc, stop)
    ensures var (w', c') := Step(w, c, Ok);
            && OnItsWay(c', w', k) && Frame(c, c', k) && !w'.pc.Done? && (w'.pc == stop || Before(w'.pc, stop))
  {
    hide Step, Healthy, Alone, Frame, Kept, Settled;
    HealthyFacts(c, k);
    if w.pc.AddFinalizer? { AddsPlainly(c, w); }
    NoneSkipped(w, c, stop);
    StepAlone(c, w, Ok);
    var (w', c') := Step(w, c, Ok);
    KeptStays(c, c', k);
    if !w'.pc.Done? { NotRemoving(c', w'); }
  }

  lemma {:induction false} CallsUntil(y: System, es: seq<Event>, k: Key, stop: Pc) returns (more: seq<Event>)
    requires Stop(stop) && k in Runs(y, es).workers
    requires OnItsWay(Runs(y, es).c, Runs(y, es).workers[k], k) && Before(Runs(y, es).workers[k].pc, stop)
    ensures es <= more && forall j :: |es| <= j < |more| ==> more[j] == Call(k, Ok)
    ensures var z := Runs(y, more);
            && k in z.workers && z.workers[k].pc == stop && OnItsWay(z.c, z.workers[k], k)
            && Frame(Runs(y, es).c, z.c, k)
    decreases Phase(Runs(y, es).workers[k].pc), ListsLeft(Runs(y, es).workers[k])
  {
    hide Step, Runs, OnItsWay, Frame, ReadyAfter;
    var z := Runs(y, es);
    var w := z.workers[k];
    var es1 := es + [Call(k, Ok)];
    LonePass.Then(y, es, Call(k, Ok));
    OneCall(z.c, w, k, stop);
    StepMakesProgress(w, z.c, Ok);
    if Step(w, z.c, Ok).0.pc == stop {
      more := es1;
    } else {
      more := CallsUntil(y, es1, k, stop);
      FrameTransitive(z.c, Runs(y, es1).c, Runs(y, more).c, k);
    }
  }

  /** A run that has a pass over the DeviceConfig at this point, with the Module still going. */
  lemma {:induction false} MidPass(f: string, stop: Pc) returns (y: System, es: seq<Event>)
    requires Stop(stop)
    ensures Initial(y) && (forall e :: e in es ==> QuietButHeld(e, f))
    ensures var z := Runs(y, es);
            OWNER in z.workers && z.workers[OWNER].pc == stop && OnItsWay(z.c, z.workers[OWNER], OWNER) && Going(z.c, f)
  {
    hide Runs, Healthy, Kept, Going, Frame, NewWorker, Alone;
    var before;
    y, before := AgainRun(f);
    var c := Runs(y, before).c;
    var begun := before + [Enqueue(OWNER)];
    LonePass.Then(y, before, Enqueue(OWNER));
    NewIsAlone(c, OWNER);
    HealthyFacts(c, OWNER);
    assert NewWorker(OWNER).pc == Start by { StartsFresh(OWNER); }
    es := CallsUntil(y, begun, OWNER, stop);
    StillGoing(c, Runs(y, es).c, f);
    Extended(before, es, f);
  }

  // ---------- the status is written ----------

  /** The status write that comes next is stored, and there is no Module then. */
  ghost predicate CommitsWithoutModule(y: System, k: Key, pc: Pc) {
    && k in y.workers && y.workers[k].pc == pc && Commits(y.workers[k], y.c, Ok)
    && var c' := Next(y, Call(k, Ok)).c;
    && k in c'.dcs && !c'.dcs[k].deleting
    && (Conditions.IsReady(c'.dcs[k].conditions) <==> pc == ReportReady)
    && ChildKeyOf(k, ModuleStage) !in c'.children
  }

  /** The last finalizer is taken off the Module of a worker that is about to write the status. */
  lemma {:induction false} ThenLetGo(y: System, es: seq<Event>, f: string) returns (more: seq<Event>)
    requires Initial(y) && OWNER in Runs(y, es).workers && Going(Runs(y, es).c, f)
    requires var (w, c) := (Runs(y, es).workers[OWNER], Runs(y, es).c);
             && (w.pc.ReportReady? || w.pc.ReportError?) && w.key == OWNER
             && OWNER in c.dcs && c.dcs[OWNER] == w.cr && w.cr.key == OWNER && !w.cr.deleting
    ensures more == es + [ModuleRemoveFinalizer(ModuleKey(), f)]
    ensures CommitsWithoutModule(Runs(y, more), OWNER, Runs(y, es).workers[OWNER].pc)
  {
    hide Runs, Step, ModuleKey, Environment, Follows, StoredAs, ReadyAfter;
    hide Scripted, Conditions.WellFormed, Conditions.IsReady, Conditions.ErroredWith;
    var lets := ModuleRemoveFinalizer(ModuleKey(), f);
    more := es + [lets];
    LonePass.Then(y, es, lets);
    Goes(Runs(y, es).c, f);
    ModuleIs();
    var z := Runs(y, more);
    var w := z.workers[OWNER];
    TrackReachable(y, more);
    CondsReachable(y, more);
    ScriptedIsWellFormed(w.cr.conditions);
    CommitSays(z.c, w, Ok);
  }

  /** For what Ready says when it is stored. */
  lemma {:induction false} HeldModuleBreaksReadyCommit(f: string)
    ensures exists y, es, k ::
              Initial(y) && (forall e :: e in es ==> QuietButHeld(e, f)) && CommitsWithoutModule(Runs(y, es), k, ReportReady)
  {
    hide Runs, Going, ModuleKey, CommitsWithoutModule, Initial, AppliedAt, Healthy;
    var y, before := MidPass(f, ReportReady);
    HealthyFacts(Runs(y, before).c, OWNER);
    LiveWorker(Runs(y, before).c, Runs(y, before).workers[OWNER]);
    var es := ThenLetGo(y, before, f);
    assert forall e :: e in es ==> QuietButHeld(e, f);
    assert CommitsWithoutModule(Runs(y, es), OWNER, ReportReady);
  }

  lemma LiveWorker(c: World, w: Worker)
    requires OnItsWay(c, w, w.key) && Applying(w.pc)
    ensures c.dcs[w.key] == w.cr && w.cr.key == w.key && !w.cr.deleting
  {
    hide AppliedAt;
    HealthyFacts(c, w.key);
  }

  lemma ReadFails(y: System, k: Key)
    requires k in y.workers && y.workers[k].pc == ReadChild(LabelerStage)
    ensures Next(y, Call(k, Fail)).c == y.c
    ensures Next(y, Call(k, Fail)).workers == y.workers[k := y.workers[k].(pc := ReportError(LabelerStage), err := Unavailable)]
  {
  }

  /** For what a failure further on says of the stages before it. */
  lemma {:induction false} HeldModuleBreaksErroredCommit(f: string)
    ensures exists y, es, k ::
              && Initial(y) && (forall e :: e in es ==> QuietButHeld(e, f))
              && CommitsWithoutModule(Runs(y, es), k, ReportError(LabelerStage))
  {
    hide Runs, Going, ModuleKey, CommitsWithoutModule, Initial, AppliedAt, Healthy, Next;
    var y, before := MidPass(f, ReadChild(LabelerStage));
    HealthyFacts(Runs(y, before).c, OWNER);
    LiveWorker(Runs(y, before).c, Runs(y, before).workers[OWNER]);
    var failed := before + [Call(OWNER, Fail)];
    LonePass.Then(y, before, Call(OWNER, Fail));
    ReadFails(Runs(y, before), OWNER);
    var es := ThenLetGo(y, failed, f);
    assert forall e :: e in es ==> QuietButHeld(e, f);
    assert CommitsWithoutModule(Runs(y, es), OWNER, ReportError(LabelerStage));
  }
}
