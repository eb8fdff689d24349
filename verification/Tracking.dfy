/**
 What holds of a worker's snapshot in every run, whoever does what to DeviceConfigs and to their
 children: it is never ahead of the store, and with the version it has it tells what is stored.
 */
module Tracking {
  import opened Api
  import opened Objects
  import opened Children
  import opened Store
  import opened Machine
  import opened System
  import opened Invariant
  import opened Preservation
  import Finalizers
  import Conditions
  import NodeSelector
  import Ordering

  ghost predicate Follows(c: World, w: Worker) {
    !w.pc.Done? && Tracks(c, w) && OnCourse(w)
  }

  ghost predicate TrackInv(y: System) {
    StoreOk(y.c) && forall k :: k in y.workers ==> y.workers[k].key == k && Follows(y.c, y.workers[k])
  }

  // ---------- everybody else ----------

  lemma ChildrenApart(c: World, e: Event)
    ensures Environment(c.(children := map[]), e) == Environment(c, e).(children := map[])
  {
    hide Orphan, Finalizers.Remove, Finalizers.Add, Commit, DeleteChild, SetChildFinalizers;
    CommitsApart(c);
    if OnChild(e) {
      ChildEvents(c, e);
      ChildEvents(c.(children := map[]), e);
      hide Environment;
    }
  }

  lemma CommitsApart(c: World)
    ensures forall stored, next :: Commit(c.(children := map[]), stored, next).0 == Commit(c, stored, next).0.(children := map[])
  {
  }

  lemma EnvironmentEvolves(c: World, e: Event)
    requires StoreOk(c)
    ensures Evolves(c, Environment(c, e))
  {
    var bare := c.(children := map[]);
    ChildrenApart(c, e);
    assert ChildrenOk(bare) && SparesEvent(bare, e);
    hide Environment, Moves;
    EnvironmentMoves(bare, e);
    MovesEvolve(bare, Environment(bare, e));
  }

  lemma FollowsStill(c: World, c': World, w: Worker)
    requires Evolves(c, c') && Follows(c, w)
    ensures Follows(c', w)
  {
    hide StoredAs, OnCourse;
    if !w.pc.Start? && w.key in c'.dcs && c'.dcs[w.key].uid == w.cr.uid { StoredBefore(c, c', w.key); }
  }

  // ---------- the worker's own calls ----------

  /** No DeviceConfig is touched. */
  ghost predicate SameConfigs(c: World, c': World) {
    c'.dcs == c.dcs && c'.nextUid == c.nextUid && c'.nextRv == c.nextRv && c'.settings == c.settings
  }

  ghost predicate GoesOn(c: World, w: Worker, w': Worker, c': World) {
    Evolves(c, c') && w'.key == w.key && (w'.pc.Done? || Follows(c', w'))
  }

  lemma SameConfigsGoOn(c: World, w: Worker, w': Worker, c': World)
    requires StoreOk(c) && Follows(c, w) && SameConfigs(c, c') && w'.key == w.key
    requires w'.pc.Done? || (w'.cr == w.cr && OnCourse(w') && !w.pc.Start?)
    ensures GoesOn(c, w, w', c')
  {
    hide StoredAs, OnCourse;
  }

  lemma StartGoesOn(c: World, w: Worker, r: Reply)
    requires StoreOk(c) && Follows(c, w) && w.pc.Start?
    ensures var (w', c') := StepStart(w, c, r); GoesOn(c, w, w', c')
  {
    hide Finalizers.Contains;
  }

  lemma FinishCourse(c: World, w: Worker)
    requires OnCourse(w) && (w.pc.ListConfigs? || w.pc.ListNodes?)
    ensures var (w', c') := FinishCheck(w, c);
            SameConfigs(c, c') && w'.key == w.key && w'.cr == w.cr && (w'.pc.Done? || OnCourse(w'))
  {
    hide Ordering.NoDup, Finalizers.Contains;
  }

  lemma ListsGoOn(c: World, w: Worker, r: Reply)
    requires StoreOk(c) && Follows(c, w) && (w.pc.ListConfigs? || w.pc.ListNodes?)
    ensures var (w', c') := if w.pc.ListConfigs? then StepListConfigs(w, c, r) else StepListNodes(w, c, r, w.pc.i);
            GoesOn(c, w, w', c')
  {
    hide FinishCheck, ListDeviceConfigs, NodeSelector.SelectedNames, Finalizers.Contains, Tracks, GoesOn, StoreOk;
    var (w', c') := if w.pc.ListConfigs? then StepListConfigs(w, c, r) else StepListNodes(w, c, r, w.pc.i);
    if r.Ok? {
      if w.pc.ListConfigs? {
        FinishCourse(c, w.(listed := ListDeviceConfigs(c), names := []));
      } else if w.pc.i < |w.listed| {
        FinishCourse(c, w.(names := w.names + NodeSelector.SelectedNames(c, w.listed[w.pc.i])));
      } else {
        FinishCourse(c, w);
      }
    }
    SameConfigsGoOn(c, w, w', c');
  }

  lemma ChildrenCourse(c: World, w: Worker, r: Reply)
    requires OnCourse(w) && (w.pc.DeleteModule? || w.pc.ReadChild? || w.pc.RereadChild? || w.pc.WriteChild?)
    ensures var (w', c') := Step(w, c, r);
            SameConfigs(c, c') && w'.key == w.key && w'.cr == w.cr && (w'.pc.Done? || OnCourse(w'))
  {
    hide ChildKeyOf, SetDesired, SetterInput, MergePatch, Finalizers.Contains;
    hide StepStart, StepRemoveFinalizer, StepListConfigs, StepListNodes, StepAddFinalizer, StepReportError, StepReportReady;
  }

  lemma AddGoesOn(c: World, w: Worker, r: Reply)
    requires StoreOk(c) && Follows(c, w) && w.pc.AddFinalizer?
    ensures var (w', c') := StepAddFinalizer(w, c, r); GoesOn(c, w, w', c')
  {
    hide Update, Moves, Evolves;
    UpdateMoves(c, AddedTo(w));
    Stutters(c);
    MovesEvolve(c, c);
    if Update(c, AddedTo(w)).1.Success? { UpdateStores(c, AddedTo(w)); }
  }

  lemma RemoveGoesOn(c: World, w: Worker, r: Reply)
    requires StoreOk(c) && w.pc.RemoveFinalizer?
    ensures var (w', c') := StepRemoveFinalizer(w, c, r); GoesOn(c, w, w', c')
  {
    hide Update, Moves, Evolves, Finalizers.Remove;
    UpdateMoves(c, w.cr.(finalizers := Finalizers.Remove(w.cr.finalizers, DELETION_FINALIZER)));
    Stutters(c);
    MovesEvolve(c, c);
  }

  lemma GaugeEvolves(c: World, c': World, gauge: map<string, nat>)
    requires Evolves(c, c')
    ensures Evolves(c, c'.(gauge := gauge))
  {
    hide Later;
  }

  lemma ReportGoesOn(c: World, w: Worker, r: Reply)
    requires StoreOk(c) && (w.pc.ReportError? || w.pc.ReportReady?)
    ensures var (w', c') := Step(w, c, r); GoesOn(c, w, w', c')
  {
    hide UpdateStatus, Moves, Evolves, Conditions.Apply, Reason, ErrorText;
    hide StepStart, StepDeleteModule, StepRemoveFinalizer, StepListConfigs, StepListNodes, StepAddFinalizer;
    hide StepReadChild, StepRereadChild, StepWriteChild;
    var update := if w.pc.ReportReady? then READY_UPDATE else Conditions.ErroredUpdate(Reason(w.pc.stage), ErrorText(w.err));
    var cr := w.cr.(conditions := Conditions.Apply(w.cr.conditions, update, c.clock));
    StatusMoves(c, cr);
    MovesEvolve(c, UpdateStatus(c, cr).0);
    Stutters(c);
    MovesEvolve(c, c);
    var c' := Step(w, c, r).1;
    var c1 := if r.Fail? then c else UpdateStatus(c, cr).0;
    GaugeEvolves(c, c1, c'.gauge);
  }

  lemma CallGoesOn(c: World, w: Worker, r: Reply)
    requires StoreOk(c) && Follows(c, w)
    ensures var (w', c') := Step(w, c, r); GoesOn(c, w, w', c')
  {
    hide StoreOk, Tracks, GoesOn, OnCourse;
    hide StepStart, StepDeleteModule, StepRemoveFinalizer, StepListConfigs, StepListNodes, StepAddFinalizer;
    hide StepReadChild, StepRereadChild, StepWriteChild, StepReportError, StepReportReady;
    match w.pc
    case Start => StartGoesOn(c, w, r);
    case ListConfigs => ListsGoOn(c, w, r);
    case ListNodes(_) => ListsGoOn(c, w, r);
    case AddFinalizer => AddGoesOn(c, w, r);
    case RemoveFinalizer => RemoveGoesOn(c, w, r);
    case ReportError(_) => ReportGoesOn(c, w, r);
    case ReportReady => ReportGoesOn(c, w, r);
    case _ =>
      ChildrenCourse(c, w, r);
      SameConfigsGoOn(c, w, Step(w, c, r).0, Step(w, c, r).1);
  }

  // ---------- whole runs ----------

  lemma CallTracked(y: System, k: Key, r: Reply)
    requires TrackInv(y) && k in y.workers
    ensures TrackInv(CallNext(y, k, r)) && Evolves(y.c, CallNext(y, k, r).c)
  {
    hide Step, Follows, ReadyAfter, Evolves, StoreOk;
    var (w', c') := Step(y.workers[k], y.c, r);
    CallGoesOn(y.c, y.workers[k], r);
    assert StoreOk(c') by { EvolvedIsOk(y.c, c'); }
    forall j | j in y.workers && j != k ensures Follows(c', y.workers[j]) {
      FollowsStill(y.c, c', y.workers[j]);
    }
  }

  lemma EvolvedIsOk(c: World, c': World)
    requires Evolves(c, c')
    ensures StoreOk(c')
  {
  }

  lemma NewFollows(c: World, k: Key)
    ensures NewWorker(k).key == k && Follows(c, NewWorker(k))
  {
  }

  lemma EventTracked(y: System, e: Event)
    requires TrackInv(y)
    ensures TrackInv(Next(y, e))
  {
    hide Environment, CallNext, Follows, Evolves, StoreOk, NewWorker;
    match e
    case Enqueue(k) => NewFollows(y.c, k);
    case Call(k, r) => if k in y.workers { CallTracked(y, k, r); }
    case _ => EnvironmentTracked(y, e);
  }

  lemma EnvironmentTracked(y: System, e: Event)
    requires TrackInv(y)
    ensures TrackInv(y.(c := Environment(y.c, e))) && TrackInv(y.(c := Environment(y.c, e), workers := map[]))
  {
    hide Environment, Follows, Evolves, StoreOk;
    EnvironmentEvolves(y.c, e);
    EvolvedIsOk(y.c, Environment(y.c, e));
    forall k | k in y.workers ensures Follows(Environment(y.c, e), y.workers[k]) {
      FollowsStill(y.c, Environment(y.c, e), y.workers[k]);
    }
  }

  lemma {:induction false} TrackReachable(y: System, es: seq<Event>)
    requires Initial(y)
    ensures TrackInv(Runs(y, es))
    decreases |es|
  {
    if es != [] {
      hide Next, Initial, TrackInv;
      TrackReachable(y, es[..|es| - 1]);
      EventTracked(Runs(y, es[..|es| - 1]), es[|es| - 1]);
    }
  }
}
