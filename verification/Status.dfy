/**
 What the status conditions say is true of the world: at the instant they are committed, and for
 as long as the specification is not edited. Same runs as in `Safety`.
 */
module Status {
  import opened Wrappers
  import opened Api
  import opened Objects
  import opened Children
  import opened Store
  import opened Machine
  import opened System
  import opened Invariant
  import opened Preservation
  import opened Tracking
  import opened Safety
  import opened PlainSelectors
  import Finalizers
  import Conditions

  // ---------- conditions in the store ----------

  ghost predicate StoredConds(c: World) {
    forall k :: k in c.dcs ==> Scripted(c.dcs[k].conditions)
  }

  /** Every stored and every held list of conditions is as the operator writes it. */
  ghost predicate CondsInv(y: System) {
    && StoredConds(y.c)
    && forall k :: k in y.workers ==> Scripted(y.workers[k].cr.conditions)
  }

  /** The status is not written yet, or says that everything was applied, or which part failed: the
      conditions as a reader finds them, value by value. */
  ghost predicate Scripted(cs: seq<Condition>) {
    cs == [] || (|cs| == 2 && cs[0].kind == "Ready" && cs[1].kind == "Errored" && (SaysApplied(cs) || SaysFailed(cs)))
  }

  predicate SaysApplied(cs: seq<Condition>)
    requires |cs| == 2
  {
    && cs[0].status.ConditionTrue? && cs[0].reason == "Reconciled"
    && cs[0].message == "All resources have been successfully reconciled"
    && cs[1].status.ConditionFalse? && cs[1].reason == "Ready" && cs[1].message == ""
  }

  predicate SaysFailed(cs: seq<Condition>)
    requires |cs| == 2
  {
    && cs[0].status.ConditionFalse? && cs[0].reason == "Errored" && cs[0].message == ""
    && cs[1].status.ConditionTrue? && cs[1].reason in {"ModuleFailed", "NodeLabelerFailed", "NodeMetricsFailed"}
  }

  lemma PairFound(cs: seq<Condition>)
    requires |cs| == 2 && cs[0].kind == "Ready" && cs[1].kind == "Errored"
    ensures Conditions.IndexOf(cs, "Ready") == 0 && Conditions.IndexOf(cs, "Errored") == 1 && Conditions.UniqueKinds(cs)
  {
    assert "Ready"[0] != "Errored"[0];
  }

  lemma NoConditions()
    ensures Conditions.WellFormed([]) && !Conditions.IsReady([]) && Scripted([])
  {
    assert Conditions.UniqueKinds([]);
    assert Conditions.IndexOf([], Conditions.READY) == 0 && Conditions.IndexOf([], Conditions.ERRORED) == 0;
  }

  lemma ScriptedIsWellFormed(cs: seq<Condition>)
    requires Scripted(cs)
    ensures Conditions.WellFormed(cs)
    ensures Conditions.IsReady(cs) <==> |cs| == 2 && SaysApplied(cs)
  {
    if cs == [] { NoConditions(); } else { PairFound(cs); }
  }

  /** What a status write makes of them. */
  lemma UpdateScripts(cs: seq<Condition>, u: Conditions.Update, now: nat)
    requires Scripted(cs)
    requires u == READY_UPDATE || (u.ErroredUpdate? && u.reason in {"ModuleFailed", "NodeLabelerFailed", "NodeMetricsFailed"})
    ensures var cs' := Conditions.Apply(cs, u, now);
            Scripted(cs') && |cs'| == 2 && (SaysApplied(cs') <==> u == READY_UPDATE)
            && (u.ErroredUpdate? ==> SaysFailed(cs') && cs'[1].reason == u.reason)
  {
    if cs != [] {
      PairFound(cs);
      var one := Conditions.SetStatusCondition(cs, Conditions.Parts(u).0, now);
      PairFound(one);
    } else {
      var one := Conditions.SetStatusCondition(cs, Conditions.Parts(u).0, now);
      assert |one| == 1 && one[0].kind == "Ready" && "Ready"[0] != "Errored"[0];
      assert Conditions.IndexOf(one, "Errored") == 1;
    }
  }

  lemma CommitStoresConds(c: World, stored: DeviceConfig, next: DeviceConfig)
    requires StoredConds(c) && Scripted(next.conditions) && Scripted(stored.conditions)
    ensures StoredConds(Commit(c, stored, next).0) && Scripted(Commit(c, stored, next).1.conditions)
  {
    hide Scripted;
  }

  lemma EnvironmentStoresConds(c: World, e: Event)
    requires StoredConds(c)
    ensures StoredConds(Environment(c, e))
  {
    hide Orphan, Finalizers.Remove, Finalizers.Add, Commit, DeleteChild, SetChildFinalizers, Scripted;
    NoConditions();
    forall stored: DeviceConfig, next: DeviceConfig |
      StoredConds(c) && Scripted(next.conditions) && Scripted(stored.conditions)
      ensures StoredConds(Commit(c, stored, next).0)
    {
      CommitStoresConds(c, stored, next);
    }
    match e
    case _ => if OnChild(e) { ChildEvents(c, e); }
  }

  lemma UpdateStoresConds(c: World, cr: DeviceConfig)
    requires StoredConds(c)
    ensures var (c', res) := Update(c, cr); StoredConds(c') && (res.Success? ==> Scripted(res.value.conditions))
  {
    hide Commit, Encoded, Scripted;
    if cr.key in c.dcs {
      var stored := c.dcs[cr.key];
      CommitStoresConds(c, stored, Updated(stored, cr));
    }
  }

  lemma StatusStoresConds(c: World, cr: DeviceConfig)
    requires StoredConds(c) && Scripted(cr.conditions)
    ensures StoredConds(UpdateStatus(c, cr).0)
  {
    hide Commit, Scripted;
    if cr.key in c.dcs {
      CommitStoresConds(c, c.dcs[cr.key], c.dcs[cr.key].(conditions := cr.conditions));
    }
  }

  lemma StartConds(c: World, w: Worker, r: Reply)
    requires StoredConds(c) && Scripted(w.cr.conditions)
    ensures var (w', c') := StepStart(w, c, r); StoredConds(c') && Scripted(w'.cr.conditions)
  {
    hide Scripted, Finalizers.Contains;
  }

  lemma FinalizerConds(c: World, w: Worker, r: Reply)
    requires StoredConds(c) && Scripted(w.cr.conditions)
    ensures var (w', c') := StepAddFinalizer(w, c, r); StoredConds(c') && Scripted(w'.cr.conditions)
    ensures var (w', c') := StepRemoveFinalizer(w, c, r); StoredConds(c') && Scripted(w'.cr.conditions)
  {
    hide Scripted, Finalizers.Add, Finalizers.Remove, Update, StoredConds;
    UpdateStoresConds(c, w.cr.(finalizers := Finalizers.Add(w.cr.finalizers, DELETION_FINALIZER)));
    UpdateStoresConds(c, w.cr.(finalizers := Finalizers.Remove(w.cr.finalizers, DELETION_FINALIZER)));
  }

  lemma ReportConds(c: World, w: Worker, r: Reply)
    requires StoredConds(c) && Scripted(w.cr.conditions) && (w.pc.ReportError? || w.pc.ReportReady?)
    ensures var (w', c') := Step(w, c, r); StoredConds(c') && w'.pc.Done?
  {
    hide Scripted, Conditions.IsReady, Conditions.ErroredWith, Conditions.Apply, UpdateStatus, ErrorText;
    hide StepStart, StepDeleteModule, StepRemoveFinalizer, StepListConfigs, StepListNodes, StepAddFinalizer;
    hide StepReadChild, StepRereadChild, StepWriteChild;
    UpdateScripts(w.cr.conditions, UpdateOf(w), c.clock);
    StatusStoresConds(c, w.cr.(conditions := Conditions.Apply(w.cr.conditions, UpdateOf(w), c.clock)));
  }

  lemma CallConds(c: World, w: Worker, r: Reply)
    requires StoredConds(c) && Scripted(w.cr.conditions)
    ensures var (w', c') := Step(w, c, r); StoredConds(c') && (w'.pc.Done? || Scripted(w'.cr.conditions))
  {
    hide Scripted, StepStart, StepDeleteModule;
    hide StepRemoveFinalizer, StepListConfigs, StepListNodes, StepAddFinalizer;
    hide StepReadChild, StepRereadChild, StepWriteChild, StepReportError, StepReportReady;
    if w.pc.ReportError? || w.pc.ReportReady? {
      ReportConds(c, w, r);
    } else {
      StartConds(c, w, r);
      FinalizerConds(c, w, r);
      ListsSameDcs(w, c, r);
      ChildrenSameDcs(w, c, r);
    }
  }

  lemma EventConds(y: System, e: Event)
    requires CondsInv(y)
    ensures CondsInv(Next(y, e))
  {
    hide Environment, Step, Scripted, ReadyAfter, StoredConds;
    match e
    case Enqueue(k) => NoConditions(); NewConds(k);
    case Call(k, r) => if k in y.workers { CallConds(y.c, y.workers[k], r); }
    case _ => EnvironmentStoresConds(y.c, e);
  }

  lemma NewConds(k: Key)
    ensures NewWorker(k).cr.conditions == []
  {
  }

  lemma {:induction false} CondsReachable(y: System, es: seq<Event>)
    requires Initial(y)
    ensures CondsInv(Runs(y, es))
    decreases |es|
  {
    if es != [] {
      hide Next, Initial, CondsInv;
      CondsReachable(y, es[..|es| - 1]);
      EventConds(Runs(y, es[..|es| - 1]), es[|es| - 1]);
    }
  }

  // ---------- Ready has a record ----------

  /** Ready=True is stored only if a Ready commit was recorded. */
  ghost predicate OnRecord(c: World, ready: Commitments) {
    forall k :: k in c.dcs && Conditions.IsReady(c.dcs[k].conditions) ==> (k, c.dcs[k].uid) in ready
  }

  ghost predicate SameConds(c: World, c': World) {
    forall k :: k in c'.dcs ==>
      || c'.dcs[k].conditions == []
      || (k in c.dcs && c'.dcs[k].uid == c.dcs[k].uid && c'.dcs[k].conditions == c.dcs[k].conditions)
  }

  lemma SameCondsOk(c: World, c': World, ready: Commitments)
    requires OnRecord(c, ready) && SameConds(c, c')
    ensures OnRecord(c', ready)
  {
    NoConditions();
  }

  lemma CommitSameConds(c: World, k: Key, next: DeviceConfig)
    requires k in c.dcs && next.key == k && next.uid == c.dcs[k].uid && next.conditions == c.dcs[k].conditions
    ensures SameConds(c, Commit(c, c.dcs[k], next).0)
  {
  }

  lemma EnvironmentSameConds(c: World, e: Event)
    requires StoreOk(c)
    ensures SameConds(c, Environment(c, e))
  {
    hide Orphan, Finalizers.Remove, Finalizers.Add, Commit, DeleteChild, SetChildFinalizers;
    match e
    case UserEditDriver(key, image, version) =>
      if key in c.dcs { EditSameConds(c, key, c.dcs[key].spec.(driverImage := image, driverVersion := version)); }
    case UserEditSelector(key, selector) =>
      if key in c.dcs { EditSameConds(c, key, c.dcs[key].spec.(nodeSelector := selector)); }
    case UserAddFinalizer(key, f) =>
      if key in c.dcs { CommitSameConds(c, key, c.dcs[key].(finalizers := Finalizers.Add(c.dcs[key].finalizers, f))); }
    case UserRemoveFinalizer(key, f) =>
      if key in c.dcs { CommitSameConds(c, key, c.dcs[key].(finalizers := Finalizers.Remove(c.dcs[key].finalizers, f))); }
    case UserDelete(key) =>
      if key in c.dcs { CommitSameConds(c, key, c.dcs[key].(deleting := true, generation := c.dcs[key].generation + 1)); }
    case _ => if OnChild(e) { ChildEvents(c, e); }
  }

  lemma EditSameConds(c: World, key: Key, spec: Spec)
    requires StoreOk(c) && key in c.dcs
    ensures SameConds(c, EditSpec(c, key, spec))
  {
    hide Commit;
    CommitSameConds(c, key, c.dcs[key].(spec := spec, generation := c.dcs[key].generation + 1));
  }

  lemma UpdateSameConds(c: World, cr: DeviceConfig)
    requires StoreOk(c)
    ensures SameConds(c, Update(c, cr).0)
  {
    hide Commit;
    if cr.key in c.dcs {
      var stored := c.dcs[cr.key];
      CommitSameConds(c, cr.key, Updated(stored, cr));
    }
  }

  lemma FinalizerSameConds(c: World, w: Worker, r: Reply)
    requires StoreOk(c) && w.cr.key == w.key
    ensures w.pc.RemoveFinalizer? ==> SameConds(c, StepRemoveFinalizer(w, c, r).1)
    ensures w.pc.AddFinalizer? ==> SameConds(c, StepAddFinalizer(w, c, r).1)
  {
    hide Finalizers.Remove, Finalizers.Add, Update, SameConds;
    assert SameConds(c, c) by { NothingChanged(c); }
    UpdateSameConds(c, w.cr.(finalizers := Finalizers.Remove(w.cr.finalizers, DELETION_FINALIZER)));
    UpdateSameConds(c, w.cr.(finalizers := Finalizers.Add(w.cr.finalizers, DELETION_FINALIZER)));
  }

  lemma NothingChanged(c: World)
    ensures SameConds(c, c)
  {
  }

  lemma CallSameConds(c: World, w: Worker, r: Reply)
    requires StoreOk(c) && w.cr.key == w.key && !w.pc.ReportReady? && !w.pc.ReportError?
    ensures SameConds(c, Step(w, c, r).1)
  {
    hide StepStart, StepDeleteModule, StepRemoveFinalizer, StepListConfigs, StepListNodes, StepAddFinalizer;
    hide StepReadChild, StepRereadChild, StepWriteChild, StepReportError, StepReportReady;
    if w.pc.RemoveFinalizer? || w.pc.AddFinalizer? {
      FinalizerSameConds(c, w, r);
    } else {
      ListsSameDcs(w, c, r);
      ChildrenSameDcs(w, c, r);
    }
  }

  // ---------- status writes ----------

  /** The status write `w` makes next is stored. */
  ghost predicate Commits(w: Worker, c: World, r: Reply) {
    Applying(w.pc) && !r.Fail? && w.cr.key in c.dcs && c.dcs[w.cr.key].rv == w.cr.rv
  }

  function UpdateOf(w: Worker): Conditions.Update {
    match w.pc
    case ReportError(s) => Conditions.ErroredUpdate(Reason(s), ErrorText(w.err))
    case _ => READY_UPDATE
  }

  lemma StoredStatus(c: World, w: Worker, cr: DeviceConfig)
    requires StoreOk(c) && Follows(c, w) && Applying(w.pc)
    requires cr == w.cr.(conditions := cr.conditions)
    requires w.cr.key in c.dcs && c.dcs[w.cr.key].rv == w.cr.rv
    ensures var c' := UpdateStatus(c, cr).0;
            && Current(c, w) && c.dcs[w.key] == w.cr.(spec := c.dcs[w.key].spec)
            && StoredAs(w.cr.spec, c.dcs[w.key].spec) && w.key in c'.dcs
            && c'.dcs == c.dcs[w.key := c'.dcs[w.key]] && c'.children == c.children && c'.settings == c.settings
            && c'.dcs[w.key] == cr.(rv := c'.dcs[w.key].rv, spec := c.dcs[w.key].spec)
  {
    hide Finalizers.Contains, StoredAs;
  }

  /** A committed status write leaves the DeviceConfig as it was stored, with the conditions
      of the update; one that is not committed leaves the store alone. */
  lemma StatusWrite(c: World, w: Worker, r: Reply)
    requires StoreOk(c) && Follows(c, w) && (w.pc.ReportReady? || w.pc.ReportError?)
    ensures var c' := Step(w, c, r).1;
            && (Commits(w, c, r) ==>
                 && Current(c, w) && c.dcs[w.key] == w.cr.(spec := c.dcs[w.key].spec)
                 && StoredAs(w.cr.spec, c.dcs[w.key].spec) && w.key in c'.dcs
                 && c'.dcs == c.dcs[w.key := c'.dcs[w.key]] && c'.children == c.children && c'.settings == c.settings
                 && c'.dcs[w.key] == w.cr.(rv := c'.dcs[w.key].rv, spec := c.dcs[w.key].spec,
                                           conditions := Conditions.Apply(w.cr.conditions, UpdateOf(w), c.clock)))
            && (!Commits(w, c, r) ==> c'.dcs == c.dcs)
  {
    hide Conditions.Apply, StoreOk, Follows, Commit, Reason, ErrorText, StoredAs;
    hide StepStart, StepDeleteModule, StepRemoveFinalizer, StepListConfigs, StepListNodes, StepAddFinalizer;
    hide StepReadChild, StepRereadChild, StepWriteChild;
    if Commits(w, c, r) {
      StoredStatus(c, w, w.cr.(conditions := Conditions.Apply(w.cr.conditions, UpdateOf(w), c.clock)));
    }
  }

  lemma CommitsAgree(w: Worker, c: World, r: Reply)
    ensures CommitsReady(w, c, r) <==> w.pc.ReportReady? && Commits(w, c, r)
  {
  }

  /** A committed status write: the stored conditions say what the update says. */
  lemma CommitSays(c: World, w: Worker, r: Reply)
    requires StoreOk(c) && Follows(c, w) && Conditions.WellFormed(w.cr.conditions)
    requires (w.pc.ReportReady? || w.pc.ReportError?) && Commits(w, c, r)
    ensures var c' := Step(w, c, r).1;
            && Current(c, w) && w.key in c'.dcs
            && c'.children == c.children && c'.settings == c.settings
            && c'.dcs == c.dcs[w.key := c'.dcs[w.key]]
            && var d := c'.dcs[w.key];
            && d == w.cr.(rv := d.rv, conditions := d.conditions, spec := d.spec)
            && d.spec == c.dcs[w.key].spec && StoredAs(w.cr.spec, d.spec)
            && (Conditions.IsReady(d.conditions) <==> w.pc.ReportReady?)
            && (w.pc.ReportError? ==> Conditions.ErroredWith(d.conditions, Reason(w.pc.stage)))
  {
    hide Step, Commits, Follows, StoredAs;
    hide Conditions.Apply, Conditions.WellFormed, Conditions.IsReady, Conditions.ErroredWith;
    StatusWrite(c, w, r);
    Conditions.UpdateOutcome(w.cr.conditions, UpdateOf(w), c.clock);
  }

  /** Every stage the worker has passed is then what the specification it holds asks for. */
  lemma CommitIsSound(c: World, ready: Commitments, w: Worker, r: Reply)
    requires StoreOk(c) && WorkerInv(c, ready, w) && Conditions.WellFormed(w.cr.conditions)
    requires (w.pc.ReportReady? || w.pc.ReportError?) && Commits(w, c, r)
    ensures var c' := Step(w, c, r).1;
            && w.key in c'.dcs
            && forall s :: Rank(s) < Passed(w.pc) ==> AppliedAt(c', c'.dcs[w.key].(spec := w.cr.spec), s)
  {
    hide Step, Commits, AppliedAt, Tracks, OnCourse, ReadyBehind, Untouched, StoredAs;
    hide Conditions.Apply, Conditions.WellFormed, Conditions.IsReady, Conditions.ErroredWith;
    CommitSays(c, w, r);
    var c' := Step(w, c, r).1;
    var d := c'.dcs[w.key];
    forall s | Rank(s) < Passed(w.pc) ensures AppliedAt(c', d.(spec := w.cr.spec), s) {
      assert AppliedAt(c, w.cr, s);
      StatusKeepsApplied(c, c', w.cr, d.(spec := w.cr.spec), s);
    }
  }

  lemma StatusKeepsApplied(c: World, c': World, a: DeviceConfig, b: DeviceConfig, s: Stage)
    requires AppliedAt(c, a, s) && c'.children == c.children && c'.settings == c.settings
    requires a.key == b.key && a.uid == b.uid && a.spec == b.spec
    ensures AppliedAt(c', b, s)
  {
    hide ChildKeyOf;
    SameSpecSameChildren(c, a, b, s);
  }

  lemma StatusKeepsRecord(c: World, ready: Commitments, w: Worker, r: Reply)
    requires StoreOk(c) && Follows(c, w) && (w.pc.ReportReady? || w.pc.ReportError?)
    requires OnRecord(c, ready) && Conditions.WellFormed(w.cr.conditions)
    ensures OnRecord(Step(w, c, r).1, ReadyAfter(c, ready, w, r))
  {
    hide Step, CommitsReady, Commits, Follows, StoredAs;
    hide Conditions.Apply, Conditions.WellFormed, Conditions.IsReady, Conditions.ErroredWith;
    StatusWrite(c, w, r);
    CommitsAgree(w, c, r);
    SameKeyHeld(c, w);
    if Commits(w, c, r) { CommitSays(c, w, r); }
  }

  lemma CallKeepsRecord(y: System, k: Key, r: Reply)
    requires TrackInv(y) && CondsInv(y) && OnRecord(y.c, y.ready) && k in y.workers
    ensures OnRecord(CallNext(y, k, r).c, CallNext(y, k, r).ready)
  {
    hide Step, CommitsReady, Follows, OnRecord, Scripted, Conditions.WellFormed;
    var w := y.workers[k];
    if w.pc.ReportReady? || w.pc.ReportError? {
      ScriptedIsWellFormed(w.cr.conditions);
      StatusKeepsRecord(y.c, y.ready, w, r);
    } else {
      SameKeyHeld(y.c, w);
      CallSameConds(y.c, w, r);
      CommitsNeedReport(w, y.c, r);
      SameCondsOk(y.c, Step(w, y.c, r).1, y.ready);
    }
  }

  lemma EventKeepsRecord(y: System, e: Event)
    requires TrackInv(y) && CondsInv(y) && OnRecord(y.c, y.ready)
    ensures OnRecord(Next(y, e).c, Next(y, e).ready)
  {
    hide Environment, CallNext, Follows, OnRecord, CondsInv;
    match e
    case Enqueue(_) =>
    case Call(k, r) => if k in y.workers { CallKeepsRecord(y, k, r); }
    case _ =>
      EnvironmentSameConds(y.c, e);
      SameCondsOk(y.c, Environment(y.c, e), y.ready);
  }

  lemma SameKeyHeld(c: World, w: Worker)
    requires Follows(c, w)
    ensures w.cr.key == w.key
  {
  }

  lemma {:induction false} RecordReachable(y: System, es: seq<Event>)
    requires Initial(y)
    ensures OnRecord(Runs(y, es).c, Runs(y, es).ready)
    decreases |es|
  {
    if es != [] {
      hide Next, Initial, TrackInv, OnRecord, CondsInv;
      RecordReachable(y, es[..|es| - 1]);
      TrackReachable(y, es[..|es| - 1]);
      CondsReachable(y, es[..|es| - 1]);
      EventKeepsRecord(Runs(y, es[..|es| - 1]), es[|es| - 1]);
    }
  }

  // ---------- theorems ----------

  /** In every reachable state a reader finds no conditions, or Ready and then Errored, in that order, with
      the reasons and messages of a complete pass or of the failure of one part. */
  lemma {:induction false} StoredConditionsAreScripted(y: System, es: seq<Event>)
    requires Initial(y)
    ensures forall k :: k in Runs(y, es).c.dcs ==> Scripted(Runs(y, es).c.dcs[k].conditions)
  {
    CondsReachable(y, es);
    hide Runs, Scripted;
  }

  /** Starting from none, the stored pair is always both absent or complementary, whatever anybody
      does and whatever status writes fail on the way. */
  lemma {:induction false} StoredConditionsComplementary(y: System, es: seq<Event>)
    requires Initial(y)
    ensures forall k :: k in Runs(y, es).c.dcs ==> Conditions.WellFormed(Runs(y, es).c.dcs[k].conditions)
  {
    StoredConditionsAreScripted(y, es);
    hide Runs, Scripted, Conditions.WellFormed;
    forall k | k in Runs(y, es).c.dcs ensures Conditions.WellFormed(Runs(y, es).c.dcs[k].conditions) {
      ScriptedIsWellFormed(Runs(y, es).c.dcs[k].conditions);
    }
  }

  /** At the instant Ready=True is stored, also when its acknowledgement is lost, all four stored
      children are what the specification held by the pass asks for. That is what the stored one asks
      for exactly when the two are the same, which they are unless the write of the finalizer left a
      present but empty selector out. */
  lemma {:induction false} ReadyCommitIsSound(y: System, es: seq<Event>, k: Key, r: Reply)
    requires Initial(y) && SparesAll(y, es)
    requires var z := Runs(y, es); k in z.workers && CommitsReady(z.workers[k], z.c, r)
    ensures var z' := Next(Runs(y, es), Call(k, r));
            var held := Runs(y, es).workers[k].cr.spec;
            && k in z'.c.dcs && Conditions.IsReady(z'.c.dcs[k].conditions)
            && StoredAs(held, z'.c.dcs[k].spec)
            && (forall s :: AppliedAt(z'.c, z'.c.dcs[k].(spec := held), s))
            && ((forall s :: AppliedAt(z'.c, z'.c.dcs[k], s)) <==> held == z'.c.dcs[k].spec)
            && (k, z'.c.dcs[k].uid) in z'.ready
            && z'.ready[(k, z'.c.dcs[k].uid)] == Commitment(z'.c.dcs[k].generation, held == z'.c.dcs[k].spec)
  {
    hide Runs, Step, CommitsReady, Commits, Follows, WorkerInv, KeyInv, AppliedAt, StoredAs, Scripted;
    hide Conditions.WellFormed, Conditions.IsReady, Conditions.ErroredWith;
    Reachable(y, es);
    TrackReachable(y, es);
    CondsReachable(y, es);
    var z := Runs(y, es);
    var w := z.workers[k];
    CommitsAgree(w, z.c, r);
    SameKeyHeld(z.c, w);
    ScriptedIsWellFormed(w.cr.conditions);
    CommitSays(z.c, w, r);
    CommitIsSound(z.c, z.ready, w, r);
    var c' := Step(w, z.c, r).1;
    var d := c'.dcs[k];
    assert forall s :: AppliedAt(c', d.(spec := w.cr.spec), s);
    AsStoredIff(c', d, w.cr.spec);
  }

  lemma AsStoredIff(c: World, d: DeviceConfig, held: Spec)
    requires StoredAs(held, d.spec) && forall s :: AppliedAt(c, d.(spec := held), s)
    ensures (forall s :: AppliedAt(c, d, s)) <==> held == d.spec
  {
    hide AppliedAt, StoredAs;
    if forall s :: AppliedAt(c, d, s) {
      assert AppliedAt(c, d, ModuleStage) && AppliedAt(c, d.(spec := held), ModuleStage);
      OneModuleOneSpec(c, d, held);
    }
    if held == d.spec {
      assert d.(spec := held) == d;
    }
  }

  /** At the instant Errored=True is stored for a stage, its reason names the stage and every
      earlier stage is what the specification held by the pass asks for. */
  lemma {:induction false} ErroredCommitIsSound(y: System, es: seq<Event>, k: Key, r: Reply, s: Stage)
    requires Initial(y) && SparesAll(y, es)
    requires var z := Runs(y, es);
             k in z.workers && z.workers[k].pc == ReportError(s) && Commits(z.workers[k], z.c, r)
    ensures var c' := Next(Runs(y, es), Call(k, r)).c;
            var held := Runs(y, es).workers[k].cr.spec;
            && k in c'.dcs && !Conditions.IsReady(c'.dcs[k].conditions)
            && Conditions.ErroredWith(c'.dcs[k].conditions,
                                      match s
                                      case ModuleStage => "ModuleFailed"
                                      case LabelerStage => "NodeLabelerFailed"
                                      case _ => "NodeMetricsFailed")
            && StoredAs(held, c'.dcs[k].spec)
            && forall t :: Rank(t) < Rank(s) ==> AppliedAt(c', c'.dcs[k].(spec := held), t)
  {
    hide Runs, Step, CommitsReady, Commits, Follows, WorkerInv, KeyInv, AppliedAt, StoredAs, Scripted;
    hide Conditions.WellFormed, Conditions.IsReady, Conditions.ErroredWith;
    Reachable(y, es);
    TrackReachable(y, es);
    CondsReachable(y, es);
    var z := Runs(y, es);
    ScriptedIsWellFormed(z.workers[k].cr.conditions);
    CommitSays(z.c, z.workers[k], r);
    CommitIsSound(z.c, z.ready, z.workers[k], r);
  }

  /** A live DeviceConfig that says Ready=True has it on record; if that commit was exact and the
      DeviceConfig has not been edited since, all four children are as it asks for, in every
      reachable state. */
  lemma {:induction false} ReadyStaysTrue(y: System, es: seq<Event>, k: Key)
    requires Initial(y) && SparesAll(y, es)
    requires var c := Runs(y, es).c; k in c.dcs && !c.dcs[k].deleting && Conditions.IsReady(c.dcs[k].conditions)
    ensures var z := Runs(y, es); var d := z.c.dcs[k];
            && (k, d.uid) in z.ready
            && z.ready[(k, d.uid)].generation <= d.generation
            && (z.ready[(k, d.uid)] == Commitment(d.generation, true) ==> forall s :: AppliedAt(z.c, d, s))
  {
    Reachable(y, es);
    RecordReachable(y, es);
    hide Runs, WorkerInv, Prefix, AppliedAt, Conditions.WellFormed;
    assert KeyInv(Runs(y, es).c, Runs(y, es).ready, k);
  }

  /** If nobody ever writes a present but empty selector, every commit is exact. */
  lemma {:induction false} ReadyStaysTruePlainly(y: System, es: seq<Event>, k: Key)
    requires Initial(y) && SparesAll(y, es) && forall e :: e in es ==> WritesSafely(e, false)
    requires var c := Runs(y, es).c; k in c.dcs && !c.dcs[k].deleting && Conditions.IsReady(c.dcs[k].conditions)
    ensures var z := Runs(y, es); var d := z.c.dcs[k];
            && (k, d.uid) in z.ready
            && (z.ready[(k, d.uid)].generation == d.generation ==> forall s :: AppliedAt(z.c, d, s))
  {
    hide Runs, AppliedAt, Conditions.IsReady;
    ReadyStaysTrue(y, es, k);
    SafeReachable(y, es, false);
  }

  /** In every reachable state, at every intermediate step and failure point, the children a live
      DeviceConfig owns by uid are a prefix of the pipeline. */
  lemma {:induction false} OwnedChildrenArePrefix(y: System, es: seq<Event>, k: Key, s: Stage, t: Stage)
    requires Initial(y) && SparesAll(y, es)
    requires var c := Runs(y, es).c; k in c.dcs && !c.dcs[k].deleting && Owned(c, k, t)
    requires Rank(s) < Rank(t)
    ensures Owned(Runs(y, es).c, k, s)
  {
    Reachable(y, es);
    hide Runs, WorkerInv, ReadyIsTrue, Owned;
    assert KeyInv(Runs(y, es).c, Runs(y, es).ready, k);
  }
}
