/**
 Runs in which no selector is ever left out of a write. The Go type of the specification is encoded
 without an empty selector (api/v1alpha1/deviceconfig_types.go), so what matters is the one write of a
 live DeviceConfig, the one that adds the finalizer. It loses nothing if nobody writes an empty selector;
 and an empty selector is safe on a DeviceConfig that carries the finalizer from the start, if nobody
 strips it. `kept` says which of the two promises is made.
 */
module PlainSelectors {
  import opened Wrappers
  import opened Api
  import opened Objects
  import opened Children
  import opened Store
  import opened Machine
  import opened System
  import opened Invariant
  import opened Preservation
  import opened Tracking
  import opened Safety
  import Conditions
  import Finalizers

  /** The write of the finalizer leaves nothing out, or is not going to be made. */
  predicate Safe(spec: Spec, finalizers: seq<string>, kept: bool) {
    Plain(spec) || (kept && Finalizers.Contains(finalizers))
  }

  predicate WritesSafely(e: Event, kept: bool) {
    && (e.UserCreate? ==> Safe(e.spec, e.finalizers, kept))
    && (e.UserEditSelector? ==> e.selector != Some(map[]))
    && (kept ==> KeepsFinalizers(e))
  }

  ghost predicate SafeStore(c: World, kept: bool) {
    forall k :: k in c.dcs && !c.dcs[k].deleting ==> Safe(c.dcs[k].spec, c.dcs[k].finalizers, kept)
  }

  ghost predicate SafeWorker(c: World, w: Worker, kept: bool) {
    !w.pc.Start? ==>
      && (!w.cr.deleting ==> Safe(w.cr.spec, w.cr.finalizers, kept))
      && !Dropped(c, w)
  }

  ghost predicate SafeSystem(y: System, kept: bool) {
    && SafeStore(y.c, kept)
    && (forall k :: k in y.workers ==> SafeWorker(y.c, y.workers[k], kept))
    && (forall x :: x in y.ready ==> y.ready[x].exact)
  }

  // ---------- the store ----------

  lemma CommitKeepsSafe(c: World, stored: DeviceConfig, next: DeviceConfig, kept: bool)
    requires SafeStore(c, kept) && (!next.deleting ==> Safe(next.spec, next.finalizers, kept))
    ensures SafeStore(Commit(c, stored, next).0, kept)
  {
  }

  lemma EnvironmentKeepsSafe(c: World, e: Event, kept: bool)
    requires SafeStore(c, kept) && WritesSafely(e, kept)
    ensures SafeStore(Environment(c, e), kept)
  {
    hide Orphan, Finalizers.Remove, Finalizers.Add, Finalizers.Contains, Commit, DeleteChild, SetChildFinalizers;
    match e
    case UserEditDriver(key, image, version) =>
      if key in c.dcs {
        var stored := c.dcs[key];
        CommitKeepsSafe(c, stored, stored.(spec := stored.spec.(driverImage := image, driverVersion := version),
                                           generation := stored.generation + 1), kept);
      }
    case UserEditSelector(key, selector) =>
      if key in c.dcs {
        var stored := c.dcs[key];
        CommitKeepsSafe(c, stored, stored.(spec := stored.spec.(nodeSelector := selector), generation := stored.generation + 1), kept);
      }
    case UserAddFinalizer(key, f) =>
      if key in c.dcs {
        AddKeeps(c.dcs[key].finalizers, f);
        CommitKeepsSafe(c, c.dcs[key], c.dcs[key].(finalizers := Finalizers.Add(c.dcs[key].finalizers, f)), kept);
      }
    case UserRemoveFinalizer(key, f) =>
      if key in c.dcs {
        if kept { RemoveKeeps(c.dcs[key].finalizers, f); }
        CommitKeepsSafe(c, c.dcs[key], c.dcs[key].(finalizers := Finalizers.Remove(c.dcs[key].finalizers, f)), kept);
      }
    case UserDelete(key) =>
      if key in c.dcs { CommitKeepsSafe(c, c.dcs[key], c.dcs[key].(deleting := true, generation := c.dcs[key].generation + 1), kept); }
    case _ => if OnChild(e) { ChildEvents(c, e); }
  }

  lemma StatusKeepsSafe(c: World, cr: DeviceConfig, kept: bool)
    requires SafeStore(c, kept)
    ensures SafeStore(UpdateStatus(c, cr).0, kept)
  {
    hide Commit, Safe;
    if cr.key in c.dcs {
      CommitKeepsSafe(c, c.dcs[cr.key], c.dcs[cr.key].(conditions := cr.conditions), kept);
    }
  }

  // ---------- the workers ----------

  lemma NotDroppedStays(c: World, c': World, w: Worker)
    requires Evolves(c, c') && Tracks(c, w) && !w.pc.Start? && !Dropped(c, w)
    ensures !Dropped(c', w)
  {
    if Current(c', w) { StoredBefore(c, c', w.key); }
    hide StoredAs;
  }

  lemma SafeWorkerStays(c: World, c': World, w: Worker, kept: bool)
    requires Evolves(c, c') && Follows(c, w) && SafeWorker(c, w, kept)
    ensures SafeWorker(c', w, kept)
  {
    hide OnCourse, Dropped, Safe;
    if !w.pc.Start? { NotDroppedStays(c, c', w); }
  }

  lemma StartKeepsSafe(c: World, w: Worker, r: Reply, kept: bool)
    requires StoreOk(c) && SafeStore(c, kept) && w.pc.Start? && w.cr.key == w.key
    ensures var (w', c') := StepStart(w, c, r); c'.dcs == c.dcs && (w'.pc.Done? || SafeWorker(c', w', kept))
  {
    hide Safe, Finalizers.Contains;
  }

  /** A live DeviceConfig about to get the finalizer has a selector that survives the write. */
  lemma AddKeepsSafe(c: World, w: Worker, r: Reply, kept: bool)
    requires StoreOk(c) && Follows(c, w) && w.pc.AddFinalizer? && SafeStore(c, kept) && SafeWorker(c, w, kept)
    ensures var (w', c') := StepAddFinalizer(w, c, r); SafeStore(c', kept) && (w'.pc.Done? || SafeWorker(c', w', kept))
  {
    assert Plain(w.cr.spec);
    assert Encoded(w.cr.spec) == w.cr.spec;
    var cr := AddedTo(w);
    if cr.key in c.dcs && cr.rv == c.dcs[cr.key].rv {
      CommitKeepsSafe(c, c.dcs[cr.key], Updated(c.dcs[cr.key], cr), kept);
    }
    if Update(c, cr).1.Success? { UpdateStores(c, cr); }
    hide Commit, Finalizers.Add, Follows, StoreOk, Encoded;
  }

  lemma RemoveKeepsSafe(c: World, w: Worker, r: Reply, kept: bool)
    requires Follows(c, w) && w.pc.RemoveFinalizer? && SafeStore(c, kept)
    ensures var (w', c') := StepRemoveFinalizer(w, c, r); SafeStore(c', kept) && w'.pc.Done?
  {
    hide Finalizers.Remove, Commit, Encoded, Safe, StoredAs;
    var cr := w.cr.(finalizers := Finalizers.Remove(w.cr.finalizers, DELETION_FINALIZER));
    if cr.key in c.dcs && cr.rv == c.dcs[cr.key].rv {
      var stored := c.dcs[cr.key];
      CommitKeepsSafe(c, stored, Updated(stored, cr), kept);
    }
  }

  lemma ReportKeepsSafe(c: World, w: Worker, r: Reply, kept: bool)
    requires SafeStore(c, kept) && (w.pc.ReportError? || w.pc.ReportReady?)
    ensures var (w', c') := Step(w, c, r); w'.pc.Done? && SafeStore(c', kept)
  {
    hide UpdateStatus, Safe, Conditions.Apply;
    hide StepStart, StepListConfigs, StepListNodes, StepAddFinalizer, StepDeleteModule, StepRemoveFinalizer;
    hide StepReadChild, StepRereadChild, StepWriteChild;
    var update := if w.pc.ReportReady? then READY_UPDATE else Conditions.ErroredUpdate(Reason(w.pc.stage), ErrorText(w.err));
    StatusKeepsSafe(c, w.cr.(conditions := Conditions.Apply(w.cr.conditions, update, c.clock)), kept);
  }

  lemma OthersKeepSafe(c: World, w: Worker, r: Reply, kept: bool)
    requires SafeStore(c, kept) && SafeWorker(c, w, kept)
    requires w.pc.ListConfigs? || w.pc.ListNodes? || w.pc.DeleteModule? || w.pc.ReadChild? || w.pc.RereadChild? || w.pc.WriteChild?
    ensures var (w', c') := Step(w, c, r); SafeStore(c', kept) && (w'.pc.Done? || SafeWorker(c', w', kept))
  {
    hide Safe, StepStart, StepDeleteModule, StepRemoveFinalizer, StepListConfigs, StepListNodes, StepAddFinalizer;
    hide StepReadChild, StepRereadChild, StepWriteChild, StepReportError, StepReportReady;
    ListsSameDcs(w, c, r);
    ChildrenSameDcs(w, c, r);
    SameKey(w, c, r);
  }

  lemma CallKeepsSafe(c: World, w: Worker, r: Reply, kept: bool)
    requires StoreOk(c) && Follows(c, w) && SafeStore(c, kept) && SafeWorker(c, w, kept)
    ensures var (w', c') := Step(w, c, r); SafeStore(c', kept) && (w'.pc.Done? || SafeWorker(c', w', kept))
  {
    assert w.cr.key == w.key && !w.pc.Done?;
    hide StoreOk, Follows, SafeStore, SafeWorker;
    hide StepStart, StepDeleteModule, StepRemoveFinalizer, StepListConfigs, StepListNodes, StepAddFinalizer;
    hide StepReadChild, StepRereadChild, StepWriteChild, StepReportError, StepReportReady;
    match w.pc
    case Start => StartKeepsSafe(c, w, r, kept); SameDcsSafe(c, Step(w, c, r).1, kept);
    case AddFinalizer => AddKeepsSafe(c, w, r, kept);
    case RemoveFinalizer => RemoveKeepsSafe(c, w, r, kept);
    case ReportError(_) => ReportKeepsSafe(c, w, r, kept);
    case ReportReady => ReportKeepsSafe(c, w, r, kept);
    case _ => OthersKeepSafe(c, w, r, kept);
  }

  lemma SameDcsSafe(c: World, c': World, kept: bool)
    requires SafeStore(c, kept) && c'.dcs == c.dcs
    ensures SafeStore(c', kept)
  {
    hide Safe;
  }

  /** A worker whose version is the stored one holds what is stored. */
  lemma HoldsWhatIsStored(c: World, w: Worker, kept: bool)
    requires Follows(c, w) && SafeWorker(c, w, kept) && !w.pc.Start?
    requires w.key in c.dcs && c.dcs[w.key].rv == w.cr.rv
    ensures c.dcs[w.key] == w.cr
  {
    hide OnCourse, StoredAs;
  }

  lemma CommitsExactly(c: World, ready: Commitments, w: Worker, r: Reply, kept: bool)
    requires Follows(c, w) && SafeWorker(c, w, kept) && forall x :: x in ready ==> ready[x].exact
    ensures forall x :: x in ReadyAfter(c, ready, w, r) ==> ReadyAfter(c, ready, w, r)[x].exact
  {
    assert w.cr.key == w.key;
    if CommitsReady(w, c, r) { HoldsWhatIsStored(c, w, kept); }
    hide Follows;
  }

  // ---------- whole runs ----------

  lemma CallKeepsSafeSystem(y: System, k: Key, r: Reply, kept: bool)
    requires TrackInv(y) && SafeSystem(y, kept) && k in y.workers
    ensures SafeSystem(CallNext(y, k, r), kept)
  {
    var w := y.workers[k];
    var c' := Step(w, y.c, r).1;
    CallGoesOn(y.c, w, r);
    CallKeepsSafe(y.c, w, r, kept);
    CommitsExactly(y.c, y.ready, w, r, kept);
    hide Step, Follows, StoreOk, SafeStore, SafeWorker, ReadyAfter, Evolves;
    forall j | j in y.workers && j != k ensures SafeWorker(c', y.workers[j], kept) {
      SafeWorkerStays(y.c, c', y.workers[j], kept);
    }
  }

  lemma EnvironmentKeepsSafeSystem(y: System, e: Event, kept: bool)
    requires TrackInv(y) && SafeSystem(y, kept) && WritesSafely(e, kept)
    ensures SafeSystem(y.(c := Environment(y.c, e)), kept) && SafeSystem(y.(c := Environment(y.c, e), workers := map[]), kept)
  {
    EnvironmentKeepsSafe(y.c, e, kept);
    EnvironmentEvolves(y.c, e);
    hide Environment, Follows, StoreOk, SafeStore, Evolves, SafeWorker, WritesSafely;
    forall k | k in y.workers ensures SafeWorker(Environment(y.c, e), y.workers[k], kept) {
      SafeWorkerStays(y.c, Environment(y.c, e), y.workers[k], kept);
    }
  }

  lemma EventKeepsSafe(y: System, e: Event, kept: bool)
    requires TrackInv(y) && SafeSystem(y, kept) && WritesSafely(e, kept)
    ensures SafeSystem(Next(y, e), kept)
  {
    hide Environment, CallNext, Follows, StoreOk, SafeStore, WritesSafely;
    match e
    case Enqueue(_) =>
    case Call(k, r) => if k in y.workers { CallKeepsSafeSystem(y, k, r, kept); }
    case _ => EnvironmentKeepsSafeSystem(y, e, kept);
  }

  lemma {:induction false} SafeReachable(y: System, es: seq<Event>, kept: bool)
    requires Initial(y) && forall e :: e in es ==> WritesSafely(e, kept)
    ensures SafeSystem(Runs(y, es), kept)
    decreases |es|
  {
    if es != [] {
      hide Next, Initial, TrackInv, SafeSystem, WritesSafely;
      SafeReachable(y, es[..|es| - 1], kept);
      TrackReachable(y, es[..|es| - 1]);
      EventKeepsSafe(Runs(y, es[..|es| - 1]), es[|es| - 1], kept);
    }
  }

  // ---------- the write that leaves something out ----------

  /** The write of the finalizer leaves in the store what the worker goes on with, and the same claim
      to nodes, exactly when the selector is not a present but empty one. */
  lemma FinalizerWriteKeepsClaimIff(c: World, w: Worker)
    requires w.pc.AddFinalizer? && w.cr.key == w.key && w.key in c.dcs && c.dcs[w.key] == w.cr
    ensures var (w', c') := StepAddFinalizer(w, c, Ok);
            && w'.pc.ReadChild? && w'.cr.spec == w.cr.spec && w.key in c'.dcs
            && (c'.dcs[w.key].spec == w'.cr.spec <==> Plain(w.cr.spec))
            && ((forall labels :: Matches(Selector(w'.cr), labels) <==> Matches(Selector(c'.dcs[w.key]), labels))
                <==> Plain(w.cr.spec))
  {
    hide Matches;
    EncodingKeepsClaimIff(w.cr.spec);
    var (w', c') := StepAddFinalizer(w, c, Ok);
    assert c'.dcs[w.key].spec == Encoded(w.cr.spec);
    assert Selector(w'.cr) == GetNodeSelector(w.cr.spec, []);
    assert Selector(c'.dcs[w.key]) == GetNodeSelector(Encoded(w.cr.spec), []);
  }
}
