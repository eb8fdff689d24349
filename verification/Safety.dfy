/**
 Whole runs. First the invariant that holds whoever strips whichever finalizer, as long as no Delete
 meets a Module that others hold on to; then what the operator's finalizer adds to it, as long as
 nobody but the operator removes it. Any interleaving of users, node changes, garbage collection,
 failing calls, lost acknowledgements and restarts is allowed.
 */
module Safety {
  import opened Wrappers
  import opened Api
  import opened Objects
  import opened Children
  import opened Store
  import opened Machine
  import opened System
  import opened Invariant
  import opened Preservation
  import Finalizers
  import Conditions
  import NodeSelector
  import Ordering

  // ---------- one event ----------

  lemma ReadOnlyKeeps(c: World, ready: Commitments, w: Worker, w': Worker, c': World)
    requires StoreOk(c) && ChildrenOk(c) && Named(c) && ReadyOk(c, ready) && KeyInv(c, ready, w.key)
    requires w'.key == w.key && c' == c.(gauge := c'.gauge) && (w'.pc.Done? || WorkerInv(c', ready, w'))
    ensures Keeps(c, ready, w, w', c', ready)
  {
    hide Moves, ChildrenOk, Named, KeyInv, WorkerInv;
    Stutters(c);
    MovesForOthers(c, c, w.key);
    GaugeIrrelevant(c, c, ready, w.key, c'.gauge);
  }

  lemma CallKeeps(c: World, ready: Commitments, w: Worker, r: Reply)
    requires StoreOk(c) && ChildrenOk(c) && Named(c) && ReadyOk(c, ready) && KeyInv(c, ready, w.key)
    requires WorkerInv(c, ready, w) && SparesCall(c, w, r)
    ensures var (w', c') := Step(w, c, r); Keeps(c, ready, w, w', c', ReadyAfter(c, ready, w, r))
  {
    assert w.cr.key == w.key;
    hide StoreOk, ChildrenOk, Named, ReadyOk, KeyInv, WorkerInv, Keeps;
    hide StepStart, StepDeleteModule, StepRemoveFinalizer, StepListConfigs, StepListNodes, StepAddFinalizer;
    hide StepReadChild, StepRereadChild, StepWriteChild, StepReportError, StepReportReady;
    var (w', c') := Step(w, c, r);
    match w.pc
    case Start => StartKeeps(c, ready, w, r); ReadOnlyKeeps(c, ready, w, w', c');
    case DeleteModule => DeleteModuleKeeps(c, ready, w, r);
    case RemoveFinalizer => RemoveFinalizerKeeps(c, ready, w, r);
    case ListConfigs => ListsKeep(c, ready, w, r); ReadOnlyKeeps(c, ready, w, w', c');
    case ListNodes(i) => ListsKeep(c, ready, w, r); ReadOnlyKeeps(c, ready, w, w', c');
    case AddFinalizer => AddFinalizerKeeps(c, ready, w, r);
    case ReadChild(s) => ReadKeeps(c, ready, w, r, s); ReadOnlyKeeps(c, ready, w, w', c');
    case RereadChild(s) => RereadKeeps(c, ready, w, r, s); ReadOnlyKeeps(c, ready, w, w', c');
    case WriteChild(s) => WriteChildKeeps(c, ready, w, r, s);
    case ReportError(s) => ReportErrorKeeps(c, ready, w, r, s);
    case ReportReady => ReportReadyKeeps(c, ready, w, r);
  }

  lemma ReadyElsewhere(c: World, ready: Commitments, ready': Commitments, k: Key)
    requires forall uid ::
               ((k, uid) in ready <==> (k, uid) in ready') && ((k, uid) in ready ==> ready[(k, uid)] == ready'[(k, uid)])
    ensures KeyInv(c, ready, k) ==> KeyInv(c, ready', k)
    ensures forall w: Worker :: w.key == k && WorkerInv(c, ready, w) ==> WorkerInv(c, ready', w)
  {
    hide Prefix, AppliedAt, Tracks, OnCourse, PassedApplied, Owned, Dropped;
  }

  /** What a call of `k`'s worker leaves alone. */
  lemma OthersKeep(y: System, k: Key, c': World, ready': Commitments)
    requires Inv(y) && Moves(y.c, c', Some(k))
    requires forall x: (Key, nat) :: x.0 != k ==> (x in ready' <==> x in y.ready) && (x in y.ready ==> ready'[x] == y.ready[x])
    ensures forall j :: j != k ==> KeyInv(c', ready', j)
    ensures forall j :: j in y.workers && j != k ==> WorkerInv(c', ready', y.workers[j])
  {
    hide ChildrenOk, Named, KeyInv, WorkerInv, Moves, StoreOk, ReadyOk;
    forall j | j != k ensures KeyInv(c', ready', j) {
      KeyStays(y.c, c', y.ready, j, Some(k));
      ReadyElsewhere(c', y.ready, ready', j);
    }
    forall j | j in y.workers && j != k ensures WorkerInv(c', ready', y.workers[j]) {
      WorkerStays(y.c, c', y.ready, y.workers[j], Some(k));
      ReadyElsewhere(c', y.ready, ready', j);
    }
  }

  lemma RecordGrows(c: World, ready: Commitments, w: Worker, r: Reply, c': World)
    requires ReadyOk(c, ready) && c.nextUid <= c'.nextUid && (w.pc.ReportReady? ==> w.cr.uid < c'.nextUid)
    ensures ReadyOk(c', ReadyAfter(c, ready, w, r))
    ensures forall x: (Key, nat) :: x.0 != w.cr.key ==>
              (x in ReadyAfter(c, ready, w, r) <==> x in ready) && (x in ready ==> ReadyAfter(c, ready, w, r)[x] == ready[x])
  {
  }

  lemma CallPreserves(y: System, k: Key, r: Reply)
    requires Inv(y) && k in y.workers && SparesCall(y.c, y.workers[k], r)
    ensures Inv(CallNext(y, k, r))
  {
    var w := y.workers[k];
    var c' := Step(w, y.c, r).1;
    CallKeeps(y.c, y.ready, w, r);
    assert w.cr.key == w.key == k;
    MovedStoreOk(y.c, c', Some(k));
    RecordGrows(y.c, y.ready, w, r, c');
    hide Step, ChildrenOk, Named, KeyInv, WorkerInv, Moves, StoreOk, ReadyOk, ReadyAfter;
    OthersKeep(y, k, c', ReadyAfter(y.c, y.ready, w, r));
    hide Inv;
    Reassembled(y, k, Step(w, y.c, r).0, c', ReadyAfter(y.c, y.ready, w, r));
  }

  lemma Reassembled(y: System, k: Key, w': Worker, c': World, ready': Commitments)
    requires StoreOk(c') && ChildrenOk(c') && Named(c') && ReadyOk(c', ready')
    requires KeyInv(c', ready', k) && forall j :: j != k ==> KeyInv(c', ready', j)
    requires w'.key == k && (w'.pc.Done? || WorkerInv(c', ready', w'))
    requires forall j :: j in y.workers && j != k ==> y.workers[j].key == j && WorkerInv(c', ready', y.workers[j])
    ensures Inv(System(c', if w'.pc.Done? then y.workers - {k} else y.workers[k := w'], ready'))
  {
    hide ChildrenOk, Named, KeyInv, WorkerInv, StoreOk, ReadyOk;
  }

  lemma MovedStoreOk(c: World, c': World, mover: Option<Key>)
    requires Moves(c, c', mover)
    ensures StoreOk(c') && c.nextUid <= c'.nextUid
  {
    hide ChildStays;
  }

  lemma CommitsNeedReport(w: Worker, c: World, r: Reply)
    ensures CommitsReady(w, c, r) ==> w.pc.ReportReady?
  {
  }

  lemma EnvironmentPreserves(y: System, e: Event)
    requires Inv(y) && SparesEvent(y.c, e)
    ensures Inv(y.(c := Environment(y.c, e)))
  {
    var c' := Environment(y.c, e);
    EnvironmentMoves(y.c, e);
    StoreStays(y.c, c', y.ready);
    hide Environment, KeyInv, WorkerInv, Moves, StoreOk, ChildrenOk, Named, ReadyOk;
    forall k ensures KeyInv(c', y.ready, k) {
      KeyStays(y.c, c', y.ready, k, None);
    }
    forall k | k in y.workers ensures WorkerInv(c', y.ready, y.workers[k]) {
      WorkerStays(y.c, c', y.ready, y.workers[k], None);
    }
  }

  lemma NewWorkerOk(c: World, ready: Commitments, k: Key)
    ensures NewWorker(k).key == k && WorkerInv(c, ready, NewWorker(k))
  {
    hide ChildKeyOf, Conforms;
  }

  lemma EventPreserves(y: System, e: Event)
    requires Inv(y) && Spares(y, e)
    ensures Inv(Next(y, e))
  {
    hide Environment, CallNext, WorkerInv, KeyInv, StoreOk, ChildrenOk, Named, ReadyOk;
    match e
    case Enqueue(k) => NewWorkerOk(y.c, y.ready, k);
    case Call(k, r) => if k in y.workers { CallPreserves(y, k, r); }
    case _ => EnvironmentPreserves(y, e);
  }

  // ---------- whole runs ----------

  lemma {:induction false} Reachable(y: System, es: seq<Event>)
    requires Initial(y) && SparesAll(y, es)
    ensures Inv(Runs(y, es))
    decreases |es|
  {
    if es == [] {
      hide ChildKeyOf, Conforms;
    } else {
      hide Inv, Next, Initial;
      Reachable(y, es[..|es| - 1]);
      EventPreserves(Runs(y, es[..|es| - 1]), es[|es| - 1]);
    }
  }

  // ---------- the finalizer ----------

  /** What nobody may do to a DeviceConfig behind the operator's back. */
  predicate KeepsFinalizers(e: Event) {
    e.UserRemoveFinalizer? ==> e.f != DELETION_FINALIZER
  }

  /** The DeviceConfig with this key and uid is stored and carries the operator's finalizer. */
  ghost predicate Held(c: World, k: Key, uid: nat) {
    k in c.dcs && c.dcs[k].uid == uid && Finalizers.Contains(c.dcs[k].finalizers)
  }

  /** A stored Module belongs to a stored DeviceConfig that carries the finalizer. */
  ghost predicate ModuleHeld(c: World, k: Key) {
    ChildKeyOf(k, ModuleStage) in c.children ==>
      k in c.dcs && Owned(c, k, ModuleStage) && Held(c, k, c.dcs[k].uid)
  }

  /** The finalizer a worker has seen pins its DeviceConfig; it is taken off only without a Module. */
  ghost predicate Pinned(c: World, w: Worker) {
    && (!w.pc.Start? && Finalizers.Contains(w.cr.finalizers) ==> Held(c, w.key, w.cr.uid))
    && (w.pc.RemoveFinalizer? ==> ChildKeyOf(w.key, ModuleStage) !in c.children)
  }

  ghost predicate PinInv(y: System) {
    && (forall k :: ModuleHeld(y.c, k))
    && (forall k :: k in y.workers ==> Pinned(y.c, y.workers[k]))
  }

  /** Everybody but the worker of `mover` leaves the operator's finalizer where it is. */
  ghost predicate Pins(c: World, c': World, mover: Option<Key>) {
    forall k, uid :: Some(k) != mover && Held(c, k, uid) ==> Held(c', k, uid)
  }

  lemma CommitPins(c: World, k: Key, next: DeviceConfig)
    requires k in c.dcs && next.key == k && next.uid == c.dcs[k].uid
    ensures (Finalizers.Contains(c.dcs[k].finalizers) ==> Finalizers.Contains(next.finalizers)) ==>
              Pins(c, Commit(c, c.dcs[k], next).0, None)
    ensures Pins(c, Commit(c, c.dcs[k], next).0, Some(k))
  {
  }

  lemma EnvironmentPins(c: World, e: Event)
    requires StoreOk(c) && KeepsFinalizers(e)
    ensures Pins(c, Environment(c, e), None)
  {
    hide Orphan, Finalizers.Remove, Finalizers.Contains, Commit, DeleteChild, SetChildFinalizers, Pins, Create, EditSpec, Delete;
    SameConfigsPin(c, c);
    match e
    case UserCreate(key, spec, finalizers) => CreatePins(c, key, spec, finalizers);
    case UserEditDriver(key, image, version) =>
      if key in c.dcs { EditPins(c, key, c.dcs[key].spec.(driverImage := image, driverVersion := version)); }
    case UserEditSelector(key, selector) =>
      if key in c.dcs { EditPins(c, key, c.dcs[key].spec.(nodeSelector := selector)); }
    case UserAddFinalizer(key, f) =>
      if key in c.dcs {
        AddKeeps(c.dcs[key].finalizers, f);
        CommitPins(c, key, c.dcs[key].(finalizers := Finalizers.Add(c.dcs[key].finalizers, f)));
      }
    case UserRemoveFinalizer(key, f) =>
      if key in c.dcs {
        RemoveKeeps(c.dcs[key].finalizers, f);
        CommitPins(c, key, c.dcs[key].(finalizers := Finalizers.Remove(c.dcs[key].finalizers, f)));
      }
    case UserDelete(key) => if key in c.dcs { DeletePins(c, key); }
    case _ =>
      if OnChild(e) { ChildEvents(c, e); }
      SameConfigsPin(c, Environment(c, e));
  }

  lemma SameConfigsPin(c: World, c': World)
    requires c'.dcs == c.dcs
    ensures Pins(c, c', None)
  {
  }

  lemma CreatePins(c: World, key: Key, spec: Spec, finalizers: seq<string>)
    ensures Pins(c, Create(c, key, spec, finalizers), None)
  {
  }

  lemma DeletePins(c: World, key: Key)
    requires StoreOk(c) && key in c.dcs
    ensures Pins(c, Delete(c, key), None)
  {
    hide Commit;
    CommitPins(c, key, c.dcs[key].(deleting := true, generation := c.dcs[key].generation + 1));
  }

  lemma EditPins(c: World, key: Key, spec: Spec)
    requires StoreOk(c) && key in c.dcs
    ensures Pins(c, EditSpec(c, key, spec), None)
  {
    hide Commit;
    CommitPins(c, key, c.dcs[key].(spec := spec, generation := c.dcs[key].generation + 1));
  }

  lemma AddKeeps(fs: seq<string>, f: string)
    ensures Finalizers.Contains(fs) ==> Finalizers.Contains(Finalizers.Add(fs, f))
  {
  }

  lemma RemoveKeeps(fs: seq<string>, f: string)
    requires f != DELETION_FINALIZER
    ensures Finalizers.Contains(fs) ==> Finalizers.Contains(Finalizers.Remove(fs, f))
  {
    Finalizers.RemoveLaws(fs, f);
  }

  // ---------- the worker's own calls ----------

  /** What a call of `w` does to the finalizer and the Module of its own DeviceConfig. */
  ghost predicate KeepsPins(c: World, w: Worker, w': Worker, c': World) {
    && Pins(c, c', Some(w.key)) && ModuleHeld(c', w.key)
    && (w'.pc.Done? || (w'.key == w.key && Pinned(c', w')))
  }

  lemma UpdatePins(c: World, cr: DeviceConfig)
    requires StoreOk(c)
    ensures Pins(c, Update(c, cr).0, Some(cr.key)) && Pins(c, c, None)
    ensures Finalizers.Contains(cr.finalizers) ==> Pins(c, Update(c, cr).0, None)
    ensures Update(c, cr).0.children == c.children
  {
    hide Commit, Encoded;
    if cr.key in c.dcs && c.dcs[cr.key].rv == cr.rv {
      var stored := c.dcs[cr.key];
      CommitPins(c, cr.key, Updated(stored, cr));
      assert Commit(c, stored, Updated(stored, cr)).0.children == c.children by {
        CommitKeepsChildren(c, stored);
      }
    }
  }

  lemma CommitKeepsChildren(c: World, stored: DeviceConfig)
    ensures forall next :: Commit(c, stored, next).0.children == c.children
  {
  }

  lemma StatusPins(c: World, cr: DeviceConfig)
    requires StoreOk(c)
    ensures Pins(c, UpdateStatus(c, cr).0, None) && UpdateStatus(c, cr).0.children == c.children
  {
    hide Commit;
    if cr.key in c.dcs {
      CommitPins(c, cr.key, c.dcs[cr.key].(conditions := cr.conditions));
      CommitKeepsChildren(c, c.dcs[cr.key]);
    }
  }

  /** A Module is held as long as it is the same Module and the finalizer stays. */
  lemma ModuleHeldStays(c: World, c': World, k: Key)
    requires ModuleHeld(c, k)
    requires ChildKeyOf(k, ModuleStage) in c'.children ==>
               ChildKeyOf(k, ModuleStage) in c.children &&
               Alike(c.children[ChildKeyOf(k, ModuleStage)], c'.children[ChildKeyOf(k, ModuleStage)])
    requires forall uid :: Held(c, k, uid) && ChildKeyOf(k, ModuleStage) in c'.children ==> Held(c', k, uid)
    ensures ModuleHeld(c', k)
  {
    hide ChildKeyOf, ControllerOf, Finalizers.Contains;
  }

  lemma StartPins(c: World, w: Worker, r: Reply)
    requires w.pc.Start? && w.cr.key == w.key && StoreOk(c) && ModuleHeld(c, w.key)
    ensures var (w', c') := StepStart(w, c, r); KeepsPins(c, w, w', c')
  {
    hide ChildKeyOf, ControllerOf;
  }

  lemma FinishPins(c: World, w: Worker)
    requires (w.pc.ListConfigs? || w.pc.ListNodes?) && Pinned(c, w)
    ensures var (w', c') := FinishCheck(w, c);
            c' == c.(gauge := c'.gauge) && w'.key == w.key && w'.cr == w.cr && !w'.pc.RemoveFinalizer? && !w'.pc.Start?
  {
    hide Ordering.NoDup, Finalizers.Contains, ChildKeyOf;
  }

  lemma ListsPin(c: World, w: Worker, r: Reply)
    requires (w.pc.ListConfigs? || w.pc.ListNodes?) && Pinned(c, w) && ModuleHeld(c, w.key)
    ensures var (w', c') := if w.pc.ListConfigs? then StepListConfigs(w, c, r) else StepListNodes(w, c, r, w.pc.i);
            KeepsPins(c, w, w', c')
  {
    hide FinishCheck, ListDeviceConfigs, NodeSelector.SelectedNames, ChildKeyOf, ControllerOf;
    if r.Ok? {
      if w.pc.ListConfigs? {
        FinishPins(c, w.(listed := ListDeviceConfigs(c), names := []));
      } else if w.pc.i < |w.listed| {
        FinishPins(c, w.(names := w.names + NodeSelector.SelectedNames(c, w.listed[w.pc.i])));
      } else {
        FinishPins(c, w);
      }
    }
  }

  lemma AddFinalizerPins(c: World, ready: Commitments, w: Worker, r: Reply)
    requires StoreOk(c) && WorkerInv(c, ready, w) && w.pc.AddFinalizer? && ModuleHeld(c, w.key)
    ensures var (w', c') := StepAddFinalizer(w, c, r); KeepsPins(c, w, w', c')
  {
    assert w.cr.key == w.key;
    assert Finalizers.Contains(AddedTo(w).finalizers);
    UpdatePins(c, AddedTo(w));
    UpdateSuccessHolds(c, ready, w);
    hide ChildKeyOf, ControllerOf, Update, WorkerInv, Finalizers.Contains, Finalizers.Add, StoreOk, ModuleHeld;
    var c' := StepAddFinalizer(w, c, r).1;
    assert c' == c || c' == Update(c, AddedTo(w)).0;
    ModuleHeldStays(c, c', w.key);
  }

  lemma UpdateSuccessHolds(c: World, ready: Commitments, w: Worker)
    requires StoreOk(c) && WorkerInv(c, ready, w) && w.pc.AddFinalizer?
    ensures var (c', res) := Update(c, AddedTo(w));
            res.Success? ==> Held(c', w.key, res.value.uid)
  {
    if Update(c, AddedTo(w)).1.Success? { UpdateStores(c, AddedTo(w)); }
    hide Update, Untouched, PassedApplied, ReadyBehind, StoredAs;
  }

  lemma RemovingPins(c: World, ready: Commitments, w: Worker, r: Reply)
    requires StoreOk(c) && ChildrenOk(c) && Named(c) && WorkerInv(c, ready, w) && Removing(w.pc) && SparesCall(c, w, r)
    requires ModuleHeld(c, w.key) && Pinned(c, w)
    ensures var (w', c') := Step(w, c, r); KeepsPins(c, w, w', c')
  {
    assert w.cr.key == w.key;
    var removed := w.cr.(finalizers := Finalizers.Remove(w.cr.finalizers, DELETION_FINALIZER));
    UpdatePins(c, removed);
    if w.pc.DeleteModule? { DeleteModuleMoves(c, ready, w, r); }
    hide StepStart, StepDeleteModule, StepListConfigs, StepListNodes, StepAddFinalizer, StepReportError, StepReportReady;
    hide StepReadChild, StepRereadChild, StepWriteChild;
    hide ChildKeyOf, ControllerOf, Update, WorkerInv, Finalizers.Contains, Finalizers.Remove, StoreOk, ChildrenOk, Named, Moves;
  }

  lemma ChildPins(c: World, ready: Commitments, w: Worker, r: Reply)
    requires StoreOk(c) && ChildrenOk(c) && Named(c) && WorkerInv(c, ready, w)
    requires w.pc.ReadChild? || w.pc.RereadChild? || w.pc.WriteChild?
    requires ModuleHeld(c, w.key) && Pinned(c, w)
    ensures var (w', c') := Step(w, c, r); KeepsPins(c, w, w', c')
  {
    var (w', c') := Step(w, c, r);
    assert w'.cr == w.cr && w'.key == w.key && c'.dcs == c.dcs && Applying(w'.pc) by { ChildCalls(c, w, r); }
    hide StepStart, StepDeleteModule, StepRemoveFinalizer, StepListConfigs, StepListNodes, StepAddFinalizer;
    hide StepReadChild, StepRereadChild, StepWriteChild, StepReportError, StepReportReady;
    assert w.cr.key == w.key && PassedApplied(c, w);
    hide ChildKeyOf, ControllerOf, WorkerInv, Finalizers.Contains, StoreOk, ChildrenOk, Named, PassedApplied, ModuleHeld;
    if w.pc.WriteChild? {
      WrittenOnce(c, w, r, w.pc.stage);
      if c'.children != c.children { PutPins(c, c', ready, w, w.pc.stage); } else { ModuleHeldStays(c, c', w.key); }
    } else {
      ChildReads(c, w, r);
      ModuleHeldStays(c, c', w.key);
    }
  }

  lemma WrittenOnce(c: World, w: Worker, r: Reply, s: Stage)
    requires w.cr.key == w.key && w.pc == WriteChild(s) && PassedApplied(c, w)
    ensures var c' := Step(w, c, r).1;
            c'.children == c.children || c'.children == c.children[ChildKeyOf(w.key, s) := Written(c, w, s)]
  {
    WriteOutcome(c, w, r, s);
    hide StepWriteChild, ChildKeyOf;
  }

  lemma ChildReads(c: World, w: Worker, r: Reply)
    requires w.pc.ReadChild? || w.pc.RereadChild?
    ensures Step(w, c, r).1.children == c.children
  {
    hide ChildKeyOf, SetDesired, SetterInput, StepWriteChild, StepListConfigs, StepListNodes, StepAddFinalizer;
    hide StepStart, StepDeleteModule, StepRemoveFinalizer, StepReportError, StepReportReady;
  }

  lemma ChildCalls(c: World, w: Worker, r: Reply)
    requires w.pc.ReadChild? || w.pc.RereadChild? || w.pc.WriteChild?
    ensures var (w', c') := Step(w, c, r);
            w'.cr == w.cr && w'.key == w.key && c'.dcs == c.dcs && Applying(w'.pc)
  {
    hide ChildKeyOf, SetDesired, SetterInput, MergePatch, StepListConfigs, StepListNodes, StepAddFinalizer;
    hide StepStart, StepDeleteModule, StepRemoveFinalizer, StepReportError, StepReportReady;
  }

  lemma PutPins(c: World, c': World, ready: Commitments, w: Worker, s: Stage)
    requires StoreOk(c) && ChildrenOk(c) && Named(c) && WorkerInv(c, ready, w) && w.pc == WriteChild(s)
    requires ModuleHeld(c, w.key) && Pinned(c, w)
    requires c'.dcs == c.dcs && c'.children == c.children[ChildKeyOf(w.key, s) := Written(c, w, s)]
    ensures ModuleHeld(c', w.key)
  {
    PutChildMoves(c, ready, w, s);
    assert Held(c, w.key, w.cr.uid);
    hide ChildKeyOf, ControllerOf, WorkerInv, Finalizers.Contains, StoreOk, ChildrenOk, Named, Moves;
  }

  lemma StatusStepPins(c: World, ready: Commitments, w: Worker, r: Reply)
    requires StoreOk(c) && w.cr.key == w.key && (w.pc.ReportError? || w.pc.ReportReady?) && ModuleHeld(c, w.key)
    ensures var (w', c') := Step(w, c, r); KeepsPins(c, w, w', c')
  {
    hide Conditions.Apply, UpdateStatus, ChildKeyOf, ControllerOf, Finalizers.Contains, StoreOk, ModuleHeld;
    hide StepStart, StepDeleteModule, StepRemoveFinalizer, StepListConfigs, StepListNodes, StepAddFinalizer;
    hide StepReadChild, StepRereadChild, StepWriteChild;
    var c' := Step(w, c, r).1;
    var update := if w.pc.ReportReady? then READY_UPDATE else Conditions.ErroredUpdate(Reason(w.pc.stage), ErrorText(w.err));
    var cr := w.cr.(conditions := Conditions.Apply(w.cr.conditions, update, c.clock));
    StatusPins(c, cr);
    assert c'.children == c.children && (c'.dcs == c.dcs || c'.dcs == UpdateStatus(c, cr).0.dcs);
    ModuleHeldStays(c, c', w.key);
  }

  lemma CallPins(c: World, ready: Commitments, w: Worker, r: Reply)
    requires StoreOk(c) && ChildrenOk(c) && Named(c) && WorkerInv(c, ready, w) && ModuleHeld(c, w.key) && Pinned(c, w)
    requires SparesCall(c, w, r)
    ensures var (w', c') := Step(w, c, r); KeepsPins(c, w, w', c')
  {
    assert w.cr.key == w.key && !w.pc.Done?;
    hide StoreOk, ChildrenOk, Named, WorkerInv, KeepsPins, ModuleHeld, Pinned;
    hide StepStart, StepDeleteModule, StepRemoveFinalizer, StepListConfigs, StepListNodes, StepAddFinalizer;
    hide StepReadChild, StepRereadChild, StepWriteChild, StepReportError, StepReportReady;
    match w.pc
    case Start => StartPins(c, w, r);
    case ListConfigs => ListsPin(c, w, r);
    case ListNodes(_) => ListsPin(c, w, r);
    case AddFinalizer => AddFinalizerPins(c, ready, w, r);
    case DeleteModule => RemovingPins(c, ready, w, r);
    case RemoveFinalizer => RemovingPins(c, ready, w, r);
    case ReportError(_) => StatusStepPins(c, ready, w, r);
    case ReportReady => StatusStepPins(c, ready, w, r);
    case _ => ChildPins(c, ready, w, r);
  }

  /** Everybody else's pins stay. */
  lemma PinsStay(c: World, c': World, mover: Option<Key>, k: Key)
    requires ModuleHeld(c, k) && Moves(c, c', mover) && Pins(c, c', mover) && Some(k) != mover
    ensures ModuleHeld(c', k)
    ensures forall w: Worker :: w.key == k && Pinned(c, w) ==> Pinned(c', w)
  {
    assert ChildStays(c, c', ChildKeyOf(k, ModuleStage));
    hide ChildKeyOf, ControllerOf, Finalizers.Contains, Evolves;
  }

  lemma EventPins(y: System, e: Event)
    requires Inv(y) && PinInv(y) && Spares(y, e) && KeepsFinalizers(e)
    ensures PinInv(Next(y, e))
  {
    match e
    case Enqueue(k) => hide ModuleHeld, Inv;
    case Call(k, r) => if k in y.workers { CallKeepsPins(y, k, r); }
    case _ => EnvironmentKeepsPins(y, e);
  }

  lemma EnvironmentKeepsPins(y: System, e: Event)
    requires Inv(y) && PinInv(y) && SparesEvent(y.c, e) && KeepsFinalizers(e)
    ensures PinInv(y.(c := Environment(y.c, e))) && PinInv(y.(c := Environment(y.c, e), workers := map[]))
  {
    EnvironmentMoves(y.c, e);
    EnvironmentPins(y.c, e);
    hide Environment, Moves, Pins, ModuleHeld, Pinned, KeyInv, WorkerInv, StoreOk, ChildrenOk, Named, ReadyOk;
    var c' := Environment(y.c, e);
    forall k ensures ModuleHeld(c', k) { PinsStay(y.c, c', None, k); }
    forall k | k in y.workers ensures Pinned(c', y.workers[k]) { PinsStay(y.c, c', None, k); }
  }

  lemma CallKeepsPins(y: System, k: Key, r: Reply)
    requires Inv(y) && PinInv(y) && k in y.workers && SparesCall(y.c, y.workers[k], r)
    ensures PinInv(CallNext(y, k, r))
  {
    var w := y.workers[k];
    var (w', c') := Step(w, y.c, r);
    assert KeyInv(y.c, y.ready, k) && ModuleHeld(y.c, k);
    CallKeeps(y.c, y.ready, w, r);
    CallPins(y.c, y.ready, w, r);
    hide Step, Moves, Pins, ModuleHeld, Pinned, KeyInv, WorkerInv, StoreOk, ChildrenOk, Named, ReadyOk, ReadyAfter;
    forall j ensures ModuleHeld(c', j) {
      if j != k { PinsStay(y.c, c', Some(k), j); }
    }
    forall j | j in y.workers && j != k ensures Pinned(c', y.workers[j]) { PinsStay(y.c, c', Some(k), j); }
  }

  lemma {:induction false} PinsReachable(y: System, es: seq<Event>)
    requires Initial(y) && SparesAll(y, es) && forall e :: e in es ==> KeepsFinalizers(e)
    ensures PinInv(Runs(y, es))
    decreases |es|
  {
    if es == [] {
      hide ChildKeyOf, ControllerOf;
    } else {
      hide Inv, PinInv, Next, Initial;
      PinsReachable(y, es[..|es| - 1]);
      Reachable(y, es[..|es| - 1]);
      EventPins(Runs(y, es[..|es| - 1]), es[|es| - 1]);
    }
  }

  // ---------- theorems ----------

  /** Every stored Module is the Module of a stored DeviceConfig that still carries the deletion
      finalizer and owns it. */
  ghost predicate ModulesOwned(c: World) {
    forall ck :: ck in c.children && ck.kind.KindModule? ==>
      exists k :: ck == ChildKeyOf(k, ModuleStage) && k in c.dcs &&
                  Finalizers.Contains(c.dcs[k].finalizers) && OwnedBy(c.children[ck], c.dcs[k].uid)
  }

  lemma {:induction false} FinalizerSafety(y: System, es: seq<Event>)
    requires Initial(y) && SparesAll(y, es) && forall e :: e in es ==> KeepsFinalizers(e)
    ensures ModulesOwned(Runs(y, es).c)
  {
    Reachable(y, es);
    PinsReachable(y, es);
    hide Runs, ControllerOf, WorkerInv, KeyInv, Pinned;
    var c := Runs(y, es).c;
    forall ck | ck in c.children && ck.kind.KindModule?
      ensures exists k :: ck == ChildKeyOf(k, ModuleStage) && k in c.dcs &&
                          Finalizers.Contains(c.dcs[k].finalizers) && OwnedBy(c.children[ck], c.dcs[k].uid)
    {
      var k, s :| ck == ChildKeyOf(k, s);
      assert s.ModuleStage?;
      assert ModuleHeld(c, k);
    }
  }

  /** Whatever the event, if it takes the finalizer off a DeviceConfig or the DeviceConfig with it,
      the Module is gone by then. */
  lemma {:induction false} FinalizerOutlivesModule(y: System, es: seq<Event>, e: Event, k: Key)
    requires Initial(y) && SparesAll(y, es + [e]) && forall e' :: e' in es + [e] ==> KeepsFinalizers(e')
    requires var c := Runs(y, es).c; k in c.dcs && Finalizers.Contains(c.dcs[k].finalizers)
    ensures var c, c' := Runs(y, es).c, Next(Runs(y, es), e).c;
            !Held(c', k, c.dcs[k].uid) ==> ChildKeyOf(k, ModuleStage) !in c'.children
  {
    assert forall e' :: e' in es ==> e' in es + [e];
    assert e in es + [e] && (es + [e])[..|es|] == es;
    Reachable(y, es);
    PinsReachable(y, es);
    EventPins(Runs(y, es), e);
    HeldUnlessRemoved(Runs(y, es), e, k);
    hide Runs, WorkerInv, Pinned, ControllerOf, ChildKeyOf, Next;
    assert ModuleHeld(Next(Runs(y, es), e).c, k);
  }

  lemma HeldUnlessRemoved(y: System, e: Event, k: Key)
    requires Inv(y) && Spares(y, e) && KeepsFinalizers(e)
    requires k in y.c.dcs && Held(y.c, k, y.c.dcs[k].uid)
    ensures var c' := Next(y, e).c;
            k in c'.dcs && !Held(c', k, y.c.dcs[k].uid) ==> c'.dcs[k].uid == y.c.dcs[k].uid
  {
    hide Step, Environment, ChildKeyOf, ControllerOf, KeyInv, PassedApplied, Moves;
    match e
    case Enqueue(_) =>
    case Call(j, r) => if j in y.workers { assert KeyInv(y.c, y.ready, j); CallKeeps(y.c, y.ready, y.workers[j], r); }
    case _ => EnvironmentPins(y.c, e);
  }

  // ---------- the release ----------

  /** The Delete of the Module, acknowledged. */
  lemma DeleteAcknowledged(c: World, w: Worker)
    requires w.pc.DeleteModule? && w.cr.key == w.key
    ensures var (w', c') := Step(w, c, Ok);
            && w' == w.(pc := RemoveFinalizer) && c' == c.(children := c'.children)
            && (!Unheld(c, ChildKeyOf(w.key, ModuleStage)) ==> ChildKeyOf(w.key, ModuleStage) in c'.children)
  {
    hide ChildKeyOf;
    hide StepStart, StepRemoveFinalizer, StepListConfigs, StepListNodes, StepAddFinalizer;
    hide StepReadChild, StepRereadChild, StepWriteChild, StepReportError, StepReportReady;
  }

  /** The removal of the finalizer, acknowledged: the DeviceConfig has it no more, or is gone. */
  lemma RemovalAcknowledged(c: World, w: Worker)
    requires StoreOk(c) && w.pc.RemoveFinalizer? && w.cr.key == w.key && Step(w, c, Ok).0.pc == Done(Deleted)
    ensures var c' := Step(w, c, Ok).1;
            c'.children == c.children && (w.key in c'.dcs ==> !Finalizers.Contains(c'.dcs[w.key].finalizers))
  {
    Finalizers.RemoveLaws(w.cr.finalizers, DELETION_FINALIZER);
    hide Finalizers.Remove, Encoded;
    hide StepStart, StepDeleteModule, StepListConfigs, StepListNodes, StepAddFinalizer;
    hide StepReadChild, StepRereadChild, StepWriteChild, StepReportError, StepReportReady;
  }

  lemma Unowned(c: World, k: Key)
    requires ChildKeyOf(k, ModuleStage) in c.children
    requires k in c.dcs ==> !Finalizers.Contains(c.dcs[k].finalizers)
    ensures !ModulesOwned(c)
  {
    assert ChildKeyOf(k, ModuleStage).kind.KindModule?;
    forall j | ChildKeyOf(j, ModuleStage) == ChildKeyOf(k, ModuleStage) ensures j == k {
      ChildKeysDistinct(j, ModuleStage, k, ModuleStage);
    }
    hide ChildKeyOf, Finalizers.Contains, ControllerOf;
  }

  /** When the controller lets go of a DeviceConfig. It takes an acknowledged Delete for done, and its
      finalizer off: every Module still has its owner then exactly when nobody else held on to this one. */
  lemma {:induction false} ReleaseKeepsOwnersIff(y: System, es: seq<Event>, k: Key)
    requires Initial(y) && SparesAll(y, es) && forall e :: e in es ==> KeepsFinalizers(e)
    requires var z := Runs(y, es); k in z.workers && z.workers[k].pc.DeleteModule?
    ensures var z := Runs(y, es);
            var z1 := Next(z, Call(k, Ok));
            && k in z1.workers && z1.workers[k].pc.RemoveFinalizer?
            && (Step(z1.workers[k], z1.c, Ok).0.pc == Done(Deleted) ==>
                  (ModulesOwned(Next(z1, Call(k, Ok)).c) <==> Unheld(z.c, ChildKeyOf(k, ModuleStage))))
  {
    hide Runs, SparesAll, Step, ModulesOwned, ChildKeyOf, KeyInv, WorkerInv, StoreOk;
    var e := Call(k, Ok);
    var z := Runs(y, es);
    Reachable(y, es);
    assert z.workers[k].key == k && z.workers[k].cr.key == k by { KeyHeld(z, k); }
    DeleteAcknowledged(z.c, z.workers[k]);
    var z1 := Next(z, e);
    var w1 := z1.workers[k];
    if Step(w1, z1.c, Ok).0.pc == Done(Deleted) {
      if Unheld(z.c, ChildKeyOf(k, ModuleStage)) {
        TwoMore(y, es, e);
        FinalizerSafety(y, es + [e] + [e]);
      } else {
        assert StoreOk(z1.c) by { SameStore(z.c, z1.c); }
        RemovalAcknowledged(z1.c, w1);
        Unowned(Step(w1, z1.c, Ok).1, k);
      }
    }
  }

  lemma KeyHeld(y: System, k: Key)
    requires Inv(y) && k in y.workers
    ensures y.workers[k].key == k && y.workers[k].cr.key == k
  {
    hide KeyInv, StoreOk, ChildrenOk, Named, ReadyOk;
  }

  lemma SameStore(c: World, c': World)
    requires StoreOk(c) && c'.dcs == c.dcs && c'.nextUid == c.nextUid && c'.nextRv == c.nextRv
    ensures StoreOk(c')
  {
  }

  lemma TwoMore(y: System, es: seq<Event>, e: Event)
    ensures Runs(y, es + [e]) == Next(Runs(y, es), e) && Runs(y, es + [e] + [e]) == Next(Next(Runs(y, es), e), e)
    ensures SparesAll(y, es) && Spares(Runs(y, es), e) && Spares(Next(Runs(y, es), e), e) ==> SparesAll(y, es + [e] + [e])
  {
    hide Next, Spares;
    assert (es + [e])[..|es|] == es && (es + [e] + [e])[..|es| + 1] == es + [e];
  }

  /** If the operator's finalizer is the only one on a DeviceConfig being deleted, whoever takes it off
      removes the DeviceConfig and leaves its Module behind. */
  lemma StrippingLeavesTheModule(c: World, k: Key)
    requires k in c.dcs && c.dcs[k].key == k && c.dcs[k].deleting && c.dcs[k].finalizers == [DELETION_FINALIZER]
    requires ChildKeyOf(k, ModuleStage) in c.children
    ensures var c' := Environment(c, UserRemoveFinalizer(k, DELETION_FINALIZER));
            c'.dcs == c.dcs - {k} && c'.children == c.children && c'.nodes == c.nodes
  {
    assert Finalizers.Remove([DELETION_FINALIZER], DELETION_FINALIZER) == [];
  }
}
