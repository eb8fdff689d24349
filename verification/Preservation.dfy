/** Every event keeps the invariant: first everybody but the workers, then each API call. */
module Preservation {
  import opened Wrappers
  import opened Ordering
  import opened Api
  import opened Objects
  import opened Children
  import opened Store
  import opened Machine
  import opened System
  import opened Invariant
  import Finalizers
  import Conditions
  import NodeSelector

  // ---------- events about a child ----------

  predicate OnChild(e: Event) {
    e.CollectGarbage? || e.ModuleAddFinalizer? || e.ModuleRemoveFinalizer?
  }

  lemma ChildEvents(c: World, e: Event)
    requires OnChild(e)
    ensures Environment(c, e) == c.(children := Environment(c, e).children)
  {
    hide Orphan, Finalizers.Add, Finalizers.Remove;
  }

  // ---------- writes to a DeviceConfig ----------

  lemma CommitMoves(c: World, k: Key, next: DeviceConfig)
    requires StoreOk(c) && k in c.dcs
    requires next.key == k && next.uid == c.dcs[k].uid
    requires c.dcs[k].generation <= next.generation
    requires c.dcs[k].generation == next.generation ==> c.dcs[k].spec == next.spec
    requires c.dcs[k].deleting ==> next.deleting
    ensures var c' := Commit(c, c.dcs[k], next).0;
            && Evolves(c, c') && c'.children == c.children && c'.nodes == c.nodes
            && (forall j :: j != k ==> (j in c'.dcs <==> j in c.dcs) && (j in c'.dcs ==> c'.dcs[j] == c.dcs[j]))
            && (k in c'.dcs ==> c'.dcs[k] == Commit(c, c.dcs[k], next).1)
            && (k in c'.dcs ==> c'.dcs[k].uid == c.dcs[k].uid)
            && Moves(c, c', None)
  {
    hide ChildKeyOf, Orphan;
  }

  lemma UpdateMoves(c: World, cr: DeviceConfig)
    requires StoreOk(c)
    ensures var c' := Update(c, cr).0;
            && Evolves(c, c') && c'.children == c.children && c'.nodes == c.nodes
            && (forall j :: j != cr.key ==> (j in c'.dcs <==> j in c.dcs) && (j in c'.dcs ==> c'.dcs[j] == c.dcs[j]))
            && (cr.key in c'.dcs ==> cr.key in c.dcs && c'.dcs[cr.key].uid == c.dcs[cr.key].uid)
            && Moves(c, c', None)
  {
    hide Moves, Evolves, Commit, Encoded;
    Stutters(c);
    MovesEvolve(c, c);
    if cr.key in c.dcs && cr.rv == c.dcs[cr.key].rv {
      var stored := c.dcs[cr.key];
      CommitMoves(c, cr.key, Updated(stored, cr));
    }
  }

  lemma MovesEvolve(c: World, c': World)
    requires Moves(c, c', None)
    ensures Evolves(c, c')
  {
  }

  /** What leaves everybody's children alone leaves everybody else's alone. */
  lemma MovesForOthers(c: World, c': World, k: Key)
    requires Moves(c, c', None)
    ensures Moves(c, c', Some(k))
  {
    hide ChildStays, Evolves, ChildKeyOf;
  }

  lemma UpdateStores(c: World, cr: DeviceConfig)
    requires StoreOk(c) && Update(c, cr).1.Success?
    ensures var (c', res) := Update(c, cr);
            && cr.key in c.dcs && c.dcs[cr.key].rv == cr.rv
            && res.value == c.dcs[cr.key].(finalizers := cr.finalizers, spec := cr.spec,
                                           rv := res.value.rv, generation := res.value.generation)
            && (if Encoded(cr.spec) == c.dcs[cr.key].spec then res.value.generation == c.dcs[cr.key].generation
                else res.value.generation == c.dcs[cr.key].generation + 1)
            && ((res.value.deleting && res.value.finalizers == []) ||
                (cr.key in c'.dcs && c'.dcs[cr.key] == res.value.(spec := Encoded(cr.spec))))
            && res.value.rv < c'.nextRv && c'.nextUid == c.nextUid
  {
    hide Encoded;
  }

  lemma StatusMoves(c: World, cr: DeviceConfig)
    requires StoreOk(c)
    ensures var c' := UpdateStatus(c, cr).0;
            && c'.children == c.children && c'.nodes == c.nodes
            && (forall j :: j != cr.key ==> (j in c'.dcs <==> j in c.dcs) && (j in c'.dcs ==> c'.dcs[j] == c.dcs[j]))
            && (cr.key in c'.dcs ==> cr.key in c.dcs && c'.dcs[cr.key].uid == c.dcs[cr.key].uid)
            && Moves(c, c', None)
  {
    hide Moves, Evolves, Commit;
    Stutters(c);
    if cr.key in c.dcs && cr.rv == c.dcs[cr.key].rv {
      CommitMoves(c, cr.key, c.dcs[cr.key].(conditions := cr.conditions));
    }
  }

  lemma Stutters(c: World)
    requires StoreOk(c)
    ensures Moves(c, c, None)
  {
  }

  lemma StoreStays(c: World, c': World, ready: Commitments)
    requires ChildrenOk(c) && Named(c) && ReadyOk(c, ready) && Moves(c, c', None)
    requires forall ck :: ck in c'.children ==> ck in c.children && Alike(c.children[ck], c'.children[ck])
    ensures StoreOk(c') && ChildrenOk(c') && Named(c') && ReadyOk(c', ready)
  {
    hide ChildStays, ControllerOf, ChildKeyOf;
  }

  // ---------- the environment ----------

  lemma EnvironmentMoves(c: World, e: Event)
    requires StoreOk(c) && ChildrenOk(c) && SparesEvent(c, e)
    ensures Moves(c, Environment(c, e), None)
    ensures forall ck :: ck in Environment(c, e).children ==>
              ck in c.children && Alike(c.children[ck], Environment(c, e).children[ck])
  {
    hide ChildKeyOf, Orphan, Finalizers.Remove, Create, EditSpec, EditFinalizers, Delete, Moves, StoreOk, ChildrenOk;
    hide DeleteChild, SetChildFinalizers;
    Stutters(c);
    match e
    case UserCreate(key, spec, finalizers) => CreateMoves(c, key, spec, finalizers);
    case UserEditDriver(key, image, version) =>
      if key in c.dcs { EditMoves(c, key, c.dcs[key].spec.(driverImage := image, driverVersion := version)); }
    case UserEditSelector(key, selector) =>
      if key in c.dcs { EditMoves(c, key, c.dcs[key].spec.(nodeSelector := selector)); }
    case UserAddFinalizer(key, f) =>
      if key in c.dcs { FinalizersMove(c, key, Finalizers.Add(c.dcs[key].finalizers, f)); }
    case UserRemoveFinalizer(key, f) =>
      if key in c.dcs { FinalizersMove(c, key, Finalizers.Remove(c.dcs[key].finalizers, f)); }
    case UserDelete(key) =>
      if key in c.dcs { DeleteMoves(c, key); }
    case CollectGarbage(ck) =>
      CollectMoves(c, ck);
    case ModuleAddFinalizer(ck, f) =>
      if ck in c.children { HolderMoves(c, ck, Finalizers.Add(c.children[ck].finalizers, f)); }
    case ModuleRemoveFinalizer(ck, f) =>
      if ck in c.children { HolderMoves(c, ck, Finalizers.Remove(c.children[ck].finalizers, f)); }
    case _ =>
      SameObjectsMove(c, Environment(c, e));
  }

  lemma HolderMoves(c: World, ck: ChildKey, fs: seq<string>)
    requires StoreOk(c) && ChildrenOk(c) && ck in c.children
    ensures var c' := SetChildFinalizers(c, ck, fs);
            && Moves(c, c', None)
            && forall k :: k in c'.children ==> k in c.children && Alike(c.children[k], c'.children[k])
  {
    hide ChildKeyOf, ControllerOf, Orphan;
  }

  /** Nodes, clock and gauge are no part of what moves. */
  lemma SameObjectsMove(c: World, c': World)
    requires StoreOk(c)
    requires c'.dcs == c.dcs && c'.children == c.children && c'.settings == c.settings
    requires c'.nextUid == c.nextUid && c'.nextRv == c.nextRv
    ensures Moves(c, c', None)
  {
    hide ChildKeyOf, Orphan, Finalizers.Contains;
  }

  lemma CreateMoves(c: World, key: Key, spec: Spec, finalizers: seq<string>)
    requires StoreOk(c)
    ensures Moves(c, Create(c, key, spec, finalizers), None) && Create(c, key, spec, finalizers).children == c.children
  {
    hide ChildKeyOf, Orphan;
  }

  lemma EditMoves(c: World, key: Key, spec: Spec)
    requires StoreOk(c) && key in c.dcs
    ensures Moves(c, EditSpec(c, key, spec), None) && EditSpec(c, key, spec).children == c.children
  {
    hide Moves, Commit;
    var stored := c.dcs[key];
    CommitMoves(c, key, stored.(spec := spec, generation := stored.generation + 1));
    Stutters(c);
  }

  lemma FinalizersMove(c: World, key: Key, finalizers: seq<string>)
    requires StoreOk(c) && key in c.dcs
    ensures Moves(c, EditFinalizers(c, key, finalizers), None) && EditFinalizers(c, key, finalizers).children == c.children
  {
    hide Moves, Commit;
    CommitMoves(c, key, c.dcs[key].(finalizers := finalizers));
  }

  lemma DeleteMoves(c: World, key: Key)
    requires StoreOk(c) && key in c.dcs
    ensures Moves(c, Delete(c, key), None) && Delete(c, key).children == c.children
  {
    hide Moves, Commit;
    Stutters(c);
    var stored := c.dcs[key];
    CommitMoves(c, key, stored.(deleting := true, generation := stored.generation + 1));
  }

  lemma CollectMoves(c: World, ck: ChildKey)
    requires StoreOk(c) && SparesEvent(c, CollectGarbage(ck))
    ensures var c' := Environment(c, CollectGarbage(ck));
            && Moves(c, c', None)
            && forall k :: k in c'.children ==> k in c.children && Alike(c.children[k], c'.children[k])
  {
    hide ChildKeyOf, ControllerOf;
  }

  // ---------- the calls that only read ----------

  lemma StartKeeps(c: World, ready: Commitments, w: Worker, r: Reply)
    requires StoreOk(c) && w.pc.Start? && w.cr.key == w.key && KeyInv(c, ready, w.key)
    ensures var (w', c') := StepStart(w, c, r);
            w'.key == w.key && c' == c.(gauge := c'.gauge) && (w'.pc.Done? || WorkerInv(c', ready, w'))
  {
    hide ChildKeyOf, Conforms, AppliedAt, Owned;
  }

  /** The gauge is no part of what a worker's invariant is about. */
  lemma WorkerGauge(c: World, ready: Commitments, w: Worker, gauge: map<string, nat>)
    requires WorkerInv(c, ready, w)
    ensures WorkerInv(c.(gauge := gauge), ready, w)
  {
    hide ChildKeyOf, Conforms, ControllerOf;
    var g := c.(gauge := gauge);
    assert forall s :: AppliedAt(g, w.cr, s) <==> AppliedAt(c, w.cr, s);
    assert forall s :: w.key in c.dcs ==> (Owned(g, w.key, s) <==> Owned(c, w.key, s));
  }

  lemma FinishKeeps(c: World, ready: Commitments, w: Worker)
    requires WorkerInv(c, ready, w) && (w.pc.ListConfigs? || w.pc.ListNodes?)
    ensures var (w', c') := FinishCheck(w, c);
            w'.key == w.key && c' == c.(gauge := c'.gauge) && (w'.pc.Done? || WorkerInv(c', ready, w'))
  {
    hide ChildKeyOf, Conforms, AppliedAt, NoDup, Owned;
  }

  lemma ListsKeep(c: World, ready: Commitments, w: Worker, r: Reply)
    requires WorkerInv(c, ready, w) && (w.pc.ListConfigs? || w.pc.ListNodes?)
    ensures var (w', c') := if w.pc.ListConfigs? then StepListConfigs(w, c, r) else StepListNodes(w, c, r, w.pc.i);
            w'.key == w.key && c' == c.(gauge := c'.gauge) && (w'.pc.Done? || WorkerInv(c', ready, w'))
  {
    hide ChildKeyOf, Conforms, AppliedAt, Owned, NoDup, FinishCheck, ListDeviceConfigs, NodeSelector.SelectedNames;
    if r.Ok? {
      if w.pc.ListConfigs? {
        FinishKeeps(c, ready, w.(listed := ListDeviceConfigs(c), names := []));
      } else if w.pc.i < |w.listed| {
        FinishKeeps(c, ready, w.(names := w.names + NodeSelector.SelectedNames(c, w.listed[w.pc.i])));
      } else {
        FinishKeeps(c, ready, w);
      }
    }
  }

  lemma AdvanceKeeps(c: World, ready: Commitments, w: Worker, s: Stage)
    requires !w.pc.Done? && Tracks(c, w) && OnCourse(w) && Applying(w.pc)
    requires ReadyBehind(c, ready, w) && Untouched(c, ready, w)
    requires Current(c, w) ==> forall t :: Rank(t) <= Rank(s) ==> AppliedAt(c, w.cr, t)
    ensures var (w', c') := Advance(w, c, s);
            w'.key == w.key && c' == c.(gauge := c'.gauge) && WorkerInv(c', ready, w')
  {
    hide ChildKeyOf, Conforms, AppliedAt, Owned;
    var (w', c') := Advance(w, c, s);
    assert WorkerInv(c, ready, w');
    WorkerGauge(c, ready, w', c'.gauge);
  }

  lemma ReadKeeps(c: World, ready: Commitments, w: Worker, r: Reply, s: Stage)
    requires WorkerInv(c, ready, w) && w.pc == ReadChild(s) && ChildrenOk(c)
    ensures var (w', c') := StepReadChild(w, c, r, s);
            w'.key == w.key && c' == c && WorkerInv(c', ready, w')
  {
    hide ChildKeyOf, Conforms, AppliedAt, Owned, ControllerOf;
  }

  lemma RereadDecides(c: World, ready: Commitments, w: Worker, s: Stage)
    requires WorkerInv(c, ready, w) && w.pc == RereadChild(s) && ChildrenOk(c)
    ensures match SetDesired(s, SetterInput(w, c, s), w.cr, c.settings)
            case Failure(_) => true
            case Success(o) =>
              && !o.deleting && Conforms(s, o, w.cr, c.settings)
              && (ChildKeyOf(w.key, s) in c.children && c.children[ChildKeyOf(w.key, s)] == o ==> AppliedAt(c, w.cr, s))
  {
    hide ChildKeyOf, Conforms, SetDesired, ControllerOf, ReadyBehind, Untouched, OnCourse;
    var o := SetterInput(w, c, s);
    assert !o.deleting;
    SetterMeansConform(s, o, w.cr, c.settings);
    if SetDesired(s, o, w.cr, c.settings).Success? { SetterIdempotentAndFramed(s, o, o, w.cr, c.settings); }
  }

  lemma ReportKeeps(c: World, ready: Commitments, w: Worker, s: Stage, e: Error)
    requires WorkerInv(c, ready, w) && w.pc == RereadChild(s)
    ensures WorkerInv(c, ready, w.(pc := ReportError(s), err := e))
  {
    hide ChildKeyOf, Conforms, AppliedAt, Owned;
  }

  lemma NextWriteKeeps(c: World, ready: Commitments, w: Worker, s: Stage, before: Option<Object>, o: Object)
    requires WorkerInv(c, ready, w) && w.pc == RereadChild(s) && !o.deleting && Conforms(s, o, w.cr, c.settings)
    requires before == if ChildKeyOf(w.key, s) in c.children then Some(c.children[ChildKeyOf(w.key, s)]) else None
    ensures WorkerInv(c, ready, w.(pc := WriteChild(s), before := before, after := o))
  {
    hide ChildKeyOf, Conforms, AppliedAt, Owned;
  }

  lemma PassesStage(c: World, ready: Commitments, w: Worker, s: Stage)
    requires WorkerInv(c, ready, w) && w.pc == RereadChild(s) && AppliedAt(c, w.cr, s)
    ensures var (w', c') := Advance(w, c, s);
            w'.key == w.key && c' == c.(gauge := c'.gauge) && WorkerInv(c', ready, w')
  {
    hide ChildKeyOf, Conforms, Owned, Advance;
    assert forall t :: Rank(t) == Rank(s) ==> t == s;
    AdvanceKeeps(c, ready, w, s);
  }

  lemma RereadKeeps(c: World, ready: Commitments, w: Worker, r: Reply, s: Stage)
    requires WorkerInv(c, ready, w) && w.pc == RereadChild(s) && ChildrenOk(c)
    ensures var (w', c') := StepRereadChild(w, c, r, s);
            w'.key == w.key && c' == c.(gauge := c'.gauge) && WorkerInv(c', ready, w')
  {
    assert w.cr.key == w.key;
    hide ChildKeyOf, Conforms, SetDesired, SetterInput, Owned, ChildrenOk, AppliedAt, Advance, WorkerInv;
    if r.Ok? {
      RereadDecides(c, ready, w, s);
      var ck := ChildKeyOf(w.cr.key, s);
      var before := if ck in c.children then Some(c.children[ck]) else None;
      match SetDesired(s, SetterInput(w, c, s), w.cr, c.settings)
      case Failure(e) => ReportKeeps(c, ready, w, s, e);
      case Success(o) =>
        if before == Some(o) { PassesStage(c, ready, w, s); } else { NextWriteKeeps(c, ready, w, s, before, o); }
    } else {
      ReportKeeps(c, ready, w, s, Unavailable);
    }
  }

  // ---------- the calls that leave DeviceConfigs alone ----------

  lemma ListsSameDcs(w: Worker, c: World, r: Reply)
    ensures StepStart(w, c, r).1.dcs == c.dcs
    ensures StepListConfigs(w, c, r).1.dcs == c.dcs && StepListConfigs(w, c, r).0.cr == w.cr
    ensures w.pc.ListNodes? ==>
              StepListNodes(w, c, r, w.pc.i).1.dcs == c.dcs && StepListNodes(w, c, r, w.pc.i).0.cr == w.cr
  {
    hide ListDeviceConfigs, NodeSelector.SelectedNames, Finalizers.Contains;
  }

  lemma ChildrenSameDcs(w: Worker, c: World, r: Reply)
    ensures StepDeleteModule(w, c, r).1.dcs == c.dcs && StepDeleteModule(w, c, r).0.cr == w.cr
    ensures w.pc.ReadChild? ==>
              StepReadChild(w, c, r, w.pc.stage).1.dcs == c.dcs && StepReadChild(w, c, r, w.pc.stage).0.cr == w.cr
    ensures w.pc.RereadChild? ==>
              StepRereadChild(w, c, r, w.pc.stage).1.dcs == c.dcs && StepRereadChild(w, c, r, w.pc.stage).0.cr == w.cr
    ensures w.pc.WriteChild? ==>
              StepWriteChild(w, c, r, w.pc.stage).1.dcs == c.dcs && StepWriteChild(w, c, r, w.pc.stage).0.cr == w.cr
  {
    hide ChildKeyOf, MergePatch, SetDesired, SetterInput;
  }

  lemma SameKey(w: Worker, c: World, r: Reply)
    ensures Step(w, c, r).0.key == w.key
  {
    hide ChildKeyOf, SetDesired, SetterInput, Conditions.Apply, UpdateStatus, Update, Finalizers.Remove, Finalizers.Add;
    hide CreateChild, PatchChild, DeleteChild, ListDeviceConfigs, NodeSelector.SelectedNames, NoDup;
  }

  // ---------- the calls that write ----------

  ghost predicate NoNewConfigs(c: World, c': World) {
    forall k :: k in c'.dcs ==> k in c.dcs && c'.dcs[k].uid == c.dcs[k].uid
  }

  /** What a call of worker `w` must establish: the world moves only at its own key, and its own
      key and the worker itself stay in order. */
  ghost predicate Keeps(c: World, ready: Commitments, w: Worker, w': Worker, c': World, ready': Commitments) {
    && w'.key == w.key
    && Moves(c, c', Some(w.key)) && NoNewConfigs(c, c')
    && ChildrenOk(c') && Named(c')
    && KeyInv(c', ready', w.key)
    && (w'.pc.Done? || WorkerInv(c', ready', w'))
  }

  /** Nothing is claimed for a DeviceConfig that is gone or being deleted, nor for one that took the
      place of the worker's. */
  lemma NoClaims(c: World, c': World, ready: Commitments, w: Worker)
    requires WorkerInv(c, ready, w) && !w.pc.Start? && c'.dcs == c.dcs
    requires Current(c, w) ==> c.dcs[w.key].deleting
    requires forall s :: ChildKeyOf(w.key, s) in c'.children ==>
               ChildKeyOf(w.key, s) in c.children && c'.children[ChildKeyOf(w.key, s)] == c.children[ChildKeyOf(w.key, s)]
    requires KeyInv(c, ready, w.key)
    ensures KeyInv(c', ready, w.key) && Untouched(c', ready, w)
  {
    hide ChildKeyOf, Conforms, ControllerOf, ReadyBehind, PassedApplied, Tracks, OnCourse;
    assert forall s :: w.key in c.dcs && Owned(c', w.key, s) ==> Owned(c, w.key, s);
  }

  lemma DeleteModuleOutcome(c: World, w: Worker, r: Reply)
    requires SparesCall(c, w, r) && w.cr.key == w.key && w.pc.DeleteModule?
    ensures var (w', c') := StepDeleteModule(w, c, r);
            && (c' == c || c' == c.(children := c.children - {ChildKeyOf(w.key, ModuleStage)}))
            && w' == w.(pc := w'.pc) && (w'.pc.Done? || w'.pc.RemoveFinalizer?)
            && (w'.pc.RemoveFinalizer? ==> ChildKeyOf(w.key, ModuleStage) !in c'.children)
  {
    hide ChildKeyOf, ControllerOf;
  }

  lemma WithoutModuleMoves(c: World, k: Key)
    requires StoreOk(c) && ChildrenOk(c) && Named(c)
    ensures var c' := c.(children := c.children - {ChildKeyOf(k, ModuleStage)}); Moves(c, c', Some(k)) && ChildrenOk(c') && Named(c')
    ensures Moves(c, c, Some(k))
  {
    hide Orphan, ControllerOf;
    forall j, s | j != k ensures ChildKeyOf(j, s) != ChildKeyOf(k, ModuleStage) {
      ChildKeysDistinct(j, s, k, ModuleStage);
    }
    hide ChildKeyOf;
  }

  lemma DeleteModuleMoves(c: World, ready: Commitments, w: Worker, r: Reply)
    requires StoreOk(c) && ChildrenOk(c) && Named(c) && WorkerInv(c, ready, w) && w.pc.DeleteModule? && SparesCall(c, w, r)
    ensures var (w', c') := StepDeleteModule(w, c, r);
            && Moves(c, c', Some(w.key)) && ChildrenOk(c') && Named(c')
            && (c' == c || c' == c.(children := c.children - {ChildKeyOf(w.key, ModuleStage)}))
            && w' == w.(pc := w'.pc) && (w'.pc.Done? || w'.pc.RemoveFinalizer?)
            && (w'.pc.RemoveFinalizer? ==> ChildKeyOf(w.key, ModuleStage) !in c'.children)
  {
    assert w.cr.key == w.key;
    hide ChildKeyOf, WorkerInv, StoreOk, ChildrenOk, Named, Moves, StepDeleteModule;
    DeleteModuleOutcome(c, w, r);
    WithoutModuleMoves(c, w.key);
  }

  lemma DeleteModuleKeeps(c: World, ready: Commitments, w: Worker, r: Reply)
    requires StoreOk(c) && ChildrenOk(c) && Named(c) && KeyInv(c, ready, w.key)
    requires WorkerInv(c, ready, w) && w.pc.DeleteModule? && SparesCall(c, w, r)
    ensures var (w', c') := StepDeleteModule(w, c, r); Keeps(c, ready, w, w', c', ready)
  {
    DeleteModuleMoves(c, ready, w, r);
    var (w', c') := StepDeleteModule(w, c, r);
    NoClaims(c, c', ready, w);
    NextRemoval(c, c', ready, w);
    hide ChildKeyOf, KeyInv, Moves, ChildrenOk, Named, StepDeleteModule, WorkerInv, Untouched;
  }

  lemma NextRemoval(c: World, c': World, ready: Commitments, w: Worker)
    requires WorkerInv(c, ready, w) && w.pc.DeleteModule? && Untouched(c', ready, w)
    requires c' == c.(children := c'.children)
    ensures WorkerInv(c', ready, w.(pc := RemoveFinalizer)) && NoNewConfigs(c, c')
  {
    hide ChildKeyOf, AppliedAt, Owned, StoredAs, Finalizers.Contains;
  }

  lemma RemoveFinalizerKeeps(c: World, ready: Commitments, w: Worker, r: Reply)
    requires StoreOk(c) && ChildrenOk(c) && Named(c) && ReadyOk(c, ready) && KeyInv(c, ready, w.key)
    requires WorkerInv(c, ready, w) && w.pc.RemoveFinalizer?
    ensures var (w', c') := StepRemoveFinalizer(w, c, r); Keeps(c, ready, w, w', c', ready)
  {
    hide ChildKeyOf, Orphan, ControllerOf, AppliedAt, Owned, Update, Finalizers.Remove, KeyInv, Moves, WorkerInv;
    hide StoreOk, ChildrenOk, Named, ReadyOk;
    var cr := w.cr.(finalizers := Finalizers.Remove(w.cr.finalizers, DELETION_FINALIZER));
    UpdateMoves(c, cr);
    var c' := StepRemoveFinalizer(w, c, r).1;
    assert c' == c || c' == Update(c, cr).0;
    Stutters(c);
    UpdateKeepsOthers(c, cr);
    StoreStays(c, c', ready);
    MovesForOthers(c, c', w.key);
    KeyStays(c, c', ready, w.key, None);
  }

  lemma UpdateKeepsOthers(c: World, cr: DeviceConfig)
    requires StoreOk(c)
    ensures NoNewConfigs(c, Update(c, cr).0) && NoNewConfigs(c, c)
  {
    hide Moves, Update, Evolves;
    UpdateMoves(c, cr);
  }

  lemma AddFinalizerKeepsWorker(c: World, ready: Commitments, w: Worker, r: Reply)
    requires StoreOk(c) && WorkerInv(c, ready, w) && w.pc.AddFinalizer?
    ensures var (w', c') := StepAddFinalizer(w, c, r);
            w'.key == w.key && (c' == c || c' == Update(c, AddedTo(w)).0) && (w'.pc.Done? || WorkerInv(c', ready, w'))
  {
    hide ChildKeyOf, Conforms, Orphan, AppliedAt, Owned, Update, Moves, Evolves;
    UpdateMoves(c, AddedTo(w));
    if Update(c, AddedTo(w)).1.Success? {
      UpdateStores(c, AddedTo(w));
      var (w', c') := (w.(cr := Update(c, AddedTo(w)).1.value, pc := ReadChild(FirstStage())), Update(c, AddedTo(w)).0);
      assert Current(c, w) && Current(c', w');
      assert Tracks(c', w') && ReadyBehind(c', ready, w');
    }
  }

  function AddedTo(w: Worker): DeviceConfig {
    w.cr.(finalizers := Finalizers.Add(w.cr.finalizers, DELETION_FINALIZER))
  }

  lemma AddFinalizerKeeps(c: World, ready: Commitments, w: Worker, r: Reply)
    requires StoreOk(c) && ChildrenOk(c) && Named(c) && ReadyOk(c, ready) && KeyInv(c, ready, w.key)
    requires WorkerInv(c, ready, w) && w.pc.AddFinalizer?
    ensures var (w', c') := StepAddFinalizer(w, c, r); Keeps(c, ready, w, w', c', ready)
  {
    AddFinalizerKeepsWorker(c, ready, w, r);
    UpdateMoves(c, AddedTo(w));
    hide StepAddFinalizer, AddedTo, Update, KeyInv, WorkerInv, Moves, StoreOk, ChildrenOk, Named, ReadyOk;
    var c' := StepAddFinalizer(w, c, r).1;
    Stutters(c);
    UpdateKeepsOthers(c, AddedTo(w));
    StoreStays(c, c', ready);
    MovesForOthers(c, c', w.key);
    KeyStays(c, c', ready, w.key, None);
  }

  /** After a successful write the child at the stage conforms and all others are as before. */
  lemma WriteApplies(c: World, w: Worker, s: Stage)
    requires w.cr.key == w.key && w.pc == WriteChild(s) && PassedApplied(c, w)
    ensures var ck := ChildKeyOf(w.key, s);
            var effect := match w.before
              case None => CreateChild(c, ck, w.after, w.existing.Some?)
              case Some(before) => PatchChild(c, ck, before, w.after);
            && (effect.1 == Nil ==> effect.0 == c.(children := c.children[ck := Written(c, w, s)]))
            && (effect.1 != Nil ==> effect.0 == c)
  {
    hide ChildKeyOf, Conforms, MergePatch, AppliedAt;
    var ck := ChildKeyOf(w.key, s);
    if w.before.Some? && ck in c.children { PatchOfAlike(w.before.value, w.after, c.children[ck]); }
  }

  lemma WrittenConforms(c: World, w: Worker, s: Stage)
    requires w.pc == WriteChild(s) && PassedApplied(c, w)
    ensures Alike(w.after, Written(c, w, s)) && Conforms(s, Written(c, w, s), w.cr, c.settings)
  {
    AlikeConform(s, w.after, Written(c, w, s), w.cr, c.settings);
    hide Conforms, ChildKeyOf;
  }

  lemma PutChildMoves(c: World, ready: Commitments, w: Worker, s: Stage)
    requires StoreOk(c) && ChildrenOk(c) && Named(c) && WorkerInv(c, ready, w) && w.pc == WriteChild(s)
    ensures var c' := c.(children := c.children[ChildKeyOf(w.key, s) := Written(c, w, s)]);
            && Moves(c, c', Some(w.key)) && ChildrenOk(c') && Named(c')
            && AppliedAt(c', w.cr, s) && OwnedBy(Written(c, w, s), w.cr.uid)
            && forall t :: t != s ==> ChildKeyOf(w.key, t) != ChildKeyOf(w.key, s)
  {
    hide Conforms, Orphan, ControllerOf, ReadyBehind, Untouched, OnCourse;
    var ck := ChildKeyOf(w.key, s);
    var c' := c.(children := c.children[ck := Written(c, w, s)]);
    forall k, t ensures ChildKeyOf(k, t) == ck <==> k == w.key && t == s {
      ChildKeysDistinct(k, t, w.key, s);
    }
    hide ChildKeyOf;
    WrittenConforms(c, w, s);
    assert AppliedAt(c', w.cr, s);
    AppliedIsOwned(c', w.cr, s);
    assert Named(c') by {
      forall k | k in c'.children ensures exists j, t :: k == ChildKeyOf(j, t) {
        if k == ck { assert k == ChildKeyOf(w.key, s); }
      }
    }
  }

  lemma AppliedIsItsOwn(c: World, w: Worker, s: Stage)
    requires w.cr.key == w.key && Current(c, w) && AppliedAt(c, w.cr, s)
    ensures Owned(c, w.key, s)
  {
    AppliedIsOwned(c, w.cr, s);
    hide ChildKeyOf, Conforms, ControllerOf;
  }

  lemma OtherStagesStay(c: World, ready: Commitments, w: Worker, s: Stage, t: Stage)
    requires WorkerInv(c, ready, w) && w.pc == WriteChild(s) && Current(c, w) && Rank(t) < Rank(s)
    ensures AppliedAt(c.(children := c.children[ChildKeyOf(w.key, s) := Written(c, w, s)]), w.cr, t)
  {
    ChildKeysDistinct(w.key, t, w.key, s);
    assert AppliedAt(c, w.cr, t);
    hide ChildKeyOf, Conforms, ReadyBehind, Untouched, OnCourse;
  }

  /** Storing a child of the worker's own DeviceConfig, when that is the one that is stored. */
  lemma PutChildApplies(c: World, ready: Commitments, w: Worker, s: Stage)
    requires StoreOk(c) && ChildrenOk(c) && Named(c) && WorkerInv(c, ready, w) && w.pc == WriteChild(s) && Current(c, w)
    ensures var c' := c.(children := c.children[ChildKeyOf(w.key, s) := Written(c, w, s)]);
            forall t :: Rank(t) <= Rank(s) ==> AppliedAt(c', w.cr, t) && Owned(c', w.key, t)
  {
    assert w.cr.key == w.key;
    PutChildMoves(c, ready, w, s);
    hide ChildKeyOf, AppliedAt, Owned, Moves, ChildrenOk, Named, WorkerInv, StoreOk;
    var c' := c.(children := c.children[ChildKeyOf(w.key, s) := Written(c, w, s)]);
    assert forall t :: Rank(t) == Rank(s) ==> t == s;
    forall t | Rank(t) <= Rank(s) ensures AppliedAt(c', w.cr, t) && Owned(c', w.key, t) {
      if t != s { OtherStagesStay(c, ready, w, s, t); }
      AppliedIsItsOwn(c', w, t);
    }
  }

  lemma PutChildCurrent(c: World, ready: Commitments, w: Worker, s: Stage)
    requires StoreOk(c) && ChildrenOk(c) && Named(c) && KeyInv(c, ready, w.key)
    requires WorkerInv(c, ready, w) && w.pc == WriteChild(s) && Current(c, w)
    ensures var c' := c.(children := c.children[ChildKeyOf(w.key, s) := Written(c, w, s)]);
            && KeyInv(c', ready, w.key) && Untouched(c', ready, w)
            && (forall t :: Rank(t) <= Rank(s) ==> AppliedAt(c', w.cr, t))
  {
    PutChildApplies(c, ready, w, s);
    PutChildKeepsReady(c, ready, w, s);
    PutChildKeepsPrefix(c, ready, w, s);
    hide ChildKeyOf, Prefix, ReadyIsTrue, AppliedAt, Owned, WorkerInv, StoreOk, ChildrenOk, Named, Written;
  }

  lemma PutChildKeepsPrefix(c: World, ready: Commitments, w: Worker, s: Stage)
    requires StoreOk(c) && ChildrenOk(c) && Named(c) && Prefix(c, w.key)
    requires WorkerInv(c, ready, w) && w.pc == WriteChild(s) && Current(c, w)
    ensures Prefix(c.(children := c.children[ChildKeyOf(w.key, s) := Written(c, w, s)]), w.key)
  {
    PutChildMoves(c, ready, w, s);
    PutChildApplies(c, ready, w, s);
    hide ChildKeyOf, ControllerOf, WorkerInv, Moves, ChildrenOk, Named, AppliedAt, Written;
    var c' := c.(children := c.children[ChildKeyOf(w.key, s) := Written(c, w, s)]);
    forall a, b | Rank(a) < Rank(b) && Owned(c', w.key, b) && !c'.dcs[w.key].deleting ensures Owned(c', w.key, a) {
      if Rank(s) < Rank(b) {
        assert Owned(c, w.key, b);
        assert Owned(c, w.key, a);
      }
    }
  }

  lemma PutChildKeepsReady(c: World, ready: Commitments, w: Worker, s: Stage)
    requires StoreOk(c) && ReadyIsTrue(c, ready, w.key)
    requires WorkerInv(c, ready, w) && w.pc == WriteChild(s) && Current(c, w)
    ensures var c' := c.(children := c.children[ChildKeyOf(w.key, s) := Written(c, w, s)]);
            ReadyIsTrue(c', ready, w.key)
  {
    hide ChildKeyOf, Conforms, Orphan, ControllerOf, Untouched, OnCourse, Owned;
    var ck := ChildKeyOf(w.key, s);
    var c' := c.(children := c.children[ck := Written(c, w, s)]);
    var d := c.dcs[w.key];
    if (w.key, d.uid) in ready && ready[(w.key, d.uid)].exact && ready[(w.key, d.uid)].generation == d.generation && !d.deleting {
      assert d.spec == w.cr.spec;
      forall t ensures AppliedAt(c', d, t) {
        ChildKeysDistinct(w.key, t, w.key, s);
        if t == s {
          WrittenConforms(c, w, s);
          assert AppliedAt(c', w.cr, s);
          SameSpecSameChildren(c', w.cr, d, s);
        } else {
          assert AppliedAt(c, d, t);
        }
      }
    }
  }

  /** Storing one for a DeviceConfig that is no longer stored makes no child the property of another. */
  lemma PutChildStale(c: World, ready: Commitments, w: Worker, s: Stage)
    requires StoreOk(c) && ChildrenOk(c) && Named(c) && KeyInv(c, ready, w.key)
    requires WorkerInv(c, ready, w) && w.pc == WriteChild(s) && !Current(c, w)
    ensures var c' := c.(children := c.children[ChildKeyOf(w.key, s) := Written(c, w, s)]);
            KeyInv(c', ready, w.key) && Untouched(c', ready, w)
  {
    PutChildMoves(c, ready, w, s);
    hide ChildKeyOf, Conforms, Orphan, ControllerOf, ReadyBehind, OnCourse, Moves, PassedApplied, Tracks;
    var c' := c.(children := c.children[ChildKeyOf(w.key, s) := Written(c, w, s)]);
    if w.key in c.dcs {
      forall t ensures !Owned(c', w.key, t) {
        assert !Owned(c, w.key, t);
      }
    }
  }

  lemma PutChildKeeps(c: World, ready: Commitments, w: Worker, s: Stage)
    requires StoreOk(c) && ChildrenOk(c) && Named(c) && KeyInv(c, ready, w.key)
    requires WorkerInv(c, ready, w) && w.pc == WriteChild(s)
    ensures var c' := c.(children := c.children[ChildKeyOf(w.key, s) := Written(c, w, s)]);
            && Moves(c, c', Some(w.key)) && ChildrenOk(c') && Named(c') && KeyInv(c', ready, w.key)
            && Tracks(c', w) && OnCourse(w) && ReadyBehind(c', ready, w) && Untouched(c', ready, w)
            && (Current(c', w) ==> forall t :: Rank(t) <= Rank(s) ==> AppliedAt(c', w.cr, t))
  {
    PutChildMoves(c, ready, w, s);
    if Current(c, w) { PutChildCurrent(c, ready, w, s); } else { PutChildStale(c, ready, w, s); }
    hide ChildKeyOf, KeyInv, Moves, ChildrenOk, Named, AppliedAt, Untouched, StoredAs, PassedApplied;
  }

  /** The gauge is no part of what the invariant is about. */
  lemma GaugeIrrelevant(c: World, c': World, ready: Commitments, k: Key, gauge: map<string, nat>)
    requires Moves(c, c', Some(k)) && ChildrenOk(c') && Named(c') && KeyInv(c', ready, k)
    ensures var g := c'.(gauge := gauge); Moves(c, g, Some(k)) && ChildrenOk(g) && Named(g) && KeyInv(g, ready, k)
  {
    hide ChildKeyOf, Conforms, Orphan, ControllerOf;
    var g := c'.(gauge := gauge);
    assert forall s :: k in c'.dcs ==> (AppliedAt(g, c'.dcs[k], s) <==> AppliedAt(c', c'.dcs[k], s));
    assert forall s :: k in c'.dcs ==> (Owned(g, k, s) <==> Owned(c', k, s));
  }

  /** Where a write to a child can lead: past the stage with the child stored, or to the report of an
      error with the child stored or not. */
  lemma WriteOutcome(c: World, w: Worker, r: Reply, s: Stage)
    requires w.cr.key == w.key && w.pc == WriteChild(s) && PassedApplied(c, w)
    ensures var (w', c') := StepWriteChild(w, c, r, s);
            var put := c.(children := c.children[ChildKeyOf(w.key, s) := Written(c, w, s)]);
            || (w', c') == Advance(w, put, s)
            || ((c' == c || c' == put) && w' == w.(pc := ReportError(s), err := w'.err))
  {
    hide ChildKeyOf, AppliedAt, CreateChild, PatchChild, Advance, PassedApplied;
    WriteApplies(c, w, s);
  }

  lemma WriteChildKeeps(c: World, ready: Commitments, w: Worker, r: Reply, s: Stage)
    requires StoreOk(c) && ChildrenOk(c) && Named(c) && KeyInv(c, ready, w.key)
    requires WorkerInv(c, ready, w) && w.pc == WriteChild(s)
    ensures var (w', c') := StepWriteChild(w, c, r, s); Keeps(c, ready, w, w', c', ready)
  {
    assert w.cr.key == w.key && PassedApplied(c, w);
    hide ChildKeyOf, AppliedAt, KeyInv, Moves, ChildrenOk, Named;
    hide Tracks, OnCourse, PassedApplied, Advance, StepWriteChild, Untouched, ReadyBehind;
    var (w', c') := StepWriteChild(w, c, r, s);
    var put := c.(children := c.children[ChildKeyOf(w.key, s) := Written(c, w, s)]);
    WriteOutcome(c, w, r, s);
    PutChildKeeps(c, ready, w, s);
    Unmoved(c, w.key);
    if (w', c') == Advance(w, put, s) {
      AdvanceKeeps(put, ready, w, s);
      GaugeIrrelevant(c, put, ready, w.key, c'.gauge);
    } else {
      FailedWriteKeeps(c, ready, w, s, put, w'.err);
    }
  }

  lemma Unmoved(c: World, k: Key)
    requires StoreOk(c)
    ensures Moves(c, c, Some(k))
  {
  }

  lemma FailedWriteKeeps(c: World, ready: Commitments, w: Worker, s: Stage, put: World, e: Error)
    requires WorkerInv(c, ready, w) && w.pc == WriteChild(s)
    requires put == c.(children := c.children[ChildKeyOf(w.key, s) := Written(c, w, s)])
    requires Tracks(put, w) && ReadyBehind(put, ready, w) && Untouched(put, ready, w)
    requires Current(put, w) ==> forall t :: Rank(t) <= Rank(s) ==> AppliedAt(put, w.cr, t)
    ensures WorkerInv(c, ready, w.(pc := ReportError(s), err := e))
    ensures WorkerInv(put, ready, w.(pc := ReportError(s), err := e))
  {
    hide ChildKeyOf, Conforms, AppliedAt;
  }

  // ---------- status writes ----------

  lemma StatusKeeps(c: World, ready: Commitments, w: Worker, c': World, cr: DeviceConfig, gauge: map<string, nat>)
    requires StoreOk(c) && ChildrenOk(c) && Named(c) && ReadyOk(c, ready) && KeyInv(c, ready, w.key)
    requires w.cr.key == w.key && cr == w.cr.(conditions := cr.conditions)
    requires c' == c || c' == UpdateStatus(c, cr).0
    ensures var g := c'.(gauge := gauge);
            Moves(c, g, Some(w.key)) && ChildrenOk(g) && Named(g) && KeyInv(g, ready, w.key)
    ensures Moves(c, c', None) && c'.children == c.children && NoNewConfigs(c, c')
  {
    hide ChildKeyOf, UpdateStatus, KeyInv, Moves, StoreOk, ChildrenOk, Named, ReadyOk;
    StatusMoves(c, cr);
    Stutters(c);
    StoreStays(c, c', ready);
    KeyStays(c, c', ready, w.key, None);
    MovesForOthers(c, c', w.key);
    GaugeIrrelevant(c, c', ready, w.key, gauge);
  }

  lemma ReportErrorKeeps(c: World, ready: Commitments, w: Worker, r: Reply, s: Stage)
    requires StoreOk(c) && ChildrenOk(c) && Named(c) && ReadyOk(c, ready) && KeyInv(c, ready, w.key)
    requires WorkerInv(c, ready, w) && w.pc == ReportError(s)
    ensures var (w', c') := StepReportError(w, c, r, s); Keeps(c, ready, w, w', c', ready)
  {
    assert w.cr.key == w.key;
    hide UpdateStatus, KeyInv, Moves, ChildrenOk, Named, StoreOk, ReadyOk, WorkerInv, Conditions.Apply, Reason, ErrorText;
    var (w', c') := StepReportError(w, c, r, s);
    var cr := w.cr.(conditions := Conditions.Apply(w.cr.conditions,
      Conditions.ErroredUpdate(Reason(s), ErrorText(w.err)), c.clock));
    var c1 := if r.Fail? then c else UpdateStatus(c, cr).0;
    StatusKeeps(c, ready, w, c1, cr, c'.gauge);
  }

  /** The Ready commit, and what it records: the generation just committed is the stored one, and
      everything it asks for is applied. */
  lemma ReportReadyKeeps(c: World, ready: Commitments, w: Worker, r: Reply)
    requires StoreOk(c) && ChildrenOk(c) && Named(c) && ReadyOk(c, ready) && KeyInv(c, ready, w.key)
    requires WorkerInv(c, ready, w) && w.pc.ReportReady?
    ensures var (w', c') := StepReportReady(w, c, r);
            var ready' := ReadyAfter(c, ready, w, r);
            Keeps(c, ready, w, w', c', ready') && ReadyOk(c', ready')
  {
    hide ChildKeyOf, Conforms, Orphan, ControllerOf, Owned, UpdateStatus, Moves, ChildrenOk, Named, Conditions.Apply;
    var (w', c') := StepReportReady(w, c, r);
    var cr := w.cr.(conditions := Conditions.Apply(w.cr.conditions, READY_UPDATE, c.clock));
    StatusKeeps(c, ready, w, c', cr, c'.gauge);
    assert c' == c'.(gauge := c'.gauge);
    assert Evolves(c, c') by { MovesEvolve(c, c'); }
    if CommitsReady(w, c, r) {
      Recorded(c, ready, w, cr);
      RecordIsTrue(c, c', ready, w);
    }
  }

  lemma Recorded(c: World, ready: Commitments, w: Worker, cr: DeviceConfig)
    requires StoreOk(c) && WorkerInv(c, ready, w) && w.pc.ReportReady?
    requires cr == w.cr.(conditions := cr.conditions)
    requires w.cr.key in c.dcs && c.dcs[w.cr.key].rv == w.cr.rv
    ensures var c' := UpdateStatus(c, cr).0;
            && w.key in c.dcs && w.key in c'.dcs && c'.children == c.children && c'.settings == c.settings
            && c'.dcs[w.key] == cr.(rv := c'.dcs[w.key].rv, spec := c.dcs[w.key].spec)
  {
    hide ChildKeyOf, Conforms, PassedApplied, ReadyBehind, Untouched, StoredAs;
  }

  lemma RecordIsTrue(c: World, c': World, ready: Commitments, w: Worker)
    requires WorkerInv(c, ready, w) && w.pc.ReportReady? && KeyInv(c', ready, w.key)
    requires w.key in c.dcs && c.dcs[w.key].rv == w.cr.rv && w.key in c'.dcs
    requires c'.dcs[w.key] == w.cr.(rv := c'.dcs[w.key].rv, conditions := c'.dcs[w.key].conditions, spec := c.dcs[w.key].spec)
    requires c'.children == c.children && c'.settings == c.settings
    ensures KeyInv(c', ready[(w.cr.key, w.cr.uid) := Commitment(w.cr.generation, c.dcs[w.cr.key].spec == w.cr.spec)], w.key)
  {
    hide ChildKeyOf, Conforms, Owned, ReadyBehind, Untouched, OnCourse, StoredAs;
    assert Current(c, w);
    var d := c'.dcs[w.key];
    if c.dcs[w.key].spec == w.cr.spec {
      forall s ensures AppliedAt(c', d, s) {
        assert AppliedAt(c, w.cr, s);
        SameSpecSameChildren(c', w.cr, d, s);
      }
    }
  }
}
