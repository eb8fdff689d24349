/**
 What every step of every actor keeps, whoever strips whichever finalizer from a DeviceConfig and puts
 whichever on a Module, as long as no Delete meets a Module that others hold on to: a worker's snapshot
 is never ahead of the store, what a worker has applied stays applied while its DeviceConfig is stored,
 and a DeviceConfig that took its place owns nothing yet.
 */
module Invariant {
  import opened Wrappers
  import opened Api
  import opened Objects
  import opened Children
  import opened Store
  import opened Machine
  import opened System
  import Finalizers

  // ---------- the store ----------

  ghost predicate StoreOk(c: World) {
    forall k :: k in c.dcs ==>
      c.dcs[k].key == k && c.dcs[k].uid < c.nextUid && c.dcs[k].rv < c.nextRv
  }

  ghost predicate OwnedBy(o: Object, uid: nat) {
    ControllerOf(o.owners).Some? && ControllerOf(o.owners).value.uid == uid
  }

  ghost predicate ChildrenOk(c: World) {
    forall ck :: ck in c.children ==>
      && !c.children[ck].deleting
      && ControllerOf(c.children[ck].owners).Some? && ControllerOf(c.children[ck].owners).value.uid < c.nextUid
  }

  ghost predicate Named(c: World) {
    forall ck :: ck in c.children ==> exists k, s :: ck == ChildKeyOf(k, s)
  }

  ghost predicate AppliedAt(c: World, dc: DeviceConfig, s: Stage) {
    var ck := ChildKeyOf(dc.key, s);
    ck in c.children && Conforms(s, c.children[ck], dc, c.settings)
  }

  ghost predicate Owned(c: World, k: Key, s: Stage)
    requires k in c.dcs
  {
    ChildKeyOf(k, s) in c.children && OwnedBy(c.children[ChildKeyOf(k, s)], c.dcs[k].uid)
  }

  // ---------- per key ----------

  /** The children a live DeviceConfig owns are a prefix of the pipeline. */
  ghost predicate Prefix(c: World, k: Key) {
    k in c.dcs && !c.dcs[k].deleting ==>
      forall s, t :: Rank(s) < Rank(t) && Owned(c, k, t) ==> Owned(c, k, s)
  }

  /** Unedited since Ready was committed, a live DeviceConfig still has all it asks for. */
  ghost predicate ReadyIsTrue(c: World, ready: Commitments, k: Key) {
    k in c.dcs && (k, c.dcs[k].uid) in ready ==>
      var last := ready[(k, c.dcs[k].uid)];
      && last.generation <= c.dcs[k].generation
      && (last.exact && last.generation == c.dcs[k].generation && !c.dcs[k].deleting ==>
            forall s :: AppliedAt(c, c.dcs[k], s))
  }

  ghost predicate KeyInv(c: World, ready: Commitments, k: Key) {
    Prefix(c, k) && ReadyIsTrue(c, ready, k)
  }

  ghost predicate ReadyOk(c: World, ready: Commitments) {
    forall k, uid :: (k, uid) in ready ==> uid < c.nextUid
  }

  // ---------- per worker ----------

  /** The DeviceConfig the worker has read is still the one that is stored. */
  ghost predicate Current(c: World, w: Worker) {
    w.key in c.dcs && c.dcs[w.key].uid == w.cr.uid
  }

  ghost predicate Tracks(c: World, w: Worker) {
    && w.cr.key == w.key
    && (!w.pc.Start? ==>
      && w.cr.uid < c.nextUid && w.cr.rv < c.nextRv
      && (w.key in c.dcs ==>
        && (c.dcs[w.key].rv == w.cr.rv ==>
             c.dcs[w.key] == w.cr.(spec := c.dcs[w.key].spec) && StoredAs(w.cr.spec, c.dcs[w.key].spec))
        && (c.dcs[w.key].uid == w.cr.uid ==>
             && w.cr.generation <= c.dcs[w.key].generation
             && (w.cr.generation == c.dcs[w.key].generation ==> StoredAs(w.cr.spec, c.dcs[w.key].spec))
             && (w.cr.deleting ==> c.dcs[w.key].deleting))))
  }

  ghost predicate Removing(pc: Pc) {
    pc.DeleteModule? || pc.RemoveFinalizer?
  }

  ghost predicate Applying(pc: Pc) {
    pc.ReadChild? || pc.RereadChild? || pc.WriteChild? || pc.ReportError? || pc.ReportReady?
  }

  /** What the worker's place in the pass says about the object it holds. */
  ghost predicate OnCourse(w: Worker) {
    && (Applying(w.pc) || Removing(w.pc) ==> Finalizers.Contains(w.cr.finalizers))
    && (w.pc.AddFinalizer? ==> !Finalizers.Contains(w.cr.finalizers))
    && (!w.pc.Start? ==> w.cr.deleting == Removing(w.pc))
  }

  /** How many stages the worker has behind it in this pass. */
  function Passed(pc: Pc): nat {
    match pc
    case ReadChild(s) => Rank(s)
    case RereadChild(s) => Rank(s)
    case WriteChild(s) => Rank(s)
    case ReportError(s) => Rank(s)
    case ReportReady => 4
    case _ => 0
  }

  ghost predicate PassedApplied(c: World, w: Worker) {
    && (Current(c, w) ==> forall s :: Rank(s) < Passed(w.pc) ==> AppliedAt(c, w.cr, s))
    && (w.pc.RereadChild? && w.existing.Some? ==> !w.existing.value.deleting)
    && (w.pc.WriteChild? ==>
      var ck := ChildKeyOf(w.key, w.pc.stage);
      && !w.after.deleting
      && Conforms(w.pc.stage, w.after, w.cr, c.settings)
      && (w.before.Some? && ck in c.children ==> Alike(w.before.value, c.children[ck])))
  }

  /** What a write that goes through leaves in the store. The patch does not touch the finalizers. */
  function Written(c: World, w: Worker, s: Stage): Object {
    var ck := ChildKeyOf(w.key, s);
    if w.before.Some? && ck in c.children
    then w.after.(finalizers := if w.before.value.finalizers == w.after.finalizers then c.children[ck].finalizers
                                else w.after.finalizers)
    else w.after
  }

  /** The worker goes on with a selector that its own write of the finalizer left out. */
  ghost predicate Dropped(c: World, w: Worker) {
    && Current(c, w)
    && c.dcs[w.key].generation == w.cr.generation && c.dcs[w.key].spec != w.cr.spec
  }

  ghost predicate ReadyBehind(c: World, ready: Commitments, w: Worker) {
    !w.pc.Start? && (w.key, w.cr.uid) in ready ==>
      var last := ready[(w.key, w.cr.uid)];
      last.generation <= w.cr.generation && (Dropped(c, w) ==> last.generation < w.cr.generation)
  }

  /** A DeviceConfig that took the place of the worker's has no Ready record and owns no child. */
  ghost predicate Untouched(c: World, ready: Commitments, w: Worker) {
    !w.pc.Start? && w.key in c.dcs && c.dcs[w.key].uid != w.cr.uid ==>
      (w.key, c.dcs[w.key].uid) !in ready && forall s :: !Owned(c, w.key, s)
  }

  ghost predicate WorkerInv(c: World, ready: Commitments, w: Worker) {
    && !w.pc.Done? && Tracks(c, w) && OnCourse(w) && PassedApplied(c, w)
    && ReadyBehind(c, ready, w) && Untouched(c, ready, w)
  }

  ghost predicate Inv(y: System) {
    && StoreOk(y.c) && ChildrenOk(y.c) && Named(y.c) && ReadyOk(y.c, y.ready)
    && (forall k :: KeyInv(y.c, y.ready, k))
    && (forall k :: k in y.workers ==> y.workers[k].key == k && WorkerInv(y.c, y.ready, y.workers[k]))
  }

  // ---------- how the world may move ----------

  /** `b` is what `a` can become through writes numbered from `rv` on. */
  ghost predicate Later(a: DeviceConfig, b: DeviceConfig, rv: nat) {
    && b.key == a.key && b.uid == a.uid
    && (b == a || b.rv >= rv)
    && a.generation <= b.generation && (a.generation == b.generation ==> a.spec == b.spec)
    && (a.deleting ==> b.deleting)
  }

  ghost predicate Evolves(c: World, c': World) {
    && c.nextUid <= c'.nextUid && c.nextRv <= c'.nextRv && c'.settings == c.settings
    && StoreOk(c')
    && (forall k :: k in c'.dcs ==>
         if k in c.dcs && c.dcs[k].uid == c'.dcs[k].uid then Later(c.dcs[k], c'.dcs[k], c.nextRv)
         else c'.dcs[k].uid >= c.nextUid && c'.dcs[k].rv >= c.nextRv)
  }

  ghost predicate ChildStays(c: World, c': World, ck: ChildKey) {
    && (ck in c'.children ==> ck in c.children && Alike(c.children[ck], c'.children[ck]))
    && (ck in c.children && !Orphan(c, c.children[ck]) ==> ck in c'.children)
  }

  /** A step of anyone but the worker of `mover` leaves that worker's children alone but for their
      finalizers; orphans may be collected. */
  ghost predicate Moves(c: World, c': World, mover: Option<Key>) {
    && Evolves(c, c')
    && (forall k, s :: Some(k) != mover ==> ChildStays(c, c', ChildKeyOf(k, s)))
  }

  lemma {:induction false} ControllerIsOwner(owners: seq<OwnerRef>)
    ensures ControllerOf(owners).Some? ==> ControllerOf(owners).value in owners
  {
    if owners != [] && !owners[0].controller {
      ControllerIsOwner(owners[1..]);
    }
  }

  lemma NotOrphan(c: World, o: Object, k: Key)
    requires k in c.dcs && OwnedBy(o, c.dcs[k].uid)
    ensures !Orphan(c, o)
  {
    ControllerIsOwner(o.owners);
  }

  lemma AppliedIsOwned(c: World, dc: DeviceConfig, s: Stage)
    requires AppliedAt(c, dc, s)
    ensures OwnedBy(c.children[ChildKeyOf(dc.key, s)], dc.uid)
  {
    hide ChildKeyOf;
    ControllerUnchanged(c.children[ChildKeyOf(dc.key, s)].owners, Ref(dc));
  }

  /** Applied children of a stored DeviceConfig survive everybody else's steps. */
  lemma AppliedStays(c: World, c': World, dc: DeviceConfig, s: Stage)
    requires AppliedAt(c, dc, s) && c'.settings == c.settings
    requires dc.key in c.dcs && c.dcs[dc.key].uid == dc.uid
    requires ChildStays(c, c', ChildKeyOf(dc.key, s))
    ensures AppliedAt(c', dc, s)
  {
    hide ChildKeyOf, Conforms;
    AppliedIsOwned(c, dc, s);
    NotOrphan(c, c.children[ChildKeyOf(dc.key, s)], dc.key);
    AlikeConform(s, c.children[ChildKeyOf(dc.key, s)], c'.children[ChildKeyOf(dc.key, s)], dc, c.settings);
  }

  /** A Module cannot be what both a dropped selector and the stored one ask for. */
  lemma OneModuleOneSpec(c: World, d: DeviceConfig, held: Spec)
    requires StoredAs(held, d.spec)
    requires AppliedAt(c, d, ModuleStage) && AppliedAt(c, d.(spec := held), ModuleStage)
    ensures held == d.spec
  {
    hide ChildKeyOf, ControlledBy;
    var o := c.children[ChildKeyOf(d.key, ModuleStage)];
    ValidatedNodesAreDeployedNodes(ModuleStage, o, d, c.settings);
    ValidatedNodesAreDeployedNodes(ModuleStage, o, d.(spec := held), c.settings);
    assert Selector(d) == Selector(d.(spec := held));
    if held != d.spec { DroppedSelectorDiffers(held, d.spec); }
  }

  /** A DeviceConfig stored now under a number already given out was stored before. */
  lemma StoredBefore(c: World, c': World, k: Key)
    requires Evolves(c, c') && k in c'.dcs && c'.dcs[k].uid < c.nextUid
    ensures k in c.dcs && c.dcs[k].uid == c'.dcs[k].uid && Later(c.dcs[k], c'.dcs[k], c.nextRv)
  {
  }

  /** Nobody else makes a child owned by somebody new. */
  lemma OwnedBefore(c: World, c': World, k: Key, s: Stage)
    requires ChildrenOk(c) && Evolves(c, c') && ChildStays(c, c', ChildKeyOf(k, s))
    requires k in c'.dcs && Owned(c', k, s)
    ensures k in c.dcs && c.dcs[k].uid == c'.dcs[k].uid && Owned(c, k, s)
  {
    hide ChildKeyOf, Later;
  }

  lemma KeyStays(c: World, c': World, ready: Commitments, k: Key, mover: Option<Key>)
    requires StoreOk(c) && ChildrenOk(c) && ReadyOk(c, ready)
    requires KeyInv(c, ready, k) && Moves(c, c', mover) && Some(k) != mover
    ensures KeyInv(c', ready, k)
  {
    hide ChildKeyOf, Conforms, Orphan, Owned;
    assert forall s :: ChildStays(c, c', ChildKeyOf(k, s));
    if k in c'.dcs && !c'.dcs[k].deleting {
      forall s, t | Rank(s) < Rank(t) && Owned(c', k, t) ensures Owned(c', k, s) {
        OwnedBefore(c, c', k, t);
        assert Owned(c, k, s);
        OwnedStays(c, c', k, s);
      }
    }
    if k in c'.dcs && (k, c'.dcs[k].uid) in ready {
      StoredBefore(c, c', k);
      var last := ready[(k, c'.dcs[k].uid)];
      if last.exact && last.generation == c'.dcs[k].generation && !c'.dcs[k].deleting {
        forall s ensures AppliedAt(c', c'.dcs[k], s) {
          assert AppliedAt(c, c.dcs[k], s);
          AppliedStays(c, c', c.dcs[k], s);
          SameSpecSameChildren(c', c.dcs[k], c'.dcs[k], s);
        }
      }
    }
  }

  lemma OwnedStays(c: World, c': World, k: Key, s: Stage)
    requires k in c.dcs && k in c'.dcs && c.dcs[k].uid == c'.dcs[k].uid
    requires Owned(c, k, s) && ChildStays(c, c', ChildKeyOf(k, s))
    ensures Owned(c', k, s)
  {
    hide ChildKeyOf, ControllerOf;
    NotOrphan(c, c.children[ChildKeyOf(k, s)], k);
  }

  lemma SameSpecSameChildren(c: World, a: DeviceConfig, b: DeviceConfig, s: Stage)
    requires a.key == b.key && a.uid == b.uid && a.spec == b.spec
    ensures AppliedAt(c, a, s) <==> AppliedAt(c, b, s)
  {
  }

  lemma WorkerStays(c: World, c': World, ready: Commitments, w: Worker, mover: Option<Key>)
    requires StoreOk(c) && ChildrenOk(c) && ReadyOk(c, ready)
    requires WorkerInv(c, ready, w) && Moves(c, c', mover) && Some(w.key) != mover
    ensures WorkerInv(c', ready, w)
  {
    assert PassedApplied(c', w) by { PassedStays(c, c', ready, w, mover); }
    assert Untouched(c', ready, w) by { UntouchedStays(c, c', ready, w, mover); }
    hide ChildKeyOf, Conforms, PassedApplied, Untouched, ChildStays, StoredAs;
    if !w.pc.Start? && w.key in c'.dcs && c'.dcs[w.key].uid == w.cr.uid { StoredBefore(c, c', w.key); }
  }

  lemma PassedStays(c: World, c': World, ready: Commitments, w: Worker, mover: Option<Key>)
    requires WorkerInv(c, ready, w) && Moves(c, c', mover) && Some(w.key) != mover
    ensures PassedApplied(c', w)
  {
    hide ChildKeyOf, Conforms, Orphan, Untouched, ReadyBehind, OnCourse, Later;
    assert forall s :: ChildStays(c, c', ChildKeyOf(w.key, s));
    if Current(c', w) {
      forall s | Rank(s) < Passed(w.pc) ensures AppliedAt(c', w.cr, s) {
        StoredBefore(c, c', w.key);
        assert AppliedAt(c, w.cr, s);
        AppliedStays(c, c', w.cr, s);
      }
    }
  }

  lemma UntouchedStays(c: World, c': World, ready: Commitments, w: Worker, mover: Option<Key>)
    requires ChildrenOk(c) && ReadyOk(c, ready)
    requires WorkerInv(c, ready, w) && Moves(c, c', mover) && Some(w.key) != mover
    ensures Untouched(c', ready, w)
  {
    hide ChildKeyOf, Owned, ReadyBehind, OnCourse, PassedApplied, Later;
    if !w.pc.Start? && w.key in c'.dcs && c'.dcs[w.key].uid != w.cr.uid {
      forall s ensures !Owned(c', w.key, s) {
        if Owned(c', w.key, s) { OwnedBefore(c, c', w.key, s); }
      }
    }
  }
}
