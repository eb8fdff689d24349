/**
 Node exclusivity over whole runs (docs/design.md, "Node Selector Validation"): if selectors are
 never edited, an empty one only comes with the operator's finalizer, no Delete meets a Module
 that others hold on to, and nodes only leave, no node is ever matched by the selectors of two stored Modules, whatever the
 interleaving of passes, creations, deletions and failures. A pass is validated once, and not atomically;
 the finalizer and the version check on the write that adds it are what keeps the outcome valid.
 */
module Exclusivity {
  import opened Wrappers
  import opened Ordering
  import opened Api
  import opened Objects
  import opened Children
  import opened Store
  import opened NodeSelector
  import opened Machine
  import opened System
  import opened Invariant
  import opened Preservation
  import opened Safety
  import opened Tracking
  import opened PlainSelectors
  import Finalizers
  import Conditions

  predicate Calm(e: Event) {
    WritesSafely(e, true) && !e.UserEditSelector? && !e.NodeSet?
  }

  // ---------- the invariant ----------

  /** The worker has the list its validator works on. */
  ghost predicate Listed(w: Worker) {
    w.pc.ListNodes? || w.pc.AddFinalizer? || Applying(w.pc)
  }

  /** Not yet released: live, or deleted and still carrying the operator's finalizer. What has been
      released never gets a Module again, and its selector no longer matters. */
  predicate Unreleased(d: DeviceConfig) {
    !d.deleting || Finalizers.Contains(d.finalizers)
  }

  ghost predicate Alive(c: World, k: Key) {
    k in c.dcs && Unreleased(c.dcs[k])
  }

  /** The DeviceConfig the worker has read is stored and not released. */
  ghost predicate Stands(c: World, w: Worker) {
    Alive(c, w.key) && c.dcs[w.key].uid == w.cr.uid
  }

  ghost predicate SeesAt(w: Worker, j: int, k: Key, uid: nat) {
    0 <= j < |w.listed| && w.listed[j].key == k && w.listed[j].uid == uid
  }

  ghost predicate Sees(w: Worker, k: Key, uid: nat) {
    exists j :: SeesAt(w, j, k, uid)
  }

  /** If `d` is still stored and not released, its selector is the one in the snapshot. */
  ghost predicate SelectorFresh(c: World, d: DeviceConfig) {
    && d.uid < c.nextUid
    && (Alive(c, d.key) && c.dcs[d.key].uid == d.uid ==> c.dcs[d.key].spec.nodeSelector == d.spec.nodeSelector)
  }

  /** The names collected so far cover every node selected by the first `i` items; a node selected
      twice shows as a duplicate. */
  ghost predicate Covers(c: World, listed: seq<DeviceConfig>, i: nat, names: seq<string>) {
    && i <= |listed|
    && (forall j, n :: 0 <= j < i && Selects(c, listed[j], n) ==> n in names)
    && (NoDup(names) ==> PairwiseDisjoint(c, listed[..i]))
  }

  ghost predicate Snapshot(c: World, w: Worker) {
    && (!w.pc.Start? ==> SelectorFresh(c, w.cr))
    && (Listed(w) ==>
      && (forall j :: 0 <= j < |w.listed| ==> SelectorFresh(c, w.listed[j]))
      && (forall i, j :: 0 <= i < j < |w.listed| ==> w.listed[i].key != w.listed[j].key)
      && (Stands(c, w) ==> Sees(w, w.key, w.cr.uid))
      && (if w.pc.ListNodes? then Covers(c, w.listed, w.pc.i, w.names) else PairwiseDisjoint(c, w.listed)))
  }

  ghost predicate HasModule(c: World, k: Key) {
    ChildKeyOf(k, ModuleStage) in c.children && k in c.dcs
  }

  /** Of two validators in flight, at least one has the other's DeviceConfig on its list. */
  ghost predicate OneSeesTheOther(c: World, w1: Worker, w2: Worker) {
    w1.key != w2.key && Listed(w1) && Listed(w2) && Stands(c, w1) && Stands(c, w2) ==>
      Sees(w1, w2.key, w2.cr.uid) || Sees(w2, w1.key, w1.cr.uid)
  }

  /** A validator in flight has every deployed DeviceConfig on its list, or does not touch its nodes. */
  ghost predicate SeesDeployed(c: World, k: Key, w: Worker) {
    k != w.key && HasModule(c, k) && Listed(w) && Stands(c, w) ==>
      Sees(w, k, c.dcs[k].uid) || Disjoint(c, c.dcs[k], c.dcs[w.key])
  }

  ghost predicate DeployedDisjoint(c: World, k1: Key, k2: Key) {
    k1 != k2 && HasModule(c, k1) && HasModule(c, k2) ==> Disjoint(c, c.dcs[k1], c.dcs[k2])
  }

  ghost predicate ModuleSelector(c: World, k: Key) {
    HasModule(c, k) ==> DeployedSelector(c.children[ChildKeyOf(k, ModuleStage)]) == Some(Selector(c.dcs[k]))
  }

  ghost predicate Exclusive(y: System) {
    && (forall k :: k in y.workers ==> Snapshot(y.c, y.workers[k]))
    && (forall k1, k2 :: k1 in y.workers && k2 in y.workers ==> OneSeesTheOther(y.c, y.workers[k1], y.workers[k2]))
    && (forall k1, k2 :: k2 in y.workers ==> SeesDeployed(y.c, k1, y.workers[k2]))
    && (forall k1, k2 :: DeployedDisjoint(y.c, k1, k2))
    && (forall k :: ModuleSelector(y.c, k))
  }

  // ---------- moves that keep selectors and only lose nodes ----------

  ghost predicate FewerNodes(c: World, c': World) {
    forall n :: n in c'.nodes ==> n in c.nodes && c'.nodes[n] == c.nodes[n]
  }

  /** Identity and selector of every DeviceConfig survive until it is released, or it is new. */
  ghost predicate SelectorsStay(c: World, c': World) {
    && c.nextUid <= c'.nextUid
    && forall k :: Alive(c', k) && c'.dcs[k].uid < c.nextUid ==>
         Alive(c, k) && c'.dcs[k].uid == c.dcs[k].uid && c'.dcs[k].spec.nodeSelector == c.dcs[k].spec.nodeSelector
  }

  ghost predicate CalmMove(c: World, c': World) {
    FewerNodes(c, c') && SelectorsStay(c, c')
  }

  lemma DisjointStays(c: World, c': World, a: DeviceConfig, b: DeviceConfig, a': DeviceConfig, b': DeviceConfig)
    requires FewerNodes(c, c') && Disjoint(c, a, b)
    requires a'.spec.nodeSelector == a.spec.nodeSelector && b'.spec.nodeSelector == b.spec.nodeSelector
    ensures Disjoint(c', a', b')
  {
    hide Matches;
    assert Selector(a') == Selector(a) && Selector(b') == Selector(b);
    forall n | n in c'.nodes ensures !(Selects(c', a', n) && Selects(c', b', n)) {
      assert !(Selects(c, a, n) && Selects(c, b, n));
    }
  }

  lemma PairwiseStays(c: World, c': World, items: seq<DeviceConfig>)
    requires FewerNodes(c, c') && PairwiseDisjoint(c, items)
    ensures PairwiseDisjoint(c', items)
  {
    hide Disjoint;
    forall i, j | 0 <= i < j < |items| ensures Disjoint(c', items[i], items[j]) {
      DisjointStays(c, c', items[i], items[j], items[i], items[j]);
    }
  }

  lemma SnapshotStays(c: World, c': World, ready: Commitments, w: Worker)
    requires CalmMove(c, c') && WorkerInv(c, ready, w) && Snapshot(c, w)
    ensures Snapshot(c', w)
  {
    hide Disjoint, PairwiseDisjoint, OnCourse, Untouched, PassedApplied, ReadyBehind, Sees, NoDup, Matches;
    if Listed(w) {
      if w.pc.ListNodes? {
        if NoDup(w.names) {
          PairwiseStays(c, c', w.listed[..w.pc.i]);
        }
        forall j, n | 0 <= j < w.pc.i && Selects(c', w.listed[j], n) ensures n in w.names {
          assert Selects(c, w.listed[j], n);
        }
      } else {
        PairwiseStays(c, c', w.listed);
      }
    }
  }

  lemma StandsStay(c: World, c': World, ready: Commitments, w: Worker)
    requires CalmMove(c, c') && WorkerInv(c, ready, w) && !w.pc.Start? && Stands(c', w)
    ensures Stands(c, w) && c'.dcs[w.key].spec.nodeSelector == c.dcs[w.key].spec.nodeSelector
  {
    hide OnCourse, Untouched, PassedApplied, ReadyBehind, FewerNodes;
  }

  /** Modules that were there before the move, with the DeviceConfig they belong to. */
  ghost predicate ModuleWasThere(c: World, c': World, k: Key) {
    HasModule(c', k) ==>
      && HasModule(c, k) && Alike(c.children[ChildKeyOf(k, ModuleStage)], c'.children[ChildKeyOf(k, ModuleStage)])
      && c'.dcs[k].uid == c.dcs[k].uid && c'.dcs[k].spec.nodeSelector == c.dcs[k].spec.nodeSelector
  }

  lemma ModuleStays(c: World, c': World, k: Key)
    requires StoreOk(c) && ModuleHeld(c, k) && CalmMove(c, c')
    requires ChildKeyOf(k, ModuleStage) in c'.children ==>
               ChildKeyOf(k, ModuleStage) in c.children &&
               Alike(c.children[ChildKeyOf(k, ModuleStage)], c'.children[ChildKeyOf(k, ModuleStage)])
    requires forall uid :: Held(c, k, uid) && ChildKeyOf(k, ModuleStage) in c'.children ==> Held(c', k, uid)
    ensures ModuleWasThere(c, c', k)
  {
    hide ChildKeyOf, FewerNodes, ControllerOf, Finalizers.Contains;
  }

  lemma PairsStay(c: World, c': World, ready: Commitments, w1: Worker, w2: Worker)
    requires CalmMove(c, c') && WorkerInv(c, ready, w1) && WorkerInv(c, ready, w2) && OneSeesTheOther(c, w1, w2)
    ensures OneSeesTheOther(c', w1, w2)
  {
    hide FewerNodes, SelectorsStay, Sees, WorkerInv;
    if Listed(w1) && Stands(c', w1) { StandsStay(c, c', ready, w1); }
    if Listed(w2) && Stands(c', w2) { StandsStay(c, c', ready, w2); }
  }

  lemma SeesDeployedStays(c: World, c': World, ready: Commitments, k: Key, w: Worker)
    requires CalmMove(c, c') && WorkerInv(c, ready, w) && SeesDeployed(c, k, w) && ModuleWasThere(c, c', k)
    ensures SeesDeployed(c', k, w)
  {
    hide SelectorsStay, Sees, WorkerInv, Disjoint, HasModule, FewerNodes;
    if Listed(w) && Stands(c', w) && HasModule(c', k) {
      StandsStay(c, c', ready, w);
      DeployedHasConfig(c, k);
      DeployedHasConfig(c', k);
      if Disjoint(c, c.dcs[k], c.dcs[w.key]) {
        DisjointStays(c, c', c.dcs[k], c.dcs[w.key], c'.dcs[k], c'.dcs[w.key]);
      }
    }
  }

  lemma DeployedHasConfig(c: World, k: Key)
    requires HasModule(c, k)
    ensures k in c.dcs
  {
  }

  lemma DeployedStays(c: World, c': World, k1: Key, k2: Key)
    requires FewerNodes(c, c') && DeployedDisjoint(c, k1, k2) && ModuleWasThere(c, c', k1) && ModuleWasThere(c, c', k2)
    ensures DeployedDisjoint(c', k1, k2)
  {
    hide Disjoint, HasModule, FewerNodes;
    if HasModule(c', k1) && HasModule(c', k2) && k1 != k2 {
      DeployedHasConfig(c, k1);
      DeployedHasConfig(c, k2);
      DeployedHasConfig(c', k1);
      DeployedHasConfig(c', k2);
      DisjointStays(c, c', c.dcs[k1], c.dcs[k2], c'.dcs[k1], c'.dcs[k2]);
    }
  }

  lemma ModuleSelectorStays(c: World, c': World, k: Key)
    requires ModuleSelector(c, k) && ModuleWasThere(c, c', k)
    ensures ModuleSelector(c', k)
  {
    if HasModule(c', k) { AlikeDeploy(c.children[ChildKeyOf(k, ModuleStage)], c'.children[ChildKeyOf(k, ModuleStage)]); }
    hide ChildKeyOf, DeployedSelector;
  }

  lemma AlikeDeploy(o: Object, p: Object)
    requires Alike(o, p)
    ensures DeployedSelector(p) == DeployedSelector(o)
  {
  }

  // ---------- the environment ----------

  lemma CommitCalm(c: World, key: Key, next: DeviceConfig)
    requires StoreOk(c) && key in c.dcs
    requires next.key == key && next.uid == c.dcs[key].uid
    requires Unreleased(next) ==> Unreleased(c.dcs[key]) && next.spec.nodeSelector == c.dcs[key].spec.nodeSelector
    ensures CalmMove(c, Commit(c, c.dcs[key], next).0)
    ensures Commit(c, c.dcs[key], next).0.children == c.children
  {
  }

  lemma EnvironmentCalm(c: World, e: Event)
    requires StoreOk(c) && Calm(e)
    ensures CalmMove(c, Environment(c, e))
  {
    hide Orphan, Finalizers.Remove, Finalizers.Add, Commit, CalmMove, DeleteChild, SetChildFinalizers;
    match e
    case UserEditDriver(key, image, version) =>
      if key in c.dcs {
        var stored := c.dcs[key];
        var spec := stored.spec.(driverImage := image, driverVersion := version);
        CommitCalm(c, key, stored.(spec := spec, generation := stored.generation + 1));
      }
      CalmTrivially(c, c);
    case UserAddFinalizer(key, f) =>
      if key in c.dcs && !c.dcs[key].deleting { CommitCalm(c, key, c.dcs[key].(finalizers := Finalizers.Add(c.dcs[key].finalizers, f))); }
      CalmTrivially(c, c);
    case UserRemoveFinalizer(key, f) =>
      if key in c.dcs {
        Finalizers.RemoveLaws(c.dcs[key].finalizers, f);
        CommitCalm(c, key, c.dcs[key].(finalizers := Finalizers.Remove(c.dcs[key].finalizers, f)));
      }
      CalmTrivially(c, c);
    case UserDelete(key) =>
      if key in c.dcs { CommitCalm(c, key, c.dcs[key].(deleting := true, generation := c.dcs[key].generation + 1)); }
      CalmTrivially(c, c);
    case CollectGarbage(ck) => ChildCallsCalm(c, ck, []);
      CalmTrivially(c, c);
    case ModuleAddFinalizer(ck, f) =>
      if ck in c.children { ChildCallsCalm(c, ck, Finalizers.Add(c.children[ck].finalizers, f)); }
      CalmTrivially(c, c);
    case ModuleRemoveFinalizer(ck, f) =>
      if ck in c.children { ChildCallsCalm(c, ck, Finalizers.Remove(c.children[ck].finalizers, f)); }
      CalmTrivially(c, c);
    case _ => CalmTrivially(c, Environment(c, e));
  }

  lemma ChildCallsCalm(c: World, ck: ChildKey, fs: seq<string>)
    requires StoreOk(c)
    ensures CalmMove(c, DeleteChild(c, ck).0) && (ck in c.children ==> CalmMove(c, SetChildFinalizers(c, ck, fs)))
  {
  }

  lemma CalmTrivially(c: World, c': World)
    requires StoreOk(c)
    requires FewerNodes(c, c') && c.nextUid <= c'.nextUid
    requires forall k :: k in c'.dcs && k in c.dcs ==> c'.dcs[k] == c.dcs[k]
    requires forall k :: k in c'.dcs && k !in c.dcs ==> c'.dcs[k].uid >= c.nextUid
    ensures CalmMove(c, c')
  {
  }

  // ---------- the validator ----------

  lemma CoversNone(c: World, listed: seq<DeviceConfig>)
    ensures Covers(c, listed, 0, [])
  {
  }

  /** One more list of node names: it covers one more item. Nodes that left meanwhile do not matter. */
  lemma CoversOneMore(c: World, listed: seq<DeviceConfig>, i: nat, names: seq<string>)
    requires Covers(c, listed, i, names) && i < |listed|
    ensures Covers(c, listed, i + 1, names + SelectedNames(c, listed[i]))
  {
    hide Matches;
    var more := SelectedNames(c, listed[i]);
    NoDupConcat(names, more);
    forall j, n | 0 <= j < i + 1 && Selects(c, listed[j], n) ensures n in names + more {
      if j == i {
        assert n in SelectedSet(c, listed[i]);
        assert n in Elements(more);
      }
    }
    if NoDup(names + more) {
      var upTo := listed[..i + 1];
      forall a, b | 0 <= a < b < |upTo| ensures Disjoint(c, upTo[a], upTo[b]) {
        if b < i {
          assert upTo[a] == listed[..i][a] && upTo[b] == listed[..i][b];
        } else {
          forall n | n in c.nodes ensures !(Selects(c, upTo[a], n) && Selects(c, upTo[b], n)) {
            if Selects(c, listed[a], n) {
              assert n in Elements(names) && n !in Elements(more);
              assert n !in SelectedSet(c, listed[i]);
            }
          }
        }
      }
    }
  }

  lemma FreshListing(c: World, w: Worker)
    requires StoreOk(c) && w.listed == ListDeviceConfigs(c)
    ensures forall j :: 0 <= j < |w.listed| ==> SelectorFresh(c, w.listed[j])
    ensures forall i, j :: 0 <= i < j < |w.listed| ==> w.listed[i].key != w.listed[j].key
    ensures forall k :: k in c.dcs ==> Sees(w, k, c.dcs[k].uid)
  {
    hide ListDeviceConfigs;
    ListedKeysDistinct(c);
    forall j | 0 <= j < |w.listed| ensures SelectorFresh(c, w.listed[j]) {
      ListedIsStored(c, j);
    }
    forall k | k in c.dcs ensures Sees(w, k, c.dcs[k].uid) {
      ListedOnce(c, k);
      var j :| 0 <= j < |w.listed| && w.listed[j] == c.dcs[k];
      assert SeesAt(w, j, k, c.dcs[k].uid);
    }
  }

  lemma FinishSnapshot(c: World, w: Worker)
    requires w.pc.ListConfigs? || w.pc.ListNodes?
    requires SelectorFresh(c, w.cr)
    requires forall j :: 0 <= j < |w.listed| ==> SelectorFresh(c, w.listed[j])
    requires forall i, j :: 0 <= i < j < |w.listed| ==> w.listed[i].key != w.listed[j].key
    requires Stands(c, w) ==> Sees(w, w.key, w.cr.uid)
    requires Covers(c, w.listed, |w.listed|, w.names)
    ensures var (w', c') := FinishCheck(w, c);
            c' == c.(gauge := c'.gauge) && w'.key == w.key && w'.cr == w.cr && w'.listed == w.listed &&
            (!w'.pc.Done? ==> Listed(w') && Snapshot(c', w'))
  {
    hide SelectorFresh, Matches, Disjoint, NoDup;
    assert w.listed[..|w.listed|] == w.listed;
    var (w', c') := FinishCheck(w, c);
    if !w'.pc.Done? { SeesSame(w, w', w.key, w.cr.uid); }
  }

  lemma SeesSame(w: Worker, w': Worker, k: Key, uid: nat)
    requires w'.listed == w.listed
    ensures Sees(w, k, uid) <==> Sees(w', k, uid)
  {
    if j :| SeesAt(w, j, k, uid) { assert SeesAt(w', j, k, uid); }
    if j :| SeesAt(w', j, k, uid) { assert SeesAt(w, j, k, uid); }
  }

  lemma ListConfigsSnapshot(c: World, ready: Commitments, w: Worker, r: Reply)
    requires StoreOk(c) && WorkerInv(c, ready, w) && Snapshot(c, w) && w.pc.ListConfigs?
    ensures var (w', c') := StepListConfigs(w, c, r);
            c' == c.(gauge := c'.gauge) && w'.key == w.key && w'.cr == w.cr &&
            (!w'.pc.Done? ==> Listed(w') && Snapshot(c', w') && w'.listed == ListDeviceConfigs(c))
  {
    hide FinishCheck, ListDeviceConfigs, SelectorFresh, Covers, OnCourse, Untouched, PassedApplied, NoDup, Disjoint;
    if r.Ok? {
      var w1 := w.(listed := ListDeviceConfigs(c), names := []);
      FreshListing(c, w1);
      CoversNone(c, w1.listed);
      if w1.listed == [] {
        FinishSnapshot(c, w1);
      } else {
        SeesSame(w1, w1.(pc := ListNodes(0)), w.key, w.cr.uid);
      }
    }
  }

  lemma ListNodesSnapshot(c: World, ready: Commitments, w: Worker, r: Reply)
    requires WorkerInv(c, ready, w) && Snapshot(c, w) && w.pc.ListNodes?
    ensures var (w', c') := StepListNodes(w, c, r, w.pc.i);
            c' == c.(gauge := c'.gauge) && w'.key == w.key && w'.cr == w.cr && w'.listed == w.listed &&
            (!w'.pc.Done? ==> Listed(w') && Snapshot(c', w'))
  {
    hide FinishCheck, SelectorFresh, Covers, OnCourse, Untouched, PassedApplied, NoDup, Disjoint, Tracks, SelectedNames;
    if r.Ok? {
      var i := w.pc.i;
      if |w.listed| <= i {
        CoversBound(c, w.listed, i, w.names);
        FinishSnapshot(c, w);
      } else {
        CoversOneMore(c, w.listed, i, w.names);
        var w1 := w.(names := w.names + SelectedNames(c, w.listed[i]));
        SeesSame(w, w1, w.key, w.cr.uid);
        if i + 1 == |w.listed| {
          FinishSnapshot(c, w1);
        } else {
          SeesSame(w, w1.(pc := ListNodes(i + 1)), w.key, w.cr.uid);
        }
      }
    }
  }

  lemma CoversBound(c: World, listed: seq<DeviceConfig>, i: nat, names: seq<string>)
    requires Covers(c, listed, i, names)
    ensures i <= |listed|
  {
  }

  // ---------- one call ----------

  /** The worker goes on with the same DeviceConfig and the same list. */
  ghost predicate SameView(w: Worker, w': Worker) {
    && w'.key == w.key && w'.listed == w.listed
    && w'.cr.key == w.cr.key && w'.cr.uid == w.cr.uid && w'.cr.spec == w.cr.spec
  }

  lemma UpdateCalm(c: World, ready: Commitments, w: Worker, cr: DeviceConfig)
    requires StoreOk(c) && WorkerInv(c, ready, w) && SafeWorker(c, w, true) && !w.pc.Start?
    requires cr == w.cr.(finalizers := cr.finalizers)
    requires if w.cr.deleting then !Finalizers.Contains(cr.finalizers) else Plain(w.cr.spec)
    ensures CalmMove(c, Update(c, cr).0) && Update(c, cr).0.children == c.children && CalmMove(c, c)
  {
    hide Commit, CalmMove, OnCourse, Untouched, PassedApplied, ReadyBehind;
    CalmTrivially(c, c);
    if cr.key in c.dcs && c.dcs[cr.key].rv == cr.rv {
      HoldsWhatIsStored(c, w, true);
      var stored := c.dcs[cr.key];
      CommitCalm(c, cr.key, Updated(stored, cr));
    }
  }

  lemma AddFinalizerView(c: World, ready: Commitments, w: Worker, r: Reply)
    requires StoreOk(c) && WorkerInv(c, ready, w) && w.pc.AddFinalizer? && SafeWorker(c, w, true)
    ensures var (w', c') := StepAddFinalizer(w, c, r);
            CalmMove(c, c') && c'.children == c.children && (!w'.pc.Done? ==> SameView(w, w') && Applying(w'.pc))
  {
    assert Plain(w.cr.spec);
    UpdateCalm(c, ready, w, AddedTo(w));
    SuccessKeepsIdentity(c, AddedTo(w));
    assert w.cr.key == w.key;
    hide CalmMove, WorkerInv, StoreOk, Finalizers.Add, Update;
  }

  lemma SuccessKeepsIdentity(c: World, cr: DeviceConfig)
    requires StoreOk(c)
    ensures var res := Update(c, cr).1;
            res.Success? ==> cr.key in c.dcs && c.dcs[cr.key].rv == cr.rv && res.value.key == cr.key
                             && res.value.uid == c.dcs[cr.key].uid && res.value.spec == cr.spec
  {
    hide Encoded;
  }

  lemma GaugeCalm(c: World, c': World, gauge: map<string, nat>)
    requires CalmMove(c, c')
    ensures CalmMove(c, c'.(gauge := gauge))
  {
  }

  lemma StatusCalm(c: World, cr: DeviceConfig, gauge: map<string, nat>)
    requires StoreOk(c)
    ensures CalmMove(c, UpdateStatus(c, cr).0.(gauge := gauge)) && UpdateStatus(c, cr).0.children == c.children
    ensures CalmMove(c, c.(gauge := gauge))
  {
    hide Commit, CalmMove;
    CalmTrivially(c, c);
    GaugeCalm(c, c, gauge);
    if cr.key in c.dcs {
      CommitCalm(c, cr.key, c.dcs[cr.key].(conditions := cr.conditions));
    }
    GaugeCalm(c, UpdateStatus(c, cr).0, gauge);
  }

  lemma StatusView(c: World, w: Worker, r: Reply)
    requires StoreOk(c) && (w.pc.ReportError? || w.pc.ReportReady?)
    ensures var (w', c') := Step(w, c, r);
            CalmMove(c, c') && c'.children == c.children && w'.pc.Done?
  {
    hide Conditions.Apply, UpdateStatus, CalmMove;
    hide StepStart, StepDeleteModule, StepRemoveFinalizer, StepListConfigs, StepListNodes, StepAddFinalizer;
    hide StepReadChild, StepRereadChild, StepWriteChild;
    var c' := Step(w, c, r).1;
    var update := if w.pc.ReportReady? then READY_UPDATE else Conditions.ErroredUpdate(Reason(w.pc.stage), ErrorText(w.err));
    var cr := w.cr.(conditions := Conditions.Apply(w.cr.conditions, update, c.clock));
    StatusCalm(c, cr, c'.gauge);
    assert c' == c.(gauge := c'.gauge) || c' == UpdateStatus(c, cr).0.(gauge := c'.gauge);
  }

  lemma RemovingView(c: World, ready: Commitments, w: Worker, r: Reply)
    requires StoreOk(c) && ChildrenOk(c) && Named(c) && WorkerInv(c, ready, w) && Removing(w.pc) && SafeWorker(c, w, true)
    requires SparesCall(c, w, r)
    ensures var (w', c') := Step(w, c, r);
            && CalmMove(c, c') && (w'.pc.Done? || (Removing(w'.pc) && w'.cr == w.cr && w'.key == w.key))
            && forall ck :: ck in c'.children ==> ck in c.children && c'.children[ck] == c.children[ck]
  {
    var removed := w.cr.(finalizers := Finalizers.Remove(w.cr.finalizers, DELETION_FINALIZER));
    Finalizers.RemoveLaws(w.cr.finalizers, DELETION_FINALIZER);
    UpdateCalm(c, ready, w, removed);
    forall ck ensures CalmMove(c, DeleteChild(c, ck).0) { ChildCallsCalm(c, ck, []); }
    if w.pc.DeleteModule? { DeleteModuleMoves(c, ready, w, r); }
    hide ChildKeyOf, WorkerInv, StoreOk, ChildrenOk, Named, Moves, CalmMove, DeleteChild, Finalizers.Remove, Update;
    hide StepStart, StepListConfigs, StepListNodes, StepAddFinalizer, StepReportError, StepReportReady;
    hide StepReadChild, StepRereadChild, StepWriteChild;
  }

  lemma ChildReadsView(c: World, w: Worker, r: Reply)
    requires w.pc.ReadChild? || w.pc.RereadChild?
    ensures var (w', c') := Step(w, c, r);
            c' == c.(gauge := c'.gauge) && SameView(w, w') && Applying(w'.pc)
  {
    hide ChildKeyOf, SetDesired, SetterInput;
    hide StepStart, StepListConfigs, StepListNodes, StepAddFinalizer, StepReportError, StepReportReady;
    hide StepDeleteModule, StepRemoveFinalizer, StepWriteChild;
  }

  lemma WriteView(c: World, ready: Commitments, w: Worker, r: Reply, s: Stage)
    requires WorkerInv(c, ready, w) && w.pc == WriteChild(s)
    ensures var (w', c') := Step(w, c, r);
            && SameView(w, w') && Applying(w'.pc)
            && (c' == c.(gauge := c'.gauge) ||
                c' == c.(gauge := c'.gauge, children := c.children[ChildKeyOf(w.key, s) := Written(c, w, s)]))
  {
    hide ChildKeyOf, Conforms, AppliedAt, CreateChild, PatchChild, OnCourse, Untouched, ReadyBehind;
    hide StepStart, StepListConfigs, StepListNodes, StepAddFinalizer, StepReportError, StepReportReady;
    hide StepDeleteModule, StepRemoveFinalizer, StepReadChild, StepRereadChild;
    WriteApplies(c, w, s);
  }

  lemma StartView(c: World, w: Worker, r: Reply)
    requires StoreOk(c) && w.pc.Start?
    ensures var (w', c') := Step(w, c, r);
            c' == c.(gauge := c'.gauge) && w'.key == w.key &&
            (!w'.pc.Done? ==> !Listed(w') && Snapshot(c', w'))
  {
    hide StepListConfigs, StepListNodes, StepAddFinalizer, StepReportError, StepReportReady;
    hide StepDeleteModule, StepRemoveFinalizer, StepReadChild, StepRereadChild, StepWriteChild;
  }

  lemma SnapshotCarries(c: World, w: Worker, w': Worker)
    requires Snapshot(c, w) && SameView(w, w') && !w.pc.Start?
    requires (w.pc.AddFinalizer? || Applying(w.pc)) && Applying(w'.pc)
    ensures Snapshot(c, w')
  {
    hide PairwiseDisjoint, Sees;
    SeesSame(w, w', w.key, w.cr.uid);
  }

  lemma PairCarries(c: World, w: Worker, w': Worker, o: Worker)
    requires SameView(w, w') && (Listed(w') ==> Listed(w))
    requires OneSeesTheOther(c, w, o) && OneSeesTheOther(c, o, w)
    ensures OneSeesTheOther(c, w', o) && OneSeesTheOther(c, o, w')
  {
    hide Sees;
    SeesSame(w, w', o.key, o.cr.uid);
  }

  lemma SeesDeployedCarries(c: World, w: Worker, w': Worker, k: Key)
    requires SameView(w, w') && (Listed(w') ==> Listed(w)) && SeesDeployed(c, k, w)
    ensures SeesDeployed(c, k, w')
  {
    hide Sees, HasModule, Disjoint;
    if HasModule(c, k) {
      DeployedHasConfig(c, k);
      SeesSame(w, w', k, c.dcs[k].uid);
    }
  }

  /** The three kinds of call, seen from the validator: a new list is taken, the old view goes on,
      or there is no view. */
  ghost predicate Views(c: World, w: Worker, w': Worker) {
    w'.pc.Done? || !Listed(w') || (SameView(w, w') && Listed(w)) || (w'.key == w.key && w'.listed == ListDeviceConfigs(c))
  }

  lemma CallView(c: World, ready: Commitments, w: Worker, r: Reply)
    requires StoreOk(c) && ChildrenOk(c) && Named(c) && WorkerInv(c, ready, w) && SafeWorker(c, w, true) && Snapshot(c, w)
    requires SparesCall(c, w, r)
    ensures var (w', c') := Step(w, c, r);
            && w'.key == w.key && CalmMove(c, c') && Views(c, w, w')
            && (!w'.pc.Done? ==> Snapshot(c', w'))
  {
    var (w', c') := Step(w, c, r);
    hide Step, ListDeviceConfigs, CalmMove, Snapshot, PassedApplied, OnCourse, Untouched;
    SameKey(w, c, r);
    match w.pc
    case Start => StartView(c, w, r); CalmTrivially(c, c');
    case ListConfigs =>
      StepOfLists(w, c, r);
      ListConfigsSnapshot(c, ready, w, r);
      CalmTrivially(c, c');
    case ListNodes(i) =>
      StepOfLists(w, c, r);
      ListNodesSnapshot(c, ready, w, r);
      CalmTrivially(c, c');
    case AddFinalizer =>
      StepOfLists(w, c, r);
      AddFinalizerView(c, ready, w, r);
      SnapshotStays(c, c', ready, w);
      if !w'.pc.Done? { SnapshotCarries(c', w, w'); }
    case ReadChild(s) =>
      ChildReadsView(c, w, r);
      CalmTrivially(c, c');
      SnapshotStays(c, c', ready, w);
      SnapshotCarries(c', w, w');
    case RereadChild(s) =>
      ChildReadsView(c, w, r);
      CalmTrivially(c, c');
      SnapshotStays(c, c', ready, w);
      SnapshotCarries(c', w, w');
    case WriteChild(s) =>
      WriteView(c, ready, w, r, s);
      CalmTrivially(c, c');
      SnapshotStays(c, c', ready, w);
      SnapshotCarries(c', w, w');
    case ReportError(s) => StatusView(c, w, r);
    case ReportReady => StatusView(c, w, r);
    case _ =>
      RemovingView(c, ready, w, r);
      SnapshotStays(c, c', ready, w);
      if !w'.pc.Done? { NoViewNoClaim(c', w, w'); }
  }

  lemma NoViewNoClaim(c: World, w: Worker, w': Worker)
    requires Snapshot(c, w) && w'.cr == w.cr && Removing(w'.pc) && !w.pc.Start?
    ensures Snapshot(c, w')
  {
    hide PairwiseDisjoint, Sees;
  }

  lemma StepOfLists(w: Worker, c: World, r: Reply)
    ensures w.pc.ListConfigs? ==> Step(w, c, r) == StepListConfigs(w, c, r)
    ensures w.pc.ListNodes? ==> Step(w, c, r) == StepListNodes(w, c, r, w.pc.i)
    ensures w.pc.AddFinalizer? ==> Step(w, c, r) == StepAddFinalizer(w, c, r)
  {
    hide StepStart, StepDeleteModule, StepRemoveFinalizer, StepListConfigs, StepListNodes, StepAddFinalizer;
    hide StepReadChild, StepRereadChild, StepWriteChild, StepReportError, StepReportReady;
  }

  // ---------- a Module appears ----------

  /** A worker past its check shares no node with anything on its list. */
  lemma ViewDisjoint(c: World, w: Worker, k: Key)
    requires StoreOk(c) && Snapshot(c, w) && Applying(w.pc) && Stands(c, w)
    requires Alive(c, k) && k != w.key && Sees(w, k, c.dcs[k].uid)
    ensures Disjoint(c, c.dcs[w.key], c.dcs[k]) && Disjoint(c, c.dcs[k], c.dcs[w.key])
  {
    hide Selects;
    var i :| SeesAt(w, i, w.key, w.cr.uid);
    var j :| SeesAt(w, j, k, c.dcs[k].uid);
    assert SelectorFresh(c, w.listed[i]) && SelectorFresh(c, w.listed[j]);
    if i < j {
      assert Disjoint(c, w.listed[i], w.listed[j]);
    } else {
      assert Disjoint(c, w.listed[j], w.listed[i]);
    }
    SameSelections(c, w.listed[i], c.dcs[w.key]);
    SameSelections(c, w.listed[j], c.dcs[k]);
  }

  lemma SameSelections(c: World, a: DeviceConfig, b: DeviceConfig)
    requires a.spec.nodeSelector == b.spec.nodeSelector
    ensures forall n :: Selects(c, a, n) <==> Selects(c, b, n)
  {
    assert Selector(a) == Selector(b);
    hide Matches;
  }

  ghost predicate ModulePut(c: World, c': World, w: Worker) {
    && w.pc == WriteChild(ModuleStage)
    && c'.dcs == c.dcs && c'.nodes == c.nodes
    && c'.children == c.children[ChildKeyOf(w.key, ModuleStage) := Written(c, w, ModuleStage)]
  }

  lemma OtherModules(c: World, c': World, w: Worker, k: Key)
    requires ModulePut(c, c', w) && k != w.key
    ensures ModuleWasThere(c, c', k)
  {
    ChildKeysDistinct(k, ModuleStage, w.key, ModuleStage);
    hide ChildKeyOf;
  }

  lemma SameNodesSameSelections(c: World, c': World, a: DeviceConfig, b: DeviceConfig)
    requires c'.nodes == c.nodes
    ensures Disjoint(c, a, b) <==> Disjoint(c', a, b)
  {
    hide Matches;
    if Disjoint(c, a, b) { DisjointStays(c, c', a, b, a, b); }
    if Disjoint(c', a, b) { DisjointStays(c', c, a, b, a, b); }
  }

  /** A Module that appears carries the validated selector, shares no node with any other Module,
      and every validator in flight already sees it or does not touch its nodes. */
  lemma NewModule(c: World, c': World, ready: Commitments, w: Worker)
    requires StoreOk(c) && WorkerInv(c, ready, w) && Pinned(c, w) && Snapshot(c, w) && ModulePut(c, c', w)
    ensures ModuleSelector(c', w.key)
    ensures forall k :: SeesDeployed(c, k, w) && ModuleHeld(c, k) ==> DeployedDisjoint(c', w.key, k) && DeployedDisjoint(c', k, w.key)
    ensures forall o :: Snapshot(c, o) && OneSeesTheOther(c, w, o) ==> SeesDeployed(c', w.key, o)
  {
    NewModuleSelector(c, c', ready, w);
    PinnedStands(c, ready, w);
    hide ChildKeyOf, WorkerInv, Conforms, Disjoint, Snapshot, Sees, Pinned, ControllerOf;
    forall k | SeesDeployed(c, k, w) && ModuleHeld(c, k) ensures DeployedDisjoint(c', w.key, k) && DeployedDisjoint(c', k, w.key) {
      if k != w.key && HasModule(c', k) {
        OtherModules(c, c', w, k);
        DisjointIsSymmetric(c, c.dcs[k], c.dcs[w.key]);
        if Sees(w, k, c.dcs[k].uid) { ViewDisjoint(c, w, k); }
        SameNodesSameSelections(c, c', c.dcs[k], c.dcs[w.key]);
        SameNodesSameSelections(c, c', c.dcs[w.key], c.dcs[k]);
      }
    }
    forall o | Snapshot(c, o) && OneSeesTheOther(c, w, o) ensures SeesDeployed(c', w.key, o) {
      if w.key != o.key && Listed(o) && Stands(c', o) && !Sees(o, w.key, w.cr.uid) {
        ViewDisjoint(c, w, o.key);
        SameNodesSameSelections(c, c', c.dcs[w.key], c.dcs[o.key]);
      }
    }
  }

  lemma PinnedStands(c: World, ready: Commitments, w: Worker)
    requires WorkerInv(c, ready, w) && Pinned(c, w) && Applying(w.pc)
    ensures Stands(c, w) && w.cr.key == w.key
  {
    hide PassedApplied;
  }

  lemma NewModuleSelector(c: World, c': World, ready: Commitments, w: Worker)
    requires WorkerInv(c, ready, w) && Pinned(c, w) && Snapshot(c, w) && ModulePut(c, c', w)
    ensures ModuleSelector(c', w.key)
  {
    PinnedStands(c, ready, w);
    hide ChildKeyOf, Conforms, PairwiseDisjoint, Sees, DeployedSelector;
    ValidatedNodesAreDeployedNodes(ModuleStage, w.after, w.cr, c.settings);
    AlikeDeploy(w.after, Written(c, w, ModuleStage));
    assert Stands(c, w);
    assert Selector(w.cr) == Selector(c.dcs[w.key]);
  }

  // ---------- events keep it ----------

  lemma OwnModule(c: World, c': World, ready: Commitments, w: Worker, r: Reply)
    requires SparesCall(c, w, r)
    requires StoreOk(c) && ChildrenOk(c) && Named(c) && WorkerInv(c, ready, w) && SafeWorker(c, w, true)
    requires c' == Step(w, c, r).1 && CalmMove(c, c') && NoNewConfigs(c, c')
    requires ModuleHeld(c, w.key) && ModuleHeld(c', w.key)
    ensures ModuleWasThere(c, c', w.key) || ModulePut(c, c', w)
  {
    hide Step, ChildKeyOf, CalmMove, PassedApplied, Conforms, ControllerOf, OnCourse, Untouched;
    if w.pc.WriteChild? {
      WriteView(c, ready, w, r, w.pc.stage);
      ChildKeysDistinct(w.key, ModuleStage, w.key, w.pc.stage);
    } else {
      OnlyWritesAdd(c, ready, w, r);
    }
    if c'.children != c.children[ChildKeyOf(w.key, ModuleStage) := Written(c, w, ModuleStage)] || !w.pc.WriteChild? {
      ModuleStays(c, c', w.key);
    }
  }

  lemma OnlyWritesAdd(c: World, ready: Commitments, w: Worker, r: Reply)
    requires StoreOk(c) && ChildrenOk(c) && Named(c) && WorkerInv(c, ready, w) && SafeWorker(c, w, true) && !w.pc.WriteChild?
    requires SparesCall(c, w, r)
    ensures forall ck :: ck in Step(w, c, r).1.children ==> ck in c.children && Step(w, c, r).1.children[ck] == c.children[ck]
  {
    hide Step, ListDeviceConfigs, CalmMove, PassedApplied, OnCourse, Untouched;
    match w.pc
    case Start => StartView(c, w, r);
    case ListConfigs => StepOfLists(w, c, r); ListsKeep(c, ready, w, r);
    case ListNodes(i) => StepOfLists(w, c, r); ListsKeep(c, ready, w, r);
    case AddFinalizer => StepOfLists(w, c, r); AddFinalizerView(c, ready, w, r);
    case ReadChild(s) => ChildReadsView(c, w, r);
    case RereadChild(s) => ChildReadsView(c, w, r);
    case ReportError(s) => StatusView(c, w, r);
    case ReportReady => StatusView(c, w, r);
    case _ => RemovingView(c, ready, w, r);
  }

  /** After a call every Module but possibly the caller's own was there before. */
  lemma ModulesAfterCall(c: World, ready: Commitments, w: Worker, r: Reply, j: Key)
    requires SafeWorker(c, w, true) && SparesCall(c, w, r)
    requires StoreOk(c) && ChildrenOk(c) && Named(c) && ReadyOk(c, ready) && KeyInv(c, ready, w.key)
    requires WorkerInv(c, ready, w) && Pinned(c, w) && ModuleHeld(c, w.key)
    requires ModuleHeld(c, j) && CalmMove(c, Step(w, c, r).1)
    ensures var c' := Step(w, c, r).1;
            ModuleWasThere(c, c', j) || (j == w.key && ModulePut(c, c', w))
  {
    hide Step, ChildKeyOf, CalmMove, WorkerInv, ChildrenOk, Named, CommitsReady, ModulePut, ModuleWasThere, Held, Evolves;
    hide ModuleHeld, Pinned, KeyInv;
    var c' := Step(w, c, r).1;
    CallKeeps(c, ready, w, r);
    CallPins(c, ready, w, r);
    if j == w.key {
      OwnModule(c, c', ready, w, r);
    } else {
      assert ChildStays(c, c', ChildKeyOf(j, ModuleStage));
      ModuleStays(c, c', j);
    }
  }

  lemma NewListing(c: World, c': World, ready: Commitments, w': Worker, o: Worker, k: Key)
    requires StoreOk(c) && CalmMove(c, c') && w'.listed == ListDeviceConfigs(c) && WorkerInv(c, ready, o)
    ensures OneSeesTheOther(c', w', o) && OneSeesTheOther(c', o, w')
    ensures ModuleWasThere(c, c', k) ==> SeesDeployed(c', k, w')
  {
    hide ListDeviceConfigs, CalmMove, WorkerInv, Sees, StoreOk, Disjoint, HasModule;
    FreshListing(c, w');
    if Listed(o) && Stands(c', o) {
      StandsStay(c, c', ready, o);
    }
    if HasModule(c', k) && ModuleWasThere(c, c', k) {
      DeployedHasConfig(c, k);
    }
  }

  lemma CallKeepsPairs(c: World, c': World, ready: Commitments, w: Worker, w': Worker, o: Worker)
    requires StoreOk(c) && CalmMove(c, c') && WorkerInv(c, ready, w) && WorkerInv(c, ready, o)
    requires Views(c, w, w') && !w'.pc.Done?
    requires OneSeesTheOther(c, w, o) && OneSeesTheOther(c, o, w)
    ensures OneSeesTheOther(c', w', o) && OneSeesTheOther(c', o, w')
  {
    hide CalmMove, WorkerInv, StoreOk, OneSeesTheOther, ListDeviceConfigs;
    if !Listed(w') {
      NoListNoPair(c', w', o);
    } else if SameView(w, w') && Listed(w) {
      PairsStay(c, c', ready, w, o);
      PairsStay(c, c', ready, o, w);
      PairCarries(c', w, w', o);
    } else {
      NewListing(c, c', ready, w', o, w.key);
    }
  }

  lemma NoListNoPair(c: World, w: Worker, o: Worker)
    requires !Listed(w)
    ensures OneSeesTheOther(c, w, o) && OneSeesTheOther(c, o, w)
    ensures forall k :: SeesDeployed(c, k, w)
  {
    hide Sees, HasModule, Disjoint, Stands;
  }

  lemma CallKeepsOwnView(c: World, c': World, ready: Commitments, w: Worker, w': Worker, k: Key)
    requires StoreOk(c) && CalmMove(c, c') && WorkerInv(c, ready, w)
    requires Views(c, w, w') && !w'.pc.Done? && w'.key == w.key
    requires SeesDeployed(c, k, w) && (ModuleWasThere(c, c', k) || k == w.key)
    ensures SeesDeployed(c', k, w')
  {
    hide CalmMove, WorkerInv, StoreOk, ListDeviceConfigs, ModuleWasThere;
    if k == w.key {
      OwnKeySeen(c', w');
    } else if !Listed(w') {
      NoListNoPair(c', w', w);
    } else if SameView(w, w') && Listed(w) {
      SeesDeployedStays(c, c', ready, k, w);
      SeesDeployedCarries(c', w, w', k);
    } else {
      NewListing(c, c', ready, w', w, k);
    }
  }

  lemma OwnKeySeen(c: World, w: Worker)
    ensures SeesDeployed(c, w.key, w)
  {
    hide Sees, HasModule, Disjoint, Stands, Listed;
  }

  /** `k`'s Module was there before the call of `w`, or is the one that call stored. */
  ghost predicate Accounted(c: World, c': World, w: Worker, k: Key) {
    ModuleWasThere(c, c', k) || (k == w.key && ModulePut(c, c', w))
  }

  lemma DeployedAfter(c: World, c': World, ready: Commitments, w: Worker, a: Key, b: Key)
    requires StoreOk(c) && WorkerInv(c, ready, w) && Pinned(c, w) && Snapshot(c, w) && CalmMove(c, c')
    requires ModuleHeld(c, a) && ModuleHeld(c, b)
    requires Accounted(c, c', w, a) && Accounted(c, c', w, b)
    requires DeployedDisjoint(c, a, b) && SeesDeployed(c, a, w) && SeesDeployed(c, b, w)
    ensures DeployedDisjoint(c', a, b)
  {
    hide StoreOk, WorkerInv, Pinned, ModuleHeld, Snapshot, FewerNodes;
    hide SelectorsStay, ModuleWasThere, ModulePut, SeesDeployed, Disjoint, HasModule;
    if ModuleWasThere(c, c', a) && ModuleWasThere(c, c', b) {
      DeployedStays(c, c', a, b);
    } else {
      NewModule(c, c', ready, w);
    }
  }

  lemma SelectorAfter(c: World, c': World, ready: Commitments, w: Worker, k: Key)
    requires StoreOk(c) && WorkerInv(c, ready, w) && Pinned(c, w) && Snapshot(c, w)
    requires Accounted(c, c', w, k) && ModuleSelector(c, k)
    ensures ModuleSelector(c', k)
  {
    hide StoreOk, WorkerInv, Pinned, Snapshot, ModuleWasThere, ModulePut, ModuleSelector;
    if ModuleWasThere(c, c', k) {
      ModuleSelectorStays(c, c', k);
    } else {
      NewModuleSelector(c, c', ready, w);
    }
  }

  lemma OtherViewAfter(c: World, c': World, ready: Commitments, w: Worker, o: Worker, k: Key)
    requires StoreOk(c) && WorkerInv(c, ready, w) && Pinned(c, w) && Snapshot(c, w) && CalmMove(c, c')
    requires WorkerInv(c, ready, o) && Snapshot(c, o) && OneSeesTheOther(c, w, o)
    requires Accounted(c, c', w, k) && SeesDeployed(c, k, o)
    ensures SeesDeployed(c', k, o)
  {
    hide StoreOk, WorkerInv, Pinned, Snapshot, CalmMove, ModuleWasThere, ModulePut, SeesDeployed, OneSeesTheOther;
    if ModuleWasThere(c, c', k) {
      SeesDeployedStays(c, c', ready, k, o);
    } else {
      NewModule(c, c', ready, w);
    }
  }

  lemma AllAccounted(y: System, w: Worker, r: Reply, j: Key)
    requires SafeWorker(y.c, w, true) && SparesCall(y.c, w, r)
    requires Inv(y) && PinInv(y) && WorkerInv(y.c, y.ready, w) && Pinned(y.c, w) && CalmMove(y.c, Step(w, y.c, r).1)
    ensures Accounted(y.c, Step(w, y.c, r).1, w, j)
  {
    hide Step, CalmMove, WorkerInv, StoreOk, ChildrenOk, Named, ReadyOk, ModuleWasThere, ModulePut, ModuleHeld, Pinned, KeyInv;
    assert ModuleHeld(y.c, j) && ModuleHeld(y.c, w.key) && KeyInv(y.c, y.ready, w.key);
    ModulesAfterCall(y.c, y.ready, w, r, j);
  }

  lemma CallKeepsExclusive(y: System, k: Key, r: Reply)
    requires Inv(y) && PinInv(y) && SafeSystem(y, true)
    requires Exclusive(y) && k in y.workers && SparesCall(y.c, y.workers[k], r)
    ensures Exclusive(CallNext(y, k, r))
  {
    hide Step, CalmMove, Views, WorkerInv, KeyInv, Snapshot, OneSeesTheOther, SeesDeployed, DeployedDisjoint, ModuleSelector;
    hide StoreOk, ChildrenOk, Named, ReadyOk, CommitsReady, Accounted, SafeWorker, Pinned, ModuleHeld;
    assert SafeWorker(y.c, y.workers[k], true);
    var w := y.workers[k];
    var (w', c') := Step(w, y.c, r);
    CallView(y.c, y.ready, w, r);
    var z := CallNext(y, k, r);
    forall j ensures Accounted(y.c, c', w, j) {
      AllAccounted(y, w, r, j);
    }
    forall j | j in z.workers ensures Snapshot(z.c, z.workers[j]) {
      if j != k { SnapshotStays(y.c, c', y.ready, y.workers[j]); }
    }
    forall a, b | a in z.workers && b in z.workers ensures OneSeesTheOther(z.c, z.workers[a], z.workers[b]) {
      if a == k == b {
        SameKeyNoPair(z.c, z.workers[k]);
      } else if a == k {
        CallKeepsPairs(y.c, c', y.ready, w, w', y.workers[b]);
      } else if b == k {
        CallKeepsPairs(y.c, c', y.ready, w, w', y.workers[a]);
      } else {
        PairsStay(y.c, c', y.ready, y.workers[a], y.workers[b]);
      }
    }
    forall a, b | b in z.workers ensures SeesDeployed(z.c, a, z.workers[b]) {
      if b == k {
        AccountedElsewhere(y.c, c', w, a);
        CallKeepsOwnView(y.c, c', y.ready, w, w', a);
      } else {
        OtherViewAfter(y.c, c', y.ready, w, y.workers[b], a);
      }
    }
    forall a, b ensures DeployedDisjoint(z.c, a, b) {
      DeployedAfter(y.c, c', y.ready, w, a, b);
    }
    forall j ensures ModuleSelector(z.c, j) {
      SelectorAfter(y.c, c', y.ready, w, j);
    }
  }

  lemma AccountedElsewhere(c: World, c': World, w: Worker, k: Key)
    requires Accounted(c, c', w, k)
    ensures ModuleWasThere(c, c', k) || k == w.key
  {
    hide ModuleWasThere, ModulePut;
  }

  lemma SameKeyNoPair(c: World, w: Worker)
    ensures OneSeesTheOther(c, w, w)
  {
    hide Sees, Listed, Stands;
  }

  lemma EnvironmentKeepsExclusive(y: System, e: Event)
    requires Inv(y) && PinInv(y) && Exclusive(y) && Calm(e) && SparesEvent(y.c, e)
    ensures Exclusive(y.(c := Environment(y.c, e))) && Exclusive(y.(c := Environment(y.c, e), workers := map[]))
  {
    hide Environment, WorkerInv, Snapshot, OneSeesTheOther, SeesDeployed, DeployedDisjoint, ModuleSelector;
    hide StoreOk, ChildrenOk, Named, ReadyOk, Evolves, KeyInv, ModuleHeld, Pinned, CalmMove, ModuleWasThere, Held, ChildStays;
    var c' := Environment(y.c, e);
    EnvironmentMoves(y.c, e);
    EnvironmentPins(y.c, e);
    EnvironmentCalm(y.c, e);
    FewerOf(y.c, c');
    forall k ensures ModuleWasThere(y.c, c', k) {
      assert ModuleHeld(y.c, k);
      ModuleStays(y.c, c', k);
    }
    forall k | k in y.workers ensures Snapshot(c', y.workers[k]) {
      SnapshotStays(y.c, c', y.ready, y.workers[k]);
    }
    forall a, b | a in y.workers && b in y.workers ensures OneSeesTheOther(c', y.workers[a], y.workers[b]) {
      PairsStay(y.c, c', y.ready, y.workers[a], y.workers[b]);
    }
    forall a, b | b in y.workers ensures SeesDeployed(c', a, y.workers[b]) {
      SeesDeployedStays(y.c, c', y.ready, a, y.workers[b]);
    }
    forall a, b ensures DeployedDisjoint(c', a, b) {
      DeployedStays(y.c, c', a, b);
    }
    forall k ensures ModuleSelector(c', k) {
      ModuleSelectorStays(y.c, c', k);
    }
  }

  lemma FewerOf(c: World, c': World)
    requires CalmMove(c, c')
    ensures FewerNodes(c, c')
  {
  }

  lemma NewWorkerHasNoView(c: World, k: Key, o: Worker)
    ensures Snapshot(c, NewWorker(k))
    ensures OneSeesTheOther(c, NewWorker(k), o) && OneSeesTheOther(c, o, NewWorker(k))
    ensures forall j :: SeesDeployed(c, j, NewWorker(k))
  {
    NoListNoPair(c, NewWorker(k), o);
  }

  lemma EnqueueKeepsExclusive(y: System, k: Key)
    requires Exclusive(y) && k !in y.workers
    ensures Exclusive(Next(y, Enqueue(k)))
  {
    hide Environment, WorkerInv, Snapshot, OneSeesTheOther, SeesDeployed, DeployedDisjoint, ModuleSelector, KeyInv, NewWorker;
    hide StoreOk, ChildrenOk, Named, ReadyOk;
    var z := Next(y, Enqueue(k));
    NewWorkerHasNoView(y.c, k, NewWorker(k));
    forall a, b | a in z.workers && b in z.workers ensures OneSeesTheOther(z.c, z.workers[a], z.workers[b]) {
      NewWorkerHasNoView(y.c, k, z.workers[a]);
      NewWorkerHasNoView(y.c, k, z.workers[b]);
    }
  }

  lemma EventKeepsExclusive(y: System, e: Event)
    requires Inv(y) && PinInv(y) && SafeSystem(y, true)
    requires Exclusive(y) && Calm(e) && Spares(y, e)
    ensures Exclusive(Next(y, e))
  {
    hide Environment, CallNext, WorkerInv, Snapshot, OneSeesTheOther;
    hide SeesDeployed, DeployedDisjoint, ModuleSelector, KeyInv, NewWorker;
    hide StoreOk, ChildrenOk, Named, ReadyOk;
    match e
    case Enqueue(k) => if k !in y.workers { EnqueueKeepsExclusive(y, k); }
    case Call(k, r) => if k in y.workers { CallKeepsExclusive(y, k, r); }
    case _ => EnvironmentKeepsExclusive(y, e);
  }

  // ---------- the theorem ----------

  lemma {:induction false} ExclusiveReachable(y: System, es: seq<Event>)
    requires Initial(y) && SparesAll(y, es) && forall e :: e in es ==> Calm(e)
    ensures Exclusive(Runs(y, es))
    decreases |es|
  {
    if es == [] {
      hide ChildKeyOf, Conforms;
    } else {
      hide Exclusive, Next, Initial, SafeSystem, Inv, PinInv;
      ExclusiveReachable(y, es[..|es| - 1]);
      Reachable(y, es[..|es| - 1]);
      PinsReachable(y, es[..|es| - 1]);
      SafeReachable(y, es[..|es| - 1], true);
      EventKeepsExclusive(Runs(y, es[..|es| - 1]), es[|es| - 1]);
    }
  }

  /** No node is matched by the selectors of two stored Modules. */
  ghost predicate NoSharedNode(c: World) {
    forall a, b, n ::
      a in c.children && b in c.children && a != b && a.kind.KindModule? && b.kind.KindModule? && n in c.nodes ==>
        && DeployedSelector(c.children[a]).Some? && DeployedSelector(c.children[b]).Some?
        && !(Matches(DeployedSelector(c.children[a]).value, c.nodes[n]) &&
             Matches(DeployedSelector(c.children[b]).value, c.nodes[n]))
  }

  lemma ExclusiveMeans(y: System)
    requires Inv(y) && PinInv(y) && Exclusive(y)
    ensures NoSharedNode(y.c)
  {
    hide WorkerInv, Snapshot, OneSeesTheOther, SeesDeployed, KeyInv, Matches, ChildKeyOf, DeployedSelector;
    forall a, b, n |
      a in y.c.children && b in y.c.children && a != b && a.kind.KindModule? && b.kind.KindModule? && n in y.c.nodes
      ensures DeployedSelector(y.c.children[a]).Some? && DeployedSelector(y.c.children[b]).Some?
      ensures !(Matches(DeployedSelector(y.c.children[a]).value, y.c.nodes[n]) &&
                Matches(DeployedSelector(y.c.children[b]).value, y.c.nodes[n]))
    {
      ModuleOf(y, a);
      ModuleOf(y, b);
      var k1 :| a == ChildKeyOf(k1, ModuleStage) && HasModule(y.c, k1);
      var k2 :| b == ChildKeyOf(k2, ModuleStage) && HasModule(y.c, k2);
      assert DeployedDisjoint(y.c, k1, k2) && ModuleSelector(y.c, k1) && ModuleSelector(y.c, k2);
      assert !(Selects(y.c, y.c.dcs[k1], n) && Selects(y.c, y.c.dcs[k2], n));
    }
  }

  /** No reachable state shares a node between two Modules. */
  lemma {:induction false} NodeExclusivity(y: System, es: seq<Event>)
    requires Initial(y) && SparesAll(y, es) && forall e :: e in es ==> Calm(e)
    ensures NoSharedNode(Runs(y, es).c)
  {
    hide Runs, Exclusive, NoSharedNode, Inv, PinInv;
    ExclusiveReachable(y, es);
    Reachable(y, es);
    PinsReachable(y, es);
    ExclusiveMeans(Runs(y, es));
  }

  lemma ModuleOf(y: System, ck: ChildKey)
    requires Inv(y) && PinInv(y) && ck in y.c.children && ck.kind.KindModule?
    ensures exists k :: ck == ChildKeyOf(k, ModuleStage) && HasModule(y.c, k)
  {
    hide WorkerInv, KeyInv, ControllerOf;
    var k, s :| ck == ChildKeyOf(k, s);
    assert s.ModuleStage? && ModuleHeld(y.c, k);
    assert HasModule(y.c, k);
  }

  // ---------- what the hypotheses exclude ----------

  predicate Compatible(a: Labels, b: Labels) {
    forall l :: l in a && l in b ==> a[l] == b[l]
  }

  /** The selectors of any two stored Modules ask for different values of some label. */
  ghost predicate ModulesIncompatible(c: World) {
    forall a, b ::
      a in c.children && b in c.children && a != b && a.kind.KindModule? && b.kind.KindModule? ==>
        && DeployedSelector(c.children[a]).Some? && DeployedSelector(c.children[b]).Some?
        && !Compatible(DeployedSelector(c.children[a]).value, DeployedSelector(c.children[b]).value)
  }

  lemma MatchesBothIff(a: Labels, b: Labels)
    ensures Compatible(a, b) <==> Matches(a, a + b) && Matches(b, a + b)
    ensures forall labels :: Matches(a, labels) && Matches(b, labels) ==> Compatible(a, b)
  {
  }

  lemma AfterJoining(c: World, name: string, labels: Labels)
    requires NoSharedNode(c) && ModulesIncompatible(c)
    ensures NoSharedNode(Environment(c, NodeSet(name, labels)))
  {
    hide Matches, Compatible, DeployedSelector;
    var c' := Environment(c, NodeSet(name, labels));
    assert c'.children == c.children && c'.nodes == c.nodes[name := labels];
    forall a, b |
      a in c.children && b in c.children && a != b && a.kind.KindModule? && b.kind.KindModule?
      ensures !(Matches(DeployedSelector(c.children[a]).value, labels) && Matches(DeployedSelector(c.children[b]).value, labels))
    {
      MatchesBothIff(DeployedSelector(c.children[a]).value, DeployedSelector(c.children[b]).value);
    }
  }

  lemma ModulesSelect(y: System)
    requires Inv(y) && PinInv(y) && Exclusive(y)
    ensures forall a :: a in y.c.children && a.kind.KindModule? ==> DeployedSelector(y.c.children[a]).Some?
  {
    hide Inv, PinInv, Snapshot, OneSeesTheOther, SeesDeployed, DeployedDisjoint, ChildKeyOf, DeployedSelector;
    forall a | a in y.c.children && a.kind.KindModule? ensures DeployedSelector(y.c.children[a]).Some? {
      ModuleOf(y, a);
      var k :| a == ChildKeyOf(k, ModuleStage) && HasModule(y.c, k);
      assert ModuleSelector(y.c, k);
    }
  }

  /** Why nodes may only leave: in a reachable state every node that could join or be relabelled keeps
      exclusivity exactly when the selectors of any two stored Modules disagree on some label. */
  lemma {:induction false} JoiningNodeConflictsIffCompatible(y: System, es: seq<Event>)
    requires Initial(y) && SparesAll(y, es) && forall e :: e in es ==> Calm(e)
    ensures (forall name, labels :: NoSharedNode(Environment(Runs(y, es).c, NodeSet(name, labels))))
            <==> ModulesIncompatible(Runs(y, es).c)
  {
    hide Runs, Inv, PinInv, Exclusive, NoSharedNode, Matches, Compatible, DeployedSelector;
    NodeExclusivity(y, es);
    Reachable(y, es);
    PinsReachable(y, es);
    ExclusiveReachable(y, es);
    ModulesSelect(Runs(y, es));
    var c := Runs(y, es).c;
    if ModulesIncompatible(c) {
      forall name, labels ensures NoSharedNode(Environment(c, NodeSet(name, labels))) {
        AfterJoining(c, name, labels);
      }
    } else {
      var a, b :|
        && a in c.children && b in c.children && a != b && a.kind.KindModule? && b.kind.KindModule?
        && Compatible(DeployedSelector(c.children[a]).value, DeployedSelector(c.children[b]).value);
      JoiningBreaks(c, a, b);
    }
  }

  lemma JoiningBreaks(c: World, a: ChildKey, b: ChildKey)
    requires a in c.children && b in c.children && a != b && a.kind.KindModule? && b.kind.KindModule?
    requires DeployedSelector(c.children[a]).Some? && DeployedSelector(c.children[b]).Some?
    requires Compatible(DeployedSelector(c.children[a]).value, DeployedSelector(c.children[b]).value)
    ensures exists name, labels :: !NoSharedNode(Environment(c, NodeSet(name, labels)))
  {
    hide DeployedSelector, Matches, Compatible;
    var labels := DeployedSelector(c.children[a]).value + DeployedSelector(c.children[b]).value;
    MatchesBothIff(DeployedSelector(c.children[a]).value, DeployedSelector(c.children[b]).value);
    var c' := Environment(c, NodeSet("", labels));
    assert "" in c'.nodes && c'.nodes[""] == labels && c'.children == c.children;
    assert !NoSharedNode(c');
  }
}
