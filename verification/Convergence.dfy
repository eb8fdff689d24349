/**
 The requeue loop: a key whose pass ended with an error is tried again. With at most `k` failing
 calls it ends within `k + 1` passes, for a live DeviceConfig and for a deleted one.
 */
module Convergence {
  import opened Wrappers
  import opened Ordering
  import opened Api
  import opened Objects
  import opened Children
  import opened Store
  import opened NodeSelector
  import opened Machine
  import opened Invariant
  import opened Sequential
  import opened Dropping
  import Conditions
  import Finalizers

  /** Passes over one key until one ends without an error, at most `n` of them. */
  function Requeue(key: Key, c: World, tape: seq<Reply>, n: nat): (World, seq<Reply>, Verdict)
    requires 0 < n
    decreases n
  {
    var (c', tape', v) := Pass(key, c, tape);
    if IsError(v) && 1 < n then Requeue(key, c', tape', n - 1) else (c', tape', v)
  }

  /** One of the validator's list calls fails: the first reply of a pass answers the read of the
      DeviceConfig, the next ones the list of DeviceConfigs and a node list for each. */
  predicate ListFails(c: World, tape: seq<Reply>) {
    At(tape, 0).Ok? && exists i :: 1 <= i <= |c.dcs| + 1 && !At(tape, i).Ok?
  }

  // ---------- when the validator refuses ----------

  /** Past the validator a pass is not refused any more. */
  lemma StepNotRefused(w: Worker, c: World, r: Reply)
    requires !w.pc.Start? && !w.pc.ListConfigs? && !w.pc.ListNodes? && w.pc != Done(Refused)
    ensures var pc := Step(w, c, r).0.pc; !pc.Start? && !pc.ListConfigs? && !pc.ListNodes? && pc != Done(Refused)
  {
    hide StepStart, StepListConfigs, StepListNodes;
    hide ChildKeyOf, SetDesired, SetterInput, Conditions.Apply, UpdateStatus, Update, Finalizers.Remove, Finalizers.Add;
    hide CreateChild, PatchChild, DeleteChild;
  }

  lemma {:induction false} NotRefusedLater(w: Worker, c: World, tape: seq<Reply>)
    requires !w.pc.Start? && !w.pc.ListConfigs? && !w.pc.ListNodes? && w.pc != Done(Refused)
    ensures !Run(w, c, tape).2.Refused?
    decreases Phase(w.pc), ListsLeft(w)
  {
    if !w.pc.Done? {
      hide Step;
      StepNotRefused(w, c, Head(tape));
      StepMakesProgress(w, c, Head(tape));
      var (w', c') := Step(w, c, Head(tape));
      NotRefusedLater(w', c', Tail(tape));
    }
  }

  lemma FinishRefuses(w: Worker, c: World, tape: seq<Reply>)
    requires w.listed == ListDeviceConfigs(c) && w.names == AllNames(c, w.listed)
    ensures var (w', c') := FinishCheck(w, c); Run(w', c', tape).2.Refused? <==> !ConflictFree(c)
  {
    hide Run, ListDeviceConfigs, AllNames, PairwiseDisjoint, NoDup, Finalizers.Contains;
    ScanIsExact(c, w.listed);
    var (w', c') := FinishCheck(w, c);
    if w'.pc.Done? { Ends(w', c', tape); } else { NotRefusedLater(w', c', tape); }
  }

  lemma {:induction false} ListNodesRefuse(c: World, w: Worker, tape: seq<Reply>)
    requires w.pc.ListNodes? && w.listed == ListDeviceConfigs(c) && w.pc.i < |w.listed|
    requires w.names == AllNames(c, w.listed[..w.pc.i])
    ensures Run(w, c, tape).2.Refused? <==>
            (exists j :: 0 <= j < |w.listed| - w.pc.i && !At(tape, j).Ok?) || !ConflictFree(c)
    decreases ListsLeft(w)
  {
    hide Run, AllNames, SelectedNames, ListDeviceConfigs, NoDup, ConflictFree, Step, FinishCheck;
    var (r, i) := (Head(tape), w.pc.i);
    StepIsListNodes(w, c, r);
    Calls(w, c, tape);
    if !r.Ok? {
      assert !At(tape, 0).Ok?;
      Ends(Refuse(w, c).0, Refuse(w, c).1, Tail(tape));
    } else {
      OneMoreList(c, w.listed, i);
      Shift(tape, |w.listed| - i);
      var w1 := w.(names := w.names + SelectedNames(c, w.listed[i]));
      if i + 1 == |w.listed| {
        FinishRefuses(w1, c, Tail(tape));
      } else {
        ListNodesRefuse(c, w1.(pc := ListNodes(i + 1)), Tail(tape));
      }
    }
  }

  lemma Shift(tape: seq<Reply>, n: nat)
    requires Head(tape).Ok? && 0 < n
    ensures (exists j :: 0 <= j < n && !At(tape, j).Ok?) <==> (exists j :: 0 <= j < n - 1 && !At(Tail(tape), j).Ok?)
  {
    if j :| 0 <= j < n && !At(tape, j).Ok? {
      assert At(Tail(tape), j - 1) == At(tape, j);
    }
    if j :| 0 <= j < n - 1 && !At(Tail(tape), j).Ok? {
      assert At(tape, j + 1) == At(Tail(tape), j);
    }
  }

  lemma StepIsListNodes(w: Worker, c: World, r: Reply)
    ensures w.pc.ListNodes? ==> Step(w, c, r) == StepListNodes(w, c, r, w.pc.i)
    ensures w.pc.ListConfigs? ==> Step(w, c, r) == StepListConfigs(w, c, r)
    ensures w.pc.Start? ==> Step(w, c, r) == StepStart(w, c, r)
  {
    hide StepStart, StepDeleteModule, StepRemoveFinalizer, StepListConfigs, StepListNodes, StepAddFinalizer;
    hide StepReadChild, StepRereadChild, StepWriteChild, StepReportError, StepReportReady;
  }

  lemma ListConfigsRefuse(c: World, w: Worker, tape: seq<Reply>)
    requires w.pc.ListConfigs?
    ensures Run(w, c, tape).2.Refused? <==>
            (exists j :: 0 <= j < |c.dcs| + 1 && !At(tape, j).Ok?) || !ConflictFree(c)
  {
    hide Run, AllNames, SelectedNames, ListDeviceConfigs, NoDup, ConflictFree, Step, FinishCheck;
    var r := Head(tape);
    StepIsListNodes(w, c, r);
    Calls(w, c, tape);
    if !r.Ok? {
      assert !At(tape, 0).Ok?;
      Ends(Refuse(w, c).0, Refuse(w, c).1, Tail(tape));
    } else {
      Shift(tape, |c.dcs| + 1);
      var w1 := w.(listed := ListDeviceConfigs(c), names := []);
      NoNamesYet(c, w1.listed);
      if w1.listed == [] {
        FinishRefuses(w1, c, Tail(tape));
      } else {
        ListNodesRefuse(c, w1.(pc := ListNodes(0)), Tail(tape));
      }
    }
  }

  /** A live DeviceConfig is refused exactly when it can be read and one of the validator's own list
      calls fails or some two stored DeviceConfigs share a node; the pass then ends without an error. */
  lemma {:induction false} RefusedIff(key: Key, c: World, tape: seq<Reply>)
    requires key in c.dcs && !c.dcs[key].deleting
    ensures Pass(key, c, tape).2.Refused? <==> At(tape, 0).Ok? && (ListFails(c, tape) || !ConflictFree(c))
    ensures !IsError(Refused)
  {
    hide Run, Step, ConflictFree;
    var w := NewWorker(key);
    StepIsListNodes(w, c, Head(tape));
    Calls(w, c, tape);
    var (w', c') := StepStart(w, c, Head(tape));
    if Head(tape).Ok? {
      ListConfigsRefuse(c', w', Tail(tape));
      TailShift(tape, |c.dcs| + 1);
    } else {
      Ends(w', c', Tail(tape));
    }
  }

  lemma NewIsAlone(c: World, key: Key)
    ensures Alone(c, NewWorker(key)) && NewWorker(key).key == key
  {
    hide ChildKeyOf, Conforms;
  }

  lemma TailShift(tape: seq<Reply>, n: nat)
    ensures (exists i :: 1 <= i <= n && !At(tape, i).Ok?) <==> (exists j :: 0 <= j < n && !At(Tail(tape), j).Ok?)
  {
    if i :| 1 <= i <= n && !At(tape, i).Ok? {
      assert At(Tail(tape), i - 1) == At(tape, i);
    }
    if j :| 0 <= j < n && !At(Tail(tape), j).Ok? {
      assert At(tape, j + 1) == At(Tail(tape), j);
    }
  }

  // ---------- a live DeviceConfig ----------

  /** Nothing changes but what belongs to `k`. */
  ghost predicate OthersStay(c: World, c': World, k: Key) {
    && c'.nodes == c.nodes && c'.settings == c.settings && c'.nextUid == c.nextUid
    && c'.dcs.Keys == c.dcs.Keys
    && (forall j :: j in c.dcs && j != k ==> c'.dcs[j] == c.dcs[j])
    && (forall ck :: (forall s :: ck != ChildKeyOf(k, s)) ==> Lookup(c', ck) == Lookup(c, ck))
  }

  /** The world a pass leaves behind, with the specification it worked from put back. They differ
      only if the pass left an empty selector out. */
  function AsHeld(c: World, c': World, k: Key): World
    requires k in c.dcs && k in c'.dcs
  {
    Respec(c', k, c.dcs[k].spec)
  }

  /** One lone pass under any replies. It changes only what is its own, towards what the specification
      it found asks for; unless a call fails it applies everything and reports Ready; and then what is
      stored has what it asks for exactly when the finalizer write left nothing out. */
  lemma {:induction false} PassAlone(key: Key, c: World, tape: seq<Reply>)
    requires Healthy(c, key)
    ensures var (c', tape', v) := Pass(key, c, tape);
            && Healthy(c', key) && StoredAs(c.dcs[key].spec, c'.dcs[key].spec) && Frame(c, AsHeld(c, c', key), key)
            && (v.Applied? || v.Refused? || IsError(v))
            && (Kept(c, key) ==> c' == AsHeld(c, c', key) && Kept(c', key))
            && (v.Applied? ==> Kept(c', key) && Settled(AsHeld(c, c', key), key) && (Settled(c', key) <==> Kept(c, key)))
            && (!v.Applied? ==> Faults(tape') < Faults(tape))
            && Faults(tape') <= Faults(tape)
  {
    hide Frame, Settled, Alone, Run, Plain;
    NewIsAlone(c, key);
    HealthyFacts(c, key);
    assert NewWorker(key).pc == Start by { StartsFresh(key); }
    hide Healthy;
    var (c', tape', v) := Pass(key, c, tape);
    if Kept(c, key) {
      KeptPass(key, c, tape);
    } else {
      DroppingRun(c, NewWorker(key), tape);
    }
    assert v.Applied? || v.Refused? || v.ReadFailed? || v.FinalizerFailed? || v.StageFailed? || v.StatusFailed?;
  }

  lemma StartsFresh(key: Key)
    ensures NewWorker(key).pc == Start
  {
  }

  lemma KeptPass(key: Key, c: World, tape: seq<Reply>)
    requires Healthy(c, key) && Kept(c, key)
    ensures var (c', tape', v) := Pass(key, c, tape);
            && Healthy(c', key) && Frame(c, c', key) && c'.dcs[key].spec == c.dcs[key].spec && Kept(c', key)
            && c' == AsHeld(c, c', key)
            && (v.Applied? || v.Refused? || v.ReadFailed? || v.FinalizerFailed? || v.StageFailed? || v.StatusFailed?)
            && (v.Applied? ==> Settled(c', key))
            && (!v.Applied? ==> Faults(tape') < Faults(tape))
            && Faults(tape') <= Faults(tape)
  {
    hide Healthy, Settled, Alone, Run, Frame, Kept, NewWorker, Respec;
    NewIsAlone(c, key);
    RunAlone(c, NewWorker(key), tape);
    var c' := Pass(key, c, tape).0;
    KeptStays(c, c', key);
    HealthyFacts(c, key);
    HealthyFacts(c', key);
    assert NewWorker(key).pc == Start by { StartsFresh(key); }
    SameSpecIsAsHeld(c, c', key);
  }

  lemma SameSpecIsAsHeld(c: World, c': World, key: Key)
    requires key in c.dcs && key in c'.dcs && Frame(c, c', key)
    ensures c'.dcs[key].spec == c.dcs[key].spec && c' == AsHeld(c, c', key)
  {
    hide Target, ChildKeyOf;
    assert c'.dcs[key := c'.dcs[key]] == c'.dcs;
  }

  lemma FrameIsOthers(c: World, c': World, k: Key)
    requires k in c.dcs && k in c'.dcs && Frame(c, AsHeld(c, c', k), k)
    ensures OthersStay(c, c', k)
  {
    hide Target, ChildKeyOf, SameIdentity;
    assert c'.dcs.Keys == AsHeld(c, c', k).dcs.Keys;
  }

  lemma OthersTransitive(a: World, b: World, c: World, k: Key)
    requires OthersStay(a, b, k) && OthersStay(b, c, k)
    ensures OthersStay(a, c, k)
  {
    hide ChildKeyOf;
  }

  /** In no pass of the loop does one of the validator's list calls fail. */
  predicate ListsSucceed(key: Key, c: World, tape: seq<Reply>, n: nat)
    requires 0 < n
    decreases n
  {
    var (c', tape', v) := Pass(key, c, tape);
    !ListFails(c, tape) && (IsError(v) && 1 < n ==> ListsSucceed(key, c', tape', n - 1))
  }

  /** With at most `k` failed calls, writes that took effect included, the loop ends without an
      error within `k + 1` passes. Unless the last pass was refused because one of the validator's
      list calls failed in it, it has applied everything and reported Ready: what is stored asks for,
      if the write of the finalizer leaves nothing out, and otherwise that or what it asked for at the
      start. */
  lemma {:induction false} RetriesConverge(key: Key, c: World, tape: seq<Reply>, k: nat)
    requires Healthy(c, key) && Faults(tape) <= k
    ensures var (c', _, v) := Requeue(key, c, tape, k + 1);
            && Healthy(c', key) && OthersStay(c, c', key)
            && (v.Applied? || v.Refused?)
            && (ListsSucceed(key, c, tape, k + 1) ==> v.Applied?)
            && (v.Applied? ==> Kept(c', key))
            && (v.Applied? && Kept(c, key) ==> Settled(c', key))
            && (v.Applied? ==> Settled(c', key) || Settled(AsHeld(c, c', key), key))
    decreases k
  {
    hide Frame, Settled, Pass, ListFails, ConflictFree, Plain;
    PassAlone(key, c, tape);
    RefusedIff(key, c, tape);
    var (c1, tape1, v) := Pass(key, c, tape);
    FrameIsOthers(c, c1, key);
    HealthyFacts(c, key);
    HealthyFacts(c1, key);
    IsConflictFree(c, key);
    hide Healthy;
    if IsError(v) {
      RetriesConverge(key, c1, tape1, k - 1);
      var c2 := Requeue(key, c1, tape1, k).0;
      OthersTransitive(c, c1, c2, key);
      if !Kept(c1, key) { StillHeld(c.dcs[key].spec, c1.dcs[key].spec); }
    }
  }

  lemma IsConflictFree(c: World, key: Key)
    requires Healthy(c, key)
    ensures ConflictFree(c)
  {
  }

  lemma StillHeld(held: Spec, stored: Spec)
    requires StoredAs(held, stored) && !Plain(stored)
    ensures stored == held
  {
  }

  /** Where the loop ends, one more pass without failures settles everything, whatever was left out
      before. */
  lemma {:induction false} OneMorePassSettles(key: Key, c: World)
    requires Healthy(c, key) && Kept(c, key)
    ensures var (c', _, v) := Pass(key, c, []); v.Applied? && Settled(c', key)
  {
    hide Healthy, Frame, Settled, Pass, Kept;
    PassAlone(key, c, []);
  }

  // ---------- a deleted DeviceConfig ----------

  /** What deleting an object leaves of it: nothing, or the marked object if it carries finalizers. */
  function LeftOf(o: Option<Object>): Option<Object> {
    match o
    case None => None
    case Some(x) => if x.finalizers == [] then None else Some(x.(deleting := true))
  }

  function StoredModule(c: World, k: Key): Option<Object> {
    Lookup(c, ChildKeyOf(k, ModuleStage))
  }

  /** Deleted by a user and waiting for the operator, with `rest` the finalizers of others and `left`
      what deleting the Module will leave of it. */
  ghost predicate Doomed(c: World, k: Key, rest: seq<string>, left: Option<Object>) {
    && StoreOk(c) && k in c.dcs && c.dcs[k].deleting
    && Finalizers.Contains(c.dcs[k].finalizers)
    && Finalizers.Remove(c.dcs[k].finalizers, DELETION_FINALIZER) == rest
    && LeftOf(StoredModule(c, k)) == left
  }

  /** The Module has been deleted and the operator's finalizer is gone; without other finalizers the
      DeviceConfig is gone too. */
  ghost predicate Released(c: World, k: Key, rest: seq<string>, left: Option<Object>) {
    && StoredModule(c, k) == left && LeftOf(left) == left
    && !Finalizers.Contains(rest)
    && (if rest == [] then k !in c.dcs else k in c.dcs && c.dcs[k].key == k && c.dcs[k].deleting && c.dcs[k].finalizers == rest)
  }

  ghost predicate Deleting(c: World, w: Worker, rest: seq<string>, left: Option<Object>) {
    && w.cr.key == w.key
    && match w.pc
       case Start => Doomed(c, w.key, rest, left) || Released(c, w.key, rest, left)
       case DeleteModule => Doomed(c, w.key, rest, left) && c.dcs[w.key] == w.cr
       case RemoveFinalizer =>
         Doomed(c, w.key, rest, left) && c.dcs[w.key] == w.cr && StoredModule(c, w.key) == left
       case _ => false
  }

  ghost predicate DeletionGoesOn(c: World, w: Worker, r: Reply, rest: seq<string>, left: Option<Object>) {
    var (w', c') := Step(w, c, r);
    && w'.key == w.key
    && (w'.pc.Done? ==>
          && (Doomed(c', w.key, rest, left) || Released(c', w.key, rest, left))
          && (r.Ok? ==> Released(c', w.key, rest, left) && (w'.pc.verdict.Gone? || w'.pc.verdict.Deleted?))
          && (!r.Ok? ==> IsError(w'.pc.verdict)))
    && (!w'.pc.Done? ==> Deleting(c', w', rest, left) && r.Ok?)
  }

  lemma ModuleDeleted(c: World, k: Key)
    ensures var (c', e) := DeleteChild(c, ChildKeyOf(k, ModuleStage));
            && StoredModule(c', k) == LeftOf(StoredModule(c, k)) && c' == c.(children := c'.children)
            && (e == Nil || (e == NotFound && c' == c))
    ensures LeftOf(LeftOf(StoredModule(c, k))) == LeftOf(StoredModule(c, k))
  {
    hide ChildKeyOf;
  }

  lemma DeletionStep(c: World, w: Worker, r: Reply, rest: seq<string>, left: Option<Object>)
    requires Deleting(c, w, rest, left)
    ensures DeletionGoesOn(c, w, r, rest, left)
  {
    if w.pc.DeleteModule? {
      DeletionStepModule(c, w, r, rest, left);
    } else if w.pc.RemoveFinalizer? {
      DeletionStepFinalizer(c, w, r, rest, left);
    } else {
      hide ChildKeyOf, LeftOf, Lookup;
      hide StepDeleteModule, StepRemoveFinalizer, StepListConfigs, StepListNodes, StepAddFinalizer;
      hide StepReadChild, StepRereadChild, StepWriteChild, StepReportError, StepReportReady;
    }
  }

  lemma DeletionStepModule(c: World, w: Worker, r: Reply, rest: seq<string>, left: Option<Object>)
    requires Deleting(c, w, rest, left) && w.pc.DeleteModule?
    ensures DeletionGoesOn(c, w, r, rest, left)
  {
    ModuleDeleted(c, w.key);
    hide ChildKeyOf, LeftOf, StoredModule, DeleteChild, Finalizers.Remove;
    hide StepStart, StepRemoveFinalizer, StepListConfigs, StepListNodes, StepAddFinalizer;
    hide StepReadChild, StepRereadChild, StepWriteChild, StepReportError, StepReportReady;
  }

  lemma DeletionStepFinalizer(c: World, w: Worker, r: Reply, rest: seq<string>, left: Option<Object>)
    requires Deleting(c, w, rest, left) && w.pc.RemoveFinalizer?
    ensures DeletionGoesOn(c, w, r, rest, left)
  {
    ModuleDeleted(c, w.key);
    Finalizers.RemoveLaws(w.cr.finalizers, DELETION_FINALIZER);
    hide ChildKeyOf, LeftOf, DeleteChild, Encoded;
    hide StepStart, StepDeleteModule, StepListConfigs, StepListNodes, StepAddFinalizer;
    hide StepReadChild, StepRereadChild, StepWriteChild, StepReportError, StepReportReady;
  }

  lemma {:induction false} DeletionRun(c: World, w: Worker, tape: seq<Reply>, rest: seq<string>, left: Option<Object>)
    requires Deleting(c, w, rest, left)
    ensures var (c', tape', v) := Run(w, c, tape);
            && (Doomed(c', w.key, rest, left) || Released(c', w.key, rest, left))
            && (IsError(v) ==> Faults(tape') < Faults(tape))
            && (!IsError(v) ==> Released(c', w.key, rest, left))
            && Faults(tape') <= Faults(tape)
    decreases Phase(w.pc)
  {
    hide Step, Doomed, Released;
    DeletionStep(c, w, Head(tape), rest, left);
    StepMakesProgress(w, c, Head(tape));
    var (w', c') := Step(w, c, Head(tape));
    if w'.pc.Done? {
      assert Run(w', c', Tail(tape)) == (c', Tail(tape), w'.pc.verdict);
    } else {
      DeletionRun(c', w', Tail(tape), rest, left);
    }
  }

  /** With at most `k` failed calls the loop ends without an error within `k + 1` passes, with the
      operator's finalizer gone and the Module deleted: gone, or marked if others hold on to it. Starting
      again after any partial failure or lost acknowledgement is part of the loop. */
  lemma {:induction false} DeletionTerminates(key: Key, c: World, tape: seq<Reply>, k: nat, rest: seq<string>, left: Option<Object>)
    requires (Doomed(c, key, rest, left) || Released(c, key, rest, left)) && Faults(tape) <= k
    ensures var (c', _, v) := Requeue(key, c, tape, k + 1);
            !IsError(v) && Released(c', key, rest, left)
    decreases k
  {
    hide Doomed, Released, Run;
    DeletionRun(c, NewWorker(key), tape, rest, left);
    var (c', tape', v) := Pass(key, c, tape);
    if IsError(v) {
      DeletionTerminates(key, c', tape', k - 1, rest, left);
    }
  }

  /** In particular, if the operator's finalizer is the only one, the DeviceConfig is gone, and the
      Module is gone with it exactly when nobody else holds on to it. */
  lemma {:induction false} DeletionRemovesDeviceConfig(key: Key, c: World, tape: seq<Reply>, k: nat)
    requires StoreOk(c) && key in c.dcs && c.dcs[key].deleting && c.dcs[key].finalizers == [DELETION_FINALIZER]
    requires Faults(tape) <= k
    ensures var c' := Requeue(key, c, tape, k + 1).0;
            var ck := ChildKeyOf(key, ModuleStage);
            && key !in c'.dcs
            && (ck !in c'.children <==> (ck in c.children ==> c.children[ck].finalizers == []))
  {
    hide Requeue, ChildKeyOf;
    assert Finalizers.Remove([DELETION_FINALIZER], DELETION_FINALIZER) == [];
    DeletionTerminates(key, c, tape, k, [], LeftOf(StoredModule(c, key)));
  }

  /** The controller goes on to its finalizer after an acknowledged Delete, and the Module is gone by
      then exactly when nobody else holds on to it. */
  lemma AcknowledgedDeleteIff(c: World, w: Worker)
    requires w.pc.DeleteModule? && w.cr.key == w.key
    ensures var (w', c') := StepDeleteModule(w, c, Ok);
            var ck := ChildKeyOf(w.key, ModuleStage);
            && w'.pc.RemoveFinalizer?
            && (ck !in c'.children <==> (ck in c.children ==> c.children[ck].finalizers == []))
  {
    hide ChildKeyOf;
  }
}
