/**
 The controller itself, as it is written: calls that update the cluster and the DeviceConfig in
 place, with early returns. Every method is proved against the machine: from the worker `w` it is
 given, the machine's run from the old cluster is its run from the new one. What is proved about
 `Machine.Pass` therefore holds of `Reconcile`.
 */
module Reconciler {
  import opened Wrappers
  import opened Ordering
  import opened Api
  import opened Objects
  import opened Children
  import opened Store
  import opened Machine
  import opened Client
  import Conditions
  import Finalizers
  import NodeSelector
  import KmmModule
  import NodeLabeler
  import NodeMetrics

  lemma StepCases(w: Worker, c: World, r: Reply)
    ensures match w.pc
            case Start => Step(w, c, r) == StepStart(w, c, r)
            case DeleteModule => Step(w, c, r) == StepDeleteModule(w, c, r)
            case RemoveFinalizer => Step(w, c, r) == StepRemoveFinalizer(w, c, r)
            case ListConfigs => Step(w, c, r) == StepListConfigs(w, c, r)
            case ListNodes(i) => Step(w, c, r) == StepListNodes(w, c, r, i)
            case AddFinalizer => Step(w, c, r) == StepAddFinalizer(w, c, r)
            case ReadChild(s) => Step(w, c, r) == StepReadChild(w, c, r, s)
            case RereadChild(s) => Step(w, c, r) == StepRereadChild(w, c, r, s)
            case WriteChild(s) => Step(w, c, r) == StepWriteChild(w, c, r, s)
            case ReportError(s) => Step(w, c, r) == StepReportError(w, c, r, s)
            case ReportReady => Step(w, c, r) == StepReportReady(w, c, r)
            case Done(_) => Step(w, c, r) == (w, c)
  {
    hide StepStart, StepDeleteModule, StepRemoveFinalizer, StepListConfigs, StepListNodes, StepAddFinalizer;
    hide StepReadChild, StepRereadChild, StepWriteChild, StepReportError, StepReportReady;
  }

  /** The run of the machine from `w`, one call later. */
  lemma OneCall(w: Worker, c: World, tape: seq<Reply>, w': Worker, c': World)
    requires !w.pc.Done? && Step(w, c, Head(tape)) == (w', c')
    ensures Run(w, c, tape) == Run(w', c', Tail(tape))
  {
    hide Step;
    Calls(w, c, tape);
  }

  // ---------- finalizers ----------

  method AddDeletionFinalizer(client: Cluster, cr: DeviceConfigObject, ghost w: Worker) returns (err: Error, ghost w': Worker)
    requires w.pc.AddFinalizer? && w.cr == cr.value
    modifies client`dcs, client`nextRv, client`replies, cr
    ensures (w', client.View()) == StepAddFinalizer(w, old(client.View()), Head(old(client.replies)))
    ensures client.replies == Tail(old(client.replies)) && w'.cr == cr.value
    ensures err == Nil <==> !w'.pc.Done?
  {
    w' := StepAddFinalizer(w, client.View(), Head(client.replies)).0;
    Finalizers.AddFinalizer(cr, DELETION_FINALIZER);
    err := client.Update(cr);
  }

  method RemoveDeletionFinalizer(client: Cluster, cr: DeviceConfigObject, ghost w: Worker) returns (err: Error, ghost w': Worker)
    requires w.pc.RemoveFinalizer? && w.cr == cr.value
    modifies client`dcs, client`nextRv, client`replies, cr
    ensures (w', client.View()) == StepRemoveFinalizer(w, old(client.View()), Head(old(client.replies)))
    ensures client.replies == Tail(old(client.replies)) && w'.cr == cr.value
    ensures w'.pc == if err == Nil then Done(Deleted) else Done(DeletionFailed)
  {
    w' := StepRemoveFinalizer(w, client.View(), Head(client.replies)).0;
    Finalizers.RemoveFinalizer(cr, DELETION_FINALIZER);
    err := client.Update(cr);
  }

  // ---------- conditions ----------

  method SetStatusCondition(cr: DeviceConfigObject, c: Condition, now: nat)
    modifies cr
    ensures cr.value == old(cr.value).(conditions := Conditions.SetStatusCondition(old(cr.value.conditions), c, now))
  {
    var cs := cr.value.conditions;
    var i := 0;
    while i < |cs| && cs[i].kind != c.kind
      invariant i <= |cs| && forall j :: 0 <= j < i ==> cs[j].kind != c.kind
    {
      i := i + 1;
    }
    if i == |cs| {
      cs := cs + [c.(lastTransition := now)];
    } else if cs[i].status != c.status {
      cs := cs[i := c.(lastTransition := now)];
    } else {
      cs := cs[i := c.(lastTransition := cs[i].lastTransition)];
    }
    assert i == Conditions.IndexOf(cr.value.conditions, c.kind);
    cr.value := cr.value.(conditions := cs);
  }

  method SetConditionsReady(client: Cluster, cr: DeviceConfigObject, reason: string, message: string) returns (err: Error)
    modifies client`dcs, client`nextRv, client`replies, cr
    ensures client.replies == Tail(old(client.replies))
    ensures var next := old(cr.value).(conditions := Conditions.Apply(
              old(cr.value.conditions), Conditions.ReadyUpdate(reason, message), old(client.clock)));
            var (c', res) := Delivered(Head(old(client.replies)), old(client.View()), Store.UpdateStatus(old(client.View()), next));
            && client.View() == c'
            && (err == Nil <==> res.Success?)
            && cr.value == if res.Success? then res.value else next
  {
    hide Conditions.SetStatusCondition;
    SetStatusCondition(cr, Condition(Conditions.READY, ConditionTrue, reason, message, 0), client.clock);
    SetStatusCondition(cr, Condition(Conditions.ERRORED, ConditionFalse, Conditions.READY, "", 0), client.clock);
    err := client.UpdateStatus(cr);
  }

  method SetConditionsErrored(client: Cluster, cr: DeviceConfigObject, reason: string, message: string) returns (err: Error)
    modifies client`dcs, client`nextRv, client`replies, cr
    ensures client.replies == Tail(old(client.replies))
    ensures var next := old(cr.value).(conditions := Conditions.Apply(
              old(cr.value.conditions), Conditions.ErroredUpdate(reason, message), old(client.clock)));
            var (c', res) := Delivered(Head(old(client.replies)), old(client.View()), Store.UpdateStatus(old(client.View()), next));
            && client.View() == c'
            && (err == Nil <==> res.Success?)
            && cr.value == if res.Success? then res.value else next
  {
    hide Conditions.SetStatusCondition;
    SetStatusCondition(cr, Condition(Conditions.READY, ConditionFalse, Conditions.ERRORED, "", 0), client.clock);
    SetStatusCondition(cr, Condition(Conditions.ERRORED, ConditionTrue, reason, message, 0), client.clock);
    err := client.UpdateStatus(cr);
  }

  // ---------- node selector validation ----------

  /** `dc` is the loop's own copy: a nil selector is replaced in it by the effective one. */
  method GetDeviceConfigSelectedNodes(client: Cluster, dc: DeviceConfigObject) returns (items: seq<Node>, err: Error)
    modifies client`replies, dc
    ensures client.replies == Tail(old(client.replies))
    ensures dc.value == old(dc.value).(spec := old(dc.value.spec).(nodeSelector := Some(Selector(old(dc.value)))))
    ensures if Head(old(client.replies)).Ok? then err == Nil && items == SelectNodes(client.View(), Selector(old(dc.value)))
            else err == Unavailable
  {
    if dc.value.spec.nodeSelector.None? {
      dc.value := dc.value.(spec := dc.value.spec.(nodeSelector := Some(GetNodeSelector(dc.value.spec, []))));
    }
    items, err := client.ListNodes(dc.value.spec.nodeSelector.value);
  }

  /** The machine after one more node list. */
  function WithNames(w: Worker, c: World, i: nat): Worker
    requires i < |w.listed|
  {
    w.(names := w.names + NodeSelector.SelectedNames(c, w.listed[i]),
       pc := if i + 1 == |w.listed| then w.pc else ListNodes(i + 1))
  }

  function WithConfigs(w: Worker, c: World): Worker {
    var items := ListDeviceConfigs(c);
    w.(listed := items, names := [], pc := if items == [] then w.pc else ListNodes(0))
  }

  lemma ListFailed(w: Worker, c: World, tape: seq<Reply>)
    requires (w.pc.ListConfigs? || w.pc.ListNodes?) && !Head(tape).Ok?
    ensures Run(w, c, tape) == Run(Refuse(w, c).0, Refuse(w, c).1, Tail(tape))
  {
    hide Refuse, Run;
    StepCases(w, c, Head(tape));
    Calls(w, c, tape);
  }

  lemma ConfigsListed(w: Worker, c: World, tape: seq<Reply>)
    requires w.pc.ListConfigs? && Head(tape).Ok?
    ensures var w' := WithConfigs(w, c);
            Run(w, c, tape) ==
            if w'.listed == [] then Run(FinishCheck(w', c).0, FinishCheck(w', c).1, Tail(tape)) else Run(w', c, Tail(tape))
  {
    hide FinishCheck, Run, ListDeviceConfigs, Step;
    StepCases(w, c, Head(tape));
    Calls(w, c, tape);
  }

  lemma NodesListed(w: Worker, c: World, tape: seq<Reply>, i: nat)
    requires w.pc == ListNodes(i) && i < |w.listed| && Head(tape).Ok?
    ensures var w' := WithNames(w, c, i);
            Run(w, c, tape) ==
            if i + 1 < |w.listed| then Run(w', c, Tail(tape)) else Run(FinishCheck(w', c).0, FinishCheck(w', c).1, Tail(tape))
  {
    hide Run, NodeSelector.SelectedNames, Step;
    StepCases(w, c, Head(tape));
    Calls(w, c, tape);
  }

  /** The validator. With its calls going through it accepts exactly when no node is selected by two
      of the DeviceConfigs in the cluster; `cr` is neither consulted nor changed. */
  method CheckForConflictingNodeSelector(client: Cluster, cr: DeviceConfigObject, ghost w: Worker)
    returns (err: Error, ghost w': Worker)
    requires w.pc.ListConfigs?
    modifies client`replies
    ensures client.View() == old(client.View())
    ensures w'.cr == w.cr && w'.key == w.key
    ensures var (w2, c2) := if err == Nil then FinishCheck(w', client.View()) else Refuse(w', client.View());
            Run(w, old(client.View()), old(client.replies)) == Run(w2, c2, client.replies)
    ensures err == Nil ==> NoDup(w'.names) && NodeSelector.ConflictFree(client.View())
    ensures err == ConflictingSelectors ==> !NodeSelector.ConflictFree(client.View())
    ensures err == Nil || err == ConflictingSelectors || err == Unavailable
    ensures err == Unavailable <==> exists i :: 0 <= i <= |client.dcs| && !At(old(client.replies), i).Ok?
  {
    hide Run, FinishCheck, Refuse, ListDeviceConfigs, NoDup, SelectNodes, After;
    hide NodeSelector.ConflictFree, NodeSelector.SelectedNames, NodeSelector.AllNames;
    ghost var c, tape := client.View(), client.replies;
    AfterNone(tape);
    AfterOneMore(tape, 0);
    w' := w;
    var dcs;
    dcs, err := client.ListDeviceConfigs();
    if err != Nil {
      ListFailed(w, c, tape);
      assert !At(tape, 0).Ok?;
      return;
    }
    ConfigsListed(w, c, tape);
    NodeSelector.NoNamesYet(c, dcs);
    w' := WithConfigs(w, c);
    var names: seq<string> := [];
    for i := 0 to |dcs|
      invariant client.View() == c && |dcs| == |client.dcs|
      invariant forall j :: 0 <= j <= i ==> At(tape, j).Ok?
      invariant client.replies == After(tape, i + 1)
      invariant w'.listed == dcs == ListDeviceConfigs(c) && w'.names == names && w'.cr == w.cr && w'.key == w.key
      invariant names == NodeSelector.AllNames(c, dcs[..i])
      invariant i < |dcs| ==> w'.pc == ListNodes(i)
      invariant Run(w, c, tape) ==
                if i < |dcs| then Run(w', c, client.replies)
                else Run(FinishCheck(w', c).0, FinishCheck(w', c).1, client.replies)
    {
      NodeSelector.OneMoreList(c, dcs, i);
      AfterOneMore(tape, i + 1);
      ghost var before, here := names, client.replies;
      var dc := new DeviceConfigObject(dcs[i]);
      var nodeList, nerr := GetDeviceConfigSelectedNodes(client, dc);
      if nerr != Nil {
        ListFailed(w', c, here);
        assert !At(tape, i + 1).Ok?;
        err := nerr;
        return;
      }
      NodesListed(w', c, here, i);
      for j := 0 to |nodeList|
        invariant names == before + Names(nodeList[..j])
      {
        names := names + [nodeList[j].name];
      }
      NamesOf(c, dcs[i], nodeList);
      w' := WithNames(w', c, i);
    }
    assert dcs[..|dcs|] == dcs;
    ScanDecides(c, names);
    var dup := NodeSelector.ContainsDuplicates(names);
    if dup {
      FinishRefuses(w', c);
      err := ConflictingSelectors;
    }
  }

  lemma ScanDecides(c: World, names: seq<string>)
    requires names == NodeSelector.AllNames(c, ListDeviceConfigs(c))
    ensures NoDup(names) <==> NodeSelector.ConflictFree(c)
  {
    hide ListDeviceConfigs, NodeSelector.AllNames, NodeSelector.PairwiseDisjoint, NoDup;
    NodeSelector.ScanIsExact(c, ListDeviceConfigs(c));
  }

  lemma NamesOf(c: World, d: DeviceConfig, nodeList: seq<Node>)
    requires nodeList == SelectNodes(c, Selector(d))
    ensures nodeList[..|nodeList|] == nodeList
    ensures Names(nodeList) == NodeSelector.SelectedNames(c, d)
  {
  }

  lemma FinishRefuses(w: Worker, c: World)
    requires !NoDup(w.names)
    ensures FinishCheck(w, c) == Refuse(w, c)
  {
  }

  // ---------- children ----------

  method SetDesiredChild(s: Stage, o: ChildObject, cr: DeviceConfig, st: Settings) returns (err: Error)
    modifies o
    ensures match SetDesired(s, old(o.Value()), cr, st)
            case Success(o') => err == Nil && o.Value() == o'
            case Failure(e) => err == e && err != Nil
  {
    hide SetControllerReference;
    SetterErrors(s, o.Value(), cr, st);
    match s
    case ModuleStage => err := KmmModule.SetDesiredModule(o, cr, st);
    case LabelerStage => err := NodeLabeler.SetDesiredNodeLabelerDaemonSet(o, cr, st);
    case MetricsStage => err := NodeMetrics.SetDesiredNodeMetricsDaemonSet(o, cr, st);
    case ServiceStage => err := NodeMetrics.SetDesiredNodeMetricsService(o, cr);
  }

  lemma SetterErrors(s: Stage, o: Object, cr: DeviceConfig, st: Settings)
    ensures SetDesired(s, o, cr, st).Failure? ==> SetDesired(s, o, cr, st).error == AlreadyOwned
  {
  }

  /** A stage ended: with no error the machine advances past it, else it reports the error. */
  ghost predicate StageEnds(w: Worker, c: World, tape: seq<Reply>, s: Stage, err: Error,
                            w': Worker, c': World, tape': seq<Reply>)
  {
    && w'.key == w.key && w'.cr == w.cr
    && if err == Nil then Run(w, c, tape) == Run(Advance(w', c', s).0, Advance(w', c', s).1, tape')
       else w'.pc == ReportError(s) && w'.err == err && Run(w, c, tape) == Run(w', c', tape')
  }

  lemma ReadStep(w: Worker, c: World, tape: seq<Reply>, s: Stage)
    requires w.pc == ReadChild(s)
    ensures var (w', c') := StepReadChild(w, c, Head(tape), s); Run(w, c, tape) == Run(w', c', Tail(tape))
  {
    hide Run, StepReadChild, Step;
    StepCases(w, c, Head(tape));
    Calls(w, c, tape);
  }

  lemma RereadStep(w: Worker, c: World, tape: seq<Reply>, s: Stage)
    requires w.pc == RereadChild(s)
    ensures var (w', c') := StepRereadChild(w, c, Head(tape), s); Run(w, c, tape) == Run(w', c', Tail(tape))
  {
    hide Run, StepRereadChild, Step;
    StepCases(w, c, Head(tape));
    Calls(w, c, tape);
  }

  lemma WriteStep(w: Worker, c: World, tape: seq<Reply>, s: Stage)
    requires w.pc == WriteChild(s)
    ensures var (w', c') := StepWriteChild(w, c, Head(tape), s); Run(w, c, tape) == Run(w', c', Tail(tape))
  {
    hide Run, StepWriteChild, Step;
    StepCases(w, c, Head(tape));
    Calls(w, c, tape);
  }

  /** Re-read, mutate, then create what is missing or patch what differs. */
  method CreateOrPatch(client: Cluster, s: Stage, o: ChildObject, cr: DeviceConfigObject, versioned: bool, ghost w: Worker)
    returns (err: Error, ghost w': Worker)
    requires w.pc == RereadChild(s) && w.cr == cr.value && versioned == w.existing.Some?
    requires o.Value() == if versioned then w.existing.value else NewObject(ChildKeyOf(cr.value.key, s).kind)
    modifies client`children, client`replies, o
    ensures StageEnds(w, old(client.View()), old(client.replies), s, err, w', client.View(), client.replies)
  {
    hide Run, ChildKeyOf, SetDesired, Advance, Store.CreateChild, Store.PatchChild, NewObject;
    ghost var c, tape := client.View(), client.replies;
    var ck := ChildKeyOf(cr.value.key, s);
    RereadStep(w, c, tape, s);
    w' := w;
    err := client.GetChild(ck, o);
    if err != Nil && err != NotFound {
      w' := w.(pc := ReportError(s), err := Unavailable);
      return;
    }
    ghost var tape1 := client.replies;
    var found := err == Nil;
    var before := o.Value();
    err := SetDesiredChild(s, o, cr.value, client.settings);
    SetterErrors(s, before, cr.value, client.settings);
    if err != Nil {
      w' := w.(pc := ReportError(s), err := err);
      return;
    }
    if found && o.Value() == before {
      return;
    }
    w' := w.(pc := WriteChild(s), before := if found then Some(before) else None, after := o.Value());
    WriteStep(w', c, tape1, s);
    if !found {
      err := client.CreateChild(ck, o, versioned);
    } else {
      err := client.PatchChild(ck, before, o);
    }
    if err != Nil {
      w' := w'.(pc := ReportError(s), err := err);
    } else {
      AdvanceIgnoresPc(w', client.View(), s);
    }
  }

  lemma AdvanceIgnoresPc(w: Worker, c: World, s: Stage)
    ensures forall pc :: Advance(w.(pc := pc), c, s) == Advance(w, c, s)
  {
  }

  /** ReconcileModule, ReconcileNodeLabelerDaemonSet, ReconcileNodeMetricsDaemonSet and
      ReconcileNodeMetricsService: the same text but for the stage. */
  method ReconcileChild(client: Cluster, s: Stage, cr: DeviceConfigObject, ghost w: Worker) returns (err: Error, ghost w': Worker)
    requires w.pc == ReadChild(s) && w.cr == cr.value
    modifies client`children, client`replies
    ensures StageEnds(w, old(client.View()), old(client.replies), s, err, w', client.View(), client.replies)
  {
    hide Run, ChildKeyOf, Advance, NewObject;
    ghost var c, tape := client.View(), client.replies;
    var ck := ChildKeyOf(cr.value.key, s);
    ReadStep(w, c, tape, s);
    var existing := new ChildObject(NewObject(ck.kind));
    err := client.GetChild(ck, existing);
    var found := err != NotFound;
    if err != Nil && err != NotFound {
      w' := w.(pc := ReportError(s), err := err);
      return;
    }
    ghost var w1 := w.(pc := RereadChild(s), existing := if found then Some(existing.Value()) else None);
    var o := new ChildObject(NewObject(ck.kind));
    if found {
      o := existing;
    }
    err, w' := CreateOrPatch(client, s, o, cr, found, w1);
  }

  /** The metrics DaemonSet and then its Service. */
  method ReconcileNodeMetrics(client: Cluster, cr: DeviceConfigObject, ghost w: Worker)
    returns (err: Error, ghost s: Stage, ghost w': Worker)
    requires w.pc == ReadChild(MetricsStage) && w.cr == cr.value
    modifies client`children, client`replies
    ensures s.MetricsStage? || s.ServiceStage?
    ensures err == Nil ==> s.ServiceStage?
    ensures StageEnds(w, old(client.View()), old(client.replies), s, err, w', client.View(), client.replies)
  {
    hide Run;
    s := MetricsStage;
    err, w' := ReconcileChild(client, MetricsStage, cr, w);
    if err != Nil {
      return;
    }
    s := ServiceStage;
    err, w' := ReconcileChild(client, ServiceStage, cr, w'.(pc := ReadChild(ServiceStage)));
  }

  method DeleteModule(client: Cluster, cr: DeviceConfigObject) returns (err: Error)
    modifies client`children, client`replies
    ensures client.replies == Tail(old(client.replies))
    ensures var ck := ChildKey(KindModule, Key(cr.value.key.ns, cr.value.key.name + "-module"));
            var (c', e) := DeliveredErr(Head(old(client.replies)), old(client.View()), Store.DeleteChild(old(client.View()), ck));
            client.View() == c' && err == if e == NotFound then Nil else e
  {
    err := client.DeleteChild(ChildKeyOf(cr.value.key, ModuleStage));
    if err == NotFound {
      err := Nil;
    }
  }

  // ---------- the pass ----------

  lemma LastStep(w: Worker, c: World, tape: seq<Reply>, w': Worker, c': World)
    requires !w.pc.Done? && Step(w, c, Head(tape)) == (w', c') && w'.pc.Done?
    ensures Run(w, c, tape) == (c', Tail(tape), w'.pc.verdict)
  {
    hide Step, Run;
    Calls(w, c, tape);
    Ends(w', c', Tail(tape));
  }

  /** What the pass is left with, whether or not the write of it goes through. */
  lemma Reported(c: World, cr: DeviceConfig, reason: string, message: string)
    requires Conditions.UniqueKinds(cr.conditions)
    ensures var next := cr.(conditions := Conditions.Apply(cr.conditions, Conditions.ErroredUpdate(reason, message), c.clock));
            && Conditions.Shows(next.conditions, "Errored", ConditionTrue, reason, message)
            && (Store.UpdateStatus(c, next).1.Success? ==> Store.UpdateStatus(c, next).1.value.conditions == next.conditions)
  {
    Conditions.UpdateShows(cr.conditions, Conditions.ErroredUpdate(reason, message), c.clock);
    hide Conditions.Apply, Conditions.Shows;
  }

  /** The error branch of a stage: report it in the status, then in the gauge. */
  method ReportFailure(client: Cluster, cr: DeviceConfigObject, reason: string, err: Error, ghost s: Stage, ghost w: Worker)
    requires w.pc == ReportError(s) && reason == Reason(s) && w.err == err && w.cr == cr.value
    modifies client`dcs, client`nextRv, client`replies, client`gauge, cr
    ensures Run(w, old(client.View()), old(client.replies)) == (client.View(), client.replies, StageFailed(s))
    ensures Conditions.UniqueKinds(old(cr.value.conditions)) ==>
              Conditions.Shows(cr.value.conditions, "Errored", ConditionTrue, reason, ErrorText(err))
  {
    hide Run, Step, Conditions.Apply, UpdateStatus, Conditions.SetStatusCondition, Conditions.Shows;
    ghost var c, tape := client.View(), client.replies;
    var name := cr.value.key.name;
    StepCases(w, c, Head(tape));
    if Conditions.UniqueKinds(cr.value.conditions) { Reported(c, cr.value, reason, ErrorText(err)); }
    var cerr := SetConditionsErrored(client, cr, reason, ErrorText(err));
    client.SetGauge(name, 1);
    LastStep(w, c, tape, Step(w, c, Head(tape)).0, client.View());
  }

  /** What the first call of a pass leads to. */
  lemma Started(key: Key, c: World, tape: seq<Reply>)
    ensures Pass(key, c, tape) ==
            if !Head(tape).Ok? then (c, Tail(tape), ReadFailed)
            else if key !in c.dcs then (Store.SetGauge(c, key.name, 0), Tail(tape), Gone)
            else
              var w := NewWorker(key).(cr := c.dcs[key]);
              if !w.cr.deleting then Run(w.(pc := ListConfigs), c, Tail(tape))
              else
                var c' := Store.SetGauge(c, w.cr.key.name, 0);
                if Finalizers.Contains(w.cr.finalizers) then Run(w.(pc := Machine.DeleteModule), c', Tail(tape))
                else (c', Tail(tape), Deleted)
  {
    hide Run, Step, Finalizers.Contains;
    var w := NewWorker(key);
    StepCases(w, c, Head(tape));
    var (w', c') := StepStart(w, c, Head(tape));
    Calls(w, c, tape);
    if w'.pc.Done? { Ends(w', c', Tail(tape)); }
  }

  /** One pass over a key. Its effect on the cluster, the calls it makes and its outcome are those of
      the machine; it returns an error exactly for the verdicts that queue the key again. */
  method Reconcile(client: Cluster, key: Key) returns (err: Error, ghost v: Verdict)
    modifies client
    ensures Pass(key, old(client.View()), old(client.replies)) == (client.View(), client.replies, v)
    ensures err != Nil <==> IsError(v)
  {
    hide Run, Pass, Finalizers.Contains;
    Started(key, client.View(), client.replies);
    ghost var w := NewWorker(key);
    var cr := new DeviceConfigObject(DeviceConfig(key, 0, 0, 0, false, [], Spec("", "", None), []));
    err := client.GetDeviceConfig(key, cr);
    if err != Nil {
      if err == NotFound {
        client.SetGauge(key.name, 0);
        return Nil, Gone;
      }
      return err, ReadFailed;
    }
    w := w.(cr := cr.value);
    if cr.value.deleting {
      client.SetGauge(cr.value.key.name, 0);
      if Finalizers.Contains(cr.value.finalizers) {
        err, v := Remove(client, cr, w.(pc := Machine.DeleteModule));
        return;
      }
      return Nil, Deleted;
    }
    err, v := Validate(client, cr, w.(pc := ListConfigs));
  }

  /** The rest of the pass for a live DeviceConfig: validate, pin with the finalizer, apply. */
  method Validate(client: Cluster, cr: DeviceConfigObject, ghost w: Worker) returns (err: Error, ghost v: Verdict)
    requires w.pc.ListConfigs? && w.cr == cr.value
    modifies client, cr
    ensures Run(w, old(client.View()), old(client.replies)) == (client.View(), client.replies, v)
    ensures err != Nil <==> IsError(v)
  {
    hide Run, Step, FinishCheck, Refuse, StepAddFinalizer, NoDup, NodeSelector.ConflictFree, Finalizers.Contains;
    ghost var w1;
    err, w1 := CheckForConflictingNodeSelector(client, cr, w);
    if err != Nil {
      Refusal(w1, client.View(), client.replies);
      client.SetGauge(cr.value.key.name, 1);
      return Nil, Refused;
    }
    Acceptance(w1, client.View());
    if !Finalizers.Contains(cr.value.finalizers) {
      ghost var w2 := w1.(pc := AddFinalizer);
      ghost var c1, tape1 := client.View(), client.replies;
      StepCases(w2, c1, Head(tape1));
      AddOutcome(w2, c1, Head(tape1));
      err, w1 := AddDeletionFinalizer(client, cr, w2);
      Calls(w2, c1, tape1);
      if err != Nil {
        Ends(w1, client.View(), client.replies);
        return err, FinalizerFailed;
      }
    } else {
      w1 := w1.(pc := ReadChild(ModuleStage));
    }
    err, v := Apply(client, cr, w1);
  }

  lemma Refusal(w: Worker, c: World, tape: seq<Reply>)
    ensures Run(Refuse(w, c).0, Refuse(w, c).1, tape) == (Store.SetGauge(c, w.cr.key.name, 1), tape, Refused)
  {
  }

  lemma Acceptance(w: Worker, c: World)
    requires NoDup(w.names)
    ensures FinishCheck(w, c) ==
            (w.(pc := if Finalizers.Contains(w.cr.finalizers) then ReadChild(ModuleStage) else AddFinalizer), c)
  {
  }

  lemma AddOutcome(w: Worker, c: World, r: Reply)
    ensures var w' := StepAddFinalizer(w, c, r).0;
            w'.pc == Done(FinalizerFailed) || w'.pc == ReadChild(ModuleStage)
  {
  }

  /** The branch for a DeviceConfig that is being deleted. */
  method Remove(client: Cluster, cr: DeviceConfigObject, ghost w: Worker) returns (err: Error, ghost v: Verdict)
    requires w.pc.DeleteModule? && w.cr == cr.value
    modifies client, cr
    ensures Run(w, old(client.View()), old(client.replies)) == (client.View(), client.replies, v)
    ensures err != Nil <==> IsError(v)
  {
    hide Run, Step, StepRemoveFinalizer;
    ghost var c, tape := client.View(), client.replies;
    StepCases(w, c, Head(tape));
    err := DeleteModule(client, cr);
    if err != Nil {
      LastStep(w, c, tape, w.(pc := Done(DeletionFailed)), client.View());
      return err, DeletionFailed;
    }
    ghost var w1 := w.(pc := RemoveFinalizer);
    ghost var c1, tape1 := client.View(), client.replies;
    OneCall(w, c, tape, w1, c1);
    StepCases(w1, c1, Head(tape1));
    ghost var w2;
    err, w2 := RemoveDeletionFinalizer(client, cr, w1);
    LastStep(w1, c1, tape1, w2, client.View());
    v := w2.pc.verdict;
  }

  /** The pipeline for a live DeviceConfig: stop at the first error, else report Ready. */
  method Apply(client: Cluster, cr: DeviceConfigObject, ghost w: Worker) returns (err: Error, ghost v: Verdict)
    requires w.pc == ReadChild(ModuleStage) && w.cr == cr.value
    modifies client, cr
    ensures Run(w, old(client.View()), old(client.replies)) == (client.View(), client.replies, v)
    ensures err != Nil <==> IsError(v)
    ensures v.StageFailed? && Conditions.UniqueKinds(old(cr.value.conditions)) ==>
              Conditions.Shows(
                cr.value.conditions, "Errored", ConditionTrue,
                match v.stage
                case ModuleStage => "ModuleFailed"
                case LabelerStage => "NodeLabelerFailed"
                case _ => "NodeMetricsFailed",
                ErrorText(err))
  {
    hide Run, Step, Conditions.Shows, Conditions.UniqueKinds;
    ghost var w1;
    err, w1 := ReconcileChild(client, ModuleStage, cr, w);
    if err != Nil {
      ReportFailure(client, cr, "ModuleFailed", err, ModuleStage, w1);
      return err, StageFailed(ModuleStage);
    }
    err, w1 := ReconcileChild(client, LabelerStage, cr, w1.(pc := ReadChild(LabelerStage)));
    if err != Nil {
      ReportFailure(client, cr, "NodeLabelerFailed", err, LabelerStage, w1);
      return err, StageFailed(LabelerStage);
    }
    ghost var s;
    err, s, w1 := ReconcileNodeMetrics(client, cr, w1.(pc := ReadChild(MetricsStage)));
    if err != Nil {
      ReportFailure(client, cr, "NodeMetricsFailed", err, s, w1);
      return err, StageFailed(s);
    }
    client.SetGauge(cr.value.key.name, 0);
    err, v := Finish(client, cr, w1.(pc := ReportReady));
  }

  method Finish(client: Cluster, cr: DeviceConfigObject, ghost w: Worker) returns (err: Error, ghost v: Verdict)
    requires w.pc.ReportReady? && w.cr == cr.value
    modifies client, cr
    ensures v == if err == Nil then Applied else StatusFailed
    ensures Run(w, old(client.View()), old(client.replies)) == (client.View(), client.replies, v)
    ensures err != Nil <==> IsError(v)
  {
    hide Run, Step, Conditions.Apply, UpdateStatus, Conditions.SetStatusCondition;
    ghost var c, tape := client.View(), client.replies;
    StepCases(w, c, Head(tape));
    err := SetConditionsReady(client, cr, "Reconciled", "All resources have been successfully reconciled");
    v := if err == Nil then Applied else StatusFailed;
    LastStep(w, c, tape, Step(w, c, Head(tape)).0, client.View());
  }
}
