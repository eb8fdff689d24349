/**
 One pass of the controller's Reconcile as a machine that makes one API call per step
 (controllers/deviceconfig_controller.go). A step takes the reply to that call and does the
 local work that follows it. `Run` is a pass on its own; the interleaved runs of many workers
 use the same `Step`.
 */
module Machine {
  import opened Wrappers
  import opened Ordering
  import opened Api
  import opened Objects
  import opened Children
  import opened Store
  import Conditions
  import Finalizers
  import NodeSelector

  datatype Verdict =
    | Gone                       // no such DeviceConfig
    | ReadFailed                 // it could not be read
    | Deleted                    // the deletion work is done
    | DeletionFailed
    | Refused                    // the validator returned an error
    | FinalizerFailed
    | StageFailed(stage: Stage)
    | Applied                    // all children applied and Ready reported
    | StatusFailed

  /** The pass returns an error, and its key is queued again. */
  predicate IsError(v: Verdict) {
    v.ReadFailed? || v.DeletionFailed? || v.FinalizerFailed? || v.StageFailed? || v.StatusFailed?
  }

  /** The API call the worker makes next. */
  datatype Pc =
    | Start
    | DeleteModule
    | RemoveFinalizer
    | ListConfigs
    | ListNodes(i: nat)
    | AddFinalizer
    | ReadChild(stage: Stage)
    | RereadChild(stage: Stage)
    | WriteChild(stage: Stage)
    | ReportError(stage: Stage)
    | ReportReady
    | Done(verdict: Verdict)

  /** `existing` is what the first read of a child found; `before` and `after` are the child as
      re-read and as the setter wants it; `err` is the error that stopped the pipeline. */
  datatype Worker = Worker(
    key: Key, pc: Pc, cr: DeviceConfig,
    listed: seq<DeviceConfig>, names: seq<string>,
    existing: Option<Object>, before: Option<Object>, after: Object, err: Error)

  function NewWorker(key: Key): Worker {
    var blank := DeviceConfig(key, 0, 0, 0, false, [], Spec("", "", None), []);
    Worker(key, Start, blank, [], [], None, None, NewObject(KindModule), Nil)
  }

  function FirstStage(): Stage { ModuleStage }

  function Reason(s: Stage): string {
    match s
    case ModuleStage => "ModuleFailed"
    case LabelerStage => "NodeLabelerFailed"
    case _ => "NodeMetricsFailed"
  }

  /** A fixed text per error; the originals differ only in wording. */
  function ErrorText(e: Error): string {
    match e
    case NotFound => "not found"
    case AlreadyExists => "already exists"
    case Invalid => "invalid"
    case AlreadyOwned => "already owned"
    case _ => "unavailable"
  }

  const READY_UPDATE :=
    Conditions.ReadyUpdate("Reconciled", "All resources have been successfully reconciled")

  // ---------- steps ----------

  function StepStart(w: Worker, c: World, r: Reply): (Worker, World) {
    if !r.Ok? then (w.(pc := Done(ReadFailed)), c)
    else if w.key !in c.dcs then (w.(pc := Done(Gone)), SetGauge(c, w.key.name, 0))
    else
      var w1 := w.(cr := c.dcs[w.key]);
      if w1.cr.deleting then
        (w1.(pc := if Finalizers.Contains(w1.cr.finalizers) then DeleteModule else Done(Deleted)),
         SetGauge(c, w1.cr.key.name, 0))
      else (w1.(pc := ListConfigs), c)
  }

  function StepDeleteModule(w: Worker, c: World, r: Reply): (Worker, World) {
    var (c', e) := DeliveredErr(r, c, DeleteChild(c, ChildKeyOf(w.cr.key, ModuleStage)));
    (w.(pc := if e == Nil || e == NotFound then RemoveFinalizer else Done(DeletionFailed)), c')
  }

  function StepRemoveFinalizer(w: Worker, c: World, r: Reply): (Worker, World) {
    var cr := w.cr.(finalizers := Finalizers.Remove(w.cr.finalizers, DELETION_FINALIZER));
    var (c', res) := Delivered(r, c, Update(c, cr));
    match res
    case Success(saved) => (w.(cr := saved, pc := Done(Deleted)), c')
    case Failure(_) => (w.(cr := cr, pc := Done(DeletionFailed)), c')
  }

  function Refuse(w: Worker, c: World): (Worker, World) {
    (w.(pc := Done(Refused)), SetGauge(c, w.cr.key.name, 1))
  }

  /** The validator has all its lists: scan for duplicates, then look for the finalizer. */
  function FinishCheck(w: Worker, c: World): (Worker, World) {
    if !NoDup(w.names) then Refuse(w, c)
    else if Finalizers.Contains(w.cr.finalizers) then (w.(pc := ReadChild(FirstStage())), c)
    else (w.(pc := AddFinalizer), c)
  }

  function StepListConfigs(w: Worker, c: World, r: Reply): (Worker, World) {
    if !r.Ok? then Refuse(w, c)
    else
      var w1 := w.(listed := ListDeviceConfigs(c), names := []);
      if w1.listed == [] then FinishCheck(w1, c) else (w1.(pc := ListNodes(0)), c)
  }

  function StepListNodes(w: Worker, c: World, r: Reply, i: nat): (Worker, World) {
    if !r.Ok? then Refuse(w, c)
    else if |w.listed| <= i then FinishCheck(w, c)
    else
      var w1 := w.(names := w.names + NodeSelector.SelectedNames(c, w.listed[i]));
      if i + 1 == |w.listed| then FinishCheck(w1, c) else (w1.(pc := ListNodes(i + 1)), c)
  }

  function StepAddFinalizer(w: Worker, c: World, r: Reply): (Worker, World) {
    var cr := w.cr.(finalizers := Finalizers.Add(w.cr.finalizers, DELETION_FINALIZER));
    var (c', res) := Delivered(r, c, Update(c, cr));
    match res
    case Success(saved) => (w.(cr := saved, pc := ReadChild(FirstStage())), c')
    case Failure(_) => (w.(cr := cr, pc := Done(FinalizerFailed)), c')
  }

  function Advance(w: Worker, c: World, s: Stage): (Worker, World) {
    match s
    case ModuleStage => (w.(pc := ReadChild(LabelerStage)), c)
    case LabelerStage => (w.(pc := ReadChild(MetricsStage)), c)
    case MetricsStage => (w.(pc := ReadChild(ServiceStage)), c)
    case ServiceStage => (w.(pc := ReportReady), SetGauge(c, w.cr.key.name, 0))
  }

  function StepReadChild(w: Worker, c: World, r: Reply, s: Stage): (Worker, World) {
    if !r.Ok? then (w.(pc := ReportError(s), err := Unavailable), c)
    else
      var ck := ChildKeyOf(w.cr.key, s);
      (w.(pc := RereadChild(s), existing := if ck in c.children then Some(c.children[ck]) else None), c)
  }

  /** The object the setter runs on: the one just read, else the one read before, else a new one. */
  function SetterInput(w: Worker, c: World, s: Stage): Object {
    var ck := ChildKeyOf(w.cr.key, s);
    if ck in c.children then c.children[ck]
    else if w.existing.Some? then w.existing.value
    else NewObject(ck.kind)
  }

  function StepRereadChild(w: Worker, c: World, r: Reply, s: Stage): (Worker, World) {
    if !r.Ok? then (w.(pc := ReportError(s), err := Unavailable), c)
    else
      var ck := ChildKeyOf(w.cr.key, s);
      var before := if ck in c.children then Some(c.children[ck]) else None;
      match SetDesired(s, SetterInput(w, c, s), w.cr, c.settings)
      case Failure(e) => (w.(pc := ReportError(s), err := e), c)
      case Success(o) =>
        if before == Some(o) then Advance(w, c, s)
        else (w.(pc := WriteChild(s), before := before, after := o), c)
  }

  function StepWriteChild(w: Worker, c: World, r: Reply, s: Stage): (Worker, World) {
    var ck := ChildKeyOf(w.cr.key, s);
    var effect := match w.before
      case None => CreateChild(c, ck, w.after, w.existing.Some?)
      case Some(before) => PatchChild(c, ck, before, w.after);
    var (c', e) := DeliveredErr(r, c, effect);
    if e == Nil then Advance(w, c', s) else (w.(pc := ReportError(s), err := e), c')
  }

  function StepReportError(w: Worker, c: World, r: Reply, s: Stage): (Worker, World) {
    var cr := w.cr.(conditions := Conditions.Apply(w.cr.conditions,
      Conditions.ErroredUpdate(Reason(s), ErrorText(w.err)), c.clock));
    var (c', res) := Delivered(r, c, UpdateStatus(c, cr));
    (w.(cr := if res.Success? then res.value else cr, pc := Done(StageFailed(s))),
     SetGauge(c', cr.key.name, 1))
  }

  function StepReportReady(w: Worker, c: World, r: Reply): (Worker, World) {
    var cr := w.cr.(conditions := Conditions.Apply(w.cr.conditions, READY_UPDATE, c.clock));
    var (c', res) := Delivered(r, c, UpdateStatus(c, cr));
    match res
    case Success(saved) => (w.(cr := saved, pc := Done(Applied)), c')
    case Failure(_) => (w.(cr := cr, pc := Done(StatusFailed)), c')
  }

  function Step(w: Worker, c: World, r: Reply): (Worker, World) {
    match w.pc
    case Start => StepStart(w, c, r)
    case DeleteModule => StepDeleteModule(w, c, r)
    case RemoveFinalizer => StepRemoveFinalizer(w, c, r)
    case ListConfigs => StepListConfigs(w, c, r)
    case ListNodes(i) => StepListNodes(w, c, r, i)
    case AddFinalizer => StepAddFinalizer(w, c, r)
    case ReadChild(s) => StepReadChild(w, c, r, s)
    case RereadChild(s) => StepRereadChild(w, c, r, s)
    case WriteChild(s) => StepWriteChild(w, c, r, s)
    case ReportError(s) => StepReportError(w, c, r, s)
    case ReportReady => StepReportReady(w, c, r)
    case Done(_) => (w, c)
  }

  // ---------- what a reply does ----------

  /** The calls that write. */
  predicate WritesStore(pc: Pc) {
    pc.DeleteModule? || pc.RemoveFinalizer? || pc.AddFinalizer? || pc.WriteChild? || pc.ReportError? || pc.ReportReady?
  }

  /** Where a pass goes from a call that did not report success. */
  function Failed(pc: Pc): Pc {
    match pc
    case Start => Done(ReadFailed)
    case DeleteModule => Done(DeletionFailed)
    case RemoveFinalizer => Done(DeletionFailed)
    case ListConfigs => Done(Refused)
    case ListNodes(_) => Done(Refused)
    case AddFinalizer => Done(FinalizerFailed)
    case ReadChild(s) => ReportError(s)
    case RereadChild(s) => ReportError(s)
    case WriteChild(s) => ReportError(s)
    case ReportError(s) => Done(StageFailed(s))
    case ReportReady => Done(StatusFailed)
    case Done(_) => pc
  }

  ghost predicate Replied(w: Worker, c: World) {
    && Step(w, c, Fail).1.(gauge := c.gauge) == c
    && (WritesStore(w.pc) ==> Step(w, c, LostAck).1.(gauge := c.gauge) == Step(w, c, Ok).1.(gauge := c.gauge))
    && (!WritesStore(w.pc) ==> Step(w, c, Ok).1.(gauge := c.gauge) == c && Step(w, c, LostAck).1.(gauge := c.gauge) == c)
    && Step(w, c, Fail).0.pc == Step(w, c, LostAck).0.pc == Failed(w.pc)
  }

  lemma ConfigReplies(w: Worker, c: World)
    requires w.pc.RemoveFinalizer? || w.pc.AddFinalizer? || w.pc.ReportError? || w.pc.ReportReady?
    ensures Replied(w, c)
  {
    hide StepStart, StepDeleteModule, StepListConfigs, StepListNodes, StepReadChild, StepRereadChild, StepWriteChild;
    hide Update, UpdateStatus, Conditions.Apply, Finalizers.Remove, Finalizers.Add, Reason, ErrorText;
  }

  lemma ChildReplies(w: Worker, c: World)
    requires w.pc.DeleteModule? || w.pc.ReadChild? || w.pc.RereadChild? || w.pc.WriteChild?
    ensures Replied(w, c)
  {
    hide ChildKeyOf, CreateChild, PatchChild, DeleteChild, SetDesired, SetterInput;
    hide StepStart, StepListConfigs, StepListNodes, StepRemoveFinalizer, StepAddFinalizer, StepReportError, StepReportReady;
  }

  lemma ReadReplies(w: Worker, c: World)
    requires w.pc.Start? || w.pc.ListConfigs? || w.pc.ListNodes?
    ensures Replied(w, c)
  {
    hide ListDeviceConfigs, NodeSelector.SelectedNames, NoDup, Finalizers.Contains;
    hide StepDeleteModule, StepReadChild, StepRereadChild, StepWriteChild;
    hide StepRemoveFinalizer, StepAddFinalizer, StepReportError, StepReportReady;
  }

  /** A call that fails leaves the store as it was; one whose acknowledgement is lost leaves it as the
      call that goes through does. The pass does not know the difference. */
  lemma RepliesMean(w: Worker, c: World)
    requires !w.pc.Done?
    ensures Step(w, c, Fail).1.(gauge := c.gauge) == c
    ensures WritesStore(w.pc) ==> Step(w, c, LostAck).1.(gauge := c.gauge) == Step(w, c, Ok).1.(gauge := c.gauge)
    ensures !WritesStore(w.pc) ==> Step(w, c, Ok).1.(gauge := c.gauge) == c && Step(w, c, LostAck).1.(gauge := c.gauge) == c
    ensures Step(w, c, Fail).0.pc == Step(w, c, LostAck).0.pc == Failed(w.pc)
  {
    hide Step, Failed;
    if w.pc.RemoveFinalizer? || w.pc.AddFinalizer? || w.pc.ReportError? || w.pc.ReportReady? {
      ConfigReplies(w, c);
    } else if w.pc.DeleteModule? || w.pc.ReadChild? || w.pc.RereadChild? || w.pc.WriteChild? {
      ChildReplies(w, c);
    } else {
      ReadReplies(w, c);
    }
  }

  // ---------- a pass ----------

  function Phase(pc: Pc): nat {
    match pc
    case Start => 20
    case DeleteModule => 19
    case RemoveFinalizer => 18
    case ListConfigs => 17
    case ListNodes(_) => 16
    case AddFinalizer => 15
    case ReadChild(s) => 14 - 3 * Rank(s)
    case RereadChild(s) => 13 - 3 * Rank(s)
    case WriteChild(s) => 12 - 3 * Rank(s)
    case ReportError(_) => 1
    case ReportReady => 1
    case Done(_) => 0
  }

  /** Node lists still to fetch. */
  function ListsLeft(w: Worker): nat {
    if w.pc.ListNodes? && w.pc.i < |w.listed| then |w.listed| - w.pc.i else 0
  }

  function Head(tape: seq<Reply>): Reply {
    if tape == [] then Ok else tape[0]
  }

  function Tail(tape: seq<Reply>): seq<Reply> {
    if tape == [] then [] else tape[1..]
  }

  /** The reply the call number `i` from here on gets. */
  function At(tape: seq<Reply>, i: nat): Reply {
    if i < |tape| then tape[i] else Ok
  }

  /** The replies that are left after `n` calls. */
  function After(tape: seq<Reply>, n: nat): seq<Reply> {
    if n < |tape| then tape[n..] else []
  }

  lemma AfterNone(tape: seq<Reply>)
    ensures After(tape, 0) == tape
  {
  }

  lemma AfterOneMore(tape: seq<Reply>, n: nat)
    ensures Head(After(tape, n)) == At(tape, n) && Tail(After(tape, n)) == After(tape, n + 1)
  {
  }

  predicate Progress(w: Worker, w': Worker) {
    Phase(w'.pc) < Phase(w.pc) || (Phase(w'.pc) == Phase(w.pc) && ListsLeft(w') < ListsLeft(w))
  }

  lemma RereadMakesProgress(w: Worker, c: World, r: Reply, s: Stage)
    requires w.pc == RereadChild(s)
    ensures Progress(w, StepRereadChild(w, c, r, s).0)
  {
    hide SetDesired, SetterInput;
  }

  lemma WriteMakesProgress(w: Worker, c: World, r: Reply, s: Stage)
    requires w.pc == WriteChild(s)
    ensures Progress(w, StepWriteChild(w, c, r, s).0)
  {
    hide CreateChild, PatchChild;
  }

  lemma ListsMakeProgress(w: Worker, c: World, r: Reply)
    ensures w.pc.Start? ==> Progress(w, StepStart(w, c, r).0)
    ensures w.pc.ListConfigs? ==> Progress(w, StepListConfigs(w, c, r).0)
    ensures w.pc.ListNodes? ==> Progress(w, StepListNodes(w, c, r, w.pc.i).0)
  {
    hide ListDeviceConfigs, NodeSelector.SelectedNames, NoDup, Finalizers.Contains;
  }

  lemma FinalizersMakeProgress(w: Worker, c: World, r: Reply)
    ensures w.pc.DeleteModule? ==> Progress(w, StepDeleteModule(w, c, r).0)
    ensures w.pc.RemoveFinalizer? ==> Progress(w, StepRemoveFinalizer(w, c, r).0)
    ensures w.pc.AddFinalizer? ==> Progress(w, StepAddFinalizer(w, c, r).0)
  {
    hide Update, DeleteChild, Finalizers.Remove, Finalizers.Add, ListsLeft;
  }

  /** Every step makes progress, so a pass ends whatever the replies are. */
  lemma {:induction false} StepMakesProgress(w: Worker, c: World, r: Reply)
    requires !w.pc.Done?
    ensures Progress(w, Step(w, c, r).0)
  {
    hide StepStart, StepListConfigs, StepListNodes, StepDeleteModule, StepRemoveFinalizer, StepAddFinalizer;
    hide StepRereadChild, StepWriteChild, Conditions.Apply, UpdateStatus;
    match w.pc
    case RereadChild(s) => RereadMakesProgress(w, c, r, s);
    case WriteChild(s) => WriteMakesProgress(w, c, r, s);
    case Start => ListsMakeProgress(w, c, r);
    case ListConfigs => ListsMakeProgress(w, c, r);
    case ListNodes(_) => ListsMakeProgress(w, c, r);
    case DeleteModule => FinalizersMakeProgress(w, c, r);
    case RemoveFinalizer => FinalizersMakeProgress(w, c, r);
    case AddFinalizer => FinalizersMakeProgress(w, c, r);
    case _ =>
  }

  /** The pass of one worker, alone, with the replies its calls get; calls beyond the tape go
      through. */
  function Run(w: Worker, c: World, tape: seq<Reply>): (World, seq<Reply>, Verdict)
    decreases Phase(w.pc), ListsLeft(w)
  {
    if w.pc.Done? then (c, tape, w.pc.verdict)
    else
      StepMakesProgress(w, c, Head(tape));
      var (w', c') := Step(w, c, Head(tape));
      Run(w', c', Tail(tape))
  }

  /** A run, one API call later. */
  lemma Calls(w: Worker, c: World, tape: seq<Reply>)
    requires !w.pc.Done?
    ensures var (w', c') := Step(w, c, Head(tape)); Run(w, c, tape) == Run(w', c', Tail(tape))
  {
    hide Step;
  }

  lemma Ends(w: Worker, c: World, tape: seq<Reply>)
    requires w.pc.Done?
    ensures Run(w, c, tape) == (c, tape, w.pc.verdict)
  {
    hide Step;
  }

  function Pass(key: Key, c: World, tape: seq<Reply>): (World, seq<Reply>, Verdict) {
    Run(NewWorker(key), c, tape)
  }
}
