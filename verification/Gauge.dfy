/**
 The reconciliation gauge (controllers/deviceconfig_controller.go, internal/metrics): one value per
 DeviceConfig name, whatever the namespace. In every reachable state it is what was last written since
 the operator started, and a pass makes the one write its outcome calls for, or none.
 */
module Gauge {
  import opened Wrappers
  import opened Ordering
  import opened Api
  import opened Objects
  import opened Children
  import opened Store
  import opened Machine
  import opened System
  import Conditions
  import Finalizers
  import NodeSelector

  /** What a pass with this verdict leaves in the gauge, if it writes it: failure for a refusal or a
      failed stage, none for a deletion or a complete application, whether or not the last status
      write got through. */
  function GaugeOf(v: Verdict): Option<nat> {
    match v
    case Refused => Some(1)
    case StageFailed(_) => Some(1)
    case ReadFailed => None
    case FinalizerFailed => None
    case _ => Some(0)
  }

  function AsSeq(o: Option<nat>): seq<nat> {
    match o
    case Some(x) => [x]
    case None => []
  }

  /** The gauge after these writes to one name. */
  function Noted(gauge: map<string, nat>, name: string, writes: seq<nat>): map<string, nat> {
    if writes == [] then gauge else gauge[name := writes[|writes| - 1]]
  }

  /** What the call that takes a worker from `before` to `after` writes. */
  function Writes(before: Pc, after: Pc): Option<nat> {
    if before.ReportError? || after == Done(Refused) then Some(1)
    else if after.ReportReady? || (before.Start? && (after.DeleteModule? || after == Done(Gone) || after == Done(Deleted))) then Some(0)
    else None
  }

  /** What a pass has written by the time it is here. */
  function Made(pc: Pc): seq<nat> {
    match pc
    case DeleteModule => [0]
    case RemoveFinalizer => [0]
    case ReportReady => [0]
    case Done(v) => AsSeq(GaugeOf(v))
    case _ => []
  }

  // ---------- one call ----------

  /** The call writes what `Writes` says, and that brings the pass's writes up to date. */
  ghost predicate Writing(w: Worker, c: World, w': Worker, c': World) {
    && Keyed(c') && w'.key == w.key && w'.cr.key == w.key
    && c'.gauge == Noted(c.gauge, w.key.name, AsSeq(Writes(w.pc, w'.pc)))
    && Made(w'.pc) == Made(w.pc) + AsSeq(Writes(w.pc, w'.pc))
  }

  lemma CommitsKeyed(c: World)
    requires Keyed(c)
    ensures forall stored, next ::
              var (c', saved) := Commit(c, stored, next);
              Keyed(c') && c'.gauge == c.gauge && saved.key in {stored.key, next.key}
  {
  }

  lemma AddFinalizerWrites(w: Worker, c: World, r: Reply)
    requires Keyed(c) && w.cr.key == w.key && w.pc.AddFinalizer?
    ensures var (w', c') := StepAddFinalizer(w, c, r); Writing(w, c, w', c')
  {
    hide Finalizers.Add, Commit, Encoded;
    CommitsKeyed(c);
  }

  lemma RemoveFinalizerWrites(w: Worker, c: World, r: Reply)
    requires Keyed(c) && w.cr.key == w.key && w.pc.RemoveFinalizer?
    ensures var (w', c') := StepRemoveFinalizer(w, c, r); Writing(w, c, w', c')
  {
    hide Finalizers.Remove, Commit, Encoded;
    CommitsKeyed(c);
  }

  lemma ReportErrorWrites(w: Worker, c: World, r: Reply, s: Stage)
    requires Keyed(c) && w.cr.key == w.key && w.pc == ReportError(s)
    ensures var (w', c') := StepReportError(w, c, r, s); Writing(w, c, w', c')
  {
    hide Conditions.Apply, Commit, Reason, ErrorText;
    CommitsKeyed(c);
  }

  lemma ReportReadyWrites(w: Worker, c: World, r: Reply)
    requires Keyed(c) && w.cr.key == w.key && w.pc.ReportReady?
    ensures var (w', c') := StepReportReady(w, c, r); Writing(w, c, w', c')
  {
    hide Conditions.Apply, Commit;
    CommitsKeyed(c);
  }

  lemma FinishWrites(w: Worker, c: World)
    requires Keyed(c) && w.cr.key == w.key && (w.pc.ListConfigs? || w.pc.ListNodes?)
    ensures var (w', c') := FinishCheck(w, c); Writing(w, c, w', c')
  {
    hide NoDup, Finalizers.Contains;
  }

  lemma ListConfigsWrites(w: Worker, c: World, r: Reply)
    requires Keyed(c) && w.cr.key == w.key && w.pc.ListConfigs?
    ensures var (w', c') := StepListConfigs(w, c, r); Writing(w, c, w', c')
  {
    hide ListDeviceConfigs, FinishCheck;
    FinishWrites(w.(listed := ListDeviceConfigs(c), names := []), c);
  }

  lemma ListNodesWrites(w: Worker, c: World, r: Reply)
    requires Keyed(c) && w.cr.key == w.key && w.pc.ListNodes?
    ensures var (w', c') := StepListNodes(w, c, r, w.pc.i); Writing(w, c, w', c')
  {
    hide NodeSelector.SelectedNames, FinishCheck;
    FinishWrites(w, c);
    if w.pc.i < |w.listed| { FinishWrites(w.(names := w.names + NodeSelector.SelectedNames(c, w.listed[w.pc.i])), c); }
  }

  lemma StartWrites(w: Worker, c: World, r: Reply)
    requires Keyed(c) && w.cr.key == w.key && w.pc.Start?
    ensures var (w', c') := StepStart(w, c, r); Writing(w, c, w', c')
  {
    hide Finalizers.Contains;
  }

  lemma DeleteModuleWrites(w: Worker, c: World, r: Reply)
    requires Keyed(c) && w.cr.key == w.key && w.pc.DeleteModule?
    ensures var (w', c') := StepDeleteModule(w, c, r); Writing(w, c, w', c')
  {
    hide ChildKeyOf;
  }

  lemma AdvanceWrites(w: Worker, c: World, s: Stage)
    requires Keyed(c) && w.cr.key == w.key && (w.pc == RereadChild(s) || w.pc == WriteChild(s))
    ensures var (w', c') := Advance(w, c, s); Writing(w, c, w', c')
  {
  }

  lemma ReadWrites(w: Worker, c: World, r: Reply, s: Stage)
    requires Keyed(c) && w.cr.key == w.key && w.pc == ReadChild(s)
    ensures var (w', c') := StepReadChild(w, c, r, s); Writing(w, c, w', c')
  {
    hide ChildKeyOf;
  }

  lemma RereadWrites(w: Worker, c: World, r: Reply, s: Stage)
    requires Keyed(c) && w.cr.key == w.key && w.pc == RereadChild(s)
    ensures var (w', c') := StepRereadChild(w, c, r, s); Writing(w, c, w', c')
  {
    hide ChildKeyOf, SetDesired, SetterInput, Advance;
    AdvanceWrites(w, c, s);
  }

  lemma ChildWriteKeepsGauge(c: World, ck: ChildKey, w: Worker)
    ensures CreateChild(c, ck, w.after, w.existing.Some?).0 == c.(children := CreateChild(c, ck, w.after, w.existing.Some?).0.children)
    ensures w.before.Some? ==>
              var c' := PatchChild(c, ck, w.before.value, w.after).0; c' == c.(children := c'.children)
  {
    hide MergePatch;
  }

  lemma WriteWrites(w: Worker, c: World, r: Reply, s: Stage)
    requires Keyed(c) && w.cr.key == w.key && w.pc == WriteChild(s)
    ensures var (w', c') := StepWriteChild(w, c, r, s); Writing(w, c, w', c')
  {
    hide ChildKeyOf, CreateChild, PatchChild, Advance;
    var ck := ChildKeyOf(w.cr.key, s);
    ChildWriteKeepsGauge(c, ck, w);
    var effect := match w.before
      case None => CreateChild(c, ck, w.after, w.existing.Some?)
      case Some(before) => PatchChild(c, ck, before, w.after);
    AdvanceWrites(w, effect.0, s);
  }

  lemma StepWrites(w: Worker, c: World, r: Reply)
    requires Keyed(c) && w.cr.key == w.key && !w.pc.Done?
    ensures var (w', c') := Step(w, c, r); Writing(w, c, w', c')
  {
    hide Writing, StepStart, StepDeleteModule, StepRemoveFinalizer, StepListConfigs, StepListNodes, StepAddFinalizer;
    hide StepReadChild, StepRereadChild, StepWriteChild, StepReportError, StepReportReady;
    match w.pc
    case Start => StartWrites(w, c, r);
    case DeleteModule => DeleteModuleWrites(w, c, r);
    case RemoveFinalizer => RemoveFinalizerWrites(w, c, r);
    case ListConfigs => ListConfigsWrites(w, c, r);
    case ListNodes(_) => ListNodesWrites(w, c, r);
    case AddFinalizer => AddFinalizerWrites(w, c, r);
    case ReadChild(s) => ReadWrites(w, c, r, s);
    case RereadChild(s) => RereadWrites(w, c, r, s);
    case WriteChild(s) => WriteWrites(w, c, r, s);
    case ReportError(s) => ReportErrorWrites(w, c, r, s);
    case ReportReady => ReportReadyWrites(w, c, r);
  }

  // ---------- a pass on its own ----------

  lemma {:induction false} GaugeRun(w: Worker, c: World, tape: seq<Reply>, g: map<string, nat>)
    requires Keyed(c) && w.cr.key == w.key && c.gauge == Noted(g, w.key.name, Made(w.pc))
    ensures var (c', _, v) := Run(w, c, tape); Keyed(c') && c'.gauge == Noted(g, w.key.name, AsSeq(GaugeOf(v)))
    decreases Phase(w.pc), ListsLeft(w)
  {
    if !w.pc.Done? {
      hide Step;
      StepWrites(w, c, Head(tape));
      StepMakesProgress(w, c, Head(tape));
      var (w', c') := Step(w, c, Head(tape));
      GaugeRun(w', c', Tail(tape), g);
    }
  }

  /** The gauge after a pass on its own is decided by its verdict. */
  lemma {:induction false} PassGauge(key: Key, c: World, tape: seq<Reply>)
    requires Keyed(c)
    ensures var (c', _, v) := Pass(key, c, tape); Keyed(c') && c'.gauge == Noted(c.gauge, key.name, AsSeq(GaugeOf(v)))
  {
    hide Run;
    GaugeRun(NewWorker(key), c, tape, c.gauge);
  }

  /** What the gauge of its name reads after a pass: 1 for a refusal or a failed part, 0 for a deletion or a
      complete application, as before if the DeviceConfig could not be read or pinned. No other name's
      gauge is touched. */
  lemma {:induction false} GaugeReads(key: Key, c: World, tape: seq<Reply>)
    requires Keyed(c)
    ensures var (c', _, v) := Pass(key, c, tape);
            && (v.Refused? || v.StageFailed? ==> key.name in c'.gauge && c'.gauge[key.name] == 1)
            && (v.Gone? || v.Deleted? || v.DeletionFailed? || v.Applied? || v.StatusFailed? ==>
                  key.name in c'.gauge && c'.gauge[key.name] == 0)
            && (v.ReadFailed? || v.FinalizerFailed? ==> c'.gauge == c.gauge)
            && (forall name :: name != key.name ==> ValueOf(c'.gauge, name) == ValueOf(c.gauge, name))
  {
    hide Run;
    PassGauge(key, c, tape);
  }

  // ---------- passes with anything in between ----------

  datatype Item = PassOver(key: Key, tape: seq<Reply>) | Between(event: Event)

  datatype Entry = Passed(key: Key, verdict: Verdict) | Cleared

  /** Passes over any keys, with any replies, and whatever users, nodes, the garbage collector and
      restarts do from one to the next. */
  function Passes(c: World, plan: seq<Item>): (World, seq<Entry>)
    decreases |plan|
  {
    if plan == [] then (c, [])
    else
      var (c1, log) := Passes(c, plan[..|plan| - 1]);
      match plan[|plan| - 1]
      case PassOver(key, tape) =>
        var (c2, _, v) := Pass(key, c1, tape);
        (c2, log + [Passed(key, v)])
      case Between(e) =>
        (Environment(c1, e), if e.Restart? then log + [Cleared] else log)
  }

  /** What the gauge of a name is: what the last pass over that name that writes it says, back to the
      last restart; failing that, nothing after a restart and what it was without one. */
  function Outcome(log: seq<Entry>, name: string, before: Option<nat>): Option<nat> {
    if log == [] then before
    else
      match log[|log| - 1]
      case Cleared => None
      case Passed(key, v) =>
        if key.name == name && GaugeOf(v).Some? then GaugeOf(v) else Outcome(log[..|log| - 1], name, before)
  }

  function ValueOf(gauge: map<string, nat>, name: string): Option<nat> {
    if name in gauge then Some(gauge[name]) else None
  }

  lemma EnvironmentKeyed(c: World, e: Event)
    requires Keyed(c)
    ensures Keyed(Environment(c, e))
    ensures Environment(c, e).gauge == if e.Restart? then map[] else c.gauge
  {
    hide Orphan, Finalizers.Remove, Finalizers.Add, Commit;
    CommitsKeyed(c);
  }

  /** After any such history the gauge of a name is what the last writing pass over that name says, in
      whatever namespace it was. */
  lemma {:induction false} GaugeIsLastOutcome(c: World, plan: seq<Item>, name: string)
    requires Keyed(c)
    ensures var (c', log) := Passes(c, plan);
            Keyed(c') && ValueOf(c'.gauge, name) == Outcome(log, name, ValueOf(c.gauge, name))
    decreases |plan|
  {
    if plan != [] {
      hide Run, Environment;
      GaugeIsLastOutcome(c, plan[..|plan| - 1], name);
      var (c1, log) := Passes(c, plan[..|plan| - 1]);
      match plan[|plan| - 1]
      case PassOver(key, tape) =>
        PassGauge(key, c1, tape);
        var v := Pass(key, c1, tape).2;
        assert (log + [Passed(key, v)])[..|log|] == log;
      case Between(e) => EnvironmentKeyed(c1, e);
    }
  }

  // ---------- whole runs ----------

  datatype Mark = Began(key: Key) | Wrote(key: Key, value: nat) | Ended(key: Key, verdict: Verdict) | Restarted

  /** What an event adds to the record: passes that begin and end, gauge writes in order, restarts. */
  function MarksOf(y: System, e: Event): seq<Mark> {
    match e
    case Enqueue(k) => if k in y.workers then [] else [Began(k)]
    case Restart => [Restarted]
    case Call(k, r) =>
      if k !in y.workers then []
      else
        var w := y.workers[k];
        var after := Step(w, y.c, r).0.pc;
        WroteMarks(k, Writes(w.pc, after)) +
        (if after.Done? then [Ended(k, after.verdict)] else [])
    case _ => []
  }

  function Marks(y: System, es: seq<Event>): seq<Mark>
    decreases |es|
  {
    if es == [] then [] else Marks(y, es[..|es| - 1]) + MarksOf(Runs(y, es[..|es| - 1]), es[|es| - 1])
  }

  /** The gauge of a name by the record: its last write since the last restart. */
  function LastWrite(marks: seq<Mark>, name: string, before: Option<nat>): Option<nat> {
    if marks == [] then before
    else
      match marks[|marks| - 1]
      case Restarted => None
      case Wrote(k, x) => if k.name == name then Some(x) else LastWrite(marks[..|marks| - 1], name, before)
      case _ => LastWrite(marks[..|marks| - 1], name, before)
  }

  /** A pass over `k` has begun and not ended. */
  predicate InFlight(marks: seq<Mark>, k: Key) {
    marks != [] &&
    match marks[|marks| - 1]
    case Restarted => false
    case Began(j) => j == k || InFlight(marks[..|marks| - 1], k)
    case Ended(j, _) => j != k && InFlight(marks[..|marks| - 1], k)
    case Wrote(_, _) => InFlight(marks[..|marks| - 1], k)
  }

  /** What the pass over `k` in flight has written. */
  function WritesSince(marks: seq<Mark>, k: Key): seq<nat> {
    if marks == [] then []
    else
      match marks[|marks| - 1]
      case Restarted => []
      case Began(j) => if j == k then [] else WritesSince(marks[..|marks| - 1], k)
      case Wrote(j, x) => WritesSince(marks[..|marks| - 1], k) + if j == k then [x] else []
      case Ended(_, _) => WritesSince(marks[..|marks| - 1], k)
  }

  /** One more mark. */
  lemma OneMore(marks: seq<Mark>, m: Mark)
    ensures forall name, before ::
              LastWrite(marks + [m], name, before) ==
              match m
              case Restarted => None
              case Wrote(k, x) => if k.name == name then Some(x) else LastWrite(marks, name, before)
              case _ => LastWrite(marks, name, before)
    ensures forall k ::
              InFlight(marks + [m], k) <==>
              match m
              case Restarted => false
              case Began(j) => j == k || InFlight(marks, k)
              case Ended(j, _) => j != k && InFlight(marks, k)
              case Wrote(_, _) => InFlight(marks, k)
    ensures forall k ::
              WritesSince(marks + [m], k) ==
              match m
              case Restarted => []
              case Began(j) => if j == k then [] else WritesSince(marks, k)
              case Wrote(j, x) => WritesSince(marks, k) + if j == k then [x] else []
              case Ended(_, _) => WritesSince(marks, k)
  {
    assert (marks + [m])[..|marks|] == marks;
  }

  /** Every pass that ended was in flight and had written what its verdict calls for. */
  ghost predicate EndsMatch(marks: seq<Mark>) {
    forall i, k, v :: 0 <= i < |marks| && marks[i] == Ended(k, v) ==>
      InFlight(marks[..i], k) && WritesSince(marks[..i], k) == AsSeq(GaugeOf(v))
  }

  ghost predicate OwnKeys(y: System) {
    && Keyed(y.c)
    && forall k :: k in y.workers ==> y.workers[k].key == k && y.workers[k].cr.key == k && !y.workers[k].pc.Done?
  }

  ghost predicate GaugeByRecord(gauge: map<string, nat>, marks: seq<Mark>, before: map<string, nat>) {
    forall name :: ValueOf(gauge, name) == LastWrite(marks, name, ValueOf(before, name))
  }

  /** The passes in flight by the record are the workers, and each has written what it should have. */
  ghost predicate Flights(workers: map<Key, Worker>, marks: seq<Mark>) {
    && (forall k :: k in workers <==> InFlight(marks, k))
    && (forall k :: k in workers ==> WritesSince(marks, k) == Made(workers[k].pc))
    && EndsMatch(marks)
  }

  ghost predicate RecordInv(y: System, marks: seq<Mark>, before: map<string, nat>) {
    OwnKeys(y) && GaugeByRecord(y.c.gauge, marks, before) && Flights(y.workers, marks)
  }

  lemma EndsMatchMore(marks: seq<Mark>, m: Mark)
    requires EndsMatch(marks)
    requires m.Ended? ==> InFlight(marks, m.key) && WritesSince(marks, m.key) == AsSeq(GaugeOf(m.verdict))
    ensures EndsMatch(marks + [m])
  {
    hide InFlight, WritesSince;
    forall i, k, v | 0 <= i < |marks| + 1 && (marks + [m])[i] == Ended(k, v)
      ensures InFlight((marks + [m])[..i], k) && WritesSince((marks + [m])[..i], k) == AsSeq(GaugeOf(v))
    {
      assert (marks + [m])[..i] == marks[..i];
      assert i == |marks| ==> marks[..i] == marks;
    }
  }

  function WroteMarks(k: Key, o: Option<nat>): seq<Mark> {
    match o
    case Some(x) => [Wrote(k, x)]
    case None => []
  }

  lemma AfterWrite(marks: seq<Mark>, k: Key, o: Option<nat>)
    requires EndsMatch(marks)
    ensures var marks1 := marks + WroteMarks(k, o);
            && EndsMatch(marks1)
            && (forall name, before :: LastWrite(marks1, name, before) ==
                  if o.Some? && k.name == name then o else LastWrite(marks, name, before))
            && (forall j :: InFlight(marks1, j) <==> InFlight(marks, j))
            && (forall j :: WritesSince(marks1, j) == WritesSince(marks, j) + if j == k then AsSeq(o) else [])
  {
    hide EndsMatch, InFlight, WritesSince, LastWrite;
    if o.Some? {
      OneMore(marks, Wrote(k, o.value));
      EndsMatchMore(marks, Wrote(k, o.value));
    } else {
      assert marks + [] == marks;
    }
  }

  /** The gauge by the record, after a call that wrote `o`. */
  lemma GaugeNoted(gauge: map<string, nat>, marks: seq<Mark>, before: map<string, nat>, k: Key, o: Option<nat>)
    requires EndsMatch(marks) && GaugeByRecord(gauge, marks, before)
    ensures GaugeByRecord(Noted(gauge, k.name, AsSeq(o)), marks + WroteMarks(k, o), before)
  {
    hide EndsMatch, InFlight, WritesSince, LastWrite;
    AfterWrite(marks, k, o);
  }

  lemma EndKeepsGauge(gauge: map<string, nat>, marks: seq<Mark>, before: map<string, nat>, m: Mark)
    requires GaugeByRecord(gauge, marks, before) && !m.Wrote? && !m.Restarted?
    ensures GaugeByRecord(gauge, marks + [m], before)
  {
    hide InFlight, WritesSince, LastWrite;
    OneMore(marks, m);
  }

  /** The worker goes on from a call that wrote `o`. */
  lemma FlightGoesOn(workers: map<Key, Worker>, marks: seq<Mark>, k: Key, w': Worker, o: Option<nat>)
    requires Flights(workers, marks) && k in workers && Made(w'.pc) == Made(workers[k].pc) + AsSeq(o)
    ensures Flights(workers[k := w'], marks + WroteMarks(k, o))
  {
    AfterWrite(marks, k, o);
    hide EndsMatch, InFlight, WritesSince, LastWrite, Made, AsSeq, WroteMarks;
  }

  lemma FlightEnds(workers: map<Key, Worker>, marks: seq<Mark>, k: Key, v: Verdict)
    requires Flights(workers, marks) && k in workers && workers[k].pc == Done(v)
    ensures Flights(workers - {k}, marks + [Ended(k, v)])
  {
    OneMore(marks, Ended(k, v));
    EndsMatchMore(marks, Ended(k, v));
    hide EndsMatch, InFlight, WritesSince, LastWrite;
  }

  lemma FlightBegins(workers: map<Key, Worker>, marks: seq<Mark>, k: Key, w: Worker)
    requires Flights(workers, marks) && Made(w.pc) == []
    ensures Flights(workers[k := w], marks + [Began(k)])
  {
    OneMore(marks, Began(k));
    EndsMatchMore(marks, Began(k));
    hide EndsMatch, InFlight, WritesSince, LastWrite, Made;
  }

  lemma FlightsCleared(workers: map<Key, Worker>, marks: seq<Mark>, before: map<string, nat>)
    requires Flights(workers, marks)
    ensures Flights(map[], marks + [Restarted]) && GaugeByRecord(map[], marks + [Restarted], before)
  {
    OneMore(marks, Restarted);
    EndsMatchMore(marks, Restarted);
    hide EndsMatch, InFlight, WritesSince, LastWrite;
  }

  lemma CallKeepsOwnKeys(y: System, k: Key, r: Reply)
    requires OwnKeys(y) && k in y.workers
    ensures OwnKeys(CallNext(y, k, r))
  {
    StepWrites(y.workers[k], y.c, r);
    hide Step, Made, Writes, ReadyAfter, Keyed, Noted, AsSeq;
  }

  lemma CallRecorded(y: System, marks: seq<Mark>, before: map<string, nat>, k: Key, r: Reply)
    requires RecordInv(y, marks, before) && k in y.workers
    ensures RecordInv(CallNext(y, k, r), marks + MarksOf(y, Call(k, r)), before)
  {
    var w := y.workers[k];
    StepWrites(w, y.c, r);
    var (w', c') := Step(w, y.c, r);
    var o := Writes(w.pc, w'.pc);
    var marks1 := marks + WroteMarks(k, o);
    GaugeNoted(y.c.gauge, marks, before, k, o);
    FlightGoesOn(y.workers, marks, k, w', o);
    CallKeepsOwnKeys(y, k, r);
    CallMarks(y, marks, k, r);
    hide Step, Made, Writes, GaugeByRecord, Flights, OwnKeys, ReadyAfter, Keyed, Noted, ValueOf, AsSeq, WroteMarks, MarksOf;
    if w'.pc.Done? {
      var v := w'.pc.verdict;
      FlightEnds(y.workers[k := w'], marks1, k, v);
      EndKeepsGauge(c'.gauge, marks1, before, Ended(k, v));
      assert y.workers[k := w'] - {k} == y.workers - {k};
    }
  }

  lemma CallMarks(y: System, marks: seq<Mark>, k: Key, r: Reply)
    requires k in y.workers
    ensures var w := y.workers[k];
            var after := Step(w, y.c, r).0.pc;
            var marks1 := marks + WroteMarks(k, Writes(w.pc, after));
            marks + MarksOf(y, Call(k, r)) == if after.Done? then marks1 + [Ended(k, after.verdict)] else marks1
  {
    hide Step, Writes, WroteMarks;
  }

  lemma EnqueueRecorded(y: System, marks: seq<Mark>, before: map<string, nat>, k: Key)
    requires RecordInv(y, marks, before) && k !in y.workers
    ensures RecordInv(y.(workers := y.workers[k := NewWorker(k)]), marks + [Began(k)], before)
  {
    hide GaugeByRecord, Flights, Keyed, Made, NewWorker;
    NewMakesNothing(k);
    FlightBegins(y.workers, marks, k, NewWorker(k));
    EndKeepsGauge(y.c.gauge, marks, before, Began(k));
  }

  lemma OtherEventRecorded(y: System, marks: seq<Mark>, before: map<string, nat>, e: Event)
    requires RecordInv(y, marks, before) && !e.Call?
    ensures RecordInv(Next(y, e), marks + MarksOf(y, e), before)
  {
    EnvironmentKeyed(y.c, e);
    assert marks + [] == marks;
    if e.Enqueue? && e.key !in y.workers {
      EnqueueRecorded(y, marks, before, e.key);
      hide RecordInv, Environment, NewWorker;
    } else if e.Restart? {
      FlightsCleared(y.workers, marks, before);
      hide GaugeByRecord, Flights, Environment, Keyed;
    } else {
      hide GaugeByRecord, Flights, Environment, Keyed;
    }
  }

  lemma NewMakesNothing(k: Key)
    ensures NewWorker(k).key == k && NewWorker(k).cr.key == k && NewWorker(k).pc == Start && Made(NewWorker(k).pc) == []
  {
  }

  lemma EventRecorded(y: System, marks: seq<Mark>, before: map<string, nat>, e: Event)
    requires RecordInv(y, marks, before)
    ensures RecordInv(Next(y, e), marks + MarksOf(y, e), before)
  {
    hide RecordInv, CallNext;
    if e.Call? && e.key in y.workers {
      CallRecorded(y, marks, before, e.key, e.reply);
    } else if e.Call? {
      assert marks + [] == marks;
    } else {
      OtherEventRecorded(y, marks, before, e);
    }
  }

  lemma {:induction false} RecordReachable(y: System, es: seq<Event>)
    requires Initial(y)
    ensures RecordInv(Runs(y, es), Marks(y, es), y.c.gauge)
    decreases |es|
  {
    if es != [] {
      hide Next, Initial, RecordInv, MarksOf;
      RecordReachable(y, es[..|es| - 1]);
      EventRecorded(Runs(y, es[..|es| - 1]), Marks(y, es[..|es| - 1]), y.c.gauge, es[|es| - 1]);
    }
  }

  /** In every reachable state the gauge of a name is its last write since the operator started, however
      passes over keys of that name overlap. */
  lemma {:induction false} GaugeIsLastWrite(y: System, es: seq<Event>, name: string)
    requires Initial(y)
    ensures ValueOf(Runs(y, es).c.gauge, name) == LastWrite(Marks(y, es), name, ValueOf(y.c.gauge, name))
  {
    hide Runs, Marks, LastWrite, Flights;
    RecordReachable(y, es);
  }

  /** A pass that ends has made exactly the one write its verdict calls for, and none if it calls for
      none. */
  lemma {:induction false} PassWritesItsOutcome(y: System, es: seq<Event>, i: nat, k: Key, v: Verdict)
    requires Initial(y) && i < |Marks(y, es)| && Marks(y, es)[i] == Ended(k, v)
    ensures InFlight(Marks(y, es)[..i], k) && WritesSince(Marks(y, es)[..i], k) == AsSeq(GaugeOf(v))
  {
    hide Runs, Marks, LastWrite, InFlight, WritesSince;
    RecordReachable(y, es);
  }
}
