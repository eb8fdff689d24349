/**
 Whole runs: users, nodes, the garbage collector and one worker per DeviceConfig key take turns,
 one API call at a time, in any order. Events that are not possible in a state do nothing.
 */
module System {
  import opened Wrappers
  import opened Api
  import opened Objects
  import opened Children
  import opened Store
  import opened Machine
  import Finalizers

  datatype Event =
    | UserCreate(key: Key, spec: Spec, finalizers: seq<string>)
    | UserEditDriver(key: Key, image: string, version: string)
    | UserEditSelector(key: Key, selector: Option<Labels>)
    | UserAddFinalizer(key: Key, f: string)
    | UserRemoveFinalizer(key: Key, f: string)
    | UserDelete(key: Key)
    | NodeLeaves(name: string)
    | NodeSet(name: string, labels: Labels)   // a node joins or is relabelled
    | CollectGarbage(ck: ChildKey)
    | ModuleAddFinalizer(ck: ChildKey, f: string)   // another controller holds on to a Module
    | ModuleRemoveFinalizer(ck: ChildKey, f: string)
    | Tick
    | Enqueue(key: Key)                       // a worker picks the key up
    | Call(key: Key, reply: Reply)            // that worker makes its next API call
    | Restart                                 // the operator's process starts anew

  /** The last Ready=True of a DeviceConfig: the generation it was committed for, and whether the
      committing pass worked from the very specification that was stored at that instant. */
  datatype Commitment = Commitment(generation: nat, exact: bool)

  /** Per key and uid. */
  type Commitments = map<(Key, nat), Commitment>

  datatype System = System(c: World, workers: map<Key, Worker>, ready: Commitments)

  // ---------- users ----------

  function Create(c: World, key: Key, spec: Spec, finalizers: seq<string>): World {
    if key in c.dcs then c
    else
      var dc := DeviceConfig(key, c.nextUid, c.nextRv, 1, false, finalizers, spec, []);
      c.(dcs := c.dcs[key := dc], nextUid := c.nextUid + 1, nextRv := c.nextRv + 1)
  }

  function EditSpec(c: World, key: Key, spec: Spec): World
    requires key in c.dcs
  {
    var stored := c.dcs[key];
    if spec == stored.spec then c
    else Commit(c, stored, stored.(spec := spec, generation := stored.generation + 1)).0
  }

  function EditFinalizers(c: World, key: Key, finalizers: seq<string>): World
    requires key in c.dcs
  {
    Commit(c, c.dcs[key], c.dcs[key].(finalizers := finalizers)).0
  }

  function Delete(c: World, key: Key): World
    requires key in c.dcs
  {
    var stored := c.dcs[key];
    if stored.deleting then c
    else Commit(c, stored, stored.(deleting := true, generation := stored.generation + 1)).0
  }

  /** None of the object's owners is stored any more. */
  predicate Orphan(c: World, o: Object) {
    o.owners != [] && forall r, k :: r in o.owners && k in c.dcs ==> c.dcs[k].uid != r.uid
  }

  function Environment(c: World, e: Event): World {
    match e
    case UserCreate(key, spec, finalizers) => Create(c, key, spec, finalizers)
    case UserEditDriver(key, image, version) =>
      if key in c.dcs then EditSpec(c, key, c.dcs[key].spec.(driverImage := image, driverVersion := version)) else c
    case UserEditSelector(key, selector) =>
      if key in c.dcs then EditSpec(c, key, c.dcs[key].spec.(nodeSelector := selector)) else c
    case UserAddFinalizer(key, f) =>
      if key in c.dcs && !c.dcs[key].deleting
      then EditFinalizers(c, key, Finalizers.Add(c.dcs[key].finalizers, f)) else c
    case UserRemoveFinalizer(key, f) =>
      if key in c.dcs then EditFinalizers(c, key, Finalizers.Remove(c.dcs[key].finalizers, f)) else c
    case UserDelete(key) => if key in c.dcs then Delete(c, key) else c
    case NodeLeaves(name) => c.(nodes := c.nodes - {name})
    case NodeSet(name, labels) => c.(nodes := c.nodes[name := labels])
    case CollectGarbage(ck) =>
      if ck in c.children && Orphan(c, c.children[ck]) then DeleteChild(c, ck).0 else c
    case ModuleAddFinalizer(ck, f) =>
      if ck in c.children && ck.kind.KindModule? && !c.children[ck].deleting
      then SetChildFinalizers(c, ck, Finalizers.Add(c.children[ck].finalizers, f)) else c
    case ModuleRemoveFinalizer(ck, f) =>
      if ck in c.children && ck.kind.KindModule?
      then SetChildFinalizers(c, ck, Finalizers.Remove(c.children[ck].finalizers, f)) else c
    case Tick => c.(clock := c.clock + 1)
    case Restart => c.(gauge := map[])
    case Enqueue(_) => c
    case Call(_, _) => c
  }

  /** An edit is stored as it is made, and touches nothing else of the DeviceConfig. */
  lemma EditsAreStored(c: World, key: Key, image: string, version: string, selector: Option<Labels>)
    requires key in c.dcs && c.dcs[key].key == key && (c.dcs[key].deleting ==> c.dcs[key].finalizers != [])
    ensures var was, c' := c.dcs[key], Environment(c, UserEditDriver(key, image, version));
            && key in c'.dcs && c'.dcs[key].spec == Spec(image, version, was.spec.nodeSelector)
            && c'.dcs[key] == was.(spec := c'.dcs[key].spec, rv := c'.dcs[key].rv, generation := c'.dcs[key].generation)
    ensures var was, c' := c.dcs[key], Environment(c, UserEditSelector(key, selector));
            && key in c'.dcs && c'.dcs[key].spec == was.spec.(nodeSelector := selector)
            && c'.dcs[key] == was.(spec := c'.dcs[key].spec, rv := c'.dcs[key].rv, generation := c'.dcs[key].generation)
  {
  }

  /** A DeviceConfig that is deleted stays, otherwise as it was, while it has finalizers. */
  lemma DeletedIsMarked(c: World, key: Key)
    requires key in c.dcs && c.dcs[key].key == key && (c.dcs[key].deleting ==> c.dcs[key].finalizers != [])
    ensures var was, c' := c.dcs[key], Environment(c, UserDelete(key));
            && (was.finalizers == [] <==> key !in c'.dcs)
            && (key in c'.dcs ==> c'.dcs[key] == was.(deleting := true, rv := c'.dcs[key].rv, generation := c'.dcs[key].generation))
  {
  }

  /** What is created is stored as it is asked for, live, unmarked and under a number never given out before;
      a name that is taken stays with what has it. */
  lemma CreatedIsStored(c: World, key: Key, spec: Spec, finalizers: seq<string>)
    ensures var c' := Environment(c, UserCreate(key, spec, finalizers));
            && (key in c.dcs ==> c' == c)
            && (key !in c.dcs ==>
                  && c'.dcs == c.dcs[key := DeviceConfig(key, c.nextUid, c.nextRv, 1, false, finalizers, spec, [])]
                  && c'.nextUid == c.nextUid + 1 && c'.nextRv == c.nextRv + 1 && c'.children == c.children)
  {
  }

  lemma NodesComeAndGo(c: World, name: string, labels: Labels)
    ensures Environment(c, NodeLeaves(name)).nodes == map n | n in c.nodes && n != name :: c.nodes[n]
    ensures forall n :: n in Environment(c, NodeSet(name, labels)).nodes <==> n == name || n in c.nodes
    ensures forall n :: n in Environment(c, NodeSet(name, labels)).nodes ==>
              Environment(c, NodeSet(name, labels)).nodes[n] == if n == name then labels else c.nodes[n]
  {
  }

  /** Finalizers can be put on what is not being deleted; the last one taken off lets it go. */
  lemma FinalizersComeAndGo(c: World, key: Key, f: string)
    requires key in c.dcs && c.dcs[key].key == key && (c.dcs[key].deleting ==> c.dcs[key].finalizers != [])
    ensures var c' := Environment(c, UserAddFinalizer(key, f)); key in c'.dcs && (!c.dcs[key].deleting ==> f in c'.dcs[key].finalizers)
    ensures var was, c' := c.dcs[key], Environment(c, UserRemoveFinalizer(key, f));
            && (key !in c'.dcs <==> was.deleting && forall g :: g in was.finalizers ==> g == f)
            && (key in c'.dcs ==> forall g :: g in c'.dcs[key].finalizers <==> g in was.finalizers && g != f)
  {
    Finalizers.RemoveLaws(c.dcs[key].finalizers, f);
    Finalizers.NothingElse(c.dcs[key].finalizers, f);
    hide Finalizers.Remove;
  }

  /** The garbage collector takes what has owners and none that is stored; a Module can be held on to until it
      is deleted. */
  lemma ChildrenComeAndGo(c: World, ck: ChildKey, f: string)
    requires ck in c.children
    ensures c.children[ck].owners != [] && Unheld(c, ck) ==>
              (ck !in Environment(c, CollectGarbage(ck)).children <==>
               forall r, k :: r in c.children[ck].owners && k in c.dcs ==> c.dcs[k].uid != r.uid)
    ensures c.children[ck].owners == [] ==> Environment(c, CollectGarbage(ck)) == c
    ensures ck.kind.KindModule? && !c.children[ck].deleting ==> !Unheld(Environment(c, ModuleAddFinalizer(ck, f)), ck)
    ensures ck.kind.KindModule? && c.children[ck].deleting && c.children[ck].finalizers == [f] ==>
              ck !in Environment(c, ModuleRemoveFinalizer(ck, f)).children
  {
    Finalizers.NothingElse([f], f);
    hide Finalizers.Remove;
  }

  // ---------- workers ----------

  /** The Ready=True status write that `w` makes next is stored. */
  predicate CommitsReady(w: Worker, c: World, r: Reply) {
    w.pc.ReportReady? && !r.Fail? && w.cr.key in c.dcs && c.dcs[w.cr.key].rv == w.cr.rv
  }

  /** The record after the call of `w`. */
  function ReadyAfter(c: World, ready: Commitments, w: Worker, r: Reply): Commitments {
    if CommitsReady(w, c, r)
    then ready[(w.cr.key, w.cr.uid) := Commitment(w.cr.generation, c.dcs[w.cr.key].spec == w.cr.spec)]
    else ready
  }

  function CallNext(y: System, key: Key, r: Reply): System
    requires key in y.workers
  {
    var w := y.workers[key];
    var (w', c') := Step(w, y.c, r);
    System(
      c',
      if w'.pc.Done? then y.workers - {key} else y.workers[key := w'],
      ReadyAfter(y.c, y.ready, w, r))
  }

  function Next(y: System, e: Event): System {
    match e
    case Enqueue(key) => if key in y.workers then y else y.(workers := y.workers[key := NewWorker(key)])
    case Call(key, r) => if key in y.workers then CallNext(y, key, r) else y
    case Restart => y.(c := Environment(y.c, e), workers := map[])
    case _ => y.(c := Environment(y.c, e))
  }

  function Runs(y: System, es: seq<Event>): System {
    if es == [] then y else Next(Runs(y, es[..|es| - 1]), es[|es| - 1])
  }

  // ---------- runs that delete nothing others hold on to ----------

  /** Nothing holds on to the object with this key, if there is one. */
  predicate Unheld(c: World, ck: ChildKey) {
    ck in c.children ==> c.children[ck].finalizers == []
  }

  /** If the call deletes the Module, nobody else holds on to it. */
  predicate SparesCall(c: World, w: Worker, r: Reply) {
    w.pc.DeleteModule? && !r.Fail? ==> Unheld(c, ChildKeyOf(w.key, ModuleStage))
  }

  /** If the garbage collector deletes an object, nobody else holds on to it. */
  predicate SparesEvent(c: World, e: Event) {
    e.CollectGarbage? && e.ck in c.children && Orphan(c, c.children[e.ck]) ==> Unheld(c, e.ck)
  }

  predicate Spares(y: System, e: Event) {
    SparesEvent(y.c, e) && (e.Call? && e.key in y.workers ==> SparesCall(y.c, y.workers[e.key], e.reply))
  }

  /** No Delete in the run meets an object that others hold on to. Finalizers may be put on Modules and
      taken off. */
  predicate SparesAll(y: System, es: seq<Event>) {
    es == [] || (SparesAll(y, es[..|es| - 1]) && Spares(Runs(y, es[..|es| - 1]), es[|es| - 1]))
  }

  /** Before the operator is installed: any nodes and settings, no DeviceConfigs, no children. */
  predicate Initial(y: System) {
    y.c.dcs == map[] && y.c.children == map[] && y.workers == map[] && y.ready == map[]
  }
}
