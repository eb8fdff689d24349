/**
 The API server as its clients see it, together with the operator's gauge: versioned
 DeviceConfigs, nodes and children, and the rules by which calls change them.
 */
module Store {
  import opened Wrappers
  import opened Ordering
  import opened Api
  import opened Objects
  import opened Children

  datatype Node = Node(name: string, labels: Labels)

  datatype World = World(
    dcs: map<Key, DeviceConfig>,
    nodes: map<string, Labels>,
    children: map<ChildKey, Object>,
    gauge: map<string, nat>,
    settings: Settings,
    nextUid: nat, nextRv: nat, clock: nat)

  /** Every DeviceConfig is stored under its own key. */
  ghost predicate Keyed(c: World) {
    forall k :: k in c.dcs ==> c.dcs[k].key == k
  }

  // ---------- lists ----------

  predicate KeyLeq(a: Key, b: Key) {
    if a.ns == b.ns then StringLeq(a.name, b.name) else StringLeq(a.ns, b.ns)
  }

  lemma KeyLeqIsTotalOrder()
    ensures TotalOrder(KeyLeq)
  {
    StringLeqIsTotalOrder();
    forall a, b ensures (KeyLeq(a, b) || KeyLeq(b, a)) && (KeyLeq(a, b) && KeyLeq(b, a) ==> a == b) {
      StringLeqTotal(a.ns, b.ns);
      StringLeqTotal(a.name, b.name);
    }
    forall a, b, c | KeyLeq(a, b) && KeyLeq(b, c) ensures KeyLeq(a, c) {
      if a.ns != b.ns && b.ns != c.ns { StringLeqTotal(a.ns, b.ns); }
      if a.ns == b.ns == c.ns {
        StringLeqTransitive(a.name, b.name, c.name);
      } else {
        StringLeqTransitive(a.ns, b.ns, c.ns);
      }
    }
  }

  function SortedKeys(s: set<Key>): (r: seq<Key>)
    ensures |r| == |s| && NoDup(r) && forall x :: x in r <==> x in s
  {
    KeyLeqIsTotalOrder();
    Enumerate(s, KeyLeq)
  }

  function SortedNames(s: set<string>): (r: seq<string>)
    ensures |r| == |s| && NoDup(r) && forall x :: x in r <==> x in s
  {
    StringLeqIsTotalOrder();
    Enumerate(s, StringLeq)
  }

  /** All DeviceConfigs of the cluster, in key order. */
  function ListDeviceConfigs(c: World): (items: seq<DeviceConfig>)
    ensures |items| == |c.dcs|
  {
    var keys := SortedKeys(c.dcs.Keys);
    seq(|keys|, i requires 0 <= i < |keys| => assert keys[i] in keys; c.dcs[keys[i]])
  }

  /** The nodes a selector matches, in name order. */
  function SelectNodes(c: World, selector: Labels): (items: seq<Node>) {
    var names := SortedNames(set n | n in c.nodes && Matches(selector, c.nodes[n]));
    seq(|names|, i requires 0 <= i < |names| => assert names[i] in names; Node(names[i], c.nodes[names[i]]))
  }

  function Names(nodes: seq<Node>): seq<string> {
    seq(|nodes|, i requires 0 <= i < |nodes| => nodes[i].name)
  }

  /** A listing holds each stored object once. */
  lemma ListedOnce(c: World, k: Key)
    requires k in c.dcs
    ensures exists i :: 0 <= i < |ListDeviceConfigs(c)| && ListDeviceConfigs(c)[i] == c.dcs[k]
  {
    var keys := SortedKeys(c.dcs.Keys);
    assert k in keys;
    var i :| 0 <= i < |keys| && keys[i] == k;
    assert ListDeviceConfigs(c)[i] == c.dcs[k];
  }

  lemma ListedIsStored(c: World, i: nat)
    requires i < |ListDeviceConfigs(c)|
    ensures exists k :: k in c.dcs && c.dcs[k] == ListDeviceConfigs(c)[i]
  {
    var keys := SortedKeys(c.dcs.Keys);
    assert keys[i] in keys;
    assert c.dcs[keys[i]] == ListDeviceConfigs(c)[i];
  }

  lemma ListedKeysDistinct(c: World)
    requires Keyed(c)
    ensures forall i, j :: 0 <= i < j < |ListDeviceConfigs(c)| ==>
              ListDeviceConfigs(c)[i].key != ListDeviceConfigs(c)[j].key
  {
    var keys := SortedKeys(c.dcs.Keys);
    forall i, j | 0 <= i < j < |ListDeviceConfigs(c)|
      ensures ListDeviceConfigs(c)[i].key != ListDeviceConfigs(c)[j].key
    {
      assert keys[i] in keys && keys[j] in keys && keys[i] != keys[j];
    }
  }

  /** A selection lists exactly the matching nodes, each once. */
  lemma SelectionExact(c: World, selector: Labels)
    ensures forall n :: n in Names(SelectNodes(c, selector)) <==> n in c.nodes && Matches(selector, c.nodes[n])
    ensures NoDup(Names(SelectNodes(c, selector)))
  {
    var names := SortedNames(set n | n in c.nodes && Matches(selector, c.nodes[n]));
    assert Names(SelectNodes(c, selector)) == names;
  }

  // ---------- DeviceConfigs ----------

  /** Stores `next` over `stored`. A write that changes nothing keeps the version; a deleting
      object without finalizers is gone. */
  function Commit(c: World, stored: DeviceConfig, next: DeviceConfig): (World, DeviceConfig) {
    if next == stored then (c, stored)
    else
      var saved := next.(rv := c.nextRv);
      var dcs := if saved.deleting && saved.finalizers == [] then c.dcs - {saved.key} else c.dcs[saved.key := saved];
      (c.(dcs := dcs, nextRv := c.nextRv + 1), saved)
  }

  /** What a full update makes of the stored object: the specification as encoded, the finalizers, and a
      new generation if the specification changed. */
  function Updated(stored: DeviceConfig, cr: DeviceConfig): DeviceConfig {
    var spec := Encoded(cr.spec);
    stored.(spec := spec, finalizers := cr.finalizers,
            generation := if spec == stored.spec then stored.generation else stored.generation + 1)
  }

  /** A full update: everything but the status, if the caller read the stored version. The
      specification is stored as encoded; the caller's object keeps what was left out. */
  function Update(c: World, cr: DeviceConfig): (World, Result<DeviceConfig, Error>) {
    if cr.key !in c.dcs then (c, Failure(NotFound))
    else
      var stored := c.dcs[cr.key];
      if stored.rv != cr.rv then (c, Failure(Conflict))
      else
        var (c', saved) := Commit(c, stored, Updated(stored, cr));
        (c', Success(saved.(spec := cr.spec)))
  }

  /** A status update: only the conditions, if the caller read the stored version. */
  function UpdateStatus(c: World, cr: DeviceConfig): (World, Result<DeviceConfig, Error>) {
    if cr.key !in c.dcs then (c, Failure(NotFound))
    else
      var stored := c.dcs[cr.key];
      if stored.rv != cr.rv then (c, Failure(Conflict))
      else
        var (c', saved) := Commit(c, stored, stored.(conditions := cr.conditions));
        (c', Success(saved))
  }

  /** What a full update does: it goes through exactly with the version that is stored, and then the
      specification, with an empty selector left out, and the finalizers are the caller's; conditions,
      identity and deletion are not for it to change. What is being deleted goes with its last finalizer. */
  lemma UpdateTakes(c: World, cr: DeviceConfig)
    requires Keyed(c)
    ensures var (c', res) := Update(c, cr);
            && (res.Success? <==> cr.key in c.dcs && c.dcs[cr.key].rv == cr.rv)
            && (res == Failure(NotFound) <==> cr.key !in c.dcs)
            && (res.Failure? ==> c' == c)
            && c' == c.(dcs := c'.dcs, nextRv := c'.nextRv)
            && (forall k :: k != cr.key ==> (k in c'.dcs <==> k in c.dcs) && (k in c.dcs ==> c'.dcs[k] == c.dcs[k]))
            && (res.Success? ==>
                  var was := c.dcs[cr.key];
                  var spec := cr.spec.(nodeSelector := if cr.spec.nodeSelector == Some(map[]) then None else cr.spec.nodeSelector);
                  && res.value.spec == cr.spec
                  && if spec == was.spec && cr.finalizers == was.finalizers then c' == c
                     else if was.deleting && cr.finalizers == [] then cr.key !in c'.dcs
                     else
                       && cr.key in c'.dcs && c'.nextRv == c.nextRv + 1
                       && c'.dcs[cr.key] == DeviceConfig(
                            was.key, was.uid, c.nextRv, if spec == was.spec then was.generation else was.generation + 1,
                            was.deleting, cr.finalizers, spec, was.conditions))
  {
  }

  /** What a status update does: it goes through exactly with the version that is stored, and then the
      conditions are the caller's; nothing else is for it to change. */
  lemma UpdateStatusTakes(c: World, cr: DeviceConfig)
    requires Keyed(c) && forall k :: k in c.dcs && c.dcs[k].deleting ==> c.dcs[k].finalizers != []
    ensures var (c', res) := UpdateStatus(c, cr);
            && (res.Success? <==> cr.key in c.dcs && c.dcs[cr.key].rv == cr.rv)
            && (res == Failure(NotFound) <==> cr.key !in c.dcs)
            && (res.Failure? ==> c' == c)
            && c' == c.(dcs := c'.dcs, nextRv := c'.nextRv)
            && c'.dcs.Keys == c.dcs.Keys
            && (forall k :: k in c.dcs && k != cr.key ==> c'.dcs[k] == c.dcs[k])
            && (res.Success? ==>
                  var was := c.dcs[cr.key];
                  if cr.conditions == was.conditions then c' == c
                  else c'.nextRv == c.nextRv + 1 && c'.dcs[cr.key] == was.(rv := c.nextRv, conditions := cr.conditions))
  {
  }

  // ---------- children ----------

  /** `versioned` says that the object came from the server; such an object cannot be created. */
  function CreateChild(c: World, ck: ChildKey, o: Object, versioned: bool): (World, Error) {
    if versioned then (c, Invalid)
    else if ck in c.children then (c, AlreadyExists)
    else (c.(children := c.children[ck := o]), Nil)
  }

  function PatchChild(c: World, ck: ChildKey, before: Object, after: Object): (World, Error) {
    if ck !in c.children then (c, NotFound)
    else (c.(children := c.children[ck := MergePatch(before, after, c.children[ck])]), Nil)
  }

  /** A deleted object without finalizers is gone; one with finalizers is marked and stays. */
  function DeleteChild(c: World, ck: ChildKey): (World, Error) {
    if ck !in c.children then (c, NotFound)
    else if c.children[ck].finalizers == [] then (c.(children := c.children - {ck}), Nil)
    else (c.(children := c.children[ck := c.children[ck].(deleting := true)]), Nil)
  }

  /** A marked object goes with its last finalizer. */
  function SetChildFinalizers(c: World, ck: ChildKey, finalizers: seq<string>): World
    requires ck in c.children
  {
    if c.children[ck].deleting && finalizers == [] then c.(children := c.children - {ck})
    else c.(children := c.children[ck := c.children[ck].(finalizers := finalizers)])
  }

  function SetGauge(c: World, name: string, value: nat): World {
    c.(gauge := c.gauge[name := value])
  }

  /** The outcome of a call whose effect would be `(c', result)`, given what happens to it. */
  function Delivered<T>(r: Reply, c: World, effect: (World, Result<T, Error>)): (World, Result<T, Error>) {
    match r
    case Ok => effect
    case Fail => (c, Failure(Unavailable))
    case LostAck => (effect.0, Failure(Unavailable))
  }

  function DeliveredErr(r: Reply, c: World, effect: (World, Error)): (World, Error) {
    match r
    case Ok => effect
    case Fail => (c, Unavailable)
    case LostAck => (effect.0, Unavailable)
  }
}
