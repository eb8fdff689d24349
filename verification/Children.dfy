/**
 The four children of a DeviceConfig in the order they are applied, their names, and what it
 means for a stored child to be what a DeviceConfig asks for.
 */
module Children {
  import opened Wrappers
  import opened Api
  import opened Objects
  import KmmModule
  import NodeLabeler
  import NodeMetrics

  datatype Stage = ModuleStage | LabelerStage | MetricsStage | ServiceStage

  function Rank(s: Stage): nat {
    match s
    case ModuleStage => 0
    case LabelerStage => 1
    case MetricsStage => 2
    case ServiceStage => 3
  }

  function ChildKeyOf(key: Key, s: Stage): ChildKey {
    match s
    case ModuleStage => ChildKey(KindModule, Key(key.ns, KmmModule.ModuleName(key)))
    case LabelerStage => ChildKey(KindDaemonSet, Key(key.ns, NodeLabeler.DaemonSetName(key)))
    case MetricsStage => ChildKey(KindDaemonSet, Key(key.ns, NodeMetrics.MetricsName(key)))
    case ServiceStage => ChildKey(KindService, Key(key.ns, NodeMetrics.MetricsName(key)))
  }

  lemma SuffixesDiffer(a: string, b: string)
    ensures a + NodeLabeler.SUFFIX != b + NodeMetrics.SUFFIX
  {
    var x, y := a + NodeLabeler.SUFFIX, b + NodeMetrics.SUFFIX;
    assert x[|x| - 1] == 'r' && y[|y| - 1] == 's';
  }

  lemma SuffixInjective(a: string, b: string, suffix: string)
    requires a + suffix == b + suffix
    ensures a == b
  {
    var x := a + suffix;
    assert |a| == |b|;
    assert a == x[..|a|] && b == x[..|b|];
  }

  /** Children of different DeviceConfigs, and different children of one, never share a key. */
  lemma ChildKeysDistinct(k1: Key, s1: Stage, k2: Key, s2: Stage)
    ensures ChildKeyOf(k1, s1) == ChildKeyOf(k2, s2) <==> k1 == k2 && s1 == s2
  {
    SuffixesDiffer(k1.name, k2.name);
    SuffixesDiffer(k2.name, k1.name);
    if ChildKeyOf(k1, s1) == ChildKeyOf(k2, s2) {
      var suffix := match s1
        case ModuleStage => KmmModule.SUFFIX
        case LabelerStage => NodeLabeler.SUFFIX
        case _ => NodeMetrics.SUFFIX;
      SuffixInjective(k1.name, k2.name, suffix);
    }
  }

  function SetDesired(s: Stage, o: Object, cr: DeviceConfig, st: Settings): Result<Object, Error> {
    match s
    case ModuleStage => KmmModule.SetDesired(o, cr, st)
    case LabelerStage => NodeLabeler.SetDesired(o, cr, st)
    case MetricsStage => NodeMetrics.SetDesiredDaemonSet(o, cr, st)
    case ServiceStage => NodeMetrics.SetDesiredService(o, cr)
  }

  /** Field by field: every field the operator manages holds the value `cr` and the settings ask
      for, and `cr` controls the object. */
  predicate Conforms(s: Stage, o: Object, cr: DeviceConfig, st: Settings) {
    && ControlledBy(o.owners, Ref(cr))
    && match s
       case ModuleStage =>
         o.spec == KmmModule.DesiredSpec(cr, st)
       case LabelerStage =>
         && o.spec.DaemonSetSpec?
         && o.spec.matchLabels == NodeLabeler.ComponentLabels()
         && o.spec.template == NodeLabeler.DesiredTemplate(cr, st)
       case MetricsStage =>
         && o.spec.DaemonSetSpec?
         && o.spec.matchLabels == NodeMetrics.ComponentLabels()
         && o.spec.template == NodeMetrics.DesiredTemplate(cr, st)
       case ServiceStage =>
         && o.labels == NodeMetrics.ComponentLabels()
         && o.annotations == NodeMetrics.ScrapeAnnotations()
         && o.spec == ServiceSpec(NodeMetrics.ComponentLabels(),
                                  [ServicePort(NodeMetrics.COMPONENT, NodeMetrics.PORT, NodeMetrics.PORT)])
  }

  /** A setter succeeds exactly when nobody else controls the object, makes it conform, and
      leaves alone exactly the objects that conform already. */
  lemma SetterMeansConform(s: Stage, o: Object, cr: DeviceConfig, st: Settings)
    ensures SetDesired(s, o, cr, st).Failure? <==>
            ControllerOf(o.owners).Some? && !SameObject(ControllerOf(o.owners).value, Ref(cr))
    ensures SetDesired(s, o, cr, st).Success? ==> Conforms(s, SetDesired(s, o, cr, st).value, cr, st)
    ensures SetDesired(s, o, cr, st) == Success(o) <==> Conforms(s, o, cr, st)
  {
    ControllerIsSet(o.owners, Ref(cr));
    ControllerUnchanged(o.owners, Ref(cr));
  }

  /** Finalizers are not what a setter is about. */
  lemma AlikeConform(s: Stage, o: Object, p: Object, cr: DeviceConfig, st: Settings)
    requires Alike(o, p)
    ensures Conforms(s, o, cr, st) <==> Conforms(s, p, cr, st)
  {
  }

  /** Applying a setter twice is applying it once; what it manages does not depend on the
      object it found, and every other field survives. */
  lemma SetterIdempotentAndFramed(s: Stage, o: Object, p: Object, cr: DeviceConfig, st: Settings)
    requires SetDesired(s, o, cr, st).Success? && SetDesired(s, p, cr, st).Success?
    ensures var once := SetDesired(s, o, cr, st).value; SetDesired(s, once, cr, st) == Success(once)
    ensures var a, b := SetDesired(s, o, cr, st).value, SetDesired(s, p, cr, st).value;
            && a.finalizers == o.finalizers && a.deleting == o.deleting
            && (!s.ServiceStage? ==> a.labels == o.labels && a.annotations == o.annotations)
            && (s.ServiceStage? ==> a.labels == b.labels && a.annotations == b.annotations)
            && (s.ModuleStage? || s.ServiceStage? ==> a.spec == b.spec)
            && (s.LabelerStage? || s.MetricsStage? ==>
                 && a.spec.DaemonSetSpec? && b.spec.DaemonSetSpec?
                 && a.spec.matchLabels == b.spec.matchLabels && a.spec.template == b.spec.template
                 && (o.spec.DaemonSetSpec? ==> a.spec.unmanaged == o.spec.unmanaged))
  {
    SetterMeansConform(s, o, cr, st);
    SetterMeansConform(s, SetDesired(s, o, cr, st).value, cr, st);
  }

  /** The node selector a child carries into the cluster, if it has one. */
  function DeployedSelector(o: Object): Option<Labels> {
    match o.spec
    case ModuleSpec(_, _, _, _, selector) => Some(selector)
    case DaemonSetSpec(_, template, _) => Some(template.nodeSelector)
    case ServiceSpec(_, _) => None
  }

  /** The nodes the validator checks are the nodes the children run on: all three selectors a
      conforming child can carry are the validator's. */
  lemma ValidatedNodesAreDeployedNodes(s: Stage, o: Object, cr: DeviceConfig, st: Settings)
    requires Conforms(s, o, cr, st)
    ensures s.ServiceStage? <==> DeployedSelector(o) == None
    ensures !s.ServiceStage? ==> DeployedSelector(o) == Some(Selector(cr))
  {
  }
}
