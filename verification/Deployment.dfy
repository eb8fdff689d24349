/**
 What a reader of the cluster finds: which objects there are for a DeviceConfig, by name and namespace,
 and what is in them, value by value.
 */
module Deployment {
  import opened Wrappers
  import opened Api
  import opened Objects
  import opened Children
  import KmmModule
  import NodeLabeler
  import NodeMetrics

  // ---------- names ----------

  /** Kind, namespace and name of the four children. */
  function KeyOf(k: Key, s: Stage): ChildKey {
    match s
    case ModuleStage => ChildKey(KindModule, Key(k.ns, k.name + "-module"))
    case LabelerStage => ChildKey(KindDaemonSet, Key(k.ns, k.name + "-node-labeler"))
    case MetricsStage => ChildKey(KindDaemonSet, Key(k.ns, k.name + "-node-metrics"))
    case ServiceStage => ChildKey(KindService, Key(k.ns, k.name + "-node-metrics"))
  }

  lemma ChildrenAreThere(k: Key, s: Stage)
    ensures ChildKeyOf(k, s) == KeyOf(k, s)
  {
  }

  // ---------- contents ----------

  /** The nodes a DeviceConfig is for. */
  function Claim(spec: Spec): Labels {
    match spec.nodeSelector
    case Some(selector) => selector
    case None => map["feature.node.kubernetes.io/pci-1da3.present" := "true"]
  }

  function PodLabels(component: string): Labels {
    map["app.kubernetes.io/name" := "habana-ai-operator", "app.kubernetes.io/component" := component]
  }

  /** The first reference that is a controller, and the first of that kind and name, is this DeviceConfig. */
  ghost predicate OwnedBy(o: Object, k: Key, uid: nat) {
    exists i :: 0 <= i < |o.owners| && o.owners[i] == OwnerRef("habana.ai/DeviceConfig", k.name, uid, true) &&
                forall j :: 0 <= j < i ==>
                  !o.owners[j].controller && (o.owners[j].kind != "habana.ai/DeviceConfig" || o.owners[j].name != k.name)
  }

  /** A DaemonSet whose pods run one image with one host directory on the claimed nodes. */
  predicate RunsOn(o: Object, component: string, image: string, directory: string, claim: Labels) {
    && o.spec.DaemonSetSpec?
    && o.spec.matchLabels == PodLabels(component)
    && o.spec.template == PodTemplate(PodLabels(component), component, image, directory, claim, component)
  }

  /** The object belongs to this DeviceConfig and holds what a specification and the settings ask for. */
  ghost predicate Shows(s: Stage, o: Object, k: Key, uid: nat, spec: Spec, st: Settings) {
    && OwnedBy(o, k, uid)
    && match s
       case ModuleStage =>
         o.spec == ModuleSpec(
           ["--dev_type", "gaudi"], st.devicePluginImage,
           [KernelMapping(spec.driverImage + ":" + spec.driverVersion + "-${KERNEL_FULL_VERSION}",
                          "^.*\\.el\\d_?\\d?\\..*$")],
           "habanalabs", Claim(spec))
       case LabelerStage =>
         RunsOn(o, "node-labeler", st.nodeLabelerImage, "/etc/kubernetes/node-feature-discovery/features.d", Claim(spec))
       case MetricsStage =>
         RunsOn(o, "node-metrics", st.nodeMetricsImage, "/var/lib/kubelet/pod-resources", Claim(spec))
       case ServiceStage =>
         && o.labels == PodLabels("node-metrics") && o.annotations == map["prometheus.io/scrape" := "true"]
         && o.spec == ServiceSpec(PodLabels("node-metrics"), [ServicePort("node-metrics", 41611, 41611)])
  }

  lemma ClaimIsSelector(cr: DeviceConfig)
    ensures Selector(cr) == Claim(cr.spec)
    ensures forall types :: GetNodeSelector(cr.spec, types) == Claim(cr.spec)
  {
    assert "feature.node.kubernetes.io/pci-" + HABANA_PCI_VENDOR_ID + ".present" == "feature.node.kubernetes.io/pci-1da3.present";
  }

  lemma {:induction false} ControlledAt(owners: seq<OwnerRef>, ref: OwnerRef) returns (i: nat)
    requires ControlledBy(owners, ref)
    ensures i < |owners| && owners[i] == ref && forall j :: 0 <= j < i ==> !owners[j].controller && !SameObject(owners[j], ref)
  {
    if owners[0] == ref {
      i := 0;
    } else {
      i := ControlledAt(owners[1..], ref);
      i := i + 1;
    }
  }

  lemma {:induction false} ControlsFrom(owners: seq<OwnerRef>, ref: OwnerRef, i: nat)
    requires i < |owners| && owners[i] == ref && forall j :: 0 <= j < i ==> !owners[j].controller && !SameObject(owners[j], ref)
    ensures ControlledBy(owners, ref)
  {
    if i > 0 { ControlsFrom(owners[1..], ref, i - 1); }
  }

  /** To be what a DeviceConfig asks for is to show these values. */
  lemma ConformsIffShows(s: Stage, o: Object, cr: DeviceConfig, st: Settings)
    ensures Conforms(s, o, cr, st) <==> Shows(s, o, cr.key, cr.uid, cr.spec, st)
  {
    ClaimIsSelector(cr);
    var ref := OwnerRef("habana.ai/DeviceConfig", cr.key.name, cr.uid, true);
    assert Ref(cr) == ref;
    if ControlledBy(o.owners, ref) { var i := ControlledAt(o.owners, ref); }
    if i :| 0 <= i < |o.owners| && o.owners[i] == ref &&
            forall j :: 0 <= j < i ==> !o.owners[j].controller && !SameObject(o.owners[j], ref) {
      ControlsFrom(o.owners, ref, i);
    }
    hide ControlledBy;
  }

  // ---------- whose pods are whose ----------

  /** The Service reaches the pods of every metrics DaemonSet of its namespace, and none of a labeler; each
      DaemonSet selects its own pods. */
  lemma ServiceReachesMetricsPods(service: Object, metrics: Object, labeler: Object,
                                  a: DeviceConfig, b: DeviceConfig, c: DeviceConfig, st: Settings)
    requires Conforms(ServiceStage, service, a, st) && Conforms(MetricsStage, metrics, b, st) && Conforms(LabelerStage, labeler, c, st)
    ensures Matches(service.spec.podSelector, metrics.spec.template.labels)
    ensures !Matches(service.spec.podSelector, labeler.spec.template.labels)
    ensures Matches(metrics.spec.matchLabels, metrics.spec.template.labels)
    ensures !Matches(metrics.spec.matchLabels, labeler.spec.template.labels)
    ensures Matches(labeler.spec.matchLabels, labeler.spec.template.labels)
    ensures !Matches(labeler.spec.matchLabels, metrics.spec.template.labels)
  {
    assert "app.kubernetes.io/component" in NodeMetrics.ComponentLabels() && "app.kubernetes.io/component" in NodeLabeler.ComponentLabels();
    assert "node-metrics"[5] != "node-labeler"[5];
  }
}
