/** The node metrics DaemonSet and Service (internal/node/metrics). */
module NodeMetrics {
  import opened Wrappers
  import opened Api
  import opened Objects

  const COMPONENT := "node-metrics"
  const SUFFIX := "-node-metrics"
  const POD_RESOURCES := "/var/lib/kubelet/pod-resources"
  const PORT := 41611

  function MetricsName(key: Key): string {
    key.name + SUFFIX
  }

  function ComponentLabels(): Labels {
    map["app.kubernetes.io/name" := OPERATOR_NAME, "app.kubernetes.io/component" := COMPONENT]
  }

  function ScrapeAnnotations(): Labels {
    map["prometheus.io/scrape" := "true"]
  }

  function DesiredTemplate(cr: DeviceConfig, st: Settings): PodTemplate {
    PodTemplate(ComponentLabels(), COMPONENT, st.nodeMetricsImage, POD_RESOURCES,
                GetNodeSelector(cr.spec, ["gaudi"]), COMPONENT)
  }

  /** Of all the settings and of the DeviceConfig the pods depend on one image and the effective selector. */
  lemma SameTemplateIff(a: DeviceConfig, b: DeviceConfig, st: Settings, st': Settings)
    ensures DesiredTemplate(a, st) == DesiredTemplate(b, st') <==>
            Selector(a) == Selector(b) && st.nodeMetricsImage == st'.nodeMetricsImage
  {
    OneSelectorForAll(a.spec, ["gaudi"], map[]);
    OneSelectorForAll(b.spec, ["gaudi"], map[]);
  }

  /** The fields the operator never sets are those of the object at hand. */
  function DesiredSpec(o: Object, cr: DeviceConfig, st: Settings): ChildSpec {
    var unmanaged := if o.spec.DaemonSetSpec? then o.spec.unmanaged else "";
    DaemonSetSpec(ComponentLabels(), DesiredTemplate(cr, st), unmanaged)
  }

  function SetDesiredDaemonSet(o: Object, cr: DeviceConfig, st: Settings): Result<Object, Error> {
    match SetControllerReference(o.owners, Ref(cr))
    case Success(owners) =>
      Success(o.(owners := owners, spec := DesiredSpec(o, cr, st)))
    case Failure(e) => Failure(e)
  }

  function DesiredService(o: Object): Object {
    o.(labels := ComponentLabels(), annotations := ScrapeAnnotations(),
       spec := ServiceSpec(ComponentLabels(), [ServicePort(COMPONENT, PORT, PORT)]))
  }

  /** The Service setter replaces labels, annotations and the whole spec. */
  function SetDesiredService(o: Object, cr: DeviceConfig): Result<Object, Error> {
    match SetControllerReference(o.owners, Ref(cr))
    case Success(owners) =>
      Success(DesiredService(o.(owners := owners)))
    case Failure(e) => Failure(e)
  }

  method SetDesiredNodeMetricsDaemonSet(ds: ChildObject?, cr: DeviceConfig, st: Settings) returns (err: Error)
    modifies ds
    ensures ds == null <==> err == NilObject
    ensures ds != null ==>
              match SetDesiredDaemonSet(old(ds.Value()), cr, st)
              case Success(o) => err == Nil && ds.Value() == o
              case Failure(e) => err == e && ds.Value() == old(ds.Value()).(spec := DesiredSpec(old(ds.Value()), cr, st))
  {
    if ds == null {
      return NilObject;
    }
    var labels := ComponentLabels();
    var selector := GetNodeSelector(cr.spec, ["gaudi"]);
    var nodeSelector: Labels := map[];
    var rest := selector.Keys;
    while rest != {}
      invariant rest <= selector.Keys
      invariant nodeSelector == selector - rest
    {
      var k :| k in rest;
      nodeSelector := nodeSelector[k := selector[k]];
      rest := rest - {k};
    }
    assert nodeSelector == selector;
    var unmanaged := if ds.spec.DaemonSetSpec? then ds.spec.unmanaged else "";
    ds.spec := DaemonSetSpec(labels, PodTemplate(labels, COMPONENT, st.nodeMetricsImage,
                                                 POD_RESOURCES, nodeSelector, COMPONENT), unmanaged);
    match SetControllerReference(ds.owners, Ref(cr))
    case Success(owners) =>
      ds.owners := owners;
      err := Nil;
    case Failure(e) =>
      err := e;
  }

  method SetDesiredNodeMetricsService(s: ChildObject?, cr: DeviceConfig) returns (err: Error)
    modifies s
    ensures s == null <==> err == NilObject
    ensures s != null ==>
              match SetDesiredService(old(s.Value()), cr)
              case Success(o) => err == Nil && s.Value() == o
              case Failure(e) => err == e && s.Value() == DesiredService(old(s.Value()))
  {
    if s == null {
      return NilObject;
    }
    s.labels := ComponentLabels();
    s.annotations := map["prometheus.io/scrape" := "true"];
    s.spec := ServiceSpec(ComponentLabels(), [ServicePort(COMPONENT, PORT, PORT)]);
    match SetControllerReference(s.owners, Ref(cr))
    case Success(owners) =>
      s.owners := owners;
      err := Nil;
    case Failure(e) =>
      err := e;
  }
}
