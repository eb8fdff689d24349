/** The node labeler DaemonSet (internal/node/labeler). */
module NodeLabeler {
  import opened Wrappers
  import opened Api
  import opened Objects

  const COMPONENT := "node-labeler"
  const SUFFIX := "-node-labeler"
  const FEATURES_DIRECTORY := "/etc/kubernetes/node-feature-discovery/features.d"

  function DaemonSetName(key: Key): string {
    key.name + SUFFIX
  }

  function ComponentLabels(): Labels {
    map["app.kubernetes.io/name" := OPERATOR_NAME, "app.kubernetes.io/component" := COMPONENT]
  }

  function DesiredTemplate(cr: DeviceConfig, st: Settings): PodTemplate {
    PodTemplate(ComponentLabels(), COMPONENT, st.nodeLabelerImage, FEATURES_DIRECTORY,
                GetNodeSelector(cr.spec, []), COMPONENT)
  }

  /** Of all the settings and of the DeviceConfig the pods depend on one image and the effective selector. */
  lemma SameTemplateIff(a: DeviceConfig, b: DeviceConfig, st: Settings, st': Settings)
    ensures DesiredTemplate(a, st) == DesiredTemplate(b, st') <==>
            Selector(a) == Selector(b) && st.nodeLabelerImage == st'.nodeLabelerImage
  {
    OneSelectorForAll(a.spec, ["gaudi"], map[]);
    OneSelectorForAll(b.spec, ["gaudi"], map[]);
  }

  /** The fields the operator never sets are those of the object at hand. */
  function DesiredSpec(o: Object, cr: DeviceConfig, st: Settings): ChildSpec {
    var unmanaged := if o.spec.DaemonSetSpec? then o.spec.unmanaged else "";
    DaemonSetSpec(ComponentLabels(), DesiredTemplate(cr, st), unmanaged)
  }

  /** The object after the setter ran on `o`; the spec fields it does not manage stay. */
  function SetDesired(o: Object, cr: DeviceConfig, st: Settings): Result<Object, Error> {
    match SetControllerReference(o.owners, Ref(cr))
    case Success(owners) =>
      Success(o.(owners := owners, spec := DesiredSpec(o, cr, st)))
    case Failure(e) => Failure(e)
  }

  method SetDesiredNodeLabelerDaemonSet(ds: ChildObject?, cr: DeviceConfig, st: Settings) returns (err: Error)
    modifies ds
    ensures ds == null <==> err == NilObject
    ensures ds != null ==>
              match SetDesired(old(ds.Value()), cr, st)
              case Success(o) => err == Nil && ds.Value() == o
              case Failure(e) => err == e && ds.Value() == old(ds.Value()).(spec := DesiredSpec(old(ds.Value()), cr, st))
  {
    if ds == null {
      return NilObject;
    }
    var labels := ComponentLabels();
    var selector := GetNodeSelector(cr.spec, []);
    var nodeSelector: Labels := map[];
    var rest := selector.Keys;
    while rest != {}
      invariant rest <= selector.Keys
      invariant nodeSelector == selector - rest
    {
      var k :| k in rest;
      nodeSelector := nodeSelector[k := selector[k]];
      rest := rest - {k};
    }
    assert nodeSelector == selector;
    var unmanaged := if ds.spec.DaemonSetSpec? then ds.spec.unmanaged else "";
    ds.spec := DaemonSetSpec(labels, PodTemplate(labels, COMPONENT, st.nodeLabelerImage,
                                                 FEATURES_DIRECTORY, nodeSelector, COMPONENT), unmanaged);
    match SetControllerReference(ds.owners, Ref(cr))
    case Success(owners) =>
      ds.owners := owners;
      err := Nil;
    case Failure(e) =>
      err := e;
  }
}
