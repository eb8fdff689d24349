/** The Module child: driver image, device plugin and node selector (internal/module). */
module KmmModule {
  import opened Wrappers
  import opened Api
  import opened Objects

  const SUFFIX := "-module"
  const KERNEL_PLACEHOLDER := "-${KERNEL_FULL_VERSION}"
  const KERNEL_REGEXP := "^.*\\.el\\d_?\\d?\\..*$"

  function ModuleName(key: Key): string {
    key.name + SUFFIX
  }

  function ContainerImage(spec: Spec): string {
    spec.driverImage + ":" + spec.driverVersion + KERNEL_PLACEHOLDER
  }

  function DesiredSpec(cr: DeviceConfig, st: Settings): ChildSpec {
    ModuleSpec(
      ["--dev_type", "gaudi"], st.devicePluginImage,
      [KernelMapping(ContainerImage(cr.spec), KERNEL_REGEXP)],
      "habanalabs", GetNodeSelector(cr.spec, ["gaudi"]))
  }

  /** The object after the setter ran on `o`. */
  function SetDesired(o: Object, cr: DeviceConfig, st: Settings): Result<Object, Error> {
    match SetControllerReference(o.owners, Ref(cr))
    case Success(owners) => Success(o.(owners := owners, spec := DesiredSpec(cr, st)))
    case Failure(e) => Failure(e)
  }

  method SetDesiredModule(m: ChildObject?, cr: DeviceConfig, st: Settings) returns (err: Error)
    modifies m
    ensures m == null <==> err == NilObject
    ensures m != null ==>
              match SetDesired(old(m.Value()), cr, st)
              case Success(o) => err == Nil && m.Value() == o
              case Failure(e) => err == e && m.Value() == old(m.Value()).(spec := DesiredSpec(cr, st))
  {
    if m == null {
      return NilObject;
    }
    var deviceType := "gaudi";
    var selector := GetNodeSelector(cr.spec, [deviceType]);
    m.spec := ModuleSpec(
      ["--dev_type", deviceType], st.devicePluginImage,
      [KernelMapping(ContainerImage(cr.spec), KERNEL_REGEXP)],
      "habanalabs", selector);
    match SetControllerReference(m.owners, Ref(cr))
    case Success(owners) =>
      m.owners := owners;
      err := Nil;
    case Failure(e) =>
      err := e;
  }

  // ---------- no lost spec change ----------

  lemma {:induction false} SplitAtColon(i: string, v: string, i': string, v': string)
    requires i + ":" + v == i' + ":" + v'
    requires ':' !in v && ':' !in v'
    ensures i == i' && v == v'
  {
    var s := i + ":" + v;
    assert s[|i|] == ':' && s[|i'|] == ':';
    assert |i| == |i'|;
    assert i == s[..|i|] && v == s[|i| + 1..];
    assert i' == s[..|i|] && v' == s[|i| + 1..];
  }

  lemma ImageDeterminesPair(a: Spec, b: Spec)
    requires ContainerImage(a) == ContainerImage(b)
    ensures a.driverImage + ":" + a.driverVersion == b.driverImage + ":" + b.driverVersion
  {
    var x := a.driverImage + ":" + a.driverVersion;
    var y := b.driverImage + ":" + b.driverVersion;
    assert x == ContainerImage(a)[..|x|] && y == ContainerImage(b)[..|y|];
  }

  /** Versions without a colon: under any two settings two DeviceConfigs ask for the same Module exactly
      when image, version, effective selector and the image of the device plugin agree. */
  lemma SameModuleIff(a: DeviceConfig, b: DeviceConfig, st: Settings, st': Settings)
    requires ':' !in a.spec.driverVersion && ':' !in b.spec.driverVersion
    ensures DesiredSpec(a, st) == DesiredSpec(b, st') <==>
            && a.spec.driverImage == b.spec.driverImage
            && a.spec.driverVersion == b.spec.driverVersion
            && Selector(a) == Selector(b)
            && st.devicePluginImage == st'.devicePluginImage
  {
    if DesiredSpec(a, st) == DesiredSpec(b, st') {
      assert [KernelMapping(ContainerImage(a.spec), KERNEL_REGEXP)][0] == [KernelMapping(ContainerImage(b.spec), KERNEL_REGEXP)][0];
      ImageDeterminesPair(a.spec, b.spec);
      SplitAtColon(a.spec.driverImage, a.spec.driverVersion, b.spec.driverImage, b.spec.driverVersion);
    }
  }

  predicate Collides(a: Spec, b: Spec) {
    ContainerImage(a) == ContainerImage(b) &&
    (a.driverImage != b.driverImage || a.driverVersion != b.driverVersion)
  }

  /** With colons the split is lost: some other image and version render to the same string
      exactly when the image or the version contains a colon. */
  lemma AmbiguousIffColon(a: Spec)
    ensures (exists b :: Collides(a, b)) <==> ':' in a.driverImage || ':' in a.driverVersion
  {
    var i, v := a.driverImage, a.driverVersion;
    if ':' in v {
      var p :| 0 <= p < |v| && v[p] == ':';
      var b := Spec(i + ":" + v[..p], v[p + 1..], None);
      assert v == v[..p] + ":" + v[p + 1..];
      assert b.driverImage + ":" + b.driverVersion == i + ":" + v;
      assert Collides(a, b);
    } else if ':' in i {
      var p :| 0 <= p < |i| && i[p] == ':';
      var b := Spec(i[..p], i[p + 1..] + ":" + v, None);
      assert i == i[..p] + ":" + i[p + 1..];
      assert b.driverImage + ":" + b.driverVersion == i + ":" + v;
      assert Collides(a, b);
    } else if b :| Collides(a, b) {
      OnlyOneColon(a, b);
    }
  }

  lemma OnlyOneColon(a: Spec, b: Spec)
    requires ':' !in a.driverImage && ':' !in a.driverVersion
    requires ContainerImage(a) == ContainerImage(b)
    ensures a.driverImage == b.driverImage && a.driverVersion == b.driverVersion
  {
    ImageDeterminesPair(a, b);
    var i, v, i', v' := a.driverImage, a.driverVersion, b.driverImage, b.driverVersion;
    var s := i + ":" + v;
    assert forall p :: 0 <= p < |s| && s[p] == ':' ==> p == |i|;
    assert s[|i'|] == ':';
    assert i == s[..|i|] && v == s[|i| + 1..] && i' == s[..|i'|] && v' == s[|i'| + 1..];
  }
}
