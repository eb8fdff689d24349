/**
 The DeviceConfig API: its specification, status and metadata, label matching, and the
 errors a call can end with. A nil node selector (`None`) and an empty one are different.
 */
module Api {
  import opened Wrappers

  type Labels = map<string, string>

  const DELETION_FINALIZER := "device-config-deletion-finalizer"
  const HABANA_PCI_VENDOR_ID := "1da3"
  const OPERATOR_NAME := "habana-ai-operator"

  datatype Key = Key(ns: string, name: string)

  datatype Spec = Spec(driverImage: string, driverVersion: string, nodeSelector: Option<Labels>)

  datatype ConditionStatus = ConditionTrue | ConditionFalse | ConditionUnknown

  datatype Condition = Condition(
    kind: string, status: ConditionStatus, reason: string, message: string, lastTransition: nat)

  datatype DeviceConfig = DeviceConfig(
    key: Key, uid: nat, rv: nat, generation: nat, deleting: bool,
    finalizers: seq<string>, spec: Spec, conditions: seq<Condition>)

  /** A pointer to a DeviceConfig, as the controller passes it around and updates it in place. */
  class DeviceConfigObject {
    var value: DeviceConfig

    constructor (value: DeviceConfig)
      ensures this.value == value
    {
      this.value := value;
    }
  }

  datatype Settings = Settings(devicePluginImage: string, nodeMetricsImage: string, nodeLabelerImage: string)

  /** `Nil` is the absence of an error. */
  datatype Error =
    | Nil
    | NotFound
    | Conflict
    | AlreadyExists
    | Invalid
    | Unavailable
    | AlreadyOwned
    | NilObject
    | ConflictingSelectors

  /** What happens to one API call: it goes through, it fails, or it takes effect and still
      reports a failure. */
  datatype Reply = Ok | Fail | LostAck

  /** The effective selector. The device type never reaches the choice below: the switch that
      reads it declares an empty variable of the same name first. */
  function GetNodeSelector(spec: Spec, deviceTypes: seq<string>): Labels {
    match spec.nodeSelector
    case Some(selector) => selector
    case None =>
      var deviceType := "";
      if deviceType == "gaudi" then
        map["habana.ai/hpu." + deviceType + ".present" := "true"]
      else
        map["feature.node.kubernetes.io/pci-" + HABANA_PCI_VENDOR_ID + ".present" := "true"]
  }

  /** The selector with which a DeviceConfig claims nodes. */
  function Selector(dc: DeviceConfig): Labels {
    GetNodeSelector(dc.spec, [])
  }

  /** A label set used as a selector is a conjunction of equalities. */
  predicate Matches(selector: Labels, labels: Labels) {
    forall k :: k in selector ==> k in labels && labels[k] == selector[k]
  }

  /** Whatever device type a caller asks for, it gets the selector the validator checks; a
      selector the user gave, even an empty one, is used as it is. */
  lemma OneSelectorForAll(spec: Spec, deviceTypes: seq<string>, labels: Labels)
    ensures GetNodeSelector(spec, deviceTypes) == GetNodeSelector(spec, [])
    ensures spec.nodeSelector == Some(map[]) ==> Matches(GetNodeSelector(spec, deviceTypes), labels)
    ensures spec.nodeSelector == None ==>
              (Matches(GetNodeSelector(spec, deviceTypes), labels) <==>
               "feature.node.kubernetes.io/pci-1da3.present" in labels &&
               labels["feature.node.kubernetes.io/pci-1da3.present"] == "true")
  {
    var pci := "feature.node.kubernetes.io/pci-" + HABANA_PCI_VENDOR_ID + ".present";
    assert pci == "feature.node.kubernetes.io/pci-1da3.present";
    if spec.nodeSelector == None {
      assert GetNodeSelector(spec, deviceTypes) == map[pci := "true"];
    }
  }

  /** How a specification is written to the wire: an empty selector is left out. */
  function Encoded(spec: Spec): Spec {
    if spec.nodeSelector == Some(map[]) then spec.(nodeSelector := None) else spec
  }

  /** The selector is not a present but empty one, so that it survives the wire. */
  predicate Plain(spec: Spec) {
    spec.nodeSelector != Some(map[])
  }

  /** A caller whose specification is `held` can have stored `stored`: the reply to a write fills
      the caller's object, and what is left out on the wire keeps its value there. */
  predicate StoredAs(held: Spec, stored: Spec) {
    stored == held || stored == Encoded(held)
  }

  lemma DroppedSelectorDiffers(held: Spec, stored: Spec)
    requires StoredAs(held, stored) && held != stored
    ensures GetNodeSelector(held, []) != GetNodeSelector(stored, [])
  {
    OneSelectorForAll(stored, [], map[]);
    assert Matches(map[], map[]);
  }

  /** Writing a specification back keeps the claim it makes exactly when its selector is not a
      present but empty one. */
  lemma EncodingKeepsClaimIff(spec: Spec)
    ensures (forall labels :: Matches(GetNodeSelector(Encoded(spec), []), labels) <==> Matches(GetNodeSelector(spec, []), labels))
            <==> spec.nodeSelector != Some(map[])
  {
    if spec.nodeSelector == Some(map[]) {
      OneSelectorForAll(Encoded(spec), [], map[]);
      assert Matches(GetNodeSelector(spec, []), map[]);
    }
  }
}
