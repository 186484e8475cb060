/** Services, EndpointSlices and Endpoints, with the pure helpers of
    pkg/service-controller/utils.go. Slices are values: the controller deep-copies
    every informer object before it changes it. */
module Discovery {
  import opened Wrappers

  const LABEL_SERVICE_NAME := Text("kubernetes.io/service-name")
  const LABEL_MANAGED_BY := Text("endpointslice.kubernetes.io/managed-by")
  const LABEL_HEADLESS := Text("service.kubernetes.io/headless")
  const LABEL_SERVICE_PROXY_NAME := Text("service.kubernetes.io/service-proxy-name")
  const SERVICE_PROXY_NAME := Text("multus-proxy")
  const CONTROLLER_NAME := Text("multus-endpointslice-controller.npwg.k8s.io")

  const SERVICE_KIND := Text("Service")
  const API_VERSION := Text("v1")

  type AddressType = Text
  type Labels = map<Text, Text>

  datatype EndpointPort = EndpointPort(
    name: Option<Text>, port: Option<int>, protocol: Option<Text>, appProtocol: Option<Text>)

  datatype ObjectRef = ObjectRef(kind: Text, namespace: Text, name: Text, uid: Text, resourceVersion: Text)

  datatype Endpoint = Endpoint(
    addresses: seq<Text>,
    hostname: Option<Text>,
    nodeName: Option<Text>,
    zone: Option<Text>,
    ready: Option<bool>,
    serving: Option<bool>,
    terminating: Option<bool>,
    targetRef: Option<ObjectRef>)

  datatype OwnerRef = OwnerRef(uid: Text, kind: Text, apiVersion: Text)

  datatype EndpointSlice = EndpointSlice(
    namespace: Text,
    name: Text,
    uid: Text,
    generation: int,
    labels: Labels,
    owners: seq<OwnerRef>,
    addressType: AddressType,
    ports: seq<EndpointPort>,
    endpoints: seq<Endpoint>)

  datatype Service = Service(
    namespace: Text,
    name: Text,
    uid: Text,
    labels: Labels,
    headless: bool,
    addressTypes: set<AddressType>,
    deleting: bool)

  datatype NamespacedName = NamespacedName(namespace: Text, name: Text)

  /** What slices are grouped on, and what a new slice of a group starts from. */
  datatype EndpointMeta = EndpointMeta(ports: seq<EndpointPort>, addressType: AddressType)

  // ---------- identities ----------

  /** hashEndpoint sorts the addresses before hashing, and a missing hostname hashes like an empty one. */
  datatype EndpointKey = EndpointKey(addresses: multiset<Text>, hostname: Text)

  function KeyOf(e: Endpoint): EndpointKey {
    EndpointKey(multiset(e.addresses), if e.hostname.Some? then e.hostname.value else EMPTY)
  }

  /** NewPortMapKey hashes the sorted list of ports. */
  type PortMapKey = multiset<EndpointPort>

  function PortKey(s: EndpointSlice): PortMapKey {
    multiset(s.ports)
  }

  /** EndpointsEqualBeyondHash: Serving and Terminating differ only when both are set,
      and a resource version is no difference between target references. */
  predicate EqualBeyondHash(a: Endpoint, b: Endpoint) {
    && a.nodeName == b.nodeName
    && a.zone == b.zone
    && a.ready == b.ready
    && (a.serving.Some? && b.serving.Some? ==> a.serving == b.serving)
    && (a.terminating.Some? && b.terminating.Some? ==> a.terminating == b.terminating)
    && a.targetRef.Some? == b.targetRef.Some?
    && (a.targetRef.Some? ==>
          a.targetRef.value.(resourceVersion := EMPTY) == b.targetRef.value.(resourceVersion := EMPTY))
  }

  // ---------- ownership and labels ----------

  predicate OwnedBy(s: EndpointSlice, svc: Service) {
    exists o :: o in s.owners && o.uid == svc.uid && o.kind == Text("Service") && o.apiVersion == Text("v1")
  }

  /** ownedBy. */
  method Owned(s: EndpointSlice, svc: Service) returns (owned: bool)
    ensures owned == OwnedBy(s, svc)
  {
    for i := 0 to |s.owners|
      invariant forall j :: 0 <= j < i ==>
                  !(s.owners[j].uid == svc.uid && s.owners[j].kind == SERVICE_KIND
                    && s.owners[j].apiVersion == API_VERSION)
    {
      var o := s.owners[i];
      if o.uid == svc.uid && o.kind == SERVICE_KIND && o.apiVersion == API_VERSION {
        return true;
      }
    }
    owned := false;
  }

  predicate IsReservedLabelKey(key: Text) {
    key == LABEL_SERVICE_NAME || key == LABEL_MANAGED_BY || key == LABEL_HEADLESS
  }

  function Unreserved(labels: Labels): Labels {
    map k | k in labels && !IsReservedLabelKey(k) :: labels[k]
  }

  /** The labels a slice of this service must carry. */
  function ServiceLabels(svc: Service): Labels {
    var own := Unreserved(svc.labels);
    var withHeadless := if svc.headless then own[LABEL_HEADLESS := EMPTY] else own;
    withHeadless[LABEL_SERVICE_NAME := svc.name][LABEL_MANAGED_BY := CONTROLLER_NAME]
  }

  predicate LabelsChanged(s: EndpointSlice, svc: Service) {
    Unreserved(s.labels) != Unreserved(svc.labels)
  }

  predicate ManagedByController(s: EndpointSlice) {
    LABEL_MANAGED_BY in s.labels && s.labels[LABEL_MANAGED_BY] == CONTROLLER_NAME
  }

  /** The slice is one the service's syncs list: of its namespace, with its name and the controller's mark. */
  predicate Labelled(s: EndpointSlice, svc: Service) {
    && s.namespace == svc.namespace
    && LABEL_SERVICE_NAME in s.labels && s.labels[LABEL_SERVICE_NAME] == svc.name
    && ManagedByController(s)
  }

  predicate WellLabelled(s: EndpointSlice, svc: Service) {
    Labelled(s, svc) && !LabelsChanged(s, svc)
  }

  /** A slice that carries the service's labels is listed and never asks for a label update. */
  lemma ServiceLabelsSettle(s: EndpointSlice, svc: Service)
    requires s.labels == ServiceLabels(svc)
    ensures !LabelsChanged(s, svc) && (s.namespace == svc.namespace ==> Labelled(s, svc))
  {
    var l := ServiceLabels(svc);
    assert forall k :: k in Unreserved(l) <==> k in Unreserved(svc.labels);
  }

  /** The labels of a slice, one by one: service name and manager are set, the headless mark is there exactly if the
      service is headless, and all other labels are the service's. */
  lemma ServiceLabelsAre(svc: Service, key: Text)
    ensures var name, manager, headless := Text("kubernetes.io/service-name"),
                                           Text("endpointslice.kubernetes.io/managed-by"),
                                           Text("service.kubernetes.io/headless");
            var labels := ServiceLabels(svc);
            if key == name then key in labels && labels[key] == svc.name
            else if key == manager then
              key in labels && labels[key] == Text("multus-endpointslice-controller.npwg.k8s.io")
            else if key == headless then (key in labels <==> svc.headless) && (svc.headless ==> labels[key] == Text(""))
            else (key in labels <==> key in svc.labels) && (key in labels ==> labels[key] == svc.labels[key])
  {
    assert "kubernetes.io/service-name" != "endpointslice.kubernetes.io/managed-by";
    assert |"service.kubernetes.io/headless"| != |"endpointslice.kubernetes.io/managed-by"|;
    assert |"service.kubernetes.io/headless"| != |"kubernetes.io/service-name"|;
  }

  /** A slice in order has these labels too, except that the headless mark may be outdated: a service that becomes
      headless, or ceases to be, changes no slice for that reason. */
  lemma WellLabelledMeans(s: EndpointSlice, svc: Service)
    ensures WellLabelled(s, svc) <==>
              && Labelled(s, svc)
              && forall key :: key != LABEL_SERVICE_NAME && key != LABEL_MANAGED_BY && key != LABEL_HEADLESS ==>
                   (key in s.labels <==> key in svc.labels) && (key in s.labels ==> s.labels[key] == svc.labels[key])
    ensures WellLabelled(s, svc) <==> WellLabelled(s, svc.(headless := !svc.headless))
  {
    var own, theirs := Unreserved(s.labels), Unreserved(svc.labels);
    if own == theirs {
      forall key | !IsReservedLabelKey(key)
        ensures key in s.labels <==> key in svc.labels
        ensures key in s.labels ==> s.labels[key] == svc.labels[key]
      {
        assert (key in own <==> key in s.labels) && (key in theirs <==> key in svc.labels);
      }
    }
  }

  function NewEndpointSlice(svc: Service, meta: EndpointMeta): (s: EndpointSlice)
    ensures s.endpoints == [] && s.name == EMPTY && OwnedBy(s, svc) && WellLabelled(s, svc)
    ensures s.addressType == meta.addressType && PortKey(s) == multiset(meta.ports)
  {
    var s := EndpointSlice(svc.namespace, EMPTY, EMPTY, 0, ServiceLabels(svc),
                           [OwnerRef(svc.uid, SERVICE_KIND, API_VERSION)],
                           meta.addressType, meta.ports, []);
    ServiceLabelsSettle(s, svc);
    assert s.owners[0].uid == svc.uid;
    s
  }

  /** The label rebuild of utils.go as the two copy loops it is. */
  method SetEndpointSliceLabels(s: EndpointSlice, svc: Service) returns (labels: Labels, updated: bool)
    ensures labels == ServiceLabels(svc)
    ensures updated == LabelsChanged(s, svc)
  {
    var epLabels := CopyUnreserved(s.labels);
    var svcLabels := CopyUnreserved(svc.labels);
    updated := epLabels != svcLabels;
    if svc.headless {
      svcLabels := svcLabels[LABEL_HEADLESS := EMPTY];
    } else {
      svcLabels := svcLabels - {LABEL_HEADLESS};
      assert svcLabels == Unreserved(svc.labels);
    }
    svcLabels := svcLabels[LABEL_SERVICE_NAME := svc.name];
    svcLabels := svcLabels[LABEL_MANAGED_BY := CONTROLLER_NAME];
    labels := svcLabels;
  }

  method CopyUnreserved(labels: Labels) returns (copy: Labels)
    ensures copy == Unreserved(labels)
  {
    copy := map[];
    var todo := labels.Keys;
    while todo != {}
      invariant todo <= labels.Keys
      invariant copy == map k | k in labels.Keys - todo && !IsReservedLabelKey(k) :: labels[k]
      decreases |todo|
    {
      var key :| key in todo;
      todo := todo - {key};
      if IsReservedLabelKey(key) {
        continue;
      }
      copy := copy[key := labels[key]];
    }
  }
}
