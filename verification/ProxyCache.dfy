/** EndpointSliceCache and EndpointsMap of pkg/proxy/controllers/endpointslice.go: slice events are collected per
    service and slice name, and a sync brings the endpoint map up to date service by service. */
module ProxyCache {
  import opened Wrappers
  import opened Discovery
  import opened EndpointStrings
  import opened ProxyEndpoints
  import opened EndpointLists

  /** An EndpointSlice as the proxy watches it. */
  datatype WatchedEndpoint = WatchedEndpoint(
    addresses: seq<Address>, nodeName: Option<Text>,
    ready: Option<bool>, serving: Option<bool>, terminating: Option<bool>)

  datatype WatchedSlice = WatchedSlice(
    namespace: Text, name: Text, labels: Labels, ports: seq<PortInfo>, endpoints: seq<WatchedEndpoint>)

  type Infos = map<Text, SliceInfo>

  datatype SliceTracker = SliceTracker(applied: Infos, pending: Infos)

  function NewEndpointInfo(e: WatchedEndpoint): EndpointInfo {
    EndpointInfo(e.addresses, e.nodeName,
                 e.ready.None? || e.ready.value,
                 e.serving.None? || e.serving.value,
                 e.terminating.Some? && e.terminating.value)
  }

  /** What the proxy keeps of a slice; a removed slice keeps no endpoints. */
  function NewSliceInfo(s: WatchedSlice, remove: bool): SliceInfo {
    SliceInfo(s.ports,
              if remove then []
              else seq(|s.endpoints|, i requires 0 <= i < |s.endpoints| => NewEndpointInfo(s.endpoints[i])),
              remove)
  }

  predicate KeysOk(s: WatchedSlice) {
    && LABEL_SERVICE_NAME in s.labels && s.labels[LABEL_SERVICE_NAME] != EMPTY
    && s.namespace != EMPTY && s.name != EMPTY
  }

  function ServiceKey(s: WatchedSlice): NamespacedName
    requires KeysOk(s)
  {
    NamespacedName(s.namespace, s.labels[LABEL_SERVICE_NAME])
  }

  /** The slices of a service once its pending events are applied. */
  function Effective(t: SliceTracker): Infos {
    map n | n in t.applied.Keys + t.pending.Keys && !(n in t.pending && t.pending[n].remove) ::
      if n in t.pending then t.pending[n] else t.applied[n]
  }

  function After(infos: Infos, s: WatchedSlice, remove: bool): Infos {
    if remove then infos - {s.name} else infos[s.name := NewSliceInfo(s, false)]
  }

  /** No removed slice counts as applied. */
  predicate Clean(t: SliceTracker) {
    forall n :: n in t.applied ==> !t.applied[n].remove
  }

  const NO_TRACKER := SliceTracker(map[], map[])

  function TrackerOf(trackers: map<NamespacedName, SliceTracker>, nn: NamespacedName): SliceTracker {
    if nn in trackers then trackers[nn] else NO_TRACKER
  }

  /** Taking in one pending event does not change what the service will have. */
  lemma ApplyOne(t: SliceTracker, n: Text)
    requires Clean(t) && n in t.pending
    ensures var info := t.pending[n];
            var t' := SliceTracker(if info.remove then t.applied - {n} else t.applied[n := info], t.pending - {n});
            Effective(t') == Effective(t) && Clean(t')
  {
  }

  lemma NothingPending(t: SliceTracker)
    requires Clean(t) && t.pending == map[]
    ensures Effective(t) == t.applied
  {
  }

  lemma EventTakesEffect(t: SliceTracker, s: WatchedSlice, remove: bool)
    requires Clean(t)
    ensures Effective(t.(pending := t.pending[s.name := NewSliceInfo(s, remove)])) == After(Effective(t), s, remove)
  {
  }

  /** An event that changes nothing is dropped. */
  lemma NoNews(t: SliceTracker, s: WatchedSlice, remove: bool)
    requires Clean(t)
    requires s.name in t.pending ==> t.pending[s.name] == NewSliceInfo(s, remove)
    requires s.name !in t.pending && s.name in t.applied ==> t.applied[s.name] == NewSliceInfo(s, remove)
    requires s.name !in t.pending && s.name !in t.applied ==> remove
    ensures Effective(t) == After(Effective(t), s, remove)
  {
  }

  class EndpointSliceCache {
    const config: Config
    var trackerByServiceMap: map<NamespacedName, SliceTracker>

    ghost predicate Valid()
      reads this
    {
      forall nn :: nn in trackerByServiceMap ==> Clean(trackerByServiceMap[nn])
    }

    constructor (config: Config)
      ensures Valid() && this.config == config && trackerByServiceMap == map[]
    {
      this.config := config;
      trackerByServiceMap := map[];
    }

    /** Whether the event tells something new about the slice. */
    method EsInfoChanged(serviceKey: NamespacedName, sliceKey: Text, esInfo: SliceInfo) returns (changed: bool)
      ensures var t := TrackerOf(trackerByServiceMap, serviceKey);
              changed <==> if sliceKey in t.pending then t.pending[sliceKey] != esInfo
                           else if sliceKey in t.applied then t.applied[sliceKey] != esInfo
                           else !esInfo.remove
    {
      if serviceKey in trackerByServiceMap {
        var t := trackerByServiceMap[serviceKey];
        if sliceKey in t.pending {
          return esInfo != t.pending[sliceKey];
        }
        if sliceKey in t.applied {
          return esInfo != t.applied[sliceKey];
        }
      }
      changed := !esInfo.remove;
    }

    /** An event takes effect for its service and slice name at the next sync, and for nothing else; the slices
        already applied do not change. A slice without usable names is ignored. */
    method EndpointSliceUpdate(s: WatchedSlice, remove: bool) returns (changed: bool)
      requires Valid()
      modifies this
      ensures Valid()
      ensures !KeysOk(s) ==> !changed && trackerByServiceMap == old(trackerByServiceMap)
      ensures KeysOk(s) ==>
                forall nn ::
                  var before, after := TrackerOf(old(trackerByServiceMap), nn), TrackerOf(trackerByServiceMap, nn);
                  && after.applied == before.applied
                  && Effective(after) == if nn == ServiceKey(s) then After(Effective(before), s, remove)
                                         else Effective(before)
      ensures KeysOk(s) && !changed ==>
                forall nn :: TrackerOf(trackerByServiceMap, nn) == TrackerOf(old(trackerByServiceMap), nn)
    {
      hide Effective, After, NewSliceInfo;
      if LABEL_SERVICE_NAME !in s.labels || s.labels[LABEL_SERVICE_NAME] == EMPTY {
        return false;
      }
      if s.namespace == EMPTY || s.name == EMPTY {
        return false;
      }
      var serviceKey := NamespacedName(s.namespace, s.labels[LABEL_SERVICE_NAME]);
      var esInfo := NewSliceInfo(s, remove);
      if serviceKey !in trackerByServiceMap {
        trackerByServiceMap := trackerByServiceMap[serviceKey := NO_TRACKER];
      }
      ghost var t := trackerByServiceMap[serviceKey];
      changed := EsInfoChanged(serviceKey, s.name, esInfo);
      InfoFlag(s, remove);
      if changed {
        EventTakesEffect(t, s, remove);
        var esTracker := trackerByServiceMap[serviceKey];
        trackerByServiceMap :=
          trackerByServiceMap[serviceKey := esTracker.(pending := esTracker.pending[s.name := esInfo])];
      } else {
        NoNews(t, s, remove);
      }
    }

    /** The pending events of one service, in whatever order. */
    static method ApplyPending(t: SliceTracker) returns (applied: Infos)
      requires Clean(t)
      ensures applied == Effective(t)
    {
      hide Effective, Clean;
      var now := t;
      while now.pending != map[]
        invariant Clean(now) && Effective(now) == Effective(t)
        decreases |now.pending|
      {
        var name :| name in now.pending;
        var sliceInfo := now.pending[name];
        ApplyOne(now, name);
        now := SliceTracker(if sliceInfo.remove then now.applied - {name} else now.applied[name := sliceInfo],
                            now.pending - {name});
      }
      NothingPending(now);
      applied := now.applied;
    }

    /** Takes in all pending events; for each service that had some it returns the endpoints before and after. */
    method CheckoutChanges() returns (changes: seq<EndpointsChange>, ghost services: seq<NamespacedName>)
      requires Valid()
      modifies this
      ensures Valid()
      ensures forall nn ::
                TrackerOf(trackerByServiceMap, nn)
                == SliceTracker(Effective(TrackerOf(old(trackerByServiceMap), nn)), map[])
      ensures Tells(config, changes, services, old(trackerByServiceMap))
    {
      hide Effective, Clean, Change, CheckedOut, PartIs;
      changes, services := [], [];
      ghost var before := trackerByServiceMap;
      var todo := trackerByServiceMap.Keys;
      NothingCheckedOut(config, before);
      while todo != {}
        invariant Valid() && todo <= before.Keys
        invariant CheckedOut(config, before, trackerByServiceMap, todo, changes, services)
        decreases |todo|
      {
        var serviceNN :| serviceNN in todo;
        OutOf(config, before, trackerByServiceMap, todo, changes, services, serviceNN);
        var esTracker := trackerByServiceMap[serviceNN];
        if esTracker.pending == map[] {
          NothingPending(esTracker);
          CheckNone(config, before, trackerByServiceMap, todo, changes, services, serviceNN);
        } else {
          var previous := GetEndpointsMap(config, serviceNN, esTracker.applied);
          var applied := ApplyPending(esTracker);
          EffectiveClean(esTracker);
          ghost var trackers := trackerByServiceMap;
          trackerByServiceMap := trackerByServiceMap[serviceNN := SliceTracker(applied, map[])];
          var current := GetEndpointsMap(config, serviceNN, applied);
          ChangeIs(config, EndpointsChange(previous, current), serviceNN, esTracker);
          CheckOne(config, before, trackers, todo, changes, services, serviceNN, EndpointsChange(previous, current));
          changes := changes + [EndpointsChange(previous, current)];
          services := services + [serviceNN];
        }
        todo := todo - {serviceNN};
      }
      AllCheckedOut(config, before, trackerByServiceMap, changes, services);
    }
  }

  // ---------- the checkout loop ----------

  /** The services outside todo have taken in their pending events, and those that had some are among the changes. */
  ghost predicate CheckedOut(c: Config, before: map<NamespacedName, SliceTracker>,
                             now: map<NamespacedName, SliceTracker>, todo: set<NamespacedName>,
                             changes: seq<EndpointsChange>, services: seq<NamespacedName>)
  {
    && now.Keys == before.Keys
    && (forall nn :: nn in before ==>
          now[nn] == if nn in todo then before[nn] else SliceTracker(Effective(before[nn]), map[]))
    && |services| == |changes|
    && (forall i :: 0 <= i < |changes| ==>
          services[i] in before && services[i] !in todo && Change(c, changes[i], services[i], before[services[i]]))
    && (forall i, j :: 0 <= i < j < |services| ==> services[i] != services[j])
    && (forall nn :: nn in before && nn !in todo && before[nn].pending != map[] ==> nn in services)
  }

  lemma NothingCheckedOut(c: Config, before: map<NamespacedName, SliceTracker>)
    ensures CheckedOut(c, before, before, before.Keys, [], [])
  {
  }

  lemma OutOf(c: Config, before: map<NamespacedName, SliceTracker>, now: map<NamespacedName, SliceTracker>,
              todo: set<NamespacedName>, changes: seq<EndpointsChange>, services: seq<NamespacedName>,
              nn: NamespacedName)
    requires CheckedOut(c, before, now, todo, changes, services) && nn in todo && todo <= before.Keys
    ensures nn in now && now[nn] == before[nn] && |todo - {nn}| < |todo|
  {
  }

  lemma CheckNone(c: Config, before: map<NamespacedName, SliceTracker>, now: map<NamespacedName, SliceTracker>,
                  todo: set<NamespacedName>, changes: seq<EndpointsChange>, services: seq<NamespacedName>,
                  nn: NamespacedName)
    requires CheckedOut(c, before, now, todo, changes, services) && nn in todo && nn in before
    requires before[nn].pending == map[] && Effective(before[nn]) == before[nn].applied
    ensures CheckedOut(c, before, now, todo - {nn}, changes, services)
  {
    hide Effective, Change;
  }

  lemma CheckOne(c: Config, before: map<NamespacedName, SliceTracker>, now: map<NamespacedName, SliceTracker>,
                 todo: set<NamespacedName>, changes: seq<EndpointsChange>, services: seq<NamespacedName>,
                 nn: NamespacedName, change: EndpointsChange)
    requires CheckedOut(c, before, now, todo, changes, services) && nn in todo && nn in before
    requires Change(c, change, nn, before[nn])
    ensures CheckedOut(c, before, now[nn := SliceTracker(Effective(before[nn]), map[])], todo - {nn},
                       changes + [change], services + [nn])
  {
    hide Effective, Change;
  }

  lemma AllCheckedOut(c: Config, before: map<NamespacedName, SliceTracker>, now: map<NamespacedName, SliceTracker>,
                      changes: seq<EndpointsChange>, services: seq<NamespacedName>)
    requires CheckedOut(c, before, now, {}, changes, services)
    ensures forall nn :: TrackerOf(now, nn) == SliceTracker(Effective(TrackerOf(before, nn)), map[])
    ensures Tells(c, changes, services, before)
  {
    hide Effective, Change;
    NothingTracked();
  }

  datatype EndpointsChange = EndpointsChange(previous: EMap, current: EMap)

  /** The change of one service: its endpoints as applied before, and as its slices are now. */
  ghost predicate Change(c: Config, ch: EndpointsChange, nn: NamespacedName, t: SliceTracker) {
    && PartIs(c, ch.previous, nn, t.applied) && (forall spn :: spn in ch.previous ==> spn.nn == nn)
    && PartIs(c, ch.current, nn, Effective(t)) && (forall spn :: spn in ch.current ==> spn.nn == nn)
  }

  /** One change for every service with pending events. */
  ghost predicate Tells(c: Config, changes: seq<EndpointsChange>, services: seq<NamespacedName>,
                        trackers: map<NamespacedName, SliceTracker>)
  {
    && |services| == |changes|
    && (forall i :: 0 <= i < |changes| ==> Change(c, changes[i], services[i], TrackerOf(trackers, services[i])))
    && (forall i, j :: 0 <= i < j < |services| ==> services[i] != services[j])
    && (forall nn :: TrackerOf(trackers, nn).pending != map[] ==> nn in services)
  }

  lemma ChangeIs(c: Config, ch: EndpointsChange, nn: NamespacedName, t: SliceTracker)
    requires PartIs(c, ch.previous, nn, t.applied) && forall spn :: spn in ch.previous ==> spn.nn == nn
    requires PartIs(c, ch.current, nn, Effective(t)) && forall spn :: spn in ch.current ==> spn.nn == nn
    ensures Change(c, ch, nn, t)
  {
  }

  lemma EffectiveClean(t: SliceTracker)
    requires Clean(t)
    ensures Clean(SliceTracker(Effective(t), map[]))
  {
  }

  lemma NothingTracked()
    ensures Effective(NO_TRACKER) == map[]
  {
  }

  lemma InfoFlag(s: WatchedSlice, remove: bool)
    ensures NewSliceInfo(s, remove).remove == remove
  {
  }

  // ---------- the endpoint map ----------

  /** The map shows, for every service, exactly what its applied slices give. */
  ghost predicate InStep(c: Config, em: EMap, trackers: map<NamespacedName, SliceTracker>) {
    forall nn :: PartIs(c, em, nn, TrackerOf(trackers, nn).applied)
  }

  /** The service ports of one service are the same in both maps. */
  ghost predicate SamePart(em: EMap, em': EMap, nn: NamespacedName) {
    forall spn: ServicePortName :: spn.nn == nn ==>
      (spn in em <==> spn in em') && (spn in em && spn in em' ==> em'[spn] == em[spn])
  }

  lemma SamePartIs(c: Config, em: EMap, em': EMap, nn: NamespacedName, infos: Infos)
    requires SamePart(em, em', nn) && PartIs(c, em, nn, infos)
    ensures PartIs(c, em', nn, infos)
  {
    hide Lists, AllOffers;
    forall spn: ServicePortName | spn.nn == nn ensures ListedAt(em', spn, AllOffers(c, nn, infos, spn)) {
      assert ListedAt(em, spn, AllOffers(c, nn, infos, spn));
    }
  }

  /** Taking out a service's previous endpoints and putting in its current ones replaces exactly its part. */
  lemma Replace(c: Config, em: EMap, em': EMap, ch: EndpointsChange, nn: NamespacedName, t: SliceTracker)
    requires Change(c, ch, nn, t) && PartIs(c, em, nn, t.applied)
    requires em' == (em - ch.previous.Keys) + ch.current
    ensures SamePart(ch.current, em', nn)
    ensures forall other :: other != nn ==> SamePart(em, em', other)
  {
    hide Lists, AllOffers;
    forall spn: ServicePortName | spn.nn == nn ensures spn in em ==> spn in ch.previous {
      OneMap(c, nn, t.applied, em, ch.previous, spn);
    }
  }

  class EndpointsMap {
    var em: EMap

    constructor ()
      ensures em == map[]
    {
      em := map[];
    }

    method Merge(other: EMap)
      modifies this
      ensures em == old(em) + other
    {
      var todo := other.Keys;
      while todo != {}
        invariant todo <= other.Keys
        invariant em == old(em) + (map spn | spn in other.Keys - todo :: other[spn])
        decreases |todo|
      {
        var svcPortName :| svcPortName in todo;
        todo := todo - {svcPortName};
        em := em[svcPortName := other[svcPortName]];
      }
      assert (map spn | spn in other.Keys - todo :: other[spn]) == other;
    }

    method Unmerge(other: EMap)
      modifies this
      ensures em == old(em) - other.Keys
    {
      var todo := other.Keys;
      while todo != {}
        invariant todo <= other.Keys
        invariant em == old(em) - (other.Keys - todo)
        decreases |todo|
      {
        var svcPortName :| svcPortName in todo;
        todo := todo - {svcPortName};
        em := em - {svcPortName};
      }
    }

    /** apply: the map follows all events so far, and the connections to flush are reported exactly. */
    method Apply(changes: EndpointSliceCache)
      returns (staleEndpoints: seq<ServiceEndpoint>, staleServiceNames: seq<ServicePortName>)
      requires changes.Valid() && InStep(changes.config, em, changes.trackerByServiceMap)
      modifies this, changes
      ensures changes.Valid() && InStep(changes.config, em, changes.trackerByServiceMap)
      ensures forall nn ::
                TrackerOf(changes.trackerByServiceMap, nn)
                == SliceTracker(Effective(TrackerOf(old(changes.trackerByServiceMap), nn)), map[])
      ensures forall e :: e in staleEndpoints <==> StaleEndpoint(old(em), em, e.spn, e.endpoint)
      ensures forall spn :: spn in staleServiceNames <==> StaleName(old(em), em, spn)
    {
      hide InStep, Effective, StaleEndpoint, StaleName, Applying, Change, Clean, Tells;
      ghost var c, before, em0 := changes.config, changes.trackerByServiceMap, em;
      var list;
      ghost var services;
      list, services := changes.CheckoutChanges();
      ghost var after := changes.trackerByServiceMap;
      staleEndpoints, staleServiceNames := [], [];
      StartApplying(c, em0, before);
      AllClean(before);
      TellsSize(c, list, services, before);
      for i := 0 to |list|
        invariant Applying(c, em0, em, before, services[..i])
        invariant forall e :: e in staleEndpoints <==>
                    e.spn.nn in services[..i] && StaleEndpoint(em0, em, e.spn, e.endpoint)
        invariant forall spn :: spn in staleServiceNames <==> spn.nn in services[..i] && StaleName(em0, em, spn)
        invariant changes.trackerByServiceMap == after
      {
        ghost var em1 := em;
        Unmerge(list[i].previous);
        Merge(list[i].current);
        ApplyStep(c, em0, em1, em, before, list, services, i);
        staleEndpoints, staleServiceNames :=
          DetectStaleConnections(list[i].previous, list[i].current, staleEndpoints, staleServiceNames);
      }
      assert services[..|services|] == services;
      FinishApplying(c, em0, em, before, after, list, services);
    }
  }

  // ---------- connections to flush ----------

  const UDP := Text("UDP")

  datatype ServiceEndpoint = ServiceEndpoint(endpoint: Text, spn: ServicePortName)

  function ListAt(em: EMap, spn: ServicePortName): seq<BaseEndpointInfo> {
    if spn in em then em[spn] else []
  }

  predicate Known(list: seq<BaseEndpointInfo>, b: BaseEndpointInfo) {
    exists x :: x in list && x.endpoint == b.endpoint && x.isLocal == b.isLocal
  }

  /** A UDP endpoint that was there and is there no more, at least not as local as it was. */
  ghost predicate StaleEndpoint(before: EMap, after: EMap, spn: ServicePortName, endpoint: Text) {
    spn.protocol == Text("UDP")
    && exists b :: b in ListAt(before, spn) && b.endpoint == endpoint && !Known(ListAt(after, spn), b)
  }

  /** A UDP service port that had no endpoint and has some now. */
  predicate StaleName(before: EMap, after: EMap, spn: ServicePortName) {
    spn.protocol == Text("UDP") && ListAt(before, spn) == [] && ListAt(after, spn) != []
  }

  method DetectStaleConnections(oldMap: EMap, newMap: EMap, endpoints: seq<ServiceEndpoint>,
                                names: seq<ServicePortName>)
    returns (staleEndpoints: seq<ServiceEndpoint>, staleServiceNames: seq<ServicePortName>)
    ensures forall e :: e in staleEndpoints <==> e in endpoints || StaleEndpoint(oldMap, newMap, e.spn, e.endpoint)
    ensures forall spn :: spn in staleServiceNames <==> spn in names || StaleName(oldMap, newMap, spn)
  {
    staleEndpoints := StaleEndpoints(oldMap, newMap, endpoints);
    staleServiceNames := names;
    var todo := newMap.Keys;
    while todo != {}
      invariant todo <= newMap.Keys
      invariant forall spn :: spn in staleServiceNames <==>
                  spn in names || (spn in newMap.Keys - todo && StaleName(oldMap, newMap, spn))
      decreases |todo|
    {
      var svcPortName :| svcPortName in todo;
      todo := todo - {svcPortName};
      if svcPortName.protocol != UDP {
        continue;
      }
      if |newMap[svcPortName]| > 0 && |ListAt(oldMap, svcPortName)| == 0 {
        staleServiceNames := staleServiceNames + [svcPortName];
      }
    }
  }

  method StaleEndpoints(oldMap: EMap, newMap: EMap, endpoints: seq<ServiceEndpoint>)
    returns (staleEndpoints: seq<ServiceEndpoint>)
    ensures forall e :: e in staleEndpoints <==> e in endpoints || StaleEndpoint(oldMap, newMap, e.spn, e.endpoint)
  {
    hide Known;
    staleEndpoints := endpoints;
    var todo := oldMap.Keys;
    while todo != {}
      invariant todo <= oldMap.Keys
      invariant forall e :: e in staleEndpoints <==>
                  e in endpoints || (e.spn in oldMap.Keys - todo && StaleEndpoint(oldMap, newMap, e.spn, e.endpoint))
      decreases |todo|
    {
      var svcPortName :| svcPortName in todo;
      todo := todo - {svcPortName};
      if svcPortName.protocol != UDP {
        continue;
      }
      ghost var sofar := staleEndpoints;
      var epList := oldMap[svcPortName];
      for i := 0 to |epList|
        invariant forall e :: e in staleEndpoints <==>
                    e in sofar || (e.spn == svcPortName && exists j ::
                      0 <= j < i && epList[j].endpoint == e.endpoint && !Known(ListAt(newMap, svcPortName), epList[j]))
      {
        var known := IsKnown(ListAt(newMap, svcPortName), epList[i]);
        if !known {
          staleEndpoints := staleEndpoints + [ServiceEndpoint(epList[i].endpoint, svcPortName)];
        }
      }
    }
  }

  method IsKnown(list: seq<BaseEndpointInfo>, ep: BaseEndpointInfo) returns (known: bool)
    ensures known == Known(list, ep)
  {
    for i := 0 to |list|
      invariant forall j :: 0 <= j < i ==> !Equal(list[j], ep)
    {
      if Equal(list[i], ep) {
        assert list[i] in list;
        return true;
      }
    }
    known := false;
  }

  // ---------- the apply loop ----------

  /** The services dealt with show their current slices, the others still what they showed at the start. */
  ghost predicate Applying(c: Config, em0: EMap, em: EMap, before: map<NamespacedName, SliceTracker>,
                           done: seq<NamespacedName>)
  {
    && InStep(c, em0, before)
    && (forall nn :: nn in done ==> PartIs(c, em, nn, Effective(TrackerOf(before, nn))))
    && (forall nn :: nn !in done ==> SamePart(em0, em, nn))
  }

  lemma StartApplying(c: Config, em: EMap, before: map<NamespacedName, SliceTracker>)
    requires InStep(c, em, before)
    ensures Applying(c, em, em, before, [])
  {
    hide PartIs;
  }

  lemma AllClean(trackers: map<NamespacedName, SliceTracker>)
    requires forall nn :: nn in trackers ==> Clean(trackers[nn])
    ensures forall nn :: Clean(TrackerOf(trackers, nn))
  {
  }

  lemma TellsSize(c: Config, changes: seq<EndpointsChange>, services: seq<NamespacedName>,
                  before: map<NamespacedName, SliceTracker>)
    requires Tells(c, changes, services, before)
    ensures |services| == |changes|
  {
  }

  lemma ApplyStep(c: Config, em0: EMap, em1: EMap, em: EMap, before: map<NamespacedName, SliceTracker>,
                  changes: seq<EndpointsChange>, services: seq<NamespacedName>, i: nat)
    requires Tells(c, changes, services, before) && i < |changes| && |services| == |changes|
    requires Applying(c, em0, em1, before, services[..i])
    requires em == (em1 - changes[i].previous.Keys) + changes[i].current
    ensures services[..i + 1] == services[..i] + [services[i]] && services[i] !in services[..i]
    ensures Applying(c, em0, em, before, services[..i + 1])
    ensures forall spn: ServicePortName, e :: spn.nn == services[i] ==>
              (StaleEndpoint(changes[i].previous, changes[i].current, spn, e) <==> StaleEndpoint(em0, em, spn, e))
    ensures forall spn: ServicePortName :: spn.nn == services[i] ==>
              (StaleName(changes[i].previous, changes[i].current, spn) <==> StaleName(em0, em, spn))
    ensures forall spn: ServicePortName, e :: spn.nn != services[i] ==>
              (StaleEndpoint(em0, em, spn, e) <==> StaleEndpoint(em0, em1, spn, e))
              && !StaleEndpoint(changes[i].previous, changes[i].current, spn, e)
    ensures forall spn: ServicePortName :: spn.nn != services[i] ==>
              (StaleName(em0, em, spn) <==> StaleName(em0, em1, spn))
              && !StaleName(changes[i].previous, changes[i].current, spn)
  {
    hide PartIs, Effective, Known, StaleEndpoint, StaleName;
    var nn, t := services[i], TrackerOf(before, services[i]);
    var ch := changes[i];
    assert Change(c, ch, nn, t);
    OldPart(c, em0, em1, before, services[..i], nn);
    Replace(c, em1, em, ch, nn, t);
    SamePartIs(c, ch.current, em, nn, Effective(t));
    ApplyingNext(c, em0, em1, em, before, services[..i], nn);
    forall spn: ServicePortName, e | spn.nn == nn
      ensures StaleEndpoint(ch.previous, ch.current, spn, e) <==> StaleEndpoint(em0, em, spn, e)
    {
      OneMap(c, nn, t.applied, em0, ch.previous, spn);
      SameStale(em0, ch.previous, em, ch.current, spn, e);
    }
    forall spn: ServicePortName | spn.nn == nn
      ensures StaleName(ch.previous, ch.current, spn) <==> StaleName(em0, em, spn)
    {
      OneMap(c, nn, t.applied, em0, ch.previous, spn);
      SameStale(em0, ch.previous, em, ch.current, spn, EMPTY);
    }
    forall spn: ServicePortName, e | spn.nn != nn
      ensures StaleEndpoint(em0, em, spn, e) <==> StaleEndpoint(em0, em1, spn, e)
      ensures !StaleEndpoint(ch.previous, ch.current, spn, e)
    {
      assert SamePart(em1, em, spn.nn);
      SameStale(em0, em0, em1, em, spn, e);
      NotStale(ch.previous, ch.current, spn, e);
    }
    forall spn: ServicePortName | spn.nn != nn
      ensures StaleName(em0, em, spn) <==> StaleName(em0, em1, spn)
      ensures !StaleName(ch.previous, ch.current, spn)
    {
      assert SamePart(em1, em, spn.nn);
      SameStale(em0, em0, em1, em, spn, EMPTY);
      NotStale(ch.previous, ch.current, spn, EMPTY);
    }
  }

  lemma OldPart(c: Config, em0: EMap, em1: EMap, before: map<NamespacedName, SliceTracker>, done: seq<NamespacedName>,
                nn: NamespacedName)
    requires Applying(c, em0, em1, before, done) && nn !in done
    ensures PartIs(c, em0, nn, TrackerOf(before, nn).applied) && PartIs(c, em1, nn, TrackerOf(before, nn).applied)
  {
    hide PartIs, Effective;
    SamePartIs(c, em0, em1, nn, TrackerOf(before, nn).applied);
  }

  lemma ApplyingNext(c: Config, em0: EMap, em1: EMap, em: EMap, before: map<NamespacedName, SliceTracker>,
                     done: seq<NamespacedName>, nn: NamespacedName)
    requires Applying(c, em0, em1, before, done) && nn !in done
    requires PartIs(c, em, nn, Effective(TrackerOf(before, nn)))
    requires forall other :: other != nn ==> SamePart(em1, em, other)
    ensures Applying(c, em0, em, before, done + [nn])
  {
    hide PartIs, Effective;
    forall other | other in done ensures PartIs(c, em, other, Effective(TrackerOf(before, other))) {
      SamePartIs(c, em1, em, other, Effective(TrackerOf(before, other)));
    }
    forall other | other !in done + [nn] ensures SamePart(em0, em, other) {
      assert SamePart(em0, em1, other) && SamePart(em1, em, other);
    }
  }

  /** Equal lists before and the same list after report the same connections. */
  lemma SameStale(before: EMap, before': EMap, after: EMap, after': EMap, spn: ServicePortName, e: Text)
    requires spn in before <==> spn in before'
    requires spn in before && spn in before' ==> SameList(before[spn], before'[spn])
    requires ListAt(after, spn) == ListAt(after', spn)
    ensures StaleEndpoint(before, after, spn, e) <==> StaleEndpoint(before', after', spn, e)
    ensures StaleName(before, after, spn) <==> StaleName(before', after', spn)
  {
    hide Known;
    Carry(ListAt(before, spn), ListAt(before', spn), ListAt(after, spn), e);
    Carry(ListAt(before', spn), ListAt(before, spn), ListAt(after, spn), e);
  }

  lemma Carry(a: seq<BaseEndpointInfo>, b: seq<BaseEndpointInfo>, after: seq<BaseEndpointInfo>, e: Text)
    requires SameList(a, b)
    ensures (exists x :: x in a && x.endpoint == e && !Known(after, x)) ==>
              exists x :: x in b && x.endpoint == e && !Known(after, x)
  {
    if x :| x in a && x.endpoint == e && !Known(after, x) {
      var i :| 0 <= i < |a| && a[i] == x;
      assert Equal(a[i], b[i]);
      assert b[i] in b && !Known(after, b[i]);
    }
  }

  lemma NotStale(before: EMap, after: EMap, spn: ServicePortName, e: Text)
    requires spn !in before && spn !in after
    ensures !StaleEndpoint(before, after, spn, e) && !StaleName(before, after, spn)
  {
  }

  lemma Unmoved(em: EMap, em': EMap, spn: ServicePortName, e: Text)
    requires ListAt(em, spn) == ListAt(em', spn)
    ensures !StaleEndpoint(em, em', spn, e) && !StaleName(em, em', spn)
  {
  }

  lemma FinishApplying(c: Config, em0: EMap, em: EMap, before: map<NamespacedName, SliceTracker>,
                       after: map<NamespacedName, SliceTracker>, changes: seq<EndpointsChange>,
                       services: seq<NamespacedName>)
    requires Applying(c, em0, em, before, services) && Tells(c, changes, services, before)
    requires forall nn :: TrackerOf(after, nn) == SliceTracker(Effective(TrackerOf(before, nn)), map[])
    requires forall nn :: Clean(TrackerOf(before, nn))
    ensures InStep(c, em, after)
    ensures forall spn: ServicePortName, e :: spn.nn !in services ==> !StaleEndpoint(em0, em, spn, e)
    ensures forall spn: ServicePortName :: spn.nn !in services ==> !StaleName(em0, em, spn)
  {
    hide PartIs, Effective, Clean, Change, StaleEndpoint, StaleName;
    forall nn ensures PartIs(c, em, nn, TrackerOf(after, nn).applied) {
      if nn !in services {
        NothingPending(TrackerOf(before, nn));
        SamePartIs(c, em0, em, nn, TrackerOf(before, nn).applied);
      }
    }
    forall spn: ServicePortName, e | spn.nn !in services ensures !StaleEndpoint(em0, em, spn, e) {
      assert SamePart(em0, em, spn.nn);
      Unmoved(em0, em, spn, e);
    }
    forall spn: ServicePortName | spn.nn !in services ensures !StaleName(em0, em, spn) {
      assert SamePart(em0, em, spn.nn);
      Unmoved(em0, em, spn, EMPTY);
    }
  }

  // ---------- any interleaving of events and syncs ----------

  datatype Op = Event(slice: WatchedSlice, remove: bool) | Sync

  /** The latest slice of every name, service by service. */
  function Latest(ops: seq<Op>, nn: NamespacedName): Infos {
    if ops == [] then map[]
    else
      var before, op := Latest(ops[..|ops| - 1], nn), ops[|ops| - 1];
      if op.Event? && KeysOk(op.slice) && ServiceKey(op.slice) == nn then After(before, op.slice, op.remove) else before
  }

  lemma LatestNext(ops: seq<Op>, i: nat, nn: NamespacedName)
    requires i < |ops|
    ensures var before, op := Latest(ops[..i], nn), ops[i];
            Latest(ops[..i + 1], nn)
            == if op.Event? && KeysOk(op.slice) && ServiceKey(op.slice) == nn then After(before, op.slice, op.remove)
               else before
  {
    assert ops[..i + 1][..i] == ops[..i];
  }

  // ---------- what the watched slices say ----------

  /** By its label the slice belongs to the service, and it has a name. */
  predicate OfService(s: WatchedSlice, nn: NamespacedName) {
    var key := Text("kubernetes.io/service-name");
    && key in s.labels && s.labels[key] == nn.name && s.namespace == nn.namespace
    && nn.name != Text("") && nn.namespace != Text("") && s.name != Text("")
  }

  /** Event i tells the latest state of a slice of the service that has not been removed. */
  ghost predicate IsLatest(ops: seq<Op>, nn: NamespacedName, i: nat) {
    && i < |ops| && ops[i].Event? && !ops[i].remove && OfService(ops[i].slice, nn)
    && forall j :: i < j < |ops| && ops[j].Event? && OfService(ops[j].slice, nn) ==>
         ops[j].slice.name != ops[i].slice.name
  }

  /** Endpoint e of that slice, with a first address of the proxy's family, and port p of it, with a name and a
      number, give this string for the service port. */
  ghost predicate Gives(c: Config, ops: seq<Op>, spn: ServicePortName, i: nat, e: WatchedEndpoint, p: PortInfo,
                        endpoint: Text)
  {
    && IsLatest(ops, spn.nn, i) && e in ops[i].slice.endpoints && p in ops[i].slice.ports
    && e.addresses != [] && e.addresses[0].v6 == c.v6
    && p.name == Some(spn.port) && p.protocol == spn.protocol && p.port.Some? && p.port.value != 0
    && var ip, port := e.addresses[0].ip, Itoa(p.port.value);
       endpoint.chars == if ':' in ip then "[" + ip + "]:" + port else ip + ":" + port
  }

  /** The endpoint is on the proxy's own node. */
  predicate OnNode(c: Config, e: WatchedEndpoint) {
    c.hostname != Text("") && e.nodeName == Some(c.hostname)
  }

  /** Under every service port the map lists exactly the endpoint strings that the latest slices give, sorted and each
      once, and those are local that an endpoint on the proxy's node gives. */
  ghost predicate ShowsWatched(c: Config, em: EMap, ops: seq<Op>) {
    forall spn :: ShowsWatchedAt(c, ListAt(em, spn), ops, spn)
  }

  ghost predicate ShowsWatchedAt(c: Config, list: seq<BaseEndpointInfo>, ops: seq<Op>, spn: ServicePortName) {
    && StrictlySorted(list)
    && (forall b :: b in list ==>
          && (exists i: nat, e, p :: Gives(c, ops, spn, i, e, p, b.endpoint))
          && (b.isLocal <==> exists i: nat, e, p :: Gives(c, ops, spn, i, e, p, b.endpoint) && OnNode(c, e)))
    && (forall i: nat, e, p, endpoint | Gives(c, ops, spn, i, e, p, endpoint) ::
          exists b :: b in list && b.endpoint == endpoint)
  }

  lemma OfServiceIs(s: WatchedSlice, nn: NamespacedName)
    ensures OfService(s, nn) <==> KeysOk(s) && ServiceKey(s) == nn
  {
  }

  /** The latest slices, by name. */
  lemma {:induction false} LatestIs(ops: seq<Op>, nn: NamespacedName, n: Text)
    ensures n in Latest(ops, nn) <==> exists i: nat :: IsLatest(ops, nn, i) && ops[i].slice.name == n
    ensures forall i: nat | IsLatest(ops, nn, i) ::
              ops[i].slice.name == n ==>
                n in Latest(ops, nn) && Latest(ops, nn)[n] == NewSliceInfo(ops[i].slice, false)
  {
    hide NewSliceInfo, OfService, KeysOk, ServiceKey;
    if ops != [] {
      var front, op := ops[..|ops| - 1], ops[|ops| - 1];
      LatestIs(front, nn, n);
      if op.Event? {
        OfServiceIs(op.slice, nn);
      }
      forall i: nat | i < |front| ensures front[i] == ops[i] {
      }
      if op.Event? && OfService(op.slice, nn) && op.slice.name == n {
        assert !op.remove ==> IsLatest(ops, nn, |front|);
      } else {
        forall i: nat | i < |ops| && ops[i].Event? && ops[i].slice.name == n
          ensures IsLatest(ops, nn, i) <==> i < |front| && IsLatest(front, nn, i)
        {
        }
      }
    }
  }

  /** The string an endpoint gives on a port, and whether it is local, as the grouping loops compute them. */
  lemma GivenOffer(c: Config, e: WatchedEndpoint, p: PortInfo, spn: ServicePortName, endpoint: Text)
    ensures var info := NewEndpointInfo(e);
            IsLocal(c, info) == OnNode(c, e)
            && (e.addresses != [] && e.addresses[0].v6 == c.v6 <==> GoodEndpoint(c, info))
            && (p.name == Some(spn.port) && p.protocol == spn.protocol && p.port.Some? && p.port.value != 0
                <==> GoodPort(p) && PortName(spn.nn, p) == spn)
            && (e.addresses != [] && p.port.Some? ==>
                  var ip, port := e.addresses[0].ip, Itoa(p.port.value);
                  (endpoint.chars == (if ':' in ip then "[" + ip + "]:" + port else ip + ":" + port)
                   <==> endpoint == EndpointString(info, p.port.value)))
  {
    hide Itoa;
  }

  lemma OfferGiven(c: Config, ops: seq<Op>, spn: ServicePortName, o: Offer)
    requires o in AllOffers(c, spn.nn, Latest(ops, spn.nn), spn)
    ensures exists i: nat, e, p :: Gives(c, ops, spn, i, e, p, o.key) && OnNode(c, e) == o.local
  {
    hide Latest, OfService, IsLocal, EndpointString, OnNode, Itoa, NewEndpointInfo;
    var infos := Latest(ops, spn.nn);
    var n :| n in infos && o in OffersOf(c, spn.nn, infos[n], spn);
    LatestIs(ops, spn.nn, n);
    var i: nat :| IsLatest(ops, spn.nn, i) && ops[i].slice.name == n;
    var p :| p in infos[n].ports && GoodPort(p) && PortName(spn.nn, p) == spn
             && o in OffersOn(c, p.port.value, infos[n].endpoints);
    var info :| info in infos[n].endpoints && GoodEndpoint(c, info)
                && o == Offer(EndpointString(info, p.port.value), IsLocal(c, info));
    var h :| 0 <= h < |infos[n].endpoints| && infos[n].endpoints[h] == info;
    var e := ops[i].slice.endpoints[h];
    assert info == NewEndpointInfo(e) && e in ops[i].slice.endpoints;
    GivenOffer(c, e, p, spn, o.key);
    assert Gives(c, ops, spn, i, e, p, o.key);
  }

  lemma GivenIsOffered(c: Config, ops: seq<Op>, spn: ServicePortName, i: nat, e: WatchedEndpoint, p: PortInfo,
                       endpoint: Text)
    requires Gives(c, ops, spn, i, e, p, endpoint)
    ensures Offer(endpoint, OnNode(c, e)) in AllOffers(c, spn.nn, Latest(ops, spn.nn), spn)
  {
    hide Latest, OfService, IsLocal, EndpointString, OnNode, Itoa, NewEndpointInfo;
    var s := ops[i].slice;
    LatestIs(ops, spn.nn, s.name);
    var info := NewEndpointInfo(e);
    var h :| 0 <= h < |s.endpoints| && s.endpoints[h] == e;
    var all := NewSliceInfo(s, false).endpoints;
    assert all[h] == info && info in all;
    GivenOffer(c, e, p, spn, endpoint);
    assert Offer(endpoint, OnNode(c, e)) in OffersOn(c, p.port.value, all);
    assert Offer(endpoint, OnNode(c, e)) in OffersOf(c, spn.nn, NewSliceInfo(s, false), spn);
  }

  /** What the map shows of a service is what the watched slices say. */
  lemma PartShows(c: Config, em: EMap, ops: seq<Op>, spn: ServicePortName)
    requires PartIs(c, em, spn.nn, Latest(ops, spn.nn))
    ensures ShowsWatchedAt(c, ListAt(em, spn), ops, spn)
  {
    hide Latest, AllOffers, StrictlySorted, Gives, OnNode;
    var offers := AllOffers(c, spn.nn, Latest(ops, spn.nn), spn);
    var list := ListAt(em, spn);
    assert ListedAt(em, spn, offers);
    OffersListed(em, spn, offers);
    forall b | b in list
      ensures exists i: nat, e, p :: Gives(c, ops, spn, i, e, p, b.endpoint)
      ensures b.isLocal <==> exists i: nat, e, p :: Gives(c, ops, spn, i, e, p, b.endpoint) && OnNode(c, e)
    {
      ListedIsGiven(c, ops, spn, b, offers);
    }
    forall i: nat, e, p, endpoint | Gives(c, ops, spn, i, e, p, endpoint)
      ensures exists b :: b in list && b.endpoint == endpoint
    {
      GivenIsOffered(c, ops, spn, i, e, p, endpoint);
      assert Offered(offers, endpoint);
    }
  }

  lemma ListedIsGiven(c: Config, ops: seq<Op>, spn: ServicePortName, b: BaseEndpointInfo, offers: set<Offer>)
    requires offers == AllOffers(c, spn.nn, Latest(ops, spn.nn), spn)
    requires Offered(offers, b.endpoint) && (b.isLocal <==> Offer(b.endpoint, true) in offers)
    ensures exists i: nat, e, p :: Gives(c, ops, spn, i, e, p, b.endpoint)
    ensures b.isLocal <==> exists i: nat, e, p :: Gives(c, ops, spn, i, e, p, b.endpoint) && OnNode(c, e)
  {
    hide Latest, AllOffers, Gives, OnNode;
    if Offer(b.endpoint, true) in offers {
      OfferGiven(c, ops, spn, Offer(b.endpoint, true));
    } else {
      OfferGiven(c, ops, spn, Offer(b.endpoint, false));
    }
    if i: nat, e, p :| Gives(c, ops, spn, i, e, p, b.endpoint) && OnNode(c, e) {
      GivenIsOffered(c, ops, spn, i, e, p, b.endpoint);
    }
  }

  lemma OffersListed(em: EMap, spn: ServicePortName, offers: set<Offer>)
    requires ListedAt(em, spn, offers)
    ensures Lists(offers, ListAt(em, spn))
  {
    hide StrictlySorted, Ordered;
    if spn !in em {
      NothingSorted();
    }
  }

  lemma NothingSorted()
    ensures StrictlySorted([])
  {
  }

  /** Whatever happened before, a sync leaves the endpoint map that the latest slices give, as if computed from nothing,
      with nothing pending and no removed slice applied. */
  method Replay(c: Config, ops: seq<Op>) returns (cache: EndpointSliceCache, endpoints: EndpointsMap)
    ensures fresh(cache) && fresh(endpoints) && cache.Valid()
    ensures ops != [] && ops[|ops| - 1].Sync? ==>
              && ShowsWatched(c, endpoints.em, ops)
              && forall nn :: PartIs(c, endpoints.em, nn, Latest(ops, nn))
                              && TrackerOf(cache.trackerByServiceMap, nn).pending == map[]
  {
    hide ShowsWatchedAt, ListAt, Effective, After, PartIs, Latest, StaleEndpoint, StaleName, Clean;
    cache := new EndpointSliceCache(c);
    endpoints := new EndpointsMap();
    StartReplay(c, ops);
    for i := 0 to |ops|
      invariant cache.Valid() && cache.config == c && InStep(c, endpoints.em, cache.trackerByServiceMap)
      invariant fresh(cache) && fresh(endpoints)
      invariant forall nn :: Effective(TrackerOf(cache.trackerByServiceMap, nn)) == Latest(ops[..i], nn)
      invariant i > 0 && ops[i - 1].Sync? ==>
                  forall nn :: PartIs(c, endpoints.em, nn, Latest(ops[..i], nn))
                               && TrackerOf(cache.trackerByServiceMap, nn).pending == map[]
    {
      forall nn { LatestNext(ops, i, nn); }
      if ops[i].Sync? {
        var staleEndpoints, staleServiceNames := endpoints.Apply(cache);
        AllClean(cache.trackerByServiceMap);
        forall nn ensures Effective(TrackerOf(cache.trackerByServiceMap, nn)) == Latest(ops[..i + 1], nn) {
          NothingPending(TrackerOf(cache.trackerByServiceMap, nn));
        }
      } else {
        ghost var before := cache.trackerByServiceMap;
        var changed := cache.EndpointSliceUpdate(ops[i].slice, ops[i].remove);
        SameApplied(c, endpoints.em, before, cache.trackerByServiceMap);
      }
    }
    assert ops[..|ops|] == ops;
    if ops != [] && ops[|ops| - 1].Sync? {
      forall spn ensures ShowsWatchedAt(c, ListAt(endpoints.em, spn), ops, spn) {
        PartShows(c, endpoints.em, ops, spn);
      }
    }
  }

  lemma StartReplay(c: Config, ops: seq<Op>)
    ensures InStep(c, map[], map[])
    ensures forall nn :: Latest(ops[..0], nn) == map[] && Effective(TrackerOf(map[], nn)) == map[]
  {
    forall nn ensures PartIs(c, map[], nn, map[]) {
      forall spn: ServicePortName | spn.nn == nn ensures ListedAt(map[], spn, AllOffers(c, nn, map[], spn)) {
        assert AllOffers(c, nn, map[], spn) == {};
      }
    }
  }

  lemma SameApplied(c: Config, em: EMap, before: map<NamespacedName, SliceTracker>,
                    after: map<NamespacedName, SliceTracker>)
    requires InStep(c, em, before)
    requires forall nn :: TrackerOf(after, nn).applied == TrackerOf(before, nn).applied
    ensures InStep(c, em, after)
  {
    hide PartIs;
  }
}
