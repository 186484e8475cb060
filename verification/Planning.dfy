/** The planning half of reconcileByAddressType (pkg/service-controller/reconciler.go): from pods and existing
    slices of one address type to slices to create, update and delete. */
module Planning {
  import opened Wrappers
  import opened Discovery
  import opened EndpointSets
  import opened Packing
  import opened PackingTheorems

  /** What reconcileByAddressType reads off one pod: whether ShouldPodBeInEndpoints, its endpoint ports,
      whether the node lister knows its node, and the endpoint podToEndpoint makes of it. */
  datatype PodView = PodView(included: bool, ports: seq<EndpointPort>, nodeFound: bool, endpoint: Endpoint)

  type Desired = map<PortMapKey, Items>

  // ---------- desired state ----------

  function AddPod(desired: Desired, pod: PodView): Desired {
    if !pod.included then desired
    else
      var pm := multiset(pod.ports);
      var items: Items := if pm in desired then desired[pm] else map[];
      desired[pm := if pod.endpoint.addresses == [] then items else items[KeyOf(pod.endpoint) := pod.endpoint]]
  }

  /** The endpoint sets by port map after all pods: a later pod replaces an earlier one with the same key. */
  function Gather(pods: seq<PodView>): Desired {
    if pods == [] then map[] else AddPod(Gather(pods[..|pods| - 1]), pods[|pods| - 1])
  }

  ghost predicate NodeMissing(pods: seq<PodView>) {
    exists p :: p in pods && p.included && !p.nodeFound
  }

  ghost predicate DesiredOk(desired: Desired) {
    forall pm :: pm in desired ==> WellKeyed(desired[pm])
  }

  /** Pod p asks for endpoint key k under port map pm. */
  predicate AsksFor(p: PodView, pm: PortMapKey, k: EndpointKey) {
    p.included && multiset(p.ports) == pm && p.endpoint.addresses != [] && KeyOf(p.endpoint) == k
  }

  lemma {:induction false} GatherKeys(pods: seq<PodView>, pm: PortMapKey)
    ensures pm in Gather(pods) <==> exists p :: p in pods && p.included && multiset(p.ports) == pm
  {
    if pods != [] {
      var front, last := pods[..|pods| - 1], pods[|pods| - 1];
      GatherKeys(front, pm);
      assert pods == front + [last];
      assert last in pods;
    }
  }

  /** The endpoint a pod list wants under a port map and key. */
  function Gathered(pods: seq<PodView>, pm: PortMapKey, k: EndpointKey): Option<Endpoint> {
    var d := Gather(pods);
    if pm in d && k in d[pm] then Some(d[pm][k]) else None
  }

  lemma GatheredNext(pods: seq<PodView>, last: PodView, pm: PortMapKey, k: EndpointKey)
    ensures Gathered(pods + [last], pm, k)
         == if AsksFor(last, pm, k) then Some(last.endpoint) else Gathered(pods, pm, k)
  {
    assert (pods + [last])[..|pods|] == pods;
  }

  /** An endpoint is desired under a port map exactly if some included pod with an address asks for it there, and then
      it is the endpoint of such a pod, of the last one in fact. */
  lemma {:induction false} GatherMeans(pods: seq<PodView>, pm: PortMapKey, k: EndpointKey)
    ensures Gathered(pods, pm, k).Some? <==> exists p :: p in pods && AsksFor(p, pm, k)
    ensures Gathered(pods, pm, k).Some? ==>
              exists i :: 0 <= i < |pods| && AsksFor(pods[i], pm, k) && pods[i].endpoint == Gathered(pods, pm, k).value
                          && forall h :: i < h < |pods| ==> !AsksFor(pods[h], pm, k)
  {
    hide Gathered, AsksFor;
    if pods == [] {
      NobodyAsks(pm, k);
    } else {
      var front, last := pods[..|pods| - 1], pods[|pods| - 1];
      assert pods == front + [last];
      GatherMeans(front, pm, k);
      GatheredNext(front, last, pm, k);
      assert last in pods && pods[|front|] == last;
      if !AsksFor(last, pm, k) && Gathered(front, pm, k).Some? {
        var i :| 0 <= i < |front| && AsksFor(front[i], pm, k) && front[i].endpoint == Gathered(front, pm, k).value
                 && forall h :: i < h < |front| ==> !AsksFor(front[h], pm, k);
        assert pods[i] == front[i];
      }
    }
  }

  lemma NobodyAsks(pm: PortMapKey, k: EndpointKey)
    ensures Gathered([], pm, k) == None
  {
  }

  lemma {:induction false} GatherOk(pods: seq<PodView>)
    ensures DesiredOk(Gather(pods))
  {
    if pods != [] {
      GatherOk(pods[..|pods| - 1]);
    }
  }

  method GroupPods(pods: seq<PodView>, addressType: AddressType)
    returns (r: Result<Desired, ()>, metas: map<PortMapKey, EndpointMeta>)
    ensures r.Err? <==> NodeMissing(pods)
    ensures r.Ok? ==> r.value == Gather(pods) && metas.Keys == r.value.Keys
    ensures r.Ok? ==> forall pm :: pm in metas ==>
              multiset(metas[pm].ports) == pm && metas[pm].addressType == addressType
  {
    hide AddPod;
    var desired: Desired := map[];
    metas := map[];
    for i := 0 to |pods|
      invariant !NodeMissing(pods[..i])
      invariant desired == Gather(pods[..i]) && metas.Keys == desired.Keys
      invariant forall pm :: pm in metas ==> multiset(metas[pm].ports) == pm && metas[pm].addressType == addressType
    {
      var pod := pods[i];
      assert pods[..i + 1] == pods[..i] + [pod];
      AddPodIs(desired, pod);
      if !pod.included {
        continue;
      }
      var epHash := multiset(pod.ports);
      if epHash !in desired {
        desired := desired[epHash := map[]];
      }
      if epHash !in metas {
        metas := metas[epHash := EndpointMeta(pod.ports, addressType)];
      }
      if !pod.nodeFound {
        assert pod in pods;
        return Err(()), metas;
      }
      if |pod.endpoint.addresses| > 0 {
        desired := desired[epHash := desired[epHash][KeyOf(pod.endpoint) := pod.endpoint]];
      }
    }
    assert pods[..|pods|] == pods;
    r := Ok(desired);
  }

  lemma AddPodIs(desired: Desired, pod: PodView)
    ensures !pod.included ==> AddPod(desired, pod) == desired
    ensures pod.included ==>
              var pm := multiset(pod.ports);
              var d := if pm in desired then desired else desired[pm := map[]];
              AddPod(desired, pod)
              == if |pod.endpoint.addresses| > 0 then d[pm := d[pm][KeyOf(pod.endpoint) := pod.endpoint]] else d
  {
  }

  // ---------- existing state ----------

  function Where(slices: seq<EndpointSlice>, svc: Service, owned: bool, pm: PortMapKey): seq<EndpointSlice> {
    if slices == [] then []
    else
      var last := slices[|slices| - 1];
      Where(slices[..|slices| - 1], svc, owned, pm)
      + if OwnedBy(last, svc) == owned && (owned ==> PortKey(last) == pm) then [last] else []
  }

  /** The owned slices of one port map, in their given order. */
  function ByPort(slices: seq<EndpointSlice>, svc: Service, pm: PortMapKey): seq<EndpointSlice> {
    Where(slices, svc, true, pm)
  }

  /** The slices that are not the service's own. */
  function Orphans(slices: seq<EndpointSlice>, svc: Service): seq<EndpointSlice> {
    Where(slices, svc, false, multiset{})
  }

  lemma {:induction false} WhereIs(slices: seq<EndpointSlice>, svc: Service, owned: bool, pm: PortMapKey)
    ensures forall s :: s in Where(slices, svc, owned, pm) <==>
              s in slices && OwnedBy(s, svc) == owned && (owned ==> PortKey(s) == pm)
    ensures DistinctNames(slices) ==> DistinctNames(Where(slices, svc, owned, pm))
  {
    hide OwnedBy, PortKey;
    if slices != [] {
      var front, last := slices[..|slices| - 1], slices[|slices| - 1];
      WhereIs(front, svc, owned, pm);
      assert slices == front + [last];
      if DistinctNames(slices) {
        assert forall s :: s in front ==> s.name != last.name;
      }
    }
  }

  /** The owned slices by port map, and the others. */
  ghost predicate SlicesGrouped(slices: seq<EndpointSlice>, svc: Service, byPort: map<PortMapKey, seq<EndpointSlice>>,
                                orphans: seq<EndpointSlice>) {
    && (forall pm :: pm in byPort <==> ByPort(slices, svc, pm) != [])
    && (forall pm :: pm in byPort ==> byPort[pm] == ByPort(slices, svc, pm))
    && orphans == Orphans(slices, svc)
  }

  lemma WhereNext(slices: seq<EndpointSlice>, i: nat, svc: Service, owned: bool, pm: PortMapKey)
    requires i < |slices|
    ensures Where(slices[..i + 1], svc, owned, pm)
         == Where(slices[..i], svc, owned, pm)
            + if OwnedBy(slices[i], svc) == owned && (owned ==> PortKey(slices[i]) == pm) then [slices[i]] else []
  {
    hide OwnedBy, PortKey;
    assert slices[..i + 1][..i] == slices[..i];
  }

  lemma GroupOwned(slices: seq<EndpointSlice>, i: nat, svc: Service, byPort: map<PortMapKey, seq<EndpointSlice>>,
                   orphans: seq<EndpointSlice>)
    requires i < |slices| && SlicesGrouped(slices[..i], svc, byPort, orphans) && OwnedBy(slices[i], svc)
    ensures var s := slices[i];
            var group := if PortKey(s) in byPort then byPort[PortKey(s)] + [s] else [s];
            SlicesGrouped(slices[..i + 1], svc, byPort[PortKey(s) := group], orphans)
  {
    hide OwnedBy, PortKey, Where;
    WhereNext(slices, i, svc, false, multiset{});
    forall pm ensures ByPort(slices[..i + 1], svc, pm)
                   == ByPort(slices[..i], svc, pm) + if PortKey(slices[i]) == pm then [slices[i]] else []
    {
      WhereNext(slices, i, svc, true, pm);
    }
  }

  lemma GroupOrphan(slices: seq<EndpointSlice>, i: nat, svc: Service, byPort: map<PortMapKey, seq<EndpointSlice>>,
                    orphans: seq<EndpointSlice>)
    requires i < |slices| && SlicesGrouped(slices[..i], svc, byPort, orphans) && !OwnedBy(slices[i], svc)
    ensures SlicesGrouped(slices[..i + 1], svc, byPort, orphans + [slices[i]])
  {
    hide OwnedBy, PortKey, Where;
    WhereNext(slices, i, svc, false, multiset{});
    forall pm ensures ByPort(slices[..i + 1], svc, pm) == ByPort(slices[..i], svc, pm) {
      WhereNext(slices, i, svc, true, pm);
    }
  }

  method GroupSlices(existing: seq<EndpointSlice>, svc: Service)
    returns (byPort: map<PortMapKey, seq<EndpointSlice>>, orphans: seq<EndpointSlice>)
    ensures forall pm :: pm in byPort <==> ByPort(existing, svc, pm) != []
    ensures forall pm :: pm in byPort ==> byPort[pm] == ByPort(existing, svc, pm)
    ensures orphans == Orphans(existing, svc)
  {
    hide PortKey, OwnedBy, SlicesGrouped;
    byPort, orphans := map[], [];
    NoSlices(existing, svc);
    for i := 0 to |existing|
      invariant SlicesGrouped(existing[..i], svc, byPort, orphans)
    {
      var s := existing[i];
      var owned := Owned(s, svc);
      if owned {
        GroupOwned(existing, i, svc, byPort, orphans);
        var epHash := PortKey(s);
        if epHash in byPort {
          byPort := byPort[epHash := byPort[epHash] + [s]];
        } else {
          byPort := byPort[epHash := [s]];
        }
      } else {
        GroupOrphan(existing, i, svc, byPort, orphans);
        orphans := orphans + [s];
      }
    }
    SlicesGroupedMeans(existing, svc, byPort, orphans);
  }

  lemma NoSlices(slices: seq<EndpointSlice>, svc: Service)
    ensures SlicesGrouped(slices[..0], svc, map[], [])
  {
  }

  lemma SlicesGroupedMeans(slices: seq<EndpointSlice>, svc: Service, byPort: map<PortMapKey, seq<EndpointSlice>>,
                           orphans: seq<EndpointSlice>)
    requires SlicesGrouped(slices[..|slices|], svc, byPort, orphans)
    ensures forall pm :: pm in byPort <==> ByPort(slices, svc, pm) != []
    ensures forall pm :: pm in byPort ==> byPort[pm] == ByPort(slices, svc, pm)
    ensures orphans == Orphans(slices, svc)
  {
    hide PortKey, OwnedBy, Where;
    assert slices[..|slices|] == slices;
  }

  // ---------- the plan ----------

  /** How often key k occurs among the slices of port map pm. */
  function CopiesAt(slices: seq<EndpointSlice>, pm: PortMapKey, k: EndpointKey): nat {
    if slices == [] then 0
    else
      var last := slices[|slices| - 1];
      CopiesAt(slices[..|slices| - 1], pm, k) + if PortKey(last) == pm then Keys(last.endpoints)[k] else 0
  }

  /** forms: the final forms of the existing slices that stay; the other fields are what finalize is given. */
  datatype Plan = Plan(
    forms: seq<EndpointSlice>,
    creates: seq<EndpointSlice>,
    updates: seq<EndpointSlice>,
    deletes: seq<EndpointSlice>)

  /** The inputs a plan is made from. */
  datatype Inputs = Inputs(
    svc: Service,
    max: nat,
    addressType: AddressType,
    existing: seq<EndpointSlice>,
    desired: Desired)

  /** Existing slices are distinct, named slices of one address type, listed by the service's labels. */
  ghost predicate InputsOk(x: Inputs) {
    && x.max >= 1 && DistinctNames(x.existing) && DesiredOk(x.desired)
    && forall s :: s in x.existing ==> s.name != EMPTY && s.addressType == x.addressType && Labelled(s, x.svc)
  }

  ghost predicate Counted(x: Inputs, done: set<PortMapKey>, plan: Plan) {
    forall pm, k :: CopiesAt(plan.forms, pm, k) + CopiesAt(plan.creates, pm, k)
                    == One(Wanted(x, done, pm, k))
  }

  /** Every form is an existing slice of a desired port map, kept or updated, in good shape. */
  ghost predicate FormsOk(x: Inputs, done: set<PortMapKey>, plan: Plan) {
    && DistinctNames(plan.forms)
    && forall f :: f in plan.forms ==> FormOk(x, done, plan, f)
  }

  ghost predicate FormOk(x: Inputs, done: set<PortMapKey>, plan: Plan, f: EndpointSlice) {
    && PortKey(f) in done && PortKey(f) in x.desired && OwnedBy(f, x.svc)
    && GoodSlice(f, x.svc, x.desired[PortKey(f)])
    && (exists s :: s in x.existing && SameFrame(s, f))
    && (f in plan.updates || f in x.existing)
  }

  ghost predicate CreatesOk(x: Inputs, done: set<PortMapKey>, plan: Plan) {
    forall c :: c in plan.creates ==> CreateOk(x, done, c)
  }

  ghost predicate CreateOk(x: Inputs, done: set<PortMapKey>, c: EndpointSlice) {
    && PortKey(c) in done && PortKey(c) in x.desired && OwnedBy(c, x.svc) && c.name == EMPTY
    && c.addressType == x.addressType && GoodSlice(c, x.svc, x.desired[PortKey(c)])
    && 0 < |c.endpoints| <= x.max
  }

  /** Updates are forms; deletes are existing slices of finished port maps that are no forms. */
  ghost predicate ListsOk(x: Inputs, done: set<PortMapKey>, plan: Plan) {
    && DistinctNames(plan.updates) && DistinctNames(plan.deletes)
    && (forall u :: u in plan.updates ==> u in plan.forms)
    && (forall s :: s in plan.deletes ==> s in x.existing)
    && (forall s :: s in x.existing && OwnedBy(s, x.svc) && PortKey(s) in done ==>
          (s in plan.deletes <==> s.name !in Names(plan.forms)))
    && (forall s :: s in plan.deletes ==> OwnedBy(s, x.svc) && PortKey(s) in done)
  }

  /** A desired endpoint that is published by an owned slice has a slice that holds it before and after. */
  ghost predicate Homes(x: Inputs, done: set<PortMapKey>, plan: Plan) {
    forall s, k | s in x.existing && OwnedBy(s, x.svc) && Wanted(x, done, PortKey(s), k) && k in KeySet(s.endpoints) ::
      Home(x, plan.forms, PortKey(s), k)
  }

  predicate Wanted(x: Inputs, done: set<PortMapKey>, pm: PortMapKey, k: EndpointKey) {
    pm in done && pm in x.desired && k in x.desired[pm]
  }

  ghost predicate Home(x: Inputs, forms: seq<EndpointSlice>, pm: PortMapKey, k: EndpointKey) {
    exists s, f :: s in x.existing && f in forms && SameFrame(s, f) && PortKey(f) == pm
                   && k in KeySet(s.endpoints) && k in KeySet(f.endpoints)
  }

  /** Nothing is planned for the port maps whose slices are already tidy. */
  ghost predicate IdleWhereTidy(x: Inputs, done: set<PortMapKey>, plan: Plan) {
    forall pm :: pm in done && pm in x.desired && Tidy(x.svc, ByPort(x.existing, x.svc, pm), x.desired[pm]) ==>
      NothingAt(pm, plan)
  }

  ghost predicate NothingAt(pm: PortMapKey, plan: Plan) {
    && (forall c :: c in plan.creates ==> PortKey(c) != pm)
    && (forall u :: u in plan.updates ==> PortKey(u) != pm)
    && (forall s :: s in plan.deletes ==> PortKey(s) != pm)
  }

  /** The plan for the port maps looked at so far. */
  ghost predicate PlanPart(x: Inputs, done: set<PortMapKey>, plan: Plan) {
    && Counted(x, done, plan) && FormsOk(x, done, plan) && CreatesOk(x, done, plan)
    && ListsOk(x, done, plan) && Homes(x, done, plan) && IdleWhereTidy(x, done, plan)
  }

  // ---------- adding one port map ----------

  lemma CopiesAtPush(slices: seq<EndpointSlice>, s: EndpointSlice, pm: PortMapKey, k: EndpointKey)
    ensures CopiesAt(slices + [s], pm, k)
         == CopiesAt(slices, pm, k) + if PortKey(s) == pm then Keys(s.endpoints)[k] else 0
  {
    assert (slices + [s])[..|slices|] == slices;
  }

  lemma {:induction false} CopiesAtConcat(a: seq<EndpointSlice>, b: seq<EndpointSlice>, pm: PortMapKey, k: EndpointKey)
    ensures CopiesAt(a + b, pm, k) == CopiesAt(a, pm, k) + CopiesAt(b, pm, k)
  {
    hide Keys, PortKey;
    if b == [] {
      assert a + b == a;
    } else {
      var front, last := b[..|b| - 1], b[|b| - 1];
      CopiesAtConcat(a, front, pm, k);
      assert a + b == (a + front) + [last];
      CopiesAtPush(a + front, last, pm, k);
    }
  }

  lemma {:induction false} CopiesAtOne(slices: seq<EndpointSlice>, pm: PortMapKey, q: PortMapKey, k: EndpointKey)
    requires forall s :: s in slices ==> PortKey(s) == pm
    ensures CopiesAt(slices, q, k) == if q == pm then Copies(slices, k) else 0
  {
    hide Keys, PortKey;
    if slices != [] {
      var front, last := slices[..|slices| - 1], slices[|slices| - 1];
      assert last in slices;
      CopiesAtOne(front, pm, q, k);
    }
  }

  /** The plan with the packing of one more port map appended. */
  function Joined(x: Inputs, plan: Plan, pm: PortMapKey, p: Packing): Plan
    requires Names(ByPort(x.existing, x.svc, pm)) <= p.final.byName.Keys
  {
    Plan(plan.forms + Live(ByPort(x.existing, x.svc, pm), p.final.byName, p.final.toDelete),
         plan.creates + p.creates, plan.updates + p.updates, plan.deletes + p.deletes)
  }

  /** What is known of the packing of one desired port map. */
  ghost predicate PackedAt(x: Inputs, pm: PortMapKey, meta: EndpointMeta, p: Packing) {
    && InputsOk(x) && pm in x.desired && multiset(meta.ports) == pm && meta.addressType == x.addressType
    && Packed(x.svc, x.max, meta, ByPort(x.existing, x.svc, pm), x.desired[pm], p)
  }

  lemma ByPortIs(x: Inputs, pm: PortMapKey)
    requires InputsOk(x)
    ensures DistinctNames(ByPort(x.existing, x.svc, pm))
    ensures forall s :: s in ByPort(x.existing, x.svc, pm) <==> s in x.existing && OwnedBy(s, x.svc) && PortKey(s) == pm
    ensures forall s :: s in ByPort(x.existing, x.svc, pm) ==> s.name != EMPTY && Labelled(s, x.svc)
  {
    hide OwnedBy, PortKey, ByPort;
    WhereIs(x.existing, x.svc, true, pm);
    ByPortDef(x, pm);
  }

  lemma ByPortDef(x: Inputs, pm: PortMapKey)
    ensures ByPort(x.existing, x.svc, pm) == Where(x.existing, x.svc, true, pm)
  {
  }

  lemma NamesKept(existing: seq<EndpointSlice>, byName: map<Text, EndpointSlice>)
    requires Names(existing) <= byName.Keys
    requires forall s :: s in existing ==> SameFrame(s, byName[s.name])
    ensures forall s :: s in existing ==> byName[s.name].name == s.name
  {
  }

  lemma LastApart(existing: seq<EndpointSlice>)
    requires existing != [] && DistinctNames(existing)
    ensures var front, last := existing[..|existing| - 1], existing[|existing| - 1];
            && DistinctNames(front) && Names(existing) == Names(front) + {last.name} && last.name !in Names(front)
            && forall s :: s in existing <==> s in front || s == last
  {
    assert existing == existing[..|existing| - 1] + [existing[|existing| - 1]];
  }

  lemma {:induction false} LiveIs(existing: seq<EndpointSlice>, byName: map<Text, EndpointSlice>, dropped: set<Text>)
    requires Names(existing) <= byName.Keys && DistinctNames(existing)
    requires forall s :: s in existing ==> SameFrame(s, byName[s.name])
    ensures var live := Live(existing, byName, dropped);
            && DistinctNames(live)
            && (forall f :: f in live ==> f.name !in dropped && f.name in Names(existing) && byName[f.name] == f)
            && (forall s :: s in existing && s.name !in dropped ==> byName[s.name] in live)
  {
    hide SameFrame, Names;
    if existing != [] {
      var front, last := existing[..|existing| - 1], existing[|existing| - 1];
      NamesKept(existing, byName);
      LastApart(existing);
      LiveIs(front, byName, dropped);
    }
  }

  /** The packing of one port map, told in the plan's terms. */
  ghost predicate PackFacts(x: Inputs, pm: PortMapKey, live: seq<EndpointSlice>, p: Packing) {
    && pm in x.desired
    && (forall k :: Copies(live, k) + Copies(p.creates, k) == One(k in x.desired[pm]))
    && DistinctNames(live) && (forall f :: f in live ==> LiveFact(x, pm, p, f))
    && (forall c :: c in p.creates ==> CreateOk(x, {pm}, c))
    && DistinctNames(p.updates) && DistinctNames(p.deletes)
    && (forall u :: u in p.updates ==> u in live)
    && (forall s :: s in p.deletes ==> s in x.existing && OwnedBy(s, x.svc) && PortKey(s) == pm)
    && (forall s :: s in x.existing && OwnedBy(s, x.svc) && PortKey(s) == pm ==>
          (s in p.deletes <==> s.name !in Names(live)))
    && (forall s, k | s in x.existing && OwnedBy(s, x.svc) && PortKey(s) == pm && k in x.desired[pm]
                      && k in KeySet(s.endpoints) :: Home(x, live, pm, k))
    && (Tidy(x.svc, ByPort(x.existing, x.svc, pm), x.desired[pm]) ==>
          p.creates == [] && p.updates == [] && p.deletes == [])
  }

  ghost predicate LiveFact(x: Inputs, pm: PortMapKey, p: Packing, f: EndpointSlice) {
    && PortKey(f) == pm && pm in x.desired && OwnedBy(f, x.svc)
    && GoodSlice(f, x.svc, x.desired[pm])
    && (exists s :: s in x.existing && SameFrame(s, f))
    && (f in p.updates || f in x.existing)
  }

  lemma PackSorted(x: Inputs, pm: PortMapKey, meta: EndpointMeta, p: Packing)
    requires PackedAt(x, pm, meta, p)
    ensures Sorted(ByPort(x.existing, x.svc, pm), p.final)
    ensures Lists(p.updates, p.final.toUpdate, p.final) && Lists(p.deletes, p.final.toDelete, p.final)
    ensures Names(ByPort(x.existing, x.svc, pm)) == p.final.byName.Keys
  {
    hide Phases, Conserved, Lists, TotalEndpoints, ByPort, Avail;
  }

  lemma PackCounts(x: Inputs, pm: PortMapKey, meta: EndpointMeta, p: Packing, live: seq<EndpointSlice>)
    requires PackedAt(x, pm, meta, p) && Names(ByPort(x.existing, x.svc, pm)) <= p.final.byName.Keys
    requires live == Live(ByPort(x.existing, x.svc, pm), p.final.byName, p.final.toDelete)
    ensures forall k :: Copies(live, k) + Copies(p.creates, k) == One(k in x.desired[pm])
  {
    hide Phases, Sorted, Lists, TotalEndpoints, ByPort, Avail, Live, Copies;
  }

  lemma PackLive(x: Inputs, pm: PortMapKey, meta: EndpointMeta, p: Packing, live: seq<EndpointSlice>)
    requires PackedAt(x, pm, meta, p) && Names(ByPort(x.existing, x.svc, pm)) <= p.final.byName.Keys
    requires live == Live(ByPort(x.existing, x.svc, pm), p.final.byName, p.final.toDelete)
    ensures DistinctNames(live) && forall f :: f in live ==> LiveFact(x, pm, p, f)
  {
    hide Packed, ByPort, Live, GoodSlice, NewSlice, LiveFact, OwnedBy, PortKey, Lists;
    var own, t := ByPort(x.existing, x.svc, pm), p.final;
    ByPortIs(x, pm);
    PackSorted(x, pm, meta, p);
    LiveIs(own, t.byName, t.toDelete);
    assert WellKeyed(x.desired[pm]);
    SurvivorsAreGood(x.svc, x.max, meta, own, x.desired[pm], p);
    forall f | f in live ensures LiveFact(x, pm, p, f) {
      assert Cur(t, f.name) == f;
      LiveOne(x, pm, p, own, f);
    }
  }

  lemma LiveOne(x: Inputs, pm: PortMapKey, p: Packing, own: seq<EndpointSlice>, f: EndpointSlice)
    requires pm in x.desired && GoodSlice(f, x.svc, x.desired[pm])
    requires forall s :: s in own ==> s in x.existing && OwnedBy(s, x.svc) && PortKey(s) == pm
    requires Sorted(own, p.final) && Lists(p.updates, p.final.toUpdate, p.final)
    requires f.name in Names(own) && f.name !in p.final.toDelete && Cur(p.final, f.name) == f
    ensures LiveFact(x, pm, p, f)
  {
    hide GoodSlice, DistinctNames, OwnedBy, PortKey;
    var s :| s in own && s.name == f.name;
    assert SameFrame(s, f);
    FrameKeeps(s, f, x.svc);
  }

  lemma FrameKeeps(s: EndpointSlice, f: EndpointSlice, svc: Service)
    requires SameFrame(s, f)
    ensures PortKey(f) == PortKey(s) && (OwnedBy(f, svc) <==> OwnedBy(s, svc))
  {
  }

  lemma PackLists(x: Inputs, pm: PortMapKey, meta: EndpointMeta, p: Packing, live: seq<EndpointSlice>)
    requires PackedAt(x, pm, meta, p) && Names(ByPort(x.existing, x.svc, pm)) <= p.final.byName.Keys
    requires live == Live(ByPort(x.existing, x.svc, pm), p.final.byName, p.final.toDelete)
    ensures DistinctNames(p.updates) && DistinctNames(p.deletes)
    ensures forall u :: u in p.updates ==> u in live
    ensures forall s :: s in p.deletes ==> s in x.existing && OwnedBy(s, x.svc) && PortKey(s) == pm
    ensures forall s :: s in x.existing && OwnedBy(s, x.svc) && PortKey(s) == pm ==>
              (s in p.deletes <==> s.name !in Names(live))
  {
    hide Packed, ByPort, Live, OwnedBy, PortKey;
    var own, t := ByPort(x.existing, x.svc, pm), p.final;
    ByPortIs(x, pm);
    PackSorted(x, pm, meta, p);
    LiveIs(own, t.byName, t.toDelete);
    forall u | u in p.updates ensures u in live {
      var s :| s in own && s.name == u.name;
      assert t.byName[s.name] in live;
    }
    forall s | s in p.deletes ensures s in own {
      var r :| r in own && r.name == s.name;
    }
    forall s | s in own ensures s in p.deletes <==> s.name !in Names(live) {
      if s.name in t.toDelete {
        assert Cur(t, s.name) == s;
      } else {
        assert t.byName[s.name] in live;
      }
    }
  }

  lemma PackHomes(x: Inputs, pm: PortMapKey, meta: EndpointMeta, p: Packing, live: seq<EndpointSlice>)
    requires PackedAt(x, pm, meta, p) && Names(ByPort(x.existing, x.svc, pm)) <= p.final.byName.Keys
    requires live == Live(ByPort(x.existing, x.svc, pm), p.final.byName, p.final.toDelete)
    ensures forall s, k | s in x.existing && OwnedBy(s, x.svc) && PortKey(s) == pm && k in x.desired[pm]
                          && k in KeySet(s.endpoints) :: Home(x, live, pm, k)
  {
    hide Packed, ByPort, Live, OwnedBy, WellKeyed, KeySet;
    var own, t := ByPort(x.existing, x.svc, pm), p.final;
    ByPortIs(x, pm);
    PackSorted(x, pm, meta, p);
    LiveIs(own, t.byName, t.toDelete);
    assert WellKeyed(x.desired[pm]);
    forall s, k | s in x.existing && OwnedBy(s, x.svc) && PortKey(s) == pm && k in x.desired[pm]
                && k in KeySet(s.endpoints)
      ensures Home(x, live, pm, k)
    {
      var i :| 0 <= i < |own| && own[i] == s;
      var j := KeptInPlace(x.svc, x.max, meta, own, x.desired[pm], p, i, k);
      var f := t.byName[own[j].name];
      assert f in live && SameFrame(own[j], f) && own[j] in own && Cur(t, own[j].name) == f;
    }
  }

  lemma PackCreates(x: Inputs, pm: PortMapKey, meta: EndpointMeta, p: Packing)
    requires PackedAt(x, pm, meta, p)
    ensures forall c :: c in p.creates ==> CreateOk(x, {pm}, c)
    ensures Tidy(x.svc, ByPort(x.existing, x.svc, pm), x.desired[pm]) ==>
              p.creates == [] && p.updates == [] && p.deletes == []
  {
    hide Packed, ByPort, WellKeyed, GoodSlice, Tidy, ServiceLabels, FromItems;
    var own := ByPort(x.existing, x.svc, pm);
    assert WellKeyed(x.desired[pm]);
    ByPortIs(x, pm);
    SurvivorsAreGood(x.svc, x.max, meta, own, x.desired[pm], p);
    forall c | c in p.creates ensures CreateOk(x, {pm}, c) {
      NewSliceIs(c, x.svc, meta, x.desired[pm]);
    }
    if Tidy(x.svc, own, x.desired[pm]) {
      TidyIsIdle(x.svc, x.max, meta, own, x.desired[pm], p);
    }
  }

  lemma NewSliceIs(c: EndpointSlice, svc: Service, meta: EndpointMeta, d: Items)
    requires NewSlice(c, svc, meta, d)
    ensures OwnedBy(c, svc) && PortKey(c) == multiset(meta.ports) && c.name == EMPTY
    ensures c.addressType == meta.addressType
  {
    var s := NewEndpointSlice(svc, meta);
    assert c.owners == s.owners;
  }

  lemma PackIs(x: Inputs, pm: PortMapKey, meta: EndpointMeta, p: Packing) returns (live: seq<EndpointSlice>)
    requires PackedAt(x, pm, meta, p)
    ensures Names(ByPort(x.existing, x.svc, pm)) <= p.final.byName.Keys
    ensures live == Live(ByPort(x.existing, x.svc, pm), p.final.byName, p.final.toDelete)
    ensures PackFacts(x, pm, live, p)
  {
    hide Packed, ByPort, Live, Tidy, CreateOk, LiveFact, Home, OwnedBy, Copies, Sorted, Lists, Names, DistinctNames,
         KeySet;
    PackSorted(x, pm, meta, p);
    live := Live(ByPort(x.existing, x.svc, pm), p.final.byName, p.final.toDelete);
    PackCounts(x, pm, meta, p, live);
    PackLive(x, pm, meta, p, live);
    PackLists(x, pm, meta, p, live);
    PackHomes(x, pm, meta, p, live);
    PackCreates(x, pm, meta, p);
  }

  lemma JoinCounted(x: Inputs, done: set<PortMapKey>, plan: Plan, pm: PortMapKey, live: seq<EndpointSlice>, p: Packing)
    requires PlanPart(x, done, plan) && pm !in done && PackFacts(x, pm, live, p)
    ensures Counted(x, done + {pm}, Plan(plan.forms + live, plan.creates + p.creates,
                                         plan.updates + p.updates, plan.deletes + p.deletes))
  {
    hide Copies, CopiesAt, FormsOk, CreatesOk, ListsOk, Homes, IdleWhereTidy, GoodSlice, Home, Tidy, DistinctNames,
         OwnedBy, PortKey;
    forall q, k
      ensures CopiesAt(plan.forms + live, q, k) + CopiesAt(plan.creates + p.creates, q, k)
           == One(Wanted(x, done + {pm}, q, k))
    {
      CopiesAtConcat(plan.forms, live, q, k);
      CopiesAtConcat(plan.creates, p.creates, q, k);
      CopiesAtOne(live, pm, q, k);
      CopiesAtOne(p.creates, pm, q, k);
    }
  }

  lemma JoinForms(x: Inputs, done: set<PortMapKey>, plan: Plan, pm: PortMapKey, live: seq<EndpointSlice>, p: Packing)
    requires InputsOk(x) && PlanPart(x, done, plan) && pm !in done && PackFacts(x, pm, live, p)
    ensures FormsOk(x, done + {pm}, Plan(plan.forms + live, plan.creates + p.creates,
                                         plan.updates + p.updates, plan.deletes + p.deletes))
  {
    hide Copies, CopiesAt, CreatesOk, ListsOk, Homes, IdleWhereTidy, GoodSlice, Home, Tidy, OwnedBy, PortKey, CreateOk;
    var joined := Plan(plan.forms + live, plan.creates + p.creates, plan.updates + p.updates, plan.deletes + p.deletes);
    forall f, g | f in plan.forms && g in live ensures f.name != g.name {
      FrameApart(x, done, plan, pm, p, f, g);
    }
    forall f | f in joined.forms ensures FormOk(x, done + {pm}, joined, f) {
      if f in plan.forms {
        assert FormOk(x, done, plan, f);
      } else {
        assert LiveFact(x, pm, p, f);
      }
    }
    DistinctConcat(plan.forms, live);
  }

  lemma DistinctConcat(a: seq<EndpointSlice>, b: seq<EndpointSlice>)
    requires DistinctNames(a) && DistinctNames(b) && forall f, g :: f in a && g in b ==> f.name != g.name
    ensures DistinctNames(a + b)
  {
    forall i, j | 0 <= i < j < |a + b| ensures (a + b)[i].name != (a + b)[j].name {
      if i < |a| <= j {
        assert a[i] in a && b[j - |a|] in b;
      }
    }
  }

  /** Forms of different port maps are forms of different slices. */
  lemma FrameApart(x: Inputs, done: set<PortMapKey>, plan: Plan, pm: PortMapKey, p: Packing,
                   f: EndpointSlice, g: EndpointSlice)
    requires InputsOk(x) && pm !in done && FormOk(x, done, plan, f) && LiveFact(x, pm, p, g)
    ensures f.name != g.name
  {
    hide GoodSlice, OwnedBy;
    var s :| s in x.existing && SameFrame(s, f);
    var r :| r in x.existing && SameFrame(r, g);
    SameName(x.existing, s, r);
  }

  lemma SameName(slices: seq<EndpointSlice>, s: EndpointSlice, r: EndpointSlice)
    requires DistinctNames(slices) && s in slices && r in slices
    ensures s.name == r.name ==> s == r
  {
  }

  lemma JoinLists(x: Inputs, done: set<PortMapKey>, plan: Plan, pm: PortMapKey, live: seq<EndpointSlice>, p: Packing)
    requires InputsOk(x) && PlanPart(x, done, plan) && pm !in done && PackFacts(x, pm, live, p)
    ensures ListsOk(x, done + {pm}, Plan(plan.forms + live, plan.creates + p.creates,
                                         plan.updates + p.updates, plan.deletes + p.deletes))
  {
    hide Copies, CopiesAt, CreatesOk, Homes, IdleWhereTidy, GoodSlice, Home, Tidy, OwnedBy, PortKey, CreateOk,
         FormOk, LiveFact, DistinctNames;
    forall f, g | f in plan.forms && g in live ensures f.name != g.name {
      FrameApart(x, done, plan, pm, p, f, g);
    }
    forall s, r | s in plan.deletes && r in p.deletes ensures s.name != r.name {
      DifferentPorts(x, done, pm, s, r);
    }
    DistinctConcat(plan.updates, p.updates);
    DistinctConcat(plan.deletes, p.deletes);
    assert Names(plan.forms + live) == Names(plan.forms) + Names(live);
    forall s | s in x.existing && OwnedBy(s, x.svc) && PortKey(s) in done + {pm}
      ensures s in plan.deletes + p.deletes <==> s.name !in Names(plan.forms + live)
    {
      OtherPorts(x, done, plan, pm, live, p, s);
    }
  }

  lemma DifferentPorts(x: Inputs, done: set<PortMapKey>, pm: PortMapKey, s: EndpointSlice, r: EndpointSlice)
    requires InputsOk(x) && pm !in done && s in x.existing && r in x.existing && PortKey(s) in done && PortKey(r) == pm
    ensures s.name != r.name
  {
    SameName(x.existing, s, r);
  }

  /** A slice of a finished port map is no live slice of the next one, and the other way round. */
  lemma OtherPorts(x: Inputs, done: set<PortMapKey>, plan: Plan, pm: PortMapKey, live: seq<EndpointSlice>, p: Packing,
                   s: EndpointSlice)
    requires InputsOk(x) && pm !in done && s in x.existing
    requires FormsOk(x, done, plan) && forall f :: f in live ==> LiveFact(x, pm, p, f)
    ensures PortKey(s) in done ==> s.name !in Names(live)
    ensures PortKey(s) == pm ==> s.name !in Names(plan.forms)
  {
    hide GoodSlice, OwnedBy;
    forall f | f in live && PortKey(s) in done ensures f.name != s.name {
      var r :| r in x.existing && SameFrame(r, f);
      SameName(x.existing, s, r);
    }
    forall f | f in plan.forms && PortKey(s) == pm ensures f.name != s.name {
      assert FormOk(x, done, plan, f);
      var r :| r in x.existing && SameFrame(r, f);
      SameName(x.existing, s, r);
    }
  }

  lemma JoinRest(x: Inputs, done: set<PortMapKey>, plan: Plan, pm: PortMapKey, live: seq<EndpointSlice>, p: Packing)
    requires InputsOk(x) && PlanPart(x, done, plan) && pm !in done && PackFacts(x, pm, live, p)
    ensures var joined := Plan(plan.forms + live, plan.creates + p.creates,
                               plan.updates + p.updates, plan.deletes + p.deletes);
            CreatesOk(x, done + {pm}, joined) && Homes(x, done + {pm}, joined)
  {
    hide Copies, CopiesAt, FormsOk, ListsOk, IdleWhereTidy, GoodSlice, Tidy, OwnedBy, PortKey, LiveFact, DistinctNames,
         KeySet, SameFrame;
    var joined := Plan(plan.forms + live, plan.creates + p.creates, plan.updates + p.updates, plan.deletes + p.deletes);
    forall c | c in joined.creates ensures CreateOk(x, done + {pm}, c) {
      if c in plan.creates {
        assert CreateOk(x, done, c);
      } else {
        assert CreateOk(x, {pm}, c);
      }
    }
    forall s, k | s in x.existing && OwnedBy(s, x.svc) && Wanted(x, done + {pm}, PortKey(s), k)
                && k in KeySet(s.endpoints)
      ensures Home(x, joined.forms, PortKey(s), k)
    {
      if PortKey(s) == pm {
        assert Home(x, live, pm, k);
      } else {
        assert Home(x, plan.forms, PortKey(s), k);
      }
    }
  }

  lemma JoinIdle(x: Inputs, done: set<PortMapKey>, plan: Plan, pm: PortMapKey, live: seq<EndpointSlice>, p: Packing)
    requires InputsOk(x) && PlanPart(x, done, plan) && pm !in done && PackFacts(x, pm, live, p)
    ensures IdleWhereTidy(x, done + {pm}, Plan(plan.forms + live, plan.creates + p.creates,
                                               plan.updates + p.updates, plan.deletes + p.deletes))
  {
    hide Copies, CopiesAt, GoodSlice, Tidy, OwnedBy, PortKey, DistinctNames, KeySet, SameFrame, Homes, Home, Counted,
         Names;
    var joined := Plan(plan.forms + live, plan.creates + p.creates, plan.updates + p.updates, plan.deletes + p.deletes);
    forall q | q in done + {pm} && q in x.desired && Tidy(x.svc, ByPort(x.existing, x.svc, q), x.desired[q])
      ensures NothingAt(q, joined)
    {
      assert forall c :: c in plan.creates ==> CreateOk(x, done, c);
      assert forall f :: f in plan.forms ==> FormOk(x, done, plan, f);
      assert forall f :: f in live ==> LiveFact(x, pm, p, f);
      assert forall c :: c in p.creates ==> CreateOk(x, {pm}, c);
    }
  }

  /** Appending the packing of another desired port map keeps the plan sound. */
  lemma Join(x: Inputs, done: set<PortMapKey>, plan: Plan, pm: PortMapKey, meta: EndpointMeta, p: Packing)
    requires PlanPart(x, done, plan) && pm !in done && PackedAt(x, pm, meta, p)
    ensures Names(ByPort(x.existing, x.svc, pm)) <= p.final.byName.Keys
    ensures PlanPart(x, done + {pm}, Joined(x, plan, pm, p))
  {
    hide Packed, PackFacts, ByPort, Live, Counted, FormsOk, CreatesOk, ListsOk, Homes, IdleWhereTidy, InputsOk;
    var live := PackIs(x, pm, meta, p);
    JoinCounted(x, done, plan, pm, live, p);
    JoinForms(x, done, plan, pm, live, p);
    JoinLists(x, done, plan, pm, live, p);
    JoinRest(x, done, plan, pm, live, p);
    JoinIdle(x, done, plan, pm, live, p);
  }
}
