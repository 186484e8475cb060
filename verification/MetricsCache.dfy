/** pkg/service-controller/metrics/cache.go. */
module MetricsCache {
  import opened Discovery
  import opened Sums

  datatype EfficiencyInfo = EfficiencyInfo(endpoints: int, slices: int)

  /** The numbers of one service by port map; Set is a map update. */
  type ServicePortCache = map<PortMapKey, EfficiencyInfo>

  function EndpointsOf(spc: ServicePortCache): map<PortMapKey, int> {
    map pm | pm in spc :: spc[pm].endpoints
  }

  function SlicesOf(spc: ServicePortCache): map<PortMapKey, int> {
    map pm | pm in spc :: spc[pm].slices
  }

  ghost function TotalOf(spc: ServicePortCache): int {
    Sum(EndpointsOf(spc))
  }

  ghost function TotalSlices(spc: ServicePortCache): int {
    Sum(SlicesOf(spc))
  }

  lemma SetTotals(spc: ServicePortCache, pm: PortMapKey, info: EfficiencyInfo)
    requires pm !in spc
    ensures TotalOf(spc[pm := info]) == TotalOf(spc) + info.endpoints
    ensures TotalSlices(spc[pm := info]) == TotalSlices(spc) + info.slices
  {
    assert EndpointsOf(spc[pm := info]) == EndpointsOf(spc)[pm := info.endpoints];
    assert SlicesOf(spc[pm := info]) == SlicesOf(spc)[pm := info.slices];
    SumSet(EndpointsOf(spc), pm, info.endpoints);
    SumSet(SlicesOf(spc), pm, info.slices);
  }

  /** numEndpoints of a ServicePortCache, whichever way the map is walked. */
  method NumEndpoints(spc: ServicePortCache) returns (num: int)
    ensures num == TotalOf(spc)
  {
    num := 0;
    var todo := spc;
    while todo != map[]
      invariant num + TotalOf(todo) == TotalOf(spc)
      decreases |todo|
    {
      var pm :| pm in todo;
      num := num + todo[pm].endpoints;
      SumWithout(EndpointsOf(todo), pm);
      assert EndpointsOf(todo - {pm}) == EndpointsOf(todo) - {pm};
      todo := todo - {pm};
    }
    assert EndpointsOf(todo) == map[];
  }

  // ---------- ideal slice counts ----------

  /** numDesiredSlices: the division is exact enough in the source that rounding plays no part. */
  function NumDesiredSlices(numEndpoints: int, maxPerSlice: int): int
    requires maxPerSlice >= 1
  {
    if numEndpoints <= maxPerSlice then 1 else (numEndpoints + maxPerSlice - 1) / maxPerSlice
  }

  /** The ideal count is the least positive number of slices that holds the endpoints. */
  lemma IdealIsLeast(numEndpoints: int, maxPerSlice: int, slices: int)
    requires maxPerSlice >= 1
    ensures NumDesiredSlices(numEndpoints, maxPerSlice) >= 1
    ensures numEndpoints <= NumDesiredSlices(numEndpoints, maxPerSlice) * maxPerSlice
    ensures slices >= 1 && numEndpoints <= slices * maxPerSlice ==>
              NumDesiredSlices(numEndpoints, maxPerSlice) <= slices
  {
    if numEndpoints > maxPerSlice {
      var q, r := (numEndpoints + maxPerSlice - 1) / maxPerSlice, (numEndpoints + maxPerSlice - 1) % maxPerSlice;
      assert numEndpoints + maxPerSlice - 1 == q * maxPerSlice + r;
      Times(q - slices, maxPerSlice);
      assert (q - slices) * maxPerSlice == q * maxPerSlice - slices * maxPerSlice;
      Times(1 - q, maxPerSlice);
      assert (1 - q) * maxPerSlice == maxPerSlice - q * maxPerSlice;
    }
  }

  lemma Times(k: int, m: int)
    requires m >= 1
    ensures k >= 1 ==> k * m >= m
    ensures k <= 0 ==> k * m <= 0
  {
  }

  // ---------- the cache ----------

  type Contents = map<NamespacedName, ServicePortCache>

  ghost function PerService(c: Contents): map<NamespacedName, int> {
    map nn | nn in c :: TotalOf(c[nn])
  }

  /** The endpoints of all cached services and port maps. */
  ghost function AllEndpoints(c: Contents): int {
    Sum(PerService(c))
  }

  lemma AllAfterSet(c: Contents, nn: NamespacedName, spc: ServicePortCache)
    ensures AllEndpoints(c[nn := spc]) == AllEndpoints(c) + TotalOf(spc) - (if nn in c then TotalOf(c[nn]) else 0)
  {
    assert PerService(c[nn := spc]) == PerService(c)[nn := TotalOf(spc)];
    SumSet(PerService(c), nn, TotalOf(spc));
  }

  lemma AllAfterDelete(c: Contents, nn: NamespacedName)
    requires nn in c
    ensures AllEndpoints(c - {nn}) == AllEndpoints(c) - TotalOf(c[nn])
  {
    assert PerService(c - {nn}) == PerService(c) - {nn};
    SumWithout(PerService(c), nn);
  }

  class Cache {
    const maxEndpointsPerSlice: int
    var numEndpoints: int
    var cache: Contents

    /** The running total is the sum over everything cached. */
    ghost predicate Valid()
      reads this
    {
      numEndpoints == AllEndpoints(cache)
    }

    constructor (endpointsPerSlice: int)
      ensures Valid() && maxEndpointsPerSlice == endpointsPerSlice && cache == map[]
    {
      maxEndpointsPerSlice := endpointsPerSlice;
      numEndpoints := 0;
      cache := map[];
      new;
      assert PerService(map[]) == map[];
    }

    method UpdateServicePortCache(serviceNN: NamespacedName, spCache: ServicePortCache)
      requires Valid()
      modifies this
      ensures Valid() && cache == old(cache)[serviceNN := spCache]
    {
      var prevNumEndpoints := 0;
      if serviceNN in cache {
        prevNumEndpoints := NumEndpoints(cache[serviceNN]);
      }
      var currNumEndpoints := NumEndpoints(spCache);
      AllAfterSet(cache, serviceNN, spCache);
      numEndpoints := numEndpoints + currNumEndpoints - prevNumEndpoints;
      cache := cache[serviceNN := spCache];
    }

    method DeleteService(serviceNN: NamespacedName)
      requires Valid()
      modifies this
      ensures Valid() && cache == old(cache) - {serviceNN}
    {
      if serviceNN in cache {
        AllAfterDelete(cache, serviceNN);
        var num := NumEndpoints(cache[serviceNN]);
        numEndpoints := numEndpoints - num;
        cache := cache - {serviceNN};
      }
    }

    /** Desired and actual slice counts over the whole cache. */
    method DesiredAndActualSlices() returns (desired: int, actual: int)
      requires maxEndpointsPerSlice >= 1
      ensures actual == AllSlices(cache)
      ensures desired == AllDesired(cache, maxEndpointsPerSlice)
    {
      desired, actual := 0, 0;
      var todo := cache;
      NoSlices(maxEndpointsPerSlice);
      while todo != map[]
        invariant actual + AllSlices(todo) == AllSlices(cache)
        invariant desired + AllDesired(todo, maxEndpointsPerSlice) == AllDesired(cache, maxEndpointsPerSlice)
        decreases |todo|
      {
        var nn :| nn in todo;
        TakeService(todo, nn, maxEndpointsPerSlice);
        var items := todo[nn];
        while items != map[]
          invariant actual + TotalSlices(items) + AllSlices(todo - {nn}) == AllSlices(cache)
          invariant desired + TotalDesired(items, maxEndpointsPerSlice) + AllDesired(todo - {nn}, maxEndpointsPerSlice)
                    == AllDesired(cache, maxEndpointsPerSlice)
          decreases |items|
        {
          var pm :| pm in items;
          TakePortMap(items, pm, maxEndpointsPerSlice);
          actual := actual + items[pm].slices;
          desired := desired + NumDesiredSlices(items[pm].endpoints, maxEndpointsPerSlice);
          items := items - {pm};
        }
        NoSlices(maxEndpointsPerSlice);
        todo := todo - {nn};
      }
    }
  }

  ghost function SlicesPer(c: Contents): map<NamespacedName, int> {
    map nn | nn in c :: TotalSlices(c[nn])
  }

  /** The actual slice count over everything cached. */
  ghost function AllSlices(c: Contents): int {
    Sum(SlicesPer(c))
  }

  function DesiredOf(spc: ServicePortCache, max: int): map<PortMapKey, int>
    requires max >= 1
  {
    map pm | pm in spc :: NumDesiredSlices(spc[pm].endpoints, max)
  }

  ghost function TotalDesired(spc: ServicePortCache, max: int): int
    requires max >= 1
  {
    Sum(DesiredOf(spc, max))
  }

  ghost function DesiredPer(c: Contents, max: int): map<NamespacedName, int>
    requires max >= 1
  {
    map nn | nn in c :: TotalDesired(c[nn], max)
  }

  /** The ideal slice count over everything cached. */
  ghost function AllDesired(c: Contents, max: int): int
    requires max >= 1
  {
    Sum(DesiredPer(c, max))
  }

  lemma NoSlices(max: int)
    requires max >= 1
    ensures AllSlices(map[]) == 0 && AllDesired(map[], max) == 0
    ensures TotalSlices(map[]) == 0 && TotalDesired(map[], max) == 0
  {
    assert SlicesPer(map[]) == map[] && DesiredPer(map[], max) == map[];
    assert SlicesOf(map[]) == map[] && DesiredOf(map[], max) == map[];
  }

  lemma TakeService(c: Contents, nn: NamespacedName, max: int)
    requires max >= 1 && nn in c
    ensures AllSlices(c) == TotalSlices(c[nn]) + AllSlices(c - {nn})
    ensures AllDesired(c, max) == TotalDesired(c[nn], max) + AllDesired(c - {nn}, max)
  {
    SumWithout(SlicesPer(c), nn);
    SumWithout(DesiredPer(c, max), nn);
    assert SlicesPer(c) - {nn} == SlicesPer(c - {nn});
    assert DesiredPer(c, max) - {nn} == DesiredPer(c - {nn}, max);
  }

  lemma TakePortMap(spc: ServicePortCache, pm: PortMapKey, max: int)
    requires max >= 1 && pm in spc
    ensures TotalSlices(spc) == spc[pm].slices + TotalSlices(spc - {pm})
    ensures TotalDesired(spc, max) == NumDesiredSlices(spc[pm].endpoints, max) + TotalDesired(spc - {pm}, max)
  {
    SumWithout(SlicesOf(spc), pm);
    SumWithout(DesiredOf(spc, max), pm);
    assert SlicesOf(spc) - {pm} == SlicesOf(spc - {pm});
    assert DesiredOf(spc, max) - {pm} == DesiredOf(spc - {pm}, max);
  }
}
