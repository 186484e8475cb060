/** pkg/service-controller/endpointslice_tracker.go. */
module Trackers {
  import opened Wrappers
  import opened Discovery

  const DELETION_EXPECTED := -1

  /** Expected generations by slice uid. */
  type Generations = map<Text, int>
  type Tracked = map<NamespacedName, Generations>

  /** The service a slice belongs to by its label; a missing label reads as the empty name. */
  function ServiceNN(s: EndpointSlice): NamespacedName {
    NamespacedName(s.namespace, if LABEL_SERVICE_NAME in s.labels then s.labels[LABEL_SERVICE_NAME] else EMPTY)
  }

  function GenerationsOf(t: Tracked, nn: NamespacedName): Generations {
    if nn in t then t[nn] else map[]
  }

  function Noted(t: Tracked, s: EndpointSlice, generation: int): Tracked {
    t[ServiceNN(s) := GenerationsOf(t, ServiceNN(s))[s.uid := generation]]
  }

  function AfterUpdate(t: Tracked, s: EndpointSlice): Tracked {
    Noted(t, s, s.generation)
  }

  function AfterExpectDeletion(t: Tracked, s: EndpointSlice): Tracked {
    Noted(t, s, DELETION_EXPECTED)
  }

  function AfterHandleDeletion(t: Tracked, s: EndpointSlice): Tracked {
    if ServiceNN(s) in t then t[ServiceNN(s) := t[ServiceNN(s)] - {s.uid}] else t
  }

  predicate Knows(t: Tracked, s: EndpointSlice) {
    s.uid in GenerationsOf(t, ServiceNN(s))
  }

  /** The listed slice is older than what the controller wrote, or should be gone. */
  predicate Outdated(gens: Generations, s: EndpointSlice) {
    s.uid in gens && (gens[s.uid] == DELETION_EXPECTED || gens[s.uid] > s.generation)
  }

  /** The tracker expects a slice that is not listed. */
  predicate Missing(gens: Generations, slices: seq<EndpointSlice>, uid: Text) {
    uid in gens && gens[uid] != DELETION_EXPECTED && forall s :: s in slices ==> s.uid != uid
  }

  ghost predicate Stale(gens: Generations, slices: seq<EndpointSlice>) {
    (exists s :: s in slices && Outdated(gens, s)) || (exists uid :: Missing(gens, slices, uid))
  }

  class EndpointSliceTracker {
    var generationsByService: Tracked

    constructor ()
      ensures generationsByService == map[]
    {
      generationsByService := map[];
    }

    method Has(s: EndpointSlice) returns (has: bool)
      ensures has <==> Knows(generationsByService, s)
    {
      var nn := ServiceNN(s);
      has := nn in generationsByService && s.uid in generationsByService[nn];
    }

    /** Whether an event about this slice tells the controller something it does not know. */
    method ShouldSync(s: EndpointSlice) returns (sync: bool)
      ensures sync <==> !Knows(generationsByService, s)
                        || s.generation > GenerationsOf(generationsByService, ServiceNN(s))[s.uid]
    {
      var nn := ServiceNN(s);
      if nn !in generationsByService {
        return true;
      }
      var gfs := generationsByService[nn];
      sync := s.uid !in gfs || s.generation > gfs[s.uid];
    }

    method StaleSlices(service: Service, endpointSlices: seq<EndpointSlice>) returns (stale: bool)
      ensures stale <==> Stale(GenerationsOf(generationsByService, NamespacedName(service.namespace, service.name)),
                               endpointSlices)
    {
      var nn := NamespacedName(service.namespace, service.name);
      if nn !in generationsByService {
        return false;
      }
      var gfs := generationsByService[nn];
      var providedSlices: Generations := map[];
      for i := 0 to |endpointSlices|
        invariant forall uid :: uid in providedSlices <==> exists j :: 0 <= j < i && endpointSlices[j].uid == uid
        invariant forall j :: 0 <= j < i ==> !Outdated(gfs, endpointSlices[j])
      {
        var s := endpointSlices[i];
        providedSlices := providedSlices[s.uid := s.generation];
        if s.uid in gfs && (gfs[s.uid] == DELETION_EXPECTED || gfs[s.uid] > s.generation) {
          assert s in endpointSlices && Outdated(gfs, s);
          return true;
        }
      }
      stale := HasMissing(gfs, providedSlices, endpointSlices);
    }

    /** The second loop of StaleSlices, over the tracked generations in whatever order. */
    static method HasMissing(gfs: Generations, providedSlices: Generations, endpointSlices: seq<EndpointSlice>)
      returns (missing: bool)
      requires forall uid :: uid in providedSlices <==>
                 exists j :: 0 <= j < |endpointSlices| && endpointSlices[j].uid == uid
      ensures missing <==> exists uid :: Missing(gfs, endpointSlices, uid)
    {
      var todo := gfs.Keys;
      while todo != {}
        invariant todo <= gfs.Keys
        invariant forall uid :: uid in gfs.Keys - todo ==> !Missing(gfs, endpointSlices, uid)
        decreases |todo|
      {
        var uid :| uid in todo;
        todo := todo - {uid};
        if gfs[uid] == DELETION_EXPECTED {
          continue;
        }
        if uid !in providedSlices {
          assert Missing(gfs, endpointSlices, uid);
          return true;
        }
        assert !Missing(gfs, endpointSlices, uid);
      }
      missing := false;
    }

    method Update(s: EndpointSlice)
      modifies this
      ensures generationsByService == AfterUpdate(old(generationsByService), s)
    {
      var nn := ServiceNN(s);
      if nn !in generationsByService {
        generationsByService := generationsByService[nn := map[]];
      }
      generationsByService := generationsByService[nn := generationsByService[nn][s.uid := s.generation]];
      assert generationsByService == AfterUpdate(old(generationsByService), s);
    }

    method DeleteService(namespace: Text, name: Text)
      modifies this
      ensures generationsByService == old(generationsByService) - {NamespacedName(namespace, name)}
    {
      generationsByService := generationsByService - {NamespacedName(namespace, name)};
    }

    method ExpectDeletion(s: EndpointSlice)
      modifies this
      ensures generationsByService == AfterExpectDeletion(old(generationsByService), s)
    {
      var nn := ServiceNN(s);
      if nn !in generationsByService {
        generationsByService := generationsByService[nn := map[]];
      }
      generationsByService := generationsByService[nn := generationsByService[nn][s.uid := DELETION_EXPECTED]];
      assert generationsByService == AfterExpectDeletion(old(generationsByService), s);
    }

    /** False exactly when the slice was tracked and its deletion was not expected. */
    method HandleDeletion(s: EndpointSlice) returns (expected: bool)
      modifies this
      ensures generationsByService == AfterHandleDeletion(old(generationsByService), s)
      ensures expected <==> (Knows(old(generationsByService), s) ==>
                               GenerationsOf(old(generationsByService), ServiceNN(s))[s.uid] == DELETION_EXPECTED)
    {
      var nn := ServiceNN(s);
      if nn in generationsByService {
        var gfs := generationsByService[nn];
        generationsByService := generationsByService[nn := gfs - {s.uid}];
        if s.uid in gfs && gfs[s.uid] != DELETION_EXPECTED {
          return false;
        }
      }
      expected := true;
    }
  }
}
