/**
 The conflation objects as the program has them: elements and metadata behind pointers, updated in place.
 Each operation is proved to do to the unit's view what the functions of Conflation say.
 */
module ConflationUnits {
  import opened Bundles
  import opened Conflation
  import opened ConflationLaws

  class BundleMetadata {
    const bundleType: string
    var generation: nat
    var token: int

    constructor (bundleType: string, generation: nat, token: int)
      ensures Value() == Metadata(bundleType, generation, token)
    {
      this.bundleType, this.generation, this.token := bundleType, generation, token;
    }

    function Value(): Metadata
      reads this
    {
      Metadata(bundleType, generation, token)
    }

    method Update(generation: nat, token: int)
      modifies this
      ensures Value() == Metadata(bundleType, generation, token)
    {
      this.generation := generation;
      this.token := token;
    }
  }

  class ConflationElement {
    const bundleType: string
    const dependency: Option<string>
    var bundle: Option<Bundle>
    var bundleMetadata: BundleMetadata?
    var isInProcess: bool
    var lastProcessedBundleGeneration: nat

    constructor (bundleType: string, dependency: Option<string>)
      ensures this.bundleType == bundleType && this.dependency == dependency
      ensures bundleMetadata == null && View() == Element(None, None, false, 0)
    {
      this.bundleType, this.dependency := bundleType, dependency;
      bundle, bundleMetadata, isInProcess, lastProcessedBundleGeneration := None, null, false, 0;
    }

    function View(): Element
      reads this, bundleMetadata
    {
      Element(bundle, if bundleMetadata == null then None else Some(bundleMetadata.Value()),
              isInProcess, lastProcessedBundleGeneration)
    }
  }

  /** The units that have a bundle to process, first in first out. */
  class ConflationReadyQueue {
    var queue: seq<ConflationUnit>

    constructor ()
      ensures queue == []
    {
      queue := [];
    }

    method Enqueue(cu: ConflationUnit)
      modifies this
      ensures queue == old(queue) + [cu]
    {
      queue := queue + [cu];
    }

    /** The caller waits while the queue is empty; this is what happens once it is not. */
    method BlockingDequeue() returns (cu: ConflationUnit)
      requires queue != []
      modifies this
      ensures [cu] + queue == old(queue)
    {
      cu := queue[0];
      queue := queue[1..];
    }
  }

  ghost predicate Fills(registrations: seq<Registration>, p: nat) {
    exists i :: 0 <= i < |registrations| && registrations[i].priority == p
  }

  /** The registrations fill every priority of cfg, and agree with it. */
  ghost predicate Registered(cfg: Config, registrations: seq<Registration>) {
    && |registrations| == |cfg.slots|
    && (forall i | 0 <= i < |registrations| ::
          && registrations[i].priority < |cfg.slots|
          && cfg.slots[registrations[i].priority] == Slot(registrations[i].bundleType, registrations[i].dependency))
    && (forall p | 0 <= p < |cfg.slots| :: Fills(registrations, p))
  }

  class ConflationUnit {
    ghost const cfg: Config
    const priorityQueue: seq<ConflationElement>
    const bundleTypeToPriority: map<string, nat>
    const readyQueue: ConflationReadyQueue
    var isInReadyQueue: bool

    /** The metadata object and bundle handed out by GetNext and not reported yet. */
    ghost var inFlight: BundleMetadata?
    ghost var inFlightBundle: Bundle
    /** The values of the elements, in priority order. */
    ghost var model: seq<Element>
    ghost var Repr: set<object>

    ghost predicate Structure()
      reads this, Repr
    {
      && this in Repr
      && (readyQueue as object) !in Repr
      && WellFormed(cfg)
      && bundleTypeToPriority == cfg.priorityOf
      && |priorityQueue| == |cfg.slots| == |model|
      && (forall i | 0 <= i < |priorityQueue| ::
            && priorityQueue[i] in Repr
            && (priorityQueue[i].bundleMetadata != null ==> priorityQueue[i].bundleMetadata in Repr)
            && priorityQueue[i].View() == model[i]
            && cfg.slots[i] == Slot(priorityQueue[i].bundleType, priorityQueue[i].dependency))
      && (forall i, j | 0 <= i < j < |priorityQueue| :: priorityQueue[i] != priorityQueue[j])
      && (inFlight != null ==> inFlight in Repr)
    }

    /** No two elements share a metadata object, and only the element in process still points to the one in flight. */
    ghost predicate Unaliased()
      reads this, Repr
      requires Structure()
    {
      && (forall i, j | 0 <= i < j < |priorityQueue| && priorityQueue[i].bundleMetadata != null ::
            priorityQueue[i].bundleMetadata != priorityQueue[j].bundleMetadata)
      && (forall i | 0 <= i < |priorityQueue| && priorityQueue[i].bundleMetadata != null ::
            priorityQueue[i].bundleMetadata == inFlight ==> priorityQueue[i].isInProcess)
    }

    ghost function View(): Unit
      reads this
    {
      Unit(model, isInReadyQueue)
    }

    ghost function Job(): Option<Fetched>
      reads this, inFlight
    {
      if inFlight == null then None else Some(Fetched(inFlightBundle, inFlight.Value()))
    }

    ghost predicate Valid()
      reads this, Repr
      ensures Valid() ==> this in Repr && (readyQueue as object) !in Repr
    {
      Structure() && Unaliased() && Safe(cfg, View(), Job())
    }

    constructor (ghost cfg: Config, readyQueue: ConflationReadyQueue, registrations: seq<Registration>)
      requires WellFormed(cfg) && Registered(cfg, registrations)
      ensures Valid() && fresh(Repr) && this.cfg == cfg && this.readyQueue == readyQueue
      ensures View() == NewUnit(cfg) && inFlight == null
    {
      hide Registered, Ready, SomeReady;
      var queue, index := NewPriorityQueue(cfg, registrations);
      this.cfg, this.readyQueue := cfg, readyQueue;
      priorityQueue, bundleTypeToPriority, isInReadyQueue := queue, index, false;
      model, inFlight := NewUnit(cfg).elements, null;
      new;
      Repr := {this} + (set e: ConflationElement | e in queue :: e as object);
      assert forall i | 0 <= i < |queue| :: queue[i] in queue;
      assert Structure();
      assert Unaliased();
      NewUnitInv(cfg);
    }

    static method NewPriorityQueue(ghost cfg: Config, registrations: seq<Registration>)
      returns (queue: seq<ConflationElement>, index: map<string, nat>)
      requires WellFormed(cfg) && Registered(cfg, registrations)
      ensures index == cfg.priorityOf && |queue| == |cfg.slots|
      ensures forall p | 0 <= p < |queue| ::
                && fresh(queue[p])
                && cfg.slots[p] == Slot(queue[p].bundleType, queue[p].dependency)
                && queue[p].bundleMetadata == null
                && queue[p].View() == Element(None, None, false, 0)
      ensures forall p, q | 0 <= p < q < |queue| :: queue[p] != queue[q]
    {
      var slots := new ConflationElement?[|registrations|](_ => null);
      index := map[];
      for n := 0 to |registrations|
        invariant slots.Length == |registrations|
        invariant forall t | t in index :: t in cfg.priorityOf && index[t] == cfg.priorityOf[t]
        invariant forall i | 0 <= i < n :: registrations[i].bundleType in index && slots[registrations[i].priority] != null
        invariant forall p | 0 <= p < slots.Length && slots[p] != null ::
                    && fresh(slots[p])
                    && cfg.slots[p] == Slot(slots[p].bundleType, slots[p].dependency)
                    && slots[p].bundleMetadata == null
                    && slots[p].View() == Element(None, None, false, 0)
        invariant forall p, q | 0 <= p < q < slots.Length && slots[p] != null :: slots[p] != slots[q]
      {
        var r := registrations[n];
        var e := new ConflationElement(r.bundleType, r.dependency);
        slots[r.priority] := e;
        index := index[r.bundleType := r.priority];
      }
      forall p | 0 <= p < slots.Length ensures slots[p] != null {
        assert Fills(registrations, p);
      }
      assert forall e | e in slots[..] :: e != null;
      queue := slots[..];
      forall t | t in cfg.priorityOf ensures t in index {
        assert Fills(registrations, cfg.priorityOf[t]);
      }
    }

    method Insert(bundle: Bundle, token: int)
      requires Valid() && bundle.bundleType in cfg.priorityOf
      modifies this, Repr, readyQueue
      ensures Valid() && fresh(Repr - old(Repr))
      ensures View() == Conflation.Insert(cfg, old(View()), bundle, token)
      ensures readyQueue.queue == old(readyQueue.queue) +
                (if View().inReadyQueue && !old(View()).inReadyQueue then [this] else [])
      // the job given to a worker is untouched
      ensures inFlight == old(inFlight) && Job() == old(Job())
    {
      hide WellFormed, Safe;
      InsertKeepsSafe(cfg, View(), bundle, token, Job());
      var priority := bundleTypeToPriority[bundle.bundleType];
      var element := priorityQueue[priority];
      if bundle.generation <= element.lastProcessedBundleGeneration {
        return;
      }
      if element.bundle.Some? && bundle.generation <= element.bundle.value.generation {
        return;
      }
      UpdateElement(priority, bundle, token);
      AddCUToReadyQueueIfNeeded();
    }

    /** Replaces the pointers of an element in process, and overwrites the metadata of any other in place. */
    method UpdateElement(priority: nat, bundle: Bundle, token: int)
      requires Structure() && Unaliased()
      requires priority < |priorityQueue| && bundle.bundleType == priorityQueue[priority].bundleType
      requires priorityQueue[priority].bundleMetadata != null ==>
                 priorityQueue[priority].bundleMetadata.bundleType == bundle.bundleType
      modifies priorityQueue[priority], this`Repr, this`model, priorityQueue[priority].bundleMetadata
      ensures Structure() && Unaliased() && fresh(Repr - old(Repr)) && old(Repr) <= Repr
      ensures View() == Store(old(View()), priority, bundle, token)
      ensures Job() == old(Job())
    {
      hide WellFormed;
      var element := priorityQueue[priority];
      element.bundle := Some(bundle);
      if element.bundleMetadata != null && !element.isInProcess {
        element.bundleMetadata.Update(bundle.generation, token);
      } else {
        element.bundleMetadata := new BundleMetadata(bundle.bundleType, bundle.generation, token);
        Repr := Repr + {element.bundleMetadata};
      }
      model := model[priority := element.View()];
    }

    /** None stands for errNoReadyBundle. */
    method GetNext() returns (next: Option<(Bundle, BundleMetadata)>)
      requires Valid() && inFlight == null
      modifies this, Repr
      ensures Valid() && Repr == old(Repr)
      ensures View() == Conflation.GetNext(cfg, old(View())).0
      ensures next.None? <==> Conflation.GetNext(cfg, old(View())).1.None?
      ensures next.None? ==> inFlight == null
      ensures next.Some? ==>
                && Conflation.GetNext(cfg, old(View())).1 == Some(Fetched(next.value.0, next.value.1.Value()))
                && inFlight == next.value.1 && inFlightBundle == next.value.0
    {
      GetNextKeepsInv(cfg, View());
      var priority := GetNextReadyBundlePriority();
      if priority == INVALID_PRIORITY {
        return None;
      }
      assert ElementOk(cfg.slots[priority], View().elements[priority]);
      var bundle, metadata := TakeElement(priority);
      return Some((bundle, metadata));
    }

    method TakeElement(priority: nat) returns (bundle: Bundle, metadata: BundleMetadata)
      requires Structure() && Unaliased() && inFlight == null
      requires priority < |priorityQueue| && priorityQueue[priority].bundle.Some?
      requires priorityQueue[priority].bundleMetadata != null
      modifies this, priorityQueue[priority]
      ensures Structure() && Unaliased() && Repr == old(Repr)
      ensures View() == Unit(old(model)[priority := old(model)[priority].(inProcess := true)], false)
      ensures inFlight == metadata == old(priorityQueue[priority].bundleMetadata)
      ensures metadata.Value() == old(model)[priority].metadata.value
      ensures inFlightBundle == bundle == old(model)[priority].bundle.value
    {
      hide WellFormed;
      var element := priorityQueue[priority];
      isInReadyQueue := false;
      element.isInProcess := true;
      model := model[priority := element.View()];
      bundle, metadata := element.bundle.value, element.bundleMetadata;
      inFlight, inFlightBundle := metadata, bundle;
    }

    method ReportResult(metadata: BundleMetadata, ok: bool)
      requires Valid() && inFlight == metadata
      modifies this, Repr, readyQueue
      ensures Valid() && Repr == old(Repr) && inFlight == null
      ensures View() == Report(cfg, old(View()), old(metadata.Value()), ok)
      ensures readyQueue.queue == old(readyQueue.queue) + (if isInReadyQueue then [this] else [])
    {
      hide WellFormed, Safe, Report;
      ReportKeepsSafe(cfg, View(), Job().value, ok);
      SettleElement(bundleTypeToPriority[metadata.bundleType], metadata, ok);
      AddCUToReadyQueueIfNeeded();
    }

    method SettleElement(priority: nat, metadata: BundleMetadata, ok: bool)
      requires Structure() && Unaliased() && inFlight == metadata
      requires priority < |priorityQueue| && (ok ==> priorityQueue[priority].bundle.Some?)
      requires forall i | 0 <= i < |priorityQueue| && priorityQueue[i].isInProcess :: i == priority
      modifies priorityQueue[priority], this`inFlight, this`model
      ensures Structure() && Unaliased() && inFlight == null
      ensures model == old(model)[priority := Settle(old(model)[priority], metadata.Value(), ok)]
    {
      hide WellFormed;
      var element := priorityQueue[priority];
      element.isInProcess := false;
      inFlight := null;
      if ok {
        if element.lastProcessedBundleGeneration < metadata.generation {
          element.lastProcessedBundleGeneration := metadata.generation;
        }
        if metadata.generation == element.bundle.value.generation {
          element.bundle := None;
          element.bundleMetadata := null;
        }
      }
      model := model[priority := element.View()];
    }

    method IsInProcess() returns (busy: bool)
      requires Structure()
      ensures busy <==> AnyInProcess(View().elements)
    {
      for i := 0 to |priorityQueue|
        invariant forall j | 0 <= j < i :: !View().elements[j].inProcess
      {
        if priorityQueue[i].isInProcess {
          assert View().elements[i].inProcess;
          return true;
        }
      }
      return false;
    }

    method AddCUToReadyQueueIfNeeded()
      requires Structure() && Unaliased()
      modifies this`isInReadyQueue, readyQueue
      ensures Structure() && Unaliased()
      ensures View() == Conflation.AddToReadyQueueIfNeeded(cfg, old(View()))
      // announced if and only if it was before, or it is idle and has a ready bundle
      ensures isInReadyQueue <==> old(isInReadyQueue) || (Idle(model) && SomeReady(cfg, model))
      ensures readyQueue.queue == old(readyQueue.queue) + (if isInReadyQueue && !old(isInReadyQueue) then [this] else [])
    {
      hide WellFormed, SomeReady, Ready, ElementOk;
      FirstReadyIsSome(cfg, model);
      var busy := IsInProcess();
      if isInReadyQueue || busy {
        return;
      }
      var priority := GetNextReadyBundlePriority();
      if priority != INVALID_PRIORITY {
        readyQueue.Enqueue(this);
        isInReadyQueue := true;
      }
    }

    method GetNextReadyBundlePriority() returns (priority: int)
      requires Structure()
      ensures priority == INVALID_PRIORITY <==> FirstReady(cfg, View().elements, 0).None?
      ensures priority != INVALID_PRIORITY ==> FirstReady(cfg, View().elements, 0) == Some(priority)
    {
      for p := 0 to |priorityQueue|
        invariant FirstReady(cfg, View().elements, 0) == FirstReady(cfg, View().elements, p)
      {
        if priorityQueue[p].bundle.Some? && !IsCurrentOrAnyDependencyInProcess(p) && CheckDependency(p) {
          return p;
        }
      }
      return INVALID_PRIORITY;
    }

    predicate IsCurrentOrAnyDependencyInProcess(p: nat): (busy: bool)
      requires Structure() && p < |priorityQueue|
      reads this, Repr
      ensures busy == ChainInProcess(cfg, View().elements, p)
      decreases Rank(cfg)[p]
    {
      if priorityQueue[p].isInProcess then true
      else if priorityQueue[p].dependency.None? then false
      else IsCurrentOrAnyDependencyInProcess(bundleTypeToPriority[priorityQueue[p].dependency.value])
    }

    predicate CheckDependency(p: nat): (met: bool)
      requires Structure() && p < |priorityQueue| && priorityQueue[p].bundle.Some?
      reads this, Repr
      ensures met == DependencyMet(cfg, View().elements, p, priorityQueue[p].bundle.value)
    {
      var bundle := priorityQueue[p].bundle.value;
      if priorityQueue[p].dependency.None? then true
      else if bundle.dependencyGeneration.None? then false // declares a dependency, is no DependantBundle
      else
        var d := bundleTypeToPriority[priorityQueue[p].dependency.value];
        bundle.dependencyGeneration.value <= priorityQueue[d].lastProcessedBundleGeneration
    }
  }

  const INVALID_PRIORITY: int := -1

  /** One unit per leaf hub, all feeding the same ready queue. */
  class ConflationManager {
    ghost const cfg: Config
    var conflationUnits: map<string, ConflationUnit>
    var registrations: seq<Registration>
    const readyQueue: ConflationReadyQueue

    ghost predicate Valid()
      reads this, conflationUnits.Values, set h, o | h in conflationUnits && o in conflationUnits[h].Repr :: o
    {
      && WellFormed(cfg)
      && (forall h | h in conflationUnits ::
            && conflationUnits[h].Valid()
            && conflationUnits[h].cfg == cfg
            && conflationUnits[h].readyQueue == readyQueue
            && (this as object) !in conflationUnits[h].Repr)
      && (forall g, h | g in conflationUnits && h in conflationUnits && g != h ::
            conflationUnits[g].Repr !! conflationUnits[h].Repr)
    }

    ghost function View(): map<string, Unit>
      requires Valid()
      reads this, conflationUnits.Values, set h, o | h in conflationUnits && o in conflationUnits[h].Repr :: o
    {
      map h | h in conflationUnits :: conflationUnits[h].View()
    }

    lemma ViewsKeepInv(hub: string)
      requires Valid()
      ensures forall h | h in View() :: |View()[h].elements| == |cfg.slots|
      ensures UnitInv(cfg, UnitOf(cfg, View(), hub))
    {
      NewUnitInv(cfg);
      assert hub in conflationUnits ==> conflationUnits[hub].Valid();
      assert forall h | h in conflationUnits :: conflationUnits[h].Valid();
    }

    constructor (ghost cfg: Config, readyQueue: ConflationReadyQueue)
      requires WellFormed(cfg)
      ensures Valid() && this.cfg == cfg && this.readyQueue == readyQueue
      ensures registrations == [] && conflationUnits == map[]
    {
      this.cfg, this.readyQueue := cfg, readyQueue;
      conflationUnits, registrations := map[], [];
    }

    method Register(registration: Registration)
      modifies this`registrations
      ensures registrations == old(registrations) + [registration]
    {
      registrations := registrations + [registration];
    }

    method GetConflationUnit(hub: string) returns (cu: ConflationUnit)
      requires Valid() && Registered(cfg, registrations)
      modifies this`conflationUnits
      ensures Valid() && hub in conflationUnits && conflationUnits[hub] == cu
      ensures conflationUnits == old(conflationUnits)[hub := cu]
      ensures if hub in old(conflationUnits) then cu == old(conflationUnits)[hub] else fresh(cu.Repr)
      ensures View() == old(View())[hub := UnitOf(cfg, old(View()), hub)]
    {
      hide ConflationUnit.Valid, Registered, WellFormed;
      if hub in conflationUnits {
        return conflationUnits[hub];
      }
      cu := new ConflationUnit(cfg, readyQueue, registrations);
      conflationUnits := conflationUnits[hub := cu];
    }

    method Insert(bundle: Bundle, token: int)
      requires Valid() && Registered(cfg, registrations) && bundle.bundleType in cfg.priorityOf
      modifies this`conflationUnits, readyQueue,
               if bundle.hub in conflationUnits then conflationUnits[bundle.hub].Repr else {}
      ensures Valid()
      ensures View() == Deliver(cfg, old(View()), bundle, token)
      ensures Delivered(cfg, old(View()), View(), bundle, token)
      ensures bundle.hub in conflationUnits
      ensures readyQueue.queue == old(readyQueue.queue) +
                (if View()[bundle.hub].inReadyQueue && !UnitOf(cfg, old(View()), bundle.hub).inReadyQueue
                 then [conflationUnits[bundle.hub]] else [])
    {
      hide ConflationUnit.Valid, ConflationUnit.View, Registered, WellFormed, Conflation.Insert, NewUnit, UnitInv, Delivered;
      ViewsKeepInv(bundle.hub);
      DeliverReaches(cfg, View(), bundle, token);
      var cu := GetConflationUnit(bundle.hub);
      InsertInto(cu, bundle, token);
    }

    method InsertInto(cu: ConflationUnit, bundle: Bundle, token: int)
      requires Valid() && bundle.bundleType in cfg.priorityOf
      requires bundle.hub in conflationUnits && conflationUnits[bundle.hub] == cu
      modifies readyQueue, cu.Repr
      ensures Valid()
      ensures View() == old(View())[bundle.hub := Conflation.Insert(cfg, old(View())[bundle.hub], bundle, token)]
      ensures readyQueue.queue == old(readyQueue.queue) +
                (if View()[bundle.hub].inReadyQueue && !old(View())[bundle.hub].inReadyQueue then [cu] else [])
    {
      hide ConflationUnit.Valid, ConflationUnit.View, WellFormed, Conflation.Insert;
      ghost var views := View();
      cu.Insert(bundle, token);
      forall h | h in conflationUnits && h != bundle.hub
        ensures conflationUnits[h].Repr == old(conflationUnits[h].Repr)
        ensures conflationUnits[h].Repr !! cu.Repr
        ensures conflationUnits[h].Valid() && conflationUnits[h].View() == views[h]
      {
        assert conflationUnits[h] in old(conflationUnits[h].Repr);
        assert old(conflationUnits[h].Repr !! cu.Repr);
      }
      assert View() == views[bundle.hub := cu.View()];
    }
  }
}
