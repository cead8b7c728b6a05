/**
 What a unit's operations promise, said without them: which bundle is kept, which one is handed out, when a unit is
 announced, and what it means to be ready.
 */
module ConflationLaws {
  import opened Bundles
  import opened Conflation

  // ---------------------------------------------------------------- readiness

  /** Priorities of which each depends on the type of the next. */
  ghost predicate IsChain(cfg: Config, path: seq<nat>) {
    && path != []
    && (forall i | 0 <= i < |path| :: path[i] < |cfg.slots|)
    && (forall i | 0 <= i < |path| - 1 :: cfg.slots[path[i]].dependency == Some(cfg.slots[path[i + 1]].bundleType))
  }

  ghost predicate ChainToBusy(cfg: Config, els: seq<Element>, p: nat, path: seq<nat>)
    requires |els| == |cfg.slots|
  {
    IsChain(cfg, path) && path[0] == p && els[path[|path| - 1]].inProcess
  }

  lemma {:induction false} BusyChain(cfg: Config, els: seq<Element>, p: nat) returns (path: seq<nat>)
    requires WellFormed(cfg) && |els| == |cfg.slots| && p < |els| && ChainInProcess(cfg, els, p)
    ensures ChainToBusy(cfg, els, p, path)
    decreases Rank(cfg)[p]
  {
    if els[p].inProcess {
      path := [p];
    } else {
      var rest := BusyChain(cfg, els, DependencyOf(cfg, p).value);
      path := [p] + rest;
      assert forall i | 0 < i < |path| :: path[i] == rest[i - 1];
    }
  }

  lemma {:induction false} BusyAtTheEnd(cfg: Config, els: seq<Element>, p: nat, path: seq<nat>)
    requires WellFormed(cfg) && |els| == |cfg.slots| && p < |els| && ChainToBusy(cfg, els, p, path)
    ensures ChainInProcess(cfg, els, p)
    decreases |path|
  {
    if |path| > 1 {
      var rest := path[1..];
      assert forall i | 0 <= i < |rest| :: rest[i] == path[i + 1];
      assert cfg.slots[p].dependency == Some(cfg.slots[path[1]].bundleType);
      BusyAtTheEnd(cfg, els, path[1], rest);
    }
  }

  /** The generation a bundle depends on was processed: the needed type, named by the registration, is that far. */
  ghost predicate Satisfied(cfg: Config, els: seq<Element>, p: nat, b: Bundle)
    requires |els| == |cfg.slots| && p < |els|
  {
    match cfg.slots[p].dependency
    case None => true
    case Some(t) =>
      b.dependencyGeneration.Some? &&
      exists d :: 0 <= d < |els| && cfg.slots[d].bundleType == t && b.dependencyGeneration.value <= els[d].lastProcessed
  }

  /** A priority is ready if and only if it has a bundle, nothing down its chain is in process, and it is satisfied. */
  lemma ReadyMeans(cfg: Config, els: seq<Element>, p: nat)
    requires WellFormed(cfg) && |els| == |cfg.slots| && p < |els|
    ensures Ready(cfg, els, p) <==>
            && els[p].bundle.Some?
            && (forall path :: !ChainToBusy(cfg, els, p, path))
            && Satisfied(cfg, els, p, els[p].bundle.value)
  {
    hide ChainToBusy;
    if ChainInProcess(cfg, els, p) {
      var path := BusyChain(cfg, els, p);
    }
    forall path | ChainToBusy(cfg, els, p, path) ensures ChainInProcess(cfg, els, p) {
      BusyAtTheEnd(cfg, els, p, path);
    }
  }

  // ---------------------------------------------------------------- insert

  /** A bundle that is not newer than all the unit knows of its type is ignored; a newer one is what is pending. */
  lemma InsertKeepsNewest(cfg: Config, u: Unit, b: Bundle, token: int)
    requires UnitInv(cfg, u) && b.bundleType in cfg.priorityOf
    ensures var p, v := cfg.priorityOf[b.bundleType], Insert(cfg, u, b, token);
      && |v.elements| == |u.elements| && p < |u.elements|
      && (b.generation <= Known(u.elements[p]) ==> v == u)
      && (b.generation > Known(u.elements[p]) ==>
            v.elements[p] == Element(Some(b), Some(Metadata(b.bundleType, b.generation, token)),
                                     u.elements[p].inProcess, u.elements[p].lastProcessed))
      && (forall i | 0 <= i < |u.elements| && i != p :: v.elements[i] == u.elements[i])
  {
    assert ElementOk(cfg.slots[cfg.priorityOf[b.bundleType]], u.elements[cfg.priorityOf[b.bundleType]]);
  }

  ghost predicate SomeReady(cfg: Config, els: seq<Element>)
    requires WellFormed(cfg) && |els| == |cfg.slots|
  {
    exists p: nat :: p < |els| && Ready(cfg, els, p)
  }

  ghost predicate Idle(els: seq<Element>) {
    forall i | 0 <= i < |els| :: !els[i].inProcess
  }

  /** After an insert a unit is flagged if and only if it was before, or it is idle and has a ready bundle. */
  lemma InsertAnnounces(cfg: Config, u: Unit, b: Bundle, token: int)
    requires UnitInv(cfg, u) && b.bundleType in cfg.priorityOf
    ensures var v := Insert(cfg, u, b, token);
      && |v.elements| == |cfg.slots|
      && (v.inReadyQueue <==> u.inReadyQueue || (Idle(v.elements) && SomeReady(cfg, v.elements)))
  {
    InsertKeepsInv(cfg, u, b, token);
    var v := Insert(cfg, u, b, token);
    FirstReadyIsSome(cfg, v.elements);
    FirstReadyIsSome(cfg, u.elements);
  }

  /** After a report a unit is flagged if and only if it has a ready bundle. */
  lemma ReportAnnounces(cfg: Config, u: Unit, f: Fetched, ok: bool)
    requires UnitInv(cfg, u) && InFlight(cfg, u, f)
    ensures var v := Report(cfg, u, f.metadata, ok);
      && |v.elements| == |cfg.slots| && Idle(v.elements)
      && (v.inReadyQueue <==> SomeReady(cfg, v.elements))
  {
    assert u.elements[cfg.priorityOf[f.metadata.bundleType]].inProcess;
    ReportKeepsInv(cfg, u, f, ok);
    FirstReadyIsSome(cfg, Report(cfg, u, f.metadata, ok).elements);
  }

  lemma FirstReadyIsSome(cfg: Config, els: seq<Element>)
    requires WellFormed(cfg) && |els| == |cfg.slots|
    ensures FirstReady(cfg, els, 0).Some? <==> SomeReady(cfg, els)
  {
    var p := FirstReady(cfg, els, 0);
    if p.Some? { assert Ready(cfg, els, p.value); }
  }

  // ---------------------------------------------------------------- GetNext

  /**
   What is handed out is the bundle and the metadata, token included, stored at the lowest ready priority. That element
   is marked in process, the flag goes down, and nothing else changes.
   */
  lemma GetNextTakesLowest(cfg: Config, u: Unit)
    requires UnitInv(cfg, u)
    ensures var (v, next) := GetNext(cfg, u);
      && (next.None? <==> !SomeReady(cfg, u.elements))
      && (next.None? ==> v == u)
      && (next.Some? ==>
            && next.value.metadata.bundleType in cfg.priorityOf
            && var p := cfg.priorityOf[next.value.metadata.bundleType];
               && p < |u.elements| && Ready(cfg, u.elements, p)
               && (forall q: nat | q < p :: !Ready(cfg, u.elements, q))
               && u.elements[p].bundle == Some(next.value.bundle)
               && u.elements[p].metadata == Some(next.value.metadata)
               && v == Unit(u.elements[p := u.elements[p].(inProcess := true)], false))
  {
    hide Ready;
    FirstReadyIsSome(cfg, u.elements);
    var p := FirstReady(cfg, u.elements, 0);
    if p.Some? {
      ReadyOneHasBundle(cfg, u.elements, p.value);
      assert ElementOk(cfg.slots[p.value], u.elements[p.value]);
    }
  }

  lemma ReadyOneHasBundle(cfg: Config, els: seq<Element>, p: nat)
    requires WellFormed(cfg) && |els| == |cfg.slots| && p < |els| && Ready(cfg, els, p)
    ensures els[p].bundle.Some?
  {
  }

  // ---------------------------------------------------------------- the manager

  /** What a unit knows of a type; nothing before the hub's first bundle. */
  function KnownOf(cfg: Config, units: map<string, Unit>, hub: string, p: nat): nat
    requires hub in units ==> p < |units[hub].elements|
  {
    if hub in units then Known(units[hub].elements[p]) else 0
  }

  /** The bundle reaches its own hub's unit, the first one too, and no other unit. */
  ghost predicate Delivered(cfg: Config, units: map<string, Unit>, units': map<string, Unit>, b: Bundle, token: int) {
    && units'.Keys == units.Keys + {b.hub}
    && (forall h | h in units && h != b.hub :: units'[h] == units[h])
    && b.bundleType in cfg.priorityOf
    && var p := cfg.priorityOf[b.bundleType];
       && p < |units'[b.hub].elements| && (b.hub in units ==> p < |units[b.hub].elements|)
       && KnownOf(cfg, units', b.hub, p) == Max(KnownOf(cfg, units, b.hub, p), b.generation)
       && (b.generation > KnownOf(cfg, units, b.hub, p) ==>
             && units'[b.hub].elements[p].bundle == Some(b)
             && units'[b.hub].elements[p].metadata == Some(Metadata(b.bundleType, b.generation, token)))
  }

  lemma DeliverReaches(cfg: Config, units: map<string, Unit>, b: Bundle, token: int)
    requires WellFormed(cfg) && b.bundleType in cfg.priorityOf
    requires forall h | h in units :: |units[h].elements| == |cfg.slots|
    requires UnitInv(cfg, UnitOf(cfg, units, b.hub))
    ensures Delivered(cfg, units, Deliver(cfg, units, b, token), b, token)
  {
    hide Insert, UnitInv;
    InsertKeepsNewest(cfg, UnitOf(cfg, units, b.hub), b, token);
    KnownAfter(cfg, UnitOf(cfg, units, b.hub), b, token);
  }

  lemma KnownAfter(cfg: Config, u: Unit, b: Bundle, token: int)
    requires UnitInv(cfg, u) && b.bundleType in cfg.priorityOf
    ensures cfg.priorityOf[b.bundleType] < |u.elements| == |Insert(cfg, u, b, token).elements|
    ensures Known(Insert(cfg, u, b, token).elements[cfg.priorityOf[b.bundleType]]) ==
            Max(Known(u.elements[cfg.priorityOf[b.bundleType]]), b.generation)
  {
    InsertChanges(cfg, u, b, token);
  }
}
