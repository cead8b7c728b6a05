/**
 The conflation of one leaf hub's bundles, on values: what insert, GetNext and
 ReportResult do to a unit. The classes in ConflationUnit.dfy are proved to do exactly this.
 */
module Conflation {
  import opened Bundles

  datatype Registration = Registration(priority: nat, bundleType: string, dependency: Option<string>)

  datatype Slot = Slot(bundleType: string, dependency: Option<string>)

  /** What never changes in a unit: the types in priority order and the index from type to priority. */
  datatype Config = Config(slots: seq<Slot>, priorityOf: map<string, nat>)

  datatype Metadata = Metadata(bundleType: string, generation: nat, token: int)

  datatype Element = Element(bundle: Option<Bundle>, metadata: Option<Metadata>, inProcess: bool, lastProcessed: nat)

  datatype Unit = Unit(elements: seq<Element>, inReadyQueue: bool)

  /** What GetNext hands to the dispatcher. */
  datatype Fetched = Fetched(bundle: Bundle, metadata: Metadata)

  // ---------------------------------------------------------------- registrations

  /** The type index and the priority queue are inverse to each other, and dependencies are registered. */
  ghost predicate Indexed(cfg: Config) {
    && (forall i {:trigger cfg.slots[i].bundleType} | 0 <= i < |cfg.slots| ::
          cfg.slots[i].bundleType in cfg.priorityOf && cfg.priorityOf[cfg.slots[i].bundleType] == i)
    && (forall t | t in cfg.priorityOf ::
          cfg.priorityOf[t] < |cfg.slots| && cfg.slots[cfg.priorityOf[t]].bundleType == t)
    && (forall i {:trigger cfg.slots[i].dependency} | 0 <= i < |cfg.slots| && cfg.slots[i].dependency.Some? ::
          cfg.slots[i].dependency.value in cfg.priorityOf)
  }

  ghost predicate IsRank(cfg: Config, rank: seq<nat>)
    requires Indexed(cfg)
  {
    && |rank| == |cfg.slots|
    && forall i {:trigger cfg.slots[i].dependency} | 0 <= i < |cfg.slots| && cfg.slots[i].dependency.Some? ::
         rank[cfg.priorityOf[cfg.slots[i].dependency.value]] < rank[i]
  }

  /** Dependencies are organized in chains: no type depends on itself, directly or not. */
  ghost predicate WellFormed(cfg: Config) {
    Indexed(cfg) && exists rank :: IsRank(cfg, rank)
  }

  ghost function Rank(cfg: Config): (rank: seq<nat>)
    requires WellFormed(cfg)
    ensures IsRank(cfg, rank)
  {
    var rank :| IsRank(cfg, rank); rank
  }

  function DependencyOf(cfg: Config, p: nat): Option<nat>
    requires Indexed(cfg) && p < |cfg.slots|
  {
    match cfg.slots[p].dependency
    case None => None
    case Some(t) => Some(cfg.priorityOf[t])
  }

  // ---------------------------------------------------------------- readiness

  predicate AnyInProcess(els: seq<Element>) {
    exists i | 0 <= i < |els| :: els[i].inProcess
  }

  /** Element p, or an element down its dependency chain, is in process. */
  predicate ChainInProcess(cfg: Config, els: seq<Element>, p: nat)
    requires WellFormed(cfg) && |els| == |cfg.slots| && p < |els|
    decreases Rank(cfg)[p]
  {
    els[p].inProcess ||
    match DependencyOf(cfg, p)
    case None => false
    case Some(d) => ChainInProcess(cfg, els, d)
  }

  /** The generation bundle b needs of the type at priority p's dependency was already processed. */
  predicate DependencyMet(cfg: Config, els: seq<Element>, p: nat, b: Bundle)
    requires WellFormed(cfg) && |els| == |cfg.slots| && p < |els|
  {
    match DependencyOf(cfg, p)
    case None => true
    case Some(d) => b.dependencyGeneration.Some? && b.dependencyGeneration.value <= els[d].lastProcessed
  }

  predicate Ready(cfg: Config, els: seq<Element>, p: nat)
    requires WellFormed(cfg) && |els| == |cfg.slots| && p < |els|
  {
    && els[p].bundle.Some?
    && !ChainInProcess(cfg, els, p)
    && DependencyMet(cfg, els, p, els[p].bundle.value)
  }

  /** The lowest ready priority at or above `from`. */
  function FirstReady(cfg: Config, els: seq<Element>, from: nat): (p: Option<nat>)
    requires WellFormed(cfg) && |els| == |cfg.slots| && from <= |els|
    ensures p.Some? ==> from <= p.value < |els| && Ready(cfg, els, p.value)
    ensures forall q | from <= q < (if p.Some? then p.value else |els|) :: !Ready(cfg, els, q)
    decreases |els| - from
  {
    if from == |els| then None
    else if Ready(cfg, els, from) then Some(from)
    else FirstReady(cfg, els, from + 1)
  }

  // ---------------------------------------------------------------- operations

  function NewUnit(cfg: Config): Unit {
    Unit(seq(|cfg.slots|, i => Element(None, None, false, 0)), false)
  }

  /** A unit is announced at most once: never while it is queued or has a bundle in process. */
  function AddToReadyQueueIfNeeded(cfg: Config, u: Unit): Unit
    requires WellFormed(cfg) && |u.elements| == |cfg.slots|
  {
    if u.inReadyQueue || AnyInProcess(u.elements) then u
    else if FirstReady(cfg, u.elements, 0).Some? then u.(inReadyQueue := true)
    else u
  }

  predicate Accepts(e: Element, b: Bundle) {
    e.lastProcessed < b.generation && (e.bundle.Some? ==> e.bundle.value.generation < b.generation)
  }

  function Insert(cfg: Config, u: Unit, b: Bundle, token: int): Unit
    requires WellFormed(cfg) && |u.elements| == |cfg.slots| && b.bundleType in cfg.priorityOf
  {
    var p := cfg.priorityOf[b.bundleType];
    if !Accepts(u.elements[p], b) then u
    else AddToReadyQueueIfNeeded(cfg, Store(u, p, b, token))
  }

  function Store(u: Unit, p: nat, b: Bundle, token: int): Unit
    requires p < |u.elements|
  {
    u.(elements := u.elements[p := u.elements[p].(
      bundle := Some(b), metadata := Some(Metadata(b.bundleType, b.generation, token)))])
  }

  /** None is errNoReadyBundle; the unit is then left exactly as it was. */
  function GetNext(cfg: Config, u: Unit): (Unit, Option<Fetched>)
    requires WellFormed(cfg) && Consistent(cfg, u)
  {
    match FirstReady(cfg, u.elements, 0)
    case None => (u, None)
    case Some(p) =>
      var e := u.elements[p];
      (Unit(u.elements[p := e.(inProcess := true)], false), Some(Fetched(e.bundle.value, e.metadata.value)))
  }

  function Settle(e: Element, m: Metadata, ok: bool): Element
    requires ok ==> e.bundle.Some?
  {
    var idle := e.(inProcess := false);
    if !ok then idle
    else
      var seen := idle.(lastProcessed := Max(idle.lastProcessed, m.generation));
      if m.generation == e.bundle.value.generation then seen.(bundle := None, metadata := None) else seen
  }

  function Report(cfg: Config, u: Unit, m: Metadata, ok: bool): Unit
    requires WellFormed(cfg) && |u.elements| == |cfg.slots| && m.bundleType in cfg.priorityOf
    requires ok ==> u.elements[cfg.priorityOf[m.bundleType]].bundle.Some?
  {
    var p := cfg.priorityOf[m.bundleType];
    AddToReadyQueueIfNeeded(cfg, u.(elements := u.elements[p := Settle(u.elements[p], m, ok)]))
  }

  function UnitOf(cfg: Config, units: map<string, Unit>, hub: string): Unit {
    if hub in units then units[hub] else NewUnit(cfg)
  }

  /** A bundle goes to its leaf hub's unit, which is created on the first bundle of the hub. */
  function Deliver(cfg: Config, units: map<string, Unit>, b: Bundle, token: int): map<string, Unit>
    requires WellFormed(cfg) && b.bundleType in cfg.priorityOf
    requires forall h | h in units :: |units[h].elements| == |cfg.slots|
  {
    units[b.hub := Insert(cfg, UnitOf(cfg, units, b.hub), b, token)]
  }

  // ---------------------------------------------------------------- invariants

  ghost predicate ElementOk(slot: Slot, e: Element) {
    && (e.bundle.Some? <==> e.metadata.Some?)
    && (e.inProcess ==> e.bundle.Some?)
    && (e.bundle.Some? ==>
          && e.bundle.value.bundleType == e.metadata.value.bundleType == slot.bundleType
          && e.bundle.value.generation == e.metadata.value.generation
          && e.lastProcessed < e.bundle.value.generation)
  }

  ghost predicate Consistent(cfg: Config, u: Unit) {
    && |u.elements| == |cfg.slots|
    && forall i | 0 <= i < |u.elements| :: ElementOk(cfg.slots[i], u.elements[i])
  }

  ghost predicate SingleFlight(els: seq<Element>) {
    forall i, j | 0 <= i < |els| && 0 <= j < |els| && els[i].inProcess && els[j].inProcess :: i == j
  }

  /**
   What every operation keeps, whatever arrives: at most one bundle of the unit is in process,
   never while the unit is queued, and a unit that is neither queued nor in process has nothing ready.
   */
  ghost predicate UnitInv(cfg: Config, u: Unit) {
    && WellFormed(cfg)
    && Consistent(cfg, u)
    && SingleFlight(u.elements)
    && (u.inReadyQueue ==> !AnyInProcess(u.elements))
    && (!u.inReadyQueue && !AnyInProcess(u.elements) ==> FirstReady(cfg, u.elements, 0).None?)
  }

  /** The newest generation of an element the unit knows of, processed or pending. */
  function Known(e: Element): nat {
    if e.bundle.Some? then Max(e.lastProcessed, e.bundle.value.generation) else e.lastProcessed
  }

  /** Causal delivery: what a dependant bundle needs has arrived before it. */
  predicate Causal(cfg: Config, els: seq<Element>, b: Bundle)
    requires WellFormed(cfg) && |els| == |cfg.slots| && b.bundleType in cfg.priorityOf
  {
    match DependencyOf(cfg, cfg.priorityOf[b.bundleType])
    case None => true
    case Some(d) => b.dependencyGeneration.Some? && b.dependencyGeneration.value <= Known(els[d])
  }

  ghost predicate CausallyClosed(cfg: Config, els: seq<Element>)
    requires WellFormed(cfg) && |els| == |cfg.slots|
  {
    forall p | 0 <= p < |els| && els[p].bundle.Some? ::
      els[p].bundle.value.bundleType in cfg.priorityOf && Causal(cfg, els, els[p].bundle.value)
  }

  predicate AnyPending(els: seq<Element>) {
    exists i | 0 <= i < |els| :: els[i].bundle.Some?
  }

  /** f is in the hands of a worker (or on its way there) and not reported yet. */
  ghost predicate InFlight(cfg: Config, u: Unit, f: Fetched)
    requires WellFormed(cfg) && |u.elements| == |cfg.slots|
  {
    && f.bundle.bundleType == f.metadata.bundleType
    && f.bundle.generation == f.metadata.generation
    && f.metadata.bundleType in cfg.priorityOf
    && var p := cfg.priorityOf[f.metadata.bundleType];
       var e := u.elements[p];
    && e.inProcess
    && e.bundle.Some?
    && e.lastProcessed < f.metadata.generation <= e.bundle.value.generation
    && (e.bundle.value.generation == f.metadata.generation ==> e.bundle.value == f.bundle)
    && DependencyMet(cfg, u.elements, p, f.bundle)
  }

  /** The invariant together with the one job, if any, that is out for processing. */
  ghost predicate Safe(cfg: Config, u: Unit, job: Option<Fetched>) {
    && UnitInv(cfg, u)
    && (job.None? <==> !AnyInProcess(u.elements))
    && (job.Some? ==> InFlight(cfg, u, job.value))
  }

  // ---------------------------------------------------------------- basic facts

  lemma {:induction false} ChainImpliesAny(cfg: Config, els: seq<Element>, p: nat)
    requires WellFormed(cfg) && |els| == |cfg.slots| && p < |els|
    requires ChainInProcess(cfg, els, p)
    ensures AnyInProcess(els)
    decreases Rank(cfg)[p]
  {
    if !els[p].inProcess {
      ChainImpliesAny(cfg, els, DependencyOf(cfg, p).value);
    }
  }

  /** When nothing is in process, readiness is having a bundle whose dependency generation was processed. */
  lemma IdleReady(cfg: Config, els: seq<Element>, p: nat)
    requires WellFormed(cfg) && |els| == |cfg.slots| && p < |els| && !AnyInProcess(els)
    ensures Ready(cfg, els, p) <==> els[p].bundle.Some? && DependencyMet(cfg, els, p, els[p].bundle.value)
  {
    if ChainInProcess(cfg, els, p) {
      ChainImpliesAny(cfg, els, p);
    }
  }

  lemma AddKeepsInv(cfg: Config, u: Unit)
    requires WellFormed(cfg) && Consistent(cfg, u) && SingleFlight(u.elements)
    requires u.inReadyQueue ==> !AnyInProcess(u.elements)
    ensures UnitInv(cfg, AddToReadyQueueIfNeeded(cfg, u))
    ensures AddToReadyQueueIfNeeded(cfg, u).elements == u.elements
    ensures u.inReadyQueue ==> AddToReadyQueueIfNeeded(cfg, u).inReadyQueue
  {
  }

  lemma NewUnitInv(cfg: Config)
    requires WellFormed(cfg)
    ensures UnitInv(cfg, NewUnit(cfg)) && CausallyClosed(cfg, NewUnit(cfg).elements)
  {
  }

  // ---------------------------------------------------------------- what each operation keeps

  /** Storing a bundle changes nothing but the pending bundle and its metadata at one priority. */
  lemma InsertChanges(cfg: Config, u: Unit, b: Bundle, token: int)
    requires UnitInv(cfg, u) && b.bundleType in cfg.priorityOf
    ensures var v := Insert(cfg, u, b, token);
      && |v.elements| == |u.elements|
      && (forall i | 0 <= i < |u.elements| ::
            && v.elements[i].inProcess == u.elements[i].inProcess
            && v.elements[i].lastProcessed == u.elements[i].lastProcessed
            && (i != cfg.priorityOf[b.bundleType] ==> v.elements[i] == u.elements[i])
            && (u.elements[i].bundle.Some? ==> v.elements[i].bundle.Some?))
      && Known(v.elements[cfg.priorityOf[b.bundleType]]) ==
           Max(Known(u.elements[cfg.priorityOf[b.bundleType]]), b.generation)
  {
  }

  lemma InsertKeepsInv(cfg: Config, u: Unit, b: Bundle, token: int)
    requires UnitInv(cfg, u) && b.bundleType in cfg.priorityOf
    ensures UnitInv(cfg, Insert(cfg, u, b, token))
    ensures u.inReadyQueue ==> Insert(cfg, u, b, token).inReadyQueue
    ensures AnyInProcess(Insert(cfg, u, b, token).elements) <==> AnyInProcess(u.elements)
  {
    var p := cfg.priorityOf[b.bundleType];
    if Accepts(u.elements[p], b) {
      var v := Store(u, p, b, token);
      assert AnyInProcess(v.elements) <==> AnyInProcess(u.elements) by {
        assert forall i | 0 <= i < |u.elements| :: v.elements[i].inProcess == u.elements[i].inProcess;
      }
      AddKeepsInv(cfg, v);
    }
  }

  lemma GetNextKeepsInv(cfg: Config, u: Unit)
    requires UnitInv(cfg, u) && !AnyInProcess(u.elements)
    ensures var (v, f) := GetNext(cfg, u);
      && UnitInv(cfg, v)
      && (f.None? <==> FirstReady(cfg, u.elements, 0).None?)
      && (f.None? ==> v == u)
      && (f.Some? ==> InFlight(cfg, v, f.value) && !v.inReadyQueue && AnyInProcess(v.elements))
  {
    var (v, f) := GetNext(cfg, u);
    if f.Some? {
      var p := FirstReady(cfg, u.elements, 0).value;
      assert v.elements[p].inProcess;
      assert ElementOk(cfg.slots[p], u.elements[p]);
      assert forall i | 0 <= i < |u.elements| && i != p :: v.elements[i] == u.elements[i];
    }
  }

  lemma ReportKeepsInv(cfg: Config, u: Unit, f: Fetched, ok: bool)
    requires UnitInv(cfg, u) && InFlight(cfg, u, f)
    ensures UnitInv(cfg, Report(cfg, u, f.metadata, ok))
    ensures !AnyInProcess(Report(cfg, u, f.metadata, ok).elements)
  {
    var p := cfg.priorityOf[f.metadata.bundleType];
    var v := u.(elements := u.elements[p := Settle(u.elements[p], f.metadata, ok)]);
    assert u.elements[p].inProcess && AnyInProcess(u.elements);
    assert ElementOk(cfg.slots[p], v.elements[p]);
    AddKeepsInv(cfg, v);
  }

  lemma ReportKeepsSafe(cfg: Config, u: Unit, f: Fetched, ok: bool)
    requires Safe(cfg, u, Some(f))
    ensures f.metadata.bundleType in cfg.priorityOf && cfg.priorityOf[f.metadata.bundleType] < |u.elements|
    ensures var p := cfg.priorityOf[f.metadata.bundleType];
      && (ok ==> u.elements[p].bundle.Some?)
      && (forall i | 0 <= i < |u.elements| && u.elements[i].inProcess :: i == p)
      && !u.inReadyQueue
      && Report(cfg, u, f.metadata, ok) ==
           AddToReadyQueueIfNeeded(cfg, u.(elements := u.elements[p := Settle(u.elements[p], f.metadata, ok)]))
    ensures Safe(cfg, Report(cfg, u, f.metadata, ok), None)
  {
    ReportKeepsInv(cfg, u, f, ok);
    assert u.elements[cfg.priorityOf[f.metadata.bundleType]].inProcess;
  }

  // ---------------------------------------------------------------- in-flight stability

  /** Whatever is inserted while a bundle is in process, the job stays reportable. */
  lemma InsertKeepsInFlight(cfg: Config, u: Unit, b: Bundle, token: int, f: Fetched)
    requires UnitInv(cfg, u) && b.bundleType in cfg.priorityOf && InFlight(cfg, u, f)
    ensures InFlight(cfg, Insert(cfg, u, b, token), f)
  {
    InsertChanges(cfg, u, b, token);
  }

  lemma InsertKeepsSafe(cfg: Config, u: Unit, b: Bundle, token: int, job: Option<Fetched>)
    requires Safe(cfg, u, job) && b.bundleType in cfg.priorityOf
    ensures Safe(cfg, Insert(cfg, u, b, token), job)
    ensures cfg.priorityOf[b.bundleType] < |cfg.slots|
    ensures cfg.slots[cfg.priorityOf[b.bundleType]].bundleType == b.bundleType
    ensures ElementOk(cfg.slots[cfg.priorityOf[b.bundleType]], u.elements[cfg.priorityOf[b.bundleType]])
  {
    InsertKeepsInv(cfg, u, b, token);
    if job.Some? {
      InsertKeepsInFlight(cfg, u, b, token, job.value);
    }
  }

  /**
   A successful report clears the element exactly when no newer bundle arrived since GetNext, and always
   moves lastProcessed to the reported generation; a failed one keeps bundle, metadata and lastProcessed.
   */
  lemma ReportOutcome(cfg: Config, u: Unit, f: Fetched, ok: bool)
    requires UnitInv(cfg, u) && InFlight(cfg, u, f)
    ensures var p := cfg.priorityOf[f.metadata.bundleType];
      var e, e' := u.elements[p], Report(cfg, u, f.metadata, ok).elements[p];
      && (ok ==> e'.lastProcessed == f.bundle.generation > e.lastProcessed)
      && (ok ==> (e'.bundle.None? <==> e.bundle.value == f.bundle))
      && (ok && e'.bundle.Some? ==> e'.bundle == e.bundle && f.bundle.generation < e.bundle.value.generation)
      && (!ok ==> e' == e.(inProcess := false))
      && Known(e') == Known(e)
      && forall i | 0 <= i < |u.elements| && i != p :: Report(cfg, u, f.metadata, ok).elements[i] == u.elements[i]
  {
  }

  // ---------------------------------------------------------------- no stuck bundle

  /**
   Under causal delivery, an idle unit that holds any bundle has a ready one: below a pending bundle that is
   not ready, its dependency is pending too, and the chain ends.
   */
  lemma {:induction false} PendingLeadsToReady(cfg: Config, els: seq<Element>, p: nat) returns (q: nat)
    requires WellFormed(cfg) && |els| == |cfg.slots| && p < |els|
    requires !AnyInProcess(els) && CausallyClosed(cfg, els) && els[p].bundle.Some?
    requires forall i | 0 <= i < |els| && els[i].bundle.Some? :: els[i].bundle.value.bundleType == cfg.slots[i].bundleType
    ensures q < |els| && Ready(cfg, els, q)
    decreases Rank(cfg)[p]
  {
    IdleReady(cfg, els, p);
    if Ready(cfg, els, p) {
      return p;
    }
    var d := DependencyOf(cfg, p).value;
    assert Causal(cfg, els, els[p].bundle.value);
    q := PendingLeadsToReady(cfg, els, d);
  }

  lemma NoStuckBundle(cfg: Config, u: Unit)
    requires UnitInv(cfg, u) && CausallyClosed(cfg, u.elements)
    requires !AnyInProcess(u.elements)
    ensures AnyPending(u.elements) <==> FirstReady(cfg, u.elements, 0).Some?
    ensures u.inReadyQueue || !AnyPending(u.elements)
  {
    if AnyPending(u.elements) {
      var p :| 0 <= p < |u.elements| && u.elements[p].bundle.Some?;
      forall i | 0 <= i < |u.elements| && u.elements[i].bundle.Some?
        ensures u.elements[i].bundle.value.bundleType == cfg.slots[i].bundleType
      {
        assert ElementOk(cfg.slots[i], u.elements[i]);
      }
      var q := PendingLeadsToReady(cfg, u.elements, p);
    }
  }

  // ---------------------------------------------------------------- exactly when bundles can get stuck

  /** Causal closure survives an insert exactly when the bundle is refused as old or is causally delivered. */
  lemma CausalInsertExact(cfg: Config, u: Unit, b: Bundle, token: int)
    requires UnitInv(cfg, u) && b.bundleType in cfg.priorityOf && CausallyClosed(cfg, u.elements)
    ensures CausallyClosed(cfg, Insert(cfg, u, b, token).elements) <==>
            !Accepts(u.elements[cfg.priorityOf[b.bundleType]], b) || Causal(cfg, u.elements, b)
  {
    var p := cfg.priorityOf[b.bundleType];
    if Accepts(u.elements[p], b) {
      var v := Store(u, p, b, token);
      assert Insert(cfg, u, b, token).elements == v.elements;
      assert DependencyOf(cfg, p) != Some(p) by { var _ := Rank(cfg); }
      assert Causal(cfg, v.elements, b) <==> Causal(cfg, u.elements, b);
      if Causal(cfg, u.elements, b) {
        forall q | 0 <= q < |v.elements| && v.elements[q].bundle.Some?
          ensures v.elements[q].bundle.value.bundleType in cfg.priorityOf
          ensures Causal(cfg, v.elements, v.elements[q].bundle.value)
        {
          if q != p { assert Causal(cfg, u.elements, u.elements[q].bundle.value); }
        }
      } else {
        assert v.elements[p].bundle == Some(b);
      }
    }
  }

  /**
   The claim beside GetNext, that a queued unit always has a ready bundle, is kept by an insert exactly when the
   new bundle is refused, its dependency generation was already processed, or another priority is ready.
   */
  lemma QueuedStaysReadyExact(cfg: Config, u: Unit, b: Bundle, token: int)
    requires UnitInv(cfg, u) && b.bundleType in cfg.priorityOf
    requires u.inReadyQueue && FirstReady(cfg, u.elements, 0).Some?
    ensures var p := cfg.priorityOf[b.bundleType];
      FirstReady(cfg, Insert(cfg, u, b, token).elements, 0).Some? <==>
        || !Accepts(u.elements[p], b)
        || DependencyMet(cfg, u.elements, p, b)
        || exists q | 0 <= q < |u.elements| && q != p :: Ready(cfg, u.elements, q)
  {
    var p := cfg.priorityOf[b.bundleType];
    if Accepts(u.elements[p], b) {
      var v := Store(u, p, b, token);
      assert Insert(cfg, u, b, token).elements == v.elements;
      assert !AnyInProcess(v.elements) by {
        assert forall i | 0 <= i < |u.elements| :: v.elements[i].inProcess == u.elements[i].inProcess;
      }
      forall q | 0 <= q < |u.elements|
        ensures q != p ==> (Ready(cfg, v.elements, q) <==> Ready(cfg, u.elements, q))
        ensures q == p ==> (Ready(cfg, v.elements, q) <==> DependencyMet(cfg, u.elements, p, b))
      {
        IdleReady(cfg, u.elements, q);
        IdleReady(cfg, v.elements, q);
      }
    }
  }
}
