/**
 What becomes of one hub's pending bundles when nothing new arrives and every handler succeeds:
 the unit drains completely exactly when its pending bundles were causally delivered.
 */
module Drain {
  import opened Bundles
  import opened Conflation

  /** How many generations an element is behind its pending bundle. */
  function Lag(e: Element): nat {
    if e.bundle.Some? then Known(e) - e.lastProcessed else 0
  }

  function Backlog(els: seq<Element>): nat {
    if els == [] then 0 else Lag(els[0]) + Backlog(els[1..])
  }

  lemma {:induction false} BacklogUpdate(els: seq<Element>, p: nat, e: Element)
    requires p < |els|
    ensures Backlog(els[p := e]) == Backlog(els) - Lag(els[p]) + Lag(e)
  {
    if p == 0 {
      assert els[p := e][1..] == els[1..];
    } else {
      assert els[p := e][1..] == els[1..][p - 1 := e];
      BacklogUpdate(els[1..], p - 1, e);
    }
  }

  /** Taking a bundle does not change the backlog; a successful report lowers it, a failed one keeps it. */
  lemma GetNextKeepsBacklog(cfg: Config, u: Unit)
    requires UnitInv(cfg, u)
    ensures Backlog(GetNext(cfg, u).0.elements) == Backlog(u.elements)
  {
    var p := FirstReady(cfg, u.elements, 0);
    if p.Some? {
      BacklogUpdate(u.elements, p.value, u.elements[p.value].(inProcess := true));
    }
  }

  lemma ReportLowersBacklog(cfg: Config, u: Unit, f: Fetched, ok: bool)
    requires UnitInv(cfg, u) && InFlight(cfg, u, f)
    ensures var b := Backlog(Report(cfg, u, f.metadata, ok).elements);
            if ok then b < Backlog(u.elements) else b == Backlog(u.elements)
  {
    var p := cfg.priorityOf[f.metadata.bundleType];
    assert ElementOk(cfg.slots[p], u.elements[p]);
    BacklogUpdate(u.elements, p, Settle(u.elements[p], f.metadata, ok));
  }

  /** One bundle taken and handled. */
  function ProcessOne(cfg: Config, u: Unit): (v: Unit)
    requires UnitInv(cfg, u) && !AnyInProcess(u.elements) && FirstReady(cfg, u.elements, 0).Some?
    ensures UnitInv(cfg, v) && !AnyInProcess(v.elements)
    ensures Backlog(v.elements) < Backlog(u.elements)
  {
    GetNextKeepsInv(cfg, u);
    GetNextKeepsBacklog(cfg, u);
    var (taken, f) := GetNext(cfg, u);
    ReportKeepsInv(cfg, taken, f.value, true);
    ReportLowersBacklog(cfg, taken, f.value, true);
    Report(cfg, taken, f.value.metadata, true)
  }

  /** All ready bundles handled, lowest priority index first, until none is ready. */
  function DrainAll(cfg: Config, u: Unit): (v: Unit)
    requires UnitInv(cfg, u) && !AnyInProcess(u.elements)
    ensures UnitInv(cfg, v) && !AnyInProcess(v.elements) && FirstReady(cfg, v.elements, 0).None?
    decreases Backlog(u.elements)
  {
    if FirstReady(cfg, u.elements, 0).None? then u else DrainAll(cfg, ProcessOne(cfg, u))
  }

  /** Handling bundles forgets no generation, and a unit is causally closed after it exactly when it was before. */
  lemma ProcessOneKeepsKnown(cfg: Config, u: Unit)
    requires UnitInv(cfg, u) && !AnyInProcess(u.elements) && FirstReady(cfg, u.elements, 0).Some?
    ensures forall i | 0 <= i < |u.elements| :: Known(ProcessOne(cfg, u).elements[i]) == Known(u.elements[i])
    ensures CausallyClosed(cfg, ProcessOne(cfg, u).elements) <==> CausallyClosed(cfg, u.elements)
  {
    GetNextKeepsInv(cfg, u);
    var p := FirstReady(cfg, u.elements, 0).value;
    var (taken, f) := GetNext(cfg, u);
    ReportOutcome(cfg, taken, f.value, true);
    var v := ProcessOne(cfg, u);
    assert ElementOk(cfg.slots[p], u.elements[p]);
    assert cfg.priorityOf[f.value.metadata.bundleType] == p;
    assert v.elements[p].bundle.None?;
    assert forall i | 0 <= i < |u.elements| && i != p :: v.elements[i] == u.elements[i];
    assert Causal(cfg, u.elements, u.elements[p].bundle.value);
    assert forall b: Bundle | b.bundleType in cfg.priorityOf :: Causal(cfg, v.elements, b) <==> Causal(cfg, u.elements, b);
    if CausallyClosed(cfg, v.elements) {
      forall q | 0 <= q < |u.elements| && u.elements[q].bundle.Some?
        ensures u.elements[q].bundle.value.bundleType in cfg.priorityOf && Causal(cfg, u.elements, u.elements[q].bundle.value)
      {
        if q != p { assert v.elements[q].bundle.Some?; }
      }
    }
  }

  lemma {:induction false} DrainAllKeepsKnown(cfg: Config, u: Unit)
    requires UnitInv(cfg, u) && !AnyInProcess(u.elements)
    ensures forall i | 0 <= i < |u.elements| :: Known(DrainAll(cfg, u).elements[i]) == Known(u.elements[i])
    ensures CausallyClosed(cfg, DrainAll(cfg, u).elements) <==> CausallyClosed(cfg, u.elements)
    decreases Backlog(u.elements)
  {
    if FirstReady(cfg, u.elements, 0).Some? {
      ProcessOneKeepsKnown(cfg, u);
      DrainAllKeepsKnown(cfg, ProcessOne(cfg, u));
    }
  }

  /**
   Every pending bundle of an idle unit is eventually handled if and only if the pending bundles are causally
   closed; and then each type's last processed generation is the newest one the unit was given.
   */
  lemma DrainsCompletelyIffCausal(cfg: Config, u: Unit)
    requires UnitInv(cfg, u) && !AnyInProcess(u.elements)
    ensures !AnyPending(DrainAll(cfg, u).elements) <==> CausallyClosed(cfg, u.elements)
    ensures CausallyClosed(cfg, u.elements) ==>
              forall i | 0 <= i < |u.elements| :: DrainAll(cfg, u).elements[i].lastProcessed == Known(u.elements[i])
  {
    DrainAllKeepsKnown(cfg, u);
    if CausallyClosed(cfg, u.elements) {
      NoStuckBundle(cfg, DrainAll(cfg, u));
    }
  }
}
