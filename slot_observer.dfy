/**
 * The IntersectionObserver of he/all.js that starts the multi-source
 * slots: every `.recent-wp-multi` / `.recent-blg-multi` element is observed;
 * the first time it intersects it gets the skeleton, its loader is
 * dispatched, and it is unobserved. A Blogger slot without `data-sources`
 * throws inside the callback: the rest of that batch is skipped and the
 * slot stays observed.
 */
module SlotObserver {
  import opened Wrappers
  import opened Posts

  /** `el.dataset.type`, set at initialisation from the element's class. */
  datatype Kind = WpMulti | BlgMulti

  /** An observed slot element: its kind and its `data-sources` attribute. */
  datatype Slot = Slot(kind: Kind, sourcesAttr: Option<string>)

  /** One IntersectionObserverEntry: the slot index of its target and `isIntersecting`. */
  datatype ObsEntry = ObsEntry(target: nat, isIntersecting: bool)

  /**
   * What the observer has done so far: the observed slots, the content it
   * put into slots (the skeleton), and the slots whose loader it called,
   * in order.
   */
  datatype ObsState = ObsState(observed: set<nat>, views: map<nat, View>, loads: seq<nat>)

  /** `loadMultiBlg` throws at once on a slot without `data-sources`. */
  predicate LoaderThrows(s: Slot) {
    s.kind == BlgMulti && s.sourcesAttr.None?
  }

  /**
   * The callback body for one entry. The boolean is true when the loader
   * threw, which ends the `forEach`. (`loadMultiWP` is async: a missing
   * attribute rejects its promise instead of throwing.)
   */
  function Step(slots: seq<Slot>, st: ObsState, e: ObsEntry, innerWidth: int): (ObsState, bool)
    requires e.target < |slots|
  {
    if !e.isIntersecting then (st, false)
    else
      var shown := st.(views := st.views[e.target := RenderSkeleton(innerWidth)], loads := st.loads + [e.target]);
      if LoaderThrows(slots[e.target]) then (shown, true)
      else (shown.(observed := shown.observed - {e.target}), false)
  }

  /** The callback over a batch: the entries in order, stopping at the first throw. */
  function Run(slots: seq<Slot>, st: ObsState, entries: seq<ObsEntry>, innerWidth: int): (ObsState, bool)
    requires forall k :: 0 <= k < |entries| ==> entries[k].target < |slots|
  {
    if entries == [] then (st, false)
    else
      var n := |entries| - 1;
      var (before, threw) := Run(slots, st, entries[..n], innerWidth);
      if threw then (before, true) else Step(slots, before, entries[n], innerWidth)
  }

  /**
   * Once-per-slot: a slot whose loader ran normally is no longer observed,
   * and only a slot whose loader throws can have been loaded twice.
   */
  ghost predicate LoadedOnce(slots: seq<Slot>, st: ObsState) {
    && (forall k :: 0 <= k < |st.loads| ==> st.loads[k] < |slots|)
    && (forall k :: 0 <= k < |st.loads| && !LoaderThrows(slots[st.loads[k]]) ==> st.loads[k] !in st.observed)
    && (forall k, l :: 0 <= k < l < |st.loads| && st.loads[k] == st.loads[l] ==> LoaderThrows(slots[st.loads[k]]))
  }

  /** The browser delivers a batch of entries for distinct, currently observed targets. */
  predicate Deliverable(slots: seq<Slot>, observed: set<nat>, entries: seq<ObsEntry>) {
    && (forall k :: 0 <= k < |entries| ==> entries[k].target < |slots| && entries[k].target in observed)
    && (forall k, l :: 0 <= k < l < |entries| ==> entries[k].target != entries[l].target)
  }

  /** A batch keeps the once-per-slot rule, and every target it has not reached yet is still observed. */
  lemma {:induction false} RunLoadsOnce(slots: seq<Slot>, st: ObsState, entries: seq<ObsEntry>, innerWidth: int)
    requires LoadedOnce(slots, st) && Deliverable(slots, st.observed, entries)
    ensures LoadedOnce(slots, Run(slots, st, entries, innerWidth).0)
    ensures forall t :: t in st.observed && (forall k :: 0 <= k < |entries| ==> entries[k].target != t)
                        ==> t in Run(slots, st, entries, innerWidth).0.observed
  {
    if entries != [] {
      var n := |entries| - 1;
      assert Deliverable(slots, st.observed, entries[..n]);
      RunLoadsOnce(slots, st, entries[..n], innerWidth);
      var (before, threw) := Run(slots, st, entries[..n], innerWidth);
      if !threw {
        var e := entries[n];
        assert forall k :: 0 <= k < n ==> entries[..n][k].target != e.target;
        assert e.target in before.observed;
      }
    }
  }

  /** An entry that is not intersecting changes nothing; an intersecting one shows the skeleton. */
  lemma StepEffect(slots: seq<Slot>, st: ObsState, e: ObsEntry, innerWidth: int)
    requires e.target < |slots|
    ensures !e.isIntersecting ==> Step(slots, st, e, innerWidth) == (st, false)
    ensures e.isIntersecting ==>
      var (after, threw) := Step(slots, st, e, innerWidth);
      && after.views[e.target] == Skeleton(if innerWidth >= 768 then 4 else 2)
      && after.loads == st.loads + [e.target]
      && (threw <==> LoaderThrows(slots[e.target]))
      && (after.observed == if threw then st.observed else st.observed - {e.target})
  {
  }

  /** After a throw the rest of the batch is skipped. */
  lemma {:induction false} RunStopsAtThrow(slots: seq<Slot>, st: ObsState, entries: seq<ObsEntry>, i: nat, innerWidth: int)
    requires forall k :: 0 <= k < |entries| ==> entries[k].target < |slots|
    requires i <= |entries| && Run(slots, st, entries[..i], innerWidth).1
    ensures Run(slots, st, entries, innerWidth) == Run(slots, st, entries[..i], innerWidth)
  {
    if i < |entries| {
      var n := |entries| - 1;
      assert entries[..n][..i] == entries[..i];
      RunStopsAtThrow(slots, st, entries[..n], i, innerWidth);
    } else {
      assert entries[..i] == entries;
    }
  }

  /** The slot indices `0 .. n - 1`. */
  function Indices(n: nat): (r: set<nat>)
    ensures forall i: nat :: i in r <==> i < n
  {
    if n == 0 then {} else Indices(n - 1) + {n - 1}
  }

  /** The observer with the slots it was given at initialisation. */
  class Observer {
    const slots: seq<Slot>
    var observed: set<nat>
    var views: map<nat, View>
    var loads: seq<nat>

    function State(): ObsState
      reads this
    {
      ObsState(observed, views, loads)
    }

    /** `DOMContentLoaded`: every slot is observed; nothing is shown or loaded yet. */
    constructor (slots: seq<Slot>)
      ensures this.slots == slots && loads == [] && views == map[]
      ensures observed == Indices(|slots|)
      ensures LoadedOnce(slots, State())
    {
      this.slots := slots;
      observed := Indices(|slots|);
      views := map[];
      loads := [];
    }

    /** The observer callback: `entries.forEach(...)`, ended early by a throw. */
    method OnEntries(entries: seq<ObsEntry>, innerWidth: int) returns (threw: bool)
      requires forall k :: 0 <= k < |entries| ==> entries[k].target < |slots|
      modifies this
      ensures (State(), threw) == Run(slots, old(State()), entries, innerWidth)
    {
      threw := false;
      var i := 0;
      while i < |entries| && !threw
        invariant 0 <= i <= |entries|
        invariant (State(), threw) == Run(slots, old(State()), entries[..i], innerWidth)
      {
        var e := entries[i];
        assert entries[..i + 1][..i] == entries[..i];
        if e.isIntersecting {
          views := views[e.target := RenderSkeleton(innerWidth)];
          loads := loads + [e.target];
          if LoaderThrows(slots[e.target]) {
            threw := true;
          } else {
            observed := observed - {e.target};
          }
        }
        i := i + 1;
      }
      if threw {
        RunStopsAtThrow(slots, old(State()), entries, i, innerWidth);
      } else {
        assert entries[..i] == entries;
      }
    }
  }
}
