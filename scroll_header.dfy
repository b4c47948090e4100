/**
 * The scroll listener at the end of he/all.js: it remembers the last
 * accepted offset `lastS`, ignores moves of less than 50px, and toggles the
 * body classes `dw` (scrolled down past 100px) and `up` (scrolled up).
 */
module ScrollHeader {

  /** Moves shorter than this are ignored. */
  const DeadBand: int := 50
  /** `dw` is only set below this offset. */
  const DownThreshold: int := 100

  /** The listener's state: `lastS` and whether the body has `dw` and `up`. */
  datatype ScrollState = ScrollState(lastS: int, dw: bool, up: bool)

  function Abs(x: int): int {
    if x < 0 then -x else x
  }

  /** The listener's effect for one event at offset `curr`. */
  function OnScroll(st: ScrollState, curr: int): (r: ScrollState)
    ensures Abs(curr - st.lastS) < DeadBand ==> r == st
    ensures Abs(curr - st.lastS) >= DeadBand ==>
      && r.lastS == curr
      && (r.dw <==> curr > st.lastS && curr > DownThreshold)
      && (r.up <==> curr < st.lastS)
    ensures Abs(curr - st.lastS) >= DeadBand ==> !(r.dw && r.up)
  {
    if Abs(curr - st.lastS) < DeadBand then st
    else ScrollState(curr, curr > st.lastS && curr > DownThreshold, curr < st.lastS)
  }

  /** The listener's state after a run of scroll events. */
  function Replay(st: ScrollState, offsets: seq<int>): ScrollState {
    if offsets == [] then st
    else OnScroll(Replay(st, offsets[..|offsets| - 1]), offsets[|offsets| - 1])
  }

  /**
   * Starting from the page's state (`lastS = 0`, no class), the header is
   * never marked as both scrolling down and scrolling up, and `dw` is only
   * ever set below the 100px line.
   */
  lemma {:induction false} NeverBothDirections(offsets: seq<int>)
    ensures var st := Replay(ScrollState(0, false, false), offsets);
      && !(st.dw && st.up)
      && (st.dw ==> st.lastS > DownThreshold)
  {
    if offsets != [] {
      NeverBothDirections(offsets[..|offsets| - 1]);
    }
  }

  /**
   * Two accepted offsets are at least 50px apart: the remembered offset
   * only moves in steps of the dead band or more.
   */
  lemma {:induction false} AcceptedStepsApart(st: ScrollState, offsets: seq<int>)
    ensures forall k :: 0 <= k < |offsets| ==>
      var before := Replay(st, offsets[..k]);
      var after := Replay(st, offsets[..k + 1]);
      after.lastS == before.lastS || Abs(after.lastS - before.lastS) >= DeadBand
  {
    forall k | 0 <= k < |offsets|
      ensures var before := Replay(st, offsets[..k]);
              var after := Replay(st, offsets[..k + 1]);
              after.lastS == before.lastS || Abs(after.lastS - before.lastS) >= DeadBand
    {
      assert offsets[..k + 1][..k] == offsets[..k];
    }
  }

  /** The body element as the listener sees it. */
  class ScrollWatcher {
    var lastS: int
    /** Whether the body has the `dw` class. */
    var dw: bool
    /** Whether the body has the `up` class. */
    var up: bool

    function State(): ScrollState
      reads this
    {
      ScrollState(lastS, dw, up)
    }

    ghost predicate Valid()
      reads this
    {
      !(dw && up) && (dw ==> lastS > DownThreshold)
    }

    constructor ()
      ensures State() == ScrollState(0, false, false) && Valid()
    {
      lastS, dw, up := 0, false, false;
    }

    /** The `scroll` listener with `window.pageYOffset == curr`. */
    method HandleScroll(curr: int)
      requires Valid()
      modifies this
      ensures Valid()
      ensures State() == OnScroll(old(State()), curr)
    {
      if Abs(curr - lastS) < DeadBand {
        return;
      }
      dw := curr > lastS && curr > DownThreshold;
      up := curr < lastS;
      lastS := curr;
    }
  }
}
