/** The how-it-works page: the step highlighted while scrolling, and the
    FAQ accordion that keeps at most one answer open. */
module HowItWorks {
  import opened Options

  /** What `getBoundingClientRect` gives for a step: its top edge relative
      to the viewport, and its height. */
  datatype Rect = Rect(top: real, height: real)

  /** The window at the moment of the scroll event. */
  datatype Viewport = Viewport(scrollY: real, innerHeight: real)

  /** `window.scrollY + 200`. */
  function ViewportTop(w: Viewport): real
  {
    w.scrollY + 200.0
  }

  function ElementTop(w: Viewport, r: Rect): real
  {
    w.scrollY + r.top
  }

  function Abs(x: real): (r: real)
    ensures r >= 0.0 && (r == x || r == -x)
  {
    if x < 0.0 then -x else x
  }

  /** How far the step's centre is from the viewport's centre. */
  function Distance(w: Viewport, r: Rect): real
  {
    Abs(ElementTop(w, r) + r.height / 2.0 - (w.scrollY + w.innerHeight / 2.0))
  }

  /** The step overlaps the window from 200 pixels below the top of the
      viewport to one viewport height further down. */
  predicate InWindow(w: Viewport, r: Rect)
  {
    ElementTop(w, r) < ViewportTop(w) + w.innerHeight && ElementTop(w, r) + r.height > ViewportTop(w)
  }

  /** Step `i` is a candidate: its element is mounted and in the window. */
  predicate Candidate(w: Viewport, refs: seq<Option<Rect>>, i: int)
  {
    0 <= i < |refs| && refs[i].Some? && InWindow(w, refs[i].value)
  }

  function DistanceAt(w: Viewport, refs: seq<Option<Rect>>, i: int): real
    requires Candidate(w, refs, i)
  {
    Distance(w, refs[i].value)
  }

  /** `updateActiveStep`'s loop: among the mounted steps in the window, the
      one whose centre is nearest the viewport's centre, the first of them
      on a tie, and step 0 when no step qualifies. `minDistance` starts at
      Infinity, written here as `None`. */
  method ActiveStepFor(w: Viewport, refs: seq<Option<Rect>>) returns (activeIndex: nat)
    ensures (forall j :: 0 <= j < |refs| ==> !Candidate(w, refs, j)) ==> activeIndex == 0
    ensures (exists j :: 0 <= j < |refs| && Candidate(w, refs, j)) ==>
              Candidate(w, refs, activeIndex) &&
              (forall j :: Candidate(w, refs, j) ==> DistanceAt(w, refs, activeIndex) <= DistanceAt(w, refs, j)) &&
              (forall j :: 0 <= j < activeIndex && Candidate(w, refs, j) ==>
                 DistanceAt(w, refs, activeIndex) < DistanceAt(w, refs, j))
  {
    activeIndex := 0;
    var minDistance: Option<real> := None;
    var index := 0;
    while index < |refs|
      invariant 0 <= index <= |refs|
      invariant minDistance.None? ==> activeIndex == 0 && forall j :: 0 <= j < index ==> !Candidate(w, refs, j)
      invariant minDistance.Some? ==>
                  activeIndex < index && Candidate(w, refs, activeIndex) &&
                  minDistance.value == DistanceAt(w, refs, activeIndex) &&
                  (forall j :: 0 <= j < index && Candidate(w, refs, j) ==> minDistance.value <= DistanceAt(w, refs, j)) &&
                  (forall j :: 0 <= j < activeIndex && Candidate(w, refs, j) ==> minDistance.value < DistanceAt(w, refs, j))
    {
      var ref := refs[index];
      if ref.Some? {
        var rect := ref.value;
        var elementTop := w.scrollY + rect.top;
        var elementCenter := elementTop + rect.height / 2.0;
        var distance := Abs(elementCenter - (w.scrollY + w.innerHeight / 2.0));
        if elementTop < ViewportTop(w) + w.innerHeight && elementTop + rect.height > ViewportTop(w) &&
           (minDistance.None? || distance < minDistance.value) {
          minDistance := Some(distance);
          activeIndex := index;
        }
      }
      index := index + 1;
    }
    if exists j :: 0 <= j < |refs| && Candidate(w, refs, j) {
      assert minDistance.Some?;
    }
  }

  /** The page's state: the highlighted step. */
  class HowItWorksPage {
    var activeStep: nat

    constructor()
      ensures activeStep == 0
    {
      activeStep := 0;
    }

    /** The scroll listener: the highlighted step becomes the one chosen. */
    method UpdateActiveStep(w: Viewport, refs: seq<Option<Rect>>)
      modifies this
      ensures (forall j :: 0 <= j < |refs| ==> !Candidate(w, refs, j)) ==> activeStep == 0
      ensures (exists j :: 0 <= j < |refs| && Candidate(w, refs, j)) ==>
                Candidate(w, refs, activeStep) &&
                (forall j :: Candidate(w, refs, j) ==> DistanceAt(w, refs, activeStep) <= DistanceAt(w, refs, j)) &&
                (forall j :: 0 <= j < activeStep && Candidate(w, refs, j) ==>
                   DistanceAt(w, refs, activeStep) < DistanceAt(w, refs, j))
    {
      var activeIndex := ActiveStepFor(w, refs);
      activeStep := activeIndex;
    }
  }

  /** `toggleItem(index)`: the item closes if it was the open one,
      otherwise it opens (closing any other). */
  function Toggle(openIndex: Option<nat>, index: nat): (r: Option<nat>)
    ensures r == Some(index) <==> openIndex != Some(index)
    ensures r.None? <==> openIndex == Some(index)
  {
    if openIndex == Some(index) then None else Some(index)
  }

  /** Toggling the same item twice restores the state when it started
      closed with nothing open, or open. */
  lemma ToggleTwice(openIndex: Option<nat>, index: nat)
    requires openIndex == None || openIndex == Some(index)
    ensures Toggle(Toggle(openIndex, index), index) == openIndex
  {
  }

  /** From another open item, toggling twice leaves every item closed. */
  lemma ToggleTwiceFromOther(openIndex: Option<nat>, index: nat)
    requires openIndex.Some? && openIndex.value != index
    ensures Toggle(Toggle(openIndex, index), index) == None
  {
  }

  /** The accordion's state: the index of the open answer, if any, so at
      most one is open. */
  class FaqAccordion {
    var openIndex: Option<nat>

    constructor()
      ensures openIndex == None
    {
      openIndex := None;
    }

    predicate IsOpen(i: nat)
      reads this
    {
      openIndex == Some(i)
    }

    method ToggleItem(index: nat)
      modifies this
      ensures openIndex == Toggle(old(openIndex), index)
      ensures forall i: nat :: IsOpen(i) ==> i == index && !old(IsOpen(index))
    {
      openIndex := if openIndex == Some(index) then None else Some(index);
    }
  }
}
