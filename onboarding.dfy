/** The first-visit tour (`onboarding.mjs`): a three-step modal whose current
    step is clamped to 0..2, and a "tutorial seen" flag kept under the
    storage key "wwl". JSON values are reduced to what the script looks at:
    the truthiness of `settings` and of `tutorialSeen`, with every other
    field carried along unread. */
module Onboarding {
  import opened Wrappers

  const StorageKey := "wwl"
  const LastStep := 2

  /** The `settings` object: the truthiness of `tutorialSeen` (false when the
      field is missing) and the other fields, kept as their JSON text. */
  datatype Settings = Settings(tutorialSeen: bool, others: map<string, string>)

  /** The stored state object: `settings` (`None` when missing or falsy) and
      its other fields. */
  datatype State = State(settings: Option<Settings>, others: map<string, string>)

  /** What `localStorage.getItem("wwl")` holds, as `JSON.parse` sees it. */
  datatype Stored =
    | Missing
    | Unparsable
    | Falsy           // `null`, `false`, `0` or `""`
    | Object(state: State)

  const DefaultState := State(Some(Settings(false, map[])), map[])

  /** `getState`: the parsed object, or `{ settings: { tutorialSeen: false } }`
      when the value is missing, falsy or does not parse. */
  function GetState(stored: Stored): (s: State)
    ensures !stored.Object? ==> s == DefaultState
    ensures stored.Object? ==> s == stored.state
  {
    match stored
    case Object(st) => st
    case _ => DefaultState
  }

  /** `s.settings?.tutorialSeen` is truthy. */
  predicate Seen(s: State)
  {
    s.settings.Some? && s.settings.value.tutorialSeen
  }

  /** The change `close` makes: `settings` created when absent, and
      `tutorialSeen` set to true. */
  function MarkSeen(s: State): State
  {
    var settings := if s.settings.Some? then s.settings.value else Settings(false, map[]);
    State(Some(settings.(tutorialSeen := true)), s.others)
  }

  /** Marking leaves every other field, of the state and of its settings, as it was. */
  lemma MarkSeenKeepsOthers(s: State)
    ensures Seen(MarkSeen(s))
    ensures MarkSeen(s).others == s.others
    ensures s.settings.Some? ==> MarkSeen(s).settings.value.others == s.settings.value.others
    ensures s.settings.None? ==> MarkSeen(s).settings.value.others == map[]
  {
  }

  /** Marking twice is marking once. */
  lemma MarkSeenIdempotent(s: State)
    ensures MarkSeen(MarkSeen(s)) == MarkSeen(s)
  {
  }

  /** A fresh visitor has not seen the tour. */
  lemma FirstVisitUnseen(stored: Stored)
    requires !stored.Object?
    ensures !Seen(GetState(stored))
  {
  }

  /** `Math.max(0, Math.min(2, i))`. */
  function Clamp(i: int): (r: int)
    ensures 0 <= r <= LastStep
    ensures 0 <= i <= LastStep ==> r == i
    ensures i < 0 ==> r == 0
    ensures i > LastStep ==> r == LastStep
  {
    if i < 0 then 0 else if i > LastStep then LastStep else i
  }

  /** The overlay and the modal (each may be missing from the page), the
      current step and local storage's "wwl" slot. */
  class Tour {
    const hasOverlay: bool
    const hasModal: bool
    var overlayHidden: bool
    var modalHidden: bool
    var step: int
    var stored: Stored

    predicate Valid()
      reads this
    {
      0 <= step <= LastStep
    }

    /** The page at load, before `init` runs: `step` is 0. */
    constructor (hasOverlay: bool, hasModal: bool, overlayHidden: bool, modalHidden: bool, stored: Stored)
      ensures Valid()
      ensures this.hasOverlay == hasOverlay && this.hasModal == hasModal
      ensures this.overlayHidden == overlayHidden && this.modalHidden == modalHidden
      ensures step == 0 && this.stored == stored
    {
      this.hasOverlay, this.hasModal := hasOverlay, hasModal;
      this.overlayHidden, this.modalHidden := overlayHidden, modalHidden;
      step := 0;
      this.stored := stored;
    }

    /** `highlightStep(i)`: the step becomes `i` clamped to 0..2. */
    method HighlightStep(i: int)
      modifies this
      ensures Valid()
      ensures step == Clamp(i)
      ensures overlayHidden == old(overlayHidden) && modalHidden == old(modalHidden) && stored == old(stored)
    {
      var upper := if i < LastStep then i else LastStep;
      step := if upper > 0 then upper else 0;
    }

    /** The "previous" button: one step back, staying at 0. */
    method Prev()
      requires Valid()
      modifies this
      ensures Valid()
      ensures step == if old(step) == 0 then 0 else old(step) - 1
      ensures overlayHidden == old(overlayHidden) && modalHidden == old(modalHidden) && stored == old(stored)
    {
      HighlightStep(step - 1);
    }

    /** The "next" button: one step forward, staying at 2. */
    method Next()
      requires Valid()
      modifies this
      ensures Valid()
      ensures step == if old(step) == LastStep then LastStep else old(step) + 1
      ensures overlayHidden == old(overlayHidden) && modalHidden == old(modalHidden) && stored == old(stored)
    {
      HighlightStep(step + 1);
    }

    /** `open`: shows whichever of overlay and modal exist, at step 0. */
    method Open()
      modifies this
      ensures Valid() && step == 0
      ensures overlayHidden == (old(overlayHidden) && !hasOverlay)
      ensures modalHidden == (old(modalHidden) && !hasModal)
      ensures stored == old(stored)
    {
      if hasOverlay {
        overlayHidden := false;
      }
      if hasModal {
        modalHidden := false;
      }
      HighlightStep(0);
    }

    /** `close`: hides whichever of overlay and modal exist and writes the
        state back with `tutorialSeen` set; the step is left where it was. */
    method Close()
      modifies this
      ensures overlayHidden == (old(overlayHidden) || hasOverlay)
      ensures modalHidden == (old(modalHidden) || hasModal)
      ensures stored == Object(MarkSeen(GetState(old(stored))))
      ensures step == old(step)
    {
      if hasOverlay {
        overlayHidden := true;
      }
      if hasModal {
        modalHidden := true;
      }
      var s := GetState(stored);
      var settings := if s.settings.Some? then s.settings.value else Settings(false, map[]);
      s := s.(settings := Some(settings.(tutorialSeen := true)));
      stored := Object(s);
    }

    /** `init`, run once at load: the tour opens exactly when the stored
        state does not say it was seen. */
    method Init()
      requires Valid() && step == 0
      modifies this
      ensures Valid() && step == 0
      ensures stored == old(stored)
      ensures !Seen(GetState(stored)) ==>
                (overlayHidden == (old(overlayHidden) && !hasOverlay) && modalHidden == (old(modalHidden) && !hasModal))
      ensures Seen(GetState(stored)) ==> overlayHidden == old(overlayHidden) && modalHidden == old(modalHidden)
    {
      var s := GetState(stored);
      if !(s.settings.Some? && s.settings.value.tutorialSeen) {
        Open();
      }
    }
  }

  /** Once the tour has been closed, the next page load does not open it. */
  lemma ClosedStaysShut(before: Stored)
    ensures Seen(GetState(Object(MarkSeen(GetState(before)))))
  {
  }

  /** Closing and reloading: on the next load, with the same page, `init`
      leaves the overlay and the modal as the page shows them. */
  method CloseThenReload(hasOverlay: bool, hasModal: bool, overlayAtLoad: bool, modalAtLoad: bool, stored: Stored)
    returns (t: Tour)
    ensures t.overlayHidden == overlayAtLoad && t.modalHidden == modalAtLoad
    ensures t.step == 0 && Seen(GetState(t.stored))
  {
    var first := new Tour(hasOverlay, hasModal, overlayAtLoad, modalAtLoad, stored);
    first.Init();
    first.Close();
    t := new Tour(hasOverlay, hasModal, overlayAtLoad, modalAtLoad, first.stored);
    t.Init();
  }
}
