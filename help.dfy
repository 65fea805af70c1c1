/**
 * `ContextualHelpManager`: the guided tours (a current tour and step moved
 * by the Next/Previous controls, the arrow keys and Escape), help mode, and
 * the help lookup for a clicked element. Overlays, popups, tooltips,
 * analytics and storage of the preferences are left out; the one
 * preference modelled is whether a tour has been seen.
 */
module Help {
  import opened Wrappers
  import opened Strings
  import opened Seqs

  // ---------------------------------------------------------------------
  // Tours

  datatype Step = Step(target: string, title: string, description: string, position: string)

  datatype Tour = Tour(title: string, description: string, steps: seq<Step>)

  /** The tours `defineTours` registers. */
  const DefinedTours: map<string, Tour> := map[
    "dashboard" := Tour("Dashboard Tour", "Learn how to navigate your dashboard", [
      Step(".sidebar-link[href=\"/dashboard\"]", "Navigation Sidebar",
        "Use the sidebar to navigate between different sections of the system.", "right"),
      Step(".card:first-child", "Statistics Cards",
        "These cards show important metrics and statistics at a glance.", "bottom"),
      Step("[href=\"/colleges/new\"]", "Quick Actions",
        "Use these buttons to quickly add new items to the system.", "left")]),
    "colleges" := Tour("Colleges Management", "Learn how to manage colleges", [
      Step("button[onclick*=\"openModal\"]", "Add New College",
        "Click here to add a new college to the system.", "bottom"),
      Step(".card:first-child", "College Cards",
        "Each card represents a college with its details and actions.", "top")])]

  /** The running tour: `{ ...tour, name }`. */
  datatype ActiveTour = ActiveTour(name: string, tour: Tour)

  /** The tour `startTour` picks without a name: by the page path, the dashboard tour by default. */
  function TourForPath(path: string): string {
    if Contains(path, "dashboard") then "dashboard"
    else if Contains(path, "colleges") then "colleges"
    else "dashboard"
  }

  /** The name `startTour` looks up: the given one unless it is absent or empty. */
  function TourName(tourName: Option<string>, path: string): string {
    if tourName.Some? && tourName.value != "" then tourName.value else TourForPath(path)
  }

  /** Without a name some registered tour always starts; the colleges tour only on a colleges page that is not a dashboard page. */
  lemma TourForPathDefined(path: string)
    ensures TourName(None, path) in DefinedTours
    ensures TourName(None, path) == "colleges" <==> !Contains(path, "dashboard") && Contains(path, "colleges")
  {
  }

  /** The move `nextStep` makes before it shows the step: forward, or the end of the tour after the last step. */
  function NextOf(t: Option<ActiveTour>, step: nat): (Option<ActiveTour>, nat) {
    if t.None? then (t, step)
    else if step < |t.value.tour.steps| - 1 then (t, step + 1)
    else (None, 0)
  }

  /** The move `previousStep` makes: back, but never before the first step. */
  function PreviousOf(t: Option<ActiveTour>, step: nat): (Option<ActiveTour>, nat) {
    if t.Some? && step > 0 then (t, step - 1) else (t, step)
  }

  /** No tour is at step 0; a tour is at one of its steps (or at 0 if it has none). */
  predicate StepInRange(t: Option<ActiveTour>, step: nat) {
    (t.None? ==> step == 0) && (t.Some? ==> step == 0 || step < |t.value.tour.steps|)
  }

  /** How many steps of the running tour are left from `step`; the measure the tour's skips run down. */
  function Remaining(t: Option<ActiveTour>, step: nat): nat {
    if t.Some? && step < |t.value.tour.steps| then |t.value.tour.steps| - step else 0
  }

  /**
   * `showTourStep` on the tour state, given the selectors the page finds
   * (`onPage`): a step whose target is on the page stays; a missing one is
   * passed to `nextStep`, which may end the tour.
   */
  function Show(t: Option<ActiveTour>, step: nat, onPage: set<string>): (Option<ActiveTour>, nat)
    decreases Remaining(t, step)
  {
    if t.None? || step >= |t.value.tour.steps| || t.value.tour.steps[step].target in onPage then (t, step)
    else Show(NextOf(t, step).0, NextOf(t, step).1, onPage)
  }

  /** `nextStep` followed by the `showTourStep` it calls. */
  function NextShown(t: Option<ActiveTour>, step: nat, onPage: set<string>): (Option<ActiveTour>, nat) {
    Show(NextOf(t, step).0, NextOf(t, step).1, onPage)
  }

  /** `previousStep`: one step back and shown; nothing at the first step or without a tour. */
  function PreviousShown(t: Option<ActiveTour>, step: nat, onPage: set<string>): (Option<ActiveTour>, nat) {
    if t.Some? && step > 0 then Show(t, step - 1, onPage) else (t, step)
  }

  /**
   * Showing step `step` lands on the first step from there whose target is on
   * the page, skipping exactly the missing ones, and ends the tour (at step 0)
   * exactly when every later target is missing.
   */
  lemma {:induction false} ShowFindsPresent(t: ActiveTour, step: nat, onPage: set<string>)
    requires step < |t.tour.steps|
    ensures var r := Show(Some(t), step, onPage);
      (r.0.Some? ==>
        r.0 == Some(t) && step <= r.1 < |t.tour.steps| && t.tour.steps[r.1].target in onPage
        && forall k :: step <= k < r.1 ==> t.tour.steps[k].target !in onPage)
      && (r.0.None? <==> forall k :: step <= k < |t.tour.steps| ==> t.tour.steps[k].target !in onPage)
      && (r.0.None? ==> r.1 == 0)
    decreases |t.tour.steps| - step
  {
    if t.tour.steps[step].target !in onPage && step < |t.tour.steps| - 1 {
      ShowFindsPresent(t, step + 1, onPage);
    }
  }

  /** Every step of the running tour has its target on the page. */
  predicate TargetsPresent(t: Option<ActiveTour>, onPage: set<string>) {
    t.Some? ==> forall k :: 0 <= k < |t.value.tour.steps| ==> t.value.tour.steps[k].target in onPage
  }

  /** Showing, Next and Previous keep the step in range, whatever the page holds. */
  lemma NavigationInRange(t: Option<ActiveTour>, step: nat, onPage: set<string>)
    requires StepInRange(t, step)
    ensures StepInRange(Show(t, step, onPage).0, Show(t, step, onPage).1)
    ensures StepInRange(NextShown(t, step, onPage).0, NextShown(t, step, onPage).1)
    ensures StepInRange(PreviousShown(t, step, onPage).0, PreviousShown(t, step, onPage).1)
  {
    if t.Some? && step < |t.value.tour.steps| {
      ShowFindsPresent(t.value, step, onPage);
      if step > 0 {
        ShowFindsPresent(t.value, step - 1, onPage);
      }
    }
    var n := NextOf(t, step);
    if n.0.Some? {
      ShowFindsPresent(n.0.value, n.1, onPage);
    }
  }

  /** When every target is on the page, nothing is skipped: showing stays put, and Next and Previous are plain steps. */
  lemma AllPresentNavigation(t: Option<ActiveTour>, step: nat, onPage: set<string>)
    requires StepInRange(t, step) && TargetsPresent(t, onPage)
    ensures Show(t, step, onPage) == (t, step)
    ensures NextShown(t, step, onPage) == NextOf(t, step)
    ensures PreviousShown(t, step, onPage) == PreviousOf(t, step)
  {
  }

  /** Previous onto a missing target is skipped forward again, so it comes back to a present current step. */
  lemma PreviousBounces(t: ActiveTour, step: nat, onPage: set<string>)
    requires 0 < step < |t.tour.steps|
    requires t.tour.steps[step - 1].target !in onPage && t.tour.steps[step].target in onPage
    ensures PreviousShown(Some(t), step, onPage) == (Some(t), step)
  {
    assert NextOf(Some(t), step - 1) == (Some(t), step);
    assert Show(Some(t), step, onPage) == (Some(t), step);
  }

  /**
   * With every target on the page, Next and Previous keep the step in range
   * and undo each other inside a tour, and Next from the last step ends it.
   */
  lemma TourNavigation(t: Option<ActiveTour>, step: nat, onPage: set<string>)
    requires StepInRange(t, step) && TargetsPresent(t, onPage)
    ensures StepInRange(NextShown(t, step, onPage).0, NextShown(t, step, onPage).1)
    ensures StepInRange(PreviousShown(t, step, onPage).0, PreviousShown(t, step, onPage).1)
    ensures t.Some? && step < |t.value.tour.steps| - 1 ==>
      PreviousShown(NextShown(t, step, onPage).0, NextShown(t, step, onPage).1, onPage) == (t, step)
    ensures t.Some? && step > 0 ==>
      NextShown(PreviousShown(t, step, onPage).0, PreviousShown(t, step, onPage).1, onPage) == (t, step)
    ensures t.Some? && step >= |t.value.tour.steps| - 1 ==> NextShown(t, step, onPage) == (None, 0)
    ensures PreviousShown(t, 0, onPage) == (t, 0)
  {
    NavigationInRange(t, step, onPage);
    AllPresentNavigation(t, step, onPage);
    if t.Some? && step < |t.value.tour.steps| - 1 {
      AllPresentNavigation(t, step + 1, onPage);
    }
    if t.Some? && step > 0 {
      AllPresentNavigation(t, step - 1, onPage);
    }
  }

  /** `k` presses of Next. */
  function NextN(t: Option<ActiveTour>, step: nat, k: nat, onPage: set<string>): (Option<ActiveTour>, nat)
    decreases k
  {
    if k == 0 then (t, step) else NextN(NextShown(t, step, onPage).0, NextShown(t, step, onPage).1, k - 1, onPage)
  }

  /**
   * From step `j`, with every target on the page, Next walks one step at a
   * time and ends the tour on the press after the last step.
   */
  lemma {:induction false} TourWalk(t: ActiveTour, j: nat, k: nat, onPage: set<string>)
    requires j + k <= |t.tour.steps| && j < |t.tour.steps| && TargetsPresent(Some(t), onPage)
    ensures j + k < |t.tour.steps| ==> NextN(Some(t), j, k, onPage) == (Some(t), j + k)
    ensures j + k == |t.tour.steps| ==> NextN(Some(t), j, k, onPage) == (None, 0)
    decreases k
  {
    if k > 0 {
      AllPresentNavigation(Some(t), j, onPage);
      if j + 1 < |t.tour.steps| {
        TourWalk(t, j + 1, k - 1, onPage);
      } else {
        assert NextShown(Some(t), j, onPage) == (None, 0);
        assert NextN(None, 0, k - 1, onPage) == (None, 0) by { NoTourStays(k - 1, onPage); }
      }
    }
  }

  /** Without a tour, Next changes nothing. */
  lemma {:induction false} NoTourStays(k: nat, onPage: set<string>)
    ensures NextN(None, 0, k, onPage) == (None, 0)
    decreases k
  {
    if k > 0 {
      NoTourStays(k - 1, onPage);
    }
  }

  /** What `endTour` reports for a running tour. */
  datatype TourCompletion = TourCompletion(tour: string, completedSteps: nat, totalSteps: nat)

  // ---------------------------------------------------------------------
  // Help lookup

  /** A help entry. */
  datatype HelpEntry = HelpEntry(title: string, description: string)

  /** A clicked element: its tag name, classes, `data-help-content` and `role` attributes. */
  datatype Element = Element(tagName: string, classes: seq<string>, helpAttribute: Option<string>, role: Option<string>)

  function NonEmpty(): string -> bool {
    (s: string) => s != ""
  }

  /** The selectors `getElementHelp` tries, in order: the lower-cased tag, each class, the help attribute; falsy ones dropped. */
  function Selectors(e: Element): seq<string> {
    Filter([Lower(e.tagName)] + e.classes + [e.helpAttribute.GetOr("")], NonEmpty())
  }

  /** The descriptions of `getGenericHelp`, by tag or role. */
  const GenericDescriptions: map<string, string> := map[
    "button" := "This is a button. Click it to perform an action.",
    "input" := "This is an input field. Enter text or data here.",
    "select" := "This is a dropdown menu. Click to see available options.",
    "a" := "This is a link. Click to navigate to another page.",
    "form" := "This is a form. Fill out the fields and submit.",
    "table" := "This is a data table. You can sort and filter the information.",
    "nav" := "This is a navigation area. Use it to move around the application."]

  /** `getGenericHelp`: a known role first, then a known lower-cased tag, else nothing. */
  function GenericHelp(e: Element): Option<HelpEntry> {
    var tag := Lower(e.tagName);
    if e.role.Some? && e.role.value != "" && e.role.value in GenericDescriptions then
      Some(HelpEntry(e.role.value + " element", GenericDescriptions[e.role.value]))
    else if tag in GenericDescriptions then Some(HelpEntry(tag + " element", GenericDescriptions[tag]))
    else None
  }

  /** Generic help exists exactly for a known role or tag, names it, and prefers the role. */
  lemma GenericHelpMeans(e: Element)
    ensures var known := e.role.Some? && e.role.value in GenericDescriptions;
      var tag := Lower(e.tagName);
      (GenericHelp(e).Some? <==> known || tag in GenericDescriptions)
      && (known ==> GenericHelp(e) == Some(HelpEntry(e.role.value + " element", GenericDescriptions[e.role.value])))
      && (!known && tag in GenericDescriptions ==> GenericHelp(e) == Some(HelpEntry(tag + " element", GenericDescriptions[tag])))
  {
    assert "" !in GenericDescriptions;
  }

  function InContent(content: map<string, HelpEntry>): string -> bool {
    (sel: string) => sel in content
  }

  /** `getElementHelp` as a value: the entry of the first selector with one, else the generic help. */
  function ElementHelp(content: map<string, HelpEntry>, e: Element): Option<HelpEntry> {
    match FindFirst(Selectors(e), InContent(content))
    case Some(sel) => Some(content[sel])
    case None => GenericHelp(e)
  }

  /** The first selector that has an entry decides; the generic help is used only when none has. */
  lemma ElementHelpPriority(content: map<string, HelpEntry>, e: Element)
    ensures forall k :: FirstAt(Selectors(e), InContent(content), k) ==>
      ElementHelp(content, e) == Some(content[Selectors(e)[k]])
    ensures (forall k :: 0 <= k < |Selectors(e)| ==> Selectors(e)[k] !in content) ==> ElementHelp(content, e) == GenericHelp(e)
    ensures Lower(e.tagName) != "" && Lower(e.tagName) in content ==> ElementHelp(content, e) == Some(content[Lower(e.tagName)])
  {
    var sels := Selectors(e);
    var p := InContent(content);
    forall k | FirstAt(sels, p, k) ensures ElementHelp(content, e) == Some(content[sels[k]]) {
      var r := FindFirst(sels, p);
      var k' :| FirstAt(sels, p, k') && sels[k'] == r.value;
      assert k == k';
    }
    var all := [Lower(e.tagName)] + e.classes + [e.helpAttribute.GetOr("")];
    if Lower(e.tagName) != "" && Lower(e.tagName) in content {
      FilterFirst(all, NonEmpty(), 0);
      assert FirstAt(sels, p, 0);
    }
  }

  /** Nothing ever adds help entries, so the generic help is what every element gets. */
  lemma EmptyContentIsGeneric(e: Element)
    ensures ElementHelp(map[], e) == GenericHelp(e)
  {
    ElementHelpPriority(map[], e);
  }

  class ContextualHelpManager {
    var tours: map<string, Tour>
    /** The help entries by selector. */
    var helpContent: map<string, HelpEntry>
    var currentTour: Option<ActiveTour>
    var currentStep: nat
    var isHelpMode: bool
    /** `userPreferences.hasSeenTour`. */
    var hasSeenTour: bool

    /** The constructor: the registered tours, no help entries, no tour, help mode off. */
    constructor(hasSeenTour: bool)
      ensures tours == DefinedTours && helpContent == map[]
      ensures currentTour.None? && currentStep == 0 && !isHelpMode && this.hasSeenTour == hasSeenTour
    {
      tours := DefinedTours;
      helpContent := map[];
      currentTour := None;
      currentStep := 0;
      isHelpMode := false;
      this.hasSeenTour := hasSeenTour;
    }

    /** `startTour`: an unknown tour changes nothing; a known one is shown from its first step, skipping missing targets. */
    method StartTour(tourName: Option<string>, path: string, onPage: set<string>)
      modifies this`currentTour, this`currentStep, this`hasSeenTour
      ensures var name := TourName(tourName, path);
        (name !in tours ==> currentTour == old(currentTour) && currentStep == old(currentStep) && hasSeenTour == old(hasSeenTour))
        && (name in tours ==>
          (currentTour, currentStep) == Show(Some(ActiveTour(name, tours[name])), 0, onPage)
          && hasSeenTour == (old(hasSeenTour) || currentTour.None?))
    {
      var name := TourName(tourName, path);
      if name !in tours {
        return;
      }
      currentTour := Some(ActiveTour(name, tours[name]));
      currentStep := 0;
      ShowTourStep(onPage);
    }

    /**
     * `showTourStep`: a step whose target is on the page is shown; a missing
     * one moves on with `nextStep` (the end of the tour marks it seen).
     */
    method ShowTourStep(onPage: set<string>)
      modifies this`currentTour, this`currentStep, this`hasSeenTour
      ensures (currentTour, currentStep) == Show(old(currentTour), old(currentStep), onPage)
      ensures hasSeenTour == (old(hasSeenTour) || (old(currentTour).Some? && currentTour.None?))
      decreases Remaining(currentTour, currentStep), 1
    {
      if currentTour.None? || currentStep >= |currentTour.value.tour.steps| {
        return;
      }
      if currentTour.value.tour.steps[currentStep].target !in onPage {
        NextStep(onPage);
      }
    }

    /** `endTour`: no tour, step 0, the tour marked seen; a running tour is reported with its progress. */
    method EndTour() returns (report: Option<TourCompletion>)
      modifies this`currentTour, this`currentStep, this`hasSeenTour
      ensures currentTour.None? && currentStep == 0 && hasSeenTour
      ensures report == if old(currentTour).None? then None
        else Some(TourCompletion(old(currentTour).value.name, old(currentStep) + 1, |old(currentTour).value.tour.steps|))
    {
      report := None;
      if currentTour.Some? {
        report := Some(TourCompletion(currentTour.value.name, currentStep + 1, |currentTour.value.tour.steps|));
      }
      currentTour := None;
      currentStep := 0;
      hasSeenTour := true;
    }

    /** `nextStep`: the next step shown, or the end of the tour (which marks it seen). */
    method NextStep(onPage: set<string>)
      modifies this`currentTour, this`currentStep, this`hasSeenTour
      ensures (currentTour, currentStep) == NextShown(old(currentTour), old(currentStep), onPage)
      ensures hasSeenTour == (old(hasSeenTour) || (old(currentTour).Some? && currentTour.None?))
      decreases Remaining(currentTour, currentStep), 0
    {
      if currentTour.None? {
        return;
      }
      if currentStep < |currentTour.value.tour.steps| - 1 {
        currentStep := currentStep + 1;
        ShowTourStep(onPage);
      } else {
        var _ := EndTour();
      }
    }

    /** `previousStep`: one step back inside a tour and shown, never before the first. */
    method PreviousStep(onPage: set<string>)
      modifies this`currentTour, this`currentStep, this`hasSeenTour
      ensures (currentTour, currentStep) == PreviousShown(old(currentTour), old(currentStep), onPage)
      ensures hasSeenTour == (old(hasSeenTour) || (old(currentTour).Some? && currentTour.None?))
    {
      if currentTour.None? {
        return;
      }
      if currentStep > 0 {
        currentStep := currentStep - 1;
        ShowTourStep(onPage);
      }
    }

    /** `toggleHelpMode`. */
    method ToggleHelpMode()
      modifies this`isHelpMode
      ensures isHelpMode == !old(isHelpMode)
    {
      isHelpMode := !isHelpMode;
    }

    /** Escape ends a running tour, else leaves help mode, else only hides the menu. */
    method HandleEscape()
      modifies this`currentTour, this`currentStep, this`hasSeenTour, this`isHelpMode
      ensures old(currentTour).Some? ==> currentTour.None? && currentStep == 0 && hasSeenTour && isHelpMode == old(isHelpMode)
      ensures old(currentTour).None? ==>
        currentTour == old(currentTour) && currentStep == old(currentStep) && hasSeenTour == old(hasSeenTour)
        && isHelpMode == false
    {
      if currentTour.Some? {
        var _ := EndTour();
      } else if isHelpMode {
        ToggleHelpMode();
      }
    }

    /** The arrow keys during a tour: right or down is Next, left or up is Previous; otherwise nothing. */
    method HandleArrow(key: string, onPage: set<string>)
      modifies this`currentTour, this`currentStep, this`hasSeenTour
      ensures old(currentTour).Some? && (key == "ArrowRight" || key == "ArrowDown") ==>
        (currentTour, currentStep) == NextShown(old(currentTour), old(currentStep), onPage)
      ensures old(currentTour).Some? && (key == "ArrowLeft" || key == "ArrowUp") ==>
        (currentTour, currentStep) == PreviousShown(old(currentTour), old(currentStep), onPage)
      ensures hasSeenTour == (old(hasSeenTour) || (old(currentTour).Some? && currentTour.None?))
      ensures old(currentTour).None? || !(key in ["ArrowRight", "ArrowDown", "ArrowLeft", "ArrowUp"]) ==>
        currentTour == old(currentTour) && currentStep == old(currentStep) && hasSeenTour == old(hasSeenTour)
    {
      if currentTour.Some? {
        if key == "ArrowRight" || key == "ArrowDown" {
          NextStep(onPage);
        } else if key == "ArrowLeft" || key == "ArrowUp" {
          PreviousStep(onPage);
        }
      }
    }

    /** `getElementHelp`: tries each selector in order, then the generic help. */
    method GetElementHelp(e: Element) returns (r: Option<HelpEntry>)
      ensures r == ElementHelp(helpContent, e)
    {
      var selectors := Selectors(e);
      var i := 0;
      while i < |selectors|
        invariant 0 <= i <= |selectors|
        invariant FindFirst(selectors, InContent(helpContent)) == FindFirst(selectors[i..], InContent(helpContent))
      {
        FindFirstFrom(selectors, InContent(helpContent), i);
        if selectors[i] in helpContent {
          return Some(helpContent[selectors[i]]);
        }
        i := i + 1;
      }
      return GenericHelp(e);
    }
  }
}
