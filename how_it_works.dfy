/** The "How it Works" component: one open-step index (-1 for none) kept in step
    with the scroll position, the user's clicks and the URL fragment. The browser's
    session history is a list of locations whose last entry is the current one:
    a scroll-driven change REPLACES that entry, a click PUSHES a new one.

    The transitions are first given as functions on `Widget` values; the class
    `HowItWorks` holds the same state in fields and its methods are proved to
    perform exactly these transitions. */
module HowItWorksComponent {

  import opened Search
  import opened ScrollMapping
  import opened Steps
  import opened Throttling

  /** What the section's bounding rectangle and the window report on a scroll. */
  datatype Geometry = Geometry(top: real, height: real, innerHeight: real)

  /** The component's state: the open index and the session history. */
  datatype Widget = Widget(openStep: int, history: seq<string>)

  /** The open index names a step or is -1, and there is a current location. */
  predicate Valid(steps: seq<Step>, w: Widget)
  {
    -1 <= w.openStep < |steps| && |w.history| >= 1
  }

  /** The current location's fragment (`window.location.hash`). */
  function Location(w: Widget): string
    requires |w.history| >= 1
  {
    w.history[|w.history| - 1]
  }

  /** `history.replaceState`: the current entry is overwritten, nothing is added. */
  function ReplaceLast(history: seq<string>, entry: string): (h: seq<string>)
    requires |history| >= 1
    ensures |h| == |history|
    ensures h[..|h| - 1] == history[..|history| - 1] && h[|h| - 1] == entry
  {
    history[..|history| - 1] + [entry]
  }

  /** `history.pushState`: a new current entry, the earlier ones untouched. */
  function Push(history: seq<string>, entry: string): (h: seq<string>)
    ensures |h| == |history| + 1
    ensures h[..|history|] == history && h[|history|] == entry
  {
    history + [entry]
  }

  /** The unthrottled scroll handler. With no section element it does nothing;
      otherwise the step for the current progress is opened if it differs from the
      open one, and the current location is replaced by that step's fragment. */
  function Scrolled(steps: seq<Step>, w: Widget, section: Option<Geometry>): (v: Widget)
    requires Valid(steps, w)
    ensures Valid(steps, v)
    ensures |v.history| == |w.history|
    ensures v.history[..|v.history| - 1] == w.history[..|w.history| - 1]
    ensures section.Some? ==>
              v.openStep == StepFor(Progress(section.value.top, section.value.height,
                                             section.value.innerHeight), |steps|)
    ensures section.None? ==> v == w
    ensures v.openStep == w.openStep ==> v == w
    ensures v != w ==> Location(v) == HashFor(steps, v.openStep)
  {
    match section
    case None => w
    case Some(g) =>
      var newStep := StepFor(Progress(g.top, g.height, g.innerHeight), |steps|);
      if newStep != w.openStep then
        Widget(newStep, ReplaceLast(w.history, HashFor(steps, newStep)))
      else
        w
  }

  /** Clicking step `index` opens it and pushes its fragment. */
  function Clicked(steps: seq<Step>, w: Widget, index: int): (v: Widget)
    requires Valid(steps, w) && 0 <= index < |steps|
    ensures Valid(steps, v)
    ensures v.openStep == index
    ensures |v.history| == |w.history| + 1
    ensures v.history[..|w.history|] == w.history
    ensures Location(v) == HashFor(steps, index)
  {
    Widget(index, Push(w.history, HashFor(steps, index)))
  }

  /** The mount-time fragment lookup: a fragment naming a step opens the first step
      with that id; any other fragment leaves the state as it is. */
  function HashApplied(steps: seq<Step>, w: Widget): (v: Widget)
    requires Valid(steps, w)
    ensures Valid(steps, v)
    ensures v.history == w.history
    ensures (forall j :: 0 <= j < |steps| ==> steps[j].id != RemoveFirst(Location(w), '#')) ==> v == w
    ensures v.openStep != w.openStep ==>
              0 <= v.openStep && steps[v.openStep].id == RemoveFirst(Location(w), '#')
    ensures v.openStep == if LookupHash(steps, Location(w)) == -1 then w.openStep
                          else LookupHash(steps, Location(w))
  {
    var stepIndex := LookupHash(steps, Location(w));
    if stepIndex != -1 then w.(openStep := stepIndex) else w
  }

  /** Mounting at `location`: nothing open, the fragment lookup, then one immediate
      scroll evaluation (which the throttle does not gate). With the section present
      that evaluation decides the open index; the fragment only decides whether the
      initial location survives or is replaced by the mapped step's fragment. */
  function Mounted(steps: seq<Step>, location: string, section: Option<Geometry>): (v: Widget)
    ensures Valid(steps, v)
    ensures v.history == [location] || v.history == [HashFor(steps, v.openStep)]
    ensures section.None? ==> v == Widget(LookupHash(steps, location), [location])
    ensures section.Some? ==>
              var s := StepFor(Progress(section.value.top, section.value.height,
                                        section.value.innerHeight), |steps|);
              v.openStep == s &&
              v.history == if s == LookupHash(steps, location) then [location] else [HashFor(steps, s)]
  {
    Scrolled(steps, HashApplied(steps, Widget(-1, [location])), section)
  }

  /** The mount-time lookup at a location the component wrote reopens the step it
      was written for (deep linking); for the section's own fragment it opens none. */
  lemma LookupReopens(steps: seq<Step>, w: Widget)
    requires Valid(steps, w) && UniqueIds(steps)
    requires forall j :: 0 <= j < |steps| ==> steps[j].id != SectionId
    requires Location(w) == HashFor(steps, w.openStep)
    ensures HashApplied(steps, Widget(-1, [Location(w)])).openStep == w.openStep
  {
    LookupHashFor(steps, w.openStep);
  }

  /** Mounting again at a location the component wrote, with the section scrolled to
      where that step is open, reopens the step and keeps the location as it is:
      the lookup and the initial scroll evaluation agree, so nothing is replaced. */
  lemma RemountReopens(steps: seq<Step>, w: Widget, g: Geometry)
    requires Valid(steps, w) && UniqueIds(steps)
    requires forall j :: 0 <= j < |steps| ==> steps[j].id != SectionId
    requires Location(w) == HashFor(steps, w.openStep)
    requires StepFor(Progress(g.top, g.height, g.innerHeight), |steps|) == w.openStep
    ensures Mounted(steps, Location(w), Some(g)) == Widget(w.openStep, [Location(w)])
  {
    LookupHashFor(steps, w.openStep);
  }

  /** Three steps, deposit, receive and trade, for the examples below. */
  function ExampleSteps(): seq<Step>
  {
    [Step("deposit", "1", "Deposit", ""), Step("receive", "2", "Receive", ""),
     Step("trade", "3", "Trade", "")]
  }

  /** The mount-time lookup of `#receive` opens the second step. */
  lemma LookupReceiveExample()
    ensures HashApplied(ExampleSteps(), Widget(-1, ["#receive"])).openStep == 1
  {
    var steps := ExampleSteps();
    assert RemoveFirst("#receive", '#') == "receive";
    assert steps[0].id != "receive";
  }

  /** The mount-time lookup of an unknown fragment such as `#nope` opens none. */
  lemma LookupNopeExample()
    ensures HashApplied(ExampleSteps(), Widget(-1, ["#nope"])).openStep == -1
  {
    assert RemoveFirst("#nope", '#') == "nope";
  }

  /** The initial scroll evaluation overrides a successful lookup whenever the
      geometry maps to no step: the open index is -1 and the location is replaced
      by the section's own fragment. */
  lemma MountOverridesLookup(steps: seq<Step>, location: string, g: Geometry)
    requires LookupHash(steps, location) != -1
    requires StepFor(Progress(g.top, g.height, g.innerHeight), |steps|) == -1
    ensures Mounted(steps, location, Some(g)) == Widget(-1, [HashFor(steps, -1)])
  {
  }

  /** Mounting at `#receive` with the section's top at the viewport's top ends with
      no step open and the location replaced by the section's own fragment. */
  lemma MountExample()
    ensures Mounted(ExampleSteps(), "#receive", Some(Geometry(0.0, 2000.0, 800.0))) ==
              Widget(-1, [HashFor(ExampleSteps(), -1)])
  {
    LookupReceiveExample();
    assert Progress(0.0, 2000.0, 800.0) == 0.0;
    MountOverridesLookup(ExampleSteps(), "#receive", Geometry(0.0, 2000.0, 800.0));
  }

  /** What can happen to a mounted component. */
  datatype Action = Scroll(section: Option<Geometry>) | Click(index: int)

  predicate ClicksInRange(steps: seq<Step>, actions: seq<Action>)
    decreases |actions|
  {
    actions == [] ||
    ((actions[0].Click? ==> 0 <= actions[0].index < |steps|) && ClicksInRange(steps, actions[1..]))
  }

  function Clicks(actions: seq<Action>): (c: nat)
    ensures c <= |actions|
    decreases |actions|
  {
    if actions == [] then 0 else (if actions[0].Click? then 1 else 0) + Clicks(actions[1..])
  }

  /** Every entry before `history`'s current one is still in place in `later`. */
  predicate KeepsEarlierEntries(history: seq<string>, later: seq<string>)
  {
    |history| - 1 <= |later| &&
    forall j :: 0 <= j < |history| - 1 ==> later[j] == history[j]
  }

  /** One action on a mounted component. */
  function Apply(steps: seq<Step>, w: Widget, action: Action): (v: Widget)
    requires Valid(steps, w)
    requires action.Click? ==> 0 <= action.index < |steps|
    ensures Valid(steps, v)
    ensures |v.history| == |w.history| + (if action.Click? then 1 else 0)
    ensures KeepsEarlierEntries(w.history, v.history)
  {
    match action
    case Scroll(section) =>
      var v := Scrolled(steps, w, section);
      assert forall j :: 0 <= j < |w.history| - 1 ==>
        v.history[j] == v.history[..|v.history| - 1][j] == w.history[..|w.history| - 1][j];
      v
    case Click(index) =>
      var v := Clicked(steps, w, index);
      assert forall j :: 0 <= j < |w.history| - 1 ==> v.history[j] == v.history[..|w.history|][j];
      v
  }

  /** The state after the actions, in order, with every scroll evaluated. The result
      is valid, has gained exactly one history entry per click, and keeps every
      entry before the starting location. */
  function Run(steps: seq<Step>, w: Widget, actions: seq<Action>): (v: Widget)
    requires Valid(steps, w) && ClicksInRange(steps, actions)
    ensures Valid(steps, v)
    ensures |v.history| == |w.history| + Clicks(actions)
    ensures KeepsEarlierEntries(w.history, v.history)
    decreases |actions|
  {
    if actions == [] then w
    else
      var next := Apply(steps, w, actions[0]);
      var v := Run(steps, next, actions[1..]);
      assert forall j :: 0 <= j < |w.history| - 1 ==> v.history[j] == next.history[j] == w.history[j];
      v
  }

  /** Scrolling alone never adds a history entry and never touches any entry before
      the current one, however many scroll events arrive. */
  lemma {:induction false} ScrollsKeepHistory(steps: seq<Step>, w: Widget, actions: seq<Action>)
    requires Valid(steps, w)
    requires forall i :: 0 <= i < |actions| ==> actions[i].Scroll?
    ensures ClicksInRange(steps, actions)
    ensures |Run(steps, w, actions).history| == |w.history|
    decreases |actions|
  {
    if actions != [] {
      ScrollsKeepHistory(steps, Scrolled(steps, w, actions[0].section), actions[1..]);
    }
  }

  /** The mounted section. Its fields are the state `Widget` describes, plus the
      throttle that gates the scroll listener. */
  class HowItWorks {
    const steps: seq<Step>
    var openStep: int
    var history: seq<string>
    const scrollThrottle: Throttle

    function State(): Widget
      reads this
    {
      Widget(openStep, history)
    }

    ghost predicate Inv()
      reads this
    {
      Valid(steps, State())
    }

    /** The mount effect: fragment lookup, listener registration (the throttle starts
        with its window open), and the initial, unthrottled scroll evaluation. */
    constructor (steps: seq<Step>, location: string, section: Option<Geometry>)
      ensures Inv() && this.steps == steps
      ensures State() == Mounted(steps, location, section)
      ensures fresh(scrollThrottle) && !scrollThrottle.inThrottle
    {
      this.steps := steps;
      openStep := -1;
      history := [location];
      scrollThrottle := new Throttle();
      new;
      ApplyLocationHash();
      HandleScroll(section);
    }

    /** Opens the step named by the current location's fragment, if any. */
    method ApplyLocationHash()
      requires Inv()
      modifies this`openStep
      ensures Inv()
      ensures State() == HashApplied(steps, old(State()))
    {
      var hash := RemoveFirst(history[|history| - 1], '#');
      var stepIndex := FindIndex(steps, (step: Step) => step.id == hash);
      if stepIndex != -1 {
        openStep := stepIndex;
      }
    }

    /** `handleScroll`: map the geometry to a step; on a change, open it and
        replace the current location. */
    method HandleScroll(section: Option<Geometry>)
      requires Inv()
      modifies this`openStep, this`history
      ensures Inv()
      ensures State() == Scrolled(steps, old(State()), section)
    {
      if section.None? {
        return;
      }
      var g := section.value;
      var progress := Progress(g.top, g.height, g.innerHeight);
      var newStep := StepFor(progress, |steps|);
      if newStep != openStep {
        openStep := newStep;
        if newStep >= 0 {
          history := ReplaceLast(history, "#" + steps[newStep].id);
        } else {
          history := ReplaceLast(history, "#" + SectionId);
        }
      }
    }

    /** The scroll listener: the throttled `handleScroll`. A scroll while the
        throttle window is closed is dropped; otherwise it is evaluated at once
        and the window closes. */
    method OnScroll(section: Option<Geometry>)
      requires Inv()
      modifies this`openStep, this`history, scrollThrottle
      ensures Inv()
      ensures scrollThrottle.inThrottle
      ensures State() == if old(scrollThrottle.inThrottle) then old(State())
                         else Scrolled(steps, old(State()), section)
    {
      var run := scrollThrottle.Call();
      if run {
        HandleScroll(section);
      }
    }

    /** The throttle's timer fires: the next scroll will be evaluated. */
    method TimerExpire()
      modifies scrollThrottle
      ensures !scrollThrottle.inThrottle
    {
      scrollThrottle.Expire();
    }

    /** `handleStepClick(index)`: open the clicked step and push its fragment. */
    method HandleStepClick(index: int)
      requires Inv() && 0 <= index < |steps|
      modifies this`openStep, this`history
      ensures Inv()
      ensures State() == Clicked(steps, old(State()), index)
    {
      openStep := index;
      history := Push(history, "#" + steps[index].id);
    }

    /** The rendered list: step `i` shows as open, with its description, exactly
        when `i` is the open index. */
    function View(): (views: seq<StepView>)
      reads this
      ensures |views| == |steps|
      ensures forall i :: 0 <= i < |views| ==> (views[i].open <==> openStep == i)
    {
      Render(steps, openStep)
    }
  }
}
