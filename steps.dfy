/** The steps shown by the "How it Works" section, the URL fragments the section
    writes for them, the lookup of a fragment at mount time, and the rendering rule
    "a step is open exactly when its index is the open index". */
module Steps {

  import opened Search

  /** One disclosure item, supplied by the page. */
  datatype Step = Step(id: string, number: string, title: string, description: string)

  datatype Option<T> = None | Some(value: T)

  /** The `id` of the section element; its fragment stands for "no step open". */
  const SectionId: string := "how-it-works"

  predicate UniqueIds(steps: seq<Step>)
  {
    forall i, j :: 0 <= i < j < |steps| ==> steps[i].id != steps[j].id
  }

  /** The fragment written for open index `k`: `#<id>` of step `k`, or the
      section's own fragment when no step is open. */
  function HashFor(steps: seq<Step>, k: int): (h: string)
    requires -1 <= k < |steps|
    ensures |h| >= 1 && h[0] == '#'
    ensures RemoveFirst(h, '#') == if k >= 0 then steps[k].id else SectionId
  {
    if k >= 0 then "#" + steps[k].id else "#" + SectionId
  }

  /** The index of the first step whose id equals `location` with its first `#`
      removed, or -1. */
  function LookupHash(steps: seq<Step>, location: string): (i: int)
    ensures -1 <= i < |steps|
    ensures i >= 0 ==> steps[i].id == RemoveFirst(location, '#') &&
                       forall j :: 0 <= j < i ==> steps[j].id != RemoveFirst(location, '#')
    ensures i == -1 <==> forall j :: 0 <= j < |steps| ==> steps[j].id != RemoveFirst(location, '#')
  {
    var hash := RemoveFirst(location, '#');
    FindIndex(steps, (step: Step) => step.id == hash)
  }

  /** A fragment the section wrote for a step leads back to that step when ids are
      unique; the section's own fragment finds no step unless a step reuses its id. */
  lemma LookupHashFor(steps: seq<Step>, k: int)
    requires -1 <= k < |steps|
    requires UniqueIds(steps)
    requires forall j :: 0 <= j < |steps| ==> steps[j].id != SectionId
    ensures LookupHash(steps, HashFor(steps, k)) == k
  {
  }

  /** What the section renders for one step: the header always, the description only
      when the step is open (its class then includes `open`). */
  datatype StepView = StepView(id: string, number: string, title: string, open: bool, description: Option<string>)

  function Render(steps: seq<Step>, openStep: int): (views: seq<StepView>)
    ensures |views| == |steps|
    ensures forall i :: 0 <= i < |views| ==>
              views[i].id == steps[i].id && views[i].number == steps[i].number &&
              views[i].title == steps[i].title &&
              views[i].open == (openStep == i) &&
              views[i].description == if openStep == i then Some(steps[i].description) else None
  {
    seq(|steps|, i requires 0 <= i < |steps| =>
      StepView(steps[i].id, steps[i].number, steps[i].title, openStep == i,
               if openStep == i then Some(steps[i].description) else None))
  }

  function OpenIndices(views: seq<StepView>): set<int>
  {
    set i | 0 <= i < |views| && views[i].open
  }

  /** No two steps are ever open together: exactly the open index is shown open,
      and nothing is when the open index is -1. */
  lemma RenderOpensOne(steps: seq<Step>, openStep: int)
    ensures OpenIndices(Render(steps, openStep)) == if 0 <= openStep < |steps| then {openStep} else {}
  {
    var views := Render(steps, openStep);
    if 0 <= openStep < |steps| {
      assert views[openStep].open;
    }
  }
}
