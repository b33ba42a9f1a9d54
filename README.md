# How it Works step discloser — Dafny model

This project models the only stateful part of the landing page: the "How it Works"
section (`src/components/HowItWorks.jsx`). The section lists steps and keeps one
open-step index, `openStep`. It is -1 when no step is open. Three inputs write that index:

- **Scroll.** The section's bounding rectangle becomes a progress value in [0, 1].
  A 10% dead zone is removed. The rest is split into `N + 1` equal segments: "none
  open", then one segment per step. When the resulting index changes, the current
  URL fragment is *replaced* by `#<id>`, or by `#how-it-works` for "none".
- **Mount.** The current fragment, minus its first `#`, is looked up among the step
  ids. The first match opens that step, and no match changes nothing. Then one
  unthrottled scroll evaluation runs. With the section present, that evaluation
  decides the open index. The fragment only decides whether the initial location
  is kept or is replaced by the mapped step's fragment.
- **Click.** The clicked step opens and a new history entry `#<id>` is *pushed*.

The scroll listener sits behind a leading-edge throttle. A call while the throttle
window is open runs the handler at once and closes the window. Calls while it is
closed are dropped, not deferred. The timer's expiry reopens the window.

Files:

- `search.dfy` (`Search`): `findIndex` and the first-occurrence `replace('#', '')`.
- `scroll_mapping.dfy` (`ScrollMapping`): progress, dead zone and step mapping over
  exact reals.
- `throttling.dfy` (`Throttling`): the throttle closure as a class, plus a pure
  model of what it lets through for a sequence of calls and expiries.
- `steps.dfy` (`Steps`): the step record, the fragments written for each index,
  fragment lookup, and the render rule "open exactly when the index is `openStep`".
- `how_it_works.dfy` (`HowItWorksComponent`): the component's transitions as
  functions on a `Widget` value (open index and session history). The class
  `HowItWorks` holds the same state in fields, and each of its methods is proved to
  perform the matching transition.

Session history is a sequence of locations whose last entry is the current one.
`replaceState` overwrites the last entry and `pushState` appends one.

Notes on what the code does:

- Adjusted progress is only clamped below (`Math.max(0, …)`). Since progress
  never exceeds 1, it stays in [0, 1] anyway.
- With a degenerate scroll range, progress is pinned at exactly 0.
- The throttle is leading-edge. Within a window the handler runs with the FIRST
  call's geometry, and later calls are dropped (`Throttling.DispatchWindow`).
- The component has no `hashchange` listener, no click-driven programmatic scroll
  and no scroll suppression window. None of these are modelled.

## Model

| member | source | states |
|---|---|---|
| `Search.FindIndex` | src/components/HowItWorks.jsx:74 | `findIndex`: the result is -1 exactly when no element satisfies the predicate. Otherwise it is an index whose element satisfies it, and no earlier element does. |
| `Search.IndexOf` | src/components/HowItWorks.jsx:73 | The first position of the character, or -1 exactly when it does not occur. |
| `Search.RemoveFirst` | src/components/HowItWorks.jsx:73 | `replace('#', '')` leaves the string unchanged when there is no `#`, and otherwise removes exactly one character. A leading `#` is simply dropped. |
| `Search.RemoveFirstCutsFirst` | src/components/HowItWorks.jsx:73 | The character removed is the first `#`: the result is the string with that one position cut out. |
| `ScrollMapping.Progress` | src/components/HowItWorks.jsx:34-42 | Progress is always in [0, 1]. It is 0 when the scroll range `height - innerHeight` is not positive, so nothing is divided by it. It is 0 while the section top is at or below the viewport top, and 1 once the top has moved up by the whole range. In between it is the linear fraction `-top / range`. |
| `ScrollMapping.Adjusted` | src/components/HowItWorks.jsx:47 | Adjusted progress is never negative and is at most 1 for progress at most 1. It is 0 throughout the 10% dead zone, and above the zone it is `(p - 0.1) / 0.9`. |
| `ScrollMapping.StepFor` | src/components/HowItWorks.jsx:47-54 | The mapped index lies in [-1, N-1], and is always -1 for N = 0. Progress at most 0.1 maps to -1. Progress 1 (or more) maps to N-1 when N ≥ 1. |
| `ScrollMapping.StepForMonotone` | src/components/HowItWorks.jsx:47-54 | The mapping is non-decreasing in progress. |
| `ScrollMapping.StepForSegments` | src/components/HowItWorks.jsx:49-54 | Index k is chosen exactly when adjusted progress is at least (k+1)/(N+1) and below (k+2)/(N+1). The lower bound does not apply to -1 and the upper bound does not apply to N-1. So the N+1 outcomes split [0, 1] into equal segments. |
| `Throttling.Throttle.constructor` | src/components/HowItWorks.jsx:5 | The throttle starts with its window open (`inThrottle` undefined). |
| `Throttling.Throttle.Call` | src/components/HowItWorks.jsx:8-12 | The handler runs exactly when the window was open. After any call the window is closed. |
| `Throttling.Throttle.Expire` | src/components/HowItWorks.jsx:11 | The timer's expiry reopens the window. |
| `Throttling.Dispatch` | src/components/HowItWorks.jsx:6-13 | A sequence of calls and expiries never runs the handler more times than there were calls (expiries are not counted). |
| `Throttling.Feed` | src/components/HowItWorks.jsx:6-13 | Feeding the events one by one to a `Throttle` object through `Call` and `Expire` runs the handler with exactly the arguments `Dispatch` predicts, so `DispatchBound` and `DispatchWindow` hold of the object. |
| `Throttling.DispatchBound` | src/components/HowItWorks.jsx:8-11 | The handler runs at most once per window: at most the number of expiries, plus one if the window started open. |
| `Throttling.DispatchWindow` | src/components/HowItWorks.jsx:8-11 | Without an expiry, a closed window lets nothing through. An open one runs the handler once, with the first call's arguments. Later calls are dropped, not deferred. |
| `Steps.HashFor` | src/components/HowItWorks.jsx:61-65 | The fragment written for index k starts with `#`. Stripping its first `#` gives step k's id, or the section id `how-it-works` for -1. |
| `Steps.LookupHash` | src/components/HowItWorks.jsx:73-74 | The first step whose id equals the fragment minus its first `#`. It is -1 exactly when no id matches. |
| `Steps.LookupHashFor` | src/components/HowItWorks.jsx:73-77 | With unique ids, none equal to the section id, looking up the fragment written for index k gives back k (including -1). |
| `Steps.Render` | src/components/HowItWorks.jsx:102-118 | One view per step, in order, with that step's id, number and title. A view is marked open, and carries its description, exactly when its index is `openStep`. |
| `Steps.RenderOpensOne` | src/components/HowItWorks.jsx:106-114 | The set of open views is `{openStep}` when it indexes a step, and empty otherwise. No two steps are ever open together. |
| `HowItWorksComponent.ReplaceLast` | src/components/HowItWorks.jsx:62-64 | `replaceState` keeps the history length and every earlier entry, and only the current entry becomes the new fragment. |
| `HowItWorksComponent.Push` | src/components/HowItWorks.jsx:91 | `pushState` grows the history by exactly one, leaves the earlier entries untouched, and makes the fragment current. |
| `HowItWorksComponent.Scrolled` | src/components/HowItWorks.jsx:21-67 | A scroll evaluation keeps the state valid and never changes the history length or any earlier entry. With a section element the open index becomes the mapped step. If that equals the open index, nothing changes at all. Otherwise the current location becomes the new index's fragment. Without a section element the handler does nothing. |
| `HowItWorksComponent.Clicked` | src/components/HowItWorks.jsx:89-92 | A click on step i opens i, whatever the previous state. It pushes exactly one entry, keeps the earlier history as a prefix, so going back returns to the previous location, and makes `#<id of i>` current. |
| `HowItWorksComponent.HashApplied` | src/components/HowItWorks.jsx:73-77 | The history is unchanged. A matched fragment sets the open index to the lookup's result, the first step whose id is the fragment minus its first `#`. An unmatched fragment leaves the state unchanged. |
| `HowItWorksComponent.Mounted` | src/components/HowItWorks.jsx:72-82 | After mounting, the state is valid and the history holds one entry. With the section present, the open index is the step the geometry maps to. The initial location is kept if that step equals the lookup's result, and otherwise it is replaced by that step's fragment. Without a section element, the open index is the lookup's result and the location is kept. |
| `HowItWorksComponent.LookupReopens` | src/components/HowItWorks.jsx:73-77 | At a location the component wrote, the mount-time lookup reopens the step it was written for. For the section's own fragment it opens none. This needs unique ids, none equal to the section id. |
| `HowItWorksComponent.RemountReopens` | src/components/HowItWorks.jsx:72-82 | Mounting again at a location the component wrote, with the section scrolled to where that step is open, reopens the step and leaves the location untouched. |
| `HowItWorksComponent.LookupReceiveExample` | src/components/HowItWorks.jsx:73-77 | With steps deposit, receive and trade, the lookup of `#receive` opens index 1. |
| `HowItWorksComponent.LookupNopeExample` | src/components/HowItWorks.jsx:73-77 | With the same steps, the lookup of `#nope` opens nothing. |
| `HowItWorksComponent.MountOverridesLookup` | src/components/HowItWorks.jsx:72-82 | A successful lookup is overridden by the initial scroll evaluation when the geometry maps to no step. The mount ends with nothing open and the location replaced by `#how-it-works`. |
| `HowItWorksComponent.MountExample` | src/components/HowItWorks.jsx:72-82 | Mounting at `#receive` with the section's top at the viewport's top ends with no step open and the location replaced by the section's own fragment. |
| `HowItWorksComponent.Apply` | src/components/HowItWorks.jsx:57-92 | One scroll or click keeps the state valid, adds one history entry exactly for a click, and keeps all entries before the current one. |
| `HowItWorksComponent.Run` | src/components/HowItWorks.jsx:57-92 | Over any sequence of scrolls and in-range clicks, the state stays valid. The history gains exactly one entry per click, and entries before the starting location are never changed. |
| `HowItWorksComponent.ScrollsKeepHistory` | src/components/HowItWorks.jsx:57-66 | Any number of scroll evaluations leaves the history length unchanged. |
| `HowItWorksComponent.HowItWorks.constructor` | src/components/HowItWorks.jsx:17-82 | Mounting starts from -1 and the current location, with the throttle window open. The resulting state is `Mounted`: the lookup, then one unthrottled scroll. |
| `HowItWorksComponent.HowItWorks.ApplyLocationHash` | src/components/HowItWorks.jsx:73-77 | The fields take exactly the `HashApplied` transition. |
| `HowItWorksComponent.HowItWorks.HandleScroll` | src/components/HowItWorks.jsx:21-67 | The fields take exactly the `Scrolled` transition. |
| `HowItWorksComponent.HowItWorks.OnScroll` | src/components/HowItWorks.jsx:70-79 | While the throttle window is closed, a scroll changes nothing. Otherwise the fields take the `Scrolled` transition. Either way the window ends up closed. |
| `HowItWorksComponent.HowItWorks.TimerExpire` | src/components/HowItWorks.jsx:11 | The throttle window is open again. |
| `HowItWorksComponent.HowItWorks.HandleStepClick` | src/components/HowItWorks.jsx:89-92 | The fields take exactly the `Clicked` transition. |
| `HowItWorksComponent.HowItWorks.View` | src/components/HowItWorks.jsx:102-118 | One view per step, and view i is open exactly when i is `openStep`. |

## Left out

- `src/components/Hero.jsx` and `src/App.jsx` are static markup with no state or logic.
- DOM geometry reads (`getBoundingClientRect`, `window.innerHeight`) are inputs (`Geometry`). A missing section element is `None`.
- Timers and listeners are not modelled: no `setTimeout` with its 100 ms limit, no `addEventListener` or `removeEventListener`, no unmount cleanup. A timer expiry is an explicit event or method call.
- `Throttling.Throttle.Expire`: may be called at any time. The source only fires it after a run, so the model allows more schedules than can occur.
- React scheduling is not modelled. The open index is set directly. The comparison at line 57 is against the current state rather than the effect's captured value. Mount is modelled once, as the lookup followed by one scroll evaluation.
- HowItWorksComponent.Clicked: does not model the effect re-run that follows every change of `openStep` (dependencies `[openStep, steps]`, line 87). Each re-run repeats the fragment lookup, creates a new throttle whose window is open, and runs `handleScroll` without the throttle (line 82). So a click on a step the current geometry does not map to is reverted right away, and the pushed entry is then replaced by the mapped step's fragment. The throttle window also reopens whenever the open step changes. The model's `Clicked`, `Run` and `HowItWorks.OnScroll` describe the handlers alone, without these re-runs.
- Numbers are exact reals, not IEEE doubles. Results at the exact boundaries (0.1, 0.9, segment edges) may differ from JavaScript.
- `scrollEnd` (line 35) is computed but never used, so it is not modelled.
- Browser back/forward is not modelled. The component has no `hashchange` listener. The fragment is read only when the effect runs: at mount, and again on each re-run after `openStep` changes (see the line above).
- Steps.LookupHashFor: `location.hash` returns the fragment as the browser serializes it, with spaces, `"`, `<`, `>`, backticks and non-ASCII characters percent-encoded. The model's history gives back a fragment exactly as written. So the round trip in `LookupHashFor`, `LookupReopens` and `RemountReopens` holds in the browser only for ids the fragment serializer leaves unchanged. An id such as `dépôt` does not round-trip.
- Step ids are not required to be unique. Lookups return the first match, as `findIndex` does.
- Rendering is reduced to each step's header fields, the open flag and the optional description. CSS classes and layout are not modelled.
