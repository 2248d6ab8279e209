# ScopeCrash reducers in Dafny

A model of the two reducers of the ScopeCrash demo application
(`ScopeCrash/ContentView.swift`), written in the Composable Architecture
style. The root screen (`AppState`) shows a `text` and may hold an optional
`AddTextViewState`, present exactly while the "add text" sheet is open. The
sheet's own reducer (`addTextViewReducer`) edits its `text` on `addText`, and
treats `textCompleted` and `dismiss` as signals. The root reducer
(`appReducer`) is a `.combine` of two parts. The first is the sheet reducer
lifted onto the optional sub-state with `.optional.pullback`. The second is
a switch that opens the sheet on `showText`, closes it on a wrapped
`dismiss`, and on a wrapped `textCompleted` copies the sheet's text into the
root and re-dispatches `.addTextView(.dismiss)`.

Files:

- `reducers.dfy` (module `Reducers`): `Option` and `Step`. A `Step` is a
  reducer's result: the new state plus the follow-up actions its effect
  emits, in order. `.none` is the empty sequence, `.init(value:)` a
  one-element sequence, and `.combine` concatenates the effects of its
  parts in the order they ran.
- `add_text_view.dfy` (module `AddTextViewFeature`): the sheet's state,
  actions, `textCompleted` and reducer.
- `app.dfy` (module `AppFeature`): the root state and actions, the lifted
  child step, the parent step, and `appReducer` as "child step, then parent
  step".
- `store.dfy` (module `StoreRuntime`): sending an action. The reducer runs,
  its synchronous follow-ups are queued and run first in first out until
  none remain. `Run` is the specification and `Send` the loop proved
  against it. A lemma shows one send runs the reducer at most twice.

A wrapped `textCompleted` that arrives with no sheet state is not a no-op:
line 45 falls back to `""`, so the root's text is cleared
(`StoreRuntime.SendWithoutChild`). Every other wrapped child action leaves
the state unchanged in that situation.

## Model

| member | source | states |
|---|---|---|
| `AddTextViewFeature.AddTextViewState.TextCompleted` | ScopeCrash/ContentView.swift:85-88 | true whenever text is not required; when it is required, true exactly when `text` is non-empty |
| `AddTextViewFeature.Reduce` | ScopeCrash/ContentView.swift:99-116 | never emits an effect; never changes `title`, `placeholderText`, `requiredText`; `addText(t)` leaves `text == t` (both branches agree); `dismiss` and `textCompleted` leave the state unchanged |
| `AddTextViewFeature.AddTextIdempotent` | ScopeCrash/ContentView.swift:105-110 | applying the same `addText(t)` a second time changes nothing |
| `AddTextViewFeature.AddTextDecidesCompletion` | ScopeCrash/ContentView.swift:85-110 | after `addText(t)`, `textCompleted` holds iff text is not required or `t` is non-empty |
| `AppFeature.IsPresented` | ScopeCrash/ContentView.swift:67 | the sheet's `isPresented` binding: true exactly when the sheet state is non-nil |
| `AppFeature.InitialChild` | ScopeCrash/ContentView.swift:27-31 | the sheet state created by `showText` has an empty title, no placeholder, carries the root's text, does not require text, and so is already completable |
| `AppFeature.ChildStep` | ScopeCrash/ContentView.swift:18-21 | the lifted child reducer: emits nothing, never touches the root's `text` or whether the sheet exists; with `showText` or with no sheet state it changes nothing; otherwise the sheet state becomes the child reducer's result |
| `AppFeature.ParentStep` | ScopeCrash/ContentView.swift:23-52 | only a wrapped `textCompleted` emits, and then exactly `.addTextView(.dismiss)`; per action: opens the sheet, leaves `addText` alone, closes on `dismiss`, copies the sheet's text (or `""`) on `textCompleted` without closing |
| `AppFeature.ShowTextOpensChild` | ScopeCrash/ContentView.swift:26-32 | `showText` keeps the root's text, installs a fresh sheet state seeded with it, and emits nothing |
| `AppFeature.DismissClosesChild` | ScopeCrash/ContentView.swift:40-42 | a wrapped `dismiss` removes the sheet state, keeps the root's text, emits nothing |
| `AppFeature.AddTextEditsOnlyChild` | ScopeCrash/ContentView.swift:18-38 | a wrapped `addText(t)` sets the sheet's text to `t` if the sheet exists and otherwise leaves the whole state unchanged; it never emits and never touches the root's text |
| `AppFeature.TextCompletedCopiesText` | ScopeCrash/ContentView.swift:44-47 | a wrapped `textCompleted` sets the root's text to the sheet's text (or `""`), keeps the sheet for now, and emits exactly one follow-up, `.addTextView(.dismiss)` |
| `AppFeature.Reduce` | ScopeCrash/ContentView.swift:17-53 | `appReducer`: emits at most one follow-up, one exactly when the action is a wrapped `textCompleted`, and then `.addTextView(.dismiss)`; a wrapped `addText` never opens or closes the sheet; the result for each action is stated by `ShowTextOpensChild`, `DismissClosesChild`, `AddTextEditsOnlyChild` and `TextCompletedCopiesText` |
| `AppFeature.CombineOrderUnobservable` | ScopeCrash/ContentView.swift:17-23 | running the parent step before the child step would reach the same state and emit the same follow-ups as the actual child-then-parent order |
| `StoreRuntime.Send` | ScopeCrash/ContentView.swift:47 | the queue loop reaches `Run(state, [action])`, which equals one reducer step followed by at most one step for its follow-up |
| `StoreRuntime.AtMostTwoSteps` | ScopeCrash/ContentView.swift:44-47 | a send emits at most one follow-up, that follow-up emits none, and the final state is the result of those at most two steps |
| `StoreRuntime.SendTextCompleted` | ScopeCrash/ContentView.swift:44-47 | after sending a wrapped `textCompleted` and its re-dispatched `dismiss`, the root holds the sheet's former text (or `""`) and the sheet state is gone |
| `StoreRuntime.SendWithoutChild` | ScopeCrash/ContentView.swift:18-47 | with no sheet state, a wrapped `addText` or `dismiss` changes nothing; a wrapped `textCompleted` clears the root's text |
| `StoreRuntime.SendAddTextIdempotent` | ScopeCrash/ContentView.swift:105-110 | sending the same wrapped `addText(t)` twice ends where sending it once does |
| `StoreRuntime.PresentationLifecycle` | ScopeCrash/ContentView.swift:67 | the sheet is presented after `showText`, not after a wrapped `dismiss` or `textCompleted`, and unchanged by a wrapped `addText` |
| `StoreRuntime.EditAndConfirm` | ScopeCrash/ContentView.swift:26-47 | open on "hello", type "world", confirm: the root shows "world" and the sheet is closed |
| `StoreRuntime.OpenAndDismiss` | ScopeCrash/ContentView.swift:26-42 | open on "x" then dismiss: the root still shows "x" and the sheet is closed |

## Left out

- The SwiftUI views `ContentView` and `AddTextView` (lines 55-72, 119-142): rendering and bindings. Only the sheet's presentation binding (line 67) is kept, as the derived predicate `AppFeature.IsPresented`.
- The "Add" button being disabled unless `textCompleted` holds (line 129) is view behaviour; the model's reducers accept `textCompleted` in any state, as the reducers in the source do.
- The Composable Architecture library (`Store`, `ViewStore`, `IfLetStore`, `Effect`, `Reducer.combine`, `.optional`, `.pullback`) is not part of this model. Its combinators are modelled only by the behaviour the program relies on. Effects are synchronous follow-up actions and run first in first out after the action that caused them. `.optional` is a silent no-op when the sheet state is absent, with no debug assertion.
- The reducers' `Void` environment carries nothing and is dropped.
- A platform swipe-to-dismiss leaves the view out of step with the state, because of `.constant(...)` at line 67. That is view-layer behaviour outside the reducers.
- The commented-out direct `addTextViewState = nil` at line 46 is not modelled. The model follows the re-dispatched `dismiss` that the code actually performs.
