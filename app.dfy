/**
 * The root screen's state machine: `AppState`, `AppAction` and `appReducer`,
 * a `.combine` of the child reducer lifted onto the optional sub-state and the
 * parent's own switch.
 */
module AppFeature {
  import opened Reducers
  import opened AddTextViewFeature

  /** `addTextViewState` is present exactly while the modal is open. */
  datatype AppState = AppState(text: string, addTextViewState: Option<AddTextViewState>)

  datatype AppAction = ShowText | AddTextView(child: AddTextViewAction)

  /** The modal is shown exactly when the child state exists. */
  predicate IsPresented(state: AppState)
    ensures IsPresented(state) <==> state.addTextViewState != None
  {
    state.addTextViewState.Some?
  }

  /** The child state that `showText` creates, seeded with the parent's text. */
  function InitialChild(text: string): (c: AddTextViewState)
    ensures c.title == "" && c.placeholderText == None
    ensures c.text == text && !c.requiredText && c.TextCompleted()
  {
    AddTextViewState("", None, false, text)
  }

  /** Wraps each child action as an `AppAction.addTextView`. */
  function Lift(effects: seq<AddTextViewAction>): (r: seq<AppAction>)
    ensures |r| == |effects|
    ensures forall i :: 0 <= i < |effects| ==> r[i] == AddTextView(effects[i])
  {
    seq(|effects|, i requires 0 <= i < |effects| => AddTextView(effects[i]))
  }

  /**
   * `addTextViewReducer.optional.pullback(...)`: a wrapped child action is
   * run on the child state when it is present; `showText`, and any action
   * arriving while the child is absent, leave the state as it is.
   */
  function ChildStep(state: AppState, action: AppAction): (r: Step<AppState, AppAction>)
    ensures r.effects == []
    ensures r.state.text == state.text
    ensures IsPresented(r.state) == IsPresented(state)
    ensures action.ShowText? || state.addTextViewState.None? ==> r.state == state
    ensures action.AddTextView? && state.addTextViewState.Some? ==>
              r.state.addTextViewState == Some(AddTextViewFeature.Reduce(state.addTextViewState.value, action.child).state)
  {
    match action
    case ShowText => Step(state, [])
    case AddTextView(a) =>
      match state.addTextViewState
      case None => Step(state, [])
      case Some(c) =>
        var s := AddTextViewFeature.Reduce(c, a);
        Step(state.(addTextViewState := Some(s.state)), Lift(s.effects))
  }

  /**
   * The parent's own switch: `showText` opens the modal, a wrapped `dismiss`
   * closes it, a wrapped `textCompleted` copies the child's text (or "" when
   * there is no child) and asks for a `dismiss`; `addText` is the child's alone.
   */
  function ParentStep(state: AppState, action: AppAction): (r: Step<AppState, AppAction>)
    ensures action == AddTextView(TextCompleted) <==> r.effects != []
    ensures r.effects != [] ==> r.effects == [AddTextView(Dismiss)]
    ensures action == ShowText ==> r.state == AppState(state.text, Some(InitialChild(state.text)))
    ensures action == AddTextView(Dismiss) ==> r.state == state.(addTextViewState := None)
    ensures action.AddTextView? && action.child.AddText? ==> r.state == state
    ensures action == AddTextView(TextCompleted) ==>
              r.state.addTextViewState == state.addTextViewState &&
              r.state.text == (if state.addTextViewState.Some? then state.addTextViewState.value.text else "")
  {
    match action
    case ShowText =>
      Step(state.(addTextViewState := Some(InitialChild(state.text))), [])
    case AddTextView(a) =>
      match a
      case AddText(_) => Step(state, [])
      case Dismiss => Step(state.(addTextViewState := None), [])
      case TextCompleted =>
        var t := match state.addTextViewState
                 case Some(c) => c.text
                 case None => "";
        Step(state.(text := t), [AddTextView(Dismiss)])
  }

  /**
   * `appReducer`: the child step first, then the parent step on its result;
   * effects in that order. Only a wrapped `textCompleted` emits a follow-up,
   * and it emits exactly one, a wrapped `dismiss`; the per-action results
   * are stated by the lemmas below.
   */
  function Reduce(state: AppState, action: AppAction): (r: Step<AppState, AppAction>)
    ensures |r.effects| <= 1
    ensures r.effects != [] <==> action == AddTextView(TextCompleted)
    ensures r.effects != [] ==> r.effects == [AddTextView(Dismiss)]
    ensures action.AddTextView? && action.child.AddText? ==> IsPresented(r.state) == IsPresented(state)
  {
    var c := ChildStep(state, action);
    var p := ParentStep(c.state, action);
    Step(p.state, c.effects + p.effects)
  }

  /** `showText` opens the modal on a fresh child holding the parent's text, and emits nothing. */
  lemma ShowTextOpensChild(state: AppState)
    ensures Reduce(state, ShowText) == Step(AppState(state.text, Some(InitialChild(state.text))), [])
  {
  }

  /** A wrapped `dismiss` closes the modal and leaves the parent's text alone. */
  lemma DismissClosesChild(state: AppState)
    ensures Reduce(state, AddTextView(Dismiss)) == Step(AppState(state.text, None), [])
  {
  }

  /**
   * A wrapped `addText(t)` sets the child's text to `t` when the child is
   * present, and changes nothing at all when it is absent.
   */
  lemma AddTextEditsOnlyChild(state: AppState, t: string)
    ensures var r := Reduce(state, AddTextView(AddText(t)));
            r.effects == [] && r.state.text == state.text &&
            match state.addTextViewState
            case None => r.state == state
            case Some(c) => r.state.addTextViewState == Some(c.(text := t))
  {
  }

  /**
   * A wrapped `textCompleted` copies the child's text into the parent (or ""
   * with no child), keeps the child for now, and emits exactly one
   * follow-up: a wrapped `dismiss`.
   */
  lemma TextCompletedCopiesText(state: AppState)
    ensures var r := Reduce(state, AddTextView(TextCompleted));
            r.effects == [AddTextView(Dismiss)] &&
            r.state.addTextViewState == state.addTextViewState &&
            r.state.text == (if state.addTextViewState.Some? then state.addTextViewState.value.text else "")
  {
  }

  /**
   * The order of the two reducers inside `.combine` is not observable in the
   * result: running the parent step first and the lifted child step second
   * ends in the same state and emits the same follow-ups.
   */
  lemma CombineOrderUnobservable(state: AppState, action: AppAction)
    ensures var p := ParentStep(state, action);
            var c := ChildStep(p.state, action);
            Step(c.state, p.effects + c.effects) == Reduce(state, action)
  {
  }
}
