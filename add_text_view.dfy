/**
 * The modal editing screen's state machine: `AddTextViewState`,
 * `AddTextViewAction` and `addTextViewReducer`.
 */
module AddTextViewFeature {
  import opened Reducers

  /**
   * `title`, `placeholderText` and `requiredText` are `let` constants of the
   * struct; only `text` is ever reassigned.
   */
  datatype AddTextViewState = AddTextViewState(
    title: string,
    placeholderText: Option<string>,
    requiredText: bool,
    text: string)
  {
    /**
     * Whether the "Add" button may be pressed: always when no text is
     * required, otherwise exactly when some text has been entered.
     */
    predicate TextCompleted()
      ensures !requiredText ==> TextCompleted()
      ensures requiredText ==> (TextCompleted() <==> |text| > 0)
    {
      if !requiredText then true else text != ""
    }
  }

  datatype AddTextViewAction = AddText(newText: string) | TextCompleted | Dismiss

  /** The constant fields of `a` and `b` agree. */
  predicate SameFixedFields(a: AddTextViewState, b: AddTextViewState)
  {
    a.title == b.title && a.placeholderText == b.placeholderText && a.requiredText == b.requiredText
  }

  /**
   * `addTextViewReducer`. It never emits an effect and never touches the
   * constant fields; `addText` stores its argument (both of the source's
   * branches end with `text` equal to the argument), the other two actions
   * are signals for the parent and change nothing here.
   */
  function Reduce(state: AddTextViewState, action: AddTextViewAction): (r: Step<AddTextViewState, AddTextViewAction>)
    ensures r.effects == []
    ensures SameFixedFields(r.state, state)
    ensures action.AddText? ==> r.state.text == action.newText
    ensures !action.AddText? ==> r.state == state
  {
    match action
    case Dismiss => Step(state, [])
    case AddText(newText) =>
      if newText != "" then Step(state.(text := newText), [])
      else Step(state.(text := ""), [])
    case TextCompleted => Step(state, [])
  }

  /** Sending the same `addText` twice leaves the state it left after the first. */
  lemma AddTextIdempotent(state: AddTextViewState, t: string)
    ensures var once := Reduce(state, AddText(t)).state;
            Reduce(once, AddText(t)).state == once
  {
  }

  /**
   * After `addText(t)` the "Add" button is enabled exactly when no text is
   * required or `t` is non-empty.
   */
  lemma AddTextDecidesCompletion(state: AddTextViewState, t: string)
    ensures Reduce(state, AddText(t)).state.TextCompleted() <==> (!state.requiredText || t != "")
  {
  }
}
