/**
 * Sending an action to the root state: the reducer runs, and every action
 * its effect emits synchronously is queued and run after it, first in first
 * out, until the queue is empty.
 */
module StoreRuntime {
  import opened Reducers
  import opened AddTextViewFeature
  import opened AppFeature

  /**
   * A bound on how many reducer steps an action can cause: a wrapped
   * `textCompleted` causes itself and one `dismiss`, every other action only
   * itself.
   */
  function ActionRank(action: AppAction): (n: nat)
    ensures n >= 1
  {
    if action == AddTextView(TextCompleted) then 2 else 1
  }

  function QueueRank(queue: seq<AppAction>): nat
  {
    if queue == [] then 0 else ActionRank(queue[0]) + QueueRank(queue[1..])
  }

  lemma {:induction false} QueueRankAppend(a: seq<AppAction>, b: seq<AppAction>)
    ensures QueueRank(a + b) == QueueRank(a) + QueueRank(b)
  {
    if a != [] {
      assert (a + b)[1..] == a[1..] + b;
      QueueRankAppend(a[1..], b);
    } else {
      assert a + b == b;
    }
  }

  /** Every action's follow-ups together rank below the action itself. */
  lemma EffectsRankBelow(state: AppState, action: AppAction)
    ensures QueueRank(AppFeature.Reduce(state, action).effects) < ActionRank(action)
  {
  }

  /** The state reached by running every action of `queue` and all the follow-ups they cause. */
  function Run(state: AppState, queue: seq<AppAction>): AppState
    decreases QueueRank(queue)
  {
    if queue == [] then state
    else
      var r := AppFeature.Reduce(state, queue[0]);
      EffectsRankBelow(state, queue[0]);
      QueueRankAppend(queue[1..], r.effects);
      Run(r.state, queue[1..] + r.effects)
  }

  /**
   * `send(action)`: runs the reducer on `action`, then on each queued
   * follow-up in turn, and returns the final state.
   */
  method Send(state: AppState, action: AppAction) returns (next: AppState)
    ensures next == Run(state, [action])
    ensures var r := AppFeature.Reduce(state, action);
            next == (if r.effects == [] then r.state else AppFeature.Reduce(r.state, r.effects[0]).state)
  {
    var current := state;
    var queue := [action];
    while queue != []
      invariant Run(current, queue) == Run(state, [action])
      decreases QueueRank(queue)
    {
      var r := AppFeature.Reduce(current, queue[0]);
      EffectsRankBelow(current, queue[0]);
      QueueRankAppend(queue[1..], r.effects);
      current, queue := r.state, queue[1..] + r.effects;
    }
    next := current;
    AtMostTwoSteps(state, action);
  }

  /**
   * Sending one action runs the reducer at most twice: once on the action and,
   * if it emitted a follow-up, once on that follow-up, which emits nothing.
   */
  lemma AtMostTwoSteps(state: AppState, action: AppAction)
    ensures var r := AppFeature.Reduce(state, action);
            |r.effects| <= 1 &&
            (r.effects != [] ==> AppFeature.Reduce(r.state, r.effects[0]).effects == []) &&
            Run(state, [action]) == (if r.effects == [] then r.state else AppFeature.Reduce(r.state, r.effects[0]).state)
  {
    var r := AppFeature.Reduce(state, action);
    assert [action][1..] + r.effects == r.effects;
    if r.effects != [] {
      var d := AppFeature.Reduce(r.state, r.effects[0]);
      assert r.effects[1..] + d.effects == [];
    }
  }

  /**
   * Confirming the modal: the parent ends up holding the child's text (or ""
   * when there was no child) and the modal is closed.
   */
  lemma SendTextCompleted(state: AppState)
    ensures Run(state, [AddTextView(TextCompleted)]) ==
            AppState(if state.addTextViewState.Some? then state.addTextViewState.value.text else "", None)
  {
    AtMostTwoSteps(state, AddTextView(TextCompleted));
  }

  /**
   * A wrapped child action sent while the modal is closed leaves the state
   * unchanged, except `textCompleted`, which resets the parent's text to "".
   */
  lemma SendWithoutChild(state: AppState, a: AddTextViewAction)
    requires state.addTextViewState.None?
    ensures Run(state, [AddTextView(a)]) == if a == TextCompleted then AppState("", None) else state
  {
    AtMostTwoSteps(state, AddTextView(a));
  }

  /** Sending the same wrapped `addText` twice ends where sending it once does. */
  lemma SendAddTextIdempotent(state: AppState, t: string)
    ensures var once := Run(state, [AddTextView(AddText(t))]);
            Run(once, [AddTextView(AddText(t))]) == once
  {
    AtMostTwoSteps(state, AddTextView(AddText(t)));
    AtMostTwoSteps(Run(state, [AddTextView(AddText(t))]), AddTextView(AddText(t)));
  }

  /**
   * The modal's lifecycle: `showText` presents it; a wrapped `dismiss` or
   * `textCompleted` takes it away; a wrapped `addText` leaves it as it was.
   */
  lemma PresentationLifecycle(state: AppState, t: string)
    ensures IsPresented(Run(state, [ShowText]))
    ensures !IsPresented(Run(state, [AddTextView(Dismiss)]))
    ensures !IsPresented(Run(state, [AddTextView(TextCompleted)]))
    ensures IsPresented(Run(state, [AddTextView(AddText(t))])) == IsPresented(state)
  {
    AtMostTwoSteps(state, ShowText);
    AtMostTwoSteps(state, AddTextView(Dismiss));
    AtMostTwoSteps(state, AddTextView(TextCompleted));
    AtMostTwoSteps(state, AddTextView(AddText(t)));
  }

  /**
   * Open the modal on "hello", type "world", confirm: the root shows "world"
   * and the modal is closed.
   */
  lemma EditAndConfirm()
    ensures var s1 := Run(AppState("hello", None), [ShowText]);
            var s2 := Run(s1, [AddTextView(AddText("world"))]);
            var s3 := Run(s2, [AddTextView(TextCompleted)]);
            s1.addTextViewState == Some(InitialChild("hello")) &&
            s2.addTextViewState == Some(InitialChild("world")) &&
            s3 == AppState("world", None)
  {
    var s1 := Run(AppState("hello", None), [ShowText]);
    AtMostTwoSteps(AppState("hello", None), ShowText);
    var s2 := Run(s1, [AddTextView(AddText("world"))]);
    AtMostTwoSteps(s1, AddTextView(AddText("world")));
    SendTextCompleted(s2);
  }

  /** Open the modal on "x" and dismiss it: the root still shows "x". */
  lemma OpenAndDismiss()
    ensures var s1 := Run(AppState("x", None), [ShowText]);
            Run(s1, [AddTextView(Dismiss)]) == AppState("x", None)
  {
    var s1 := Run(AppState("x", None), [ShowText]);
    AtMostTwoSteps(AppState("x", None), ShowText);
    AtMostTwoSteps(s1, AddTextView(Dismiss));
  }
}
