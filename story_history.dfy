/** The story editor's undo/redo history: `handleStoryChange`, `undo`,
    `redo`, and the effect that resets the shown story when the `story`
    prop changes. The pure functions give each handler's new state; the
    class holds the component's state and updates it in place. */
module StoryHistory {

  /** The editor's `history`, `historyIndex` and `currentStory` state. */
  datatype EditorHistory = EditorHistory(history: seq<string>, historyIndex: nat, currentStory: string)

  /** The index points into the history. */
  predicate Valid(h: EditorHistory)
  {
    h.historyIndex < |h.history|
  }

  /** ... and the shown story is the entry it points at. */
  predicate Synced(h: EditorHistory)
  {
    Valid(h) && h.currentStory == h.history[h.historyIndex]
  }

  /** `useState(story)`, `useState([story])`, `useState(0)`. */
  function Initial(story: string): (h: EditorHistory)
    ensures Synced(h)
  {
    EditorHistory([story], 0, story)
  }

  /** `handleStoryChange`: keep `history.slice(0, historyIndex + 1)`, append
      the new value and point at it. */
  function AfterEdit(h: EditorHistory, newValue: string): (r: EditorHistory)
    requires Valid(h)
  {
    var newHistory := h.history[..h.historyIndex + 1] + [newValue];
    EditorHistory(newHistory, |newHistory| - 1, newValue)
  }

  /** `undo`: step back one entry unless at the first. */
  function AfterUndo(h: EditorHistory): (r: EditorHistory)
    requires Valid(h)
  {
    if h.historyIndex > 0 then EditorHistory(h.history, h.historyIndex - 1, h.history[h.historyIndex - 1])
    else h
  }

  /** `redo`: step forward one entry unless at the last. */
  function AfterRedo(h: EditorHistory): (r: EditorHistory)
    requires Valid(h)
  {
    if h.historyIndex < |h.history| - 1 then EditorHistory(h.history, h.historyIndex + 1, h.history[h.historyIndex + 1])
    else h
  }

  /** The effect on a new `story` prop: only the shown story changes. */
  function AfterResync(h: EditorHistory, story: string): (r: EditorHistory)
  {
    h.(currentStory := story)
  }

  /** An edit keeps the entries up to and including the current one, drops
      the redo tail, appends the new value and shows it; redo is then a
      no-op, and undo shows the entry that was current before the edit. */
  lemma EditDiscardsRedoTail(h: EditorHistory, v: string)
    requires Valid(h)
    ensures var r := AfterEdit(h, v);
      && Synced(r)
      && |r.history| == h.historyIndex + 2
      && r.history[..h.historyIndex + 1] == h.history[..h.historyIndex + 1]
      && r.currentStory == v && r.history[r.historyIndex] == v
      && AfterRedo(r) == r
      && AfterUndo(r) == EditorHistory(r.history, h.historyIndex, h.history[h.historyIndex])
  {
  }

  /** Undo at the first entry and redo at the last change nothing; otherwise
      they move the index by one and show that entry. Neither touches the
      history itself, and both keep the index inside it. */
  lemma UndoRedoMoves(h: EditorHistory)
    requires Valid(h)
    ensures AfterUndo(h).history == h.history && AfterRedo(h).history == h.history
    ensures Valid(AfterUndo(h)) && Valid(AfterRedo(h))
    ensures h.historyIndex == 0 ==> AfterUndo(h) == h
    ensures h.historyIndex == |h.history| - 1 ==> AfterRedo(h) == h
    ensures h.historyIndex > 0 ==> AfterUndo(h).historyIndex == h.historyIndex - 1 && Synced(AfterUndo(h))
    ensures h.historyIndex < |h.history| - 1 ==> AfterRedo(h).historyIndex == h.historyIndex + 1 && Synced(AfterRedo(h))
  {
  }

  /** Undo followed by redo restores index and story when the shown story is
      the current entry; so does redo followed by undo. */
  lemma UndoRedoRoundTrip(h: EditorHistory)
    requires Synced(h)
    ensures h.historyIndex > 0 ==> AfterRedo(AfterUndo(h)) == h
    ensures h.historyIndex < |h.history| - 1 ==> AfterUndo(AfterRedo(h)) == h
  {
  }

  datatype Action = Change(newValue: string) | UndoClick | RedoClick

  function Step(h: EditorHistory, a: Action): (r: EditorHistory)
    requires Valid(h)
  {
    match a
    case Change(v) => AfterEdit(h, v)
    case UndoClick => AfterUndo(h)
    case RedoClick => AfterRedo(h)
  }

  /** The states the editor passes through on a sequence of edits, undos and redos. */
  function Run(h: EditorHistory, actions: seq<Action>): (r: EditorHistory)
    requires Synced(h)
    decreases |actions|
  {
    if actions == [] then h
    else
      StepKeepsSync(h, actions[0]);
      Run(Step(h, actions[0]), actions[1..])
  }

  lemma StepKeepsSync(h: EditorHistory, a: Action)
    requires Synced(h)
    ensures Synced(Step(h, a))
  {
  }

  /** From the initial state `([story], 0)`, every sequence of edits, undos and
      redos keeps 0 <= historyIndex < |history| and shows the entry at
      historyIndex; the first entry is never lost. */
  lemma {:induction false} HistoryInvariant(story: string, actions: seq<Action>)
    ensures Synced(Run(Initial(story), actions))
    ensures Run(Initial(story), actions).history[0] == story
  {
    RunKeeps(Initial(story), actions);
  }

  lemma {:induction false} RunKeeps(h: EditorHistory, actions: seq<Action>)
    requires Synced(h)
    ensures Synced(Run(h, actions))
    ensures Run(h, actions).history[0] == h.history[0]
    decreases |actions|
  {
    if actions != [] {
      StepKeepsSync(h, actions[0]);
      var next := Step(h, actions[0]);
      assert next.history[0] == h.history[0];
      RunKeeps(next, actions[1..]);
    }
  }

  /** A new `story` prop replaces only the shown story: the history and the
      index stay, the state stays synced exactly when the prop equals the
      current entry, and once an earlier entry exists, undo then redo shows
      the current entry again. */
  lemma ResyncNotInHistory(h: EditorHistory, story: string)
    requires Valid(h)
    ensures AfterResync(h, story).history == h.history
    ensures AfterResync(h, story).historyIndex == h.historyIndex
    ensures Synced(AfterResync(h, story)) <==> story == h.history[h.historyIndex]
    ensures story !in h.history ==> !Synced(AfterResync(h, story))
    ensures h.historyIndex > 0 ==>
      AfterRedo(AfterUndo(AfterResync(h, story))) == EditorHistory(h.history, h.historyIndex, h.history[h.historyIndex])
  {
    var r := AfterResync(h, story);
    if h.historyIndex > 0 {
      var u := AfterUndo(r);
      assert u.historyIndex == h.historyIndex - 1;
      assert u.historyIndex < |h.history| - 1;
    }
  }

  /** The component's history state, updated in place by its handlers. */
  class EditorState {
    var history: seq<string>
    var historyIndex: nat
    var currentStory: string

    ghost predicate Valid()
      reads this
    {
      historyIndex < |history|
    }

    function State(): EditorHistory
      reads this
    {
      EditorHistory(history, historyIndex, currentStory)
    }

    constructor (story: string)
      ensures Valid() && State() == Initial(story)
    {
      history := [story];
      historyIndex := 0;
      currentStory := story;
    }

    method HandleStoryChange(newValue: string)
      requires Valid()
      modifies this
      ensures Valid() && State() == AfterEdit(old(State()), newValue)
    {
      currentStory := newValue;
      var newHistory := history[..historyIndex + 1];
      newHistory := newHistory + [newValue];
      history := newHistory;
      historyIndex := |newHistory| - 1;
    }

    method Undo()
      requires Valid()
      modifies this
      ensures Valid() && State() == AfterUndo(old(State()))
    {
      if historyIndex > 0 {
        currentStory := history[historyIndex - 1];
        historyIndex := historyIndex - 1;
      }
    }

    method Redo()
      requires Valid()
      modifies this
      ensures Valid() && State() == AfterRedo(old(State()))
    {
      if historyIndex < |history| - 1 {
        currentStory := history[historyIndex + 1];
        historyIndex := historyIndex + 1;
      }
    }

    method ResyncStory(story: string)
      requires Valid()
      modifies this`currentStory
      ensures Valid() && State() == AfterResync(old(State()), story)
    {
      currentStory := story;
    }
  }
}
