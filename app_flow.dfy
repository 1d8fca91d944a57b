/** The application's screen state machine: a tagged union of screens, the
    settings screen that remembers the screen it was opened from, and the
    handlers that replace the whole state. Each asynchronous handler is
    modelled as it stands once its service call has settled, with that
    call's outcome as an input. */
module AppFlow {
  import opened Wrappers
  import opened IngestValidation

  datatype AnalysisData = AnalysisData(
    summary: string,
    keyPoints: seq<string>,
    characters: seq<string>,
    themes: seq<string>,
    setting: string)

  datatype BackgroundSuggestion = BackgroundSuggestion(id: string, background: string, reasoning: string)

  /** The story editor's screen. */
  datatype EditorState = EditorState(
    ingestData: IngestData,
    title: string,
    background: string,
    story: string,
    isStoryComplete: bool,
    generationCount: nat)

  /** Every screen but settings. */
  datatype BaseState =
    | Ingest
    | TitleGeneration(ingestData: IngestData, analysis: AnalysisData)
    | BackgroundPrompt(ingestData: IngestData, analysis: AnalysisData, approvedTitle: string)
    | Suggestions(ingestData: IngestData, approvedTitle: string, backgroundSuggestions: seq<BackgroundSuggestion>)
    | StoryPrompt(ingestData: IngestData, approvedTitle: string, approvedBackground: string)
    | Editor(editor: EditorState)
    | YoutubeAssets(previousEditorState: EditorState)

  /** Settings saves the screen it covers; it never covers itself. */
  datatype AppState = Base(screen: BaseState) | Settings(previousState: BaseState)

  /** The application's state: the screen, the selected background (`null`
      is `None`) and the error banner (`null` is `None`). */
  datatype App = App(appState: AppState, selectedBackground: Option<string>, error: Option<string>)

  const AnalysisFailed: string := "Failed to analyze the transcript. Please try again."
  const BackgroundsFailed: string := "Failed to generate background suggestions. Please try again."
  const StoryPartFailed: string := "Failed to generate the story part. Please try again."

  function Initial(): (app: App)
    ensures app.appState == Base(Ingest)
  {
    App(Base(Ingest), None, None)
  }

  /** `handleAnalysisStart`: on success the title-generation screen carries
      the ingest data and the analysis; on failure the ingest screen returns
      with the analysis error. The selected background is not touched. */
  function AnalysisStart(app: App, data: IngestData, outcome: Result<AnalysisData>): (r: App)
    ensures r.selectedBackground == app.selectedBackground
    ensures outcome.Success? ==> r.appState == Base(TitleGeneration(data, outcome.value)) && r.error.None?
    ensures outcome.Failure? ==> r.appState == Base(Ingest) && r.error == Some(AnalysisFailed)
  {
    match outcome
    case Success(analysis) => app.(appState := Base(TitleGeneration(data, analysis)), error := None)
    case Failure(_) => app.(appState := Base(Ingest), error := Some(AnalysisFailed))
  }

  /** `handleTitleApproved`: moves to the background prompt from wherever it
      is called, carrying its arguments. */
  function TitleApproved(app: App, approvedTitle: string, ingestData: IngestData, analysis: AnalysisData): (r: App)
    ensures r == app.(appState := Base(BackgroundPrompt(ingestData, analysis, approvedTitle)))
  {
    app.(appState := Base(BackgroundPrompt(ingestData, analysis, approvedTitle)))
  }

  /** `backgrounds[0]?.background ?? null` */
  function FirstBackground(backgrounds: seq<BackgroundSuggestion>): (r: Option<string>)
    ensures r.None? <==> backgrounds == []
    ensures r.Some? ==> r.value == backgrounds[0].background
  {
    if backgrounds == [] then None else Some(backgrounds[0].background)
  }

  /** `handleBackgroundsGenerate`: acts only from the background prompt. On
      success the suggestions screen keeps the ingest data and approved title
      and the first suggestion is selected; on failure only the error is set. */
  function BackgroundsGenerate(app: App, outcome: Result<seq<BackgroundSuggestion>>): (r: App)
    ensures !(app.appState.Base? && app.appState.screen.BackgroundPrompt?) ==> r == app
    ensures app.appState.Base? && app.appState.screen.BackgroundPrompt? ==>
      var s := app.appState.screen;
      if outcome.Success? then
        r == App(Base(Suggestions(s.ingestData, s.approvedTitle, outcome.value)), FirstBackground(outcome.value), None)
      else
        r == app.(error := Some(BackgroundsFailed))
  {
    if !(app.appState.Base? && app.appState.screen.BackgroundPrompt?) then app
    else
      var s := app.appState.screen;
      match outcome
      case Success(backgrounds) =>
        App(Base(Suggestions(s.ingestData, s.approvedTitle, backgrounds)), FirstBackground(backgrounds), None)
      case Failure(_) => app.(error := Some(BackgroundsFailed))
  }

  /** The suggestions screen's `onBackgroundSelect`. */
  function SelectBackground(app: App, background: string): (r: App)
    ensures r == app.(selectedBackground := Some(background))
  {
    app.(selectedBackground := Some(background))
  }

  /** JavaScript truthiness of `selectedBackground`: neither `null` nor "". */
  predicate HasSelection(selected: Option<string>)
  {
    selected.Some? && selected.value != ""
  }

  /** `handleProceedToStoryPrompt`: needs the suggestions screen and a
      selected background, which becomes the approved background. */
  function ProceedToStoryPrompt(app: App): (r: App)
    ensures !(app.appState.Base? && app.appState.screen.Suggestions? && HasSelection(app.selectedBackground)) ==> r == app
    ensures app.appState.Base? && app.appState.screen.Suggestions? && HasSelection(app.selectedBackground) ==>
      r == app.(appState := Base(StoryPrompt(app.appState.screen.ingestData, app.appState.screen.approvedTitle,
                                             app.selectedBackground.value)))
  {
    if app.appState.Base? && app.appState.screen.Suggestions? && HasSelection(app.selectedBackground) then
      var s := app.appState.screen;
      app.(appState := Base(StoryPrompt(s.ingestData, s.approvedTitle, app.selectedBackground.value)))
    else app
  }

  /** `(existingStory ? existingStory + '\n\n' : '') + storyPart` */
  function AppendPart(existingStory: string, storyPart: string): (story: string)
    ensures existingStory == [] ==> story == storyPart
    ensures existingStory != [] ==>
      |story| == |existingStory| + 2 + |storyPart| && story[..|existingStory|] == existingStory && story[|existingStory|..] == "\n\n" + storyPart
  {
    (if existingStory != [] then existingStory + "\n\n" else "") + storyPart
  }

  /** Whether story generation may act: the story prompt or the editor. */
  predicate CanGenerate(app: App)
  {
    app.appState.Base? && (app.appState.screen.StoryPrompt? || app.appState.screen.Editor?)
  }

  /** `handleGenerateStoryPart`: from the story prompt (count 0) or the
      editor (its count), a generated part lands in the editor with the
      story extended, the count one higher and the story complete from the
      second part on; a failure sets the error and keeps the screen. */
  function GenerateStoryPart(app: App, existingStory: string, outcome: Result<string>): (r: App)
    ensures !CanGenerate(app) ==> r == app
    ensures CanGenerate(app) && outcome.Failure? ==> r == app.(error := Some(StoryPartFailed))
    ensures CanGenerate(app) && outcome.Success? ==>
      var s := app.appState.screen;
      var count := if s.StoryPrompt? then 0 else s.editor.generationCount;
      && r.selectedBackground == app.selectedBackground
      && r.error.None?
      && r.appState.Base? && r.appState.screen.Editor?
      && var e := r.appState.screen.editor;
      && e.story == AppendPart(existingStory, outcome.value)
      && e.generationCount == count + 1
      && e.isStoryComplete == (count + 1 >= 2)
      && e.ingestData == (if s.StoryPrompt? then s.ingestData else s.editor.ingestData)
      && e.title == (if s.StoryPrompt? then s.approvedTitle else s.editor.title)
      && e.background == (if s.StoryPrompt? then s.approvedBackground else s.editor.background)
  {
    if !CanGenerate(app) then app
    else
      var s := app.appState.screen;
      var (title, background, ingestData, count) :=
        if s.StoryPrompt? then (s.approvedTitle, s.approvedBackground, s.ingestData, 0)
        else (s.editor.title, s.editor.background, s.editor.ingestData, s.editor.generationCount);
      match outcome
      case Failure(_) => app.(error := Some(StoryPartFailed))
      case Success(part) =>
        var newCount := count + 1;
        app.(appState := Base(Editor(EditorState(ingestData, title, background, AppendPart(existingStory, part),
                                                 newCount >= 2, newCount))),
             error := None)
  }

  /** `handleProceedToAssets`: only from the editor, which it saves. */
  function ProceedToAssets(app: App): (r: App)
    ensures !(app.appState.Base? && app.appState.screen.Editor?) ==> r == app
    ensures app.appState.Base? && app.appState.screen.Editor? ==>
      r == app.(appState := Base(YoutubeAssets(app.appState.screen.editor)))
  {
    if app.appState.Base? && app.appState.screen.Editor? then
      app.(appState := Base(YoutubeAssets(app.appState.screen.editor)))
    else app
  }

  /** The assets screen's `onBackToEditor`: the saved editor state returns. */
  function BackToEditor(app: App): (r: App)
    ensures !(app.appState.Base? && app.appState.screen.YoutubeAssets?) ==> r == app
    ensures app.appState.Base? && app.appState.screen.YoutubeAssets? ==>
      r == app.(appState := Base(Editor(app.appState.screen.previousEditorState)))
  {
    if app.appState.Base? && app.appState.screen.YoutubeAssets? then
      app.(appState := Base(Editor(app.appState.screen.previousEditorState)))
    else app
  }

  /** `handleRestart`: back to the ingest screen with nothing selected and no
      error, from any state. */
  function Restart(app: App): (r: App)
    ensures r == Initial()
  {
    App(Base(Ingest), None, None)
  }

  /** `handleBackToSuggestions`: from the editor, the analysis is run again
      on the editor's ingest data. */
  function BackToSuggestions(app: App, outcome: Result<AnalysisData>): (r: App)
    ensures !(app.appState.Base? && app.appState.screen.Editor?) ==> r == app
    ensures app.appState.Base? && app.appState.screen.Editor? ==>
      r == AnalysisStart(app, app.appState.screen.editor.ingestData, outcome)
  {
    if app.appState.Base? && app.appState.screen.Editor? then
      AnalysisStart(app, app.appState.screen.editor.ingestData, outcome)
    else app
  }

  /** `openSettings`: saves the current screen; a no-op on settings. */
  function OpenSettings(app: App): (r: App)
    ensures app.appState.Settings? ==> r == app
    ensures app.appState.Base? ==> r == app.(appState := Settings(app.appState.screen))
  {
    if app.appState.Settings? then app else app.(appState := Settings(app.appState.screen))
  }

  /** The settings screen's `onClose`: the saved screen returns. */
  function CloseSettings(app: App): (r: App)
    ensures app.appState.Base? ==> r == app
    ensures app.appState.Settings? ==> r == app.(appState := Base(app.appState.previousState))
  {
    if app.appState.Settings? then app.(appState := Base(app.appState.previousState)) else app
  }

  /** Opening then closing settings restores the state exactly; opening
      twice is opening once. */
  lemma SettingsRoundTrip(app: App)
    ensures CloseSettings(OpenSettings(app)) == (if app.appState.Settings? then CloseSettings(app) else app)
    ensures OpenSettings(OpenSettings(app)) == OpenSettings(app)
  {
  }

  /** Going to the assets screen and back restores the editor exactly. */
  lemma AssetsRoundTrip(app: App)
    requires app.appState.Base? && app.appState.screen.Editor?
    ensures BackToEditor(ProceedToAssets(app)) == app
  {
  }

  /** The events a user (or a settled service call) can cause. */
  datatype Event =
    | StartAnalysis(data: IngestData, analysisOutcome: Result<AnalysisData>)
    | ApproveTitle(approvedTitle: string, ingestData: IngestData, analysis: AnalysisData)
    | GenerateBackgrounds(backgrounds: Result<seq<BackgroundSuggestion>>)
    | PickBackground(background: string)
    | ApproveBackground
    | GeneratePart(existingStory: string, part: Result<string>)
    | GoToAssets
    | ReturnToEditor
    | RestartFlow
    | RedoAnalysis(redoOutcome: Result<AnalysisData>)
    | OpenSettingsScreen
    | CloseSettingsScreen

  function Step(app: App, e: Event): (r: App)
  {
    match e
    case StartAnalysis(data, analysis) => AnalysisStart(app, data, analysis)
    case ApproveTitle(t, d, a) => TitleApproved(app, t, d, a)
    case GenerateBackgrounds(b) => BackgroundsGenerate(app, b)
    case PickBackground(b) => SelectBackground(app, b)
    case ApproveBackground => ProceedToStoryPrompt(app)
    case GeneratePart(existing, part) => GenerateStoryPart(app, existing, part)
    case GoToAssets => ProceedToAssets(app)
    case ReturnToEditor => BackToEditor(app)
    case RestartFlow => Restart(app)
    case RedoAnalysis(a) => BackToSuggestions(app, a)
    case OpenSettingsScreen => OpenSettings(app)
    case CloseSettingsScreen => CloseSettings(app)
  }

  function Run(app: App, events: seq<Event>): (r: App)
    decreases |events|
  {
    if events == [] then app else Run(Step(app, events[0]), events[1..])
  }

  /** An editor state as the handlers build it: at least one part, complete
      exactly from the second part on. */
  predicate EditorWellFormed(e: EditorState)
  {
    e.generationCount >= 1 && e.isStoryComplete == (e.generationCount >= 2)
  }

  predicate ScreenWellFormed(s: BaseState)
  {
    match s
    case Editor(e) => EditorWellFormed(e)
    case YoutubeAssets(e) => EditorWellFormed(e)
    case StoryPrompt(_, _, background) => background != ""
    case _ => true
  }

  /** Every editor state reachable anywhere, on screen, saved behind the
      assets screen or behind settings, is well formed, and an approved
      background is never empty. */
  predicate Reachable(app: App)
  {
    match app.appState
    case Base(s) => ScreenWellFormed(s)
    case Settings(s) => ScreenWellFormed(s)
  }

  lemma StepKeepsReachable(app: App, e: Event)
    requires Reachable(app)
    ensures Reachable(Step(app, e))
  {
  }

  lemma {:induction false} RunKeepsReachable(app: App, events: seq<Event>)
    requires Reachable(app)
    ensures Reachable(Run(app, events))
    decreases |events|
  {
    if events != [] {
      StepKeepsReachable(app, events[0]);
      RunKeepsReachable(Step(app, events[0]), events[1..]);
    }
  }

  /** From the start, whatever happens, every editor has generated at least
      one part and is complete exactly when it has generated two or more. */
  lemma ReachableFromInitial(events: seq<Event>)
    ensures Reachable(Run(Initial(), events))
  {
    RunKeepsReachable(Initial(), events);
  }
}
