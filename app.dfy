/**
 * The stage orchestrator: one stage value selects which of the three
 * screens is shown, and each screen's completion callback moves it on.
 */
module App {
  datatype GameStage = StageOne | Password | StageTwo

  /** The enum's numeric value, which orders the stages. */
  function Rank(stage: GameStage): nat {
    match stage
    case StageOne => 0
    case Password => 1
    case StageTwo => 2
  }

  /** The three screens the main area can show. */
  datatype Screen = MatchingGame | PasswordPrompt | SequencingGame

  /** The one screen rendered for a stage value. */
  function ActiveScreen(stage: GameStage): Screen {
    match stage
    case StageOne => MatchingGame
    case Password => PasswordPrompt
    case StageTwo => SequencingGame
  }

  /** Each screen belongs to exactly one stage value. */
  lemma ActiveScreenOneToOne(a: GameStage, b: GameStage)
    ensures ActiveScreen(a) == ActiveScreen(b) <==> a == b
  {
  }

  /**
   * The stage after the active screen reports completion: matching leads to
   * the password, the password to sequencing, and sequencing stays put.
   */
  function AfterCompletion(stage: GameStage): (r: GameStage)
    ensures Rank(stage) <= Rank(r)
    ensures r == stage <==> stage == StageTwo
    ensures r != stage ==> Rank(r) == Rank(stage) + 1
  {
    match stage
    case StageOne => Password
    case Password => StageTwo
    case StageTwo => StageTwo
  }

  /** The stage after `n` completions in a row. */
  function AfterCompletions(stage: GameStage, n: nat): GameStage
    decreases n
  {
    if n == 0 then stage else AfterCompletions(AfterCompletion(stage), n - 1)
  }

  /** However many completions happen, the stage never moves back. */
  lemma {:induction false} CompletionsNeverGoBack(stage: GameStage, n: nat)
    ensures Rank(stage) <= Rank(AfterCompletions(stage, n))
    decreases n
  {
    if n > 0 {
      CompletionsNeverGoBack(AfterCompletion(stage), n - 1);
    }
  }

  /** Two completions from any stage reach sequencing, which no further completion leaves. */
  lemma {:induction false} CompletionsReachStageTwo(stage: GameStage, n: nat)
    requires n >= 2
    ensures AfterCompletions(stage, n) == StageTwo
    decreases n
  {
    if n == 2 {
      assert AfterCompletions(stage, n) == AfterCompletion(AfterCompletion(stage));
    } else {
      CompletionsReachStageTwo(AfterCompletion(stage), n - 1);
    }
  }

  /** Sequencing is terminal. */
  lemma {:induction false} StageTwoStays(n: nat)
    ensures AfterCompletions(StageTwo, n) == StageTwo
  {
    if n > 0 {
      StageTwoStays(n - 1);
    }
  }

  /** The state of the App component: the current stage. */
  class Orchestrator {
    var stage: GameStage

    constructor ()
      ensures stage == StageOne
    {
      stage := StageOne;
    }

    /** Stage One's `onComplete`, passed only to the matching screen. */
    method StageOneCompleted()
      requires stage == StageOne
      modifies this
      ensures stage == Password == AfterCompletion(old(stage))
    {
      stage := Password;
    }

    /** The gate's `onSuccess`, passed only to the password screen. */
    method PasswordAccepted()
      requires stage == Password
      modifies this
      ensures stage == StageTwo == AfterCompletion(old(stage))
    {
      stage := StageTwo;
    }

    /** Stage Two's `onComplete`, which does nothing. */
    method StageTwoCompleted()
      requires stage == StageTwo
      modifies this
      ensures unchanged(this)
      ensures stage == AfterCompletion(old(stage))
    {
    }
  }
}
