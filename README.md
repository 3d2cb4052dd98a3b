# Party game rules in Dafny

This project models the game rules of a three-stage browser party game, without its React rendering:

- **Stage One** is a matching game. Two columns show the avatars and the icons of five fixed pairs, each column shuffled on its own. The player picks one item per column. A correct pair is marked as matched. A wrong pair resets the whole board: every match is lost and both columns are reshuffled. Matching all five pairs stops the timer and records the finish time.
- **Password gate.** A four-character field whose submit compares the input with `8245`. A wrong entry clears the field and raises an error flag.
- **Stage Two** is a sequencing game. The goods A to E are moved one at a time from a shuffled pool into a five-place slate. A full slate is scored by how many places hold the right good for the order A, B, C, D, E. A full score wins; any other score can be retried with a fresh shuffle.
- **The orchestrator** selects which of the three screens is shown, and moves the stage forward on each screen's completion callback.

## Model structure

- Each component is a `class` whose fields are its state variables. Each event handler is a method with `modifies` and `ensures` clauses that state the whole new state.
- Each stage class (`StageOne.Game`, `StageTwo.Game`, `PasswordGate.Gate`) has a `Valid()` invariant that every handler preserves. The orchestrator's single stage field needs none.
- `initGame` (components/StageOne.tsx:68-92) does not touch the timer, so a reset after a mistake leaves it running as it was.
- The one-second timer tick and the expiry of the mistake and error flashes are explicit event methods: `Tick`, `FlashExpire`, `ExpireError`.
- The shuffle utility is a nondeterministic choice of any permutation (`Shuffle.Shuffle`).
- The pure parts of each stage are functions with lemmas about them. These are the column construction, the lookup by id, the score and the pool filter.
- Each stage has a client method that proves the stage can be won from a fresh board.

Files:

- `optional.dfy`: the `Option` type.
- `shuffle.dfy`: the shuffle as an arbitrary permutation.
- `stage_one.dfy`: the matching stage.
- `stage_two.dfy`: the sequencing stage.
- `password_gate.dfy`: the gate.
- `app.dfy`: the stage selector.

## Model

| member | source | states |
|---|---|---|
| Shuffle.Shuffle | components/StageTwo.tsx:40 | the shuffled list is a permutation of its input (same multiset of elements) |
| StageOne.PairIdsCount | components/StageOne.tsx:18-54 | the pair table has five entries with five distinct ids |
| StageOne.IdStringInjective | components/StageOne.tsx:69-85 | the `left-`/`right-` id strings of distinct buttons differ, so a button is identified by its id string |
| StageOne.ColumnsFollowPairs | components/StageOne.tsx:69-85 | before shuffling, item i of the left column is the avatar `left-`+id of pair i and item i of the right column the icon `right-`+id, both with matchId = pair i's id |
| StageOne.CorrectPairsShareMatchId | components/StageOne.tsx:69-85 | a left and a right item share a matchId exactly when they were built from the same pair |
| StageOne.LeftItemFromPair | components/StageOne.tsx:69-87 | every item of a shuffled left column is the avatar of one of the five pairs |
| StageOne.RightItemFromPair | components/StageOne.tsx:78-88 | every item of a shuffled right column is the icon of one of the five pairs |
| StageOne.ShuffledColumnCoversPairs | components/StageOne.tsx:87-88 | a shuffled column still carries every pair id, and no other |
| StageOne.Find | components/StageOne.tsx:116-117 | the lookup by id returns an item of the column with that id, and returns nothing exactly when no item has it |
| StageOne.FindInLeftColumn | components/StageOne.tsx:116 | in a shuffled left column, `left-`+p is found and is the avatar of pair p |
| StageOne.FindInRightColumn | components/StageOne.tsx:117 | in a shuffled right column, `right-`+p is found and is the icon of pair p |
| StageOne.FullSizeIffAllMatched | components/StageOne.tsx:128 | for a set of pair ids, reaching size 5 is the same as holding every pair id, so the size test is the "all matched" test |
| StageOne.Game.constructor | components/StageOne.tsx:57-96 | on mount, the timer is at 0 and running, there is no finish time and no flash, both columns are permutations of the built columns, nothing is matched and nothing is selected |
| StageOne.Game.InitGame | components/StageOne.tsx:68-92 | the columns are fresh permutations of the built columns, the matched set is empty and both selections are cleared; timer, finish time and flash are untouched |
| StageOne.Game.Reset | components/StageOne.tsx:108-113 | raises the mistake flag and does everything `InitGame` does, leaving the timer alone |
| StageOne.Game.AcceptPair | components/StageOne.tsx:119-131 | the matched set becomes the old set plus exactly that pair id, selections are cleared, columns are unchanged; when all five are matched the timer stops and the finish time is the current elapsed time, otherwise the timer is untouched |
| StageOne.Game.CheckMatch | components/StageOne.tsx:115-136 | a correct pair is accepted as above; any other pair empties the matched set, reshuffles both columns, clears both selections and raises the flag, whatever was matched before, without touching elapsed time or the timer |
| StageOne.Game.LeftClick | components/StageOne.tsx:138-145 | a click on an already matched item changes nothing; with no right selection it only sets the left selection; otherwise the pair is checked as in `CheckMatch`; the invariant holds after it |
| StageOne.Game.RightClick | components/StageOne.tsx:147-154 | the same, mirrored |
| StageOne.Game.Tick | components/StageOne.tsx:98-106 | elapsed time grows by exactly 1 while the timer runs and not at all once the win has stopped it |
| StageOne.Game.FlashExpire | components/StageOne.tsx:110 | the mistake flag is lowered and nothing else changes |
| StageOne.WinByMatchingEachPair | components/StageOne.tsx:115-154 | from a fresh board, clicking the avatar and then the icon of each pair in turn ends with a recorded finish time |
| StageTwo.Score | components/StageTwo.tsx:68-74 | the score is at most the slate length, and equals it exactly when every place holds the id the correct sequence has there |
| StageTwo.FullScoreIffCorrect | components/StageTwo.tsx:78 | a five-item slate scores 5 exactly when its ids are A, B, C, D, E |
| StageTwo.ScoreOfSwappedMiddle | components/StageTwo.tsx:68-74 | the slate A, C, B, D, E scores 3 |
| StageTwo.Without | components/StageTwo.tsx:59 | the filtered pool holds no item with the removed id, only items of the pool, and is no longer than the pool |
| StageTwo.WithoutKeepsOthers | components/StageTwo.tsx:59 | the filter keeps every item with another id exactly as often as the pool holds it |
| StageTwo.ItemsDistinct | components/StageTwo.tsx:15-21 | the five goods have distinct ids and each occurs once |
| StageTwo.WithoutRemovesOne | components/StageTwo.tsx:59 | filtering by an id that exactly one item of the pool carries removes exactly that item |
| StageTwo.EachOnceIsGoods | components/StageTwo.tsx:15-21 | holding each good exactly once is the same as holding exactly the five goods of the table, as a multiset |
| StageTwo.EveryItemIsAGood | components/StageTwo.tsx:15-21 | every item value is one of the five goods of the table |
| StageTwo.ShuffleHoldsEachOnce | components/StageTwo.tsx:40 | a shuffle of the goods in the pool, with an empty slate, holds each good once |
| StageTwo.MoveKeepsGoods | components/StageTwo.tsx:57-59 | moving a pool item to the slate keeps pool plus slate a permutation of the five goods, and the slate holds at most five |
| StageTwo.ItemsSpellCorrectSequence | components/StageTwo.tsx:15-23 | the goods in table order spell the correct sequence |
| StageTwo.Game.constructor | components/StageTwo.tsx:26-41 | on mount, the pool is a permutation of the five goods, the slate is empty, no score is shown, the stage is not finished, and the timer is at 0 and running |
| StageTwo.Game.CheckResult | components/StageTwo.tsx:68-83 | the shown score is the slate's score; completion is signalled exactly on a full score, which also finishes the stage and stops the timer |
| StageTwo.Game.Select | components/StageTwo.tsx:54-65 | with a full slate or a score showing, nothing changes, whatever item is passed; otherwise the item is appended to the slate and removed by id from the pool; the score appears exactly when the slate reaches five, and completion is signalled exactly when the slate is A, B, C, D, E; the invariant holds after it |
| StageTwo.Game.MoveToSlate | components/StageTwo.tsx:57-59 | the slate gains the item at its end, the pool loses exactly that item, and pool plus slate remain a permutation of the goods |
| StageTwo.Game.Retry | components/StageTwo.tsx:86-90 | the slate is empty, the pool is a fresh permutation of all five goods and the score is cleared; elapsed time and the timer are unchanged |
| StageTwo.Game.Tick | components/StageTwo.tsx:44-51 | elapsed time grows by exactly 1 while the timer runs and not at all once the win has stopped it |
| StageTwo.WinInOrder | components/StageTwo.tsx:54-83 | from a fresh board, picking A, B, C, D, E in turn signals completion at the fifth pick |
| PasswordGate.Capped | components/PasswordGate.tsx:43-45 | the field keeps at most four characters, always a prefix of what was entered, and all of it when it is short enough |
| PasswordGate.CappedIdempotent | components/PasswordGate.tsx:43 | cutting the text to four characters twice is the same as doing it once |
| PasswordGate.Gate.constructor | components/PasswordGate.tsx:11-12 | on mount the field is empty and no error is shown |
| PasswordGate.Gate.Edit | components/PasswordGate.tsx:43-45 | the field holds the entered text cut to four characters; the error flag is untouched |
| PasswordGate.Gate.Submit | components/PasswordGate.tsx:14-23 | success is signalled exactly when the input equals `8245` character for character, and then nothing changes; otherwise the field is cleared and the error flag raised |
| PasswordGate.Gate.ExpireError | components/PasswordGate.tsx:21 | the error flag is lowered and the field is untouched |
| PasswordGate.UnlockAfterAttempts | components/PasswordGate.tsx:14-23 | after any sequence of earlier attempts, entering and submitting `8245` still succeeds: there is no lockout |
| App.ActiveScreenOneToOne | App.tsx:40-50 | each stage value shows exactly one screen, and different stages show different screens |
| App.AfterCompletion | App.tsx:40-50 | a completion never moves the stage back, moves it exactly one step unless it is the last stage, and leaves only the last stage unchanged |
| App.CompletionsNeverGoBack | App.tsx:7-11 | after any number of completions, the stage is at or after where it started |
| App.CompletionsReachStageTwo | App.tsx:41-49 | two or more completions from any stage end in Stage Two |
| App.StageTwoStays | App.tsx:49 | no number of completions leaves Stage Two |
| App.Orchestrator.constructor | App.tsx:14 | the game starts at Stage One |
| App.Orchestrator.StageOneCompleted | App.tsx:41 | Stage One's completion moves the stage to the password gate |
| App.Orchestrator.PasswordAccepted | App.tsx:45 | the gate's success moves the stage to Stage Two |
| App.Orchestrator.StageTwoCompleted | App.tsx:49 | Stage Two's completion changes nothing |

## Left out

- Rendering is not modelled: JSX, styling, icons, labels, colours, CSS animations and the header texts. The item labels and colours play no part in the rules.
- Wall-clock scheduling is not modelled: `setInterval` and `setTimeout`. A timer tick and the expiry of the mistake flash and of the error flag are event methods that may be called at any point.
- The timer's teardown when a stage is replaced is not modelled, because a replaced stage's object is simply no longer used.
- The shuffle's implementation and its distribution: the utility file is not part of this model. `Shuffle.Shuffle` may return any permutation; uniform randomness is not modelled.
- `formatTime` is not part of this model. Stage One keeps its finish time as elapsed seconds rather than the `MM:SS` string.
- `window.location.reload()` (components/StageTwo.tsx:106) and the footer's current year (App.tsx:56) are browser I/O and are not modelled.
- React semantics are not modelled: batched state updates, stale closures and effect dependency lists. Each handler is one atomic transition over the current state.
- Stage One's columns are empty for the moment between mount and the effect that calls `initGame`; the constructor runs `initGame` directly. Stage Two's pool is likewise empty until its effect shuffles the goods (components/StageTwo.tsx:30, 39-41); its constructor shuffles the pool directly.
- Ids are an enumeration rather than strings: Stage One's pair ids, button ids and Stage Two's item ids. `StageOne.Name` and `StageOne.IdString` give each Stage One id's string, and `StageOne.IdStringInjective` shows that comparing the strings is the same as comparing the enumeration values; Stage Two's ids A to E are the constructor names themselves. Because a `set<PairId>` can only hold the five pair ids, the rule that the matched set is a subset of the pair ids holds by the type rather than by anything the handlers do.
- StageOne.Game.LeftClick: requires the clicked id to be an item of the left column, because the only caller is the button rendered for each left item. The same holds for `RightClick`, and for `StageTwo.Game.Select` with the pool whenever a selection can be accepted.
- StageTwo.Game.Retry: requires the stage not to be finished, because the retry button is only rendered on the unfinished screen.
- App.Orchestrator.StageOneCompleted: requires the stage to be Stage One, because the callback is handed only to the Stage One screen. The same holds for `PasswordAccepted` and `StageTwoCompleted` with their screens.
- PasswordGate.Gate.Edit: the field's `maxLength` is modelled as cutting the entered text to its first four characters. The browser in fact refuses further keystrokes; both leave at most four characters.
- The Stage One finish screen's button calls `onComplete`; it is modelled by `App.Orchestrator.StageOneCompleted`. Stage Two's `onComplete` call is the `completed` result of `Select`.
- vite.config.ts is build configuration and is not modelled.
