# howdoyouspell — the rules of the spelling game, in Dafny

howdoyouspell is a browser spelling game for young children, built on the Phaser engine. A
game shows five characters, one after the other. For each character the child spells its name
by clicking letter tiles, or by typing when the keyboard is enabled. The letter grid mixes the
letters of the name with random distractor letters, sixteen tiles in all. Three wrong letters in
a row highlight the next correct letter. Each round is scored from the time it took. At the
end, the final score is the average of the round scores, and it is stored when it beats the
high score.

This project models the rules of that game. Each Dafny module stands for one part of the
JavaScript source:

- `Roster` (`roster.dfy`, js/scenes/Preload.js): the list of character image files and the
  character records built from it.
- `Settings` (`settings.dfy`, js/scenes/Settings.js and js/main.js): the global settings object,
  its defaults, and the settings screen as a class whose two click handlers update it.
- `WordFormat` (`wordformat.dfy`): how the case flags turn a character's name into the target
  word.
- `CharacterPool` (`characterpool.dfy`): drawing a character without replacement, with the one
  excluded name.
- `LetterGrid` (`lettergrid.dfy`): the letters of a round.
  - The distractor loop is a method.
  - The Fisher–Yates shuffle is a method that works in place on an `array`.
  - Each is proved against a function that specifies it.
- `Scoring` (`scoring.dfy`): the round score, the final mean and the high-score rule.
- `GameScene` (`game.dfy`): the scene as a class `Game`.
  - The fields are the scene's own (`currentWord`, `targetWord`, `consecutiveWrongAttempts`,
    `hintLetters`, `characterScores`, ...).
  - The methods are its event handlers.
  - Each method states its new state through the functions above.
- `Text`, `Randomness` and `Wrappers`: shared helpers.
  - ASCII case conversion.
  - "no repeated element".
  - `Math.floor(Math.random() * n)`.
  - `Option`.

Inputs that come from outside the program are parameters of the model:

- Each `Math.random()` value is a `real` in [0, 1).
  - The shuffle takes a sequence of them.
  - A character draw takes one.
- `Date.now() - startTime` is an integer number of milliseconds.
- The high score read from IndexedDB is an `Option<int>`.
- The global `window.gameSettings` is a `GameSettings` value, given to each operation that
  reads it.

A letter button is an object in the source, so `hintLetters.includes(button)` compares
identities. The model names a button by `ButtonId(generation, slot)`: the grid it belongs to
and its place in that grid. A button from an earlier grid therefore never equals one of the
current grid.

## Behaviour of the code worth knowing

- Mistakes are never counted. `this.mistakes` is reset (js/scenes/Game.js:231, 2251) but never
  increased, so a round score never loses the 500 points per mistake. `Game.Valid` includes
  `mistakes == 0`, and `ProcessWordComplete` scores every round with zero mistakes.
- Letters are compared case-sensitively.
  - The distinct letters of the word are computed with a `Set` of characters (Game.js:530).
  - Distractors are capitals compared with those letters exactly (Game.js:542).
  - As a result, in lowercase mode a distractor such as 'O' becomes 'o' and can repeat a letter
    of the word: `LowercaseGridRepeatsGlyph` and `MarioAdmitsCapitalO`.
  - In mixed case, "Anpanman" gives tiles for both 'A' and 'a': `MixedModeKeepsBothCases`.
  - "No glyph appears twice" holds only with the lowercase flag clear (`GridGlyphsDistinct`).
    Even ignoring case, it holds only in uppercase mode (`UppercaseGridLettersDistinct`).
- The excluded name is the fixed string "naruto" (Game.js:482), not a configurable list.
- `hintLetters` is not cleared when a new character starts. Only `init` (Game.js:20) and
  `cleanupGame` clear it.
  - `StartNewCharacter` keeps it.
  - `Create` and `ResetGame` start from an empty list.
- With an empty roster, `selectRandomCharacter` returns without changing anything.
  - If a character was already chosen, the next round is started with it again (Game.js:132).
  - Otherwise `startNewCharacter` stops with no buttons.
- When every character of the roster is excluded, the used list is cleared and the pick reads
  the name of `undefined`. That throws, and the scene returns to the main menu (Game.js:243).
  This is the `NoCandidate` / `ReturnedToMenu` outcome.
- The hint counter is reset after `showHint` returns (Game.js:901). `CountWrongLetter` resets it
  just before the hint pass. The pass does not read the counter, so the resulting state is the
  same.

## Model

| member | source | states |
|---|---|---|
| Text.Upper | js/scenes/Game.js:818 | toUpperCase keeps the length and maps each character to its capital |
| Text.Lower | js/scenes/Game.js:481-483 | toLowerCase keeps the length and maps each character to its small letter |
| Text.CaseFold | js/scenes/Game.js:818 | a letter and its other-case partner compare equal after either conversion |
| Randomness.RandomIndex | js/scenes/Game.js:498 | Math.floor(Math.random() * n) is a valid index into n elements |
| Randomness.IndexValue | js/scenes/Game.js:498 | every index below n is picked by some Math.random() value |
| Roster.Stem | js/scenes/Preload.js:77 | split('.')[0] is the longest prefix without a dot, ending just before the first dot |
| Roster.GenerateCharactersArray | js/scenes/Preload.js:74-86 | one record per file, in order, with the upper-cased stem as name, the file as image and "Character NAME" as description |
| Roster.ShippedStemsAreStems | js/scenes/Preload.js:4-8 | the stems of the eleven shipped files are the eleven character names |
| Roster.ShippedInitialsIncrease | js/scenes/Preload.js:4-8 | the shipped names are non-empty, with strictly increasing initials |
| Roster.ShippedStems | js/scenes/Preload.js:4-8 | the shipped stems are lower-case and no two files share one |
| Roster.StemOfPng | js/scenes/Preload.js:77 | the stem of "x.png" is x |
| Roster.LowerOfUpper | js/scenes/Preload.js:77 | lower-casing an upper-cased lower-case stem gives the stem back |
| Roster.TextureKeysMatch | js/scenes/Preload.js:55-61 | each character's name, lower-cased as Game.js:141 does, is the key its image was loaded under |
| Settings.DefaultSettings | js/main.js:6-11 | keyboard off, uppercase on, lowercase off at start-up |
| Settings.EmptySettings | js/scenes/Settings.js:84-86 | a settings object created by a click has every flag off |
| Settings.InitialCaseIndex | js/scenes/Settings.js:100-102 | the option shown is 0 exactly when uppercase is set and 1 exactly when only lowercase is; uppercase wins |
| Settings.NextCaseIndex | js/scenes/Settings.js:134 | a click moves to a valid option |
| Settings.WithCaseIndex | js/scenes/Settings.js:139-148 | after a click uppercase is set iff option 0, lowercase iff option 1, never both, and the keyboard flag is kept |
| Settings.ThreeClicksRestore | js/scenes/Settings.js:134 | three clicks bring the index back to where it started |
| Settings.ReopenShowsSelection | js/scenes/Settings.js:99-149 | the flags a click writes make a reopened screen show the option clicked |
| Settings.SettingsScreen.constructor | js/scenes/Settings.js:100-102 | opening the screen keeps the settings and shows the option their flags select |
| Settings.SettingsScreen.ClickCase | js/scenes/Settings.js:133-149 | advances the index mod 3, creates the settings if missing, and writes the flags of the new option and nothing else |
| Settings.SettingsScreen.ClickKeyboard | js/scenes/Settings.js:83-89 | creates the settings if missing and negates keyboardEnabled, nothing else |
| Settings.ThreeCaseClicks | js/scenes/Settings.js:133-149 | three clicks on an open screen restore the option shown, and the written flags select it again |
| WordFormat.ModeOf | js/scenes/Game.js:504-513 | uppercase is played iff its flag is set; lowercase iff only its flag is; mixed otherwise |
| WordFormat.OptionIndex | js/scenes/Settings.js:99 | each case mode has an option of the case control |
| WordFormat.TargetWord | js/scenes/Game.js:504-513 | the target word of a name in a mode; TargetWordSpellsName gives its length, letters and case |
| WordFormat.TargetWordSpellsName | js/scenes/Game.js:504-513 | the target word has the name's length, equals it ignoring case, and is all capitals, all small letters, or a capital and small letters, per mode |
| WordFormat.ScreenAgreesWithGame | js/scenes/Settings.js:100-102 | the option the screen shows is the mode the game plays |
| WordFormat.ClickSelectsMode | js/scenes/Settings.js:139-148 | the flags a click writes make the game play the clicked option's mode |
| WordFormat.DefaultIsUppercase | js/main.js:6-11 | with the default settings names are spelled in capitals |
| CharacterPool.Candidates | js/scenes/Game.js:481-483 | filtering never makes the list longer |
| CharacterPool.Unused | js/scenes/Game.js:486-488 | filtering never makes the list longer |
| CharacterPool.Key | js/scenes/Game.js:487 | the lower-cased name a character is remembered under in the used list |
| CharacterPool.DrawCharacter | js/scenes/Game.js:474-501 | the outcome of selectRandomCharacter for one random value; its lemmas give when it fails, what it draws and the used list after |
| CharacterPool.CandidatesMembers | js/scenes/Game.js:481-483 | a character is a candidate iff it is in the roster and its lower-cased name is not "naruto" |
| CharacterPool.UnusedMembers | js/scenes/Game.js:486-488 | a candidate is available iff its lower-cased name is not in the used list |
| CharacterPool.DrawFailsOnlyWithoutCandidates | js/scenes/Game.js:474-498 | a draw does nothing iff the roster is empty, and fails iff every character is excluded |
| CharacterPool.DrawnIsFreshCandidate | js/scenes/Game.js:485-501 | the drawn character is in the roster and not "naruto"; it is unused unless all were used, in which case the list restarts with it, otherwise its key is appended |
| CharacterPool.CandidateKeyOf | js/scenes/Game.js:481-483 | every roster entry other than "naruto" has a candidate key |
| CharacterPool.AvailableCanBeDrawn | js/scenes/Game.js:486-501 | every available character is drawn by some Math.random() value, which appends its key to the used list |
| CharacterPool.ExhaustedCanDraw | js/scenes/Game.js:490-501 | once every candidate is used, every candidate is drawn by some Math.random() value, and the used list restarts with its key alone |
| CharacterPool.DrawKeepsUsedWellFormed | js/scenes/Game.js:485-501 | the used list stays a list of candidate keys without repetition, never longer than the number of candidates |
| CharacterPool.UsedBound | js/scenes/Game.js:486-501 | a list of distinct keys from a set is no longer than the set |
| CharacterPool.OneExcluded | js/scenes/Game.js:481-483 | a roster with exactly one excluded entry has one candidate fewer |
| CharacterPool.CandidatesStep | js/scenes/Game.js:481-483 | the filter keeps order and appends each kept entry |
| CharacterPool.ShippedKeys | js/scenes/Preload.js:74-86 | each shipped character is remembered under its file's stem |
| CharacterPool.ExcludedByInitial | js/scenes/Game.js:481-483 | in a roster whose keys have strictly increasing initials only the entry named "naruto" is excluded |
| CharacterPool.ShippedKeyFacts | js/scenes/Preload.js:4-8 | the shipped keys are non-empty stems, and the eighth is "naruto" |
| CharacterPool.EighthIsExcluded | js/scenes/Preload.js:4-8 | the eighth shipped name is "naruto" |
| CharacterPool.ShippedExclusion | js/scenes/Game.js:481-483 | in the shipped roster exactly the eighth character is excluded |
| CharacterPool.ShippedRosterSuffices | js/scenes/Game.js:481-483 | the shipped roster leaves ten candidates, at least the five rounds of a game |
| CharacterPool.ShippedKeysDistinct | js/scenes/Preload.js:4-8 | no two shipped characters share a key |
| LetterGrid.DistinctLetters | js/scenes/Game.js:530 | the distinct letters repeat nothing and all come from the word |
| LetterGrid.DistinctLettersMembers | js/scenes/Game.js:530 | a character is a distinct letter iff it occurs in the word |
| LetterGrid.DistinctLettersOfDistinct | js/scenes/Game.js:530 | a word without repeated characters is its own list of distinct letters |
| LetterGrid.FirstIndex | js/scenes/Game.js:530 | the position found holds the character and none before it does |
| LetterGrid.DistinctLettersInFirstOccurrenceOrder | js/scenes/Game.js:530 | the distinct letters come in the order of their first occurrence |
| LetterGrid.FirstIndexInPrefix | js/scenes/Game.js:530 | extending a string does not move a first occurrence |
| LetterGrid.NeededDistractors | js/scenes/Game.js:538 | letters plus distractors make max(16, letters) |
| LetterGrid.Admissible | js/scenes/Game.js:542 | a distractor list the loop accepts: distinct capitals, none equal to a target letter |
| LetterGrid.PickDistractors | js/scenes/Game.js:540-545 | the loop stops with exactly the needed number of distinct capitals, none a target letter |
| LetterGrid.AlphabetCodes | js/scenes/Game.js:533 | the alphabet is the 26 capitals in order |
| LetterGrid.FreeLetterExists | js/scenes/Game.js:540-545 | while fewer than 26 letters are ruled out some capital is still admissible, so the loop can finish |
| LetterGrid.Swap | js/scenes/Game.js:2398 | a swap keeps the length |
| LetterGrid.ShufflePicks | js/scenes/Game.js:2393 | the k-th pick is below the number of elements still to shuffle |
| LetterGrid.Shuffled | js/scenes/Game.js:2386-2401 | the Fisher–Yates result for given picks; ShuffledIsPermutation and ShuffledKeepsNoDup state what it keeps |
| LetterGrid.ShuffleInPlace | js/scenes/Game.js:2386-2401 | the array afterwards is the Fisher–Yates shuffle of its old contents with the picks the random values give |
| LetterGrid.ShuffledIsPermutation | js/scenes/Game.js:2386-2401 | the shuffle keeps the length and the multiset of elements |
| LetterGrid.SwapIsPermutation | js/scenes/Game.js:2398 | one swap keeps the multiset of elements |
| LetterGrid.ShuffledKeepsNoDup | js/scenes/Game.js:2386-2401 | the shuffle has a repeated element iff its input does |
| LetterGrid.SwapKeepsNoDup | js/scenes/Game.js:2398 | one swap has a repeated element iff its input does |
| LetterGrid.LowerCommutesWithShuffle | js/scenes/Game.js:548-554 | lower-casing after the shuffle gives the shuffle of the lower-cased letters |
| LetterGrid.TileCount | js/scenes/Game.js:530-538 | a round has max(16, distinct letters) tiles |
| LetterGrid.TileCountAtMost | js/scenes/Game.js:530-538 | the tile count is bounded by 16 and the word's length |
| LetterGrid.Tiles | js/scenes/Game.js:547-554 | the round's tiles: target letters then distractors, shuffled, lower-cased in lowercase mode; the grid lemmas state their count and contents |
| LetterGrid.GenerateLetters | js/scenes/Game.js:529-554 | the needed number of admissible distractors, and the tiles they and the word's letters shuffle into, lower-cased in lowercase mode |
| LetterGrid.GridSizeIsSixteen | js/scenes/Game.js:536-549 | the tiles number max(16, distinct letters) |
| LetterGrid.GridHasEveryLetter | js/scenes/Game.js:529-554 | every character of the word is on a tile, lower-cased in lowercase mode |
| LetterGrid.GridGlyphsDistinct | js/scenes/Game.js:540-549 | with the lowercase flag clear no glyph is on two tiles |
| LetterGrid.NoLowerTiles | js/scenes/Game.js:533-549 | with the lowercase flag clear, a word without small letters gets no small-letter tile |
| LetterGrid.UppercaseGridLettersDistinct | js/scenes/Game.js:529-549 | in uppercase mode no two tiles show the same letter even ignoring case |
| LetterGrid.LowercaseTilesDistinct | js/scenes/Game.js:548-554 | in lowercase mode tiles repeat a glyph iff the lower-cased letters and distractors do |
| LetterGrid.LowercaseGridRepeatsGlyph | js/scenes/Game.js:540-554 | in lowercase mode, a distractor that is the capital of a word letter puts that letter on two tiles |
| LetterGrid.LowerJoinRepeats | js/scenes/Game.js:552-554 | lower-casing a letter and a distractor of the same small form repeats it |
| LetterGrid.MarioAdmitsCapitalO | js/scenes/Game.js:540-545 | 'O' is an admissible distractor for "mario" although 'o' is in the word |
| LetterGrid.MarioLettersDistinct | js/scenes/Game.js:530 | the distinct letters of "mario" are "mario" |
| LetterGrid.MixedModeKeepsBothCases | js/scenes/Game.js:530 | the distinct letters of "Anpanman" include both 'A' and 'a' |
| LetterGrid.LayoutButtons | js/scenes/Game.js:588-591 | the buttons show exactly the first sixteen tiles, in order |
| Scoring.RoundScore | js/scenes/Game.js:1401-1407 | a round score is never negative |
| Scoring.RoundScoreInIntegers | js/scenes/Game.js:1401-1407 | the score is max(0, 10000 − 500·mistakes − min(5000, ⌈ms/10⌉)) |
| Scoring.RoundScoreBounds | js/scenes/Game.js:1401-1407 | a round scores between 0 and 10000, at least 5000 without mistakes |
| Scoring.RoundScoreMonotone | js/scenes/Game.js:1401-1407 | more time or more mistakes never raise the score |
| Scoring.TimeDeductionCapped | js/scenes/Game.js:1404 | after fifty seconds time costs nothing more |
| Scoring.RoundScoreExamples | js/scenes/Game.js:1401-1407 | sample rounds: 10000 instant, 9876 at 1.234 s, 5000 at a minute, 0 with twenty mistakes |
| Scoring.FinalScore | js/scenes/Game.js:1624-1625 | the final score is the floored mean of the round scores; NaN (None) exactly for no rounds |
| Scoring.Sum | js/scenes/Game.js:1624 | the reduce sum of the round scores, bounded by SumAtLeast and SumAtMost |
| Scoring.SumAtLeast | js/scenes/Game.js:1624 | scores all at least lo total at least count·lo |
| Scoring.SumAtMost | js/scenes/Game.js:1624 | scores all at most hi total at most count·hi |
| Scoring.FinalScoreAtLeast | js/scenes/Game.js:1624-1625 | the final score is at least any lower bound of the round scores |
| Scoring.FinalScoreAtMost | js/scenes/Game.js:1624-1625 | the final score is at most any upper bound of the round scores |
| Scoring.FinalScoreExample | js/scenes/Game.js:1624-1625 | rounds of 10000, 8000, 6000, 4000 and 2000 give 6000 |
| Scoring.HighScore | js/scenes/Game.js:2317-2365 | the stored score, or 0 when there is none |
| Scoring.IsNewHighScore | js/scenes/Game.js:1629 | a new high score is a final score strictly above the stored one, never the NaN of an empty game |
| Scoring.SaveHighScore | js/scenes/Game.js:2276-2280 | the record after saving: rewritten only with a strictly higher score; SaveKeepsBest and SaveIdempotent state its properties |
| Scoring.SaveKeepsBest | js/scenes/Game.js:2276-2280 | the stored high score becomes the best of the old one and the final score; it is rewritten iff strictly higher |
| Scoring.SaveIdempotent | js/scenes/Game.js:2276-2280 | saving the same final score again changes nothing |
| GameScene.NewHints | js/scenes/Game.js:1463-1473 | a hint pass adds only current-grid buttons that show the letter ignoring case and were not hinted |
| GameScene.KeyForwarded | js/scenes/Game.js:2380 | a key is forwarded iff it is exactly one ASCII letter |
| GameScene.ShowsLetter | js/scenes/Game.js:818 | a label shows a letter iff they are equal ignoring case |
| GameScene.NewHintsBelow | js/scenes/Game.js:1463-1473 | the pass over the first n buttons adds none at slot n |
| GameScene.NewHintsInSlotOrder | js/scenes/Game.js:1463-1473 | a hint pass adds buttons in slot order |
| GameScene.NewHintsNoDup | js/scenes/Game.js:1470-1472 | a hint pass adds no button twice |
| GameScene.NewHintsComplete | js/scenes/Game.js:1463-1473 | a hint pass misses no unhinted button showing the letter |
| GameScene.HintPassKeepsHintsValid | js/scenes/Game.js:1463-1473 | after a pass the hint list has no repetition, holds only created buttons, and holds every button showing the letter |
| GameScene.CollectHints | js/scenes/Game.js:1463-1473 | the loop appends exactly the buttons of the pass, in slot order |
| GameScene.EitherCaseSelects | js/scenes/Game.js:2380 | both cases of a letter key are forwarded and select that letter |
| GameScene.ForwardedKeyMatches | js/scenes/Game.js:2377-2384 | a forwarded key matches iff it equals the expected letter ignoring case |
| GameScene.DrawnOnEmptyUsed | js/scenes/Game.js:2250 | after a reset the used list holds only the character drawn |
| GameScene.Game.constructor | js/scenes/Game.js:8-37 | init(): no character, empty words, no scores, index 0, no hints, no used names, no wrong streak |
| GameScene.Game.CleanupGame | js/scenes/Game.js:2403-2488 | the buttons are destroyed and the hint list emptied, keeping the invariant |
| GameScene.Game.SelectRandomCharacter | js/scenes/Game.js:468-516 | the state after selectRandomCharacter is the draw's: unchanged for an empty roster, cleared for an all-excluded one, else the drawn character, the extended used list and its target word |
| GameScene.Game.GenerateLetterButtons | js/scenes/Game.js:518-591 | a new grid generation whose buttons show the first sixteen of the round's tiles |
| GameScene.Game.ShowButtons | js/scenes/Game.js:523-524 | the old buttons are replaced by a new generation with the given labels |
| GameScene.Game.StartNewCharacter | js/scenes/Game.js:104-245 | the round starts iff a character is drawn or kept; back to the menu iff all are excluded; a started round has an empty word, no mistakes, kept hints and a laid-out grid |
| GameScene.Game.ContinueStart | js/scenes/Game.js:130-243 | after selection: cleanup on failure, no buttons without a character, else a reset word and a new grid |
| GameScene.Game.BeginRound | js/scenes/Game.js:227-234 | the typed word and mistakes are cleared and a new grid laid out |
| GameScene.Game.ShowHint | js/scenes/Game.js:1445-1514 | nothing once the word is complete; otherwise exactly the pass's buttons are added, every button showing the next letter is hinted, and found iff one was added |
| GameScene.Game.HandleLetterSelection | js/scenes/Game.js:793-907 | ignored iff no letter or the word is complete, changing nothing; correct iff equal ignoring case, appending the word's own letter, clearing the streak and keeping the hints, complete iff the word is spelled; otherwise the word stays, the streak grows, and the third wrong letter in a row clears it and adds the hint pass's buttons |
| GameScene.Game.SelectionEffect | js/scenes/Game.js:793-907 | the effect of one selection shared by clicks and keys: nothing when ignored; append, clear the streak and keep the hints when correct; otherwise keep the word and grow the streak, the third wrong letter in a row clearing it and adding the hint pass |
| GameScene.Game.CountWrongLetter | js/scenes/Game.js:867-902 | a hint is shown iff the streak reaches 3, and then the streak is 0 and the pass's buttons are added |
| GameScene.Game.ClickButton | js/scenes/Game.js:745-755 | a click selects the button's letter, correct iff it shows the expected letter ignoring case, with the same effect on the word, the streak and the hints as any selection |
| GameScene.Game.KeyDown | js/scenes/Game.js:2377-2384 | only an installed handler and a single-letter key select, matching ignoring case, with the same effect on the word, the streak and the hints as any selection; anything else changes nothing |
| GameScene.Game.ProcessWordComplete | js/scenes/Game.js:1397-1443 | the round's score is appended, the index advances with it, and the game is over iff five rounds are done |
| GameScene.Game.ShowGameResults | js/scenes/Game.js:1621-1630 | the final score is the floored mean, within 0..10000; it is a high score iff strictly above the stored one, and the record is rewritten iff so |
| GameScene.Game.Create | js/scenes/Game.js:46-102 | a new game has an empty hint list, and the keyboard handler is installed iff enabled |
| GameScene.Game.ResetGame | js/scenes/Game.js:2243-2274 | scores and index are cleared, the used list restarts with the character drawn, and a started round has no hints and an empty word |

## Left out

- Rendering, sounds, tweens, particles, fonts, layout coordinates and the wrong-letter border
  effects are not modelled. They change nothing that the rules read.
- `wrongLetters` and `lastClickedButton` (Game.js:816-832, 945-1055) exist only for those
  effects and are left out.
- The texture fallback of `startNewCharacter` (Game.js:141-160) is left out.
  `Roster.TextureKeysMatch` shows that the shipped roster looks each image up under the key it
  was loaded under, so the fallback is reached only if an image fails to load.
- The high-score store is IndexedDB, reached asynchronously (Game.js:2276-2365). The model takes
  the stored record as an `Option<int>`. It returns the record as it is after the write, and
  leaves out the database calls and the order of the promises.
- Other scenes (Boot, MainMenu, Help, Diagnostic), js/config.js, js/utils/responsive.js,
  server.js and the `volume` setting of js/main.js are not part of this model.
- Time is the integer number of milliseconds `Date.now() - startTime`, given as a parameter. The
  timer-delayed call that completes a word is modelled as a direct call of `ProcessWordComplete`.
- Random values are supplied up front.
  - `StartNewCharacter`, `Create` and `ResetGame` require enough of them for any grid
    (`EnoughRandoms`).
  - `PickDistractors` chooses any admissible letter, rather than rejection-sampling with random
    values. The probability that the sampling loop ends is not modelled.
- Case conversion covers ASCII letters only. Every name and tile in the game is one.
- Arguments that are not strings are not modelled: an undefined letter, or a `targetWord` that is
  not a string (Game.js:796-805). Every caller passes a string; the empty string is modelled.
- Installing the keyboard handler twice (a second `create` on the same scene) is modelled as
  one installed handler.
- The model has no hint-pulse animation or button style. A hint is a button added to
  `hintLetters`.
- GameScene.Game.Create: its `modifies this` is wider than the fields it changes. It states the
  hint list and the keyboard flag, not the whole new state. The round it starts is described by
  `StartNewCharacter`.
- GameScene.Game.ResetGame: its `modifies this` is wider than the fields it changes. It states
  the cleared scores, the used list and a started round's hints and word, not the whole round.
  The round is described by `StartNewCharacter`.
- An exception thrown inside the error handlers themselves (the fallback of `returnToMainMenu`,
  Game.js:2497-2501) is not modelled.
- Scoring.RoundScore: computed on reals, while the source uses floating-point numbers; its exact
  value in whole numbers is given by `RoundScoreInIntegers`.
