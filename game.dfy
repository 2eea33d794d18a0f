/** The game scene (js/scenes/Game.js): the state of a game of five characters and the
    operations that change it, each tied to the functions of CharacterPool, WordFormat,
    LetterGrid and Scoring that say what it computes. */
module GameScene {
  import opened Text
  import opened Wrappers
  import opened Randomness
  import opened Roster
  import opened Settings
  import opened WordFormat
  import opened CharacterPool
  import opened LetterGrid
  import opened Scoring

  /** Wrong selections in a row after which the next letter is hinted. */
  const HintThreshold: nat := 3

  /** A letter button: created by the generation-th call of generateLetterButtons at a slot of
      the grid. Buttons are objects, so one created by an earlier call is never equal to a
      button of the current grid. */
  datatype ButtonId = ButtonId(generation: nat, slot: nat)

  /** What a selected letter did. */
  datatype Selection =
    | Ignored
    | Correct(wordComplete: bool)
    | Wrong(hintShown: bool)

  /** How startNewCharacter ended: a round started, no character was available (it returns
      early), or selecting a character threw and the scene went back to the main menu. */
  datatype StartOutcome = Started | NoCharacter | ReturnedToMenu

  /** The keyboard handler's filter /^[a-zA-Z]$/: exactly one ASCII letter. */
  predicate KeyForwarded(key: string)
  {
    |key| == 1 && IsLetter(key[0])
  }

  /** A button's label counts as a letter when it equals it ignoring case. */
  predicate ShowsLetter(shown: char, letter: char)
  {
    UpperChar(shown) == UpperChar(letter)
  }

  /** The buttons of the current grid that one pass of showHint adds to hintLetters: in slot
      order, those among the first n showing the letter that were not hinted before. */
  function NewHints(labels: string, n: nat, generation: nat, letter: char, hints: seq<ButtonId>): (added: seq<ButtonId>)
    requires n <= |labels|
    ensures forall k :: 0 <= k < |added| ==>
      && added[k].generation == generation && added[k].slot < n
      && ShowsLetter(labels[added[k].slot], letter) && added[k] !in hints
  {
    if n == 0 then []
    else
      var front := NewHints(labels, n - 1, generation, letter, hints);
      var b := ButtonId(generation, n - 1);
      if ShowsLetter(labels[n - 1], letter) && b !in hints then front + [b] else front
  }

  lemma NewHintsBelow(labels: string, n: nat, generation: nat, letter: char, hints: seq<ButtonId>)
    requires n <= |labels|
    ensures ButtonId(generation, n) !in NewHints(labels, n, generation, letter, hints)
  {
  }

  /** Buttons listed with strictly increasing slots. */
  predicate InSlotOrder(buttons: seq<ButtonId>)
  {
    forall i, j :: 0 <= i < j < |buttons| ==> buttons[i].slot < buttons[j].slot
  }

  /** A hint pass adds buttons in slot order. */
  lemma {:induction false} NewHintsInSlotOrder(labels: string, n: nat, generation: nat, letter: char, hints: seq<ButtonId>)
    requires n <= |labels|
    ensures InSlotOrder(NewHints(labels, n, generation, letter, hints))
  {
    if n > 0 {
      var front := NewHints(labels, n - 1, generation, letter, hints);
      var added := NewHints(labels, n, generation, letter, hints);
      NewHintsInSlotOrder(labels, n - 1, generation, letter, hints);
      if ShowsLetter(labels[n - 1], letter) && ButtonId(generation, n - 1) !in hints {
        // The button appended last has slot n - 1, above every earlier one.
        assert added == front + [ButtonId(generation, n - 1)];
        forall i, j | 0 <= i < j < |added| ensures added[i].slot < added[j].slot {
          assert added[i] == front[i];
          if j < |front| {
            assert added[j] == front[j];
          }
        }
      } else {
        assert added == front;
      }
    }
  }

  /** A hint pass adds no button twice. */
  lemma {:induction false} NewHintsNoDup(labels: string, n: nat, generation: nat, letter: char, hints: seq<ButtonId>)
    requires n <= |labels|
    ensures NoDup(NewHints(labels, n, generation, letter, hints))
  {
    if n > 0 {
      var front := NewHints(labels, n - 1, generation, letter, hints);
      NewHintsNoDup(labels, n - 1, generation, letter, hints);
      NewHintsBelow(labels, n - 1, generation, letter, hints);
      if ShowsLetter(labels[n - 1], letter) && ButtonId(generation, n - 1) !in hints {
        NoDupSnoc(front, ButtonId(generation, n - 1));
      }
    }
  }

  /** A hint pass misses no button of the grid that shows the letter and was not hinted. */
  lemma {:induction false} NewHintsComplete(labels: string, n: nat, generation: nat, letter: char, hints: seq<ButtonId>, k: nat)
    requires k < n <= |labels|
    requires ShowsLetter(labels[k], letter) && ButtonId(generation, k) !in hints
    ensures ButtonId(generation, k) in NewHints(labels, n, generation, letter, hints)
  {
    if k < n - 1 {
      NewHintsComplete(labels, n - 1, generation, letter, hints, k);
    }
  }

  /** A hint pass keeps the hint list free of repetitions and made of buttons already created,
      and afterwards every button of the grid showing the letter is in it. */
  lemma HintPassKeepsHintsValid(labels: string, generation: nat, letter: char, hints: seq<ButtonId>)
    requires NoDup(hints)
    requires forall i :: 0 <= i < |hints| ==> hints[i].generation <= generation
    ensures var after := hints + NewHints(labels, |labels|, generation, letter, hints);
      && NoDup(after)
      && (forall i :: 0 <= i < |after| ==> after[i].generation <= generation)
      && (forall k :: 0 <= k < |labels| && ShowsLetter(labels[k], letter) ==> ButtonId(generation, k) in after)
  {
    var added := NewHints(labels, |labels|, generation, letter, hints);
    NewHintsNoDup(labels, |labels|, generation, letter, hints);
    NoDupAppend(hints, added);
    var after := hints + added;
    forall k | 0 <= k < |labels| && ShowsLetter(labels[k], letter) ensures ButtonId(generation, k) in after {
      if ButtonId(generation, k) !in hints {
        NewHintsComplete(labels, |labels|, generation, letter, hints, k);
      }
    }
    forall i | 0 <= i < |after| ensures after[i].generation <= generation {
      if i >= |hints| {
        assert after[i] == added[i - |hints|];
      }
    }
  }

  /** The loop of showHint: walk the grid's buttons in slot order and append each one showing
      the letter, ignoring case, that the hint list does not hold yet. */
  method CollectHints(labels: string, generation: nat, letter: char, hints: seq<ButtonId>)
    returns (after: seq<ButtonId>)
    ensures after == hints + NewHints(labels, |labels|, generation, letter, hints)
  {
    after := hints;
    var slot := 0;
    while slot < |labels|
      invariant slot <= |labels|
      invariant after == hints + NewHints(labels, slot, generation, letter, hints)
    {
      var button := ButtonId(generation, slot);
      if ShowsLetter(labels[slot], letter) {
        // Buttons added in this pass have lower slots, so this test agrees with the old list.
        NewHintsBelow(labels, slot, generation, letter, hints);
        if button !in after {
          after := after + [button];
        }
      }
      slot := slot + 1;
    }
  }

  /** Typing a letter in either case selects it, and the keyboard forwards both keys. */
  lemma EitherCaseSelects(c: char)
    requires IsLetter(c)
    ensures KeyForwarded([UpperChar(c)]) && KeyForwarded([LowerChar(c)])
    ensures SameLetters([UpperChar(c)], [c]) && SameLetters([LowerChar(c)], [c])
  {
    CaseFold(c);
  }

  /** A key is forwarded only when it is a single letter; for such a key a selection matches
      exactly when it equals the expected letter ignoring case. */
  lemma ForwardedKeyMatches(key: string, expected: char)
    requires KeyForwarded(key)
    ensures SameLetters(key, [expected]) <==> ShowsLetter(key[0], expected)
  {
  }

  class Game {
    /** window.characters, read by every selection. */
    const characters: seq<Character>
    var currentCharacter: Option<Character>
    var currentWord: string
    var targetWord: string
    /** Reset for every character and never increased anywhere in the scene. */
    var mistakes: int
    var characterScores: seq<int>
    var currentCharacterIndex: nat
    var hintLetters: seq<ButtonId>
    var usedCharacters: seq<string>
    var consecutiveWrongAttempts: nat
    /** The labels of the letter buttons of the current grid, by slot. */
    var buttonLabels: string
    /** How many grids have been created. */
    var generation: nat
    /** Whether the keyboard handler was installed when the scene was created. */
    var keyboardListening: bool

    /** Everything but the relation of the typed word to the target word: the wrong streak
        stays below the hint threshold, mistakes stay at zero, there is one score, never
        negative, per finished character, the used list holds keys of candidates without
        repetitions, the grid has at most sixteen buttons, and the hint list names each button
        at most once and only buttons already created. */
    ghost predicate Consistent()
      reads this
    {
      && consecutiveWrongAttempts < HintThreshold
      && mistakes == 0
      && |characterScores| == currentCharacterIndex
      && (forall i :: 0 <= i < |characterScores| ==> characterScores[i] >= 0)
      && UsedWellFormed(characters, usedCharacters)
      && |buttonLabels| <= GridSize
      && NoDup(hintLetters)
      && (forall i :: 0 <= i < |hintLetters| ==> hintLetters[i].generation <= generation)
    }

    /** Between events the typed letters are a prefix of the target word. */
    ghost predicate Valid()
      reads this
    {
      Consistent() && currentWord <= targetWord
    }

    /** init(): the state of a freshly started scene. */
    constructor (characters: seq<Character>)
      ensures Valid()
      ensures this.characters == characters
      ensures currentCharacter.None? && currentWord == [] && targetWord == []
      ensures characterScores == [] && currentCharacterIndex == 0
      ensures hintLetters == [] && usedCharacters == [] && consecutiveWrongAttempts == 0
      ensures buttonLabels == [] && generation == 0 && !keyboardListening
    {
      this.characters := characters;
      currentCharacter := None;
      currentWord := [];
      targetWord := [];
      mistakes := 0;
      characterScores := [];
      currentCharacterIndex := 0;
      hintLetters := [];
      usedCharacters := [];
      consecutiveWrongAttempts := 0;
      buttonLabels := [];
      generation := 0;
      keyboardListening := false;
    }

    /** The random values a new round may need: all of them are Math.random() values, and
        there are at least as many as a grid can have tiles, whatever character is drawn. */
    ghost predicate EnoughRandoms(rands: seq<real>)
      reads this
    {
      && AllRandom(rands)
      && GridSize <= |rands|
      && |targetWord| <= |rands|
      && forall c :: c in characters ==> |c.name| <= |rands|
    }

    /** cleanupGame, for the state modelled here: the buttons are destroyed and the hint list
        is emptied. */
    method CleanupGame()
      requires Valid()
      modifies this`buttonLabels, this`hintLetters
      ensures Valid()
      ensures buttonLabels == [] && hintLetters == []
    {
      buttonLabels := [];
      hintLetters := [];
    }

    /** selectRandomCharacter with Math.random() returning rand and the given settings. */
    method SelectRandomCharacter(settings: GameSettings, rand: real) returns (draw: Draw)
      requires Valid() && IsRandom(rand)
      modifies this`currentCharacter, this`usedCharacters, this`targetWord
      ensures Consistent()
      ensures draw == DrawCharacter(characters, old(usedCharacters), rand)
      ensures draw.NoRoster? ==>
        currentCharacter == old(currentCharacter) && usedCharacters == old(usedCharacters) && targetWord == old(targetWord)
      ensures draw.NoCandidate? ==>
        currentCharacter.None? && usedCharacters == [] && targetWord == old(targetWord)
      ensures draw.Drawn? ==>
        && currentCharacter == Some(draw.character)
        && usedCharacters == draw.used
        && targetWord == TargetWord(draw.character.name, ModeOf(settings))
        && draw.character in characters && |targetWord| == |draw.character.name|
    {
      ghost var used := usedCharacters;
      ghost var expected := DrawCharacter(characters, used, rand);
      if |characters| == 0 {
        return NoRoster;
      }
      var filteredCharacters := Candidates(characters);
      var availableCharacters := Unused(filteredCharacters, usedCharacters);
      if |availableCharacters| == 0 {
        availableCharacters := filteredCharacters;
        usedCharacters := [];
      }
      if |availableCharacters| == 0 {
        // Indexing the empty list gives undefined, and reading its name throws.
        currentCharacter := None;
        assert expected == NoCandidate;
        return NoCandidate;
      }
      var c := availableCharacters[RandomIndex(rand, |availableCharacters|)];
      assert expected == Drawn(c, usedCharacters + [Key(c)]);
      currentCharacter := Some(c);
      usedCharacters := usedCharacters + [Key(c)];
      targetWord := TargetWord(c.name, ModeOf(settings));
      draw := Drawn(c, usedCharacters);
      DrawKeepsUsedWellFormed(characters, used, rand);
      DrawnIsFreshCandidate(characters, used, rand);
      TargetWordSpellsName(c.name, ModeOf(settings));
    }

    /** The state part of generateLetterButtons: a new grid whose buttons show the first
        sixteen tiles. */
    method GenerateLetterButtons(lowercase: bool, rands: seq<real>) returns (distractors: string, tiles: string)
      requires Valid()
      requires TileCount(targetWord) <= |rands| && AllRandom(rands)
      modifies this`buttonLabels, this`generation
      ensures Valid()
      ensures generation == old(generation) + 1
      ensures LaidOut(targetWord, lowercase, rands, distractors, tiles, buttonLabels)
    {
      distractors, tiles := GenerateLetters(targetWord, lowercase, rands);
      var labels := LayoutButtons(tiles);
      ShowButtons(labels);
    }

    /** Replace the buttons of the grid by a new generation of buttons with the given labels. */
    method ShowButtons(labels: string)
      requires Valid() && |labels| <= GridSize
      modifies this`buttonLabels, this`generation
      ensures Valid()
      ensures buttonLabels == labels && generation == old(generation) + 1
    {
      buttonLabels := labels;
      generation := generation + 1;
    }

    /** startNewCharacter: select a character; stop when there is none; otherwise clear the
        typed word and the mistakes and lay out a new grid. The hint list is kept. */
    method StartNewCharacter(settings: GameSettings, rand: real, rands: seq<real>)
      returns (outcome: StartOutcome, distractors: string, tiles: string)
      requires Valid() && IsRandom(rand) && EnoughRandoms(rands)
      modifies this`currentCharacter, this`usedCharacters, this`targetWord, this`currentWord, this`mistakes
      modifies this`buttonLabels, this`generation, this`hintLetters
      ensures Valid()
      ensures var d := DrawCharacter(characters, old(usedCharacters), rand);
        && (outcome == ReturnedToMenu <==> d.NoCandidate?)
        && (outcome == NoCharacter <==> d.NoRoster? && old(currentCharacter).None?)
        && (d.NoRoster? ==> currentCharacter == old(currentCharacter) && usedCharacters == old(usedCharacters) && targetWord == old(targetWord))
        && (d.Drawn? ==>
          && currentCharacter == Some(d.character)
          && usedCharacters == d.used
          && targetWord == TargetWord(d.character.name, ModeOf(settings)))
      ensures outcome == ReturnedToMenu ==>
        currentCharacter.None? && usedCharacters == [] && buttonLabels == [] && hintLetters == []
      ensures outcome == NoCharacter ==>
        buttonLabels == [] && currentWord == old(currentWord) && hintLetters == old(hintLetters)
      ensures outcome == Started ==>
        && currentCharacter.Some?
        && currentWord == [] && mistakes == 0
        && hintLetters == old(hintLetters)
        && generation == old(generation) + 1
        && LaidOut(targetWord, settings.lowercase, rands, distractors, tiles, buttonLabels)
    {
      var draw := SelectRandomCharacter(settings, rand);
      outcome, distractors, tiles := ContinueStart(draw.NoCandidate?, settings.lowercase, rands);
    }

    /** The rest of startNewCharacter once selectRandomCharacter has run: back to the menu when
        it failed, nothing more when there is still no character, otherwise a new round. */
    method ContinueStart(failed: bool, lowercase: bool, rands: seq<real>)
      returns (outcome: StartOutcome, distractors: string, tiles: string)
      requires Consistent() && (currentCharacter.None? ==> currentWord <= targetWord)
      requires failed ==> currentCharacter.None?
      requires AllRandom(rands) && GridSize <= |rands| && |targetWord| <= |rands|
      modifies this`currentWord, this`mistakes, this`buttonLabels, this`generation, this`hintLetters
      ensures Valid()
      ensures outcome == ReturnedToMenu <==> failed
      ensures outcome == NoCharacter <==> !failed && currentCharacter.None?
      ensures outcome == ReturnedToMenu ==> buttonLabels == [] && hintLetters == []
      ensures outcome == NoCharacter ==>
        buttonLabels == [] && currentWord == old(currentWord) && hintLetters == old(hintLetters)
      ensures outcome == Started ==>
        && currentWord == [] && mistakes == 0
        && hintLetters == old(hintLetters)
        && generation == old(generation) + 1
        && LaidOut(targetWord, lowercase, rands, distractors, tiles, buttonLabels)
    {
      distractors, tiles := [], [];
      if failed {
        // The exception is caught here and the scene returns to the main menu.
        CleanupGame();
        outcome := ReturnedToMenu;
      } else if currentCharacter.None? {
        // startNewCharacter destroys the old buttons before selecting; selecting does not
        // touch them, and the other two branches replace them anyway.
        buttonLabels := [];
        outcome := NoCharacter;
      } else {
        TileCountAtMost(targetWord, |rands|);
        distractors, tiles := BeginRound(lowercase, rands);
        outcome := Started;
      }
    }

    /** The rest of startNewCharacter once a character is chosen: the typed word and the
        mistakes are cleared and a new grid is laid out. */
    method BeginRound(lowercase: bool, rands: seq<real>) returns (distractors: string, tiles: string)
      requires Consistent()
      requires TileCount(targetWord) <= |rands| && AllRandom(rands)
      modifies this`currentWord, this`mistakes, this`buttonLabels, this`generation
      ensures Valid()
      ensures currentWord == [] && mistakes == 0
      ensures generation == old(generation) + 1
      ensures LaidOut(targetWord, lowercase, rands, distractors, tiles, buttonLabels)
    {
      currentWord := [];
      mistakes := 0;
      distractors, tiles := GenerateLetterButtons(lowercase, rands);
    }

    /** create(), for the state modelled here: clean up, start the first character, and install
        the keyboard handler when the setting asks for it. */
    method Create(settings: GameSettings, rand: real, rands: seq<real>)
      returns (outcome: StartOutcome, distractors: string, tiles: string)
      requires Valid() && IsRandom(rand) && EnoughRandoms(rands)
      modifies this
      ensures Valid()
      ensures keyboardListening == settings.keyboardEnabled
      ensures hintLetters == []
    {
      CleanupGame();
      outcome, distractors, tiles := StartNewCharacter(settings, rand, rands);
      keyboardListening := settings.keyboardEnabled;
    }

    /** showHint: when a letter is still expected, add every button of the grid showing it
        (ignoring case) that is not already in the hint list. Reports whether one was added. */
    method ShowHint() returns (found: bool)
      requires Valid()
      modifies this`hintLetters
      ensures Valid()
      ensures |currentWord| >= |targetWord| ==> hintLetters == old(hintLetters) && !found
      ensures |currentWord| < |targetWord| ==>
        hintLetters == old(hintLetters) + NewHints(buttonLabels, |buttonLabels|, generation, targetWord[|currentWord|], old(hintLetters))
      ensures |currentWord| < |targetWord| ==> forall k :: 0 <= k < |buttonLabels| && ShowsLetter(buttonLabels[k], targetWord[|currentWord|]) ==>
        ButtonId(generation, k) in hintLetters
      ensures found <==> |hintLetters| > |old(hintLetters)|
    {
      if |currentWord| >= |targetWord| {
        return false;
      }
      var nextLetter := targetWord[|currentWord|];
      var hints := CollectHints(buttonLabels, generation, nextLetter, hintLetters);
      HintPassKeepsHintsValid(buttonLabels, generation, nextLetter, hintLetters);
      found := |hints| > |hintLetters|;
      hintLetters := hints;
    }

    /** What selecting a letter does to the typed word, the wrong streak and the hint list.
        The selection is ignored exactly when there is no letter or the word is already
        complete, and then nothing changes. A letter equal to the expected one ignoring case is
        correct: the word's own character is appended, the streak is cleared, and the word is
        complete exactly when it equals the target. Any other letter is wrong: the word stays,
        and the streak grows, except that the selection that brings it to the hint threshold
        clears it and adds the hint pass's buttons to the hint list. */
    twostate predicate SelectionEffect(letter: string, result: Selection)
      reads this
    {
      && (result == Ignored <==> letter == [] || |old(currentWord)| >= |targetWord|)
      && (result == Ignored ==>
            currentWord == old(currentWord) && consecutiveWrongAttempts == old(consecutiveWrongAttempts)
            && hintLetters == old(hintLetters))
      && (result != Ignored ==>
            (result.Correct? <==> SameLetters(letter, [targetWord[|old(currentWord)|]])))
      && (result.Correct? ==>
            && currentWord == old(currentWord) + [targetWord[|old(currentWord)|]]
            && consecutiveWrongAttempts == 0 && hintLetters == old(hintLetters)
            && (result.wordComplete <==> currentWord == targetWord))
      && (result.Wrong? ==>
            && currentWord == old(currentWord)
            && (result.hintShown <==> old(consecutiveWrongAttempts) + 1 >= HintThreshold)
            && (result.hintShown ==>
                  && consecutiveWrongAttempts == 0
                  && hintLetters == old(hintLetters) + NewHints(buttonLabels, |buttonLabels|, generation, targetWord[|old(currentWord)|], old(hintLetters)))
            && (!result.hintShown ==>
                  consecutiveWrongAttempts == old(consecutiveWrongAttempts) + 1 && hintLetters == old(hintLetters)))
    }

    /** handleLetterSelection: ignore a missing letter and a finished or empty word; a letter
        equal to the expected one ignoring case appends the expected letter and clears the
        wrong streak; any other letter extends the streak, and the third wrong letter in a row
        shows a hint and clears it. */
    method HandleLetterSelection(letter: string) returns (result: Selection)
      requires Valid()
      modifies this`currentWord, this`consecutiveWrongAttempts, this`hintLetters
      ensures Valid()
      ensures SelectionEffect(letter, result)
    {
      if letter == [] || targetWord == [] || |currentWord| >= |targetWord| {
        result := Ignored;
      } else {
        var nextLetter := targetWord[|currentWord|];
        if Upper(letter) == Upper([nextLetter]) {
          assert targetWord[..|currentWord| + 1] == currentWord + [nextLetter];
          currentWord := currentWord + [nextLetter];
          consecutiveWrongAttempts := 0;
          result := Correct(|currentWord| == |targetWord|);
          if result.wordComplete {
            assert currentWord == targetWord[..|targetWord|];
          }
        } else {
          var hintShown := CountWrongLetter();
          result := Wrong(hintShown);
        }
      }
    }

    /** The wrong-letter branch of handleLetterSelection: the streak grows, and when it reaches
        the hint threshold it is cleared and a hint is shown. */
    method CountWrongLetter() returns (hintShown: bool)
      requires Valid() && |currentWord| < |targetWord|
      modifies this`consecutiveWrongAttempts, this`hintLetters
      ensures Valid()
      ensures hintShown <==> old(consecutiveWrongAttempts) + 1 >= HintThreshold
      ensures hintShown ==>
        && consecutiveWrongAttempts == 0
        && hintLetters == old(hintLetters) + NewHints(buttonLabels, |buttonLabels|, generation, targetWord[|currentWord|], old(hintLetters))
      ensures !hintShown ==> consecutiveWrongAttempts == old(consecutiveWrongAttempts) + 1 && hintLetters == old(hintLetters)
    {
      consecutiveWrongAttempts := consecutiveWrongAttempts + 1;
      hintShown := consecutiveWrongAttempts >= HintThreshold;
      if hintShown {
        // Cleared just before the hint pass rather than just after it: the pass does not
        // read the streak.
        consecutiveWrongAttempts := 0;
        var _ := ShowHint();
      }
    }

    /** A click on the button at a slot selects the letter it shows. */
    method ClickButton(slot: nat) returns (result: Selection)
      requires Valid() && slot < |buttonLabels|
      modifies this`currentWord, this`consecutiveWrongAttempts, this`hintLetters
      ensures Valid()
      ensures result == Ignored <==> |old(currentWord)| >= |targetWord|
      ensures result != Ignored ==>
        (result.Correct? <==> ShowsLetter(buttonLabels[slot], targetWord[|old(currentWord)|]))
      ensures SelectionEffect([buttonLabels[slot]], result)
    {
      result := HandleLetterSelection([buttonLabels[slot]]);
    }

    /** The keydown handler: when it is installed, a single letter key is selected. */
    method KeyDown(key: string) returns (result: Option<Selection>)
      requires Valid()
      modifies this`currentWord, this`consecutiveWrongAttempts, this`hintLetters
      ensures Valid()
      ensures result.Some? <==> keyboardListening && KeyForwarded(key)
      ensures result.None? ==>
        currentWord == old(currentWord) && consecutiveWrongAttempts == old(consecutiveWrongAttempts) && hintLetters == old(hintLetters)
      ensures result.Some? ==> (result.value == Ignored <==> |old(currentWord)| >= |targetWord|)
      ensures result.Some? && |old(currentWord)| < |targetWord| ==>
        (result.value.Correct? <==> ShowsLetter(key[0], targetWord[|old(currentWord)|]))
      ensures result.Some? ==> SelectionEffect(key, result.value)
    {
      if keyboardListening && KeyForwarded(key) {
        var selection := HandleLetterSelection(key);
        result := Some(selection);
      } else {
        result := None;
      }
    }

    /** The state part of processWordComplete: score the round after elapsedMs milliseconds,
        count it, and report whether the game is over. */
    method ProcessWordComplete(elapsedMs: int) returns (gameOver: bool)
      requires Valid()
      modifies this`characterScores, this`currentCharacterIndex
      ensures Valid()
      ensures characterScores == old(characterScores) + [RoundScore(elapsedMs, 0)]
      ensures currentCharacterIndex == old(currentCharacterIndex) + 1
      ensures gameOver <==> currentCharacterIndex >= TotalCharacters
    {
      var characterScore := RoundScore(elapsedMs, mistakes);
      characterScores := characterScores + [characterScore];
      currentCharacterIndex := currentCharacterIndex + 1;
      gameOver := currentCharacterIndex >= TotalCharacters;
    }

    /** showGameResults and saveHighScore, given the stored high score record: the final score,
        whether it is announced as a new high score, and the record afterwards. */
    method ShowGameResults(stored: Option<int>) returns (finalScore: Option<int>, isHighScore: bool, saved: Option<int>)
      requires Valid()
      ensures finalScore == FinalScore(characterScores)
      ensures currentCharacterIndex > 0 ==> finalScore.Some? && finalScore.value >= 0
      ensures (forall i :: 0 <= i < |characterScores| ==> characterScores[i] <= BaseScore) ==>
        finalScore.Some? ==> finalScore.value <= BaseScore
      ensures isHighScore <==> finalScore.Some? && finalScore.value > HighScore(stored)
      ensures saved == SaveHighScore(finalScore, stored)
      ensures HighScore(saved) >= HighScore(stored)
      ensures saved != stored <==> isHighScore
    {
      finalScore := FinalScore(characterScores);
      var highScore := HighScore(stored);
      isHighScore := finalScore.Some? && finalScore.value > highScore;
      saved := SaveHighScore(finalScore, stored);
      SaveKeepsBest(finalScore, stored);
      if finalScore.Some? {
        FinalScoreAtLeast(characterScores, 0);
        if forall i :: 0 <= i < |characterScores| ==> characterScores[i] <= BaseScore {
          FinalScoreAtMost(characterScores, BaseScore);
        }
      }
    }

    /** resetGame: clean up, forget the scores and used characters, and start a new character. */
    method ResetGame(settings: GameSettings, rand: real, rands: seq<real>)
      returns (outcome: StartOutcome, distractors: string, tiles: string)
      requires Valid() && IsRandom(rand) && EnoughRandoms(rands)
      modifies this
      ensures Valid()
      ensures characterScores == [] && currentCharacterIndex == 0
      ensures outcome == Started ==> hintLetters == [] && currentWord == []
      ensures var d := DrawCharacter(characters, [], rand);
        d.Drawn? ==> usedCharacters == [Key(d.character)]
    {
      CleanupGame();
      currentCharacterIndex := 0;
      characterScores := [];
      usedCharacters := [];
      mistakes := 0;
      DrawnOnEmptyUsed(characters, rand);
      outcome, distractors, tiles := StartNewCharacter(settings, rand, rands);
    }
  }

  /** From an empty used list a draw records just the drawn character. */
  lemma DrawnOnEmptyUsed(characters: seq<Character>, rand: real)
    requires IsRandom(rand)
    ensures var d := DrawCharacter(characters, [], rand);
      d.Drawn? ==> d.used == [Key(d.character)]
  {
    var d := DrawCharacter(characters, [], rand);
    if d.Drawn? {
      DrawnIsFreshCandidate(characters, [], rand);
    }
  }
}
