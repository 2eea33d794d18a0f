/** How the game spells the chosen character's name (js/scenes/Game.js, selectRandomCharacter,
    lines 503-513), and how that choice agrees with the settings screen. */
module WordFormat {
  import opened Text
  import opened Wrappers
  import opened Settings

  datatype CaseMode = Uppercase | Lowercase | Mixed

  /** The mode the game applies: the uppercase flag wins, then the lowercase flag,
      and Mixed when neither is set. */
  function ModeOf(settings: GameSettings): (mode: CaseMode)
    ensures mode == Uppercase <==> settings.uppercase
    ensures mode == Lowercase <==> !settings.uppercase && settings.lowercase
  {
    if settings.uppercase then Uppercase
    else if settings.lowercase then Lowercase
    else Mixed
  }

  /** The option of the settings screen's letter-case control that stands for a mode. */
  function OptionIndex(mode: CaseMode): (index: nat)
    ensures index < CaseOptionCount
  {
    match mode
    case Uppercase => 0
    case Lowercase => 1
    case Mixed => 2
  }

  /** The target word: the whole name in capitals, the whole name in small letters, or the
      first character in capitals and the rest in small letters. */
  function TargetWord(name: string, mode: CaseMode): string
  {
    match mode
    case Uppercase => Upper(name)
    case Lowercase => Lower(name)
    case Mixed => if name == [] then [] else [UpperChar(name[0])] + Lower(name[1..])
  }

  /** The target word spells the name: same length, equal ignoring case, and in the case the
      mode asks for. */
  lemma TargetWordSpellsName(name: string, mode: CaseMode)
    ensures |TargetWord(name, mode)| == |name|
    ensures SameLetters(TargetWord(name, mode), name)
    ensures mode == Uppercase ==> AllUpper(TargetWord(name, mode))
    ensures mode == Lowercase ==> AllLower(TargetWord(name, mode))
    ensures mode == Mixed && name != [] ==>
      !IsLower(TargetWord(name, mode)[0]) && AllLower(TargetWord(name, mode)[1..])
  {
    var w := TargetWord(name, mode);
    forall i | 0 <= i < |name| ensures UpperChar(w[i]) == UpperChar(name[i]) {
      CaseFold(name[i]);
    }
    assert Upper(w) == Upper(name);
  }

  /** The game and the settings screen read the two flags with the same precedence: the option
      the screen shows for some settings is the option of the mode the game then plays. */
  lemma ScreenAgreesWithGame(settings: GameSettings)
    ensures InitialCaseIndex(Some(settings)) == OptionIndex(ModeOf(settings))
  {
  }

  /** The flags a click on the letter-case control writes select the mode of the chosen option. */
  lemma ClickSelectsMode(settings: GameSettings, index: nat)
    requires index < CaseOptionCount
    ensures OptionIndex(ModeOf(WithCaseIndex(settings, index))) == index
  {
  }

  /** With the settings js/main.js installs, names are spelled in capitals. */
  lemma DefaultIsUppercase()
    ensures ModeOf(DefaultSettings()) == Uppercase
  {
  }
}
