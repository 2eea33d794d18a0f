/** The global game settings (window.gameSettings, created in js/main.js) and the two
    controls of the settings screen that write them (js/scenes/Settings.js). */
module Settings {
  import opened Wrappers

  /** window.gameSettings. A property the object lacks reads as undefined, which every
      reader treats as false, so an absent flag is modelled as false. */
  datatype GameSettings = GameSettings(keyboardEnabled: bool, uppercase: bool, lowercase: bool)

  /** The object js/main.js installs before any scene runs. */
  function DefaultSettings(): (s: GameSettings)
    ensures !s.keyboardEnabled && s.uppercase && !s.lowercase
  {
    GameSettings(false, true, false)
  }

  /** The object `{}` a handler creates when window.gameSettings is missing. */
  function EmptySettings(): (s: GameSettings)
    ensures !s.keyboardEnabled && !s.uppercase && !s.lowercase
  {
    GameSettings(false, false, false)
  }

  /** Options of the letter-case control, in order: UPPERCASE, lowercase, Mixed Case. */
  const CaseOptionCount: nat := 3

  /** The option the control shows when the screen opens: 0 if uppercase is set, else 1 if
      lowercase is set, else 2 (also when window.gameSettings is missing). */
  function InitialCaseIndex(settings: Option<GameSettings>): (index: nat)
    ensures index < CaseOptionCount
    ensures index == 0 <==> settings.Some? && settings.value.uppercase
    ensures index == 1 <==> settings.Some? && !settings.value.uppercase && settings.value.lowercase
  {
    if settings.Some? && settings.value.uppercase then 0
    else if settings.Some? && settings.value.lowercase then 1
    else 2
  }

  /** The option after one click on the control. */
  function NextCaseIndex(index: nat): (next: nat)
    ensures next < CaseOptionCount
  {
    (index + 1) % CaseOptionCount
  }

  /** The flags a click writes for the option it selected: only uppercase for 0,
      only lowercase for 1, neither for 2; every other property is kept. */
  function WithCaseIndex(settings: GameSettings, index: nat): (s: GameSettings)
    requires index < CaseOptionCount
    ensures s.keyboardEnabled == settings.keyboardEnabled
    ensures !(s.uppercase && s.lowercase)
    ensures s.uppercase <==> index == 0
    ensures s.lowercase <==> index == 1
  {
    var written := settings.(uppercase := index == 0, lowercase := index == 1);
    if index == 2 then written.(uppercase := false, lowercase := false) else written
  }

  /** Three clicks bring the control back to the option it started on. */
  lemma ThreeClicksRestore(index: nat)
    requires index < CaseOptionCount
    ensures NextCaseIndex(NextCaseIndex(NextCaseIndex(index))) == index
  {
  }

  /** Reopening the screen after a click shows the option the click selected. */
  lemma ReopenShowsSelection(settings: GameSettings, index: nat)
    requires index < CaseOptionCount
    ensures InitialCaseIndex(Some(WithCaseIndex(settings, index))) == index
  {
  }

  /** The settings screen: its letter-case control remembers the selected option in a local
      index, and both controls write into the global settings object. */
  class SettingsScreen {
    /** window.gameSettings, which the screen may find missing and then creates. */
    var gameSettings: Option<GameSettings>
    /** currentCaseIndex of the letter-case control. */
    var currentCaseIndex: nat

    ghost predicate Valid()
      reads this
    {
      currentCaseIndex < CaseOptionCount
    }

    /** Opening the screen reads the flags to pick the option shown. */
    constructor (settings: Option<GameSettings>)
      ensures Valid()
      ensures gameSettings == settings
      ensures currentCaseIndex == InitialCaseIndex(settings)
    {
      gameSettings := settings;
      currentCaseIndex := InitialCaseIndex(settings);
    }

    /** A click on the letter-case control: advance the option, create the settings object if
        it is missing, then write uppercase and lowercase for the new option. */
    method ClickCase()
      requires Valid()
      modifies this
      ensures Valid()
      ensures currentCaseIndex == NextCaseIndex(old(currentCaseIndex))
      ensures gameSettings.Some?
      ensures gameSettings.value ==
        WithCaseIndex(if old(gameSettings).Some? then old(gameSettings).value else EmptySettings(), currentCaseIndex)
      ensures InitialCaseIndex(gameSettings) == currentCaseIndex
    {
      currentCaseIndex := (currentCaseIndex + 1) % CaseOptionCount;
      var settings := if gameSettings.Some? then gameSettings.value else EmptySettings();
      settings := settings.(uppercase := currentCaseIndex == 0);
      settings := settings.(lowercase := currentCaseIndex == 1);
      if currentCaseIndex == 2 {
        settings := settings.(uppercase := false);
        settings := settings.(lowercase := false);
      }
      gameSettings := Some(settings);
      ReopenShowsSelection(if old(gameSettings).Some? then old(gameSettings).value else EmptySettings(), currentCaseIndex);
    }

    /** A click on the keyboard checkbox: create the settings object if it is missing,
        then negate keyboardEnabled; nothing else changes. */
    method ClickKeyboard()
      requires Valid()
      modifies this
      ensures Valid()
      ensures currentCaseIndex == old(currentCaseIndex)
      ensures gameSettings.Some?
      ensures var before := if old(gameSettings).Some? then old(gameSettings).value else EmptySettings();
        gameSettings.value == before.(keyboardEnabled := !before.keyboardEnabled)
    {
      var settings := if gameSettings.Some? then gameSettings.value else EmptySettings();
      gameSettings := Some(settings.(keyboardEnabled := !settings.keyboardEnabled));
    }
  }

  /** Three clicks on the letter-case control of an open screen restore the option shown,
      and the flags written by the last click select that same option again. */
  method ThreeCaseClicks(screen: SettingsScreen)
    requires screen.Valid()
    modifies screen
    ensures screen.Valid()
    ensures screen.currentCaseIndex == old(screen.currentCaseIndex)
    ensures InitialCaseIndex(screen.gameSettings) == old(screen.currentCaseIndex)
  {
    ghost var start := screen.currentCaseIndex;
    screen.ClickCase();
    screen.ClickCase();
    screen.ClickCase();
    ThreeClicksRestore(start);
  }
}
