/** Drawing the next character without replacement (js/scenes/Game.js, selectRandomCharacter,
    lines 468-501): the excluded name is never drawn, a name is not drawn twice until every
    candidate has been, and then the list of used names starts over. */
module CharacterPool {
  import opened Text
  import opened Randomness
  import opened Roster

  /** The name selectRandomCharacter filters out, compared after lower-casing. */
  const ExcludedName: string := "naruto"

  /** How many characters one game plays (totalCharacters). */
  const TotalCharacters: nat := 5

  /** The key a character is remembered under in usedCharacters. */
  function Key(c: Character): string { Lower(c.name) }

  /** characters.filter(c => c.name.toLowerCase() !== 'naruto'), keeping the order. */
  function Candidates(characters: seq<Character>): (r: seq<Character>)
    ensures |r| <= |characters|
  {
    if characters == [] then []
    else
      var last := characters[|characters| - 1];
      var front := Candidates(characters[..|characters| - 1]);
      assert characters == characters[..|characters| - 1] + [last];
      if Key(last) != ExcludedName then front + [last] else front
  }

  /** candidates.filter(c => !used.includes(c.name.toLowerCase())), keeping the order. */
  function Unused(candidates: seq<Character>, used: seq<string>): (r: seq<Character>)
    ensures |r| <= |candidates|
  {
    if candidates == [] then []
    else
      var last := candidates[|candidates| - 1];
      var front := Unused(candidates[..|candidates| - 1], used);
      assert candidates == candidates[..|candidates| - 1] + [last];
      if Key(last) !in used then front + [last] else front
  }

  /** The candidates are exactly the roster's characters whose key is not the excluded name. */
  lemma {:induction false} CandidatesMembers(characters: seq<Character>, c: Character)
    ensures c in Candidates(characters) <==> c in characters && Key(c) != ExcludedName
  {
    if characters != [] {
      var front := characters[..|characters| - 1];
      assert characters == front + [characters[|characters| - 1]];
      CandidatesMembers(front, c);
    }
  }

  /** The unused candidates are exactly the candidates whose key is not in the used list. */
  lemma {:induction false} UnusedMembers(candidates: seq<Character>, used: seq<string>, c: Character)
    ensures c in Unused(candidates, used) <==> c in candidates && Key(c) !in used
  {
    if candidates != [] {
      var front := candidates[..|candidates| - 1];
      assert candidates == front + [candidates[|candidates| - 1]];
      UnusedMembers(front, used, c);
    }
  }

  /** Every candidate's key has been used: the next draw starts the list over. */
  predicate Exhausted(characters: seq<Character>, used: seq<string>)
  {
    |Unused(Candidates(characters), used)| == 0
  }

  /** What one call of selectRandomCharacter does: nothing at all for an empty roster; when
      every character is excluded, it clears the used list and then fails (reading the name of
      an undefined character throws); otherwise it draws a character and records its key. */
  datatype Draw =
    | NoRoster
    | NoCandidate
    | Drawn(character: Character, used: seq<string>)

  /** selectRandomCharacter with Math.random() returning rand. */
  function DrawCharacter(characters: seq<Character>, used: seq<string>, rand: real): Draw
    requires IsRandom(rand)
  {
    if |characters| == 0 then NoRoster
    else
      var candidates := Candidates(characters);
      var available := Unused(candidates, used);
      var pool := if |available| == 0 then candidates else available;
      var kept := if |available| == 0 then [] else used;
      if |pool| == 0 then NoCandidate
      else
        var c := pool[RandomIndex(rand, |pool|)];
        Drawn(c, kept + [Key(c)])
  }

  /** The outcome of a draw is decided by the roster alone: it fails only when the roster is
      empty or every character in it is excluded. */
  lemma DrawFailsOnlyWithoutCandidates(characters: seq<Character>, used: seq<string>, rand: real)
    requires IsRandom(rand)
    ensures DrawCharacter(characters, used, rand).NoRoster? <==> |characters| == 0
    ensures DrawCharacter(characters, used, rand).NoCandidate? <==>
      |characters| > 0 && |Candidates(characters)| == 0
  {
    if |characters| > 0 && |Candidates(characters)| > 0 {
      var c := Candidates(characters)[0];
      assert c in Candidates(characters);
    }
  }

  /** A drawn character comes from the roster and is never the excluded one. It is unused
      unless the list was exhausted, in which case the list restarts with it alone; otherwise
      its key is appended to the list. */
  lemma DrawnIsFreshCandidate(characters: seq<Character>, used: seq<string>, rand: real)
    requires IsRandom(rand)
    requires DrawCharacter(characters, used, rand).Drawn?
    ensures var d := DrawCharacter(characters, used, rand);
      && d.character in characters
      && Key(d.character) != ExcludedName
      && (Exhausted(characters, used) ==> d.used == [Key(d.character)])
      && (!Exhausted(characters, used) ==> Key(d.character) !in used && d.used == used + [Key(d.character)])
  {
    var candidates := Candidates(characters);
    var available := Unused(candidates, used);
    var pool := if |available| == 0 then candidates else available;
    var c := pool[RandomIndex(rand, |pool|)];
    assert c in pool;
    UnusedMembers(candidates, used, c);
    CandidatesMembers(characters, c);
  }

  /** Every available character is drawn by some value of Math.random(): the one that scales
      to its index in the list of available characters. */
  lemma AvailableCanBeDrawn(characters: seq<Character>, used: seq<string>, c: Character)
    requires c in Unused(Candidates(characters), used)
    ensures exists r :: IsRandom(r) && DrawCharacter(characters, used, r) == Drawn(c, used + [Key(c)])
  {
    var pool := Unused(Candidates(characters), used);
    var i :| 0 <= i < |pool| && pool[i] == c;
    var r := i as real / |pool| as real;
    IndexValue(i, |pool|);
    assert DrawCharacter(characters, used, r) == Drawn(c, used + [Key(c)]);
  }

  /** Once every candidate has been used, the list starts over and every candidate is drawn by
      some value of Math.random(), leaving its key alone in the used list. */
  lemma ExhaustedCanDraw(characters: seq<Character>, used: seq<string>, c: Character)
    requires Exhausted(characters, used) && c in Candidates(characters)
    ensures exists r :: IsRandom(r) && DrawCharacter(characters, used, r) == Drawn(c, [Key(c)])
  {
    var pool := Candidates(characters);
    var i :| 0 <= i < |pool| && pool[i] == c;
    var r := i as real / |pool| as real;
    IndexValue(i, |pool|);
    assert [] + [Key(c)] == [Key(c)];
    assert DrawCharacter(characters, used, r) == Drawn(c, [Key(c)]);
  }

  /** The keys of the characters that can be drawn. */
  function CandidateKeys(characters: seq<Character>): set<string>
  {
    set c | c in Candidates(characters) :: Key(c)
  }

  /** Every character of the roster but the excluded one has a candidate key. */
  lemma CandidateKeyOf(characters: seq<Character>, c: Character)
    requires c in characters && Key(c) != ExcludedName
    ensures Key(c) in CandidateKeys(characters)
  {
    CandidatesMembers(characters, c);
  }

  /** What usedCharacters holds between draws: keys of candidates, none of them twice. */
  predicate UsedWellFormed(characters: seq<Character>, used: seq<string>)
  {
    && NoDup(used)
    && forall i :: 0 <= i < |used| ==> used[i] in CandidateKeys(characters)
  }

  /** Every draw keeps the used list well formed, so it never grows past the number of
      distinct candidate keys: no key is drawn twice before all of them have been drawn. */
  lemma DrawKeepsUsedWellFormed(characters: seq<Character>, used: seq<string>, rand: real)
    requires IsRandom(rand)
    requires UsedWellFormed(characters, used)
    requires DrawCharacter(characters, used, rand).Drawn?
    ensures UsedWellFormed(characters, DrawCharacter(characters, used, rand).used)
    ensures |DrawCharacter(characters, used, rand).used| <= |CandidateKeys(characters)|
  {
    DrawnIsFreshCandidate(characters, used, rand);
    var d := DrawCharacter(characters, used, rand);
    CandidateKeyOf(characters, d.character);
    UsedBound(d.used, CandidateKeys(characters));
  }

  /** A list without repetitions drawn from a set is no longer than the set. */
  lemma {:induction false} UsedBound(used: seq<string>, keys: set<string>)
    requires NoDup(used)
    requires forall i :: 0 <= i < |used| ==> used[i] in keys
    ensures |used| <= |keys|
  {
    if used != [] {
      var last := used[|used| - 1];
      var front := used[..|used| - 1];
      assert last !in front;
      UsedBound(front, keys - {last});
    }
  }

  /** The number of candidates in the first k entries of a roster in which exactly one entry
      is excluded. */
  lemma {:induction false} OneExcluded(characters: seq<Character>, excluded: nat, k: nat)
    requires excluded < |characters| && k <= |characters|
    requires forall i :: 0 <= i < |characters| ==> (Key(characters[i]) == ExcludedName <==> i == excluded)
    ensures |Candidates(characters[..k])| == if k > excluded then k - 1 else k
    ensures k == |characters| ==> |Candidates(characters)| == |characters| - 1
  {
    assert characters[..|characters|] == characters;
    if k > 0 {
      OneExcluded(characters, excluded, k - 1);
      CountStep(characters, excluded, k, Key(characters[k - 1]) == ExcludedName);
    }
  }

  lemma CountStep(characters: seq<Character>, excluded: nat, k: nat, lastExcluded: bool)
    requires excluded < |characters| && 0 < k <= |characters|
    requires lastExcluded == (Key(characters[k - 1]) == ExcludedName)
    requires lastExcluded <==> k - 1 == excluded
    requires |Candidates(characters[..k - 1])| == if k - 1 > excluded then k - 2 else k - 1
    ensures |Candidates(characters[..k])| == if k > excluded then k - 1 else k
  {
    CandidatesStep(characters, k - 1);
  }

  /** Filtering one more entry of a roster appends it when it is not excluded. */
  lemma CandidatesStep(characters: seq<Character>, k: nat)
    requires k < |characters|
    ensures Candidates(characters[..k + 1]) ==
      Candidates(characters[..k]) + (if Key(characters[k]) != ExcludedName then [characters[k]] else [])
  {
    var prefix := characters[..k + 1];
    assert prefix[..|prefix| - 1] == characters[..k];
    assert prefix[|prefix| - 1] == characters[k];
  }

  /** The key of each shipped character is the stem of its file. */
  lemma ShippedKeys()
    ensures |Characters()| == |ShippedStemNames|
    ensures forall i :: 0 <= i < |Characters()| ==> Key(Characters()[i]) == ShippedStemNames[i]
  {
    TextureKeysMatch();
    ShippedStemsAreStems();
  }

  /** When the keys of a roster are words with increasing first letters, only the entry whose
      key is the excluded name is excluded. */
  lemma ExcludedByInitial(characters: seq<Character>, keys: seq<string>, excluded: nat)
    requires |characters| == |keys| && excluded < |keys|
    requires forall i :: 0 <= i < |keys| ==> Key(characters[i]) == keys[i] && |keys[i]| > 0
    requires forall i, j :: 0 <= i < j < |keys| ==> keys[i][0] < keys[j][0]
    requires keys[excluded] == ExcludedName
    ensures forall i :: 0 <= i < |characters| ==> (Key(characters[i]) == ExcludedName <==> i == excluded)
  {
    forall i | 0 <= i < |keys| && i != excluded ensures keys[i] != ExcludedName {
      assert keys[i][0] != keys[excluded][0];
    }
  }

  /** The keys of the shipped characters are non-empty stems, and the eighth is excluded. */
  lemma ShippedKeyFacts()
    ensures |Characters()| == |ShippedStemNames| == |CharacterFiles| && 7 < |ShippedStemNames|
    ensures forall i :: 0 <= i < |ShippedStemNames| ==>
      Key(Characters()[i]) == ShippedStemNames[i] && |ShippedStemNames[i]| > 0
    ensures ShippedStemNames[7] == ExcludedName
  {
    ShippedKeys();
    ShippedInitialsIncrease();
    EighthIsExcluded();
  }

  lemma EighthIsExcluded()
    ensures 7 < |ShippedStemNames| && ShippedStemNames[7] == ExcludedName
  {
  }

  /** Exactly the eighth shipped character is excluded. */
  lemma ShippedExclusion()
    ensures |Characters()| == |CharacterFiles|
    ensures forall i :: 0 <= i < |Characters()| ==> (Key(Characters()[i]) == ExcludedName <==> i == 7)
  {
    ShippedKeyFacts();
    ShippedInitialsIncrease();
    ExcludedByInitial(Characters(), ShippedStemNames, 7);
  }

  /** In the shipped roster every character but one can be drawn, enough for a whole game. */
  lemma ShippedRosterSuffices()
    ensures |Candidates(Characters())| == |CharacterFiles| - 1
    ensures |Candidates(Characters())| >= TotalCharacters
  {
    ShippedExclusion();
    OneExcluded(Characters(), 7, |Characters()|);
  }

  /** No two shipped characters share a key, so the used list tells them apart. */
  lemma ShippedKeysDistinct()
    ensures forall i, j :: 0 <= i < j < |Characters()| ==> Key(Characters()[i]) != Key(Characters()[j])
  {
    ShippedKeys();
    ShippedInitialsIncrease();
  }
}
