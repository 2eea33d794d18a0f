/** The letter tiles of one round (js/scenes/Game.js, generateLetterButtons lines 529-554 and
    588-591, shuffleArray lines 2386-2401): the distinct characters of the target word, random
    distractor letters up to sixteen tiles, a Fisher-Yates shuffle, and lower-casing of every
    tile in lowercase mode. */
module LetterGrid {
  import opened Text
  import opened Randomness

  /** The letters distractors are drawn from. */
  const Alphabet: string := "ABCDEFGHIJKLMNOPQRSTUVWXYZ"

  /** Tiles wanted per round (two rows of eight). */
  const GridSize: nat := 16

  const Rows: nat := 2
  const ButtonsPerRow: nat := 8

  // ---------------------------------------------------------------------------------------
  // Target letters

  /** [...new Set(word.split(''))]: each character of the word once, case-sensitively. */
  function DistinctLetters(word: string): (letters: string)
    ensures NoDup(letters)
    ensures forall k :: 0 <= k < |letters| ==> letters[k] in word
    ensures |letters| <= |word|
  {
    if word == [] then []
    else
      var front := DistinctLetters(word[..|word| - 1]);
      var last := word[|word| - 1];
      assert word == word[..|word| - 1] + [last];
      if last in front then front else front + [last]
  }

  /** The distinct letters are exactly the characters of the word. */
  lemma {:induction false} DistinctLettersMembers(word: string, c: char)
    ensures c in DistinctLetters(word) <==> c in word
  {
    if word != [] {
      var front := word[..|word| - 1];
      assert word == front + [word[|word| - 1]];
      DistinctLettersMembers(front, c);
    }
  }

  /** A word without repeated characters is its own list of distinct letters. */
  lemma {:induction false} DistinctLettersOfDistinct(word: string)
    requires NoDup(word)
    ensures DistinctLetters(word) == word
  {
    if word != [] {
      var front := word[..|word| - 1];
      DistinctLettersOfDistinct(front);
      assert word == front + [word[|word| - 1]];
    }
  }

  /** The position of the first occurrence of c in s. */
  function FirstIndex(s: string, c: char): (i: nat)
    requires c in s
    ensures i < |s| && s[i] == c && c !in s[..i]
  {
    if s[0] == c then 0 else 1 + FirstIndex(s[1..], c)
  }

  /** A Set keeps insertion order, so the distinct letters come in the order of their first
      occurrence in the word. */
  lemma {:induction false} DistinctLettersInFirstOccurrenceOrder(word: string)
    ensures forall i, j :: 0 <= i < j < |DistinctLetters(word)| ==>
      FirstIndex(word, DistinctLetters(word)[i]) < FirstIndex(word, DistinctLetters(word)[j])
  {
    if word != [] {
      var front := word[..|word| - 1];
      var last := word[|word| - 1];
      DistinctLettersInFirstOccurrenceOrder(front);
      var letters := DistinctLetters(word);
      forall i | 0 <= i < |DistinctLetters(front)|
        ensures FirstIndex(word, DistinctLetters(front)[i]) == FirstIndex(front, DistinctLetters(front)[i])
      {
        FirstIndexInPrefix(word, front, DistinctLetters(front)[i]);
      }
      if last !in DistinctLetters(front) {
        DistinctLettersMembers(front, last);
        assert word[..|word| - 1] == front;
        assert FirstIndex(word, last) == |word| - 1;
      }
    }
  }

  /** A character occurring in a prefix is first found at the same place in the whole string. */
  lemma {:induction false} FirstIndexInPrefix(s: string, prefix: string, c: char)
    requires prefix <= s && c in prefix
    ensures FirstIndex(s, c) == FirstIndex(prefix, c)
  {
    if s[0] != c {
      assert prefix[0] == s[0];
      FirstIndexInPrefix(s[1..], prefix[1..], c);
    }
  }

  // ---------------------------------------------------------------------------------------
  // Distractors

  /** Math.max(0, 16 - targetLetters.length). */
  function NeededDistractors(letterCount: nat): (needed: nat)
    ensures letterCount + needed == Max(GridSize, letterCount)
  {
    if letterCount >= GridSize then 0 else GridSize - letterCount
  }

  /** What the rejection loop accepts: capital letters of the alphabet, none of them a target
      letter (compared case-sensitively), none chosen twice. */
  predicate Admissible(targetLetters: string, distractors: string)
  {
    && NoDup(distractors)
    && forall i :: 0 <= i < |distractors| ==> distractors[i] in Alphabet && distractors[i] !in targetLetters
  }

  /** The loop of lines 540-545. Each pass draws a random capital letter and keeps it when it
      is admissible; the model lets each kept draw be any admissible letter. */
  method PickDistractors(targetLetters: string) returns (distractors: string)
    ensures |distractors| == NeededDistractors(|targetLetters|)
    ensures Admissible(targetLetters, distractors)
  {
    var needed := NeededDistractors(|targetLetters|);
    distractors := [];
    while |distractors| < needed
      invariant |distractors| <= needed
      invariant Admissible(targetLetters, distractors)
      decreases needed - |distractors|
    {
      FreeLetterExists(targetLetters, distractors);
      var letter :| letter in Alphabet && letter !in targetLetters && letter !in distractors;
      NoDupSnoc(distractors, letter);
      distractors := distractors + [letter];
    }
  }

  /** The alphabet holds the 26 capitals in code order. */
  lemma AlphabetCodes()
    ensures |Alphabet| == 26
    ensures forall k :: 0 <= k < 26 ==> Alphabet[k] as int == 'A' as int + k
  {
  }

  /** A sequence without repetitions has as many distinct elements as entries. */
  lemma {:induction false} DistinctCount<T>(s: seq<T>)
    requires NoDup(s)
    ensures |set x | x in s| == |s|
  {
    if s != [] {
      var front := s[..|s| - 1];
      DistinctCount(front);
      assert (set x | x in s) == (set x | x in front) + {s[|s| - 1]};
    }
  }

  /** A sequence has at most as many distinct elements as entries. */
  lemma {:induction false} ElementCount<T>(s: seq<T>)
    ensures |set x | x in s| <= |s|
  {
    if s != [] {
      var front := s[..|s| - 1];
      ElementCount(front);
      assert (set x | x in s) == (set x | x in front) + {s[|s| - 1]};
    }
  }

  lemma {:induction false} SubsetCount<T>(a: set<T>, b: set<T>)
    requires a <= b
    ensures |a| <= |b|
  {
    if a != {} {
      var x :| x in a;
      SubsetCount(a - {x}, b - {x});
    }
  }

  /** While fewer than 26 letters are ruled out, some letter of the alphabet is still admissible,
      so the rejection loop can always make progress. */
  lemma FreeLetterExists(targetLetters: string, distractors: string)
    requires |targetLetters| + |distractors| < |Alphabet|
    ensures exists c :: c in Alphabet && c !in targetLetters && c !in distractors
  {
    if forall c :: c in Alphabet ==> c in targetLetters || c in distractors {
      AlphabetCodes();
      NoDupPairwise(Alphabet);
      DistinctCount(Alphabet);
      var letters := set x | x in Alphabet;
      var taken := (set x | x in targetLetters) + (set x | x in distractors);
      assert letters <= taken;
      SubsetCount(letters, taken);
      ElementCount(targetLetters);
      ElementCount(distractors);
      assert false;
    }
  }

  // ---------------------------------------------------------------------------------------
  // Shuffle

  /** One pass of the shuffle: the elements at i and j trade places. */
  function Swap<T>(s: seq<T>, i: nat, j: nat): (r: seq<T>)
    requires i < |s| && j < |s|
    ensures |r| == |s|
  {
    s[i := s[j]][j := s[i]]
  }

  /** Indices a shuffle of n elements may pick: the k-th pass picks below n - k. */
  predicate ValidPicks(picks: seq<nat>, n: nat)
  {
    |picks| == n && forall k :: 0 <= k < n ==> picks[k] < n - k
  }

  /** The indices shuffleArray picks for n elements when the k-th call of Math.random()
      returns rands[k]: Math.floor(rands[k] * currentIndex), currentIndex being n - k. */
  function ShufflePicks(rands: seq<real>, n: nat): (picks: seq<nat>)
    requires n <= |rands| && AllRandom(rands)
    ensures ValidPicks(picks, n)
  {
    seq(n, k requires 0 <= k < n => RandomIndex(rands[k], n - k))
  }

  /** The outcome of shuffleArray after `current` more passes with the given picks: each pass
      decrements `current` and swaps the element there with the one at the picked index. */
  function Shuffled<T>(s: seq<T>, picks: seq<nat>, current: nat): seq<T>
    requires current <= |s| && ValidPicks(picks, |s|)
    decreases current
  {
    if current == 0 then s
    else
      var randomIndex := picks[|s| - current];
      Shuffled(Swap(s, current - 1, randomIndex), picks, current - 1)
  }

  /** shuffleArray: Fisher-Yates in place, drawing one random value per element. */
  method ShuffleInPlace<T>(a: array<T>, rands: seq<real>)
    requires a.Length <= |rands| && AllRandom(rands)
    modifies a
    ensures a[..] == Shuffled(old(a[..]), ShufflePicks(rands, a.Length), a.Length)
  {
    ghost var picks := ShufflePicks(rands, a.Length);
    var currentIndex: nat := a.Length;
    while currentIndex != 0
      invariant currentIndex <= a.Length
      invariant Shuffled(a[..], picks, currentIndex) == Shuffled(old(a[..]), picks, a.Length)
    {
      var randomIndex := RandomIndex(rands[a.Length - currentIndex], currentIndex);
      assert randomIndex == picks[a.Length - currentIndex];
      currentIndex := currentIndex - 1;
      a[currentIndex], a[randomIndex] := a[randomIndex], a[currentIndex];
    }
  }

  /** The shuffle is a permutation: same length, same elements with the same multiplicities. */
  lemma {:induction false} ShuffledIsPermutation<T>(s: seq<T>, picks: seq<nat>, current: nat)
    requires current <= |s| && ValidPicks(picks, |s|)
    ensures |Shuffled(s, picks, current)| == |s|
    ensures multiset(Shuffled(s, picks, current)) == multiset(s)
    decreases current
  {
    if current > 0 {
      var randomIndex := picks[|s| - current];
      var t := Swap(s, current - 1, randomIndex);
      SwapIsPermutation(s, current - 1, randomIndex);
      ShuffledIsPermutation(t, picks, current - 1);
    }
  }

  lemma SwapIsPermutation<T>(s: seq<T>, i: nat, j: nat)
    requires i < |s| && j < |s|
    ensures multiset(Swap(s, i, j)) == multiset(s)
  {
    var r := s[i := s[j]];
    assert multiset(r) == multiset(s) - multiset{s[i]} + multiset{s[j]};
    assert multiset(r[j := s[i]]) == multiset(r) - multiset{r[j]} + multiset{s[i]};
  }

  /** The shuffle neither creates nor removes a repeated element. */
  lemma {:induction false} ShuffledKeepsNoDup<T>(s: seq<T>, picks: seq<nat>, current: nat)
    requires current <= |s| && ValidPicks(picks, |s|)
    ensures NoDup(Shuffled(s, picks, current)) <==> NoDup(s)
    decreases current
  {
    if current > 0 {
      var randomIndex := picks[|s| - current];
      var t := Swap(s, current - 1, randomIndex);
      SwapKeepsNoDup(s, current - 1, randomIndex);
      ShuffledKeepsNoDup(t, picks, current - 1);
    }
  }

  lemma SwapKeepsNoDup<T>(s: seq<T>, i: nat, j: nat)
    requires i < |s| && j < |s|
    ensures NoDup(Swap(s, i, j)) <==> NoDup(s)
  {
    var r := Swap(s, i, j);
    NoDupPairwise(s);
    NoDupPairwise(r);
    // The swap is its own inverse, so each direction is the same argument.
    assert forall k :: 0 <= k < |s| ==> s[k] == r[if k == i then j else if k == j then i else k];
    assert forall k :: 0 <= k < |s| ==> r[k] == s[if k == i then j else if k == j then i else k];
  }

  /** Lower-casing after the shuffle is lower-casing before it. */
  lemma {:induction false} LowerCommutesWithShuffle(s: string, picks: seq<nat>, current: nat)
    requires current <= |s| && ValidPicks(picks, |s|)
    ensures Lower(Shuffled(s, picks, current)) == Shuffled(Lower(s), picks, current)
    decreases current
  {
    if current > 0 {
      var randomIndex := picks[|s| - current];
      assert Lower(Swap(s, current - 1, randomIndex)) == Swap(Lower(s), current - 1, randomIndex);
      LowerCommutesWithShuffle(Swap(s, current - 1, randomIndex), picks, current - 1);
    }
  }

  // ---------------------------------------------------------------------------------------
  // The grid

  /** How many tiles a word gets: sixteen, or more when the word alone has more distinct
      characters. */
  function TileCount(targetWord: string): (n: nat)
    ensures n == Max(GridSize, |DistinctLetters(targetWord)|)
  {
    var letters := DistinctLetters(targetWord);
    |letters| + NeededDistractors(|letters|)
  }

  /** A word gets no more tiles than a bound covering both the grid and the word's length. */
  lemma TileCountAtMost(targetWord: string, bound: nat)
    requires GridSize <= bound && |targetWord| <= bound
    ensures TileCount(targetWord) <= bound
  {
  }

  /** The tiles for given distractors and random values: target letters then distractors,
      shuffled, then lower-cased when the lowercase flag is set. */
  function Tiles(targetWord: string, distractors: string, rands: seq<real>, lowercase: bool): string
    requires |DistinctLetters(targetWord) + distractors| <= |rands| && AllRandom(rands)
  {
    var all := DistinctLetters(targetWord) + distractors;
    var shuffled := Shuffled(all, ShufflePicks(rands, |all|), |all|);
    if lowercase then Lower(shuffled) else shuffled
  }

  /** The letter part of generateLetterButtons. Random values come from rands in the order of
      the calls to Math.random() in the shuffle; the distractors are any admissible ones. */
  method GenerateLetters(targetWord: string, lowercase: bool, rands: seq<real>)
    returns (distractors: string, tiles: string)
    requires TileCount(targetWord) <= |rands| && AllRandom(rands)
    ensures |distractors| == NeededDistractors(|DistinctLetters(targetWord)|)
    ensures Admissible(DistinctLetters(targetWord), distractors)
    ensures tiles == Tiles(targetWord, distractors, rands, lowercase)
  {
    var targetLetters := DistinctLetters(targetWord);
    distractors := PickDistractors(targetLetters);
    var allLetters := targetLetters + distractors;
    var buffer := new char[|allLetters|](i requires 0 <= i < |allLetters| => allLetters[i]);
    assert buffer[..] == allLetters;
    ShuffleInPlace(buffer, rands);
    tiles := if lowercase then Lower(buffer[..]) else buffer[..];
  }

  /** A round has sixteen tiles, or one per distinct character when the word has more. */
  lemma GridSizeIsSixteen(targetWord: string, distractors: string, rands: seq<real>, lowercase: bool)
    requires |distractors| == NeededDistractors(|DistinctLetters(targetWord)|)
    requires TileCount(targetWord) <= |rands| && AllRandom(rands)
    ensures |Tiles(targetWord, distractors, rands, lowercase)| == TileCount(targetWord)
  {
    var all := DistinctLetters(targetWord) + distractors;
    ShuffledIsPermutation(all, ShufflePicks(rands, |all|), |all|);
  }

  /** Every character of the target word is on some tile (in lowercase mode, its lower-case
      form is). */
  lemma GridHasEveryLetter(targetWord: string, distractors: string, rands: seq<real>, lowercase: bool, c: char)
    requires |distractors| == NeededDistractors(|DistinctLetters(targetWord)|)
    requires TileCount(targetWord) <= |rands| && AllRandom(rands)
    requires c in targetWord
    ensures (if lowercase then LowerChar(c) else c) in Tiles(targetWord, distractors, rands, lowercase)
  {
    var all := DistinctLetters(targetWord) + distractors;
    ShuffledIsPermutation(all, ShufflePicks(rands, |all|), |all|);
    DistinctLettersMembers(targetWord, c);
    assert c in multiset(all);
    var shuffled := Shuffled(all, ShufflePicks(rands, |all|), |all|);
    assert c in multiset(shuffled);
    var k :| 0 <= k < |shuffled| && shuffled[k] == c;
    if lowercase {
      assert Lower(shuffled)[k] == LowerChar(c);
    }
  }

  /** Unless the lowercase flag is set, no glyph appears on two tiles. */
  lemma GridGlyphsDistinct(targetWord: string, distractors: string, rands: seq<real>)
    requires |distractors| == NeededDistractors(|DistinctLetters(targetWord)|)
    requires Admissible(DistinctLetters(targetWord), distractors)
    requires TileCount(targetWord) <= |rands| && AllRandom(rands)
    ensures NoDup(Tiles(targetWord, distractors, rands, false))
  {
    var letters := DistinctLetters(targetWord);
    var all := letters + distractors;
    NoDupAppend(letters, distractors);
    ShuffledKeepsNoDup(all, ShufflePicks(rands, |all|), |all|);
  }

  /** No tile of a grid built from a word without small letters is a small letter. */
  lemma NoLowerTiles(targetWord: string, distractors: string, rands: seq<real>)
    requires AllUpper(targetWord)
    requires Admissible(DistinctLetters(targetWord), distractors)
    requires |DistinctLetters(targetWord) + distractors| <= |rands| && AllRandom(rands)
    ensures forall k :: 0 <= k < |Tiles(targetWord, distractors, rands, false)| ==>
      !IsLower(Tiles(targetWord, distractors, rands, false)[k])
  {
    var letters := DistinctLetters(targetWord);
    var all := letters + distractors;
    AlphabetCodes();
    forall m | 0 <= m < |all| ensures !IsLower(all[m]) {
      if m >= |letters| {
        assert all[m] == distractors[m - |letters|];
      } else {
        assert all[m] in targetWord;
      }
    }
    ShuffledIsPermutation(all, ShufflePicks(rands, |all|), |all|);
    var tiles := Shuffled(all, ShufflePicks(rands, |all|), |all|);
    forall k | 0 <= k < |tiles| ensures !IsLower(tiles[k]) {
      assert tiles[k] in multiset(all);
    }
  }

  /** In uppercase mode (a word without small letters, the lowercase flag clear) no two tiles
      show the same letter even ignoring case. */
  lemma UppercaseGridLettersDistinct(targetWord: string, distractors: string, rands: seq<real>)
    requires AllUpper(targetWord)
    requires |distractors| == NeededDistractors(|DistinctLetters(targetWord)|)
    requires Admissible(DistinctLetters(targetWord), distractors)
    requires TileCount(targetWord) <= |rands| && AllRandom(rands)
    ensures NoDup(Upper(Tiles(targetWord, distractors, rands, false)))
  {
    var tiles := Tiles(targetWord, distractors, rands, false);
    GridGlyphsDistinct(targetWord, distractors, rands);
    NoLowerTiles(targetWord, distractors, rands);
    assert Upper(tiles) == tiles;
  }

  /** In lowercase mode the tiles repeat a glyph exactly when the lower-cased target letters
      and distractors do: shuffling neither adds nor removes a repetition. */
  lemma LowercaseTilesDistinct(targetWord: string, distractors: string, rands: seq<real>)
    requires |DistinctLetters(targetWord) + distractors| <= |rands| && AllRandom(rands)
    ensures NoDup(Tiles(targetWord, distractors, rands, true)) <==>
      NoDup(Lower(DistinctLetters(targetWord) + distractors))
  {
    var all := DistinctLetters(targetWord) + distractors;
    var picks := ShufflePicks(rands, |all|);
    LowerCommutesWithShuffle(all, picks, |all|);
    ShuffledKeepsNoDup(Lower(all), picks, |all|);
  }

  /** In lowercase mode the distractors are still drawn as capitals and compared with the
      target letters case-sensitively, so a distractor whose small form is a letter of the
      word puts that glyph on two tiles. */
  lemma LowercaseGridRepeatsGlyph(targetWord: string, distractors: string, rands: seq<real>, letter: char, capital: char)
    requires |DistinctLetters(targetWord) + distractors| <= |rands| && AllRandom(rands)
    requires letter in targetWord && capital in distractors && LowerChar(capital) == LowerChar(letter)
    ensures !NoDup(Tiles(targetWord, distractors, rands, true))
  {
    DistinctLettersMembers(targetWord, letter);
    LowerJoinRepeats(DistinctLetters(targetWord), distractors, letter, capital);
    LowercaseTilesDistinct(targetWord, distractors, rands);
  }

  /** Lower-casing a letter and a distractor with the same small form repeats it. */
  lemma LowerJoinRepeats(letters: string, distractors: string, letter: char, capital: char)
    requires letter in letters && capital in distractors && LowerChar(capital) == LowerChar(letter)
    ensures !NoDup(Lower(letters + distractors))
  {
    var i :| 0 <= i < |letters| && letters[i] == letter;
    var k :| 0 <= k < |distractors| && distractors[k] == capital;
    var all := letters + distractors;
    assert Lower(all)[i] == LowerChar(letter) == Lower(all)[|letters| + k];
    RepeatBreaksNoDup(Lower(all), i, |letters| + k);
  }

  /** For "mario" the capital 'O' is an admissible distractor although 'o' is in the word, so
      in lowercase mode a grid for "mario" can show 'o' twice. */
  lemma MarioAdmitsCapitalO()
    ensures Admissible(DistinctLetters("mario"), "O")
    ensures 'o' in "mario" && LowerChar('O') == LowerChar('o')
  {
    MarioLettersDistinct();
    assert "mario"[4] == 'o';
    assert Alphabet[14] == 'O';
  }

  lemma MarioLettersDistinct()
    ensures DistinctLetters("mario") == "mario"
  {
    NoDupPairwise("mario");
    DistinctLettersOfDistinct("mario");
  }

  /** In mixed mode the name "Anpanman" is spelled "Anpanman", whose distinct characters
      include both 'A' and 'a': two tiles for one letter. */
  lemma MixedModeKeepsBothCases()
    ensures 'A' in DistinctLetters("Anpanman") && 'a' in DistinctLetters("Anpanman")
  {
    assert "Anpanman"[0] == 'A' && "Anpanman"[3] == 'a';
    DistinctLettersMembers("Anpanman", 'A');
    DistinctLettersMembers("Anpanman", 'a');
  }

  // ---------------------------------------------------------------------------------------
  // Buttons

  /** The nested row/column loop that creates buttons: slot r * 8 + c gets a button only when
      it holds a tile, so exactly the first sixteen tiles get one, in order. */
  method LayoutButtons(tiles: string) returns (labels: string)
    ensures labels == tiles[..Min(Rows * ButtonsPerRow, |tiles|)]
  {
    labels := [];
    for r := 0 to Rows
      invariant labels == tiles[..Min(r * ButtonsPerRow, |tiles|)]
    {
      for c := 0 to ButtonsPerRow
        invariant labels == tiles[..Min(r * ButtonsPerRow + c, |tiles|)]
      {
        var index := r * ButtonsPerRow + c;
        if index >= |tiles| {
          continue;
        }
        assert tiles[..index + 1] == tiles[..index] + [tiles[index]];
        labels := labels + [tiles[index]];
      }
    }
  }

  /** A laid-out grid for a target word: admissible distractors that fill the grid, the tiles
      they and the word's letters shuffle into with the given random values, and the labels of
      the buttons created for the first sixteen tiles. */
  predicate LaidOut(targetWord: string, lowercase: bool, rands: seq<real>, distractors: string, tiles: string, labels: string)
  {
    && TileCount(targetWord) <= |rands| && AllRandom(rands)
    && |distractors| == NeededDistractors(|DistinctLetters(targetWord)|)
    && Admissible(DistinctLetters(targetWord), distractors)
    && tiles == Tiles(targetWord, distractors, rands, lowercase)
    && labels == tiles[..Min(GridSize, |tiles|)]
  }
}
