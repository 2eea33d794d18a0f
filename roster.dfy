/** The character roster built when loading finishes (js/scenes/Preload.js):
    every image file name becomes a character record. */
module Roster {
  import opened Text

  /** One entry of window.characters. */
  datatype Character = Character(name: string, image: string, description: string)

  /** The image files shipped with the game, in load order. */
  const CharacterFiles: seq<string> := [
    "anpanman.png", "conan.png", "doraemon.png", "goku.png",
    "kirby.png", "luffy.png", "mario.png", "naruto.png",
    "pikachu.png", "sonic.png", "totoro.png"
  ]

  /** filename.split('.')[0]: the text before the first '.', or the whole name when there is none. */
  function Stem(filename: string): (stem: string)
    ensures stem <= filename
    ensures '.' !in stem
    ensures |stem| < |filename| ==> filename[|stem|] == '.'
  {
    if filename == [] || filename[0] == '.' then [] else [filename[0]] + Stem(filename[1..])
  }

  /** The record one file name yields. */
  function CharacterOf(filename: string): Character
  {
    var name := Upper(Stem(filename));
    Character(name, filename, "Character " + name)
  }

  /** generateCharactersArray: one record per file name, in the same order; the name is the
      upper-cased stem, the image the file name, the description "Character " and the name. */
  function GenerateCharactersArray(files: seq<string>): (characters: seq<Character>)
    ensures |characters| == |files|
    ensures forall i :: 0 <= i < |files| ==>
      && characters[i].name == Upper(Stem(files[i]))
      && characters[i].image == files[i]
      && characters[i].description == "Character " + characters[i].name
  {
    if files == [] then [] else [CharacterOf(files[0])] + GenerateCharactersArray(files[1..])
  }

  /** The roster the game plays with (window.characters). */
  function Characters(): seq<Character> { GenerateCharactersArray(CharacterFiles) }

  /** Upper-casing a string without capitals and lower-casing it again gives it back. */
  lemma LowerOfUpper(s: string)
    requires AllLower(s)
    ensures Lower(Upper(s)) == s
  {
    forall i | 0 <= i < |s| ensures Lower(Upper(s))[i] == s[i] {
      assert Upper(s)[i] == UpperChar(s[i]);
    }
  }

  /** The stems of the shipped files, as written in their names. */
  const ShippedStemNames: seq<string> := [
    "anpanman", "conan", "doraemon", "goku", "kirby", "luffy",
    "mario", "naruto", "pikachu", "sonic", "totoro"
  ]

  lemma ShippedStemsAreStems()
    ensures |ShippedStemNames| == |CharacterFiles|
    ensures forall i :: 0 <= i < |CharacterFiles| ==> Stem(CharacterFiles[i]) == ShippedStemNames[i]
  {
    forall i | 0 <= i < |CharacterFiles|
      ensures Stem(CharacterFiles[i]) == ShippedStemNames[i]
    {
      assert CharacterFiles[i] == ShippedStemNames[i] + ".png";
      StemOfPng(ShippedStemNames[i]);
    }
  }

  /** The shipped stems are in strictly increasing order of their first letters. */
  lemma ShippedInitialsIncrease()
    ensures forall i :: 0 <= i < |ShippedStemNames| ==> |ShippedStemNames[i]| > 0
    ensures forall i, j :: 0 <= i < j < |ShippedStemNames| ==> ShippedStemNames[i][0] < ShippedStemNames[j][0]
  {
    var initials := seq(|ShippedStemNames|, i requires 0 <= i < |ShippedStemNames| => ShippedStemNames[i][0]);
    assert initials == "acdgklmnpst";
    forall i, j | 0 <= i < j < |initials| ensures initials[i] < initials[j] {
      var k := i;
      while k < j
        invariant i <= k <= j
        invariant initials[i] <= initials[k]
        invariant k > i ==> initials[i] < initials[k]
      {
        k := k + 1;
      }
    }
  }

  /** Every stem of the shipped files is made of lower-case letters, and no two files share a stem. */
  lemma ShippedStems()
    ensures forall i :: 0 <= i < |CharacterFiles| ==> AllLower(Stem(CharacterFiles[i]))
    ensures forall i, j :: 0 <= i < j < |CharacterFiles| ==> Stem(CharacterFiles[i]) != Stem(CharacterFiles[j])
  {
    ShippedStemsAreStems();
    ShippedInitialsIncrease();
    ShippedStemNamesLower();
  }

  lemma ShippedStemNamesLower()
    ensures forall i :: 0 <= i < |ShippedStemNames| ==> AllLower(ShippedStemNames[i])
  {
    forall i | 0 <= i < |ShippedStemNames| ensures AllLower(ShippedStemNames[i]) {
      LowerStemAt(i);
    }
  }

  lemma LowerStemAt(i: nat)
    requires i < |ShippedStemNames|
    ensures AllLower(ShippedStemNames[i])
  {
    if i == 0 { assert ShippedStemNames[0] == "anpanman"; }
    else if i == 1 { assert ShippedStemNames[1] == "conan"; }
    else if i == 2 { assert ShippedStemNames[2] == "doraemon"; }
    else if i == 3 { assert ShippedStemNames[3] == "goku"; }
    else if i == 4 { assert ShippedStemNames[4] == "kirby"; }
    else if i == 5 { assert ShippedStemNames[5] == "luffy"; }
    else if i == 6 { assert ShippedStemNames[6] == "mario"; }
    else if i == 7 { assert ShippedStemNames[7] == "naruto"; }
    else if i == 8 { assert ShippedStemNames[8] == "pikachu"; }
    else if i == 9 { assert ShippedStemNames[9] == "sonic"; }
    else { assert ShippedStemNames[10] == "totoro"; }
  }

  /** The stem of "x.png" is x when x has no dot. */
  lemma {:induction false} StemOfPng(x: string)
    requires '.' !in x
    ensures Stem(x + ".png") == x
  {
    if x != [] {
      assert (x + ".png")[1..] == x[1..] + ".png";
      StemOfPng(x[1..]);
    } else {
      assert (x + ".png")[0] == '.';
    }
  }

  /** The image of each character is loaded under its stem (Preload.js:58-60) and the game looks
      it up under name.toLowerCase() (Game.js:141): for the shipped files the two keys agree. */
  lemma TextureKeysMatch()
    ensures |Characters()| == |CharacterFiles|
    ensures forall i :: 0 <= i < |CharacterFiles| ==>
      Lower(Characters()[i].name) == Stem(CharacterFiles[i])
  {
    ShippedStems();
    forall i | 0 <= i < |CharacterFiles|
      ensures Lower(Characters()[i].name) == Stem(CharacterFiles[i])
    {
      LowerOfUpper(Stem(CharacterFiles[i]));
    }
  }
}
