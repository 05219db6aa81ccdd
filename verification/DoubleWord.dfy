/** The 64-bit unit that flash is programmed in, as both writers collect it: its eight bytes, and
    a flag for each that has been filled. */
module DoubleWord {

  const ZEROS: seq<nat> := [0, 0, 0, 0, 0, 0, 0, 0]
  const ERASED: seq<nat> := [255, 255, 255, 255, 255, 255, 255, 255]
  const NONE_SET: seq<bool> := [false, false, false, false, false, false, false, false]
  const ALL_SET: seq<bool> := [true, true, true, true, true, true, true, true]

  /** The double-word that holds a byte. */
  function Word(a: nat): nat { a / 8 * 8 }

  lemma WordOf(a: nat)
    ensures Word(a) % 8 == 0 && Word(a) <= a < Word(a) + 8
  {
  }

  lemma WordIs(word: nat, a: nat)
    requires word % 8 == 0 && word <= a < word + 8
    ensures Word(a) == word
  {
  }
}
