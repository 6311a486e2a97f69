/** generate_password of the main module: the copy that checks for an empty
    pool before drawing and returns an error message instead. */
module Generator {
  import opened CharacterPool

  /** What the module returns, in place of a password, for an empty pool. */
  const NoCharactersMessage: string := "Error: No characters selected!"

  /** The main module's generate_password. `picks` are the indices random.choice
      returned, one per iteration of `range(length)`. */
  function GeneratePassword(length: int, useUppercase: bool, useDigits: bool, useSymbols: bool,
                            picks: seq<nat>): (password: string)
    requires |picks| == Iterations(length)
    requires InBounds(picks, |Pool(useUppercase, useDigits, useSymbols)|)
    ensures length >= 0 ==> |password| == length
    ensures length <= 0 ==> password == ""
    ensures forall c | c in password :: c in Pool(useUppercase, useDigits, useSymbols)
  {
    var allChars := Pool(useUppercase, useDigits, useSymbols);
    if |allChars| == 0 then NoCharactersMessage else Draw(allChars, picks)
  }

  /** The empty-pool branch is dead: whatever the flags, the result is never
      the error message (it holds a space, which no pool contains). */
  lemma NeverReportsEmptyPool(length: int, useUppercase: bool, useDigits: bool, useSymbols: bool,
                              picks: seq<nat>)
    requires |picks| == Iterations(length)
    requires InBounds(picks, |Pool(useUppercase, useDigits, useSymbols)|)
    ensures |Pool(useUppercase, useDigits, useSymbols)| > 0
    ensures GeneratePassword(length, useUppercase, useDigits, useSymbols, picks) != NoCharactersMessage
  {
    var password := GeneratePassword(length, useUppercase, useDigits, useSymbols, picks);
    PoolMembers(useUppercase, useDigits, useSymbols, ' ');
    SymbolsNotAlphanumeric();
    assert NoCharactersMessage[6] == ' ';
    assert ' ' !in password;
  }

  /** With every flag cleared the password consists of lowercase letters
      only. */
  lemma LowercaseOnly(length: int, picks: seq<nat>)
    requires |picks| == Iterations(length)
    requires InBounds(picks, |Pool(false, false, false)|)
    ensures forall c | c in GeneratePassword(length, false, false, false, picks) :: IsLower(c)
  {
    forall c | c in GeneratePassword(length, false, false, false, picks)
      ensures IsLower(c)
    {
      LowercasePool(c);
    }
  }
}
