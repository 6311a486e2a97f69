/** The character classes both generate_password copies draw from, the pool
    they concatenate, and the draw that joins one pool character per step.

    Randomness is injected: `picks` holds, in draw order, the index that each
    call of random.choice returned. Any in-bounds index is allowed, so nothing
    here says anything about the distribution of the draws. */
module CharacterPool {

  // Python's string.ascii_lowercase, string.ascii_uppercase and string.digits,
  // and the symbol literal both copies of generate_password spell out.
  const Lowercase: string := "abcdefghijklmnopqrstuvwxyz"
  const Uppercase: string := "ABCDEFGHIJKLMNOPQRSTUVWXYZ"
  const Digits: string := "0123456789"
  const Symbols: string := "!@#$%^&*()_+-=[]{}|;:,.<>?"

  predicate IsLower(c: char) { 'a' <= c <= 'z' }
  predicate IsUpper(c: char) { 'A' <= c <= 'Z' }
  predicate IsDigit(c: char) { '0' <= c <= '9' }

  /** No character occurs twice in `s`. */
  predicate Distinct(s: string) {
    forall i, j | 0 <= i < j < |s| :: s[i] != s[j]
  }

  /** `s` is the run of consecutive code points that starts at `first`. */
  predicate IsRun(s: string, first: char) {
    forall i | 0 <= i < |s| :: s[i] as int == first as int + i
  }

  /** The pool of generate_password: lowercase always, then each selected
      class, concatenated in this fixed order. */
  function Pool(useUppercase: bool, useDigits: bool, useSymbols: bool): (pool: string)
    ensures |pool| == 26 + (if useUppercase then 26 else 0) + (if useDigits then 10 else 0)
                         + (if useSymbols then 26 else 0)
  {
    Lowercase
    + (if useUppercase then Uppercase else "")
    + (if useDigits then Digits else "")
    + (if useSymbols then Symbols else "")
  }

  /** Every index the oracle supplies is a valid index of a pool of size `n`. */
  predicate InBounds(picks: seq<nat>, n: nat) {
    forall k | 0 <= k < |picks| :: picks[k] < n
  }

  /** How many times `for _ in range(length)` runs. */
  function Iterations(length: int): nat {
    if length > 0 then length else 0
  }

  /** `"".join(random.choice(pool) for _ in ...)`, with the k-th choice
      being `pool[picks[k]]`. */
  function Draw(pool: string, picks: seq<nat>): (password: string)
    requires InBounds(picks, |pool|)
    ensures |password| == |picks|
    ensures forall k | 0 <= k < |picks| :: password[k] == pool[picks[k]]
    ensures forall c | c in password :: c in pool
  {
    if picks == [] then "" else [pool[picks[0]]] + Draw(pool, picks[1..])
  }

  // ---------------------------------------------------------------------
  // The four classes

  lemma LiteralRuns()
    ensures IsRun(Lowercase, 'a') && IsRun(Uppercase, 'A') && IsRun(Digits, '0')
  {
  }

  /** A run of consecutive code points has no repeats and holds exactly the
      characters of its range. */
  lemma RunFacts(s: string, first: char)
    requires IsRun(s, first)
    ensures Distinct(s)
    ensures forall c :: c in s <==> first as int <= c as int < first as int + |s|
  {
    forall c | first as int <= c as int < first as int + |s|
      ensures c in s
    {
      assert s[c as int - first as int] == c;
    }
  }

  /** Position of a character in Symbols, or -1 for any other character. */
  function SymbolRank(c: char): int {
    match c
    case '!' => 0  case '@' => 1  case '#' => 2  case '$' => 3  case '%' => 4
    case '^' => 5  case '&' => 6  case '*' => 7  case '(' => 8  case ')' => 9
    case '_' => 10 case '+' => 11 case '-' => 12 case '=' => 13 case '[' => 14
    case ']' => 15 case '{' => 16 case '}' => 17 case '|' => 18 case ';' => 19
    case ':' => 20 case ',' => 21 case '.' => 22 case '<' => 23 case '>' => 24
    case '?' => 25
    case _ => -1
  }

  lemma SymbolRankIsIndex()
    ensures forall i | 0 <= i < |Symbols| :: SymbolRank(Symbols[i]) == i
  {
  }

  /** The 26 symbols are pairwise different. */
  lemma SymbolsDistinct()
    ensures Distinct(Symbols)
  {
    SymbolRankIsIndex();
  }

  /** No symbol is a letter or a digit, and none is a space. */
  lemma SymbolsNotAlphanumeric()
    ensures forall c | c in Symbols :: !IsLower(c) && !IsUpper(c) && !IsDigit(c)
    ensures ' ' !in Symbols
  {
  }

  /** The three alphanumeric literals are exactly their ASCII ranges, without
      repeats. */
  lemma ClassMembership()
    ensures Distinct(Lowercase) && Distinct(Uppercase) && Distinct(Digits)
    ensures forall c :: c in Lowercase <==> IsLower(c)
    ensures forall c :: c in Uppercase <==> IsUpper(c)
    ensures forall c :: c in Digits <==> IsDigit(c)
  {
    LiteralRuns();
    RunFacts(Lowercase, 'a');
    RunFacts(Uppercase, 'A');
    RunFacts(Digits, '0');
  }

  // ---------------------------------------------------------------------
  // The pool

  /** A character is in the pool iff it is a lowercase letter or belongs to
      one of the selected classes; nothing else is ever added. */
  lemma PoolMembers(useUppercase: bool, useDigits: bool, useSymbols: bool, c: char)
    ensures c in Pool(useUppercase, useDigits, useSymbols) <==>
              IsLower(c) || (useUppercase && IsUpper(c)) || (useDigits && IsDigit(c))
              || (useSymbols && c in Symbols)
  {
    ClassMembership();
  }

  /** Lowercase letters are always in the pool; each optional class is in the
      pool exactly when its flag is set. */
  lemma PoolClasses(useUppercase: bool, useDigits: bool, useSymbols: bool)
    ensures forall c | IsLower(c) :: c in Pool(useUppercase, useDigits, useSymbols)
    ensures forall c | IsUpper(c) :: c in Pool(useUppercase, useDigits, useSymbols) <==> useUppercase
    ensures forall c | IsDigit(c) :: c in Pool(useUppercase, useDigits, useSymbols) <==> useDigits
    ensures forall c | c in Symbols :: c in Pool(useUppercase, useDigits, useSymbols) <==> useSymbols
  {
    SymbolsNotAlphanumeric();
    forall c ensures c in Pool(useUppercase, useDigits, useSymbols) <==>
        IsLower(c) || (useUppercase && IsUpper(c)) || (useDigits && IsDigit(c))
        || (useSymbols && c in Symbols)
    {
      PoolMembers(useUppercase, useDigits, useSymbols, c);
    }
  }

  /** With every flag cleared the pool is the lowercase letters alone. */
  lemma LowercasePool(c: char)
    ensures c in Pool(false, false, false) <==> IsLower(c)
  {
    PoolMembers(false, false, false, c);
  }

  /** Concatenating two repeat-free strings with no character in common gives
      a repeat-free string. */
  lemma {:induction false} DistinctConcat(a: string, b: string)
    requires Distinct(a) && Distinct(b)
    requires forall c | c in a :: c !in b
    ensures Distinct(a + b)
  {
    var s := a + b;
    forall i, j | 0 <= i < j < |s|
      ensures s[i] != s[j]
    {
      if j >= |a| && i < |a| {
        assert s[i] == a[i] && a[i] in a && s[j] == b[j - |a|];
      } else if i >= |a| {
        assert s[i] == b[i - |a|] && s[j] == b[j - |a|];
      } else {
        assert s[i] == a[i] && s[j] == a[j];
      }
    }
  }

  /** The four classes are pairwise disjoint and each is repeat-free, so no
      character occurs twice in any pool. */
  lemma PoolDistinct(useUppercase: bool, useDigits: bool, useSymbols: bool)
    ensures Distinct(Pool(useUppercase, useDigits, useSymbols))
  {
    ClassMembership();
    SymbolsDistinct();
    SymbolsNotAlphanumeric();
    var upper := if useUppercase then Uppercase else "";
    var digits := if useDigits then Digits else "";
    var symbols := if useSymbols then Symbols else "";
    DistinctConcat(Lowercase, upper);
    DistinctConcat(Lowercase + upper, digits);
    DistinctConcat(Lowercase + upper + digits, symbols);
  }
}
