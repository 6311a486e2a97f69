/** The desktop form: its own copy of generate_password (without the
    empty-pool check), the THEMES table, and the form state that the
    "Generate Password" and theme buttons update. Widget layout, styling,
    message boxes and the clipboard are not modelled. */
module Gui {
  import opened CharacterPool
  import Generator

  /** One colour scheme of THEMES. */
  datatype Palette = Palette(background: string, foreground: string, buttonBg: string,
                             entryBg: string, entryFg: string)

  const Themes: map<string, Palette> := map[
    "light" := Palette("#FFFFFF", "#000000", "#F0F0F0", "#FFFFFF", "#000000"),
    "dark" := Palette("#2D2D2D", "#FFFFFF", "#3D3D3D", "#3D3D3D", "#FFFFFF")
  ]

  /** The form's generate_password: the same pool and draws as the main module's,
      with no empty-pool branch. */
  function GeneratePassword(length: int, useUppercase: bool, useDigits: bool, useSymbols: bool,
                            picks: seq<nat>): (password: string)
    requires |picks| == Iterations(length)
    requires InBounds(picks, |Pool(useUppercase, useDigits, useSymbols)|)
    ensures length >= 0 ==> |password| == length
    ensures length <= 0 ==> password == ""
    ensures forall c | c in password :: c in Pool(useUppercase, useDigits, useSymbols)
    ensures forall c | c in password :: c in Lowercase + Uppercase + Digits + Symbols
  {
    var allChars := Pool(useUppercase, useDigits, useSymbols);
    var password := Draw(allChars, picks);
    PoolWithinAllClasses(useUppercase, useDigits, useSymbols);
    password
  }

  /** Dropping the empty-pool check changes nothing: the form's copy returns
      what the main module's copy returns for the same draws. */
  lemma SameAsGuardedCopy(length: int, useUppercase: bool, useDigits: bool, useSymbols: bool,
                          picks: seq<nat>)
    requires |picks| == Iterations(length)
    requires InBounds(picks, |Pool(useUppercase, useDigits, useSymbols)|)
    ensures GeneratePassword(length, useUppercase, useDigits, useSymbols, picks)
            == Generator.GeneratePassword(length, useUppercase, useDigits, useSymbols, picks)
  {
  }

  /** Every pool is contained in the pool with every class selected. */
  lemma PoolWithinAllClasses(useUppercase: bool, useDigits: bool, useSymbols: bool)
    ensures forall c | c in Pool(useUppercase, useDigits, useSymbols) ::
              c in Lowercase + Uppercase + Digits + Symbols
  {
    forall c | c in Pool(useUppercase, useDigits, useSymbols)
      ensures c in Lowercase + Uppercase + Digits + Symbols
    {
      PoolMembers(useUppercase, useDigits, useSymbols, c);
      PoolMembers(true, true, true, c);
    }
  }

  /** The theme toggle_theme switches to: "light" becomes "dark", and
      anything else becomes "light". */
  function Toggled(theme: string): (next: string)
    ensures next in Themes
    ensures theme in Themes ==> next != theme
  {
    if theme == "light" then "dark" else "light"
  }

  /** Toggling twice restores any theme that is a key of THEMES. */
  lemma ToggleTwice(theme: string)
    requires theme in Themes
    ensures Toggled(Toggled(theme)) == theme
  {
  }

  /** Why on_generate refused to generate, or that it did. */
  datatype GenerateStatus = Generated | InvalidLength | NoCharacterType

  /** The Tk variables of the form. The three flags and the length are bound
      to widgets, so a caller may assign them directly; the handlers below
      are the only code that writes the displayed password and the theme. */
  class Form {
    var passwordLength: int
    var useUppercase: bool
    var useDigits: bool
    var useSymbols: bool
    var generatedPassword: string
    var currentTheme: string

    /** The theme can always be looked up in THEMES. */
    ghost predicate Valid()
      reads this
    {
      currentTheme in Themes
    }

    /** The initial values of the Tk variables in build_gui. */
    constructor ()
      ensures Valid()
      ensures passwordLength == 12 && useUppercase && useDigits && useSymbols
      ensures generatedPassword == "" && currentTheme == "light"
    {
      passwordLength := 12;
      useUppercase, useDigits, useSymbols := true, true, true;
      generatedPassword := "";
      currentTheme := "light";
    }

    /** toggle_theme: flips the theme and returns the palette apply_theme
        looks up for the new theme. */
    method ToggleTheme() returns (colors: Palette)
      requires Valid()
      modifies this`currentTheme
      ensures Valid()
      ensures currentTheme == Toggled(old(currentTheme))
      ensures currentTheme != old(currentTheme)
      ensures old(currentTheme) == "light" ==> currentTheme == "dark"
      ensures old(currentTheme) == "dark" ==> currentTheme == "light"
      ensures colors == Themes[currentTheme]
    {
      var newTheme := Toggled(currentTheme);
      currentTheme := newTheme;
      colors := Themes[newTheme];
    }

    /** on_generate: rejects a non-positive length, then a form with no
        optional class selected, leaving the displayed password as it was;
        otherwise displays a freshly drawn password. `picks` are the indices
        random.choice returns; they are needed only when a password is
        drawn. */
    method OnGenerate(picks: seq<nat>) returns (status: GenerateStatus)
      requires Valid()
      requires passwordLength > 0 && (useUppercase || useDigits || useSymbols) ==>
                 |picks| == Iterations(passwordLength)
                 && InBounds(picks, |Pool(useUppercase, useDigits, useSymbols)|)
      modifies this`generatedPassword
      ensures Valid()
      ensures status == Generated <==> passwordLength > 0 && (useUppercase || useDigits || useSymbols)
      ensures status == InvalidLength <==> passwordLength <= 0
      ensures status != Generated ==> generatedPassword == old(generatedPassword)
      ensures status == Generated ==>
                generatedPassword == GeneratePassword(passwordLength, useUppercase, useDigits,
                                                      useSymbols, picks)
                && |generatedPassword| == passwordLength
                && forall c | c in generatedPassword :: c in Pool(useUppercase, useDigits, useSymbols)
    {
      var length := passwordLength;
      if length <= 0 {
        return InvalidLength;
      }
      if !(useUppercase || useDigits || useSymbols) {
        return NoCharacterType;
      }
      var password := GeneratePassword(length, useUppercase, useDigits, useSymbols, picks);
      generatedPassword := password;
      status := Generated;
    }
  }
}
