# Password generator — Dafny model

This project models the logic of a small desktop password generator written in
Python. The logic has three parts:

- `generate_password`. It builds a character pool from lowercase letters,
  plus uppercase letters, digits and a fixed string of 26 symbols when their
  flags are set. It then draws `length` characters from the pool and joins them
  in draw order. The module `main.py` has a copy that returns an
  error message for an empty pool. The form (`gui.py`) has a copy without that
  check.
- The form's "Generate Password" handler, `on_generate`. It validates the
  length and the flags before it generates and displays a password.
- The form's theme toggle and its table of two colour schemes, `THEMES`.

Modules:

- `CharacterPool` (`CharacterPool.dfy`) holds the four character classes,
  the pool, the draw, and the lemmas about them. Both source files build the
  same pool, so both use this module.
- `Generator` (`Generator.dfy`) is `main.py`'s `generate_password`.
- `Gui` (`Gui.dfy`) holds `gui.py`'s `generate_password`, `THEMES`, and a
  class `Form` whose fields are the form's Tk variables. Its methods are the
  two handlers that update those variables.

Randomness is a parameter. `picks` is the sequence of indices that
`random.choice` returned, one per iteration of `range(length)`. Each index
must be inside the pool. Nothing is said about how the indices are
distributed.

## Model

| member | source | states |
|---|---|---|
| `CharacterPool.Pool` | main.py:6-12 | The pool's size is 26 + 26·uppercase + 10·digits + 26·symbols, so it is never empty. |
| `CharacterPool.Draw` | main.py:17 | The joined string has one character per draw. Its k-th character is the pool character picked at step k. Every character is in the pool. |
| `CharacterPool.ClassMembership` | main.py:6-8 | `string.ascii_lowercase`, `string.ascii_uppercase` and `string.digits` hold exactly the ASCII ranges a–z, A–Z and 0–9, each without repeats. |
| `CharacterPool.SymbolsDistinct` | main.py:9 | The 26 characters of the symbol string are pairwise different. |
| `CharacterPool.SymbolsNotAlphanumeric` | main.py:9 | No symbol is a letter, a digit or a space. |
| `CharacterPool.PoolMembers` | main.py:6-12 | A character is in the pool iff it is a lowercase letter, or an uppercase letter with the uppercase flag set, or a digit with the digits flag set, or a symbol with the symbols flag set. Nothing else is ever in the pool. |
| `CharacterPool.PoolClasses` | main.py:6-12 | Every lowercase letter is in every pool. A–Z are in the pool iff the uppercase flag is set. 0–9 are in it iff the digits flag is set. The symbols are in it iff the symbols flag is set. |
| `CharacterPool.LowercasePool` | main.py:6-12 | With all three flags cleared, the pool is exactly the lowercase letters. |
| `CharacterPool.DistinctConcat` | main.py:12 | Joining two strings that have no repeats and no common character gives a string with no repeats. |
| `CharacterPool.PoolDistinct` | main.py:6-12 | No character occurs twice in any pool, because the four classes are pairwise disjoint. |
| `Generator.GeneratePassword` | main.py:4-18 | For length ≥ 0 the result has exactly `length` characters. For length ≤ 0 it is empty. Every character of the result is in the pool that the flags select. |
| `Generator.NeverReportsEmptyPool` | main.py:12-14 | The pool is never empty. So for every flag combination the result differs from "Error: No characters selected!". |
| `Generator.LowercaseOnly` | main.py:6-17 | With all three flags cleared, every character of the result is a lowercase letter. |
| `Gui.GeneratePassword` | gui.py:26-34 | For length ≥ 0 the result has exactly `length` characters. For length ≤ 0 it is empty. Every character is in the pool that the flags select, and so in lowercase + uppercase + digits + symbols. |
| `Gui.SameAsGuardedCopy` | gui.py:26-34 | For the same arguments and draws, the form's copy returns what the main module's copy returns, because the guard that only the main module has never fires. |
| `Gui.PoolWithinAllClasses` | gui.py:27-32 | Every character of any pool is in the pool with every class selected. |
| `Gui.Toggled` | gui.py:54-55 | The new theme is always a key of THEMES. For a theme that is a key, it differs from the old one. |
| `Gui.ToggleTwice` | gui.py:54-56 | Toggling twice restores any theme that is a key of THEMES. |
| `Gui.Form.constructor` | gui.py:44-51 | The form starts with length 12, all three flags set, no password and the "light" theme. That theme is a key of THEMES. |
| `Gui.Form.ToggleTheme` | gui.py:54-61 | "light" becomes "dark" and "dark" becomes "light". The theme stays a key of THEMES, so the THEMES lookup for the new theme succeeds. No other form variable changes. |
| `Gui.Form.OnGenerate` | gui.py:79-99 | Draws are needed only when a password is generated. A length ≤ 0 is rejected first. Then a form with none of the three flags set is rejected, even though its lowercase pool would be non-empty. Either rejection leaves the displayed password unchanged. Otherwise the displayed password becomes a generated string of exactly `length` characters, each from the selected pool. Only the displayed password changes, so the theme stays a key of THEMES. |

## Left out

- Window construction, widget layout and the Tk main loop (gui.py:37-41, gui.py:116-158): presentation only.
- The styling calls of `apply_theme` (gui.py:62-76): foreign Tk/ttk calls. Only its `THEMES[theme]` lookup is modelled, as the palette that `Gui.Form.ToggleTheme` returns.
- `on_copy`, the clipboard and the message boxes (gui.py:84, gui.py:89, gui.py:102-113): I/O. The message box shown by `on_generate` becomes the `GenerateStatus` that `Gui.Form.OnGenerate` returns.
- Parsing of the length field by Tk's `IntVar.get()`, the `isinstance` test and the `tk.TclError` handler (gui.py:82-83, gui.py:101-102): the model's length is always an `int`. Tk falls back to `int(float(value))` for text that is not an integer, so fractional input is truncated rather than rejected ("12.7" gives 12, "0.5" gives 0 and is then rejected as a non-positive length). Only text that is not a number at all reaches the `TclError` handler.
- The catch-all `except Exception` handler of `on_generate` (gui.py:103-104): it is reached only through Tk's parsing of the field (for example "inf" raises `OverflowError` in that fallback) or through memory exhaustion when the length is enormous. The model has no memory bound: for any positive length it sets a password of that length.
- The default arguments of both copies of `generate_password` (`length=12` and all three flags `True`; main.py:4, gui.py:26): every model call passes all arguments, and the form always passes all of them too (gui.py:93-98).
- The quality and distribution of `random.choice`: replaced by the injected indices `picks`.
- Password strength scoring, exclusion of ambiguous characters, custom characters and a history list: no code in the two source files does any of these.
