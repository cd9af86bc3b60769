/** `ThemeProvider`: the process-wide light/dark preference, its two state
    variables and the palette derived from it. The preference is persisted
    under the storage key "theme". */
module ThemeContext {
  import opened Wrappers
  import opened Types

  const Light: Theme := "light"
  const Dark: Theme := "dark"

  const LightColors := Palette("#ffffff", "#f8f9fa", "#f1f3f4", "#1f2937",
                               "#6b7280", "#e5e7eb", "#374151", "#dc2626")
  const DarkColors := Palette("#1e1e1e", "#1f1f1f", "#374151", "#f9fafb",
                              "#d1d5db", "#6f7379ff", "#9ca3af", "#ef4444")

  /** `colors`: the light palette exactly for "light", the dark one for any other string. */
  function ColorsFor(theme: Theme): (c: Palette)
    ensures c == LightColors <==> theme == Light
    ensures c == DarkColors <==> theme != Light
  {
    if theme == Light then LightColors else DarkColors
  }

  /** `newTheme` in `toggleTheme`: "light" becomes "dark", everything else "light". */
  function Toggled(theme: Theme): (t: Theme)
    ensures t == Dark <==> theme == Light
    ensures t == Light <==> theme != Light
    ensures t != ""
  {
    if theme == Light then Dark else Light
  }

  predicate IsValid(theme: Theme) {
    theme == Light || theme == Dark
  }

  /** From either intended value, toggling twice is the identity. */
  lemma ToggleTwiceRestores(theme: Theme)
    requires IsValid(theme)
    ensures Toggled(Toggled(theme)) == theme
    ensures Toggled(theme) != theme
  {
  }

  /** An unvalidated stored value does not survive two toggles. */
  lemma ToggleTwiceNormalizes(theme: Theme)
    requires !IsValid(theme)
    ensures Toggled(Toggled(theme)) == Dark
    ensures Toggled(Toggled(theme)) != theme
  {
  }

  /** The theme `loadTheme` leaves behind. `readOk` is false when reading
      storage throws; `saved` is what the read returned (`None` for null);
      `system` is `Appearance.getColorScheme()`. */
  function ThemeAfterLoad(current: Theme, readOk: bool, saved: Option<string>, system: Option<string>): (t: Theme)
    ensures !readOk ==> t == current
    ensures readOk && saved.Some? && saved.value != "" ==> t == saved.value
    ensures readOk && (saved.None? || saved.value == "") ==> (t == Dark <==> system == Some(Dark))
    ensures readOk && (saved.None? || saved.value == "") ==> IsValid(t)
  {
    if !readOk then current
    else if saved.Some? && saved.value != "" then saved.value
    else if system == Some(Dark) then Dark
    else Light
  }

  /** A successfully persisted toggle is what the next load adopts, whatever
      the system scheme. */
  lemma LoadAfterToggleRestores(current: Theme, theme: Theme, system: Option<string>)
    ensures ThemeAfterLoad(current, true, Some(Toggled(theme)), system) == Toggled(theme)
  {
  }

  /** Loading never produces an unintended theme unless storage holds one. */
  lemma LoadKeepsValid(current: Theme, readOk: bool, saved: Option<string>, system: Option<string>)
    requires IsValid(current)
    requires saved.Some? ==> saved.value == "" || IsValid(saved.value)
    ensures IsValid(ThemeAfterLoad(current, readOk, saved, system))
  {
  }

  /** The provider's state plus the storage entry it reads and writes. */
  class ThemeProvider {
    var theme: Theme
    var isLoading: bool
    var savedTheme: Option<string>

    /** `useState('light')` and `useState(true)`; storage is whatever it holds. */
    constructor (saved: Option<string>)
      ensures theme == Light && isLoading
      ensures savedTheme == saved
    {
      theme := Light;
      isLoading := true;
      savedTheme := saved;
    }

    function Colors(): (c: Palette)
      reads this
      ensures c == LightColors <==> theme == Light
      ensures c == DarkColors <==> theme != Light
    {
      ColorsFor(theme)
    }

    /** `loadTheme`: adopts a non-empty stored value unvalidated, else the
        system scheme; a throwing read is swallowed. `isLoading` ends false on every path. */
    method LoadTheme(readOk: bool, system: Option<string>)
      modifies this
      ensures theme == ThemeAfterLoad(old(theme), readOk, old(savedTheme), system)
      ensures !isLoading
      ensures savedTheme == old(savedTheme)
    {
      if readOk {
        var saved := savedTheme;
        if saved.Some? && saved.value != "" {
          theme := saved.value;
        } else {
          theme := if system == Some(Dark) then Dark else Light;
        }
      }
      isLoading := false;
    }

    /** `toggleTheme`: flips the in-memory theme first, then persists it; a
        failed write leaves the flipped value in place and storage as it was. */
    method ToggleTheme(writeOk: bool)
      modifies this
      ensures theme == Toggled(old(theme))
      ensures isLoading == old(isLoading)
      ensures savedTheme == if writeOk then Some(theme) else old(savedTheme)
    {
      var newTheme := Toggled(theme);
      theme := newTheme;
      if writeOk {
        savedTheme := Some(newTheme);
      }
    }
  }
}
