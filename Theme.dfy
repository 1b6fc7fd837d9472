/**
 * The theme hook (src/hooks/useTheme.js): a two-valued preference read once
 * from durable storage, changed by a toggle and two setters, and written back
 * to storage and to the document root's `data-theme` attribute by an effect
 * that runs whenever it changes.
 */
module Theme {
  import opened Wrappers

  const ThemeKey: string := "portfolio-theme"
  const Dark: string := "dark"
  const Light: string := "light"

  /** `Object.values(THEMES).includes(t)`. */
  predicate IsTheme(t: string) {
    t == Dark || t == Light
  }

  /**
   * The lazy initialiser of the state: the stored value when it is truthy
   * and one of the two themes, and dark otherwise.
   */
  function InitialTheme(stored: Option<string>): (t: string)
    ensures IsTheme(t)
    ensures stored.Some? && IsTheme(stored.value) ==> t == stored.value
    ensures !(stored.Some? && IsTheme(stored.value)) ==> t == Dark
  {
    if stored.Some? && stored.value != "" && IsTheme(stored.value) then stored.value else Dark
  }

  /** The updater passed by `toggleTheme`: dark becomes light, anything else dark. */
  function Toggled(prev: string): (t: string)
    ensures IsTheme(t)
    ensures IsTheme(prev) ==> t != prev
    ensures prev != Dark ==> t == Dark
  {
    if prev == Dark then Light else Dark
  }

  /** Toggling twice gives back any valid theme. */
  lemma ToggleTwice(t: string)
    requires IsTheme(t)
    ensures Toggled(Toggled(t)) == t
  {
  }

  /** `isDark` and `isLight`: exactly one holds for a valid theme. */
  function IsDarkTheme(t: string): (b: bool)
    ensures b <==> t == Dark
  {
    t == Dark
  }

  function IsLightTheme(t: string): (b: bool)
    ensures b <==> t == Light
  {
    t == Light
  }

  lemma ExactlyOneOfDarkAndLight(t: string)
    requires IsTheme(t)
    ensures IsDarkTheme(t) != IsLightTheme(t)
  {
  }

  /** `localStorage.getItem(key)`: `null` when the key is absent. */
  function GetItem(storage: map<string, string>, key: string): (v: Option<string>)
    ensures v.Some? <==> key in storage
    ensures v.Some? ==> v.value == storage[key]
  {
    if key in storage then Some(storage[key]) else None
  }

  /**
   * `setItem` then `getItem` on the same key gives the value back, and
   * leaves every other key as it was.
   */
  lemma SetItemThenGetItem(storage: map<string, string>, key: string, value: string, other: string)
    ensures GetItem(storage[key := value], key) == Some(value)
    ensures other != key ==> GetItem(storage[key := value], other) == GetItem(storage, other)
  {
  }

  /**
   * A reload reads back what the effect stored: the initialiser applied to
   * a storage holding `t` under the theme key gives `t`.
   */
  lemma ReloadRestoresTheme(storage: map<string, string>, t: string)
    requires IsTheme(t)
    ensures InitialTheme(GetItem(storage[ThemeKey := t], ThemeKey)) == t
  {
  }

  /** With nothing stored, the theme is dark. */
  lemma EmptyStorageGivesDark(storage: map<string, string>)
    requires ThemeKey !in storage
    ensures InitialTheme(GetItem(storage, ThemeKey)) == Dark
  {
  }

  /**
   * One mounted instance of the hook, with the browser state it writes:
   * the key-value storage and the root element's `data-theme`.
   */
  class ThemeState {
    var theme: string
    var storage: map<string, string>
    var documentTheme: Option<string>

    /**
     * After every committed change the theme is valid and the document
     * attribute and the stored key both mirror it.
     */
    ghost predicate Valid()
      reads this
    {
      IsTheme(theme) && documentTheme == Some(theme) &&
      ThemeKey in storage && storage[ThemeKey] == theme
    }

    /**
     * `isDark`. In a committed state it agrees with what the effect wrote
     * to the document and to storage, and it is the negation of `isLight`.
     */
    function IsDark(): (b: bool)
      reads this
      ensures Valid() ==> (b <==> documentTheme == Some(Dark)) && (b <==> storage[ThemeKey] == Dark)
      ensures Valid() ==> b == !IsLightTheme(theme)
    {
      IsDarkTheme(theme)
    }

    /** `isLight`, with the same agreement. */
    function IsLight(): (b: bool)
      reads this
      ensures Valid() ==> (b <==> documentTheme == Some(Light)) && (b <==> storage[ThemeKey] == Light)
      ensures Valid() ==> b == !IsDarkTheme(theme)
    {
      IsLightTheme(theme)
    }

    /**
     * Mounting: the initialiser reads the stored value, then the effect
     * runs once and writes the theme back.
     */
    constructor (storage: map<string, string>, documentTheme: Option<string>)
      ensures theme == InitialTheme(GetItem(storage, ThemeKey))
      ensures this.storage == storage[ThemeKey := theme]
      ensures Valid()
    {
      theme := InitialTheme(GetItem(storage, ThemeKey));
      this.storage := storage;
      this.documentTheme := documentTheme;
      new;
      ApplyTheme();
    }

    /** The effect: `dataset.theme = theme` and `setItem(THEME_KEY, theme)`. */
    method ApplyTheme()
      modifies this
      ensures theme == old(theme)
      ensures documentTheme == Some(theme)
      ensures storage == old(storage)[ThemeKey := theme]
    {
      documentTheme := Some(theme);
      storage := storage[ThemeKey := theme];
    }

    /**
     * `setTheme(next)`: the state changes, and the effect runs, only when
     * the new value differs from the current one.
     */
    method SetTheme(next: string)
      requires Valid() && IsTheme(next)
      modifies this
      ensures theme == next && Valid()
      ensures storage == old(storage)[ThemeKey := next]
    {
      if next != theme {
        theme := next;
        ApplyTheme();
      }
    }

    method ToggleTheme()
      requires Valid()
      modifies this
      ensures theme == Toggled(old(theme)) && theme != old(theme) && Valid()
      ensures storage == old(storage)[ThemeKey := theme]
    {
      SetTheme(Toggled(theme));
    }

    method SetDarkTheme()
      requires Valid()
      modifies this
      ensures theme == Dark && IsDark() && !IsLight() && Valid()
      ensures storage == old(storage)[ThemeKey := Dark]
    {
      SetTheme(Dark);
    }

    method SetLightTheme()
      requires Valid()
      modifies this
      ensures theme == Light && IsLight() && !IsDark() && Valid()
      ensures storage == old(storage)[ThemeKey := Light]
    {
      SetTheme(Light);
    }
  }

  /** Toggling twice restores the theme and leaves storage as it was. */
  method ToggleTwiceRestores(s: ThemeState)
    requires s.Valid()
    modifies s
    ensures s.theme == old(s.theme) && s.storage == old(s.storage) && s.Valid()
  {
    s.ToggleTheme();
    s.ToggleTheme();
    assert s.storage == old(s.storage)[ThemeKey := old(s.theme)];
  }

  /** Calling a setter twice leaves the same state as calling it once. */
  method SetLightTwiceIsOnce(s: ThemeState)
    requires s.Valid()
    modifies s
    ensures s.theme == Light && s.storage == old(s.storage)[ThemeKey := Light] && s.Valid()
  {
    s.SetLightTheme();
    s.SetLightTheme();
  }

  method SetDarkTwiceIsOnce(s: ThemeState)
    requires s.Valid()
    modifies s
    ensures s.theme == Dark && s.storage == old(s.storage)[ThemeKey := Dark] && s.Valid()
  {
    s.SetDarkTheme();
    s.SetDarkTheme();
  }

  /**
   * Persistence across a reload: choose light, then mount a fresh hook on
   * the storage left behind; it starts light.
   */
  method SetLightThenReload(s: ThemeState) returns (reloaded: ThemeState)
    requires s.Valid()
    modifies s
    ensures fresh(reloaded) && reloaded.theme == Light && reloaded.Valid()
  {
    s.SetLightTheme();
    reloaded := new ThemeState(s.storage, s.documentTheme);
  }
}
