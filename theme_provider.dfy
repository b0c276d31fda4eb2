/**
 * providers/ThemeProvider.tsx: the two palettes, the resolution of the
 * Auto theme against the system colour scheme, the palette choice, and the
 * provider's `type` state with the stored-theme effect that sets it.
 *
 * The system colour scheme (`useColorScheme()`: "light", "dark" or null)
 * is a parameter.
 */
module ThemeProvider {
  import opened Wrappers
  import opened SecureStore
  import opened ThemeTypes

  const LightColours: ThemeColours := ThemeColours(
    "rgba(255, 255, 255, 1)", "rgba(18, 18, 18, 1)", "#27AE60", "#DDDDDD",
    "rgba(243, 80, 103, 1)", "blue")

  const DarkColours: ThemeColours := ThemeColours(
    "#121212", "rgba(243, 243, 243, 1)", "#27AE60", "#353535",
    "rgba(229, 115, 131, 1)", "red")

  /** The theme type of the context's default value, seen by code outside any provider. */
  const DefaultStateType: ThemeType := Light

  /** useThemeType: Auto follows the system scheme; any other type stands. */
  function UseThemeType(contextType: ThemeType, systemScheme: Option<string>): (r: ThemeType)
    ensures r != Auto
    ensures contextType != Auto ==> r == contextType
    ensures contextType == Auto ==> (r == Light <==> systemScheme == Some("light"))
  {
    if contextType == Auto then
      if systemScheme == Some("light") then Light else Dark
    else contextType
  }

  /** getColours: Dark and Light pick their palette; anything else follows the system scheme. */
  function GetColours(themeType: ThemeType, systemScheme: Option<string>): (r: ThemeColours)
    ensures r == LightColours || r == DarkColours
    ensures themeType == Dark ==> r == DarkColours
    ensures themeType == Light ==> r == LightColours
  {
    match themeType
    case Dark => DarkColours
    case Light => LightColours
    case _ => if systemScheme == Some("light") then LightColours else DarkColours
  }

  /** getUserTheme: the type a stored "theme" value selects; other values keep the current type. */
  function StoredThemeType(stored: Option<string>, current: ThemeType, systemType: ThemeType): ThemeType
  {
    if stored == Some("light") then Light
    else if stored == Some("dark") then Dark
    else if stored == Some("auto") then systemType
    else current
  }

  /** The palette of a type is the palette of the type it resolves to. */
  lemma {:induction false} ColoursFollowResolvedType(themeType: ThemeType, systemScheme: Option<string>)
    ensures GetColours(themeType, systemScheme) == GetColours(UseThemeType(themeType, systemScheme), systemScheme)
  {
    if themeType == Auto {
      assert UseThemeType(themeType, systemScheme) == (if systemScheme == Some("light") then Light else Dark);
    }
  }

  /** The light palette is used exactly for Light, and for Auto under a light system scheme. */
  lemma LightPaletteExactly(themeType: ThemeType, systemScheme: Option<string>)
    ensures GetColours(themeType, systemScheme) == LightColours <==>
              themeType == Light || (themeType == Auto && systemScheme == Some("light"))
  {
  }

  /** Both palettes share the primary green. */
  lemma SharedPrimary()
    ensures LightColours.primary == DarkColours.primary == "#27AE60"
    ensures LightColours != DarkColours
  {
  }

  /**
   * The provider's state: `type` starts as Dark; `systemType` is what
   * useThemeType returned when the provider itself called it, i.e. read
   * against the context default, not against the provider's own value.
   */
  class ThemeProviderState {
    var themeType: ThemeType
    const systemScheme: Option<string>
    const systemType: ThemeType

    /**
     * `themeType` is never Auto because only the stored-theme load writes
     * it, and that resolves Auto first; the context's setType, which could
     * store any value, is not part of this model.
     */
    predicate Valid()
      reads this
    {
      themeType != Auto && systemType == UseThemeType(DefaultStateType, systemScheme)
    }

    constructor (systemScheme0: Option<string>)
      ensures Valid()
      ensures themeType == Dark && systemScheme == systemScheme0
    {
      themeType := Dark;
      systemScheme := systemScheme0;
      systemType := UseThemeType(DefaultStateType, systemScheme0);
    }

    /** The `colours` the provider publishes. */
    function Colours(): ThemeColours
      reads this
    {
      GetColours(themeType, systemScheme)
    }

    /** The effect run once on mount: read "theme" from the store and set the type it names. */
    method GetUserTheme(store: Store)
      requires Valid()
      modifies this
      ensures Valid()
      ensures themeType == StoredThemeType(GetItem(store, ThemeKey), old(themeType), systemType)
    {
      var userSelectedTheme := GetItem(store, ThemeKey);
      if userSelectedTheme == Some("light") {
        themeType := Light;
      } else if userSelectedTheme == Some("dark") {
        themeType := Dark;
      } else if userSelectedTheme == Some("auto") {
        themeType := systemType;
      }
    }
  }

  /**
   * As the provider is written, the system type it resolves for "auto" is
   * read against the default context type Light, so a stored "auto" always
   * yields Light, whatever the system scheme.
   */
  lemma StoredAutoIsLight(systemScheme: Option<string>, current: ThemeType)
    ensures StoredThemeType(Some("auto"), current, UseThemeType(DefaultStateType, systemScheme)) == Light
  {
  }

  /** Stored "light" and "dark" win; an absent or unknown value leaves the initial Dark. */
  lemma StoredThemeMapping(stored: Option<string>, systemType: ThemeType)
    ensures StoredThemeType(Some("light"), Dark, systemType) == Light
    ensures StoredThemeType(Some("dark"), Dark, systemType) == Dark
    ensures stored != Some("light") && stored != Some("dark") && stored != Some("auto") ==>
              StoredThemeType(stored, Dark, systemType) == Dark
  {
  }

  /** The provider's type is never Auto, so its palette never depends on the system scheme. */
  lemma ProviderPaletteIgnoresScheme(stored: Option<string>, s1: Option<string>, s2: Option<string>)
    ensures var t := StoredThemeType(stored, Dark, UseThemeType(DefaultStateType, s1));
            t != Auto && GetColours(t, s1) == GetColours(t, s2)
  {
  }
}
