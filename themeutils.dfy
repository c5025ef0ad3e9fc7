/**
 * The theme helpers: `getThemeClasses` picks one of two values by theme, and
 * `applyTheme` appends each element's theme class (dark or light table) to
 * the element's own classes, key by key.
 */
module ThemeUtils {

  /** `getThemeClasses(isDark, darkClasses, lightClasses)`. */
  function GetThemeClasses<T>(isDark: bool, darkClasses: T, lightClasses: T): (r: T)
    ensures isDark ==> r == darkClasses
    ensures !isDark ==> r == lightClasses
  {
    if isDark then darkClasses else lightClasses
  }

  /** The element keys both theme tables cover. */
  const ThemeKeys: set<string> :=
    {"bg", "surface", "surface-light", "text", "text-secondary", "text-muted", "border", "border-light", "glass"}

  const DarkThemeClasses: map<string, string> := map[
    "bg" := "bg-base-900",
    "surface" := "bg-surface-800",
    "surface-light" := "bg-surface-700",
    "text" := "text-white",
    "text-secondary" := "text-slate-300",
    "text-muted" := "text-slate-400",
    "border" := "border-slate-700",
    "border-light" := "border-slate-600",
    "glass" := "bg-white/5 backdrop-blur-md border border-white/10"
  ]

  const LightThemeClasses: map<string, string> := map[
    "bg" := "bg-light-primary",
    "surface" := "bg-light-surface",
    "surface-light" := "bg-light-surface-light",
    "text" := "text-light-text",
    "text-secondary" := "text-light-text-secondary",
    "text-muted" := "text-light-text-muted",
    "border" := "border-light-border",
    "border-light" := "border-light-border-light",
    "glass" := "bg-black/5 backdrop-blur-md border border-black/10"
  ]

  /** The table `applyTheme` consults for a theme. */
  function ThemeTable(isDark: bool): map<string, string> {
    if isDark then DarkThemeClasses else LightThemeClasses
  }

  /** A key a table augments: the table has a non-empty class for it. */
  predicate HasClass(table: map<string, string>, key: string) {
    key in table && table[key] != ""
  }

  /** The accumulation `applyTheme` performs with the table it picked. */
  function Merge(table: map<string, string>, elementClasses: map<string, string>): (r: map<string, string>)
    ensures r.Keys == elementClasses.Keys
    ensures forall k :: k in elementClasses && HasClass(table, k) ==> r[k] == elementClasses[k] + " " + table[k]
    ensures forall k :: k in elementClasses && !HasClass(table, k) ==> r[k] == elementClasses[k]
  {
    map k | k in elementClasses ::
      if k in table && table[k] != "" then elementClasses[k] + " " + table[k] else elementClasses[k]
  }

  /**
   * `applyTheme(isDark, elementClasses)`: the same keys; the value of a key
   * the theme's table has a class for gets a space and that class appended,
   * every other value is left as it was.
   */
  function ApplyTheme(isDark: bool, elementClasses: map<string, string>): (r: map<string, string>)
    ensures r.Keys == elementClasses.Keys
    ensures forall k :: k in elementClasses && HasClass(ThemeTable(isDark), k) ==>
              r[k] == elementClasses[k] + " " + ThemeTable(isDark)[k]
    ensures forall k :: k in elementClasses && !HasClass(ThemeTable(isDark), k) ==> r[k] == elementClasses[k]
  {
    Merge(ThemeTable(isDark), elementClasses)
  }

  /** Both tables cover the same nine keys, with a class for every one of them. */
  lemma TablesCoverThemeKeys(isDark: bool)
    ensures ThemeTable(isDark).Keys == ThemeKeys
    ensures forall k :: HasClass(ThemeTable(isDark), k) <==> k in ThemeKeys
  {
  }

  /** So which keys `applyTheme` augments does not depend on the theme. */
  lemma AugmentedKeysIndependentOfTheme(elementClasses: map<string, string>)
    ensures (set k | k in elementClasses && HasClass(ThemeTable(true), k)) == elementClasses.Keys * ThemeKeys
    ensures (set k | k in elementClasses && HasClass(ThemeTable(false), k)) == elementClasses.Keys * ThemeKeys
  {
    TablesCoverThemeKeys(true);
    TablesCoverThemeKeys(false);
  }

  /** Takes the table's class for `key` back off the end of `v`, when it is there. */
  function StripValue(table: map<string, string>, key: string, v: string): string {
    if HasClass(table, key) then
      var suffix := " " + table[key];
      if |suffix| <= |v| && v[|v| - |suffix|..] == suffix then v[..|v| - |suffix|] else v
    else v
  }

  /** Takes a table's class back off every key it augments. */
  function Strip(table: map<string, string>, classes: map<string, string>): map<string, string> {
    map k | k in classes :: StripValue(table, k, classes[k])
  }

  lemma SuffixOff(v: string, suffix: string)
    ensures (v + suffix)[|v + suffix| - |suffix|..] == suffix
    ensures (v + suffix)[..|v + suffix| - |suffix|] == v
  {
  }

  lemma StripValueOfSuffixed(table: map<string, string>, key: string, v: string)
    requires HasClass(table, key)
    ensures StripValue(table, key, v + " " + table[key]) == v
  {
    var suffix := " " + table[key];
    assert v + " " + table[key] == v + suffix;
    SuffixOff(v, suffix);
  }

  /** Stripping undoes merging: the element's own classes come back unchanged. */
  lemma StripUndoesMerge(table: map<string, string>, elementClasses: map<string, string>)
    ensures Strip(table, Merge(table, elementClasses)) == elementClasses
  {
    var merged := Merge(table, elementClasses);
    var stripped := Strip(table, merged);
    forall k | k in elementClasses ensures stripped[k] == elementClasses[k] {
      if HasClass(table, k) {
        StripValueOfSuffixed(table, k, elementClasses[k]);
      }
    }
    assert stripped.Keys == elementClasses.Keys;
  }

  /** For either theme, taking its classes off `applyTheme`'s output gives back the input. */
  lemma StripUndoesApplyTheme(isDark: bool, elementClasses: map<string, string>)
    ensures Strip(ThemeTable(isDark), ApplyTheme(isDark, elementClasses)) == elementClasses
  {
    StripUndoesMerge(ThemeTable(isDark), elementClasses);
  }
}
