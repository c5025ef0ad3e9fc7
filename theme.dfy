/**
 * The React `ThemeProvider`: a dark/light preference read once from a storage
 * slot, applied as a class on the document root and written back, and flipped
 * by `toggleTheme`.
 */
module Theme {
  import opened Wrappers

  /** The storage slot the preference lives in. */
  const StorageKey := "theme"

  /** The root class and the stored string for a preference: "dark" or "light". */
  function Marker(dark: bool): (m: string)
    ensures m == "dark" || m == "light"
    ensures (m == "dark") == dark
  {
    if dark then "dark" else "light"
  }

  /** `localStorage.getItem('theme')`: the slot's string, or nothing when it was never written. */
  function Slot(storage: map<string, string>): Option<string> {
    if StorageKey in storage then Some(storage[StorageKey]) else None
  }

  /**
   * The preference the provider settles on at start-up: dark for an absent or
   * empty slot, dark for exactly "dark", light for any other string.
   */
  function Preference(saved: Option<string>): (dark: bool)
    ensures saved.None? || saved.value == "" ==> dark
    ensures saved.Some? && saved.value != "" && saved.value != "dark" ==> !dark
    ensures saved == Some("dark") ==> dark
  {
    match saved
    case Some(v) => if v != "" then v == "dark" else true
    case None => true
  }

  /** A written preference reads back as itself. */
  lemma PreferenceReadsBack(dark: bool)
    ensures Preference(Slot(map[StorageKey := Marker(dark)])) == dark
  {
  }

  /**
   * The root classes after applying a preference: its marker added, the other
   * marker removed, every other class kept.
   */
  function Marked(classes: set<string>, dark: bool): (r: set<string>)
    ensures ("dark" in r) == dark && ("light" in r) == !dark
    ensures forall c :: c != "dark" && c != "light" ==> (c in r <==> c in classes)
  {
    classes + {Marker(dark)} - {Marker(!dark)}
  }

  /** Marker and stored value agree with the preference. */
  ghost predicate InSync(classes: set<string>, storage: map<string, string>, dark: bool) {
    && Marker(dark) in classes && Marker(!dark) !in classes
    && Slot(storage) == Some(Marker(dark))
  }

  /** Applying the preference that is already in force changes nothing. */
  lemma ReapplyChangesNothing(classes: set<string>, storage: map<string, string>, dark: bool)
    requires InSync(classes, storage, dark)
    ensures Marked(classes, dark) == classes
    ensures storage[StorageKey := Marker(dark)] == storage
  {
  }

  /**
   * Toggling twice from an agreeing state puts back the same root classes and
   * the same storage.
   */
  lemma ToggleTwiceRestores(classes: set<string>, storage: map<string, string>, dark: bool)
    requires InSync(classes, storage, dark)
    ensures Marked(Marked(classes, !dark), dark) == classes
    ensures storage[StorageKey := Marker(!dark)][StorageKey := Marker(dark)] == storage
  {
    var once := Marked(classes, !dark);
    assert Marked(once, dark) == Marked(classes, dark);
    ReapplyChangesNothing(classes, storage, dark);
  }

  class ThemeProvider {
    /** The React state `isDark`. */
    var isDark: bool
    /** `localStorage`. */
    var storage: map<string, string>
    /** `document.documentElement.classList`. */
    var rootClasses: set<string>

    ghost predicate Synced()
      reads this
    {
      InSync(rootClasses, storage, isDark)
    }

    /**
     * Mounting the provider: the state starts dark, the load effect reads
     * the slot, and the apply effect then runs for the settled preference.
     * (The apply effect also runs once for the initial dark state before
     * the loaded value arrives. When the loaded preference is light, the
     * second run overwrites that write; otherwise it already is the settled
     * value. Either way the settled state is the one below.)
     */
    constructor (storage0: map<string, string>, classes0: set<string>)
      ensures isDark == Preference(Slot(storage0))
      ensures rootClasses == Marked(classes0, isDark)
      ensures storage == storage0[StorageKey := Marker(isDark)]
      ensures Synced()
    {
      isDark := true;
      storage := storage0;
      rootClasses := classes0;
      new;
      Load();
      Apply();
    }

    /** The load effect: a non-empty slot decides, anything else means dark. */
    method Load()
      modifies this`isDark
      ensures isDark == Preference(Slot(storage))
    {
      var saved := Slot(storage);
      if saved.Some? && saved.value != "" {
        isDark := saved.value == "dark";
      } else {
        isDark := true;
      }
    }

    /** The apply effect: one marker on the root, the other one off, the matching string stored. */
    method Apply()
      modifies this`rootClasses, this`storage
      ensures rootClasses == Marked(old(rootClasses), isDark)
      ensures storage == old(storage)[StorageKey := Marker(isDark)]
      ensures Synced()
    {
      if isDark {
        rootClasses := rootClasses + {"dark"};
        rootClasses := rootClasses - {"light"};
        storage := storage[StorageKey := "dark"];
      } else {
        rootClasses := rootClasses + {"light"};
        rootClasses := rootClasses - {"dark"};
        storage := storage[StorageKey := "light"];
      }
    }

    /** `toggleTheme`: the state flips, and the change re-runs the apply effect. */
    method Toggle()
      modifies this
      ensures isDark == !old(isDark)
      ensures rootClasses == Marked(old(rootClasses), isDark)
      ensures storage == old(storage)[StorageKey := Marker(isDark)]
      ensures Synced()
    {
      isDark := !isDark;
      Apply();
    }
  }

  /** Two toggles of a mounted provider leave it exactly as it was. */
  method ToggleTwice(t: ThemeProvider)
    requires t.Synced()
    modifies t
    ensures t.isDark == old(t.isDark) && t.rootClasses == old(t.rootClasses) && t.storage == old(t.storage)
  {
    ToggleTwiceRestores(t.rootClasses, t.storage, t.isDark);
    t.Toggle();
    t.Toggle();
  }
}
