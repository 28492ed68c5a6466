/** The colour theme: chosen at start-up from the stored preference or the
    system's, and written back to local storage whenever it changes. */
module ThemeSlice {
  import opened Options
  import opened Storage

  datatype ThemeMode = Light | Dark

  /** The string stored for a mode. */
  function ModeName(mode: ThemeMode): (name: string)
    ensures name == "light" <==> mode == Light
    ensures name == "dark" <==> mode == Dark
  {
    match mode
    case Light => "light"
    case Dark => "dark"
  }

  /** The initial mode: dark without a window; a stored "light" or "dark"
      wins; otherwise light exactly when the system prefers light. */
  function GetInitialTheme(hasWindow: bool, stored: Option<string>, prefersLight: bool): (mode: ThemeMode)
    ensures !hasWindow ==> mode == Dark
    ensures hasWindow && stored.Some? && (stored.value == "light" || stored.value == "dark") ==>
      ModeName(mode) == stored.value
    ensures hasWindow && !(stored.Some? && (stored.value == "light" || stored.value == "dark")) ==>
      (mode == Light <==> prefersLight)
  {
    if !hasWindow then Dark
    else if stored == Some("light") then Light
    else if stored == Some("dark") then Dark
    else if prefersLight then Light
    else Dark
  }

  /** A mode that was saved is the mode the next start-up chooses, whatever
      the system prefers. */
  lemma SavedModeIsRestored(mode: ThemeMode, prefersLight: bool)
    ensures GetInitialTheme(true, Some(ModeName(mode)), prefersLight) == mode
  {
  }

  /** The other mode. */
  function Toggled(mode: ThemeMode): (other: ThemeMode)
    ensures other != mode
  {
    if mode == Dark then Light else Dark
  }

  lemma ToggleTwiceRestores(mode: ThemeMode)
    ensures Toggled(Toggled(mode)) == mode
  {
  }

  /** The theme slice's state. Its reducers write the slot without catching:
      a throwing write aborts the reducer, and the state stays as it was. */
  class ThemeStore {
    var mode: ThemeMode
    /** Whether `window` exists; without it nothing is read or written. */
    const hasWindow: bool
    const slot: Slot<string>

    constructor (hasWindow: bool, slot: Slot<string>, prefersLight: bool)
      ensures this.hasWindow == hasWindow && this.slot == slot
      ensures mode == GetInitialTheme(hasWindow, slot.content, prefersLight)
    {
      this.hasWindow := hasWindow;
      this.slot := slot;
      mode := GetInitialTheme(hasWindow, slot.content, prefersLight);
    }

    /** `setTheme`: the mode becomes `requested` and is stored. */
    method SetTheme(requested: ThemeMode) returns (thrown: bool)
      modifies this`mode, slot`content
      ensures thrown == (hasWindow && !slot.accepts)
      ensures mode == if thrown then old(mode) else requested
      ensures slot.content == if hasWindow && slot.accepts then Some(ModeName(requested)) else old(slot.content)
    {
      thrown := false;
      if hasWindow {
        thrown := slot.SetItem(ModeName(requested));
      }
      if !thrown {
        mode := requested;
      }
    }

    /** `toggleTheme`: dark becomes light and light becomes dark, and the new
        mode is stored. */
    method ToggleTheme() returns (thrown: bool)
      modifies this`mode, slot`content
      ensures thrown == (hasWindow && !slot.accepts)
      ensures mode == if thrown then old(mode) else Toggled(old(mode))
      ensures slot.content == if hasWindow && slot.accepts then Some(ModeName(Toggled(old(mode)))) else old(slot.content)
    {
      var next := Toggled(mode);
      thrown := false;
      if hasWindow {
        thrown := slot.SetItem(ModeName(next));
      }
      if !thrown {
        mode := next;
      }
    }
  }
}
