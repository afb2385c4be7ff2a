/** The theme provider: the light or dark theme, kept in three places (the
    provider's state, the `theme` entry of local storage and the `dark`
    class on the document element), and the toggle button that flips it. */
module Theme {
  import opened Options

  /** A theme is a string: `'light'` or `'dark'` by type, but a saved entry
      is read back with an unchecked cast, so any text can arrive. */
  const Light := "light"
  const Dark := "dark"

  /** The theme resolved on mount: the saved entry when it is a non-empty
      string, otherwise `'dark'` exactly when the system prefers dark. */
  function InitialTheme(saved: Option<string>, systemPrefersDark: bool): (r: string)
    ensures saved.Some? && saved.value != "" ==> r == saved.value
    ensures (saved.None? || saved.value == "") ==> (r == Dark <==> systemPrefersDark) && (r == Light <==> !systemPrefersDark)
    ensures (saved.None? || saved.value == Light || saved.value == Dark) ==> r == Light || r == Dark
  {
    if saved.Some? && saved.value != "" then saved.value
    else if systemPrefersDark then Dark else Light
  }

  /** A theme set by `setTheme` is the one resolved on the next load,
      whatever the system prefers. */
  lemma ReloadRestores(t: string, systemPrefersDark: bool)
    requires t == Light || t == Dark
    ensures InitialTheme(Some(t), systemPrefersDark) == t
  {
  }

  /** The toggle's click: `'light'` from dark, `'dark'` from anything else. */
  function Flip(theme: string): (r: string)
    ensures r == Light || r == Dark
    ensures r == Dark <==> theme != Dark
  {
    if theme == Dark then Light else Dark
  }

  /** Flipping twice returns to a theme that is light or dark. */
  lemma FlipTwice(theme: string)
    requires theme == Light || theme == Dark
    ensures Flip(Flip(theme)) == theme
  {
  }

  /** The value the provider shares with its children. */
  datatype ThemeContextValue = ThemeContextValue(theme: string, mounted: bool)

  /** What `useTheme` gives: the context, or the error it throws. */
  datatype ContextLookup = Found(context: ThemeContextValue) | Thrown(message: string)

  const OutsideProviderText := "useTheme must be used within a ThemeProvider"

  /** `useTheme`: outside a provider the context is `undefined` and the hook
      throws; inside, it returns the provider's value unchanged. */
  function UseTheme(context: Option<ThemeContextValue>): (r: ContextLookup)
    ensures r.Thrown? <==> context.None?
    ensures r.Thrown? ==> r.message == OutsideProviderText
    ensures r.Found? ==> r.context == context.value
  {
    match context
    case None => Thrown(OutsideProviderText)
    case Some(c) => Found(c)
  }

  /** The provider's state with the two browser places it writes: the saved
      entry and the document's `dark` class. `pending` is the theme the
      mount effect has queued with `setTimeout` and not yet applied. */
  class ThemeProvider {
    var theme: string
    var mounted: bool
    var stored: Option<string>
    var darkClass: bool
    var pending: Option<string>

    /** The document's `dark` class agrees with the theme. The saved entry
        is not part of this: it is absent until the first `setTheme`. */
    predicate InSync()
      reads this
    {
      darkClass <==> theme == Dark
    }

    /** Before the mount effect runs: light, not mounted; local storage
        and the document are whatever the browser has. */
    constructor(savedTheme: Option<string>, documentDark: bool)
      ensures theme == Light && !mounted && pending == None
      ensures stored == savedTheme && darkClass == documentDark
    {
      theme := Light;
      mounted := false;
      stored := savedTheme;
      darkClass := documentDark;
      pending := None;
    }

    function Context(): (c: ThemeContextValue)
      reads this
      ensures c.theme == theme && c.mounted == mounted
    {
      ThemeContextValue(theme, mounted)
    }

    /** The mount effect's synchronous part: the initial theme is resolved
        and the `dark` class set from it at once, while the state update is
        queued. */
    method MountEffect(systemPrefersDark: bool)
      modifies this
      ensures pending == Some(InitialTheme(old(stored), systemPrefersDark))
      ensures darkClass <==> pending.value == Dark
      ensures theme == old(theme) && mounted == old(mounted) && stored == old(stored)
    {
      var initialTheme := InitialTheme(stored, systemPrefersDark);
      pending := Some(initialTheme);
      if initialTheme == Dark {
        darkClass := true;
      } else {
        darkClass := false;
      }
    }

    /** The two zero-delay timers firing: the provider is mounted and takes
        the queued theme. */
    method TimersFire()
      requires pending.Some?
      modifies this
      ensures mounted && theme == old(pending).value && pending == None
      ensures stored == old(stored) && darkClass == old(darkClass)
    {
      mounted := true;
      theme := pending.value;
      pending := None;
    }

    /** `setTheme`: state, saved entry and `dark` class all take the new
        theme. */
    method SetTheme(newTheme: string)
      modifies this
      ensures theme == newTheme && stored == Some(newTheme)
      ensures darkClass <==> newTheme == Dark
      ensures InSync()
      ensures mounted == old(mounted) && pending == old(pending)
    {
      theme := newTheme;
      stored := Some(newTheme);
      if newTheme == Dark {
        darkClass := true;
      } else {
        darkClass := false;
      }
    }

    /** The toggle button: disabled until mounted, then it sets the flipped
        theme. */
    method ClickToggle()
      modifies this
      ensures !old(mounted) ==>
                theme == old(theme) && stored == old(stored) && darkClass == old(darkClass) &&
                mounted == old(mounted) && pending == old(pending)
      ensures old(mounted) ==>
                theme == Flip(old(theme)) && stored == Some(theme) && InSync() && mounted
    {
      if mounted {
        SetTheme(Flip(theme));
      }
    }
  }

  /** A full mount: once both timers have fired the provider is mounted,
      shows the resolved theme and agrees with the document. */
  method Mount(p: ThemeProvider, systemPrefersDark: bool)
    modifies p
    ensures p.mounted && p.pending == None
    ensures p.theme == InitialTheme(old(p.stored), systemPrefersDark)
    ensures p.stored == old(p.stored)
    ensures p.InSync()
  {
    p.MountEffect(systemPrefersDark);
    p.TimersFire();
  }

  /** Setting the theme twice is setting it once. */
  method SetThemeTwice(p: ThemeProvider, t: string)
    modifies p
    ensures p.theme == t && p.stored == Some(t) && p.InSync()
    ensures p.mounted == old(p.mounted) && p.pending == old(p.pending)
  {
    p.SetTheme(t);
    p.SetTheme(t);
  }
}
