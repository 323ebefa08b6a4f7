/**
 `ThemeProvider`: the light/dark theme of the app. The initial theme comes from the
 saved choice or the operating system's preference; the effect mirrors the theme
 into the root element's `dark` class and into storage; `useTheme` refuses to run
 outside the provider.
 */
module Theme {
  import opened Js

  datatype Theme = Light | Dark

  /** Where the initial theme is read from: no `window` at all (server rendering), or
      a browser with the saved `theme` item and the answer of
      `matchMedia('(prefers-color-scheme: dark)')`, `None` when `matchMedia` is
      missing. */
  datatype Env = NoWindow | Window(saved: Option<string>, prefersDark: Option<bool>)

  function Name(t: Theme): string {
    match t
    case Light => "light"
    case Dark => "dark"
  }

  /** The stored value read back as a theme: only exactly `light` or `dark`. */
  function Parse(saved: Option<string>): (r: Option<Theme>)
    ensures r.Some? <==> saved == Some("light") || saved == Some("dark")
    ensures r.Some? ==> saved == Some(Name(r.value))
  {
    if saved == Some("light") then Some(Light)
    else if saved == Some("dark") then Some(Dark)
    else None
  }

  /** `getInitialTheme`. */
  function InitialTheme(env: Env): (t: Theme)
    ensures env.NoWindow? ==> t == Light
    ensures env.Window? && Parse(env.saved).Some? ==> t == Parse(env.saved).value
    ensures env.Window? && Parse(env.saved).None? ==> (t == Dark <==> env.prefersDark == Some(true))
  {
    match env
    case NoWindow => Light
    case Window(saved, prefersDark) =>
      if Parse(saved).Some? then Parse(saved).value
      else if prefersDark.Some? && prefersDark.value then Dark
      else Light
  }

  /** A saved value other than exactly `light` or `dark` is ignored: the result is the
      one with nothing saved. */
  lemma UnknownSavedIgnored(saved: string, prefersDark: Option<bool>)
    requires saved != "light" && saved != "dark"
    ensures InitialTheme(Window(Some(saved), prefersDark)) == InitialTheme(Window(None, prefersDark))
  {
  }

  function Toggle(t: Theme): (r: Theme)
    ensures r != t
  {
    match t
    case Light => Dark
    case Dark => Light
  }

  lemma ToggleInvolution(t: Theme)
    ensures Toggle(Toggle(t)) == t
  {
  }

  /** The root element's classes and the storage, as far as the theme touches them. */
  datatype Page = Page(rootClasses: set<string>, storage: map<string, string>)

  /** The `[theme]` effect: add or remove `dark` on the root, store the theme's name. */
  function ApplyTheme(t: Theme, p: Page): (r: Page)
    ensures "dark" in r.rootClasses <==> t == Dark
    ensures r.rootClasses - {"dark"} == p.rootClasses - {"dark"}
    ensures "theme" in r.storage && r.storage["theme"] == Name(t)
    ensures forall k :: k in p.storage && k != "theme" ==> k in r.storage && r.storage[k] == p.storage[k]
  {
    Page(if t == Dark then p.rootClasses + {"dark"} else p.rootClasses - {"dark"}, p.storage["theme" := Name(t)])
  }

  /** What the effect stores is what the next load starts from, whatever the OS
      preference then is. */
  lemma PersistedRoundTrip(t: Theme, p: Page, prefersDark: Option<bool>)
    ensures var stored := ApplyTheme(t, p).storage["theme"];
      InitialTheme(Window(Some(stored), prefersDark)) == t
  {
  }

  /** The context value: the theme and its setters, as handler names. */
  datatype Context = Context(theme: Theme, toggleTheme: Handler, setTheme: Handler)

  datatype Result<T> = Ok(value: T) | Failure(message: string)

  /** `useTheme`: the context inside the provider, an error outside it. */
  function UseTheme(ctx: Option<Context>): (r: Result<Context>)
    ensures r.Ok? <==> ctx.Some?
    ensures r.Ok? ==> r.value == ctx.value
    ensures r.Failure? ==> r.message == "useTheme must be used within ThemeProvider"
  {
    if ctx.Some? then Ok(ctx.value) else Failure("useTheme must be used within ThemeProvider")
  }

  /** The value `ThemeProvider` puts in the context for its current theme. */
  function ProviderValue(t: Theme): (ctx: Context)
    ensures ctx.theme == t
  {
    Context(t, Handler("toggleTheme"), Handler("setTheme"))
  }

  /** A component below the provider reads the provider's current theme; one with no
      provider above it gets the error instead of a default. */
  lemma UseThemeSeesProvider(t: Theme, inside: bool)
    ensures var r := UseTheme(if inside then Some(ProviderValue(t)) else None);
      && (r.Ok? <==> inside)
      && (inside ==> r.value.theme == t && r.value.toggleTheme == Handler("toggleTheme"))
      && (!inside ==> r == Failure("useTheme must be used within ThemeProvider"))
  {
  }
}
