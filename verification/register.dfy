/**
 The registration page's own theme handling and submit flow. Its theme rule is a
 second, slightly different copy of `ThemeProvider`'s: it reads the saved value
 and the OS preference in a mount effect, and it keeps a boolean rather than a
 theme name.
 */
module Register {
  import opened Js
  import opened Dom
  import Theme
  import FormParts

  /** The mount effect's verdict: `None` when it throws because the browser lacks
      `matchMedia`; without a window both reads give nothing and the page stays
      light. */
  function InitialDark(env: Theme.Env): (r: Option<bool>)
    ensures env.NoWindow? ==> r == Some(false)
    ensures env.Window? && env.prefersDark.None? ==> r.None?
    ensures env.Window? && env.prefersDark.Some? ==>
      (r.Some? && (r.value <==> env.saved == Some("dark") || (!Truthy(env.saved) && env.prefersDark.value)))
  {
    match env
    case NoWindow => Some(false)
    case Window(saved, prefersDark) =>
      if prefersDark.None? then None
      else Some(saved == Some("dark") || (!Truthy(saved) && prefersDark.value))
  }

  /** The register page and `ThemeProvider` start dark on the same inputs, except when
      a non-empty saved value other than `light`/`dark` meets an OS preference for
      dark: `ThemeProvider` ignores such a value, this page treats it as light. */
  lemma AgreesWithThemeProvider(env: Theme.Env)
    requires env.NoWindow? || env.prefersDark.Some?
    ensures var ownRule := InitialDark(env).value;
      var provider := Theme.InitialTheme(env) == Theme.Dark;
      ownRule != provider <==>
        env.Window? && Truthy(env.saved) && env.saved.value != "light" && env.saved.value != "dark"
        && env.prefersDark.value
  {
  }

  /** Only this page needs `matchMedia`: without it the page's effect throws, while
      `ThemeProvider` still starts from a valid saved theme, or light. */
  lemma OnlyRegisterNeedsMatchMedia(saved: Option<string>)
    ensures InitialDark(Theme.Window(saved, None)).None?
    ensures Theme.InitialTheme(Theme.Window(saved, None)) == (if saved == Some("dark") then Theme.Dark else Theme.Light)
  {
  }

  function ThemeOf(isDark: bool): Theme.Theme {
    if isDark then Theme.Dark else Theme.Light
  }

  /** The `[isDarkMode]` effect: the `dark` class and the stored `theme` follow the flag. */
  function ApplyDarkMode(isDark: bool, p: Theme.Page): (r: Theme.Page)
    ensures "dark" in r.rootClasses <==> isDark
    ensures "theme" in r.storage && (r.storage["theme"] == "dark" <==> isDark)
  {
    Theme.Page(if isDark then p.rootClasses + {"dark"} else p.rootClasses - {"dark"},
               p.storage["theme" := if isDark then "dark" else "light"])
  }

  /** The effect does what `ThemeProvider`'s does for the corresponding theme. */
  lemma ApplyDarkModeIsApplyTheme(isDark: bool, p: Theme.Page)
    ensures ApplyDarkMode(isDark, p) == Theme.ApplyTheme(ThemeOf(isDark), p)
  {
  }

  /** `toggleTheme`. */
  function Toggle(isDark: bool): (r: bool)
    ensures r != isDark
  {
    !isDark
  }

  /** The stored values written on mount. Without a window no effect runs, and when
      the mount effect throws (no `matchMedia`) the `[isDarkMode]` effect after it in
      the same commit is skipped, so nothing is written. Otherwise that effect first
      runs with the initial `false`, so `light` is written before the mount effect's
      verdict re-renders the page; a dark verdict then writes `dark`. */
  function MountWrites(env: Theme.Env): (ws: seq<string>)
    ensures ws == [] <==> env.NoWindow? || InitialDark(env).None?
    ensures ws != [] ==> ws[0] == "light"
    ensures ws != [] ==> (ws[|ws| - 1] == "dark" <==> InitialDark(env) == Some(true))
  {
    if env.NoWindow? || InitialDark(env).None? then []
    else if InitialDark(env) == Some(true) then ["light", "dark"]
    else ["light"]
  }

  /** After mount the stored theme matches the rule, and a saved `light` or `dark`
      survives; an unrecognised saved value is replaced by `light`. */
  lemma MountPersists(env: Theme.Env)
    requires env.Window? && env.prefersDark.Some?
    ensures var last := MountWrites(env)[|MountWrites(env)| - 1];
      && (env.saved == Some("dark") ==> last == "dark")
      && (env.saved == Some("light") ==> last == "light")
      && (Truthy(env.saved) && env.saved.value != "dark" ==> last == "light")
  {
  }

  // ---------------------------------------------------------------------------
  // Submitting

  datatype State = State(errorMessage: string, isSubmitting: bool, redirectedTo: Option<string>)

  /** The answer to the registration request: success, a failure whose body may
      carry an `error` string (`None` when absent or unreadable), or a thrown request. */
  datatype Outcome = Registered | Refused(error: Option<string>) | Thrown

  /** `handleSubmit` before the request: submitting, no error showing. */
  function BeginSubmit(s: State): (r: State)
    ensures r.isSubmitting && r.errorMessage == "" && r.redirectedTo == s.redirectedTo
  {
    s.(isSubmitting := true, errorMessage := "")
  }

  /** `handleSubmit` after the request; the `finally` clears `isSubmitting` on every
      path, including the early return after the redirect. */
  function FinishSubmit(s: State, o: Outcome): (r: State)
    ensures !r.isSubmitting
    ensures r.redirectedTo == (if o.Registered? then Some("/login?success=1") else s.redirectedTo)
    ensures o.Refused? ==> r.errorMessage == (if Truthy(o.error) then o.error.value else "Failed to register")
    ensures o.Thrown? ==> r.errorMessage == "Failed to register"
    ensures o.Registered? ==> r.errorMessage == s.errorMessage
  {
    match o
    case Registered => s.(redirectedTo := Some("/login?success=1"), isSubmitting := false)
    case Refused(error) => s.(errorMessage := Or(error, "Failed to register"), isSubmitting := false)
    case Thrown => s.(errorMessage := "Failed to register", isSubmitting := false)
  }

  /** Every failed submission ends with a non-empty message, and the only successful
      one leaves no message behind. */
  lemma SubmitMessages(s: State, o: Outcome)
    ensures var r := FinishSubmit(BeginSubmit(s), o);
      && !r.isSubmitting
      && (o.Registered? <==> r.errorMessage == "")
  {
  }

  /** The submit button: disabled and loading exactly while submitting, with the
      screen-reader "Creating account..." in place of "Create account". */
  function SubmitButton(isSubmitting: bool): (n: Node)
    ensures n.tag == Button("submit", isSubmitting, false)
    ensures isSubmitting ==> n.kids == [El(Span, "sr-only", "Creating account...", [])]
    ensures !isSubmitting ==> n.kids == [TextNode("Create account")]
    ensures StartsWith(n.cls, "btn btn-primary w-full ")
  {
    El(Button("submit", isSubmitting, false), "btn btn-primary w-full " + (if isSubmitting then "btn-loading" else ""), "",
       if isSubmitting then [El(Span, "sr-only", "Creating account...", [])] else [TextNode("Create account")])
  }

  /** The button's class names carry `btn-loading` exactly while submitting. */
  lemma SubmitButtonLoading(isSubmitting: bool)
    ensures isSubmitting <==> Contains(SubmitButton(isSubmitting).cls, "btn-loading")
  {
    var cls := SubmitButton(isSubmitting).cls;
    if isSubmitting {
      assert EndsWith(cls, "btn-loading");
      ContainsSuffix(cls, "btn-loading");
    } else {
      MissingCharacter(cls, "btn-loading", 'g');
    }
  }

  /** The error banner: the same markup as the forms' error alert, shown exactly while
      a message is set. */
  function ErrorAlert(errorMessage: string): (r: seq<Node>)
    ensures r == FormParts.Alert("error", Some(errorMessage))
  {
    assert "alert alert-" + "error" == "alert alert-error";
    if errorMessage != "" then [El(Div, "alert alert-error", "", [El(Span, "", errorMessage, [])])] else []
  }

  /** After a submission the banner shows exactly when registration did not succeed,
      and then carries the final message. */
  lemma BannerAfterSubmit(s: State, o: Outcome)
    ensures var r := FinishSubmit(BeginSubmit(s), o);
      && (ErrorAlert(r.errorMessage) != [] <==> !o.Registered?)
      && (ErrorAlert(r.errorMessage) != [] ==> ErrorAlert(r.errorMessage)[0].kids == [El(Span, "", r.errorMessage, [])])
  {
  }
}
