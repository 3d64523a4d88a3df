/**
 * `useContextExample.jsx`: a theme provider (theme name and accent colour, plus the
 * colours derived from the theme) and a user provider (a user record updated by
 * shallow merges), with the two hooks that read them and fail outside a provider.
 */
module ContextExample {
  import opened Wrappers

  // ---------------------------------------------------------------------------
  // theme

  /** The theme context value, without its callbacks. */
  datatype ThemeValue = ThemeValue(
    theme: string, accentColor: string, isDark: bool,
    textColor: string, backgroundColor: string, surfaceColor: string, borderColor: string)

  /** The memoised context value: the colours follow from whether the theme is `dark`. */
  function DeriveTheme(theme: string, accentColor: string): (v: ThemeValue)
    ensures v.theme == theme && v.accentColor == accentColor
    ensures v.isDark <==> theme == "dark"
    ensures v.isDark ==>
      (v.textColor, v.backgroundColor, v.surfaceColor, v.borderColor) == ("#ffffff", "#121212", "#1e1e1e", "#333333")
    ensures !v.isDark ==>
      (v.textColor, v.backgroundColor, v.surfaceColor, v.borderColor) == ("#000000", "#ffffff", "#f5f5f5", "#e0e0e0")
  {
    var dark := theme == "dark";
    ThemeValue(theme, accentColor, dark,
      if dark then "#ffffff" else "#000000",
      if dark then "#121212" else "#ffffff",
      if dark then "#1e1e1e" else "#f5f5f5",
      if dark then "#333333" else "#e0e0e0")
  }

  /** The derived colours depend on the theme alone: the accent colour never changes them, and any non-dark theme looks light. */
  lemma ColoursDependOnThemeAlone(theme: string, other: string, accent: string, accent2: string)
    requires (theme == "dark") == (other == "dark")
    ensures DeriveTheme(theme, accent).(theme := other, accentColor := accent2) == DeriveTheme(other, accent2)
  {
  }

  /** `toggleTheme`'s updater: `light` becomes `dark`, anything else becomes `light`. */
  function ToggledTheme(theme: string): (next: string)
    ensures theme == "light" ==> next == "dark"
    ensures theme != "light" ==> next == "light"
  {
    if theme == "light" then "dark" else "light"
  }

  /** Two toggles restore `light` and `dark`; any other theme name is replaced after one toggle and then alternates. */
  lemma ToggleThemeTwice(theme: string)
    ensures theme == "light" || theme == "dark" ==> ToggledTheme(ToggledTheme(theme)) == theme
    ensures ToggledTheme(theme) == "light" || ToggledTheme(theme) == "dark"
    ensures theme != "light" && theme != "dark" ==> ToggledTheme(ToggledTheme(theme)) == "dark"
  {
  }

  /** A `ThemeProvider` instance. */
  class ThemeProvider {
    var theme: string
    var accentColor: string

    constructor()
      ensures theme == "light" && accentColor == "#2196f3"
    {
      theme := "light";
      accentColor := "#2196f3";
    }

    function Value(): ThemeValue
      reads this
    {
      DeriveTheme(theme, accentColor)
    }

    method ToggleTheme()
      modifies this
      ensures theme == ToggledTheme(old(theme)) && accentColor == old(accentColor)
    {
      theme := if theme == "light" then "dark" else "light";
    }

    method ChangeAccentColor(color: string)
      modifies this
      ensures accentColor == color && theme == old(theme)
      ensures Value().isDark == old(Value().isDark) && Value().textColor == old(Value().textColor)
    {
      accentColor := color;
    }

    /** The raw `setTheme` the context also exposes. */
    method SetTheme(t: string)
      modifies this
      ensures theme == t && accentColor == old(accentColor)
    {
      theme := t;
    }
  }

  // ---------------------------------------------------------------------------
  // user

  datatype Preferences = Preferences(notifications: bool, language: string)

  datatype User = User(name: string, email: string, role: string, preferences: Preferences)

  const InitialUser: User := User("John Doe", "john@example.com", "user", Preferences(true, "en"))

  /** The keys an `updateUser` argument supplies; `None` is a key it leaves out. */
  datatype UserPatch = UserPatch(name: Option<string>, email: Option<string>, role: Option<string>, preferences: Option<Preferences>)

  /** The keys an `updatePreferences` argument supplies. */
  datatype PreferencesPatch = PreferencesPatch(notifications: Option<bool>, language: Option<string>)

  const NoUserChange: UserPatch := UserPatch(None, None, None, None)

  /** `{...prev, ...updates}`: each supplied key replaces the old value, the rest are kept. */
  function MergeUser(u: User, p: UserPatch): (r: User)
    ensures r.name == (if p.name.Some? then p.name.value else u.name)
    ensures r.email == (if p.email.Some? then p.email.value else u.email)
    ensures r.role == (if p.role.Some? then p.role.value else u.role)
    ensures r.preferences == (if p.preferences.Some? then p.preferences.value else u.preferences)
  {
    User(p.name.GetOr(u.name), p.email.GetOr(u.email), p.role.GetOr(u.role), p.preferences.GetOr(u.preferences))
  }

  function MergePreferences(prefs: Preferences, p: PreferencesPatch): (r: Preferences)
    ensures r.notifications == (if p.notifications.Some? then p.notifications.value else prefs.notifications)
    ensures r.language == (if p.language.Some? then p.language.value else prefs.language)
  {
    Preferences(p.notifications.GetOr(prefs.notifications), p.language.GetOr(prefs.language))
  }

  /** `updatePreferences`' updater: the merge happens one level down; every other user field is kept. */
  function WithPreferences(u: User, p: PreferencesPatch): (r: User)
    ensures r == MergeUser(u, NoUserChange.(preferences := Some(MergePreferences(u.preferences, p))))
  {
    u.(preferences := MergePreferences(u.preferences, p))
  }

  /** A merge with no keys changes nothing, and merging the same patch twice is merging it once. */
  lemma MergeLaws(u: User, p: UserPatch, prefs: Preferences, q: PreferencesPatch)
    ensures MergeUser(u, NoUserChange) == u
    ensures MergeUser(MergeUser(u, p), p) == MergeUser(u, p)
    ensures MergePreferences(prefs, PreferencesPatch(None, None)) == prefs
    ensures MergePreferences(MergePreferences(prefs, q), q) == MergePreferences(prefs, q)
  {
  }

  function IsAdmin(u: User): (b: bool)
    ensures b <==> u.role == "admin"
  {
    u.role == "admin"
  }

  /** `!!user.name`: an empty name means nobody is logged in. */
  function IsLoggedIn(u: User): (b: bool)
    ensures b <==> u.name != ""
  {
    u.name != ""
  }

  /** The patch the role button sends. */
  function RoleTogglePatch(u: User): (p: UserPatch)
    ensures p == NoUserChange.(role := Some(if IsAdmin(u) then "user" else "admin"))
  {
    NoUserChange.(role := Some(if u.role == "admin" then "user" else "admin"))
  }

  /** The patch the notification checkbox sends. */
  function NotificationTogglePatch(u: User): (p: PreferencesPatch)
    ensures p == PreferencesPatch(Some(!u.preferences.notifications), None)
  {
    PreferencesPatch(Some(!u.preferences.notifications), None)
  }

  /** The role button flips admin rights every time; from `user` or `admin` two presses restore the role. */
  lemma RoleToggleLaws(u: User)
    ensures IsAdmin(MergeUser(u, RoleTogglePatch(u))) == !IsAdmin(u)
    ensures u.role == "user" || u.role == "admin" ==>
      MergeUser(MergeUser(u, RoleTogglePatch(u)), RoleTogglePatch(MergeUser(u, RoleTogglePatch(u)))) == u
  {
  }

  /** The checkbox negates `notifications` alone, and two clicks restore the user. */
  lemma NotificationToggleLaws(u: User)
    ensures var v := WithPreferences(u, NotificationTogglePatch(u));
      v.preferences.notifications == !u.preferences.notifications
      && v.preferences.language == u.preferences.language
      && v.(preferences := u.preferences) == u
    ensures var v := WithPreferences(u, NotificationTogglePatch(u));
      WithPreferences(v, NotificationTogglePatch(v)) == u
  {
  }

  /** A `UserProvider` instance. */
  class UserProvider {
    var user: User

    constructor()
      ensures user == InitialUser && !IsAdmin(user) && IsLoggedIn(user)
    {
      user := InitialUser;
    }

    method UpdateUser(p: UserPatch)
      modifies this
      ensures user == MergeUser(old(user), p)
    {
      user := User(p.name.GetOr(user.name), p.email.GetOr(user.email), p.role.GetOr(user.role), p.preferences.GetOr(user.preferences));
    }

    method UpdatePreferences(p: PreferencesPatch)
      modifies this
      ensures user == WithPreferences(old(user), p)
    {
      user := user.(preferences := MergePreferences(user.preferences, p));
    }

    method HandleNameChange(value: string)
      modifies this
      ensures user == MergeUser(old(user), NoUserChange.(name := Some(value)))
      ensures IsLoggedIn(user) <==> value != ""
    {
      UpdateUser(NoUserChange.(name := Some(value)));
    }

    method HandleRoleToggle()
      modifies this
      ensures user == MergeUser(old(user), RoleTogglePatch(old(user)))
    {
      UpdateUser(RoleTogglePatch(user));
    }

    method HandleNotificationToggle()
      modifies this
      ensures user == WithPreferences(old(user), NotificationTogglePatch(old(user)))
    {
      UpdatePreferences(NotificationTogglePatch(user));
    }
  }

  // ---------------------------------------------------------------------------
  // the hooks

  const ThemeOutsideProvider := "useTheme must be used within a ThemeProvider"
  const UserOutsideProvider := "useUser must be used within a UserProvider"

  /** `useTheme`: the nearest provider's value, or the error thrown when there is none. */
  function UseTheme(context: Option<ThemeValue>): (r: Result<ThemeValue>)
    ensures context.None? <==> r == Err(ThemeOutsideProvider)
    ensures context.Some? ==> r == Ok(context.value)
  {
    match context
    case None => Err(ThemeOutsideProvider)
    case Some(v) => Ok(v)
  }

  /** `useUser`: the nearest provider's user, or the error thrown when there is none. */
  function UseUser(context: Option<User>): (r: Result<User>)
    ensures context.None? <==> r == Err(UserOutsideProvider)
    ensures context.Some? ==> r == Ok(context.value)
  {
    match context
    case None => Err(UserOutsideProvider)
    case Some(u) => Ok(u)
  }
}
