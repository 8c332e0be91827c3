/** The theme context: a fixed table of four colour themes, the current theme
    and a dark flag, changed by a dark-mode toggle and by picking a theme by
    name. */
module ThemeContext {

  datatype Theme = Theme(name: string, colors: map<string, string>)

  datatype State = State(currentTheme: Theme, isDark: bool)

  /** The seven colour roles every theme defines. */
  const ColorKeys: set<string> :=
    {"primary", "secondary", "background", "surface", "text", "textSecondary", "border"}

  function Palette(primary: string, secondary: string, background: string, surface: string,
                   text: string, textSecondary: string, border: string): (r: map<string, string>)
    ensures r.Keys == ColorKeys
  {
    map["primary" := primary, "secondary" := secondary, "background" := background,
        "surface" := surface, "text" := text, "textSecondary" := textSecondary,
        "border" := border]
  }

  const Light := Theme("light", Palette("#3B82F6", "#6B7280", "#F3F4F6", "#FFFFFF", "#1F2937", "#4B5563", "#E5E7EB"))
  const Dark := Theme("dark", Palette("#60A5FA", "#9CA3AF", "#1F2937", "#374151", "#F9FAFB", "#D1D5DB", "#4B5563"))
  const Ocean := Theme("ocean", Palette("#0EA5E9", "#64748B", "#F0F9FF", "#FFFFFF", "#0F172A", "#334155", "#E0F2FE"))
  const Forest := Theme("forest", Palette("#059669", "#64748B", "#F0FDF4", "#FFFFFF", "#064E3B", "#065F46", "#DCFCE7"))

  /** `themes`, keyed by theme name. */
  const Themes: map<string, Theme> :=
    map["light" := Light, "dark" := Dark, "ocean" := Ocean, "forest" := Forest]

  /** The table has exactly four entries, each filed under its own name and
      defining the same seven colour roles. */
  lemma ThemeTable()
    ensures Themes.Keys == {"light", "dark", "ocean", "forest"}
    ensures forall n :: n in Themes ==> Themes[n].name == n && Themes[n].colors.Keys == ColorKeys
  {
    assert Light.colors.Keys == Dark.colors.Keys == Ocean.colors.Keys == Forest.colors.Keys == ColorKeys;
  }

  /** The state with no saved preference: light, not dark. */
  const Default := State(Light, false)

  /** The dark flag agrees with the current theme. */
  predicate Consistent(st: State) {
    st.isDark <==> st.currentTheme == Dark
  }

  /** `toggleDarkMode`: the flag flips, and the theme becomes the light one
      if it was dark and the dark one otherwise. */
  function ToggleDarkMode(st: State): (r: State)
    ensures r.isDark == !st.isDark
    ensures r.currentTheme == (if st.isDark then Themes["light"] else Themes["dark"])
    ensures Consistent(r)
  {
    State(if st.isDark then Light else Dark, !st.isDark)
  }

  /** `changeTheme`: a name in the table selects that theme, dark exactly
      when the name is "dark"; any other name changes nothing. */
  function ChangeTheme(st: State, themeName: string): (r: State)
    ensures themeName in Themes ==> r.currentTheme == Themes[themeName] && (r.isDark <==> themeName == "dark")
    ensures themeName !in Themes ==> r == st
    ensures themeName in Themes ==> Consistent(r)
  {
    if themeName in Themes then State(Themes[themeName], themeName == "dark") else st
  }

  /** Whatever state the context is in, every toggle and every change of
      theme leaves it consistent, except a change to an unknown name, which
      keeps it as consistent as it was. */
  lemma {:induction false} StepsKeepConsistent(st: State, themeName: string)
    requires Consistent(st)
    ensures Consistent(ToggleDarkMode(st)) && Consistent(ChangeTheme(st, themeName))
  {
  }

  /** Two toggles from a state that is not dark end on the light theme,
      not dark, even when the state started on another theme. */
  lemma TwoTogglesEndLight(st: State)
    requires !st.isDark
    ensures ToggleDarkMode(ToggleDarkMode(st)) == State(Themes["light"], false)
  {
  }

  /** The state with no saved preference is consistent. */
  lemma DefaultConsistent()
    ensures Consistent(Default)
  {
  }
}
