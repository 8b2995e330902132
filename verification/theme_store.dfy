/**
  The theme store: one string, intended to be `light`, `dark` or `system`, set
  without validation.
 */
module ThemeStore {

  const Light: string := "light"
  const Dark: string := "dark"
  const System: string := "system"

  /** The three modes, in the order the layout cycles through them. */
  const Modes: seq<string> := [Light, Dark, System]

  datatype ThemeState = ThemeState(theme: string)

  function Initial(): (s: ThemeState)
    ensures s.theme == System && s.theme in Modes
  {
    ThemeState(System)
  }

  /** `setTheme(theme)`: stores any string, valid mode or not. */
  function SetTheme(s: ThemeState, theme: string): (r: ThemeState)
    ensures r.theme == theme
  {
    ThemeState(theme)
  }

  lemma SetThemeIdempotent(s: ThemeState, theme: string)
    ensures SetTheme(SetTheme(s, theme), theme) == SetTheme(s, theme)
  {
  }

  lemma SetThemeLastWriteWins(s: ThemeState, a: string, b: string)
    ensures SetTheme(SetTheme(s, a), b) == SetTheme(s, b)
  {
  }
}
