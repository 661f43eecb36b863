/**
 * The page's appearance settings: the colour theme, chosen from local storage
 * at load and flipped by the toggle button, and the level of a skill bar,
 * clamped to a percentage.
 */
module Appearance {
  import opened Common

  /** Local storage as the theme code sees it: unusable (every access throws), or holding the theme item or not. */
  datatype Storage = Failing | Working(item: Option<string>)

  /**
   * What the theme code writes: the root element's `data-theme`, the
   * toggle's `aria-pressed`, the label's text and the stored item. The
   * toggle and the label are optional elements of the page.
   */
  datatype ThemeState = ThemeState(
    dataTheme: Option<string>,
    ariaPressed: Option<string>,
    labelText: Option<string>,
    storage: Storage)

  /** The two themes the page knows. */
  predicate IsTheme(t: string) {
    t == "light" || t == "dark"
  }

  /** The theme stored by an earlier visit when there is a valid one, else dark. */
  function InitialTheme(storage: Storage): (t: string)
    ensures IsTheme(t)
    ensures storage.Working? && storage.item.Some? && IsTheme(storage.item.value) ==> t == storage.item.value
    ensures !(storage.Working? && storage.item.Some? && IsTheme(storage.item.value)) ==> t == "dark"
  {
    if storage.Working? && storage.item.Some? && (storage.item.value == "light" || storage.item.value == "dark")
    then storage.item.value
    else "dark"
  }

  /**
   * `setTheme`: shows the light theme for "light" and the dark theme for any
   * other argument, updates the toggle and the label when they exist, and
   * stores the argument as given when storage works.
   */
  function SetTheme(st: ThemeState, theme: string, hasToggle: bool, hasLabel: bool): (r: ThemeState)
    ensures r.dataTheme.Some? && IsTheme(r.dataTheme.value)
    ensures r.dataTheme == Some("light") <==> theme == "light"
    ensures hasToggle ==> r.ariaPressed == Some(if r.dataTheme == Some("dark") then "true" else "false")
    ensures !hasToggle ==> r.ariaPressed == st.ariaPressed
    ensures hasLabel ==> r.labelText == Some(if r.dataTheme == Some("light") then "Light" else "Dark")
    ensures !hasLabel ==> r.labelText == st.labelText
    ensures st.storage.Working? ==> r.storage == Working(Some(theme))
    ensures st.storage.Failing? ==> r.storage == Failing
  {
    var isLight := theme == "light";
    ThemeState(
      Some(if isLight then "light" else "dark"),
      if hasToggle then Some(if isLight then "false" else "true") else st.ariaPressed,
      if hasLabel then Some(if isLight then "Light" else "Dark") else st.labelText,
      if st.storage.Working? then Working(Some(theme)) else Failing)
  }

  /** The theme a click on the toggle asks for: light unless the page shows light; no theme counts as dark. */
  function ToggleTarget(current: Option<string>): (t: string)
    ensures IsTheme(t)
    ensures t == "dark" <==> current == Some("light")
  {
    var shown := if current.Some? && current.value != "" then current.value else "dark";
    if shown == "light" then "dark" else "light"
  }

  /** The start of `initThemeToggle`: applies the initial theme. */
  function InitTheme(st: ThemeState, hasToggle: bool, hasLabel: bool): (r: ThemeState)
    ensures r.dataTheme == Some(InitialTheme(st.storage))
  {
    SetTheme(st, InitialTheme(st.storage), hasToggle, hasLabel)
  }

  /** A click on the theme toggle. */
  function ClickToggle(st: ThemeState, hasLabel: bool): (r: ThemeState)
    ensures r.dataTheme != st.dataTheme
  {
    SetTheme(st, ToggleTarget(st.dataTheme), true, hasLabel)
  }

  /** The toggle, the label and the root element all tell the same theme. */
  predicate Coherent(st: ThemeState) {
    && st.dataTheme.Some? && IsTheme(st.dataTheme.value)
    && st.ariaPressed == Some(if st.dataTheme.value == "dark" then "true" else "false")
    && st.labelText == Some(if st.dataTheme.value == "light" then "Light" else "Dark")
  }

  /** Once both elements exist, setting any theme leaves the page coherent. */
  lemma SetThemeCoherent(st: ThemeState, theme: string)
    ensures Coherent(SetTheme(st, theme, true, true))
  {
  }

  /** Clicking the toggle twice brings back the theme the page showed, once it shows one of the two themes. */
  lemma ToggleTwice(st: ThemeState, hasLabel: bool)
    requires st.dataTheme.Some? && IsTheme(st.dataTheme.value)
    ensures ClickToggle(ClickToggle(st, hasLabel), hasLabel).dataTheme == st.dataTheme
  {
  }

  /** What a page shows is what the next visit starts from, whenever storage works. */
  lemma ThemeSurvivesReload(st: ThemeState, theme: string, hasToggle: bool, hasLabel: bool)
    requires st.storage.Working?
    ensures var r := SetTheme(st, theme, hasToggle, hasLabel);
      Some(InitialTheme(r.storage)) == r.dataTheme
  {
  }

  /** Loading the page does not change a valid stored choice. */
  lemma InitThemeKeepsStoredChoice(st: ThemeState, hasToggle: bool, hasLabel: bool)
    requires st.storage.Working? && st.storage.item.Some? && IsTheme(st.storage.item.value)
    ensures InitTheme(st, hasToggle, hasLabel).storage == st.storage
    ensures InitTheme(st, hasToggle, hasLabel).dataTheme == st.storage.item
  {
  }

  // ---------------------------------------------------------------------------
  // Skill bars

  /** The level of a skill bar: its `data-level` as a number, 0 when not finite, clamped to 0..100. */
  function SkillLevel(raw: NumberValue): (level: int)
    ensures 0 <= level <= 100
    ensures raw.Finite? && 0 <= raw.value <= 100 ==> level == raw.value
    ensures raw.NotFinite? || raw.value < 0 ==> level == 0
    ensures raw.Finite? && raw.value > 100 ==> level == 100
  {
    var v := if raw.Finite? then raw.value else 0;
    Min(100, if v < 0 then 0 else v)
  }

  /** A higher declared level never draws a shorter bar. */
  lemma SkillLevelMonotone(a: int, b: int)
    requires a <= b
    ensures SkillLevel(Finite(a)) <= SkillLevel(Finite(b))
  {
  }

  /** Clamping an already clamped level changes nothing. */
  lemma SkillLevelIdempotent(raw: NumberValue)
    ensures SkillLevel(Finite(SkillLevel(raw))) == SkillLevel(raw)
  {
  }
}
