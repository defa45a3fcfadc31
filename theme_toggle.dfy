/**
 * `initThemeToggle` of script.js: the page theme is the `data-theme`
 * attribute of the root element, remembered under the storage key `theme`;
 * the toggle button flips it between dark and light and names the theme a
 * click would switch to.
 */
module ThemeToggle {
  import opened Wrappers

  const Dark := "dark"
  const Light := "light"

  /**
   * The button labels as script.js spells them: the UTF-8 bytes of a sun
   * (U+2600 U+FE0F) and of a crescent moon (U+1F319), each read back as
   * Windows-1252 text, before " Light" and " Dark".
   */
  const ToLightLabel := "\U{00E2}\U{02DC}\U{20AC}\U{00EF}\U{00B8} Light"
  const ToDarkLabel := "\U{00F0}\U{0178}\U{0152}\U{2122} Dark"

  /** `localStorage.getItem('theme') || 'dark'`: a missing or empty stored value means dark. */
  function SavedTheme(stored: Option<string>): (r: string)
    ensures r != ""
    ensures stored.Some? && stored.value != "" ==> r == stored.value
    ensures stored.None? || stored.value == "" ==> r == Dark
  {
    if stored.Some? && stored.value != "" then stored.value else Dark
  }

  /** The theme a click switches to: light from dark, dark from anything else (an absent attribute included). */
  function NextTheme(current: Option<string>): (r: string)
    ensures r == Dark || r == Light
    ensures r == Light <==> current == Some(Dark)
  {
    if current == Some(Dark) then Light else Dark
  }

  /** The button text for a page in `theme`. */
  function LabelFor(theme: string): (r: string)
    ensures r == ToLightLabel <==> theme == Dark
    ensures r == ToDarkLabel <==> theme != Dark
  {
    if theme == Dark then ToLightLabel else ToDarkLabel
  }

  /** Two clicks restore the theme exactly when it was dark or light to begin with. */
  lemma TwoTogglesRestore(theme: string)
    ensures NextTheme(Some(NextTheme(Some(theme)))) == theme <==> theme == Dark || theme == Light
  {
    if theme != Dark && theme != Light {
      assert NextTheme(Some(NextTheme(Some(theme)))) == Light;
    }
  }

  /** Any theme other than dark, including a stored unknown one, becomes dark on the first click. */
  lemma OtherThemesBecomeDark(theme: string)
    requires theme != Dark
    ensures NextTheme(Some(theme)) == Dark
  {
  }

  /**
   * The document state the toggle touches: the `data-theme` attribute, the
   * stored value, the button's text, and whether the click listener is in
   * place.
   */
  class ThemeState {
    var theme: Option<string>
    var stored: Option<string>
    var buttonText: string
    var wired: bool

    constructor (theme: Option<string>, stored: Option<string>, buttonText: string)
      ensures this.theme == theme && this.stored == stored && this.buttonText == buttonText && !wired
    {
      this.theme := theme;
      this.stored := stored;
      this.buttonText := buttonText;
      this.wired := false;
    }

    /** The button names the theme a click would switch to. */
    predicate LabelMatches()
      reads this
    {
      theme.Some? && buttonText == LabelFor(theme.value)
    }

    /**
     * `initThemeToggle`: nothing without a toggle button; otherwise the saved
     * theme is applied, the click listener installed and the button text set.
     * Storage is only read.
     */
    method Init(hasButton: bool)
      modifies this
      ensures !hasButton ==> theme == old(theme) && stored == old(stored) && buttonText == old(buttonText) && wired == old(wired)
      ensures hasButton ==> theme == Some(SavedTheme(old(stored))) && stored == old(stored) && wired
      ensures hasButton ==> LabelMatches()
    {
      if !hasButton {
        return;
      }
      var saved := if stored.Some? && stored.value != "" then stored.value else Dark;
      theme := Some(saved);
      wired := true;
      buttonText := if saved == Dark then ToLightLabel else ToDarkLabel;
    }

    /**
     * A click on the button: the next theme goes to the attribute and to
     * storage alike, and the buttonText follows. Before `Init` has wired the
     * button a click does nothing.
     */
    method Click()
      modifies this
      ensures !old(wired) ==> theme == old(theme) && stored == old(stored) && buttonText == old(buttonText) && !wired
      ensures old(wired) ==> theme == Some(NextTheme(old(theme))) && stored == theme && wired
      ensures old(wired) ==> LabelMatches()
    {
      if !wired {
        return;
      }
      var next := if theme == Some(Dark) then Light else Dark;
      theme := Some(next);
      stored := Some(next);
      buttonText := if next == Dark then ToLightLabel else ToDarkLabel;
    }
  }
}
