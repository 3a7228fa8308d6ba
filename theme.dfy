/**
 * The theme button: each click flips the `data-theme` attribute of the page body
 * between "default" and "purple". The glow fade played on every click is an animation
 * of an external library and is not part of this model.
 */
module Theme {
  import opened Wrappers

  const DefaultTheme: string := "default"
  const PurpleTheme: string := "purple"

  /**
   * The attribute value a click writes, given the value read (None when the
   * attribute is absent): "purple" exactly when the current theme is "default",
   * and "default" for every other value.
   */
  function Toggled(current: Option<string>): (next: string)
    ensures next == PurpleTheme <==> current == Some(DefaultTheme)
    ensures next != PurpleTheme ==> next == DefaultTheme
  {
    if current == Some(DefaultTheme) then PurpleTheme else DefaultTheme
  }

  /** The page body, as far as the theme button sees it. */
  class Page {
    var dataTheme: Option<string>

    constructor (initialTheme: Option<string>)
      ensures dataTheme == initialTheme
    {
      dataTheme := initialTheme;
    }

    /** The click handler of the theme button. */
    method ClickThemeButton()
      modifies this
      ensures dataTheme == Some(Toggled(old(dataTheme)))
    {
      var currentTheme := dataTheme;
      if currentTheme == Some(DefaultTheme) {
        dataTheme := Some(PurpleTheme);
      } else {
        dataTheme := Some(DefaultTheme);
      }
    }
  }

  /** After one click the theme is one of the two known ones, and further clicks alternate them. */
  lemma ToggleAlternates(current: Option<string>)
    ensures var once := Toggled(current);
            var twice := Toggled(Some(once));
            twice != once && Toggled(Some(twice)) == once
  {
  }

  /** Two clicks starting from the default theme come back to it. */
  lemma TwoClicksFromDefault()
    ensures Toggled(Some(Toggled(Some(DefaultTheme)))) == DefaultTheme
  {
  }
}
