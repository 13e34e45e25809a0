/**
 * The theme colours of ThemeHelper (theme_helper.cpp): the secondary colour
 * of each background theme, and its copy into the user's style. The
 * colours are the float literals of the source, read as exact reals.
 */
module Theme {
  import opened Backend
  import opened Json

  /** Purple, the colour of PURPLE and of the default branch. */
  const Purple: Vec4 := Vec4(0.5, 0.2, 0.8, 1.0)

  /**
   * The switch of GetSecondaryColorForTheme on the enumerator's value: an
   * int outside 0..5 (a cast of an unknown value) reaches the default.
   */
  function SecondaryColorOfValue(value: int): (c: Vec4)
    ensures c.w == 1.0
    ensures !(0 <= value <= 5) ==> c == Purple
  {
    if value == 0 then Vec4(0.1, 0.1, 0.1, 1.0)
    else if value == 1 then Vec4(0.5, 0.2, 0.8, 1.0)
    else if value == 2 then Vec4(1.0, 0.8, 0.0, 1.0)
    else if value == 3 then Vec4(0.2, 0.5, 1.0, 1.0)
    else if value == 4 then Vec4(0.2, 0.8, 0.2, 1.0)
    else if value == 5 then Vec4(0.8, 0.2, 0.2, 1.0)
    else Purple
  }

  /** GetSecondaryColorForTheme. */
  function GetSecondaryColorForTheme(theme: BgTheme): (c: Vec4)
    ensures c.w == 1.0
    ensures theme == PURPLE ==> c == Purple
  {
    SecondaryColorOfValue(BgThemeIndex(theme))
  }

  /** The colour of each theme, as listed in the switch. */
  lemma SecondaryColorTable()
    ensures GetSecondaryColorForTheme(BLACK) == Vec4(0.1, 0.1, 0.1, 1.0)
    ensures GetSecondaryColorForTheme(PURPLE) == Vec4(0.5, 0.2, 0.8, 1.0)
    ensures GetSecondaryColorForTheme(YELLOW) == Vec4(1.0, 0.8, 0.0, 1.0)
    ensures GetSecondaryColorForTheme(BLUE) == Vec4(0.2, 0.5, 1.0, 1.0)
    ensures GetSecondaryColorForTheme(GREEN) == Vec4(0.2, 0.8, 0.2, 1.0)
    ensures GetSecondaryColorForTheme(RED) == Vec4(0.8, 0.2, 0.2, 1.0)
  {
  }

  /** Different themes get different colours. */
  lemma SecondaryColorsDistinct(a: BgTheme, b: BgTheme)
    ensures a != b ==> GetSecondaryColorForTheme(a) != GetSecondaryColorForTheme(b)
  {
    SecondaryColorTable();
  }

  /** The user object (c_usersettings), reached through a pointer. */
  class UserObject {
    var style: UserSettings

    constructor(style0: UserSettings)
      ensures style == style0
    {
      style := style0;
    }
  }

  /**
   * UpdateSecondaryColorFromTheme: nothing for a null user; otherwise both
   * the secondary colour and the selected-tab colour become the current
   * theme's colour, and no other field changes.
   */
  method UpdateSecondaryColorFromTheme(user: UserObject?)
    modifies user
    ensures user != null ==> user.style == old(user.style).(
      mainSecondaryColor := GetSecondaryColorForTheme(old(user.style).bgTheme),
      tabbarSelectedColor := GetSecondaryColorForTheme(old(user.style).bgTheme))
  {
    if user == null {
      return;
    }
    user.style := user.style.(mainSecondaryColor := GetSecondaryColorForTheme(user.style.bgTheme));
    user.style := user.style.(tabbarSelectedColor := GetSecondaryColorForTheme(user.style.bgTheme));
  }

  /** After the update both colours agree with the theme; a second update changes nothing. */
  lemma UpdateIdempotent(s: UserSettings)
    ensures var c := GetSecondaryColorForTheme(s.bgTheme);
      var s1 := s.(mainSecondaryColor := c, tabbarSelectedColor := c);
      s1.bgTheme == s.bgTheme && s1.mainSecondaryColor == s1.tabbarSelectedColor
      && s1.(mainSecondaryColor := GetSecondaryColorForTheme(s1.bgTheme),
             tabbarSelectedColor := GetSecondaryColorForTheme(s1.bgTheme)) == s1
  {
  }
}
