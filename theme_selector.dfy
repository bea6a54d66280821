/**
 * The theme picker of src/components/ThemeSelector.tsx: the table of the
 * four themes it offers, and a selection that is ignored for the current
 * theme or while a previous one is being saved, and is otherwise applied
 * at once and then saved, with no undo if saving fails.
 */
module ThemeSelector {

  datatype ThemeOption = ThemeOption(id: string, name: string, color: string)

  /** `THEMES` */
  const Themes: seq<ThemeOption> := [
    ThemeOption("cosmos", "Cosmos", "#c9a227"),
    ThemeOption("art_deco", "Art Deco", "#d4af37"),
    ThemeOption("sakura", "Sakura", "#ff69b4"),
    ThemeOption("neural", "Neural", "#00f3ff")
  ]

  /** Four themes, no two with the same id. */
  lemma ThemesDistinct()
    ensures |Themes| == 4
    ensures forall i, j :: 0 <= i < j < |Themes| ==> Themes[i].id != Themes[j].id
  {
  }

  /** What a selection does outside the component, in order: the parent's
      `onThemeChange`, then the `update` of the profile's `theme_id`. */
  datatype Effect = ThemeChanged(themeId: string) | Persisted(userId: string, themeId: string)

  class ThemeSelector {
    const currentTheme: string
    const userId: string
    var updating: bool

    constructor(current: string, user: string)
      ensures currentTheme == current && userId == user && !updating
    {
      currentTheme := current;
      userId := user;
      updating := false;
    }

    /** `handleThemeSelect(themeId)`. `persistFailed` is whether the update
        reported an error; the error is only logged, so the effects and the
        final state do not depend on it. */
    method Select(themeId: string, persistFailed: bool) returns (effects: seq<Effect>)
      modifies this
      ensures themeId == currentTheme || old(updating) ==> effects == [] && updating == old(updating)
      ensures themeId != currentTheme && !old(updating) ==>
        effects == [ThemeChanged(themeId), Persisted(userId, themeId)] && !updating
    {
      if themeId == currentTheme || updating {
        return [];
      }
      updating := true;
      effects := [ThemeChanged(themeId)];
      effects := effects + [Persisted(userId, themeId)];
      updating := false;
    }
  }
}
