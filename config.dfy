/** The static configuration tables of the calendar generator: the per-font
    padding corrections (FONT_DEFINITIONS) and the named colour themes
    (COLOR_PRESETS). Both are read-only after start-up. */
module Config {
  import opened Wrappers

  /** One entry of FONT_DEFINITIONS. */
  datatype FontProfile = FontProfile(
    fontPath: string,
    spacePaddingCount: int,
    dayNamePaddingPixels: int,
    singleDigitDatePaddingPixels: int)

  /** One entry of COLOR_PRESETS; colours are opaque names handed to the renderer. */
  datatype ColorPolicy = ColorPolicy(
    textDefault: string,
    textSaturday: string,
    textSunday: string,
    holidayColor: string)

  /** The keys of FONT_DEFINITIONS, listed independently of the table. */
  const FontNames: set<string> :=
    {"Noto Sans JP", "Murecho", "Kaisei Decol", "Mochiy Pop One", "Zen Kurenaido"}

  /** The keys of COLOR_PRESETS. */
  const PresetNames: set<string> := {"black", "white"}

  const FontDefinitions: map<string, FontProfile> := map[
    "Noto Sans JP"   := FontProfile("ttf/NotoSansJP-Regular.ttf", 2, 0, 0),
    "Murecho"        := FontProfile("ttf/Murecho-Regular.ttf", 2, 0, 0),
    "Kaisei Decol"   := FontProfile("ttf/KaiseiDecol-Regular.ttf", 1, 0, 0),
    "Mochiy Pop One" := FontProfile("ttf/MochiyPopOne-Regular.ttf", 2, 0, 0),
    "Zen Kurenaido"  := FontProfile("ttf/ZenKurenaido-Regular.ttf", 2, 6, 6)
  ]

  const ColorPresets: map<string, ColorPolicy> := map[
    "black" := ColorPolicy("black", "blue", "red", "red"),
    "white" := ColorPolicy("white", "lightblue", "pink", "pink")
  ]

  /** The shape every font path in the table has: a TrueType file under `ttf/`. */
  predicate IsBundledFontPath(p: string) {
    |p| > 16 && p[..4] == "ttf/" && p[|p| - 12..] == "-Regular.ttf"
  }

  /** The data invariant of a font profile in the shipped table. */
  predicate WellFormedProfile(f: FontProfile) {
    && IsBundledFontPath(f.fontPath)
    && 1 <= f.spacePaddingCount <= 2
    && 0 <= f.dayNamePaddingPixels
    && f.dayNamePaddingPixels == f.singleDigitDatePaddingPixels
  }

  /** The data invariant of a colour preset: weekends are marked off from
      ordinary days, and a holiday looks like a Sunday. */
  predicate WellFormedPolicy(c: ColorPolicy) {
    && c.textSaturday != c.textDefault
    && c.textSunday != c.textDefault
    && c.textSaturday != c.textSunday
    && c.holidayColor == c.textSunday
  }

  /** Every entry of FONT_DEFINITIONS satisfies the profile invariant, and
      only Zen Kurenaido carries a pixel correction. */
  lemma FontTableInvariant()
    ensures FontDefinitions.Keys == FontNames
    ensures forall name | name in FontDefinitions :: WellFormedProfile(FontDefinitions[name])
    ensures forall name | name in FontDefinitions ::
      FontDefinitions[name].dayNamePaddingPixels != 0 <==> name == "Zen Kurenaido"
  {
    BundledPath(FontDefinitions["Noto Sans JP"].fontPath);
    BundledPath(FontDefinitions["Murecho"].fontPath);
    BundledPath(FontDefinitions["Kaisei Decol"].fontPath);
    BundledPath(FontDefinitions["Mochiy Pop One"].fontPath);
    BundledPath(FontDefinitions["Zen Kurenaido"].fontPath);
  }

  /** The font paths of the table, one at a time. */
  lemma BundledPath(p: string)
    requires p in {"ttf/NotoSansJP-Regular.ttf", "ttf/Murecho-Regular.ttf", "ttf/KaiseiDecol-Regular.ttf",
                   "ttf/MochiyPopOne-Regular.ttf", "ttf/ZenKurenaido-Regular.ttf"}
    ensures IsBundledFontPath(p)
  {
    assert p[..4] == "ttf/";
    assert p[|p| - 12..] == "-Regular.ttf";
  }

  /** Every entry of COLOR_PRESETS satisfies the policy invariant and is
      named after its default text colour. */
  lemma PresetTableInvariant()
    ensures ColorPresets.Keys == PresetNames
    ensures forall name | name in ColorPresets ::
      WellFormedPolicy(ColorPresets[name]) && ColorPresets[name].textDefault == name
  {
  }

  /** FONT_DEFINITIONS[name], with a missing name (a KeyError in the
      source) as None. */
  function LookupFont(name: string): (r: Option<FontProfile>)
    ensures r.Some? <==> name in FontNames
    ensures r.Some? ==> WellFormedProfile(r.value)
    ensures r.Some? ==> (r.value.dayNamePaddingPixels != 0 <==> name == "Zen Kurenaido")
  {
    FontTableInvariant();
    if name in FontDefinitions then Some(FontDefinitions[name]) else None
  }

  /** COLOR_PRESETS[name], with a missing name as None. */
  function LookupPreset(name: string): (r: Option<ColorPolicy>)
    ensures r.Some? <==> name in PresetNames
    ensures r.Some? ==> WellFormedPolicy(r.value)
    ensures r.Some? ==> r.value.textDefault == name
  {
    PresetTableInvariant();
    if name in ColorPresets then Some(ColorPresets[name]) else None
  }
}
