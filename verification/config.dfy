/**
 * The plugin's two settings (the `search` section of the bot's configuration):
 * a free-form region string and a SafeSearch level chosen from three names.
 */
module Config {
  import opened Wrappers

  /** The SafeSearch levels, in the order the configuration lists them. */
  datatype SafeSearch = On | Moderate | Off

  const LEVELS: seq<SafeSearch> := [On, Moderate, Off]

  /** The configuration name of a level, which is also what the search provider receives. */
  function LevelName(level: SafeSearch): string
  {
    match level
    case On => "on"
    case Moderate => "moderate"
    case Off => "off"
  }

  /** The level a configured value names, if it is one of the three choices. */
  function ParseLevel(s: string): (r: Option<SafeSearch>)
    ensures r.Some? ==> LevelName(r.value) == s
    ensures r.None? ==> forall level :: LevelName(level) != s
  {
    if s == "on" then Some(On)
    else if s == "moderate" then Some(Moderate)
    else if s == "off" then Some(Off)
    else None
  }

  /** Every level's name reads back as that level, and the names are exactly the listed levels'. */
  lemma ParseLevelName(level: SafeSearch)
    ensures ParseLevel(LevelName(level)) == Some(level)
    ensures level in LEVELS
  {
  }

  datatype Settings = Settings(region: string, safesearch: SafeSearch)

  const DEFAULT_REGION: string := "us-en"
  const DEFAULT_SAFESEARCH: SafeSearch := Moderate
  const DEFAULTS: Settings := Settings(DEFAULT_REGION, DEFAULT_SAFESEARCH)
}
