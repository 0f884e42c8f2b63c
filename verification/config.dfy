/** The defaulting done by `_loadConfig` (extension.js lines 12-29). Reading the
    file, decoding it and `JSON.parse` are not modelled; their outcome is a `Source`. */
module Config {
  import opened Wrappers

  const DefaultPadding: int := 8
  const DefaultKeybinding: string := "<Super>f"

  /** What reading and parsing `config.json` can produce. */
  datatype Source =
    | Unreadable      // `load_contents` reported failure or threw
    | Malformed       // `JSON.parse` threw
    | NullDocument    // the document is `null`, so reading a field of it throws
    | Document(padding: Option<int>, keybinding: Option<string>)

  /** The plugin's settings for one session. */
  datatype Settings = Settings(padding: int, keybinding: string)

  function Defaults(): (s: Settings)
    ensures s.padding == 8 && s.keybinding == "<Super>f"
  {
    Settings(DefaultPadding, DefaultKeybinding)
  }

  /** JavaScript `v || d` on a number: a missing field and `0` are falsy. */
  function NumberOr(v: Option<int>, d: int): (r: int)
    ensures v.Some? && v.value != 0 ==> r == v.value
    ensures v.None? || v.value == 0 ==> r == d
  {
    if v.Some? && v.value != 0 then v.value else d
  }

  /** JavaScript `v || d` on a string: a missing field and `""` are falsy. */
  function StringOr(v: Option<string>, d: string): (r: string)
    ensures v.Some? && v.value != "" ==> r == v.value
    ensures v.None? || v.value == "" ==> r == d
  {
    if v.Some? && v.value != "" then v.value else d
  }

  /** The settings `_loadConfig` leaves behind. */
  function LoadConfig(src: Source): (s: Settings)
    // any load or parse failure yields both defaults
    ensures !src.Document? ==> s == Defaults()
    // neither setting can end up falsy
    ensures s.padding != 0 && s.keybinding != ""
    // a field that is present and truthy is kept as written
    ensures src.Document? && src.padding.Some? && src.padding.value != 0 ==> s.padding == src.padding.value
    ensures src.Document? && src.keybinding.Some? && src.keybinding.value != "" ==> s.keybinding == src.keybinding.value
  {
    match src
    case Document(p, k) => Settings(NumberOr(p, DefaultPadding), StringOr(k, DefaultKeybinding))
    case _ => Defaults()
  }

  /** A document's padding falls back to the default exactly when the field is
      missing or zero; one that reads 8 gives the same value as the default. */
  lemma PaddingFallback(p: Option<int>, k: Option<string>)
    ensures LoadConfig(Document(p, k)).padding == DefaultPadding
        <==> (p == None || p == Some(0) || p == Some(DefaultPadding))
  {
  }

  /** A document's keybinding falls back to `<Super>f` exactly when the field is
      missing, empty, or already `<Super>f`. */
  lemma KeybindingFallback(p: Option<int>, k: Option<string>)
    ensures LoadConfig(Document(p, k)).keybinding == DefaultKeybinding
        <==> (k == None || k == Some("") || k == Some(DefaultKeybinding))
  {
  }
}
