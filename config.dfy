/**
 * The settings the converter and the builder read. Loading them from YAML is
 * outside this model; a `Settings` value is given whole. The section
 * exclusions, the link options and the unknown-macro option are read by the
 * converter although the settings file loader does not define them, so here
 * they are ordinary fields.
 */
module Config {

  datatype FilenameStyle = SlugifyNames | PreserveNames

  /** `content.links.internal_link_style`. */
  datatype LinkStyle = TitleOnly | Relative

  /** `content.links.missing_page_links`. */
  datatype MissingLinkMode = CommentMissing | StripMissing | PreserveMissing

  /** `content.unknown_macro_handling`. */
  datatype MacroMode = CommentMacro | StripMacro | PreserveMacroText

  datatype Settings = Settings(
    exportsDir: string,
    excludePages: seq<string>,
    excludeSections: seq<string>,
    includeFrontmatter: bool,
    frontmatterFields: seq<string>,
    filenameStyle: FilenameStyle,
    maxHeadingLevel: int,
    linkStyle: LinkStyle,
    missingLinks: MissingLinkMode,
    unknownMacros: MacroMode)

  /** The defaults: front matter with the title only, slugified names, headings up to level 6. */
  const DefaultSettings: Settings := Settings(
    "exports", [], [], true, ["title"], SlugifyNames, 6, Relative, CommentMissing, CommentMacro)

  /** The settings that enter the cache fingerprint, and only those. */
  datatype Fingerprint = Fingerprint(excludePages: seq<string>, includeFrontmatter: bool, filenameStyle: FilenameStyle)

  function FingerprintOf(s: Settings): (f: Fingerprint)
    ensures f.excludePages == s.excludePages
    ensures f.includeFrontmatter == s.includeFrontmatter
    ensures f.filenameStyle == s.filenameStyle
  {
    Fingerprint(s.excludePages, s.includeFrontmatter, s.filenameStyle)
  }

  /**
   * The settings hash stored in the build state; `digest` stands for the
   * first 16 hex digits of SHA-256 over the sorted-key JSON of the fingerprint.
   */
  function SettingsHash(digest: Fingerprint -> string, s: Settings): string {
    digest(FingerprintOf(s))
  }

  /**
   * Settings that differ only in what the fingerprint leaves out (section
   * exclusions, front matter fields, heading cap, link and macro handling,
   * output directory) have the same hash, so changing them alone does not
   * force a rebuild.
   */
  lemma HashIgnoresRenderSettings(digest: Fingerprint -> string, s: Settings, t: Settings)
    requires s.excludePages == t.excludePages
    requires s.includeFrontmatter == t.includeFrontmatter
    requires s.filenameStyle == t.filenameStyle
    ensures SettingsHash(digest, s) == SettingsHash(digest, t)
  {
  }
}
