/**
 * The font as the FEE compiler sees it, and the regular-expression engine it
 * calls.  Both are inputs: the compiler only queries them.
 */
module FontModel {
  import opened Wrappers

  /**
   * A font.  `glyphOrder` lists every glyph (also what `name in font` tests),
   * `exported` is `font.exportedGlyphs()` in font order, `cmap` is the partial
   * codepoint map behind `glyphForCodepoint(cp, fallback=False)`,
   * `categories` gives the category of the glyphs that have one, and
   * `metrics` stands for `get_glyph_metrics(font, glyph)`.
   */
  datatype Font = Font(
    glyphOrder: seq<string>,
    exported: seq<string>,
    cmap: map<nat, string>,
    categories: map<string, string>,
    metrics: string -> map<string, int>)
  {
    /** `name in font`. */
    predicate Contains(name: string)
    {
      name in glyphOrder
    }

    /** `glyphForCodepoint(cp, fallback=False)`: `None` when unmapped. */
    function GlyphForCodepoint(cp: nat): (r: Option<string>)
      ensures r.Some? <==> cp in cmap
      ensures r.Some? ==> r.value == cmap[cp]
    {
      if cp in cmap then Some(cmap[cp]) else None
    }
  }

  /**
   * The `re` module, uninterpreted: whether a pattern compiles, whether
   * `re.search(pattern, name)` finds a match, and `re.sub(pattern, repl, name)`.
   */
  datatype Regex = Regex(
    compiles: string -> bool,
    search: (string, string) -> bool,
    sub: (string, string, string) -> string)
}
