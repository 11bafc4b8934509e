/**
 * Glyph selectors of the FEE language: the six kinds of reference to glyphs,
 * their rendering back to text, the suffix operations, and resolution to a
 * list of glyph names against a font and the named-class table.
 */
module GlyphSelectors {
  import opened Wrappers
  import opened Seqs
  import opened Text
  import opened FontModel
  import opened NamedClasses

  // ---------------------------------------------------------------------
  // Data

  /** A suffix operation: type `.` appends `.suffix`, any other type strips it. */
  datatype Suffix = Suffix(suffixtype: string, suffix: string)

  /** The one-key selector dictionary. */
  datatype Selector =
    | BareName(name: string)
    | ClassName(classname: string)            // without the leading `@`
    | RegexSel(pattern: string)               // without the slashes
    | UnicodeGlyph(codepoint: nat)
    | UnicodeRange(start: nat, stop: nat)     // Python `range(start, stop)`
    | InlineClass(items: seq<Selector>)

  /**
   * Where the selector was written: `None`, a `(line, column)` pair, or the
   * pair `(None, None)` of a token built without a position.
   */
  datatype Location = NoLocation | At(line: int, column: int) | Unpositioned

  datatype GlyphSelector = GlyphSelector(selector: Selector, suffixes: seq<Suffix>, location: Location)

  /** The exceptions `as_text` and `resolve` raise. */
  datatype ResolveError =
    | NoGlyphForCodepoint(codepoint: nat, location: Location)
    | UndefinedClass(classname: string, location: Location)
    | BadRegex(pattern: string, location: Location)
    | RangeNotRenderable                      // the TypeError of `as_text` on a range

  /** Resolved glyph names, and the warnings emitted on the way, in order. */
  datatype Resolution = Resolution(glyphs: seq<string>, warnings: seq<string>)

  const NoGlyphs := Resolution([], [])

  /** Python `"%s" % location`. */
  function LocationText(loc: Location): string
  {
    match loc
    case NoLocation => "None"
    case At(line, column) => "(" + IntToDecimal(line) + ", " + IntToDecimal(column) + ")"
    case Unpositioned => "(None, None)"
  }

  /** The text each exception carries. */
  function ErrorMessage(e: ResolveError): string
  {
    match e
    case NoGlyphForCodepoint(cp, loc) =>
      "Font does not contain glyph for U+" + Hex4(cp) + " (at " + LocationText(loc) + ")"
    case UndefinedClass(c, loc) =>
      "Tried to expand glyph class '@" + c + "' but @" + c + " was not defined (at " + LocationText(loc) + ")"
    case BadRegex(p, loc) =>
      "Couldn't parse regular expression '" + p + "' at " + LocationText(loc)
    case RangeNotRenderable =>
      "not enough arguments for format string"
  }

  // ---------------------------------------------------------------------
  // as_text

  /** The selector part of `as_text`; the range branch raises. */
  function SelectorText(s: Selector): Result<string, ResolveError>
    decreases s, 1
  {
    match s
    case BareName(n) => Ok(n)
    case ClassName(c) => Ok("@" + c)
    case RegexSel(p) => Ok("/" + p + "/")
    case UnicodeGlyph(cp) => Ok("U+" + Hex4(cp))
    case UnicodeRange(_, _) => Err(RangeNotRenderable)
    case InlineClass(items) =>
      var texts :- ItemTexts(s, 0);
      Ok("[" + Join(" ", texts) + "]")
  }

  /** The texts of the members `i..` of an inline class, left to right. */
  function ItemTexts(s: Selector, i: nat): Result<seq<string>, ResolveError>
    requires s.InlineClass? && i <= |s.items|
    decreases s, 0, |s.items| - i
  {
    if i == |s.items| then Ok([])
    else
      var t :- SelectorText(s.items[i]);
      var rest :- ItemTexts(s, i + 1);
      Ok([t] + rest)
  }

  function SuffixText(suffixes: seq<Suffix>): string
  {
    if suffixes == [] then ""
    else suffixes[0].suffixtype + suffixes[0].suffix + SuffixText(suffixes[1..])
  }

  /** `GlyphSelector.as_text`. */
  function AsText(sel: GlyphSelector): Result<string, ResolveError>
  {
    var base :- SelectorText(sel.selector);
    Ok(base + SuffixText(sel.suffixes))
  }

  /** A range occurs somewhere in the selector. */
  predicate HasRange(s: Selector)
  {
    match s
    case UnicodeRange(_, _) => true
    case InlineClass(items) => exists i :: 0 <= i < |items| && HasRange(items[i])
    case _ => false
  }

  /** `as_text` fails exactly on selectors containing a range. */
  lemma {:induction false} SelectorTextFails(s: Selector)
    ensures SelectorText(s).Err? <==> HasRange(s)
    decreases s, 1
  {
    if s.InlineClass? {
      ItemTextsFail(s, 0);
    }
  }

  lemma {:induction false} ItemTextsFail(s: Selector, i: nat)
    requires s.InlineClass? && i <= |s.items|
    ensures ItemTexts(s, i).Err? <==> exists j :: i <= j < |s.items| && HasRange(s.items[j])
    decreases s, 0, |s.items| - i
  {
    if i < |s.items| {
      SelectorTextFails(s.items[i]);
      ItemTextsFail(s, i + 1);
    }
  }

  // ---------------------------------------------------------------------
  // Suffixes

  /** `_apply_suffix`. */
  function ApplySuffix(name: string, s: Suffix): string
  {
    if s.suffixtype == "." then name + "." + s.suffix
    else if EndsWith(name, "." + s.suffix) then name[..|name| - (|s.suffix| + 1)]
    else name
  }

  /**
   * A `.` suffix appends `"." + suffix`; any other type removes a trailing
   * `"." + suffix` when there is one and leaves the name alone otherwise.
   */
  lemma {:induction false} ApplySuffixEffect(name: string, s: Suffix)
    ensures s.suffixtype == "." ==> ApplySuffix(name, s) == name + "." + s.suffix
    ensures s.suffixtype != "." && EndsWith(name, "." + s.suffix) ==>
      ApplySuffix(name, s) + "." + s.suffix == name
    ensures s.suffixtype != "." && !EndsWith(name, "." + s.suffix) ==>
      ApplySuffix(name, s) == name
  {
    if s.suffixtype != "." && EndsWith(name, "." + s.suffix) {
      var k := |name| - (|s.suffix| + 1);
      assert name == name[..k] + name[k..];
    }
  }

  /** Stripping a suffix undoes appending it. */
  lemma {:induction false} StripUndoesAppend(name: string, suffix: string, striptype: string)
    requires striptype != "."
    ensures ApplySuffix(ApplySuffix(name, Suffix(".", suffix)), Suffix(striptype, suffix)) == name
  {
    var appended := name + "." + suffix;
    assert appended[|appended| - |"." + suffix|..] == "." + suffix;
    assert appended[..|appended| - (|suffix| + 1)] == name;
  }

  /** A name after every suffix operation in turn. */
  function ApplySuffixes(name: string, suffixes: seq<Suffix>): string
    decreases suffixes
  {
    if suffixes == [] then name
    else ApplySuffixes(ApplySuffix(name, suffixes[0]), suffixes[1..])
  }

  /** Every name after all suffix operations: one output per input, in order. */
  function SuffixAll(names: seq<string>, suffixes: seq<Suffix>): (r: seq<string>)
    ensures |r| == |names|
  {
    seq(|names|, i requires 0 <= i < |names| => ApplySuffixes(names[i], suffixes))
  }

  /** `[self._apply_suffix(g, s) for g in returned]`. */
  function MapSuffix(names: seq<string>, s: Suffix): (r: seq<string>)
    ensures |r| == |names|
  {
    seq(|names|, i requires 0 <= i < |names| => ApplySuffix(names[i], s))
  }

  lemma {:induction false} ApplySuffixesSnoc(name: string, suffixes: seq<Suffix>, s: Suffix)
    ensures ApplySuffixes(name, suffixes + [s]) == ApplySuffix(ApplySuffixes(name, suffixes), s)
    decreases suffixes
  {
    if suffixes != [] {
      assert (suffixes + [s])[1..] == suffixes[1..] + [s];
      ApplySuffixesSnoc(ApplySuffix(name, suffixes[0]), suffixes[1..], s);
    }
  }

  /**
   * Applying the suffix operations one after another to the whole list
   * (what the loop in `resolve` does) is applying all of them to each name.
   */
  lemma SuffixAllSnoc(names: seq<string>, suffixes: seq<Suffix>, s: Suffix)
    ensures SuffixAll(names, suffixes + [s]) == MapSuffix(SuffixAll(names, suffixes), s)
  {
    forall i | 0 <= i < |names|
      ensures SuffixAll(names, suffixes + [s])[i] == MapSuffix(SuffixAll(names, suffixes), s)[i]
    {
      ApplySuffixesSnoc(names[i], suffixes, s);
    }
  }

  lemma SuffixAllNone(names: seq<string>)
    ensures SuffixAll(names, []) == names
  {
  }

  // ---------------------------------------------------------------------
  // The existence filter

  function IsExported(exported: seq<string>): string -> bool
  {
    x => x in exported
  }

  function IsMissing(exported: seq<string>): string -> bool
  {
    x => x !in exported
  }

  /** The names the font exports, order kept. */
  function Exported(names: seq<string>, exported: seq<string>): seq<string>
  {
    Filter(names, IsExported(exported))
  }

  /** The names the font does not export, order kept. */
  function Missing(names: seq<string>, exported: seq<string>): seq<string>
  {
    Filter(names, IsMissing(exported))
  }

  lemma SingletonFilters(g: string, exported: seq<string>)
    ensures Missing([g], exported) == if g in exported then [] else [g]
    ensures Exported([g], exported) == if g in exported then [g] else []
  {
    assert [g][1..] == [];
  }

  /** The warning text for names missing from the font. */
  function MissingWarning(notFound: seq<string>, text: string, loc: Location): string
  {
    "# Couldn't find glyph" + (if |notFound| > 1 then "s" else "") + " '" + Join(", ", notFound)
      + "' in font (" + text + " at " + LocationText(loc) + ")"
  }

  /** The `mustExist` step; the warning renders the selector with `as_text`. */
  function ExistenceFilter(sel: GlyphSelector, names: seq<string>, font: Font): Result<Resolution, ResolveError>
  {
    var notFound := Missing(names, font.exported);
    if |notFound| > 0 then
      var text :- AsText(sel);
      Ok(Resolution(Exported(names, font.exported), [MissingWarning(notFound, text, sel.location)]))
    else
      Ok(Resolution(Exported(names, font.exported), []))
  }

  // ---------------------------------------------------------------------
  // resolve

  /** Appends a resolution in front of a later one, passing errors through. */
  function Then(first: Resolution, rest: Result<Resolution, ResolveError>): Result<Resolution, ResolveError>
  {
    match rest
    case Err(e) => Err(e)
    case Ok(r) => Ok(Resolution(first.glyphs + r.glyphs, first.warnings + r.warnings))
  }

  /** The mapped glyph of a codepoint; an unmapped or empty one raises. */
  function CodepointGlyph(cp: nat, loc: Location, font: Font): Result<string, ResolveError>
  {
    match font.GlyphForCodepoint(cp)
    case None => Err(NoGlyphForCodepoint(cp, loc))
    case Some(g) => if g == "" then Err(NoGlyphForCodepoint(cp, loc)) else Ok(g)
  }

  /** The exported glyphs a compiled pattern finds a match in, in font order. */
  function Matching(exported: seq<string>, pattern: string, re: Regex): seq<string>
  {
    Filter(exported, Matches(pattern, re))
  }

  function Matches(pattern: string, re: Regex): string -> bool
  {
    g => re.search(pattern, g)
  }

  /** `GlyphSelector({"unicodeglyph": cp}, (), loc).resolve(...)`. */
  function CodepointResolution(cp: nat, loc: Location, font: Font): Result<Resolution, ResolveError>
  {
    var g :- CodepointGlyph(cp, loc, font);
    ExistenceFilter(GlyphSelector(UnicodeGlyph(cp), [], loc), [g], font)
  }

  /** `CodepointResolution` at each codepoint. */
  function CodepointOf(loc: Location, font: Font): nat -> Result<Resolution, ResolveError>
  {
    (cp: nat) => CodepointResolution(cp, loc, font)
  }

  /** The codepoints `cp..stop`, each resolved by `one`, concatenated; the first failure stops it. */
  function RangeOf(cp: nat, stop: nat, one: nat -> Result<Resolution, ResolveError>): Result<Resolution, ResolveError>
    decreases stop - cp
  {
    if stop <= cp then Ok(NoGlyphs)
    else
      var first :- one(cp);
      Then(first, RangeOf(cp + 1, stop, one))
  }

  /** The codepoints `cp..stop` of a range, each resolved, concatenated. */
  function RangeNames(cp: nat, stop: nat, loc: Location, font: Font): Result<Resolution, ResolveError>
  {
    RangeOf(cp, stop, CodepointOf(loc, font))
  }

  /** The names a selector stands for before suffixes and the existence filter. */
  function BaseNames(s: Selector, loc: Location, classes: ClassTable, font: Font, re: Regex)
    : Result<Resolution, ResolveError>
    decreases s, 1
  {
    match s
    case BareName(n) => Ok(Resolution([n], []))
    case UnicodeGlyph(cp) =>
      var g :- CodepointGlyph(cp, loc, font);
      Ok(Resolution([g], []))
    case UnicodeRange(start, stop) => RangeNames(start, stop, loc, font)
    case InlineClass(_) => ItemNames(s, 0, loc, classes, font, re)
    case ClassName(c) =>
      if c in classes.entries then Ok(Resolution(classes.entries[c].items, []))
      else Err(UndefinedClass(c, loc))
    case RegexSel(p) =>
      if re.compiles(p) then Ok(Resolution(Matching(font.exported, p, re), []))
      else Err(BadRegex(p, loc))
  }

  /** The members `i..` of an inline class, each resolved, concatenated. */
  function ItemNames(s: Selector, i: nat, loc: Location, classes: ClassTable, font: Font, re: Regex)
    : Result<Resolution, ResolveError>
    requires s.InlineClass? && i <= |s.items|
    decreases s, 0, |s.items| - i
  {
    if i == |s.items| then Ok(NoGlyphs)
    else
      var first :- ItemResolution(s, i, loc, classes, font, re);
      Then(first, ItemNames(s, i + 1, loc, classes, font, re))
  }

  /** Member `k` of an inline class, resolved on its own with the existence filter at the class's location. */
  function ItemResolution(s: Selector, k: nat, loc: Location, classes: ClassTable, font: Font, re: Regex)
    : Result<Resolution, ResolveError>
    requires s.InlineClass? && k < |s.items|
    decreases s, 0, 0
  {
    Resolve(GlyphSelector(s.items[k], [], loc), classes, font, re, true)
  }

  /** `GlyphSelector.resolve(fontfeatures, font, mustExist)`. */
  function Resolve(sel: GlyphSelector, classes: ClassTable, font: Font, re: Regex, mustExist: bool)
    : Result<Resolution, ResolveError>
    decreases sel.selector, 2
  {
    var base :- BaseNames(sel.selector, sel.location, classes, font, re);
    var named := SuffixAll(base.glyphs, sel.suffixes);
    if mustExist then
      var kept :- ExistenceFilter(sel, named, font);
      Ok(Resolution(kept.glyphs, base.warnings + kept.warnings))
    else
      Ok(Resolution(named, base.warnings))
  }

  // ---------------------------------------------------------------------
  // Properties of resolve

  /**
   * Suffixes are applied to the base resolution, to every name, in the
   * declared order, keeping the number and order of names.
   */
  lemma ResolveAppliesSuffixes(sel: GlyphSelector, classes: ClassTable, font: Font, re: Regex)
    ensures var plain := Resolve(sel.(suffixes := []), classes, font, re, false);
      var full := Resolve(sel, classes, font, re, false);
      plain.Ok? <==> full.Ok?
    ensures var plain := Resolve(sel.(suffixes := []), classes, font, re, false);
      var full := Resolve(sel, classes, font, re, false);
      plain.Ok? ==>
        && full.value.warnings == plain.value.warnings
        && |full.value.glyphs| == |plain.value.glyphs|
        && forall i :: 0 <= i < |full.value.glyphs| ==>
             full.value.glyphs[i] == ApplySuffixes(plain.value.glyphs[i], sel.suffixes)
  {
    var base := BaseNames(sel.selector, sel.location, classes, font, re);
    if base.Ok? {
      SuffixAllNone(base.value.glyphs);
    }
  }

  /**
   * With `mustExist`, the result is the subsequence of the unfiltered names
   * that the font exports, and exactly one warning is added, if and only if
   * some name was dropped.  The filter only fails when a name is missing and
   * the selector cannot be rendered.
   */
  lemma ResolveMustExist(sel: GlyphSelector, classes: ClassTable, font: Font, re: Regex)
    requires Resolve(sel, classes, font, re, false).Ok?
    ensures var all := Resolve(sel, classes, font, re, false).value;
      Resolve(sel, classes, font, re, true).Err? <==>
        (exists n :: n in all.glyphs && n !in font.exported) && HasRange(sel.selector)
    ensures var all := Resolve(sel, classes, font, re, false).value;
      var r := Resolve(sel, classes, font, re, true);
      r.Ok? ==>
        && r.value.glyphs == Exported(all.glyphs, font.exported)
        && IsSubsequence(r.value.glyphs, all.glyphs)
        && (forall g :: g in r.value.glyphs <==> g in all.glyphs && g in font.exported)
        && r.value.warnings[..|all.warnings|] == all.warnings
        && (|r.value.warnings| == |all.warnings| + 1 <==> |r.value.glyphs| < |all.glyphs|)
        && (|r.value.warnings| == |all.warnings| <==> |r.value.glyphs| == |all.glyphs|)
  {
    var all := Resolve(sel, classes, font, re, false).value;
    var base := BaseNames(sel.selector, sel.location, classes, font, re).value;
    var named := SuffixAll(base.glyphs, sel.suffixes);
    assert all == Resolution(named, base.warnings);
    var notFound := Missing(named, font.exported);
    FilterIsSubsequence(named, IsExported(font.exported));
    FilterSplitsLength(named, IsExported(font.exported), IsMissing(font.exported));
    SelectorTextFails(sel.selector);
    if |notFound| > 0 {
      assert notFound[0] in notFound;
    }
  }

  /** A bare name is the singleton of itself before the existence filter. */
  lemma BareNameResolution(n: string, loc: Location, classes: ClassTable, font: Font, re: Regex)
    ensures Resolve(GlyphSelector(BareName(n), [], loc), classes, font, re, false) == Ok(Resolution([n], []))
    ensures Resolve(GlyphSelector(BareName(n), [], loc), classes, font, re, true).Ok?
    ensures Resolve(GlyphSelector(BareName(n), [], loc), classes, font, re, true).value.glyphs
      == if n in font.exported then [n] else []
  {
    SuffixAllNone([n]);
  }

  lemma ExportedBareName(n: string, loc: Location, classes: ClassTable, font: Font, re: Regex)
    requires n in font.exported
    ensures Resolve(GlyphSelector(BareName(n), [], loc), classes, font, re, true) == Ok(Resolution([n], []))
  {
    var sel := GlyphSelector(BareName(n), [], loc);
    assert BaseNames(sel.selector, loc, classes, font, re) == Ok(Resolution([n], []));
    SuffixAllNone([n]);
    SingletonFilters(n, font.exported);
    assert ExistenceFilter(sel, [n], font) == Ok(Resolution([n], []));
    var none: seq<string> := [];
    assert none + none == none;
  }

  /** A class name is looked up in the table, or raises naming class and place. */
  lemma ClassNameResolution(c: string, loc: Location, classes: ClassTable, font: Font, re: Regex)
    ensures c in classes.entries ==>
      Resolve(GlyphSelector(ClassName(c), [], loc), classes, font, re, false)
        == Ok(Resolution(classes.entries[c].items, []))
    ensures c !in classes.entries ==>
      Resolve(GlyphSelector(ClassName(c), [], loc), classes, font, re, false) == Err(UndefinedClass(c, loc))
  {
    if c in classes.entries {
      SuffixAllNone(classes.entries[c].items);
    }
  }

  /** A codepoint without a (non-empty) glyph raises, whatever follows. */
  lemma UnicodeGlyphResolution(cp: nat, sel: GlyphSelector, classes: ClassTable, font: Font, re: Regex, mustExist: bool)
    requires sel.selector == UnicodeGlyph(cp)
    ensures (cp !in font.cmap || font.cmap[cp] == "") <==>
      Resolve(sel, classes, font, re, mustExist) == Err(NoGlyphForCodepoint(cp, sel.location))
    ensures cp in font.cmap && font.cmap[cp] != "" ==>
      Resolve(sel, classes, font, re, false) == Ok(Resolution(SuffixAll([font.cmap[cp]], sel.suffixes), []))
  {
  }

  /**
   * A pattern that compiles selects the exported glyphs it matches, in font
   * order; one that does not compile raises.
   */
  lemma RegexResolution(p: string, loc: Location, classes: ClassTable, font: Font, re: Regex)
    ensures !re.compiles(p) ==>
      Resolve(GlyphSelector(RegexSel(p), [], loc), classes, font, re, false) == Err(BadRegex(p, loc))
    ensures re.compiles(p) ==>
      var r := Resolve(GlyphSelector(RegexSel(p), [], loc), classes, font, re, false);
      && r.Ok?
      && IsSubsequence(r.value.glyphs, font.exported)
      && forall g :: g in r.value.glyphs <==> g in font.exported && re.search(p, g)
  {
    if re.compiles(p) {
      var m := Matching(font.exported, p, re);
      SuffixAllNone(m);
      FilterIsSubsequence(font.exported, Matches(p, re));
    }
  }

  /** One codepoint of a range resolves as a `U+` selector of its own would. */
  lemma CodepointResolutionIsResolve(cp: nat, loc: Location, classes: ClassTable, font: Font, re: Regex)
    ensures CodepointResolution(cp, loc, font)
      == Resolve(GlyphSelector(UnicodeGlyph(cp), [], loc), classes, font, re, true)
  {
    var g := CodepointGlyph(cp, loc, font);
    if g.Ok? {
      SuffixAllNone([g.value]);
      var f := ExistenceFilter(GlyphSelector(UnicodeGlyph(cp), [], loc), [g.value], font);
      if f.Ok? {
        assert [] + f.value.warnings == f.value.warnings;
      }
    }
  }

  /** The glyphs mapped to the codepoints `cp..stop`, in ascending order. */
  function MappedRange(cp: nat, stop: nat, font: Font): (r: seq<string>)
    requires forall c :: cp <= c < stop ==> c in font.cmap
    ensures cp <= stop ==> |r| == stop - cp
    ensures forall i :: 0 <= i < |r| ==> cp + i < stop && r[i] == font.cmap[cp + i]
    decreases stop - cp
  {
    if stop <= cp then [] else [font.cmap[cp]] + MappedRange(cp + 1, stop, font)
  }

  /**
   * When every codepoint of a range maps to an exported glyph, the range
   * resolves to those glyphs in ascending codepoint order, with no warning.
   */
  lemma {:induction false} RangeResolution(cp: nat, stop: nat, loc: Location, font: Font)
    requires forall c :: cp <= c < stop ==> c in font.cmap && font.cmap[c] != "" && font.cmap[c] in font.exported
    ensures RangeNames(cp, stop, loc, font) == Ok(Resolution(MappedRange(cp, stop, font), []))
    decreases stop - cp
  {
    if cp < stop {
      RangeResolution(cp + 1, stop, loc, font);
      assert RangeNames(cp + 1, stop, loc, font) == RangeOf(cp + 1, stop, CodepointOf(loc, font));
      var g := font.cmap[cp];
      assert CodepointResolution(cp, loc, font) == Ok(Resolution([g], [])) by {
        SingletonFilters(g, font.exported);
      }
      var none: seq<string> := [];
      assert none + none == none;
    }
  }

  /** Bare names written in an inline class, as selectors. */
  function BareNames(names: seq<string>): (r: seq<Selector>)
    ensures |r| == |names|
  {
    seq(|names|, i requires 0 <= i < |names| => BareName(names[i]))
  }

  /**
   * An inline class of exported bare names resolves to exactly those names,
   * in the order written, duplicates included.
   */
  lemma InlineClassResolution(names: seq<string>, loc: Location, classes: ClassTable, font: Font, re: Regex)
    requires forall n :: n in names ==> n in font.exported
    ensures Resolve(GlyphSelector(InlineClass(BareNames(names)), [], loc), classes, font, re, false)
      == Ok(Resolution(names, []))
  {
    var s := InlineClass(BareNames(names));
    InlineItemsResolution(names, s, 0, loc, classes, font, re);
    SuffixAllNone(names);
  }

  lemma {:induction false} InlineItemsResolution(names: seq<string>, s: Selector, i: nat, loc: Location,
                                                 classes: ClassTable, font: Font, re: Regex)
    requires forall n :: n in names ==> n in font.exported
    requires s == InlineClass(BareNames(names)) && i <= |names|
    ensures ItemNames(s, i, loc, classes, font, re) == Ok(Resolution(names[i..], []))
    decreases |names| - i
  {
    if i < |names| {
      InlineItemsResolution(names, s, i + 1, loc, classes, font, re);
      var n := names[i];
      assert n in names;
      assert s.items[i] == BareName(n);
      ItemNamesStep(s, i, n, names[i + 1..], loc, classes, font, re);
      SliceHead(names, i);
    } else {
      assert names[i..] == [];
    }
  }

  /** Member `k` of an inline class for `k` below its length, and nothing past it. */
  function ItemsOf(s: Selector, loc: Location, classes: ClassTable, font: Font, re: Regex)
    : nat -> Result<Resolution, ResolveError>
    requires s.InlineClass?
  {
    (k: nat) => if k < |s.items| then ItemResolution(s, k, loc, classes, font, re) else Ok(NoGlyphs)
  }

  /** The glyphs `one` gives at `cp..stop`, one list per position; a failure contributes none. */
  function GlyphListsOf(cp: nat, stop: nat, one: nat -> Result<Resolution, ResolveError>): seq<seq<string>>
    requires cp <= stop
  {
    seq(stop - cp, k requires 0 <= k < stop - cp => if one(cp + k).Ok? then one(cp + k).value.glyphs else [])
  }

  /** The warnings `one` gives at `cp..stop`, one list per position; a failure contributes none. */
  function WarningListsOf(cp: nat, stop: nat, one: nat -> Result<Resolution, ResolveError>): seq<seq<string>>
    requires cp <= stop
  {
    seq(stop - cp, k requires 0 <= k < stop - cp => if one(cp + k).Ok? then one(cp + k).value.warnings else [])
  }

  /**
   * `RangeOf` succeeds exactly when every position does, joins the
   * positions' glyphs and warnings in order, and otherwise fails with the
   * error of the first position that fails.
   */
  lemma RangeOfMeaning(cp: nat, stop: nat, one: nat -> Result<Resolution, ResolveError>)
    requires cp <= stop
    ensures var r := RangeOf(cp, stop, one);
      && (r.Ok? <==> forall k :: cp <= k < stop ==> one(k).Ok?)
      && (r.Ok? ==> (&& r.value.glyphs == Flatten(GlyphListsOf(cp, stop, one))
                     && r.value.warnings == Flatten(WarningListsOf(cp, stop, one))))
      && (r.Err? ==> exists k :: cp <= k < stop && (forall j :: cp <= j < k ==> one(j).Ok?) && one(k) == Err(r.error))
  {
    RangeOfSucceeds(cp, stop, one);
    RangeOfJoins(cp, stop, one);
    RangeOfFails(cp, stop, one);
  }

  lemma {:induction false} RangeOfSucceeds(cp: nat, stop: nat, one: nat -> Result<Resolution, ResolveError>)
    requires cp <= stop
    ensures RangeOf(cp, stop, one).Ok? <==> forall k :: cp <= k < stop ==> one(k).Ok?
    decreases stop - cp
  {
    if cp < stop {
      RangeOfSucceeds(cp + 1, stop, one);
    }
  }

  lemma {:induction false} RangeOfJoins(cp: nat, stop: nat, one: nat -> Result<Resolution, ResolveError>)
    requires cp <= stop
    ensures var r := RangeOf(cp, stop, one);
      r.Ok? ==> (&& r.value.glyphs == Flatten(GlyphListsOf(cp, stop, one))
                 && r.value.warnings == Flatten(WarningListsOf(cp, stop, one)))
    decreases stop - cp
  {
    var gs := GlyphListsOf(cp, stop, one);
    var ws := WarningListsOf(cp, stop, one);
    if cp < stop {
      RangeOfJoins(cp + 1, stop, one);
      assert gs[1..] == GlyphListsOf(cp + 1, stop, one);
      assert ws[1..] == WarningListsOf(cp + 1, stop, one);
    } else {
      assert gs == [] && ws == [];
    }
  }

  lemma {:induction false} RangeOfFails(cp: nat, stop: nat, one: nat -> Result<Resolution, ResolveError>)
    requires cp <= stop
    ensures var r := RangeOf(cp, stop, one);
      r.Err? ==> exists k :: cp <= k < stop && (forall j :: cp <= j < k ==> one(j).Ok?) && one(k) == Err(r.error)
    decreases stop - cp
  {
    if cp < stop {
      RangeOfFails(cp + 1, stop, one);
    }
  }

  /** One step of `ItemNames`, in terms of the member's own resolution. */
  lemma ItemNamesUnfold(s: Selector, i: nat, loc: Location, classes: ClassTable, font: Font, re: Regex)
    requires s.InlineClass? && i < |s.items|
    ensures var first := ItemResolution(s, i, loc, classes, font, re);
      ItemNames(s, i, loc, classes, font, re)
        == if first.Err? then Err(first.error) else Then(first.value, ItemNames(s, i + 1, loc, classes, font, re))
  {
  }

  /** `ItemsOf` at a member's position is that member's resolution. */
  lemma ItemsOfAt(s: Selector, k: nat, loc: Location, classes: ClassTable, font: Font, re: Regex)
    requires s.InlineClass? && k < |s.items|
    ensures ItemsOf(s, loc, classes, font, re)(k) == ItemResolution(s, k, loc, classes, font, re)
  {
  }

  /** One step of `RangeOf`. */
  lemma RangeOfUnfold(cp: nat, stop: nat, one: nat -> Result<Resolution, ResolveError>)
    requires cp < stop
    ensures RangeOf(cp, stop, one)
      == if one(cp).Err? then Err(one(cp).error) else Then(one(cp).value, RangeOf(cp + 1, stop, one))
  {
  }

  /** The inline-class loop is the generic position loop over its members. */
  lemma {:induction false} ItemNamesIsRangeOf(s: Selector, i: nat, loc: Location, classes: ClassTable, font: Font, re: Regex)
    requires s.InlineClass? && i <= |s.items|
    ensures ItemNames(s, i, loc, classes, font, re) == RangeOf(i, |s.items|, ItemsOf(s, loc, classes, font, re))
    decreases |s.items| - i
  {
    if i < |s.items| {
      ItemNamesIsRangeOf(s, i + 1, loc, classes, font, re);
      var one := ItemsOf(s, loc, classes, font, re);
      ItemsOfAt(s, i, loc, classes, font, re);
      ItemNamesUnfold(s, i, loc, classes, font, re);
      RangeOfUnfold(i, |s.items|, one);
    }
  }

  /**
   * An inline class resolves each member on its own: it succeeds exactly
   * when every member does, its glyphs and its warnings are the members'
   * glyphs and warnings joined in the order written, and a failure is the
   * error of the first member that fails.
   */
  lemma InlineClassMeaning(items: seq<Selector>, loc: Location, classes: ClassTable, font: Font, re: Regex)
    ensures var s := InlineClass(items);
      var r := BaseNames(s, loc, classes, font, re);
      var member := ItemsOf(s, loc, classes, font, re);
      && (forall k :: 0 <= k < |items| ==> member(k) == Resolve(GlyphSelector(items[k], [], loc), classes, font, re, true))
      && (r.Ok? <==> forall k :: 0 <= k < |items| ==> member(k).Ok?)
      && (r.Ok? ==> (&& r.value.glyphs == Flatten(GlyphListsOf(0, |items|, member))
                     && r.value.warnings == Flatten(WarningListsOf(0, |items|, member))))
      && (r.Err? ==> exists k :: 0 <= k < |items| && (forall j :: 0 <= j < k ==> member(j).Ok?) && member(k) == Err(r.error))
  {
    var s := InlineClass(items);
    ItemNamesIsRangeOf(s, 0, loc, classes, font, re);
    RangeOfMeaning(0, |items|, ItemsOf(s, loc, classes, font, re));
  }

  /** An exported bare name at position `i` contributes just itself. */
  lemma ItemNamesStep(s: Selector, i: nat, n: string, after: seq<string>, loc: Location,
                      classes: ClassTable, font: Font, re: Regex)
    requires s.InlineClass? && i < |s.items| && s.items[i] == BareName(n) && n in font.exported
    requires ItemNames(s, i + 1, loc, classes, font, re) == Ok(Resolution(after, []))
    ensures ItemNames(s, i, loc, classes, font, re) == Ok(Resolution([n] + after, []))
  {
    ExportedBareName(n, loc, classes, font, re);
    assert ItemNames(s, i, loc, classes, font, re)
      == Then(Resolution([n], []), ItemNames(s, i + 1, loc, classes, font, re));
    var none: seq<string> := [];
    assert none + none == none;
  }

  // ---------------------------------------------------------------------
  // The imperative resolver

  /** `GlyphSelector.resolve`, step by step. */
  method ResolveSelector(sel: GlyphSelector, classes: ClassTable, font: Font, re: Regex, mustExist: bool)
    returns (r: Result<Resolution, ResolveError>)
    ensures r == Resolve(sel, classes, font, re, mustExist)
    decreases sel.selector, 2
  {
    var base := ResolveBase(sel.selector, sel.location, classes, font, re);
    if base.Err? {
      return Err(base.error);
    }
    var returned := base.value.glyphs;
    var warnings := base.value.warnings;
    var k := 0;
    while k < |sel.suffixes|
      invariant 0 <= k <= |sel.suffixes|
      invariant returned == SuffixAll(base.value.glyphs, sel.suffixes[..k])
    {
      SuffixAllSnoc(base.value.glyphs, sel.suffixes[..k], sel.suffixes[k]);
      assert sel.suffixes[..k + 1] == sel.suffixes[..k] + [sel.suffixes[k]];
      returned := MapSuffix(returned, sel.suffixes[k]);
      k := k + 1;
    }
    assert sel.suffixes[..k] == sel.suffixes;
    if mustExist {
      var notFound := Missing(returned, font.exported);
      var found := Exported(returned, font.exported);
      if |notFound| > 0 {
        var text := AsText(sel);
        if text.Err? {
          return Err(text.error);
        }
        warnings := warnings + [MissingWarning(notFound, text.value, sel.location)];
      } else {
        assert warnings + [] == warnings;
      }
      returned := found;
    }
    r := Ok(Resolution(returned, warnings));
  }

  /** The branch on the selector kind at the top of `resolve`. */
  method ResolveBase(s: Selector, loc: Location, classes: ClassTable, font: Font, re: Regex)
    returns (r: Result<Resolution, ResolveError>)
    ensures r == BaseNames(s, loc, classes, font, re)
    decreases s, 1
  {
    match s {
      case BareName(n) =>
        r := Ok(Resolution([n], []));
      case UnicodeGlyph(cp) =>
        var glyph := font.GlyphForCodepoint(cp);
        if glyph.None? || glyph.value == "" {
          return Err(NoGlyphForCodepoint(cp, loc));
        }
        r := Ok(Resolution([glyph.value], []));
      case UnicodeRange(start, stop) =>
        r := ResolveRange(start, stop, loc, font);
      case InlineClass(items) =>
        r := ResolveInline(items, loc, classes, font, re);
      case ClassName(c) =>
        if c !in classes.entries {
          return Err(UndefinedClass(c, loc));
        }
        r := Ok(Resolution(classes.entries[c].items, []));
      case RegexSel(p) =>
        if !re.compiles(p) {
          return Err(BadRegex(p, loc));
        }
        r := Ok(Resolution(Matching(font.exported, p, re), []));
    }
  }

  /** The inline-class loop of `resolve`: each member selector in turn, with the existence filter. */
  method ResolveInline(items: seq<Selector>, loc: Location, classes: ClassTable, font: Font, re: Regex)
    returns (r: Result<Resolution, ResolveError>)
    ensures r == BaseNames(InlineClass(items), loc, classes, font, re)
    decreases InlineClass(items), 0
  {
    ghost var s := InlineClass(items);
    var returned: seq<string> := [];
    var warnings: seq<string> := [];
    var i := 0;
    ThenNothing(ItemNames(s, 0, loc, classes, font, re));
    while i < |items|
      invariant 0 <= i <= |items|
      invariant ItemNames(s, 0, loc, classes, font, re)
        == Then(Resolution(returned, warnings), ItemNames(s, i, loc, classes, font, re))
    {
      var one := ResolveSelector(GlyphSelector(items[i], [], loc), classes, font, re, true);
      if one.Err? {
        return Err(one.error);
      }
      ThenAssociative(Resolution(returned, warnings), one.value, ItemNames(s, i + 1, loc, classes, font, re));
      returned := returned + one.value.glyphs;
      warnings := warnings + one.value.warnings;
      i := i + 1;
    }
    assert returned + [] == returned && warnings + [] == warnings;
    r := Ok(Resolution(returned, warnings));
  }

  /** The range loop of `resolve`: each codepoint of `start..stop` in turn. */
  method ResolveRange(start: nat, stop: nat, loc: Location, font: Font) returns (r: Result<Resolution, ResolveError>)
    ensures r == RangeNames(start, stop, loc, font)
  {
    r := ResolveEach(start, stop, CodepointOf(loc, font));
  }

  /** The loop of the range branch, with the resolution of one codepoint passed in as `one`. */
  method ResolveEach(start: nat, stop: nat, one: nat -> Result<Resolution, ResolveError>)
    returns (r: Result<Resolution, ResolveError>)
    ensures r == RangeOf(start, stop, one)
  {
    var returned: seq<string> := [];
    var warnings: seq<string> := [];
    var cp := start;
    ThenNothing(RangeOf(start, stop, one));
    while cp < stop
      invariant start <= cp
      invariant RangeOf(start, stop, one) == Then(Resolution(returned, warnings), RangeOf(cp, stop, one))
      decreases stop - cp
    {
      var first := one(cp);
      if first.Err? {
        return Err(first.error);
      }
      ThenAssociative(Resolution(returned, warnings), first.value, RangeOf(cp + 1, stop, one));
      returned := returned + first.value.glyphs;
      warnings := warnings + first.value.warnings;
      cp := cp + 1;
    }
    assert returned + [] == returned && warnings + [] == warnings;
    r := Ok(Resolution(returned, warnings));
  }

  /** One codepoint of a range, resolved with the existence filter. */
  method ResolveCodepoint(cp: nat, loc: Location, font: Font) returns (r: Result<Resolution, ResolveError>)
    ensures r == CodepointResolution(cp, loc, font)
  {
    var glyph := font.GlyphForCodepoint(cp);
    if glyph.None? || glyph.value == "" {
      return Err(NoGlyphForCodepoint(cp, loc));
    }
    var g := glyph.value;
    SingletonFilters(g, font.exported);
    var warnings: seq<string> := [];
    if g !in font.exported {
      assert AsText(GlyphSelector(UnicodeGlyph(cp), [], loc)) == Ok("U+" + Hex4(cp)) by {
        assert "U+" + Hex4(cp) + SuffixText([]) == "U+" + Hex4(cp);
      }
      warnings := [MissingWarning([g], "U+" + Hex4(cp), loc)];
    }
    r := Ok(Resolution(Exported([g], font.exported), warnings));
  }

  lemma ThenNothing(rest: Result<Resolution, ResolveError>)
    ensures Then(NoGlyphs, rest) == rest
  {
    if rest.Ok? {
      assert [] + rest.value.glyphs == rest.value.glyphs;
      assert [] + rest.value.warnings == rest.value.warnings;
    }
  }

  lemma ThenAssociative(a: Resolution, b: Resolution, rest: Result<Resolution, ResolveError>)
    ensures Then(a, Then(b, rest)) == Then(Resolution(a.glyphs + b.glyphs, a.warnings + b.warnings), rest)
  {
    if rest.Ok? {
      assert a.glyphs + (b.glyphs + rest.value.glyphs) == (a.glyphs + b.glyphs) + rest.value.glyphs;
      assert a.warnings + (b.warnings + rest.value.warnings) == (a.warnings + b.warnings) + rest.value.warnings;
    }
  }

  // ---------------------------------------------------------------------
  // Building selectors from tokens

  /** The terminal tokens a glyph selector can start with. */
  datatype TerminalKind = CLASSNAME | REGEX | UNICODEGLYPH | BARENAME

  /**
   * A token handed to `_glyphselector`: a terminal with its text, or the
   * tokens built by the `unicoderange` and `inlineclass` callbacks.
   */
  datatype Token =
    | Terminal(kind: TerminalKind, text: string)
    | RangeToken(start: nat, stop: nat)
    | InlineToken(items: seq<Selector>)

  /** The children of an `inlineclass` node: whitespace or a terminal. */
  datatype InlineArg = Space | Item(token: Token)

  /** `ValueError` from `int(..., 16)`. */
  datatype TokenError = BadHex(text: string)

  /** Python `s[1:]`. */
  function DropFirst(s: string): string
  {
    if |s| == 0 then "" else s[1..]
  }

  /** Python `s[1:-1]`. */
  function Inner(s: string): string
  {
    if |s| < 2 then "" else s[1..|s| - 1]
  }

  /** `_UNICODEGLYPH`: the hexadecimal digits after `U+`. */
  function UnicodeGlyphValue(u: string): Result<nat, TokenError>
  {
    var digits := if |u| < 2 then "" else u[2..];
    match ParseHex(digits)
    case None => Err(BadHex(digits))
    case Some(v) => Ok(v)
  }

  /** `FEEVerb._glyphselector`. */
  function SelectorOfToken(t: Token): Result<Selector, TokenError>
  {
    match t
    case Terminal(CLASSNAME, text) => Ok(ClassName(DropFirst(text)))
    case Terminal(REGEX, text) => Ok(RegexSel(Inner(text)))
    case Terminal(UNICODEGLYPH, text) =>
      var cp :- UnicodeGlyphValue(text);
      Ok(UnicodeGlyph(cp))
    case Terminal(BARENAME, text) => Ok(BareName(text))
    case RangeToken(start, stop) => Ok(UnicodeRange(start, stop))
    case InlineToken(items) => Ok(InlineClass(items))
  }

  /** `FEEVerb.glyphsuffix`: the type and the concatenated name parts. */
  function GlyphSuffix(suffixtype: string, parts: seq<string>): Suffix
  {
    Suffix(suffixtype, Join("", parts))
  }

  /** `FEEVerb.unicoderange`: both ends inclusive. */
  function UnicodeRangeOf(first: string, last: string): Result<Token, TokenError>
  {
    var start :- UnicodeGlyphValue(first);
    var end :- UnicodeGlyphValue(last);
    Ok(RangeToken(start, end + 1))
  }

  /** `FEEVerb.inlineclass`: the non-whitespace children, as selectors. */
  function InlineClassOf(args: seq<InlineArg>): Result<Token, TokenError>
  {
    var items :- InlineItems(args);
    Ok(InlineToken(items))
  }

  /** The children converted left to right, whitespace skipped; the first bad one raises. */
  function InlineItems(args: seq<InlineArg>): Result<seq<Selector>, TokenError>
  {
    if args == [] then Ok([])
    else
      match args[0]
      case Space => InlineItems(args[1..])
      case Item(t) =>
        var s :- SelectorOfToken(t);
        var rest :- InlineItems(args[1..]);
        Ok([s] + rest)
  }

  /** The tokens among the children of an `inlineclass` node, in order. */
  function ItemTokens(args: seq<InlineArg>): seq<Token>
  {
    if args == [] then []
    else (if args[0].Space? then [] else [args[0].token]) + ItemTokens(args[1..])
  }

  /**
   * `FEEVerb.glyphselector`: located at the first token.  The tokens the
   * `unicoderange` and `inlineclass` callbacks build carry no line or
   * column, so their selectors are placed at `(None, None)`.
   */
  function GlyphSelectorOf(t: Token, suffixes: seq<Suffix>, line: int, column: int)
    : Result<GlyphSelector, TokenError>
  {
    var s :- SelectorOfToken(t);
    Ok(GlyphSelector(s, suffixes, if t.Terminal? then At(line, column) else Unpositioned))
  }

  // ---------------------------------------------------------------------
  // Properties of the token helpers

  /** A range token covers both written codepoints and everything between. */
  lemma UnicodeRangeInclusive(first: string, last: string, cp: nat)
    requires UnicodeRangeOf(first, last).Ok?
    ensures var t := UnicodeRangeOf(first, last).value;
      t.start <= cp < t.stop <==>
        UnicodeGlyphValue(first).value <= cp <= UnicodeGlyphValue(last).value
  {
  }

  /** Rendering a selector built from a class, regex or bare-name token gives the token back. */
  lemma TerminalTextRoundTrip(t: Token, suffixes: seq<Suffix>, line: int, column: int)
    requires t.Terminal? && t.kind != UNICODEGLYPH
    requires t.kind == CLASSNAME ==> |t.text| >= 1 && t.text[0] == '@'
    requires t.kind == REGEX ==> |t.text| >= 2 && t.text[0] == '/' && t.text[|t.text| - 1] == '/'
    ensures GlyphSelectorOf(t, suffixes, line, column).Ok?
    ensures AsText(GlyphSelectorOf(t, suffixes, line, column).value) == Ok(t.text + SuffixText(suffixes))
  {
    if t.kind == CLASSNAME {
      assert "@" + t.text[1..] == t.text;
    } else if t.kind == REGEX {
      assert "/" + t.text[1..|t.text| - 1] + "/" == t.text;
    }
  }

  /** The `U+` text `as_text` writes reads back as the same codepoint. */
  lemma UnicodeGlyphTextRoundTrip(cp: nat, loc: Location)
    ensures AsText(GlyphSelector(UnicodeGlyph(cp), [], loc)).Ok?
    ensures SelectorOfToken(Terminal(UNICODEGLYPH, AsText(GlyphSelector(UnicodeGlyph(cp), [], loc)).value))
      == Ok(UnicodeGlyph(cp))
  {
    var text := "U+" + Hex4(cp);
    assert AsText(GlyphSelector(UnicodeGlyph(cp), [], loc)) == Ok(text + "");
    assert text + "" == text;
    assert text[2..] == Hex4(cp);
    Hex4RoundTrip(cp);
  }

  /**
   * An inline class holds one selector per non-whitespace child, in the
   * order written, and fails exactly when some child's token does not
   * convert, with the error of the first such child.
   */
  lemma {:induction false} InlineItemsMeaning(args: seq<InlineArg>)
    ensures var r := InlineItems(args);
      var ts := ItemTokens(args);
      && (r.Ok? <==> forall j :: 0 <= j < |ts| ==> SelectorOfToken(ts[j]).Ok?)
      && (r.Ok? ==> |r.value| == |ts| && forall j :: 0 <= j < |ts| ==> SelectorOfToken(ts[j]) == Ok(r.value[j]))
      && (r.Err? ==> exists j :: 0 <= j < |ts| && SelectorOfToken(ts[j]) == Err(r.error)
                       && forall k :: 0 <= k < j ==> SelectorOfToken(ts[k]).Ok?)
  {
    if args != [] {
      InlineItemsMeaning(args[1..]);
      var rest := ItemTokens(args[1..]);
      if args[0].Space? {
        assert ItemTokens(args) == rest;
      } else {
        var ts := ItemTokens(args);
        assert ts == [args[0].token] + rest;
        assert ts[0] == args[0].token;
        assert forall j :: 1 <= j < |ts| ==> ts[j] == rest[j - 1];
        var r := InlineItems(args);
        var rr := InlineItems(args[1..]);
        var head := SelectorOfToken(args[0].token);
        if head.Ok? && rr.Ok? {
          assert r == Ok([head.value] + rr.value);
        }
        if head.Ok? && rr.Err? {
          var j :| 0 <= j < |rest| && SelectorOfToken(rest[j]) == Err(rr.error)
                   && forall k :: 0 <= k < j ==> SelectorOfToken(rest[k]).Ok?;
          assert SelectorOfToken(ts[j + 1]) == Err(r.error);
        }
      }
    }
  }

  /**
   * Whitespace children are dropped: an inline class of items only, with
   * spaces anywhere between them, converts as the items alone do.
   */
  lemma {:induction false} InlineSpacesDropped(before: seq<InlineArg>, after: seq<InlineArg>)
    ensures InlineItems(before + [Space] + after) == InlineItems(before + after)
    ensures ItemTokens(before + [Space] + after) == ItemTokens(before + after)
  {
    if before == [] {
      assert before + [Space] + after == [Space] + after;
      assert ([Space] + after)[1..] == after;
      assert before + after == after;
    } else {
      InlineSpacesDropped(before[1..], after);
      assert (before + [Space] + after)[0] == before[0];
      assert (before + [Space] + after)[1..] == before[1..] + [Space] + after;
      assert (before + after)[0] == before[0];
      assert (before + after)[1..] == before[1..] + after;
    }
  }

  /**
   * Selectors of class, regex, codepoint and bare-name tokens are placed at
   * the token's line and column; those of range and inline-class tokens at
   * `(None, None)`, which is what their error messages print.
   */
  lemma GlyphSelectorLocation(t: Token, suffixes: seq<Suffix>, line: int, column: int)
    requires GlyphSelectorOf(t, suffixes, line, column).Ok?
    ensures var sel := GlyphSelectorOf(t, suffixes, line, column).value;
      && SelectorOfToken(t) == Ok(sel.selector) && sel.suffixes == suffixes
      && (t.Terminal? ==> sel.location == At(line, column))
      && (!t.Terminal? ==> sel.location == Unpositioned && LocationText(sel.location) == "(None, None)")
  {
  }

  /**
   * A range whose first codepoint has no glyph raises at `(None, None)`,
   * whatever line and column the range was written at.
   */
  lemma RangeErrorUnpositioned(start: nat, stop: nat, suffixes: seq<Suffix>, line: int, column: int,
                               classes: ClassTable, font: Font, re: Regex, mustExist: bool)
    requires start < stop && start !in font.cmap
    ensures GlyphSelectorOf(RangeToken(start, stop), suffixes, line, column).Ok?
    ensures var sel := GlyphSelectorOf(RangeToken(start, stop), suffixes, line, column).value;
      var r := Resolve(sel, classes, font, re, mustExist);
      && r == Err(NoGlyphForCodepoint(start, Unpositioned))
      && ErrorMessage(r.error) == "Font does not contain glyph for U+" + Hex4(start) + " (at (None, None))"
  {
    var sel := GlyphSelector(UnicodeRange(start, stop), suffixes, Unpositioned);
    assert GlyphSelectorOf(RangeToken(start, stop), suffixes, line, column) == Ok(sel);
    var e := NoGlyphForCodepoint(start, Unpositioned);
    assert BaseNames(sel.selector, Unpositioned, classes, font, re) == Err(e) by {
      assert CodepointResolution(start, Unpositioned, font) == Err(e);
      assert CodepointOf(Unpositioned, font)(start) == Err(e);
      assert RangeOf(start, stop, CodepointOf(Unpositioned, font)) == Err(e);
    }
  }

  /** `as_text` writes each suffix as its type followed by its name. */
  lemma SuffixTextOfGlyphSuffix(suffixtype: string, name: string)
    ensures SuffixText([GlyphSuffix(suffixtype, [name])]) == suffixtype + name
  {
    assert Join("", [name]) == name;
  }
}
