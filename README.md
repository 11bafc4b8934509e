# fontFeatures core, modelled in Dafny

This project models the sequential core of `fontFeatures`, a Python library
that turns feature files into an in-memory representation of OpenType
layout rules. Five parts are modelled:

- **FEE glyph selectors and statement dispatch** (`feeLib/__init__.py`).
  - A selector is a bare name, `@class`, `/regex/`, `U+XXXX`, `U+a=>U+b` or an inline `[...]` class.
  - Resolving one applies its `.x` / `~x` suffixes in order. With `mustExist` it then keeps only the glyphs the font exports and warns about the rest.
  - `as_text` renders a selector back to text.
  - The plugin table maps each verb to its parsers and transformer.
  - `FeeTransformer.statement` splits a statement's arguments into before-brace words, brace groups and after-brace words.
- **Class definitions** (`feeLib/ClassDefinition.py`).
  - The `|`, `&` and `-` algebra on glyph lists.
  - Glyph predicates and their negation.
  - The `DefineClass` and `DefineClassBinned` updates of the named-class table.
- **The feature-file builder** (`feaLib/__init__.py`).
  - The callbacks that the feature-file parser makes into `FeaParser`.
  - They open and discard routines, keep features' routine lists, stamp lookup flags and append rules.
- **Routine XML** (`xmlLib/Routine.py`): `toXML` and `fromXML`, and the round trip between them.
- **Debug verbs** (`feeLib/Debug.py`): `ShowClass`, `DumpClassNames` and `DumpClasses`. Each yields the diagnostic messages it emits and changes nothing.

## Layout

| file | module | contents |
|---|---|---|
| `wrappers.dfy` | `Wrappers` | `Option` and `Result` |
| `seqs.dfy` | `Seqs` | filtering, subsequences, order-keeping deduplication |
| `text.dfy` | `Text` | decimal and hex rendering and parsing, `join`/`split` |
| `font_model.dfy` | `FontModel` | the font: glyph order, exported glyphs, codepoint map, categories, anchors, metrics |
| `named_classes.dfy` | `NamedClasses` | the named-class table (a dict with its insertion order) |
| `glyph_selector.dfy` | `GlyphSelectors` | `GlyphSelector` and the token helpers of `FEEVerb` |
| `fee_parser.dfy` | `FeeParsing` | plugin table, `statement`, `filterResults`, `NAMEDINTEGER` |
| `class_definition.dfy` | `ClassDefinition` | `DefineClass`, `DefineClassBinned` |
| `debug.dfy` | `DebugVerbs` | `ShowClass`, `DumpClassNames`, `DumpClasses` |
| `routine_xml.dfy` | `RoutineXml` | `Routine.toXML` / `Routine.fromXML` |
| `fea_builder.dfy` | `FeaBuilder` | the `FeaParser` callbacks |

### Modelling choices

- **Mutable objects are classes.** Both `FeeParser` classes are Dafny classes whose methods update fields as the source does.
  - Each `FeaParser` method is proved equal to a function on a `BuilderState` value. The properties are lemmas about those functions.
  - Routines are identified by their index in an arena of routine records, so "the current routine" and "the routine in `ff.routines`" are the same object, as in Python.
- **Python sets** (the result of `-` and of `list(set(...))`) become duplicate-free sequences in first-occurrence order. Their contracts only state membership and distinctness, so no particular order is promised.
- **Failures are values.** Exceptions the source raises become `Err` results or `Some(error)` outcomes. Warnings become returned message lists. When resolution or class evaluation ends in an error, only the error is returned; the warnings Python had already printed by then are not carried with it (see "## Left out").
- **Opaque collaborators are parameters.**
  - Regular expressions are an oracle record: whether a pattern compiles, whether it matches, and what a substitution yields.
  - Glyph metrics are a function of the glyph.
  - The bins of `DefineClassBinned` are an input.
  - The lark parsers are values that record the grammar text they were built from.
- Bare glyph names go through the existence filter like every other selector (`feeLib/__init__.py:66-67`, `116-128`).

## Model

| member | source | states |
|---|---|---|
| `NamedClasses.ClassTable.Put` | fontFeatures/feeLib/ClassDefinition.py:150-151 | storing a class sets that entry and no other; a new name is appended to the definition order, an existing name keeps its place |
| `Text.IntToDecimalRoundTrip` | fontFeatures/xmlLib/Routine.py:8-9 | the decimal text written for an integer parses back to that integer |
| `Text.IntToDecimalInjective` | fontFeatures/feeLib/ClassDefinition.py:261-262 | distinct integers render to distinct decimal texts |
| `Text.Hex4RoundTrip` | fontFeatures/feeLib/__init__.py:38 | the `U+%04X` rendering of a codepoint parses back to that codepoint |
| `Text.SplitJoin` | fontFeatures/xmlLib/Routine.py:10-11 | joining non-empty lists with a separator none of the parts contains, then splitting, gives the list back |
| `Text.SplitLength` | fontFeatures/xmlLib/Routine.py:26 | splitting yields one more part than there are separators |
| `Text.SplitJoinNeedsClean` | fontFeatures/xmlLib/Routine.py:10-11 | a part containing the separator is not recovered |
| `GlyphSelectors.SelectorText` | fontFeatures/feeLib/__init__.py:30-52 | the selector part of `as_text`, per kind, an inline class as its items joined in brackets; no contract of its own, characterised by `SelectorTextFails` and `TerminalTextRoundTrip` |
| `GlyphSelectors.AsText` | fontFeatures/feeLib/__init__.py:30-53 | `as_text`: the selector text followed by each suffix as type and name; no contract of its own, characterised by `SelectorTextFails`, `TerminalTextRoundTrip` and `UnicodeGlyphTextRoundTrip` |
| `GlyphSelectors.ApplySuffix` | fontFeatures/feeLib/__init__.py:54-61 | `_apply_suffix`; no contract of its own, characterised by `ApplySuffixEffect` and `StripUndoesAppend` |
| `GlyphSelectors.Resolve` | fontFeatures/feeLib/__init__.py:62-128 | `resolve`: base names by kind, then every suffix, then the existence filter when asked; no contract of its own, characterised by the `Resolve…` and `…Resolution` lemmas below |
| `GlyphSelectors.SelectorTextFails` | fontFeatures/feeLib/__init__.py:30-52 | `as_text` fails exactly when the selector is, or contains, a unicode range (that branch builds a tuple, not a string) |
| `GlyphSelectors.ItemTextsFail` | fontFeatures/feeLib/__init__.py:42-47 | rendering the items of an inline class fails exactly when one of them contains a range |
| `GlyphSelectors.ApplySuffixEffect` | fontFeatures/feeLib/__init__.py:54-60 | `.` appends `"." + suffix`; any other type strips a trailing `"." + suffix` when present and otherwise leaves the name unchanged |
| `GlyphSelectors.StripUndoesAppend` | fontFeatures/feeLib/__init__.py:54-60 | stripping a suffix just appended gives the original name |
| `GlyphSelectors.ApplySuffixesSnoc` | fontFeatures/feeLib/__init__.py:114-115 | suffixes are applied in declared order, the last one last |
| `GlyphSelectors.SuffixAllSnoc` | fontFeatures/feeLib/__init__.py:114-115 | each suffix is applied to every name of the list, keeping length and order |
| `GlyphSelectors.SuffixAllNone` | fontFeatures/feeLib/__init__.py:114-115 | no suffixes leave the names unchanged |
| `GlyphSelectors.SingletonFilters` | fontFeatures/feeLib/__init__.py:117-118 | a single name is kept when the font exports it and reported missing otherwise |
| `GlyphSelectors.ResolveAppliesSuffixes` | fontFeatures/feeLib/__init__.py:62-115 | without the existence filter, resolution is the base resolution with every suffix applied, in order, to every name; it fails exactly when the base does |
| `GlyphSelectors.ResolveMustExist` | fontFeatures/feeLib/__init__.py:116-128 | with `mustExist` the glyphs are exactly the exported subsequence of the unfiltered names, order kept, and one more warning is issued exactly when a name was dropped; the filter itself fails only when a name is missing and the selector holds a range, because the warning text calls `as_text` |
| `GlyphSelectors.BareNameResolution` | fontFeatures/feeLib/__init__.py:66-67 | a bare name resolves to itself alone before the filter, and the filter keeps it only if exported |
| `GlyphSelectors.ExportedBareName` | fontFeatures/feeLib/__init__.py:66-67 | an exported bare name resolves to itself with no warning |
| `GlyphSelectors.ClassNameResolution` | fontFeatures/feeLib/__init__.py:95-102 | a defined class yields its stored glyphs; an undefined one fails with an error naming the class and the location |
| `GlyphSelectors.UnicodeGlyphResolution` | fontFeatures/feeLib/__init__.py:68-76 | a codepoint with no (or an empty) mapped glyph fails; otherwise it yields the mapped glyph |
| `GlyphSelectors.RegexResolution` | fontFeatures/feeLib/__init__.py:103-113 | a pattern that does not compile fails; otherwise the result is the matching exported glyphs in font order |
| `GlyphSelectors.CodepointResolutionIsResolve` | fontFeatures/feeLib/__init__.py:77-85 | each codepoint of a range is resolved as a `unicodeglyph` selector with the existence filter on |
| `GlyphSelectors.MappedRange` | fontFeatures/feeLib/__init__.py:77-85 | the glyphs of a range are those of each codepoint from start to end, ascending |
| `GlyphSelectors.RangeResolution` | fontFeatures/feeLib/__init__.py:77-85 | a range whose codepoints all map to exported glyphs resolves to those glyphs in codepoint order, with no warning |
| `GlyphSelectors.InlineClassResolution` | fontFeatures/feeLib/__init__.py:86-94 | an inline class of exported bare names resolves to those names in declaration order, duplicates kept |
| `GlyphSelectors.InlineItemsResolution` | fontFeatures/feeLib/__init__.py:86-94 | an inline class of exported bare names yields, from member `i` on, exactly those names with no warning |
| `GlyphSelectors.InlineClassMeaning` | fontFeatures/feeLib/__init__.py:86-94 | any inline class: each member is resolved on its own as a filtered selector at the class's location; the class succeeds exactly when every member does, its glyphs and its warnings are the members' glyphs and warnings joined in the order written, and a failure is the error of the first member that fails |
| `GlyphSelectors.RangeOfMeaning` | fontFeatures/feeLib/__init__.py:77-94 | the position loop shared by ranges and inline classes succeeds exactly when every position does, joins the positions' glyphs and warnings in order, and otherwise fails with the error of the first failing position |
| `GlyphSelectors.RangeErrorUnpositioned` | fontFeatures/feeLib/__init__.py:68-85 | a range whose first codepoint has no glyph fails with the error for that codepoint, and its message ends `(at (None, None))` whatever line and column the range was written at |
| `GlyphSelectors.ResolveSelector` | fontFeatures/feeLib/__init__.py:62-128 | the reassigning `resolve` computes the resolution the lemmas above describe |
| `GlyphSelectors.ResolveBase` | fontFeatures/feeLib/__init__.py:62-113 | the branch on the selector kind computes the base names |
| `GlyphSelectors.ResolveInline` | fontFeatures/feeLib/__init__.py:86-94 | the `inlineclass` loop resolves each member as a filtered selector at the class's location and concatenates the results in order, stopping at the first error, as `BaseNames` states |
| `GlyphSelectors.ResolveRange` | fontFeatures/feeLib/__init__.py:77-85 | the `unicoderange` branch computes the range's resolution, `RangeNames` |
| `GlyphSelectors.ResolveEach` | fontFeatures/feeLib/__init__.py:78-84 | resolving each codepoint of the range in turn and collapsing the results gives their concatenation, and the first codepoint that fails makes the whole range fail |
| `GlyphSelectors.ResolveCodepoint` | fontFeatures/feeLib/__init__.py:68-76 | the `unicodeglyph` branch followed by the existence filter |
| `GlyphSelectors.UnicodeGlyphValue` | fontFeatures/feeLib/__init__.py:369-370 | `_UNICODEGLYPH`: the hexadecimal digits after `U+`, failing on anything else; no contract of its own, characterised by `UnicodeGlyphTextRoundTrip` |
| `GlyphSelectors.SelectorOfToken` | fontFeatures/feeLib/__init__.py:407-417 | `_glyphselector`: the selector dictionary of a token, with `@` or the slashes dropped; no contract of its own, characterised by `TerminalTextRoundTrip` and `GlyphSelectorLocation` |
| `GlyphSelectors.GlyphSuffix` | fontFeatures/feeLib/__init__.py:393-395 | `glyphsuffix`; no contract of its own, characterised by `SuffixTextOfGlyphSuffix` |
| `GlyphSelectors.UnicodeRangeOf` | fontFeatures/feeLib/__init__.py:401-402 | `unicoderange`; no contract of its own, characterised by `UnicodeRangeInclusive` |
| `GlyphSelectors.InlineClassOf` | fontFeatures/feeLib/__init__.py:404-405 | `inlineclass`; no contract of its own, characterised by `InlineItemsMeaning` and `InlineSpacesDropped` |
| `GlyphSelectors.GlyphSelectorOf` | fontFeatures/feeLib/__init__.py:419-422 | `glyphselector`; no contract of its own, characterised by `GlyphSelectorLocation` |
| `GlyphSelectors.UnicodeRangeInclusive` | fontFeatures/feeLib/__init__.py:401-402 | a parsed range runs from its first codepoint to its last, inclusive |
| `GlyphSelectors.TerminalTextRoundTrip` | fontFeatures/feeLib/__init__.py:407-422 | a selector built from a bare-name, class or regex token renders back to the token text followed by its suffixes |
| `GlyphSelectors.UnicodeGlyphTextRoundTrip` | fontFeatures/feeLib/__init__.py:369-370 | rendering a codepoint selector and reading the text as a `U+` token gives the codepoint back |
| `GlyphSelectors.SuffixTextOfGlyphSuffix` | fontFeatures/feeLib/__init__.py:393-395 | a suffix built by `glyphsuffix` renders as its type followed by its text |
| `GlyphSelectors.InlineItemsMeaning` | fontFeatures/feeLib/__init__.py:404-405 | an inline class holds one selector per non-whitespace child, in the order written, each the conversion of that child's token; it fails exactly when some child fails to convert, with the error of the first that does |
| `GlyphSelectors.InlineSpacesDropped` | fontFeatures/feeLib/__init__.py:404-405 | a whitespace child anywhere among the children changes neither the tokens kept nor the result |
| `GlyphSelectors.GlyphSelectorLocation` | fontFeatures/feeLib/__init__.py:401-422 | a selector from a class, regex, codepoint or bare-name token is placed at the token's line and column; one from a range or inline-class token, which carries no position, at `(None, None)`, which its messages print |
| `FeeParsing.ResolvedPluginName` | fontFeatures/feeLib/__init__.py:236-239 | the resolved plugin name is always dotted |
| `FeeParsing.ComposeVerb` | fontFeatures/feeLib/__init__.py:256-276 | the table entry for one verb: main parser from the rules plus its fragment, before- and after-brace parsers from their fragments or `NullParser`, transformer the module's class of that name; no contract of its own, characterised by `NullParserWithoutFragment` and `RegisterVerbsTable` |
| `FeeParsing.RegisterPluginSpec` | fontFeatures/feeLib/__init__.py:250-277 | `register_plugin`: a missing `VERBS`, `PARSEOPTS`, `use_helpers` or `GRAMMAR` raises, otherwise every verb is written in turn; no contract of its own, characterised by `RegisterVerbsTable` and `RegisterVerbsStops` |
| `FeeParsing.RegisterVerbsTable` | fontFeatures/feeLib/__init__.py:250-277 | registering gives every listed verb an entry built from the plugin's grammars, and leaves every other verb's entry as it was |
| `FeeParsing.RegisterVerbsStops` | fontFeatures/feeLib/__init__.py:257-276 | a verb with no transformer raises; the verbs before it are already registered |
| `FeeParsing.NullParserWithoutFragment` | fontFeatures/feeLib/__init__.py:257-273 | a verb without a before- or after-brace grammar gets a parser whose parse returns nothing, and its transformer is the plugin's class of that name |
| `FeeParsing.LoadAllSucceeds` | fontFeatures/feeLib/__init__.py:224-248 | loading plugins whose modules all exist, are plugins and define every verb's class raises and warns nothing; afterwards the table holds exactly the earlier verbs and every declared verb, the last module's verbs with that module's entries |
| `FeeParsing.LoadAllMissingModule` | fontFeatures/feeLib/__init__.py:224-241 | a plugin whose module cannot be imported stops the loading with that error, the plugins before it loaded and no warning emitted |
| `FeeParsing.GroupIndices` | fontFeatures/feeLib/__init__.py:325 | the group positions are exactly the brace-group arguments, in increasing order |
| `FeeParsing.GroupsAtAreGroupStatements` | fontFeatures/feeLib/__init__.py:327-328 | the statements collected are the group arguments in order |
| `FeeParsing.Dispatch` | fontFeatures/feeLib/__init__.py:317-357 | `statement`: an unknown verb warns; groups present split the arguments into before, groups and after; otherwise the whole is parsed; no contract of its own, characterised by the `Dispatch…`, `FirstGroup` and `LastGroup` lemmas |
| `FeeParsing.DispatchUnknownVerb` | fontFeatures/feeLib/__init__.py:320-322 | an unknown verb warns and is returned with its arguments unchanged |
| `FeeParsing.FirstGroup` | fontFeatures/feeLib/__init__.py:327 | the first group has only words before it |
| `FeeParsing.LastGroup` | fontFeatures/feeLib/__init__.py:327 | the last group has only words after it |
| `FeeParsing.DispatchBlockGroups` | fontFeatures/feeLib/__init__.py:324-348 | with groups present the action receives `[before, groups, after]`, the middle being every group in order, and words between groups dropped |
| `FeeParsing.DispatchBlockEnds` | fontFeatures/feeLib/__init__.py:329-346 | before and after are the words outside the first and last group; an absent or empty parse becomes `None` |
| `FeeParsing.DispatchSimple` | fontFeatures/feeLib/__init__.py:350-353 | a statement of words only is parsed whole with the verb's main parser |
| `FeeParsing.Leaves` | fontFeatures/feeLib/__init__.py:298-300 | collapsing nested lists yields no list |
| `FeeParsing.FilterResults` | fontFeatures/feeLib/__init__.py:298-300 | the results kept are exactly the collapsed leaves that are truthy and not strings |
| `FeeParsing.LeavesOfFlatList` | fontFeatures/feeLib/__init__.py:299 | collapsing a flat list changes nothing |
| `FeeParsing.LeavesOfConcat` | fontFeatures/feeLib/__init__.py:299 | collapsing distributes over concatenation |
| `FeeParsing.UndefinedVariableFailsLate` | fontFeatures/feeLib/__init__.py:382-399 | an undefined variable is only reported when its value is converted |
| `FeeParsing.DefinedVariableReads` | fontFeatures/feeLib/__init__.py:382-399 | `$name` of a defined variable reads back, through `integer_container`, as exactly its value |
| `FeeParsing.FeeParser.constructor` | fontFeatures/feeLib/__init__.py:224-233 | the attributes `__init__` sets: the given font and class table, an empty variable table and a verb table not yet loaded |
| `FeeParsing.FeeParser.Create` | fontFeatures/feeLib/__init__.py:203-233 | a new parser has the given font and class table and no variables, and its verb table and warnings are those of loading the eleven default plugins in order, with the first load error raised |
| `FeeParsing.FeeParser.LoadPlugins` | fontFeatures/feeLib/__init__.py:224-226 | the loop of `__init__` loads each plugin in turn as `LoadAll` describes and changes nothing but the verb table |
| `FeeParsing.FeeParser.RegisterPlugin` | fontFeatures/feeLib/__init__.py:250-277 | the loop over the plugin's verbs updates the plugin table as `RegisterVerbsTable` describes and nothing else |
| `FeeParsing.FeeParser.LoadPlugin` | fontFeatures/feeLib/__init__.py:235-248 | a module lacking `PARSEOPTS`, `GRAMMAR`, `VERBS` or `use_helpers` is rejected with a warning and leaves the table unchanged; an unknown module fails; otherwise the plugin is registered; together, the outcome `LoadSpec` gives |
| `FeeParsing.FeeParser.Statement` | fontFeatures/feeLib/__init__.py:317-357 | `statement` computes the dispatch the lemmas above describe |
| `ClassDefinition.MeetsPredicate` | fontFeatures/feeLib/ClassDefinition.py:242-254 | evaluation fails exactly for an unknown kind, or for a category test of a glyph the font lacks |
| `ClassDefinition.HasGlyphMeaning` | fontFeatures/feeLib/ClassDefinition.py:153-156 | a `hasglyph` predicate built from a pattern that compiles holds of a glyph exactly when the font has the glyph named by substituting the replacement for the pattern in its name, and its negation exactly when it does not |
| `ClassDefinition.Holds` | fontFeatures/feeLib/ClassDefinition.py:176-192 | applying a comparison, a dictionary test or a negation to a glyph; no contract of its own, characterised by `MeetsPredicateCases`, `NegationComplement` and `HasGlyphMeaning` |
| `ClassDefinition.GetMetric` | fontFeatures/feeLib/ClassDefinition.py:166-174 | `_get_metrics` for one metric; no contract of its own, characterised by `GetMetricCases` |
| `ClassDefinition.MeetsPredicateCases` | fontFeatures/feeLib/ClassDefinition.py:242-254 | `hasanchor` holds iff the glyph's anchors include the name; `category` holds iff the category equals the argument; `hasglyph` holds iff the substituted name is in the font; any other kind fails |
| `ClassDefinition.GetMetricCases` | fontFeatures/feeLib/ClassDefinition.py:166-174 | a metric outside the known list fails as unknown; a known metric yields that entry |
| `ClassDefinition.NegationComplement` | fontFeatures/feeLib/ClassDefinition.py:190-192 | a negated predicate fails exactly when its operand does, and otherwise holds exactly when the operand does not |
| `ClassDefinition.FilterHolds` | fontFeatures/feeLib/ClassDefinition.py:213-214 | filtering by a predicate keeps exactly the satisfying glyphs, as a subsequence, and fails exactly when some test fails |
| `ClassDefinition.FilterHoldsCounts` | fontFeatures/feeLib/ClassDefinition.py:213-214 | a glyph that satisfies the predicate is kept as many times as it occurs, and any other glyph not at all |
| `ClassDefinition.NegationSplits` | fontFeatures/feeLib/ClassDefinition.py:190-192 | a predicate and its negation split a list: the lengths add up and each glyph lands on exactly one side |
| `ClassDefinition.Conjunction` | fontFeatures/feeLib/ClassDefinition.py:210-216 | `conjunction`: a list then a predicate is filtered at once, anything else deferred; no contract of its own, characterised by `ListFilteredByPredicate` |
| `ClassDefinition.Combine` | fontFeatures/feeLib/ClassDefinition.py:228-240 | the set operation of `resolve_definition`; no contract of its own, characterised by `CombineSemantics` and `UnionIntersectionCommute` |
| `ClassDefinition.ResolveDefinition` | fontFeatures/feeLib/ClassDefinition.py:228-240 | `resolve_definition`; no contract of its own, characterised by `ConjunctionSemantics` and `SelectorDefinition` |
| `ClassDefinition.PredicateForAllGlyphs` | fontFeatures/feeLib/ClassDefinition.py:206-208 | `_predicate_for_all_glyphs`; no contract of its own, characterised by `PredicateOverAllGlyphs` |
| `ClassDefinition.Primary` | fontFeatures/feeLib/ClassDefinition.py:197-205 | `primary`; no contract of its own, characterised by `SelectorDefinition`, `PredicateOverAllGlyphs` and `ConjunctionOfPrimaries` |
| `ClassDefinition.Evaluate` | fontFeatures/feeLib/ClassDefinition.py:194-216 | the callbacks run bottom-up over a definition; no contract of its own, characterised by `ConjunctionOfPrimaries` |
| `ClassDefinition.ConjunctionSemantics` | fontFeatures/feeLib/ClassDefinition.py:228-237 | `\|` is union, `&` intersection and `-` left minus right of the operands' members; `-` yields a set, the others lists; no result holds a duplicate |
| `ClassDefinition.CombineSemantics` | fontFeatures/feeLib/ClassDefinition.py:228-237 | on deduplicated operands `\|` gives a list whose members are the union, `&` a list of the intersection, `-` a set of the difference, none holding a duplicate |
| `ClassDefinition.UnionIntersectionCommute` | fontFeatures/feeLib/ClassDefinition.py:232-235 | `\|` and `&` give the same members with the operands swapped |
| `ClassDefinition.SubtractNotCommutative` | fontFeatures/feeLib/ClassDefinition.py:236-237 | `-` is not commutative |
| `ClassDefinition.ListFilteredByPredicate` | fontFeatures/feeLib/ClassDefinition.py:210-216 | a list followed by a predicate yields the list's members satisfying it, in list order, whatever the operator |
| `ClassDefinition.ConjunctionOfPrimaries` | fontFeatures/feeLib/ClassDefinition.py:210-216 | two resolved primaries combine as the class algebra |
| `ClassDefinition.PredicateOverAllGlyphs` | fontFeatures/feeLib/ClassDefinition.py:197-208 | a bare predicate yields the glyphs of the font's glyph order satisfying it, in that order; it is never returned unapplied |
| `ClassDefinition.SelectorDefinition` | fontFeatures/feeLib/ClassDefinition.py:194-204 | a selector definition yields the selector's resolution, existence filter on |
| `ClassDefinition.DefineClassAction` | fontFeatures/feeLib/ClassDefinition.py:218-225 | the glyphs are stored under the class name without its `@`, nothing else changes, and the token is returned |
| `ClassDefinition.PutChangesOneEntry` | fontFeatures/feeLib/ClassDefinition.py:150-151 | storing a class changes that entry and no other |
| `ClassDefinition.BinNamesDistinct` | fontFeatures/feeLib/ClassDefinition.py:261-262 | the names of different bins differ |
| `ClassDefinition.StoreBinsSucceeds` | fontFeatures/feeLib/ClassDefinition.py:261-262 | writing the bins succeeds when there are at least as many bins as the count |
| `ClassDefinition.StoreBinsWrites` | fontFeatures/feeLib/ClassDefinition.py:261-262 | entry `classname_metric<i>` holds the glyphs of bin `i-1` |
| `ClassDefinition.StoreBinsKeeps` | fontFeatures/feeLib/ClassDefinition.py:261-262 | every other entry is unchanged |
| `ClassDefinition.PlainNameIsNoBinName` | fontFeatures/feeLib/ClassDefinition.py:256-264 | the undivided class is not stored: its name is none of the bin names |
| `ClassDefinition.DefineClassBinnedAction` | fontFeatures/feeLib/ClassDefinition.py:256-264 | a count that is not an integer fails and changes nothing; otherwise exactly the bins `1..count` are written, named with the leading `@` kept, and the arguments are returned |
| `DebugVerbs.ShowClassReport` | fontFeatures/feeLib/Debug.py:30-40 | `ShowClass` fails exactly when the selector has a range or does not resolve; otherwise its last message is `as_text(sel) + " = "` followed by the exported glyphs, space-joined |
| `DebugVerbs.ShowClassMessages` | fontFeatures/feeLib/Debug.py:30-40 | `ShowClass.action`: render, resolve, then report; no contract of its own, characterised by `ShowClassReport` and `ShowDefinedClass` |
| `DebugVerbs.DumpClassNamesMessage` | fontFeatures/feeLib/Debug.py:24-28 | `DumpClassNames.action`; no contract of its own, characterised by `DumpClassNamesLists` |
| `DebugVerbs.ClassDump` | fontFeatures/feeLib/Debug.py:30-40 | what `ShowClass` reports on a defined class: one or two messages, the last listing the class's exported glyphs, the first a warning exactly when some of its glyphs are missing from the font |
| `DebugVerbs.ShowDefinedClass` | fontFeatures/feeLib/Debug.py:30-40 | `ShowClass` on a defined class reports exactly its `ClassDump` |
| `DebugVerbs.DumpClassNamesLists` | fontFeatures/feeLib/Debug.py:24-28 | the one message lists every class name, in table order |
| `DebugVerbs.DumpClassesSucceeds` | fontFeatures/feeLib/Debug.py:18-22 | over defined classes `DumpClasses` succeeds and reports class after class in the order given, each class's glyph line preceded by one warning exactly when some of its glyphs are missing |
| `DebugVerbs.DumpAllClassesSucceeds` | fontFeatures/feeLib/Debug.py:18-22 | dumping every class of a well-formed table succeeds |
| `DebugVerbs.DumpClasses` | fontFeatures/feeLib/Debug.py:18-22 | given the parser, it changes nothing and yields `ShowClass`'s messages for each class of the table, in table order, stopping at the first failure |
| `DebugVerbs.ShowEachClass` | fontFeatures/feeLib/Debug.py:19-22 | the loop emits the messages of `ShowClass` (passed in as `show`) for each class name in order, stopping at the first that fails |
| `RoutineXml.RoutineElement` | fontFeatures/xmlLib/Routine.py:5-17 | the element is a `routine` with one child per rule in order; `flags` is present iff nonzero, `address` iff non-empty, `name` iff set and non-empty |
| `RoutineXml.Attributes` | fontFeatures/xmlLib/Routine.py:8-13 | the attributes `toXML` sets; no contract of its own, characterised by `RoutineElement` and `AttributesRead` |
| `RoutineXml.DecodeRulesMeaning` | fontFeatures/xmlLib/Routine.py:28-29 | the rules read back are one per child, in order, and reading fails exactly when a child does not decode |
| `RoutineXml.ElementRoutine` | fontFeatures/xmlLib/Routine.py:20-30 | `fromXML`; no contract of its own, characterised by `RoundTrip`, `AttributesRead` and `NormalizedIsStable` |
| `RoutineXml.RoundTrip` | fontFeatures/xmlLib/Routine.py:5-30 | reading back what `toXML` wrote gives the routine, with an empty name read as none, the address read as the list of what `"\|".join` iterated over (the characters of a string address) and an empty address read as `[""]`, when the rules round-trip and no such item contains `\|` |
| `RoutineXml.TextAddressComesBackAsCharacters` | fontFeatures/xmlLib/Routine.py:10-26 | a string address, as the builder sets it, comes back as the list of its one-character strings, not as the string |
| `RoutineXml.AttributesRead` | fontFeatures/xmlLib/Routine.py:5-27 | `fromXML` reads back the decimal flags (or nothing when the flags are 0), the `\|`-joined address (or nothing when it is empty), and a name exactly when the routine's name is non-empty |
| `RoutineXml.NormalizedIsStable` | fontFeatures/xmlLib/Routine.py:5-30 | a routine that has made the trip once comes back unchanged |
| `RoutineXml.PipeInAddressSplits` | fontFeatures/xmlLib/Routine.py:10-26 | an address part containing `\|` comes back split |
| `RoutineXml.ToXml` | fontFeatures/xmlLib/Routine.py:5-17 | setting the attributes and appending children in a loop builds `RoutineElement` |
| `RoutineXml.EncodeRules` | fontFeatures/xmlLib/Routine.py:14-15 | one child per rule, in rule order, each the rule's own encoding |
| `RoutineXml.FromXml` | fontFeatures/xmlLib/Routine.py:20-30 | reading flags (missing means 0, else the integer, else failure), name and address, then each rule, gives `ElementRoutine` |
| `RoutineXml.AddRules` | fontFeatures/xmlLib/Routine.py:28-29 | the loop adds one rule per child, in child order |
| `FeaBuilder.UnnamedNamesDistinct` | fontFeatures/feaLib/__init__.py:78-80 | generated routine names for different counters differ |
| `FeaBuilder.Candidates` | fontFeatures/feaLib/__init__.py:61 | the candidates are exactly the routines of `ff.routines` with that name, in order |
| `FeaBuilder.CandidatesCount` | fontFeatures/feaLib/__init__.py:62-64 | there are several candidates exactly when two positions of `ff.routines` hold routines of that name |
| `FeaBuilder.FindNamedRoutine` | fontFeatures/feaLib/__init__.py:60-66 | `find_named_routine`: a found routine is one of the builder's; the rest is stated by `FindNamedRoutineUnique` |
| `FeaBuilder.FindNamedRoutineUnique` | fontFeatures/feaLib/__init__.py:60-66 | the lookup fails when no routine or several bear the name, and otherwise yields the one that does |
| `FeaBuilder.Discard` | fontFeatures/feaLib/__init__.py:308-318 | discarding keeps the builder well formed and never touches the routines themselves, the current routine or the counter |
| `FeaBuilder.DiscardCases` | fontFeatures/feaLib/__init__.py:308-318 | nothing changes outside a feature or when the current routine has rules or is not in `ff.routines`; otherwise it is removed from `ff.routines` and the feature's last entry is dropped |
| `FeaBuilder.DiscardIdempotent` | fontFeatures/feaLib/__init__.py:308-318 | discarding twice is discarding once |
| `FeaBuilder.Start` | fontFeatures/feaLib/__init__.py:72-85 | starting keeps the builder well formed, opens a routine and advances the counter by at most one |
| `FeaBuilder.StartOpensRoutine` | fontFeatures/feaLib/__init__.py:72-85 | the new routine is empty with flag 0 and address `file:line:col`; an absent or empty name becomes `unnamed_routine_<n>` and advances the counter; it joins the open feature, else `ff.routines` |
| `FeaBuilder.StartIfNecessary` | fontFeatures/feaLib/__init__.py:68-70 | afterwards a routine is open |
| `FeaBuilder.EndLookupBlock` | fontFeatures/feaLib/__init__.py:296-299 | `end_lookup_block` keeps the builder well formed and the counter; its effect is stated by `EndFeatureCloses` and `SetLookupFlagCases` |
| `FeaBuilder.EndFeature` | fontFeatures/feaLib/__init__.py:301-306 | `end_feature` keeps the builder well formed; its effect is stated by `EndFeatureCloses` |
| `FeaBuilder.SetLookupFlag` | fontFeatures/feaLib/__init__.py:274-282 | `set_lookup_flag` keeps the builder well formed and never lowers the counter; its effect is stated by `SetLookupFlagCases` |
| `FeaBuilder.AddLookupCall` | fontFeatures/feaLib/__init__.py:287-294 | `add_lookup_call` keeps the builder well formed; its effect is stated by `AddLookupCallCases` |
| `FeaBuilder.AddRule` | fontFeatures/feaLib/__init__.py:108-120 | the shape of every `add_*` callback keeps the builder well formed; its effect is stated by `AddRuleAppendsOne` |
| `FeaBuilder.AddChainContext` | fontFeatures/feaLib/__init__.py:180-200 | `add_chain_context_subst` keeps the builder well formed; its effect is stated by `AddChainContextAppendsOne` |
| `FeaBuilder.MarkBase` | fontFeatures/feaLib/__init__.py:253-270 | no marks fail; the first mark class without exactly one definition fails; otherwise only the last mark's attachment rule is produced |
| `FeaBuilder.FindAll` | fontFeatures/feaLib/__init__.py:191-196 | all named routines are found, in order, or the first failing lookup fails |
| `FeaBuilder.ChainLookupsMeaning` | fontFeatures/feaLib/__init__.py:189-196 | one entry per position, empty exactly where there are no lookups, failing exactly when some name does not resolve |
| `FeaBuilder.AddRuleAppendsOne` | fontFeatures/feaLib/__init__.py:108-119 | an `add_*` callback opens a routine if none is open, then appends exactly one rule, with the location's address and current language, to the current routine and to no other |
| `FeaBuilder.AddChainContextAppendsOne` | fontFeatures/feaLib/__init__.py:180-200 | the callback opens a routine if none is open, then resolves the lookups against `ff.routines` as it then stands; an unresolved name raises and adds nothing more; otherwise exactly one chaining rule carrying the resolved lookups is appended to the current routine and to no other, the routine lists unchanged |
| `FeaBuilder.SetLookupFlagCases` | fontFeatures/feaLib/__init__.py:274-282 | an open routine with an unchanged flag: no-op; outside a feature: only the flag changes; inside: the current routine is stamped, then taken out of `ff.routines` (and the feature's last entry dropped) when it has no rules and is listed there, and a fresh unnamed routine with the new flag is appended to the feature's list and not to `ff.routines`; a discard that raises is returned as is |
| `FeaBuilder.EndFeatureCloses` | fontFeatures/feaLib/__init__.py:301-306 | after `end_feature` no feature is open and every rule of the current routine carries the current flag |
| `FeaBuilder.AddLookupCallCases` | fontFeatures/feaLib/__init__.py:287-294 | an unknown or ambiguous name fails; outside a feature the call fails; otherwise the named routine ends the feature's list |
| `FeaBuilder.ResolveLookups` | fontFeatures/feaLib/__init__.py:189-196 | the loop over positions computes `ChainLookups` |
| `FeaBuilder.CheckMarks` | fontFeatures/feaLib/__init__.py:256-270 | the loop over marks computes `MarkBase` |
| `FeaBuilder.FeaParser.constructor` | fontFeatures/feaLib/__init__.py:14-22 | a new builder has no feature, no routine, an empty routine list and counter 1 |
| `FeaBuilder.FeaParser.DiscardEmptyRoutine` | fontFeatures/feaLib/__init__.py:308-318 | computes `Discard` on the fields |
| `FeaBuilder.FeaParser.StartRoutine` | fontFeatures/feaLib/__init__.py:72-85 | computes `Start` on the fields |
| `FeaBuilder.FeaParser.OpenRoutine` | fontFeatures/feaLib/__init__.py:76-85 | the new routine is appended to the arena and made current with flag 0, the name counter advanced as given, and the routine referenced from the open feature or else appended to the top-level routines |
| `FeaBuilder.FeaParser.StartRoutineIfNecessary` | fontFeatures/feaLib/__init__.py:68-70 | computes `StartIfNecessary` on the fields |
| `FeaBuilder.FeaParser.StartLookupBlock` | fontFeatures/feaLib/__init__.py:87-88 | starts a routine with the given name |
| `FeaBuilder.FeaParser.StartFeature` | fontFeatures/feaLib/__init__.py:90-91 | only the current feature changes |
| `FeaBuilder.FeaParser.SetScript` | fontFeatures/feaLib/__init__.py:103-104 | only the current language changes, to the script with the default language |
| `FeaBuilder.FeaParser.SetLanguageOf` | fontFeatures/feaLib/__init__.py:106-107 | computes `SetLanguage` on the fields: without a script the call fails and changes nothing; otherwise only the language list changes, to the current script with the new language |
| `FeaBuilder.FeaParser.AppendToCurrent` | fontFeatures/feaLib/__init__.py:118-120 | appends the rule to the current routine |
| `FeaBuilder.FeaParser.AddRuleWith` | fontFeatures/feaLib/__init__.py:108-119 | computes `AddRule` on the fields |
| `FeaBuilder.FeaParser.AddSingleSubst` | fontFeatures/feaLib/__init__.py:109-120 | adds the single substitution |
| `FeaBuilder.FeaParser.AddReverseChainSingleSubst` | fontFeatures/feaLib/__init__.py:123-135 | adds the reversed single substitution |
| `FeaBuilder.FeaParser.AddMultipleSubst` | fontFeatures/feaLib/__init__.py:137-150 | adds the multiple substitution |
| `FeaBuilder.FeaParser.AddAlternateSubst` | fontFeatures/feaLib/__init__.py:152-163 | adds the alternate substitution |
| `FeaBuilder.FeaParser.AddLigatureSubst` | fontFeatures/feaLib/__init__.py:165-178 | adds the ligature substitution |
| `FeaBuilder.FeaParser.AddChainContextSubst` | fontFeatures/feaLib/__init__.py:180-200 | computes `AddChainContext` on the fields, as `AddChainContextAppendsOne` describes |
| `FeaBuilder.FeaParser.AddSinglePos` | fontFeatures/feaLib/__init__.py:202-213 | adds the single positioning |
| `FeaBuilder.FeaParser.AddSpecificPairPos` | fontFeatures/feaLib/__init__.py:215-222 | adds the glyph-pair positioning |
| `FeaBuilder.FeaParser.AddClassPairPos` | fontFeatures/feaLib/__init__.py:224-233 | adds the class-pair positioning |
| `FeaBuilder.FeaParser.AddCursivePos` | fontFeatures/feaLib/__init__.py:235-251 | adds the cursive attachment |
| `FeaBuilder.FeaParser.AddMarkBasePos` | fontFeatures/feaLib/__init__.py:253-272 | adds the last mark attachment, or fails as `MarkBase` does |
| `FeaBuilder.FeaParser.EndLookup` | fontFeatures/feaLib/__init__.py:296-299 | the loop stamps every rule of the current routine with the current flag |
| `FeaBuilder.FeaParser.EndFeatureBlock` | fontFeatures/feaLib/__init__.py:301-306 | computes `EndFeature` on the fields |
| `FeaBuilder.FeaParser.SetLookupFlagTo` | fontFeatures/feaLib/__init__.py:274-282 | computes `SetLookupFlag` on the fields |
| `FeaBuilder.FeaParser.AddLookupCallTo` | fontFeatures/feaLib/__init__.py:287-294 | computes `AddLookupCall` on the fields |

## Left out

- Parsing itself is not modelled. The lark grammars, `lark.Lark`, `Transformer.transform`, the fontTools feature-file parser and its AST are outside the model, so `parseString`, `parseFile` and `FeaParser.parse` are not modelled. Parsers are values that record their grammar text. A transformer's result is an input.
- `import_module` is a lookup in a given map of modules, and the plugins' own modules are inputs. `FeeParser.Create` loads the default plugins from that map.
- `FeeParsing.FeeParser.constructor`: Dafny constructors cannot fail, so `__init__` is split. The constructor sets the attributes, and `FeeParsing.FeeParser.Create` builds the parser and then loads `DEFAULT_PLUGINS`, returning the first error. Python raises there and yields no parser.
- `setGlyphClassesFromFont` is not part of this model. The named-class table is an input of the parser.
- The `plugins` and `variables` dictionaries are class attributes shared by every `FeeParser` in Python. Here each instance has its own.
- Regular expressions (`re.compile`, `re.search`, `re.sub`) are an oracle. Their semantics are not modelled.
- Glyph metrics (`glyphtools`) and the clustering of `bin_glyphs_by_metric` are inputs. Metrics are integers.
- `util.compare` is not part of this model. The comparators are taken to be integer comparison.
- `FEEVerb.GLYPHVALUE` is not modelled, because it calls `_get_metrics` through the plugin's transformer.
- `int()` is modelled as an optional sign followed by decimal digits. Surrounding whitespace and `_` separators are not accepted.
- Python's warning machinery is not modelled: the one-line `formatwarning` override and the suppression of repeated warnings. Warnings are returned message lists.
- `GlyphSelectors.Resolve`: an `Err` result carries only the error. Warnings that earlier members of an inline class or earlier codepoints of a range had already issued before a later one raised (`feeLib/__init__.py:77-94`, `116-127`) are not part of it. For example, `[x @undefined]` with `x` not exported prints the missing-glyph warning for `x` and then raises, and the model returns only `UndefinedClass`. The same holds for `ItemNames`, `RangeOf`, `ResolveSelector`, `ResolveInline` and `ResolveEach`. On success every warning is returned, in order (`InlineClassMeaning`, `RangeOfMeaning`).
- `ClassDefinition.Evaluate`: likewise, when one operand of a conjunction fails after the other has been resolved with warnings, only the error is returned (`ClassDefinition.py:228-240`).
- The iteration order of a Python `set` is not modelled. Results that are sets are promised only their members, without duplicates.
- The feature-file callbacks `set_font_revision`, `add_name_record`, `add_featureName`, `add_language_system` and `add_feature_reference` do nothing in the source and are not modelled.
- `FontFeatures.referenceRoutine` and `addFeature` are not part of this model. They are taken as "append the routine to the feature's list", and `ff.routines` is left unchanged when a routine joins a feature.
- `makeVarScalar`, the glyph map borrowed from a TTFont, and the mark-class table of `FeaParser` are not modelled.
- Rule records are reduced to the fields the callbacks set. Their own `toXML`/`fromXML` are parameters of the XML model.
- `FeaBuilder.FeaParser.constructor`: the source sets `currentRoutineFlag` only when a routine starts. The model starts it at 0, which no callback can observe before a routine exists.
- `FeaBuilder.StartIfNecessary`: a routine counts as present when it is not `None` (`if not self.currentRoutine`, `feaLib/__init__.py:68-69`). Python would also treat a routine object that defines `__len__` as false when empty, and the model does not capture that.
- `FeaBuilder.SetLookupFlag`: the same truth test on the current routine (`feaLib/__init__.py:275`), taken as "not `None`". The same holds for `FeaBuilder.FeaParser.StartRoutineIfNecessary`, `FeaBuilder.FeaParser.SetLookupFlagTo`, `FeaBuilder.EndLookupBlock` and `FeaBuilder.Discard`.
- `RoutineXml.RoundTrip`: this states the trip only for rules whose own encoding round-trips, and for addresses whose items contain no `|`. Other routines do not come back unchanged (see `PipeInAddressSplits`). A string address, which is what `_start_routine` sets, is written character by character and read back as a list of one-character strings (see `TextAddressComesBackAsCharacters`).
- `FeeParsing.FilterResults`: it states which values are kept, but not their order.
