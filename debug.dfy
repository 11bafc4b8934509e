/**
 * The debugging verbs `ShowClass`, `DumpClassNames` and `DumpClasses`.
 * Each reports through Python warnings; here the verbs yield the warning
 * messages they emit, in order, and change nothing.
 */
module DebugVerbs {
  import opened Wrappers
  import opened Text
  import opened FontModel
  import opened NamedClasses
  import opened GlyphSelectors
  import opened FeeParsing

  /**
   * `ShowClass.action`: the selector is rendered first, then resolved
   * (existence filter on); the messages are the warnings of the resolution
   * followed by `"<selector> = <glyphs>"`.
   */
  function ShowClassMessages(sel: GlyphSelector, classes: ClassTable, font: Font, re: Regex)
    : Result<seq<string>, ResolveError>
  {
    var text :- AsText(sel);
    var res :- Resolve(sel, classes, font, re, true);
    Ok(res.warnings + [text + " = " + Join(" ", res.glyphs)])
  }

  /**
   * `ShowClass` fails exactly when the selector contains a range (which
   * cannot be rendered, even when every glyph exists) or does not resolve;
   * otherwise its last message lists the exported glyphs of the selector.
   */
  lemma {:induction false} ShowClassReport(sel: GlyphSelector, classes: ClassTable, font: Font, re: Regex)
    ensures HasRange(sel.selector) ==> ShowClassMessages(sel, classes, font, re).Err?
    ensures !HasRange(sel.selector) ==>
      (ShowClassMessages(sel, classes, font, re).Ok? <==> Resolve(sel, classes, font, re, false).Ok?)
    ensures ShowClassMessages(sel, classes, font, re).Ok? ==>
      var all := Resolve(sel, classes, font, re, false).value;
      var msgs := ShowClassMessages(sel, classes, font, re).value;
      && |msgs| >= 1
      && msgs[|msgs| - 1] == AsText(sel).value + " = " + Join(" ", Exported(all.glyphs, font.exported))
  {
    SelectorTextFails(sel.selector);
    var all := Resolve(sel, classes, font, re, false);
    if all.Ok? {
      ResolveMustExist(sel, classes, font, re);
    }
  }

  /** `DumpClassNames.action`: one message, the class names in definition order. */
  function DumpClassNamesMessage(classes: ClassTable): string
  {
    Join(" ", classes.names)
  }

  /** The message lists every class name, in order, when no name holds a space. */
  lemma DumpClassNamesLists(classes: ClassTable)
    requires |classes.names| >= 1
    requires forall i :: 0 <= i < |classes.names| ==> ' ' !in classes.names[i]
    ensures Split(DumpClassNamesMessage(classes), ' ') == classes.names
  {
    SplitJoin(classes.names, ' ');
  }

  /** `ShowClass` on `@c`, as `DumpClasses` builds it. */
  function ClassSelector(c: string): GlyphSelector
  {
    GlyphSelector(ClassName(c), [], NoLocation)
  }

  /** `ShowClass` on `@c`, for each class name `c`. */
  function ShowClassOf(classes: ClassTable, font: Font, re: Regex): string -> Result<seq<string>, ResolveError>
  {
    c => ShowClassMessages(ClassSelector(c), classes, font, re)
  }

  /** The messages of `show` on each name, in order; the first failure stops it. */
  function ConcatMessages<E>(names: seq<string>, show: string -> Result<seq<string>, E>): Result<seq<string>, E>
  {
    if names == [] then Ok([])
    else
      var first :- show(names[0]);
      var rest :- ConcatMessages(names[1..], show);
      Ok(first + rest)
  }

  /** `DumpClasses.action` on the given class names: `ShowClass` for each, in order. */
  function DumpClassesMessages(classes: ClassTable, font: Font, re: Regex, names: seq<string>)
    : Result<seq<string>, ResolveError>
  {
    ConcatMessages(names, ShowClassOf(classes, font, re))
  }

  /**
   * What `ShowClass` reports on a defined class `@c`, read off the class
   * table: a warning naming the class's glyphs the font lacks, if there
   * are any, then the line listing its glyphs the font exports.
   */
  function ClassDump(c: string, classes: ClassTable, font: Font): (r: seq<string>)
    requires c in classes.entries
    ensures 1 <= |r| <= 2
    ensures r[|r| - 1] == "@" + c + " = " + Join(" ", Exported(classes.entries[c].items, font.exported))
    ensures |r| == 2 <==> exists g :: g in classes.entries[c].items && g !in font.exported
  {
    var items := classes.entries[c].items;
    var missing := Missing(items, font.exported);
    assert missing != [] ==> missing[0] in missing;
    (if missing == [] then [] else [MissingWarning(missing, "@" + c, NoLocation)])
      + ["@" + c + " = " + Join(" ", Exported(items, font.exported))]
  }

  /** The reports of the classes `names`, one after the other. */
  function ClassDumps(names: seq<string>, classes: ClassTable, font: Font): seq<string>
    requires forall c :: c in names ==> c in classes.entries
  {
    if names == [] then [] else ClassDump(names[0], classes, font) + ClassDumps(names[1..], classes, font)
  }

  /** `ShowClass` on a defined class reports exactly its class dump. */
  lemma ShowDefinedClass(c: string, classes: ClassTable, font: Font, re: Regex)
    requires c in classes.entries
    ensures ShowClassMessages(ClassSelector(c), classes, font, re) == Ok(ClassDump(c, classes, font))
  {
    var sel := ClassSelector(c);
    var items := classes.entries[c].items;
    assert AsText(sel) == Ok("@" + c + "");
    assert "@" + c + "" == "@" + c;
    SuffixAllNone(items);
    assert BaseNames(sel.selector, sel.location, classes, font, re) == Ok(Resolution(items, []));
    var kept := ExistenceFilter(sel, items, font);
    assert kept.Ok?;
    assert Resolve(sel, classes, font, re, true) == Ok(Resolution(kept.value.glyphs, [] + kept.value.warnings));
    assert [] + kept.value.warnings == kept.value.warnings;
  }

  /**
   * Over defined classes `DumpClasses` never fails, and reports class after
   * class in the order given: each class's glyph line, preceded by one
   * warning exactly when some of its glyphs are missing from the font.
   */
  lemma {:induction false} DumpClassesSucceeds(classes: ClassTable, font: Font, re: Regex, names: seq<string>)
    requires forall c :: c in names ==> c in classes.entries
    ensures DumpClassesMessages(classes, font, re, names) == Ok(ClassDumps(names, classes, font))
    ensures |names| <= |ClassDumps(names, classes, font)| <= 2 * |names|
  {
    if names != [] {
      ShowDefinedClass(names[0], classes, font, re);
      DumpClassesSucceeds(classes, font, re, names[1..]);
      assert ShowClassOf(classes, font, re)(names[0]) == Ok(ClassDump(names[0], classes, font));
    }
  }

  /** In a well-formed table every listed class is defined, so `DumpClasses` succeeds. */
  lemma DumpAllClassesSucceeds(classes: ClassTable, font: Font, re: Regex)
    requires classes.Valid()
    ensures DumpClassesMessages(classes, font, re, classes.names).Ok?
  {
    DumpClassesSucceeds(classes, font, re, classes.names);
  }

  /** `DumpClasses.action`: given the parser, it changes nothing. */
  method DumpClasses(p: FeeParser) returns (r: Result<seq<string>, ResolveError>)
    ensures r == DumpClassesMessages(p.namedClasses, p.font, p.re, p.namedClasses.names)
  {
    r := ShowEachClass(p.namedClasses.names, ShowClassOf(p.namedClasses, p.font, p.re));
  }

  /** The loop of `DumpClasses.action`: `show` on each class in turn. */
  method ShowEachClass<E>(names: seq<string>, show: string -> Result<seq<string>, E>)
    returns (r: Result<seq<string>, E>)
    ensures r == ConcatMessages(names, show)
  {
    var msgs: seq<string> := [];
    var i := 0;
    assert names[0..] == names;
    var all := ConcatMessages(names, show);
    if all.Ok? {
      assert msgs + all.value == all.value;
    }
    while i < |names|
      invariant 0 <= i <= |names|
      invariant all == (var rest := ConcatMessages(names[i..], show);
                        if rest.Ok? then Ok(msgs + rest.value) else rest)
    {
      var shown := show(names[i]);
      assert names[i..][0] == names[i];
      assert names[i..][1..] == names[i + 1..];
      if shown.Err? {
        return Err(shown.error);
      }
      var rest := ConcatMessages(names[i + 1..], show);
      if rest.Ok? {
        assert msgs + (shown.value + rest.value) == (msgs + shown.value) + rest.value;
      }
      msgs := msgs + shown.value;
      i := i + 1;
    }
    assert names[i..] == [];
    assert msgs + [] == msgs;
    r := Ok(msgs);
  }
}
