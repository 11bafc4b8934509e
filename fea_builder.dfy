/**
 * The builder behind the AFDKO feature-file front end: the callbacks the
 * external feature-file parser makes while it walks a file, turning it into
 * routines (lookups) and features.
 *
 * Routines are objects the callbacks share and update in place; the model
 * keeps them in an arena `arena` and refers to them by index, so that
 * `ff.routines`, the feature lists and `currentRoutine` alias them as the
 * Python references do.  Each callback is specified by a function from the
 * old builder state to the new one (plus the exception it raises, if any);
 * the class `FeaParser` carries out the callbacks on its fields.
 */
module FeaBuilder {
  import opened Wrappers
  import opened Seqs
  import opened Text

  /** A parser location `(file, line, column)`. */
  datatype Location = Location(file: string, line: int, column: int)

  /** `"%s:%i:%i" % location`. */
  function LocationText(loc: Location): string
  {
    loc.file + ":" + IntToDecimal(loc.line) + ":" + IntToDecimal(loc.column)
  }

  datatype Anchor = Anchor(x: int, y: int)

  /** The value records the feature-file parser hands over; passed through untouched. */
  datatype ValueRecord = ValueRecord(xPlacement: int, yPlacement: int, xAdvance: int, yAdvance: int)

  /** A mark class: its name, the anchor of each of its definitions, its glyphs. */
  datatype MarkClass = MarkClass(name: string, definitionAnchors: seq<Anchor>, glyphs: seq<string>)

  /** The rule records, with the fields these callbacks fill in. */
  datatype RuleBody =
    | Substitution(input: seq<seq<string>>, replacement: seq<seq<string>>,
                   precontext: seq<seq<string>>, postcontext: seq<seq<string>>, reverse: bool)
    | Chaining(input: seq<seq<string>>, precontext: seq<seq<string>>, postcontext: seq<seq<string>>,
               lookups: seq<Option<seq<nat>>>)
    | Positioning(glyphs: seq<seq<string>>, valuerecords: seq<ValueRecord>,
                  precontext: seq<seq<string>>, postcontext: seq<seq<string>>)
    | Attachment(baseName: string, markName: string, bases: map<string, Anchor>, marks: map<string, Anchor>)

  /** The language list in force: `None` or `[(script, language)]`. */
  type Languages = Option<seq<(string, string)>>

  datatype Rule = Rule(body: RuleBody, address: string, languages: Languages, flags: int)

  /** A routine object: its name, its address and its rules. */
  datatype RoutineData = RoutineData(name: string, address: string, rules: seq<Rule>)

  /** The exceptions the callbacks raise. */
  datatype BuildError =
    | UndefinedRoutine(name: string)                 // "Reference to undefined routine <name>"
    | AmbiguousRoutine(name: string)                 // "This can't happen"
    | NotInFeature                                   // "Huh?"
    | NoScript                                       // indexing `currentLanguage` when it is None
    | NoMarks                                        // `s` unbound after an empty mark loop
    | MarkClassDefinitions(markClass: string, count: nat)  // the `assert` on the definitions
    | EmptyFeature(tag: string)                      // `del ...[-1]` on an empty feature list

  /**
   * The builder state: the routine objects, `ff.routines`, `ff.features`,
   * and the parser's `currentFeature`, `currentRoutine`,
   * `currentRoutineFlag`, `gensym` and `currentLanguage`.
   */
  datatype BuilderState = BuilderState(
    arena: seq<RoutineData>,
    routines: seq<nat>,
    features: map<string, seq<nat>>,
    currentFeature: Option<string>,
    currentRoutine: Option<nat>,
    routineFlag: int,
    gensym: int,
    currentLanguage: Languages)

  /** Every entry of `ids` points at one of the first `n` routine objects. */
  ghost predicate Refers(ids: seq<nat>, n: nat)
  {
    forall i :: 0 <= i < |ids| ==> ids[i] < n
  }

  /** Every reference points at a routine object, and `ff.routines` holds each routine once. */
  ghost predicate Valid(s: BuilderState)
  {
    && Refers(s.routines, |s.arena|)
    && Distinct(s.routines)
    && (forall tag :: tag in s.features ==> Refers(s.features[tag], |s.arena|))
    && (s.currentRoutine.Some? ==> s.currentRoutine.value < |s.arena|)
    && s.gensym >= 1
  }

  /** The state `__init__` sets up. */
  const Initial := BuilderState([], [], map[], None, None, 0, 1, None)

  /** `if self.currentFeature:` */
  predicate InFeature(s: BuilderState)
  {
    s.currentFeature.Some? && s.currentFeature.value != ""
  }

  /** The name of the `n`-th unnamed routine. */
  function UnnamedName(n: int): string
  {
    "unnamed_routine_" + IntToDecimal(n)
  }

  /** Different counter values name different routines. */
  lemma UnnamedNamesDistinct(m: int, n: int)
    requires m != n
    ensures UnnamedName(m) != UnnamedName(n)
  {
    IntToDecimalInjective(m, n);
    var prefix := "unnamed_routine_";
    assert (prefix + IntToDecimal(m))[|prefix|..] == IntToDecimal(m);
    assert (prefix + IntToDecimal(n))[|prefix|..] == IntToDecimal(n);
  }

  /** `ff.addFeature(tag, routines)`: the routines go at the end of the tag's list. */
  function AddToFeature(features: map<string, seq<nat>>, tag: string, ids: seq<nat>): (r: map<string, seq<nat>>)
    ensures tag in r && r[tag] == (if tag in features then features[tag] else []) + ids
    ensures forall t :: t != tag ==> (t in r <==> t in features) && (t in features ==> r[t] == features[t])
  {
    if tag in features then features[tag := features[tag] + ids] else features[tag := ids]
  }

  // ---------------------------------------------------------------------
  // Looking up routines by name

  /** The routines of `ff.routines` with that name, in order. */
  function Candidates(arena: seq<RoutineData>, ids: seq<nat>, name: string): (r: seq<nat>)
    requires Refers(ids, |arena|)
    ensures forall id :: id in r <==> id in ids && id < |arena| && arena[id].name == name
    ensures IsSubsequence(r, ids)
  {
    if ids == [] then []
    else if arena[ids[0]].name == name then
      var rest := Candidates(arena, ids[1..], name);
      [ids[0]] + rest
    else
      var rest := Candidates(arena, ids[1..], name);
      SubsequenceOfTail(rest, ids);
      rest
  }

  /** Two candidates exactly when two positions of the list carry the name. */
  lemma CandidatesCount(arena: seq<RoutineData>, ids: seq<nat>, name: string)
    requires Refers(ids, |arena|)
    ensures |Candidates(arena, ids, name)| >= 2 <==>
      exists i, j :: 0 <= i < j < |ids| && arena[ids[i]].name == name && arena[ids[j]].name == name
  {
    if |Candidates(arena, ids, name)| >= 2 {
      TwoCandidatesHaveWitnesses(arena, ids, name);
    }
    if exists i, j :: 0 <= i < j < |ids| && arena[ids[i]].name == name && arena[ids[j]].name == name {
      var i, j :| 0 <= i < j < |ids| && arena[ids[i]].name == name && arena[ids[j]].name == name;
      WitnessesGiveTwoCandidates(arena, ids, name, i, j);
    }
  }

  lemma {:induction false} TwoCandidatesHaveWitnesses(arena: seq<RoutineData>, ids: seq<nat>, name: string)
    requires Refers(ids, |arena|) && |Candidates(arena, ids, name)| >= 2
    ensures exists i, j :: 0 <= i < j < |ids| && arena[ids[i]].name == name && arena[ids[j]].name == name
  {
    var tail := ids[1..];
    var c := Candidates(arena, tail, name);
    if arena[ids[0]].name == name {
      assert c[0] in c;
      assert c[0] in tail;
      var j :| 0 <= j < |tail| && tail[j] == c[0];
      assert ids[j + 1] == c[0];
      assert arena[ids[0]].name == name && arena[ids[j + 1]].name == name;
    } else {
      TwoCandidatesHaveWitnesses(arena, tail, name);
      var i, j :| 0 <= i < j < |tail| && arena[tail[i]].name == name && arena[tail[j]].name == name;
      assert ids[i + 1] == tail[i] && ids[j + 1] == tail[j];
    }
  }

  lemma {:induction false} WitnessesGiveTwoCandidates(arena: seq<RoutineData>, ids: seq<nat>, name: string, i: nat, j: nat)
    requires Refers(ids, |arena|) && i < j < |ids|
    requires arena[ids[i]].name == name && arena[ids[j]].name == name
    ensures |Candidates(arena, ids, name)| >= 2
  {
    var tail := ids[1..];
    assert tail[j - 1] == ids[j];
    if i == 0 {
      assert tail[j - 1] in tail;
      assert tail[j - 1] in Candidates(arena, tail, name);
    } else {
      assert tail[i - 1] == ids[i];
      WitnessesGiveTwoCandidates(arena, tail, name, i - 1, j - 1);
    }
  }

  /** `find_named_routine`. */
  function FindNamedRoutine(arena: seq<RoutineData>, ids: seq<nat>, name: string): (r: Result<nat, BuildError>)
    requires Refers(ids, |arena|)
    ensures r.Ok? ==> r.value < |arena|
  {
    var candidates := Candidates(arena, ids, name);
    if candidates == [] then Err(UndefinedRoutine(name))
    else if |candidates| > 1 then Err(AmbiguousRoutine(name))
    else
      assert candidates[0] in candidates;
      Ok(candidates[0])
  }

  /**
   * The lookup succeeds exactly when one entry of `ff.routines` has the
   * name, and returns that routine; no entry is "undefined routine", two or
   * more "This can't happen".
   */
  lemma FindNamedRoutineUnique(arena: seq<RoutineData>, ids: seq<nat>, name: string)
    requires Refers(ids, |arena|)
    ensures var r := FindNamedRoutine(arena, ids, name);
      && (r == Err(UndefinedRoutine(name)) <==> forall id :: id in ids ==> arena[id].name != name)
      && (r == Err(AmbiguousRoutine(name)) <==>
            exists i, j :: 0 <= i < j < |ids| && arena[ids[i]].name == name && arena[ids[j]].name == name)
      && (r.Ok? ==>
            && r.value in ids && arena[r.value].name == name
            && forall i :: 0 <= i < |ids| && arena[ids[i]].name == name ==> ids[i] == r.value)
  {
    CandidatesCount(arena, ids, name);
    var c := Candidates(arena, ids, name);
    if c != [] {
      assert c[0] in c;
    }
    if |c| == 1 {
      forall i | 0 <= i < |ids| && arena[ids[i]].name == name
        ensures ids[i] == c[0]
      {
        assert ids[i] in c;
      }
    }
  }

  // ---------------------------------------------------------------------
  // Routine state transitions

  /** The first position of `x`: Python's `list.index`. */
  function IndexOf(xs: seq<nat>, x: nat): (i: nat)
    requires x in xs
    ensures i < |xs| && xs[i] == x && x !in xs[..i]
  {
    if xs[0] == x then 0
    else
      var j := IndexOf(xs[1..], x);
      assert xs[1..][..j] == xs[1..j + 1];
      1 + j
  }

  /** Removing one entry keeps the others, once each. */
  lemma RemoveAtKeepsDistinct(xs: seq<nat>, i: nat, n: nat)
    requires i < |xs| && Distinct(xs) && Refers(xs, n)
    ensures Distinct(xs[..i] + xs[i + 1..]) && Refers(xs[..i] + xs[i + 1..], n)
  {
    var r := xs[..i] + xs[i + 1..];
    assert forall k :: 0 <= k < |r| ==> r[k] == (if k < i then xs[k] else xs[k + 1]);
  }

  /**
   * `_discard_empty_routine`: inside a feature, a current routine with no
   * rules that is in `ff.routines` is taken out of it, and the last entry
   * of the feature's list goes with it.
   */
  function Discard(s: BuilderState): (r: (BuilderState, Option<BuildError>))
    requires Valid(s)
    ensures Valid(r.0)
    ensures r.0.arena == s.arena && r.0.currentRoutine == s.currentRoutine && r.0.gensym == s.gensym
  {
    if !InFeature(s) || s.currentRoutine.None? then (s, None)
    else
      var cr := s.currentRoutine.value;
      if s.arena[cr].rules != [] || cr !in s.routines then (s, None)
      else
        var i := IndexOf(s.routines, cr);
        RemoveAtKeepsDistinct(s.routines, i, |s.arena|);
        var left := s.(routines := s.routines[..i] + s.routines[i + 1..]);
        var tag := s.currentFeature.value;
        if tag !in s.features then (left, None)
        else if s.features[tag] == [] then (left, Some(EmptyFeature(tag)))
        else (left.(features := s.features[tag := s.features[tag][..|s.features[tag]| - 1]]), None)
  }

  /** `_start_routine(location, name)`: a `None` or empty name is generated. */
  function Start(s: BuilderState, loc: Location, name: Option<string>): (r: (BuilderState, Option<BuildError>))
    requires Valid(s)
    ensures Valid(r.0)
    ensures r.0.gensym == s.gensym || r.0.gensym == s.gensym + 1
    ensures r.1.None? ==> r.0.currentRoutine.Some?
  {
    var (d, err) := Discard(s);
    if err.Some? then (d, err)
    else (Opened(d, loc, name), None)
  }

  /** The routine `_start_routine` creates, placed once the empty one is discarded. */
  function Opened(d: BuilderState, loc: Location, name: Option<string>): (r: BuilderState)
    requires Valid(d)
    ensures Valid(r) && r.currentRoutine.Some?
    ensures r.gensym == d.gensym || r.gensym == d.gensym + 1
  {
    var generated := name.None? || name.value == "";
    var routine := RoutineData(if generated then UnnamedName(d.gensym) else name.value, LocationText(loc), []);
    Placed(d, routine, if generated then d.gensym + 1 else d.gensym)
  }

  /**
   * The new routine object made current with flag 0, referenced from the
   * open feature or else from `ff.routines`.
   */
  function Placed(d: BuilderState, routine: RoutineData, gensym: int): (r: BuilderState)
    requires Valid(d) && gensym >= 1
    ensures Valid(r)
    ensures r.currentRoutine == Some(|d.arena|) && r.gensym == gensym
  {
    var id := |d.arena|;
    var begun := d.(arena := d.arena + [routine], currentRoutine := Some(id), gensym := gensym, routineFlag := 0);
    RefersGrows(d.routines, id);
    forall tag | tag in d.features
      ensures Refers(d.features[tag], id + 1)
    {
      RefersGrows(d.features[tag], id);
    }
    if InFeature(d) then
      var tag := d.currentFeature.value;
      var features := AddToFeature(d.features, tag, [id]);
      assert Refers(features[tag], id + 1) by {
        if tag in d.features {
          RefersGrows(d.features[tag], id);
        }
      }
      begun.(features := features)
    else
      AppendFresh(d.routines, id);
      begun.(routines := d.routines + [id])
  }

  /** References into `n` routines, and the new routine `n`. */
  lemma RefersGrows(ids: seq<nat>, n: nat)
    requires Refers(ids, n)
    ensures Refers(ids, n + 1) && Refers(ids + [n], n + 1)
  {
  }

  /** The new routine is not yet in `ff.routines`. */
  lemma AppendFresh(ids: seq<nat>, n: nat)
    requires Refers(ids, n) && Distinct(ids)
    ensures Distinct(ids + [n])
  {
  }

  /** `_start_routine_if_necessary`. */
  function StartIfNecessary(s: BuilderState, loc: Location): (r: (BuilderState, Option<BuildError>))
    requires Valid(s)
    ensures Valid(r.0)
    ensures r.0.gensym >= s.gensym
    ensures r.1.None? ==> r.0.currentRoutine.Some?
  {
    if s.currentRoutine.None? then Start(s, loc, Some("")) else (s, None)
  }

  /** Every rule given the routine's flag. */
  function Stamped(rules: seq<Rule>, flag: int): (r: seq<Rule>)
    ensures |r| == |rules|
    ensures forall i :: 0 <= i < |rules| ==> r[i] == rules[i].(flags := flag)
  {
    seq(|rules|, i requires 0 <= i < |rules| => rules[i].(flags := flag))
  }

  /** `end_lookup_block`: the current routine's rules take `currentRoutineFlag`. */
  function EndLookupBlock(s: BuilderState): (r: BuilderState)
    requires Valid(s)
    ensures Valid(r)
    ensures r.gensym == s.gensym
  {
    if s.currentRoutine.None? then s
    else
      var cr := s.currentRoutine.value;
      s.(arena := s.arena[cr := s.arena[cr].(rules := Stamped(s.arena[cr].rules, s.routineFlag))])
  }

  /** `end_feature`. */
  function EndFeature(s: BuilderState): (r: (BuilderState, Option<BuildError>))
    requires Valid(s)
    ensures Valid(r.0)
    ensures r.0.gensym >= s.gensym
  {
    var (d, err) := Discard(s);
    if err.Some? then (d, err)
    else (EndLookupBlock(d.(currentFeature := None)), None)
  }

  /** `set_lookup_flag(location, value, ...)`. */
  function SetLookupFlag(s: BuilderState, loc: Location, value: int): (r: (BuilderState, Option<BuildError>))
    requires Valid(s)
    ensures Valid(r.0)
    ensures r.0.gensym >= s.gensym
  {
    if s.currentRoutine.Some? && value == s.routineFlag then (s, None)
    else if InFeature(s) then
      var (d, err) := Discard(EndLookupBlock(s));
      if err.Some? then (d, err)
      else
        var (started, err2) := Start(d, loc, None);
        if err2.Some? then (started, err2)
        else (started.(routineFlag := value), None)
    else (s.(routineFlag := value), None)
  }

  /** `add_lookup_call(name)`. */
  function AddLookupCall(s: BuilderState, name: string): (r: (BuilderState, Option<BuildError>))
    requires Valid(s)
    ensures Valid(r.0)
    ensures r.0.gensym >= s.gensym
  {
    match FindNamedRoutine(s.arena, s.routines, name)
    case Err(e) => (s, Some(e))
    case Ok(id) =>
      if !InFeature(s) then (s, Some(NotInFeature))
      else
        var (d, err) := Discard(s);
        if err.Some? then (d, err)
        else (d.(features := AddToFeature(d.features, s.currentFeature.value, [id])), None)
  }

  /** `set_language`: the script of the current language list, with the new language. */
  function SetLanguage(s: BuilderState, language: string): (r: (BuilderState, Option<BuildError>))
    ensures r.1.None? <==> s.currentLanguage.Some? && s.currentLanguage.value != []
    ensures r.1.None? ==> r.0 == s.(currentLanguage := Some([(s.currentLanguage.value[0].0, language)]))
    ensures r.1.Some? ==> r.0 == s
  {
    if s.currentLanguage.None? || s.currentLanguage.value == [] then (s, Some(NoScript))
    else (s.(currentLanguage := Some([(s.currentLanguage.value[0].0, language)])), None)
  }

  // ---------------------------------------------------------------------
  // Rules

  /** The rule as the `add_*` callback builds it: its address and the language list in force. */
  function AppendRule(s: BuilderState, loc: Location, body: RuleBody): (r: BuilderState)
    requires Valid(s) && s.currentRoutine.Some?
    ensures Valid(r)
    ensures r.gensym == s.gensym
  {
    var cr := s.currentRoutine.value;
    var rule := Rule(body, LocationText(loc), s.currentLanguage, 0);
    s.(arena := s.arena[cr := s.arena[cr].(rules := s.arena[cr].rules + [rule])])
  }

  /** An `add_*` callback: open a routine if none is current, then add one rule built from `body`. */
  function AddRule(s: BuilderState, loc: Location, body: Result<RuleBody, BuildError>): (r: (BuilderState, Option<BuildError>))
    requires Valid(s)
    ensures Valid(r.0)
    ensures r.0.gensym >= s.gensym
  {
    var (d, err) := StartIfNecessary(s, loc);
    if err.Some? then (d, err)
    else if body.Err? then (d, Some(body.error))
    else (AppendRule(d, loc, body.value), None)
  }

  /** `[list(mapping.keys())]` to `[list(mapping.values())]`. */
  function SingleSubst(prefix: seq<seq<string>>, suffix: seq<seq<string>>, mapping: seq<(string, string)>, reverse: bool)
    : (r: RuleBody)
    ensures r.Substitution? && |r.input| == 1 && |r.replacement| == 1
    ensures |r.input[0]| == |r.replacement[0]| == |mapping|
    ensures forall i :: 0 <= i < |mapping| ==> (r.input[0][i], r.replacement[0][i]) == mapping[i]
    ensures r.precontext == prefix && r.postcontext == suffix && r.reverse == reverse
  {
    Substitution([seq(|mapping|, i requires 0 <= i < |mapping| => mapping[i].0)],
                 [seq(|mapping|, i requires 0 <= i < |mapping| => mapping[i].1)],
                 prefix, suffix, reverse)
  }

  /** `add_multiple_subst`: one glyph replaced by a sequence, one glyph per position. */
  function MultipleSubst(prefix: seq<seq<string>>, glyph: string, suffix: seq<seq<string>>, replacements: seq<string>)
    : (r: RuleBody)
    ensures r.Substitution? && r.input == [[glyph]] && !r.reverse
    ensures |r.replacement| == |replacements| && forall i :: 0 <= i < |replacements| ==> r.replacement[i] == [replacements[i]]
  {
    Substitution([[glyph]], seq(|replacements|, i requires 0 <= i < |replacements| => [replacements[i]]),
                 prefix, suffix, false)
  }

  function AlternateSubst(prefix: seq<seq<string>>, glyph: string, suffix: seq<seq<string>>, replacement: seq<string>)
    : RuleBody
  {
    Substitution([[glyph]], [replacement], prefix, suffix, false)
  }

  function LigatureSubst(prefix: seq<seq<string>>, glyphs: seq<seq<string>>, suffix: seq<seq<string>>, replacement: string)
    : RuleBody
  {
    Substitution(glyphs, [[replacement]], prefix, suffix, false)
  }

  /** `add_single_pos`: the glyph sets and the value records of the pairs, in order. */
  function SinglePos(prefix: seq<seq<string>>, suffix: seq<seq<string>>, pos: seq<(seq<string>, ValueRecord)>)
    : (r: RuleBody)
    ensures r.Positioning? && |r.glyphs| == |r.valuerecords| == |pos|
    ensures forall i :: 0 <= i < |pos| ==> (r.glyphs[i], r.valuerecords[i]) == pos[i]
  {
    Positioning(seq(|pos|, i requires 0 <= i < |pos| => pos[i].0),
                seq(|pos|, i requires 0 <= i < |pos| => pos[i].1), prefix, suffix)
  }

  function SpecificPairPos(glyph1: string, value1: ValueRecord, glyph2: string, value2: ValueRecord): RuleBody
  {
    Positioning([[glyph1], [glyph2]], [value1, value2], [], [])
  }

  function ClassPairPos(class1: seq<string>, value1: ValueRecord, class2: seq<string>, value2: ValueRecord): RuleBody
  {
    Positioning([class1, class2], [value1, value2], [], [])
  }

  /** Every glyph of the class mapped to the anchor's position. */
  function AnchorMap(glyphs: seq<string>, anchor: Anchor): (m: map<string, Anchor>)
    ensures forall g :: g in m <==> g in glyphs
    ensures forall g :: g in m ==> m[g] == anchor
  {
    map g | g in glyphs :: anchor
  }

  /** `add_cursive_pos`: a missing entry or exit anchor leaves its side empty. */
  function CursivePos(glyphclass: seq<string>, entry: Option<Anchor>, exit: Option<Anchor>): (r: RuleBody)
    ensures r.Attachment? && r.baseName == "cursive_entry" && r.markName == "cursive_exit"
    ensures entry.None? ==> r.bases == map[]
    ensures entry.Some? ==> forall g :: (g in r.bases <==> g in glyphclass) && (g in r.bases ==> r.bases[g] == entry.value)
    ensures exit.None? ==> r.marks == map[]
    ensures exit.Some? ==> forall g :: (g in r.marks <==> g in glyphclass) && (g in r.marks ==> r.marks[g] == exit.value)
  {
    Attachment("cursive_entry", "cursive_exit",
               if entry.Some? then AnchorMap(glyphclass, entry.value) else map[],
               if exit.Some? then AnchorMap(glyphclass, exit.value) else map[])
  }

  /** The attachment rule one `(base anchor, mark class)` pair builds. */
  function MarkAttachment(bases: seq<string>, baseAnchor: Anchor, markClass: MarkClass): RuleBody
    requires |markClass.definitionAnchors| >= 1
  {
    Attachment(markClass.name, markClass.name, AnchorMap(bases, baseAnchor),
               AnchorMap(markClass.glyphs, markClass.definitionAnchors[0]))
  }

  /** A mark class must have exactly one definition. */
  predicate SingleDefinition(m: (Anchor, MarkClass))
  {
    |m.1.definitionAnchors| == 1
  }

  /**
   * `add_mark_base_pos`: every mark class is checked in turn, but only the
   * rule of the last pair survives the loop to be added.
   */
  function MarkBase(bases: seq<string>, marks: seq<(Anchor, MarkClass)>): (r: Result<RuleBody, BuildError>)
    ensures r.Ok? <==> marks != [] && forall i :: 0 <= i < |marks| ==> SingleDefinition(marks[i])
    ensures r.Ok? ==> r.value == MarkAttachment(bases, marks[|marks| - 1].0, marks[|marks| - 1].1)
    ensures marks == [] ==> r == Err(NoMarks)
    ensures forall i :: 0 <= i < |marks| && !SingleDefinition(marks[i])
                        && (forall j :: 0 <= j < i ==> SingleDefinition(marks[j])) ==>
      r == Err(MarkClassDefinitions(marks[i].1.name, |marks[i].1.definitionAnchors|))
  {
    if marks == [] then Err(NoMarks)
    else if !SingleDefinition(marks[0]) then
      Err(MarkClassDefinitions(marks[0].1.name, |marks[0].1.definitionAnchors|))
    else if |marks| == 1 then Ok(MarkAttachment(bases, marks[0].0, marks[0].1))
    else
      var rest := MarkBase(bases, marks[1..]);
      assert forall i :: 1 <= i < |marks| ==> marks[i] == marks[1..][i - 1];
      rest
  }

  /** The routines a list of lookup names refers to. */
  function FindAll(arena: seq<RoutineData>, ids: seq<nat>, names: seq<string>): (r: Result<seq<nat>, BuildError>)
    requires Refers(ids, |arena|)
    ensures r.Ok? <==> forall i :: 0 <= i < |names| ==> FindNamedRoutine(arena, ids, names[i]).Ok?
    ensures r.Ok? ==>
      && |r.value| == |names|
      && forall i :: 0 <= i < |names| ==> FindNamedRoutine(arena, ids, names[i]) == Ok(r.value[i])
  {
    if names == [] then Ok([])
    else
      var first :- FindNamedRoutine(arena, ids, names[0]);
      var rest :- FindAll(arena, ids, names[1..]);
      assert forall i :: 1 <= i < |names| ==> names[i] == names[1..][i - 1];
      Ok([first] + rest)
  }

  /** One position of a chaining rule: no lookups, or the routines named there. */
  function LookupPosition(arena: seq<RoutineData>, ids: seq<nat>, names: seq<string>)
    : (r: Result<Option<seq<nat>>, BuildError>)
    requires Refers(ids, |arena|)
    ensures names == [] ==> r == Ok(None)
    ensures names != [] ==> r.Ok? == FindAll(arena, ids, names).Ok?
    ensures names != [] && r.Ok? ==> r.value == Some(FindAll(arena, ids, names).value)
  {
    if names == [] then Ok(None)
    else
      var found :- FindAll(arena, ids, names);
      Ok(Some(found))
  }

  function ChainLookups(arena: seq<RoutineData>, ids: seq<nat>, lookups: seq<seq<string>>)
    : Result<seq<Option<seq<nat>>>, BuildError>
    requires Refers(ids, |arena|)
  {
    if lookups == [] then Ok([])
    else
      var first :- LookupPosition(arena, ids, lookups[0]);
      var rest :- ChainLookups(arena, ids, lookups[1..]);
      Ok([first] + rest)
  }

  /**
   * One entry per position, empty exactly where there are no lookups, and
   * failing exactly when some name of some position does not resolve.
   */
  lemma {:induction false} ChainLookupsMeaning(arena: seq<RoutineData>, ids: seq<nat>, lookups: seq<seq<string>>)
    requires Refers(ids, |arena|)
    ensures var r := ChainLookups(arena, ids, lookups);
      && (r.Ok? <==> forall i :: 0 <= i < |lookups| ==> LookupPosition(arena, ids, lookups[i]).Ok?)
      && (r.Ok? ==>
            && |r.value| == |lookups|
            && forall i :: 0 <= i < |lookups| ==>
                 && (r.value[i].None? <==> lookups[i] == [])
                 && (lookups[i] != [] ==> r.value[i] == Some(FindAll(arena, ids, lookups[i]).value)))
  {
    if lookups != [] {
      ChainLookupsMeaning(arena, ids, lookups[1..]);
      assert forall i :: 1 <= i < |lookups| ==> lookups[i] == lookups[1..][i - 1];
    }
  }

  /** `add_chain_context_subst` / `add_chain_context_pos`: lookups are resolved after the routine is opened. */
  function AddChainContext(s: BuilderState, loc: Location, prefix: seq<seq<string>>, glyphs: seq<seq<string>>,
                           suffix: seq<seq<string>>, lookups: seq<seq<string>>): (r: (BuilderState, Option<BuildError>))
    requires Valid(s)
    ensures Valid(r.0)
    ensures r.0.gensym >= s.gensym
  {
    var (d, err) := StartIfNecessary(s, loc);
    if err.Some? then (d, err)
    else
      match ChainLookups(d.arena, d.routines, lookups)
      case Err(e) => (d, Some(e))
      case Ok(found) => (AppendRule(d, loc, Chaining(glyphs, prefix, suffix, found)), None)
  }

  // ---------------------------------------------------------------------
  // Properties of the transitions

  /**
   * A new routine is named `unnamed_routine_<gensym>` when no name is
   * given, `gensym` then going up by one; it has flag 0, the address of the
   * location and no rules, and goes to the open feature or else to the end
   * of `ff.routines`.
   */
  lemma StartOpensRoutine(s: BuilderState, loc: Location, name: Option<string>)
    requires Valid(s)
    requires Start(s, loc, name).1.None?
    ensures var d := Discard(s).0;
      var r := Start(s, loc, name).0;
      var id := |d.arena|;
      && r.currentRoutine == Some(id)
      && r.arena == d.arena + [r.arena[id]]
      && r.arena[id].address == LocationText(loc) && r.arena[id].rules == []
      && r.routineFlag == 0
      && ((name.None? || name.value == "") ==> r.arena[id].name == UnnamedName(s.gensym) && r.gensym == s.gensym + 1)
      && ((name.Some? && name.value != "") ==> r.arena[id].name == name.value && r.gensym == s.gensym)
      && (InFeature(s) ==>
            && r.routines == d.routines
            && r.features[s.currentFeature.value]
               == (if s.currentFeature.value in d.features then d.features[s.currentFeature.value] else []) + [id])
      && (!InFeature(s) ==> r.routines == d.routines + [id] && r.features == d.features)
  {
    var d := Discard(s).0;
    var generated := name.None? || name.value == "";
    var routine := RoutineData(if generated then UnnamedName(d.gensym) else name.value, LocationText(loc), []);
    assert Start(s, loc, name).0 == Opened(d, loc, name) == Placed(d, routine, if generated then d.gensym + 1 else d.gensym);
  }

  /**
   * `_discard_empty_routine` changes nothing outside a feature, without a
   * current routine, when it has rules, or when it is not in
   * `ff.routines`; otherwise it removes it from `ff.routines` and drops the
   * last entry of the feature's list.
   */
  lemma DiscardCases(s: BuilderState)
    requires Valid(s)
    ensures var cr := s.currentRoutine;
      (!InFeature(s) || cr.None? || s.arena[cr.value].rules != [] || cr.value !in s.routines) ==> Discard(s) == (s, None)
    ensures var cr := s.currentRoutine;
      var r := Discard(s);
      (InFeature(s) && cr.Some? && s.arena[cr.value].rules == [] && cr.value in s.routines) ==>
        var i := IndexOf(s.routines, cr.value);
        var tag := s.currentFeature.value;
        && r.0.routines == s.routines[..i] + s.routines[i + 1..]
        && |r.0.routines| == |s.routines| - 1
        && multiset(r.0.routines) == multiset(s.routines) - multiset{cr.value}
        && (tag in s.features && s.features[tag] != [] ==> r.0.features[tag] == s.features[tag][..|s.features[tag]| - 1] && r.1.None?)
        && (tag in s.features && s.features[tag] == [] ==> r.1 == Some(EmptyFeature(tag)))
        && (tag !in s.features ==> r.0.features == s.features && r.1.None?)
  {
    var cr := s.currentRoutine;
    if InFeature(s) && cr.Some? && s.arena[cr.value].rules == [] && cr.value in s.routines {
      var i := IndexOf(s.routines, cr.value);
      var left := s.(routines := s.routines[..i] + s.routines[i + 1..]);
      var tag := s.currentFeature.value;
      assert Discard(s)
        == if tag !in s.features then (left, None)
           else if s.features[tag] == [] then (left, Some(EmptyFeature(tag)))
           else (left.(features := s.features[tag := s.features[tag][..|s.features[tag]| - 1]]), None);
      RemoveAtMultiset(s.routines, i);
    } else {
      assert Discard(s) == (s, None);
    }
  }

  /** Removing the entry at `i` removes one occurrence of it. */
  lemma RemoveAtMultiset(xs: seq<nat>, i: nat)
    requires i < |xs|
    ensures |xs[..i] + xs[i + 1..]| == |xs| - 1
    ensures multiset(xs[..i] + xs[i + 1..]) == multiset(xs) - multiset{xs[i]}
  {
    assert xs == xs[..i] + [xs[i]] + xs[i + 1..];
  }

  /** Discarding twice is discarding once. */
  lemma DiscardIdempotent(s: BuilderState)
    requires Valid(s) && Discard(s).1.None?
    ensures Discard(Discard(s).0) == (Discard(s).0, None)
  {
    var cr := s.currentRoutine;
    if InFeature(s) && cr.Some? && s.arena[cr.value].rules == [] && cr.value in s.routines {
      var i := IndexOf(s.routines, cr.value);
      assert cr.value !in s.routines[i + 1..] by {
        forall k | i + 1 <= k < |s.routines|
          ensures s.routines[k] != cr.value
        {
          assert s.routines[i] == cr.value;
        }
      }
    }
  }

  /**
   * An `add_*` callback adds exactly one rule, at the end of the current
   * routine (opened first when there was none), with the location's address
   * and the language list in force; every other routine is unchanged.
   */
  lemma AddRuleAppendsOne(s: BuilderState, loc: Location, body: RuleBody)
    requires Valid(s) && AddRule(s, loc, Ok(body)).1.None?
    ensures var d := StartIfNecessary(s, loc).0;
      var r := AddRule(s, loc, Ok(body)).0;
      var cr := d.currentRoutine.value;
      && (s.currentRoutine.Some? ==> d == s)
      && (s.currentRoutine.None? ==> d.arena[cr].rules == [])
      && r.currentRoutine == d.currentRoutine && |r.arena| == |d.arena|
      && r.arena[cr].rules == d.arena[cr].rules + [Rule(body, LocationText(loc), s.currentLanguage, 0)]
      && r.arena[cr].name == d.arena[cr].name
      && (forall k :: 0 <= k < |r.arena| && k != cr ==> r.arena[k] == d.arena[k])
      && r.routines == d.routines && r.features == d.features
  {
  }

  /**
   * `set_lookup_flag` with an open routine and an unchanged value does
   * nothing; outside a feature it only records the value; inside a feature
   * it stamps the current routine, discards it if it has no rules and is in
   * `ff.routines` (dropping the last entry of the feature's list with it),
   * and starts a fresh unnamed routine carrying the new value, listed at
   * the end of the feature and not in `ff.routines`.
   */
  lemma SetLookupFlagCases(s: BuilderState, loc: Location, value: int)
    requires Valid(s)
    ensures s.currentRoutine.Some? && value == s.routineFlag ==> SetLookupFlag(s, loc, value) == (s, None)
    ensures !(s.currentRoutine.Some? && value == s.routineFlag) && !InFeature(s) ==>
      SetLookupFlag(s, loc, value) == (s.(routineFlag := value), None)
    ensures !(s.currentRoutine.Some? && value == s.routineFlag) && InFeature(s) ==>
      var d := Discard(EndLookupBlock(s));
      && (d.1.Some? ==> SetLookupFlag(s, loc, value) == d)
      && (d.1.None? ==>
            var r := SetLookupFlag(s, loc, value);
            var tag := s.currentFeature.value;
            var id := |s.arena|;
            && r.1.None?
            && r.0.routineFlag == value
            && r.0.currentRoutine == Some(id) && r.0.arena == d.0.arena + [r.0.arena[id]]
            && r.0.arena[id] == RoutineData(UnnamedName(s.gensym), LocationText(loc), [])
            && r.0.gensym == s.gensym + 1
            && r.0.routines == d.0.routines
            && r.0.features == AddToFeature(d.0.features, tag, [id])
            && (s.currentRoutine.Some? ==>
                  r.0.arena[s.currentRoutine.value].rules == Stamped(s.arena[s.currentRoutine.value].rules, s.routineFlag)))
    ensures !(s.currentRoutine.Some? && value == s.routineFlag) && InFeature(s) && s.currentRoutine.Some? ==>
      var cr := s.currentRoutine.value;
      var d := Discard(EndLookupBlock(s));
      var tag := s.currentFeature.value;
      && (s.arena[cr].rules == [] && cr in s.routines ==>
            && multiset(d.0.routines) == multiset(s.routines) - multiset{cr}
            && (tag !in s.features ==> d.1.None? && d.0.features == s.features)
            && (tag in s.features && s.features[tag] == [] ==> d.1 == Some(EmptyFeature(tag)))
            && (tag in s.features && s.features[tag] != [] ==>
                  d.1.None? && d.0.features == s.features[tag := s.features[tag][..|s.features[tag]| - 1]]))
      && (s.arena[cr].rules != [] || cr !in s.routines ==> d == (EndLookupBlock(s), None))
  {
    if !(s.currentRoutine.Some? && value == s.routineFlag) && InFeature(s) {
      var e := EndLookupBlock(s);
      assert e.routines == s.routines && e.features == s.features && e.currentFeature == s.currentFeature;
      if s.currentRoutine.Some? {
        var cr := s.currentRoutine.value;
        assert |e.arena[cr].rules| == |s.arena[cr].rules|;
      }
      DiscardCases(e);
      var (d, err) := Discard(e);
      if err.None? {
        assert SetLookupFlag(s, loc, value) == (Start(d, loc, None).0.(routineFlag := value), Start(d, loc, None).1);
        DiscardIdempotent(e);
        StartOpensRoutine(d, loc, None);
        assert Start(d, loc, None).1.None?;
      }
    }
  }

  /**
   * After `end_feature` no feature is open and every rule of the current
   * routine carries `currentRoutineFlag`.
   */
  lemma EndFeatureCloses(s: BuilderState)
    requires Valid(s) && EndFeature(s).1.None?
    ensures var r := EndFeature(s).0;
      && r.currentFeature.None?
      && r.currentRoutine == s.currentRoutine
      && (s.currentRoutine.Some? ==>
            var rules := r.arena[s.currentRoutine.value].rules;
            && |rules| == |s.arena[s.currentRoutine.value].rules|
            && forall k :: 0 <= k < |rules| ==> rules[k].flags == s.routineFlag)
  {
  }

  /**
   * `add_chain_context_subst` adds exactly one chaining rule, at the end of
   * the current routine (opened first when there was none), whose lookups
   * are resolved against `ff.routines` as it stands once that routine is
   * opened; every other routine is unchanged.  A name that does not resolve
   * raises, leaving the opened routine without the rule.
   */
  lemma AddChainContextAppendsOne(s: BuilderState, loc: Location, prefix: seq<seq<string>>, glyphs: seq<seq<string>>,
                                  suffix: seq<seq<string>>, lookups: seq<seq<string>>)
    requires Valid(s) && StartIfNecessary(s, loc).1.None?
    ensures var d := StartIfNecessary(s, loc).0;
      var found := ChainLookups(d.arena, d.routines, lookups);
      var r := AddChainContext(s, loc, prefix, glyphs, suffix, lookups);
      var cr := d.currentRoutine.value;
      && (s.currentRoutine.Some? ==> d == s)
      && (s.currentRoutine.None? ==> d.arena[cr].rules == [])
      && (found.Err? ==> r == (d, Some(found.error)))
      && (found.Ok? ==>
            && r.1.None?
            && r.0.currentRoutine == d.currentRoutine && |r.0.arena| == |d.arena|
            && r.0.arena[cr].rules
               == d.arena[cr].rules + [Rule(Chaining(glyphs, prefix, suffix, found.value), LocationText(loc), s.currentLanguage, 0)]
            && r.0.arena[cr].name == d.arena[cr].name
            && (forall k :: 0 <= k < |r.0.arena| && k != cr ==> r.0.arena[k] == d.arena[k])
            && r.0.routines == d.routines && r.0.features == d.features)
  {
    var d := StartIfNecessary(s, loc).0;
    if s.currentRoutine.None? {
      StartOpensRoutine(s, loc, Some(""));
    }
    var found := ChainLookups(d.arena, d.routines, lookups);
    if found.Ok? {
      assert AddChainContext(s, loc, prefix, glyphs, suffix, lookups)
        == (AppendRule(d, loc, Chaining(glyphs, prefix, suffix, found.value)), None);
    }
  }

  /**
   * `add_lookup_call` raises for an unknown or ambiguous name and, outside a
   * feature, "Huh?"; inside a feature the named routine is appended to the
   * feature's list.
   */
  lemma AddLookupCallCases(s: BuilderState, name: string)
    requires Valid(s)
    ensures FindNamedRoutine(s.arena, s.routines, name).Err? ==>
      AddLookupCall(s, name) == (s, Some(FindNamedRoutine(s.arena, s.routines, name).error))
    ensures FindNamedRoutine(s.arena, s.routines, name).Ok? && !InFeature(s) ==>
      AddLookupCall(s, name) == (s, Some(NotInFeature))
    ensures FindNamedRoutine(s.arena, s.routines, name).Ok? && AddLookupCall(s, name).1.None? ==>
      var tag := s.currentFeature.value;
      var list := AddLookupCall(s, name).0.features[tag];
      && InFeature(s)
      && |list| >= 1 && list[|list| - 1] == FindNamedRoutine(s.arena, s.routines, name).value
      && AddLookupCall(s, name).0.features == AddToFeature(Discard(s).0.features, tag, [list[|list| - 1]])
  {
  }

  /** The loop of `add_chain_context_subst` resolving each lookup position. */
  method ResolveLookups(arena: seq<RoutineData>, routines: seq<nat>, lookups: seq<seq<string>>)
    returns (r: Result<seq<Option<seq<nat>>>, BuildError>)
    requires Refers(routines, |arena|)
    ensures r == ChainLookups(arena, routines, lookups)
  {
    var found: seq<Option<seq<nat>>> := [];
    var i := 0;
    assert lookups[0..] == lookups;
    var all := ChainLookups(arena, routines, lookups);
    if all.Ok? {
      assert found + all.value == all.value;
    }
    while i < |lookups|
      invariant 0 <= i <= |lookups|
      invariant all == (var rest := ChainLookups(arena, routines, lookups[i..]);
                        if rest.Ok? then Ok(found + rest.value) else rest)
    {
      assert lookups[i..][0] == lookups[i];
      assert lookups[i..][1..] == lookups[i + 1..];
      var entry := LookupPosition(arena, routines, lookups[i]);
      if entry.Err? {
        return Err(entry.error);
      }
      var rest := ChainLookups(arena, routines, lookups[i + 1..]);
      if rest.Ok? {
        assert found + ([entry.value] + rest.value) == (found + [entry.value]) + rest.value;
      }
      found := found + [entry.value];
      i := i + 1;
    }
    assert lookups[i..] == [];
    assert found + [] == found;
    r := Ok(found);
  }

  /** The loop of `add_mark_base_pos` checking each mark class; the last one wins. */
  method CheckMarks(bases: seq<string>, marks: seq<(Anchor, MarkClass)>) returns (r: Result<RuleBody, BuildError>)
    ensures r == MarkBase(bases, marks)
  {
    var last: Option<RuleBody> := None;
    var i := 0;
    while i < |marks|
      invariant 0 <= i <= |marks|
      invariant forall j :: 0 <= j < i ==> SingleDefinition(marks[j])
      invariant i == 0 <==> last.None?
      invariant i > 0 ==> last == Some(MarkAttachment(bases, marks[i - 1].0, marks[i - 1].1))
    {
      if |marks[i].1.definitionAnchors| != 1 {
        return Err(MarkClassDefinitions(marks[i].1.name, |marks[i].1.definitionAnchors|));
      }
      last := Some(MarkAttachment(bases, marks[i].0, marks[i].1));
      i := i + 1;
    }
    if last.None? {
      return Err(NoMarks);
    }
    r := Ok(last.value);
  }

  // ---------------------------------------------------------------------
  // The builder object

  /** `FeaParser`: the callbacks, carried out on the builder's fields. */
  class FeaParser {
    var arena: seq<RoutineData>
    var routines: seq<nat>
    var features: map<string, seq<nat>>
    var currentFeature: Option<string>
    var currentRoutine: Option<nat>
    var routineFlag: int
    var gensym: int
    var currentLanguage: Languages

    /** The builder state the fields hold. */
    function Snapshot(): BuilderState
      reads this
    {
      BuilderState(arena, routines, features, currentFeature, currentRoutine, routineFlag, gensym, currentLanguage)
    }

    constructor ()
      ensures Snapshot() == Initial && Valid(Snapshot())
    {
      arena := [];
      routines := [];
      features := map[];
      currentFeature := None;
      currentRoutine := None;
      routineFlag := 0;
      gensym := 1;
      currentLanguage := None;
    }

    /** `_discard_empty_routine`. */
    method DiscardEmptyRoutine() returns (err: Option<BuildError>)
      requires Valid(Snapshot())
      modifies this
      ensures (Snapshot(), err) == Discard(old(Snapshot()))
    {
      err := None;
      if currentFeature.None? || currentFeature.value == "" || currentRoutine.None? {
        return;
      }
      var cr := currentRoutine.value;
      if arena[cr].rules != [] || cr !in routines {
        return;
      }
      var i := IndexOf(routines, cr);
      routines := routines[..i] + routines[i + 1..];
      var tag := currentFeature.value;
      if tag in features {
        if features[tag] == [] {
          err := Some(EmptyFeature(tag));
          return;
        }
        features := features[tag := features[tag][..|features[tag]| - 1]];
      }
    }

    /** `_start_routine(location, name)`. */
    method StartRoutine(loc: Location, name: Option<string>) returns (err: Option<BuildError>)
      requires Valid(Snapshot())
      modifies this
      ensures (Snapshot(), err) == Start(old(Snapshot()), loc, name)
    {
      ghost var s0 := Snapshot();
      err := DiscardEmptyRoutine();
      if err.Some? {
        return;
      }
      ghost var d := Snapshot();
      assert Discard(s0) == (d, None);
      var generated := name.None? || name.value == "";
      var routine := RoutineData(if generated then UnnamedName(gensym) else name.value, LocationText(loc), []);
      var next := if generated then gensym + 1 else gensym;
      assert Start(s0, loc, name) == (Opened(d, loc, name), None);
      assert Opened(d, loc, name) == Placed(d, routine, next);
      OpenRoutine(routine, next);
    }

    /** The second half of `_start_routine`: the new routine made current and referenced. */
    method OpenRoutine(routine: RoutineData, next: int)
      requires Valid(Snapshot()) && next >= 1
      modifies this
      ensures Snapshot() == Placed(old(Snapshot()), routine, next)
    {
      var id := |arena|;
      arena := arena + [routine];
      currentRoutine := Some(id);
      gensym := next;
      routineFlag := 0;
      if currentFeature.Some? && currentFeature.value != "" {
        features := AddToFeature(features, currentFeature.value, [id]);
      } else {
        routines := routines + [id];
      }
    }

    /** `_start_routine_if_necessary(location)`. */
    method StartRoutineIfNecessary(loc: Location) returns (err: Option<BuildError>)
      requires Valid(Snapshot())
      modifies this
      ensures (Snapshot(), err) == StartIfNecessary(old(Snapshot()), loc)
    {
      err := None;
      if currentRoutine.None? {
        err := StartRoutine(loc, Some(""));
      }
    }

    /** `start_lookup_block(location, name)`. */
    method StartLookupBlock(loc: Location, name: string) returns (err: Option<BuildError>)
      requires Valid(Snapshot())
      modifies this
      ensures (Snapshot(), err) == Start(old(Snapshot()), loc, Some(name))
    {
      err := StartRoutine(loc, Some(name));
    }

    /** `start_feature(location, name)`: only the current feature changes. */
    method StartFeature(loc: Location, name: string)
      modifies this
      ensures Snapshot() == old(Snapshot()).(currentFeature := Some(name))
    {
      currentFeature := Some(name);
    }

    /** `set_script(location, script)`: the default language of that script. */
    method SetScript(loc: Location, script: string)
      modifies this
      ensures Snapshot() == old(Snapshot()).(currentLanguage := Some([(script, "*")]))
    {
      currentLanguage := Some([(script, "*")]);
    }

    /** `set_language(location, language, ...)`. */
    method SetLanguageOf(loc: Location, language: string) returns (err: Option<BuildError>)
      modifies this
      ensures (Snapshot(), err) == SetLanguage(old(Snapshot()), language)
    {
      if currentLanguage.None? || currentLanguage.value == [] {
        return Some(NoScript);
      }
      currentLanguage := Some([(currentLanguage.value[0].0, language)]);
      err := None;
    }

    /** `self.currentRoutine.addRule(s)` with the rule the callback built. */
    method AppendToCurrent(loc: Location, body: RuleBody)
      requires Valid(Snapshot()) && currentRoutine.Some?
      modifies this
      ensures Snapshot() == AppendRule(old(Snapshot()), loc, body)
    {
      var cr := currentRoutine.value;
      var rule := Rule(body, LocationText(loc), currentLanguage, 0);
      arena := arena[cr := arena[cr].(rules := arena[cr].rules + [rule])];
    }

    /** The shape every `add_*` callback shares. */
    method AddRuleWith(loc: Location, body: Result<RuleBody, BuildError>) returns (err: Option<BuildError>)
      requires Valid(Snapshot())
      modifies this
      ensures (Snapshot(), err) == AddRule(old(Snapshot()), loc, body)
    {
      err := StartRoutineIfNecessary(loc);
      if err.Some? {
        return;
      }
      if body.Err? {
        return Some(body.error);
      }
      AppendToCurrent(loc, body.value);
    }

    /** `add_single_subst`. */
    method AddSingleSubst(loc: Location, prefix: seq<seq<string>>, suffix: seq<seq<string>>,
                          mapping: seq<(string, string)>) returns (err: Option<BuildError>)
      requires Valid(Snapshot())
      modifies this
      ensures (Snapshot(), err) == AddRule(old(Snapshot()), loc, Ok(SingleSubst(prefix, suffix, mapping, false)))
    {
      err := AddRuleWith(loc, Ok(SingleSubst(prefix, suffix, mapping, false)));
    }

    /** `add_reverse_chain_single_subst`. */
    method AddReverseChainSingleSubst(loc: Location, prefix: seq<seq<string>>, suffix: seq<seq<string>>,
                                      mapping: seq<(string, string)>) returns (err: Option<BuildError>)
      requires Valid(Snapshot())
      modifies this
      ensures (Snapshot(), err) == AddRule(old(Snapshot()), loc, Ok(SingleSubst(prefix, suffix, mapping, true)))
    {
      err := AddRuleWith(loc, Ok(SingleSubst(prefix, suffix, mapping, true)));
    }

    /** `add_multiple_subst`. */
    method AddMultipleSubst(loc: Location, prefix: seq<seq<string>>, glyph: string, suffix: seq<seq<string>>,
                            replacements: seq<string>) returns (err: Option<BuildError>)
      requires Valid(Snapshot())
      modifies this
      ensures (Snapshot(), err) == AddRule(old(Snapshot()), loc, Ok(MultipleSubst(prefix, glyph, suffix, replacements)))
    {
      err := AddRuleWith(loc, Ok(MultipleSubst(prefix, glyph, suffix, replacements)));
    }

    /** `add_alternate_subst`. */
    method AddAlternateSubst(loc: Location, prefix: seq<seq<string>>, glyph: string, suffix: seq<seq<string>>,
                             replacement: seq<string>) returns (err: Option<BuildError>)
      requires Valid(Snapshot())
      modifies this
      ensures (Snapshot(), err) == AddRule(old(Snapshot()), loc, Ok(AlternateSubst(prefix, glyph, suffix, replacement)))
    {
      err := AddRuleWith(loc, Ok(AlternateSubst(prefix, glyph, suffix, replacement)));
    }

    /** `add_ligature_subst`. */
    method AddLigatureSubst(loc: Location, prefix: seq<seq<string>>, glyphs: seq<seq<string>>, suffix: seq<seq<string>>,
                            replacement: string) returns (err: Option<BuildError>)
      requires Valid(Snapshot())
      modifies this
      ensures (Snapshot(), err) == AddRule(old(Snapshot()), loc, Ok(LigatureSubst(prefix, glyphs, suffix, replacement)))
    {
      err := AddRuleWith(loc, Ok(LigatureSubst(prefix, glyphs, suffix, replacement)));
    }

    /** `add_chain_context_subst`, also `add_chain_context_pos`. */
    method AddChainContextSubst(loc: Location, prefix: seq<seq<string>>, glyphs: seq<seq<string>>,
                                suffix: seq<seq<string>>, lookups: seq<seq<string>>) returns (err: Option<BuildError>)
      requires Valid(Snapshot())
      modifies this
      ensures (Snapshot(), err) == AddChainContext(old(Snapshot()), loc, prefix, glyphs, suffix, lookups)
    {
      err := StartRoutineIfNecessary(loc);
      if err.Some? {
        return;
      }
      var found := ResolveLookups(arena, routines, lookups);
      if found.Err? {
        return Some(found.error);
      }
      AppendToCurrent(loc, Chaining(glyphs, prefix, suffix, found.value));
    }

    /** `add_single_pos`. */
    method AddSinglePos(loc: Location, prefix: seq<seq<string>>, suffix: seq<seq<string>>,
                        pos: seq<(seq<string>, ValueRecord)>) returns (err: Option<BuildError>)
      requires Valid(Snapshot())
      modifies this
      ensures (Snapshot(), err) == AddRule(old(Snapshot()), loc, Ok(SinglePos(prefix, suffix, pos)))
    {
      err := AddRuleWith(loc, Ok(SinglePos(prefix, suffix, pos)));
    }

    /** `add_specific_pair_pos`. */
    method AddSpecificPairPos(loc: Location, glyph1: string, value1: ValueRecord, glyph2: string, value2: ValueRecord)
      returns (err: Option<BuildError>)
      requires Valid(Snapshot())
      modifies this
      ensures (Snapshot(), err) == AddRule(old(Snapshot()), loc, Ok(SpecificPairPos(glyph1, value1, glyph2, value2)))
    {
      err := AddRuleWith(loc, Ok(SpecificPairPos(glyph1, value1, glyph2, value2)));
    }

    /** `add_class_pair_pos`. */
    method AddClassPairPos(loc: Location, class1: seq<string>, value1: ValueRecord, class2: seq<string>, value2: ValueRecord)
      returns (err: Option<BuildError>)
      requires Valid(Snapshot())
      modifies this
      ensures (Snapshot(), err) == AddRule(old(Snapshot()), loc, Ok(ClassPairPos(class1, value1, class2, value2)))
    {
      err := AddRuleWith(loc, Ok(ClassPairPos(class1, value1, class2, value2)));
    }

    /** `add_cursive_pos`. */
    method AddCursivePos(loc: Location, glyphclass: seq<string>, entry: Option<Anchor>, exit: Option<Anchor>)
      returns (err: Option<BuildError>)
      requires Valid(Snapshot())
      modifies this
      ensures (Snapshot(), err) == AddRule(old(Snapshot()), loc, Ok(CursivePos(glyphclass, entry, exit)))
    {
      err := AddRuleWith(loc, Ok(CursivePos(glyphclass, entry, exit)));
    }

    /** `add_mark_base_pos`, also `add_mark_mark_pos`: the loop keeps only the last rule. */
    method AddMarkBasePos(loc: Location, bases: seq<string>, marks: seq<(Anchor, MarkClass)>)
      returns (err: Option<BuildError>)
      requires Valid(Snapshot())
      modifies this
      ensures (Snapshot(), err) == AddRule(old(Snapshot()), loc, MarkBase(bases, marks))
    {
      err := StartRoutineIfNecessary(loc);
      if err.Some? {
        return;
      }
      var body := CheckMarks(bases, marks);
      if body.Err? {
        return Some(body.error);
      }
      AppendToCurrent(loc, body.value);
    }

    /** `end_lookup_block`: the loop setting each rule's flags in place. */
    method EndLookup()
      requires Valid(Snapshot())
      modifies this
      ensures Snapshot() == EndLookupBlock(old(Snapshot()))
    {
      if currentRoutine.None? {
        return;
      }
      var cr := currentRoutine.value;
      var rules := arena[cr].rules;
      var i := 0;
      while i < |rules|
        invariant 0 <= i <= |rules|
        invariant |arena| == |old(arena)| && arena[cr].name == old(arena)[cr].name
        invariant arena[cr].address == old(arena)[cr].address && |arena[cr].rules| == |rules|
        invariant forall k :: 0 <= k < |arena| && k != cr ==> arena[k] == old(arena)[k]
        invariant forall k :: 0 <= k < |rules| ==>
          arena[cr].rules[k] == if k < i then rules[k].(flags := routineFlag) else rules[k]
        invariant Snapshot() == old(Snapshot()).(arena := arena)
      {
        var rule := arena[cr].rules[i].(flags := routineFlag);
        arena := arena[cr := arena[cr].(rules := arena[cr].rules[i := rule])];
        i := i + 1;
      }
      assert arena[cr] == old(arena)[cr].(rules := Stamped(rules, routineFlag));
      assert arena == old(arena)[cr := old(arena)[cr].(rules := Stamped(rules, routineFlag))];
    }

    /** `end_feature`. */
    method EndFeatureBlock() returns (err: Option<BuildError>)
      requires Valid(Snapshot())
      modifies this
      ensures (Snapshot(), err) == EndFeature(old(Snapshot()))
    {
      err := DiscardEmptyRoutine();
      if err.Some? {
        return;
      }
      currentFeature := None;
      EndLookup();
    }

    /** `set_lookup_flag(location, value, ...)`. */
    method SetLookupFlagTo(loc: Location, value: int) returns (err: Option<BuildError>)
      requires Valid(Snapshot())
      modifies this
      ensures (Snapshot(), err) == SetLookupFlag(old(Snapshot()), loc, value)
    {
      err := None;
      if currentRoutine.Some? && value == routineFlag {
        return;
      }
      if currentFeature.Some? && currentFeature.value != "" {
        EndLookup();
        err := DiscardEmptyRoutine();
        if err.Some? {
          return;
        }
        err := StartRoutine(loc, None);
        if err.Some? {
          return;
        }
      }
      routineFlag := value;
    }

    /** `add_lookup_call(lookup_name)`. */
    method AddLookupCallTo(name: string) returns (err: Option<BuildError>)
      requires Valid(Snapshot())
      modifies this
      ensures (Snapshot(), err) == AddLookupCall(old(Snapshot()), name)
    {
      var routine := FindNamedRoutine(arena, routines, name);
      if routine.Err? {
        return Some(routine.error);
      }
      if currentFeature.None? || currentFeature.value == "" {
        return Some(NotInFeature);
      }
      var tag := currentFeature.value;
      err := DiscardEmptyRoutine();
      if err.Some? {
        return;
      }
      features := AddToFeature(features, tag, [routine.value]);
    }
  }
}
