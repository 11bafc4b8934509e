/**
 * The `DefineClass` and `DefineClassBinned` verbs: glyph-class algebra
 * (union, intersection, difference), predicates over glyphs and their
 * negation, and the updates the two verbs make to the named-class table.
 *
 * The transformer evaluates a definition bottom-up; the values passed between
 * its callbacks are modelled by `Value`.  Python sets are modelled as
 * duplicate-free sequences in first-occurrence order; only their members
 * matter.
 */
module ClassDefinition {
  import opened Wrappers
  import opened Seqs
  import opened Text
  import opened FontModel
  import opened NamedClasses
  import opened GlyphSelectors
  import opened FeeParsing

  // ---------------------------------------------------------------------
  // Predicates

  /** The comparison operators of `metric_comparison`. */
  datatype Comparator = AtLeast | AtMost | Equal | Less | Greater

  /** The comparison `util.compare` performs, taken as integer comparison. */
  function Compare(a: int, c: Comparator, b: int): bool
  {
    match c
    case AtLeast => a >= b
    case AtMost => a <= b
    case Equal => a == b
    case Less => a < b
    case Greater => a > b
  }

  /**
   * The dictionaries the `has_glyph_predicate`, `has_anchor_predicate` and
   * `category_predicate` callbacks build: the kind, the anchor or category
   * name, and for `hasglyph` the pattern and its replacement.
   */
  datatype PredicateDict = PredicateDict(kind: string, name: string, pattern: string, replacement: string)

  /** A predicate callable: a metric comparison, a dictionary test, or a negation. */
  datatype Predicate =
    | Comparison(metric: string, comparator: Comparator, value: int)
    | Meets(dict: PredicateDict)
    | Negated(operand: Predicate)

  /** The errors the class verbs raise. */
  datatype ClassError =
    | ResolveFailed(error: ResolveError)
    | UnknownMetric(metric: string)         // ValueError from `_get_metrics`
    | MissingMetric(metric: string)         // KeyError on the metrics dictionary
    | NoSuchGlyph(glyph: string)            // KeyError from `font[glyph]`
    | UnknownPredicate(kind: string)        // ValueError from `meets_predicate`
    | BadPattern(pattern: string)           // `re.compile` failed
    | WrongArgumentCount                    // tuple unpacking failed
    | NotIterable                           // `set(...)` of a predicate
    | NotCallable                           // a list called as a predicate
    | NotResolvable                         // `.resolve` on a list or predicate
    | BinMissing(index: nat)                // IndexError on the bins
    | BadBinCount(text: string)             // ValueError from `int(bincount)`

  /** What the class verbs read from the parser. */
  datatype Env = Env(classes: ClassTable, anchors: map<string, set<string>>, font: Font, re: Regex)

  function EnvOf(p: FeeParser): Env
    reads p
  {
    Env(p.namedClasses, p.anchors, p.font, p.re)
  }

  /** `has_glyph_predicate`: a pattern that must compile and one replacement. */
  function HasGlyphPredicate(regexToken: string, withs: seq<string>, re: Regex): (r: Result<PredicateDict, ClassError>)
    ensures r.Ok? <==> |withs| == 1 && re.compiles(Inner(regexToken))
    ensures r.Ok? ==> r.value.kind == "hasglyph" && r.value.pattern == Inner(regexToken) && r.value.replacement == withs[0]
  {
    if |withs| != 1 then Err(WrongArgumentCount)
    else if !re.compiles(Inner(regexToken)) then Err(BadPattern(Inner(regexToken)))
    else Ok(PredicateDict("hasglyph", "", Inner(regexToken), withs[0]))
  }

  function HasAnchorPredicate(anchor: string): PredicateDict
  {
    PredicateDict("hasanchor", anchor, "", "")
  }

  function CategoryPredicate(category: string): PredicateDict
  {
    PredicateDict("category", category, "", "")
  }

  /** `DefineClass.meets_predicate`. */
  function MeetsPredicate(glyph: string, d: PredicateDict, env: Env): (r: Result<bool, ClassError>)
    ensures r.Err? <==>
      (d.kind !in {"hasanchor", "category", "hasglyph"} || (d.kind == "category" && !env.font.Contains(glyph)))
  {
    if d.kind == "hasanchor" then
      Ok(glyph in env.anchors && d.name in env.anchors[glyph])
    else if d.kind == "category" then
      if env.font.Contains(glyph) then
        Ok(glyph in env.font.categories && env.font.categories[glyph] == d.name)
      else Err(NoSuchGlyph(glyph))
    else if d.kind == "hasglyph" then
      Ok(env.font.Contains(env.re.sub(d.pattern, d.replacement, glyph)))
    else Err(UnknownPredicate(d.kind))
  }

  /**
   * A `hasglyph(/pattern/ "with")` predicate built from a pattern that
   * compiles holds of a glyph exactly when the font has the glyph named by
   * substituting the replacement for the pattern in the glyph's name, and
   * its negation exactly when it does not.
   */
  lemma HasGlyphMeaning(regexToken: string, with: string, glyph: string, metrics: map<string, int>, env: Env)
    requires env.re.compiles(Inner(regexToken))
    ensures HasGlyphPredicate(regexToken, [with], env.re).Ok?
    ensures var d := HasGlyphPredicate(regexToken, [with], env.re).value;
      var target := env.re.sub(Inner(regexToken), with, glyph);
      && Holds(Meets(d), metrics, glyph, env) == Ok(env.font.Contains(target))
      && Holds(Negated(Meets(d)), metrics, glyph, env) == Ok(!env.font.Contains(target))
  {
  }

  /** Applying a predicate callable to a glyph and its metrics. */
  function Holds(p: Predicate, metrics: map<string, int>, glyph: string, env: Env): Result<bool, ClassError>
  {
    match p
    case Comparison(metric, comparator, value) =>
      if metric in metrics then Ok(Compare(metrics[metric], comparator, value))
      else Err(MissingMetric(metric))
    case Meets(d) => MeetsPredicate(glyph, d, env)
    case Negated(q) =>
      var b :- Holds(q, metrics, glyph, env);
      Ok(!b)
  }

  /** `_get_metrics(glyph, metric)` for a named metric. */
  function GetMetric(glyph: string, metric: string, font: Font): Result<int, ClassError>
  {
    if metric !in TestValueMetrics then Err(UnknownMetric(metric))
    else if metric in font.metrics(glyph) then Ok(font.metrics(glyph)[metric])
    else Err(MissingMetric(metric))
  }

  /**
   * A metric outside the known list raises "Unknown metric"; a known metric
   * the glyph has returns its value.
   */
  lemma GetMetricCases(glyph: string, metric: string, font: Font)
    ensures GetMetric(glyph, metric, font) == Err(UnknownMetric(metric)) <==> metric !in TestValueMetrics
    ensures metric in TestValueMetrics && metric in font.metrics(glyph) ==>
      GetMetric(glyph, metric, font) == Ok(font.metrics(glyph)[metric])
  {
  }

  /** The hasanchor, category and hasglyph tests, and the failing kinds. */
  lemma MeetsPredicateCases(glyph: string, d: PredicateDict, env: Env)
    ensures d.kind == "hasanchor" ==>
      MeetsPredicate(glyph, d, env) == Ok(glyph in env.anchors && d.name in env.anchors[glyph])
    ensures d.kind == "category" && env.font.Contains(glyph) ==>
      MeetsPredicate(glyph, d, env)
        == Ok(glyph in env.font.categories && env.font.categories[glyph] == d.name)
    ensures d.kind == "hasglyph" ==>
      MeetsPredicate(glyph, d, env) == Ok(env.re.sub(d.pattern, d.replacement, glyph) in env.font.glyphOrder)
    ensures d.kind !in {"hasanchor", "category", "hasglyph"} ==>
      MeetsPredicate(glyph, d, env) == Err(UnknownPredicate(d.kind))
  {
  }

  /** A negated predicate is the pointwise complement of its operand. */
  lemma NegationComplement(p: Predicate, metrics: map<string, int>, glyph: string, env: Env)
    ensures Holds(p, metrics, glyph, env).Ok? <==> Holds(Negated(p), metrics, glyph, env).Ok?
    ensures Holds(p, metrics, glyph, env).Ok? ==>
      Holds(Negated(p), metrics, glyph, env).value == !Holds(p, metrics, glyph, env).value
  {
  }

  // ---------------------------------------------------------------------
  // Filtering glyphs by a predicate

  /**
   * `[g for g in glyphs if predicate(self._get_metrics(g), g)]`; the first
   * glyph whose test raises stops it.
   */
  function FilterHolds(glyphs: seq<string>, p: Predicate, env: Env): (r: Result<seq<string>, ClassError>)
    ensures r.Ok? ==> IsSubsequence(r.value, glyphs)
    ensures r.Ok? ==> forall g :: g in r.value <==>
      g in glyphs && Holds(p, env.font.metrics(g), g, env) == Ok(true)
    ensures r.Ok? <==> forall g :: g in glyphs ==> Holds(p, env.font.metrics(g), g, env).Ok?
  {
    if glyphs == [] then Ok([])
    else
      var keep :- Holds(p, env.font.metrics(glyphs[0]), glyphs[0], env);
      var rest :- FilterHolds(glyphs[1..], p, env);
      if keep then
        assert IsSubsequence(rest, glyphs[1..]);
        Ok([glyphs[0]] + rest)
      else
        SubsequenceOfTail(rest, glyphs);
        Ok(rest)
  }

  /** A kept glyph is kept as often as it occurs; a dropped glyph not at all. */
  lemma {:induction false} FilterHoldsCounts(glyphs: seq<string>, p: Predicate, env: Env)
    requires FilterHolds(glyphs, p, env).Ok?
    ensures forall g :: (multiset(FilterHolds(glyphs, p, env).value)[g]
                         == if Holds(p, env.font.metrics(g), g, env) == Ok(true) then multiset(glyphs)[g] else 0)
  {
    if glyphs != [] {
      FilterHoldsCounts(glyphs[1..], p, env);
      assert glyphs == [glyphs[0]] + glyphs[1..];
      var rest := FilterHolds(glyphs[1..], p, env).value;
      if Holds(p, env.font.metrics(glyphs[0]), glyphs[0], env) == Ok(true) {
        assert FilterHolds(glyphs, p, env).value == [glyphs[0]] + rest;
      } else {
        assert FilterHolds(glyphs, p, env).value == rest;
      }
    }
  }

  /**
   * Over glyphs where the predicate can be evaluated, a predicate and its
   * negation split the glyphs between them.
   */
  lemma {:induction false} NegationSplits(glyphs: seq<string>, p: Predicate, env: Env)
    requires FilterHolds(glyphs, p, env).Ok?
    ensures FilterHolds(glyphs, Negated(p), env).Ok?
    ensures |FilterHolds(glyphs, p, env).value| + |FilterHolds(glyphs, Negated(p), env).value| == |glyphs|
    ensures forall g :: g in glyphs ==>
      (g in FilterHolds(glyphs, p, env).value <==> g !in FilterHolds(glyphs, Negated(p), env).value)
  {
    forall g | g in glyphs
      ensures Holds(Negated(p), env.font.metrics(g), g, env).Ok?
    {
      NegationComplement(p, env.font.metrics(g), g, env);
    }
    if glyphs != [] {
      NegationSplits(glyphs[1..], p, env);
    }
  }

  // ---------------------------------------------------------------------
  // Values between the callbacks

  /** `&`, `|` and `-`: intersection, union and difference. */
  datatype Conjunctor = And | Or | Subtract

  /** The conjunctor tokens. */
  function ConjunctorOf(token: string): Option<Conjunctor>
  {
    if token == "&" then Some(And)
    else if token == "|" then Some(Or)
    else if token == "-" then Some(Subtract)
    else None
  }

  /**
   * What a callback hands up: a glyph selector, resolved glyphs, a predicate
   * callable, or a deferred conjunction dictionary.
   */
  datatype Value =
    | SelectorValue(selector: GlyphSelector)
    | GlyphsValue(glyphs: Glyphs)
    | PredicateValue(pred: Predicate)
    | ConjunctionValue(op: Conjunctor, left: Value, right: Value)

  /** Resolved glyphs and the warnings emitted on the way. */
  datatype Outcome = Outcome(glyphs: Glyphs, warnings: seq<string>)

  /**
   * `DefineClass.conjunction`: a list followed by a predicate is filtered
   * at once; anything else is deferred to `resolve_definition`.
   */
  function Conjunction(l: Value, op: Conjunctor, r: Value, env: Env): Result<Value, ClassError>
  {
    if l.GlyphsValue? && l.glyphs.GlyphList? && r.PredicateValue? then
      var kept :- FilterHolds(l.glyphs.items, r.pred, env);
      Ok(GlyphsValue(GlyphList(kept)))
    else
      Ok(ConjunctionValue(op, l, r))
  }

  /** `set(x)` of an operand. */
  function Members(v: Value): Result<seq<string>, ClassError>
  {
    if v.GlyphsValue? then Ok(Dedup(v.glyphs.items)) else Err(NotIterable)
  }

  function IsIn(names: seq<string>): string -> bool
  {
    x => x in names
  }

  function IsNotIn(names: seq<string>): string -> bool
  {
    x => x !in names
  }

  /** The set operation itself: a list for `|` and `&`, a set for `-`. */
  function Combine(op: Conjunctor, left: seq<string>, right: seq<string>): Glyphs
  {
    match op
    case Or => GlyphList(Dedup(left + right))
    case And => GlyphList(Dedup(Filter(left, IsIn(right))))
    case Subtract => GlyphSet(Dedup(Filter(left, IsNotIn(right))))
  }

  /** `DefineClass.resolve_definition`. */
  function ResolveDefinition(v: Value, env: Env): Result<Outcome, ClassError>
  {
    match v
    case ConjunctionValue(op, l, r) =>
      var left :- Members(l);
      var right :- Members(r);
      Ok(Outcome(Combine(op, left, right), []))
    case SelectorValue(sel) =>
      (match Resolve(sel, env.classes, env.font, env.re, true)
       case Err(e) => Err(ResolveFailed(e))
       case Ok(res) => Ok(Outcome(GlyphList(res.glyphs), res.warnings)))
    case _ => Err(NotResolvable)
  }

  /**
   * `DefineClass._predicate_for_all_glyphs`: the glyphs of the font, in
   * glyph order, that the value (called as a predicate) accepts.
   */
  function PredicateForAllGlyphs(v: Value, env: Env): Result<Outcome, ClassError>
  {
    match v
    case PredicateValue(p) =>
      var kept :- FilterHolds(env.font.glyphOrder, p, env);
      Ok(Outcome(GlyphList(kept), []))
    case _ =>
      if env.font.glyphOrder == [] then Ok(Outcome(GlyphList([]), [])) else Err(NotCallable)
  }

  /** `DefineClass.primary`: selectors and conjunctions are resolved, anything else applied to every glyph. */
  function Primary(v: Value, env: Env): Result<Outcome, ClassError>
  {
    if v.SelectorValue? || v.ConjunctionValue? then ResolveDefinition(v, env)
    else PredicateForAllGlyphs(v, env)
  }

  /** The parse of a class definition, below `primary`. */
  datatype Definition =
    | SelectorDef(selector: GlyphSelector)
    | PredicateDef(pred: Predicate)
    | ConjunctionDef(left: Definition, op: Conjunctor, right: Definition)

  /** The callbacks run bottom-up over a definition; the result of `primary`. */
  function Evaluate(d: Definition, env: Env): Result<Outcome, ClassError>
  {
    match d
    case SelectorDef(sel) => Primary(SelectorValue(sel), env)
    case PredicateDef(p) => Primary(PredicateValue(p), env)
    case ConjunctionDef(l, op, r) =>
      var lo :- Evaluate(l, env);
      var ro :- Evaluate(r, env);
      var c :- Conjunction(GlyphsValue(lo.glyphs), op, GlyphsValue(ro.glyphs), env);
      var res :- Primary(c, env);
      Ok(Outcome(res.glyphs, lo.warnings + ro.warnings + res.warnings))
  }

  // ---------------------------------------------------------------------
  // Properties of the class algebra

  function AsSet(names: seq<string>): set<string>
  {
    set x | x in names
  }

  /**
   * `|`, `&` and `-` yield the union, intersection and difference of their
   * operands, without duplicates; `-` yields a set and the others lists.
   */
  lemma ConjunctionSemantics(op: Conjunctor, a: Glyphs, b: Glyphs, env: Env)
    ensures var r := ResolveDefinition(ConjunctionValue(op, GlyphsValue(a), GlyphsValue(b)), env);
      && r.Ok?
      && r.value.warnings == []
      && Distinct(r.value.glyphs.items)
      && (op == Or ==> r.value.glyphs.GlyphList? && AsSet(r.value.glyphs.items) == AsSet(a.items) + AsSet(b.items))
      && (op == And ==> r.value.glyphs.GlyphList? && AsSet(r.value.glyphs.items) == AsSet(a.items) * AsSet(b.items))
      && (op == Subtract ==> r.value.glyphs.GlyphSet? && AsSet(r.value.glyphs.items) == AsSet(a.items) - AsSet(b.items))
  {
    var left := Dedup(a.items);
    var right := Dedup(b.items);
    assert ResolveDefinition(ConjunctionValue(op, GlyphsValue(a), GlyphsValue(b)), env)
      == Ok(Outcome(Combine(op, left, right), []));
    CombineSemantics(op, a.items, b.items);
  }

  /** The set operation on the deduplicated operands. */
  lemma CombineSemantics(op: Conjunctor, a: seq<string>, b: seq<string>)
    ensures var g := Combine(op, Dedup(a), Dedup(b));
      && Distinct(g.items)
      && (op == Or ==> g.GlyphList? && AsSet(g.items) == AsSet(a) + AsSet(b))
      && (op == And ==> g.GlyphList? && AsSet(g.items) == AsSet(a) * AsSet(b))
      && (op == Subtract ==> g.GlyphSet? && AsSet(g.items) == AsSet(a) - AsSet(b))
  {
    var left := Dedup(a);
    var right := Dedup(b);
    assert AsSet(left) == AsSet(a);
    assert AsSet(right) == AsSet(b);
    var g := Combine(op, left, right);
    match op {
      case Or =>
        assert AsSet(g.items) == AsSet(left + right);
      case And =>
        assert AsSet(g.items) == AsSet(Filter(left, IsIn(right)));
      case Subtract =>
        assert AsSet(g.items) == AsSet(Filter(left, IsNotIn(right)));
    }
  }

  /** `|` and `&` are commutative as sets of glyphs. */
  lemma UnionIntersectionCommute(op: Conjunctor, a: Glyphs, b: Glyphs, env: Env)
    requires op == Or || op == And
    ensures var ab := ResolveDefinition(ConjunctionValue(op, GlyphsValue(a), GlyphsValue(b)), env);
      var ba := ResolveDefinition(ConjunctionValue(op, GlyphsValue(b), GlyphsValue(a)), env);
      ab.Ok? && ba.Ok? && AsSet(ab.value.glyphs.items) == AsSet(ba.value.glyphs.items)
  {
    ConjunctionSemantics(op, a, b, env);
    ConjunctionSemantics(op, b, a, env);
  }

  /** `-` is not commutative: `[A] - []` keeps `A`, `[] - [A]` is empty. */
  lemma SubtractNotCommutative(env: Env)
    ensures var ab := ResolveDefinition(ConjunctionValue(Subtract, GlyphsValue(GlyphList(["A"])), GlyphsValue(GlyphList([]))), env);
      var ba := ResolveDefinition(ConjunctionValue(Subtract, GlyphsValue(GlyphList([])), GlyphsValue(GlyphList(["A"]))), env);
      ab.Ok? && ba.Ok? && AsSet(ab.value.glyphs.items) != AsSet(ba.value.glyphs.items)
  {
    ConjunctionSemantics(Subtract, GlyphList(["A"]), GlyphList([]), env);
    ConjunctionSemantics(Subtract, GlyphList([]), GlyphList(["A"]), env);
    assert "A" in AsSet(["A"]);
  }

  /**
   * A list followed by a predicate is filtered at once: the members the
   * predicate accepts, in the list's order.
   */
  lemma ListFilteredByPredicate(l: seq<string>, op: Conjunctor, p: Predicate, env: Env)
    requires forall g :: g in l ==> Holds(p, env.font.metrics(g), g, env).Ok?
    ensures var r := Conjunction(GlyphsValue(GlyphList(l)), op, PredicateValue(p), env);
      && r.Ok? && r.value.GlyphsValue? && r.value.glyphs.GlyphList?
      && IsSubsequence(r.value.glyphs.items, l)
      && forall g :: g in r.value.glyphs.items <==> g in l && Holds(p, env.font.metrics(g), g, env) == Ok(true)
  {
  }

  /**
   * Through `primary` both operands of a conjunction are already resolved,
   * so the shortcut is never taken and a predicate never reaches it.
   */
  lemma ConjunctionOfPrimaries(a: Outcome, op: Conjunctor, b: Outcome, env: Env)
    ensures Conjunction(GlyphsValue(a.glyphs), op, GlyphsValue(b.glyphs), env)
      == Ok(ConjunctionValue(op, GlyphsValue(a.glyphs), GlyphsValue(b.glyphs)))
  {
  }

  /**
   * A bare predicate evaluates to the glyphs of the font it accepts, in
   * glyph order; it is applied, never handed on.
   */
  lemma PredicateOverAllGlyphs(p: Predicate, env: Env)
    requires forall g :: g in env.font.glyphOrder ==> Holds(p, env.font.metrics(g), g, env).Ok?
    ensures var r := Evaluate(PredicateDef(p), env);
      && r.Ok? && r.value.glyphs.GlyphList? && r.value.warnings == []
      && IsSubsequence(r.value.glyphs.items, env.font.glyphOrder)
      && forall g :: g in r.value.glyphs.items <==>
           g in env.font.glyphOrder && Holds(p, env.font.metrics(g), g, env) == Ok(true)
  {
  }

  /** A glyph selector in a definition resolves as `resolve` does, filter included. */
  lemma SelectorDefinition(sel: GlyphSelector, env: Env)
    ensures var r := Evaluate(SelectorDef(sel), env);
      var s := Resolve(sel, env.classes, env.font, env.re, true);
      && (r.Ok? <==> s.Ok?)
      && (r.Ok? ==> r.value == Outcome(GlyphList(s.value.glyphs), s.value.warnings))
  {
  }

  // ---------------------------------------------------------------------
  // The verbs' effect on the class table

  /** `DefineClass.action`: stores the glyphs under the name without `@`. */
  method DefineClassAction(p: FeeParser, classname: string, glyphs: Glyphs) returns (r: string)
    requires p.Valid()
    modifies p
    ensures p.Valid()
    ensures p.namedClasses == old(p.namedClasses).Put(DropFirst(classname), glyphs)
    ensures r == classname
    ensures p.plugins == old(p.plugins) && p.variables == old(p.variables) && p.anchors == old(p.anchors)
  {
    p.namedClasses := p.namedClasses.Put(DropFirst(classname), glyphs);
    r := classname;
  }

  /** Storing a class changes that entry only. */
  lemma {:induction false} PutChangesOneEntry(t: ClassTable, name: string, glyphs: Glyphs)
    requires t.Valid()
    ensures t.Put(name, glyphs).entries[name] == glyphs
    ensures forall k :: k != name ==>
      (k in t.Put(name, glyphs).entries <==> k in t.entries) &&
      (k in t.entries ==> t.Put(name, glyphs).entries[k] == t.entries[k])
  {
  }

  /** `"%s_%s%i" % (classname, metric, i)`: the `@` of the class name stays. */
  function BinName(classname: string, metric: string, i: int): string
  {
    classname + "_" + metric + IntToDecimal(i)
  }

  /** Different suffixes after a common prefix give different strings. */
  lemma AppendDistinct(prefix: string, a: string, b: string)
    requires a != b
    ensures prefix + a != prefix + b
  {
    assert (prefix + a)[|prefix|..] == a;
    assert (prefix + b)[|prefix|..] == b;
  }

  /** Different bins of one class get different names. */
  lemma BinNamesDistinct(classname: string, metric: string, i: int, j: int)
    requires i != j
    ensures BinName(classname, metric, i) != BinName(classname, metric, j)
  {
    IntToDecimalInjective(i, j);
    AppendDistinct(classname + "_" + metric, IntToDecimal(i), IntToDecimal(j));
  }

  /**
   * The loop of `DefineClassBinned.action` from bin `i` to `count`: entry
   * `i` gets the glyphs of bin `i - 1` as a tuple; a missing bin stops it
   * with an IndexError, the earlier entries written.
   */
  function StoreBins(t: ClassTable, classname: string, metric: string, bins: seq<seq<string>>, i: nat, count: int)
    : (r: (ClassTable, Option<ClassError>))
    requires t.Valid() && 1 <= i
    ensures r.0.Valid()
    decreases count - i + 1
  {
    if count < i then (t, None)
    else if |bins| < i then (t, Some(BinMissing(i - 1)))
    else StoreBins(t.Put(BinName(classname, metric, i), GlyphTuple(bins[i - 1])), classname, metric, bins, i + 1, count)
  }

  /** With enough bins the loop runs to the end without an error. */
  lemma {:induction false} StoreBinsSucceeds(t: ClassTable, classname: string, metric: string,
                                             bins: seq<seq<string>>, i: nat, count: int)
    requires t.Valid() && 1 <= i && count <= |bins|
    ensures StoreBins(t, classname, metric, bins, i, count).1 == None
    decreases count - i + 1
  {
    if i <= count {
      var next := t.Put(BinName(classname, metric, i), GlyphTuple(bins[i - 1]));
      assert StoreBins(t, classname, metric, bins, i, count) == StoreBins(next, classname, metric, bins, i + 1, count);
      StoreBinsSucceeds(next, classname, metric, bins, i + 1, count);
    }
  }

  /** Entries `i..count` hold the bins in order. */
  lemma {:induction false} StoreBinsWrites(t: ClassTable, classname: string, metric: string,
                                           bins: seq<seq<string>>, i: nat, count: int, n: int)
    requires t.Valid() && 1 <= i <= n <= count <= |bins|
    ensures var u := StoreBins(t, classname, metric, bins, i, count).0;
      BinName(classname, metric, n) in u.entries && u.entries[BinName(classname, metric, n)] == GlyphTuple(bins[n - 1])
    decreases count - i + 1
  {
    var next := t.Put(BinName(classname, metric, i), GlyphTuple(bins[i - 1]));
    assert StoreBins(t, classname, metric, bins, i, count) == StoreBins(next, classname, metric, bins, i + 1, count);
    if i < n {
      StoreBinsWrites(next, classname, metric, bins, i + 1, count, n);
    } else {
      forall m | i + 1 <= m <= count && m <= |bins|
        ensures BinName(classname, metric, n) != BinName(classname, metric, m)
      {
        BinNamesDistinct(classname, metric, n, m);
      }
      StoreBinsKeeps(next, classname, metric, bins, i + 1, count, BinName(classname, metric, n));
    }
  }

  /**
   * A name that is none of the bin names `i..count` keeps its entry, or its
   * absence; in particular no other class is added.
   */
  lemma {:induction false} StoreBinsKeeps(t: ClassTable, classname: string, metric: string,
                                          bins: seq<seq<string>>, i: nat, count: int, k: string)
    requires t.Valid() && 1 <= i
    requires forall n :: i <= n <= count && n <= |bins| ==> k != BinName(classname, metric, n)
    ensures var u := StoreBins(t, classname, metric, bins, i, count).0;
      (k in u.entries <==> k in t.entries) && (k in t.entries ==> u.entries[k] == t.entries[k])
    decreases count - i + 1
  {
    if i <= count && i <= |bins| {
      var next := t.Put(BinName(classname, metric, i), GlyphTuple(bins[i - 1]));
      assert StoreBins(t, classname, metric, bins, i, count) == StoreBins(next, classname, metric, bins, i + 1, count);
      StoreBinsKeeps(next, classname, metric, bins, i + 1, count, k);
    }
  }

  /** The class written by `DefineClass` is never one of the binned names. */
  lemma PlainNameIsNoBinName(classname: string, metric: string, n: int)
    ensures DropFirst(classname) != BinName(classname, metric, n)
  {
    assert |BinName(classname, metric, n)| > |classname| >= |DropFirst(classname)|;
  }

  /**
   * `DefineClassBinned.action`: writes one class per bin, named after the
   * class with its `@`, the metric and the bin number from 1, and returns
   * its arguments.  The bins are those `bin_glyphs_by_metric` computed.
   */
  method DefineClassBinnedAction(p: FeeParser, classname: string, metric: string, bincount: string,
                                 glyphs: Glyphs, bins: seq<seq<string>>)
    returns (r: Result<(string, (string, string), Glyphs), ClassError>)
    requires p.Valid()
    modifies p
    ensures p.Valid()
    ensures ParseInt(bincount).None? ==> r == Err(BadBinCount(bincount)) && p.namedClasses == old(p.namedClasses)
    ensures ParseInt(bincount).Some? ==>
      var (table, err) := StoreBins(old(p.namedClasses), classname, metric, bins, 1, ParseInt(bincount).value);
      && p.namedClasses == table
      && r == (if err.None? then Ok((classname, (metric, bincount), glyphs)) else Err(err.value))
    ensures p.plugins == old(p.plugins) && p.variables == old(p.variables) && p.anchors == old(p.anchors)
  {
    var count := ParseInt(bincount);
    if count.None? {
      return Err(BadBinCount(bincount));
    }
    var i := 1;
    while i <= count.value
      invariant 1 <= i
      invariant p.Valid()
      invariant StoreBins(old(p.namedClasses), classname, metric, bins, 1, count.value)
        == StoreBins(p.namedClasses, classname, metric, bins, i, count.value)
      invariant p.plugins == old(p.plugins) && p.variables == old(p.variables) && p.anchors == old(p.anchors)
      decreases count.value - i + 1
    {
      if |bins| < i {
        return Err(BinMissing(i - 1));
      }
      p.namedClasses := p.namedClasses.Put(BinName(classname, metric, i), GlyphTuple(bins[i - 1]));
      i := i + 1;
    }
    r := Ok((classname, (metric, bincount), glyphs));
  }
}
