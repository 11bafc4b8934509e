/**
 * The FEE compiler's front end: the verb table built from plugin modules,
 * the dispatch of one parsed statement to its verb, the flattening of
 * transformer results, and the `$variable` integer reference.
 *
 * Lark grammars, parsers and transformers are opaque here: a parser is the
 * grammar text it was built from, a parse result records the grammar and the
 * text given to it, and a transformer is named by its module and class.
 */
module FeeParsing {
  import opened Wrappers
  import opened Seqs
  import opened Text
  import opened FontModel
  import opened NamedClasses

  /** The metrics a comparison may name, in the order the grammar lists them. */
  const TestValueMetrics: seq<string> :=
    ["width", "lsb", "rsb", "xMin", "xMax", "yMin", "yMax", "rise", "run", "fullwidth"]

  // ---------------------------------------------------------------------
  // Parsers and verbs

  /** What a Lark parser returns for a text: opaque. */
  datatype Tree = Tree(grammar: string, text: string)

  /** A Lark parser built from a grammar, or the `NullParser`. */
  datatype Parser = LarkParser(grammar: string) | NullParser

  /** `parser.parse(text)`; the `NullParser` returns nothing. */
  function Parse(p: Parser, text: string): (t: Option<Tree>)
    ensures t.None? <==> p.NullParser?
    ensures t.Some? ==> t.value.text == text && t.value.grammar == p.grammar
  {
    match p
    case NullParser => None
    case LarkParser(g) => Some(Tree(g, text))
  }

  /** A transformer class: the module defining it and its name. */
  datatype TransformerRef = TransformerRef(origin: string, name: string)

  /**
   * A verb table entry: the grammar of its main Lark parser, its
   * before-brace and after-brace parsers, and its transformer.
   */
  datatype Verb = Verb(grammar: string, bbparser: Parser, abparser: Parser, transformer: TransformerRef)

  /**
   * What a plugin module defines: `PARSEOPTS`, `GRAMMAR` and `VERBS` when
   * present, its other string attributes (the per-verb grammar fragments)
   * and the names of the transformer classes it defines.
   */
  datatype PluginModule = PluginModule(
    parseopts: Option<map<string, bool>>,
    grammar: Option<string>,
    verbs: Option<seq<string>>,
    attributes: map<string, string>,
    transformers: set<string>)

  /** The exceptions plugin loading raises. */
  datatype PluginError =
    | ModuleNotFound(origin: string)
    | MissingAttribute(attribute: string)   // AttributeError on the origin
    | MissingOption(option: string)         // KeyError on PARSEOPTS
    | MissingTransformer(verb: string)      // AttributeError from `getattr(mod, v)`

  /** The test `load_plugin` applies before registering a module. */
  predicate IsPlugin(m: PluginModule)
  {
    m.parseopts.Some? && m.grammar.Some? && m.verbs.Some? && "use_helpers" in m.parseopts.value
  }

  /** `getattr(mod, key, None)` tested for truth: a non-empty fragment. */
  function Fragment(m: PluginModule, key: string): Option<string>
  {
    if key in m.attributes && m.attributes[key] != "" then Some(m.attributes[key]) else None
  }

  /** A parser for an optional fragment: `NullParser` when there is none. */
  function FragmentParser(rules: string, fragment: Option<string>): (p: Parser)
  {
    match fragment
    case Some(g) => LarkParser(rules + g)
    case None => NullParser
  }

  /** The table entry `register_plugin` builds for verb `v`. */
  function ComposeVerb(rules: string, origin: string, m: PluginModule, v: string): Verb
  {
    var grammar := match Fragment(m, v + "_GRAMMAR")
      case Some(g) => rules + g
      case None => rules;
    Verb(grammar,
         FragmentParser(rules, Fragment(m, v + "_beforebrace_GRAMMAR")),
         FragmentParser(rules, Fragment(m, v + "_afterbrace_GRAMMAR")),
         TransformerRef(origin, v))
  }

  /**
   * The loop of `register_plugin` over `verbs`: each verb is written in
   * turn; a verb without a transformer class stops the loop with an error,
   * leaving the earlier verbs written.
   */
  function RegisterVerbs(table: map<string, Verb>, rules: string, origin: string, m: PluginModule, verbs: seq<string>)
    : (map<string, Verb>, Option<PluginError>)
    decreases |verbs|
  {
    if verbs == [] then (table, None)
    else if verbs[0] !in m.transformers then (table, Some(MissingTransformer(verbs[0])))
    else RegisterVerbs(table[verbs[0] := ComposeVerb(rules, origin, m, verbs[0])], rules, origin, m, verbs[1..])
  }

  /** The grammar every verb of the module is built on. */
  function PluginRules(helpers: string, m: PluginModule): string
    requires IsPlugin(m)
  {
    if m.parseopts.value["use_helpers"] then helpers + m.grammar.value else m.grammar.value
  }

  /** `register_plugin`: the new verb table and the error raised, if any. */
  function RegisterPluginSpec(table: map<string, Verb>, helpers: string, origin: string, m: PluginModule)
    : (map<string, Verb>, Option<PluginError>)
  {
    if m.verbs.None? then (table, Some(MissingAttribute("VERBS")))
    else if m.parseopts.None? then (table, Some(MissingAttribute("PARSEOPTS")))
    else if "use_helpers" !in m.parseopts.value then (table, Some(MissingOption("use_helpers")))
    else if m.grammar.None? then (table, Some(MissingAttribute("GRAMMAR")))
    else RegisterVerbs(table, PluginRules(helpers, m), origin, m, m.verbs.value)
  }

  /** `load_plugin`'s module name: a bare name lives in `fontFeatures.feeLib`. */
  function ResolvedPluginName(plugin: string): (r: string)
    ensures '.' in r
  {
    if '.' !in plugin then "fontFeatures.feeLib." + plugin else plugin
  }

  /** `load_plugin`: the new verb table, the value returned or the error raised, and the warnings. */
  function LoadSpec(table: map<string, Verb>, helpers: string, modules: map<string, PluginModule>, plugin: string)
    : (map<string, Verb>, Result<Option<bool>, PluginError>, seq<string>)
  {
    var name := ResolvedPluginName(plugin);
    if name !in modules then (table, Err(ModuleNotFound(name)), [])
    else if !IsPlugin(modules[name]) then (table, Ok(Some(false)), ["Module " + name + " is not a FEE plugin"])
    else
      var (t, err) := RegisterPluginSpec(table, helpers, name, modules[name]);
      (t, if err.None? then Ok(None) else Err(err.value), [])
  }

  /** The plugins `FeeParser.__init__` loads, in order. */
  const DefaultPlugins := ["LoadPlugin", "ClassDefinition", "Conditional", "Feature", "Substitute", "Position",
                           "Chain", "Anchors", "Routine", "Include", "Variables"]

  /**
   * `load_plugin` on each name in turn: the table, the first error raised
   * (which stops the loading) and the warnings emitted, in order.
   */
  function LoadAll(table: map<string, Verb>, helpers: string, modules: map<string, PluginModule>, names: seq<string>)
    : (map<string, Verb>, Option<PluginError>, seq<string>)
    decreases |names|
  {
    if names == [] then (table, None, [])
    else
      var first := LoadSpec(table, helpers, modules, names[0]);
      if first.1.Err? then (first.0, Some(first.1.error), first.2)
      else
        var rest := LoadAll(first.0, helpers, modules, names[1..]);
        (rest.0, rest.1, first.2 + rest.2)
  }

  /** The outcome of loading, with `warnings` emitted before it. */
  function Prefixed(warnings: seq<string>, outcome: (map<string, Verb>, Option<PluginError>, seq<string>))
    : (map<string, Verb>, Option<PluginError>, seq<string>)
  {
    (outcome.0, outcome.1, warnings + outcome.2)
  }

  /** One step of `LoadAll` on the names from `i` on, after `load_plugin` on `names[i]` gave `first`. */
  lemma LoadAllStep(table: map<string, Verb>, helpers: string, modules: map<string, PluginModule>, names: seq<string>,
                    i: nat, warnings: seq<string>, first: (map<string, Verb>, Result<Option<bool>, PluginError>, seq<string>))
    requires i < |names| && first == LoadSpec(table, helpers, modules, names[i])
    ensures first.1.Err? ==>
      Prefixed(warnings, LoadAll(table, helpers, modules, names[i..])) == (first.0, Some(first.1.error), warnings + first.2)
    ensures first.1.Ok? ==>
      Prefixed(warnings, LoadAll(table, helpers, modules, names[i..]))
        == Prefixed(warnings + first.2, LoadAll(first.0, helpers, modules, names[i + 1..]))
  {
    assert names[i..][0] == names[i];
    assert names[i..][1..] == names[i + 1..];
    if first.1.Ok? {
      var rest := LoadAll(first.0, helpers, modules, names[i + 1..]);
      assert warnings + (first.2 + rest.2) == (warnings + first.2) + rest.2;
    }
  }

  /** The module a plugin name loads is a plugin whose every verb has its transformer class. */
  predicate Loadable(modules: map<string, PluginModule>, plugin: string)
  {
    var name := ResolvedPluginName(plugin);
    name in modules && IsPlugin(modules[name]) && forall v :: v in modules[name].verbs.value ==> v in modules[name].transformers
  }

  /** The verbs the module a plugin name loads declares. */
  function DeclaredVerbs(modules: map<string, PluginModule>, plugin: string): seq<string>
    requires Loadable(modules, plugin)
  {
    modules[ResolvedPluginName(plugin)].verbs.value
  }

  // ---------------------------------------------------------------------
  // Properties of plugin registration

  /** A loadable plugin registers every verb it declares, raising and warning nothing. */
  lemma LoadableLoads(table: map<string, Verb>, helpers: string, modules: map<string, PluginModule>, plugin: string)
    requires Loadable(modules, plugin)
    ensures var name := ResolvedPluginName(plugin);
      var m := modules[name];
      var t := RegisterVerbs(table, PluginRules(helpers, m), name, m, m.verbs.value).0;
      && LoadSpec(table, helpers, modules, plugin) == (t, Ok(None), [])
      && (forall k :: k in t <==> k in table || k in DeclaredVerbs(modules, plugin))
      && (forall v :: v in DeclaredVerbs(modules, plugin) ==> t[v] == ComposeVerb(PluginRules(helpers, m), name, m, v))
  {
    var name := ResolvedPluginName(plugin);
    var m := modules[name];
    RegisterVerbsTable(table, PluginRules(helpers, m), name, m, m.verbs.value);
  }

  /** `LoadAll` after a first plugin that loads cleanly into `t`. */
  lemma LoadAllFirstLoads(table: map<string, Verb>, helpers: string, modules: map<string, PluginModule>,
                          names: seq<string>, t: map<string, Verb>)
    requires names != [] && LoadSpec(table, helpers, modules, names[0]) == (t, Ok(None), [])
    ensures LoadAll(table, helpers, modules, names) == LoadAll(t, helpers, modules, names[1..])
  {
    var rest := LoadAll(t, helpers, modules, names[1..]);
    assert [] + rest.2 == rest.2;
  }

  /**
   * Loading plugins whose modules are all loadable raises nothing, warns
   * nothing, and leaves in the table exactly the earlier verbs and every
   * verb the modules declare; a verb declared by a later module takes the
   * entry built from that module.
   */
  lemma {:induction false} LoadAllSucceeds(table: map<string, Verb>, helpers: string,
                                           modules: map<string, PluginModule>, names: seq<string>)
    requires forall i :: 0 <= i < |names| ==> Loadable(modules, names[i])
    ensures var (t, err, warnings) := LoadAll(table, helpers, modules, names);
      && err.None? && warnings == []
      && (forall k :: k in t <==>
            k in table || exists i :: 0 <= i < |names| && k in DeclaredVerbs(modules, names[i]))
      && (|names| > 0 ==>
            var name := ResolvedPluginName(names[|names| - 1]);
            forall v :: v in DeclaredVerbs(modules, names[|names| - 1]) ==>
              t[v] == ComposeVerb(PluginRules(helpers, modules[name]), name, modules[name], v))
    decreases |names|
  {
    if names != [] {
      var name := ResolvedPluginName(names[0]);
      var m := modules[name];
      LoadableLoads(table, helpers, modules, names[0]);
      var t := RegisterVerbs(table, PluginRules(helpers, m), name, m, m.verbs.value).0;
      LoadAllFirstLoads(table, helpers, modules, names, t);
      assert forall i :: 1 <= i < |names| ==> names[i] == names[1..][i - 1];
      LoadAllSucceeds(t, helpers, modules, names[1..]);
      var rest := LoadAll(t, helpers, modules, names[1..]);
      if |names| == 1 {
        assert names[1..] == [];
        forall k | k in rest.0
          ensures k in table || exists i :: 0 <= i < |names| && k in DeclaredVerbs(modules, names[i])
        {
          if k !in table {
            assert k in DeclaredVerbs(modules, names[0]);
          }
        }
      } else {
        forall k | k in rest.0
          ensures k in table || exists i :: 0 <= i < |names| && k in DeclaredVerbs(modules, names[i])
        {
          if k !in t {
            var i :| 0 <= i < |names| - 1 && k in DeclaredVerbs(modules, names[1..][i]);
            assert k in DeclaredVerbs(modules, names[i + 1]);
          } else if k !in table {
            assert k in DeclaredVerbs(modules, names[0]);
          }
        }
        forall k | k in table || exists i :: 0 <= i < |names| && k in DeclaredVerbs(modules, names[i])
          ensures k in rest.0
        {
          if k !in table {
            var i :| 0 <= i < |names| && k in DeclaredVerbs(modules, names[i]);
            if i > 0 {
              assert k in DeclaredVerbs(modules, names[1..][i - 1]);
            }
          }
        }
        assert names[|names| - 1] == names[1..][|names[1..]| - 1];
      }
    }
  }

  /**
   * A plugin whose module cannot be found stops the loading with that
   * error; the plugins before it have been loaded.
   */
  lemma LoadAllMissingModule(table: map<string, Verb>, helpers: string, modules: map<string, PluginModule>,
                             names: seq<string>, j: nat)
    requires j < |names| && ResolvedPluginName(names[j]) !in modules
    requires forall i :: 0 <= i < j ==> Loadable(modules, names[i])
    ensures LoadAll(table, helpers, modules, names)
      == (LoadAll(table, helpers, modules, names[..j]).0, Some(ModuleNotFound(ResolvedPluginName(names[j]))), [])
    decreases j
  {
    if j > 0 {
      var name := ResolvedPluginName(names[0]);
      var m := modules[name];
      LoadableLoads(table, helpers, modules, names[0]);
      var t := RegisterVerbs(table, PluginRules(helpers, m), name, m, m.verbs.value).0;
      LoadAllFirstLoads(table, helpers, modules, names, t);
      LoadAllFirstLoads(table, helpers, modules, names[..j], t);
      assert forall i :: 1 <= i < |names| ==> names[i] == names[1..][i - 1];
      LoadAllMissingModule(t, helpers, modules, names[1..], j - 1);
      assert names[..j][0] == names[0];
      assert names[..j][1..] == names[1..][..j - 1];
    }
  }

  /**
   * When every verb has its transformer, every verb gets the entry built
   * for it, other verbs keep theirs, and nothing else is added.
   */
  lemma {:induction false} RegisterVerbsTable(table: map<string, Verb>, rules: string, origin: string,
                                              m: PluginModule, verbs: seq<string>)
    requires forall v :: v in verbs ==> v in m.transformers
    ensures RegisterVerbs(table, rules, origin, m, verbs).1 == None
    ensures var t := RegisterVerbs(table, rules, origin, m, verbs).0;
      && (forall k :: k in t <==> k in table || k in verbs)
      && (forall v :: v in verbs ==> t[v] == ComposeVerb(rules, origin, m, v))
      && (forall k :: k in table && k !in verbs ==> t[k] == table[k])
    decreases |verbs|
  {
    if verbs != [] {
      var v := verbs[0];
      var next := table[v := ComposeVerb(rules, origin, m, v)];
      assert forall w :: w in verbs[1..] ==> w in verbs;
      RegisterVerbsTable(next, rules, origin, m, verbs[1..]);
      assert forall w :: w in verbs <==> w == v || w in verbs[1..];
    }
  }

  /**
   * A verb without a transformer class raises an error naming it; exactly
   * the verbs before it have been written.
   */
  lemma {:induction false} RegisterVerbsStops(table: map<string, Verb>, rules: string, origin: string,
                                              m: PluginModule, verbs: seq<string>, j: nat)
    requires j < |verbs| && verbs[j] !in m.transformers
    requires forall i :: 0 <= i < j ==> verbs[i] in m.transformers
    ensures RegisterVerbs(table, rules, origin, m, verbs)
      == (RegisterVerbs(table, rules, origin, m, verbs[..j]).0, Some(MissingTransformer(verbs[j])))
    decreases |verbs|
  {
    if j > 0 {
      var next := table[verbs[0] := ComposeVerb(rules, origin, m, verbs[0])];
      RegisterVerbsStops(next, rules, origin, m, verbs[1..], j - 1);
      assert verbs[..j][1..] == verbs[1..][..j - 1];
      assert RegisterVerbs(next, rules, origin, m, verbs[1..][..j - 1]).1 == None by {
        RegisterVerbsTable(next, rules, origin, m, verbs[1..][..j - 1]);
      }
    }
  }

  /**
   * A verb without a before-brace (after-brace) grammar fragment gets the
   * `NullParser`, whose parse returns nothing; its main parser always exists.
   */
  lemma NullParserWithoutFragment(rules: string, origin: string, m: PluginModule, v: string, text: string)
    ensures var verb := ComposeVerb(rules, origin, m, v);
      && (Parse(verb.bbparser, text).None? <==> Fragment(m, v + "_beforebrace_GRAMMAR").None?)
      && (Parse(verb.abparser, text).None? <==> Fragment(m, v + "_afterbrace_GRAMMAR").None?)
      && verb.transformer == TransformerRef(origin, v)
  {
  }

  // ---------------------------------------------------------------------
  // Statement dispatch

  /** An argument of a statement: a word, or a nested statement. */
  datatype Arg = Word(text: string) | Group(statement: Statement)

  /**
   * What `FeeTransformer.statement` returns: `(verb, args)` for an unknown
   * verb; the verb's transformer applied to the parse of its words; or, for
   * a statement with nested groups, the verb's action applied to
   * `[before, groups, after]`.
   */
  datatype Statement =
    | Unknown(verb: string, args: seq<Arg>)
    | Simple(verb: string, transformer: TransformerRef, tree: Tree)
    | Block(verb: string, transformer: TransformerRef, before: Option<Tree>, groups: seq<Statement>, after: Option<Tree>)

  /** A statement's value and the warnings emitted while building it. */
  datatype Dispatched = Dispatched(statement: Statement, warnings: seq<string>)

  /** The positions of the nested statements from `i` on, ascending. */
  function GroupIndices(args: seq<Arg>, i: nat): (r: seq<nat>)
    requires i <= |args|
    ensures forall k :: 0 <= k < |r| ==> i <= r[k] < |args| && args[r[k]].Group?
    ensures forall j :: i <= j < |args| && args[j].Group? ==> j in r
    ensures forall k, l :: 0 <= k < l < |r| ==> r[k] < r[l]
    decreases |args| - i
  {
    if i == |args| then []
    else if args[i].Group? then [i] + GroupIndices(args, i + 1)
    else GroupIndices(args, i + 1)
  }

  /** `[args[ti] for ti in tuple_idxs]`. */
  function GroupsAt(args: seq<Arg>, idxs: seq<nat>): (r: seq<Statement>)
    requires forall k :: 0 <= k < |idxs| ==> idxs[k] < |args| && args[idxs[k]].Group?
    ensures |r| == |idxs|
  {
    seq(|idxs|, k requires 0 <= k < |idxs| => args[idxs[k]].statement)
  }

  /** The nested statements of an argument list, in order. */
  function GroupStatements(args: seq<Arg>): seq<Statement>
  {
    if args == [] then []
    else if args[0].Group? then [args[0].statement] + GroupStatements(args[1..])
    else GroupStatements(args[1..])
  }

  /** The words of an argument list, in order. */
  function WordTexts(args: seq<Arg>): seq<string>
  {
    if args == [] then []
    else if args[0].Word? then [args[0].text] + WordTexts(args[1..])
    else WordTexts(args[1..])
  }

  /**
   * A before/after parse kept for the action: absent when the parser
   * returned nothing or the transformer turned the tree into an empty list.
   */
  function KeptTree(tree: Option<Tree>, transformer: TransformerRef, isEmpty: (TransformerRef, Tree) -> bool)
    : Option<Tree>
  {
    if tree.Some? && !isEmpty(transformer, tree.value) then tree else None
  }

  /**
   * `FeeTransformer.statement`.  `isEmpty(t, tree)` says whether transformer
   * `t` turns `tree` into an empty list.
   */
  function Dispatch(plugins: map<string, Verb>, verb: string, args: seq<Arg>,
                    isEmpty: (TransformerRef, Tree) -> bool): Dispatched
  {
    if verb !in plugins then Dispatched(Unknown(verb, args), ["Unknown verb: " + verb])
    else
      var v := plugins[verb];
      var idxs := GroupIndices(args, 0);
      if |idxs| > 0 then
        var first := idxs[0];
        var last := idxs[|idxs| - 1];
        var beforeTree := Parse(v.bbparser, Join(" ", WordTexts(args[..first])));
        var afterTree := Parse(v.abparser, Join(" ", WordTexts(args[last + 1..])));
        Dispatched(Block(verb, v.transformer,
                         KeptTree(beforeTree, v.transformer, isEmpty),
                         GroupsAt(args, idxs),
                         KeptTree(afterTree, v.transformer, isEmpty)), [])
      else
        Dispatched(Simple(verb, v.transformer, Tree(v.grammar, Join(" ", WordTexts(args)))), [])
  }

  lemma {:induction false} GroupsAtAreGroupStatements(args: seq<Arg>, i: nat)
    requires i <= |args|
    ensures GroupsAt(args, GroupIndices(args, i)) == GroupStatements(args[i..])
    decreases |args| - i
  {
    if i < |args| {
      GroupsAtAreGroupStatements(args, i + 1);
      assert args[i..][0] == args[i];
      assert args[i..][1..] == args[i + 1..];
      var rest := GroupIndices(args, i + 1);
      if args[i].Group? {
        assert GroupIndices(args, i) == [i] + rest;
        GroupsAtCons(args, i, rest);
      } else {
        assert GroupIndices(args, i) == rest;
      }
    } else {
      assert args[i..] == [];
    }
  }

  lemma GroupsAtCons(args: seq<Arg>, i: nat, idxs: seq<nat>)
    requires i < |args| && args[i].Group?
    requires forall k :: 0 <= k < |idxs| ==> idxs[k] < |args| && args[idxs[k]].Group?
    ensures GroupsAt(args, [i] + idxs) == [args[i].statement] + GroupsAt(args, idxs)
  {
  }

  /** An unknown verb warns and passes its arguments through unchanged. */
  lemma DispatchUnknownVerb(plugins: map<string, Verb>, verb: string, args: seq<Arg>,
                            isEmpty: (TransformerRef, Tree) -> bool)
    requires verb !in plugins
    ensures Dispatch(plugins, verb, args, isEmpty) == Dispatched(Unknown(verb, args), ["Unknown verb: " + verb])
  {
  }

  /** The first and last nested statement of an argument list that has one. */
  function FirstGroup(args: seq<Arg>): (i: nat)
    requires exists j :: 0 <= j < |args| && args[j].Group?
    ensures i < |args| && args[i].Group?
    ensures forall j :: 0 <= j < i ==> args[j].Word?
  {
    var j :| 0 <= j < |args| && args[j].Group?;
    var idxs := GroupIndices(args, 0);
    assert j in idxs;
    idxs[0]
  }

  function LastGroup(args: seq<Arg>): (i: nat)
    requires exists j :: 0 <= j < |args| && args[j].Group?
    ensures i < |args| && args[i].Group?
    ensures forall j :: i < j < |args| ==> args[j].Word?
  {
    var j :| 0 <= j < |args| && args[j].Group?;
    var idxs := GroupIndices(args, 0);
    assert j in idxs;
    var last := idxs[|idxs| - 1];
    assert forall k :: last < k < |args| ==> args[k].Word? by {
      forall k | last < k < |args|
        ensures args[k].Word?
      {
        if args[k].Group? {
          assert false;
        }
      }
    }
    last
  }

  /**
   * With nested statements present, the middle of the triple is exactly the
   * nested statements in order.  Words lying between groups take no part.
   */
  lemma DispatchBlockGroups(plugins: map<string, Verb>, verb: string, args: seq<Arg>,
                            isEmpty: (TransformerRef, Tree) -> bool)
    requires verb in plugins
    requires exists j :: 0 <= j < |args| && args[j].Group?
    ensures var d := Dispatch(plugins, verb, args, isEmpty);
      && d.warnings == []
      && d.statement.Block?
      && d.statement.transformer == plugins[verb].transformer
      && d.statement.groups == GroupStatements(args)
  {
    var j :| 0 <= j < |args| && args[j].Group?;
    assert j in GroupIndices(args, 0);
    GroupsAtAreGroupStatements(args, 0);
    assert args[0..] == args;
  }

  /**
   * `before` is parsed from the words ahead of the first nested statement and
   * `after` from those behind the last one; each becomes absent when its
   * parser is the `NullParser` or the transformed parse is empty.
   */
  lemma DispatchBlockEnds(plugins: map<string, Verb>, verb: string, args: seq<Arg>,
                          isEmpty: (TransformerRef, Tree) -> bool)
    requires verb in plugins
    requires exists j :: 0 <= j < |args| && args[j].Group?
    ensures var d := Dispatch(plugins, verb, args, isEmpty);
      var v := plugins[verb];
      var beforeText := Join(" ", WordTexts(args[..FirstGroup(args)]));
      var afterText := Join(" ", WordTexts(args[LastGroup(args) + 1..]));
      && d.statement.before == (if v.bbparser.LarkParser? && !isEmpty(v.transformer, Tree(v.bbparser.grammar, beforeText))
                                then Some(Tree(v.bbparser.grammar, beforeText)) else None)
      && d.statement.after == (if v.abparser.LarkParser? && !isEmpty(v.transformer, Tree(v.abparser.grammar, afterText))
                               then Some(Tree(v.abparser.grammar, afterText)) else None)
  {
    var j :| 0 <= j < |args| && args[j].Group?;
    var idxs := GroupIndices(args, 0);
    assert j in idxs;
    assert FirstGroup(args) == idxs[0] && LastGroup(args) == idxs[|idxs| - 1];
  }

  /** Without nested statements the verb's own parser reads the words joined by spaces. */
  lemma DispatchSimple(plugins: map<string, Verb>, verb: string, args: seq<Arg>,
                       isEmpty: (TransformerRef, Tree) -> bool)
    requires verb in plugins
    requires forall j :: 0 <= j < |args| ==> args[j].Word?
    ensures Dispatch(plugins, verb, args, isEmpty)
      == Dispatched(Simple(verb, plugins[verb].transformer, Tree(plugins[verb].grammar, Join(" ", WordTexts(args)))), [])
  {
  }

  // ---------------------------------------------------------------------
  // filterResults

  /** The values transformers return, as far as flattening and truth go. */
  datatype PyValue =
    | PyStr(s: string)
    | PyList(items: seq<PyValue>)           // any iterable other than a string
    | PyObject(truthy: bool, id: nat)       // anything else, with its truth value

  /** `more_itertools.collapse`: the non-iterable leaves, strings kept whole. */
  function Leaves(v: PyValue): (r: seq<PyValue>)
    ensures forall x :: x in r ==> !x.PyList?
    decreases v, 1
  {
    match v
    case PyList(_) => LeavesFrom(v, 0)
    case _ => [v]
  }

  function LeavesFrom(v: PyValue, i: nat): (r: seq<PyValue>)
    requires v.PyList? && i <= |v.items|
    ensures forall x :: x in r ==> !x.PyList?
    decreases v, 0, |v.items| - i
  {
    if i == |v.items| then [] else Leaves(v.items[i]) + LeavesFrom(v, i + 1)
  }

  predicate Kept(x: PyValue)
  {
    x.PyObject? && x.truthy
  }

  /** `FeeParser.filterResults`: the true non-string leaves, in order. */
  function FilterResults(results: seq<PyValue>): (r: seq<PyValue>)
    ensures forall x :: x in r <==> x in Leaves(PyList(results)) && Kept(x)
  {
    Filter(Leaves(PyList(results)), Kept)
  }

  /** Collapsing a list that holds no lists changes nothing. */
  lemma {:induction false} LeavesOfFlatList(xs: seq<PyValue>, i: nat)
    requires i <= |xs|
    requires forall x :: x in xs ==> !x.PyList?
    ensures LeavesFrom(PyList(xs), i) == xs[i..]
    decreases |xs| - i
  {
    if i < |xs| {
      assert xs[i] in xs;
      LeavesOfFlatList(xs, i + 1);
      assert xs[i..] == [xs[i]] + xs[i + 1..];
    }
  }

  /** Collapsing distributes over concatenation. */
  lemma {:induction false} LeavesOfConcat(xs: seq<PyValue>, ys: seq<PyValue>, i: nat)
    requires i <= |xs|
    ensures LeavesFrom(PyList(xs + ys), i) == LeavesFrom(PyList(xs), i) + LeavesFrom(PyList(ys), 0)
    decreases |xs| - i
  {
    if i < |xs| {
      LeavesOfConcat(xs, ys, i + 1);
      assert (xs + ys)[i] == xs[i];
    } else {
      LeavesShift(xs, ys, 0);
    }
  }

  lemma {:induction false} LeavesShift(xs: seq<PyValue>, ys: seq<PyValue>, j: nat)
    requires j <= |ys|
    ensures LeavesFrom(PyList(xs + ys), |xs| + j) == LeavesFrom(PyList(ys), j)
    decreases |ys| - j
  {
    if j < |ys| {
      LeavesShift(xs, ys, j + 1);
      assert (xs + ys)[|xs| + j] == ys[j];
    }
  }

  // ---------------------------------------------------------------------
  // Integers

  /** What the `NAMEDINTEGER` callback returns: a value, or a ValueError object. */
  datatype IntValue = IntLiteral(value: int) | UndefinedVariable(message: string)

  /** `s[1:]`: the variable name after `$`. */
  function VariableName(token: string): string
  {
    if |token| == 0 then "" else token[1..]
  }

  /**
   * `FEEVerb.NAMEDINTEGER`: the variable's value, or (without raising) an
   * error object whose message keeps its `%s` placeholder unfilled.
   */
  function NamedInteger(variables: map<string, int>, token: string): (r: IntValue)
    ensures r.IntLiteral? <==> VariableName(token) in variables
    ensures r.IntLiteral? ==> r.value == variables[VariableName(token)]
    ensures r.UndefinedVariable? ==> r.message == "Undefined variable: %s"
  {
    var name := VariableName(token);
    if name in variables then IntLiteral(variables[name]) else UndefinedVariable("Undefined variable: %s")
  }

  /** The TypeError `int(...)` raises on the error object. */
  datatype IntError = NotAnInteger

  /** `FEEVerb.integer_container`: `int(...)` of the value. */
  function IntegerContainer(v: IntValue): (r: Result<int, IntError>)
    ensures r.Ok? <==> v.IntLiteral?
    ensures r.Ok? ==> r.value == v.value
  {
    match v
    case IntLiteral(n) => Ok(n)
    case UndefinedVariable(_) => Err(NotAnInteger)
  }

  /** An undefined variable only fails once it is used as an integer. */
  lemma UndefinedVariableFailsLate(variables: map<string, int>, token: string)
    requires VariableName(token) !in variables
    ensures NamedInteger(variables, token).UndefinedVariable?
    ensures IntegerContainer(NamedInteger(variables, token)) == Err(NotAnInteger)
  {
  }

  /** `$name` of a defined variable reads back its value as an integer. */
  lemma DefinedVariableReads(variables: map<string, int>, name: string)
    requires name in variables
    ensures NamedInteger(variables, "$" + name) == IntLiteral(variables[name])
    ensures IntegerContainer(NamedInteger(variables, "$" + name)) == Ok(variables[name])
  {
    assert VariableName("$" + name) == name;
  }

  // ---------------------------------------------------------------------
  // The parser object

  /**
   * `FeeParser` with the state the modelled verbs use: the verb table, the
   * variables, the named classes and anchors of its `fontfeatures`, the
   * font, and what `import_module` can find.
   */
  class FeeParser {
    var plugins: map<string, Verb>
    var variables: map<string, int>
    var namedClasses: ClassTable
    var anchors: map<string, set<string>>
    const font: Font
    const re: Regex
    const helpers: string
    const modules: map<string, PluginModule>

    ghost predicate Valid()
      reads this
    {
      namedClasses.Valid()
    }

    /** The attributes `__init__` sets; the default plugins are loaded by `Create`. */
    constructor (font: Font, re: Regex, helpers: string, modules: map<string, PluginModule>,
                 classes: ClassTable, anchors: map<string, set<string>>)
      requires classes.Valid()
      ensures Valid()
      ensures this.font == font && this.re == re && this.helpers == helpers && this.modules == modules
      ensures namedClasses == classes && this.anchors == anchors
      ensures plugins == map[] && variables == map[]
    {
      this.font := font;
      this.re := re;
      this.helpers := helpers;
      this.modules := modules;
      namedClasses := classes;
      this.anchors := anchors;
      plugins := map[];
      variables := map[];
    }

    /**
     * `FeeParser(font)`: the default plugins loaded in order, then the
     * attributes set.  A missing module or transformer class raises, and no
     * parser results; the object is then only the half-built one.
     */
    static method Create(font: Font, re: Regex, helpers: string, modules: map<string, PluginModule>,
                         classes: ClassTable, anchors: map<string, set<string>>)
      returns (p: FeeParser, err: Option<PluginError>, warnings: seq<string>)
      requires classes.Valid()
      ensures fresh(p) && p.Valid()
      ensures p.font == font && p.re == re && p.helpers == helpers && p.modules == modules
      ensures p.namedClasses == classes && p.anchors == anchors && p.variables == map[]
      ensures (p.plugins, err, warnings) == LoadAll(map[], helpers, modules, DefaultPlugins)
    {
      p := new FeeParser(font, re, helpers, modules, classes, anchors);
      err, warnings := p.LoadPlugins(DefaultPlugins);
    }

    /** The loop of `__init__`: `load_plugin` on each name; the first error propagates. */
    method LoadPlugins(names: seq<string>) returns (err: Option<PluginError>, warnings: seq<string>)
      modifies this
      ensures (plugins, err, warnings) == LoadAll(old(plugins), helpers, modules, names)
      ensures variables == old(variables) && namedClasses == old(namedClasses) && anchors == old(anchors)
    {
      warnings := [];
      var i := 0;
      assert names[0..] == names;
      assert warnings + LoadAll(plugins, helpers, modules, names).2 == LoadAll(plugins, helpers, modules, names).2;
      while i < |names|
        invariant 0 <= i <= |names|
        invariant LoadAll(old(plugins), helpers, modules, names)
          == Prefixed(warnings, LoadAll(plugins, helpers, modules, names[i..]))
        invariant variables == old(variables) && namedClasses == old(namedClasses) && anchors == old(anchors)
      {
        ghost var before := plugins;
        var result, w := LoadPlugin(names[i]);
        LoadAllStep(before, helpers, modules, names, i, warnings, (plugins, result, w));
        if result.Err? {
          return Some(result.error), warnings + w;
        }
        warnings := warnings + w;
        i := i + 1;
      }
      assert names[i..] == [];
      assert warnings + [] == warnings;
      err := None;
    }

    /** `register_plugin`: writes the verbs of `m` into the table one by one. */
    method RegisterPlugin(origin: string, m: PluginModule) returns (err: Option<PluginError>)
      modifies this
      ensures (plugins, err) == RegisterPluginSpec(old(plugins), helpers, origin, m)
      ensures variables == old(variables) && namedClasses == old(namedClasses) && anchors == old(anchors)
    {
      if m.verbs.None? {
        return Some(MissingAttribute("VERBS"));
      }
      var verbs := m.verbs.value;
      if m.parseopts.None? {
        return Some(MissingAttribute("PARSEOPTS"));
      }
      if "use_helpers" !in m.parseopts.value {
        return Some(MissingOption("use_helpers"));
      }
      if m.grammar.None? {
        return Some(MissingAttribute("GRAMMAR"));
      }
      var rules := if m.parseopts.value["use_helpers"] then helpers + m.grammar.value else m.grammar.value;
      var i := 0;
      while i < |verbs|
        invariant 0 <= i <= |verbs|
        invariant RegisterVerbs(old(plugins), rules, origin, m, verbs) == RegisterVerbs(plugins, rules, origin, m, verbs[i..])
        invariant variables == old(variables) && namedClasses == old(namedClasses) && anchors == old(anchors)
      {
        var v := verbs[i];
        var verb := ComposeVerb(rules, origin, m, v);
        if v !in m.transformers {
          return Some(MissingTransformer(v));
        }
        assert verbs[i..][1..] == verbs[i + 1..];
        plugins := plugins[v := verb];
        i := i + 1;
      }
      return None;
    }

    /**
     * `load_plugin`: `Ok(Some(false))` with a warning for a module that is
     * not a plugin, `Ok(None)` once registered, or the error raised.
     */
    method LoadPlugin(plugin: string) returns (result: Result<Option<bool>, PluginError>, warnings: seq<string>)
      modifies this
      ensures var name := ResolvedPluginName(plugin);
        name !in modules ==> result == Err(ModuleNotFound(name)) && warnings == [] && plugins == old(plugins)
      ensures var name := ResolvedPluginName(plugin);
        name in modules && !IsPlugin(modules[name]) ==>
          && result == Ok(Some(false))
          && warnings == ["Module " + name + " is not a FEE plugin"]
          && plugins == old(plugins)
      ensures var name := ResolvedPluginName(plugin);
        name in modules && IsPlugin(modules[name]) ==>
          var (table, err) := RegisterPluginSpec(old(plugins), helpers, name, modules[name]);
          && plugins == table
          && warnings == []
          && result == (if err.None? then Ok(None) else Err(err.value))
      ensures (plugins, result, warnings) == LoadSpec(old(plugins), helpers, modules, plugin)
      ensures variables == old(variables) && namedClasses == old(namedClasses) && anchors == old(anchors)
    {
      var name := ResolvedPluginName(plugin);
      if name !in modules {
        return Err(ModuleNotFound(name)), [];
      }
      var m := modules[name];
      if !IsPlugin(m) {
        return Ok(Some(false)), ["Module " + name + " is not a FEE plugin"];
      }
      var err := RegisterPlugin(name, m);
      warnings := [];
      if err.None? {
        result := Ok(None);
      } else {
        result := Err(err.value);
      }
    }

    /** `FeeTransformer.statement`, building the triple step by step. */
    method Statement(verb: string, args: seq<Arg>, isEmpty: (TransformerRef, Tree) -> bool) returns (r: Dispatched)
      ensures r == Dispatch(plugins, verb, args, isEmpty)
    {
      if verb !in plugins {
        return Dispatched(Unknown(verb, args), ["Unknown verb: " + verb]);
      }
      var requested := plugins[verb];
      var tupleIdxs := GroupIndices(args, 0);
      if |tupleIdxs| > 0 {
        var first, last := tupleIdxs[0], tupleIdxs[|tupleIdxs| - 1];
        var statements := GroupsAt(args, tupleIdxs);
        var beforeTree := Parse(requested.bbparser, Join(" ", WordTexts(args[..first])));
        var afterTree := Parse(requested.abparser, Join(" ", WordTexts(args[last + 1..])));
        var before: Option<Tree> := None;
        if beforeTree.Some? && !isEmpty(requested.transformer, beforeTree.value) {
          before := beforeTree;
        }
        var after: Option<Tree> := None;
        if afterTree.Some? && !isEmpty(requested.transformer, afterTree.value) {
          after := afterTree;
        }
        r := Dispatched(Block(verb, requested.transformer, before, statements, after), []);
      } else {
        var tree := Tree(requested.grammar, Join(" ", WordTexts(args)));
        r := Dispatched(Simple(verb, requested.transformer, tree), []);
      }
    }
  }
}
