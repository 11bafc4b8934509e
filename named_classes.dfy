/**
 * The named-class table `fontfeatures.namedClasses`: a Python dict from class
 * name (without `@`) to the glyphs stored there, in insertion order.
 */
module NamedClasses {
  import opened Seqs

  /**
   * What a class holds.  The compiler stores Python lists, sets (the result
   * of `-`) and tuples (binned classes); all of them are iterated as a
   * sequence of names.  For a set the order is Python's own and the model
   * only relies on which names are present.
   */
  datatype Glyphs =
    | GlyphList(items: seq<string>)
    | GlyphSet(items: seq<string>)
    | GlyphTuple(items: seq<string>)

  /** A dict: its keys in insertion order, and the key-to-value map. */
  datatype ClassTable = ClassTable(names: seq<string>, entries: map<string, Glyphs>)
  {
    ghost predicate Valid()
    {
      Distinct(names) && (forall n :: n in entries <==> n in names)
    }

    /**
     * `table[name] = glyphs`: an existing key keeps its position, a new key
     * goes last.
     */
    function Put(name: string, glyphs: Glyphs): (t: ClassTable)
      requires Valid()
      ensures t.Valid()
      ensures t.entries == entries[name := glyphs]
      ensures name in names ==> t.names == names
      ensures name !in names ==> t.names == names + [name]
    {
      if name in names then ClassTable(names, entries[name := glyphs])
      else ClassTable(names + [name], entries[name := glyphs])
    }
  }

  const EmptyTable := ClassTable([], map[])
}
