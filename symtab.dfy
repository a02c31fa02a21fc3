/**
 * The symbol table shared by the lexer and the semantic analyzer: a map from
 * identifier to its declared type, `None` while the type is still unknown.
 */
module SymTab {
  import opened Wrappers

  datatype SourceType = Int

  class SymbolTable {
    var entries: map<string, Option<SourceType>>

    constructor ()
      ensures entries == map[]
    {
      entries := map[];
    }

    /** `has(name)`. */
    method Has(name: string) returns (b: bool)
      ensures b <==> name in entries
    {
      b := name in entries;
    }

    /** `add(name)`: a new entry whose type is not known yet. */
    method Add(name: string)
      modifies this
      ensures entries == old(entries)[name := None]
    {
      entries := entries[name := None];
    }

    /**
     * `get(name).setType(ty)`. Looking up a missing name fails (`get` gives
     * no entry to update); the table is then unchanged.
     */
    method SetType(name: string, ty: Option<SourceType>) returns (ok: bool)
      modifies this
      ensures ok <==> name in old(entries)
      ensures entries == if ok then old(entries)[name := ty] else old(entries)
    {
      ok := name in entries;
      if ok {
        entries := entries[name := ty];
      }
    }
  }
}
