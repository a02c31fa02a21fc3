/**
 * The type-checking observer: it keeps its own stack of symbols, each with
 * the type it carries, and on the declaration production writes the
 * declared type into the symbol table.
 */
module Semantic {
  import opened Wrappers
  import opened Tokens
  import opened Grammar
  import opened SymTab

  /** A parse-stack entry with the type it carries (none for most symbols). */
  datatype TypedSymbol = TypedSymbol(symbol: Symbol, ty: Option<SourceType>)

  /** `S -> D id`: declares `id` with the type `D` carries. */
  const Declaration: int := 4

  /** `D -> int`: the type name. */
  const TypeName: int := 5

  /** The type a shifted token carries: `Int` for the `int` keyword only. */
  function ShiftType(t: Token): (ty: Option<SourceType>)
    ensures ty.Some? <==> t.kindId == "int"
    ensures ty.Some? ==> ty.value == Int
  {
    if t.kindId == "int" then Some(Int) else None
  }

  /** How many entries a reduction pops from this observer's stack. */
  function Pops(p: Production): nat
  {
    if p.index == Declaration then 2 else if p.index == TypeName then 1 else p.bodyLength
  }

  class SemanticAnalyzer {
    var table: SymbolTable?
    var tokenStack: seq<TypedSymbol>
    /** Every call this observer has received, in order. */
    ghost var heard: seq<Event>

    constructor ()
      ensures table == null && tokenStack == [] && heard == []
    {
      table := null;
      tokenStack := [];
      heard := [];
    }

    /** `setSymbolTable`. */
    method SetSymbolTable(t: SymbolTable)
      modifies this`table
      ensures table == t
    {
      table := t;
    }

    /** `whenAccept`: nothing to do beyond being told. */
    method WhenAccept(state: State)
      modifies this`heard
      ensures heard == old(heard) + [OnAccept(state)]
      ensures table == old(table) && tokenStack == old(tokenStack)
    {
      heard := heard + [OnAccept(state)];
    }

    /**
     * `whenShift`: pushes exactly one symbol, the token, typed `Int` when its
     * kind is `int` and untyped otherwise.
     */
    method WhenShift(state: State, token: Token)
      modifies this`tokenStack, this`heard
      ensures heard == old(heard) + [OnShift(state, token)]
      ensures tokenStack == old(tokenStack) + [TypedSymbol(TokenSymbol(token), ShiftType(token))]
      ensures tokenStack[|tokenStack| - 1].ty == Some(Int) <==> token.kindId == "int"
    {
      heard := heard + [OnShift(state, token)];
      tokenStack := tokenStack + [TypedSymbol(TokenSymbol(token), ShiftType(token))];
    }

    /**
     * `whenReduce`. The declaration pops the identifier, then the type
     * symbol, and sets the identifier's entry to that type; the type name
     * pops one symbol and passes its type up; any other production pops its
     * body. Each pushes one head symbol. Only the declaration writes the
     * table, and only the one entry.
     */
    method WhenReduce(state: State, p: Production) returns (fault: Option<Fault>)
      modifies this`tokenStack, this`heard, table
      ensures heard == old(heard) + [OnReduce(state, p)]
      ensures var n := |old(tokenStack)|;
        && (fault == Some(EmptyStack) <==> n < Pops(p))
        && (fault == Some(EmptyStack) ==> tokenStack == [])
        && (fault.None? ==>
              tokenStack == old(tokenStack)[..n - Pops(p)] +
                            [TypedSymbol(HeadSymbol(p.head),
                                         if p.index == TypeName then old(tokenStack)[n - 1].ty else None)])
      ensures p.index != Declaration ==> fault.None? || fault == Some(EmptyStack)
      ensures p.index != Declaration && table != null ==> table.entries == old(table.entries)
      ensures p.index == Declaration && fault != Some(EmptyStack) ==>
        var n := |old(tokenStack)|;
        var id := old(tokenStack)[n - 1].symbol;
        var declared := old(tokenStack)[n - 2].ty;
        && (fault.Some? ==> tokenStack == old(tokenStack)[..n - 2])
        && (fault == Some(NotAToken) <==> !id.TokenSymbol?)
        && (fault == Some(NoSymbolTable) <==> id.TokenSymbol? && table == null)
        && (fault == Some(UndeclaredIdentifier) <==>
              id.TokenSymbol? && table != null && id.token.text !in old(table.entries))
        && (table != null ==>
              table.entries == if fault.None? then old(table.entries)[id.token.text := declared]
                               else old(table.entries))
    {
      heard := heard + [OnReduce(state, p)];
      if p.index == Declaration {
        if |tokenStack| < 2 {
          tokenStack := [];
          return Some(EmptyStack);
        }
        var id := tokenStack[|tokenStack| - 1];
        var declared := tokenStack[|tokenStack| - 2];
        tokenStack := tokenStack[..|tokenStack| - 2];
        if !id.symbol.TokenSymbol? {
          return Some(NotAToken);
        }
        if table == null {
          return Some(NoSymbolTable);
        }
        var ok := table.SetType(id.symbol.token.text, declared.ty);
        if !ok {
          return Some(UndeclaredIdentifier);
        }
        tokenStack := tokenStack + [TypedSymbol(HeadSymbol(p.head), None)];
        fault := None;
      } else if p.index == TypeName {
        if tokenStack == [] {
          return Some(EmptyStack);
        }
        var top := tokenStack[|tokenStack| - 1];
        tokenStack := tokenStack[..|tokenStack| - 1] + [TypedSymbol(HeadSymbol(p.head), top.ty)];
        fault := None;
      } else {
        var i := 0;
        while i < p.bodyLength
          invariant 0 <= i <= p.bodyLength && i <= |old(tokenStack)|
          invariant tokenStack == old(tokenStack)[..|old(tokenStack)| - i]
          invariant table != null ==> table.entries == old(table.entries)
          invariant heard == old(heard) + [OnReduce(state, p)]
        {
          if tokenStack == [] {
            assert |old(tokenStack)| == i;
            return Some(EmptyStack);
          }
          tokenStack := tokenStack[..|tokenStack| - 1];
          i := i + 1;
        }
        tokenStack := tokenStack + [TypedSymbol(HeadSymbol(p.head), None)];
        fault := None;
      }
    }
  }
}
