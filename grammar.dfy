/**
 * What the LR driver and the semantic observers know about the grammar: its
 * productions, the actions of the LR table, and the parse-stack symbols.
 * The table itself is built elsewhere; here it is a pair of lookup functions
 * and an initial state.
 */
module Grammar {
  import opened Tokens

  /** A parser state: an opaque key into the LR table. */
  type State = nat

  type NonTerminal = string

  /** A production: its number, its head, and the length of its body. */
  datatype Production = Production(index: int, head: NonTerminal, bodyLength: nat)

  datatype Action = Shift(next: State) | Reduce(production: Production) | Accept | Error

  /** The read-only LR table: `getInit`, `getAction` and `getGoto`. */
  datatype LRTable = LRTable(
    init: State,
    action: (State, Token) -> Action,
    goto: (State, NonTerminal) -> State)

  /** A parse-stack entry: a shifted token or a reduced nonterminal. */
  datatype Symbol = TokenSymbol(token: Token) | HeadSymbol(head: NonTerminal)

  /**
   * Why an observer gives up on an event (the exceptions the source lets
   * escape): an empty value stack, a head symbol where a token was needed,
   * no symbol table bound, an identifier the table does not know, an
   * immediate where a variable was needed, or a symbol that carries no value
   * where one was needed.
   */
  datatype Fault = EmptyStack | NotAToken | NoSymbolTable | UndeclaredIdentifier | NotAVariable | MissingValue

  /**
   * One call of the observer interface: `whenShift`, `whenReduce` or
   * `whenAccept`, with its arguments.
   */
  datatype Event = OnShift(state: State, token: Token) | OnReduce(state: State, production: Production) | OnAccept(state: State)
}
