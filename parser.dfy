/**
 * The LR driver. It runs the shift/reduce/accept/error loop over a state
 * stack and a symbol stack and tells every registered observer about each
 * shift, reduce and accept.
 *
 * The driver's own behaviour is the pure function `Drive` over a
 * configuration (the two stacks and the token cursor); `Run` is proved to
 * follow it, and to leave every observer's own record of the calls it
 * received (`heard`) extended by exactly the events of `Drive`.
 */
module Parser {
  import opened Wrappers
  import opened Tokens
  import opened Grammar
  import opened SymTab
  import opened Semantic
  import opened IRGen

  /** A registered observer: the type checker or the IR generator. */
  datatype Observer = Types(analyzer: SemanticAnalyzer) | Codegen(generator: IRGenerator)
  {
    function Target(): object
    {
      if Types? then analyzer else generator
    }

    /** The calls the observer has received, as it records them. */
    ghost function Heard(): seq<Event>
      reads Target()
    {
      if Types? then analyzer.heard else generator.heard
    }
  }

  /** The driver's state: state stack, symbol stack (tops last) and cursor. */
  datatype Config = Config(states: seq<State>, symbols: seq<Symbol>, cursor: nat)

  /**
   * Why the loop ends: acceptance, a syntax error, running off the end of
   * the tokens, popping an empty stack, fuel running out, no table loaded,
   * or an observer's fault.
   */
  datatype Stop =
    | Accepted
    | SyntaxError
    | TokensExhausted
    | StackUnderflow
    | OutOfFuel
    | NoLRTable
    | ObserverFailed(observer: nat, fault: Fault)

  /** One turn of the loop: go on from a new configuration, or stop. */
  datatype StepResult = Continue(next: Config, event: Event) | Halt(stop: Stop, notice: Option<Event>)

  /**
   * One turn of the loop on the driver's own state. Only a shift or a
   * reduce keeps the loop going, and then the state stack is not empty, so
   * the next turn's `peek` has a state to read.
   */
  function StepConfig(t: LRTable, tokens: seq<Token>, c: Config): (r: StepResult)
    ensures r.Continue? ==> (r.event.OnShift? || r.event.OnReduce?) && |r.next.states| >= 1
  {
    if c.cursor >= |tokens| then Halt(TokensExhausted, None)
    else if c.states == [] then Halt(StackUnderflow, None)
    else
      var token := tokens[c.cursor];
      var state := c.states[|c.states| - 1];
      match t.action(state, token)
      case Shift(next) =>
        Continue(Config(c.states + [next], c.symbols + [TokenSymbol(token)], c.cursor + 1), OnShift(state, token))
      case Reduce(prod) =>
        var k := prod.bodyLength;
        if |c.states| <= k || |c.symbols| < k then Halt(StackUnderflow, Some(OnReduce(state, prod)))
        else
          var states := c.states[..|c.states| - k];
          Continue(Config(states + [t.goto(states[|states| - 1], prod.head)],
                          c.symbols[..|c.symbols| - k] + [HeadSymbol(prod.head)], c.cursor),
                   OnReduce(state, prod))
      case Accept => Halt(Accepted, Some(OnAccept(state)))
      case Error => Halt(SyntaxError, None)
  }

  /** At most `fuel` turns: how the loop stops, the last configuration and the events sent. */
  function Drive(t: LRTable, tokens: seq<Token>, c: Config, fuel: nat): (r: (Stop, Config, seq<Event>))
    ensures |r.2| <= fuel
    ensures r.0 != NoLRTable && !r.0.ObserverFailed?
    decreases fuel
  {
    if fuel == 0 then (OutOfFuel, c, [])
    else
      match StepConfig(t, tokens, c)
      case Halt(stop, e) => (stop, c, if e.Some? then [e.value] else [])
      case Continue(next, e) =>
        var (stop, last, es) := Drive(t, tokens, next, fuel - 1);
        (stop, last, [e] + es)
  }

  function ShiftCount(es: seq<Event>): nat
  {
    if es == [] then 0 else (if es[0].OnShift? then 1 else 0) + ShiftCount(es[1..])
  }

  // ---------------------------------------------------------------------
  // Properties of the driver

  /**
   * A shift pushes one state and one symbol and advances the cursor; a
   * reduce pops the body from both stacks and pushes the goto state and the
   * head; nothing else moves the cursor.
   */
  lemma StepEffect(t: LRTable, tokens: seq<Token>, c: Config)
    requires StepConfig(t, tokens, c).Continue?
    ensures var r := StepConfig(t, tokens, c);
      var next := r.next;
      && c.cursor < |tokens| && c.states != []
      && var state := c.states[|c.states| - 1];
      && (r.event.OnShift? ==>
            && t.action(state, tokens[c.cursor]) == Shift(next.states[|next.states| - 1])
            && next.states[..|next.states| - 1] == c.states
            && next.symbols == c.symbols + [TokenSymbol(tokens[c.cursor])]
            && next.cursor == c.cursor + 1)
      && (r.event.OnReduce? ==>
            var prod := r.event.production;
            var k := prod.bodyLength;
            && t.action(state, tokens[c.cursor]) == Reduce(prod)
            && k < |c.states| && k <= |c.symbols|
            && next.states[..|next.states| - 1] == c.states[..|c.states| - k]
            && next.states[|next.states| - 1] == t.goto(c.states[|c.states| - k - 1], prod.head)
            && next.symbols == c.symbols[..|c.symbols| - k] + [HeadSymbol(prod.head)]
            && next.cursor == c.cursor)
      && !r.event.OnAccept?
      && r.event.state == state
  {
  }

  /** Stack depths stay equal, and at least one, from turn to turn and to the end. */
  lemma {:induction false} DriveDepths(t: LRTable, tokens: seq<Token>, c: Config, fuel: nat)
    requires |c.states| == |c.symbols| >= 1
    ensures var last := Drive(t, tokens, c, fuel).1;
      |last.states| == |last.symbols| >= 1
    decreases fuel
  {
    if fuel > 0 {
      var r := StepConfig(t, tokens, c);
      if r.Continue? {
        DriveDepths(t, tokens, r.next, fuel - 1);
      }
    }
  }

  /** The cursor advances by exactly the number of shifts. */
  lemma {:induction false} DriveCursor(t: LRTable, tokens: seq<Token>, c: Config, fuel: nat)
    ensures var (_, last, es) := Drive(t, tokens, c, fuel);
      last.cursor == c.cursor + ShiftCount(es)
    decreases fuel
  {
    if fuel > 0 {
      var r := StepConfig(t, tokens, c);
      if r.Halt? {
        var es := Drive(t, tokens, c, fuel).2;
        assert es == [] || es == [r.notice.value];
        if es != [] {
          assert ShiftCount(es) == (if es[0].OnShift? then 1 else 0) + ShiftCount(es[1..]);
          assert es[1..] == [];
        }
      } else {
        DriveCursor(t, tokens, r.next, fuel - 1);
        var es := Drive(t, tokens, c, fuel).2;
        assert es[1..] == Drive(t, tokens, r.next, fuel - 1).2;
      }
    }
  }

  function EventSeq(e: Option<Event>): seq<Event>
  {
    if e.Some? then [e.value] else []
  }

  /** The events one turn sends to the observers. */
  function TurnEvents(r: StepResult): seq<Event>
  {
    if r.Continue? then [r.event] else EventSeq(r.notice)
  }

  /**
   * Unless fuel runs out, the loop stops where the last configuration's
   * turn says stop, and that turn's event, if it has one, is the last one
   * sent. An error turn sends none.
   */
  lemma {:induction false} DriveHalts(t: LRTable, tokens: seq<Token>, c: Config, fuel: nat)
    ensures var (stop, last, es) := Drive(t, tokens, c, fuel);
      var r := StepConfig(t, tokens, last);
      && (stop == OutOfFuel ==> |es| == fuel)
      && (stop != OutOfFuel ==>
            && r.Halt? && r.stop == stop
            && |EventSeq(r.notice)| <= |es|
            && es[|es| - |EventSeq(r.notice)|..] == EventSeq(r.notice))
    decreases fuel
  {
    if fuel > 0 {
      var r := StepConfig(t, tokens, c);
      if r.Continue? {
        var (stop, last, es) := Drive(t, tokens, r.next, fuel - 1);
        DriveHalts(t, tokens, r.next, fuel - 1);
        assert Drive(t, tokens, c, fuel) == (stop, last, [r.event] + es);
        if stop != OutOfFuel {
          var notice := EventSeq(StepConfig(t, tokens, last).notice);
          assert es[|es| - |notice|..] == notice;
          assert ([r.event] + es)[|[r.event] + es| - |notice|..] == es[|es| - |notice|..];
        }
      } else {
        assert Drive(t, tokens, c, fuel) == (r.stop, c, EventSeq(r.notice));
        assert EventSeq(r.notice)[0..] == EventSeq(r.notice);
      }
    }
  }

  /** Turns that go on never send an accept; a halting turn sends one only when it accepts. */
  lemma StepAccept(t: LRTable, tokens: seq<Token>, c: Config)
    ensures var r := StepConfig(t, tokens, c);
      && (r.Continue? ==> !r.event.OnAccept?)
      && (r.Halt? ==> (r.stop == Accepted <==> r.notice.Some? && r.notice.value.OnAccept?))
      && (r.Halt? && r.stop == SyntaxError ==> r.notice.None?)
  {
  }

  /**
   * The loop accepts exactly when the last event sent is an accept, and no
   * earlier event is one.
   */
  lemma {:induction false} DriveAccept(t: LRTable, tokens: seq<Token>, c: Config, fuel: nat)
    ensures var (stop, _, es) := Drive(t, tokens, c, fuel);
      && (forall k :: 0 <= k < |es| - 1 ==> !es[k].OnAccept?)
      && (stop == Accepted <==> |es| > 0 && es[|es| - 1].OnAccept?)
    decreases fuel
  {
    if fuel > 0 {
      var r := StepConfig(t, tokens, c);
      StepAccept(t, tokens, c);
      if r.Continue? {
        DriveAccept(t, tokens, r.next, fuel - 1);
        var (stop, _, es) := Drive(t, tokens, r.next, fuel - 1);
        assert Drive(t, tokens, c, fuel).2 == [r.event] + es;
      }
    }
  }

  /** Where `run()` starts: the initial state and the end marker pushed, the cursor at 0. */
  function Start(t: LRTable, states: seq<State>, symbols: seq<Symbol>): Config
  {
    Config(states + [t.init], symbols + [TokenSymbol(Eof())], 0)
  }

  /**
   * Where `Drive` stands after `n` turns that all went on: one more turn
   * that goes on moves it to that turn's configuration and adds its event.
   */
  lemma {:induction false} DriveExtend(t: LRTable, tokens: seq<Token>, c: Config, n: nat)
    requires Drive(t, tokens, c, n).0 == OutOfFuel
    requires StepConfig(t, tokens, Drive(t, tokens, c, n).1).Continue?
    ensures var r := StepConfig(t, tokens, Drive(t, tokens, c, n).1);
      Drive(t, tokens, c, n + 1) == (OutOfFuel, r.next, Drive(t, tokens, c, n).2 + [r.event])
    decreases n
  {
    var r := StepConfig(t, tokens, c);
    if n == 0 {
      assert Drive(t, tokens, c, 1) == (OutOfFuel, r.next, [r.event] + []);
      assert [r.event] + [] == [] + [r.event];
    } else {
      assert r.Continue?;
      var d := Drive(t, tokens, r.next, n - 1);
      assert Drive(t, tokens, c, n) == (d.0, d.1, [r.event] + d.2);
      DriveExtend(t, tokens, r.next, n - 1);
      var d' := Drive(t, tokens, r.next, n);
      assert Drive(t, tokens, c, n + 1) == (d'.0, d'.1, [r.event] + d'.2);
      var last := StepConfig(t, tokens, d.1);
      assert ([r.event] + d.2) + [last.event] == [r.event] + (d.2 + [last.event]);
    }
  }



  /**
   * Where `Drive` stands after `n` turns that all went on: if the next turn
   * stops, any larger fuel stops there too, with that turn's event, if any,
   * sent last.
   */
  lemma {:induction false} DriveStops(t: LRTable, tokens: seq<Token>, c: Config, n: nat, m: nat)
    requires n < m
    requires Drive(t, tokens, c, n).0 == OutOfFuel
    requires StepConfig(t, tokens, Drive(t, tokens, c, n).1).Halt?
    ensures var d := Drive(t, tokens, c, n);
      var r := StepConfig(t, tokens, d.1);
      Drive(t, tokens, c, m) == (r.stop, d.1, d.2 + EventSeq(r.notice))
    decreases n
  {
    var r := StepConfig(t, tokens, c);
    if n == 0 {
      assert Drive(t, tokens, c, m) == (r.stop, c, EventSeq(r.notice));
      assert [] + EventSeq(r.notice) == EventSeq(r.notice);
    } else {
      assert r.Continue?;
      var d := Drive(t, tokens, r.next, n - 1);
      assert Drive(t, tokens, c, n) == (d.0, d.1, [r.event] + d.2);
      DriveStops(t, tokens, r.next, n - 1, m - 1);
      var d' := Drive(t, tokens, r.next, m - 1);
      assert Drive(t, tokens, c, m) == (d'.0, d'.1, [r.event] + d'.2);
      var last := StepConfig(t, tokens, d.1);
      assert ([r.event] + d.2) + EventSeq(last.notice) == [r.event] + (d.2 + EventSeq(last.notice));
    }
  }

  class SyntaxAnalyzer {
    const symbolTable: SymbolTable
    var observers: seq<Observer>
    var tokens: seq<Token>
    var lrTable: Option<LRTable>
    var statusStack: seq<State>
    var symbolStack: seq<Symbol>

    /** The registered observers; never the driver itself or the symbol table. */
    ghost function Targets(): (r: set<object>)
      reads this`observers
      ensures this !in r && symbolTable !in r
      ensures forall k :: 0 <= k < |observers| ==> observers[k].Target() in r
    {
      set k | 0 <= k < |observers| :: observers[k].Target()
    }

    /**
     * The observers are distinct objects, every one holds the shared symbol
     * table, and every IR generator's temporaries are fresh.
     */
    ghost predicate Bound()
      reads this`observers, Targets()
    {
      && (forall i, j :: 0 <= i < j < |observers| ==> observers[i].Target() != observers[j].Target())
      && forall k :: 0 <= k < |observers| ==>
           && observers[k].Target() in Targets()
           && match observers[k]
              case Types(a) => a.table == symbolTable
              case Codegen(g) => g.table == symbolTable && g.Valid()
    }

    /** The two parse stacks have the same depth. */
    ghost predicate Valid()
      reads this
    {
      |statusStack| == |symbolStack|
    }

    constructor (symbolTable: SymbolTable)
      ensures Valid() && Bound()
      ensures this.symbolTable == symbolTable
      ensures observers == [] && tokens == [] && lrTable == None
      ensures statusStack == [] && symbolStack == []
    {
      this.symbolTable := symbolTable;
      observers := [];
      tokens := [];
      lrTable := None;
      statusStack := [];
      symbolStack := [];
    }

    /** `registerObserver`: appends the observer and hands it the shared table. */
    method RegisterObserver(o: Observer)
      requires Bound()
      requires o.Target() !in Targets()
      requires o.Codegen? ==> o.generator.Valid()
      modifies this`observers, o.Target()
      ensures Bound()
      ensures observers == old(observers) + [o]
      ensures o.Heard() == old(o.Heard())
      ensures forall j :: 0 <= j < |old(observers)| ==> observers[j].Heard() == old(observers[j].Heard())
      ensures o.Types? ==> o.analyzer.table == symbolTable && o.analyzer.tokenStack == old(o.analyzer.tokenStack)
      ensures o.Codegen? ==>
        && o.generator.table == symbolTable
        && o.generator.tokenStack == old(o.generator.tokenStack)
        && o.generator.ir == old(o.generator.ir)
        && o.generator.nextTemp == old(o.generator.nextTemp)
    {
      HandTable(o);
      Append(o);
    }

    /** Adds an observer that already holds the shared table to the list. */
    method Append(o: Observer)
      requires Bound() && o.Target() !in Targets()
      requires o.Types? ==> o.analyzer.table == symbolTable
      requires o.Codegen? ==> o.generator.table == symbolTable && o.generator.Valid()
      modifies this`observers
      ensures Bound()
      ensures observers == old(observers) + [o]
    {
      observers := observers + [o];
      assert forall k :: 0 <= k < |observers| ==> observers[k].Target() in Targets();
    }

    /** Hands the observer the shared symbol table, and changes nothing else of it. */
    method HandTable(o: Observer)
      requires Bound() && o.Target() !in Targets()
      modifies o.Target()
      ensures Bound()
      ensures forall j :: 0 <= j < |observers| ==> observers[j].Heard() == old(observers[j].Heard())
      ensures o.Heard() == old(o.Heard())
      ensures o.Types? ==> o.analyzer.table == symbolTable && o.analyzer.tokenStack == old(o.analyzer.tokenStack)
      ensures o.Codegen? ==>
        && o.generator.table == symbolTable
        && o.generator.tokenStack == old(o.generator.tokenStack)
        && o.generator.ir == old(o.generator.ir)
        && o.generator.nextTemp == old(o.generator.nextTemp)
    {
      match o {
        case Types(a) => a.SetSymbolTable(symbolTable);
        case Codegen(g) => g.SetSymbolTable(symbolTable);
      }
    }

    /** `loadTokens`: appends the tokens, in order. */
    method LoadTokens(input: seq<Token>)
      modifies this`tokens
      ensures tokens == old(tokens) + input
    {
      var k := 0;
      while k < |input|
        invariant 0 <= k <= |input|
        invariant tokens == old(tokens) + input[..k]
      {
        tokens := tokens + [input[k]];
        k := k + 1;
      }
      assert input[..k] == input;
    }

    /** `loadLRTable`. */
    method LoadLRTable(t: LRTable)
      modifies this`lrTable
      ensures lrTable == Some(t)
    {
      lrTable := Some(t);
    }

    /** Observer `k` is told the shift. */
    method TellShift(k: nat, state: State, token: Token)
      requires Bound() && k < |observers|
      modifies observers[k].Target()
      ensures Bound()
      ensures forall j :: 0 <= j < |observers| ==>
        observers[j].Heard() == old(observers[j].Heard()) + (if j == k then [OnShift(state, token)] else [])
    {
      match observers[k] {
        case Types(a) => a.WhenShift(state, token);
        case Codegen(g) => g.WhenShift(state, token);
      }
    }

    /** `callWhenInShift`: every observer is told the shift, once. */
    method CallWhenInShift(state: State, token: Token)
      requires Bound()
      modifies Targets()
      ensures Bound()
      ensures forall j :: 0 <= j < |observers| ==> observers[j].Heard() == old(observers[j].Heard()) + [OnShift(state, token)]
    {
      var k := 0;
      while k < |observers|
        invariant 0 <= k <= |observers|
        invariant Bound()
        invariant forall j :: 0 <= j < |observers| ==>
                    observers[j].Heard() == old(observers[j].Heard()) + (if j < k then [OnShift(state, token)] else [])
      {
        TellShift(k, state, token);
        k := k + 1;
      }
    }

    /** Observer `k` is told the reduce, and may fault. */
    method TellReduce(k: nat, state: State, prod: Production) returns (fault: Option<Fault>)
      requires Bound() && k < |observers|
      modifies observers[k].Target(), symbolTable
      ensures Bound()
      ensures forall j :: 0 <= j < |observers| ==>
        observers[j].Heard() == old(observers[j].Heard()) + (if j == k then [OnReduce(state, prod)] else [])
    {
      match observers[k] {
        case Types(a) => fault := a.WhenReduce(state, prod);
        case Codegen(g) => fault := g.WhenReduce(state, prod);
      }
    }

    /**
     * `callWhenInReduce`: the observers are told the reduce in registration
     * order; the first one that faults ends the fan-out, having been told,
     * and those after it are not told.
     */
    method CallWhenInReduce(state: State, prod: Production) returns (failed: Option<(nat, Fault)>)
      requires Bound()
      modifies Targets(), symbolTable
      ensures Bound()
      ensures failed.Some? ==> failed.value.0 < |observers|
      ensures forall j :: 0 <= j < |observers| ==>
        observers[j].Heard() == old(observers[j].Heard()) +
          (if failed.None? || j <= failed.value.0 then [OnReduce(state, prod)] else [])
    {
      var k := 0;
      while k < |observers|
        invariant 0 <= k <= |observers|
        invariant Bound()
        invariant forall j :: 0 <= j < |observers| ==>
                    observers[j].Heard() == old(observers[j].Heard()) + (if j < k then [OnReduce(state, prod)] else [])
      {
        var fault := TellReduce(k, state, prod);
        if fault.Some? {
          return Some((k, fault.value));
        }
        k := k + 1;
      }
      failed := None;
    }

    /** Observer `k` is told the accept. */
    method TellAccept(k: nat, state: State)
      requires Bound() && k < |observers|
      modifies observers[k].Target()
      ensures Bound()
      ensures forall j :: 0 <= j < |observers| ==>
        observers[j].Heard() == old(observers[j].Heard()) + (if j == k then [OnAccept(state)] else [])
    {
      match observers[k] {
        case Types(a) => a.WhenAccept(state);
        case Codegen(g) => g.WhenAccept(state);
      }
    }

    /** `callWhenInAccept`: every observer is told the accept, once. */
    method CallWhenInAccept(state: State)
      requires Bound()
      modifies Targets()
      ensures Bound()
      ensures forall j :: 0 <= j < |observers| ==> observers[j].Heard() == old(observers[j].Heard()) + [OnAccept(state)]
    {
      var k := 0;
      while k < |observers|
        invariant 0 <= k <= |observers|
        invariant Bound()
        invariant forall j :: 0 <= j < |observers| ==>
                    observers[j].Heard() == old(observers[j].Heard()) + (if j < k then [OnAccept(state)] else [])
      {
        TellAccept(k, state);
        k := k + 1;
      }
    }

    /**
     * `run()` for at most `fuel` turns: pushes the initial state and the end
     * marker, then follows `Drive` from there, telling every observer each
     * event. An observer's fault ends the run in a reduce turn, after `turns`
     * turns of `Drive`, with the stacks not yet touched by that turn and only
     * the observers up to the faulting one told of it.
     */
    method Run(fuel: nat) returns (stop: Stop, ghost turns: nat)
      requires Valid() && Bound()
      modifies this`statusStack, this`symbolStack, Targets(), symbolTable
      ensures Valid() && Bound()
      ensures lrTable.None? ==>
        && stop == NoLRTable
        && statusStack == old(statusStack) && symbolStack == old(symbolStack)
        && forall j :: 0 <= j < |observers| ==> observers[j].Heard() == old(observers[j].Heard())
      ensures lrTable.Some? && !stop.ObserverFailed? ==>
        var d := Drive(lrTable.value, tokens, Start(lrTable.value, old(statusStack), old(symbolStack)), fuel);
        && stop == d.0
        && statusStack == d.1.states && symbolStack == d.1.symbols
        && forall j :: 0 <= j < |observers| ==> observers[j].Heard() == old(observers[j].Heard()) + d.2
      ensures stop.ObserverFailed? ==>
        var c := Start(lrTable.value, old(statusStack), old(symbolStack));
        && lrTable.Some?
        && FailedIn(lrTable.value, c, fuel, turns, stop.observer)
        && forall j :: 0 <= j < |observers| ==>
             observers[j].Heard() == old(observers[j].Heard()) + Drive(lrTable.value, tokens, c, turns).2 +
               (if j <= stop.observer then FailedTurn(lrTable.value, c, turns) else [])
    {
      if lrTable.None? {
        return NoLRTable, 0;
      }
      var t := lrTable.value;
      statusStack := statusStack + [t.init];
      symbolStack := symbolStack + [TokenSymbol(Eof())];
      stop, turns := Loop(t, fuel);
    }

    /** The events of the turn after `n` turns of `Drive` from `c`. */
    ghost function FailedTurn(t: LRTable, c: Config, n: nat): seq<Event>
      reads this`tokens
    {
      TurnEvents(StepConfig(t, tokens, Drive(t, tokens, c, n).1))
    }

    /**
     * Where an observer's fault leaves the driver: `Drive` went on for
     * `n < fuel` turns from `c`, the next turn is a reduce, the stacks are
     * still those of the configuration before it, and observer `k` exists.
     */
    ghost predicate FailedIn(t: LRTable, c: Config, fuel: nat, n: nat, k: nat)
      reads this
    {
      var d := Drive(t, tokens, c, n);
      && n < fuel && d.0 == OutOfFuel
      && statusStack == d.1.states && symbolStack == d.1.symbols
      && |FailedTurn(t, c, n)| == 1 && FailedTurn(t, c, n)[0].OnReduce?
      && k < |observers|
    }

    /**
     * `run()`'s loop from cursor 0 on the current stacks: it follows `Drive`
     * turn by turn, telling every observer each turn's event.
     */
    method Loop(t: LRTable, fuel: nat) returns (stop: Stop, ghost turns: nat)
      requires Valid() && Bound() && |statusStack| >= 1
      modifies this`statusStack, this`symbolStack, Targets(), symbolTable
      ensures Valid() && Bound()
      ensures !stop.ObserverFailed? ==>
        var d := Drive(t, tokens, Config(old(statusStack), old(symbolStack), 0), fuel);
        && stop == d.0
        && statusStack == d.1.states && symbolStack == d.1.symbols
        && forall j :: 0 <= j < |observers| ==> observers[j].Heard() == old(observers[j].Heard()) + d.2
      ensures stop.ObserverFailed? ==>
        var c := Config(old(statusStack), old(symbolStack), 0);
        && FailedIn(t, c, fuel, turns, stop.observer)
        && forall j :: 0 <= j < |observers| ==>
             observers[j].Heard() == old(observers[j].Heard()) + Drive(t, tokens, c, turns).2 +
               (if j <= stop.observer then FailedTurn(t, c, turns) else [])
    {
      ghost var start := Config(statusStack, symbolStack, 0);
      ghost var heard := Snapshot();
      ghost var events: seq<Event> := [];
      var p: nat := 0;
      var left: nat := fuel;
      var looping := true;
      stop := OutOfFuel;
      turns := 0;
      ghost var targets := Targets();
      while looping && left > 0
        invariant Valid() && Bound() && |statusStack| >= 1
        invariant Targets() == targets
        invariant |heard| == |observers|
        invariant forall j :: 0 <= j < |observers| ==> heard[j] == old(observers[j].Heard())
        invariant forall j :: 0 <= j < |observers| ==> observers[j].Heard() == heard[j] + events
        invariant looping ==> turns + left == fuel && stop == OutOfFuel
        invariant looping ==> Drive(t, tokens, start, turns) == (OutOfFuel, Config(statusStack, symbolStack, p), events)
        invariant !looping ==> Drive(t, tokens, start, fuel) == (stop, Config(statusStack, symbolStack, p), events)
        invariant !stop.ObserverFailed?
        decreases left
      {
        var going, halted, p', sent := Advance(t, p, heard, events);
        if halted.ObserverFailed? {
          return halted, turns;
        }
        if going {
          DriveExtend(t, tokens, start, turns);
          p, turns := p', turns + 1;
        } else {
          DriveStops(t, tokens, start, turns, fuel);
          stop, looping := halted, false;
        }
        events := sent;
        left := left - 1;
      }
    }

    /** What every observer has heard so far, observer by observer. */
    ghost method Snapshot() returns (heard: seq<seq<Event>>)
      ensures |heard| == |observers|
      ensures forall j :: 0 <= j < |observers| ==> heard[j] == observers[j].Heard()
    {
      heard := [];
      while |heard| < |observers|
        invariant |heard| <= |observers|
        invariant forall j :: 0 <= j < |heard| ==> heard[j] == observers[j].Heard()
      {
        heard := heard + [observers[|heard|].Heard()];
      }
    }

    /**
     * One turn of `run()`'s loop, `Turn`, seen from the loop: every observer
     * has heard `heard[j]` and then `events`, and after the turn also the
     * turn's events, or, on an observer's fault, only those up to the one
     * that gave up.
     */
    method Advance(t: LRTable, p: nat, ghost heard: seq<seq<Event>>, ghost events: seq<Event>)
      returns (going: bool, stop: Stop, p': nat, ghost events': seq<Event>)
      requires Valid() && Bound() && |statusStack| >= 1
      requires |heard| == |observers|
      requires forall j :: 0 <= j < |observers| ==> observers[j].Heard() == heard[j] + events
      modifies this`statusStack, this`symbolStack, Targets(), symbolTable
      ensures Valid() && Bound() && |statusStack| >= 1
      ensures var r := StepConfig(t, tokens, Config(old(statusStack), old(symbolStack), p));
        && events' == events + TurnEvents(r)
        && (stop.ObserverFailed? ==>
              && !going && Failed(r, stop.observer, old(statusStack), old(symbolStack))
              && forall j :: 0 <= j < |observers| ==>
                   observers[j].Heard() == heard[j] + events + (if j <= stop.observer then TurnEvents(r) else []))
      ensures !stop.ObserverFailed? ==>
        var r := StepConfig(t, tokens, Config(old(statusStack), old(symbolStack), p));
        && (forall j :: 0 <= j < |observers| ==> observers[j].Heard() == heard[j] + events')
        && (going <==> r.Continue?)
        && (going ==> stop == OutOfFuel && Config(statusStack, symbolStack, p') == r.next)
        && (!going ==> stop == r.stop && statusStack == old(statusStack) && symbolStack == old(symbolStack))
    {
      ghost var r := StepConfig(t, tokens, Config(statusStack, symbolStack, p));
      events' := events + TurnEvents(r);
      going, stop, p' := Turn(t, p);
      if !stop.ObserverFailed? {
        forall j | 0 <= j < |observers|
          ensures observers[j].Heard() == heard[j] + events'
        {
          assert heard[j] + events + TurnEvents(r) == heard[j] + events';
        }
      }
    }

    /**
     * An observer's fault in the turn `r`: the turn is a reduce, the stacks
     * are as they were before it, and observer `k` exists.
     */
    ghost predicate Failed(r: StepResult, k: nat, states: seq<State>, symbols: seq<Symbol>)
      reads this
    {
      && |TurnEvents(r)| == 1 && TurnEvents(r)[0].OnReduce?
      && k < |observers|
      && statusStack == states && symbolStack == symbols
    }

    /**
     * One turn of `run()`'s loop from cursor `p`: what `StepConfig` says,
     * with the turn's event told to every observer; or the fault of the
     * observer that gave up, told with those before it.
     */
    method Turn(t: LRTable, p: nat) returns (going: bool, stop: Stop, p': nat)
      requires Valid() && Bound() && |statusStack| >= 1
      modifies this`statusStack, this`symbolStack, Targets(), symbolTable
      ensures Valid() && Bound() && |statusStack| >= 1
      ensures stop.ObserverFailed? ==>
        var r := StepConfig(t, tokens, Config(old(statusStack), old(symbolStack), p));
        && !going && Failed(r, stop.observer, old(statusStack), old(symbolStack))
        && forall j :: 0 <= j < |observers| ==>
             observers[j].Heard() == old(observers[j].Heard()) + (if j <= stop.observer then TurnEvents(r) else [])
      ensures !stop.ObserverFailed? ==>
        var r := StepConfig(t, tokens, Config(old(statusStack), old(symbolStack), p));
        && (forall j :: 0 <= j < |observers| ==> observers[j].Heard() == old(observers[j].Heard()) + TurnEvents(r))
        && (going <==> r.Continue?)
        && (going ==> stop == OutOfFuel && Config(statusStack, symbolStack, p') == r.next)
        && (!going ==> stop == r.stop && statusStack == old(statusStack) && symbolStack == old(symbolStack) && p' == p)
    {
      p' := p;
      going := false;
      if p >= |tokens| {
        return false, TokensExhausted, p;
      }
      var token := tokens[p];
      var status := statusStack[|statusStack| - 1];
      match t.action(status, token) {
        case Shift(next) =>
          CallWhenInShift(status, token);
          statusStack := statusStack + [next];
          symbolStack := symbolStack + [TokenSymbol(token)];
          p' := p + 1;
          going, stop := true, OutOfFuel;
        case Reduce(prod) =>
          going, stop := ReduceTurn(t, p, prod);
        case Accept =>
          CallWhenInAccept(status);
          stop := Accepted;
        case Error =>
          stop := SyntaxError;
      }
    }

    /**
     * The reduce turn: the observers are told first, and only then is the
     * body popped from both stacks and the goto state and the head pushed.
     */
    method ReduceTurn(t: LRTable, p: nat, prod: Production) returns (going: bool, stop: Stop)
      requires Valid() && Bound() && |statusStack| >= 1 && p < |tokens|
      requires t.action(statusStack[|statusStack| - 1], tokens[p]) == Reduce(prod)
      modifies this`statusStack, this`symbolStack, Targets(), symbolTable
      ensures Valid() && Bound() && |statusStack| >= 1
      ensures stop.ObserverFailed? ==>
        var r := StepConfig(t, tokens, Config(old(statusStack), old(symbolStack), p));
        && !going && Failed(r, stop.observer, old(statusStack), old(symbolStack))
        && forall j :: 0 <= j < |observers| ==>
             observers[j].Heard() == old(observers[j].Heard()) + (if j <= stop.observer then TurnEvents(r) else [])
      ensures !stop.ObserverFailed? ==>
        var r := StepConfig(t, tokens, Config(old(statusStack), old(symbolStack), p));
        && (forall j :: 0 <= j < |observers| ==> observers[j].Heard() == old(observers[j].Heard()) + TurnEvents(r))
        && (going <==> r.Continue?)
        && (going ==> stop == OutOfFuel && Config(statusStack, symbolStack, p) == r.next)
        && (!going ==> stop == r.stop && statusStack == old(statusStack) && symbolStack == old(symbolStack))
    {
      var status := statusStack[|statusStack| - 1];
      assert TurnEvents(StepConfig(t, tokens, Config(statusStack, symbolStack, p))) == [OnReduce(status, prod)];
      var failed := CallWhenInReduce(status, prod);
      if failed.Some? {
        return false, ObserverFailed(failed.value.0, failed.value.1);
      }
      going, stop := ApplyReduce(t, p, prod);
    }

    /** The reduce's moves on the stacks, once every observer has been told. */
    method ApplyReduce(t: LRTable, p: nat, prod: Production) returns (going: bool, stop: Stop)
      requires Valid() && |statusStack| >= 1 && p < |tokens|
      requires t.action(statusStack[|statusStack| - 1], tokens[p]) == Reduce(prod)
      modifies this`statusStack, this`symbolStack
      ensures Valid() && |statusStack| >= 1 && !stop.ObserverFailed?
      ensures var r := StepConfig(t, tokens, Config(old(statusStack), old(symbolStack), p));
        && (going <==> r.Continue?)
        && (going ==> stop == OutOfFuel && Config(statusStack, symbolStack, p) == r.next)
        && (!going ==> stop == r.stop && statusStack == old(statusStack) && symbolStack == old(symbolStack))
    {
      if |statusStack| <= prod.bodyLength {
        return false, StackUnderflow;
      }
      Pop(prod.bodyLength);
      statusStack := statusStack + [t.goto(statusStack[|statusStack| - 1], prod.head)];
      symbolStack := symbolStack + [HeadSymbol(prod.head)];
      going, stop := true, OutOfFuel;
    }

    /** The reduce's pops: `k` entries from each stack. */
    method Pop(k: nat)
      requires Valid() && k < |statusStack|
      modifies this`statusStack, this`symbolStack
      ensures Valid()
      ensures statusStack == old(statusStack)[..|old(statusStack)| - k]
      ensures symbolStack == old(symbolStack)[..|old(symbolStack)| - k]
    {
      var j := 0;
      while j < k
        invariant 0 <= j <= k
        invariant statusStack == old(statusStack)[..|old(statusStack)| - j]
        invariant symbolStack == old(symbolStack)[..|old(symbolStack)| - j]
      {
        statusStack := statusStack[..|statusStack| - 1];
        symbolStack := symbolStack[..|symbolStack| - 1];
        j := j + 1;
      }
    }
  }
}
