/**
 * The IR-building observer: it keeps its own stack of symbols, each with the
 * IR value it carries, and appends one instruction per assignment, return
 * and arithmetic reduction. Fresh temporaries are numbered by `nextTemp`.
 */
module IRGen {
  import opened Wrappers
  import opened Tokens
  import opened Grammar
  import opened IR
  import opened SymTab
  import Lexer

  /** A parse-stack entry with the IR value it carries (none for most heads). */
  datatype ValuedSymbol = ValuedSymbol(symbol: Symbol, value: Option<IRValue>)

  // Production numbers the generator dispatches on.
  /** `S -> id = E` */
  const Assign: int := 6
  /** `S -> return E` */
  const Return: int := 7
  /** `E -> E + A` */
  const Plus: int := 8
  /** `E -> E - A` */
  const Minus: int := 9
  /** `A -> A * B` */
  const Times: int := 11
  /** `B -> ( E )` */
  const Parenthesis: int := 13

  /** `E -> A`, `A -> B`, `B -> id`, `B -> IntConst`: the value passes up. */
  predicate IsForward(index: int) { index == 10 || index == 12 || index == 14 || index == 15 }

  predicate IsArithmetic(index: int) { index == Plus || index == Minus || index == Times }

  // ---------------------------------------------------------------------
  // Decimal literals

  /** Text matching `^\d+$`: one or more ASCII digits. */
  predicate IsDecimal(s: string) { |s| > 0 && Lexer.AllDigits(s) }

  function DigitValue(c: char): nat
    requires Lexer.IsDigit(c)
  {
    (c as int - '0' as int) as nat
  }

  function Pow10(k: nat): nat
  {
    if k == 0 then 1 else 10 * Pow10(k - 1)
  }

  /** `Integer.parseInt` on a digit string, most significant digit first: `k` digits stay below 10^k. */
  function DecimalValue(s: string): (n: nat)
    requires Lexer.AllDigits(s)
    ensures n < Pow10(|s|)
  {
    if s == [] then 0 else 10 * DecimalValue(s[..|s| - 1]) + DigitValue(s[|s| - 1])
  }

  /** The shortest decimal text of `n`. */
  function DecimalText(n: nat): (s: string)
    ensures IsDecimal(s)
  {
    if n < 10 then [('0' as int + n) as char]
    else DecimalText(n / 10) + [('0' as int + n % 10) as char]
  }

  /** Reading back the text of a number gives the number. */
  lemma {:induction false} DecimalRoundTrip(n: nat)
    ensures DecimalValue(DecimalText(n)) == n
  {
    if n >= 10 {
      var s := DecimalText(n);
      assert s[..|s| - 1] == DecimalText(n / 10);
      DecimalRoundTrip(n / 10);
    }
  }

  /** Leading zeros do not change the value. */
  lemma {:induction false} DecimalLeadingZero(s: string)
    requires Lexer.AllDigits(s)
    ensures DecimalValue(['0'] + s) == DecimalValue(s)
  {
    if s != [] {
      assert (['0'] + s)[..|['0'] + s| - 1] == ['0'] + s[..|s| - 1];
      DecimalLeadingZero(s[..|s| - 1]);
    }
  }

  /**
   * The value a shifted token carries: the number for decimal text, and
   * otherwise the variable named by the text.
   */
  function ShiftValue(text: string): (v: IRValue)
    ensures v.Immediate? <==> IsDecimal(text)
    ensures v.Immediate? ==> v.value == DecimalValue(text)
    ensures v.Variable? ==> v.v == Named(text)
  {
    if IsDecimal(text) then Immediate(DecimalValue(text)) else Variable(Named(text))
  }

  /** How many entries a reduction pops from this observer's stack: one to three for the productions it knows, else the body. */
  function Pops(p: Production): (n: nat)
    ensures 1 <= n <= 3 || n == p.bodyLength
  {
    if p.index == Assign || IsArithmetic(p.index) || p.index == Parenthesis then 3
    else if p.index == Return then 2
    else if IsForward(p.index) then 1
    else p.bodyLength
  }

  /** Entry `k` from the top of a stack (0 is the top). */
  function Top<T>(s: seq<T>, k: nat): T
    requires k < |s|
  {
    s[|s| - 1 - k]
  }

  /**
   * The binary instruction of an arithmetic production: running it sets `d`
   * to the sum, difference or product of the operands, as the production
   * says, and leaves every other variable alone.
   */
  function Arithmetic(index: int, d: Var, l: IRValue, r: IRValue): (inst: Instruction)
    requires IsArithmetic(index)
    ensures IsBinary(inst) && inst.result == d && inst.lhs == l && inst.rhs == r
    ensures index == Plus ==> forall env: Env :: Value(Step(env, inst), d) == Read(env, l) + Read(env, r)
    ensures index == Minus ==> forall env: Env :: Value(Step(env, inst), d) == Read(env, l) - Read(env, r)
    ensures index == Times ==> forall env: Env :: Value(Step(env, inst), d) == Read(env, l) * Read(env, r)
    ensures forall env: Env, x: Var :: x != d ==> Value(Step(env, inst), x) == Value(env, x)
  {
    if index == Plus then Add(d, l, r) else if index == Minus then Sub(d, l, r) else Mul(d, l, r)
  }

  /** Values carried on the stack never name a temporary numbered `n` or above. */
  predicate StackBelow(stack: seq<ValuedSymbol>, n: nat)
  {
    forall k :: 0 <= k < |stack| && stack[k].value.Some? ==> ValueBelow(stack[k].value.value, n)
  }

  class IRGenerator {
    var table: SymbolTable?
    var tokenStack: seq<ValuedSymbol>
    var ir: seq<Instruction>
    /** Next temporary number (the source's global temporary counter). */
    var nextTemp: nat
    /** Every call this observer has received, in order. */
    ghost var heard: seq<Event>

    /**
     * Temporaries at or above `nextTemp` are unused: not in the IR, not
     * carried on the stack.
     */
    ghost predicate Valid()
      reads this`ir, this`tokenStack, this`nextTemp
    {
      AllBelow(ir, nextTemp) && StackBelow(tokenStack, nextTemp)
    }

    constructor (nextTemp: nat)
      ensures Valid()
      ensures table == null && tokenStack == [] && ir == [] && this.nextTemp == nextTemp && heard == []
    {
      heard := [];
      table := null;
      tokenStack := [];
      ir := [];
      this.nextTemp := nextTemp;
    }

    /** `setSymbolTable`. */
    method SetSymbolTable(t: SymbolTable)
      modifies this`table
      ensures table == t
    {
      table := t;
    }

    /** `whenAccept`: nothing to do beyond being told. */
    method WhenAccept(state: State)
      modifies this`heard
      ensures heard == old(heard) + [OnAccept(state)]
      ensures table == old(table) && tokenStack == old(tokenStack) && ir == old(ir) && nextTemp == old(nextTemp)
    {
      heard := heard + [OnAccept(state)];
    }

    /**
     * `whenShift`: pushes exactly one symbol carrying the token's value
     * (a number for decimal text, otherwise the named variable) and appends
     * no instruction.
     */
    method WhenShift(state: State, token: Token)
      requires Valid()
      modifies this`tokenStack, this`heard
      ensures Valid()
      ensures heard == old(heard) + [OnShift(state, token)]
      ensures tokenStack == old(tokenStack) + [ValuedSymbol(TokenSymbol(token), Some(ShiftValue(token.text)))]
    {
      heard := heard + [OnShift(state, token)];
      ShiftValueBelow(token.text, nextTemp);
      tokenStack := tokenStack + [ValuedSymbol(TokenSymbol(token), Some(ShiftValue(token.text)))];
    }

    /**
     * `whenReduce`. An assignment pops value, `=` and target and appends
     * `Mov(target, value)`; a return pops value and keyword and appends
     * `Ret(value)`; an arithmetic production pops right operand, operator
     * and left operand and appends the operation into a fresh temporary,
     * which the pushed head carries; the forwarding productions pass the
     * value up (the parenthesis its middle symbol's); any other production
     * pops its body. Each pushes one head symbol and appends at most one
     * instruction.
     */
    method WhenReduce(state: State, p: Production) returns (fault: Option<Fault>)
      requires Valid()
      modifies this`tokenStack, this`ir, this`nextTemp, this`heard
      ensures Valid()
      ensures heard == old(heard) + [OnReduce(state, p)]
      ensures Reduced(p, fault)
    {
      heard := heard + [OnReduce(state, p)];
      fault := Reduce(p);
    }

    /**
     * What one reduction does to the stack, the IR and the temporary
     * counter: the pops, the faults (each exactly when it can arise), at
     * most one appended instruction, and the outcome `ReduceOutcome` gives.
     */
    twostate predicate Reduced(p: Production, new fault: Option<Fault>)
      reads this
    {
      var n := |old(tokenStack)|;
      && (fault == Some(EmptyStack) <==> n < Pops(p))
      && (fault == Some(EmptyStack) ==> tokenStack == [])
      && (fault.Some? && fault != Some(EmptyStack) ==> tokenStack == old(tokenStack)[..n - Pops(p)])
      && (fault.None? ==> |tokenStack| == n - Pops(p) + 1 &&
                            tokenStack[..n - Pops(p)] == old(tokenStack)[..n - Pops(p)] &&
                            tokenStack[n - Pops(p)].symbol == HeadSymbol(p.head))
      && (fault.Some? ==> ir == old(ir) && nextTemp == old(nextTemp))
      && (fault.Some? ==> fault.value in {EmptyStack, NotAVariable, MissingValue})
      && (fault.None? ==> |old(ir)| <= |ir| <= |old(ir)| + 1 && ir[..|old(ir)|] == old(ir))
      && nextTemp == old(nextTemp) + (if fault.None? && IsArithmetic(p.index) then 1 else 0)
      && (n >= Pops(p) ==> ReduceOutcome(old(tokenStack), p, old(nextTemp), fault, ir[|old(ir)|..], tokenStack))
    }

    /** The body of `whenReduce`, production by production. */
    method Reduce(p: Production) returns (fault: Option<Fault>)
      requires Valid()
      modifies this`tokenStack, this`ir, this`nextTemp
      ensures Valid()
      ensures Reduced(p, fault)
    {
      ghost var n := |tokenStack|;
      if |tokenStack| < Pops(p) {
        tokenStack := [];
        return Some(EmptyStack);
      }
      var head := HeadSymbol(p.head);
      if p.index == Assign {
        fault := ReduceAssign(p);
      } else if p.index == Return {
        fault := ReduceReturn(p);
      } else if IsArithmetic(p.index) {
        fault := ReduceArithmetic(p);
      } else if IsForward(p.index) {
        var top := Top(tokenStack, 0);
        tokenStack := tokenStack[..|tokenStack| - 1] + [ValuedSymbol(head, top.value)];
        fault := None;
      } else if p.index == Parenthesis {
        var middle := Top(tokenStack, 1);
        tokenStack := tokenStack[..|tokenStack| - 3] + [ValuedSymbol(head, middle.value)];
        fault := None;
      } else {
        PopBody(p.bodyLength);
        tokenStack := tokenStack + [ValuedSymbol(head, None)];
        fault := None;
      }
    }

    /** `S -> id = E`: pops value, `=` and target, and appends the move. */
    method ReduceAssign(p: Production) returns (fault: Option<Fault>)
      requires Valid() && p.index == Assign && |tokenStack| >= Pops(p)
      modifies this`tokenStack, this`ir
      ensures Valid()
      ensures Reduced(p, fault)
    {
      var rhs := Top(tokenStack, 0);
      var lhs := Top(tokenStack, 2);
      tokenStack := tokenStack[..|tokenStack| - 3];
      if lhs.value.Some? && lhs.value.value.Immediate? {
        return Some(NotAVariable);
      }
      if lhs.value == None || rhs.value == None {
        return Some(MissingValue);
      }
      ir := ir + [Mov(lhs.value.value.v, rhs.value.value)];
      tokenStack := tokenStack + [ValuedSymbol(HeadSymbol(p.head), None)];
      fault := None;
    }

    /** `S -> return E`: pops value and keyword, and appends the return. */
    method ReduceReturn(p: Production) returns (fault: Option<Fault>)
      requires Valid() && p.index == Return && |tokenStack| >= Pops(p)
      modifies this`tokenStack, this`ir
      ensures Valid()
      ensures Reduced(p, fault)
    {
      var rhs := Top(tokenStack, 0);
      tokenStack := tokenStack[..|tokenStack| - 2];
      if rhs.value == None {
        return Some(MissingValue);
      }
      ir := ir + [Ret(rhs.value.value)];
      tokenStack := tokenStack + [ValuedSymbol(HeadSymbol(p.head), None)];
      fault := None;
    }

    /**
     * `E -> E + A`, `E -> E - A`, `A -> A * B`: pops right operand, operator
     * and left operand, and appends the operation into a fresh temporary,
     * which the pushed head carries.
     */
    method ReduceArithmetic(p: Production) returns (fault: Option<Fault>)
      requires Valid() && IsArithmetic(p.index) && |tokenStack| >= Pops(p)
      modifies this`tokenStack, this`ir, this`nextTemp
      ensures Valid()
      ensures Reduced(p, fault)
    {
      var rhs := Top(tokenStack, 0);
      var lhs := Top(tokenStack, 2);
      tokenStack := tokenStack[..|tokenStack| - 3];
      if lhs.value == None || rhs.value == None {
        return Some(MissingValue);
      }
      var tmp := Temp(nextTemp);
      nextTemp := nextTemp + 1;
      ir := ir + [Arithmetic(p.index, tmp, lhs.value.value, rhs.value.value)];
      tokenStack := tokenStack + [ValuedSymbol(HeadSymbol(p.head), Some(Variable(tmp)))];
      fault := None;
    }

    /** The default case of `whenReduce`: pops `k` symbols, one at a time. */
    method PopBody(k: nat)
      requires k <= |tokenStack|
      modifies this`tokenStack
      ensures tokenStack == old(tokenStack)[..|old(tokenStack)| - k]
    {
      var i := 0;
      while i < k
        invariant 0 <= i <= k
        invariant tokenStack == old(tokenStack)[..|old(tokenStack)| - i]
      {
        tokenStack := tokenStack[..|tokenStack| - 1];
        i := i + 1;
      }
    }
  }

  /**
   * What one reduction does to a stack with enough entries: the faults it
   * can raise, the instructions it appends and the value the new head
   * carries. A successful one appends at most one instruction, and when the
   * stack's values lie below the counter, that instruction uses no
   * temporary but those and the fresh one at the counter.
   */
  ghost predicate ReduceOutcome(stack: seq<ValuedSymbol>, p: Production, next: nat,
                                fault: Option<Fault>, appended: seq<Instruction>, after: seq<ValuedSymbol>)
    requires |stack| >= Pops(p)
    ensures ReduceOutcome(stack, p, next, fault, appended, after) && fault.None? ==> |appended| <= 1
    ensures ReduceOutcome(stack, p, next, fault, appended, after) && fault.None? && StackBelow(stack, next) ==>
              AllBelow(appended, next + 1)
  {
    var carried := if fault.None? && |after| > 0 then after[|after| - 1].value else None;
    if p.index == Assign then
      var target := Top(stack, 2).value;
      var source := Top(stack, 0).value;
      && (fault == Some(NotAVariable) <==> target.Some? && target.value.Immediate?)
      && (fault == Some(MissingValue) <==> !(target.Some? && target.value.Immediate?) && (target.None? || source.None?))
      && (fault.None? ==> appended == [Mov(target.value.v, source.value)] && carried == None)
    else if p.index == Return then
      var source := Top(stack, 0).value;
      && (fault == Some(MissingValue) <==> source.None?)
      && fault != Some(NotAVariable)
      && (fault.None? ==> appended == [Ret(source.value)] && carried == None)
    else if IsArithmetic(p.index) then
      var l := Top(stack, 2).value;
      var r := Top(stack, 0).value;
      && (fault == Some(MissingValue) <==> l.None? || r.None?)
      && fault != Some(NotAVariable)
      && (fault.None? ==>
            appended == [Arithmetic(p.index, Temp(next), l.value, r.value)] &&
            carried == Some(Variable(Temp(next))))
    else
      && fault.None?
      && appended == []
      && carried == (if IsForward(p.index) then Top(stack, 0).value
                     else if p.index == Parenthesis then Top(stack, 1).value
                     else None)
  }

  lemma ShiftValueBelow(text: string, n: nat)
    ensures ValueBelow(ShiftValue(text), n)
  {
  }
}
