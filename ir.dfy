/**
 * The intermediate representation: values, instructions, and a reference
 * interpreter that gives a straight-line instruction list its meaning (the
 * value of the first `return`).
 */
module IR {
  import opened Wrappers

  /** `IRVariable`: a named program variable or a compiler temporary. */
  datatype Var = Named(name: string) | Temp(id: nat)

  datatype IRValue = Immediate(value: int) | Variable(v: Var)

  datatype Instruction =
    | Add(result: Var, lhs: IRValue, rhs: IRValue)
    | Sub(result: Var, lhs: IRValue, rhs: IRValue)
    | Mul(result: Var, lhs: IRValue, rhs: IRValue)
    | Mov(result: Var, from: IRValue)
    | Ret(returnValue: IRValue)

  predicate IsBinary(inst: Instruction) { inst.Add? || inst.Sub? || inst.Mul? }

  /** `getOprands()`: the values an instruction reads, left to right. */
  function Operands(inst: Instruction): (ops: seq<IRValue>)
    ensures |ops| == if inst.Mov? || inst.Ret? then 1 else 2
  {
    match inst
    case Add(_, l, r) => [l, r]
    case Sub(_, l, r) => [l, r]
    case Mul(_, l, r) => [l, r]
    case Mov(_, f) => [f]
    case Ret(v) => [v]
  }

  // ---------------------------------------------------------------------
  // Temporaries numbered from `n` on are fresh for a piece of IR.

  predicate FreshVar(x: Var, n: nat) { x.Temp? && x.id >= n }

  predicate ValueBelow(u: IRValue, n: nat) { u.Variable? ==> !FreshVar(u.v, n) }

  predicate InstBelow(inst: Instruction, n: nat)
  {
    (forall u :: u in Operands(inst) ==> ValueBelow(u, n)) &&
    (!inst.Ret? ==> !FreshVar(inst.result, n))
  }

  predicate AllBelow(insts: seq<Instruction>, n: nat)
  {
    forall k :: 0 <= k < |insts| ==> InstBelow(insts[k], n)
  }

  /** A bound on temporaries stays a bound when raised. */
  lemma BelowMono(insts: seq<Instruction>, n: nat, m: nat)
    requires n <= m && AllBelow(insts, n)
    ensures AllBelow(insts, m)
  {
    forall k | 0 <= k < |insts| ensures InstBelow(insts[k], m) {
      assert InstBelow(insts[k], n);
    }
  }

  // ---------------------------------------------------------------------
  // Reference semantics. A variable that was never written reads as 0.

  type Env = map<Var, int>

  function Value(env: Env, x: Var): int
  {
    if x in env then env[x] else 0
  }

  function Read(env: Env, u: IRValue): int
  {
    match u
    case Immediate(c) => c
    case Variable(x) => Value(env, x)
  }

  /** The effect of one instruction on the environment (`return` has none). */
  function Step(env: Env, inst: Instruction): Env
  {
    match inst
    case Add(d, l, r) => env[d := Read(env, l) + Read(env, r)]
    case Sub(d, l, r) => env[d := Read(env, l) - Read(env, r)]
    case Mul(d, l, r) => env[d := Read(env, l) * Read(env, r)]
    case Mov(d, f) => env[d := Read(env, f)]
    case Ret(_) => env
  }

  /** The value returned by the first `return`, if any is reached. */
  function Exec(insts: seq<Instruction>, env: Env): Option<int>
  {
    if insts == [] then None
    else if insts[0].Ret? then Some(Read(env, insts[0].returnValue))
    else Exec(insts[1..], Step(env, insts[0]))
  }

  /** The environment after running every instruction of a list. */
  function Apply(env: Env, insts: seq<Instruction>): Env
    decreases insts
  {
    if insts == [] then env else Apply(Step(env, insts[0]), insts[1..])
  }

  /** Running a return-free prefix first, then the rest, is running both. */
  lemma {:induction false} ExecAppend(a: seq<Instruction>, rest: seq<Instruction>, env: Env)
    requires forall k :: 0 <= k < |a| ==> !a[k].Ret?
    ensures Exec(a + rest, env) == Exec(rest, Apply(env, a))
  {
    if a != [] {
      assert (a + rest)[0] == a[0];
      assert (a + rest)[1..] == a[1..] + rest;
      ExecAppend(a[1..], rest, Step(env, a[0]));
    } else {
      assert a + rest == rest;
    }
  }
}
