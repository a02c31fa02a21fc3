/**
 * The specification of `AssemblyGenerator.loadIR`: the legalisation that
 * rewrites IR so that every instruction has an operand shape the RISC-V
 * instructions can take. Temporaries come from a counter `next`.
 */
module Legalize {
  import opened Wrappers
  import opened IR

  /**
   * The shapes the emitter accepts: `add` and `sub` read a register first,
   * `mul` reads two registers; moves and returns take anything.
   */
  predicate Legal(inst: Instruction)
    ensures Legal(inst) && (inst.Add? || inst.Sub? || inst.Mul?) ==> Operands(inst)[0].Variable?
    ensures Legal(inst) && inst.Mul? ==> forall u :: u in Operands(inst) ==> u.Variable?
  {
    match inst
    case Add(_, l, _) => l.Variable?
    case Sub(_, l, _) => l.Variable?
    case Mul(_, l, r) => l.Variable? && r.Variable?
    case Mov(_, _) => true
    case Ret(_) => true
  }

  /** One non-return instruction rewritten; the counter after it. */
  function LegalizeOne(inst: Instruction, next: nat): (r: (seq<Instruction>, nat))
    ensures 1 <= |r.0| <= 2 && next <= r.1 <= next + 1
  {
    match inst
    case Mov(_, _) => ([inst], next)
    case Ret(_) => ([inst], next)
    case Add(d, l, r) =>
      if l.Immediate? && r.Immediate? then ([Mov(d, Immediate(l.value + r.value))], next)
      else if l.Immediate? then ([Add(d, r, l)], next)
      else ([inst], next)
    case Sub(d, l, r) =>
      if l.Immediate? && r.Immediate? then ([Mov(d, Immediate(l.value - r.value))], next)
      else if l.Immediate? then ([Mov(Temp(next), l), Sub(d, Variable(Temp(next)), r)], next + 1)
      else ([inst], next)
    case Mul(d, l, r) =>
      if l.Immediate? && r.Immediate? then ([Mov(d, Immediate(l.value * r.value))], next)
      else if l.Immediate? then ([Mov(Temp(next), l), Mul(d, Variable(Temp(next)), r)], next + 1)
      else if r.Immediate? then ([Mov(Temp(next), r), Mul(d, l, Variable(Temp(next)))], next + 1)
      else ([inst], next)
  }

  /**
   * The whole list rewritten, up to and including the first return; what
   * follows a return is dropped.
   */
  function Normalize(origin: seq<Instruction>, next: nat): (r: (seq<Instruction>, nat))
    ensures |r.0| <= 2 * |origin| && next <= r.1 <= next + |origin|
  {
    if origin == [] then ([], next)
    else if origin[0].Ret? then ([origin[0]], next)
    else
      var (a, next1) := LegalizeOne(origin[0], next);
      var (b, next2) := Normalize(origin[1..], next1);
      (a + b, next2)
  }

  predicate HasRet(insts: seq<Instruction>) { exists k :: 0 <= k < |insts| && insts[k].Ret? }

  /** Index of the first return, or the length when there is none. */
  function FirstRet(insts: seq<Instruction>): (k: nat)
    ensures k <= |insts|
    ensures forall j :: 0 <= j < k ==> !insts[j].Ret?
    ensures k < |insts| <==> HasRet(insts)
    ensures k < |insts| ==> insts[k].Ret?
  {
    if insts == [] then 0
    else if insts[0].Ret? then 0
    else
      var k := 1 + FirstRet(insts[1..]);
      assert forall j :: 1 <= j < |insts| ==> insts[j] == insts[1..][j - 1];
      k
  }

  // ---------------------------------------------------------------------
  // One instruction

  /** A single rewrite yields one or two legal instructions and never a return. */
  lemma LegalizeOneShape(inst: Instruction, next: nat)
    requires !inst.Ret?
    ensures var (out, next') := LegalizeOne(inst, next);
      && 1 <= |out| <= 2
      && (forall k :: 0 <= k < |out| ==> Legal(out[k]) && !out[k].Ret?)
      && (next' == next <==> |out| == 1)
      && (|out| == 2 ==> next' == next + 1 && out[0] == Mov(Temp(next), if inst.lhs.Immediate? then inst.lhs else inst.rhs))
  {
  }

  /** An instruction that is already legal passes through unchanged. */
  lemma LegalizeOneLegal(inst: Instruction, next: nat)
    requires Legal(inst)
    ensures LegalizeOne(inst, next) == ([inst], next)
  {
  }

  // ---------------------------------------------------------------------
  // The whole list

  /** After normalisation every instruction has a legal shape. */
  lemma {:induction false} NormalizeLegal(origin: seq<Instruction>, next: nat)
    ensures forall k :: 0 <= k < |Normalize(origin, next).0| ==> Legal(Normalize(origin, next).0[k])
    ensures Normalize(origin, next).1 >= next
  {
    if origin != [] && !origin[0].Ret? {
      var (a, next1) := LegalizeOne(origin[0], next);
      LegalizeOneShape(origin[0], next);
      NormalizeLegal(origin[1..], next1);
    }
  }

  /** No instruction in the output has two immediates, and `mul` none at all. */
  lemma NormalizeNoImmediatePairs(origin: seq<Instruction>, next: nat)
    ensures forall k :: 0 <= k < |Normalize(origin, next).0| ==>
      var inst := Normalize(origin, next).0[k];
      && (IsBinary(inst) ==> !(inst.lhs.Immediate? && inst.rhs.Immediate?))
      && (inst.Sub? ==> !inst.lhs.Immediate?)
      && (inst.Mul? ==> !inst.lhs.Immediate? && !inst.rhs.Immediate?)
  {
    NormalizeLegal(origin, next);
  }

  /**
   * The output reaches a return exactly when the input does: then the
   * output's last instruction is the input's first return and no other
   * instruction of the output is a return.
   */
  lemma {:induction false} NormalizeStopsAtRet(origin: seq<Instruction>, next: nat)
    ensures var out := Normalize(origin, next).0;
      && (forall k :: 0 <= k < |out| - 1 ==> !out[k].Ret?)
      && (HasRet(origin) <==> |out| > 0 && out[|out| - 1].Ret?)
      && (HasRet(origin) ==> out[|out| - 1] == origin[FirstRet(origin)])
  {
    if origin != [] && !origin[0].Ret? {
      var (a, next1) := LegalizeOne(origin[0], next);
      LegalizeOneShape(origin[0], next);
      NormalizeStopsAtRet(origin[1..], next1);
      var b := Normalize(origin[1..], next1).0;
      assert HasRet(origin) <==> HasRet(origin[1..]) by {
        if HasRet(origin) {
          var k :| 0 <= k < |origin| && origin[k].Ret?;
          assert origin[1..][k - 1].Ret?;
        }
        if HasRet(origin[1..]) {
          var k :| 0 <= k < |origin[1..]| && origin[1..][k].Ret?;
          assert origin[k + 1].Ret?;
        }
      }
      if HasRet(origin) {
        assert origin[FirstRet(origin)] == origin[1..][FirstRet(origin[1..])];
      }
    }
  }

  /** Whatever follows the first return is dropped. */
  lemma {:induction false} NormalizeDropsAfterRet(origin: seq<Instruction>, rest: seq<Instruction>, next: nat)
    requires HasRet(origin)
    ensures Normalize(origin + rest, next) == Normalize(origin, next)
  {
    assert (origin + rest)[0] == origin[0];
    if !origin[0].Ret? {
      var k :| 0 <= k < |origin| && origin[k].Ret?;
      assert origin[1..][k - 1].Ret?;
      assert (origin + rest)[1..] == origin[1..] + rest;
      var (a, next1) := LegalizeOne(origin[0], next);
      NormalizeDropsAfterRet(origin[1..], rest, next1);
    }
  }

  /** Normalising twice changes nothing: the output is already in normal form. */
  lemma {:induction false} NormalizeIdempotent(origin: seq<Instruction>, next: nat, other: nat)
    ensures Normalize(Normalize(origin, next).0, other) == (Normalize(origin, next).0, other)
  {
    var out := Normalize(origin, next).0;
    NormalizeLegal(origin, next);
    NormalizeStopsAtRet(origin, next);
    NormalFormFixed(out, other);
  }

  /** A legal list with no return before its last instruction is a fixed point. */
  lemma {:induction false} NormalFormFixed(insts: seq<Instruction>, next: nat)
    requires forall k :: 0 <= k < |insts| ==> Legal(insts[k])
    requires forall k :: 0 <= k < |insts| - 1 ==> !insts[k].Ret?
    ensures Normalize(insts, next) == (insts, next)
  {
    if insts != [] && !insts[0].Ret? {
      LegalizeOneLegal(insts[0], next);
      NormalFormFixed(insts[1..], next);
      assert Normalize(insts, next) == ([insts[0]] + Normalize(insts[1..], next).0, Normalize(insts[1..], next).1);
      assert insts == [insts[0]] + insts[1..];
    } else if insts != [] {
      assert insts == [insts[0]];
    }
  }

  /** `x` is a temporary numbered in `[lo, hi)`. */
  predicate Between(x: Var, lo: nat, hi: nat) { x.Temp? && lo <= x.id < hi }

  /** No instruction reads or writes a temporary numbered in `[lo, hi)`. */
  predicate NoneBetween(insts: seq<Instruction>, lo: nat, hi: nat)
  {
    forall k :: 0 <= k < |insts| ==>
      && (forall u :: u in Operands(insts[k]) && u.Variable? ==> !Between(u.v, lo, hi))
      && (!insts[k].Ret? ==> !Between(insts[k].result, lo, hi))
  }

  /**
   * Temporaries created by normalisation are numbered from `next` on: the
   * counter never goes down, and every temporary numbered `n` or above in
   * the output lies in `[next, counter after)`.
   */
  lemma {:induction false} NormalizeFresh(origin: seq<Instruction>, next: nat, n: nat)
    requires n <= next && AllBelow(origin, n)
    ensures next <= Normalize(origin, next).1
    ensures AllBelow(Normalize(origin, next).0, Normalize(origin, next).1)
    ensures NoneBetween(Normalize(origin, next).0, n, next)
    ensures |Normalize(origin, next).0| <= 2 * |origin|
  {
    if origin == [] {
    } else if origin[0].Ret? {
      assert InstBelow(origin[0], n);
    } else {
      var (a, next1) := LegalizeOne(origin[0], next);
      assert InstBelow(origin[0], n);
      assert AllBelow(origin[1..], n) by {
        forall k | 0 <= k < |origin[1..]| ensures InstBelow(origin[1..][k], n) {
          assert origin[1..][k] == origin[k + 1];
        }
      }
      NormalizeFresh(origin[1..], next1, n);
      var (b, next2) := Normalize(origin[1..], next1);
      NormalizeLegal(origin[1..], next1);
      LegalizeOneFresh(origin[0], next, n);
      BelowMono(a, next1, next2);
      LegalizeOneShape(origin[0], next);
      assert |b| <= 2 * |origin[1..]|;
      assert NoneBetween(b, n, next) by {
        forall k | 0 <= k < |b| ensures !b[k].Ret? ==> !Between(b[k].result, n, next) {
          assert !b[k].Ret? ==> !Between(b[k].result, n, next1);
        }
      }
      assert Normalize(origin, next).0 == a + b;
      assert NoneBetween(a + b, n, next) by {
        forall k | 0 <= k < |a + b|
          ensures (a + b)[k] == (if k < |a| then a[k] else b[k - |a|])
        {
        }
      }
    }
  }

  lemma LegalizeOneFresh(inst: Instruction, next: nat, n: nat)
    requires !inst.Ret? && n <= next && InstBelow(inst, n)
    ensures next <= LegalizeOne(inst, next).1
    ensures AllBelow(LegalizeOne(inst, next).0, LegalizeOne(inst, next).1)
    ensures NoneBetween(LegalizeOne(inst, next).0, n, next)
  {
    var (out, next') := LegalizeOne(inst, next);
    assert !FreshVar(inst.result, next');
    forall u | u in Operands(inst) ensures ValueBelow(u, next') {
      assert ValueBelow(u, n);
    }
    forall k | 0 <= k < |out| ensures InstBelow(out[k], next') {
      forall u | u in Operands(out[k]) ensures ValueBelow(u, next') {
        assert u in Operands(inst) || u == Variable(Temp(next)) || u.Immediate?;
      }
    }
    forall k, u | 0 <= k < |out| && u in Operands(out[k]) && u.Variable? ensures !Between(u.v, n, next) {
      assert u in Operands(inst) || u == Variable(Temp(next));
      if u in Operands(inst) {
        assert ValueBelow(u, n);
      }
    }
  }

  // ---------------------------------------------------------------------
  // Normalisation keeps the meaning of the program.

  /** Two environments that agree on every variable that is not fresh. */
  ghost predicate Agree(e1: Env, e2: Env, n: nat)
  {
    forall x :: !FreshVar(x, n) ==> Value(e1, x) == Value(e2, x)
  }

  lemma AgreeRead(e1: Env, e2: Env, n: nat, u: IRValue)
    requires Agree(e1, e2, n) && ValueBelow(u, n)
    ensures Read(e1, u) == Read(e2, u)
  {
  }

  lemma AgreeUpdate(e1: Env, e2: Env, n: nat, x: Var, c: int)
    requires Agree(e1, e2, n)
    ensures Agree(e1[x := c], e2[x := c], n)
  {
    forall y | !FreshVar(y, n) ensures Value(e1[x := c], y) == Value(e2[x := c], y) {
      assert Value(e1, y) == Value(e2, y);
    }
  }

  lemma AgreeFresh(e1: Env, e2: Env, n: nat, t: Var, c: int)
    requires Agree(e1, e2, n) && FreshVar(t, n)
    ensures Agree(e1[t := c], e2, n)
  {
    forall y | !FreshVar(y, n) ensures Value(e1[t := c], y) == Value(e2, y) {
      assert Value(e1, y) == Value(e2, y);
    }
  }

  /** One rewrite has the effect of the original instruction off the fresh temporaries. */
  lemma LegalizeOneMeaning(inst: Instruction, next: nat, n: nat, e1: Env, e2: Env)
    requires !inst.Ret? && n <= next && InstBelow(inst, n) && Agree(e1, e2, n)
    ensures Agree(Apply(e1, LegalizeOne(inst, next).0), Step(e2, inst), n)
  {
    var out := LegalizeOne(inst, next).0;
    forall u | u in Operands(inst) ensures Read(e1, u) == Read(e2, u) {
      AgreeRead(e1, e2, n, u);
    }
    if |out| == 1 {
      assert Apply(e1, out) == Step(e1, out[0]) by {
        assert out[1..] == [];
      }
      AgreeUpdate(e1, e2, n, inst.result, Read(Step(e2, inst), Variable(inst.result)));
    } else {
      var t := Temp(next);
      var c := Read(e1, out[0].from);
      var e1t := e1[t := c];
      assert Apply(e1, out) == Step(e1t, out[1]) by {
        assert Step(e1, out[0]) == e1t;
        assert out[1..] == [out[1]] && out[1..][1..] == [];
        assert Apply(e1, out) == Apply(e1t, [out[1]]);
        assert Apply(e1t, [out[1]]) == Apply(Step(e1t, out[1]), []);
      }
      AgreeFresh(e1, e2, n, t, c);
      forall u | u in Operands(inst) ensures Read(e1t, u) == Read(e2, u) {
        AgreeRead(e1t, e2, n, u);
      }
      AgreeUpdate(e1t, e2, n, inst.result, Read(Step(e2, inst), Variable(inst.result)));
    }
  }

  /**
   * Taking environments that agree off the fresh temporaries, the
   * normalised program returns what the original returns.
   */
  lemma {:induction false} NormalizeMeaning(origin: seq<Instruction>, next: nat, n: nat, e1: Env, e2: Env)
    requires n <= next && AllBelow(origin, n) && Agree(e1, e2, n)
    ensures Exec(Normalize(origin, next).0, e1) == Exec(origin, e2)
  {
    if origin == [] {
    } else if origin[0].Ret? {
      assert InstBelow(origin[0], n);
      assert origin[0].returnValue in Operands(origin[0]);
    } else {
      var (a, next1) := LegalizeOne(origin[0], next);
      var (b, next2) := Normalize(origin[1..], next1);
      assert InstBelow(origin[0], n);
      LegalizeOneShape(origin[0], next);
      LegalizeOneMeaning(origin[0], next, n, e1, e2);
      ExecAppend(a, b, e1);
      var e1' := Apply(e1, a);
      assert AllBelow(origin[1..], n) by {
        forall k | 0 <= k < |origin[1..]| ensures InstBelow(origin[1..][k], n) {
          assert origin[1..][k] == origin[k + 1];
        }
      }
      NormalizeMeaning(origin[1..], next1, n, e1', Step(e2, origin[0]));
    }
  }

  /** With the same starting environment, normalisation keeps the returned value. */
  lemma NormalizePreservesResult(origin: seq<Instruction>, next: nat, env: Env)
    requires AllBelow(origin, next)
    ensures Exec(Normalize(origin, next).0, env) == Exec(origin, env)
  {
    NormalizeMeaning(origin, next, next, env, env);
  }
}
